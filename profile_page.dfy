/** The profile form: its defaults taken from the saved profile, the hostel options that
    follow the chosen gender, the change handler and the save, which hands the form (without
    its photo preview) to the profile store. */
module ProfilePage {
  import opened Wrappers
  import opened Records
  import opened ProfileHostels
  import ProfileContext

  const DefaultCountryCode: string := "+91"

  /** The form's fields. */
  datatype FormData = FormData(
    firstName: string,
    lastName: string,
    email: string,
    branch: string,
    year: string,
    gender: string,
    isHosteller: bool,
    hostelName: string,
    countryCode: string,
    whatsappNumber: string,
    profilePhotoPreview: Option<string>)

  /** The photo preview of a saved profile: its photo address, when it has one. */
  function PhotoPreview(profile: Option<Profile>): (r: Option<string>)
    ensures r.Some? <==> profile.Some? && profile.value.profilePhotoUrl != ""
    ensures r.Some? ==> r.value == profile.value.profilePhotoUrl
  {
    if profile.Some? && profile.value.profilePhotoUrl != "" then Some(profile.value.profilePhotoUrl) else None
  }

  /** `getInitialFormData(profile)`: the saved values, "" for every absent text, false for an
      absent `isHosteller` (a saved false is kept), "+91" for an absent country code. */
  function InitialFormData(profile: Option<Profile>): (r: FormData)
    ensures profile.None? ==> r == FormData("", "", "", "", "", "", false, "", DefaultCountryCode, "", None)
    ensures profile.Some? ==>
      (&& r.firstName == profile.value.firstName && r.lastName == profile.value.lastName
       && r.email == profile.value.email && r.branch == profile.value.branch && r.year == profile.value.year
       && r.gender == profile.value.gender && r.hostelName == profile.value.hostelName
       && r.whatsappNumber == profile.value.whatsappNumber)
    ensures r.isHosteller <==> profile.Some? && profile.value.isHosteller == Some(true)
    ensures r.countryCode != ""
    ensures profile.Some? && profile.value.countryCode != "" ==> r.countryCode == profile.value.countryCode
    ensures profile.Some? && profile.value.countryCode == "" ==> r.countryCode == DefaultCountryCode
    ensures r.profilePhotoPreview == PhotoPreview(profile)
  {
    match profile
    case None => FormData("", "", "", "", "", "", false, "", DefaultCountryCode, "", None)
    case Some(p) =>
      FormData(p.firstName, p.lastName, p.email, p.branch, p.year, p.gender,
               p.isHosteller.GetOr(false), p.hostelName,
               if p.countryCode != "" then p.countryCode else DefaultCountryCode,
               p.whatsappNumber, PhotoPreview(profile))
  }

  /** The data `handleSubmit` saves: the form without its photo preview. */
  function SavedData(f: FormData): (d: ProfileContext.ProfileData)
  {
    ProfileContext.ProfileData(f.firstName, f.lastName, f.email, f.branch, f.year, f.gender,
                               f.isHosteller, f.hostelName, f.countryCode, f.whatsappNumber)
  }

  /** Saving a form and filling the form afresh from the profile it produces gives the same
      form back, with the preview of the photo the profile already had. */
  lemma SaveThenReload(prev: Option<Profile>, f: FormData)
    requires f.countryCode != ""
    ensures InitialFormData(Some(ProfileContext.Merge(prev, SavedData(f)))) == f.(profilePhotoPreview := PhotoPreview(prev))
  {
  }

  /** The value of the text field called `name`, or None when the form has no such text field. */
  function FieldValue(f: FormData, name: string): Option<string>
  {
    match name
    case "firstName" => Some(f.firstName)
    case "lastName" => Some(f.lastName)
    case "email" => Some(f.email)
    case "branch" => Some(f.branch)
    case "year" => Some(f.year)
    case "gender" => Some(f.gender)
    case "hostelName" => Some(f.hostelName)
    case "countryCode" => Some(f.countryCode)
    case "whatsappNumber" => Some(f.whatsappNumber)
    case _ => None
  }

  /** `handleChange` for an input called `name` taking `value`: the hosteller radio sets the
      flag to whether "yes" was chosen; a text field takes the value verbatim and nothing else
      changes. */
  function HandleChange(f: FormData, name: string, value: string): (r: FormData)
    ensures name == "isHosteller" ==> r == f.(isHosteller := value == "yes")
    ensures name != "isHosteller" ==> r.isHosteller == f.isHosteller && r.profilePhotoPreview == f.profilePhotoPreview
    ensures FieldValue(f, name).Some? ==> FieldValue(r, name) == Some(value)
    ensures forall n :: n != name ==> FieldValue(r, n) == FieldValue(f, n)
    ensures FieldValue(f, name).None? && name != "isHosteller" ==> r == f
  {
    match name
    case "isHosteller" => f.(isHosteller := value == "yes")
    case "firstName" => f.(firstName := value)
    case "lastName" => f.(lastName := value)
    case "email" => f.(email := value)
    case "branch" => f.(branch := value)
    case "year" => f.(year := value)
    case "gender" => f.(gender := value)
    case "hostelName" => f.(hostelName := value)
    case "countryCode" => f.(countryCode := value)
    case "whatsappNumber" => f.(whatsappNumber := value)
    case _ => f
  }

  /** The page's state fields. */
  class Page {
    var formData: FormData
    var isEditing: bool
    var isSubmitting: bool
    var availableHostels: seq<string>

    constructor ()
      ensures formData == InitialFormData(None) && !isEditing && !isSubmitting && availableHostels == []
    {
      formData, isEditing, isSubmitting, availableHostels := InitialFormData(None), false, false, [];
    }

    /** The effect on the store's profile: once loading has ended, a saved profile fills the
        form and leaves editing; no profile opens the form for editing. */
    method OnProfile(profile: Option<Profile>, loading: bool)
      modifies this
      ensures loading ==> formData == old(formData) && isEditing == old(isEditing)
      ensures !loading && profile.Some? ==> formData == InitialFormData(profile) && !isEditing
      ensures !loading && profile.None? ==> formData == old(formData) && isEditing
      ensures isSubmitting == old(isSubmitting) && availableHostels == old(availableHostels)
    {
      if !loading {
        if profile.Some? {
          formData := InitialFormData(profile);
          isEditing := false;
        } else {
          isEditing := true;
        }
      }
    }

    /** The effect on the gender: the hostels offered follow the gender, and while editing a
        gender other than the saved one clears the chosen hostel. */
    method OnGender(profile: Option<Profile>)
      modifies this
      ensures availableHostels == HostelsFor(old(formData).gender)
      ensures var saved := if profile.Some? then profile.value.gender else "";
        formData == (if isEditing && old(formData).gender != saved then old(formData).(hostelName := "") else old(formData))
      ensures isEditing == old(isEditing) && isSubmitting == old(isSubmitting)
    {
      availableHostels := HostelsFor(formData.gender);
      var saved := if profile.Some? then profile.value.gender else "";
      if isEditing && formData.gender != saved {
        formData := formData.(hostelName := "");
      }
    }

    /** An input's change event. */
    method Change(name: string, value: string)
      modifies this
      ensures formData == HandleChange(old(formData), name, value)
      ensures isEditing == old(isEditing) && isSubmitting == old(isSubmitting) && availableHostels == old(availableHostels)
    {
      formData := HandleChange(formData, name, value);
    }

    /** `handleEditClick`. */
    method Edit()
      modifies this
      ensures isEditing && formData == old(formData) && isSubmitting == old(isSubmitting)
      ensures availableHostels == old(availableHostels)
    {
      isEditing := true;
    }

    /** `handleSubmit`: the form without its preview goes to the store's `updateProfile`
        (`fails` is that update's backend error); the form then leaves editing. */
    method Submit(store: ProfileContext.Store, fails: bool)
      modifies this, store
      ensures store.session.Some? && !fails ==> store.profile == Some(ProfileContext.Merge(old(store.profile), SavedData(formData)))
      ensures store.session.None? || fails ==> store.profile == old(store.profile)
      ensures store.session == old(store.session) && store.loading == old(store.loading)
      ensures !isEditing && !isSubmitting && formData == old(formData) && availableHostels == old(availableHostels)
    {
      isSubmitting := true;
      store.UpdateProfile(SavedData(formData), fails);
      isSubmitting := false;
      isEditing := false;
    }
  }
}
