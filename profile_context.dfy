/** The signed-in user's profile as the whole application sees it: the session and the
    profile row, both set by the authentication listener, a loading flag that is on only
    until the first authentication event, and the profile update used by the profile form. */
module ProfileContext {
  import opened Wrappers
  import opened Records
  import opened Ui

  /** The error code the backend gives to `.single()` when no row matches. */
  const NoRows: string := "PGRST116"

  const SignInRequired: Notice := Notice(Error, "You must be logged in to update your profile.")
  const SavedNotice: Notice := Notice(Success, "Profile Saved Successfully!")
  const SaveFailed: Notice := Notice(Error, "Error saving profile.")

  /** The reply to the profile fetch: the row, an error with its code, or a thrown exception. */
  datatype FetchReply = Found(row: Profile) | Failed(code: string) | Threw

  /** The fields the profile form saves (the form without its photo preview). */
  datatype ProfileData = ProfileData(
    firstName: string,
    lastName: string,
    email: string,
    branch: string,
    year: string,
    gender: string,
    isHosteller: bool,
    hostelName: string,
    countryCode: string,
    whatsappNumber: string)

  /** The profile after one authentication event: none without a session; with a session,
      the fetched row, none when no row exists or the fetch threw, and the profile held so
      far when the fetch failed in any other way. */
  function AfterAuthEvent(current: Option<Profile>, session: Option<UserId>, reply: FetchReply): (r: Option<Profile>)
    ensures session.None? ==> r == None
    ensures session.Some? && reply.Failed? && reply.code != NoRows ==> r == current
    ensures r.Some? && r != current ==> session.Some? && reply == Found(r.value)
    ensures session.Some? && reply.Found? ==> r == Some(reply.row)
    ensures session.Some? && (reply.Threw? || reply == Failed(NoRows)) ==> r == None
  {
    if session.None? then None
    else match reply
      case Found(row) => Some(row)
      case Failed(code) => if code != NoRows then current else None
      case Threw => None
  }

  /** `{ ...prevProfile, ...profileData }`: the saved fields override, every other field of
      the profile held so far is kept (with no profile yet, those fields are empty). */
  function Merge(prev: Option<Profile>, d: ProfileData): (r: Profile)
    ensures r.firstName == d.firstName && r.lastName == d.lastName && r.email == d.email
    ensures r.branch == d.branch && r.year == d.year && r.gender == d.gender
    ensures r.isHosteller == Some(d.isHosteller) && r.hostelName == d.hostelName
    ensures r.countryCode == d.countryCode && r.whatsappNumber == d.whatsappNumber
    ensures prev.Some? ==> r.id == prev.value.id && r.profilePhotoUrl == prev.value.profilePhotoUrl
    ensures prev.Some? ==> r.bannedUntil == prev.value.bannedUntil && r.role == prev.value.role
  {
    var base := prev.GetOr(Profile("", "", "", "", "", "", "", None, "", "", "", "", None, ""));
    base.(firstName := d.firstName, lastName := d.lastName, email := d.email, branch := d.branch,
          year := d.year, gender := d.gender, isHosteller := Some(d.isHosteller),
          hostelName := d.hostelName, countryCode := d.countryCode, whatsappNumber := d.whatsappNumber)
  }

  /** Saving the same data twice is the same as saving it once. */
  lemma MergeIdempotent(prev: Option<Profile>, d: ProfileData)
    ensures Merge(Some(Merge(prev, d)), d) == Merge(prev, d)
  {
  }

  /** The provider's state. */
  class Store {
    var profile: Option<Profile>
    var session: Option<UserId>
    var loading: bool
    var notices: seq<Notice>

    constructor ()
      ensures profile == None && session == None && loading && notices == []
    {
      profile, session, loading, notices := None, None, true, [];
    }

    /** The listener's handling of one authentication event; `reply` is what the profile
        fetch gives (it is not made without a session). */
    method OnAuthStateChange(newSession: Option<UserId>, reply: FetchReply)
      modifies this
      ensures session == newSession
      ensures profile == AfterAuthEvent(old(profile), newSession, reply)
      ensures !loading && notices == old(notices)
    {
      session := newSession;
      if newSession.Some? {
        match reply {
          case Found(row) => profile := Some(row);
          case Failed(code) =>
            if code == NoRows {
              profile := None;
            }
          case Threw => profile := None;
        }
      } else {
        profile := None;
      }
      loading := false;
    }

    /** `updateProfile(data)`; `fails` says whether the backend update reports an error. */
    method UpdateProfile(data: ProfileData, fails: bool)
      modifies this
      ensures session.None? ==> profile == old(profile) && notices == old(notices) + [SignInRequired]
      ensures session.Some? && fails ==> profile == old(profile) && notices == old(notices) + [SaveFailed]
      ensures session.Some? && !fails ==> profile == Some(Merge(old(profile), data)) && notices == old(notices) + [SavedNotice]
      ensures session == old(session) && loading == old(loading)
    {
      if session.None? {
        notices := notices + [SignInRequired];
        return;
      }
      if fails {
        notices := notices + [SaveFailed];
        return;
      }
      profile := Some(Merge(profile, data));
      notices := notices + [SavedNotice];
    }
  }
}
