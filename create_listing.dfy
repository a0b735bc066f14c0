/** The create-listing page: the profile-completeness gate, the three-image cap, the
    submission (the listing row first, then one upload request per image, each carrying
    its position) and the branch abbreviation shown beside the seller's details. */
module CreateListing {
  import opened Wrappers
  import opened Text
  import opened Records
  import opened Ui

  // ------------------------------------------------------------ profile gate

  /** `isProfileIncomplete(profile)`: no profile yet, a hosteller without a hostel, or any
      of the six required fields empty. */
  predicate ProfileIncomplete(profile: Option<Profile>)
  {
    match profile
    case None => true
    case Some(p) =>
      (p.isHosteller == Some(true) && p.hostelName == "")
      || p.firstName == "" || p.lastName == "" || p.branch == "" || p.year == ""
      || p.whatsappNumber == "" || p.gender == ""
  }

  const IncompleteNotice: Notice := Notice(Error, "Please complete your profile before creating a listing.")

  /** The effect of the gate: a notice and a redirect to the profile page, or nothing. */
  function ProfileGate(profile: Option<Profile>): (r: Option<(Notice, string)>)
    ensures r.Some? <==> ProfileIncomplete(profile)
    ensures r.Some? ==> r.value == (IncompleteNotice, "/")
  {
    if ProfileIncomplete(profile) then Some((IncompleteNotice, "/")) else None
  }

  /** A profile passes the gate exactly when it exists, has every required field, and names
      a hostel whenever it says the seller lives in one; a day scholar needs no hostel. */
  lemma ProfileGatePasses(profile: Option<Profile>)
    ensures ProfileGate(profile).None? <==>
      profile.Some? && profile.value.firstName != "" && profile.value.lastName != ""
      && profile.value.branch != "" && profile.value.year != "" && profile.value.whatsappNumber != ""
      && profile.value.gender != "" && (profile.value.isHosteller == Some(true) ==> profile.value.hostelName != "")
    ensures profile.Some? && profile.value.isHosteller != Some(true) ==>
      ProfileGate(profile) == ProfileGate(Some(profile.value.(hostelName := "")))
  {
  }

  // ------------------------------------------------------------ form values

  /** The form's fields, as the inputs hold them (text). */
  datatype ListingForm = ListingForm(
    productName: string, productPrice: string, productCategory: string,
    productAgeYears: string, productAgeMonths: string,
    shortDescription: string, longDescription: string)

  const InitialForm: ListingForm := ListingForm("", "", "", "0", "0", "", "")

  /** The row the page inserts; the approval status is left to the backend's default. */
  datatype ListingDraft = ListingDraft(
    productName: string, productPrice: string, productCategory: string, productAge: string,
    shortDescription: string, longDescription: string, sellerId: UserId, status: string)

  /** The age text: "<years> year(s), <months> month(s)". */
  function ProductAge(years: string, months: string): (r: string)
    ensures |r| >= |years|
    ensures r[..|years|] == years
    ensures r[|years|..] == " year(s), " + months + " month(s)"
  {
    years + " year(s), " + months + " month(s)"
  }

  /** The age text starts with the number of years, which `parseInt` reads back. */
  lemma ProductAgeYears(years: int, months: string)
    ensures ParseInt(ProductAge(IntToString(years), months)) == Some(years)
  {
    var rest := " year(s), " + months + " month(s)";
    assert ProductAge(IntToString(years), months) == IntToString(years) + rest;
    ParseIntAfterIntToString(years, rest);
  }

  /** `listingData`: the form's fields, the age text, the seller and the status "available". */
  function Draft(form: ListingForm, seller: UserId): (d: ListingDraft)
    ensures d.sellerId == seller && d.status == Available
    ensures d.productAge == ProductAge(form.productAgeYears, form.productAgeMonths)
    ensures d.productName == form.productName && d.productPrice == form.productPrice
    ensures d.productCategory == form.productCategory
    ensures d.shortDescription == form.shortDescription && d.longDescription == form.longDescription
  {
    ListingDraft(form.productName, form.productPrice, form.productCategory,
                 ProductAge(form.productAgeYears, form.productAgeMonths),
                 form.shortDescription, form.longDescription, seller, Available)
  }

  // ------------------------------------------------------------ images

  /** A picked file: the name is all the page reads of it. */
  datatype File = File(name: string)

  const MaxImages: nat := 3

  /** `Array.from(files).slice(0, 3)`. */
  function CapImages(files: seq<File>): (r: seq<File>)
    ensures |r| <= MaxImages && r <= files
    ensures |files| <= MaxImages ==> r == files
    ensures |files| > MaxImages ==> |r| == MaxImages
  {
    if |files| <= MaxImages then files else files[..MaxImages]
  }

  /** The multipart body of one call of the upload function: the image, the listing's id
      and the image's position, the last two as text. */
  datatype UploadRequest = UploadRequest(image: File, listingId: string, position: string)

  /** The body sent for each file: the file, the listing's id and the file's index as
      position, the last two turned into text as `FormData` does with numbers. */
  function UploadRequests(files: seq<File>, listingId: ListingId): (reqs: seq<UploadRequest>)
    ensures |reqs| == |files|
    ensures forall i :: 0 <= i < |reqs| ==> reqs[i].image == files[i]
  {
    seq(|files|, i requires 0 <= i < |files| => UploadRequest(files[i], IntToString(listingId), IntToString(i)))
  }

  /** The upload function reads back, with `parseInt`, the listing's id and the file's index
      from every body. */
  lemma UploadRequestsParse(files: seq<File>, listingId: ListingId)
    ensures forall i :: 0 <= i < |files| ==>
      ParseInt(UploadRequests(files, listingId)[i].position) == Some(i)
      && ParseInt(UploadRequests(files, listingId)[i].listingId) == Some(listingId)
  {
    var reqs := UploadRequests(files, listingId);
    ParseIntAfterIntToString(listingId, "");
    assert IntToString(listingId) + "" == IntToString(listingId);
    forall i | 0 <= i < |files|
      ensures ParseInt(reqs[i].position) == Some(i) && ParseInt(reqs[i].listingId) == Some(listingId)
    {
      ParseIntAfterIntToString(i, "");
      assert IntToString(i) + "" == IntToString(i);
    }
  }

  /** `imageFiles.map(...)`: the bodies built one file after the other. */
  method BuildUploads(files: seq<File>, listingId: ListingId) returns (reqs: seq<UploadRequest>)
    ensures reqs == UploadRequests(files, listingId)
  {
    reqs := [];
    var idText := IntToString(listingId);
    for i := 0 to |files|
      invariant reqs == UploadRequests(files[..i], listingId)
    {
      reqs := reqs + [UploadRequest(files[i], idText, IntToString(i))];
    }
    assert files[..|files|] == files;
  }

  /** The upload whose failure is reported: the lowest-index file whose call failed. */
  function FirstFailure(files: seq<File>, failures: map<nat, string>, from: nat): (r: Option<nat>)
    ensures r.Some? ==> from <= r.value < |files| && r.value in failures
    ensures r.Some? ==> forall j :: from <= j < r.value ==> j !in failures
    ensures r.None? ==> forall j :: from <= j < |files| ==> j !in failures
    decreases |files| - from
  {
    if from >= |files| then None
    else if from in failures then Some(from)
    else FirstFailure(files, failures, from + 1)
  }

  /** A backend call the page makes, in the order made. */
  datatype Call = InsertListing(draft: ListingDraft) | InvokeUpload(request: UploadRequest)

  const NoImageNotice: Notice := Notice(Error, "Please select at least one image.")
  const NotLoggedIn: string := "You must be logged in."
  const CreatedNotice: Notice := Notice(Success, "Listing created successfully!")
  const IdleLabel: string := "List My Item"

  function UploadFailed(file: File, message: string): string
  {
    "Failed to upload " + file.name + ": " + message
  }

  function Invocations(reqs: seq<UploadRequest>): (r: seq<Call>)
    ensures |r| == |reqs|
    ensures forall i :: 0 <= i < |reqs| ==> r[i] == InvokeUpload(reqs[i])
  {
    seq(|reqs|, i requires 0 <= i < |reqs| => InvokeUpload(reqs[i]))
  }

  /** The notice once every upload has been tried: success, or the first failure's message. */
  function UploadNotice(files: seq<File>, failures: map<nat, string>): Notice
  {
    match FirstFailure(files, failures, 0)
    case None => CreatedNotice
    case Some(i) => Notice(Error, UploadFailed(files[i], failures[i]))
  }

  /** What one submission does: the calls made, the notice shown, where the page navigates,
      and whether the busy state was entered (and left again). */
  datatype Outcome = Outcome(calls: seq<Call>, notice: Notice, navigateTo: Option<string>, busy: bool)

  /** `handleSubmit` for the picked `files` and the `form`. `user` is the signed-in account,
      `inserted` the reply to the insert (the new listing's id), and `failures` maps the
      position of each upload that failed to its error message. */
  function SubmitOutcome(files: seq<File>, form: ListingForm, user: Option<UserId>, inserted: Result<ListingId>,
                         failures: map<nat, string>): Outcome
  {
    if files == [] then Outcome([], NoImageNotice, None, false)
    else if user.None? then Outcome([], Notice(Error, NotLoggedIn), None, true)
    else
      var insert := InsertListing(Draft(form, user.value));
      match inserted
      case Err(message) => Outcome([insert], Notice(Error, message), None, true)
      case Ok(id) =>
        var navigateTo := if FirstFailure(files, failures, 0).None? then Some("/my-listings") else None;
        Outcome([insert] + Invocations(UploadRequests(files, id)), UploadNotice(files, failures), navigateTo, true)
  }

  /** The cases of a submission: no image gives a notice and no call; no user or a failed
      insert gives an error and no upload; otherwise the insert comes first, then one upload
      per image, then success and navigation, or the first failure's message. */
  lemma SubmitOutcomeCases(files: seq<File>, form: ListingForm, user: Option<UserId>, inserted: Result<ListingId>,
                           failures: map<nat, string>)
    ensures var o := SubmitOutcome(files, form, user, inserted, failures);
      && (files == [] ==> o == Outcome([], NoImageNotice, None, false))
      && (files != [] ==> o.busy)
      && (files != [] && user.None? ==> o.calls == [] && o.notice == Notice(Error, NotLoggedIn))
      && (o.navigateTo.Some? <==> files != [] && user.Some? && inserted.Ok? && FirstFailure(files, failures, 0).None?)
      && (o.navigateTo.Some? ==> o.navigateTo.value == "/my-listings" && o.notice == CreatedNotice)
      && (o.calls != [] <==> files != [] && user.Some?)
      && (o.calls != [] ==> o.calls[0] == InsertListing(Draft(form, user.value)))
      && (files != [] && user.Some? && inserted.Err? ==> |o.calls| == 1 && o.notice == Notice(Error, inserted.message))
      && (files != [] && user.Some? && inserted.Ok? ==>
            o.calls[1..] == Invocations(UploadRequests(files, inserted.value)))
      && (files != [] && user.Some? && inserted.Ok? && FirstFailure(files, failures, 0).Some? ==>
            var i := FirstFailure(files, failures, 0).value;
            o.notice == Notice(Error, UploadFailed(files[i], failures[i])))
  {
    if files != [] && user.Some? && inserted.Ok? {
      var calls := [InsertListing(Draft(form, user.value))] + Invocations(UploadRequests(files, inserted.value));
      assert calls[1..] == Invocations(UploadRequests(files, inserted.value));
    }
  }

  /** The listing row is inserted before any upload, and then there is one upload call per
      picked image: the file at index i is sent with position i and the new listing's id.
      The model lists the calls by index; in the source they run concurrently. */
  lemma SubmitInsertsThenUploads(files: seq<File>, form: ListingForm, user: UserId, id: ListingId,
                                 failures: map<nat, string>)
    requires files != []
    ensures var o := SubmitOutcome(files, form, Some(user), Ok(id), failures);
      |o.calls| == |files| + 1 && o.calls[0] == InsertListing(Draft(form, user))
      && forall i :: 1 <= i < |o.calls| ==>
           o.calls[i].InvokeUpload? && o.calls[i].request.image == files[i - 1]
           && ParseInt(o.calls[i].request.position) == Some(i - 1)
           && ParseInt(o.calls[i].request.listingId) == Some(id)
  {
    var o := SubmitOutcome(files, form, Some(user), Ok(id), failures);
    var reqs := UploadRequests(files, id);
    var uploads := Invocations(reqs);
    assert o.calls == [InsertListing(Draft(form, user))] + uploads;
    UploadRequestsParse(files, id);
    forall i | 1 <= i < |o.calls|
      ensures o.calls[i] == InvokeUpload(reqs[i - 1])
    {
      assert o.calls[i] == uploads[i - 1];
    }
  }

  /** A failed upload leaves the inserted listing in place: the insert is not undone, and no
      call after it removes anything. */
  lemma UploadFailureKeepsListing(files: seq<File>, form: ListingForm, user: UserId, id: ListingId,
                                  failures: map<nat, string>)
    requires files != [] && FirstFailure(files, failures, 0).Some?
    ensures var o := SubmitOutcome(files, form, Some(user), Ok(id), failures);
      o.calls[0].InsertListing? && (forall i :: 1 <= i < |o.calls| ==> o.calls[i].InvokeUpload?)
      && o.navigateTo.None? && o.notice.kind == Error
  {
    var o := SubmitOutcome(files, form, Some(user), Ok(id), failures);
    SubmitOutcomeCases(files, form, Some(user), Ok(id), failures);
    assert forall i :: 1 <= i < |o.calls| ==> o.calls[i] == o.calls[1..][i - 1];
  }

  /** The page's state fields, the calls it has made and where it navigated. */
  class Page {
    var form: ListingForm
    var imageFiles: seq<File>
    var loading: bool
    var loadingMessage: string
    var notices: seq<Notice>
    var calls: seq<Call>
    var navigatedTo: Option<string>

    constructor ()
      ensures form == InitialForm && imageFiles == [] && !loading && loadingMessage == IdleLabel
      ensures notices == [] && calls == [] && navigatedTo == None
    {
      form, imageFiles, loading, loadingMessage := InitialForm, [], false, IdleLabel;
      notices, calls, navigatedTo := [], [], None;
    }

    /** `handleImageChange`: the new pick, capped at three, replaces the previous one. */
    method ImageChange(files: seq<File>)
      modifies this
      ensures imageFiles == CapImages(files)
      ensures form == old(form) && loading == old(loading) && notices == old(notices) && calls == old(calls)
      ensures navigatedTo == old(navigatedTo) && loadingMessage == old(loadingMessage)
    {
      imageFiles := CapImages(files);
    }

    /** The upload part of `handleSubmit`, once the listing row exists: one upload call per
        image, then the success notice and navigation, or the first failure's message. */
    method UploadImages(id: ListingId, failures: map<nat, string>)
      modifies this
      ensures imageFiles == old(imageFiles) && form == old(form) && loading == old(loading)
      ensures loadingMessage == "Uploading " + IntToString(|imageFiles|) + " image(s)..."
      ensures calls == old(calls) + Invocations(UploadRequests(imageFiles, id))
      ensures notices == old(notices) + [UploadNotice(imageFiles, failures)]
      ensures navigatedTo == (if FirstFailure(imageFiles, failures, 0).None? then Some("/my-listings") else old(navigatedTo))
    {
      loadingMessage := "Uploading " + IntToString(|imageFiles|) + " image(s)...";
      var reqs := BuildUploads(imageFiles, id);
      calls := calls + Invocations(reqs);
      match FirstFailure(imageFiles, failures, 0) {
        case None =>
          notices := notices + [CreatedNotice];
          navigatedTo := Some("/my-listings");
        case Some(i) =>
          notices := notices + [Notice(Error, UploadFailed(imageFiles[i], failures[i]))];
      }
    }

    /** `handleSubmit`, with the replies of the backend as parameters. */
    method Submit(user: Option<UserId>, inserted: Result<ListingId>, failures: map<nat, string>)
      modifies this
      ensures imageFiles == old(imageFiles) && form == old(form)
      ensures var o := SubmitOutcome(imageFiles, form, user, inserted, failures);
        && calls == old(calls) + o.calls
        && notices == old(notices) + [o.notice]
        && navigatedTo == (if o.navigateTo.Some? then o.navigateTo else old(navigatedTo))
        && (o.busy ==> !loading && loadingMessage == IdleLabel)
        && (!o.busy ==> loading == old(loading) && loadingMessage == old(loadingMessage))
    {
      ghost var o := SubmitOutcome(imageFiles, form, user, inserted, failures);
      if |imageFiles| == 0 {
        notices := notices + [NoImageNotice];
        return;
      }
      loading := true;
      loadingMessage := "Creating listing...";
      if user.None? {
        notices := notices + [Notice(Error, NotLoggedIn)];
      } else {
        calls := calls + [InsertListing(Draft(form, user.value))];
        match inserted {
          case Err(message) =>
            notices := notices + [Notice(Error, message)];
          case Ok(id) =>
            UploadImages(id, failures);
            assert calls == old(calls) + o.calls;
        }
      }
      loading := false;
      loadingMessage := IdleLabel;
    }
  }

  // ------------------------------------------------------------ branch abbreviation

  /** The group of `/\(([^)]+)\)/` when the match starts at the first character: an opening
      parenthesis, at least one character other than ')', and the closing parenthesis. */
  function GroupAtStart(s: string): (r: Option<string>)
    ensures r.Some? ==> (r.value != "" && ')' !in r.value && |s| >= |r.value| + 2
      && s[..|r.value| + 2] == "(" + r.value + ")")
  {
    if |s| >= 1 && s[0] == '(' && ')' in s[1..] && IndexOf(s[1..], ')') > 0 then
      var g := s[1..1 + IndexOf(s[1..], ')')];
      assert s[..|g| + 2] == "(" + g + ")";
      Some(g)
    else None
  }

  /** The regular expression's first (leftmost) match, as `String.prototype.match` finds it. */
  function FirstGroup(s: string): Option<string>
  {
    if s == [] then None
    else if GroupAtStart(s).Some? then GroupAtStart(s)
    else FirstGroup(s[1..])
  }

  /** The last parenthesised group of `s`. */
  function LastGroup(s: string): Option<string>
  {
    if s == [] then None
    else if LastGroup(s[1..]).Some? then LastGroup(s[1..])
    else GroupAtStart(s)
  }

  /** `branchAbbreviation` as written: the first parenthesised group, or the whole branch. */
  function BranchAbbreviationAsWritten(branch: string): string
  {
    match FirstGroup(branch)
    case Some(g) => g
    case None => branch
  }

  /** The abbreviation the branch options end with: the last parenthesised group, or the whole branch. */
  function BranchAbbreviation(branch: string): string
  {
    match LastGroup(branch)
    case Some(g) => g
    case None => branch
  }

  lemma GroupAtStartOf(g: string, rest: string)
    requires g != "" && ')' !in g
    ensures GroupAtStart("(" + g + ")" + rest) == Some(g)
  {
    var s := "(" + g + ")" + rest;
    assert s[1..] == g + ")" + rest;
    assert s[1..][|g|] == ')';
    var t := s[1..];
    assert s[0] == '(' && t[|g|] == ')';
    IndexOfFirst(t, ')', |g|);
    assert s[1..1 + |g|] == g;
  }

  /** Text without an opening parenthesis holds no group. */
  lemma {:induction false} NoGroupWithoutParenthesis(s: string)
    requires '(' !in s
    ensures LastGroup(s) == None && FirstGroup(s) == None
  {
    if s != [] {
      assert s[1..] == s[1..];
      assert '(' !in s[1..] by {
        forall k | 0 <= k < |s[1..]| ensures s[1..][k] != '(' { assert s[1..][k] == s[k + 1]; }
      }
      NoGroupWithoutParenthesis(s[1..]);
    }
  }

  /** A group found at the end stays the last group whatever text comes before it. */
  lemma {:induction false} LastGroupAfterPrefix(p: string, t: string)
    requires LastGroup(t).Some?
    ensures LastGroup(p + t) == LastGroup(t)
  {
    if p != [] {
      assert (p + t)[1..] == p[1..] + t;
      LastGroupAfterPrefix(p[1..], t);
    } else {
      assert p + t == t;
    }
  }

  /** Text free of '(' before a group leaves that group the first one. */
  lemma {:induction false} FirstGroupAfterPrefix(p: string, t: string)
    requires '(' !in p && FirstGroup(t).Some?
    ensures FirstGroup(p + t) == FirstGroup(t)
  {
    if p != [] {
      assert (p + t)[1..] == p[1..] + t;
      assert '(' !in p[1..] by {
        forall k | 0 <= k < |p[1..]| ensures p[1..][k] != '(' { assert p[1..][k] == p[k + 1]; }
      }
      assert GroupAtStart(p + t).None? by { assert (p + t)[0] == p[0]; }
      FirstGroupAfterPrefix(p[1..], t);
    } else {
      assert p + t == t;
    }
  }

  /** A branch written "<name> (<code>)" is abbreviated to its code. */
  lemma BranchAbbreviationOfCode(name: string, code: string)
    requires code != "" && ')' !in code && '(' !in code
    ensures BranchAbbreviation(name + "(" + code + ")") == code
  {
    var t := "(" + code + ")";
    LastGroupOfCode(code);
    LastGroupAfterPrefix(name, t);
    assert name + "(" + code + ")" == name + t;
  }

  lemma LastGroupOfCode(code: string)
    requires code != "" && ')' !in code && '(' !in code
    ensures LastGroup("(" + code + ")") == Some(code)
  {
    var t := "(" + code + ")";
    GroupAtStartOf(code, "");
    assert t + "" == t;
    var u := code + ")";
    assert '(' !in u;
    NoGroupWithoutParenthesis(u);
    assert t[1..] == u;
  }

  /** As written, a branch whose name itself holds parentheses, such as "Computer Science &
      Engineering (Data Science & Analytics) (CSDA)", is abbreviated to the text of its first
      parentheses instead of its code. */
  lemma BranchAbbreviationAsWrittenTakesFirstGroup(name: string, inner: string, code: string)
    requires '(' !in name && inner != "" && ')' !in inner
    ensures BranchAbbreviationAsWritten(name + "(" + inner + ")" + " (" + code + ")") == inner
  {
    var t := "(" + inner + ")" + (" (" + code + ")");
    GroupAtStartOf(inner, " (" + code + ")");
    assert FirstGroup(t) == Some(inner);
    FirstGroupAfterPrefix(name, t);
    assert name + "(" + inner + ")" + " (" + code + ")" == name + t;
  }

  /** The data-science branch of the profile form: a name holding parentheses of its own,
      then the code. */
  const DataScienceName: string := "Computer Science & Engineering "
  const DataScienceInner: string := "Data Science & Analytics"
  const DataScienceBranch: string := DataScienceName + "(" + DataScienceInner + ")" + " (" + "CSDA" + ")"

  /** The data-science branch as written, and as intended. */
  lemma DataScienceAbbreviation()
    ensures BranchAbbreviationAsWritten(DataScienceBranch) == "Data Science & Analytics"
    ensures BranchAbbreviation(DataScienceBranch) == "CSDA"
  {
    var name, inner := DataScienceName, DataScienceInner;
    assert '(' !in name;
    BranchAbbreviationAsWrittenTakesFirstGroup(name, inner, "CSDA");
    assert DataScienceBranch == (name + "(" + inner + ") ") + "(" + "CSDA" + ")";
    BranchAbbreviationOfCode(name + "(" + inner + ") ", "CSDA");
  }

  /** For a branch with a single parenthesised code both readings agree. */
  lemma AbbreviationsAgreeOnPlainNames(name: string, code: string)
    requires '(' !in name && code != "" && ')' !in code && '(' !in code
    ensures BranchAbbreviationAsWritten(name + "(" + code + ")") == code
    ensures BranchAbbreviation(name + "(" + code + ")") == code
  {
    var t := "(" + code + ")";
    GroupAtStartOf(code, "");
    assert t + "" == t;
    assert FirstGroup(t) == Some(code);
    FirstGroupAfterPrefix(name, t);
    assert name + "(" + code + ")" == name + t;
    BranchAbbreviationOfCode(name, code);
  }
}
