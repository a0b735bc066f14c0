/** The moderation page: the new reports and the listings awaiting approval, and the
    handlers that approve or reject a listing, ignore a report, delete a reported listing
    with its reports, and ban the seller of a reported listing until a moment in the future. */
module AdminPage {
  import opened Wrappers
  import opened Seqs
  import opened Text
  import opened Records
  import opened Ui
  import AuthPage

  // ------------------------------------------------------------ queries

  /** `reports` selected `.eq('status', 'new')`, each with its listing (if it still exists). */
  function NewReports(table: seq<ReportRow>): (r: seq<ReportRow>)
    ensures forall x :: x in r <==> x in table && x.report.status == ReportNew
    ensures Subsequence(r, table)
  {
    FilterIsSubsequence(table, (x: ReportRow) => x.report.status == ReportNew);
    Filter(table, (x: ReportRow) => x.report.status == ReportNew)
  }

  /** `listings` selected `.eq('approval_status', 'pending')`. */
  function PendingListings(table: seq<ListingRow>): (r: seq<ListingRow>)
    ensures forall x :: x in r <==> x in table && x.listing.approvalStatus == Pending
    ensures Subsequence(r, table)
  {
    FilterIsSubsequence(table, (x: ListingRow) => x.listing.approvalStatus == Pending);
    Filter(table, (x: ListingRow) => x.listing.approvalStatus == Pending)
  }

  /** Approving or rejecting a pending listing takes it off the pending list. */
  lemma DecidedLeavesPending(table: seq<Listing>, id: ListingId, decision: string)
    requires decision == Approved || decision == Rejected
    ensures forall l :: l in WithApproval(table, id, decision) && l.approvalStatus == Pending ==> l.id != id
    ensures forall l :: l in WithApproval(table, id, decision) && l.id == id ==> l.approvalStatus == decision
  {
    var t := WithApproval(table, id, decision);
    assert forall j :: 0 <= j < |t| ==> t[j].id == table[j].id;
  }

  /** Ignoring a report takes it off the new reports. */
  lemma IgnoredLeavesNew(table: seq<Report>, id: nat)
    ensures forall x :: x in WithReportStatus(table, id, ReportIgnored) && x.status == ReportNew ==> x.id != id
  {
    var t := WithReportStatus(table, id, ReportIgnored);
    assert forall j :: 0 <= j < |t| ==> t[j].id == table[j].id;
  }

  // ------------------------------------------------------------ ban arithmetic

  /** The largest distance from the epoch, in milliseconds, at which a date is valid. */
  const MaxTime: int := 8_640_000_000_000_000

  predicate ValidTime(t: int)
  {
    -MaxTime <= t <= MaxTime
  }

  /** `Date.now() + seconds * 1000`: the end of a ban of `seconds` starting at `now`. */
  function BanUntil(now: int, seconds: int): (t: int)
    ensures t > now <==> seconds > 0
    ensures t - now == seconds * 1000
  {
    now + seconds * 1000
  }

  /** A seller banned at `now` for `seconds > 0` is turned away at every sign-in before the
      ban's end and let in from the ban's end on. */
  lemma BanHoldsUntilItEnds(now: int, seconds: int, later: int)
    requires seconds > 0
    ensures AuthPage.BanActive(Some(BanUntil(now, seconds)), later) <==> later < now + seconds * 1000
    ensures AuthPage.BanActive(Some(BanUntil(now, seconds)), now)
  {
  }

  /** What confirming a ban does: the profile update made (seller and end of the ban), the
      notice shown, whether the ban popup closes and whether the data is fetched again. */
  datatype BanStep = BanStep(update: Option<(UserId, int)>, notice: Option<Notice>, closes: bool, refetch: bool)

  const NoUserNotice: Notice := Notice(Error, "Error: No user selected to ban.")
  const BanFailed: string := "Failed to ban user."
  /** The message of the `RangeError` that `toISOString` throws for an invalid date. */
  const InvalidTime: string := "Invalid time value"

  function BannedNotice(p: Profile): Notice
  {
    Notice(Success, "User " + p.email + " has been banned.")
  }

  /** The notice for a failed update: its message, or the fallback when that is empty. */
  function BanFailedNotice(message: string): Notice
  {
    Notice(Error, if message != "" then message else BanFailed)
  }

  /** `handleConfirmBan` as written: the end of the ban is formatted before the `try`, so a
      date out of range throws past the `finally` and leaves the popup open with no notice. */
  function ConfirmBanAsWritten(seller: Option<Profile>, now: int, seconds: int, failure: Option<string>): BanStep
  {
    if seller.None? then BanStep(None, Some(NoUserNotice), false, false)
    else if !ValidTime(BanUntil(now, seconds)) then BanStep(None, None, false, false)
    else if failure.Some? then BanStep(None, Some(BanFailedNotice(failure.value)), true, false)
    else BanStep(Some((seller.value.id, BanUntil(now, seconds))), Some(BannedNotice(seller.value)), true, true)
  }

  /** `handleConfirmBan` with the date formatted inside the `try`, so that every outcome after
      the seller check shows a notice and closes the popup. `failure` is the update's error. */
  function ConfirmBan(seller: Option<Profile>, now: int, seconds: int, failure: Option<string>): (s: BanStep)
    ensures seller.None? ==> s == BanStep(None, Some(NoUserNotice), false, false)
    ensures seller.Some? ==> s.closes && s.notice.Some?
    ensures s.update.Some? <==> seller.Some? && ValidTime(BanUntil(now, seconds)) && failure.None?
    ensures s.update.Some? ==> s.update.value == (seller.value.id, BanUntil(now, seconds)) && s.refetch
    ensures seller.Some? && !ValidTime(BanUntil(now, seconds)) ==> s.notice == Some(Notice(Error, InvalidTime))
    ensures seller.Some? && ValidTime(BanUntil(now, seconds)) ==> s == ConfirmBanAsWritten(seller, now, seconds, failure)
  {
    if seller.None? then BanStep(None, Some(NoUserNotice), false, false)
    else if !ValidTime(BanUntil(now, seconds)) then BanStep(None, Some(Notice(Error, InvalidTime)), true, false)
    else if failure.Some? then BanStep(None, Some(BanFailedNotice(failure.value)), true, false)
    else BanStep(Some((seller.value.id, BanUntil(now, seconds))), Some(BannedNotice(seller.value)), true, true)
  }

  /** As written, a ban of fifteen million weeks (which the popup accepts: its fields have no
      upper bound) ends beyond the last valid date, and confirming it neither bans, nor shows
      a notice, nor closes the popup. */
  lemma ConfirmBanAsWrittenStaysOpen(seller: Profile, now: int, failure: Option<string>)
    requires 0 <= now
    ensures var step := ConfirmBanAsWritten(Some(seller), now, 15_000_000 * 7 * 24 * 60 * 60, failure);
      step.update.None? && step.notice.None? && !step.closes
    ensures var step := ConfirmBan(Some(seller), now, 15_000_000 * 7 * 24 * 60 * 60, failure);
      step.closes && step.notice == Some(Notice(Error, InvalidTime))
  {
    assert !ValidTime(BanUntil(now, 15_000_000 * 7 * 24 * 60 * 60));
  }

  // ------------------------------------------------------------ the page

  const FetchFailed: Notice := Notice(Error, "Failed to fetch admin data.")
  const ApprovedNotice: Notice := Notice(Success, "Listing approved!")
  const ApproveFailed: Notice := Notice(Error, "Failed to approve listing.")
  const RejectedNotice: Notice := Notice(Success, "Listing rejected.")
  const RejectFailed: Notice := Notice(Error, "Failed to reject listing.")
  const MissingSeller: Notice := Notice(Error, "Cannot ban user: Seller information is missing.")
  const IgnoredNotice: Notice := Notice(Info, "Report ignored.")
  const IgnoreFailed: Notice := Notice(Error, "Failed to ignore report.")
  const DeletedNotice: Notice := Notice(Success, "Listing and associated reports deleted.")
  const DeleteFailed: Notice := Notice(Error, "Failed to delete listing.")

  /** The seller of the selected report's listing, when the listing and its seller exist. */
  function SelectedSeller(selected: Option<ReportRow>): (p: Option<Profile>)
    ensures p.Some? <==> selected.Some? && selected.value.listing.Some? && selected.value.listing.value.seller.Some?
    ensures p.Some? ==> p == selected.value.listing.value.seller
  {
    if selected.Some? && selected.value.listing.Some? then selected.value.listing.value.seller else None
  }

  /** The page's state fields. */
  class Page {
    var reports: seq<ReportRow>
    var pendingListings: seq<ListingRow>
    var loading: bool
    var selectedReport: Option<ReportRow>
    var actionOpen: bool
    var banPopupOpen: bool
    var notices: seq<Notice>

    constructor ()
      ensures reports == [] && pendingListings == [] && loading && selectedReport == None
      ensures !actionOpen && !banPopupOpen && notices == []
    {
      reports, pendingListings, loading, selectedReport := [], [], true, None;
      actionOpen, banPopupOpen, notices := false, false, [];
    }

    /** `fetchAdminData`: the new reports first; their failure stops the fetch before the
        pending listings are asked for. */
    method FetchAdminData(reportsReply: Result<seq<ReportRow>>, pendingReply: Result<seq<ListingRow>>)
      modifies this
      ensures !loading
      ensures reportsReply.Err? ==> reports == old(reports) && pendingListings == old(pendingListings)
      ensures reportsReply.Err? ==> notices == old(notices) + [FetchFailed]
      ensures reportsReply.Ok? ==> reports == reportsReply.value
      ensures reportsReply.Ok? && pendingReply.Ok? ==> pendingListings == pendingReply.value && notices == old(notices)
      ensures reportsReply.Ok? && pendingReply.Err? ==>
        pendingListings == old(pendingListings) && notices == old(notices) + [FetchFailed]
      ensures selectedReport == old(selectedReport) && actionOpen == old(actionOpen) && banPopupOpen == old(banPopupOpen)
    {
      loading := true;
      match reportsReply {
        case Err(_) =>
          notices := notices + [FetchFailed];
        case Ok(rs) =>
          reports := rs;
          match pendingReply {
            case Err(_) => notices := notices + [FetchFailed];
            case Ok(ls) => pendingListings := ls;
          }
      }
      loading := false;
    }

    /** `handleApprove(id)`; `refetch` says whether the data is fetched again. */
    method Approve(id: ListingId, db: Database, fails: bool) returns (refetch: bool)
      modifies this, db
      ensures refetch <==> !fails
      ensures fails ==> db.listings == old(db.listings) && notices == old(notices) + [ApproveFailed]
      ensures !fails ==> db.listings == WithApproval(old(db.listings), id, Approved) && notices == old(notices) + [ApprovedNotice]
      ensures db.profiles == old(db.profiles) && db.reports == old(db.reports)
      ensures reports == old(reports) && pendingListings == old(pendingListings) && selectedReport == old(selectedReport)
      ensures actionOpen == old(actionOpen) && banPopupOpen == old(banPopupOpen) && loading == old(loading)
    {
      if fails {
        notices := notices + [ApproveFailed];
        return false;
      }
      db.SetApproval(id, Approved);
      notices := notices + [ApprovedNotice];
      return true;
    }

    /** `handleReject(id)`: nothing at all unless the moderator confirms. */
    method Reject(confirmed: bool, id: ListingId, db: Database, fails: bool) returns (refetch: bool)
      modifies this, db
      ensures refetch <==> confirmed && !fails
      ensures !confirmed ==> notices == old(notices)
      ensures !confirmed || fails ==> db.listings == old(db.listings)
      ensures confirmed && fails ==> notices == old(notices) + [RejectFailed]
      ensures confirmed && !fails ==> db.listings == WithApproval(old(db.listings), id, Rejected) && notices == old(notices) + [RejectedNotice]
      ensures db.profiles == old(db.profiles) && db.reports == old(db.reports)
      ensures reports == old(reports) && pendingListings == old(pendingListings) && selectedReport == old(selectedReport)
      ensures actionOpen == old(actionOpen) && banPopupOpen == old(banPopupOpen) && loading == old(loading)
    {
      if !confirmed {
        return false;
      }
      if fails {
        notices := notices + [RejectFailed];
        return false;
      }
      db.SetApproval(id, Rejected);
      notices := notices + [RejectedNotice];
      return true;
    }

    /** `handleAction(report)`: the report is selected and the moderation popup opens. */
    method HandleAction(report: ReportRow)
      modifies this
      ensures selectedReport == Some(report) && actionOpen
      ensures banPopupOpen == old(banPopupOpen) && notices == old(notices) && reports == old(reports)
      ensures pendingListings == old(pendingListings) && loading == old(loading)
    {
      selectedReport := Some(report);
      actionOpen := true;
    }

    /** `openBanPopup`: only with a seller to ban; otherwise a notice and nothing else. */
    method OpenBanPopup()
      modifies this
      ensures SelectedSeller(selectedReport).None? ==>
        notices == old(notices) + [MissingSeller] && actionOpen == old(actionOpen) && banPopupOpen == old(banPopupOpen)
      ensures SelectedSeller(selectedReport).Some? ==> !actionOpen && banPopupOpen && notices == old(notices)
      ensures selectedReport == old(selectedReport) && reports == old(reports)
      ensures pendingListings == old(pendingListings) && loading == old(loading)
    {
      if SelectedSeller(selectedReport).None? {
        notices := notices + [MissingSeller];
        return;
      }
      actionOpen := false;
      banPopupOpen := true;
    }

    /** `closeBanPopup`: the popup closes and the selection is dropped. */
    method CloseBanPopup()
      modifies this
      ensures !banPopupOpen && selectedReport == None
      ensures actionOpen == old(actionOpen) && notices == old(notices) && reports == old(reports)
      ensures pendingListings == old(pendingListings) && loading == old(loading)
    {
      banPopupOpen := false;
      selectedReport := None;
    }

    /** `handleConfirmBan(seconds)` at time `now`, the update failing with `failure` if at all. */
    method ConfirmBanFor(seconds: int, now: int, db: Database, failure: Option<string>) returns (refetch: bool)
      modifies this, db
      ensures var step := ConfirmBan(SelectedSeller(old(selectedReport)), now, seconds, failure);
        && refetch == step.refetch
        && (step.update.None? ==> db.profiles == old(db.profiles))
        && (step.update.Some? ==> db.profiles == WithBannedUntil(old(db.profiles), step.update.value.0, step.update.value.1))
        && notices == old(notices) + (if step.notice.Some? then [step.notice.value] else [])
        && (step.closes ==> !banPopupOpen && selectedReport == None)
        && (!step.closes ==> banPopupOpen == old(banPopupOpen) && selectedReport == old(selectedReport))
      ensures db.listings == old(db.listings) && db.reports == old(db.reports)
      ensures actionOpen == old(actionOpen) && reports == old(reports)
      ensures pendingListings == old(pendingListings) && loading == old(loading)
    {
      var userToBan := SelectedSeller(selectedReport);
      if userToBan.None? {
        notices := notices + [NoUserNotice];
        return false;
      }
      var banUntil := now + seconds * 1000;
      if !ValidTime(banUntil) {
        notices := notices + [Notice(Error, InvalidTime)];
        refetch := false;
      } else if failure.Some? {
        notices := notices + [BanFailedNotice(failure.value)];
        refetch := false;
      } else {
        db.SetBannedUntil(userToBan.value.id, banUntil);
        notices := notices + [BannedNotice(userToBan.value)];
        refetch := true;
      }
      CloseBanPopup();
    }

    /** `handleIgnoreReport`: a no-op without a selected report. */
    method IgnoreReport(db: Database, fails: bool) returns (refetch: bool)
      modifies this, db
      ensures refetch <==> selectedReport.Some? && !fails
      ensures selectedReport.None? ==> notices == old(notices) && actionOpen == old(actionOpen)
      ensures selectedReport.None? || fails ==> db.reports == old(db.reports)
      ensures selectedReport.Some? && fails ==> notices == old(notices) + [IgnoreFailed] && actionOpen == old(actionOpen)
      ensures selectedReport.Some? && !fails ==>
        db.reports == WithReportStatus(old(db.reports), selectedReport.value.report.id, ReportIgnored)
        && notices == old(notices) + [IgnoredNotice] && !actionOpen
      ensures db.profiles == old(db.profiles) && db.listings == old(db.listings)
      ensures selectedReport == old(selectedReport) && banPopupOpen == old(banPopupOpen)
      ensures reports == old(reports) && pendingListings == old(pendingListings) && loading == old(loading)
    {
      if selectedReport.None? {
        return false;
      }
      if fails {
        notices := notices + [IgnoreFailed];
        return false;
      }
      db.SetReportStatus(selectedReport.value.report.id, ReportIgnored);
      notices := notices + [IgnoredNotice];
      actionOpen := false;
      return true;
    }

    /** `handleDeleteListing`: a no-op unless the selected report still has its listing (with
        a non-zero id, the only ids the guard lets through). The
        reports of the listing are deleted first (that call's result is not looked at), then
        the listing itself. */
    method DeleteListing(db: Database, reportsDeleteFails: bool, listingDeleteFails: bool) returns (refetch: bool)
      modifies this, db
      ensures var hasListing := selectedReport.Some? && selectedReport.value.listing.Some?
          && selectedReport.value.listing.value.listing.id != 0;
        && (refetch <==> hasListing && !listingDeleteFails)
        && (!hasListing ==> db.reports == old(db.reports) && db.listings == old(db.listings) && notices == old(notices))
        && (!hasListing ==> actionOpen == old(actionOpen))
      ensures selectedReport.Some? && selectedReport.value.listing.Some? && selectedReport.value.listing.value.listing.id != 0 ==>
        var id := selectedReport.value.listing.value.listing.id;
        && db.reports == (if reportsDeleteFails then old(db.reports) else WithoutReportsFor(old(db.reports), id))
        && (listingDeleteFails ==> db.listings == old(db.listings) && notices == old(notices) + [DeleteFailed] && actionOpen == old(actionOpen))
        && (!listingDeleteFails ==> db.listings == WithoutListing(old(db.listings), id) && notices == old(notices) + [DeletedNotice] && !actionOpen)
      ensures db.profiles == old(db.profiles)
      ensures selectedReport == old(selectedReport) && banPopupOpen == old(banPopupOpen)
      ensures reports == old(reports) && pendingListings == old(pendingListings) && loading == old(loading)
    {
      if selectedReport.None? || selectedReport.value.listing.None? || selectedReport.value.listing.value.listing.id == 0 {
        return false;
      }
      var id := selectedReport.value.listing.value.listing.id;
      if !reportsDeleteFails {
        db.DeleteReportsFor(id);
      }
      if listingDeleteFails {
        notices := notices + [DeleteFailed];
        return false;
      }
      db.DeleteListing(id);
      notices := notices + [DeletedNotice];
      actionOpen := false;
      return true;
    }
  }

  /** After a successful delete neither the listing nor any report about it is left. */
  lemma DeleteLeavesNothingBehind(listings: seq<Listing>, reports: seq<Report>, id: ListingId)
    ensures forall l :: l in WithoutListing(listings, id) ==> l.id != id
    ensures forall r :: r in WithoutReportsFor(reports, id) ==> r.reportedListingId != id
    ensures forall r :: r in reports && r.reportedListingId != id ==> r in WithoutReportsFor(reports, id)
  {
  }
}
