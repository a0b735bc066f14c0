/** The seller's own listings: the query restricted to the signed-in seller, the three
    groups the page shows them in, and the delete and mark-as-sold actions, each of which
    changes the listings table and fetches the seller's listings again. */
module MyListings {
  import opened Wrappers
  import opened Seqs
  import opened Records
  import opened Ui

  /** `listings` selected `.eq('seller_id', user)`, in the table's (newest-first) order. */
  function SellerListings(table: seq<Listing>, user: UserId): (r: seq<Listing>)
    ensures forall l :: l in r <==> l in table && l.sellerId == user
    ensures Subsequence(r, table)
  {
    FilterIsSubsequence(table, (l: Listing) => l.sellerId == user);
    Filter(table, (l: Listing) => l.sellerId == user)
  }

  predicate IsPending(l: Listing) { l.approvalStatus == Pending }
  predicate IsActive(l: Listing) { l.approvalStatus == Approved && l.status == Available }
  predicate IsArchived(l: Listing) { l.status == Sold || l.approvalStatus == Rejected }

  /** "Pending approval": the listings still waiting for a moderator, in fetch order. */
  function PendingGroup(rows: seq<Listing>): (r: seq<Listing>)
    ensures forall l :: l in r <==> l in rows && IsPending(l)
    ensures Subsequence(r, rows)
  {
    FilterIsSubsequence(rows, IsPending);
    Filter(rows, IsPending)
  }

  /** "Active": approved and still for sale, in fetch order. */
  function ActiveGroup(rows: seq<Listing>): (r: seq<Listing>)
    ensures forall l :: l in r <==> l in rows && IsActive(l)
    ensures Subsequence(r, rows)
  {
    FilterIsSubsequence(rows, IsActive);
    Filter(rows, IsActive)
  }

  /** "Sold or rejected", in fetch order. */
  function ArchivedGroup(rows: seq<Listing>): (r: seq<Listing>)
    ensures forall l :: l in r <==> l in rows && IsArchived(l)
    ensures Subsequence(r, rows)
  {
    FilterIsSubsequence(rows, IsArchived);
    Filter(rows, IsArchived)
  }

  /** The statuses the client ever writes. */
  predicate KnownStatuses(l: Listing)
  {
    l.approvalStatus in {Pending, Approved, Rejected} && l.status in {Available, Sold}
  }

  /** The groups are separate filters: a listing with known statuses shows in at least one
      group, it shows in two exactly when it is pending and already sold, and never in three. */
  lemma GroupsCoverAndOverlap(rows: seq<Listing>, l: Listing)
    requires l in rows && KnownStatuses(l)
    ensures l in PendingGroup(rows) || l in ActiveGroup(rows) || l in ArchivedGroup(rows)
    ensures (l in PendingGroup(rows) && l in ArchivedGroup(rows)) <==> IsPending(l) && l.status == Sold
    ensures !(l in ActiveGroup(rows) && l in ArchivedGroup(rows))
    ensures !(l in ActiveGroup(rows) && l in PendingGroup(rows))
  {
  }

  const FetchFailed: Notice := Notice(Error, "Could not fetch your listings.")
  const Deleted: Notice := Notice(Success, "Listing deleted successfully.")
  const DeleteFailed: Notice := Notice(Error, "Failed to delete listing.")
  const MarkedSold: Notice := Notice(Success, "Listing marked as sold!")
  const MarkFailed: Notice := Notice(Error, "Failed to update listing status.")

  /** The page's state fields. */
  class Page {
    var myListings: seq<Listing>
    var loading: bool
    var notices: seq<Notice>

    constructor ()
      ensures myListings == [] && loading && notices == []
    {
      myListings, loading, notices := [], true, [];
    }

    /** `fetchMyListings`: nobody signed in or a failed query shows a notice and keeps the
        shown listings; otherwise the seller's listings replace them. */
    method Fetch(user: Option<UserId>, db: Database, fails: bool)
      modifies this
      ensures !loading
      ensures user.Some? && !fails ==> myListings == SellerListings(db.listings, user.value) && notices == old(notices)
      ensures user.None? || fails ==> myListings == old(myListings) && notices == old(notices) + [FetchFailed]
    {
      loading := true;
      if user.None? || fails {
        notices := notices + [FetchFailed];
      } else {
        myListings := SellerListings(db.listings, user.value);
      }
      loading := false;
    }

    /** `handleDelete(id)`: nothing without confirmation; otherwise the row is deleted, the
        success notice shows and the listings are fetched again. */
    method Delete(confirmed: bool, id: ListingId, user: Option<UserId>, db: Database, deleteFails: bool, fetchFails: bool)
      modifies this, db
      ensures !confirmed ==> myListings == old(myListings) && notices == old(notices) && loading == old(loading)
      ensures !confirmed || deleteFails ==> db.listings == old(db.listings)
      ensures confirmed && deleteFails ==> notices == old(notices) + [DeleteFailed] && myListings == old(myListings)
      ensures confirmed && !deleteFails ==> db.listings == WithoutListing(old(db.listings), id)
      ensures confirmed && !deleteFails ==> |notices| >= |old(notices)| + 1 && notices[|old(notices)|] == Deleted
      ensures confirmed && !deleteFails && user.Some? && !fetchFails ==>
        myListings == SellerListings(db.listings, user.value) && forall l :: l in myListings ==> l.id != id
      ensures db.profiles == old(db.profiles) && db.reports == old(db.reports)
    {
      if !confirmed {
        return;
      }
      if deleteFails {
        notices := notices + [DeleteFailed];
        return;
      }
      db.DeleteListing(id);
      notices := notices + [Deleted];
      Fetch(user, db, fetchFails);
    }

    /** `handleMarkAsSold(id)`: the row's status becomes "sold", the notice shows and the
        listings are fetched again. */
    method MarkAsSold(id: ListingId, user: Option<UserId>, db: Database, updateFails: bool, fetchFails: bool)
      modifies this, db
      ensures updateFails ==> db.listings == old(db.listings) && notices == old(notices) + [MarkFailed]
      ensures updateFails ==> myListings == old(myListings)
      ensures !updateFails ==> db.listings == WithStatus(old(db.listings), id, Sold)
      ensures !updateFails ==> |notices| >= |old(notices)| + 1 && notices[|old(notices)|] == MarkedSold
      ensures !updateFails && user.Some? && !fetchFails ==> myListings == SellerListings(db.listings, user.value)
      ensures db.profiles == old(db.profiles) && db.reports == old(db.reports)
    {
      if updateFails {
        notices := notices + [MarkFailed];
        return;
      }
      db.SetStatus(id, Sold);
      notices := notices + [MarkedSold];
      Fetch(user, db, fetchFails);
    }
  }

  /** After marking a listing sold and fetching again, that listing leaves the active group
      and shows among the sold or rejected ones. */
  lemma MarkAsSoldMovesToArchive(table: seq<Listing>, id: ListingId, user: UserId, l: Listing)
    requires l in table && l.id == id && l.sellerId == user
    ensures l.(status := Sold) in ArchivedGroup(SellerListings(WithStatus(table, id, Sold), user))
    ensures forall m :: m in ActiveGroup(SellerListings(WithStatus(table, id, Sold), user)) ==> m.id != id
  {
    var i :| 0 <= i < |table| && table[i] == l;
    assert WithStatus(table, id, Sold)[i] == l.(status := Sold);
    var t := WithStatus(table, id, Sold);
    assert forall j :: 0 <= j < |t| ==> t[j].id == table[j].id;
    assert forall m :: m in t && m.id == id ==> m.status == Sold;
  }
}
