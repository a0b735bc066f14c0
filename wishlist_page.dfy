/** The wishlist page: fetching the rows of the wishlisted listings, the optimistic
    removal of a row, and the report form, which only closes itself. */
module WishlistPage {
  import opened Wrappers
  import opened Seqs
  import opened Records
  import opened Ui
  import WishlistStore

  const LoadFailed: Notice := Notice(Error, "Could not load your wishlist.")
  const ReportThanks: Notice := Notice(Plain, "Report submitted. Thank you for your feedback.")

  /** `listings` selected `.in('id', wishlist)`: every wishlisted listing, whatever its
      approval or sale status, in the order of `table`. */
  function WishlistQuery(table: seq<ListingRow>, wishlist: seq<ListingId>): (r: seq<ListingRow>)
    ensures forall row :: row in r <==> row in table && row.listing.id in wishlist
    ensures Subsequence(r, table)
  {
    FilterIsSubsequence(table, (row: ListingRow) => row.listing.id in wishlist);
    Filter(table, (row: ListingRow) => row.listing.id in wishlist)
  }

  /** `currentProducts.filter(p => p.id !== productId)`. */
  function WithoutProduct(rows: seq<ListingRow>, id: ListingId): (r: seq<ListingRow>)
    ensures forall row :: row in r <==> row in rows && row.listing.id != id
    ensures Subsequence(r, rows)
  {
    FilterIsSubsequence(rows, (row: ListingRow) => row.listing.id != id);
    Filter(rows, (row: ListingRow) => row.listing.id != id)
  }

  /** Every shown row is a wishlisted listing. */
  predicate ShownAreWishlisted(rows: seq<ListingRow>, wishlist: seq<ListingId>)
  {
    forall row :: row in rows ==> row.listing.id in wishlist
  }

  /** Removing an item from the page keeps every shown row wishlisted, and the removed
      listing is neither shown nor wishlisted afterwards when it was wishlisted before. */
  lemma RemoveKeepsShownWishlisted(rows: seq<ListingRow>, wishlist: seq<ListingId>, id: ListingId)
    requires ShownAreWishlisted(rows, wishlist)
    ensures ShownAreWishlisted(WithoutProduct(rows, id), WishlistStore.Toggle(wishlist, id))
    ensures id in wishlist ==> id !in WishlistStore.Toggle(wishlist, id)
    ensures forall row :: row in WithoutProduct(rows, id) ==> row.listing.id != id
  {
  }

  /** A fetch answered with the query over the table shows only wishlisted rows. */
  lemma FetchedAreWishlisted(table: seq<ListingRow>, wishlist: seq<ListingId>)
    ensures ShownAreWishlisted(WishlistQuery(table, wishlist), wishlist)
  {
  }

  /** The page's state fields. */
  class Page {
    var products: seq<ListingRow>
    var loading: bool
    var reportOpen: bool
    var notices: seq<Notice>

    constructor ()
      ensures products == [] && loading && !reportOpen && notices == []
    {
      products, loading, reportOpen, notices := [], true, false, [];
    }

    /** `fetchWishlistedItems` for the current wishlist; `reply` is the query's answer, and
        `queried` says whether the query was sent at all. */
    method FetchWishlistedItems(wishlist: seq<ListingId>, reply: Result<seq<ListingRow>>) returns (queried: bool)
      modifies this
      ensures queried <==> wishlist != []
      ensures !loading && reportOpen == old(reportOpen)
      ensures wishlist == [] ==> products == [] && notices == old(notices)
      ensures queried && reply.Ok? ==> products == reply.value && notices == old(notices)
      ensures queried && reply.Err? ==> products == old(products) && notices == old(notices) + [LoadFailed]
    {
      loading := true;
      if |wishlist| == 0 {
        products := [];
        loading := false;
        return false;
      }
      queried := true;
      match reply {
        case Ok(data) => products := data;
        case Err(_) => notices := notices + [LoadFailed];
      }
      loading := false;
    }

    /** `handleRemoveFromWishlist(id)`: the row disappears at once and the wishlist is toggled once. */
    method RemoveFromWishlist(id: ListingId, store: WishlistStore.Store)
      modifies this, store
      ensures products == WithoutProduct(old(products), id)
      ensures store.wishlist == WishlistStore.Toggle(old(store.wishlist), id)
      ensures store.notices == old(store.notices) + [WishlistStore.ToggleNotice(old(store.wishlist), id)]
      ensures store.Persisted()
      ensures loading == old(loading) && reportOpen == old(reportOpen) && notices == old(notices)
    {
      products := WithoutProduct(products, id);
      store.ToggleWishlist(id);
    }

    /** `handleReportSubmit`: the popup closes and a thank-you notice shows; nothing is saved. */
    method ReportSubmit()
      modifies this
      ensures !reportOpen && notices == old(notices) + [ReportThanks]
      ensures products == old(products) && loading == old(loading)
    {
      reportOpen := false;
      notices := notices + [ReportThanks];
    }
  }
}
