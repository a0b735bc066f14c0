/** The client-side wishlist: a list of listing ids kept in memory, loaded from and
    written back to the browser's key-value store under the key "wishlist", and
    toggled one id at a time with a notice for each change. */
module WishlistStore {
  import opened Wrappers
  import opened Seqs
  import opened JsonIds
  import opened Records
  import opened Ui

  const StorageKey: string := "wishlist"

  const RemovedNotice: Notice := Notice(Info, "Removed from wishlist")
  const AddedNotice: Notice := Notice(Success, "Added to wishlist!")

  /** The initial wishlist: the parsed stored array, or empty when nothing (or an empty
      text) is stored or the stored text does not parse. */
  function LoadWishlist(saved: Option<string>): (r: seq<ListingId>)
    ensures saved.None? || saved == Some("") ==> r == []
    ensures saved.Some? && ParseIds(saved.value).Some? ==> r == ParseIds(saved.value).value
    ensures saved.Some? && ParseIds(saved.value).None? ==> r == []
  {
    match saved
    case None => []
    case Some(text) =>
      if text == "" then []
      else match ParseIds(text)
        case Some(ids) => ids
        case None => []
  }

  /** What the persistence effect reads back on the next visit is the list it wrote. */
  lemma LoadAfterPersist(ids: seq<ListingId>)
    ensures LoadWishlist(Some(EncodeIds(ids))) == ids
  {
    ParseEncodeIds(ids);
  }

  /** `toggleWishlist(id)` on the list: a present id is removed everywhere, an absent one
      is appended at the end. */
  function Toggle(wishlist: seq<ListingId>, id: ListingId): (r: seq<ListingId>)
    ensures id in r <==> id !in wishlist
    ensures forall y :: y != id ==> (y in r <==> y in wishlist)
    ensures id !in wishlist ==> r == wishlist + [id]
    ensures id in wishlist ==> multiset(r) == multiset(wishlist)[id := 0]
  {
    if Includes(wishlist, id) then RemoveAll(wishlist, id) else wishlist + [id]
  }

  /** The notice a toggle shows: "info" for a removal, "success" for an addition. */
  function ToggleNotice(wishlist: seq<ListingId>, id: ListingId): (n: Notice)
    ensures id in wishlist ==> n == RemovedNotice
    ensures id !in wishlist ==> n == AddedNotice
  {
    if Includes(wishlist, id) then RemovedNotice else AddedNotice
  }

  /** Toggling the same id twice restores whether it is wishlisted, and gives the very same
      list back when the id was not wishlisted before. */
  lemma ToggleTwice(wishlist: seq<ListingId>, id: ListingId)
    ensures (id in Toggle(Toggle(wishlist, id), id)) <==> id in wishlist
    ensures id !in wishlist ==> Toggle(Toggle(wishlist, id), id) == wishlist
  {
    if id !in wishlist {
      RemoveAllAppend(wishlist, id);
    }
  }

  /** A toggle never produces a repeated id from a list without one. */
  lemma ToggleKeepsNoDuplicates(wishlist: seq<ListingId>, id: ListingId)
    requires NoDuplicates(wishlist)
    ensures NoDuplicates(Toggle(wishlist, id))
  {
    if id in wishlist {
      RemoveAllKeepsNoDuplicates(wishlist, id);
    } else {
      var r := wishlist + [id];
      forall i, j | 0 <= i < j < |r| ensures r[i] != r[j] {
        if j == |wishlist| {
          assert r[i] in wishlist;
        }
      }
    }
  }

  /** The wishlist held by the context provider, the key-value store it writes through,
      and the notices it shows. */
  class Store {
    var wishlist: seq<ListingId>
    var storage: map<string, string>
    var notices: seq<Notice>

    /** The stored text equals the encoding of the list in memory. */
    predicate Persisted()
      reads this
    {
      StorageKey in storage && storage[StorageKey] == EncodeIds(wishlist)
    }

    /** Mounting the provider: the lazy initial load, then the persistence effect's first run. */
    constructor (stored: map<string, string>)
      ensures wishlist == LoadWishlist(if StorageKey in stored then Some(stored[StorageKey]) else None)
      ensures storage == stored[StorageKey := EncodeIds(wishlist)] && notices == []
      ensures Persisted()
    {
      var loaded := LoadWishlist(if StorageKey in stored then Some(stored[StorageKey]) else None);
      wishlist := loaded;
      storage := stored[StorageKey := EncodeIds(loaded)];
      notices := [];
    }

    /** `toggleWishlist(id)`, followed by the persistence effect it triggers. */
    method ToggleWishlist(id: ListingId)
      modifies this
      ensures wishlist == Toggle(old(wishlist), id)
      ensures notices == old(notices) + [ToggleNotice(old(wishlist), id)]
      ensures storage == old(storage)[StorageKey := EncodeIds(wishlist)]
      ensures Persisted()
    {
      var isWishlisted := Includes(wishlist, id);
      if isWishlisted {
        notices := notices + [RemovedNotice];
        wishlist := RemoveAll(wishlist, id);
      } else {
        notices := notices + [AddedNotice];
        wishlist := wishlist + [id];
      }
      storage := storage[StorageKey := EncodeIds(wishlist)];
    }
  }

  /** After any change the store, loaded afresh, yields the list in memory. */
  lemma PersistedReloads(s: Store)
    requires s.Persisted()
    ensures LoadWishlist(Some(s.storage[StorageKey])) == s.wishlist
  {
    LoadAfterPersist(s.wishlist);
  }
}
