/** The card of one of the seller's own listings: its status badge, its picture, which
    buttons it shows and what a click on each part of it does. */
module MyListingCard {
  import opened Wrappers
  import opened Records
  import MyListings

  datatype Badge = PendingBadge | SoldBadge | RejectedBadge

  /** `getStatusBadge`: pending first, then sold, then rejected; no badge otherwise. */
  function StatusBadge(l: Listing): (b: Option<Badge>)
    ensures b == Some(PendingBadge) <==> l.approvalStatus == Pending
    ensures b == Some(SoldBadge) <==> l.approvalStatus != Pending && l.status == Sold
    ensures b == Some(RejectedBadge) <==> l.approvalStatus == Rejected && l.status != Sold
    ensures b == None <==> l.approvalStatus != Pending && l.status != Sold && l.approvalStatus != Rejected
  {
    if l.approvalStatus == Pending then Some(PendingBadge)
    else if l.status == Sold then Some(SoldBadge)
    else if l.approvalStatus == Rejected then Some(RejectedBadge)
    else None
  }

  /** The "Sold" button: only for an approved listing that is still available. */
  predicate ShowSoldButton(l: Listing)
  {
    l.approvalStatus == Approved && l.status == Available
  }

  /** The badge and the page's groups agree: the pending badge marks the pending group, a
      listing that can still be marked sold has no badge, and a sold or rejected listing that
      is not pending wears the badge of its state. */
  lemma BadgeMatchesGroups(l: Listing)
    ensures StatusBadge(l) == Some(PendingBadge) <==> MyListings.IsPending(l)
    ensures ShowSoldButton(l) <==> MyListings.IsActive(l)
    ensures ShowSoldButton(l) ==> StatusBadge(l) == None
    ensures MyListings.IsArchived(l) && !MyListings.IsPending(l) ==>
      StatusBadge(l) == Some(SoldBadge) || StatusBadge(l) == Some(RejectedBadge)
  {
  }

  const Placeholder: string := "https://placehold.co/600x400/1e1e1e/a1a1aa?text=No+Image"

  /** `imageUrls?.[0] || placeholder`: an empty first URL also falls back to the placeholder. */
  function CardImage(imageUrls: seq<string>): (r: string)
    ensures r != ""
    ensures imageUrls != [] && imageUrls[0] != "" ==> r == imageUrls[0]
    ensures imageUrls == [] || imageUrls[0] == "" ==> r == Placeholder
  {
    if |imageUrls| > 0 && imageUrls[0] != "" then imageUrls[0] else Placeholder
  }

  /** Where on the card a click lands. */
  datatype Target = SoldButton | DeleteButton | ViewDetailsButton | CardBody

  /** The callbacks of the card. */
  datatype Action = MarkAsSold | Delete | ViewDetails

  /** The callbacks one click runs, in order. A click on "Sold" or "Delete" runs its action and
      stops there; "View Details" has no handler of its own, so the click reaches the card,
      which opens the details. Only a shown button can be clicked. */
  function Click(l: Listing, target: Target): (actions: seq<Action>)
    requires target == SoldButton ==> ShowSoldButton(l)
    ensures |actions| == 1
    ensures target == SoldButton <==> actions == [MarkAsSold]
    ensures target == DeleteButton <==> actions == [Delete]
    ensures target == ViewDetailsButton || target == CardBody <==> actions == [ViewDetails]
  {
    match target
    case SoldButton => [MarkAsSold]
    case DeleteButton => [Delete]
    case ViewDetailsButton => [ViewDetails]
    case CardBody => [ViewDetails]
  }
}
