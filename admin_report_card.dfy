/** The card a moderator sees for one new report: an "orphaned" card when the reported
    listing no longer exists, otherwise the listing's picture and seller with fallbacks. */
module AdminReportCard {
  import opened Wrappers
  import opened Records

  const Placeholder: string := "https://placehold.co/600x400/1e1e1e/a1a1aa?text=No+Image"
  const NotAvailable: string := "N/A"
  const DayScholar: string := "Day Scholar"
  const NoDetails: string := "No details provided."

  /** The buttons of a card and the callback each one calls with the report. */
  datatype Button = ClearReport | Details | TakeAction
  datatype Callback = OnAction | OnView

  /** The seller lines of the card. */
  datatype SellerLines = SellerLines(name: string, study: string, residence: string)

  datatype View =
    | Orphaned(reportId: nat, buttons: seq<Button>)
    | Full(image: string, seller: SellerLines, reason: string, description: string, buttons: seq<Button>)

  /** The seller lines: "N/A" throughout without a seller; otherwise the name, branch and year,
      and the hostel for a hosteller or "Day Scholar" for anyone else. */
  function Seller(seller: Option<Profile>): (s: SellerLines)
    ensures seller.None? ==> s == SellerLines(NotAvailable, NotAvailable, NotAvailable)
    ensures seller.Some? ==> var p := seller.value;
      && |s.name| == |p.firstName| + 1 + |p.lastName|
      && s.name[..|p.firstName|] == p.firstName && s.name[|p.firstName|] == ' '
      && s.name[|p.firstName| + 1..] == p.lastName
    ensures seller.Some? ==> var p := seller.value;
      && |s.study| == |p.branch| + 2 + |p.year|
      && s.study[..|p.branch|] == p.branch && s.study[|p.branch|..|p.branch| + 2] == ", "
      && s.study[|p.branch| + 2..] == p.year
    ensures seller.Some? && seller.value.isHosteller == Some(true) ==> s.residence == seller.value.hostelName
    ensures seller.Some? && seller.value.isHosteller != Some(true) ==> s.residence == DayScholar
  {
    match seller
    case None => SellerLines(NotAvailable, NotAvailable, NotAvailable)
    case Some(p) =>
      SellerLines(p.firstName + " " + p.lastName, p.branch + ", " + p.year,
                  if p.isHosteller == Some(true) then p.hostelName else DayScholar)
  }

  /** The picture: the first image row's URL, or the placeholder. */
  function Image(images: seq<ListingImage>): (r: string)
    ensures images != [] ==> r == images[0].imageUrl
    ensures images == [] ==> r == Placeholder
  {
    if |images| > 0 then images[0].imageUrl else Placeholder
  }

  /** The card for `report`. */
  function Card(report: ReportRow): (v: View)
    ensures report.listing.None? <==> v.Orphaned?
    ensures v.Orphaned? ==> v.reportId == report.report.id && v.buttons == [ClearReport]
    ensures v.Full? ==> v.buttons == [Details, TakeAction]
    ensures v.Full? ==> v.seller == Seller(report.listing.value.seller) && v.image == Image(report.listing.value.images)
    ensures v.Full? ==> v.reason == report.report.category
    ensures v.Full? ==> (v.description == NoDetails <==> report.report.description == "" || report.report.description == NoDetails)
    ensures v.Full? && report.report.description != "" ==> v.description == report.report.description
  {
    match report.listing
    case None => Orphaned(report.report.id, [ClearReport])
    case Some(row) =>
      Full(Image(row.images), Seller(row.seller), report.report.category,
           if report.report.description == "" then NoDetails else report.report.description,
           [Details, TakeAction])
  }

  /** The callback behind each button: "Clear Report" and "Take Action" hand the report to the
      moderation popup, "Details" to the details view. */
  function Press(b: Button): (c: Callback)
    ensures c == OnView <==> b == Details
  {
    match b
    case ClearReport => OnAction
    case TakeAction => OnAction
    case Details => OnView
  }

  /** Every card, orphaned or not, offers a way to the moderation popup. */
  lemma EveryCardReachesAction(report: ReportRow)
    ensures exists b :: b in Card(report).buttons && Press(b) == OnAction
  {
    var v := Card(report);
    if v.Orphaned? {
      assert ClearReport in v.buttons;
    } else {
      assert TakeAction in v.buttons;
    }
  }
}
