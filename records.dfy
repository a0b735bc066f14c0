/** The backend rows the client reads and writes, as typed records: profiles,
    listings, listing images and reports, plus the joined shapes the pages
    select (a listing with its seller and images, a report with its listing).
    Nullable text columns are held as `""`, which the pages treat like null (except where a
    template string would print a null, as noted for `ListingCard.ChatMessage`);
    timestamps are milliseconds since the epoch. */
module Records {
  import opened Wrappers
  import opened Seqs

  /** Account ids are the auth service's user ids; listing and report ids are integers. */
  type UserId = string
  type ListingId = nat

  const Pending: string := "pending"
  const Approved: string := "approved"
  const Rejected: string := "rejected"
  const Available: string := "available"
  const Sold: string := "sold"
  const ReportNew: string := "new"
  const ReportIgnored: string := "ignored"

  datatype Profile = Profile(
    id: UserId,
    email: string,
    firstName: string,
    lastName: string,
    branch: string,
    year: string,
    gender: string,
    isHosteller: Option<bool>,
    hostelName: string,
    countryCode: string,
    whatsappNumber: string,
    profilePhotoUrl: string,
    bannedUntil: Option<int>,
    role: string)

  datatype Listing = Listing(
    id: ListingId,
    productName: string,
    productPrice: string,
    productCategory: string,
    productAge: string,
    shortDescription: string,
    longDescription: string,
    approvalStatus: string,
    status: string,
    sellerId: UserId,
    imageUrls: seq<string>)

  datatype ListingImage = ListingImage(listingId: ListingId, imageUrl: string, position: int)

  datatype Report = Report(
    id: nat,
    reportedListingId: ListingId,
    reporterId: UserId,
    category: string,
    description: string,
    status: string)

  /** `listings` selected with `profiles(*)` and `listing_images(*)`. */
  datatype ListingRow = ListingRow(listing: Listing, seller: Option<Profile>, images: seq<ListingImage>)

  /** `reports` selected with `listings(*, profiles(*), listing_images(*))`; the listing is
      absent once it has been deleted. */
  datatype ReportRow = ReportRow(report: Report, listing: Option<ListingRow>)

  /** `update({approval_status: a}).eq('id', id)` on the listings table. */
  function WithApproval(listings: seq<Listing>, id: ListingId, a: string): (r: seq<Listing>)
    ensures |r| == |listings|
    ensures forall i :: 0 <= i < |r| && listings[i].id == id ==> r[i] == listings[i].(approvalStatus := a)
    ensures forall i :: 0 <= i < |r| && listings[i].id != id ==> r[i] == listings[i]
  {
    MapWhere(listings, (l: Listing) => l.id == id, (l: Listing) => l.(approvalStatus := a))
  }

  /** `update({status: s}).eq('id', id)` on the listings table. */
  function WithStatus(listings: seq<Listing>, id: ListingId, s: string): (r: seq<Listing>)
    ensures |r| == |listings|
    ensures forall i :: 0 <= i < |r| && listings[i].id == id ==> r[i] == listings[i].(status := s)
    ensures forall i :: 0 <= i < |r| && listings[i].id != id ==> r[i] == listings[i]
  {
    MapWhere(listings, (l: Listing) => l.id == id, (l: Listing) => l.(status := s))
  }

  /** `delete().eq('id', id)` on the listings table. */
  function WithoutListing(listings: seq<Listing>, id: ListingId): (r: seq<Listing>)
    ensures forall l :: l in r <==> l in listings && l.id != id
  {
    Filter(listings, (l: Listing) => l.id != id)
  }

  /** `delete().eq('reported_listing_id', id)` on the reports table. */
  function WithoutReportsFor(reports: seq<Report>, id: ListingId): (r: seq<Report>)
    ensures forall x :: x in r <==> x in reports && x.reportedListingId != id
  {
    Filter(reports, (r: Report) => r.reportedListingId != id)
  }

  /** `update({status: s}).eq('id', id)` on the reports table. */
  function WithReportStatus(reports: seq<Report>, id: nat, s: string): (r: seq<Report>)
    ensures |r| == |reports|
    ensures forall i :: 0 <= i < |r| && reports[i].id == id ==> r[i] == reports[i].(status := s)
    ensures forall i :: 0 <= i < |r| && reports[i].id != id ==> r[i] == reports[i]
  {
    MapWhere(reports, (r: Report) => r.id == id, (r: Report) => r.(status := s))
  }

  /** `update({banned_until: t}).eq('id', id)` on the profiles table. */
  function WithBannedUntil(profiles: seq<Profile>, id: UserId, t: int): (r: seq<Profile>)
    ensures |r| == |profiles|
    ensures forall i :: 0 <= i < |r| && profiles[i].id == id ==> r[i] == profiles[i].(bannedUntil := Some(t))
    ensures forall i :: 0 <= i < |r| && profiles[i].id != id ==> r[i] == profiles[i]
  {
    MapWhere(profiles, (p: Profile) => p.id == id, (p: Profile) => p.(bannedUntil := Some(t)))
  }

  /** The backend's tables, as the pages change them. Every change is one statement of the
      backend: it either happens as a whole or, when the call fails, not at all. */
  class Database {
    var profiles: seq<Profile>
    var listings: seq<Listing>
    var reports: seq<Report>

    constructor (profiles: seq<Profile>, listings: seq<Listing>, reports: seq<Report>)
      ensures this.profiles == profiles && this.listings == listings && this.reports == reports
    {
      this.profiles, this.listings, this.reports := profiles, listings, reports;
    }

    method SetApproval(id: ListingId, a: string)
      modifies this
      ensures listings == WithApproval(old(listings), id, a)
      ensures profiles == old(profiles) && reports == old(reports)
    {
      listings := WithApproval(listings, id, a);
    }

    method SetStatus(id: ListingId, s: string)
      modifies this
      ensures listings == WithStatus(old(listings), id, s)
      ensures profiles == old(profiles) && reports == old(reports)
    {
      listings := WithStatus(listings, id, s);
    }

    method DeleteListing(id: ListingId)
      modifies this
      ensures listings == WithoutListing(old(listings), id)
      ensures profiles == old(profiles) && reports == old(reports)
    {
      listings := WithoutListing(listings, id);
    }

    method DeleteReportsFor(id: ListingId)
      modifies this
      ensures reports == WithoutReportsFor(old(reports), id)
      ensures profiles == old(profiles) && listings == old(listings)
    {
      reports := WithoutReportsFor(reports, id);
    }

    method SetReportStatus(id: nat, s: string)
      modifies this
      ensures reports == WithReportStatus(old(reports), id, s)
      ensures profiles == old(profiles) && listings == old(listings)
    {
      reports := WithReportStatus(reports, id, s);
    }

    method SetBannedUntil(id: UserId, t: int)
      modifies this
      ensures profiles == WithBannedUntil(old(profiles), id, t)
      ensures listings == old(listings) && reports == old(reports)
    {
      profiles := WithBannedUntil(profiles, id, t);
    }
  }
}
