/** The marketplace page: the seller avatar (initials and a colour chosen by a
    string hash), the image carousel, the filter popup's reducers, the listing
    query as a predicate over the listings table, and the paging state the feed
    keeps while it fetches nine rows at a time. */
module Marketplace {
  import opened Wrappers
  import opened Seqs
  import opened Text
  import opened Records
  import opened Ui
  import ProfileHostels

  // ---------------------------------------------------------------- avatar

  /** `s?.[0]?.toUpperCase() || ''`: the first character upper-cased, or nothing. */
  function FirstUpper(s: string): string
  {
    if s == [] then "" else [ToUpper(s[0])]
  }

  /** `getInitials(firstName, lastName)`. */
  function Initials(firstName: string, lastName: string): (r: string)
    ensures |r| == (if firstName == [] then 0 else 1) + (if lastName == [] then 0 else 1)
    ensures firstName != [] ==> r[0] == ToUpper(firstName[0])
    ensures lastName != [] ==> r[|r| - 1] == ToUpper(lastName[0])
  {
    FirstUpper(firstName) + FirstUpper(lastName)
  }

  const AvatarColors: seq<string> := [
    "#4f46e5", "#db2777", "#059669", "#f59e42", "#5a67d8", "#fbbf24", "#3b82f6", "#34d399", "#ec4899",
    "#ef4444", "#10b981", "#d97706", "#6d28d9", "#c026d3", "#2563eb", "#22d3ee"]

  const TwoTo32: int := 0x1_0000_0000
  const TwoTo31: int := 0x8000_0000

  /** ECMAScript's ToInt32 on an integral number: the 32-bit two's-complement value
      congruent to `x` modulo 2^32. */
  function ToInt32(x: int): (r: int)
    ensures -TwoTo31 <= r < TwoTo31
    ensures (r - x) % TwoTo32 == 0
  {
    var m := x % TwoTo32;
    if m >= TwoTo31 then m - TwoTo32 else m
  }

  /** `h << 5`: the operand is converted to 32 bits and the shifted value wraps to 32 bits. */
  function ShiftLeft5(h: int): int
  {
    ToInt32(ToInt32(h) * 32)
  }

  /** The value of `hash` after the loop of `getRandomColor` has read all of `s`. The
      variable holds a JavaScript number; it stays integral, and it is exact as long as
      its magnitude stays below 2^53. */
  function Hash(s: string): int
  {
    if s == [] then 0
    else
      var h := Hash(s[..|s| - 1]);
      s[|s| - 1] as int + (ShiftLeft5(h) - h)
  }

  /** `Math.abs(hash) % avatarColors.length`. */
  function ColorIndex(seed: string): (i: nat)
    ensures i < |AvatarColors|
  {
    var h := Hash(seed);
    (if h < 0 then -h else h) % |AvatarColors|
  }

  /** `getRandomColor(seed)`: a loop that updates `hash` character by character. */
  method RandomColor(seed: string) returns (color: string)
    ensures color == AvatarColors[ColorIndex(seed)]
    ensures color in AvatarColors
  {
    var hash := 0;
    for i := 0 to |seed|
      invariant hash == Hash(seed[..i])
    {
      assert seed[..i + 1][..i] == seed[..i];
      hash := seed[i] as int + (ShiftLeft5(hash) - hash);
    }
    assert seed[..|seed|] == seed;
    var idx := (if hash < 0 then -hash else hash) % |AvatarColors|;
    color := AvatarColors[idx];
  }

  /** The usual 32-bit string hash: `h = 31*h + c` in arithmetic modulo 2^32. */
  function Hash31(s: string): (r: int)
    ensures 0 <= r < TwoTo32
  {
    if s == [] then 0 else (31 * Hash31(s[..|s| - 1]) + s[|s| - 1] as int) % TwoTo32
  }

  /** `a` and `b` are equal modulo 2^32. */
  ghost predicate Congruent(a: int, b: int)
  {
    (a - b) % TwoTo32 == 0
  }

  lemma CongruentByMultiple(a: int, b: int, k: int)
    requires a - b == k * TwoTo32
    ensures Congruent(a, b)
  {
  }

  lemma CongruentTrans(a: int, b: int, c: int)
    requires Congruent(a, b) && Congruent(b, c)
    ensures Congruent(a, c)
  {
    var k1, k2 := (a - b) / TwoTo32, (b - c) / TwoTo32;
    CongruentByMultiple(a, c, k1 + k2);
  }

  lemma CongruentScale(a: int, b: int, n: int)
    requires Congruent(a, b)
    ensures Congruent(n * a, n * b)
  {
    var k := (a - b) / TwoTo32;
    assert a - b == k * TwoTo32;
    assert n * a - n * b == (n * k) * TwoTo32;
    CongruentByMultiple(n * a, n * b, n * k);
  }

  lemma ModOfCongruent(a: int, b: int)
    requires Congruent(a, b)
    ensures a % TwoTo32 == b % TwoTo32
  {
    var k := (a - b) / TwoTo32;
    assert a == b + k * TwoTo32;
  }

  /** One step of the loop: `c + ((h << 5) - h)` is `31 * h + c` modulo 2^32. */
  lemma HashStepCongruent(h: int, c: int)
    ensures Congruent(c + (ShiftLeft5(h) - h), c + 31 * (h % TwoTo32))
  {
    var t := ToInt32(h);
    var u := ShiftLeft5(h);
    CongruentScale(t, h, 32);
    CongruentTrans(u, 32 * t, 32 * h);
    assert Congruent(c + (u - h), c + 31 * h);
    CongruentByMultiple(h, h % TwoTo32, h / TwoTo32);
    CongruentScale(h, h % TwoTo32, 31);
    assert Congruent(c + 31 * h, c + 31 * (h % TwoTo32));
    CongruentTrans(c + (u - h), c + 31 * h, c + 31 * (h % TwoTo32));
  }

  /** `(hash << 5) - hash` is `31 * hash` up to wrap-around: the loop computes the 32-bit
      string hash, held in a number that has not been reduced to 32 bits. */
  lemma {:induction false} HashIsHash31(s: string)
    ensures Hash(s) % TwoTo32 == Hash31(s)
  {
    if s != [] {
      var p := s[..|s| - 1];
      var c := s[|s| - 1] as int;
      HashIsHash31(p);
      HashStepCongruent(Hash(p), c);
      ModOfCongruent(Hash(s), c + 31 * Hash31(p));
    }
  }

  // -------------------------------------------------------------- carousel

  /** `goToPrevious`; its button exists only when there is more than one image. */
  function Previous(i: nat, n: nat): (r: nat)
    requires 1 < n && i < n
    ensures r < n
    ensures i == 0 ==> r == n - 1
    ensures i > 0 ==> r == i - 1
  {
    if i == 0 then n - 1 else i - 1
  }

  /** `goToNext`; its button exists only when there is more than one image. */
  function Next(i: nat, n: nat): (r: nat)
    requires 1 < n && i < n
    ensures r < n
    ensures i == n - 1 ==> r == 0
    ensures i < n - 1 ==> r == i + 1
  {
    if i == n - 1 then 0 else i + 1
  }

  /** "Previous" undoes "next" and "next" undoes "previous": the carousel is a cycle. */
  lemma PreviousNextInverse(i: nat, n: nat)
    requires 1 < n && i < n
    ensures Previous(Next(i, n), n) == i
    ensures Next(Previous(i, n), n) == i
  {
  }

  /** `k` presses of "next". */
  function NextTimes(i: nat, n: nat, k: nat): (r: nat)
    requires 1 < n && i < n
    ensures r < n
  {
    if k == 0 then i else Next(NextTimes(i, n, k - 1), n)
  }

  /** Division with remainder has one answer. */
  lemma ModUnique(x: int, n: int, q: int, r: int)
    requires 0 < n && x == q * n + r && 0 <= r < n
    ensures x % n == r
  {
    var q2, r2 := x / n, x % n;
    assert (q - q2) * n == r2 - r;
    MultipleBounds(q - q2, n);
  }

  lemma MultipleBounds(d: int, n: int)
    requires 0 < n
    ensures d >= 1 ==> d * n >= n
    ensures d <= -1 ==> d * n <= -n
  {
    if d >= 1 {
      assert d * n == n + (d - 1) * n;
    } else if d <= -1 {
      assert d * n == -n - (-d - 1) * n;
    }
  }

  /** Pressing "next" `k` times moves `k` places round the cycle of images. */
  lemma {:induction false} NextTimesIsRotation(i: nat, n: nat, k: nat)
    requires 1 < n && i < n
    ensures NextTimes(i, n, k) == (i + k) % n
  {
    if k == 0 {
      ModUnique(i, n, 0, i);
    } else {
      var prev := NextTimes(i, n, k - 1);
      NextTimesIsRotation(i, n, k - 1);
      assert NextTimes(i, n, k) == Next(prev, n);
      var x: nat := i + k - 1;
      ModSuccessor(x, n);
      assert x + 1 == i + k;
    }
  }

  /** Adding one to a number moves its remainder one step around the cycle. */
  lemma ModSuccessor(x: nat, n: nat)
    requires 1 < n
    ensures (x + 1) % n == if x % n == n - 1 then 0 else x % n + 1
  {
    var q, j := x / n, x % n;
    assert x == q * n + j;
    if j == n - 1 {
      assert x + 1 == (q + 1) * n + 0;
      ModUnique(x + 1, n, q + 1, 0);
    } else {
      ModUnique(x + 1, n, q, j + 1);
    }
  }

  // --------------------------------------------------------------- filters

  datatype SortBy = SortBy(column: string, ascending: bool)

  /** The filter state: sort order, categories, the seller's gender (`None` is null) and hostels. */
  datatype Filters = Filters(sortBy: SortBy, categories: seq<string>, gender: Option<string>, hostels: seq<string>)

  const NewestFirst: SortBy := SortBy("created_at", false)

  /** `defaultFilters`. */
  const DefaultFilters: Filters := Filters(NewestFirst, [], None, [])

  /** JavaScript truthiness of the gender filter: set and non-empty. */
  predicate GenderSet(gender: Option<string>)
  {
    gender.Some? && gender.value != ""
  }

  const MaleHostelsAsWritten: seq<string> := [
    "Bhaskaracharya Hostel (BCH)", "Sir C. V. Raman Hostel (CVR)", "Sir J.C. Bose Hostel (JCB)",
    "Varahmihir Hostel (VMH)", "Sir M. Visvesvaraya Hostel (SVS)", "Homi Jehangir Bhabha Hostel (HJB)",
    "Aryabhatta Hostel (ABH)", "Ramanujan Hostel (RMJ)", "Dr. APJ Abdul Kalam Hostel (APJ)", "Type-II Hostel"]

  const FemaleHostelsAsWritten: seq<string> := [
    "Sister Nivedita Hostel (SNH)", "Kalpana Chawla Hostel (KCH)", "Virangana Lakshmibai Hostel (VLB)"]

  /** `hostels[gender]` with the page's own lists; the gender radio only offers "male" and "female". */
  function HostelsForAsWritten(gender: string): (r: seq<string>)
    ensures r != [] <==> gender == "male" || gender == "female"
    ensures gender == "male" ==> r == MaleHostelsAsWritten
    ensures gender == "female" ==> r == FemaleHostelsAsWritten
  {
    if gender == "male" then MaleHostelsAsWritten
    else if gender == "female" then FemaleHostelsAsWritten
    else []
  }

  /** Hostels a seller can save on the profile form that the page's own filter lists spell
      differently or leave out. */
  const ProfileHostelsMissingAsWritten: seq<string> := [
    "Sir Vishveshwarya Hostel (VVS)", "Aryabhatt Hostel (ABH)", "Ramanujan Hostel (RMH)",
    "Type II Block 1,2,3,4&5 Hostel (Type-II)."]

  /** As written, four boys' hostels of the profile form are never offered by the filter, so a
      hostel filter picked from the page's options never shows a seller living in one of them. */
  lemma HostelFilterAsWrittenMissesSellers(row: ListingRow, f: Filters, term: string, reported: seq<ListingId>)
    requires GenderSet(f.gender) && f.hostels != []
    requires HostelsOffered(f)
    requires row.seller.Some? && row.seller.value.hostelName in ProfileHostelsMissingAsWritten
    ensures forall h :: h in ProfileHostelsMissingAsWritten ==> h in ProfileHostels.BoysHostels
    ensures !Matches(row, f, term, reported)
  {
    var h := row.seller.value.hostelName;
    assert h !in MaleHostelsAsWritten && h !in FemaleHostelsAsWritten;
    assert h !in f.hostels;
  }

  /** With the profile form's lists, every hostel a seller of either gender can save is an
      option of the filter for that gender, so a filter on it selects the seller's listings. */
  lemma HostelFilterOffersEveryProfileHostel(row: ListingRow, f: Filters, term: string, reported: seq<ListingId>)
    requires row.seller.Some?
    requires var p := row.seller.value;
      (p.gender == "male" && p.hostelName in ProfileHostels.BoysHostels)
      || (p.gender == "female" && p.hostelName in ProfileHostels.GirlsHostels)
    requires f.gender == Some(row.seller.value.gender) && f.hostels == [row.seller.value.hostelName]
    ensures HostelsOfferedCorrected(f)
    ensures Matches(row, f, term, reported) <==>
      Matches(row, f.(gender := None, hostels := []), term, reported)
  {
  }

  /** `availableHostels`: the options of the hostel drop-down, taken from the page's own lists;
      none while no gender is chosen, and none for a gender other than "male" or "female". */
  function AvailableHostels(f: Filters): (r: seq<string>)
    ensures !GenderSet(f.gender) ==> r == []
    ensures f.gender == Some("male") ==> r == MaleHostelsAsWritten
    ensures f.gender == Some("female") ==> r == FemaleHostelsAsWritten
    ensures r != [] <==> f.gender == Some("male") || f.gender == Some("female")
  {
    if GenderSet(f.gender) then HostelsForAsWritten(f.gender.value) else []
  }

  /** The drop-down's options as evidently intended: the profile form's lists, so that every
      hostel a seller can save can be selected. */
  function AvailableHostelsCorrected(f: Filters): (r: seq<string>)
    ensures !GenderSet(f.gender) ==> r == []
    ensures f.gender == Some("male") ==> r == ProfileHostels.BoysHostels
    ensures f.gender == Some("female") ==> r == ProfileHostels.GirlsHostels
  {
    if GenderSet(f.gender) then ProfileHostels.HostelsFor(f.gender.value) else []
  }

  /** `handleSortChange`: the radio value split at the comma into column and direction. */
  function ParseSort(value: string): SortBy
  {
    var parts := Split(value, ',');
    SortBy(parts[0], |parts| > 1 && parts[1] == "asc")
  }

  /** The three sort radios ("created_at,desc", "productPrice,asc", "productPrice,desc")
      are read back as the column they name and the direction they name. */
  lemma ParseSortOfRadioValue(column: string, direction: string)
    requires ',' !in column && ',' !in direction
    ensures ParseSort(column + "," + direction) == SortBy(column, direction == "asc")
  {
    var parts := [column, direction];
    assert Join(parts, ',') == column + "," + direction by {
      assert parts[1..] == [direction];
    }
    SplitJoin(parts, ',');
  }

  /** A radio click on `value`: the selected value is cleared, any other value is selected.
      The clearing branch is the handler's own code, but a click cannot reach it: a radio that
      is already checked fires no change event. */
  function ToggleRadio(prev: Option<string>, value: string): (r: Option<string>)
    ensures r == None <==> prev == Some(value)
    ensures r != None ==> r == Some(value)
    ensures r != prev
  {
    if prev == Some(value) then None else Some(value)
  }

  /** `handleRadioChange` on the gender radio, followed by the effect it always triggers
      (the gender value always changes), which empties the hostel selection. */
  function GenderClick(f: Filters, value: string): (r: Filters)
    ensures r.gender == ToggleRadio(f.gender, value) && r.hostels == []
    ensures r.sortBy == f.sortBy && r.categories == f.categories
  {
    f.(gender := ToggleRadio(f.gender, value), hostels := [])
  }

  /** Opening the popup: the popup's copy of the filters with the hostels emptied by the
      effect that runs when it mounts. */
  function OpenPopup(current: Filters): (r: Filters)
    ensures r.hostels == []
    ensures r.sortBy == current.sortBy && r.categories == current.categories && r.gender == current.gender
  {
    current.(hostels := [])
  }

  function SortChange(f: Filters, value: string): (r: Filters)
    ensures r.sortBy == ParseSort(value)
    ensures r.categories == f.categories && r.gender == f.gender && r.hostels == f.hostels
  {
    f.(sortBy := ParseSort(value))
  }

  /** A checkbox of a multi-select: checking appends the value, unchecking drops every occurrence. */
  function CheckboxChange(values: seq<string>, value: string, checked: bool): (r: seq<string>)
    ensures checked ==> r == values + [value]
    ensures !checked ==> forall y :: y in r <==> y in values && y != value
    ensures !checked ==> multiset(r) == multiset(values)[value := 0]
  {
    if checked then values + [value] else RemoveAll(values, value)
  }

  /** `handleMultiSelectChange(e, 'hostels')`; only the drop-down's options can be clicked. */
  function HostelChange(f: Filters, value: string, checked: bool): (r: Filters)
    requires value in AvailableHostels(f)
    ensures r.hostels == CheckboxChange(f.hostels, value, checked)
    ensures r.sortBy == f.sortBy && r.categories == f.categories && r.gender == f.gender
  {
    f.(hostels := CheckboxChange(f.hostels, value, checked))
  }

  /** `handleCategoryChange`, on the page's filters. */
  function CategoryChange(f: Filters, value: string, checked: bool): (r: Filters)
    ensures r.categories == CheckboxChange(f.categories, value, checked)
    ensures r.sortBy == f.sortBy && r.gender == f.gender && r.hostels == f.hostels
  {
    f.(categories := CheckboxChange(f.categories, value, checked))
  }

  /** `handleApplyFilters`: sort, gender and hostels come from the popup; categories stay. */
  function ApplyFilters(current: Filters, popup: Filters): (r: Filters)
    ensures r.sortBy == popup.sortBy && r.gender == popup.gender && r.hostels == popup.hostels
    ensures r.categories == current.categories
  {
    current.(sortBy := popup.sortBy, gender := popup.gender, hostels := popup.hostels)
  }

  /** `handleClearPopupFilters`: sort, gender and hostels back to their defaults; categories stay. */
  function ClearPopupFilters(current: Filters): (r: Filters)
    ensures r.sortBy == DefaultFilters.sortBy && r.gender == DefaultFilters.gender
    ensures r.hostels == DefaultFilters.hostels
    ensures r.categories == current.categories
  {
    current.(sortBy := NewestFirst, gender := None, hostels := [])
  }

  /** Clearing forgets whatever was applied, and applying the same popup twice is applying it once. */
  lemma ClearAfterApply(current: Filters, popup: Filters)
    ensures ClearPopupFilters(ApplyFilters(current, popup)) == ClearPopupFilters(current)
    ensures ApplyFilters(ApplyFilters(current, popup), popup) == ApplyFilters(current, popup)
  {
  }

  /** Checking and then unchecking a hostel that was not selected leaves the selection as it was. */
  lemma CheckThenUncheck(values: seq<string>, value: string)
    requires value !in values
    ensures CheckboxChange(CheckboxChange(values, value, true), value, false) == values
  {
    assert RemoveAll(values + [value], value) == values by {
      RemoveAllAppend(values, value);
    }
  }

  /** Every selected hostel is one of the options offered for the selected gender. */
  predicate HostelsOffered(f: Filters)
  {
    forall h :: h in f.hostels ==> h in AvailableHostels(f)
  }

  /** The same, with the corrected options. */
  predicate HostelsOfferedCorrected(f: Filters)
  {
    forall h :: h in f.hostels ==> h in AvailableHostelsCorrected(f)
  }

  /** Every handler of the popup and the page keeps the selected hostels among the options
      offered for the selected gender; in particular no hostel is selected without a gender. */
  lemma HandlersKeepHostelsOffered(f: Filters, popup: Filters, value: string, checked: bool)
    requires HostelsOffered(f) && HostelsOffered(popup)
    ensures HostelsOffered(GenderClick(f, value))
    ensures HostelsOffered(OpenPopup(f))
    ensures HostelsOffered(SortChange(f, value))
    ensures HostelsOffered(CategoryChange(f, value, checked))
    ensures value in AvailableHostels(f) ==> HostelsOffered(HostelChange(f, value, checked))
    ensures HostelsOffered(ApplyFilters(f, popup))
    ensures HostelsOffered(ClearPopupFilters(f))
    ensures HostelsOffered(f) && f.hostels != [] ==> GenderSet(f.gender)
  {
    if f.hostels != [] {
      assert f.hostels[0] in f.hostels;
    }
  }

  // ------------------------------------------------------------ the query

  const ItemsPerPage: nat := 9

  /** The ids of the listings `user` has reported, read from the reports table; none when
      nobody is signed in or the reports query failed (the failure is only logged). */
  function ReportedIds(user: Option<UserId>, reports: Result<seq<Report>>): (r: seq<ListingId>)
    ensures forall x :: x in r <==>
      user.Some? && reports.Ok? && exists rep :: rep in reports.value && rep.reporterId == user.value && rep.reportedListingId == x
  {
    if user.None? || reports.Err? then [] else ReportedBy(reports.value, user.value)
  }

  function ReportedBy(reports: seq<Report>, user: UserId): (r: seq<ListingId>)
    ensures forall x :: x in r <==> exists rep :: rep in reports && rep.reporterId == user && rep.reportedListingId == x
  {
    if reports == [] then []
    else
      var rest := ReportedBy(reports[1..], user);
      assert forall rep :: rep in reports <==> rep == reports[0] || rep in reports[1..];
      if reports[0].reporterId == user then [reports[0].reportedListingId] + rest else rest
  }

  /** The `or(... ilike ...)` clause: the term occurs, ignoring case, in the name, the
      category or the short description. */
  predicate SearchMatches(l: Listing, term: string)
  {
    ContainsIgnoringCase(l.productName, term) || ContainsIgnoringCase(l.productCategory, term)
    || ContainsIgnoringCase(l.shortDescription, term)
  }

  /** A row the listing query selects: it has a seller (the inner join), it is available and
      approved, the user has not reported it, and each filter that is set accepts it. */
  predicate Matches(row: ListingRow, f: Filters, term: string, reported: seq<ListingId>)
  {
    && row.seller.Some?
    && row.listing.status == Available
    && row.listing.approvalStatus == Approved
    && row.listing.id !in reported
    && (term != "" ==> SearchMatches(row.listing, term))
    && (f.categories != [] ==> row.listing.productCategory in f.categories)
    && (GenderSet(f.gender) ==> row.seller.value.gender == f.gender.value)
    && (f.hostels != [] ==> row.seller.value.hostelName in f.hostels)
  }

  /** Every row the query can return, in the order of `table` (the backend's sort order). */
  function Query(table: seq<ListingRow>, f: Filters, term: string, reported: seq<ListingId>): (r: seq<ListingRow>)
    ensures forall row :: row in r <==> row in table && Matches(row, f, term, reported)
    ensures Subsequence(r, table)
  {
    FilterIsSubsequence(table, row => Matches(row, f, term, reported));
    Filter(table, row => Matches(row, f, term, reported))
  }

  /** With no filter, no search term and nothing reported, the query is exactly "available,
      approved and has a seller". */
  lemma DefaultQuery(table: seq<ListingRow>, row: ListingRow)
    ensures row in Query(table, DefaultFilters, "", []) <==>
      row in table && row.seller.Some? && row.listing.status == Available && row.listing.approvalStatus == Approved
  {
  }

  function Min(a: int, b: int): int
  {
    if a <= b then a else b
  }

  /** `range(from, to)` with `from = 9 * page` and `to = from + 8`, both inclusive. */
  function Window<T>(rows: seq<T>, page: nat): (r: seq<T>)
    ensures |r| <= ItemsPerPage
    ensures |r| == ItemsPerPage <==> ItemsPerPage * page + ItemsPerPage <= |rows|
    ensures ItemsPerPage * page >= |rows| ==> r == []
    ensures forall k :: 0 <= k < |r| ==> ItemsPerPage * page + k < |rows| && r[k] == rows[ItemsPerPage * page + k]
  {
    var from := Min(ItemsPerPage * page, |rows|);
    var to := Min(ItemsPerPage * page + ItemsPerPage, |rows|);
    rows[from..to]
  }

  // ------------------------------------------------------------ the feed

  /** What the page shows of the feed and the flags the scroll guard reads. */
  datatype Feed = Feed(listings: seq<ListingRow>, loading: bool, loadingMore: bool, hasMore: bool, page: nat,
                       notices: seq<Notice>)

  const InitialFeed: Feed := Feed([], true, false, true, 0, [])

  const LoadFailed: Notice := Notice(Error, "Failed to load listings.")

  /** The synchronous start of `fetchListings(filters, page)`: page 0 empties the list and
      shows the spinner, a later page shows the "loading more" indicator instead. */
  function BeginFetch(st: Feed, page: nat): (r: Feed)
    ensures page == 0 ==> r.loading && r.listings == [] && r.loadingMore == st.loadingMore
    ensures page != 0 ==> r.loadingMore && r.listings == st.listings && r.loading == st.loading
    ensures r.hasMore == st.hasMore && r.page == st.page && r.notices == st.notices
  {
    if page == 0 then st.(loading := true, listings := []) else st.(loadingMore := true)
  }

  /** The end of `fetchListings` once the query has answered: the rows are appended and
      `hasMore` records whether a full page came back; a failure appends nothing, keeps
      `hasMore` and shows a notice; both flags are cleared either way. */
  function EndFetch(st: Feed, reply: Result<seq<ListingRow>>): (r: Feed)
    ensures !r.loading && !r.loadingMore && r.page == st.page
    ensures reply.Ok? ==> r.listings == st.listings + reply.value && r.notices == st.notices
    ensures reply.Ok? ==> (r.hasMore <==> |reply.value| == ItemsPerPage)
    ensures reply.Err? ==> r.listings == st.listings && r.hasMore == st.hasMore
    ensures reply.Err? ==> r.notices == st.notices + [LoadFailed]
  {
    match reply
    case Ok(data) => st.(listings := st.listings + data, hasMore := |data| == ItemsPerPage,
                         loading := false, loadingMore := false)
    case Err(_) => st.(notices := st.notices + [LoadFailed], loading := false, loadingMore := false)
  }

  /** The debounced effect that runs when the filters or the search term change: back to
      page 0 and a fresh first page. */
  function Refresh(st: Feed): (r: Feed)
    ensures r.page == 0 && r.loading && r.listings == []
  {
    BeginFetch(st.(page := 0), 0)
  }

  /** The scroll guard is armed only while nothing loads and more rows may exist. */
  predicate CanAdvance(st: Feed)
  {
    !st.loading && !st.loadingMore && st.hasMore
  }

  /** The last card scrolling into view: the page counter moves by one when the guard is armed. */
  function Scroll(st: Feed): (r: Feed)
    ensures CanAdvance(st) ==> r.page == st.page + 1
    ensures !CanAdvance(st) ==> r.page == st.page
    ensures r.listings == st.listings && r.loading == st.loading && r.loadingMore == st.loadingMore
    ensures r.hasMore == st.hasMore && r.notices == st.notices
  {
    if CanAdvance(st) then st.(page := st.page + 1) else st
  }

  /** Scrolling as the page is written, taking the observer as attached: no effect depends on
      the page counter, so the counter moves and nothing is fetched. (As shipped, the observer
      is never attached, since the card does not forward its ref; then not even the counter
      moves, which this contract also allows.) */
  function ScrollAsWritten(st: Feed): (r: Feed)
    ensures r.page >= st.page && r.listings == st.listings && r.hasMore == st.hasMore
    ensures r.loading == st.loading && r.loadingMore == st.loadingMore && r.notices == st.notices
  {
    Scroll(st)
  }

  function ScrollsAsWritten(st: Feed, n: nat): Feed
    decreases n
  {
    if n == 0 then st else ScrollsAsWritten(ScrollAsWritten(st), n - 1)
  }

  /** Scrolling as intended: when the counter moves, the new page is fetched and answered by
      `reply`. This needs both repairs: the card forwards its ref to its root element, so the
      observer is attached, and the new page is fetched when the counter moves. */
  function ScrollAndFetch(st: Feed, reply: Result<seq<ListingRow>>): (r: Feed)
    ensures !CanAdvance(st) ==> r == st
    ensures CanAdvance(st) ==> r == EndFetch(BeginFetch(Scroll(st), st.page + 1), reply)
  {
    var s1 := Scroll(st);
    if s1.page != st.page then EndFetch(BeginFetch(s1, s1.page), reply) else st
  }

  /** The feed shows exactly the first `page + 1` pages of the query result `q`, and
      `hasMore` says whether the last of them was full. */
  ghost predicate Loaded(st: Feed, q: seq<ListingRow>)
  {
    && st.listings == q[..Min(ItemsPerPage * (st.page + 1), |q|)]
    && (st.hasMore <==> ItemsPerPage * (st.page + 1) <= |q|)
  }

  /** A refresh answered with the first window of the query loads the first page. */
  lemma RefreshLoadsFirstPage(st: Feed, q: seq<ListingRow>)
    ensures Loaded(EndFetch(Refresh(st), Ok(Window(q, 0))), q)
  {
    var r := EndFetch(Refresh(st), Ok(Window(q, 0)));
    assert r.listings == [] + Window(q, 0);
  }

  /** The intended scroll (the card forwarding its ref, and a fetch on each advance), answered
      with the next window of the query, keeps the feed loaded page by page. */
  lemma {:induction false} ScrollAndFetchLoadsNextPage(st: Feed, q: seq<ListingRow>)
    requires Loaded(st, q) && !st.loading && !st.loadingMore
    ensures Loaded(ScrollAndFetch(st, Ok(Window(q, st.page + 1))), q)
  {
    if st.hasMore {
      var p := st.page;
      var w := Window(q, p + 1);
      var n := Min(ItemsPerPage * (p + 2), |q|);
      assert ItemsPerPage * (p + 1) + |w| == n;
      assert q[..ItemsPerPage * (p + 1)] + w == q[..n];
    }
  }

  /** Once the last page has been loaded, the feed shows every row of the query, in order. */
  lemma LoadedLastPageShowsAll(st: Feed, q: seq<ListingRow>)
    requires Loaded(st, q) && !st.hasMore
    ensures st.listings == q
  {
    assert q[..|q|] == q;
  }

  /** Scrolls as written never change what the feed shows. */
  lemma {:induction false} ScrollsAsWrittenKeepListings(st: Feed, n: nat)
    ensures ScrollsAsWritten(st, n).listings == st.listings
    ensures ScrollsAsWritten(st, n).hasMore == st.hasMore
    decreases n
  {
    if n > 0 {
      ScrollsAsWrittenKeepListings(ScrollAsWritten(st), n - 1);
    }
  }

  /** As written, when more than one page of rows matches, the first page is all the feed
      ever shows, however often the last card scrolls into view, while `hasMore` stays set.
      This holds whether or not the observer is attached. */
  lemma ScrollAsWrittenShowsOnlyFirstPage(st: Feed, q: seq<ListingRow>, n: nat)
    requires Loaded(st, q) && st.page == 0 && |q| > ItemsPerPage
    ensures ScrollsAsWritten(st, n).listings == q[..ItemsPerPage]
    ensures ScrollsAsWritten(st, n).listings != q && ScrollsAsWritten(st, n).hasMore
  {
    ScrollsAsWrittenKeepListings(st, n);
    assert |q[..ItemsPerPage]| != |q|;
  }

  /** Whatever the feed has loaded of the query's result satisfies the query: no reported,
      sold, unapproved or seller-less listing is ever shown, and every set filter holds. */
  lemma LoadedRowsMatch(st: Feed, table: seq<ListingRow>, f: Filters, term: string, reported: seq<ListingId>)
    requires Loaded(st, Query(table, f, term, reported))
    ensures forall row :: row in st.listings ==> row in table && Matches(row, f, term, reported)
  {
    var q := Query(table, f, term, reported);
    forall row | row in st.listings ensures row in q {
      var i :| 0 <= i < |st.listings| && st.listings[i] == row;
      assert q[i] == row;
    }
  }

  /** The feed's state fields and the handlers that update them. */
  class MarketplaceFeed {
    var listings: seq<ListingRow>
    var loading: bool
    var loadingMore: bool
    var hasMore: bool
    var page: nat
    var notices: seq<Notice>

    function State(): Feed
      reads this
    {
      Feed(listings, loading, loadingMore, hasMore, page, notices)
    }

    constructor ()
      ensures State() == InitialFeed
    {
      listings, loading, loadingMore, hasMore, page, notices := [], true, false, true, 0, [];
    }

    /** The synchronous part of `fetchListings(filters, currentPage)`. */
    method StartFetch(currentPage: nat)
      modifies this
      ensures State() == BeginFetch(old(State()), currentPage)
    {
      if currentPage == 0 {
        loading := true;
        listings := [];
      } else {
        loadingMore := true;
      }
    }

    /** The rest of `fetchListings`, once the query has answered with `reply`. */
    method FinishFetch(reply: Result<seq<ListingRow>>)
      modifies this
      ensures State() == EndFetch(old(State()), reply)
    {
      match reply {
        case Ok(data) =>
          listings := listings + data;
          hasMore := |data| == ItemsPerPage;
        case Err(_) =>
          notices := notices + [LoadFailed];
      }
      loading := false;
      loadingMore := false;
    }

    /** The debounced effect on a change of filters or search term. */
    method OnFiltersSettled()
      modifies this
      ensures State() == Refresh(old(State()))
    {
      page := 0;
      StartFetch(0);
    }

    /** The observer's callback, as the page is written, run as if the observer were attached:
        when the guard is armed the counter advances, and since no effect depends on the counter
        nothing is requested. As shipped the callback never runs: the ref goes to a card
        component that does not forward it, so no element is observed. */
    method OnLastCardVisible()
      modifies this
      ensures State() == ScrollAsWritten(old(State()))
    {
      if !loading && !loadingMore && hasMore {
        page := page + 1;
      }
    }

    /** The handler as evidently intended, with the card forwarding the ref to its root element
        so that the observer is attached: when the guard is armed the counter advances and the
        new page is requested; `fetched` is the page requested, if any. */
    method OnLastCardVisibleAndFetch() returns (fetched: Option<nat>)
      modifies this
      ensures fetched.Some? <==> CanAdvance(old(State()))
      ensures fetched.Some? ==> fetched.value == old(page) + 1 && State() == BeginFetch(Scroll(old(State())), fetched.value)
      ensures fetched.None? ==> State() == old(State())
    {
      if !loading && !loadingMore && hasMore {
        page := page + 1;
        StartFetch(page);
        fetched := Some(page);
      } else {
        fetched := None;
      }
    }
  }
}
