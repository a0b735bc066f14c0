# CollegeKart client core, modelled in Dafny

CollegeKart is a campus marketplace. Students list second-hand items, which a moderator
approves before they show on the marketplace. Buyers browse, search and filter the listings,
keep a wishlist, and contact sellers on WhatsApp. Moderators act on reports, and can ban a
seller until a given moment. This project models the logic of the web client's pages, its
two context providers and the image-upload server function. Everything is stated over
values, except where the source updates state in place.

- **Records** (`records.dfy`): profiles, listings, images and reports, plus a `Database`
  class holding the three tables that the pages change through the backend. Every backend
  reply is a parameter: a `Result`, or a flag saying whether the call fails.
- **Marketplace** (`marketplace.dfy`):
  - the seller avatar, including the 32-bit wrap-around hash behind its colour;
  - the image carousel;
  - the filter popup and its handlers;
  - the listing query, with reports, search, categories, gender and hostels;
  - the nine-row pages and the infinite-scroll feed, modelled both as a value (`Feed`) and as
    a class (`MarketplaceFeed`).
- **Wishlist**:
  - `wishlist_store.dfy`: the list of ids, persisted as JSON in browser storage;
  - `wishlist_page.dfy`: the page listing the wishlisted items.
- **Listing cards**:
  - `listing_card.dfy`: the link to a listing, and the WhatsApp chat URL escaped with
    `encodeURIComponent` (a full encoder and decoder live in `uri_component.dfy`);
  - `my_listing_card.dfy`: a seller's own card, with its status badges and buttons.
- **Creating a listing** (`create_listing.dfy`):
  - the profile-completeness gate and the draft record;
  - the three-image cap;
  - the ordered insert-then-upload submission;
  - the branch abbreviation.
- **A seller's listings** (`my_listings.dfy`): the pending, active and archived groups, and
  the fetch, delete and mark-as-sold handlers.
- **Moderation**:
  - `admin_page.dfy`: the admin page;
  - `admin_report_card.dfy`: the report card;
  - `ban_user_popup.dfy`: the ban-duration popup;
  - `auth_page.dfy`: the sign-in check that enforces a ban.
- **Profile**:
  - `profile_page.dfy`: the profile form;
  - `profile_context.dfy`: the profile store fed by authentication events;
  - `profile_hostels.dfy`: the hostel lists.
- **Image upload** (`image_upload.dfy`): the server function that stores one image under
  "user/listing/uuid-name" and records its public address and position.
- **Filter dropdown** (`multi_select_dropdown.dfy`): the multi-select dropdown used by the
  filters.

Shared modules:

- `wrappers.dfy`: `Option` and `Result`.
- `seqs.dfy`: filtering and removal on sequences.
- `text.dfy`: ASCII case mapping, substring search, decimal rendering of integers, JavaScript `parseInt`,
  `split` and `join`.
- `json_ids.dfy`: the JSON array of ids.
- `ui.dfy`: the notices (toasts) a handler shows, recorded as a kind and a message.

## Model

| member | source | states |
|---|---|---|
| Marketplace.Initials | NEW/src/pages/Marketplace.jsx:12-16 | one character per non-empty name: the upper-cased first letter of the first name, then that of the last name |
| Marketplace.ToInt32 | NEW/src/pages/Marketplace.jsx:25 | the 32-bit conversion gives a value in [-2^31, 2^31) congruent to its input modulo 2^32 |
| Marketplace.ColorIndex | NEW/src/pages/Marketplace.jsx:26 | the colour index is below 16, so a palette entry always exists |
| Marketplace.RandomColor | NEW/src/pages/Marketplace.jsx:23-28 | the character-by-character loop returns the palette entry at the hash's index |
| Marketplace.HashIsHash31 | NEW/src/pages/Marketplace.jsx:25 | the shift-and-subtract loop computes the standard "31·h + c" string hash modulo 2^32 |
| Marketplace.Hash31 | NEW/src/pages/Marketplace.jsx:25 | the reference hash lies in [0, 2^32) |
| Marketplace.Previous | NEW/src/pages/Marketplace.jsx:44 | "previous" stays within the images and wraps from the first image to the last |
| Marketplace.Next | NEW/src/pages/Marketplace.jsx:45 | "next" stays within the images and wraps from the last image to the first |
| Marketplace.PreviousNextInverse | NEW/src/pages/Marketplace.jsx:44-45 | "previous" undoes "next" and "next" undoes "previous" |
| Marketplace.NextTimes | NEW/src/pages/Marketplace.jsx:45 | k presses of "next" stay within the images |
| Marketplace.NextTimesIsRotation | NEW/src/pages/Marketplace.jsx:45-89 | k presses of "next" move to index (i + k) mod n |
| Marketplace.HostelFilterAsWrittenMissesSellers | NEW/src/pages/Marketplace.jsx:36-39 | as written, a hostel filter chosen from the page's own lists never matches a seller whose saved hostel is one of four boys' hostels of the profile form |
| Marketplace.HostelFilterOffersEveryProfileHostel | NEW/src/pages/Marketplace.jsx:163-300 | with the corrected options (the profile form's lists), a seller's own gender and hostel form a valid selection, and filtering on them keeps the seller's listings |
| Marketplace.AvailableHostels | NEW/src/pages/Marketplace.jsx:163 | the drop-down offers the page's boys' list for "male", its girls' list for "female", and nothing while no gender is chosen |
| Marketplace.AvailableHostelsCorrected | NEW/src/pages/Profile.jsx:8-11 | the corrected drop-down offers the profile form's boys' list for "male" and girls' list for "female", nothing without a gender |
| Marketplace.ParseSortOfRadioValue | NEW/src/pages/Marketplace.jsx:138-141 | each sort radio value splits back into its column and direction |
| Marketplace.ToggleRadio | NEW/src/pages/Marketplace.jsx:143-146 | clicking the selected radio clears it; clicking another selects it |
| Marketplace.GenderClick | NEW/src/pages/Marketplace.jsx:134-146 | a gender click toggles the gender and empties the hostels, leaving sort and categories alone |
| Marketplace.OpenPopup | NEW/src/pages/Marketplace.jsx:132-136 | the popup starts from the applied filters with the hostels emptied |
| Marketplace.SortChange | NEW/src/pages/Marketplace.jsx:138-141 | a sort change sets only the sort |
| Marketplace.CheckboxChange | NEW/src/pages/Marketplace.jsx:148-156 | checking appends the value; unchecking removes every occurrence and keeps the other values |
| Marketplace.HostelChange | NEW/src/pages/Marketplace.jsx:148-156 | a hostel checkbox changes only the hostels |
| Marketplace.CategoryChange | NEW/src/pages/Marketplace.jsx:346-354 | a category checkbox changes only the categories |
| Marketplace.ApplyFilters | NEW/src/pages/Marketplace.jsx:326-334 | applying takes sort, gender and hostels from the popup and keeps the page's categories |
| Marketplace.ClearPopupFilters | NEW/src/pages/Marketplace.jsx:213-344 | clearing restores the default sort, gender and hostels and keeps the categories |
| Marketplace.ClearAfterApply | NEW/src/pages/Marketplace.jsx:326-344 | clearing forgets what was applied, and applying is idempotent |
| Marketplace.CheckThenUncheck | NEW/src/pages/Marketplace.jsx:148-156 | checking then unchecking an unselected value restores the selection |
| Marketplace.HandlersKeepHostelsOffered | NEW/src/pages/Marketplace.jsx:134-163 | every filter handler keeps the selected hostels among the page's own options for the selected gender, so no hostel is selected without a gender |
| Marketplace.ReportedIds | NEW/src/pages/Marketplace.jsx:266-275 | a signed-out user or a failed reports query excludes nothing; otherwise the ids the user reported are excluded |
| Marketplace.ReportedBy | NEW/src/pages/Marketplace.jsx:269-274 | an id is listed exactly when the user reported that listing |
| Marketplace.Query | NEW/src/pages/Marketplace.jsx:277-300 | a row is returned iff it has a seller, is available and approved, is not reported, and passes the search, category, gender and hostel filters; the result keeps the table's order |
| Marketplace.DefaultQuery | NEW/src/pages/Marketplace.jsx:213-283 | with default filters, no term and no reports, the query returns exactly the available, approved rows that have a seller |
| Marketplace.Window | NEW/src/pages/Marketplace.jsx:220-283 | a page holds at most 9 rows, rows 9p to 9p+8 of the result, and is full iff that many rows exist |
| Marketplace.BeginFetch | NEW/src/pages/Marketplace.jsx:255-260 | fetching page 0 empties the list and sets loading; a later page sets loadingMore and keeps the list |
| Marketplace.EndFetch | NEW/src/pages/Marketplace.jsx:302-314 | a reply appends its rows, and more exist iff exactly 9 came back; a failure adds the error notice; both loading flags end |
| Marketplace.Refresh | NEW/src/pages/Marketplace.jsx:317-324 | a filter or search change goes back to page 0, loading, with the list emptied |
| Marketplace.Scroll | NEW/src/pages/Marketplace.jsx:243-252 | the page counter advances by one exactly when nothing is loading and more rows may exist |
| Marketplace.ScrollAsWritten | NEW/src/pages/Marketplace.jsx:243-324 | as written, a scroll may only move the counter forward; the shown listings and the more-rows flag stay |
| Marketplace.ScrollsAsWrittenKeepListings | NEW/src/pages/Marketplace.jsx:243-324 | any number of scrolls as written leaves the shown listings as they were |
| Marketplace.ScrollAsWrittenShowsOnlyFirstPage | NEW/src/pages/Marketplace.jsx:243-324 | as written, after loading page 0 of a result longer than 9 rows, scrolling never shows more than the first 9 rows |
| Marketplace.ScrollAndFetch | NEW/src/pages/Marketplace.jsx:243-263 | the intended scroll fetches exactly the new page when the counter moves; this repair also needs the listing card to forward the ref to its root element |
| Marketplace.RefreshLoadsFirstPage | NEW/src/pages/Marketplace.jsx:317-324 | a refresh answered by the query loads exactly the first page of the result |
| Marketplace.ScrollAndFetchLoadsNextPage | NEW/src/pages/Marketplace.jsx:243-306 | the intended scroll keeps the feed equal to the first pages of the result, one page more each time (with the card forwarding the ref and a fetch on each advance) |
| Marketplace.LoadedLastPageShowsAll | NEW/src/pages/Marketplace.jsx:305-306 | once a short page has arrived, the feed shows the whole result in order |
| Marketplace.LoadedRowsMatch | NEW/src/pages/Marketplace.jsx:277-306 | every row the feed shows satisfies the query's filters |
| Marketplace.MarketplaceFeed.StartFetch | NEW/src/pages/Marketplace.jsx:254-260 | the page state after the synchronous start of a fetch is that of the value model |
| Marketplace.MarketplaceFeed.FinishFetch | NEW/src/pages/Marketplace.jsx:302-314 | the page state after a reply is that of the value model |
| Marketplace.MarketplaceFeed.OnFiltersSettled | NEW/src/pages/Marketplace.jsx:317-324 | the page state after the debounced refresh starts is that of the value model |
| Marketplace.MarketplaceFeed.OnLastCardVisible | NEW/src/pages/Marketplace.jsx:243-252 | as written, when the guard is armed only the page counter advances; no fetch starts and the shown listings stay |
| Marketplace.MarketplaceFeed.OnLastCardVisibleAndFetch | NEW/src/pages/Marketplace.jsx:243-252 | the handler as evidently intended, with the listing card forwarding the ref to its root element: when the guard is armed the counter advances and the fetch of the new page starts; otherwise nothing changes |
| ProfileHostels.HostelsFor | NEW/src/pages/Profile.jsx:8-48 | "male" gets the boys' list, "female" the girls' list, anything else no hostels |
| WishlistStore.LoadWishlist | NEW/src/context/ProductContext.jsx:19-27 | the initial wishlist is the stored JSON array; it is empty when nothing is stored, the text is empty or the text does not parse |
| WishlistStore.LoadAfterPersist | NEW/src/context/ProductContext.jsx:19-33 | what the persistence effect writes reloads as the same list |
| WishlistStore.Toggle | NEW/src/context/ProductContext.jsx:39-50 | after a toggle the id is present iff it was absent; other ids keep their membership; an absent id is appended |
| WishlistStore.ToggleNotice | NEW/src/context/ProductContext.jsx:43-46 | removal shows the info notice and addition the success notice |
| WishlistStore.ToggleTwice | NEW/src/context/ProductContext.jsx:39-50 | toggling twice restores membership, and restores the very list when the id was absent |
| WishlistStore.ToggleKeepsNoDuplicates | NEW/src/context/ProductContext.jsx:39-50 | toggling never creates a repeated id |
| WishlistStore.Store.constructor | NEW/src/context/ProductContext.jsx:19-33 | mounting loads the list and immediately persists it |
| WishlistStore.Store.ToggleWishlist | NEW/src/context/ProductContext.jsx:31-50 | the list is toggled, the notice recorded, and the store re-persisted |
| WishlistStore.PersistedReloads | NEW/src/context/ProductContext.jsx:19-33 | a persisted store reloads to the list in memory |
| WishlistPage.WishlistQuery | NEW/src/pages/Wishlist.jsx:85-88 | exactly the rows whose id is wishlisted, in table order |
| WishlistPage.WithoutProduct | NEW/src/pages/Wishlist.jsx:105-107 | the removed id is gone and every other row stays |
| WishlistPage.RemoveKeepsShownWishlisted | NEW/src/pages/Wishlist.jsx:103-110 | after a removal every shown row is still wishlisted and the removed listing is neither shown nor wishlisted |
| WishlistPage.FetchedAreWishlisted | NEW/src/pages/Wishlist.jsx:85-91 | a fetch shows only wishlisted rows |
| WishlistPage.Page.FetchWishlistedItems | NEW/src/pages/Wishlist.jsx:76-101 | an empty wishlist shows nothing without a query; otherwise the reply replaces the rows, or a failure adds the notice and keeps them |
| WishlistPage.Page.RemoveFromWishlist | NEW/src/pages/Wishlist.jsx:103-110 | the row disappears and the store toggles the id once |
| WishlistPage.Page.ReportSubmit | NEW/src/pages/Wishlist.jsx:122-126 | the report popup closes and the thank-you notice shows |
| ListingCard.IsLiked | NEW/src/components/listings/ListingCard.jsx:13 | the heart is filled iff the id is wishlisted |
| ListingCard.CardImage | NEW/src/components/listings/ListingCard.jsx:16-18 | the first image, or the placeholder when there is none |
| ListingCard.ListingLink | NEW/src/components/listings/ListingCard.jsx:20-25 | the link is the origin's marketplace path followed by a parameter that parses back to the listing's id |
| ListingCard.WhatsAppNumber | NEW/src/components/listings/ListingCard.jsx:35 | the country code and number run together, with the first '+' removed wherever it occurs (the country code's leading '+' in the usual case); no seller gives "" |
| ListingCard.ChatUrl | NEW/src/components/listings/ListingCard.jsx:41 | the URL is the wa.me prefix and number, followed by a text parameter that consists only of unreserved characters and escapes and decodes back to the message |
| ListingCard.HandleWhatsApp | NEW/src/components/listings/ListingCard.jsx:29-43 | an empty number shows the error notice; otherwise the chat opens with the listing message |
| ListingCard.ChatCarriesListing | NEW/src/components/listings/ListingCard.jsx:29-43 | the chat's decoded text contains the link that names the listing's id |
| ListingCard.WishlistClick | NEW/src/components/listings/ListingCard.jsx:59-66 | the parent's toggle is used iff one is given, always with the card's id |
| UriComponent.Encode | NEW/src/components/listings/ListingCard.jsx:41 | every character of the encoding is unreserved or part of a %XX escape |
| UriComponent.DecodeEncode | NEW/src/components/listings/ListingCard.jsx:41 | decoding the encoding of any text gives the text back |
| JsonIds.EncodeIds | NEW/src/context/ProductContext.jsx:32 | the stored text is "[]" for no ids, otherwise brackets around text that splits at its commas into exactly the decimal numerals of the ids, in order |
| JsonIds.ParseEncodeIds | NEW/src/context/ProductContext.jsx:22-32 | parsing the stored JSON gives the same id list |
| Text.ParseIntAfterIntToString | NEW/supabase/functions/listing-image-upload/index.ts:70 | parseInt reads back any integer written out in decimal followed by a non-digit |
| CreateListing.ProfileGate | NEW/src/pages/CreateListing.jsx:34-55 | an incomplete profile gives the error notice and the redirect to "/"; a complete one gives nothing |
| CreateListing.ProfileGatePasses | NEW/src/pages/CreateListing.jsx:34-48 | a profile passes iff it exists, has every required field, and names a hostel when the seller is a hosteller |
| CreateListing.ProductAge | NEW/src/pages/CreateListing.jsx:97 | the age text starts with the years and ends with the months followed by " month(s)" |
| CreateListing.ProductAgeYears | NEW/src/pages/CreateListing.jsx:97 | parseInt of the age text gives the years back |
| CreateListing.Draft | NEW/src/pages/CreateListing.jsx:93-102 | the draft carries the form's fields, the age text, the seller and the status "available" |
| CreateListing.CapImages | NEW/src/pages/CreateListing.jsx:70 | at most three files are kept: a prefix of the pick, the whole pick when it fits |
| CreateListing.UploadRequests | NEW/src/pages/CreateListing.jsx:115-121 | one request per file, in order, carrying that file |
| CreateListing.UploadRequestsParse | NEW/src/pages/CreateListing.jsx:120-121 | each request's listing id and position parse back to the listing's id and the file's index |
| CreateListing.BuildUploads | NEW/src/pages/CreateListing.jsx:115-121 | the loop builds exactly the request list |
| CreateListing.FirstFailure | NEW/src/pages/CreateListing.jsx:123-126 | the reported failure is the lowest-index failing upload from the start index on, if any |
| CreateListing.Invocations | NEW/src/pages/CreateListing.jsx:122 | one upload call per request, the call at index i for the request at index i (the model lists them by index; in the source they run concurrently) |
| CreateListing.SubmitOutcomeCases | NEW/src/pages/CreateListing.jsx:78-138 | no image: a notice and no call; no user or a failed insert: an error and no upload; otherwise the insert then one upload per image, then success and navigation, or the first failure's message; busy ends in every case |
| CreateListing.SubmitInsertsThenUploads | NEW/src/pages/CreateListing.jsx:104-128 | a successful submit inserts the listing first and then makes one upload call per file, the file at index i with position i |
| CreateListing.UploadFailureKeepsListing | NEW/src/pages/CreateListing.jsx:104-133 | a failed upload leaves the inserted listing in place and shows an error instead of navigating |
| CreateListing.Page.ImageChange | NEW/src/pages/CreateListing.jsx:69-76 | the capped pick replaces the previous one |
| CreateListing.Page.UploadImages | NEW/src/pages/CreateListing.jsx:112-133 | once the listing exists: the label names the image count, one upload call per file is recorded, the file at index i with position i, and the page shows success and navigates to "/my-listings" or shows the first failure's message and stays |
| CreateListing.Page.Submit | NEW/src/pages/CreateListing.jsx:78-138 | the recorded calls, notices, navigation and labels are those of the outcome function |
| CreateListing.GroupAtStart | NEW/src/pages/CreateListing.jsx:145 | a group at the start is a non-empty, ')'-free text between parentheses |
| CreateListing.GroupAtStartOf | NEW/src/pages/CreateListing.jsx:145 | "(g)..." with a non-empty, ')'-free g yields the group g |
| CreateListing.NoGroupWithoutParenthesis | NEW/src/pages/CreateListing.jsx:145 | text without '(' has no group, so the whole branch is used |
| CreateListing.LastGroupAfterPrefix | NEW/src/pages/CreateListing.jsx:145 | a final group stays the last group whatever precedes it |
| CreateListing.FirstGroupAfterPrefix | NEW/src/pages/CreateListing.jsx:145 | text free of '(' before a group keeps it the first group |
| CreateListing.BranchAbbreviationOfCode | NEW/src/pages/CreateListing.jsx:145 | the corrected abbreviation of "name (CODE)" is CODE |
| CreateListing.LastGroupOfCode | NEW/src/pages/CreateListing.jsx:145 | the last group of " (CODE)" is CODE |
| CreateListing.BranchAbbreviationAsWrittenTakesFirstGroup | NEW/src/pages/CreateListing.jsx:145 | as written, a name holding its own parenthesised part is abbreviated to that part, not to the code |
| CreateListing.DataScienceAbbreviation | NEW/src/pages/CreateListing.jsx:145 | the data-science branch is abbreviated to "Data Science & Analytics" as written and to "CSDA" when corrected |
| CreateListing.AbbreviationsAgreeOnPlainNames | NEW/src/pages/CreateListing.jsx:145 | for a name without parentheses, both readings give the code |
| MyListings.SellerListings | NEW/src/pages/MyListings.jsx:63-67 | exactly the seller's own listings, in table order |
| MyListings.IsPending | NEW/src/pages/MyListings.jsx:117 | pending means approval is pending |
| MyListings.IsActive | NEW/src/pages/MyListings.jsx:118 | active means approved and available |
| MyListings.IsArchived | NEW/src/pages/MyListings.jsx:119 | archived means sold or rejected |
| MyListings.PendingGroup | NEW/src/pages/MyListings.jsx:117 | exactly the pending listings, in order |
| MyListings.ActiveGroup | NEW/src/pages/MyListings.jsx:118 | exactly the approved, available listings, in order |
| MyListings.ArchivedGroup | NEW/src/pages/MyListings.jsx:119 | exactly the sold or rejected listings, in order |
| MyListings.GroupsCoverAndOverlap | NEW/src/pages/MyListings.jsx:117-119 | a listing with known statuses is in at least one group, in two exactly when it is pending and sold, and never in three |
| MyListings.Page.Fetch | NEW/src/pages/MyListings.jsx:55-77 | no user or a failed query adds the notice and keeps the rows; otherwise the seller's listings replace them |
| MyListings.Page.Delete | NEW/src/pages/MyListings.jsx:83-93 | nothing without confirmation; otherwise the row is deleted, the notice shows and the listings are re-fetched, or an error shows |
| MyListings.Page.MarkAsSold | NEW/src/pages/MyListings.jsx:95-107 | the status becomes sold, the notice shows and the listings are re-fetched, or an error shows |
| MyListings.MarkAsSoldMovesToArchive | NEW/src/pages/MyListings.jsx:95-119 | after marking sold and re-fetching, the listing is no longer active and shows among the archived |
| MyListingCard.StatusBadge | NEW/src/components/listings/MyListingCard.jsx:7-18 | pending wins, then sold, then rejected; no badge otherwise (each as an iff) |
| MyListingCard.BadgeMatchesGroups | NEW/src/components/listings/MyListingCard.jsx:7-60 | the pending badge marks the pending group, a sellable card has no badge, and archived cards wear their state |
| MyListingCard.CardImage | NEW/src/components/listings/MyListingCard.jsx:21 | the first URL when non-empty, else the placeholder |
| MyListingCard.Click | NEW/src/components/listings/MyListingCard.jsx:25-79 | Sold and Delete run only their own action; View Details and the card body open the details |
| BanUserPopup.TotalSecondsMeaning | NEW/src/components/common/BanUserPopup.jsx:20-24 | the total is a whole number of minutes and, with no negative field, positive iff some field is |
| BanUserPopup.NegativeFieldsCount | NEW/src/components/common/BanUserPopup.jsx:20-29 | for all inputs, the total is the sum of each field's share, and a negative field makes the total smaller than with that field at 0; e.g. a week less a day is six days and a day less 24 hours is 0 |
| BanUserPopup.InputValue | NEW/src/components/common/BanUserPopup.jsx:49-82 | a field takes the number its text starts with, and 0 otherwise |
| BanUserPopup.InputValueOfNumber | NEW/src/components/common/BanUserPopup.jsx:49-82 | a typed number is read back as itself |
| BanUserPopup.Popup.SetWeeks | NEW/src/components/common/BanUserPopup.jsx:49 | only the weeks field changes |
| BanUserPopup.Popup.SetDays | NEW/src/components/common/BanUserPopup.jsx:60 | only the days field changes |
| BanUserPopup.Popup.SetHours | NEW/src/components/common/BanUserPopup.jsx:71 | only the hours field changes |
| BanUserPopup.Popup.SetMinutes | NEW/src/components/common/BanUserPopup.jsx:82 | only the minutes field changes |
| BanUserPopup.Popup.Confirm | NEW/src/components/common/BanUserPopup.jsx:19-32 | a ban is passed on iff the total is positive, and with that total; otherwise the alert shows |
| AuthPage.OnAuthStateChange | NEW/src/pages/AuthPage.jsx:68-89 | only a SIGNED_IN event with a session acts; an active ban alerts and signs out; otherwise the user is sent to "/" |
| AuthPage.SignInAdmitted | NEW/src/pages/AuthPage.jsx:76-87 | the user is let in iff no ban is recorded or it ends at or before now |
| AdminReportCard.Seller | NEW/src/components/admin/AdminReportCard.jsx:45-47 | "N/A" lines without a seller; otherwise the first name, a space and the last name; the branch, ", " and the year; and the hostel for a hosteller, "Day Scholar" for anyone else |
| AdminReportCard.Image | NEW/src/components/admin/AdminReportCard.jsx:23-25 | the first image row's URL, or the placeholder |
| AdminReportCard.Card | NEW/src/components/admin/AdminReportCard.jsx:10-68 | a report without a listing gets the orphan card with only "Clear Report"; others get the full card with the seller lines, the first image, the report's category as reason and its description, or the placeholder when that is empty |
| AdminReportCard.Press | NEW/src/components/admin/AdminReportCard.jsx:16-68 | only "Details" opens the details; the other buttons open the moderation popup |
| AdminReportCard.EveryCardReachesAction | NEW/src/components/admin/AdminReportCard.jsx:16-66 | every card has a button that opens the moderation popup |
| AdminPage.NewReports | NEW/src/pages/AdminPage.jsx:83-87 | exactly the reports whose status is "new", in order |
| AdminPage.PendingListings | NEW/src/pages/AdminPage.jsx:92-96 | exactly the listings whose approval is pending, in order |
| AdminPage.DecidedLeavesPending | NEW/src/pages/AdminPage.jsx:113-140 | an approved or rejected listing is off the pending list and carries the decision |
| AdminPage.IgnoredLeavesNew | NEW/src/pages/AdminPage.jsx:188-199 | an ignored report is off the new reports |
| AdminPage.BanUntil | NEW/src/pages/AdminPage.jsx:172 | the ban ends seconds·1000 ms after now, and later than now iff the duration is positive |
| AdminPage.BanHoldsUntilItEnds | NEW/src/pages/AdminPage.jsx:172 | a ban of positive length refuses sign-in at every moment before its end and at its start |
| AdminPage.ConfirmBan | NEW/src/pages/AdminPage.jsx:166-186 | no seller gives the error and keeps the popup; with a seller the popup always closes with a notice; the profile is updated iff the date is valid and the update succeeds |
| AdminPage.ConfirmBanAsWrittenStaysOpen | NEW/src/pages/AdminPage.jsx:172-185 | as written, a fifteen-million-week ban neither bans, nor notifies, nor closes the popup; the corrected handler closes it with "Invalid time value" |
| AdminPage.SelectedSeller | NEW/src/pages/AdminPage.jsx:153-167 | a seller exists iff the report, its listing and the listing's profile all exist, and it is that listing's profile |
| AdminPage.Page.FetchAdminData | NEW/src/pages/AdminPage.jsx:79-105 | a reports failure shows the error and skips the pending query; otherwise both lists are replaced, or the error shows |
| AdminPage.Page.Approve | NEW/src/pages/AdminPage.jsx:113-125 | success approves the listing, notifies and re-fetches; failure only notifies |
| AdminPage.Page.Reject | NEW/src/pages/AdminPage.jsx:127-140 | nothing without confirmation; otherwise the listing is rejected, or the error shows |
| AdminPage.Page.HandleAction | NEW/src/pages/AdminPage.jsx:147-150 | the report is selected and the moderation popup opens |
| AdminPage.Page.OpenBanPopup | NEW/src/pages/AdminPage.jsx:152-159 | the ban popup opens only with a seller; otherwise the error shows and nothing else changes |
| AdminPage.Page.CloseBanPopup | NEW/src/pages/AdminPage.jsx:161-164 | the popup closes and the selection is dropped |
| AdminPage.Page.ConfirmBanFor | NEW/src/pages/AdminPage.jsx:166-186 | the profile, notices and popup follow the corrected ban decision |
| AdminPage.Page.IgnoreReport | NEW/src/pages/AdminPage.jsx:188-199 | with a selected report, its status becomes "ignored" and the popup closes, or the error shows |
| AdminPage.Page.DeleteListing | NEW/src/pages/AdminPage.jsx:201-213 | the listing's reports are deleted (unchecked), then the listing; its failure keeps the listing and shows the error |
| AdminPage.DeleteLeavesNothingBehind | NEW/src/pages/AdminPage.jsx:204-205 | after the deletes neither the listing nor a report about it remains, and other reports stay |
| ProfileContext.AfterAuthEvent | NEW/src/context/ProfileContext.jsx:20-42 | no session clears the profile; a row is kept; no row or a throw clears it; another error keeps the old profile |
| ProfileContext.Merge | NEW/src/context/ProfileContext.jsx:73 | the saved fields override, and the id, photo, ban and role of the previous profile are kept |
| ProfileContext.MergeIdempotent | NEW/src/context/ProfileContext.jsx:73 | saving the same data twice equals saving it once |
| ProfileContext.Store.OnAuthStateChange | NEW/src/context/ProfileContext.jsx:18-54 | the session is set, the profile follows the event, and loading ends for good |
| ProfileContext.Store.UpdateProfile | NEW/src/context/ProfileContext.jsx:57-79 | no session: the error and no change; failure: the error and no change; success: the merged profile and the success notice |
| ProfilePage.PhotoPreview | NEW/src/pages/Profile.jsx:23 | the preview is the saved photo address when there is one |
| ProfilePage.InitialFormData | NEW/src/pages/Profile.jsx:17-24 | the saved values with "" defaults, false for an absent hosteller flag (a saved false is kept), and "+91" when there is no profile or its country code is empty |
| ProfilePage.SaveThenReload | NEW/src/pages/Profile.jsx:17-73 | filling the form from the profile a save produces gives the saved form back |
| ProfilePage.HandleChange | NEW/src/pages/Profile.jsx:54-61 | the hosteller radio is true iff "yes"; a text field takes the value and every other field is unchanged |
| ProfilePage.Page.OnProfile | NEW/src/pages/Profile.jsx:34-43 | after loading, a profile fills the form and leaves editing; no profile starts editing |
| ProfilePage.Page.OnGender | NEW/src/pages/Profile.jsx:45-52 | the offered hostels follow the gender; while editing, a gender other than the saved one clears the hostel |
| ProfilePage.Page.Change | NEW/src/pages/Profile.jsx:54-61 | the form follows the change handler |
| ProfilePage.Page.Edit | NEW/src/pages/Profile.jsx:76-79 | editing starts and the form is untouched |
| ProfilePage.Page.Submit | NEW/src/pages/Profile.jsx:66-73 | the form without its preview goes to the profile store's update, and editing ends |
| ImageUpload.FilePath | NEW/supabase/functions/listing-image-upload/index.ts:56 | the path is "user/listing/" followed by "uuid-fileName", with nothing else |
| ImageUpload.ImageUrl | NEW/supabase/functions/listing-image-upload/index.ts:62-63 | the address is the public base, "/", and the path |
| ImageUpload.FilePathSegments | NEW/supabase/functions/listing-image-upload/index.ts:56 | the first two path segments are the user and listing ids |
| ImageUpload.PathsNamespaced | NEW/supabase/functions/listing-image-upload/index.ts:56 | equal paths imply the same user and listing |
| ImageUpload.ClientRequestsAccepted | NEW/supabase/functions/listing-image-upload/index.ts:43-70 | every request the listing form builds passes the field check and records the file's index as its position |
| ImageUpload.Backend.Handle | NEW/supabase/functions/listing-image-upload/index.ts:23-87 | OPTIONS, then 401, then 400, then the store and insert with 200 or 500; nothing is written before the checks pass, and a failed insert leaves the stored object |
| MultiSelectDropdown.SelectionText | NEW/src/components/common/MultiSelectDropdown.jsx:19 | "All <title>" with nothing chosen, otherwise "<title> (" … ")" |
| MultiSelectDropdown.SelectionTextCount | NEW/src/components/common/MultiSelectDropdown.jsx:19 | the count in the label parses back to the number of chosen options |
| MultiSelectDropdown.Checkboxes | NEW/src/components/common/MultiSelectDropdown.jsx:35-43 | an option is ticked iff it is chosen |
| MultiSelectDropdown.Dropdown.Click | NEW/src/components/common/MultiSelectDropdown.jsx:25 | a disabled dropdown never changes; an enabled one flips |
| MultiSelectDropdown.Dropdown.MouseDown | NEW/src/components/common/MultiSelectDropdown.jsx:9-17 | a press outside closes the panel; one inside changes nothing |
| Records.Database.SetApproval | NEW/src/pages/AdminPage.jsx:115-118 | only the matching listing's approval changes |
| Records.Database.SetStatus | NEW/src/pages/MyListings.jsx:97-100 | only the matching listing's status changes |
| Records.Database.DeleteListing | NEW/src/pages/MyListings.jsx:86 | the matching listing is removed |
| Records.Database.DeleteReportsFor | NEW/src/pages/AdminPage.jsx:204 | the listing's reports are removed |
| Records.Database.SetReportStatus | NEW/src/pages/AdminPage.jsx:191 | only the matching report's status changes |
| Records.Database.SetBannedUntil | NEW/src/pages/AdminPage.jsx:174-177 | only the matching profile's ban end changes |

## Left out

- Rendering, routing, `alert`, `confirm` and `window.open` are left out. Their outcomes are
  inputs, such as `confirmed`, or recorded effects, such as `Navigate`, `OpenChat` or a
  notice.
- Marketplace.MarketplaceFeed.OnLastCardVisible: the observer's callback is modelled as if the
  ref were attached. As shipped, `ListingCard` does not forward the ref, so the callback never
  runs and the counter never moves; the shown listings are the same either way.
- ListingCard.ChatMessage: a listing without a product name is held as `""`, so the message
  reads "your  listed"; the source's template string would print "null" there.
- The notice kind is recorded as each handler passes it, even where the notice context
  ignores it.
- Backend calls are parameters: a `Result`, or a flag saying whether the call fails. The
  client library, PostgREST syntax and the backend's `ORDER BY` are not modelled. The table
  given to a query is taken to be in the backend's sort order already.
- Search uses ASCII case-insensitive substring matching. The `%` and `_` wildcards of
  `ilike`, non-ASCII case mapping, and PostgREST metacharacters in the term are not modelled.
- Debounce timers, the `IntersectionObserver`'s lifetime and races between overlapping
  fetches are not modelled. Each fetch is a start step and an end step, and the effects run
  in the order the page gives them.
- The wishlist fetch is not awaited by anything, so a stale reply may overwrite a newer one.
  The model applies replies in order.
- `Promise.all` runs the uploads concurrently. The model reports the lowest-index failure;
  the real reported failure is whichever rejects first.
- Image compression, object-URL previews and their revocation, uuid generation, file bytes
  and content types, and the S3 client are left out. The uuid is a parameter, and the store
  is a set of paths.
- `req.formData()` failing, non-`File` image fields, and a missing environment variable are
  left out.
- CreateListing.Page.Submit: a failed insert throws the error object the client returned.
  That object is most likely not an `Error` instance, so the page most likely shows the
  generic "An unknown error occurred." instead of the error's text. The model shows the
  insert error's message. Upload failures are real `Error`s, and their message is shown as
  modelled.
- The form's `handleChange` in the create-listing page sets a field by name; the model takes
  the filled form as a parameter.
- ProfilePage.HandleChange: a change event for a name that is not a form field would add an
  extra key to the saved object. The model ignores it.
- ProfileContext.Merge: with no previous profile, the object the source builds has only the
  saved fields. The model fills the rest with empty values.
- Dates are integers of milliseconds since the epoch. `toISOString` and `toLocaleString`
  formatting are not modelled; only the valid range of ±8.64e15 ms is.
- Marketplace.Hash: numbers stay exact integers. `charCodeAt` is taken to be the character's
  code, so astral characters count as one unit instead of two.
- Marketplace.Initials: upper-casing maps ASCII letters only. JavaScript's `toUpperCase`
  also maps other letters, such as "é" to "É", and maps some to more than one character,
  such as "ß" to "SS". The one-character-per-name contract does not hold for those. The
  source's `firstName?.[0]` reads one UTF-16 code unit; the model reads one whole character.
- Text.ParseInt: only ASCII whitespace is skipped before the number. JavaScript's `parseInt`
  also skips U+00A0, U+FEFF, U+2028, U+2029 and the other Unicode space separators.
- JsonIds.ParseIds accepts only arrays of non-negative integer numerals. Any other JSON
  value is treated as unparseable.
- The `listing_images` rows are taken in the order the backend returns them. Foreign-key
  cascades on delete are not modelled.

## Findings

| source | as written | input that shows it | evidently intended | confidence | as-written member | corrected member |
|---|---|---|---|---|---|---|
| NEW/src/pages/Marketplace.jsx:243-252, 317-324 | the last card's ref goes to `ListingCard` (ListingCard.jsx:10), which does not forward it, so the observer is never attached and `page` never advances; even if it were attached, no effect reads `page`, so page 1 onwards is never fetched | a query with 10 matching rows: 9 show, and scrolling to the last card never shows the tenth | the card forwards the ref to its root element, and each advance of the counter fetches and appends the next page | not executed | Marketplace.ScrollAsWrittenShowsOnlyFirstPage | Marketplace.ScrollAndFetchLoadsNextPage |
| NEW/src/pages/Marketplace.jsx:36-39 | the filter's boys' hostel names differ from those the profile form saves (Profile.jsx:8-11) | a seller whose profile hostel is "Aryabhatt Hostel (ABH)"; the filter offers only "Aryabhatta Hostel (ABH)" | the filter offers the names a seller can save | not executed | Marketplace.HostelFilterAsWrittenMissesSellers | Marketplace.HostelFilterOffersEveryProfileHostel |
| NEW/src/pages/CreateListing.jsx:145 | the first parenthesised group is taken as the branch abbreviation | branch "Computer Science & Engineering (Data Science & Analytics) (CSDA)" gives "Data Science & Analytics" | the code in the final parentheses, "CSDA" | not executed | CreateListing.BranchAbbreviationAsWrittenTakesFirstGroup | CreateListing.BranchAbbreviationOfCode |
| NEW/src/pages/AdminPage.jsx:172 | the end of the ban is formatted before the `try`, so an out-of-range date throws past the `finally` | a ban of 15000000 weeks: no update, no notice, and the popup stays open | the error is reported and the popup closes | not executed | AdminPage.ConfirmBanAsWrittenStaysOpen | AdminPage.ConfirmBan |
