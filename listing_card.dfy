/** A listing card of the marketplace and the wishlist: whether it is liked, the picture
    it shows, the shareable link, the WhatsApp chat link to the seller and where a click
    on the heart goes. */
module ListingCard {
  import opened Wrappers
  import opened Seqs
  import opened Text
  import opened Records
  import opened Ui
  import UriComponent

  /** `wishlist.includes(product.id)`. */
  function IsLiked(wishlist: seq<ListingId>, id: ListingId): (r: bool)
    ensures r <==> id in wishlist
  {
    Includes(wishlist, id)
  }

  const Placeholder: string := "https://placehold.co/600x400/1e1e1e/a1a1aa?text=No+Image"

  /** The card's picture: the first image URL, or the placeholder when there is none. */
  function CardImage(imageUrls: seq<string>): (r: string)
    ensures imageUrls != [] ==> r == imageUrls[0]
    ensures imageUrls == [] ==> r == Placeholder
    ensures r in imageUrls || r == Placeholder
  {
    if |imageUrls| > 0 then imageUrls[0] else Placeholder
  }

  const LinkPath: string := "/marketplace?listing="

  /** `getListingLink()`: the marketplace URL on the page's origin with the listing's id as
      the `listing` query parameter (a decimal numeral needs no escaping). */
  function ListingLink(origin: string, id: ListingId): (link: string)
    ensures |link| > |origin| + |LinkPath|
    ensures link[..|origin| + |LinkPath|] == origin + LinkPath
    ensures ParseInt(link[|origin| + |LinkPath|..]) == Some(id)
  {
    var link := origin + LinkPath + NatToString(id);
    assert link[|origin| + |LinkPath|..] == NatToString(id) + "";
    ParseIntAfterIntToString(id, "");
    link
  }

  /** The number to chat with: the seller's country code and number run together (a missing
      seller or part counts as empty), with the first '+' removed. */
  function WhatsAppNumber(seller: Option<Profile>): (r: string)
    ensures seller.None? ==> r == ""
    ensures seller.Some? && '+' !in seller.value.countryCode + seller.value.whatsappNumber ==>
      r == seller.value.countryCode + seller.value.whatsappNumber
    ensures seller.Some? && seller.value.countryCode != [] && seller.value.countryCode[0] == '+' ==>
      r == seller.value.countryCode[1..] + seller.value.whatsappNumber
    ensures seller.Some? && '+' in seller.value.countryCode + seller.value.whatsappNumber ==>
      var joined := seller.value.countryCode + seller.value.whatsappNumber;
      r == joined[..IndexOf(joined, '+')] + joined[IndexOf(joined, '+') + 1..]
  {
    match seller
    case None => ""
    case Some(p) =>
      var joined := p.countryCode + p.whatsappNumber;
      assert p.countryCode != [] && p.countryCode[0] == '+' ==> IndexOf(joined, '+') == 0 && joined[1..] == p.countryCode[1..] + p.whatsappNumber;
      RemoveFirst(joined, '+')
  }

  /** The chat message: the product's name and, on a new line, the listing link. */
  function ChatMessage(productName: string, link: string): string
  {
    "Hi, I'm interested in your " + productName + " listed on CollegeKart:\n" + link
  }

  const ChatPrefix: string := "https://wa.me/"
  const TextParam: string := "?text="

  /** The WhatsApp URL for `number` carrying `message`, escaped as a URI component. */
  function ChatUrl(number: string, message: string): (url: string)
    ensures |url| >= |ChatPrefix| + |number| + |TextParam|
    ensures url[..|ChatPrefix| + |number| + |TextParam|] == ChatPrefix + number + TextParam
    ensures var text := url[|ChatPrefix| + |number| + |TextParam|..];
      UriComponent.Decode(text) == Some(message)
      && forall k :: 0 <= k < |text| ==> UriComponent.Unreserved(text[k]) || text[k] == '%'
  {
    var url := ChatPrefix + number + TextParam + UriComponent.Encode(message);
    assert url[|ChatPrefix| + |number| + |TextParam|..] == UriComponent.Encode(message);
    UriComponent.DecodeEncode(message);
    url
  }

  const NoNumber: Notice := Notice(Error, "Seller's WhatsApp number is not available.")

  /** What the WhatsApp button does: open a chat URL, or show a notice. */
  datatype ChatAction = OpenChat(url: string) | Show(notice: Notice)

  /** `handleWhatsApp`: no chat opens when the seller's number is empty. */
  function HandleWhatsApp(origin: string, product: Listing, seller: Option<Profile>): (a: ChatAction)
    ensures a.Show? <==> WhatsAppNumber(seller) == ""
    ensures a.Show? ==> a.notice == NoNumber
    ensures a.OpenChat? ==> a.url == ChatUrl(WhatsAppNumber(seller), ChatMessage(product.productName, ListingLink(origin, product.id)))
  {
    var link := ListingLink(origin, product.id);
    var message := ChatMessage(product.productName, link);
    var number := WhatsAppNumber(seller);
    if number == "" then Show(NoNumber) else OpenChat(ChatUrl(number, message))
  }

  /** The chat that opens carries the listing's link, which names the listing's id. */
  lemma ChatCarriesListing(origin: string, product: Listing, seller: Option<Profile>)
    requires WhatsAppNumber(seller) != ""
    ensures var number := WhatsAppNumber(seller);
      var a := HandleWhatsApp(origin, product, seller);
      a.OpenChat? &&
      UriComponent.Decode(a.url[|ChatPrefix| + |number| + |TextParam|..])
        == Some(ChatMessage(product.productName, ListingLink(origin, product.id)))
  {
  }

  /** Which toggle a click on the heart reaches. */
  datatype Toggle = ParentToggle(id: ListingId) | ContextToggle(id: ListingId)

  /** `handleWishlistClick`: the parent's handler when one is given, else the wishlist store's. */
  function WishlistClick(hasParentToggle: bool, id: ListingId): (t: Toggle)
    ensures t.id == id
    ensures t.ParentToggle? <==> hasParentToggle
  {
    if hasParentToggle then ParentToggle(id) else ContextToggle(id)
  }
}
