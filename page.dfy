/** A parsed page as the extractors see it: every node has its text, its
    attributes and, for each selector the extractors use, the nodes that
    selector finds under it, in document order. */
module Page {
  import opened Values
  import opened Text

  /** The CSS selectors (and tag names) the two extractors query. */
  datatype Selector =
    | Canonical
    | Img
    | H2
    | Th
    | Td
    | VintedItem
    | VintedId
    | VintedTitle
    | VintedPrice
    | VintedLink
    | VintedImage
    | VintedSubtitle
    | VintedProtection
    | VintedName
    | VintedContainer
    | VintedStatus
    | VintedDetailPrice
    | VintedDetailProtection
    | VintedBreadcrumb
    | VintedPhotos
    | VintedBrand
    | VintedSize
    | VintedCondition
    | VintedColor
    | VintedViews
    | VintedInterested
    | VintedPayment
    | VintedUpload
    | VintedDelivery
    | VintedDescription
    | VintedOwner
    | VintedOwnerLink
    | AmazonItem
    | AmazonDelivery
    | AmazonLink
    | AmazonImage
    | AmazonPrice
    | AmazonRating
    | AmazonBadge
    | AmazonOutOfStock
    | AmazonOffers
    | AmazonAsinInput
    | AmazonDetailPrice
    | AmazonBreadcrumb
    | AmazonTitle
    | AmazonMainImages
    | AmazonAltImages
    | AmazonFeatureTable
    | AmazonDetailsTable
    | AmazonColors
    | AmazonDescription

  /** The selector text each one stands for. */
  function Css(s: Selector): string
  {
    match s
    case Canonical => "link[rel=\"canonical\"]"
    case Img => "img"
    case H2 => "h2"
    case Th => "th"
    case Td => "td"
    case VintedItem => "div.feed-grid__item-content"
    case VintedId => "[data-testid*=\"product-item-id\"]"
    case VintedTitle => ".new-item-box__description p.web_ui__Text__text"
    case VintedPrice => "p[data-testid*=\"--price-text\"]"
    case VintedLink => "a.new-item-box__overlay"
    case VintedImage => "img.web_ui__Image__content"
    case VintedSubtitle => "p[data-testid*=\"description-subtitle\"]"
    case VintedProtection => "button[aria-label*=\"Protection\"]>span>span"
    case VintedName => "aside div[data-testid=\"item-page-summary-plugin\"] div span"
    case VintedContainer => "aside div.details-list.details-list--details"
    case VintedStatus => "div[data-testid=\"item-status--content\"]"
    case VintedDetailPrice => "aside div[data-testid=\"item-price\"]"
    case VintedDetailProtection => "aside button[aria-label*=\"Protection\"] > div"
    case VintedBreadcrumb => "ul.breadcrumbs.breadcrumbs--truncated a"
    case VintedPhotos => "section.item-photos__container"
    case VintedBrand => "span[itemprop=\"name\"]"
    case VintedSize => "div[itemprop=\"size\"]"
    case VintedCondition => "div[itemprop=\"status\"]"
    case VintedColor => "div[itemprop=\"color\"]"
    case VintedViews => "div[itemprop=\"view_count\"]"
    case VintedInterested => "div[itemprop=\"interested\"]"
    case VintedPayment => "div[itemprop=\"payment_methods\"] span"
    case VintedUpload => "div[data-testid=\"item-attributes-upload_date\"] [itemprop=\"upload_date\"]"
    case VintedDelivery => "aside [data-testid=\"item-shipping-banner-price\"]"
    case VintedDescription => "aside div[itemprop=\"description\"]"
    case VintedOwner => "aside [data-testid=\"profile-username\"]"
    case VintedOwnerLink => "aside a.web_ui__Cell__cell.web_ui__Cell__default.web_ui__Cell__navigating.web_ui__Cell__with-chevron.web_ui__Cell__link"
    case AmazonItem => "div[data-component-type=\"s-search-result\"]"
    case AmazonDelivery => "div[data-cy=\"delivery-recipe\"]"
    case AmazonLink => "a.a-link-normal"
    case AmazonImage => "img.s-image"
    case AmazonPrice => "span.a-offscreen"
    case AmazonRating => "span.a-icon-alt"
    case AmazonBadge => "span.a-badge-text"
    case AmazonOutOfStock => ".s-item__out-of-stock"
    case AmazonOffers => "#all-offers-display-params"
    case AmazonAsinInput => "input[name=\"ASIN\"]"
    case AmazonDetailPrice => "div[id*=\"corePrice\"] .a-offscreen, div[id*=\"corePrice\"] .aok-offscreen"
    case AmazonBreadcrumb => "#wayfinding-breadcrumbs_feature_div a"
    case AmazonTitle => "#productTitle"
    case AmazonMainImages => "#main-image-container img"
    case AmazonAltImages => "#altImages img"
    case AmazonFeatureTable => "#productDetails_feature_div table"
    case AmazonDetailsTable => "#prodDetails table"
    case AmazonColors => "#variation_color_name ul img"
    case AmazonDescription => "#productDescription p"
  }

  datatype Node = Node(text: string, attrs: map<string, string>, found: map<Selector, seq<Node>>)

  /** `node.select(sel)` (also `find_all`, `find`): every match, in page order. */
  function Select(n: Node, sel: Selector): seq<Node>
  {
    if sel in n.found then n.found[sel] else []
  }

  /** `node.select_one(sel)`: the first match, if any. */
  function SelectOne(n: Node, sel: Selector): (r: Option<Node>)
    ensures r.None? <==> Select(n, sel) == []
    ensures r.Some? ==> r.value == Select(n, sel)[0]
  {
    var all := Select(n, sel);
    if all == [] then None else Some(all[0])
  }

  /** `node.get(a)`: the attribute's value, `None` when absent. */
  function Attr(n: Node, a: string): (r: Option<string>)
    ensures r.Some? <==> a in n.attrs
  {
    if a in n.attrs then Some(n.attrs[a]) else None
  }

  /** `node.get(a, d)`. */
  function AttrOr(n: Node, a: string, d: string): (r: string)
    ensures a in n.attrs ==> r == n.attrs[a]
    ensures a !in n.attrs ==> r == d
  {
    if a in n.attrs then n.attrs[a] else d
  }

  /** The stripped text of the first match, or `None`. */
  function TextOf(n: Node, sel: Selector): Option<string>
  {
    match SelectOne(n, sel)
    case None => None
    case Some(m) => Some(Strip(m.text))
  }

  /** The stripped text of every node, in order. */
  function Texts(nodes: seq<Node>): (r: seq<string>)
    ensures |r| == |nodes| && forall k :: 0 <= k < |nodes| ==> r[k] == Strip(nodes[k].text)
  {
    seq(|nodes|, k requires 0 <= k < |nodes| => Strip(nodes[k].text))
  }

  /** What fetching a page gives: the empty string (the driver failed or
      timed out), a page, or content the parser rejects with a message. */
  datatype Fetch = NoContent | Loaded(page: Node) | Unparsable(message: string)
}
