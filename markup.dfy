/** The parsed page as the scraper sees it. HTML parsing and CSS selector matching belong to
    a library and are not modelled: a node carries, as data, what each selector matches
    below it, and the client is handed the parser and `urljoin` as functions. */
module Markup {
  import opened Base
  import opened Text

  /** A text node of a product container, with the value of the `data-a-strike` attribute of
      its grandparent element (`raw_price.parent.parent.attrs.get('data-a-strike')`). */
  datatype TextNode = TextNode(text: string, grandparentStrike: Option<string>)

  /** The CSS selectors the client uses, one per distinct selector text (`Css` gives the
      text); layouts and extractors that share a text share the selector. */
  datatype Sel =
    | MobileProduct | MobileTitle | MobileRating | MobileReviewNb
    | GridProduct | GridTitle | GridRating | GridReviewNb
    | DesktopProduct | DesktopTitle | DesktopRating | DesktopReviewNb | DesktopUrl | DesktopImg | DesktopNext
    | Desktop2Product | Desktop2Title | Desktop2Rating | Desktop2ReviewNb | Desktop2Url | Desktop2Next
    | AHref | ImgSrc | PaginationNext | H5Span | SgRowTitle | RowReviewNb

  /** The text of each selector. */
  function Css(s: Sel): string
  {
    match s
    case MobileProduct => "#resultItems > li"
    case MobileTitle => "a > div > div.sx-table-detail > h5 > span"
    case MobileRating => "a > div > div.sx-table-detail > div.a-icon-row.a-size-small > i > span"
    case MobileReviewNb => "a > div > div.sx-table-detail > div.a-icon-row.a-size-small > span"
    case GridProduct => "#grid-atf-content > li > div.s-item-container"
    case GridTitle => "a > div > h5.sx-title > span"
    case GridRating => "a > div > div.a-icon-row.a-size-mini > i > span"
    case GridReviewNb => "a > div > div.a-icon-row.a-size-mini > span"
    case DesktopProduct => "ul > li.s-result-item > div.s-item-container"
    case DesktopTitle => "a.s-access-detail-page > h2"
    case DesktopRating => "i.a-icon-star > span"
    case DesktopReviewNb => "div.a-column.a-span5.a-span-last > div.a-row.a-spacing-mini > a.a-size-small.a-link-normal.a-text-normal"
    case DesktopUrl => "div.a-row.a-spacing-small > div.a-row.a-spacing-none > a[href]"
    case DesktopImg => "div.a-column.a-span12.a-text-center > a.a-link-normal.a-text-normal > img[src]"
    case DesktopNext => "a#pagnNextLink"
    case Desktop2Product => "div.s-result-list.sg-row > div.s-result-item"
    case Desktop2Title => "div div.sg-row  h5 > span"
    case Desktop2Rating => "div div.sg-row .a-spacing-top-mini i span"
    case Desktop2ReviewNb => "div div.sg-row .a-spacing-top-mini span.a-size-small"
    case Desktop2Url => "div div a.a-link-normal"
    case Desktop2Next => "li.a-last > a[href]"
    case AHref => "a[href]"
    case ImgSrc => "img[src]"
    case PaginationNext => "ul.a-pagination > li.a-last > a[href]"
    case H5Span => "h5 span"
    case SgRowTitle => "div div.sg-row h5 > span"
    case RowReviewNb => "div.a-row.a-size-small span.a-size-base"
  }

  /** An element (or the whole parsed document). `text` is its `.text`, `attrs` its
      attributes, `markup` its serialisation `str(element)`, `strings` its text nodes in
      document order, and `select` the selector oracle: `element.select(Css(s))` is
      `select[s]`, in document order, and a selector absent from the map matches nothing. */
  datatype Node = Node(
    text: string,
    attrs: map<string, string>,
    markup: string,
    strings: seq<TextNode>,
    select: map<Sel, seq<Node>>)

  /** urljoin(base, url) for a non-empty `url`: library URL resolution, given as a function. */
  type Resolver = (string, string) -> string

  /** `soup.select(css)`. */
  function Select(n: Node, css: Sel): (r: seq<Node>)
    ensures r == [] <==> css !in n.select || n.select[css] == []
  {
    if css in n.select then n.select[css] else []
  }

  /** `element.get(name)`. */
  function Attr(n: Node, name: string): (r: Option<string>)
    ensures r.Some? <==> name in n.attrs
  {
    if name in n.attrs then Some(n.attrs[name]) else None
  }

  /** `urljoin(base, url)` where `url` may be `None` or empty: then urljoin returns `base`
      itself; otherwise the resolution is the library's. */
  function UrlJoin(join: Resolver, base: string, url: Option<string>): (r: string)
    ensures (url == None || url == Some("")) ==> r == base
  {
    match url
    case Some(u) => if u == "" then base else join(base, u)
    case None => base
  }

  /** `_css_select(soup, selector)`: `None` when nothing matches, otherwise the text of the
      first match with surrounding whitespace removed. */
  function CssSelect(n: Node, css: Sel): (r: Option<string>)
    ensures r.None? <==> Select(n, css) == []
    ensures r.Some? ==> r.value == [] || (!IsSpace(r.value[0]) && !IsSpace(r.value[|r.value| - 1]))
    ensures r.Some? ==> Strip(Select(n, css)[0].text) == r.value
  {
    var selection := Select(n, css);
    if selection != [] then Some(Strip(selection[0].text)) else None
  }

  /** A truthy selection in Python: present and not the empty string. */
  predicate Truthy(r: Option<string>)
  {
    r.Some? && r.value != ""
  }

  // ---------------------------------------------------------------------------------------
  // The layouts of `CSS_SELECTORS`, in the order the client tries them
  // ---------------------------------------------------------------------------------------

  datatype Layout = Layout(
    name: string,
    product: Sel,
    title: Sel,
    rating: Sel,
    reviewNb: Sel,
    url: Sel,
    img: Sel,
    nextPageUrl: Sel)

  const Mobile: Layout :=
    Layout("mobile", MobileProduct, MobileTitle, MobileRating, MobileReviewNb, AHref, ImgSrc, PaginationNext)

  const MobileGrid: Layout :=
    Layout("mobile_grid", GridProduct, GridTitle, GridRating, GridReviewNb, AHref, ImgSrc, PaginationNext)

  const Desktop: Layout :=
    Layout("desktop", DesktopProduct, DesktopTitle, DesktopRating, DesktopReviewNb, DesktopUrl, DesktopImg, DesktopNext)

  const Desktop2: Layout :=
    Layout("desktop_2", Desktop2Product, Desktop2Title, Desktop2Rating, Desktop2ReviewNb, Desktop2Url, ImgSrc, Desktop2Next)

  const Layouts: seq<Layout> := [Mobile, MobileGrid, Desktop, Desktop2]

  /** The first layout at or after `i` whose product selector matches anything. */
  function ChosenLayoutFrom(soup: Node, i: nat): (r: Option<nat>)
    requires i <= |Layouts|
    ensures r.Some? ==> i <= r.value < |Layouts| && Select(soup, Layouts[r.value].product) != []
    ensures r.Some? ==> forall j :: i <= j < r.value ==> Select(soup, Layouts[j].product) == []
    ensures r.None? <==> forall j :: i <= j < |Layouts| ==> Select(soup, Layouts[j].product) == []
    decreases |Layouts| - i
  {
    if i == |Layouts| then None
    else if Select(soup, Layouts[i].product) != [] then Some(i)
    else ChosenLayoutFrom(soup, i + 1)
  }

  /** The layout `_extract_page` settles on: the first, in `CSS_SELECTORS` order, whose
      product selector matches anything; none when no layout matches. */
  function ChosenLayout(soup: Node): (r: Option<nat>)
    ensures r.Some? ==> r.value < |Layouts| && Select(soup, Layouts[r.value].product) != []
    ensures r.Some? ==> forall j :: 0 <= j < r.value ==> Select(soup, Layouts[j].product) == []
    ensures r.None? <==> forall j :: 0 <= j < |Layouts| ==> Select(soup, Layouts[j].product) == []
  {
    ChosenLayoutFrom(soup, 0)
  }

  /** The containers `_extract_page` walks: the selection of the chosen layout, and the empty
      selection of the last layout tried when none matches. */
  function Containers(soup: Node): (r: seq<Node>)
    ensures r == [] <==> ChosenLayout(soup).None?
    ensures ChosenLayout(soup).Some? ==> r == Select(soup, Layouts[ChosenLayout(soup).value].product)
  {
    match ChosenLayout(soup)
    case Some(j) => Select(soup, Layouts[j].product)
    case None => Select(soup, Layouts[|Layouts| - 1].product)
  }

  /** `_get_next_page_url`: always the `mobile` layout's next-page selector, whichever layout
      matched the products; the first match's `href` resolved against `base`, or `None`. */
  function NextPageUrl(soup: Node, base: string, join: Resolver): (r: Option<string>)
    ensures r.None? <==> Select(soup, Mobile.nextPageUrl) == []
    ensures r.Some? ==> r.value == UrlJoin(join, base, Attr(Select(soup, Mobile.nextPageUrl)[0], "href"))
  {
    var links := Select(soup, Layouts[0].nextPageUrl);
    if links != [] then Some(UrlJoin(join, base, Attr(links[0], "href"))) else None
  }
}
