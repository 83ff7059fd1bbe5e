/** The second-hand marketplace adapter: the listing-card and item-page
    extractors, and its search and detail steps. */
module Vinted {
  import opened Values
  import opened Text
  import opened Page
  import opened Products
  import opened Store
  import opened Database
  import opened Upsert
  import Adapter

  const BaseUrl := "https://www.vinted.fr"

  /** The stripped text with no-break spaces turned into plain spaces. */
  function PriceText(n: Node, sel: Selector): Option<string>
  {
    match SelectOne(n, sel)
    case None => None
    case Some(m) => Some(ReplaceChar(Strip(m.text), '\U{A0}', ' '))
  }

  /** The card id: the text after the last `-` in the part of the
      `data-testid` value before the first `--`. */
  function CardId(testid: string): (id: string)
    ensures '-' !in id
  {
    LastSegment(FirstSegment(testid, "--"), '-')
  }

  /* ---------------- listing card (`parse_item`) ---------------- */

  /** The record a listing card yields, or the exception it raises: an id
      node without `data-testid`, or a price without the protection price
      (the protection text is guarded by the price node, not by its own). */
  function CardRecord(item: Node): (r: Result<Product>)
    ensures r.Err? <==> (SelectOne(item, VintedId).Some? && Attr(SelectOne(item, VintedId).value, "data-testid").None?)
                        || (SelectOne(item, VintedPrice).Some? && SelectOne(item, VintedProtection).None?)
  {
    var idNode := SelectOne(item, VintedId);
    if idNode.Some? && Attr(idNode.value, "data-testid").None? then Err("no data-testid")
    else if SelectOne(item, VintedPrice).Some? && SelectOne(item, VintedProtection).None? then Err("no protection price")
    else Ok(CardProduct(item))
  }

  /** The fields a listing card fills in once no extraction step raised;
      the protection price is read only when the card has a price. */
  function CardProduct(item: Node): (p: Product)
    requires SelectOne(item, VintedId).Some? ==> Attr(SelectOne(item, VintedId).value, "data-testid").Some?
    ensures p.source == "vinted"
    ensures p.productId.Some? <==> SelectOne(item, VintedId).Some?
    ensures p.productId.Some? ==>
              p.productId.value == CardId(SelectOne(item, VintedId).value.attrs["data-testid"])
    ensures p.name == TextOf(item, VintedTitle) && p.price == TextOf(item, VintedPrice)
    ensures p.url.Some? ==> p.url.value != ""
    ensures p.priceWithProtection == (if SelectOne(item, VintedPrice).Some? then TextOf(item, VintedProtection) else None)
    ensures p.description == TextOf(item, VintedSubtitle)
  {
    var idNode := SelectOne(item, VintedId);
    var link := SelectOne(item, VintedLink);
    var image := SelectOne(item, VintedImage);
    Fresh("vinted").(
      productId := if idNode.Some? then Some(CardId(idNode.value.attrs["data-testid"])) else None,
      name := TextOf(item, VintedTitle),
      price := TextOf(item, VintedPrice),
      url := if link.Some? && Attr(link.value, "href").Some? && link.value.attrs["href"] != ""
             then Some(link.value.attrs["href"]) else None,
      mainPhoto := if image.Some? then Attr(image.value, "src") else None,
      description := TextOf(item, VintedSubtitle),
      priceWithProtection := if SelectOne(item, VintedPrice).Some? then TextOf(item, VintedProtection) else None)
  }

  /** `parse_item`: the record's dictionary when it passes the gate;
      `None` when it does not or when extraction raised. */
  function ParseItem(item: Node): (r: Option<Document>)
    ensures r.Some? ==> CardRecord(item).Ok? && IsValid(CardRecord(item).value)
                        && r.value == ToDict(CardRecord(item).value)
    ensures r.None? ==> CardRecord(item).Err? || !IsValid(CardRecord(item).value)
  {
    match CardRecord(item)
    case Err(_) => None
    case Ok(p) => if IsValid(p) then Some(ToDict(p)) else None
  }

  /** A kept card has a source of "vinted", an id, a title, a price, a
      non-empty link, and the protection node the guard demands. */
  lemma CardKept(item: Node)
    requires ParseItem(item).Some?
    ensures SelectOne(item, VintedId).Some? && SelectOne(item, VintedTitle).Some?
            && SelectOne(item, VintedPrice).Some? && SelectOne(item, VintedProtection).Some?
    ensures var d := ParseItem(item).value;
      && d[Of(Source)] == Str("vinted")
      && d[Of(Url)].Str? && d[Of(Url)].s != ""
      && d[Of(PriceWithProtection)] == Str(Strip(SelectOne(item, VintedProtection).value.text))
  {
    var r := CardRecord(item);
    assert r.Ok?;
    var p := r.value;
    assert p == CardProduct(item);
    assert IsValid(p);
    CardValues(p, ParseItem(item).value);
  }

  /** The values a valid record puts in its dictionary. */
  lemma CardValues(p: Product, d: Document)
    requires d == ToDict(p)
    ensures d[Of(Source)] == Str(p.source)
    ensures d[Of(Url)] == OptStr(p.url)
    ensures d[Of(PriceWithProtection)] == OptStr(p.priceWithProtection)
  {
    TextFieldValues(p);
    assert d[Of(Url)] == FieldValue(p, Url);
    assert d[Of(Source)] == FieldValue(p, Source);
    assert d[Of(PriceWithProtection)] == FieldValue(p, PriceWithProtection);
  }

  /** A kept card carries its id as text. */
  lemma ParsedIdIsText(item: Node)
    requires ParseItem(item).Some?
    ensures Of(ProductId) in ParseItem(item).value && ParseItem(item).value[Of(ProductId)].Str?
  {
    TextFieldValues(CardRecord(item).value);
  }

  /** The protection-price guard: a card with a price node and no
      protection node raises, so it is dropped whatever else it holds. */
  lemma CardWithoutProtectionDropped(item: Node)
    requires SelectOne(item, VintedPrice).Some? && SelectOne(item, VintedProtection).None?
    ensures ParseItem(item).None?
  {
  }

  /** A card without a price gets no protection price, whatever protection
      node it holds, and fails the gate. */
  lemma CardProtectionNeedsPrice(item: Node)
    requires SelectOne(item, VintedPrice).None? && CardRecord(item).Ok?
    ensures CardRecord(item).value.priceWithProtection.None?
    ensures !IsValid(CardRecord(item).value)
  {
  }

  /** The id of a kept card is a `-`-free tail of the `data-testid` prefix
      that ends before the first `--`. */
  lemma CardIdShape(item: Node)
    requires ParseItem(item).Some?
    ensures var testid := SelectOne(item, VintedId).value.attrs["data-testid"];
            var pre := FirstSegment(testid, "--");
            var id := ParseItem(item).value[Of(ProductId)].s;
      && StartsWith(testid, pre) && '-' !in id
      && |id| <= |pre| && id == pre[|pre| - |id|..]
      && (|id| < |pre| ==> pre[|pre| - |id| - 1] == '-')
      && (|pre| < |testid| ==> OccursAt(testid, |pre|, "--"))
  {
  }

  /* ---------------- item page (`parse_detail`) ---------------- */

  /** The `int()` conversions the item page needs; `None` for absent
      nodes, an error for text that is not an integer. */
  function CountOf(container: Node, sel: Selector, firstWord: bool): Result<Option<int>>
  {
    match SelectOne(container, sel)
    case None => Ok(None)
    case Some(n) =>
      var t := Strip(n.text);
      match PyInt(if firstWord then FirstSegment(t, " ") else t)
      case None => Err("invalid literal for int()")
      case Some(v) => Ok(Some(v))
  }

  /** The owner link, with the site prefix when it is non-empty. */
  function OwnerUrl(page: Node): Option<string>
  {
    match SelectOne(page, VintedOwnerLink)
    case None => None
    case Some(l) =>
      match Attr(l, "href")
      case None => None
      case Some(h) => if h != "" then Some(BaseUrl + h) else Some(h)
  }

  /** The record an item page yields, `None` when the page has no details
      container or extraction raised (a canonical link without `href`, a
      view or interest count that is not an integer). */
  function DetailRecord(page: Node, today: string): Option<Product>
  {
    var canonical := SelectOne(page, Canonical);
    if canonical.Some? && "href" !in canonical.value.attrs then None
    else match SelectOne(page, VintedContainer)
    case None => None
    case Some(c) =>
      var views := CountOf(c, VintedViews, false);
      var interested := CountOf(c, VintedInterested, true);
      if views.Err? || interested.Err? then None
      else
        var cats := Select(page, VintedBreadcrumb);
        var photos := SelectOne(page, VintedPhotos);
        var upload := SelectOne(c, VintedUpload);
        var href := if canonical.Some? then Some(canonical.value.attrs["href"]) else None;
        Some(Fresh("vinted").(
          url := href,
          productId := if href.Some? then Some(LastSegment(href.value, '/')) else None,
          name := TextOf(page, VintedName),
          stock := Some(SelectOne(c, VintedStatus).None?),
          price := PriceText(page, VintedDetailPrice),
          priceWithProtection := PriceText(page, VintedDetailProtection),
          categories := if cats != [] then Some(Texts(cats)[1..]) else None,
          detailedPhotos := if photos.Some? then Some(Sources(Select(photos.value, Img))) else None,
          brand := TextOf(c, VintedBrand),
          sizes := OptStr(TextOf(c, VintedSize)),
          condition := TextOf(c, VintedCondition),
          colors := OptStr(TextOf(c, VintedColor)),
          views := views.value,
          interested := interested.value,
          paymentMethods := TextOf(c, VintedPayment),
          uploaded := if upload.Some? then Map(map["scraped" := Str(today), "time" := Str(Strip(upload.value.text))])
                      else Null,
          deliveryPrice := PriceText(page, VintedDelivery),
          description := match SelectOne(page, VintedDescription)
                         case None => None
                         case Some(n) => Some(RemoveChar(Strip(n.text), '\n')),
          ownerName := Some(match TextOf(page, VintedOwner) case None => "" case Some(s) => s),
          ownerProfileUrl := OwnerUrl(page)))
  }

  /** The `src` of every image, `None` where it has none. */
  function Sources(imgs: seq<Node>): (r: seq<Option<string>>)
    ensures |r| == |imgs| && forall k :: 0 <= k < |imgs| ==> r[k] == Attr(imgs[k], "src")
  {
    seq(|imgs|, k requires 0 <= k < |imgs| => Attr(imgs[k], "src"))
  }

  /** `parse_detail`: a one-element list holding the record's dictionary
      when it passes the gate, and the empty list otherwise. */
  function ParseDetail(page: Node, today: string): (r: seq<Document>)
    ensures |r| <= 1
    ensures |r| == 1 <==> DetailRecord(page, today).Some? && IsValid(DetailRecord(page, today).value)
    ensures |r| == 1 ==> r[0] == ToDict(DetailRecord(page, today).value)
  {
    match DetailRecord(page, today)
    case None => []
    case Some(p) => if IsValid(p) then [ToDict(p)] else []
  }

  /** The item page yields nothing exactly when the details container is
      missing, the canonical link has no `href`, a count is not an integer,
      or the record fails the gate. */
  lemma DetailEmptyCases(page: Node, today: string)
    ensures ParseDetail(page, today) == [] <==>
      || SelectOne(page, VintedContainer).None?
      || (SelectOne(page, Canonical).Some? && "href" !in SelectOne(page, Canonical).value.attrs)
      || CountOf(SelectOne(page, VintedContainer).value, VintedViews, false).Err?
      || CountOf(SelectOne(page, VintedContainer).value, VintedInterested, true).Err?
      || !IsValid(DetailRecord(page, today).value)
  {
  }

  /** The field rules of a kept item page: the id is the last `/`-segment
      of the canonical link, the breadcrumbs lose their first entry, the
      item is in stock iff there is no status node, and prices carry no
      no-break space. */
  lemma DetailFields(page: Node, today: string)
    requires ParseDetail(page, today) != []
    ensures var p := DetailRecord(page, today).value;
            var href := SelectOne(page, Canonical).value.attrs["href"];
            var c := SelectOne(page, VintedContainer).value;
      && p.url == Some(href)
      && p.productId == Some(LastSegment(href, '/')) && '/' !in p.productId.value
      && (Select(page, VintedBreadcrumb) == [] ==> p.categories.None?)
      && (Select(page, VintedBreadcrumb) != [] ==>
            p.categories.Some? && |p.categories.value| == |Select(page, VintedBreadcrumb)| - 1
            && forall k :: 0 <= k < |p.categories.value| ==>
                 p.categories.value[k] == Strip(Select(page, VintedBreadcrumb)[k + 1].text))
      && p.stock == Some(SelectOne(c, VintedStatus).None?)
      && '\U{A0}' !in p.price.value
  {
    var p := DetailRecord(page, today).value;
    ReplaceCharRemoves(Strip(SelectOne(page, VintedDetailPrice).value.text), '\U{A0}', ' ');
  }

  /** The interest count reads only the first space-separated word. */
  lemma InterestedFirstWord(c: Node, n: nat, rest: string)
    requires SelectOne(c, VintedInterested).Some?
    requires Strip(SelectOne(c, VintedInterested).value.text) == DecimalText(n) + " " + rest
    ensures CountOf(c, VintedInterested, true) == Ok(Some(n))
  {
    var t := DecimalText(n) + " " + rest;
    var f := FirstSegment(t, " ");
    FirstSegmentIsWord(t, DecimalText(n), rest);
    PyIntDecimal(n);
  }

  lemma FirstSegmentIsWord(t: string, w: string, rest: string)
    requires t == w + " " + rest && ' ' !in w
    ensures FirstSegment(t, " ") == w
  {
    forall i: nat | i < |w| ensures !OccursAt(t, i, " ") {
      assert t[i] == w[i];
    }
    assert OccursAt(t, |w|, " ") by {
      assert t[|w|..|w| + 1] == " ";
    }
    assert t[..|w|] == w;
  }

  /* ---------------- search and detail ---------------- */

  /** `VintedScraper.search`. */
  method Search(db: DatabaseManager, coll: Collection, fetch: Fetch, limit: int, connect: ConnectOutcome)
    returns (r: Result<seq<Document>>)
    requires db.Valid()
    modifies db, coll
    ensures db.Valid()
    ensures r == Adapter.SearchResult(fetch, VintedItem, limit, ParseItem)
    ensures (r.Err? || r.value == []) ==>
              coll.State() == old(coll.State()) && db.initialized == old(db.initialized)
    ensures r.Ok? && r.value != [] ==>
              db.initialized == (old(db.initialized) || connect == Connected)
              && coll.State() == (if db.initialized then SaveAll(old(coll.State()), r.value)
                                  else old(coll.State()))
    ensures var e := Adapter.SearchEffect(fetch, VintedItem, limit, ParseItem, old(coll.State()), old(db.initialized), connect);
            r == e.reply && coll.State() == e.store && db.initialized == e.ready
  {
    r := Adapter.Search(db, coll, fetch, VintedItem, limit, ParseItem, connect);
  }

  /** `VintedScraper.get_detail`: nothing for an empty page or a page that
      yields no record; otherwise the detail update's reply, in a list. A
      page the parser rejects raises. */
  method GetDetail(db: DatabaseManager, coll: Collection, fetch: Fetch, today: string,
                   connect: ConnectOutcome, show: Value -> string)
    returns (r: Result<seq<Document>>)
    requires db.Valid()
    modifies db, coll
    ensures db.Valid()
    ensures fetch.NoContent? ==> r == Ok([]) && coll.State() == old(coll.State())
    ensures fetch.Unparsable? ==> r == Err(fetch.message) && coll.State() == old(coll.State())
    ensures fetch.Loaded? && ParseDetail(fetch.page, today) == [] ==>
              r == Ok([]) && coll.State() == old(coll.State())
    ensures !fetch.Loaded? || ParseDetail(fetch.page, today) == [] ==> db.initialized == old(db.initialized)
    ensures fetch.Loaded? && ParseDetail(fetch.page, today) != [] ==>
              var flat := Flatten(ParseDetail(fetch.page, today)[0], show);
              var id := KeyOf(flat);
              && db.initialized == (if Truthy(id) then old(db.initialized) || connect == Connected
                                    else old(db.initialized))
              && r == Ok([if Truthy(id) && db.initialized && Lookup(old(coll.State()), id).Ok? then flat else map[]])
              && coll.State() == (if Truthy(id) && db.initialized then ApplyDetails(old(coll.State()), flat)
                                  else old(coll.State()))
    ensures var e := DetailEffect(fetch, today, show, old(coll.State()), old(db.initialized), connect);
            r == e.reply && coll.State() == e.store && db.initialized == e.ready
  {
    match fetch {
      case NoContent =>
        r := Ok([]);
      case Unparsable(m) =>
        r := Err(m);
      case Loaded(page) =>
        var details := ParseDetail(page, today);
        if details == [] {
          r := Ok([]);
        } else {
          assert KeyOf(Flatten(details[0], show)) == KeyOf(details[0]);
          var updated := UpdateProductDetails(db, coll, Record(details[0]), connect, show);
          r := Ok([updated]);
        }
    }
    EffectOfDetail(fetch, today, show, old(coll.State()), old(db.initialized), connect, r, coll.State(), db.initialized);
  }

  /** The explicit outcome of `get_detail`, case by case, is its effect. */
  lemma EffectOfDetail(fetch: Fetch, today: string, show: Value -> string, s: StoreState, wasReady: bool,
                       connect: ConnectOutcome, r: Result<seq<Document>>, s': StoreState, ready: bool)
    requires fetch.NoContent? ==> r == Ok([]) && s' == s
    requires fetch.Unparsable? ==> r == Err(fetch.message) && s' == s
    requires fetch.Loaded? && ParseDetail(fetch.page, today) == [] ==> r == Ok([]) && s' == s
    requires !fetch.Loaded? || ParseDetail(fetch.page, today) == [] ==> ready == wasReady
    requires fetch.Loaded? && ParseDetail(fetch.page, today) != [] ==>
               var flat := Flatten(ParseDetail(fetch.page, today)[0], show);
               var id := KeyOf(flat);
               && ready == (if Truthy(id) then wasReady || connect == Connected else wasReady)
               && r == Ok([if Truthy(id) && ready && Lookup(s, id).Ok? then flat else map[]])
               && s' == (if Truthy(id) && ready then ApplyDetails(s, flat) else s)
    ensures DetailEffect(fetch, today, show, s, wasReady, connect) == Effect(r, s', ready)
  {
    if fetch.Loaded? && ParseDetail(fetch.page, today) != [] {
      var details := ParseDetail(fetch.page, today);
      assert KeyOf(Flatten(details[0], show)) == KeyOf(details[0]);
    }
  }

  /** The whole effect of `get_detail` on a store `s` and a connection
      flag: the reply, the store after the detail update, and the flag. */
  function DetailEffect(fetch: Fetch, today: string, show: Value -> string,
                        s: StoreState, wasReady: bool, connect: ConnectOutcome): Effect
  {
    match fetch
    case NoContent => Effect(Ok([]), s, wasReady)
    case Unparsable(m) => Effect(Err(m), s, wasReady)
    case Loaded(page) =>
      var details := ParseDetail(page, today);
      if details == [] then Effect(Ok([]), s, wasReady)
      else
        var flat := Flatten(details[0], show);
        var ready := ReadyAfterDetails(details[0], wasReady, connect);
        Effect(Ok([DetailsReply(s, flat, ready)]), DetailsStore(s, flat, ready), ready)
  }

  /** Once the connection is set up, fetching the same item page a second
      time leaves the store as the first fetch did. */
  lemma DetailTwice(fetch: Fetch, today: string, show: Value -> string,
                    s: StoreState, wasReady: bool, connect: ConnectOutcome, connect': ConnectOutcome)
    requires DetailEffect(fetch, today, show, s, wasReady, connect).ready
    ensures var e := DetailEffect(fetch, today, show, s, wasReady, connect);
            DetailEffect(fetch, today, show, e.store, e.ready, connect').store == e.store
  {
    if fetch.Loaded? && ParseDetail(fetch.page, today) != [] {
      var flat := Flatten(ParseDetail(fetch.page, today)[0], show);
      if Truthy(KeyOf(flat)) {
        DetailsIdempotent(s, flat);
      }
    }
  }
}
