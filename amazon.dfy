/** The general-marketplace adapter: the search-result and product-page
    extractors, the specification-table reader, and its search and
    detail steps. */
module Amazon {
  import opened Values
  import opened Text
  import opened Page
  import opened Products
  import opened Store
  import opened Database
  import opened Upsert
  import Adapter

  const BaseUrl := "https://www.amazon.fr"

  /** The badge text that marks a marketplace-exclusive product. */
  const ExclusiveBadge := "Exclusivit\U{E9} Amazon"

  /* ---------------- search result (`parse_item`) ---------------- */

  /** The product link: a non-empty relative `href` gets the site prefix,
      an empty or absolute one is kept as it is. */
  function ItemUrl(href: string): (url: string)
    ensures href == "" || StartsWith(href, "http") ==> url == href
    ensures href != "" && !StartsWith(href, "http") ==> url == BaseUrl + href
  {
    if href != "" && !StartsWith(href, "http") then BaseUrl + href else href
  }

  /** The delivery text: the stripped text split on single spaces, its
      first two pieces dropped and the rest glued together. */
  function DeliveryText(text: string): string
  {
    Concat(DropFirst(Split(Strip(text), " "), 2))
  }

  /** The delivery price of a result: `None` without a delivery node or
      when its text is empty. */
  function Delivery(item: Node): (r: Option<string>)
    ensures r.Some? <==> SelectOne(item, AmazonDelivery).Some? && SelectOne(item, AmazonDelivery).value.text != ""
  {
    match SelectOne(item, AmazonDelivery)
    case None => None
    case Some(n) => if n.text != "" then Some(DeliveryText(n.text)) else None
  }

  /** The record a search result yields, or the exception it raises: a
      result without a product link, or an image without `src`. */
  function ItemRecord(item: Node): (r: Result<Product>)
    ensures r.Err? <==> SelectOne(item, AmazonLink).None?
                        || (SelectOne(item, AmazonImage).Some? && "src" !in SelectOne(item, AmazonImage).value.attrs)
  {
    var link := SelectOne(item, AmazonLink);
    var image := SelectOne(item, AmazonImage);
    if link.None? then Err("no product link")
    else if image.Some? && "src" !in image.value.attrs then Err("no image source")
    else Ok(ItemProduct(item))
  }

  /** The fields a search result fills in once no extraction step raised. */
  function ItemProduct(item: Node): (p: Product)
    requires SelectOne(item, AmazonLink).Some?
    requires SelectOne(item, AmazonImage).Some? ==> "src" in SelectOne(item, AmazonImage).value.attrs
    ensures p.source == "amazon"
    ensures p.productId == (if AttrOr(item, "data-asin", "") != "" then Some(AttrOr(item, "data-asin", "")) else None)
    ensures p.name == Some(match SelectOne(item, H2) case None => "" case Some(h) => Strip(h.text))
    ensures p.url == Some(ItemUrl(AttrOr(SelectOne(item, AmazonLink).value, "href", "")))
    ensures p.price == TextOf(item, AmazonPrice)
    ensures p.deliveryPrice == Delivery(item)
    ensures p.isExclusive == Some(SelectOne(item, AmazonBadge).Some?
                                  && Contains(SelectOne(item, AmazonBadge).value.text, ExclusiveBadge))
    ensures p.stock == Some(SelectOne(item, AmazonOutOfStock).None?)
  {
    var asin := AttrOr(item, "data-asin", "");
    var image := SelectOne(item, AmazonImage);
    var badge := SelectOne(item, AmazonBadge);
    Fresh("amazon").(
      productId := if asin != "" then Some(asin) else None,
      name := Some(match SelectOne(item, H2) case None => "" case Some(h) => Strip(h.text)),
      deliveryPrice := Delivery(item),
      url := Some(ItemUrl(AttrOr(SelectOne(item, AmazonLink).value, "href", ""))),
      mainPhoto := if image.Some? then Some(image.value.attrs["src"]) else None,
      price := TextOf(item, AmazonPrice),
      rating := TextOf(item, AmazonRating),
      isExclusive := Some(badge.Some? && Contains(badge.value.text, ExclusiveBadge)),
      stock := Some(SelectOne(item, AmazonOutOfStock).None?))
  }

  /** `parse_item`: the record's dictionary when it passes the gate;
      `None` when it does not or when extraction raised. */
  function ParseItem(item: Node): (r: Option<Document>)
    ensures r.Some? ==> ItemRecord(item).Ok? && IsValid(ItemRecord(item).value)
                        && r.value == ToDict(ItemRecord(item).value)
    ensures r.None? ==> ItemRecord(item).Err? || !IsValid(ItemRecord(item).value)
  {
    match ItemRecord(item)
    case Err(_) => None
    case Ok(p) => if IsValid(p) then Some(ToDict(p)) else None
  }

  /** A search result is kept exactly when it has a product link, an image
      with a source (or no image), a non-empty `data-asin` and a price:
      the name and the link are always set, so only the id and the price
      can fail the gate. */
  lemma ItemKeptIff(item: Node)
    ensures ParseItem(item).Some? <==>
      && SelectOne(item, AmazonLink).Some?
      && (SelectOne(item, AmazonImage).None? || "src" in SelectOne(item, AmazonImage).value.attrs)
      && AttrOr(item, "data-asin", "") != ""
      && SelectOne(item, AmazonPrice).Some?
  {
    if ItemRecord(item).Ok? {
      var p := ItemRecord(item).value;
      assert p == ItemProduct(item);
      assert IsValid(p) <==> p.productId.Some? && p.price.Some?;
    }
  }

  /** A kept item carries its id as text. */
  lemma ParsedIdIsText(item: Node)
    requires ParseItem(item).Some?
    ensures Of(ProductId) in ParseItem(item).value && ParseItem(item).value[Of(ProductId)].Str?
  {
    TextFieldValues(ItemRecord(item).value);
  }

  /** The link of a kept result is empty or absolute, and an absolute
      `href` is stored untouched. */
  lemma ItemUrlAbsolute(item: Node)
    requires ParseItem(item).Some?
    ensures var d := ParseItem(item).value;
            var href := AttrOr(SelectOne(item, AmazonLink).value, "href", "");
      && d[Of(Url)].Str?
      && (d[Of(Url)].s == "" || StartsWith(d[Of(Url)].s, "http"))
      && (StartsWith(href, "http") ==> d[Of(Url)].s == href)
  {
    var p := ItemRecord(item).value;
    var href := AttrOr(SelectOne(item, AmazonLink).value, "href", "");
    TextFieldValues(p);
    assert ParseItem(item).value[Of(Url)] == FieldValue(p, Url);
    if href != "" && !StartsWith(href, "http") {
      assert (BaseUrl + href)[..4] == "http";
    }
  }

  /** The flags of a kept result: exclusive exactly when the badge text
      names the exclusivity, in stock exactly when no out-of-stock node. */
  lemma ItemFlags(item: Node)
    requires ParseItem(item).Some?
    ensures var d := ParseItem(item).value;
            var badge := SelectOne(item, AmazonBadge);
      && d[Of(IsExclusive)] == Bool(badge.Some? && Contains(badge.value.text, ExclusiveBadge))
      && d[Of(Stock)] == Bool(SelectOne(item, AmazonOutOfStock).None?)
  {
    var p := ItemRecord(item).value;
    FlagFieldValues(p);
    var d := ParseItem(item).value;
    assert d[Of(IsExclusive)] == FieldValue(p, IsExclusive);
    assert d[Of(Stock)] == FieldValue(p, Stock);
  }

  /** The delivery text drops the first two space-separated words and
      every remaining space. */
  lemma DeliveryDropsTwoWords(w1: string, w2: string, rest: string)
    requires ' ' !in w1 && ' ' !in w2
    ensures Concat(DropFirst(Split(w1 + " " + w2 + " " + rest, " "), 2)) == RemoveChar(rest, ' ')
  {
    SplitCons(w2, ' ', rest);
    assert w1 + " " + w2 + " " + rest == w1 + [' '] + (w2 + [' '] + rest);
    SplitCons(w1, ' ', w2 + [' '] + rest);
    assert w2 + " " + rest == w2 + [' '] + rest;
    var parts := [w1] + ([w2] + Split(rest, [' ']));
    assert DropFirst(parts, 2) == Split(rest, [' ']);
    ConcatSplit(rest, ' ');
  }

  /** A delivery text with at most one space is empty. */
  lemma DeliveryOfShortText(w1: string, w2: string)
    requires ' ' !in w1 && ' ' !in w2
    ensures Concat(DropFirst(Split(w1, " "), 2)) == ""
    ensures Concat(DropFirst(Split(w1 + " " + w2, " "), 2)) == ""
  {
    SplitNone(w1, ' ');
    SplitNone(w2, ' ');
    SplitCons(w1, ' ', w2);
    assert w1 + " " + w2 == w1 + [' '] + w2;
  }

  /* ---------------- specification table (`parse_table`) ---------------- */

  /** `{th: td for th, td in zip(headers, rows)}`: pairs up to the shorter
      list; a repeated header keeps its last value. */
  function ZipDict(keys: seq<string>, vals: seq<string>): (m: map<string, string>)
    ensures |m| <= |keys| && |m| <= |vals|
    decreases |keys|
  {
    if keys == [] || vals == [] then map[]
    else
      var m := ZipDict(keys[1..], vals[1..]);
      if keys[0] in m then m else m[keys[0] := vals[0]]
  }

  /** The table's headers are exactly those paired with a data cell. */
  lemma {:induction false} ZipDictKeys(keys: seq<string>, vals: seq<string>)
    ensures forall k :: k in ZipDict(keys, vals) <==> exists i :: 0 <= i < |keys| && i < |vals| && keys[i] == k
    decreases |keys|
  {
    if keys != [] && vals != [] {
      var rest := ZipDict(keys[1..], vals[1..]);
      ZipDictKeys(keys[1..], vals[1..]);
      forall k ensures k in ZipDict(keys, vals) <==> exists i :: 0 <= i < |keys| && i < |vals| && keys[i] == k {
        if k in rest {
          var i :| 0 <= i < |keys[1..]| && i < |vals[1..]| && keys[1..][i] == k;
          assert keys[i + 1] == k;
        }
        if exists i :: 0 <= i < |keys| && i < |vals| && keys[i] == k {
          var i :| 0 <= i < |keys| && i < |vals| && keys[i] == k;
          if i > 0 {
            assert keys[1..][i - 1] == k;
          }
        }
      }
    }
  }

  /** A header that does not occur again later maps to the cell beside
      it; in particular, with distinct headers every header does. */
  lemma {:induction false} ZipDictLastWins(keys: seq<string>, vals: seq<string>, i: nat)
    requires i < |keys| && i < |vals|
    requires forall j :: i < j < |keys| && j < |vals| ==> keys[j] != keys[i]
    ensures keys[i] in ZipDict(keys, vals) && ZipDict(keys, vals)[keys[i]] == vals[i]
    decreases i
  {
    var rest := ZipDict(keys[1..], vals[1..]);
    if i == 0 {
      ZipDictKeys(keys[1..], vals[1..]);
      forall j | 0 <= j < |keys[1..]| && j < |vals[1..]| ensures keys[1..][j] != keys[0] {
        assert keys[1..][j] == keys[j + 1];
      }
      assert keys[0] !in rest;
    } else {
      ZipDictLastWins(keys[1..], vals[1..], i - 1);
      assert keys[1..][i - 1] == keys[i];
    }
  }

  /** `parse_table`: header cells against data cells. */
  function ParseTable(table: Node): map<string, string>
  {
    ZipDict(Texts(Select(table, Th)), Texts(Select(table, Td)))
  }

  /* ---------------- product page (`parse_details`) ---------------- */

  /** The product id: the offers block's `data-asin`, and when that is
      missing or empty, the hidden `ASIN` input's `value` if that input
      exists. */
  function DetailId(page: Node): Option<string>
  {
    var first := match SelectOne(page, AmazonOffers)
                 case None => None
                 case Some(e) => Attr(e, "data-asin");
    if first.Some? && first.value != "" then first
    else match SelectOne(page, AmazonAsinInput)
      case None => first
      case Some(input) => Attr(input, "value")
  }

  /** The image sources that are present and non-empty, in order. */
  function PresentSources(imgs: seq<Node>): (r: seq<Option<string>>)
    ensures |r| <= |imgs|
    ensures forall x :: x in r ==> x.Some? && x.value != "" && exists k :: 0 <= k < |imgs| && Attr(imgs[k], "src") == x
    ensures forall k :: 0 <= k < |imgs| && AttrOr(imgs[k], "src", "") != "" ==> Attr(imgs[k], "src") in r
  {
    if imgs == [] then []
    else
      var init := PresentSources(imgs[..|imgs| - 1]);
      assert forall k :: 0 <= k < |imgs| - 1 ==> imgs[..|imgs| - 1][k] == imgs[k];
      var img := imgs[|imgs| - 1];
      if AttrOr(img, "src", "") != "" then init + [Attr(img, "src")] else init
  }

  /** The colour names: the stripped `alt` of every swatch whose `alt` is
      non-empty (tested before stripping), in order. */
  function ColorNames(nodes: seq<Node>): (r: seq<Value>)
    ensures |r| <= |nodes|
    ensures forall x :: x in r ==> exists k :: 0 <= k < |nodes| && AttrOr(nodes[k], "alt", "") != ""
                                              && x == Str(Strip(nodes[k].attrs["alt"]))
    ensures forall k :: 0 <= k < |nodes| && AttrOr(nodes[k], "alt", "") != "" ==>
              Str(Strip(nodes[k].attrs["alt"])) in r
  {
    if nodes == [] then []
    else
      var init := ColorNames(nodes[..|nodes| - 1]);
      assert forall k :: 0 <= k < |nodes| - 1 ==> nodes[..|nodes| - 1][k] == nodes[k];
      var n := nodes[|nodes| - 1];
      if AttrOr(n, "alt", "") != "" then init + [Str(Strip(n.attrs["alt"]))] else init
  }

  /** The last image decides alone whether one more source follows. */
  lemma PresentSourcesSnoc(imgs: seq<Node>, img: Node)
    ensures PresentSources(imgs + [img]) ==
              PresentSources(imgs) + (if AttrOr(img, "src", "") != "" then [Attr(img, "src")] else [])
  {
    assert (imgs + [img])[..|imgs|] == imgs;
  }

  /** One image contributes its source exactly when that source is
      non-empty. */
  lemma PresentSourcesOne(img: Node)
    ensures PresentSources([img]) == if AttrOr(img, "src", "") != "" then [Attr(img, "src")] else []
  {
    PresentSourcesSnoc([], img);
    assert [] + [img] == [img];
  }

  /** Sources are collected image by image, in document order: the list
      for a concatenation is the concatenation of the lists. */
  lemma {:induction false} PresentSourcesAppend(a: seq<Node>, b: seq<Node>)
    ensures PresentSources(a + b) == PresentSources(a) + PresentSources(b)
    decreases |b|
  {
    if b == [] {
      assert a + b == a;
    } else {
      var b' := b[..|b| - 1];
      var img := b[|b| - 1];
      assert a + b == (a + b') + [img];
      assert b == b' + [img];
      PresentSourcesAppend(a, b');
      PresentSourcesSnoc(a + b', img);
      PresentSourcesSnoc(b', img);
      AppendAssoc(PresentSources(a), PresentSources(b'),
                  if AttrOr(img, "src", "") != "" then [Attr(img, "src")] else []);
    }
  }

  /** The last swatch decides alone whether one more name follows. */
  lemma ColorNamesSnoc(nodes: seq<Node>, n: Node)
    ensures ColorNames(nodes + [n]) ==
              ColorNames(nodes) + (if AttrOr(n, "alt", "") != "" then [Str(Strip(n.attrs["alt"]))] else [])
  {
    assert (nodes + [n])[..|nodes|] == nodes;
  }

  /** One swatch contributes its stripped `alt` exactly when that `alt` is
      non-empty. */
  lemma ColorNamesOne(n: Node)
    ensures ColorNames([n]) == if AttrOr(n, "alt", "") != "" then [Str(Strip(n.attrs["alt"]))] else []
  {
    ColorNamesSnoc([], n);
    assert [] + [n] == [n];
  }

  /** Colour names are collected swatch by swatch, in document order. */
  lemma {:induction false} ColorNamesAppend(a: seq<Node>, b: seq<Node>)
    ensures ColorNames(a + b) == ColorNames(a) + ColorNames(b)
    decreases |b|
  {
    if b == [] {
      assert a + b == a;
    } else {
      var b' := b[..|b| - 1];
      var n := b[|b| - 1];
      assert a + b == (a + b') + [n];
      assert b == b' + [n];
      ColorNamesAppend(a, b');
      ColorNamesSnoc(a + b', n);
      ColorNamesSnoc(b', n);
      AppendAssoc(ColorNames(a), ColorNames(b'),
                  if AttrOr(n, "alt", "") != "" then [Str(Strip(n.attrs["alt"]))] else []);
    }
  }

  /** The specification table: the first one found, else the second. */
  function FeatureTable(page: Node): Option<map<string, string>>
  {
    match SelectOne(page, AmazonFeatureTable)
    case Some(t) => Some(ParseTable(t))
    case None =>
      match SelectOne(page, AmazonDetailsTable)
      case Some(t) => Some(ParseTable(t))
      case None => None
  }

  /** The record a product page yields; no step of it can raise. */
  function DetailsRecord(page: Node): (p: Product)
    ensures p.source == "amazon" && p.uploaded == Null
  {
    var canonical := SelectOne(page, Canonical);
    var cats := Select(page, AmazonBreadcrumb);
    var imgs := Select(page, AmazonMainImages) + Select(page, AmazonAltImages);
    var swatches := Select(page, AmazonColors);
    Fresh("amazon").(
      url := if canonical.Some? then Attr(canonical.value, "href") else None,
      productId := DetailId(page),
      price := TextOf(page, AmazonDetailPrice),
      categories := if cats != [] then Some(Texts(cats)) else None,
      name := TextOf(page, AmazonTitle),
      detailedPhotos := if imgs != [] then Some(PresentSources(imgs)) else None,
      featureTable := FeatureTable(page),
      colors := if swatches != [] then List(ColorNames(swatches)) else Null,
      description := TextOf(page, AmazonDescription))
  }

  /** `parse_details`: always the record's dictionary, in a one-element
      list, whether or not it passes the gate. */
  function ParseDetails(page: Node): (r: seq<Document>)
    ensures |r| == 1 && r[0] == ToDict(DetailsRecord(page))
  {
    [ToDict(DetailsRecord(page))]
  }

  /** The id rules of a product page. */
  lemma DetailIdFallback(page: Node)
    ensures var offers := SelectOne(page, AmazonOffers);
            var input := SelectOne(page, AmazonAsinInput);
            var id := DetailsRecord(page).productId;
      && (offers.Some? && AttrOr(offers.value, "data-asin", "") != "" ==> id == Some(offers.value.attrs["data-asin"]))
      && ((offers.None? || AttrOr(offers.value, "data-asin", "") == "") && input.Some? ==> id == Attr(input.value, "value"))
      && ((offers.None? || AttrOr(offers.value, "data-asin", "") == "") && input.None? ==>
            id == (if offers.Some? then Attr(offers.value, "data-asin") else None))
  {
  }

  /** The photo list holds only present, non-empty sources, and every
      main or alternative image with one contributes it. */
  lemma DetailPhotos(page: Node)
    ensures var imgs := Select(page, AmazonMainImages) + Select(page, AmazonAltImages);
            var photos := DetailsRecord(page).detailedPhotos;
      && (photos.None? <==> imgs == [])
      && (photos.Some? ==> forall x :: x in photos.value ==> x.Some? && x.value != "")
      && (photos.Some? ==> forall k :: 0 <= k < |imgs| && AttrOr(imgs[k], "src", "") != "" ==>
                             Attr(imgs[k], "src") in photos.value)
  {
  }

  /** A page without any of the nodes the extractor looks for still yields
      one record, with only the source and nothing else set. */
  lemma BarePageRecord(page: Node)
    requires page.found == map[]
    ensures var d := ParseDetails(page)[0];
      && d[Of(Source)] == Str("amazon")
      && forall f :: f != Source ==> d[Of(f)] == Null
  {
    var p := DetailsRecord(page);
    assert p == Fresh("amazon");
    var d := ToDict(p);
    forall f | f != Source ensures d[Of(f)] == Null {
      assert d[Of(f)] == FieldValue(p, f);
    }
    TextFieldValues(p);
  }

  /** The product page never carries an upload date. */
  lemma DetailsNotUploaded(page: Node)
    ensures ParseDetails(page)[0][Of(Uploaded)] == Null
  {
    var p := DetailsRecord(page);
    UnionFieldValues(p);
    assert ToDict(p)[Of(Uploaded)] == FieldValue(p, Uploaded);
  }

  /* ---------------- search and detail ---------------- */

  /** `AmazonScraper.search`. */
  method Search(db: DatabaseManager, coll: Collection, fetch: Fetch, limit: int, connect: ConnectOutcome)
    returns (r: Result<seq<Document>>)
    requires db.Valid()
    modifies db, coll
    ensures db.Valid()
    ensures r == Adapter.SearchResult(fetch, AmazonItem, limit, ParseItem)
    ensures (r.Err? || r.value == []) ==>
              coll.State() == old(coll.State()) && db.initialized == old(db.initialized)
    ensures r.Ok? && r.value != [] ==>
              db.initialized == (old(db.initialized) || connect == Connected)
              && coll.State() == (if db.initialized then SaveAll(old(coll.State()), r.value)
                                  else old(coll.State()))
    ensures var e := Adapter.SearchEffect(fetch, AmazonItem, limit, ParseItem, old(coll.State()), old(db.initialized), connect);
            r == e.reply && coll.State() == e.store && db.initialized == e.ready
  {
    r := Adapter.Search(db, coll, fetch, AmazonItem, limit, ParseItem, connect);
  }

  /** `AmazonScraper.get_detail`: nothing for an empty page; otherwise the
      detail update's reply for the page's one record, in a list, which is
      `{}` when the record has no usable id, the set-up fails or the lookup
      raises. A page the parser rejects raises. */
  method GetDetail(db: DatabaseManager, coll: Collection, fetch: Fetch,
                   connect: ConnectOutcome, show: Value -> string)
    returns (r: Result<seq<Document>>)
    requires db.Valid()
    modifies db, coll
    ensures db.Valid()
    ensures fetch.NoContent? ==> r == Ok([]) && coll.State() == old(coll.State())
    ensures fetch.Unparsable? ==> r == Err(fetch.message) && coll.State() == old(coll.State())
    ensures !fetch.Loaded? ==> db.initialized == old(db.initialized)
    ensures fetch.Loaded? ==>
              var d := ParseDetails(fetch.page)[0];
              var id := KeyOf(d);
              && db.initialized == (if Truthy(id) then old(db.initialized) || connect == Connected
                                    else old(db.initialized))
              && r == Ok([if Truthy(id) && db.initialized && Lookup(old(coll.State()), id).Ok? then d else map[]])
              && coll.State() == (if Truthy(id) && db.initialized then ApplyDetails(old(coll.State()), d)
                                  else old(coll.State()))
    ensures var e := DetailEffect(fetch, show, old(coll.State()), old(db.initialized), connect);
            r == e.reply && coll.State() == e.store && db.initialized == e.ready
  {
    match fetch {
      case NoContent =>
        r := Ok([]);
      case Unparsable(m) =>
        r := Err(m);
      case Loaded(page) =>
        var d := ParseDetails(page)[0];
        FlattenKeepsDetails(page, show);
        var updated := UpdateProductDetails(db, coll, Record(d), connect, show);
        r := Ok([updated]);
    }
  }

  /** The detail record has no `uploaded` dictionary, so flattening it
      changes nothing. */
  lemma FlattenKeepsDetails(page: Node, show: Value -> string)
    ensures Flatten(ParseDetails(page)[0], show) == ParseDetails(page)[0]
  {
    DetailsNotUploaded(page);
  }

  /** The whole effect of `get_detail` on a store `s` and a connection
      flag: the reply, the store after the detail update, and the flag.
      The page always yields one record, so a loaded page always reaches
      the detail update. */
  function DetailEffect(fetch: Fetch, show: Value -> string,
                        s: StoreState, wasReady: bool, connect: ConnectOutcome): Effect
  {
    match fetch
    case NoContent => Effect(Ok([]), s, wasReady)
    case Unparsable(m) => Effect(Err(m), s, wasReady)
    case Loaded(page) =>
      var d := ParseDetails(page)[0];
      var ready := ReadyAfterDetails(d, wasReady, connect);
      Effect(Ok([DetailsReply(s, d, ready)]), DetailsStore(s, d, ready), ready)
  }

  /** Once the connection is set up, fetching the same product page a
      second time leaves the store as the first fetch did. */
  lemma DetailTwice(fetch: Fetch, show: Value -> string,
                    s: StoreState, wasReady: bool, connect: ConnectOutcome, connect': ConnectOutcome)
    requires DetailEffect(fetch, show, s, wasReady, connect).ready
    ensures var e := DetailEffect(fetch, show, s, wasReady, connect);
            DetailEffect(fetch, show, e.store, e.ready, connect').store == e.store
  {
    if fetch.Loaded? {
      var d := ParseDetails(fetch.page)[0];
      if Truthy(KeyOf(d)) {
        DetailsIdempotent(s, d);
      }
    }
  }
}
