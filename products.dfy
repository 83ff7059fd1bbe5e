/** The canonical product record every platform extractor fills in: one
    mandatory `source` and 25 optional fields, its validity gate, its
    conversion to a field-to-value dictionary and its one-line rendering. */
module Products {
  import opened Values
  import opened Text

  /** A product record. A field the extractors never set stays `None`
      (`Null` for the fields whose declared type is a union). */
  datatype Product = Product(
    source: string,
    productId: Option<string>,
    name: Option<string>,
    price: Option<string>,
    url: Option<string>,
    mainPhoto: Option<string>,
    description: Option<string>,
    priceWithProtection: Option<string>,
    categories: Option<seq<string>>,
    detailedPhotos: Option<seq<Option<string>>>,
    condition: Option<string>,
    sizes: Value,
    deliveryPrice: Option<string>,
    stock: Option<bool>,
    isExclusive: Option<bool>,
    rating: Option<string>,
    brand: Option<string>,
    colors: Value,
    views: Option<int>,
    interested: Option<int>,
    uploaded: Value,
    paymentMethods: Option<string>,
    ownerName: Option<string>,
    ownerProfileUrl: Option<string>,
    featureTable: Option<map<string, string>>,
    featureBullet: Option<seq<string>>)

  /** The value a field holds, as it appears in the record's dictionary. */
  function FieldValue(p: Product, f: Field): Value
  {
    match f
    case Source => Str(p.source)
    case ProductId => OptStr(p.productId)
    case Name => OptStr(p.name)
    case Price => OptStr(p.price)
    case Url => OptStr(p.url)
    case MainPhoto => OptStr(p.mainPhoto)
    case Description => OptStr(p.description)
    case PriceWithProtection => OptStr(p.priceWithProtection)
    case Categories => OptStrList(p.categories)
    case DetailedPhotos => OptPhotoList(p.detailedPhotos)
    case Condition => OptStr(p.condition)
    case Sizes => p.sizes
    case DeliveryPrice => OptStr(p.deliveryPrice)
    case Stock => OptBool(p.stock)
    case IsExclusive => OptBool(p.isExclusive)
    case Rating => OptStr(p.rating)
    case Brand => OptStr(p.brand)
    case Colors => p.colors
    case Views => OptInt(p.views)
    case Interested => OptInt(p.interested)
    case Uploaded => p.uploaded
    case PaymentMethods => OptStr(p.paymentMethods)
    case OwnerName => OptStr(p.ownerName)
    case OwnerProfileUrl => OptStr(p.ownerProfileUrl)
    case FeatureTable => OptStrMap(p.featureTable)
    case FeatureBullet => OptStrList(p.featureBullet)
  }

  /** A list of photo sources, some of which may be missing. */
  function OptPhotoList(o: Option<seq<Option<string>>>): Value
  {
    match o
    case None => Null
    case Some(xs) => List(seq(|xs|, k requires 0 <= k < |xs| => OptStr(xs[k])))
  }

  /** `Product(source=s)`: every field but `source` left at its default. */
  function Fresh(source: string): (p: Product)
    ensures FieldValue(p, Source) == Str(source)
    ensures forall f :: f != Source ==> FieldValue(p, f) == Null
    ensures !IsValid(p)
  {
    Product(source, None, None, None, None, None, None, None, None, None, None, Null,
            None, None, None, None, None, Null, None, None, Null, None, None, None,
            None, None)
  }

  /** `is_valid`: the four mandatory fields are set (to anything, the
      empty string included). */
  predicate IsValid(p: Product)
  {
    p.url.Some? && p.productId.Some? && p.name.Some? && p.price.Some?
  }

  /** The fields the validity gate inspects. */
  const Mandatory: set<Field> := {Url, ProductId, Name, Price}

  /** `to_dict`: one entry per declared field, `None` values kept. */
  function ToDict(p: Product): (d: Document)
    ensures forall k :: k in d <==> k.Of?
    ensures forall f :: d[Of(f)] == FieldValue(p, f)
  {
    forall k ensures k in FieldKeys <==> k.Of? {
      FieldKeysAreFields(k);
    }
    map k | k in FieldKeys :: FieldValue(p, k.field)
  }

  /** The values of the scalar text fields, spelled out. */
  lemma TextFieldValues(p: Product)
    ensures FieldValue(p, Source) == Str(p.source) && FieldValue(p, ProductId) == OptStr(p.productId)
    ensures FieldValue(p, Name) == OptStr(p.name) && FieldValue(p, Price) == OptStr(p.price)
    ensures FieldValue(p, Url) == OptStr(p.url)
    ensures FieldValue(p, PriceWithProtection) == OptStr(p.priceWithProtection)
  {
  }

  /** The values of the flag fields, spelled out. */
  lemma FlagFieldValues(p: Product)
    ensures FieldValue(p, Stock) == OptBool(p.stock)
    ensures FieldValue(p, IsExclusive) == OptBool(p.isExclusive)
  {
  }

  /** The values of the fields whose declared type is a union, spelled out. */
  lemma UnionFieldValues(p: Product)
    ensures FieldValue(p, Sizes) == p.sizes
    ensures FieldValue(p, Colors) == p.colors
    ensures FieldValue(p, Uploaded) == p.uploaded
  {
  }

  /** The position of a field in the declared field list. */
  function Index(f: Field): nat
  {
    match f
    case Source => 0 case ProductId => 1 case Name => 2 case Price => 3
    case Url => 4 case MainPhoto => 5 case Description => 6
    case PriceWithProtection => 7 case Categories => 8 case DetailedPhotos => 9
    case Condition => 10 case Sizes => 11 case DeliveryPrice => 12
    case Stock => 13 case IsExclusive => 14 case Rating => 15 case Brand => 16
    case Colors => 17 case Views => 18 case Interested => 19 case Uploaded => 20
    case PaymentMethods => 21 case OwnerName => 22 case OwnerProfileUrl => 23
    case FeatureTable => 24 case FeatureBullet => 25
  }

  lemma IndexOfListed()
    ensures |AllFields| == 26
    ensures forall i :: 0 <= i < |AllFields| ==> Index(AllFields[i]) == i
  {
  }

  /** The declared field list names 26 distinct fields, so the dictionary
      has 26 entries although the record text declares two fields twice. */
  lemma ToDictSize(p: Product)
    ensures |ToDict(p).Keys| == 26
  {
    IndexOfListed();
    assert ToDict(p).Keys == set f | f in AllFields :: Of(f);
    DistinctImageSize(AllFields);
  }

  lemma {:induction false} DistinctImageSize(fs: seq<Field>)
    requires forall i :: 0 <= i < |fs| ==> Index(fs[i]) == i
    ensures |set f | f in fs :: Of(f)| == |fs|
    decreases |fs|
  {
    if fs != [] {
      var init := fs[..|fs| - 1];
      var g := fs[|fs| - 1];
      DistinctImageSize(init);
      forall i | 0 <= i < |init| ensures init[i] != g {
        assert Index(init[i]) == i;
      }
      assert Of(g) !in (set f | f in init :: Of(f));
      assert (set f | f in fs :: Of(f)) == (set f | f in init :: Of(f)) + {Of(g)};
    }
  }

  /** The gate reads the dictionary's four mandatory entries and nothing
      else: it holds iff none of them is `None`. */
  lemma ValidIffMandatorySet(p: Product)
    ensures IsValid(p) <==> forall f :: f in Mandatory ==> ToDict(p)[Of(f)] != Null
  {
    if !IsValid(p) {
      var f := if p.url.None? then Url else if p.productId.None? then ProductId
        else if p.name.None? then Name else Price;
      assert ToDict(p)[Of(f)] == Null;
    }
  }

  /** Two records that agree on which mandatory fields are set are both
      valid or both invalid, whatever their source and optional fields. */
  lemma {:induction false} ValidIgnoresOtherFields(p: Product, q: Product)
    requires forall f :: f in Mandatory ==> (FieldValue(p, f) == Null <==> FieldValue(q, f) == Null)
    ensures IsValid(p) == IsValid(q)
  {
    ValidIffMandatorySet(p);
    ValidIffMandatorySet(q);
  }

  /** An empty string in each mandatory field passes the gate. */
  lemma EmptyStringsPass(p: Product)
    requires p.url == Some("") && p.productId == Some("") && p.name == Some("") && p.price == Some("")
    ensures IsValid(p)
    ensures forall f :: f in Mandatory ==> ToDict(p)[Of(f)] == Str("")
  {
  }

  /** `to_dict` loses nothing: different records give different dictionaries. */
  lemma ToDictInjective(p: Product, q: Product)
    requires ToDict(p) == ToDict(q)
    ensures p == q
  {
    forall f ensures FieldValue(p, f) == FieldValue(q, f) {
      assert ToDict(p)[Of(f)] == ToDict(q)[Of(f)];
    }
    FieldsDetermine(p, q);
  }

  lemma FieldsDetermine(p: Product, q: Product)
    requires forall f :: FieldValue(p, f) == FieldValue(q, f)
    ensures p == q
  {
    assert FieldValue(p, Categories) == FieldValue(q, Categories);
    OptStrListInjective(p.categories, q.categories);
    assert FieldValue(p, FeatureBullet) == FieldValue(q, FeatureBullet);
    OptStrListInjective(p.featureBullet, q.featureBullet);
    assert FieldValue(p, DetailedPhotos) == FieldValue(q, DetailedPhotos);
    OptPhotoListInjective(p.detailedPhotos, q.detailedPhotos);
    assert FieldValue(p, FeatureTable) == FieldValue(q, FeatureTable);
    OptStrMapInjective(p.featureTable, q.featureTable);
    ScalarsDetermine1(p, q);
    ScalarsDetermine2(p, q);
    ScalarsDetermine3(p, q);
    ScalarsDetermine4(p, q);
  }

  lemma ScalarsDetermine1(p: Product, q: Product)
    requires forall f :: FieldValue(p, f) == FieldValue(q, f)
    ensures p.source == q.source
    ensures p.productId == q.productId
    ensures p.name == q.name
    ensures p.price == q.price
    ensures p.url == q.url
    ensures p.mainPhoto == q.mainPhoto
  {
    assert FieldValue(p, Source) == FieldValue(q, Source);
    assert FieldValue(p, ProductId) == FieldValue(q, ProductId);
    assert FieldValue(p, Name) == FieldValue(q, Name);
    assert FieldValue(p, Price) == FieldValue(q, Price);
    assert FieldValue(p, Url) == FieldValue(q, Url);
    assert FieldValue(p, MainPhoto) == FieldValue(q, MainPhoto);
  }

  lemma ScalarsDetermine2(p: Product, q: Product)
    requires forall f :: FieldValue(p, f) == FieldValue(q, f)
    ensures p.description == q.description
    ensures p.priceWithProtection == q.priceWithProtection
    ensures p.condition == q.condition
    ensures p.sizes == q.sizes
    ensures p.deliveryPrice == q.deliveryPrice
    ensures p.stock == q.stock
  {
    assert FieldValue(p, Description) == FieldValue(q, Description);
    assert FieldValue(p, PriceWithProtection) == FieldValue(q, PriceWithProtection);
    assert FieldValue(p, Condition) == FieldValue(q, Condition);
    assert FieldValue(p, Sizes) == FieldValue(q, Sizes);
    assert FieldValue(p, DeliveryPrice) == FieldValue(q, DeliveryPrice);
    assert FieldValue(p, Stock) == FieldValue(q, Stock);
  }

  lemma ScalarsDetermine3(p: Product, q: Product)
    requires forall f :: FieldValue(p, f) == FieldValue(q, f)
    ensures p.isExclusive == q.isExclusive
    ensures p.rating == q.rating
    ensures p.brand == q.brand
    ensures p.colors == q.colors
    ensures p.views == q.views
  {
    assert FieldValue(p, IsExclusive) == FieldValue(q, IsExclusive);
    assert FieldValue(p, Rating) == FieldValue(q, Rating);
    assert FieldValue(p, Brand) == FieldValue(q, Brand);
    assert FieldValue(p, Colors) == FieldValue(q, Colors);
    assert FieldValue(p, Views) == FieldValue(q, Views);
  }

  lemma ScalarsDetermine4(p: Product, q: Product)
    requires forall f :: FieldValue(p, f) == FieldValue(q, f)
    ensures p.interested == q.interested
    ensures p.uploaded == q.uploaded
    ensures p.paymentMethods == q.paymentMethods
    ensures p.ownerName == q.ownerName
    ensures p.ownerProfileUrl == q.ownerProfileUrl
  {
    assert FieldValue(p, Interested) == FieldValue(q, Interested);
    assert FieldValue(p, Uploaded) == FieldValue(q, Uploaded);
    assert FieldValue(p, PaymentMethods) == FieldValue(q, PaymentMethods);
    assert FieldValue(p, OwnerName) == FieldValue(q, OwnerName);
    assert FieldValue(p, OwnerProfileUrl) == FieldValue(q, OwnerProfileUrl);
  }

  lemma OptStrListInjective(a: Option<seq<string>>, b: Option<seq<string>>)
    requires OptStrList(a) == OptStrList(b)
    ensures a == b
  {
    if a.Some? && b.Some? {
      var xs, ys := a.value, b.value;
      assert |xs| == |ys|;
      forall k | 0 <= k < |xs| ensures xs[k] == ys[k] {
        assert StrList(xs).items[k] == StrList(ys).items[k];
      }
      assert xs == ys;
    }
  }

  lemma OptPhotoListInjective(a: Option<seq<Option<string>>>, b: Option<seq<Option<string>>>)
    requires OptPhotoList(a) == OptPhotoList(b)
    ensures a == b
  {
    if a.Some? && b.Some? {
      var xs, ys := a.value, b.value;
      assert |xs| == |OptPhotoList(a).items| == |ys|;
      forall k | 0 <= k < |xs| ensures xs[k] == ys[k] {
        assert OptPhotoList(a).items[k] == OptPhotoList(b).items[k];
      }
      assert xs == ys;
    }
  }

  lemma OptStrMapInjective(a: Option<map<string, string>>, b: Option<map<string, string>>)
    requires OptStrMap(a) == OptStrMap(b)
    ensures a == b
  {
    if a.Some? && b.Some? {
      var ma, mb := a.value, b.value;
      assert ma.Keys == StrMap(ma).entries.Keys == mb.Keys;
      forall k | k in ma ensures ma[k] == mb[k] {
        assert StrMap(ma).entries[k] == StrMap(mb).entries[k];
      }
      assert ma == mb;
    }
  }

  /** How `None` and strings print inside an f-string. */
  function ShowOpt(o: Option<string>): string
  {
    match o
    case None => "None"
    case Some(s) => s
  }

  /** `__repr__`: the shopping-cart sign, a space, then source, product id,
      price and name joined by `-`. */
  function Repr(p: Product): (r: string)
    ensures StartsWith(r, "\U{1F6D2} ")
  {
    "\U{1F6D2} " + p.source + "-" + ShowOpt(p.productId) + "-" + ShowOpt(p.price) + "-" + ShowOpt(p.name)
  }

  /** When none of the four shown values contains `-`, splitting the text
      after the sign on `-` gives them back in order. */
  lemma {:induction false} ReprFields(p: Product)
    requires '-' !in p.source && '-' !in ShowOpt(p.productId)
    requires '-' !in ShowOpt(p.price) && '-' !in ShowOpt(p.name)
    ensures Split(Repr(p)[2..], "-") == [p.source, ShowOpt(p.productId), ShowOpt(p.price), ShowOpt(p.name)]
  {
    var a, b, c, d := p.source, ShowOpt(p.productId), ShowOpt(p.price), ShowOpt(p.name);
    assert Repr(p)[2..] == a + ['-'] + (b + ['-'] + (c + ['-'] + d));
    SplitNone(d, '-');
    SplitCons(c, '-', d);
    SplitCons(b, '-', c + ['-'] + d);
    SplitCons(a, '-', b + ['-'] + (c + ['-'] + d));
  }
}
