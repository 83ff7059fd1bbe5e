/** The dynamically typed values that product records and stored documents
    carry: the shapes Python dicts, lists and scalars take in the pipeline,
    and the keys those dicts are indexed by. */
module Values {

  datatype Option<+T> = None | Some(value: T)

  datatype Result<+T> = Ok(value: T) | Err(message: string)

  /** A dynamically typed value. `Null` is Python's `None`; `ObjectId` is the
      identifier the document store gives each document it inserts. */
  datatype Value =
    | Null
    | Str(s: string)
    | Bool(b: bool)
    | Int(i: int)
    | List(items: seq<Value>)
    | Map(entries: map<string, Value>)
    | ObjectId(n: nat)

  /** The 26 distinct fields of the canonical product record. */
  datatype Field =
    | Source | ProductId | Name | Price | Url | MainPhoto | Description
    | PriceWithProtection | Categories | DetailedPhotos | Condition | Sizes
    | DeliveryPrice | Stock | IsExclusive | Rating | Brand | Colors | Views
    | Interested | Uploaded | PaymentMethods | OwnerName | OwnerProfileUrl
    | FeatureTable | FeatureBullet

  /** Every field, in the order the record declares them. */
  const AllFields: seq<Field> :=
    [Source, ProductId, Name, Price, Url, MainPhoto, Description,
     PriceWithProtection, Categories, DetailedPhotos, Condition, Sizes,
     DeliveryPrice, Stock, IsExclusive, Rating, Brand, Colors, Views,
     Interested, Uploaded, PaymentMethods, OwnerName, OwnerProfileUrl,
     FeatureTable, FeatureBullet]

  lemma EveryFieldListed(f: Field)
    ensures f in AllFields
  {
  }

  /** Concatenation regroups freely. */
  lemma AppendAssoc<T>(x: seq<T>, y: seq<T>, z: seq<T>)
    ensures (x + y) + z == x + (y + z)
  {
  }

  /** The dictionary keys of the product fields. */
  const FieldKeys: set<Key> := set f | f in AllFields :: Of(f)

  lemma FieldKeysAreFields(k: Key)
    ensures k in FieldKeys <==> k.Of?
  {
    if k.Of? {
      EveryFieldListed(k.field);
    }
  }

  /** The dictionary key under which a field is stored. */
  function FieldName(f: Field): string
  {
    match f
    case Source => "source"
    case ProductId => "product_id"
    case Name => "name"
    case Price => "price"
    case Url => "url"
    case MainPhoto => "main_photo"
    case Description => "description"
    case PriceWithProtection => "price_with_protection"
    case Categories => "categories"
    case DetailedPhotos => "detailed_photos"
    case Condition => "condition"
    case Sizes => "sizes"
    case DeliveryPrice => "delivery_price"
    case Stock => "stock"
    case IsExclusive => "is_exclusive"
    case Rating => "rating"
    case Brand => "brand"
    case Colors => "colors"
    case Views => "views"
    case Interested => "interested"
    case Uploaded => "uploaded"
    case PaymentMethods => "payment_methods"
    case OwnerName => "owner_name"
    case OwnerProfileUrl => "owner_profile_url"
    case FeatureTable => "feature_table"
    case FeatureBullet => "feature_bullet"
  }

  /** A dictionary key: one of the product fields, the store's "_id", the
      "id" the query layer writes, or any other name. */
  datatype Key = Of(field: Field) | MongoId | DisplayId | Other(name: string)

  /** A Python dict as the pipeline builds and stores it. */
  type Document = map<Key, Value>

  /** `d.get(k)`: a missing key reads as `None`. */
  function Get(d: Document, k: Key): Value
  {
    if k in d then d[k] else Null
  }

  /** Python truthiness. */
  predicate Truthy(v: Value)
  {
    match v
    case Null => false
    case Str(s) => s != ""
    case Bool(b) => b
    case Int(i) => i != 0
    case List(xs) => xs != []
    case Map(m) => m != map[]
    case ObjectId(_) => true
  }

  function OptStr(o: Option<string>): Value
  {
    match o
    case None => Null
    case Some(s) => Str(s)
  }

  function OptBool(o: Option<bool>): Value
  {
    match o
    case None => Null
    case Some(b) => Bool(b)
  }

  function OptInt(o: Option<int>): Value
  {
    match o
    case None => Null
    case Some(i) => Int(i)
  }

  function StrList(xs: seq<string>): (v: Value)
    ensures v.List? && |v.items| == |xs|
    ensures forall k :: 0 <= k < |xs| ==> v.items[k] == Str(xs[k])
  {
    List(seq(|xs|, k requires 0 <= k < |xs| => Str(xs[k])))
  }

  function OptStrList(o: Option<seq<string>>): Value
  {
    match o
    case None => Null
    case Some(xs) => StrList(xs)
  }

  function StrMap(m: map<string, string>): Value
  {
    Map(map k | k in m :: Str(m[k]))
  }

  function OptStrMap(o: Option<map<string, string>>): Value
  {
    match o
    case None => Null
    case Some(m) => StrMap(m)
  }

  /** `str(v)`: a string prints as itself, `None` as "None" and a boolean
      as "True" or "False"; how other values print is supplied by `show`. */
  function PyStr(v: Value, show: Value -> string): string
  {
    match v
    case Str(s) => s
    case Null => "None"
    case Bool(b) => if b then "True" else "False"
    case _ => show(v)
  }
}
