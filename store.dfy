/** The product collection: its documents in store order, the schema a
    document must satisfy to be read or inserted through the document
    mapper, and the lookup, update and insert steps the upserts use. */
module Store {
  import opened Values

  /** Whether `v` has the declared type of field `f` in the stored-document
      schema (`None` is allowed for every field but `source`). */
  predicate FieldConforms(f: Field, v: Value)
  {
    match f
    case Source => v.Str?
    case Categories => v.Null? || AllStr(v)
    case DetailedPhotos => v.Null? || AllStr(v)
    case FeatureBullet => v.Null? || AllStr(v)
    case Sizes => v.Null? || v.Str? || AllStr(v)
    case Colors => v.Null? || v.Str? || AllStr(v) || StrValues(v)
    case Uploaded => v.Null? || v.Str? || StrValues(v)
    case FeatureTable => v.Null? || StrValues(v)
    case Stock => v.Null? || v.Bool?
    case IsExclusive => v.Null? || v.Bool?
    case Views => v.Null? || v.Int?
    case Interested => v.Null? || v.Int?
    case _ => v.Null? || v.Str?
  }

  /** A list of strings. */
  predicate AllStr(v: Value)
  {
    v.List? && forall x <- v.items :: x.Str?
  }

  /** A string-to-string dictionary. */
  predicate StrValues(v: Value)
  {
    v.Map? && forall k <- v.entries :: v.entries[k].Str?
  }

  /** The document passes the schema's validation: `source` is a string and
      every field has its declared type; other keys are ignored. */
  predicate Conforms(d: Document)
  {
    forall f :: FieldConforms(f, Get(d, Of(f)))
  }

  /** The document the mapper writes for a validated record: every schema
      field (absent ones as `None`), other keys dropped, and the new id. */
  function Normalize(item: Document, id: nat): (d: Document)
    ensures forall f :: Of(f) in d && d[Of(f)] == Get(item, Of(f))
    ensures MongoId in d && d[MongoId] == ObjectId(id)
    ensures forall k :: k in d <==> k.Of? || k == MongoId
  {
    forall k ensures k in FieldKeys <==> k.Of? {
      FieldKeysAreFields(k);
    }
    (map k | k in FieldKeys :: Get(item, k))[MongoId := ObjectId(id)]
  }

  /** The value a document is looked up by. */
  function KeyOf(d: Document): Value
  {
    Get(d, Of(ProductId))
  }

  /** Equality as a store filter `{field: v}` tests it: the stored value is
      `v`, or is a list holding `v`; a missing field reads as `None`. */
  predicate MongoEq(stored: Value, v: Value)
  {
    stored == v || (stored.List? && v in stored.items)
  }

  /** The collection's contents and the next id it will hand out. */
  datatype StoreState = StoreState(docs: seq<Document>, nextId: nat)

  /** Every document carries an id below `nextId`, and no two share one. */
  predicate IdsValid(s: StoreState)
  {
    && (forall i :: 0 <= i < |s.docs| ==>
          MongoId in s.docs[i] && s.docs[i][MongoId].ObjectId? && s.docs[i][MongoId].n < s.nextId)
    && (forall i, j :: 0 <= i < j < |s.docs| ==> s.docs[i][MongoId] != s.docs[j][MongoId])
  }

  /** The position of the first document whose key matches `v`. */
  function FindFirst(docs: seq<Document>, v: Value): (r: Option<nat>)
    ensures r.Some? ==> r.value < |docs| && MongoEq(KeyOf(docs[r.value]), v)
    ensures r.Some? ==> forall j :: 0 <= j < r.value ==> !MongoEq(KeyOf(docs[j]), v)
    ensures r.None? <==> forall j :: 0 <= j < |docs| ==> !MongoEq(KeyOf(docs[j]), v)
  {
    if docs == [] then None
    else if MongoEq(KeyOf(docs[0]), v) then Some(0)
    else match FindFirst(docs[1..], v)
      case None => None
      case Some(j) => Some(j + 1)
  }

  /** `find_one({"product_id": v})`: the first match, which must pass
      validation to be returned; a failing one raises. */
  function Lookup(s: StoreState, v: Value): (r: Result<Option<nat>>)
    ensures r.Ok? && r.value.Some? ==> r.value == FindFirst(s.docs, v) && Conforms(s.docs[r.value.value])
    ensures r.Ok? && r.value.None? ==> FindFirst(s.docs, v).None?
    ensures r.Err? <==> FindFirst(s.docs, v).Some? && !Conforms(s.docs[FindFirst(s.docs, v).value])
  {
    match FindFirst(s.docs, v)
    case None => Ok(None)
    case Some(i) => if Conforms(s.docs[i]) then Ok(Some(i)) else Err("validation error")
  }

  /** The update would change the document's id, which the store refuses. */
  predicate ChangesId(d: Document, fields: Document)
  {
    MongoId in fields && Get(d, MongoId) != fields[MongoId]
  }

  /** `set(fields)` on the document at `i`: each given key takes the given
      value; the other keys and documents stay as they were. */
  function Update(s: StoreState, i: nat, fields: Document): (r: StoreState)
    requires i < |s.docs|
    ensures |r.docs| == |s.docs| && r.nextId == s.nextId
    ensures forall j :: 0 <= j < |s.docs| && j != i ==> r.docs[j] == s.docs[j]
    ensures forall k :: k in fields ==> k in r.docs[i] && r.docs[i][k] == fields[k]
    ensures forall k :: k !in fields ==> Get(r.docs[i], k) == Get(s.docs[i], k)
    ensures r.docs[i].Keys == s.docs[i].Keys + fields.Keys
  {
    StoreState(s.docs[i := s.docs[i] + fields], s.nextId)
  }

  /** `insert()` of a validated record: appended at the end with a fresh id. */
  function Insert(s: StoreState, item: Document): (r: StoreState)
    ensures r.docs == s.docs + [Normalize(item, s.nextId)] && r.nextId == s.nextId + 1
  {
    StoreState(s.docs + [Normalize(item, s.nextId)], s.nextId + 1)
  }

  /** A document appended to a store without a match is the first match. */
  lemma {:induction false} FindFirstAppended(docs: seq<Document>, d: Document, v: Value)
    requires FindFirst(docs, v).None? && MongoEq(KeyOf(d), v)
    ensures FindFirst(docs + [d], v) == Some(|docs|)
  {
    if docs == [] {
      assert docs + [d] == [d];
    } else {
      assert !MongoEq(KeyOf(docs[0]), v);
      assert (docs + [d])[1..] == docs[1..] + [d];
      FindFirstAppended(docs[1..], d, v);
    }
  }

  /** Updating without touching the id, and inserting, keep ids unique. */
  lemma UpdateKeepsIds(s: StoreState, i: nat, fields: Document)
    requires IdsValid(s) && i < |s.docs| && !ChangesId(s.docs[i], fields)
    ensures IdsValid(Update(s, i, fields))
  {
    var r := Update(s, i, fields);
    assert r.docs[i][MongoId] == s.docs[i][MongoId];
    assert forall j :: 0 <= j < |s.docs| ==> r.docs[j][MongoId] == s.docs[j][MongoId];
  }

  lemma InsertKeepsIds(s: StoreState, item: Document)
    requires IdsValid(s)
    ensures IdsValid(Insert(s, item))
  {
  }

  /** The collection object the mapper and the raw driver both read. */
  class Collection {
    var docs: seq<Document>
    var nextId: nat

    function State(): StoreState
      reads this
    {
      StoreState(docs, nextId)
    }

    constructor ()
      ensures docs == [] && nextId == 0
    {
      docs := [];
      nextId := 0;
    }

    method Set(i: nat, fields: Document)
      requires i < |docs|
      modifies this
      ensures State() == Update(old(State()), i, fields)
    {
      docs := docs[i := docs[i] + fields];
    }

    method Add(item: Document)
      modifies this
      ensures State() == Insert(old(State()), item)
    {
      docs := docs + [Normalize(item, nextId)];
      nextId := nextId + 1;
    }
  }
}
