/** The two ways scraped records reach the store, both looking documents up
    by `product_id` alone: the listing save, which overwrites a found
    document with the whole record, and the detail update, which writes
    only the non-`None` values that differ from what is stored. */
module Upsert {
  import opened Values
  import opened Store
  import opened Database

  /* ---------------- listing save (`save_to_mongo`) ---------------- */

  /** One item of the listing save: an item without a `product_id` key
      raises and is skipped; a found document is overwritten with every
      entry of the item (`None` included); an absent one is inserted if it
      validates. A failing step leaves the store as it was. */
  function SaveOne(s: StoreState, item: Document): StoreState
  {
    if Of(ProductId) !in item then s
    else match Lookup(s, item[Of(ProductId)])
      case Err(_) => s
      case Ok(None) => if Conforms(item) then Insert(s, item) else s
      case Ok(Some(i)) => if ChangesId(s.docs[i], item) then s else Update(s, i, item)
  }

  /** The items saved one after the other, in list order. */
  function SaveAll(s: StoreState, items: seq<Document>): StoreState
  {
    if items == [] then s else SaveOne(SaveAll(s, items[..|items| - 1]), items[|items| - 1])
  }

  /** `save_to_mongo`: set the connection up if needed and give up if that
      fails; do nothing for an empty list; otherwise save every item. */
  method SaveToMongo(db: DatabaseManager, coll: Collection, items: seq<Document>, connect: ConnectOutcome)
    requires db.Valid()
    modifies db, coll
    ensures db.Valid()
    ensures db.initialized == (old(db.initialized) || connect == Connected)
    ensures !db.initialized ==> coll.State() == old(coll.State())
    ensures db.initialized ==> coll.State() == SaveAll(old(coll.State()), items)
  {
    if !db.IsInitialized() {
      var ok := db.Initialize(connect);
      if !ok {
        return;
      }
    }
    if items == [] {
      return;
    }
    var i := 0;
    while i < |items|
      invariant 0 <= i <= |items|
      invariant coll.State() == SaveAll(old(coll.State()), items[..i])
      modifies coll
    {
      var item := items[i];
      if Of(ProductId) in item {
        var found := Lookup(coll.State(), item[Of(ProductId)]);
        match found {
          case Err(_) =>
          case Ok(None) =>
            if Conforms(item) {
              coll.Add(item);
            }
          case Ok(Some(j)) =>
            if !ChangesId(coll.docs[j], item) {
              coll.Set(j, item);
            }
        }
      }
      assert items[..i + 1][..i] == items[..i];
      i := i + 1;
    }
    assert items[..i] == items;
  }

  /* ---------------- detail update (`update_product_details`) ---------------- */

  /** What the detail update is handed: a dictionary, or anything else. */
  datatype Payload = Record(doc: Document) | NotARecord

  /** One part of the flattened upload date: `str()` of the entry, or "N/A". */
  function UploadPart(m: map<string, Value>, k: string, show: Value -> string): string
  {
    if k in m then PyStr(m[k], show) else "N/A"
  }

  /** An `uploaded` dictionary becomes the text "<scraped> - <time>";
      everything else is left as it is. */
  function Flatten(d: Document, show: Value -> string): (r: Document)
    ensures r.Keys == d.Keys
    ensures forall k :: k in d && k != Of(Uploaded) ==> r[k] == d[k]
    ensures Of(Uploaded) in d && d[Of(Uploaded)].Map? ==>
              r[Of(Uploaded)] == Str(UploadPart(d[Of(Uploaded)].entries, "scraped", show) + " - "
                                     + UploadPart(d[Of(Uploaded)].entries, "time", show))
    ensures Of(Uploaded) in d && !d[Of(Uploaded)].Map? ==> r[Of(Uploaded)] == d[Of(Uploaded)]
  {
    if Of(Uploaded) in d && d[Of(Uploaded)].Map? then
      var m := d[Of(Uploaded)].entries;
      d[Of(Uploaded) := Str(UploadPart(m, "scraped", show) + " - " + UploadPart(m, "time", show))]
    else d
  }

  /** `getattr(existing, k, None)` on the loaded document: a schema field
      reads its stored value, `id` reads the document's id, anything else
      reads as `None`. */
  function StoredAttr(d: Document, k: Key): Value
  {
    if k.Of? then Get(d, k) else if k == DisplayId then Get(d, MongoId) else Null
  }

  /** The changed fields: incoming entries that are not `None` and differ
      from what the stored document holds. */
  function Diff(stored: Document, incoming: Document): (r: Document)
    ensures forall k :: k in r <==> k in incoming && incoming[k] != Null && incoming[k] != StoredAttr(stored, k)
    ensures forall k :: k in r ==> r[k] == incoming[k]
  {
    map k | k in incoming && incoming[k] != Null && incoming[k] != StoredAttr(stored, k) :: incoming[k]
  }

  /** The store after the detail update of a flattened record whose
      `product_id` is truthy: a found document that validates gets the
      changed fields (no write when there are none); an absent one is
      inserted if the record validates. */
  function ApplyDetails(s: StoreState, flat: Document): StoreState
  {
    match Lookup(s, KeyOf(flat))
    case Err(_) => s
    case Ok(None) => if Conforms(flat) then Insert(s, flat) else s
    case Ok(Some(i)) =>
      var diff := Diff(s.docs[i], flat);
      if diff == map[] || ChangesId(s.docs[i], diff) then s else Update(s, i, diff)
  }

  /** What a scraper step leaves behind: its reply (or the exception it
      raises), the store, and whether the connection is set up. */
  datatype Effect = Effect(reply: Result<seq<Document>>, store: StoreState, ready: bool)

  /** Whether the connection is set up after the detail update of `doc`:
      only a record with a truthy `product_id` tries to set it up. */
  function ReadyAfterDetails(doc: Document, wasReady: bool, connect: ConnectOutcome): bool
  {
    if Truthy(KeyOf(doc)) then wasReady || connect == Connected else wasReady
  }

  /** The detail update's reply for the flattened record `flat`: the record
      itself once set up and the lookup did not raise, `{}` otherwise. */
  function DetailsReply(s: StoreState, flat: Document, ready: bool): Document
  {
    if Truthy(KeyOf(flat)) && ready && Lookup(s, KeyOf(flat)).Ok? then flat else map[]
  }

  /** The store after the detail update of the flattened record `flat`. */
  function DetailsStore(s: StoreState, flat: Document, ready: bool): StoreState
  {
    if Truthy(KeyOf(flat)) && ready then ApplyDetails(s, flat) else s
  }

  /** `update_product_details`: `{}` for a non-dictionary or a record
      without a truthy `product_id`; otherwise try to set the connection up
      (its result is not checked), flatten `uploaded`, and apply the update.
      A lookup that raises gives `{}`; otherwise the flattened incoming
      record is returned, whether or not a write happened. */
  method UpdateProductDetails(db: DatabaseManager, coll: Collection, payload: Payload,
                              connect: ConnectOutcome, show: Value -> string)
    returns (r: Document)
    requires db.Valid()
    modifies db, coll
    ensures db.Valid()
    ensures payload.NotARecord? || !Truthy(KeyOf(payload.doc)) ==>
              r == map[] && coll.State() == old(coll.State()) && db.initialized == old(db.initialized)
    ensures payload.Record? && Truthy(KeyOf(payload.doc)) ==>
              db.initialized == (old(db.initialized) || connect == Connected)
    ensures payload.Record? && Truthy(KeyOf(payload.doc)) && !db.initialized ==>
              r == map[] && coll.State() == old(coll.State())
    ensures payload.Record? && Truthy(KeyOf(payload.doc)) && db.initialized ==>
              var flat := Flatten(payload.doc, show);
              coll.State() == ApplyDetails(old(coll.State()), flat)
              && r == (if Lookup(old(coll.State()), KeyOf(flat)).Err? then map[] else flat)
    ensures payload.Record? ==>
              var flat := Flatten(payload.doc, show);
              db.initialized == ReadyAfterDetails(payload.doc, old(db.initialized), connect)
              && r == DetailsReply(old(coll.State()), flat, db.initialized)
              && coll.State() == DetailsStore(old(coll.State()), flat, db.initialized)
  {
    if payload.NotARecord? {
      return map[];
    }
    var pid := KeyOf(payload.doc);
    if !Truthy(pid) {
      return map[];
    }
    if !db.IsInitialized() {
      var _ := db.Initialize(connect);
    }
    var flat := Flatten(payload.doc, show);
    assert KeyOf(flat) == pid;
    if !db.IsInitialized() {
      // the mapper was never set up: the lookup raises
      return map[];
    }
    var found := Lookup(coll.State(), pid);
    match found {
      case Err(_) =>
        return map[];
      case Ok(None) =>
        if Conforms(flat) {
          coll.Add(flat);
        }
      case Ok(Some(i)) =>
        var diff := Diff(coll.docs[i], flat);
        if diff != map[] && !ChangesId(coll.docs[i], diff) {
          coll.Set(i, diff);
        }
    }
    r := flat;
  }

  /* ---------------- properties ---------------- */

  /** Listing save of a found document: every entry of the item, `None`
      values included, replaces the stored one; the document's other keys
      and all other documents are untouched. */
  lemma SaveOverwritesWholesale(s: StoreState, item: Document, i: nat)
    requires Of(ProductId) in item && Lookup(s, item[Of(ProductId)]) == Ok(Some(i))
    requires !ChangesId(s.docs[i], item)
    ensures |SaveOne(s, item).docs| == |s.docs|
    ensures forall k :: k in item ==> Get(SaveOne(s, item).docs[i], k) == item[k]
    ensures forall k :: k !in item ==> Get(SaveOne(s, item).docs[i], k) == Get(s.docs[i], k)
    ensures forall j :: 0 <= j < |s.docs| && j != i ==> SaveOne(s, item).docs[j] == s.docs[j]
  {
  }

  /** Listing save of an absent, valid item appends it; nothing else moves. */
  lemma SaveInsertsAbsent(s: StoreState, item: Document)
    requires Of(ProductId) in item && FindFirst(s.docs, item[Of(ProductId)]).None?
    requires Conforms(item)
    ensures var r := SaveOne(s, item);
      |r.docs| == |s.docs| + 1 && r.docs[..|s.docs|] == s.docs
      && (forall f :: Get(r.docs[|s.docs|], Of(f)) == Get(item, Of(f)))
      && FindFirst(r.docs, item[Of(ProductId)]) == Some(|s.docs|)
  {
    var r := SaveOne(s, item);
    assert r.docs[..|s.docs|] == s.docs;
    assert MongoEq(KeyOf(r.docs[|s.docs|]), item[Of(ProductId)]);
  }

  /** The only keys a record built by the extractors carries. */
  predicate SchemaOnly(d: Document)
  {
    forall k :: k in d ==> k.Of?
  }

  /** Saving the same schema-only item twice is the same as saving it once. */
  lemma SaveOneIdempotent(s: StoreState, item: Document)
    requires SchemaOnly(item)
    ensures SaveOne(SaveOne(s, item), item) == SaveOne(s, item)
  {
    if Of(ProductId) in item {
      var pid := item[Of(ProductId)];
      match Lookup(s, pid) {
        case Err(_) =>
        case Ok(None) =>
          if Conforms(item) {
            SecondSaveAfterInsert(s, item);
          }
        case Ok(Some(i)) =>
          if !ChangesId(s.docs[i], item) {
            SecondSaveAfterUpdate(s, item, i);
          }
      }
    }
  }

  lemma SecondSaveAfterInsert(s: StoreState, item: Document)
    requires SchemaOnly(item) && Of(ProductId) in item && Conforms(item)
    requires Lookup(s, item[Of(ProductId)]) == Ok(None)
    ensures SaveOne(Insert(s, item), item) == Insert(s, item)
  {
    var pid := item[Of(ProductId)];
    var s1 := Insert(s, item);
    var n := |s.docs|;
    var d := Normalize(item, s.nextId);
    assert s1.docs[n] == d;
    assert MongoEq(KeyOf(d), pid);
    FindFirstAppended(s.docs, d, pid);
    NormalizeConforms(item, s.nextId);
    NormalizeAbsorbs(item, s.nextId);
    assert s1.docs[n := d] == s1.docs;
  }

  /** Normalizing a conforming record gives a conforming document. */
  lemma NormalizeConforms(item: Document, id: nat)
    requires Conforms(item)
    ensures Conforms(Normalize(item, id))
  {
    var d := Normalize(item, id);
    forall f ensures FieldConforms(f, Get(d, Of(f))) {
      assert Get(d, Of(f)) == Get(item, Of(f));
    }
  }

  /** Writing a schema-only record over its own normalized form changes nothing. */
  lemma NormalizeAbsorbs(item: Document, id: nat)
    requires SchemaOnly(item)
    ensures Normalize(item, id) + item == Normalize(item, id)
  {
    var d := Normalize(item, id);
    forall k | k in item ensures k in d && d[k] == item[k] {
      assert k.Of?;
    }
  }

  lemma SecondSaveAfterUpdate(s: StoreState, item: Document, i: nat)
    requires Of(ProductId) in item
    requires Lookup(s, item[Of(ProductId)]) == Ok(Some(i)) && !ChangesId(s.docs[i], item)
    ensures SaveOne(Update(s, i, item), item) == Update(s, i, item)
  {
    var pid := item[Of(ProductId)];
    var s1 := Update(s, i, item);
    var d := s1.docs[i];
    assert MongoEq(KeyOf(d), pid);
    assert FindFirst(s1.docs, pid) == Some(i) by {
      forall j | 0 <= j < i ensures !MongoEq(KeyOf(s1.docs[j]), pid) {
        assert s1.docs[j] == s.docs[j];
      }
    }
    if Conforms(d) {
      assert Lookup(s1, pid) == Ok(Some(i));
      assert !ChangesId(d, item);
      assert d + item == d;
      assert s1.docs[i := d] == s1.docs;
    }
  }

  /** Detail update of a found document: a `None` incoming value never
      replaces a stored one, and keys the record does not carry keep their
      stored values. */
  lemma DetailsNeverWriteNull(s: StoreState, flat: Document, i: nat)
    requires Lookup(s, KeyOf(flat)) == Ok(Some(i))
    ensures |ApplyDetails(s, flat).docs| == |s.docs|
    ensures forall k :: Get(flat, k) == Null ==> Get(ApplyDetails(s, flat).docs[i], k) == Get(s.docs[i], k)
    ensures forall j :: 0 <= j < |s.docs| && j != i ==> ApplyDetails(s, flat).docs[j] == s.docs[j]
  {
  }

  /** Detail update of a found document: afterwards every non-`None`
      incoming schema value is what the document holds, unless the write
      was refused because it would have changed the id. */
  lemma DetailsReflectIncoming(s: StoreState, flat: Document, i: nat)
    requires Lookup(s, KeyOf(flat)) == Ok(Some(i))
    requires !ChangesId(s.docs[i], Diff(s.docs[i], flat))
    ensures forall f :: Get(flat, Of(f)) != Null ==> Get(ApplyDetails(s, flat).docs[i], Of(f)) == Get(flat, Of(f))
  {
    forall f | Get(flat, Of(f)) != Null
      ensures Get(ApplyDetails(s, flat).docs[i], Of(f)) == Get(flat, Of(f))
    {
      if Of(f) !in Diff(s.docs[i], flat) {
        assert flat[Of(f)] == StoredAttr(s.docs[i], Of(f));
      }
    }
  }

  /** No changed field, no write: a record that agrees with the stored
      document on all its non-`None` values leaves the store as it was. */
  lemma DetailsNoChangeNoWrite(s: StoreState, flat: Document, i: nat)
    requires Lookup(s, KeyOf(flat)) == Ok(Some(i))
    requires forall k :: k in flat && flat[k] != Null ==> flat[k] == StoredAttr(s.docs[i], k)
    ensures ApplyDetails(s, flat) == s
  {
    assert Diff(s.docs[i], flat) == map[];
  }

  /** Applying the same detail record twice changes the store no more than
      applying it once. */
  lemma {:induction false} DetailsIdempotent(s: StoreState, flat: Document)
    requires SchemaOnly(flat) && Truthy(KeyOf(flat))
    ensures ApplyDetails(ApplyDetails(s, flat), flat) == ApplyDetails(s, flat)
  {
    match Lookup(s, KeyOf(flat)) {
      case Err(_) =>
      case Ok(None) =>
        if Conforms(flat) {
          InsertedDetailsStay(s, flat);
        }
      case Ok(Some(i)) =>
        var diff := Diff(s.docs[i], flat);
        if diff != map[] && !ChangesId(s.docs[i], diff) {
          UpdatedDetailsStay(s, flat, i);
        }
    }
  }

  /** After an insert, the record is found at the end and agrees with it. */
  lemma InsertedDetailsStay(s: StoreState, flat: Document)
    requires SchemaOnly(flat) && Truthy(KeyOf(flat)) && Conforms(flat)
    requires Lookup(s, KeyOf(flat)) == Ok(None)
    ensures ApplyDetails(ApplyDetails(s, flat), flat) == ApplyDetails(s, flat)
  {
    var pid := KeyOf(flat);
    var s1 := ApplyDetails(s, flat);
    var n := |s.docs|;
    var d := s1.docs[n];
    assert MongoEq(KeyOf(d), pid);
    FindFirstAppended(s.docs, d, pid);
    assert Diff(d, flat) == map[];
  }

  /** After an update of document `i`, it is still the first match and
      agrees with the record. */
  lemma UpdatedDetailsStay(s: StoreState, flat: Document, i: nat)
    requires SchemaOnly(flat) && Truthy(KeyOf(flat))
    requires Lookup(s, KeyOf(flat)) == Ok(Some(i))
    requires Diff(s.docs[i], flat) != map[] && !ChangesId(s.docs[i], Diff(s.docs[i], flat))
    ensures ApplyDetails(ApplyDetails(s, flat), flat) == ApplyDetails(s, flat)
  {
    var pid := KeyOf(flat);
    var s1 := ApplyDetails(s, flat);
    var diff := Diff(s.docs[i], flat);
    var d := s1.docs[i];
    assert KeyOf(d) == pid by {
      assert Of(ProductId) in flat;
    }
    assert FindFirst(s1.docs, pid) == Some(i) by {
      forall j | 0 <= j < i ensures !MongoEq(KeyOf(s1.docs[j]), pid) {
        assert s1.docs[j] == s.docs[j];
      }
    }
    assert Diff(d, flat) == map[] by {
      forall k | k in flat && flat[k] != Null ensures flat[k] == StoredAttr(d, k) {
        if k !in diff {
          assert flat[k] == StoredAttr(s.docs[i], k);
        }
      }
    }
  }

  /** The store holds at most one document per `product_id`, and keys are
      plain values (not lists), so a lookup means a single document. */
  predicate KeyedByProductId(docs: seq<Document>)
  {
    && (forall i :: 0 <= i < |docs| ==> !KeyOf(docs[i]).List?)
    && (forall i, j :: 0 <= i < j < |docs| ==> KeyOf(docs[i]) != KeyOf(docs[j]))
  }

  /** The detail update keeps the store keyed by `product_id`. */
  lemma DetailsKeepKeys(s: StoreState, flat: Document)
    requires KeyedByProductId(s.docs) && !KeyOf(flat).List? && Truthy(KeyOf(flat))
    ensures KeyedByProductId(ApplyDetails(s, flat).docs)
  {
    var pid := KeyOf(flat);
    match Lookup(s, pid) {
      case Err(_) =>
      case Ok(None) =>
        if Conforms(flat) {
          var r := ApplyDetails(s, flat);
          assert forall j :: 0 <= j < |s.docs| ==> r.docs[j] == s.docs[j];
          assert KeyOf(r.docs[|s.docs|]) == pid;
        }
      case Ok(Some(i)) =>
        var r := ApplyDetails(s, flat);
        assert KeyOf(r.docs[i]) == KeyOf(s.docs[i]) by {
          assert KeyOf(s.docs[i]) == pid;
          assert Of(ProductId) in flat;
        }
        assert forall j :: 0 <= j < |s.docs| ==> KeyOf(r.docs[j]) == KeyOf(s.docs[j]);
    }
  }

  /** The listing save keeps the store keyed by `product_id` too. */
  lemma SaveKeepsKeys(s: StoreState, item: Document)
    requires KeyedByProductId(s.docs)
    requires Of(ProductId) in item ==> !item[Of(ProductId)].List?
    ensures KeyedByProductId(SaveOne(s, item).docs)
  {
    if Of(ProductId) in item {
      var pid := item[Of(ProductId)];
      var r := SaveOne(s, item);
      match Lookup(s, pid) {
        case Err(_) =>
        case Ok(None) =>
          if Conforms(item) {
            assert forall j :: 0 <= j < |s.docs| ==> r.docs[j] == s.docs[j];
            assert KeyOf(r.docs[|s.docs|]) == pid;
          }
        case Ok(Some(i)) =>
          if !ChangesId(s.docs[i], item) {
            assert KeyOf(r.docs[i]) == KeyOf(s.docs[i]);
            assert forall j :: 0 <= j < |s.docs| ==> KeyOf(r.docs[j]) == KeyOf(s.docs[j]);
          }
      }
    }
  }

  /** A whole listing save keeps the store keyed by `product_id`. */
  lemma {:induction false} SaveAllKeepsKeys(s: StoreState, items: seq<Document>)
    requires KeyedByProductId(s.docs)
    requires forall k :: 0 <= k < |items| && Of(ProductId) in items[k] ==> !items[k][Of(ProductId)].List?
    ensures KeyedByProductId(SaveAll(s, items).docs)
    decreases |items|
  {
    if items != [] {
      SaveAllKeepsKeys(s, items[..|items| - 1]);
      SaveKeepsKeys(SaveAll(s, items[..|items| - 1]), items[|items| - 1]);
    }
  }

  /** The two engines differ on `None`: for a found document and an
      incoming `None`, the listing save stores `None` while the detail
      update keeps the stored value. */
  lemma WholesaleVersusDiff(s: StoreState, item: Document, i: nat, k: Key)
    requires Of(ProductId) in item && Lookup(s, item[Of(ProductId)]) == Ok(Some(i))
    requires !ChangesId(s.docs[i], item)
    requires k in item && item[k] == Null
    ensures Get(SaveOne(s, item).docs[i], k) == Null
    ensures Get(ApplyDetails(s, item).docs[i], k) == Get(s.docs[i], k)
  {
    DetailsNeverWriteNull(s, item, i);
  }

  /** Records from two platforms that share a `product_id` share one
      document: saving the second overwrites the first's `source`. */
  lemma PlatformsShareDocuments(s: StoreState, item: Document, i: nat)
    requires i < |s.docs| && Conforms(s.docs[i]) && KeyedByProductId(s.docs)
    requires Of(ProductId) in item && item[Of(ProductId)] == KeyOf(s.docs[i])
    requires Get(s.docs[i], Of(Source)) == Str("vinted") && Get(item, Of(Source)) == Str("amazon")
    requires !ChangesId(s.docs[i], item)
    ensures |SaveOne(s, item).docs| == |s.docs|
    ensures Get(SaveOne(s, item).docs[i], Of(Source)) == Str("amazon")
  {
    var pid := item[Of(ProductId)];
    assert FindFirst(s.docs, pid) == Some(i) by {
      forall j | 0 <= j < i ensures !MongoEq(KeyOf(s.docs[j]), pid) {
      }
    }
  }
}
