/** What the two platform adapters share: slicing the listing to `limit`,
    keeping the records that parse, and the search step that saves what
    was kept. */
module Adapter {
  import opened Values
  import opened Page
  import opened Store
  import opened Database
  import opened Upsert

  /** `xs[:limit]`: the first `limit` elements; a negative limit drops that
      many from the end instead. */
  function PySlice<T>(xs: seq<T>, limit: int): (r: seq<T>)
    ensures |r| <= |xs| && r == xs[..|r|]
    ensures limit >= 0 ==> |r| == (if limit < |xs| then limit else |xs|)
    ensures limit < 0 ==> |r| == (if |xs| + limit > 0 then |xs| + limit else 0)
  {
    if limit >= 0 then (if limit < |xs| then xs[..limit] else xs)
    else if |xs| + limit > 0 then xs[..|xs| + limit] else []
  }

  /** The parsed values, dropping the `None`s, in order. */
  function Somes<T>(xs: seq<Option<T>>): (r: seq<T>)
    ensures |r| <= |xs|
    ensures forall y :: y in r ==> Some(y) in xs
    ensures forall k :: 0 <= k < |xs| && xs[k].Some? ==> xs[k].value in r
  {
    if xs == [] then []
    else
      var init := Somes(xs[..|xs| - 1]);
      assert forall k :: 0 <= k < |xs| - 1 ==> xs[..|xs| - 1][k] == xs[k];
      match xs[|xs| - 1]
      case None => init
      case Some(y) => init + [y]
  }

  /** Keeping commutes with concatenation, so page order is preserved. */
  lemma {:induction false} SomesAppend<T>(xs: seq<Option<T>>, ys: seq<Option<T>>)
    ensures Somes(xs + ys) == Somes(xs) + Somes(ys)
    decreases |ys|
  {
    if ys == [] {
      assert xs + ys == xs;
    } else {
      SomesAppend(xs, ys[..|ys| - 1]);
      assert (xs + ys)[..|xs + ys| - 1] == xs + ys[..|ys| - 1];
    }
  }

  /** The parser applied to every node. */
  function ParseAll(nodes: seq<Node>, parse: Node -> Option<Document>): (r: seq<Option<Document>>)
    ensures |r| == |nodes| && forall k :: 0 <= k < |nodes| ==> r[k] == parse(nodes[k])
  {
    seq(|nodes|, k requires 0 <= k < |nodes| => parse(nodes[k]))
  }

  /** The listing loop: parse each node and append what parses. */
  method Collect(nodes: seq<Node>, parse: Node -> Option<Document>) returns (kept: seq<Document>)
    ensures kept == Somes(ParseAll(nodes, parse))
  {
    kept := [];
    var i := 0;
    while i < |nodes|
      invariant 0 <= i <= |nodes|
      invariant kept == Somes(ParseAll(nodes[..i], parse))
    {
      var parsed := parse(nodes[i]);
      SomesAppend(ParseAll(nodes[..i], parse), [parsed]);
      assert ParseAll(nodes[..i + 1], parse) == ParseAll(nodes[..i], parse) + [parsed];
      if parsed.Some? {
        kept := kept + [parsed.value];
      }
      i := i + 1;
    }
    assert nodes[..i] == nodes;
  }

  /** What a platform search returns for a fetched page: nothing for an
      empty page, the parser's exception for a page it rejects, and
      otherwise the records that parse among the first `limit` listing
      nodes, in page order. */
  function SearchResult(fetch: Fetch, itemSel: Selector, limit: int,
                        parse: Node -> Option<Document>): (r: Result<seq<Document>>)
    ensures fetch.NoContent? ==> r == Ok([])
    ensures fetch.Unparsable? ==> r == Err(fetch.message)
    ensures fetch.Loaded? ==> r.Ok? && |r.value| <= |PySlice(Select(fetch.page, itemSel), limit)|
  {
    match fetch
    case NoContent => Ok([])
    case Unparsable(m) => Err(m)
    case Loaded(page) => Ok(Somes(ParseAll(PySlice(Select(page, itemSel), limit), parse)))
  }

  /** `search`: fetch, slice, parse and keep; save only when something was
      kept. The result does not depend on the store. */
  method Search(db: DatabaseManager, coll: Collection, fetch: Fetch, itemSel: Selector, limit: int,
                parse: Node -> Option<Document>, connect: ConnectOutcome)
    returns (r: Result<seq<Document>>)
    requires db.Valid()
    modifies db, coll
    ensures db.Valid()
    ensures r == SearchResult(fetch, itemSel, limit, parse)
    ensures (r.Err? || r.value == []) ==>
              coll.State() == old(coll.State()) && db.initialized == old(db.initialized)
    ensures r.Ok? && r.value != [] ==>
              db.initialized == (old(db.initialized) || connect == Connected)
              && coll.State() == (if db.initialized then SaveAll(old(coll.State()), r.value)
                                  else old(coll.State()))
    ensures var e := SearchEffect(fetch, itemSel, limit, parse, old(coll.State()), old(db.initialized), connect);
            r == e.reply && coll.State() == e.store && db.initialized == e.ready
  {
    match fetch {
      case NoContent =>
        r := Ok([]);
      case Unparsable(m) =>
        r := Err(m);
      case Loaded(page) =>
        var items := Select(page, itemSel);
        var kept := Collect(PySlice(items, limit), parse);
        if kept != [] {
          SaveToMongo(db, coll, kept, connect);
        }
        r := Ok(kept);
    }
    EffectOfSearch(fetch, itemSel, limit, parse, old(coll.State()), old(db.initialized), connect,
                   r, coll.State(), db.initialized);
  }

  /** The whole effect of a search on a store `s` and a connection flag:
      the result, and the store and flag after saving what was kept. */
  function SearchEffect(fetch: Fetch, itemSel: Selector, limit: int, parse: Node -> Option<Document>,
                        s: StoreState, wasReady: bool, connect: ConnectOutcome): Effect
  {
    var r := SearchResult(fetch, itemSel, limit, parse);
    if r.Err? || r.value == [] then Effect(r, s, wasReady)
    else
      var ready := wasReady || connect == Connected;
      Effect(r, if ready then SaveAll(s, r.value) else s, ready)
  }

  /** A result, store and flag that behave as a search does are its effect. */
  lemma EffectOfSearch(fetch: Fetch, itemSel: Selector, limit: int, parse: Node -> Option<Document>,
                       s: StoreState, wasReady: bool, connect: ConnectOutcome,
                       r: Result<seq<Document>>, s': StoreState, ready: bool)
    requires r == SearchResult(fetch, itemSel, limit, parse)
    requires r.Err? || r.value == [] ==> s' == s && ready == wasReady
    requires r.Ok? && r.value != [] ==>
               ready == (wasReady || connect == Connected) && s' == (if ready then SaveAll(s, r.value) else s)
    ensures SearchEffect(fetch, itemSel, limit, parse, s, wasReady, connect) == Effect(r, s', ready)
  {
  }

  /** A search whose parser yields only text ids keeps at most one
      document per `product_id`. */
  lemma SearchKeepsKeys(fetch: Fetch, itemSel: Selector, limit: int, parse: Node -> Option<Document>,
                        s: StoreState, wasReady: bool, connect: ConnectOutcome)
    requires KeyedByProductId(s.docs)
    requires forall n :: parse(n).Some? ==> Of(ProductId) in parse(n).value && parse(n).value[Of(ProductId)].Str?
    ensures KeyedByProductId(SearchEffect(fetch, itemSel, limit, parse, s, wasReady, connect).store.docs)
  {
    var r := SearchResult(fetch, itemSel, limit, parse);
    if r.Ok? && r.value != [] && (wasReady || connect == Connected) {
      var nodes := PySlice(Select(fetch.page, itemSel), limit);
      var ps := ParseAll(nodes, parse);
      forall k | 0 <= k < |r.value|
        ensures Of(ProductId) in r.value[k] ==> !r.value[k][Of(ProductId)].List?
      {
        assert r.value[k] in Somes(ps);
        var j :| 0 <= j < |ps| && ps[j] == Some(r.value[k]);
        assert parse(nodes[j]) == Some(r.value[k]);
      }
      SaveAllKeepsKeys(s, r.value);
    }
  }

  /** Everything a search returns came out of the parser, and every node
      that parses is returned. */
  lemma SearchKeepsExactlyParsed(page: Node, itemSel: Selector, limit: int,
                                 parse: Node -> Option<Document>, d: Document)
    ensures var r := SearchResult(Loaded(page), itemSel, limit, parse);
            var nodes := PySlice(Select(page, itemSel), limit);
            d in r.value <==> exists k :: 0 <= k < |nodes| && parse(nodes[k]) == Some(d)
  {
    var nodes := PySlice(Select(page, itemSel), limit);
    var ps := ParseAll(nodes, parse);
    if d in Somes(ps) {
      assert Some(d) in ps;
      var k :| 0 <= k < |ps| && ps[k] == Some(d);
      assert parse(nodes[k]) == Some(d);
    }
  }
}
