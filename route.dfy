/** The scraping endpoints: the registry of platform adapters, the
    dispatch of a search or detail request to one of them, and the search
    over every registered platform with per-platform failure isolation. */
module Route {
  import opened Values
  import opened Page
  import opened Store
  import opened Database
  import opened Upsert
  import Adapter
  import Vinted
  import Amazon

  /** The registered adapters. */
  datatype Platform = VintedAdapter | AmazonAdapter

  /** `PLATFORM_SCRAPERS`, in registration order. */
  const Registry: seq<(string, Platform)> := [("vinted", VintedAdapter), ("amazon", AmazonAdapter)]

  /** The adapter registered under `name`, if any. */
  function Lookup(name: string): (r: Option<Platform>)
    ensures r.Some? <==> exists i :: 0 <= i < |Registry| && Registry[i].0 == name
    ensures r.Some? ==> exists i :: 0 <= i < |Registry| && Registry[i] == (name, r.value)
  {
    if name == "vinted" then assert Registry[0] == (name, VintedAdapter); Some(VintedAdapter)
    else if name == "amazon" then assert Registry[1] == (name, AmazonAdapter); Some(AmazonAdapter)
    else None
  }

  /** `get_platforms`: the registered names, in registration order. */
  function GetPlatforms(): (r: seq<string>)
    ensures |r| == |Registry| && forall i :: 0 <= i < |r| ==> r[i] == Registry[i].0
    ensures forall name :: name in r <==> Lookup(name).Some?
  {
    seq(|Registry|, i requires 0 <= i < |Registry| => Registry[i].0)
  }

  /** The listing selector and the result parser of each adapter. */
  function ItemSelOf(p: Platform): Selector
  {
    match p
    case VintedAdapter => VintedItem
    case AmazonAdapter => AmazonItem
  }

  function ParserOf(p: Platform): Node -> Option<Document>
  {
    match p
    case VintedAdapter => Vinted.ParseItem
    case AmazonAdapter => Amazon.ParseItem
  }

  /** What an adapter's `search` returns for the page its driver fetched. */
  function Outcome(p: Platform, fetch: Fetch, limit: int): Result<seq<Document>>
  {
    Adapter.SearchResult(fetch, ItemSelOf(p), limit, ParserOf(p))
  }

  /** The whole effect of the adapter `p`'s search: its result, and the
      store and connection flag after it saved what it kept. */
  function SearchEffectOf(p: Platform, fetch: Fetch, limit: int,
                          s: StoreState, wasReady: bool, connect: ConnectOutcome): Effect
  {
    Adapter.SearchEffect(fetch, ItemSelOf(p), limit, ParserOf(p), s, wasReady, connect)
  }

  /** `scraper.search(query, limit)` on the adapter `p`. */
  method PlatformSearch(db: DatabaseManager, coll: Collection, p: Platform, fetch: Fetch, limit: int,
                        connect: ConnectOutcome)
    returns (r: Result<seq<Document>>)
    requires db.Valid()
    modifies db, coll
    ensures db.Valid()
    ensures r == Outcome(p, fetch, limit)
    ensures var e := SearchEffectOf(p, fetch, limit, old(coll.State()), old(db.initialized), connect);
            r == e.reply && coll.State() == e.store && db.initialized == e.ready
  {
    match p {
      case VintedAdapter =>
        r := Vinted.Search(db, coll, fetch, limit, connect);
      case AmazonAdapter =>
        r := Amazon.Search(db, coll, fetch, limit, connect);
    }
  }

  /* ---------------- search over every platform ---------------- */

  /** One entry of the aggregate's error list. */
  datatype PlatformError = PlatformError(platform: string, error: string)

  /** The aggregate: the per-platform results alone when nothing failed,
      or wrapped together with the errors. */
  datatype Aggregate =
    | Plain(results: seq<(string, seq<Document>)>)
    | WithErrors(results: seq<(string, seq<Document>)>, errors: seq<PlatformError>)

  /** The result entries of the first `n` registered platforms: a failed
      platform gets an empty list. */
  function EntriesUpTo(fetches: Platform -> Fetch, limit: int, n: nat): (r: seq<(string, seq<Document>)>)
    requires n <= |Registry|
    ensures |r| == n
    ensures forall i :: 0 <= i < n ==> r[i].0 == Registry[i].0
  {
    if n == 0 then []
    else
      var (name, p) := Registry[n - 1];
      var o := Outcome(p, fetches(p), limit);
      EntriesUpTo(fetches, limit, n - 1) + [(name, if o.Ok? then o.value else [])]
  }

  /** The errors of the first `n` registered platforms, in order. */
  function ErrorsUpTo(fetches: Platform -> Fetch, limit: int, n: nat): (r: seq<PlatformError>)
    requires n <= |Registry|
    ensures |r| <= n
  {
    if n == 0 then []
    else
      var (name, p) := Registry[n - 1];
      var o := Outcome(p, fetches(p), limit);
      ErrorsUpTo(fetches, limit, n - 1) + (if o.Err? then [PlatformError(name, o.message)] else [])
  }

  /** The store and connection flag after searching the first `n`
      registered platforms in turn, each saving what it kept. */
  function SearchedUpTo(fetches: Platform -> Fetch, limit: int, n: nat,
                        s: StoreState, wasReady: bool, connect: ConnectOutcome): (StoreState, bool)
    requires n <= |Registry|
  {
    if n == 0 then (s, wasReady)
    else
      var (s', ready) := SearchedUpTo(fetches, limit, n - 1, s, wasReady, connect);
      var p := Registry[n - 1].1;
      var e := SearchEffectOf(p, fetches(p), limit, s', ready, connect);
      (e.store, e.ready)
  }

  /** Searching the registered platforms in turn keeps at most one
      document per `product_id`. */
  lemma {:induction false} SearchAllKeepsKeys(fetches: Platform -> Fetch, limit: int, n: nat,
                                              s: StoreState, wasReady: bool, connect: ConnectOutcome)
    requires n <= |Registry| && KeyedByProductId(s.docs)
    ensures KeyedByProductId(SearchedUpTo(fetches, limit, n, s, wasReady, connect).0.docs)
  {
    if n > 0 {
      SearchAllKeepsKeys(fetches, limit, n - 1, s, wasReady, connect);
      var (s', ready) := SearchedUpTo(fetches, limit, n - 1, s, wasReady, connect);
      var p := Registry[n - 1].1;
      ParsedIdsAreText(p);
      Adapter.SearchKeepsKeys(fetches(p), ItemSelOf(p), limit, ParserOf(p), s', ready, connect);
    }
  }

  /** Both parsers give every record a text id. */
  lemma ParsedIdsAreText(p: Platform)
    ensures forall n :: ParserOf(p)(n).Some? ==>
              Of(ProductId) in ParserOf(p)(n).value && ParserOf(p)(n).value[Of(ProductId)].Str?
  {
    forall n | ParserOf(p)(n).Some?
      ensures Of(ProductId) in ParserOf(p)(n).value && ParserOf(p)(n).value[Of(ProductId)].Str?
    {
      match p
      case VintedAdapter => Vinted.ParsedIdIsText(n);
      case AmazonAdapter => Amazon.ParsedIdIsText(n);
    }
  }

  /** The aggregate over the whole registry. */
  function AggregateOf(fetches: Platform -> Fetch, limit: int): Aggregate
  {
    var entries := EntriesUpTo(fetches, limit, |Registry|);
    var errors := ErrorsUpTo(fetches, limit, |Registry|);
    if errors == [] then Plain(entries) else WithErrors(entries, errors)
  }

  /** `search_all_platforms`: every platform is searched in registry order
      (each on the page its own driver fetched); a failure is recorded and
      the loop goes on; the reply is a one-element list. */
  method SearchAllPlatforms(db: DatabaseManager, coll: Collection, fetches: Platform -> Fetch, limit: int,
                            connect: ConnectOutcome)
    returns (r: seq<Aggregate>)
    requires db.Valid()
    modifies db, coll
    ensures db.Valid()
    ensures r == [AggregateOf(fetches, limit)]
    ensures (coll.State(), db.initialized)
            == SearchedUpTo(fetches, limit, |Registry|, old(coll.State()), old(db.initialized), connect)
  {
    var results: seq<(string, seq<Document>)> := [];
    var errors: seq<PlatformError> := [];
    var i := 0;
    while i < |Registry|
      invariant 0 <= i <= |Registry|
      invariant db.Valid()
      invariant results == EntriesUpTo(fetches, limit, i)
      invariant errors == ErrorsUpTo(fetches, limit, i)
      invariant (coll.State(), db.initialized)
                == SearchedUpTo(fetches, limit, i, old(coll.State()), old(db.initialized), connect)
      modifies db, coll
    {
      var (name, p) := Registry[i];
      var found := PlatformSearch(db, coll, p, fetches(p), limit, connect);
      match found {
        case Ok(items) =>
          results := results + [(name, items)];
        case Err(m) =>
          errors := errors + [PlatformError(name, m)];
          results := results + [(name, [])];
      }
      i := i + 1;
    }
    if errors == [] {
      r := [Plain(results)];
    } else {
      r := [WithErrors(results, errors)];
    }
  }

  /** Every registered platform gets an entry, in registry order: its
      results when its search succeeded, an empty list when it failed. */
  lemma AggregateEntries(fetches: Platform -> Fetch, limit: int)
    ensures var a := AggregateOf(fetches, limit);
      && |a.results| == |Registry|
      && forall i :: 0 <= i < |Registry| ==>
           var (name, p) := Registry[i];
           var o := Outcome(p, fetches(p), limit);
           a.results[i] == (name, if o.Ok? then o.value else [])
  {
    EntriesAt(fetches, limit, |Registry|);
  }

  lemma {:induction false} EntriesAt(fetches: Platform -> Fetch, limit: int, n: nat)
    requires n <= |Registry|
    ensures forall i :: 0 <= i < n ==>
              var (name, p) := Registry[i];
              var o := Outcome(p, fetches(p), limit);
              EntriesUpTo(fetches, limit, n)[i] == (name, if o.Ok? then o.value else [])
  {
    if n > 0 {
      EntriesAt(fetches, limit, n - 1);
    }
  }

  /** A platform fails exactly when an error naming it, with its message,
      is in the list. */
  lemma {:induction false} ErrorsExactly(fetches: Platform -> Fetch, limit: int, n: nat)
    requires n <= |Registry|
    ensures forall e :: e in ErrorsUpTo(fetches, limit, n) <==>
              exists i :: 0 <= i < n && Registry[i].0 == e.platform
                          && Outcome(Registry[i].1, fetches(Registry[i].1), limit) == Err(e.error)
  {
    if n > 0 {
      ErrorsExactly(fetches, limit, n - 1);
    }
  }

  /** The aggregate has the plain shape exactly when no platform failed. */
  lemma PlainIffNoFailure(fetches: Platform -> Fetch, limit: int)
    ensures AggregateOf(fetches, limit).Plain? <==>
              forall p :: Outcome(p, fetches(p), limit).Ok?
  {
    var errors := ErrorsUpTo(fetches, limit, |Registry|);
    ErrorsExactly(fetches, limit, |Registry|);
    forall p | Outcome(p, fetches(p), limit).Err? ensures errors != [] {
      var i := if p == VintedAdapter then 0 else 1;
      assert Registry[i].1 == p;
      assert PlatformError(Registry[i].0, Outcome(p, fetches(p), limit).message) in errors;
    }
    if errors != [] {
      assert errors[0] in errors;
    }
  }

  /* ---------------- the endpoints ---------------- */

  /** What an endpoint answers: an adapter's list, the aggregate, or an
      HTTP error with its status code and detail. */
  datatype Response =
    | Listing(items: seq<Document>)
    | Aggregated(replies: seq<Aggregate>)
    | HttpError(code: int, detail: string)

  /** The detail of the unknown-platform error. */
  function Unsupported(platform: string): string
  {
    "Platform '" + platform + "' not supported."
  }

  /** `search_products`: "all" goes to the aggregate; an unknown platform
      is a 400; an adapter failure is a 500 carrying its message; otherwise
      the adapter's list, unchanged. */
  method SearchProducts(db: DatabaseManager, coll: Collection, platform: string, fetches: Platform -> Fetch,
                        limit: int, connect: ConnectOutcome)
    returns (r: Response)
    requires db.Valid()
    modifies db, coll
    ensures db.Valid()
    ensures platform == "all" ==>
              r == Aggregated([AggregateOf(fetches, limit)])
              && (coll.State(), db.initialized)
                 == SearchedUpTo(fetches, limit, |Registry|, old(coll.State()), old(db.initialized), connect)
    ensures platform != "all" && Lookup(platform).None? ==>
              r == HttpError(400, Unsupported(platform))
              && coll.State() == old(coll.State()) && db.initialized == old(db.initialized)
    ensures platform != "all" && Lookup(platform).Some? ==>
              var p := Lookup(platform).value;
              var o := Outcome(p, fetches(p), limit);
              r == (if o.Ok? then Listing(o.value) else HttpError(500, o.message))
    ensures platform != "all" && Lookup(platform).Some? ==>
              var p := Lookup(platform).value;
              var e := SearchEffectOf(p, fetches(p), limit, old(coll.State()), old(db.initialized), connect);
              coll.State() == e.store && db.initialized == e.ready
  {
    if platform == "all" {
      var agg := SearchAllPlatforms(db, coll, fetches, limit, connect);
      return Aggregated(agg);
    }
    var p := Lookup(platform);
    if p.None? {
      return HttpError(400, Unsupported(platform));
    }
    var found := PlatformSearch(db, coll, p.value, fetches(p.value), limit, connect);
    match found {
      case Ok(items) => return Listing(items);
      case Err(m) => return HttpError(500, m);
    }
  }

  /** The whole effect of the adapter `p`'s `get_detail`. */
  function DetailEffectOf(p: Platform, fetch: Fetch, today: string, show: Value -> string,
                          s: StoreState, wasReady: bool, connect: ConnectOutcome): Effect
  {
    match p
    case VintedAdapter => Vinted.DetailEffect(fetch, today, show, s, wasReady, connect)
    case AmazonAdapter => Amazon.DetailEffect(fetch, show, s, wasReady, connect)
  }

  /** `get_product_detail`: no "all" case, so it is an unknown platform
      like any other; an adapter failure is a 500; otherwise the adapter's
      detail reply. */
  method GetProductDetail(db: DatabaseManager, coll: Collection, platform: string, fetch: Fetch,
                          today: string, connect: ConnectOutcome, show: Value -> string)
    returns (r: Response)
    requires db.Valid()
    modifies db, coll
    ensures db.Valid()
    ensures Lookup(platform).None? ==>
              r == HttpError(400, Unsupported(platform))
              && coll.State() == old(coll.State()) && db.initialized == old(db.initialized)
    ensures platform == "all" ==> r == HttpError(400, Unsupported("all"))
    ensures fetch.Unparsable? && Lookup(platform).Some? ==> r == HttpError(500, fetch.message)
    ensures fetch.NoContent? && Lookup(platform).Some? ==> r == Listing([])
    ensures Lookup(platform).Some? ==>
              var e := DetailEffectOf(Lookup(platform).value, fetch, today, show,
                                      old(coll.State()), old(db.initialized), connect);
              r == (if e.reply.Ok? then Listing(e.reply.value) else HttpError(500, e.reply.message))
              && coll.State() == e.store && db.initialized == e.ready
  {
    var p := Lookup(platform);
    if p.None? {
      return HttpError(400, Unsupported(platform));
    }
    var detail: Result<seq<Document>>;
    match p.value {
      case VintedAdapter =>
        detail := Vinted.GetDetail(db, coll, fetch, today, connect, show);
      case AmazonAdapter =>
        detail := Amazon.GetDetail(db, coll, fetch, connect, show);
    }
    match detail {
      case Ok(items) => return Listing(items);
      case Err(m) => return HttpError(500, m);
    }
  }
}
