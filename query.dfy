/** The read side over the product collection: a query object that binds
    the collection once, the fuzzy category filter, the formatting pass that
    exposes each record's id as text, and the store-side filters (by source,
    name, brand, condition, description keywords, and pagination). */
module Query {
  import opened Values
  import opened Text
  import opened Store
  import opened Database

  /* ---------------- records as they are returned ---------------- */

  /** The record with `id` set to the text of its `_id`. */
  function WithId(d: Document, show: Value -> string): (r: Document)
    requires MongoId in d
    ensures DisplayId in r && r[DisplayId] == Str(PyStr(d[MongoId], show))
    ensures forall k :: k != DisplayId ==> (k in r <==> k in d)
    ensures forall k :: k != DisplayId && k in d ==> r[k] == d[k]
  {
    d[DisplayId := Str(PyStr(d[MongoId], show))]
  }

  /** `__format_results`: every record that has an `_id` gets its `id`;
      a record without one makes the assignment raise and is dropped. */
  function Format(results: seq<Document>, show: Value -> string): (r: seq<Document>)
    ensures |r| <= |results|
  {
    if results == [] then []
    else
      var init := results[..|results| - 1];
      var d := results[|results| - 1];
      Format(init, show) + (if MongoId in d then [WithId(d, show)] else [])
  }

  /** Every formatted record comes from a record with an `_id`, and every
      record with an `_id` is formatted. */
  lemma {:induction false} FormatMembers(results: seq<Document>, show: Value -> string)
    ensures forall x :: x in Format(results, show) ==>
              exists k :: 0 <= k < |results| && MongoId in results[k] && x == WithId(results[k], show)
    ensures forall k :: 0 <= k < |results| && MongoId in results[k] ==> WithId(results[k], show) in Format(results, show)
    decreases |results|
  {
    if results != [] {
      var init := results[..|results| - 1];
      var d := results[|results| - 1];
      FormatMembers(init, show);
      assert forall k :: 0 <= k < |init| ==> init[k] == results[k];
      var extra := if MongoId in d then [WithId(d, show)] else [];
      assert Format(results, show) == Format(init, show) + extra;
    }
  }

  /** The formatting loop. */
  method FormatResults(results: seq<Document>, show: Value -> string) returns (formatted: seq<Document>)
    ensures formatted == Format(results, show)
  {
    formatted := [];
    var i := 0;
    while i < |results|
      invariant 0 <= i <= |results|
      invariant formatted == Format(results[..i], show)
    {
      var result := results[i];
      assert results[..i + 1][..i] == results[..i];
      if MongoId in result {
        formatted := formatted + [WithId(result, show)];
      }
      i := i + 1;
    }
    assert results[..i] == results;
  }

  /** Formatting keeps the order of the records it is given. */
  lemma {:induction false} FormatAppend(a: seq<Document>, b: seq<Document>, show: Value -> string)
    ensures Format(a + b, show) == Format(a, show) + Format(b, show)
    decreases |b|
  {
    if b == [] {
      assert a + b == a;
    } else {
      var b' := b[..|b| - 1];
      var d := b[|b| - 1];
      FormatAppend(a, b', show);
      assert (a + b)[..|a + b| - 1] == a + b';
      assert (a + b)[|a + b| - 1] == d;
      var extra := if MongoId in d then [WithId(d, show)] else [];
      assert Format(a + b, show) == Format(a + b', show) + extra;
      assert Format(b, show) == Format(b', show) + extra;
    }
  }

  /** When every record has an `_id` (as every stored one does), nothing is
      dropped and each record keeps its place. */
  lemma {:induction false} FormatKeepsAll(results: seq<Document>, show: Value -> string)
    requires forall k :: 0 <= k < |results| ==> MongoId in results[k]
    ensures |Format(results, show)| == |results|
    ensures forall k :: 0 <= k < |results| ==> Format(results, show)[k] == WithId(results[k], show)
    decreases |results|
  {
    if results != [] {
      var init := results[..|results| - 1];
      var d := results[|results| - 1];
      FormatKeepsAll(init, show);
      assert Format(results, show) == Format(init, show) + [WithId(d, show)];
      forall k | 0 <= k < |results|
        ensures Format(results, show)[k] == WithId(results[k], show)
      {
        if k < |init| {
          assert init[k] == results[k];
          assert Format(results, show)[k] == Format(init, show)[k];
        }
      }
    }
  }

  /* ---------------- store-side filters ---------------- */

  /** `find(filter).to_list()`: the documents the filter keeps, in store
      order. */
  function Select(docs: seq<Document>, keep: Document -> bool): (r: seq<Document>)
    ensures |r| <= |docs|
  {
    if docs == [] then []
    else
      var d := docs[|docs| - 1];
      Select(docs[..|docs| - 1], keep) + (if keep(d) then [d] else [])
  }

  /** The filter keeps exactly the documents it accepts. */
  lemma {:induction false} SelectMembers(docs: seq<Document>, keep: Document -> bool)
    ensures forall x :: x in Select(docs, keep) <==> x in docs && keep(x)
    decreases |docs|
  {
    if docs != [] {
      var init := docs[..|docs| - 1];
      var d := docs[|docs| - 1];
      SelectMembers(init, keep);
      assert docs == init + [d];
    }
  }

  /** The filter keeps store order. */
  lemma {:induction false} SelectAppend(a: seq<Document>, b: seq<Document>, keep: Document -> bool)
    ensures Select(a + b, keep) == Select(a, keep) + Select(b, keep)
    decreases |b|
  {
    if b == [] {
      assert a + b == a;
    } else {
      var b' := b[..|b| - 1];
      var d := b[|b| - 1];
      SelectAppend(a, b', keep);
      assert (a + b)[..|a + b| - 1] == a + b';
      assert (a + b)[|a + b| - 1] == d;
      var extra := if keep(d) then [d] else [];
      assert Select(a + b, keep) == Select(a + b', keep) + extra;
      assert Select(b, keep) == Select(b', keep) + extra;
    }
  }

  /** The `get_all_product` filter: equality on `source` when the argument
      is a non-empty string, no filter for `None` or `""`. */
  function SourceFilter(source: Option<string>): Document -> bool
  {
    if source.Some? && source.value != "" then
      d => MongoEq(Get(d, Of(Source)), Str(source.value))
    else
      d => true
  }

  lemma SourceFilterKeeps(source: Option<string>, docs: seq<Document>)
    ensures source.None? || source == Some("") ==> Select(docs, SourceFilter(source)) == docs
    ensures source.Some? && source.value != "" ==>
              forall x :: x in Select(docs, SourceFilter(source)) <==>
                x in docs && MongoEq(Get(x, Of(Source)), Str(source.value))
  {
    if source.None? || source == Some("") {
      SelectAll(docs, SourceFilter(source));
    } else {
      SelectMembers(docs, SourceFilter(source));
    }
  }

  lemma {:induction false} SelectAll(docs: seq<Document>, keep: Document -> bool)
    requires forall d :: keep(d)
    ensures Select(docs, keep) == docs
    decreases |docs|
  {
    if docs != [] {
      SelectAll(docs[..|docs| - 1], keep);
    }
  }

  /** An escaped pattern with the ignore-case flag, as the store applies it
      to a field: a string that contains the text, or a list holding such a
      string. */
  predicate RegexMatches(v: Value, text: string)
  {
    || (v.Str? && ContainsIgnoringCase(v.s, text))
    || (v.List? && exists x <- v.items :: x.Str? && ContainsIgnoringCase(x.s, text))
  }

  /** The pattern search on one field. */
  function RegexFilter(f: Field, text: string): Document -> bool
  {
    d => RegexMatches(Get(d, Of(f)), text)
  }

  function NameFilter(name: string): Document -> bool
  {
    RegexFilter(Name, name)
  }

  function DescriptionFilter(keywords: string): Document -> bool
  {
    RegexFilter(Description, keywords)
  }

  function BrandFilter(brand: string): Document -> bool
  {
    d => MongoEq(Get(d, Of(Brand)), Str(brand))
  }

  function ConditionFilter(condition: string): Document -> bool
  {
    d => MongoEq(Get(d, Of(Condition)), Str(condition))
  }

  /** A pattern search (the name search, the description search) does not
      depend on the case of the text searched for, and a stored string
      matches exactly when it contains that text with case ignored. */
  lemma RegexSearchIgnoresCase(docs: seq<Document>, f: Field, text: string)
    ensures Select(docs, RegexFilter(f, Lower(text))) == Select(docs, RegexFilter(f, text))
    ensures forall d :: Get(d, Of(f)).Str? ==>
              (d in Select(docs, RegexFilter(f, text)) <==>
                 d in docs && Contains(Lower(Get(d, Of(f)).s), Lower(text)))
  {
    LowerIdempotent(text);
    SelectSame(docs, RegexFilter(f, Lower(text)), RegexFilter(f, text));
    SelectMembers(docs, RegexFilter(f, text));
  }

  lemma {:induction false} SelectSame(docs: seq<Document>, keep: Document -> bool, keep': Document -> bool)
    requires forall d :: keep(d) == keep'(d)
    ensures Select(docs, keep) == Select(docs, keep')
    decreases |docs|
  {
    if docs != [] {
      SelectSame(docs[..|docs| - 1], keep, keep');
    }
  }

  /** Brand and condition are exact: a stored string matches only itself. */
  lemma ExactFilters(docs: seq<Document>, brand: string, condition: string)
    ensures forall d :: Get(d, Of(Brand)).Str? ==>
              (d in Select(docs, BrandFilter(brand)) <==> d in docs && Get(d, Of(Brand)) == Str(brand))
    ensures forall d :: Get(d, Of(Condition)).Str? ==>
              (d in Select(docs, ConditionFilter(condition)) <==> d in docs && Get(d, Of(Condition)) == Str(condition))
  {
    SelectMembers(docs, BrandFilter(brand));
    SelectMembers(docs, ConditionFilter(condition));
  }

  /** `find().skip((page - 1) * page_size).limit(page_size)`: a negative
      skip raises (`None`); a limit of 0 means no limit, and a negative
      limit counts as its absolute value. */
  function Page(docs: seq<Document>, page: int, size: int): (r: Option<seq<Document>>)
    ensures r.None? <==> (page - 1) * size < 0
    ensures r.Some? && size >= 1 ==> |r.value| <= size
    ensures r.Some? ==>
              var skip := (page - 1) * size;
              var limit := if size < 0 then -size else size;
              && (skip >= |docs| ==> r.value == [])
              && (skip < |docs| ==>
                    && |r.value| == (if limit == 0 then |docs| - skip else Min(limit, |docs| - skip))
                    && forall k :: 0 <= k < |r.value| ==> r.value[k] == docs[skip + k])
  {
    var skip := (page - 1) * size;
    var limit := if size < 0 then -size else size;
    if skip < 0 then None
    else if skip >= |docs| then Some([])
    else Some(docs[skip..if limit == 0 then |docs| else Min(skip + limit, |docs|)])
  }

  /** A page before the first one, with a positive page size, raises. */
  lemma PageBeforeFirstRaises(docs: seq<Document>, page: int, size: int)
    requires page < 1 && size >= 1
    ensures Page(docs, page, size).None?
  {
    assert (page - 1) * size <= -size by {
      MulNonPositive(page - 1 + 1, size);
    }
  }

  /** A page size of 0 is no limit at all: the documents from the skip on. */
  lemma PageOfZeroSize(docs: seq<Document>, page: int)
    ensures Page(docs, page, 0) == Some(docs)
  {
    assert docs[0..|docs|] == docs;
  }

  lemma MulNonNegative(a: int, b: int)
    requires a >= 0 && b >= 0
    ensures a * b >= 0
  {
  }

  lemma MulNonPositive(a: int, b: int)
    requires a <= 0 && b >= 0
    ensures a * b <= 0
  {
  }

  function Min(a: int, b: int): int
  {
    if a < b then a else b
  }

  /** Pages 1 to `n`, one after the other. */
  function Pages(docs: seq<Document>, n: nat, size: int): seq<Document>
    requires size >= 1
  {
    if n == 0 then []
    else
      MulNonNegative(n - 1, size);
      Pages(docs, n - 1, size) + Page(docs, n, size).value
  }

  /** Reading pages 1 to `n` in turn yields the first `n * size` documents in
      store order: no document is skipped or repeated. */
  lemma {:induction false} PagesCover(docs: seq<Document>, n: nat, size: int)
    requires size >= 1
    ensures Pages(docs, n, size) == docs[..Min(n * size, |docs|)]
  {
    if n > 0 {
      PagesCover(docs, n - 1, size);
      var lo := Min((n - 1) * size, |docs|);
      var hi := Min(n * size, |docs|);
      assert (n - 1) * size <= n * size;
      MulNonNegative(n - 1, size);
      var pg := Page(docs, n, size).value;
      if (n - 1) * size >= |docs| {
        assert lo == hi;
      } else {
        assert pg == docs[lo..hi];
      }
      assert docs[..lo] + docs[lo..hi] == docs[..hi];
    }
  }

  /* ---------------- the fuzzy category filter ---------------- */

  /** A similarity score in 0..100. */
  type Score = x: int | 0 <= x <= 100

  /** One category string passes the threshold (strictly). */
  predicate Hit(query: string, category: string, threshold: int, ratio: (string, string) -> Score)
  {
    ratio(Lower(query), Lower(category)) > threshold
  }

  /** The hits among the categories of a list (or the one-character strings
      of a string); `None` entries are skipped, and any other non-string
      entry raises, which is `None` here. */
  function CountIn(xs: seq<Value>, query: string, threshold: int, ratio: (string, string) -> Score): (r: Option<nat>)
    ensures r.Some? ==> r.value <= |xs|
    ensures r.Some? <==> forall k :: 0 <= k < |xs| ==> xs[k].Null? || xs[k].Str?
  {
    if xs == [] then Some(0)
    else
      var init := xs[..|xs| - 1];
      var x := xs[|xs| - 1];
      assert forall k :: 0 <= k < |init| ==> init[k] == xs[k];
      match CountIn(init, query, threshold, ratio)
      case None => None
      case Some(n) =>
        if x.Null? then Some(n)
        else if x.Str? then Some(n + if Hit(query, x.s, threshold, ratio) then 1 else 0)
        else None
  }

  /** Iterating a string yields its one-character strings. */
  function Chars(s: string): (r: seq<Value>)
    ensures |r| == |s| && forall k :: 0 <= k < |s| ==> r[k] == Str([s[k]])
  {
    seq(|s|, k requires 0 <= k < |s| => Str([s[k]]))
  }

  /** The keys of a dictionary that pass the threshold. */
  function KeyHits(m: map<string, Value>, query: string, threshold: int, ratio: (string, string) -> Score): set<string>
  {
    HitsAmong(m.Keys, query, threshold, ratio)
  }

  /** `result.get("categories", [])`. */
  function CategoriesOf(d: Document): Value
  {
    if Of(Categories) in d then d[Of(Categories)] else List([])
  }

  /** How many times the record is appended: `None` is skipped; a string,
      a list or a dictionary is iterated; anything else is not iterable and
      raises. */
  function Hits(d: Document, query: string, threshold: int, ratio: (string, string) -> Score): Option<nat>
  {
    match CategoriesOf(d)
    case Null => Some(0)
    case Str(s) => CountIn(Chars(s), query, threshold, ratio)
    case List(xs) => CountIn(xs, query, threshold, ratio)
    case Map(m) => Some(|KeyHits(m, query, threshold, ratio)|)
    case _ => None
  }

  /** `n` copies of `d`. */
  function Repeat(d: Document, n: nat): (r: seq<Document>)
    ensures |r| == n && forall x <- r :: x == d
  {
    if n == 0 then [] else Repeat(d, n - 1) + [d]
  }

  /** The list after one record with `hits` passing categories: a copy per
      hit, each with its `id`; a hit on a record without `_id` raises, and
      so does a record whose categories raise (`hits` is `None`). */
  function Added(filtered: seq<Document>, d: Document, hits: Option<nat>, show: Value -> string): Option<seq<Document>>
  {
    match hits
    case None => None
    case Some(n) =>
      if n == 0 || MongoId in d then Some(Copies(filtered, d, n, show))
      else None
  }

  /** `filtered` followed by `n` copies of the record with its `id`. */
  function Copies(filtered: seq<Document>, d: Document, n: nat, show: Value -> string): seq<Document>
    requires n > 0 ==> MongoId in d
  {
    if n == 0 then filtered else filtered + Repeat(WithId(d, show), n)
  }

  lemma CopiesStep(filtered: seq<Document>, d: Document, n: nat, show: Value -> string)
    requires MongoId in d
    ensures Copies(filtered, d, n + 1, show) == Copies(filtered, d, n, show) + [WithId(d, show)]
  {
  }

  /** `_filter_results` on the records in store order; `None` when it raises. */
  function Filter(results: seq<Document>, query: string, threshold: int, ratio: (string, string) -> Score,
                  show: Value -> string): Option<seq<Document>>
  {
    if results == [] then Some([])
    else
      var d := results[|results| - 1];
      match Filter(results[..|results| - 1], query, threshold, ratio, show)
      case None => None
      case Some(before) => Added(before, d, Hits(d, query, threshold, ratio), show)
  }

  /** The categories of one record: each string or dictionary key that
      passes appends the record once more. */
  method AppendHits(filtered: seq<Document>, result: Document, query: string, threshold: int,
                    ratio: (string, string) -> Score, show: Value -> string)
    returns (r: Option<seq<Document>>)
    ensures r == Added(filtered, result, Hits(result, query, threshold, ratio), show)
  {
    var categories := CategoriesOf(result);
    match categories {
      case Null =>
        r := Some(filtered);
      case Map(m) =>
        r := AppendKeyHits(filtered, result, m, query, threshold, ratio, show);
      case Str(s) =>
        r := AppendEachHit(filtered, result, Chars(s), query, threshold, ratio, show);
      case List(xs) =>
        r := AppendEachHit(filtered, result, xs, query, threshold, ratio, show);
      case _ =>
        r := None;
    }
  }

  /** Iterating a list (or a string, one character at a time). */
  method AppendEachHit(filtered: seq<Document>, result: Document, xs: seq<Value>, query: string,
                       threshold: int, ratio: (string, string) -> Score, show: Value -> string)
    returns (r: Option<seq<Document>>)
    ensures r == Added(filtered, result, CountIn(xs, query, threshold, ratio), show)
  {
    var acc := filtered;
    var count := 0;
    var j := 0;
    while j < |xs|
      invariant 0 <= j <= |xs|
      invariant CountIn(xs[..j], query, threshold, ratio) == Some(count)
      invariant count > 0 ==> MongoId in result
      invariant acc == Copies(filtered, result, count, show)
    {
      var category := xs[j];
      assert xs[..j + 1][..j] == xs[..j];
      if category.Null? {
        j := j + 1;
        continue;
      }
      if !category.Str? {
        CountInPrefix(xs, j + 1, query, threshold, ratio);
        return None;
      }
      if Hit(query, category.s, threshold, ratio) {
        if MongoId !in result {
          CountInPrefix(xs, j + 1, query, threshold, ratio);
          return None;
        }
        CopiesStep(filtered, result, count, show);
        acc := acc + [WithId(result, show)];
        count := count + 1;
      }
      j := j + 1;
    }
    assert xs[..j] == xs;
    return Some(acc);
  }

  /** The dictionary case: iterating a dictionary visits its keys. */
  method AppendKeyHits(filtered: seq<Document>, result: Document, m: map<string, Value>, query: string,
                       threshold: int, ratio: (string, string) -> Score, show: Value -> string)
    returns (r: Option<seq<Document>>)
    ensures r == Added(filtered, result, Some(|KeyHits(m, query, threshold, ratio)|), show)
  {
    var acc := filtered;
    var left := m.Keys;
    ghost var seen: set<string> := {};
    var count := 0;
    while left != {}
      invariant seen + left == m.Keys && seen !! left
      invariant count == |HitsAmong(seen, query, threshold, ratio)|
      invariant count > 0 ==> MongoId in result
      invariant acc == Copies(filtered, result, count, show)
      decreases |left|
    {
      var category :| category in left;
      HitsAmongAdd(seen, category, query, threshold, ratio);
      if Hit(query, category, threshold, ratio) {
        if MongoId !in result {
          assert category in KeyHits(m, query, threshold, ratio);
          return None;
        }
        CopiesStep(filtered, result, count, show);
        acc := acc + [WithId(result, show)];
        count := count + 1;
      }
      SplitMove(seen, left, category);
      left := left - {category};
      seen := seen + {category};
    }
    assert seen == m.Keys;
    return Some(acc);
  }

  /** The passing strings among `keys`. */
  function HitsAmong(keys: set<string>, query: string, threshold: int, ratio: (string, string) -> Score): set<string>
  {
    set k | k in keys && Hit(query, k, threshold, ratio)
  }

  /** Moving one element from `left` to `seen` keeps them a partition. */
  lemma SplitMove<T>(seen: set<T>, left: set<T>, x: T)
    requires x in left && seen !! left
    ensures (seen + {x}) + (left - {x}) == seen + left && (seen + {x}) !! (left - {x})
  {
  }

  /** One more key adds one more hit exactly when it is new and passes. */
  lemma HitsAmongAdd(keys: set<string>, c: string, query: string, threshold: int, ratio: (string, string) -> Score)
    requires c !in keys
    ensures |HitsAmong(keys + {c}, query, threshold, ratio)| ==
              |HitsAmong(keys, query, threshold, ratio)| + (if Hit(query, c, threshold, ratio) then 1 else 0)
  {
    if Hit(query, c, threshold, ratio) {
      assert HitsAmong(keys + {c}, query, threshold, ratio) == HitsAmong(keys, query, threshold, ratio) + {c};
    } else {
      assert HitsAmong(keys + {c}, query, threshold, ratio) == HitsAmong(keys, query, threshold, ratio);
    }
  }

  /** An entry that raises stops the count, and the hits of a prefix are
      at most those of the whole list. */
  lemma {:induction false} CountInPrefix(xs: seq<Value>, j: nat, query: string, threshold: int,
                                         ratio: (string, string) -> Score)
    requires j <= |xs|
    ensures CountIn(xs[..j], query, threshold, ratio).None? ==> CountIn(xs, query, threshold, ratio).None?
    ensures CountIn(xs[..j], query, threshold, ratio).Some? && CountIn(xs, query, threshold, ratio).Some? ==>
              CountIn(xs[..j], query, threshold, ratio).value <= CountIn(xs, query, threshold, ratio).value
    decreases |xs| - j
  {
    if j < |xs| {
      CountInPrefix(xs, j + 1, query, threshold, ratio);
      assert xs[..j + 1][..j] == xs[..j];
    } else {
      assert xs[..j] == xs;
    }
  }

  /** A raising record stops the whole filter. */
  lemma {:induction false} FilterPrefix(results: seq<Document>, j: nat, query: string, threshold: int,
                                        ratio: (string, string) -> Score, show: Value -> string)
    requires j <= |results|
    ensures Filter(results[..j], query, threshold, ratio, show).None? ==>
              Filter(results, query, threshold, ratio, show).None?
    decreases |results| - j
  {
    if j < |results| {
      FilterPrefix(results, j + 1, query, threshold, ratio, show);
      assert results[..j + 1][..j] == results[..j];
    } else {
      assert results[..j] == results;
    }
  }

  /** The filtering loop over the records. */
  method FilterResults(results: seq<Document>, query: string, threshold: int,
                       ratio: (string, string) -> Score, show: Value -> string)
    returns (r: Option<seq<Document>>)
    ensures r == Filter(results, query, threshold, ratio, show)
  {
    var filtered := [];
    var i := 0;
    while i < |results|
      invariant 0 <= i <= |results|
      invariant Filter(results[..i], query, threshold, ratio, show) == Some(filtered)
    {
      assert results[..i + 1][..i] == results[..i];
      var next := AppendHits(filtered, results[i], query, threshold, ratio, show);
      if next.None? {
        FilterPrefix(results, i + 1, query, threshold, ratio, show);
        return None;
      }
      filtered := next.value;
      i := i + 1;
    }
    assert results[..i] == results;
    return Some(filtered);
  }

  /** The filter keeps store order: filtering two runs of records one
      after the other is filtering each. */
  lemma {:induction false} FilterAppend(a: seq<Document>, b: seq<Document>, query: string, threshold: int,
                                        ratio: (string, string) -> Score, show: Value -> string)
    ensures Filter(a + b, query, threshold, ratio, show) ==
              if Filter(a, query, threshold, ratio, show).Some? && Filter(b, query, threshold, ratio, show).Some?
              then Some(Filter(a, query, threshold, ratio, show).value + Filter(b, query, threshold, ratio, show).value)
              else None
    decreases |b|
  {
    if b == [] {
      assert a + b == a;
      var fa := Filter(a, query, threshold, ratio, show);
      if fa.Some? {
        assert fa.value + [] == fa.value;
      }
    } else {
      var b' := b[..|b| - 1];
      var d := b[|b| - 1];
      FilterAppend(a, b', query, threshold, ratio, show);
      assert (a + b)[..|a + b| - 1] == a + b';
      assert (a + b)[|a + b| - 1] == d;
      var fa := Filter(a, query, threshold, ratio, show);
      var fb' := Filter(b', query, threshold, ratio, show);
      if fa.Some? && fb'.Some? {
        AddedPrefix(fa.value, fb'.value, d, Hits(d, query, threshold, ratio), show);
      }
    }
  }

  /** Earlier records are untouched by what a later one adds. */
  lemma AddedPrefix(x: seq<Document>, y: seq<Document>, d: Document, hits: Option<nat>, show: Value -> string)
    ensures Added(x + y, d, hits, show) ==
              if Added(y, d, hits, show).Some? then Some(x + Added(y, d, hits, show).value) else None
  {
    if hits.Some? && hits.value > 0 && MongoId in d {
      assert Copies(x + y, d, hits.value, show) == x + Copies(y, d, hits.value, show);
    }
  }

  /** A record is appended once per passing category: alone, it yields
      exactly its hit count of copies, each carrying its `id`, and a record
      whose categories are `None` or missing yields nothing. */
  lemma OneRecord(d: Document, query: string, threshold: int, ratio: (string, string) -> Score,
                  show: Value -> string)
    requires MongoId in d
    ensures Hits(d, query, threshold, ratio).Some? ==>
              var out := Filter([d], query, threshold, ratio, show);
              && out.Some?
              && |out.value| == Hits(d, query, threshold, ratio).value
              && forall x <- out.value :: x == WithId(d, show)
    ensures Of(Categories) !in d || d[Of(Categories)].Null? ==> Filter([d], query, threshold, ratio, show) == Some([])
  {
    assert [d][..0] == [];
  }

  /** With a threshold of 100 or more no score passes, so nothing is kept. */
  lemma {:induction false} FilterCeiling(results: seq<Document>, query: string, threshold: int,
                                         ratio: (string, string) -> Score, show: Value -> string)
    requires threshold >= 100
    ensures Filter(results, query, threshold, ratio, show).Some? ==> Filter(results, query, threshold, ratio, show).value == []
    decreases |results|
  {
    if results != [] {
      FilterCeiling(results[..|results| - 1], query, threshold, ratio, show);
      var d := results[|results| - 1];
      match CategoriesOf(d)
      case Str(s) => CountInCeiling(Chars(s), query, threshold, ratio);
      case List(xs) => CountInCeiling(xs, query, threshold, ratio);
      case Map(m) => assert KeyHits(m, query, threshold, ratio) == {};
      case _ =>
    }
  }

  lemma {:induction false} CountInCeiling(xs: seq<Value>, query: string, threshold: int,
                                          ratio: (string, string) -> Score)
    requires threshold >= 100
    ensures CountIn(xs, query, threshold, ratio).Some? ==> CountIn(xs, query, threshold, ratio).value == 0
    decreases |xs|
  {
    if xs != [] {
      CountInCeiling(xs[..|xs| - 1], query, threshold, ratio);
    }
  }

  /** Stored records never make the filter raise: each has an `_id`, and
      the schema makes `categories` `None` or a list of strings. */
  lemma {:induction false} StoredNeverRaises(results: seq<Document>, query: string, threshold: int,
                                             ratio: (string, string) -> Score, show: Value -> string)
    requires forall k :: 0 <= k < |results| ==> MongoId in results[k] && Conforms(results[k])
    ensures Filter(results, query, threshold, ratio, show).Some?
    decreases |results|
  {
    if results != [] {
      var init := results[..|results| - 1];
      StoredNeverRaises(init, query, threshold, ratio, show);
      var d := results[|results| - 1];
      assert FieldConforms(Categories, Get(d, Of(Categories)));
      if CategoriesOf(d).List? {
        assert forall x <- CategoriesOf(d).items :: x.Str?;
      }
    }
  }

  /* ---------------- the query object ---------------- */

  class Query {
    const db: DatabaseManager
    /** The product collection itself. */
    const store: Collection
    /** `self.collection`: the client the collection was bound through, or
        `null` while unbound. */
    var collection: Client?

    constructor (db: DatabaseManager, store: Collection)
      ensures this.db == db && this.store == store && collection == null
    {
      this.db := db;
      this.store := store;
      collection := null;
    }

    /** The bound collection can serve a request: its client is still open. */
    predicate Live()
      reads this, collection
    {
      collection != null && !collection.closed
    }

    /** What the database check leaves behind: the manager is set up when
        it was or the connection succeeds now, its client changes only
        when a set-up attempt builds a new one, and the collection is bound
        to the manager's client the first time the manager is set up and
        kept from then on. */
    twostate predicate SetUp(connect: ConnectOutcome)
      reads this, db
    {
      && db.initialized == (old(db.initialized) || connect == Connected)
      && (old(db.initialized) || connect == ClientFails ==> db.client == old(db.client))
      && (!old(db.initialized) && connect != ClientFails ==> db.client != null && fresh(db.client))
      && db.connectionString == old(db.connectionString) && db.databaseName == old(db.databaseName)
      && (old(collection) != null ==> collection == old(collection))
      && (old(collection) == null ==> collection == (if db.initialized then db.client else null))
    }

    /** `__check_db`: set the manager up when it is not, then bind the
        collection through its client the first time only. */
    method CheckDb(connect: ConnectOutcome) returns (ok: bool)
      requires db.Valid()
      modifies db, this
      ensures db.Valid()
      ensures ok == (old(db.initialized) || connect == Connected)
      ensures SetUp(connect)
      ensures ok ==> db.initialized && collection != null
      ensures old(collection) != null ==> collection == old(collection)
      ensures old(collection) == null ==> collection == (if ok then db.client else null)
      ensures old(collection) == null && ok ==> Live()
      ensures old(db.initialized) ==> db.client == old(db.client)
      ensures old(collection) != null && old(collection).closed ==> !Live()
    {
      if !db.IsInitialized() {
        var success := db.Initialize(connect);
        if !success {
          return false;
        }
      }
      if collection == null {
        var client := db.GetClient();
        if client == null {
          return false;
        }
        collection := client;
      }
      return true;
    }

    /** The common shape of the store-side queries: check the database,
        run the query on the collection (a closed client raises, answered
        with `[]`), and format a non-empty result. */
    method Reply(connect: ConnectOutcome, find: seq<Document> -> seq<Document>, show: Value -> string)
      returns (r: seq<Document>)
      requires db.Valid()
      modifies db, this
      ensures db.Valid() && SetUp(connect)
      ensures r == if (old(db.initialized) || connect == Connected) && Live()
                   then Format(find(store.docs), show) else []
    {
      var ok := CheckDb(connect);
      if !ok || !Live() {
        return [];
      }
      var results := find(store.docs);
      if results != [] {
        r := FormatResults(results, show);
      } else {
        r := [];
      }
    }

    /** `get_all_product`. */
    method GetAllProduct(connect: ConnectOutcome, source: Option<string>, show: Value -> string)
      returns (r: seq<Document>)
      requires db.Valid()
      modifies db, this
      ensures db.Valid() && SetUp(connect)
      ensures r == if (old(db.initialized) || connect == Connected) && Live()
                   then Format(Select(store.docs, SourceFilter(source)), show) else []
    {
      r := Reply(connect, docs => Select(docs, SourceFilter(source)), show);
    }

    /** `search_products_by_name`. */
    method SearchByName(connect: ConnectOutcome, name: string, show: Value -> string)
      returns (r: seq<Document>)
      requires db.Valid()
      modifies db, this
      ensures db.Valid() && SetUp(connect)
      ensures r == if (old(db.initialized) || connect == Connected) && Live()
                   then Format(Select(store.docs, NameFilter(name)), show) else []
    {
      r := Reply(connect, docs => Select(docs, NameFilter(name)), show);
    }

    /** `search_products_by_brand`. */
    method SearchByBrand(connect: ConnectOutcome, brand: string, show: Value -> string)
      returns (r: seq<Document>)
      requires db.Valid()
      modifies db, this
      ensures db.Valid() && SetUp(connect)
      ensures r == if (old(db.initialized) || connect == Connected) && Live()
                   then Format(Select(store.docs, BrandFilter(brand)), show) else []
    {
      r := Reply(connect, docs => Select(docs, BrandFilter(brand)), show);
    }

    /** `search_products_by_condition`. */
    method SearchByCondition(connect: ConnectOutcome, condition: string, show: Value -> string)
      returns (r: seq<Document>)
      requires db.Valid()
      modifies db, this
      ensures db.Valid() && SetUp(connect)
      ensures r == if (old(db.initialized) || connect == Connected) && Live()
                   then Format(Select(store.docs, ConditionFilter(condition)), show) else []
    {
      r := Reply(connect, docs => Select(docs, ConditionFilter(condition)), show);
    }

    /** `search_products_by_description_keywords`. */
    method SearchByDescription(connect: ConnectOutcome, keywords: string, show: Value -> string)
      returns (r: seq<Document>)
      requires db.Valid()
      modifies db, this
      ensures db.Valid() && SetUp(connect)
      ensures r == if (old(db.initialized) || connect == Connected) && Live()
                   then Format(Select(store.docs, DescriptionFilter(keywords)), show) else []
    {
      r := Reply(connect, docs => Select(docs, DescriptionFilter(keywords)), show);
    }

    /** Once one query has set the manager up, the next query answers the
        same whatever its own connection attempt would do: the manager
        stays set up and the bound collection is reused. */
    method AnswerTwice(connect: ConnectOutcome, connect': ConnectOutcome, source: Option<string>,
                       show: Value -> string)
      returns (r1: seq<Document>, r2: seq<Document>)
      requires db.Valid()
      modifies db, this
      ensures db.Valid()
      ensures old(db.initialized) || connect == Connected ==> db.initialized && r2 == r1
      ensures !old(db.initialized) && connect != Connected ==> r1 == []
    {
      r1 := GetAllProduct(connect, source, show);
      r2 := GetAllProduct(connect', source, show);
    }

    /** `get_products_with_pagination`. */
    method GetPage(connect: ConnectOutcome, page: int, size: int, show: Value -> string)
      returns (r: seq<Document>)
      requires db.Valid()
      modifies db, this
      ensures db.Valid() && SetUp(connect)
      ensures r == if (old(db.initialized) || connect == Connected) && Live() && Page(store.docs, page, size).Some?
                   then Format(Page(store.docs, page, size).value, show) else []
    {
      var ok := CheckDb(connect);
      if !ok || !Live() {
        return [];
      }
      var results := Page(store.docs, page, size);
      if results.None? {
        return [];
      }
      if results.value != [] {
        r := FormatResults(results.value, show);
      } else {
        r := [];
      }
    }

    /** `search_categories`: the fuzzy filter over every record; when it
        raises the answer is `[]`. */
    method SearchCategories(connect: ConnectOutcome, query: string, threshold: int,
                            ratio: (string, string) -> Score, show: Value -> string)
      returns (r: seq<Document>)
      requires db.Valid()
      modifies db, this
      ensures db.Valid() && SetUp(connect)
      ensures r == if (old(db.initialized) || connect == Connected) && Live()
                      && Filter(store.docs, query, threshold, ratio, show).Some?
                   then Filter(store.docs, query, threshold, ratio, show).value else []
    {
      var ok := CheckDb(connect);
      if !ok || !Live() {
        return [];
      }
      var results := store.docs;
      var filtered := FilterResults(results, query, threshold, ratio, show);
      if filtered.None? {
        return [];
      }
      r := filtered.value;
    }
  }
}
