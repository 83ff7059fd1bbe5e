/** The Python string operations the extractors apply to page text:
    `strip`, `split`, `"".join`, `replace`, `startswith`, `in`, ASCII
    `lower` and `int()`. */
module Text {
  import opened Values

  /** Python's `str.isspace` for one character. */
  predicate IsSpace(c: char)
  {
    || c == ' ' || ('\t' <= c <= '\r') || ('\U{1C}' <= c <= '\U{1F}')
    || c == '\U{85}' || c == '\U{A0}' || c == '\U{1680}'
    || ('\U{2000}' <= c <= '\U{200A}') || c == '\U{2028}' || c == '\U{2029}'
    || c == '\U{202F}' || c == '\U{205F}' || c == '\U{3000}'
  }

  function LeadingSpaces(s: string): (n: nat)
    ensures n <= |s|
    ensures forall k :: 0 <= k < n ==> IsSpace(s[k])
    ensures n < |s| ==> !IsSpace(s[n])
  {
    if |s| > 0 && IsSpace(s[0]) then 1 + LeadingSpaces(s[1..]) else 0
  }

  function TrailingSpaces(s: string): (n: nat)
    ensures n <= |s|
    ensures forall k :: |s| - n <= k < |s| ==> IsSpace(s[k])
    ensures n < |s| ==> !IsSpace(s[|s| - n - 1])
  {
    if |s| > 0 && IsSpace(s[|s| - 1]) then 1 + TrailingSpaces(s[..|s| - 1]) else 0
  }

  /** `s.strip()`: the longest middle part of `s` that neither starts nor
      ends with whitespace; everything cut off is whitespace. */
  function Strip(s: string): (r: string)
    ensures r == [] || (!IsSpace(r[0]) && !IsSpace(r[|r| - 1]))
    ensures LeadingSpaces(s) + |r| <= |s|
    ensures r == s[LeadingSpaces(s)..LeadingSpaces(s) + |r|]
    ensures forall k :: LeadingSpaces(s) + |r| <= k < |s| ==> IsSpace(s[k])
  {
    var t := s[LeadingSpaces(s)..];
    t[..|t| - TrailingSpaces(t)]
  }

  /** Stripping twice strips nothing more. */
  lemma StripIdempotent(s: string)
    ensures Strip(Strip(s)) == Strip(s)
  {
    var r := Strip(s);
    assert LeadingSpaces(r) == 0;
    assert TrailingSpaces(r) == 0;
  }

  /** `sep` occurs in `s` at index `i`. */
  predicate OccursAt(s: string, i: nat, sep: string)
  {
    i + |sep| <= |s| && s[i..i + |sep|] == sep
  }

  /** `s.split(sep)` for a non-empty separator: the pieces between the
      leftmost non-overlapping occurrences of `sep`, empty pieces kept. */
  function Split(s: string, sep: string): (parts: seq<string>)
    requires |sep| > 0
    ensures |parts| >= 1
    decreases |s|
  {
    if |s| < |sep| then [s]
    else if s[..|sep|] == sep then [""] + Split(s[|sep|..], sep)
    else
      var rest := Split(s[1..], sep);
      [[s[0]] + rest[0]] + rest[1..]
  }

  /** `sep.join(parts)`. */
  function Join(parts: seq<string>, sep: string): string
    requires |parts| >= 1
  {
    if |parts| == 1 then parts[0] else parts[0] + sep + Join(parts[1..], sep)
  }

  /** Splitting and joining again gives the string back. */
  lemma {:induction false} SplitJoin(s: string, sep: string)
    requires |sep| > 0
    ensures Join(Split(s, sep), sep) == s
    decreases |s|
  {
    if |s| < |sep| {
    } else if s[..|sep|] == sep {
      SplitJoin(s[|sep|..], sep);
      assert s == sep + s[|sep|..];
    } else {
      var rest := Split(s[1..], sep);
      SplitJoin(s[1..], sep);
      JoinCons(s[0], rest, sep);
      assert s == [s[0]] + s[1..];
    }
  }

  /** Prefixing the first piece prefixes the joined text. */
  lemma JoinCons(c: char, parts: seq<string>, sep: string)
    requires |parts| >= 1
    ensures Join([[c] + parts[0]] + parts[1..], sep) == [c] + Join(parts, sep)
  {
    var ps := [[c] + parts[0]] + parts[1..];
    if |parts| > 1 {
      assert ps[1..] == parts[1..];
      assert Join(ps, sep) == ([c] + parts[0]) + sep + Join(parts[1..], sep);
    }
  }

  /** An occurrence one place further into `s` is an occurrence in `s[1..]`. */
  lemma OccursShift(s: string, i: nat, sep: string)
    requires |s| >= 1
    ensures OccursAt(s, i + 1, sep) == OccursAt(s[1..], i, sep)
  {
    if i + 1 + |sep| <= |s| {
      var x, y := s[i + 1..i + 1 + |sep|], s[1..][i..i + |sep|];
      forall k | 0 <= k < |x| ensures x[k] == y[k] {
      }
      assert x == y;
    }
  }

  /** The first piece is the text before the first occurrence of `sep`
      (all of `s` when there is none). */
  lemma SplitFirst(s: string, sep: string)
    requires |sep| > 0
    ensures |Split(s, sep)[0]| <= |s| && Split(s, sep)[0] == s[..|Split(s, sep)[0]|]
    ensures forall i: nat :: i < |Split(s, sep)[0]| ==> !OccursAt(s, i, sep)
    ensures |Split(s, sep)[0]| < |s| ==> OccursAt(s, |Split(s, sep)[0]|, sep)
  {
    SplitFirstPrefix(s, sep);
    SplitFirstNoEarlier(s, sep);
    SplitFirstStops(s, sep);
  }

  lemma {:induction false} SplitFirstPrefix(s: string, sep: string)
    requires |sep| > 0
    ensures |Split(s, sep)[0]| <= |s| && Split(s, sep)[0] == s[..|Split(s, sep)[0]|]
    decreases |s|
  {
    if |s| < |sep| {
    } else if s[..|sep|] == sep {
    } else {
      var rest := Split(s[1..], sep);
      SplitFirstPrefix(s[1..], sep);
      assert Split(s, sep)[0] == [s[0]] + rest[0];
    }
  }

  lemma {:induction false} SplitFirstNoEarlier(s: string, sep: string)
    requires |sep| > 0
    ensures forall i: nat :: i < |Split(s, sep)[0]| ==> !OccursAt(s, i, sep)
    decreases |s|
  {
    if |s| < |sep| {
    } else if s[..|sep|] == sep {
    } else {
      var rest := Split(s[1..], sep);
      SplitFirstNoEarlier(s[1..], sep);
      var h := Split(s, sep)[0];
      assert h == [s[0]] + rest[0];
      forall i: nat | i < |h| ensures !OccursAt(s, i, sep) {
        if i > 0 {
          OccursShift(s, i - 1, sep);
        }
      }
    }
  }

  lemma {:induction false} SplitFirstStops(s: string, sep: string)
    requires |sep| > 0
    ensures |Split(s, sep)[0]| < |s| ==> OccursAt(s, |Split(s, sep)[0]|, sep)
    decreases |s|
  {
    if |s| < |sep| {
    } else if s[..|sep|] == sep {
      assert OccursAt(s, 0, sep);
    } else {
      var rest := Split(s[1..], sep);
      SplitFirstStops(s[1..], sep);
      assert |Split(s, sep)[0]| == 1 + |rest[0]|;
      if 1 + |rest[0]| < |s| {
        OccursShift(s, |rest[0]|, sep);
      }
    }
  }

  /** With a one-character separator, no piece contains the separator. */
  lemma {:induction false} SplitCharPieces(s: string, c: char)
    ensures forall k :: 0 <= k < |Split(s, [c])| ==> c !in Split(s, [c])[k]
    decreases |s|
  {
    if |s| < 1 {
    } else if s[..1] == [c] {
      SplitCharPieces(s[1..], c);
    } else {
      SplitCharPieces(s[1..], c);
      var rest := Split(s[1..], [c]);
      assert s[0] != c by { assert s[..1] == [s[0]]; }
      assert c !in [s[0]] + rest[0];
    }
  }

  /** A first piece free of the separator splits off on its own. */
  lemma {:induction false} SplitCons(a: string, c: char, rest: string)
    requires c !in a
    ensures Split(a + [c] + rest, [c]) == [a] + Split(rest, [c])
    decreases |a|
  {
    var s := a + [c] + rest;
    if a == [] {
      assert s[..1] == [c];
      assert s[1..] == rest;
    } else {
      assert s[..1] == [a[0]];
      assert s[1..] == a[1..] + [c] + rest;
      SplitCons(a[1..], c, rest);
      assert [a[0]] + a[1..] == a;
    }
  }

  /** A string without the separator is a single piece. */
  lemma {:induction false} SplitNone(s: string, c: char)
    requires c !in s
    ensures Split(s, [c]) == [s]
    decreases |s|
  {
    if |s| >= 1 {
      assert s[..1] == [s[0]];
      SplitNone(s[1..], c);
      assert [s[0]] + s[1..] == s;
    }
  }

  function Last<T>(xs: seq<T>): T
    requires |xs| >= 1
  {
    xs[|xs| - 1]
  }

  lemma {:induction false} JoinLast(parts: seq<string>, sep: string)
    requires |parts| >= 2
    ensures Join(parts, sep) == Join(parts[..|parts| - 1], sep) + sep + Last(parts)
    decreases |parts|
  {
    if |parts| > 2 {
      JoinLast(parts[1..], sep);
      assert parts[1..][..|parts| - 2] == parts[..|parts| - 1][1..];
    }
  }

  /** `s.split(c)[-1]`: the text after the last `c`, or all of `s`. */
  function LastSegment(s: string, c: char): (r: string)
    ensures c !in r
    ensures |r| <= |s| && r == s[|s| - |r|..]
    ensures |r| < |s| ==> s[|s| - |r| - 1] == c
  {
    var parts := Split(s, [c]);
    SplitCharPieces(s, c);
    SplitJoin(s, [c]);
    if |parts| >= 2 then
      JoinLast(parts, [c]);
      Last(parts)
    else
      Last(parts)
  }

  /** `s.split(sep)[0]`: the text before the first occurrence of `sep`. */
  function FirstSegment(s: string, sep: string): (r: string)
    requires |sep| > 0
    ensures |r| <= |s| && r == s[..|r|]
    ensures forall i: nat :: i < |r| ==> !OccursAt(s, i, sep)
    ensures |r| < |s| ==> OccursAt(s, |r|, sep)
  {
    SplitFirst(s, sep);
    Split(s, sep)[0]
  }

  /** `"".join(parts)`. */
  function Concat(parts: seq<string>): string
  {
    if parts == [] then "" else Concat(parts[..|parts| - 1]) + Last(parts)
  }

  /** `parts[n:]`: Python slicing past the end gives the empty list. */
  function DropFirst<T>(parts: seq<T>, n: nat): (r: seq<T>)
    ensures |parts| >= n ==> r == parts[n..]
    ensures |parts| < n ==> r == []
  {
    if |parts| >= n then parts[n..] else []
  }

  /** `s.replace(c, "")` for one character. */
  function RemoveChar(s: string, c: char): (r: string)
    ensures c !in r
    ensures |r| <= |s|
  {
    if s == [] then ""
    else RemoveChar(s[..|s| - 1], c) + (if Last(s) == c then "" else [Last(s)])
  }

  lemma {:induction false} ConcatAppend(a: seq<string>, b: seq<string>)
    ensures Concat(a + b) == Concat(a) + Concat(b)
    decreases |b|
  {
    if b == [] {
      assert a + b == a;
    } else {
      ConcatAppend(a, b[..|b| - 1]);
      assert (a + b)[..|a + b| - 1] == a + b[..|b| - 1];
    }
  }

  lemma {:induction false} RemoveCharAppend(s: string, t: string, c: char)
    ensures RemoveChar(s + t, c) == RemoveChar(s, c) + RemoveChar(t, c)
    decreases |t|
  {
    if t == [] {
      assert s + t == s;
    } else {
      var u := t[..|t| - 1];
      var tail := if Last(t) == c then "" else [Last(t)];
      RemoveCharAppend(s, u, c);
      assert (s + t)[..|s + t| - 1] == s + u;
      assert Last(s + t) == Last(t);
      assert RemoveChar(s + t, c) == RemoveChar(s + u, c) + tail;
      assert RemoveChar(t, c) == RemoveChar(u, c) + tail;
    }
  }

  /** Joining the pieces of a split on `c` with nothing deletes every `c`. */
  lemma {:induction false} ConcatSplit(s: string, c: char)
    ensures Concat(Split(s, [c])) == RemoveChar(s, c)
    decreases |s|
  {
    if c !in s {
      SplitNone(s, c);
      RemoveCharNone(s, c);
      assert Concat([s]) == Concat([]) + s;
    } else {
      var j := FirstIndex(s, c);
      var a, rest := s[..j], s[j + 1..];
      assert s == a + [c] + rest;
      SplitCons(a, c, rest);
      ConcatSplit(rest, c);
      ConcatCons(a, Split(rest, [c]));
      RemoveCharAround(a, c, rest);
    }
  }

  lemma ConcatCons(a: string, parts: seq<string>)
    ensures Concat([a] + parts) == a + Concat(parts)
  {
    ConcatAppend([a], parts);
    assert Concat([a]) == Concat([]) + a;
  }

  lemma RemoveCharAround(a: string, c: char, rest: string)
    requires c !in a
    ensures RemoveChar(a + [c] + rest, c) == a + RemoveChar(rest, c)
  {
    calc {
      RemoveChar(a + [c] + rest, c);
      { RemoveCharAppend(a + [c], rest, c); }
      RemoveChar(a + [c], c) + RemoveChar(rest, c);
      { RemoveCharAppend(a, [c], c); }
      RemoveChar(a, c) + RemoveChar([c], c) + RemoveChar(rest, c);
      { RemoveCharNone(a, c); RemoveCharSelf(c); }
      a + "" + RemoveChar(rest, c);
    }
  }

  lemma RemoveCharSelf(c: char)
    ensures RemoveChar([c], c) == ""
  {
    assert [c][..0] == [];
  }

  function FirstIndex(s: string, c: char): (j: nat)
    requires c in s
    ensures j < |s| && s[j] == c && c !in s[..j]
  {
    if s[0] == c then 0 else
      assert c in s[1..] by { assert s == [s[0]] + s[1..]; }
      1 + FirstIndex(s[1..], c)
  }

  lemma {:induction false} RemoveCharNone(s: string, c: char)
    requires c !in s
    ensures RemoveChar(s, c) == s
    decreases |s|
  {
    if s != [] {
      RemoveCharNone(s[..|s| - 1], c);
      assert s[..|s| - 1] + [Last(s)] == s;
    }
  }

  /** `s.replace(a, b)` for single characters. */
  function ReplaceChar(s: string, a: char, b: char): (r: string)
    ensures |r| == |s|
    ensures forall k :: 0 <= k < |s| ==> r[k] == (if s[k] == a then b else s[k])
  {
    seq(|s|, k requires 0 <= k < |s| => if s[k] == a then b else s[k])
  }

  /** After the replacement the old character is gone (unless it maps to itself). */
  lemma ReplaceCharRemoves(s: string, a: char, b: char)
    requires a != b
    ensures a !in ReplaceChar(s, a, b)
  {
  }

  /** `s.startswith(p)`. */
  predicate StartsWith(s: string, p: string)
  {
    |p| <= |s| && s[..|p|] == p
  }

  /** `n in h` for strings: `n` occurs somewhere in `h`. */
  function Contains(h: string, n: string): (b: bool)
    ensures b <==> exists i: nat :: OccursAt(h, i, n)
    decreases |h|
  {
    if |n| > |h| then false
    else if h[..|n|] == n then
      assert OccursAt(h, 0, n);
      true
    else
      ContainsShift(h, n);
      Contains(h[1..], n)
  }

  /** When `n` is not a prefix of `h`, its occurrences in `h` are those in
      `h[1..]`, one place further on. */
  lemma ContainsShift(h: string, n: string)
    requires 1 <= |h| && !OccursAt(h, 0, n)
    ensures (exists i: nat :: OccursAt(h, i, n)) <==> (exists i: nat :: OccursAt(h[1..], i, n))
  {
    forall i: nat | i > 0
      ensures OccursAt(h, i, n) == OccursAt(h[1..], i - 1, n)
    {
      OccursShift(h, i - 1, n);
    }
    forall i: nat
      ensures OccursAt(h[1..], i, n) == OccursAt(h, i + 1, n)
    {
      OccursShift(h, i, n);
    }
  }

  /** ASCII lower-casing of one character. */
  function LowerChar(c: char): char
  {
    if 'A' <= c <= 'Z' then (c as int + 32) as char else c
  }

  /** `s.lower()`, restricted to ASCII letters. */
  function Lower(s: string): (r: string)
    ensures |r| == |s|
    ensures forall k :: 0 <= k < |s| ==> r[k] == LowerChar(s[k])
  {
    seq(|s|, k requires 0 <= k < |s| => LowerChar(s[k]))
  }

  /** A case-insensitive literal substring test (an escaped pattern with
      the ignore-case flag). */
  predicate ContainsIgnoringCase(h: string, n: string)
  {
    Contains(Lower(h), Lower(n))
  }

  lemma LowerIdempotent(s: string)
    ensures Lower(Lower(s)) == Lower(s)
  {
  }

  /** The match does not depend on the case of either side. */
  lemma ContainsIgnoringCaseInvariant(h: string, n: string)
    ensures ContainsIgnoringCase(Lower(h), n) == ContainsIgnoringCase(h, n)
    ensures ContainsIgnoringCase(h, Lower(n)) == ContainsIgnoringCase(h, n)
  {
    LowerIdempotent(h);
    LowerIdempotent(n);
  }

  predicate IsDigit(c: char)
  {
    '0' <= c <= '9'
  }

  /** The value of a run of ASCII decimal digits. */
  function DigitsValue(ds: string): nat
    requires forall k :: 0 <= k < |ds| ==> IsDigit(ds[k])
  {
    if ds == [] then 0
    else
      assert IsDigit(ds[|ds| - 1]);
      var d := ds[|ds| - 1] as int - '0' as int;
      DigitsValue(ds[..|ds| - 1]) * 10 + d
  }

  predicate AllDigits(ds: string)
  {
    ds != [] && forall k :: 0 <= k < |ds| ==> IsDigit(ds[k])
  }

  /** Digits with single underscores between groups, as `int()` accepts them. */
  function UnsignedValue(t: string): Option<nat>
  {
    var groups := Split(t, "_");
    if forall g <- groups :: AllDigits(g) then
      var ds := Concat(groups);
      ConcatDigits(groups);
      Some(DigitsValue(ds))
    else None
  }

  lemma {:induction false} ConcatDigits(groups: seq<string>)
    requires forall g <- groups :: AllDigits(g)
    ensures forall k :: 0 <= k < |Concat(groups)| ==> IsDigit(Concat(groups)[k])
    decreases |groups|
  {
    if groups != [] {
      var init := groups[..|groups| - 1];
      ConcatDigits(init);
      assert Last(groups) in groups;
      assert Concat(groups) == Concat(init) + Last(groups);
    }
  }

  /** `int(s)` on decimal text: surrounding whitespace, an optional sign,
      then ASCII digits possibly grouped by single underscores; `None` is
      the `ValueError` case. */
  function PyInt(s: string): Option<int>
  {
    var t := Strip(s);
    if |t| > 0 && (t[0] == '+' || t[0] == '-') then
      match UnsignedValue(t[1..])
      case None => None
      case Some(n) =>
        var v: int := if t[0] == '-' then -(n as int) else n;
        Some(v)
    else
      match UnsignedValue(t)
      case None => None
      case Some(n) => Some(n)
  }

  /** The decimal text of a natural number. */
  function DecimalText(n: nat): (r: string)
    ensures AllDigits(r)
    ensures '_' !in r
    ensures !IsSpace(r[0]) && !IsSpace(r[|r| - 1])
    ensures r[0] != '+' && r[0] != '-'
  {
    if n < 10 then ['0' + n as char]
    else DecimalText(n / 10) + ['0' + (n % 10) as char]
  }

  lemma {:induction false} DecimalTextValue(n: nat)
    ensures DigitsValue(DecimalText(n)) == n
    decreases n
  {
    if n >= 10 {
      DecimalTextValue(n / 10);
      var r := DecimalText(n);
      assert r[..|r| - 1] == DecimalText(n / 10);
    }
  }

  /** `int(str(n)) == n` for every natural number. */
  lemma PyIntDecimal(n: nat)
    ensures PyInt(DecimalText(n)) == Some(n)
  {
    var r := DecimalText(n);
    assert LeadingSpaces(r) == 0;
    assert TrailingSpaces(r) == 0;
    assert Strip(r) == r;
    SplitNone(r, '_');
    assert Concat([r]) == Concat([]) + r;
    DecimalTextValue(n);
  }
}
