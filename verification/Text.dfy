/**
 Strings as SQLite and Rust see them: code-point order, the whitespace that
 `str::trim` removes, sorted duplicate-free id lists, and the half-open range
 that an index probe uses in place of a prefix test.
 */
module Text {

  datatype Option<+T> = None | Some(value: T)

  /** The two lists hold the same elements, in any order and number. */
  ghost predicate SameElems<T(!new)>(a: seq<T>, b: seq<T>) { forall x :: x in a <==> x in b }

  // ---------------------------------------------------------------- order

  /** Code-point order. UTF-8 byte order is the same order. */
  predicate Less(a: string, b: string) {
    if b == [] then false
    else if a == [] then true
    else if a[0] != b[0] then a[0] < b[0]
    else Less(a[1..], b[1..])
  }

  predicate AtMost(a: string, b: string) { a == b || Less(a, b) }

  lemma LessIrreflexive(a: string)
    ensures !Less(a, a)
  {
    if a != [] { LessIrreflexive(a[1..]); }
  }

  lemma LessTransitive(a: string, b: string, c: string)
    requires Less(a, b) && Less(b, c)
    ensures Less(a, c)
  {
    if a != [] && a[0] == b[0] && b[0] == c[0] { LessTransitive(a[1..], b[1..], c[1..]); }
  }

  lemma {:induction false} LessTotal(a: string, b: string)
    ensures a == b || Less(a, b) || Less(b, a)
  {
    if a != [] && b != [] && a[0] == b[0] {
      LessTotal(a[1..], b[1..]);
      assert a == [a[0]] + a[1..] && b == [b[0]] + b[1..];
    }
  }

  lemma {:induction false} LessCancel(p: string, a: string, b: string)
    ensures Less(p + a, p + b) == Less(a, b)
  {
    if p == [] {
      assert p + a == a && p + b == b;
    } else {
      assert (p + a)[1..] == p[1..] + a && (p + b)[1..] == p[1..] + b;
      LessCancel(p[1..], a, b);
    }
  }

  // ------------------------------------------------------- sort and dedup

  predicate Ascending(s: seq<string>) {
    forall i, j :: 0 <= i < j < |s| ==> Less(s[i], s[j])
  }

  /** Place one id in a strictly ascending list, dropping it if it is there. */
  function InsertUnique(x: string, s: seq<string>): (r: seq<string>)
    requires Ascending(s)
    ensures Ascending(r)
    ensures forall y :: y in r <==> y == x || y in s
  {
    if s == [] then [x]
    else if s[0] == x then s
    else if Less(x, s[0]) then
      assert forall j :: 0 < j < |s| ==> Less(x, s[j]) by {
        forall j | 0 < j < |s| ensures Less(x, s[j]) { LessTransitive(x, s[0], s[j]); }
      }
      [x] + s
    else
      assert Less(s[0], x) by { LessTotal(x, s[0]); }
      var r := InsertUnique(x, s[1..]);
      assert forall j :: 0 <= j < |r| ==> r[j] in r;
      assert forall y :: y in s <==> y == s[0] || y in s[1..];
      [s[0]] + r
  }

  /** `sort_unstable` followed by `dedup`. */
  function SortedUnique(ids: seq<string>): (r: seq<string>)
    ensures Ascending(r) && SameElems(r, ids)
  {
    if ids == [] then []
    else
      assert forall y :: y in ids <==> y == ids[0] || y in ids[1..];
      InsertUnique(ids[0], SortedUnique(ids[1..]))
  }

  /** A strictly ascending list is determined by its elements. */
  lemma {:induction false} AscendingUnique(a: seq<string>, b: seq<string>)
    requires Ascending(a) && Ascending(b) && SameElems(a, b)
    ensures a == b
  {
    assert a != [] ==> a[0] in a;
    assert b != [] ==> b[0] in b;
    if a != [] && b != [] {
      if b[0] != a[0] {
        LessTransitive(a[0], b[0], a[0]);
        LessIrreflexive(a[0]);
      } else {
        AscendingTail(a);
        AscendingTail(b);
        AscendingUnique(a[1..], b[1..]);
        assert a == [a[0]] + a[1..] && b == [b[0]] + b[1..];
      }
    }
  }

  lemma AscendingTail(a: seq<string>)
    requires Ascending(a) && a != []
    ensures Ascending(a[1..])
    ensures forall y :: y in a[1..] <==> y in a && y != a[0]
  {
    LessIrreflexive(a[0]);
    assert forall y :: y in a <==> y == a[0] || y in a[1..];
  }

  // ----------------------------------------------------------- whitespace

  /** Unicode White_Space, the class used by `str::trim`. */
  predicate IsWhitespace(c: char) {
    var n := c as int;
    || 0x9 <= n <= 0xD || n == 0x20 || n == 0x85 || n == 0xA0 || n == 0x1680
    || 0x2000 <= n <= 0x200A || n == 0x2028 || n == 0x2029 || n == 0x202F || n == 0x205F
    || n == 0x3000
  }

  /** The 25 characters with that property in the Unicode Character Database. */
  const WHITE_SPACE := {
    0x9, 0xA, 0xB, 0xC, 0xD, 0x20, 0x85, 0xA0, 0x1680, 0x2000, 0x2001, 0x2002, 0x2003, 0x2004, 0x2005, 0x2006, 0x2007,
    0x2008, 0x2009, 0x200A, 0x2028, 0x2029, 0x202F, 0x205F, 0x3000}

  lemma WhitespaceIff(c: char)
    ensures IsWhitespace(c) <==> c as int in WHITE_SPACE
  {
  }

  /** General category Cc. */
  predicate IsControl(c: char) {
    var n := c as int;
    n < 0x20 || 0x7F <= n < 0xA0
  }

  /** The C0 controls, delete and the C1 controls. */
  lemma ControlIff(c: char)
    ensures IsControl(c) <==> c as int / 0x20 == 0 || c as int == 0x7F || c as int / 0x20 == 4
  {
  }

  function TrimStart(s: string): string {
    if s != [] && IsWhitespace(s[0]) then TrimStart(s[1..]) else s
  }

  function TrimEnd(s: string): string {
    if s != [] && IsWhitespace(s[|s| - 1]) then TrimEnd(s[..|s| - 1]) else s
  }

  function Trim(s: string): string { TrimEnd(TrimStart(s)) }

  predicate Blank(s: string) { forall i :: 0 <= i < |s| ==> IsWhitespace(s[i]) }

  lemma {:induction false} TrimStartSplits(s: string)
    ensures exists a :: Blank(a) && s == a + TrimStart(s)
    ensures TrimStart(s) != "" ==> !IsWhitespace(TrimStart(s)[0])
  {
    if s != [] && IsWhitespace(s[0]) {
      TrimStartSplits(s[1..]);
      var a :| Blank(a) && s[1..] == a + TrimStart(s[1..]);
      assert Blank([s[0]] + a) && s == [s[0]] + a + TrimStart(s);
    } else {
      assert Blank("") && s == "" + s;
    }
  }

  lemma {:induction false} TrimEndSplits(s: string)
    ensures exists b :: Blank(b) && s == TrimEnd(s) + b
    ensures TrimEnd(s) <= s && (TrimEnd(s) != "" ==> !IsWhitespace(TrimEnd(s)[|TrimEnd(s)| - 1]))
  {
    if s != [] && IsWhitespace(s[|s| - 1]) {
      var init := s[..|s| - 1];
      TrimEndSplits(init);
      var b :| Blank(b) && init == TrimEnd(init) + b;
      assert Blank(b + [s[|s| - 1]]) && s == TrimEnd(s) + (b + [s[|s| - 1]]);
    } else {
      assert Blank("") && s == s + "";
    }
  }

  /** Trimming takes whitespace off both ends, all of it and nothing else. */
  lemma TrimMeans(s: string)
    ensures exists a, b :: Blank(a) && Blank(b) && s == a + Trim(s) + b
    ensures var x := Trim(s); x != "" ==> !IsWhitespace(x[0]) && !IsWhitespace(x[|x| - 1])
  {
    TrimStartSplits(s);
    TrimEndSplits(TrimStart(s));
    var a :| Blank(a) && s == a + TrimStart(s);
    var b :| Blank(b) && TrimStart(s) == Trim(s) + b;
    assert s == a + Trim(s) + b;
  }

  lemma {:induction false} TrimStartShorter(s: string)
    ensures TrimStart(s) == s || |TrimStart(s)| < |s|
  {
    if s != [] && IsWhitespace(s[0]) { TrimStartShorter(s[1..]); }
  }

  lemma {:induction false} TrimEndShorter(s: string)
    ensures TrimEnd(s) == s || |TrimEnd(s)| < |s|
  {
    if s != [] && IsWhitespace(s[|s| - 1]) { TrimEndShorter(s[..|s| - 1]); }
  }

  lemma TrimShorter(s: string)
    ensures Trim(s) == s || |Trim(s)| < |s|
  {
    TrimStartShorter(s);
    TrimEndShorter(TrimStart(s));
  }

  /** Number of bytes of the UTF-8 form. */
  function Utf8Length(s: string): (n: nat)
    ensures n >= |s|
  {
    if s == [] then 0
    else
      var c := s[0] as int;
      (if c < 0x80 then 1 else if c < 0x800 then 2 else if c < 0x1_0000 then 3 else 4)
      + Utf8Length(s[1..])
  }

  /** The UTF-8 form of a character (section 3 of RFC 3629). */
  function Bytes(c: char): (r: seq<int>)
    ensures forall i :: 0 <= i < |r| ==> 0 <= r[i] < 256
  {
    var n := c as int;
    var a := n / 0x40;
    var b := a / 0x40;
    if n < 0x80 then [n]
    else if n < 0x800 then [0xC0 + a, 0x80 + n % 0x40]
    else if n < 0x1_0000 then [0xE0 + b, 0x80 + a % 0x40, 0x80 + n % 0x40]
    else [0xF0 + b / 0x40, 0x80 + b % 0x40, 0x80 + a % 0x40, 0x80 + n % 0x40]
  }

  /** The code point a sequence of that form stands for; its first byte says how long it is. */
  function CodePoint(b: seq<int>): Option<int> {
    if |b| == 1 && b[0] < 0x80 then Some(b[0])
    else if |b| == 2 && 0xC0 <= b[0] < 0xE0 then Some((b[0] - 0xC0) * 0x40 + (b[1] - 0x80))
    else if |b| == 3 && 0xE0 <= b[0] < 0xF0 then Some((b[0] - 0xE0) * 0x1000 + (b[1] - 0x80) * 0x40 + (b[2] - 0x80))
    else if |b| == 4 && 0xF0 <= b[0] then
      Some((b[0] - 0xF0) * 0x4_0000 + (b[1] - 0x80) * 0x1000 + (b[2] - 0x80) * 0x40 + (b[3] - 0x80))
    else None
  }

  lemma BytesDecode(c: char)
    ensures CodePoint(Bytes(c)) == Some(c as int)
  {
  }

  function Utf8(s: string): seq<int> { if s == "" then [] else Bytes(s[0]) + Utf8(s[1..]) }

  lemma {:induction false} Utf8LengthIs(s: string)
    ensures Utf8Length(s) == |Utf8(s)|
  {
    if s != "" { Utf8LengthIs(s[1..]); }
  }

  // --------------------------------------------------------- prefix range

  const MAX_CHAR: char := 0x10FFFF as char

  /** `char::from_u32(c + 1)`: no successor at the top, nor below the surrogates. */
  function NextChar(c: char): (r: Option<char>) {
    var n := c as int;
    if n == 0xD7FF || n == 0x10FFFF then None else Some((n + 1) as char)
  }

  /** The bound that replaces the last character that has a successor. */
  function UpperBound(prefix: string): (r: Option<string>)
    decreases |prefix|
  {
    if prefix == [] then None
    else
      var init := prefix[..|prefix| - 1];
      match NextChar(prefix[|prefix| - 1])
      case Some(next) => Some(init + [next])
      case None => UpperBound(init)
  }

  method LexicographicPrefixUpperBound(prefix: string) returns (bound: Option<string>)
    ensures bound == UpperBound(prefix)
    ensures bound.Some? ==> forall x :: prefix <= x ==> InRange(x, prefix, bound.value)
  {
    var idx := |prefix|;
    assert prefix[..idx] == prefix;
    while idx > 0
      invariant 0 <= idx <= |prefix|
      invariant UpperBound(prefix[..idx]) == UpperBound(prefix)
    {
      idx := idx - 1;
      assert prefix[..idx + 1][..idx] == prefix[..idx];
      match NextChar(prefix[idx]) {
        case Some(next) =>
          bound := Some(prefix[..idx] + [next]);
          forall x | prefix <= x ensures InRange(x, prefix, bound.value) {
            ExtensionInRange(prefix, x);
          }
          return;
        case None =>
      }
    }
    bound := None;
  }

  /** `key >= lo AND key < hi`. */
  predicate InRange(x: string, lo: string, hi: string) { !Less(x, lo) && Less(x, hi) }

  /** Where the bound differs from the prefix, and what was passed over to get there. */
  lemma {:induction false} UpperBoundShape(p: string) returns (k: nat)
    requires UpperBound(p).Some?
    ensures k < |p| && NextChar(p[k]).Some?
    ensures UpperBound(p).value == p[..k] + [NextChar(p[k]).value]
    ensures forall i :: k < i < |p| ==> NextChar(p[i]).None?
    decreases |p|
  {
    var init := p[..|p| - 1];
    if NextChar(p[|p| - 1]).Some? {
      k := |p| - 1;
    } else {
      k := UpperBoundShape(init);
      assert init[..k] == p[..k];
      assert forall i :: k < i < |init| ==> init[i] == p[i];
    }
  }

  lemma {:induction false} ExtensionNotLess(p: string, x: string)
    requires p <= x
    ensures !Less(x, p)
  {
    assert x == p + x[|p|..] && p == p + [];
    LessCancel(p, x[|p|..], []);
  }

  /** Complete: every extension of the prefix lies in the range. */
  lemma {:induction false} ExtensionInRange(p: string, x: string)
    requires UpperBound(p).Some? && p <= x
    ensures InRange(x, p, UpperBound(p).value)
  {
    var k := UpperBoundShape(p);
    ExtensionNotLess(p, x);
    var next := NextChar(p[k]).value;
    assert x == p[..k] + x[k..];
    LessCancel(p[..k], x[k..], [next]);
    assert x[k] == p[k];
  }

  /** Two strings that begin alike pen in everything between them. */
  lemma {:induction false} SandwichPrefix(q: string, a: string, x: string, b: string)
    requires !Less(x, q + a) && Less(x, q + b)
    ensures q <= x && !Less(x[|q|..], a) && Less(x[|q|..], b)
  {
    if q == [] {
      assert q + a == a && q + b == b;
    } else {
      assert x != [] && x[0] == q[0];
      assert (q + a)[1..] == q[1..] + a && (q + b)[1..] == q[1..] + b;
      SandwichPrefix(q[1..], a, x[1..], b);
      assert x == [x[0]] + x[1..] && q == [q[0]] + q[1..];
      assert x[|q|..] == x[1..][|q[1..]|..];
    }
  }

  /** Nothing but its own extensions lies above a run of top characters. */
  lemma {:induction false} AboveTopRun(r: string, x: string)
    requires forall i :: 0 <= i < |r| ==> r[i] == MAX_CHAR
    requires !Less(x, r)
    ensures r <= x
  {
    if r != [] {
      assert x != [] && x[0] == r[0];
      AboveTopRun(r[1..], x[1..]);
      assert x == [x[0]] + x[1..] && r == [r[0]] + r[1..];
    }
  }

  /** The characters passed over on the way to the bound are all top characters. */
  predicate OnlyTopPassedOver(p: string)
    requires UpperBound(p).Some?
  {
    forall i :: 0 <= i < |p| && |UpperBound(p).value| <= i ==> p[i] == MAX_CHAR
  }

  /** Between a character followed by top characters and its successor are only extensions. */
  lemma OneStepRange(t: string, y: string, next: char)
    requires t != [] && NextChar(t[0]) == Some(next) && forall i :: 0 < i < |t| ==> t[i] == MAX_CHAR
    requires !Less(y, t) && Less(y, [next])
    ensures t <= y
  {
    assert y != [] && y[0] == t[0];
    AboveTopRun(t[1..], y[1..]);
    assert t == [t[0]] + t[1..] && y == [y[0]] + y[1..];
  }

  lemma {:induction false} RangeSound(p: string, x: string)
    requires UpperBound(p).Some? && OnlyTopPassedOver(p)
    requires InRange(x, p, UpperBound(p).value)
    ensures p <= x
  {
    var k := UpperBoundShape(p);
    var next := NextChar(p[k]).value;
    assert p == p[..k] + p[k..];
    SandwichPrefix(p[..k], p[k..], x, [next]);
    OneStepRange(p[k..], x[k..], next);
    PrefixJoin(p[..k], p[k..], x);
  }

  lemma PrefixJoin(a: string, b: string, x: string)
    requires a <= x && b <= x[|a|..]
    ensures a + b <= x
  {
  }

  lemma {:induction false} RangeLeaks(p: string) returns (x: string)
    requires UpperBound(p).Some? && !OnlyTopPassedOver(p)
    ensures InRange(x, p, UpperBound(p).value) && !(p <= x)
  {
    var k := UpperBoundShape(p);
    var i :| 0 <= i < |p| && |UpperBound(p).value| <= i && p[i] != MAX_CHAR;
    x := p[..i] + [0xE000 as char];
    assert p == p[..i] + p[i..];
    LessCancel(p[..i], [0xE000 as char], p[i..]);
    assert x == p[..k] + x[k..];
    LessCancel(p[..k], x[k..], [NextChar(p[k]).value]);
    assert x[k] == p[k];
    assert x[i] != p[i];
  }

  /**
   The range [prefix, bound) is the set of extensions of the prefix exactly when
   no U+D7FF, whose successor is a surrogate, was passed over to build the bound.
   */
  lemma RangeExactIff(p: string)
    requires UpperBound(p).Some?
    ensures (forall x :: InRange(x, p, UpperBound(p).value) <==> p <= x) <==> OnlyTopPassedOver(p)
  {
    if OnlyTopPassedOver(p) {
      forall x ensures InRange(x, p, UpperBound(p).value) <==> p <= x {
        if p <= x { ExtensionInRange(p, x); }
        if InRange(x, p, UpperBound(p).value) { RangeSound(p, x); }
      }
    } else {
      var x := RangeLeaks(p);
    }
  }
}
