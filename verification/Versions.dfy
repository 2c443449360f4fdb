/**
 * AILibraryManager::VersionCompare: versions are split at the dots, the comparisons of
 * the parts are folded into one weighted sum, and the sign of that sum is the answer.
 */
module Versions {
  import opened Strings

  // ----- splitting at dots (empty tokens are skipped) -----

  function TokenLength(s: string): (n: nat)
    ensures n <= |s|
    ensures forall i :: 0 <= i < n ==> s[i] != '.'
    ensures n < |s| ==> s[n] == '.'
  {
    if s == "" || s[0] == '.' then 0 else 1 + TokenLength(s[1..])
  }

  function Split(s: string): (parts: seq<string>)
    ensures forall i :: 0 <= i < |parts| ==> IsPart(parts[i])
    decreases |s|
  {
    if s == "" then []
    else if s[0] == '.' then Split(s[1..])
    else
      var n := TokenLength(s);
      [s[..n]] + Split(s[n..])
  }

  predicate IsPart(p: string) {
    p != "" && '.' !in p
  }

  function Join(parts: seq<string>): string {
    if parts == [] then ""
    else if |parts| == 1 then parts[0]
    else parts[0] + "." + Join(parts[1..])
  }

  /** Every list of parts is the list of parts of some version string. */
  lemma {:induction false} SplitJoin(parts: seq<string>)
    requires forall i :: 0 <= i < |parts| ==> IsPart(parts[i])
    ensures Split(Join(parts)) == parts
  {
    if |parts| == 1 {
      TokenLengthOfPart(parts[0], "");
      assert parts[0] + "" == parts[0];
      assert parts[0][..|parts[0]|] == parts[0];
      assert Split(parts[0][|parts[0]|..]) == [];
    } else if |parts| > 1 {
      var rest := "." + Join(parts[1..]);
      var s := parts[0] + rest;
      assert Join(parts) == s by { assert parts[0] + "." + Join(parts[1..]) == s; }
      TokenLengthOfPart(parts[0], rest);
      assert s[..|parts[0]|] == parts[0] && s[|parts[0]|..] == rest;
      assert rest[1..] == Join(parts[1..]);
      SplitJoin(parts[1..]);
      assert s[0] == parts[0][0];
    }
  }

  lemma {:induction false} TokenLengthOfPart(p: string, rest: string)
    requires '.' !in p && (rest == "" || rest[0] == '.')
    ensures TokenLength(p + rest) == |p|
  {
    if p == "" {
      assert p + rest == rest;
    } else {
      assert (p + rest)[1..] == p[1..] + rest;
      TokenLengthOfPart(p[1..], rest);
    }
  }

  /** A dot separates, wherever it stands and however many there are: empty parts are dropped. */
  lemma {:induction false} SplitAtDot(v: string, w: string)
    ensures Split(v + "." + w) == Split(v) + Split(w)
    decreases |v|
  {
    var s := v + "." + w;
    if v == "" {
      assert s[1..] == w;
    } else if v[0] == '.' {
      assert s[1..] == v[1..] + "." + w;
      SplitAtDot(v[1..], w);
    } else {
      var n := TokenLength(v);
      TokenStays(v, w);
      assert s[..n] == v[..n];
      assert s[n..] == v[n..] + "." + w;
      SplitAtDot(v[n..], w);
    }
  }

  lemma {:induction false} TokenStays(v: string, w: string)
    ensures TokenLength(v + "." + w) == TokenLength(v)
    decreases |v|
  {
    var s := v + "." + w;
    if v != "" && v[0] != '.' {
      assert s[1..] == v[1..] + "." + w;
      TokenStays(v[1..], w);
    }
  }

  // ----- the documented order: part by part, missing parts count as "0" -----

  function Head(parts: seq<string>): string {
    if parts == [] then "0" else parts[0]
  }

  function Tail(parts: seq<string>): seq<string> {
    if parts == [] then [] else parts[1..]
  }

  /** -1, 0 or 1: the zero-padded lexicographic comparison of two lists of parts. */
  function Lex(p: seq<string>, q: seq<string>): int
    decreases |p| + |q|
  {
    if p == [] && q == [] then 0
    else if Less(Head(p), Head(q)) then -1
    else if Less(Head(q), Head(p)) then 1
    else Lex(Tail(p), Tail(q))
  }

  function Order(v: string, w: string): int {
    Lex(Split(v), Split(w))
  }

  lemma {:induction false} LexAntisymmetric(p: seq<string>, q: seq<string>)
    ensures Lex(p, q) == -Lex(q, p)
    decreases |p| + |q|
  {
    Trichotomy(Head(p), Head(q));
    if p != [] || q != [] {
      LexAntisymmetric(Tail(p), Tail(q));
    }
  }

  /** The order is transitive across different part counts, in the weak and in the strict form. */
  lemma {:induction false} LexTransitive(p: seq<string>, q: seq<string>, r: seq<string>)
    requires Lex(p, q) <= 0 && Lex(q, r) <= 0
    ensures Lex(p, r) <= 0
    ensures Lex(p, r) == 0 ==> Lex(p, q) == 0 && Lex(q, r) == 0
    decreases |p| + |q| + |r|
  {
    if p == [] && q == [] && r == [] {
      return;
    }
    var a, b, c := Head(p), Head(q), Head(r);
    Trichotomy(a, b);
    Trichotomy(b, c);
    Trichotomy(a, c);
    LexHead(p, q);
    LexHead(q, r);
    LexHead(p, r);
    if a == b && b == c {
      LexTransitive(Tail(p), Tail(q), Tail(r));
    } else if a != b && b != c {
      Transitivity(a, b, c);
    }
  }

  /** Unfolding Lex by one part is right for empty lists as well. */
  lemma {:induction false} LexHead(p: seq<string>, q: seq<string>)
    ensures Lex(p, q) ==
            if Less(Head(p), Head(q)) then -1
            else if Less(Head(q), Head(p)) then 1
            else Lex(Tail(p), Tail(q))
  {
  }

  // ----- the weighted sum -----

  function Pow4(n: nat): (r: nat)
    ensures r >= 1
  {
    if n == 0 then 1 else 4 * Pow4(n - 1)
  }

  function Sign(x: int): int {
    if x < 0 then -1 else if x == 0 then 0 else 1
  }

  /** The comparisons of corresponding parts, most significant first. */
  function Diffs(cmp: (string, string) -> int, p: seq<string>, q: seq<string>): (d: seq<int>)
    ensures |d| == if |p| > |q| then |p| else |q|
    decreases |p| + |q|
  {
    if p == [] && q == [] then [] else [cmp(Head(p), Head(q))] + Diffs(cmp, Tail(p), Tail(q))
  }

  /** The sum the loop accumulates: part i of n weighs 4^(n-i). */
  function Weighted(d: seq<int>): int {
    if d == [] then 0 else Pow4(|d|) * d[0] + Weighted(d[1..])
  }

  /** The sign of the first comparison that is not zero. */
  function Leading(d: seq<int>): int {
    if d == [] then 0 else if d[0] != 0 then Sign(d[0]) else Leading(d[1..])
  }

  lemma {:induction false} LeadingIsLex(cmp: (string, string) -> int, p: seq<string>, q: seq<string>)
    requires IsCompare(cmp)
    ensures Leading(Diffs(cmp, p, q)) == Lex(p, q)
    decreases |p| + |q|
  {
    if p != [] || q != [] {
      LeadingIsLex(cmp, Tail(p), Tail(q));
      Trichotomy(Head(p), Head(q));
      assert Diffs(cmp, p, q)[1..] == Diffs(cmp, Tail(p), Tail(q));
    }
  }

  /** The sum after the first k parts. */
  function Partial(d: seq<int>, k: nat): int
    requires k <= |d|
  {
    Weighted(d) - Weighted(d[k..])
  }

  /** If no comparison exceeds `top`, every partial sum stays below top times the geometric series. */
  lemma {:induction false} PartialBound(d: seq<int>, k: nat, top: nat)
    requires k <= |d| && forall i :: 0 <= i < |d| ==> d[i] <= top
    ensures 3 * Partial(d, k) <= top * (Pow4(|d| + 1) - 4)
    decreases |d|
  {
    if k == 0 {
      assert d[0..] == d;
      assert Pow4(|d| + 1) == 4 * Pow4(|d|);
      assert top * (Pow4(|d| + 1) - 4) >= 0;
    } else {
      PartialBound(d[1..], k - 1, top);
      assert d[1..][k - 1..] == d[k..];
      MulMonotone(Pow4(|d|), d[0], top);
      OneMoreWeight(top, Pow4(|d|), d[0], Partial(d[1..], k - 1));
    }
  }

  lemma OneMoreWeight(top: nat, w: nat, x: int, rest: int)
    requires w * x <= w * top && 3 * rest <= top * (w - 4)
    ensures 3 * (w * x + rest) <= top * (4 * w - 4)
  {
    assert top * (4 * w - 4) == 3 * (w * top) + top * (w - 4);
  }

  lemma WeightedBound(d: seq<int>, top: nat)
    requires forall i :: 0 <= i < |d| ==> d[i] <= top
    ensures 3 * Weighted(d) <= top * (Pow4(|d| + 1) - 4)
  {
    PartialBound(d, |d|, top);
    assert d[|d|..] == [];
  }

  lemma MulMonotone(w: nat, x: int, y: int)
    requires x <= y
    ensures w * x <= w * y
  {
  }

  lemma {:induction false} WeightedNegate(d: seq<int>)
    ensures Weighted(Negated(d)) == -Weighted(d)
    ensures Leading(Negated(d)) == -Leading(d)
  {
    if d != [] {
      WeightedNegate(d[1..]);
      assert Negated(d)[1..] == Negated(d[1..]);
      assert Pow4(|d|) * -d[0] == -(Pow4(|d|) * d[0]);
    }
  }

  function Negated(d: seq<int>): (e: seq<int>)
    ensures |e| == |d|
    ensures forall i :: 0 <= i < |d| ==> e[i] == -d[i]
  {
    seq(|d|, i requires 0 <= i < |d| => -d[i])
  }

  lemma PartialNegate(d: seq<int>, k: nat)
    requires k <= |d|
    ensures Partial(Negated(d), k) == -Partial(d, k)
  {
    WeightedNegate(d);
    WeightedNegate(d[k..]);
    assert Negated(d)[k..] == Negated(d[k..]);
  }

  /** Opposite comparisons are within a factor of three of each other. */
  ghost predicate BalancedDiffs(d: seq<int>) {
    forall i, j :: 0 <= i < |d| && 0 <= j < |d| && d[i] < 0 < d[j] ==> d[j] <= -3 * d[i] && -d[i] <= 3 * d[j]
  }

  /** The sum has the sign of its most significant comparison, as long as the comparisons are balanced. */
  lemma {:induction false} SignOfWeighted(d: seq<int>)
    requires BalancedDiffs(d)
    ensures Sign(Weighted(d)) == Leading(d)
  {
    if d == [] {
    } else if d[0] == 0 {
      SignOfWeighted(d[1..]);
    } else if d[0] < 0 {
      NegativeLead(d);
    } else {
      NegativeLead(Negated(d));
      WeightedNegate(d);
    }
  }

  lemma {:induction false} NegativeLead(d: seq<int>)
    requires BalancedDiffs(d) && d != [] && d[0] < 0
    ensures Weighted(d) < 0
  {
    var m := -d[0];
    forall i | 0 <= i < |d[1..]|
      ensures d[1..][i] <= 3 * m
    {
      assert d[1..][i] == d[i + 1];
    }
    WeightedBound(d[1..], 3 * m);
    LeadOutweighs(Pow4(|d|), m, Weighted(d[1..]));
    assert Pow4(|d|) * d[0] == -(Pow4(|d|) * m);
  }

  lemma LeadOutweighs(w: nat, m: nat, rest: int)
    requires m >= 1 && 3 * rest <= (3 * m) * (w - 4)
    ensures rest - w * m < 0
  {
    assert (3 * m) * (w - 4) == 3 * (w * m) - 12 * m;
  }

  // ----- comparisons of parts -----

  lemma {:induction false} DiffsArePartComparisons(cmp: (string, string) -> int, p: seq<string>, q: seq<string>)
    requires forall i :: 0 <= i < |p| ==> IsPart(p[i])
    requires forall i :: 0 <= i < |q| ==> IsPart(q[i])
    ensures forall i :: 0 <= i < |Diffs(cmp, p, q)| ==> ComparesParts(cmp, Diffs(cmp, p, q)[i])
    decreases |p| + |q|
  {
    var d := Diffs(cmp, p, q);
    if p != [] || q != [] {
      DiffsArePartComparisons(cmp, Tail(p), Tail(q));
      assert IsPart(Head(p)) && IsPart(Head(q)) && d[0] == cmp(Head(p), Head(q));
      assert d == [d[0]] + Diffs(cmp, Tail(p), Tail(q));
    }
  }

  ghost predicate ComparesParts(cmp: (string, string) -> int, x: int) {
    exists a, b :: IsPart(a) && IsPart(b) && x == cmp(a, b)
  }

  function Copies(p: string, k: nat): (ps: seq<string>)
    ensures |ps| == k && forall i :: 0 <= i < k ==> ps[i] == p
  {
    if k == 0 then [] else [p] + Copies(p, k - 1)
  }

  lemma {:induction false} DiffsOfCopies(cmp: (string, string) -> int, r: string, s: string, k: nat)
    ensures |Diffs(cmp, Copies(r, k), Copies(s, k))| == k
    ensures 3 * Weighted(Diffs(cmp, Copies(r, k), Copies(s, k))) == cmp(r, s) * (Pow4(k + 1) - 4)
  {
    if k > 0 {
      DiffsOfCopies(cmp, r, s, k - 1);
      var d := Diffs(cmp, Copies(r, k), Copies(s, k));
      assert d[0] == cmp(r, s);
      assert d[1..] == Diffs(cmp, Copies(r, k - 1), Copies(s, k - 1));
      var w, c := Pow4(k), cmp(r, s);
      assert c * (4 * w - 4) == 3 * (w * c) + c * (w - 4);
    } else {
      assert Pow4(1) == 4 * Pow4(0);
    }
  }

  // ----- 32-bit arithmetic -----

  const TWO_31: int := 0x8000_0000
  const TWO_32: int := 0x1_0000_0000
  const INT_MAX: int := TWO_31 - 1

  /** Reduction to a signed 32-bit value. */
  function Wrap32(x: int): (r: int)
    ensures -TWO_31 <= r < TWO_31
    ensures -TWO_31 <= x < TWO_31 ==> r == x
  {
    (x + TWO_31) % TWO_32 - TWO_31
  }

  lemma WrapOfWrap(x: int, y: int)
    ensures Wrap32(Wrap32(x) + y) == Wrap32(x + y)
  {
    var k := (x + TWO_31) / TWO_32;
    assert Wrap32(x) == x - k * TWO_32;
    ModShift(x + y + TWO_31, -k);
  }

  lemma ModShift(a: int, k: int)
    ensures (a + k * TWO_32) % TWO_32 == a % TWO_32
  {
    var q, r := a / TWO_32, a % TWO_32;
    assert a + k * TWO_32 == (q + k) * TWO_32 + r;
    DivisionUnique(a + k * TWO_32, q + k, r);
  }

  lemma DivisionUnique(a: int, q: int, r: int)
    requires a == q * TWO_32 + r && 0 <= r < TWO_32
    ensures a % TWO_32 == r
  {
    var q', r' := a / TWO_32, a % TWO_32;
    assert (q - q') * TWO_32 == r' - r;
  }

  /** The 32-bit pattern of a signed value, as the cast to unsigned gives it. */
  function Unsigned32(x: int): (u: int)
    requires -TWO_31 <= x < TWO_31
    ensures 0 <= u < TWO_32
  {
    if x < 0 then x + TWO_32 else x
  }

  /** The value of a 32-bit pattern read as a signed integer. */
  function Signed32(u: bv32): int {
    if u < 0x8000_0000 then u as int else u as int - TWO_32
  }

  /** The expression that ends VersionCompare: (x != 0) | -(int)((unsigned)x >> 31). */
  function BitSign(x: int): (r: int)
    requires -TWO_31 <= x < TWO_31
    ensures r == Sign(x)
  {
    var nonZero: bv32 := if x != 0 then 1 else 0;
    var top: bv32 := if Unsigned32(x) / TWO_31 == 1 then 1 else 0;
    Signed32(nonZero | (0 - top))
  }

  /** No sum that the loop forms overflows if comparisons are at most three (or one) in magnitude. */
  lemma NoOverflow(d: seq<int>, k: nat)
    requires (|d| <= 14 && forall i :: 0 <= i < |d| ==> -3 <= d[i] <= 3)
          || (|d| <= 15 && forall i :: 0 <= i < |d| ==> -1 <= d[i] <= 1)
    requires k <= |d|
    ensures -TWO_31 <= Partial(d, k) < TWO_31
  {
    var top := if |d| <= 14 && forall i :: 0 <= i < |d| ==> -3 <= d[i] <= 3 then 3 else 1;
    PartialBound(d, k, top);
    PartialNegate(d, k);
    PartialBound(Negated(d), k, top);
    Pow4Values();
    if |d| <= 14 { Pow4Monotone(|d| + 1, 15); } else { Pow4Monotone(|d| + 1, 16); }
  }

  lemma Pow4Values()
    ensures Pow4(15) == 0x4000_0000 && Pow4(16) == TWO_32
  {
    assert Pow4(4) == 256;
    assert Pow4(8) == 0x1_0000;
    assert Pow4(12) == 0x100_0000;
  }

  lemma {:induction false} Pow4Monotone(m: nat, n: nat)
    requires m <= n
    ensures Pow4(m) <= Pow4(n)
  {
    if m < n {
      Pow4Monotone(m, n - 1);
    }
  }

  // ----- the loop -----

  /** Comparisons of parts stay within three, and no version has more than fourteen parts. */
  ghost predicate SmallCompare(cmp: (string, string) -> int) {
    IsCompare(cmp) && forall p, q {:trigger cmp(p, q)} :: IsPart(p) && IsPart(q) ==> -3 <= cmp(p, q) <= 3
  }

  predicate ShortVersion(v: string) {
    |Split(v)| <= 14
  }

  /** What VersionCompare returns for any comparison function. */
  function Coded(cmp: (string, string) -> int, v: string, w: string): (r: int)
    ensures r == -1 || r == 0 || r == 1
  {
    Sign(Wrap32(Weighted(Diffs(cmp, Split(v), Split(w)))))
  }

  lemma CodedIsSign(cmp: (string, string) -> int, v: string, w: string)
    ensures Coded(cmp, v, w) == Sign(Wrap32(Weighted(Diffs(cmp, Split(v), Split(w)))))
  {
  }

  /**
   * The comparison loop, in 32-bit arithmetic. The shift amounts are defined for at
   * most fifteen parts; the answer is the documented order whenever the parts' comparisons are
   * within three and there are at most fourteen of them.
   */
  method VersionCompare(cmp: (string, string) -> int, version1: string, version2: string) returns (r: int)
    requires |Split(version1)| <= 15 && |Split(version2)| <= 15
    ensures r == Coded(cmp, version1, version2)
    ensures SmallCompare(cmp) && ShortVersion(version1) && ShortVersion(version2) ==> r == Order(version1, version2)
  {
    hide *;
    var parts1, parts2 := Split(version1), Split(version2);
    var maxParts := if |parts1| > |parts2| then |parts1| else |parts2|;
    ghost var d := Diffs(cmp, parts1, parts2);
    var diff := 0;
    var i := 0;
    SumUpToEnds(d);
    while i < maxParts
      invariant 0 <= i <= maxParts
      invariant diff == SumUpTo(d, i)
    {
      var v1p := if i < |parts1| then parts1[i] else "0";
      var v2p := if i < |parts2| then parts2[i] else "0";
      DiffsAt(cmp, parts1, parts2, i);
      var term := Times(Pow4(maxParts - i), cmp(v1p, v2p));
      WrapStep(d, i);
      diff := Plus32(diff, term);
      i := i + 1;
    }
    r := BitSign(diff);
    assert r == Coded(cmp, version1, version2) by { CodedIsSign(cmp, version1, version2); }
    assert SmallCompare(cmp) && ShortVersion(version1) && ShortVersion(version2) ==> r == Order(version1, version2) by {
      if SmallCompare(cmp) && ShortVersion(version1) && ShortVersion(version2) {
        SmallIsFaithful(cmp, version1, version2);
      }
    }
  }

  function Plus32(x: int, y: int): int {
    Wrap32(x + y)
  }

  function Times(w: int, x: int): int {
    w * x
  }

  /** The 32-bit sum over the parts before part i. */
  function SumUpTo(d: seq<int>, i: nat): int
    requires i <= |d|
  {
    Wrap32(Partial(d, i))
  }

  lemma SumUpToEnds(d: seq<int>)
    ensures SumUpTo(d, 0) == 0
    ensures SumUpTo(d, |d|) == Wrap32(Weighted(d))
  {
    assert d[0..] == d;
  }

  /** One round of the loop: the sum grows by the weighted comparison of part i. */
  lemma WrapStep(d: seq<int>, i: nat)
    requires i < |d|
    ensures Plus32(SumUpTo(d, i), Times(Pow4(|d| - i), d[i])) == SumUpTo(d, i + 1)
  {
    assert d[i..][1..] == d[i + 1..];
    WrapOfWrap(Partial(d, i), Times(Pow4(|d| - i), d[i]));
  }

  lemma {:induction false} DiffsAt(cmp: (string, string) -> int, p: seq<string>, q: seq<string>, i: nat)
    requires i < |p| || i < |q|
    ensures Diffs(cmp, p, q)[i] == cmp(if i < |p| then p[i] else "0", if i < |q| then q[i] else "0")
    decreases i
  {
    if i > 0 {
      DiffsAt(cmp, Tail(p), Tail(q), i - 1);
    }
  }

  lemma SmallIsFaithful(cmp: (string, string) -> int, v: string, w: string)
    requires SmallCompare(cmp) && ShortVersion(v) && ShortVersion(w)
    ensures Coded(cmp, v, w) == Order(v, w)
  {
    var d := Diffs(cmp, Split(v), Split(w));
    DiffsArePartComparisons(cmp, Split(v), Split(w));
    forall i | 0 <= i < |d|
      ensures -3 <= d[i] <= 3
    {
      assert ComparesParts(cmp, d[i]);
      var a, b :| IsPart(a) && IsPart(b) && d[i] == cmp(a, b);
    }
    NoOverflow(d, |d|);
    assert d[|d|..] == [];
    SignOfWeighted(d);
    LeadingIsLex(cmp, Split(v), Split(w));
  }

  // ----- both bounds are tight -----

  /** One comparison of magnitude four is enough to turn the order of two parts around. */
  lemma FourIsTooMuch()
    ensures Leading([-1, 4]) == -1 && Sign(Weighted([-1, 4])) == 0
    ensures Leading([-1, 5]) == -1 && Sign(Weighted([-1, 5])) == 1
  {
    assert Pow4(2) == 16 && Pow4(1) == 4;
    assert [-1, 4][1..] == [4] && [-1, 5][1..] == [5];
  }

  /** With byte differences as magnitudes, "0.9" is put after "1.0". */
  lemma ByteDifferencesMisorder(cmp: (string, string) -> int)
    requires IsCompare(cmp) && cmp("0", "1") == -1 && cmp("9", "0") == 9
    ensures Order("0.9", "1.0") == -1
    ensures Weighted(Diffs(cmp, Split("0.9"), Split("1.0"))) == 20 && Coded(cmp, "0.9", "1.0") == 1
  {
    var p, q := ["0", "9"], ["1", "0"];
    assert Join(p) == "0.9" && Join(q) == "1.0" by {
      assert p[1..] == ["9"] && q[1..] == ["0"];
      assert Join(["9"]) == "9" && Join(["0"]) == "0";
    }
    SplitJoin(p);
    SplitJoin(q);
    TwoPartsMisordered(cmp, p, q);
    CodedIsSign(cmp, "0.9", "1.0");
    assert Wrap32(20) == 20;
  }

  lemma TwoPartsMisordered(cmp: (string, string) -> int, p: seq<string>, q: seq<string>)
    requires IsCompare(cmp) && |p| == 2 && |q| == 2 && cmp(p[0], q[0]) == -1 && cmp(p[1], q[1]) == 9
    ensures Lex(p, q) == -1 && Weighted(Diffs(cmp, p, q)) == 20
  {
    var d := Diffs(cmp, p, q);
    DiffsAt(cmp, p, q, 0);
    DiffsAt(cmp, p, q, 1);
    assert d == [-1, 9] && d[1..] == [9];
    assert Pow4(2) == 16 && Pow4(1) == 4;
    assert Weighted([9]) == 36;
    assert Weighted(d) == 20;
    LeadingIsLex(cmp, p, q);
  }

  /** Fifteen parts that all compare as three wrap around to a negative sum. */
  lemma FifteenThreesWrap(cmp: (string, string) -> int, p: string, q: string)
    requires IsCompare(cmp) && IsPart(p) && IsPart(q) && cmp(p, q) == 3
    ensures Lex(Copies(p, 15), Copies(q, 15)) == 1
    ensures Sign(Wrap32(Weighted(Diffs(cmp, Copies(p, 15), Copies(q, 15))))) == -1
  {
    DiffsOfCopies(cmp, p, q, 15);
    Pow4Values();
    LeadingIsLex(cmp, Copies(p, 15), Copies(q, 15));
    DiffsAt(cmp, Copies(p, 15), Copies(q, 15), 0);
  }
}
