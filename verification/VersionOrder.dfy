/**
 * Exactly when VersionCompare, as a 32-bit sum over at most fifteen parts, gives the documented
 * order: which comparison functions never overflow it, and which of these order all versions.
 */
module VersionOrder {
  import opened Strings
  import opened Versions

  /** Three times the sum of the weights of n parts. */
  function Series(n: nat): (r: nat)
    ensures r == Pow4(n + 1) - 4
  {
    Pow4AtLeast(n);
    Pow4(n + 1) - 4
  }

  lemma {:induction false} Pow4AtLeast(n: nat)
    ensures Pow4(n + 1) >= 4
  {
    assert Pow4(n + 1) == 4 * Pow4(n);
  }

  lemma SeriesGrows(m: nat, n: nat)
    requires m <= n
    ensures Series(m) <= Series(n)
  {
    Pow4Monotone(m + 1, n + 1);
  }

  /** The greatest of the comparisons and zero. */
  function Top(d: seq<int>): (top: nat)
    ensures forall i :: 0 <= i < |d| ==> d[i] <= top
    ensures top == 0 || exists i :: 0 <= i < |d| && d[i] == top
  {
    if d == [] then 0
    else
      var rest := Top(d[1..]);
      assert forall i :: 1 <= i < |d| ==> d[i] == d[1..][i - 1];
      if d[0] > rest then d[0] else rest
  }

  // ----- which comparison functions never overflow -----

  predicate InInt(x: int) {
    -TWO_31 <= x < TWO_31
  }

  /** A sum of n equal comparisons fits into 32 bits. */
  ghost predicate Fits(cmp: (string, string) -> int, n: nat) {
    forall p, q {:trigger cmp(p, q)} :: IsPart(p) && IsPart(q) ==> FitsOne(cmp(p, q), n)
  }

  predicate FitsOne(c: int, n: nat) {
    -3 * TWO_31 <= c * Series(n) < 3 * TWO_31
  }

  /** No sum that VersionCompare forms on the way overflows. */
  ghost predicate NeverOverflows(cmp: (string, string) -> int, n: nat) {
    forall p, q, k: nat {:trigger Partial(Diffs(cmp, p, q), k)} ::
      PartsUpTo(p, n) && PartsUpTo(q, n) && k <= |Diffs(cmp, p, q)| ==> InInt(Partial(Diffs(cmp, p, q), k))
  }

  predicate PartsUpTo(p: seq<string>, n: nat) {
    |p| <= n && forall i :: 0 <= i < |p| ==> IsPart(p[i])
  }

  lemma {:induction false} PartialsFit(d: seq<int>, k: nat, n: nat)
    requires k <= |d| <= n && forall i :: 0 <= i < |d| ==> FitsOne(d[i], n)
    ensures InInt(Partial(d, k))
  {
    UpperFits(d, k, n);
    LowerFits(d, k, n);
  }

  lemma UpperFits(d: seq<int>, k: nat, n: nat)
    requires k <= |d| <= n && forall i :: 0 <= i < |d| ==> FitsOne(d[i], n)
    ensures Partial(d, k) < TWO_31
  {
    var top := Top(d);
    PartialBound(d, k, top);
    SeriesGrows(|d|, n);
    MulMonotone(top, Series(|d|), Series(n));
    if top != 0 {
      var i :| 0 <= i < |d| && d[i] == top;
      assert FitsOne(d[i], n);
    }
  }

  lemma LowerFits(d: seq<int>, k: nat, n: nat)
    requires k <= |d| <= n && forall i :: 0 <= i < |d| ==> FitsOne(d[i], n)
    ensures -TWO_31 <= Partial(d, k)
  {
    hide Series, Weighted, Partial;
    var e := Negated(d);
    var top := Top(e);
    PartialNegate(d, k);
    PartialBound(e, k, top);
    SeriesGrows(|d|, n);
    MulMonotone(top, Series(|d|), Series(n));
    if top != 0 {
      var i :| 0 <= i < |e| && e[i] == top;
      assert FitsOne(d[i], n);
      NegativeProduct(top, Series(n));
    }
  }

  lemma NegativeProduct(x: int, y: int)
    ensures -x * y == -(x * y)
  {
  }

  /** The sums over up to n parts never overflow exactly if n equal comparisons never do. */
  lemma NeverOverflowsIff(cmp: (string, string) -> int, n: nat)
    ensures NeverOverflows(cmp, n) <==> Fits(cmp, n)
  {
    if Fits(cmp, n) {
      forall p, q, k: nat | PartsUpTo(p, n) && PartsUpTo(q, n) && k <= |Diffs(cmp, p, q)|
        ensures InInt(Partial(Diffs(cmp, p, q), k))
      {
        DiffsFit(cmp, p, q, n);
        PartialsFit(Diffs(cmp, p, q), k, n);
      }
    }
    if NeverOverflows(cmp, n) {
      forall p, q | IsPart(p) && IsPart(q)
        ensures FitsOne(cmp(p, q), n)
      {
        var d := Diffs(cmp, Copies(p, n), Copies(q, n));
        DiffsOfCopies(cmp, p, q, n);
        assert InInt(Partial(d, n));
        assert d[n..] == [];
      }
    }
  }

  /** Then no single weighted comparison overflows either. */
  lemma TermsFit(c: int, m: nat, n: nat)
    requires 1 <= m <= n && FitsOne(c, n)
    ensures InInt(Pow4(m) * c)
  {
    Pow4Monotone(m, n);
    Pow4Monotone(1, n);
    assert Pow4(1) == 4 * Pow4(0);
    assert Pow4(n + 1) == 4 * Pow4(n);
    SmallerFactor(3 * Pow4(m), Series(n), c);
    assert 3 * (Pow4(m) * c) == 3 * Pow4(m) * c;
  }

  lemma SmallerFactor(x: nat, y: nat, c: int)
    requires x <= y
    ensures c >= 0 ==> 0 <= x * c <= c * y
    ensures c < 0 ==> c * y <= x * c <= 0
  {
    if c >= 0 { MulMonotone(c, x, y); } else { MulMonotone(-c, x, y); }
  }

  lemma DiffsFit(cmp: (string, string) -> int, p: seq<string>, q: seq<string>, n: nat)
    requires Fits(cmp, n) && PartsUpTo(p, n) && PartsUpTo(q, n)
    ensures var d := Diffs(cmp, p, q); |d| <= n && forall i :: 0 <= i < |d| ==> FitsOne(d[i], n)
  {
    DiffsArePartComparisons(cmp, p, q);
    var d := Diffs(cmp, p, q);
    forall i | 0 <= i < |d|
      ensures FitsOne(d[i], n)
    {
      assert ComparesParts(cmp, d[i]);
      var a, b :| IsPart(a) && IsPart(b) && d[i] == cmp(a, b);
    }
  }

  /** The sign of the sum over integers of any size. */
  function ExactSign(cmp: (string, string) -> int, v: string, w: string): int {
    Sign(Weighted(Diffs(cmp, Split(v), Split(w))))
  }

  /** Without overflow, VersionCompare returns the sign of the exact sum. */
  lemma CodedIsExact(cmp: (string, string) -> int, v: string, w: string, n: nat)
    requires Fits(cmp, n) && |Split(v)| <= n && |Split(w)| <= n
    ensures Coded(cmp, v, w) == ExactSign(cmp, v, w)
  {
    var d := Diffs(cmp, Split(v), Split(w));
    DiffsFit(cmp, Split(v), Split(w), n);
    PartialsFit(d, |d|, n);
    assert d[|d|..] == [];
  }

  // ----- which of them order all versions -----

  /** A first comparison a outweighs n - 1 opposite ones of magnitude b. */
  predicate OutweighsOne(a: int, b: int, n: nat) {
    b * (Pow4(n) - 4) < 3 * (Pow4(n) * a)
  }

  ghost predicate Outweighs(cmp: (string, string) -> int, n: nat) {
    forall p, q, r, s {:trigger cmp(p, q), cmp(r, s)} ::
      IsPart(p) && IsPart(q) && IsPart(r) && IsPart(s) && cmp(p, q) < 0 < cmp(r, s)
      ==> OutweighsOne(-cmp(p, q), cmp(r, s), n) && OutweighsOne(cmp(r, s), -cmp(p, q), n)
  }

  /** VersionCompare gives the documented order on all versions of up to n parts. */
  ghost predicate OrdersUpTo(cmp: (string, string) -> int, n: nat) {
    forall v, w {:trigger Coded(cmp, v, w)} ::
      |Split(v)| <= n && |Split(w)| <= n ==> Coded(cmp, v, w) == Order(v, w)
  }

  ghost predicate ExactOrdersUpTo(cmp: (string, string) -> int, n: nat) {
    forall v, w {:trigger ExactSign(cmp, v, w)} ::
      |Split(v)| <= n && |Split(w)| <= n ==> ExactSign(cmp, v, w) == Order(v, w)
  }

  /** What outweighs n - 1 parts outweighs fewer. */
  lemma OutweighsFewer(a: int, b: int, m: nat, n: nat)
    requires m <= n && b > 0 && OutweighsOne(a, b, n)
    ensures OutweighsOne(a, b, m)
  {
    Pow4Monotone(m, n);
    Expand(a, b, Pow4(m), 3 * a - b);
    Expand(a, b, Pow4(n), 3 * a - b);
    Shrink(Pow4(m), Pow4(n), 3 * a - b, b);
  }

  lemma Expand(a: int, b: int, x: int, c: int)
    requires c == 3 * a - b
    ensures 3 * (x * a) - b * (x - 4) == x * c + 4 * b
  {
    assert x * c == 3 * (x * a) - x * b;
  }

  lemma Shrink(x: int, y: int, c: int, b: int)
    requires 0 <= x <= y && b > 0 && y * c + 4 * b > 0
    ensures x * c + 4 * b > 0
  {
    if c >= 0 {
      assert x * c >= 0;
    } else {
      MulMonotone(-c, x, y);
      assert -c * x == -(x * c) && -c * y == -(y * c);
    }
  }

  ghost predicate OutweighsIn(d: seq<int>, n: nat) {
    forall i, j :: 0 <= i < |d| && 0 <= j < |d| && d[i] < 0 < d[j]
      ==> OutweighsOne(-d[i], d[j], n) && OutweighsOne(d[j], -d[i], n)
  }

  /** If every comparison outweighs the opposite ones, the sum has the sign of the first that is not zero. */
  lemma {:induction false} FirstDecides(d: seq<int>, n: nat)
    requires |d| <= n && OutweighsIn(d, n)
    ensures Sign(Weighted(d)) == Leading(d)
  {
    if d == [] {
    } else if d[0] == 0 {
      FirstDecides(d[1..], n);
    } else if d[0] < 0 {
      NegativeFirst(d, n);
    } else {
      var e := Negated(d);
      forall i, j | 0 <= i < |e| && 0 <= j < |e| && e[i] < 0 < e[j]
        ensures OutweighsOne(-e[i], e[j], n) && OutweighsOne(e[j], -e[i], n)
      {
        assert d[j] < 0 < d[i];
      }
      NegativeFirst(e, n);
      WeightedNegate(d);
    }
  }

  lemma NegativeFirst(d: seq<int>, n: nat)
    requires |d| <= n && OutweighsIn(d, n) && d != [] && d[0] < 0
    ensures Weighted(d) < 0
  {
    var rest, w := d[1..], Pow4(|d|);
    var top := Top(rest);
    WeightedBound(rest, top);
    assert 3 * Weighted(rest) <= top * (w - 4);
    if top > 0 {
      var i :| 0 <= i < |rest| && rest[i] == top;
      assert d[i + 1] == top;
      OutweighsFewer(-d[0], top, |d|, n);
      assert OutweighsOne(-d[0], top, |d|);
    } else {
      assert w * -d[0] > 0;
    }
    assert w * d[0] == -(w * -d[0]);
  }

  /**
   * n - 1 opposite comparisons that are not outweighed turn a first one around, or hide it: in the exact
   * sum over n parts, and in VersionCompare if the sum does not overflow.
   */
  lemma OutvotedFails(cmp: (string, string) -> int, p: string, q: string, r: string, s: string, n: nat)
    requires IsCompare(cmp) && n >= 1
    requires IsPart(p) && IsPart(q) && IsPart(r) && IsPart(s)
    requires || (cmp(p, q) < 0 < cmp(r, s) && !OutweighsOne(-cmp(p, q), cmp(r, s), n))
             || (cmp(r, s) < 0 < cmp(p, q) && !OutweighsOne(cmp(p, q), -cmp(r, s), n))
    ensures var v, w := Join([p] + Copies(r, n - 1)), Join([q] + Copies(s, n - 1));
            && |Split(v)| == |Split(w)| == n
            && ExactSign(cmp, v, w) != Order(v, w)
            && (Fits(cmp, n) ==> Coded(cmp, v, w) != Order(v, w))
  {
    var ps, qs := [p] + Copies(r, n - 1), [q] + Copies(s, n - 1);
    SplitJoin(ps);
    SplitJoin(qs);
    OutvotedSumOf(cmp, p, q, r, s, n);
    if Fits(cmp, n) {
      CodedIsExact(cmp, Join(ps), Join(qs), n);
    }
  }

  lemma OutvotedSumOf(cmp: (string, string) -> int, p: string, q: string, r: string, s: string, n: nat)
    requires IsCompare(cmp) && n >= 1
    requires || (cmp(p, q) < 0 < cmp(r, s) && !OutweighsOne(-cmp(p, q), cmp(r, s), n))
             || (cmp(r, s) < 0 < cmp(p, q) && !OutweighsOne(cmp(p, q), -cmp(r, s), n))
    ensures var ps, qs := [p] + Copies(r, n - 1), [q] + Copies(s, n - 1);
            Sign(Weighted(Diffs(cmp, ps, qs))) != Lex(ps, qs)
  {
    var ps, qs := [p] + Copies(r, n - 1), [q] + Copies(s, n - 1);
    assert Tail(ps) == Copies(r, n - 1) && Tail(qs) == Copies(s, n - 1);
    DiffsOfCopies(cmp, r, s, n - 1);
    var d := Diffs(cmp, ps, qs);
    assert d[0] == cmp(p, q) && d[1..] == Diffs(cmp, Copies(r, n - 1), Copies(s, n - 1));
    LeadingIsLex(cmp, ps, qs);
    Flip(Pow4(n), cmp(p, q), cmp(r, s));
  }

  lemma Flip(w: nat, x: int, y: int)
    ensures w * -x == -(w * x) && -y * (w - 4) == -(y * (w - 4))
  {
  }

  /**
   * The exact sum orders the versions of up to n parts if and only if every comparison outweighs n - 1 opposite
   * ones.
   */
  lemma ExactOrdersIff(cmp: (string, string) -> int, n: nat)
    requires IsCompare(cmp) && n >= 1
    ensures ExactOrdersUpTo(cmp, n) <==> Outweighs(cmp, n)
  {
    if Outweighs(cmp, n) {
      forall v, w | |Split(v)| <= n && |Split(w)| <= n
        ensures ExactSign(cmp, v, w) == Order(v, w)
      {
        OutweighsInDiffs(cmp, Split(v), Split(w), n);
        FirstDecides(Diffs(cmp, Split(v), Split(w)), n);
        LeadingIsLex(cmp, Split(v), Split(w));
      }
    } else {
      var p, q, r, s :| IsPart(p) && IsPart(q) && IsPart(r) && IsPart(s) && cmp(p, q) < 0 < cmp(r, s)
                        && !(OutweighsOne(-cmp(p, q), cmp(r, s), n) && OutweighsOne(cmp(r, s), -cmp(p, q), n));
      if !OutweighsOne(-cmp(p, q), cmp(r, s), n) {
        OutvotedFails(cmp, p, q, r, s, n);
      } else {
        OutvotedFails(cmp, r, s, p, q, n);
      }
    }
  }

  /**
   * For versions of up to n parts, and every comparison function that does not overflow the sum,
   * VersionCompare gives the documented order exactly if every comparison outweighs n - 1 opposite ones.
   */
  lemma CodedOrdersIff(cmp: (string, string) -> int, n: nat)
    requires IsCompare(cmp) && 1 <= n <= 15 && NeverOverflows(cmp, n)
    ensures OrdersUpTo(cmp, n) <==> Outweighs(cmp, n)
  {
    NeverOverflowsIff(cmp, n);
    ExactOrdersIff(cmp, n);
    forall v, w | |Split(v)| <= n && |Split(w)| <= n
      ensures Coded(cmp, v, w) == ExactSign(cmp, v, w)
    {
      CodedIsExact(cmp, v, w, n);
    }
  }

  lemma OutweighsInDiffs(cmp: (string, string) -> int, p: seq<string>, q: seq<string>, n: nat)
    requires Outweighs(cmp, n) && PartsUpTo(p, n) && PartsUpTo(q, n)
    ensures OutweighsIn(Diffs(cmp, p, q), n)
  {
    hide OutweighsOne, Diffs;
    DiffsArePartComparisons(cmp, p, q);
    var d := Diffs(cmp, p, q);
    forall i, j | 0 <= i < |d| && 0 <= j < |d| && d[i] < 0 < d[j]
      ensures OutweighsOne(-d[i], d[j], n) && OutweighsOne(d[j], -d[i], n)
    {
      assert ComparesParts(cmp, d[i]) && ComparesParts(cmp, d[j]);
      var a, b :| IsPart(a) && IsPart(b) && d[i] == cmp(a, b);
      var e, f :| IsPart(e) && IsPart(f) && d[j] == cmp(e, f);
      assert cmp(a, b) < 0 < cmp(e, f);
    }
  }

  // ----- any number of parts -----

  /** Any two comparisons of opposite sign are within a factor of three of each other. */
  ghost predicate Balanced(cmp: (string, string) -> int) {
    forall p, q, r, s {:trigger cmp(p, q), cmp(r, s)} ::
      IsPart(p) && IsPart(q) && IsPart(r) && IsPart(s) && cmp(p, q) < 0 < cmp(r, s)
      ==> cmp(r, s) <= -3 * cmp(p, q) && -cmp(p, q) <= 3 * cmp(r, s)
  }

  lemma {:induction false} Pow4Grows(n: nat)
    ensures Pow4(n) > n
  {
    if n > 0 {
      Pow4Grows(n - 1);
    }
  }

  /** Over all numbers of parts, outweighing is being within a factor of three. */
  lemma BalancedIffOutweighsAll(cmp: (string, string) -> int)
    ensures Balanced(cmp) <==> forall n: nat :: n >= 1 ==> Outweighs(cmp, n)
  {
    if Balanced(cmp) {
      forall n: nat | n >= 1
        ensures Outweighs(cmp, n)
      {
        forall p, q, r, s | IsPart(p) && IsPart(q) && IsPart(r) && IsPart(s) && cmp(p, q) < 0 < cmp(r, s)
          ensures OutweighsOne(-cmp(p, q), cmp(r, s), n) && OutweighsOne(cmp(r, s), -cmp(p, q), n)
        {
          WithinThree(-cmp(p, q), cmp(r, s), n);
          WithinThree(cmp(r, s), -cmp(p, q), n);
        }
      }
    } else {
      var p, q, r, s :| IsPart(p) && IsPart(q) && IsPart(r) && IsPart(s) && cmp(p, q) < 0 < cmp(r, s)
                        && !(cmp(r, s) <= -3 * cmp(p, q) && -cmp(p, q) <= 3 * cmp(r, s));
      var a, b := -cmp(p, q), cmp(r, s);
      if b > 3 * a {
        BeyondThree(a, b, 4 * b);
        assert !Outweighs(cmp, 4 * b);
      } else {
        BeyondThree(b, a, 4 * a);
        assert !Outweighs(cmp, 4 * a);
      }
    }
  }

  /** The sum over integers of any size orders versions of any number of parts exactly if comparisons are balanced. */
  lemma OrdersIffBalanced(cmp: (string, string) -> int)
    requires IsCompare(cmp)
    ensures (forall v, w :: ExactSign(cmp, v, w) == Order(v, w)) <==> Balanced(cmp)
  {
    BalancedIffOutweighsAll(cmp);
    forall n: nat | n >= 1
      ensures ExactOrdersUpTo(cmp, n) <==> Outweighs(cmp, n)
    {
      ExactOrdersIff(cmp, n);
    }
    if Balanced(cmp) {
      forall v, w
        ensures ExactSign(cmp, v, w) == Order(v, w)
      {
        var n := |Split(v)| + |Split(w)| + 1;
        assert ExactOrdersUpTo(cmp, n);
      }
    }
  }

  lemma WithinThree(a: int, b: int, n: nat)
    requires a > 0 && 0 < b <= 3 * a
    ensures OutweighsOne(a, b, n)
  {
    Expand(a, b, Pow4(n), 3 * a - b);
    assert Pow4(n) * (3 * a - b) >= 0;
  }

  lemma BeyondThree(a: int, b: int, n: nat)
    requires a > 0 && b > 3 * a && n >= 4 * b
    ensures !OutweighsOne(a, b, n)
  {
    Pow4Grows(n);
    Expand(a, b, Pow4(n), 3 * a - b);
    MulMonotone(Pow4(n), 3 * a - b, -1);
  }

  /** Comparisons of at most three (or one) never overflow the sum over fourteen (or fifteen) parts. */
  lemma SmallNeverOverflows(cmp: (string, string) -> int, n: nat, top: int)
    requires (n <= 14 && top == 3) || (n <= 15 && top == 1)
    requires forall p, q {:trigger cmp(p, q)} :: IsPart(p) && IsPart(q) ==> -top <= cmp(p, q) <= top
    ensures NeverOverflows(cmp, n)
  {
    forall p, q, k: nat | PartsUpTo(p, n) && PartsUpTo(q, n) && k <= |Diffs(cmp, p, q)|
      ensures InInt(Partial(Diffs(cmp, p, q), k))
    {
      var d := Diffs(cmp, p, q);
      DiffsArePartComparisons(cmp, p, q);
      forall i | 0 <= i < |d|
        ensures -top <= d[i] <= top
      {
        assert ComparesParts(cmp, d[i]);
        var a, b :| IsPart(a) && IsPart(b) && d[i] == cmp(a, b);
      }
      NoOverflow(d, k);
    }
  }

  /** Small comparisons order all versions of up to fourteen parts. */
  lemma SmallOrders(cmp: (string, string) -> int)
    requires SmallCompare(cmp)
    ensures OrdersUpTo(cmp, 14)
  {
    forall v, w | |Split(v)| <= 14 && |Split(w)| <= 14
      ensures Coded(cmp, v, w) == Order(v, w)
    {
      SmallIsFaithful(cmp, v, w);
    }
  }
}
