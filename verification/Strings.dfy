/** The order of std::string: lexicographic by character code, a proper prefix first. */
module Strings {

  predicate Less(a: string, b: string) {
    if b == "" then false
    else if a == "" then true
    else a[0] < b[0] || (a[0] == b[0] && Less(a[1..], b[1..]))
  }

  lemma {:induction false} Trichotomy(a: string, b: string)
    ensures Less(a, b) || a == b || Less(b, a)
    ensures !(Less(a, b) && Less(b, a))
    ensures a == b ==> !Less(a, b)
  {
    if a != "" && b != "" {
      Trichotomy(a[1..], b[1..]);
      if a[0] == b[0] && a[1..] == b[1..] {
        assert a == [a[0]] + a[1..] && b == [b[0]] + b[1..];
      }
    }
  }

  lemma {:induction false} Transitivity(a: string, b: string, c: string)
    requires Less(a, b) && Less(b, c)
    ensures Less(a, c)
  {
    if a != "" && a[0] == b[0] && b[0] == c[0] {
      Transitivity(a[1..], b[1..], c[1..]);
    }
  }

  /** a is below b after a common prefix: by a smaller character there, or by ending there. */
  ghost predicate BelowAfter(a: string, b: string, n: nat) {
    n <= |a| && n < |b| && a[..n] == b[..n] && (n == |a| || a[n] < b[n])
  }

  lemma HeadsAgree(a: string, b: string, n: nat)
    ensures BelowAfter(a, b, n) ==> n == 0 || (a != "" && a[0] == b[0])
  {
    if n > 0 && BelowAfter(a, b, n) {
      assert a[..n][0] == b[..n][0];
    }
  }

  lemma {:induction false} LessIff(a: string, b: string)
    ensures Less(a, b) <==> exists n :: BelowAfter(a, b, n)
    decreases |a|
  {
    if a == "" || b == "" || a[0] != b[0] {
      forall n: nat
        ensures BelowAfter(a, b, n) ==> n == 0 || (a != "" && a[0] == b[0])
      {
        HeadsAgree(a, b, n);
      }
      if Less(a, b) {
        assert BelowAfter(a, b, 0);
      }
    } else {
      LessIff(a[1..], b[1..]);
      if n: nat :| BelowAfter(a[1..], b[1..], n) {
        assert a[..n + 1] == [a[0]] + a[1..][..n] && b[..n + 1] == [b[0]] + b[1..][..n];
        assert BelowAfter(a, b, n + 1);
      }
      if n: nat :| BelowAfter(a, b, n) {
        assert n > 0 && a[1..][..n - 1] == a[..n][1..] && b[1..][..n - 1] == b[..n][1..];
        assert BelowAfter(a[1..], b[1..], n - 1);
      }
    }
  }

  /** A common prefix does not influence the comparison. */
  lemma {:induction false} CommonPrefix(p: string, a: string, b: string)
    ensures Less(p + a, p + b) == Less(a, b)
  {
    if p == "" {
      assert p + a == a && p + b == b;
    } else {
      CommonPrefix(p[1..], a, b);
      assert (p + a)[1..] == p[1..] + a && (p + b)[1..] == p[1..] + b;
    }
  }

  /**
   * std::string::compare promises only the sign of its result; the magnitude is left
   * to the library (one, a byte difference, a length difference, ...).
   */
  ghost predicate IsCompare(cmp: (string, string) -> int) {
    forall a, b {:trigger cmp(a, b)} ::
      && (cmp(a, b) < 0 <==> Less(a, b))
      && (cmp(a, b) == 0 <==> a == b)
      && (cmp(a, b) > 0 <==> Less(b, a))
  }
}
