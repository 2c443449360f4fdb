/**
 * CCamera::ClipFrustumLines: every frustum line is clipped, in place, to the z-interval in
 * which it bounds the visible area. Coordinates are real numbers.
 */
module FrustumLines {

  /** In the xz-plane the line is at x = base + dir * z; sign tells on which side of it the view lies. */
  datatype FrustumLine = FrustumLine(sign: int, base: real, dir: real, minz: real, maxz: real)

  /** The last slot of the line table stores, as its sign, the number of lines. */
  const COUNT_SLOT := 4

  function X(l: FrustumLine, z: real): real {
    l.base + l.dir * z
  }

  /** Positive where line i lies on the view side of line j, zero where they cross. */
  function SideOf(j: FrustumLine, i: FrustumLine, z: real): real {
    j.sign as real * (X(i, z) - X(j, z))
  }

  predicate Parallel(i: FrustumLine, j: FrustumLine) {
    i.dir == j.dir
  }

  /** Where line i crosses line j. */
  function CrossingZ(i: FrustumLine, j: FrustumLine): real
    requires !Parallel(i, j)
  {
    -((i.base - j.base) / (i.dir - j.dir))
  }

  /** Line i enters the view side of line j at a crossing before zmax. */
  predicate Enters(i: FrustumLine, j: FrustumLine, zmax: real) {
    !Parallel(i, j) && j.sign as real * (i.dir - j.dir) > 0.0 && CrossingZ(i, j) < zmax
  }

  /** Line i leaves the view side of line j at a crossing behind zmin. */
  predicate Leaves(i: FrustumLine, j: FrustumLine, zmin: real) {
    !Parallel(i, j) && j.sign as real * (i.dir - j.dir) <= 0.0 && CrossingZ(i, j) > zmin
  }

  // ----- what clipping computes, without mentioning an order -----

  /** m is the greatest of line i's own lower bound and the points where it enters one of the first k lines. */
  ghost predicate IsLowerBound(ls: seq<FrustumLine>, i: nat, k: nat, zmax: real, m: real)
    requires i < |ls| && k <= |ls|
  {
    && ls[i].minz <= m
    && (forall j :: 0 <= j < k && j != i && Enters(ls[i], ls[j], zmax) ==> CrossingZ(ls[i], ls[j]) <= m)
    && (m == ls[i].minz ||
          exists j :: 0 <= j < k && j != i && Enters(ls[i], ls[j], zmax) && CrossingZ(ls[i], ls[j]) == m)
  }

  /** m is the least of line i's own upper bound and the points where it leaves one of the first k lines. */
  ghost predicate IsUpperBound(ls: seq<FrustumLine>, i: nat, k: nat, zmin: real, m: real)
    requires i < |ls| && k <= |ls|
  {
    && m <= ls[i].maxz
    && (forall j :: 0 <= j < k && j != i && Leaves(ls[i], ls[j], zmin) ==> m <= CrossingZ(ls[i], ls[j]))
    && (m == ls[i].maxz ||
          exists j :: 0 <= j < k && j != i && Leaves(ls[i], ls[j], zmin) && CrossingZ(ls[i], ls[j]) == m)
  }

  /** Line r is line i of ls clipped against the first k lines; sign, base and direction stay. */
  ghost predicate IsClipped(ls: seq<FrustumLine>, i: nat, k: nat, zmin: real, zmax: real, r: FrustumLine)
    requires i < |ls| && k <= |ls|
  {
    && r == ls[i].(minz := r.minz, maxz := r.maxz)
    && IsLowerBound(ls, i, k, zmax, r.minz)
    && IsUpperBound(ls, i, k, zmin, r.maxz)
  }

  /** The clipped line is determined: any order of the pairwise tests gives the same bounds. */
  lemma ClippedIsUnique(ls: seq<FrustumLine>, i: nat, k: nat, zmin: real, zmax: real, r: FrustumLine, r': FrustumLine)
    requires i < |ls| && k <= |ls|
    requires IsClipped(ls, i, k, zmin, zmax, r) && IsClipped(ls, i, k, zmin, zmax, r')
    ensures r == r'
  {
  }

  // ----- what the bounds mean -----

  lemma SideAroundCrossing(i: FrustumLine, j: FrustumLine, z: real)
    requires !Parallel(i, j)
    ensures SideOf(j, i, z) == (j.sign as real * (i.dir - j.dir)) * (z - CrossingZ(i, j))
  {
    var ddir, dbase, c := i.dir - j.dir, i.base - j.base, CrossingZ(i, j);
    QuotientTimes(dbase, ddir);
    assert ddir * c == -dbase;
    assert ddir * (z - c) == ddir * z - ddir * c;
    assert ddir * z == i.dir * z - j.dir * z;
    assert X(i, z) - X(j, z) == ddir * (z - c);
    assert j.sign as real * (ddir * (z - c)) == (j.sign as real * ddir) * (z - c);
  }

  lemma QuotientTimes(a: real, b: real)
    requires b != 0.0
    ensures b * -(a / b) == -a
  {
  }

  lemma SignOfProduct(a: real, b: real)
    ensures a > 0.0 && b < 0.0 ==> a * b < 0.0
    ensures a > 0.0 && b >= 0.0 ==> a * b >= 0.0
    ensures a < 0.0 && b > 0.0 ==> a * b < 0.0
    ensures a < 0.0 && b <= 0.0 ==> a * b >= 0.0
  {
  }

  /** The two lines meet at the crossing, and nowhere else. */
  lemma CrossingIsCommon(i: FrustumLine, j: FrustumLine, z: real)
    requires !Parallel(i, j)
    ensures X(i, z) == X(j, z) <==> z == CrossingZ(i, j)
  {
    var side := FrustumLine(1, j.base, j.dir, j.minz, j.maxz);
    SideAroundCrossing(i, side, z);
    SignOfProduct(i.dir - j.dir, z - CrossingZ(i, j));
    NoZeroDivisor(i.dir - j.dir, z - CrossingZ(i, j));
  }

  lemma NoZeroDivisor(a: real, b: real)
    requires a != 0.0
    ensures a * b == 0.0 <==> b == 0.0
  {
  }

  /** Line i crosses line j at z, coming into view below zmax or going out of view above zmin. */
  ghost predicate CutsAt(i: FrustumLine, j: FrustumLine, zmin: real, zmax: real, z: real) {
    && i.dir != j.dir
    && i.base + i.dir * z == j.base + j.dir * z
    && if j.sign as real * (i.dir - j.dir) > 0.0 then z < zmax else z > zmin
  }

  lemma CutsIff(i: FrustumLine, j: FrustumLine, zmin: real, zmax: real)
    ensures (exists c :: CutsAt(i, j, zmin, zmax, c)) <==> Enters(i, j, zmax) || Leaves(i, j, zmin)
  {
    assert Parallel(i, j) ==> !Enters(i, j, zmax) && !Leaves(i, j, zmin);
    assert forall z :: CutsAt(i, j, zmin, zmax, z) ==> !Parallel(i, j);
    hide CutsAt, Enters, Leaves, CrossingZ;
    if !Parallel(i, j) {
      CutsAtCrossing(i, j, zmin, zmax, CrossingZ(i, j));
      if z :| CutsAt(i, j, zmin, zmax, z) {
        CutsAtCrossing(i, j, zmin, zmax, z);
      }
    }
  }

  lemma CutsAtCrossing(i: FrustumLine, j: FrustumLine, zmin: real, zmax: real, z: real)
    requires !Parallel(i, j)
    ensures CutsAt(i, j, zmin, zmax, z) <==> z == CrossingZ(i, j) && (Enters(i, j, zmax) || Leaves(i, j, zmin))
  {
    CrossingIsCommon(i, j, z);
    hide CrossingZ;
  }

  /**
   * The clip is exact: a point of the original interval is kept if and only if it is on the
   * view side of every other line that cuts it within the limits. So a removed point is on the
   * wrong side of at least one line.
   */
  lemma ClippedToView(ls: seq<FrustumLine>, i: nat, k: nat, zmin: real, zmax: real, r: FrustumLine, z: real)
    requires i < |ls| && k <= |ls| && IsClipped(ls, i, k, zmin, zmax, r)
    requires forall j :: 0 <= j < k ==> ls[j].sign == 1 || ls[j].sign == -1
    requires ls[i].minz <= z <= ls[i].maxz
    ensures r.minz <= z <= r.maxz <==>
            forall j :: 0 <= j < k && j != i && (exists c :: CutsAt(ls[i], ls[j], zmin, zmax, c)) ==>
              ls[j].sign as real * ((ls[i].base + ls[i].dir * z) - (ls[j].base + ls[j].dir * z)) >= 0.0
  {
    hide CutsAt, Enters, Leaves, IsClipped;
    ClipIsExact(ls, i, k, zmin, zmax, r, z);
    forall j | 0 <= j < k
      ensures (exists c :: CutsAt(ls[i], ls[j], zmin, zmax, c)) <==>
                Enters(ls[i], ls[j], zmax) || Leaves(ls[i], ls[j], zmin)
      ensures SideOf(ls[j], ls[i], z) ==
              ls[j].sign as real * ((ls[i].base + ls[i].dir * z) - (ls[j].base + ls[j].dir * z))
    {
      CutsIff(ls[i], ls[j], zmin, zmax);
    }
  }

  /** The same with the crossings in place of the cuts. */
  lemma ClipIsExact(ls: seq<FrustumLine>, i: nat, k: nat, zmin: real, zmax: real, r: FrustumLine, z: real)
    requires i < |ls| && k <= |ls| && IsClipped(ls, i, k, zmin, zmax, r)
    requires forall j :: 0 <= j < k ==> ls[j].sign == 1 || ls[j].sign == -1
    requires ls[i].minz <= z <= ls[i].maxz
    ensures r.minz <= z <= r.maxz <==>
            forall j :: 0 <= j < k && j != i && (Enters(ls[i], ls[j], zmax) || Leaves(ls[i], ls[j], zmin)) ==>
              SideOf(ls[j], ls[i], z) >= 0.0
  {
    forall j | 0 <= j < k && j != i && !Parallel(ls[i], ls[j])
      ensures Enters(ls[i], ls[j], zmax) ==> (SideOf(ls[j], ls[i], z) >= 0.0 <==> CrossingZ(ls[i], ls[j]) <= z)
      ensures Leaves(ls[i], ls[j], zmin) ==> (SideOf(ls[j], ls[i], z) >= 0.0 <==> z <= CrossingZ(ls[i], ls[j]))
    {
      SideAtCrossing(ls[i], ls[j], z);
    }
  }

  lemma SideAtCrossing(i: FrustumLine, j: FrustumLine, z: real)
    requires !Parallel(i, j) && (j.sign == 1 || j.sign == -1)
    ensures j.sign as real * (i.dir - j.dir) > 0.0 ==> (SideOf(j, i, z) >= 0.0 <==> CrossingZ(i, j) <= z)
    ensures j.sign as real * (i.dir - j.dir) <= 0.0 ==> (SideOf(j, i, z) >= 0.0 <==> z <= CrossingZ(i, j))
  {
    SideAroundCrossing(i, j, z);
    SignOfProduct(j.sign as real * (i.dir - j.dir), z - CrossingZ(i, j));
  }

  // ----- the loops -----

  /** The same line up to its bounds. */
  predicate SameLine(l: FrustumLine, l': FrustumLine) {
    l.sign == l'.sign && l.base == l'.base && l.dir == l'.dir
  }

  lemma NotYetClipped(ls: seq<FrustumLine>, i: nat, zmin: real, zmax: real)
    requires i < |ls|
    ensures IsClipped(ls, i, 0, zmin, zmax, ls[i])
  {
  }

  lemma SkipsItself(ls: seq<FrustumLine>, i: nat, zmin: real, zmax: real, r: FrustumLine)
    requires i < |ls| && IsClipped(ls, i, i, zmin, zmax, r)
    ensures IsClipped(ls, i, i + 1, zmin, zmax, r)
  {
  }

  lemma ClippedIsSameLine(ls: seq<FrustumLine>, i: nat, k: nat, zmin: real, zmax: real, r: FrustumLine)
    requires i < |ls| && k <= |ls| && IsClipped(ls, i, k, zmin, zmax, r)
    ensures SameLine(r, ls[i])
  {
  }

  /**
   * Clips every line against every other line, updating the table in place. Since only
   * minz and maxz change, later tests see the same crossings as earlier ones.
   */
  method ClipFrustumLines(lines: array<FrustumLine>, zmin: real, zmax: real)
    requires lines.Length == COUNT_SLOT + 1 && 0 <= lines[COUNT_SLOT].sign <= COUNT_SLOT
    modifies lines
    ensures var cnt := old(lines[COUNT_SLOT].sign);
            && (forall i :: 0 <= i < cnt ==> IsClipped(old(lines[..]), i, cnt, zmin, zmax, lines[i]))
            && (forall i :: cnt <= i < lines.Length ==> lines[i] == old(lines[i]))
  {
    hide IsClipped, PairClipped;
    var cnt := lines[COUNT_SLOT].sign;
    ghost var was := lines[..];
    for i := 0 to cnt
      invariant forall k :: 0 <= k < i ==> IsClipped(was, k, cnt, zmin, zmax, lines[k])
      invariant forall k :: i <= k < lines.Length ==> lines[k] == was[k]
    {
      NotYetClipped(was, i, zmin, zmax);
      for j := 0 to cnt
        invariant IsClipped(was, i, j, zmin, zmax, lines[i])
        invariant forall k :: 0 <= k < i ==> IsClipped(was, k, cnt, zmin, zmax, lines[k])
        invariant forall k :: i < k < lines.Length ==> lines[k] == was[k]
      {
        if i == j {
          SkipsItself(was, i, zmin, zmax, lines[i]);
          continue;
        }
        if j < i {
          ClippedIsSameLine(was, j, cnt, zmin, zmax, lines[j]);
        }
        ghost var before := lines[i];
        ClipPair(lines, i, j, zmin, zmax);
        PairStep(was, i, j, zmin, zmax, before, lines[j], lines[i]);
      }
    }
  }

  /** Line i's bounds after the test against line j. */
  function PairClipped(i: FrustumLine, j: FrustumLine, zmin: real, zmax: real): FrustumLine {
    i.(minz := if Enters(i, j, zmax) && CrossingZ(i, j) > i.minz then CrossingZ(i, j) else i.minz,
       maxz := if Leaves(i, j, zmin) && CrossingZ(i, j) < i.maxz then CrossingZ(i, j) else i.maxz)
  }

  /** The body of the inner loop. */
  method ClipPair(lines: array<FrustumLine>, i: nat, j: nat, zmin: real, zmax: real)
    requires i < lines.Length && j < lines.Length && i != j
    modifies lines
    ensures lines[..] == old(lines[..])[i := PairClipped(old(lines[i]), old(lines[j]), zmin, zmax)]
  {
    var dbase := lines[i].base - lines[j].base;
    var ddir := lines[i].dir - lines[j].dir;
    if ddir == 0.0 {
      return;
    }
    var colz := -(dbase / ddir);
    if lines[j].sign as real * ddir > 0.0 {
      if colz > lines[i].minz && colz < zmax {
        lines[i] := lines[i].(minz := colz);
      }
    } else {
      if colz < lines[i].maxz && colz > zmin {
        lines[i] := lines[i].(maxz := colz);
      }
    }
  }

  lemma PairStep(ls: seq<FrustumLine>, i: nat, j: nat, zmin: real, zmax: real,
      r: FrustumLine, lj: FrustumLine, r': FrustumLine)
    requires i < |ls| && j < |ls| && i != j && IsClipped(ls, i, j, zmin, zmax, r)
    requires SameLine(lj, ls[j]) && r' == PairClipped(r, lj, zmin, zmax)
    ensures IsClipped(ls, i, j + 1, zmin, zmax, r')
  {
    ClipStep(ls, i, j, zmin, zmax, r, r');
  }

  /** Testing one more line keeps the bounds the greatest and least of the admissible crossings. */
  lemma ClipStep(ls: seq<FrustumLine>, i: nat, j: nat, zmin: real, zmax: real, r: FrustumLine, r': FrustumLine)
    requires i < |ls| && j < |ls| && i != j && IsClipped(ls, i, j, zmin, zmax, r)
    requires r' == r.(
      minz := if Enters(ls[i], ls[j], zmax) && CrossingZ(ls[i], ls[j]) > r.minz then
                CrossingZ(ls[i], ls[j])
              else r.minz,
      maxz := if Leaves(ls[i], ls[j], zmin) && CrossingZ(ls[i], ls[j]) < r.maxz then
                CrossingZ(ls[i], ls[j])
              else r.maxz)
    ensures IsClipped(ls, i, j + 1, zmin, zmax, r')
  {
    assert IsLowerBound(ls, i, j + 1, zmax, r'.minz);
    assert IsUpperBound(ls, i, j + 1, zmin, r'.maxz);
  }
}
