/** Three-dimensional vectors over the reals, and the linear algebra that the frustum needs. */
module Vectors {

  datatype Vec = Vec(x: real, y: real, z: real)

  const ZERO := Vec(0.0, 0.0, 0.0)

  function Add(a: Vec, b: Vec): Vec {
    Vec(a.x + b.x, a.y + b.y, a.z + b.z)
  }

  function Sub(a: Vec, b: Vec): Vec {
    Vec(a.x - b.x, a.y - b.y, a.z - b.z)
  }

  function Scale(k: real, a: Vec): Vec {
    Vec(k * a.x, k * a.y, k * a.z)
  }

  function Dot(a: Vec, b: Vec): real {
    a.x * b.x + a.y * b.y + a.z * b.z
  }

  function Cross(a: Vec, b: Vec): Vec {
    Vec(a.y * b.z - a.z * b.y, a.z * b.x - a.x * b.z, a.x * b.y - a.y * b.x)
  }

  /** The signed volume spanned by three vectors. */
  function Triple(a: Vec, b: Vec, c: Vec): real {
    Dot(Cross(a, b), c)
  }

  /** Three axes: to the right, forward and up. */
  datatype Axes = Axes(right: Vec, forward: Vec, up: Vec) {
    /** The vector with the given coordinates along right, forward and up. */
    function World(c: Vec): Vec {
      Add(Add(Scale(c.x, right), Scale(c.y, forward)), Scale(c.z, up))
    }

    function Volume(): real {
      Triple(right, forward, up)
    }
  }

  // ----- linearity -----

  lemma DotScale(k: real, a: Vec, b: Vec)
    ensures Dot(Scale(k, a), b) == k * Dot(a, b)
    ensures Dot(a, Scale(k, b)) == k * Dot(a, b)
  {
    Distribute3(k, a.x * b.x, a.y * b.y, a.z * b.z);
  }

  lemma Distribute3(k: real, x: real, y: real, z: real)
    ensures k * (x + y + z) == k * x + k * y + k * z
  {
  }

  lemma DotAdd(a: Vec, b: Vec, c: Vec)
    ensures Dot(Add(a, b), c) == Dot(a, c) + Dot(b, c)
    ensures Dot(c, Add(a, b)) == Dot(c, a) + Dot(c, b)
  {
  }

  lemma DotSub(a: Vec, b: Vec, c: Vec)
    ensures Dot(c, Sub(a, b)) == Dot(c, a) - Dot(c, b)
  {
  }

  lemma CrossAdd(a: Vec, b: Vec, c: Vec)
    ensures Cross(Add(a, b), c) == Add(Cross(a, c), Cross(b, c))
    ensures Cross(c, Add(a, b)) == Add(Cross(c, a), Cross(c, b))
  {
  }

  lemma CrossScale(k: real, a: Vec, b: Vec)
    ensures Cross(Scale(k, a), b) == Scale(k, Cross(a, b))
  {
    ScaleMinor(k, a.y, b.z, a.z, b.y);
    ScaleMinor(k, a.z, b.x, a.x, b.z);
    ScaleMinor(k, a.x, b.y, a.y, b.x);
    var l, r := Cross(Scale(k, a), b), Scale(k, Cross(a, b));
    assert l.x == r.x;
    assert l.y == r.y;
    assert l.z == r.z;
  }

  lemma ScaleMinor(k: real, a: real, b: real, c: real, d: real)
    ensures (k * a) * b - (k * c) * d == k * (a * b - c * d)
  {
  }

  /** The volume is linear in each of its three arguments. */
  lemma TripleWorldFirst(e: Axes, a: Vec, y: Vec, z: Vec)
    ensures Triple(e.World(a), y, z) == a.x * Triple(e.right, y, z) +
            a.y * Triple(e.forward, y, z) + a.z * Triple(e.up, y, z)
  {
    CrossWorld(e, a, y);
    DotWorld(Axes(Cross(e.right, y), Cross(e.forward, y), Cross(e.up, y)), a, z);
  }

  lemma DotWorld(e: Axes, a: Vec, z: Vec)
    ensures Dot(e.World(a), z) == a.x * Dot(e.right, z) + a.y * Dot(e.forward, z) + a.z * Dot(e.up, z)
  {
    var r, f, u := Scale(a.x, e.right), Scale(a.y, e.forward), Scale(a.z, e.up);
    DotAdd(Add(r, f), u, z);
    DotAdd(r, f, z);
    DotScale(a.x, e.right, z);
    DotScale(a.y, e.forward, z);
    DotScale(a.z, e.up, z);
  }

  lemma CrossWorld(e: Axes, a: Vec, y: Vec)
    ensures Cross(e.World(a), y) == Axes(Cross(e.right, y), Cross(e.forward, y), Cross(e.up, y)).World(a)
  {
    var r, f, u := Scale(a.x, e.right), Scale(a.y, e.forward), Scale(a.z, e.up);
    CrossAdd(Add(r, f), u, y);
    CrossAdd(r, f, y);
    CrossScale(a.x, e.right, y);
    CrossScale(a.y, e.forward, y);
    CrossScale(a.z, e.up, y);
  }

  lemma TripleCyclic(a: Vec, b: Vec, c: Vec)
    ensures Triple(a, b, c) == Triple(b, c, a)
  {
  }

  lemma TripleRepeated(a: Vec, b: Vec)
    ensures Triple(a, a, b) == 0.0 && Triple(a, b, a) == 0.0 && Triple(b, a, a) == 0.0
  {
  }

  lemma TripleSwap(a: Vec, b: Vec, c: Vec)
    ensures Triple(b, a, c) == -Triple(a, b, c)
  {
  }

  lemma TripleWorldSecond(e: Axes, x: Vec, b: Vec, z: Vec)
    ensures Triple(x, e.World(b), z) == b.x * Triple(x, e.right, z) +
            b.y * Triple(x, e.forward, z) + b.z * Triple(x, e.up, z)
  {
    TripleWorldFirst(e, b, z, x);
    TripleCyclic(x, e.World(b), z);
    TripleCyclic(x, e.right, z);
    TripleCyclic(x, e.forward, z);
    TripleCyclic(x, e.up, z);
  }

  lemma TripleWorldThird(e: Axes, x: Vec, y: Vec, c: Vec)
    ensures Triple(x, y, e.World(c)) == c.x * Triple(x, y, e.right) +
            c.y * Triple(x, y, e.forward) + c.z * Triple(x, y, e.up)
  {
    TripleWorldSecond(e, y, c, x);
    TripleCyclic(x, y, e.World(c));
    TripleCyclic(x, y, e.right);
    TripleCyclic(x, y, e.forward);
    TripleCyclic(x, y, e.up);
  }

  /** A linear image scales every volume by the volume of its axes. */
  lemma TripleWorld(e: Axes, a: Vec, b: Vec, c: Vec)
    ensures Triple(e.World(a), e.World(b), e.World(c)) == Triple(a, b, c) * e.Volume()
  {
    hide Dot, Triple, Axes.World, Axes.Volume;
    var m := Cross(a, b);
    assert Triple(a, b, c) == Dot(m, c) by { TripleIsDot(a, b, c); }
    VolumeRight(e, a, b);
    VolumeForward(e, a, b);
    VolumeUp(e, a, b);
    CombineVolumes(e, e.World(a), e.World(b), c, m, e.Volume());
  }

  lemma TripleIsDot(a: Vec, b: Vec, c: Vec)
    ensures Triple(a, b, c) == Dot(Cross(a, b), c)
  {
  }

  lemma CombineVolumes(e: Axes, x: Vec, y: Vec, c: Vec, m: Vec, t: real)
    requires Triple(e.right, x, y) == m.x * t && Triple(e.forward, x, y) == m.y * t && Triple(e.up, x, y) == m.z * t
    ensures Triple(x, y, e.World(c)) == Dot(m, c) * t
  {
    TripleWorldThird(e, x, y, c);
    TripleCyclic(e.right, x, y);
    TripleCyclic(e.forward, x, y);
    TripleCyclic(e.up, x, y);
    CollectThree(c, Triple(x, y, e.right), Triple(x, y, e.forward), Triple(x, y, e.up), m, t);
  }

  lemma VolumeRight(e: Axes, b: Vec, c: Vec)
    ensures Triple(e.right, e.World(b), e.World(c)) == (b.y * c.z - b.z * c.y) * e.Volume()
  {
    hide Dot, Triple, Cross, Axes.World;
    var r, f, u, z, t := e.right, e.forward, e.up, e.World(c), e.Volume();
    TripleCyclic(r, f, u);
    TripleCyclic(f, u, r);
    TripleWorldSecond(e, r, b, z);
    TripleRepeated(r, z);
    assert Triple(r, f, z) == c.z * t by {
      TripleWorldThird(e, r, f, c);
      TripleRepeated(r, f);
      TripleRepeated(f, r);
    }
    assert Triple(r, u, z) == -(c.y * t) by {
      TripleWorldThird(e, r, u, c);
      TripleRepeated(r, u);
      TripleRepeated(u, r);
      TripleSwap(u, r, f);
      TripleCyclic(u, r, f);
      TripleCyclic(r, u, f);
      Opposite(c.y, t);
    }
    CollectTwo(b.y, c.z, b.z, c.y, Triple(r, f, z), Triple(r, u, z), t);
  }

  lemma VolumeForward(e: Axes, b: Vec, c: Vec)
    ensures Triple(e.forward, e.World(b), e.World(c)) == (b.z * c.x - b.x * c.z) * e.Volume()
  {
    hide Dot, Triple, Cross, Axes.World;
    var r, f, u, z, t := e.right, e.forward, e.up, e.World(c), e.Volume();
    TripleCyclic(r, f, u);
    TripleCyclic(f, u, r);
    TripleWorldSecond(e, f, b, z);
    TripleRepeated(f, z);
    assert Triple(f, u, z) == c.x * t by {
      TripleWorldThird(e, f, u, c);
      TripleRepeated(f, u);
      TripleRepeated(u, f);
    }
    assert Triple(f, r, z) == -(c.z * t) by {
      TripleWorldThird(e, f, r, c);
      TripleRepeated(f, r);
      TripleRepeated(r, f);
      TripleSwap(r, f, u);
      TripleCyclic(r, f, u);
      TripleCyclic(f, r, u);
      Opposite(c.z, t);
    }
    CollectTwo(b.z, c.x, b.x, c.z, Triple(f, u, z), Triple(f, r, z), t);
  }

  lemma VolumeUp(e: Axes, b: Vec, c: Vec)
    ensures Triple(e.up, e.World(b), e.World(c)) == (b.x * c.y - b.y * c.x) * e.Volume()
  {
    hide Dot, Triple, Cross, Axes.World;
    var r, f, u, z, t := e.right, e.forward, e.up, e.World(c), e.Volume();
    TripleCyclic(r, f, u);
    TripleCyclic(f, u, r);
    TripleWorldSecond(e, u, b, z);
    TripleRepeated(u, z);
    assert Triple(u, r, z) == c.y * t by {
      TripleWorldThird(e, u, r, c);
      TripleRepeated(u, r);
      TripleRepeated(r, u);
    }
    assert Triple(u, f, z) == -(c.x * t) by {
      TripleWorldThird(e, u, f, c);
      TripleRepeated(u, f);
      TripleRepeated(f, u);
      TripleSwap(f, u, r);
      TripleCyclic(f, u, r);
      TripleCyclic(u, f, r);
      Opposite(c.x, t);
    }
    CollectTwo(b.x, c.y, b.y, c.x, Triple(u, r, z), Triple(u, f, z), t);
  }

  lemma Opposite(k: real, t: real)
    ensures k * -t == -(k * t)
  {
  }

  lemma CollectTwo(a: real, b: real, c: real, d: real, p: real, q: real, t: real)
    requires p == b * t && q == -(d * t)
    ensures a * p + c * q == (a * b - c * d) * t
  {
  }

  lemma CollectThree(a: Vec, p: real, q: real, r: real, m: Vec, t: real)
    requires p == m.x * t && q == m.y * t && r == m.z * t
    ensures a.x * p + a.y * q + a.z * r == Dot(m, a) * t
  {
  }

  lemma WorldSub(e: Axes, a: Vec, b: Vec)
    ensures Sub(e.World(a), e.World(b)) == e.World(Sub(a, b))
  {
  }

  // ----- lengths -----

  /** inv gives the reciprocal of the length of every vector but zero. */
  ghost predicate IsInverseLength(inv: Vec -> real) {
    forall v {:trigger inv(v)} :: v != ZERO ==> inv(v) > 0.0 && Dot(Scale(inv(v), v), Scale(inv(v), v)) == 1.0
  }

  lemma DotZero(w: Vec)
    ensures Dot(ZERO, w) == 0.0
  {
  }

  lemma DotOfEqual(a: Vec, b: Vec)
    requires a == b
    ensures Dot(a, b) >= 0.0
  {
    SquareOfEqual(a.x, b.x);
    SquareOfEqual(a.y, b.y);
    SquareOfEqual(a.z, b.z);
  }

  lemma SquareOfEqual(x: real, y: real)
    requires x == y
    ensures x * y >= 0.0
  {
  }

  /** The part of a vector along a unit vector is not longer than the vector. */
  lemma ProjectionIsShorter(n: Vec, w: Vec, t: real)
    requires Dot(n, n) == 1.0 && t == Dot(n, w)
    ensures t * t <= Dot(w, w)
  {
    var tn := Scale(t, n);
    var v := Sub(w, tn);
    DotSub(w, tn, v);
    DotSub(w, tn, w);
    DotSub(w, tn, tn);
    DotCommutes(v, w);
    DotCommutes(v, tn);
    DotCommutes(w, tn);
    DotScale(t, n, w);
    DotScale(t, n, tn);
    DotScale(t, n, n);
    DotOfEqual(v, v);
  }

  lemma DotCommutes(a: Vec, b: Vec)
    ensures Dot(a, b) == Dot(b, a)
  {
  }

  /** A unit vector cannot reach further along a vector than its length bound. */
  lemma UnitReach(n: Vec, w: Vec, radius: real)
    requires Dot(n, n) == 1.0 && radius >= 0.0 && Dot(w, w) <= radius * radius
    ensures -radius <= Dot(n, w) <= radius
  {
    var t := Dot(n, w);
    ProjectionIsShorter(n, w, t);
    RootOrder(t, radius);
  }

  lemma RootOrder(t: real, r: real)
    requires r >= 0.0 && t * t <= r * r
    ensures -r <= t <= r
  {
    SquareGrows(r, t);
    SquareGrows(r, -t);
    Opposite(-t, t);
  }

  lemma SquareGrows(r: real, t: real)
    ensures 0.0 <= r < t ==> r * r < t * t
  {
    if 0.0 <= r < t {
      PositiveProduct(t - r, t + r);
      DifferenceOfSquares(t, r);
    }
  }

  lemma PositiveProduct(a: real, b: real)
    requires a > 0.0 && b > 0.0
    ensures a * b > 0.0
  {
  }

  lemma DifferenceOfSquares(t: real, r: real)
    ensures (t - r) * (t + r) == t * t - r * r
  {
  }
}
