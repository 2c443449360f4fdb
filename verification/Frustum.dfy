/**
 * CCamera::UpdateFrustum and the culling tests InView, over the reals: the planes built from
 * the corners, and why a visible object is never culled.
 */
module Frustum {
  import opened Vectors

  /** Points p with Dot(normal, p) + offset >= 0 lie on the inner side. */
  datatype Plane = Plane(normal: Vec, offset: real) {
    function Dist(p: Vec): real {
      Dot(normal, p) + offset
    }
  }

  const PLANE_CNT := 6
  const POINT_CNT := 8

  const NBL := 0
  const NBR := 1
  const NTR := 2
  const NTL := 3
  const FBL := 4
  const FBR := 5
  const FTR := 6
  const FTL := 7

  /** Distances of the near and far planes, and half extents of the frustum there. */
  datatype Extent = Extent(near: real, far: real, nearX: real, nearY: real, farX: real, farY: real) {
    predicate Valid() {
      && 0.0 < near < far
      && 0.0 < nearX <= farX
      && 0.0 < nearY <= farY
    }
  }

  /** A perspective frustum grows with the distance; the arguments are tangents of half angles. */
  function Perspective(near: real, far: real, tanX: real, tanY: real): (e: Extent)
    ensures 0.0 < near < far && 0.0 < tanX && 0.0 < tanY ==> e.Valid()
  {
    PositiveProducts(near, far, tanX);
    PositiveProducts(near, far, tanY);
    Extent(near, far, near * tanX, near * tanY, far * tanX, far * tanY)
  }

  lemma PositiveProducts(near: real, far: real, t: real)
    ensures 0.0 < near < far && 0.0 < t ==> 0.0 < near * t <= far * t
  {
    if 0.0 < near < far && 0.0 < t {
      assert (far - near) * t > 0.0;
    }
  }

  function Orthographic(near: real, far: real, scaleX: real, scaleY: real): (e: Extent)
    ensures 0.0 < near < far && 0.0 < scaleX && 0.0 < scaleY ==> e.Valid()
  {
    Extent(near, far, scaleX, scaleY, scaleX, scaleY)
  }

  /** Corner k in camera coordinates: x to the right, y forward, z up. */
  function Local(e: Extent, k: int): Vec
    requires 0 <= k < POINT_CNT
  {
    var isFar := k >= FBL;
    var isRight := k == NBR || k == NTR || k == FBR || k == FTR;
    var isTop := k == NTR || k == NTL || k == FTR || k == FTL;
    var x, z := if isFar then e.farX else e.nearX, if isFar then e.farY else e.nearY;
    Vec(if isRight then x else -x, if isFar then e.far else e.near, if isTop then z else -z)
  }

  function Corner(pos: Vec, axes: Axes, e: Extent, k: int): Vec
    requires 0 <= k < POINT_CNT
  {
    Add(pos, axes.World(Local(e, k)))
  }

  /** The three corners that plane i is built from. */
  function Spanning(i: int): (s: (int, int, int))
    requires 0 <= i < PLANE_CNT
    ensures 0 <= s.0 < POINT_CNT && 0 <= s.1 < POINT_CNT && 0 <= s.2 < POINT_CNT
  {
    if i == 0 then (NTL, NBL, FBL)
    else if i == 1 then (NBR, NTR, FBR)
    else if i == 2 then (NBL, NBR, FBR)
    else if i == 3 then (NTR, NTL, FTL)
    else if i == 4 then (NTL, NTR, NBR)
    else (FTR, FTL, FBL)
  }

  /** The plane through three points; inv is the reciprocal length used to normalise. */
  function PlaneThrough(inv: Vec -> real, v1: Vec, v2: Vec, v3: Vec): Plane {
    var c := Cross(Sub(v3, v2), Sub(v1, v2));
    var n := Scale(inv(c), c);
    Plane(n, -Dot(n, v2))
  }

  // ----- on which side of a plane a point lies -----

  /** The distance to a plane is a positive multiple of the volume spanned with the point. */
  lemma DistIsVolume(inv: Vec -> real, v1: Vec, v2: Vec, v3: Vec, p: Vec)
    ensures PlaneThrough(inv, v1, v2, v3).Dist(p)
            == inv(Cross(Sub(v3, v2), Sub(v1, v2))) * Triple(Sub(v3, v2), Sub(v1, v2), Sub(p, v2))
  {
    var c := Cross(Sub(v3, v2), Sub(v1, v2));
    var n := Scale(inv(c), c);
    DotSub(p, v2, n);
    DotScale(inv(c), c, Sub(p, v2));
  }

  lemma CornerSub(pos: Vec, axes: Axes, a: Vec, b: Vec)
    ensures Sub(Add(pos, axes.World(a)), Add(pos, axes.World(b))) == axes.World(Sub(a, b))
  {
    WorldSub(axes, a, b);
    var x, y := axes.World(a), axes.World(b);
    assert Sub(Add(pos, x), Add(pos, y)) == Sub(x, y);
  }

  /** The volume that decides on which side of plane i a point lies, in camera coordinates. */
  function SideAt(e: Extent, i: int, c: Vec): real
    requires 0 <= i < PLANE_CNT
  {
    var s := Spanning(i);
    Triple(Sub(Local(e, s.2), Local(e, s.1)), Sub(Local(e, s.0), Local(e, s.1)), Sub(c, Local(e, s.1)))
  }

  function LocalSide(e: Extent, i: int, k: int): real
    requires 0 <= i < PLANE_CNT && 0 <= k < POINT_CNT
  {
    SideAt(e, i, Local(e, k))
  }

  function PlaneOf(inv: Vec -> real, pos: Vec, axes: Axes, e: Extent, i: int): Plane
    requires 0 <= i < PLANE_CNT
  {
    var s := Spanning(i);
    PlaneThrough(inv, Corner(pos, axes, e, s.0), Corner(pos, axes, e, s.1), Corner(pos, axes, e, s.2))
  }

  /** The unnormalised normal of plane i. */
  function RawNormal(pos: Vec, axes: Axes, e: Extent, i: int): Vec
    requires 0 <= i < PLANE_CNT
  {
    var s := Spanning(i);
    Cross(Sub(Corner(pos, axes, e, s.2), Corner(pos, axes, e, s.1)),
      Sub(Corner(pos, axes, e, s.0), Corner(pos, axes, e, s.1)))
  }

  lemma CornerDist(inv: Vec -> real, pos: Vec, axes: Axes, e: Extent, i: int, k: int)
    requires 0 <= i < PLANE_CNT && 0 <= k < POINT_CNT
    ensures Dot(RawNormal(pos, axes, e, i), Sub(Corner(pos, axes, e, k), Corner(pos, axes, e, Spanning(i).1))) ==
            LocalSide(e, i, k) * axes.Volume()
    ensures PlaneOf(inv, pos, axes, e, i).Dist(Corner(pos, axes, e, k))
            == inv(RawNormal(pos, axes, e, i)) * (LocalSide(e, i, k) * axes.Volume())
  {
    hide RawNormal, PlaneOf, Dot, Sub, Add, Axes.World, Axes.Volume, Local, Plane.Dist, SideAt;
    PointDist(inv, pos, axes, e, i, Local(e, k));
  }

  /** The distance of any point to a plane, from its camera coordinates. */
  lemma PointDist(inv: Vec -> real, pos: Vec, axes: Axes, e: Extent, i: int, p: Vec)
    requires 0 <= i < PLANE_CNT
    ensures Dot(RawNormal(pos, axes, e, i), Sub(Add(pos, axes.World(p)), Corner(pos, axes, e, Spanning(i).1))) ==
            SideAt(e, i, p) * axes.Volume()
    ensures PlaneOf(inv, pos, axes, e, i).Dist(Add(pos, axes.World(p)))
            == inv(RawNormal(pos, axes, e, i)) * (SideAt(e, i, p) * axes.Volume())
  {
    hide Dot, Triple, Cross, Sub, Add, Axes.World, Axes.Volume, Local, Plane.Dist, PlaneThrough, Spanning;
    var s := Spanning(i);
    var a, b, c := Local(e, s.0), Local(e, s.1), Local(e, s.2);
    DistIsVolume(inv, Corner(pos, axes, e, s.0), Corner(pos, axes, e, s.1),
      Corner(pos, axes, e, s.2), Add(pos, axes.World(p)));
    CornerSub(pos, axes, c, b);
    CornerSub(pos, axes, a, b);
    CornerSub(pos, axes, p, b);
    TripleWorld(axes, Sub(c, b), Sub(a, b), Sub(p, b));
    TripleIsDot(axes.World(Sub(c, b)), axes.World(Sub(a, b)), axes.World(Sub(p, b)));
  }

  /** In camera coordinates every corner lies on the inner side of every plane, and one corner strictly so. */
  lemma LocalSideNonNegative(e: Extent, i: int, k: int)
    requires e.Valid() && 0 <= i < PLANE_CNT && 0 <= k < POINT_CNT
    ensures LocalSide(e, i, k) >= 0.0
    ensures k == Across(i) ==> LocalSide(e, i, k) > 0.0
  {
    hide Dot, Triple, Cross;
    if i == 0 {
      LeftSide(e, k);
    } else if i == 1 {
      RightSide(e, k);
    } else if i == 2 {
      BottomSide(e, k);
    } else if i == 3 {
      TopSide(e, k);
    } else {
      DepthSide(e, i, k);
    }
  }

  lemma LeftSide(e: Extent, k: int)
    requires e.Valid() && 0 <= k < POINT_CNT
    ensures LocalSide(e, 0, k) >= 0.0 && (k == FBR ==> LocalSide(e, 0, k) > 0.0)
  {
    hide Dot, Triple, Cross, Weigh;
    var w := Sub(Local(e, k), Local(e, NBL));
    UpEdge(Vec(e.nearX - e.farX, e.far - e.near, e.nearY - e.farY), 2.0 * e.nearY, w);
    Positive(2.0 * e.nearY, e.far - e.near, w.x, e.farX - e.nearX, w.y);
  }

  lemma RightSide(e: Extent, k: int)
    requires e.Valid() && 0 <= k < POINT_CNT
    ensures LocalSide(e, 1, k) >= 0.0 && (k == FBL ==> LocalSide(e, 1, k) > 0.0)
  {
    hide Dot, Triple, Cross, Weigh;
    var w := Sub(Local(e, k), Local(e, NTR));
    UpEdge(Vec(e.farX - e.nearX, e.far - e.near, -e.farY - e.nearY), -2.0 * e.nearY, w);
    Positive(2.0 * e.nearY, e.far - e.near, -w.x, e.farX - e.nearX, w.y);
  }

  lemma BottomSide(e: Extent, k: int)
    requires e.Valid() && 0 <= k < POINT_CNT
    ensures LocalSide(e, 2, k) >= 0.0 && (k == FTL ==> LocalSide(e, 2, k) > 0.0)
  {
    hide Dot, Triple, Cross, Weigh;
    var w := Sub(Local(e, k), Local(e, NBR));
    RightEdge(Vec(e.farX - e.nearX, e.far - e.near, e.nearY - e.farY), -2.0 * e.nearX, w);
    Positive(2.0 * e.nearX, e.far - e.near, w.z, e.farY - e.nearY, w.y);
  }

  lemma TopSide(e: Extent, k: int)
    requires e.Valid() && 0 <= k < POINT_CNT
    ensures LocalSide(e, 3, k) >= 0.0 && (k == FBL ==> LocalSide(e, 3, k) > 0.0)
  {
    hide Dot, Triple, Cross, Weigh;
    var w := Sub(Local(e, k), Local(e, NTL));
    RightEdge(Vec(e.nearX - e.farX, e.far - e.near, e.farY - e.nearY), 2.0 * e.nearX, w);
    Positive(2.0 * e.nearX, e.far - e.near, -w.z, e.farY - e.nearY, w.y);
  }

  lemma DepthSide(e: Extent, i: int, k: int)
    requires e.Valid() && 4 <= i < PLANE_CNT && 0 <= k < POINT_CNT
    ensures LocalSide(e, i, k) >= 0.0 && (k == Across(i) ==> LocalSide(e, i, k) > 0.0)
  {
    hide Dot, Triple, Cross, Weigh;
    var w := Sub(Local(e, k), Local(e, Spanning(i).1));
    if i == 4 {
      RightEdge(Vec(0.0, 0.0, -2.0 * e.nearY), -2.0 * e.nearX, w);
      Positive(2.0 * e.nearX, 2.0 * e.nearY, w.y, 0.0, 0.0);
    } else {
      RightEdge(Vec(0.0, 0.0, -2.0 * e.farY), 2.0 * e.farX, w);
      Positive(2.0 * e.farX, 2.0 * e.farY, -w.y, 0.0, 0.0);
    }
  }

  /** A corner that does not lie on plane i. */
  function Across(i: int): int {
    if i == 0 then FBR else if i == 2 then FTL else if i == 5 then NBL else FBL
  }

  /** k * (a * b + c * d), the value that all the side volumes come to. */
  function Weigh(k: real, a: real, b: real, c: real, d: real): real {
    k * (a * b + c * d)
  }

  /** The volume over an edge that runs straight up. */
  lemma UpEdge(v: Vec, z: real, w: Vec)
    ensures Triple(v, Vec(0.0, 0.0, z), w) == Weigh(z, v.y, w.x, -v.x, w.y) == Weigh(-z, v.y, -w.x, v.x, w.y)
  {
  }

  /** The volume over an edge that runs straight to the right. */
  lemma RightEdge(v: Vec, x: real, w: Vec)
    ensures Triple(v, Vec(x, 0.0, 0.0), w) == Weigh(x, v.y, -w.z, v.z, w.y) == Weigh(-x, v.y, w.z, -v.z, w.y)
    ensures v.y == 0.0 ==>
            Triple(v, Vec(x, 0.0, 0.0), w) == Weigh(x, -v.z, -w.y, 0.0, 0.0) == Weigh(-x, -v.z, w.y, 0.0, 0.0)
  {
  }

  /** At the near corners the second product vanishes, at the far corners the two combine. */
  lemma Positive(k: real, deep: real, x: real, wide: real, y: real)
    requires k > 0.0 && deep > 0.0
    ensures y == 0.0 && x >= 0.0 ==> Weigh(k, deep, x, wide, y) >= 0.0
    ensures y == 0.0 && x > 0.0 ==> Weigh(k, deep, x, wide, y) > 0.0
    ensures y == deep && x + wide >= 0.0 ==> Weigh(k, deep, x, wide, y) >= 0.0
    ensures y == deep && x + wide > 0.0 ==> Weigh(k, deep, x, wide, y) > 0.0
  {
    if y == 0.0 {
      assert Weigh(k, deep, x, wide, y) == k * (deep * x);
    } else if y == deep {
      FarPositive(k, deep, x + wide, Weigh(k, deep, x, wide, y));
    }
  }

  lemma FarPositive(k: real, deep: real, reach: real, v: real)
    requires k > 0.0 && deep > 0.0 && v == k * (deep * reach)
    ensures reach >= 0.0 ==> v >= 0.0
    ensures reach > 0.0 ==> v > 0.0
  {
    var m := deep * reach;
    ProductSign(deep, reach);
    ProductSign(k, m);
  }

  lemma ProductSign(a: real, b: real)
    requires a > 0.0
    ensures b >= 0.0 ==> a * b >= 0.0
    ensures b > 0.0 ==> a * b > 0.0
  {
  }

  // ----- the frustum encloses its corners -----

  /** The planes have unit normals and no corner lies outside any of them. */
  ghost predicate Encloses(planes: seq<Plane>, verts: seq<Vec>) {
    && (forall i :: 0 <= i < |planes| ==> IsUnit(planes[i].normal))
    && (forall i, k :: 0 <= i < |planes| && 0 <= k < |verts| ==> planes[i].Dist(verts[k]) >= 0.0)
  }

  predicate IsUnit(n: Vec) {
    Dot(n, n) == 1.0
  }

  function Planes(inv: Vec -> real, pos: Vec, axes: Axes, e: Extent): (ps: seq<Plane>)
    ensures |ps| == PLANE_CNT && forall i :: 0 <= i < PLANE_CNT ==> ps[i] == PlaneOf(inv, pos, axes, e, i)
  {
    seq(PLANE_CNT, i requires 0 <= i < PLANE_CNT => PlaneOf(inv, pos, axes, e, i))
  }

  function Corners(pos: Vec, axes: Axes, e: Extent): (vs: seq<Vec>)
    ensures |vs| == POINT_CNT && forall k :: 0 <= k < POINT_CNT ==> vs[k] == Corner(pos, axes, e, k)
  {
    seq(POINT_CNT, k requires 0 <= k < POINT_CNT => Corner(pos, axes, e, k))
  }

  /**
   * The planes enclose the corners exactly when the axes are oriented so that up points along
   * the cross product of right and forward. With the opposite orientation the normals point outward.
   */
  lemma EnclosesIffOriented(inv: Vec -> real, pos: Vec, axes: Axes, e: Extent)
    requires IsInverseLength(inv) && e.Valid() && axes.Volume() != 0.0
    ensures Encloses(Planes(inv, pos, axes, e), Corners(pos, axes, e)) <==> axes.Volume() > 0.0
  {
    hide Plane.Dist, PlaneOf, Corner, RawNormal, LocalSide, Axes.Volume, IsInverseLength;
    var ps, vs := Planes(inv, pos, axes, e), Corners(pos, axes, e);
    if axes.Volume() > 0.0 {
      forall i, k | 0 <= i < PLANE_CNT && 0 <= k < POINT_CNT
        ensures ps[i].Dist(vs[k]) >= 0.0
      {
        CornerSide(inv, pos, axes, e, i, k);
      }
      forall i | 0 <= i < PLANE_CNT
        ensures IsUnit(ps[i].normal)
      {
        CornerSide(inv, pos, axes, e, i, Across(i));
      }
    } else {
      CornerSide(inv, pos, axes, e, 0, Across(0));
      assert ps[0].Dist(vs[Across(0)]) < 0.0;
    }
  }

  lemma CornerSide(inv: Vec -> real, pos: Vec, axes: Axes, e: Extent, i: int, k: int)
    requires IsInverseLength(inv) && e.Valid() && axes.Volume() != 0.0
    requires 0 <= i < PLANE_CNT && 0 <= k < POINT_CNT
    ensures axes.Volume() > 0.0 ==> PlaneOf(inv, pos, axes, e, i).Dist(Corner(pos, axes, e, k)) >= 0.0
    ensures axes.Volume() < 0.0 && k == Across(i) ==> PlaneOf(inv, pos, axes, e, i).Dist(Corner(pos, axes, e, k)) < 0.0
    ensures IsUnit(PlaneOf(inv, pos, axes, e, i).normal)
  {
    hide *;
    NormalIsUnit(inv, pos, axes, e, i);
    CornerDist(inv, pos, axes, e, i, k);
    LocalSideNonNegative(e, i, k);
    SideSign(inv(RawNormal(pos, axes, e, i)), LocalSide(e, i, k), axes.Volume(), LocalSide(e, i, k) * axes.Volume());
  }

  lemma SideSign(s: real, side: real, vol: real, product: real)
    requires s > 0.0 && side >= 0.0 && product == side * vol
    ensures vol > 0.0 ==> s * product >= 0.0
    ensures vol < 0.0 && side > 0.0 ==> s * product < 0.0
  {
    if vol > 0.0 {
      ProductSign(vol, side);
      ProductSign(s, product);
    } else if vol < 0.0 && side > 0.0 {
      ProductSign(side, -vol);
      assert side * -vol == -product;
      ProductSign(s, -product);
      assert s * -product == -(s * product);
    }
  }

  /** The normals of a frustum with spanning axes never vanish, so normalising them works. */
  lemma NormalIsUnit(inv: Vec -> real, pos: Vec, axes: Axes, e: Extent, i: int)
    requires IsInverseLength(inv) && e.Valid() && axes.Volume() != 0.0 && 0 <= i < PLANE_CNT
    ensures inv(RawNormal(pos, axes, e, i)) > 0.0
    ensures IsUnit(PlaneOf(inv, pos, axes, e, i).normal)
  {
    var c := RawNormal(pos, axes, e, i);
    assert c != ZERO by {
      hide Plane.Dist, PlaneOf, Corner, RawNormal, LocalSide, Axes.Volume, IsInverseLength, Dot;
      CornerDist(inv, pos, axes, e, i, Across(i));
      LocalSideNonNegative(e, i, Across(i));
      DotZero(Sub(Corner(pos, axes, e, Across(i)), Corner(pos, axes, e, Spanning(i).1)));
      NonZeroProduct(LocalSide(e, i, Across(i)), axes.Volume());
    }
    NormalisedIsUnit(inv, c);
    assert PlaneOf(inv, pos, axes, e, i).normal == Scale(inv(c), c) by {
      hide Dot, Cross, Corner;
    }
  }

  // ----- what the frustum shows -----

  /** How far inside plane i a point lies, measured along one axis of the camera. */
  function Room(e: Extent, i: int, c: Vec): real
    requires 0 <= i < PLANE_CNT
  {
    if i == 0 then (e.far - e.near) * (e.nearX + c.x) + (e.farX - e.nearX) * (c.y - e.near)
    else if i == 1 then (e.far - e.near) * (e.nearX - c.x) + (e.farX - e.nearX) * (c.y - e.near)
    else if i == 2 then (e.far - e.near) * (e.nearY + c.z) + (e.farY - e.nearY) * (c.y - e.near)
    else if i == 3 then (e.far - e.near) * (e.nearY - c.z) + (e.farY - e.nearY) * (c.y - e.near)
    else if i == 4 then c.y - e.near
    else e.far - c.y
  }

  lemma WeighSign(k: real, a: real, b: real, c: real, d: real)
    requires k > 0.0
    ensures Weigh(k, a, b, c, d) >= 0.0 <==> a * b + c * d >= 0.0
  {
    var v := a * b + c * d;
    FactorSign(k, v);
  }

  lemma FactorSign(k: real, v: real)
    requires k > 0.0
    ensures k * v >= 0.0 <==> v >= 0.0
  {
  }

  lemma SideIsRoom(e: Extent, i: int, c: Vec)
    requires e.Valid() && 0 <= i < PLANE_CNT
    ensures SideAt(e, i, c) >= 0.0 <==> Room(e, i, c) >= 0.0
  {
    hide SideAt, Room;
    if i == 0 {
      LeftRoom(e, c);
    } else if i == 1 {
      RightRoom(e, c);
    } else if i == 2 {
      BottomRoom(e, c);
    } else if i == 3 {
      TopRoom(e, c);
    } else {
      DepthRoom(e, i, c);
    }
  }

  lemma LeftRoom(e: Extent, c: Vec)
    requires e.Valid()
    ensures SideAt(e, 0, c) >= 0.0 <==> Room(e, 0, c) >= 0.0
  {
    hide Dot, Triple, Cross, Weigh;
    var w := Sub(c, Local(e, NBL));
    UpEdge(Vec(e.nearX - e.farX, e.far - e.near, e.nearY - e.farY), 2.0 * e.nearY, w);
    WeighSign(2.0 * e.nearY, e.far - e.near, w.x, e.farX - e.nearX, w.y);
  }

  lemma RightRoom(e: Extent, c: Vec)
    requires e.Valid()
    ensures SideAt(e, 1, c) >= 0.0 <==> Room(e, 1, c) >= 0.0
  {
    hide Dot, Triple, Cross, Weigh;
    var w := Sub(c, Local(e, NTR));
    UpEdge(Vec(e.farX - e.nearX, e.far - e.near, -e.farY - e.nearY), -2.0 * e.nearY, w);
    WeighSign(2.0 * e.nearY, e.far - e.near, -w.x, e.farX - e.nearX, w.y);
  }

  lemma BottomRoom(e: Extent, c: Vec)
    requires e.Valid()
    ensures SideAt(e, 2, c) >= 0.0 <==> Room(e, 2, c) >= 0.0
  {
    hide Dot, Triple, Cross, Weigh;
    var w := Sub(c, Local(e, NBR));
    RightEdge(Vec(e.farX - e.nearX, e.far - e.near, e.nearY - e.farY), -2.0 * e.nearX, w);
    WeighSign(2.0 * e.nearX, e.far - e.near, w.z, e.farY - e.nearY, w.y);
  }

  lemma TopRoom(e: Extent, c: Vec)
    requires e.Valid()
    ensures SideAt(e, 3, c) >= 0.0 <==> Room(e, 3, c) >= 0.0
  {
    hide Dot, Triple, Cross, Weigh;
    var w := Sub(c, Local(e, NTL));
    RightEdge(Vec(e.nearX - e.farX, e.far - e.near, e.farY - e.nearY), 2.0 * e.nearX, w);
    WeighSign(2.0 * e.nearX, e.far - e.near, -w.z, e.farY - e.nearY, w.y);
  }

  lemma DepthRoom(e: Extent, i: int, c: Vec)
    requires e.Valid() && 4 <= i < PLANE_CNT
    ensures SideAt(e, i, c) >= 0.0 <==> Room(e, i, c) >= 0.0
  {
    hide Dot, Triple, Cross, Weigh;
    var w := Sub(c, Local(e, Spanning(i).1));
    if i == 4 {
      RightEdge(Vec(0.0, 0.0, -2.0 * e.nearY), -2.0 * e.nearX, w);
      WeighSign(2.0 * e.nearX, 2.0 * e.nearY, w.y, 0.0, 0.0);
      FactorSign(2.0 * e.nearY, w.y);
    } else {
      RightEdge(Vec(0.0, 0.0, -2.0 * e.farY), 2.0 * e.farX, w);
      WeighSign(2.0 * e.farX, 2.0 * e.farY, -w.y, 0.0, 0.0);
      FactorSign(2.0 * e.farY, -w.y);
    }
  }

  lemma SumOfFour(a: Vec, b: Vec, c: Vec, d: Vec)
    ensures Add(Add(Add(a, b), c), d) == Add(a, Add(Add(b, c), d))
  {
  }

  /** A point is outside no plane. */
  ghost predicate Shows(planes: seq<Plane>, p: Vec) {
    forall i :: 0 <= i < |planes| ==> planes[i].Dist(p) >= 0.0
  }

  /** The planes show exactly the points with room to all six of them. */
  lemma ShowsIffRoom(inv: Vec -> real, pos: Vec, axes: Axes, e: Extent, c: Vec)
    requires IsInverseLength(inv) && e.Valid() && axes.Volume() > 0.0
    ensures Shows(Planes(inv, pos, axes, e), Add(pos, axes.World(c)))
       <==> forall i :: 0 <= i < PLANE_CNT ==> Room(e, i, c) >= 0.0
  {
    hide Plane.Dist, PlaneOf, RawNormal, SideAt, Room, Axes.Volume, Axes.World, Add, IsInverseLength;
    forall i | 0 <= i < PLANE_CNT
      ensures PlaneOf(inv, pos, axes, e, i).Dist(Add(pos, axes.World(c))) >= 0.0 <==> Room(e, i, c) >= 0.0
    {
      NormalIsUnit(inv, pos, axes, e, i);
      PointDist(inv, pos, axes, e, i, c);
      SideIsRoom(e, i, c);
      var s, side, v := inv(RawNormal(pos, axes, e, i)), SideAt(e, i, c), axes.Volume();
      FactorSign(s, side * v);
      FactorSign(v, side);
    }
  }

  /** Room to the six planes of a perspective frustum, in the camera's own terms. */
  lemma PerspectiveRoom(near: real, far: real, tanX: real, tanY: real, c: Vec)
    requires 0.0 < near < far && 0.0 < tanX && 0.0 < tanY
    ensures (forall i :: 0 <= i < PLANE_CNT ==> Room(Perspective(near, far, tanX, tanY), i, c) >= 0.0)
       <==> near <= c.y <= far && -(c.y * tanX) <= c.x <= c.y * tanX && -(c.y * tanY) <= c.z <= c.y * tanY
  {
    hide Perspective, Room;
    PerspectiveAcross(near, far, tanX, tanY, c);
    PerspectiveUp(near, far, tanX, tanY, c);
    PerspectiveDepth(near, far, tanX, tanY, c);
  }

  /** WidthAt with names for the products that it speaks of. */
  lemma WidthOf(near: real, far: real, t: real, y: real, x: real, n: real, f: real, w: real)
    requires near < far && n == near * t && f == far * t && w == y * t
    ensures (far - near) * (n + x) + (f - n) * (y - near) >= 0.0 <==> w + x >= 0.0
    ensures (far - near) * (n - x) + (f - n) * (y - near) >= 0.0 <==> w - x >= 0.0
  {
    WidthAt(near, far, t, y, x);
    WidthAt(near, far, t, y, -x);
    assert n + -x == n - x && w + -x == w - x;
  }

  lemma PerspectiveAcross(near: real, far: real, tanX: real, tanY: real, c: Vec)
    requires near < far
    ensures var e := Perspective(near, far, tanX, tanY);
            && (Room(e, 0, c) >= 0.0 <==> c.y * tanX + c.x >= 0.0)
            && (Room(e, 1, c) >= 0.0 <==> c.y * tanX - c.x >= 0.0)
  {
    var e := Perspective(near, far, tanX, tanY);
    WidthOf(near, far, tanX, c.y, c.x, e.nearX, e.farX, c.y * tanX);
  }

  lemma PerspectiveUp(near: real, far: real, tanX: real, tanY: real, c: Vec)
    requires near < far
    ensures var e := Perspective(near, far, tanX, tanY);
            && (Room(e, 2, c) >= 0.0 <==> c.y * tanY + c.z >= 0.0)
            && (Room(e, 3, c) >= 0.0 <==> c.y * tanY - c.z >= 0.0)
  {
    var e := Perspective(near, far, tanX, tanY);
    WidthOf(near, far, tanY, c.y, c.z, e.nearY, e.farY, c.y * tanY);
  }

  lemma PerspectiveDepth(near: real, far: real, tanX: real, tanY: real, c: Vec)
    ensures var e := Perspective(near, far, tanX, tanY);
            Room(e, 4, c) == c.y - near && Room(e, 5, c) == far - c.y
  {
  }

  lemma WidthAt(near: real, far: real, t: real, y: real, x: real)
    requires near < far
    ensures (far - near) * (near * t + x) + (far * t - near * t) * (y - near) >= 0.0 <==> y * t + x >= 0.0
  {
    var d := far - near;
    assert far * t - near * t == d * t;
    assert d * (near * t + x) == d * (near * t) + d * x;
    assert (d * t) * (y - near) == d * (t * (y - near)) == d * (t * y) - d * (t * near);
    assert d * (y * t + x) == d * (y * t) + d * x;
    FactorSign(d, y * t + x);
  }

  lemma OrthographicRoom(near: real, far: real, scaleX: real, scaleY: real, c: Vec)
    requires 0.0 < near < far && 0.0 < scaleX && 0.0 < scaleY
    ensures (forall i :: 0 <= i < PLANE_CNT ==> Room(Orthographic(near, far, scaleX, scaleY), i, c) >= 0.0)
       <==> near <= c.y <= far && -scaleX <= c.x <= scaleX && -scaleY <= c.z <= scaleY
  {
    var e := Orthographic(near, far, scaleX, scaleY);
    FactorSign(far - near, scaleX + c.x);
    FactorSign(far - near, scaleX - c.x);
    FactorSign(far - near, scaleY + c.z);
    FactorSign(far - near, scaleY - c.z);
    assert Room(e, 0, c) >= 0.0 <==> scaleX + c.x >= 0.0;
    assert Room(e, 1, c) >= 0.0 <==> scaleX - c.x >= 0.0;
    assert Room(e, 2, c) >= 0.0 <==> scaleY + c.z >= 0.0;
    assert Room(e, 3, c) >= 0.0 <==> scaleY - c.z >= 0.0;
    assert Room(e, 4, c) == c.y - near && Room(e, 5, c) == far - c.y;
  }

  lemma NormalisedIsUnit(inv: Vec -> real, c: Vec)
    requires IsInverseLength(inv) && c != ZERO
    ensures inv(c) > 0.0 && IsUnit(Scale(inv(c), c))
  {
  }

  lemma NonZeroProduct(a: real, b: real)
    requires a != 0.0 && b != 0.0
    ensures a * b != 0.0
  {
  }

  // ----- axes from a rotation -----

  /** An angle by its sine and cosine. */
  datatype Angle = Angle(sin: real, cos: real) {
    predicate Valid() { sin * sin + cos * cos == 1.0 }
  }

  /** x is the inclination, y the azimuth and z the roll. */
  function ForwardFromRot(x: Angle, y: Angle): Vec {
    Vec(x.sin * y.sin, x.cos, x.sin * -y.cos)
  }

  function RightFromRot(y: Angle, z: Angle): Vec {
    Vec(z.cos * y.cos, z.sin, z.cos * y.sin)
  }

  function AxesFromRot(inv: Vec -> real, x: Angle, y: Angle, z: Angle): Axes {
    var right, forward := RightFromRot(y, z), ForwardFromRot(x, y);
    Axes(right, forward, Normalised(inv, Cross(right, forward)))
  }

  /** Zero is left as it is. */
  function Normalised(inv: Vec -> real, v: Vec): Vec {
    if v == ZERO then v else Scale(inv(v), v)
  }

  lemma CrossUpVolume(inv: Vec -> real, right: Vec, forward: Vec)
    requires IsInverseLength(inv) && Cross(right, forward) != ZERO
    ensures var c := Cross(right, forward); Axes(right, forward, Scale(inv(c), c)).Volume() > 0.0
  {
    var c := Cross(right, forward);
    var s, up := inv(c), Scale(inv(c), c);
    NormalisedIsUnit(inv, c);
    hide Cross;
    assert s * Dot(c, up) == 1.0 by { hide Dot; DotScale(s, c, up); }
    PositiveFactor(s, Dot(c, up));
    TripleIsDot(right, forward, up);
  }

  /**
   * Up as the normalised cross product of right and forward: the orientation that encloses, unless they are
   * parallel.
   */
  lemma CrossUpIsOriented(inv: Vec -> real, right: Vec, forward: Vec)
    requires IsInverseLength(inv)
    ensures var c := Cross(right, forward);
            var volume := Axes(right, forward, Normalised(inv, c)).Volume();
            volume >= 0.0 && (volume > 0.0 <==> c != ZERO)
  {
    hide Cross, Dot, Scale;
    var c := Cross(right, forward);
    if c == ZERO {
      DotZero(c);
    } else {
      CrossUpVolume(inv, right, forward);
    }
  }

  lemma ZeroProduct(a: real, b: real)
    requires a * b == 0.0 && b != 0.0
    ensures a == 0.0
  {
  }

  /** A turn by an angle moves no pair but zero to zero. */
  lemma TurnIsInjective(y: Angle, a: real, b: real)
    requires y.Valid() && a * y.cos + b * y.sin == 0.0 && b * y.cos - a * y.sin == 0.0
    ensures a == 0.0 && b == 0.0
  {
    TurnedBack(y, a, b);
    TurnedBack(y, b, -a);
  }

  lemma TurnedBack(y: Angle, a: real, b: real)
    requires y.Valid()
    ensures (a * y.cos + b * y.sin) * y.cos - (b * y.cos - a * y.sin) * y.sin == a
  {
  }

  /** Right and forward are parallel exactly for a look straight up or down with a quarter roll. */
  lemma ParallelIff(x: Angle, y: Angle, z: Angle)
    requires x.Valid() && y.Valid() && z.Valid()
    ensures Cross(RightFromRot(y, z), ForwardFromRot(x, y)) == ZERO <==> x.sin == 0.0 && z.cos == 0.0
  {
    var c := Cross(RightFromRot(y, z), ForwardFromRot(x, y));
    CrossOfRot(x, y, z);
    hide Cross;
    if c == ZERO {
      TurnIsInjective(y, x.sin * z.sin, x.cos * z.cos);
      if x.sin != 0.0 {
        ZeroProduct(z.sin, x.sin);
        ZeroProduct(z.cos, x.sin);
        assert false;
      }
      ZeroProduct(z.cos, x.cos);
    }
  }

  lemma CrossOfRot(x: Angle, y: Angle, z: Angle)
    requires y.Valid()
    ensures var c := Cross(RightFromRot(y, z), ForwardFromRot(x, y));
            && c.x == -(x.sin * z.sin * y.cos + x.cos * z.cos * y.sin)
            && c.y == x.sin * z.cos
            && c.z == x.cos * z.cos * y.cos - x.sin * z.sin * y.sin
  {
    var k := x.sin * z.cos;
    assert (z.cos * y.sin) * (x.sin * y.sin) == k * (y.sin * y.sin);
    assert (z.cos * y.cos) * (x.sin * -y.cos) == -k * (y.cos * y.cos);
    assert k * (y.sin * y.sin) + k * (y.cos * y.cos) == k * (y.sin * y.sin + y.cos * y.cos);
  }

  /** The axes of a rotation have the orientation that encloses, except straight up or down with a quarter roll. */
  lemma RotIsOrientedIff(inv: Vec -> real, x: Angle, y: Angle, z: Angle)
    requires IsInverseLength(inv) && x.Valid() && y.Valid() && z.Valid()
    ensures AxesFromRot(inv, x, y, z).Volume() > 0.0 <==> !(x.sin == 0.0 && z.cos == 0.0)
  {
    hide Axes.Volume, Cross, IsInverseLength;
    ParallelIff(x, y, z);
    CrossUpIsOriented(inv, RightFromRot(y, z), ForwardFromRot(x, y));
  }

  /**
   * Without roll the axes are orthonormal: right is level, at the azimuth from the x-axis; forward has the
   * inclination from the vertical; and up is straight up for a level look.
   */
  lemma UnrolledAxes(inv: Vec -> real, x: Angle, y: Angle)
    requires IsInverseLength(inv) && x.Valid() && y.Valid()
    ensures var axes := AxesFromRot(inv, x, y, Angle(0.0, 1.0));
            && axes.right == Vec(y.cos, 0.0, y.sin)
            && axes.forward == Vec(x.sin * y.sin, x.cos, -(x.sin * y.cos))
            && axes.up == Vec(-(x.cos * y.sin), x.sin, x.cos * y.cos)
            && axes.Volume() == 1.0
  {
    var z := Angle(0.0, 1.0);
    var up := Vec(-(x.cos * y.sin), x.sin, x.cos * y.cos);
    CrossOfRot(x, y, z);
    assert Cross(RightFromRot(y, z), ForwardFromRot(x, y)) == up;
    assert Dot(up, up) == 1.0 by {
      SquareOfProduct(x.cos, y.sin);
      SquareOfProduct(x.cos, y.cos);
      assert (x.cos * x.cos) * (y.sin * y.sin) + (x.cos * x.cos) * (y.cos * y.cos) == x.cos * x.cos;
    }
    UnitStays(inv, up);
    TripleIsDot(RightFromRot(y, z), ForwardFromRot(x, y), up);
  }

  lemma SquareOfProduct(a: real, b: real)
    ensures (a * b) * (a * b) == (a * a) * (b * b)
    ensures -(a * b) * -(a * b) == (a * a) * (b * b)
  {
  }

  lemma UnitStays(inv: Vec -> real, v: Vec)
    requires IsInverseLength(inv) && IsUnit(v)
    ensures Normalised(inv, v) == v
  {
    var s := inv(v);
    DotZero(v);
    assert s > 0.0 && Dot(Scale(s, v), Scale(s, v)) == 1.0;
    hide Dot, Scale;
    DotScale(s, v, v);
    DotScale(s, Scale(s, v), v);
    DotCommutes(Scale(s, v), v);
    PositiveRootOfOne(s);
    OneScale(v);
  }

  lemma PositiveRootOfOne(s: real)
    requires s > 0.0 && s * s == 1.0
    ensures s == 1.0
  {
    assert (s - 1.0) * (s + 1.0) == 0.0;
  }

  lemma OneScale(v: Vec)
    ensures Scale(1.0, v) == v
  {
  }

  /** Roll lifts the right axis out of the level towards the vertical, and leaves forward alone. */
  lemma RollLiftsRight(inv: Vec -> real, x: Angle, y: Angle, z: Angle)
    ensures var axes, level := AxesFromRot(inv, x, y, z), AxesFromRot(inv, x, y, Angle(0.0, 1.0));
            && axes.right == Add(Scale(z.cos, level.right), Scale(z.sin, Vec(0.0, 1.0, 0.0)))
            && axes.forward == level.forward
  {
  }

  lemma PositiveFactor(a: real, b: real)
    requires a > 0.0 && a * b == 1.0
    ensures b > 0.0
  {
  }

  /** The axes a camera is created with (before any direction is set) have the opposite orientation. */
  lemma InitialAxesAreFlipped()
    ensures Axes(Vec(1.0, 0.0, 0.0), Vec(0.0, 0.0, 1.0), Vec(0.0, 1.0, 0.0)).Volume() == -1.0
  {
  }

  // ----- culling -----

  function Sum(w: seq<real>): real {
    if w == [] then 0.0 else w[0] + Sum(w[1..])
  }

  /** The weighted sum of points. */
  function Combination(w: seq<real>, vs: seq<Vec>): Vec
    requires |w| == |vs|
  {
    if w == [] then ZERO else Add(Scale(w[0], vs[0]), Combination(w[1..], vs[1..]))
  }

  /** q is a convex combination of the points. */
  ghost predicate InHull(q: Vec, vs: seq<Vec>) {
    exists w: seq<real> :: IsConvex(w, vs) && Combination(w, vs) == q
  }

  ghost predicate IsConvex(w: seq<real>, vs: seq<Vec>) {
    |w| == |vs| && Sum(w) == 1.0 && forall k :: 0 <= k < |w| ==> w[k] >= 0.0
  }

  lemma {:induction false} CombinationDist(p: Plane, w: seq<real>, vs: seq<Vec>)
    requires |w| == |vs|
    requires forall k :: 0 <= k < |w| ==> w[k] >= 0.0
    requires forall k :: 0 <= k < |vs| ==> p.Dist(vs[k]) >= 0.0
    ensures Dot(p.normal, Combination(w, vs)) + Sum(w) * p.offset >= 0.0
  {
    if w == [] {
      DotZero(p.normal);
      DotCommutes(p.normal, ZERO);
    } else {
      CombinationDist(p, w[1..], vs[1..]);
      assert p.Dist(vs[0]) == Dot(p.normal, vs[0]) + p.offset;
      hide Dot, Plane.Dist;
      DotAdd(Scale(w[0], vs[0]), Combination(w[1..], vs[1..]), p.normal);
      DotScale(w[0], p.normal, vs[0]);
      DotScale(w[0], vs[0], p.normal);
      DotCommutes(vs[0], p.normal);
      DotCommutes(p.normal, Scale(w[0], vs[0]));
      WeightedTerm(w[0], Dot(p.normal, vs[0]), p.offset, Sum(w[1..]));
    }
  }

  lemma WeightedTerm(w: real, d: real, offset: real, rest: real)
    requires w >= 0.0 && d + offset >= 0.0
    ensures w * d + (w + rest) * offset >= rest * offset
  {
    assert w * (d + offset) >= 0.0;
    assert (w + rest) * offset == w * offset + rest * offset;
    assert w * (d + offset) == w * d + w * offset;
  }

  lemma HullIsInside(p: Plane, q: Vec, vs: seq<Vec>)
    requires InHull(q, vs) && forall k :: 0 <= k < |vs| ==> p.Dist(vs[k]) >= 0.0
    ensures p.Dist(q) >= 0.0
  {
    var w :| IsConvex(w, vs) && Combination(w, vs) == q;
    CombinationDist(p, w, vs);
    hide Dot;
    assert Sum(w) * p.offset == p.offset;
  }

  datatype Box = Box(mins: Vec, maxs: Vec) {
    predicate Contains(q: Vec) {
      mins.x <= q.x <= maxs.x && mins.y <= q.y <= maxs.y && mins.z <= q.z <= maxs.z
    }

    function Center(): Vec {
      Scale(0.5, Add(maxs, mins))
    }

    function HalfExtents(): Vec {
      Scale(0.5, Sub(maxs, mins))
    }

    /** The vertex furthest along a normal. */
    function VertexP(n: Vec): Vec {
      Vec(if n.x >= 0.0 then maxs.x else mins.x,
          if n.y >= 0.0 then maxs.y else mins.y,
          if n.z >= 0.0 then maxs.z else mins.z)
    }
  }

  lemma VertexPIsFurthest(b: Box, n: Vec, q: Vec)
    requires b.Contains(q)
    ensures Dot(n, b.VertexP(n)) >= Dot(n, q)
  {
    var v := b.VertexP(n);
    AlongAxis(n.x, b.mins.x, b.maxs.x, q.x, v.x);
    AlongAxis(n.y, b.mins.y, b.maxs.y, q.y, v.y);
    AlongAxis(n.z, b.mins.z, b.maxs.z, q.z, v.z);
    AddUp(Dot(n, v), n.x * v.x, n.y * v.y, n.z * v.z, Dot(n, q), n.x * q.x, n.y * q.y, n.z * q.z);
  }

  lemma AddUp(s: real, a: real, b: real, c: real, s': real, a': real, b': real, c': real)
    requires s == a + b + c && s' == a' + b' + c' && a >= a' && b >= b' && c >= c'
    ensures s >= s'
  {
  }

  lemma AlongAxis(n: real, lo: real, hi: real, q: real, v: real)
    requires lo <= q <= hi && v == if n >= 0.0 then hi else lo
    ensures n * v >= n * q
  {
    if n >= 0.0 {
      assert n * (v - q) >= 0.0;
    } else {
      assert -n * (q - v) >= 0.0;
    }
  }

  /** Every point of a box is within the box's radius of its center. */
  lemma BoxInSphere(b: Box, q: Vec, radius: real)
    requires b.Contains(q) && radius * radius == Dot(b.HalfExtents(), b.HalfExtents())
    ensures Dot(Sub(b.Center(), q), Sub(b.Center(), q)) <= radius * radius
  {
    var d, h := Sub(b.Center(), q), b.HalfExtents();
    SmallerSquare(d.x, h.x);
    SmallerSquare(d.y, h.y);
    SmallerSquare(d.z, h.z);
  }

  /** And no smaller radius would do: the corners of the box are on that sphere. */
  lemma CornerOnSphere(b: Box)
    requires b.mins.x <= b.maxs.x && b.mins.y <= b.maxs.y && b.mins.z <= b.maxs.z
    ensures b.Contains(b.Center()) && b.Contains(b.maxs)
    ensures Dot(Sub(b.Center(), b.maxs), Sub(b.Center(), b.maxs)) == Dot(b.HalfExtents(), b.HalfExtents())
  {
    var d, h := Sub(b.Center(), b.maxs), b.HalfExtents();
    OppositeSquare(d.x, h.x);
    OppositeSquare(d.y, h.y);
    OppositeSquare(d.z, h.z);
  }

  lemma OppositeSquare(d: real, h: real)
    requires d == -h
    ensures d * d == h * h
  {
  }

  lemma SmallerSquare(d: real, h: real)
    requires -h <= d <= h
    ensures d * d <= h * h
  {
    assert (-d) * (-d) == d * d;
    SquareGrows(d, h);
    SquareGrows(-d, h);
  }

  lemma DistMoves(p: Plane, q: Vec, c: Vec)
    ensures p.Dist(c) == p.Dist(q) + Dot(p.normal, Sub(c, q))
  {
    DotSub(c, q, p.normal);
  }

  /** A sphere that meets the hull of the corners is not outside any plane. */
  lemma SphereNotOutside(p: Plane, vs: seq<Vec>, q: Vec, center: Vec, radius: real)
    requires IsUnit(p.normal) && forall k :: 0 <= k < |vs| ==> p.Dist(vs[k]) >= 0.0
    requires InHull(q, vs) && radius >= 0.0 && Dot(Sub(center, q), Sub(center, q)) <= radius * radius
    ensures p.Dist(center) >= -radius
  {
    HullIsInside(p, q, vs);
    DistMoves(p, q, center);
    UnitReach(p.normal, Sub(center, q), radius);
  }

  /** A box that meets the hull of the corners is not outside any plane. */
  lemma BoxNotOutside(p: Plane, vs: seq<Vec>, q: Vec, b: Box)
    requires forall k :: 0 <= k < |vs| ==> p.Dist(vs[k]) >= 0.0
    requires InHull(q, vs) && b.Contains(q)
    ensures p.Dist(b.VertexP(p.normal)) >= 0.0
  {
    HullIsInside(p, q, vs);
    VertexPIsFurthest(b, p.normal, q);
  }

  // ----- the camera -----

  datatype Projection = Persp | Ortho

  predicate Tested(mask: bv8, i: nat)
    requires i < PLANE_CNT
  {
    mask & ((1 as bv8) << i) != 0
  }

  /** Every plane has its own bit. */
  lemma TestedBits(mask: bv8)
    ensures Tested(mask, 0) <==> mask & 1 == 1
    ensures Tested(mask, 1) <==> mask & 2 == 2
    ensures Tested(mask, 2) <==> mask & 4 == 4
    ensures Tested(mask, 3) <==> mask & 8 == 8
    ensures Tested(mask, 4) <==> mask & 16 == 16
    ensures Tested(mask, 5) <==> mask & 32 == 32
  {
  }

  class Camera {
    var pos: Vec
    var axes: Axes
    var proj: Projection
    var scaleX: real
    var scaleY: real
    var near: real
    var far: real
    var tanHalfHFov: real
    var tanHalfVFov: real
    var inViewPlanesMask: bv8
    const verts: array<Vec>
    const planes: array<Plane>

    ghost predicate Valid()
      reads this
    {
      verts.Length == POINT_CNT && planes.Length == PLANE_CNT
    }

    function CurrentExtent(): Extent
      reads this
    {
      match proj
      case Persp => Perspective(near, far, tanHalfHFov, tanHalfVFov)
      case Ortho => Orthographic(near, far, scaleX, scaleY)
    }

    /** The depths and the tangents or scales of a view that shows something. */
    predicate Proper()
      reads this
    {
      && 0.0 < near < far
      && match proj
         case Persp => 0.0 < tanHalfHFov && 0.0 < tanHalfVFov
         case Ortho => 0.0 < scaleX && 0.0 < scaleY
    }

    /** What should be visible: x to the right, y ahead and z up from the camera. */
    predicate InView(x: real, y: real, z: real)
      reads this
    {
      && near <= y <= far
      && match proj
         case Persp => -(y * tanHalfHFov) <= x <= y * tanHalfHFov && -(y * tanHalfVFov) <= z <= y * tanHalfVFov
         case Ortho => -scaleX <= x <= scaleX && -scaleY <= z <= scaleY
    }

    function PointAt(x: real, y: real, z: real): Vec
      reads this
    {
      Add(Add(Add(pos, Scale(x, axes.right)), Scale(y, axes.forward)), Scale(z, axes.up))
    }

    /** The planes made from these settings show exactly what should be visible. */
    lemma ShowsIffInView(inv: Vec -> real, x: real, y: real, z: real)
      requires IsInverseLength(inv) && axes.Volume() > 0.0 && Proper()
      ensures Shows(Planes(inv, pos, axes, CurrentExtent()), PointAt(x, y, z)) <==> InView(x, y, z)
    {
      hide Shows, Planes, Axes.Volume, IsInverseLength, Room, Perspective, Orthographic;
      var c := Vec(x, y, z);
      assert PointAt(x, y, z) == Add(pos, axes.World(c)) by {
        hide Add, Scale;
        SumOfFour(pos, Scale(x, axes.right), Scale(y, axes.forward), Scale(z, axes.up));
      }
      hide Add, Scale, Axes.World, PointAt;
      ShowsIffRoom(inv, pos, axes, CurrentExtent(), c);
      if proj == Persp {
        PerspectiveRoom(near, far, tanHalfHFov, tanHalfVFov, c);
      } else {
        OrthographicRoom(near, far, scaleX, scaleY, c);
      }
    }

    method SetFrustumPlane(inv: Vec -> real, i: nat, v1i: nat, v2i: nat, v3i: nat)
      requires Valid() && i < PLANE_CNT && v1i < POINT_CNT && v2i < POINT_CNT && v3i < POINT_CNT
      modifies planes
      ensures planes[..] == old(planes[..])[i := PlaneThrough(inv, verts[v1i], verts[v2i], verts[v3i])]
    {
      var v1, v2, v3 := verts[v1i], verts[v2i], verts[v3i];
      var u := Sub(v1, v2);
      var v := Sub(v3, v2);
      var c := Cross(v, u);
      var n := Scale(inv(c), c);
      var d := -Dot(n, v2);
      planes[i] := Plane(n, d);
    }

    method UpdateDirsFromRot(inv: Vec -> real, x: Angle, y: Angle, z: Angle)
      modifies this`axes
      ensures axes == AxesFromRot(inv, x, y, z)
      ensures IsInverseLength(inv) && x.Valid() && y.Valid() && z.Valid() ==>
                (axes.Volume() > 0.0 <==> !(x.sin == 0.0 && z.cos == 0.0))
    {
      var forward := ForwardFromRot(x, y);
      var right := RightFromRot(y, z);
      axes := Axes(right, forward, Normalised(inv, Cross(right, forward)));
      if IsInverseLength(inv) && x.Valid() && y.Valid() && z.Valid() {
        RotIsOrientedIff(inv, x, y, z);
      }
    }

    /** Recomputes the corners and the planes from the position, the axes and the projection. */
    method UpdateFrustum(inv: Vec -> real)
      requires Valid()
      modifies verts, planes
      ensures verts[..] == Corners(pos, axes, CurrentExtent())
      ensures planes[..] == Planes(inv, pos, axes, CurrentExtent())
      ensures IsInverseLength(inv) && CurrentExtent().Valid() && axes.Volume() > 0.0 ==> Encloses(planes[..], verts[..])
      ensures IsInverseLength(inv) && Proper() && axes.Volume() > 0.0 ==>
                forall x, y, z :: Shows(planes[..], PointAt(x, y, z)) <==> InView(x, y, z)
    {
      hide Corner, PlaneThrough, Axes.Volume, Extent.Valid, IsInverseLength, Encloses, Local, Perspective, Orthographic;
      ghost var e := CurrentExtent();
      WriteCorners();
      SetFrustumPlane(inv, 0, NTL, NBL, FBL);
      SetFrustumPlane(inv, 1, NBR, NTR, FBR);
      SetFrustumPlane(inv, 2, NBL, NBR, FBR);
      SetFrustumPlane(inv, 3, NTR, NTL, FTL);
      SetFrustumPlane(inv, 4, NTL, NTR, NBR);
      SetFrustumPlane(inv, 5, FTR, FTL, FBL);
      assert planes[..] == Planes(inv, pos, axes, e);
      if IsInverseLength(inv) && e.Valid() && axes.Volume() > 0.0 {
        EnclosesIffOriented(inv, pos, axes, e);
      }
      if IsInverseLength(inv) && Proper() && axes.Volume() > 0.0 {
        forall x, y, z
          ensures Shows(planes[..], PointAt(x, y, z)) <==> InView(x, y, z)
        {
          ShowsIffInView(inv, x, y, z);
        }
      }
    }

    method WriteCorners()
      requires Valid()
      modifies verts
      ensures verts[..] == Corners(pos, axes, CurrentExtent())
    {
      hide Add, Scale, Axes.World;
      var e := CurrentExtent();
      verts[NBL] := Add(pos, axes.World(Vec(-e.nearX, e.near, -e.nearY)));
      verts[NBR] := Add(pos, axes.World(Vec(e.nearX, e.near, -e.nearY)));
      verts[NTR] := Add(pos, axes.World(Vec(e.nearX, e.near, e.nearY)));
      verts[NTL] := Add(pos, axes.World(Vec(-e.nearX, e.near, e.nearY)));
      verts[FBL] := Add(pos, axes.World(Vec(-e.farX, e.far, -e.farY)));
      verts[FBR] := Add(pos, axes.World(Vec(e.farX, e.far, -e.farY)));
      verts[FTR] := Add(pos, axes.World(Vec(e.farX, e.far, e.farY)));
      verts[FTL] := Add(pos, axes.World(Vec(-e.farX, e.far, e.farY)));
    }

    method IntersectSphere(p: Vec, radius: real, testMask: bv8) returns (r: bool)
      requires Valid()
      ensures r <==> forall i :: 0 <= i < PLANE_CNT && Tested(testMask, i) ==> planes[i].Dist(p) >= -radius
    {
      hide Plane.Dist, Tested;
      for i := 0 to PLANE_CNT
        invariant forall k :: 0 <= k < i && Tested(testMask, k) ==> planes[k].Dist(p) >= -radius
      {
        if !Tested(testMask, i) {
          continue;
        }
        if planes[i].Dist(p) < -radius {
          return false;
        }
      }
      return true;
    }

    method IntersectAABB(b: Box, testMask: bv8) returns (r: bool)
      requires Valid()
      ensures r <==> forall i :: 0 <= i < PLANE_CNT && Tested(testMask, i) ==>
              planes[i].Dist(b.VertexP(planes[i].normal)) >= 0.0
    {
      hide Plane.Dist, Tested, Box.VertexP;
      for i := 0 to PLANE_CNT
        invariant forall k :: 0 <= k < i && Tested(testMask, k) ==> planes[k].Dist(b.VertexP(planes[k].normal)) >= 0.0
      {
        if !Tested(testMask, i) {
          continue;
        }
        if planes[i].Dist(b.VertexP(planes[i].normal)) < 0.0 {
          return false;
        }
      }
      return true;
    }

    /** A sphere is in view unless it is outside a tested plane; one that meets the frustum always is. */
    method InViewSphere(center: Vec, radius: real) returns (r: bool)
      requires Valid()
      ensures Encloses(planes[..], verts[..]) && SphereMeets(center, radius, verts[..]) ==> r
      ensures r <==> forall i :: 0 <= i < PLANE_CNT && Tested(inViewPlanesMask, i) ==> planes[i].Dist(center) >= -radius
    {
      hide Plane.Dist, InHull, Tested, IsUnit;
      r := IntersectSphere(center, radius, inViewPlanesMask);
      if Encloses(planes[..], verts[..]) && SphereMeets(center, radius, verts[..]) {
        SphereKept(planes[..], verts[..], center, radius);
        assert forall i :: 0 <= i < PLANE_CNT ==> planes[i] == planes[..][i];
      }
    }

    /** A box is in view unless its bounding sphere or its furthest vertex is outside a tested plane. */
    method InViewBox(b: Box, radius: real) returns (r: bool)
      requires Valid()
      requires radius >= 0.0 && radius * radius == Dot(b.HalfExtents(), b.HalfExtents())
      ensures Encloses(planes[..], verts[..]) && BoxMeets(b, verts[..]) ==> r
      ensures r <==> forall i :: 0 <= i < PLANE_CNT && Tested(inViewPlanesMask, i) ==>
                       planes[i].Dist(b.Center()) >= -radius && planes[i].Dist(b.VertexP(planes[i].normal)) >= 0.0
    {
      hide Plane.Dist, InHull, Box.VertexP, Box.Center, Box.HalfExtents, Dot, Tested, IsUnit, SphereMeets;
      r := InViewSphere(b.Center(), radius);
      if r {
        r := IntersectAABB(b, inViewPlanesMask);
      }
      if Encloses(planes[..], verts[..]) && BoxMeets(b, verts[..]) {
        BoxKept(planes[..], verts[..], b, radius);
        assert forall i :: 0 <= i < PLANE_CNT ==> planes[i] == planes[..][i];
      }
    }
  }

  /** The sphere has a point in common with the convex hull of the corners. */
  ghost predicate SphereMeets(center: Vec, radius: real, vs: seq<Vec>) {
    radius >= 0.0 && exists q :: InHull(q, vs) && Dot(Sub(center, q), Sub(center, q)) <= radius * radius
  }

  /** The box has a point in common with the convex hull of the corners. */
  ghost predicate BoxMeets(b: Box, vs: seq<Vec>) {
    exists q :: InHull(q, vs) && b.Contains(q)
  }

  lemma SphereKept(planes: seq<Plane>, vs: seq<Vec>, center: Vec, radius: real)
    requires Encloses(planes, vs) && SphereMeets(center, radius, vs)
    ensures forall i :: 0 <= i < |planes| ==> planes[i].Dist(center) >= -radius
  {
    hide Dot, Plane.Dist, InHull, IsUnit;
    var q :| InHull(q, vs) && Dot(Sub(center, q), Sub(center, q)) <= radius * radius;
    forall i | 0 <= i < |planes|
      ensures planes[i].Dist(center) >= -radius
    {
      SphereNotOutside(planes[i], vs, q, center, radius);
    }
  }

  lemma BoxKept(planes: seq<Plane>, vs: seq<Vec>, b: Box, radius: real)
    requires Encloses(planes, vs) && BoxMeets(b, vs)
    requires radius >= 0.0 && radius * radius == Dot(b.HalfExtents(), b.HalfExtents())
    ensures SphereMeets(b.Center(), radius, vs)
    ensures forall i :: 0 <= i < |planes| ==> planes[i].Dist(b.VertexP(planes[i].normal)) >= 0.0
  {
    hide Dot, Plane.Dist, InHull, IsUnit, Box.VertexP, Box.Center, Box.HalfExtents;
    var q :| InHull(q, vs) && b.Contains(q);
    BoxInSphere(b, q, radius);
    forall i | 0 <= i < |planes|
      ensures planes[i].Dist(b.VertexP(planes[i].normal)) >= 0.0
    {
      BoxNotOutside(planes[i], vs, q, b);
    }
  }
}
