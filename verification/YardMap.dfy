/**
 * UnitDef_getYardMap: the yard map of a building is copied into a caller's buffer,
 * turned to the requested facing.
 */
module YardMap {

  const FACING_SOUTH := 0
  const FACING_EAST := 1
  const FACING_NORTH := 2
  const FACING_WEST := 3

  type Facing = f: int | 0 <= f < 4

  datatype Cell = Cell(x: int, z: int)

  // ----- the geometry: turning a cell of an xsize by zsize grid -----

  function Width(f: Facing, xsize: nat, zsize: nat): nat {
    if f == FACING_SOUTH || f == FACING_NORTH then xsize else zsize
  }

  function Height(f: Facing, xsize: nat, zsize: nat): nat {
    Width(f, zsize, xsize)
  }

  function Turn(f: Facing, c: Cell, xsize: nat, zsize: nat): Cell {
    if f == FACING_SOUTH then c
    else if f == FACING_EAST then Cell(c.z, xsize - 1 - c.x)
    else if f == FACING_NORTH then Cell(xsize - 1 - c.x, zsize - 1 - c.z)
    else Cell(zsize - 1 - c.z, c.x)
  }

  function Back(f: Facing): Facing {
    (4 - f) % 4
  }

  predicate InGrid(c: Cell, width: nat, height: nat) {
    0 <= c.x < width && 0 <= c.z < height
  }

  /** Row-major position of a cell. */
  function Index(c: Cell, width: nat): int {
    c.x + c.z * width
  }

  /** The cell at a row-major position. */
  function At(i: nat, width: nat): Cell
    requires width > 0
  {
    Cell(i % width, i / width)
  }

  lemma IndexInRange(c: Cell, width: nat, height: nat)
    requires InGrid(c, width, height)
    ensures 0 <= Index(c, width) < width * height
    ensures At(Index(c, width), width) == c
  {
    assert c.z * width <= (height - 1) * width;
    assert c.z * width >= 0;
    DivisionIsUnique(Index(c, width), width, c.z, c.x);
  }

  lemma DivisionIsUnique(n: int, d: nat, q: int, r: int)
    requires 0 <= r < d && n == r + q * d
    ensures n / d == q && n % d == r
  {
    var q', r' := n / d, n % d;
    assert n == r' + q' * d;
    assert (q - q') * d == q * d - q' * d == r' - r;
    Gap(q - q', d);
  }

  lemma Gap(k: int, d: nat)
    ensures k >= 1 ==> k * d >= d
    ensures k <= -1 ==> k * d + d <= 0
  {
  }

  lemma AtInGrid(i: nat, width: nat, height: nat)
    requires width > 0 && i < width * height
    ensures InGrid(At(i, width), width, height)
    ensures Index(At(i, width), width) == i
  {
    Gap(i / width - height, width);
    assert (i / width - height) * width == (i / width) * width - height * width;
  }

  lemma TurnInGrid(f: Facing, c: Cell, xsize: nat, zsize: nat)
    requires InGrid(c, xsize, zsize)
    ensures InGrid(Turn(f, c, xsize, zsize), Width(f, xsize, zsize), Height(f, xsize, zsize))
  {
  }

  lemma TurnBack(f: Facing, c: Cell, xsize: nat, zsize: nat)
    ensures Turn(Back(f), Turn(f, c, xsize, zsize), Width(f, xsize, zsize), Height(f, xsize, zsize)) == c
  {
  }

  /** Turns compose like the additions of their facings modulo four. */
  lemma TurnTurn(f: Facing, g: Facing, c: Cell, xsize: nat, zsize: nat)
    ensures Turn(g, Turn(f, c, xsize, zsize), Width(f, xsize, zsize), Height(f, xsize, zsize)) ==
            Turn((f + g) % 4, c, xsize, zsize)
  {
  }

  /** The front, the southern edge before any turn, comes to lie on the side that is faced. */
  lemma FrontFaces(f: Facing, c: Cell, xsize: nat, zsize: nat)
    requires InGrid(c, xsize, zsize)
    ensures var t := Turn(f, c, xsize, zsize);
            c.z == zsize - 1 <==>
              if f == FACING_SOUTH then t.z == Height(f, xsize, zsize) - 1
              else if f == FACING_EAST then t.x == Width(f, xsize, zsize) - 1
              else if f == FACING_NORTH then t.z == 0
              else t.x == 0
  {
  }

  // ----- the destination index, as the loop computes it -----

  /** Where source cell (x, z) goes: start, plus steps along the turned axes. */
  function Destination(f: Facing, x: int, z: int, xsize: nat, zsize: nat): int {
    var xdir :=
      if f == FACING_SOUTH then (1, 0)
      else if f == FACING_NORTH then (-1, 0)
      else if f == FACING_EAST then (0, 1)
      else (0, -1);
    var zdir :=
      if f == FACING_SOUTH then (0, 1)
      else if f == FACING_NORTH then (0, -1)
      else if f == FACING_EAST then (-1, 0)
      else (1, 0);
    var rowWidth := if f == FACING_SOUTH || f == FACING_NORTH then xsize else zsize;
    var startIdx := if f == FACING_SOUTH then 0
                    else if f == FACING_NORTH then xsize * zsize - 1
                    else if f == FACING_EAST then (xsize - 1) * zsize
                    else zsize - 1;
    startIdx + (xdir.0 * x + xdir.1 * z) + (zdir.0 * x + zdir.1 * z) * rowWidth
  }

  /** The computed index is the position of the turned cell. */
  lemma DestinationIsTurn(f: Facing, x: int, z: int, xsize: nat, zsize: nat)
    ensures Destination(f, x, z, xsize, zsize) == Index(Turn(f, Cell(x, z), xsize, zsize), Width(f, xsize, zsize))
  {
    if f == FACING_NORTH {
      assert (zsize - 1 - z) * xsize == zsize * xsize - xsize - z * xsize;
      assert (-1 * z) * xsize == -(z * xsize);
    } else if f == FACING_EAST {
      assert (xsize - 1 - x) * zsize == (xsize - 1) * zsize - x * zsize;
      assert (-1 * x) * zsize == -(x * zsize);
    }
  }

  /** The source cell that lands on destination position i. */
  function Source(f: Facing, i: nat, xsize: nat, zsize: nat): Cell
    requires Width(f, xsize, zsize) > 0
  {
    Turn(Back(f), At(i, Width(f, xsize, zsize)), Width(f, xsize, zsize), Height(f, xsize, zsize))
  }

  /**
   * The destinations are a permutation of the grid: every destination is in range, different cells
   * have different destinations, and every position of the buffer is the destination of a cell.
   */
  lemma DestinationIsPermutation(f: Facing, xsize: nat, zsize: nat)
    requires xsize > 0 && zsize > 0
    ensures forall x, z :: 0 <= x < xsize && 0 <= z < zsize ==>
              0 <= Destination(f, x, z, xsize, zsize) < xsize * zsize
    ensures forall x, z, x', z' | 0 <= x < xsize && 0 <= z < zsize && 0 <= x' < xsize && 0 <= z' < zsize ::
              Destination(f, x, z, xsize, zsize) == Destination(f, x', z', xsize, zsize) ==> x == x' && z == z'
    ensures forall i: nat :: i < xsize * zsize ==>
              var c := Source(f, i, xsize, zsize);
              InGrid(c, xsize, zsize) && Destination(f, c.x, c.z, xsize, zsize) == i
  {
    forall x, z | 0 <= x < xsize && 0 <= z < zsize
      ensures 0 <= Destination(f, x, z, xsize, zsize) < xsize * zsize
      ensures Source(f, Destination(f, x, z, xsize, zsize), xsize, zsize) == Cell(x, z)
    {
      DestinationHit(f, x, z, xsize, zsize);
    }
    forall x, z, x', z' | 0 <= x < xsize && 0 <= z < zsize && 0 <= x' < xsize && 0 <= z' < zsize
                          && Destination(f, x, z, xsize, zsize) == Destination(f, x', z', xsize, zsize)
      ensures x == x' && z == z'
    {
      assert Cell(x, z) == Cell(x', z');
    }
    forall i: nat | i < xsize * zsize
      ensures var c := Source(f, i, xsize, zsize);
              InGrid(c, xsize, zsize) && Destination(f, c.x, c.z, xsize, zsize) == i
    {
      SourceHit(f, i, xsize, zsize);
    }
  }

  lemma DestinationHit(f: Facing, x: int, z: int, xsize: nat, zsize: nat)
    requires 0 <= x < xsize && 0 <= z < zsize
    ensures 0 <= Destination(f, x, z, xsize, zsize) < xsize * zsize
    ensures Source(f, Destination(f, x, z, xsize, zsize), xsize, zsize) == Cell(x, z)
  {
    DestinationIsTurn(f, x, z, xsize, zsize);
    TurnInGrid(f, Cell(x, z), xsize, zsize);
    IndexInRange(Turn(f, Cell(x, z), xsize, zsize), Width(f, xsize, zsize), Height(f, xsize, zsize));
    TurnBack(f, Cell(x, z), xsize, zsize);
    assert xsize * zsize == zsize * xsize;
  }

  lemma SourceHit(f: Facing, i: nat, xsize: nat, zsize: nat)
    requires xsize > 0 && zsize > 0 && i < xsize * zsize
    ensures var c := Source(f, i, xsize, zsize);
            InGrid(c, xsize, zsize) && Destination(f, c.x, c.z, xsize, zsize) == i
  {
    var w, h := Width(f, xsize, zsize), Height(f, xsize, zsize);
    assert xsize * zsize == zsize * xsize == w * h;
    AtInGrid(i, w, h);
    TurnInGrid(Back(f), At(i, w), w, h);
    TurnBack(Back(f), At(i, w), w, h);
    var c := Source(f, i, xsize, zsize);
    DestinationIsTurn(f, c.x, c.z, xsize, zsize);
  }

  // ----- the turned map -----

  /** The yard map as seen at facing f: position i holds the source cell that lands there. */
  function Turned(f: Facing, yard: seq<int>, xsize: nat, zsize: nat): (r: seq<int>)
    requires xsize > 0 && zsize > 0 && |yard| == xsize * zsize
    ensures |r| == xsize * zsize
    ensures forall x, z :: 0 <= x < xsize && 0 <= z < zsize ==> Lands(f, yard, xsize, zsize, r, x, z)
  {
    var r := seq(xsize * zsize, i requires 0 <= i < xsize * zsize =>
      SourceHit(f, i, xsize, zsize);
      IndexInRange(Source(f, i, xsize, zsize), xsize, zsize);
      yard[Index(Source(f, i, xsize, zsize), xsize)]);
    assert forall x, z :: 0 <= x < xsize && 0 <= z < zsize ==> Lands(f, yard, xsize, zsize, r, x, z) by {
      forall x, z | 0 <= x < xsize && 0 <= z < zsize
        ensures Lands(f, yard, xsize, zsize, r, x, z)
      {
        DestinationHit(f, x, z, xsize, zsize);
        IndexInRange(Cell(x, z), xsize, zsize);
      }
    }
    r
  }

  /** A map with the right value at every destination is the turned map. */
  lemma TurnedIsUnique(f: Facing, yard: seq<int>, xsize: nat, zsize: nat, r: seq<int>)
    requires xsize > 0 && zsize > 0 && |yard| == xsize * zsize && |r| == xsize * zsize
    requires forall x, z :: 0 <= x < xsize && 0 <= z < zsize ==>
               Lands(f, yard, xsize, zsize, r, x, z)
    ensures r == Turned(f, yard, xsize, zsize)
  {
    var t := Turned(f, yard, xsize, zsize);
    forall i | 0 <= i < |r|
      ensures r[i] == t[i]
    {
      SourceHit(f, i, xsize, zsize);
      var c := Source(f, i, xsize, zsize);
      assert Destination(f, c.x, c.z, xsize, zsize) == i;
      assert Lands(f, yard, xsize, zsize, r, c.x, c.z);
    }
  }

  ghost predicate Lands(f: Facing, yard: seq<int>, xsize: nat, zsize: nat, r: seq<int>, x: int, z: int) {
    var i, k := Destination(f, x, z, xsize, zsize), Index(Cell(x, z), xsize);
    0 <= i < |r| && 0 <= k < |yard| && r[i] == yard[k]
  }

  /**
   * The turns form the cyclic group of order four: turning to f and then, with the dimensions
   * that result, to g is turning to f + g modulo four. In particular two turns to the east
   * make one to the north, and a turn to the east is undone by one to the west.
   */
  lemma TurnedTurned(f: Facing, g: Facing, yard: seq<int>, xsize: nat, zsize: nat)
    requires xsize > 0 && zsize > 0 && |yard| == xsize * zsize
    ensures |Turned(f, yard, xsize, zsize)| == Width(f, xsize, zsize) * Height(f, xsize, zsize)
    ensures Turned(g, Turned(f, yard, xsize, zsize), Width(f, xsize, zsize), Height(f, xsize, zsize))
            == Turned((f + g) % 4, yard, xsize, zsize)
  {
    var w, h := Width(f, xsize, zsize), Height(f, xsize, zsize);
    assert xsize * zsize == zsize * xsize == w * h;
    var once := Turned(f, yard, xsize, zsize);
    var twice := Turned(g, once, w, h);
    var fg := (f + g) % 4;
    forall x, z | 0 <= x < xsize && 0 <= z < zsize
      ensures Lands(fg, yard, xsize, zsize, twice, x, z)
    {
      CellTurnedTwice(f, g, x, z, xsize, zsize);
      var c := Turn(f, Cell(x, z), xsize, zsize);
      assert Lands(f, yard, xsize, zsize, once, x, z);
      assert Lands(g, once, w, h, twice, c.x, c.z);
    }
    TurnedIsUnique(fg, yard, xsize, zsize, twice);
  }

  lemma CellTurnedTwice(f: Facing, g: Facing, x: int, z: int, xsize: nat, zsize: nat)
    requires 0 <= x < xsize && 0 <= z < zsize
    ensures var c, w, h := Turn(f, Cell(x, z), xsize, zsize), Width(f, xsize, zsize), Height(f, xsize, zsize);
            && InGrid(c, w, h)
            && Destination(f, x, z, xsize, zsize) == Index(c, w)
            && Destination(g, c.x, c.z, w, h) == Destination((f + g) % 4, x, z, xsize, zsize)
  {
    var c, w, h := Turn(f, Cell(x, z), xsize, zsize), Width(f, xsize, zsize), Height(f, xsize, zsize);
    TurnInGrid(f, Cell(x, z), xsize, zsize);
    DestinationIsTurn(f, x, z, xsize, zsize);
    DestinationIsTurn(g, c.x, c.z, w, h);
    DestinationIsTurn((f + g) % 4, x, z, xsize, zsize);
    TurnTurn(f, g, Cell(x, z), xsize, zsize);
    WidthOfTurns(f, g, xsize, zsize);
  }

  lemma WidthOfTurns(f: Facing, g: Facing, xsize: nat, zsize: nat)
    ensures Width(g, Width(f, xsize, zsize), Height(f, xsize, zsize)) == Width((f + g) % 4, xsize, zsize)
  {
  }

  /** Facing south is the identity. */
  lemma TurnedSouth(yard: seq<int>, xsize: nat, zsize: nat)
    requires xsize > 0 && zsize > 0 && |yard| == xsize * zsize
    ensures Turned(FACING_SOUTH, yard, xsize, zsize) == yard
  {
    forall x, z | 0 <= x < xsize && 0 <= z < zsize
      ensures Lands(FACING_SOUTH, yard, xsize, zsize, yard, x, z)
    {
      IndexInRange(Cell(x, z), xsize, zsize);
      DestinationIsTurn(FACING_SOUTH, x, z, xsize, zsize);
    }
    TurnedIsUnique(FACING_SOUTH, yard, xsize, zsize, yard);
  }

  // ----- the loops -----

  /** All cells of the rows before z, and of row z the cells before x, have landed. */
  ghost predicate LandedBefore(f: Facing, yard: seq<int>, xsize: nat, zsize: nat, r: seq<int>, z: int, x: int) {
    forall x', z' ::
      0 <= x' < xsize && 0 <= z' < zsize && (z' < z || (z' == z && x' < x)) ==> Lands(f, yard, xsize, zsize, r, x', z')
  }

  /**
   * Fills the buffer with the turned map, leaves the rest of the buffer alone, and returns the
   * size of the map. A missing buffer or a missing yard map only asks for the size.
   */
  method GetYardMap(facing: Facing, yardMap: array?<int>, yardMapMaxSize: nat,
      unitYard: seq<int>, xsize: nat, zsize: nat)
    returns (yardMapSize: nat)
    requires xsize > 0 && zsize > 0
    requires unitYard == [] || |unitYard| == xsize * zsize
    requires yardMap != null && unitYard != [] ==> xsize * zsize <= yardMapMaxSize <= yardMap.Length
    modifies if yardMap == null then {} else {yardMap}
    ensures yardMapSize == |unitYard|
    ensures yardMap != null && unitYard != [] ==>
              && yardMap[..xsize * zsize] == Turned(facing, unitYard, xsize, zsize)
              && yardMap[xsize * zsize..] == old(yardMap[xsize * zsize..])
    ensures yardMap != null && unitYard == [] ==> yardMap[..] == old(yardMap[..])
  {
    yardMapSize := |unitYard|;
    if yardMap == null || unitYard == [] {
      return;
    }
    yardMapSize := if yardMapSize < yardMapMaxSize then yardMapSize else yardMapMaxSize;
    var n := xsize * zsize;
    DestinationIsPermutation(facing, xsize, zsize);
    var z := 0;
    while z < zsize
      invariant 0 <= z <= zsize
      invariant LandedBefore(facing, unitYard, xsize, zsize, yardMap[..n], z, 0)
      invariant yardMap[n..] == old(yardMap[n..])
    {
      var x := 0;
      while x < xsize
        invariant 0 <= x <= xsize
        invariant LandedBefore(facing, unitYard, xsize, zsize, yardMap[..n], z, x)
        invariant yardMap[n..] == old(yardMap[n..])
      {
        var idx := Destination(facing, x, z, xsize, zsize);
        IndexInRange(Cell(x, z), xsize, zsize);
        LandOne(facing, unitYard, xsize, zsize, yardMap[..n], z, x);
        ghost var before := yardMap[..n];
        yardMap[idx] := unitYard[x + z * xsize];
        assert yardMap[..n] == before[idx := unitYard[x + z * xsize]];
        x := x + 1;
      }
      assert LandedBefore(facing, unitYard, xsize, zsize, yardMap[..n], z + 1, 0);
      z := z + 1;
    }
    TurnedIsUnique(facing, unitYard, xsize, zsize, yardMap[..n]);
  }

  lemma LandOne(f: Facing, yard: seq<int>, xsize: nat, zsize: nat, r: seq<int>, z: int, x: int)
    requires xsize > 0 && zsize > 0 && |yard| == xsize * zsize == |r|
    requires 0 <= x < xsize && 0 <= z < zsize
    requires LandedBefore(f, yard, xsize, zsize, r, z, x)
    ensures 0 <= Destination(f, x, z, xsize, zsize) < |r| && 0 <= Index(Cell(x, z), xsize) < |yard|
    ensures var landed := r[Destination(f, x, z, xsize, zsize) := yard[Index(Cell(x, z), xsize)]];
            LandedBefore(f, yard, xsize, zsize, landed, z, x + 1)
  {
    DestinationIsPermutation(f, xsize, zsize);
    IndexInRange(Cell(x, z), xsize, zsize);
    var i := Destination(f, x, z, xsize, zsize);
    var r' := r[i := yard[Index(Cell(x, z), xsize)]];
    forall x', z' |
      0 <= x' < xsize && 0 <= z' < zsize && (z' < z || (z' == z && x' < x + 1))
      ensures Lands(f, yard, xsize, zsize, r', x', z')
    {
      if x' != x || z' != z {
        assert Lands(f, yard, xsize, zsize, r, x', z');
        assert Destination(f, x', z', xsize, zsize) != i;
      }
    }
  }
}
