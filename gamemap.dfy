/**
 * The game map (engine/core/map.js): the tile rows, and three indexes of the
 * same height and width kept next to them: the building on each cell, the
 * unit on each cell, and whether a land unit may enter the cell. Placing,
 * removing and moving buildings and units keeps the indexes in step with the
 * lists of buildings and units.
 *
 * Cells are addressed [y][x]. The indexes hold references to the very
 * building and unit objects the lists hold. Coordinates outside the map make
 * the source throw (a missing row) or grow a row (a missing column); the
 * operations here require in-map coordinates instead.
 */
module GameMap {
  import opened Wrappers
  import Seqs
  import opened JsText
  import Tiles
  import opened Buildings
  import opened Units

  /** The fields of a projectile (engine/core/projectile.js) the projectile control reads and writes. */
  class Projectile {
    const typ: int
    var progress: int
    const duration: int
    const targetTileX: int
    const targetTileY: int
    const damage: int
    const player: int
    const firedBy: Unit?

    constructor (typ: int, duration: int, targetTileX: int, targetTileY: int, damage: int, player: int, firedBy: Unit?)
      ensures this.typ == typ && progress == 0 && this.duration == duration
      ensures this.targetTileX == targetTileX && this.targetTileY == targetTileY
      ensures this.damage == damage && this.player == player && this.firedBy == firedBy
    {
      this.typ := typ;
      this.progress := 0;
      this.duration := duration;
      this.targetTileX := targetTileX;
      this.targetTileY := targetTileY;
      this.damage := damage;
      this.player := player;
      this.firedBy := firedBy;
    }
  }

  /** What getObjectAt finds on a cell. */
  datatype Occupant = Nothing | UnitThere(u: Unit) | BuildingThere(b: Building)

  datatype Failure =
    | TooOld  // a save point of a format version below 90
    | TooNew  // a save point of a format version above 90

  const SavePointVersion := 90

  // ---------------------------------------------------------------- grids

  /** `rows` has `height` rows of `width` cells. */
  predicate Shaped<T>(rows: seq<seq<T>>, height: int, width: int) {
    |rows| == height && forall j :: 0 <= j < |rows| ==> |rows[j]| == width
  }

  /** createIndex: `height` rows of `width` copies of `blank`. */
  function Blank<T>(height: nat, width: nat, blank: T): (r: seq<seq<T>>)
    ensures Shaped(r, height, width)
    ensures forall j, i :: 0 <= j < height && 0 <= i < width ==> r[j][i] == blank
  {
    seq(height, _ => seq(width, _ => blank))
  }

  /** initNavigationIndex: every cell navigable exactly when its tile is accessible. */
  function Accessibility(tiles: seq<seq<Tiles.Tile>>): (r: seq<seq<bool>>)
    ensures |r| == |tiles| && forall j :: 0 <= j < |tiles| ==> |r[j]| == |tiles[j]|
    ensures forall j, i :: 0 <= j < |tiles| && 0 <= i < |tiles[j]| ==> r[j][i] == tiles[j][i].accessible
  {
    seq(|tiles|, j requires 0 <= j < |tiles| => RowAccessibility(tiles[j]))
  }

  function RowAccessibility(row: seq<Tiles.Tile>): (r: seq<bool>)
    ensures |r| == |row| && forall i :: 0 <= i < |row| ==> r[i] == row[i].accessible
  {
    seq(|row|, i requires 0 <= i < |row| => row[i].accessible)
  }

  predicate Inside<T>(rows: seq<seq<T>>, p: Position) {
    0 <= p.y < |rows| && 0 <= p.x < |rows[p.y]|
  }

  /** One cell overwritten. */
  function Set<T>(rows: seq<seq<T>>, p: Position, v: T): (r: seq<seq<T>>)
    requires Inside(rows, p)
    ensures |r| == |rows| && forall j :: 0 <= j < |rows| ==> |r[j]| == |rows[j]|
  {
    rows[p.y := rows[p.y][p.x := v]]
  }

  /** The loop of updateBuilding and removeBuilding: `v` written on every listed cell, the last one first. */
  function Paint<T>(rows: seq<seq<T>>, ps: seq<Position>, v: T): (r: seq<seq<T>>)
    requires forall k :: 0 <= k < |ps| ==> Inside(rows, ps[k])
    ensures |r| == |rows| && forall j :: 0 <= j < |rows| ==> |r[j]| == |rows[j]|
  {
    if ps == [] then rows
    else
      var rest := Paint(rows, ps[1..], v);
      assert Inside(rest, ps[0]) by { assert Inside(rows, ps[0]); }
      Set(rest, ps[0], v)
  }

  /** Painting keeps the grid's shape. */
  lemma PaintShaped<T>(rows: seq<seq<T>>, ps: seq<Position>, v: T, height: int, width: int)
    requires forall k :: 0 <= k < |ps| ==> Inside(rows, ps[k])
    requires Shaped(rows, height, width)
    ensures Shaped(Paint(rows, ps, v), height, width)
  {
  }

  /** After painting, a listed cell holds `v` and every other cell is as it was. */
  lemma {:induction false} PaintAt<T>(rows: seq<seq<T>>, ps: seq<Position>, v: T, p: Position)
    requires forall k :: 0 <= k < |ps| ==> Inside(rows, ps[k])
    requires Inside(rows, p)
    ensures Paint(rows, ps, v)[p.y][p.x] == if p in ps then v else rows[p.y][p.x]
  {
    if ps != [] {
      PaintAt(rows, ps[1..], v, p);
      assert p in ps <==> p == ps[0] || p in ps[1..];
    }
  }

  // ---------------------------------------------------------------- building footprints

  /** Math.ceil(a / 2) on an integer. */
  function HalfUp(a: int): int {
    (a + 1) / 2
  }

  /** getBuildingPositions' inner loop: `count` cells going down-right along one diagonal. */
  function Diagonal(x: int, y: int, count: int): (r: seq<Position>)
    ensures |r| == if count > 0 then count else 0
    decreases count
  {
    if count <= 0 then []
    else [Position(x, y)] + Diagonal(if Rem(y, 2) != 0 then x + 1 else x, y + 1, count - 1)
  }

  /** Where getBuildingPositions starts diagonal j. */
  function DiagonalStart(x0: int, y0: int, height: int, j: int): Position {
    Position(x0 + (height - 1) / 2 - HalfUp(j - Rem(y0, 2)), y0 + j)
  }

  /** Diagonals 0 .. rows-1 of a building's footprint. */
  function Diagonals(x0: int, y0: int, width: int, height: int, rows: nat): seq<Position> {
    if rows == 0 then []
    else
      var s := DiagonalStart(x0, y0, height, rows - 1);
      Diagonals(x0, y0, width, height, rows - 1) + Diagonal(s.x, s.y, width)
  }

  /** The cells a building of that size at (x0, y0) covers: `height` diagonals of `width` cells. */
  function Footprint(x0: int, y0: int, width: int, height: int): seq<Position> {
    Diagonals(x0, y0, width, height, if height > 0 then height else 0)
  }

  /** The cells a building covers. */
  function Cells(b: Building): seq<Position>
    reads b`x, b`y
  {
    Footprint(b.x, b.y, b.width, b.height)
  }

  lemma {:induction false} DiagonalsCount(x0: int, y0: int, width: int, height: int, rows: nat)
    requires width >= 0
    ensures |Diagonals(x0, y0, width, height, rows)| == rows * width
  {
    if rows > 0 {
      DiagonalsCount(x0, y0, width, height, rows - 1);
      assert (rows - 1) * width + width == rows * width;
    }
  }

  /** getBuildingPositions returns exactly width * height cells. */
  lemma FootprintCount(x0: int, y0: int, width: int, height: int)
    requires width >= 0 && height >= 0
    ensures |Footprint(x0, y0, width, height)| == width * height
  {
    DiagonalsCount(x0, y0, width, height, height);
  }

  /** The cells a building covers lie inside these rows. */
  predicate Fits<T>(rows: seq<seq<T>>, b: Building)
    reads b`x, b`y
  {
    forall k :: 0 <= k < |Cells(b)| ==> Inside(rows, Cells(b)[k])
  }

  /** getBuildingPositions. */
  method BuildingPositions(b: Building) returns (positions: seq<Position>)
    ensures positions == Cells(b)
  {
    positions := [];
    var startX := b.x + (b.height - 1) / 2;
    var startY := b.y;
    var j := 0;
    while j < b.height
      invariant 0 <= j && (b.height > 0 ==> j <= b.height) && (b.height <= 0 ==> j == 0)
      invariant positions == Diagonals(b.x, b.y, b.width, b.height, j)
    {
      var x := startX - HalfUp(j - Rem(startY, 2));
      var y := startY + j;
      ghost var full := Diagonal(x, y, b.width);
      var i := 0;
      while i < b.width
        invariant 0 <= i && (b.width > 0 ==> i <= b.width)
        invariant positions + Diagonal(x, y, b.width - i) == Diagonals(b.x, b.y, b.width, b.height, j) + full
      {
        ghost var rest := Diagonal(if Rem(y, 2) != 0 then x + 1 else x, y + 1, b.width - i - 1);
        assert positions + Diagonal(x, y, b.width - i) == (positions + [Position(x, y)]) + rest;
        positions := positions + [Position(x, y)];
        if Rem(y, 2) != 0 {
          x := x + 1;
          y := y + 1;
        } else {
          y := y + 1;
        }
        i := i + 1;
      }
      assert positions == positions + Diagonal(x, y, b.width - i);
      assert full == Diagonal(DiagonalStart(b.x, b.y, b.height, j).x, DiagonalStart(b.x, b.y, b.height, j).y, b.width);
      j := j + 1;
    }
  }

  // ---------------------------------------------------------------- lists

  /** The index of the last building with that id, or -1: where removeBuilding's backward search stops. */
  function LastBuilding(list: seq<Building>, id: int): (k: int)
    ensures -1 <= k < |list|
    ensures k >= 0 ==> list[k].id == id && forall j :: k < j < |list| ==> list[j].id != id
    ensures k == -1 ==> forall j :: 0 <= j < |list| ==> list[j].id != id
  {
    if list == [] then -1
    else if list[|list| - 1].id == id then |list| - 1
    else LastBuilding(list[..|list| - 1], id)
  }

  /** The index of the last unit with that id, or -1. */
  function LastUnit(list: seq<Unit>, id: int): (k: int)
    ensures -1 <= k < |list|
    ensures k >= 0 ==> list[k].id == id && forall j :: k < j < |list| ==> list[j].id != id
    ensures k == -1 ==> forall j :: 0 <= j < |list| ==> list[j].id != id
  {
    if list == [] then -1
    else if list[|list| - 1].id == id then |list| - 1
    else LastUnit(list[..|list| - 1], id)
  }

  /** Array.prototype.splice(index, 1): a negative index counts from the end, one past the end removes nothing. */
  function SpliceOne<T>(list: seq<T>, index: int): (r: seq<T>)
    ensures 0 <= index < |list| ==> r == list[..index] + list[index + 1..]
    ensures index >= |list| ==> r == list
    ensures |r| == if list == [] || index >= |list| then |list| else |list| - 1
  {
    var start := if index >= 0 then index else if |list| + index >= 0 then |list| + index else 0;
    if start < |list| then list[..start] + list[start + 1..] else list
  }

  /** No two elements share an id. */
  predicate DistinctBuildings(list: seq<Building>) {
    forall i, j :: 0 <= i < j < |list| ==> list[i].id != list[j].id
  }

  predicate DistinctUnits(list: seq<Unit>) {
    forall i, j :: 0 <= i < j < |list| ==> list[i].id != list[j].id
  }

  /** The cell holds the unit of that id. */
  predicate Holds(units: seq<seq<Unit?>>, p: Position, id: int)
    requires Inside(units, p)
  {
    units[p.y][p.x] != null && units[p.y][p.x].id == id
  }

  /** Painting the same cells twice leaves the second value. */
  lemma PaintTwice<T>(rows: seq<seq<T>>, ps: seq<Position>, v: T, w: T)
    requires forall k :: 0 <= k < |ps| ==> Inside(rows, ps[k])
    ensures forall k :: 0 <= k < |ps| ==> Inside(Paint(rows, ps, v), ps[k])
    ensures Paint(Paint(rows, ps, v), ps, w) == Paint(rows, ps, w)
  {
    var once := Paint(rows, ps, v);
    var a, b := Paint(once, ps, w), Paint(rows, ps, w);
    forall j | 0 <= j < |rows|
      ensures a[j] == b[j]
    {
      forall i | 0 <= i < |rows[j]|
        ensures a[j][i] == b[j][i]
      {
        PaintAt(once, ps, w, Position(i, j));
        PaintAt(rows, ps, v, Position(i, j));
        PaintAt(rows, ps, w, Position(i, j));
      }
    }
  }

  /** Painting cells with the value they already hold changes nothing. */
  lemma PaintSame<T>(rows: seq<seq<T>>, ps: seq<Position>, w: T)
    requires forall k :: 0 <= k < |ps| ==> Inside(rows, ps[k]) && rows[ps[k].y][ps[k].x] == w
    ensures Paint(rows, ps, w) == rows
  {
    var a := Paint(rows, ps, w);
    forall j | 0 <= j < |rows|
      ensures a[j] == rows[j]
    {
      forall i | 0 <= i < |rows[j]|
        ensures a[j][i] == rows[j][i]
      {
        PaintAt(rows, ps, w, Position(i, j));
      }
    }
  }

  /**
   * Removing a building just placed on empty cells restores the building
   * index, and on navigable cells, the navigation index.
   */
  lemma RemoveUndoesPlace<T>(rows: seq<seq<T>>, ps: seq<Position>, placed: T, blank: T)
    requires forall k :: 0 <= k < |ps| ==> Inside(rows, ps[k]) && rows[ps[k].y][ps[k].x] == blank
    ensures forall k :: 0 <= k < |ps| ==> Inside(Paint(rows, ps, placed), ps[k])
    ensures Paint(Paint(rows, ps, placed), ps, blank) == rows
  {
    PaintTwice(rows, ps, placed, blank);
    PaintSame(rows, ps, blank);
  }

  /** Dropping the last entry with a just-appended element's id drops that element. */
  lemma {:induction false} DropLastBuilding(list: seq<Building>, b: Building)
    ensures Seqs.Drop(list + [b], LastBuilding(list + [b], b.id)) == list
  {
    assert (list + [b])[..|list|] == list;
  }

  lemma {:induction false} DropLastUnit(list: seq<Unit>, u: Unit)
    ensures Seqs.Drop(list + [u], LastUnit(list + [u], u.id)) == list
  {
    assert (list + [u])[..|list|] == list;
  }

  /** Destroying a unit just created on an empty, navigable cell restores both indexes. */
  lemma ReleaseUndoesOccupy(units: seq<seq<Unit?>>, navigation: seq<seq<bool>>, p: Position, u: Unit)
    requires Inside(units, p) && Inside(navigation, p) && units[p.y][p.x] == null && navigation[p.y][p.x]
    ensures Holds(Set(units, p, u), p, u.id)
    ensures Set(Set(units, p, u), p, null) == units && Set(Set(navigation, p, false), p, true) == navigation
  {
    assert Set(Set(units, p, u), p, null)[p.y] == units[p.y];
    assert Set(Set(navigation, p, false), p, true)[p.y] == navigation[p.y];
  }

  // ---------------------------------------------------------------- the save-point reset

  /**
   * What Array.prototype.forEach leaves of a list when each visit splices
   * the visited element out, counting from visit k: forEach checks the
   * index against the shrinking list, so every removal shifts the next
   * element under the index just visited.
   */
  function ForEachSplice<T>(s: seq<T>, k: nat): seq<T>
    decreases |s| - k
  {
    if k >= |s| then s else ForEachSplice(s[..k] + s[k + 1..], k + 1)
  }

  /** The elements at odd indexes. */
  function Odd<T>(s: seq<T>): (r: seq<T>)
    ensures |r| == |s| / 2
  {
    if |s| < 2 then [] else [s[1]] + Odd(s[2..])
  }

  lemma {:induction false} ForEachSpliceOdd<T>(s: seq<T>, k: nat)
    requires k <= |s|
    ensures ForEachSplice(s, k) == s[..k] + Odd(s[k..])
    decreases |s| - k
  {
    if k < |s| {
      var t := s[..k] + s[k + 1..];
      if k + 1 <= |t| {
        ForEachSpliceOdd(t, k + 1);
        assert t[..k + 1] == s[..k] + [s[k + 1]];
        assert t[k + 1..] == s[k + 2..];
        assert s[k..][2..] == s[k + 2..];
      } else {
        assert t == s[..k];
      }
    }
  }

  /** Removing each element inside forEach leaves the odd-indexed half of the list. */
  lemma ForEachSpliceKeepsHalf<T>(s: seq<T>)
    ensures ForEachSplice(s, 0) == Odd(s) && |ForEachSplice(s, 0)| == |s| / 2
  {
    ForEachSpliceOdd(s, 0);
    assert s[0..] == s;
  }

  /** Of two elements, the second survives. */
  lemma ForEachSpliceTwo<T>(a: T, b: T)
    ensures ForEachSplice([a, b], 0) == [b]
  {
    ForEachSpliceKeepsHalf([a, b]);
  }

  // ---------------------------------------------------------------- loading many objects

  /** Grids of the same shape have the same cells. */
  lemma FitsShape<T, U>(a: seq<seq<T>>, c: seq<seq<U>>, bs: seq<Building>)
    requires |a| == |c| && forall j :: 0 <= j < |a| ==> |a[j]| == |c[j]|
    requires forall k :: 0 <= k < |bs| ==> Fits(a, bs[k])
    ensures forall k :: 0 <= k < |bs| ==> Fits(c, bs[k])
  {
    forall k, i | 0 <= k < |bs| && 0 <= i < |Cells(bs[k])|
      ensures Inside(c, Cells(bs[k])[i])
    {
      assert Inside(a, Cells(bs[k])[i]);
    }
  }

  /**
   * The building index after updateBuilding of each building in turn. A
   * building that does not fit the grid is passed over; on a valid map every
   * saved building fits, so none is.
   */
  function PaintAll(rows: seq<seq<Building?>>, bs: seq<Building>): (r: seq<seq<Building?>>)
    reads bs
    ensures |r| == |rows| && forall j :: 0 <= j < |rows| ==> |r[j]| == |rows[j]|
    decreases |bs|
  {
    if bs == [] then rows
    else
      var last := bs[|bs| - 1];
      var before := PaintAll(rows, bs[..|bs| - 1]);
      if Fits(before, last) then Paint(before, Cells(last), last) else before
  }

  /** The navigation index after updateBuilding of each building in turn: impassable ones block their cells. */
  function BlockAll(rows: seq<seq<bool>>, bs: seq<Building>): (r: seq<seq<bool>>)
    reads bs
    ensures |r| == |rows| && forall j :: 0 <= j < |rows| ==> |r[j]| == |rows[j]|
    decreases |bs|
  {
    if bs == [] then rows
    else
      var last := bs[|bs| - 1];
      var before := BlockAll(rows, bs[..|bs| - 1]);
      if last.passable || !Fits(before, last) then before else Paint(before, Cells(last), false)
  }

  /** One more building that fits is painted over the earlier ones. */
  lemma PaintAllStep(rows: seq<seq<Building?>>, bs: seq<Building>, b: Building)
    requires Fits(PaintAll(rows, bs), b)
    ensures PaintAll(rows, bs + [b]) == Paint(PaintAll(rows, bs), Cells(b), b)
  {
    var all := bs + [b];
    assert all[..|all| - 1] == bs && all[|all| - 1] == b;
  }

  /** One more building that fits blocks its cells when it is impassable. */
  lemma BlockAllStep(rows: seq<seq<bool>>, bs: seq<Building>, b: Building)
    requires Fits(BlockAll(rows, bs), b)
    ensures BlockAll(rows, bs + [b]) == if b.passable then BlockAll(rows, bs) else Paint(BlockAll(rows, bs), Cells(b), false)
  {
    var all := bs + [b];
    assert all[..|all| - 1] == bs && all[|all| - 1] == b;
  }

  /** A cell of a building that fits the grid is inside it. */
  lemma FitsCell<T>(rows: seq<seq<T>>, b: Building, p: Position)
    requires Fits(rows, b) && p in Cells(b)
    ensures Inside(rows, p)
  {
    var i :| 0 <= i < |Cells(b)| && Cells(b)[i] == p;
  }

  /** Every cell of an impassable new building ends up blocked. */
  lemma {:induction false} BlockAllBlocks(rows: seq<seq<bool>>, bs: seq<Building>, k: nat, p: Position)
    requires forall i :: 0 <= i < |bs| ==> Fits(rows, bs[i])
    requires k < |bs| && !bs[k].passable && p in Cells(bs[k])
    ensures Inside(BlockAll(rows, bs), p) && BlockAll(rows, bs)[p.y][p.x] == false
    decreases |bs|
  {
    var last, init := bs[|bs| - 1], bs[..|bs| - 1];
    var before := BlockAll(rows, init);
    FitsCell(rows, bs[k], p);
    FitsShape(rows, before, [last]);
    if k < |bs| - 1 {
      assert forall i :: 0 <= i < |init| ==> init[i] == bs[i];
      BlockAllBlocks(rows, init, k, p);
    }
    if !last.passable {
      PaintAt(before, Cells(last), false, p);
    }
  }

  /** Each new building stands on its cells unless a later one covers the same cell. */
  lemma {:induction false} PaintAllStands(rows: seq<seq<Building?>>, bs: seq<Building>, k: nat, p: Position)
    requires forall i :: 0 <= i < |bs| ==> Fits(rows, bs[i])
    requires k < |bs| && p in Cells(bs[k])
    requires forall i :: k < i < |bs| ==> p !in Cells(bs[i])
    ensures Inside(PaintAll(rows, bs), p) && PaintAll(rows, bs)[p.y][p.x] == bs[k]
    decreases |bs|
  {
    var last, init := bs[|bs| - 1], bs[..|bs| - 1];
    var before := PaintAll(rows, init);
    FitsCell(rows, bs[k], p);
    FitsShape(rows, before, [last]);
    if k < |bs| - 1 {
      assert forall i :: 0 <= i < |init| ==> init[i] == bs[i];
      PaintAllStands(rows, init, k, p);
    }
    PaintAt(before, Cells(last), last, p);
  }

  /** A cell no impassable new building covers keeps its accessibility. */
  lemma {:induction false} BlockAllElsewhere(rows: seq<seq<bool>>, bs: seq<Building>, p: Position)
    requires forall i :: 0 <= i < |bs| ==> Fits(rows, bs[i])
    requires Inside(rows, p)
    requires forall i :: 0 <= i < |bs| && !bs[i].passable ==> p !in Cells(bs[i])
    ensures BlockAll(rows, bs)[p.y][p.x] == rows[p.y][p.x]
    decreases |bs|
  {
    if bs != [] {
      var last, init := bs[|bs| - 1], bs[..|bs| - 1];
      var before := BlockAll(rows, init);
      assert forall i :: 0 <= i < |init| ==> init[i] == bs[i];
      BlockAllElsewhere(rows, init, p);
      FitsShape(rows, before, [last]);
      if !last.passable {
        PaintAt(before, Cells(last), false, p);
      }
    }
  }

  /** The cell a unit stands on. */
  function UnitCell(u: Unit): Position
    reads u`x, u`y
  {
    Position(u.x, u.y)
  }

  /** The unit index after updateUnit of each new unit in turn: each is written on its cell (one off the grid is passed over). */
  function SetUnits(rows: seq<seq<Unit?>>, us: seq<Unit>): (r: seq<seq<Unit?>>)
    reads us
    ensures |r| == |rows| && forall j :: 0 <= j < |rows| ==> |r[j]| == |rows[j]|
    decreases |us|
  {
    if us == [] then rows
    else
      var last := us[|us| - 1];
      var before := SetUnits(rows, us[..|us| - 1]);
      if Inside(before, UnitCell(last)) then Set(before, UnitCell(last), last) else before
  }

  /** The navigation index after updateUnit of each new unit in turn: each blocks its cell. */
  function BlockUnits(rows: seq<seq<bool>>, us: seq<Unit>): (r: seq<seq<bool>>)
    reads us
    ensures |r| == |rows| && forall j :: 0 <= j < |rows| ==> |r[j]| == |rows[j]|
    decreases |us|
  {
    if us == [] then rows
    else
      var last := us[|us| - 1];
      var before := BlockUnits(rows, us[..|us| - 1]);
      if Inside(before, UnitCell(last)) then Set(before, UnitCell(last), false) else before
  }

  /** One more unit on the grid is written on its cell. */
  lemma SetUnitsStep(rows: seq<seq<Unit?>>, us: seq<Unit>, u: Unit)
    requires Inside(SetUnits(rows, us), UnitCell(u))
    ensures SetUnits(rows, us + [u]) == Set(SetUnits(rows, us), UnitCell(u), u)
  {
    assert (us + [u])[..|us|] == us;
  }

  /** One more unit on the grid blocks its cell. */
  lemma BlockUnitsStep(rows: seq<seq<bool>>, us: seq<Unit>, u: Unit)
    requires Inside(BlockUnits(rows, us), UnitCell(u))
    ensures BlockUnits(rows, us + [u]) == Set(BlockUnits(rows, us), UnitCell(u), false)
  {
    assert (us + [u])[..|us|] == us;
  }

  /** Every new unit's cell ends up blocked. */
  lemma {:induction false} BlockUnitsBlocks(rows: seq<seq<bool>>, us: seq<Unit>, k: nat)
    requires forall i :: 0 <= i < |us| ==> Inside(rows, UnitCell(us[i]))
    requires k < |us|
    ensures Inside(BlockUnits(rows, us), UnitCell(us[k]))
    ensures BlockUnits(rows, us)[us[k].y][us[k].x] == false
    decreases |us|
  {
    var last := us[|us| - 1];
    var init := us[..|us| - 1];
    assert forall i :: 0 <= i < |init| ==> init[i] == us[i];
    if k < |us| - 1 {
      BlockUnitsBlocks(rows, init, k);
    }
  }

  /** A cell no new unit stands on keeps its accessibility. */
  lemma {:induction false} BlockUnitsElsewhere(rows: seq<seq<bool>>, us: seq<Unit>, p: Position)
    requires forall i :: 0 <= i < |us| ==> Inside(rows, UnitCell(us[i]))
    requires Inside(rows, p)
    requires forall i :: 0 <= i < |us| ==> UnitCell(us[i]) != p
    ensures BlockUnits(rows, us)[p.y][p.x] == rows[p.y][p.x]
    decreases |us|
  {
    if us != [] {
      var init := us[..|us| - 1];
      assert forall i :: 0 <= i < |init| ==> init[i] == us[i];
      BlockUnitsElsewhere(rows, init, p);
    }
  }

  /** Each new unit stands on its cell unless a later one is put on the same cell. */
  lemma {:induction false} SetUnitsStand(rows: seq<seq<Unit?>>, us: seq<Unit>, k: nat)
    requires forall i :: 0 <= i < |us| ==> Inside(rows, UnitCell(us[i]))
    requires k < |us|
    requires forall i :: k < i < |us| ==> UnitCell(us[i]) != UnitCell(us[k])
    ensures Inside(SetUnits(rows, us), UnitCell(us[k]))
    ensures SetUnits(rows, us)[us[k].y][us[k].x] == us[k]
    decreases |us|
  {
    var last := us[|us| - 1];
    var init := us[..|us| - 1];
    assert forall i :: 0 <= i < |init| ==> init[i] == us[i];
    if k < |us| - 1 {
      SetUnitsStand(rows, init, k);
      assert UnitCell(last) != UnitCell(us[k]);
    }
  }

  /** A cell no new unit stands on keeps what it held. */
  lemma {:induction false} SetUnitsElsewhere(rows: seq<seq<Unit?>>, us: seq<Unit>, p: Position)
    requires forall i :: 0 <= i < |us| ==> Inside(rows, UnitCell(us[i]))
    requires Inside(rows, p)
    requires forall i :: 0 <= i < |us| ==> UnitCell(us[i]) != p
    ensures SetUnits(rows, us)[p.y][p.x] == rows[p.y][p.x]
    decreases |us|
  {
    if us != [] {
      var init := us[..|us| - 1];
      assert forall i :: 0 <= i < |init| ==> init[i] == us[i];
      SetUnitsElsewhere(rows, init, p);
    }
  }

  // ---------------------------------------------------------------- the map

  /** The width of a map: that of its first row. */
  function RowWidth<T>(rows: seq<seq<T>>): nat {
    if rows == [] then 0 else |rows[0]|
  }

  /** The tile rows are all of one width and the three indexes have their shape. */
  predicate Consistent(tiles: seq<seq<Tiles.Tile>>, buildings: seq<seq<Building?>>, units: seq<seq<Unit?>>, navigationIndex: seq<seq<bool>>) {
    var height, width := |tiles|, RowWidth(tiles);
    Shaped(tiles, height, width) && Shaped(buildings, height, width) &&
    Shaped(units, height, width) && Shaped(navigationIndex, height, width)
  }

  class Map {
    var name: string
    var tiles: seq<seq<Tiles.Tile>>
    var buildings: seq<seq<Building?>>
    var buildingsList: seq<Building>
    var units: seq<seq<Unit?>>
    var unitsList: seq<Unit>
    var navigationIndex: seq<seq<bool>>
    var projectiles: seq<Projectile>

    function Height(): nat
      reads this`tiles
    {
      |tiles|
    }

    /** The width of the first row, which createIndex takes for every row. */
    function Width(): nat
      reads this`tiles
    {
      RowWidth(tiles)
    }

    /** The tile rows are all of one width and the three indexes have their shape. */
    predicate Valid()
      reads this`tiles, this`buildings, this`units, this`navigationIndex
    {
      Consistent(tiles, buildings, units, navigationIndex)
    }

    predicate InMap(p: Position)
      reads this`tiles
    {
      Inside(tiles, p)
    }

    /** Every cell the building covers is on the map. */
    predicate Covers(b: Building)
      reads this`tiles, b`x, b`y
    {
      Fits(tiles, b)
    }

    constructor ()
      ensures name == "unnamed map" && tiles == [] && buildings == [] && buildingsList == []
      ensures units == [] && unitsList == [] && navigationIndex == [] && projectiles == []
      ensures Valid()
    {
      name := "unnamed map";
      tiles := [];
      buildings := [];
      buildingsList := [];
      units := [];
      unitsList := [];
      navigationIndex := [];
      projectiles := [];
    }

    /** createIndex: height rows, each pushed fresh, of width blank cells. */
    static method CreateIndex<T>(height: nat, width: nat, blank: T) returns (index: seq<seq<T>>)
      ensures index == Blank(height, width, blank)
    {
      index := [];
      var i := height;
      while i > 0
        invariant 0 <= i <= height
        invariant index == Blank(height - i, width, blank)
      {
        i := i - 1;
        var row := [];
        var j := width;
        while j > 0
          invariant 0 <= j <= width
          invariant row == seq(width - j, _ => blank)
        {
          j := j - 1;
          row := row + [blank];
        }
        index := index + [row];
      }
    }

    /** initNavigationIndex: each row, from the last, overwritten cell by cell with the tiles' accessibility. */
    method InitNavigationIndex()
      requires Valid()
      modifies this
      ensures navigationIndex == Accessibility(tiles)
      ensures tiles == old(tiles) && buildings == old(buildings) && units == old(units)
      ensures buildingsList == old(buildingsList) && unitsList == old(unitsList)
      ensures projectiles == old(projectiles) && name == old(name)
      ensures Valid()
    {
      var j := |tiles|;
      while j > 0
        invariant 0 <= j <= |tiles|
        invariant Valid()
        invariant tiles == old(tiles) && buildings == old(buildings) && units == old(units)
        invariant buildingsList == old(buildingsList) && unitsList == old(unitsList)
        invariant projectiles == old(projectiles) && name == old(name)
        invariant forall k :: j <= k < |tiles| ==> navigationIndex[k] == RowAccessibility(tiles[k])
      {
        j := j - 1;
        var row := tiles[j];
        var navigationRow := navigationIndex[j];
        var i := |row|;
        while i > 0
          invariant 0 <= i <= |row| == |navigationRow|
          invariant forall k :: i <= k < |row| ==> navigationRow[k] == row[k].accessible
        {
          i := i - 1;
          navigationRow := navigationRow[i := row[i].accessible];
        }
        assert navigationRow == RowAccessibility(row);
        navigationIndex := navigationIndex[j := navigationRow];
      }
      assert navigationIndex == Accessibility(tiles);
    }

    /**
     * createIndexes: empty building and unit indexes, and the navigation
     * index of the bare tiles. The navigation index starts as a null index
     * too; initNavigationIndex overwrites every cell of it.
     */
    method CreateIndexes()
      requires Shaped(tiles, Height(), Width())
      modifies this
      ensures buildings == Blank(Height(), Width(), null) && units == Blank(Height(), Width(), null)
      ensures navigationIndex == Accessibility(tiles)
      ensures tiles == old(tiles) && buildingsList == old(buildingsList) && unitsList == old(unitsList)
      ensures projectiles == old(projectiles) && name == old(name)
      ensures Valid()
    {
      buildings := CreateIndex(Height(), Width(), null);
      units := CreateIndex(Height(), Width(), null);
      navigationIndex := CreateIndex(Height(), Width(), false);
      InitNavigationIndex();
    }

    /** setTiles: new tiles, and fresh indexes over them. */
    method SetTiles(newTiles: seq<seq<Tiles.Tile>>)
      requires newTiles != [] ==> Shaped(newTiles, |newTiles|, |newTiles[0]|)
      modifies this
      ensures tiles == newTiles && Valid()
      ensures buildings == Blank(Height(), Width(), null) && units == Blank(Height(), Width(), null)
      ensures navigationIndex == Accessibility(tiles)
      ensures buildingsList == old(buildingsList) && unitsList == old(unitsList)
      ensures projectiles == old(projectiles) && name == old(name)
    {
      tiles := newTiles;
      CreateIndexes();
    }

    /** The backward loop of updateBuilding and removeBuilding, writing `v` on each listed cell. */
    static method PaintCells<T>(rows: seq<seq<T>>, positions: seq<Position>, v: T) returns (r: seq<seq<T>>)
      requires forall k :: 0 <= k < |positions| ==> Inside(rows, positions[k])
      ensures r == Paint(rows, positions, v)
    {
      r := rows;
      var i := |positions|;
      while i > 0
        invariant 0 <= i <= |positions|
        invariant r == Paint(rows, positions[i..], v)
      {
        i := i - 1;
        assert positions[i..][1..] == positions[i + 1..];
        r := Set(r, positions[i], v);
      }
    }

    /** The search of removeBuilding: from the end, the first entry with the id is spliced out. */
    static method WithoutLastBuilding(list: seq<Building>, id: int) returns (r: seq<Building>)
      ensures r == Seqs.Drop(list, LastBuilding(list, id))
    {
      var i := |list|;
      while i > 0
        invariant 0 <= i <= |list|
        invariant forall k :: i <= k < |list| ==> list[k].id != id
      {
        i := i - 1;
        if list[i].id == id {
          return list[..i] + list[i + 1..];
        }
      }
      return list;
    }

    /** The search of updateUnit's destroyed case. */
    static method WithoutLastUnit(list: seq<Unit>, id: int) returns (r: seq<Unit>)
      ensures r == Seqs.Drop(list, LastUnit(list, id))
    {
      var i := |list|;
      while i > 0
        invariant 0 <= i <= |list|
        invariant forall k :: i <= k < |list| ==> list[k].id != id
      {
        i := i - 1;
        if list[i].id == id {
          return list[..i] + list[i + 1..];
        }
      }
      return list;
    }

    /** On a valid map, a covered cell is a cell of each index. */
    lemma CoveredCells(b: Building)
      requires Valid() && Covers(b)
      ensures forall k :: 0 <= k < |Cells(b)| ==> Inside(buildings, Cells(b)[k]) && Inside(navigationIndex, Cells(b)[k])
    {
      forall k | 0 <= k < |Cells(b)|
        ensures Inside(buildings, Cells(b)[k]) && Inside(navigationIndex, Cells(b)[k])
      {
        assert InMap(Cells(b)[k]);
      }
    }

    /**
     * updateBuilding: the building joins the list and occupies every cell it
     * covers (written from the last cell back); an impassable building also
     * blocks navigation there.
     */
    method UpdateBuilding(b: Building)
      requires Valid() && Covers(b)
      modifies this
      ensures buildingsList == old(buildingsList) + [b]
      ensures buildings == Paint(old(buildings), Cells(b), b)
      ensures navigationIndex == if b.passable then old(navigationIndex) else Paint(old(navigationIndex), Cells(b), false)
      ensures tiles == old(tiles) && units == old(units) && unitsList == old(unitsList)
      ensures projectiles == old(projectiles) && name == old(name)
      ensures Valid()
    {
      var positions := BuildingPositions(b);
      CoveredCells(b);
      var newBuildings := PaintCells(buildings, positions, b);
      var newNavigation := navigationIndex;
      if !b.passable {
        newNavigation := PaintCells(navigationIndex, positions, false);
      }
      PaintShaped(buildings, positions, b, Height(), Width());
      PaintShaped(navigationIndex, positions, false, Height(), Width());
      buildingsList, buildings, navigationIndex := buildingsList + [b], newBuildings, newNavigation;
    }

    /**
     * removeBuilding: the last list entry with the building's id leaves the
     * list, and every cell the building covers is emptied (and made navigable
     * again for an impassable building), whatever occupied it.
     */
    method RemoveBuilding(b: Building)
      requires Valid() && Covers(b)
      modifies this
      ensures buildingsList == Seqs.Drop(old(buildingsList), LastBuilding(old(buildingsList), b.id))
      ensures buildings == Paint(old(buildings), Cells(b), null)
      ensures navigationIndex == if b.passable then old(navigationIndex) else Paint(old(navigationIndex), Cells(b), true)
      ensures tiles == old(tiles) && units == old(units) && unitsList == old(unitsList)
      ensures projectiles == old(projectiles) && name == old(name)
      ensures Valid()
    {
      var newList := WithoutLastBuilding(buildingsList, b.id);
      var positions := BuildingPositions(b);
      CoveredCells(b);
      var newBuildings := PaintCells(buildings, positions, null);
      var newNavigation := navigationIndex;
      if !b.passable {
        newNavigation := PaintCells(navigationIndex, positions, true);
      }
      PaintShaped(buildings, positions, null, Height(), Width());
      PaintShaped(navigationIndex, positions, true, Height(), Width());
      buildingsList, buildings, navigationIndex := newList, newBuildings, newNavigation;
    }

    /** The cells of a unit's position and last position, as updateUnit reads them. */
    predicate UnitPlaced(u: Unit)
      reads this, u
    {
      InMap(Position(u.x, u.y)) && (u.action == 2 ==> InMap(Position(u.lastX, u.lastY)))
    }

    /**
     * updateUnit, by the unit's action: 0 (created) adds the unit to the list
     * and its cell and blocks navigation there; 1 (destroyed) drops the last
     * list entry with its id and frees its cell if the cell holds a unit of
     * that id; 2 (moved) frees the last cell if it holds a unit of that id,
     * then occupies the new cell. Any other action changes nothing.
     */
    method UpdateUnit(u: Unit)
      requires Valid() && UnitPlaced(u)
      modifies this
      ensures u.action == 0 ==> Created(u, old(unitsList), old(units), old(navigationIndex))
      ensures u.action == 1 ==> Destroyed(u, old(unitsList), old(units), old(navigationIndex))
      ensures u.action == 2 ==> Moved(u, old(unitsList), old(units), old(navigationIndex))
      ensures !(0 <= u.action <= 2) ==>
        unitsList == old(unitsList) && units == old(units) && navigationIndex == old(navigationIndex)
      ensures tiles == old(tiles) && buildings == old(buildings) && buildingsList == old(buildingsList)
      ensures projectiles == old(projectiles) && name == old(name)
      ensures Valid()
    {
      if u.action == 0 {
        AddUnit(u);
      } else if u.action == 1 {
        DropUnit(u);
      } else if u.action == 2 {
        MoveUnit(u);
      }
    }

    /** The state updateUnit leaves for a created unit, against the lists and indexes before it. */
    predicate Created(u: Unit, oldList: seq<Unit>, oldUnits: seq<seq<Unit?>>, oldNavigation: seq<seq<bool>>)
      reads this, u
    {
      var p := Position(u.x, u.y);
      Inside(oldUnits, p) && Inside(oldNavigation, p) &&
      unitsList == oldList + [u] && units == Set(oldUnits, p, u) && navigationIndex == Set(oldNavigation, p, false)
    }

    /** The state updateUnit leaves for a destroyed unit. */
    predicate Destroyed(u: Unit, oldList: seq<Unit>, oldUnits: seq<seq<Unit?>>, oldNavigation: seq<seq<bool>>)
      reads this, u
    {
      var p := Position(u.x, u.y);
      Inside(oldUnits, p) && Inside(oldNavigation, p) &&
      unitsList == Seqs.Drop(oldList, LastUnit(oldList, u.id)) &&
      if Holds(oldUnits, p, u.id)
      then units == Set(oldUnits, p, null) && navigationIndex == Set(oldNavigation, p, true)
      else units == oldUnits && navigationIndex == oldNavigation
    }

    /** The state updateUnit leaves for a moved unit. */
    predicate Moved(u: Unit, oldList: seq<Unit>, oldUnits: seq<seq<Unit?>>, oldNavigation: seq<seq<bool>>)
      reads this, u
    {
      var p, q := Position(u.x, u.y), Position(u.lastX, u.lastY);
      Inside(oldUnits, q) && Inside(oldNavigation, q) &&
      var freed := if Holds(oldUnits, q, u.id) then Set(oldUnits, q, null) else oldUnits;
      var reopened := if Holds(oldUnits, q, u.id) then Set(oldNavigation, q, true) else oldNavigation;
      Inside(freed, p) && Inside(reopened, p) &&
      unitsList == oldList && units == Set(freed, p, u) && navigationIndex == Set(reopened, p, false)
    }

    /** updateUnit, case 0. */
    method AddUnit(u: Unit)
      requires Valid() && InMap(Position(u.x, u.y))
      modifies this
      ensures Created(u, old(unitsList), old(units), old(navigationIndex))
      ensures tiles == old(tiles) && buildings == old(buildings) && buildingsList == old(buildingsList)
      ensures projectiles == old(projectiles) && name == old(name)
      ensures Valid()
    {
      var p := Position(u.x, u.y);
      assert Inside(units, p) && Inside(navigationIndex, p);
      unitsList, units, navigationIndex := unitsList + [u], Set(units, p, u), Set(navigationIndex, p, false);
    }

    /** updateUnit, case 1. */
    method DropUnit(u: Unit)
      requires Valid() && InMap(Position(u.x, u.y))
      modifies this
      ensures Destroyed(u, old(unitsList), old(units), old(navigationIndex))
      ensures tiles == old(tiles) && buildings == old(buildings) && buildingsList == old(buildingsList)
      ensures projectiles == old(projectiles) && name == old(name)
      ensures Valid()
    {
      var p := Position(u.x, u.y);
      assert Inside(units, p) && Inside(navigationIndex, p);
      var newList := WithoutLastUnit(unitsList, u.id);
      if units[u.y][u.x] != null && units[u.y][u.x].id == u.id {
        units, navigationIndex := Set(units, p, null), Set(navigationIndex, p, true);
      }
      unitsList := newList;
    }

    /** updateUnit, case 2. */
    method MoveUnit(u: Unit)
      requires Valid() && InMap(Position(u.x, u.y)) && InMap(Position(u.lastX, u.lastY))
      modifies this
      ensures Moved(u, old(unitsList), old(units), old(navigationIndex))
      ensures tiles == old(tiles) && buildings == old(buildings) && buildingsList == old(buildingsList)
      ensures projectiles == old(projectiles) && name == old(name)
      ensures Valid()
    {
      var p, q := Position(u.x, u.y), Position(u.lastX, u.lastY);
      assert Inside(units, q) && Inside(navigationIndex, q);
      var newUnits: seq<seq<Unit?>>, newNavigation := units, navigationIndex;
      if units[u.lastY][u.lastX] != null && units[u.lastY][u.lastX].id == u.id {
        newUnits, newNavigation := Set(units, q, null), Set(navigationIndex, q, true);
      }
      assert Inside(newUnits, p) && Inside(newNavigation, p);
      units, navigationIndex := Set(newUnits, p, u), Set(newNavigation, p, false);
    }

    /** getObjectAt: the unit on the cell if there is one, else the building on it, else nothing. */
    function ObjectAt(x: int, y: int): (r: Occupant)
      reads this
      ensures Inside(units, Position(x, y)) && units[y][x] != null ==> r == UnitThere(units[y][x])
      ensures !(Inside(units, Position(x, y)) && units[y][x] != null) ==>
        r == if Inside(buildings, Position(x, y)) && buildings[y][x] != null then BuildingThere(buildings[y][x]) else Nothing
    {
      if 0 <= y < |units| && 0 <= x < |units[y]| && units[y][x] != null then UnitThere(units[y][x])
      else if 0 <= y < |buildings| && 0 <= x < |buildings[y]| && buildings[y][x] != null then BuildingThere(buildings[y][x])
      else Nothing
    }

    /** addProjectile. */
    method AddProjectile(projectile: Projectile)
      modifies this`projectiles
      ensures projectiles == old(projectiles) + [projectile]
    {
      projectiles := projectiles + [projectile];
    }

    /** removeProjectile: splice(index, 1) on the projectile list. */
    method RemoveProjectile(index: int)
      modifies this`projectiles
      ensures projectiles == SpliceOne(old(projectiles), index)
    {
      projectiles := SpliceOne(projectiles, index);
    }

    /** The listed buildings lie on the map, the listed units stand on it, and no two share an id. */
    predicate Listed()
      reads this, set k | 0 <= k < |buildingsList| :: buildingsList[k], set k | 0 <= k < |unitsList| :: unitsList[k]
    {
      (forall k :: 0 <= k < |buildingsList| ==> Covers(buildingsList[k])) &&
      (forall k :: 0 <= k < |unitsList| ==> InMap(Position(unitsList[k].x, unitsList[k].y))) &&
      DistinctBuildings(buildingsList) && DistinctUnits(unitsList)
    }

    /** removeBuilding on the building at index k, which takes it off the list. */
    method RemoveAt(k: nat)
      requires Valid() && k < |buildingsList| && Covers(buildingsList[k])
      requires DistinctBuildings(buildingsList)
      modifies this
      ensures buildingsList == old(buildingsList)[..k] + old(buildingsList)[k + 1..]
      ensures tiles == old(tiles) && unitsList == old(unitsList) && projectiles == old(projectiles)
      ensures Valid()
    {
      ghost var before := buildingsList;
      var b := buildingsList[k];
      RemoveBuilding(b);
      assert LastBuilding(before, b.id) == k;
    }

    /**
     * The first step of loadSavePoint as written: forEach over the building
     * list calling removeBuilding, which splices the list forEach is walking.
     */
    method ForEachRemoveBuilding()
      requires Valid() && forall k :: 0 <= k < |buildingsList| ==> Covers(buildingsList[k])
      requires DistinctBuildings(buildingsList)
      modifies this
      ensures buildingsList == ForEachSplice(old(buildingsList), 0)
      ensures tiles == old(tiles) && unitsList == old(unitsList) && projectiles == old(projectiles)
      ensures Valid()
    {
      var n := |buildingsList|;
      var k := 0;
      while k < n
        invariant k <= n && |buildingsList| <= n
        invariant ForEachSplice(buildingsList, k) == ForEachSplice(old(buildingsList), 0)
        invariant Valid() && tiles == old(tiles) && unitsList == old(unitsList) && projectiles == old(projectiles)
        invariant forall j :: 0 <= j < |buildingsList| ==> Covers(buildingsList[j])
        invariant DistinctBuildings(buildingsList)
      {
        if k < |buildingsList| {
          RemoveAt(k);
        }
        k := k + 1;
      }
    }

    /** The unit at index k marked destroyed and updated, which takes it off the list. */
    method DestroyAt(k: nat)
      requires Valid() && k < |unitsList| && InMap(Position(unitsList[k].x, unitsList[k].y))
      requires DistinctUnits(unitsList)
      modifies this, unitsList[k]
      ensures unitsList == old(unitsList)[..k] + old(unitsList)[k + 1..]
      ensures old(unitsList)[k].action == 1
      ensures tiles == old(tiles) && buildingsList == old(buildingsList) && projectiles == old(projectiles)
      ensures Valid()
    {
      ghost var before := unitsList;
      var u := unitsList[k];
      u.action := 1;
      UpdateUnit(u);
      assert LastUnit(before, u.id) == k;
    }

    /** The second step as written: forEach over the unit list, marking each visited unit destroyed and updating it. */
    method ForEachDestroyUnit()
      requires Valid() && forall k :: 0 <= k < |unitsList| ==> InMap(Position(unitsList[k].x, unitsList[k].y))
      requires DistinctUnits(unitsList)
      modifies this, set k | 0 <= k < |unitsList| :: unitsList[k]
      ensures unitsList == ForEachSplice(old(unitsList), 0)
      ensures tiles == old(tiles) && buildingsList == old(buildingsList) && projectiles == old(projectiles)
      ensures Valid()
    {
      var n := |unitsList|;
      var k := 0;
      while k < n
        invariant k <= n && |unitsList| <= n
        invariant ForEachSplice(unitsList, k) == ForEachSplice(old(unitsList), 0)
        invariant Valid() && tiles == old(tiles) && buildingsList == old(buildingsList) && projectiles == old(projectiles)
        invariant forall j :: 0 <= j < |unitsList| ==> unitsList[j] in old(unitsList)
        invariant forall j :: 0 <= j < |unitsList| ==> InMap(Position(unitsList[j].x, unitsList[j].y))
        invariant DistinctUnits(unitsList)
      {
        if k < |unitsList| {
          DestroyAt(k);
        }
        k := k + 1;
      }
    }

    /** The third step as written: forEach over the projectile list, removing the projectile at each visited index. */
    method ForEachRemoveProjectile()
      modifies this
      ensures projectiles == ForEachSplice(old(projectiles), 0)
      ensures tiles == old(tiles) && buildings == old(buildings) && buildingsList == old(buildingsList)
      ensures units == old(units) && unitsList == old(unitsList) && navigationIndex == old(navigationIndex)
    {
      var n := |projectiles|;
      var k := 0;
      while k < n
        invariant k <= n && |projectiles| <= n
        invariant ForEachSplice(projectiles, k) == ForEachSplice(old(projectiles), 0)
        invariant tiles == old(tiles) && buildings == old(buildings) && buildingsList == old(buildingsList)
        invariant units == old(units) && unitsList == old(unitsList) && navigationIndex == old(navigationIndex)
      {
        if k < |projectiles| {
          RemoveProjectile(k);
        }
        k := k + 1;
      }
    }

    /**
     * The removals at the start of loadSavePoint, as written: each list keeps
     * the half of its entries at odd positions (ForEachSpliceKeepsHalf).
     */
    method DiscardAsWritten()
      requires Valid() && Listed()
      modifies this, set k | 0 <= k < |unitsList| :: unitsList[k]
      ensures buildingsList == ForEachSplice(old(buildingsList), 0)
      ensures unitsList == ForEachSplice(old(unitsList), 0)
      ensures projectiles == ForEachSplice(old(projectiles), 0)
      ensures tiles == old(tiles) && Valid()
    {
      ForEachRemoveBuilding();
      ForEachDestroyUnit();
      ForEachRemoveProjectile();
    }

    /**
     * The removals loadSavePoint evidently intends: every building removed,
     * every unit marked destroyed and removed, every projectile removed. The
     * lists are walked from the end, as the rest of the map walks them, so no
     * removal shifts an entry still to be visited.
     */
    method Discard()
      requires Valid() && Listed()
      modifies this, set k | 0 <= k < |unitsList| :: unitsList[k]
      ensures buildingsList == [] && unitsList == [] && projectiles == []
      ensures forall k :: 0 <= k < |old(unitsList)| ==> old(unitsList)[k].action == 1
      ensures tiles == old(tiles) && Valid()
    {
      DiscardBuildings();
      DiscardUnits();
      DiscardProjectiles();
    }

    method DiscardBuildings()
      requires Valid() && forall k :: 0 <= k < |buildingsList| ==> Covers(buildingsList[k])
      requires DistinctBuildings(buildingsList)
      modifies this
      ensures buildingsList == []
      ensures tiles == old(tiles) && unitsList == old(unitsList) && projectiles == old(projectiles)
      ensures Valid()
    {
      var i := |buildingsList|;
      while i > 0
        invariant 0 <= i <= |old(buildingsList)| && buildingsList == old(buildingsList)[..i]
        invariant Valid() && tiles == old(tiles) && unitsList == old(unitsList) && projectiles == old(projectiles)
        invariant forall j :: 0 <= j < |buildingsList| ==> Covers(buildingsList[j])
        invariant DistinctBuildings(buildingsList)
      {
        i := i - 1;
        RemoveAt(i);
        assert old(buildingsList)[..i + 1][..i] == old(buildingsList)[..i];
      }
    }

    method DiscardUnits()
      requires Valid() && forall k :: 0 <= k < |unitsList| ==> InMap(Position(unitsList[k].x, unitsList[k].y))
      requires DistinctUnits(unitsList)
      modifies this, set k | 0 <= k < |unitsList| :: unitsList[k]
      ensures unitsList == []
      ensures forall k :: 0 <= k < |old(unitsList)| ==> old(unitsList)[k].action == 1
      ensures tiles == old(tiles) && buildingsList == old(buildingsList) && projectiles == old(projectiles)
      ensures Valid()
    {
      var i := |unitsList|;
      while i > 0
        invariant 0 <= i <= |old(unitsList)| && unitsList == old(unitsList)[..i]
        invariant Valid() && tiles == old(tiles) && buildingsList == old(buildingsList) && projectiles == old(projectiles)
        invariant forall j :: 0 <= j < |unitsList| ==> InMap(Position(unitsList[j].x, unitsList[j].y))
        invariant DistinctUnits(unitsList)
        invariant forall j :: i <= j < |old(unitsList)| ==> old(unitsList)[j].action == 1
      {
        i := i - 1;
        DestroyAt(i);
        assert old(unitsList)[..i + 1][..i] == old(unitsList)[..i];
      }
    }

    method DiscardProjectiles()
      modifies this
      ensures projectiles == []
      ensures tiles == old(tiles) && buildings == old(buildings) && buildingsList == old(buildingsList)
      ensures units == old(units) && unitsList == old(unitsList) && navigationIndex == old(navigationIndex)
    {
      var i := |projectiles|;
      while i > 0
        invariant 0 <= i <= |old(projectiles)| && projectiles == old(projectiles)[..i]
        invariant tiles == old(tiles) && buildings == old(buildings) && buildingsList == old(buildingsList)
        invariant units == old(units) && unitsList == old(unitsList) && navigationIndex == old(navigationIndex)
      {
        i := i - 1;
        RemoveProjectile(i);
        assert old(projectiles)[..i + 1][..i] == old(projectiles)[..i];
      }
    }

    /**
     * loadSavePoint: a save point of a format other than 90 is refused before
     * anything changes; otherwise the map is emptied, its indexes rebuilt from
     * the tiles, and the saved buildings, units and projectiles placed in
     * order. The entries come decoded: each building by
     * Building.fromPackedJson, each unit as a new unit (action 0), distinct
     * from the units on the map. Unit.js has no fromPackedJson, so the
     * source throws on the first saved unit; this is the load it evidently
     * intends.
     */
    method LoadSavePoint(version: int, newBuildings: seq<Building>, newUnits: seq<Unit>, newProjectiles: seq<Projectile>)
      returns (r: Result<(), Failure>)
      requires Valid() && Listed()
      requires forall k :: 0 <= k < |newBuildings| ==> Covers(newBuildings[k])
      requires forall k :: 0 <= k < |newUnits| ==> InMap(Position(newUnits[k].x, newUnits[k].y)) && newUnits[k].action == 0
      requires forall k :: 0 <= k < |newUnits| ==> newUnits[k] !in unitsList
      modifies this, set k | 0 <= k < |unitsList| :: unitsList[k]
      ensures version < SavePointVersion ==> r == Err(TooOld)
      ensures version > SavePointVersion ==> r == Err(TooNew)
      ensures r.Err? ==> buildingsList == old(buildingsList) && unitsList == old(unitsList) && projectiles == old(projectiles)
      ensures version == SavePointVersion ==> r.Ok? && buildingsList == newBuildings && unitsList == newUnits && projectiles == newProjectiles
      ensures r.Ok? ==> forall k :: 0 <= k < |old(unitsList)| ==> old(unitsList)[k].action == 1
      ensures tiles == old(tiles) && Valid()
      ensures forall k :: 0 <= k < |newBuildings| ==> Fits(tiles, newBuildings[k])
      ensures forall k :: 0 <= k < |newUnits| ==> Inside(tiles, UnitCell(newUnits[k]))
      ensures r.Ok? ==> buildings == PaintAll(Blank(Height(), Width(), null), newBuildings)
      ensures r.Ok? ==> units == SetUnits(Blank(Height(), Width(), null), newUnits)
      ensures r.Ok? ==> navigationIndex == BlockUnits(BlockAll(Accessibility(tiles), newBuildings), newUnits)
    {
      if version < SavePointVersion {
        return Err(TooOld);
      }
      if version > SavePointVersion {
        return Err(TooNew);
      }
      Discard();
      assert forall k :: 0 <= k < |newBuildings| ==> Fits(tiles, newBuildings[k]);
      assert forall k :: 0 <= k < |newUnits| ==> Inside(tiles, UnitCell(newUnits[k])) && newUnits[k].action == 0;
      Reload(newBuildings, newUnits, newProjectiles);
      return Ok(());
    }

    /**
     * The rest of loadSavePoint once the map is emptied: fresh indexes, then
     * the saved buildings, units and projectiles, each through the update the
     * map uses for one of them.
     */
    method Reload(newBuildings: seq<Building>, newUnits: seq<Unit>, newProjectiles: seq<Projectile>)
      requires Valid() && buildingsList == [] && unitsList == [] && projectiles == []
      requires forall k :: 0 <= k < |newBuildings| ==> Fits(tiles, newBuildings[k])
      requires forall k :: 0 <= k < |newUnits| ==> Inside(tiles, UnitCell(newUnits[k])) && newUnits[k].action == 0
      modifies this
      ensures tiles == old(tiles) && Valid()
      ensures buildingsList == newBuildings && unitsList == newUnits && projectiles == newProjectiles
      ensures buildings == PaintAll(Blank(Height(), Width(), null), newBuildings)
      ensures units == SetUnits(Blank(Height(), Width(), null), newUnits)
      ensures navigationIndex == BlockUnits(BlockAll(Accessibility(tiles), newBuildings), newUnits)
    {
      ghost var height, width := Height(), Width();
      CreateIndexes();
      ghost var blankBuildings, blankUnits, bare := buildings, units, navigationIndex;
      assert blankBuildings == Blank(height, width, null) && blankUnits == Blank(height, width, null);
      assert bare == Accessibility(tiles);
      PlaceBuildings(newBuildings);
      ghost var blocked := navigationIndex;
      assert buildings == PaintAll(blankBuildings, newBuildings) && blocked == BlockAll(bare, newBuildings);
      PlaceUnits(newUnits);
      assert units == SetUnits(blankUnits, newUnits) && navigationIndex == BlockUnits(blocked, newUnits);
      PlaceProjectiles(newProjectiles);
      assert navigationIndex == BlockUnits(blocked, newUnits);
      assert tiles == old(tiles) && Height() == height && Width() == width;
      assert blocked == BlockAll(Accessibility(tiles), newBuildings);
    }

    /** One step of loadSavePoint's loop over the saved buildings: the indexes grow by one building. */
    method PlaceBuilding(ghost blank: seq<seq<Building?>>, ghost bare: seq<seq<bool>>, ghost done: seq<Building>, b: Building)
      requires Valid() && Fits(tiles, b)
      requires buildings == PaintAll(blank, done) && navigationIndex == BlockAll(bare, done)
      modifies this
      ensures buildingsList == old(buildingsList) + [b]
      ensures buildings == PaintAll(blank, done + [b]) && navigationIndex == BlockAll(bare, done + [b])
      ensures tiles == old(tiles) && units == old(units) && unitsList == old(unitsList) && projectiles == old(projectiles)
      ensures Valid()
    {
      CoveredCells(b);
      PaintAllStep(blank, done, b);
      BlockAllStep(bare, done, b);
      UpdateBuilding(b);
    }

    /** loadSavePoint's loop over the saved buildings. */
    method PlaceBuildings(newBuildings: seq<Building>)
      requires Valid() && buildingsList == []
      requires forall k :: 0 <= k < |newBuildings| ==> Fits(tiles, newBuildings[k])
      modifies this
      ensures buildingsList == newBuildings
      ensures buildings == PaintAll(old(buildings), newBuildings)
      ensures navigationIndex == BlockAll(old(navigationIndex), newBuildings)
      ensures tiles == old(tiles) && units == old(units) && unitsList == old(unitsList) && projectiles == old(projectiles)
      ensures Valid()
    {
      var i := 0;
      while i < |newBuildings|
        invariant 0 <= i <= |newBuildings| && buildingsList == newBuildings[..i]
        invariant buildings == PaintAll(old(buildings), newBuildings[..i])
        invariant navigationIndex == BlockAll(old(navigationIndex), newBuildings[..i])
        invariant Valid() && tiles == old(tiles) && units == old(units) && unitsList == old(unitsList) && projectiles == old(projectiles)
      {
        PlaceBuilding(old(buildings), old(navigationIndex), newBuildings[..i], newBuildings[i]);
        assert newBuildings[..i + 1] == newBuildings[..i] + [newBuildings[i]];
        i := i + 1;
      }
      assert newBuildings[..|newBuildings|] == newBuildings;
    }

    /** One step of loadSavePoint's loop over the saved units: a created unit is written on its cell and blocks it. */
    method PlaceUnit(ghost blank: seq<seq<Unit?>>, ghost blocked: seq<seq<bool>>, ghost done: seq<Unit>, u: Unit)
      requires Valid() && InMap(Position(u.x, u.y)) && u.action == 0
      requires units == SetUnits(blank, done) && navigationIndex == BlockUnits(blocked, done)
      modifies this
      ensures unitsList == old(unitsList) + [u]
      ensures units == SetUnits(blank, done + [u]) && navigationIndex == BlockUnits(blocked, done + [u])
      ensures tiles == old(tiles) && buildings == old(buildings) && buildingsList == old(buildingsList) && projectiles == old(projectiles)
      ensures Valid()
    {
      UpdateUnit(u);
      SetUnitsStep(blank, done, u);
      BlockUnitsStep(blocked, done, u);
    }

    /** loadSavePoint's loop over the saved units. */
    method PlaceUnits(newUnits: seq<Unit>)
      requires Valid() && unitsList == []
      requires forall k :: 0 <= k < |newUnits| ==> InMap(Position(newUnits[k].x, newUnits[k].y)) && newUnits[k].action == 0
      modifies this
      ensures unitsList == newUnits
      ensures units == SetUnits(old(units), newUnits)
      ensures navigationIndex == BlockUnits(old(navigationIndex), newUnits)
      ensures tiles == old(tiles) && buildings == old(buildings) && buildingsList == old(buildingsList) && projectiles == old(projectiles)
      ensures Valid()
    {
      var i := 0;
      while i < |newUnits|
        invariant 0 <= i <= |newUnits| && unitsList == newUnits[..i]
        invariant units == SetUnits(old(units), newUnits[..i])
        invariant navigationIndex == BlockUnits(old(navigationIndex), newUnits[..i])
        invariant Valid() && tiles == old(tiles) && buildings == old(buildings) && buildingsList == old(buildingsList) && projectiles == old(projectiles)
      {
        PlaceUnit(old(units), old(navigationIndex), newUnits[..i], newUnits[i]);
        assert newUnits[..i + 1] == newUnits[..i] + [newUnits[i]];
        i := i + 1;
      }
      assert newUnits[..|newUnits|] == newUnits;
    }

    /** loadSavePoint's loop over the saved projectiles. */
    method PlaceProjectiles(newProjectiles: seq<Projectile>)
      modifies this`projectiles
      ensures projectiles == old(projectiles) + newProjectiles
      ensures tiles == old(tiles) && buildings == old(buildings) && buildingsList == old(buildingsList)
      ensures units == old(units) && unitsList == old(unitsList) && navigationIndex == old(navigationIndex)
    {
      var i := 0;
      while i < |newProjectiles|
        invariant 0 <= i <= |newProjectiles| && projectiles == old(projectiles) + newProjectiles[..i]
        invariant tiles == old(tiles) && buildings == old(buildings) && buildingsList == old(buildingsList)
        invariant units == old(units) && unitsList == old(unitsList) && navigationIndex == old(navigationIndex)
      {
        AddProjectile(newProjectiles[i]);
        assert newProjectiles[..i + 1] == newProjectiles[..i] + [newProjectiles[i]];
        i := i + 1;
      }
      assert newProjectiles[..|newProjectiles|] == newProjectiles;
    }
  }

  // ---------------------------------------------------------------- the objects on the map

  /** The buildings the building index holds. */
  function BuildingsOn(rows: seq<seq<Building?>>): set<Building> {
    set y, x | 0 <= y < |rows| && 0 <= x < |rows[y]| && rows[y][x] != null :: rows[y][x]
  }

  /** The units the unit index holds. */
  function UnitsOn(rows: seq<seq<Unit?>>): set<Unit> {
    set y, x | 0 <= y < |rows| && 0 <= x < |rows[y]| && rows[y][x] != null :: rows[y][x]
  }

  /** Emptying cells adds no building to the index. */
  lemma PaintNullShrinks(rows: seq<seq<Building?>>, ps: seq<Position>)
    requires forall k :: 0 <= k < |ps| ==> Inside(rows, ps[k])
    ensures BuildingsOn(Paint(rows, ps, null)) <= BuildingsOn(rows)
  {
    var r := Paint(rows, ps, null);
    forall b | b in BuildingsOn(r) ensures b in BuildingsOn(rows) {
      var y, x :| 0 <= y < |r| && 0 <= x < |r[y]| && r[y][x] != null && r[y][x] == b;
      PaintAt(rows, ps, null, Position(x, y));
    }
  }

  /** Emptying a cell adds no unit to the index. */
  lemma SetNullShrinks(rows: seq<seq<Unit?>>, p: Position)
    requires Inside(rows, p)
    ensures UnitsOn(Set(rows, p, null)) <= UnitsOn(rows)
  {
    var r := Set(rows, p, null);
    forall u | u in UnitsOn(r) ensures u in UnitsOn(rows) {
      var y, x :| 0 <= y < |r| && 0 <= x < |r[y]| && r[y][x] != null && r[y][x] == u;
      assert rows[y][x] == u;
    }
  }

  /** Every building in the index covers only map cells, and every unit in it stands on the map. */
  predicate Placed(m: Map)
    reads m`tiles, m`buildings, m`units
    reads BuildingsOn(m.buildings)`x, BuildingsOn(m.buildings)`y, UnitsOn(m.units)`x, UnitsOn(m.units)`y
  {
    (forall b :: b in BuildingsOn(m.buildings) ==> m.Covers(b)) &&
    (forall u :: u in UnitsOn(m.units) ==> m.InMap(Position(u.x, u.y)))
  }

  /**
   * Placement holds after a step that added nothing to the indexes, kept the
   * tiles, and moved none of the buildings and units left in them.
   */
  twostate lemma PlacedKept(m: Map)
    requires old(Placed(m)) && m.tiles == old(m.tiles)
    requires BuildingsOn(m.buildings) <= old(BuildingsOn(m.buildings))
    requires UnitsOn(m.units) <= old(UnitsOn(m.units))
    requires forall b :: b in BuildingsOn(m.buildings) ==> b.x == old(b.x) && b.y == old(b.y)
    requires forall u :: u in UnitsOn(m.units) ==> u.x == old(u.x) && u.y == old(u.y)
    ensures Placed(m)
  {
    forall b | b in BuildingsOn(m.buildings) ensures m.Covers(b) {
      assert old(m.Covers(b));
    }
  }

  /** Writing one building on cells adds only that building to the index. */
  lemma PaintOneGrows(rows: seq<seq<Building?>>, ps: seq<Position>, b: Building)
    requires forall k :: 0 <= k < |ps| ==> Inside(rows, ps[k])
    ensures BuildingsOn(Paint(rows, ps, b)) <= BuildingsOn(rows) + {b}
  {
    var r := Paint(rows, ps, b);
    forall c | c in BuildingsOn(r) && c != b ensures c in BuildingsOn(rows) {
      var y, x :| 0 <= y < |r| && 0 <= x < |r[y]| && r[y][x] != null && r[y][x] == c;
      PaintAt(rows, ps, b, Position(x, y));
    }
  }

  /**
   * Placement holds after a step that kept the tiles and the units, moved
   * none of the units, and left in the building index only buildings that
   * were there and have not moved, or that cover map cells.
   */
  twostate lemma PlacedGrown(m: Map)
    requires old(Placed(m)) && m.tiles == old(m.tiles) && m.units == old(m.units)
    requires forall c :: c in BuildingsOn(m.buildings) ==>
               (c in old(BuildingsOn(m.buildings)) && c.x == old(c.x) && c.y == old(c.y)) || m.Covers(c)
    requires forall u :: u in UnitsOn(m.units) ==> u.x == old(u.x) && u.y == old(u.y)
    ensures Placed(m)
  {
    forall c | c in BuildingsOn(m.buildings) ensures m.Covers(c) {
      if c in old(BuildingsOn(m.buildings)) && c.x == old(c.x) && c.y == old(c.y) {
        assert old(m.Covers(c));
      }
    }
    forall u | u in UnitsOn(m.units) ensures m.InMap(Position(u.x, u.y)) {
      assert old(m.InMap(Position(u.x, u.y)));
    }
  }

  /** What getObjectAt finds is held by the unit or the building index. */
  lemma ObjectOnMap(m: Map, x: int, y: int)
    ensures m.ObjectAt(x, y).BuildingThere? ==> m.ObjectAt(x, y).b in BuildingsOn(m.buildings)
    ensures m.ObjectAt(x, y).UnitThere? ==> m.ObjectAt(x, y).u in UnitsOn(m.units)
  {
    match m.ObjectAt(x, y)
    case Nothing =>
    case UnitThere(u) => assert m.units[y][x] == u;
    case BuildingThere(b) => assert m.buildings[y][x] == b;
  }

  /** On a valid map, a cell of the navigation index is a map cell. */
  lemma NavigableInMap(m: Map, p: Position)
    requires m.Valid() && Inside(m.navigationIndex, p)
    ensures m.InMap(p)
  {
  }
}
