/**
 * The unit AI plug-in (engine/gameplay-plugins/mixed-plugins/unitai.js): the
 * per-tick driving of the units, their turning on the spot, the choice of a
 * heading towards a target, the look at the tile ahead, and the box
 * selection of the player's units.
 *
 * Directions are 0..7, clockwise from north. A unit's action is one of 0
 * (just created), 1 (destroyed), 2 (released its tile), 3 (moving), 4
 * (standing), 5 (waiting), 6 (turning) and 7 (attacking).
 *
 * Unit.getAheadCoordinates and Unit.getCoordinatesAtDirection are not part of
 * this model; the coordinates they give are inputs. The map is the one given
 * to the plug-in at construction; what the plug-in asks of the effects
 * renderer is recorded in `display`.
 */
module UnitAI {
  import opened Wrappers
  import opened JsText
  import Seqs
  import opened Buildings
  import opened Units
  import opened GameMap

  datatype Failure =
    | UnsupportedAction(action: int)  // handleTick's switch found no case for the action
    | NoIndexRow                      // the coordinates lie in no row of the navigation index, so indexing that row throws

  function Abs(a: int): int {
    if a < 0 then -a else a
  }

  function Sign(a: int): int {
    if a > 0 then 1 else if a < 0 then -1 else 0
  }

  // ---------------------------------------------------------------- the firing timer

  /** The timer step of handleTick: below 1000 it grows by the firing speed, never past 1000. */
  function FiringTimer(timer: int, speed: int): (r: int)
    ensures timer >= 1000 ==> r == timer
    ensures timer < 1000 ==> r <= 1000 && (r == 1000 || r == timer + speed)
    ensures timer < 1000 && speed >= 0 ==> timer <= r
  {
    if timer < 1000 then (if timer + speed < 1000 then timer + speed else 1000) else timer
  }

  /** The timer after n ticks. */
  function Charged(timer: int, speed: int, n: nat): int
    decreases n
  {
    if n == 0 then timer else Charged(FiringTimer(timer, speed), speed, n - 1)
  }

  /** A timer that starts at most 1000 never passes 1000. */
  lemma {:induction false} ChargedBounded(timer: int, speed: int, n: nat)
    requires timer <= 1000
    ensures Charged(timer, speed, n) <= 1000
    decreases n
  {
    if n > 0 {
      ChargedBounded(FiringTimer(timer, speed), speed, n - 1);
    }
  }

  /** With a positive speed the timer is full (1000) once n ticks add up to the gap. */
  lemma {:induction false} ChargedFull(timer: int, speed: int, n: nat)
    requires timer <= 1000 && speed > 0 && timer + n * speed >= 1000
    ensures Charged(timer, speed, n) == 1000
    decreases n
  {
    if n > 0 {
      assert n * speed == (n - 1) * speed + speed;
      ChargedFull(FiringTimer(timer, speed), speed, n - 1);
    }
  }

  // ---------------------------------------------------------------- turning

  /** The fields turnUnit reads and writes. */
  datatype Turning = Turning(direction: int, azimuth: int, progress: int, action: int)

  /**
   * turnUnit: with nothing left to turn the unit stands still; otherwise the
   * progress grows by the turn speed up to 1000, and at 1000 the unit turns
   * one step towards the azimuth's sign, spending one step of the azimuth
   * and starting the next step's progress from 0.
   */
  function Turn(t: Turning, turnSpeed: int): (r: Turning)
    ensures 0 <= t.direction < 8 ==> 0 <= r.direction < 8
    ensures t.azimuth == 0 ==> r == t.(action := 4)
    ensures t.azimuth != 0 ==> r.action == t.action
    ensures t.azimuth != 0 && t.progress + turnSpeed < 1000 ==> r == t.(progress := t.progress + turnSpeed)
    ensures t.azimuth != 0 && t.progress + turnSpeed >= 1000 && 0 <= t.direction < 8 ==>
              r == t.(direction := (t.direction + Sign(t.azimuth)) % 8, azimuth := t.azimuth - Sign(t.azimuth), progress := 0)
  {
    if t.azimuth == 0 then t.(action := 4)
    else
      var progress := if t.progress + turnSpeed < 1000 then t.progress + turnSpeed else 1000;
      if progress < 1000 then t.(progress := progress)
      else if t.azimuth > 0 then
        t.(direction := Rem(t.direction + 1, 8), azimuth := t.azimuth - 1, progress := 0)
      else
        var direction := t.direction - 1;
        t.(direction := if direction == -1 then 7 else direction, azimuth := t.azimuth + 1, progress := 0)
  }

  /** n ticks of turning. */
  function Spin(t: Turning, turnSpeed: int, n: nat): Turning
    decreases n
  {
    if n == 0 then t else Spin(Turn(t, turnSpeed), turnSpeed, n - 1)
  }

  lemma {:induction false} SpinAdds(t: Turning, turnSpeed: int, a: nat, b: nat)
    ensures Spin(t, turnSpeed, a + b) == Spin(Spin(t, turnSpeed, a), turnSpeed, b)
    decreases a
  {
    if a > 0 {
      SpinAdds(Turn(t, turnSpeed), turnSpeed, a - 1, b);
    }
  }

  /** The ticks one turning step takes from the given progress. */
  function StepTicks(progress: int, turnSpeed: int): (n: nat)
    requires turnSpeed > 0
    decreases 1000 - progress
  {
    if progress + turnSpeed >= 1000 then 1 else 1 + StepTicks(progress + turnSpeed, turnSpeed)
  }

  /** One turning step, whatever the progress it starts from. */
  lemma {:induction false} OneStep(t: Turning, turnSpeed: int)
    requires turnSpeed > 0 && t.azimuth != 0 && 0 <= t.direction < 8
    ensures Spin(t, turnSpeed, StepTicks(t.progress, turnSpeed)) ==
            t.(direction := (t.direction + Sign(t.azimuth)) % 8, azimuth := t.azimuth - Sign(t.azimuth), progress := 0)
    decreases 1000 - t.progress
  {
    if t.progress + turnSpeed < 1000 {
      OneStep(t.(progress := t.progress + turnSpeed), turnSpeed);
    }
  }

  /** The heading once every step of the azimuth has been turned. */
  function Turned(direction: int, azimuth: int): int
    decreases Abs(azimuth)
  {
    if azimuth == 0 then direction
    else Turned((direction + Sign(azimuth)) % 8, azimuth - Sign(azimuth))
  }

  lemma {:induction false} TurnedIs(direction: int, azimuth: int)
    requires 0 <= direction < 8
    ensures Turned(direction, azimuth) == (direction + azimuth) % 8
    decreases Abs(azimuth)
  {
    if azimuth != 0 {
      var s := Sign(azimuth);
      TurnedIs((direction + s) % 8, azimuth - s);
      assert ((direction + s) % 8 + (azimuth - s)) % 8 == (direction + azimuth) % 8 by {
        ModShift(direction + s, azimuth - s);
      }
    }
  }

  lemma ModShift(a: int, b: int)
    ensures (a % 8 + b) % 8 == (a + b) % 8
  {
    var q := a / 8;
    assert a == 8 * q + a % 8;
    assert a + b == 8 * q + (a % 8 + b);
  }

  /** From a standing start, every step of the azimuth takes the same ticks, and then the unit faces Turned. */
  lemma {:induction false} AllSteps(t: Turning, turnSpeed: int)
    requires turnSpeed > 0 && 0 <= t.direction < 8 && t.progress == 0
    ensures Spin(t, turnSpeed, Abs(t.azimuth) * StepTicks(0, turnSpeed)) ==
            t.(direction := Turned(t.direction, t.azimuth), azimuth := 0)
    decreases Abs(t.azimuth)
  {
    var k := StepTicks(0, turnSpeed);
    if t.azimuth != 0 {
      var s := Sign(t.azimuth);
      var next := t.(direction := (t.direction + s) % 8, azimuth := t.azimuth - s, progress := 0);
      assert Abs(t.azimuth) * k == k + Abs(next.azimuth) * k;
      SpinAdds(t, turnSpeed, k, Abs(next.azimuth) * k);
      OneStep(t, turnSpeed);
      AllSteps(next, turnSpeed);
    }
  }

  // ---------------------------------------------------------------- the heading

  /**
   * The azimuth of startMovingUnitToNextTile: the turn from the heading to
   * the target direction, taken the short way round. The unit turns by its
   * negation.
   */
  function Azimuth(direction: int, target: int): (r: int)
    ensures 0 <= direction < 8 && 0 <= target < 8 ==> -4 <= r <= 4 && (direction - r) % 8 == target
  {
    var a := direction - target;
    var a := if a < -4 then 8 + a else a;
    if a > 4 then -(8 - a) else a
  }

  /**
   * A unit told to turn by the negated azimuth, from a standing start, faces
   * the target after its turning steps and then stands still.
   */
  lemma TurnsToTarget(direction: int, target: int, turnSpeed: int)
    requires 0 <= direction < 8 && 0 <= target < 8 && turnSpeed > 0
    ensures var t := Turning(direction, -Azimuth(direction, target), 0, 6);
            Spin(t, turnSpeed, Abs(t.azimuth) * StepTicks(0, turnSpeed) + 1) == Turning(target, 0, 0, 4)
  {
    var t := Turning(direction, -Azimuth(direction, target), 0, 6);
    var n := Abs(t.azimuth) * StepTicks(0, turnSpeed);
    AllSteps(t, turnSpeed);
    TurnedIs(direction, t.azimuth);
    SpinAdds(t, turnSpeed, n, 1);
  }

  /**
   * getPreferredDirection: the heading from the unit's cell to the target
   * cell on the staggered grid, with the row parities taken by JavaScript's `%`.
   */
  function PreferredDirection(p: Position, targetX: int, targetY: int): (r: int)
    ensures 0 <= r < 8
  {
    var sourceOffset, destinationOffset := Rem(p.y, 2), Rem(targetY, 2);
    var deltaX, deltaY := targetX - p.x + destinationOffset - sourceOffset, targetY - p.y;
    if deltaX == 0 then
      if deltaY > 0 then
        if sourceOffset == 1 && destinationOffset == 0 then 3
        else if sourceOffset == 0 && destinationOffset == 1 then 5
        else 4
      else if sourceOffset == 0 && destinationOffset == 1 then 7
      else if sourceOffset == 1 && destinationOffset == 0 then 1
      else 0
    else if deltaY == 0 then (if deltaX > 0 then 2 else 6)
    else if deltaY < 0 then (if deltaX > 0 then 1 else 7)
    else if deltaX > 0 then 3
    else 5
  }

  /** The preferred heading to a neighbouring cell is the direction of the step that reaches it. */
  lemma PreferredToNeighbour(p: Position, direction: int)
    requires 0 <= direction < 8 && p.y >= 2
    ensures PreferredDirection(p, Step(p, direction).x, Step(p, direction).y) == direction
  {
    assert Rem(p.y - 1, 2) == 1 - Rem(p.y, 2) && Rem(p.y + 1, 2) == 1 - Rem(p.y, 2);
    assert Rem(p.y - 2, 2) == Rem(p.y, 2) && Rem(p.y + 2, 2) == Rem(p.y, 2);
  }

  /**
   * getReasonableDirection's last step: the preferred heading plus the offset
   * to a free direction (a missing offset adds 0, as null does in
   * JavaScript arithmetic), brought back into 0..7.
   */
  function ReasonableDirection(head: int, offset: Option<int>): (r: int)
    ensures var a := if offset.Some? then offset.value else 0;
            0 <= head < 8 && -8 <= a <= 8 ==> 0 <= r < 8 && r == (head + a) % 8
  {
    var r := head + if offset.Some? then offset.value else 0;
    if r < 0 then r + 8 else if r > 7 then Rem(r, 8) else r
  }

  // ---------------------------------------------------------------- the tiles around

  /** The object on a cell, and the unit read when it is one, as isFreeDirection and checkAheadMovingUnit read them. */
  predicate MovingUnitAt(m: Map, c: Position)
    reads m, UnitsOn(m.units)
  {
    ObjectOnMap(m, c.x, c.y);
    m.ObjectAt(c.x, c.y).UnitThere? && m.ObjectAt(c.x, c.y).u.action == 3
  }

  /** A moving unit on the cell is heading straight at a unit facing `facing`. */
  predicate HeadOn(m: Map, facing: int, c: Position)
    requires MovingUnitAt(m, c)
    reads m, UnitsOn(m.units)
  {
    ObjectOnMap(m, c.x, c.y);
    Rem(facing + 8 - m.ObjectAt(c.x, c.y).u.direction, 8) == 4
  }

  /** The navigation index marks the cell passable (a cell outside a row reads as undefined, so not passable). */
  predicate Passable(m: Map, c: Position)
    reads m
  {
    Inside(m.navigationIndex, c) && m.navigationIndex[c.y][c.x]
  }

  /**
   * isFreeDirection: a cell holding a moving unit that is not heading
   * straight back is free; any other cell is as free as the navigation index
   * says.
   */
  function IsFree(m: Map, facing: int, c: Position): (r: Result<bool, Failure>)
    reads m, UnitsOn(m.units)
    ensures r == Ok(true) <==> (MovingUnitAt(m, c) && !HeadOn(m, facing, c)) || (0 <= c.y < |m.navigationIndex| && Passable(m, c))
    ensures r.Err? <==> !(MovingUnitAt(m, c) && !HeadOn(m, facing, c)) && !(0 <= c.y < |m.navigationIndex|)
  {
    if MovingUnitAt(m, c) && !HeadOn(m, facing, c) then Ok(true)
    else if !(0 <= c.y < |m.navigationIndex|) then Err(NoIndexRow)
    else Ok(Passable(m, c))
  }

  /**
   * checkAheadMovingUnit: 2 (wait) for a moving unit ahead that is not
   * heading straight back, 1 (go round) for a unit heading back, for a
   * standing unit, for an impassable building, or for a cell the index
   * marks impassable, and 0 (go) otherwise.
   */
  function CheckAhead(m: Map, facing: int, ahead: Position): (r: Result<int, Failure>)
    reads m, UnitsOn(m.units)
    ensures r.Ok? ==> 0 <= r.value <= 2
    ensures r == Ok(2) <==> MovingUnitAt(m, ahead) && !HeadOn(m, facing, ahead)
    ensures r == Ok(0) <==>
              !m.ObjectAt(ahead.x, ahead.y).UnitThere? &&
              !(m.ObjectAt(ahead.x, ahead.y).BuildingThere? && !m.ObjectAt(ahead.x, ahead.y).b.passable) &&
              0 <= ahead.y < |m.navigationIndex| && Passable(m, ahead)
    ensures r.Err? ==> !m.ObjectAt(ahead.x, ahead.y).UnitThere? && !(0 <= ahead.y < |m.navigationIndex|)
  {
    var item := m.ObjectAt(ahead.x, ahead.y);
    if MovingUnitAt(m, ahead) then Ok(if HeadOn(m, facing, ahead) then 1 else 2)
    else if item.UnitThere? || (item.BuildingThere? && !item.b.passable) then Ok(1)
    else if !(0 <= ahead.y < |m.navigationIndex|) then Err(NoIndexRow)
    else if Passable(m, ahead) then Ok(0)
    else Ok(1)
  }

  /**
   * The offsets findFreeDirection tries: straight on, then up to four steps
   * one way and three the other, the positive offsets first when the
   * preferred heading is numbered higher than the unit's current one. The
   * comparison is plain on 0..7 and ignores wrap-around, so preferred 0
   * against current 7 tries the negative offsets first.
   */
  function Offsets(clockwiseFirst: bool): (r: seq<int>)
    ensures |r| == 8 && r[0] == 0 && forall k :: 0 <= k < 8 ==> -4 <= r[k] <= 4
  {
    if clockwiseFirst then [0, 1, 2, 3, 4, -1, -2, -3] else [0, -1, -2, -3, -4, 1, 2, 3]
  }

  /** The first offset from index k on whose cell the unit is free to move (None if none is), stopping at a throw. */
  function FirstFree(m: Map, facing: int, at: int -> Position, offsets: seq<int>, k: nat): (r: Result<Option<int>, Failure>)
    requires k <= |offsets|
    reads m, UnitsOn(m.units)
    decreases |offsets| - k
  {
    if k == |offsets| then Ok(None)
    else match IsFree(m, facing, at(offsets[k]))
      case Err(e) => Err(e)
      case Ok(free) => if free then Ok(Some(offsets[k])) else FirstFree(m, facing, at, offsets, k + 1)
  }

  /**
   * The search finds an offset only where the unit is free to move, one with
   * no earlier free offset, and finds none only when no offset is free.
   */
  lemma {:induction false} FirstFreeMeans(m: Map, facing: int, at: int -> Position, offsets: seq<int>, k: nat)
    requires k <= |offsets|
    ensures var r := FirstFree(m, facing, at, offsets, k);
      (r.Ok? && r.value.Some? ==>
         exists j :: k <= j < |offsets| && offsets[j] == r.value.value && IsFree(m, facing, at(offsets[j])) == Ok(true) &&
                     forall i :: k <= i < j ==> IsFree(m, facing, at(offsets[i])) == Ok(false)) &&
      (r == Ok(None) <==> forall i :: k <= i < |offsets| ==> IsFree(m, facing, at(offsets[i])) == Ok(false))
    decreases |offsets| - k
  {
    if k < |offsets| {
      FirstFreeMeans(m, facing, at, offsets, k + 1);
    }
  }

  /**
   * findFreeDirection's promise: 0 when straight on is free, otherwise an
   * offset in [-4, 4] on whose cell the unit is free to move, or none.
   */
  lemma FindFreeRange(m: Map, facing: int, at: int -> Position, clockwiseFirst: bool)
    ensures var r := FirstFree(m, facing, at, Offsets(clockwiseFirst), 0);
      (IsFree(m, facing, at(0)) == Ok(true) ==> r == Ok(Some(0))) &&
      (r.Ok? && r.value.Some? ==> -4 <= r.value.value <= 4 && IsFree(m, facing, at(r.value.value)) == Ok(true))
  {
    FirstFreeMeans(m, facing, at, Offsets(clockwiseFirst), 0);
  }

  /**
   * findFreeDirection for a unit facing `facing` whose earlier heading was
   * `preferred`; `at` gives the cell at each turning offset.
   */
  method FindFreeDirection(m: Map, facing: int, preferred: int, at: int -> Position) returns (r: Result<Option<int>, Failure>)
    ensures r == FirstFree(m, facing, at, Offsets(preferred > facing), 0)
  {
    ghost var offsets := Offsets(preferred > facing);
    var free := IsFree(m, facing, at(0));
    if free.Err? {
      return Err(free.error);
    } else if free.value {
      return Ok(Some(0));
    }
    var sign := if preferred > facing then 1 else -1;
    var direction := 1;
    while direction < 5
      invariant 1 <= direction <= 5
      invariant FirstFree(m, facing, at, offsets, 0) == FirstFree(m, facing, at, offsets, direction)
    {
      free := IsFree(m, facing, at(sign * direction));
      if free.Err? {
        return Err(free.error);
      } else if free.value {
        return Ok(Some(sign * direction));
      }
      direction := direction + 1;
    }
    direction := 1;
    while direction < 4
      invariant 1 <= direction <= 4
      invariant FirstFree(m, facing, at, offsets, 0) == FirstFree(m, facing, at, offsets, 4 + direction)
    {
      free := IsFree(m, facing, at(-sign * direction));
      if free.Err? {
        return Err(free.error);
      } else if free.value {
        return Ok(Some(-sign * direction));
      }
      direction := direction + 1;
    }
    r := Ok(None);
  }

  // ---------------------------------------------------------------- driving the units

  /** The unit fields handleTick reads and writes, besides those of the action handlers. */
  datatype Drive = Drive(firingTimer: int, firingSpeed: int, turnSpeed: int, turning: Turning)

  function DriveOf(u: Unit): Drive
    reads u`firingTimer, u`firingSpeed, u`direction, u`turningAzimuth, u`turningProgress, u`action
  {
    Drive(u.firingTimer, u.firingSpeed, u.turnSpeed, Turning(u.direction, u.turningAzimuth, u.turningProgress, u.action))
  }

  predicate Supported(action: int) {
    0 <= action <= 7
  }

  /**
   * One unit's turn in handleTick: the firing timer, then the switch on the
   * action. A new unit starts standing, a turning one turns; the handlers of
   * the other actions are not part of this model and leave these fields
   * as they are. An unsupported action gets only the timer step before
   * the switch throws.
   */
  function Ticked(d: Drive): (r: Drive)
    ensures r.firingTimer == FiringTimer(d.firingTimer, d.firingSpeed)
    ensures r.firingSpeed == d.firingSpeed && r.turnSpeed == d.turnSpeed
    ensures d.turning.action == 0 ==> r.turning == d.turning.(action := 4)
    ensures d.turning.action == 6 ==> r.turning == Turn(d.turning, d.turnSpeed)
    ensures d.turning.action != 0 && d.turning.action != 6 ==> r.turning == d.turning
  {
    var timed := d.(firingTimer := FiringTimer(d.firingTimer, d.firingSpeed));
    if d.turning.action == 0 then timed.(turning := d.turning.(action := 4))
    else if d.turning.action == 6 then timed.(turning := Turn(d.turning, d.turnSpeed))
    else timed
  }

  /** The units of a list. */
  function UnitSet(list: seq<Unit>): set<Unit> {
    set k | 0 <= k < |list| :: list[k]
  }

  predicate DistinctList(list: seq<Unit>) {
    forall i, j :: 0 <= i < j < |list| ==> list[i] != list[j]
  }

  /** The drive fields of every unit of the list. */
  function Drives(list: seq<Unit>): (r: seq<Drive>)
    reads UnitSet(list)`firingTimer, UnitSet(list)`firingSpeed, UnitSet(list)`direction
    reads UnitSet(list)`turningAzimuth, UnitSet(list)`turningProgress, UnitSet(list)`action
    ensures |r| == |list| && forall k :: 0 <= k < |list| ==> r[k] == DriveOf(list[k])
  {
    if list == [] then []
    else
      assert UnitSet(list[..|list| - 1]) <= UnitSet(list) && list[|list| - 1] in UnitSet(list);
      Drives(list[..|list| - 1]) + [DriveOf(list[|list| - 1])]
  }

  /** The index of the last unit among the first n whose action is unsupported, or -1. */
  function LastUnsupported(drives: seq<Drive>, n: nat): (k: int)
    requires n <= |drives|
    ensures -1 <= k < n
    ensures k >= 0 ==> !Supported(drives[k].turning.action)
    ensures forall j :: k < j < n ==> Supported(drives[j].turning.action)
  {
    if n == 0 then -1
    else if !Supported(drives[n - 1].turning.action) then n - 1
    else LastUnsupported(drives, n - 1)
  }

  // ---------------------------------------------------------------- the plug-in

  /** The calls on the effects renderer. */
  datatype Display =
    | SetSelectedUnits(units: seq<Unit>)
    | SetSelectedBuilding(building: Building?)

  /** The unit the unit index holds on cell (x, y), or null: what getObjectAt finds there first. */
  function UnitOn(units: seq<seq<Unit?>>, x: int, y: int): Unit? {
    if 0 <= y < |units| && 0 <= x < |units[y]| then units[y][x] else null
  }

  /** The box select's pick on one cell: the unit on it when it is the player's. */
  function Pick(units: seq<seq<Unit?>>, player: int, x: int, y: int): seq<Unit> {
    var u := UnitOn(units, x, y);
    if u != null && u.player == player then [u] else []
  }

  /** The picks of row y over the first n columns from `left`, the last column first. */
  function RowPicks(units: seq<seq<Unit?>>, player: int, left: int, y: int, n: nat): seq<Unit> {
    if n == 0 then [] else Pick(units, player, left + n - 1, y) + RowPicks(units, player, left, y, n - 1)
  }

  /** The picks of the first n rows from `top`, the last row first. */
  function BoxPicks(units: seq<seq<Unit?>>, player: int, left: int, top: int, width: nat, n: nat): seq<Unit> {
    if n == 0 then [] else RowPicks(units, player, left, top + n - 1, width) + BoxPicks(units, player, left, top, width, n - 1)
  }

  /** The box of y + 1 rows is its row top + y followed by the box of y rows. */
  lemma BoxUnfold(units: seq<seq<Unit?>>, player: int, left: int, top: int, width: nat, y: nat)
    ensures BoxPicks(units, player, left, top, width, y + 1) ==
            RowPicks(units, player, left, top + y, width) + BoxPicks(units, player, left, top, width, y)
  {
  }

  /** The unit is the player's and stands on one of the first n cells of row y from `left`. */
  predicate OnRow(units: seq<seq<Unit?>>, player: int, left: int, y: int, n: nat, u: Unit) {
    u.player == player && exists x :: left <= x < left + n && UnitOn(units, x, y) == u
  }

  /** The unit is the player's and stands on a cell of the box of the first n rows from `top`. */
  predicate OnBox(units: seq<seq<Unit?>>, player: int, left: int, top: int, width: nat, n: nat, u: Unit) {
    u.player == player && exists x, y :: left <= x < left + width && top <= y < top + n && UnitOn(units, x, y) == u
  }

  /** A row picks exactly the player's units on its cells. */
  lemma {:induction false} RowPicksMeans(units: seq<seq<Unit?>>, player: int, left: int, y: int, n: nat, u: Unit)
    ensures u in RowPicks(units, player, left, y, n) <==> OnRow(units, player, left, y, n, u)
  {
    if n > 0 {
      RowPicksMeans(units, player, left, y, n - 1, u);
      var x := left + n - 1;
      assert u in Pick(units, player, x, y) <==> UnitOn(units, x, y) == u && u.player == player;
      assert OnRow(units, player, left, y, n, u) <==>
             OnRow(units, player, left, y, n - 1, u) || (UnitOn(units, x, y) == u && u.player == player);
    }
  }

  /** The box of n rows is the box of n - 1 rows and its last row. */
  lemma OnBoxStep(units: seq<seq<Unit?>>, player: int, left: int, top: int, width: nat, n: nat, u: Unit)
    requires n > 0
    ensures OnBox(units, player, left, top, width, n, u) <==>
            OnBox(units, player, left, top, width, n - 1, u) || OnRow(units, player, left, top + n - 1, width, u)
  {
    var y := top + n - 1;
    if OnRow(units, player, left, y, width, u) {
      var x :| left <= x < left + width && UnitOn(units, x, y) == u;
      assert top <= y < top + n;
    }
    if OnBox(units, player, left, top, width, n, u) {
      var x', y' :| left <= x' < left + width && top <= y' < top + n && UnitOn(units, x', y') == u;
      if y' == y {
        assert OnRow(units, player, left, y, width, u);
      }
    }
  }

  /** The unit is among the picks of one of the first n rows from `top`. */
  predicate InRows(units: seq<seq<Unit?>>, player: int, left: int, top: int, width: nat, n: nat, u: Unit) {
    n > 0 && (u in RowPicks(units, player, left, top + n - 1, width) || InRows(units, player, left, top, width, n - 1, u))
  }

  /** The box picks are the row picks, row by row. */
  lemma {:induction false} BoxPicksRows(units: seq<seq<Unit?>>, player: int, left: int, top: int, width: nat, n: nat, u: Unit)
    ensures u in BoxPicks(units, player, left, top, width, n) <==> InRows(units, player, left, top, width, n, u)
  {
    if n > 0 {
      BoxPicksRows(units, player, left, top, width, n - 1, u);
      Seqs.InAppend(RowPicks(units, player, left, top + n - 1, width), BoxPicks(units, player, left, top, width, n - 1), u);
    }
  }

  /** Standing on one of the rows is standing on a cell of the box. */
  lemma {:induction false} InRowsMeans(units: seq<seq<Unit?>>, player: int, left: int, top: int, width: nat, n: nat, u: Unit)
    ensures InRows(units, player, left, top, width, n, u) <==> OnBox(units, player, left, top, width, n, u)
  {
    if n > 0 {
      InRowsMeans(units, player, left, top, width, n - 1, u);
      RowPicksMeans(units, player, left, top + n - 1, width, u);
      OnBoxStep(units, player, left, top, width, n, u);
    } else {
      assert !OnBox(units, player, left, top, width, 0, u);
    }
  }

  /** The box select picks exactly the player's units standing on the cells of the box. */
  lemma BoxPicksMeans(units: seq<seq<Unit?>>, player: int, left: int, top: int, width: nat, n: nat, u: Unit)
    ensures u in BoxPicks(units, player, left, top, width, n) <==> OnBox(units, player, left, top, width, n, u)
  {
    BoxPicksRows(units, player, left, top, width, n, u);
    InRowsMeans(units, player, left, top, width, n, u);
  }

  /** getObjectAt finds a unit on a cell exactly when the unit index holds one there. */
  lemma ObjectAtUnit(m: Map, x: int, y: int)
    ensures m.ObjectAt(x, y).UnitThere? <==> UnitOn(m.units, x, y) != null
    ensures m.ObjectAt(x, y).UnitThere? ==> m.ObjectAt(x, y).u == UnitOn(m.units, x, y)
  {
  }

  function Min(a: int, b: int): int {
    if a < b then a else b
  }

  class UnitAIPlugin {
    const gameMap: Map
    const playerId: int
    var selectedUnits: seq<Unit>
    var display: seq<Display>

    constructor (gameMap: Map, playerId: int)
      ensures this.gameMap == gameMap && this.playerId == playerId
      ensures selectedUnits == [] && display == []
    {
      this.gameMap := gameMap;
      this.playerId := playerId;
      selectedUnits := [];
      display := [];
    }

    /** The inner loop of onLeftMouseButtonBoxSelect over one row. */
    method PickRow(left: int, y: int, width: nat) returns (picked: seq<Unit>)
      ensures picked == RowPicks(gameMap.units, playerId, left, y, width)
    {
      picked := [];
      Seqs.EmptyAppend(RowPicks(gameMap.units, playerId, left, y, width));
      var x := width;
      while x > 0
        invariant 0 <= x <= width
        invariant RowPicks(gameMap.units, playerId, left, y, width) == picked + RowPicks(gameMap.units, playerId, left, y, x)
      {
        x := x - 1;
        var atTile := gameMap.ObjectAt(x + left, y);
        ObjectAtUnit(gameMap, x + left, y);
        ghost var here := Pick(gameMap.units, playerId, left + x, y);
        assert RowPicks(gameMap.units, playerId, left, y, x + 1) == here + RowPicks(gameMap.units, playerId, left, y, x);
        Seqs.Associative(picked, here, RowPicks(gameMap.units, playerId, left, y, x));
        if atTile.UnitThere? && atTile.u.player == playerId {
          picked := picked + [atTile.u];
        }
      }
    }

    /** The two loops of onLeftMouseButtonBoxSelect over the box of that corner and size. */
    method PickBox(left: int, top: int, width: nat, height: nat) returns (picked: seq<Unit>)
      ensures picked == BoxPicks(gameMap.units, playerId, left, top, width, height)
    {
      picked := [];
      Seqs.EmptyAppend(BoxPicks(gameMap.units, playerId, left, top, width, height));
      var y := height;
      while y > 0
        invariant 0 <= y <= height
        invariant BoxPicks(gameMap.units, playerId, left, top, width, height) ==
                  picked + BoxPicks(gameMap.units, playerId, left, top, width, y)
      {
        y := y - 1;
        var row := PickRow(left, top + y, width);
        BoxUnfold(gameMap.units, playerId, left, top, width, y);
        Seqs.Associative(picked, row, BoxPicks(gameMap.units, playerId, left, top, width, y));
        picked := picked + row;
      }
    }

    /**
     * onLeftMouseButtonBoxSelect: the player's units in the box spanned by
     * the two corners, row by row from the bottom right; a box with none of
     * them leaves the selection as it was.
     */
    method OnLeftMouseButtonBoxSelect(startX: int, startY: int, endX: int, endY: int)
      modifies this`selectedUnits, this`display
      ensures var picks := BoxPicks(gameMap.units, playerId, Min(startX, endX), Min(startY, endY),
                                    Abs(startX - endX) + 1, Abs(startY - endY) + 1);
        if |picks| > 0 then
          selectedUnits == picks && display == old(display) + [SetSelectedUnits(picks), SetSelectedBuilding(null)]
        else
          selectedUnits == old(selectedUnits) && display == old(display)
    {
      var picked := PickBox(Min(startX, endX), Min(startY, endY), Abs(startX - endX) + 1, Abs(startY - endY) + 1);
      if |picked| > 0 {
        display := display + [SetSelectedUnits(picked), SetSelectedBuilding(null)];
        selectedUnits := picked;
      }
    }

    /** turnUnit on the unit's own fields. */
    static method TurnUnit(u: Unit)
      modifies u`action, u`turningProgress, u`direction, u`turningAzimuth
      ensures var t := Turn(old(Turning(u.direction, u.turningAzimuth, u.turningProgress, u.action)), u.turnSpeed);
              u.direction == t.direction && u.turningAzimuth == t.azimuth &&
              u.turningProgress == t.progress && u.action == t.action
    {
      if u.turningAzimuth == 0 {
        u.action := 4;
        return;
      }
      var progress := if u.turningProgress + u.turnSpeed < 1000 then u.turningProgress + u.turnSpeed else 1000;
      u.turningProgress := progress;
      if progress < 1000 {
        return;
      }
      if u.turningAzimuth > 0 {
        u.direction := Rem(u.direction + 1, 8);
        u.turningAzimuth := u.turningAzimuth - 1;
      } else {
        u.direction := u.direction - 1;
        if u.direction == -1 {
          u.direction := 7;
        }
        u.turningAzimuth := u.turningAzimuth + 1;
      }
      u.turningProgress := 0;
    }

    /**
     * trimUnitWaypoints: a unit with waypoints keeps only one, moved to the
     * unit's own cell, which becomes its move target; a unit without any is
     * left as it is.
     */
    static method TrimUnitWaypoints(u: Unit)
      modifies u`waypoints, u`moveTargetX, u`moveTargetY
      ensures old(u.waypoints) == [] ==> u.waypoints == [] && u.moveTargetX == old(u.moveTargetX) && u.moveTargetY == old(u.moveTargetY)
      ensures old(u.waypoints) != [] ==>
                u.waypoints == [Position(u.x, u.y)] && u.moveTargetX == Some(u.x) && u.moveTargetY == Some(u.y)
    {
      if |u.waypoints| > 0 {
        if |u.waypoints| > 1 {
          u.waypoints := u.waypoints[..1];
        }
        u.waypoints := u.waypoints[0 := Position(u.x, u.y)];
        u.moveTargetX := Some(u.x);
        u.moveTargetY := Some(u.y);
      }
    }

    /** One pass of handleTick's loop: the timer step, then the switch. */
    static method TickUnit(u: Unit) returns (r: Result<(), Failure>)
      modifies u`firingTimer, u`action, u`turningProgress, u`direction, u`turningAzimuth
      ensures DriveOf(u) == Ticked(old(DriveOf(u)))
      ensures r.Err? <==> !Supported(old(u.action))
      ensures r.Err? ==> r.error == UnsupportedAction(old(u.action))
    {
      if u.firingTimer < 1000 {
        u.firingTimer := if u.firingTimer + u.firingSpeed < 1000 then u.firingTimer + u.firingSpeed else 1000;
      }
      if u.action == 0 {
        u.action := 4;
      } else if u.action == 6 {
        TurnUnit(u);
      } else if !Supported(u.action) {
        return Err(UnsupportedAction(u.action));
      }
      r := Ok(());
    }

    /**
     * handleTick over the map's units, the last one first: every unit down
     * to the last one whose action is unsupported takes its turn, and that
     * one throws after its timer step; the units before it keep their fields.
     */
    /** The tick of the unit at i, the units above it having had theirs. */
    static method TickAt(units: seq<Unit>, i: nat, u: Unit, ghost drives: seq<Drive>) returns (r: Result<(), Failure>)
      requires DistinctList(units) && i < |units| == |drives| && u == units[i]
      requires forall k :: 0 <= k < |units| ==> DriveOf(units[k]) == if k > i then Ticked(drives[k]) else drives[k]
      modifies u`firingTimer, u`action, u`turningProgress, u`direction, u`turningAzimuth
      ensures forall k :: 0 <= k < |units| ==> DriveOf(units[k]) == if k >= i then Ticked(drives[k]) else drives[k]
      ensures r.Err? <==> !Supported(drives[i].turning.action)
      ensures r.Err? ==> r.error == UnsupportedAction(drives[i].turning.action)
    {
      r := TickUnit(u);
    }

    method HandleTick() returns (r: Result<(), Failure>)
      requires DistinctList(gameMap.unitsList)
      modifies UnitSet(gameMap.unitsList)`firingTimer, UnitSet(gameMap.unitsList)`action
      modifies UnitSet(gameMap.unitsList)`turningProgress, UnitSet(gameMap.unitsList)`direction
      modifies UnitSet(gameMap.unitsList)`turningAzimuth
      ensures var list, drives := gameMap.unitsList, old(Drives(gameMap.unitsList));
        var stop := LastUnsupported(drives, |list|);
        (r.Err? <==> stop >= 0) && (r.Err? ==> r.error == UnsupportedAction(drives[stop].turning.action)) &&
        forall k :: 0 <= k < |list| ==> DriveOf(list[k]) == if k >= stop then Ticked(drives[k]) else drives[k]
    {
      var units := gameMap.unitsList;
      ghost var drives := Drives(units);
      var i := |units|;
      while i > 0
        invariant 0 <= i <= |units|
        invariant forall k :: i <= k < |units| ==> Supported(drives[k].turning.action)
        invariant forall k :: 0 <= k < |units| ==> DriveOf(units[k]) == if k >= i then Ticked(drives[k]) else drives[k]
      {
        i := i - 1;
        var unit := units[i];
        assert unit in UnitSet(units);
        r := TickAt(units, i, unit, drives);
        if r.Err? {
          assert LastUnsupported(drives, |units|) == i by {
            LastIs(drives, |units|, i);
          }
          return;
        }
      }
      assert LastUnsupported(drives, |units|) == -1 by {
        LastIs(drives, |units|, -1);
      }
      r := Ok(());
    }
  }

  /** The last unsupported index is the one below which the search stopped. */
  lemma {:induction false} LastIs(drives: seq<Drive>, n: nat, k: int)
    requires n <= |drives| && -1 <= k < n
    requires k >= 0 ==> !Supported(drives[k].turning.action)
    requires forall j :: k < j < n ==> Supported(drives[j].turning.action)
    ensures LastUnsupported(drives, n) == k
    decreases n
  {
    if n > 0 && k < n - 1 {
      LastIs(drives, n - 1, k);
    }
  }
}
