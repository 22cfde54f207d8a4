/**
 * A unit (engine/core/unit.js): an object whose position, heading, action and
 * waypoints the game changes in place, stepping on the staggered isometric
 * grid of the map. Odd rows are shifted half a tile to the right, so a
 * diagonal step changes x only on one parity of row; the parity is taken
 * with JavaScript's `%`, which keeps the sign of the row number.
 *
 * The unit AI and the projectiles also store fields on the unit object that
 * the constructor never sets (firingTimer, firingSpeed, turningAzimuth,
 * turningProgress, hitpoints, target); they are fields here as well, and the
 * constructor leaves them unconstrained.
 *
 * The definition table (UnitsDefinition) is a parameter: `types[k]` is the
 * definition of type k. The owning player's colour is passed in by the caller.
 */
module Units {
  import opened Wrappers
  import opened JsText
  import Buildings

  datatype UnitDefinition = UnitDefinition(
    image: string, speed: int, turnSpeed: int, colorify: string, colorifyDistance: int,
    race: Option<int>, powerRequirement: int)

  /** A map cell. */
  datatype Position = Position(x: int, y: int)

  /** What exportData returns. */
  datatype UnitData = UnitData(x: int, y: int, direction: int, typ: int, player: int)

  /** What a unit is attacking. */
  datatype Target = NoTarget | UnitTarget(u: Unit) | BuildingTarget(b: Buildings.Building)

  datatype Failure =
    | UnknownType   // UnitsDefinition.getType gave undefined, so reading definition.image throws

  /** One step in a direction 0..7 (north, north-east, ..., clockwise); any other direction stays put. */
  function Step(p: Position, direction: int): (r: Position)
    ensures direction == 0 || direction == 4 ==> r.x == p.x && r.y == p.y + (if direction == 0 then -2 else 2)
    ensures direction == 2 || direction == 6 ==> r.y == p.y && r.x == p.x + (if direction == 2 then 1 else -1)
    ensures !(0 <= direction < 8) ==> r == p
  {
    var odd := Rem(p.y, 2);
    match direction
    case 0 => Position(p.x, p.y - 2)
    case 1 => Position(p.x + odd, p.y - 1)
    case 2 => Position(p.x + 1, p.y)
    case 3 => Position(p.x + odd, p.y + 1)
    case 4 => Position(p.x, p.y + 2)
    case 5 => Position(p.x - (1 - odd), p.y + 1)
    case 6 => Position(p.x - 1, p.y)
    case 7 => Position(p.x - (1 - odd), p.y - 1)
    case _ => p
  }

  /** `n` steps in the same direction. */
  function Walk(p: Position, direction: int, n: nat): Position {
    if n == 0 then p else Step(Walk(p, direction, n - 1), direction)
  }

  /** move(distance) takes `distance` steps, and one step when `distance` is at most 1. */
  function StepCount(distance: int): (n: nat)
    ensures n >= 1 && (distance >= 1 ==> n == distance)
  {
    if distance > 1 then distance else 1
  }

  function Opposite(direction: int): int {
    (direction + 4) % 8
  }

  /** On rows at or below row 2, a step and a step back return to the cell. */
  lemma StepBack(p: Position, direction: int)
    requires 0 <= direction < 8 && p.y >= 2
    ensures Step(Step(p, direction), Opposite(direction)) == p
  {
    var q := Step(p, direction);
    assert Rem(p.y - 1, 2) == 1 - Rem(p.y, 2) && Rem(p.y + 1, 2) == 1 - Rem(p.y, 2);
  }

  /** A step moves at most two rows. */
  lemma StepRows(p: Position, direction: int)
    ensures p.y - 2 <= Step(p, direction).y <= p.y + 2
  {
  }

  lemma {:induction false} WalkRows(p: Position, direction: int, n: nat)
    ensures Walk(p, direction, n).y >= p.y - 2 * n
  {
    if n > 0 {
      WalkRows(p, direction, n - 1);
      StepRows(Walk(p, direction, n - 1), direction);
    }
  }

  /** The first step can be taken first. */
  lemma {:induction false} WalkAfterStep(p: Position, direction: int, n: nat)
    requires n >= 1
    ensures Walk(p, direction, n) == Walk(Step(p, direction), direction, n - 1)
  {
    if n > 1 {
      WalkAfterStep(p, direction, n - 1);
    }
  }

  /** Far enough from the top edge, walking n steps back undoes walking n steps. */
  lemma {:induction false} WalkBack(p: Position, direction: int, n: nat)
    requires 0 <= direction < 8 && p.y >= 2 * n
    ensures Walk(Walk(p, direction, n), Opposite(direction), n) == p
  {
    if n > 0 {
      var q := Walk(p, direction, n - 1);
      WalkRows(p, direction, n - 1);
      StepBack(q, direction);
      WalkAfterStep(Step(q, direction), Opposite(direction), n);
      WalkBack(p, direction, n - 1);
    }
  }

  class Unit {
    const id: int
    var x: int
    var y: int
    var lastX: int
    var lastY: int
    var direction: int
    const typ: int
    const image: string
    const speed: int
    const turnSpeed: int
    var action: int
    const player: int
    const colorify: string
    const colorifyDistance: int
    const race: Option<int>
    var moveOffset: int
    var moveTargetX: Option<int>
    var moveTargetY: Option<int>
    var waypoints: seq<Position>
    const color: string
    // stored on the object by the unit AI and the projectiles
    var firingTimer: int
    var firingSpeed: int
    var turningAzimuth: int
    var turningProgress: int
    var hitpoints: int
    var target: Target

    predicate Copies(d: UnitDefinition) {
      image == d.image && speed == d.speed && turnSpeed == d.turnSpeed &&
      colorify == d.colorify && colorifyDistance == d.colorifyDistance && race == d.race
    }

    /** The body of `new Unit(x, y, direction, type, player, color)` once the id and the definition are known. */
    constructor (id: int, x: int, y: int, direction: int, typ: int, player: int, d: UnitDefinition, color: string)
      ensures this.id == id && this.x == x && this.y == y && this.direction == direction
      ensures this.typ == typ && this.player == player && Copies(d) && this.color == color
      ensures lastX == x && lastY == y && action == 0 && moveOffset == 0
      ensures moveTargetX == None && moveTargetY == None && waypoints == []
    {
      this.id := id;
      this.x := x;
      this.y := y;
      this.lastX := x;
      this.lastY := y;
      this.direction := direction;
      this.typ := typ;
      this.image := d.image;
      this.speed := d.speed;
      this.turnSpeed := d.turnSpeed;
      this.action := 0;
      this.player := player;
      this.colorify := d.colorify;
      this.colorifyDistance := d.colorifyDistance;
      this.race := d.race;
      this.moveOffset := 0;
      this.moveTargetX := None;
      this.moveTargetY := None;
      this.waypoints := [];
      this.color := color;
    }

    /**
     * move(distance): the steps first, then the position before the whole
     * move recorded as the last one; the unit is left in action 2 (it has
     * released its old cell) with no move offset.
     */
    method Move(distance: int)
      modifies this`x, this`y, this`lastX, this`lastY, this`moveOffset, this`action
      decreases distance
      ensures Position(x, y) == Walk(Position(old(x), old(y)), direction, StepCount(distance))
      ensures lastX == old(x) && lastY == old(y) && action == 2 && moveOffset == 0
    {
      var startX, startY := x, y;
      if distance > 1 {
        Move(distance - 1);
      }
      lastX := startX;
      lastY := startY;
      // the switch on the direction
      var next := Step(Position(x, y), direction);
      x, y := next.x, next.y;
      moveOffset := 0;
      action := 2;
    }

    /** exportData: position, heading, type and owner. */
    function ExportData(): (r: UnitData)
      reads this
      ensures r.x == x && r.y == y && r.direction == direction && r.typ == typ && r.player == player
    {
      UnitData(x, y, direction, typ, player)
    }
  }

  /** The module-level `id` variable every new unit takes its id from. */
  class UnitIds {
    var next: int

    constructor ()
      ensures next == 0
    {
      next := 0;
    }

    /** new Unit(x, y, direction, type, player, color); the id is taken before the definition is read. */
    method NewUnit(types: seq<UnitDefinition>, x: int, y: int, direction: int, typ: int, player: int,
                   color: Option<string>, playerColor: string) returns (r: Result<Unit, Failure>)
      modifies this
      ensures next == old(next) + 1
      ensures r.Ok? <==> 0 <= typ < |types|
      ensures r.Ok? ==> fresh(r.value) && r.value.id == old(next) && r.value.Copies(types[typ])
      ensures r.Ok? ==> r.value.ExportData() == UnitData(x, y, direction, typ, player)
      ensures r.Ok? ==> r.value.lastX == x && r.value.lastY == y && r.value.action == 0
      ensures r.Ok? ==> r.value.moveOffset == 0 && r.value.waypoints == []
      ensures r.Ok? ==> r.value.color == (if color.Some? then color.value else playerColor)
    {
      var id := next;
      next := next + 1;
      if !(0 <= typ < |types|) {
        return Err(UnknownType);
      }
      var u := new Unit(id, x, y, direction, typ, player, types[typ], if color.Some? then color.value else playerColor);
      return Ok(u);
    }

    /** Unit.importData: a new unit, of its owner's colour, with the exported fields. */
    method ImportData(types: seq<UnitDefinition>, data: UnitData, playerColor: string) returns (r: Result<Unit, Failure>)
      modifies this
      ensures next == old(next) + 1
      ensures r.Ok? <==> 0 <= data.typ < |types|
      ensures r.Ok? ==> fresh(r.value) && r.value.id == old(next) && r.value.ExportData() == data
      ensures r.Ok? ==> r.value.Copies(types[data.typ]) && r.value.color == playerColor && r.value.action == 0
    {
      r := NewUnit(types, data.x, data.y, data.direction, data.typ, data.player, None, playerColor);
    }
  }
}
