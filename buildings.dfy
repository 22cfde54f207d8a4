/**
 * A building on the map (engine/core/building.js). The constructor copies the
 * properties of the building's type from the definition table; hitpoints,
 * the position and the unit-production flag are the only fields the game
 * later changes in place (the repairer, the projectiles, the building
 * control and the unit AI all hold the same building object), so a building
 * is an object. The instance ids come from a counter shared by all
 * buildings, modelled as an object of its own.
 *
 * The definition table (BuildingsDefinition) is a parameter: `types[k]` is the
 * definition of type k. The owning player's colour (Player.getPlayer(p).color)
 * is passed in by the caller.
 */
module Buildings {
  import opened Wrappers

  /** What a building type's construction costs: resources per step, progress per step (of 1000). */
  datatype Construction = Construction(step: seq<int>, stepProgress: int)

  /** What one repair step costs and restores. */
  datatype Repair = Repair(resources: seq<int>, hitpoints: int)

  datatype BuildingDefinition = BuildingDefinition(
    name: string, image: string, width: int, height: int, hitpoints: int,
    colorify: string, colorifyDistance: int, passable: bool, race: Option<int>, isCentral: bool,
    resource: Option<int>, powerRequirement: int, construction: Construction, repair: Repair)

  /** What exportData returns. */
  datatype BuildingData = BuildingData(
    x: int, y: int, typ: int, player: int, hitpoints: int, isSelectedUnitProductionBuilding: bool)

  datatype Failure =
    | UnknownType   // BuildingsDefinition.getType gave undefined, so reading definition.name throws
    | MissingValue  // a packed building of fewer than five elements leaves hitpoints undefined

  /** toPackedJson's array: [x, y, type, player, hitpoints, flag ? 1 : 0]. */
  function Pack(d: BuildingData): (r: seq<int>)
    ensures |r| == 6 && (r[5] == 0 || r[5] == 1)
  {
    [d.x, d.y, d.typ, d.player, d.hitpoints, if d.isSelectedUnitProductionBuilding then 1 else 0]
  }

  /**
   * The fields fromPackedJson reads back: the first five elements, and the
   * truthiness of the sixth (`!!data[5]`, false when it is missing).
   */
  function Unpack(data: seq<int>): (r: Option<BuildingData>)
    ensures r.Some? <==> |data| >= 5
  {
    if |data| < 5 then None
    else Some(BuildingData(data[0], data[1], data[2], data[3], data[4], |data| > 5 && data[5] != 0))
  }

  /** The packed array gives back every exported field. */
  lemma UnpackPack(d: BuildingData)
    ensures Unpack(Pack(d)) == Some(d)
  {
    var r := Pack(d);
    assert (r[5] != 0) == d.isSelectedUnitProductionBuilding;
  }

  class Building {
    const id: int
    var x: int
    var y: int
    const typ: int
    const player: int
    const name: string
    const image: string
    const width: int
    const height: int
    var hitpoints: int
    const maxHitpoints: int
    const colorify: string
    const colorifyDistance: int
    const passable: bool
    const race: Option<int>
    const isCentral: bool
    var isSelectedUnitProductionBuilding: bool
    const color: string

    /** The fields the building copies from its type's definition. */
    predicate Copies(d: BuildingDefinition)
    {
      name == d.name && image == d.image && width == d.width && height == d.height &&
      maxHitpoints == d.hitpoints && colorify == d.colorify && colorifyDistance == d.colorifyDistance &&
      passable == d.passable && race == d.race && isCentral == d.isCentral
    }

    /** The body of `new Building(x, y, type, player, color)` once the id and the definition are known. */
    constructor (id: int, x: int, y: int, typ: int, player: int, d: BuildingDefinition, color: string)
      ensures this.id == id && this.x == x && this.y == y && this.typ == typ && this.player == player
      ensures Copies(d) && hitpoints == d.hitpoints && !isSelectedUnitProductionBuilding
      ensures this.color == color
    {
      this.id := id;
      this.x := x;
      this.y := y;
      this.name := d.name;
      this.image := d.image;
      this.width := d.width;
      this.height := d.height;
      this.hitpoints := d.hitpoints;
      this.maxHitpoints := d.hitpoints;
      this.colorify := d.colorify;
      this.colorifyDistance := d.colorifyDistance;
      this.typ := typ;
      this.passable := d.passable;
      this.race := d.race;
      this.isCentral := d.isCentral;
      this.isSelectedUnitProductionBuilding := false;
      this.player := player;
      this.color := color;
    }

    /** exportData: position, type, owner, hitpoints and the production flag. */
    function ExportData(): (r: BuildingData)
      reads this
      ensures r.x == x && r.y == y && r.hitpoints == hitpoints
      ensures r.isSelectedUnitProductionBuilding == isSelectedUnitProductionBuilding
    {
      BuildingData(x, y, typ, player, hitpoints, isSelectedUnitProductionBuilding)
    }

    /** toPackedJson: the six numbers fromPackedJson reads the exported fields back from. */
    function ToPackedJson(): (r: seq<int>)
      reads this
      ensures |r| == 6 && Unpack(r) == Some(ExportData())
    {
      UnpackPack(ExportData());
      Pack(ExportData())
    }
  }

  /** The module-level `id` variable every new building takes its id from. */
  class BuildingIds {
    var next: int

    constructor ()
      ensures next == 0
    {
      next := 0;
    }

    /**
     * new Building(x, y, type, player, color). The id is taken before the
     * definition is read, so an unknown type still uses one up.
     */
    method NewBuilding(types: seq<BuildingDefinition>, x: int, y: int, typ: int, player: int,
                       color: Option<string>, playerColor: string) returns (r: Result<Building, Failure>)
      modifies this
      ensures next == old(next) + 1
      ensures r.Ok? <==> 0 <= typ < |types|
      ensures r.Ok? ==> fresh(r.value) && r.value.id == old(next)
      ensures r.Ok? ==> r.value.x == x && r.value.y == y && r.value.typ == typ && r.value.player == player
      ensures r.Ok? ==> r.value.Copies(types[typ]) && r.value.hitpoints == r.value.maxHitpoints == types[typ].hitpoints
      ensures r.Ok? ==> !r.value.isSelectedUnitProductionBuilding
      ensures r.Ok? ==> r.value.color == (if color.Some? then color.value else playerColor)
    {
      var id := next;
      next := next + 1;
      if !(0 <= typ < |types|) {
        return Err(UnknownType);
      }
      var b := new Building(id, x, y, typ, player, types[typ], if color.Some? then color.value else playerColor);
      return Ok(b);
    }

    /** Building.importData: a new building of the owner's colour carrying the exported fields. */
    method ImportData(types: seq<BuildingDefinition>, data: BuildingData, playerColor: string)
      returns (r: Result<Building, Failure>)
      modifies this
      ensures next == old(next) + 1
      ensures r.Ok? <==> 0 <= data.typ < |types|
      ensures r.Ok? ==> fresh(r.value) && r.value.id == old(next) && r.value.ExportData() == data
      ensures r.Ok? ==> r.value.Copies(types[data.typ]) && r.value.color == playerColor
    {
      r := NewBuilding(types, data.x, data.y, data.typ, data.player, None, playerColor);
      if r.Ok? {
        r.value.hitpoints := data.hitpoints;
        r.value.isSelectedUnitProductionBuilding := data.isSelectedUnitProductionBuilding;
      }
    }

    /** Building.fromPackedJson. */
    method FromPackedJson(types: seq<BuildingDefinition>, data: seq<int>, playerColor: string)
      returns (r: Result<Building, Failure>)
      modifies this
      ensures next == old(next) + 1
      ensures r.Ok? <==> |data| >= 5 && 0 <= data[2] < |types|
      ensures r.Ok? ==> fresh(r.value) && r.value.id == old(next) && Unpack(data) == Some(r.value.ExportData())
      ensures r.Ok? ==> r.value.Copies(types[data[2]]) && r.value.color == playerColor
    {
      if |data| < 5 {
        next := next + 1;
        return if |data| >= 3 && 0 <= data[2] < |types| then Err(MissingValue) else Err(UnknownType);
      }
      r := NewBuilding(types, data[0], data[1], data[2], data[3], None, playerColor);
      if r.Ok? {
        r.value.hitpoints := data[4];
        r.value.isSelectedUnitProductionBuilding := |data| > 5 && data[5] != 0;
      }
    }
  }

  /** A building restored from its packed array is the original except for its id and colour. */
  method PackedRoundTrip(ids: BuildingIds, types: seq<BuildingDefinition>, b: Building, playerColor: string)
    returns (copy: Result<Building, Failure>)
    requires 0 <= b.typ < |types| && b.Copies(types[b.typ])
    modifies ids
    ensures copy.Ok? && copy.value.ExportData() == b.ExportData() && copy.value.Copies(types[b.typ])
  {
    var data := b.ToPackedJson();
    copy := ids.FromPackedJson(types, data, playerColor);
  }
}
