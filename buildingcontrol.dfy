/**
 * The building control plug-in
 * (engine/gameplay-plugins/event-driven-plugins/buildingcontrol.js): the sell
 * and repair modes, placing a newly constructed building, selecting and
 * selling buildings.
 *
 * The map, the human player's id, the building definition table and the two
 * configuration values (the construction distance and the refund factor) are
 * given at construction; in the source they arrive with the
 * gameMapInitialization and playerInitialization events and from the
 * settings. What the plug-in asks of the effects renderer and of the view is
 * recorded in `display`, and the events it sends in `sent`.
 */
module BuildingControl {
  import opened Wrappers
  import opened Buildings
  import opened Units
  import opened GameMap

  datatype Event =
    | BuildingPlaced(building: Building)
    | ResourcesGained(player: int, resources: seq<real>)
    | SellModeSwitch
    | RepairModeSwitch

  /** The calls on the effects renderer (setBuildingToPlace, ...) and on the view (onBuildingChange). */
  datatype Display =
    | SetBuildingToPlace(building: Building?, allowed: bool)
    | SetMouseoverBuilding(building: Building?)
    | SetSelectedBuilding(building: Building?)
    | BuildingChanged(changed: Building)

  datatype Failure =
    | UnknownDefinition  // BuildingsDefinition.getType gave undefined, so reading its `resource` throws
    | NoIndexRow   // a tile of the building to place lies in no row of the navigation index, so indexing that row throws

  // ---------------------------------------------------------------- the modes

  datatype Modes = Modes(sell: bool, repair: bool)

  /** onSellModeSwitch: sell mode toggles; turning it on turns repair mode off. */
  function SellSwitched(m: Modes): (r: Modes)
    ensures r.sell == !m.sell
    ensures r.repair == (m.repair && m.sell)
    ensures !(r.sell && r.repair)
  {
    if m.sell then m.(sell := false) else Modes(true, false)
  }

  /** onRepairModeSwitch: repair mode toggles; turning it on turns sell mode off. */
  function RepairSwitched(m: Modes): (r: Modes)
    ensures r.repair == !m.repair
    ensures r.sell == (m.sell && m.repair)
    ensures !(r.sell && r.repair)
  {
    if m.repair then m.(repair := false) else Modes(false, true)
  }

  /** What a right click does, first applicable first. */
  datatype RightClick = SwitchSell | SwitchRepair | CancelPlacement | Deselect

  /** onRightMouseButtonClick: sell mode, else repair mode, else placement, else the selection. */
  function RightClickAction(m: Modes, placing: bool): (r: RightClick)
    ensures r == SwitchSell <==> m.sell
    ensures r == SwitchRepair <==> !m.sell && m.repair
    ensures r == CancelPlacement <==> !m.sell && !m.repair && placing
    ensures r == Deselect <==> !m.sell && !m.repair && !placing
  {
    if m.sell then SwitchSell else if m.repair then SwitchRepair else if placing then CancelPlacement else Deselect
  }

  /** The mode switch a right click sends, once delivered, leaves neither mode on. */
  lemma RightClickLeavesModes(m: Modes, placing: bool)
    requires !(m.sell && m.repair)
    ensures RightClickAction(m, placing) == SwitchSell ==> SellSwitched(m) == Modes(false, false)
    ensures RightClickAction(m, placing) == SwitchRepair ==> RepairSwitched(m) == Modes(false, false)
  {
  }

  // ---------------------------------------------------------------- the refund

  /** Math.ceil(1000 / stepProgress): how many construction steps make a whole building. */
  function Steps(stepProgress: int): (r: int)
    requires stepProgress > 0
    ensures r >= 1 && (r - 1) * stepProgress < 1000 <= r * stepProgress
  {
    var r := (1000 + stepProgress - 1) / stepProgress;
    assert r * stepProgress <= 1000 + stepProgress - 1 < r * stepProgress + stepProgress;
    r
  }

  /** The resources handleBuildingSell refunds: every step's cost, times the number of steps, times the factor. */
  predicate RefundOf(c: Construction, factor: real, resources: seq<real>)
    requires c.stepProgress > 0
  {
    |resources| == |c.step| &&
    forall k :: 0 <= k < |c.step| ==> resources[k] == (c.step[k] * Steps(c.stepProgress)) as real * factor
  }

  /** The refund loop of handleBuildingSell: from the last step back, each amount put in front. */
  method Refund(c: Construction, factor: real) returns (resources: seq<real>)
    requires c.stepProgress > 0
    ensures RefundOf(c, factor, resources)
  {
    var steps := Steps(c.stepProgress);
    resources := [];
    var i := |c.step|;
    while i > 0
      invariant 0 <= i <= |c.step| && |resources| == |c.step| - i
      invariant forall k :: i <= k < |c.step| ==> resources[k - i] == (c.step[k] * steps) as real * factor
    {
      i := i - 1;
      resources := [(c.step[i] * steps) as real * factor] + resources;
    }
  }

  // ---------------------------------------------------------------- the construction distance

  /** The centre onMouseTileMove measures from. */
  function CentreX(b: Building): int
    reads b`x
  {
    b.x + b.width / 2 - b.height / 2
  }

  function CentreY(b: Building): int
    reads b`y
  {
    b.y + b.height / 2
  }

  /**
   * Math.sqrt((cy - y)^2 + (cx - x)^2 * 4) < max, written without the square
   * root: the root of a non-negative number is below `max` exactly when `max`
   * is positive and its square exceeds the number.
   */
  predicate Near(b: Building, x: int, y: int, max: real)
    reads b`x, b`y
  {
    var dx, dy := CentreX(b) - x, CentreY(b) - y;
    max > 0.0 && (dy * dy + dx * dx * 4) as real < max * max
  }

  /** The objects of a list. */
  function BuildingSet(list: seq<Building>): set<Building> {
    set k | 0 <= k < |list| :: list[k]
  }

  /** A building of the player that is not a resource field, whose type is known. */
  predicate Anchors(types: seq<BuildingDefinition>, player: int, b: Building) {
    b.player == player && 0 <= b.typ < |types| && types[b.typ].resource.None?
  }

  /**
   * The search of onMouseTileMove over the first n buildings, the last one
   * first: foreign buildings and resource fields are skipped, the first
   * building near (x, y) allows placement, and a building of the player of
   * an unknown type stops the search with an error.
   */
  function Reach(types: seq<BuildingDefinition>, player: int, list: seq<Building>, x: int, y: int, max: real, n: nat): (r: Result<bool, Failure>)
    requires n <= |list|
    reads BuildingSet(list)`x, BuildingSet(list)`y
  {
    if n == 0 then Ok(false)
    else
      var b := list[n - 1];
      assert b in BuildingSet(list);
      if b.player != player then Reach(types, player, list, x, y, max, n - 1)
      else if !(0 <= b.typ < |types|) then Err(UnknownDefinition)
      else if types[b.typ].resource.Some? then Reach(types, player, list, x, y, max, n - 1)
      else if Near(b, x, y, max) then Ok(true)
      else Reach(types, player, list, x, y, max, n - 1)
  }

  /**
   * The search allows placement only next to one of the player's own
   * buildings, refuses it only when none is near, and fails only on a
   * building of the player of an unknown type.
   */
  lemma {:induction false} ReachMeans(types: seq<BuildingDefinition>, player: int, list: seq<Building>, x: int, y: int, max: real, n: nat)
    requires n <= |list|
    ensures Reach(types, player, list, x, y, max, n) == Ok(true) ==>
              exists k :: 0 <= k < n && Anchors(types, player, list[k]) && Near(list[k], x, y, max)
    ensures Reach(types, player, list, x, y, max, n) == Ok(false) ==>
              forall k :: 0 <= k < n && Anchors(types, player, list[k]) ==> !Near(list[k], x, y, max)
    ensures Reach(types, player, list, x, y, max, n).Err? ==>
              exists k :: 0 <= k < n && list[k].player == player && !(0 <= list[k].typ < |types|)
    ensures (forall k :: 0 <= k < n && list[k].player == player ==> 0 <= list[k].typ < |types|) ==>
              Reach(types, player, list, x, y, max, n).Ok?
  {
    if n > 0 {
      ReachMeans(types, player, list, x, y, max, n - 1);
    }
  }

  // ---------------------------------------------------------------- the placement check

  datatype Check = Free | Taken | Crashed

  /** getObjectAt finds nothing on the cell: neither index holds an object there. */
  predicate Vacant(units: seq<seq<Unit?>>, buildings: seq<seq<Building?>>, p: Position) {
    !(Inside(units, p) && units[p.y][p.x] != null) && !(Inside(buildings, p) && buildings[p.y][p.x] != null)
  }

  /**
   * The check of onLeftMouseButtonClick over the first n tiles, the last one
   * first: a tile that holds an object, or that the navigation index marks
   * impassable or does not hold, refuses placement; a tile in no row of the
   * index throws.
   */
  function Scan(units: seq<seq<Unit?>>, buildings: seq<seq<Building?>>, index: seq<seq<bool>>,
                cells: seq<Position>, n: nat): (r: Check)
    requires n <= |cells|
  {
    if n == 0 then Free
    else
      var c := cells[n - 1];
      if !Vacant(units, buildings, c) then Taken
      else if !(0 <= c.y < |index|) then Crashed
      else if !(0 <= c.x < |index[c.y]|) || !index[c.y][c.x] then Taken
      else Scan(units, buildings, index, cells, n - 1)
  }

  /** An empty, passable tile of the navigation index. */
  predicate Open(units: seq<seq<Unit?>>, buildings: seq<seq<Building?>>, index: seq<seq<bool>>, p: Position) {
    Vacant(units, buildings, p) && Inside(index, p) && index[p.y][p.x]
  }

  /** The check passes exactly when every tile is empty and passable, and throws only off the index's rows. */
  lemma {:induction false} ScanMeans(units: seq<seq<Unit?>>, buildings: seq<seq<Building?>>, index: seq<seq<bool>>,
                                     cells: seq<Position>, n: nat)
    requires n <= |cells|
    ensures Scan(units, buildings, index, cells, n) == Free <==>
              forall k :: 0 <= k < n ==> Open(units, buildings, index, cells[k])
    ensures Scan(units, buildings, index, cells, n) == Crashed ==>
              exists k :: 0 <= k < n && !(0 <= cells[k].y < |index|)
  {
    if n > 0 {
      ScanMeans(units, buildings, index, cells, n - 1);
    }
  }

  /** On a valid map, a building whose tiles all pass the check stands on map cells. */
  lemma FreeCovers(m: Map, b: Building)
    requires m.Valid() && Scan(m.units, m.buildings, m.navigationIndex, Cells(b), |Cells(b)|) == Free
    ensures m.Covers(b)
  {
    ScanMeans(m.units, m.buildings, m.navigationIndex, Cells(b), |Cells(b)|);
    forall k | 0 <= k < |Cells(b)| ensures Inside(m.tiles, Cells(b)[k]) {
      assert Open(m.units, m.buildings, m.navigationIndex, Cells(b)[k]);
    }
  }

  // ---------------------------------------------------------------- the plug-in

  class BuildingControlPlugin {
    const gameMap: Map
    const types: seq<BuildingDefinition>
    const playerId: int
    const maxConstructionDistance: real
    const sellRefundFactor: real
    var sellActive: bool
    var repairActive: bool
    var buildingToPlace: Building?
    var buildingPlacementAllowed: bool
    var sent: seq<Event>
    var display: seq<Display>

    function CurrentModes(): Modes
      reads this`sellActive, this`repairActive
    {
      Modes(sellActive, repairActive)
    }

    /**
     * The plug-in's invariant: the modes are never both on, the map is valid
     * with every indexed object placed on it, every building type prices its
     * construction steps, and the building to place is not on the map.
     */
    predicate Ready()
      reads this, gameMap`tiles, gameMap`buildings, gameMap`units, gameMap`navigationIndex
      reads BuildingsOn(gameMap.buildings)`x, BuildingsOn(gameMap.buildings)`y
      reads UnitsOn(gameMap.units)`x, UnitsOn(gameMap.units)`y
    {
      !(sellActive && repairActive) && gameMap.Valid() && Placed(gameMap) &&
      (forall k :: 0 <= k < |types| ==> types[k].construction.stepProgress > 0) &&
      (buildingToPlace != null ==> buildingToPlace !in BuildingsOn(gameMap.buildings))
    }

    constructor (gameMap: Map, types: seq<BuildingDefinition>, playerId: int, maxConstructionDistance: real, sellRefundFactor: real)
      requires gameMap.Valid() && Placed(gameMap)
      requires forall k :: 0 <= k < |types| ==> types[k].construction.stepProgress > 0
      ensures this.gameMap == gameMap && this.types == types && this.playerId == playerId
      ensures this.maxConstructionDistance == maxConstructionDistance && this.sellRefundFactor == sellRefundFactor
      ensures !sellActive && !repairActive && buildingToPlace == null && !buildingPlacementAllowed
      ensures sent == [] && display == []
      ensures Ready()
    {
      this.gameMap := gameMap;
      this.types := types;
      this.playerId := playerId;
      this.maxConstructionDistance := maxConstructionDistance;
      this.sellRefundFactor := sellRefundFactor;
      sellActive := false;
      repairActive := false;
      buildingToPlace := null;
      buildingPlacementAllowed := false;
      sent := [];
      display := [];
    }

    /** Dropping the building being placed, as both mode switches and a right click do. */
    method DropPlacement()
      modifies this`buildingToPlace, this`display
      ensures buildingToPlace == null
      ensures display == old(display) + if old(buildingToPlace) != null then [SetBuildingToPlace(null, false)] else []
    {
      if buildingToPlace != null {
        display := display + [SetBuildingToPlace(null, false)];
        buildingToPlace := null;
      }
    }

    /** onSellModeSwitch. */
    method OnSellModeSwitch()
      requires Ready()
      modifies this`sellActive, this`repairActive, this`buildingToPlace, this`display
      ensures CurrentModes() == SellSwitched(old(CurrentModes())) && buildingToPlace == null
      ensures display == old(display) + if old(buildingToPlace) != null then [SetBuildingToPlace(null, false)] else []
      ensures Ready()
    {
      if sellActive {
        sellActive := false;
      } else {
        sellActive := true;
        repairActive := false;
      }
      DropPlacement();
    }

    /** onRepairModeSwitch. */
    method OnRepairModeSwitch()
      requires Ready()
      modifies this`sellActive, this`repairActive, this`buildingToPlace, this`display
      ensures CurrentModes() == RepairSwitched(old(CurrentModes())) && buildingToPlace == null
      ensures display == old(display) + if old(buildingToPlace) != null then [SetBuildingToPlace(null, false)] else []
      ensures Ready()
    {
      if repairActive {
        repairActive := false;
      } else {
        repairActive := true;
        sellActive := false;
      }
      DropPlacement();
    }

    /**
     * onStartBuildingPlacing: a new building of the type, at (0, 0), owned by
     * the player, becomes the building to place. An unknown type fails in
     * the Building constructor and changes nothing here.
     */
    method OnStartBuildingPlacing(ids: BuildingIds, typ: int, playerColor: string) returns (r: Result<(), Buildings.Failure>)
      requires Ready()
      modifies ids, this`buildingToPlace
      ensures r.Ok? <==> 0 <= typ < |types|
      ensures r.Ok? ==> buildingToPlace != null && fresh(buildingToPlace) && buildingToPlace.typ == typ &&
                        buildingToPlace.player == playerId && buildingToPlace.x == 0 && buildingToPlace.y == 0 &&
                        buildingToPlace.Copies(types[typ])
      ensures r.Err? ==> buildingToPlace == old(buildingToPlace)
      ensures Ready()
    {
      var b := ids.NewBuilding(types, 0, 0, typ, playerId, None, playerColor);
      if b.Err? {
        return Err(b.error);
      }
      ObjectsAllocated(gameMap.buildings);
      buildingToPlace := b.value;
      r := Ok(());
    }

    /** The building index only holds objects allocated so far, so a fresh building is not among them. */
    static lemma ObjectsAllocated(rows: seq<seq<Building?>>)
      ensures forall b :: b in BuildingsOn(rows) ==> allocated(b)
    {
    }

    /** The mouseover part of onMouseTileMove: a building highlights unless it is a resource field. */
    method Mouseover(x: int, y: int) returns (r: Result<(), Failure>)
      modifies this`display
      ensures var o := gameMap.ObjectAt(x, y);
        if !o.BuildingThere? then r.Ok? && display == old(display) + [SetMouseoverBuilding(null)]
        else if !(0 <= o.b.typ < |types|) then r == Err(UnknownDefinition) && display == old(display)
        else r.Ok? && display == old(display) + if types[o.b.typ].resource.None? then [SetMouseoverBuilding(o.b)] else []
    {
      var atTile := gameMap.ObjectAt(x, y);
      if atTile.BuildingThere? {
        if !(0 <= atTile.b.typ < |types|) {
          return Err(UnknownDefinition);
        }
        if types[atTile.b.typ].resource.None? {
          display := display + [SetMouseoverBuilding(atTile.b)];
        }
      } else {
        display := display + [SetMouseoverBuilding(null)];
      }
      r := Ok(());
    }

    /** The loop of onMouseTileMove over the map's buildings, the last one first. */
    method Search(list: seq<Building>, x: int, y: int) returns (r: Result<bool, Failure>)
      ensures r == Reach(types, playerId, list, x, y, maxConstructionDistance, |list|)
    {
      var i := |list|;
      while i > 0
        invariant 0 <= i <= |list|
        invariant Reach(types, playerId, list, x, y, maxConstructionDistance, |list|) ==
                  Reach(types, playerId, list, x, y, maxConstructionDistance, i)
      {
        i := i - 1;
        var building := list[i];
        if building.player != playerId {
          continue;
        }
        if !(0 <= building.typ < |types|) {
          return Err(UnknownDefinition);
        }
        if types[building.typ].resource.Some? {
          continue;
        }
        if Near(building, x, y, maxConstructionDistance) {
          return Ok(true);
        }
      }
      return Ok(false);
    }

    /** The building to place, centred on tile (x, y) as onMouseTileMove puts it. */
    static predicate Centred(b: Building, x: int, y: int)
      reads b`x, b`y
    {
      b.x == x - b.width / 2 && b.y == y - (b.height + 1) / 2
    }

    /**
     * The placement part of onMouseTileMove: the building to place is
     * centred on the tile, and placement is allowed exactly when the search
     * finds one of the player's own buildings near it (the search's failure
     * leaves the flag and the display as they were).
     */
    method FollowCursor(x: int, y: int) returns (r: Result<(), Failure>)
      requires Ready() && buildingToPlace != null
      modifies this`display, this`buildingPlacementAllowed, buildingToPlace`x, buildingToPlace`y
      ensures Ready() && Centred(buildingToPlace, x, y)
      ensures var found := Reach(types, playerId, gameMap.buildingsList, buildingToPlace.x, buildingToPlace.y,
                                 maxConstructionDistance, |gameMap.buildingsList|);
        if found.Err? then r == Err(found.error) && display == old(display) && buildingPlacementAllowed == old(buildingPlacementAllowed)
        else r.Ok? && buildingPlacementAllowed == found.value &&
             display == old(display) + [SetBuildingToPlace(buildingToPlace, found.value)]
    {
      var b := buildingToPlace;
      b.x := x - b.width / 2;
      b.y := y - (b.height + 1) / 2;
      PlacedKept(gameMap);
      var found := Search(gameMap.buildingsList, b.x, b.y);
      if found.Err? {
        return Err(found.error);
      }
      buildingPlacementAllowed := found.value;
      display := display + [SetBuildingToPlace(b, found.value)];
      r := Ok(());
    }

    /** onMouseTileMove: the mouseover, then (when a building is being placed) the placement part. */
    method OnMouseTileMove(x: int, y: int) returns (r: Result<(), Failure>)
      requires Ready()
      modifies this`display, this`buildingPlacementAllowed, {buildingToPlace} - {null}`x, {buildingToPlace} - {null}`y
      ensures Ready()
      ensures var o := old(gameMap.ObjectAt(x, y));
        o.BuildingThere? && !(0 <= o.b.typ < |types|) ==>
          r == Err(UnknownDefinition) && display == old(display) &&
          buildingPlacementAllowed == old(buildingPlacementAllowed) &&
          (buildingToPlace != null ==> buildingToPlace.x == old(buildingToPlace.x) && buildingToPlace.y == old(buildingToPlace.y))
      ensures var o := old(gameMap.ObjectAt(x, y));
        buildingToPlace != null && !(o.BuildingThere? && !(0 <= o.b.typ < |types|)) ==>
          Centred(buildingToPlace, x, y) &&
          var found := Reach(types, playerId, gameMap.buildingsList, buildingToPlace.x, buildingToPlace.y,
                             maxConstructionDistance, |gameMap.buildingsList|);
          (found.Err? ==> r == Err(found.error) && buildingPlacementAllowed == old(buildingPlacementAllowed)) &&
          (found.Ok? ==> r.Ok? && buildingPlacementAllowed == found.value &&
                         |display| > 0 && display[|display| - 1] == SetBuildingToPlace(buildingToPlace, found.value))
      ensures buildingToPlace == null ==> buildingPlacementAllowed == old(buildingPlacementAllowed)
      // the display: the mouseover entry, then the placement entry when the search succeeds
      ensures var o := old(gameMap.ObjectAt(x, y));
        !(o.BuildingThere? && !(0 <= o.b.typ < |types|)) ==>
          var shown := if !o.BuildingThere? then [SetMouseoverBuilding(null)]
                       else if types[o.b.typ].resource.None? then [SetMouseoverBuilding(o.b)] else [];
          if buildingToPlace == null then r.Ok? && display == old(display) + shown
          else
            var found := Reach(types, playerId, gameMap.buildingsList, buildingToPlace.x, buildingToPlace.y,
                               maxConstructionDistance, |gameMap.buildingsList|);
            display == old(display) + shown + if found.Ok? then [SetBuildingToPlace(buildingToPlace, found.value)] else []
    {
      r := Mouseover(x, y);
      if r.Err? {
        return;
      }
      if buildingToPlace != null {
        r := FollowCursor(x, y);
      }
    }
 

    // -------------------------------------------------------------- the left click

    /** The loop of onLeftMouseButtonClick over the tiles of the building to place, the last one first. */
    method ScanCells(cells: seq<Position>) returns (c: Check)
      ensures c == Scan(gameMap.units, gameMap.buildings, gameMap.navigationIndex, cells, |cells|)
    {
      var index := gameMap.navigationIndex;
      var i := |cells|;
      while i > 0
        invariant 0 <= i <= |cells|
        invariant Scan(gameMap.units, gameMap.buildings, index, cells, |cells|) ==
                  Scan(gameMap.units, gameMap.buildings, index, cells, i)
      {
        i := i - 1;
        var tile := cells[i];
        if gameMap.ObjectAt(tile.x, tile.y) != Nothing {
          return Taken;
        }
        if !(0 <= tile.y < |index|) {
          return Crashed;
        }
        if !(0 <= tile.x < |index[tile.y]|) || !index[tile.y][tile.x] {
          return Taken;
        }
      }
      return Free;
    }

    /** A sellable object: a building of the player, of a known type, that is not a resource field. */
    predicate Sellable(o: Occupant) {
      o.BuildingThere? && o.b.player == playerId && 0 <= o.b.typ < |types| && types[o.b.typ].resource.None?
    }

    /** The building a sale on the object may change. */
    static function SoldBuilding(o: Occupant): set<Building> {
      if o.BuildingThere? then {o.b} else {}
    }

    /** The sale itself: no hitpoints left, off the map, construction cost refunded. */
    method SellBuilding(b: Building, c: Construction)
      requires gameMap.Valid() && gameMap.Covers(b) && c.stepProgress > 0
      modifies this`display, this`sent, gameMap, b`hitpoints
      ensures gameMap.Valid() && gameMap.tiles == old(gameMap.tiles) && gameMap.units == old(gameMap.units)
      ensures BuildingsOn(gameMap.buildings) <= old(BuildingsOn(gameMap.buildings))
      ensures b.hitpoints == 0 && display == old(display) + [BuildingChanged(b)]
      ensures Fits(old(gameMap.buildings), b) &&
              gameMap.buildingsList == Seqs.Drop(old(gameMap.buildingsList), LastBuilding(old(gameMap.buildingsList), b.id)) &&
              gameMap.buildings == Paint(old(gameMap.buildings), Cells(b), null)
      ensures Fits(old(gameMap.navigationIndex), b) &&
              gameMap.navigationIndex == if b.passable then old(gameMap.navigationIndex) else Paint(old(gameMap.navigationIndex), Cells(b), true)
      ensures gameMap.unitsList == old(gameMap.unitsList) && gameMap.projectiles == old(gameMap.projectiles)
      ensures |sent| == |old(sent)| + 1 && sent[..|old(sent)|] == old(sent) &&
              sent[|old(sent)|].ResourcesGained? && sent[|old(sent)|].player == playerId &&
              RefundOf(c, sellRefundFactor, sent[|old(sent)|].resources)
    {
      gameMap.CoveredCells(b);
      ghost var before := gameMap.buildings;
      b.hitpoints := 0;
      display := display + [BuildingChanged(b)];
      gameMap.RemoveBuilding(b);
      PaintNullShrinks(before, Cells(b));
      var resources := Refund(c, sellRefundFactor);
      sent := sent + [ResourcesGained(playerId, resources)];
    }

    /**
     * handleBuildingSell: a sellable building on the tile loses all its
     * hitpoints, leaves the map, and its construction cost (scaled by the
     * refund factor) is sent back to the player; anything else on the tile is
     * left alone, and the player's own building of an unknown type fails.
     */
    method HandleBuildingSell(x: int, y: int) returns (r: Result<(), Failure>)
      requires Ready()
      modifies this`display, this`sent, gameMap, SoldBuilding(gameMap.ObjectAt(x, y))`hitpoints
      ensures Ready()
      ensures var o := old(gameMap.ObjectAt(x, y));
        o.BuildingThere? && o.b.player == playerId && !(0 <= o.b.typ < |types|) <==> r.Err?
      ensures var o := old(gameMap.ObjectAt(x, y));
        !Sellable(o) ==> unchanged(gameMap) && sent == old(sent) && display == old(display) &&
                         (o.BuildingThere? ==> o.b.hitpoints == old(o.b.hitpoints))
      ensures var o := old(gameMap.ObjectAt(x, y));
        Sellable(o) ==>
          o.b.hitpoints == 0 && display == old(display) + [BuildingChanged(o.b)] &&
          Fits(old(gameMap.buildings), o.b) && Fits(old(gameMap.navigationIndex), o.b) &&
          gameMap.buildingsList == Seqs.Drop(old(gameMap.buildingsList), LastBuilding(old(gameMap.buildingsList), o.b.id)) &&
          gameMap.buildings == Paint(old(gameMap.buildings), Cells(o.b), null) &&
          gameMap.navigationIndex == (if o.b.passable then old(gameMap.navigationIndex) else Paint(old(gameMap.navigationIndex), Cells(o.b), true)) &&
          gameMap.units == old(gameMap.units) && gameMap.tiles == old(gameMap.tiles) &&
          gameMap.unitsList == old(gameMap.unitsList) && gameMap.projectiles == old(gameMap.projectiles) &&
          |sent| == |old(sent)| + 1 && sent[..|old(sent)|] == old(sent) &&
          sent[|old(sent)|].ResourcesGained? && sent[|old(sent)|].player == playerId &&
          RefundOf(types[o.b.typ].construction, sellRefundFactor, sent[|old(sent)|].resources)
    {
      var atTile := gameMap.ObjectAt(x, y);
      if !atTile.BuildingThere? || atTile.b.player != playerId {
        return Ok(());
      }
      var b := atTile.b;
      if !(0 <= b.typ < |types|) {
        return Err(UnknownDefinition);
      }
      var definition := types[b.typ];
      if definition.resource.Some? {
        return Ok(());
      }
      ObjectOnMap(gameMap, x, y);
      SellBuilding(b, definition.construction);
      PlacedKept(gameMap);
      r := Ok(());
    }

    /** A call that changes no field keeps the plug-in ready. */
    twostate lemma ReadyKept()
      requires old(Ready()) && unchanged(this, gameMap)
      requires unchanged(BuildingsOn(gameMap.buildings)) && unchanged(UnitsOn(gameMap.units))
      ensures Ready()
    {
    }

    /** The check of onLeftMouseButtonClick on the building to place where it now is. */
    function PlacementCheck(): Check
      requires buildingToPlace != null
      reads this`buildingToPlace, gameMap`units, gameMap`buildings, gameMap`navigationIndex, buildingToPlace`x, buildingToPlace`y
    {
      Scan(gameMap.units, gameMap.buildings, gameMap.navigationIndex, Cells(buildingToPlace), |Cells(buildingToPlace)|)
    }

    /** The placement itself: on the map, shown, announced, and no longer shown as being placed. */
    method PutOnMap(b: Building)
      requires gameMap.Valid() && Placed(gameMap) && gameMap.Covers(b)
      modifies this`display, this`sent, gameMap
      ensures gameMap.Valid() && Placed(gameMap) && gameMap.tiles == old(gameMap.tiles) && gameMap.units == old(gameMap.units)
      ensures BuildingsOn(gameMap.buildings) <= old(BuildingsOn(gameMap.buildings)) + {b}
      ensures Fits(old(gameMap.buildings), b) && gameMap.buildingsList == old(gameMap.buildingsList) + [b] &&
              gameMap.buildings == Paint(old(gameMap.buildings), Cells(b), b)
      ensures Fits(old(gameMap.navigationIndex), b) &&
              gameMap.navigationIndex == if b.passable then old(gameMap.navigationIndex) else Paint(old(gameMap.navigationIndex), Cells(b), false)
      ensures gameMap.unitsList == old(gameMap.unitsList) && gameMap.projectiles == old(gameMap.projectiles)
      ensures sent == old(sent) + [BuildingPlaced(b)]
      ensures display == old(display) + [BuildingChanged(b), SetBuildingToPlace(null, false)]
    {
      gameMap.CoveredCells(b);
      PaintOneGrows(gameMap.buildings, Cells(b), b);
      gameMap.UpdateBuilding(b);
      PlacedGrown(gameMap);
      display := display + [BuildingChanged(b)];
      sent := sent + [BuildingPlaced(b)];
      display := display + [SetBuildingToPlace(null, false)];
    }

    /**
     * The placement part of onLeftMouseButtonClick: when placement is
     * allowed and every tile of the building is empty and passable, the
     * building goes on the map, is announced, and is no longer being placed.
     * Otherwise nothing changes, save that a tile off the index's rows fails.
     */
    method Place() returns (r: Result<(), Failure>)
      requires Ready() && buildingToPlace != null
      modifies this`display, this`sent, this`buildingToPlace, gameMap
      ensures Ready()
      ensures old(buildingPlacementAllowed) && old(PlacementCheck()) == Free ==>
          r.Ok? && buildingToPlace == null && Fits(old(gameMap.buildings), old(buildingToPlace)) &&
          Fits(old(gameMap.navigationIndex), old(buildingToPlace)) &&
          gameMap.buildingsList == old(gameMap.buildingsList) + [old(buildingToPlace)] &&
          gameMap.buildings == Paint(old(gameMap.buildings), Cells(old(buildingToPlace)), old(buildingToPlace)) &&
          gameMap.navigationIndex == (if old(buildingToPlace).passable then old(gameMap.navigationIndex)
            else Paint(old(gameMap.navigationIndex), Cells(old(buildingToPlace)), false)) &&
          gameMap.units == old(gameMap.units) && gameMap.tiles == old(gameMap.tiles) &&
          gameMap.unitsList == old(gameMap.unitsList) && gameMap.projectiles == old(gameMap.projectiles) &&
          sent == old(sent) + [BuildingPlaced(old(buildingToPlace))] &&
          display == old(display) + [BuildingChanged(old(buildingToPlace)), SetBuildingToPlace(null, false)]
      ensures !(old(buildingPlacementAllowed) && old(PlacementCheck()) == Free) ==>
          (r.Err? <==> old(buildingPlacementAllowed) && old(PlacementCheck()) == Crashed) &&
          (r.Err? ==> r.error == NoIndexRow) &&
          unchanged(gameMap) && buildingToPlace == old(buildingToPlace) && sent == old(sent) && display == old(display)
    {
      var b := buildingToPlace;
      r := Ok(());
      if buildingPlacementAllowed {
        var cells := BuildingPositions(b);
        var check := ScanCells(cells);
        assert check == old(PlacementCheck());
        ReadyKept();
        if check == Crashed {
          r := Err(NoIndexRow);
        } else if check == Free {
          FreeCovers(gameMap, b);
          PutOnMap(b);
          buildingToPlace := null;
        }
      }
    }

    /**
     * The selection part of onLeftMouseButtonClick: the player's own
     * building is selected unless it is a resource field, the player's own
     * unit clears the building selection, and anything else is ignored.
     */
    method Select(x: int, y: int) returns (r: Result<(), Failure>)
      modifies this`display
      ensures var o := gameMap.ObjectAt(x, y);
        if o.BuildingThere? && o.b.player == playerId then
          if !(0 <= o.b.typ < |types|) then r == Err(UnknownDefinition) && display == old(display)
          else r.Ok? && display == old(display) + if types[o.b.typ].resource.None? then [SetSelectedBuilding(o.b)] else []
        else r.Ok? && display == old(display) + if o.UnitThere? && o.u.player == playerId then [SetSelectedBuilding(null)] else []
    {
      var atTile := gameMap.ObjectAt(x, y);
      if atTile.BuildingThere? {
        if atTile.b.player == playerId {
          if !(0 <= atTile.b.typ < |types|) {
            return Err(UnknownDefinition);
          }
          if types[atTile.b.typ].resource.None? {
            display := display + [SetSelectedBuilding(atTile.b)];
          }
        }
      } else if atTile.UnitThere? {
        if atTile.u.player == playerId {
          display := display + [SetSelectedBuilding(null)];
        }
      }
      r := Ok(());
    }

    /**
     * onLeftMouseButtonClick: in sell mode the click sells, else while a
     * building is being placed it places it, else it selects.
     */
    method OnLeftMouseButtonClick(x: int, y: int) returns (r: Result<(), Failure>)
      requires Ready()
      modifies this`display, this`sent, this`buildingToPlace, gameMap, SoldBuilding(gameMap.ObjectAt(x, y))`hitpoints
      ensures Ready() && sellActive == old(sellActive) && repairActive == old(repairActive)
      // sell mode: handleBuildingSell
      ensures old(sellActive) ==> buildingToPlace == old(buildingToPlace)
      ensures var o := old(gameMap.ObjectAt(x, y));
        old(sellActive) ==> (o.BuildingThere? && o.b.player == playerId && !(0 <= o.b.typ < |types|) <==> r.Err?)
      ensures var o := old(gameMap.ObjectAt(x, y));
        old(sellActive) && !Sellable(o) ==>
          unchanged(gameMap) && sent == old(sent) && display == old(display) &&
          (o.BuildingThere? ==> o.b.hitpoints == old(o.b.hitpoints))
      ensures var o := old(gameMap.ObjectAt(x, y));
        old(sellActive) && Sellable(o) ==>
          o.b.hitpoints == 0 && display == old(display) + [BuildingChanged(o.b)] &&
          Fits(old(gameMap.buildings), o.b) && Fits(old(gameMap.navigationIndex), o.b) &&
          gameMap.buildingsList == Seqs.Drop(old(gameMap.buildingsList), LastBuilding(old(gameMap.buildingsList), o.b.id)) &&
          gameMap.buildings == Paint(old(gameMap.buildings), Cells(o.b), null) &&
          gameMap.navigationIndex == (if o.b.passable then old(gameMap.navigationIndex) else Paint(old(gameMap.navigationIndex), Cells(o.b), true)) &&
          gameMap.units == old(gameMap.units) && gameMap.tiles == old(gameMap.tiles) &&
          gameMap.unitsList == old(gameMap.unitsList) && gameMap.projectiles == old(gameMap.projectiles) &&
          |sent| == |old(sent)| + 1 && sent[..|old(sent)|] == old(sent) &&
          sent[|old(sent)|].ResourcesGained? && sent[|old(sent)|].player == playerId &&
          RefundOf(types[o.b.typ].construction, sellRefundFactor, sent[|old(sent)|].resources)
      // otherwise no building is sold
      ensures var o := old(gameMap.ObjectAt(x, y));
        !old(sellActive) && o.BuildingThere? ==> o.b.hitpoints == old(o.b.hitpoints)
      // placing: the placement
      ensures !old(sellActive) && old(buildingToPlace) != null && old(buildingPlacementAllowed) && old(PlacementCheck()) == Free ==>
          r.Ok? && buildingToPlace == null && Fits(old(gameMap.buildings), old(buildingToPlace)) &&
          Fits(old(gameMap.navigationIndex), old(buildingToPlace)) &&
          gameMap.buildingsList == old(gameMap.buildingsList) + [old(buildingToPlace)] &&
          gameMap.buildings == Paint(old(gameMap.buildings), Cells(old(buildingToPlace)), old(buildingToPlace)) &&
          gameMap.navigationIndex == (if old(buildingToPlace).passable then old(gameMap.navigationIndex)
            else Paint(old(gameMap.navigationIndex), Cells(old(buildingToPlace)), false)) &&
          gameMap.units == old(gameMap.units) && gameMap.tiles == old(gameMap.tiles) &&
          gameMap.unitsList == old(gameMap.unitsList) && gameMap.projectiles == old(gameMap.projectiles) &&
          sent == old(sent) + [BuildingPlaced(old(buildingToPlace))] &&
          display == old(display) + [BuildingChanged(old(buildingToPlace)), SetBuildingToPlace(null, false)]
      ensures !old(sellActive) && old(buildingToPlace) != null && !(old(buildingPlacementAllowed) && old(PlacementCheck()) == Free) ==>
          (r.Err? <==> old(buildingPlacementAllowed) && old(PlacementCheck()) == Crashed) &&
          (r.Err? ==> r.error == NoIndexRow) &&
          unchanged(gameMap) && buildingToPlace == old(buildingToPlace) && sent == old(sent) && display == old(display)
      // neither: the selection
      ensures !old(sellActive) && old(buildingToPlace) == null ==>
          unchanged(gameMap) && sent == old(sent) && buildingToPlace == null
      ensures var o := gameMap.ObjectAt(x, y);
        !old(sellActive) && old(buildingToPlace) == null ==>
          if o.BuildingThere? && o.b.player == playerId then
            if !(0 <= o.b.typ < |types|) then r == Err(UnknownDefinition) && display == old(display)
            else r.Ok? && display == old(display) + if types[o.b.typ].resource.None? then [SetSelectedBuilding(o.b)] else []
          else r.Ok? && display == old(display) + if o.UnitThere? && o.u.player == playerId then [SetSelectedBuilding(null)] else []
    {
      if sellActive {
        r := HandleBuildingSell(x, y);
        return;
      }
      if buildingToPlace != null {
        r := Place();
        return;
      }
      r := Select(x, y);
    }

    // -------------------------------------------------------------- the right click

    /** onRightMouseButtonClick: the first of the four actions that applies. */
    method OnRightMouseButtonClick()
      requires Ready()
      modifies this`display, this`sent, this`buildingToPlace
      ensures Ready()
      ensures match RightClickAction(old(CurrentModes()), old(buildingToPlace) != null)
        case SwitchSell => sent == old(sent) + [SellModeSwitch] && unchanged(this`display, this`buildingToPlace)
        case SwitchRepair => sent == old(sent) + [RepairModeSwitch] && unchanged(this`display, this`buildingToPlace)
        case CancelPlacement => sent == old(sent) && buildingToPlace == null &&
                                display == old(display) + [SetBuildingToPlace(null, false)]
        case Deselect => sent == old(sent) && buildingToPlace == null &&
                         display == old(display) + [SetSelectedBuilding(null)]
    {
      if sellActive {
        sent := sent + [SellModeSwitch];
      } else if repairActive {
        sent := sent + [RepairModeSwitch];
      } else if buildingToPlace != null {
        DropPlacement();
      } else {
        display := display + [SetSelectedBuilding(null)];
      }
    }
  }
}
