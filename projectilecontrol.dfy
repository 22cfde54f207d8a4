/**
 * The projectile control plug-in
 * (engine/gameplay-plugins/mixed-plugins/projectilecontrol.js): every tick it
 * advances the map's projectiles, the last one first. A projectile of type 0
 * strikes its target tile when it is fired (progress 0), one of type 1 when it
 * arrives (progress equal to its duration); a projectile that has arrived
 * leaves the map, any other one moves on by one. A strike takes the damage off
 * whatever stands on the target tile, never below 0 hitpoints; a building
 * left with none is removed from the map, and a unit left with none is marked
 * destroyed (action 1) and taken off the map. A standing enemy unit that
 * survives, with nothing to attack, is ordered to attack the shooter.
 *
 * The events sent go to the outbox `sent`. The map is the one given to the
 * plug-in at construction (onGameMapInitialization); the view updates are
 * left out.
 */
module Projectiles {
  import opened Wrappers
  import opened Buildings
  import opened Units
  import opened GameMap

  datatype Event =
    | BuildingDestroyed(building: Building)
    | UnitDestroyed(unit: Unit)
    | IssueAttackUnitOrder(units: seq<Unit>, target: Unit?)

  /** Math.max(0, hitpoints - damage). */
  function Damaged(hitpoints: int, damage: int): (r: int)
    ensures r >= 0 && (r == 0 <==> hitpoints <= damage)
    ensures r > 0 ==> r == hitpoints - damage
    ensures damage >= 0 && hitpoints >= 0 ==> r <= hitpoints
  {
    if hitpoints - damage > 0 then hitpoints - damage else 0
  }

  /** The map is valid and placed, and its indexes hold only objects of the given sets. */
  predicate Ready(m: Map, buildings0: set<Building>, units0: set<Unit>)
    reads m`tiles, m`buildings, m`units, m`navigationIndex
    reads BuildingsOn(m.buildings)`x, BuildingsOn(m.buildings)`y, UnitsOn(m.units)`x, UnitsOn(m.units)`y
  {
    m.Valid() && Placed(m) && BuildingsOn(m.buildings) <= buildings0 && UnitsOn(m.units) <= units0
  }

  /** The building a strike on the occupant may change. */
  function StruckBuilding(o: Occupant): set<Building> {
    if o.BuildingThere? then {o.b} else {}
  }

  /** The unit a strike on the occupant may change. */
  function StruckUnit(o: Occupant): set<Unit> {
    if o.UnitThere? then {o.u} else {}
  }

  /** A strike changes nothing but what the indexes hold. */
  lemma StruckOnMap(m: Map, x: int, y: int)
    ensures StruckBuilding(m.ObjectAt(x, y)) <= BuildingsOn(m.buildings)
    ensures StruckUnit(m.ObjectAt(x, y)) <= UnitsOn(m.units)
  {
    match m.ObjectAt(x, y)
    case Nothing =>
    case UnitThere(u) => assert m.units[y][x] == u;
    case BuildingThere(b) => assert m.buildings[y][x] == b;
  }

  // ---------------------------------------------------------------- the projectile list

  /** The projectiles of the list. */
  function ProjectileSet(list: seq<Projectile>): set<Projectile> {
    set k | 0 <= k < |list| :: list[k]
  }

  lemma ProjectileSetTail(list: seq<Projectile>)
    requires list != []
    ensures ProjectileSet(list) == {list[0]} + ProjectileSet(list[1..])
  {
    assert forall k :: 0 <= k < |list[1..]| ==> list[1..][k] == list[k + 1];
  }

  /** The progress of each projectile. */
  function Progresses(list: seq<Projectile>): (r: seq<int>)
    reads ProjectileSet(list)`progress
    ensures |r| == |list| && forall k :: 0 <= k < |list| ==> r[k] == list[k].progress
  {
    if list == [] then []
    else
      ProjectileSetTail(list);
      [list[0].progress] + Progresses(list[1..])
  }

  predicate Supported(p: Projectile) {
    p.typ == 0 || p.typ == 1
  }

  /** The projectile strikes its target on this tick, at this progress. */
  predicate Strikes(p: Projectile, progress: int) {
    (p.typ == 0 && progress == 0) || (p.typ == 1 && progress == p.duration)
  }

  /** The highest index below n of a projectile of an unsupported type, or -1. */
  function HighestUnsupported(list: seq<Projectile>, n: int): (r: int)
    requires 0 <= n <= |list|
    ensures -1 <= r < n
    ensures r >= 0 ==> !Supported(list[r])
    ensures forall k :: r < k < n ==> Supported(list[k])
  {
    if n == 0 then -1
    else if !Supported(list[n - 1]) then n - 1
    else HighestUnsupported(list, n - 1)
  }

  /** The index below n of an unsupported projectile above which all are supported is the highest one. */
  lemma {:induction false} HighestIs(list: seq<Projectile>, n: int, j: int)
    requires -1 <= j < n <= |list|
    requires j >= 0 ==> !Supported(list[j])
    requires forall k :: j < k < n ==> Supported(list[k])
    ensures HighestUnsupported(list, n) == j
    decreases n
  {
    if n - 1 > j {
      HighestIs(list, n - 1, j);
    }
  }

  /** The projectiles from index i on that have not arrived (progress[k] for projectile k), in list order. */
  function Kept(list: seq<Projectile>, progress: seq<int>, i: int): (r: seq<Projectile>)
    requires |progress| == |list| && 0 <= i <= |list|
    ensures |r| <= |list| - i
    decreases |list| - i
  {
    if i == |list| then []
    else (if progress[i] != list[i].duration then [list[i]] else []) + Kept(list, progress, i + 1)
  }

  /** The progresses after a tick that reached the projectiles from index i on. */
  function Advancing(list: seq<Projectile>, progress: seq<int>, i: int): (r: seq<int>)
    requires |progress| == |list|
    ensures |r| == |list|
  {
    seq(|list|, k requires 0 <= k < |list| => if i <= k then Advanced(list[k], progress[k]) else progress[k])
  }

  /** Advancing one more projectile, index i, updates one entry. */
  lemma AdvancingStep(list: seq<Projectile>, progress: seq<int>, i: int)
    requires |progress| == |list| && 0 <= i < |list|
    ensures Advancing(list, progress, i + 1)[i] == progress[i]
    ensures Advancing(list, progress, i + 1)[i := Advanced(list[i], progress[i])] == Advancing(list, progress, i)
  {
  }

  /** Exactly the projectiles that have not arrived are kept. */
  lemma {:induction false} InKept(list: seq<Projectile>, progress: seq<int>, i: int, p: Projectile)
    requires |progress| == |list| && 0 <= i <= |list|
    ensures p in Kept(list, progress, i) <==> exists k :: i <= k < |list| && list[k] == p && progress[k] != p.duration
    decreases |list| - i
  {
    if i < |list| {
      InKept(list, progress, i + 1, p);
      var head := if progress[i] != list[i].duration then [list[i]] else [];
      var rest := Kept(list, progress, i + 1);
      assert Kept(list, progress, i) == head + rest;
      Seqs.InAppend(head, rest, p);
      if p in head {
        assert list[i] == p && progress[i] != p.duration;
      }
      if exists k :: i <= k < |list| && list[k] == p && progress[k] != p.duration {
        var k :| i <= k < |list| && list[k] == p && progress[k] != p.duration;
        if k == i {
          assert p in head;
        } else {
          assert i + 1 <= k;
        }
      }
    }
  }

  /** Handling index i turns the list the step found into the list it leaves. */
  lemma KeptStep(list: seq<Projectile>, progress: seq<int>, i: int)
    requires |progress| == |list| && 0 <= i < |list|
    ensures var found := list[..i + 1] + Kept(list, progress, i + 1);
            found[i] == list[i] &&
            (progress[i] == list[i].duration ==> found[..i] + found[i + 1..] == list[..i] + Kept(list, progress, i)) &&
            (progress[i] != list[i].duration ==> found == list[..i] + Kept(list, progress, i))
  {
    var rest := Kept(list, progress, i + 1);
    var found := list[..i + 1] + rest;
    assert list[..i + 1] == list[..i] + [list[i]];
    Seqs.Associative(list[..i], [list[i]], rest);
    assert found[..i] == list[..i] && found[i + 1..] == rest;
  }

  /** The projectiles from index i on that strike, the last one first. */
  function Strikers(list: seq<Projectile>, progress: seq<int>, i: int): (r: seq<Projectile>)
    requires |progress| == |list| && 0 <= i <= |list|
    ensures |r| <= |list| - i
    decreases |list| - i
  {
    if i == |list| then []
    else Strikers(list, progress, i + 1) + (if Strikes(list[i], progress[i]) then [list[i]] else [])
  }

  /** The progress a projectile has after a tick that reached it. */
  function Advanced(p: Projectile, progress: int): (r: int)
    ensures progress != p.duration ==> r == progress + 1
    ensures progress == p.duration ==> r == progress
  {
    if progress == p.duration then progress else progress + 1
  }

  /** A projectile fired with a non-negative duration arrives after `duration` ticks: progress never passes the duration. */
  lemma AdvancedBounded(p: Projectile, progress: int)
    requires 0 <= progress <= p.duration
    ensures progress <= Advanced(p, progress) <= p.duration
    ensures Advanced(p, progress) == p.duration <==> progress >= p.duration - 1
  {
  }

  /** A supported projectile fired at progress 0 strikes exactly once over the ticks 0 .. duration. */
  lemma StrikesOnce(p: Projectile, n: nat)
    requires Supported(p) && p.duration >= 0 && n <= p.duration
    ensures Strikes(p, n) <==> n == (if p.typ == 0 then 0 else p.duration)
  {
  }

  predicate DistinctProjectiles(list: seq<Projectile>) {
    forall i, j :: 0 <= i < j < |list| ==> list[i] != list[j]
  }

  /**
   * The outcome of a tick over `list`, whose projectiles had the progresses
   * `progress`: the projectiles up to the highest one of an unsupported type
   * are untouched and that type is the error; of the ones above it, those
   * that arrived are gone, and `strikers` are those that struck.
   */
  predicate Ticked(list: seq<Projectile>, progress: seq<int>, error: Option<int>, strikers: seq<Projectile>, after: seq<Projectile>)
    requires |progress| == |list|
  {
    var lo := HighestUnsupported(list, |list|) + 1;
    (error == None <==> lo == 0) && (lo > 0 ==> error == Some(list[lo - 1].typ)) &&
    after == list[..lo] + Kept(list, progress, lo) &&
    strikers == Strikers(list, progress, lo)
  }

  /** A tick that stopped at index lo (0 when it went through) leaves this outcome. */
  lemma TickedAt(list: seq<Projectile>, progress: seq<int>, lo: int, error: Option<int>, strikers: seq<Projectile>, after: seq<Projectile>)
    requires |progress| == |list| && 0 <= lo <= |list| && HighestUnsupported(list, |list|) == lo - 1
    requires error == if lo == 0 then None else Some(list[lo - 1].typ)
    requires after == list[..lo] + Kept(list, progress, lo) && strikers == Strikers(list, progress, lo)
    ensures Ticked(list, progress, error, strikers, after)
  {
  }

  class ProjectileControl {
    const gameMap: Map
    /** The events sent, oldest first. */
    var sent: seq<Event>

    constructor (gameMap: Map)
      ensures this.gameMap == gameMap && sent == []
    {
      this.gameMap := gameMap;
      sent := [];
    }

    /**
     * handleTick: the projectiles from the last one down strike, leave the
     * map, or move on. A projectile of an unsupported type stops the tick
     * with an error, after the projectiles above it and before the ones
     * below it. `strikers` lists the projectiles that struck, in the order
     * they did.
     */
    method HandleTick() returns (error: Option<int>, ghost strikers: seq<Projectile>)
      requires gameMap.Valid() && Placed(gameMap) && DistinctProjectiles(gameMap.projectiles)
      modifies this, gameMap, ProjectileSet(gameMap.projectiles)`progress
      modifies BuildingsOn(gameMap.buildings)`hitpoints, UnitsOn(gameMap.units)`hitpoints, UnitsOn(gameMap.units)`action
      ensures gameMap.Valid() && Placed(gameMap)
      ensures Ticked(old(gameMap.projectiles), old(Progresses(gameMap.projectiles)), error, strikers, gameMap.projectiles)
      ensures var list := old(gameMap.projectiles);
              Progresses(list) == Advancing(list, old(Progresses(gameMap.projectiles)), HighestUnsupported(list, |list|) + 1)
    {
      ghost var list := gameMap.projectiles;
      ghost var progress := Progresses(list);
      assert list == old(gameMap.projectiles) && progress == old(Progresses(gameMap.projectiles));
      ghost var n := |list|;
      ghost var buildings0, units0 := BuildingsOn(gameMap.buildings), UnitsOn(gameMap.units);
      strikers := [];
      error := None;
      var i := |gameMap.projectiles|;
      while i > 0
        invariant 0 <= i <= n && error == None
        invariant forall k :: i <= k < n ==> Supported(list[k])
        invariant gameMap.projectiles == list[..i] + Kept(list, progress, i)
        invariant strikers == Strikers(list, progress, i)
        invariant Progresses(list) == Advancing(list, progress, i)
        invariant Ready(gameMap, buildings0, units0)
      {
        assert list[i - 1] in ProjectileSet(list);
        error, strikers := Step(i - 1, list, progress, strikers, buildings0, units0);
        if error.Some? {
          HighestIs(list, n, i - 1);
          TickedAt(list, progress, i, error, strikers, gameMap.projectiles);
          assert Progresses(list) == Advancing(list, progress, HighestUnsupported(list, n) + 1);
          return;
        }
        i := i - 1;
      }
      HighestIs(list, n, -1);
      TickedAt(list, progress, 0, error, strikers, gameMap.projectiles);
      assert Progresses(list) == Advancing(list, progress, HighestUnsupported(list, n) + 1);
    }

    /** One step of handleTick's loop, on the projectile at index i. */
    method Step(i: int, ghost list: seq<Projectile>, ghost progress: seq<int>, ghost strikers: seq<Projectile>,
                ghost buildings0: set<Building>, ghost units0: set<Unit>)
      returns (error: Option<int>, ghost strikers': seq<Projectile>)
      requires |progress| == |list| && 0 <= i < |list| && DistinctProjectiles(list)
      requires gameMap.projectiles == list[..i + 1] + Kept(list, progress, i + 1)
      requires strikers == Strikers(list, progress, i + 1)
      requires Progresses(list) == Advancing(list, progress, i + 1)
      requires Ready(gameMap, buildings0, units0)
      modifies this, gameMap, {list[i]}`progress
      modifies buildings0`hitpoints, units0`hitpoints, units0`action
      ensures Ready(gameMap, buildings0, units0)
      ensures !Supported(list[i]) ==>
                error == Some(list[i].typ) && gameMap.projectiles == old(gameMap.projectiles) &&
                strikers' == strikers && Progresses(list) == old(Progresses(list))
      ensures Supported(list[i]) ==>
                error == None && strikers' == Strikers(list, progress, i) &&
                gameMap.projectiles == list[..i] + Kept(list, progress, i) &&
                Progresses(list) == Advancing(list, progress, i)
    {
      var projectile := gameMap.projectiles[i];
      KeptStep(list, progress, i);
      AdvancingStep(list, progress, i);
      assert projectile.progress == progress[i] by {
        assert Progresses(list)[i] == list[i].progress;
      }
      strikers' := strikers;
      if !(projectile.typ == 0 || projectile.typ == 1) {
        return Some(projectile.typ), strikers';
      }
      var struck := StrikeIfDue(projectile, list, buildings0, units0);
      if struck {
        strikers' := strikers' + [projectile];
      }
      Advance(i, list, progress, buildings0, units0);
      error := None;
    }

    /** The switch of handleTick: a supported projectile strikes when its type says it is due. */
    method StrikeIfDue(p: Projectile, ghost list: seq<Projectile>, ghost buildings0: set<Building>, ghost units0: set<Unit>)
      returns (struck: bool)
      requires Ready(gameMap, buildings0, units0)
      modifies this, gameMap, buildings0`hitpoints, units0`hitpoints, units0`action
      ensures struck == Strikes(p, p.progress)
      ensures Ready(gameMap, buildings0, units0) && gameMap.projectiles == old(gameMap.projectiles)
      ensures Progresses(list) == old(Progresses(list))
    {
      struck := (p.typ == 0 && p.progress == 0) || (p.typ == 1 && p.progress == p.duration);
      if struck {
        StruckOnMap(gameMap, p.targetTileX, p.targetTileY);
        AffectTarget(p);
      }
    }

    /** The end of handleTick's step: the projectile at index i leaves the map if it has arrived, or moves on. */
    method Advance(i: int, ghost list: seq<Projectile>, ghost progress: seq<int>,
                   ghost buildings0: set<Building>, ghost units0: set<Unit>)
      requires |progress| == |list| && 0 <= i < |list|
      requires Ready(gameMap, buildings0, units0)
      requires gameMap.projectiles == list[..i + 1] + Kept(list, progress, i + 1)
      requires DistinctProjectiles(list)
      requires Progresses(list) == Advancing(list, progress, i + 1)
      modifies gameMap`projectiles, {list[i]}`progress
      ensures Ready(gameMap, buildings0, units0)
      ensures gameMap.projectiles == list[..i] + Kept(list, progress, i)
      ensures Progresses(list) == Advancing(list, progress, i)
    {
      KeptStep(list, progress, i);
      AdvancingStep(list, progress, i);
      assert list[i].progress == progress[i] by {
        assert Progresses(list)[i] == list[i].progress;
      }
      var projectile := gameMap.projectiles[i];
      if projectile.progress == projectile.duration {
        gameMap.RemoveProjectile(i);
      } else {
        projectile.progress := projectile.progress + 1;
      }
    }

    /**
     * affectProjectileTarget: the damage is taken off the unit or building
     * on the target tile; a building left without hitpoints is removed and
     * reported, a unit left without them is marked destroyed, taken off the
     * map and reported, and a surviving enemy unit standing still with no
     * target is ordered to attack the shooter. An empty tile changes nothing.
     */
    method AffectTarget(p: Projectile)
      requires gameMap.Valid() && Placed(gameMap)
      modifies this, gameMap
      modifies StruckBuilding(gameMap.ObjectAt(p.targetTileX, p.targetTileY))`hitpoints
      modifies StruckUnit(gameMap.ObjectAt(p.targetTileX, p.targetTileY))`hitpoints
      modifies StruckUnit(gameMap.ObjectAt(p.targetTileX, p.targetTileY))`action
      ensures gameMap.Valid() && Placed(gameMap) && gameMap.projectiles == old(gameMap.projectiles)
      ensures BuildingsOn(gameMap.buildings) <= old(BuildingsOn(gameMap.buildings))
      ensures UnitsOn(gameMap.units) <= old(UnitsOn(gameMap.units))
      ensures old(gameMap.ObjectAt(p.targetTileX, p.targetTileY)).Nothing? ==> unchanged(gameMap) && sent == old(sent)
      ensures old(gameMap.ObjectAt(p.targetTileX, p.targetTileY)).BuildingThere? ==>
                var b := old(gameMap.ObjectAt(p.targetTileX, p.targetTileY)).b;
                b.hitpoints == Damaged(old(b.hitpoints), p.damage) &&
                if b.hitpoints == 0 then
                  Fits(old(gameMap.buildings), b) && Fits(old(gameMap.navigationIndex), b) &&
                  gameMap.buildingsList == Seqs.Drop(old(gameMap.buildingsList), LastBuilding(old(gameMap.buildingsList), b.id)) &&
                  gameMap.buildings == Paint(old(gameMap.buildings), Cells(b), null) &&
                  gameMap.navigationIndex == (if b.passable then old(gameMap.navigationIndex) else Paint(old(gameMap.navigationIndex), Cells(b), true)) &&
                  gameMap.units == old(gameMap.units) && gameMap.unitsList == old(gameMap.unitsList) &&
                  sent == old(sent) + [BuildingDestroyed(b)]
                else
                  unchanged(gameMap) && sent == old(sent)
      ensures old(gameMap.ObjectAt(p.targetTileX, p.targetTileY)).UnitThere? ==>
                var u := old(gameMap.ObjectAt(p.targetTileX, p.targetTileY)).u;
                u.hitpoints == Damaged(old(u.hitpoints), p.damage) &&
                if u.hitpoints == 0 then
                  u.action == 1 && gameMap.Destroyed(u, old(gameMap.unitsList), old(gameMap.units), old(gameMap.navigationIndex)) &&
                  gameMap.buildings == old(gameMap.buildings) && gameMap.buildingsList == old(gameMap.buildingsList) &&
                  sent == old(sent) + [UnitDestroyed(u)]
                else
                  unchanged(gameMap) && u.action == old(u.action) &&
                  sent == old(sent) + if u.player != p.player && u.target.NoTarget? && u.action == 4
                                      then [IssueAttackUnitOrder([u], p.firedBy)] else []
    {
      var atTile := gameMap.ObjectAt(p.targetTileX, p.targetTileY);
      match atTile
      case Nothing =>
      case BuildingThere(b) =>
        assert b in BuildingsOn(gameMap.buildings);
        StrikeBuilding(p, b);
        PlacedKept(gameMap);
      case UnitThere(u) =>
        assert u in UnitsOn(gameMap.units);
        StrikeUnit(p, u);
        PlacedKept(gameMap);
    }

    /** affectProjectileTarget on a building. */
    method StrikeBuilding(p: Projectile, b: Building)
      requires gameMap.Valid() && gameMap.Covers(b)
      modifies this, gameMap, b`hitpoints
      ensures gameMap.Valid() && gameMap.projectiles == old(gameMap.projectiles) && gameMap.tiles == old(gameMap.tiles)
      ensures BuildingsOn(gameMap.buildings) <= old(BuildingsOn(gameMap.buildings))
      ensures gameMap.units == old(gameMap.units)
      ensures b.hitpoints == Damaged(old(b.hitpoints), p.damage)
      ensures b.hitpoints == 0 ==>
                Fits(old(gameMap.buildings), b) && Fits(old(gameMap.navigationIndex), b) &&
                gameMap.buildingsList == Seqs.Drop(old(gameMap.buildingsList), LastBuilding(old(gameMap.buildingsList), b.id)) &&
                gameMap.buildings == Paint(old(gameMap.buildings), Cells(b), null) &&
                gameMap.navigationIndex == (if b.passable then old(gameMap.navigationIndex) else Paint(old(gameMap.navigationIndex), Cells(b), true)) &&
                gameMap.unitsList == old(gameMap.unitsList) &&
                sent == old(sent) + [BuildingDestroyed(b)]
      ensures b.hitpoints != 0 ==> unchanged(gameMap) && sent == old(sent)
    {
      gameMap.CoveredCells(b);
      b.hitpoints := Damaged(b.hitpoints, p.damage);
      if b.hitpoints == 0 {
        ghost var before := gameMap.buildings;
        gameMap.RemoveBuilding(b);
        PaintNullShrinks(before, Cells(b));
        sent := sent + [BuildingDestroyed(b)];
      }
    }

    /** affectProjectileTarget on a unit. */
    method StrikeUnit(p: Projectile, u: Unit)
      requires gameMap.Valid() && gameMap.InMap(Position(u.x, u.y))
      modifies this, gameMap, u`hitpoints, u`action
      ensures gameMap.Valid() && gameMap.projectiles == old(gameMap.projectiles) && gameMap.tiles == old(gameMap.tiles)
      ensures UnitsOn(gameMap.units) <= old(UnitsOn(gameMap.units))
      ensures gameMap.buildings == old(gameMap.buildings)
      ensures u.hitpoints == Damaged(old(u.hitpoints), p.damage)
      ensures u.hitpoints == 0 ==>
                u.action == 1 && gameMap.Destroyed(u, old(gameMap.unitsList), old(gameMap.units), old(gameMap.navigationIndex)) &&
                gameMap.buildingsList == old(gameMap.buildingsList) &&
                sent == old(sent) + [UnitDestroyed(u)]
      ensures u.hitpoints != 0 ==>
                unchanged(gameMap) && u.action == old(u.action) &&
                sent == old(sent) + if u.player != p.player && u.target.NoTarget? && u.action == 4
                                    then [IssueAttackUnitOrder([u], p.firedBy)] else []
    {
      u.hitpoints := Damaged(u.hitpoints, p.damage);
      if u.hitpoints == 0 {
        u.action := 1;
        ghost var before := gameMap.units;
        gameMap.UpdateUnit(u);
        SetNullShrinks(before, Position(u.x, u.y));
        sent := sent + [UnitDestroyed(u)];
      } else if u.player != p.player && u.target.NoTarget? && u.action == 4 {
        sent := sent + [IssueAttackUnitOrder([u], p.firedBy)];
      }
    }
  }
}
