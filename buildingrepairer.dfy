/**
 * The building repairer plug-in
 * (engine/gameplay-plugins/mixed-plugins/buildingrepairer.js): the list of
 * buildings being repaired. Every tick it asks the resource manager for one
 * repair step's resources for each building not already waiting for an
 * answer; a granted answer restores the step's hitpoints, up to the
 * definition's maximum. A building that is destroyed or fully repaired
 * leaves the list, and asking to repair a listed building takes it off.
 *
 * The entries are objects: the resource manager's answer names the entry it
 * answers, compared by identity. Only the repairer reads or changes an
 * entry's `waiting` flag, so the flags are kept as the repairer's set of
 * waiting entries. The resource requests sent go to the outbox `sent`.
 */
module BuildingRepair {
  import opened Wrappers
  import opened Seqs
  import opened Buildings
  import opened ResourceManagement

  /** One building being repaired. */
  class RepairEntry {
    const building: Building
    const definition: BuildingDefinition

    constructor (building: Building, definition: BuildingDefinition)
      ensures this.building == building && this.definition == definition
    {
      this.building := building;
      this.definition := definition;
    }
  }

  /** The buildings of the entries. */
  function Targets(list: seq<RepairEntry>): set<Building> {
    set k | 0 <= k < |list| :: list[k].building
  }

  /** `!building.hitpoints`: the building has been destroyed. */
  predicate Destroyed(e: RepairEntry)
    reads e.building
  {
    e.building.hitpoints == 0
  }

  lemma TargetsTail(list: seq<RepairEntry>)
    requires list != []
    ensures Targets(list) == {list[0].building} + Targets(list[1..])
  {
    assert forall k :: 0 <= k < |list[1..]| ==> list[1..][k] == list[k + 1];
  }

  /** Whether each entry's building still stands. */
  function StandingFlags(list: seq<RepairEntry>): (r: seq<bool>)
    reads Targets(list)
    ensures |r| == |list| && forall k :: 0 <= k < |list| ==> r[k] == !Destroyed(list[k])
  {
    if list == [] then []
    else
      TargetsTail(list);
      [!Destroyed(list[0])] + StandingFlags(list[1..])
  }

  /** The entries from index i on whose building still stands (standing[k] for entry k), in list order. */
  function Standing(list: seq<RepairEntry>, standing: seq<bool>, i: int): (r: seq<RepairEntry>)
    requires |standing| == |list| && 0 <= i <= |list|
    ensures |r| <= |list| - i
    decreases |list| - i
  {
    if i == |list| then []
    else (if standing[i] then [list[i]] else []) + Standing(list, standing, i + 1)
  }

  /** Exactly the standing entries are kept. */
  lemma {:induction false} InStanding(list: seq<RepairEntry>, standing: seq<bool>, i: int, e: RepairEntry)
    requires |standing| == |list| && 0 <= i <= |list|
    ensures e in Standing(list, standing, i) <==> exists k :: i <= k < |list| && list[k] == e && standing[k]
    decreases |list| - i
  {
    if i < |list| {
      InStanding(list, standing, i + 1, e);
    }
  }

  /** The request handleTick sends for an entry. */
  function RepairRequest(e: RepairEntry): (r: Request<RepairEntry>)
    ensures r.target == e && r.targetType == "repair-building"
    ensures r.player == e.building.player && r.resources == e.definition.repair.resources
  {
    Request(e, "repair-building", e.building.player, e.definition.repair.resources)
  }

  /** The requests handleTick sends for the entries from index i on: one per standing entry not waiting, the last entry first. */
  function Requests(list: seq<RepairEntry>, standing: seq<bool>, waiting: set<RepairEntry>, i: int): (r: seq<Request<RepairEntry>>)
    requires |standing| == |list| && 0 <= i <= |list|
    ensures |r| <= |list| - i
    decreases |list| - i
  {
    if i == |list| then []
    else Requests(list, standing, waiting, i + 1) + (if standing[i] && list[i] !in waiting then [RepairRequest(list[i])] else [])
  }

  /** The entries from index i on that stand. */
  function StandingSet(list: seq<RepairEntry>, standing: seq<bool>, i: int): set<RepairEntry>
    requires |standing| == |list| && 0 <= i <= |list|
  {
    set k | i <= k < |list| && standing[k] :: list[k]
  }

  /** Index i's entry joins the standing set when it stands, and is not among the later ones. */
  lemma StandingSetStep(list: seq<RepairEntry>, standing: seq<bool>, i: int)
    requires |standing| == |list| && 0 <= i < |list| && Distinct(list)
    ensures StandingSet(list, standing, i) == StandingSet(list, standing, i + 1) + (if standing[i] then {list[i]} else {})
    ensures list[i] !in StandingSet(list, standing, i + 1)
  {
  }

  /** The last position of the entry in the list, or -1. */
  function IndexOf(list: seq<RepairEntry>, e: RepairEntry): (k: int)
    ensures -1 <= k < |list|
    ensures k >= 0 ==> list[k] == e
    ensures k < 0 <==> e !in list
  {
    if list == [] then -1
    else if list[|list| - 1] == e then |list| - 1
    else
      var k := IndexOf(list[..|list| - 1], e);
      assert e in list[..|list| - 1] ==> e in list;
      assert e in list && list[|list| - 1] != e ==> e in list[..|list| - 1];
      k
  }

  /** The position of an entry for the building, or -1. */
  function IndexOfBuilding(list: seq<RepairEntry>, b: Building): (k: int)
    ensures -1 <= k < |list|
    ensures k >= 0 ==> list[k].building == b
    ensures k < 0 <==> b !in Targets(list)
  {
    if list == [] then -1
    else if list[|list| - 1].building == b then |list| - 1
    else
      var k := IndexOfBuilding(list[..|list| - 1], b);
      assert Targets(list) == Targets(list[..|list| - 1]) + {list[|list| - 1].building};
      k
  }

  /** The hitpoints after a granted repair step: the step's points added and capped at the maximum. */
  function Repaired(hitpoints: int, step: int, maximum: int): (r: int)
    ensures r <= maximum && (r == maximum || r == hitpoints + step)
    ensures hitpoints <= maximum && step >= 0 ==> hitpoints <= r
  {
    if hitpoints + step < maximum then hitpoints + step else maximum
  }

  /** Repair steps of a positive size reach the maximum after enough of them. */
  lemma {:induction false} RepairsFinish(hitpoints: int, step: int, maximum: int, n: nat)
    requires step > 0 && hitpoints <= maximum && maximum - hitpoints <= n * step
    ensures RepairedTimes(hitpoints, step, maximum, n) == maximum
    decreases n
  {
    if n > 0 {
      var h := Repaired(hitpoints, step, maximum);
      if h < maximum {
        RepairsFinish(h, step, maximum, n - 1);
      } else {
        RepairedAtMaximum(step, maximum, n - 1);
      }
    }
  }

  lemma {:induction false} RepairedAtMaximum(step: int, maximum: int, n: nat)
    requires step >= 0
    ensures RepairedTimes(maximum, step, maximum, n) == maximum
    decreases n
  {
    if n > 0 {
      RepairedAtMaximum(step, maximum, n - 1);
    }
  }

  /** n granted repair steps in a row. */
  function RepairedTimes(hitpoints: int, step: int, maximum: int, n: nat): int
    decreases n
  {
    if n == 0 then hitpoints else RepairedTimes(Repaired(hitpoints, step, maximum), step, maximum, n - 1)
  }

  /** No entry is listed twice and no building has two entries. */
  predicate Distinct(list: seq<RepairEntry>) {
    forall i, j :: 0 <= i < j < |list| ==> list[i] != list[j] && list[i].building != list[j].building
  }

  lemma DropDistinct(list: seq<RepairEntry>, k: int)
    requires Distinct(list) && 0 <= k < |list|
    ensures Distinct(Drop(list, k)) && Targets(Drop(list, k)) == Targets(list) - {list[k].building}
  {
    var r := Drop(list, k);
    forall i | 0 <= i < |r| ensures r[i] == list[if i < k then i else i + 1] {}
    forall b | b in Targets(list) - {list[k].building} ensures b in Targets(r) {
      var j :| 0 <= j < |list| && list[j].building == b;
      assert r[if j < k then j else j - 1].building == b;
    }
  }

  /** The kept entries of a list without repeated entries or buildings have none either. */
  lemma {:induction false} StandingDistinct(list: seq<RepairEntry>, standing: seq<bool>, i: int)
    requires |standing| == |list| && 0 <= i <= |list| && Distinct(list)
    ensures Distinct(Standing(list, standing, i))
    decreases |list| - i
  {
    if i < |list| {
      StandingDistinct(list, standing, i + 1);
      var rest := Standing(list, standing, i + 1);
      if standing[i] {
        forall k | 0 <= k < |rest| ensures rest[k] != list[i] && rest[k].building != list[i].building {
          InStanding(list, standing, i + 1, rest[k]);
        }
        assert Standing(list, standing, i) == [list[i]] + rest;
      }
    }
  }

  class BuildingRepairer {
    var buildings: seq<RepairEntry>
    /** The entries whose resource request is unanswered. */
    var waiting: set<RepairEntry>
    /** The resourceRequest events sent, oldest first. */
    var sent: seq<Request<RepairEntry>>

    constructor ()
      ensures buildings == [] && waiting == {} && sent == []
    {
      buildings := [];
      waiting := {};
      sent := [];
    }

    /**
     * handleTick: destroyed buildings leave the list, and every other entry
     * not yet waiting sends one resource request and starts waiting.
     */
    method HandleTick()
      requires Distinct(buildings)
      modifies this
      ensures Distinct(buildings)
      ensures buildings == Standing(old(buildings), old(StandingFlags(buildings)), 0)
      ensures waiting == old(waiting) + StandingSet(old(buildings), old(StandingFlags(buildings)), 0)
      ensures forall k :: 0 <= k < |buildings| ==> buildings[k] in waiting
      ensures sent == old(sent) + Requests(old(buildings), old(StandingFlags(buildings)), old(waiting), 0)
    {
      ghost var list := buildings;
      ghost var standing := StandingFlags(list);
      var i := |buildings|;
      while i > 0
        invariant 0 <= i <= |list| && Distinct(list)
        invariant buildings == list[..i] + Standing(list, standing, i)
        invariant waiting == old(waiting) + StandingSet(list, standing, i)
        invariant sent == old(sent) + Requests(list, standing, old(waiting), i)
      {
        assert standing[i - 1] == !Destroyed(list[i - 1]);
        TickEntry(list, standing, i - 1, old(waiting), old(sent));
        i := i - 1;
      }
      StandingDistinct(list, standing, 0);
      forall k | 0 <= k < |buildings| ensures buildings[k] in waiting {
        InStanding(list, standing, 0, buildings[k]);
      }
    }

    /** One step of handleTick's loop: the entry at index i is dropped, asks for resources, or is left alone. */
    method TickEntry(ghost list: seq<RepairEntry>, ghost standing: seq<bool>, i: int,
                     ghost waiting0: set<RepairEntry>, ghost sent0: seq<Request<RepairEntry>>)
      requires |standing| == |list| && 0 <= i < |list| && Distinct(list)
      requires standing[i] == !Destroyed(list[i])
      requires buildings == list[..i + 1] + Standing(list, standing, i + 1)
      requires waiting == waiting0 + StandingSet(list, standing, i + 1)
      requires sent == sent0 + Requests(list, standing, waiting0, i + 1)
      modifies this
      ensures buildings == list[..i] + Standing(list, standing, i)
      ensures waiting == waiting0 + StandingSet(list, standing, i)
      ensures sent == sent0 + Requests(list, standing, waiting0, i)
    {
      ghost var rest := Standing(list, standing, i + 1);
      SplitAt(list, i, rest, buildings);
      TickStep(list, standing, i, waiting0);
      var entry := buildings[i];
      if entry.building.hitpoints == 0 {
        buildings := buildings[..i] + buildings[i + 1..];
        return;
      }
      if entry in waiting {
        return;
      }
      sent := sent + [RepairRequest(entry)];
      waiting := waiting + {entry};
    }

    /** What handleTick's step adds for index i: nothing for a destroyed entry, else the entry and its request when it is not waiting. */
    static lemma TickStep(list: seq<RepairEntry>, standing: seq<bool>, i: int, waiting0: set<RepairEntry>)
      requires |standing| == |list| && 0 <= i < |list| && Distinct(list)
      ensures list[i] !in StandingSet(list, standing, i + 1)
      ensures !standing[i] ==>
                Standing(list, standing, i) == Standing(list, standing, i + 1) &&
                StandingSet(list, standing, i) == StandingSet(list, standing, i + 1) &&
                Requests(list, standing, waiting0, i) == Requests(list, standing, waiting0, i + 1)
      ensures standing[i] ==>
                Standing(list, standing, i) == [list[i]] + Standing(list, standing, i + 1) &&
                StandingSet(list, standing, i) == StandingSet(list, standing, i + 1) + {list[i]} &&
                Requests(list, standing, waiting0, i) ==
                  Requests(list, standing, waiting0, i + 1) + (if list[i] !in waiting0 then [RepairRequest(list[i])] else [])
    {
      StandingSetStep(list, standing, i);
      assert [] + Standing(list, standing, i + 1) == Standing(list, standing, i + 1);
      assert Requests(list, standing, waiting0, i + 1) + [] == Requests(list, standing, waiting0, i + 1);
    }

    /** The list handleTick's step finds at index i: the entries before it, the entry, and the kept ones after it. */
    static lemma SplitAt(list: seq<RepairEntry>, i: int, rest: seq<RepairEntry>, found: seq<RepairEntry>)
      requires 0 <= i < |list| && found == list[..i + 1] + rest
      ensures found[i] == list[i] && found[..i] + found[i + 1..] == list[..i] + rest
      ensures found == list[..i] + ([list[i]] + rest)
    {
      assert list[..i + 1] == list[..i] + [list[i]];
      Associative(list[..i], [list[i]], rest);
      assert found[..i] == list[..i] && found[i + 1..] == rest;
    }

    /**
     * onResourceDispatch: the answer's entry, if listed, stops waiting; its
     * building leaves the list if destroyed; a granted answer repairs it one
     * step, and a fully repaired building leaves the list. An answer for no
     * listed entry changes nothing.
     */
    method OnResourceDispatch(d: Dispatch<RepairEntry>)
      requires Distinct(buildings)
      modifies this, d.target.building
      ensures Distinct(buildings) && sent == old(sent)
      ensures d.target !in old(buildings) ==>
                buildings == old(buildings) && waiting == old(waiting) &&
                d.target.building.hitpoints == old(d.target.building.hitpoints)
      ensures d.target in old(buildings) ==>
                var k := IndexOf(old(buildings), d.target);
                var b := d.target.building;
                var def := d.target.definition;
                waiting == old(waiting) - {d.target} &&
                (old(b.hitpoints) == 0 ==> b.hitpoints == 0 && buildings == Drop(old(buildings), k)) &&
                (old(b.hitpoints) != 0 && d.resources.None? ==> b.hitpoints == old(b.hitpoints) && buildings == old(buildings)) &&
                (old(b.hitpoints) != 0 && d.resources.Some? ==>
                   b.hitpoints == Repaired(old(b.hitpoints), def.repair.hitpoints, def.hitpoints) &&
                   buildings == if b.hitpoints == def.hitpoints then Drop(old(buildings), k) else old(buildings))
    {
      var i := |buildings|;
      while i > 0
        invariant 0 <= i <= |buildings|
        invariant forall j :: i <= j < |buildings| ==> buildings[j] != d.target
      {
        i := i - 1;
        var entry := buildings[i];
        if d.target != entry {
          continue;
        }
        assert IndexOf(buildings, d.target) == i;
        waiting := waiting - {entry};
        var building := entry.building;
        if building.hitpoints == 0 {
          DropDistinct(buildings, i);
          buildings := buildings[..i] + buildings[i + 1..];
          return;
        }
        if d.resources.None? {
          return;
        }
        var repair := entry.definition.repair;
        building.hitpoints := Repaired(building.hitpoints, repair.hitpoints, entry.definition.hitpoints);
        if building.hitpoints == entry.definition.hitpoints {
          DropDistinct(buildings, i);
          buildings := buildings[..i] + buildings[i + 1..];
        }
        return;
      }
    }
    /** onRepairBuilding: a listed building is taken off the list, any other is added, not waiting. */
    method OnRepairBuilding(types: seq<BuildingDefinition>, b: Building)
      requires Distinct(buildings) && 0 <= b.typ < |types|
      modifies this
      ensures Distinct(buildings) && sent == old(sent)
      ensures b in Targets(old(buildings)) ==>
                buildings == Drop(old(buildings), IndexOfBuilding(old(buildings), b)) && b !in Targets(buildings)
      ensures waiting == old(waiting)
      ensures b !in Targets(old(buildings)) ==>
                |buildings| == |old(buildings)| + 1 && buildings[..|old(buildings)|] == old(buildings) &&
                var e := buildings[|old(buildings)|];
                fresh(e) && e.building == b && e.definition == types[b.typ] && e !in waiting
    {
      var i := |buildings|;
      while i > 0
        invariant 0 <= i <= |buildings|
        invariant forall j :: i <= j < |buildings| ==> buildings[j].building != b
      {
        i := i - 1;
        if buildings[i].building == b {
          assert IndexOfBuilding(buildings, b) == i;
          DropDistinct(buildings, i);
          buildings := buildings[..i] + buildings[i + 1..];
          return;
        }
      }
      var e := new RepairEntry(b, types[b.typ]);
      buildings := buildings + [e];
      assert buildings[..|old(buildings)|] == old(buildings);
    }

    /** Asking twice to repair a building not listed leaves the list as it was. */
    method RepairTwice(types: seq<BuildingDefinition>, b: Building)
      requires Distinct(buildings) && 0 <= b.typ < |types| && b !in Targets(buildings)
      modifies this
      ensures buildings == old(buildings) && waiting == old(waiting) && sent == old(sent)
    {
      OnRepairBuilding(types, b);
      assert buildings[|buildings| - 1].building == b;
      assert IndexOfBuilding(buildings, b) == |buildings| - 1;
      OnRepairBuilding(types, b);
    }
  }
}
