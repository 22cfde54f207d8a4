/**
 * The power management plug-in
 * (engine/gameplay-plugins/event-driven-plugins/powermanagement.js): one
 * energy-level record per player, holding the player's energy production,
 * consumption and their difference. Placing a building or creating a unit
 * charges its type's power requirement to its owner; destroying it gives the
 * requirement back. A positive requirement is consumption; a non-positive one
 * is production, counted as its negation.
 *
 * The records are kept as values in the plug-in's list, which the handlers
 * update; each `energyLevelUpdate` event is an entry of the outbox `sent`
 * carrying the record as it is when sent. The definition tables are
 * parameters.
 */
module PowerManagement {
  import opened Seqs
  import opened Buildings
  import opened Units

  /** The value of one record. */
  datatype Balance = Balance(player: int, production: int, consumption: int, level: int)

  /** level is production minus consumption. */
  predicate Correct(b: Balance) {
    b.level == b.production - b.consumption
  }

  predicate Balanced(bs: seq<Balance>) {
    forall k :: 0 <= k < |bs| ==> Correct(bs[k])
  }

  /** No two records are for the same player. */
  predicate OnePerPlayer(bs: seq<Balance>) {
    forall i, j :: 0 <= i < j < |bs| ==> bs[i].player != bs[j].player
  }

  /** The last record of the player, found searching from the end, or -1. */
  function Lookup(bs: seq<Balance>, player: int): (k: int)
    ensures -1 <= k < |bs|
    ensures k >= 0 ==> bs[k].player == player
    ensures forall j :: k < j < |bs| ==> bs[j].player != player
  {
    if bs == [] then -1
    else if bs[|bs| - 1].player == player then |bs| - 1
    else Lookup(bs[..|bs| - 1], player)
  }

  /** getEnergyLevel's effect on the records: a zeroed record is appended when the player has none. */
  function Ensure(bs: seq<Balance>, player: int): (r: seq<Balance>)
    ensures Lookup(r, player) >= 0
    ensures r == bs || (Lookup(bs, player) < 0 && r == bs + [Balance(player, 0, 0, 0)])
  {
    if Lookup(bs, player) >= 0 then bs
    else
      var r := bs + [Balance(player, 0, 0, 0)];
      assert Lookup(r, player) == |bs|;
      r
  }

  /**
   * Charging a requirement to a record (sign 1) or giving it back (sign -1):
   * consumption when the requirement is positive, production otherwise.
   */
  function Charge(b: Balance, requirement: int, sign: int): (r: Balance)
    ensures r.player == b.player && r.level == b.level - sign * requirement
    ensures requirement > 0 ==> r.production == b.production && r.consumption == b.consumption + sign * requirement
    ensures requirement <= 0 ==> r.consumption == b.consumption && r.production == b.production - sign * requirement
  {
    if requirement > 0 then
      b.(consumption := b.consumption + sign * requirement, level := b.level - sign * requirement)
    else
      b.(production := b.production - sign * requirement, level := b.level - sign * requirement)
  }

  /** Players are where they were; only the values of the records change. */
  predicate SamePlayers(a: seq<Balance>, b: seq<Balance>) {
    |a| == |b| && forall k :: 0 <= k < |a| ==> a[k].player == b[k].player
  }

  lemma {:induction false} LookupSamePlayers(a: seq<Balance>, b: seq<Balance>, player: int)
    requires SamePlayers(a, b)
    ensures Lookup(a, player) == Lookup(b, player)
  {
    if a != [] && a[|a| - 1].player != player {
      LookupSamePlayers(a[..|a| - 1], b[..|b| - 1], player);
    }
  }

  /** One handler's effect on the records of all players. */
  function Record(bs: seq<Balance>, player: int, requirement: int, sign: int): (r: seq<Balance>)
    ensures SamePlayers(r, Ensure(bs, player)) && Lookup(r, player) >= 0
  {
    var e := Ensure(bs, player);
    var k := Lookup(e, player);
    var r := e[k := Charge(e[k], requirement, sign)];
    LookupSamePlayers(r, e, player);
    r
  }

  /** Every record stays correct. */
  lemma RecordBalanced(bs: seq<Balance>, player: int, requirement: int, sign: int)
    requires Balanced(bs)
    ensures Balanced(Record(bs, player, requirement, sign))
  {
  }

  /** A player still has at most one record. */
  lemma RecordOnePerPlayer(bs: seq<Balance>, player: int, requirement: int, sign: int)
    requires OnePerPlayer(bs)
    ensures OnePerPlayer(Record(bs, player, requirement, sign))
  {
    var e := Ensure(bs, player);
    assert OnePerPlayer(e);
  }

  /** The records of other players are untouched, and the player's record is the only one added. */
  lemma RecordOthers(bs: seq<Balance>, player: int, requirement: int, sign: int)
    ensures var r := Record(bs, player, requirement, sign);
            |r| == |bs| + (if Lookup(bs, player) < 0 then 1 else 0) &&
            forall k :: 0 <= k < |bs| && bs[k].player != player ==> r[k] == bs[k]
  {
  }

  /** Placing and then destroying the same type gives the player's record back. */
  lemma PlaceThenDestroy(bs: seq<Balance>, player: int, requirement: int)
    ensures Record(Record(bs, player, requirement, 1), player, requirement, -1) == Ensure(bs, player)
  {
    var e := Ensure(bs, player);
    var k := Lookup(e, player);
    var once := Record(bs, player, requirement, 1);
    assert SamePlayers(once, e);
    LookupSamePlayers(once, e, player);
    assert Ensure(once, player) == once;
  }

  /** A charge to apply: the owner and the power requirement of one building or unit. */
  datatype Charged = Charged(player: int, requirement: int)

  /** Charging a sequence of requirements, first to last. */
  function ChargeAll(bs: seq<Balance>, charges: seq<Charged>): seq<Balance> {
    if charges == [] then bs
    else
      var c := charges[|charges| - 1];
      Record(ChargeAll(bs, charges[..|charges| - 1]), c.player, c.requirement, 1)
  }

  lemma ChargeAllStep(bs: seq<Balance>, charges: seq<Charged>, c: Charged)
    ensures ChargeAll(bs, charges + [c]) == Record(ChargeAll(bs, charges), c.player, c.requirement, 1)
  {
    assert (charges + [c])[..|charges|] == charges;
  }

  lemma {:induction false} ChargeAllAppend(bs: seq<Balance>, a: seq<Charged>, b: seq<Charged>)
    ensures ChargeAll(bs, a + b) == ChargeAll(ChargeAll(bs, a), b)
  {
    if b != [] {
      assert (a + b)[..|a + b| - 1] == a + b[..|b| - 1];
      ChargeAllAppend(bs, a, b[..|b| - 1]);
    } else {
      assert a + b == a;
    }
  }

  /** Charging any number of requirements keeps every record correct and one record per player. */
  lemma {:induction false} ChargeAllValid(bs: seq<Balance>, charges: seq<Charged>)
    requires Balanced(bs) && OnePerPlayer(bs)
    ensures Balanced(ChargeAll(bs, charges)) && OnePerPlayer(ChargeAll(bs, charges))
  {
    if charges != [] {
      var c := charges[|charges| - 1];
      ChargeAllValid(bs, charges[..|charges| - 1]);
      RecordBalanced(ChargeAll(bs, charges[..|charges| - 1]), c.player, c.requirement, 1);
      RecordOnePerPlayer(ChargeAll(bs, charges[..|charges| - 1]), c.player, c.requirement, 1);
    }
  }

  predicate KnownBuildings(types: seq<BuildingDefinition>, buildings: seq<Building>) {
    forall k :: 0 <= k < |buildings| ==> 0 <= buildings[k].typ < |types|
  }

  predicate KnownUnits(types: seq<UnitDefinition>, units: seq<Unit>) {
    forall k :: 0 <= k < |units| ==> 0 <= units[k].typ < |types|
  }

  /** The buildings' charges in the order the map-initialisation loop applies them: last building first. */
  function BuildingCharges(types: seq<BuildingDefinition>, buildings: seq<Building>): (r: seq<Charged>)
    requires KnownBuildings(types, buildings)
    ensures |r| == |buildings|
    ensures forall k :: 0 <= k < |r| ==>
      r[k] == Charged(buildings[|buildings| - 1 - k].player, types[buildings[|buildings| - 1 - k].typ].powerRequirement)
  {
    if buildings == [] then []
    else BuildingCharges(types, buildings[1..]) + [Charged(buildings[0].player, types[buildings[0].typ].powerRequirement)]
  }

  /** The units' charges, last unit first. */
  function UnitCharges(types: seq<UnitDefinition>, units: seq<Unit>): (r: seq<Charged>)
    requires KnownUnits(types, units)
    ensures |r| == |units|
    ensures forall k :: 0 <= k < |r| ==>
      r[k] == Charged(units[|units| - 1 - k].player, types[units[|units| - 1 - k].typ].powerRequirement)
  {
    if units == [] then []
    else UnitCharges(types, units[1..]) + [Charged(units[0].player, types[units[0].typ].powerRequirement)]
  }

  /** The records are correct and there is one per player. */
  predicate Valid(energyLevels: seq<Balance>) {
    Balanced(energyLevels) && OnePerPlayer(energyLevels)
  }

  class PowerManagementPlugin {
    /** The energy level of every player seen so far, in the order first seen. */
    var energyLevels: seq<Balance>
    /** The energyLevelUpdate events sent, oldest first. */
    var sent: seq<Balance>

    constructor ()
      ensures energyLevels == [] && sent == []
    {
      energyLevels := [];
      sent := [];
    }

    /** getEnergyLevel: the index of the player's record, appended zeroed when there is none. */
    method GetEnergyLevel(player: int) returns (k: int)
      modifies this
      ensures energyLevels == Ensure(old(energyLevels), player) && sent == old(sent)
      ensures k == Lookup(energyLevels, player) && 0 <= k < |energyLevels|
    {
      var i := |energyLevels|;
      while i > 0
        invariant 0 <= i <= |energyLevels|
        invariant forall j :: i <= j < |energyLevels| ==> energyLevels[j].player != player
      {
        i := i - 1;
        if energyLevels[i].player == player {
          assert Lookup(energyLevels, player) == i;
          return i;
        }
      }
      assert Lookup(energyLevels, player) == -1;
      energyLevels := energyLevels + [Balance(player, 0, 0, 0)];
      k := |energyLevels| - 1;
      assert Lookup(energyLevels, player) == k;
    }

    /** The common body of the handlers, sending nothing: charge (sign 1) or give back (sign -1) a requirement. */
    method Apply(player: int, requirement: int, sign: int) returns (k: int)
      modifies this
      ensures energyLevels == Record(old(energyLevels), player, requirement, sign) && sent == old(sent)
      ensures k == Lookup(energyLevels, player) && 0 <= k < |energyLevels|
    {
      k := GetEnergyLevel(player);
      var e := energyLevels[k];
      if requirement > 0 {
        e := e.(consumption := e.consumption + sign * requirement, level := e.level - sign * requirement);
      } else {
        e := e.(production := e.production - sign * requirement, level := e.level - sign * requirement);
      }
      ghost var ensured := energyLevels;
      energyLevels := energyLevels[k := e];
      LookupSamePlayers(energyLevels, ensured, player);
    }

    /** A handler: the record is changed, then sent. */
    method Account(player: int, requirement: int, sign: int)
      requires Valid(energyLevels)
      modifies this
      ensures Valid(energyLevels)
      ensures energyLevels == Record(old(energyLevels), player, requirement, sign)
      ensures sent == old(sent) + [energyLevels[Lookup(energyLevels, player)]]
    {
      var k := Apply(player, requirement, sign);
      RecordBalanced(old(energyLevels), player, requirement, sign);
      RecordOnePerPlayer(old(energyLevels), player, requirement, sign);
      sent := sent + [energyLevels[k]];
    }

    /** onBuildingPlaced. */
    method OnBuildingPlaced(types: seq<BuildingDefinition>, b: Building)
      requires Valid(energyLevels) && 0 <= b.typ < |types|
      modifies this
      ensures Valid(energyLevels)
      ensures energyLevels == Record(old(energyLevels), b.player, types[b.typ].powerRequirement, 1)
      ensures sent == old(sent) + [energyLevels[Lookup(energyLevels, b.player)]]
    {
      Account(b.player, types[b.typ].powerRequirement, 1);
    }

    /** onBuildingDestroyed. */
    method OnBuildingDestroyed(types: seq<BuildingDefinition>, b: Building)
      requires Valid(energyLevels) && 0 <= b.typ < |types|
      modifies this
      ensures Valid(energyLevels)
      ensures energyLevels == Record(old(energyLevels), b.player, types[b.typ].powerRequirement, -1)
      ensures sent == old(sent) + [energyLevels[Lookup(energyLevels, b.player)]]
    {
      Account(b.player, types[b.typ].powerRequirement, -1);
    }

    /** onUnitCreated. */
    method OnUnitCreated(types: seq<UnitDefinition>, u: Unit)
      requires Valid(energyLevels) && 0 <= u.typ < |types|
      modifies this
      ensures Valid(energyLevels)
      ensures energyLevels == Record(old(energyLevels), u.player, types[u.typ].powerRequirement, 1)
      ensures sent == old(sent) + [energyLevels[Lookup(energyLevels, u.player)]]
    {
      Account(u.player, types[u.typ].powerRequirement, 1);
    }

    /** onUnitDestroyed. */
    method OnUnitDestroyed(types: seq<UnitDefinition>, u: Unit)
      requires Valid(energyLevels) && 0 <= u.typ < |types|
      modifies this
      ensures Valid(energyLevels)
      ensures energyLevels == Record(old(energyLevels), u.player, types[u.typ].powerRequirement, -1)
      ensures sent == old(sent) + [energyLevels[Lookup(energyLevels, u.player)]]
    {
      Account(u.player, types[u.typ].powerRequirement, -1);
    }

    /** The first loop of onGameMapInitialization: every building's requirement, from the last building. */
    method ChargeBuildings(types: seq<BuildingDefinition>, buildings: seq<Building>)
      requires KnownBuildings(types, buildings)
      modifies this
      ensures energyLevels == ChargeAll(old(energyLevels), BuildingCharges(types, buildings)) && sent == old(sent)
    {
      ghost var charges: seq<Charged> := [];
      var i := |buildings|;
      while i > 0
        invariant 0 <= i <= |buildings| && sent == old(sent)
        invariant charges == BuildingCharges(types, buildings[i..])
        invariant energyLevels == ChargeAll(old(energyLevels), charges)
      {
        i := i - 1;
        assert buildings[i..][1..] == buildings[i + 1..];
        var c := Charged(buildings[i].player, types[buildings[i].typ].powerRequirement);
        ChargeAllStep(old(energyLevels), charges, c);
        charges := charges + [c];
        var _ := Apply(c.player, c.requirement, 1);
      }
      assert buildings[0..] == buildings;
    }

    /** The second loop: every unit's requirement, from the last unit. */
    method ChargeUnits(types: seq<UnitDefinition>, units: seq<Unit>)
      requires KnownUnits(types, units)
      modifies this
      ensures energyLevels == ChargeAll(old(energyLevels), UnitCharges(types, units)) && sent == old(sent)
    {
      ghost var charges: seq<Charged> := [];
      var i := |units|;
      while i > 0
        invariant 0 <= i <= |units| && sent == old(sent)
        invariant charges == UnitCharges(types, units[i..])
        invariant energyLevels == ChargeAll(old(energyLevels), charges)
      {
        i := i - 1;
        assert units[i..][1..] == units[i + 1..];
        var c := Charged(units[i].player, types[units[i].typ].powerRequirement);
        ChargeAllStep(old(energyLevels), charges, c);
        charges := charges + [c];
        var _ := Apply(c.player, c.requirement, 1);
      }
      assert units[0..] == units;
    }

    /** The last loop: every record is sent, the last one first. */
    method SendAll()
      modifies this
      ensures energyLevels == old(energyLevels) && sent == old(sent) + Reverse(energyLevels)
    {
      var i := |energyLevels|;
      while i > 0
        invariant 0 <= i <= |energyLevels| && energyLevels == old(energyLevels)
        invariant sent == old(sent) + Reverse(energyLevels[i..])
      {
        i := i - 1;
        assert energyLevels[i..] == [energyLevels[i]] + energyLevels[i + 1..];
        ReverseAppend([energyLevels[i]], energyLevels[i + 1..]);
        sent := sent + [energyLevels[i]];
      }
      assert energyLevels[0..] == energyLevels;
    }

    /**
     * onGameMapInitialization: every building's and then every unit's
     * requirement is charged, each list from its end, and then every record
     * is sent, the last one first.
     */
    method OnGameMapInitialization(buildingTypes: seq<BuildingDefinition>, buildings: seq<Building>,
                                   unitTypes: seq<UnitDefinition>, units: seq<Unit>)
      requires Valid(energyLevels)
      requires KnownBuildings(buildingTypes, buildings) && KnownUnits(unitTypes, units)
      modifies this
      ensures Valid(energyLevels)
      ensures energyLevels == ChargeAll(old(energyLevels), BuildingCharges(buildingTypes, buildings) + UnitCharges(unitTypes, units))
      ensures sent == old(sent) + Reverse(energyLevels)
    {
      ChargeBuildings(buildingTypes, buildings);
      ChargeUnits(unitTypes, units);
      ChargeAllAppend(old(energyLevels), BuildingCharges(buildingTypes, buildings), UnitCharges(unitTypes, units));
      ChargeAllValid(old(energyLevels), BuildingCharges(buildingTypes, buildings) + UnitCharges(unitTypes, units));
      SendAll();
    }
  }
}
