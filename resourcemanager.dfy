/**
 * The resource manager plug-in
 * (engine/gameplay-plugins/event-driven-plugins/resourcemanagerplugin.js):
 * every player's stock of each resource type, taken from by resource
 * requests and added to by resource gains. Each request is answered by one
 * `resourceDispatch` event, modelled as an entry appended to the plug-in's
 * outbox `sent`.
 *
 * The request's target is whatever object the requesting plug-in wants the
 * answer matched against (the repairer's entry, a construction job); it is a
 * type parameter here. Updating the stats shown on the page is left out.
 */
module ResourceManagement {
  import opened Wrappers

  datatype Request<T> = Request(target: T, targetType: string, player: int, resources: seq<int>)

  /** The answer: the amounts handed out, or None where the source sends `resources: false`. */
  datatype Dispatch<T> = Dispatch(target: T, targetType: string, player: int, resources: Option<seq<int>>)

  /** The player's stock covers every requested amount. */
  predicate Covers(stock: seq<int>, amounts: seq<int>)
    requires |amounts| <= |stock|
  {
    forall j :: 0 <= j < |amounts| ==> amounts[j] <= stock[j]
  }

  /**
   * The highest index below n whose requested amount exceeds the stock, or -1:
   * the index the reverse loop of onResourceRequest stops at.
   */
  function HighestShort(stock: seq<int>, amounts: seq<int>, n: int): (r: int)
    requires 0 <= n <= |amounts| <= |stock|
    ensures -1 <= r < n
    ensures r >= 0 ==> stock[r] < amounts[r]
    ensures forall j :: r < j < n ==> amounts[j] <= stock[j]
  {
    if n == 0 then -1
    else if stock[n - 1] < amounts[n - 1] then n - 1
    else HighestShort(stock, amounts, n - 1)
  }

  /** The stock with every requested amount above index `low` taken off. */
  function Deduct(stock: seq<int>, amounts: seq<int>, low: int): seq<int>
    requires |amounts| <= |stock|
  {
    seq(|stock|, j requires 0 <= j < |stock| => if low < j < |amounts| then stock[j] - amounts[j] else stock[j])
  }

  /** The stock with the gained amounts added. */
  function Gain(stock: seq<int>, amounts: seq<int>): seq<int>
    requires |amounts| <= |stock|
  {
    seq(|stock|, j requires 0 <= j < |stock| => if j < |amounts| then stock[j] + amounts[j] else stock[j])
  }

  /** The reverse loop finds no short index exactly when the stock covers the request. */
  lemma {:induction false} NoShortIffCovers(stock: seq<int>, amounts: seq<int>)
    requires |amounts| <= |stock|
    ensures HighestShort(stock, amounts, |amounts|) == -1 <==> Covers(stock, amounts)
  {
    var r := HighestShort(stock, amounts, |amounts|);
    if r >= 0 {
      assert !(amounts[r] <= stock[r]);
    }
  }

  /** Gaining back what a granted request took restores the stock. */
  lemma GainUndoesDeduct(stock: seq<int>, amounts: seq<int>)
    requires |amounts| <= |stock|
    ensures Gain(Deduct(stock, amounts, -1), amounts) == stock
  {
  }

  /** A granted request leaves no amount negative that was not negative before. */
  lemma DeductKeepsNonNegative(stock: seq<int>, amounts: seq<int>)
    requires |amounts| <= |stock| && Covers(stock, amounts)
    requires forall j :: 0 <= j < |stock| ==> stock[j] >= 0
    ensures forall j :: 0 <= j < |stock| ==> Deduct(stock, amounts, -1)[j] >= 0
  {
  }

  /**
   * The reverse loop keeps the deductions it made above the short index: a
   * player with none of resource 0 and 5 of resource 1 who asks for 1 and 2
   * is refused and still loses 2 of resource 1.
   */
  lemma RefusalKeepsDeductions()
    ensures HighestShort([0, 5], [1, 2], 2) == 0
    ensures Deduct([0, 5], [1, 2], HighestShort([0, 5], [1, 2], 2)) == [0, 3]
  {
    assert Deduct([0, 5], [1, 2], 0)[1] == 3;
  }

  class ResourceManagerPlugin<T> {
    /** resources[p][k]: how much of resource type k player p has. */
    var resources: seq<seq<int>>
    /** The resourceDispatch events sent, oldest first. */
    var sent: seq<Dispatch<T>>

    /** The plug-in receiving playerResourcesInitialization. */
    constructor (resourceStats: seq<seq<int>>)
      ensures resources == resourceStats && sent == []
    {
      resources := resourceStats;
      sent := [];
    }

    /** The request names a known player and no more resource types than the player holds. */
    predicate Answerable(request: Request<T>)
      reads this
    {
      0 <= request.player < |resources| && |request.resources| <= |resources[request.player]|
    }

    /**
     * onResourceRequest as the source is written: from the last resource
     * type down, each covered amount is taken off at once; at the first
     * amount not covered the request is refused, and what was already taken
     * stays taken.
     */
    method OnResourceRequestAsWritten(request: Request<T>)
      requires Answerable(request)
      modifies this
      ensures var stock := old(resources)[request.player];
              var short := HighestShort(stock, request.resources, |request.resources|);
              resources == old(resources)[request.player := Deduct(stock, request.resources, short)] &&
              sent == old(sent) + [Dispatch(request.target, request.targetType, request.player,
                                            if short < 0 then Some(request.resources) else None)]
    {
      var amounts := request.resources;
      var before := resources[request.player];
      var stock := before;
      var handed: seq<int> := seq(|amounts|, _ => 0);
      // short: the index the loop stopped at, or -1 while every amount is covered
      var short := -1;
      var i := |amounts|;
      while i > 0 && short < 0
        invariant 0 <= i <= |amounts| && |handed| == |amounts| && -1 <= short < |amounts|
        invariant forall j :: i <= j < |amounts| ==> amounts[j] <= before[j] && handed[j] == amounts[j]
        invariant short < 0 ==> stock == Deduct(before, amounts, i - 1)
        invariant short >= 0 ==> short == i - 1 && stock == Deduct(before, amounts, short)
        invariant short >= 0 ==> HighestShort(before, amounts, |amounts|) == short
        decreases i, -short
      {
        if stock[i - 1] < amounts[i - 1] {
          assert stock[i - 1] == before[i - 1];
          short := i - 1;
        } else {
          i := i - 1;
          stock := stock[i := stock[i] - amounts[i]];
          handed := handed[i := amounts[i]];
        }
      }
      var granted := short < 0;
      if granted {
        assert handed == amounts;
        assert HighestShort(before, amounts, |amounts|) == -1;
      }
      var dispatch := Dispatch(request.target, request.targetType, request.player,
                               if granted then Some(handed) else None);
      resources := resources[request.player := stock];
      sent := sent + [dispatch];
    }

    /**
     * onResourceRequest as intended: the request is checked in full first,
     * and either every amount is taken off and echoed in the dispatch, or
     * nothing is taken and the dispatch is a refusal.
     */
    method OnResourceRequest(request: Request<T>)
      requires Answerable(request)
      modifies this
      ensures var stock := old(resources)[request.player];
              var ok := Covers(stock, request.resources);
              resources == old(resources)[request.player := if ok then Deduct(stock, request.resources, -1) else stock] &&
              sent == old(sent) + [Dispatch(request.target, request.targetType, request.player,
                                            if ok then Some(request.resources) else None)]
    {
      var amounts := request.resources;
      var before := resources[request.player];
      var covered := true;
      var i := |amounts|;
      while i > 0
        invariant 0 <= i <= |amounts|
        invariant covered <==> forall j :: i <= j < |amounts| ==> amounts[j] <= before[j]
      {
        i := i - 1;
        if before[i] < amounts[i] {
          covered := false;
        }
      }
      var stock := before;
      if covered {
        i := |amounts|;
        while i > 0
          invariant 0 <= i <= |amounts|
          invariant stock == Deduct(before, amounts, i - 1)
        {
          i := i - 1;
          stock := stock[i := stock[i] - amounts[i]];
        }
      }
      resources := resources[request.player := stock];
      sent := sent + [Dispatch(request.target, request.targetType, request.player,
                               if covered then Some(amounts) else None)];
    }

    /** onResourcesGained: the gained amounts are added to the named player's stock only. */
    method OnResourcesGained(player: int, amounts: seq<int>)
      requires 0 <= player < |resources| && |amounts| <= |resources[player]|
      modifies this
      ensures resources == old(resources)[player := Gain(old(resources)[player], amounts)]
      ensures sent == old(sent)
    {
      var before := resources[player];
      var stock := before;
      var i := |amounts|;
      while i > 0
        invariant 0 <= i <= |amounts| && |stock| == |before|
        invariant forall j :: 0 <= j < |stock| ==> stock[j] == if i <= j < |amounts| then before[j] + amounts[j] else before[j]
      {
        i := i - 1;
        stock := stock[i := stock[i] + amounts[i]];
      }
      assert stock == Gain(before, amounts);
      resources := resources[player := stock];
    }
  }

  /** Both versions answer a covered request alike, and only a refusal tells them apart. */
  lemma AsWrittenAgreesWhenCovered(stock: seq<int>, amounts: seq<int>)
    requires |amounts| <= |stock|
    ensures Covers(stock, amounts) <==> HighestShort(stock, amounts, |amounts|) == -1
    ensures Covers(stock, amounts) ==> Deduct(stock, amounts, HighestShort(stock, amounts, |amounts|)) == Deduct(stock, amounts, -1)
  {
    NoShortIffCovers(stock, amounts);
  }
}
