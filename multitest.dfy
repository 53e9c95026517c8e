/**
 * The simulator's `OsmosisModule`: the pool store `POOLS`, the factory-denom
 * builder, the `Swap` message handler (route, slippage check, then save every
 * updated pool) and the `PoolState`, `SpotPrice` and `EstimateSwap` queries.
 *
 * The store is the field `pools` of `OsmosisModule`; the handler is proved
 * against the function `SwapCommand`, which gives the settlement and the new
 * store, and the lemmas below state what the handler promises about them.
 */
module Multitest {
  import opened Wrappers
  import opened Decimals
  import opened BindingTypes
  import opened BindingQuery
  import opened Pools
  import opened Router

  /** `ContractError::InvalidFullDenom`, carrying the rejected full denom. */
  datatype ContractError = InvalidFullDenom(fullDenom: string)

  /** `build_denom`: `factory/{creator}/{subdenom}`, accepted only when the creator has no
      '/', the subdenom is at most 44 long and the creator at most 75. The source's
      `len() < 3` test can never fire (the fixed text alone is 9 long) and its `len() > 128`
      test never decides anything (9 + 75 + 44 = 128). */
  function BuildDenom(creator: string, subdenom: string): (r: Result<string, ContractError>)
    ensures r.Ok? <==> '/' !in creator && |subdenom| <= 44 && |creator| <= 75
    ensures r.Ok? ==> r.value == "factory/" + creator + "/" + subdenom
    ensures r.Err? ==> r.error == InvalidFullDenom("factory/" + creator + "/" + subdenom)
  {
    var fullDenom := "factory/" + creator + "/" + subdenom;
    if |fullDenom| < 3 || |fullDenom| > 128 || '/' in creator || |subdenom| > 44 || |creator| > 75 then
      Err(InvalidFullDenom(fullDenom))
    else
      Ok(fullDenom)
  }

  /** In a factory denom whose creator has no '/', the first '/' after the prefix ends the creator. */
  lemma CreatorEndsAtSlash(creator: string, subdenom: string)
    requires '/' !in creator
    ensures var d := "factory/" + creator + "/" + subdenom;
            d[8 + |creator|] == '/' && forall j :: 8 <= j < 8 + |creator| ==> d[j] != '/'
  {
    var d := "factory/" + creator + "/" + subdenom;
    forall j | 8 <= j < 8 + |creator|
      ensures d[j] != '/'
    {
      assert d[j] == creator[j - 8];
    }
  }

  /** Two accepted (creator, subdenom) pairs never build the same denom. */
  lemma BuildDenomInjective(c1: string, s1: string, c2: string, s2: string)
    requires BuildDenom(c1, s1).Ok? && BuildDenom(c2, s2).Ok?
    requires BuildDenom(c1, s1).value == BuildDenom(c2, s2).value
    ensures c1 == c2 && s1 == s2
  {
    var d := BuildDenom(c1, s1).value;
    CreatorEndsAtSlash(c1, s1);
    CreatorEndsAtSlash(c2, s2);
    assert |c1| == |c2|;
    assert c1 == d[8..8 + |c1|];
    assert c2 == d[8..8 + |c2|];
    assert s1 == d[9 + |c1|..];
    assert s2 == d[9 + |c2|..];
  }

  /** The store after `POOLS.save` of each copy in order: a later copy of a pool
      overwrites an earlier one. */
  function SaveAll(pools: Store, updated: seq<(nat, PoolRecord)>): Store
    decreases |updated|
  {
    if updated == [] then pools
    else
      var last := updated[|updated| - 1];
      SaveAll(pools, updated[..|updated| - 1])[last.0 := last.1]
  }

  /** Saving one more copy is one more map update. */
  lemma SaveAllStep(pools: Store, updated: seq<(nat, PoolRecord)>, i: nat)
    requires i < |updated|
    ensures SaveAll(pools, updated[..i + 1]) == SaveAll(pools, updated[..i])[updated[i].0 := updated[i].1]
  {
    assert updated[..i + 1][..i] == updated[..i];
  }

  /** Saving copies of pools already stored adds no pool. */
  lemma {:induction false} SaveAllKeys(pools: Store, updated: seq<(nat, PoolRecord)>)
    requires forall j :: 0 <= j < |updated| ==> updated[j].0 in pools
    ensures SaveAll(pools, updated).Keys == pools.Keys
    decreases |updated|
  {
    if updated != [] {
      SaveAllKeys(pools, updated[..|updated| - 1]);
    }
  }

  /** The last copy saved for a pool is the one the store keeps. */
  lemma {:induction false} SaveAllLastWins(pools: Store, updated: seq<(nat, PoolRecord)>, k: nat)
    requires k < |updated|
    requires forall j :: k < j < |updated| ==> updated[j].0 != updated[k].0
    ensures updated[k].0 in SaveAll(pools, updated) && SaveAll(pools, updated)[updated[k].0] == updated[k].1
    decreases |updated|
  {
    if k < |updated| - 1 {
      var before := updated[..|updated| - 1];
      SaveAllLastWins(pools, before, k);
    }
  }

  /** A pool with no copy in the list keeps its stored value. */
  lemma {:induction false} SaveAllUntouched(pools: Store, updated: seq<(nat, PoolRecord)>, id: nat)
    requires forall j :: 0 <= j < |updated| ==> updated[j].0 != id
    requires id in pools
    ensures id in SaveAll(pools, updated) && SaveAll(pools, updated)[id] == pools[id]
    decreases |updated|
  {
    if updated != [] {
      SaveAllUntouched(pools, updated[..|updated| - 1], id);
    }
  }

  /** The out-denom of a route: the last step's, or `first`'s when there are no steps. */
  function RouteDenomOut(first: Swap, route: seq<Step>): (d: string)
    ensures d == Hops(first, route)[|route|].denomOut
  {
    HopsEndWhereRouteEnds(first, route);
    if route == [] then first.denomOut else route[|route| - 1].denomOut
  }

  /** What a `Swap` message settles: the trader pays `payIn` of `denomIn` (burned) and gets
      `getOut` of `denomOut` (minted); `response` is the `SwapResponse` amount. */
  datatype Settlement = Settlement(denomIn: string, payIn: nat, denomOut: string, getOut: nat, response: SwapAmount)

  /** A `Swap` message that went through: its settlement and the store after the saves. */
  datatype Executed = Executed(settlement: Settlement, store: Store)

  /** The `OsmosisMsg::Swap` arm over any pool swap: route with the bound dropped, reject a
      result that breaks the bound, then save every updated copy in walk order. */
  function SwapCommandWith(swap: PoolSwap, pools: Store, first: Swap, route: seq<Step>, amount: SwapAmountWithLimit): (r: Result<Executed, OsmosisError>)
    ensures r.Ok? ==> r.value.settlement.denomIn == first.denomIn
    ensures r.Ok? ==> r.value.settlement.denomOut == Hops(first, route)[|route|].denomOut
    ensures r.Ok? && amount.ExactIn? ==>
              var s := r.value.settlement;
              s.payIn == amount.input && s.getOut >= amount.minOutput && s.response == Out(s.getOut)
    ensures r.Ok? && amount.ExactOut? ==>
              var s := r.value.settlement;
              s.getOut == amount.output && s.payIn <= amount.maxInput && s.response == In(s.payIn)
  {
    match RouteWith(swap, pools, first, route, amount.DiscardLimit())
    case Err(e) => Err(e)
    case Ok(plan) =>
      if ViolatesLimit(amount, plan.amount) then Err(PriceTooLow)
      else
        var settlement :=
          match amount
          case ExactIn(input, _) =>
            Settlement(first.denomIn, input, RouteDenomOut(first, route), plan.amount.AsOut(), Out(plan.amount.AsOut()))
          case ExactOut(output, _) =>
            Settlement(first.denomIn, plan.amount.AsIn(), RouteDenomOut(first, route), output, In(plan.amount.AsIn()));
        Ok(Executed(settlement, SaveAll(pools, plan.updatedPools)))
  }

  /** The `OsmosisMsg::Swap` arm of the simulator, whose pools swap by `SwapOutcome`. */
  function SwapCommand(pools: Store, first: Swap, route: seq<Step>, amount: SwapAmountWithLimit): Result<Executed, OsmosisError>
  {
    SwapCommandWith(SwapOutcome, pools, first, route, amount)
  }

  /** `PriceTooLow` comes exactly from a route that succeeds with a result beyond the bound
      (an exact-in payout below `min_output`, an exact-out payment above `max_input`);
      every other failure is the route's own. */
  lemma SwapCommandSlippage(swap: PoolSwap, pools: Store, first: Swap, route: seq<Step>, amount: SwapAmountWithLimit)
    requires Routable(swap)
    ensures var r := SwapCommandWith(swap, pools, first, route, amount);
            var plan := RouteWith(swap, pools, first, route, amount.DiscardLimit());
            && (r == Err(PriceTooLow) <==> plan.Ok? && ViolatesLimit(amount, plan.value.amount))
            && (plan.Err? ==> r == Err(plan.error))
            && (plan.Ok? && !ViolatesLimit(amount, plan.value.amount) ==> r.Ok?)
  {
    RouteShape(swap, pools, first, route, amount.DiscardLimit());
  }

  /** A swap that goes through stores exactly what its route saved. */
  lemma SwapCommandSaves(swap: PoolSwap, pools: Store, first: Swap, route: seq<Step>, amount: SwapAmountWithLimit)
    requires SwapCommandWith(swap, pools, first, route, amount).Ok?
    ensures RouteWith(swap, pools, first, route, amount.DiscardLimit()).Ok?
    ensures SwapCommandWith(swap, pools, first, route, amount).value.store ==
            SaveAll(pools, RouteWith(swap, pools, first, route, amount.DiscardLimit()).value.updatedPools)
  {
  }

  /** A swap that goes through keeps the set of stored pools, and every pool off the route
      keeps its stored value. */
  lemma SwapCommandOffRoute(swap: PoolSwap, pools: Store, first: Swap, route: seq<Step>, amount: SwapAmountWithLimit, id: nat)
    requires Routable(swap)
    requires SwapCommandWith(swap, pools, first, route, amount).Ok?
    ensures SwapCommandWith(swap, pools, first, route, amount).value.store.Keys == pools.Keys
    ensures id in pools && !OnRoute(first, route, id) ==>
              SwapCommandWith(swap, pools, first, route, amount).value.store[id] == pools[id]
  {
    var a := amount.DiscardLimit();
    SwapCommandSaves(swap, pools, first, route, amount);
    var ups := RouteWith(swap, pools, first, route, a).value.updatedPools;
    RouteShape(swap, pools, first, route, a);
    forall j | 0 <= j < |ups|
      ensures ups[j].0 in pools && OnRoute(first, route, ups[j].0)
    {
      RouteSavesHop(swap, pools, first, route, a, j);
    }
    SaveAllKeys(pools, ups);
    if id in pools && !OnRoute(first, route, id) {
      SaveAllUntouched(pools, ups, id);
    }
  }

  /** Where the last copy of pool `id` sits in `updated`, if any. */
  function LastCopy(updated: seq<(nat, PoolRecord)>, id: nat): (k: Option<nat>)
    ensures k.None? <==> forall j :: 0 <= j < |updated| ==> updated[j].0 != id
    ensures k.Some? ==> k.value < |updated| && updated[k.value].0 == id &&
                        forall j :: k.value < j < |updated| ==> updated[j].0 != id
    decreases |updated|
  {
    if updated == [] then None
    else if updated[|updated| - 1].0 == id then Some(|updated| - 1)
    else LastCopy(updated[..|updated| - 1], id)
  }

  /** After a swap that goes through, the pool of hop `i` holds ONE swap applied to its
      previously stored value: the swap of the LAST hop in walking order that uses that pool.
      When a pool appears on several hops, the effect of all the others is lost. */
  lemma SwapCommandOnRoute(swap: PoolSwap, pools: Store, first: Swap, route: seq<Step>, amount: SwapAmountWithLimit, i: nat)
    requires Routable(swap)
    requires SwapCommandWith(swap, pools, first, route, amount).Ok?
    requires i <= |route|
    ensures var order := Order(Hops(first, route), amount.DiscardLimit());
            var id := Hops(first, route)[i].poolId;
            var store := SwapCommandWith(swap, pools, first, route, amount).value.store;
            && id in pools && id in store
            && exists k :: 0 <= k < |order| && order[k].poolId == id && SwappedFrom(swap, pools[id], order[k], store[id]) &&
                           forall j :: k < j < |order| ==> order[j].poolId != id
  {
    var a := amount.DiscardLimit();
    SwapCommandSaves(swap, pools, first, route, amount);
    var ups := RouteWith(swap, pools, first, route, a).value.updatedPools;
    var hops := Hops(first, route);
    var order := Order(hops, a);
    var id := hops[i].poolId;
    RouteSavesHop(swap, pools, first, route, a, if a.In? then i else |route| - i);
    RouteShape(swap, pools, first, route, a);
    var k := LastCopy(ups, id).value;
    SaveAllLastWins(pools, ups, k);
    assert Recorded(swap, pools, order[k], ups[k]);
    forall j | k < j < |order|
      ensures order[j].poolId != id
    {
      assert Recorded(swap, pools, order[j], ups[j]);
    }
  }

  /** `EstimateSwap`: the amount `complex_swap` computes, nothing saved. */
  function Estimate(pools: Store, first: Swap, route: seq<Step>, amount: SwapAmount): (r: Result<SwapAmount, OsmosisError>)
    ensures r.Ok? ==> (r.value.Out? <==> amount.In?)
  {
    match Route(pools, first, route, amount)
    case Ok(plan) => Ok(plan.amount)
    case Err(e) => Err(e)
  }

  /** A swap that goes through answers with what the estimate for its exact side says. */
  lemma EstimateAgreesWithSwap(pools: Store, first: Swap, route: seq<Step>, amount: SwapAmountWithLimit)
    requires SwapCommand(pools, first, route, amount).Ok?
    ensures Estimate(pools, first, route, amount.DiscardLimit()) == Ok(SwapCommand(pools, first, route, amount).value.settlement.response)
  {
    SwapCommandSaves(SwapOutcome, pools, first, route, amount);
    var plan := RouteWith(SwapOutcome, pools, first, route, amount.DiscardLimit());
    assert Estimate(pools, first, route, amount.DiscardLimit()) == Ok(plan.value.amount);
  }

  /** The custom module of the simulated chain, over its pool store `POOLS`. */
  class OsmosisModule {
    var pools: Store

    /** An empty store. */
    constructor ()
      ensures pools == map[]
    {
      pools := map[];
    }

    /** `set_pool`: `POOLS.save` of one pool. */
    method SetPool(poolId: nat, pool: PoolRecord)
      modifies this
      ensures pools == old(pools)[poolId := pool]
    {
      pools := pools[poolId := pool];
    }

    /** The `PoolState` query: the stored pool's assets and its LP shares. */
    function PoolState(id: nat): (r: Result<PoolStateResponse, OsmosisError>)
      reads this
      ensures r.Err? <==> id !in pools
      ensures r.Err? ==> r.error == Std(NotFound("Pool"))
      ensures r.Ok? ==> r.value.assets == pools[id].assets && r.value.shares == Coin(GammDenom(id), pools[id].shares)
    {
      if id !in pools then Err(Std(NotFound("Pool"))) else Ok(IntoResponse(pools[id], id))
    }

    /** The `SpotPrice` query: the stored pool's spot price for the swap's denoms. */
    function QuerySpotPrice(swap: Swap, withSwapFee: bool): (r: Result<Decimal, OsmosisError>)
      reads this
      ensures swap.poolId !in pools ==> r == Err(Std(NotFound("Pool")))
      ensures swap.poolId in pools ==>
                (r == Err(AssetNotInPool) <==> NoDenom(pools[swap.poolId].assets, swap.denomIn) || NoDenom(pools[swap.poolId].assets, swap.denomOut))
      ensures swap.poolId in pools ==> r == Pools.SpotPrice(pools[swap.poolId], swap.denomIn, swap.denomOut, withSwapFee)
    {
      if swap.poolId !in pools then Err(Std(NotFound("Pool")))
      else Pools.SpotPrice(pools[swap.poolId], swap.denomIn, swap.denomOut, withSwapFee)
    }

    /** The `EstimateSwap` query: run `complex_swap` and report its amount; nothing is saved. */
    method EstimateSwap(first: Swap, route: seq<Step>, amount: SwapAmount) returns (r: Result<SwapAmount, OsmosisError>)
      ensures r == Estimate(pools, first, route, amount)
    {
      var routed := ComplexSwap(pools, first, route, amount);
      if routed.Err? {
        return Err(routed.error);
      }
      r := Ok(routed.value.amount);
    }

    /** `POOLS.save` of every copy, in order. */
    method SaveCopies(updated: seq<(nat, PoolRecord)>)
      modifies this
      ensures pools == SaveAll(old(pools), updated)
    {
      var i := 0;
      while i < |updated|
        invariant 0 <= i <= |updated|
        invariant pools == SaveAll(old(pools), updated[..i])
      {
        SaveAllStep(old(pools), updated, i);
        pools := pools[updated[i].0 := updated[i].1];
        i := i + 1;
      }
      assert updated[..|updated|] == updated;
    }

    /** The `Swap` message: route on copies, check the bound, and only then save every
        copy in walk order. A failure at any point leaves the store as it was. */
    method ExecuteSwap(first: Swap, route: seq<Step>, amount: SwapAmountWithLimit) returns (r: Result<Settlement, OsmosisError>)
      modifies this
      ensures match SwapCommand(old(pools), first, route, amount)
              case Ok(x) => r == Ok(x.settlement) && pools == x.store
              case Err(e) => r == Err(e) && pools == old(pools)
    {
      var denomIn := first.denomIn;
      var denomOut := if route == [] then first.denomOut else route[|route| - 1].denomOut;
      var routed := ComplexSwap(pools, first, route, amount.DiscardLimit());
      if routed.Err? {
        return Err(routed.error);
      }
      var swapResult := routed.value.amount;
      if amount.ExactIn? && swapResult.AsOut() < amount.minOutput {
        return Err(PriceTooLow);
      }
      if amount.ExactOut? && swapResult.AsIn() > amount.maxInput {
        return Err(PriceTooLow);
      }
      SaveCopies(routed.value.updatedPools);
      var payIn, getOut;
      if amount.ExactIn? {
        payIn, getOut := amount.input, swapResult.AsOut();
      } else {
        payIn, getOut := swapResult.AsIn(), amount.output;
      }
      var response := if amount.ExactIn? then Out(getOut) else In(payIn);
      r := Ok(Settlement(denomIn, payIn, denomOut, getOut, response));
    }
  }
}
