/**
 * The custom queries a contract can put to the Osmosis chain, the helpers that
 * build the common ones, and the pool-state answer with its pro-rata helper.
 */
module BindingQuery {
  import opened BindingTypes
  import opened Decimals

  datatype OsmosisQuery =
    | FullDenom(creatorAddr: string, subdenom: string)
    | PoolState(id: nat)
    | SpotPrice(swap: Swap, withSwapFee: bool)
    | EstimateSwap(sender: string, first: Swap, route: seq<Step>, amount: SwapAmount)
    | ArithmeticTwap(id: nat, quoteAssetDenom: string, baseAssetDenom: string, startTime: int, endTime: int)
    | ArithmeticTwapToNow(id: nat, quoteAssetDenom: string, baseAssetDenom: string, startTime: int)

  /** `OsmosisQuery::spot_price`: a spot-price query on one pool, without the swap fee. */
  function SpotPriceQuery(poolId: nat, denomIn: string, denomOut: string): (q: OsmosisQuery)
    ensures q.SpotPrice? && !q.withSwapFee
    ensures q.swap.poolId == poolId && q.swap.denomIn == denomIn && q.swap.denomOut == denomOut
  {
    SpotPrice(Swap(poolId, denomIn, denomOut), false)
  }

  /** `OsmosisQuery::estimate_swap`: a one-hop estimate (empty route). */
  function EstimateSwapQuery(contract: string, poolId: nat, denomIn: string, denomOut: string,
                             amount: SwapAmount): (q: OsmosisQuery)
    ensures q.EstimateSwap? && q.route == [] && q.sender == contract && q.amount == amount
    ensures q.first.poolId == poolId && q.first.denomIn == denomIn && q.first.denomOut == denomOut
  {
    EstimateSwap(contract, Swap(poolId, denomIn, denomOut), [], amount)
  }

  /** `OsmosisQuery::arithmetic_twap`: every argument is carried over verbatim. */
  function ArithmeticTwapQuery(poolId: nat, quoteAssetDenom: string, baseAssetDenom: string,
                               startTime: int, endTime: int): (q: OsmosisQuery)
    ensures q.ArithmeticTwap? && q.id == poolId
    ensures q.quoteAssetDenom == quoteAssetDenom && q.baseAssetDenom == baseAssetDenom
    ensures q.startTime == startTime && q.endTime == endTime
  {
    ArithmeticTwap(poolId, quoteAssetDenom, baseAssetDenom, startTime, endTime)
  }

  /** `OsmosisQuery::arithmetic_twap_to_now`: every argument is carried over verbatim. */
  function ArithmeticTwapToNowQuery(poolId: nat, quoteAssetDenom: string, baseAssetDenom: string,
                                    startTime: int): (q: OsmosisQuery)
    ensures q.ArithmeticTwapToNow? && q.id == poolId
    ensures q.quoteAssetDenom == quoteAssetDenom && q.baseAssetDenom == baseAssetDenom
    ensures q.startTime == startTime
  {
    ArithmeticTwapToNow(poolId, quoteAssetDenom, baseAssetDenom, startTime)
  }

  /** The answer to a `PoolState` query: current liquidity and the LP share coin. */
  datatype PoolStateResponse = PoolStateResponse(assets: seq<Coin>, shares: Coin)
  {
    /** `has_denom`: some listed asset carries this denom. */
    function HasDenom(denom: string): (b: bool)
      ensures b <==> exists i :: 0 <= i < |assets| && assets[i].denom == denom
    {
      AnyDenom(assets, denom)
    }

    /** `lp_denom`: the denom of the LP share coin. */
    function LpDenom(): (d: string)
      ensures Coin(d, shares.amount) == shares
    {
      shares.denom
    }

    /** `shares_value`: what `numShares` LP shares are worth, asset by asset, rounded down.
        The source divides by the share total, so it must not be zero. */
    function SharesValue(numShares: nat): (v: seq<Coin>)
      requires shares.amount > 0
      ensures |v| == |assets|
      ensures forall i :: 0 <= i < |v| ==> v[i].denom == assets[i].denom
      ensures forall i :: 0 <= i < |v| ==>
                v[i].amount * shares.amount <= assets[i].amount * numShares < (v[i].amount + 1) * shares.amount
    {
      seq(|assets|, i requires 0 <= i < |assets| =>
        Coin(assets[i].denom, assets[i].amount * numShares / shares.amount))
    }
  }

  /** Iterator `any` over a coin list, comparing denoms. */
  function AnyDenom(coins: seq<Coin>, denom: string): (b: bool)
    ensures b <==> exists i :: 0 <= i < |coins| && coins[i].denom == denom
    decreases |coins|
  {
    if coins == [] then
      false
    else
      var rest := AnyDenom(coins[1..], denom);
      assert forall i :: 1 <= i < |coins| ==> coins[i] == coins[1..][i - 1];
      coins[0].denom == denom || rest
  }

  /** Holding every share is worth exactly the pool's assets. */
  lemma SharesValueOfAllShares(r: PoolStateResponse)
    requires r.shares.amount > 0
    ensures r.SharesValue(r.shares.amount) == r.assets
  {
    var v := r.SharesValue(r.shares.amount);
    forall i | 0 <= i < |v| ensures v[i] == r.assets[i] {
      Cancel(r.assets[i].amount, r.shares.amount);
    }
  }

  /** Holding no share is worth nothing of any asset. */
  lemma SharesValueOfNoShares(r: PoolStateResponse)
    requires r.shares.amount > 0
    ensures forall c :: c in r.SharesValue(0) ==> c.amount == 0
  {
  }

  /** More shares are never worth less, asset by asset. */
  lemma SharesValueMonotone(r: PoolStateResponse, m: nat, n: nat)
    requires r.shares.amount > 0
    requires m <= n
    ensures forall i :: 0 <= i < |r.assets| ==> r.SharesValue(m)[i].amount <= r.SharesValue(n)[i].amount
  {
    forall i | 0 <= i < |r.assets|
      ensures r.SharesValue(m)[i].amount <= r.SharesValue(n)[i].amount
    {
      var a := r.assets[i].amount;
      assert a * m <= a * n by { MulLeftMonotone(a, m, n); }
      DivMonotone(a * m, a * n, r.shares.amount);
    }
  }

}
