/**
 * One liquidity pool of the simulator: its balances, LP share total and fee,
 * the constant-product swap in both directions, and its spot price.
 *
 * `PoolRecord` is the value kept in the pool store (the serialized `Pool`);
 * the class `Pool` is the in-memory copy that `set_amount` and `swap` change
 * in place. Loading a record always yields a fresh object.
 */
module Pools {
  import opened Wrappers
  import opened Decimals
  import opened BindingTypes
  import opened BindingQuery

  /**
   * `OsmosisError`. `Panic` is not a variant of the source enum: it stands for
   * a Rust panic (an unsigned underflow or a division by zero), which aborts
   * the call; modelling it as a failure keeps every function total and, like
   * any error, commits nothing.
   */
  datatype OsmosisError =
    | Std(err: StdError)
    | AssetNotInPool
    | PriceTooLow
    | Unimplemented
    | Panic(reason: string)

  /** The fee `Pool::new` gives every pool: 0.3 %. */
  const DEFAULT_FEE: Decimal := 3_000_000_000_000_000

  datatype PoolRecord = PoolRecord(assets: seq<Coin>, shares: nat, fee: Decimal)

  /** Result of one swap: the amount on the side that was not fixed, and the pool after it. */
  datatype Swapped = Swapped(amount: SwapAmount, pool: PoolRecord)

  predicate NoDenom(assets: seq<Coin>, denom: string)
  {
    forall j :: 0 <= j < |assets| ==> assets[j].denom != denom
  }

  /** Index of the first coin with this denom (iterator `position`). */
  function Position(assets: seq<Coin>, denom: string): (r: Option<nat>)
    ensures r.Some? ==> r.value < |assets| && assets[r.value].denom == denom
    ensures r.Some? ==> forall j :: 0 <= j < r.value ==> assets[j].denom != denom
    ensures r.None? <==> NoDenom(assets, denom)
    decreases |assets|
  {
    if assets == [] then None
    else if assets[0].denom == denom then Some(0)
    else
      var rest := Position(assets[1..], denom);
      assert forall j :: 1 <= j < |assets| ==> assets[j] == assets[1..][j - 1];
      match rest
      case None => None
      case Some(k) => Some(k + 1)
  }

  /** A denom is in the pool exactly when `position` finds it. */
  lemma PositionFindsListed(assets: seq<Coin>, denom: string)
    ensures Position(assets, denom).Some? <==> AnyDenom(assets, denom)
  {
  }

  /** `get_amount`: the amount of the first coin with this denom, if any. */
  function GetAmount(assets: seq<Coin>, denom: string): (r: Option<nat>)
    ensures r.None? <==> NoDenom(assets, denom)
    ensures r.Some? ==> Position(assets, denom).Some? && r.value == assets[Position(assets, denom).value].amount
    ensures r.Some? ==> exists i :: 0 <= i < |assets| && assets[i] == Coin(denom, r.value)
  {
    match Position(assets, denom)
    case Some(i) => Some(assets[i].amount)
    case None => None
  }

  /** `set_amount` on a coin list: overwrite the first coin with this denom. */
  function AssetsWithAmount(assets: seq<Coin>, denom: string, amount: nat): (r: Result<seq<Coin>, OsmosisError>)
    ensures r.Err? <==> NoDenom(assets, denom)
    ensures r.Err? ==> r.error == AssetNotInPool
    ensures r.Ok? ==> |r.value| == |assets|
    ensures r.Ok? ==> forall j :: 0 <= j < |assets| ==> r.value[j].denom == assets[j].denom
    ensures r.Ok? ==> GetAmount(r.value, denom) == Some(amount)
    ensures r.Ok? ==> forall j :: 0 <= j < |assets| && j != Position(assets, denom).value ==> r.value[j] == assets[j]
  {
    match Position(assets, denom)
    case None => Err(AssetNotInPool)
    case Some(i) =>
      var a := assets[i := Coin(assets[i].denom, amount)];
      assert Position(a, denom) == Some(i) by { PositionSameDenoms(assets, a, denom); }
      Ok(a)
  }

  /** `position` looks only at denoms. */
  lemma {:induction false} PositionSameDenoms(a: seq<Coin>, b: seq<Coin>, denom: string)
    requires |a| == |b|
    requires forall j :: 0 <= j < |a| ==> a[j].denom == b[j].denom
    ensures Position(a, denom) == Position(b, denom)
    decreases |a|
  {
    if a != [] && a[0].denom != denom {
      PositionSameDenoms(a[1..], b[1..], denom);
    }
  }

  /** Other denoms keep their amounts when one denom is overwritten. */
  lemma GetAmountOther(assets: seq<Coin>, denom: string, amount: nat, other: string)
    requires !NoDenom(assets, denom) && other != denom
    ensures GetAmount(AssetsWithAmount(assets, denom, amount).value, other) == GetAmount(assets, other)
  {
    var a := AssetsWithAmount(assets, denom, amount).value;
    PositionSameDenoms(assets, a, other);
  }

  /** The two `set_amount` calls that close a swap: the in-denom first, then the out-denom. */
  function Rebalance(assets: seq<Coin>, denomIn: string, finalIn: nat, denomOut: string, finalOut: nat): (r: seq<Coin>)
    requires !NoDenom(assets, denomIn) && !NoDenom(assets, denomOut)
    ensures |r| == |assets|
    ensures forall j :: 0 <= j < |assets| ==> r[j].denom == assets[j].denom
    ensures forall j :: 0 <= j < |assets| && j != Position(assets, denomIn).value && j != Position(assets, denomOut).value ==>
              r[j] == assets[j]
  {
    var a := AssetsWithAmount(assets, denomIn, finalIn).value;
    assert !NoDenom(a, denomOut);
    PositionSameDenoms(assets, a, denomOut);
    AssetsWithAmount(a, denomOut, finalOut).value
  }

  /** After the rebalance the out-denom holds its new amount, and so does a distinct
      in-denom; when the two denoms coincide, the second write (the out-balance) wins. */
  lemma RebalanceAmounts(assets: seq<Coin>, denomIn: string, finalIn: nat, denomOut: string, finalOut: nat)
    requires !NoDenom(assets, denomIn) && !NoDenom(assets, denomOut)
    ensures GetAmount(Rebalance(assets, denomIn, finalIn, denomOut, finalOut), denomOut) == Some(finalOut)
    ensures denomIn != denomOut ==> GetAmount(Rebalance(assets, denomIn, finalIn, denomOut, finalOut), denomIn) == Some(finalIn)
  {
    var a := AssetsWithAmount(assets, denomIn, finalIn).value;
    if denomIn != denomOut {
      GetAmountOther(a, denomOut, finalOut, denomIn);
    }
  }

  /** `Pool::new`: an equal-weighted two-asset pool, 0.3 % fee, shares the floor square
      root of the product of the seed amounts. */
  function NewPool(a: Coin, b: Coin): (p: PoolRecord)
    ensures p.assets == [a, b] && p.fee == DEFAULT_FEE
    ensures p.shares * p.shares <= a.amount * b.amount < (p.shares + 1) * (p.shares + 1)
  {
    PoolRecord([a, b], Isqrt(a.amount * b.amount), DEFAULT_FEE)
  }

  /** `Pool::spot_price`: out-balance (times 1 - fee when asked) over in-balance. */
  function SpotPrice(p: PoolRecord, denomIn: string, denomOut: string, withSwapFee: bool): (r: Result<Decimal, OsmosisError>)
    ensures r == Err(AssetNotInPool) <==> NoDenom(p.assets, denomIn) || NoDenom(p.assets, denomOut)
    ensures r.Err? && r.error != AssetNotInPool ==> r.error.Panic?
    ensures r.Ok? <==> !NoDenom(p.assets, denomIn) && !NoDenom(p.assets, denomOut) &&
                       GetAmount(p.assets, denomIn).value > 0 && (withSwapFee ==> p.fee <= FRACTIONAL)
    ensures r.Ok? ==> GetAmount(p.assets, denomIn).value > 0
    ensures r.Ok? && withSwapFee ==>
              var balIn, balOut := GetAmount(p.assets, denomIn).value, GetAmount(p.assets, denomOut).value;
              p.fee <= FRACTIONAL &&
              r.value * balIn <= MulFloor(balOut, FRACTIONAL - p.fee) * FRACTIONAL < (r.value + 1) * balIn
    ensures r.Ok? && !withSwapFee ==>
              var balIn, balOut := GetAmount(p.assets, denomIn).value, GetAmount(p.assets, denomOut).value;
              r.value * balIn <= balOut * FRACTIONAL < (r.value + 1) * balIn
  {
    match (GetAmount(p.assets, denomIn), GetAmount(p.assets, denomOut))
    case (Some(balIn), Some(balOut)) =>
      if withSwapFee && p.fee > FRACTIONAL then Err(Panic("Decimal subtraction underflow"))
      else if balIn == 0 then Err(Panic("Denominator must not be zero"))
      else
        var mult := if withSwapFee then FRACTIONAL - p.fee else FRACTIONAL;
        Ok(FromRatio(MulFloor(balOut, mult), balIn))
    case _ => Err(AssetNotInPool)
  }

  /** Charging the fee never raises the spot price. */
  lemma SpotPriceFeeNotAbove(p: PoolRecord, denomIn: string, denomOut: string)
    requires SpotPrice(p, denomIn, denomOut, true).Ok?
    ensures SpotPrice(p, denomIn, denomOut, false).Ok?
    ensures SpotPrice(p, denomIn, denomOut, true).value <= SpotPrice(p, denomIn, denomOut, false).value
  {
    var balIn, balOut := GetAmount(p.assets, denomIn).value, GetAmount(p.assets, denomOut).value;
    var m := FRACTIONAL - p.fee;
    MulRightMonotone(m, FRACTIONAL, balOut);
    assert balOut * m <= balOut * FRACTIONAL;
    DivMonotone(balOut * m, balOut * FRACTIONAL, FRACTIONAL);
    MulRightMonotone(MulFloor(balOut, m), MulFloor(balOut, FRACTIONAL), FRACTIONAL);
    DivMonotone(MulFloor(balOut, m) * FRACTIONAL, MulFloor(balOut, FRACTIONAL) * FRACTIONAL, balIn);
  }

  /** The new in- and out-balances of a swap and the amount it reports. */
  datatype Quote = Quote(finalIn: nat, finalOut: nat, amount: SwapAmount)

  /**
   * The arithmetic of `Pool::swap` (the `match amount` that computes
   * `(final_in, final_out, payout)`): the constant-product exchange with the fee
   * taken on the input. A source panic is reported as `Panic`.
   */
  function SwapQuote(balIn: nat, balOut: nat, fee: Decimal, amount: SwapAmount): (r: Result<Quote, OsmosisError>)
    ensures r.Err? ==> r.error.Panic?
    ensures r.Ok? ==> (r.value.amount.Out? <==> amount.In?)
  {
    match amount
    case In(input) => QuoteIn(balIn, balOut, fee, input)
    case Out(output) => QuoteOut(balIn, balOut, fee, output)
  }

  /** The exact-in arm of `SwapQuote`. */
  function QuoteIn(balIn: nat, balOut: nat, fee: Decimal, input: nat): (r: Result<Quote, OsmosisError>)
    ensures r.Err? ==> r.error.Panic?
    ensures r.Ok? ==> r.value.amount.Out?
  {
    if fee > FRACTIONAL then Err(Panic("Decimal subtraction underflow"))
    else
      var inputMinusFee := MulFloor(input, FRACTIONAL - fee);
      if balIn + inputMinusFee == 0 then Err(Panic("division by zero"))
      else
        var finalOut := balIn * balOut / (balIn + inputMinusFee);
        KeptNotAbove(balIn, balOut, inputMinusFee);
        Ok(Quote(balIn + input, finalOut, Out(balOut - finalOut)))
  }

  /** The exact-out arm of `SwapQuote`. */
  function QuoteOut(balIn: nat, balOut: nat, fee: Decimal, output: nat): (r: Result<Quote, OsmosisError>)
    ensures r.Err? ==> r.error.Panic?
    ensures r.Ok? ==> r.value.amount.In?
  {
    if output >= balOut then Err(Panic("Uint128 underflow or division by zero"))
    else if fee >= FRACTIONAL then Err(Panic("Decimal subtraction underflow or division by zero"))
    else
      var inWithoutFee := balIn * balOut / (balOut - output);
      NeedNotBelow(balIn, balOut, output);
      var mult := FRACTIONAL - fee;
      var payInclFee := (inWithoutFee - balIn) * FRACTIONAL / mult + 1;
      Ok(Quote(balIn + payInclFee, balOut - output, In(payInclFee)))
  }

  /**
   * `Pool::swap` on a stored value: fail with `AssetNotInPool` unless both denoms
   * are listed, compute the quote, then `set_amount` the in-denom and the out-denom.
   */
  function SwapOutcome(p: PoolRecord, denomIn: string, denomOut: string, amount: SwapAmount): (r: Result<Swapped, OsmosisError>)
    ensures r == Err(AssetNotInPool) <==> NoDenom(p.assets, denomIn) || NoDenom(p.assets, denomOut)
    ensures r.Err? ==> r.error == AssetNotInPool || r.error.Panic?
    ensures r.Ok? ==> (r.value.amount.Out? <==> amount.In?)
    ensures r.Ok? ==> r.value.pool.shares == p.shares && r.value.pool.fee == p.fee
    ensures r.Ok? ==> |r.value.pool.assets| == |p.assets|
    ensures r.Ok? ==> forall j :: 0 <= j < |p.assets| ==> r.value.pool.assets[j].denom == p.assets[j].denom
  {
    match (GetAmount(p.assets, denomIn), GetAmount(p.assets, denomOut))
    case (Some(balIn), Some(balOut)) =>
      (match SwapQuote(balIn, balOut, p.fee, amount)
       case Err(e) => Err(e)
       case Ok(q) => Ok(Swapped(q.amount, p.(assets := Rebalance(p.assets, denomIn, q.finalIn, denomOut, q.finalOut)))))
    case _ => Err(AssetNotInPool)
  }

  /** Exact-in: the pool keeps `floor(bal_in*bal_out/(bal_in + input*(1-fee)))` of the
      out-asset, takes the whole input, and pays out the rest, never more than it holds. */
  lemma ExactInQuote(balIn: nat, balOut: nat, fee: Decimal, input: nat)
    requires fee <= FRACTIONAL
    requires balIn + MulFloor(input, FRACTIONAL - fee) > 0
    ensures var d := balIn + MulFloor(input, FRACTIONAL - fee);
            var r := SwapQuote(balIn, balOut, fee, In(input));
            && r.Ok?
            && r.value.finalIn == balIn + input
            && r.value.finalOut * d <= balIn * balOut < (r.value.finalOut + 1) * d
            && r.value.amount == Out(balOut - r.value.finalOut)
            && r.value.amount.output <= balOut
  {
    var d := balIn + MulFloor(input, FRACTIONAL - fee);
    FloorDiv(balIn * balOut, d);
  }

  /** Exact-in keeps the constant product only up to rounding: had the pool kept one more
      unit of the out-asset, the product would exceed the old one. */
  lemma ExactInProductWithinRounding(balIn: nat, balOut: nat, fee: Decimal, input: nat)
    requires SwapQuote(balIn, balOut, fee, In(input)).Ok?
    ensures var q := SwapQuote(balIn, balOut, fee, In(input)).value;
            balIn * balOut < q.finalIn * (q.finalOut + 1)
  {
    var q := SwapQuote(balIn, balOut, fee, In(input)).value;
    var imf := MulFloor(input, FRACTIONAL - fee);
    var d := balIn + imf;
    ExactInQuote(balIn, balOut, fee, input);
    assert imf <= input by {
      MulLeftMonotone(input, FRACTIONAL - fee, FRACTIONAL);
    }
    MulRightMonotone(d, q.finalIn, q.finalOut + 1);
  }

  /** ... but not exactly: a fee-free pool 3/3 taking 1 pays out 1 and is left with 4 * 2 < 3 * 3. */
  lemma ExactInCanLowerProduct()
    ensures var r := SwapQuote(3, 3, 0, In(1));
            r.Ok? && r.value == Quote(4, 2, Out(1)) && r.value.finalIn * r.value.finalOut < 3 * 3
  {
  }

  /** Exact-out: the pool gives exactly `output` and charges `floor(need * 10^18 / numer(1-fee)) + 1`,
      where `need = floor(bal_in*bal_out/(bal_out-output)) - bal_in`; so the charge is strictly
      above `need / (1-fee)` and at most one unit above it. */
  lemma ExactOutQuote(balIn: nat, balOut: nat, fee: Decimal, output: nat)
    requires output < balOut && fee < FRACTIONAL
    ensures var w := balIn * balOut / (balOut - output);
            var r := SwapQuote(balIn, balOut, fee, Out(output));
            && w >= balIn
            && r.Ok? && r.value.amount.In?
            && r.value.finalOut == balOut - output
            && r.value.finalIn == balIn + r.value.amount.input
            && (r.value.amount.input - 1) * (FRACTIONAL - fee) <= (w - balIn) * FRACTIONAL
            && (w - balIn) * FRACTIONAL < r.value.amount.input * (FRACTIONAL - fee)
  {
    var w := balIn * balOut / (balOut - output);
    NeedNotBelow(balIn, balOut, output);
    FloorDiv((w - balIn) * FRACTIONAL, FRACTIONAL - fee);
  }

  /** Exact-out always leaves the pool with a strictly larger constant product. */
  lemma ExactOutRaisesProduct(balIn: nat, balOut: nat, fee: Decimal, output: nat)
    requires SwapQuote(balIn, balOut, fee, Out(output)).Ok?
    ensures var q := SwapQuote(balIn, balOut, fee, Out(output)).value;
            q.finalIn * q.finalOut > balIn * balOut
  {
    var q := SwapQuote(balIn, balOut, fee, Out(output)).value;
    ExactOutQuote(balIn, balOut, fee, output);
    var e := balOut - output;
    var w := balIn * balOut / e;
    var m := FRACTIONAL - fee;
    var pay := q.amount.input;
    FloorDiv(balIn * balOut, e);
    assert (w - balIn) * m <= (w - balIn) * FRACTIONAL by {
      MulLeftMonotone(w - balIn, m, FRACTIONAL);
    }
    assert pay >= w - balIn + 1 by {
      if pay < w - balIn + 1 {
        MulRightMonotone(pay, w - balIn, m);
      }
    }
    MulRightMonotone(w + 1, q.finalIn, e);
  }

  /** The gross-up is floor + 1, not a ceiling: when the division is exact it charges one
      unit more than needed. Pool 997/2 at 0.3 %, exact-out 1: the fee-free need is 997,
      1000 units would cover it after the fee, and the swap charges 1001. */
  lemma ExactOutOverchargesWhenExact()
    ensures var r := SwapQuote(997, 2, DEFAULT_FEE, Out(1));
            && r.Ok? && r.value.amount == In(1001)
            && 1000 * (FRACTIONAL - DEFAULT_FEE) >= 997 * FRACTIONAL
  {
  }

  /** After a swap the pool holds the quoted out-balance, and the quoted in-balance when the
      two denoms differ (for one denom the out-balance, written last, wins); every other
      coin is left as it was. */
  lemma SwapOutcomeBalances(p: PoolRecord, denomIn: string, denomOut: string, amount: SwapAmount)
    requires SwapOutcome(p, denomIn, denomOut, amount).Ok?
    ensures var balIn, balOut := GetAmount(p.assets, denomIn).value, GetAmount(p.assets, denomOut).value;
            var q := SwapQuote(balIn, balOut, p.fee, amount).value;
            var after := SwapOutcome(p, denomIn, denomOut, amount).value;
            && after.amount == q.amount
            && GetAmount(after.pool.assets, denomOut) == Some(q.finalOut)
            && (denomIn != denomOut ==> GetAmount(after.pool.assets, denomIn) == Some(q.finalIn))
            && forall j :: 0 <= j < |p.assets| && j != Position(p.assets, denomIn).value && j != Position(p.assets, denomOut).value ==>
                 after.pool.assets[j] == p.assets[j]
  {
    var balIn, balOut := GetAmount(p.assets, denomIn).value, GetAmount(p.assets, denomOut).value;
    var q := SwapQuote(balIn, balOut, p.fee, amount).value;
    RebalanceAmounts(p.assets, denomIn, q.finalIn, denomOut, q.finalOut);
  }

  /** The balance an exact-in swap leaves never exceeds the out-balance. */
  lemma KeptNotAbove(balIn: nat, balOut: nat, added: nat)
    requires balIn + added > 0
    ensures balIn * balOut / (balIn + added) <= balOut
  {
    MulRightMonotone(balIn, balIn + added, balOut);
    DivMonotone(balIn * balOut, (balIn + added) * balOut, balIn + added);
    Cancel(balOut, balIn + added);
  }

  /** The fee-free input an exact-out swap needs covers at least the old in-balance. */
  lemma NeedNotBelow(balIn: nat, balOut: nat, output: nat)
    requires output < balOut
    ensures balIn * balOut / (balOut - output) >= balIn
  {
    var d := balOut - output;
    MulLeftMonotone(balIn, d, balOut);
    DivMonotone(balIn * d, balIn * balOut, d);
    Cancel(balIn, d);
  }

  /** When `swap`'s arithmetic panics: exact-in when the fee exceeds 1 (`1 - fee` underflows)
      or nothing reaches the pool (division by zero); exact-out when the output is not below
      the out-balance (`bal_out - output` is zero or underflows) or the fee is at least 1. */
  lemma SwapQuoteFails(balIn: nat, balOut: nat, fee: Decimal, amount: SwapAmount)
    ensures amount.In? ==>
              (SwapQuote(balIn, balOut, fee, amount).Err? <==>
               fee > FRACTIONAL || balIn + MulFloor(amount.input, FRACTIONAL - fee) == 0)
    ensures amount.Out? ==>
              (SwapQuote(balIn, balOut, fee, amount).Err? <==> amount.output >= balOut || fee >= FRACTIONAL)
  {
  }

  /** Asking a pool for its whole out-balance or more never succeeds: the source's
      `bal_out - output` divides by zero or underflows. */
  lemma CannotDrainPool(p: PoolRecord, denomIn: string, denomOut: string, output: nat)
    requires !NoDenom(p.assets, denomIn) && !NoDenom(p.assets, denomOut)
    requires output >= GetAmount(p.assets, denomOut).value
    ensures SwapOutcome(p, denomIn, denomOut, Out(output)).Err?
    ensures SwapOutcome(p, denomIn, denomOut, Out(output)).error.Panic?
  {
    var balIn, balOut := GetAmount(p.assets, denomIn).value, GetAmount(p.assets, denomOut).value;
    SwapQuoteFails(balIn, balOut, p.fee, Out(output));
  }

  /** `swap_with_limit`'s bound check: true when the result breaks the caller's bound.
      Equality with the bound passes. */
  predicate ViolatesLimit(limit: SwapAmountWithLimit, result: SwapAmount)
    requires limit.ExactIn? <==> result.Out?
  {
    match limit
    case ExactIn(_, minOutput) => result.AsOut() < minOutput
    case ExactOut(_, maxInput) => result.AsIn() > maxInput
  }

  /** `gamm_denom`: the LP share denom of a pool. */
  function GammDenom(poolId: nat): (d: string)
    ensures |d| > 10 && d[..10] == "gamm/pool/"
    ensures IsDigits(d[10..]) && ParseDecimal(d[10..]) == poolId
    ensures |d| > 11 ==> d[10] != '0'
  {
    var d := "gamm/pool/" + DecimalString(poolId);
    assert d[10..] == DecimalString(poolId);
    DecimalStringRoundTrip(poolId);
    d
  }

  /** Different pools never share an LP denom. */
  lemma GammDenomInjective(a: nat, b: nat)
    requires GammDenom(a) == GammDenom(b)
    ensures a == b
  {
  }

  /** `into_response`: the pool's assets and its LP shares under the pool's gamm denom. */
  function IntoResponse(p: PoolRecord, poolId: nat): (r: PoolStateResponse)
    ensures r.assets == p.assets
    ensures r.LpDenom() == GammDenom(poolId) && r.shares.amount == p.shares
    ensures forall d :: r.HasDenom(d) <==> !NoDenom(p.assets, d)
  {
    PoolStateResponse(p.assets, Coin(GammDenom(poolId), p.shares))
  }

  /** The in-memory `Pool`, whose `set_amount` and `swap` change its balances in place. */
  class Pool {
    var assets: seq<Coin>
    var shares: nat
    var fee: Decimal

    /** The value this object would be saved as. */
    function Record(): PoolRecord
      reads this
    {
      PoolRecord(assets, shares, fee)
    }

    /** `POOLS.load`: a fresh copy of a stored pool. */
    constructor Load(r: PoolRecord)
      ensures Record() == r
    {
      assets := r.assets;
      shares := r.shares;
      fee := r.fee;
    }

    /** `set_amount`: overwrite one balance, or fail and change nothing. */
    method SetAmount(denom: string, amount: nat) returns (r: Result<(), OsmosisError>)
      modifies this
      ensures shares == old(shares) && fee == old(fee)
      ensures match AssetsWithAmount(old(assets), denom, amount)
              case Ok(a) => r == Ok(()) && assets == a
              case Err(e) => r == Err(e) && assets == old(assets)
    {
      var pos := Position(assets, denom);
      if pos.None? {
        return Err(AssetNotInPool);
      }
      assets := assets[pos.value := Coin(assets[pos.value].denom, amount)];
      r := Ok(());
    }

    /** `swap`: check both denoms, compute, then overwrite both balances. */
    method Swap(denomIn: string, denomOut: string, amount: SwapAmount) returns (r: Result<SwapAmount, OsmosisError>)
      modifies this
      ensures match SwapOutcome(old(Record()), denomIn, denomOut, amount)
              case Ok(s) => r == Ok(s.amount) && Record() == s.pool
              case Err(e) => r == Err(e) && Record() == old(Record())
    {
      var gotIn, gotOut := GetAmount(assets, denomIn), GetAmount(assets, denomOut);
      if gotIn.None? || gotOut.None? {
        return Err(AssetNotInPool);
      }
      var quote := SwapQuote(gotIn.value, gotOut.value, fee, amount);
      if quote.Err? {
        return Err(quote.error);
      }
      var finalIn, finalOut := quote.value.finalIn, quote.value.finalOut;
      ghost var before := assets;
      var done := SetAmount(denomIn, finalIn);
      assert done.Ok?;
      ghost var middle := assets;
      assert !NoDenom(middle, denomOut);
      done := SetAmount(denomOut, finalOut);
      assert done.Ok?;
      assert assets == Rebalance(before, denomIn, finalIn, denomOut, finalOut);
      r := Ok(quote.value.amount);
    }

    /** `swap_with_limit`: swap, then check the bound. The pool is changed before the
        check, so a `PriceTooLow` failure leaves it already swapped. */
    method SwapWithLimit(denomIn: string, denomOut: string, amount: SwapAmountWithLimit)
      returns (r: Result<SwapAmount, OsmosisError>)
      modifies this
      ensures match SwapOutcome(old(Record()), denomIn, denomOut, amount.DiscardLimit())
              case Ok(s) =>
                Record() == s.pool &&
                r == (if ViolatesLimit(amount, s.amount) then Err(PriceTooLow) else Ok(s.amount))
              case Err(e) => r == Err(e) && Record() == old(Record())
    {
      match amount {
        case ExactIn(input, minOutput) =>
          var payout := Swap(denomIn, denomOut, In(input));
          if payout.Err? {
            return payout;
          }
          if payout.value.AsOut() < minOutput {
            r := Err(PriceTooLow);
          } else {
            r := payout;
          }
        case ExactOut(output, maxInput) =>
          var payin := Swap(denomIn, denomOut, Out(output));
          if payin.Err? {
            return payin;
          }
          if payin.value.AsIn() > maxInput {
            r := Err(PriceTooLow);
          } else {
            r := payin;
          }
      }
    }
  }
}
