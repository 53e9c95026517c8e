/**
 * Worked examples: the concrete pools, prices and swaps of the simulator's own
 * tests, derived from the model.
 */
module Scenarios {
  import opened Wrappers
  import opened Decimals
  import opened BindingTypes
  import opened BindingQuery
  import opened Pools
  import opened Router
  import opened Multitest

  /** In a two-asset pool each denom sits where it was listed. */
  lemma PairPositions(a: Coin, b: Coin)
    requires a.denom != b.denom
    ensures Position([a, b], a.denom) == Some(0) && Position([a, b], b.denom) == Some(1)
  {
    assert [a, b][1..] == [b];
  }

  /** A swap from the first to the second asset of a two-asset pool sets both balances
      to the quote's. */
  lemma PairSwap(p: PoolRecord, a: Coin, b: Coin, amount: SwapAmount)
    requires p.assets == [a, b] && a.denom != b.denom
    requires SwapQuote(a.amount, b.amount, p.fee, amount).Ok?
    ensures var q := SwapQuote(a.amount, b.amount, p.fee, amount).value;
            SwapOutcome(p, a.denom, b.denom, amount) ==
            Ok(Swapped(q.amount, p.(assets := [Coin(a.denom, q.finalIn), Coin(b.denom, q.finalOut)])))
  {
    var q := SwapQuote(a.amount, b.amount, p.fee, amount).value;
    var a1 := Coin(a.denom, q.finalIn);
    PairPositions(a, b);
    PairPositions(a1, b);
    assert [a, b][0 := a1] == [a1, b];
    assert AssetsWithAmount([a, b], a.denom, q.finalIn) == Ok([a1, b]);
    assert [a1, b][1 := Coin(b.denom, q.finalOut)] == [a1, Coin(b.denom, q.finalOut)];
    assert AssetsWithAmount([a1, b], b.denom, q.finalOut) == Ok([a1, Coin(b.denom, q.finalOut)]);
  }

  /** A swap from the second to the first asset of a two-asset pool. */
  lemma PairSwapBack(p: PoolRecord, a: Coin, b: Coin, amount: SwapAmount)
    requires p.assets == [a, b] && a.denom != b.denom
    requires SwapQuote(b.amount, a.amount, p.fee, amount).Ok?
    ensures var q := SwapQuote(b.amount, a.amount, p.fee, amount).value;
            SwapOutcome(p, b.denom, a.denom, amount) ==
            Ok(Swapped(q.amount, p.(assets := [Coin(a.denom, q.finalOut), Coin(b.denom, q.finalIn)])))
  {
    var q := SwapQuote(b.amount, a.amount, p.fee, amount).value;
    var b1 := Coin(b.denom, q.finalIn);
    PairPositions(a, b);
    PairPositions(a, b1);
    assert [a, b][1 := b1] == [a, b1];
    assert AssetsWithAmount([a, b], b.denom, q.finalIn) == Ok([a, b1]);
    assert [a, b1][0 := Coin(a.denom, q.finalOut)] == [Coin(a.denom, q.finalOut), b1];
    assert AssetsWithAmount([a, b1], a.denom, q.finalOut) == Ok([Coin(a.denom, q.finalOut), b1]);
  }

  /** The pool of the single-pool tests: 6M osmo against 1.5M atom. */
  function OsmoAtom(): PoolRecord
  {
    PoolRecord([Coin("osmo", 6_000_000), Coin("atom", 1_500_000)], 3_000_000, DEFAULT_FEE)
  }

  /** `Pool::new(6M osmo, 1.5M atom)` is that pool, with 3M shares. */
  lemma NewOsmoAtomPool()
    ensures NewPool(Coin("osmo", 6_000_000), Coin("atom", 1_500_000)) == OsmoAtom()
  {
    IsqrtUnique(6_000_000 * 1_500_000, 3_000_000);
  }

  /** Stored as pool 43, its shares are reported as 3M `gamm/pool/43`. */
  lemma OsmoAtomPoolState()
    ensures IntoResponse(OsmoAtom(), 43).shares == Coin("gamm/pool/43", 3_000_000)
  {
    assert DecimalString(4) == "4";
    assert DecimalString(43) == "4" + "3";
  }

  /** Spot prices: osmo to atom is 0.25, atom to osmo 4, and 3.988 after the 0.3 % fee. */
  lemma OsmoAtomSpotPrices()
    ensures Pools.SpotPrice(OsmoAtom(), "osmo", "atom", false) == Ok(Percent(25))
    ensures Pools.SpotPrice(OsmoAtom(), "atom", "osmo", false) == Ok(Percent(400))
    ensures Pools.SpotPrice(OsmoAtom(), "atom", "osmo", true) == Ok(Permille(3988))
  {
    var p := OsmoAtom();
    assert GetAmount(p.assets, "osmo") == Some(6_000_000);
    assert GetAmount(p.assets, "atom") == Some(1_500_000);
  }

  /** A pool holding 6M osmo against 1.5M atom at the default fee, as `OsmoAtom()` does. */
  predicate IsOsmoAtom(p: PoolRecord)
  {
    p.assets == [Coin("osmo", 6_000_000), Coin("atom", 1_500_000)] && p.fee == DEFAULT_FEE
  }

  /** Paying 501505 atom gets exactly 1.5M osmo; the pool ends at 4.5M osmo and 2_001_505 atom. */
  lemma OsmoAtomExactIn(p: PoolRecord)
    requires IsOsmoAtom(p)
    ensures SwapOutcome(p, "atom", "osmo", In(501_505)) ==
            Ok(Swapped(Out(1_500_000), p.(assets := [Coin("osmo", 4_500_000), Coin("atom", 2_001_505)])))
  {
    assert MulFloor(501_505, FRACTIONAL - DEFAULT_FEE) == 500_000;
    assert 1_500_000 * 6_000_000 / (1_500_000 + 500_000) == 4_500_000;
    assert SwapQuote(1_500_000, 6_000_000, DEFAULT_FEE, In(501_505)) == Ok(Quote(2_001_505, 4_500_000, Out(1_500_000)));
    PairSwapBack(p, Coin("osmo", 6_000_000), Coin("atom", 1_500_000), In(501_505));
  }

  /** Getting 1.5M osmo costs exactly 501505 atom, and leaves the pool as the exact-in swap does. */
  lemma OsmoAtomExactOut(p: PoolRecord)
    requires IsOsmoAtom(p)
    ensures SwapOutcome(p, "atom", "osmo", Out(1_500_000)) ==
            Ok(Swapped(In(501_505), p.(assets := [Coin("osmo", 4_500_000), Coin("atom", 2_001_505)])))
  {
    assert 1_500_000 * 6_000_000 / (6_000_000 - 1_500_000) == 2_000_000;
    assert 500_000 * FRACTIONAL / (FRACTIONAL - DEFAULT_FEE) == 501_504;
    assert SwapQuote(1_500_000, 6_000_000, DEFAULT_FEE, Out(1_500_000)) == Ok(Quote(2_001_505, 4_500_000, In(501_505)));
    PairSwapBack(p, Coin("osmo", 6_000_000), Coin("atom", 1_500_000), Out(1_500_000));
  }

  /** The `EstimateSwap` queries on pool 43 answer `Out(1.5M)` and `In(501505)`. */
  lemma OsmoAtomEstimates(pools: Store)
    requires 43 in pools && IsOsmoAtom(pools[43])
    ensures Estimate(pools, Swap(43, "atom", "osmo"), [], In(501_505)) == Ok(Out(1_500_000))
    ensures Estimate(pools, Swap(43, "atom", "osmo"), [], Out(1_500_000)) == Ok(In(501_505))
  {
    OsmoAtomExactIn(pools[43]);
    OsmoAtomExactOut(pools[43]);
    SwapOutcomeRoutable();
    RouteOneHop(SwapOutcome, pools, Swap(43, "atom", "osmo"), In(501_505));
    RouteOneHop(SwapOutcome, pools, Swap(43, "atom", "osmo"), Out(1_500_000));
  }

  /** The router's plan for 1.5M osmo out of pool 43: pay 501505 atom, save one copy. */
  lemma OsmoAtomExactOutPlan(pools: Store)
    requires 43 in pools && IsOsmoAtom(pools[43])
    ensures Route(pools, Swap(43, "atom", "osmo"), [], Out(1_500_000)) ==
            Ok(SwapPlan(In(501_505), [(43, pools[43].(assets := [Coin("osmo", 4_500_000), Coin("atom", 2_001_505)]))]))
  {
    OsmoAtomExactOut(pools[43]);
    SwapOutcomeRoutable();
    RouteOneHop(SwapOutcome, pools, Swap(43, "atom", "osmo"), Out(1_500_000));
  }

  /** An exact-out plan that costs more than the bound is refused with `PriceTooLow`. */
  lemma RejectExactOut(pools: Store, first: Swap, route: seq<Step>, output: nat, maxInput: nat,
                       pay: nat, ups: seq<(nat, PoolRecord)>)
    requires Route(pools, first, route, Out(output)) == Ok(SwapPlan(In(pay), ups))
    requires pay > maxInput
    ensures SwapCommand(pools, first, route, ExactOut(output, maxInput)) == Err(PriceTooLow)
  {
  }

  /** An exact-out plan within the bound settles: the trader pays the plan's input, gets
      `output`, and the store takes the plan's copies. */
  lemma SettleExactOut(pools: Store, first: Swap, route: seq<Step>, output: nat, maxInput: nat,
                       pay: nat, ups: seq<(nat, PoolRecord)>)
    requires Route(pools, first, route, Out(output)) == Ok(SwapPlan(In(pay), ups))
    requires pay <= maxInput
    ensures SwapCommand(pools, first, route, ExactOut(output, maxInput)) ==
            Ok(Executed(Settlement(first.denomIn, pay, RouteDenomOut(first, route), output, In(pay)), SaveAll(pools, ups)))
  {
  }

  /** An exact-in plan that yields less than the bound is refused with `PriceTooLow`. */
  lemma RejectExactIn(pools: Store, first: Swap, route: seq<Step>, input: nat, minOutput: nat,
                      get: nat, ups: seq<(nat, PoolRecord)>)
    requires Route(pools, first, route, In(input)) == Ok(SwapPlan(Out(get), ups))
    requires get < minOutput
    ensures SwapCommand(pools, first, route, ExactIn(input, minOutput)) == Err(PriceTooLow)
  {
  }

  /** An exact-in plan that meets the bound settles: the trader pays `input`, gets the
      plan's output, and the store takes the plan's copies. */
  lemma SettleExactIn(pools: Store, first: Swap, route: seq<Step>, input: nat, minOutput: nat,
                      get: nat, ups: seq<(nat, PoolRecord)>)
    requires Route(pools, first, route, In(input)) == Ok(SwapPlan(Out(get), ups))
    requires get >= minOutput
    ensures SwapCommand(pools, first, route, ExactIn(input, minOutput)) ==
            Ok(Executed(Settlement(first.denomIn, input, RouteDenomOut(first, route), get, Out(get)), SaveAll(pools, ups)))
  {
  }

  /** An exact-out swap of 1.5M osmo with at most 400k atom fails with `PriceTooLow`. */
  lemma OsmoAtomSwapTooLow(pools: Store)
    requires 43 in pools && IsOsmoAtom(pools[43])
    ensures SwapCommand(pools, Swap(43, "atom", "osmo"), [], ExactOut(1_500_000, 400_000)) == Err(PriceTooLow)
  {
    OsmoAtomExactOutPlan(pools);
    RejectExactOut(pools, Swap(43, "atom", "osmo"), [], 1_500_000, 400_000, 501_505,
                   [(43, pools[43].(assets := [Coin("osmo", 4_500_000), Coin("atom", 2_001_505)]))]);
  }

  /** With at most 600k atom it pays 501505 atom for 1.5M osmo, answers `In(501505)`, and
      stores pool 43 at 4.5M osmo and 2_001_505 atom. */
  lemma OsmoAtomPerformSwap(pools: Store)
    requires 43 in pools && IsOsmoAtom(pools[43])
    ensures SwapCommand(pools, Swap(43, "atom", "osmo"), [], ExactOut(1_500_000, 600_000)) ==
            Ok(Executed(Settlement("atom", 501_505, "osmo", 1_500_000, In(501_505)),
                        pools[43 := pools[43].(assets := [Coin("osmo", 4_500_000), Coin("atom", 2_001_505)])]))
  {
    var after := pools[43].(assets := [Coin("osmo", 4_500_000), Coin("atom", 2_001_505)]);
    OsmoAtomExactOutPlan(pools);
    SettleExactOut(pools, Swap(43, "atom", "osmo"), [], 1_500_000, 600_000, 501_505, [(43, after)]);
    assert [(43, after)][..0] == [];
    assert SaveAll(pools, [(43, after)]) == pools[43 := after];
  }

  /** Pool 1 of the route tests: 6M osmo against 3M atom at the default fee. */
  predicate IsOsmoAtomDeep(p: PoolRecord)
  {
    p.assets == [Coin("osmo", 6_000_000), Coin("atom", 3_000_000)] && p.fee == DEFAULT_FEE
  }

  /** Pool 2 of the route tests: 2M atom against 1M btc at the default fee. */
  predicate IsAtomBtc(p: PoolRecord)
  {
    p.assets == [Coin("atom", 2_000_000), Coin("btc", 1_000_000)] && p.fee == DEFAULT_FEE
  }

  /** The store of the route tests: those two pools under ids 1 and 2. */
  predicate IsRouteStore(pools: Store)
  {
    1 in pools && 2 in pools && IsOsmoAtomDeep(pools[1]) && IsAtomBtc(pools[2])
  }

  /** `Pool::new` of the seed coins, saved under ids 1 and 2, is such a store. */
  lemma NewRouteStore(pools: Store)
    requires pools == map[1 := NewPool(Coin("osmo", 6_000_000), Coin("atom", 3_000_000)),
                          2 := NewPool(Coin("atom", 2_000_000), Coin("btc", 1_000_000))]
    ensures IsRouteStore(pools)
  {
  }

  /** Getting 1000 btc from pool 2 costs 2009 atom. */
  lemma AtomBtcExactOut(p: PoolRecord)
    requires IsAtomBtc(p)
    ensures SwapOutcome(p, "atom", "btc", Out(1000)) ==
            Ok(Swapped(In(2009), p.(assets := [Coin("atom", 2_002_009), Coin("btc", 999_000)])))
  {
    assert 2_000_000 * 1_000_000 / (1_000_000 - 1000) == 2_002_002;
    assert 2002 * FRACTIONAL / (FRACTIONAL - DEFAULT_FEE) == 2008;
    assert SwapQuote(2_000_000, 1_000_000, DEFAULT_FEE, Out(1000)) == Ok(Quote(2_002_009, 999_000, In(2009)));
    PairSwap(p, Coin("atom", 2_000_000), Coin("btc", 1_000_000), Out(1000));
  }

  /** Paying 2007 atom into pool 2 gets 1000 btc. */
  lemma AtomBtcExactIn2007(p: PoolRecord)
    requires IsAtomBtc(p)
    ensures SwapOutcome(p, "atom", "btc", In(2007)) ==
            Ok(Swapped(Out(1000), p.(assets := [Coin("atom", 2_002_007), Coin("btc", 999_000)])))
  {
    assert MulFloor(2007, FRACTIONAL - DEFAULT_FEE) == 2000;
    assert 2_000_000 * 1_000_000 / (2_000_000 + 2000) == 999_000;
    assert SwapQuote(2_000_000, 1_000_000, DEFAULT_FEE, In(2007)) == Ok(Quote(2_002_007, 999_000, Out(1000)));
    PairSwap(p, Coin("atom", 2_000_000), Coin("btc", 1_000_000), In(2007));
  }

  /** Paying 1993 atom into pool 2 gets 993 btc. */
  lemma AtomBtcExactIn1993(p: PoolRecord)
    requires IsAtomBtc(p)
    ensures SwapOutcome(p, "atom", "btc", In(1993)) ==
            Ok(Swapped(Out(993), p.(assets := [Coin("atom", 2_001_993), Coin("btc", 999_007)])))
  {
    assert MulFloor(1993, FRACTIONAL - DEFAULT_FEE) == 1987;
    assert 2_000_000 * 1_000_000 / (2_000_000 + 1987) == 999_007;
    assert SwapQuote(2_000_000, 1_000_000, DEFAULT_FEE, In(1993)) == Ok(Quote(2_001_993, 999_007, Out(993)));
    PairSwap(p, Coin("atom", 2_000_000), Coin("btc", 1_000_000), In(1993));
  }

  /** Getting 2009 atom from pool 1 costs 4033 osmo. */
  lemma OsmoAtomDeepExactOut(p: PoolRecord)
    requires IsOsmoAtomDeep(p)
    ensures SwapOutcome(p, "osmo", "atom", Out(2009)) ==
            Ok(Swapped(In(4033), p.(assets := [Coin("osmo", 6_004_033), Coin("atom", 2_997_991)])))
  {
    assert 6_000_000 * 3_000_000 / (3_000_000 - 2009) == 6_004_020;
    assert 4020 * FRACTIONAL / (FRACTIONAL - DEFAULT_FEE) == 4032;
    assert SwapQuote(6_000_000, 3_000_000, DEFAULT_FEE, Out(2009)) == Ok(Quote(6_004_033, 2_997_991, In(4033)));
    PairSwap(p, Coin("osmo", 6_000_000), Coin("atom", 3_000_000), Out(2009));
  }

  /** Paying 4000 osmo into pool 1 gets 1993 atom. */
  lemma OsmoAtomDeepExactIn(p: PoolRecord)
    requires IsOsmoAtomDeep(p)
    ensures SwapOutcome(p, "osmo", "atom", In(4000)) ==
            Ok(Swapped(Out(1993), p.(assets := [Coin("osmo", 6_004_000), Coin("atom", 2_998_007)])))
  {
    assert MulFloor(4000, FRACTIONAL - DEFAULT_FEE) == 3988;
    assert 6_000_000 * 3_000_000 / (6_000_000 + 3988) == 2_998_007;
    assert SwapQuote(6_000_000, 3_000_000, DEFAULT_FEE, In(4000)) == Ok(Quote(6_004_000, 2_998_007, Out(1993)));
    PairSwap(p, Coin("osmo", 6_000_000), Coin("atom", 3_000_000), In(4000));
  }

  /** The route osmo -> atom (pool 1) -> btc (pool 2). */
  lemma OsmoToBtcHops()
    ensures Hops(Swap(1, "osmo", "atom"), [Step(2, "btc")]) == [Swap(1, "osmo", "atom"), Swap(2, "atom", "btc")]
  {
  }

  /** A walk over two hops whose swaps both go through collects one copy per hop, in
      walking order, and ends with the second hop's answer. */
  lemma WalkTwo(swap: PoolSwap, pools: Store, order: seq<Swap>, fixed: SwapAmount,
                s0: Swapped, mid: SwapAmount, s1: Swapped, last: SwapAmount)
    requires |order| == 2
    requires HopOutcome(swap, pools, order[0], fixed) == Ok(s0) && Carry(fixed, s0.amount) == Ok(mid)
    requires HopOutcome(swap, pools, order[1], mid) == Ok(s1) && Carry(mid, s1.amount) == Ok(last)
    ensures Walk(swap, pools, order, 0, fixed) ==
            Ok(Routed(Value(last), [(order[0].poolId, s0.pool), (order[1].poolId, s1.pool)]))
  {
    var u0 := (order[0].poolId, s0.pool);
    var u1 := (order[1].poolId, s1.pool);
    WalkStep(swap, pools, order, 1, mid, s1, last);
    assert Walk(swap, pools, order, 2, last) == Ok(Routed(Value(last), []));
    assert [u1] + [] == [u1];
    WalkStep(swap, pools, order, 0, fixed, s0, mid);
    assert [u0] + [u1] == [u0, u1];
  }

  /** Exact-out 1000 btc walks pool 2 first, then pool 1: it costs 4033 osmo, and saves
      pool 2's copy before pool 1's. */
  lemma OsmoToBtcExactOutPlan(pools: Store)
    requires IsRouteStore(pools)
    ensures Route(pools, Swap(1, "osmo", "atom"), [Step(2, "btc")], Out(1000)) ==
            Ok(SwapPlan(In(4033), [(2, pools[2].(assets := [Coin("atom", 2_002_009), Coin("btc", 999_000)])),
                                   (1, pools[1].(assets := [Coin("osmo", 6_004_033), Coin("atom", 2_997_991)]))]))
  {
    var order := [Swap(2, "atom", "btc"), Swap(1, "osmo", "atom")];
    OsmoToBtcHops();
    assert Order(Hops(Swap(1, "osmo", "atom"), [Step(2, "btc")]), Out(1000)) == order;
    AtomBtcExactOut(pools[2]);
    OsmoAtomDeepExactOut(pools[1]);
    WalkTwo(SwapOutcome, pools, order, Out(1000),
            Swapped(In(2009), pools[2].(assets := [Coin("atom", 2_002_009), Coin("btc", 999_000)])), Out(2009),
            Swapped(In(4033), pools[1].(assets := [Coin("osmo", 6_004_033), Coin("atom", 2_997_991)])), Out(4033));
  }

  /** Exact-in 4000 osmo walks pool 1 then pool 2 and gets 993 btc. */
  lemma OsmoToBtcExactInPlan(pools: Store)
    requires IsRouteStore(pools)
    ensures Route(pools, Swap(1, "osmo", "atom"), [Step(2, "btc")], In(4000)) ==
            Ok(SwapPlan(Out(993), [(1, pools[1].(assets := [Coin("osmo", 6_004_000), Coin("atom", 2_998_007)])),
                                   (2, pools[2].(assets := [Coin("atom", 2_001_993), Coin("btc", 999_007)]))]))
  {
    var order := [Swap(1, "osmo", "atom"), Swap(2, "atom", "btc")];
    OsmoToBtcHops();
    assert Order(Hops(Swap(1, "osmo", "atom"), [Step(2, "btc")]), In(4000)) == order;
    OsmoAtomDeepExactIn(pools[1]);
    AtomBtcExactIn1993(pools[2]);
    WalkTwo(SwapOutcome, pools, order, In(4000),
            Swapped(Out(1993), pools[1].(assets := [Coin("osmo", 6_004_000), Coin("atom", 2_998_007)])), In(1993),
            Swapped(Out(993), pools[2].(assets := [Coin("atom", 2_001_993), Coin("btc", 999_007)])), In(993));
  }

  /** Saving two copies in order writes the first, then the second. */
  lemma SaveTwo(pools: Store, a: (nat, PoolRecord), b: (nat, PoolRecord))
    ensures SaveAll(pools, [a, b]) == pools[a.0 := a.1][b.0 := b.1]
  {
    assert [a, b][..1] == [a];
    assert [a][..0] == [];
    assert SaveAll(pools, [a]) == pools[a.0 := a.1];
  }

  /** With at most 4000 osmo the exact-out route swap fails with `PriceTooLow`. */
  lemma OsmoToBtcMaxInputExceeded(pools: Store)
    requires IsRouteStore(pools)
    ensures SwapCommand(pools, Swap(1, "osmo", "atom"), [Step(2, "btc")], ExactOut(1000, 4000)) == Err(PriceTooLow)
  {
    OsmoToBtcExactOutPlan(pools);
    RejectExactOut(pools, Swap(1, "osmo", "atom"), [Step(2, "btc")], 1000, 4000, 4033,
                   [(2, pools[2].(assets := [Coin("atom", 2_002_009), Coin("btc", 999_000)])),
                    (1, pools[1].(assets := [Coin("osmo", 6_004_033), Coin("atom", 2_997_991)]))]);
  }

  /** With at most 5000 osmo it pays 4033 osmo for 1000 btc, answers `In(4033)`, and stores
      pool 1 at 6_004_033 osmo and 2_997_991 atom and pool 2 at 2_002_009 atom and 999_000 btc. */
  lemma OsmoToBtcExactOutSwap(pools: Store)
    requires IsRouteStore(pools)
    ensures SwapCommand(pools, Swap(1, "osmo", "atom"), [Step(2, "btc")], ExactOut(1000, 5000)) ==
            Ok(Executed(Settlement("osmo", 4033, "btc", 1000, In(4033)),
                        pools[2 := pools[2].(assets := [Coin("atom", 2_002_009), Coin("btc", 999_000)])]
                             [1 := pools[1].(assets := [Coin("osmo", 6_004_033), Coin("atom", 2_997_991)])]))
  {
    var q2 := pools[2].(assets := [Coin("atom", 2_002_009), Coin("btc", 999_000)]);
    var q1 := pools[1].(assets := [Coin("osmo", 6_004_033), Coin("atom", 2_997_991)]);
    OsmoToBtcExactOutPlan(pools);
    SettleExactOut(pools, Swap(1, "osmo", "atom"), [Step(2, "btc")], 1000, 5000, 4033, [(2, q2), (1, q1)]);
    SaveTwo(pools, (2, q2), (1, q1));
  }

  /** Paying 4000 osmo for at least 1000 btc fails with `PriceTooLow`. */
  lemma OsmoToBtcMinOutputNotMet(pools: Store)
    requires IsRouteStore(pools)
    ensures SwapCommand(pools, Swap(1, "osmo", "atom"), [Step(2, "btc")], ExactIn(4000, 1000)) == Err(PriceTooLow)
  {
    OsmoToBtcExactInPlan(pools);
    RejectExactIn(pools, Swap(1, "osmo", "atom"), [Step(2, "btc")], 4000, 1000, 993,
                  [(1, pools[1].(assets := [Coin("osmo", 6_004_000), Coin("atom", 2_998_007)])),
                   (2, pools[2].(assets := [Coin("atom", 2_001_993), Coin("btc", 999_007)]))]);
  }

  /** Paying 4000 osmo for at least 900 btc gets 993 btc, answers `Out(993)`, and stores
      pool 1 at 6_004_000 osmo and 2_998_007 atom and pool 2 at 2_001_993 atom and 999_007 btc. */
  lemma OsmoToBtcExactInSwap(pools: Store)
    requires IsRouteStore(pools)
    ensures SwapCommand(pools, Swap(1, "osmo", "atom"), [Step(2, "btc")], ExactIn(4000, 900)) ==
            Ok(Executed(Settlement("osmo", 4000, "btc", 993, Out(993)),
                        pools[1 := pools[1].(assets := [Coin("osmo", 6_004_000), Coin("atom", 2_998_007)])]
                             [2 := pools[2].(assets := [Coin("atom", 2_001_993), Coin("btc", 999_007)])]))
  {
    var q1 := pools[1].(assets := [Coin("osmo", 6_004_000), Coin("atom", 2_998_007)]);
    var q2 := pools[2].(assets := [Coin("atom", 2_001_993), Coin("btc", 999_007)]);
    OsmoToBtcExactInPlan(pools);
    SettleExactIn(pools, Swap(1, "osmo", "atom"), [Step(2, "btc")], 4000, 900, 993, [(1, q1), (2, q2)]);
    SaveTwo(pools, (1, q1), (2, q2));
  }

  /** When pool 2 holds atom and eth instead, asking it for btc fails with `AssetNotInPool`. */
  lemma OsmoToBtcWrongDenom(pools: Store)
    requires 1 in pools && 2 in pools && IsOsmoAtomDeep(pools[1])
    requires pools[2].assets == [Coin("atom", 2_000_000), Coin("eth", 1_000_000)]
    ensures SwapCommand(pools, Swap(1, "osmo", "atom"), [Step(2, "btc")], ExactOut(1000, 4000)) == Err(AssetNotInPool)
  {
    var order := [Swap(2, "atom", "btc"), Swap(1, "osmo", "atom")];
    OsmoToBtcHops();
    assert Order(Hops(Swap(1, "osmo", "atom"), [Step(2, "btc")]), Out(1000)) == order;
    assert NoDenom(pools[2].assets, "btc");
    assert HopOutcome(SwapOutcome, pools, order[0], Out(1000)) == Err(AssetNotInPool);
  }

  /** Estimating pool 2's atom-to-btc swap both ways does not round-trip: 2007 atom buys
      1000 btc, but 1000 btc costs 2009 atom. */
  lemma AtomBtcEstimatesDiffer(pools: Store)
    requires 1 in pools && IsAtomBtc(pools[1])
    ensures Estimate(pools, Swap(1, "atom", "btc"), [], In(2007)) == Ok(Out(1000))
    ensures Estimate(pools, Swap(1, "atom", "btc"), [], Out(1000)) == Ok(In(2009))
  {
    AtomBtcExactIn2007(pools[1]);
    AtomBtcExactOut(pools[1]);
    SwapOutcomeRoutable();
    RouteOneHop(SwapOutcome, pools, Swap(1, "atom", "btc"), In(2007));
    RouteOneHop(SwapOutcome, pools, Swap(1, "atom", "btc"), Out(1000));
  }
}
