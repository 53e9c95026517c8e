# Osmosis bindings: the AMM simulator and the reflect contract, in Dafny

This project models two parts of the Osmosis CosmWasm bindings.

The first part is the pool simulator that contracts are tested against. It covers:

- the equal-weighted constant-product `Pool` with its 0.3% fee: spot price, exact-in and exact-out swaps, and the slippage-bounded swap;
- `complex_swap`, the multi-hop router;
- the `OsmosisModule`'s `Swap` message, which routes on copies of the stored pools, checks the caller's bound and only then saves every copy;
- its `PoolState`, `SpotPrice` and `EstimateSwap` queries;
- factory-denom building;
- the binding types (`Swap`, `Step`, `SwapAmount`, `SwapAmountWithLimit`) and query types (`OsmosisQuery` and its helper constructors, `PoolStateResponse`).

The second part is the reflect contract. Its owner-gated `execute` relays the owner's messages and lets the owner hand over ownership. Its `reply` and queries store and return the replies of sub-messages.

Files:

| file | content |
|---|---|
| `wrappers.dfy` | `Option` and `Result` |
| `decimals.dfy` | `Decimal` as a count of 10^-18 units, floor multiplication and ratio, integer square root, decimal digit strings |
| `binding_types.dfy` | `types.rs` |
| `binding_query.dfy` | `query.rs` |
| `pools.dfy` | The pool: the stored value `PoolRecord`, the pure swap mathematics, and the class `Pool` whose methods update its fields |
| `router.dfy` | `complex_swap`, generic over the per-pool swap, with the loop as a method proved against the function `Walk` |
| `multitest.dfy` | `build_denom`, the class `OsmosisModule` holding the `POOLS` store, the `Swap` handler and the queries |
| `scenarios.dfy` | The concrete pools, prices and swaps of the simulator's own tests, derived from the model |
| `reflect.dfy` | The reflect contract, as the class `ReflectContract` over its owner cell and its reply bucket |

Numbers and failures are modelled as follows:

- `Uint128` is an unbounded `nat`.
- `Decimal` is a `nat` count of 10^-18 units.
- `Uint128 * Decimal` and `Decimal::from_ratio` round down, as in cosmwasm-std.
- A Rust panic becomes the extra error `Panic`, and nothing is committed. The model raises it for:
  - the `bal_out - output` underflow;
  - a division by zero;
  - the `Decimal::one() - fee` underflow when the fee exceeds 1, in the swap arithmetic and the spot price;
  - an `as_out()`/`as_in()` on a payout with the wrong tag, between router hops.

Where the behaviour of the code differs from what its surrounding prose claims, the model follows the code:

- An exact-in swap can lower the pool's product `bal_in * bal_out`. This is `Pools.ExactInCanLowerProduct`. Flooring the kept balance favours the trader by up to one unit, so the product is only preserved within rounding (`Pools.ExactInProductWithinRounding`). An exact-out swap always raises the product (`Pools.ExactOutRaisesProduct`).
- The exact-out fee gross-up always adds 1 after a floor division. So when the division is exact, it charges one unit more than needed (`Pools.ExactOutOverchargesWhenExact`).
- Each hop reloads its pool from the store rather than from an earlier hop's copy. When a route visits the same pool twice, the copy of the last hop in walking order to use that pool is what stays stored, and the earlier hop's change is lost (`Multitest.SwapCommandOnRoute`).
- The ignored `estimate_swap_regression` test expects `Out(1000)` to cost `In(2007)` on the 2M atom / 1M btc pool. The code gives `In(2009)`, although `In(2007)` does buy `Out(1000)` (`Scenarios.AtomBtcEstimatesDiffer`).
- The simulator's query handler has no arms for `ArithmeticTwap` and `ArithmeticTwapToNow`. The model has no query members for them either: the two query builders exist, but nothing answers those queries.
- `build_denom`'s `len() < 3` test can never fire, and its `len() > 128` test never decides anything. Both are kept as written.
- `Pool::swap_with_limit` leaves the pool swapped when it returns `PriceTooLow`. The `Swap` handler does not use it.

## Model

| member | source | states |
|---|---|---|
| Decimals.Permille | packages/bindings-test/src/multitest.rs:39-46 | The default fee `Decimal::permille(3)` is x/1000 exactly |
| Decimals.Percent | packages/bindings-test/src/multitest.rs:600-607 | `Decimal::percent(x)` is x/100 exactly |
| Decimals.MulFloor | packages/bindings-test/src/multitest.rs:102-104 | `Uint128 * Decimal` is the floor of the exact product |
| Decimals.FromRatio | packages/bindings-test/src/multitest.rs:85 | `Decimal::from_ratio(num, den)` is the floor of num/den in 10^-18 units |
| Decimals.Isqrt | packages/bindings-test/src/multitest.rs:40 | `isqrt` returns r with r² ≤ n < (r+1)² |
| Decimals.IsqrtUnique | packages/bindings-test/src/multitest.rs:40 | Only one r satisfies that bound, so any root met by a test is `isqrt`'s |
| Decimals.DecimalStringRoundTrip | packages/bindings-test/src/multitest.rs:156-159 | Parsing the decimal digits written for a pool id gives back the id |
| Decimals.DecimalStringInjective | packages/bindings-test/src/multitest.rs:156-159 | Distinct ids are written as distinct digit strings |
| BindingTypes.SwapAmount.AsIn | packages/bindings/src/types.rs:46-51 | Defined only on `In`, and returns the amount it was built from |
| BindingTypes.SwapAmount.AsOut | packages/bindings/src/types.rs:53-58 | Defined only on `Out`, and returns the amount it was built from |
| BindingTypes.SwapAmountWithLimit.DiscardLimit | packages/bindings/src/types.rs:69-74 | `ExactIn{input,..}` becomes `In(input)` and `ExactOut{output,..}` becomes `Out(output)` |
| BindingTypes.DiscardLimitIgnoresBound | packages/bindings/src/types.rs:69-74 | The bound never influences the discarded amount |
| BindingQuery.SpotPriceQuery | packages/bindings/src/query.rs:64-69 | Builds a `SpotPrice` query on the given pool and denoms, without the swap fee |
| BindingQuery.EstimateSwapQuery | packages/bindings/src/query.rs:72-85 | Builds a one-hop `EstimateSwap` query (empty route) with the given sender, pool, denoms and amount |
| BindingQuery.ArithmeticTwapQuery | packages/bindings/src/query.rs:87-101 | Builds an `ArithmeticTwap` query carrying every argument unchanged |
| BindingQuery.ArithmeticTwapToNowQuery | packages/bindings/src/query.rs:103-115 | Builds an `ArithmeticTwapToNow` query carrying every argument unchanged |
| BindingQuery.PoolStateResponse.HasDenom | packages/bindings/src/query.rs:132-134 | True exactly when some asset has the denom |
| BindingQuery.PoolStateResponse.LpDenom | packages/bindings/src/query.rs:136-138 | The denom of the LP shares coin |
| BindingQuery.PoolStateResponse.SharesValue | packages/bindings/src/query.rs:141-150 | One coin per asset, same denom and order, each the floor of asset × num_shares / total shares |
| BindingQuery.AnyDenom | packages/bindings/src/query.rs:132-134 | The `iter().any` over coins: true exactly when some coin has the denom |
| BindingQuery.SharesValueOfAllShares | packages/bindings/src/query.rs:141-150 | All the shares are worth exactly the pool's assets |
| BindingQuery.SharesValueOfNoShares | packages/bindings/src/query.rs:141-150 | No shares are worth nothing |
| BindingQuery.SharesValueMonotone | packages/bindings/src/query.rs:141-150 | More shares are never worth less of any asset |
| Pools.Position | packages/bindings-test/src/multitest.rs:59-65 | `position`: the first index holding the denom, or none exactly when no asset has it |
| Pools.PositionFindsListed | packages/bindings-test/src/multitest.rs:48-50 | `has_denom` holds exactly when `position` finds the denom |
| Pools.GetAmount | packages/bindings-test/src/multitest.rs:52-57 | `get_amount` (`iter().find`): none exactly when the denom is absent, otherwise the amount of the FIRST coin with that denom |
| Pools.AssetsWithAmount | packages/bindings-test/src/multitest.rs:59-67 | `set_amount` on the asset list: `AssetNotInPool` exactly when the denom is absent, otherwise the same denoms in the same order, the denom now reads the new amount, and every other entry is unchanged |
| Pools.PositionSameDenoms | packages/bindings-test/src/multitest.rs:59-67 | Changing amounts never moves a denom's position |
| Pools.GetAmountOther | packages/bindings-test/src/multitest.rs:59-67 | Setting one denom's amount leaves every other denom's amount as it was |
| Pools.Rebalance | packages/bindings-test/src/multitest.rs:124-126 | The two `set_amount` calls at the end of `swap` keep the denoms and their order, and leave every coin other than the two written ones as it was |
| Pools.RebalanceAmounts | packages/bindings-test/src/multitest.rs:124-126 | After them the output denom reads `final_out`, and a distinct input denom reads `final_in`; when the two denoms coincide the second write, `final_out`, wins |
| Pools.NewPool | packages/bindings-test/src/multitest.rs:39-46 | `Pool::new`: the two coins in order, the 0.3% fee, and shares equal to the integer square root of the product of the seed amounts |
| Pools.SpotPrice | packages/bindings-test/src/multitest.rs:69-87 | `AssetNotInPool` exactly when a denom is missing, any other failure a panic. It succeeds exactly when both denoms are listed, the input balance is non-zero and, with the fee, the fee is at most 1. Without the fee the price is the floor of bal_out/bal_in; with it, the floor of ⌊bal_out·(1−fee)⌋/bal_in |
| Pools.SpotPriceFeeNotAbove | packages/bindings-test/src/multitest.rs:80-85 | The price with the swap fee never exceeds the price without it |
| Pools.SwapQuote | packages/bindings-test/src/multitest.rs:101-123 | The payout is on the other side of the requested amount, and the only failure is a panic |
| Pools.SwapQuoteFails | packages/bindings-test/src/multitest.rs:101-123 | Exactly when the arithmetic panics: exact-in when the fee exceeds 1 or the discounted deposit and the in-balance are both zero; exact-out when the output is at least the out-balance or the fee is at least 1 |
| Pools.QuoteIn | packages/bindings-test/src/multitest.rs:102-108 | The exact-in arm answers with an `Out` amount or panics |
| Pools.QuoteOut | packages/bindings-test/src/multitest.rs:109-122 | The exact-out arm answers with an `In` amount or panics |
| Pools.SwapOutcome | packages/bindings-test/src/multitest.rs:89-128 | `swap` on a pool value: `AssetNotInPool` exactly when a denom is missing, otherwise only a panic can fail it. The payout is on the other side. Shares, fee, denoms and their order are kept |
| Pools.ExactInQuote | packages/bindings-test/src/multitest.rs:102-108 | With a fee ≤ 1: final_in = bal_in + input, final_out = ⌊bal_in·bal_out / (bal_in + ⌊input·(1−fee)⌋)⌋, and the payout `Out(bal_out − final_out)` never exceeds bal_out |
| Pools.ExactInProductWithinRounding | packages/bindings-test/src/multitest.rs:102-108 | After an exact-in swap the product is at least the old one, up to one unit of the output balance |
| Pools.ExactInCanLowerProduct | packages/bindings-test/src/multitest.rs:102-108 | The product can fall: on (3, 3) with no fee, `In(1)` leaves (4, 2) |
| Pools.ExactOutQuote | packages/bindings-test/src/multitest.rs:109-122 | With output < bal_out and fee < 1, final_out = bal_out − output, final_in = bal_in + pay, and pay is ⌊(w − bal_in)/(1−fee)⌋ + 1 with w = ⌊bal_in·bal_out/(bal_out − output)⌋ |
| Pools.ExactOutRaisesProduct | packages/bindings-test/src/multitest.rs:109-122 | A successful exact-out swap strictly raises the pool's product |
| Pools.ExactOutOverchargesWhenExact | packages/bindings-test/src/multitest.rs:112-117 | When the gross-up divides exactly, 1000 is already enough but 1001 is charged |
| Pools.SwapOutcomeBalances | packages/bindings-test/src/multitest.rs:89-128 | The payout is the quoted one; the out-denom holds the quoted `final_out`, a distinct in-denom the quoted `final_in`, and every other coin is unchanged |
| Pools.NeedNotBelow | packages/bindings-test/src/multitest.rs:110 | The exact-out target balance is never below the current input balance, so `in_without_fee - bal_in` cannot underflow |
| Pools.CannotDrainPool | packages/bindings-test/src/multitest.rs:109-122 | Asking for the whole out-balance or more always fails with a panic |
| Pools.GammDenom | packages/bindings-test/src/multitest.rs:156-159 | `gamm/pool/` followed by the decimal digits of the pool id, with no leading zero |
| Pools.GammDenomInjective | packages/bindings-test/src/multitest.rs:156-159 | Distinct pools have distinct LP denoms |
| Pools.IntoResponse | packages/bindings-test/src/multitest.rs:161-170 | The response keeps the assets, its shares coin is the pool's LP denom and share count, and it has a denom exactly when the pool does |
| Pools.Pool.Load | packages/bindings-test/src/multitest.rs:227 | `POOLS.load` yields a fresh pool object equal to the stored record |
| Pools.Pool.SetAmount | packages/bindings-test/src/multitest.rs:59-67 | Updates the asset list as `AssetsWithAmount` says, or fails with the list unchanged. Shares and fee are untouched |
| Pools.Pool.Swap | packages/bindings-test/src/multitest.rs:89-128 | The pool becomes `SwapOutcome`'s pool and the payout is returned. On failure the pool is unchanged |
| Pools.Pool.SwapWithLimit | packages/bindings-test/src/multitest.rs:130-154 | Swaps as `swap` does, then answers `PriceTooLow` exactly when the payout breaks the bound. The pool stays swapped either way |
| Router.Continue | packages/bindings-test/src/multitest.rs:209-220 | The hops after the first: each step's pool and output denom, its input being the previous hop's output |
| Router.Hops | packages/bindings-test/src/multitest.rs:209-220 | `first`, followed by one swap per step, each taking the previous output denom as input |
| Router.HopsChain | packages/bindings-test/src/multitest.rs:209-220 | Every hop's input denom is the previous hop's output denom |
| Router.HopsEndWhereRouteEnds | packages/bindings-test/src/multitest.rs:319-323 | The last hop's output is the last step's denom, or `first.denom_out` on an empty route, which is the handler's `denom_out` |
| Router.Reversed | packages/bindings-test/src/multitest.rs:237 | `swaps.iter().rev()`: same length, element i is element n−1−i |
| Router.SwapOutcomeRoutable | packages/bindings-test/src/multitest.rs:89-128 | The pool swap meets what the router needs: failures are never `PriceTooLow`, shares/fee/denoms are kept, and the payout is on the other side |
| Router.Carry | packages/bindings-test/src/multitest.rs:231-243 | `as_out()`/`as_in()` on the payout: succeeds exactly when the payout is on the other side, keeps the walk's direction, and otherwise panics |
| Router.Order | packages/bindings-test/src/multitest.rs:224-246 | Hops run first-to-last for `In` and last-to-first for `Out` |
| Router.RouteWith | packages/bindings-test/src/multitest.rs:202-248 | `complex_swap`: the answer is `Out` for an `In` request and `In` for an `Out` request |
| Router.Route | packages/bindings-test/src/multitest.rs:202-248 | The same, for the pool swap of this simulator |
| Router.WalkShape | packages/bindings-test/src/multitest.rs:225-246 | A walk never fails with `PriceTooLow`, saves one copy per remaining hop, and each copy is the hop's pool swapped from its stored state |
| Router.RouteShape | packages/bindings-test/src/multitest.rs:202-248 | `complex_swap` yields one pool copy per hop, in walk order, each swapped from the stored pool of that hop |
| Router.RouteSavesHop | packages/bindings-test/src/multitest.rs:202-248 | The j-th saved copy comes from hop j (exact-in) or hop n−j (exact-out), and its id is a pool on the route |
| Router.RouteOneHop | packages/bindings-test/src/multitest.rs:202-248 | On an empty route, `complex_swap` is one pool swap on `first`, with its error, payout and copy |
| Router.PrependJoin | packages/bindings-test/src/multitest.rs:222-229 | Pushing copies onto `updated_pools` composes: nothing pushed changes nothing, two pushes are one push of both |
| Router.SwapOnCopy | packages/bindings-test/src/multitest.rs:226-227 | Loading a fresh `Pool` object from the stored record and swapping it gives `SwapOutcome` |
| Router.WalkHop | packages/bindings-test/src/multitest.rs:226-231 | One iteration: the missing pool (`NotFound`) or the swap error is the whole walk's error. Otherwise the copy and the carried amount continue the walk in the same direction |
| Router.WalkHops | packages/bindings-test/src/multitest.rs:224-246 | The loop computes exactly `Walk` from the first hop |
| Router.ComplexSwap | packages/bindings-test/src/multitest.rs:202-248 | The imperative `complex_swap` returns exactly `Route` |
| Multitest.BuildDenom | packages/bindings-test/src/multitest.rs:180-194 | Accepted exactly when the creator has no '/', the subdenom is at most 44 long and the creator at most 75; the result or the error carries `factory/{creator}/{subdenom}` |
| Multitest.CreatorEndsAtSlash | packages/bindings-test/src/multitest.rs:184 | In an accepted denom, the first '/' after `factory/` ends the creator |
| Multitest.BuildDenomInjective | packages/bindings-test/src/multitest.rs:180-194 | Two accepted (creator, subdenom) pairs never build the same denom |
| Multitest.SaveAllStep | packages/bindings-test/src/multitest.rs:341-343 | Saving one more copy is one more map update |
| Multitest.SaveAllKeys | packages/bindings-test/src/multitest.rs:341-343 | Saving copies of pools already stored adds no pool |
| Multitest.SaveAllLastWins | packages/bindings-test/src/multitest.rs:341-343 | A copy not followed by another copy of the same pool is what the store ends up with |
| Multitest.SaveAllUntouched | packages/bindings-test/src/multitest.rs:341-343 | A pool with no copy keeps its stored value |
| Multitest.RouteDenomOut | packages/bindings-test/src/multitest.rs:319-323 | The handler's `denom_out` is the last hop's output denom |
| Multitest.SwapCommandWith | packages/bindings-test/src/multitest.rs:313-373 | On success the trader pays `denom_in` and gets the route's last denom. Exact-in pays `input` and gets at least `min_output`, answering `Out(get_out)`. Exact-out gets `output` for at most `max_input`, answering `In(pay_in)` |
| Multitest.SwapCommandSlippage | packages/bindings-test/src/multitest.rs:325-339 | The handler fails with `PriceTooLow` exactly when routing succeeded and its answer breaks the bound; an answer within the bound (equality included) goes through; a routing error is passed through |
| Multitest.SwapCommandSaves | packages/bindings-test/src/multitest.rs:341-343 | On success the new store is the old one with every routed copy saved in walk order |
| Multitest.SwapCommandOffRoute | packages/bindings-test/src/multitest.rs:341-343 | A successful swap adds or removes no pool, and a pool off the route keeps its stored value |
| Multitest.LastCopy | packages/bindings-test/src/multitest.rs:341-343 | Finds the last copy saved for a pool, or says there is none |
| Multitest.SwapCommandOnRoute | packages/bindings-test/src/multitest.rs:202-248 | Every pool on the route ends up stored as the swap of the last hop, in walking order, that uses it, applied to its original stored state |
| Multitest.Estimate | packages/bindings-test/src/multitest.rs:423-432 | `EstimateSwap` answers `Out` for `In` and `In` for `Out` |
| Multitest.EstimateAgreesWithSwap | packages/bindings-test/src/multitest.rs:313-373 | A successful `Swap` message answers exactly what `EstimateSwap` would answer for the same amount |
| Multitest.OsmosisModule.constructor | packages/bindings-test/src/multitest.rs:28 | The pool store starts empty |
| Multitest.OsmosisModule.SetPool | packages/bindings-test/src/multitest.rs:197-199 | Stores the pool under its id, replacing any earlier one |
| Multitest.OsmosisModule.PoolState | packages/bindings-test/src/multitest.rs:410-414 | `NotFound` exactly when the pool is absent, otherwise its assets and its LP shares coin |
| Multitest.OsmosisModule.QuerySpotPrice | packages/bindings-test/src/multitest.rs:415-422 | `NotFound` for a missing pool, `AssetNotInPool` exactly when a denom is missing, and otherwise exactly the stored pool's `Pools.SpotPrice` |
| Multitest.OsmosisModule.EstimateSwap | packages/bindings-test/src/multitest.rs:423-432 | Returns exactly `Estimate` and changes nothing |
| Multitest.OsmosisModule.SaveCopies | packages/bindings-test/src/multitest.rs:341-343 | The store after the loop is the old one with every copy saved in order |
| Multitest.OsmosisModule.ExecuteSwap | packages/bindings-test/src/multitest.rs:313-373 | On success, returns `SwapCommand`'s settlement and the store becomes its new store. On any failure, returns the error and the store is unchanged |
| Scenarios.NewOsmoAtomPool | packages/bindings-test/src/multitest.rs:581-585 | `Pool::new(6M osmo, 1.5M atom)` has 3M shares and the 0.3% fee |
| Scenarios.OsmoAtomPoolState | packages/bindings-test/src/multitest.rs:594-598 | Pool 43 reports shares `3_000_000 gamm/pool/43` |
| Scenarios.OsmoAtomSpotPrices | packages/bindings-test/src/multitest.rs:600-617 | The spot prices 25%, 400% and, with the fee, 3.988 |
| Scenarios.OsmoAtomExactIn | packages/bindings-test/src/multitest.rs:621-658 | `In(501_505)` atom buys exactly `Out(1_500_000)` osmo, leaving 4.5M osmo / 2_001_505 atom |
| Scenarios.OsmoAtomExactOut | packages/bindings-test/src/multitest.rs:621-658 | `Out(1_500_000)` osmo costs `In(501_505)` atom |
| Scenarios.OsmoAtomEstimates | packages/bindings-test/src/multitest.rs:621-658 | Both `estimate_swap` answers of the test |
| Scenarios.OsmoAtomExactOutPlan | packages/bindings-test/src/multitest.rs:660-726 | Routing the exact-out swap yields `In(501_505)` and the one updated copy of pool 43 |
| Scenarios.OsmoAtomSwapTooLow | packages/bindings-test/src/multitest.rs:683-694 | A `max_input` of 400_000 is rejected with `PriceTooLow` |
| Scenarios.OsmoAtomPerformSwap | packages/bindings-test/src/multitest.rs:696-726 | A `max_input` of 600_000 settles 501_505 atom for 1.5M osmo, answers `In(501_505)` and stores 4.5M osmo / 2_001_505 atom |
| Scenarios.NewRouteStore | packages/bindings-test/src/multitest.rs:844-856 | The two route-test pools built by `Pool::new` meet the store description the route lemmas use |
| Scenarios.AtomBtcExactOut | packages/bindings-test/src/multitest.rs:963-999 | On 2M atom / 1M btc, `Out(1000)` btc costs `In(2009)` atom |
| Scenarios.AtomBtcExactIn2007 | packages/bindings-test/src/multitest.rs:963-999 | On the same pool, `In(2007)` atom buys `Out(1000)` btc |
| Scenarios.AtomBtcExactIn1993 | packages/bindings-test/src/multitest.rs:904-961 | `In(1993)` atom buys `Out(993)` btc, the second hop of the exact-in route |
| Scenarios.OsmoAtomDeepExactOut | packages/bindings-test/src/multitest.rs:843-901 | On 6M osmo / 3M atom, `Out(2009)` atom costs `In(4033)` osmo, the first hop of the exact-out route |
| Scenarios.OsmoAtomDeepExactIn | packages/bindings-test/src/multitest.rs:904-961 | `In(4000)` osmo buys `Out(1993)` atom |
| Scenarios.OsmoToBtcHops | packages/bindings-test/src/multitest.rs:209-220 | The osmo→atom→btc route expands to the two hops (1, osmo, atom), (2, atom, btc) |
| Scenarios.OsmoToBtcExactOutPlan | packages/bindings-test/src/multitest.rs:843-901 | Routing `Out(1000)` btc walks pool 2 then pool 1 and asks `In(4033)` osmo |
| Scenarios.OsmoToBtcExactInPlan | packages/bindings-test/src/multitest.rs:904-961 | Routing `In(4000)` osmo walks pool 1 then pool 2 and yields `Out(993)` btc |
| Scenarios.OsmoToBtcMaxInputExceeded | packages/bindings-test/src/multitest.rs:729-764 | A `max_input` of 4000 on that route is `PriceTooLow` |
| Scenarios.OsmoToBtcExactOutSwap | packages/bindings-test/src/multitest.rs:843-901 | A `max_input` of 5000 settles 4033 osmo for 1000 btc and saves both pools |
| Scenarios.OsmoToBtcMinOutputNotMet | packages/bindings-test/src/multitest.rs:767-802 | A `min_output` of 1000 for 4000 osmo is `PriceTooLow` |
| Scenarios.OsmoToBtcExactInSwap | packages/bindings-test/src/multitest.rs:904-961 | A `min_output` of 900 settles 4000 osmo for 993 btc and saves both pools |
| Scenarios.OsmoToBtcWrongDenom | packages/bindings-test/src/multitest.rs:805-840 | When the second pool holds eth instead of btc, the swap fails with `AssetNotInPool` |
| Scenarios.AtomBtcEstimatesDiffer | packages/bindings-test/src/multitest.rs:963-999 | `In(2007)` is estimated at `Out(1000)`, but `Out(1000)` is estimated at `In(2009)`, not the `In(2007)` the ignored test expects |
| Reflect.NewSubMsg | contracts/reflect/src/contract.rs:56-58 | `SubMsg::new`: id 0, no gas limit, never replies |
| Reflect.OwnerGate | contracts/reflect/src/contract.rs:43-50 | Passes exactly when the stored owner is the sender. A missing owner cell is `NotFound`, and another sender is `NotCurrentOwner{expected, actual}` |
| Reflect.ChangeOwnerOutcome | contracts/reflect/src/contract.rs:84-104 | Only the owner may change the owner. A failing address validation is a `Std` error. On success the validated address is the new owner and the response logs the action and the new owner |
| Reflect.ReflectContract.constructor | contracts/reflect/src/contract.rs:12-21 | Storage before `instantiate`: no owner, no replies |
| Reflect.ReflectContract.Instantiate | contracts/reflect/src/contract.rs:12-21 | The sender becomes the owner, and `query_owner` then returns it. No messages |
| Reflect.ReflectContract.ExecuteReflect | contracts/reflect/src/contract.rs:37-59 | Succeeds exactly for the owner with a non-empty list. It emits each message in order as `SubMsg::new` with the `reflect` action. The owner gate's errors come first, then `MessagesEmpty` |
| Reflect.ReflectContract.ExecuteReflectSubcall | contracts/reflect/src/contract.rs:61-82 | The same gate and emptiness check, then the owner's sub-messages unchanged with the `reflect_subcall` action |
| Reflect.ReflectContract.ExecuteChangeOwner | contracts/reflect/src/contract.rs:84-104 | The owner cell changes exactly as `ChangeOwnerOutcome` says and is kept on error. Replies are untouched |
| Reflect.ReflectContract.Execute | contracts/reflect/src/contract.rs:24-35 | Dispatches each `ExecuteMsg` to its handler. Reflecting never changes storage |
| Reflect.ReflectContract.ReceiveReply | contracts/reflect/src/contract.rs:107-112 | Stores the reply under its id, replacing any earlier one. `query_subcall` then returns it and every other id's answer is unchanged |
| Reflect.ReflectContract.QueryOwner | contracts/reflect/src/contract.rs:123-129 | The stored owner, or `NotFound` before `instantiate` |
| Reflect.ReflectContract.QuerySubcall | contracts/reflect/src/contract.rs:131-134 | The reply stored under the id, which carries that id, or `NotFound` |

## Left out

- The bank side of the `Swap` message is not modelled: the burn of `pay_in` from the sender and the mint of `get_out` to it. A burn that fails for lack of balance aborts the message in the simulator. The model has no balances, so it does not capture that failure. It returns the settlement (`denom_in`, `pay_in`, `denom_out`, `get_out`) that those two bank calls would use.
- The `CreateDenom`, `MintTokens`, `BurnTokens` and `ChangeAdmin` arms of `execute` are not modelled, because token-factory administration is outside this model. None of them touches the pool store:
  - `BurnTokens` and `ChangeAdmin` return an empty response.
  - `CreateDenom` returns the built denom as its data, or fails with `build_denom`'s error. The denom building is `Multitest.BuildDenom`.
  - `MintTokens` mints through the bank and returns the denom as its data.
- The `FullDenom` query arm is not modelled. Its `addr_validate` belongs to the host. The denom it builds is `Multitest.BuildDenom`.
- The following are not modelled:
  - `sudo`, which always fails;
  - the `OsmosisApp` wrapper, its block clock and its raw querier;
  - the `mint_token` test.
- JSON (de)serialisation is not modelled: `to_binary`, `from_slice` and the storage encoding of `Pool`. The store holds pool values directly.
- `SwapResponse` and `SpotPriceResponse` are not separate types. The handler returns the `SwapAmount` and the `Decimal` they wrap.
- Pools.SwapQuote: 128-bit overflow of `Uint128` arithmetic is not modelled, because numbers are unbounded. A product that would overflow in the simulator, and so panic there, gets a value in the model.
- Pools.SwapQuote: its own contract states only the direction of the payout and that panics are the only failure. The amounts are stated by `Pools.ExactInQuote` and `Pools.ExactOutQuote`, and the exact failure conditions by `Pools.SwapQuoteFails`.
- Pools.SwapOutcome: a Rust panic (a subtraction underflow or a division by zero) becomes the error `Panic`. The source has no such variant, and its panic aborts the whole message. As in the source, nothing is saved.
- Router.RouteWith: its own contract states only the direction of the answer. What is saved is stated by `Router.RouteShape` and `Router.RouteSavesHop`.
- Multitest.Estimate: its own contract states only the direction of the answer. Its agreement with a performed swap is `Multitest.EstimateAgreesWithSwap`.
- Multitest.BuildDenom: Rust's `len()` counts UTF-8 bytes. The model counts characters, so the two agree only on ASCII creators and subdenoms.
- The `NotFound` errors carry only a kind name ("Pool", "State", "Reply"), not the storage key text the host would print.
- `api.addr_validate` in `execute_change_owner` is the parameter `validate`, because address rules belong to the host.
- A `CosmosMsg` is an opaque payload, because the reflect contract forwards it without looking inside.
- The `query_chain` and `QueryMsg::Chain` path of the reflect contract is not modelled: it forwards a raw request to the host querier and returns whatever the host answers.
- The reflect contract's `state.rs` is not part of this model. Its `config` cell and `replies` bucket are the fields `owner` and `replies` of `Reflect.ReflectContract`.
- The tokenfactory and twap contracts, `querier.rs` and `msg.rs` of the bindings are context only. `OsmosisMsg` appears only through the `Swap` arm it carries.
