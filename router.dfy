/**
 * `complex_swap`: runs a multi-hop route against the pool store without
 * saving anything. Exact-in walks the hops forward, feeding each hop's
 * output into the next; exact-out walks them in reverse, each hop's required
 * input becoming the previous hop's required output. Every hop loads its
 * pool afresh from the store, so a pool met twice does not see the earlier
 * hop's change; the caller gets one updated copy per hop, in walk order.
 *
 * The walk is written over any per-pool swap; `Route` instantiates it with
 * `Pool::swap` (`SwapOutcome`), and the lemmas hold for every swap that
 * answers with the other side's amount and never fails with `PriceTooLow`.
 */
module Router {
  import opened Wrappers
  import opened BindingTypes
  import opened Pools

  /** The pool store `POOLS`: pool id to stored pool. */
  type Store = map<nat, PoolRecord>

  /** The amount on the side that was not fixed, and the updated pool copies in walk order. */
  datatype SwapPlan = SwapPlan(amount: SwapAmount, updatedPools: seq<(nat, PoolRecord)>)

  /** A walk's outcome: the last amount carried and the copies collected. */
  datatype Routed = Routed(amount: nat, updated: seq<(nat, PoolRecord)>)

  /** The hops that follow a hop whose out-denom is `denomIn`. */
  function Continue(denomIn: string, route: seq<Step>): (h: seq<Swap>)
    ensures |h| == |route|
    ensures forall i :: 0 <= i < |route| ==>
              h[i].poolId == route[i].poolId && h[i].denomOut == route[i].denomOut &&
              h[i].denomIn == (if i == 0 then denomIn else route[i - 1].denomOut)
    decreases |route|
  {
    if route == [] then []
    else [Swap(route[0].poolId, denomIn, route[0].denomOut)] + Continue(route[0].denomOut, route[1..])
  }

  /** The fully specified hops of a route: `first`, then one hop per step, each taking
      the previous hop's out-denom as its in-denom. */
  function Hops(first: Swap, route: seq<Step>): (h: seq<Swap>)
    ensures |h| == |route| + 1 && h[0] == first
    ensures forall i :: 1 <= i < |h| ==>
              h[i] == Swap(route[i - 1].poolId, if i == 1 then first.denomOut else route[i - 2].denomOut,
                           route[i - 1].denomOut)
  {
    [first] + Continue(first.denomOut, route)
  }

  /** Consecutive hops chain: each hop pays in what the hop before it paid out. */
  lemma HopsChain(first: Swap, route: seq<Step>)
    ensures var h := Hops(first, route);
            forall i :: 1 <= i < |h| ==> h[i].denomIn == h[i - 1].denomOut
  {
  }

  /** The last hop's out-denom is the last step's out-denom, or `first`'s when the route is empty. */
  lemma HopsEndWhereRouteEnds(first: Swap, route: seq<Step>)
    ensures var h := Hops(first, route);
            h[|h| - 1].denomOut == (if route == [] then first.denomOut else route[|route| - 1].denomOut)
  {
  }

  /** `swaps.iter().rev()`: the hops last to first. */
  function Reversed(hops: seq<Swap>): (r: seq<Swap>)
    ensures |r| == |hops|
    ensures forall i :: 0 <= i < |hops| ==> r[i] == hops[|hops| - 1 - i]
  {
    seq(|hops|, i requires 0 <= i < |hops| => hops[|hops| - 1 - i])
  }

  /** A swap on one stored pool: the pool, the in-denom, the out-denom and the fixed amount. */
  type PoolSwap = (PoolRecord, string, string, SwapAmount) -> Result<Swapped, OsmosisError>

  /** What the router relies on in a pool swap: a success answers with the other side's
      amount, and a failure is never a slippage failure. */
  ghost predicate Routable(swap: PoolSwap)
  {
    forall p, denomIn, denomOut, amount ::
      (swap(p, denomIn, denomOut, amount).Ok? ==> (swap(p, denomIn, denomOut, amount).value.amount.Out? <==> amount.In?)) &&
      (swap(p, denomIn, denomOut, amount).Err? ==> swap(p, denomIn, denomOut, amount).error != PriceTooLow)
  }

  /** `Pool::swap` is such a swap. */
  lemma SwapOutcomeRoutable()
    ensures Routable(SwapOutcome)
  {
  }

  /** One hop: load the pool (failing if the store has none) and swap on the loaded copy. */
  function HopOutcome(swap: PoolSwap, pools: Store, hop: Swap, amount: SwapAmount): Result<Swapped, OsmosisError>
  {
    if hop.poolId !in pools then Err(Std(NotFound("Pool")))
    else swap(pools[hop.poolId], hop.denomIn, hop.denomOut, amount)
  }

  /** The amount to fix on the next hop: a payout (`as_out`) becomes the next input, a
      required payment (`as_in`) the next output; the wrong tag is the source's panic. */
  function Carry(fixed: SwapAmount, answer: SwapAmount): (r: Result<SwapAmount, OsmosisError>)
    ensures r.Ok? <==> (answer.Out? <==> fixed.In?)
    ensures r.Ok? ==> r.value.In? == fixed.In?
    ensures r.Err? ==> r.error.Panic?
  {
    match (fixed, answer)
    case (In(_), Out(x)) => Ok(In(x))
    case (Out(_), In(x)) => Ok(Out(x))
    case (In(_), In(_)) => Err(Panic("was input"))
    case (Out(_), Out(_)) => Err(Panic("was output"))
  }

  /** The amount a `SwapAmount` carries, whichever its side. */
  function Value(a: SwapAmount): nat
  {
    match a
    case In(x) => x
    case Out(x) => x
  }

  /** Put the copies collected before a partial walk in front of its own. */
  function Prepend(done: seq<(nat, PoolRecord)>, rest: Result<Routed, OsmosisError>): Result<Routed, OsmosisError>
  {
    match rest
    case Ok(w) => Ok(Routed(w.amount, done + w.updated))
    case Err(e) => Err(e)
  }

  /** The walk over order[i..] with `fixed` fixed on order[i]: each hop swaps on a fresh
      copy of its stored pool, and its answer fixes the next hop's amount on the same side. */
  function Walk(swap: PoolSwap, pools: Store, order: seq<Swap>, i: nat, fixed: SwapAmount): Result<Routed, OsmosisError>
    requires i <= |order|
    decreases |order| - i
  {
    if i == |order| then Ok(Routed(Value(fixed), []))
    else
      match HopOutcome(swap, pools, order[i], fixed)
      case Err(e) => Err(e)
      case Ok(s) =>
        match Carry(fixed, s.amount)
        case Err(e) => Err(e)
        case Ok(next) => Prepend([(order[i].poolId, s.pool)], Walk(swap, pools, order, i + 1, next))
  }

  /** The order `complex_swap` visits the hops in: forward for exact-in, reversed for exact-out. */
  function Order(hops: seq<Swap>, amount: SwapAmount): (o: seq<Swap>)
    ensures |o| == |hops|
    ensures forall j :: 0 <= j < |hops| ==> o[j] == hops[if amount.In? then j else |hops| - 1 - j]
  {
    if amount.In? then hops else Reversed(hops)
  }

  /** The router over a given pool swap. */
  function RouteWith(swap: PoolSwap, pools: Store, first: Swap, route: seq<Step>, amount: SwapAmount): (r: Result<SwapPlan, OsmosisError>)
    ensures r.Ok? ==> (r.value.amount.Out? <==> amount.In?)
  {
    match Walk(swap, pools, Order(Hops(first, route), amount), 0, amount)
    case Err(e) => Err(e)
    case Ok(w) => Ok(SwapPlan(if amount.In? then Out(w.amount) else In(w.amount), w.updated))
  }

  /** What `complex_swap` returns for a route. */
  function Route(pools: Store, first: Swap, route: seq<Step>, amount: SwapAmount): (r: Result<SwapPlan, OsmosisError>)
    ensures r.Ok? ==> (r.value.amount.Out? <==> amount.In?)
  {
    RouteWith(SwapOutcome, pools, first, route, amount)
  }

  /** The snapshot is the stored pool after one swap on the given hop. */
  ghost predicate SwappedFrom(swap: PoolSwap, stored: PoolRecord, hop: Swap, snapshot: PoolRecord)
  {
    exists a: SwapAmount :: swap(stored, hop.denomIn, hop.denomOut, a).Ok? &&
                            swap(stored, hop.denomIn, hop.denomOut, a).value.pool == snapshot
  }

  /** The copy `u` is the pool of `hop`, stored in `pools`, after one swap on that hop. */
  ghost predicate Recorded(swap: PoolSwap, pools: Store, hop: Swap, u: (nat, PoolRecord))
  {
    u.0 == hop.poolId && u.0 in pools && SwappedFrom(swap, pools[u.0], hop, u.1)
  }

  /** One hop of a walk: its copy goes in front of the rest of the walk's. */
  lemma WalkStep(swap: PoolSwap, pools: Store, order: seq<Swap>, i: nat, fixed: SwapAmount, s: Swapped, next: SwapAmount)
    requires i < |order|
    requires HopOutcome(swap, pools, order[i], fixed) == Ok(s)
    requires Carry(fixed, s.amount) == Ok(next)
    ensures Walk(swap, pools, order, i, fixed) == Prepend([(order[i].poolId, s.pool)], Walk(swap, pools, order, i + 1, next))
  {
  }

  /** A walk records one copy per hop, in visiting order, each one swap away from the
      STORED pool of that hop (never from an earlier hop's copy); a failure is a load or
      swap error, never a slippage failure. */
  lemma {:induction false} WalkShape(swap: PoolSwap, pools: Store, order: seq<Swap>, i: nat, fixed: SwapAmount)
    requires Routable(swap) && i <= |order|
    ensures var r := Walk(swap, pools, order, i, fixed);
            && (r.Err? ==> r.error != PriceTooLow)
            && (r.Ok? ==> |r.value.updated| == |order| - i)
            && (r.Ok? ==> forall j :: 0 <= j < |r.value.updated| ==> Recorded(swap, pools, order[i + j], r.value.updated[j]))
    decreases |order| - i
  {
    if i < |order| {
      var h := HopOutcome(swap, pools, order[i], fixed);
      if h.Ok? {
        var next := Carry(fixed, h.value.amount);
        assert next.Ok?;
        WalkShape(swap, pools, order, i + 1, next.value);
        var r := Walk(swap, pools, order, i, fixed);
        if r.Ok? {
          assert SwappedFrom(swap, pools[order[i].poolId], order[i], h.value.pool) by {
            assert swap(pools[order[i].poolId], order[i].denomIn, order[i].denomOut, fixed) == h;
          }
          forall j | 1 <= j < |r.value.updated|
            ensures Recorded(swap, pools, order[i + j], r.value.updated[j])
          {
            var rest := Walk(swap, pools, order, i + 1, next.value);
            assert r.value.updated[j] == rest.value.updated[j - 1];
          }
        }
      }
    }
  }

  /** The router's contract over any routable swap: the answer carries the opposite tag,
      there is one updated copy per hop in walk order (forward for exact-in, backward for
      exact-out), each taken from the stored pool of its hop, and a failure is never a
      slippage failure. */
  lemma RouteShape(swap: PoolSwap, pools: Store, first: Swap, route: seq<Step>, amount: SwapAmount)
    requires Routable(swap)
    ensures var r := RouteWith(swap, pools, first, route, amount);
            var hops := Hops(first, route);
            var n := |hops|;
            && (r.Err? ==> r.error != PriceTooLow)
            && (r.Ok? ==> (r.value.amount.Out? <==> amount.In?))
            && (r.Ok? ==> |r.value.updatedPools| == n)
            && (r.Ok? ==> forall j :: 0 <= j < n ==> Recorded(swap, pools, Order(hops, amount)[j], r.value.updatedPools[j]))
  {
    var order := Order(Hops(first, route), amount);
    WalkShape(swap, pools, order, 0, amount);
  }

  /** `id` is the pool of `first` or of one of the steps. */
  ghost predicate OnRoute(first: Swap, route: seq<Step>, id: nat)
  {
    id == first.poolId || exists i :: 0 <= i < |route| && route[i].poolId == id
  }

  /** The `j`-th copy a successful route collects is of the pool of hop `j` in walking
      order: a stored pool on the route, swapped from its stored value. */
  lemma RouteSavesHop(swap: PoolSwap, pools: Store, first: Swap, route: seq<Step>, amount: SwapAmount, j: nat)
    requires Routable(swap)
    requires RouteWith(swap, pools, first, route, amount).Ok?
    requires j <= |route|
    ensures var ups := RouteWith(swap, pools, first, route, amount).value.updatedPools;
            && |ups| == |route| + 1
            && Recorded(swap, pools, Hops(first, route)[if amount.In? then j else |route| - j], ups[j])
            && OnRoute(first, route, ups[j].0)
  {
    var hops := Hops(first, route);
    var ups := RouteWith(swap, pools, first, route, amount).value.updatedPools;
    RouteShape(swap, pools, first, route, amount);
    var k := if amount.In? then j else |route| - j;
    assert Order(hops, amount)[j] == hops[k];
    assert Recorded(swap, pools, Order(hops, amount)[j], ups[j]);
    if k > 0 {
      assert route[k - 1].poolId == ups[j].0;
    }
  }

  /** With an empty route the router is one swap on `first`'s pool. */
  lemma RouteOneHop(swap: PoolSwap, pools: Store, first: Swap, amount: SwapAmount)
    requires Routable(swap)
    ensures var r := RouteWith(swap, pools, first, [], amount);
            var h := HopOutcome(swap, pools, first, amount);
            && (r.Ok? <==> h.Ok?)
            && (r.Err? ==> r.error == h.error)
            && (r.Ok? ==> r.value == SwapPlan(h.value.amount, [(first.poolId, h.value.pool)]))
  {
    var order := Order(Hops(first, []), amount);
    assert order == [first];
    var h := HopOutcome(swap, pools, first, amount);
    if h.Ok? {
      var next := Carry(amount, h.value.amount);
      assert Walk(swap, pools, order, 1, next.value) == Ok(Routed(Value(next.value), []));
    }
  }

  /** Collecting nothing first changes nothing; collecting in two rounds is collecting once. */
  lemma PrependJoin(a: seq<(nat, PoolRecord)>, b: seq<(nat, PoolRecord)>, rest: Result<Routed, OsmosisError>)
    ensures Prepend([], rest) == rest
    ensures Prepend(a, Prepend(b, rest)) == Prepend(a + b, rest)
  {
    if rest.Ok? {
      assert [] + rest.value.updated == rest.value.updated;
      assert a + (b + rest.value.updated) == (a + b) + rest.value.updated;
    }
  }

  /** `POOLS.load` then `Pool::swap` on the loaded copy; the store is not touched. */
  method SwapOnCopy(stored: PoolRecord, hop: Swap, amount: SwapAmount) returns (r: Result<Swapped, OsmosisError>)
    ensures r == SwapOutcome(stored, hop.denomIn, hop.denomOut, amount)
  {
    var pool := new Pool.Load(stored);
    var payout := pool.Swap(hop.denomIn, hop.denomOut, amount);
    if payout.Err? {
      return Err(payout.error);
    }
    r := Ok(Swapped(payout.value, pool.Record()));
  }

  /** One turn of `complex_swap`'s loop: load hop `i`'s pool (`NotFound` when it is not
      stored), swap on the copy, and turn its answer into the next hop's amount. */
  method WalkHop(pools: Store, order: seq<Swap>, i: nat, fixed: SwapAmount)
    returns (r: Result<((nat, PoolRecord), SwapAmount), OsmosisError>)
    requires i < |order|
    ensures r.Err? ==> Walk(SwapOutcome, pools, order, i, fixed) == Err(r.error)
    ensures r.Ok? ==> r.value.1.In? == fixed.In? &&
                      Walk(SwapOutcome, pools, order, i, fixed) ==
                      Prepend([r.value.0], Walk(SwapOutcome, pools, order, i + 1, r.value.1))
  {
    var swap := order[i];
    if swap.poolId !in pools {
      return Err(Std(NotFound("Pool")));
    }
    var payout := SwapOnCopy(pools[swap.poolId], swap, fixed);
    if payout.Err? {
      return Err(payout.error);
    }
    var next := if fixed.In? then In(payout.value.amount.AsOut()) else Out(payout.value.amount.AsIn());
    assert Carry(fixed, payout.value.amount) == Ok(next);
    WalkStep(SwapOutcome, pools, order, i, fixed, payout.value, next);
    r := Ok(((swap.poolId, payout.value.pool), next));
  }

  /** The loop of `complex_swap` over the hops in visiting order: the copies it collects and
      the amount the last hop fixes. */
  method WalkHops(pools: Store, order: seq<Swap>, amount: SwapAmount) returns (r: Result<Routed, OsmosisError>)
    ensures r == Walk(SwapOutcome, pools, order, 0, amount)
  {
    var updatedPools: seq<(nat, PoolRecord)> := [];
    var fixed := amount;
    var i := 0;
    ghost var whole := Walk(SwapOutcome, pools, order, 0, amount);
    PrependJoin([], [], whole);
    while i < |order|
      invariant 0 <= i <= |order|
      invariant whole == Prepend(updatedPools, Walk(SwapOutcome, pools, order, i, fixed))
    {
      var step := WalkHop(pools, order, i, fixed);
      if step.Err? {
        return Err(step.error);
      }
      var (copy, next) := step.value;
      ghost var rest := Walk(SwapOutcome, pools, order, i + 1, next);
      PrependJoin(updatedPools, [copy], rest);
      updatedPools := updatedPools + [copy];
      fixed := next;
      i := i + 1;
      assert rest == Walk(SwapOutcome, pools, order, i, fixed);
    }
    assert updatedPools + [] == updatedPools;
    r := Ok(Routed(Value(fixed), updatedPools));
  }

  /** `complex_swap`: build the hops, then visit them (forward for exact-in, reversed for
      exact-out), loading each pool from the store and swapping on that fresh copy; each
      answer fixes the next hop's amount. Nothing is written back. */
  method ComplexSwap(pools: Store, first: Swap, route: seq<Step>, amount: SwapAmount)
    returns (r: Result<SwapPlan, OsmosisError>)
    ensures r == Route(pools, first, route, amount)
  {
    var swaps := Hops(first, route);
    var order := if amount.In? then swaps else Reversed(swaps);
    assert order == Order(swaps, amount);
    var walked := WalkHops(pools, order, amount);
    if walked.Err? {
      return Err(walked.error);
    }
    r := Ok(SwapPlan(if amount.In? then Out(walked.value.amount) else In(walked.value.amount), walked.value.updated));
  }
}
