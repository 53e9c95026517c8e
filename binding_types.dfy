/**
 * The value types shared by the bindings and the simulator: coins, one swap
 * hop, a continuation step of a route, and the two ways of fixing a swap's size.
 */
module BindingTypes {

  /** The cosmwasm `StdError` variants this model produces: a missing storage entry (by
      the kind of value looked up) and a generic failure with its message. */
  datatype StdError = NotFound(kind: string) | GenericErr(msg: string)

  /** A cosmwasm `Coin`: a denomination and an unsigned amount. */
  datatype Coin = Coin(denom: string, amount: nat)

  /** One hop through one pool. `Swap::new` is this constructor. */
  datatype Swap = Swap(poolId: nat, denomIn: string, denomOut: string)

  /** A further hop of a route; its input denom is the previous hop's output denom.
      `Step::new` is this constructor. */
  datatype Step = Step(poolId: nat, denomOut: string)

  /** Which side of a swap is known exactly. */
  datatype SwapAmount = In(input: nat) | Out(output: nat)
  {
    /** `as_in`: the amount of an `In`; the source panics on an `Out`. */
    function AsIn(): (x: nat)
      requires In?
      ensures In(x) == this
    {
      input
    }

    /** `as_out`: the amount of an `Out`; the source panics on an `In`. */
    function AsOut(): (x: nat)
      requires Out?
      ensures Out(x) == this
    {
      output
    }
  }

  /** A caller's request: the exact side plus a slippage bound on the other side. */
  datatype SwapAmountWithLimit =
    | ExactIn(input: nat, minOutput: nat)
    | ExactOut(output: nat, maxInput: nat)
  {
    /** `discard_limit`: keep the exact side and its tag, drop the bound. */
    function DiscardLimit(): (a: SwapAmount)
      ensures a.In? <==> ExactIn?
      ensures ExactIn? ==> a == In(input)
      ensures ExactOut? ==> a == Out(output)
    {
      match this
      case ExactIn(input, _) => In(input)
      case ExactOut(output, _) => Out(output)
    }
  }

  /** Two requests that differ only in their bound lose the same information. */
  lemma DiscardLimitIgnoresBound(a: SwapAmountWithLimit, b: SwapAmountWithLimit)
    requires a.ExactIn? == b.ExactIn?
    requires a.ExactIn? ==> a.input == b.input
    requires a.ExactOut? ==> a.output == b.output
    ensures a.DiscardLimit() == b.DiscardLimit()
  {
  }
}
