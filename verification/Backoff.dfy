/** Exponential backoff (src/modbus/poller.rs). Delays are nanoseconds. */
module Backoffs {
  function Min(a: nat, b: nat): nat {
    if a <= b then a else b
  }

  function Pow2(k: nat): nat {
    if k == 0 then 1 else 2 * Pow2(k - 1)
  }

  /** `min` doubled `k` times. */
  function Doubled(min: nat, k: nat): nat {
    if k == 0 then min else 2 * Doubled(min, k - 1)
  }

  lemma {:induction false} DoubledIsPower(min: nat, k: nat)
    ensures Doubled(min, k) == min * Pow2(k)
  {
    if k > 0 {
      DoubledIsPower(min, k - 1);
      assert min * Pow2(k) == 2 * (min * Pow2(k - 1));
    }
  }

  /** The delay after `k` waits since the start or the last reset: the first one is not capped. */
  function Delay(min: nat, max: nat, k: nat): nat {
    if k == 0 then min else Min(Doubled(min, k), max)
  }

  class Backoff {
    const min: nat
    const max: nat
    var current: nat

    constructor (min: nat, max: nat)
      ensures this.min == min && this.max == max && current == min
    {
      this.min, this.max, this.current := min, max, min;
    }

    /** One sleep; the next one is twice as long unless that exceeds `max`. */
    method Wait() returns (slept: nat)
      modifies this`current
      ensures slept == old(current)
      ensures current == Min(2 * old(current), max)
    {
      slept := current;
      current := Min(current * 2, max);
    }

    method Reset()
      modifies this`current
      ensures current == min
    {
      current := min;
    }
  }

  datatype Op = Waited | WasReset

  /** The current delay after a history of calls on a fresh `Backoff`. */
  function CurrentAfter(min: nat, max: nat, ops: seq<Op>): nat {
    if ops == [] then min
    else
      var before := CurrentAfter(min, max, ops[..|ops| - 1]);
      if ops[|ops| - 1].Waited? then Min(2 * before, max) else min
  }

  function WaitsSinceReset(ops: seq<Op>): nat {
    if ops == [] || ops[|ops| - 1].WasReset? then 0 else 1 + WaitsSinceReset(ops[..|ops| - 1])
  }

  lemma OneMoreWait(min: nat, max: nat, k: nat)
    ensures Min(2 * Delay(min, max, k), max) == Delay(min, max, k + 1)
  {
  }

  /** Closed form over every history of waits and resets. */
  lemma {:induction false} ClosedForm(min: nat, max: nat, ops: seq<Op>)
    ensures CurrentAfter(min, max, ops) == Delay(min, max, WaitsSinceReset(ops))
  {
    if ops != [] {
      ClosedForm(min, max, ops[..|ops| - 1]);
      OneMoreWait(min, max, WaitsSinceReset(ops[..|ops| - 1]));
    }
  }

  /** `min(min * 2^k, max)` describes every delay exactly when `min <= max`: only the first delay can exceed `max`. */
  lemma CappedExactlyWhenOrdered(min: nat, max: nat)
    ensures (forall k: nat :: Delay(min, max, k) == Min(min * Pow2(k), max)) <==> min <= max
  {
    assert min * Pow2(0) == min && Delay(min, max, 0) == min;
    forall k: nat ensures min <= max || k > 0 ==> Delay(min, max, k) == Min(min * Pow2(k), max) {
      DoubledIsPower(min, k);
    }
  }
}
