/**
 Bounded exponential backoff (terminal/repl.py): the delays, and the reconnect loop that sleeps them.
 Arithmetic is exact.
 */
module Backoff {
  import opened Base

  datatype ReconnectPolicy = ReconnectPolicy(maxAttempts: int, baseDelay: real, maxDelay: real) {
    /** `delay_for`. */
    function DelayFor(attempt: nat): real {
      Min(baseDelay * Pow2(attempt), maxDelay)
    }

    predicate NonNegative() {
      baseDelay >= 0.0 && maxDelay >= 0.0
    }

    /** The sleep before the first `n` attempts together. */
    function TotalDelay(n: nat): real {
      if n == 0 then 0.0 else TotalDelay(n - 1) + DelayFor(n - 1)
    }

    function GeometricBound(n: nat): real {
      baseDelay * (Pow2(n) - 1.0)
    }

    function LinearBound(n: nat): real {
      n as real * maxDelay
    }
  }

  function Min(a: real, b: real): real {
    if a < b then a else b
  }

  function Pow2(n: nat): (p: real)
    ensures p >= 1.0
  {
    if n == 0 then 1.0 else 2.0 * Pow2(n - 1)
  }

  lemma {:induction false} PowersGrow(i: nat, j: nat)
    requires i <= j
    ensures Pow2(i) <= Pow2(j)
    decreases j
  {
    if i < j {
      PowersGrow(i, j - 1);
    }
  }

  /** Delays never decrease and never exceed the cap; once the cap is reached they stay there. */
  lemma DelaysAreMonotone(p: ReconnectPolicy, i: nat, j: nat)
    requires p.NonNegative() && i <= j
    ensures 0.0 <= p.DelayFor(i) <= p.DelayFor(j) <= p.maxDelay
    ensures p.DelayFor(i) == p.maxDelay ==> p.DelayFor(j) == p.maxDelay
  {
    PowersGrow(i, j);
    assert p.baseDelay * Pow2(i) <= p.baseDelay * Pow2(j);
  }

  /** The delays start at the base and double until they reach the cap. */
  lemma DelaysDouble(p: ReconnectPolicy, k: nat)
    requires p.NonNegative()
    ensures p.DelayFor(0) == if p.baseDelay < p.maxDelay then p.baseDelay else p.maxDelay
    ensures p.DelayFor(k + 1) == if 2.0 * p.DelayFor(k) < p.maxDelay then 2.0 * p.DelayFor(k) else p.maxDelay
  {
    hide Pow2;
    PowerOfZero();
    PowerStep(k + 1);
    Twice(p.baseDelay, Pow2(k));
  }

  lemma Twice(b: real, q: real)
    ensures b * (2.0 * q) == 2.0 * (b * q)
  {}

  /** Until the cap is reached the geometric sum is not only a bound: it is what is slept. */
  lemma {:induction false} UncappedTotal(p: ReconnectPolicy, n: nat)
    requires p.NonNegative() && (n > 0 ==> p.baseDelay * Pow2(n - 1) <= p.maxDelay)
    ensures p.TotalDelay(n) == p.GeometricBound(n)
    decreases n
  {
    hide Pow2;
    if n == 0 {
      PowerOfZero();
    } else {
      PowerStep(n);
      GeometricStep(p, n);
      if n > 1 {
        PowersGrow(n - 2, n - 1);
        TimesMonotone(p.baseDelay, Pow2(n - 2), Pow2(n - 1));
      }
      UncappedTotal(p, n - 1);
    }
  }

  lemma TimesMonotone(b: real, x: real, y: real)
    requires b >= 0.0 && x <= y
    ensures b * x <= b * y
  {}

  lemma PowerOfZero()
    ensures Pow2(0) == 1.0
  {}

  lemma PowerStep(n: nat)
    requires n > 0
    ensures Pow2(n) == 2.0 * Pow2(n - 1)
  {}

  lemma GeometricStep(p: ReconnectPolicy, n: nat)
    requires n > 0 && Pow2(n) == 2.0 * Pow2(n - 1)
    ensures p.GeometricBound(n) == p.GeometricBound(n - 1) + p.baseDelay * Pow2(n - 1)
  {
    hide Pow2;
    Doubling(p.baseDelay, Pow2(n - 1));
  }

  lemma Doubling(b: real, q: real)
    ensures b * (2.0 * q - 1.0) == b * (q - 1.0) + b * q
  {}

  /** The first `n` delays together stay below the geometric sum... */
  lemma {:induction false} TotalIsGeometric(p: ReconnectPolicy, n: nat)
    requires p.NonNegative()
    ensures p.TotalDelay(n) <= p.GeometricBound(n)
    decreases n
  {
    hide Pow2;
    if n == 0 {
      PowerOfZero();
    } else {
      TotalIsGeometric(p, n - 1);
      PowerStep(n);
      GeometricStep(p, n);
    }
  }

  /** ...and below `n` times the cap. */
  lemma {:induction false} TotalIsLinear(p: ReconnectPolicy, n: nat)
    requires p.NonNegative()
    ensures p.TotalDelay(n) <= p.LinearBound(n)
    decreases n
  {
    if n > 0 {
      TotalIsLinear(p, n - 1);
      assert n as real == (n - 1) as real + 1.0;
      assert ((n - 1) as real + 1.0) * p.maxDelay == (n - 1) as real * p.maxDelay + p.maxDelay;
    }
  }

  lemma {:induction false} TotalGrows(p: ReconnectPolicy, i: nat, j: nat)
    requires p.NonNegative() && i <= j
    ensures p.TotalDelay(i) <= p.TotalDelay(j)
    decreases j
  {
    if i < j {
      TotalGrows(p, i, j - 1);
      DelaysAreMonotone(p, j - 1, j - 1);
    }
  }

  // ---------------------------------------------------------------- the loop

  /** What one attempt meets: whether `disconnect` ran during the sleep, and whether the connect works. */
  datatype Attempt = Attempt(cancelled: bool, connects: bool)

  datatype Ending = Busy | NotTried | GaveUp | WasCancelled | Reconnected

  /** The attempt at which the loop stops: the first that is cancelled or connects. */
  function Stop(attempts: seq<Attempt>): (n: nat)
    ensures n <= |attempts|
    ensures forall i :: 0 <= i < n ==> !attempts[i].cancelled && !attempts[i].connects
    ensures n < |attempts| ==> attempts[n].cancelled || attempts[n].connects
  {
    if attempts == [] || attempts[0].cancelled || attempts[0].connects then 0 else 1 + Stop(attempts[1..])
  }

  class Repl {
    const policy: ReconnectPolicy
    /** The number of the current transport, if any. */
    var transport: Option<nat>
    var reconnecting: bool
    ghost var slept: real

    constructor (policy: ReconnectPolicy, transport: Option<nat>)
      ensures this.policy == policy && this.transport == transport && !reconnecting && slept == 0.0
    {
      this.policy, this.transport, reconnecting, slept := policy, transport, false, 0.0;
    }

    method Sleep(delay: real)
      modifies this`slept
      ensures slept == old(slept) + delay
    {
      slept := slept + delay;
    }

    /**
     `_try_reconnect`: attempt `i` meets `attempts[i]` and would install transport `i`. A loop already
     running, an unknown peer or a policy without attempts end it before the first sleep.
     */
    method TryReconnect(peerKnown: bool, attempts: seq<Attempt>) returns (ending: Ending)
      requires |attempts| == if policy.maxAttempts < 0 then 0 else policy.maxAttempts
      modifies this
      ensures reconnecting == old(reconnecting)
      ensures var k := Stop(attempts);
              && ending == (if old(reconnecting) then Busy
                            else if !peerKnown || |attempts| == 0 then NotTried
                            else if k == |attempts| then GaveUp
                            else if attempts[k].cancelled then WasCancelled
                            else Reconnected)
              && transport == (if ending == Busy then old(transport)
                               else if ending == Reconnected then Some(k)
                               else None)
              && slept - old(slept)
                 == policy.TotalDelay(if ending == Busy || ending == NotTried then 0 else Sleeps(attempts))
    {
      if reconnecting {
        return Busy;
      }
      transport := None;
      if !peerKnown || policy.maxAttempts <= 0 {
        return NotTried;
      }
      ghost var k := Stop(attempts);
      reconnecting := true;
      for attempt := 0 to policy.maxAttempts
        invariant reconnecting && transport == None
        invariant attempt <= k
        invariant slept - old(slept) == policy.TotalDelay(attempt)
      {
        Sleep(policy.DelayFor(attempt));
        if attempts[attempt].cancelled {
          reconnecting := false;
          return WasCancelled;
        }
        if attempts[attempt].connects {
          transport := Some(attempt);
          reconnecting := false;
          return Reconnected;
        }
      }
      reconnecting := false;
      return GaveUp;
    }
  }

  /** The number of sleeps of a loop that runs. */
  function Sleeps(attempts: seq<Attempt>): (n: nat)
    ensures n <= |attempts|
  {
    if Stop(attempts) < |attempts| then Stop(attempts) + 1 else |attempts|
  }

  /** However the loop ends, it has slept no longer than `n` attempts may: min(base * (2^n - 1), n * cap). */
  lemma SleepIsBounded(p: ReconnectPolicy, attempts: seq<Attempt>)
    requires p.NonNegative()
    ensures p.TotalDelay(Sleeps(attempts)) <= p.GeometricBound(|attempts|)
    ensures p.TotalDelay(Sleeps(attempts)) <= p.LinearBound(|attempts|)
  {
    SleepBelow(p, Sleeps(attempts), |attempts|);
  }

  lemma SleepBelow(p: ReconnectPolicy, k: nat, n: nat)
    requires p.NonNegative() && k <= n
    ensures p.TotalDelay(k) <= p.GeometricBound(n)
    ensures p.TotalDelay(k) <= p.LinearBound(n)
  {
    TotalGrows(p, k, n);
    TotalIsGeometric(p, n);
    TotalIsLinear(p, n);
  }
}
