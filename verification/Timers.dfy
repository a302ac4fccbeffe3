/**
 The retry timer.  Durations are natural numbers; the moment at which the
 cancellation token fires is a parameter.
 */
module Timers {
  import opened Messages

  datatype TimerType = Constant | Exponential

  datatype Timer = Timer(
    id: nat,
    kind: TimerType,
    duration: nat,
    maxDuration: Option<nat>,
    maxRetries: Option<nat>)

  datatype Callback =
    | OnTimeout(timerId: nat, timeouts: nat)
    | OnFailure(timerId: nat, timeouts: nat)
    | OnStop(timerId: nat)

  function Pow2(k: nat): nat {
    if k == 0 then 1 else 2 * Pow2(k - 1)
  }

  function Cap(d: nat, max: Option<nat>): nat {
    if max.Some? && d > max.value then max.value else d
  }

  /** The length of wait number `k`, counting from zero. */
  function Wait(t: Timer, k: nat): nat {
    match t.kind
    case Constant => t.duration
    case Exponential => Cap(t.duration * Pow2(k), t.maxDuration)
  }

  lemma WaitDoubles(t: Timer, k: nat)
    requires t.kind == Exponential
    ensures Cap(Wait(t, k) * 2, t.maxDuration) == Wait(t, k + 1)
  {
    assert t.duration * Pow2(k + 1) == t.duration * Pow2(k) * 2;
  }

  /** A constant timer always waits the same; an exponential one waits twice as long each time, up to its cap. */
  lemma WaitShape(t: Timer, k: nat)
    ensures t.kind.Constant? ==> Wait(t, k) == t.duration
    ensures t.kind.Exponential? && t.maxDuration.None? ==> Wait(t, 0) == t.duration && Wait(t, k + 1) == 2 * Wait(t, k)
    ensures t.kind.Exponential? && t.maxDuration.Some? ==>
              var max := t.maxDuration.value;
              && Wait(t, 0) == (if t.duration <= max then t.duration else max)
              && Wait(t, k + 1) == (if 2 * Wait(t, k) <= max then 2 * Wait(t, k) else max)
  {
    if t.kind.Exponential? {
      WaitDoubles(t, k);
      assert t.duration * Pow2(0) == t.duration;
    }
  }

  /** The number of timeouts before the final callback, when the token is cancelled during wait `stopAfter`. */
  function Timeouts(t: Timer, stopAfter: Option<nat>): nat
    requires stopAfter.Some? || t.maxRetries.Some?
  {
    if t.maxRetries.Some? && (stopAfter.None? || t.maxRetries.value < stopAfter.value)
    then t.maxRetries.value
    else stopAfter.value
  }

  /** Callback number `i` of that timer. */
  function CallNo(t: Timer, stopAfter: Option<nat>, i: nat): Callback {
    if stopAfter == Some(i) then OnStop(t.id)
    else if t.maxRetries == Some(i) then OnFailure(t.id, i + 1)
    else OnTimeout(t.id, i + 1)
  }

  /** Wait number `k` is not after the one that ends in the failure. */
  predicate BeforeFailure(t: Timer, k: nat) {
    t.maxRetries.None? || k <= t.maxRetries.value
  }

  /** How long the first `n` waits take together. */
  function TotalWait(t: Timer, n: nat): nat {
    if n == 0 then 0 else TotalWait(t, n - 1) + Wait(t, n - 1)
  }

  /** A constant timer gives up after `n` equal waits. */
  lemma {:induction false} ConstantTotal(t: Timer, n: nat)
    requires t.kind == Constant
    ensures TotalWait(t, n) == n * t.duration
  {
    if n > 0 {
      ConstantTotal(t, n - 1);
      assert n * t.duration == (n - 1) * t.duration + t.duration;
    }
  }

  /**
   The loop run by a started timer.  The waits follow the closed form.  The
   callbacks are the timeouts numbered 1, 2, ... and exactly one final callback:
   a stop when the timer is stopped within its budget, and otherwise, after
   `maxRetries` timeouts, a failure with the next number.
   */
  method Start(t: Timer, stopAfter: Option<nat>) returns (waits: seq<nat>, calls: seq<Callback>)
    requires stopAfter.Some? || t.maxRetries.Some?
    ensures |calls| == |waits| == Timeouts(t, stopAfter) + 1
    ensures forall i :: 0 <= i < |waits| ==> waits[i] == Wait(t, i)
    ensures forall i :: 0 <= i < |calls| ==> calls[i] == CallNo(t, stopAfter, i)
    ensures forall i :: 0 <= i < |calls| - 1 ==> calls[i] == OnTimeout(t.id, i + 1)
    ensures stopAfter.Some? && BeforeFailure(t, stopAfter.value) ==>
              |calls| == stopAfter.value + 1 && calls[stopAfter.value] == OnStop(t.id)
    ensures t.maxRetries.Some? && (stopAfter.Some? ==> !BeforeFailure(t, stopAfter.value)) ==>
              |calls| == t.maxRetries.value + 1 && calls[t.maxRetries.value] == OnFailure(t.id, t.maxRetries.value + 1)
  {
    var retry, timeouts, lastDuration := 0, 0, t.duration;
    waits, calls := [], [];
    while true
      invariant retry == timeouts == |waits| == |calls| <= Timeouts(t, stopAfter)
      invariant forall i :: 0 <= i < |waits| ==> waits[i] == Wait(t, i)
      invariant forall i :: 0 <= i < |calls| ==> calls[i] == CallNo(t, stopAfter, i)
      invariant t.kind.Exponential? && timeouts > 0 ==> lastDuration == Wait(t, timeouts - 1)
      decreases Timeouts(t, stopAfter) - timeouts
    {
      var timerDuration;
      timerDuration, lastDuration := NextWait(t, timeouts, lastDuration);
      waits := waits + [timerDuration];
      if stopAfter == Some(timeouts) {
        calls := calls + [OnStop(t.id)];
        break;
      }
      timeouts := timeouts + 1;
      match t.maxRetries {
        case Some(max) =>
          if retry < max {
            calls := calls + [OnTimeout(t.id, timeouts)];
          } else {
            calls := calls + [OnFailure(t.id, timeouts)];
            break;
          }
        case None =>
          calls := calls + [OnTimeout(t.id, timeouts)];
      }
      retry := retry + 1;
    }
  }

  /** The duration of the next wait, doubled from the last one up to the cap. */
  method NextWait(t: Timer, timeouts: nat, last: nat) returns (timerDuration: nat, lastDuration: nat)
    requires t.kind.Exponential? && timeouts > 0 ==> last == Wait(t, timeouts - 1)
    ensures timerDuration == Wait(t, timeouts)
    ensures t.kind.Exponential? ==> lastDuration == timerDuration
  {
    timerDuration, lastDuration := t.duration, last;
    if t.kind.Exponential? {
      var d := t.duration;
      if timeouts != 0 {
        d := last * 2;
        WaitDoubles(t, timeouts - 1);
      }
      match t.maxDuration {
        case None =>
          timerDuration := d;
        case Some(maxD) =>
          timerDuration := if d > maxD then maxD else d;
      }
      lastDuration := timerDuration;
    }
  }

  /** A timer with no retries never reports a timeout; its failure, if any, has count 1. */
  method StartWithoutRetries(t: Timer, stopAfter: Option<nat>) returns (calls: seq<Callback>)
    requires t.maxRetries == Some(0)
    ensures calls == [OnFailure(t.id, 1)] || calls == [OnStop(t.id)]
    ensures stopAfter.None? ==> calls == [OnFailure(t.id, 1)]
  {
    var waits;
    waits, calls := Start(t, stopAfter);
    assert calls == [CallNo(t, stopAfter, 0)];
  }
}
