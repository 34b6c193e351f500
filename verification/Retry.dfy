/** Bounded waiting for the lock: `AcquireWithRetry` in internal/bundle/lock.go. */
module Retry {

  const DEFAULT_INTERVAL := 200_000_000

  /** How one attempt on the lock ends. */
  datatype Attempt = Acquired | Locked | Failed

  datatype Outcome = Release | StillLocked | LockError | Cancelled

  /** The pause actually used. */
  function Effective(interval: int): (i: int)
    ensures i > 0 && (interval > 0 ==> i == interval) && (interval <= 0 ==> i == 200_000_000)
  {
    if interval <= 0 then DEFAULT_INTERVAL else interval
  }

  function Least(a: int, b: int): int
  {
    if a < b then a else b
  }

  function Pause(interval: int, now: int, deadline: int): int
  {
    if deadline - now > Effective(interval) then Effective(interval) else deadline - now
  }

  /** The least number of steps of `b` that reach `a`. */
  function CeilDiv(a: int, b: int): int
    requires b > 0
  {
    (a + b - 1) / b
  }

  lemma CeilDivMeans(a: int, b: int)
    requires b > 0
    ensures var q := CeilDiv(a, b); (q - 1) * b < a <= q * b
  {
    var n := a + b - 1;
    assert n == n / b * b + n % b;
  }

  /** Readings of the clock: the first sets the deadline, then one after each attempt. Time does
      not run backwards and no timer fires early. */
  ghost predicate ClockOk(clock: nat -> int, timeout: int, interval: int)
  {
    clock(1) >= clock(0) &&
    forall k: nat {:trigger clock(k + 2)} ::
      var deadline := clock(0) + timeout;
      clock(k + 1) < deadline ==> clock(k + 2) >= clock(k + 1) + Pause(interval, clock(k + 1), deadline)
  }

  lemma RoundsBound(k: nat, step: int, timeout: int)
    requires step > 0 && k * step < timeout
    ensures k + 1 <= CeilDiv(timeout, step)
  {
    var q := CeilDiv(timeout, step);
    var n := timeout + step - 1;
    assert n == q * step + n % step;
    assert (q - k) * step > 0;
  }

  /** `attempt(k)` and `cancelled(k)` are what the k-th try and the k-th wait meet. At most
      ceil(timeout/interval) + 1 tries, no pause past the deadline, and a release function only
      after a try that succeeded. */
  method AcquireWithRetry(timeout: int, interval: int, clock: nat -> int, attempt: nat -> Attempt,
      cancelled: nat -> bool)
    returns (outcome: Outcome, tries: nat, pauses: seq<(int, int)>)
    requires ClockOk(clock, timeout, interval)
    ensures tries >= 1 && forall k | 0 <= k < tries - 1 :: attempt(k) == Locked
    ensures outcome == Release <==> attempt(tries - 1) == Acquired
    ensures outcome == LockError <==> attempt(tries - 1) == Failed
    ensures timeout <= 0 ==> tries == 1 && pauses == []
    ensures timeout > 0 ==> tries <= CeilDiv(timeout, Effective(interval)) + 1
    ensures forall i | 0 <= i < |pauses| :: pauses[i].1 > 0 && pauses[i].0 + pauses[i].1 <= clock(0) + timeout
    ensures outcome == StillLocked && timeout > 0 ==> clock(tries) >= clock(0) + timeout
    ensures outcome == Cancelled <==> |pauses| == tries && cancelled(tries - 1)
    ensures forall k | 0 <= k < tries - 1 :: !cancelled(k)
    ensures |pauses| == if outcome == Cancelled then tries else tries - 1
    ensures forall i | 0 <= i < |pauses| ::
              pauses[i].0 == clock(i + 1) &&
              pauses[i].1 == Least(Effective(interval), clock(0) + timeout - clock(i + 1))
  {
    tries, pauses := 0, [];
    if timeout <= 0 {
      var first := attempt(0);
      return (match first case Acquired => Release case Locked => StillLocked case Failed => LockError), 1, [];
    }
    var step := Effective(interval);
    var deadline := clock(0) + timeout;
    while true
      invariant forall k | 0 <= k < tries :: attempt(k) == Locked
      invariant clock(tries + 1) >= clock(0) + tries * step || clock(tries + 1) >= deadline
      invariant tries <= CeilDiv(timeout, step)
      invariant forall i | 0 <= i < |pauses| :: pauses[i].1 > 0 && pauses[i].0 + pauses[i].1 <= deadline
      invariant |pauses| == tries && forall k | 0 <= k < tries :: !cancelled(k)
      invariant forall i | 0 <= i < |pauses| ::
                  pauses[i].0 == clock(i + 1) && pauses[i].1 == Least(step, deadline - clock(i + 1))
      decreases CeilDiv(timeout, step) - tries
    {
      var got := attempt(tries);
      if got == Acquired {
        return Release, tries + 1, pauses;
      }
      if got == Failed {
        return LockError, tries + 1, pauses;
      }
      var now := clock(tries + 1);
      var sleepFor := deadline - now;
      if sleepFor <= 0 {
        return StillLocked, tries + 1, pauses;
      }
      if sleepFor > step {
        sleepFor := step;
      }
      RoundsBound(tries, step, timeout);
      pauses := pauses + [(now, sleepFor)];
      if cancelled(tries) {
        return Cancelled, tries + 1, pauses;
      }
      assert clock(tries + 2) >= now + Pause(interval, now, deadline);
      tries := tries + 1;
    }
  }
}
