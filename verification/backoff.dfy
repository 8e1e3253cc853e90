/** The `backoff` decorator: a wrapped call is repeated while the current
    delay is below the border, the delay growing by `2 ** factor` after each
    failure; when the delay reaches the border the wrapper gives up and
    returns `None` instead of raising.

    Delays are naturals in units of 0.1 s, the decorator's default initial
    delay, so the defaults (0.1 s, factor 2, border 10 s) become (1, 2, 100).
    Multiplying by a power of two is exact in binary floating point, so the
    integer schedule is the one the decorator follows. */
module Backoff {
  import opened Outcomes

  /** `b ** n` on naturals. */
  function Pow(b: nat, n: nat): nat
  {
    if n == 0 then 1 else b * Pow(b, n - 1)
  }

  /** The keyword arguments `sleep_time`, `factor` and `border_sleep_time`.
      They are consumed by the wrapper: the wrapped call, modelled as the
      stream of attempt outcomes, never sees them. */
  datatype RetryPolicy = RetryPolicy(sleepTime: nat, factor: nat, border: nat)

  /** The decorator's defaults in units of 0.1 s. */
  const DefaultPolicy := RetryPolicy(1, 2, 100)

  /** The factor the delay is multiplied by after a failure: `2 ** factor`. */
  function Growth(p: RetryPolicy): nat
  {
    Pow(2, p.factor)
  }

  /** The delay in force before the `j`-th call (counting from 0); it is also
      the sleep that follows that call if it fails. */
  function DelayAt(p: RetryPolicy, j: nat): nat
  {
    Scheduled(p.sleepTime, Growth(p), j)
  }

  /** Policies under which the wrapper stops even if every call fails. With a
      zero delay or a zero factor the delay never grows and a function that
      always raises is retried forever. */
  predicate Terminates(p: RetryPolicy)
  {
    p.border <= p.sleepTime || (0 < p.sleepTime && 0 < p.factor)
  }

  /** What one use of the wrapper did: the value it returned (`None` when it
      gave up), how many times it called the wrapped function, and the sleeps
      it performed, in order. */
  datatype RetryRun<+T> = RetryRun(result: Option<T>, calls: nat, sleeps: seq<nat>)

  lemma {:induction false} PowAtLeastOne(b: nat, n: nat)
    requires 1 <= b
    ensures 1 <= Pow(b, n)
  {
    if n > 0 {
      PowAtLeastOne(b, n - 1);
    }
  }

  lemma {:induction false} PowMonotone(b: nat, i: nat, j: nat)
    requires 1 <= b && i <= j
    ensures Pow(b, i) <= Pow(b, j)
  {
    if i < j {
      PowMonotone(b, i, j - 1);
      MulMonotone(Pow(b, j - 1), 1, b);
      assert Pow(b, j) == b * Pow(b, j - 1);
    }
  }

  /** A positive factor makes the delay grow at least twofold. */
  lemma {:induction false} GrowthAtLeastTwo(p: RetryPolicy)
    requires 0 < p.factor
    ensures 2 <= Growth(p)
  {
    PowAtLeastOne(2, p.factor - 1);
  }

  lemma TerminatingGrowth(p: RetryPolicy)
    requires Terminates(p)
    ensures p.border <= p.sleepTime || (0 < p.sleepTime && 1 < Growth(p))
  {
    if 0 < p.factor {
      GrowthAtLeastTwo(p);
    }
  }

  /** Delays never shrink from one call to a later one. */
  lemma DelayMonotone(p: RetryPolicy, i: nat, j: nat)
    requires i <= j
    ensures DelayAt(p, i) <= DelayAt(p, j)
  {
    PowAtLeastOne(2, p.factor);
    ScheduledIsGeometric(p.sleepTime, Growth(p), i);
    ScheduledIsGeometric(p.sleepTime, Growth(p), j);
    PowMonotone(Growth(p), i, j);
    MulMonotone(p.sleepTime, Pow(Growth(p), i), Pow(Growth(p), j));
  }

  lemma MulMonotone(a: nat, x: nat, y: nat)
    requires x <= y
    ensures a * x <= a * y
  {
  }

  /** The delay in force `j` failures after a delay of `delay`: each failure
      multiplies the delay by `growth`. */
  function Scheduled(delay: nat, growth: nat, j: nat): nat
    decreases j
  {
    if j == 0 then delay else Scheduled(delay * growth, growth, j - 1)
  }

  /** The schedule is geometric: `delay * growth ** j`. */
  lemma {:induction false} ScheduledIsGeometric(delay: nat, growth: nat, j: nat)
    ensures Scheduled(delay, growth, j) == delay * Pow(growth, j)
    decreases j
  {
    if j > 0 {
      ScheduledIsGeometric(delay * growth, growth, j - 1);
      assert Pow(growth, j) == growth * Pow(growth, j - 1);
      assert (delay * growth) * Pow(growth, j - 1) == delay * (growth * Pow(growth, j - 1));
    }
  }

  lemma Grows(delay: nat, growth: nat)
    requires 0 < delay && 1 < growth
    ensures delay < delay * growth
  {
  }

  /** The calls that follow the first one. */
  function Shift<T>(attempts: nat -> Attempt<T>): nat -> Attempt<T>
  {
    (i: nat) => attempts(i + 1)
  }

  /** A failed first call followed by the rest of the run: the sleeps of the
      rest, shifted by one, continue the schedule started by `delay`. */
  lemma PrependFailure<T>(attempts: nat -> Attempt<T>, delay: nat, growth: nat, sleeps: seq<nat>)
    requires attempts(0) == Raised
    requires forall j :: 0 <= j < |sleeps| ==>
               Shift(attempts)(j) == Raised && sleeps[j] == Scheduled(delay * growth, growth, j)
    ensures forall j :: 0 <= j < |[delay] + sleeps| ==>
              attempts(j) == Raised && ([delay] + sleeps)[j] == Scheduled(delay, growth, j)
  {
    forall j | 0 <= j < |[delay] + sleeps|
      ensures attempts(j) == Raised && ([delay] + sleeps)[j] == Scheduled(delay, growth, j)
    {
      if j > 0 {
        assert ([delay] + sleeps)[j] == sleeps[j - 1];
        assert Shift(attempts)(j - 1) == attempts(j);
      }
    }
  }

  /** The `while` loop of `inner`, started with the current delay `delay`:
      `attempts(i)` is what the `i`-th call from here on does. */
  function Retry<T>(attempts: nat -> Attempt<T>, delay: nat, growth: nat, border: nat): (r: RetryRun<T>)
    requires border <= delay || (0 < delay && 1 < growth)
    // every failed call, the last one included, is followed by one sleep
    ensures |r.sleeps| == (if r.result.Some? then r.calls - 1 else r.calls)
    // a value is returned only as the result of the last call made
    ensures r.result.Some? ==> 0 < r.calls && attempts(r.calls - 1) == Returned(r.result.value)
    // the calls before it all raised, each followed by the delay then in force
    ensures forall j :: 0 <= j < |r.sleeps| ==>
              attempts(j) == Raised && r.sleeps[j] == Scheduled(delay, growth, j)
    // a call is made only while the delay is below the border
    ensures forall j :: 0 <= j < r.calls ==> Scheduled(delay, growth, j) < border
    // giving up happens exactly when the delay has reached the border
    ensures r.result.None? ==> border <= Scheduled(delay, growth, r.calls)
    decreases if delay < border then border - delay else 0
  {
    if border <= delay then
      RetryRun(None, 0, [])
    else
      match attempts(0)
      case Returned(v) => RetryRun(Some(v), 1, [])
      case Raised =>
        Grows(delay, growth);
        var rest := Retry(Shift(attempts), delay * growth, growth, border);
        PrependFailure(attempts, delay, growth, rest.sleeps);
        RetryRun(rest.result, rest.calls + 1, [delay] + rest.sleeps)
  }

  /** `inner` called with policy `p` on a function whose calls behave as
      `attempts` says. */
  function Inner<T>(p: RetryPolicy, attempts: nat -> Attempt<T>): (r: RetryRun<T>)
    requires Terminates(p)
    ensures |r.sleeps| == (if r.result.Some? then r.calls - 1 else r.calls)
    ensures r.result.Some? ==> 0 < r.calls && attempts(r.calls - 1) == Returned(r.result.value)
    ensures forall j :: 0 <= j < |r.sleeps| ==> attempts(j) == Raised && r.sleeps[j] == DelayAt(p, j)
    ensures forall j :: 0 <= j < r.calls ==> DelayAt(p, j) < p.border
    ensures r.result.None? ==> p.border <= DelayAt(p, r.calls)
    // an initial delay at or above the border means no call at all
    ensures p.border <= p.sleepTime ==> r == RetryRun(None, 0, [])
  {
    TerminatingGrowth(p);
    Retry(attempts, p.sleepTime, Growth(p), p.border)
  }

  /** What the caller of the wrapper gets: the value of the call that
      returned and that call's number, or `None` when the retries gave up. */
  function Outcome<T>(p: RetryPolicy, attempts: nat -> Attempt<T>): (r: Option<(T, nat)>)
    requires Terminates(p)
    ensures r.Some? ==> attempts(r.value.1) == Returned(r.value.0)
    ensures r.Some? ==> forall a :: 0 <= a < r.value.1 ==> attempts(a) == Raised
  {
    var run := Inner(p, attempts);
    if run.result.Some? then Some((run.result.value, run.calls - 1)) else None
  }

  /** The caller gets `None` exactly when every call the schedule allows,
      each one whose delay is still below the border, raised; a value it
      gets comes from a call made while the delay was below the border. */
  lemma OutcomeNoneWhenAllRaise<T>(p: RetryPolicy, attempts: nat -> Attempt<T>)
    requires Terminates(p)
    ensures Outcome(p, attempts).None? <==> forall j: nat :: DelayAt(p, j) < p.border ==> attempts(j) == Raised
    ensures Outcome(p, attempts).Some? ==> DelayAt(p, Outcome(p, attempts).value.1) < p.border
  {
    var r := Inner(p, attempts);
    if r.result.None? {
      forall j: nat | DelayAt(p, j) < p.border
        ensures attempts(j) == Raised
      {
        if r.calls <= j {
          DelayMonotone(p, r.calls, j);
        }
      }
    }
  }

  /** The converse of `Inner`'s contract: the first call that returns
      while the delay is still below the border decides the result, and no
      call is made after it. */
  lemma {:induction false} FirstReturnDecides<T>(p: RetryPolicy, attempts: nat -> Attempt<T>, k: nat)
    requires Terminates(p)
    requires attempts(k).Returned?
    requires forall j :: 0 <= j < k ==> attempts(j) == Raised
    requires DelayAt(p, k) < p.border
    ensures Inner(p, attempts).result == Some(attempts(k).value)
    ensures Inner(p, attempts).calls == k + 1
    ensures Inner(p, attempts).sleeps == seq(k, j requires 0 <= j < k => DelayAt(p, j))
  {
    var r := Inner(p, attempts);
    if r.result.None? {
      if r.calls <= k {
        DelayMonotone(p, r.calls, k);
      }
    }
    assert r.calls - 1 == k;
  }

  /** With the defaults the delays are 0.1, 0.4, 1.6 and 6.4 s: at most four
      calls, and four calls and four sleeps when every call raises. */
  lemma DefaultSchedule<T>(attempts: nat -> Attempt<T>)
    ensures Inner(DefaultPolicy, attempts).calls <= 4
    ensures (forall j :: attempts(j) == Raised) ==>
              Inner(DefaultPolicy, attempts) == RetryRun(None, 4, [1, 4, 16, 64])
  {
    var p := DefaultPolicy;
    var r := Inner(p, attempts);
    assert DelayAt(p, 0) == 1;
    assert DelayAt(p, 1) == 4;
    assert DelayAt(p, 2) == 16;
    assert DelayAt(p, 3) == 64;
    assert DelayAt(p, 4) == 256;
    if forall j :: attempts(j) == Raised {
      assert r.calls == 4;
      assert r.sleeps == [1, 4, 16, 64];
    }
  }

  /** Starting from a delay of at least one with a growth of at least two,
      the delay after `j` failures exceeds the starting delay by at least `j`. */
  lemma {:induction false} ScheduledOutgrowsCount(delay: nat, growth: nat, j: nat)
    requires 1 <= delay && 2 <= growth
    ensures delay + j <= Scheduled(delay, growth, j)
    decreases j
  {
    if j > 0 {
      MulMonotone(delay, 2, growth);
      ScheduledOutgrowsCount(delay * growth, growth, j - 1);
    }
  }

  /** Under a policy that terminates the wrapper calls the function at most
      `border` times, whatever the function does. */
  lemma InnerCallsBounded<T>(p: RetryPolicy, attempts: nat -> Attempt<T>)
    requires Terminates(p)
    ensures Inner(p, attempts).calls <= p.border
  {
    var r := Inner(p, attempts);
    if 0 < r.calls {
      assert DelayAt(p, r.calls - 1) < p.border;
      GrowthAtLeastTwo(p);
      ScheduledOutgrowsCount(p.sleepTime, Growth(p), r.calls - 1);
    }
  }

  /** How far a use of the wrapper got within `fuel` calls: it finished with
      a run, or it was still retrying when the fuel ran out. */
  datatype Bounded<+T> = Finished(run: RetryRun<T>) | StillRetrying

  /** The `while` loop of `inner` as written, for any policy, followed for at
      most `fuel` calls. Unlike `Retry` it needs no precondition: a policy
      whose delay never grows simply keeps it retrying. */
  function RetryUpTo<T>(attempts: nat -> Attempt<T>, delay: nat, growth: nat, border: nat, fuel: nat): (r: Bounded<T>)
    ensures r.Finished? ==> r.run.calls <= fuel
    ensures r.Finished? && r.run.result.Some? ==>
              0 < r.run.calls && attempts(r.run.calls - 1) == Returned(r.run.result.value)
    decreases fuel
  {
    if border <= delay then
      Finished(RetryRun(None, 0, []))
    else if fuel == 0 then
      StillRetrying
    else
      match attempts(0)
      case Returned(v) => Finished(RetryRun(Some(v), 1, []))
      case Raised =>
        match RetryUpTo(Shift(attempts), delay * growth, growth, border, fuel - 1)
        case StillRetrying => StillRetrying
        case Finished(rest) => Finished(RetryRun(rest.result, rest.calls + 1, [delay] + rest.sleeps))
  }

  /** Whenever the loop as written stops, it stops as `Retry` says, provided
      it is given enough calls. */
  lemma {:induction false} RetryUpToAgrees<T>(attempts: nat -> Attempt<T>, delay: nat, growth: nat, border: nat, fuel: nat)
    requires border <= delay || (0 < delay && 1 < growth)
    requires Retry(attempts, delay, growth, border).calls <= fuel
    ensures RetryUpTo(attempts, delay, growth, border, fuel) == Finished(Retry(attempts, delay, growth, border))
    decreases if delay < border then border - delay else 0
  {
    if border <= delay || attempts(0).Returned? {
      RetryUpToFirstCall(attempts, delay, growth, border, fuel);
    } else {
      var rest := RetryAfterFailure(attempts, delay, growth, border);
      Grows(delay, growth);
      RetryUpToAgrees(Shift(attempts), delay * growth, growth, border, fuel - 1);
      RetryUpToAfterFailure(attempts, delay, growth, border, fuel, rest);
    }
  }

  /** Without a failed first call both loops stop at once: with no call when
      the delay is at the border, with the first call's value otherwise. */
  lemma RetryUpToFirstCall<T>(attempts: nat -> Attempt<T>, delay: nat, growth: nat, border: nat, fuel: nat)
    requires border <= delay || (0 < delay && 1 < growth)
    requires border <= delay || attempts(0).Returned?
    requires Retry(attempts, delay, growth, border).calls <= fuel
    ensures RetryUpTo(attempts, delay, growth, border, fuel) == Finished(Retry(attempts, delay, growth, border))
  {
    if border <= delay {
      assert Retry(attempts, delay, growth, border) == RetryRun(None, 0, []);
    } else {
      assert Retry(attempts, delay, growth, border) == RetryRun(Some(attempts(0).value), 1, []);
    }
  }

  /** A failed first call: the run is one call and one sleep more than the
      run that follows it, started from the grown delay. */
  lemma RetryAfterFailure<T>(attempts: nat -> Attempt<T>, delay: nat, growth: nat, border: nat) returns (rest: RetryRun<T>)
    requires 0 < delay < border && 1 < growth
    requires attempts(0) == Raised
    ensures rest == Retry(Shift(attempts), delay * growth, growth, border)
    ensures Retry(attempts, delay, growth, border) == RetryRun(rest.result, rest.calls + 1, [delay] + rest.sleeps)
  {
    Grows(delay, growth);
    rest := Retry(Shift(attempts), delay * growth, growth, border);
  }

  /** The same step for the loop as written, given a call to spare. */
  lemma RetryUpToAfterFailure<T>(attempts: nat -> Attempt<T>, delay: nat, growth: nat, border: nat, fuel: nat, rest: RetryRun<T>)
    requires delay < border && 0 < fuel
    requires attempts(0) == Raised
    requires RetryUpTo(Shift(attempts), delay * growth, growth, border, fuel - 1) == Finished(rest)
    ensures RetryUpTo(attempts, delay, growth, border, fuel) == Finished(RetryRun(rest.result, rest.calls + 1, [delay] + rest.sleeps))
  {
  }

  /** The loop as written, under a policy that does not terminate (an initial
      delay below the border that is zero or is never multiplied by more than
      one), retries a function that always raises for as many calls as it is
      given: it never gives up. */
  lemma {:induction false} NeverGivesUp<T>(p: RetryPolicy, attempts: nat -> Attempt<T>, fuel: nat)
    requires !Terminates(p)
    requires forall j :: attempts(j) == Raised
    ensures RetryUpTo(attempts, p.sleepTime, Growth(p), p.border, fuel) == StillRetrying
    decreases fuel
  {
    if fuel > 0 {
      assert p.sleepTime * Growth(p) == p.sleepTime;
      assert Shift(attempts)(0) == attempts(1);
      NeverGivesUp(p, Shift(attempts), fuel - 1);
    }
  }

  /** The wrapper as evidently intended: a policy under which it could retry
      forever is refused with a `ValueError` before any call, and every
      accepted policy calls the function at most `border` times. */
  function CheckedInner<T>(p: RetryPolicy, attempts: nat -> Attempt<T>): (r: Result<RetryRun<T>>)
    ensures r.Failure? <==> !Terminates(p)
    ensures r.Failure? ==> r.error == ValueError
    ensures r.Success? ==> r.value.calls <= p.border
    ensures r.Success? && r.value.result.None? ==> p.border <= DelayAt(p, r.value.calls)
  {
    if Terminates(p) then
      InnerCallsBounded(p, attempts);
      Success(Inner(p, attempts))
    else
      Failure(ValueError)
  }
}
