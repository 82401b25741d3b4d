/** The clock arithmetic of system/common/repeating_timer.cc: 64-bit unsigned clock readings, a signed
    remaining time and a truncating remainder, and what they make of any history of runs. */
module TimerArithmetic {
  const TWO_63: int := 0x8000_0000_0000_0000
  const TWO_64: int := 0x1_0000_0000_0000_0000

  /** A time as the unsigned clock shows it. */
  function U64(x: int): int {
    x % TWO_64
  }

  /** The same bits read as a signed number. */
  function S64(x: int): int {
    var u := U64(x);
    if u >= TWO_63 then u - TWO_64 else u
  }

  /** The remainder that takes the sign of the dividend. */
  function Rem(a: int, b: int): int
    requires b > 0
  {
    if a >= 0 then a % b else -((-a) % b)
  }

  /** The delay RunTask posts: `expected` is the next deadline, `now` the clock. */
  function Delay(expected: int, now: int, period: int): int
    requires period > 0
  {
    var remaining := S64(expected - now);
    if remaining < 0 then Rem(Rem(remaining, period) + period, period) else remaining
  }

  lemma MulAtLeast(a: int, p: int)
    requires a >= 1 && p > 0
    ensures a * p >= p
  {
  }

  lemma Distribute(a: int, b: int, p: int)
    ensures (a - b) * p == a * p - b * p
  {
  }

  lemma ModUnique(x: int, p: int, k: int, m: int)
    requires p > 0 && x == k * p + m && 0 <= m < p
    ensures x % p == m && x / p == k
  {
    var q, r := x / p, x % p;
    assert x == q * p + r;
    Distribute(k, q, p);
    Distribute(q, k, p);
    if k > q {
      MulAtLeast(k - q, p);
    } else if k < q {
      MulAtLeast(q - k, p);
    }
  }

  /** Adding the period before the second remainder undoes the truncation. */
  lemma RemIsMod(r: int, p: int)
    requires p > 0 && r < 0
    ensures Rem(Rem(r, p) + p, p) == r % p
  {
    var q, m := (-r) / p, (-r) % p;
    assert -r == p * q + m;
    if m == 0 {
      ModUnique(r, p, -q, 0);
      ModUnique(p, p, 1, 0);
    } else {
      assert r == (-(q + 1)) * p + (p - m);
      ModUnique(r, p, -(q + 1), p - m);
      ModUnique(p - m, p, 0, p - m);
    }
  }

  /** Clock readings may wrap: as long as deadline and clock are less than 2^63 apart, the difference
      read as signed is the true one. */
  lemma SignedDifference(deadline: int, time: int)
    requires -TWO_63 <= deadline - time < TWO_63
    ensures S64(U64(deadline) - U64(time)) == deadline - time
  {
    var x, k := U64(deadline) - U64(time), deadline / TWO_64 - time / TWO_64;
    assert x == deadline - time - k * TWO_64;
    if deadline >= time {
      WrapsTo(x, -k, deadline - time);
    } else {
      WrapsTo(x, -k - 1, deadline - time + TWO_64);
    }
  }

  lemma WrapsTo(x: int, k: int, u: int)
    requires x == k * TWO_64 + u && 0 <= u < TWO_64
    ensures U64(x) == u
  {
    ModUnique(x, TWO_64, k, u);
  }

  /** The delay leads to the first time from `time` on that is on the deadline's grid and not before
      the deadline. */
  lemma DelayIsNext(deadline: int, time: int, p: int)
    requires 0 < p && -TWO_63 <= deadline - time < TWO_63
    ensures var w := time + Delay(U64(deadline), U64(time), p);
            var earliest := if time <= deadline then deadline else time;
            (w - deadline) % p == 0 && earliest <= w < earliest + p
  {
    SignedDifference(deadline, time);
    var r := deadline - time;
    if r < 0 {
      RemIsMod(r, p);
      ModGap(r, p);
    } else {
      ModUnique(0, p, 0, 0);
    }
  }

  lemma ModGap(r: int, p: int)
    requires p > 0
    ensures (r % p - r) % p == 0
  {
    assert r == p * (r / p) + r % p;
    ModUnique(r % p - r, p, -(r / p), 0);
  }

  // --- the timer over whole histories ---

  datatype Timer = Timer(scheduled: bool, expected: int, period: int)

  const CANCELLED: Timer := Timer(false, 0, 0)

  /** The deadline moves by one period for every run, however late. */
  function AfterRun(tm: Timer): Timer {
    tm.(expected := U64(tm.expected + tm.period))
  }

  ghost function AfterRuns(tm: Timer, n: nat): Timer {
    if n == 0 then tm else AfterRun(AfterRuns(tm, n - 1))
  }

  /** The wake-up posted for run `n`: the first one for the first deadline `d`, the others by the run
      before, at its true time `times[n - 1]`. */
  ghost function WakeUp(tm: Timer, d: int, times: seq<int>, n: nat): int
    requires tm.period > 0 && n <= |times|
  {
    if n == 0 then d
    else times[n - 1] + Delay(AfterRuns(tm, n).expected, U64(times[n - 1]), tm.period)
  }

  /** Runs happen no earlier than posted, and never 2^63 microseconds late. */
  ghost predicate History(tm: Timer, d: int, times: seq<int>)
    requires tm.period > 0
  {
    forall n :: 0 <= n < |times| ==> WakeUp(tm, d, times, n) <= times[n] <= d + (n + 1) * tm.period + TWO_63
  }

  lemma {:induction false} ExpectedAfter(tm: Timer, d: int, n: nat)
    requires tm.expected == U64(d)
    ensures AfterRuns(tm, n) == tm.(expected := U64(d + n * tm.period))
  {
    if n > 0 {
      ExpectedAfter(tm, d, n - 1);
      Distribute(n, 1, tm.period);
      U64Add(d + (n - 1) * tm.period, tm.period);
    }
  }

  lemma U64Add(x: int, y: int)
    ensures U64(U64(x) + y) == U64(x + y)
  {
    var k, l := x / TWO_64, (x + y) / TWO_64;
    assert x + y == l * TWO_64 + U64(x + y);
    assert U64(x) + y == (l - k) * TWO_64 + U64(x + y);
    WrapsTo(U64(x) + y, l - k, U64(x + y));
  }

  lemma SameGrid(x: int, n: int, p: int)
    requires p > 0 && (x - n * p) % p == 0
    ensures x % p == 0
  {
    var k := (x - n * p) / p;
    assert x - n * p == p * k;
    Distribute(n, -k, p);
    ModUnique(x, p, n + k, 0);
  }

  /** One run at `time`, no earlier than its own deadline, one period before `deadline`. */
  lemma WakeStep(deadline: int, time: int, p: int)
    requires 0 < p < TWO_63 && deadline - p <= time <= deadline + TWO_63
    ensures var w := time + Delay(U64(deadline), U64(time), p);
            (w - deadline) % p == 0 && deadline <= w && time <= w <= time + p
  {
    DelayIsNext(deadline, time, p);
    SignedDifference(deadline, time);
  }

  /** Rate and phase over every history, however late single runs are: each wake-up is on the grid of
      the first deadline, at most one period after the run that posts it, and run `n` happens no
      earlier than `n` periods after the first deadline. */
  lemma {:induction false} RateAndPhase(tm: Timer, d: int, times: seq<int>, n: nat)
    requires 0 < tm.period < TWO_63 && tm.expected == U64(d) && History(tm, d, times) && n <= |times|
    ensures var w := WakeUp(tm, d, times, n);
            && (w - d) % tm.period == 0
            && d + n * tm.period <= w
            && (n > 0 ==> times[n - 1] <= w <= times[n - 1] + tm.period)
    ensures n < |times| ==> d + n * tm.period <= times[n]
  {
    if n == 0 {
      ModUnique(0, tm.period, 0, 0);
    } else {
      RateAndPhase(tm, d, times, n - 1);
      RunStep(tm, d, times, n);
    }
  }

  lemma RunStep(tm: Timer, d: int, times: seq<int>, n: nat)
    requires 0 < tm.period < TWO_63 && tm.expected == U64(d) && 0 < n <= |times|
    requires d + (n - 1) * tm.period <= times[n - 1] <= d + n * tm.period + TWO_63
    ensures var w := WakeUp(tm, d, times, n);
            && (w - d) % tm.period == 0
            && d + n * tm.period <= w
            && times[n - 1] <= w <= times[n - 1] + tm.period
  {
    var p, deadline, w := tm.period, d + n * tm.period, WakeUp(tm, d, times, n);
    ExpectedAfter(tm, d, n);
    Distribute(n, 1, p);
    WakeStep(deadline, times[n - 1], p);
    assert w - d - n * p == w - deadline;
    SameGrid(w - d, n, p);
  }

  /** A wake-up is the first time, from the run that posts it, on the grid and not before the run's own
      deadline. */
  lemma NextOnGrid(tm: Timer, d: int, times: seq<int>, n: nat)
    requires 0 < tm.period < TWO_63 && tm.expected == U64(d) && History(tm, d, times) && 0 < n <= |times|
    ensures var deadline := d + n * tm.period;
            var earliest := if times[n - 1] <= deadline then deadline else times[n - 1];
            earliest <= WakeUp(tm, d, times, n) < earliest + tm.period
  {
    RateAndPhase(tm, d, times, n - 1);
    ExpectedAfter(tm, d, n);
    Distribute(n, 1, tm.period);
    var deadline := d + n * tm.period;
    assert deadline - tm.period <= times[n - 1] <= deadline + TWO_63;
    DelayIsNext(deadline, times[n - 1], tm.period);
  }

  /** Runs that happen exactly when posted do not drift: run `n` is `n` periods after the first
      deadline. */
  lemma {:induction false} NoDrift(tm: Timer, d: int, times: seq<int>, n: nat)
    requires 0 < tm.period < TWO_63 && tm.expected == U64(d) && n < |times|
    requires forall i :: 0 <= i < |times| ==> times[i] == WakeUp(tm, d, times, i)
    ensures times[n] == d + n * tm.period
  {
    if n > 0 {
      NoDrift(tm, d, times, n - 1);
      Distribute(n, 1, tm.period);
      OnTime(tm, d, times, n);
    }
  }

  /** A run made exactly one period before a deadline posts one period. */
  lemma OnTime(tm: Timer, d: int, times: seq<int>, n: nat)
    requires 0 < tm.period < TWO_63 && tm.expected == U64(d) && 0 < n <= |times|
    requires times[n - 1] == d + n * tm.period - tm.period
    ensures WakeUp(tm, d, times, n) == d + n * tm.period
  {
    ExpectedAfter(tm, d, n);
    SignedDifference(d + n * tm.period, times[n - 1]);
  }

  // --- scheduling ---

  /** The first delay: the deadline set from the clock before the old task was cancelled, counted from
      the clock after. */
  function FirstDelay(before: int, after: int, period: int): int {
    S64(U64(before + period) - after)
  }

  /** The first wake-up is the first deadline; its delay is between 0 and one period exactly when
      cancelling the old task took no longer than one period. */
  lemma FirstDelayIs(before: int, after: int, period: int)
    requires 0 < period < TWO_63 && before <= after <= before + period + TWO_63
    ensures after + FirstDelay(U64(before), U64(after), period) == before + period
    ensures 0 <= FirstDelay(U64(before), U64(after), period) <= period <==> after <= before + period
  {
    U64Add(before, period);
    SignedDifference(before + period, after);
  }

  /** When cancelling takes longer, the first delay posted is negative. */
  lemma FirstDelayCanBeNegative()
    ensures FirstDelay(U64(1000), U64(1200), 100) == -100
  {
    assert FirstDelay(U64(1000), U64(1200), 100) == S64(-100);
  }
}

module RepeatingTimer {
  import opened Wrappers
  import opened TimerArithmetic

  class RepeatingTimer {
    /** Whether a message loop thread is set. */
    var scheduled: bool
    var expectedTimeNextTaskUs: int
    var period: int

    ghost function Abs(): Timer
      reads this
    {
      Timer(scheduled, expectedTimeNextTaskUs, period)
    }

    /** A scheduled timer has a period of at least one microsecond, so RunTask never divides by zero. */
    ghost predicate Valid()
      reads this
    {
      scheduled ==> 0 < period < TWO_63
    }

    constructor ()
      ensures Valid() && Abs() == CANCELLED
    {
      scheduled, expectedTimeNextTaskUs, period := false, 0, 0;
    }

    method CancelClosure()
      modifies this
      ensures Valid() && Abs() == CANCELLED
    {
      scheduled := false;
      period := 0;
      expectedTimeNextTaskUs := 0;
    }

    /** `before` and `after` are the clock readings on both sides of the cancellation, `accepted` whether
        the thread takes the post. */
    method SchedulePeriodic(hasThread: bool, newPeriod: int, before: int, after: int, accepted: bool)
      returns (ok: bool, posted: Option<int>)
      requires Valid() && newPeriod < TWO_63 && before == U64(before) && after == U64(after)
      modifies this
      ensures Valid() && ok == (newPeriod >= 1 && hasThread && accepted)
      ensures if newPeriod < 1 || !hasThread then Abs() == old(Abs()) && posted == None
              else posted == Some(FirstDelay(before, after, newPeriod))
      ensures newPeriod >= 1 && hasThread ==>
                Abs() == if accepted then Timer(true, U64(before + newPeriod), newPeriod) else CANCELLED
    {
      if newPeriod < 1 {
        return false, None;
      }
      var timeNextTask := U64(before + newPeriod);
      if !hasThread {
        return false, None;
      }
      if scheduled {
        CancelClosure();
      }
      expectedTimeNextTaskUs := timeNextTask;
      scheduled := true;
      period := newPeriod;
      posted := Some(S64(U64(timeNextTask - after)));
      if !accepted {
        expectedTimeNextTaskUs := 0;
        scheduled := false;
        period := 0;
        return false, posted;
      }
      return true, posted;
    }

    /** Posts the next run and tells its delay; does nothing once cancelled or off a running thread. */
    method RunTask(running: bool, now: int) returns (posted: Option<int>)
      requires Valid() && now == U64(now)
      modifies this`expectedTimeNextTaskUs
      ensures Valid()
      ensures if scheduled && running
              then Abs() == AfterRun(old(Abs())) && posted == Some(Delay(expectedTimeNextTaskUs, now, period))
              else Abs() == old(Abs()) && posted == None
    {
      if !scheduled || !running {
        return None;
      }
      expectedTimeNextTaskUs := U64(expectedTimeNextTaskUs + period);
      var remaining := S64(expectedTimeNextTaskUs - now);
      if remaining < 0 {
        remaining := Rem(Rem(remaining, period) + period, period);
      }
      return Some(remaining);
    }
  }
}
