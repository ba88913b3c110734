/** A limiter that spaces calls at least a period apart, with a bounded allowance for catching up. */
module RateLimiter {

  const MS: nat := 1_000_000

  /** The deadline left by one call of `limit` that was entered at `entry` and returned at `exit`,
      with the deadline `deadline` before it and the period `period`. */
  ghost predicate Limited(deadline: nat, period: nat, overshoot: nat, entry: nat, exit: nat, deadline': nat) {
    && entry <= exit
    && if entry > deadline + overshoot then exit == entry && deadline' == entry + period
       else deadline' == deadline + period && if deadline <= entry then exit == entry else deadline <= exit
  }

  ghost predicate Monotone(clock: nat -> nat) {
    forall i, j :: 0 <= i <= j ==> clock(i) <= clock(j)
  }

  ghost predicate Passes(clock: nat -> nat, t: nat) {
    exists k: nat :: t <= clock(k)
  }

  class RateLimiter {
    /** The monotonic clock: `clock(k)` is its k-th reading, in nanoseconds. It passes every point in time. */
    const clock: nat -> nat
    var readings: nat
    const maxOvershoot: nat
    var period: nat
    var now: nat
    var deadline: nat

    ghost predicate Valid()
      reads this
    {
      && Monotone(clock) && (forall t: nat :: Passes(clock, t))
      && 0 < readings
      && now == clock(readings - 1)
    }

    constructor (clock: nat -> nat, period: nat)
      requires Monotone(clock) && forall t: nat :: Passes(clock, t)
      ensures Valid() && this.clock == clock && this.period == period
      ensures maxOvershoot == 10_000_000 && now == clock(0) && deadline == clock(0) + period
    {
      this.clock := clock;
      this.period := period;
      maxOvershoot := 10 * MS;
      readings, now := 1, clock(0);
      deadline := clock(0) + period;
    }

    method GetTime() returns (t: nat)
      requires Valid()
      modifies this`readings, this`now
      ensures Valid() && t == now == clock(old(readings)) && readings == old(readings) + 1
      ensures old(now) <= now
    {
      t := clock(readings);
      readings, now := readings + 1, t;
    }

    /** Waits for the deadline and moves it on by a period; a call that comes too late restarts it from now. */
    method Limit() returns (entry: nat)
      requires Valid()
      modifies this`readings, this`now, this`deadline
      ensures Valid()
      ensures entry == clock(old(readings)) && old(now) <= entry && old(readings) < readings
      ensures Limited(old(deadline), period, maxOvershoot, entry, now, deadline)
      // the wait ends with the first reading that is not before the deadline
      ensures now == clock(readings - 1)
      ensures forall k :: old(readings) <= k < readings - 1 ==> clock(k) < old(deadline)
    {
      entry := GetTime();
      if now > deadline + maxOvershoot {
        deadline := now + period;
      } else {
        if now < deadline {
          // nanosleep may end early, so the time after it is arbitrary
          var t := GetTime();
          assert Passes(clock, deadline);
          ghost var last: nat :| deadline <= clock(last);
          while now < deadline
            invariant Valid() && entry <= now && old(readings) < readings
            invariant forall k :: old(readings) <= k < readings - 1 ==> clock(k) < deadline
            invariant deadline == old(deadline) && period == old(period)
            decreases if now < deadline then last + 1 - readings else -1
          {
            assert readings - 1 < last;
            t := GetTime();
          }
        }
        deadline := deadline + period;
      }
    }
  }

  datatype Call = Call(entry: nat, exit: nat, period: nat)

  /** A run: consecutive calls, the deadline before the k-th being `deadlines[k]`. */
  ghost predicate Run(calls: seq<Call>, deadlines: seq<nat>, overshoot: nat) {
    && |deadlines| == |calls| + 1
    && (forall k :: 0 <= k < |calls| ==>
          Limited(deadlines[k], calls[k].period, overshoot, calls[k].entry, calls[k].exit, deadlines[k + 1]))
    && (forall k :: 0 < k < |calls| ==> calls[k - 1].exit <= calls[k].entry)
  }

  /** The sum of the periods of the calls `i` to `j - 1`. */
  function Periods(calls: seq<Call>, i: nat, j: nat): (sum: nat)
    requires i <= j <= |calls|
  {
    if i == j then 0 else Periods(calls, i, j - 1) + calls[j - 1].period
  }

  /** Every call moves the deadline on by at least its period. */
  lemma {:induction false} DeadlineAdvances(calls: seq<Call>, deadlines: seq<nat>, overshoot: nat, i: nat, j: nat)
    requires Run(calls, deadlines, overshoot) && i <= j <= |calls|
    ensures deadlines[i] + Periods(calls, i, j) <= deadlines[j]
  {
    if i < j {
      DeadlineAdvances(calls, deadlines, overshoot, i, j - 1);
      var c := calls[j - 1];
      assert Limited(deadlines[j - 1], c.period, overshoot, c.entry, c.exit, deadlines[j]);
    }
  }

  /** And no call moves it further than a period beyond itself or, when late, beyond its own entry: a caller that comes
      late is not held back longer than a period for it. */
  lemma DeadlineIsBounded(calls: seq<Call>, deadlines: seq<nat>, overshoot: nat, k: nat)
    requires Run(calls, deadlines, overshoot) && k < |calls|
    ensures deadlines[k + 1] == deadlines[k] + calls[k].period
            || (deadlines[k] + overshoot < calls[k].entry && deadlines[k + 1] == calls[k].entry + calls[k].period)
    ensures deadlines[k + 1]
            <= (if deadlines[k] < calls[k].entry then calls[k].entry else deadlines[k]) + calls[k].period
  {
    var c := calls[k];
    assert Limited(deadlines[k], c.period, overshoot, c.entry, c.exit, deadlines[k + 1]);
  }

  /** The rate bound, also while the rate is being adjusted: between the entry of call `i` and the return of
      a later call `j` the periods of the calls from `i` up to `j` have passed, but for the allowed overshoot. */
  lemma RateBound(calls: seq<Call>, deadlines: seq<nat>, overshoot: nat, i: nat, j: nat)
    requires Run(calls, deadlines, overshoot) && i < j < |calls|
    ensures calls[i].entry + Periods(calls, i, j) <= calls[j].exit + overshoot
  {
    DeadlineAdvances(calls, deadlines, overshoot, i + 1, j);
    PeriodsSplit(calls, i, j);
    assert Limited(deadlines[i], calls[i].period, overshoot, calls[i].entry, calls[i].exit, deadlines[i + 1]);
    assert Limited(deadlines[j], calls[j].period, overshoot, calls[j].entry, calls[j].exit, deadlines[j + 1]);
  }

  lemma {:induction false} PeriodsSplit(calls: seq<Call>, i: nat, j: nat)
    requires i < j <= |calls|
    ensures Periods(calls, i, j) == calls[i].period + Periods(calls, i + 1, j)
  {
    if i + 1 < j {
      PeriodsSplit(calls, i, j - 1);
    }
  }

  /** With a constant period, `j - i` periods have passed. */
  lemma ConstantRateBound(calls: seq<Call>, deadlines: seq<nat>, overshoot: nat, period: nat, i: nat, j: nat)
    requires Run(calls, deadlines, overshoot) && i < j < |calls|
    requires forall k :: 0 <= k < |calls| ==> calls[k].period == period
    ensures (j - i) * period <= calls[j].exit - calls[i].entry + overshoot
  {
    RateBound(calls, deadlines, overshoot, i, j);
    ConstantPeriods(calls, period, i, j);
  }

  lemma {:induction false} ConstantPeriods(calls: seq<Call>, period: nat, i: nat, j: nat)
    requires i <= j <= |calls| && forall k :: 0 <= k < |calls| ==> calls[k].period == period
    ensures Periods(calls, i, j) == (j - i) * period
  {
    if i < j {
      ConstantPeriods(calls, period, i, j - 1);
      assert (j - i) * period == (j - 1 - i) * period + period;
    }
  }

  /** A caller that is never late beyond the overshoot keeps the schedule exactly: no call restarts it. */
  lemma {:induction false} OnScheduleIsExact(calls: seq<Call>, deadlines: seq<nat>, overshoot: nat, j: nat)
    requires Run(calls, deadlines, overshoot) && j <= |calls|
    requires forall k :: 0 <= k < |calls| ==> calls[k].entry <= deadlines[k] + overshoot
    ensures deadlines[j] == deadlines[0] + Periods(calls, 0, j)
  {
    if 0 < j {
      OnScheduleIsExact(calls, deadlines, overshoot, j - 1);
      var c := calls[j - 1];
      assert Limited(deadlines[j - 1], c.period, overshoot, c.entry, c.exit, deadlines[j]);
    }
  }
}
