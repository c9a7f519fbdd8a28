/**
 The step schedule of the progress demonstration, shared by
 `ProgressCommandHandler.ExecuteAsync` and the original single-file program.

 The loop runs `steps = duration * 10` iterations (C# `int` arithmetic). Each
 iteration bumps task 1; task 2 only when `i > steps / 3`; task 3 only when
 `i > steps / 2`. A bump adds `100.0 / steps` percent, so a task's percentage
 is `100 * bumps / steps`: counting bumps keeps everything in integers.
 */
module ProgressSchedule {
  import opened Int32

  /** `var steps = duration * 10;` */
  function StepCount(duration: Int32): (steps: Int32)
    ensures (steps - duration * 10) % Modulus == 0
    ensures MinValue <= duration * 10 <= MaxValue ==> steps == duration * 10
  {
    Mul(duration, 10)
  }

  /** How many times `for (int i = 0; i < steps; i++)` runs its body. */
  function Iterations(steps: int): nat {
    if steps > 0 then steps else 0
  }

  /** Reference count: the indices `i` in `[0, n)` with `i > threshold`. */
  function CountAbove(threshold: int, n: nat): nat
    decreases n
  {
    if n == 0 then 0
    else CountAbove(threshold, n - 1) + (if n - 1 > threshold then 1 else 0)
  }

  /** The bump counts of the three tasks after the loop. */
  datatype Bumps = Bumps(task1: nat, task2: nat, task3: nat)

  /** Closed form of the reference count. */
  lemma {:induction false} CountAboveClosedForm(threshold: int, n: nat)
    requires threshold >= -1
    ensures CountAbove(threshold, n) == if n > threshold + 1 then n - 1 - threshold else 0
    decreases n
  {
    if n > 0 {
      CountAboveClosedForm(threshold, n - 1);
    }
  }

  /** The guards use `steps / 3` and `steps / 2`; they are evaluated only
      when the loop runs, that is when `steps > 0`, where C#'s truncating
      division and Dafny's agree. Task 1 is bumped on every iteration, task 2
      on all but the first `steps / 3 + 1`, task 3 on all but the first
      `steps / 2 + 1`. */
  function ScheduleBumps(steps: int): (b: Bumps)
    ensures steps <= 0 ==> b == Bumps(0, 0, 0)
    ensures steps > 0 ==> b.task1 == steps
    ensures steps > 0 ==> b.task2 == steps - 1 - steps / 3
    ensures steps > 0 ==> b.task3 == steps - 1 - steps / 2
  {
    var n := Iterations(steps);
    var b := Bumps(n, CountAbove(steps / 3, n), CountAbove(steps / 2, n));
    if steps > 0 then
      CountAboveClosedForm(steps / 3, n);
      CountAboveClosedForm(steps / 2, n);
      b
    else
      b
  }

  /** The loop itself, counting bumps. */
  method RunSchedule(steps: int) returns (b: Bumps)
    ensures b == ScheduleBumps(steps)
    ensures steps > 0 ==> b.task1 == steps
    ensures steps > 0 ==> b.task2 == steps - 1 - steps / 3
    ensures steps > 0 ==> b.task3 == steps - 1 - steps / 2
  {
    var t1, t2, t3 := 0, 0, 0;
    var i := 0;
    while i < steps
      invariant 0 <= i <= Iterations(steps)
      invariant t1 == i
      invariant t2 == CountAbove(steps / 3, i)
      invariant t3 == CountAbove(steps / 2, i)
      invariant steps > 0 ==> t2 == if i > steps / 3 + 1 then i - 1 - steps / 3 else 0
      invariant steps > 0 ==> t3 == if i > steps / 2 + 1 then i - 1 - steps / 2 else 0
      decreases steps - i
    {
      t1 := t1 + 1;
      if i > steps / 3 {
        t2 := t2 + 1;
      }
      if i > steps / 2 {
        t3 := t3 + 1;
      }
      i := i + 1;
    }
    b := Bumps(t1, t2, t3);
  }

  /** Task 1 is bumped on every step; task 2 and task 3 start late, task 3
      never ahead of task 2, and neither reaches `steps` bumps, so both end
      below 100%. */
  lemma BumpsOrdered(steps: int)
    requires steps > 0
    ensures ScheduleBumps(steps).task1 == steps
    ensures ScheduleBumps(steps).task3 <= ScheduleBumps(steps).task2 < ScheduleBumps(steps).task1
  {
  }

  /** Task 2 is first bumped at step `steps / 3 + 1` and task 3 at
      `steps / 2 + 1`: before those steps their counts are zero. */
  lemma LateStarts(steps: int, i: nat)
    requires steps > 0 && i <= steps
    ensures CountAbove(steps / 3, i) > 0 <==> i > steps / 3 + 1
    ensures CountAbove(steps / 2, i) > 0 <==> i > steps / 2 + 1
  {
  }

  /** For every duration up to `int.MaxValue / 10` the product does not
      wrap: the loop runs exactly `duration * 10` steps. */
  lemma StepCountExact(duration: Int32)
    requires 0 < duration <= MaxValue / 10
    ensures StepCount(duration) == duration * 10
    ensures ScheduleBumps(StepCount(duration)).task1 == duration * 10
  {
  }

  /** Above that bound the product wraps: a duration of 214748365 passes a
      positivity check yet yields a negative step count, so no task is
      bumped at all. */
  lemma LargeDurationWraps()
    ensures StepCount(214748365) < 0
    ensures ScheduleBumps(StepCount(214748365)) == Bumps(0, 0, 0)
  {
  }

  /** The default duration of 3 gives 30 steps: 30, 19 and 14 bumps. */
  lemma DefaultDurationSchedule()
    ensures StepCount(3) == 30
    ensures ScheduleBumps(StepCount(3)) == Bumps(30, 19, 14)
  {
  }
}
