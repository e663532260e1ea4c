/** The breathing effect as a value: the exact sequence of duty writes and
    delays that `LEDEffect::breath` produces for a calibration and a
    duration, and what that sequence is proved to look like. */
module BreathEffect {
  import opened U32Arith
  import opened Trace

  /** The duration is split into six nominal phases. */
  function Period(duration: U32): (p: U32)
    ensures p * 6 <= duration < p * 6 + 6
  {
    duration / 6
  }

  /** The delay after every ramp step, rising and falling alike: two periods
      spread over the duty span. */
  function StepDelay(duration: U32, lo: U32, hi: U32): (step: U32)
    requires lo < hi
    ensures step <= Period(duration) * 2
  {
    Quotient(Period(duration) * 2, hi - lo)
  }

  /** The whole effect fits the `u32` cycle count of `delay_ms`. */
  predicate Fits(duration: U32)
  {
    DelayFits(Period(duration) * 2)
  }

  /** Rise from `lo` to just below `hi`, fall from `hi` to just above `lo`,
      each step followed by a delay of `step`; hold for `hold`, then switch
      the output fully off. */
  function Breathing(lo: nat, hi: nat, step: nat, hold: nat): (t: seq<Event>)
    ensures |t| >= 2 && t[|t| - 2] == Delay(hold) && t[|t| - 1] == SetDuty(0)
  {
    Rise(lo, hi, step) + Fall(hi, lo, step) + [Delay(hold), SetDuty(0)]
  }

  /** The breathing events appended to a timeline, one phase at a time. */
  lemma BreathingSplit(prefix: seq<Event>, lo: nat, hi: nat, step: nat, hold: nat)
    ensures prefix + Breathing(lo, hi, step, hold)
         == prefix + Rise(lo, hi, step) + Fall(hi, lo, step) + [Delay(hold)] + [SetDuty(0)]
  {
    var r, f := Rise(lo, hi, step), Fall(hi, lo, step);
    assert [Delay(hold), SetDuty(0)] == [Delay(hold)] + [SetDuty(0)];
    assert prefix + (r + f + [Delay(hold)] + [SetDuty(0)])
        == prefix + r + f + [Delay(hold)] + [SetDuty(0)];
  }

  /** The effect for a duration: both ramps use the same step delay and the
      hold lasts two periods. */
  function BreathTrace(duration: U32, lo: U32, hi: U32): (t: seq<Event>)
    requires lo < hi
    ensures |t| >= 2 && t[|t| - 2] == Delay(Period(duration) * 2) && t[|t| - 1] == SetDuty(0)
  {
    Breathing(lo, hi, StepDelay(duration, lo, hi), Period(duration) * 2)
  }

  lemma BreathingAt(lo: nat, hi: nat, step: nat, hold: nat)
    requires lo < hi
    ensures var t, n := Breathing(lo, hi, step, hold), hi - lo;
      && |t| == 4 * n + 2
      && (forall j :: 0 <= j < 2 * n ==>
            t[j] == if j % 2 == 0 then SetDuty(lo + j / 2) else Delay(step))
      && (forall j :: 2 * n <= j < 4 * n ==>
            t[j] == if j % 2 == 0 then SetDuty(hi - (j - 2 * n) / 2) else Delay(step))
      && t[4 * n] == Delay(hold)
      && t[4 * n + 1] == SetDuty(0)
  {
    var n := hi - lo;
    var r, f := Rise(lo, hi, step), Fall(hi, lo, step);
    var tail := [Delay(hold), SetDuty(0)];
    RiseAt(lo, hi, step);
    FallAt(hi, lo, step);
    var t := Breathing(lo, hi, step, hold);
    assert t == r + (f + tail);
    forall j | 0 <= j < 2 * n
      ensures t[j] == if j % 2 == 0 then SetDuty(lo + j / 2) else Delay(step)
    {
      assert t[j] == r[j];
    }
    forall j | 2 * n <= j < 4 * n
      ensures t[j] == if j % 2 == 0 then SetDuty(hi - (j - 2 * n) / 2) else Delay(step)
    {
      assert t[j] == (f + tail)[j - 2 * n] == f[j - 2 * n];
    }
  }

  /** The breathing trace, position by position: `hi - lo` rising steps
      (write `lo + i`, then wait `step`), `hi - lo` falling steps (write
      `hi - i`, then wait the same `step`), the hold of two periods, and the
      final write of 0. Nothing in it enables the channel. */
  lemma BreathTraceAt(duration: U32, lo: U32, hi: U32)
    requires lo < hi
    ensures var t, n, step := BreathTrace(duration, lo, hi), hi - lo, StepDelay(duration, lo, hi);
      && |t| == 4 * n + 2
      && (forall j :: 0 <= j < 2 * n ==>
            t[j] == if j % 2 == 0 then SetDuty(lo + j / 2) else Delay(step))
      && (forall j :: 2 * n <= j < 4 * n ==>
            t[j] == if j % 2 == 0 then SetDuty(hi - (j - 2 * n) / 2) else Delay(step))
      && t[4 * n] == Delay(Period(duration) * 2)
      && t[4 * n + 1] == SetDuty(0)
      && NoEnable(t)
  {
    var t := BreathTrace(duration, lo, hi);
    BreathingAt(lo, hi, StepDelay(duration, lo, hi), Period(duration) * 2);
    forall j | 0 <= j < |t| ensures !t[j].Enable? {
      if j < 4 * (hi - lo) {
        assert j < 2 * (hi - lo) || 2 * (hi - lo) <= j;
      }
    }
  }

  /** The duty values breath writes: `lo, ..., hi - 1`, then `hi, ..., lo + 1`,
      then 0; `2 * (hi - lo) + 1` writes in all, every one but the last within
      the calibration `[lo, hi]`. */
  lemma BreathWrites(duration: U32, lo: U32, hi: U32)
    requires lo < hi
    ensures var w := Writes(BreathTrace(duration, lo, hi));
      && w == Ascending(lo, hi) + Descending(hi, lo) + [0]
      && |w| == 2 * (hi - lo) + 1
      && (forall i :: 0 <= i < |w| - 1 ==> lo <= w[i] <= hi)
      && w[|w| - 1] == 0
  {
    var step := StepDelay(duration, lo, hi);
    var r, f := Rise(lo, hi, step), Fall(hi, lo, step);
    var tail := [Delay(Period(duration) * 2), SetDuty(0)];
    assert BreathTrace(duration, lo, hi) == (r + f) + tail;
    WritesAppend(r + f, tail);
    WritesAppend(r, f);
    RiseWrites(lo, hi, step);
    FallWrites(hi, lo, step);
    assert tail[1..] == [SetDuty(0)];
    assert [SetDuty(0)][1..] == [];
    assert Writes(tail) == [0];
  }

  /** Every delay of the effect fits a `u32` cycle count once the hold does:
      no ramp step waits longer than the hold. */
  lemma BreathDelaysFit(duration: U32, lo: U32, hi: U32)
    requires lo < hi && Fits(duration)
    ensures DelayFits(StepDelay(duration, lo, hi))
  {
    DelayFitsBelow(StepDelay(duration, lo, hi), Period(duration) * 2);
  }

  /** A 600 ms breath over the full 8-bit range: period 100 ms, the ramp
      step truncates to 0 ms, the hold is 200 ms, and the effect ends at 0. */
  lemma BreathFullRangeExample()
    ensures Period(600) == 100
    ensures StepDelay(600, 0, 255) == 0
    ensures var t := BreathTrace(600, 0, 255);
      t[|t| - 2] == Delay(200) && t[|t| - 1] == SetDuty(0)
  {
    BreathTraceAt(600, 0, 255);
  }
}
