/** The heartbeat effect as a value: the exact sequence of duty writes and
    delays that `LEDEffect::heartbeat` produces for a calibration, a beat
    count, a grouping and a tempo, and what that sequence is proved to look
    like. */
module HeartbeatEffect {
  import opened U32Arith
  import opened Trace

  /** The base time unit: a sixth of one beat at `bpm` beats per minute. */
  function Period(bpm: U32): (p: U32)
    requires bpm > 0
    ensures p <= 10_000
  {
    Quotient(60_000, bpm) / 6
  }

  /** The flash lasts a third of a period. */
  function ShortPeriod(period: nat): (s: nat)
    ensures s * 3 <= period < s * 3 + 3
  {
    period / 3
  }

  /** The delay after every decay step: two periods spread over the span
      from the calibration's minimum to its midpoint. */
  function DownDelay(bpm: U32, lo: U32, mid: U32): (d: U32)
    requires bpm > 0 && lo < mid
    ensures d <= Period(bpm) * 2
  {
    Quotient(Period(bpm) * 2, mid - lo)
  }

  /** The pause after beat `n`: one period inside a group, a longer accent
      at the end of every group of `groupedAs` beats. */
  function Pause(n: nat, groupedAs: nat, period: nat): (wait: nat)
    requires groupedAs > 0
    ensures period <= wait
    ensures n % groupedAs == 0 ==> period * 2 <= wait
  {
    if n % groupedAs != 0 then period
    else if groupedAs == 1 then period * 2
    else (period * 2) + (groupedAs * period)
  }

  /** What heartbeat needs to be defined and to terminate: a tempo, a midpoint
      above the minimum, and, once there is a beat to run, a grouping and a
      minimum of at least 1. */
  predicate Defined(flashBeats: U32, groupedAs: U32, bpm: U32, lo: U32, mid: U32)
  {
    && bpm > 0
    && lo < mid
    && (flashBeats > 0 ==> groupedAs > 0 && lo >= 1)
  }

  /** The accent pause, the only delay that can be long, fits the `u32` cycle
      count of `delay_ms` whenever some beat ends a group. */
  predicate Fits(flashBeats: U32, groupedAs: U32, bpm: U32)
    requires bpm > 0
  {
    0 < groupedAs <= flashBeats ==> DelayFits(Pause(groupedAs, groupedAs, Period(bpm)))
  }

  /** The number of events in one beat. */
  function BeatLength(lo: nat, mid: nat): nat
    requires lo <= mid
  {
    2 * (mid - lo) + 8
  }

  /** Beat `n` at base period `period` with decay step delay `down`: flash
      at the maximum, off at the minimum, settle at the midpoint, decay from
      the midpoint down to the minimum inclusive, pause. */
  function Beat(n: nat, groupedAs: nat, period: nat, down: nat, lo: nat, hi: nat, mid: nat): (t: seq<Event>)
    requires groupedAs > 0 && 1 <= lo
    ensures |t| >= 6 && t[0] == SetDuty(hi) && t[|t| - 1] == Delay(Pause(n, groupedAs, period))
  {
    var short := ShortPeriod(period);
    [SetDuty(hi), Delay(short), SetDuty(lo), Delay(short * 2), SetDuty(mid)]
      + Fall(mid, lo - 1, down)
      + [Delay(Pause(n, groupedAs, period))]
  }

  /** Beats `1, ..., k` in order. */
  function Beats(k: nat, groupedAs: nat, period: nat, down: nat, lo: nat, hi: nat, mid: nat): (t: seq<Event>)
    requires k > 0 ==> groupedAs > 0 && lo >= 1
  {
    if k == 0 then []
    else Beats(k - 1, groupedAs, period, down, lo, hi, mid) + Beat(k, groupedAs, period, down, lo, hi, mid)
  }

  /** The whole effect at tempo `bpm`: every beat, then the output switched
      fully off. */
  function HeartbeatTrace(flashBeats: U32, groupedAs: U32, bpm: U32, lo: U32, hi: U32, mid: U32): (t: seq<Event>)
    requires Defined(flashBeats, groupedAs, bpm, lo, mid)
    ensures t != [] && t[|t| - 1] == SetDuty(0)
  {
    Beats(flashBeats, groupedAs, Period(bpm), DownDelay(bpm, lo, mid), lo, hi, mid) + [SetDuty(0)]
  }

  lemma BeatSize(n: nat, groupedAs: nat, period: nat, down: nat, lo: nat, hi: nat, mid: nat)
    requires groupedAs > 0 && 1 <= lo <= mid
    ensures |Beat(n, groupedAs, period, down, lo, hi, mid)| == BeatLength(lo, mid)
  {
    FallAt(mid, lo - 1, down);
  }

  /** One beat, position by position: the flash and its delay of a short
      period, the off write and its delay of two short periods, the settle
      write, `mid - lo + 1` decay steps (write `mid - i`, then wait `down`)
      ending with a write of the minimum, and the pause for beat `n`. */
  lemma BeatAt(n: nat, groupedAs: nat, period: nat, down: nat, lo: nat, hi: nat, mid: nat)
    requires groupedAs > 0 && 1 <= lo <= mid
    ensures var t, short := Beat(n, groupedAs, period, down, lo, hi, mid), ShortPeriod(period);
      && |t| == BeatLength(lo, mid)
      && t[0] == SetDuty(hi) && t[1] == Delay(short)
      && t[2] == SetDuty(lo) && t[3] == Delay(short * 2)
      && t[4] == SetDuty(mid)
      && (forall j :: 5 <= j < |t| - 1 ==>
            t[j] == if (j - 5) % 2 == 0 then SetDuty(mid - (j - 5) / 2) else Delay(down))
      && t[|t| - 3] == SetDuty(lo)
      && t[|t| - 1] == Delay(Pause(n, groupedAs, period))
  {
    var short := ShortPeriod(period);
    var head := [SetDuty(hi), Delay(short), SetDuty(lo), Delay(short * 2), SetDuty(mid)];
    var decay := Fall(mid, lo - 1, down);
    FallAt(mid, lo - 1, down);
    var t := Beat(n, groupedAs, period, down, lo, hi, mid);
    assert t == head + decay + [Delay(Pause(n, groupedAs, period))];
    forall j | 5 <= j < |t| - 1 ensures t[j] == decay[j - 5] { }
    assert t[|t| - 3] == decay[|decay| - 2];
  }

  /** The duty values of one beat: maximum, minimum, midpoint, then the decay
      `mid, mid - 1, ..., lo`; every one lies within the calibration. */
  lemma BeatWrites(n: nat, groupedAs: nat, period: nat, down: nat, lo: nat, hi: nat, mid: nat)
    requires groupedAs > 0 && 1 <= lo <= mid <= hi
    ensures var w := Writes(Beat(n, groupedAs, period, down, lo, hi, mid));
      && w == [hi, lo, mid] + Descending(mid, lo - 1)
      && |w| == mid - lo + 4
      && (forall i :: 0 <= i < |w| ==> lo <= w[i] <= hi)
  {
    var short := ShortPeriod(period);
    var head := [SetDuty(hi), Delay(short), SetDuty(lo), Delay(short * 2), SetDuty(mid)];
    var decay := Fall(mid, lo - 1, down);
    var pause := [Delay(Pause(n, groupedAs, period))];
    assert Beat(n, groupedAs, period, down, lo, hi, mid) == (head + decay) + pause;
    WritesAppend(head + decay, pause);
    WritesAppend(head, decay);
    FallWrites(mid, lo - 1, down);
    assert Writes(pause) == [] by {
      assert pause[1..] == [];
    }
    assert head == [SetDuty(hi), Delay(short)] + [SetDuty(lo), Delay(short * 2)] + [SetDuty(mid)];
    WritesAppend([SetDuty(hi), Delay(short)] + [SetDuty(lo), Delay(short * 2)], [SetDuty(mid)]);
    WritesAppend([SetDuty(hi), Delay(short)], [SetDuty(lo), Delay(short * 2)]);
    WritesStep(hi, short);
    WritesStep(lo, short * 2);
    WritesOne(mid);
  }

  /** `k` beats are `k` copies of the beat pattern back to back. */
  lemma {:induction false} BeatsLength(k: nat, groupedAs: nat, period: nat, down: nat, lo: nat, hi: nat, mid: nat)
    requires lo <= mid && (k > 0 ==> groupedAs > 0 && lo >= 1)
    ensures |Beats(k, groupedAs, period, down, lo, hi, mid)| == k * BeatLength(lo, mid)
  {
    if k > 0 {
      BeatsLength(k - 1, groupedAs, period, down, lo, hi, mid);
      BeatSize(k, groupedAs, period, down, lo, hi, mid);
      assert (k - 1) * BeatLength(lo, mid) + BeatLength(lo, mid) == k * BeatLength(lo, mid);
    }
  }

  /** A shorter run of beats is a prefix of a longer one: later beats never
      rewrite earlier ones. */
  lemma {:induction false} BeatsPrefix(n: nat, k: nat, groupedAs: nat, period: nat, down: nat, lo: nat, hi: nat, mid: nat)
    requires n <= k && (k > 0 ==> groupedAs > 0 && lo >= 1)
    ensures var short, long := Beats(n, groupedAs, period, down, lo, hi, mid),
                               Beats(k, groupedAs, period, down, lo, hi, mid);
      |short| <= |long| && long[..|short|] == short
  {
    if n < k {
      var short := Beats(n, groupedAs, period, down, lo, hi, mid);
      var prev := Beats(k - 1, groupedAs, period, down, lo, hi, mid);
      BeatsPrefix(n, k - 1, groupedAs, period, down, lo, hi, mid);
      SliceOfAppend(prev, Beat(k, groupedAs, period, down, lo, hi, mid), 0, |short|);
    }
  }

  /** Beat `n` of a run of `k` sits right after the first `n - 1` beats and
      is exactly `Beat(n)`. */
  lemma BeatsAt(n: nat, k: nat, groupedAs: nat, period: nat, down: nat, lo: nat, hi: nat, mid: nat)
    requires 1 <= n <= k && groupedAs > 0 && 1 <= lo <= mid
    ensures var t, before, upTo := Beats(k, groupedAs, period, down, lo, hi, mid),
                                   Beats(n - 1, groupedAs, period, down, lo, hi, mid),
                                   Beats(n, groupedAs, period, down, lo, hi, mid);
      && |before| + BeatLength(lo, mid) == |upTo| <= |t|
      && t[|before| .. |upTo|] == Beat(n, groupedAs, period, down, lo, hi, mid)
  {
    var t := Beats(k, groupedAs, period, down, lo, hi, mid);
    var before := Beats(n - 1, groupedAs, period, down, lo, hi, mid);
    var beat := Beat(n, groupedAs, period, down, lo, hi, mid);
    var upTo := Beats(n, groupedAs, period, down, lo, hi, mid);
    BeatSize(n, groupedAs, period, down, lo, hi, mid);
    BeatsPrefix(n, k, groupedAs, period, down, lo, hi, mid);
    assert upTo == before + beat;
    assert t[|before| .. |upTo|] == t[..|upTo|][|before| ..];
    SliceOfAppend(before, beat, 0, 0);
  }

  /** All duty values of `k` beats lie within the calibration, `mid - lo + 4`
      of them per beat. */
  lemma {:induction false} BeatsWrites(k: nat, groupedAs: nat, period: nat, down: nat, lo: nat, hi: nat, mid: nat)
    requires lo <= mid <= hi && (k > 0 ==> groupedAs > 0 && lo >= 1)
    ensures var w := Writes(Beats(k, groupedAs, period, down, lo, hi, mid));
      && |w| == k * (mid - lo + 4)
      && (forall i :: 0 <= i < |w| ==> lo <= w[i] <= hi)
  {
    if k > 0 {
      var prev := Beats(k - 1, groupedAs, period, down, lo, hi, mid);
      var last := Beat(k, groupedAs, period, down, lo, hi, mid);
      BeatsWrites(k - 1, groupedAs, period, down, lo, hi, mid);
      BeatWrites(k, groupedAs, period, down, lo, hi, mid);
      WritesAppend(prev, last);
      assert (k - 1) * (mid - lo + 4) + (mid - lo + 4) == k * (mid - lo + 4);
    }
  }

  /** `k` beats followed by the final write of 0: the duty values are
      `mid - lo + 4` per beat within the calibration, then one 0. */
  lemma EndedBeatsWrites(k: nat, groupedAs: nat, period: nat, down: nat, lo: nat, hi: nat, mid: nat)
    requires lo <= mid <= hi && (k > 0 ==> groupedAs > 0 && lo >= 1)
    ensures var w := Writes(Beats(k, groupedAs, period, down, lo, hi, mid) + [SetDuty(0)]);
      && |w| == k * (mid - lo + 4) + 1
      && (forall i :: 0 <= i < |w| - 1 ==> lo <= w[i] <= hi)
      && w != [] && w[|w| - 1] == 0
  {
    var beats := Beats(k, groupedAs, period, down, lo, hi, mid);
    BeatsWrites(k, groupedAs, period, down, lo, hi, mid);
    WritesAppend(beats, [SetDuty(0)]);
    WritesOne(0);
  }

  /** The duty values of the whole effect: `mid - lo + 4` per beat, all within
      the calibration, then one final 0. */
  lemma HeartbeatWrites(flashBeats: U32, groupedAs: U32, bpm: U32, lo: U32, hi: U32, mid: U32)
    requires Defined(flashBeats, groupedAs, bpm, lo, mid) && mid <= hi
    ensures var w := Writes(HeartbeatTrace(flashBeats, groupedAs, bpm, lo, hi, mid));
      && |w| == flashBeats * (mid - lo + 4) + 1
      && (forall i :: 0 <= i < |w| - 1 ==> lo <= w[i] <= hi)
      && w != [] && w[|w| - 1] == 0
  {
    var period, down := Period(bpm), DownDelay(bpm, lo, mid);
    var t := Beats(flashBeats, groupedAs, period, down, lo, hi, mid) + [SetDuty(0)];
    assert HeartbeatTrace(flashBeats, groupedAs, bpm, lo, hi, mid) == t;
    EndedBeatsWrites(flashBeats, groupedAs, period, down, lo, hi, mid);
    var w := Writes(t);
    assert |w| == flashBeats * (mid - lo + 4) + 1;
  }

  /** The whole effect at tempo `bpm` has `flashBeats` beats of `L` events
      each and ends with the write of 0. */
  lemma HeartbeatLength(flashBeats: U32, groupedAs: U32, bpm: U32, lo: U32, hi: U32, mid: U32)
    requires Defined(flashBeats, groupedAs, bpm, lo, mid)
    ensures var t := HeartbeatTrace(flashBeats, groupedAs, bpm, lo, hi, mid);
      && |t| == flashBeats * BeatLength(lo, mid) + 1
      && t != [] && t[|t| - 1] == SetDuty(0)
  {
    var period, down := Period(bpm), DownDelay(bpm, lo, mid);
    var beats := Beats(flashBeats, groupedAs, period, down, lo, hi, mid);
    assert HeartbeatTrace(flashBeats, groupedAs, bpm, lo, hi, mid) == beats + [SetDuty(0)];
    BeatsLength(flashBeats, groupedAs, period, down, lo, hi, mid);
  }

  /** Beat `n` of the whole effect at tempo `bpm` sits right after the first
      `n - 1` beats and is exactly `Beat(n)` at that tempo's period and
      decay step. */
  lemma HeartbeatAt(n: nat, flashBeats: U32, groupedAs: U32, bpm: U32, lo: U32, hi: U32, mid: U32)
    requires Defined(flashBeats, groupedAs, bpm, lo, mid) && 1 <= n <= flashBeats
    ensures var t, period, down := HeartbeatTrace(flashBeats, groupedAs, bpm, lo, hi, mid),
                                   Period(bpm), DownDelay(bpm, lo, mid);
      var before, upTo := Beats(n - 1, groupedAs, period, down, lo, hi, mid),
                          Beats(n, groupedAs, period, down, lo, hi, mid);
      && |upTo| < |t|
      && t[|before| .. |upTo|] == Beat(n, groupedAs, period, down, lo, hi, mid)
  {
    var period, down := Period(bpm), DownDelay(bpm, lo, mid);
    var beats := Beats(flashBeats, groupedAs, period, down, lo, hi, mid);
    var before, upTo := Beats(n - 1, groupedAs, period, down, lo, hi, mid),
                        Beats(n, groupedAs, period, down, lo, hi, mid);
    assert HeartbeatTrace(flashBeats, groupedAs, bpm, lo, hi, mid) == beats + [SetDuty(0)];
    BeatsAt(n, flashBeats, groupedAs, period, down, lo, hi, mid);
    SliceOfAppend(beats, [SetDuty(0)], |before|, |upTo|);
  }

  /** A run of beats never enables the channel. */
  lemma {:induction false} BeatsNoEnable(k: nat, groupedAs: nat, period: nat, down: nat, lo: nat, hi: nat, mid: nat)
    requires lo <= mid && (k > 0 ==> groupedAs > 0 && lo >= 1)
    ensures NoEnable(Beats(k, groupedAs, period, down, lo, hi, mid))
  {
    if k > 0 {
      var beat := Beat(k, groupedAs, period, down, lo, hi, mid);
      BeatsNoEnable(k - 1, groupedAs, period, down, lo, hi, mid);
      BeatAt(k, groupedAs, period, down, lo, hi, mid);
      forall j | 0 <= j < |beat| ensures !beat[j].Enable? {
        if 5 <= j < |beat| - 1 {
          assert (j - 5) % 2 == 0 || (j - 5) % 2 == 1;
        }
      }
      NoEnableAppend(Beats(k - 1, groupedAs, period, down, lo, hi, mid), beat);
    }
  }

  /** The whole heartbeat never enables the channel: the one enable stays
      the one `new` issued. */
  lemma HeartbeatNoEnable(flashBeats: U32, groupedAs: U32, bpm: U32, lo: U32, hi: U32, mid: U32)
    requires Defined(flashBeats, groupedAs, bpm, lo, mid)
    ensures NoEnable(HeartbeatTrace(flashBeats, groupedAs, bpm, lo, hi, mid))
  {
    var period, down := Period(bpm), DownDelay(bpm, lo, mid);
    var beats := Beats(flashBeats, groupedAs, period, down, lo, hi, mid);
    assert HeartbeatTrace(flashBeats, groupedAs, bpm, lo, hi, mid) == beats + [SetDuty(0)];
    BeatsNoEnable(flashBeats, groupedAs, period, down, lo, hi, mid);
    NoEnableAppend(beats, [SetDuty(0)]);
  }

  /** With no beats the effect only switches the output off. */
  lemma HeartbeatWithoutBeats(groupedAs: U32, bpm: U32, lo: U32, hi: U32, mid: U32)
    requires bpm > 0 && lo < mid
    ensures HeartbeatTrace(0, groupedAs, bpm, lo, hi, mid) == [SetDuty(0)]
  {
  }

  /** The pause pattern repeats with the group: beat `n + groupedAs` pauses
      as long as beat `n`. */
  lemma PauseRepeats(n: nat, groupedAs: nat, period: nat)
    requires groupedAs > 0
    ensures Pause(n + groupedAs, groupedAs, period) == Pause(n, groupedAs, period)
  {
    var q, r := n / groupedAs, n % groupedAs;
    assert n + groupedAs == (q + 1) * groupedAs + r;
    DivModUnique(n + groupedAs, groupedAs, q + 1, r);
  }

  /** Grouping by three: beats 1 and 2 of every group pause one period, beat
      3 pauses two periods plus three more. */
  lemma PauseGroupedByThree(n: nat, period: nat)
    ensures Pause(n, 3, period) == if n % 3 == 0 then 5 * period else period
  {
  }

  /** Every pause a run of `flashBeats` beats issues fits the cycle count. */
  lemma PauseFits(n: nat, flashBeats: U32, groupedAs: U32, bpm: U32)
    requires bpm > 0 && groupedAs > 0 && 1 <= n <= flashBeats
    requires Fits(flashBeats, groupedAs, bpm)
    ensures DelayFits(Pause(n, groupedAs, Period(bpm)))
  {
    if n % groupedAs == 0 {
      assert groupedAs <= n;
    }
  }

  /** Tempo 60 grouped by one: period 166 ms, flash 55 ms, and every beat
      pauses 332 ms. */
  lemma SixtyBpmExample(n: nat)
    ensures Period(60) == 166 && ShortPeriod(166) == 55
    ensures Pause(n, 1, Period(60)) == 332
  {
    QuotientIsDiv(60_000, 60);
  }

  /** The decay variable after `k` passes of the loop body, which decrements
      with `saturating_sub`. */
  function DecayCurrent(mid: U32, k: nat): U32
  {
    if k == 0 then mid else SaturatingSub(DecayCurrent(mid, k - 1), 1)
  }

  /** The saturating decrement counts down to 0 and then stays there: with a
      minimum of 0 the loop guard `current >= pwm_min` never fails, while
      with a minimum of at least 1 it holds for exactly the first
      `mid - lo + 1` passes. */
  lemma {:induction false} DecayCurrentAt(mid: U32, k: nat)
    ensures DecayCurrent(mid, k) == if k <= mid then mid - k else 0
  {
    if k > 0 {
      DecayCurrentAt(mid, k - 1);
    }
  }

  lemma DecayGuard(mid: U32, lo: U32, k: nat)
    ensures 1 <= lo <= mid ==> (DecayCurrent(mid, k) >= lo <==> k <= mid - lo)
  {
    DecayCurrentAt(mid, k);
  }
}
