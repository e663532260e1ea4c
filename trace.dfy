/** What an observer of the PWM channel sees: the sequence of calls made to
    it and the busy-waits between them, and the linear duty ramps that both
    effects are built from. */
module Trace {

  /** One observable step: the channel is enabled, a duty value is written,
      or the core busy-waits for a number of milliseconds. */
  datatype Event = Enable | SetDuty(duty: nat) | Delay(ms: nat)

  /** The duty values written, in order, with everything else dropped. */
  function Writes(t: seq<Event>): (w: seq<nat>)
    ensures |w| <= |t|
  {
    if t == [] then []
    else (if t[0].SetDuty? then [t[0].duty] else []) + Writes(t[1..])
  }

  /** Rising ramp: writes `lo, lo + 1, ..., hi - 1`, each followed by a
      delay of `step` milliseconds. */
  function Rise(lo: nat, hi: nat, step: nat): seq<Event>
    decreases hi
  {
    if hi <= lo then [] else Rise(lo, hi - 1, step) + [SetDuty(hi - 1), Delay(step)]
  }

  /** Falling ramp: writes `top, top - 1, ..., stop + 1`, each followed by a
      delay of `step` milliseconds. */
  function Fall(top: nat, stop: nat, step: nat): seq<Event>
    decreases top - stop
  {
    if top <= stop then [] else Fall(top, stop + 1, step) + [SetDuty(stop + 1), Delay(step)]
  }

  /** No event of `t` enables the channel. */
  predicate NoEnable(t: seq<Event>)
  {
    forall j :: 0 <= j < |t| ==> !t[j].Enable?
  }

  /** The values `lo, lo + 1, ..., hi - 1`. */
  function Ascending(lo: nat, hi: nat): (s: seq<nat>)
    requires lo <= hi
    ensures |s| == hi - lo
    ensures forall i :: 0 <= i < |s| ==> s[i] == lo + i
  {
    seq(hi - lo, i requires 0 <= i < hi - lo => lo + i)
  }

  /** The values `top, top - 1, ..., stop + 1`. */
  function Descending(top: nat, stop: nat): (s: seq<nat>)
    requires stop <= top
    ensures |s| == top - stop
    ensures forall i :: 0 <= i < |s| ==> s[i] == top - i
  {
    seq(top - stop, i requires 0 <= i < top - stop => top - i)
  }

  lemma {:induction false} WritesAppend(a: seq<Event>, b: seq<Event>)
    ensures Writes(a + b) == Writes(a) + Writes(b)
  {
    if a == [] {
      assert a + b == b;
    } else {
      var head := if a[0].SetDuty? then [a[0].duty] else [];
      assert (a + b)[0] == a[0];
      assert (a + b)[1..] == a[1..] + b;
      assert Writes(a + b) == head + Writes(a[1..] + b);
      WritesAppend(a[1..], b);
      assert Writes(a) == head + Writes(a[1..]);
    }
  }

  lemma NoEnableAppend(a: seq<Event>, b: seq<Event>)
    ensures NoEnable(a + b) <==> NoEnable(a) && NoEnable(b)
  {
    if NoEnable(a + b) {
      forall j | 0 <= j < |a| ensures !a[j].Enable? {
        assert (a + b)[j] == a[j];
      }
      forall j | 0 <= j < |b| ensures !b[j].Enable? {
        assert (a + b)[|a| + j] == b[j];
      }
    }
  }

  lemma SliceOfAppend(a: seq<Event>, b: seq<Event>, i: nat, j: nat)
    requires i <= j <= |a|
    ensures (a + b)[i..j] == a[i..j]
    ensures (a + b)[|a|..] == b
  {
  }

  /** The duty values of one ramp step: just the value written. */
  lemma WritesStep(d: nat, step: nat)
    ensures Writes([SetDuty(d), Delay(step)]) == [d]
  {
    assert [SetDuty(d), Delay(step)][1..] == [Delay(step)];
    assert [Delay(step)][1..] == [];
  }

  lemma WritesOne(d: nat)
    ensures Writes([SetDuty(d)]) == [d]
  {
    assert [SetDuty(d)][1..] == [];
  }

  /** The rising ramp, event by event: a write of `lo + j / 2` at every even
      position and a delay of `step` at every odd one. */
  lemma {:induction false} RiseAt(lo: nat, hi: nat, step: nat)
    requires lo <= hi
    ensures |Rise(lo, hi, step)| == 2 * (hi - lo)
    ensures forall j :: 0 <= j < |Rise(lo, hi, step)| ==>
              Rise(lo, hi, step)[j] == if j % 2 == 0 then SetDuty(lo + j / 2) else Delay(step)
  {
    if lo < hi {
      RiseAt(lo, hi - 1, step);
    }
  }

  /** The falling ramp, event by event: a write of `top - j / 2` at every
      even position and a delay of `step` at every odd one. */
  lemma {:induction false} FallAt(top: nat, stop: nat, step: nat)
    requires stop <= top
    ensures |Fall(top, stop, step)| == 2 * (top - stop)
    ensures forall j :: 0 <= j < |Fall(top, stop, step)| ==>
              Fall(top, stop, step)[j] == if j % 2 == 0 then SetDuty(top - j / 2) else Delay(step)
    decreases top - stop
  {
    if stop < top {
      FallAt(top, stop + 1, step);
    }
  }

  lemma AscendingSnoc(lo: nat, hi: nat)
    requires lo < hi
    ensures Ascending(lo, hi) == Ascending(lo, hi - 1) + [hi - 1]
  {
    var a, b := Ascending(lo, hi), Ascending(lo, hi - 1) + [hi - 1];
    forall i | 0 <= i < |a| ensures a[i] == b[i] {
      if i < hi - 1 - lo {
        assert b[i] == Ascending(lo, hi - 1)[i];
      }
    }
  }

  lemma DescendingSnoc(top: nat, stop: nat)
    requires stop < top
    ensures Descending(top, stop) == Descending(top, stop + 1) + [stop + 1]
  {
    var a, b := Descending(top, stop), Descending(top, stop + 1) + [stop + 1];
    forall i | 0 <= i < |a| ensures a[i] == b[i] {
      if i < top - stop - 1 {
        assert b[i] == Descending(top, stop + 1)[i];
      }
    }
  }

  /** The rising ramp writes exactly `lo, ..., hi - 1`. */
  lemma {:induction false} RiseWrites(lo: nat, hi: nat, step: nat)
    requires lo <= hi
    ensures Writes(Rise(lo, hi, step)) == Ascending(lo, hi)
  {
    if lo < hi {
      RiseWrites(lo, hi - 1, step);
      WritesAppend(Rise(lo, hi - 1, step), [SetDuty(hi - 1), Delay(step)]);
      WritesStep(hi - 1, step);
      AscendingSnoc(lo, hi);
    }
  }

  /** The falling ramp writes exactly `top, ..., stop + 1`. */
  lemma {:induction false} FallWrites(top: nat, stop: nat, step: nat)
    requires stop <= top
    ensures Writes(Fall(top, stop, step)) == Descending(top, stop)
    decreases top - stop
  {
    if stop < top {
      FallWrites(top, stop + 1, step);
      WritesAppend(Fall(top, stop + 1, step), [SetDuty(stop + 1), Delay(step)]);
      WritesStep(stop + 1, step);
      DescendingSnoc(top, stop);
    }
  }
}
