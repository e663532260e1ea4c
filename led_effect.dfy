/** The effect engine: an owned PWM channel with its calibration, validated
    construction, the two effects as loops that write the channel, and the
    busy-wait delay between writes. */
module LedEffects {
  import opened U32Arith
  import opened Trace
  import BreathEffect
  import HeartbeatEffect

  /** The library's error type. `Pwm` exists but nothing produces it. */
  datatype Error = Pwm | InvalidParameter

  datatype Result<T> = Ok(value: T) | Err(error: Error)

  /** The midpoint of a calibration, truncated towards the minimum. */
  function Midpoint(lo: U32, hi: U32): (mid: U32)
    requires lo < hi
    ensures lo <= mid < hi
    ensures 2 * (mid - lo) <= hi - lo <= 2 * (mid - lo) + 1
    ensures lo < mid <==> hi - lo >= 2
  {
    lo + (hi - lo) / 2
  }

  /** A PWM channel that records every call made to it. `duty` is the value
      the channel currently outputs; `timeline` is everything observed on it
      in order: enables, duty writes, and the busy-waits between them. */
  class PwmPin {
    var duty: U32
    var timeline: seq<Event>

    constructor (initialDuty: U32)
      ensures duty == initialDuty && timeline == []
    {
      duty := initialDuty;
      timeline := [];
    }

    method Enable()
      modifies this
      ensures duty == old(duty)
      ensures timeline == old(timeline) + [Event.Enable]
    {
      timeline := timeline + [Event.Enable];
    }

    method SetDuty(d: U32)
      modifies this
      ensures duty == d
      ensures timeline == old(timeline) + [Event.SetDuty(d)]
    {
      duty := d;
      timeline := timeline + [Event.SetDuty(d)];
    }
  }

  /** `LEDEffect`: the channel it owns and the calibration fixed at
      construction. */
  class LedEffect {
    const pin: PwmPin
    const pwmMin: U32
    const pwmMax: U32
    const pwmMid: U32

    /** The calibration invariant established by `New`. */
    ghost predicate Valid()
    {
      pwmMin < pwmMax && pwmMid == Midpoint(pwmMin, pwmMax)
    }

    /** Field initialisation only; `New` is the way to build one. */
    constructor Init(pin: PwmPin, pwmMin: U32, pwmMax: U32, pwmMid: U32)
      requires pwmMin < pwmMax && pwmMid == Midpoint(pwmMin, pwmMax)
      ensures Valid()
      ensures this.pin == pin && this.pwmMin == pwmMin && this.pwmMax == pwmMax && this.pwmMid == pwmMid
    {
      this.pin := pin;
      this.pwmMin := pwmMin;
      this.pwmMax := pwmMax;
      this.pwmMid := pwmMid;
    }

    /** Rejects a calibration whose maximum is not above its minimum without
        touching the channel; otherwise computes the midpoint and enables the
        channel exactly once. */
    static method New(pin: PwmPin, pwmMin: U32, pwmMax: U32) returns (r: Result<LedEffect>)
      modifies pin
      ensures r.Err? <==> pwmMax <= pwmMin
      ensures r.Err? ==> r.error == InvalidParameter
      ensures r.Err? ==> pin.timeline == old(pin.timeline) && pin.duty == old(pin.duty)
      ensures r.Ok? ==> && fresh(r.value) && r.value.Valid() && r.value.pin == pin
                        && r.value.pwmMin == pwmMin && r.value.pwmMax == pwmMax
                        && pin.timeline == old(pin.timeline) + [Event.Enable]
                        && pin.duty == old(pin.duty)
    {
      if pwmMax <= pwmMin {
        return Err(InvalidParameter);
      }
      var pwmMid := pwmMin + (pwmMax - pwmMin) / 2;
      pin.Enable();
      var led := new LedEffect.Init(pin, pwmMin, pwmMax, pwmMid);
      return Ok(led);
    }

    /** `delay_ms`: converts to cycles of the 48 MHz clock and busy-waits,
        which the timeline records as one delay. */
    method DelayMs(ms: U32)
      requires DelayFits(ms)
      modifies pin
      ensures pin.duty == old(pin.duty)
      ensures pin.timeline == old(pin.timeline) + [Delay(ms)]
    {
      var cycles := DelayCycles(ms);
      pin.timeline := pin.timeline + [Delay(cycles / ClockCyclesPerMs())];
    }

    /** `heartbeat`: for each beat a flash at the maximum, off at the
        minimum, a settle at the midpoint, a decay down to the minimum
        inclusive and a pause chosen by the grouping; then the output off. */
    method Heartbeat(flashBeats: U32, groupedAs: U32, bpm: U32) returns (r: Result<()>)
      requires Valid()
      requires HeartbeatEffect.Defined(flashBeats, groupedAs, bpm, pwmMin, pwmMid)
      requires HeartbeatEffect.Fits(flashBeats, groupedAs, bpm)
      modifies pin
      ensures r == Ok(())
      ensures pin.duty == 0
      ensures pin.timeline == old(pin.timeline)
        + HeartbeatEffect.HeartbeatTrace(flashBeats, groupedAs, bpm, pwmMin, pwmMax, pwmMid)
    {
      var periodTime := HeartbeatEffect.Period(bpm);
      var shortPeriodTime := HeartbeatEffect.ShortPeriod(periodTime);
      var downDelayTime := HeartbeatEffect.DownDelay(bpm, pwmMin, pwmMid);

      for n := 1 to flashBeats + 1
        invariant pin.timeline == old(pin.timeline)
          + HeartbeatEffect.Beats(n - 1, groupedAs, periodTime, downDelayTime, pwmMin, pwmMax, pwmMid)
      {
        HeartbeatEffect.PauseFits(n, flashBeats, groupedAs, bpm);
        BeatOnce(n, groupedAs, periodTime, shortPeriodTime, downDelayTime);
        assert HeartbeatEffect.Beats(n, groupedAs, periodTime, downDelayTime, pwmMin, pwmMax, pwmMid)
          == HeartbeatEffect.Beats(n - 1, groupedAs, periodTime, downDelayTime, pwmMin, pwmMax, pwmMid)
           + HeartbeatEffect.Beat(n, groupedAs, periodTime, downDelayTime, pwmMin, pwmMax, pwmMid);
      }
      pin.SetDuty(0);
      return Ok(());
    }

    /** The body of heartbeat's beat loop for beat `n`: flash, off, settle,
        decay with `saturating_sub` while the value is at least the minimum,
        pause. */
    method BeatOnce(n: nat, groupedAs: U32, periodTime: U32, shortPeriodTime: U32, downDelayTime: U32)
      requires Valid() && groupedAs > 0 && 1 <= pwmMin < pwmMid
      requires periodTime <= 10_000 && shortPeriodTime == HeartbeatEffect.ShortPeriod(periodTime)
      requires downDelayTime <= periodTime * 2
      requires DelayFits(HeartbeatEffect.Pause(n, groupedAs, periodTime))
      modifies pin
      ensures pin.duty == pwmMin
      ensures pin.timeline == old(pin.timeline)
        + HeartbeatEffect.Beat(n, groupedAs, periodTime, downDelayTime, pwmMin, pwmMax, pwmMid)
    {
      pin.SetDuty(pwmMax);
      DelayMs(shortPeriodTime);

      pin.SetDuty(pwmMin);
      DelayMs(shortPeriodTime * 2);

      pin.SetDuty(pwmMid);

      ghost var settled := pin.timeline;
      var current := pwmMid;
      while current >= pwmMin
        invariant pwmMin - 1 <= current <= pwmMid
        invariant current < pwmMid ==> pin.duty == current + 1
        invariant pin.timeline == settled + Fall(pwmMid, current, downDelayTime)
        decreases current
      {
        ghost var stepped := Fall(pwmMid, current - 1, downDelayTime);
        assert stepped == Fall(pwmMid, current, downDelayTime) + [Event.SetDuty(current), Delay(downDelayTime)];
        pin.SetDuty(current);
        DelayMs(downDelayTime);
        current := SaturatingSub(current, 1);
      }

      var wait := HeartbeatEffect.Pause(n, groupedAs, periodTime);
      DelayMs(wait);
    }

    /** `breath`: a rising ramp from the minimum to just below the maximum, a
        falling ramp from the maximum to just above the minimum, a hold of two
        periods, then the output off. */
    method Breath(duration: U32) returns (r: Result<()>)
      requires Valid()
      requires BreathEffect.Fits(duration)
      modifies pin
      ensures r == Ok(())
      ensures pin.duty == 0
      ensures pin.timeline == old(pin.timeline) + BreathEffect.BreathTrace(duration, pwmMin, pwmMax)
    {
      var periodTime := BreathEffect.Period(duration);
      var upDelay := BreathEffect.StepDelay(duration, pwmMin, pwmMax);
      var downDelay := BreathEffect.StepDelay(duration, pwmMin, pwmMax);
      BreathEffect.BreathDelaysFit(duration, pwmMin, pwmMax);

      RampUp(upDelay);
      RampDown(downDelay);
      DelayMs(periodTime * 2);
      pin.SetDuty(0);
      BreathEffect.BreathingSplit(old(pin.timeline), pwmMin, pwmMax, upDelay, periodTime * 2);
      return Ok(());
    }

    /** Breath's rising loop: writes every value from the minimum up to just
        below the maximum, waiting `step` after each, with `saturating_add`
        as the increment. */
    method RampUp(step: U32)
      requires Valid() && DelayFits(step)
      modifies pin
      ensures pin.duty == pwmMax - 1
      ensures pin.timeline == old(pin.timeline) + Rise(pwmMin, pwmMax, step)
    {
      var current := pwmMin;
      while current < pwmMax
        invariant pwmMin <= current <= pwmMax
        invariant pwmMin < current ==> pin.duty == current - 1
        invariant pin.timeline == old(pin.timeline) + Rise(pwmMin, current, step)
      {
        assert Rise(pwmMin, current + 1, step) == Rise(pwmMin, current, step) + [Event.SetDuty(current), Delay(step)];
        pin.SetDuty(current);
        DelayMs(step);
        current := SaturatingAdd(current, 1);
      }
    }

    /** Breath's falling loop: writes every value from the maximum down to
        just above the minimum, waiting `step` after each, with
        `saturating_sub` as the decrement. */
    method RampDown(step: U32)
      requires Valid() && DelayFits(step)
      modifies pin
      ensures pin.duty == pwmMin + 1
      ensures pin.timeline == old(pin.timeline) + Fall(pwmMax, pwmMin, step)
    {
      var current := pwmMax;
      while current > pwmMin
        invariant pwmMin <= current <= pwmMax
        invariant current < pwmMax ==> pin.duty == current + 1
        invariant pin.timeline == old(pin.timeline) + Fall(pwmMax, current, step)
      {
        assert Fall(pwmMax, current - 1, step) == Fall(pwmMax, current, step) + [Event.SetDuty(current), Delay(step)];
        pin.SetDuty(current);
        DelayMs(step);
        current := SaturatingSub(current, 1);
      }
    }

    /** `destroy`: hands the channel back with no further call on it, so it
        still outputs whatever the last effect wrote. */
    method Destroy() returns (p: PwmPin)
      ensures p == pin
    {
      return pin;
    }
  }

  /** The Rust test `test_new_led_effect`: a 5..255 calibration is accepted,
      with midpoint 130. */
  method TestNewLedEffect() returns (led: Result<LedEffect>)
    ensures led.Ok? && led.value.pwmMid == 130 && led.value.pin.timeline == [Event.Enable]
  {
    var pin := new PwmPin(0);
    led := LedEffect.New(pin, 5, 255);
  }

  /** The Rust test `test_invalid_parameters`: a 255..5 calibration is
      rejected with `InvalidParameter` and the channel is never enabled. */
  method TestInvalidParameters() returns (led: Result<LedEffect>, pin: PwmPin)
    ensures led == Err(InvalidParameter)
    ensures pin.timeline == []
  {
    pin := new PwmPin(0);
    led := LedEffect.New(pin, 255, 5);
  }

  /** Construct, breathe once, tear down: the channel handed back shows one
      enable followed by exactly the breathing trace, and still outputs the
      final 0 written by the effect. */
  method BreathThenDestroy(pwmMin: U32, pwmMax: U32, duration: U32) returns (p: PwmPin)
    requires pwmMin < pwmMax && BreathEffect.Fits(duration)
    ensures p.duty == 0
    ensures p.timeline == [Event.Enable] + BreathEffect.BreathTrace(duration, pwmMin, pwmMax)
  {
    var pin := new PwmPin(0);
    var r := LedEffect.New(pin, pwmMin, pwmMax);
    var led := r.value;
    var done := led.Breath(duration);
    p := led.Destroy();
  }
}
