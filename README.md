# led_effects: the LEDEffect engine, modelled and proved in Dafny

`led_effects` is a `no_std` Rust library that drives one PWM channel with
light effects. Its core is `LEDEffect` in `src/lib.rs`. It owns a PWM pin and
a calibration: a minimum duty, a maximum duty, and the midpoint between them.
It offers three operations:

- `new` validates the calibration, computes the midpoint and enables the pin.
- `breath` ramps the duty up, ramps it down, holds, and switches the output off.
- `heartbeat` runs a number of beats. Each beat is a flash, an off,
  a settle and a decay ramp, followed by a pause that depends on how the beats
  are grouped. It ends by switching the output off.

Between writes the engine busy-waits a number of milliseconds. The wait is
turned into a cycle count for a 48 MHz core.

This project models that engine as imperative Dafny. It proves that each
effect writes exactly a sequence given by a pure specification function, and
it proves properties of those sequences.

## How the model is built

- `u32_arith.dfy` (module `U32Arith`) holds the machine arithmetic the engine
  uses:
  - the `u32` range;
  - `saturating_add` and `saturating_sub`;
  - `u32` division where the divisor is a variable (`60_000 / bpm` and the
    two step delays), written as the recursive `Quotient` and proved equal to
    `/`. The value is the same as `/`. The recursive form keeps division by a
    variable away from the solver's nonlinear arithmetic, which otherwise made
    the proofs of both effects run out of resource. Division by the constants
    6 and 3 stays `/`;
  - the `ms * 48_000` cycle conversion of `delay_ms`, and when it fits a `u32`.
- `trace.dfy` (module `Trace`) holds what an observer of the pin sees.
  - An `Event` is `Enable`, `SetDuty(d)` or `Delay(ms)`.
  - `Writes` projects a timeline onto the duty values it writes.
  - `Rise` and `Fall` are the two linear ramps both effects are built from,
    with lemmas that give them position by position and value by value.
- `breath.dfy` (module `BreathEffect`) holds `BreathTrace`, the exact event
  sequence of `breath` for a duration and a calibration, and what is proved
  about it.
- `heartbeat.dfy` (module `HeartbeatEffect`) holds `Beat`, `Beats` and
  `HeartbeatTrace`, the exact event sequence of `heartbeat`. It also holds the
  pause selection, the preconditions under which the code is defined and
  terminates, and what is proved about all of these.
- `led_effect.dfy` (module `LedEffects`) holds the engine itself.
  - `Error` (src/lib.rs:23-28), with the same two variants, `Pwm` and
    `InvalidParameter`, and `Result`.
  - `PwmPin`, a class that records every call made to the channel on its
    `timeline` and keeps the current `duty`.
  - `LedEffect`, a class with the pin and the three calibration fields.
    - The static method `New` follows `new`.
    - The methods `Heartbeat`, `Breath`, `Destroy` and `DelayMs` follow the
      Rust methods of the same names. They keep their `for` and `while` loops
      over a mutable `current`, and these write to and wait on the pin.
    - `New`, `DelayMs`, `Heartbeat`, `BeatOnce`, `Breath`, `RampUp` and
      `RampDown` each state the pin's whole new state. That is the timeline
      as `old(pin.timeline)` plus the events the specification function gives, and the duty the
      pin outputs afterwards. `Destroy` makes no call on the pin, so it has
      no `modifies` clause.
    - The body of heartbeat's beat loop is the method `BeatOnce`. Breath's two
      loops are the methods `RampUp` and `RampDown`. This keeps each proof
      small; the statements, guards and order are the source's.
  - The source's two unit tests, and a construct–breathe–tear-down run, are
    client methods.

The busy-wait is recorded as a `Delay(ms)` event on the same timeline as the
duty writes. So one sequence shows what was written and how long each value
was held.

Three places where the code is not defined become preconditions of
`Heartbeat`, stated by `HeartbeatEffect.Defined`:

- `bpm == 0` divides by zero.
- `pwm_mid == pwm_min`, that is `pwm_max - pwm_min == 1`, divides by zero. Like
  the code, it is demanded even when there are no beats, because the decay
  delay is computed before the loop.
- `grouped_as == 0` divides by zero in the pause test. It is demanded only when
  a beat runs.

`pwm_min == 0` with at least one beat makes the decay loop run forever, so
`Defined` also demands a minimum of at least 1 when a beat runs.
`HeartbeatEffect.DecayCurrentAt` proves why: after `mid` passes
`saturating_sub` keeps the loop variable at 0. The guard `current >= 0` holds
for every unsigned value, so the loop never stops. `new` accepts both of these
calibrations, as the code does. Only `heartbeat` is restricted.

## Model

| member | source | states |
|---|---|---|
| LedEffects.Midpoint | src/lib.rs:53-55 | the midpoint lies in `[min, max)`; twice its distance from the minimum is the span or one less; it is above the minimum exactly when the span is at least 2 |
| LedEffects.LedEffect.Valid | src/lib.rs:49-55 | the calibration every engine built by `new` has: minimum below maximum, and the midpoint is `Midpoint(min, max)` |
| LedEffects.LedEffect.Init | src/lib.rs:59-65 | the struct literal: the engine holds exactly the given pin and calibration, and is `Valid()` |
| LedEffects.LedEffect.New | src/lib.rs:48-66 | `Err(InvalidParameter)` exactly when `pwm_max <= pwm_min`, with the pin untouched; otherwise a fresh engine with the given calibration and its truncated midpoint, and exactly one `Enable` appended to the pin |
| LedEffects.LedEffect.DelayMs | src/lib.rs:139-143 | when `ms * 48000` fits a `u32`, one `Delay(ms)` is appended and the duty is unchanged |
| LedEffects.LedEffect.Heartbeat | src/lib.rs:69-107 | under the defining preconditions, the pin receives exactly `HeartbeatTrace(flash_beats, grouped_as, bpm, min, max, mid)`, ends at duty 0, and the result is `Ok(())` |
| LedEffects.LedEffect.BeatOnce | src/lib.rs:80-103 | one pass of the beat loop appends exactly `Beat(n, ...)` at the computed period and decay delay, and leaves the duty at the minimum |
| LedEffects.LedEffect.Breath | src/lib.rs:110-132 | the pin receives exactly `BreathTrace(duration, min, max)`, ends at duty 0, and the result is `Ok(())` |
| LedEffects.LedEffect.RampUp | src/lib.rs:115-120 | the rising loop with `saturating_add` appends exactly `Rise(min, max, step)` and leaves the output at `max - 1`, the last value written |
| LedEffects.LedEffect.RampDown | src/lib.rs:122-127 | the falling loop with `saturating_sub` appends exactly `Fall(max, min, step)` and leaves the output at `min + 1`, the last value written |
| LedEffects.LedEffect.Destroy | src/lib.rs:135-137 | hands back the owned pin and makes no call on it |
| LedEffects.PwmPin.constructor | src/lib.rs:162-166 | a fresh channel outputs the given duty and has seen no call |
| LedEffects.PwmPin.Enable | src/lib.rs:172 | `enable` appends one `Enable` and leaves the duty unchanged |
| LedEffects.PwmPin.SetDuty | src/lib.rs:179-181 | `set_duty(d)` makes the channel output `d` and appends one `SetDuty(d)` |
| LedEffects.TestNewLedEffect | src/lib.rs:184-189 | `new(pin, 5, 255)` succeeds with midpoint 130, and the pin has seen one `Enable` |
| LedEffects.TestInvalidParameters | src/lib.rs:191-196 | `new(pin, 255, 5)` is `Err(InvalidParameter)` and the pin has seen nothing |
| LedEffects.BreathThenDestroy | src/lib.rs:48-137 | construct, breathe, tear down: the returned pin shows one `Enable` followed by exactly the breathing trace, and still outputs 0 |
| U32Arith.SaturatingAdd | src/lib.rs:119 | `saturating_add` never yields less than either operand nor more than their sum: it is the sum, or `u32::MAX` when the sum does not fit |
| U32Arith.SaturatingSub | src/lib.rs:92 | `saturating_sub` (also at line 126) never yields more than its left operand nor takes away more than its right one: it is the exact difference, or 0 when that would be negative |
| U32Arith.ClockCyclesPerMs | src/lib.rs:145-150 | the busy-wait calibration is a positive cycle count that fits a `u32` |
| U32Arith.DelayCycles | src/lib.rs:140-150 | the cycle count of `delay_ms` is an exact multiple of 48000 cycles per ms whose quotient is the requested delay |
| U32Arith.DelayFitsBound | src/lib.rs:141 | `ms * 48000` fits a `u32` exactly when `ms <= 89478` |
| U32Arith.Quotient | src/lib.rs:75-77 | `u32` division by a variable divisor (also at lines 112-113) never exceeds the dividend |
| U32Arith.QuotientIsDiv | src/lib.rs:75-77 | the repeated-subtraction quotient equals Dafny's `/` on naturals, which is `u32` division |
| Trace.Rise | src/lib.rs:115-120 | the rising loop's events: for each `v` from `lo` up to `hi - 1`, a write of `v` then a delay of `step`; `RiseAt` and `RiseWrites` give them by position and by value |
| Trace.Fall | src/lib.rs:122-127 | the falling loop's events: for each `v` from `top` down to `stop + 1`, a write of `v` then a delay of `step`; also the heartbeat decay at lines 88-93; `FallAt` and `FallWrites` give them by position and by value |
| Trace.RiseAt | src/lib.rs:115-120 | the rising ramp has `2 * (hi - lo)` events: a write of `lo + j/2` at even positions `j`, the step delay at odd ones |
| Trace.FallAt | src/lib.rs:122-127 | the falling ramp has `2 * (top - stop)` events: a write of `top - j/2` at even positions `j`, the step delay at odd ones |
| Trace.RiseWrites | src/lib.rs:115-120 | the rising ramp writes exactly `lo, lo+1, ..., hi-1` |
| Trace.FallWrites | src/lib.rs:122-127 | the falling ramp writes exactly `top, top-1, ..., stop+1` |
| BreathEffect.Period | src/lib.rs:111 | the breath period is the duration divided by 6, truncated: `6 * p <= duration < 6 * p + 6` |
| BreathEffect.Breathing | src/lib.rs:115-130 | rise, then fall, then the hold, then the write of 0: the last two events are the hold and the write of 0 |
| BreathEffect.BreathTrace | src/lib.rs:110-131 | breath's trace ends with the hold of two periods and then the write of 0 |
| BreathEffect.StepDelay | src/lib.rs:111-113 | the ramp step delay, the same for both ramps, is at most the two-period hold |
| BreathEffect.BreathingAt | src/lib.rs:115-130 | breathing with any step and hold, position by position: rising writes, falling writes, the hold, then the write of 0 |
| BreathEffect.BreathTraceAt | src/lib.rs:110-131 | every position of breath's trace: `max - min` rising steps, `max - min` falling steps with the same delay, one hold of `period * 2`, a final write of 0, and no `Enable` |
| BreathEffect.BreathWrites | src/lib.rs:115-130 | breath writes `min..max-1`, then `max..min+1`, then 0: `2 * (max - min) + 1` writes, all but the last within `[min, max]` |
| BreathEffect.BreathDelaysFit | src/lib.rs:112-129 | once the hold fits the `u32` cycle count, so does every ramp delay |
| BreathEffect.BreathFullRangeExample | src/lib.rs:110-131 | `breath(600)` over `0..255`: period 100, step delay 0, hold 200 ms, then the final write of 0 |
| HeartbeatEffect.Period | src/lib.rs:75 | the base period is at most 10000 ms for every positive tempo |
| HeartbeatEffect.ShortPeriod | src/lib.rs:76 | the flash lasts a third of the period, truncated: `3 * s <= period < 3 * s + 3` |
| HeartbeatEffect.DownDelay | src/lib.rs:77 | the decay step delay is at most two periods |
| HeartbeatEffect.Pause | src/lib.rs:95-101 | every pause lasts at least one period, and the pause of a beat that ends a group lasts at least two |
| HeartbeatEffect.Beat | src/lib.rs:80-103 | a beat opens with the write of the maximum and closes with the pause for beat `n` |
| HeartbeatEffect.DecayCurrent | src/lib.rs:88-92 | the decay variable after `k` passes of the loop body: `mid` at first, then one `saturating_sub(1)` per pass; `DecayCurrentAt` gives its closed form |
| HeartbeatEffect.Defined | src/lib.rs:75-95 | heartbeat is defined and terminates when `bpm > 0` (line 75) and `min < mid` (line 77), and, once a beat runs, when `grouped_as > 0` (line 95) and `min >= 1` (the guard at line 89) |
| HeartbeatEffect.Beats | src/lib.rs:79-104 | the first `k` beats in order: no beats for `k == 0`, otherwise the first `k - 1` beats followed by beat `k`; `BeatsLength`, `BeatsPrefix` and `BeatsAt` state its shape |
| HeartbeatEffect.HeartbeatTrace | src/lib.rs:75-106 | the whole heartbeat at tempo `bpm` ends with the write of 0 |
| HeartbeatEffect.BeatSize | src/lib.rs:80-103 | a beat has `2 * (mid - min) + 8` events |
| HeartbeatEffect.BeatAt | src/lib.rs:80-103 | a beat, position by position: write max, wait `period/3`; write min, wait twice that; write mid; `mid - min + 1` decay steps ending with a write of min; the pause for beat `n` |
| HeartbeatEffect.BeatWrites | src/lib.rs:80-93 | a beat writes max, min, mid, then `mid, mid-1, ..., min`: `mid - min + 4` writes, all within `[min, max]` |
| HeartbeatEffect.BeatsLength | src/lib.rs:79-104 | `k` beats are `k * (2 * (mid - min) + 8)` events |
| HeartbeatEffect.BeatsPrefix | src/lib.rs:79-104 | the first `n` beats are a prefix of the first `k` beats for `n <= k` |
| HeartbeatEffect.BeatsAt | src/lib.rs:79-104 | beat `n` of `k` sits right after the first `n - 1` beats and is exactly `Beat(n)` |
| HeartbeatEffect.BeatsWrites | src/lib.rs:79-104 | `k` beats write `k * (mid - min + 4)` values, all within `[min, max]` |
| HeartbeatEffect.EndedBeatsWrites | src/lib.rs:79-105 | `k` beats followed by the final write: the values of the beats, then one 0 |
| HeartbeatEffect.HeartbeatWrites | src/lib.rs:79-105 | heartbeat writes `flash_beats * (mid - min + 4) + 1` values, all within `[min, max]` except the final 0 |
| HeartbeatEffect.HeartbeatLength | src/lib.rs:79-105 | the heartbeat trace is `flash_beats` beats long plus one event, and its last event writes 0 |
| HeartbeatEffect.HeartbeatAt | src/lib.rs:75-105 | beat `n` of the heartbeat at tempo `bpm` is exactly `Beat(n)` with that tempo's period and decay delay, at its place in the trace |
| HeartbeatEffect.BeatsNoEnable | src/lib.rs:79-104 | no beat enables the channel |
| HeartbeatEffect.HeartbeatNoEnable | src/lib.rs:69-107 | heartbeat never enables the channel, so the only `Enable` is the one `new` issued |
| HeartbeatEffect.HeartbeatWithoutBeats | src/lib.rs:79-106 | with `flash_beats == 0` the only event is the write of 0 |
| HeartbeatEffect.PauseRepeats | src/lib.rs:95-101 | the pause of beat `n + grouped_as` equals the pause of beat `n` |
| HeartbeatEffect.PauseGroupedByThree | src/lib.rs:95-101 | with `grouped_as == 3`, beats `3k` pause `5 * period` and every other beat pauses `period` |
| HeartbeatEffect.PauseFits | src/lib.rs:95-103 | when the accent pause fits the `u32` cycle count, the pause of every beat that runs fits too |
| HeartbeatEffect.SixtyBpmExample | src/lib.rs:75-101 | at 60 bpm grouped by one: period 166 ms, flash 55 ms, every pause 332 ms |
| HeartbeatEffect.DecayCurrentAt | src/lib.rs:88-93 | after `k` decrements with `saturating_sub` the decay variable is `mid - k`, or 0 once `k` exceeds `mid` |
| HeartbeatEffect.DecayGuard | src/lib.rs:88-93 | with a minimum of at least 1 the decay guard holds for exactly the first `mid - min + 1` passes, so the decay writes `mid` down to `min` and stops |

## Left out

- `cortex_m::asm::delay` is left out. It is a busy-wait on real hardware, and each call is recorded as one `Delay(ms)` event carrying the milliseconds its cycle count stands for.
- The `embedded_hal::PwmPin` trait, `PhantomData` and the `From<u32>`/`Into<u32>` duty conversions are left out. The duty type is fixed to `u32`, and the pin is a recorder class.
- `get_duty`, `get_max_duty` and `disable` of the pin are left out, because the engine never calls them.
- `Error::Pwm` is declared but never produced, as in the source.
- The `defmt` formatting derive (src/lib.rs:17-22) is left out; it is logging support only.
- `examples/stm32f1xx.rs` (hardware bring-up and a demo loop) and `build.rs` (linker script copying) are not part of this model.
- Debug-build overflow panics and release-build wrap-around of `u32` products are not modelled. The products are kept in range by preconditions instead.
- LedEffects.LedEffect.DelayMs: requires `ms * 48000` to fit a `u32` (at most 89478 ms). Rust would panic on a longer delay in a debug build and wrap the cycle count in a release build.
- LedEffects.LedEffect.Breath: requires the hold `(duration / 6) * 2` to fit the cycle count; `BreathEffect.BreathDelaysFit` shows every ramp delay then fits too. Longer breaths are not modelled.
- LedEffects.LedEffect.Heartbeat: requires the accent pause to fit the cycle count whenever some beat ends a group (`HeartbeatEffect.Fits`). All other heartbeat delays always fit, because the period is at most 10000 ms. Tempos and groupings with a longer accent pause are not modelled.
- LedEffects.LedEffect.Heartbeat: the division by zero for `bpm == 0`, `pwm_max - pwm_min == 1` or `grouped_as == 0`, and the endless decay loop for `pwm_min == 0`, are preconditions (`HeartbeatEffect.Defined`). The model does not describe what the code does in those cases.
- Ownership and moves are not modelled. In Rust `new` takes the pin by value, the pin is dropped on `Err`, and `destroy(self)` consumes the engine. In the model the caller keeps its reference to the pin, and the engine can still be used after `Destroy`.
- Real time, the 48 MHz clock and interrupts are not modelled beyond the `ms * 48000` conversion.
