/**
 * The guided 3-3-3-3 breathing exercise of `BreathingMeditation`
 * (src/components/BreathingMeditation.tsx): a start/stop button, a phase
 * label, a circle whose size follows the phase, and a countdown.
 *
 * The two intervals (the one-second countdown and the three-second phase
 * change) are calls of `CountdownTick` and `PhaseTick`, made only while the
 * exercise runs; their timing relative to each other is not modelled. The
 * `step` counter local to the running effect is a field, reset whenever the
 * effect starts.
 */
module Breathing {

  const BreatheIn: string := "Breathe In"
  const Hold: string := "Hold"
  const BreatheOut: string := "Breathe Out"

  const Resting: string := "h-28 w-28"
  const Large: string := "h-40 w-40"
  const Small: string := "h-20 w-20"

  /** The on-screen state, with the effect's `step`. */
  datatype Breath = Breath(running: bool, step: int, phase: string, circleSize: string, countdown: int)

  /** The first render: stopped, ready to breathe in. */
  function Initial(): Breath
  {
    Breath(false, 0, BreatheIn, Resting, 3)
  }

  /**
   * The button: `running` flips and phase, size and countdown go back to
   * their starting values; when this starts the exercise, the effect also
   * sets `step` to 0.
   */
  function AfterToggle(b: Breath): (r: Breath)
    ensures r.running == !b.running
    ensures r.phase == BreatheIn && r.circleSize == Resting && r.countdown == 3
    ensures r.step == if r.running then 0 else b.step
  {
    if !b.running then Breath(true, 0, BreatheIn, Resting, 3)
    else Breath(false, b.step, BreatheIn, Resting, 3)
  }

  /** The countdown interval: 3, 2, 1, then 3 again. */
  function NextCount(prev: int): int
  {
    if prev > 1 then prev - 1 else 3
  }

  /** The phase label of each step. */
  function PhaseOf(step: int): string
  {
    if step == 0 then BreatheIn
    else if step == 1 then Hold
    else if step == 2 then BreatheOut
    else Hold
  }

  /**
   * The phase interval: the next step of four, its label, a large circle on
   * breathing in and a small one on breathing out (the holds keep the size),
   * and the countdown back to 3.
   */
  function AfterPhaseTick(b: Breath): Breath
  {
    var step := (b.step + 1) % 4;
    var size := if step == 0 then Large else if step == 2 then Small else b.circleSize;
    b.(step := step, phase := PhaseOf(step), circleSize := size, countdown := 3)
  }

  function AfterCountdownTick(b: Breath): Breath
  {
    b.(countdown := NextCount(b.countdown))
  }

  /** `n` phase ticks from `b`. */
  function PhaseTicks(b: Breath, n: nat): Breath
  {
    if n == 0 then b else AfterPhaseTick(PhaseTicks(b, n - 1))
  }

  /** The circle size `n` phase ticks after starting: resting until the first exhale. */
  function SizeAfter(n: nat): string
  {
    if n < 2 then Resting else if n % 4 == 2 || n % 4 == 3 then Small else Large
  }

  /**
   * The display is always consistent: the step is one of four, a running
   * exercise shows the step's label, the countdown is between 1 and 3, and a
   * stopped exercise shows the starting values.
   */
  predicate Consistent(b: Breath)
  {
    && 0 <= b.step < 4
    && (b.running ==> b.phase == PhaseOf(b.step))
    && 1 <= b.countdown <= 3
    && (!b.running ==> b.phase == BreatheIn && b.circleSize == Resting && b.countdown == 3)
    && b.circleSize in {Resting, Large, Small}
  }

  lemma InitialConsistent()
    ensures Consistent(Initial())
  {
  }

  /** The countdown never leaves 1..3, and every value comes back after three ticks. */
  lemma CountdownCycles(c: int)
    requires 1 <= c <= 3
    ensures 1 <= NextCount(c) <= 3
    ensures NextCount(NextCount(NextCount(c))) == c
  {
  }

  /**
   * A phase tick moves to the next of the four steps and resets the
   * countdown; the circle grows on the inhale, shrinks on the exhale, and
   * keeps its size through both holds.
   */
  lemma PhaseTickChangesSizeOnlyOnBreaths(b: Breath)
    requires 0 <= b.step < 4
    ensures 0 <= AfterPhaseTick(b).step < 4 && AfterPhaseTick(b).step == (b.step + 1) % 4
    ensures AfterPhaseTick(b).countdown == 3
    ensures AfterPhaseTick(b).step == 0 ==> AfterPhaseTick(b).circleSize == Large && AfterPhaseTick(b).phase == BreatheIn
    ensures AfterPhaseTick(b).step == 2 ==> AfterPhaseTick(b).circleSize == Small && AfterPhaseTick(b).phase == BreatheOut
    ensures AfterPhaseTick(b).step in {1, 3} ==> AfterPhaseTick(b).circleSize == b.circleSize && AfterPhaseTick(b).phase == Hold
  {
  }

  /** Stopping and starting, and both kinds of tick, keep the display consistent. */
  lemma StepsKeepConsistent(b: Breath)
    requires Consistent(b)
    ensures Consistent(AfterToggle(b))
    ensures b.running ==> Consistent(AfterPhaseTick(b)) && Consistent(AfterCountdownTick(b))
  {
  }

  /**
   * `n` phase ticks after starting, the step is `n` mod 4, the label is that
   * step's, the circle has the size of `SizeAfter(n)` and the countdown has
   * just been reset (from the first tick on).
   */
  lemma {:induction false} CycleAfterStart(b: Breath, n: nat)
    requires !b.running
    ensures PhaseTicks(AfterToggle(b), n).step == n % 4
    ensures PhaseTicks(AfterToggle(b), n).phase == PhaseOf(n % 4)
    ensures PhaseTicks(AfterToggle(b), n).circleSize == SizeAfter(n)
    ensures PhaseTicks(AfterToggle(b), n).countdown == 3 && PhaseTicks(AfterToggle(b), n).running
  {
    if n > 0 {
      CycleAfterStart(b, n - 1);
    }
  }

  /** The cycle has period four: after the first exhale, four ticks bring back the same display. */
  lemma CyclePeriod(b: Breath, n: nat)
    requires !b.running && n >= 2
    ensures PhaseTicks(AfterToggle(b), n + 4) == PhaseTicks(AfterToggle(b), n)
  {
    CycleAfterStart(b, n);
    CycleAfterStart(b, n + 4);
  }

  class Meditation {
    var running: bool
    var phase: string
    var circleSize: string
    var countdown: int
    /** The `step` variable of the running effect's closure. */
    var step: int

    function View(): Breath
      reads this
    {
      Breath(running, step, phase, circleSize, countdown)
    }

    constructor ()
      ensures View() == Initial()
    {
      running := false;
      phase := BreatheIn;
      circleSize := Resting;
      countdown := 3;
      step := 0;
    }

    /** The Start/Stop button, followed by the effect on `running` when it starts the exercise. */
    method Toggle()
      modifies this
      ensures View() == AfterToggle(old(View()))
    {
      running := !running;
      phase := BreatheIn;
      circleSize := Resting;
      countdown := 3;
      if running {
        step := 0;
        circleSize := Resting;
        phase := BreatheIn;
        countdown := 3;
      }
    }

    /** The one-second interval, active while running. */
    method CountdownTick()
      requires running
      modifies this
      ensures View() == AfterCountdownTick(old(View()))
    {
      countdown := if countdown > 1 then countdown - 1 else 3;
    }

    /** The three-second interval, active while running. */
    method PhaseTick()
      requires running
      modifies this
      ensures View() == AfterPhaseTick(old(View()))
    {
      step := (step + 1) % 4;
      if step == 0 {
        phase := BreatheIn;
        circleSize := Large;
      }
      if step == 1 {
        phase := Hold;
      }
      if step == 2 {
        phase := BreatheOut;
        circleSize := Small;
      }
      if step == 3 {
        phase := Hold;
      }
      countdown := 3;
    }
  }
}
