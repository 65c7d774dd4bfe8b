/**
 * The session state machine of pomodoro/main.py as values: the globals `reps`
 * and `timer` together with the texts and colour the widgets show.  The step
 * functions mirror `start_timer`, `count_down` (the firing of the one pending
 * `window.after` callback) and `reset_timer`; the class in timer.dfy is
 * specified by them.
 */
module Session {
  import opened Wrappers
  import opened Display
  import opened Intervals
  import opened Iteration

  /**
   * One moment of the session.  `pending` is the callback scheduled by
   * `window.after`, represented by the count it will be called with; `None`
   * when nothing is scheduled.
   */
  datatype State = State(
    reps: nat,
    pending: Option<nat>,
    display: string,
    caption: string,
    colour: Colour,
    tally: string)

  /** The state at start-up (pomodoro/main.py:23-25, 90, 93, 96). */
  function Idle(): State {
    State(0, None, "00:00", "Timer", Green, "")
  }

  /** `reset_timer`: cancelling the pending tick clears it; everything visible returns to idle. */
  function ResetStep(s: State): (r: State)
    ensures r == Idle()
  {
    s.(pending := None, reps := 0, caption := "Timer", colour := Green, tally := "", display := "00:00")
  }

  /** `start_timer`: count one more repetition, count down its interval, then set the label. */
  function StartTimer(s: State): (r: State)
    requires s.pending.None?
    ensures r.reps == s.reps + 1 && r.tally == s.tally
    ensures r.pending == Some(SelectInterval(r.reps).duration - 1)
    ensures r.display == FormatTime(SelectInterval(r.reps).duration)
    ensures r.caption == SelectInterval(r.reps).caption && r.colour == SelectInterval(r.reps).colour
    decreases 1
  {
    var reps := s.reps + 1;
    var iv := SelectInterval(reps);
    CountDown(s.(reps := reps), iv.duration).(caption := iv.caption, colour := iv.colour)
  }

  /**
   * `count_down(count)`: show `count`; above zero schedule `count - 1`,
   * at zero write the tally and start the next interval at once.
   */
  function CountDown(s: State, count: nat): (r: State)
    requires s.pending.None?
    ensures count > 0 ==> r == s.(display := FormatTime(count), pending := Some(count - 1))
    ensures count == 0 ==> r.reps == s.reps + 1 && r.tally == Checkmarks(CeilHalf(s.reps))
    ensures count == 0 ==> r.pending == Some(SelectInterval(r.reps).duration - 1)
    ensures count == 0 ==> r.display == FormatTime(SelectInterval(r.reps).duration)
    ensures count == 0 ==> r.caption == SelectInterval(r.reps).caption && r.colour == SelectInterval(r.reps).colour
    decreases if count == 0 then 2 else 0
  {
    var shown := s.(display := FormatTime(count));
    if count > 0 then shown.(pending := Some(count - 1))
    else StartTimer(shown.(tally := Checkmarks(CeilHalf(s.reps))))
  }

  /** The pending callback fires: its handle is spent and `count_down` runs with its count. */
  function TickStep(s: State): (r: State)
    requires s.pending.Some?
    ensures s.pending.value > 0 ==> r == s.(display := FormatTime(s.pending.value), pending := Some(s.pending.value - 1))
    ensures s.pending.value == 0 ==> r == IntervalStart(s.reps + 1)
  {
    CountDown(s.(pending := None), s.pending.value)
  }

  /** The event loop fires the pending callback, if there is one. */
  function Fire(s: State): State {
    if s.pending.Some? then TickStep(s) else s
  }

  /** `n` seconds of the event loop: `n` firings of the pending callback. */
  function TickN(s: State, n: nat): State {
    Iterate(Fire, s, n)
  }

  /** The state right after interval `reps` has started. */
  function IntervalStart(reps: nat): State
    requires reps >= 1
  {
    var iv := SelectInterval(reps);
    State(reps, Some(iv.duration - 1), FormatTime(iv.duration), iv.caption, iv.colour,
          Checkmarks(CeilHalf(reps - 1)))
  }

  /**
   * The states the session can be in between events: idle with everything
   * reset, or running interval `reps` with a count below its duration
   * pending, the count above it on display, the interval's label and the
   * tally written when the previous interval ended.
   */
  predicate Valid(s: State) {
    if s.reps == 0 then s == Idle()
    else
      var iv := SelectInterval(s.reps);
      s.pending.Some? && s.pending.value < iv.duration
      && s.display == FormatTime(s.pending.value + 1)
      && s.caption == iv.caption && s.colour == iv.colour
      && s.tally == Checkmarks(CeilHalf(s.reps - 1))
  }

  /** The length of interval `reps`, in seconds; a named `nat -> nat` to hand to `Iteration.Chain`. */
  function IntervalLength(reps: nat): nat {
    SelectInterval(reps).duration
  }

  /** The state at the start of interval `reps`; idle before the first.  Total on `nat`, to hand to `Iteration.Chain`. */
  function StartOf(reps: nat): State {
    if reps == 0 then Idle() else IntervalStart(reps)
  }

  lemma IdleIsValid()
    ensures Valid(Idle())
  {
  }

  /** A reset leads to the valid idle state from anywhere, and a second reset changes nothing. */
  lemma ResetIdempotent(s: State)
    ensures Valid(ResetStep(s)) && ResetStep(ResetStep(s)) == ResetStep(s)
  {
  }

  /** Pressing Start is possible only when idle, and it starts the first interval validly. */
  lemma StartFromIdle(s: State)
    requires Valid(s) && s.pending.None?
    ensures s == Idle()
    ensures StartTimer(s).reps == 1 && StartTimer(s) == IntervalStart(s.reps + 1)
    ensures Valid(StartTimer(s))
  {
  }

  /** Scenario: Start from idle gives a work interval counting down from 25:00. */
  lemma FirstStart(s: State)
    requires Valid(s) && s.pending.None?
    ensures SelectInterval(1).kind == Work
    ensures StartTimer(s) == State(1, Some(1499), "25:00", "Work", Red, "")
  {
    StartFromIdle(s);
    DurationTexts();
  }

  lemma IntervalStartIsValid(reps: nat)
    requires reps >= 1
    ensures Valid(IntervalStart(reps))
  {
  }

  /** A tick above zero shows its count, keeps the counter and leaves one less pending. */
  lemma TickWhileRunning(s: State)
    requires Valid(s) && s.pending.Some? && s.pending.value > 0
    ensures TickStep(s).reps == s.reps && TickStep(s).tally == s.tally
    ensures TickStep(s).caption == s.caption && TickStep(s).colour == s.colour
    ensures TickStep(s).display == FormatTime(s.pending.value)
    ensures TickStep(s).pending == Some(s.pending.value - 1)
  {
  }

  /** A tick at zero writes the tally and starts the next interval without idling. */
  lemma TickAtZero(s: State)
    requires Valid(s) && s.pending == Some(0)
    ensures TickStep(s) == IntervalStart(s.reps + 1)
    ensures TickStep(s).tally == Checkmarks(CeilHalf(s.reps))
  {
  }

  /** Every tick keeps the session in a valid state, and the counter never goes down. */
  lemma TickPreservesValid(s: State)
    requires Valid(s) && s.pending.Some?
    ensures Valid(TickStep(s)) && TickStep(s).reps >= s.reps
  {
    if s.pending.value == 0 {
      TickAtZero(s);
      IntervalStartIsValid(s.reps + 1);
    }
  }

  /** Running a valid interval to its end (pending count + 1 ticks) starts the next one. */
  lemma {:induction false} IntervalRunsToEnd(s: State)
    requires Valid(s) && s.pending.Some?
    ensures TickN(s, s.pending.value + 1) == IntervalStart(s.reps + 1)
    decreases s.pending.value
  {
    var k := s.pending.value;
    var t := TickStep(s);
    TickNUnfold(s, k + 1);
    if k == 0 {
      TickAtZero(s);
    } else {
      TickWhileRunning(s);
      TickPreservesValid(s);
      IntervalRunsToEnd(t);
    }
  }

  lemma TickNUnfold(s: State, n: nat)
    requires s.pending.Some? && n > 0
    ensures TickN(s, n) == TickN(TickStep(s), n - 1)
  {
  }

  /** After Start, interval `reps` begins exactly when the earlier ones have counted down. */
  lemma RunFromStart(idle: State, reps: nat)
    requires Valid(idle) && idle.pending.None? && reps >= 1
    ensures TickN(StartTimer(idle), SpanOf(IntervalLength, 1, reps - 1)) == IntervalStart(reps)
  {
    StartFromIdle(idle);
    RunBetween(idle.reps + 1, reps - 1);
  }

  /** From the start of interval `first`, `k` intervals' worth of ticks reach interval `first + k`. */
  lemma RunBetween(first: nat, k: nat)
    requires first >= 1
    ensures TickN(IntervalStart(first), SpanOf(IntervalLength, first, k)) == IntervalStart(first + k)
  {
    EveryIntervalEnds();
    Chain(Fire, StartOf, IntervalLength, StartOf(first), 0, first, k);
  }

  /** Each interval, counted down from its start, ends at the start of the next. */
  lemma EveryIntervalEnds()
    ensures forall r: nat {:trigger Iterate(Fire, StartOf(r), IntervalLength(r))} ::
      r >= 1 ==> Iterate(Fire, StartOf(r), IntervalLength(r)) == StartOf(r + 1)
  {
    forall r: nat | r >= 1
      ensures Iterate(Fire, StartOf(r), IntervalLength(r)) == StartOf(r + 1)
    {
      IntervalToNext(r);
    }
  }

  /** From the start of any interval, counting it down to the end starts the next one. */
  lemma IntervalToNext(reps: nat)
    requires reps >= 1
    ensures TickN(IntervalStart(reps), SelectInterval(reps).duration) == IntervalStart(reps + 1)
  {
    IntervalStartIsValid(reps);
    IntervalRunsToEnd(IntervalStart(reps));
  }

  /** Start-up time of the second and the eighth interval. */
  lemma IntervalSpans()
    ensures SpanOf(IntervalLength, 1, 1) == 1500 && SpanOf(IntervalLength, 1, 7) == 6900
  {
  }

  /** The second interval: one checkmark, then a short break from 5:00. */
  lemma SecondIntervalStart()
    ensures SelectInterval(2).kind == ShortBreak
    ensures IntervalStart(2) == State(2, Some(299), "5:00", "Break", Pink, Checkmarks(1))
  {
    DurationTexts();
  }

  /** The eighth interval: four checkmarks, then the long break from 20:00. */
  lemma EighthIntervalStart()
    ensures SelectInterval(8).kind == LongBreak
    ensures IntervalStart(8) == State(8, Some(1199), "20:00", "Break", Green, Checkmarks(4))
  {
    DurationTexts();
  }

  /** Scenario: the first work interval counts down, then the short break starts. */
  lemma FirstWorkCompletes(idle: State)
    requires Valid(idle) && idle.pending.None?
    ensures TickN(StartTimer(idle), 1500) == State(2, Some(299), "5:00", "Break", Pink, Checkmarks(1))
  {
    RunFromStart(idle, 2);
    IntervalSpans();
    SecondIntervalStart();
  }

  /** Scenario: 6900 seconds after Start the eighth interval, the long break, begins. */
  lemma EighthIsLongBreak(idle: State)
    requires Valid(idle) && idle.pending.None?
    ensures TickN(StartTimer(idle), 6900) == State(8, Some(1199), "20:00", "Break", Green, Checkmarks(4))
  {
    RunFromStart(idle, 8);
    IntervalSpans();
    EighthIntervalStart();
  }
}
