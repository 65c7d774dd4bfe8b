# Pomodoro timer: the interval state machine

This project models the timer logic of `pomodoro/main.py`, a desktop Pomodoro
timer, and proves properties of it in Dafny. Pressing Start increments the
repetition counter `reps`. The new value picks the next interval: odd values
give a 25-minute work interval, 8 gives a 20-minute long break, and every
other even value gives a 5-minute short break. A chain of one-second callbacks
counts the interval down, showing the time left as `minutes:ss`. At zero the
checkmark tally is rewritten and the next interval starts at once. Reset
cancels the pending callback and restores the idle display.

Files:

- `wrappers.dfy`: the `Option` type used for the pending callback.
- `display.dfy` (module `Display`): `FormatTime`, the text `count_down`
  draws, built from `Decimal` (Python's `str` of a non-negative integer) and
  `SecondsField` (the padded seconds). `ParseTime` reads that text back. It is
  the inverse used by the round-trip lemma.
- `intervals.dfy` (module `Intervals`): the constants, `SelectInterval`, the
  tally length `CeilHalf` (`math.ceil(reps/2)`) and `Checkmarks`. It also has
  two reference counts, `WorkCount` and `LongBreakCount`, which the lemmas
  relate to the tally and to the long-break rule.
- `iteration.dfy` (module `Iteration`): repeating a step `n` times, and
  chaining runs of phases whose lengths add up.
- `session.dfy` (module `Session`): the whole observable state as a value
  `State`, made of `reps`, the pending callback, the canvas text, the label
  text and colour, and the tally. Its step functions mirror the source:
  `StartTimer` and `CountDown` are mutually recursive, as `start_timer` and
  `count_down` are; `TickStep` is the event loop firing the pending
  callback; `ResetStep` is `reset_timer`. `Valid` is the invariant of every
  state between events. The run lemmas drive whole intervals to their end.
- `timer.dfy` (module `Pomodoro`): class `Timer`, whose fields the methods
  update in place. Each method's `ensures` equates the new `Snapshot()` with
  the matching step function applied to the old one. The constructor,
  `Reset`, `StartTimer` and `Tick` keep `Valid()`. `CountDown` is the internal
  step that `StartTimer` and `Tick` share; on its own it passes through states
  that are not `Valid()`, so it promises only its snapshot equation.

The pending callback `timer = window.after(1000, count_down, count - 1)` is
represented by the count it will be called with; `None` means nothing is
scheduled. In every state between events a running interval shows
`FormatTime(pending + 1)`. The text `0:00` is written when a countdown ends,
but the next interval overwrites it straight away.

Three points where the code may not behave as one would expect. The model
follows the code in each:

- The long break's label is coloured `GREEN` (pomodoro/main.py:52). That is
  the same colour as the idle "Timer" label (line 35). So idle, work, short
  break and long break do not each have a colour of their own.
- `start_timer` calls `count_down` before it sets the label
  (lines 48-49, 51-52, 54-55). `Session.StartTimer` keeps that order. The order
  is not observable, because every interval length is positive.
- `reset_timer` passes `timer` straight to `after_cancel`, even while it is
  still `None` at start-up (lines 25, 33). The model takes cancelling to mean
  clearing the pending callback, and cancelling nothing to be a no-op. This is
  an assumption about the GUI toolkit. The source does not show it.

## Model

| member | source | states |
|---|---|---|
| Intervals.SelectInterval | pomodoro/main.py:47-55 | work iff `reps` is odd; long break iff `reps == 8`; short break iff even and not 8; the duration is the kind's fixed length (1500/1200/300) and positive; the label is "Work" or "Break"; the colour is red for work, green for the long break, pink for the short break |
| Intervals.DurationIsAConstant | pomodoro/main.py:20-22 | every selected duration is one of `WORK_MIN*60`, `SHORT_BREAK_MIN*60`, `LONG_BREAK_MIN*60` |
| Intervals.SixteenIsShortBreak | pomodoro/main.py:50 | `reps == 16` gives a 300-second short break, not a long one |
| Intervals.LongBreakAtMostOnce | pomodoro/main.py:50-52 | among intervals 1..reps there is at most one long break, and it is interval 8 |
| Intervals.CeilHalf | pomodoro/main.py:77 | the tally length `c` is the ceiling of `reps/2`: `reps <= 2c < reps + 2` |
| Intervals.Checkmarks | pomodoro/main.py:77 | the tally text is exactly `n` checkmark glyphs |
| Intervals.TallyCountsWork | pomodoro/main.py:77 | the tally written after interval `reps` equals the number of work intervals among 1..reps |
| Display.DecimalShape | pomodoro/main.py:72 | the minutes text is non-empty and all digits, with no leading zero unless the value is 0 |
| Display.Decimal | pomodoro/main.py:72 | Python's `str` of the minutes; its specification is carried by `DecimalShape` (digits, no leading zero) and `DecimalRoundTrip` (reads back as the number) |
| Display.SecondsField | pomodoro/main.py:67-71 | the padded seconds text; its specification is carried by `SecondsFieldShape` (two digits holding the seconds) |
| Display.FormatTime | pomodoro/main.py:66-72 | the canvas text for a count; its specification is carried by `FormatTimeFields` (minutes, colon, two-digit seconds) and `FormatTimeRoundTrip` (the inverse `ParseTime` recovers the count) |
| Display.SecondsFieldShape | pomodoro/main.py:67-71 | the seconds text is exactly two digits and reads back as `count % 60` |
| Display.FormatTimeFields | pomodoro/main.py:66-72 | the display is the unpadded decimal of `count / 60`, then a colon, then two digits holding `count % 60` |
| Display.DecimalRoundTrip | pomodoro/main.py:72 | reading the decimal minutes text back gives the number |
| Display.FormatTimeRoundTrip | pomodoro/main.py:66-72 | `ParseTime(FormatTime(c)) == Some(c)`: minutes*60 + seconds recovers the count |
| Display.FormatTimeInjective | pomodoro/main.py:66-72 | two different counts never show the same text |
| Display.DurationTexts | pomodoro/main.py:48-54 | the three interval lengths show as "25:00", "20:00" and "5:00" |
| Display.FormatTimeExamples | pomodoro/main.py:66-72 | 1500 → "25:00", 599 → "9:59", 65 → "1:05", 0 → "0:00" |
| Display.ResetTextIsNotFormatted | pomodoro/main.py:37 | the reset text "00:00" differs from `FormatTime(0)`, but it reads back as 0 |
| Session.Idle | pomodoro/main.py:23-25 | the start-up state: reps 0, no callback, "00:00", "Timer"/green, empty tally (the widget texts of lines 90, 93 and 96); `IdleIsValid` and `ResetStep` state what it means |
| Session.ResetStep | pomodoro/main.py:29-37 | from any state the result is the idle state: reps 0, nothing pending, "Timer"/green, empty tally, "00:00" |
| Session.ResetIdempotent | pomodoro/main.py:29-37 | a reset yields a valid state, and resetting twice equals resetting once |
| Session.IdleIsValid | pomodoro/main.py:23-25 | the start-up state satisfies the session invariant |
| Session.StartTimer | pomodoro/main.py:42-55 | reps grows by exactly one; the duration of the interval the counter selects is shown and its duration−1 is pending; its label and colour are set; the tally is unchanged |
| Session.CountDown | pomodoro/main.py:60-78 | above zero: show the count, schedule count−1, change nothing else; at zero: write `ceil(reps/2)` checkmarks, increment reps, show and schedule the next interval's countdown, and set its label and colour |
| Session.TickStep | pomodoro/main.py:75 | the pending callback fires: above zero the display shows its count and count−1 is pending, nothing else changes; at zero the result is exactly the start of interval reps+1. `TickWhileRunning`, `TickAtZero` and `TickPreservesValid` relate it to the invariant |
| Session.Fire | pomodoro/main.py:75 | one turn of the event loop: the pending callback fires if there is one; the run lemmas (`IntervalRunsToEnd`, `RunBetween`) carry its specification |
| Session.StartFromIdle | pomodoro/main.py:42-55 | Start with nothing pending happens only in the idle state; it lands at the start of interval 1 in a valid state |
| Session.FirstStart | pomodoro/main.py:46-49 | after Start from idle: reps 1, a work interval, 1499 pending, "25:00", label "Work"/red, empty tally |
| Session.IntervalStartIsValid | pomodoro/main.py:42-55 | the state at the start of any interval satisfies the invariant |
| Session.TickWhileRunning | pomodoro/main.py:72-75 | a tick above zero shows its count, leaves exactly one less pending, and keeps reps, label and tally |
| Session.TickAtZero | pomodoro/main.py:76-78 | a tick at zero writes `ceil(reps/2)` checkmarks and lands at the start of interval reps+1, with no idle state in between |
| Session.TickPreservesValid | pomodoro/main.py:60-78 | every tick keeps the invariant (pending count below the interval's duration, display and label consistent) and never lowers reps |
| Session.IntervalRunsToEnd | pomodoro/main.py:60-78 | from any valid running state, pending+1 ticks reach exactly the start of the next interval |
| Session.IntervalToNext | pomodoro/main.py:60-78 | from the start of interval `r`, `r`'s duration in ticks reaches the start of interval `r + 1` |
| Session.RunBetween | pomodoro/main.py:42-78 | from the start of interval `first`, the summed durations of the next `k` intervals reach the start of interval `first + k` |
| Session.RunFromStart | pomodoro/main.py:42-78 | after Start, the summed durations of intervals 1..r−1 in ticks reach exactly the start of interval `r` |
| Session.FirstWorkCompletes | pomodoro/main.py:76-78 | 1500 ticks after Start: reps 2, one checkmark, a short break from "5:00" with 299 pending |
| Session.EighthIsLongBreak | pomodoro/main.py:50-52 | 6900 ticks after Start: interval 8, a long break from "20:00", four checkmarks |
| Pomodoro.Timer.constructor | pomodoro/main.py:23-25 | the initial fields are the idle state, which is valid |
| Pomodoro.Timer.Reset | pomodoro/main.py:29-37 | the new fields are `ResetStep` of the old, i.e. the idle state, which is valid |
| Pomodoro.Timer.StartTimer | pomodoro/main.py:42-55 | the new fields are `Session.StartTimer` of the old; validity is kept |
| Pomodoro.Timer.CountDown | pomodoro/main.py:60-78 | the new fields are `Session.CountDown` of the old ones and the count |
| Pomodoro.Timer.Tick | pomodoro/main.py:73-75 | firing the pending callback gives `TickStep` of the old fields; validity is kept and reps does not decrease |

## Left out

- Window and widget construction, layout, fonts and the event loop (pomodoro/main.py:83-105): GUI plumbing. The widgets' initial texts appear as the idle state.
- The image asset load (pomodoro/main.py:88): start-up I/O.
- The 1000 ms delay of `window.after` (pomodoro/main.py:75): there is no time in the model; one `Tick` fires the single pending callback.
- The behaviour of `after_cancel`: modelled as clearing the pending callback, a no-op when none is pending. This is an assumption, not shown by the source.
- Pomodoro.Timer.StartTimer, Session.StartTimer and Session.CountDown: require that no callback is pending. The source lets Start be pressed during a countdown, which leaves the old callback chain running beside the new one. The model does not capture these interleaved chains.
- Colour hex values (pomodoro/main.py:15-18): colours are the tags Red, Pink and Green.
- `math.floor(count/60)` and `math.ceil(reps/2)` divide in floating point. The model uses exact integer arithmetic, which agrees for every count and counter of realistic size.
