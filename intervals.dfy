/**
 * Interval selection of `start_timer` (pomodoro/main.py:42-55) and the
 * checkmark tally of `count_down` (pomodoro/main.py:77), both pure functions
 * of the repetition counter `reps`.
 */
module Intervals {

  const WorkMin: nat := 25
  const ShortBreakMin: nat := 5
  const LongBreakMin: nat := 20

  /** The checkmark glyph U+2714 that the tally repeats. */
  const CheckMark: char := '\U{2714}'

  /** Colours as abstract tags: the hex values are presentation only. */
  datatype Colour = Red | Pink | Green

  datatype Kind = Work | ShortBreak | LongBreak

  /** What `start_timer` derives from the counter: kind, countdown length and label. */
  datatype Interval = Interval(kind: Kind, duration: nat, caption: string, colour: Colour)

  /** The fixed length of each kind of interval, in seconds. */
  function KindDuration(k: Kind): nat {
    match k
    case Work => 1500
    case ShortBreak => 300
    case LongBreak => 1200
  }

  /** The interval started once the counter has been incremented to `reps`. */
  function SelectInterval(reps: nat): (iv: Interval)
    ensures iv.kind == Work <==> reps % 2 == 1
    ensures iv.kind == LongBreak <==> reps == 8
    ensures iv.kind == ShortBreak <==> reps % 2 == 0 && reps != 8
    ensures iv.duration == KindDuration(iv.kind) && iv.duration > 0
    ensures iv.caption == (if iv.kind == Work then "Work" else "Break")
    ensures iv.colour == (match iv.kind case Work => Red case LongBreak => Green case ShortBreak => Pink)
  {
    if reps % 2 == 1 then Interval(Work, WorkMin * 60, "Work", Red)
    else if reps == 8 then Interval(LongBreak, LongBreakMin * 60, "Break", Green)
    else Interval(ShortBreak, 60 * ShortBreakMin, "Break", Pink)
  }

  /** `math.ceil(reps / 2)`: the number of checkmarks written when interval `reps` ends. */
  function CeilHalf(reps: nat): (c: nat)
    ensures reps <= 2 * c < reps + 2
  {
    (reps + 1) / 2
  }

  /** `checkmark * n`. */
  function Checkmarks(n: nat): (t: string)
    ensures |t| == n && forall i :: 0 <= i < n ==> t[i] == CheckMark
  {
    seq(n, _ => CheckMark)
  }

  /** Reference count: how many of the intervals 1..reps are work intervals. */
  function WorkCount(reps: nat): nat {
    if reps == 0 then 0
    else WorkCount(reps - 1) + (if SelectInterval(reps).kind == Work then 1 else 0)
  }

  /** Reference count: how many of the intervals 1..reps are long breaks. */
  function LongBreakCount(reps: nat): nat {
    if reps == 0 then 0
    else LongBreakCount(reps - 1) + (if SelectInterval(reps).kind == LongBreak then 1 else 0)
  }

  /** The tally written after interval `reps` counts exactly the work intervals so far. */
  lemma {:induction false} TallyCountsWork(reps: nat)
    ensures CeilHalf(reps) == WorkCount(reps)
  {
    if reps > 0 {
      TallyCountsWork(reps - 1);
    }
  }

  /** Between two resets the long break happens once, at interval 8, and never again. */
  lemma {:induction false} LongBreakAtMostOnce(reps: nat)
    ensures LongBreakCount(reps) == if reps >= 8 then 1 else 0
  {
    if reps > 0 {
      LongBreakAtMostOnce(reps - 1);
    }
  }

  /** Every interval length is one of the three constants. */
  lemma DurationIsAConstant(reps: nat)
    ensures SelectInterval(reps).duration in {WorkMin * 60, ShortBreakMin * 60, LongBreakMin * 60}
  {
  }

  /** The counter of 16 does not give a second long break. */
  lemma SixteenIsShortBreak()
    ensures SelectInterval(16).kind == ShortBreak && SelectInterval(16).duration == 300
  {
  }
}
