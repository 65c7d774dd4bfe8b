/**
 * The running program of pomodoro/main.py as an object: the module-level
 * `reps` and `timer` and the three widget texts become fields, and
 * `start_timer`, `count_down` and `reset_timer` become methods that update
 * them in place.  Each method is specified by the matching step function of
 * the Session module.  The constructor, `Reset`, `StartTimer` and `Tick` keep
 * `Valid`; `CountDown` is the internal step that `StartTimer` and `Tick` share,
 * and on its own it passes through states that are not `Valid`.
 */
module Pomodoro {
  import opened Wrappers
  import opened Intervals
  import Display
  import Session

  class Timer {
    var reps: nat
    /** The scheduled `count_down` callback, by the count it carries. */
    var pending: Option<nat>
    /** The canvas text. */
    var display: string
    /** The text and colour of `timer_label`. */
    var caption: string
    var colour: Colour
    /** The text of `checkmark_label`. */
    var tally: string

    function Snapshot(): Session.State
      reads this
    {
      Session.State(reps, pending, display, caption, colour, tally)
    }

    ghost predicate Valid()
      reads this
    {
      Session.Valid(Snapshot())
    }

    /** The widgets as created at start-up, with no countdown scheduled. */
    constructor ()
      ensures Snapshot() == Session.Idle() && Valid()
    {
      reps := 0;
      pending := None;
      display := "00:00";
      caption := "Timer";
      colour := Green;
      tally := "";
    }

    /** `reset_timer`: from any state, back to the idle state. */
    method Reset()
      modifies this
      ensures Snapshot() == Session.ResetStep(old(Snapshot()))
      ensures Snapshot() == Session.Idle() && Valid()
    {
      pending := None;
      reps := 0;
      caption, colour := "Timer", Green;
      tally := "";
      display := "00:00";
    }

    /** `start_timer`; pressing Start is modelled only while no countdown is pending. */
    method StartTimer()
      requires pending.None?
      modifies this
      ensures Snapshot() == Session.StartTimer(old(Snapshot()))
      ensures old(Valid()) ==> Valid()
      decreases 1
    {
      ghost var before := Snapshot();
      reps := reps + 1;
      var iv := SelectInterval(reps);
      CountDown(iv.duration);
      caption, colour := iv.caption, iv.colour;
      if Session.Valid(before) {
        Session.StartFromIdle(before);
      }
    }

    /** `count_down(count)`, entered with no callback pending. */
    method CountDown(count: nat)
      requires pending.None?
      modifies this
      ensures Snapshot() == Session.CountDown(old(Snapshot()), count)
      decreases if count == 0 then 2 else 0
    {
      display := Display.FormatTime(count);
      if count > 0 {
        pending := Some(count - 1);
      } else {
        tally := Checkmarks(CeilHalf(reps));
        StartTimer();
      }
    }

    /** The event loop fires the pending callback. */
    method Tick()
      requires pending.Some?
      modifies this
      ensures Snapshot() == Session.TickStep(old(Snapshot()))
      ensures old(Valid()) ==> Valid() && reps >= old(reps)
    {
      ghost var before := Snapshot();
      var count := pending.value;
      pending := None;
      CountDown(count);
      if Session.Valid(before) {
        Session.TickPreservesValid(before);
      }
    }
  }
}
