/**
  The countdown both browser scripts derive from a timer snapshot: the
  remaining time is never stored, only recomputed from the duration, the
  start time and the local clock.
*/
module Countdown {
  import opened Wrappers
  import opened Timer
  import opened Clock

  /** `t.startAt ? Math.max(0, t.durationMs - (now - t.startAt)) : t.durationMs` */
  function Remaining(t: TimerState, now: int): (r: int)
    ensures Running(t) ==> r >= 0
    ensures !Running(t) ==> r == t.durationMs
    ensures Running(t) && t.durationMs - (now - t.startAt.value) >= 0 ==> r == t.durationMs - (now - t.startAt.value)
    ensures Running(t) && t.durationMs - (now - t.startAt.value) < 0 ==> r == 0
    ensures Running(t) && now >= t.startAt.value && t.durationMs >= 0 ==> r <= t.durationMs
  {
    if Running(t) then
      var left := t.durationMs - (now - t.startAt.value);
      if left < 0 then 0 else left
    else t.durationMs
  }

  /** The server's credit for a turn and the viewers' remaining time split
      the duration between them: once the turn has started, what has been
      earned plus what is left is always the configured duration. */
  lemma CreditPlusRemaining(t: TimerState, now: int)
    requires Running(t) && now >= t.startAt.value && t.durationMs >= 0
    ensures CreditedMs(t, now) + Remaining(t, now) == t.durationMs
  {
  }

  /** Three worked values: 200 s into a 180 s turn, 50 s into it, and idle. */
  lemma RemainingExamples(start: int, now: int)
    requires start != 0
    ensures Remaining(TimerState(180000, Some(start), None), start + 200000) == 0
    ensures Remaining(TimerState(180000, Some(start), None), start + 50000) == 130000
    ensures Remaining(TimerState(180000, None, None), now) == 180000
  {
  }

  /** What the viewer page shows for the countdown: its text and whether it
      is drawn in the danger colour. */
  datatype Display = Display(text: string, danger: bool)

  /** The countdown block of the viewer's render (client.js). It agrees
      with Remaining, and the danger colour is used exactly when a running
      timer has reached zero; an idle timer is always drawn normally. */
  function ClientCountdown(t: TimerState, now: int): (d: Display)
    ensures d.text == MsToClock(Remaining(t, now))
    ensures d.danger <==> Running(t) && Remaining(t, now) == 0
    ensures !Running(t) ==> !d.danger
  {
    if Running(t) then
      var elapsed := now - t.startAt.value;
      var left := t.durationMs - elapsed;
      var remaining := if left < 0 then 0 else left;
      Display(MsToClock(remaining), remaining == 0)
    else
      Display(MsToClock(t.durationMs), false)
  }
}
