/**
  The countdown timer of the meeting state (server.js, `state.timer`):
  a configured duration, the start time (null while idle) and the speaker
  captured at start.
*/
module Timer {
  import opened Wrappers
  import opened Ledger

  /** The cap on a configured duration: 30 minutes. */
  const MaxDurationMs: nat := 30 * 60 * 1000
  /** The initial duration: 3 minutes. */
  const DefaultDurationMs: nat := 180000

  datatype Speaker = Speaker(id: nat, name: string)

  datatype TimerState = TimerState(durationMs: int, startAt: Option<int>, speaker: Option<Speaker>)

  /** The JavaScript test `t.startAt` (a start time of 0 is falsy). */
  predicate Running(t: TimerState) {
    t.startAt.Some? && t.startAt.value != 0
  }

  /** The timer invariant every action keeps: a positive duration no larger
      than the cap, and a speaker only while a start time is set. */
  predicate TimerOk(t: TimerState) {
    0 < t.durationMs <= MaxDurationMs && (t.speaker.Some? ==> t.startAt.Some?)
  }

  /** The duration check of timer config and start: a missing, non-numeric
      or non-positive duration is refused (None), anything else is capped
      at 30 minutes. */
  function AcceptDuration(d: Option<int>): (r: Option<int>)
    ensures r.Some? <==> d.Some? && d.value > 0
    ensures r.Some? ==> 0 < r.value <= MaxDurationMs
    ensures r.Some? && d.value <= MaxDurationMs ==> r.value == d.value
    ensures r.Some? && d.value > MaxDurationMs ==> r.value == MaxDurationMs
  {
    if d.Some? && d.value > 0 then Some(if d.value < MaxDurationMs then d.value else MaxDurationMs) else None
  }

  /** The milliseconds finalize credits: the elapsed time, clamped to
      [0, durationMs]. */
  function CreditedMs(t: TimerState, now: int): (r: int)
    requires Running(t)
    ensures t.durationMs >= 0 ==> 0 <= r <= t.durationMs
    ensures 0 <= now - t.startAt.value <= t.durationMs ==> r == now - t.startAt.value
    ensures now - t.startAt.value < 0 && t.durationMs >= 0 ==> r == 0
    ensures now - t.startAt.value >= t.durationMs >= 0 ==> r == t.durationMs
  {
    var elapsed := now - t.startAt.value;
    var nonNegative := if elapsed < 0 then 0 else elapsed;
    if nonNegative < t.durationMs then nonNegative else t.durationMs
  }

  /** What finalizing the current speaker does to the ledger: while running
      with a speaker and a non-zero duration, the speaker's name is credited
      with CreditedMs; otherwise the ledger is untouched. */
  function Settle(stats: map<string, Stat>, t: TimerState, now: int): map<string, Stat> {
    if Running(t) && t.speaker.Some? && t.durationMs != 0 then
      Credit(stats, t.speaker.value.name, CreditedMs(t, now))
    else stats
  }

  /** Finalizing credits only the current speaker, by at most the
      configured duration and one session; an idle timer credits nobody. */
  lemma SettleBounded(stats: map<string, Stat>, t: TimerState, now: int, name: string)
    requires TimerOk(t)
    ensures TotalMs(stats, name) <= TotalMs(Settle(stats, t, now), name) <= TotalMs(stats, name) + t.durationMs
    ensures Sessions(stats, name) <= Sessions(Settle(stats, t, now), name) <= Sessions(stats, name) + 1
    ensures (!Running(t) || t.speaker.None? || t.speaker.value.name != name) ==>
      TotalMs(Settle(stats, t, now), name) == TotalMs(stats, name) && Sessions(Settle(stats, t, now), name) == Sessions(stats, name)
    ensures !Running(t) ==> Settle(stats, t, now) == stats
  {
  }

  /** Finalizing keeps the ledger bounded by the duration cap. */
  lemma SettleKeepsBounded(stats: map<string, Stat>, t: TimerState, now: int)
    requires TimerOk(t) && Bounded(stats, MaxDurationMs)
    ensures Bounded(Settle(stats, t, now), MaxDurationMs)
  {
    if Running(t) && t.speaker.Some? {
      CreditKeepsBounded(stats, t.speaker.value.name, CreditedMs(t, now), MaxDurationMs);
    }
  }

  /** The timer after finalize: idle, with no speaker, same duration. */
  function Stopped(t: TimerState): (r: TimerState)
    ensures r.startAt.None? && r.speaker.None? && r.durationMs == t.durationMs
  {
    t.(startAt := None, speaker := None)
  }

  /** The timer after start or reset: counting from `now` for `head`. */
  function Restarted(t: TimerState, head: Option<Speaker>, now: int): (r: TimerState)
    ensures r.startAt == Some(now) && r.speaker == head && r.durationMs == t.durationMs
  {
    t.(startAt := Some(now), speaker := head)
  }
}
