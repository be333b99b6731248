/**
  The admin page (public/admin.js): the duration it asks the server for,
  the figures it shows and the numbered queue list.
*/
module Admin {
  import opened Wrappers
  import opened Text
  import opened Timer
  import opened Clock
  import opened Countdown
  import opened Server

  /** `Math.max(10, Math.min(1800, Number(v) || 0))`: the seconds typed in
      the duration field, clamped to [10, 1800]; a non-numeric (None) or
      zero entry becomes 10. */
  function ClampSeconds(v: Option<int>): (r: int)
    ensures 10 <= r <= 1800
    ensures v.Some? && 10 <= v.value <= 1800 ==> r == v.value
    ensures v.None? || v.value < 10 ==> r == 10
    ensures v.Some? && v.value > 1800 ==> r == 1800
  {
    var n := if v.Some? then v.value else 0;
    var capped := if n < 1800 then n else 1800;
    if capped > 10 then capped else 10
  }

  /** The durationMs the apply and start buttons send. */
  function RequestedDurationMs(v: Option<int>): (r: int)
    ensures 10000 <= r <= MaxDurationMs && r % 1000 == 0
  {
    ClampSeconds(v) * 1000
  }

  /** Whatever is typed, the requested duration passes the server's check
      and its 30-minute cap unchanged. */
  lemma RequestAccepted(v: Option<int>)
    ensures AcceptDuration(Some(RequestedDurationMs(v))) == Some(RequestedDurationMs(v))
  {
  }

  /** The duration field shows Math.floor(durationMs / 1000). */
  function DurationField(durationMs: int): (r: int)
    ensures r * 1000 <= durationMs < r * 1000 + 1000
    ensures durationMs >= 0 ==> r >= 0
  {
    durationMs / 1000
  }

  /** Applying the displayed field without editing it asks for the current
      duration again, for any duration in whole seconds between 10 s and
      30 min. */
  lemma {:induction false} DurationFieldRoundTrip(durationMs: int)
    requires 10000 <= durationMs <= MaxDurationMs && durationMs % 1000 == 0
    ensures RequestedDurationMs(Some(DurationField(durationMs))) == durationMs
  {
    assert durationMs == DurationField(durationMs) * 1000 + durationMs % 1000;
  }

  /** adminHeaders: the trimmed secret field becomes the x-admin-secret
      header, and no header at all when it is blank. */
  function AdminCredential(typed: string): (c: Credential)
    ensures c.query.None?
    ensures c.header.None? <==> Trim(typed) == ""
    ensures c.header.Some? ==> c.header.value == Trim(typed)
  {
    var secret := Trim(typed);
    Credential(if secret != "" then Some(secret) else None, None)
  }

  /** The page's requests are admitted exactly when the typed secret, once
      trimmed, is the server's non-empty secret. */
  lemma AdminCredentialAdmits(typed: string, secret: string)
    ensures IsAdmin(AdminCredential(typed), secret) <==> secret != "" && Trim(typed) == secret
  {
  }

  /** The text of the queue item at 1-based position `k`; `when` stands for
      the browser's time-of-day formatting of the join time. */
  function Label(e: Entry, k: nat, when: int -> string): string {
    "#" + NatToString(k) + " " + e.name + " \U{2022} " + when(e.joinedAt)
  }

  /** A label starts with "#", its number and a space, and the number reads
      back as the position. */
  lemma LabelNumber(e: Entry, k: nat, when: int -> string)
    ensures var l := Label(e, k, when); var n := |NatToString(k)|;
      && |l| > n + 1 && l[0] == '#' && l[n + 1] == ' '
      && AllDigits(l[1..n + 1]) && ParseNat(l[1..n + 1]) == k
  {
    var l := Label(e, k, when);
    var n := |NatToString(k)|;
    assert l[1..n + 1] == NatToString(k);
    ParseNatToString(k);
  }

  /** The forEach of render: one label per entry, in queue order, numbered
      #1 to #n. */
  method RenderLabels(q: seq<Entry>, when: int -> string) returns (labels: seq<string>)
    ensures |labels| == |q|
    ensures forall k :: 0 <= k < |q| ==> labels[k] == Label(q[k], k + 1, when)
  {
    labels := [];
    for i := 0 to |q|
      invariant |labels| == i
      invariant forall k :: 0 <= k < i ==> labels[k] == Label(q[k], k + 1, when)
    {
      labels := labels + [Label(q[i], i + 1, when)];
    }
  }

  /** What the admin page displays; `durationField` is the content of the
      duration input after the render. */
  datatype View = View(connected: string, queueSize: string, configured: string,
                       durationField: Option<int>, remaining: string, labels: seq<string>)

  class Page {
    var appState: Option<Snapshot>
    /** The duration input, as Number() reads it (None when not a number). */
    var durationInput: Option<int>
    /** The input holds a value typed since the last request. */
    var editing: bool

    /** Page load: no state yet; the input holds its initial content. */
    constructor (field: Option<int>)
      ensures appState == None && durationInput == field && !editing
    {
      appState := None;
      durationInput := field;
      editing := false;
    }

    /** A `state` event or a periodic pull: keep the newest snapshot. */
    method ReceiveState(s: Snapshot)
      modifies this`appState
      ensures appState == Some(s)
    {
      appState := Some(s);
    }

    /** The user types into the duration input. */
    method TypeDuration(v: Option<int>)
      modifies this`durationInput, this`editing
      ensures durationInput == v && editing
    {
      durationInput := v;
      editing := true;
    }

    /** The duration input as render writes it: every render, four times a
        second, puts the configured duration back, whatever was typed. */
    method RefreshFieldAsWritten()
      modifies this`durationInput
      ensures appState.Some? ==> durationInput == Some(DurationField(appState.value.timer.durationMs))
      ensures appState.None? ==> durationInput == old(durationInput)
    {
      if appState.Some? {
        durationInput := Some(DurationField(appState.value.timer.durationMs));
      }
    }

    /** The duration input as intended: the configured duration is shown
        unless the user has typed a value that is not sent yet. */
    method RefreshField()
      modifies this`durationInput
      ensures appState.Some? && !editing ==> durationInput == Some(DurationField(appState.value.timer.durationMs))
      ensures appState.None? || editing ==> durationInput == old(durationInput)
    {
      if appState.Some? && !editing {
        durationInput := Some(DurationField(appState.value.timer.durationMs));
      }
    }

    /** Apply or Start: the durationMs the request carries, from the input;
        the typed value counts as sent. */
    method SendDuration() returns (durationMs: int)
      modifies this`editing
      ensures durationMs == RequestedDurationMs(durationInput) && !editing
    {
      durationMs := RequestedDurationMs(durationInput);
      editing := false;
    }

    /** render: nothing before the first snapshot; then the connected count,
        the queue size, the configured duration, the duration input, the
        remaining time and the numbered queue. */
    method Render(now: int, when: int -> string) returns (v: Option<View>)
      modifies this`durationInput
      ensures v.None? <==> appState.None?
      ensures appState.None? || editing ==> durationInput == old(durationInput)
      ensures v.Some? ==>
        var s := appState.value;
        && v.value.connected == NatToString(s.connected)
        && v.value.queueSize == NatToString(|s.queue|)
        && v.value.configured == MsToClock(s.timer.durationMs)
        && (!editing ==> durationInput == Some(DurationField(s.timer.durationMs)))
        && v.value.durationField == durationInput
        && v.value.remaining == MsToClock(Remaining(s.timer, now))
        && |v.value.labels| == |s.queue|
        && forall k :: 0 <= k < |s.queue| ==> v.value.labels[k] == Label(s.queue[k], k + 1, when)
    {
      if appState.None? {
        return None;
      }
      RefreshField();
      var s := appState.value;
      var t := s.timer;
      var labels := RenderLabels(s.queue, when);
      v := Some(View(NatToString(s.connected), NatToString(|s.queue|), MsToClock(t.durationMs),
                     durationInput, MsToClock(Remaining(t, now)), labels));
    }
  }

  /** As written, a duration typed into the input is put back by the next
      render before Apply or Start reads it: the page asks for the
      configured duration again, e.g. 180000 ms after "60" was typed. */
  method TypedDurationLost(s: Snapshot, typed: Option<int>) returns (sent: int)
    requires 10000 <= s.timer.durationMs <= MaxDurationMs && s.timer.durationMs % 1000 == 0
    ensures sent == s.timer.durationMs
    ensures s.timer.durationMs == 180000 && typed == Some(60) ==> sent != RequestedDurationMs(typed)
  {
    var page := new Page(None);
    page.ReceiveState(s);
    page.TypeDuration(typed);
    page.RefreshFieldAsWritten();
    sent := page.SendDuration();
    DurationFieldRoundTrip(s.timer.durationMs);
  }

  /** With renders that leave a pending edit alone, the typed duration is
      what the request carries, however many renders come in between. */
  method TypedDurationSent(s: Snapshot, typed: Option<int>, now: int, when: int -> string) returns (sent: int)
    ensures sent == RequestedDurationMs(typed)
  {
    var page := new Page(None);
    page.ReceiveState(s);
    page.TypeDuration(typed);
    var v := page.Render(now, when);
    v := page.Render(now + 250, when);
    sent := page.SendDuration();
  }
}
