/**
  The coordinator process (server.js): the single meeting state (subject,
  queue, timer, stats), the participant id counter, the registry of
  event-stream subscribers and its id counter, and one method per HTTP
  action. Each action runs to completion before the next one starts, so
  each is one method; the clock is the parameter `now`, and whether a
  write to a subscriber succeeds is the oracle `writeOk`.
*/
module Server {
  import opened Wrappers
  import opened Text
  import opened Ledger
  import opened Timer

  /** Longest participant name and longest subject, in characters. */
  const NameLimit: nat := 100
  const SubjectLimit: nat := 200
  /** The admin secret used when the environment sets none. */
  const DefaultSecret: string := "change-me"

  datatype Entry = Entry(id: nat, name: string, joinedAt: int)

  /** The public state (getPublicState): what the pull endpoint returns
      and every `state` event carries. */
  datatype Snapshot = Snapshot(subject: string, queue: seq<Entry>, timer: TimerState,
                               stats: map<string, Stat>, serverNow: int, connected: nat)

  /** The two named events of the push channel. */
  datatype Event = StateEvent(snapshot: Snapshot) | ClapEvent(reason: string, at: int)

  /** The admin credential as supplied: the x-admin-secret header and the
      `secret` query parameter, each possibly absent. */
  datatype Credential = Credential(header: Option<string>, query: Option<string>)

  /** The JSON answer of an action. */
  datatype Response =
    | Forbidden
    | BadRequest(error: string)
    | Joined(id: nat, position: int)
    | Popped(popped: Option<Entry>)
    | Acknowledged
    | SubjectSet(subject: string)
    | TimerSet(timer: TimerState)

  /** `String((raw || "").trim()).slice(0, limit)`: the trimmed text cut to
      `limit` characters. It is empty exactly when `raw` is all whitespace. */
  function TrimAndCut(raw: string, limit: nat): (r: string)
    ensures |r| <= limit && |r| <= |Trim(raw)|
    ensures r == Trim(raw)[..|r|]
    ensures |Trim(raw)| <= limit ==> r == Trim(raw)
    ensures |Trim(raw)| > limit ==> |r| == limit
    ensures limit > 0 ==> (r == [] <==> forall k :: 0 <= k < |raw| ==> IsWhitespace(raw[k]))
    ensures r != [] ==> !IsWhitespace(r[0])
  {
    TrimEmpty(raw);
    Take(Trim(raw), limit)
  }

  /** The secret isAdmin looks at: the header when it is non-empty,
      otherwise the query parameter. */
  function ProvidedSecret(c: Credential): Option<string> {
    if c.header.Some? && c.header.value != "" then c.header else c.query
  }

  /** isAdmin: exact equality of a non-empty provided secret with the
      admin secret. A non-empty header decides alone, even when the query
      parameter holds the right secret. */
  function IsAdmin(c: Credential, secret: string): (r: bool)
    ensures r ==> secret != "" && (c.header == Some(secret) || c.query == Some(secret))
    ensures secret != "" && c.header == Some(secret) ==> r
    ensures secret != "" && (c.header.None? || c.header == Some("")) && c.query == Some(secret) ==> r
    ensures c.header.Some? && c.header.value != "" && c.header.value != secret ==> !r
  {
    var p := ProvidedSecret(c);
    p.Some? && p.value != "" && p.value == secret
  }

  /** queue.findIndex(e => e.id === id): the first index holding `id`, or -1. */
  function IndexOfId(q: seq<Entry>, id: int): (r: int)
    ensures -1 <= r < |q|
    ensures r >= 0 ==> q[r].id == id && forall j :: 0 <= j < r ==> q[j].id != id
    ensures r == -1 <==> forall j :: 0 <= j < |q| ==> q[j].id != id
  {
    if q == [] then -1
    else if q[0].id == id then 0
    else
      var k := IndexOfId(q[1..], id);
      if k < 0 then -1 else k + 1
  }

  /** The speaker snapshot start and reset take: the queue head, or null. */
  function HeadSpeaker(q: seq<Entry>): (r: Option<Speaker>)
    ensures r.Some? <==> q != []
    ensures r.Some? ==> r.value == Speaker(q[0].id, q[0].name)
  {
    if q == [] then None else Some(Speaker(q[0].id, q[0].name))
  }

  predicate IdsIncreasing(q: seq<Entry>) {
    forall i, j :: 0 <= i < j < |q| ==> q[i].id < q[j].id
  }

  /** Queue invariant: ids strictly increase from head to tail and are all
      below the next id to be handed out; names are non-empty and short. */
  predicate QueueOk(q: seq<Entry>, nextId: nat) {
    && IdsIncreasing(q)
    && (forall i :: 0 <= i < |q| ==> q[i].id < nextId)
    && (forall i :: 0 <= i < |q| ==> 0 < |q[i].name| <= NameLimit)
  }

  /** Appending an entry under the next id keeps the queue invariant, and
      the new entry is found at the tail. */
  lemma AppendKeepsQueue(q: seq<Entry>, nextId: nat, e: Entry)
    requires QueueOk(q, nextId) && e.id == nextId && 0 < |e.name| <= NameLimit
    ensures QueueOk(q + [e], nextId + 1)
    ensures IndexOfId(q + [e], e.id) == |q|
  {
    var r := q + [e];
    forall i, j | 0 <= i < j < |r| ensures r[i].id < r[j].id {
      if j == |q| { assert r[i] == q[i]; } else { assert r[i] == q[i] && r[j] == q[j]; }
    }
    var k := IndexOfId(r, e.id);
    assert r[|q|].id == e.id;
  }

  predicate Increasing(s: seq<nat>) {
    forall i, j :: 0 <= i < j < |s| ==> s[i] < s[j]
  }

  /** Registry invariant: subscriber ids strictly increase in registration
      order and are all below the next client id. */
  predicate RegistryOk(clients: seq<nat>, nextClientId: nat) {
    Increasing(clients) && forall x :: x in clients ==> x < nextClientId
  }

  /** What every published snapshot satisfies. */
  predicate SnapshotOk(s: Snapshot) {
    && TimerOk(s.timer)
    && IdsIncreasing(s.queue)
    && (forall i :: 0 <= i < |s.queue| ==> 0 < |s.queue[i].name| <= NameLimit)
    && Bounded(s.stats, MaxDurationMs)
  }

  /** The subscribers of `s` for which `ok` holds, in order. */
  function Surviving(s: seq<nat>, ok: nat -> bool): (r: seq<nat>)
    ensures |r| <= |s|
  {
    if s == [] then [] else Surviving(s[..|s| - 1], ok) + (if ok(s[|s| - 1]) then [s[|s| - 1]] else [])
  }

  /** Exactly the subscribers whose write succeeds survive. */
  lemma {:induction false} SurvivingMembers(s: seq<nat>, ok: nat -> bool, x: nat)
    ensures x in Surviving(s, ok) <==> x in s && ok(x)
  {
    if s != [] {
      var init := s[..|s| - 1];
      assert s == init + [s[|s| - 1]];
      SurvivingMembers(init, ok, x);
    }
  }

  /** Filtering the registry keeps its invariant. */
  lemma SurvivingKeepsRegistry(s: seq<nat>, ok: nat -> bool, nextClientId: nat)
    requires RegistryOk(s, nextClientId)
    ensures RegistryOk(Surviving(s, ok), nextClientId)
  {
    SurvivingIncreasing(s, ok);
    forall x | x in Surviving(s, ok) ensures x < nextClientId {
      SurvivingMembers(s, ok, x);
    }
  }

  /** One more subscriber visited by the broadcast loop. */
  lemma SurvivingStep(s: seq<nat>, i: nat, ok: nat -> bool)
    requires i < |s|
    ensures Surviving(s[..i + 1], ok) == Surviving(s[..i], ok) + (if ok(s[i]) then [s[i]] else [])
  {
    assert s[..i + 1][..i] == s[..i];
  }

  /** The loop of broadcast visits clients[j], the i-th subscriber of the
      snapshot; keeping it or deleting it gives the next loop state. */
  lemma BroadcastStep(snapshot: seq<nat>, i: nat, clients: seq<nat>, j: nat, ok: nat -> bool)
    requires i < |snapshot|
    requires clients == Surviving(snapshot[..i], ok) + snapshot[i..]
    requires j == |Surviving(snapshot[..i], ok)|
    ensures j < |clients| && clients[j] == snapshot[i]
    ensures |Surviving(snapshot[..i + 1], ok)| == if ok(snapshot[i]) then j + 1 else j
    ensures ok(snapshot[i]) ==> clients == Surviving(snapshot[..i + 1], ok) + snapshot[i + 1..]
    ensures !ok(snapshot[i]) ==> clients[..j] + clients[j + 1..] == Surviving(snapshot[..i + 1], ok) + snapshot[i + 1..]
  {
    SurvivingStep(snapshot, i, ok);
    var done := Surviving(snapshot[..i], ok);
    assert snapshot[i..] == [snapshot[i]] + snapshot[i + 1..];
    assert clients[..j] == done;
    assert clients[j + 1..] == snapshot[i + 1..];
  }

  /** The test Set.delete(client) applies: every subscriber but `id`. */
  function Other(id: nat): nat -> bool {
    c => c != id
  }

  /** Filtering keeps the registration order. */
  lemma {:induction false} SurvivingIncreasing(s: seq<nat>, ok: nat -> bool)
    requires Increasing(s)
    ensures Increasing(Surviving(s, ok))
  {
    if s != [] {
      var init, last := s[..|s| - 1], s[|s| - 1];
      SurvivingIncreasing(init, ok);
      var a := Surviving(init, ok);
      forall x | x in a ensures x < last {
        SurvivingMembers(init, ok, x);
        var i :| 0 <= i < |init| && init[i] == x;
      }
      if ok(last) {
        var r := a + [last];
        forall i, j | 0 <= i < j < |r| ensures r[i] < r[j] {
          if j == |a| {
            assert r[i] == a[i] && a[i] in a;
          } else {
            assert r[i] == a[i] && r[j] == a[j];
          }
        }
      }
    }
  }

  /** Broadcasting to N distinct subscribers of which exactly one write
      fails leaves the other N - 1, without the failed one. */
  lemma {:induction false} OneWriteFails(s: seq<nat>, failed: nat, ok: nat -> bool)
    requires Increasing(s)
    requires forall x :: x in s ==> (ok(x) <==> x != failed)
    ensures |Surviving(s, ok)| == if failed in s then |s| - 1 else |s|
    ensures failed !in Surviving(s, ok)
  {
    SurvivingMembers(s, ok, failed);
    if s != [] {
      var init, last := s[..|s| - 1], s[|s| - 1];
      assert s == init + [last];
      OneWriteFails(init, failed, ok);
      if last == failed {
        assert failed !in init;
      }
    }
  }

  class Coordinator {
    const adminSecret: string
    var subject: string
    var queue: seq<Entry>
    var timer: TimerState
    var stats: map<string, Stat>
    var nextId: nat
    var clients: seq<nat>
    var nextClientId: nat

    ghost predicate Valid()
      reads this
    {
      && adminSecret != ""
      && TimerOk(timer)
      && 1 <= nextId
      && QueueOk(queue, nextId)
      && Bounded(stats, MaxDurationMs)
      && RegistryOk(clients, nextClientId)
    }

    /** Process start: ADMIN_SECRET falls back to "change-me" when unset
        or empty; the meeting starts empty with a 3-minute idle timer. */
    constructor (envSecret: Option<string>)
      ensures Valid()
      ensures adminSecret == if envSecret.Some? && envSecret.value != "" then envSecret.value else DefaultSecret
      ensures subject == "" && queue == [] && stats == map[]
      ensures timer == TimerState(DefaultDurationMs, None, None)
      ensures nextId == 1 && clients == [] && nextClientId == 1
    {
      adminSecret := if envSecret.Some? && envSecret.value != "" then envSecret.value else DefaultSecret;
      subject := "";
      queue := [];
      timer := TimerState(DefaultDurationMs, None, None);
      stats := map[];
      nextId := 1;
      clients := [];
      nextClientId := 1;
    }

    /** getPublicState, also the pull endpoint GET /api/state. */
    function PublicState(now: int): (s: Snapshot)
      reads this
      ensures s.connected == |clients| && s.serverNow == now
      ensures Valid() ==> SnapshotOk(s)
    {
      Snapshot(subject, queue, timer, stats, now, |clients|)
    }

    /** The state event of an action was pushed: the snapshot of the new
        state, counting the subscribers registered before the push, and
        exactly the subscribers whose write failed are gone. */
    ghost predicate StatePushed(pushed: Option<Event>, now: int, before: seq<nat>, writeOk: nat -> bool)
      reads this
    {
      && pushed == Some(StateEvent(Snapshot(subject, queue, timer, stats, now, |before|)))
      && clients == Surviving(before, writeOk)
      && SnapshotOk(pushed.value.snapshot)
    }

    /** broadcast: write to every subscriber in registration order and
        delete, in place, each one whose write fails. */
    method Broadcast(writeOk: nat -> bool)
      modifies this`clients
      ensures clients == Surviving(old(clients), writeOk)
    {
      var snapshot := clients;
      var live := clients;
      var i, j := 0, 0;
      while i < |snapshot|
        invariant 0 <= i <= |snapshot|
        invariant live == Surviving(snapshot[..i], writeOk) + snapshot[i..]
        invariant j == |Surviving(snapshot[..i], writeOk)|
      {
        BroadcastStep(snapshot, i, live, j, writeOk);
        if writeOk(live[j]) {
          j := j + 1;
        } else {
          live := live[..j] + live[j + 1..];
        }
        i := i + 1;
      }
      assert snapshot[..i] == snapshot;
      clients := live;
    }

    /** broadcastState: snapshot first, then push. */
    method BroadcastState(now: int, writeOk: nat -> bool) returns (ev: Event)
      requires RegistryOk(clients, nextClientId)
      modifies this`clients
      ensures ev == StateEvent(old(PublicState(now)))
      ensures clients == Surviving(old(clients), writeOk)
      ensures RegistryOk(clients, nextClientId)
    {
      ev := StateEvent(PublicState(now));
      SurvivingKeepsRegistry(clients, writeOk, nextClientId);
      Broadcast(writeOk);
    }

    /** safeAddTalkTime */
    method SafeAddTalkTime(name: string, ms: int)
      modifies this`stats
      ensures stats == Credit(old(stats), name, ms)
    {
      if name == "" || ms <= 0 {
        return;
      }
      var s := if name in stats then stats[name] else Stat(0, 0);
      s := Stat(s.totalMs + ms, s.sessions + 1);
      stats := stats[name := s];
    }

    /** finalizeCurrentSpeaker: credit the running speaker, then idle. */
    method FinalizeCurrentSpeaker(now: int)
      requires Valid()
      modifies this`stats, this`timer
      ensures Valid()
      ensures stats == Settle(old(stats), old(timer), now)
      ensures timer == Stopped(old(timer))
    {
      SettleKeepsBounded(stats, timer, now);
      if timer.startAt.Some? && timer.startAt.value != 0 && timer.speaker.Some? && timer.durationMs != 0 {
        var elapsed := now - timer.startAt.value;
        var credited := if elapsed < 0 then 0 else elapsed;
        credited := if credited < timer.durationMs then credited else timer.durationMs;
        SafeAddTalkTime(timer.speaker.value.name, credited);
      }
      timer := timer.(startAt := None, speaker := None);
    }

    /** GET /events: register a subscriber under a fresh id and send it the
        current state at once. */
    method Connect(now: int) returns (id: nat, first: Event)
      requires Valid()
      modifies this`clients, this`nextClientId
      ensures Valid()
      ensures id == old(nextClientId) && id !in old(clients) && nextClientId == old(nextClientId) + 1
      ensures clients == old(clients) + [id]
      ensures first == StateEvent(PublicState(now)) && first.snapshot.connected == |old(clients)| + 1
      ensures SnapshotOk(first.snapshot)
    {
      id := nextClientId;
      nextClientId := nextClientId + 1;
      ghost var before := clients;
      clients := clients + [id];
      forall i, j | 0 <= i < j < |clients| ensures clients[i] < clients[j] {
        assert clients[i] == before[i] && before[i] in before;
      }
      first := StateEvent(PublicState(now));
    }

    /** A subscriber's connection closed: remove it (only it) and push the
        new connected count to the others. */
    method Close(id: nat, now: int, writeOk: nat -> bool) returns (pushed: Event)
      requires Valid()
      modifies this`clients
      ensures Valid()
      ensures pushed == StateEvent(Snapshot(subject, queue, timer, stats, now, |Surviving(old(clients), Other(id))|))
      ensures clients == Surviving(Surviving(old(clients), Other(id)), writeOk)
      ensures SnapshotOk(pushed.snapshot)
    {
      SurvivingKeepsRegistry(clients, Other(id), nextClientId);
      clients := Surviving(clients, Other(id));
      pushed := BroadcastState(now, writeOk);
    }

    /** POST /api/join (no credential): append a participant under a fresh
        id; an all-whitespace name is refused with nothing changed. */
    method Join(rawName: string, now: int, writeOk: nat -> bool) returns (resp: Response, pushed: Option<Event>)
      requires Valid()
      modifies this
      ensures Valid()
      ensures TrimAndCut(rawName, NameLimit) == [] ==>
        resp == BadRequest("name required") && pushed == None && unchanged(this)
      ensures TrimAndCut(rawName, NameLimit) != [] ==>
        && resp == Joined(old(nextId), |queue|)
        && queue == old(queue) + [Entry(old(nextId), TrimAndCut(rawName, NameLimit), now)]
        && nextId == old(nextId) + 1
        && subject == old(subject) && timer == old(timer) && stats == old(stats)
        && nextClientId == old(nextClientId)
        && StatePushed(pushed, now, old(clients), writeOk)
    {
      var name := TrimAndCut(rawName, NameLimit);
      if name == [] {
        resp, pushed := BadRequest("name required"), None;
        return;
      }
      var id := nextId;
      AppendKeepsQueue(queue, nextId, Entry(id, name, now));
      nextId := nextId + 1;
      queue := queue + [Entry(id, name, now)];
      var ev := BroadcastState(now, writeOk);
      pushed := Some(ev);
      resp := Joined(id, IndexOfId(queue, id) + 1);
    }

    /** POST /api/pop (admin): finalize the current speaker, then remove
        the head of the queue. */
    method Pop(cred: Credential, now: int, writeOk: nat -> bool) returns (resp: Response, pushed: Option<Event>)
      requires Valid()
      modifies this
      ensures Valid()
      ensures !IsAdmin(cred, adminSecret) ==> resp == Forbidden && pushed == None && unchanged(this)
      ensures IsAdmin(cred, adminSecret) ==>
        && stats == Settle(old(stats), old(timer), now)
        && timer == Stopped(old(timer))
        && (old(queue) == [] ==> resp == Popped(None) && queue == [])
        && (old(queue) != [] ==> resp == Popped(Some(old(queue)[0])) && queue == old(queue)[1..])
        && subject == old(subject) && nextId == old(nextId) && nextClientId == old(nextClientId)
        && StatePushed(pushed, now, old(clients), writeOk)
    {
      if !IsAdmin(cred, adminSecret) {
        resp, pushed := Forbidden, None;
        return;
      }
      FinalizeCurrentSpeaker(now);
      var popped: Option<Entry> := None;
      if |queue| > 0 {
        popped := Some(queue[0]);
        queue := queue[1..];
      }
      var ev := BroadcastState(now, writeOk);
      resp, pushed := Popped(popped), Some(ev);
    }

    /** POST /api/clear (admin): empty the queue; nothing else changes. */
    method Clear(cred: Credential, now: int, writeOk: nat -> bool) returns (resp: Response, pushed: Option<Event>)
      requires Valid()
      modifies this
      ensures Valid()
      ensures !IsAdmin(cred, adminSecret) ==> resp == Forbidden && pushed == None && unchanged(this)
      ensures IsAdmin(cred, adminSecret) ==>
        && resp == Acknowledged && queue == []
        && subject == old(subject) && timer == old(timer) && stats == old(stats)
        && nextId == old(nextId) && nextClientId == old(nextClientId)
        && StatePushed(pushed, now, old(clients), writeOk)
    {
      if !IsAdmin(cred, adminSecret) {
        resp, pushed := Forbidden, None;
        return;
      }
      queue := [];
      var ev := BroadcastState(now, writeOk);
      resp, pushed := Acknowledged, Some(ev);
    }

    /** POST /api/subject (admin): the trimmed subject, cut to 200
        characters; nothing else changes. */
    method SetSubject(cred: Credential, text: string, now: int, writeOk: nat -> bool) returns (resp: Response, pushed: Option<Event>)
      requires Valid()
      modifies this
      ensures Valid()
      ensures !IsAdmin(cred, adminSecret) ==> resp == Forbidden && pushed == None && unchanged(this)
      ensures IsAdmin(cred, adminSecret) ==>
        && subject == TrimAndCut(text, SubjectLimit) && resp == SubjectSet(subject)
        && queue == old(queue) && timer == old(timer) && stats == old(stats)
        && nextId == old(nextId) && nextClientId == old(nextClientId)
        && StatePushed(pushed, now, old(clients), writeOk)
    {
      if !IsAdmin(cred, adminSecret) {
        resp, pushed := Forbidden, None;
        return;
      }
      subject := TrimAndCut(text, SubjectLimit);
      var ev := BroadcastState(now, writeOk);
      resp, pushed := SubjectSet(subject), Some(ev);
    }

    /** POST /api/timer/config (admin): set the (capped) duration; an
        invalid duration is refused with nothing changed and no push. */
    method ConfigTimer(cred: Credential, d: Option<int>, now: int, writeOk: nat -> bool) returns (resp: Response, pushed: Option<Event>)
      requires Valid()
      modifies this
      ensures Valid()
      ensures !IsAdmin(cred, adminSecret) ==> resp == Forbidden && pushed == None && unchanged(this)
      ensures IsAdmin(cred, adminSecret) && AcceptDuration(d).None? ==>
        resp == BadRequest("invalid durationMs") && pushed == None && unchanged(this)
      ensures IsAdmin(cred, adminSecret) && AcceptDuration(d).Some? ==>
        && timer == old(timer).(durationMs := AcceptDuration(d).value) && resp == TimerSet(timer)
        && subject == old(subject) && queue == old(queue) && stats == old(stats)
        && nextId == old(nextId) && nextClientId == old(nextClientId)
        && StatePushed(pushed, now, old(clients), writeOk)
    {
      if !IsAdmin(cred, adminSecret) {
        resp, pushed := Forbidden, None;
        return;
      }
      var accepted := AcceptDuration(d);
      if accepted.None? {
        resp, pushed := BadRequest("invalid durationMs"), None;
        return;
      }
      timer := timer.(durationMs := accepted.value);
      var ev := BroadcastState(now, writeOk);
      resp, pushed := TimerSet(timer), Some(ev);
    }

    /** POST /api/timer/start (admin): apply a valid duration if one is
        given (an invalid one is ignored), then count from `now` with the
        queue head as speaker. No credit is paid. */
    method StartTimer(cred: Credential, d: Option<int>, now: int, writeOk: nat -> bool) returns (resp: Response, pushed: Option<Event>)
      requires Valid()
      modifies this
      ensures Valid()
      ensures !IsAdmin(cred, adminSecret) ==> resp == Forbidden && pushed == None && unchanged(this)
      ensures IsAdmin(cred, adminSecret) ==>
        && timer.durationMs == (if AcceptDuration(d).Some? then AcceptDuration(d).value else old(timer).durationMs)
        && timer.startAt == Some(now) && timer.speaker == HeadSpeaker(queue)
        && resp == TimerSet(timer)
        && subject == old(subject) && queue == old(queue) && stats == old(stats)
        && nextId == old(nextId) && nextClientId == old(nextClientId)
        && StatePushed(pushed, now, old(clients), writeOk)
    {
      if !IsAdmin(cred, adminSecret) {
        resp, pushed := Forbidden, None;
        return;
      }
      var accepted := AcceptDuration(d);
      if accepted.Some? {
        timer := timer.(durationMs := accepted.value);
      }
      timer := timer.(startAt := Some(now), speaker := HeadSpeaker(queue));
      var ev := BroadcastState(now, writeOk);
      resp, pushed := TimerSet(timer), Some(ev);
    }

    /** POST /api/timer/stop (admin): finalize the current speaker. */
    method StopTimer(cred: Credential, now: int, writeOk: nat -> bool) returns (resp: Response, pushed: Option<Event>)
      requires Valid()
      modifies this
      ensures Valid()
      ensures !IsAdmin(cred, adminSecret) ==> resp == Forbidden && pushed == None && unchanged(this)
      ensures IsAdmin(cred, adminSecret) ==>
        && stats == Settle(old(stats), old(timer), now)
        && timer == Stopped(old(timer)) && resp == TimerSet(timer)
        && subject == old(subject) && queue == old(queue)
        && nextId == old(nextId) && nextClientId == old(nextClientId)
        && StatePushed(pushed, now, old(clients), writeOk)
    {
      if !IsAdmin(cred, adminSecret) {
        resp, pushed := Forbidden, None;
        return;
      }
      FinalizeCurrentSpeaker(now);
      var ev := BroadcastState(now, writeOk);
      resp, pushed := TimerSet(timer), Some(ev);
    }

    /** POST /api/timer/reset (admin): finalize the current speaker, then
        restart from `now` with the (unchanged) queue head as speaker. */
    method ResetTimer(cred: Credential, now: int, writeOk: nat -> bool) returns (resp: Response, pushed: Option<Event>)
      requires Valid()
      modifies this
      ensures Valid()
      ensures !IsAdmin(cred, adminSecret) ==> resp == Forbidden && pushed == None && unchanged(this)
      ensures IsAdmin(cred, adminSecret) ==>
        && stats == Settle(old(stats), old(timer), now)
        && timer == Restarted(Stopped(old(timer)), HeadSpeaker(old(queue)), now)
        && resp == TimerSet(timer)
        && subject == old(subject) && queue == old(queue)
        && nextId == old(nextId) && nextClientId == old(nextClientId)
        && StatePushed(pushed, now, old(clients), writeOk)
    {
      if !IsAdmin(cred, adminSecret) {
        resp, pushed := Forbidden, None;
        return;
      }
      FinalizeCurrentSpeaker(now);
      timer := timer.(startAt := Some(now), speaker := HeadSpeaker(queue));
      var ev := BroadcastState(now, writeOk);
      resp, pushed := TimerSet(timer), Some(ev);
    }

    /** POST /api/clap (admin): push the ephemeral clap event; the meeting
        state is untouched (dead subscribers are still pruned). */
    method Clap(cred: Credential, now: int, writeOk: nat -> bool) returns (resp: Response, pushed: Option<Event>)
      requires Valid()
      modifies this
      ensures Valid()
      ensures !IsAdmin(cred, adminSecret) ==> resp == Forbidden && pushed == None && unchanged(this)
      ensures IsAdmin(cred, adminSecret) ==>
        && resp == Acknowledged && pushed == Some(ClapEvent("manual", now))
        && subject == old(subject) && queue == old(queue) && timer == old(timer) && stats == old(stats)
        && nextId == old(nextId) && nextClientId == old(nextClientId)
        && clients == Surviving(old(clients), writeOk)
    {
      if !IsAdmin(cred, adminSecret) {
        resp, pushed := Forbidden, None;
        return;
      }
      SurvivingKeepsRegistry(clients, writeOk, nextClientId);
      Broadcast(writeOk);
      resp, pushed := Acknowledged, Some(ClapEvent("manual", now));
    }
  }

  /** The end-to-end run of a meeting: Ana joins, the admin starts a
      60-second timer, and stops it 61 seconds later. She is credited the
      full minute and one session, and the timer is idle again. */
  method AnaSpeaksOnce(t: int) returns (ana: Stat, idle: bool)
    requires t > 0
    ensures ana == Stat(60000, 1) && idle
  {
    var c := new Coordinator(Some("s3cret"));
    var admin := Credential(Some("s3cret"), None);
    var everyone: nat -> bool := _ => true;
    TrimUnchanged("Ana");
    assert TrimAndCut("Ana", NameLimit) == "Ana";
    var resp, pushed := c.Join("Ana", t, everyone);
    assert resp == Joined(1, 1);
    resp, pushed := c.StartTimer(admin, Some(60000), t, everyone);
    assert c.timer.speaker == Some(Speaker(1, "Ana")) && c.timer.startAt == Some(t);
    resp, pushed := c.StopTimer(admin, t + 61000, everyone);
    ana := c.stats["Ana"];
    idle := c.timer.startAt.None? && c.timer.speaker.None?;
  }
}
