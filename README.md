# Meeting queue coordinator — a Dafny model

The system is a small meeting coordinator. One Node.js process keeps a single
in-memory meeting state:
- a subject line;
- a first-come-first-served queue of participants who want the floor;
- a countdown timer for the current speaker;
- a ledger of cumulative talk time per display name.

Browsers follow that state over a server-sent event stream. Anyone may join
the queue. Actions that change the meeting need the admin secret: pop, clear,
set the subject, configure, start, stop or reset the timer, send a clap. A
viewer page and an admin page derive the countdown, the queue list and the
viewer's own position from each snapshot.

The model has these modules:

- `Text` (`text.dfy`): the JavaScript string built-ins the code relies on.
  These are `trim` with the ECMAScript whitespace set, `slice(0, n)`,
  `String(n)` and `padStart(2, "0")`.
- `Ledger` (`ledger.dfy`): the talk-time ledger and `safeAddTalkTime`,
  written as a function on a map.
- `Timer` (`timer.dfy`): the timer value, the duration check with its
  30-minute cap, and the credit formula of `finalizeCurrentSpeaker`.
- `Server` (`server.dfy`): the process state as a class `Coordinator`.
  - Its fields are the meeting state, the participant id counter, the
    subscriber registry and its id counter.
  - Each HTTP action is one method. Every method states the complete new
    state, the JSON answer and the event it pushes.
  - `broadcast` is a loop that deletes, in place, each subscriber whose
    write fails.
- `Clock`, `Countdown` (`clock.dfy`, `countdown.dfy`): `msToClock` and the
  remaining-time formula. Both browser scripts compute them, with the same
  value.
- `Client` (`client.dfy`): the viewer page. It covers HTML escaping, the
  rendered queue, the viewer's position and the join form.
- `Admin` (`admin.dfy`): the admin page. It covers the clamped duration
  request, the secret header and the numbered queue list.

Several inputs of the source are parameters of the model:
- The clock is the parameter `now`; each handler reads it once.
- Whether a write to subscriber `c` succeeds is the oracle `writeOk(c)`.
- The browser's time-of-day formatting is a function parameter `when`.

JavaScript truthiness is kept wherever the code tests a value:
- a timer whose `startAt` is 0 counts as not running;
- a `myId` of 0 never has a position;
- an id of 0 in a join reply is not stored.

`Number(...)` of a request field becomes an `Option<int>`. On the server,
`None` stands for a missing, non-numeric or non-finite duration, which the
server treats alike. On the admin page, `None` stands for a field that is
not a number (NaN); see the `Admin.ClampSeconds` line under "Left out".

Two invariants hold after every action:
- `Coordinator.Valid()`. The duration is positive and at most 30 minutes.
  There is a speaker only while a start time is set. Queue ids strictly
  increase and stay below the next id. Names are non-empty and at most 100
  characters. Every ledger entry has a non-empty name, at least one session
  and at most 30 minutes per session. Subscriber ids strictly increase and
  stay below the next client id.
- `SnapshotOk` holds for every snapshot that is published: `PublicState` ensures it for a valid state, every handler's `StatePushed` clause states it of the pushed snapshot, and `Connect` and `Close` state it of the event they send.

Some behaviour of the code is easy to miss:
- The code does not keep "timer running exactly when a speaker is set".
  Starting or resetting the timer on an empty queue runs the timer with no
  speaker (server.js:258-259). The invariant is therefore only "a speaker
  implies a start time", and such a turn credits nobody.
- The `connected` count in a pushed snapshot is the number of subscribers
  before that broadcast prunes dead connections. The snapshot is built
  before any write is attempted.
- A non-empty but wrong `x-admin-secret` header is refused even when the
  `secret` query parameter is correct. The header shadows the query
  parameter (server.js:139).

## Model

| member | source | states |
|---|---|---|
| Text.TrimStart | server.js:205 | the result is a suffix of the input; everything dropped is whitespace; the result does not start with whitespace |
| Text.TrimEnd | server.js:205 | the result is a prefix of the input; everything dropped is whitespace; the result does not end with whitespace |
| Text.Trim | server.js:205 | `String.prototype.trim`, both ends; `Text.TrimEmpty`, `Text.TrimUnchanged` and `Text.TrimIdempotent` state its result |
| Text.TrimEmpty | server.js:205-206 | trimming gives the empty string exactly when the input is all whitespace; otherwise the result starts and ends with a non-whitespace character |
| Text.TrimUnchanged | server.js:205 | a string with no whitespace at either end is left unchanged |
| Text.TrimIdempotent | public/client.js:102 | trimming a name that is already trimmed changes nothing |
| Text.Take | server.js:205 | `slice(0, n)` gives the first min(n, length) characters |
| Text.NatToString | public/client.js:21-22 | `String(n)` is a non-empty digit string with no leading zero (except for 0 itself); it has one digit exactly when n < 10 and at most two when n < 100 |
| Text.ParseNatToString | public/client.js:21-22 | the decimal text of n reads back as n |
| Text.Pad2 | public/client.js:21-22 | `padStart(2, "0")` gives length max(2, length) |
| Text.Pad2Digits | public/client.js:21-22 | padding a digit string keeps its value and gives at least two digits |
| Ledger.Credit | server.js:115-123 | an empty name or a non-positive amount changes nothing; otherwise that name gains the amount and one session, and every other entry is unchanged |
| Ledger.CreditAsWritten | server.js:112-122 | on the published ledger, a name inherited from Object.prototype is never credited; every other name is credited as `Ledger.Credit` does (see Findings) |
| Ledger.InheritedNameLost | server.js:119-122 | a turn by a speaker named after an inherited member (e.g. "toString") is missing from the published ledger as written, and recorded by the intended per-name map |
| Ledger.CreditKeepsBounded | server.js:115-123 | a credit of at most `cap` keeps every entry within `cap` per session, with at least one session and a non-empty name |
| Ledger.CreditAllTotals | server.js:115-123 | after any sequence of credits, a name's total is its start plus the sum of its positive credits, and its sessions grow by their number |
| Timer.AcceptDuration | server.js:241-243 | a duration is accepted exactly when it is present and positive; it is capped at 30 minutes and otherwise unchanged |
| Timer.Running | server.js:127 | the truthiness test `t.startAt` (a start time of 0 is falsy); `Timer.CreditedMs`, `Timer.SettleBounded` and `Countdown.Remaining` state what depends on it |
| Timer.CreditedMs | server.js:128-129 | the credited time is the elapsed time clamped to [0, duration]: the elapsed time when within the duration, 0 when negative, the whole duration on an over-run |
| Timer.Settle | server.js:126-131 | finalize's effect on the ledger; `Timer.SettleBounded` and `Timer.SettleKeepsBounded` state what it credits |
| Timer.SettleBounded | server.js:125-131 | finalizing credits only the current speaker, by at most the duration and one session; an idle timer changes no entry |
| Timer.SettleKeepsBounded | server.js:125-131 | finalizing keeps the ledger bounded by the 30-minute cap per session |
| Timer.Stopped | server.js:132-134 | after finalizing, the start time is null, there is no speaker, and the duration is the same |
| Timer.Restarted | server.js:275-276 | after a restart, the timer counts from `now` for the given head, with the same duration |
| Server.TrimAndCut | server.js:205 | the trimmed text, kept whole when it fits and cut to exactly `limit` characters when longer; it is empty exactly when the raw text is all whitespace; it never starts with whitespace |
| Server.ProvidedSecret | server.js:139 | the header if non-empty, otherwise the query parameter; `Server.IsAdmin` states the resulting gate |
| Server.IsAdmin | server.js:137-141 | admitted exactly when the non-empty provided secret equals the admin secret; a non-empty wrong header refuses even a correct query parameter |
| Server.IndexOfId | server.js:211 | `findIndex` returns the first index holding the id, or -1 exactly when no entry holds it |
| Server.HeadSpeaker | server.js:259 | the speaker is the queue head's id and name, or none exactly when the queue is empty |
| Server.AppendKeepsQueue | server.js:207-211 | appending under the next id keeps ids increasing and below the counter, and the new entry is found at the tail |
| Server.Surviving | server.js:93-101 | pruning never adds subscribers |
| Server.SurvivingMembers | server.js:93-101 | a subscriber survives a broadcast exactly when it was registered and its write succeeded |
| Server.SurvivingIncreasing | server.js:93-101 | pruning keeps the registration order |
| Server.SurvivingKeepsRegistry | server.js:93-101 | pruning keeps the registry invariant |
| Server.OneWriteFails | server.js:93-101 | when exactly one registered write fails, N subscribers become N - 1 and the failed one is gone |
| Server.Other | server.js:192 | the subscribers `sseClients.delete(client)` keeps; `Server.Coordinator.Close` states that only the closing one goes |
| Server.Coordinator.constructor | server.js:9-23 | the secret falls back to "change-me" when unset or empty; empty subject, queue and ledger; an idle 3-minute timer; both counters at 1 |
| Server.Coordinator.PublicState | server.js:78-88 | the snapshot counts the current subscribers and carries the server time; a valid state gives a well-formed snapshot |
| Server.Coordinator.Broadcast | server.js:90-102 | exactly the subscribers whose write succeeds remain, in order |
| Server.Coordinator.BroadcastState | server.js:104-106 | the pushed event is the state taken before the writes; dead subscribers are pruned; the registry invariant is kept |
| Server.Coordinator.SafeAddTalkTime | server.js:115-123 | the ledger becomes `Credit` of the old ledger, the intended per-name map (see Findings for inherited names) |
| Server.Coordinator.FinalizeCurrentSpeaker | server.js:125-135 | the ledger is settled for the running speaker; the timer becomes idle; the invariant is kept |
| Server.Coordinator.Connect | server.js:182-185 | the subscriber gets the next client id, which is appended to the registry, and the counter moves on by one; the first event is the current state, counting the newcomer |
| Server.Coordinator.Close | server.js:190-194 | only the closing subscriber is removed; the others receive the new count; dead writes are pruned |
| Server.Coordinator.Join | server.js:203-212 | an all-whitespace name is answered "name required" and nothing changes; otherwise the trimmed, cut name is appended under the next id, its position is the new queue length, and the state is pushed |
| Server.Coordinator.Pop | server.js:214-221 | forbidden without the secret; otherwise the speaker is credited, the timer stops, the head is removed and returned (null on an empty queue), and the state is pushed |
| Server.Coordinator.Clear | server.js:223-228 | forbidden without the secret; otherwise the queue is empty, nothing else changes, and the state is pushed |
| Server.Coordinator.SetSubject | server.js:230-236 | forbidden without the secret; otherwise the subject is the trimmed text cut to 200 characters and is echoed back |
| Server.Coordinator.ConfigTimer | server.js:238-247 | forbidden without the secret; an invalid duration is answered "invalid durationMs" with no change and no push; otherwise only the duration changes, capped |
| Server.Coordinator.StartTimer | server.js:249-262 | forbidden without the secret; a valid duration is applied and an invalid one ignored; the timer counts from `now` for the queue head; the ledger is not touched |
| Server.Coordinator.StopTimer | server.js:264-269 | forbidden without the secret; otherwise the speaker is credited, the timer becomes idle, and the queue is kept |
| Server.Coordinator.ResetTimer | server.js:271-279 | forbidden without the secret; otherwise the old speaker is credited, then the timer restarts from `now` for the unchanged queue head |
| Server.Coordinator.Clap | server.js:281-285 | forbidden without the secret; otherwise the clap event is pushed, the meeting state is untouched, and dead subscribers are pruned |
| Server.AnaSpeaksOnce | server.js:203-269 | joining, starting a 60 s timer and stopping 61 s later credits exactly 60000 ms and one session, and leaves the timer idle |
| Clock.ClockFields | public/client.js:19-24 | the clock text is a minutes field of at least two digits, a colon and a seconds field below 60; together they read back as the whole seconds, 0 for negative input; below 100 minutes the text is exactly 5 characters, and a wider minutes field has no leading zero |
| Clock.ClockUnderOneSecond | public/admin.js:26-31 | anything under one second, negative values included, shows "00:00" |
| Clock.MsToClock | public/client.js:19-24 | msToClock; `Clock.ClockFields` and `Clock.ClockUnderOneSecond` state its text |
| Clock.WholeSeconds | public/client.js:20 | `Math.max(0, Math.floor(ms / 1000))`; `Clock.ClockFields` states it as 0 for negative input and ms / 1000 otherwise |
| Clock.PaddedField | public/admin.js:28-29 | `String(n).padStart(2, "0")` is at least two digits, exactly two below 100, is `String(n)` itself from 10 on (so no leading zero), and reads back as n |
| Countdown.Remaining | public/admin.js:40-41 | an idle timer shows its duration; a running timer shows the duration minus the elapsed time, clamped below at 0 |
| Countdown.CreditPlusRemaining | public/client.js:34-36 | once started, the server's credit plus a viewer's remaining time is exactly the duration |
| Countdown.RemainingExamples | public/admin.js:41 | 200 s into a 180 s turn leaves 0, 50 s in leaves 130 s, and an idle timer shows 180 s |
| Countdown.ClientCountdown | public/client.js:33-42 | the text is the clock of the remaining time; the danger colour is used exactly when a running timer has reached zero |
| Client.ReplaceChar | public/client.js:66-70 | one `replaceAll` pass; the character-level facts are the lemmas behind `Client.EscapeOneChar` |
| Client.EscapeHtml | public/client.js:64-71 | escapeHtml; `Client.EscapeIsPerChar`, `Client.UnescapeEscape`, `Client.EscapeNoRaw` and `Client.EscapePlain` state its result |
| Client.EscapeOneChar | public/client.js:64-71 | on one character the five passes give exactly its entity |
| Client.EscapeIsPerChar | public/client.js:64-71 | the five passes equal replacing each special character by its entity, so nothing is escaped twice |
| Client.UnescapeEscape | public/client.js:64-71 | decoding the five entities gives back the original name |
| Client.EscapeNoRaw | public/client.js:64-71 | escaped text contains no raw <, >, " or ' |
| Client.EscapePlain | public/client.js:64-71 | text without special characters is shown unchanged |
| Client.Position | public/client.js:56-61 | the position is 1 + the first index holding `myId`; it is absent exactly when `myId` is unset, zero or not queued |
| Client.IsMe | public/client.js:49 | the test `item.id === myId`; `Client.Position` and `Client.RenderQueue` state where it holds |
| Client.PositionText | public/client.js:57-61 | the position line is empty exactly when there is no position; `Client.PositionNumber` states what it shows |
| Client.PositionNumber | public/client.js:58 | the line is "You are #", the position and " in queue", and its number reads back as the position |
| Client.RenderQueue | public/client.js:45-53 | one item per entry, in order, numbered from 1, marked "me" exactly where the id is `myId` |
| Client.ItemMarkup | public/client.js:51 | the markup of one queue item; `Client.ItemNameContained` states how the name sits in it |
| Client.ItemNameContained | public/client.js:51 | the name appears escaped between `<strong>` and `</strong>`, none of its characters opens a tag, and it decodes back to the name |
| Client.ItemNumber | public/client.js:51 | the item's number follows the "#" after the name, is followed by a space, and reads back as its 1-based position |
| Client.PositionMatchesMe | public/client.js:49-61 | the position line points at the first item marked "me" |
| Client.JoinName | public/client.js:102-103 | the form sends the trimmed name, and sends nothing exactly when the name is all whitespace |
| Client.JoinNameAccepted | public/client.js:102-108 | the server accepts every name the form sends, and stores what it would store for the untrimmed input |
| Client.Page.constructor | public/client.js:14-17 | no state yet; the id comes from storage |
| Client.Page.ReceiveState | public/client.js:76-80 | the newest snapshot replaces the old one; the id is kept |
| Client.Page.JoinReplied | public/client.js:111-113 | a truthy id in the reply becomes the viewer's id; otherwise it is kept |
| Client.Page.Render | public/client.js:26-62 | nothing before the first snapshot; then the subject or "Meeting", the count, the configured clock, the countdown, the items and the position line |
| Admin.ClampSeconds | public/admin.js:98 | the seconds lie in [10, 1800]; an in-range value is kept; a missing or too small value gives 10, a larger one 1800 |
| Admin.RequestedDurationMs | public/admin.js:98-99 | for an integer field value, the requested duration is a whole number of seconds between 10 s and 30 min |
| Admin.RequestAccepted | public/admin.js:97-105 | the server's duration check accepts every request the page sends, unchanged |
| Admin.DurationFieldRoundTrip | public/admin.js:38 | applying the displayed field unedited asks for the current duration again |
| Admin.DurationField | public/admin.js:38 | the field shows the whole seconds of the duration, rounded down |
| Admin.AdminCredential | public/admin.js:53-57 | the header is the trimmed secret, and is absent exactly when the field is blank |
| Admin.AdminCredentialAdmits | public/admin.js:53-57 | the page's requests are admitted exactly when the trimmed secret is the server's non-empty secret |
| Admin.LabelNumber | public/admin.js:48 | a label starts with "#", its number and a space; the number reads back as the position |
| Admin.Label | public/admin.js:48 | the text of one queue item; `Admin.LabelNumber` states how its number reads back |
| Admin.RenderLabels | public/admin.js:45-50 | one label per entry, in queue order, numbered from #1 |
| Admin.Page.constructor | public/admin.js:22 | no state yet; the duration input holds its initial content and no edit is pending |
| Admin.Page.ReceiveState | public/admin.js:85-87 | the newest snapshot is kept |
| Admin.Page.TypeDuration | public/admin.js:10 | typing puts the value in the duration input and marks an edit as pending |
| Admin.Page.RefreshFieldAsWritten | public/admin.js:38 | as written, every render puts the configured duration back into the input, whatever was typed (see Findings) |
| Admin.Page.RefreshField | public/admin.js:38 | as intended, the configured duration is put back only when no typed value is pending |
| Admin.Page.SendDuration | public/admin.js:97-105 | Apply and Start send the clamped duration read from the input, and the pending edit counts as sent |
| Admin.TypedDurationLost | public/admin.js:38 | as written, after a render the page asks for the configured duration again instead of the typed one; 180000 ms is sent after typing 60 |
| Admin.TypedDurationSent | public/admin.js:97-105 | with the intended render, the request carries the typed duration, however many renders come in between |
| Admin.Page.Render | public/admin.js:33-51 | nothing before the first snapshot; then the count, the queue size, the configured clock, the duration input, the remaining clock and the labels; the duration input is refreshed only when no typed value is pending (see Findings) |

## Findings

| source | as written | input that shows it | evidently intended | confidence | as-written member | corrected member |
|---|---|---|---|---|---|---|
| server.js:112-122 | `state.stats` is a plain object, so the lookup `state.stats[key]` finds an inherited member for a name such as "toString", "constructor" or "__proto__". The totals become NaN (on Object.prototype itself for "__proto__"), and the name never appears in the published ledger | join as "toString", start the timer, stop it 10 s later: "toString" is missing from `stats` | every name has its own entry, credited with 10000 ms and one session | not executed; high | Ledger.CreditAsWritten, Ledger.InheritedNameLost | Ledger.Credit, Ledger.CreditAllTotals |
| public/admin.js:38 | render runs every 250 ms (public/admin.js:132) and writes the configured duration into the duration input each time | with 180 s configured, type 60 and click Apply: the page sends 180000 ms again | a typed duration stays in the input until it is sent | not executed; medium (a click within 250 ms of typing would still send it) | Admin.Page.RefreshFieldAsWritten, Admin.TypedDurationLost | Admin.Page.RefreshField, Admin.TypedDurationSent |

The rest of the model uses the corrected members: `Server.Coordinator.SafeAddTalkTime` credits through `Ledger.Credit`, and `Admin.Page.Render` refreshes the input through `Admin.Page.RefreshField`.

## Left out

- HTTP plumbing is not modelled:
  - routing, status codes and headers;
  - JSON serialization, and the event-stream framing and headers;
  - static file serving and the 404 fallback;
  - the `server.listen` log lines.
  The model returns a `Response` value and an `Event` value instead.
- parseBody is not modelled: the 1 MB limit, invalid JSON, form encoding, and the resulting 500 answer. The model receives the already-decoded field. A missing `name` or `subject` is the empty string.
- Join and SetSubject: a truthy `name` or `subject` field that is not a string makes `.trim()` throw, and the server answers 500 (server.js:205, server.js:233). This is not modelled; both fields are strings.
- The heartbeat comments every 15 s are not modelled; they only keep connections open.
- The subscriber's socket is not modelled. A client is its id, and a failed write is the oracle `writeOk`. The `res.end()` of a dead client is not modelled.
- Concurrency is left out. Node runs each handler to completion, so each handler is one atomic method. The interleaving of the asynchronous body reads is not modelled.
- The clock (`Date.now()`) is the parameter `now`. One value is used per handler, although each broadcast in the source reads the clock again.
- `toLocaleTimeString` is the function parameter `when`, because locale formatting is outside the model.
- The DOM is not modelled: the elements, `innerHTML`, `localStorage`/`sessionStorage`, `alert`, `confirm`, the clap overlay, and the render and sync timers. Each page's render is a method that returns a `View` value.
- Admin.ClampSeconds: the field is read as an integer. `Number("Infinity")` gives 1800 in the source; the model has no infinite value, so only a large `Some` gives 1800. A fractional entry such as "12.5" (12500 ms) is not modelled.
- Timer.AcceptDuration: durations are integers. Fractional and non-finite numbers from `Number(...)` are not modelled, apart from "not a number", which is `None`.
- Ledger.Credit: the amount is an integer, so the `Math.floor` and `Number.isFinite` guards of `safeAddTalkTime` have nothing to do in the model.
- Server.Coordinator.PublicState: `state.stats` starts as an empty map rather than undefined. `stats || {}` makes the two look the same to clients.
- Ledger.Credit: this is the intended per-name ledger. For names inherited from Object.prototype, it differs from the source's plain object; see Findings.
- Text.Take: strings are sequences of Unicode scalar values. `slice` counts UTF-16 code units, so the two differ for names with characters outside the Basic Multilingual Plane.
- Client.Page.Render and Admin.Page.Render: snapshots are well-typed. The `?? 0` and `|| {…}` fallbacks for malformed state have nothing to do in the model.
- The `reason` argument of `finalizeCurrentSpeaker` is not modelled, because the function never uses it.
