/**
  The viewer page (public/client.js): it keeps the last snapshot it
  received and the participant id it got when joining, and renders the
  countdown, the queue and the viewer's own position from them.
*/
module Client {
  import opened Wrappers
  import opened Text
  import opened Timer
  import opened Clock
  import opened Countdown
  import opened Server

  /** s.replaceAll(c, rep) for a one-character pattern `c`. */
  function ReplaceChar(s: string, c: char, rep: string): string {
    if s == [] then [] else (if s[0] == c then rep else [s[0]]) + ReplaceChar(s[1..], c, rep)
  }

  /** escapeHtml: five replaceAll passes, the ampersand first. */
  function EscapeHtml(s: string): string {
    ReplaceChar(ReplaceChar(ReplaceChar(ReplaceChar(ReplaceChar(s,
      '&', "&amp;"), '<', "&lt;"), '>', "&gt;"), '"', "&quot;"), '\'', "&#039;")
  }

  /** The entity of one character, or the character itself. */
  function EscapeChar(c: char): string {
    if c == '&' then "&amp;"
    else if c == '<' then "&lt;"
    else if c == '>' then "&gt;"
    else if c == '"' then "&quot;"
    else if c == '\'' then "&#039;"
    else [c]
  }

  /** Escaping character by character: the reference for EscapeHtml. */
  function EscapeEach(s: string): string {
    if s == [] then [] else EscapeChar(s[0]) + EscapeEach(s[1..])
  }

  /** Decoding of the five entities EscapeHtml produces. */
  function Unescape(s: string): string
    decreases |s|
  {
    if |s| >= 5 && s[..5] == "&amp;" then "&" + Unescape(s[5..])
    else if |s| >= 4 && s[..4] == "&lt;" then "<" + Unescape(s[4..])
    else if |s| >= 4 && s[..4] == "&gt;" then ">" + Unescape(s[4..])
    else if |s| >= 6 && s[..6] == "&quot;" then "\"" + Unescape(s[6..])
    else if |s| >= 6 && s[..6] == "&#039;" then "'" + Unescape(s[6..])
    else if s == [] then []
    else [s[0]] + Unescape(s[1..])
  }

  lemma {:induction false} ReplaceConcat(a: string, b: string, c: char, rep: string)
    ensures ReplaceChar(a + b, c, rep) == ReplaceChar(a, c, rep) + ReplaceChar(b, c, rep)
  {
    if a == [] {
      assert a + b == b;
    } else {
      assert (a + b)[0] == a[0] && (a + b)[1..] == a[1..] + b;
      ReplaceConcat(a[1..], b, c, rep);
    }
  }

  lemma {:induction false} ReplaceAbsent(s: string, c: char, rep: string)
    requires c !in s
    ensures ReplaceChar(s, c, rep) == s
  {
    if s != [] {
      assert s[0] != c && c !in s[1..];
      ReplaceAbsent(s[1..], c, rep);
    }
  }

  lemma EscapeConcat(a: string, b: string)
    ensures EscapeHtml(a + b) == EscapeHtml(a) + EscapeHtml(b)
  {
    var a1, b1 := ReplaceChar(a, '&', "&amp;"), ReplaceChar(b, '&', "&amp;");
    ReplaceConcat(a, b, '&', "&amp;");
    var a2, b2 := ReplaceChar(a1, '<', "&lt;"), ReplaceChar(b1, '<', "&lt;");
    ReplaceConcat(a1, b1, '<', "&lt;");
    var a3, b3 := ReplaceChar(a2, '>', "&gt;"), ReplaceChar(b2, '>', "&gt;");
    ReplaceConcat(a2, b2, '>', "&gt;");
    var a4, b4 := ReplaceChar(a3, '"', "&quot;"), ReplaceChar(b3, '"', "&quot;");
    ReplaceConcat(a3, b3, '"', "&quot;");
    ReplaceConcat(a4, b4, '\'', "&#039;");
  }

  lemma ReplaceSingle(c: char, x: char, rep: string)
    ensures ReplaceChar([c], x, rep) == if c == x then rep else [c]
  {
    assert [c][1..] == [];
  }

  /** The four passes after the first on a string that holds none of
      the characters they look for. */
  lemma LaterPassesKeep(t: string)
    requires '<' !in t && '>' !in t && '"' !in t && '\'' !in t
    ensures ReplaceChar(ReplaceChar(ReplaceChar(ReplaceChar(t, '<', "&lt;"), '>', "&gt;"), '"', "&quot;"), '\'', "&#039;") == t
  {
    ReplaceAbsent(t, '<', "&lt;");
    ReplaceAbsent(t, '>', "&gt;");
    ReplaceAbsent(t, '"', "&quot;");
    ReplaceAbsent(t, '\'', "&#039;");
  }

  /** On one character the five passes give its entity: a later pass never
      touches what an earlier pass wrote. */
  lemma EscapeOneChar(c: char)
    ensures EscapeHtml([c]) == EscapeChar(c)
  {
    var s1 := ReplaceChar([c], '&', "&amp;");
    ReplaceSingle(c, '&', "&amp;");
    if c == '&' {
      LaterPassesKeep(s1);
      return;
    }
    var s2 := ReplaceChar(s1, '<', "&lt;");
    ReplaceSingle(c, '<', "&lt;");
    var s3 := ReplaceChar(s2, '>', "&gt;");
    if c == '<' {
      ReplaceAbsent(s2, '>', "&gt;");
      ReplaceAbsent(s2, '"', "&quot;");
      ReplaceAbsent(s2, '\'', "&#039;");
      return;
    }
    ReplaceSingle(c, '>', "&gt;");
    var s4 := ReplaceChar(s3, '"', "&quot;");
    if c == '>' {
      ReplaceAbsent(s3, '"', "&quot;");
      ReplaceAbsent(s3, '\'', "&#039;");
      return;
    }
    ReplaceSingle(c, '"', "&quot;");
    if c == '"' {
      ReplaceAbsent(s4, '\'', "&#039;");
      return;
    }
    ReplaceSingle(c, '\'', "&#039;");
  }

  /** escapeHtml replaces each special character by its entity and leaves
      every other character alone. */
  lemma {:induction false} EscapeIsPerChar(s: string)
    ensures EscapeHtml(s) == EscapeEach(s)
  {
    if s != [] {
      assert s == [s[0]] + s[1..];
      EscapeConcat([s[0]], s[1..]);
      EscapeOneChar(s[0]);
      EscapeIsPerChar(s[1..]);
    }
  }

  predicate StartsWith(s: string, p: string) {
    |s| >= |p| && s[..|p|] == p
  }

  /** An entity followed by anything decodes to its character first. */
  lemma UnescapeEntity(e: string, c: char, rest: string)
    requires e == EscapeChar(c) && IsSpecial(c)
    ensures Unescape(e + rest) == [c] + Unescape(rest)
  {
    var s := e + rest;
    assert s[..|e|] == e && s[|e|..] == rest;
    assert s[1] == e[1];
    assert StartsWith(s, "&amp;") <==> c == '&';
    assert StartsWith(s, "&lt;") <==> c == '<';
    assert StartsWith(s, "&gt;") <==> c == '>';
    assert StartsWith(s, "&quot;") <==> c == '"';
  }

  lemma UnescapeStep(c: char, rest: string)
    ensures Unescape(EscapeChar(c) + rest) == [c] + Unescape(rest)
  {
    if IsSpecial(c) {
      UnescapeEntity(EscapeChar(c), c, rest);
    } else {
      var s := [c] + rest;
      assert s[0] == c && s[1..] == rest;
    }
  }

  /** Escaping loses nothing: decoding the five entities gives the input
      back. In particular nothing is escaped twice, which is what replacing
      the ampersand first achieves. */
  lemma {:induction false} UnescapeEscape(s: string)
    ensures Unescape(EscapeHtml(s)) == s
  {
    EscapeIsPerChar(s);
    UnescapeEach(s);
  }

  lemma {:induction false} UnescapeEach(s: string)
    ensures Unescape(EscapeEach(s)) == s
  {
    if s != [] {
      UnescapeStep(s[0], EscapeEach(s[1..]));
      UnescapeEach(s[1..]);
    }
  }

  predicate IsSpecial(c: char) {
    c == '&' || c == '<' || c == '>' || c == '"' || c == '\''
  }

  lemma {:induction false} EscapeEachNoRaw(s: string)
    ensures '<' !in EscapeEach(s) && '>' !in EscapeEach(s) && '"' !in EscapeEach(s) && '\'' !in EscapeEach(s)
  {
    if s != [] {
      EscapeEachNoRaw(s[1..]);
    }
  }

  /** Escaped text contains no raw <, >, " or '. */
  lemma EscapeNoRaw(s: string)
    ensures var r := EscapeHtml(s); '<' !in r && '>' !in r && '"' !in r && '\'' !in r
  {
    EscapeIsPerChar(s);
    EscapeEachNoRaw(s);
  }

  lemma {:induction false} EscapeEachPlain(s: string)
    requires forall k :: 0 <= k < |s| ==> !IsSpecial(s[k])
    ensures EscapeEach(s) == s
  {
    if s != [] {
      EscapeEachPlain(s[1..]);
    }
  }

  /** Text without any of the five special characters is shown as it is. */
  lemma EscapePlain(s: string)
    requires forall k :: 0 <= k < |s| ==> !IsSpecial(s[k])
    ensures EscapeHtml(s) == s
  {
    EscapeIsPerChar(s);
    EscapeEachPlain(s);
  }

  /** `item.id === myId`: the entry is the viewer's own. */
  predicate IsMe(e: Entry, myId: Option<int>) {
    myId.Some? && e.id == myId.value
  }

  /** The viewer's 1-based position: shown only when `myId` is set and
      non-zero and some entry carries it, and then it is one more than the
      index of the first such entry. */
  function Position(q: seq<Entry>, myId: Option<int>): (r: Option<nat>)
    ensures r.Some? ==>
      && 1 <= r.value <= |q| && IsMe(q[r.value - 1], myId)
      && forall j :: 0 <= j < r.value - 1 ==> !IsMe(q[j], myId)
    ensures r.None? <==> myId.None? || myId.value == 0 || forall j :: 0 <= j < |q| ==> !IsMe(q[j], myId)
  {
    if myId.None? then None
    else
      var idx := IndexOfId(q, myId.value);
      if myId.value != 0 && idx >= 0 then Some(idx + 1) else None
  }

  /** The position line under the join form. */
  function PositionText(p: Option<nat>): (r: string)
    ensures r == [] <==> p.None?
  {
    if p.Some? then "You are #" + NatToString(p.value) + " in queue" else ""
  }

  /** A rendered queue item: its markup and whether it has the "me" class. */
  datatype Item = Item(markup: string, me: bool)

  /** The markup of the entry at 1-based position `k`; `when` stands for
      the browser's time-of-day formatting of the join time. */
  function ItemMarkup(e: Entry, k: nat, when: int -> string): string {
    "<strong>" + EscapeHtml(e.name) + "</strong> <span class=\"meta\">#" + NatToString(k)
      + " \U{2022} " + when(e.joinedAt) + "</span>"
  }

  /** The position line is "You are #", the position and " in queue";
      the number reads back as the position. */
  lemma PositionNumber(p: Option<nat>)
    requires p.Some?
    ensures var r := PositionText(p); var d := NatToString(p.value);
      && |r| == 18 + |d| && r[..9] == "You are #" && r[9..9 + |d|] == d
      && r[9 + |d|..] == " in queue" && AllDigits(r[9..9 + |d|]) && ParseNat(r[9..9 + |d|]) == p.value
  {
    var d := NatToString(p.value);
    Pieces("You are #", d, " in queue");
    ParseNatToString(p.value);
  }

  /** Where the three parts of a + b + c are found again. */
  lemma Pieces(a: string, b: string, c: string)
    ensures var s := a + b + c;
      s[..|a|] == a && s[|a|..|a| + |b|] == b && s[|a| + |b|..] == c
  {
    var s := a + b + c;
    assert s[..|a|] == a;
    assert s[|a|..|a| + |b|] == b;
    assert s[|a| + |b|..] == c;
  }

  /** The item's number follows the "#" after the name, is followed by a
      space, and reads back as the position `k`. */
  lemma ItemNumber(e: Entry, k: nat, when: int -> string)
    ensures var m := ItemMarkup(e, k, when); var n := |EscapeHtml(e.name)|; var d := NatToString(k);
      && |m| > n + 31 + |d| && m[n + 37] == '#' && m[n + 38..n + 38 + |d|] == d
      && m[n + 38 + |d|] == ' ' && ParseNat(m[n + 38..n + 38 + |d|]) == k
  {
    var esc := EscapeHtml(e.name);
    var d := NatToString(k);
    var head := "<strong>" + esc + "</strong> <span class=\"meta\">#";
    var tail := " \U{2022} " + when(e.joinedAt) + "</span>";
    assert ItemMarkup(e, k, when) == head + d + tail;
    assert |head| == |esc| + 38;
    assert head[|esc| + 37] == '#';
    Pieces(head, d, tail);
    ParseNatToString(k);
  }

  /** The name sits escaped between <strong> and </strong>: none of its
      characters opens a tag, so no name can break the markup, and it
      decodes back to the name. */
  lemma ItemNameContained(e: Entry, k: nat, when: int -> string)
    ensures var m := ItemMarkup(e, k, when); var n := |EscapeHtml(e.name)|;
      && |m| > n + 17 && m[..8] == "<strong>" && m[8 + n..8 + n + 9] == "</strong>"
      && (forall i :: 8 <= i < 8 + n ==> m[i] != '<')
      && Unescape(m[8..8 + n]) == e.name
  {
    var esc := EscapeHtml(e.name);
    var rest := "</strong> <span class=\"meta\">#" + NatToString(k) + " \U{2022} " + when(e.joinedAt) + "</span>";
    assert ItemMarkup(e, k, when) == "<strong>" + esc + rest;
    Bracketed(esc, rest);
    EscapeNoRaw(e.name);
    UnescapeEscape(e.name);
  }

  /** Where the pieces of "<strong>" + esc + rest are found again. */
  lemma Bracketed(esc: string, rest: string)
    requires |rest| >= 9 && rest[..9] == "</strong>"
    ensures var m := "<strong>" + esc + rest; var n := |esc|;
      && |m| == n + 8 + |rest| && m[..8] == "<strong>" && m[8..8 + n] == esc
      && m[8 + n..8 + n + 9] == "</strong>"
  {
    var m := "<strong>" + esc + rest;
    assert m[..8] == "<strong>";
    assert m[8..8 + |esc|] == esc;
    assert m[8 + |esc|..8 + |esc| + 9] == rest[..9];
  }

  /** The forEach of render: one item per entry, in queue order, numbered
      from 1, marked "me" exactly where the entry's id is `myId`. */
  method RenderQueue(q: seq<Entry>, myId: Option<int>, when: int -> string) returns (items: seq<Item>)
    ensures |items| == |q|
    ensures forall k :: 0 <= k < |q| ==>
      items[k].markup == ItemMarkup(q[k], k + 1, when) && (items[k].me <==> IsMe(q[k], myId))
  {
    items := [];
    for i := 0 to |q|
      invariant |items| == i
      invariant forall k :: 0 <= k < i ==>
        items[k].markup == ItemMarkup(q[k], k + 1, when) && (items[k].me <==> IsMe(q[k], myId))
    {
      items := items + [Item(ItemMarkup(q[i], i + 1, when), IsMe(q[i], myId))];
    }
  }

  /** The entry the position line points at is the first one marked "me". */
  lemma PositionMatchesMe(q: seq<Entry>, myId: Option<int>, items: seq<Item>)
    requires |items| == |q| && forall k :: 0 <= k < |q| ==> (items[k].me <==> IsMe(q[k], myId))
    requires Position(q, myId).Some?
    ensures items[Position(q, myId).value - 1].me
    ensures forall j :: 0 <= j < Position(q, myId).value - 1 ==> !items[j].me
  {
  }

  /** The join form: a name that is empty after trimming is not sent. */
  function JoinName(raw: string): (r: Option<string>)
    ensures r.Some? ==> r.value != [] && r.value == Trim(raw)
    ensures r.None? <==> forall k :: 0 <= k < |raw| ==> IsWhitespace(raw[k])
  {
    TrimEmpty(raw);
    var name := Trim(raw);
    if name == [] then None else Some(name)
  }

  /** Every name the form sends is accepted by the server, which stores
      what it would have stored for the untrimmed input. */
  lemma JoinNameAccepted(raw: string)
    requires JoinName(raw).Some?
    ensures TrimAndCut(JoinName(raw).value, NameLimit) != []
    ensures TrimAndCut(JoinName(raw).value, NameLimit) == TrimAndCut(raw, NameLimit)
  {
    TrimIdempotent(raw);
  }

  /** What the viewer page displays. */
  datatype View = View(title: string, connected: string, configured: string,
                       countdown: Display, items: seq<Item>, position: string)

  class Page {
    var appState: Option<Snapshot>
    var myId: Option<int>

    /** Page load: no state yet; `stored` is the id kept from an earlier join. */
    constructor (stored: Option<int>)
      ensures appState == None && myId == stored
    {
      appState := None;
      myId := stored;
    }

    /** A `state` event or a periodic pull: keep the newest snapshot. */
    method ReceiveState(s: Snapshot)
      modifies this`appState
      ensures appState == Some(s) && myId == old(myId)
    {
      appState := Some(s);
    }

    /** The join reply: a truthy id becomes the viewer's id. */
    method JoinReplied(id: Option<int>)
      modifies this`myId
      ensures myId == (if id.Some? && id.value != 0 then id else old(myId))
      ensures appState == old(appState)
    {
      if id.Some? && id.value != 0 {
        myId := id;
      }
    }

    /** render: nothing before the first snapshot; then the subject (or
        "Meeting"), the connected count, the configured duration, the
        countdown, the queue and the viewer's position. */
    method Render(now: int, when: int -> string) returns (v: Option<View>)
      ensures v.None? <==> appState.None?
      ensures v.Some? ==>
        var s := appState.value;
        && v.value.title == (if s.subject == "" then "Meeting" else s.subject)
        && v.value.connected == NatToString(s.connected)
        && v.value.configured == MsToClock(s.timer.durationMs)
        && v.value.countdown == ClientCountdown(s.timer, now)
        && |v.value.items| == |s.queue|
        && (forall k :: 0 <= k < |s.queue| ==>
              v.value.items[k].markup == ItemMarkup(s.queue[k], k + 1, when)
              && (v.value.items[k].me <==> IsMe(s.queue[k], myId)))
        && v.value.position == PositionText(Position(s.queue, myId))
    {
      if appState.None? {
        return None;
      }
      var s := appState.value;
      var items := RenderQueue(s.queue, myId, when);
      v := Some(View(if s.subject == "" then "Meeting" else s.subject, NatToString(s.connected),
                     MsToClock(s.timer.durationMs), ClientCountdown(s.timer, now), items,
                     PositionText(Position(s.queue, myId))));
    }
  }
}
