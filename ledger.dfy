/**
  The talk-time ledger: per-speaker cumulative credited milliseconds and
  session counts, keyed by display name (server.js, `state.stats`).
*/
module Ledger {

  datatype Stat = Stat(totalMs: nat, sessions: nat)

  /** The ledger total of `name`, 0 when it has no entry yet. */
  function TotalMs(stats: map<string, Stat>, name: string): nat {
    if name in stats then stats[name].totalMs else 0
  }

  /** The ledger session count of `name`, 0 when it has no entry yet. */
  function Sessions(stats: map<string, Stat>, name: string): nat {
    if name in stats then stats[name].sessions else 0
  }

  /** safeAddTalkTime(name, ms): nothing happens for an empty name or a
      non-positive amount; otherwise the entry of `name` (zero if absent)
      gains `ms` milliseconds and one session, and no other entry changes. */
  function Credit(stats: map<string, Stat>, name: string, ms: int): (r: map<string, Stat>)
    ensures name == "" || ms <= 0 ==> r == stats
    ensures name != "" && ms > 0 ==>
      name in r && TotalMs(r, name) == TotalMs(stats, name) + ms && Sessions(r, name) == Sessions(stats, name) + 1
    ensures forall k :: k != name ==> (k in r <==> k in stats) && (k in stats ==> r[k] == stats[k])
  {
    if name == "" || ms <= 0 then stats
    else
      var s := if name in stats then stats[name] else Stat(0, 0);
      stats[name := Stat(s.totalMs + ms, s.sessions + 1)]
  }

  /** The names every plain JavaScript object inherits from Object.prototype. */
  const ObjectPrototypeNames: set<string> :=
    {"constructor", "__proto__", "__defineGetter__", "__defineSetter__", "__lookupGetter__",
     "__lookupSetter__", "hasOwnProperty", "isPrototypeOf", "propertyIsEnumerable",
     "toLocaleString", "toString", "valueOf"}

  /** safeAddTalkTime as written, on the ledger as published. The ledger is
      a plain object, so for an inherited name `state.stats[key] || {…}`
      finds the inherited member (a function, or Object.prototype itself for
      "__proto__") instead of a fresh entry. Its totals become NaN, and what
      is stored under the name is a function or no own property at all,
      both of which the JSON snapshot leaves out: such a speaker never
      appears in the published ledger. Every other name is credited as
      Credit does. */
  function CreditAsWritten(stats: map<string, Stat>, name: string, ms: int): (r: map<string, Stat>)
    ensures name !in ObjectPrototypeNames ==> r == Credit(stats, name, ms)
    ensures name in ObjectPrototypeNames ==> r == stats
  {
    if name in ObjectPrototypeNames then stats else Credit(stats, name, ms)
  }

  /** A speaker named "toString" (or any other inherited name) earns
      nothing in the published ledger as written, where Credit, the
      intended per-name map, records the turn. */
  lemma InheritedNameLost(stats: map<string, Stat>, name: string, ms: int)
    requires name in ObjectPrototypeNames && name !in stats && ms > 0
    ensures name !in CreditAsWritten(stats, name, ms)
    ensures TotalMs(Credit(stats, name, ms), name) == ms && Sessions(Credit(stats, name, ms), name) == 1
  {
  }

  /** Every entry has a non-empty name, at least one session, and at most
      `cap` milliseconds per session. */
  predicate Bounded(stats: map<string, Stat>, cap: nat) {
    forall k :: k in stats ==> k != "" && stats[k].sessions >= 1 && stats[k].totalMs <= stats[k].sessions * cap
  }

  /** A credit of at most `cap` keeps the ledger bounded. */
  lemma CreditKeepsBounded(stats: map<string, Stat>, name: string, ms: int, cap: nat)
    requires Bounded(stats, cap) && ms <= cap
    ensures Bounded(Credit(stats, name, ms), cap)
  {
    if name != "" && ms > 0 {
      var n := Sessions(stats, name);
      assert (n + 1) * cap == n * cap + cap;
    }
  }

  /** Credits applied one after the other. */
  function CreditAll(stats: map<string, Stat>, credits: seq<(string, int)>): map<string, Stat>
    decreases |credits|
  {
    if credits == [] then stats else CreditAll(Credit(stats, credits[0].0, credits[0].1), credits[1..])
  }

  /** The sum of the positive amounts credited to `name` (nothing when `name` is empty). */
  function CreditedSum(credits: seq<(string, int)>, name: string): nat
    decreases |credits|
  {
    if credits == [] then 0
    else (if name != "" && credits[0].0 == name && credits[0].1 > 0 then credits[0].1 else 0) + CreditedSum(credits[1..], name)
  }

  /** The number of credits to `name` that were not no-ops. */
  function CountedSessions(credits: seq<(string, int)>, name: string): nat
    decreases |credits|
  {
    if credits == [] then 0
    else (if name != "" && credits[0].0 == name && credits[0].1 > 0 then 1 else 0) + CountedSessions(credits[1..], name)
  }

  /** After any sequence of credits, a name's total is its starting total
      plus the sum of its positive contributions, and its session count
      grows by the number of those contributions. */
  lemma {:induction false} CreditAllTotals(stats: map<string, Stat>, credits: seq<(string, int)>, name: string)
    ensures TotalMs(CreditAll(stats, credits), name) == TotalMs(stats, name) + CreditedSum(credits, name)
    ensures Sessions(CreditAll(stats, credits), name) == Sessions(stats, name) + CountedSessions(credits, name)
    decreases |credits|
  {
    if credits != [] {
      CreditAllTotals(Credit(stats, credits[0].0, credits[0].1), credits[1..], name);
    }
  }
}
