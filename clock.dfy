/**
  msToClock, defined identically in both browser scripts: milliseconds
  shown as "MM:SS", whole seconds rounded down, negative values as zero.
*/
module Clock {
  import opened Text

  /** Math.max(0, Math.floor(ms / 1000)). Dafny's division by a positive
      divisor rounds down, as Math.floor does, also for negative `ms`. */
  function WholeSeconds(ms: int): nat {
    if ms / 1000 < 0 then 0 else ms / 1000
  }

  /** The two padded fields s / 60 and s % 60 of s = WholeSeconds(ms),
      joined by a colon. */
  function MsToClock(ms: int): string {
    var s := WholeSeconds(ms);
    PaddedField(s / 60) + ":" + PaddedField(s % 60)
  }

  /** The clock text is a minutes field of at least two digits, a colon and
      a two-digit seconds field below 60; read back, the fields give the
      whole seconds of `ms`, and 0 for a negative `ms`. */
  lemma ClockFields(ms: int)
    ensures var r := MsToClock(ms);
      && |r| >= 5 && r[|r| - 3] == ':'
      && AllDigits(r[..|r| - 3]) && AllDigits(r[|r| - 2..])
      && ParseNat(r[|r| - 2..]) < 60
      && ParseNat(r[..|r| - 3]) * 60 + ParseNat(r[|r| - 2..]) == (if ms < 0 then 0 else ms / 1000)
      && (ms < 6000000 ==> |r| == 5)
      && (|r| > 5 ==> r[0] != '0')
  {
    var s := WholeSeconds(ms);
    var mm, ss := PaddedField(s / 60), PaddedField(s % 60);
    Joined(mm, ss, s / 60, s % 60);
    MinutesAndSeconds(s);
    SecondsOfMs(ms);
    MinutesBelow100(ms);
  }

  lemma MinutesBelow100(ms: int)
    ensures ms < 6000000 ==> WholeSeconds(ms) / 60 < 100
  {
  }

  /** String(n).padStart(2, "0"): at least two digits, exactly two below
      100, reading back as `n`. */
  function PaddedField(n: nat): (r: string)
    ensures |r| >= 2 && AllDigits(r) && ParseNat(r) == n
    ensures n < 100 ==> |r| == 2
    ensures n >= 10 ==> r == NatToString(n)
    ensures n >= 10 ==> r[0] != '0'
  {
    Pad2Digits(NatToString(n));
    ParseNatToString(n);
    Pad2(NatToString(n))
  }

  /** The two fields of "mm:ss" are found again around the colon. */
  lemma Joined(mm: string, ss: string, m: nat, sec: nat)
    requires |mm| >= 2 && |ss| == 2 && AllDigits(mm) && AllDigits(ss)
    requires ParseNat(mm) == m && ParseNat(ss) == sec
    ensures var r := mm + ":" + ss;
      && |r| >= 5 && r[|r| - 3] == ':'
      && AllDigits(r[..|r| - 3]) && AllDigits(r[|r| - 2..])
      && ParseNat(r[..|r| - 3]) == m && ParseNat(r[|r| - 2..]) == sec
  {
    var r := mm + ":" + ss;
    assert r[..|r| - 3] == mm;
    assert r[|r| - 2..] == ss;
  }

  lemma MinutesAndSeconds(s: nat)
    ensures (s / 60) * 60 + s % 60 == s && s % 60 < 60
  {
  }

  lemma SecondsOfMs(ms: int)
    ensures WholeSeconds(ms) == if ms < 0 then 0 else ms / 1000
  {
  }

  /** Anything under one second, negative values included, shows "00:00". */
  lemma ClockUnderOneSecond(ms: int)
    requires ms < 1000
    ensures MsToClock(ms) == "00:00"
  {
    assert WholeSeconds(ms) == 0;
    PaddedZero();
  }

  lemma PaddedZero()
    ensures PaddedField(0) == "00"
  {
    assert NatToString(0) == "0";
    assert Zeros(1) == "0";
  }
}
