/** The clock of src/components/game/Stats.tsx: the elapsed-seconds expression of the timer
    effect (lines 20-28) and `formatTime` (lines 34-38), with JavaScript's number-to-string,
    `padStart`, `Math.floor` and remainder written out. */
module Stats {
  import opened Optional
  import opened GameStates

  /** JavaScript's `%`: the remainder takes the sign of the dividend; for a non-negative
      dividend it is the mathematical remainder, and `JsRemOdd` gives the negative side. */
  function JsRem(a: int, b: int): (r: int)
    requires b > 0
    ensures a >= 0 ==> 0 <= r < b && r == a % b
    ensures a < 0 ==> -b < r <= 0
  {
    if a >= 0 then a % b else -((-a) % b)
  }

  /** Negating the dividend negates the remainder. */
  lemma JsRemOdd(a: int, b: int)
    requires b > 0
    ensures JsRem(-a, b) == -JsRem(a, b)
  {
  }

  /** The decimal digit character for 0..9. */
  function DigitChar(d: nat): char
    requires d < 10
  {
    "0123456789"[d]
  }

  function DigitValue(c: char): nat
  {
    if '0' <= c <= '9' then (c as int - '0' as int) as nat else 0
  }

  predicate AllDigits(s: string)
  {
    forall k :: 0 <= k < |s| ==> '0' <= s[k] <= '9'
  }

  /** `n.toString()` for a non-negative integer: its decimal digits, no leading zero. */
  function NatToString(n: nat): (s: string)
    ensures |s| > 0 && AllDigits(s)
    ensures |s| > 1 ==> s[0] != '0'
    decreases n
  {
    if n < 10 then [DigitChar(n)] else NatToString(n / 10) + [DigitChar(n % 10)]
  }

  /** `n.toString()` for any integer: a minus sign before the digits of a negative number. */
  function IntToString(n: int): string
  {
    if n < 0 then "-" + NatToString(-n) else NatToString(n)
  }

  /** The value of a string of decimal digits. */
  function ParseNat(s: string): nat
    decreases |s|
  {
    if |s| == 0 then 0 else ParseNat(s[..|s| - 1]) * 10 + DigitValue(s[|s| - 1])
  }

  /** `s.padStart(width, fill)`: fill characters in front up to the width; never truncates. */
  function PadStart(s: string, width: nat, fill: char): (r: string)
    ensures |r| == if |s| >= width then |s| else width
    ensures r[|r| - |s|..] == s
    ensures forall k :: 0 <= k < |r| - |s| ==> r[k] == fill
  {
    if |s| >= width then s else seq(width - |s|, _ => fill) + s
  }

  /** `formatTime(seconds)`: floored minutes and the remainder, each padded to two digits with
      '0', joined by ':'. */
  function FormatTime(seconds: int): string
  {
    var minutes := seconds / 60;
    var remainingSeconds := JsRem(seconds, 60);
    PadStart(IntToString(minutes), 2, '0') + ":" + PadStart(IntToString(remainingSeconds), 2, '0')
  }

  /** Reads back `mm:ss`: the minutes before the colon times sixty plus the seconds after it. */
  function ParseTime(t: string): int
  {
    if |t| == 5 then ParseNat(t[..2]) * 60 + ParseNat(t[3..]) else -1
  }

  /** Decimal printing and reading are inverse. */
  lemma {:induction false} ParseNatToString(n: nat)
    ensures ParseNat(NatToString(n)) == n
    decreases n
  {
    var s := NatToString(n);
    if n >= 10 {
      ParseNatToString(n / 10);
      assert s[..|s| - 1] == NatToString(n / 10);
    }
  }

  /** A leading '0' does not change the value. */
  lemma {:induction false} ParseNatLeadingZero(s: string)
    ensures ParseNat("0" + s) == ParseNat(s)
    decreases |s|
  {
    if |s| > 0 {
      assert ("0" + s)[..|s|] == "0" + s[..|s| - 1];
      ParseNatLeadingZero(s[..|s| - 1]);
    }
  }

  /** Numbers below 100 print in at most two digits. */
  lemma NatToStringShort(n: nat)
    requires n < 100
    ensures |NatToString(n)| <= 2
  {
  }

  /** A number below 100, printed and padded to two places, reads back as itself. */
  lemma {:induction false} TwoDigits(n: nat)
    requires n < 100
    ensures |PadStart(IntToString(n), 2, '0')| == 2
    ensures AllDigits(PadStart(IntToString(n), 2, '0'))
    ensures ParseNat(PadStart(IntToString(n), 2, '0')) == n
  {
    var s := NatToString(n);
    NatToStringShort(n);
    ParseNatToString(n);
    if |s| < 2 {
      assert PadStart(s, 2, '0') == "0" + s;
      ParseNatLeadingZero(s);
    }
  }

  /** For a non-negative count the minutes and seconds split it: the seconds are 0..59 and
      minutes times sixty plus seconds gives the count back. */
  lemma MinutesAndSeconds(seconds: int)
    requires seconds >= 0
    ensures 0 <= JsRem(seconds, 60) < 60
    ensures (seconds / 60) * 60 + JsRem(seconds, 60) == seconds
  {
  }

  /** Two two-character fields joined by ':' read back field by field. */
  lemma JoinedFields(a: string, b: string)
    requires |a| == 2 && |b| == 2
    ensures var t := a + ":" + b;
      |t| == 5 && t[2] == ':' && t[..2] == a && t[3..] == b && ParseTime(t) == ParseNat(a) * 60 + ParseNat(b)
  {
    var t := a + ":" + b;
    assert t[..2] == a && t[3..] == b;
  }

  /** Two fields below 100 and 60 print as `mm:ss` and read back as the seconds they stand for. */
  lemma ClockReading(m: nat, r: nat)
    requires m < 100 && r < 60
    ensures var t := PadStart(IntToString(m), 2, '0') + ":" + PadStart(IntToString(r), 2, '0');
      && |t| == 5 && t[2] == ':' && AllDigits(t[..2]) && AllDigits(t[3..])
      && ParseTime(t) == m * 60 + r
  {
    TwoDigits(m);
    TwoDigits(r);
    JoinedFields(PadStart(IntToString(m), 2, '0'), PadStart(IntToString(r), 2, '0'));
  }

  /** Below 100 minutes the clock reads `mm:ss`: five characters, digits around a colon, and
      reading it back gives the seconds. */
  lemma FormatTimeRoundTrip(seconds: int)
    requires 0 <= seconds < 6000
    ensures |FormatTime(seconds)| == 5 && FormatTime(seconds)[2] == ':'
    ensures AllDigits(FormatTime(seconds)[..2]) && AllDigits(FormatTime(seconds)[3..])
    ensures ParseTime(FormatTime(seconds)) == seconds
  {
    MinutesAndSeconds(seconds);
    var m, r := seconds / 60, JsRem(seconds, 60);
    assert m < 100;
    assert FormatTime(seconds) == PadStart(IntToString(m), 2, '0') + ":" + PadStart(IntToString(r), 2, '0');
    ClockReading(m, r);
  }

  /** The timer effect's value: nothing while the start time is falsy; the frozen
      `floor((endTime - startTime) / 1000)` once the end time is truthy; otherwise the running
      value at `now` (`Date.now()`). */
  function ElapsedSeconds(startTime: Option<int>, endTime: Option<int>, now: int): Option<int>
  {
    if Falsy(startTime) then None
    else if !Falsy(endTime) then Some((endTime.value - startTime.value) / 1000)
    else Some((now - startTime.value) / 1000)
  }

  /** Once the game has ended the clock stops; before that it never runs backwards and counts
      whole seconds since the start. */
  lemma ElapsedBehaviour(startTime: Option<int>, endTime: Option<int>, now: int, later: int)
    requires now <= later
    ensures Falsy(startTime) ==> ElapsedSeconds(startTime, endTime, now).None?
    ensures !Falsy(startTime) && !Falsy(endTime) ==>
      ElapsedSeconds(startTime, endTime, now) == ElapsedSeconds(startTime, endTime, later)
      == Some((endTime.value - startTime.value) / 1000)
    ensures !Falsy(startTime) && Falsy(endTime) ==>
      ElapsedSeconds(startTime, endTime, now).value <= ElapsedSeconds(startTime, endTime, later).value
    ensures !Falsy(startTime) && Falsy(endTime) ==>
      var e := ElapsedSeconds(startTime, endTime, now).value;
      e * 1000 <= now - startTime.value < (e + 1) * 1000
  {
    if !Falsy(startTime) && Falsy(endTime) {
      var d1 := now - startTime.value;
      var d2 := later - startTime.value;
      assert d1 / 1000 <= d2 / 1000;
    }
  }
}
