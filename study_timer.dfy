/**
 * The countdown display: seconds remaining rendered as minutes, a colon and
 * two-digit seconds.
 */
module StudyTimer {

  function DigitChar(d: int): (c: char)
    requires 0 <= d < 10
    ensures '0' <= c <= '9'
    ensures c as int - '0' as int == d
  {
    ('0' as int + d) as char
  }

  function DigitValue(c: char): int
  {
    c as int - '0' as int
  }

  predicate IsDigits(s: string)
  {
    forall i :: 0 <= i < |s| ==> '0' <= s[i] <= '9'
  }

  /** `n.toString()` for a non-negative integer: its decimal digits, no leading zero. */
  function NatToString(n: nat): (s: string)
    ensures |s| >= 1 && IsDigits(s)
    ensures n < 10 <==> |s| == 1
    ensures |s| > 1 ==> s[0] != '0'
  {
    if n < 10 then [DigitChar(n)]
    else NatToString(n / 10) + [DigitChar(n % 10)]
  }

  /** `i.toString()` for any integer. */
  function IntToString(i: int): string
  {
    if i < 0 then "-" + NatToString(-i) else NatToString(i)
  }

  /** `s.padStart(2, '0')`. */
  function PadStart2(s: string): (r: string)
    ensures |r| == if |s| >= 2 then |s| else 2
    ensures r[|r| - |s|..] == s
    ensures forall i :: 0 <= i < |r| - |s| ==> r[i] == '0'
  {
    if |s| >= 2 then s else if |s| == 1 then "0" + s else "00"
  }

  /** JavaScript's `%`: the remainder takes the sign of the dividend. */
  function JsRem(a: int, b: int): int
    requires b > 0
  {
    if a >= 0 then a % b else -((-a) % b)
  }

  /** `Math.floor(t / 60)`. */
  function Minutes(t: int): int
  {
    t / 60
  }

  /** `t % 60`. */
  function Seconds(t: int): int
  {
    JsRem(t, 60)
  }

  /**
   * The text of the timer: `{minutes}:{seconds.toString().padStart(2, '0')}`.
   * For a countdown that is not negative, the minutes in decimal without a
   * leading zero, a colon and the seconds as exactly two digits; a negative
   * countdown shows a minus sign first.
   */
  function FormatTime(t: int): (s: string)
    ensures t >= 0 ==> TimerText(s, Minutes(t), Seconds(t))
    ensures t < 0 ==> |s| > 0 && s[0] == '-'
  {
    var m := IntToString(Minutes(t));
    var sec := PadStart2(IntToString(Seconds(t)));
    if t >= 0 then
      MinutesSecondsSplit(t);
      SecondsTwoDigits(t);
      JoinTimerText(m, sec, Minutes(t), Seconds(t));
      m + ":" + sec
    else
      m + ":" + sec
  }

  /**
   * `s` shows `minutes` and `seconds`: the minutes in decimal without a
   * leading zero, a colon, and the seconds as exactly two digits.
   */
  predicate TimerText(s: string, minutes: nat, seconds: int)
  {
    var k := |s| - 3;
    && k >= 1 && s[k] == ':' && s[..k] == NatToString(minutes)
    && IsDigits(s[k + 1..]) && DigitValue(s[k + 1]) * 10 + DigitValue(s[k + 2]) == seconds
  }

  /** The minute digits, a colon and two second digits make a timer text. */
  lemma JoinTimerText(m: string, sec: string, minutes: nat, seconds: int)
    requires m == NatToString(minutes)
    requires |sec| == 2 && IsDigits(sec) && DigitValue(sec[0]) * 10 + DigitValue(sec[1]) == seconds
    ensures TimerText(m + ":" + sec, minutes, seconds)
  {
    var s := m + ":" + sec;
    assert s[..|m|] == m && s[|m|] == ':' && s[|m| + 1..] == sec;
  }

  /** A timer text reads back as its minutes times sixty plus its seconds. */
  lemma ParseTimerText(s: string, minutes: nat, seconds: int)
    requires TimerText(s, minutes, seconds)
    ensures ParseTime(s) == minutes * 60 + seconds
  {
    var k := |s| - 3;
    var m, sec := s[..k], s[k + 1..];
    assert s == m + ":" + sec;
    ColonAfterDigits(m, sec);
    ParseNatToString(minutes);
    assert |sec| == 2 && sec[0] == s[k + 1] && sec[1] == s[k + 2];
    ParseTwoChars(sec);
  }

  /** For a countdown that is not negative, minutes and seconds split it exactly. */
  lemma MinutesSecondsSplit(t: int)
    requires t >= 0
    ensures 0 <= Seconds(t) < 60
    ensures Minutes(t) * 60 + Seconds(t) == t
    ensures Minutes(t) >= 0
  {
  }

  /** Seconds always show as exactly two digits, a leading '0' below ten. */
  lemma SecondsTwoDigits(t: int)
    requires t >= 0
    ensures var s := PadStart2(IntToString(Seconds(t)));
      |s| == 2 && IsDigits(s) && DigitValue(s[0]) * 10 + DigitValue(s[1]) == Seconds(t)
  {
    var sec := Seconds(t);
    assert 0 <= sec < 60 && IntToString(sec) == NatToString(sec);
    TwoDigits(sec);
  }

  lemma TwoDigits(n: nat)
    requires n < 100
    ensures var s := PadStart2(NatToString(n));
      |s| == 2 && IsDigits(s) && DigitValue(s[0]) * 10 + DigitValue(s[1]) == n
  {
    if n < 10 {
      assert PadStart2(NatToString(n)) == ['0', DigitChar(n)];
    } else {
      var hi, lo := n / 10, n % 10;
      assert n == hi * 10 + lo && hi < 10;
      assert NatToString(n) == NatToString(hi) + [DigitChar(lo)];
      assert NatToString(hi) == [DigitChar(hi)];
      assert PadStart2(NatToString(n)) == [DigitChar(hi), DigitChar(lo)];
    }
  }

  /** The decimal value of a digit string. */
  function ParseNat(s: string): int
  {
    if s == [] then 0 else ParseNat(s[..|s| - 1]) * 10 + DigitValue(s[|s| - 1])
  }

  lemma {:induction false} ParseNatToString(n: nat)
    ensures ParseNat(NatToString(n)) == n
  {
    var s := NatToString(n);
    if n >= 10 {
      ParseNatToString(n / 10);
      assert s[..|s| - 1] == NatToString(n / 10);
    }
  }

  /** The position of the first colon, or the length when there is none. */
  function IndexOfColon(s: string): (i: nat)
    ensures i <= |s|
    ensures i < |s| ==> s[i] == ':'
    ensures forall k :: 0 <= k < i ==> s[k] != ':'
  {
    if s == [] then 0
    else if s[0] == ':' then 0
    else 1 + IndexOfColon(s[1..])
  }

  /** Reads a timer text back: the minutes before the colon, the seconds after it. */
  function ParseTime(s: string): int
  {
    var i := IndexOfColon(s);
    if i < |s| then ParseNat(s[..i]) * 60 + ParseNat(s[i + 1..]) else 0
  }

  /** A two-character string reads as its tens digit and its units digit. */
  lemma ParseTwoChars(s: string)
    requires |s| == 2
    ensures ParseNat(s) == DigitValue(s[0]) * 10 + DigitValue(s[1])
  {
    var head := s[..1];
    assert s[..|s| - 1] == head && s[|s| - 1] == s[1];
    assert head[..|head| - 1] == [] && head[|head| - 1] == s[0];
    assert ParseNat(head) == ParseNat([]) * 10 + DigitValue(s[0]);
  }

  /** The first colon after a run of digits is the one right after them. */
  lemma {:induction false} ColonAfterDigits(m: string, rest: string)
    requires IsDigits(m)
    ensures IndexOfColon(m + ":" + rest) == |m|
  {
    if m != [] {
      var s := m + ":" + rest;
      assert s[0] == m[0] && s[1..] == m[1..] + ":" + rest;
      ColonAfterDigits(m[1..], rest);
    }
  }

  /** The text of any non-negative countdown reads back as that countdown. */
  lemma FormatTimeRoundTrip(t: int)
    requires t >= 0
    ensures ParseTime(FormatTime(t)) == t
  {
    MinutesSecondsSplit(t);
    ParseTimerText(FormatTime(t), Minutes(t), Seconds(t));
  }

  /** 300 seconds show as "5:00" and 65 as "1:05". */
  lemma FormatTimeExamples()
    ensures FormatTime(300) == "5:00"
    ensures FormatTime(65) == "1:05"
  {
    assert Minutes(300) == 5 && Seconds(300) == 0;
    assert Minutes(65) == 1 && Seconds(65) == 5;
    assert IntToString(5) == "5" && IntToString(0) == "0" && IntToString(1) == "1";
    assert PadStart2("0") == "00" && PadStart2("5") == "05";
    assert FormatTime(300) == "5" + ":" + "00";
    assert FormatTime(65) == "1" + ":" + "05";
  }
}
