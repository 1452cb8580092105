/**
 * The popup's countdown text: remaining milliseconds shown as whole minutes
 * and seconds, each rendered with String(n).padStart(2, '0').
 */
module Countdown {
  import opened Wrappers

  predicate IsDigit(c: char)
  {
    '0' <= c <= '9'
  }

  function DigitChar(d: nat): (c: char)
    requires d < 10
    ensures IsDigit(c)
  {
    (('0' as int) + d) as char
  }

  function DigitValue(c: char): (d: nat)
    requires IsDigit(c)
    ensures d < 10 && DigitChar(d) == c
  {
    (c as int) - ('0' as int)
  }

  /** String(n) for a non-negative integer: its decimal digits, no leading zero. */
  function Decimal(n: nat): (s: string)
    ensures 1 <= |s|
    ensures forall i :: 0 <= i < |s| ==> IsDigit(s[i])
    ensures (|s| == 1) == (n < 10)
    ensures |s| <= 2 <==> n < 100
    ensures n > 0 ==> s[0] != '0'
    decreases n
  {
    if n < 10 then [DigitChar(n)] else Decimal(n / 10) + [DigitChar(n % 10)]
  }

  /** s.padStart(2, '0'): zeros in front until the text is two characters long. */
  function Pad2(s: string): (r: string)
    ensures |r| == if |s| < 2 then 2 else |s|
    ensures r[|r| - |s|..] == s
    ensures forall i :: 0 <= i < |r| - |s| ==> r[i] == '0'
  {
    if |s| < 2 then seq(2 - |s|, _ => '0') + s else s
  }

  /** "MM:SS" rendering of a minutes and a seconds field. */
  function Clock(minutes: nat, seconds: nat): string
  {
    Pad2(Decimal(minutes)) + ":" + Pad2(Decimal(seconds))
  }

  /** The text the countdown shows for `remainingMs` > 0 milliseconds left. */
  function CountdownText(remainingMs: int): string
    requires remainingMs > 0
  {
    var totalSeconds := remainingMs / 1000;
    Clock(totalSeconds / 60, totalSeconds % 60)
  }

  // Reading the text back: the reference against which the rendering is checked.

  /** The value of a non-empty run of decimal digits (leading zeros allowed). */
  function ParseDecimal(s: string): Option<nat>
  {
    if |s| == 0 || !IsDigit(s[|s| - 1]) then None
    else if |s| == 1 then Some(DigitValue(s[0]))
    else match ParseDecimal(s[..|s| - 1])
      case None => None
      case Some(p) => Some(10 * p + DigitValue(s[|s| - 1]))
  }

  /** Index of the first ':' in t, if any. */
  function ColonAt(t: string): (r: Option<nat>)
    ensures r.Some? ==> r.value < |t| && t[r.value] == ':' && forall i :: 0 <= i < r.value ==> t[i] != ':'
    ensures r.None? ==> forall i :: 0 <= i < |t| ==> t[i] != ':'
  {
    if |t| == 0 then None
    else if t[0] == ':' then Some(0)
    else match ColonAt(t[1..])
      case None => None
      case Some(i) => Some(i + 1)
  }

  /** Minutes and seconds of a text "M:S", each part a run of digits. */
  function ParseCountdown(t: string): Option<(nat, nat)>
  {
    match ColonAt(t)
    case None => None
    case Some(i) =>
      match (ParseDecimal(t[..i]), ParseDecimal(t[i + 1..]))
      case (Some(m), Some(s)) => Some((m, s))
      case _ => None
  }

  lemma {:induction false} ParseDecimalOfDecimal(n: nat)
    ensures ParseDecimal(Decimal(n)) == Some(n)
    decreases n
  {
    if n >= 10 {
      var s := Decimal(n);
      assert s[..|s| - 1] == Decimal(n / 10);
      ParseDecimalOfDecimal(n / 10);
    }
  }

  /** A leading zero does not change the value of a digit run. */
  lemma {:induction false} ParseDecimalLeadingZero(s: string)
    requires ParseDecimal(s).Some?
    ensures ParseDecimal("0" + s) == ParseDecimal(s)
    decreases |s|
  {
    var t := "0" + s;
    if |s| == 1 {
      assert t[..|t| - 1] == "0";
    } else {
      assert t[..|t| - 1] == "0" + s[..|s| - 1];
      ParseDecimalLeadingZero(s[..|s| - 1]);
    }
  }

  lemma ParseDecimalOfPadded(n: nat)
    ensures ParseDecimal(Pad2(Decimal(n))) == Some(n)
  {
    var d := Decimal(n);
    ParseDecimalOfDecimal(n);
    if |d| < 2 {
      assert Pad2(d) == "0" + d;
      ParseDecimalLeadingZero(d);
    }
  }

  /** Splitting "a:b" at its first colon gives back a and b when a has no colon. */
  lemma SplitAtColon(a: string, b: string)
    requires forall i :: 0 <= i < |a| ==> a[i] != ':'
    ensures ColonAt(a + ":" + b) == Some(|a|)
    ensures (a + ":" + b)[..|a|] == a && (a + ":" + b)[|a| + 1..] == b
  {
    var t := a + ":" + b;
    assert t[|a|] == ':';
    assert forall i :: 0 <= i < |a| ==> t[i] == a[i];
  }

  lemma DigitsPadded(d: string)
    requires forall i :: 0 <= i < |d| ==> IsDigit(d[i])
    ensures forall i :: 0 <= i < |Pad2(d)| ==> IsDigit(Pad2(d)[i])
  {
    var r := Pad2(d);
    forall i | 0 <= i < |r| ensures IsDigit(r[i]) {
      if i >= |r| - |d| {
        assert r[i] == r[|r| - |d|..][i - (|r| - |d|)];
      }
    }
  }

  /** "a:b" with a free of colons reads back as the values of a and b. */
  lemma ParseJoined(a: string, b: string)
    requires forall i :: 0 <= i < |a| ==> a[i] != ':'
    requires ParseDecimal(a).Some? && ParseDecimal(b).Some?
    ensures ParseCountdown(a + ":" + b) == Some((ParseDecimal(a).value, ParseDecimal(b).value))
  {
    SplitAtColon(a, b);
  }

  /** A padded field reads back as its value and contains no colon. */
  lemma PaddedField(n: nat)
    ensures ParseDecimal(Pad2(Decimal(n))) == Some(n)
    ensures forall i :: 0 <= i < |Pad2(Decimal(n))| ==> Pad2(Decimal(n))[i] != ':'
  {
    ParseDecimalOfPadded(n);
    DigitsPadded(Decimal(n));
  }

  /** A clock text reads back as the two fields it was rendered from. */
  lemma ClockReadsBack(minutes: nat, seconds: nat)
    ensures ParseCountdown(Clock(minutes, seconds)) == Some((minutes, seconds))
  {
    PaddedField(minutes);
    PaddedField(seconds);
    ParseJoined(Pad2(Decimal(minutes)), Pad2(Decimal(seconds)));
  }

  /**
   * The countdown text reads back as whole minutes and seconds that recompose the
   * whole seconds remaining, with the seconds field always in 0..59.
   */
  lemma CountdownTextReadsBack(remainingMs: int)
    requires remainingMs > 0
    ensures ParseCountdown(CountdownText(remainingMs)).Some?
    ensures var (m, s) := ParseCountdown(CountdownText(remainingMs)).value;
      s < 60 && m * 60 + s == remainingMs / 1000 && m == remainingMs / 1000 / 60
  {
    var total := remainingMs / 1000;
    ClockReadsBack(total / 60, total % 60);
  }

  /** Under 100 minutes the text is exactly MM:SS. */
  lemma CountdownTextShape(remainingMs: int)
    requires 0 < remainingMs < 100 * 60 * 1000
    ensures |CountdownText(remainingMs)| == 5 && CountdownText(remainingMs)[2] == ':'
  {
    var total := remainingMs / 1000;
    assert total < 6000;
    assert total / 60 < 100;
  }

  /** One second left shows "00:01". */
  lemma CountdownOneSecond()
    ensures CountdownText(1000) == "00:01"
  {
    assert Decimal(0) == "0" && Decimal(1) == "1";
    assert Pad2("0") == "00" && Pad2("1") == "01";
  }
}
