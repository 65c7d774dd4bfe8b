/**
 * The countdown display of `count_down` (pomodoro/main.py:66-72): a number of
 * seconds is shown as `minutes:seconds`, the minutes in plain decimal without
 * padding and the seconds padded to two digits.  `ParseTime` reads such a text
 * back and is the partner that the round-trip lemma ties to `FormatTime`.
 */
module Display {
  import opened Wrappers

  predicate IsDigit(c: char) {
    '0' <= c <= '9'
  }

  predicate AllDigits(s: string) {
    forall i :: 0 <= i < |s| ==> IsDigit(s[i])
  }

  function DigitChar(d: nat): (c: char)
    requires d < 10
    ensures IsDigit(c) && c as int - '0' as int == d
  {
    (('0' as int) + d) as char
  }

  function DigitValue(c: char): (d: nat)
    requires IsDigit(c)
    ensures d < 10
  {
    c as int - '0' as int
  }

  /** Python's `str(n)` for a non-negative integer: shortest decimal form. */
  function Decimal(n: nat): string
    decreases n
  {
    if n < 10 then [DigitChar(n)] else Decimal(n / 10) + [DigitChar(n % 10)]
  }

  /** The decimal form is non-empty, all digits, and without a leading zero. */
  lemma {:induction false} DecimalShape(n: nat)
    ensures var s := Decimal(n);
      0 < |s| && AllDigits(s) && (s[0] == '0' ==> n == 0)
    decreases n
  {
    if n >= 10 {
      DecimalShape(n / 10);
    }
  }

  /** The value of a string of decimal digits (leading zeros allowed). */
  function ParseDecimal(s: string): nat
    requires AllDigits(s)
    decreases |s|
  {
    if s == [] then 0 else ParseDecimal(s[..|s| - 1]) * 10 + DigitValue(s[|s| - 1])
  }

  /** The seconds field: `'00'`, `'0<d>'` below ten, the plain number otherwise. */
  function SecondsField(sec: nat): string
    requires sec < 60
  {
    if sec == 0 then "00"
    else if sec < 10 then "0" + Decimal(sec)
    else Decimal(sec)
  }

  /** The seconds field is exactly two digits and reads back as `sec`. */
  lemma SecondsFieldShape(sec: nat)
    requires sec < 60
    ensures var f := SecondsField(sec);
      |f| == 2 && AllDigits(f) && ParseDecimal(f) == sec
  {
    DecimalShape(sec);
    DecimalRoundTrip(sec);
    if sec == 0 {
      assert "00"[..1] == "0" && "0"[..0] == [];
    } else if sec < 10 {
      DecimalOneDigit(sec);
      assert ("0" + Decimal(sec))[..1] == "0" && "0"[..0] == [];
    } else {
      DecimalTwoDigits(sec);
    }
  }

  /** The text `count_down` writes onto the canvas for `count` seconds. */
  function FormatTime(count: nat): string {
    Decimal(count / 60) + ":" + SecondsField(count % 60)
  }

  /**
   * The shape of the display: unpadded decimal minutes `count / 60`, a colon,
   * and exactly two digits holding `count % 60`.
   */
  lemma FormatTimeFields(count: nat)
    ensures var r := FormatTime(count);
      |r| >= 4 && r[|r| - 3] == ':'
      && r[..|r| - 3] == Decimal(count / 60)
      && AllDigits(r[|r| - 2..]) && ParseDecimal(r[|r| - 2..]) == count % 60
  {
    var r := FormatTime(count);
    DecimalShape(count / 60);
    SecondsFieldShape(count % 60);
    assert r[..|r| - 3] == Decimal(count / 60);
    assert r[|r| - 2..] == SecondsField(count % 60);
  }

  /** Reads `minutes:ss` back into a number of seconds; `None` for any other text. */
  function ParseTime(s: string): Option<nat> {
    if |s| >= 4 && s[|s| - 3] == ':' && AllDigits(s[..|s| - 3]) && AllDigits(s[|s| - 2..])
       && ParseDecimal(s[|s| - 2..]) < 60
    then Some(ParseDecimal(s[..|s| - 3]) * 60 + ParseDecimal(s[|s| - 2..]))
    else None
  }

  lemma DecimalOneDigit(d: nat)
    requires d < 10
    ensures Decimal(d) == [DigitChar(d)]
  {
  }

  lemma DecimalTwoDigits(n: nat)
    requires 10 <= n < 100
    ensures |Decimal(n)| == 2
  {
    DecimalOneDigit(n / 10);
  }

  /** Reading back the decimal form of `n` gives `n`. */
  lemma {:induction false} DecimalRoundTrip(n: nat)
    ensures AllDigits(Decimal(n)) && ParseDecimal(Decimal(n)) == n
    decreases n
  {
    DecimalShape(n);
    var s := Decimal(n);
    if n < 10 {
      assert s[..0] == [];
    } else {
      assert s[..|s| - 1] == Decimal(n / 10);
      DecimalRoundTrip(n / 10);
    }
  }

  /** The display text determines the count: minutes * 60 + seconds == count. */
  lemma FormatTimeRoundTrip(count: nat)
    ensures ParseTime(FormatTime(count)) == Some(count)
  {
    FormatTimeFields(count);
    DecimalRoundTrip(count / 60);
  }

  /** Different counts are shown differently. */
  lemma FormatTimeInjective(a: nat, b: nat)
    requires FormatTime(a) == FormatTime(b)
    ensures a == b
  {
    FormatTimeRoundTrip(a);
    FormatTimeRoundTrip(b);
  }

  /** The texts shown at the start of a work interval, a long and a short break. */
  lemma DurationTexts()
    ensures FormatTime(1500) == "25:00" && FormatTime(1200) == "20:00" && FormatTime(300) == "5:00"
  {
    DecimalOneDigit(5);
    assert Decimal(25) == [DigitChar(2), DigitChar(5)];
    assert Decimal(20) == [DigitChar(2), DigitChar(0)];
  }

  /** Sample displays: 1500, 599, 65 and 0 seconds. */
  lemma FormatTimeExamples()
    ensures FormatTime(1500) == "25:00"
    ensures FormatTime(599) == "9:59"
    ensures FormatTime(65) == "1:05"
    ensures FormatTime(0) == "0:00"
  {
    DurationTexts();
    DecimalOneDigit(9);
    DecimalOneDigit(1);
    DecimalOneDigit(0);
    assert Decimal(59) == [DigitChar(5), DigitChar(9)];
  }

  /** The idle text "00:00" is not what `FormatTime(0)` shows, though it reads as zero. */
  lemma ResetTextIsNotFormatted()
    ensures "00:00" != FormatTime(0)
    ensures ParseTime("00:00") == Some(0)
  {
    DecimalOneDigit(0);
    assert |FormatTime(0)| == 4;
    assert "00:00"[..2] == "00" && "00:00"[3..] == "00";
    assert "00"[..1] == "0" && "0"[..0] == [];
  }
}
