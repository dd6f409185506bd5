/**
 * The clock's time label: `formatTime(timeRemaining:)` renders a count of
 * seconds as minutes and seconds, each printed with the `%02d` conversion
 * and joined by a colon. Digits are modelled as characters '0'..'9'; the
 * inverse parser `ParseTime` is the formatter's partner.
 */
module TimeFormat {

  datatype Option<T> = None | Some(value: T)

  predicate IsDigit(c: char) {
    '0' <= c <= '9'
  }

  predicate AllDigits(s: string) {
    forall i :: 0 <= i < |s| ==> IsDigit(s[i])
  }

  function DigitValue(c: char): (d: nat)
    requires IsDigit(c)
    ensures d < 10
  {
    c as int - '0' as int
  }

  function DigitChar(d: nat): (c: char)
    requires d < 10
    ensures IsDigit(c) && DigitValue(c) == d
  {
    ('0' as int + d) as char
  }

  /** The value of a string of decimal digits, most significant first. */
  function ValueOf(s: string): nat
    requires AllDigits(s)
  {
    if s == [] then 0 else ValueOf(s[..|s| - 1]) * 10 + DigitValue(s[|s| - 1])
  }

  /** `%d` of a non-negative number: its decimal digits, with no leading zero. */
  function Decimal(n: nat): (r: string)
    ensures |r| >= 1 && AllDigits(r)
    ensures |r| > 1 ==> r[0] != '0'
    ensures n < 10 <==> |r| == 1
    ensures 10 <= n < 100 <==> |r| == 2
  {
    if n < 10 then [DigitChar(n)] else Decimal(n / 10) + [DigitChar(n % 10)]
  }

  lemma {:induction false} DecimalRoundTrip(n: nat)
    ensures ValueOf(Decimal(n)) == n
  {
    if n >= 10 {
      var r := Decimal(n);
      assert r[..|r| - 1] == Decimal(n / 10);
      DecimalRoundTrip(n / 10);
    }
  }

  /** `%02d` of a non-negative number: its decimal digits, left-padded with '0' to width two. */
  function Pad2(n: nat): (r: string)
    ensures AllDigits(r) && |r| >= 2
    ensures n < 100 <==> |r| == 2
    ensures |r| > 2 ==> r[0] != '0'
  {
    if n < 10 then "0" + Decimal(n) else Decimal(n)
  }

  lemma Pad2RoundTrip(n: nat)
    ensures ValueOf(Pad2(n)) == n
  {
    DecimalRoundTrip(n);
    if n < 10 {
      var r := Pad2(n);
      assert r[..1] == "0";
    }
  }

  /** The label shown for `t` seconds: minutes `t / 60` and seconds `t % 60`, each as `%02d`, joined by ':'. */
  function FormatTime(t: nat): (r: string)
    ensures |r| >= 5 && r[|r| - 3] == ':'
    ensures AllDigits(r[..|r| - 3]) && AllDigits(r[|r| - 2..])
    ensures t < 6000 <==> |r| == 5
    ensures |r| > 5 ==> r[0] != '0'
  {
    Pad2(t / 60) + ":" + Pad2(t % 60)
  }

  /**
   * Reads a label back: everything before the third-last character (which
   * must be ':') is the minutes, the last two characters are the seconds.
   */
  function ParseTime(r: string): (t: Option<nat>)
    ensures t.Some? ==> |r| >= 3 && r[|r| - 3] == ':'
  {
    if |r| >= 3 && r[|r| - 3] == ':' && AllDigits(r[..|r| - 3]) && AllDigits(r[|r| - 2..])
      && ValueOf(r[|r| - 2..]) < 60
    then Some(ValueOf(r[..|r| - 3]) * 60 + ValueOf(r[|r| - 2..]))
    else None
  }

  /** The minutes field reads back as `t / 60` and the seconds field as `t % 60`, which lies in 0..59. */
  lemma {:induction false} FormatTimeFields(t: nat)
    ensures var r := FormatTime(t);
            ValueOf(r[..|r| - 3]) == t / 60 && ValueOf(r[|r| - 2..]) == t % 60
    ensures 0 <= t % 60 < 60 && (t / 60) * 60 + t % 60 == t
  {
    var r := FormatTime(t);
    var m, s := Pad2(t / 60), Pad2(t % 60);
    assert r[..|r| - 3] == m;
    assert r[|r| - 2..] == s;
    Pad2RoundTrip(t / 60);
    Pad2RoundTrip(t % 60);
  }

  lemma FormatTimeRoundTrip(t: nat)
    ensures ParseTime(FormatTime(t)) == Some(t)
  {
    FormatTimeFields(t);
  }

  /** Different second counts never share a label. */
  lemma FormatTimeInjective(t: nat, u: nat)
    requires FormatTime(t) == FormatTime(u)
    ensures t == u
  {
    FormatTimeRoundTrip(t);
    FormatTimeRoundTrip(u);
  }

  /** Below 100 minutes the label is exactly "MM:SS". */
  lemma FormatTimeShape(t: nat)
    requires t < 6000
    ensures var r := FormatTime(t);
            |r| == 5 && r[2] == ':' && AllDigits(r[..2]) && AllDigits(r[3..])
            && ValueOf(r[..2]) == t / 60 && ValueOf(r[3..]) == t % 60
  {
    FormatTimeFields(t);
  }
}
