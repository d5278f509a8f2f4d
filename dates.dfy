/**
 * Calendar dates as the todo-list format writes them: exactly `YYYY-MM-DD`,
 * zero-padded, checked against the proleptic Gregorian calendar.
 */
module Dates {
  import opened Wrappers
  import opened Strings

  datatype Ymd = Ymd(year: int, month: int, day: int)

  predicate IsLeapYear(y: int) {
    y % 4 == 0 && (y % 100 != 0 || y % 400 == 0)
  }

  function DaysInMonth(y: int, m: int): int
    requires 1 <= m <= 12
  {
    if m == 2 then (if IsLeapYear(y) then 29 else 28)
    else if m == 4 || m == 6 || m == 9 || m == 11 then 30
    else 31
  }

  /** A real calendar day whose year has four digits. */
  predicate IsValid(d: Ymd) {
    && 0 <= d.year <= 9999
    && 1 <= d.month <= 12
    && 1 <= d.day <= DaysInMonth(d.year, d.month)
  }

  /** The model of chrono's NaiveDate: only valid days can be represented. */
  type Date = d: Ymd | IsValid(d) witness Ymd(2000, 1, 1)

  predicate IsDigit(c: char) {
    '0' <= c <= '9'
  }

  predicate AllDigits(s: string) {
    forall i :: 0 <= i < |s| ==> IsDigit(s[i])
  }

  function DigitValue(c: char): int
    requires IsDigit(c)
  {
    c as int - '0' as int
  }

  function DigitChar(n: int): char
    requires 0 <= n < 10
  {
    ('0' as int + n) as char
  }

  /** The value of a decimal numeral. */
  function Numeral(s: string): nat
    requires AllDigits(s)
  {
    if s == [] then 0 else Numeral(s[..|s| - 1]) * 10 + DigitValue(s[|s| - 1])
  }

  /** The last `width` decimal digits of `n`, zero-padded. */
  function Padded(n: nat, width: nat): string
  {
    if width == 0 then [] else Padded(n / 10, width - 1) + [DigitChar(n % 10)]
  }

  function Pow10(k: nat): nat {
    if k == 0 then 1 else 10 * Pow10(k - 1)
  }

  /** Reading back a zero-padded numeral gives the number, when it fits. */
  lemma {:induction false} NumeralOfPadded(n: nat, width: nat)
    requires n < Pow10(width)
    ensures |Padded(n, width)| == width
    ensures AllDigits(Padded(n, width))
    ensures Numeral(Padded(n, width)) == n
  {
    if width > 0 {
      NumeralOfPadded(n / 10, width - 1);
      var p := Padded(n, width);
      assert p[..|p| - 1] == Padded(n / 10, width - 1);
    }
  }

  /** Padding the value of a numeral to its own width gives the numeral back. */
  lemma {:induction false} PaddedOfNumeral(s: string)
    requires AllDigits(s)
    ensures Padded(Numeral(s), |s|) == s
  {
    if s != [] {
      var init := s[..|s| - 1];
      assert AllDigits(init);
      var v := DigitValue(s[|s| - 1]);
      assert Numeral(s) / 10 == Numeral(init) && Numeral(s) % 10 == v;
      PaddedOfNumeral(init);
      assert s == init + [s[|s| - 1]];
    }
  }

  /** Ten characters `DDDD-DD-DD`. */
  predicate IsDateShape(t: string) {
    && |t| == 10
    && t[4] == '-' && t[7] == '-'
    && AllDigits(t[..4]) && AllDigits(t[5..7]) && AllDigits(t[8..])
  }

  /**
   * The strict recogniser standing for `NaiveDate::parse_from_str(t, "%Y-%m-%d")`:
   * a date exactly when `t` has the shape `DDDD-DD-DD` and names a real day.
   */
  function ParseDate(t: string): (r: Option<Date>)
    ensures r.Some? ==> IsDateShape(t) && IsWord(t)
  {
    if IsDateShape(t) then
      var d := Ymd(Numeral(t[..4]), Numeral(t[5..7]), Numeral(t[8..]));
      if IsValid(d) then
        assert IsWord(t) by {
          forall i | 0 <= i < 10 ensures !IsSpace(t[i]) {
            if i < 4 { assert t[i] == t[..4][i]; }
            else if 4 < i < 7 { assert t[i] == t[5..7][i - 5]; }
            else if 7 < i { assert t[i] == t[8..][i - 8]; }
          }
        }
        Some(d)
      else None
    else None
  }

  /** NaiveDate's Display for four-digit years: `YYYY-MM-DD`, zero-padded. */
  function FormatDate(d: Date): string
  {
    Padded(d.year, 4) + "-" + Padded(d.month, 2) + "-" + Padded(d.day, 2)
  }

  /** The formatter's output is recognised as the same date. */
  lemma ParseOfFormat(d: Date)
    ensures ParseDate(FormatDate(d)) == Some(d)
  {
    assert Pow10(2) == 100 && Pow10(4) == 10000;
    NumeralOfPadded(d.year, 4);
    NumeralOfPadded(d.month, 2);
    NumeralOfPadded(d.day, 2);
    var t := FormatDate(d);
    assert t[..4] == Padded(d.year, 4);
    assert t[5..7] == Padded(d.month, 2);
    assert t[8..] == Padded(d.day, 2);
  }

  /** The recogniser is strict: a recognised token is the formatter's output for its date. */
  lemma FormatOfParse(t: string)
    requires ParseDate(t).Some?
    ensures FormatDate(ParseDate(t).value) == t
  {
    PaddedOfNumeral(t[..4]);
    PaddedOfNumeral(t[5..7]);
    PaddedOfNumeral(t[8..]);
    assert t == t[..4] + "-" + t[5..7] + "-" + t[8..];
  }

  /** A formatted date is a single ten-character word. */
  lemma FormatIsWord(d: Date)
    ensures |FormatDate(d)| == 10 && IsWord(FormatDate(d))
  {
    ParseOfFormat(d);
  }
}
