/** The `"%Y-%m-%d"` text form of a date: `strftime` writes it when a form
    record is built and when a row's `Fecha` column is filled, `strptime`
    reads it back when records are aggregated, and the date filter compares
    it as plain text. */
module DateText {
  import opened Wrappers
  import opened Calendar

  predicate IsDigit(c: char) {
    '0' <= c <= '9'
  }

  function DigitChar(k: int): (c: char)
    requires 0 <= k <= 9
    ensures IsDigit(c)
  {
    ('0' as int + k) as char
  }

  function DigitValue(c: char): (k: int)
    requires IsDigit(c)
    ensures 0 <= k <= 9
  {
    c as int - '0' as int
  }

  predicate AllDigits(s: string) {
    forall i :: 0 <= i < |s| ==> IsDigit(s[i])
  }

  /** A number below 100 as two digits, zero-padded (`%m`, `%d`). */
  function TwoDigits(n: int): string
    requires 0 <= n < 100
  {
    [DigitChar(n / 10), DigitChar(n % 10)]
  }

  /** A number below 10000 as four digits, zero-padded (`%Y`). */
  function FourDigits(n: int): string
    requires 0 <= n < 10000
  {
    [DigitChar(n / 1000), DigitChar(n / 100 % 10), DigitChar(n / 10 % 10), DigitChar(n % 10)]
  }

  function TwoDigitValue(s: string): int
    requires |s| == 2 && AllDigits(s)
  {
    DigitValue(s[0]) * 10 + DigitValue(s[1])
  }

  function FourDigitValue(s: string): int
    requires |s| == 4 && AllDigits(s)
  {
    DigitValue(s[0]) * 1000 + DigitValue(s[1]) * 100 + DigitValue(s[2]) * 10 + DigitValue(s[3])
  }

  /** `date.strftime("%Y-%m-%d")`. */
  function FormatDate(d: Date): (s: string)
    ensures |s| == 10 && s[4] == '-' && s[7] == '-'
  {
    FourDigits(d.year) + "-" + TwoDigits(d.month) + "-" + TwoDigits(d.day)
  }

  /** Whether `s` has the shape `dddd-dd-dd`. */
  predicate DateShaped(s: string) {
    |s| == 10 && s[4] == '-' && s[7] == '-'
    && AllDigits(s[0..4]) && AllDigits(s[5..7]) && AllDigits(s[8..10])
  }

  /** `datetime.strptime(s, "%Y-%m-%d")` on the zero-padded form: `None`
      where it raises, because the text is not shaped like a date or names
      a day that does not exist. */
  function ParseDate(s: string): (r: Option<Date>)
    ensures r.Some? ==> |s| == 10 && s[4] == '-' && s[7] == '-'
  {
    if DateShaped(s) then
      var d := CivilDate(FourDigitValue(s[0..4]), TwoDigitValue(s[5..7]), TwoDigitValue(s[8..10]));
      if Valid(d) then Some(d) else None
    else
      None
  }

  lemma DigitRoundTrip(k: int, c: char)
    requires 0 <= k <= 9 && IsDigit(c)
    ensures DigitValue(DigitChar(k)) == k
    ensures DigitChar(DigitValue(c)) == c
  {
  }

  /** Reading back what `FormatDate` wrote gives the same date. */
  lemma ParseFormat(d: Date)
    ensures ParseDate(FormatDate(d)) == Some(d)
  {
    var s := FormatDate(d);
    assert s[0..4] == FourDigits(d.year);
    assert s[5..7] == TwoDigits(d.month);
    assert s[8..10] == TwoDigits(d.day);
    ValueOfFourDigits(d.year);
  }

  lemma ValueOfFourDigits(n: int)
    requires 0 <= n < 10000
    ensures AllDigits(FourDigits(n)) && FourDigitValue(FourDigits(n)) == n
  {
    var a := n / 1000;
    var r := n - a * 1000;
    var b := r / 100;
    var r' := r - b * 100;
    var c := r' / 10;
    var d := r' - c * 10;
    DigitsOfNumber(a, b, c, d);
    assert FourDigits(n) == [DigitChar(a), DigitChar(b), DigitChar(c), DigitChar(d)];
  }

  lemma TwoDigitsOfValue(s: string)
    requires |s| == 2 && AllDigits(s)
    ensures 0 <= TwoDigitValue(s) < 100 && TwoDigits(TwoDigitValue(s)) == s
  {
    var v := TwoDigitValue(s);
    assert v / 10 == DigitValue(s[0]) && v % 10 == DigitValue(s[1]);
    DigitRoundTrip(0, s[0]);
    DigitRoundTrip(0, s[1]);
  }

  lemma FourDigitsOfValue(s: string)
    requires |s| == 4 && AllDigits(s)
    ensures 0 <= FourDigitValue(s) < 10000 && FourDigits(FourDigitValue(s)) == s
  {
    DigitsOfNumber(DigitValue(s[0]), DigitValue(s[1]), DigitValue(s[2]), DigitValue(s[3]));
    DigitRoundTrip(0, s[0]);
    DigitRoundTrip(0, s[1]);
    DigitRoundTrip(0, s[2]);
    DigitRoundTrip(0, s[3]);
  }

  /** The four decimal digits of a number below 10000. */
  lemma DigitsOfNumber(a: int, b: int, c: int, d: int)
    requires 0 <= a <= 9 && 0 <= b <= 9 && 0 <= c <= 9 && 0 <= d <= 9
    ensures var v := a * 1000 + b * 100 + c * 10 + d;
      v / 1000 == a && v / 100 % 10 == b && v / 10 % 10 == c && v % 10 == d
  {
    var v := a * 1000 + b * 100 + c * 10 + d;
    assert v / 1000 == a;
    assert v / 100 == a * 10 + b;
    assert v / 10 == a * 100 + b * 10 + c;
  }

  /** Text that parses is exactly the formatted form of its date, so the
      zero-padded form is the only spelling `ParseDate` accepts. */
  lemma FormatParse(s: string)
    requires ParseDate(s).Some?
    ensures FormatDate(ParseDate(s).value) == s
  {
    FourDigitsOfValue(s[0..4]);
    TwoDigitsOfValue(s[5..7]);
    TwoDigitsOfValue(s[8..10]);
    assert s == s[0..4] + "-" + s[5..7] + "-" + s[8..10];
  }

  /** Different dates have different text, so comparing `Fecha` strings compares dates. */
  lemma FormatInjective(d: Date, e: Date)
    ensures FormatDate(d) == FormatDate(e) <==> d == e
  {
    if FormatDate(d) == FormatDate(e) {
      ParseFormat(d);
      ParseFormat(e);
    }
  }
}
