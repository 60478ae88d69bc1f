/** Month keys: a ledger is dated "YYYY-MM", and closing a month dates the
    fresh ledger one calendar month later, the month zero-padded to two digits.
    A key the date parser rejects yields the string "NaN-NaN", as the
    arithmetic on an invalid date does. */
module Months {
  import opened LedgerTypes

  /** A calendar month; `month` runs from 1 (January) to 12 (December). */
  datatype YearMonth = YearMonth(year: int, month: int)

  predicate IsDigit(c: char)
  {
    '0' <= c <= '9'
  }

  function DigitValue(c: char): int
  {
    c as int - '0' as int
  }

  function DigitChar(d: int): char
    requires 0 <= d < 10
  {
    ('0' as int + d) as char
  }

  /** `n` written in decimal, without leading zeros. */
  function NatToString(n: nat): (r: string)
    ensures |r| >= 1 && forall i :: 0 <= i < |r| ==> IsDigit(r[i])
  {
    if n < 10 then [DigitChar(n)] else NatToString(n / 10) + [DigitChar(n % 10)]
  }

  /** A month as two digits, zero-padded below 10. */
  function TwoDigits(month: nat): string
  {
    if month < 10 then "0" + NatToString(month) else NatToString(month)
  }

  /** Reads a "YYYY-MM" key: four digits, a dash, two digits, the month
      between 01 and 12. Anything else is not a date. */
  function ParseKey(s: string): (r: Option<YearMonth>)
    ensures r.Some? ==> |s| == 7 && s[4] == '-' && 1 <= r.value.month <= 12 && 0 <= r.value.year <= 9999
  {
    if |s| == 7 && s[4] == '-'
       && IsDigit(s[0]) && IsDigit(s[1]) && IsDigit(s[2]) && IsDigit(s[3])
       && IsDigit(s[5]) && IsDigit(s[6])
       && 1 <= DigitValue(s[5]) * 10 + DigitValue(s[6]) <= 12
    then
      var year := DigitValue(s[0]) * 1000 + DigitValue(s[1]) * 100 + DigitValue(s[2]) * 10 + DigitValue(s[3]);
      Some(YearMonth(year, DigitValue(s[5]) * 10 + DigitValue(s[6])))
    else None
  }

  /** A key the server keeps a ledger under: a "YYYY-MM" date whose year
      is written with four digits and no leading zero. */
  predicate IsMonthKey(s: string)
  {
    ParseKey(s).Some? && 1000 <= ParseKey(s).value.year
  }

  /** The calendar month after `ym`; December rolls over to January of the
      next year. */
  function MonthAfter(ym: YearMonth): (r: YearMonth)
    requires 1 <= ym.month <= 12
    ensures 1 <= r.month <= 12
    ensures MonthNumber(r) == MonthNumber(ym) + 1
  {
    if ym.month == 12 then YearMonth(ym.year + 1, 1) else YearMonth(ym.year, ym.month + 1)
  }

  /** Months counted from January of year 0: consecutive months are
      consecutive numbers. */
  function MonthNumber(ym: YearMonth): int
  {
    ym.year * 12 + ym.month - 1
  }

  /** The key of a month: the year in decimal, a dash, the month in two digits. */
  function Render(ym: YearMonth): string
    requires ym.year >= 0 && 1 <= ym.month <= 12
  {
    NatToString(ym.year) + "-" + TwoDigits(ym.month)
  }

  /** The key of the month after the month `s` names, or "NaN-NaN" when `s`
      is not a date. */
  function NextMonthKey(s: string): (r: string)
    ensures r == "NaN-NaN" <==> ParseKey(s).None?
  {
    match ParseKey(s)
    case None => "NaN-NaN"
    case Some(ym) =>
      var key := Render(MonthAfter(ym));
      assert key[0] == NatToString(MonthAfter(ym).year)[0];
      key
  }

  // ---------------------------------------------------------------------------
  // Reading back what was written

  /** A four-digit year is written as its four decimal digits. */
  lemma FourDigitYear(n: nat)
    requires 1000 <= n <= 9999
    ensures NatToString(n) == [DigitChar(n / 1000), DigitChar(n / 100 % 10), DigitChar(n / 10 % 10), DigitChar(n % 10)]
  {
    assert n / 10 / 10 == n / 100 && n / 100 / 10 == n / 1000;
    assert NatToString(n / 100) == [DigitChar(n / 1000), DigitChar(n / 100 % 10)];
  }

  /** A month is written as its two decimal digits. */
  lemma TwoDigitMonth(month: nat)
    requires 1 <= month <= 12
    ensures TwoDigits(month) == [DigitChar(month / 10), DigitChar(month % 10)]
  {
    if month < 10 {
      assert NatToString(month) == [DigitChar(month)];
    } else {
      assert NatToString(month / 10) == [DigitChar(month / 10)];
    }
  }

  /** A month of a four-digit year, once written as a key, reads back as itself. */
  lemma RenderParses(ym: YearMonth)
    requires 1000 <= ym.year <= 9999 && 1 <= ym.month <= 12
    ensures ParseKey(Render(ym)) == Some(ym)
  {
    var n := ym.year;
    FourDigitYear(n);
    TwoDigitMonth(ym.month);
    var s := Render(ym);
    assert s == [DigitChar(n / 1000), DigitChar(n / 100 % 10), DigitChar(n / 10 % 10), DigitChar(n % 10), '-',
                 DigitChar(ym.month / 10), DigitChar(ym.month % 10)];
    DecimalDigits(n);
  }

  /** A number below 10000 is the sum of its four decimal digits times their
      place values. */
  lemma DecimalDigits(n: nat)
    requires n <= 9999
    ensures n == (n / 1000) * 1000 + (n / 100 % 10) * 100 + (n / 10 % 10) * 10 + n % 10
  {
    var a, b, c := n / 10, n / 100, n / 1000;
    assert a / 10 == b && b / 10 == c && c < 10;
    assert n == a * 10 + n % 10;
    assert a == b * 10 + a % 10;
    assert b == c * 10 + b % 10;
  }

  /** The key after a valid key names the next calendar month: the month
      number grows by exactly one, the month stays within 01..12 and is
      written with two digits. */
  lemma NextKeyIsNextMonth(s: string)
    requires ParseKey(s).Some? && 1000 <= ParseKey(s).value.year
    requires MonthAfter(ParseKey(s).value).year <= 9999
    ensures ParseKey(NextMonthKey(s)).Some?
    ensures MonthNumber(ParseKey(NextMonthKey(s)).value) == MonthNumber(ParseKey(s).value) + 1
    ensures |NextMonthKey(s)| == 7 && NextMonthKey(s)[4] == '-'
  {
    RenderParses(MonthAfter(ParseKey(s).value));
  }

  /** December rolls over to a zero-padded January of the next year. */
  lemma DecemberRollsOver()
    ensures NextMonthKey("2024-12") == "2025-01"
  {
    assert ParseKey("2024-12") == Some(YearMonth(2024, 12));
    assert NatToString(2025) == "2025";
  }

  /** Five-digit years are written with at least five digits. */
  lemma FiveDigitYear(n: nat)
    requires 10000 <= n
    ensures |NatToString(n)| >= 5
  {
    assert n / 10 / 10 == n / 100 && n / 100 / 10 == n / 1000 && n / 1000 / 10 == n / 10000;
    assert |NatToString(n / 10000)| >= 1;
    assert |NatToString(n / 1000)| >= 2;
    assert |NatToString(n / 100)| >= 3;
    assert |NatToString(n / 10)| >= 4;
  }

  /** Closing the month of a key gives the key of the next month, except for
      December 9999, whose five-digit successor the model does not read as a key. */
  lemma NextKeyStaysKey(s: string)
    requires IsMonthKey(s)
    ensures ParseKey(NextMonthKey(s)).None? <==> ParseKey(s).value == YearMonth(9999, 12)
    ensures ParseKey(NextMonthKey(s)).Some? ==>
      IsMonthKey(NextMonthKey(s))
      && MonthNumber(ParseKey(NextMonthKey(s)).value) == MonthNumber(ParseKey(s).value) + 1
  {
    var next := MonthAfter(ParseKey(s).value);
    if next.year <= 9999 {
      NextKeyIsNextMonth(s);
    } else {
      FiveDigitYear(next.year);
    }
  }

  /** December of the last four-digit year rolls into a five-digit year,
      whose key the model's "YYYY-MM" parser does not accept as a date. */
  lemma LastYearRollsOver()
    ensures NextMonthKey("9999-12") == "10000-01"
    ensures ParseKey(NextMonthKey("9999-12")).None?
  {
    assert ParseKey("9999-12") == Some(YearMonth(9999, 12));
    assert NatToString(10000) == "10000";
  }
}
