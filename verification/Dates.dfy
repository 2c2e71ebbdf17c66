/**
  Calendar days in Go's layout "02-Jan-2006", as search_strategy.go prints them and imap_adapter.go reads them.
 */
module Dates {
  import opened Wrappers
  import opened Text

  datatype DateParts = DateParts(year: int, month: nat, day: nat)

  predicate IsLeap(year: int) {
    year % 4 == 0 && (year % 100 != 0 || year % 400 == 0)
  }

  function DaysIn(month: nat, year: int): nat {
    if month == 2 then (if IsLeap(year) then 29 else 28)
    else if month in {4, 6, 9, 11} then 30 else 31
  }

  predicate IsDate(d: DateParts) {
    1 <= d.month <= 12 && 1 <= d.day <= DaysIn(d.month, d.year)
  }

  /** The Gregorian calendar: which months have which last days, and in which years February has 29. */
  lemma LastDays(month: nat, year: int, day: nat)
    ensures IsDate(DateParts(year, month, day)) <==>
      && month in {1, 2, 3, 4, 5, 6, 7, 8, 9, 10, 11, 12}
      && (1 <= day <= 28 || (day in {29, 30} && month != 2) || (day == 31 && month in {1, 3, 5, 7, 8, 10, 12})
          || (day == 29 && month == 2 && (year % 400 == 0 || (year % 100 != 0 && year % 4 == 0))))
  {
  }

  type Date = d: DateParts | IsDate(d) witness DateParts(1970, 1, 1)

  const MONTHS := ["Jan", "Feb", "Mar", "Apr", "May", "Jun", "Jul", "Aug", "Sep", "Oct", "Nov", "Dec"]

  function TwoDigits(n: nat): string
    requires n < 100
  {
    [DigitChar(n / 10), DigitChar(n % 10)]
  }

  function FourDigits(n: nat): string
    requires n < 10000
  {
    TwoDigits(n / 100) + TwoDigits(n % 100)
  }

  /** Go pads the year to four digits and writes a sign in front of a negative one. */
  function FormatYear(year: int): string {
    if 0 <= year < 10000 then FourDigits(year)
    else if year >= 10000 then Decimal(year)
    else if year > -10000 then "-" + FourDigits(-year)
    else "-" + Decimal(-year)
  }

  function FormatDate(d: Date): string {
    TwoDigits(d.day) + "-" + MONTHS[d.month - 1] + "-" + FormatYear(d.year)
  }

  function LowerLetter(c: char): char {
    if 'A' <= c <= 'Z' then (c as int + 32) as char else c
  }

  /** Go accepts month names in any case. */
  predicate SameMonth(s: string, name: string) {
    |s| == |name| == 3 && forall i | 0 <= i < 3 :: LowerLetter(s[i]) == LowerLetter(name[i])
  }

  function MonthNumber(s: string, from: nat): (m: nat)
    requires from <= 12
    ensures m <= 12
    decreases 12 - from
  {
    if from == 12 then 0 else if SameMonth(s, MONTHS[from]) then from + 1 else MonthNumber(s, from + 1)
  }

  /** time.Parse("02-Jan-2006", s). */
  function ParseDate(s: string): (r: Option<Date>)
    ensures r.Some? ==> 0 <= r.value.year < 10000
  {
    if |s| == 11 && AllDigits(s[..2]) && s[2] == '-' && s[6] == '-' && AllDigits(s[7..]) then
      FourDigitsBound(s[7..]);
      var d := DateParts(DigitsValue(s[7..]), MonthNumber(s[3..6], 0), DigitsValue(s[..2]));
      if IsDate(d) then Some(d) else None
    else None
  }

  lemma FourDigitsBound(s: string)
    requires |s| == 4 && AllDigits(s)
    ensures DigitsValue(s) == 1000 * DigitOf(s[0]) + 100 * DigitOf(s[1]) + 10 * DigitOf(s[2]) + DigitOf(s[3])
    ensures DigitsValue(s) < 10000
  {
    TwoDigitsValue(s[..2]);
    assert s[..3][..2] == s[..2];
    assert s[..3][|s[..3]| - 1] == s[2];
    assert DigitsValue(s[..3]) == 10 * DigitsValue(s[..2]) + DigitOf(s[2]);
    assert s[..|s| - 1] == s[..3];
  }

  function DigitOf(c: char): nat
    requires IsDigit(c)
  {
    c as int - '0' as int
  }

  lemma TwoDigitsValue(s: string)
    requires |s| == 2 && AllDigits(s)
    ensures DigitsValue(s) == 10 * DigitOf(s[0]) + DigitOf(s[1])
  {
    assert s[..1][..0] == "";
    assert DigitsValue(s[..1]) == DigitOf(s[0]);
    assert s[..|s| - 1] == s[..1];
  }

  lemma MonthReadsBack(m: nat)
    requires 1 <= m <= 12
    ensures |MONTHS[m - 1]| == 3 && MonthNumber(MONTHS[m - 1], 0) == m && Plain(MONTHS[m - 1])
  {
    var s := MONTHS[m - 1];
    MonthNumberIs(s, m, 0);
  }

  lemma {:induction false} MonthNumberIs(s: string, m: nat, from: nat)
    requires 1 <= m <= 12 && s == MONTHS[m - 1] && from < m
    ensures MonthNumber(s, from) == m
    decreases m - from
  {
    if from < m - 1 {
      assert MONTHS[from][1] != s[1] || MONTHS[from][2] != s[2];
      MonthNumberIs(s, m, from + 1);
    }
  }

  /** Text the search tokenizer takes as it is: no quote and no space. */
  predicate Plain(s: string) {
    forall i | 0 <= i < |s| :: s[i] != '"' && s[i] != ' '
  }

  lemma PlainConcat(a: string, b: string)
    requires Plain(a) && Plain(b)
    ensures Plain(a + b)
  {
  }

  lemma DecimalPlain(n: nat)
    ensures Plain(Decimal(n)) && Decimal(n) != ""
  {
    DecimalReadsBack(n);
  }

  lemma YearPlain(year: int)
    ensures Plain(FormatYear(year)) && FormatYear(year) != ""
    ensures IsDigit(FormatYear(year)[|FormatYear(year)| - 1])
  {
    if year >= 10000 { DecimalPlain(year); DecimalReadsBack(year); }
    if year <= -10000 { DecimalPlain(-year); DecimalReadsBack(-year); PlainConcat("-", Decimal(-year)); }
  }

  lemma DatePlain(d: Date)
    ensures Plain(FormatDate(d)) && |FormatDate(d)| > 6 && IsDigit(FormatDate(d)[|FormatDate(d)| - 1])
  {
    MonthReadsBack(d.month);
    YearPlain(d.year);
    PlainConcat(TwoDigits(d.day), "-");
    PlainConcat(TwoDigits(d.day) + "-", MONTHS[d.month - 1]);
    PlainConcat(TwoDigits(d.day) + "-" + MONTHS[d.month - 1], "-");
    PlainConcat(TwoDigits(d.day) + "-" + MONTHS[d.month - 1] + "-", FormatYear(d.year));
  }

  /** A day prints and reads back exactly when its year has four digits. */
  lemma DateRoundTrip(d: Date)
    ensures ParseDate(FormatDate(d)) == Some(d) <==> 0 <= d.year < 10000
  {
    if 0 <= d.year < 10000 { FoldedReads(FormatDate(d), d); }
  }

  // ---- What is read ----

  /** The same character, or the same ASCII letter in the other case. */
  predicate IsFold(c: char, m: char) {
    || c == m
    || ('A' <= c <= 'Z' && m as int == c as int + 32)
    || ('A' <= m <= 'Z' && c as int == m as int + 32)
  }

  predicate IsFoldOf(s: string, t: string) {
    |s| == |t| && forall i | 0 <= i < |s| :: IsFold(s[i], t[i])
  }

  lemma SameMonthIsFold(s: string, name: string)
    requires |name| == 3
    ensures SameMonth(s, name) <==> IsFoldOf(s, name)
  {
    if |s| == 3 {
      forall i | 0 <= i < 3 ensures LowerLetter(s[i]) == LowerLetter(name[i]) <==> IsFold(s[i], name[i]) {}
    }
  }

  lemma {:induction false} MonthMatches(s: string, from: nat)
    requires from <= 12
    ensures var m := MonthNumber(s, from); m > 0 ==> from < m && |MONTHS[m - 1]| == 3 && IsFoldOf(s, MONTHS[m - 1])
    decreases 12 - from
  {
    if from < 12 {
      if SameMonth(s, MONTHS[from]) {
        SameMonthIsFold(s, MONTHS[from]);
      } else {
        MonthMatches(s, from + 1);
      }
    }
  }

  lemma {:induction false} MonthFound(s: string, m: nat, from: nat)
    requires 1 <= m <= 12 && from < m && SameMonth(s, MONTHS[m - 1])
    ensures MonthNumber(s, from) == m
    decreases m - from
  {
    if from < m - 1 {
      assert MONTHS[from][1] != MONTHS[m - 1][1] || MONTHS[from][2] != MONTHS[m - 1][2];
      assert !SameMonth(s, MONTHS[from]);
      MonthFound(s, m, from + 1);
    }
  }

  lemma TwoPrinted(s: string)
    requires AllDigits(s) && |s| == 2
    ensures DigitsValue(s) < 100 && TwoDigits(DigitsValue(s)) == s
  {
    TwoDigitsValue(s);
    var n := DigitsValue(s);
    assert n / 10 == DigitOf(s[0]) && n % 10 == DigitOf(s[1]);
    assert TwoDigits(n)[0] == s[0] && TwoDigits(n)[1] == s[1];
  }

  lemma FourPrinted(s: string)
    requires AllDigits(s) && |s| == 4
    ensures DigitsValue(s) < 10000 && FourDigits(DigitsValue(s)) == s
  {
    FourDigitsBound(s);
    TwoPrinted(s[..2]);
    TwoPrinted(s[2..]);
    TwoDigitsValue(s[..2]);
    TwoDigitsValue(s[2..]);
    var n, high, low := DigitsValue(s), DigitsValue(s[..2]), DigitsValue(s[2..]);
    assert n == 100 * high + low;
    assert n / 100 == high && n % 100 == low;
    assert s == s[..2] + s[2..];
  }

  lemma Pieces(day: string, month: string, year: string)
    requires |day| == 2 && |month| == 3 && |year| == 4
    ensures var s := day + "-" + month + "-" + year;
      |s| == 11 && s[..2] == day && s[2] == '-' && s[3..6] == month && s[6] == '-' && s[7..] == year
  {
  }

  /** The parts of a printed day with a year of four digits. */
  lemma PrintedParts(d: Date)
    requires 0 <= d.year < 10000
    ensures var s := FormatDate(d);
      |s| == 11 && s[..2] == TwoDigits(d.day) && s[2] == '-' && s[3..6] == MONTHS[d.month - 1] && s[6] == '-'
      && s[7..] == FourDigits(d.year)
  {
    MonthReadsBack(d.month);
    Pieces(TwoDigits(d.day), MONTHS[d.month - 1], FourDigits(d.year));
  }

  lemma FoldOfDigits(s: string, t: string)
    requires IsFoldOf(s, t) && AllDigits(t)
    ensures s == t
  {
  }

  lemma FoldParts(s: string, t: string)
    requires |s| == |t| == 11
    ensures IsFoldOf(s, t) <==>
      && IsFoldOf(s[..2], t[..2]) && IsFold(s[2], t[2]) && IsFoldOf(s[3..6], t[3..6]) && IsFold(s[6], t[6])
      && IsFoldOf(s[7..], t[7..])
  {
    if IsFoldOf(s[..2], t[..2]) && IsFold(s[2], t[2]) && IsFoldOf(s[3..6], t[3..6]) && IsFold(s[6], t[6])
       && IsFoldOf(s[7..], t[7..])
    {
      forall i | 0 <= i < 11 ensures IsFold(s[i], t[i]) {
        if i < 2 {
          assert s[..2][i] == s[i] && t[..2][i] == t[i];
        } else if 3 <= i < 6 {
          assert s[3..6][i - 3] == s[i] && t[3..6][i - 3] == t[i];
        } else if 7 <= i {
          assert s[7..][i - 7] == s[i] && t[7..][i - 7] == t[i];
        }
      }
    }
  }

  lemma DigitTexts(d: Date)
    requires 0 <= d.year < 10000
    ensures AllDigits(TwoDigits(d.day)) && DigitsValue(TwoDigits(d.day)) == d.day
    ensures AllDigits(FourDigits(d.year)) && DigitsValue(FourDigits(d.year)) == d.year
  {
    TwoDigitsValue(TwoDigits(d.day));
    FourDigitsBound(FourDigits(d.year));
  }

  lemma FoldedReads(s: string, d: Date)
    requires 0 <= d.year < 10000 && IsFoldOf(s, FormatDate(d))
    ensures ParseDate(s) == Some(d)
  {
    var t := FormatDate(d);
    PrintedParts(d);
    FoldParts(s, t);
    DigitTexts(d);
    FoldOfDigits(s[..2], t[..2]);
    FoldOfDigits(s[7..], t[7..]);
    SameMonthIsFold(s[3..6], MONTHS[d.month - 1]);
    MonthFound(s[3..6], d.month, 0);
  }

  lemma ReadIsFolded(s: string)
    requires ParseDate(s).Some?
    ensures IsFoldOf(s, FormatDate(ParseDate(s).value))
  {
    var d := ParseDate(s).value;
    PrintedParts(d);
    MonthMatches(s[3..6], 0);
    TwoPrinted(s[..2]);
    FourPrinted(s[7..]);
    FoldParts(s, FormatDate(d));
  }

  /** A text is read as a day exactly when it is that day as printed, with four digits and with letters in any case. */
  lemma ReadExactly(s: string, d: Date)
    ensures ParseDate(s) == Some(d) <==> 0 <= d.year < 10000 && IsFoldOf(s, FormatDate(d))
  {
    if ParseDate(s) == Some(d) { ReadIsFolded(s); }
    if 0 <= d.year < 10000 && IsFoldOf(s, FormatDate(d)) { FoldedReads(s, d); }
  }
}
