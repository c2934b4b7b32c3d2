/** Proleptic Gregorian dates, their day numbers and weekdays, and the texts that carry them. */
module Calendar {
  import opened Wrappers
  import opened Numerals

  datatype Date = Date(year: int, month: int, day: int)

  predicate IsLeap(year: int) {
    year % 4 == 0 && (year % 100 != 0 || year % 400 == 0)
  }

  function DaysInMonth(year: int, month: int): int {
    if month == 2 then (if IsLeap(year) then 29 else 28)
    else if month == 4 || month == 6 || month == 9 || month == 11 then 30
    else 31
  }

  predicate IsDate(d: Date) {
    1 <= d.month <= 12 && 1 <= d.day <= DaysInMonth(d.year, d.month)
  }

  /** Days of the year that precede a month. */
  function DaysBefore(year: int, month: int): int
    requires 1 <= month <= 12
    decreases month
  {
    if month == 1 then 0 else DaysBefore(year, month - 1) + DaysInMonth(year, month - 1)
  }

  /** Day number of the first of January; the epoch is the first of January 1970. */
  function NewYear(year: int): int {
    365 * (year - 1) + (year - 1) / 4 - (year - 1) / 100 + (year - 1) / 400 - 719162
  }

  function DayNumber(d: Date): int
    requires IsDate(d)
  {
    NewYear(d.year) + DaysBefore(d.year, d.month) + d.day - 1
  }

  /** Sunday is 0; the epoch was a Thursday. */
  function Weekday(n: int): (w: int)
    ensures 0 <= w < 7
  {
    (n + 4) % 7
  }

  function NextDay(d: Date): (r: Date)
    requires IsDate(d)
    ensures IsDate(r)
  {
    if d.day < DaysInMonth(d.year, d.month) then d.(day := d.day + 1)
    else if d.month < 12 then Date(d.year, d.month + 1, 1)
    else Date(d.year + 1, 1, 1)
  }

  /** The calendar as everybody knows it: which days exist, and which day follows which. */
  lemma DatesAreGregorian(y: int, m: int, d: int)
    ensures IsDate(Date(y, m, d)) <==>
              && 1 <= d
              && (|| (m in {1, 3, 5, 7, 8, 10, 12} && d <= 31)
                  || (m in {4, 6, 9, 11} && d <= 30)
                  || (m == 2 && (d <= 28 || (d == 29 && y % 4 == 0 && (y % 100 == 0 ==> y % 400 == 0)))))
    ensures IsDate(Date(y, m, d)) ==>
              NextDay(Date(y, m, d)) ==
              if IsDate(Date(y, m, d + 1)) then Date(y, m, d + 1)
              else if m < 12 then Date(y, m + 1, 1)
              else Date(y + 1, 1, 1)
  {
  }

  /** Days are counted from the first of January 1970, a Thursday, and weekdays follow each other. */
  lemma EpochIsAThursday(n: int)
    ensures DayNumber(Date(1970, 1, 1)) == 0
    ensures Weekday(0) == 4
    ensures Weekday(n + 1) == (if Weekday(n) == 6 then 0 else Weekday(n) + 1)
  {
  }

  lemma Fourths(y: int)
    ensures y / 4 == (y - 1) / 4 + if y % 4 == 0 then 1 else 0
  {
  }

  lemma Hundredths(y: int)
    ensures y / 100 == (y - 1) / 100 + if y % 100 == 0 then 1 else 0
    ensures y % 100 == 0 ==> y % 4 == 0
  {
    assert y % 100 == 0 ==> y == 4 * (25 * (y / 100));
  }

  lemma FourHundredths(y: int)
    ensures y / 400 == (y - 1) / 400 + if y % 400 == 0 then 1 else 0
    ensures y % 400 == 0 ==> y % 100 == 0
  {
    assert y % 400 == 0 ==> y == 100 * (4 * (y / 400));
  }

  lemma YearLength(year: int)
    ensures NewYear(year + 1) == NewYear(year) + if IsLeap(year) then 366 else 365
  {
    Fourths(year);
    Hundredths(year);
    FourHundredths(year);
  }

  lemma DaysOfYear(year: int)
    ensures DaysBefore(year, 12) + 31 == if IsLeap(year) then 366 else 365
  {
    assert DaysBefore(year, 4) == 31 + DaysInMonth(year, 2) + 31;
    assert DaysBefore(year, 8) == DaysBefore(year, 4) + 30 + 31 + 30 + 31;
  }

  /** Day numbers count days. */
  lemma NextDayIsOneLater(d: Date)
    requires IsDate(d)
    ensures DayNumber(NextDay(d)) == DayNumber(d) + 1
  {
    YearLength(d.year);
    DaysOfYear(d.year);
  }

  predicate Earlier(d: Date, e: Date) {
    d.year < e.year || (d.year == e.year && (d.month < e.month || (d.month == e.month && d.day < e.day)))
  }

  lemma {:induction false} MonthsGrow(year: int, m: int, n: int)
    requires 1 <= m < n <= 12
    ensures DaysBefore(year, m) + DaysInMonth(year, m) <= DaysBefore(year, n)
    decreases n
  {
    if m < n - 1 {
      MonthsGrow(year, m, n - 1);
    }
  }

  lemma {:induction false} YearsGrow(y: int, z: int)
    requires y < z
    ensures NewYear(y + 1) <= NewYear(z)
    decreases z - y
  {
    if y + 1 < z {
      YearsGrow(y, z - 1);
      YearLength(z - 1);
    }
  }

  /** Day numbers are in the order of dates, so no two dates share one. */
  lemma EarlierHasSmallerNumber(d: Date, e: Date)
    requires IsDate(d) && IsDate(e)
    ensures Earlier(d, e) <==> DayNumber(d) < DayNumber(e)
    ensures DayNumber(d) == DayNumber(e) <==> d == e
  {
    if Earlier(d, e) {
      EarlierIsSmaller(d, e);
    } else if Earlier(e, d) {
      EarlierIsSmaller(e, d);
    }
  }

  lemma EarlierIsSmaller(d: Date, e: Date)
    requires IsDate(d) && IsDate(e) && Earlier(d, e)
    ensures DayNumber(d) < DayNumber(e)
  {
    if d.year < e.year {
      YearsGrow(d.year, e.year);
      YearLength(d.year);
      DaysOfYear(d.year);
      if d.month < 12 {
        MonthsGrow(d.year, d.month, 12);
      }
      if 1 < e.month {
        MonthsGrow(e.year, 1, e.month);
      }
    } else if d.month < e.month {
      MonthsGrow(d.year, d.month, e.month);
    }
  }

  // ---------------------------------------------------------------- texts

  /** The first ten characters of a text must read as a date; the years before 100 are read as other years and so
      refused. */
  function ParseDate(value: string): (r: Option<Date>)
    ensures r.Some? ==> IsDate(r.value) && 100 <= r.value.year <= 9999
  {
    var s := if |value| <= 10 then value else value[..10];
    if |s| == 10 && AreDigits(s[..4]) && s[4] == '-' && AreDigits(s[5..7]) && s[7] == '-' && AreDigits(s[8..]) then
      ValueIsBounded(s[..4]);
      var d := Date(Value(s[..4]), Value(s[5..7]), Value(s[8..]));
      if IsDate(d) && d.year >= 100 then Some(d) else None
    else None
  }

  function FormatDate(year: string, d: Date): string
    requires IsDate(d)
  {
    year + "-" + Padded(Numeral(d.month, 10), 2) + "-" + Padded(Numeral(d.day, 10), 2)
  }

  /** The service pads the year to four digits. */
  function ServiceText(d: Date): string
    requires IsDate(d) && d.year >= 0
  {
    FormatDate(Padded(Numeral(d.year, 10), 4), d)
  }

  /** The shop writes the year as it comes. */
  function ShopText(d: Date): string
    requires IsDate(d) && d.year >= 0
  {
    FormatDate(Numeral(d.year, 10), d)
  }

  lemma TwoDigits(n: nat)
    requires n < 100
    ensures |Padded(Numeral(n, 10), 2)| == 2
    ensures AreDigits(Padded(Numeral(n, 10), 2)) && Value(Padded(Numeral(n, 10), 2)) == n
  {
    WidthOfDecimal(n);
    DecimalReadsBack(n);
    PaddingKeepsValue(Numeral(n, 10), 2);
  }

  lemma PiecesReadBack(year: string, d: Date)
    requires IsDate(d) && 100 <= d.year && |year| == 4 && AreDigits(year) && Value(year) == d.year
    ensures ParseDate(FormatDate(year, d)) == Some(d)
  {
    TwoDigits(d.month);
    TwoDigits(d.day);
    var s := FormatDate(year, d);
    assert s[..4] == year && s[5..7] == Padded(Numeral(d.month, 10), 2) && s[8..] == Padded(Numeral(d.day, 10), 2);
  }

  /** What either side writes, either side reads back, from the year 100 (the service) or 1000 (the shop) to 9999; a
      later date is unreadable. */
  lemma TextsReadBack(d: Date)
    requires IsDate(d) && 100 <= d.year
    ensures ParseDate(ServiceText(d)) == if d.year <= 9999 then Some(d) else None
    ensures 1000 <= d.year ==> ShopText(d) == ServiceText(d)
  {
    var year := Numeral(d.year, 10);
    WidthOfDecimal(d.year);
    DecimalReadsBack(d.year);
    PaddingKeepsValue(year, 4);
    if d.year <= 9999 {
      PiecesReadBack(Padded(year, 4), d);
    } else {
      LongYearIsUnreadable(year, d);
    }
  }

  lemma LongYearIsUnreadable(year: string, d: Date)
    requires IsDate(d) && |year| >= 5 && AreDigits(year)
    ensures ParseDate(FormatDate(year, d)) == None
  {
    TwoDigits(d.month);
    TwoDigits(d.day);
    assert FormatDate(year, d)[4] == year[4];
  }

  lemma ReadPieces(value: string)
    requires ParseDate(value).Some?
    ensures |value| >= 10 && value[4] == '-' == value[7]
    ensures AreDigits(value[..4]) && AreDigits(value[5..7]) && AreDigits(value[8..10])
    ensures ParseDate(value).value == Date(Value(value[..4]), Value(value[5..7]), Value(value[8..10]))
  {
    var s := if |value| <= 10 then value else value[..10];
    assert s == value[..10];
    assert s[..4] == value[..4] && s[5..7] == value[5..7] && s[8..] == value[8..10];
  }

  /** A text is read as a date exactly when it starts with what the service writes for it; the rest is not looked at. */
  lemma ReadIsWritten(value: string, d: Date)
    requires IsDate(d) && 100 <= d.year <= 9999
    ensures ParseDate(value) == Some(d) <==> ServiceText(d) <= value
  {
    TextsReadBack(d);
    var text := ServiceText(d);
    WidthOfDecimal(d.year);
    TwoDigits(d.month);
    TwoDigits(d.day);
    assert |text| == 10;
    if text <= value {
      assert (if |value| <= 10 then value else value[..10]) == text;
    }
    if ParseDate(value) == Some(d) {
      SameDateSameText(value, text);
      assert value[..10] == text;
    }
  }

  lemma SameDateSameText(value: string, text: string)
    requires ParseDate(value).Some? && ParseDate(text) == ParseDate(value)
    ensures value[..10] == text[..10]
  {
    ReadPieces(value);
    ReadPieces(text);
    var d := ParseDate(value).value;
    SameValueSameText(value[..4], text[..4]);
    SameValueSameText(value[5..7], text[5..7]);
    SameValueSameText(value[8..10], text[8..10]);
    assert text[..10] == text[..4] + [text[4]] + text[5..7] + [text[7]] + text[8..10];
    assert value[..10] == value[..4] + [value[4]] + value[5..7] + [value[7]] + value[8..10];
  }
}
