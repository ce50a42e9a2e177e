/**
 * Calendar dates in the `DD/MM/YYYY` form the dataset's `Day` column and the
 * mail client's date display use. A date text that does not parse, or names a
 * day the month does not have, stands for JavaScript's Invalid Date.
 */
module Calendar {
  import opened Wrappers
  import opened Decimal

  datatype Date = Date(year: int, month: int, day: int)

  predicate IsLeapYear(year: int) {
    (year % 4 == 0 && year % 100 != 0) || year % 400 == 0
  }

  function DaysInMonth(year: int, month: int): (n: int)
    requires 1 <= month <= 12
    ensures 28 <= n <= 31
    ensures n == 29 <==> month == 2 && IsLeapYear(year)
  {
    if month == 2 then (if IsLeapYear(year) then 29 else 28)
    else if month == 4 || month == 6 || month == 9 || month == 11 then 30
    else 31
  }

  /** A day the calendar has: months 1 to 12, no day past the month's last. */
  predicate IsValid(d: Date) {
    1 <= d.month <= 12 && 1 <= d.day <= DaysInMonth(d.year, d.month)
  }

  /** Chronological order of days, compared as (year, month, day). */
  predicate OnOrBefore(a: Date, b: Date) {
    a.year < b.year ||
    (a.year == b.year && (a.month < b.month || (a.month == b.month && a.day <= b.day)))
  }

  /** `DD/MM/YYYY`: zero-padded day and month, the year as `String(year)`. */
  function DayText(d: Date): string
    requires d.day >= 0 && d.month >= 0
  {
    Pad2(d.day) + "/" + Pad2(d.month) + "/" + ShowInt(d.year)
  }

  /**
   * Reads a `Day` cell in the format `DD/MM/YYYY`: two digits, a slash, two
   * digits, a slash, four digits, naming a day the calendar has; anything
   * else is an invalid date.
   */
  function ParseDay(s: string): (r: Option<Date>)
    ensures r.Some? ==> IsValid(r.value) && 0 <= r.value.year <= 9999
    ensures r.Some? ==> |s| == 10 && s[2] == '/' && s[5] == '/'
  {
    if |s| == 10 && s[2] == '/' && s[5] == '/'
       && IsDigits(s[..2]) && IsDigits(s[3..5]) && IsDigits(s[6..])
    then
      var d := Date(Value(s[6..]), Value(s[3..5]), Value(s[..2]));
      ValueBound(s[6..]);
      if IsValid(d) then Some(d) else None
    else None
  }

  lemma {:induction false} ValueBound(s: string)
    requires IsDigits(s)
    ensures Value(s) < Pow10(|s|)
    decreases |s|
  {
    if s != [] {
      ValueBound(s[..|s| - 1]);
    }
  }

  /** Every valid day of a four-digit year, written as `DD/MM/YYYY`, parses back to itself. */
  lemma ParseDayText(d: Date)
    requires IsValid(d) && 1000 <= d.year <= 9999
    ensures |DayText(d)| == 10
    ensures ParseDay(DayText(d)) == Some(d)
  {
    var dd, mm, yy := Pad2(d.day), Pad2(d.month), ShowInt(d.year);
    Pad2Reads(d.day);
    Pad2Reads(d.month);
    ShowLength(d.year, 4);
    ValueOfShow(d.year);
    var s := DayText(d);
    SplitFields(dd, mm, yy, s);
    assert IsDigits(s[..2]) && IsDigits(s[3..5]) && IsDigits(s[6..]);
    assert Date(Value(s[6..]), Value(s[3..5]), Value(s[..2])) == d;
  }

  /**
   * Every text that parses to a day of a four-digit year is that day written
   * as `DD/MM/YYYY`; with `ParseDayText`, `ParseDay` and `DayText` are
   * inverses for four-digit years.
   */
  lemma DayTextOfParse(s: string)
    requires ParseDay(s).Some? && ParseDay(s).value.year >= 1000
    ensures DayText(ParseDay(s).value) == s
  {
    var dd, mm, yy := s[..2], s[3..5], s[6..];
    assert ParseDay(s).value == Date(Value(yy), Value(mm), Value(dd));
    Pad2OfValue(dd);
    Pad2OfValue(mm);
    YearText(yy);
    JoinFields(s);
  }

  /** A day the month does not have is an invalid date, as in moment's overflow check. */
  lemma NoThirtyFirstOfFebruary()
    ensures ParseDay("31/02/2022") == None
  {
    var s := "31/02/2022";
    assert s[..2] == "31" && s[3..5] == "02";
    assert "31"[..1] == "3" && "02"[..1] == "0";
    assert Value("31") == 31 && Value("02") == 2;
  }

  /** Four digits denoting a year from 1000 on are what `String` writes for it. */
  lemma YearText(yy: string)
    requires |yy| == 4 && IsDigits(yy) && Value(yy) >= 1000
    ensures Show(Value(yy)) == yy
  {
    var tail := yy[1..];
    LeadingZero(tail);
    ValueBound(tail);
    assert |tail| == 3;
    assert Pow10(1) == 10 && Pow10(2) == 100 && Pow10(3) == 1000;
    assert yy[0] == '0' ==> yy == "0" + tail;
    ShowOfValue(yy);
  }

  /** A `DD/MM/YYYY`-shaped text is its three fields joined by slashes. */
  lemma JoinFields(s: string)
    requires |s| == 10 && s[2] == '/' && s[5] == '/'
    ensures s == s[..2] + "/" + s[3..5] + "/" + s[6..]
  {
  }

  /** Where the three fields of a `DD/MM/YYYY` text sit. */
  lemma SplitFields(dd: string, mm: string, yy: string, s: string)
    requires |dd| == 2 && |mm| == 2 && |yy| == 4
    requires s == dd + "/" + mm + "/" + yy
    ensures |s| == 10 && s[2] == '/' && s[5] == '/'
    ensures s[..2] == dd && s[3..5] == mm && s[6..] == yy
  {
  }
}
