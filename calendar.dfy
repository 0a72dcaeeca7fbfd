/** The calendar arithmetic behind time.Parse and Time.Format with the
    layout "2006-01-02" (DateFormat of common.go): the ISO 8601 extended
    calendar-date form YYYY-MM-DD of the proleptic Gregorian calendar,
    read and written in the model's single time zone. */
module Calendar {
  import opened Common
  import opened Wrappers

  predicate IsDigit(c: char) {
    '0' <= c <= '9'
  }

  predicate AllDigits(s: string) {
    forall i :: 0 <= i < |s| ==> IsDigit(s[i])
  }

  function DigitChar(n: nat): (c: char)
    requires n < 10
    ensures IsDigit(c)
  {
    ('0' as int + n) as char
  }

  /** The number a string of decimal digits spells. */
  function DigitsValue(s: string): nat
    requires AllDigits(s)
  {
    if s == [] then 0 else 10 * DigitsValue(s[..|s| - 1]) + (s[|s| - 1] as int - '0' as int)
  }

  /** The decimal digits of n, with zeros in front up to width characters. */
  function PadDigits(n: nat, width: nat): (s: string)
    ensures AllDigits(s) && |s| >= 1
    decreases n + width
  {
    if n < 10 && width <= 1 then [DigitChar(n)]
    else PadDigits(n / 10, if width > 0 then width - 1 else 0) + [DigitChar(n % 10)]
  }

  /** The zero-padded digits of a number spell that number back. */
  lemma {:induction false} PadDigitsValue(n: nat, width: nat)
    ensures DigitsValue(PadDigits(n, width)) == n
    decreases n + width
  {
    if !(n < 10 && width <= 1) {
      var s := PadDigits(n, width);
      PadDigitsValue(n / 10, if width > 0 then width - 1 else 0);
      assert s[..|s| - 1] == PadDigits(n / 10, if width > 0 then width - 1 else 0);
    }
  }

  /** Padding the value of a digit string to its own length gives it back. */
  lemma {:induction false} DigitsValuePadded(s: string)
    requires AllDigits(s) && |s| >= 1
    ensures PadDigits(DigitsValue(s), |s|) == s
  {
    var init := s[..|s| - 1];
    var n := DigitsValue(s);
    if |s| == 1 {
      assert init == [];
    } else {
      DigitsValuePadded(init);
      assert n / 10 == DigitsValue(init);
      assert n % 10 == s[|s| - 1] as int - '0' as int;
      assert s == init + [s[|s| - 1]];
    }
  }

  /** Go's appendInt(b, x, width): a minus sign for a negative x, then the
      digits of its magnitude padded with zeros to width. */
  function FormatInt(x: int, width: nat): string {
    if x < 0 then "-" + PadDigits(-x, width) else PadDigits(x, width)
  }

  // ---------------------------------------------------------------------
  // Days since 1970-01-01

  predicate IsLeap(year: int) {
    year % 4 == 0 && (year % 100 != 0 || year % 400 == 0)
  }

  /** daysIn: the length of a month of the given year. */
  function DaysIn(month: int, year: int): int
    requires 1 <= month <= 12
  {
    if month == 2 then (if IsLeap(year) then 29 else 28)
    else if month == 4 || month == 6 || month == 9 || month == 11 then 30
    else 31
  }

  /** The position of a day within a year that starts on March 1. */
  function ShiftedDayOfYear(m: int, d: int): int
    requires 1 <= m <= 12
  {
    var mp := if m > 2 then m - 3 else m + 9;
    (153 * mp + 2) / 5 + d - 1
  }

  /** The number of days from 1970-01-01 to the date y-m-d. */
  function DaysFromCivil(y: int, m: int, d: int): int
    requires 1 <= m <= 12
  {
    var y' := if m <= 2 then y - 1 else y;
    var era := y' / 400;
    var yoe := y' - era * 400;
    era * 146097 + DayOfEra(yoe, ShiftedDayOfYear(m, d)) - 719468
  }

  datatype Date = Date(year: int, month: int, day: int)

  /** The date of day doy of year yoe of 400-year era number era, where
      years start on March 1. */
  function DateInEra(era: int, yoe: int, doy: int): Date {
    var mp := (5 * doy + 2) / 153;
    var d := doy - (153 * mp + 2) / 5 + 1;
    var m := if mp < 10 then mp + 3 else mp - 9;
    Date(if m <= 2 then yoe + era * 400 + 1 else yoe + era * 400, m, d)
  }

  /** The date of the day numbered z, counting 1970-01-01 as day 0. */
  function CivilFromDays(z: int): Date {
    var z' := z + 719468;
    var era := z' / 146097;
    var doe := z' - era * 146097;
    var yoe := YearOfEra(doe);
    DateInEra(era, yoe, doe - DayOfEra(yoe, 0))
  }

  predicate ValidDate(y: int, m: int, d: int) {
    1 <= m <= 12 && 1 <= d <= DaysIn(m, y)
  }

  /** Within a March-based year, a valid date's day number is below 365,
      except February 29 of a leap year, which is day 365. */
  lemma ShiftedDayOfYearRange(y: int, m: int, d: int)
    requires ValidDate(y, m, d)
    ensures 0 <= ShiftedDayOfYear(m, d) <= 365
    ensures ShiftedDayOfYear(m, d) == 365 ==> m == 2 && d == 29 && IsLeap(y)
    ensures (5 * ShiftedDayOfYear(m, d) + 2) / 153 == (if m > 2 then m - 3 else m + 9)
  {
  }

  /** The day of a 400-year era on which day doy of year yoe of the era
      falls, with yoe written as 100 * c + 4 * b + a. */
  function DayOfEra(yoe: int, doy: int): int {
    yoe * 365 + yoe / 4 - yoe / 100 + doy
  }

  /** The year of a 400-year era that day doe of the era falls in. */
  function YearOfEra(doe: int): int {
    (doe - doe / 1460 + doe / 36524 - doe / 146096) / 365
  }

  lemma DayOfEraDecomposed(c: int, b: int, a: int, doy: int)
    requires 0 <= c < 4 && 0 <= b < 25 && 0 <= a < 4
    ensures DayOfEra(100 * c + 4 * b + a, doy) == 36524 * c + 1461 * b + 365 * a + doy
  {
    var yoe := 100 * c + 4 * b + a;
    assert yoe / 4 == 25 * c + b;
    assert yoe / 100 == c;
  }

  lemma CenturiesOfEra(c: int, x: int)
    requires 0 <= c < 4 && 0 <= x <= 36524
    requires x == 36524 ==> c == 3
    ensures (36524 * c + x) / 36524 - (36524 * c + x) / 146096 == c
  {
    if x == 36524 {
      assert 36524 * c + x == 146096;
    } else {
      assert (36524 * c + x) / 36524 == c;
      assert (36524 * c + x) / 146096 == 0;
    }
  }

  lemma QuadYearsOfEra(c: int, b: int, a: int, doy: int)
    requires 0 <= c < 4 && 0 <= b < 25 && 0 <= a < 4 && 0 <= doy <= 365
    requires doy == 365 ==> a == 3
    ensures var e := if 24 * c + b + 365 * a + doy >= 1460 then 1 else 0;
      && (36524 * c + 1461 * b + 365 * a + doy) / 1460 == 25 * c + b + e
      && (e == 1 ==> doy >= 1)
  {
    var r := 24 * c + b + 365 * a + doy;
    assert 36524 * c + 1461 * b + 365 * a + doy == 1460 * (25 * c + b) + r;
    assert 0 <= r < 2920;
  }

  /** YearOfEra inverts DayOfEra on the days that exist: day 365 of a
      March-based year is February 29, so year yoe + 1 of the era is leap. */
  lemma YearOfEraInverse(c: int, b: int, a: int, doy: int)
    requires 0 <= c < 4 && 0 <= b < 25 && 0 <= a < 4 && 0 <= doy <= 365
    requires doy == 365 ==> a == 3 && (b == 24 ==> c == 3)
    ensures 0 <= DayOfEra(100 * c + 4 * b + a, doy) < 146097
    ensures YearOfEra(DayOfEra(100 * c + 4 * b + a, doy)) == 100 * c + 4 * b + a
  {
    var yoe := 100 * c + 4 * b + a;
    DayOfEraDecomposed(c, b, a, doy);
    var doe := DayOfEra(yoe, doy);
    CenturiesOfEra(c, 1461 * b + 365 * a + doy);
    QuadYearsOfEra(c, b, a, doy);
    var e := if 24 * c + b + 365 * a + doy >= 1460 then 1 else 0;
    assert doe - doe / 1460 + doe / 36524 - doe / 146096 == 365 * yoe + (doy - e);
    assert 0 <= doy - e < 365;
  }

  lemma EraOfDay(era: int, doe: int)
    requires 0 <= doe < 146097
    ensures (era * 146097 + doe) / 146097 == era
  {
  }

  lemma DateInEraOfValidDate(y: int, m: int, d: int, era: int, yoe: int)
    requires ValidDate(y, m, d)
    requires era * 400 + yoe == if m <= 2 then y - 1 else y
    ensures DateInEra(era, yoe, ShiftedDayOfYear(m, d)) == Date(y, m, d)
  {
    ShiftedDayOfYearRange(y, m, d);
  }

  lemma YearOfEraDigits(yoe: int)
    requires 0 <= yoe < 400
    ensures var c, b, a := yoe / 100, (yoe % 100) / 4, yoe % 4;
      0 <= c < 4 && 0 <= b < 25 && 0 <= a < 4 && yoe == 100 * c + 4 * b + a
  {
  }

  /** A leap year's place in its 400-year era: year yoe + 1 of an era is a
      multiple of 4 and, when a multiple of 100, is the era's last year. */
  lemma LeapInEra(era: int, yoe: int)
    requires 0 <= yoe < 400
    requires IsLeap(era * 400 + yoe + 1)
    ensures (yoe + 1) % 4 == 0
    ensures (yoe + 1) % 100 == 0 ==> yoe == 399
  {
    var k := yoe + 1;
    ModOfShift4(era * 100, k);
    ModOfShift100(era * 4, k);
    ModOfShift400(era, k);
  }

  lemma ModOfShift4(q: int, k: int)
    ensures (4 * q + k) % 4 == k % 4
  {
  }

  lemma ModOfShift100(q: int, k: int)
    ensures (100 * q + k) % 100 == k % 100
  {
  }

  lemma ModOfShift400(q: int, k: int)
    ensures (400 * q + k) % 400 == k % 400
  {
  }

  lemma LeapYearDigits(yoe: int)
    requires 0 <= yoe < 400
    requires (yoe + 1) % 4 == 0
    requires (yoe + 1) % 100 == 0 ==> yoe == 399
    ensures yoe % 4 == 3
    ensures (yoe % 100) / 4 == 24 ==> yoe / 100 == 3
  {
  }

  /** The day number, within its era, of a valid date, and the era's year
      that YearOfEra reads back from it. */
  lemma DayOfEraOfValidDate(y: int, m: int, d: int, era: int, yoe: int)
    requires ValidDate(y, m, d)
    requires 0 <= yoe < 400 && era * 400 + yoe == if m <= 2 then y - 1 else y
    ensures var doe := DayOfEra(yoe, ShiftedDayOfYear(m, d));
      0 <= doe < 146097 && YearOfEra(doe) == yoe
  {
    ShiftedDayOfYearRange(y, m, d);
    var doy := ShiftedDayOfYear(m, d);
    YearOfEraDigits(yoe);
    if doy == 365 {
      assert IsLeap(era * 400 + yoe + 1);
      LeapInEra(era, yoe);
      LeapYearDigits(yoe);
    }
    YearOfEraInverse(yoe / 100, (yoe % 100) / 4, yoe % 4, doy);
  }

  lemma CivilOfEraDay(era: int, yoe: int, doy: int)
    requires 0 <= DayOfEra(yoe, doy) < 146097
    requires YearOfEra(DayOfEra(yoe, doy)) == yoe
    ensures CivilFromDays(era * 146097 + DayOfEra(yoe, doy) - 719468) == DateInEra(era, yoe, doy)
  {
    EraOfDay(era, DayOfEra(yoe, doy));
  }

  /** DaysFromCivil of a valid date, in terms of its era and year of era. */
  lemma DaysFromCivilByEra(y: int, m: int, d: int) returns (era: int, yoe: int)
    requires ValidDate(y, m, d)
    ensures 0 <= yoe < 400 && era * 400 + yoe == if m <= 2 then y - 1 else y
    ensures DaysFromCivil(y, m, d) == era * 146097 + DayOfEra(yoe, ShiftedDayOfYear(m, d)) - 719468
  {
    var y' := if m <= 2 then y - 1 else y;
    era := y' / 400;
    yoe := y' - era * 400;
  }

  /** Counting the days of a valid date and reading the count back as a date
      gives the date back. */
  lemma CivilRoundTrip(y: int, m: int, d: int)
    requires ValidDate(y, m, d)
    ensures CivilFromDays(DaysFromCivil(y, m, d)) == Date(y, m, d)
  {
    var era, yoe := DaysFromCivilByEra(y, m, d);
    var doy := ShiftedDayOfYear(m, d);
    DayOfEraOfValidDate(y, m, d, era, yoe);
    CivilOfEraDay(era, yoe, doy);
    DateInEraOfValidDate(y, m, d, era, yoe);
  }

  /** Every day of a 400-year era is day doy of year 100 * c + 4 * b + a of
      the era, with day 365 only at the end of a leap year. */
  lemma EraDaySplit(doe: int) returns (c: int, b: int, a: int, doy: int)
    requires 0 <= doe < 146097
    ensures 0 <= c < 4 && 0 <= b < 25 && 0 <= a < 4 && 0 <= doy <= 365
    ensures doy == 365 ==> a == 3 && (b == 24 ==> c == 3)
    ensures DayOfEra(100 * c + 4 * b + a, doy) == doe
  {
    c := if doe / 36524 < 4 then doe / 36524 else 3;
    var r1 := doe - 36524 * c;
    assert 0 <= r1 <= 36524 && (r1 == 36524 ==> c == 3);
    b := r1 / 1461;
    var r2 := r1 - 1461 * b;
    assert 0 <= r2 <= 1460 && (r2 == 1460 ==> b < 24 || c == 3);
    a := if r2 / 365 < 4 then r2 / 365 else 3;
    doy := r2 - 365 * a;
    DayOfEraDecomposed(c, b, a, doy);
  }

  /** The month and day of day doy of a year that starts on March 1. */
  lemma DateOfShiftedDay(era: int, yoe: int, doy: int)
    requires 0 <= doy <= 365
    ensures var date := DateInEra(era, yoe, doy);
      && 1 <= date.month <= 12 && 1 <= date.day
      && ShiftedDayOfYear(date.month, date.day) == doy
      && date.year == (if date.month <= 2 then yoe + era * 400 + 1 else yoe + era * 400)
      && (date.month != 2 ==> date.day <= DaysIn(date.month, date.year))
      && (date.month == 2 ==> date.day <= 28 || (date.day == 29 && doy == 365))
  {
    var mp := (5 * doy + 2) / 153;
    assert 153 * mp <= 5 * doy + 2 < 153 * mp + 153;
    assert 0 <= mp <= 11;
  }

  /** Every day number is the count of a valid date: CivilFromDays yields a
      date on the calendar, and DaysFromCivil counts it back to the same
      day. */
  lemma DaysRoundTrip(z: int)
    ensures var date := CivilFromDays(z);
      && ValidDate(date.year, date.month, date.day)
      && DaysFromCivil(date.year, date.month, date.day) == z
  {
    var z' := z + 719468;
    var era := z' / 146097;
    var doe := z' - era * 146097;
    var c, b, a, doy := EraDaySplit(doe);
    var yoe := 100 * c + 4 * b + a;
    YearOfEraInverse(c, b, a, doy);
    assert z == era * 146097 + DayOfEra(yoe, doy) - 719468;
    CivilOfEraDay(era, yoe, doy);
    EraDateValid(era, c, b, a, doy);
    EraDateCount(era, yoe, doy);
  }

  /** Day doy of year 100 * c + 4 * b + a of an era is a valid date. */
  lemma EraDateValid(era: int, c: int, b: int, a: int, doy: int)
    requires 0 <= c < 4 && 0 <= b < 25 && 0 <= a < 4 && 0 <= doy <= 365
    requires doy == 365 ==> a == 3 && (b == 24 ==> c == 3)
    ensures var date := DateInEra(era, 100 * c + 4 * b + a, doy);
      ValidDate(date.year, date.month, date.day)
  {
    var yoe := 100 * c + 4 * b + a;
    DateOfShiftedDay(era, yoe, doy);
    if doy == 365 {
      LeapEraEnd(era, c, b);
      assert era * 400 + yoe + 1 == era * 400 + 100 * c + 4 * b + 4;
    }
  }

  /** DaysFromCivil counts day doy of year yoe of an era back to its day
      number. */
  lemma EraDateCount(era: int, yoe: int, doy: int)
    requires 0 <= yoe < 400 && 0 <= doy <= 365
    ensures var date := DateInEra(era, yoe, doy);
      && 1 <= date.month <= 12
      && DaysFromCivil(date.year, date.month, date.day) == era * 146097 + DayOfEra(yoe, doy) - 719468
  {
    DateOfShiftedDay(era, yoe, doy);
    var date := DateInEra(era, yoe, doy);
    var y' := if date.month <= 2 then date.year - 1 else date.year;
    assert y' == era * 400 + yoe;
    assert y' / 400 == era;
  }

  /** The year after year 100 * c + 4 * b + 3 of an era is a leap year when
      it ends a 4-year cycle that is not the end of a century, or ends the
      era itself. */
  lemma LeapEraEnd(era: int, c: int, b: int)
    requires 0 <= c < 4 && 0 <= b < 25 && (b == 24 ==> c == 3)
    ensures IsLeap(era * 400 + 100 * c + 4 * b + 4)
  {
    var k := 100 * c + 4 * b + 4;
    ModOfShift4(era * 100, k);
    ModOfShift100(era * 4, k);
    ModOfShift400(era, k);
    assert k % 4 == 0;
    if b < 24 {
      assert k % 100 == 4 * b + 4;
    } else {
      assert k == 400;
    }
  }

  // ---------------------------------------------------------------------
  // Parsing and formatting with the layout "2006-01-02"

  /** Four digits, a dash, two digits, a dash, two digits. */
  predicate IsDateText(s: string) {
    && |s| == 10 && s[4] == '-' && s[7] == '-'
    && AllDigits(s[..4]) && AllDigits(s[5..7]) && AllDigits(s[8..])
  }

  /** The midnight that starts the given date. */
  function Midnight(y: int, m: int, d: int): Time
    requires 1 <= m <= 12
  {
    DaysFromCivil(y, m, d) * DurationDay
  }

  lemma MidnightIsDay(k: int)
    ensures Day(k * DurationDay) == k * DurationDay
  {
    DayUnique(k * DurationDay, k * DurationDay);
  }

  /** time.Parse(DateFormat, s): the text must be YYYY-MM-DD, the month 01
      to 12 and the day within that month; the result is that day's
      midnight. None stands for the parse error. */
  function ParseDate(s: string): (r: Option<Time>)
    ensures r.Some? ==> Day(r.value) == r.value
  {
    if !IsDateText(s) then None
    else
      var y, m, d := DigitsValue(s[..4]), DigitsValue(s[5..7]), DigitsValue(s[8..]);
      if ValidDate(y, m, d) then
        MidnightIsDay(DaysFromCivil(y, m, d));
        Some(Midnight(y, m, d))
      else None
  }

  /** "2023-02-30" has the shape of a date, but February 2023 has 28 days. */
  lemma FebruaryThirtieth()
    ensures IsDateText("2023-02-30") && ParseDate("2023-02-30") == None
  {
    var s := "2023-02-30";
    assert s[..4] == "2023" && s[5..7] == "02" && s[8..] == "30";
    assert DigitsValue("2023") == 2023 by {
      assert "2023"[..3] == "202" && "202"[..2] == "20" && "20"[..1] == "2" && "2"[..0] == "";
    }
    assert DigitsValue("02") == 2 by {
      assert "02"[..1] == "0" && "0"[..0] == "";
    }
    assert DigitsValue("30") == 30 by {
      assert "30"[..1] == "3" && "3"[..0] == "";
    }
    assert !ValidDate(2023, 2, 30);
  }

  /** The calendar date of the day t falls on. */
  function DateOf(t: Time): (date: Date)
    ensures ValidDate(date.year, date.month, date.day)
    ensures Midnight(date.year, date.month, date.day) == Day(t)
  {
    var z := Day(t) / DurationDay;
    DaysRoundTrip(z);
    assert Day(t) == z * DurationDay;
    CivilFromDays(z)
  }

  /** The years Time.Format writes with exactly four digits. */
  predicate FourDigitYear(t: Time) {
    0 <= DateOf(t).year <= 9999
  }

  function Pow10(k: nat): (p: nat)
    ensures p >= 1
  {
    if k == 0 then 1 else 10 * Pow10(k - 1)
  }

  /** Padding to width w writes exactly w digits when the number has at
      most w of them, and more otherwise. */
  lemma {:induction false} PadDigitsLength(n: nat, w: nat)
    requires w >= 1
    ensures n < Pow10(w) ==> |PadDigits(n, w)| == w
    ensures n >= Pow10(w) ==> |PadDigits(n, w)| > w
    decreases w
  {
    if !(n < 10 && w <= 1) && w > 1 {
      PadDigitsLength(n / 10, w - 1);
    }
  }

  /** Time.Format(DateFormat): the date of the day t falls on, the year
      padded to four digits and month and day to two. Month and day always
      take exactly two digits. */
  function FormatDate(t: Time): (s: string)
    ensures |s| >= 10 && s[|s| - 6] == '-' && s[|s| - 3] == '-'
    ensures AllDigits(s[|s| - 5..|s| - 3]) && AllDigits(s[|s| - 2..])
  {
    var date := DateOf(t);
    FormattedTail(date);
    FormatInt(date.year, 4) + "-" + FormatInt(date.month, 2) + "-" + FormatInt(date.day, 2)
  }

  /** A valid date written out ends in -MM-DD. */
  lemma FormattedTail(date: Date)
    requires ValidDate(date.year, date.month, date.day)
    ensures var s := FormatInt(date.year, 4) + "-" + FormatInt(date.month, 2) + "-" + FormatInt(date.day, 2);
      && |s| >= 10 && s[|s| - 6] == '-' && s[|s| - 3] == '-'
      && AllDigits(s[|s| - 5..|s| - 3]) && AllDigits(s[|s| - 2..])
  {
    var ys, ms, ds := FormatInt(date.year, 4), FormatInt(date.month, 2), FormatInt(date.day, 2);
    TwoDigits(date.month);
    TwoDigits(date.day);
    assert |ys| >= 4 by {
      PadDigitsLength(if date.year < 0 then -date.year else date.year, 4);
    }
    DateTextTail(ys, ms, ds);
  }

  lemma TwoDigits(n: nat)
    requires n < 100
    ensures |PadDigits(n, 2)| == 2
  {
    assert Pow10(2) == 100;
    PadDigitsLength(n, 2);
  }

  lemma DateTextTail(ys: string, ms: string, ds: string)
    requires |ys| >= 4 && |ms| == 2 && |ds| == 2 && AllDigits(ms) && AllDigits(ds)
    ensures var s := ys + "-" + ms + "-" + ds;
      && |s| >= 10 && s[|s| - 6] == '-' && s[|s| - 3] == '-'
      && AllDigits(s[|s| - 5..|s| - 3]) && AllDigits(s[|s| - 2..])
  {
    var s := ys + "-" + ms + "-" + ds;
    assert s[|s| - 5..|s| - 3] == ms && s[|s| - 2..] == ds;
  }

  /** A time in the years 0000 to 9999 is formatted as a date that parses
      back to the midnight of its day. */
  lemma FormatThenParse(t: Time)
    requires FourDigitYear(t)
    ensures IsDateText(FormatDate(t))
    ensures ParseDate(FormatDate(t)) == Some(Day(t))
  {
    var date := DateOf(t);
    var y, m, d := date.year, date.month, date.day;
    var ys, ms, ds := PadDigits(y, 4), PadDigits(m, 2), PadDigits(d, 2);
    PadDigitsLength(y, 4);
    PadDigitsLength(m, 2);
    PadDigitsLength(d, 2);
    var s := FormatDate(t);
    assert s == ys + "-" + ms + "-" + ds;
    assert s[..4] == ys && s[5..7] == ms && s[8..] == ds;
    PadDigitsValue(y, 4);
    PadDigitsValue(m, 2);
    PadDigitsValue(d, 2);
  }

  /** Outside the years 0000 to 9999 the formatted date does not parse: a
      negative year starts with a minus sign, and a year past 9999 takes
      more than four digits. */
  lemma FormatOutsideFourDigitYears(t: Time)
    requires !FourDigitYear(t)
    ensures !IsDateText(FormatDate(t)) && ParseDate(FormatDate(t)) == None
  {
    var date := DateOf(t);
    var y := date.year;
    var s := FormatDate(t);
    if y < 0 {
      assert s[0] == '-';
      assert |s| >= 4 ==> s[..4][0] == '-';
    } else {
      PadDigitsLength(y, 4);
      PadDigitsLength(date.month, 2);
      PadDigitsLength(date.day, 2);
      assert |s| > 10;
    }
  }

  /** Formatting a parsed date gives back the text that was parsed. */
  lemma FormatParsedDate(s: string)
    requires ParseDate(s).Some?
    ensures FormatDate(ParseDate(s).value) == s
  {
    var y, m, d := DigitsValue(s[..4]), DigitsValue(s[5..7]), DigitsValue(s[8..]);
    var t := ParseDate(s).value;
    assert t == DaysFromCivil(y, m, d) * DurationDay;
    assert Day(t) / DurationDay == DaysFromCivil(y, m, d);
    CivilRoundTrip(y, m, d);
    DigitsValuePadded(s[..4]);
    DigitsValuePadded(s[5..7]);
    DigitsValuePadded(s[8..]);
    assert s == s[..4] + "-" + s[5..7] + "-" + s[8..];
  }
}
