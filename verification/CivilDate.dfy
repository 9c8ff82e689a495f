/** `http_date`: epoch seconds to an IMF-fixdate (section 5.6.7 of RFC 9110) by Hinnant's
    civil-from-days arithmetic, checked against a calendar defined month by month. */
module CivilDate {
  import opened Prelude

  // ---------------------------------------------------------------------------------------
  // The reference: the proleptic Gregorian calendar
  // ---------------------------------------------------------------------------------------

  datatype Date = Date(year: int, month: int, day: int)

  predicate IsLeap(year: int) {
    year % 4 == 0 && (year % 100 != 0 || year % 400 == 0)
  }

  function DaysInMonth(year: int, month: int): int {
    if month == 2 then (if IsLeap(year) then 29 else 28)
    else if month == 4 || month == 6 || month == 9 || month == 11 then 30
    else 31
  }

  predicate ValidDate(d: Date) {
    1 <= d.month <= 12 && 1 <= d.day <= DaysInMonth(d.year, d.month)
  }

  /** The calendar day after `d`. */
  function NextDay(d: Date): Date {
    if d.day < DaysInMonth(d.year, d.month) then Date(d.year, d.month, d.day + 1)
    else if d.month < 12 then Date(d.year, d.month + 1, 1)
    else Date(d.year + 1, 1, 1)
  }

  /** Days in the months of `year` before `month`. */
  function DaysBeforeMonth(year: int, month: nat): int {
    if month <= 1 then 0 else DaysBeforeMonth(year, month - 1) + DaysInMonth(year, month - 1)
  }

  function YearLength(year: int): int {
    if IsLeap(year) then 366 else 365
  }

  /** Days from 1970-01-01 to 1 January of `year`, counted year by year. */
  function DaysBeforeYear(year: int): int
    decreases if year >= 1970 then year - 1970 else 1970 - year
  {
    if year == 1970 then 0
    else if year > 1970 then DaysBeforeYear(year - 1) + YearLength(year - 1)
    else DaysBeforeYear(year + 1) - YearLength(year)
  }

  /** Days from 1970-01-01 to `d`, counted along the calendar. */
  function DayNumber(d: Date): int
    requires ValidDate(d)
  {
    DaysBeforeYear(d.year) + DaysBeforeMonth(d.year, d.month) + d.day - 1
  }

  lemma YearsAddUp(year: int)
    ensures DaysBeforeYear(year + 1) == DaysBeforeYear(year) + YearLength(year)
  {
  }

  /** The count in closed form. */
  function DaysByFormula(year: int): int {
    365 * (year - 1) + (year - 1) / 4 - (year - 1) / 100 + (year - 1) / 400 - 719_162
  }

  lemma FormulaAddsUp(year: int)
    ensures DaysByFormula(year + 1) == DaysByFormula(year) + YearLength(year)
  {
    QuotientsStep(year);
    LeapsCount(year);
    assert DaysByFormula(year + 1) == 365 * year + year / 4 - year / 100 + year / 400 - 719_162;
  }

  lemma {:induction false} CountIsByFormula(year: int)
    ensures DaysBeforeYear(year) == DaysByFormula(year)
    decreases if year >= 1970 then year - 1970 else 1970 - year
  {
    if year > 1970 {
      CountIsByFormula(year - 1);
      FormulaAddsUp(year - 1);
    } else if year < 1970 {
      CountIsByFormula(year + 1);
      FormulaAddsUp(year);
    }
  }

  lemma QuotientsStep(y: int)
    ensures y / 4 == (y - 1) / 4 + (if y % 4 == 0 then 1 else 0)
    ensures y / 100 == (y - 1) / 100 + (if y % 100 == 0 then 1 else 0)
    ensures y / 400 == (y - 1) / 400 + (if y % 400 == 0 then 1 else 0)
  {
  }

  /** Of the years divisible by four, the leap ones. */
  lemma LeapsCount(y: int)
    ensures (if y % 4 == 0 then 1 else 0) - (if y % 100 == 0 then 1 else 0) + (if y % 400 == 0 then 1 else 0)
         == if IsLeap(y) then 1 else 0
  {
  }

  lemma MonthTable(year: int)
    ensures DaysBeforeMonth(year, 1) == 0
    ensures DaysBeforeMonth(year, 2) == 31
    ensures var feb := DaysInMonth(year, 2);
            && DaysBeforeMonth(year, 3) == 31 + feb
            && DaysBeforeMonth(year, 4) == 62 + feb
            && DaysBeforeMonth(year, 5) == 92 + feb
            && DaysBeforeMonth(year, 6) == 123 + feb
            && DaysBeforeMonth(year, 7) == 153 + feb
            && DaysBeforeMonth(year, 8) == 184 + feb
            && DaysBeforeMonth(year, 9) == 215 + feb
            && DaysBeforeMonth(year, 10) == 245 + feb
            && DaysBeforeMonth(year, 11) == 276 + feb
            && DaysBeforeMonth(year, 12) == 306 + feb
  {
    assert DaysBeforeMonth(year, 3) == DaysBeforeMonth(year, 2) + DaysInMonth(year, 2);
    assert DaysBeforeMonth(year, 6) == DaysBeforeMonth(year, 5) + 31;
    assert DaysBeforeMonth(year, 9) == DaysBeforeMonth(year, 8) + 31;
  }

  // ---------------------------------------------------------------------------------------
  // The code's arithmetic
  // ---------------------------------------------------------------------------------------

  function CivilFromDays(days: int): Date {
    var z := days + 719_468;
    var era := z / 146_097;
    var doe := z % 146_097;
    var yoe := YearOfEra(doe);
    var doy := doe - EraDays(yoe);
    FromMarchYear(yoe + era * 400, doy)
  }

  /** The date `doy` days after 1 March of `march`. */
  function FromMarchYear(march: int, doy: int): Date {
    var mp := (5 * doy + 2) / 153;
    var day := doy - (153 * mp + 2) / 5 + 1;
    var month := if mp < 10 then mp + 3 else mp - 9;
    Date(march + (if month <= 2 then 1 else 0), month, day)
  }

  function YearOfEra(doe: int): int {
    (doe - doe / 1_460 + doe / 36_524 - doe / 146_096) / 365
  }

  /** Days from 1 March of year 0 of an era to 1 March of its year `yoe`. */
  function EraDays(yoe: int): int {
    365 * yoe + yoe / 4 - yoe / 100
  }

  /** Within an era a day is `c` centuries, `k` four-year cycles and `s` days in, and the
      division by 365 of the leap-corrected count finds the year. */
  lemma YearOfEraSplit(doe: int, c: int, k: int, s: int)
    requires 0 <= c <= 3 && 0 <= k <= 24 && 0 <= s <= 1_460
    requires doe == 36_524 * c + 1_461 * k + s
    requires 1_461 * k + s < 36_524
    ensures YearOfEra(doe) == 100 * c + 4 * k + Min(3, s / 365)
  {
    var e := (24 * c + k + s) / 1_460;
    assert doe / 1_460 == 25 * c + k + e;
    assert doe / 36_524 == c;
    assert doe / 146_096 == 0;
    var j := Min(3, s / 365);
    assert 365 * j <= s - e < 365 * (j + 1);
    assert doe - doe / 1_460 + doe / 36_524 == 365 * (100 * c + 4 * k + j) + (s - e - 365 * j);
  }

  lemma EraDaysSplit(c: int, k: int, j: int)
    requires 0 <= c <= 3 && 0 <= k <= 24 && 0 <= j <= 3
    ensures EraDays(100 * c + 4 * k + j) == 36_524 * c + 1_461 * k + 365 * j
  {
    assert (4 * (25 * c + k) + j) / 4 == 25 * c + k;
    assert (100 * c + (4 * k + j)) / 100 == c;
  }

  /** The year-of-era division lands in the right March-based year. */
  lemma YearOfEraExact(doe: int)
    requires 0 <= doe < 146_097
    ensures var yoe := YearOfEra(doe);
            && 0 <= yoe < 400
            && 0 <= doe - EraDays(yoe) <= 365
            && (doe - EraDays(yoe) == 365 ==> IsLeap(yoe + 1))
  {
    var c, r := doe / 36_524, doe % 36_524;
    if c < 4 {
      var k, s := r / 1_461, r % 1_461;
      var j := Min(3, s / 365);
      YearOfEraSplit(doe, c, k, s);
      EraDaysSplit(c, k, j);
      if s - 365 * j == 365 {
        LeapAfter(c, k);
      }
    } else {
      assert doe == 146_096;
    }
  }

  lemma LeapAfter(c: int, k: int)
    requires 0 <= c <= 3 && 0 <= k < 24
    ensures IsLeap(100 * c + 4 * k + 4)
  {
    assert (4 * (25 * c + k + 1)) % 4 == 0;
    assert (100 * c + (4 * k + 4)) % 100 == 4 * k + 4;
  }

  /** The March-based year of a day, and the day's place in it. */
  lemma MarchYear(days: int) returns (era: int, yoe: int, doy: int)
    ensures 0 <= yoe < 400 && 0 <= doy <= 365
    ensures doy == 365 ==> IsLeap(era * 400 + yoe + 1)
    ensures days + 719_468 == 146_097 * era + EraDays(yoe) + doy
    ensures CivilFromDays(days) == FromMarchYear(era * 400 + yoe, doy)
  {
    var z := days + 719_468;
    era := z / 146_097;
    yoe := YearOfEra(z % 146_097);
    YearOfEraExact(z % 146_097);
    doy := z % 146_097 - EraDays(yoe);
    LeapHasPeriod400(yoe + 1, era);
  }

  /** Floor division by the Gregorian moduli passes over whole eras. */
  lemma EraQuotients(x: int, era: int)
    ensures (era * 400 + x) / 4 == 100 * era + x / 4 && (era * 400 + x) % 4 == x % 4
    ensures (era * 400 + x) / 100 == 4 * era + x / 100 && (era * 400 + x) % 100 == x % 100
    ensures (era * 400 + x) / 400 == era + x / 400 && (era * 400 + x) % 400 == x % 400
  {
    assert era * 400 + x == 4 * (100 * era + x / 4) + x % 4;
    assert era * 400 + x == 100 * (4 * era + x / 100) + x % 100;
    assert era * 400 + x == 400 * (era + x / 400) + x % 400;
  }

  lemma LeapHasPeriod400(year: int, era: int)
    ensures IsLeap(era * 400 + year) <==> IsLeap(year)
  {
    EraQuotients(year, era);
  }

  /** 1 March of `year` counted along the calendar. */
  lemma FirstOfMarch(era: int, yoe: int)
    requires 0 <= yoe < 400
    ensures DaysBeforeYear(era * 400 + yoe) + DaysBeforeMonth(era * 400 + yoe, 3)
         == 146_097 * era + EraDays(yoe) - 719_468
  {
    MonthTable(era * 400 + yoe);
    LeapHasPeriod400(yoe, era);
    EraQuotients(yoe - 1, era);
    CountIsByFormula(era * 400 + yoe);
    CountIsByFormula(yoe);
    assert DaysByFormula(era * 400 + yoe) == 146_097 * era + DaysByFormula(yoe);
    YearZeroEra(yoe);
  }

  lemma FirstYearOfEra(yoe: int)
    requires 0 <= yoe < 400
    ensures yoe / 400 == 0
  {
  }

  lemma YearZeroEra(yoe: int)
    requires 0 <= yoe < 400
    ensures DaysBeforeYear(yoe) + 31 + DaysInMonth(yoe, 2) == EraDays(yoe) - 719_468
  {
    CountIsByFormula(yoe);
    QuotientsStep(yoe);
    LeapsCount(yoe);
    FirstYearOfEra(yoe);
    assert DaysInMonth(yoe, 2) == if IsLeap(yoe) then 29 else 28;
  }

  // ---------------------------------------------------------------------------------------
  // Exactness
  // ---------------------------------------------------------------------------------------

  /** Every day number gets a date the calendar has, and counting along the calendar to that
      date gives the day number back. */
  lemma CivilIsExact(days: int)
    ensures ValidDate(CivilFromDays(days))
    ensures DayNumber(CivilFromDays(days)) == days
  {
    var era, yoe, doy := MarchYear(days);
    FirstOfMarch(era, yoe);
    MarchYearIsExact(era * 400 + yoe, doy);
  }

  lemma MarchYearIsExact(march: int, doy: int)
    requires 0 <= doy <= 365 && (doy == 365 ==> IsLeap(march + 1))
    ensures ValidDate(FromMarchYear(march, doy))
    ensures DayNumber(FromMarchYear(march, doy)) == DaysBeforeYear(march) + DaysBeforeMonth(march, 3) + doy
  {
    var mp := (5 * doy + 2) / 153;
    MonthOfMarchYear(march, doy, mp);
    YearsAddUp(march);
    MonthTable(march);
  }

  /** The month division: `mp` months after March starts `(153 * mp + 2) / 5` days into the
      March-based year, and `doy` falls inside that month. */
  lemma MonthOfMarchYear(year: int, doy: int, mp: int)
    requires 0 <= doy <= 365 && mp == (5 * doy + 2) / 153
    requires doy == 365 ==> IsLeap(year + 1)
    ensures 0 <= mp <= 11
    ensures var start := (153 * mp + 2) / 5;
            var day := doy - start + 1;
            if mp < 10 then
              && 1 <= day <= DaysInMonth(year, mp + 3)
              && DaysBeforeMonth(year, mp + 3) == DaysBeforeMonth(year, 3) + start
            else
              && 1 <= day <= DaysInMonth(year + 1, mp - 9)
              && DaysBeforeMonth(year + 1, mp - 9) == start - 306
  {
    MonthTable(year);
    MonthTable(year + 1);
    var start := (153 * mp + 2) / 5;
    if mp == 0 { assert start == 0; }
    else if mp == 1 { assert start == 31; }
    else if mp == 2 { assert start == 61; }
    else if mp == 3 { assert start == 92; }
    else if mp == 4 { assert start == 122; }
    else if mp == 5 { assert start == 153; }
    else if mp == 6 { assert start == 184; }
    else if mp == 7 { assert start == 214; }
    else if mp == 8 { assert start == 245; }
    else if mp == 9 { assert start == 275; }
    else if mp == 10 { assert start == 306; }
    else { assert start == 337; }
  }

  /** Two dates with the same day number are the same date. */
  lemma DayNumberIsInjective(a: Date, b: Date)
    requires ValidDate(a) && ValidDate(b)
    requires DayNumber(a) == DayNumber(b)
    ensures a == b
  {
    if a.year < b.year {
      YearsAreOrdered(a, b);
    } else if b.year < a.year {
      YearsAreOrdered(b, a);
    } else {
      MonthTable(a.year);
    }
  }

  /** A date falls inside its own year. */
  lemma DayOfYear(d: Date)
    requires ValidDate(d)
    ensures 0 <= DaysBeforeMonth(d.year, d.month) + d.day - 1 < (if IsLeap(d.year) then 366 else 365)
  {
    MonthTable(d.year);
  }

  lemma YearsAreOrdered(a: Date, b: Date)
    requires ValidDate(a) && ValidDate(b) && a.year < b.year
    ensures DayNumber(a) < DayNumber(b)
  {
    DayOfYear(a);
    DayOfYear(b);
    YearsAddUp(a.year);
    YearStartsAreOrdered(a.year + 1, b.year);
  }

  lemma {:induction false} YearStartsAreOrdered(a: int, b: int)
    requires a <= b
    ensures DaysBeforeYear(a) <= DaysBeforeYear(b)
    decreases b - a
  {
    if a < b {
      YearsAddUp(a);
      YearStartsAreOrdered(a + 1, b);
    }
  }

  /** The inverse the other way round: a calendar date comes back from its own day number. */
  lemma CivilInvertsDayNumber(d: Date)
    requires ValidDate(d)
    ensures CivilFromDays(DayNumber(d)) == d
  {
    CivilIsExact(DayNumber(d));
    DayNumberIsInjective(CivilFromDays(DayNumber(d)), d);
  }

  lemma NextDayCounts(d: Date)
    requires ValidDate(d)
    ensures ValidDate(NextDay(d))
    ensures DayNumber(NextDay(d)) == DayNumber(d) + 1
  {
    MonthTable(d.year);
    YearsAddUp(d.year);
  }

  /** The day after is the calendar's day after, leap centuries included. */
  lemma NextDayIsSuccessor(days: int)
    ensures CivilFromDays(days + 1) == NextDay(CivilFromDays(days))
  {
    CivilIsExact(days);
    NextDayCounts(CivilFromDays(days));
    CivilInvertsDayNumber(NextDay(CivilFromDays(days)));
  }

  // ---------------------------------------------------------------------------------------
  // Time of day and weekday
  // ---------------------------------------------------------------------------------------

  datatype Instant = Instant(date: Date, hour: int, minute: int, second: int, weekday: int)

  /** The fields `http_date` prints for `epoch`. Weekday 0 is Sunday. */
  function Fields(epoch: int): Instant {
    FieldsAt(epoch / 86_400, epoch % 86_400)
  }

  function FieldsAt(days: int, secs: int): Instant {
    Instant(CivilFromDays(days), secs / 3_600, secs % 3_600 / 60, secs % 60, (days + 4) % 7)
  }

  /** Every field is in range. */
  predicate Printable(i: Instant) {
    && ValidDate(i.date)
    && 0 <= i.hour < 24 && 0 <= i.minute < 60 && 0 <= i.second < 60
    && 0 <= i.weekday < 7
  }

  /** And the weekday is the one that falls on the date. */
  predicate ValidInstant(i: Instant) {
    Printable(i) && i.weekday == (DayNumber(i.date) + 4) % 7
  }

  function EpochOf(i: Instant): int
    requires ValidInstant(i)
  {
    EpochAt(DayNumber(i.date), i.hour, i.minute, i.second)
  }

  function EpochAt(days: int, h: int, m: int, s: int): int {
    days * 86_400 + (h * 3_600 + m * 60 + s)
  }

  /** Every second gets a valid date and time of day that convert back to the same second. */
  lemma FieldsAreExact(epoch: int)
    ensures ValidInstant(Fields(epoch))
    ensures EpochOf(Fields(epoch)) == epoch
  {
    CivilIsExact(epoch / 86_400);
    TimeOfDay(epoch % 86_400);
  }

  lemma TimeOfDay(secs: int)
    requires 0 <= secs < 86_400
    ensures 0 <= secs / 3_600 < 24 && 0 <= secs % 3_600 / 60 < 60 && 0 <= secs % 60 < 60
    ensures secs / 3_600 * 3_600 + secs % 3_600 / 60 * 60 + secs % 60 == secs
  {
    assert secs % 3_600 % 60 == secs % 60;
  }

  lemma SplitEpoch(days: int, rest: int)
    requires 0 <= rest < 86_400
    ensures (days * 86_400 + rest) / 86_400 == days && (days * 86_400 + rest) % 86_400 == rest
  {
  }

  lemma SplitTimeOfDay(h: int, m: int, s: int)
    requires 0 <= h < 24 && 0 <= m < 60 && 0 <= s < 60
    ensures var rest := h * 3_600 + m * 60 + s;
            && 0 <= rest < 86_400
            && rest / 3_600 == h && rest % 3_600 / 60 == m && rest % 60 == s
  {
    var rest := h * 3_600 + m * 60 + s;
    assert rest % 3_600 == m * 60 + s;
  }

  /** And every valid date and time of day comes back from the second it names. */
  lemma FieldsInvertEpoch(i: Instant, epoch: int)
    requires ValidInstant(i) && epoch == EpochOf(i)
    ensures Fields(epoch) == i
  {
    CivilInvertsDayNumber(i.date);
    FieldsFrom(i, DayNumber(i.date));
  }

  lemma FieldsFrom(i: Instant, days: int)
    requires Printable(i) && CivilFromDays(days) == i.date && i.weekday == (days + 4) % 7
    ensures Fields(EpochAt(days, i.hour, i.minute, i.second)) == i
  {
    FieldsOfSplit(days, i.hour, i.minute, i.second);
  }

  lemma FieldsOfSplit(days: int, h: int, m: int, s: int)
    requires 0 <= h < 24 && 0 <= m < 60 && 0 <= s < 60
    ensures Fields(EpochAt(days, h, m, s)) == Instant(CivilFromDays(days), h, m, s, (days + 4) % 7)
  {
    SplitTimeOfDay(h, m, s);
    SplitEpoch(days, h * 3_600 + m * 60 + s);
  }

  /** 1 January 1970 was a Thursday. */
  lemma EpochIsThursday()
    ensures Fields(0) == Instant(Date(1970, 1, 1), 0, 0, 0, 4)
  {
    assert YearOfEra(135_080) == 369 && EraDays(369) == 134_774;
    assert 719_468 / 146_097 == 4 && 719_468 % 146_097 == 135_080;
    assert CivilFromDays(0) == Date(1970, 1, 1);
  }

  /** The same time tomorrow is the next weekday on the next calendar day. */
  lemma Tomorrow(epoch: int)
    ensures var today := Fields(epoch);
            Fields(epoch + 86_400)
            == today.(date := NextDay(today.date), weekday := (today.weekday + 1) % 7)
  {
    var days, secs := epoch / 86_400, epoch % 86_400;
    SplitEpoch(days + 1, secs);
    assert Fields(epoch + 86_400) == FieldsAt(days + 1, secs);
    NextDayIsSuccessor(days);
    NextWeekday(days);
  }

  lemma NextWeekday(days: int)
    ensures (days + 1 + 4) % 7 == ((days + 4) % 7 + 1) % 7
  {
  }

  // ---------------------------------------------------------------------------------------
  // The printed form
  // ---------------------------------------------------------------------------------------

  const DAYS: seq<string> := ["Sun", "Mon", "Tue", "Wed", "Thu", "Fri", "Sat"]
  const MONTHS: seq<string> :=
    ["Jan", "Feb", "Mar", "Apr", "May", "Jun", "Jul", "Aug", "Sep", "Oct", "Nov", "Dec"]

  function Digit(n: int): char
    requires 0 <= n < 10
  {
    "0123456789"[n]
  }

  function DigitValue(c: char): Option<int> {
    if '0' <= c <= '9' then Some(c as int - '0' as int) else None
  }

  lemma DigitReadsBack(n: int)
    requires 0 <= n < 10
    ensures DigitValue(Digit(n)) == Some(n)
  {
    var digits := "0123456789";
    assert digits[n] as int == 48 + n;
  }

  /** `{:02}` of a number below one hundred. */
  function TwoDigits(n: int): string
    requires 0 <= n < 100
  {
    [Digit(n / 10), Digit(n % 10)]
  }

  function Decimal(n: nat): string {
    if n < 10 then [Digit(n)] else Decimal(n / 10) + [Digit(n % 10)]
  }

  function Signed(n: int): string {
    if n < 0 then "-" + Decimal(-n) else Decimal(n)
  }

  function Assemble(weekday: string, day: string, month: string, year: string,
                    hour: string, minute: string, second: string): string
  {
    weekday + ", " + day + " " + month + " " + year + " " + hour + ":" + minute + ":" + second + " GMT"
  }

  function Render(i: Instant): string
    requires Printable(i)
  {
    Assemble(DAYS[i.weekday], TwoDigits(i.date.day), MONTHS[i.date.month - 1], Signed(i.date.year),
             TwoDigits(i.hour), TwoDigits(i.minute), TwoDigits(i.second))
  }

  function HttpDate(epoch: int): string {
    FieldsAreExact(epoch);
    Render(Fields(epoch))
  }

  /** The number a run of digits denotes. */
  function Read(s: string): Option<int> {
    if s == [] then Some(0)
    else
      match (Read(s[..|s| - 1]), DigitValue(s[|s| - 1]))
      case (Some(high), Some(low)) => Some(10 * high + low)
      case _ => None
  }

  function ReadSigned(s: string): Option<int> {
    if s != [] && s[0] == '-' then
      match Read(s[1..])
      case Some(n) => Some(-n)
      case None => None
    else Read(s)
  }

  /** The weekday a name of the grammar stands for, and 7 for anything else. */
  function DayNumbered(name: string): nat {
    if name == "Sun" then 0
    else if name == "Mon" then 1
    else if name == "Tue" then 2
    else if name == "Wed" then 3
    else if name == "Thu" then 4
    else if name == "Fri" then 5
    else if name == "Sat" then 6
    else 7
  }

  /** The month a name of the grammar stands for, and 0 for anything else. */
  function MonthNumbered(name: string): nat {
    if name == "Jan" then 1
    else if name == "Feb" then 2
    else if name == "Mar" then 3
    else if name == "Apr" then 4
    else if name == "May" then 5
    else if name == "Jun" then 6
    else if name == "Jul" then 7
    else if name == "Aug" then 8
    else if name == "Sep" then 9
    else if name == "Oct" then 10
    else if name == "Nov" then 11
    else if name == "Dec" then 12
    else 0
  }

  /** The fields in the columns of a printed date: the year is whatever stands between the month
      and the time of day. */
  function ReadFields(s: string): Option<Instant> {
    var n := |s|;
    if n < 26 then None
    else
      var day, year := Read(s[5..7]), ReadSigned(s[12..n - 13]);
      var hour, minute, second := Read(s[n - 12..n - 10]), Read(s[n - 9..n - 7]), Read(s[n - 6..n - 4]);
      if day.None? || year.None? || hour.None? || minute.None? || second.None? then None
      else
        var date := Date(year.value, MonthNumbered(s[8..11]), day.value);
        Some(Instant(date, hour.value, minute.value, second.value, DayNumbered(s[..3])))
  }

  /** The second a printed date names. */
  function ReadHttpDate(s: string): Option<int> {
    match ReadFields(s)
    case Some(i) => if ValidInstant(i) then Some(EpochOf(i)) else None
    case None => None
  }

  lemma TwoDigitsReadBack(n: int)
    requires 0 <= n < 100
    ensures Read(TwoDigits(n)) == Some(n)
  {
    DigitReadsBack(n / 10);
    DigitReadsBack(n % 10);
    var s := TwoDigits(n);
    assert s[..1] == [Digit(n / 10)];
    assert s[..1][..0] == [];
  }

  lemma {:induction false} DecimalReadsBack(n: nat)
    ensures Decimal(n) != [] && Decimal(n)[0] != '-'
    ensures Read(Decimal(n)) == Some(n)
  {
    DigitReadsBack(n % 10);
    if n < 10 {
      assert [Digit(n)][..0] == [];
    } else {
      DecimalReadsBack(n / 10);
      assert Decimal(n)[..|Decimal(n)| - 1] == Decimal(n / 10);
    }
  }

  lemma SignedReadsBack(n: int)
    ensures Signed(n) != [] && ReadSigned(Signed(n)) == Some(n)
  {
    if n < 0 {
      DecimalReadsBack(-n);
      MinusReadsBack(Decimal(-n), -n);
    } else {
      DecimalReadsBack(n);
    }
  }

  lemma MinusReadsBack(digits: string, n: int)
    requires Read(digits) == Some(n)
    ensures ReadSigned("-" + digits) == Some(-n)
  {
    assert ("-" + digits)[1..] == digits;
  }

  function Key(name: string): int {
    if |name| == 3 then name[0] as int * 65_536 + name[1] as int * 256 + name[2] as int else 0
  }

  /** A name stands for one weekday only. */
  lemma DayNamesDiffer(name: string)
    ensures DayNumbered(name) == 0 <==> name == "Sun"
    ensures DayNumbered(name) == 1 <==> name == "Mon"
    ensures DayNumbered(name) == 2 <==> name == "Tue"
    ensures DayNumbered(name) == 3 <==> name == "Wed"
    ensures DayNumbered(name) == 4 <==> name == "Thu"
    ensures DayNumbered(name) == 5 <==> name == "Fri"
    ensures DayNumbered(name) == 6 <==> name == "Sat"
  {
    DayKeys();
  }

  lemma MonthNamesDiffer(name: string)
    ensures MonthNumbered(name) == 1 <==> name == "Jan"
    ensures MonthNumbered(name) == 2 <==> name == "Feb"
    ensures MonthNumbered(name) == 3 <==> name == "Mar"
    ensures MonthNumbered(name) == 4 <==> name == "Apr"
    ensures MonthNumbered(name) == 5 <==> name == "May"
    ensures MonthNumbered(name) == 6 <==> name == "Jun"
    ensures MonthNumbered(name) == 7 <==> name == "Jul"
    ensures MonthNumbered(name) == 8 <==> name == "Aug"
    ensures MonthNumbered(name) == 9 <==> name == "Sep"
    ensures MonthNumbered(name) == 10 <==> name == "Oct"
    ensures MonthNumbered(name) == 11 <==> name == "Nov"
    ensures MonthNumbered(name) == 12 <==> name == "Dec"
  {
    MonthKeys();
  }

  lemma DayKeys()
    ensures Key("Sun") == 5_469_550 && Key("Mon") == 5_074_798 && Key("Tue") == 5_535_077
    ensures Key("Wed") == 5_727_588 && Key("Thu") == 5_531_765 && Key("Fri") == 4_616_809
    ensures Key("Sat") == 5_464_436
  {
  }

  lemma MonthKeys()
    ensures Key("Jan") == 4_874_606 && Key("Feb") == 4_613_474 && Key("Mar") == 5_071_218
    ensures Key("Apr") == 4_288_626 && Key("May") == 5_071_225 && Key("Jun") == 4_879_726
    ensures Key("Jul") == 4_879_724 && Key("Aug") == 4_289_895 && Key("Sep") == 5_465_456
    ensures Key("Oct") == 5_202_804 && Key("Nov") == 5_140_342 && Key("Dec") == 4_482_403
  {
  }

  lemma DayNameReadsBack(k: int)
    requires 0 <= k < 7
    ensures |DAYS[k]| == 3 && DayNumbered(DAYS[k]) == k
  {
    DayKeys();
  }

  lemma MonthNameReadsBack(k: int)
    requires 0 <= k < 12
    ensures |MONTHS[k]| == 3 && MonthNumbered(MONTHS[k]) == k + 1
  {
    MonthKeys();
  }

  /** Where the columns of a printed date fall. */
  lemma Columns(weekday: string, day: string, month: string, year: string,
                hour: string, minute: string, second: string)
    requires |weekday| == |month| == 3
    requires |day| == |hour| == |minute| == |second| == 2
    ensures var s := Assemble(weekday, day, month, year, hour, minute, second);
            var n := |s|;
            && n == 25 + |year|
            && s[..3] == weekday && s[3..5] == ", " && s[5..7] == day && s[7] == ' '
            && s[8..11] == month && s[11] == ' ' && s[12..n - 13] == year && s[n - 13] == ' '
            && s[n - 12..n - 10] == hour && s[n - 10] == ':' && s[n - 9..n - 7] == minute
            && s[n - 7] == ':' && s[n - 6..n - 4] == second && s[n - 4..] == " GMT"
  {
  }

  lemma RenderReadsBack(i: Instant)
    requires Printable(i)
    ensures ReadFields(Render(i)) == Some(i)
  {
    DayNameReadsBack(i.weekday);
    MonthNameReadsBack(i.date.month - 1);
    SignedReadsBack(i.date.year);
    TwoDigitsReadBack(i.date.day);
    TwoDigitsReadBack(i.hour);
    TwoDigitsReadBack(i.minute);
    TwoDigitsReadBack(i.second);
    Columns(DAYS[i.weekday], TwoDigits(i.date.day), MONTHS[i.date.month - 1],
            Signed(i.date.year), TwoDigits(i.hour), TwoDigits(i.minute), TwoDigits(i.second));
    ReadColumns(Render(i), i);
  }

  lemma ReadColumns(s: string, i: Instant)
    requires var n := |s|;
             && n >= 26
             && Read(s[5..7]) == Some(i.date.day) && ReadSigned(s[12..n - 13]) == Some(i.date.year)
             && Read(s[n - 12..n - 10]) == Some(i.hour) && Read(s[n - 9..n - 7]) == Some(i.minute)
             && Read(s[n - 6..n - 4]) == Some(i.second)
             && MonthNumbered(s[8..11]) == i.date.month && DayNumbered(s[..3]) == i.weekday
    ensures ReadFields(s) == Some(i)
  {
  }

  /** The printed form loses nothing: reading it back gives the second it was printed for. */
  lemma HttpDateReadsBack(epoch: int)
    ensures ReadHttpDate(HttpDate(epoch)) == Some(epoch)
  {
    FieldsAreExact(epoch);
    RenderReadsBack(Fields(epoch));
  }

  /** The month stands in columns 8 to 10 under its own name. */
  lemma MonthIsNamed(epoch: int)
    ensures var month, name := Fields(epoch).date.month, HttpDate(epoch)[8..11];
            && (name == "Jan" <==> month == 1) && (name == "Feb" <==> month == 2) && (name == "Mar" <==> month == 3)
            && (name == "Apr" <==> month == 4) && (name == "May" <==> month == 5) && (name == "Jun" <==> month == 6)
            && (name == "Jul" <==> month == 7) && (name == "Aug" <==> month == 8) && (name == "Sep" <==> month == 9)
            && (name == "Oct" <==> month == 10) && (name == "Nov" <==> month == 11) && (name == "Dec" <==> month == 12)
  {
    FieldsAreExact(epoch);
    NamesStand(Fields(epoch));
    MonthNamesDiffer(HttpDate(epoch)[8..11]);
  }

  /** The weekday stands in columns 0 to 2 under its own name, counting from Sunday. */
  lemma WeekdayIsNamed(epoch: int)
    ensures |HttpDate(epoch)| >= 26
    ensures var weekday, name := Fields(epoch).weekday, HttpDate(epoch)[..3];
            && (name == "Sun" <==> weekday == 0) && (name == "Mon" <==> weekday == 1)
            && (name == "Tue" <==> weekday == 2) && (name == "Wed" <==> weekday == 3)
            && (name == "Thu" <==> weekday == 4) && (name == "Fri" <==> weekday == 5)
            && (name == "Sat" <==> weekday == 6)
  {
    FieldsAreExact(epoch);
    NamesStand(Fields(epoch));
    DayNamesDiffer(HttpDate(epoch)[..3]);
  }

  lemma NamesStand(i: Instant)
    requires Printable(i)
    ensures |Render(i)| >= 26
    ensures MonthNumbered(Render(i)[8..11]) == i.date.month && DayNumbered(Render(i)[..3]) == i.weekday
  {
    DayNameReadsBack(i.weekday);
    MonthNameReadsBack(i.date.month - 1);
    SignedReadsBack(i.date.year);
    Columns(DAYS[i.weekday], TwoDigits(i.date.day), MONTHS[i.date.month - 1],
            Signed(i.date.year), TwoDigits(i.hour), TwoDigits(i.minute), TwoDigits(i.second));
  }

  // ---------------------------------------------------------------------------------------
  // Conformance to IMF-fixdate
  // ---------------------------------------------------------------------------------------

  predicate AllDigits(s: string) {
    forall c :: c in s ==> '0' <= c <= '9'
  }

  /** The IMF-fixdate grammar of section 5.6.7 of RFC 9110: fixed columns, four-digit year. */
  predicate ImfFixdate(s: string) {
    && |s| == 29
    && DayNumbered(s[..3]) < 7 && s[3..5] == ", "
    && AllDigits(s[5..7]) && s[7] == ' '
    && MonthNumbered(s[8..11]) > 0 && s[11] == ' '
    && AllDigits(s[12..16]) && s[16] == ' '
    && AllDigits(s[17..19]) && s[19] == ':'
    && AllDigits(s[20..22]) && s[22] == ':'
    && AllDigits(s[23..25]) && s[25..] == " GMT"
  }

  lemma {:induction false} DecimalLength(n: nat)
    ensures AllDigits(Decimal(n))
    ensures |Decimal(n)| >= 1
    ensures |Decimal(n)| == 4 <==> 1_000 <= n <= 9_999
    ensures |Decimal(n)| == 3 <==> 100 <= n <= 999
    ensures |Decimal(n)| == 2 <==> 10 <= n <= 99
    ensures |Decimal(n)| == 1 <==> n <= 9
  {
    DigitReadsBack(n % 10);
    if n >= 10 {
      DecimalLength(n / 10);
    }
  }

  /** A date counts past the start of a year exactly when it is in that year or later. */
  lemma YearOfDay(d: Date, year: int)
    requires ValidDate(d)
    ensures d.year >= year <==> DayNumber(d) >= DaysBeforeYear(year)
  {
    DayOfYear(d);
    YearsAddUp(d.year);
    if d.year >= year {
      YearStartsAreOrdered(year, d.year);
    } else {
      YearStartsAreOrdered(d.year + 1, year);
    }
  }

  lemma FixdateYears(i: Instant)
    requires Printable(i)
    ensures ImfFixdate(Render(i)) <==> 1_000 <= i.date.year <= 9_999
  {
    DayNameReadsBack(i.weekday);
    MonthNameReadsBack(i.date.month - 1);
    TwoDigitsAreDigits(i.date.day);
    TwoDigitsAreDigits(i.hour);
    TwoDigitsAreDigits(i.minute);
    TwoDigitsAreDigits(i.second);
    FourDigitYear(i.date.year);
    var s, year := Render(i), Signed(i.date.year);
    Columns(DAYS[i.weekday], TwoDigits(i.date.day), MONTHS[i.date.month - 1],
            year, TwoDigits(i.hour), TwoDigits(i.minute), TwoDigits(i.second));
    FixdateColumns(s, year);
  }

  lemma FixdateColumns(s: string, year: string)
    requires var n := |s|;
             && n == 25 + |year|
             && DayNumbered(s[..3]) < 7 && s[3..5] == ", " && AllDigits(s[5..7]) && s[7] == ' '
             && MonthNumbered(s[8..11]) > 0 && s[11] == ' ' && s[12..n - 13] == year && s[n - 13] == ' '
             && AllDigits(s[n - 12..n - 10]) && s[n - 10] == ':' && AllDigits(s[n - 9..n - 7])
             && s[n - 7] == ':' && AllDigits(s[n - 6..n - 4]) && s[n - 4..] == " GMT"
    ensures ImfFixdate(s) <==> |year| == 4 && AllDigits(year)
  {
  }

  lemma FourDigitYear(year: int)
    ensures |Signed(year)| == 4 && AllDigits(Signed(year)) <==> 1_000 <= year <= 9_999
  {
    if year < 0 {
      assert Signed(year)[0] == '-' && '-' in Signed(year);
    } else {
      DecimalLength(year);
    }
  }

  /** The year is printed without padding, so the header is an IMF-fixdate exactly for the
      seconds of the years 1000 to 9999. */
  lemma FixdateExactly(epoch: int)
    ensures ImfFixdate(HttpDate(epoch)) <==> -30_610_224_000 <= epoch <= 253_402_300_799
  {
    FieldsAreExact(epoch);
    FixdateYears(Fields(epoch));
    var date := Fields(epoch).date;
    CivilIsExact(epoch / 86_400);
    YearOfDay(date, 1_000);
    YearOfDay(date, 10_000);
    CountIsByFormula(1_000);
    CountIsByFormula(10_000);
    assert DaysBeforeYear(1_000) == -354_285 && DaysBeforeYear(10_000) == 2_932_897;
  }

  lemma TwoDigitsAreDigits(n: int)
    requires 0 <= n < 100
    ensures AllDigits(TwoDigits(n))
  {
    DigitReadsBack(n / 10);
    DigitReadsBack(n % 10);
  }
}
