/**
 * Civil time: the integer-only decomposition of cron.rs and clock.rs, and the Gregorian
 * calendar it is measured against.
 */
module Civil {
  import opened Basics

  datatype Date = Date(year: int, month: int, day: int)

  // ---------- the Gregorian calendar ----------

  predicate IsLeap(y: int) { y % 4 == 0 && (y % 100 != 0 || y % 400 == 0) }

  function LeapDay(y: int): int { if IsLeap(y) then 1 else 0 }

  function DaysInMonth(y: int, m: int): int {
    if m == 2 then 28 + LeapDay(y) else if m == 4 || m == 6 || m == 9 || m == 11 then 30 else 31
  }

  predicate ValidDate(d: Date) { 1 <= d.month <= 12 && 1 <= d.day <= DaysInMonth(d.year, d.month) }

  /** The next calendar day. */
  function Tomorrow(d: Date): Date {
    if d.day < DaysInMonth(d.year, d.month) then d.(day := d.day + 1)
    else if d.month < 12 then Date(d.year, d.month + 1, 1)
    else Date(d.year + 1, 1, 1)
  }

  function DaysBeforeMonth(y: int, m: int): int
    requires 1 <= m <= 13
    decreases m
  {
    if m == 1 then 0 else DaysBeforeMonth(y, m - 1) + DaysInMonth(y, m - 1)
  }

  /** Days from 0001-01-01 to the first of January of `y`. */
  function DaysBeforeYear(y: int): int {
    365 * (y - 1) + (y - 1) / 4 - (y - 1) / 100 + (y - 1) / 400
  }

  /** Days since 1970-01-01, counted on the calendar. */
  function DayNumber(d: Date): int
    requires 1 <= d.month <= 12
  {
    DaysBeforeYear(d.year) + DaysBeforeMonth(d.year, d.month) + d.day - 1 - DaysBeforeYear(1970)
  }

  lemma YearLength(y: int)
    ensures DaysBeforeYear(y + 1) == DaysBeforeYear(y) + 365 + LeapDay(y)
  {
    assert (y - 1) / 4 == y / 4 - (if y % 4 == 0 then 1 else 0);
    assert (y - 1) / 100 == y / 100 - (if y % 100 == 0 then 1 else 0);
    assert (y - 1) / 400 == y / 400 - (if y % 400 == 0 then 1 else 0);
    assert y % 400 == 0 ==> y % 100 == 0;
    assert y % 100 == 0 ==> y % 4 == 0;
  }

  /** Twelve months fill the year; the running totals, spelled out. */
  lemma MonthTable(y: int)
    ensures DaysBeforeMonth(y, 1) == 0 && DaysBeforeMonth(y, 2) == 31
    ensures var l := 59 + LeapDay(y);
            && DaysBeforeMonth(y, 3) == l && DaysBeforeMonth(y, 4) == l + 31
            && DaysBeforeMonth(y, 5) == l + 61 && DaysBeforeMonth(y, 6) == l + 92
            && DaysBeforeMonth(y, 7) == l + 122 && DaysBeforeMonth(y, 8) == l + 153
            && DaysBeforeMonth(y, 9) == l + 184 && DaysBeforeMonth(y, 10) == l + 214
            && DaysBeforeMonth(y, 11) == l + 245 && DaysBeforeMonth(y, 12) == l + 275
            && DaysBeforeMonth(y, 13) == l + 306
  {
    assert DaysBeforeMonth(y, 3) == 59 + LeapDay(y);
    assert DaysBeforeMonth(y, 5) == DaysBeforeMonth(y, 3) + 61;
    assert DaysBeforeMonth(y, 7) == DaysBeforeMonth(y, 5) + 61;
    assert DaysBeforeMonth(y, 9) == DaysBeforeMonth(y, 7) + 62;
    assert DaysBeforeMonth(y, 11) == DaysBeforeMonth(y, 9) + 61;
  }

  lemma {:induction false} YearsGrow(a: int, b: int)
    requires a < b
    ensures DaysBeforeYear(a) + 365 + LeapDay(a) <= DaysBeforeYear(b)
    decreases b - a
  {
    YearLength(b - 1);
    if a + 1 < b { YearsGrow(a, b - 1); } else { YearLength(a); }
  }

  lemma {:induction false} MonthsGrow(y: int, a: int, b: int)
    requires 1 <= a < b <= 13
    ensures DaysBeforeMonth(y, a) + DaysInMonth(y, a) <= DaysBeforeMonth(y, b)
    decreases b
  {
    if a + 1 < b { MonthsGrow(y, a, b - 1); }
  }

  /** Earlier in the calendar. */
  predicate Before(a: Date, b: Date) {
    || a.year < b.year
    || (a.year == b.year && a.month < b.month)
    || (a.year == b.year && a.month == b.month && a.day < b.day)
  }

  /** Day numbers follow calendar order. */
  lemma DayNumberGrows(a: Date, b: Date)
    requires ValidDate(a) && ValidDate(b) && Before(a, b)
    ensures DayNumber(a) < DayNumber(b)
  {
    if a.year < b.year {
      YearsGrow(a.year, b.year);
      if a.month < 13 { MonthsGrow(a.year, a.month, 13); }
      MonthTable(a.year);
      if b.month > 1 { MonthsGrow(b.year, 1, b.month); }
    } else if a.month < b.month {
      MonthsGrow(a.year, a.month, b.month);
    }
  }

  lemma TomorrowIsNext(d: Date)
    requires ValidDate(d)
    ensures ValidDate(Tomorrow(d)) && DayNumber(Tomorrow(d)) == DayNumber(d) + 1
  {
    if d.day == DaysInMonth(d.year, d.month) && d.month == 12 {
      MonthTable(d.year);
      YearLength(d.year);
    }
  }

  // ---------- the decomposition ----------

  /** Day of the 400-year era, with years starting on 1 March. */
  function YearOfEra(doe: int): int { (doe - doe / 1460 + doe / 36524 - doe / 146096) / 365 }

  function EraYearStart(yoe: int): int { 365 * yoe + yoe / 4 - yoe / 100 }

  function MonthStart(mp: int): int { (153 * mp + 2) / 5 }

  /** The date `doy` days into the March-based year `y`. */
  function FromYearDay(y: int, doy: int): Date {
    var mp := (5 * doy + 2) / 153;
    var day := doy - MonthStart(mp) + 1;
    var month := if mp < 10 then mp + 3 else mp - 9;
    Date(if month <= 2 then y + 1 else y, month, day)
  }

  /** Days since 1970-01-01 to a date, as cron.rs computes it. */
  function CivilFromDays(days: int): Date {
    var z := days + 719_468;
    var era := z / 146_097;
    var doe := z - era * 146_097;
    var yoe := YearOfEra(doe);
    FromYearDay(yoe + era * 400, doe - EraYearStart(yoe))
  }

  /** Centuries, four-year cycles, years and days make up every day of the era exactly. */
  lemma SplitEra(doe: int) returns (c: int, q: int, a: int, doy: int)
    requires 0 <= doe < 146_097
    ensures 0 <= c <= 3 && 0 <= q <= 24 && 0 <= a <= 3 && 0 <= doy <= 365
    ensures doe == 36524 * c + 1461 * q + 365 * a + doy
    ensures doy == 365 ==> a == 3 && (q < 24 || c == 3)
  {
    c := Min(doe / 36524, 3);
    var r := doe - 36524 * c;
    q := r / 1461;
    var r2 := r - 1461 * q;
    a := Min(r2 / 365, 3);
    doy := r2 - 365 * a;
  }

  lemma YearFormula(doe: int, c: int, q: int, a: int, doy: int)
    requires 0 <= doe < 146_097 && 0 <= c <= 3 && 0 <= q <= 24 && 0 <= a <= 3 && 0 <= doy <= 365
    requires doe == 36524 * c + 1461 * q + 365 * a + doy
    requires doy == 365 ==> a == 3 && (q < 24 || c == 3)
    ensures YearOfEra(doe) == 100 * c + 4 * q + a
  {
    var e := if 24 * c + q + 365 * a + doy >= 1460 then 1 else 0;
    Quotient(doe, 1460, 25 * c + q + e);
    var last := if doe == 146_096 then 1 else 0;
    Quotient(doe, 36524, c + last);
    Quotient(doe, 146_096, last);
    Quotient(doe - doe / 1460 + doe / 36524 - doe / 146096, 365, 100 * c + 4 * q + a);
  }

  /** The year-of-era formula picks the year whose span contains the day. */
  lemma YearOfEraIsRight(doe: int)
    requires 0 <= doe < 146_097
    ensures var yoe := YearOfEra(doe);
            && 0 <= yoe < 400
            && 0 <= doe - EraYearStart(yoe) <= 364 + LeapDay(yoe + 1)
  {
    hide YearOfEra, EraYearStart;
    var c, q, a, doy := SplitEra(doe);
    YearFormula(doe, c, q, a, doy);
    EraYear(c, q, a);
    if doy == 365 { LeapInEra(c, q); }
  }

  lemma EraYear(c: int, q: int, a: int)
    requires 0 <= c <= 3 && 0 <= q <= 24 && 0 <= a <= 3
    ensures EraYearStart(100 * c + 4 * q + a) == 36524 * c + 1461 * q + 365 * a
  {
    var yoe := 100 * c + 4 * q + a;
    Quotient(yoe, 4, 25 * c + q);
    Quotient(yoe, 100, c);
  }

  lemma LeapInEra(c: int, q: int)
    requires 0 <= c <= 3 && 0 <= q <= 24 && (q < 24 || c == 3)
    ensures IsLeap(100 * c + 4 * q + 4)
  {
    var y := 100 * c + 4 * q + 4;
    assert y == 4 * (25 * c + q + 1);
    if q < 24 { Quotient(y, 100, c); }
  }

  /** A day of the March-based year lies in exactly one month of it. */
  lemma MonthOfYearDay(doy: int)
    requires 0 <= doy <= 365
    ensures var mp := (5 * doy + 2) / 153;
            0 <= mp <= 11 && MonthStart(mp) <= doy < MonthStart(mp + 1)
  {
  }

  lemma MonthStartTable()
    ensures MonthStart(0) == 0 && MonthStart(1) == 31 && MonthStart(2) == 61 && MonthStart(3) == 92
    ensures MonthStart(4) == 122 && MonthStart(5) == 153 && MonthStart(6) == 184 && MonthStart(7) == 214
    ensures MonthStart(8) == 245 && MonthStart(9) == 275 && MonthStart(10) == 306 && MonthStart(11) == 337
    ensures MonthStart(12) == 367
  {
  }

  lemma YearDayIsRight(y: int, doy: int)
    requires 0 <= doy <= 364 + LeapDay(y + 1)
    ensures ValidDate(FromYearDay(y, doy))
    ensures DayNumber(FromYearDay(y, doy)) == DaysBeforeYear(y + 1) + doy - 719_468
  {
    MonthOfYearDay(doy);
    MonthStartTable();
    MonthTable(y);
    MonthTable(y + 1);
    YearLength(y);
    assert DaysBeforeYear(1970) == 719_162;
  }

  /** The decomposition yields the one valid date with that day number, for every integer. */
  lemma CivilIsRight(days: int)
    ensures ValidDate(CivilFromDays(days)) && DayNumber(CivilFromDays(days)) == days
  {
    hide FromYearDay, DayNumber, DaysBeforeYear, EraYearStart, YearOfEra, LeapDay, ValidDate;
    var z := days + 719_468;
    var era := z / 146_097;
    var doe := z - era * 146_097;
    YearOfEraIsRight(doe);
    var yoe := YearOfEra(doe);
    var y := yoe + era * 400;
    EraShift(yoe, era);
    YearDayIsRight(y, doe - EraYearStart(yoe));
  }

  /** The calendar repeats every 400 years of 146097 days. */
  lemma EraShift(yoe: int, era: int)
    requires 0 <= yoe < 400
    ensures DaysBeforeYear(yoe + era * 400 + 1) == EraYearStart(yoe) + era * 146_097
    ensures LeapDay(yoe + era * 400 + 1) == LeapDay(yoe + 1)
  {
    var y := yoe + era * 400;
    Quotient(y, 4, yoe / 4 + era * 100);
    Quotient(y, 100, yoe / 100 + era * 4);
    Quotient(y, 400, era);
    var w := yoe + 1;
    assert (y + 1) % 4 == w % 4 by { Quotient(y + 1, 4, w / 4 + era * 100); }
    assert (y + 1) % 100 == w % 100 by { Quotient(y + 1, 100, w / 100 + era * 4); }
    assert (y + 1) % 400 == w % 400 by { Quotient(y + 1, 400, w / 400 + era); }
  }

  /** The decomposition inverts calendar counting: every valid date comes back. */
  lemma CivilInverts(d: Date)
    requires ValidDate(d)
    ensures CivilFromDays(DayNumber(d)) == d
  {
    hide CivilFromDays, DayNumber, DaysInMonth;
    CivilIsRight(DayNumber(d));
    var e := CivilFromDays(DayNumber(d));
    if Before(d, e) { DayNumberGrows(d, e); }
    if Before(e, d) { DayNumberGrows(e, d); }
  }

  /** One day later is the calendar's next date and the next weekday. */
  lemma CivilAdvances(days: int)
    ensures CivilFromDays(days + 1) == Tomorrow(CivilFromDays(days))
    ensures Weekday(days + 1) == (Weekday(days) + 1) % 7 && 0 <= Weekday(days) < 7
  {
    hide CivilFromDays, DayNumber, Tomorrow, DaysInMonth;
    CivilIsRight(days);
    TomorrowIsNext(CivilFromDays(days));
    CivilInverts(Tomorrow(CivilFromDays(days)));
  }

  // ---------- instants ----------

  datatype Civil = Civil(date: Date, hour: int, minute: int, dow: int)

  /** 0 is Sunday; 1970-01-01 was a Thursday. */
  function Weekday(days: int): int { (days % 7 + 4) % 7 }

  /** `Civil::from_unix_secs` of cron.rs. */
  function FromUnixSecs(secs: int): Civil {
    var days := secs / 86_400;
    var rem := secs % 86_400;
    Civil(CivilFromDays(days), rem / 3600, rem % 3600 / 60, Weekday(days))
  }

  /** Rust's `/` on signed integers. */
  function TruncDiv(a: int, b: int): int
    requires b > 0
  {
    if a >= 0 then a / b else -((-a) / b)
  }

  /** `civil_from_unix_secs` of clock.rs: date, hour, minute, second. */
  function ClockFromUnixSecs(secs: nat): (Date, int, int, int) {
    var days := secs / 86_400;
    var rem := secs % 86_400;
    var z := days + 719_468;
    var era := TruncDiv(if z >= 0 then z else z - 146_096, 146_097);
    var doe := z - era * 146_097;
    var yoe := YearOfEra(doe);
    (FromYearDay(yoe + era * 400, doe - EraYearStart(yoe)), rem / 3600, rem % 3600 / 60, rem % 60)
  }

  /** Hours, minutes and seconds recombine to the second of the day. */
  lemma TimeOfDay(secs: int)
    ensures var rem := secs % 86_400;
            && 0 <= rem / 3600 < 24 && 0 <= rem % 3600 / 60 < 60
            && secs == secs / 86_400 * 86_400 + rem / 3600 * 3600 + rem % 3600 / 60 * 60 + secs % 60
            && secs % 60 == rem % 60
  {
    var days, rem := secs / 86_400, secs % 86_400;
    var h := rem / 3600;
    var r := rem % 3600;
    var m, s := r / 60, r % 60;
    assert secs == 60 * (1440 * days + 60 * h + m) + s;
    Quotient(secs, 60, 1440 * days + 60 * h + m);
    Quotient(rem, 60, 60 * h + m);
  }

  /** An instant is its calendar day and time of day, and the weekday advances with the days. */
  lemma InstantIsRight(secs: int)
    ensures var c := FromUnixSecs(secs);
            && ValidDate(c.date) && 0 <= c.hour < 24 && 0 <= c.minute < 60
            && secs == DayNumber(c.date) * 86_400 + c.hour * 3600 + c.minute * 60 + secs % 60
            && 0 <= c.dow < 7 && FromUnixSecs(secs + 86_400).dow == (c.dow + 1) % 7
  {
    hide CivilFromDays, DayNumber, ValidDate;
    CivilIsRight(secs / 86_400);
    TimeOfDay(secs);
    NextDay(secs);
  }

  lemma NextDay(secs: int)
    ensures Weekday((secs + 86_400) / 86_400) == (Weekday(secs / 86_400) + 1) % 7
  {
    Quotient(secs + 86_400, 86_400, secs / 86_400 + 1);
  }

  /** The two copies of the decomposition agree from the epoch on. */
  lemma ClockAgrees(secs: nat)
    ensures var c := FromUnixSecs(secs);
            ClockFromUnixSecs(secs) == (c.date, c.hour, c.minute, secs % 60)
  {
    hide FromYearDay, YearOfEra, EraYearStart;
    TimeOfDay(secs);
  }
}
