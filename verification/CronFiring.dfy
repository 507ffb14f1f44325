/**
 * How soon a schedule fires. The search window of `next_after` is said to be wide enough
 * for every schedule that ever fires; this proves for which schedules it really is.
 */
module CronFiring {
  import opened Basics
  import opened CronField
  import opened Civil
  import opened CronSchedule

  /** Length of a month in a year without a leap day. */
  function CommonLength(m: int): int { DaysInMonth(2001, m) }

  /** Some (month, day) that every year has is permitted. */
  ghost predicate HasCommonDate(s: Schedule) {
    exists m, d :: m in s.month && d in s.dom && 1 <= m <= 12 && 1 <= d <= CommonLength(m)
  }

  /** The day part of a match. */
  predicate MatchesDay(s: Schedule, day: int) {
    CivilFromDays(day).month in s.month && DayRule(s, CivilFromDays(day).day, Weekday(day))
  }

  /** A minute splits into its day and its minute of the day. */
  lemma MinuteSplits(s: Schedule, day: int, hour: int, minute: int)
    requires 0 <= hour < 24 && 0 <= minute < 60
    ensures MatchesMinute(s, day * 1440 + hour * 60 + minute) <==>
            hour in s.hour && minute in s.minute && MatchesDay(s, day)
  {
    hide CivilFromDays, Weekday, DayRule;
    var secs := (day * 1440 + hour * 60 + minute) * 60;
    Quotient(secs, 86_400, day);
    assert secs % 86_400 == hour * 3600 + minute * 60;
    Quotient(hour * 3600 + minute * 60, 3600, hour);
    Quotient(minute * 60, 60, minute);
  }

  // ---------- a matching day within a year ----------

  /** The next day after `d0` that carries a given common date, and how far off it can be. */
  lemma NextDate(d0: int, m: int, d: int) returns (n: int)
    requires 1 <= m <= 12 && 1 <= d <= CommonLength(m)
    ensures CivilFromDays(n).month == m && CivilFromDays(n).day == d
    ensures d0 < n <= d0 + 366
    ensures n == d0 + 366 ==> CivilFromDays(d0).month == m && CivilFromDays(d0).day == d
    ensures exists y :: n == DayNumber(Date(y, m, d))
  {
    hide CivilFromDays, DayNumber;
    var c := CivilFromDays(d0);
    CivilIsRight(d0);
    var here, next := Date(c.year, m, d), Date(c.year + 1, m, d);
    assert ValidDate(here) && ValidDate(next) by { CommonFits(c.year, m, d); CommonFits(c.year + 1, m, d); }
    CivilInverts(here);
    CivilInverts(next);
    if Before(c, here) {
      n := DayNumber(here);
      DayNumberGrows(c, here);
      SameYear(c, here);
    } else {
      n := DayNumber(next);
      DayNumberGrows(c, next);
      if here != c { DayNumberGrows(here, c); }
      YearApart(c.year, m, d);
    }
  }

  lemma CommonFits(y: int, m: int, d: int)
    requires 1 <= m <= 12 && 1 <= d <= CommonLength(m)
    ensures ValidDate(Date(y, m, d))
  {
  }

  lemma SameYear(a: Date, b: Date)
    requires ValidDate(a) && ValidDate(b) && a.year == b.year
    ensures DayNumber(b) - DayNumber(a) <= 365
  {
    MonthTable(a.year);
    if b.month < 13 { MonthsGrow(b.year, b.month, 13); }
    if a.month > 1 { MonthsGrow(a.year, 1, a.month); }
  }

  /** Two years' running totals differ by their leap days, from March on. */
  lemma {:induction false} MonthShift(y: int, z: int, m: int)
    requires 1 <= m <= 12
    ensures DaysBeforeMonth(z, m) - DaysBeforeMonth(y, m) == if m >= 3 then LeapDay(z) - LeapDay(y) else 0
    decreases m
  {
    hide IsLeap;
    if m > 1 { MonthShift(y, z, m - 1); }
  }

  /** The same date one year on is 365 or 366 days later. */
  lemma YearApart(y: int, m: int, d: int)
    requires 1 <= m <= 12
    ensures 365 <= DayNumber(Date(y + 1, m, d)) - DayNumber(Date(y, m, d)) <= 366
  {
    hide DaysBeforeYear, DaysBeforeMonth, IsLeap;
    YearLength(y);
    MonthShift(y, y + 1, m);
    NotBothLeap(y);
  }

  lemma NotBothLeap(y: int)
    ensures !(IsLeap(y) && IsLeap(y + 1))
  {
  }

  /** The first 28 days of a month are consecutive day numbers. */
  lemma WithinMonth(y: int, m: int, k: int)
    requires 1 <= m <= 12 && 0 <= k < 28
    ensures CivilFromDays(DayNumber(Date(y, m, 1)) + k) == Date(y, m, 1 + k)
  {
    CivilInverts(Date(y, m, 1 + k));
  }

  /** Any weekday occurs among seven consecutive days. */
  lemma WeekdayWithin(n: int, w: int) returns (k: int)
    requires 0 <= w < 7
    ensures 0 <= k < 7 && Weekday(n + k) == w
  {
    var a, b := n / 7, n % 7;
    var x := w + 10 - b;
    var q := if x < 7 then 0 else if x < 14 then 1 else 2;
    k := x - 7 * q;
    var shift := if w >= 4 then 2 else 1;
    assert n + k == 7 * (a - q + shift) + (w + 10 - 7 * shift);
    Quotient(n + k, 7, a - q + shift);
  }

  /** A weekday in a given month falls within the 365 days after any day. */
  lemma NextWeekdayInMonth(d0: int, m: int, w: int) returns (n: int)
    requires 1 <= m <= 12 && 0 <= w < 7
    ensures d0 < n <= d0 + 365 && CivilFromDays(n).month == m && Weekday(n) == w
  {
    hide CivilFromDays, DayNumber, Weekday, IsLeap;
    var first := NextDate(d0, m, 1);
    var y :| first == DayNumber(Date(y, m, 1));
    if first <= d0 + 359 {
      var k := WeekdayWithin(first, w);
      WithinMonth(y, m, k);
      n := first + k;
    } else {
      YearApart(y - 1, m, 1);
      var before := DayNumber(Date(y - 1, m, 1));
      var k := WeekdayWithin(before + 7, w);
      WithinMonth(y - 1, m, 7 + k);
      n := before + 7 + k;
    }
  }

  lemma MatchingDay(s: Schedule, d0: int) returns (n: int)
    requires WellFormed(s) && (s.dowRestricted || HasCommonDate(s))
    ensures d0 < n <= d0 + 366 && MatchesDay(s, n)
    ensures n == d0 + 366 ==> MatchesDay(s, d0)
  {
    hide CivilFromDays, DayNumber, Weekday;
    if s.dowRestricted {
      var m, w := s.month[0], s.dow[0];
      assert m in s.month && w in s.dow;
      n := NextWeekdayInMonth(d0, m, w);
    } else {
      var m, d :| m in s.month && d in s.dom && 1 <= m <= 12 && 1 <= d <= CommonLength(m);
      n := NextDate(d0, m, d);
    }
  }

  // ---------- the firing bound ----------

  /**
   * A schedule that restricts the weekday, or permits some date that every year has, fires
   * within 366 days of any instant.
   */
  lemma FiringBound(s: Schedule, t: nat)
    requires WellFormed(s) && (s.dowRestricted || HasCommonDate(s))
    ensures NextTick(s, t).Some? && t < NextTick(s, t).value * 60 <= t + 366 * 86_400
  {
    hide MatchesMinute, MatchesDay, HasCommonDate;
    var d0 := t / 86_400;
    var n := MatchingDay(s, d0);
    var h, mi := s.hour[0], s.minute[0];
    assert h in s.hour && mi in s.minute;
    MinuteSplits(s, n, h, mi);
    MinuteSplits(s, d0, h, mi);
    var candidate := n * 1440 + h * 60 + mi;
    var today := d0 * 1440 + h * 60 + mi;
    var start := t / 60 + 1;
    var hit := if n == d0 + 366 && today >= start then today else candidate;
    assert start <= hit && hit * 60 <= t + 366 * 86_400 && MatchesMinute(s, hit);
  }

  // ---------- the window is too short for leap days ----------

  const LAST_LEAP_BEFORE_2100: int := DayNumber(Date(2096, 3, 1))

  /** From 1 March 2096 the whole search window holds no 29 February. */
  lemma NoLeapDayAhead(day: int)
    requires LAST_LEAP_BEFORE_2100 <= day <= LAST_LEAP_BEFORE_2100 + 1464
    ensures var c := CivilFromDays(day); 1 <= c.month <= 12 && 1 <= c.day <= CommonLength(c.month)
  {
    hide CivilFromDays;
    CivilIsRight(day);
    var c := CivilFromDays(day);
    if c.month == 2 && c.day == 29 {
      assert IsLeap(c.year);
      var start, end := Date(2096, 3, 1), Date(2100, 3, 6);
      assert DayNumber(end) > DayNumber(start) + 1464 by {
        MonthTable(2096);
        MonthTable(2100);
      }
      if Before(c, start) { DayNumberGrows(c, start); }
      if Before(end, c) { DayNumberGrows(end, c); }
      assert false;
    }
  }

  lemma LeapOnlyMisses(s: Schedule)
    requires WellFormed(s) && !s.dowRestricted && !HasCommonDate(s)
    ensures NextTick(s, LAST_LEAP_BEFORE_2100 * 86_400) == None
  {
    var t := LAST_LEAP_BEFORE_2100 * 86_400;
    var start := t / 60 + 1;
    forall m | start <= m < start + SEARCH_BOUND_MINUTES ensures !MatchesMinute(s, m) {
      NoMatchWithoutCommonDate(s, m);
    }
  }

  lemma NoMatchWithoutCommonDate(s: Schedule, m: int)
    requires WellFormed(s) && !s.dowRestricted && !HasCommonDate(s)
    requires LAST_LEAP_BEFORE_2100 * 1440 <= m <= LAST_LEAP_BEFORE_2100 * 1440 + 1464 * 1440
    ensures !MatchesMinute(s, m)
  {
    hide CivilFromDays, DayNumber, Weekday;
    var day, rest := m / 1440, m % 1440;
    MinuteSplits(s, day, rest / 60, rest % 60);
    NoLeapDayAhead(day);
    var c := CivilFromDays(day);
    assert !s.domRestricted ==> c.day in s.dom;
    if c.month in s.month && c.day in s.dom { assert false; }
  }

  /**
   * The search window suffices at every instant exactly for the schedules that restrict the
   * weekday or permit a date every year has. For the others the sentinel does not mean "never".
   */
  lemma WindowSuffices(s: Schedule)
    requires WellFormed(s)
    ensures (forall t: nat :: NextTick(s, t).Some?) <==> s.dowRestricted || HasCommonDate(s)
  {
    hide NextTick, WellFormed, HasCommonDate;
    if s.dowRestricted || HasCommonDate(s) {
      forall t: nat ensures NextTick(s, t).Some? { FiringBound(s, t); }
    } else {
      LeapOnlyMisses(s);
      assert LAST_LEAP_BEFORE_2100 >= 0;
    }
  }

  /** `0 0 29 2 *`: eight years after the sentinel is returned, it would have fired. */
  lemma LeapDayScheduleStillFires()
    ensures var s := Schedule([0], [0], [29], [2], [0, 1, 2, 3, 4, 5, 6], true, false);
            && WellFormed(s)
            && NextTick(s, LAST_LEAP_BEFORE_2100 * 86_400) == None
            && MatchesMinute(s, DayNumber(Date(2104, 2, 29)) * 1440)
  {
    hide CivilFromDays, NextTick, Weekday, MatchesMinute, MatchesDay, DayNumber, HasCommonDate, WellFormed;
    var s := Schedule([0], [0], [29], [2], [0, 1, 2, 3, 4, 5, 6], true, false);
    LeapDayIsWellFormed(s);
    LeapDayHasNoCommonDate(s);
    LeapOnlyMisses(s);
    LeapDayMatches(s);
  }

  lemma LeapDayIsWellFormed(s: Schedule)
    requires s == Schedule([0], [0], [29], [2], [0, 1, 2, 3, 4, 5, 6], true, false)
    ensures WellFormed(s)
  {
    hide FieldOk;
    OnlyValue(0, 0, 59);
    OnlyValue(0, 0, 23);
    OnlyValue(29, 1, 31);
    OnlyValue(2, 1, 12);
    EveryWeekday();
  }

  lemma OnlyValue(v: int, min: int, max: int)
    requires min <= v <= max
    ensures FieldOk([v], min, max)
  {
  }

  lemma EveryWeekday()
    ensures FieldOk([0, 1, 2, 3, 4, 5, 6], 0, 6) && forall v :: 0 <= v <= 6 ==> v in [0, 1, 2, 3, 4, 5, 6]
  {
    var week := [0, 1, 2, 3, 4, 5, 6];
    assert forall i :: 0 <= i < |week| ==> week[i] == i;
  }

  lemma LeapDayHasNoCommonDate(s: Schedule)
    requires s.dom == [29] && s.month == [2]
    ensures !HasCommonDate(s)
  {
  }

  lemma LeapDayMatches(s: Schedule)
    requires s.minute == [0] && s.hour == [0] && s.dom == [29] && s.month == [2] && s.domRestricted && !s.dowRestricted
    ensures MatchesMinute(s, DayNumber(Date(2104, 2, 29)) * 1440)
  {
    hide CivilFromDays, Weekday, MatchesMinute, DayNumber;
    CivilInverts(Date(2104, 2, 29));
    MinuteSplits(s, DayNumber(Date(2104, 2, 29)), 0, 0);
  }

  // ---------- exactly which instants get a wrong sentinel ----------

  /** No weekday is restricted and no date that every year has is permitted. */
  ghost predicate LeapOnly(s: Schedule) { WellFormed(s) && !s.dowRestricted && !HasCommonDate(s) }

  predicate PermitsLeapDay(s: Schedule) { 2 in s.month && 29 in s.dom }

  /** Minute `m` is a permitted minute of the 29 February of a leap year. */
  ghost predicate LeapTick(s: Schedule, m: int) {
    exists y, h, mi :: IsLeapTick(s, m, y, h, mi)
  }

  predicate IsLeapTick(s: Schedule, m: int, y: int, h: int, mi: int) {
    IsLeap(y) && h in s.hour && mi in s.minute && m == DayNumber(Date(y, 2, 29)) * 1440 + h * 60 + mi
  }

  /** Such a schedule matches on 29 February or never. */
  lemma LeapOnlyMatches(s: Schedule, m: int)
    requires LeapOnly(s)
    ensures MatchesMinute(s, m) <==> PermitsLeapDay(s) && LeapTick(s, m)
  {
    hide CivilFromDays, DayNumber, Weekday, MatchesMinute, IsLeap, HasCommonDate, WellFormed;
    var day, rest := m / 1440, m % 1440;
    var h, mi := rest / 60, rest % 60;
    MinuteSplits(s, day, h, mi);
    if MatchesMinute(s, m) {
      LeapOnlyDay(s, day);
      assert IsLeapTick(s, m, CivilFromDays(day).year, h, mi);
    }
    if PermitsLeapDay(s) && LeapTick(s, m) {
      var y, h', mi' :| IsLeapTick(s, m, y, h', mi');
      LeapTickMatches(s, m, y, h', mi');
    }
  }

  lemma LeapOnlyDay(s: Schedule, day: int)
    requires LeapOnly(s) && MatchesDay(s, day)
    ensures PermitsLeapDay(s)
    ensures var y := CivilFromDays(day).year; IsLeap(y) && day == DayNumber(Date(y, 2, 29))
  {
    hide CivilFromDays, DayNumber, Weekday, IsLeap;
    CivilIsRight(day);
    var c := CivilFromDays(day);
    assert c.day in s.dom;
    assert c.day > CommonLength(c.month);
  }

  lemma LeapTickMatches(s: Schedule, m: int, y: int, h: int, mi: int)
    requires LeapOnly(s) && PermitsLeapDay(s) && IsLeapTick(s, m, y, h, mi)
    ensures MatchesMinute(s, m)
  {
    hide CivilFromDays, DayNumber, Weekday, MatchesMinute, HasCommonDate;
    var d := Date(y, 2, 29);
    CivilInverts(d);
    MinuteSplits(s, DayNumber(d), h, mi);
  }

  /** A 29 February as late as one likes. */
  lemma LeapDayAfter(t: nat) returns (y: int)
    ensures IsLeap(y) && DayNumber(Date(y, 2, 29)) > t
  {
    y := 400 * (t + 6);
    EraShift(399, t + 5);
    assert 399 + (t + 5) * 400 + 1 == y;
    assert y % 400 == 0 by { Quotient(y, 400, t + 6); }
    assert IsLeap(y);
    MonthTable(y);
  }

  /**
   * Exactly which instants get the sentinel although the schedule fires again: for a schedule
   * limited to 29 February, those with no permitted minute of a 29 February in the search window;
   * for one limited to days that do not exist, none.
   */
  lemma SentinelIsWrongExactly(s: Schedule, t: nat)
    requires LeapOnly(s)
    ensures NextTick(s, t) == None && (exists m :: m > t / 60 && MatchesMinute(s, m)) <==>
            PermitsLeapDay(s) && forall m :: t / 60 < m <= t / 60 + SEARCH_BOUND_MINUTES ==> !LeapTick(s, m)
  {
    hide MatchesMinute, LeapTick, LeapOnly;
    forall m ensures MatchesMinute(s, m) <==> PermitsLeapDay(s) && LeapTick(s, m) { LeapOnlyMatches(s, m); }
    if PermitsLeapDay(s) {
      var m := SomeLaterTick(s, t);
    }
  }

  lemma SomeLaterTick(s: Schedule, t: nat) returns (m: int)
    requires LeapOnly(s)
    ensures m > t / 60 && LeapTick(s, m)
  {
    hide DayNumber, IsLeap, HasCommonDate;
    var y := LeapDayAfter(t);
    var h, mi := s.hour[0], s.minute[0];
    assert h in s.hour && mi in s.minute;
    m := DayNumber(Date(y, 2, 29)) * 1440 + h * 60 + mi;
    assert IsLeapTick(s, m, y, h, mi);
  }
}
