/**
 * Cron schedules: parsing, matching, the two bounded scans and the skip-missed firing rule
 * of cron.rs. Times are whole seconds since the epoch; ticks are whole minutes.
 */
module CronSchedule {
  import opened Basics
  import opened Search
  import opened Text
  import opened CronField
  import opened Civil

  const SEARCH_BOUND_MINUTES: nat := 4 * 366 * 1440
  /** The far-future sentinel of `next_after`. */
  const NEVER: int := 100_000 * 365 * 86_400

  datatype Schedule = Schedule(
    minute: seq<int>, hour: seq<int>, dom: seq<int>, month: seq<int>, dow: seq<int>,
    domRestricted: bool, dowRestricted: bool)

  // ---------- parsing ----------

  /** `str::split_whitespace`. */
  function Words(s: string): seq<string> {
    if s == "" then []
    else if IsWhitespace(s[0]) then Words(s[1..])
    else [Word(s)] + Words(s[|Word(s)|..])
  }

  /** The leading run without whitespace. */
  function Word(s: string): (w: string)
    ensures |w| <= |s| && w == s[..|w|] && (s != "" && !IsWhitespace(s[0]) ==> w != "")
  {
    if s == "" || IsWhitespace(s[0]) then ""
    else
      assert s == [s[0]] + s[1..];
      [s[0]] + Word(s[1..])
  }

  function Parse(expr: string): Result<Schedule, CronError> {
    var f := Words(expr);
    if |f| != 5 then Err(FieldCount)
    else
      var minute, hour := FieldValues(f[0], 0, 59), FieldValues(f[1], 0, 23);
      var dom, month, dow := FieldValues(f[2], 1, 31), FieldValues(f[3], 1, 12), FieldValues(f[4], 0, 6);
      if minute.Err? then Err(minute.error)
      else if hour.Err? then Err(hour.error)
      else if dom.Err? then Err(dom.error)
      else if month.Err? then Err(month.error)
      else if dow.Err? then Err(dow.error)
      else Ok(Schedule(minute.value, hour.value, dom.value, month.value, dow.value, f[2] != "*", f[4] != "*"))
  }

  /** The values of a field: sorted, not empty, in range. */
  ghost predicate FieldOk(vs: seq<int>, min: int, max: int) {
    StrictlySorted(vs) && vs != [] && forall v :: v in vs ==> min <= v <= max
  }

  /** What every parsed schedule satisfies. */
  ghost predicate WellFormed(s: Schedule) {
    && FieldOk(s.minute, 0, 59) && FieldOk(s.hour, 0, 23) && FieldOk(s.dom, 1, 31)
    && FieldOk(s.month, 1, 12) && FieldOk(s.dow, 0, 6)
    && (!s.domRestricted ==> forall v :: 1 <= v <= 31 ==> v in s.dom)
    && (!s.dowRestricted ==> forall v :: 0 <= v <= 6 ==> v in s.dow)
  }

  lemma ParsedIsWellFormed(expr: string)
    ensures Parse(expr).Ok? ==> WellFormed(Parse(expr).value)
  {
    hide FieldValues, Denoted, Words;
    var f := Words(expr);
    if Parse(expr).Ok? {
      FieldMeaning(f[0], 0, 59);
      FieldMeaning(f[1], 0, 23);
      FieldMeaning(f[2], 1, 31);
      FieldMeaning(f[3], 1, 12);
      FieldMeaning(f[4], 0, 6);
      StarMeaning(1, 31);
      StarMeaning(0, 6);
    }
  }

  // ---------- matching ----------

  /** Standard cron: both day fields restricted means either may match. */
  predicate DayRule(s: Schedule, day: int, dow: int) {
    if s.domRestricted && s.dowRestricted then day in s.dom || dow in s.dow
    else if s.domRestricted then day in s.dom
    else if s.dowRestricted then dow in s.dow
    else true
  }

  predicate Matches(s: Schedule, c: Civil) {
    && c.minute in s.minute && c.hour in s.hour && c.date.month in s.month
    && DayRule(s, c.date.day, c.dow)
  }

  predicate MatchesMinute(s: Schedule, m: int) { Matches(s, FromUnixSecs(m * 60)) }

  // ---------- the scans ----------

  /** The least matching minute in `[from, from + n)`. */
  function FirstMatch(s: Schedule, from: nat, n: nat): (r: Option<nat>)
    ensures r.Some? ==> from <= r.value < from + n && MatchesMinute(s, r.value)
    ensures forall m :: from <= m < (if r.Some? then r.value else from + n) ==> !MatchesMinute(s, m)
    decreases n
  {
    if n == 0 then None
    else if MatchesMinute(s, from) then Some(from)
    else FirstMatch(s, from + 1, n - 1)
  }

  /** The greatest matching minute in `(from - n, from]`, never before the epoch. */
  function LastMatch(s: Schedule, from: nat, n: nat): (r: Option<nat>)
    ensures r.Some? ==> from - n < r.value <= from && MatchesMinute(s, r.value)
    ensures forall m :: (if r.Some? then r.value else Max(from - n, -1)) < m <= from ==> !MatchesMinute(s, m)
    decreases n
  {
    if n == 0 then None
    else if MatchesMinute(s, from) then Some(from)
    else if from == 0 then None
    else LastMatch(s, from - 1, n - 1)
  }

  /** Seconds since the epoch; earlier instants count as the epoch. */
  function SinceEpoch(t: int): nat { Max(0, t) }

  /** `next_after` as a minute, `None` for the sentinel. */
  function NextTick(s: Schedule, after: int): Option<nat> {
    FirstMatch(s, SinceEpoch(after) / 60 + 1, SEARCH_BOUND_MINUTES)
  }

  /** `prev_at_or_before` as a minute. */
  function PrevTick(s: Schedule, at: int): Option<nat> {
    LastMatch(s, SinceEpoch(at) / 60, SEARCH_BOUND_MINUTES)
  }

  lemma FirstMatchStep(s: Schedule, from: nat, n: nat)
    requires n > 0
    ensures FirstMatch(s, from, n) == if MatchesMinute(s, from) then Some(from) else FirstMatch(s, from + 1, n - 1)
  {
  }

  /**
   * How far the scans look, in seconds: forward, a tick is found exactly if there is one within four
   * years of 366 days after the instant, and it is the first of them; backward, exactly if there is
   * one within that time up to and including the instant, and it is the last.
   */
  lemma ScansSpanFourYears(s: Schedule, at: int)
    ensures var now := if at < 0 then 0 else at;
            && (NextTick(s, at).Some? <==>
                 exists m: nat :: MatchesMinute(s, m) && now < 60 * m <= now + 4 * 366 * 86_400)
            && (PrevTick(s, at).Some? <==>
                 exists m: nat :: MatchesMinute(s, m) && now - 4 * 366 * 86_400 < 60 * m <= now)
            && forall m: nat :: MatchesMinute(s, m) ==>
                 && (NextTick(s, at).Some? && now < 60 * m ==> NextTick(s, at).value <= m)
                 && (PrevTick(s, at).Some? && 60 * m <= now ==> m <= PrevTick(s, at).value)
  {
    hide MatchesMinute, FirstMatch, LastMatch;
    var now := if at < 0 then 0 else at;
    assert SinceEpoch(at) == now;
    forall m: nat
      ensures now < 60 * m <= now + 4 * 366 * 86_400 <==> now / 60 + 1 <= m < now / 60 + 1 + SEARCH_BOUND_MINUTES
      ensures now - 4 * 366 * 86_400 < 60 * m <= now <==> now / 60 - SEARCH_BOUND_MINUTES < m <= now / 60
    {
    }
    var next, prev := NextTick(s, at), PrevTick(s, at);
    if next.Some? { assert MatchesMinute(s, next.value); }
    if prev.Some? { assert MatchesMinute(s, prev.value); }
  }

  method NextAfter(s: Schedule, after: int) returns (r: int)
    ensures r == match NextTick(s, after) { case None => NEVER case Some(m) => m * 60 }
  {
    hide MatchesMinute, FirstMatch;
    var start := SinceEpoch(after) / 60 + 1;
    var bound := SEARCH_BOUND_MINUTES;
    var step := 0;
    while step < bound
      invariant 0 <= step <= bound
      invariant FirstMatch(s, start + step, bound - step) == FirstMatch(s, start, bound)
    {
      var candidate := start + step;
      FirstMatchStep(s, candidate, bound - step);
      if MatchesMinute(s, candidate) { return candidate * 60; }
      step := step + 1;
    }
    r := NEVER;
  }

  method PrevAtOrBefore(s: Schedule, at: int) returns (r: Option<int>)
    ensures r == match PrevTick(s, at) { case None => None case Some(m) => Some(m * 60) }
  {
    hide MatchesMinute;
    var start := SinceEpoch(at) / 60;
    var step := 0;
    while step < SEARCH_BOUND_MINUTES
      invariant 0 <= step <= SEARCH_BOUND_MINUTES && step <= start + 1
      invariant step <= start ==> LastMatch(s, start - step, SEARCH_BOUND_MINUTES - step) == PrevTick(s, at)
      invariant step > start ==> PrevTick(s, at) == None
    {
      if start < step { break; }
      var candidate := start - step;
      if MatchesMinute(s, candidate) { return Some(candidate * 60); }
      step := step + 1;
    }
    r := None;
  }

  /** A found next tick is its own most recent tick: the scans mirror each other. */
  lemma ScansMirror(s: Schedule, t: int)
    requires NextTick(s, t).Some?
    ensures PrevTick(s, NextTick(s, t).value * 60) == NextTick(s, t)
  {
    var m := NextTick(s, t).value;
    assert m * 60 / 60 == m;
    assert MatchesMinute(s, m);
  }

  /** Between an instant and its next tick nothing new becomes due. */
  lemma NothingBetween(s: Schedule, t: int, u: int)
    requires 0 <= t <= u
    requires NextTick(s, t).Some? ==> u < NextTick(s, t).value * 60
    requires u / 60 - t / 60 < SEARCH_BOUND_MINUTES
    ensures PrevTick(s, u).Some? ==> PrevTick(s, u).value <= t / 60
  {
    hide MatchesMinute;
    var r := PrevTick(s, u);
    if r.Some? && r.value > t / 60 { assert false; }
  }

  // ---------- firing ----------

  /** The most recent tick that has not fired yet, at its instant. */
  function DueFire(s: Schedule, last: Option<int>, now: int): Option<int> {
    match PrevTick(s, now)
    case None => None
    case Some(m) => if last.Some? && m * 60 <= last.value then None else Some(m * 60)
  }
}
