/**
 * The fixed-window limiter of the ratelimit crate's store.rs against the log of all hits: one
 * counter per key, reset when the window changes, and pruned when idle. Times are nanoseconds.
 */
module RateLimit {
  import opened Basics

  const U32_MAX: nat := 0xFFFF_FFFF

  const NS_PER_MS: nat := 1_000_000

  /** Whole milliseconds since the epoch; earlier instants count as the epoch. */
  function EpochMs(now: int): nat { if now < 0 then 0 else now / NS_PER_MS }

  /** The window in whole milliseconds, at least one. */
  function WindowMs(window: nat): (r: nat)
    ensures r >= 1
  {
    Max(window / NS_PER_MS, 1)
  }

  /** The current window's number and the time left in it, in milliseconds. */
  function WindowBounds(now: int, window: nat): (r: (nat, nat))
    ensures 1 <= r.1 <= WindowMs(window)
  {
    (EpochMs(now) / WindowMs(window), WindowMs(window) - EpochMs(now) % WindowMs(window))
  }

  /** The window that is counted, in nanoseconds: cut to whole milliseconds, and never less than one. */
  function Counted(window: nat): nat {
    if window < 1_000_000 then 1_000_000 else window - window % 1_000_000
  }

  /**
   * In nanoseconds: instants fall into the counted windows laid end to end from the epoch, so two
   * of them share a counter exactly when their quotients by the window agree, and the time to wait
   * reaches the start of the next window with less than a millisecond to spare. A window of
   * whole milliseconds is counted as it is.
   */
  lemma WindowsAreLaidFromTheEpoch(now: int, window: nat)
    ensures var (id, retry) := WindowBounds(now, window);
            var w := Counted(window);
            var at := if now < 0 then 0 else now;
            && id == at / w
            && (id + 1) * w <= at + retry * 1_000_000 < (id + 1) * w + 1_000_000
    ensures window > 0 && window % 1_000_000 == 0 ==> Counted(window) == window
  {
    var (id, retry) := WindowBounds(now, window);
    var ms, e := WindowMs(window), EpochMs(now);
    var at := if now < 0 then 0 else now;
    assert Counted(window) == ms * 1_000_000;
    assert e == at / 1_000_000 && e == id * ms + e % ms;
    InNanoseconds(at, e, ms, id, retry);
  }

  lemma InNanoseconds(at: nat, e: nat, ms: nat, id: nat, retry: nat)
    requires ms >= 1 && e == at / 1_000_000 && e == id * ms + e % ms && retry == ms - e % ms
    ensures var w := ms * 1_000_000;
            at / w == id && (id + 1) * w <= at + retry * 1_000_000 < (id + 1) * w + 1_000_000
  {
    var w, r := ms * 1_000_000, e % ms;
    assert id * w == (id * ms) * 1_000_000 && (id + 1) * w == id * w + w;
    Quotient(at, w, id);
  }

  /**
   * Waiting out the reported time lands in the next window exactly when the clock is not before
   * the epoch.
   */
  lemma RetryAfterReachesNextWindow(now: int, window: nat)
    ensures var (id, retry) := WindowBounds(now, window);
            WindowBounds(now + retry * NS_PER_MS, window).0 == id + 1 <==> now >= 0
  {
    var w, e := WindowMs(window), EpochMs(now);
    var (id, retry) := WindowBounds(now, window);
    assert e == id * w + e % w;
    var later := now + retry * NS_PER_MS;
    if now >= 0 {
      Quotient(later, NS_PER_MS, e + retry);
      assert e + retry == (id + 1) * w;
      Quotient(e + retry, w, id + 1);
    } else {
      Quotient(e, w, 0);
      assert later >= 0 ==> later / NS_PER_MS < retry;
      Quotient(EpochMs(later), w, 0);
    }
  }

  // ---------- the store, as values ----------

  datatype Slot = Slot(id: nat, count: nat, windowMs: nat)

  type Slots = map<string, Slot>

  datatype Outcome = Outcome(allowed: bool, remaining: nat, retryAfterMs: nat)

  /** The count stored for a window. */
  function Stored(s: Slots, key: string, id: nat): nat { if key in s && s[key].id == id then s[key].count else 0 }

  function AfterHit(s: Slots, key: string, window: nat, now: int): Slots {
    var id := WindowBounds(now, window).0;
    var count := Min(Stored(s, key, id) + 1, U32_MAX);
    s[key := Slot(id, count, if key in s && s[key].id == id then s[key].windowMs else WindowMs(window))]
  }

  function HitOutcome(s: Slots, key: string, window: nat, limit: nat, now: int): Outcome {
    var count := AfterHit(s, key, window, now)[key].count;
    Outcome(count <= limit, Max(0, limit - count), WindowBounds(now, window).1)
  }

  function AfterPrune(s: Slots, now: int): Slots {
    map key | key in s && (s[key].id + 1) * s[key].windowMs > EpochMs(now) :: s[key]
  }

  class InMemoryStore {
    var slots: Slots

    constructor ()
      ensures slots == map[]
    {
      slots := map[];
    }

    method Hit(key: string, window: nat, limit: nat, now: int) returns (r: Outcome)
      modifies this
      ensures slots == AfterHit(old(slots), key, window, now)
      ensures r == HitOutcome(old(slots), key, window, limit, now)
    {
      hide WindowMs, EpochMs;
      var (id, retryAfter) := WindowBounds(now, window);
      var entry := if key in slots then slots[key] else Slot(id, 0, WindowMs(window));
      if entry.id != id { entry := Slot(id, 0, WindowMs(window)); }
      entry := entry.(count := if entry.count < U32_MAX then entry.count + 1 else U32_MAX);
      slots := slots[key := entry];
      r := Outcome(entry.count <= limit, if limit > entry.count then limit - entry.count else 0, retryAfter);
    }

    method Prune(now: int)
      modifies this
      ensures slots == AfterPrune(old(slots), now)
    {
      slots := map key | key in slots && (slots[key].id + 1) * slots[key].windowMs > EpochMs(now) :: slots[key];
    }
  }

  // ---------- runs ----------

  datatype Event = HitAt(key: string, limit: nat, now: int) | PruneAt(now: int)

  /** Each key's window. */
  type Windows = string -> nat

  predicate Ordered(evs: seq<Event>) { forall i, j :: 0 <= i < j < |evs| ==> evs[i].now <= evs[j].now }

  function After(win: Windows, evs: seq<Event>): Slots {
    if evs == [] then map[]
    else
      var s, e := After(win, evs[..|evs| - 1]), evs[|evs| - 1];
      match e
      case HitAt(key, _, now) => AfterHit(s, key, win(key), now)
      case PruneAt(now) => AfterPrune(s, now)
  }

  function IdOf(win: Windows, key: string, now: int): nat { WindowBounds(now, win(key)).0 }

  predicate IsHit(win: Windows, e: Event, key: string, id: nat) {
    e.HitAt? && e.key == key && IdOf(win, key, e.now) == id
  }

  /** How many hits of the key the log has in the window. */
  function Logged(win: Windows, evs: seq<Event>, key: string, id: nat): nat {
    if evs == [] then 0
    else Logged(win, evs[..|evs| - 1], key, id) + if IsHit(win, evs[|evs| - 1], key, id) then 1 else 0
  }

  /** From the window of instant `now` on, the stored counts are the log's. */
  ghost predicate Faithful(win: Windows, s: Slots, evs: seq<Event>, now: int) {
    && (forall key :: key in s ==> s[key].windowMs == WindowMs(win(key)))
    && (forall key, id: nat :: id >= IdOf(win, key, now) ==>
         Stored(s, key, id) == Min(Logged(win, evs, key, id), U32_MAX))
  }

  lemma IdsGrow(win: Windows, key: string, a: int, b: int)
    requires a <= b
    ensures IdOf(win, key, a) <= IdOf(win, key, b)
  {
    DivGrows(EpochMs(a), EpochMs(b), WindowMs(win(key)));
  }

  lemma DivGrows(x: nat, y: nat, d: nat)
    requires x <= y && d >= 1
    ensures x / d <= y / d
  {
    var a, b := x / d, y / d;
    assert x == a * d + x % d && y == b * d + y % d;
    assert a > b ==> a * d >= (b + 1) * d;
  }

  /** Nothing is logged beyond the latest instant's window. */
  lemma {:induction false} NothingAhead(win: Windows, evs: seq<Event>, key: string, id: nat, now: int)
    requires forall i :: 0 <= i < |evs| ==> evs[i].now <= now
    requires id > IdOf(win, key, now)
    ensures Logged(win, evs, key, id) == 0
  {
    if evs != [] {
      NothingAhead(win, evs[..|evs| - 1], key, id, now);
      IdsGrow(win, key, evs[|evs| - 1].now, now);
    }
  }

  lemma FaithfulLater(win: Windows, s: Slots, evs: seq<Event>, a: int, b: int)
    requires Faithful(win, s, evs, a) && a <= b
    ensures Faithful(win, s, evs, b)
  {
    hide IdOf, Logged, Stored;
    forall key ensures IdOf(win, key, a) <= IdOf(win, key, b) { IdsGrow(win, key, a, b); }
  }

  lemma HitKeepsFaith(win: Windows, s: Slots, evs: seq<Event>, e: Event)
    requires e.HitAt? && Faithful(win, s, evs, e.now)
    requires forall i :: 0 <= i < |evs| ==> evs[i].now <= e.now
    ensures Faithful(win, AfterHit(s, e.key, win(e.key), e.now), evs + [e], e.now)
  {
    hide WindowBounds, WindowMs;
    var s', log := AfterHit(s, e.key, win(e.key), e.now), evs + [e];
    assert log[..|log| - 1] == evs;
    forall key, id: nat | id >= IdOf(win, key, e.now)
      ensures Stored(s', key, id) == Min(Logged(win, log, key, id), U32_MAX)
    {
      if key == e.key && id > IdOf(win, key, e.now) { NothingAhead(win, evs, key, id, e.now); }
    }
  }

  /** A slot that pruning drops is of a window that is over. */
  lemma PruneKeepsFaith(win: Windows, s: Slots, evs: seq<Event>, e: Event)
    requires e.PruneAt? && Faithful(win, s, evs, e.now)
    ensures Faithful(win, AfterPrune(s, e.now), evs + [e], e.now)
  {
    hide WindowMs, EpochMs;
    var s', log := AfterPrune(s, e.now), evs + [e];
    assert log[..|log| - 1] == evs;
    forall key, id: nat | id >= IdOf(win, key, e.now)
      ensures Stored(s', key, id) == Min(Logged(win, log, key, id), U32_MAX)
    {
      assert Stored(s, key, id) == Min(Logged(win, evs, key, id), U32_MAX);
      StillOpen(EpochMs(e.now), WindowMs(win(key)), id);
    }
  }

  lemma StillOpen(ms: nat, w: nat, id: nat)
    requires w >= 1 && id >= ms / w
    ensures (id + 1) * w > ms
  {
    assert ms == ms / w * w + ms % w;
    assert (id + 1) * w >= (ms / w + 1) * w;
  }

  lemma {:induction false} RunsAreFaithful(win: Windows, evs: seq<Event>, now: int)
    requires Ordered(evs) && forall i :: 0 <= i < |evs| ==> evs[i].now <= now
    ensures Faithful(win, After(win, evs), evs, now)
  {
    hide Faithful, AfterHit, AfterPrune;
    if evs == [] {
      NothingIsFaithful(win, now);
    } else {
      var front, e := evs[..|evs| - 1], evs[|evs| - 1];
      assert forall i :: 0 <= i < |front| ==> front[i] == evs[i];
      RunsAreFaithful(win, front, e.now);
      assert front + [e] == evs;
      if e.HitAt? {
        HitKeepsFaith(win, After(win, front), front, e);
      } else {
        PruneKeepsFaith(win, After(win, front), front, e);
      }
      FaithfulLater(win, After(win, evs), evs, e.now, now);
    }
  }

  lemma NothingIsFaithful(win: Windows, now: int)
    ensures Faithful(win, map[], [], now)
  {
  }

  /** The outcome of a hit that follows a run. */
  function OutcomeAfter(win: Windows, evs: seq<Event>, e: Event): Outcome
    requires e.HitAt?
  {
    HitOutcome(After(win, evs), e.key, win(e.key), e.limit, e.now)
  }

  /**
   * The limiter is the log: a hit is allowed exactly when, counting itself, at most `limit` hits
   * of its key fall in its window, and it reports what is left. The 32-bit counter saturates, so
   * the largest limit allows everything.
   */
  lemma LimiterIsTheLog(win: Windows, evs: seq<Event>, e: Event)
    requires e.HitAt? && e.limit <= U32_MAX && Ordered(evs + [e])
    ensures var hits := Logged(win, evs + [e], e.key, IdOf(win, e.key, e.now));
            && (OutcomeAfter(win, evs, e).allowed <==> hits <= e.limit || e.limit == U32_MAX)
            && OutcomeAfter(win, evs, e).remaining == Max(0, e.limit - hits)
            && OutcomeAfter(win, evs, e).retryAfterMs == WindowBounds(e.now, win(e.key)).1
  {
    hide WindowMs, EpochMs, After;
    var log := evs + [e];
    assert log[..|log| - 1] == evs && log[|log| - 1] == e;
    assert forall i :: 0 <= i < |evs| ==> log[i] == evs[i];
    RunsAreFaithful(win, evs, e.now);
  }

  /** Over every run: pruning forgets exactly the counters whose window is over. */
  lemma PruneIsExact(win: Windows, evs: seq<Event>, now: int, key: string)
    requires Ordered(evs) && (forall i :: 0 <= i < |evs| ==> evs[i].now <= now) && key in After(win, evs)
    ensures key in AfterPrune(After(win, evs), now) <==> After(win, evs)[key].id >= IdOf(win, key, now)
    ensures key in AfterPrune(After(win, evs), now) ==>
              AfterPrune(After(win, evs), now)[key] == After(win, evs)[key]
  {
    hide WindowMs, EpochMs, After;
    RunsAreFaithful(win, evs, now);
    var slot, ms, w := After(win, evs)[key], EpochMs(now), WindowMs(win(key));
    assert slot.windowMs == w;
    if slot.id >= ms / w { StillOpen(ms, w, slot.id); } else { LongOver(ms, w, slot.id); }
  }

  lemma LongOver(ms: nat, w: nat, id: nat)
    requires w >= 1 && id < ms / w
    ensures (id + 1) * w <= ms
  {
    var q := ms / w;
    assert ms == q * w + ms % w;
    Times(id + 1, q, w);
  }

  lemma Times(a: nat, b: nat, w: nat)
    requires a <= b
    ensures a * w <= b * w
  {
  }

  function HitsOf(evs: seq<Event>): seq<Event> {
    if evs == [] then []
    else HitsOf(evs[..|evs| - 1]) + if evs[|evs| - 1].HitAt? then [evs[|evs| - 1]] else []
  }

  lemma {:induction false} LogIgnoresPrunes(win: Windows, evs: seq<Event>, key: string, id: nat)
    ensures Logged(win, HitsOf(evs), key, id) == Logged(win, evs, key, id)
  {
    hide IdOf;
    if evs != [] {
      var front, e := evs[..|evs| - 1], evs[|evs| - 1];
      LogIgnoresPrunes(win, front, key, id);
      var h := HitsOf(front);
      if e.HitAt? {
        assert HitsOf(evs) == h + [e] && (h + [e])[..|h|] == h;
      } else {
        assert HitsOf(evs) == h;
      }
    }
  }

  /** Pruning is invisible: runs with the same hits give the next hit the same outcome. */
  lemma PruneIsInvisible(win: Windows, evs: seq<Event>, evs': seq<Event>, e: Event)
    requires e.HitAt? && e.limit <= U32_MAX && HitsOf(evs) == HitsOf(evs')
    requires Ordered(evs + [e]) && Ordered(evs' + [e])
    ensures OutcomeAfter(win, evs, e) == OutcomeAfter(win, evs', e)
  {
    hide WindowMs, EpochMs, After, HitsOf, Ordered;
    var id := IdOf(win, e.key, e.now);
    assert (evs + [e])[..|evs|] == evs && (evs' + [e])[..|evs'|] == evs';
    LogIgnoresPrunes(win, evs, e.key, id);
    LogIgnoresPrunes(win, evs', e.key, id);
    LimiterIsTheLog(win, evs, e);
    LimiterIsTheLog(win, evs', e);
  }

  // ---------- how many get through ----------

  /** The admitted hits of a key within the window. */
  function AdmittedIn(win: Windows, evs: seq<Event>, key: string, id: nat): nat {
    if evs == [] then 0
    else
      var front, e := evs[..|evs| - 1], evs[|evs| - 1];
      AdmittedIn(win, front, key, id) + if IsHit(win, e, key, id) && OutcomeAfter(win, front, e).allowed then 1 else 0
  }

  /** The admitted hits of a key at instants from `a` up to but not including `b`. */
  function AdmittedBetween(win: Windows, evs: seq<Event>, key: string, a: int, b: int): nat {
    if evs == [] then 0
    else
      var front, e := evs[..|evs| - 1], evs[|evs| - 1];
      AdmittedBetween(win, front, key, a, b)
      + if e.HitAt? && e.key == key && a <= e.now < b && OutcomeAfter(win, front, e).allowed then 1 else 0
  }

  predicate OneLimit(evs: seq<Event>, key: string, limit: nat) {
    forall i :: 0 <= i < |evs| && evs[i].HitAt? && evs[i].key == key ==> evs[i].limit == limit
  }

  /** A window admits its first `limit` hits and no more. */
  lemma {:induction false} WindowAdmits(win: Windows, evs: seq<Event>, key: string, id: nat, limit: nat)
    requires Ordered(evs) && OneLimit(evs, key, limit) && limit < U32_MAX
    ensures AdmittedIn(win, evs, key, id) == Min(Logged(win, evs, key, id), limit)
  {
    hide WindowBounds, OutcomeAfter, IdOf, Ordered, OneLimit;
    if evs != [] {
      var front, e := evs[..|evs| - 1], evs[|evs| - 1];
      FrontIsOrdered(evs, key, limit);
      WindowAdmits(win, front, key, id, limit);
      assert front + [e] == evs;
      if IsHit(win, e, key, id) { LimiterIsTheLog(win, front, e); }
    }
  }

  lemma FrontIsOrdered(evs: seq<Event>, key: string, limit: nat)
    requires evs != [] && Ordered(evs) && OneLimit(evs, key, limit)
    ensures Ordered(evs[..|evs| - 1]) && OneLimit(evs[..|evs| - 1], key, limit)
    ensures var e := evs[|evs| - 1]; e.HitAt? && e.key == key ==> e.limit == limit
  {
    assert forall i :: 0 <= i < |evs| - 1 ==> evs[..|evs| - 1][i] == evs[i];
  }

  /** An instant at most one window after `a` is in the window of `a` or the next. */
  lemma TwoWindows(win: Windows, key: string, a: int, now: int)
    requires a <= now <= a + WindowMs(win(key)) * NS_PER_MS
    ensures IdOf(win, key, a) <= IdOf(win, key, now) <= IdOf(win, key, a) + 1
  {
    hide WindowMs, EpochMs;
    IdsGrow(win, key, a, now);
    MillisAhead(a, now, WindowMs(win(key)));
    OneWindowOn(EpochMs(a), EpochMs(now), WindowMs(win(key)));
  }

  lemma MillisAhead(a: int, now: int, w: nat)
    requires a <= now <= a + w * NS_PER_MS
    ensures EpochMs(now) <= EpochMs(a) + w
  {
  }

  lemma OneWindowOn(x: nat, y: nat, w: nat)
    requires w >= 1 && y <= x + w
    ensures y / w <= x / w + 1
  {
    DivGrows(y, x + w, w);
    var q := x / w;
    assert x == q * w + x % w;
    Quotient(x + w, w, q + 1);
  }

  lemma {:induction false} BetweenIsWithinTwo(win: Windows, evs: seq<Event>, key: string, a: int, b: int)
    requires b <= a + WindowMs(win(key)) * NS_PER_MS + 1
    ensures var id := IdOf(win, key, a);
            AdmittedBetween(win, evs, key, a, b) <= AdmittedIn(win, evs, key, id) + AdmittedIn(win, evs, key, id + 1)
  {
    hide WindowMs, OutcomeAfter, IdOf;
    if evs != [] {
      var e := evs[|evs| - 1];
      BetweenIsWithinTwo(win, evs[..|evs| - 1], key, a, b);
      if e.HitAt? && e.key == key && a <= e.now < b { TwoWindows(win, key, a, e.now); }
    }
  }

  /** Over every run, any stretch of one counted window admits at most twice the limit. */
  lemma AtMostTwiceTheLimit(win: Windows, evs: seq<Event>, key: string, limit: nat, a: int, b: int)
    requires Ordered(evs) && OneLimit(evs, key, limit) && limit < U32_MAX
    requires b <= a + WindowMs(win(key)) * NS_PER_MS + 1
    ensures AdmittedBetween(win, evs, key, a, b) <= 2 * limit
  {
    hide AdmittedBetween, AdmittedIn, IdOf, WindowMs, Ordered, OneLimit, Logged;
    var id := IdOf(win, key, a);
    BetweenIsWithinTwo(win, evs, key, a, b);
    WindowAdmits(win, evs, key, id, limit);
    WindowAdmits(win, evs, key, id + 1, limit);
  }

  function Everywhere(window: nat): Windows { _ => window }

  /** In every run, any stretch of the configured window admits at most twice the limit. */
  ghost predicate TwiceBounds(window: nat) {
    forall evs, key, limit: nat, a: int, b: int ::
      b == a + window && Ordered(evs) && OneLimit(evs, key, limit) && limit < U32_MAX ==>
        AdmittedBetween(Everywhere(window), evs, key, a, b) <= 2 * limit
  }

  /**
   * The configured window is cut to whole milliseconds, so the bound holds for it exactly when
   * at most one nanosecond is cut off; beyond that three windows fit into one.
   */
  lemma TwiceIsExact(window: nat)
    ensures TwiceBounds(window) <==> window <= WindowMs(window) * NS_PER_MS + 1
  {
    hide AdmittedBetween, WindowMs, Ordered, OneLimit;
    var win := Everywhere(window);
    if window <= WindowMs(window) * NS_PER_MS + 1 {
      forall evs, key, limit: nat, a: int, b: int
        | b == a + window && Ordered(evs) && OneLimit(evs, key, limit) && limit < U32_MAX
        ensures AdmittedBetween(win, evs, key, a, b) <= 2 * limit
      {
        AtMostTwiceTheLimit(win, evs, key, limit, a, b);
      }
    } else {
      ThreeGetThrough(window);
    }
  }

  /** One hit at the end of a window, one at the start of the next and one at the start of the third. */
  lemma ThreeGetThrough(window: nat)
    requires window > WindowMs(window) * NS_PER_MS + 1
    ensures var len := WindowMs(window) * NS_PER_MS;
            var evs := [HitAt("k", 1, len - 1), HitAt("k", 1, len), HitAt("k", 1, 2 * len)];
            && Ordered(evs) && OneLimit(evs, "k", 1)
            && AdmittedBetween(Everywhere(window), evs, "k", len - 1, len - 1 + window) == 3
  {
    hide OutcomeAfter, IdOf;
    var win, w, len := Everywhere(window), WindowMs(window), WindowMs(window) * NS_PER_MS;
    var x, y, z := HitAt("k", 1, len - 1), HitAt("k", 1, len), HitAt("k", 1, 2 * len);
    IdAtMs(window, len - 1, w - 1, 0);
    IdAtMs(window, len, w, 1);
    IdAtMs(window, 2 * len, 2 * w, 2);
    FirstOfItsWindow(win, [], x);
    FirstOfItsWindow(win, [x], y);
    FirstOfItsWindow(win, [x, y], z);
    assert [x][..0] == [] && [x, y][..1] == [x] && [x, y, z][..2] == [x, y];
    var a, b := len - 1, len - 1 + window;
    assert AdmittedBetween(win, [], "k", a, b) == 0;
    assert AdmittedBetween(win, [x], "k", a, b) == 1;
    assert AdmittedBetween(win, [x, y], "k", a, b) == 2;
  }

  lemma IdAtMs(window: nat, now: int, ms: nat, id: nat)
    requires ms * NS_PER_MS <= now < (ms + 1) * NS_PER_MS
    requires id * WindowMs(window) <= ms < (id + 1) * WindowMs(window)
    ensures IdOf(Everywhere(window), "k", now) == id
  {
    Quotient(now, NS_PER_MS, ms);
    Quotient(ms, WindowMs(window), id);
  }

  lemma FirstOfItsWindow(win: Windows, evs: seq<Event>, e: Event)
    requires e.HitAt? && e.limit == 1 && Ordered(evs + [e])
    requires forall i :: 0 <= i < |evs| ==> IdOf(win, e.key, evs[i].now) != IdOf(win, e.key, e.now)
    ensures OutcomeAfter(win, evs, e).allowed
  {
    hide OutcomeAfter, IdOf;
    var id := IdOf(win, e.key, e.now);
    assert (evs + [e])[..|evs|] == evs;
    NoneInWindow(win, evs, e.key, id);
    LimiterIsTheLog(win, evs, e);
  }

  lemma {:induction false} NoneInWindow(win: Windows, evs: seq<Event>, key: string, id: nat)
    requires forall i :: 0 <= i < |evs| ==> IdOf(win, key, evs[i].now) != id
    ensures Logged(win, evs, key, id) == 0
  {
    if evs != [] { NoneInWindow(win, evs[..|evs| - 1], key, id); }
  }
}
