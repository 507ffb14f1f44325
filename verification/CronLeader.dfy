/**
 * The in-process cron leader of jobs/lib.rs: each poll enqueues the newly due tick of every
 * registered cron under a key minted from (job, fire instant), and remembers what it fired.
 * Other leaders, workers and clients of the same store are arbitrary store operations.
 */
module CronLeader {
  import opened Basics
  import opened Text
  import opened JobStore
  import opened JobRuns
  import opened CronField
  import opened CronSchedule

  datatype Cron = Cron(job: string, schedule: Schedule, queue: string)

  // ---------- the idempotency key ----------

  /** `cron:{job}:{millis}`; `fire` is in seconds. */
  function CronKey(job: string, fire: int): string {
    "cron:" + job + ":" + Decimal(1000 * SinceEpoch(fire))
  }

  lemma {:induction false} ValueOfDecimal(n: nat)
    ensures Value(Decimal(n)) == n
  {
    if n < 10 {
      assert [Digit(n)][..0] == "";
    } else {
      ValueOfDecimal(n / 10);
      assert Decimal(n)[..|Decimal(n)| - 1] == Decimal(n / 10);
    }
  }

  lemma ColonInside(a: string, x: string, b: string, y: string)
    requires a + ":" + x == b + ":" + y && |x| < |y|
    ensures ':' in y
  {
    var k := |a| - |b| - 1;
    assert (a + ":" + x)[|a|] == ':' && (b + ":" + y)[|a|] == y[k];
  }

  /** The last colon separates the job from the instant. */
  lemma {:induction false} LastColon(a: string, x: string, b: string, y: string)
    requires a + ":" + x == b + ":" + y && ':' !in x && ':' !in y
    ensures a == b && x == y
  {
    if |x| < |y| { ColonInside(a, x, b, y); }
    if |y| < |x| { ColonInside(b, y, a, x); }
    var s, t := a + ":" + x, b + ":" + y;
    assert a == s[..|a|] && b == t[..|b|];
    assert x == s[|a| + 1..] && y == t[|b| + 1..];
  }

  /** Different (job, instant) pairs never share a key, so no tick suppresses another. */
  lemma {:induction false} KeyIsInjective(job1: string, fire1: nat, job2: string, fire2: nat)
    requires CronKey(job1, fire1) == CronKey(job2, fire2)
    ensures job1 == job2 && fire1 == fire2
  {
    hide Decimal, Value;
    var x, y := Decimal(1000 * fire1), Decimal(1000 * fire2);
    LastColon("cron:" + job1, x, "cron:" + job2, y);
    assert job1 == ("cron:" + job1)[5..] && job2 == ("cron:" + job2)[5..];
    ValueOfDecimal(1000 * fire1);
    ValueOfDecimal(1000 * fire2);
  }

  // ---------- one poll ----------

  datatype Due = Due(job: string, queue: string, fire: int, key: string)

  function LastFired(fired: map<string, int>, job: string): Option<int> {
    if job in fired then Some(fired[job]) else None
  }

  function DueOf(c: Cron, fired: map<string, int>, now: int): Option<Due> {
    match DueFire(c.schedule, LastFired(fired, c.job), now)
    case None => None
    case Some(fire) => Some(Due(c.job, c.queue, fire, CronKey(c.job, fire)))
  }

  function DueList(crons: seq<Cron>, fired: map<string, int>, now: int): seq<Due> {
    if crons == [] then []
    else match DueOf(crons[0], fired, now)
      case None => DueList(crons[1..], fired, now)
      case Some(d) => [d] + DueList(crons[1..], fired, now)
  }

  function JobFor(d: Due): NewJob { NewJob(d.job, d.queue, "null", Some(1000 * d.fire), Some(d.key), None) }

  datatype Enqueued = Enqueued(store: Store, count: nat, advanced: seq<Due>)

  /** Enqueue the due jobs from index `i` on; those in `fails` meet a store error. */
  function EnqueueFrom(s: Store, dues: seq<Due>, i: nat, now: int, fails: set<nat>): Enqueued
    requires i <= |dues|
    decreases |dues| - i
  {
    if i == |dues| then Enqueued(s, 0, [])
    else if i in fails then EnqueueFrom(s, dues, i + 1, now, fails)
    else
      var (s1, outcome) := Enqueue(s, JobFor(dues[i]), 1000 * now);
      var rest := EnqueueFrom(s1, dues, i + 1, now, fails);
      Enqueued(rest.store, rest.count + (if outcome.Inserted? then 1 else 0), [dues[i]] + rest.advanced)
  }

  function Advance(fired: map<string, int>, advanced: seq<Due>): map<string, int>
    decreases advanced
  {
    if advanced == [] then fired else Advance(fired[advanced[0].job := advanced[0].fire], advanced[1..])
  }

  class Leader {
    const crons: seq<Cron>
    const store: InMemoryStore
    var cronState: map<string, int>

    constructor (crons: seq<Cron>, store: InMemoryStore)
      ensures this.crons == crons && this.store == store && cronState == map[]
    {
      this.crons, this.store, this.cronState := crons, store, map[];
    }

    /** Decide what is due, enqueue it, record what was accepted; the number of new jobs. */
    method CronTickOnce(now: int, fails: set<nat>) returns (enqueued: nat)
      modifies this`cronState, store
      ensures var dues := DueList(crons, old(cronState), now);
              var r := EnqueueFrom(old(store.Abs()), dues, 0, now, fails);
              && store.Abs() == r.store && enqueued == r.count && cronState == Advance(old(cronState), r.advanced)
    {
      hide EnqueueFrom, Advance, DueList;
      var dues := CollectDue(now);
      var advanced: seq<Due>;
      enqueued, advanced := EnqueueDues(dues, now, fails);
      RecordFired(advanced);
    }

    /** Enqueue each in turn; what met a store error is not recorded. */
    method EnqueueDues(dues: seq<Due>, now: int, fails: set<nat>) returns (enqueued: nat, advanced: seq<Due>)
      modifies store
      ensures Enqueued(store.Abs(), enqueued, advanced) == EnqueueFrom(old(store.Abs()), dues, 0, now, fails)
    {
      hide Enqueue;
      ghost var want := EnqueueFrom(store.Abs(), dues, 0, now, fails);
      enqueued := 0;
      advanced := [];
      var i := 0;
      while i < |dues|
        invariant 0 <= i <= |dues|
        invariant var r := EnqueueFrom(store.Abs(), dues, i, now, fails);
                  want == Enqueued(r.store, enqueued + r.count, advanced + r.advanced)
      {
        var d := dues[i];
        if i !in fails {
          ghost var before := store.Abs();
          var outcome := store.EnqueueJob(JobFor(d), 1000 * now);
          ghost var tail := EnqueueFrom(store.Abs(), dues, i + 1, now, fails).advanced;
          assert advanced + ([d] + tail) == advanced + [d] + tail;
          if outcome.Inserted? { enqueued := enqueued + 1; }
          advanced := advanced + [d];
        }
        i := i + 1;
      }
      assert advanced + [] == advanced;
    }

    method RecordFired(advanced: seq<Due>)
      modifies this`cronState
      ensures cronState == Advance(old(cronState), advanced)
    {
      var i := 0;
      while i < |advanced|
        invariant 0 <= i <= |advanced|
        invariant Advance(cronState, advanced[i..]) == Advance(old(cronState), advanced)
      {
        assert advanced[i..][1..] == advanced[i + 1..];
        cronState := cronState[advanced[i].job := advanced[i].fire];
        i := i + 1;
      }
    }

    method CollectDue(now: int) returns (dues: seq<Due>)
      ensures dues == DueList(crons, cronState, now)
    {
      hide DueOf;
      dues := [];
      var i := 0;
      while i < |crons|
        invariant 0 <= i <= |crons|
        invariant dues + DueList(crons[i..], cronState, now) == DueList(crons, cronState, now)
      {
        assert crons[i..][1..] == crons[i + 1..];
        var d := DueOf(crons[i], cronState, now);
        if d.Some? {
          ghost var tail := DueList(crons[i + 1..], cronState, now);
          assert dues + ([d.value] + tail) == dues + [d.value] + tail;
          dues := dues + [d.value];
        }
        i := i + 1;
      }
    }
  }

  // ---------- runs ----------

  /** One leader's memory, the shared store, and the latest poll. */
  datatype Watch = Watch(store: Store, fired: map<string, int>, polled: int)

  datatype Event = Poll(now: int, fails: set<nat>) | Other(op: Op)

  function Polled(crons: seq<Cron>, w: Watch, now: int, fails: set<nat>): Watch {
    var r := EnqueueFrom(w.store, DueList(crons, w.fired, now), 0, now, fails);
    Watch(r.store, Advance(w.fired, r.advanced), now)
  }

  function Next(crons: seq<Cron>, w: Watch, ev: Event): Watch {
    match ev
    case Poll(now, fails) => Polled(crons, w, now, fails)
    case Other(op) => w.(store := Step(w.store, op))
  }

  function Run(crons: seq<Cron>, w: Watch, evs: seq<Event>): Watch
    decreases evs
  {
    if evs == [] then w else Run(crons, Next(crons, w, evs[0]), evs[1..])
  }

  ghost predicate DistinctJobs(crons: seq<Cron>) {
    forall i, j :: 0 <= i < j < |crons| ==> crons[i].job != crons[j].job
  }

  /** What the leader remembers firing is in the store's keys, is a tick, and is not in the future. */
  ghost predicate Sound(crons: seq<Cron>, w: Watch) {
    && Inv(w.store)
    && (forall job :: job in w.fired ==> CronKey(job, w.fired[job]) in w.store.keys && w.fired[job] <= w.polled)
    && (forall c :: c in crons && c.job in w.fired ==> IsTick(c.schedule, w.fired[c.job]))
  }

  predicate IsTick(s: Schedule, fire: int) { 0 <= fire && fire % 60 == 0 && MatchesMinute(s, fire / 60) }

  /** No job twice. */
  ghost predicate DistinctDues(r: seq<Due>) { forall i, j :: 0 <= i < j < |r| ==> r[i].job != r[j].job }

  lemma {:induction false} DueListMeaning(crons: seq<Cron>, fired: map<string, int>, now: int)
    ensures forall d :: d in DueList(crons, fired, now) <==> exists c :: c in crons && DueOf(c, fired, now) == Some(d)
    ensures DistinctJobs(crons) ==> DistinctDues(DueList(crons, fired, now))
  {
    hide DueFire, CronKey;
    if crons != [] {
      var c, rest := crons[0], crons[1..];
      DueListMeaning(rest, fired, now);
      var dues, all := DueList(rest, fired, now), DueList(crons, fired, now);
      assert forall x :: x in crons <==> x == c || x in rest;
      if DistinctJobs(crons) {
        assert forall x :: x in rest ==> x.job != c.job;
        assert DistinctJobs(rest);
        forall i, j | 0 <= i < j < |all| ensures all[i].job != all[j].job {
          if DueOf(c, fired, now).Some? {
            assert all[j] == dues[j - 1] && dues[j - 1] in dues;
            if i > 0 { assert all[i] == dues[i - 1]; }
          }
        }
      }
    }
  }

  /** A batch of enqueues: the store keeps everything, and every accepted key is in it. */
  lemma {:induction false} EnqueueFromKeeps(s: Store, dues: seq<Due>, i: nat, now: int, fails: set<nat>)
    requires Inv(s) && i <= |dues|
    ensures var r := EnqueueFrom(s, dues, i, now, fails);
            && Inv(r.store) && Keeps(s, r.store)
            && (forall d :: d in r.advanced ==> d in dues && d.key in r.store.keys)
            && (fails == {} ==> r.advanced == dues[i..])
    decreases |dues| - i
  {
    hide Inv, Enqueue;
    if i < |dues| {
      if i in fails {
        EnqueueFromKeeps(s, dues, i + 1, now, fails);
      } else {
        var s1 := Enqueue(s, JobFor(dues[i]), 1000 * now).0;
        StepKeeps(s, EnqueueOp(JobFor(dues[i]), 1000 * now));
        EnqueueRecordsKey(s, JobFor(dues[i]), 1000 * now);
        EnqueueFromKeeps(s1, dues, i + 1, now, fails);
        assert dues[i..] == [dues[i]] + dues[i + 1..];
      }
    }
  }

  /** To the store, a poll is a run of enqueues: any number of leaders is just more operations. */
  lemma {:induction false} PollIsARun(s: Store, dues: seq<Due>, i: nat, now: int, fails: set<nat>)
    returns (ops: seq<Op>)
    requires i <= |dues|
    ensures EnqueueFrom(s, dues, i, now, fails).store == JobRuns.Run(s, ops)
    decreases |dues| - i
  {
    hide Enqueue;
    if i == |dues| {
      ops := [];
    } else if i in fails {
      ops := PollIsARun(s, dues, i + 1, now, fails);
    } else {
      var op := EnqueueOp(JobFor(dues[i]), 1000 * now);
      var rest := PollIsARun(Step(s, op), dues, i + 1, now, fails);
      ops := [op] + rest;
      assert ops[1..] == rest;
    }
  }

  /** The number a poll reports is the number of jobs it added. */
  lemma {:induction false} CountIsJobsAdded(s: Store, dues: seq<Due>, i: nat, now: int, fails: set<nat>)
    requires Inv(s) && i <= |dues|
    ensures var r := EnqueueFrom(s, dues, i, now, fails); |r.store.jobs| == |s.jobs| + r.count
    decreases |dues| - i
  {
    hide Inv;
    if i < |dues| {
      if i in fails {
        CountIsJobsAdded(s, dues, i + 1, now, fails);
      } else {
        var n := JobFor(dues[i]);
        StepKeeps(s, EnqueueOp(n, 1000 * now));
        if n.key.value !in s.keys { NewRow(s, n, 1000 * now); }
        CountIsJobsAdded(Enqueue(s, n, 1000 * now).0, dues, i + 1, now, fails);
      }
    }
  }

  lemma EnqueueRecordsKey(s: Store, n: NewJob, now: int)
    requires n.key.Some?
    ensures n.key.value in Enqueue(s, n, now).0.keys
  {
  }

  /** What the leader remembers after recording `advanced`. */
  lemma {:induction false} AdvanceMeaning(fired: map<string, int>, advanced: seq<Due>, job: string)
    requires DistinctDues(advanced)
    ensures (forall d :: d in advanced && d.job == job ==>
              job in Advance(fired, advanced) && Advance(fired, advanced)[job] == d.fire)
    ensures (forall d :: d in advanced ==> d.job != job) ==>
              LastFired(Advance(fired, advanced), job) == LastFired(fired, job)
    decreases advanced
  {
    if advanced != [] {
      var d, rest := advanced[0], advanced[1..];
      forall i, j | 0 <= i < j < |rest| ensures rest[i].job != rest[j].job {
        assert rest[i] == advanced[i + 1] && rest[j] == advanced[j + 1];
      }
      AdvanceMeaning(fired[d.job := d.fire], rest, job);
      assert forall x :: x in advanced <==> x == d || x in rest;
      assert forall x :: x in rest ==> x.job != d.job;
    }
  }

  lemma {:induction false} AdvancedIsDistinct(s: Store, dues: seq<Due>, i: nat, now: int, fails: set<nat>)
    requires i <= |dues| && DistinctDues(dues)
    ensures var r := EnqueueFrom(s, dues, i, now, fails).advanced;
            DistinctDues(r) && forall d :: d in r ==> d in dues[i..]
    decreases |dues| - i
  {
    hide Enqueue;
    if i < |dues| {
      assert dues[i..] == [dues[i]] + dues[i + 1..];
      if i in fails {
        AdvancedIsDistinct(s, dues, i + 1, now, fails);
      } else {
        var s1 := Enqueue(s, JobFor(dues[i]), 1000 * now).0;
        AdvancedIsDistinct(s1, dues, i + 1, now, fails);
        var rest := EnqueueFrom(s1, dues, i + 1, now, fails).advanced;
        forall d | d in rest ensures d.job != dues[i].job {
          var k :| 0 <= k < |dues[i + 1..]| && dues[i + 1..][k] == d;
          assert dues[i + 1 + k] == d;
        }
        ConsDistinct(dues[i], rest);
      }
    }
  }

  lemma ConsDistinct(d: Due, rest: seq<Due>)
    requires DistinctDues(rest) && forall x :: x in rest ==> x.job != d.job
    ensures DistinctDues([d] + rest)
  {
    var r := [d] + rest;
    forall a, b | 0 <= a < b < |r| ensures r[a].job != r[b].job {
      assert r[b] == rest[b - 1] && rest[b - 1] in rest;
      if a > 0 { assert r[a] == rest[a - 1]; }
    }
  }

  /** What a poll leaves behind, job by job. */
  lemma PollOutcome(crons: seq<Cron>, w: Watch, now: int, fails: set<nat>, c: Cron)
    requires Inv(w.store) && DistinctJobs(crons) && c in crons
    ensures var w' := Polled(crons, w, now, fails);
            var due := DueOf(c, w.fired, now);
            && Inv(w'.store) && Keeps(w.store, w'.store)
            && (LastFired(w'.fired, c.job) == LastFired(w.fired, c.job)
                || (due.Some? && LastFired(w'.fired, c.job) == Some(due.value.fire) && due.value.key in w'.store.keys))
            && (fails == {} && due.Some? ==>
                 LastFired(w'.fired, c.job) == Some(due.value.fire) && due.value.key in w'.store.keys)
  {
    hide Inv, DueFire, CronKey, EnqueueFrom, Advance, Keeps, DueList;
    var dues := DueList(crons, w.fired, now);
    DueListMeaning(crons, w.fired, now);
    EnqueueFromKeeps(w.store, dues, 0, now, fails);
    AdvancedIsDistinct(w.store, dues, 0, now, fails);
    var adv := EnqueueFrom(w.store, dues, 0, now, fails).advanced;
    AdvanceMeaning(w.fired, adv, c.job);
    assert dues[0..] == dues;
    if exists d :: d in adv && d.job == c.job {
      var d :| d in adv && d.job == c.job;
      var c' :| c' in crons && DueOf(c', w.fired, now) == Some(d);
      assert c' == c;
    }
  }

  lemma OthersUntouched(crons: seq<Cron>, w: Watch, now: int, fails: set<nat>, job: string)
    requires Inv(w.store) && DistinctJobs(crons) && forall c :: c in crons ==> c.job != job
    ensures LastFired(Polled(crons, w, now, fails).fired, job) == LastFired(w.fired, job)
  {
    hide Inv, DueFire, CronKey, EnqueueFrom, Advance;
    var dues := DueList(crons, w.fired, now);
    DueListMeaning(crons, w.fired, now);
    EnqueueFromKeeps(w.store, dues, 0, now, fails);
    AdvancedIsDistinct(w.store, dues, 0, now, fails);
    AdvanceMeaning(w.fired, EnqueueFrom(w.store, dues, 0, now, fails).advanced, job);
  }

  lemma {:induction false} PollIsSound(crons: seq<Cron>, w: Watch, now: int, fails: set<nat>)
    requires Sound(crons, w) && DistinctJobs(crons) && w.polled <= now && 0 <= now
    ensures Sound(crons, Polled(crons, w, now, fails)) && Keeps(w.store, Polled(crons, w, now, fails).store)
  {
    hide Inv, CronKey, Polled, PrevTick, MatchesMinute;
    var w' := Polled(crons, w, now, fails);
    assert w'.polled == now && Inv(w'.store) && Keeps(w.store, w'.store) by { PollBasics(crons, w, now, fails); }
    forall job | job in w'.fired
      ensures CronKey(job, w'.fired[job]) in w'.store.keys && w'.fired[job] <= now
    {
      if c :| c in crons && c.job == job {
        PollOutcome(crons, w, now, fails, c);
        if DueOf(c, w.fired, now).Some? { FireIsTick(c, w.fired, now); }
      } else {
        OthersUntouched(crons, w, now, fails, job);
      }
    }
    forall c | c in crons && c.job in w'.fired ensures IsTick(c.schedule, w'.fired[c.job]) {
      PollOutcome(crons, w, now, fails, c);
      if DueOf(c, w.fired, now).Some? { FireIsTick(c, w.fired, now); }
    }
  }

  lemma PollBasics(crons: seq<Cron>, w: Watch, now: int, fails: set<nat>)
    requires Inv(w.store)
    ensures var w' := Polled(crons, w, now, fails); w'.polled == now && Inv(w'.store) && Keeps(w.store, w'.store)
  {
    hide Inv, EnqueueFrom, Advance, DueList;
    EnqueueFromKeeps(w.store, DueList(crons, w.fired, now), 0, now, fails);
  }

  /** What is due is a tick, not in the future, newer than the last one fired. */
  lemma FireIsTick(c: Cron, fired: map<string, int>, now: int)
    requires 0 <= now && DueOf(c, fired, now).Some?
    ensures var d := DueOf(c, fired, now).value;
            && IsTick(c.schedule, d.fire) && d.fire <= now && d.key == CronKey(c.job, d.fire)
            && (c.job in fired ==> fired[c.job] < d.fire)
  {
    hide MatchesMinute, CronKey;
    var m := PrevTick(c.schedule, now).value;
    assert m * 60 / 60 == m && m <= now / 60;
  }

  /** What a poll recorded for a job. */
  ghost function Recorded(crons: seq<Cron>, w: Watch, now: int, fails: set<nat>): seq<Due> {
    EnqueueFrom(w.store, DueList(crons, w.fired, now), 0, now, fails).advanced
  }

  /**
   * A recorded advance is strictly later than what the leader remembered of the job, and is what
   * it remembers afterwards; with none recorded it remembers what it did.
   */
  lemma FiredAdvances(crons: seq<Cron>, w: Watch, now: int, fails: set<nat>, c: Cron)
    requires Sound(crons, w) && DistinctJobs(crons) && c in crons && 0 <= now
    ensures var fired := Polled(crons, w, now, fails).fired;
            && (forall d :: d in Recorded(crons, w, now, fails) && d.job == c.job ==>
                  LastFired(fired, c.job) == Some(d.fire) && (c.job in w.fired ==> w.fired[c.job] < d.fire))
            && ((forall d :: d in Recorded(crons, w, now, fails) ==> d.job != c.job) ==>
                  LastFired(fired, c.job) == LastFired(w.fired, c.job))
  {
    hide Inv, CronKey, PrevTick, MatchesMinute, DueOf, EnqueueFrom, Advance, DueList, IsTick;
    var dues := DueList(crons, w.fired, now);
    DueListMeaning(crons, w.fired, now);
    EnqueueFromKeeps(w.store, dues, 0, now, fails);
    AdvancedIsDistinct(w.store, dues, 0, now, fails);
    var adv := Recorded(crons, w, now, fails);
    AdvanceMeaning(w.fired, adv, c.job);
    forall d | d in adv && d.job == c.job ensures c.job in w.fired ==> w.fired[c.job] < d.fire {
      var c' :| c' in crons && DueOf(c', w.fired, now) == Some(d);
      FireIsTick(c', w.fired, now);
      DueIsItsJobs(c', w.fired, now);
    }
  }

  lemma DueIsItsJobs(c: Cron, fired: map<string, int>, now: int)
    ensures DueOf(c, fired, now).Some? ==> DueOf(c, fired, now).value.job == c.job
  {
  }

  /** After a poll whose enqueues succeed, the most recent tick of every cron is in the store. */
  lemma PollCatchesUp(crons: seq<Cron>, w: Watch, now: int, c: Cron)
    requires Sound(crons, w) && DistinctJobs(crons) && w.polled <= now && 0 <= now && c in crons
    requires PrevTick(c.schedule, now).Some?
    ensures CronKey(c.job, 60 * PrevTick(c.schedule, now).value) in Polled(crons, w, now, {}).store.keys
  {
    hide Inv, CronKey, Polled, MatchesMinute;
    PollOutcome(crons, w, now, {}, c);
    var m := PrevTick(c.schedule, now).value;
    if DueOf(c, w.fired, now).None? {
      var f := w.fired[c.job];
      assert IsTick(c.schedule, f) && m * 60 <= f <= now;
      assert f / 60 <= now / 60 && m <= f / 60;
      assert m == f / 60;
    }
  }

  /** Enqueueing what has another key leaves a stored row as it is. */
  lemma {:induction false} RowStays(s: Store, dues: seq<Due>, i: nat, now: int, id: int)
    requires Inv(s) && i <= |dues| && id in s.jobs
    ensures var r := EnqueueFrom(s, dues, i, now, {}).store; id in r.jobs && r.jobs[id] == s.jobs[id]
    decreases |dues| - i
  {
    if i < |dues| {
      var op := EnqueueOp(JobFor(dues[i]), 1000 * now);
      StepKeeps(s, op);
      RowStays(Step(s, op), dues, i + 1, now, id);
    }
  }

  /** What is stored for a due tick that nobody has enqueued yet. */
  lemma {:induction false} DueIsStored(s: Store, dues: seq<Due>, i: nat, now: int, k: nat)
    requires Inv(s) && i <= k < |dues| && dues[k].key !in s.keys
    requires forall j :: 0 <= j < |dues| && j != k ==> dues[j].key != dues[k].key
    ensures var r := EnqueueFrom(s, dues, i, now, {}).store;
            && dues[k].key in r.keys && r.keys[dues[k].key] in r.jobs
            && var id := r.keys[dues[k].key];
               r.jobs[id] == Job(id, dues[k].job, dues[k].queue, "null", 1000 * dues[k].fire, 0, DEFAULT_MAX_ATTEMPTS,
                                 Pending, Some(dues[k].key), None, 1000 * now)
    decreases |dues| - i
  {
    hide Inv;
    var op := EnqueueOp(JobFor(dues[i]), 1000 * now);
    StepKeeps(s, op);
    var s1 := Step(s, op);
    if i < k {
      DueIsStored(s1, dues, i + 1, now, k);
    } else {
      EnqueueFromKeeps(s1, dues, i + 1, now, {});
      RowStays(s1, dues, i + 1, now, s.nextId);
    }
  }

  lemma KeysAreDistinct(crons: seq<Cron>, fired: map<string, int>, now: int)
    requires DistinctJobs(crons) && 0 <= now
    ensures var dues := DueList(crons, fired, now);
            forall j, k :: 0 <= j < |dues| && 0 <= k < |dues| && j != k ==> dues[j].key != dues[k].key
  {
    hide DueFire, CronKey, IsTick;
    var dues := DueList(crons, fired, now);
    DueListMeaning(crons, fired, now);
    forall j, k | 0 <= j < |dues| && 0 <= k < |dues| && j != k ensures dues[j].key != dues[k].key {
      assert dues[j] in dues && dues[k] in dues;
      var c1 :| c1 in crons && DueOf(c1, fired, now) == Some(dues[j]);
      var c2 :| c2 in crons && DueOf(c2, fired, now) == Some(dues[k]);
      FireIsTick(c1, fired, now);
      FireIsTick(c2, fired, now);
      TickIsLate(c1.schedule, dues[j].fire);
      TickIsLate(c2.schedule, dues[k].fire);
      if dues[j].key == dues[k].key { KeyIsInjective(dues[j].job, dues[j].fire, dues[k].job, dues[k].fire); }
    }
  }

  lemma TickIsLate(s: Schedule, fire: int)
    requires IsTick(s, fire)
    ensures fire >= 0
  {
  }

  /**
   * A poll at which minute `m` is a cron's most recent tick, not enqueued by anyone before, stores
   * one fresh job for it: the cron's own name and queue, no payload, to run from the tick on, with
   * the default attempts.
   */
  lemma PollStoresTheTick(crons: seq<Cron>, w: Watch, now: int, c: Cron, m: nat)
    requires Sound(crons, w) && DistinctJobs(crons) && w.polled <= now && 0 <= now && c in crons
    requires PrevTick(c.schedule, now) == Some(m) && CronKey(c.job, 60 * m) !in w.store.keys
    ensures var s := Polled(crons, w, now, {}).store;
            var key := CronKey(c.job, 60 * m);
            && key in s.keys && s.keys[key] in s.jobs
            && s.jobs[s.keys[key]]
               == Job(s.keys[key], c.job, c.queue, "null", 60_000 * m, 0, 5, Pending, Some(key), None, 1000 * now)
  {
    hide Inv, CronKey, Polled, MatchesMinute, EnqueueFrom, DueList;
    assert DueOf(c, w.fired, now) == Some(Due(c.job, c.queue, 60 * m, CronKey(c.job, 60 * m))) by {
      NotYetDue(crons, w, now, c, m);
    }
    var dues := DueList(crons, w.fired, now);
    DueListMeaning(crons, w.fired, now);
    var d := Due(c.job, c.queue, 60 * m, CronKey(c.job, 60 * m));
    var k :| 0 <= k < |dues| && dues[k] == d;
    KeysAreDistinct(crons, w.fired, now);
    DueIsStored(w.store, dues, 0, now, k);
    StoreOfPoll(crons, w, now);
  }

  lemma StoreOfPoll(crons: seq<Cron>, w: Watch, now: int)
    ensures Polled(crons, w, now, {}).store == EnqueueFrom(w.store, DueList(crons, w.fired, now), 0, now, {}).store
  {
    hide DueList, EnqueueFrom;
  }

  /** Not in the store, so not fired yet, so due now. */
  lemma NotYetDue(crons: seq<Cron>, w: Watch, now: int, c: Cron, m: nat)
    requires Sound(crons, w) && w.polled <= now && 0 <= now && c in crons
    requires PrevTick(c.schedule, now) == Some(m) && CronKey(c.job, 60 * m) !in w.store.keys
    ensures DueOf(c, w.fired, now) == Some(Due(c.job, c.queue, 60 * m, CronKey(c.job, 60 * m)))
  {
    hide Inv, CronKey, MatchesMinute;
    if c.job in w.fired {
      FiredBefore(c.schedule, w.fired[c.job], now, m);
      assert CronKey(c.job, w.fired[c.job]) in w.store.keys;
    }
  }

  /** No tick up to now is later than the most recent one. */
  lemma FiredBefore(s: Schedule, fire: int, now: int, m: nat)
    requires IsTick(s, fire) && fire <= now && PrevTick(s, now) == Some(m)
    ensures fire <= 60 * m
  {
    hide MatchesMinute;
    assert fire / 60 <= now / 60;
  }

  /** Polls in order, from the epoch on, whose enqueues all succeed; anything else in between. */
  predicate SteadyPolling(evs: seq<Event>, from: int)
    decreases evs
  {
    evs == [] || (
      if evs[0].Poll? then
        evs[0].fails == {} && 0 <= evs[0].now && from <= evs[0].now && SteadyPolling(evs[1..], evs[0].now)
      else SteadyPolling(evs[1..], from))
  }

  /**
   * No tick is lost: whatever else happens to the store, if the leader polls at an instant `p`
   * at which minute `m` is the most recent tick, that tick's job is in the store at the end.
   */
  lemma {:induction false} NoTickIsLost(crons: seq<Cron>, w: Watch, evs: seq<Event>, c: Cron, p: int, m: nat)
    requires Sound(crons, w) && DistinctJobs(crons) && c in crons && SteadyPolling(evs, w.polled)
    requires Poll(p, {}) in evs && PrevTick(c.schedule, p) == Some(m)
    ensures CronKey(c.job, 60 * m) in Run(crons, w, evs).store.keys
    decreases evs
  {
    hide Inv, CronKey, Polled, PrevTick, Step, Sound, DistinctJobs;
    var w1 := Next(crons, w, evs[0]);
    assert evs == [evs[0]] + evs[1..];
    if evs[0].Poll? {
      PollIsSound(crons, w, evs[0].now, {});
      SoundIsInv(crons, w);
      PollBasics(crons, w, evs[0].now, {});
    } else {
      OtherIsSound(crons, w, evs[0].op);
    }
    if evs[0] == Poll(p, {}) {
      PollCatchesUp(crons, w, p, c);
      KeysStay(crons, w1, evs[1..], CronKey(c.job, 60 * m));
    } else {
      NoTickIsLost(crons, w1, evs[1..], c, p, m);
    }
  }

  lemma SoundIsInv(crons: seq<Cron>, w: Watch)
    requires Sound(crons, w)
    ensures Inv(w.store)
  {
  }

  lemma OtherIsSound(crons: seq<Cron>, w: Watch, op: Op)
    requires Sound(crons, w)
    ensures Sound(crons, w.(store := Step(w.store, op)))
  {
    hide Inv, CronKey, Step, IsTick;
    StepKeeps(w.store, op);
  }

  /** Deduplication is permanent. */
  lemma {:induction false} KeysStay(crons: seq<Cron>, w: Watch, evs: seq<Event>, k: string)
    requires Inv(w.store) && k in w.store.keys
    ensures Inv(Run(crons, w, evs).store) && k in Run(crons, w, evs).store.keys
    ensures Run(crons, w, evs).store.keys[k] == w.store.keys[k]
    decreases evs
  {
    hide Inv, Polled, Step;
    if evs != [] {
      match evs[0] {
        case Poll(now, fails) => PollBasics(crons, w, now, fails);
        case Other(op) => StepKeeps(w.store, op);
      }
      KeysStay(crons, Next(crons, w, evs[0]), evs[1..], k);
    }
  }

  /** A minute that matches, with no match from there to the poll, is the most recent tick at the poll. */
  lemma BetweenTicks(s: Schedule, m: nat, p: int)
    requires MatchesMinute(s, m) && 60 * m <= p && p / 60 - m < SEARCH_BOUND_MINUTES
    requires forall k :: m < k <= p / 60 ==> !MatchesMinute(s, k)
    ensures PrevTick(s, p) == Some(m)
  {
    hide MatchesMinute;
    assert m <= p / 60;
  }

  /**
   * At most one job per tick, whoever polls: in every reachable state, two rows keyed for the
   * same job and instant are the same row, and rows keyed for different ticks are different.
   */
  lemma FiresOnce(ops: seq<Op>, a: int, b: int, job1: string, fire1: nat, job2: string, fire2: nat)
    requires var jobs := JobRuns.Run(Empty, ops).jobs;
             && a in jobs && b in jobs
             && jobs[a].key == Some(CronKey(job1, fire1)) && jobs[b].key == Some(CronKey(job2, fire2))
    ensures a == b <==> job1 == job2 && fire1 == fire2
  {
    hide CronKey, JobRuns.Run;
    if job1 == job2 && fire1 == fire2 { OneJobPerKey(ops, a, b); }
    if a == b { KeyIsInjective(job1, fire1, job2, fire2); }
  }
}
