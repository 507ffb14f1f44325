/**
 * The lease rule of worker.rs promises that a still-running job is never reclaimed. The lease
 * covers one execution timeout, but a batch runs its jobs one after another, so the promise
 * holds exactly when the lease covers the whole batch.
 */
module FleetTheft {
  import opened Basics
  import opened JobStore
  import opened JobRuns
  import opened Worker
  import opened Fleet

  predicate Chronological(evs: seq<Event>) {
    forall i, j :: 0 <= i < j < |evs| ==> evs[i].when <= evs[j].when
  }

  lemma {:induction false} RunsCompose(c: Config, f: System, a: seq<Event>, b: seq<Event>)
    requires TimedRun(c, f, a) && TimedRun(c, After(c, f, a), b)
    ensures TimedRun(c, f, a + b) && After(c, f, a + b) == After(c, After(c, f, a), b)
    ensures TheftIn(c, After(c, f, a), b) ==> TheftIn(c, f, a + b)
    decreases a
  {
    hide Apply, OnTime, Enabled, Steals, PromptRun;
    if a == [] {
      assert a + b == b;
    } else {
      RunsCompose(c, Apply(c, f, a[0]), a[1..], b);
      assert (a + b)[0] == a[0] && (a + b)[1..] == a[1..] + b;
    }
  }

  const Filler := NewJob("job", "q", "", None, None, None)

  predicate IsFiller(j: Job) { j.queue == "q" && j.runAt == 0 && j.maxAttempts == DEFAULT_MAX_ATTEMPTS }

  /** Nothing but jobs waiting on queue `q`, all due at 0. */
  ghost predicate Waiting(c: Config, f: System) {
    && FleetInv(c, f) && f.workers == map[]
    && forall id :: id in f.store.jobs ==>
         f.store.jobs[id].status.Pending? && f.store.jobs[id].attempts == 0 && IsFiller(f.store.jobs[id])
  }

  lemma {:induction false} SubmitMany(c: Config, f: System, n: nat) returns (evs: seq<Event>)
    requires Waiting(c, f)
    ensures TimedRun(c, f, evs) && forall i :: 0 <= i < |evs| ==> evs[i].when == 0 && evs[i].Submit?
    ensures Waiting(c, After(c, f, evs)) && |After(c, f, evs).store.jobs| == |f.store.jobs| + n
    decreases n
  {
    hide RowsMatch, Disjoint, AllLeasedHeld, BatchSizes, PromptRun;
    if n == 0 {
      evs := [];
    } else {
      var ev := Submit(Filler, 0);
      SubmitKeeps(c, f, Filler, 0);
      var f1 := Apply(c, f, ev);
      assert f.store.nextId !in f.store.jobs;
      var rest := SubmitMany(c, f1, n - 1);
      evs := [ev] + rest;
      assert evs[1..] == rest;
    }
  }

  /** A poll wide enough for every waiting job takes them all. */
  lemma PollTakesAll(c: Config, f: System, n: nat)
    requires Waiting(c, f) && |f.store.jobs| == n <= c.batch
    ensures var f1 := Apply(c, f, Poll(0, "q", 0));
            && FleetInv(c, f1) && f1.workers.Keys == {0} && |f1.store.jobs| == n
            && f1.workers[0].at == 0 && f1.workers[0].settled == 0 && |f1.workers[0].batch| == n
            && (forall i :: 0 <= i < n ==> IsFiller(f1.workers[0].batch[i]) && f1.workers[0].batch[i].attempts == 1)
            && forall id :: id in f1.store.jobs ==> HasId(f1.workers[0].batch, id)
  {
    hide FleetInv, Lease, LeaseIds, HasId, IsDue;
    assert Prompt(f, 0);
    PollKeeps(c, f, 0, "q", 0);
    PollBatch(c, f.store, "q", 0);
    AllAreLeased(f.store, n, c.batch);
    var ids := LeaseIds(f.store, "q", 0, c.batch);
    var jobs := ClaimAll(f.store.jobs, ids, 0, EffectiveLease(c));
    assert jobs.Keys == f.store.jobs.Keys;
    assert |jobs.Keys| == |f.store.jobs.Keys|;
    var f1 := Apply(c, f, Poll(0, "q", 0));
    RowsHaveIds(c, f);
    BatchIsFillers(c, f, ids, f1.workers[0].batch);
  }

  /** With every row due and no more rows than the batch takes, all are leased. */
  lemma AllAreLeased(s: Store, n: nat, batch: nat)
    requires |s.jobs| == n <= batch
    requires forall id :: id in s.jobs ==> s.jobs[id].status.Pending? && IsFiller(s.jobs[id])
    ensures |LeaseIds(s, "q", 0, batch)| == n && forall id :: id in s.jobs ==> id in LeaseIds(s, "q", 0, batch)
  {
    hide Ranked;
    var due := DueIds(s, "q", 0);
    assert forall id :: id in due <==> id in s.jobs.Keys;
    assert due == s.jobs.Keys;
    RankedMeaning(s.jobs, due);
  }

  lemma RowsHaveIds(c: Config, f: System)
    requires FleetInv(c, f)
    ensures forall id :: id in f.store.jobs ==> f.store.jobs[id].id == id
  {
  }

  lemma FillerClaimed(jobs: map<int, Job>, id: int, lease: int)
    requires id in jobs && forall x :: x in jobs ==> jobs[x].attempts == 0 && IsFiller(jobs[x])
    ensures IsFiller(Claimed(jobs[id], 0, lease)) && Claimed(jobs[id], 0, lease).attempts == 1
  {
  }

  lemma BatchIsFillers(c: Config, f: System, ids: seq<int>, batch: seq<Job>)
    requires |batch| == |ids|
    requires forall id :: id in f.store.jobs ==>
               f.store.jobs[id].attempts == 0 && IsFiller(f.store.jobs[id]) && f.store.jobs[id].id == id
    requires forall i :: 0 <= i < |ids| ==>
               ids[i] in f.store.jobs && batch[i] == Claimed(f.store.jobs[ids[i]], 0, EffectiveLease(c))
    requires forall id :: id in f.store.jobs ==> id in ids
    ensures forall i :: 0 <= i < |batch| ==> IsFiller(batch[i]) && batch[i].attempts == 1
    ensures forall id :: id in f.store.jobs ==> HasId(batch, id)
  {
    forall i | 0 <= i < |batch| ensures IsFiller(batch[i]) && batch[i].attempts == 1 {
      var id := ids[i];
      FillerClaimed(f.store.jobs, id, EffectiveLease(c));
    }
    forall id | id in f.store.jobs ensures HasId(batch, id) {
      var i :| 0 <= i < |ids| && ids[i] == id;
      assert batch[i].id == id;
    }
  }

  predicate HasId(batch: seq<Job>, id: int) { exists i :: 0 <= i < |batch| && batch[i].id == id }

  /** Worker 0 alone, with part of a batch of `n` leased at 0 still to run; all else is done. */
  ghost predicate Working(c: Config, f: System, n: nat, last: Job) {
    && FleetInv(c, f) && f.workers.Keys == {0} && |f.store.jobs| == n
    && (var h := f.workers[0];
        && h.at == 0 && h.batch != [] && h.settled + |h.batch| == n && h.batch[|h.batch| - 1] == last
        && forall id :: id in f.store.jobs ==> f.store.jobs[id].status.Done? || HasId(h.batch, id))
  }

  predicate InSpan(evs: seq<Event>, lo: int, hi: int) {
    Chronological(evs) && forall i :: 0 <= i < |evs| ==> lo <= evs[i].when <= hi
  }

  /** Nobody requeues anything. */
  predicate NoRequeue(evs: seq<Event>) { forall i :: 0 <= i < |evs| ==> !evs[i].Requeue? }

  lemma PrependEvent(c: Config, f: System, ev: Event, rest: seq<Event>, lo: int, hi: int)
    requires Enabled(f, ev) && OnTime(c, f, ev.when) && TimedRun(c, Apply(c, f, ev), rest)
    requires InSpan(rest, ev.when, hi) && lo <= ev.when <= hi
    ensures TimedRun(c, f, [ev] + rest) && InSpan([ev] + rest, lo, hi)
    ensures After(c, f, [ev] + rest) == After(c, Apply(c, f, ev), rest)
    ensures !ev.Requeue? && NoRequeue(rest) ==> NoRequeue([ev] + rest)
  {
    hide Apply, OnTime, Enabled, PromptRun;
    assert ([ev] + rest)[1..] == rest;
  }

  /** Each job but the last runs to its timeout and succeeds. */
  lemma {:induction false} RunAllButLast(c: Config, f: System, n: nat, last: Job) returns (evs: seq<Event>)
    requires Working(c, f, n, last)
    ensures TimedRun(c, f, evs) && InSpan(evs, f.workers[0].settled * c.execTimeout, n * c.execTimeout)
    ensures NoRequeue(evs)
    ensures Working(c, After(c, f, evs), n, last) && |After(c, f, evs).workers[0].batch| == 1
    decreases |f.workers[0].batch|
  {
    hide Settled, PromptRun, FleetInv, Apply, Enabled, OnTime, HasId;
    var k := f.workers[0].settled;
    if |f.workers[0].batch| == 1 {
      evs := [];
    } else {
      var ev := Settle(0, Succeeded, (k + 1) * c.execTimeout);
      OneMoreSettled(c, f, n, last, ev);
      var rest := RunAllButLast(c, Apply(c, f, ev), n, last);
      Scaled(c.execTimeout, k, k + 1);
      Scaled(c.execTimeout, k + 1, n);
      PrependEvent(c, f, ev, rest, k * c.execTimeout, n * c.execTimeout);
      evs := [ev] + rest;
    }
  }

  lemma OneMoreSettled(c: Config, f: System, n: nat, last: Job, ev: Event)
    requires Working(c, f, n, last) && |f.workers[0].batch| > 1
    requires ev == Settle(0, Succeeded, (f.workers[0].settled + 1) * c.execTimeout)
    ensures Enabled(f, ev) && OnTime(c, f, ev.when) && Working(c, Apply(c, f, ev), n, last)
    ensures Apply(c, f, ev).workers[0].settled == f.workers[0].settled + 1
    ensures |Apply(c, f, ev).workers[0].batch| < |f.workers[0].batch|
  {
    hide Inv, Disjoint, AllLeasedHeld, BatchSizes, FleetInv, RowsMatch;
    SettleKeeps(c, f, 0, Succeeded, ev.when);
    var batch := f.workers[0].batch;
    var id := batch[0].id;
    assert id in f.store.jobs by { HeldIsStored(c, f); }
    var f1 := Apply(c, f, ev);
    assert f1.store.jobs.Keys == f.store.jobs.Keys;
    assert |f1.store.jobs.Keys| == |f.store.jobs.Keys|;
    forall x | x in f1.store.jobs ensures f1.store.jobs[x].status.Done? || HasId(f1.workers[0].batch, x) {
      if x != id && !f.store.jobs[x].status.Done? {
        var i :| 0 <= i < |batch| && batch[i].id == x;
        assert f1.workers[0].batch[i - 1].id == x;
      }
    }
  }

  lemma HeldIsStored(c: Config, f: System)
    requires FleetInv(c, f) && 0 in f.workers && f.workers[0].batch != []
    ensures HoldsRow(c, f, 0, 0)
  {
  }

  /** Submit `n` jobs, poll, and run all but the last: by `n * exec` worker 0 is running it. */
  lemma UpToTheLast(c: Config, n: nat) returns (evs: seq<Event>, last: Job)
    requires 1 <= n <= c.batch
    ensures TimedRun(c, EmptyFleet, evs) && InSpan(evs, 0, n * c.execTimeout) && NoRequeue(evs)
    ensures Working(c, After(c, EmptyFleet, evs), n, last) && |After(c, EmptyFleet, evs).workers[0].batch| == 1
    ensures IsFiller(last) && last.attempts == 1
  {
    hide Apply, TimedRun, After, FleetInv, Working, PromptRun, HasId;
    EmptyIsWaiting(c);
    var a := SubmitMany(c, EmptyFleet, n);
    var f1 := After(c, EmptyFleet, a);
    var poll := Poll(0, "q", 0);
    SinglePoll(c, f1, poll);
    var f2 := After(c, f1, [poll]);
    RunsCompose(c, EmptyFleet, a, [poll]);
    last := PolledLast(c, f1, f2, n);
    var b := RunAllButLast(c, f2, n, last);
    RunsCompose(c, EmptyFleet, a + [poll], b);
    evs := a + [poll] + b;
    assert forall i :: 0 <= i < |evs| ==>
        evs[i] == if i < |a| then a[i] else if i == |a| then poll else b[i - |a| - 1];
  }

  lemma EmptyIsWaiting(c: Config)
    ensures Waiting(c, EmptyFleet) && |EmptyFleet.store.jobs| == 0
  {
  }

  lemma SinglePoll(c: Config, f: System, ev: Event)
    requires Waiting(c, f) && ev == Poll(0, "q", 0)
    ensures TimedRun(c, f, [ev]) && After(c, f, [ev]) == Apply(c, f, ev)
  {
    hide FleetInv, Lease;
    assert [ev][1..] == [];
    assert TimedRun(c, Apply(c, f, ev), []);
  }

  lemma PolledLast(c: Config, f1: System, f2: System, n: nat) returns (last: Job)
    requires Waiting(c, f1) && |f1.store.jobs| == n && 1 <= n <= c.batch
    requires f2 == Apply(c, f1, Poll(0, "q", 0))
    ensures Working(c, f2, n, last) && IsFiller(last) && last.attempts == 1 && f2.workers[0].settled == 0
  {
    hide Apply, FleetInv, HasId;
    PollTakesAll(c, f1, n);
    last := f2.workers[0].batch[n - 1];
  }

  /** At the end of its run the last job's lease is over, and another worker gets it. */
  lemma LastIsTaken(c: Config, f: System, n: nat, last: Job)
    requires Working(c, f, n, last) && |f.workers[0].batch| == 1 && IsFiller(last)
    requires n <= c.batch && n * c.execTimeout > EffectiveLease(c)
    ensures var ev := Poll(1, "q", n * c.execTimeout);
            && TimedRun(c, f, [ev]) && TheftIn(c, f, [ev])
            && last.id in LeaseIds(f.store, "q", ev.when, c.batch)
  {
    hide LeaseIds, Lease, Inv, Disjoint, AllLeasedHeld, BatchSizes, PromptRun, HasId;
    var ev := Poll(1, "q", n * c.execTimeout);
    assert HoldsRow(c, f, 0, 0);
    AlwaysClaimable(f.store, last.id, ev.when, c.batch);
    assert HeldBySomeone(f, last.id);
    assert Steals(c, f, ev);
    assert OnTime(c, f, ev.when);
    assert [ev][1..] == [];
  }

  lemma UncoveredLeaseIsStolen(c: Config) returns (evs: seq<Event>)
    requires !LeaseCoversBatch(c)
    ensures TimedRun(c, EmptyFleet, evs) && Chronological(evs) && TheftIn(c, EmptyFleet, evs)
  {
    hide Apply, TimedRun, TheftIn, After, FleetInv, Working, PromptRun;
    var a, last := UpToTheLast(c, c.batch);
    var theft := Poll(1, "q", c.batch * c.execTimeout);
    LastIsTaken(c, After(c, EmptyFleet, a), c.batch, last);
    RunsCompose(c, EmptyFleet, a, [theft]);
    evs := a + [theft];
  }

  /**
   * Exactly when held jobs are safe: in a fleet whose jobs all end within their timeout, no
   * poll ever takes a job that its worker holds, running or waiting its turn, if and only if
   * batch * exec_timeout <= max(lease_duration, exec_timeout).
   */
  lemma LeaseRuleIsExact(c: Config)
    ensures (forall evs :: TimedRun(c, EmptyFleet, evs) && Chronological(evs) ==> !TheftIn(c, EmptyFleet, evs))
       <==> LeaseCoversBatch(c)
  {
    hide TimedRun, TheftIn, LeaseCoversBatch, Chronological;
    EmptyIsWaiting(c);
    if LeaseCoversBatch(c) {
      forall evs | TimedRun(c, EmptyFleet, evs) && Chronological(evs) ensures !TheftIn(c, EmptyFleet, evs) {
        CoveredRunsAreSafe(c, EmptyFleet, evs);
      }
    } else {
      var evs := UncoveredLeaseIsStolen(c);
    }
  }

  /** A batch of one is always covered; the default batch of ten is not. */
  lemma DefaultsAndSingles(c: Config)
    ensures c.batch <= 1 ==> LeaseCoversBatch(c)
    ensures !LeaseCoversBatch(DefaultConfig)
  {
    if c.batch == 1 { assert c.batch * c.execTimeout == c.execTimeout; }
  }
}
