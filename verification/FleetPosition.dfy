/**
 * Running jobs by their position in the batch. The j-th job of a batch is safe while it runs
 * as long as (j + 1) timeouts fit the lease and nobody's job has been taken before; over all
 * runs that is not enough, since a worker whose job was taken may still settle it.
 */
module FleetPosition {
  import opened Basics
  import opened JobStore
  import opened JobRuns
  import opened Worker
  import opened Fleet
  import opened FleetTheft

  /** Worker `w` is running the job at position `j` of its batch. */
  predicate RunsAt(f: System, w: int, j: nat) {
    w in f.workers && f.workers[w].batch != [] && f.workers[w].settled == j
  }

  /** A poll that takes a job some worker is running at position `j`. */
  ghost predicate TakesRunning(c: Config, f: System, ev: Event, j: nat) {
    ev.Poll? && exists w :: RunsAt(f, w, j) && f.workers[w].batch[0].id in LeaseIds(f.store, ev.queue, ev.when, c.batch)
  }

  /** Position `j` ends within the lease, or within one timeout. */
  predicate PositionFits(c: Config, j: nat) {
    (j + 1) * c.execTimeout <= c.leaseDuration || (j + 1) * c.execTimeout <= c.execTimeout
  }

  // ---------- up to the first theft ----------

  lemma RunningIsSafe(c: Config, f: System, ev: Event, j: nat)
    requires FleetInv(c, f) && OnTime(c, f, ev.when) && PositionFits(c, j)
    ensures !TakesRunning(c, f, ev, j)
  {
    hide LeaseIds, Inv, Disjoint, AllLeasedHeld, BatchSizes;
    forall w | ev.Poll? && RunsAt(f, w, j)
      ensures f.workers[w].batch[0].id !in LeaseIds(f.store, ev.queue, ev.when, c.batch)
    {
      assert HoldsRow(c, f, w, 0);
      LeaseIdsAreDue(f.store, ev.queue, ev.when, c.batch);
    }
  }

  /** A poll that takes nobody's job keeps the fleet in order, late or not. */
  lemma HonestPollKeeps(c: Config, f: System, w: int, queue: string, when: int)
    requires FleetInv(c, f) && Enabled(f, Poll(w, queue, when)) && !Steals(c, f, Poll(w, queue, when))
    ensures FleetInv(c, Apply(c, f, Poll(w, queue, when)))
  {
    hide LeaseIds, Lease, HeldBySomeone;
    var s := f.store;
    var ids := LeaseIds(s, queue, when, c.batch);
    PollBatch(c, s, queue, when);
    LeaseIdsAreDue(s, queue, when, c.batch);
    var f' := Apply(c, f, Poll(w, queue, when));
    StepKeeps(s, LeaseOp(queue, when, EffectiveLease(c), c.batch));
    assert Inv(f'.store);
    forall id | id in ids ensures id in s.jobs && s.jobs[id].status.Pending? {
      assert id in DueIds(s, queue, when) && !HeldBySomeone(f, id);
    }
    PollRows(c, f, f', w, ids, when);
  }

  lemma HonestEventKeeps(c: Config, f: System, ev: Event)
    requires FleetInv(c, f) && Enabled(f, ev) && !Steals(c, f, ev)
    ensures FleetInv(c, Apply(c, f, ev))
  {
    hide FleetInv, Apply, Steals;
    match ev
    case Submit(n, when) => SubmitKeeps(c, f, n, when);
    case Requeue(id, when) => RequeueKeeps(c, f, id, when);
    case Poll(w, queue, when) => HonestPollKeeps(c, f, w, queue, when);
    case Settle(w, result, when) => SettleKeeps(c, f, w, result, when);
  }

  /** Up to and including the first theft, no running job at a covered position is taken. */
  ghost predicate SafeUntilTheft(c: Config, f: System, evs: seq<Event>)
    requires TimedRun(c, f, evs)
    decreases evs
  {
    evs == [] || (
      && (forall j :: PositionFits(c, j) ==> !TakesRunning(c, f, evs[0], j))
      && (!Steals(c, f, evs[0]) ==> SafeUntilTheft(c, Apply(c, f, evs[0]), evs[1..])))
  }

  /**
   * With any number of workers, the j-th job of a batch is not taken by anyone while it runs if
   * (j + 1) * exec_timeout <= max(lease_duration, exec_timeout), in every run up to and including
   * the first theft of a held job. The first job of a batch is always covered.
   */
  lemma {:induction false} CoveredPositionsAreSafe(c: Config, f: System, evs: seq<Event>)
    requires FleetInv(c, f) && TimedRun(c, f, evs)
    ensures SafeUntilTheft(c, f, evs)
    ensures PositionFits(c, 0)
    decreases evs
  {
    hide FleetInv, Apply, OnTime, Enabled, Steals, TakesRunning, PositionFits;
    FirstFits(c);
    if evs != [] {
      forall j | PositionFits(c, j) ensures !TakesRunning(c, f, evs[0], j) { RunningIsSafe(c, f, evs[0], j); }
      if !Steals(c, f, evs[0]) {
        HonestEventKeeps(c, f, evs[0]);
        CoveredPositionsAreSafe(c, Apply(c, f, evs[0]), evs[1..]);
      }
    }
  }

  lemma FirstFits(c: Config)
    ensures PositionFits(c, 0)
  {
  }

  // ---------- over all runs ----------

  /** Somewhere in the run a job running at position `j` is taken. */
  ghost predicate RunningTheftIn(c: Config, f: System, evs: seq<Event>, j: nat)
    requires TimedRun(c, f, evs)
    decreases evs
  {
    evs != [] && (TakesRunning(c, f, evs[0], j) || RunningTheftIn(c, Apply(c, f, evs[0]), evs[1..], j))
  }

  lemma {:induction false} RunningTheftIsTheft(c: Config, f: System, evs: seq<Event>, j: nat)
    requires TimedRun(c, f, evs) && RunningTheftIn(c, f, evs, j)
    ensures TheftIn(c, f, evs)
    decreases evs
  {
    hide Apply, OnTime, Enabled, LeaseIds;
    if TakesRunning(c, f, evs[0], j) {
      var w :| RunsAt(f, w, j) && f.workers[w].batch[0].id in LeaseIds(f.store, evs[0].queue, evs[0].when, c.batch);
      assert HeldBySomeone(f, f.workers[w].batch[0].id);
      assert Steals(c, f, evs[0]);
    } else {
      RunningTheftIsTheft(c, Apply(c, f, evs[0]), evs[1..], j);
    }
  }

  lemma {:induction false} TheftLater(c: Config, f: System, a: seq<Event>, b: seq<Event>, j: nat)
    requires TimedRun(c, f, a) && TimedRun(c, After(c, f, a), b) && RunningTheftIn(c, After(c, f, a), b, j)
    ensures TimedRun(c, f, a + b) && RunningTheftIn(c, f, a + b, j)
    decreases a
  {
    hide Apply, OnTime, Enabled, TakesRunning, PromptRun;
    if a == [] {
      assert a + b == b;
    } else {
      TheftLater(c, Apply(c, f, a[0]), a[1..], b, j);
      assert (a + b)[0] == a[0] && (a + b)[1..] == a[1..] + b;
    }
  }

  // ---------- a position that is not covered ----------

  /** One batch of `j + 1` jobs: the last outlives its lease while it runs. */
  lemma UncoveredPositionIsTaken(c: Config, j: nat) returns (evs: seq<Event>)
    requires j < c.batch && !PositionFits(c, j)
    ensures TimedRun(c, EmptyFleet, evs) && Chronological(evs) && NoRequeue(evs)
    ensures RunningTheftIn(c, EmptyFleet, evs, j)
  {
    hide Apply, TimedRun, After, FleetInv, PromptRun, RunningTheftIn, HasId, LeaseIds, TheftIn;
    var a, last := UpToTheLast(c, j + 1);
    var f := After(c, EmptyFleet, a);
    var theft := Poll(1, "q", (j + 1) * c.execTimeout);
    LastIsTaken(c, f, j + 1, last);
    assert RunsAt(f, 0, j);
    assert TakesRunning(c, f, theft, j);
    AtOnce(c, f, theft, j);
    TheftLater(c, EmptyFleet, a, [theft], j);
    evs := a + [theft];
  }

  lemma AtOnce(c: Config, f: System, ev: Event, j: nat)
    requires TimedRun(c, f, [ev]) && TakesRunning(c, f, ev, j)
    ensures RunningTheftIn(c, f, [ev], j)
  {
  }

  // ---------- a stale worker ----------

  /** A job that is due before everything submitted at the ordinary time. */
  const Early := NewJob("job", "q", "", Some(-1), None, None)

  /** Worker 0 is running the last job, others are done, `k` early jobs wait. */
  ghost predicate Primed(c: Config, f: System, last: Job, k: nat) {
    && FleetInv(c, f) && f.workers.Keys == {0} && f.workers[0].at == 0 && f.workers[0].settled + 1 == c.batch
    && f.workers[0].batch == [last] && last.queue == "q" && last.runAt == 0
    && (exists early: set<int> :: |early| == k && EarlyJobs(f, last, early))
  }

  ghost predicate EarlyJobs(f: System, last: Job, early: set<int>) {
    && early <= f.store.jobs.Keys && last.id !in early
    && (forall id :: id in early ==> var r := f.store.jobs[id]; r.status.Pending? && r.queue == "q" && r.runAt == -1)
    && (forall id :: id in f.store.jobs && id !in early && id != last.id ==> f.store.jobs[id].status.Done?)
  }

  lemma {:induction false} SubmitEarly(c: Config, f: System, last: Job, k: nat, n: nat, t: int)
    returns (evs: seq<Event>)
    requires Primed(c, f, last, k) && OnTime(c, f, t)
    ensures TimedRun(c, f, evs) && InSpan(evs, t, t) && NoRequeue(evs)
    ensures Primed(c, After(c, f, evs), last, k + n) && OnTime(c, After(c, f, evs), t)
    decreases n
  {
    hide FleetInv, PromptRun, EarlyJobs;
    evs := [];
    if n > 0 {
      var ev := Submit(Early, t);
      OneEarly(c, f, last, k, t);
      var rest := SubmitEarly(c, Apply(c, f, ev), last, k + 1, n - 1, t);
      PrependEvent(c, f, ev, rest, t, t);
      evs := [ev] + rest;
    }
  }

  lemma OneEarly(c: Config, f: System, last: Job, k: nat, t: int)
    requires Primed(c, f, last, k) && OnTime(c, f, t)
    ensures Primed(c, Apply(c, f, Submit(Early, t)), last, k + 1) && OnTime(c, Apply(c, f, Submit(Early, t)), t)
  {
    hide RowsMatch, Disjoint, AllLeasedHeld, BatchSizes;
    SubmitKeeps(c, f, Early, t);
    var f' := Apply(c, f, Submit(Early, t));
    var early :| |early| == k && EarlyJobs(f, last, early);
    var id := f.store.nextId;
    assert id !in f.store.jobs;
    assert last.id in f.store.jobs by { LastIsStored(c, f); }
    assert |early + {id}| == k + 1;
    assert EarlyJobs(f', last, early + {id});
  }

  lemma LastIsStored(c: Config, f: System)
    requires FleetInv(c, f) && 0 in f.workers && f.workers[0].batch != []
    ensures var j := f.workers[0].batch[0];
            && j.id in f.store.jobs && f.store.jobs[j.id] == j && j.status.Leased?
            && j.leaseExpires == Some(f.workers[0].at + EffectiveLease(c))
  {
    assert HoldsRow(c, f, 0, 0);
  }

  /**
   * Worker 0 still holds the last job as it leased it; worker 1 leased `j` jobs and then that one
   * at `t`, and has some of them to go; everything else is done.
   */
  ghost predicate Duel(c: Config, f: System, id: int, j: nat, t: int) {
    && Inv(f.store) && f.workers.Keys == {0, 1} && id in f.store.jobs && f.store.jobs[id].queue == "q"
    && (var h := f.workers[0];
        && h.at == 0 && h.settled + 1 == c.batch && |h.batch| == 1
        && h.batch[0].id == id && h.batch[0].attempts == 1 && h.batch[0].maxAttempts == DEFAULT_MAX_ATTEMPTS)
    && (var h := f.workers[1];
        && h.at == t && h.batch != [] && h.settled + |h.batch| == j + 1 && h.batch[|h.batch| - 1].id == id
        && (forall i :: 0 <= i < |h.batch| - 1 ==> h.batch[i].id != id)
        && forall x :: x in f.store.jobs && x != id ==> f.store.jobs[x].status.Done? || HasId(h.batch, x))
  }

  /** The order of the claim: the early jobs, then the last one. */
  lemma LastRanksLast(f: System, last: Job, early: set<int>, t: int, max: nat)
    requires EarlyJobs(f, last, early) && last.id in f.store.jobs && f.store.jobs[last.id].runAt == 0
    requires IsDue(f.store.jobs[last.id], "q", t) && t >= 0 && |early| + 1 <= max
    ensures var ids := LeaseIds(f.store, "q", t, max);
            |ids| == |early| + 1 && ids[|early|] == last.id && forall x :: x in ids <==> x in early || x == last.id
  {
    hide Ranked, IsDue;
    var due := DueIds(f.store, "q", t);
    WhoIsDue(f, last, early, t);
    RankedMeaning(f.store.jobs, due);
    var r := Ranked(f.store.jobs, due);
    assert LeaseIds(f.store, "q", t, max) == r;
    GreatestIsLast(f.store.jobs, r, last.id);
  }

  lemma WhoIsDue(f: System, last: Job, early: set<int>, t: int)
    requires EarlyJobs(f, last, early) && last.id in f.store.jobs && IsDue(f.store.jobs[last.id], "q", t) && t >= 0
    ensures DueIds(f.store, "q", t) == early + {last.id} && |DueIds(f.store, "q", t)| == |early| + 1
  {
    var due := DueIds(f.store, "q", t);
    assert forall x :: x in due <==> x in early || x == last.id;
    assert due == early + {last.id};
  }

  /** In a ranked list, what nothing comes after is last. */
  lemma GreatestIsLast(jobs: map<int, Job>, r: seq<int>, id: int)
    requires id in r && (forall x :: x in r ==> x in jobs)
    requires forall i, j :: 0 <= i < j < |r| ==> r[i] in jobs && r[j] in jobs && Earlier(jobs, r[i], r[j])
    requires forall x :: x in r && x != id ==> Earlier(jobs, x, id)
    ensures r[|r| - 1] == id
  {
    var i :| 0 <= i < |r| && r[i] == id;
    assert r[|r| - 1] in r;
  }

  /** Worker 1 takes the last job from worker 0, with `j` early jobs before it. */
  lemma DuelBegins(c: Config, f: System, last: Job, j: nat, t: int)
    requires Primed(c, f, last, j) && OnTime(c, f, t) && j < c.batch && t == c.batch * c.execTimeout > EffectiveLease(c)
    requires last.attempts == 1 && last.maxAttempts == DEFAULT_MAX_ATTEMPTS
    ensures var f' := Apply(c, f, Poll(1, "q", t));
            Enabled(f, Poll(1, "q", t)) && Duel(c, f', last.id, j, t) && f'.workers[1].settled == 0
  {
    hide LeaseIds, Lease, RowsMatch, Disjoint, AllLeasedHeld, BatchSizes, Ranked;
    var early :| |early| == j && EarlyJobs(f, last, early);
    LastIsStored(c, f);
    LastRanksLast(f, last, early, t, c.batch);
    PollBatch(c, f.store, "q", t);
    StepKeeps(f.store, LeaseOp("q", t, EffectiveLease(c), c.batch));
    var f' := Apply(c, f, Poll(1, "q", t));
    var ids := LeaseIds(f.store, "q", t, c.batch);
    var batch := f'.workers[1].batch;
    forall i | 0 <= i <= j ensures batch[i].id == ids[i] { assert f.store.jobs[ids[i]].id == ids[i]; }
    forall x | x in f'.store.jobs && x != last.id ensures f'.store.jobs[x].status.Done? || HasId(batch, x) {
      if x in early {
        assert x in ids;
        var i :| 0 <= i < |ids| && ids[i] == x;
        assert batch[i].id == x;
      }
    }
  }

  /** Worker 1 gets through the early jobs. */
  lemma {:induction false} EarlyJobsRun(c: Config, f: System, id: int, j: nat, t: int) returns (evs: seq<Event>)
    requires Duel(c, f, id, j, t) && t == c.batch * c.execTimeout
    ensures TimedRun(c, f, evs) && InSpan(evs, t, t) && NoRequeue(evs)
    ensures Duel(c, After(c, f, evs), id, j, t) && |After(c, f, evs).workers[1].batch| == 1
    decreases |f.workers[1].batch|
  {
    hide PromptRun, Settled, Apply, Inv, HasId;
    evs := [];
    if |f.workers[1].batch| > 1 {
      var ev := Settle(1, Succeeded, t);
      OneEarlyRun(c, f, id, j, t);
      var rest := EarlyJobsRun(c, Apply(c, f, ev), id, j, t);
      PrependEvent(c, f, ev, rest, t, t);
      evs := [ev] + rest;
    }
  }

  lemma DuelIsOnTime(c: Config, f: System, id: int, j: nat, t: int, when: int)
    requires Duel(c, f, id, j, t) && t == c.batch * c.execTimeout
    requires when <= t
    ensures OnTime(c, f, when)
  {
    hide Inv, HasId;
    assert f.workers[0].settled + 1 == c.batch;
    forall w | w in f.workers && f.workers[w].batch != []
      ensures when <= f.workers[w].at + (f.workers[w].settled + 1) * c.execTimeout
    {
      Scaled(c.execTimeout, 0, f.workers[w].settled + 1);
    }
  }

  lemma OneEarlyRun(c: Config, f: System, id: int, j: nat, t: int)
    requires Duel(c, f, id, j, t) && t == c.batch * c.execTimeout && |f.workers[1].batch| > 1
    ensures var ev := Settle(1, Succeeded, t);
            && Enabled(f, ev) && OnTime(c, f, t) && Duel(c, Apply(c, f, ev), id, j, t)
            && |Apply(c, f, ev).workers[1].batch| < |f.workers[1].batch|
  {
    hide Inv;
    DuelIsOnTime(c, f, id, j, t, t);
    var ev := Settle(1, Succeeded, t);
    var batch := f.workers[1].batch;
    StepKeeps(f.store, AckOp(batch[0].id));
    var f' := Apply(c, f, ev);
    forall x | x in f'.store.jobs && x != id ensures f'.store.jobs[x].status.Done? || HasId(f'.workers[1].batch, x) {
      if x != batch[0].id && !f.store.jobs[x].status.Done? {
        var i :| 0 <= i < |batch| && batch[i].id == x;
        assert f'.workers[1].batch[i - 1].id == x;
      }
    }
  }

  /** A job that is due alone is what a poll takes. */
  lemma AloneIsTaken(s: Store, id: int, t: int, max: nat)
    requires id in s.jobs && IsDue(s.jobs[id], "q", t) && max >= 1
    requires forall x :: x in s.jobs && x != id ==> !IsDue(s.jobs[x], "q", t)
    ensures id in LeaseIds(s, "q", t, max)
  {
    hide LeaseIds, Ranked, IsDue;
    LeaseIsExact(s, "q", t, max, id);
    assert Ahead(s, "q", t, id) == {};
  }

  /** What a stale worker does to the job: park it, after which an admin requeues it, or put it back to pending. */
  lemma StaleSettleFreesIt(c: Config, f: System, id: int, j: nat, t: int, requeued: bool, when: int)
    returns (evs: seq<Event>)
    requires Duel(c, f, id, j, t) && |f.workers[1].batch| == 1 && t == c.batch * c.execTimeout && 1 <= c.batch
    requires t <= when <= t + (j + 1) * c.execTimeout
    requires if requeued then 0 <= when else Backoff(1, c.backoffBase, c.backoffCap) <= when
    ensures TimedRun(c, f, evs) && InSpan(evs, t, when) && (!requeued ==> NoRequeue(evs))
    ensures RunningTheftIn(c, f, evs, j)
  {
    hide Inv, LeaseIds, Backoff, PromptRun;
    DuelIsOnTime(c, f, id, j, t, t);
    var settle := Settle(0, if requeued then NoHandler else FailedOrTimedOut, t);
    var f1 := Apply(c, f, settle);
    assert OnTime(c, f1, when);
    assert OnTime(c, f1, t);
    var poll := Poll(2, "q", when);
    if requeued {
      var requeue := Requeue(id, t);
      var f2 := Apply(c, f1, requeue);
      assert OnTime(c, f2, when);
      FreedIsTaken(c, f2, id, j, when);
      TakenLast(c, f2, poll, j);
      PrependTheft(c, f1, requeue, [poll], j, t, when);
      PrependTheft(c, f, settle, [requeue, poll], j, t, when);
      assert [settle] + [requeue, poll] == [settle, requeue, poll] && [requeue] + [poll] == [requeue, poll];
      evs := [settle, requeue, poll];
    } else {
      FreedIsTaken(c, f1, id, j, when);
      TakenLast(c, f1, poll, j);
      PrependTheft(c, f, settle, [poll], j, t, when);
      assert [settle] + [poll] == [settle, poll];
      evs := [settle, poll];
    }
  }

  lemma FreedIsTaken(c: Config, f: System, id: int, j: nat, when: int)
    requires 1 in f.workers && RunsAt(f, 1, j) && f.workers[1].batch[0].id == id && |f.workers[1].batch| == 1
    requires id in f.store.jobs && IsDue(f.store.jobs[id], "q", when) && c.batch >= 1
    requires forall x :: x in f.store.jobs && x != id ==> f.store.jobs[x].status.Done?
    ensures TakesRunning(c, f, Poll(2, "q", when), j)
  {
    hide LeaseIds;
    AloneIsTaken(f.store, id, when, c.batch);
  }

  lemma TakenLast(c: Config, f: System, ev: Event, j: nat)
    requires Enabled(f, ev) && OnTime(c, f, ev.when) && TakesRunning(c, f, ev, j)
    ensures TimedRun(c, f, [ev]) && RunningTheftIn(c, f, [ev], j) && InSpan([ev], ev.when, ev.when)
  {
    hide Apply, TakesRunning, OnTime, Enabled;
    assert [ev][1..] == [];
    assert TimedRun(c, Apply(c, f, ev), []);
  }

  lemma PrependTheft(c: Config, f: System, ev: Event, rest: seq<Event>, j: nat, lo: int, hi: int)
    requires Enabled(f, ev) && OnTime(c, f, ev.when) && TimedRun(c, Apply(c, f, ev), rest)
    requires RunningTheftIn(c, Apply(c, f, ev), rest, j)
    requires InSpan(rest, ev.when, hi) && lo <= ev.when <= hi
    ensures TimedRun(c, f, [ev] + rest) && RunningTheftIn(c, f, [ev] + rest, j) && InSpan([ev] + rest, lo, hi)
  {
    hide Apply, TakesRunning, OnTime, Enabled;
    PrependEvent(c, f, ev, rest, lo, hi);
    assert ([ev] + rest)[1..] == rest;
  }

  /** For every lease that does not cover the batch, a run in which the job at position `j` is taken while it runs. */
  lemma StaleRun(c: Config, j: nat, requeued: bool, when: int) returns (evs: seq<Event>)
    requires j < c.batch && !LeaseCoversBatch(c)
    requires c.batch * c.execTimeout <= when <= c.batch * c.execTimeout + (j + 1) * c.execTimeout
    requires requeued || Backoff(1, c.backoffBase, c.backoffCap) <= when
    ensures TimedRun(c, EmptyFleet, evs) && Chronological(evs) && (!requeued ==> NoRequeue(evs))
    ensures RunningTheftIn(c, EmptyFleet, evs, j)
  {
    hide Apply, TimedRun, After, FleetInv, PromptRun, RunningTheftIn, HasId, LeaseIds, Backoff, Working, Primed, Duel,
         TheftIn, OnTime, Enabled;
    var t := c.batch * c.execTimeout;
    var a, last := UpToTheLast(c, c.batch);
    var f1 := After(c, EmptyFleet, a);
    LastIsPrimed(c, f1, last);
    var b := SubmitEarly(c, f1, last, 0, j, t);
    var f2 := After(c, f1, b);
    RunsCompose(c, EmptyFleet, a, b);
    var poll := Poll(1, "q", t);
    DuelBegins(c, f2, last, j, t);
    SingleEvent(c, f2, poll);
    var f3 := After(c, f2, [poll]);
    RunsCompose(c, EmptyFleet, a + b, [poll]);
    var d := EarlyJobsRun(c, f3, last.id, j, t);
    RunsCompose(c, EmptyFleet, a + b + [poll], d);
    var e := StaleSettleFreesIt(c, After(c, f3, d), last.id, j, t, requeued, when);
    TheftLater(c, EmptyFleet, a + b + [poll] + d, e, j);
    evs := a + b + [poll] + d + e;
    SpansJoin(a, b, [poll], d, e, t, when);
  }

  lemma SpansJoin(a: seq<Event>, b: seq<Event>, p: seq<Event>, d: seq<Event>, e: seq<Event>, t: int, when: int)
    requires 0 <= t <= when
    requires InSpan(a, 0, t) && InSpan(b, t, t) && InSpan(p, t, t) && InSpan(d, t, t) && InSpan(e, t, when)
    requires NoRequeue(a + b + p + d)
    ensures Chronological(a + b + p + d + e) && (NoRequeue(e) ==> NoRequeue(a + b + p + d + e))
  {
    JoinSpans(a, b, 0, t, t);
    JoinSpans(a + b, p, 0, t, t);
    JoinSpans(a + b + p, d, 0, t, t);
    JoinSpans(a + b + p + d, e, 0, t, when);
  }

  lemma JoinSpans(a: seq<Event>, b: seq<Event>, lo: int, mid: int, hi: int)
    requires InSpan(a, lo, mid) && InSpan(b, mid, hi) && lo <= mid <= hi
    ensures InSpan(a + b, lo, hi)
    ensures NoRequeue(a) && NoRequeue(b) ==> NoRequeue(a + b)
  {
    forall i | 0 <= i < |a + b| ensures (a + b)[i] == (if i < |a| then a[i] else b[i - |a|]) {}
  }

  lemma SingleEvent(c: Config, f: System, ev: Event)
    requires Enabled(f, ev) && OnTime(c, f, ev.when)
    ensures TimedRun(c, f, [ev]) && After(c, f, [ev]) == Apply(c, f, ev) && InSpan([ev], ev.when, ev.when)
  {
    hide Apply, OnTime, Enabled, PromptRun;
    assert [ev][1..] == [];
    assert TimedRun(c, Apply(c, f, ev), []);
  }

  lemma LastIsPrimed(c: Config, f: System, last: Job)
    requires Working(c, f, c.batch, last) && |f.workers[0].batch| == 1 && IsFiller(last)
    ensures Primed(c, f, last, 0) && OnTime(c, f, c.batch * c.execTimeout)
  {
    hide FleetInv;
    var none: set<int> := {};
    assert EarlyJobs(f, last, none);
  }

  /**
   * Over all runs, exactly: nobody ever takes the job a worker is running at position `j`, for
   * any one position of the batch, if and only if the lease covers the whole batch.
   */
  lemma PositionRuleIsExact(c: Config, j: nat)
    requires j < c.batch
    ensures (forall evs :: TimedRun(c, EmptyFleet, evs) && Chronological(evs) ==>
              !RunningTheftIn(c, EmptyFleet, evs, j))
       <==> LeaseCoversBatch(c)
  {
    hide TimedRun, TheftIn, RunningTheftIn, LeaseCoversBatch, Chronological, FleetInv;
    EmptyIsWaiting(c);
    if LeaseCoversBatch(c) {
      forall evs | TimedRun(c, EmptyFleet, evs) && Chronological(evs) ensures !RunningTheftIn(c, EmptyFleet, evs, j) {
        CoveredRunsAreSafe(c, EmptyFleet, evs);
        if RunningTheftIn(c, EmptyFleet, evs, j) { RunningTheftIsTheft(c, EmptyFleet, evs, j); }
      }
    } else {
      Scaled(c.execTimeout, 0, j + 1);
      var evs := StaleRun(c, j, true, c.batch * c.execTimeout);
    }
  }

  // ---------- without requeues ----------

  /** The shortest retry delay. */
  function FirstBackoff(c: Config): nat { Backoff(1, c.backoffBase, c.backoffCap) }

  /** A stale retry comes due only after everyone who could be running the job is through. */
  predicate RetriesComeLate(c: Config, j: nat) {
    FirstBackoff(c) > c.batch * c.execTimeout + (j + 1) * c.execTimeout
  }

  /** Nobody but the holder can claim the row before its position `j` is over. */
  predicate Guarded(c: Config, row: Job, at: int, j: nat) {
    && (row.status.Pending? ==> row.runAt > at + (j + 1) * c.execTimeout)
    && (row.status.Leased? ==> row.leaseExpires.Some? && row.leaseExpires.value >= at + EffectiveLease(c))
  }

  /** Every held row is guarded; nobody leased in the future. */
  ghost predicate AllGuarded(c: Config, f: System, j: nat, now: int) {
    && Inv(f.store) && BatchSizes(c, f)
    && forall w :: w in f.workers ==> f.workers[w].at <= now && forall i :: 0 <= i < |f.workers[w].batch| ==>
         var job := f.workers[w].batch[i];
         job.id in f.store.jobs && job.attempts >= 1 && Guarded(c, f.store.jobs[job.id], f.workers[w].at, j)
  }

  lemma GuardedIsSafe(c: Config, f: System, ev: Event, j: nat, now: int)
    requires AllGuarded(c, f, j, now) && OnTime(c, f, ev.when) && PositionFits(c, j)
    ensures !TakesRunning(c, f, ev, j)
  {
    hide LeaseIds, Inv, BatchSizes;
    forall w | ev.Poll? && RunsAt(f, w, j)
      ensures f.workers[w].batch[0].id !in LeaseIds(f.store, ev.queue, ev.when, c.batch)
    {
      LeaseIdsAreDue(f.store, ev.queue, ev.when, c.batch);
      var job := f.workers[w].batch[0];
      assert Guarded(c, f.store.jobs[job.id], f.workers[w].at, j);
    }
  }

  lemma PollStaysGuarded(c: Config, f: System, w: int, queue: string, when: int, j: nat, now: int)
    requires AllGuarded(c, f, j, now) && now <= when && Enabled(f, Poll(w, queue, when))
    ensures AllGuarded(c, Apply(c, f, Poll(w, queue, when)), j, when)
  {
    hide LeaseIds, Lease;
    var ids := LeaseIds(f.store, queue, when, c.batch);
    PollBatch(c, f.store, queue, when);
    StepKeeps(f.store, LeaseOp(queue, when, EffectiveLease(c), c.batch));
    var f' := Apply(c, f, Poll(w, queue, when));
    assert Inv(f'.store);
    forall v, i | v in f'.workers && 0 <= i < |f'.workers[v].batch|
      ensures var job := f'.workers[v].batch[i];
              job.id in f'.store.jobs && job.attempts >= 1 && Guarded(c, f'.store.jobs[job.id], f'.workers[v].at, j)
    {
      if v == w {
        assert ids[i] in ids && f.store.jobs[ids[i]].id == ids[i];
      } else {
        var job := f.workers[v].batch[i];
        assert job.id in f.store.jobs && Guarded(c, f.store.jobs[job.id], f.workers[v].at, j);
      }
    }
  }

  /** A retry by whoever holds the job, on time or not, is far enough off. */
  lemma RetryIsLate(c: Config, f: System, w: int, when: int, j: nat)
    requires w in f.workers && f.workers[w].batch != [] && f.workers[w].batch[0].attempts >= 1
    requires BatchSizes(c, f) && OnTime(c, f, when) && RetriesComeLate(c, j)
    ensures var h := f.workers[w];
            h.at + Backoff(h.batch[0].attempts, c.backoffBase, c.backoffCap) > when + (j + 1) * c.execTimeout
  {
    hide Backoff;
    var h := f.workers[w];
    BackoffGrows(1, h.batch[0].attempts, c.backoffBase, c.backoffCap);
    Scaled(c.execTimeout, h.settled + 1, c.batch);
  }

  lemma SettleStaysGuarded(c: Config, f: System, w: int, result: TaskResult, when: int, j: nat, now: int)
    requires AllGuarded(c, f, j, now) && now <= when && Enabled(f, Settle(w, result, when)) && OnTime(c, f, when)
    requires RetriesComeLate(c, j)
    ensures AllGuarded(c, Apply(c, f, Settle(w, result, when)), j, when)
  {
    hide Backoff, RetriesComeLate, OnTime, Inv;
    var h := f.workers[w];
    var x := h.batch[0];
    var f' := Apply(c, f, Settle(w, result, when));
    RetryIsLate(c, f, w, when, j);
    SettleKeepsInv(c, f.store, x, result, h.at);
    forall v, i | v in f'.workers && 0 <= i < |f'.workers[v].batch|
      ensures var job := f'.workers[v].batch[i];
              job.id in f'.store.jobs && job.attempts >= 1 && Guarded(c, f'.store.jobs[job.id], f'.workers[v].at, j)
    {
      var k := if v == w then i + 1 else i;
      var job := f.workers[v].batch[k];
      assert f'.workers[v].batch[i] == job;
      assert job.id in f.store.jobs && Guarded(c, f.store.jobs[job.id], f.workers[v].at, j);
    }
  }

  lemma SettleKeepsInv(c: Config, s: Store, x: Job, result: TaskResult, at: int)
    requires Inv(s)
    ensures Inv(Settled(c, s, x, result, at))
  {
    hide Inv, Backoff;
    StepKeeps(s, DeadLetterOp(x.id));
    StepKeeps(s, AckOp(x.id));
    StepKeeps(s, RetryOp(x.id, at + Backoff(x.attempts, c.backoffBase, c.backoffCap)));
  }

  lemma SubmitStaysGuarded(c: Config, f: System, n: NewJob, when: int, j: nat, now: int)
    requires AllGuarded(c, f, j, now) && now <= when
    ensures AllGuarded(c, Apply(c, f, Submit(n, when)), j, when)
  {
    StepKeeps(f.store, EnqueueOp(n, when));
    assert f.store.nextId !in f.store.jobs;
  }

  lemma {:induction false} GuardedRunsAreSafe(c: Config, f: System, evs: seq<Event>, j: nat, now: int)
    requires AllGuarded(c, f, j, now) && TimedRun(c, f, evs) && Chronological(evs) && NoRequeue(evs)
    requires evs != [] ==> now <= evs[0].when
    requires PositionFits(c, j) && RetriesComeLate(c, j)
    ensures !RunningTheftIn(c, f, evs, j)
    decreases evs
  {
    hide AllGuarded, Apply, OnTime, Enabled, TakesRunning, RetriesComeLate, PositionFits;
    if evs != [] {
      var ev, rest := evs[0], evs[1..];
      GuardedIsSafe(c, f, ev, j, now);
      match ev {
        case Submit(n, when) => SubmitStaysGuarded(c, f, n, when, j, now);
        case Requeue(_, _) => assert false;
        case Poll(w, queue, when) => PollStaysGuarded(c, f, w, queue, when, j, now);
        case Settle(w, result, when) => SettleStaysGuarded(c, f, w, result, when, j, now);
      }
      assert forall i :: 0 <= i < |rest| ==> rest[i] == evs[i + 1];
      GuardedRunsAreSafe(c, Apply(c, f, ev), rest, j, ev.when);
    }
  }

  /**
   * The same for runs in which nobody requeues: position `j` is safe if and only if the lease
   * covers the batch, or covers that position while the shortest backoff outlasts a whole batch
   * and that position after it.
   */
  lemma PositionRuleWithoutRequeues(c: Config, j: nat)
    requires j < c.batch
    ensures (forall evs :: TimedRun(c, EmptyFleet, evs) && Chronological(evs) && NoRequeue(evs) ==>
              !RunningTheftIn(c, EmptyFleet, evs, j))
       <==> LeaseCoversBatch(c) || (PositionFits(c, j) && RetriesComeLate(c, j))
  {
    hide TimedRun, RunningTheftIn, LeaseCoversBatch, Chronological, PositionFits, NoRequeue, AllGuarded;
    if LeaseCoversBatch(c) {
      PositionRuleIsExact(c, j);
    } else if PositionFits(c, j) && RetriesComeLate(c, j) {
      forall evs: seq<Event> | TimedRun(c, EmptyFleet, evs) && Chronological(evs) && NoRequeue(evs)
        ensures !RunningTheftIn(c, EmptyFleet, evs, j)
      {
        NothingToGuard(c, j, if evs == [] then 0 else evs[0].when);
        GuardedRunsAreSafe(c, EmptyFleet, evs, j, if evs == [] then 0 else evs[0].when);
      }
    } else if PositionFits(c, j) {
      var t, b := c.batch * c.execTimeout, FirstBackoff(c);
      Scaled(c.execTimeout, 0, j + 1);
      var evs := StaleRun(c, j, false, if b <= t then t else b);
    } else {
      var evs := UncoveredPositionIsTaken(c, j);
    }
  }

  lemma NothingToGuard(c: Config, j: nat, now: int)
    ensures AllGuarded(c, EmptyFleet, j, now)
  {
  }

  /** The defaults: batches of ten, five minutes each, first retry after a second: no position is safe. */
  lemma NoDefaultPositionIsSafe(j: nat)
    requires j < DefaultConfig.batch
    ensures exists evs :: TimedRun(DefaultConfig, EmptyFleet, evs) && Chronological(evs) && NoRequeue(evs)
                          && RunningTheftIn(DefaultConfig, EmptyFleet, evs, j)
  {
    hide TimedRun, RunningTheftIn, Chronological, NoRequeue;
    PositionRuleWithoutRequeues(DefaultConfig, j);
    DefaultsAndSingles(DefaultConfig);
    BackoffGrows(1, 1, 1_000, 300_000);
  }
}
