/**
 * Any number of workers over one store, each holding a leased batch that it runs and settles
 * one job at a time: attempt budgets, and exactly when a running job can be leased by
 * somebody else.
 */
module Fleet {
  import opened Basics
  import opened JobStore
  import opened JobRuns
  import opened Worker

  /** A worker's unsettled jobs, the instant of their lease, and how many of the batch it has settled. */
  datatype Holder = Holder(batch: seq<Job>, at: int, settled: nat)

  datatype System = System(store: Store, workers: map<int, Holder>)

  datatype Event =
    | Submit(n: NewJob, when: int)
    | Requeue(id: int, when: int)
    | Poll(w: int, queue: string, when: int)
    | Settle(w: int, result: TaskResult, when: int)

  /** Idle workers poll, busy ones settle, and an admin requeues only dead jobs. */
  predicate Enabled(f: System, ev: Event) {
    match ev
    case Submit(_, _) => true
    case Requeue(id, _) => id in f.store.jobs && f.store.jobs[id].status.Dead?
    case Poll(w, _, _) => w in f.workers ==> f.workers[w].batch == []
    case Settle(w, _, _) => w in f.workers && f.workers[w].batch != []
  }

  function Apply(c: Config, f: System, ev: Event): System
    requires Enabled(f, ev)
  {
    match ev
    case Submit(n, when) => f.(store := Enqueue(f.store, n, when).0)
    case Requeue(id, _) => f.(store := RequeueDead(f.store, id))
    case Poll(w, queue, when) =>
      var (s, jobs) := Lease(f.store, queue, when, EffectiveLease(c), c.batch);
      System(s, f.workers[w := Holder(jobs, when, 0)])
    case Settle(w, result, _) =>
      var h := f.workers[w];
      System(Settled(c, f.store, h.batch[0], result, h.at),
             f.workers[w := Holder(h.batch[1..], h.at, h.settled + 1)])
  }

  /** No held lease has expired at `when`. */
  ghost predicate Prompt(f: System, when: int) {
    forall w, i :: w in f.workers && 0 <= i < |f.workers[w].batch| ==>
      f.workers[w].batch[i].leaseExpires.Some? && when <= f.workers[w].batch[i].leaseExpires.value
  }

  /** Every job ends within its execution timeout, so the k-th settles by `at + (k + 1) * exec`. */
  ghost predicate OnTime(c: Config, f: System, when: int) {
    forall w :: w in f.workers && f.workers[w].batch != [] ==>
      when <= f.workers[w].at + (f.workers[w].settled + 1) * c.execTimeout
  }

  // ---------- the invariant ----------

  /** What a worker holds is what the store holds: the row is leased to it, until its lease ends. */
  ghost predicate HoldsRow(c: Config, f: System, w: int, i: int)
    requires w in f.workers && 0 <= i < |f.workers[w].batch|
  {
    var j := f.workers[w].batch[i];
    && j.id in f.store.jobs && f.store.jobs[j.id] == j
    && j.status.Leased? && j.leaseExpires == Some(f.workers[w].at + EffectiveLease(c))
  }

  ghost predicate RowsMatch(c: Config, f: System) {
    forall w, i :: w in f.workers && 0 <= i < |f.workers[w].batch| ==> HoldsRow(c, f, w, i)
  }

  ghost predicate Disjoint(f: System) {
    forall w, i, v, k ::
      (&& w in f.workers && v in f.workers && 0 <= i < |f.workers[w].batch| && 0 <= k < |f.workers[v].batch|
       && f.workers[w].batch[i].id == f.workers[v].batch[k].id)
      ==> w == v && i == k
  }

  ghost predicate HeldBySomeone(f: System, id: int) {
    exists w, i :: w in f.workers && 0 <= i < |f.workers[w].batch| && f.workers[w].batch[i].id == id
  }

  ghost predicate AllLeasedHeld(f: System) {
    forall id :: id in f.store.jobs && f.store.jobs[id].status.Leased? ==> HeldBySomeone(f, id)
  }

  /** One run is always allowed, whatever `max_attempts` says. */
  function Budget(j: Job): nat { Max(1, j.maxAttempts) }

  predicate WithinBudget(j: Job) {
    && j.attempts <= Budget(j)
    && (j.status.Pending? ==> j.attempts < Budget(j))
    && (j.status.Leased? ==> j.attempts >= 1)
  }

  ghost predicate BatchSizes(c: Config, f: System) {
    forall w :: w in f.workers ==> f.workers[w].settled + |f.workers[w].batch| <= c.batch
  }

  ghost predicate FleetInv(c: Config, f: System) {
    && Inv(f.store) && RowsMatch(c, f) && Disjoint(f) && AllLeasedHeld(f) && BatchSizes(c, f)
    && (forall id :: id in f.store.jobs ==> WithinBudget(f.store.jobs[id]))
  }

  const EmptyFleet := System(Empty, map[])

  /** With no expired lease about, a poll claims pending jobs only. */
  lemma PollClaimsPending(c: Config, f: System, queue: string, when: int, id: int)
    requires FleetInv(c, f) && Prompt(f, when)
    requires id in LeaseIds(f.store, queue, when, c.batch)
    ensures id in f.store.jobs && f.store.jobs[id].status.Pending?
  {
    hide LeaseIds, Inv, Disjoint, BatchSizes;
    LeaseIdsAreDue(f.store, queue, when, c.batch);
    if f.store.jobs[id].status.Leased? {
      var w, i :| w in f.workers && 0 <= i < |f.workers[w].batch| && f.workers[w].batch[i].id == id;
      PromptRow(c, f, w, i, when);
      assert false;
    }
  }

  lemma PromptRow(c: Config, f: System, w: int, i: int, when: int)
    requires RowsMatch(c, f) && Prompt(f, when) && w in f.workers && 0 <= i < |f.workers[w].batch|
    ensures var id := f.workers[w].batch[i].id;
            id in f.store.jobs && forall queue :: !IsDue(f.store.jobs[id], queue, when)
  {
    assert HoldsRow(c, f, w, i);
  }

  /** The batch a poll hands out: the claimed rows, in claim order. */
  lemma PollBatch(c: Config, s: Store, queue: string, when: int)
    ensures var ids := LeaseIds(s, queue, when, c.batch);
            var (s', jobs) := Lease(s, queue, when, EffectiveLease(c), c.batch);
            && |jobs| == |ids| <= c.batch
            && s' == s.(jobs := ClaimAll(s.jobs, ids, when, EffectiveLease(c)))
            && (forall i :: 0 <= i < |ids| ==>
                 ids[i] in s.jobs && jobs[i] == Claimed(s.jobs[ids[i]], when, EffectiveLease(c)))
            && (forall i, j :: 0 <= i < j < |ids| ==> ids[i] != ids[j])
  {
    hide Ranked, IsDue;
    LeaseIdsAreDue(s, queue, when, c.batch);
    var ids := LeaseIds(s, queue, when, c.batch);
    forall i | 0 <= i < |ids| ensures ids[i] in s.jobs { assert ids[i] in ids; }
  }

  lemma PollKeeps(c: Config, f: System, w: int, queue: string, when: int)
    requires FleetInv(c, f) && Prompt(f, when) && Enabled(f, Poll(w, queue, when))
    ensures FleetInv(c, Apply(c, f, Poll(w, queue, when)))
  {
    hide LeaseIds, Lease, Prompt;
    var s := f.store;
    var ids := LeaseIds(s, queue, when, c.batch);
    PollBatch(c, s, queue, when);
    var f' := Apply(c, f, Poll(w, queue, when));
    StepKeeps(s, LeaseOp(queue, when, EffectiveLease(c), c.batch));
    assert Inv(f'.store);
    forall id | id in ids ensures id in s.jobs && s.jobs[id].status.Pending? {
      PollClaimsPending(c, f, queue, when, id);
    }
    PollRows(c, f, f', w, ids, when);
  }

  /** The rows and holders after a poll, from what was claimed. */
  lemma PollRows(c: Config, f: System, f': System, w: int, ids: seq<int>, when: int)
    requires RowsMatch(c, f) && Disjoint(f) && AllLeasedHeld(f) && BatchSizes(c, f)
    requires forall id :: id in f.store.jobs ==> f.store.jobs[id].id == id && WithinBudget(f.store.jobs[id])
    requires w in f.workers ==> f.workers[w].batch == []
    requires forall id :: id in ids ==> id in f.store.jobs && f.store.jobs[id].status.Pending?
    requires forall i, j :: 0 <= i < j < |ids| ==> ids[i] != ids[j]
    requires |ids| <= c.batch
    requires f'.store == f.store.(jobs := ClaimAll(f.store.jobs, ids, when, EffectiveLease(c)))
    requires w in f'.workers && f'.workers == f.workers[w := f'.workers[w]]
    requires f'.workers[w].at == when && f'.workers[w].settled == 0 && |f'.workers[w].batch| == |ids|
    requires forall i :: 0 <= i < |ids| ==>
               && ids[i] in f.store.jobs
               && f'.workers[w].batch[i] == Claimed(f.store.jobs[ids[i]], when, EffectiveLease(c))
    ensures RowsMatch(c, f') && Disjoint(f') && AllLeasedHeld(f') && BatchSizes(c, f')
    ensures forall id :: id in f'.store.jobs ==> WithinBudget(f'.store.jobs[id])
  {
    assert f'.store.jobs.Keys == f.store.jobs.Keys;
    forall v, i | v in f'.workers && v != w && 0 <= i < |f'.workers[v].batch|
      ensures HoldsRow(c, f', v, i) && f'.workers[v].batch[i].id !in ids
    {
      assert f'.workers[v] == f.workers[v] && HoldsRow(c, f, v, i);
    }
    forall i | 0 <= i < |ids| ensures HoldsRow(c, f', w, i) && f'.workers[w].batch[i].id == ids[i] {
      var id := ids[i];
      assert id in ids;
      assert f'.store.jobs[id] == Claimed(f.store.jobs[id], when, EffectiveLease(c));
      assert f'.workers[w].batch[i] == f'.store.jobs[id] && f.store.jobs[id].id == id;
    }
    forall v, i, u, k
      | v in f'.workers && u in f'.workers && 0 <= i < |f'.workers[v].batch| && 0 <= k < |f'.workers[u].batch|
        && f'.workers[v].batch[i].id == f'.workers[u].batch[k].id
      ensures v == u && i == k
    {
      if v == w { assert ids[i] in ids; }
      if u == w { assert ids[k] in ids; }
    }
    forall id | id in f'.store.jobs && f'.store.jobs[id].status.Leased? ensures HeldBySomeone(f', id) {
      if id in ids {
        var i :| 0 <= i < |ids| && ids[i] == id;
        assert f'.workers[w].batch[i].id == id;
      } else {
        var v, i :| v in f.workers && 0 <= i < |f.workers[v].batch| && f.workers[v].batch[i].id == id;
        assert v in f'.workers && f'.workers[v].batch[i].id == id;
      }
    }
  }

  /** A change to one row that nobody (else) holds keeps every holder's claim. */
  lemma RowChange(c: Config, f: System, f': System, id: int, j: Job)
    requires Disjoint(f) && AllLeasedHeld(f) && RowsMatch(c, f)
    requires f'.store.jobs == f.store.jobs[id := j] && !j.status.Leased? && WithinBudget(j)
    requires forall x :: x in f.store.jobs ==> WithinBudget(f.store.jobs[x])
    requires f'.workers == f.workers && !HeldBySomeone(f, id)
    ensures RowsMatch(c, f') && Disjoint(f') && AllLeasedHeld(f')
    ensures forall x :: x in f'.store.jobs ==> WithinBudget(f'.store.jobs[x])
  {
    forall v, i | v in f'.workers && 0 <= i < |f'.workers[v].batch| ensures HoldsRow(c, f', v, i) {
      assert HoldsRow(c, f, v, i);
    }
    forall x | x in f'.store.jobs && f'.store.jobs[x].status.Leased? ensures HeldBySomeone(f', x) {
      assert HeldBySomeone(f, x);
    }
  }

  lemma NotHeld(c: Config, f: System, id: int)
    requires RowsMatch(c, f) && (id in f.store.jobs ==> !f.store.jobs[id].status.Leased?)
    ensures !HeldBySomeone(f, id)
  {
    forall w, i | w in f.workers && 0 <= i < |f.workers[w].batch| ensures f.workers[w].batch[i].id != id {
      assert HoldsRow(c, f, w, i);
    }
  }

  lemma SubmitKeeps(c: Config, f: System, n: NewJob, when: int)
    requires FleetInv(c, f)
    ensures FleetInv(c, Apply(c, f, Submit(n, when)))
  {
    var f' := Apply(c, f, Submit(n, when));
    StepKeeps(f.store, EnqueueOp(n, when));
    if f' != f {
      NotHeld(c, f, f.store.nextId);
      RowChange(c, f, f', f.store.nextId, Row(f.store.nextId, n, when));
    }
  }

  lemma RequeueKeeps(c: Config, f: System, id: int, when: int)
    requires FleetInv(c, f) && Enabled(f, Requeue(id, when))
    ensures FleetInv(c, Apply(c, f, Requeue(id, when)))
  {
    var f' := Apply(c, f, Requeue(id, when));
    StepKeeps(f.store, RequeueOp(id));
    NotHeld(c, f, id);
    RowChange(c, f, f', id, f'.store.jobs[id]);
  }

  /** The row a settled job ends up with. */
  lemma SettledRow(c: Config, s: Store, j: Job, result: TaskResult, now: int)
    requires Inv(s) && j.id in s.jobs && s.jobs[j.id] == j && j.status.Leased? && WithinBudget(j)
    ensures var s' := Settled(c, s, j, result, now);
            && Inv(s') && s'.jobs == s.jobs[j.id := s'.jobs[j.id]]
            && !s'.jobs[j.id].status.Leased? && WithinBudget(s'.jobs[j.id])
  {
    hide Backoff, Inv;
    match result
    case NoHandler => StepKeeps(s, DeadLetterOp(j.id));
    case Succeeded => StepKeeps(s, AckOp(j.id));
    case FailedOrTimedOut =>
      if j.attempts >= j.maxAttempts {
        StepKeeps(s, DeadLetterOp(j.id));
      } else {
        StepKeeps(s, RetryOp(j.id, now + Backoff(j.attempts, c.backoffBase, c.backoffCap)));
      }
  }

  lemma SettleKeeps(c: Config, f: System, w: int, result: TaskResult, when: int)
    requires FleetInv(c, f) && Enabled(f, Settle(w, result, when))
    ensures FleetInv(c, Apply(c, f, Settle(w, result, when)))
  {
    hide Settled, Inv, WithinBudget;
    var h := f.workers[w];
    var j := h.batch[0];
    assert HoldsRow(c, f, w, 0);
    SettledRow(c, f.store, j, result, h.at);
    var f' := Apply(c, f, Settle(w, result, when));
    var mid := f.(workers := f'.workers);
    DropFirst(c, f, mid, w);
    RowChangeAfterDrop(c, mid, f', j.id, f'.store.jobs[j.id]);
  }

  /** Letting go of the first job: it alone may now be leased and unheld. */
  lemma DropFirst(c: Config, f: System, mid: System, w: int)
    requires RowsMatch(c, f) && Disjoint(f) && AllLeasedHeld(f) && BatchSizes(c, f)
    requires w in f.workers && f.workers[w].batch != []
    requires mid.store == f.store
    requires mid.workers == f.workers[w := Holder(f.workers[w].batch[1..], f.workers[w].at, f.workers[w].settled + 1)]
    ensures RowsMatch(c, mid) && Disjoint(mid) && BatchSizes(c, mid)
    ensures var id := f.workers[w].batch[0].id;
            && !HeldBySomeone(mid, id)
            && forall x :: x in mid.store.jobs && mid.store.jobs[x].status.Leased? && x != id ==> HeldBySomeone(mid, x)
  {
    var id := f.workers[w].batch[0].id;
    forall v, i | v in mid.workers && 0 <= i < |mid.workers[v].batch|
      ensures HoldsRow(c, mid, v, i) && mid.workers[v].batch[i].id != id
    {
      var k := if v == w then i + 1 else i;
      assert mid.workers[v].batch[i] == f.workers[v].batch[k] && HoldsRow(c, f, v, k);
    }
    forall v, i, u, k
      | v in mid.workers && u in mid.workers && 0 <= i < |mid.workers[v].batch| && 0 <= k < |mid.workers[u].batch|
        && mid.workers[v].batch[i].id == mid.workers[u].batch[k].id
      ensures v == u && i == k
    {
      var i', k' := if v == w then i + 1 else i, if u == w then k + 1 else k;
      assert f.workers[v].batch[i'].id == f.workers[u].batch[k'].id;
    }
    forall x | x in mid.store.jobs && mid.store.jobs[x].status.Leased? && x != id ensures HeldBySomeone(mid, x) {
      var v, i :| v in f.workers && 0 <= i < |f.workers[v].batch| && f.workers[v].batch[i].id == x;
      var k := if v == w then i - 1 else i;
      assert v in mid.workers && 0 <= k < |mid.workers[v].batch| && mid.workers[v].batch[k].id == x;
    }
  }

  lemma RowChangeAfterDrop(c: Config, f: System, f': System, id: int, j: Job)
    requires Disjoint(f) && RowsMatch(c, f) && BatchSizes(c, f)
    requires forall x :: x in f.store.jobs && f.store.jobs[x].status.Leased? && x != id ==> HeldBySomeone(f, x)
    requires f'.store.jobs == f.store.jobs[id := j] && !j.status.Leased? && WithinBudget(j)
    requires forall x :: x in f.store.jobs ==> WithinBudget(f.store.jobs[x])
    requires f'.workers == f.workers && !HeldBySomeone(f, id)
    ensures RowsMatch(c, f') && Disjoint(f') && AllLeasedHeld(f') && BatchSizes(c, f')
    ensures forall x :: x in f'.store.jobs ==> WithinBudget(f'.store.jobs[x])
  {
    forall v, i | v in f'.workers && 0 <= i < |f'.workers[v].batch| ensures HoldsRow(c, f', v, i) {
      assert HoldsRow(c, f, v, i);
    }
    forall x | x in f'.store.jobs && f'.store.jobs[x].status.Leased? ensures HeldBySomeone(f', x) {
      assert HeldBySomeone(f, x);
    }
  }

  lemma EventKeeps(c: Config, f: System, ev: Event)
    requires FleetInv(c, f) && Enabled(f, ev) && Prompt(f, ev.when)
    ensures FleetInv(c, Apply(c, f, ev))
  {
    hide FleetInv, Apply, Prompt;
    match ev
    case Submit(n, when) => SubmitKeeps(c, f, n, when);
    case Requeue(id, when) => RequeueKeeps(c, f, id, when);
    case Poll(w, queue, when) => PollKeeps(c, f, w, queue, when);
    case Settle(w, result, when) => SettleKeeps(c, f, w, result, when);
  }

  // ---------- whole runs ----------

  /** Events that can happen in this order, each before any held lease has expired. */
  ghost predicate PromptRun(c: Config, f: System, evs: seq<Event>)
    decreases evs
  {
    evs == [] || (Enabled(f, evs[0]) && Prompt(f, evs[0].when) && PromptRun(c, Apply(c, f, evs[0]), evs[1..]))
  }

  /** Events that can happen in this order in a fleet whose jobs all end within their timeout. */
  ghost predicate TimedRun(c: Config, f: System, evs: seq<Event>)
    decreases evs
  {
    evs == [] || (Enabled(f, evs[0]) && OnTime(c, f, evs[0].when) && TimedRun(c, Apply(c, f, evs[0]), evs[1..]))
  }

  ghost function After(c: Config, f: System, evs: seq<Event>): System
    requires PromptRun(c, f, evs) || TimedRun(c, f, evs)
    decreases evs
  {
    if evs == [] then f else After(c, Apply(c, f, evs[0]), evs[1..])
  }

  /**
   * The attempt budget, over every run in which leases are settled before they expire: no job
   * is ever started more than max(1, max_attempts) times per requeue, and a job waiting to run
   * always has a run left.
   */
  lemma {:induction false} AttemptBudget(c: Config, f: System, evs: seq<Event>)
    requires FleetInv(c, f) && PromptRun(c, f, evs)
    ensures FleetInv(c, After(c, f, evs))
    ensures forall id :: id in After(c, f, evs).store.jobs ==>
              var j := After(c, f, evs).store.jobs[id];
              j.attempts <= Budget(j) && (j.status.Pending? ==> j.attempts < Budget(j))
    decreases evs
  {
    hide Apply, Prompt, Enabled;
    if evs != [] {
      EventKeeps(c, f, evs[0]);
      AttemptBudget(c, Apply(c, f, evs[0]), evs[1..]);
    }
  }

  /** A settled job is done exactly on success, dead exactly without a handler or a run left; no other row changes. */
  lemma SettledExactly(c: Config, f: System, w: int, result: TaskResult, when: int)
    requires FleetInv(c, f) && Enabled(f, Settle(w, result, when))
    ensures var j := f.workers[w].batch[0];
            var jobs := Apply(c, f, Settle(w, result, when)).store.jobs;
            && j.id in jobs && jobs == f.store.jobs[j.id := jobs[j.id]]
            && (jobs[j.id].status.Done? <==> result.Succeeded?)
            && (jobs[j.id].status.Dead? <==> result.NoHandler? || (result.FailedOrTimedOut? && j.attempts == Budget(j)))
            && !jobs[j.id].status.Leased?
  {
    hide Backoff, Inv, Disjoint, AllLeasedHeld;
    assert HoldsRow(c, f, w, 0);
    assert WithinBudget(f.workers[w].batch[0]);
  }

  /**
   * A failing run: the job is parked as dead exactly when this run used up the budget, and
   * otherwise waits for the backoff of its attempt count, counted from the tick.
   */
  lemma FailureIsBudgeted(c: Config, f: System, w: int, when: int)
    requires FleetInv(c, f) && Enabled(f, Settle(w, FailedOrTimedOut, when))
    ensures var h := f.workers[w];
            var j := h.batch[0];
            var jobs := Apply(c, f, Settle(w, FailedOrTimedOut, when)).store.jobs;
            j.id in jobs &&
            var row := jobs[j.id];
            && (row.status.Dead? <==> j.attempts == Budget(j))
            && (!row.status.Dead? ==>
                 row.status.Pending? && row.runAt == h.at + Backoff(j.attempts, c.backoffBase, c.backoffCap))
            && row.attempts == j.attempts
  {
    hide Backoff, Inv, Disjoint, AllLeasedHeld;
    assert HoldsRow(c, f, w, 0);
    assert WithinBudget(f.workers[w].batch[0]);
  }

  // ---------- a job that always fails ----------

  /** `ev` neither requeues `id` nor lets a run of it end in anything but failure. */
  predicate OnlyFails(f: System, ev: Event, id: int)
    requires Enabled(f, ev)
  {
    && (ev.Requeue? ==> ev.id != id)
    && (ev.Settle? && f.workers[ev.w].batch[0].id == id ==> ev.result == FailedOrTimedOut)
  }

  ghost predicate AlwaysFails(c: Config, f: System, evs: seq<Event>, id: int)
    requires PromptRun(c, f, evs)
    decreases evs
  {
    evs == [] || (OnlyFails(f, evs[0], id) && AlwaysFails(c, Apply(c, f, evs[0]), evs[1..], id))
  }

  /** How often a run starts `id`. */
  ghost function Starts(c: Config, f: System, evs: seq<Event>, id: int): nat
    requires PromptRun(c, f, evs)
    decreases evs
  {
    if evs == [] then 0
    else (if evs[0].Poll? && id in LeaseIds(f.store, evs[0].queue, evs[0].when, c.batch) then 1 else 0)
         + Starts(c, Apply(c, f, evs[0]), evs[1..], id)
  }

  /** Not done, and dead only once the budget is spent. */
  predicate FailingRow(j: Job) { !j.status.Done? && (j.status.Dead? ==> j.attempts == Budget(j)) }

  lemma FailingStep(c: Config, f: System, ev: Event, id: int)
    requires FleetInv(c, f) && Enabled(f, ev) && Prompt(f, ev.when) && OnlyFails(f, ev, id)
    requires id in f.store.jobs && FailingRow(f.store.jobs[id])
    ensures var jobs := Apply(c, f, ev).store.jobs;
            && id in jobs && FailingRow(jobs[id]) && Budget(jobs[id]) == Budget(f.store.jobs[id])
            && jobs[id].attempts == f.store.jobs[id].attempts
               + (if ev.Poll? && id in LeaseIds(f.store, ev.queue, ev.when, c.batch) then 1 else 0)
  {
    hide Backoff, LeaseIds, Lease, Prompt, Disjoint, AllLeasedHeld, BatchSizes;
    match ev
    case Submit(n, when) =>
    case Requeue(x, _) =>
    case Poll(w, queue, when) =>
      PollBatch(c, f.store, queue, when);
      var ids := LeaseIds(f.store, queue, when, c.batch);
      if id in ids { PollClaimsPending(c, f, queue, when, id); }
    case Settle(w, result, when) =>
      assert HoldsRow(c, f, w, 0);
      if f.workers[w].batch[0].id == id { assert WithinBudget(f.workers[w].batch[0]); }
  }

  /**
   * A fresh job that always fails is dead-lettered at exactly its max(1, max_attempts)-th run:
   * not running, it is dead if and only if it was started that often, and never more often.
   */
  lemma {:induction false} DeadAtExactlyTheBudget(c: Config, f: System, evs: seq<Event>, id: int)
    requires FleetInv(c, f) && PromptRun(c, f, evs) && AlwaysFails(c, f, evs, id)
    requires id in f.store.jobs && FailingRow(f.store.jobs[id])
    ensures var jobs := After(c, f, evs).store.jobs;
            && id in jobs
            && jobs[id].attempts == f.store.jobs[id].attempts + Starts(c, f, evs, id) <= Budget(f.store.jobs[id])
            && (!jobs[id].status.Leased? ==> (jobs[id].status.Dead? <==> jobs[id].attempts == Budget(f.store.jobs[id])))
    decreases evs
  {
    hide Apply, Prompt, Enabled, LeaseIds, RowsMatch, Disjoint, AllLeasedHeld, BatchSizes, OnlyFails;
    if evs != [] {
      FailingStep(c, f, evs[0], id);
      EventKeeps(c, f, evs[0]);
      DeadAtExactlyTheBudget(c, Apply(c, f, evs[0]), evs[1..], id);
    } else {
      assert WithinBudget(f.store.jobs[id]);
    }
  }

  /** The delays a run gives `id` before its next start, in order. */
  ghost function Delays(c: Config, f: System, evs: seq<Event>, id: int): seq<nat>
    requires PromptRun(c, f, evs)
    decreases evs
  {
    if evs == [] then []
    else
      (if RetriesIt(f, evs[0], id) then [RetryDelay(c, f, evs[0])] else [])
      + Delays(c, Apply(c, f, evs[0]), evs[1..], id)
  }

  /** The event settles a failing run of `id` that still has attempts left. */
  predicate RetriesIt(f: System, ev: Event, id: int)
    requires Enabled(f, ev)
  {
    && ev.Settle? && ev.result == FailedOrTimedOut && f.workers[ev.w].batch[0].id == id
    && f.workers[ev.w].batch[0].attempts < f.workers[ev.w].batch[0].maxAttempts
  }

  function RetryDelay(c: Config, f: System, ev: Event): nat
    requires Enabled(f, ev) && ev.Settle?
  {
    Backoff(f.workers[ev.w].batch[0].attempts, c.backoffBase, c.backoffCap)
  }

  /** A retried job waits exactly that delay, counted from the tick that leased it. */
  lemma DelayIsWaited(c: Config, f: System, ev: Event, id: int)
    requires FleetInv(c, f) && Enabled(f, ev) && RetriesIt(f, ev, id)
    ensures var jobs := Apply(c, f, ev).store.jobs;
            id in jobs && jobs[id].status.Pending? && jobs[id].runAt == f.workers[ev.w].at + RetryDelay(c, f, ev)
  {
    hide Backoff, Inv, Disjoint, AllLeasedHeld, BatchSizes;
    assert HoldsRow(c, f, ev.w, 0);
  }

  predicate Rising(xs: seq<nat>, lo: nat, hi: nat) {
    && (forall i :: 0 <= i < |xs| ==> lo <= xs[i] <= hi)
    && forall i, j :: 0 <= i < j < |xs| ==> xs[i] <= xs[j]
  }

  /** Over every prompt run, the delays of a job that keeps failing never shrink and never exceed the cap. */
  lemma {:induction false} DelaysRise(c: Config, f: System, evs: seq<Event>, id: int)
    requires FleetInv(c, f) && PromptRun(c, f, evs) && AlwaysFails(c, f, evs, id)
    requires id in f.store.jobs && FailingRow(f.store.jobs[id])
    ensures Rising(Delays(c, f, evs, id), Backoff(f.store.jobs[id].attempts, c.backoffBase, c.backoffCap), c.backoffCap)
    decreases evs
  {
    hide Apply, Prompt, Enabled, LeaseIds, RowsMatch, Disjoint, AllLeasedHeld, BatchSizes, OnlyFails, Backoff,
         RetriesIt;
    if evs != [] {
      var f', before := Apply(c, f, evs[0]), f.store.jobs[id].attempts;
      FailingStep(c, f, evs[0], id);
      EventKeeps(c, f, evs[0]);
      DelaysRise(c, f', evs[1..], id);
      BackoffGrows(before, f'.store.jobs[id].attempts, c.backoffBase, c.backoffCap);
      if RetriesIt(f, evs[0], id) { DelayOfRow(c, f, evs[0], id); }
    }
  }

  lemma DelayOfRow(c: Config, f: System, ev: Event, id: int)
    requires FleetInv(c, f) && Enabled(f, ev) && RetriesIt(f, ev, id)
    ensures id in f.store.jobs
    ensures RetryDelay(c, f, ev) == Backoff(f.store.jobs[id].attempts, c.backoffBase, c.backoffCap)
    ensures Apply(c, f, ev).store.jobs[id].attempts == f.store.jobs[id].attempts
    ensures ev.Settle?
  {
    hide Backoff, Inv, Disjoint, AllLeasedHeld, BatchSizes;
    assert HoldsRow(c, f, ev.w, 0);
  }

  // ---------- running jobs and other workers ----------

  /** A poll that takes a job some worker still holds. */
  ghost predicate Steals(c: Config, f: System, ev: Event) {
    ev.Poll? && exists id :: id in LeaseIds(f.store, ev.queue, ev.when, c.batch) && HeldBySomeone(f, id)
  }

  /** Somewhere in the run a held job is taken. */
  ghost predicate TheftIn(c: Config, f: System, evs: seq<Event>)
    requires TimedRun(c, f, evs)
    decreases evs
  {
    evs != [] && (Steals(c, f, evs[0]) || TheftIn(c, Apply(c, f, evs[0]), evs[1..]))
  }

  /** A whole batch of jobs that each run to their timeout ends within the lease, or within one timeout. */
  predicate LeaseCoversBatch(c: Config) {
    c.batch * c.execTimeout <= c.leaseDuration || c.batch * c.execTimeout <= c.execTimeout
  }

  lemma OnTimeIsPrompt(c: Config, f: System, when: int)
    requires FleetInv(c, f) && LeaseCoversBatch(c) && OnTime(c, f, when)
    ensures Prompt(f, when)
  {
    hide Inv, Disjoint, AllLeasedHeld;
    forall w, i | w in f.workers && 0 <= i < |f.workers[w].batch|
      ensures f.workers[w].batch[i].leaseExpires.Some? && when <= f.workers[w].batch[i].leaseExpires.value
    {
      assert HoldsRow(c, f, w, i);
      var h := f.workers[w];
      Scaled(c.execTimeout, h.settled + 1, c.batch);
    }
  }

  lemma NoStealing(c: Config, f: System, ev: Event)
    requires FleetInv(c, f) && Prompt(f, ev.when)
    ensures !Steals(c, f, ev)
  {
    hide LeaseIds, Inv, Disjoint, BatchSizes;
    if Steals(c, f, ev) {
      var id :| id in LeaseIds(f.store, ev.queue, ev.when, c.batch) && HeldBySomeone(f, id);
      PollClaimsPending(c, f, ev.queue, ev.when, id);
      NotHeld(c, f, id);
    }
  }

  lemma {:induction false} CoveredRunsAreSafe(c: Config, f: System, evs: seq<Event>)
    requires FleetInv(c, f) && LeaseCoversBatch(c) && TimedRun(c, f, evs)
    ensures !TheftIn(c, f, evs)
    decreases evs
  {
    hide FleetInv, Apply, OnTime, Enabled, Steals, LeaseCoversBatch, Prompt;
    if evs != [] {
      OnTimeIsPrompt(c, f, evs[0].when);
      NoStealing(c, f, evs[0]);
      EventKeeps(c, f, evs[0]);
      CoveredRunsAreSafe(c, Apply(c, f, evs[0]), evs[1..]);
    }
  }
}
