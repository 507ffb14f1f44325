/**
 * Safety of the job store over whole runs of its operations, in any order, at any times,
 * by any callers.
 */
module JobRuns {
  import opened Basics
  import opened JobStore

  datatype Op =
    | EnqueueOp(n: NewJob, now: int)
    | LeaseOp(queue: string, now: int, lease: int, max: nat)
    | AckOp(id: int)
    | RetryOp(id: int, until: int)
    | DeadLetterOp(id: int)
    | RequeueOp(id: int)

  function Step(s: Store, op: Op): Store {
    match op
    case EnqueueOp(n, now) => Enqueue(s, n, now).0
    case LeaseOp(queue, now, lease, max) => Lease(s, queue, now, lease, max).0
    case AckOp(id) => Ack(s, id)
    case RetryOp(id, until) => Retry(s, id, until)
    case DeadLetterOp(id) => DeadLetter(s, id)
    case RequeueOp(id) => RequeueDead(s, id)
  }

  function Run(s: Store, ops: seq<Op>): Store
    decreases ops
  {
    if ops == [] then s else Run(Step(s, ops[0]), ops[1..])
  }

  /** `op`, executed in `s`, returns job `id` to a worker. */
  predicate Claims(s: Store, op: Op, id: int) {
    op.LeaseOp? && id in LeaseIds(s, op.queue, op.now, op.max)
  }

  // ---------- what every operation keeps ----------

  /**
   * Rows sit under their own id, below the counter; a leased row has an expiry; and the key map
   * is exactly the inverse of the rows' keys, so no key names two jobs.
   */
  ghost predicate Inv(s: Store) {
    && (forall id :: id in s.jobs ==> s.jobs[id].id == id && id < s.nextId)
    && (forall id :: id in s.jobs && s.jobs[id].status.Leased? ==> s.jobs[id].leaseExpires.Some?)
    && (forall k :: k in s.keys ==> s.keys[k] in s.jobs && s.jobs[s.keys[k]].key == Some(k))
    && (forall id :: id in s.jobs && s.jobs[id].key.Some? ==>
          s.jobs[id].key.value in s.keys && s.keys[s.jobs[id].key.value] == id)
  }

  /** What a row never changes. */
  predicate SameIdentity(a: Job, b: Job) {
    && a.id == b.id && a.name == b.name && a.queue == b.queue && a.payload == b.payload
    && a.maxAttempts == b.maxAttempts && a.key == b.key && a.createdAt == b.createdAt
  }

  /** Nothing is lost: no job disappears or changes identity, no key is forgotten or moved. */
  ghost predicate Keeps(s: Store, s': Store) {
    && (forall id :: id in s.jobs ==> id in s'.jobs && SameIdentity(s.jobs[id], s'.jobs[id]))
    && (forall k :: k in s.keys ==> k in s'.keys && s'.keys[k] == s.keys[k])
    && s.nextId <= s'.nextId
  }

  lemma ClaimKeeps(s: Store, ids: seq<int>, now: int, lease: int)
    requires Inv(s)
    ensures var s' := s.(jobs := ClaimAll(s.jobs, ids, now, lease)); Inv(s') && Keeps(s, s')
  {
    var s' := s.(jobs := ClaimAll(s.jobs, ids, now, lease));
    assert s'.jobs.Keys == s.jobs.Keys;
    assert forall id :: id in s.jobs ==> SameIdentity(s.jobs[id], s'.jobs[id]);
  }

  lemma StepKeeps(s: Store, op: Op)
    requires Inv(s)
    ensures Inv(Step(s, op)) && Keeps(s, Step(s, op))
  {
    hide LeaseIds, Ranked, ClaimAll, Enqueue, Inv, Keeps, Update;
    match op
    case EnqueueOp(n, now) => EnqueueKeeps(s, n, now);
    case LeaseOp(queue, now, lease, max) => ClaimKeeps(s, LeaseIds(s, queue, now, max), now, lease);
    case AckOp(id) => if id in s.jobs { UpdateKeeps(s, id, s.jobs[id].(status := Done)); } else { SameKeeps(s); }
    case RetryOp(id, until) =>
      if id in s.jobs {
        UpdateKeeps(s, id, s.jobs[id].(status := Pending, runAt := until, leaseExpires := None));
      } else {
        SameKeeps(s);
      }
    case DeadLetterOp(id) => if id in s.jobs { UpdateKeeps(s, id, s.jobs[id].(status := Dead)); } else { SameKeeps(s); }
    case RequeueOp(id) =>
      if id in s.jobs {
        UpdateKeeps(s, id, s.jobs[id].(status := Pending, runAt := 0, attempts := 0, leaseExpires := None));
      }
      else { SameKeeps(s); }
  }

  lemma SameKeeps(s: Store)
    ensures Keeps(s, s)
  {
  }

  lemma EnqueueKeeps(s: Store, n: NewJob, now: int)
    requires Inv(s)
    ensures Inv(Enqueue(s, n, now).0) && Keeps(s, Enqueue(s, n, now).0)
  {
    assert s.nextId !in s.jobs;
  }

  /** Rewriting a row that keeps its identity and is not left leased. */
  lemma UpdateKeeps(s: Store, id: int, j: Job)
    requires Inv(s) && id in s.jobs && SameIdentity(s.jobs[id], j) && !j.status.Leased?
    ensures Inv(Update(s, id, j)) && Keeps(s, Update(s, id, j))
  {
  }

  /** Over every run: the invariant holds, and no job, identity or key is ever lost. */
  lemma {:induction false} NothingIsLost(s: Store, ops: seq<Op>)
    requires Inv(s)
    ensures Inv(Run(s, ops)) && Keeps(s, Run(s, ops))
    decreases ops
  {
    hide Step, Inv;
    if ops != [] {
      StepKeeps(s, ops[0]);
      NothingIsLost(Step(s, ops[0]), ops[1..]);
    }
  }

  /** An idempotency key names at most one job, in every reachable state. */
  lemma OneJobPerKey(ops: seq<Op>, a: int, b: int)
    requires a in Run(Empty, ops).jobs && b in Run(Empty, ops).jobs
    requires Run(Empty, ops).jobs[a].key.Some? && Run(Empty, ops).jobs[a].key == Run(Empty, ops).jobs[b].key
    ensures a == b
  {
    hide Run;
    NothingIsLost(Empty, ops);
  }

  // ---------- exclusivity ----------

  /** `id` cannot be claimed at or before `e`. */
  ghost predicate Held(s: Store, id: int, e: int) {
    && id in s.jobs
    && (s.jobs[id].status.Leased? ==> s.jobs[id].leaseExpires.Some? && s.jobs[id].leaseExpires.value >= e)
    && !s.jobs[id].status.Pending?
  }

  /** An operation that neither retries nor requeues `id`, and leases only up to time `e`. */
  predicate Respects(op: Op, id: int, e: int) {
    && (op.RetryOp? || op.RequeueOp? ==> op.id != id)
    && (op.LeaseOp? ==> op.now <= e)
  }

  lemma HeldStays(s: Store, op: Op, id: int, e: int)
    requires Held(s, id, e) && Respects(op, id, e) && Inv(s)
    ensures !Claims(s, op, id) && Held(Step(s, op), id, e)
  {
    hide LeaseIds, Ranked;
    if op.LeaseOp? {
      LeaseIdsAreDue(s, op.queue, op.now, op.max);
      var ids := LeaseIds(s, op.queue, op.now, op.max);
      assert Step(s, op).jobs == ClaimAll(s.jobs, ids, op.now, op.lease);
    }
  }

  lemma {:induction false} HeldOverRuns(s: Store, ops: seq<Op>, id: int, e: int, i: nat)
    requires Held(s, id, e) && Inv(s) && i < |ops|
    requires forall op :: op in ops ==> Respects(op, id, e)
    ensures !Claims(Run(s, ops[..i]), ops[i], id)
    decreases ops
  {
    hide Step, Inv, Held, Claims, Respects;
    assert ops[0] in ops && forall op :: op in ops[1..] ==> op in ops;
    HeldStays(s, ops[0], id, e);
    if i == 0 {
      assert Run(s, ops[..0]) == s;
    } else {
      StepKeeps(s, ops[0]);
      HeldOverRuns(Step(s, ops[0]), ops[1..], id, e, i - 1);
      assert ops[..i][0] == ops[0] && ops[..i][1..] == ops[1..][..i - 1];
    }
  }

  /**
   * Lease exclusivity: a job leased at `t` for `d` is returned by no lease at a time up to
   * `t + d`, in any run in which nobody retries or requeues it.
   */
  lemma LeaseExclusivity(s: Store, queue: string, t: int, d: int, max: nat, id: int, ops: seq<Op>, i: nat)
    requires Inv(s) && Claims(s, LeaseOp(queue, t, d, max), id) && i < |ops|
    requires forall op :: op in ops ==> Respects(op, id, t + d)
    ensures !Claims(Run(Step(s, LeaseOp(queue, t, d, max)), ops[..i]), ops[i], id)
  {
    hide Run, Inv, Respects, LeaseIds;
    var op := LeaseOp(queue, t, d, max);
    LeaseIdsAreDue(s, queue, t, max);
    StepKeeps(s, op);
    assert Step(s, op).jobs == ClaimAll(s.jobs, LeaseIds(s, queue, t, max), t, d);
    HeldOverRuns(Step(s, op), ops, id, t + d, i);
  }

  // ---------- progress ----------

  /** The first instant at which an unfinished job can be claimed. */
  function ReadyAt(j: Job): int
    requires j.status.Pending? || (j.status.Leased? && j.leaseExpires.Some?)
  {
    if j.status.Pending? then j.runAt else j.leaseExpires.value + 1
  }

  /**
   * No job gets stuck: a pending or leased job is claimed by a lease on its queue exactly when
   * its instant has come and fewer than `max` due jobs come first; a wide enough lease always
   * gets it.
   */
  lemma AlwaysClaimable(s: Store, id: int, now: int, max: nat)
    requires Inv(s) && id in s.jobs && (s.jobs[id].status.Pending? || s.jobs[id].status.Leased?)
    ensures id in LeaseIds(s, s.jobs[id].queue, now, max) <==>
            ReadyAt(s.jobs[id]) <= now && |Ahead(s, s.jobs[id].queue, now, id)| < max
    ensures ReadyAt(s.jobs[id]) <= now && max >= |s.jobs| ==> id in LeaseIds(s, s.jobs[id].queue, now, max)
  {
    hide LeaseIds, Ranked;
    var queue := s.jobs[id].queue;
    LeaseIsExact(s, queue, now, max, id);
    var ahead := Ahead(s, queue, now, id);
    assert ahead <= s.jobs.Keys - {id};
    Subset(ahead, s.jobs.Keys - {id});
  }

  lemma {:induction false} Subset<T>(a: set<T>, b: set<T>)
    requires a <= b
    ensures |a| <= |b|
  {
    if a != {} {
      var x := Member(a);
      Subset(a - {x}, b - {x});
    }
  }

  /** Waiting and due, or leased and expired. */
  predicate Ready(j: Job, now: int) {
    || (j.status.Pending? && j.runAt <= now)
    || (j.status.Leased? && j.leaseExpires.Some? && j.leaseExpires.value < now)
  }

  predicate ComesBefore(a: Job, b: Job) { a.runAt < b.runAt || (a.runAt == b.runAt && a.id < b.id) }

  /**
   * What a lease takes, row by row: ready jobs of its queue only, each once, at most `max`, by
   * (run_at, id); and a ready job of the queue is left behind only if `max` others come before it.
   */
  lemma LeaseTakesTheFirst(s: Store, queue: string, now: int, max: nat)
    requires Inv(s)
    ensures var ids := LeaseIds(s, queue, now, max);
            && |ids| <= max
            && (forall i :: 0 <= i < |ids| ==>
                 ids[i] in s.jobs && s.jobs[ids[i]].queue == queue && Ready(s.jobs[ids[i]], now))
            && (forall i, j :: 0 <= i < j < |ids| ==> ComesBefore(s.jobs[ids[i]], s.jobs[ids[j]]))
            && forall x :: x in s.jobs && s.jobs[x].queue == queue && Ready(s.jobs[x], now) && x !in ids ==>
                 |ids| == max && forall i :: 0 <= i < |ids| ==> ComesBefore(s.jobs[ids[i]], s.jobs[x])
  {
    hide Ranked;
    var due := DueIds(s, queue, now);
    var r, ids := Ranked(s.jobs, due), LeaseIds(s, queue, now, max);
    RankedMeaning(s.jobs, due);
    forall i | 0 <= i < |r| ensures r[i] in due { assert r[i] in r; }
    forall x | x in due && x !in ids
      ensures |ids| == max && forall i :: 0 <= i < |ids| ==> ComesBefore(s.jobs[ids[i]], s.jobs[x])
    {
      var k :| 0 <= k < |r| && r[k] == x;
      TakeHas(r, max, k);
      assert forall i :: 0 <= i < |ids| ==> ids[i] == r[i] && Earlier(s.jobs, r[i], r[k]);
    }
  }

  lemma TakeHas<T>(s: seq<T>, n: nat, k: nat)
    ensures k < n && k < |s| ==> s[k] in Take(s, n)
  {
    if k < n && k < |s| { assert Take(s, n)[k] == s[k]; }
  }

  /**
   * A job handed in and a lease wide enough for everything: it is leased, once its time has come,
   * with what it was handed in with, on its first attempt, and until the lease is over.
   */
  lemma EnqueuedIsLeased(s: Store, n: NewJob, now: int, queue: string, t: int, lease: int, max: nat)
    requires Inv(s) && (n.key.Some? ==> n.key.value !in s.keys) && max > |s.jobs|
    ensures var s1 := Enqueue(s, n, now).0;
            var id := s.nextId;
            var due := if n.runAt.Some? then n.runAt.value else now;
            && (id in LeaseIds(s1, queue, t, max) <==> queue == n.queue && due <= t)
            && (id in LeaseIds(s1, queue, t, max) ==>
                 id in Lease(s1, queue, t, lease, max).0.jobs
                 && Lease(s1, queue, t, lease, max).0.jobs[id]
                    == Job(id, n.name, n.queue, n.payload, due, 1,
                           if n.maxAttempts.Some? then n.maxAttempts.value else 5, Leased, n.key, Some(t + lease), now))
  {
    hide LeaseIds, Inv, Enqueue, Lease, DueIds;
    var s1 := Step(s, EnqueueOp(n, now));
    StepKeeps(s, EnqueueOp(n, now));
    NewRow(s, n, now);
    AlwaysClaimable(s1, s.nextId, t, max);
    LeaseTakesTheFirst(s1, queue, t, max);
    if s.nextId in LeaseIds(s1, queue, t, max) { LeasedRow(s1, queue, t, lease, max, s.nextId); }
  }

  lemma NewRow(s: Store, n: NewJob, now: int)
    requires Inv(s) && (n.key.Some? ==> n.key.value !in s.keys)
    ensures var s1 := Enqueue(s, n, now).0;
            s1.jobs == s.jobs[s.nextId := Row(s.nextId, n, now)] && |s1.jobs| == |s.jobs| + 1
  {
    hide Inv;
    FreshId(s);
    var s1 := Enqueue(s, n, now).0;
    assert s1.jobs.Keys == s.jobs.Keys + {s.nextId};
    assert |s1.jobs| == |s1.jobs.Keys| == |s.jobs.Keys| + 1;
  }

  lemma LeasedRow(s: Store, queue: string, t: int, lease: int, max: nat, id: int)
    requires id in s.jobs && id in LeaseIds(s, queue, t, max)
    ensures var jobs := Lease(s, queue, t, lease, max).0.jobs; id in jobs && jobs[id] == Claimed(s.jobs[id], t, lease)
  {
    hide LeaseIds, DueIds;
    LeaseIdsAreDue(s, queue, t, max);
  }

  lemma FreshId(s: Store)
    requires Inv(s)
    ensures s.nextId !in s.jobs
  {
  }

  /** A requeued job starts over: any lease of its queue from the epoch on may take it, with no attempt used. */
  lemma RequeueStartsOver(s: Store, id: int, now: int, max: nat)
    requires Inv(s) && id in s.jobs && 0 <= now && max >= |s.jobs|
    ensures var s1 := RequeueDead(s, id);
            && id in LeaseIds(s1, s.jobs[id].queue, now, max)
            && s1.jobs[id].attempts == 0 && SameIdentity(s.jobs[id], s1.jobs[id])
  {
    hide LeaseIds, Inv;
    StepKeeps(s, RequeueOp(id));
    var s1 := RequeueDead(s, id);
    assert s1.jobs.Keys == s.jobs.Keys && |s1.jobs.Keys| == |s.jobs.Keys|;
    AlwaysClaimable(s1, id, now, max);
  }

  /** Whether `op` takes a finished job out of that state. */
  predicate Reopens(op: Op, id: int) { (op.RetryOp? || op.DeadLetterOp? || op.RequeueOp?) && op.id == id }

  /** A finished job stays finished exactly until somebody retries, parks or requeues it. */
  lemma DoneStays(s: Store, op: Op, id: int)
    requires Inv(s) && id in s.jobs && s.jobs[id].status.Done?
    ensures id in Step(s, op).jobs && (Step(s, op).jobs[id].status.Done? <==> !Reopens(op, id))
  {
    hide LeaseIds, Ranked;
    if op.LeaseOp? {
      LeaseIdsAreDue(s, op.queue, op.now, op.max);
      assert Step(s, op).jobs == ClaimAll(s.jobs, LeaseIds(s, op.queue, op.now, op.max), op.now, op.lease);
    }
  }

  /** Done at every point of the run. */
  ghost predicate AlwaysDone(s: Store, ops: seq<Op>, id: int)
    decreases ops
  {
    id in s.jobs && s.jobs[id].status.Done? && (ops == [] || AlwaysDone(Step(s, ops[0]), ops[1..], id))
  }

  /** Over every run: a finished job is finished throughout if and only if no operation reopens it. */
  lemma {:induction false} DoneOverRuns(s: Store, ops: seq<Op>, id: int)
    requires Inv(s) && id in s.jobs && s.jobs[id].status.Done?
    ensures AlwaysDone(s, ops, id) <==> forall op :: op in ops ==> !Reopens(op, id)
    decreases ops
  {
    hide Inv, Step, Reopens;
    if ops != [] {
      var s', rest := Step(s, ops[0]), ops[1..];
      assert forall op :: op in ops <==> op == ops[0] || op in rest;
      DoneStays(s, ops[0], id);
      StepKeeps(s, ops[0]);
      if s'.jobs[id].status.Done? { DoneOverRuns(s', rest, id); }
    }
  }
}
