/**
 * The in-memory job store of store.rs, the reference semantics of the queue: a value-level
 * specification of its seven operations, and the mutable store proved against it. Times are
 * milliseconds; ids and counters are unbounded.
 */
module JobStore {
  import opened Basics

  const DEFAULT_MAX_ATTEMPTS: nat := 5

  datatype Status = Pending | Leased | Done | Dead

  datatype Job = Job(
    id: int, name: string, queue: string, payload: string, runAt: int, attempts: nat, maxAttempts: nat,
    status: Status, key: Option<string>, leaseExpires: Option<int>, createdAt: int)

  datatype NewJob = NewJob(
    name: string, queue: string, payload: string, runAt: Option<int>, key: Option<string>, maxAttempts: Option<nat>)

  datatype EnqueueOutcome = Inserted(id: int) | Duplicate(id: int)

  datatype Store = Store(jobs: map<int, Job>, keys: map<string, int>, nextId: int)

  const Empty := Store(map[], map[], 1)

  function GetOr<T>(o: Option<T>, default: T): T { if o.Some? then o.value else default }

  // ---------- the operations on values ----------

  function Row(id: int, n: NewJob, now: int): Job {
    Job(id, n.name, n.queue, n.payload, GetOr(n.runAt, now), 0, GetOr(n.maxAttempts, DEFAULT_MAX_ATTEMPTS),
        Pending, n.key, None, now)
  }

  function Enqueue(s: Store, n: NewJob, now: int): (Store, EnqueueOutcome) {
    if n.key.Some? && n.key.value in s.keys then (s, Duplicate(s.keys[n.key.value]))
    else
      var id := s.nextId;
      var keys := if n.key.Some? then s.keys[n.key.value := id] else s.keys;
      (Store(s.jobs[id := Row(id, n, now)], keys, id + 1), Inserted(id))
  }

  predicate IsDue(j: Job, queue: string, now: int) {
    && j.queue == queue
    && match j.status {
         case Pending => j.runAt <= now
         case Leased => j.leaseExpires.Some? && j.leaseExpires.value < now
         case Done => false
         case Dead => false
       }
  }

  function DueIds(s: Store, queue: string, now: int): set<int> {
    set id | id in s.jobs && IsDue(s.jobs[id], queue, now)
  }

  /** Claim order: by (run_at, id). */
  predicate Earlier(jobs: map<int, Job>, a: int, b: int)
    requires a in jobs && b in jobs
  {
    jobs[a].runAt < jobs[b].runAt || (jobs[a].runAt == jobs[b].runAt && a < b)
  }

  predicate Least(jobs: map<int, Job>, ids: set<int>, m: int)
    requires ids <= jobs.Keys
  {
    m in ids && forall x :: x in ids && x != m ==> Earlier(jobs, m, x)
  }

  lemma {:induction false} LeastExists(jobs: map<int, Job>, ids: set<int>)
    requires ids != {} && ids <= jobs.Keys
    ensures exists m :: Least(jobs, ids, m)
  {
    var x := Member(ids);
    var rest := ids - {x};
    assert forall y :: y in ids ==> y == x || y in rest;
    if rest == {} {
      assert Least(jobs, ids, x);
    } else {
      LeastExists(jobs, rest);
      var m :| Least(jobs, rest, m);
      assert Least(jobs, ids, if Earlier(jobs, x, m) then x else m);
    }
  }

  /** The ids in claim order. */
  function Ranked(jobs: map<int, Job>, ids: set<int>): seq<int>
    requires ids <= jobs.Keys
  {
    if ids == {} then []
    else
      LeastExists(jobs, ids);
      var m :| Least(jobs, ids, m);
      [m] + Ranked(jobs, ids - {m})
  }

  function Take<T>(s: seq<T>, n: nat): seq<T> { if n <= |s| then s[..n] else s }

  /** The ids a lease claims, in order. */
  function LeaseIds(s: Store, queue: string, now: int, max: nat): seq<int> {
    Take(Ranked(s.jobs, DueIds(s, queue, now)), max)
  }

  function Claimed(j: Job, now: int, lease: int): Job {
    j.(status := Leased, leaseExpires := Some(now + lease), attempts := j.attempts + 1)
  }

  function ClaimAll(jobs: map<int, Job>, ids: seq<int>, now: int, lease: int): map<int, Job> {
    map id | id in jobs :: if id in ids then Claimed(jobs[id], now, lease) else jobs[id]
  }

  function Lease(s: Store, queue: string, now: int, lease: int, max: nat): (Store, seq<Job>) {
    var ids := LeaseIds(s, queue, now, max);
    LeaseIdsAreDue(s, queue, now, max);
    var jobs := ClaimAll(s.jobs, ids, now, lease);
    Basics.Elements(ids);
    assert forall id :: id in ids ==> id in jobs;
    assert forall i :: 0 <= i < |ids| ==> ids[i] in jobs;
    (s.(jobs := jobs), seq(|ids|, i requires 0 <= i < |ids| => jobs[ids[i]]))
  }

  /** Rewrite one row, if it is there: a missing id is a silent no-op. */
  function Update(s: Store, id: int, j: Job): Store { if id in s.jobs then s.(jobs := s.jobs[id := j]) else s }

  function Ack(s: Store, id: int): Store {
    if id in s.jobs then Update(s, id, s.jobs[id].(status := Done)) else s
  }

  function Retry(s: Store, id: int, until: int): Store {
    if id in s.jobs then Update(s, id, s.jobs[id].(status := Pending, runAt := until, leaseExpires := None)) else s
  }

  function DeadLetter(s: Store, id: int): Store {
    if id in s.jobs then Update(s, id, s.jobs[id].(status := Dead)) else s
  }

  function RequeueDead(s: Store, id: int): Store {
    if id in s.jobs
    then Update(s, id, s.jobs[id].(status := Pending, runAt := 0, attempts := 0, leaseExpires := None))
    else s
  }

  // ---------- claim order, exactly ----------

  lemma {:induction false} RankedMeaning(jobs: map<int, Job>, ids: set<int>)
    requires ids <= jobs.Keys
    ensures forall x :: x in Ranked(jobs, ids) <==> x in ids
    ensures var r := Ranked(jobs, ids);
            forall i, j :: 0 <= i < j < |r| ==> r[i] in jobs && r[j] in jobs && Earlier(jobs, r[i], r[j])
    ensures |Ranked(jobs, ids)| == |ids|
  {
    if ids != {} {
      LeastExists(jobs, ids);
      var m :| Least(jobs, ids, m) && Ranked(jobs, ids) == [m] + Ranked(jobs, ids - {m});
      var rest := Ranked(jobs, ids - {m});
      RankedMeaning(jobs, ids - {m});
      var r := [m] + rest;
      forall i, j | 0 <= i < j < |r| ensures r[i] in jobs && r[j] in jobs && Earlier(jobs, r[i], r[j]) {
        assert r[j] == rest[j - 1] && rest[j - 1] in rest;
        if i > 0 { assert r[i] == rest[i - 1]; }
      }
    }
  }

  lemma LeaseIdsAreDue(s: Store, queue: string, now: int, max: nat)
    ensures forall id :: id in LeaseIds(s, queue, now, max) ==> id in DueIds(s, queue, now)
    ensures forall i, j :: 0 <= i < j < |LeaseIds(s, queue, now, max)| ==>
              LeaseIds(s, queue, now, max)[i] != LeaseIds(s, queue, now, max)[j]
  {
    hide IsDue;
    RankedMeaning(s.jobs, DueIds(s, queue, now));
    var r, ids := Ranked(s.jobs, DueIds(s, queue, now)), LeaseIds(s, queue, now, max);
    forall i, j | 0 <= i < j < |ids| ensures ids[i] != ids[j] {
      assert ids[i] == r[i] && ids[j] == r[j];
    }
  }

  /** The due jobs that a lease would take before `id`. */
  ghost function Ahead(s: Store, queue: string, now: int, id: int): set<int>
    requires id in s.jobs
  {
    set x | x in DueIds(s, queue, now) && Earlier(s.jobs, x, id)
  }

  /**
   * A lease claims exactly the first `max` due jobs in (run_at, id) order: a job is claimed
   * if and only if it is due and fewer than `max` due jobs come before it.
   */
  lemma {:induction false} LeaseIsExact(s: Store, queue: string, now: int, max: nat, id: int)
    requires id in s.jobs
    ensures id in LeaseIds(s, queue, now, max) <==>
            id in DueIds(s, queue, now) && |Ahead(s, queue, now, id)| < max
  {
    hide IsDue, Ranked, Ahead;
    var due := DueIds(s, queue, now);
    var r := Ranked(s.jobs, due);
    RankedMeaning(s.jobs, due);
    LeaseIdsAreDue(s, queue, now, max);
    if id in due {
      var i :| 0 <= i < |r| && r[i] == id;
      AheadIsPrefix(s, queue, now, id, i);
      if i < max { assert Take(r, max)[i] == id; }
    }
  }

  /** The jobs before `id` in claim order are those ranked before it. */
  lemma AheadIsPrefix(s: Store, queue: string, now: int, id: int, i: nat)
    requires id in s.jobs && i < |Ranked(s.jobs, DueIds(s, queue, now))|
    requires Ranked(s.jobs, DueIds(s, queue, now))[i] == id
    ensures |Ahead(s, queue, now, id)| == i
  {
    hide IsDue, Ranked;
    var r := Ranked(s.jobs, DueIds(s, queue, now));
    RankedMeaning(s.jobs, DueIds(s, queue, now));
    var before := r[..i];
    forall x ensures x in Ahead(s, queue, now, id) <==> x in before {
      if x in Ahead(s, queue, now, id) {
        var k :| 0 <= k < |r| && r[k] == x;
        assert k < i;
        assert before[k] == x;
      }
      if x in before {
        var k :| 0 <= k < i && before[k] == x;
        assert r[k] == x && x in r;
      }
    }
    DistinctCount(before);
    assert Ahead(s, queue, now, id) == set x | x in before;
  }

  lemma {:induction false} DistinctCount(r: seq<int>)
    requires forall i, j :: 0 <= i < j < |r| ==> r[i] != r[j]
    ensures |set x | x in r| == |r|
  {
    if r != [] {
      DistinctCount(r[1..]);
      assert (set x | x in r) == {r[0]} + set x | x in r[1..];
    }
  }

  // ---------- the source's mutable store ----------

  class InMemoryStore {
    var jobs: map<int, Job>
    var keys: map<string, int>
    var nextId: int

    function Abs(): Store
      reads this
    {
      Store(jobs, keys, nextId)
    }

    constructor ()
      ensures Abs() == Empty
    {
      jobs, keys, nextId := map[], map[], 1;
    }

    method EnqueueJob(n: NewJob, now: int) returns (r: EnqueueOutcome)
      modifies this
      ensures (Abs(), r) == Enqueue(old(Abs()), n, now)
    {
      if n.key.Some? && n.key.value in keys {
        return Duplicate(keys[n.key.value]);
      }
      var id := nextId;
      nextId := nextId + 1;
      var row := Row(id, n, now);
      if n.key.Some? { keys := keys[n.key.value := id]; }
      jobs := jobs[id := row];
      r := Inserted(id);
    }

    method LeaseJobs(queue: string, now: int, lease: int, max: nat) returns (leased: seq<Job>)
      modifies this
      ensures (Abs(), leased) == Lease(old(Abs()), queue, now, lease, max)
    {
      hide Ranked, Take, IsDue;
      var due := set id | id in jobs && IsDue(jobs[id], queue, now);
      var ids := Take(Ranked(jobs, due), max);
      ghost var s := Abs();
      assert ids == LeaseIds(s, queue, now, max);
      LeaseIdsAreDue(s, queue, now, max);
      assert forall k :: 0 <= k < |ids| ==> ids[k] in ids && ids[k] in s.jobs;
      leased := [];
      var i := 0;
      while i < |ids|
        invariant 0 <= i <= |ids| && keys == s.keys && nextId == s.nextId
        invariant jobs == ClaimAll(s.jobs, ids[..i], now, lease)
        invariant |leased| == i
        invariant forall k :: 0 <= k < i ==> leased[k] == Claimed(s.jobs[ids[k]], now, lease)
      {
        var id := ids[i];
        assert id !in ids[..i];
        jobs := jobs[id := Claimed(jobs[id], now, lease)];
        leased := leased + [jobs[id]];
        assert ids[..i + 1] == ids[..i] + [id];
        i := i + 1;
      }
      assert ids[..|ids|] == ids;
      assert leased == Lease(s, queue, now, lease, max).1 by {
        forall k | 0 <= k < |ids| ensures leased[k] == Lease(s, queue, now, lease, max).1[k] {}
      }
    }

    method AckJob(id: int)
      modifies this
      ensures Abs() == Ack(old(Abs()), id)
    {
      if id in jobs { jobs := jobs[id := jobs[id].(status := Done)]; }
    }

    method RetryJob(id: int, until: int)
      modifies this
      ensures Abs() == Retry(old(Abs()), id, until)
    {
      if id in jobs { jobs := jobs[id := jobs[id].(status := Pending, runAt := until, leaseExpires := None)]; }
    }

    method DeadLetterJob(id: int)
      modifies this
      ensures Abs() == DeadLetter(old(Abs()), id)
    {
      if id in jobs { jobs := jobs[id := jobs[id].(status := Dead)]; }
    }

    method RequeueDeadJob(id: int)
      modifies this
      ensures Abs() == RequeueDead(old(Abs()), id)
    {
      if id in jobs {
        jobs := jobs[id := jobs[id].(status := Pending, runAt := 0, attempts := 0, leaseExpires := None)];
      }
    }

    /** Up to `limit` dead jobs of the queue with the smallest ids, in id order. */
    method ListDead(queue: string, limit: nat) returns (r: seq<Job>)
      requires forall id :: id in jobs ==> jobs[id].id == id
      ensures |r| <= limit
      ensures forall i, j :: 0 <= i < j < |r| ==> r[i].id < r[j].id
      ensures forall i :: 0 <= i < |r| ==>
                r[i].id in jobs && r[i] == jobs[r[i].id] && r[i].status.Dead? && r[i].queue == queue
      ensures forall id :: id in jobs && jobs[id].status.Dead? && jobs[id].queue == queue ==>
                jobs[id] in r || (|r| == limit && forall i :: 0 <= i < |r| ==> r[i].id < id)
    {
      var left := set id | id in jobs && jobs[id].status.Dead? && jobs[id].queue == queue;
      ghost var all := left;
      r := [];
      while left != {} && |r| < limit
        invariant |r| <= limit && left <= all
        invariant forall i, j :: 0 <= i < j < |r| ==> r[i].id < r[j].id
        invariant forall i :: 0 <= i < |r| ==> r[i].id in all && r[i] == jobs[r[i].id]
        invariant forall id :: id in all ==> id in left || jobs[id] in r
        invariant forall i, id :: 0 <= i < |r| && id in left ==> r[i].id < id
        decreases left
      {
        var m := LeastId(left);
        r := r + [jobs[m]];
        left := left - {m};
      }
    }
  }

  function LeastId(ids: set<int>): (m: int)
    requires ids != {}
    ensures m in ids && forall x :: x in ids ==> m <= x
  {
    LeastIdExists(ids);
    var m :| m in ids && forall x :: x in ids ==> m <= x;
    m
  }

  lemma {:induction false} LeastIdExists(ids: set<int>)
    requires ids != {}
    ensures exists m :: m in ids && forall x :: x in ids ==> m <= x
  {
    var x := Member(ids);
    var rest := ids - {x};
    assert forall y :: y in ids ==> y == x || y in rest;
    if rest == {} {
      assert forall y :: y in ids ==> x <= y;
    } else {
      LeastIdExists(rest);
      var m :| m in rest && forall y :: y in rest ==> m <= y;
      var best := if x < m then x else m;
      assert best in ids && forall y :: y in ids ==> best <= y;
    }
  }
}
