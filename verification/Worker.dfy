/**
 * The job worker of worker.rs: one poll-batch tick over a store, its backoff, and what each
 * outcome does to a job.
 */
module Worker {
  import opened Basics
  import opened JobStore
  import opened JobRuns

  /** Durations in milliseconds. */
  datatype Config = Config(backoffBase: nat, backoffCap: nat, leaseDuration: nat, execTimeout: nat, batch: nat)

  /** The engine defaults: 1 s, 5 min, 6 min, 5 min, 10 jobs. */
  const DefaultConfig := Config(1_000, 300_000, 360_000, 300_000, 10)

  /** The lease a tick asks for: never shorter than one job may run. */
  function EffectiveLease(c: Config): nat { Max(c.leaseDuration, c.execTimeout) }

  /** What running a job led to; a timeout is a failure. */
  datatype TaskResult = NoHandler | Succeeded | FailedOrTimedOut

  function Pow2(n: nat): nat { if n == 0 then 1 else 2 * Pow2(n - 1) }

  /** `base * 2^(attempts - 1)` up to `cap`, the exponent clamped at 20. */
  function Backoff(attempts: nat, base: nat, cap: nat): nat {
    Min(base * Pow2(Min(Max(attempts - 1, 0), 20)), cap)
  }

  /** The store after a job that was leased in the tick at `now` ended with `result`. */
  function Settled(c: Config, s: Store, j: Job, result: TaskResult, now: int): Store {
    match result
    case NoHandler => DeadLetter(s, j.id)
    case Succeeded => Ack(s, j.id)
    case FailedOrTimedOut =>
      if j.attempts >= j.maxAttempts then DeadLetter(s, j.id)
      else Retry(s, j.id, now + Backoff(j.attempts, c.backoffBase, c.backoffCap))
  }

  function SettledAll(c: Config, s: Store, jobs: seq<Job>, results: Job -> TaskResult, now: int): Store
    decreases jobs
  {
    if jobs == [] then s else SettledAll(c, Settled(c, s, jobs[0], results(jobs[0]), now), jobs[1..], results, now)
  }

  lemma {:induction false} Pow2Grows(a: nat, b: nat)
    requires a <= b
    ensures 1 <= Pow2(a) <= Pow2(b)
    decreases b
  {
    if a < b { Pow2Grows(a, b - 1); } else if a > 0 { Pow2Grows(a - 1, a - 1); }
  }

  /** Retry delays never shrink as attempts grow, and never exceed the cap; the first is the base. */
  lemma {:induction false} BackoffGrows(a: nat, b: nat, base: nat, cap: nat)
    requires a <= b
    ensures Backoff(a, base, cap) <= Backoff(b, base, cap) <= cap
    ensures Backoff(1, base, cap) == Min(base, cap)
    ensures 1 <= a <= 20 ==> Backoff(a + 1, base, cap) == Min(2 * Backoff(a, base, cap), cap)
    ensures a >= 21 ==> Backoff(a, base, cap) == Backoff(21, base, cap)
  {
    hide Pow2;
    var x, y := Min(Max(a - 1, 0), 20), Min(Max(b - 1, 0), 20);
    Pow2Grows(x, y);
    Scaled(base, Pow2(x), Pow2(y));
    Pow2Doubles(base, a);
    Pow2Doubles(base, 0);
  }

  lemma Scaled(k: nat, x: nat, y: nat)
    requires x <= y
    ensures k * x <= k * y
  {
  }

  lemma Pow2Doubles(base: nat, a: nat)
    ensures a >= 1 ==> base * Pow2(a) == 2 * (base * Pow2(a - 1))
    ensures base * Pow2(0) == base
  {
    if a >= 1 {
      var p := Pow2(a - 1);
      assert Pow2(a) == 2 * p;
      assert base * (2 * p) == 2 * (base * p);
    }
  }

  // ---------- how long a tick leases for ----------

  /** What a tick at `now` asks of the store. */
  function TickLease(c: Config, queue: string, now: int): Op { LeaseOp(queue, now, EffectiveLease(c), c.batch) }

  /** The row expires with the later of the lease and one execution timeout. */
  predicate LeasedFor(c: Config, j: Job, now: int) {
    && j.status.Leased? && j.leaseExpires.Some?
    && j.leaseExpires.value >= now + c.leaseDuration && j.leaseExpires.value >= now + c.execTimeout
    && (j.leaseExpires.value == now + c.leaseDuration || j.leaseExpires.value == now + c.execTimeout)
  }

  lemma TickLeasesFor(c: Config, s: Store, queue: string, now: int)
    ensures var jobs := Lease(s, queue, now, EffectiveLease(c), c.batch).1;
            forall i :: 0 <= i < |jobs| ==> LeasedFor(c, jobs[i], now)
  {
    hide LeaseIds, Ranked, IsDue;
    LeaseIdsAreDue(s, queue, now, c.batch);
    var ids := LeaseIds(s, queue, now, c.batch);
    forall i | 0 <= i < |ids| ensures ids[i] in s.jobs { assert ids[i] in ids; }
  }

  /**
   * A job leased by a tick at `t` is returned by no lease until the lease duration is over, nor
   * until the execution timeout is over, in any run in which nobody retries or requeues it.
   */
  lemma TickIsExclusive(c: Config, s: Store, queue: string, t: int, id: int, e: int, ops: seq<Op>, i: nat)
    requires Inv(s) && Claims(s, TickLease(c, queue, t), id) && i < |ops|
    requires e == t + c.leaseDuration || e == t + c.execTimeout
    requires forall op :: op in ops ==> Respects(op, id, e)
    ensures !Claims(Run(Step(s, TickLease(c, queue, t)), ops[..i]), ops[i], id)
  {
    hide Run, Inv, LeaseIds;
    forall op | op in ops ensures Respects(op, id, t + EffectiveLease(c)) { assert Respects(op, id, e); }
    LeaseExclusivity(s, queue, t, EffectiveLease(c), c.batch, id, ops, i);
  }

  /** Left alone, it is claimed again by a wide enough lease exactly when both are over. */
  lemma TickIsReclaimed(c: Config, s: Store, queue: string, t: int, id: int, now: int, max: nat)
    requires Inv(s) && Claims(s, TickLease(c, queue, t), id) && max >= |s.jobs|
    ensures id in LeaseIds(Step(s, TickLease(c, queue, t)), queue, now, max)
       <==> t + c.leaseDuration < now && t + c.execTimeout < now
  {
    hide Inv, LeaseIds;
    var s' := Step(s, TickLease(c, queue, t));
    var ids := LeaseIds(s, queue, t, c.batch);
    LeaseIdsAreDue(s, queue, t, c.batch);
    StepKeeps(s, TickLease(c, queue, t));
    assert s'.jobs == ClaimAll(s.jobs, ids, t, EffectiveLease(c));
    assert s'.jobs.Keys == s.jobs.Keys && |s'.jobs.Keys| == |s.jobs.Keys|;
    assert s'.jobs[id] == Claimed(s.jobs[id], t, EffectiveLease(c)) && s'.jobs[id].queue == queue;
    AlwaysClaimable(s', id, now, max);
  }

  class QueueWorker {
    const store: InMemoryStore
    const config: Config

    constructor (store: InMemoryStore, config: Config)
      ensures this.store == store && this.config == config
    {
      this.store := store;
      this.config := config;
    }

    /** Lease a batch, run each job (`results` says how each run ends), settle each; the count processed. */
    method Tick(queue: string, now: int, results: Job -> TaskResult) returns (n: nat)
      modifies store
      ensures var (leased, jobs) := Lease(old(store.Abs()), queue, now, EffectiveLease(config), config.batch);
              n == |jobs| && store.Abs() == SettledAll(config, leased, jobs, results, now)
              && forall i :: 0 <= i < |jobs| ==> LeasedFor(config, jobs[i], now)
    {
      var jobs := store.LeaseJobs(queue, now, EffectiveLease(config), config.batch);
      ghost var leased := store.Abs();
      TickLeasesFor(config, old(store.Abs()), queue, now);
      var i := 0;
      while i < |jobs|
        invariant 0 <= i <= |jobs|
        invariant SettledAll(config, store.Abs(), jobs[i..], results, now) ==
                  SettledAll(config, leased, jobs, results, now)
      {
        assert jobs[i..][1..] == jobs[i + 1..];
        var job := jobs[i];
        match results(job) {
          case NoHandler => store.DeadLetterJob(job.id);
          case Succeeded => store.AckJob(job.id);
          case FailedOrTimedOut => Fail(job, now);
        }
        i := i + 1;
      }
      n := |jobs|;
    }

    method Fail(job: Job, now: int)
      modifies store
      ensures store.Abs() == Settled(config, old(store.Abs()), job, FailedOrTimedOut, now)
    {
      if job.attempts >= job.maxAttempts {
        store.DeadLetterJob(job.id);
      } else {
        store.RetryJob(job.id, now + Backoff(job.attempts, config.backoffBase, config.backoffCap));
      }
    }
  }
}
