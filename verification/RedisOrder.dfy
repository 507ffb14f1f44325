/**
 * When the Redis store and the reference store claim the same jobs: with room for every candidate
 * they do; with less, the stream's order and the reference's (run_at, id) order may differ.
 */
module RedisOrder {
  import opened Basics
  import opened JobStore
  import opened RedisStore
  import opened RedisPlacement
  import opened RedisRefinement
  import JobRuns

  /** Pending jobs of the queue that are due. */
  function DuePending(r: Db, queue: string, now: int): set<int> {
    set id | id in r.hashes && r.hashes[id].queue == queue && r.hashes[id].status.Pending? && r.hashes[id].runAt <= now
  }

  /** Leased jobs whose entries the server handed back as idle. */
  function Reclaimed(r: Db, sids: seq<int>): set<int> {
    set id | id in r.hashes && r.hashes[id].status.Leased? && r.hashes[id].streamId in sids
  }

  function Candidates(r: Db, queue: string, now: int, reclaimed: seq<int>): set<int> {
    DuePending(r, queue, now) + Reclaimed(r, reclaimed)
  }

  /** The reference store in which exactly the leases of `lapsed` have expired. */
  function Lapsed(r: Db, lapsed: set<int>, now: int): Store {
    Rows(r).(jobs := map id | id in r.hashes ::
                       var j := JobOf(id, r.hashes[id]);
                       if j.status.Leased? then j.(leaseExpires := Some(if id in lapsed then now - 1 else now)) else j)
  }

  // ---------- what the Redis store claims ----------

  /** A claimed entry is an idle one handed back, or a pending one read for the first time. */
  lemma ListedIsCandidate(r: Db, now: int, queue: string, max: nat, stale: set<int>, reclaimed: seq<int>,
                          jobs: seq<Job>, id: int)
    requires Placed(r, now) && ReclaimReply(r, queue, stale, max, reclaimed) && id in r.hashes
    requires var (r2, unread) := if |reclaimed| < max then ReadGroup(r, queue, max - |reclaimed|) else (r, []);
             jobs == LeaseEntries(r2, reclaimed + unread).1
    ensures Lists(jobs, id) ==> id in Candidates(r, queue, now, reclaimed)
    ensures id in Reclaimed(r, reclaimed) ==> Lists(jobs, id)
  {
    hide PlacedBut, ReadGroup, LeaseEntries, Rows, EntryClaim, JobOf, MarkedJobs, MarkedAll, Lists, Undelivered;
    var r2, unread := ClaimedEntries(r, now, queue, max, stale, reclaimed);
    var sids := reclaimed + unread;
    LeaseEntriesKeeps(r2, now, (set sid | sid in unread), sids);
    EntriesOfHashes(r, now);
    assert forall sid :: sid in sids ==> sid in r.stream;
    MarkedAreListed(r2, sids, jobs);
    var sid := r.hashes[id].streamId;
    if sid in sids {
      EntryStatus(r, now, sid);
      if |reclaimed| < max { ReadGroupKeeps(r, now, queue, max - |reclaimed|); }
    }
  }

  /** Promotion moves entries, not rows: the candidates are what they were. */
  lemma CandidatesKept(r: Db, t: int, queue: string, ids: seq<int>, now: int, reclaimed: seq<int>)
    requires Placed(r, t)
    requires forall i, j :: 0 <= i < j < |ids| ==> ids[i] != ids[j]
    requires forall id :: id in ids ==> (queue, id) in r.sched && r.sched[(queue, id)] <= t
    ensures Candidates(PromoteAll(r, queue, ids), queue, now, reclaimed) == Candidates(r, queue, now, reclaimed)
    ensures Reclaimed(PromoteAll(r, queue, ids), reclaimed) == Reclaimed(r, reclaimed)
    ensures PromoteAll(r, queue, ids).hashes.Keys == r.hashes.Keys
  {
    hide PlacedBut, PromoteAll;
    var r1 := PromoteAll(r, queue, ids);
    PromoteLeavesLeased(r, t, queue, ids);
    PromoteKeepsRows(r, queue, ids);
    SameKeys(r, r1);
    forall id | id in r.hashes
      ensures id in r1.hashes && r1.hashes[id].queue == r.hashes[id].queue
      ensures r1.hashes[id].status == r.hashes[id].status && r1.hashes[id].runAt == r.hashes[id].runAt
    {
      SameRow(r, r1, id);
    }
    assert forall id :: id in DuePending(r1, queue, now) <==> id in DuePending(r, queue, now);
    assert DuePending(r1, queue, now) == DuePending(r, queue, now);
    assert forall id :: id in Reclaimed(r1, reclaimed) <==> id in Reclaimed(r, reclaimed);
    assert Reclaimed(r1, reclaimed) == Reclaimed(r, reclaimed);
  }

  lemma SameKeys(r: Db, r1: Db)
    requires Rows(r1) == Rows(r)
    ensures r1.hashes.Keys == r.hashes.Keys
  {
    assert Rows(r).jobs.Keys == r.hashes.Keys && Rows(r1).jobs.Keys == r1.hashes.Keys;
  }

  function IdSet(jobs: seq<Job>): set<int> { set i | 0 <= i < |jobs| :: jobs[i].id }

  lemma {:induction false} DistinctIds(jobs: seq<Job>)
    requires forall i, j :: 0 <= i < j < |jobs| ==> jobs[i].id != jobs[j].id
    ensures |IdSet(jobs)| == |jobs|
  {
    if jobs != [] {
      var n := |jobs| - 1;
      var front := jobs[..n];
      DistinctIds(front);
      assert jobs[n].id !in IdSet(front);
      forall x ensures x in IdSet(jobs) <==> x in IdSet(front) || x == jobs[n].id {
        if x in IdSet(jobs) {
          var i :| 0 <= i < |jobs| && jobs[i].id == x;
          assert i < n ==> front[i].id == x;
        }
        if x in IdSet(front) {
          var i :| 0 <= i < n && front[i].id == x;
          assert jobs[i].id == x;
        }
        if x == jobs[n].id { assert jobs[n].id == x; }
      }
      assert IdSet(jobs) == IdSet(front) + {jobs[n].id};
    }
  }

  /** A subset as large as the whole is the whole. */
  lemma FullSubset<T>(a: set<T>, b: set<T>)
    requires a <= b && |a| >= |b|
    ensures a == b
  {
    if x :| x in b && x !in a {
      JobRuns.Subset(a + {x}, b);
    }
  }

  /** With room for every candidate, a Redis lease claims exactly the candidates. */
  lemma LeaseTakesCandidates(r: Db, queue: string, now: int, max: nat, promoted: seq<int>, stale: set<int>,
                             reclaimed: seq<int>)
    requires Placed(r, now) && PromoteReply(r, queue, now, max, promoted)
    requires ReclaimReply(PromoteAll(r, queue, promoted), queue, stale, max, reclaimed)
    requires |Candidates(r, queue, now, reclaimed)| <= max
    ensures IdSet(LeaseAll(r, queue, max, promoted, reclaimed).1) == Candidates(r, queue, now, reclaimed)
  {
    hide PlacedBut, PromoteAll, ReadGroup, LeaseEntries, SortById, Rows, Undelivered, PromoteReply, ReclaimReply,
         Candidates, LeaseMeaning, Lists, DuePending, Reclaimed;
    var r1 := PromoteAll(r, queue, promoted);
    Promotable(r, queue, now, max, promoted);
    PromoteAllKeeps(r, now, queue, promoted);
    CandidatesKept(r, now, queue, promoted, now, reclaimed);
    var (r2, unread) := if |reclaimed| < max then ReadGroup(r1, queue, max - |reclaimed|) else (r1, []);
    var jobs := LeaseEntries(r2, reclaimed + unread).1;
    var sorted := SortById(jobs);
    SortedLists(r1, now, queue, max, stale, reclaimed, jobs);
    LeaseRefines(r, now, queue, now, max, promoted, stale, reclaimed);
    Distinct(Rows(r), Rows(LeaseAll(r, queue, max, promoted, reclaimed).0), sorted, queue, max, now, IdleIds(r, stale));
    DistinctIds(sorted);
    var all := Candidates(r, queue, now, reclaimed);
    forall id | id in IdSet(sorted) ensures id in all {
      ClaimIsKnown(r, r1, now, queue, max, stale, reclaimed, jobs, sorted, id);
    }
    if |sorted| < max {
      forall id | id in all ensures id in IdSet(sorted) {
        CandidateIsTaken(r, r1, queue, now, max, promoted, stale, reclaimed, jobs, id);
      }
      assert forall id :: id in all <==> id in IdSet(sorted);
    } else {
      FullSubset(IdSet(sorted), all);
    }
  }

  lemma Distinct(before: Store, after: Store, jobs: seq<Job>, queue: string, max: nat, t: int, idle: set<int>)
    requires LeaseMeaning(before, after, jobs, queue, max, t, idle)
    ensures |jobs| <= max && forall i, j :: 0 <= i < j < |jobs| ==> jobs[i].id != jobs[j].id
  {
  }

  lemma ClaimIsKnown(r: Db, r1: Db, now: int, queue: string, max: nat, stale: set<int>, reclaimed: seq<int>,
                     jobs: seq<Job>, sorted: seq<Job>, id: int)
    requires Placed(r1, now) && ReclaimReply(r1, queue, stale, max, reclaimed)
    requires Candidates(r1, queue, now, reclaimed) == Candidates(r, queue, now, reclaimed)
    requires var (r2, unread) := if |reclaimed| < max then ReadGroup(r1, queue, max - |reclaimed|) else (r1, []);
             jobs == LeaseEntries(r2, reclaimed + unread).1
    requires id in IdSet(sorted) && forall x :: x in sorted <==> x in jobs
    ensures id in Candidates(r, queue, now, reclaimed)
  {
    hide PlacedBut, ReadGroup, LeaseEntries, ReclaimReply, Candidates;
    var i :| 0 <= i < |sorted| && sorted[i].id == id;
    assert sorted[i] in jobs;
    var k :| 0 <= k < |jobs| && jobs[k] == sorted[i];
    assert Lists(jobs, id);
    JobsAreStored(r1, now, queue, max, stale, reclaimed, jobs, k);
    ListedIsCandidate(r1, now, queue, max, stale, reclaimed, jobs, id);
  }

  lemma JobsAreStored(r: Db, now: int, queue: string, max: nat, stale: set<int>, reclaimed: seq<int>, jobs: seq<Job>,
                      k: nat)
    requires Placed(r, now) && ReclaimReply(r, queue, stale, max, reclaimed) && k < |jobs|
    requires var (r2, unread) := if |reclaimed| < max then ReadGroup(r, queue, max - |reclaimed|) else (r, []);
             jobs == LeaseEntries(r2, reclaimed + unread).1
    ensures jobs[k].id in r.hashes
  {
    hide PlacedBut, ReadGroup, LeaseEntries, Rows, EntryClaim, ReclaimReply;
    var r2, unread := ClaimedEntries(r, now, queue, max, stale, reclaimed);
    LeaseEntriesKeeps(r2, now, (set sid | sid in unread), reclaimed + unread);
  }

  lemma CandidateIsTaken(r: Db, r1: Db, queue: string, now: int, max: nat, promoted: seq<int>, stale: set<int>,
                         reclaimed: seq<int>, jobs: seq<Job>, id: int)
    requires Placed(r, now) && PromoteReply(r, queue, now, max, promoted) && r1 == PromoteAll(r, queue, promoted)
    requires Placed(r1, now) && ReclaimReply(r1, queue, stale, max, reclaimed)
    requires r1.hashes.Keys == r.hashes.Keys && Reclaimed(r1, reclaimed) == Reclaimed(r, reclaimed)
    requires var (r2, unread) := if |reclaimed| < max then ReadGroup(r1, queue, max - |reclaimed|) else (r1, []);
             jobs == LeaseEntries(r2, reclaimed + unread).1
    requires SortById(jobs) == LeaseAll(r, queue, max, promoted, reclaimed).1 && |SortById(jobs)| < max
    requires forall x :: x in SortById(jobs) <==> x in jobs
    requires id in Candidates(r, queue, now, reclaimed)
    ensures id in IdSet(SortById(jobs))
  {
    hide PlacedBut, PromoteAll, ReadGroup, LeaseEntries, SortById, PromoteReply, ReclaimReply, LeaseAll;
    var sorted := SortById(jobs);
    if id in DuePending(r, queue, now) {
      LeaseIsGreedy(r, now, queue, now, max, promoted, stale, reclaimed, id);
    } else {
      assert id in r1.hashes;
      ListedIsCandidate(r1, now, queue, max, stale, reclaimed, jobs, id);
      SameList(jobs, sorted, id);
    }
    var i :| 0 <= i < |sorted| && sorted[i].id == id;
  }

  // ---------- what the reference claims ----------

  lemma ReferenceTakesCandidates(r: Db, queue: string, now: int, max: nat, reclaimed: seq<int>)
    requires |Candidates(r, queue, now, reclaimed)| <= max
    requires forall id :: id in Reclaimed(r, reclaimed) ==> r.hashes[id].queue == queue
    ensures forall id :: id in LeaseIds(Lapsed(r, Reclaimed(r, reclaimed), now), queue, now, max) <==>
              id in Candidates(r, queue, now, reclaimed)
  {
    hide Ranked, Rows;
    var s := Lapsed(r, Reclaimed(r, reclaimed), now);
    var due, all := DueIds(s, queue, now), Candidates(r, queue, now, reclaimed);
    forall id ensures id in due <==> id in all {
      if id in r.hashes { assert s.jobs[id].queue == r.hashes[id].queue; }
    }
    assert due == all;
    RankedMeaning(s.jobs, due);
  }

  /**
   * With room for every candidate, the Redis store claims exactly the jobs that the reference
   * store claims once the leases that Redis hands back as idle have expired in it.
   */
  lemma ClaimsAgreeWithRoom(r: Db, queue: string, now: int, max: nat, promoted: seq<int>, stale: set<int>,
                            reclaimed: seq<int>)
    requires Placed(r, now) && PromoteReply(r, queue, now, max, promoted)
    requires ReclaimReply(PromoteAll(r, queue, promoted), queue, stale, max, reclaimed)
    requires |Candidates(r, queue, now, reclaimed)| <= max
    ensures forall id :: Lists(LeaseAll(r, queue, max, promoted, reclaimed).1, id) <==>
              id in LeaseIds(Lapsed(r, Reclaimed(r, reclaimed), now), queue, now, max)
  {
    hide PlacedBut, PromoteAll, LeaseAll, LeaseIds, Lapsed, PromoteReply, Candidates;
    LeaseTakesCandidates(r, queue, now, max, promoted, stale, reclaimed);
    forall id | id in Reclaimed(r, reclaimed) ensures r.hashes[id].queue == queue {
      ReclaimedIsOfQueue(r, queue, now, max, promoted, stale, reclaimed, id);
    }
    ReferenceTakesCandidates(r, queue, now, max, reclaimed);
    var jobs := LeaseAll(r, queue, max, promoted, reclaimed).1;
    forall id ensures Lists(jobs, id) <==> id in IdSet(jobs) {}
  }

  lemma ReclaimedIsOfQueue(r: Db, queue: string, now: int, max: nat, promoted: seq<int>, stale: set<int>,
                           reclaimed: seq<int>, id: int)
    requires Placed(r, now) && PromoteReply(r, queue, now, max, promoted)
    requires ReclaimReply(PromoteAll(r, queue, promoted), queue, stale, max, reclaimed)
    requires id in Reclaimed(r, reclaimed)
    ensures r.hashes[id].queue == queue
  {
    hide PlacedBut, PromoteAll, PromoteReply;
    var r1 := PromoteAll(r, queue, promoted);
    Promotable(r, queue, now, max, promoted);
    PromoteAllKeeps(r, now, queue, promoted);
    PromoteLeavesLeased(r, now, queue, promoted);
    var sid := r.hashes[id].streamId;
    EntryStatus(r1, now, sid);
    EntriesOfHashes(r1, now);
  }

  // ---------- without room the orders differ ----------

  const Late := NewJob("a", "q", "", Some(5), None, None)

  const Early := NewJob("b", "q", "", Some(3), None, None)

  /** Two due jobs, one place: Redis takes the one enqueued first, the reference the one due first. */
  lemma OrdersCanDiffer()
    ensures var r := EnqueueScript(EnqueueScript(EmptyDb, Late, 10).0, Early, 10).0;
            && Placed(r, 10) && PromoteReply(r, "q", 10, 1, []) && ReclaimReply(r, "q", {}, 1, [])
            && Lists(LeaseAll(r, "q", 1, [], []).1, 1) && !Lists(LeaseAll(r, "q", 1, [], []).1, 2)
            && 2 in LeaseIds(Rows(r), "q", 10, 1) && 1 !in LeaseIds(Rows(r), "q", 10, 1)
  {
    hide Placed, Rows, PromoteReply, ReclaimReply, LeaseAll, LeaseIds;
    var r0 := EnqueueScript(EmptyDb, Late, 10).0;
    var r := EnqueueScript(r0, Early, 10).0;
    BothArePlaced(r0, r);
    RedisTakesFirst(r);
    ReferenceTakesEarliest(r);
  }

  lemma BothArePlaced(r0: Db, r: Db)
    requires r0 == EnqueueScript(EmptyDb, Late, 10).0 && r == EnqueueScript(r0, Early, 10).0
    ensures Placed(r, 10) && TwoEntries(r)
  {
    hide PlacedBut;
    EmptyIsPlaced();
    LaterIsFine(EmptyDb, 0, 10);
    EnqueueKeeps(EmptyDb, 10, Late, 10);
    EnqueueKeeps(r0, 10, Early, 10);
  }

  /** Jobs 1 and 2 in the stream, in that order, run_at 5 and 3, nothing scheduled, nothing delivered. */
  predicate TwoEntries(r: Db) {
    && r.stream == map[1 := Entry("q", 1), 2 := Entry("q", 2)]
    && r.sched == map[] && r.pel == {} && r.delivered == map[]
    && r.hashes.Keys == {1, 2}
    && r.hashes[1] == Hash("a", "q", "", 5, 0, DEFAULT_MAX_ATTEMPTS, Pending, "", 10, 1)
    && r.hashes[2] == Hash("b", "q", "", 3, 0, DEFAULT_MAX_ATTEMPTS, Pending, "", 10, 2)
  }

  lemma RedisTakesFirst(r: Db)
    requires TwoEntries(r)
    ensures PromoteReply(r, "q", 10, 1, []) && ReclaimReply(r, "q", {}, 1, [])
    ensures Lists(LeaseAll(r, "q", 1, [], []).1, 1) && !Lists(LeaseAll(r, "q", 1, [], []).1, 2)
  {
    hide LeaseEntry, LeaseEntries, ReadGroup, SortById, Undelivered;
    assert DueScheduled(r, "q", 10) == {};
    var (r2, sids) := ReadGroup(r, "q", 1);
    ReadsFirst(r);
    assert [] + sids == [1];
    var job := MarksFirst(r, r2);
    assert PromoteAll(r, "q", []) == r;
    assert LeaseAll(r, "q", 1, [], []).1 == [job];
    assert [job][0].id == 1;
  }

  lemma ReadsFirst(r: Db)
    requires TwoEntries(r)
    ensures ReadGroup(r, "q", 1).1 == [1] && ReadGroup(r, "q", 1).0.stream == r.stream
    ensures ReadGroup(r, "q", 1).0.hashes == r.hashes
  {
    hide Ascending;
    var all := Undelivered(r, "q");
    assert forall x :: x in all <==> x == 1 || x == 2;
    FirstOfTwo(Ascending(all));
  }

  lemma MarksFirst(r: Db, r2: Db) returns (job: Job)
    requires TwoEntries(r) && r2.stream == r.stream && r2.hashes == r.hashes
    ensures SortById(LeaseEntries(r2, [1]).1) == [job] && job.id == 1
  {
    job := LeaseEntry(r2, 1).1.value;
    assert [1][1..] == [] && LeaseEntries(r2, [1]).1 == [job];
    assert [job][1..] == [];
  }

  lemma FirstOfTwo(a: seq<int>)
    requires forall x :: x in a <==> x == 1 || x == 2
    requires forall i, j :: 0 <= i < j < |a| ==> a[i] < a[j]
    ensures |a| >= 1 && a[0] == 1 && Take(a, 1) == [1]
  {
    assert 1 in a;
    var i :| 0 <= i < |a| && a[i] == 1;
    assert a[0] in a;
  }

  lemma ReferenceTakesEarliest(r: Db)
    requires TwoEntries(r)
    ensures 2 in LeaseIds(Rows(r), "q", 10, 1) && 1 !in LeaseIds(Rows(r), "q", 10, 1)
  {
    hide LeaseIds, Ranked;
    var s := Rows(r);
    assert s.jobs.Keys == {1, 2};
    assert s.jobs[1].runAt == 5 && s.jobs[2].runAt == 3;
    LeaseIsExact(s, "q", 10, 1, 1);
    LeaseIsExact(s, "q", 10, 1, 2);
    assert 2 in DueIds(s, "q", 10) && Earlier(s.jobs, 2, 1);
    assert Ahead(s, "q", 10, 2) == {};
    assert 2 in Ahead(s, "q", 10, 1);
    JobRuns.Subset({2}, Ahead(s, "q", 10, 1));
  }
}
