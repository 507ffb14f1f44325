/**
 * The Redis job store refines the reference store: each step means, on the job rows, what the
 * reference's does, a lease claims at most `max` due jobs, and disciplined runs keep placement.
 */
module RedisRefinement {
  import opened Basics
  import opened JobStore
  import opened RedisStore
  import opened RedisPlacement
  import JobRuns

  // ---------- what each step means on the job rows ----------

  /** The rows, keys and counter that a Redis state stands for. */
  function Rows(r: Db): Store {
    Store(map id | id in r.hashes :: JobOf(id, r.hashes[id]), r.idem, r.seqNo + 1)
  }

  lemma RowsUpdate(r: Db, r': Db, id: int, h: Hash)
    requires r'.hashes == r.hashes[id := h]
    ensures Rows(r').jobs == Rows(r).jobs[id := JobOf(id, h)]
  {
    hide JobOf;
    var a, b := Rows(r').jobs, Rows(r).jobs[id := JobOf(id, h)];
    assert a.Keys == r.hashes.Keys + {id} && b.Keys == r.hashes.Keys + {id};
    forall x | x in a ensures a[x] == b[x] {}
  }

  /**
   * Enqueueing is the reference's enqueue, except that an empty key is stored as no key: the
   * outcome is always the same, the rows exactly when no job is inserted under the empty key.
   */
  lemma EnqueueRefines(r: Db, n: NewJob, now: int)
    ensures EnqueueScript(r, n, now).1 == Enqueue(Rows(r), n, now).1
    ensures Rows(EnqueueScript(r, n, now).0) == Enqueue(Rows(r), n, now).0 <==> !(n.key == Some("") && "" !in r.idem)
  {
    hide JobOf, Row, EnqueueScript, Enqueue;
    EnqueueShape(r, n, now);
    var (r', outcome) := EnqueueScript(r, n, now);
    if outcome.Inserted? {
      var id := r.seqNo + 1;
      EnqueuedRow(r, n, now);
      RowsUpdate(r, r', id, r'.hashes[id]);
      var want := Enqueue(Rows(r), n, now).0;
      assert Rows(r').jobs[id] == JobOf(id, r'.hashes[id]) && want.jobs[id] == Row(id, n, now);
    }
  }

  /** Both decide alike, and an insertion changes one row, the key map and the counter. */
  lemma EnqueueShape(r: Db, n: NewJob, now: int)
    ensures EnqueueScript(r, n, now).1 == Enqueue(Rows(r), n, now).1
    ensures var (r', outcome) := EnqueueScript(r, n, now);
            var want := Enqueue(Rows(r), n, now).0;
            if outcome.Duplicate? then r' == r && want == Rows(r) && n.key.Some? && n.key.value in r.idem
            else
              var id := r.seqNo + 1;
              && id in r'.hashes && r'.hashes == r.hashes[id := r'.hashes[id]]
              && want.jobs == Rows(r).jobs[id := Row(id, n, now)]
              && Rows(r').keys == want.keys && Rows(r').nextId == want.nextId
              && !(n.key.Some? && n.key.value in r.idem)
  {
    hide JobOf, Row, EnqueueScript;
    ScriptInserts(r, n, now);
    assert Rows(r).keys == r.idem && Rows(r).nextId == r.seqNo + 1;
  }

  /** What the script does, in terms of the server alone. */
  lemma ScriptInserts(r: Db, n: NewJob, now: int)
    ensures var (r', outcome) := EnqueueScript(r, n, now);
            var id := r.seqNo + 1;
            if n.key.Some? && n.key.value in r.idem then r' == r && outcome == Duplicate(r.idem[n.key.value])
            else
              && outcome == Inserted(id) && id in r'.hashes && r'.hashes == r.hashes[id := r'.hashes[id]]
              && r'.idem == (if n.key.Some? then r.idem[n.key.value := id] else r.idem) && r'.seqNo == id
  {
  }

  lemma EnqueuedRow(r: Db, n: NewJob, now: int)
    requires EnqueueScript(r, n, now).1.Inserted?
    ensures var r' := EnqueueScript(r, n, now).0;
            && r.seqNo + 1 in r'.hashes
            && (JobOf(r.seqNo + 1, r'.hashes[r.seqNo + 1]) == Row(r.seqNo + 1, n, now) <==> n.key != Some(""))
  {
  }

  /** Retrying, parking and requeueing are the reference's; a missing id is a no-op in both. */
  lemma RetryRefines(r: Db, id: int, until: int)
    ensures Rows(RetryScript(r, id, until)) == Retry(Rows(r), id, until)
  {
    if id in r.hashes {
      var r' := RetryScript(r, id, until);
      RowsUpdate(r, r', id, r'.hashes[id]);
    }
  }

  lemma DeadLetterRefines(r: Db, id: int)
    ensures Rows(DeadLetterScript(r, id)) == DeadLetter(Rows(r), id)
  {
    if id in r.hashes {
      var r' := DeadLetterScript(r, id);
      RowsUpdate(r, r', id, r'.hashes[id]);
    }
  }

  lemma RequeueRefines(r: Db, id: int)
    ensures Rows(RequeueScript(r, id)) == RequeueDead(Rows(r), id)
  {
    if id in r.hashes {
      var r' := RequeueScript(r, id);
      RowsUpdate(r, r', id, r'.hashes[id]);
    }
  }

  /** Acknowledging forgets the row that the reference marks done, and nothing else. */
  lemma AckRefines(r: Db, id: int)
    ensures Rows(AckScript(r, id)).jobs == Ack(Rows(r), id).jobs - {id}
    ensures Rows(AckScript(r, id)).keys == Rows(r).keys && Rows(AckScript(r, id)).nextId == Rows(r).nextId
  {
  }

  lemma {:induction false} PromoteKeepsRows(r: Db, queue: string, ids: seq<int>)
    ensures Rows(PromoteAll(r, queue, ids)) == Rows(r)
    decreases ids
  {
    if ids != [] {
      var r1 := PromoteOne(r, queue, ids[0]);
      assert Rows(r1).jobs == Rows(r).jobs;
      PromoteKeepsRows(r1, queue, ids[1..]);
    }
  }

  function ClaimedRow(j: Job): Job { j.(status := Leased, attempts := j.attempts + 1) }

  predicate Lists(jobs: seq<Job>, id: int) { exists i :: 0 <= i < |jobs| && jobs[i].id == id }

  function ClaimRows(jobs: map<int, Job>, claimed: seq<Job>): map<int, Job> {
    map id | id in jobs :: if Lists(claimed, id) then ClaimedRow(jobs[id]) else jobs[id]
  }

  /** `j` is the claimed form of a row of the queue that was pending and due by `t`, or leased and idle. */
  ghost predicate ProperClaim(before: map<int, Job>, j: Job, queue: string, t: int, idle: set<int>) {
    && j.id in before && j == ClaimedRow(before[j.id]) && j.queue == queue
    && ((before[j.id].status.Pending? && before[j.id].runAt <= t) || (before[j.id].status.Leased? && j.id in idle))
  }

  /**
   * A lease on the abstract queue: some jobs, at most `max`, in id order, each properly claimed;
   * exactly their rows change, each by one more attempt and the leased status.
   */
  ghost predicate LeaseMeaning(before: Store, after: Store, jobs: seq<Job>, queue: string, max: nat, t: int,
                               idle: set<int>) {
    && |jobs| <= max
    && (forall i, j :: 0 <= i < j < |jobs| ==> jobs[i].id < jobs[j].id)
    && (forall i :: 0 <= i < |jobs| ==> ProperClaim(before.jobs, jobs[i], queue, t, idle))
    && after == before.(jobs := ClaimRows(before.jobs, jobs))
  }

  /** Leased jobs whose stream entry the server found idle long enough. */
  function IdleIds(r: Db, stale: set<int>): set<int> {
    set id | id in r.hashes && r.hashes[id].status.Leased? && r.hashes[id].streamId in stale
  }

  lemma {:induction false} InsertByIdMeaning(j: Job, s: seq<Job>)
    requires forall a, b :: 0 <= a < b < |s| ==> s[a].id < s[b].id
    requires forall a :: 0 <= a < |s| ==> s[a].id != j.id
    ensures var r := InsertById(j, s);
            && |r| == |s| + 1 && (forall x :: x in r <==> x == j || x in s)
            && forall a, b :: 0 <= a < b < |r| ==> r[a].id < r[b].id
  {
    if s != [] && s[0].id < j.id {
      InsertByIdMeaning(j, s[1..]);
      var t := InsertById(j, s[1..]);
      var r := [s[0]] + t;
      assert forall x :: x in s <==> x == s[0] || x in s[1..];
      forall a, b | 0 <= a < b < |r| ensures r[a].id < r[b].id {
        assert r[b] == t[b - 1] && t[b - 1] in t;
        if a > 0 { assert r[a] == t[a - 1]; }
      }
    }
  }

  lemma {:induction false} SortByIdMeaning(s: seq<Job>)
    requires forall a, b :: 0 <= a < b < |s| ==> s[a].id != s[b].id
    ensures var r := SortById(s);
            && |r| == |s| && (forall x :: x in r <==> x in s)
            && forall a, b :: 0 <= a < b < |r| ==> r[a].id < r[b].id
  {
    if s != [] {
      var rest := s[1..];
      forall a, b | 0 <= a < b < |rest|
        ensures rest[a].id != rest[b].id
      {
        assert rest[a] == s[a + 1] && rest[b] == s[b + 1];
      }
      SortByIdMeaning(rest);
      var t := SortById(rest);
      forall a | 0 <= a < |t| ensures t[a].id != s[0].id {
        assert t[a] in t;
        var k :| 0 <= k < |rest| && rest[k] == t[a];
        assert s[k + 1] == rest[k];
      }
      InsertByIdMeaning(s[0], t);
      assert forall x :: x in s <==> x == s[0] || x in rest;
    }
  }

  /** Promotion moves only what is scheduled: leased hashes stay as they are. */
  lemma {:induction false} PromoteLeavesLeased(r: Db, t: int, queue: string, ids: seq<int>)
    requires Placed(r, t)
    requires forall i, j :: 0 <= i < j < |ids| ==> ids[i] != ids[j]
    requires forall id :: id in ids ==> (queue, id) in r.sched && r.sched[(queue, id)] <= t
    ensures forall id :: id in r.hashes && r.hashes[id].status.Leased? ==>
              id in PromoteAll(r, queue, ids).hashes && PromoteAll(r, queue, ids).hashes[id] == r.hashes[id]
    ensures forall id ::
              id in PromoteAll(r, queue, ids).hashes && PromoteAll(r, queue, ids).hashes[id].status.Leased? ==>
              id in r.hashes && PromoteAll(r, queue, ids).hashes[id] == r.hashes[id]
    decreases ids
  {
    hide StreamOk, DeadOk, HashOk;
    if ids != [] {
      PromoteOneKeeps(r, t, queue, ids[0]);
      var r1 := PromoteOne(r, queue, ids[0]);
      forall id | id in ids[1..] ensures (queue, id) in r1.sched && r1.sched[(queue, id)] <= t {
        assert id in ids && id != ids[0];
      }
      forall i, j | 0 <= i < j < |ids[1..]| ensures ids[1..][i] != ids[1..][j] {
        assert ids[1..][i] == ids[i + 1] && ids[1..][j] == ids[j + 1];
      }
      PromoteLeavesLeased(r1, t, queue, ids[1..]);
    }
  }

  /** The entries a lease claims: distinct, of the queue, unread ones pending, reclaimed ones leased and stale. */
  lemma ClaimedEntries(r: Db, t: int, queue: string, max: nat, stale: set<int>, reclaimed: seq<int>)
    returns (r2: Db, unread: seq<int>)
    requires Placed(r, t) && ReclaimReply(r, queue, stale, max, reclaimed)
    ensures (r2, unread) == if |reclaimed| < max then ReadGroup(r, queue, max - |reclaimed|) else (r, [])
    ensures PlacedBut(r2, t, set sid | sid in unread) && r2.hashes == r.hashes && r2.stream == r.stream
    ensures Rows(r2) == Rows(r)
    ensures var sids := reclaimed + unread;
            && |sids| <= max
            && (forall i, j :: 0 <= i < j < |sids| ==> sids[i] != sids[j])
            && (forall sid :: sid in sids ==> sid in r2.pel && sid in r.stream && EntryClaim(r, t, queue, stale, sid))
  {
    hide StreamOk, SchedOk, DeadOk, HashOk, ReadGroup;
    if |reclaimed| < max {
      ReadGroupKeeps(r, t, queue, max - |reclaimed|);
      r2, unread := ReadGroup(r, queue, max - |reclaimed|).0, ReadGroup(r, queue, max - |reclaimed|).1;
      CountersKept(r, queue, max - |reclaimed|);
    } else {
      r2, unread := r, [];
      assert (set sid | sid in unread) == {};
    }
    var sids := reclaimed + unread;
    forall sid | sid in sids ensures sid in r2.pel && sid in r.stream && EntryClaim(r, t, queue, stale, sid) {
      EntryStatus(r, t, sid);
      if sid in unread { UnreadIsPending(r2, t, (set x | x in unread), sid); }
    }
    forall i, j | 0 <= i < j < |sids| ensures sids[i] != sids[j] {
      if i < |reclaimed| <= j { assert sids[i] in reclaimed && sids[j] in unread; }
    }
  }

  /** The job behind an entry may be claimed. */
  ghost predicate EntryClaim(r: Db, t: int, queue: string, stale: set<int>, sid: int)
    requires sid in r.stream
  {
    var id := r.stream[sid].id;
    && id in r.hashes && r.hashes[id].queue == queue && r.hashes[id].streamId == sid
    && ((r.hashes[id].status.Pending? && r.hashes[id].runAt <= t) || (r.hashes[id].status.Leased? && sid in stale))
  }

  lemma EntryStatus(r: Db, t: int, sid: int)
    requires Placed(r, t) && sid in r.stream
    ensures var e := r.stream[sid];
            && e.id in r.hashes && r.hashes[e.id].queue == e.queue
            && r.hashes[e.id].streamId == sid && r.hashes[e.id].runAt <= t
            && (if sid in r.pel then r.hashes[e.id].status.Leased? else r.hashes[e.id].status.Pending?)
  {
    assert EntryOk(r, t, {}, sid);
  }

  lemma UnreadIsPending(r: Db, t: int, open: set<int>, sid: int)
    requires PlacedBut(r, t, open) && sid in open
    ensures sid in r.pel
  {
  }

  lemma CountersKept(r: Db, queue: string, n: nat)
    ensures Rows(ReadGroup(r, queue, n).0) == Rows(r)
  {
  }

  /** Marking claimed entries makes proper claims of distinct jobs. */
  lemma MarkingClaims(r: Db, t: int, queue: string, stale: set<int>, sids: seq<int>, jobs: seq<Job>)
    requires forall sid :: sid in sids ==> sid in r.stream && EntryClaim(r, t, queue, stale, sid)
    requires forall i, j :: 0 <= i < j < |sids| ==> sids[i] != sids[j]
    requires MarkedJobs(r, sids, jobs)
    ensures forall i, j :: 0 <= i < j < |jobs| ==> jobs[i].id != jobs[j].id
    ensures forall i :: 0 <= i < |jobs| ==> ProperClaim(Rows(r).jobs, jobs[i], queue, t, IdleIds(r, stale))
  {
    forall i, j | 0 <= i < j < |jobs| ensures jobs[i].id != jobs[j].id {
      assert r.hashes[jobs[i].id].streamId == sids[i] && r.hashes[jobs[j].id].streamId == sids[j];
    }
    forall i | 0 <= i < |jobs| ensures ProperClaim(Rows(r).jobs, jobs[i], queue, t, IdleIds(r, stale)) {
      assert sids[i] in sids && EntryClaim(r, t, queue, stale, sids[i]);
    }
  }

  /** Marking the hashes behind entries is claiming those rows. */
  lemma MarkedAreListed(r: Db, sids: seq<int>, jobs: seq<Job>)
    requires MarkedJobs(r, sids, jobs)
    requires forall id :: id in r.hashes && r.hashes[id].streamId in sids ==>
               r.hashes[id].streamId in r.stream && r.stream[r.hashes[id].streamId].id == id
    ensures forall id :: id in r.hashes ==> (Lists(jobs, id) <==> r.hashes[id].streamId in sids)
  {
    forall id | id in r.hashes ensures Lists(jobs, id) <==> r.hashes[id].streamId in sids {
      if r.hashes[id].streamId in sids {
        var i :| 0 <= i < |sids| && sids[i] == r.hashes[id].streamId;
        assert jobs[i].id == id;
      }
    }
  }

  lemma MarkingRows(r: Db, sids: seq<int>, jobs: seq<Job>, r3: Db)
    requires MarkedJobs(r, sids, jobs) && r3.hashes == MarkedAll(r.hashes, sids)
    requires forall id :: id in r.hashes && r.hashes[id].streamId in sids ==>
               r.hashes[id].streamId in r.stream && r.stream[r.hashes[id].streamId].id == id
    ensures Rows(r3).jobs == ClaimRows(Rows(r).jobs, jobs)
  {
    hide MarkedJobs, Lists;
    MarkedAreListed(r, sids, jobs);
    var a, b := Rows(r3).jobs, ClaimRows(Rows(r).jobs, jobs);
    assert a.Keys == r.hashes.Keys && b.Keys == r.hashes.Keys;
    forall id | id in r.hashes ensures a[id] == b[id] {}
  }

  /** A whole lease refines the abstract queue's lease, and keeps placement. */
  lemma LeaseRefines(r: Db, t: int, queue: string, now: int, max: nat, promoted: seq<int>, stale: set<int>,
                     reclaimed: seq<int>)
    requires Placed(r, t) && now <= t
    requires PromoteReply(r, queue, now, max, promoted)
    requires ReclaimReply(PromoteAll(r, queue, promoted), queue, stale, max, reclaimed)
    ensures var (r', jobs) := LeaseAll(r, queue, max, promoted, reclaimed);
            Placed(r', t) && LeaseMeaning(Rows(r), Rows(r'), jobs, queue, max, t, IdleIds(r, stale))
  {
    hide PlacedBut, PromoteAll, ReadGroup, LeaseEntries, SortById, ProperClaim, ClaimRows, Rows, IdleIds, EntryClaim,
         MarkedAll;
    var r1 := PromoteAll(r, queue, promoted);
    Promotable(r, queue, now, max, promoted);
    PromoteAllKeeps(r, t, queue, promoted);
    PromoteKeepsRows(r, queue, promoted);
    IdleAfterPromote(r, t, queue, promoted, stale);
    var r2, unread := ClaimedEntries(r1, t, queue, max, stale, reclaimed);
    var sids := reclaimed + unread;
    LeaseEntriesKeeps(r2, t, (set sid | sid in unread), sids);
    var r3, jobs := LeaseEntries(r2, sids).0, LeaseEntries(r2, sids).1;
    EntriesOfHashes(r1, t);
    MarkingClaims(r1, t, queue, stale, sids, jobs);
    MarkingRows(r1, sids, jobs, r3);
    RowsFrame(r2, r3);
    SortedMeaning(Rows(r1), Rows(r3), jobs, queue, max, t, IdleIds(r1, stale));
  }

  lemma Promotable(r: Db, queue: string, now: int, max: nat, promoted: seq<int>)
    requires PromoteReply(r, queue, now, max, promoted)
    ensures forall i, j :: 0 <= i < j < |promoted| ==> promoted[i] != promoted[j]
    ensures forall id :: id in promoted ==> (queue, id) in r.sched && r.sched[(queue, id)] <= now
  {
  }

  lemma IdleAfterPromote(r: Db, t: int, queue: string, ids: seq<int>, stale: set<int>)
    requires Placed(r, t)
    requires forall i, j :: 0 <= i < j < |ids| ==> ids[i] != ids[j]
    requires forall id :: id in ids ==> (queue, id) in r.sched && r.sched[(queue, id)] <= t
    ensures IdleIds(PromoteAll(r, queue, ids), stale) == IdleIds(r, stale)
  {
    hide PlacedBut, PromoteAll;
    PromoteLeavesLeased(r, t, queue, ids);
    var a, b := IdleIds(PromoteAll(r, queue, ids), stale), IdleIds(r, stale);
    assert forall id :: id in a <==> id in b;
  }

  lemma EntriesOfHashes(r: Db, t: int)
    requires Placed(r, t)
    ensures forall id :: id in r.hashes && r.hashes[id].streamId != 0 ==>
              r.hashes[id].streamId in r.stream && r.stream[r.hashes[id].streamId].id == id
    ensures forall sid :: sid in r.stream ==> sid > 0
  {
    assert forall id :: id in r.hashes ==> HashOk(r, id);
    assert forall sid :: sid in r.stream ==> EntryOk(r, t, {}, sid);
  }

  lemma RowsFrame(r: Db, r': Db)
    requires r' == r.(hashes := r'.hashes)
    ensures Rows(r').keys == Rows(r).keys && Rows(r').nextId == Rows(r).nextId
  {
  }

  lemma SameList(a: seq<Job>, b: seq<Job>, id: int)
    requires forall x :: x in a ==> x in b
    ensures Lists(a, id) ==> Lists(b, id)
  {
    if Lists(a, id) {
      var k :| 0 <= k < |a| && a[k].id == id;
      assert a[k] in b;
    }
  }

  lemma SortedMeaning(before: Store, after: Store, jobs: seq<Job>, queue: string, max: nat, t: int, idle: set<int>)
    requires after == before.(jobs := ClaimRows(before.jobs, jobs)) && |jobs| <= max
    requires forall i, j :: 0 <= i < j < |jobs| ==> jobs[i].id != jobs[j].id
    requires forall i :: 0 <= i < |jobs| ==> ProperClaim(before.jobs, jobs[i], queue, t, idle)
    ensures LeaseMeaning(before, after, SortById(jobs), queue, max, t, idle)
  {
    hide SortById, ProperClaim, Lists;
    SortByIdMeaning(jobs);
    var s := SortById(jobs);
    forall i | 0 <= i < |s| ensures ProperClaim(before.jobs, s[i], queue, t, idle) {
      assert s[i] in s;
      var k :| 0 <= k < |jobs| && jobs[k] == s[i];
    }
    forall id ensures Lists(s, id) <==> Lists(jobs, id) {
      SameList(s, jobs, id);
      SameList(jobs, s, id);
    }
    assert ClaimRows(before.jobs, s) == ClaimRows(before.jobs, jobs);
  }

  // ---------- a lease passes nothing over ----------

  lemma {:induction false} SchedAfterPromote(r: Db, queue: string, ids: seq<int>)
    ensures forall k :: k in PromoteAll(r, queue, ids).sched ==>
              k in r.sched && PromoteAll(r, queue, ids).sched[k] == r.sched[k] && !(k.0 == queue && k.1 in ids)
    decreases ids
  {
    if ids != [] {
      SchedAfterPromote(PromoteOne(r, queue, ids[0]), queue, ids[1..]);
      assert forall x :: x in ids <==> x == ids[0] || x in ids[1..];
    }
  }

  /** A pending job's entry waits to be delivered. */
  lemma PendingIsUndelivered(r: Db, t: int, id: int)
    requires Placed(r, t) && id in r.hashes && r.hashes[id].status.Pending?
    ensures if r.hashes[id].streamId != 0 then r.hashes[id].streamId in Undelivered(r, r.hashes[id].queue)
            else (r.hashes[id].queue, id) in r.sched && r.sched[(r.hashes[id].queue, id)] == r.hashes[id].runAt
  {
    assert HashOk(r, id);
    if r.hashes[id].streamId != 0 { assert EntryOk(r, t, {}, r.hashes[id].streamId); }
  }

  lemma ReadsAll(r: Db, queue: string, n: nat)
    requires |ReadGroup(r, queue, n).1| < n
    ensures forall sid :: sid in Undelivered(r, queue) ==> sid in ReadGroup(r, queue, n).1
  {
    hide Undelivered;
  }

  lemma {:induction false} IdsOf(jobs: seq<Job>)
    ensures |set i | 0 <= i < |jobs| :: jobs[i].id| <= |jobs|
  {
    if jobs != [] {
      var rest := jobs[..|jobs| - 1];
      IdsOf(rest);
      var a, b := (set i | 0 <= i < |jobs| :: jobs[i].id), (set i | 0 <= i < |rest| :: rest[i].id);
      assert forall x :: x in a ==> x in b + {jobs[|jobs| - 1].id} by {
        forall x | x in a ensures x in b + {jobs[|jobs| - 1].id} {
          var i :| 0 <= i < |jobs| && jobs[i].id == x;
          assert i < |rest| ==> rest[i].id == x;
        }
      }
      JobRuns.Subset(a, b + {jobs[|jobs| - 1].id});
    }
  }

  lemma ListedAreFew(ids: seq<int>, jobs: seq<Job>)
    requires forall i, j :: 0 <= i < j < |ids| ==> ids[i] != ids[j]
    requires forall id :: id in ids ==> Lists(jobs, id)
    ensures |ids| <= |jobs|
  {
    DistinctCount(ids);
    IdsOf(jobs);
    JobRuns.Subset((set x | x in ids), (set i | 0 <= i < |jobs| :: jobs[i].id));
  }

  /** Every pending job with an entry is among those claimed, unless the lease is full. */
  lemma EntriesAreClaimed(r1: Db, t: int, queue: string, max: nat, stale: set<int>, reclaimed: seq<int>, jobs: seq<Job>,
                          id: int)
    requires Placed(r1, t) && ReclaimReply(r1, queue, stale, max, reclaimed)
    requires var (r2, unread) := if |reclaimed| < max then ReadGroup(r1, queue, max - |reclaimed|) else (r1, []);
             jobs == LeaseEntries(r2, reclaimed + unread).1
    requires |jobs| < max && id in r1.hashes && r1.hashes[id].queue == queue && r1.hashes[id].status.Pending?
    requires r1.hashes[id].streamId != 0
    ensures Lists(jobs, id)
  {
    hide PlacedBut, ReadGroup, LeaseEntries, Rows, EntryClaim, Undelivered, JobOf, MarkedJobs, MarkedAll, Lists;
    var r2, unread := ClaimedEntries(r1, t, queue, max, stale, reclaimed);
    var sids := reclaimed + unread;
    LeaseEntriesKeeps(r2, t, (set sid | sid in unread), sids);
    EntriesOfHashes(r1, t);
    PendingIsUndelivered(r1, t, id);
    MarkedCount(r2, sids, jobs);
    ReadsAll(r1, queue, max - |reclaimed|);
    assert r1.hashes[id].streamId in unread;
    assert forall x :: x in sids ==> x in r1.stream;
    MarkedAreListed(r2, sids, jobs);
  }

  lemma MarkedCount(r: Db, sids: seq<int>, jobs: seq<Job>)
    requires MarkedJobs(r, sids, jobs)
    ensures |jobs| == |sids|
  {
  }

  /** A pending job of the queue that is due. */
  predicate PendingDue(r: Db, queue: string, now: int, id: int) {
    id in r.hashes && r.hashes[id].queue == queue && r.hashes[id].status.Pending? && r.hashes[id].runAt <= now
  }

  /**
   * No due job is passed over: a lease that returns fewer than `max` jobs returns every job of
   * its queue that was pending and due.
   */
  lemma LeaseIsGreedy(r: Db, t: int, queue: string, now: int, max: nat, promoted: seq<int>, stale: set<int>,
                      reclaimed: seq<int>, id: int)
    requires Placed(r, t) && now <= t
    requires PromoteReply(r, queue, now, max, promoted)
    requires ReclaimReply(PromoteAll(r, queue, promoted), queue, stale, max, reclaimed)
    ensures var (r', jobs) := LeaseAll(r, queue, max, promoted, reclaimed);
            |jobs| < max && PendingDue(r, queue, now, id) ==>
              Lists(jobs, id)
  {
    hide PlacedBut, PromoteAll, ReadGroup, LeaseEntries, SortById, Rows, Undelivered;
    var r1 := PromoteAll(r, queue, promoted);
    Promotable(r, queue, now, max, promoted);
    PromoteAllKeeps(r, t, queue, promoted);
    PromoteKeepsRows(r, queue, promoted);
    SchedAfterPromote(r, queue, promoted);
    var (r2, unread) := if |reclaimed| < max then ReadGroup(r1, queue, max - |reclaimed|) else (r1, []);
    var jobs := LeaseEntries(r2, reclaimed + unread).1;
    SortedLists(r1, t, queue, max, stale, reclaimed, jobs);
    if |jobs| < max && PendingDue(r, queue, now, id) {
      SameRow(r, r1, id);
      PendingIsUndelivered(r1, t, id);
      if r1.hashes[id].streamId == 0 {
        assert id in DueScheduled(r, queue, now) && id !in promoted;
        forall x | x in promoted ensures Lists(jobs, x) {
          ScheduledIsPending(r, t, queue, x);
          SameRow(r, r1, x);
          PendingIsUndelivered(r1, t, x);
          EntriesAreClaimed(r1, t, queue, max, stale, reclaimed, jobs, x);
        }
        ListedAreFew(promoted, jobs);
        NotAllPromoted(r, queue, now, max, promoted, id);
      } else {
        EntriesAreClaimed(r1, t, queue, max, stale, reclaimed, jobs, id);
      }
      SameList(jobs, SortById(jobs), id);
    }
  }

  lemma SameRow(r: Db, r1: Db, id: int)
    requires Rows(r1) == Rows(r) && id in r.hashes
    ensures id in r1.hashes && r1.hashes[id].queue == r.hashes[id].queue
    ensures r1.hashes[id].status == r.hashes[id].status && r1.hashes[id].runAt == r.hashes[id].runAt
  {
    assert id in Rows(r).jobs && Rows(r).jobs[id] == JobOf(id, r.hashes[id]);
    assert id in Rows(r1).jobs && Rows(r1).jobs[id] == JobOf(id, r1.hashes[id]);
  }

  lemma ScheduledIsPending(r: Db, t: int, queue: string, id: int)
    requires Placed(r, t) && (queue, id) in r.sched
    ensures id in r.hashes && r.hashes[id].queue == queue && r.hashes[id].status.Pending?
  {
  }

  /** A due member left behind means that the reply was full. */
  lemma NotAllPromoted(r: Db, queue: string, now: int, max: nat, promoted: seq<int>, id: int)
    requires PromoteReply(r, queue, now, max, promoted) && id in DueScheduled(r, queue, now) && id !in promoted
    ensures |promoted| == max
  {
    var a, b := (set x | x in promoted), DueScheduled(r, queue, now);
    DistinctCount(promoted);
    JobRuns.Subset(a + {id}, b);
  }

  /** Sorting keeps the jobs. */
  lemma SortedLists(r1: Db, t: int, queue: string, max: nat, stale: set<int>, reclaimed: seq<int>, jobs: seq<Job>)
    requires Placed(r1, t) && ReclaimReply(r1, queue, stale, max, reclaimed)
    requires var (r2, unread) := if |reclaimed| < max then ReadGroup(r1, queue, max - |reclaimed|) else (r1, []);
             jobs == LeaseEntries(r2, reclaimed + unread).1
    ensures |SortById(jobs)| == |jobs| && forall x :: x in SortById(jobs) <==> x in jobs
  {
    hide PlacedBut, ReadGroup, LeaseEntries, Rows, EntryClaim, SortById, ProperClaim, IdleIds;
    var r2, unread := ClaimedEntries(r1, t, queue, max, stale, reclaimed);
    LeaseEntriesKeeps(r2, t, (set sid | sid in unread), reclaimed + unread);
    MarkingClaims(r1, t, queue, stale, reclaimed + unread, jobs);
    SortByIdMeaning(jobs);
  }

  // ---------- disciplined runs ----------

  /** Calls on the store, with the server's replies to a lease. */
  datatype Call =
    | EnqueueCall(n: NewJob, now: int)
    | LeaseCall(queue: string, now: int, max: nat, promoted: seq<int>, stale: set<int>, reclaimed: seq<int>)
    | AckCall(id: int)
    | RetryCall(id: int, until: int)
    | DeadLetterCall(id: int)
    | RequeueCall(id: int)

  predicate HasStatus(r: Db, id: int, st: Status) { id in r.hashes && r.hashes[id].status == st }

  /** Workers settle only jobs that are leased, admins requeue only dead ones, and replies are the server's. */
  ghost predicate Disciplined(r: Db, c: Call) {
    match c
    case EnqueueCall(_, _) => true
    case LeaseCall(queue, now, max, promoted, stale, reclaimed) =>
      && PromoteReply(r, queue, now, max, promoted)
      && ReclaimReply(PromoteAll(r, queue, promoted), queue, stale, max, reclaimed)
    case AckCall(id) => HasStatus(r, id, Leased)
    case RetryCall(id, _) => HasStatus(r, id, Leased)
    case DeadLetterCall(id) => HasStatus(r, id, Leased)
    case RequeueCall(id) => HasStatus(r, id, Dead)
  }

  function Exec(r: Db, c: Call): Db {
    match c
    case EnqueueCall(n, now) => EnqueueScript(r, n, now).0
    case LeaseCall(queue, _, max, promoted, _, reclaimed) => LeaseAll(r, queue, max, promoted, reclaimed).0
    case AckCall(id) => AckScript(r, id)
    case RetryCall(id, until) => RetryScript(r, id, until)
    case DeadLetterCall(id) => DeadLetterScript(r, id)
    case RequeueCall(id) => RequeueScript(r, id)
  }

  /** The latest instant seen once `c` has been made. */
  function Seen(t: int, c: Call): int { if c.EnqueueCall? || c.LeaseCall? then Max(t, c.now) else t }

  lemma LaterIsFine(r: Db, t: int, u: int)
    requires Placed(r, t) && t <= u
    ensures Placed(r, u)
  {
    forall sid | sid in r.stream ensures EntryOk(r, u, {}, sid) { assert EntryOk(r, t, {}, sid); }
  }

  lemma CallKeeps(r: Db, t: int, c: Call)
    requires Placed(r, t) && 0 <= t && Disciplined(r, c)
    ensures Placed(Exec(r, c), Seen(t, c))
  {
    hide PlacedBut, PromoteReply, ReclaimReply, LeaseAll, LeaseMeaning;
    var u := Seen(t, c);
    LaterIsFine(r, t, u);
    match c
    case EnqueueCall(n, now) => EnqueueKeeps(r, u, n, now);
    case LeaseCall(queue, now, max, promoted, stale, reclaimed) =>
      LeaseRefines(r, u, queue, now, max, promoted, stale, reclaimed);
    case AckCall(id) => LeasedIsInStream(r, t, id); AckKeeps(r, t, id);
    case RetryCall(id, until) => RetryKeeps(r, t, id, until);
    case DeadLetterCall(id) => LeasedIsInStream(r, t, id); DeadLetterKeeps(r, t, id);
    case RequeueCall(id) => RequeueKeeps(r, t, id);
  }

  lemma LeasedIsInStream(r: Db, t: int, id: int)
    requires Placed(r, t) && HasStatus(r, id, Leased)
    ensures r.hashes[id].streamId != 0 && (r.hashes[id].queue, id) !in r.sched
  {
    assert HashOk(r, id);
  }

  ghost predicate DisciplinedRun(r: Db, calls: seq<Call>)
    decreases calls
  {
    calls == [] || (Disciplined(r, calls[0]) && DisciplinedRun(Exec(r, calls[0]), calls[1..]))
  }

  function ExecAll(r: Db, calls: seq<Call>): Db
    decreases calls
  {
    if calls == [] then r else ExecAll(Exec(r, calls[0]), calls[1..])
  }

  function SeenAll(t: int, calls: seq<Call>): int
    decreases calls
  {
    if calls == [] then t else SeenAll(Seen(t, calls[0]), calls[1..])
  }

  lemma {:induction false} PlacementOverRuns(r: Db, t: int, calls: seq<Call>)
    requires Placed(r, t) && 0 <= t && DisciplinedRun(r, calls)
    ensures Placed(ExecAll(r, calls), SeenAll(t, calls))
    decreases calls
  {
    hide PlacedBut, Disciplined, Exec;
    if calls != [] {
      CallKeeps(r, t, calls[0]);
      PlacementOverRuns(Exec(r, calls[0]), Seen(t, calls[0]), calls[1..]);
    }
  }

  /** In every disciplined run from an empty server, every job hash is in exactly one place. */
  lemma OnePlaceInEveryRun(calls: seq<Call>, id: int)
    requires DisciplinedRun(EmptyDb, calls) && id in ExecAll(EmptyDb, calls).hashes
    ensures var r := ExecAll(EmptyDb, calls);
            && (if InStream(r, id) then !InSched(r, id) && !InDead(r, id) else InSched(r, id) <==> !InDead(r, id))
            && (InStream(r, id) <==> r.hashes[id].streamId != 0)
            && (r.hashes[id].status.Leased? <==> r.hashes[id].streamId in r.pel)
  {
    hide ExecAll, DisciplinedRun, InStream;
    EmptyIsPlaced();
    PlacementOverRuns(EmptyDb, 0, calls);
    ExactlyOnePlace(ExecAll(EmptyDb, calls), SeenAll(0, calls), id);
  }

  lemma EmptyIsPlaced()
    ensures Placed(EmptyDb, 0)
  {
  }

  // ---------- nothing is lost ----------

  /** What no call but its own acknowledgement takes from a job: its row, and who it is. */
  ghost predicate Keeps(r: Db, r': Db, id: int)
    requires id in r.hashes
  {
    id in r'.hashes && JobRuns.SameIdentity(JobOf(id, r.hashes[id]), JobOf(id, r'.hashes[id]))
  }

  lemma KeepsByRows(r: Db, r': Db, id: int)
    requires id in r.hashes && id in Rows(r').jobs && JobRuns.SameIdentity(Rows(r).jobs[id], Rows(r').jobs[id])
    ensures Keeps(r, r', id)
  {
  }

  lemma EnqueueKeepsOthers(r: Db, t: int, n: NewJob, now: int, id: int)
    requires Placed(r, t) && id in r.hashes
    ensures Keeps(r, EnqueueScript(r, n, now).0, id)
  {
    hide StreamOk, SchedOk, DeadOk;
    assert HashOk(r, id);
  }

  lemma LeaseKeepsAll(r: Db, r': Db, jobs: seq<Job>, queue: string, max: nat, t: int, idle: set<int>, id: int)
    requires LeaseMeaning(Rows(r), Rows(r'), jobs, queue, max, t, idle) && id in r.hashes
    ensures Keeps(r, r', id)
  {
    hide ProperClaim, Lists;
    assert id in Rows(r).jobs;
    KeepsByRows(r, r', id);
  }

  lemma SettleKeepsRow(r: Db, id: int, x: int, until: int)
    requires id in r.hashes
    ensures Keeps(r, RetryScript(r, x, until), id) && Keeps(r, DeadLetterScript(r, x), id)
    ensures Keeps(r, RequeueScript(r, x), id)
    ensures x != id ==> Keeps(r, AckScript(r, x), id)
  {
  }

  lemma CallKeepsJob(r: Db, t: int, c: Call, id: int)
    requires Placed(r, t) && 0 <= t && Disciplined(r, c) && id in r.hashes && c != AckCall(id)
    ensures Keeps(r, Exec(r, c), id)
  {
    hide PlacedBut, PromoteReply, ReclaimReply, LeaseAll, LeaseMeaning, Keeps, Rows;
    match c
    case EnqueueCall(n, now) => EnqueueKeepsOthers(r, t, n, now, id);
    case LeaseCall(queue, now, max, promoted, stale, reclaimed) =>
      var u := Seen(t, c);
      LaterIsFine(r, t, u);
      LeaseRefines(r, u, queue, now, max, promoted, stale, reclaimed);
      var (r', jobs) := LeaseAll(r, queue, max, promoted, reclaimed);
      LeaseKeepsAll(r, r', jobs, queue, max, u, IdleIds(r, stale), id);
    case AckCall(x) => SettleKeepsRow(r, id, x, 0);
    case RetryCall(x, until) => SettleKeepsRow(r, id, x, until);
    case DeadLetterCall(x) => SettleKeepsRow(r, id, x, 0);
    case RequeueCall(x) => SettleKeepsRow(r, id, x, 0);
  }

  /**
   * Over every disciplined run: a job that is never acknowledged keeps its row and identity, and
   * at the end sits in exactly one of stream, scheduled set and dead set.
   */
  lemma {:induction false} RedisLosesNothing(r: Db, t: int, calls: seq<Call>, id: int)
    requires Placed(r, t) && 0 <= t && DisciplinedRun(r, calls) && id in r.hashes && AckCall(id) !in calls
    ensures var r' := ExecAll(r, calls);
            && Keeps(r, r', id)
            && (if InStream(r', id) then !InSched(r', id) && !InDead(r', id) else InSched(r', id) <==> !InDead(r', id))
    decreases calls
  {
    hide PlacedBut, Disciplined, Exec, InStream, InSched, InDead, JobOf;
    if calls == [] {
      ExactlyOnePlace(r, t, id);
    } else {
      assert calls[0] in calls && forall c :: c in calls[1..] ==> c in calls;
      CallKeepsJob(r, t, calls[0], id);
      CallKeeps(r, t, calls[0]);
      RedisLosesNothing(Exec(r, calls[0]), Seen(t, calls[0]), calls[1..], id);
    }
  }

  /** Deduplication is permanent here too: a key once taken names the same job for ever. */
  lemma {:induction false} RedisKeysStay(r: Db, calls: seq<Call>, k: string)
    requires k in r.idem
    ensures k in ExecAll(r, calls).idem && ExecAll(r, calls).idem[k] == r.idem[k]
    decreases calls
  {
    hide Exec;
    if calls != [] {
      CallKeepsKeys(r, calls[0], k);
      RedisKeysStay(Exec(r, calls[0]), calls[1..], k);
    }
  }

  lemma CallKeepsKeys(r: Db, c: Call, k: string)
    requires k in r.idem
    ensures k in Exec(r, c).idem && Exec(r, c).idem[k] == r.idem[k]
  {
    hide SortById, Ascending, Undelivered;
    if c.LeaseCall? {
      PromoteKeepsKeys(r, c.queue, c.promoted);
      var r1 := PromoteAll(r, c.queue, c.promoted);
      var (r2, unread) := if |c.reclaimed| < c.max then ReadGroup(r1, c.queue, c.max - |c.reclaimed|) else (r1, []);
      MarkKeepsKeys(r2, c.reclaimed + unread);
    }
  }

  lemma {:induction false} PromoteKeepsKeys(r: Db, queue: string, ids: seq<int>)
    ensures PromoteAll(r, queue, ids).idem == r.idem
    decreases ids
  {
    if ids != [] { PromoteKeepsKeys(PromoteOne(r, queue, ids[0]), queue, ids[1..]); }
  }

  lemma {:induction false} MarkKeepsKeys(r: Db, sids: seq<int>)
    ensures LeaseEntries(r, sids).0.idem == r.idem
    decreases sids
  {
    if sids != [] { MarkKeepsKeys(LeaseEntry(r, sids[0]).0, sids[1..]); }
  }
}
