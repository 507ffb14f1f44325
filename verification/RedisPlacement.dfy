/**
 * Placement in the Redis job store: every job hash is in exactly one of ready stream, scheduled
 * set and dead set, and each operation keeps this exactly under a condition its caller can check.
 */
module RedisPlacement {
  import opened Basics
  import opened JobStore
  import opened RedisStore

  // ---------- the invariant ----------

  /**
   * A stream entry belongs to a hash that points back at it; it is pending in the group once
   * delivered; and, unless it is in `open` (read but not yet marked), pending means leased.
   * `t` is the latest instant any caller has passed.
   */
  ghost predicate EntryOk(r: Db, t: int, open: set<int>, sid: int)
    requires sid in r.stream
  {
    var e := r.stream[sid];
    && 0 < sid < r.nextSid
    && e.id in r.hashes
    && var h := r.hashes[e.id];
       && h.queue == e.queue && h.streamId == sid && h.runAt <= t
       && (sid in r.pel <==> sid <= Delivered(r, e.queue))
       && (h.status.Pending? || h.status.Leased?)
       && (if sid in open then sid in r.pel else sid in r.pel <==> h.status.Leased?)
  }

  ghost predicate StreamOk(r: Db, t: int, open: set<int>) {
    && (forall sid :: sid in r.stream ==> EntryOk(r, t, open, sid))
    && r.pel <= r.stream.Keys && open <= r.pel
    && 1 <= r.nextSid && forall q :: q in r.delivered ==> 0 <= r.delivered[q] < r.nextSid
  }

  ghost predicate SchedOk(r: Db) {
    forall k :: k in r.sched ==>
      && k.1 in r.hashes && r.hashes[k.1].queue == k.0 && r.hashes[k.1].streamId == 0
      && r.hashes[k.1].status.Pending? && r.sched[k] == r.hashes[k.1].runAt
  }

  ghost predicate DeadOk(r: Db) {
    forall k :: k in r.dead ==>
      k.1 in r.hashes && r.hashes[k.1].queue == k.0 && r.hashes[k.1].streamId == 0 && r.hashes[k.1].status.Dead?
  }

  ghost predicate HashOk(r: Db, id: int)
    requires id in r.hashes
  {
    var h := r.hashes[id];
    && id <= r.seqNo
    && (h.streamId != 0 ==> h.streamId in r.stream && r.stream[h.streamId] == Entry(h.queue, id))
    && (h.streamId == 0 ==> if h.status.Dead? then (h.queue, id) in r.dead else (h.queue, id) in r.sched)
  }

  ghost predicate PlacedBut(r: Db, t: int, open: set<int>) {
    && StreamOk(r, t, open) && SchedOk(r) && DeadOk(r)
    && forall id :: id in r.hashes ==> HashOk(r, id)
  }

  ghost predicate Placed(r: Db, t: int) { PlacedBut(r, t, {}) }

  predicate InStream(r: Db, id: int) requires id in r.hashes {
    exists sid :: sid in r.stream && r.stream[sid] == Entry(r.hashes[id].queue, id)
  }

  predicate InSched(r: Db, id: int) requires id in r.hashes { (r.hashes[id].queue, id) in r.sched }

  predicate InDead(r: Db, id: int) requires id in r.hashes { (r.hashes[id].queue, id) in r.dead }

  /** In exactly one place, and the hash's stream id names its entry exactly when it is in the stream. */
  lemma ExactlyOnePlace(r: Db, t: int, id: int)
    requires Placed(r, t) && id in r.hashes
    ensures InStream(r, id) || InSched(r, id) || InDead(r, id)
    ensures !(InStream(r, id) && InSched(r, id)) && !(InStream(r, id) && InDead(r, id))
    ensures !(InSched(r, id) && InDead(r, id))
    ensures InStream(r, id) <==> r.hashes[id].streamId != 0
    ensures forall sid :: sid in r.stream && r.stream[sid].id == id ==> sid == r.hashes[id].streamId
    ensures r.hashes[id].status.Leased? <==> r.hashes[id].streamId in r.pel
  {
    assert HashOk(r, id);
    forall sid | sid in r.stream && r.stream[sid].id == id ensures sid == r.hashes[id].streamId {
      assert EntryOk(r, t, {}, sid);
    }
    var sid := r.hashes[id].streamId;
    if sid in r.stream { assert EntryOk(r, t, {}, sid); }
  }

  // ---------- steps that need no discipline ----------

  /** Adding a hash's entry at the stream's end. */
  lemma AddKeeps(r: Db, t: int, open: set<int>, id: int, h: Hash)
    requires StreamOk(r, t, open)
    requires h.status.Pending? && h.runAt <= t
    requires forall sid :: sid in r.stream ==> r.stream[sid].id != id
    ensures StreamOk(AddToStream(r, id, h), t, open)
  {
    var r' := AddToStream(r, id, h);
    forall sid | sid in r'.stream ensures EntryOk(r', t, open, sid) {
      if sid != r.nextSid { assert EntryOk(r, t, open, sid); }
    }
  }

  lemma EnqueueKeeps(r: Db, t: int, n: NewJob, now: int)
    requires Placed(r, t) && now <= t
    ensures Placed(EnqueueScript(r, n, now).0, t)
  {
    hide PlacedBut;
    var (r', outcome) := EnqueueScript(r, n, now);
    if outcome.Inserted? {
      var id := r.seqNo + 1;
      var h := r'.hashes[id].(streamId := 0);
      if h.runAt <= now {
        NewInStream(r, t, h, r'.idem);
      } else {
        NewInSched(r, t, h, r'.idem);
      }
    }
  }

  lemma NewInStream(r: Db, t: int, h: Hash, idem: map<string, int>)
    requires Placed(r, t) && h.status.Pending? && h.streamId == 0 && h.runAt <= t
    ensures Placed(AddToStream(r.(seqNo := r.seqNo + 1, idem := idem), r.seqNo + 1, h), t)
  {
    var id := r.seqNo + 1;
    var r' := AddToStream(r.(seqNo := id, idem := idem), id, h);
    NewIdUnused(r, t);
    forall sid | sid in r'.stream ensures EntryOk(r', t, {}, sid) {
      if sid != r.nextSid { assert EntryOk(r, t, {}, sid); }
    }
    forall x | x in r'.hashes ensures HashOk(r', x) {
      if x != id { assert HashOk(r, x); }
    }
  }

  lemma NewInSched(r: Db, t: int, h: Hash, idem: map<string, int>)
    requires Placed(r, t) && h.status.Pending? && h.streamId == 0
    ensures var id := r.seqNo + 1;
            var sched := r.sched[(h.queue, id) := h.runAt];
            Placed(r.(seqNo := id, idem := idem, hashes := r.hashes[id := h], sched := sched), t)
  {
    var id := r.seqNo + 1;
    var r' := r.(seqNo := id, idem := idem, hashes := r.hashes[id := h], sched := r.sched[(h.queue, id) := h.runAt]);
    NewIdUnused(r, t);
    forall sid | sid in r'.stream ensures EntryOk(r', t, {}, sid) { assert EntryOk(r, t, {}, sid); }
    forall x | x in r'.hashes ensures HashOk(r', x) {
      if x != id { assert HashOk(r, x); }
    }
  }

  lemma NewIdUnused(r: Db, t: int)
    requires Placed(r, t)
    ensures r.seqNo + 1 !in r.hashes
    ensures forall sid :: sid in r.stream ==> r.stream[sid].id != r.seqNo + 1
    ensures forall k :: k in r.sched || k in r.dead ==> k.1 != r.seqNo + 1
  {
    assert r.seqNo + 1 in r.hashes ==> HashOk(r, r.seqNo + 1);
    assert forall sid :: sid in r.stream ==> EntryOk(r, t, {}, sid);
  }

  lemma ScheduledHasNoEntry(r: Db, t: int, open: set<int>, id: int)
    requires StreamOk(r, t, open) && id in r.hashes && r.hashes[id].streamId == 0
    ensures forall sid :: sid in r.stream ==> r.stream[sid].id != id
  {
    assert forall sid :: sid in r.stream ==> EntryOk(r, t, open, sid);
  }

  lemma PromoteOneKeeps(r: Db, t: int, queue: string, id: int)
    requires Placed(r, t) && (queue, id) in r.sched && r.sched[(queue, id)] <= t
    ensures Placed(PromoteOne(r, queue, id), t)
  {
    var r' := PromoteOne(r, queue, id);
    ScheduledHasNoEntry(r, t, {}, id);
    AddKeeps(r, t, {}, id, r.hashes[id]);
    forall sid | sid in r'.stream ensures EntryOk(r', t, {}, sid) {
      assert EntryOk(AddToStream(r, id, r.hashes[id]), t, {}, sid);
    }
    forall x | x in r'.hashes ensures HashOk(r', x) { assert HashOk(r, x); }
  }

  /** Members other than those promoted stay scheduled at their scores. */
  lemma {:induction false} PromoteAllKeeps(r: Db, t: int, queue: string, ids: seq<int>)
    requires Placed(r, t)
    requires forall i, j :: 0 <= i < j < |ids| ==> ids[i] != ids[j]
    requires forall id :: id in ids ==> (queue, id) in r.sched && r.sched[(queue, id)] <= t
    ensures Placed(PromoteAll(r, queue, ids), t)
    decreases ids
  {
    hide PlacedBut;
    if ids != [] {
      PromoteOneKeeps(r, t, queue, ids[0]);
      var r1 := PromoteOne(r, queue, ids[0]);
      forall id | id in ids[1..] ensures (queue, id) in r1.sched && r1.sched[(queue, id)] <= t {
        assert id in ids && id != ids[0];
      }
      forall i, j | 0 <= i < j < |ids[1..]| ensures ids[1..][i] != ids[1..][j] {
        assert ids[1..][i] == ids[i + 1] && ids[1..][j] == ids[j + 1];
      }
      PromoteAllKeeps(r1, t, queue, ids[1..]);
    }
  }

  /** The group reads a prefix of the undelivered entries: exactly those up to the last one read. */
  lemma ReadReply(r: Db, queue: string, n: nat)
    ensures var sids := ReadGroup(r, queue, n).1;
            && |sids| <= n
            && (forall i, j :: 0 <= i < j < |sids| ==> sids[i] != sids[j])
            && (forall sid :: sid in sids ==> sid in Undelivered(r, queue))
            && (sids != [] ==> forall sid :: sid in Undelivered(r, queue) ==>
                 (sid in sids <==> sid <= sids[|sids| - 1]))
  {
    hide Undelivered;
    var all := Ascending(Undelivered(r, queue));
    var sids := ReadGroup(r, queue, n).1;
    assert sids == all[..|sids|];
    forall i | 0 <= i < |sids| ensures sids[i] in Undelivered(r, queue) { assert all[i] in all; }
    if sids != [] {
      forall sid | sid in Undelivered(r, queue) ensures sid in sids <==> sid <= sids[|sids| - 1] {
        var k :| 0 <= k < |all| && all[k] == sid;
        assert k < |sids| ==> sids[k] == sid;
      }
    }
  }

  lemma ReadGroupKeeps(r: Db, t: int, queue: string, n: nat)
    requires Placed(r, t)
    ensures var (r', sids) := ReadGroup(r, queue, n);
            && PlacedBut(r', t, set sid | sid in sids)
            && r'.hashes == r.hashes && r'.stream == r.stream && r.pel <= r'.pel && |sids| <= n
            && (forall sid :: sid in sids ==> sid in r.stream && sid !in r.pel && r.stream[sid].queue == queue)
            && (forall i, j :: 0 <= i < j < |sids| ==> sids[i] != sids[j])
  {
    hide Ascending, Take;
    ReadReply(r, queue, n);
    var (r', sids) := ReadGroup(r, queue, n);
    var open := set sid | sid in sids;
    assert forall sid :: sid in sids ==> EntryOk(r, t, {}, sid);
    if sids == [] {
      assert open == {};
    } else {
      assert sids[|sids| - 1] in sids;
      forall sid | sid in r'.stream ensures EntryOk(r', t, open, sid) {
        assert EntryOk(r, t, {}, sid);
        assert sid in Undelivered(r, queue) <==> r.stream[sid].queue == queue && sid !in r.pel;
      }
      assert forall sid :: sid in open ==> sid in r'.pel;
      forall x | x in r'.hashes ensures HashOk(r', x) { assert HashOk(r, x); }
    }
  }

  /** A claimed hash: one more attempt, leased. */
  function Marked(h: Hash): Hash { h.(attempts := h.attempts + 1, status := Leased) }

  lemma LeaseEntryKeeps(r: Db, t: int, open: set<int>, sid: int)
    requires PlacedBut(r, t, open) && sid in r.pel
    ensures PlacedBut(LeaseEntry(r, sid).0, t, open - {sid})
    ensures sid in r.stream
    ensures var id := r.stream[sid].id;
            && id in r.hashes && r.hashes[id].streamId == sid
            && LeaseEntry(r, sid).1 == Some(JobOf(id, Marked(r.hashes[id])))
            && LeaseEntry(r, sid).0 == r.(hashes := r.hashes[id := Marked(r.hashes[id])])
  {
    assert EntryOk(r, t, open, sid);
    var r' := LeaseEntry(r, sid).0;
    forall x | x in r'.stream ensures EntryOk(r', t, open - {sid}, x) { assert EntryOk(r, t, open, x); }
    forall x | x in r'.hashes ensures HashOk(r', x) { assert HashOk(r, x); }
  }

  function MarkedAll(hashes: map<int, Hash>, sids: seq<int>): map<int, Hash> {
    map id | id in hashes :: if hashes[id].streamId in sids then Marked(hashes[id]) else hashes[id]
  }

  /** `jobs` are the marked hashes behind the entries, in order. */
  ghost predicate MarkedJobs(r: Db, sids: seq<int>, jobs: seq<Job>) {
    && |jobs| == |sids|
    && forall i :: 0 <= i < |sids| ==>
         && sids[i] in r.stream && r.stream[sids[i]].id in r.hashes
         && r.hashes[r.stream[sids[i]].id].streamId == sids[i]
         && jobs[i] == JobOf(r.stream[sids[i]].id, Marked(r.hashes[r.stream[sids[i]].id]))
  }

  /** Marking every claimed entry: no entry is an orphan, each job is marked once. */
  lemma {:induction false} LeaseEntriesKeeps(r: Db, t: int, open: set<int>, sids: seq<int>)
    requires PlacedBut(r, t, open)
    requires forall i, j :: 0 <= i < j < |sids| ==> sids[i] != sids[j]
    requires forall sid :: sid in sids ==> sid in r.pel
    requires forall sid :: sid in open ==> sid in sids
    ensures var (r', jobs) := LeaseEntries(r, sids);
            && Placed(r', t)
            && r' == r.(hashes := MarkedAll(r.hashes, sids))
            && MarkedJobs(r, sids, jobs)
    decreases sids
  {
    hide StreamOk, SchedOk, DeadOk, HashOk, JobOf, LeaseEntry;
    if sids == [] {
      assert open == {} by { assert forall x :: x in open <==> x in {}; }
      assert MarkedAll(r.hashes, sids) == r.hashes;
    } else {
      var sid, rest := sids[0], sids[1..];
      assert sid in sids;
      LeaseEntryKeeps(r, t, open, sid);
      var r1 := LeaseEntry(r, sid).0;
      forall i, j | 0 <= i < j < |rest| ensures rest[i] != rest[j] {
        assert rest[i] == sids[i + 1] && rest[j] == sids[j + 1];
      }
      forall x | x in rest ensures x in r1.pel && x != sid {
        var k :| 0 <= k < |rest| && rest[k] == x;
        assert sids[k + 1] == x && x in sids;
      }
      LeaseEntriesKeeps(r1, t, open - {sid}, rest);
      var id := r.stream[sid].id;
      assert forall x :: x in sids <==> x == sid || x in rest;
      OneEntryPerHash(r, t, open, sid);
      MarkFirst(r.hashes, id, sids);
      var jobs := LeaseEntries(r, sids).1;
      assert jobs[1..] == LeaseEntries(r1, rest).1;
      forall i | 0 <= i < |sids|
        ensures && sids[i] in r.stream && r.stream[sids[i]].id in r.hashes
                && r.hashes[r.stream[sids[i]].id].streamId == sids[i]
                && jobs[i] == JobOf(r.stream[sids[i]].id, Marked(r.hashes[r.stream[sids[i]].id]))
      {
        if i > 0 { assert sids[i] == rest[i - 1] && jobs[i] == jobs[1..][i - 1]; }
      }
    }
  }

  lemma MarkFirst(hashes: map<int, Hash>, id: int, sids: seq<int>)
    requires sids != [] && id in hashes && hashes[id].streamId == sids[0] && sids[0] !in sids[1..]
    requires forall x :: x in hashes && hashes[x].streamId == sids[0] ==> x == id
    ensures MarkedAll(hashes[id := Marked(hashes[id])], sids[1..]) == MarkedAll(hashes, sids)
  {
    var a, b := MarkedAll(hashes[id := Marked(hashes[id])], sids[1..]), MarkedAll(hashes, sids);
    assert forall x :: x in sids <==> x == sids[0] || x in sids[1..];
    forall x | x in hashes ensures x in a && x in b && a[x] == b[x] {}
    assert a.Keys == hashes.Keys && b.Keys == hashes.Keys;
  }

  lemma OneEntryPerHash(r: Db, t: int, open: set<int>, sid: int)
    requires PlacedBut(r, t, open) && sid in r.stream
    ensures forall id :: id in r.hashes && r.hashes[id].streamId == sid ==> id == r.stream[sid].id
  {
    assert EntryOk(r, t, open, sid);
    forall id | id in r.hashes && r.hashes[id].streamId == sid ensures id == r.stream[sid].id { assert HashOk(r, id); }
  }

  // ---------- settling and requeueing: the exact discipline ----------

  /** Dropping the entry of `id` leaves every other job where it was. */
  lemma OthersStay(r: Db, r': Db, t: int, id: int)
    requires Placed(r, t) && id in r.hashes
    requires r'.hashes - {id} == r.hashes - {id} && r'.seqNo == r.seqNo
    requires r'.stream == DropEntry(r, r.hashes[id]).stream && r'.pel == DropEntry(r, r.hashes[id]).pel
    requires r'.nextSid == r.nextSid && r'.delivered == r.delivered
    requires forall k: (string, int) :: k.1 != id ==> (k in r'.sched <==> k in r.sched) && (k in r'.dead <==>
               k in r.dead)
    requires forall k :: k in r.sched && k.1 != id && k in r'.sched ==> r'.sched[k] == r.sched[k]
    ensures StreamOk(r', t, {}) && forall x :: x in r'.hashes && x != id ==> HashOk(r', x)
    ensures forall k :: k in r'.sched && k.1 != id ==>
              k.1 in r'.hashes && r'.hashes[k.1].queue == k.0 && r'.hashes[k.1].streamId == 0
              && r'.hashes[k.1].status.Pending? && r'.sched[k] == r'.hashes[k.1].runAt
    ensures forall k :: k in r'.dead && k.1 != id ==>
              && k.1 in r'.hashes && r'.hashes[k.1].queue == k.0
              && r'.hashes[k.1].streamId == 0 && r'.hashes[k.1].status.Dead?
  {
    assert HashOk(r, id);
    forall x | x != id ensures (x in r'.hashes <==> x in r.hashes) && (x in r.hashes ==> r'.hashes[x] == r.hashes[x]) {
      assert x in r'.hashes - {id} <==> x in r.hashes - {id};
      if x in r.hashes { assert (r'.hashes - {id})[x] == (r.hashes - {id})[x]; }
    }
    forall sid | sid in r'.stream ensures EntryOk(r', t, {}, sid) { assert EntryOk(r, t, {}, sid); }
    forall x | x in r'.hashes && x != id ensures HashOk(r', x) { assert HashOk(r, x); }
  }

  /** Acknowledging keeps placement exactly when the job is in the stream. */
  lemma AckKeeps(r: Db, t: int, id: int)
    requires Placed(r, t) && id in r.hashes
    ensures Placed(AckScript(r, id), t) <==> r.hashes[id].streamId != 0
  {
    hide StreamOk;
    var r' := AckScript(r, id);
    assert HashOk(r, id);
    OthersStay(r, r', t, id);
    var k := (r.hashes[id].queue, id);
    if r.hashes[id].streamId == 0 {
      assert k in r'.sched || k in r'.dead;
    }
  }

  /** Retrying keeps placement exactly when the job is not in the dead set. */
  lemma RetryKeeps(r: Db, t: int, id: int, until: int)
    requires Placed(r, t) && id in r.hashes
    ensures Placed(RetryScript(r, id, until), t) <==> !r.hashes[id].status.Dead?
  {
    hide StreamOk;
    var r' := RetryScript(r, id, until);
    assert HashOk(r, id);
    if r.hashes[id].streamId != 0 { StreamIsLive(r, t, id); }
    OthersStay(r, r', t, id);
    var k := (r.hashes[id].queue, id);
    if r.hashes[id].status.Dead? {
      assert k in r'.dead;
    } else {
      assert HashOk(r', id);
      assert k !in r'.dead;
    }
  }

  /** Parking keeps placement exactly when the job is not in the scheduled set. */
  lemma DeadLetterKeeps(r: Db, t: int, id: int)
    requires Placed(r, t) && id in r.hashes
    ensures Placed(DeadLetterScript(r, id), t) <==> (r.hashes[id].queue, id) !in r.sched
  {
    hide StreamOk;
    var r' := DeadLetterScript(r, id);
    assert HashOk(r, id);
    OthersStay(r, r', t, id);
    var k := (r.hashes[id].queue, id);
    if k in r.sched {
      assert k in r'.sched;
    } else {
      assert HashOk(r', id);
    }
  }

  lemma StreamIsLive(r: Db, t: int, id: int)
    requires Placed(r, t) && id in r.hashes && r.hashes[id].streamId != 0
    ensures !r.hashes[id].status.Dead? && (r.hashes[id].queue, id) !in r.sched && (r.hashes[id].queue, id) !in r.dead
    ensures r.hashes[id].streamId in r.stream && r.stream[r.hashes[id].streamId].id == id
    ensures r.hashes[id].streamId < r.nextSid
  {
    assert HashOk(r, id);
    assert EntryOk(r, t, {}, r.hashes[id].streamId);
  }

  /** Requeueing keeps placement exactly when the job is dead. */
  lemma RequeueKeeps(r: Db, t: int, id: int)
    requires Placed(r, t) && id in r.hashes && 0 <= t
    ensures Placed(RequeueScript(r, id), t) <==> r.hashes[id].status.Dead?
  {
    var r' := RequeueScript(r, id);
    var h := r.hashes[id];
    assert HashOk(r, id);
    if h.status.Dead? {
      DeadRequeued(r, t, id);
    } else if h.streamId != 0 {
      StreamIsLive(r, t, id);
      assert h.streamId in r'.stream && r'.stream[h.streamId].id == id;
      assert !EntryOk(r', t, {}, h.streamId);
    } else {
      assert (h.queue, id) in r'.sched;
    }
  }

  lemma DeadRequeued(r: Db, t: int, id: int)
    requires Placed(r, t) && id in r.hashes && 0 <= t && r.hashes[id].status.Dead?
    ensures Placed(RequeueScript(r, id), t)
  {
    var r' := RequeueScript(r, id);
    assert HashOk(r, id);
    if r.hashes[id].streamId != 0 { StreamIsLive(r, t, id); }
    ScheduledHasNoEntry(r, t, {}, id);
    forall sid | sid in r'.stream ensures EntryOk(r', t, {}, sid) {
      if sid != r.nextSid { assert EntryOk(r, t, {}, sid); }
    }
    forall x | x in r'.hashes ensures HashOk(r', x) {
      if x != id { assert HashOk(r, x); }
    }
  }
}
