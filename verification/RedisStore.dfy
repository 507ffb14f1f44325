/**
 * The job store over Redis of redis_store.rs: the seven scripts as atomic steps over hashes,
 * ready streams with a consumer group, scheduled sets and dead sets, and the promote, reclaim,
 * read and mark sequence of `lease`. Stream ids are drawn from one rising counter; 0 stands for
 * "no stream id". How idle a pending entry is, and how ties between equal scores break, are
 * inputs.
 */
module RedisStore {
  import opened Basics
  import opened JobStore

  datatype Hash = Hash(
    name: string, queue: string, payload: string, runAt: int, attempts: nat, maxAttempts: nat,
    status: Status, idem: string, createdAt: int, streamId: int)

  datatype Entry = Entry(queue: string, id: int)

  datatype Db = Db(
    seqNo: int,
    hashes: map<int, Hash>,
    idem: map<string, int>,
    stream: map<int, Entry>,
    nextSid: int,
    /** Entries delivered to the group and not acknowledged. */
    pel: set<int>,
    /** Per queue, the last entry delivered. */
    delivered: map<string, int>,
    sched: map<(string, int), int>,
    dead: set<(string, int)>)

  const EmptyDb := Db(0, map[], map[], map[], 1, {}, map[], map[], {})

  function Delivered(r: Db, queue: string): int { if queue in r.delivered then r.delivered[queue] else 0 }

  // ---------- the scripts ----------

  /** XADD, and the hash's `stream_id` set to the new entry. */
  function AddToStream(r: Db, id: int, h: Hash): Db {
    r.(stream := r.stream[r.nextSid := Entry(h.queue, id)], nextSid := r.nextSid + 1,
       hashes := r.hashes[id := h.(streamId := r.nextSid)])
  }

  /** XACK and XDEL of the entry a hash points to, if any. */
  function DropEntry(r: Db, h: Hash): Db {
    if h.streamId == 0 then r else r.(stream := r.stream - {h.streamId}, pel := r.pel - {h.streamId})
  }

  function EnqueueScript(r: Db, n: NewJob, now: int): (Db, EnqueueOutcome) {
    if n.key.Some? && n.key.value in r.idem then (r, Duplicate(r.idem[n.key.value]))
    else
      var id := r.seqNo + 1;
      var runAt := GetOr(n.runAt, now);
      var h := Hash(n.name, n.queue, n.payload, runAt, 0, GetOr(n.maxAttempts, DEFAULT_MAX_ATTEMPTS),
                    Pending, GetOr(n.key, ""), now, 0);
      var idem := if n.key.Some? then r.idem[n.key.value := id] else r.idem;
      var r1 := r.(seqNo := id, idem := idem);
      (if runAt <= now then AddToStream(r1, id, h)
       else r1.(hashes := r.hashes[id := h], sched := r.sched[(n.queue, id) := runAt]),
       Inserted(id))
  }

  /** One member of the promote loop: onto the stream if its hash is still there, off the schedule anyway. */
  function PromoteOne(r: Db, queue: string, id: int): Db {
    var r1 := if id in r.hashes then AddToStream(r, id, r.hashes[id]) else r;
    r1.(sched := r1.sched - {(queue, id)})
  }

  function PromoteAll(r: Db, queue: string, ids: seq<int>): Db
    decreases ids
  {
    if ids == [] then r else PromoteAll(PromoteOne(r, queue, ids[0]), queue, ids[1..])
  }

  /** Scheduled members of the queue with score at most `now`. */
  function DueScheduled(r: Db, queue: string, now: int): set<int> {
    set k | k in r.sched && k.0 == queue && r.sched[k] <= now :: k.1
  }

  function Score(r: Db, queue: string, id: int): int {
    if (queue, id) in r.sched then r.sched[(queue, id)] else 0
  }

  /** A reply ZRANGEBYSCORE may give: the lowest scores first, at most `max` of them. */
  ghost predicate PromoteReply(r: Db, queue: string, now: int, max: nat, ids: seq<int>) {
    && (forall i, j :: 0 <= i < j < |ids| ==> ids[i] != ids[j])
    && (forall id :: id in ids ==> id in DueScheduled(r, queue, now))
    && |ids| == Min(max, |DueScheduled(r, queue, now)|)
    && (forall y, x :: y in ids && x in DueScheduled(r, queue, now) && x !in ids ==>
          Score(r, queue, y) <= Score(r, queue, x))
  }

  /** A reply XAUTOCLAIM may give: distinct pending entries of the queue that were idle long enough. */
  ghost predicate ReclaimReply(r: Db, queue: string, stale: set<int>, max: nat, sids: seq<int>) {
    && |sids| <= max
    && (forall i, j :: 0 <= i < j < |sids| ==> sids[i] != sids[j])
    && (forall sid :: sid in sids ==> sid in r.pel && sid in stale && sid in r.stream && r.stream[sid].queue == queue)
  }

  function Undelivered(r: Db, queue: string): set<int> {
    set sid | sid in r.stream && r.stream[sid].queue == queue && sid > Delivered(r, queue)
  }

  function Ascending(s: set<int>): (r: seq<int>)
    ensures forall x :: x in r <==> x in s
    ensures forall i, j :: 0 <= i < j < |r| ==> r[i] < r[j]
  {
    if s == {} then []
    else
      var m := LeastId(s);
      var rest := Ascending(s - {m});
      assert forall i :: 0 <= i < |rest| ==> rest[i] in rest && m < rest[i];
      [m] + rest
  }

  /** XREADGROUP `>`: the first `n` undelivered entries become pending. */
  function ReadGroup(r: Db, queue: string, n: nat): (Db, seq<int>) {
    var sids := Take(Ascending(Undelivered(r, queue)), n);
    if sids == [] then (r, [])
    else (r.(pel := r.pel + (set sid | sid in sids), delivered := r.delivered[queue := sids[|sids| - 1]]), sids)
  }

  function JobOf(id: int, h: Hash): Job {
    Job(id, h.name, h.queue, h.payload, h.runAt, h.attempts, h.maxAttempts, h.status,
        if h.idem == "" then None else Some(h.idem), None, h.createdAt)
  }

  /** Mark one claimed entry leased; an entry whose hash is gone is dropped. */
  function LeaseEntry(r: Db, sid: int): (Db, Option<Job>) {
    if sid !in r.stream then (r, None)
    else
      var id := r.stream[sid].id;
      if id !in r.hashes then (r.(stream := r.stream - {sid}, pel := r.pel - {sid}), None)
      else
        var h := r.hashes[id].(attempts := r.hashes[id].attempts + 1, status := Leased, streamId := sid);
        (r.(hashes := r.hashes[id := h]), Some(JobOf(id, h)))
  }

  function LeaseEntries(r: Db, sids: seq<int>): (Db, seq<Job>)
    decreases sids
  {
    if sids == [] then (r, [])
    else
      var (r1, job) := LeaseEntry(r, sids[0]);
      var (r2, jobs) := LeaseEntries(r1, sids[1..]);
      (r2, if job.Some? then [job.value] + jobs else jobs)
  }

  function InsertById(j: Job, s: seq<Job>): seq<Job> {
    if s == [] || j.id <= s[0].id then [j] + s else [s[0]] + InsertById(j, s[1..])
  }

  function SortById(s: seq<Job>): seq<Job> {
    if s == [] then [] else InsertById(s[0], SortById(s[1..]))
  }

  /** The whole of `lease`, with the server's replies `promoted` and `reclaimed`. */
  function LeaseAll(r: Db, queue: string, max: nat, promoted: seq<int>, reclaimed: seq<int>): (Db, seq<Job>) {
    var r1 := PromoteAll(r, queue, promoted);
    var (r2, unread) := if |reclaimed| < max then ReadGroup(r1, queue, max - |reclaimed|) else (r1, []);
    var (r3, jobs) := LeaseEntries(r2, reclaimed + unread);
    (r3, SortById(jobs))
  }

  function AckScript(r: Db, id: int): Db {
    if id !in r.hashes then r
    else
      var r1 := DropEntry(r, r.hashes[id]);
      r1.(hashes := r1.hashes - {id})
  }

  function RetryScript(r: Db, id: int, until: int): Db {
    if id !in r.hashes then r
    else
      var h := r.hashes[id];
      var r1 := DropEntry(r, h);
      r1.(sched := r1.sched[(h.queue, id) := until],
          hashes := r1.hashes[id := h.(status := Pending, runAt := until, streamId := 0)])
  }

  function DeadLetterScript(r: Db, id: int): Db {
    if id !in r.hashes then r
    else
      var h := r.hashes[id];
      var r1 := DropEntry(r, h);
      r1.(dead := r1.dead + {(h.queue, id)}, hashes := r1.hashes[id := h.(status := Dead, streamId := 0)])
  }

  function RequeueScript(r: Db, id: int): Db {
    if id !in r.hashes then r
    else
      var h := r.hashes[id];
      AddToStream(r.(dead := r.dead - {(h.queue, id)}), id, h.(status := Pending, attempts := 0, runAt := 0))
  }

  // ---------- the store as it drives the server ----------

  class Client {
    var db: Db

    constructor ()
      ensures db == EmptyDb
    {
      db := EmptyDb;
    }

    method Promote(queue: string, promoted: seq<int>)
      modifies this
      ensures db == PromoteAll(old(db), queue, promoted)
    {
      var i := 0;
      while i < |promoted|
        invariant 0 <= i <= |promoted|
        invariant PromoteAll(db, queue, promoted[i..]) == PromoteAll(old(db), queue, promoted)
      {
        assert promoted[i..][1..] == promoted[i + 1..];
        db := PromoteOne(db, queue, promoted[i]);
        i := i + 1;
      }
    }

    method Mark(claimed: seq<int>) returns (leased: seq<Job>)
      modifies this
      ensures (db, leased) == LeaseEntries(old(db), claimed)
    {
      hide LeaseEntry;
      ghost var want := LeaseEntries(db, claimed);
      leased := [];
      var i := 0;
      while i < |claimed|
        invariant 0 <= i <= |claimed|
        invariant want.0 == LeaseEntries(db, claimed[i..]).0
        invariant want.1 == leased + LeaseEntries(db, claimed[i..]).1
      {
        assert claimed[i..][1..] == claimed[i + 1..];
        var (r, job) := LeaseEntry(db, claimed[i]);
        db := r;
        if job.Some? {
          ghost var tail := LeaseEntries(db, claimed[i + 1..]).1;
          assert leased + ([job.value] + tail) == leased + [job.value] + tail;
          leased := leased + [job.value];
        }
        i := i + 1;
      }
      assert leased + [] == leased;
    }

    /** Promote, reclaim, read, mark: `promoted` and `reclaimed` are the server's replies. */
    method Lease(queue: string, max: nat, promoted: seq<int>, reclaimed: seq<int>) returns (leased: seq<Job>)
      modifies this
      ensures (db, leased) == LeaseAll(old(db), queue, max, promoted, reclaimed)
    {
      hide ReadGroup, SortById, LeaseEntries, PromoteAll;
      Promote(queue, promoted);
      var claimed := reclaimed;
      if |claimed| < max {
        var (r, unread) := ReadGroup(db, queue, max - |claimed|);
        db := r;
        claimed := claimed + unread;
      } else {
        assert claimed + [] == claimed;
      }
      leased := Mark(claimed);
      leased := SortById(leased);
    }
  }
}
