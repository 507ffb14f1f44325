/**
 * The presence map of presence.rs: entries owned by the node that set them, node heartbeats,
 * and expiry. Its emitted diffs replay to its state.
 */
module Presence {
  import opened Basics

  type Json = string

  /** A topic and its tenant slice. */
  datatype Partition = Partition(topic: string, tenant: Option<string>)

  datatype Entry = Entry(node: int, meta: Json)

  type Entries = map<Partition, map<string, Entry>>

  datatype PMap = PMap(entries: Entries, seen: map<int, int>)

  const NoPresence := PMap(map[], map[])

  /** What a partition's subscribers are told. */
  datatype Diff = Diff(part: Partition, joins: map<string, Json>, leaves: map<string, Json>)

  function Bucket(e: Entries, part: Partition): map<string, Entry> { if part in e then e[part] else map[] }

  function Lookup(e: Entries, part: Partition, key: string): Option<Entry> {
    if key in Bucket(e, part) then Some(Bucket(e, part)[key]) else None
  }

  function Metas(b: map<string, Entry>): map<string, Json> { map k | k in b :: b[k].meta }

  function StateOf(m: PMap, part: Partition): map<string, Json> { Metas(Bucket(m.entries, part)) }

  function SetEntry(m: PMap, part: Partition, key: string, node: int, meta: Json, now: int): (PMap, seq<Diff>) {
    var b := Bucket(m.entries, part)[key := Entry(node, meta)];
    (PMap(m.entries[part := b], m.seen[node := now]), [Diff(part, map[key := meta], map[])])
  }

  /** Only the owning node's clear removes. */
  function ClearEntry(m: PMap, part: Partition, key: string, node: int): (PMap, seq<Diff>) {
    var b := Bucket(m.entries, part);
    if key in b && b[key].node == node
    then (m.(entries := m.entries[part := b - {key}]), [Diff(part, map[], map[key := b[key].meta])])
    else (m, [])
  }

  function Touch(m: PMap, node: int, now: int): PMap { m.(seen := m.seen[node := now]) }

  /** Not heard from within the TTL, or never. */
  predicate IsDead(m: PMap, node: int, now: int, ttl: int) {
    node !in m.seen || Max(0, now - m.seen[node]) > ttl
  }

  function Living(m: PMap, b: map<string, Entry>, now: int, ttl: int): map<string, Entry> {
    map k | k in b && !IsDead(m, b[k].node, now, ttl) :: b[k]
  }

  function Departed(m: PMap, b: map<string, Entry>, now: int, ttl: int): map<string, Json> {
    map k | k in b && IsDead(m, b[k].node, now, ttl) :: b[k].meta
  }

  function Swept(m: PMap, now: int, ttl: int): PMap {
    PMap(map part | part in m.entries && Living(m, m.entries[part], now, ttl) != map[] ::
           Living(m, m.entries[part], now, ttl),
         map n | n in m.seen && !IsDead(m, n, now, ttl) :: m.seen[n])
  }

  /** The leave diffs of a sweep, in some order: one per partition that lost entries. */
  ghost predicate SweepDiffs(m: PMap, now: int, ttl: int, diffs: seq<Diff>) {
    && (forall i, j :: 0 <= i < j < |diffs| ==> diffs[i].part != diffs[j].part)
    && (forall d :: d in diffs ==>
          && d.part in m.entries && d.joins == map[]
          && d.leaves == Departed(m, m.entries[d.part], now, ttl) && d.leaves != map[])
    && (forall part :: part in m.entries && Departed(m, m.entries[part], now, ttl) != map[] ==>
          exists i :: 0 <= i < |diffs| && diffs[i].part == part)
  }

  /** Each entry that `node` owns, once, in some order. */
  ghost predicate ListsOwn(m: PMap, node: int, list: seq<(Partition, string)>) {
    && (forall part, key :: (part, key) in list <==>
          Lookup(m.entries, part, key).Some? && Lookup(m.entries, part, key).value.node == node)
    && (forall i, j :: 0 <= i < j < |list| ==> list[i] != list[j])
  }

  // ---------- what the map keeps ----------

  ghost predicate OwnersSeen(m: PMap) {
    forall part, key :: Lookup(m.entries, part, key).Some? ==> Lookup(m.entries, part, key).value.node in m.seen
  }

  lemma StepsKeepOwners(m: PMap, part: Partition, key: string, node: int, meta: Json, now: int, ttl: int)
    requires OwnersSeen(m)
    ensures OwnersSeen(SetEntry(m, part, key, node, meta, now).0)
    ensures OwnersSeen(ClearEntry(m, part, key, node).0)
    ensures OwnersSeen(Touch(m, node, now))
    ensures OwnersSeen(Swept(m, now, ttl))
  {
    SetLookup(m, part, key, node, meta, now);
    ClearLookup(m, part, key, node);
    SweepLookup(m, now, ttl);
  }

  /**
   * A sweep keeps exactly the entries, and exactly the heartbeats, of the nodes heard from within
   * the TTL, as they are; all others are gone.
   */
  lemma SweepIsExact(m: PMap, now: int, ttl: nat)
    ensures forall part, key ::
              var e := Lookup(m.entries, part, key);
              Lookup(Swept(m, now, ttl).entries, part, key) ==
              if e.Some? && e.value.node in m.seen && now <= m.seen[e.value.node] + ttl then e else None
    ensures forall node ::
              && (node in Swept(m, now, ttl).seen <==> node in m.seen && now <= m.seen[node] + ttl)
              && (node in Swept(m, now, ttl).seen ==> Swept(m, now, ttl).seen[node] == m.seen[node])
  {
    hide Lookup, Living;
    SweepLookup(m, now, ttl);
  }

  /** After a sweep every surviving entry's node was heard from within the TTL; all others are gone. */
  lemma SweepLookup(m: PMap, now: int, ttl: int)
    ensures forall part, key ::
              Lookup(Swept(m, now, ttl).entries, part, key) ==
              (var e := Lookup(m.entries, part, key);
               if e.Some? && !IsDead(m, e.value.node, now, ttl) then e else None)
    ensures forall part, key :: Lookup(Swept(m, now, ttl).entries, part, key).Some? ==>
              var node := Lookup(Swept(m, now, ttl).entries, part, key).value.node;
              node in Swept(m, now, ttl).seen && Max(0, now - Swept(m, now, ttl).seen[node]) <= ttl
  {
    var m' := Swept(m, now, ttl);
    forall part, key
      ensures Lookup(m'.entries, part, key) ==
              (var e := Lookup(m.entries, part, key); if e.Some? && !IsDead(m, e.value.node, now, ttl) then e else None)
    {
      if part in m.entries {
        var b, l := m.entries[part], Living(m, m.entries[part], now, ttl);
        assert key in l <==> key in b && !IsDead(m, b[key].node, now, ttl);
      }
    }
  }

  /**
   * An entry set, or whose node is heard from, at `now`, and nothing since: a sweep at `t` shows it
   * exactly until the TTL is over.
   */
  lemma ShownUntilSilent(m: PMap, part: Partition, key: string, node: int, meta: Json, now: int, t: int, ttl: nat)
    ensures var set1 := SetEntry(m, part, key, node, meta, now).0;
            Lookup(Swept(set1, t, ttl).entries, part, key) == if t <= now + ttl then Some(Entry(node, meta)) else None
    ensures var e := Lookup(m.entries, part, key);
            e.Some? && e.value.node == node ==>
              Lookup(Swept(Touch(m, node, now), t, ttl).entries, part, key) == if t <= now + ttl then e else None
  {
    hide Swept, Lookup;
    SetLookup(m, part, key, node, meta, now);
    SweepIsExact(SetEntry(m, part, key, node, meta, now).0, t, ttl);
    SweepIsExact(Touch(m, node, now), t, ttl);
  }

  lemma SetLookup(m: PMap, part: Partition, key: string, node: int, meta: Json, now: int)
    ensures forall p, k :: Lookup(SetEntry(m, part, key, node, meta, now).0.entries, p, k) ==
              if p == part && k == key then Some(Entry(node, meta)) else Lookup(m.entries, p, k)
  {
  }

  lemma ClearLookup(m: PMap, part: Partition, key: string, node: int)
    ensures forall p, k :: Lookup(ClearEntry(m, part, key, node).0.entries, p, k) ==
              (var e := Lookup(m.entries, p, k);
               if p == part && k == key && e.Some? && e.value.node == node then None else e)
  {
  }

  // ---------- diffs replay to the state ----------

  datatype Act =
    | DoSet(part: Partition, key: string, node: int, meta: Json, now: int)
    | DoClear(part: Partition, key: string, node: int)
    | DoTouch(node: int, now: int)
    | DoSweep(now: int, ttl: int)

  function Do(m: PMap, a: Act): PMap {
    match a
    case DoSet(part, key, node, meta, now) => SetEntry(m, part, key, node, meta, now).0
    case DoClear(part, key, node) => ClearEntry(m, part, key, node).0
    case DoTouch(node, now) => Touch(m, node, now)
    case DoSweep(now, ttl) => Swept(m, now, ttl)
  }

  /** The diffs an act emits. */
  ghost predicate Emits(m: PMap, a: Act, diffs: seq<Diff>) {
    match a
    case DoSet(part, key, node, meta, now) => diffs == SetEntry(m, part, key, node, meta, now).1
    case DoClear(part, key, node) => diffs == ClearEntry(m, part, key, node).1
    case DoTouch(_, _) => diffs == []
    case DoSweep(now, ttl) => SweepDiffs(m, now, ttl, diffs)
  }

  /** A subscriber of `part` that drops the leaves and adds the joins of each diff it is sent. */
  function Replay(state: map<string, Json>, part: Partition, diffs: seq<Diff>): map<string, Json>
    decreases diffs
  {
    if diffs == [] then state
    else
      var d := diffs[0];
      Replay(if d.part == part then (state - d.leaves.Keys) + d.joins else state, part, diffs[1..])
  }

  lemma {:induction false} ReplayIgnoresOthers(state: map<string, Json>, part: Partition, diffs: seq<Diff>)
    requires forall i :: 0 <= i < |diffs| ==> diffs[i].part != part
    ensures Replay(state, part, diffs) == state
    decreases diffs
  {
    if diffs != [] { ReplayIgnoresOthers(state, part, diffs[1..]); }
  }

  /** With at most one diff for the partition, replay applies just that one. */
  lemma {:induction false} ReplayOne(state: map<string, Json>, part: Partition, diffs: seq<Diff>, i: nat)
    requires i < |diffs| && diffs[i].part == part
    requires forall a, b :: 0 <= a < b < |diffs| ==> diffs[a].part != diffs[b].part
    ensures Replay(state, part, diffs) == (state - diffs[i].leaves.Keys) + diffs[i].joins
    decreases diffs
  {
    var rest := diffs[1..];
    if i == 0 {
      forall k | 0 <= k < |rest| ensures rest[k].part != part { assert rest[k] == diffs[k + 1]; }
      ReplayIgnoresOthers((state - diffs[0].leaves.Keys) + diffs[0].joins, part, rest);
    } else {
      forall a, b | 0 <= a < b < |rest| ensures rest[a].part != rest[b].part {
        assert rest[a] == diffs[a + 1] && rest[b] == diffs[b + 1];
      }
      assert diffs[0].part != diffs[i].part;
      ReplayOne(state, part, rest, i - 1);
    }
  }

  lemma ActReplays(m: PMap, a: Act, diffs: seq<Diff>, part: Partition)
    requires Emits(m, a, diffs)
    ensures Replay(StateOf(m, part), part, diffs) == StateOf(Do(m, a), part)
  {
    var before, after := StateOf(m, part), StateOf(Do(m, a), part);
    match a
    case DoSet(p, key, node, meta, now) =>
      assert diffs[1..] == [];
      assert p == part ==> after == (before - diffs[0].leaves.Keys) + diffs[0].joins;
    case DoClear(p, key, node) =>
      if diffs != [] {
        assert diffs[1..] == [];
        assert p == part ==> after == (before - diffs[0].leaves.Keys) + diffs[0].joins;
      }
    case DoTouch(_, _) =>
    case DoSweep(now, ttl) => SweepReplays(m, now, ttl, diffs, part);
  }

  lemma SweptState(m: PMap, now: int, ttl: int, part: Partition)
    ensures StateOf(Swept(m, now, ttl), part) == StateOf(m, part) - Departed(m, Bucket(m.entries, part), now, ttl).Keys
  {
    hide IsDead;
    var after, b := StateOf(Swept(m, now, ttl), part), Bucket(m.entries, part);
    assert forall k :: k in after <==> k in b && !IsDead(m, b[k].node, now, ttl);
  }

  lemma SweepReplays(m: PMap, now: int, ttl: int, diffs: seq<Diff>, part: Partition)
    requires SweepDiffs(m, now, ttl, diffs)
    ensures Replay(StateOf(m, part), part, diffs) == StateOf(Swept(m, now, ttl), part)
  {
    hide Living, Replay, StateOf, Swept, IsDead;
    var before, after := StateOf(m, part), StateOf(Swept(m, now, ttl), part);
    var gone := Departed(m, Bucket(m.entries, part), now, ttl);
    SweptState(m, now, ttl, part);
    if part in m.entries && gone != map[] {
      var i :| 0 <= i < |diffs| && diffs[i].part == part;
      assert diffs[i] in diffs;
      ReplayOne(before, part, diffs, i);
    } else {
      forall i | 0 <= i < |diffs| ensures diffs[i].part != part { assert diffs[i] in diffs; }
      ReplayIgnoresOthers(before, part, diffs);
      assert gone == map[];
    }
  }

  function DoAll(m: PMap, acts: seq<Act>): PMap
    decreases acts
  {
    if acts == [] then m else DoAll(Do(m, acts[0]), acts[1..])
  }

  ghost predicate EmitsAll(m: PMap, acts: seq<Act>, diffs: seq<seq<Diff>>)
    decreases acts
  {
    |diffs| == |acts| && (acts != [] ==> Emits(m, acts[0], diffs[0]) && EmitsAll(Do(m, acts[0]), acts[1..], diffs[1..]))
  }

  function ReplayAll(state: map<string, Json>, part: Partition, diffs: seq<seq<Diff>>): map<string, Json>
    decreases diffs
  {
    if diffs == [] then state else ReplayAll(Replay(state, part, diffs[0]), part, diffs[1..])
  }

  /** Over every run: replaying the diffs on any earlier partition state gives the current one. */
  lemma {:induction false} DiffsReplay(m: PMap, acts: seq<Act>, diffs: seq<seq<Diff>>, part: Partition)
    requires EmitsAll(m, acts, diffs)
    ensures ReplayAll(StateOf(m, part), part, diffs) == StateOf(DoAll(m, acts), part)
    decreases acts
  {
    hide Emits, Do, Replay, StateOf;
    if acts != [] {
      ActReplays(m, acts[0], diffs[0], part);
      DiffsReplay(Do(m, acts[0]), acts[1..], diffs[1..], part);
    }
  }

  /** Over every run from empty, each entry's owner has a heartbeat on record. */
  lemma {:induction false} OwnersSeenOverRuns(m: PMap, acts: seq<Act>)
    requires OwnersSeen(m)
    ensures OwnersSeen(DoAll(m, acts))
    decreases acts
  {
    hide OwnersSeen, SetEntry, ClearEntry, Swept;
    if acts != [] {
      var p := Partition("", None);
      match acts[0] {
        case DoSet(part, key, node, meta, now) => StepsKeepOwners(m, part, key, node, meta, now, 0);
        case DoClear(part, key, node) => StepsKeepOwners(m, part, key, node, "", 0, 0);
        case DoTouch(node, now) => StepsKeepOwners(m, p, "", node, "", now, 0);
        case DoSweep(now, ttl) => StepsKeepOwners(m, p, "", 0, "", now, ttl);
      }
      OwnersSeenOverRuns(Do(m, acts[0]), acts[1..]);
    }
  }

  // ---------- the source's mutable map ----------

  predicate Owns(e: Entries, part: Partition, key: string, node: int) {
    Lookup(e, part, key).Some? && Lookup(e, part, key).value.node == node
  }

  /** The keys of a bucket that `node` owns, each once. */
  method OwnKeys(b: map<string, Entry>, node: int) returns (keys: seq<string>)
    ensures forall k :: k in keys <==> k in b && b[k].node == node
    ensures forall i, j :: 0 <= i < j < |keys| ==> keys[i] != keys[j]
  {
    keys := [];
    var todo := b.Keys;
    while todo != {}
      invariant todo <= b.Keys
      invariant forall k :: k in keys <==> k in b && k !in todo && b[k].node == node
      invariant forall i, j :: 0 <= i < j < |keys| ==> keys[i] != keys[j]
      decreases todo
    {
      SetHasMember(todo);
      var k :| k in todo;
      if b[k].node == node {
        assert k !in keys;
        keys := keys + [k];
      }
      todo := todo - {k};
    }
  }

  lemma ListGrows(e: Entries, node: int, todo: set<Partition>, part: Partition,
                  before: seq<(Partition, string)>, mine: seq<string>, out: seq<(Partition, string)>)
    requires part in todo && part in e
    requires forall p, k :: (p, k) in before <==> p !in todo && Owns(e, p, k, node)
    requires forall i, j :: 0 <= i < j < |before| ==> before[i] != before[j]
    requires forall k :: k in mine <==> k in e[part] && e[part][k].node == node
    requires forall i, j :: 0 <= i < j < |mine| ==> mine[i] != mine[j]
    requires out == before + seq(|mine|, i requires 0 <= i < |mine| => (part, mine[i]))
    ensures forall p, k :: (p, k) in out <==> p !in todo - {part} && Owns(e, p, k, node)
    ensures forall i, j :: 0 <= i < j < |out| ==> out[i] != out[j]
  {
    var more := seq(|mine|, i requires 0 <= i < |mine| => (part, mine[i]));
    forall p, k ensures (p, k) in more <==> p == part && k in mine {
      if p == part && k in mine {
        var i :| 0 <= i < |mine| && mine[i] == k;
        assert more[i] == (p, k);
      }
    }
    forall i, j | 0 <= i < j < |out| ensures out[i] != out[j] {
      if i < |before| <= j {
        assert out[i] in before && out[j] in more;
        assert out[i] == (out[i].0, out[i].1) && out[j] == (out[j].0, out[j].1);
      }
    }
  }

  /** A sweep with the partitions of `todo` still ahead. */
  ghost predicate Sweeping(m: PMap, now: int, ttl: int, todo: set<Partition>, kept: Entries, diffs: seq<Diff>) {
    && (forall i, j :: 0 <= i < j < |diffs| ==> diffs[i].part != diffs[j].part)
    && (forall d :: d in diffs ==>
          && d.part in m.entries && d.part !in todo && d.joins == map[]
          && d.leaves == Departed(m, m.entries[d.part], now, ttl) && d.leaves != map[])
    && (forall part :: part in m.entries && part !in todo && Departed(m, m.entries[part], now, ttl) != map[] ==>
          exists i :: 0 <= i < |diffs| && diffs[i].part == part)
    && (forall part :: part in kept <==>
         part in m.entries && part !in todo && Living(m, m.entries[part], now, ttl) != map[])
    && (forall part :: part in kept ==> kept[part] == Living(m, m.entries[part], now, ttl))
  }

  lemma SweepStarts(m: PMap, now: int, ttl: int)
    ensures Sweeping(m, now, ttl, m.entries.Keys, map[], [])
  {
  }

  lemma SweepOne(m: PMap, now: int, ttl: int, todo: set<Partition>, kept: Entries, diffs: seq<Diff>, part: Partition)
    requires Sweeping(m, now, ttl, todo, kept, diffs) && part in todo && part in m.entries
    ensures var living, leaves := Living(m, m.entries[part], now, ttl), Departed(m, m.entries[part], now, ttl);
            Sweeping(m, now, ttl, todo - {part}, if living != map[] then kept[part := living] else kept,
                     if leaves != map[] then diffs + [Diff(part, map[], leaves)] else diffs)
  {
    hide Living, Departed, IsDead;
    var leaves := Departed(m, m.entries[part], now, ttl);
    var diffs' := if leaves != map[] then diffs + [Diff(part, map[], leaves)] else diffs;
    assert leaves != map[] ==> diffs'[|diffs|].part == part;
    assert forall i :: 0 <= i < |diffs| ==> diffs'[i] == diffs[i] && diffs[i] in diffs;
  }

  lemma SweepEnds(m: PMap, now: int, ttl: int, kept: Entries, diffs: seq<Diff>)
    requires Sweeping(m, now, ttl, {}, kept, diffs)
    ensures SweepDiffs(m, now, ttl, diffs) && kept == Swept(m, now, ttl).entries
  {
    hide Living, Departed, IsDead;
  }

  class PresenceMap {
    var entries: Entries
    var nodeSeen: map<int, int>

    function Abs(): PMap
      reads this
    {
      PMap(entries, nodeSeen)
    }

    constructor ()
      ensures Abs() == NoPresence
    {
      entries, nodeSeen := map[], map[];
    }

    method Put(part: Partition, key: string, node: int, meta: Json, now: int) returns (diffs: seq<Diff>)
      modifies this
      ensures (Abs(), diffs) == SetEntry(old(Abs()), part, key, node, meta, now)
    {
      nodeSeen := nodeSeen[node := now];
      var bucket := if part in entries then entries[part] else map[];
      entries := entries[part := bucket[key := Entry(node, meta)]];
      diffs := [Diff(part, map[key := meta], map[])];
    }

    method Clear(part: Partition, key: string, node: int) returns (diffs: seq<Diff>)
      modifies this
      ensures (Abs(), diffs) == ClearEntry(old(Abs()), part, key, node)
    {
      if part !in entries { return []; }
      var bucket := entries[part];
      if key in bucket && bucket[key].node == node {
        diffs := [Diff(part, map[], map[key := bucket[key].meta])];
        entries := entries[part := bucket - {key}];
      } else {
        diffs := [];
      }
    }

    method LocalEntries(node: int) returns (out: seq<(Partition, string)>)
      ensures ListsOwn(Abs(), node, out)
    {
      out := [];
      var todo := entries.Keys;
      while todo != {}
        invariant todo <= entries.Keys
        invariant forall part, key :: (part, key) in out <==> part !in todo && Owns(entries, part, key, node)
        invariant forall i, j :: 0 <= i < j < |out| ==> out[i] != out[j]
        decreases todo
      {
        SetHasMember(todo);
        var part :| part in todo;
        var mine := OwnKeys(entries[part], node);
        ghost var before := out;
        out := out + seq(|mine|, i requires 0 <= i < |mine| => (part, mine[i]));
        ListGrows(entries, node, todo, part, before, mine, out);
        todo := todo - {part};
      }
    }

    method TouchNode(node: int, now: int)
      modifies this
      ensures Abs() == Touch(old(Abs()), node, now)
    {
      nodeSeen := nodeSeen[node := now];
    }

    method Sweep(now: int, ttl: int) returns (diffs: seq<Diff>)
      modifies this
      ensures Abs() == Swept(old(Abs()), now, ttl)
      ensures SweepDiffs(old(Abs()), now, ttl, diffs)
    {
      hide IsDead, Living, Departed, Sweeping;
      var m := Abs();
      diffs := [];
      var kept: Entries := map[];
      var todo := entries.Keys;
      assert Sweeping(m, now, ttl, todo, kept, diffs) by { SweepStarts(m, now, ttl); }
      while todo != {}
        invariant Abs() == m && todo <= m.entries.Keys
        invariant Sweeping(m, now, ttl, todo, kept, diffs)
        decreases todo
      {
        SetHasMember(todo);
        var part :| part in todo;
        var living := Living(m, entries[part], now, ttl);
        var leaves := Departed(m, entries[part], now, ttl);
        SweepOne(m, now, ttl, todo, kept, diffs, part);
        if leaves != map[] { diffs := diffs + [Diff(part, map[], leaves)]; }
        if living != map[] { kept := kept[part := living]; }
        todo := todo - {part};
      }
      SweepEnds(m, now, ttl, kept, diffs);
      entries := kept;
      nodeSeen := map n | n in m.seen && !IsDead(m, n, now, ttl) :: m.seen[n];
    }
  }
}
