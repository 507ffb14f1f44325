/**
 * Who an operation of the hub will remove, which leaves it will publish, and who will still be
 * tracking a key afterwards, all read off the state before it.
 */
module HubDrops {
  import opened Basics
  import opened Text
  import opened Channel
  import opened Presence
  import opened HubSpec
  import opened HubSafety
  import opened HubPresence

  // ---------- slow watchers of several diffs ----------

  /** How many of the diffs go to this subscriber. */
  function Watched(cfg: Config, sub: Subscriber, diffs: seq<Diff>): nat {
    if diffs == [] then 0
    else
      Watched(cfg, sub, diffs[..|diffs| - 1]) + if Watches(cfg, sub, diffs[|diffs| - 1].part) then 1 else 0
  }

  /** A queue that does not take `k` more messages. */
  predicate Overflows(sub: Subscriber, k: nat) { k > 0 && !(sub.open && |sub.queue| + k <= CONN_QUEUE) }

  /** A fan-out of diffs drops exactly the watchers whose queues overflow. */
  lemma {:induction false} DiffsDrop(cfg: Config, conns: Conns, diffs: seq<Diff>, cid: int)
    requires cid in conns
    ensures var k, after := Watched(cfg, conns[cid], diffs), AfterDiffs(cfg, conns, diffs);
            && (cid in after <==> !Overflows(conns[cid], k))
            && (cid in after ==>
                  && |after[cid].queue| == |conns[cid].queue| + k
                  && after[cid] == conns[cid].(queue := after[cid].queue))
  {
    if diffs != [] {
      var front, d := diffs[..|diffs| - 1], diffs[|diffs| - 1];
      DiffsDrop(cfg, conns, front, cid);
      var mid := AfterDiffs(cfg, conns, front);
      if cid in mid { assert Watches(cfg, mid[cid], d.part) <==> Watches(cfg, conns[cid], d.part); }
    }
  }

  /** The partitions that lose entries at a sweep and that the subscriber watches. */
  function Losses(cfg: Config, m: PMap, now: int, ttl: int, sub: Subscriber): set<Partition> {
    set part | part in m.entries && Departed(m, m.entries[part], now, ttl) != map[] && Watches(cfg, sub, part)
  }

  function WatchedParts(cfg: Config, sub: Subscriber, diffs: seq<Diff>): set<Partition> {
    set i | 0 <= i < |diffs| && Watches(cfg, sub, diffs[i].part) :: diffs[i].part
  }

  lemma {:induction false} CountParts(cfg: Config, sub: Subscriber, diffs: seq<Diff>)
    requires forall i, j :: 0 <= i < j < |diffs| ==> diffs[i].part != diffs[j].part
    ensures |WatchedParts(cfg, sub, diffs)| == Watched(cfg, sub, diffs)
  {
    hide Watches;
    if diffs != [] {
      var n := |diffs| - 1;
      var front, d := diffs[..n], diffs[n];
      CountParts(cfg, sub, front);
      var a, b := WatchedParts(cfg, sub, diffs), WatchedParts(cfg, sub, front);
      assert d.part !in b;
      forall part ensures part in a <==> part in b || (Watches(cfg, sub, d.part) && part == d.part) {
        if part in a {
          var i :| 0 <= i < |diffs| && Watches(cfg, sub, diffs[i].part) && diffs[i].part == part;
          assert i < n ==> front[i].part == part;
        }
        if part in b {
          var i :| 0 <= i < n && Watches(cfg, sub, front[i].part) && front[i].part == part;
          assert diffs[i].part == part;
        }
        if Watches(cfg, sub, d.part) && part == d.part { assert diffs[n].part == part; }
      }
      assert a == if Watches(cfg, sub, d.part) then b + {d.part} else b;
    }
  }

  /** In whatever order a sweep's diffs go out, a watcher gets one per partition it watches that lost entries. */
  lemma WatchedAtSweep(cfg: Config, m: PMap, now: int, ttl: int, diffs: seq<Diff>, sub: Subscriber)
    requires SweepDiffs(m, now, ttl, diffs)
    ensures Watched(cfg, sub, diffs) == |Losses(cfg, m, now, ttl, sub)|
  {
    hide Watches, Departed;
    CountParts(cfg, sub, diffs);
    var a, b := WatchedParts(cfg, sub, diffs), Losses(cfg, m, now, ttl, sub);
    forall part ensures part in a <==> part in b {
      if part in a {
        var i :| 0 <= i < |diffs| && Watches(cfg, sub, diffs[i].part) && diffs[i].part == part;
        assert diffs[i] in diffs;
      }
      if part in b {
        var i :| 0 <= i < |diffs| && diffs[i].part == part;
        assert Watches(cfg, sub, diffs[i].part);
      }
    }
    assert a == b;
  }

  // ---------- who goes ----------

  /** Connection `cid` will be removed by the operation. */
  predicate Goes(cfg: Config, n: int, a: HubState, op: Op, cid: int)
    requires cid in a.conns
  {
    match op
    case DisconnectOp(c) => cid == c
    case ReplyOp(c, _) => cid == c && !HasRoom(a.conns[c])
    case JoinOp(c, channel, down) => cid !in AfterJoin(cfg, a.presence, a.conns, c, channel, down)
    case LeaveOp(c, channel) => cid !in AfterLeave(a.conns, c, channel)
    case TrackOp(c, channel, _) => cid !in AfterTrack(a.conns, c, channel)
    case PublishOp(c, channel, _) => cid !in AfterPublish(a.conns, c, channel)
    case DeliverOp(msg, now) =>
      if msg.BroadcastMsg? then SlowReceiver(n, a.conns, cid, msg)
      else Overflows(a.conns[cid], Watched(cfg, a.conns[cid], DeliveryDiffs(a.presence, msg, now)))
    case TickOp(now) =>
      Overflows(a.conns[cid], |Losses(cfg, Touch(a.presence, n, now), now, NODE_TTL_MS, a.conns[cid])|)
    case _ => false
  }

  lemma GoesExactly(cfg: Config, n: int, a: HubState, op: Op, b: HubState, pub: seq<BusMsg>, cid: int)
    requires OpStep(cfg, n, a, op, b, pub) && cid in a.conns
    ensures cid in b.conns <==> !Goes(cfg, n, a, op, cid)
  {
    hide Owed, LeavesOfGone, SweepDiffs, ListsOwn, Delivered, DeliveryDiffs, ParseChannel, Swept, AfterJoin,
         AfterDiffs, BroadcastFor, Receives, Watches, Losses, Watched;
    match op
    case DeliverOp(msg, now) =>
      if !msg.BroadcastMsg? { DiffsDrop(cfg, a.conns, DeliveryDiffs(a.presence, msg, now), cid); }
    case TickOp(now) =>
      var m := Touch(a.presence, n, now);
      var diffs :| SweepDiffs(m, now, NODE_TTL_MS, diffs) && b.conns == AfterDiffs(cfg, a.conns, diffs);
      DiffsDrop(cfg, a.conns, diffs, cid);
      WatchedAtSweep(cfg, m, now, NODE_TTL_MS, diffs, a.conns[cid]);
    case _ =>
  }

  // ---------- which keys are cleared ----------

  /** The operation is an untrack that will be accepted, of this key. */
  predicate Forgets(cfg: Config, a: HubState, op: Op, part: Partition, key: string) {
    && op.UntrackOp? && UntrackAccepted(a.conns, op.who, op.channel)
    && ItemFor(a.conns, op.who, op.channel).value == (ChannelId.Presence(part.topic), key)
    && PresenceTenant(cfg, part.topic, a.conns[op.who].principal) == part.tenant
  }

  /** A leave of the key will be published: someone who tracks it is torn down, or untracks it. */
  ghost predicate Clears(cfg: Config, n: int, a: HubState, op: Op, part: Partition, key: string) {
    || Forgets(cfg, a, op, part, key)
    || (!(op.DeliverOp? && op.msg.BroadcastMsg?)
        && exists cid :: cid in a.conns && Goes(cfg, n, a, op, cid) && Tracks(cfg, a.conns[cid], part, key))
  }

  /** The leaves of who went are the keys they tracked. */
  lemma GoneClear(cfg: Config, n: int, before: Conns, after: Conns, pub: seq<BusMsg>, part: Partition, key: string)
    requires LeavesOfGone(cfg, n, before, after, pub)
    ensures PresenceClear(part, key, n) in pub <==>
            exists cid :: cid in before && cid !in after && Tracks(cfg, before[cid], part, key)
  {
    hide ClearsOf, Tracks;
    forall cid | cid in before
      ensures PresenceClear(part, key, n) in ClearsOf(cfg, n, before[cid].principal, before[cid].tracked)
              <==> Tracks(cfg, before[cid], part, key)
    {
      TrackedIsOwed(cfg, n, before[cid], part, key);
    }
  }

  /** What a quiet operation publishes of leaves, for every operation but a broadcast delivery. */
  lemma QuietLeaves(cfg: Config, n: int, a: HubState, op: Op, b: HubState, pub: seq<BusMsg>)
    returns (leaves: seq<BusMsg>)
    requires OpStep(cfg, n, a, op, b, pub) && Quiet(a, op) && !(op.DeliverOp? && op.msg.BroadcastMsg?)
    ensures LeavesOfGone(cfg, n, a.conns, b.conns, leaves)
    ensures forall m: BusMsg :: m.PresenceClear? ==> (m in pub <==> m in leaves)
    ensures forall m :: m in pub ==> !m.PresenceSet?
  {
    hide LeavesOfGone, Owed, AfterDiffs, SweepDiffs, ListsOwn, Delivered, DeliveryDiffs, ParseChannel, Swept, HasRoom,
         BroadcastFor;
    leaves := pub;
    match op {
      case DisconnectOp(c) => OwedLeaves(cfg, n, a.conns, b.conns, c, pub);
      case ReceiveOp(_, _) => NobodyWent(cfg, n, a.conns, b.conns);
      case ReplyOp(c, _) => OwedLeaves(cfg, n, a.conns, b.conns, c, pub);
      case JoinOp(c, _, _) => OwedLeaves(cfg, n, a.conns, b.conns, c, pub);
      case LeaveOp(c, _) => OwedLeaves(cfg, n, a.conns, b.conns, c, pub);
      case TrackOp(c, _, _) => OwedLeaves(cfg, n, a.conns, b.conns, c, pub);
      case UntrackOp(_, _) => NobodyWent(cfg, n, a.conns, b.conns);
      case PublishOp(c, channel, payload) =>
        if BroadcastFor(cfg, n, a.conns, c, channel, payload).Some? {
          PublishRemovesNobody(cfg, n, a, c, channel, payload);
          NobodyWent(cfg, n, a.conns, b.conns);
          leaves := [];
        } else {
          OwedLeaves(cfg, n, a.conns, b.conns, c, pub);
        }
      case ServerPublishOp(_, _) => NobodyWent(cfg, n, a.conns, b.conns); leaves := [];
      case TenantPublishOp(_, _, _) => NobodyWent(cfg, n, a.conns, b.conns); leaves := [];
      case DeliverOp(_, _) => OnlyLeavesIn(cfg, n, a.conns, b.conns, pub);
      case TickOp(_) =>
        leaves := pub[1..];
        OnlyLeavesIn(cfg, n, a.conns, b.conns, leaves);
        assert pub == [pub[0]] + leaves;
    }
  }

  lemma OwedLeaves(cfg: Config, n: int, before: Conns, after: Conns, conn: int, pub: seq<BusMsg>)
    requires Owed(cfg, n, before, after, conn, pub) && before.Keys - {conn} <= after.Keys
    ensures LeavesOfGone(cfg, n, before, after, pub) && forall m :: m in pub ==> !m.PresenceSet?
  {
    hide Owed, LeavesOfGone;
    OwedIsLeaves(cfg, n, before, after, conn, pub);
    OnlyLeavesIn(cfg, n, before, after, pub);
  }

  lemma OnlyLeavesIn(cfg: Config, n: int, before: Conns, after: Conns, pub: seq<BusMsg>)
    requires LeavesOfGone(cfg, n, before, after, pub)
    ensures forall m :: m in pub ==> m.PresenceClear?
  {
  }

  lemma NobodyWent(cfg: Config, n: int, before: Conns, after: Conns)
    requires before.Keys <= after.Keys
    ensures LeavesOfGone(cfg, n, before, after, [])
  {
    assert forall cid :: cid in before ==> cid in after;
  }

  lemma PublishRemovesNobody(cfg: Config, n: int, a: HubState, conn: int, channel: string, payload: Json)
    requires BroadcastFor(cfg, n, a.conns, conn, channel, payload).Some?
    ensures AfterPublish(a.conns, conn, channel) == a.conns
    ensures BroadcastFor(cfg, n, a.conns, conn, channel, payload).value.BroadcastMsg?
  {
  }

  /** A leave of the key is published exactly as the state before says. */
  lemma ClearsExactly(cfg: Config, n: int, a: HubState, op: Op, b: HubState, pub: seq<BusMsg>, part: Partition,
                      key: string)
    requires OpStep(cfg, n, a, op, b, pub)
    ensures PresenceClear(part, key, n) in pub <==> Clears(cfg, n, a, op, part, key)
    ensures Clears(cfg, n, a, op, part, key) ==> !SetIn(pub, part, key)
  {
    hide LeavesOfGone, Owed, AfterDiffs, SweepDiffs, ListsOwn, Delivered, DeliveryDiffs, ParseChannel, Swept, HasRoom,
         BroadcastFor, AfterJoin, AfterLeave, AfterPublish, AfterBroadcast, Goes, Tracks;
    if Quiet(a, op) && !(op.DeliverOp? && op.msg.BroadcastMsg?) {
      var leaves := QuietLeaves(cfg, n, a, op, b, pub);
      GoneClear(cfg, n, a.conns, b.conns, leaves, part, key);
      forall cid | cid in a.conns ensures cid in b.conns <==> !Goes(cfg, n, a, op, cid) {
        GoesExactly(cfg, n, a, op, b, pub, cid);
      }
      assert !SetIn(pub, part, key);
    } else {
      LoudClears(cfg, n, a, op, b, pub, part, key);
    }
  }

  /** Connecting, tracking and broadcast deliveries clear nothing; an untrack clears its key. */
  lemma LoudClears(cfg: Config, n: int, a: HubState, op: Op, b: HubState, pub: seq<BusMsg>, part: Partition,
                   key: string)
    requires OpStep(cfg, n, a, op, b, pub) && (!Quiet(a, op) || (op.DeliverOp? && op.msg.BroadcastMsg?))
    ensures PresenceClear(part, key, n) in pub <==> Clears(cfg, n, a, op, part, key)
    ensures Clears(cfg, n, a, op, part, key) ==> !SetIn(pub, part, key)
  {
    hide LeavesOfGone, Owed, AfterDiffs, ListsOwn, Delivered, DeliveryDiffs, ParseChannel, Swept, HasRoom, Tracks,
         AfterJoin, AfterLeave, AfterPublish, AfterBroadcast;
    if op.UntrackOp? {
      var item := ItemFor(a.conns, op.who, op.channel).value;
      assert pub == [ClearFor(cfg, n, a.conns[op.who].principal, item)];
      assert pub[0] == PresenceClear(part, key, n) <==> Forgets(cfg, a, op, part, key);
    }
  }

  // ---------- who stays ----------

  /** Connection `cid` of the node will be there, and tracking the key as it does now. */
  ghost predicate KeepsTracking(cfg: Config, n: int, a: HubState, op: Op, part: Partition, key: string, cid: int) {
    && cid in a.conns && Tracks(cfg, a.conns[cid], part, key) && !Goes(cfg, n, a, op, cid)
    && !(Forgets(cfg, a, op, part, key) && cid == op.who)
  }

  /** Connection `cid` of node `m` stays and tracks the key, whoever of the nodes operates. */
  ghost predicate StaysAt(cfg: Config, s: System, n: int, op: Op, part: Partition, key: string, m: int, cid: int) {
    && m in s && cid in s[m].hub.conns && Tracks(cfg, s[m].hub.conns[cid], part, key)
    && (m == n ==> KeepsTracking(cfg, n, s[n].hub, op, part, key, cid))
  }

  /** Some connection that stays tracks the key, at this node or any other. */
  ghost predicate StaysTracked(cfg: Config, s: System, n: int, op: Op, part: Partition, key: string) {
    exists m, cid :: StaysAt(cfg, s, n, op, part, key, m, cid)
  }

  lemma StillTracking(cfg: Config, n: int, a: HubState, op: Op, b: HubState, pub: seq<BusMsg>,
                      part: Partition, key: string, cid: int)
    requires OpStep(cfg, n, a, op, b, pub) && IdsFresh(a) && cid in a.conns
    ensures cid in b.conns && Tracks(cfg, b.conns[cid], part, key) && !SetIn(pub, part, key) ==>
              KeepsTracking(cfg, n, a, op, part, key, cid)
    ensures KeepsTracking(cfg, n, a, op, part, key, cid) ==> cid in b.conns && Tracks(cfg, b.conns[cid], part, key)
  {
    hide LeavesOfGone, Owed, AfterDiffs, SweepDiffs, ListsOwn, Delivered, DeliveryDiffs, ParseChannel, Swept, HasRoom,
         BroadcastFor, AfterJoin, AfterLeave, AfterPublish, AfterBroadcast, AfterReceive, Goes;
    GoesExactly(cfg, n, a, op, b, pub, cid);
    if Quiet(a, op) {
      QuietKeeps(cfg, n, a, op, b, pub);
    } else if op.TrackOp? {
      TrackSets(cfg, n, a, op, b, pub);
    }
  }

  /** An accepted track announces exactly the key it adds. */
  lemma TrackSets(cfg: Config, n: int, a: HubState, op: Op, b: HubState, pub: seq<BusMsg>)
    requires OpStep(cfg, n, a, op, b, pub) && op.TrackOp? && TrackAccepted(a.conns, op.who, op.channel)
    ensures var item := ItemFor(a.conns, op.who, op.channel).value;
            && b.conns == a.conns[op.who := Tracking(a.conns[op.who], item)]
            && SetIn(pub, PartFor(cfg, item.0.name, a.conns[op.who].principal), item.1) && item.0.Presence?
  {
    hide ParseChannel;
    assert pub[0].PresenceSet?;
  }

  /** Whoever tracks a key after the operation tracked it before and stays, or the operation set it. */
  lemma WhoTracks(cfg: Config, n: int, a: HubState, op: Op, b: HubState, pub: seq<BusMsg>, part: Partition, key: string)
    requires OpStep(cfg, n, a, op, b, pub) && IdsFresh(a) && !SetIn(pub, part, key)
    ensures Tracked(cfg, b.conns, part, key) <==> exists cid :: KeepsTracking(cfg, n, a, op, part, key, cid)
  {
    hide OpStep, Tracks;
    if Tracked(cfg, b.conns, part, key) {
      var cid :| cid in b.conns && Tracks(cfg, b.conns[cid], part, key);
      NobodyNewTracks(cfg, n, a, op, b, pub, part, key, cid);
      StillTracking(cfg, n, a, op, b, pub, part, key, cid);
    }
    if cid :| KeepsTracking(cfg, n, a, op, part, key, cid) {
      StillTracking(cfg, n, a, op, b, pub, part, key, cid);
    }
  }

  lemma NobodyNewTracks(cfg: Config, n: int, a: HubState, op: Op, b: HubState, pub: seq<BusMsg>,
                        part: Partition, key: string, cid: int)
    requires OpStep(cfg, n, a, op, b, pub) && cid in b.conns && Tracks(cfg, b.conns[cid], part, key)
    ensures cid in a.conns
  {
    hide LeavesOfGone, Owed, AfterDiffs, SweepDiffs, ListsOwn, Delivered, DeliveryDiffs, ParseChannel, Swept, HasRoom,
         BroadcastFor, AfterJoin, AfterLeave, AfterPublish, AfterBroadcast, AfterReceive;
    if Quiet(a, op) { QuietKeeps(cfg, n, a, op, b, pub); }
  }
}
