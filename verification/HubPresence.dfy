/**
 * No phantom presence: whatever a node will show once the messages on their way to it have
 * landed is tracked by a live connection of the node that owns it.
 */
module HubPresence {
  import opened Basics
  import opened Text
  import opened Channel
  import opened Presence
  import opened HubSpec
  import opened HubSafety

  predicate Tracks(cfg: Config, sub: Subscriber, part: Partition, key: string) {
    && (ChannelId.Presence(part.topic), key) in sub.tracked
    && PresenceTenant(cfg, part.topic, sub.principal) == part.tenant
  }

  /** Some live connection tracks the key. */
  ghost predicate Tracked(cfg: Config, conns: Conns, part: Partition, key: string) {
    exists cid :: cid in conns && Tracks(cfg, conns[cid], part, key)
  }

  // ---------- what a key's entry becomes ----------

  function OnKey(e: Option<Entry>, m: BusMsg, part: Partition, key: string): Option<Entry> {
    match m
    case PresenceSet(p, k, node, meta) => if p == part && k == key then Some(Entry(node, meta)) else e
    case PresenceClear(p, k, node) => if p == part && k == key && e.Some? && e.value.node == node then None else e
    case _ => e
  }

  /** The entry once every message has been applied. */
  function Settled(e: Option<Entry>, msgs: seq<BusMsg>, part: Partition, key: string): Option<Entry>
    decreases msgs
  {
    if msgs == [] then e else Settled(OnKey(e, msgs[0], part, key), msgs[1..], part, key)
  }

  lemma DeliveredOnKey(m: PMap, msg: BusMsg, now: int, part: Partition, key: string)
    ensures Lookup(Delivered(m, msg, now).entries, part, key) == OnKey(Lookup(m.entries, part, key), msg, part, key)
  {
    match msg
    case PresenceSet(p, k, node, meta) => SetLookup(m, p, k, node, meta, now);
    case PresenceClear(p, k, node) => ClearLookup(m, p, k, node);
    case _ =>
  }

  lemma {:induction false} SettledConcat(e: Option<Entry>, a: seq<BusMsg>, b: seq<BusMsg>, part: Partition, key: string)
    ensures Settled(e, a + b, part, key) == Settled(Settled(e, a, part, key), b, part, key)
    decreases a
  {
    if a == [] {
      assert a + b == b;
    } else {
      assert (a + b)[0] == a[0] && (a + b)[1..] == a[1..] + b;
      SettledConcat(OnKey(e, a[0], part, key), a[1..], b, part, key);
    }
  }

  /** Forgetting an entry now can only make it absent later, never different. */
  lemma {:induction false} SettledFromNone(e: Option<Entry>, msgs: seq<BusMsg>, part: Partition, key: string)
    ensures Settled(None, msgs, part, key) == None || Settled(None, msgs, part, key) == Settled(e, msgs, part, key)
    decreases msgs
  {
    if msgs != [] {
      var m := msgs[0];
      if m.PresenceSet? && m.part == part && m.key == key {
      } else {
        SettledFromNone(OnKey(e, m, part, key), msgs[1..], part, key);
      }
    }
  }

  /** `pub` holds a set of the key. */
  ghost predicate SetIn(pub: seq<BusMsg>, part: Partition, key: string) {
    exists i :: 0 <= i < |pub| && pub[i].PresenceSet? && pub[i].part == part && pub[i].key == key
  }

  /** Presence messages speak for the node that publishes them. */
  ghost predicate OwnPresence(pub: seq<BusMsg>, n: int) {
    forall i :: 0 <= i < |pub| ==> (pub[i].PresenceSet? || pub[i].PresenceClear? ==> pub[i].node == n)
  }

  /** With no set among them, a node's messages remove exactly its own entries that they clear. */
  lemma {:induction false} SettledByClears(e: Option<Entry>, pub: seq<BusMsg>, part: Partition, key: string, n: int)
    requires OwnPresence(pub, n) && !SetIn(pub, part, key)
    ensures Settled(e, pub, part, key) ==
            if e.Some? && e.value.node == n && PresenceClear(part, key, n) in pub then None else e
    decreases pub
  {
    if pub != [] {
      var rest := pub[1..];
      assert forall i :: 0 <= i < |rest| ==> rest[i] == pub[i + 1];
      assert forall x :: x in pub <==> x == pub[0] || x in rest;
      SettledByClears(OnKey(e, pub[0], part, key), rest, part, key, n);
    }
  }

  /** The entry at node `m` once its inbox is drained. */
  ghost function Eventually(s: System, m: int, part: Partition, key: string): Option<Entry>
    requires m in s
  {
    Settled(Lookup(s[m].hub.presence.entries, part, key), s[m].inbox, part, key)
  }

  // ---------- what a move does to what will be shown ----------

  /** Expiry at one node. */
  predicate Sweeps(v: Move, m: int) { v.op.TickOp? && v.node == m }

  /** What node `m` will show of what is on its way, after the move's expiry and before its messages. */
  ghost function Upcoming(s: System, v: Move, m: int, part: Partition, key: string): Option<Entry>
    requires m in s
  {
    if Sweeps(v, m)
    then
      var swept := Swept(Touch(s[m].hub.presence, m, v.op.now), v.op.now, NODE_TTL_MS);
      Settled(Lookup(swept.entries, part, key), s[m].inbox, part, key)
    else Eventually(s, m, part, key)
  }

  /** Moves change what will be shown by their messages only, except that a tick forgets at its own node. */
  lemma EventuallyExactly(cfg: Config, s: System, v: Move, m: int, part: Partition, key: string)
    requires CanMove(cfg, s, v) && m in s
    ensures Eventually(Moved(s, v), m, part, key) == Settled(Upcoming(s, v, m, part, key), v.pub, part, key)
  {
    hide Owed, LeavesOfGone, SweepDiffs, ListsOwn, Delivered, DeliveryDiffs, ParseChannel, Swept, AfterJoin, AfterLeave,
         AfterTrack, AfterPublish, AfterSend, AfterReceive, AfterBroadcast, AfterDiffs, BroadcastFor, ItemFor, Lookup;
    var e, inbox := Lookup(s[m].hub.presence.entries, part, key), s[m].inbox;
    SettledConcat(e, inbox, v.pub, part, key);
    if m == v.node && v.op.DeliverOp? {
      DeliveredOnKey(s[m].hub.presence, inbox[0], v.op.now, part, key);
      SettledConcat(OnKey(e, inbox[0], part, key), inbox[1..], v.pub, part, key);
    } else if m == v.node && v.op.TickOp? {
      SettledConcat(Lookup(v.after.presence.entries, part, key), inbox, v.pub, part, key);
    }
  }

  /** A tick can only make what will be shown absent, never different. */
  lemma EventuallyAfter(cfg: Config, s: System, v: Move, m: int, part: Partition, key: string)
    requires CanMove(cfg, s, v) && m in s
    ensures var later := Eventually(Moved(s, v), m, part, key);
            var settled := Settled(Eventually(s, m, part, key), v.pub, part, key);
            later == settled || (Sweeps(v, m) && later == None)
  {
    hide OpStep, Moved, Lookup, Swept, Settled;
    EventuallyExactly(cfg, s, v, m, part, key);
    if Sweeps(v, m) {
      var e, inbox := Lookup(s[m].hub.presence.entries, part, key), s[m].inbox;
      SweepLookup(Touch(s[m].hub.presence, m, v.op.now), v.op.now, NODE_TTL_MS);
      TouchKeepsEntries(s[m].hub.presence, m, v.op.now);
      SettledConcat(e, inbox, v.pub, part, key);
      SettledConcat(None, inbox, v.pub, part, key);
      SettledFromNone(e, inbox + v.pub, part, key);
    }
  }

  lemma TouchKeepsEntries(m: PMap, n: int, now: int)
    ensures Touch(m, n, now).entries == m.entries
  {
  }

  // ---------- what each operation owes and pays ----------

  /**
   * A change of connections is accounted for by what is published: a key that loses its last
   * tracker is cleared, a key that is set has a tracker, and only own presence is spoken for.
   */
  ghost predicate Accounts(cfg: Config, n: int, before: Conns, after: Conns, pub: seq<BusMsg>) {
    && OwnPresence(pub, n)
    && (forall part, key :: Tracked(cfg, before, part, key) && !Tracked(cfg, after, part, key) ==>
          PresenceClear(part, key, n) in pub && !SetIn(pub, part, key))
    && (forall part, key :: SetIn(pub, part, key) ==> Tracked(cfg, after, part, key))
  }

  /** Connections that go are accounted for by the leaves of all they tracked. */
  lemma RemovalAccounts(cfg: Config, n: int, before: Conns, after: Conns, pub: seq<BusMsg>)
    requires Kept(before, after) && LeavesOfGone(cfg, n, before, after, pub)
    ensures Accounts(cfg, n, before, after, pub)
  {
    LeavesAreStamped(cfg, n, before, after, 0, pub);
    forall part, key | Tracked(cfg, before, part, key)
      ensures Tracked(cfg, after, part, key) || PresenceClear(part, key, n) in pub
    {
      var cid :| cid in before && Tracks(cfg, before[cid], part, key);
      if cid in after {
        assert Tracks(cfg, after[cid], part, key);
      } else {
        TrackedIsOwed(cfg, n, before[cid], part, key);
      }
    }
  }

  /** What a connection tracks is among the leaves it owes, and nothing else is. */
  lemma TrackedIsOwed(cfg: Config, n: int, sub: Subscriber, part: Partition, key: string)
    ensures PresenceClear(part, key, n) in ClearsOf(cfg, n, sub.principal, sub.tracked) <==> Tracks(cfg, sub, part, key)
  {
    var item := (ChannelId.Presence(part.topic), key);
    assert ClearFor(cfg, n, sub.principal, item) == PresenceClear(PartFor(cfg, part.topic, sub.principal), key, n);
  }

  lemma OwedIsLeaves(cfg: Config, n: int, before: Conns, after: Conns, conn: int, pub: seq<BusMsg>)
    requires Owed(cfg, n, before, after, conn, pub) && before.Keys - {conn} <= after.Keys
    ensures LeavesOfGone(cfg, n, before, after, pub)
  {
    hide ClearsOf;
    assert forall cid :: cid in before && cid !in after ==> cid == conn;
  }

  /** A quiet operation other than a broadcast delivery publishes exactly the leaves of who went (and its snapshot). */
  lemma QuietAccounts(cfg: Config, n: int, a: HubState, op: Op, b: HubState, pub: seq<BusMsg>)
    requires OpStep(cfg, n, a, op, b, pub) && Quiet(a, op) && !(op.DeliverOp? && op.msg.BroadcastMsg?)
    ensures Accounts(cfg, n, a.conns, b.conns, pub)
  {
    hide LeavesOfGone, Owed, AfterDiffs, SweepDiffs, ListsOwn, Delivered, DeliveryDiffs, ParseChannel, Swept, Accounts,
         HasRoom, BroadcastFor;
    QuietKeeps(cfg, n, a, op, b, pub);
    match op
    case DisconnectOp(c) => OwedAccounts(cfg, n, a.conns, b.conns, c, pub);
    case ReceiveOp(c, _) => NothingGoes(cfg, n, a.conns, b.conns, pub);
    case ReplyOp(c, _) => OwedAccounts(cfg, n, a.conns, b.conns, c, pub);
    case JoinOp(c, _, _) => OwedAccounts(cfg, n, a.conns, b.conns, c, pub);
    case LeaveOp(c, _) => OwedAccounts(cfg, n, a.conns, b.conns, c, pub);
    case TrackOp(c, _, _) => OwedAccounts(cfg, n, a.conns, b.conns, c, pub);
    case UntrackOp(_, _) => NothingGoes(cfg, n, a.conns, b.conns, pub);
    case PublishOp(c, channel, payload) =>
      if BroadcastFor(cfg, n, a.conns, c, channel, payload).Some? {
        PublishAccounts(cfg, n, a, b, c, channel, payload);
      }
      else { OwedAccounts(cfg, n, a.conns, b.conns, c, pub); }
    case ServerPublishOp(_, _) => NothingGoes(cfg, n, a.conns, b.conns, pub);
    case TenantPublishOp(_, _, _) => NothingGoes(cfg, n, a.conns, b.conns, pub);
    case DeliverOp(msg, now) => RemovalAccounts(cfg, n, a.conns, b.conns, pub);
    case TickOp(now) =>
      RemovalAccounts(cfg, n, a.conns, b.conns, pub[1..]);
      SnapshotFirst(cfg, n, a.conns, b.conns, pub);
  }

  lemma OwedAccounts(cfg: Config, n: int, before: Conns, after: Conns, conn: int, pub: seq<BusMsg>)
    requires Kept(before, after) && Owed(cfg, n, before, after, conn, pub) && before.Keys - {conn} <= after.Keys
    ensures Accounts(cfg, n, before, after, pub)
  {
    hide Owed, LeavesOfGone, Accounts;
    OwedIsLeaves(cfg, n, before, after, conn, pub);
    RemovalAccounts(cfg, n, before, after, pub);
  }

  /** Broadcasts say nothing of presence. */
  lemma NothingGoes(cfg: Config, n: int, before: Conns, after: Conns, pub: seq<BusMsg>)
    requires Kept(before, after) && after.Keys == before.Keys && forall i :: 0 <= i < |pub| ==> pub[i].BroadcastMsg?
    ensures Accounts(cfg, n, before, after, pub)
  {
    forall part, key | Tracked(cfg, before, part, key) ensures Tracked(cfg, after, part, key) {
      var cid :| cid in before && Tracks(cfg, before[cid], part, key);
      assert Tracks(cfg, after[cid], part, key);
    }
  }

  lemma PublishAccounts(cfg: Config, n: int, a: HubState, b: HubState, conn: int, channel: string, payload: Json)
    requires BroadcastFor(cfg, n, a.conns, conn, channel, payload).Some?
    requires b == a.(conns := AfterPublish(a.conns, conn, channel))
    ensures Accounts(cfg, n, a.conns, b.conns, [BroadcastFor(cfg, n, a.conns, conn, channel, payload).value])
  {
    hide ParseChannel;
    NothingGoes(cfg, n, a.conns, b.conns, [BroadcastFor(cfg, n, a.conns, conn, channel, payload).value]);
  }

  lemma SnapshotFirst(cfg: Config, n: int, before: Conns, after: Conns, pub: seq<BusMsg>)
    requires pub != [] && pub[0].PresenceSnapshot? && Accounts(cfg, n, before, after, pub[1..])
    ensures Accounts(cfg, n, before, after, pub)
  {
    hide Tracked;
    var rest := pub[1..];
    assert forall i :: 0 <= i < |rest| ==> rest[i] == pub[i + 1];
    assert forall m :: m in rest ==> m in pub;
    forall part, key | SetIn(pub, part, key) ensures SetIn(rest, part, key) {
      var i :| 0 <= i < |pub| && pub[i].PresenceSet? && pub[i].part == part && pub[i].key == key;
      assert rest[i - 1] == pub[i];
    }
  }

  lemma ConnectAccounts(cfg: Config, n: int, a: HubState, p: Option<Principal>)
    requires a.nextConn !in a.conns
    ensures Accounts(cfg, n, a.conns, a.conns[a.nextConn := NewSubscriber(p)], [])
  {
    var after := a.conns[a.nextConn := NewSubscriber(p)];
    forall part, key | Tracked(cfg, a.conns, part, key) ensures Tracked(cfg, after, part, key) {
      var cid :| cid in a.conns && Tracks(cfg, a.conns[cid], part, key);
      assert Tracks(cfg, after[cid], part, key);
    }
  }

  lemma TrackAccounts(cfg: Config, n: int, conns: Conns, conn: int, item: (ChannelId, string), meta: Json)
    requires conn in conns && item.0.Presence?
    ensures Accounts(cfg, n, conns, conns[conn := Tracking(conns[conn], item)],
                     [SetFor(cfg, n, conns[conn].principal, item, meta)])
  {
    var part := PartFor(cfg, item.0.name, conns[conn].principal);
    var after := conns[conn := Tracking(conns[conn], item)];
    assert Tracks(cfg, after[conn], part, item.1);
    forall p, k | Tracked(cfg, conns, p, k) ensures Tracked(cfg, after, p, k) {
      var cid :| cid in conns && Tracks(cfg, conns[cid], p, k);
      assert Tracks(cfg, after[cid], p, k);
    }
  }

  lemma UntrackAccounts(cfg: Config, n: int, conns: Conns, conn: int, item: (ChannelId, string))
    requires conn in conns && item in conns[conn].tracked && item.0.Presence?
    ensures Accounts(cfg, n, conns, conns[conn := Forgetting(conns[conn], item)],
                     [ClearFor(cfg, n, conns[conn].principal, item)])
  {
    var after := conns[conn := Forgetting(conns[conn], item)];
    var pub := [ClearFor(cfg, n, conns[conn].principal, item)];
    forall p, k | Tracked(cfg, conns, p, k) ensures Tracked(cfg, after, p, k) || PresenceClear(p, k, n) in pub {
      var cid :| cid in conns && Tracks(cfg, conns[cid], p, k);
      if cid == conn && item == (ChannelId.Presence(p.topic), k) {
        assert pub[0] == PresenceClear(p, k, n);
      } else {
        assert Tracks(cfg, after[cid], p, k);
      }
    }
  }

  /** Every operation but a broadcast delivery is accounted for. */
  lemma OpAccounts(cfg: Config, n: int, a: HubState, op: Op, b: HubState, pub: seq<BusMsg>)
    requires OpStep(cfg, n, a, op, b, pub) && IdsFresh(a) && !(op.DeliverOp? && op.msg.BroadcastMsg?)
    ensures Accounts(cfg, n, a.conns, b.conns, pub)
  {
    hide LeavesOfGone, Owed, AfterDiffs, SweepDiffs, ListsOwn, Delivered, DeliveryDiffs, ParseChannel, Swept, Accounts,
         AfterJoin, AfterLeave, AfterPublish, AfterSend, AfterReceive, AfterBroadcast, BroadcastFor;
    if Quiet(a, op) {
      QuietAccounts(cfg, n, a, op, b, pub);
    } else if op.ConnectOp? {
      ConnectAccounts(cfg, n, a, op.principal);
    } else if op.TrackOp? {
      TrackAccounts(cfg, n, a.conns, op.who, ItemFor(a.conns, op.who, op.channel).value, op.state);
    } else {
      UntrackAccounts(cfg, n, a.conns, op.who, ItemFor(a.conns, op.who, op.channel).value);
    }
  }

  // ---------- no phantoms ----------

  /** At every node, whatever is shown once in-flight messages land is tracked at its owner. */
  ghost predicate NoPhantom(cfg: Config, s: System) {
    forall m, part, key ::
      m in s && Eventually(s, m, part, key).Some? && Eventually(s, m, part, key).value.node in s ==>
      Tracked(cfg, s[Eventually(s, m, part, key).value.node].hub.conns, part, key)
  }

  /** Every node's ids are fresh. */
  ghost predicate SystemFresh(s: System) { forall n :: n in s ==> IdsFresh(s[n].hub) }

  /** A receiver whose queue takes no more. */
  predicate SlowReceiver(n: int, conns: Conns, cid: int, m: BusMsg)
    requires m.BroadcastMsg? && cid in conns
  {
    Receives(n, cid, conns[cid], m) && !HasRoom(conns[cid])
  }

  /** A slow receiver that tracks the key. */
  predicate SlowTracker(cfg: Config, n: int, conns: Conns, cid: int, m: BusMsg, part: Partition, key: string)
    requires m.BroadcastMsg?
  {
    cid in conns && SlowReceiver(n, conns, cid, m) && Tracks(cfg, conns[cid], part, key)
  }

  /** A connection that tracks the key and is no slow receiver. */
  predicate KeepsUp(cfg: Config, n: int, conns: Conns, cid: int, m: BusMsg, part: Partition, key: string)
    requires m.BroadcastMsg?
  {
    cid in conns && !SlowReceiver(n, conns, cid, m) && Tracks(cfg, conns[cid], part, key)
  }

  predicate IsBroadcast(v: Move) { v.op.DeliverOp? && v.op.msg.BroadcastMsg? }

  /** Somewhere the key will be shown as this node's. */
  ghost predicate ShownAs(s: System, n: int, part: Partition, key: string) {
    exists m :: m in s && Eventually(s, m, part, key).Some? && Eventually(s, m, part, key).value.node == n
  }

  /**
   * A move that strands nobody: a broadcast delivery removes no slow receiver that is the only
   * one behind a key shown as its node's.
   */
  ghost predicate Harmless(cfg: Config, s: System, v: Move)
    requires v.node in s
  {
    IsBroadcast(v) ==>
      var conns := s[v.node].hub.conns;
      forall cid, part, key ::
        SlowTracker(cfg, v.node, conns, cid, v.op.msg, part, key) && ShownAs(s, v.node, part, key) ==>
          exists other :: KeepsUp(cfg, v.node, conns, other, v.op.msg, part, key)
  }

  lemma AccountedMoveKeeps(cfg: Config, s: System, v: Move)
    requires CanMove(cfg, s, v) && NoPhantom(cfg, s)
    requires Accounts(cfg, v.node, s[v.node].hub.conns, v.after.conns, v.pub)
    ensures NoPhantom(cfg, Moved(s, v))
  {
    hide OpStep, Eventually, Tracked;
    var s' := Moved(s, v);
    forall m, part, key | m in s' && Eventually(s', m, part, key).Some? && Eventually(s', m, part, key).value.node in s'
      ensures Tracked(cfg, s'[Eventually(s', m, part, key).value.node].hub.conns, part, key)
    {
      EventuallyAfter(cfg, s, v, m, part, key);
      var e := Eventually(s, m, part, key);
      if SetIn(v.pub, part, key) {
        SettledOwner(e, v.pub, part, key, v.node);
      } else {
        SettledByClears(e, v.pub, part, key, v.node);
      }
    }
  }

  /** A node's messages leave an entry as it was, or its own, or none. */
  lemma {:induction false} SettledOwner(e: Option<Entry>, pub: seq<BusMsg>, part: Partition, key: string, n: int)
    requires OwnPresence(pub, n)
    ensures var e' := Settled(e, pub, part, key); e' == e || e' == None || e'.value.node == n
    decreases pub
  {
    if pub != [] {
      var rest := pub[1..];
      assert forall i :: 0 <= i < |rest| ==> rest[i] == pub[i + 1];
      SettledOwner(OnKey(e, pub[0], part, key), rest, part, key, n);
    }
  }

  /** A broadcast delivery changes nothing that will be shown. */
  lemma BroadcastShowsTheSame(cfg: Config, s: System, v: Move, m: int, part: Partition, key: string)
    requires CanMove(cfg, s, v) && IsBroadcast(v) && m in s
    ensures Eventually(Moved(s, v), m, part, key) == Eventually(s, m, part, key)
  {
    hide AfterBroadcast, Lookup;
    EventuallyAfter(cfg, s, v, m, part, key);
  }

  lemma SurvivingTrackers(cfg: Config, n: int, conns: Conns, m: BusMsg, part: Partition, key: string)
    requires m.BroadcastMsg?
    ensures Tracked(cfg, AfterBroadcast(n, conns, m), part, key) <==>
            exists other :: KeepsUp(cfg, n, conns, other, m, part, key)
  {
    hide Receives, HasRoom;
    var after := AfterBroadcast(n, conns, m);
    assert forall cid :: cid in after <==> cid in conns && !SlowReceiver(n, conns, cid, m);
    assert forall cid :: cid in after ==> (Tracks(cfg, after[cid], part, key) <==> Tracks(cfg, conns[cid], part, key));
    if other :| KeepsUp(cfg, n, conns, other, m, part, key) {
      assert other in after && Tracks(cfg, after[other], part, key);
    }
    if Tracked(cfg, after, part, key) {
      var cid :| cid in after && Tracks(cfg, after[cid], part, key);
      assert KeepsUp(cfg, n, conns, cid, m, part, key);
    }
  }

  /**
   * The bare removal, exactly: from a state without phantoms, a broadcast delivery leaves none if
   * and only if each key that some node will show as this node's, and that a slow receiver tracks,
   * has a tracker that is not a slow receiver.
   */
  lemma BareRemovalIsExact(cfg: Config, s: System, v: Move)
    requires CanMove(cfg, s, v) && NoPhantom(cfg, s) && IsBroadcast(v)
    ensures NoPhantom(cfg, Moved(s, v)) <==> Harmless(cfg, s, v)
  {
    hide OpStep, Eventually, SlowReceiver, Tracks;
    var s', n := Moved(s, v), v.node;
    var conns := s[n].hub.conns;
    assert v.after.conns == AfterBroadcast(n, conns, v.op.msg) by { BroadcastConns(cfg, s, v); }
    if Harmless(cfg, s, v) {
      forall m, part, key
        | m in s' && Eventually(s', m, part, key).Some? && Eventually(s', m, part, key).value.node in s'
        ensures Tracked(cfg, s'[Eventually(s', m, part, key).value.node].hub.conns, part, key)
      {
        BroadcastShowsTheSame(cfg, s, v, m, part, key);
        if Eventually(s, m, part, key).value.node == n {
          assert ShownAs(s, n, part, key);
          assert Tracked(cfg, conns, part, key);
          var cid :| cid in conns && Tracks(cfg, conns[cid], part, key);
          var bm := v.op.msg;
          assert SlowTracker(cfg, n, conns, cid, bm, part, key) || KeepsUp(cfg, n, conns, cid, bm, part, key);
          SurvivingTrackers(cfg, n, conns, v.op.msg, part, key);
        }
      }
    }
    if NoPhantom(cfg, s') {
      forall cid, part, key | SlowTracker(cfg, n, conns, cid, v.op.msg, part, key) && ShownAs(s, n, part, key)
        ensures exists other :: KeepsUp(cfg, n, conns, other, v.op.msg, part, key)
      {
        var m :| m in s && Eventually(s, m, part, key).Some? && Eventually(s, m, part, key).value.node == n;
        BroadcastShowsTheSame(cfg, s, v, m, part, key);
        SurvivingTrackers(cfg, n, conns, v.op.msg, part, key);
      }
    }
  }

  lemma BroadcastConns(cfg: Config, s: System, v: Move)
    requires CanMove(cfg, s, v) && IsBroadcast(v)
    ensures v.after.conns == AfterBroadcast(v.node, s[v.node].hub.conns, v.op.msg)
  {
  }

  /** One move: no phantoms before, then none after exactly if the move is harmless. */
  lemma MoveIsExact(cfg: Config, s: System, v: Move)
    requires CanMove(cfg, s, v) && NoPhantom(cfg, s) && SystemFresh(s)
    ensures NoPhantom(cfg, Moved(s, v)) <==> Harmless(cfg, s, v)
    ensures SystemFresh(Moved(s, v))
  {
    hide OpStep, NoPhantom, Accounts;
    StepKeepsIds(cfg, v.node, s[v.node].hub, v.op, v.after, v.pub);
    if IsBroadcast(v) {
      BareRemovalIsExact(cfg, s, v);
    } else {
      OpAccounts(cfg, v.node, s[v.node].hub, v.op, v.after, v.pub);
      AccountedMoveKeeps(cfg, s, v);
    }
  }

  // ---------- whole runs ----------

  /** No phantom at any point of the run. */
  ghost predicate NeverPhantom(cfg: Config, s: System, moves: seq<Move>)
    decreases moves
  {
    NoPhantom(cfg, s) && (moves == [] || NeverPhantom(cfg, Moved(s, moves[0]), moves[1..]))
  }

  ghost predicate AllHarmless(cfg: Config, s: System, moves: seq<Move>)
    requires IsRun(cfg, s, moves)
    decreases moves
  {
    moves == [] || (Harmless(cfg, s, moves[0]) && AllHarmless(cfg, Moved(s, moves[0]), moves[1..]))
  }

  lemma {:induction false} PhantomsExactly(cfg: Config, s: System, moves: seq<Move>)
    requires NoPhantom(cfg, s) && SystemFresh(s) && IsRun(cfg, s, moves)
    ensures NeverPhantom(cfg, s, moves) <==> AllHarmless(cfg, s, moves)
    decreases moves
  {
    hide NoPhantom, SystemFresh, CanMove, Moved, Harmless;
    if moves != [] {
      var s' := Moved(s, moves[0]);
      MoveIsExact(cfg, s, moves[0]);
      if NoPhantom(cfg, s') { PhantomsExactly(cfg, s', moves[1..]); }
    }
  }

  /**
   * No phantom presence, over every run of every operation on any number of nodes: the run never
   * has a phantom if and only if each broadcast delivery in it is harmless.
   */
  lemma NoPhantomExactly(cfg: Config, s: System, moves: seq<Move>)
    requires FreshSystem(s) && IsRun(cfg, s, moves)
    ensures NeverPhantom(cfg, s, moves) <==> AllHarmless(cfg, s, moves)
  {
    PhantomsExactly(cfg, s, moves);
  }
}
