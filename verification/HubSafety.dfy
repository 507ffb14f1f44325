/**
 * Any number of hub nodes on one bus, over every run of their operations: tenants never see each
 * other's broadcasts, and nobody is shown a presence entry without someone behind it, except
 * exactly where a broadcast's bare removal of slow consumers leaves one.
 */
module HubSafety {
  import opened Basics
  import opened Text
  import opened Channel
  import opened Presence
  import opened HubSpec

  // ---------- the system ----------

  /** A node and the bus messages on their way to it. */
  datatype Node = Node(hub: HubState, inbox: seq<BusMsg>)

  type System = map<int, Node>

  /** Node `node` performs `op`, becoming `after` and publishing `pub`. */
  datatype Move = Move(node: int, op: Op, after: HubState, pub: seq<BusMsg>)

  ghost predicate CanMove(cfg: Config, s: System, v: Move) {
    && v.node in s
    && (v.op.DeliverOp? ==> s[v.node].inbox != [] && s[v.node].inbox[0] == v.op.msg)
    && OpStep(cfg, v.node, s[v.node].hub, v.op, v.after, v.pub)
  }

  /** Everyone, the publisher included, receives what was published; a delivery takes the oldest message. */
  function Moved(s: System, v: Move): System {
    map m | m in s ::
      var inbox := if m == v.node && v.op.DeliverOp? && s[m].inbox != [] then s[m].inbox[1..] else s[m].inbox;
      Node(if m == v.node then v.after else s[m].hub, inbox + v.pub)
  }

  ghost predicate IsRun(cfg: Config, s: System, moves: seq<Move>)
    decreases moves
  {
    moves == [] || (CanMove(cfg, s, moves[0]) && IsRun(cfg, Moved(s, moves[0]), moves[1..]))
  }

  function EndOf(s: System, moves: seq<Move>): System
    decreases moves
  {
    if moves == [] then s else EndOf(Moved(s, moves[0]), moves[1..])
  }

  /** Nothing connected, nothing shown, nothing in flight. */
  ghost predicate FreshSystem(s: System) { forall n :: n in s ==> s[n] == Node(NewHub, []) }

  // ---------- connection ids ----------

  /** Connection ids are never reused. */
  ghost predicate IdsFresh(h: HubState) { forall cid :: cid in h.conns ==> 0 <= cid < h.nextConn }

  /** Nobody new, and everyone who stays tracks what they tracked. */
  ghost predicate Kept(before: Conns, after: Conns) {
    forall cid :: cid in after ==>
      cid in before && after[cid].tracked == before[cid].tracked && after[cid].principal == before[cid].principal
  }

  lemma DiffKeeps(cfg: Config, conns: Conns, d: Diff)
    ensures Kept(conns, AfterDiff(cfg, conns, d))
  {
  }

  lemma {:induction false} DiffsKeep(cfg: Config, conns: Conns, diffs: seq<Diff>)
    ensures Kept(conns, AfterDiffs(cfg, conns, diffs))
  {
    hide AfterDiff;
    if diffs != [] {
      var front := diffs[..|diffs| - 1];
      DiffsKeep(cfg, conns, front);
      DiffKeeps(cfg, AfterDiffs(cfg, conns, front), diffs[|diffs| - 1]);
    }
  }

  /** Operations that track, forget and admit nobody. */
  predicate Quiet(a: HubState, op: Op) {
    && !op.ConnectOp?
    && (op.TrackOp? ==> !TrackAccepted(a.conns, op.who, op.channel))
    && (op.UntrackOp? ==> !UntrackAccepted(a.conns, op.who, op.channel))
  }

  lemma QuietKeeps(cfg: Config, n: int, a: HubState, op: Op, b: HubState, pub: seq<BusMsg>)
    requires OpStep(cfg, n, a, op, b, pub) && Quiet(a, op)
    ensures Kept(a.conns, b.conns)
  {
    hide Owed, LeavesOfGone, AfterDiffs, AfterDiff, SweepDiffs, Delivered, DeliveryDiffs, ParseChannel, Swept, HasRoom,
         Receives, ListsOwn;
    match op
    case DeliverOp(msg, now) => DiffsKeep(cfg, a.conns, DeliveryDiffs(a.presence, msg, now));
    case TickOp(now) =>
      var diffs :| SweepDiffs(Touch(a.presence, n, now), now, NODE_TTL_MS, diffs)
                   && b.conns == AfterDiffs(cfg, a.conns, diffs);
      DiffsKeep(cfg, a.conns, diffs);
    case _ =>
  }

  lemma StepKeepsIds(cfg: Config, n: int, a: HubState, op: Op, b: HubState, pub: seq<BusMsg>)
    requires OpStep(cfg, n, a, op, b, pub) && IdsFresh(a)
    ensures IdsFresh(b)
  {
    hide Owed, LeavesOfGone, AfterDiffs, SweepDiffs, Delivered, DeliveryDiffs, ParseChannel, Swept, AfterBroadcast,
         ListsOwn, AfterJoin, AfterPublish, AfterLeave;
    if Quiet(a, op) { QuietKeeps(cfg, n, a, op, b, pub); }
  }

  // ---------- tenants ----------

  /** A broadcast on a tenant-scoped topic names its tenant. */
  predicate Stamped(cfg: Config, m: BusMsg) { m.BroadcastMsg? && TenantTopic(cfg, m.topic) ==> m.tenant.Some? }

  ghost predicate AllStamped(cfg: Config, msgs: seq<BusMsg>) { forall i :: 0 <= i < |msgs| ==> Stamped(cfg, msgs[i]) }

  predicate TenantPresence(cfg: Config, topic: string) { ScopeOf(cfg.presence, topic) == Some(ScopeTenant) }

  /** A message of the connection's own tenant, where its topic is tenant-scoped. */
  predicate OwnTenant(cfg: Config, p: Option<Principal>, m: ServerMsg) {
    match m
    case Reply(_) => true
    case EventMsg(topic, _, stamp) => TenantTopic(cfg, topic) ==> stamp.Some? && TenantOf(p) == stamp
    case StateMsg(part, _) => TenantPresence(cfg, part.topic) ==> part.tenant.Some? && TenantOf(p) == part.tenant
    case DiffMsg(d) => TenantPresence(cfg, d.part.topic) ==> d.part.tenant.Some? && TenantOf(p) == d.part.tenant
  }

  /** Every joined channel was joinable, and every queued message is of the connection's own tenant. */
  ghost predicate TenantSafe(cfg: Config, sub: Subscriber) {
    && (forall id :: id in sub.channels ==> MayJoin(cfg, id, sub.principal).Ok?)
    && (forall m :: m in sub.queue ==> OwnTenant(cfg, sub.principal, m))
  }

  ghost predicate AllTenantSafe(cfg: Config, conns: Conns) {
    forall cid :: cid in conns ==> TenantSafe(cfg, conns[cid])
  }

  lemma SentIsSafe(cfg: Config, sub: Subscriber, m: ServerMsg)
    requires TenantSafe(cfg, sub) && OwnTenant(cfg, sub.principal, m)
    ensures TenantSafe(cfg, Sent(sub, m))
  {
  }

  lemma SendIsSafe(cfg: Config, conns: Conns, conn: int, m: ServerMsg)
    requires AllTenantSafe(cfg, conns) && (conn in conns ==> OwnTenant(cfg, conns[conn].principal, m))
    ensures AllTenantSafe(cfg, AfterSend(conns, conn, m))
  {
    hide TenantSafe, HasRoom;
    if conn in conns { SentIsSafe(cfg, conns[conn], m); }
  }

  /** Joining passed the gate. */
  lemma JoinIsSafe(cfg: Config, shown: PMap, conns: Conns, conn: int, channel: string, down: bool)
    requires AllTenantSafe(cfg, conns)
    ensures AllTenantSafe(cfg, AfterJoin(cfg, shown, conns, conn, channel, down))
  {
    hide AllTenantSafe, HasRoom, ParseChannel, MayJoin, AfterSend;
    SendIsSafe(cfg, conns, conn, Reply("JC0404"));
    SendIsSafe(cfg, conns, conn, Reply("JC0530"));
    var id := ParseChannel(channel);
    if id.Some? && conn in conns {
      var p := conns[conn].principal;
      match MayJoin(cfg, id.value, p)
      case Err(e) => SendIsSafe(cfg, conns, conn, Reply(JoinCode(e)));
      case Ok(_) =>
        var c1 := conns[conn := WithChannel(conns[conn], id.value)];
        AdmittedIsSafe(cfg, conns, conn, id.value);
        SendIsSafe(cfg, c1, conn, Reply("joined"));
        var part := PartFor(cfg, id.value.name, p);
        StateIsOwn(cfg, id.value, p, StateOf(shown, part));
        var c2 := AfterSend(c1, conn, Reply("joined"));
        SentKeepsPrincipal(c1, conn, Reply("joined"));
        if id.value.Presence? { SendIsSafe(cfg, c2, conn, StateMsg(part, StateOf(shown, part))); }
    }
  }

  /** The state a joiner of a presence channel is sent is its own tenant's. */
  lemma StateIsOwn(cfg: Config, id: ChannelId, p: Option<Principal>, state: map<string, Json>)
    requires MayJoin(cfg, id, p).Ok?
    ensures id.Presence? ==> OwnTenant(cfg, p, StateMsg(PartFor(cfg, id.name, p), state))
  {
    hide ScopeOf;
  }

  lemma SentKeepsPrincipal(conns: Conns, conn: int, m: ServerMsg)
    requires conn in conns
    ensures conn in AfterSend(conns, conn, m) ==> AfterSend(conns, conn, m)[conn].principal == conns[conn].principal
  {
  }

  /** A diff goes to watchers of its partition, who joined its topic with that tenant. */
  lemma DiffIsOwn(cfg: Config, sub: Subscriber, d: Diff)
    requires TenantSafe(cfg, sub) && Watches(cfg, sub, d.part)
    ensures OwnTenant(cfg, sub.principal, DiffMsg(d))
  {
    hide ScopeOf;
    assert MayJoin(cfg, ChannelId.Presence(d.part.topic), sub.principal).Ok?;
  }

  lemma AdmittedIsSafe(cfg: Config, conns: Conns, conn: int, id: ChannelId)
    requires AllTenantSafe(cfg, conns) && conn in conns && MayJoin(cfg, id, conns[conn].principal).Ok?
    ensures AllTenantSafe(cfg, conns[conn := WithChannel(conns[conn], id)])
  {
    hide MayJoin;
    assert TenantSafe(cfg, WithChannel(conns[conn], id));
  }

  lemma LeaveIsSafe(cfg: Config, conns: Conns, conn: int, channel: string)
    requires AllTenantSafe(cfg, conns)
    ensures AllTenantSafe(cfg, AfterLeave(conns, conn, channel))
  {
    hide ParseChannel, MayJoin, AfterSend;
    var c1 := WithoutChannel(conns, conn, ParseChannel(channel));
    assert conn in conns ==> TenantSafe(cfg, c1[conn]);
    SendIsSafe(cfg, c1, conn, Reply("left"));
  }

  /** A stamped broadcast reaches, on a tenant-scoped topic, only connections of its own tenant. */
  lemma BroadcastIsTenantSafe(cfg: Config, node: int, conns: Conns, m: BusMsg)
    requires m.BroadcastMsg? && Stamped(cfg, m) && AllTenantSafe(cfg, conns)
    ensures AllTenantSafe(cfg, AfterBroadcast(node, conns, m))
  {
    hide TenantSafe, HasRoom, ScopeOf;
    var after := AfterBroadcast(node, conns, m);
    forall cid | cid in after ensures TenantSafe(cfg, after[cid]) {
      if Receives(node, cid, conns[cid], m) { SentIsSafe(cfg, conns[cid], EventMsg(m.topic, m.payload, m.tenant)); }
    }
  }

  lemma {:induction false} DiffsAreSafe(cfg: Config, conns: Conns, diffs: seq<Diff>)
    requires AllTenantSafe(cfg, conns)
    ensures AllTenantSafe(cfg, AfterDiffs(cfg, conns, diffs))
  {
    hide TenantSafe, HasRoom, Watches, OwnTenant;
    if diffs != [] {
      var mid, d := AfterDiffs(cfg, conns, diffs[..|diffs| - 1]), diffs[|diffs| - 1];
      DiffsAreSafe(cfg, conns, diffs[..|diffs| - 1]);
      forall cid | cid in mid && Watches(cfg, mid[cid], d.part) ensures TenantSafe(cfg, Sent(mid[cid], DiffMsg(d))) {
        DiffIsOwn(cfg, mid[cid], d);
        SentIsSafe(cfg, mid[cid], DiffMsg(d));
      }
    }
  }

  lemma SmallStepsAreSafe(cfg: Config, a: HubState, op: Op, conn: int)
    requires AllTenantSafe(cfg, a.conns)
    ensures AllTenantSafe(cfg, a.conns - {conn})
    ensures AllTenantSafe(cfg, AfterReceive(a.conns, conn, true))
    ensures AllTenantSafe(cfg, AfterReceive(a.conns, conn, false))
    ensures op.ConnectOp? ==> AllTenantSafe(cfg, a.conns[a.nextConn := NewSubscriber(op.principal)])
    ensures op.TrackOp? ==> AllTenantSafe(cfg, AfterTrack(a.conns, op.who, op.channel))
    ensures op.UntrackOp? && UntrackAccepted(a.conns, op.who, op.channel) ==>
              var item := ItemFor(a.conns, op.who, op.channel).value;
              AllTenantSafe(cfg, a.conns[op.who := Forgetting(a.conns[op.who], item)])
    ensures op.PublishOp? ==> AllTenantSafe(cfg, AfterPublish(a.conns, op.conn, op.channel))
  {
    hide ParseChannel, MayJoin, TenantTopic, HasRoom;
    if conn in a.conns {
      var q := a.conns[conn].queue;
      assert q != [] ==> forall m :: m in q[1..] ==> m in q;
    }
    if op.TrackOp? {
      SendIsSafe(cfg, a.conns, op.who, Reply("JC0404"));
      SendIsSafe(cfg, a.conns, op.who, Reply("JC0403"));
    }
    if op.PublishOp? {
      SendIsSafe(cfg, a.conns, op.conn, Reply("JC0404"));
      SendIsSafe(cfg, a.conns, op.conn, Reply("JC0403"));
    }
  }

  /** A joined topic was joinable, so a client of a tenant-scoped topic has a tenant to stamp with. */
  lemma ClientBroadcastIsStamped(cfg: Config, n: int, conns: Conns, conn: int, channel: string, payload: Json)
    requires AllTenantSafe(cfg, conns) && BroadcastFor(cfg, n, conns, conn, channel, payload).Some?
    ensures Stamped(cfg, BroadcastFor(cfg, n, conns, conn, channel, payload).value)
  {
    hide ParseChannel, ScopeOf;
    assert TenantSafe(cfg, conns[conn]);
  }

  lemma LeavesAreStamped(cfg: Config, n: int, before: Conns, after: Conns, conn: int, pub: seq<BusMsg>)
    requires Owed(cfg, n, before, after, conn, pub) || LeavesOfGone(cfg, n, before, after, pub)
    ensures AllStamped(cfg, pub) && OnlyLeaves(pub, n)
  {
    forall i | 0 <= i < |pub| ensures pub[i].PresenceClear? && pub[i].node == n { assert pub[i] in pub; }
  }

  predicate OnlyLeaves(pub: seq<BusMsg>, n: int) {
    forall i :: 0 <= i < |pub| ==> pub[i].PresenceClear? && pub[i].node == n
  }

  /** Every operation of every node keeps tenants apart, whatever is delivered to it. */
  lemma OpKeepsTenants(cfg: Config, n: int, a: HubState, op: Op, b: HubState, pub: seq<BusMsg>)
    requires OpStep(cfg, n, a, op, b, pub) && AllTenantSafe(cfg, a.conns)
    requires op.DeliverOp? ==> Stamped(cfg, op.msg)
    ensures AllTenantSafe(cfg, b.conns)
  {
    hide Owed, LeavesOfGone, SweepDiffs, Delivered, DeliveryDiffs, ParseChannel, Swept, AllTenantSafe, Stamped, ScopeOf,
         ListsOwn, AfterJoin, AfterLeave, AfterTrack, AfterPublish, AfterSend, AfterReceive, AfterBroadcast, AfterDiffs,
         BroadcastFor, ItemFor;
    match op
    case ConnectOp(_) => SmallStepsAreSafe(cfg, a, op, 0);
    case DisconnectOp(c) => SmallStepsAreSafe(cfg, a, op, c);
    case ReceiveOp(c, _) => SmallStepsAreSafe(cfg, a, op, c);
    case ReplyOp(c, code) => SendIsSafe(cfg, a.conns, c, Reply(code));
    case JoinOp(c, channel, down) => JoinIsSafe(cfg, a.presence, a.conns, c, channel, down);
    case LeaveOp(c, channel) => LeaveIsSafe(cfg, a.conns, c, channel);
    case TrackOp(_, _, _) => SmallStepsAreSafe(cfg, a, op, 0);
    case UntrackOp(_, _) => SmallStepsAreSafe(cfg, a, op, 0);
    case PublishOp(_, _, _) => SmallStepsAreSafe(cfg, a, op, 0);
    case ServerPublishOp(_, _) =>
    case TenantPublishOp(_, _, _) =>
    case DeliverOp(msg, now) =>
      if msg.BroadcastMsg? { BroadcastIsTenantSafe(cfg, n, a.conns, msg); }
      else { DiffsAreSafe(cfg, a.conns, DeliveryDiffs(a.presence, msg, now)); }
    case TickOp(now) =>
      var diffs :| SweepDiffs(Touch(a.presence, n, now), now, NODE_TTL_MS, diffs)
                   && b.conns == AfterDiffs(cfg, a.conns, diffs);
      DiffsAreSafe(cfg, a.conns, diffs);
  }

  /** And every broadcast it puts on the bus for a tenant-scoped topic carries a tenant. */
  lemma OpPublishesStamped(cfg: Config, n: int, a: HubState, op: Op, b: HubState, pub: seq<BusMsg>)
    requires OpStep(cfg, n, a, op, b, pub) && AllTenantSafe(cfg, a.conns)
    ensures AllStamped(cfg, pub)
  {
    hide Owed, LeavesOfGone, SweepDiffs, Delivered, DeliveryDiffs, ParseChannel, Swept, AllTenantSafe, ScopeOf,
         ListsOwn, AfterJoin, AfterLeave, AfterTrack, AfterPublish, AfterSend, AfterReceive, AfterBroadcast, AfterDiffs,
         BroadcastFor, ItemFor, OnlyLeaves;
    match op
    case DisconnectOp(c) => LeavesAreStamped(cfg, n, a.conns, b.conns, c, pub);
    case ReplyOp(c, _) => LeavesAreStamped(cfg, n, a.conns, b.conns, c, pub);
    case JoinOp(c, _, _) => LeavesAreStamped(cfg, n, a.conns, b.conns, c, pub);
    case LeaveOp(c, _) => LeavesAreStamped(cfg, n, a.conns, b.conns, c, pub);
    case TrackOp(c, channel, _) =>
      if !TrackAccepted(a.conns, c, channel) { LeavesAreStamped(cfg, n, a.conns, b.conns, c, pub); }
    case PublishOp(c, channel, payload) =>
      if BroadcastFor(cfg, n, a.conns, c, channel, payload).Some? {
        ClientBroadcastIsStamped(cfg, n, a.conns, c, channel, payload);
      } else {
        LeavesAreStamped(cfg, n, a.conns, b.conns, c, pub);
      }
    case DeliverOp(msg, _) =>
      if !msg.BroadcastMsg? { LeavesAreStamped(cfg, n, a.conns, b.conns, 0, pub); }
    case TickOp(_) =>
      LeavesAreStamped(cfg, n, a.conns, b.conns, 0, pub[1..]);
      assert forall i :: 1 <= i < |pub| ==> pub[i] == pub[1..][i - 1];
    case _ =>
  }

  ghost predicate TenantsApart(cfg: Config, s: System) {
    forall m :: m in s ==> AllTenantSafe(cfg, s[m].hub.conns) && AllStamped(cfg, s[m].inbox)
  }

  lemma MoveKeepsTenantsApart(cfg: Config, s: System, v: Move)
    requires CanMove(cfg, s, v) && TenantsApart(cfg, s)
    ensures TenantsApart(cfg, Moved(s, v))
  {
    hide OpStep, AllTenantSafe, Stamped;
    var a := s[v.node];
    assert AllTenantSafe(cfg, a.hub.conns) && AllStamped(cfg, a.inbox);
    OpKeepsTenants(cfg, v.node, a.hub, v.op, v.after, v.pub);
    OpPublishesStamped(cfg, v.node, a.hub, v.op, v.after, v.pub);
  }

  lemma {:induction false} TenantsStayApart(cfg: Config, s: System, moves: seq<Move>)
    requires TenantsApart(cfg, s) && IsRun(cfg, s, moves)
    ensures TenantsApart(cfg, EndOf(s, moves))
    decreases moves
  {
    hide TenantsApart, CanMove, Moved;
    if moves != [] {
      MoveKeepsTenantsApart(cfg, s, moves[0]);
      TenantsStayApart(cfg, Moved(s, moves[0]), moves[1..]);
    }
  }

  /**
   * The tenant partition, over every run of every operation on any number of nodes, slow
   * consumers and all: a broadcast in flight for a tenant-scoped topic names a tenant, and
   * whatever is queued to a connection on a tenant-scoped topic, be it a broadcast event, a
   * presence state or a presence diff, is of that connection's own tenant.
   */
  lemma TenantsNeverMix(cfg: Config, s: System, moves: seq<Move>, n: int)
    requires FreshSystem(s) && IsRun(cfg, s, moves) && n in EndOf(s, moves)
    ensures var node := EndOf(s, moves)[n];
            && (forall m :: m in node.inbox && m.BroadcastMsg? && TenantTopic(cfg, m.topic) ==> m.tenant.Some?)
            && forall cid, m :: cid in node.hub.conns && m in node.hub.conns[cid].queue ==>
                 OwnTenant(cfg, node.hub.conns[cid].principal, m)
  {
    hide TenantTopic, EndOf, IsRun, OwnTenant;
    TenantsStayApart(cfg, s, moves);
    var end := EndOf(s, moves);
    assert AllTenantSafe(cfg, end[n].hub.conns) && AllStamped(cfg, end[n].inbox);
    forall m | m in end[n].inbox ensures Stamped(cfg, m) {
      var i :| 0 <= i < |end[n].inbox| && end[n].inbox[i] == m;
    }
    forall cid | cid in end[n].hub.conns ensures TenantSafe(cfg, end[n].hub.conns[cid]) {}
  }
}
