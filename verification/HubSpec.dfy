/**
 * The realtime hub's operations as values (lib.rs, presence.rs and broadcast.rs of the realtime
 * crate): what each does to a node's connections and presence map, and what it puts on the bus.
 * Hash maps iterate in no fixed order, so an operation is a relation, exact up to that order.
 */
module HubSpec {
  import opened Basics
  import opened Text
  import opened Channel
  import opened Presence

  const CONN_QUEUE: nat := 128

  const NODE_TTL_MS := 90_000

  datatype BusMsg =
    | BroadcastMsg(topic: string, tenant: Option<string>, payload: Json, origin: Option<(int, int)>)
    | PresenceSet(part: Partition, key: string, node: int, meta: Json)
    | PresenceClear(part: Partition, key: string, node: int)
    | PresenceSnapshot(node: int, entries: seq<(Partition, string)>)

  /** What a connection is sent. `stamp` on an event is the tenant its bus message carried: a history value. */
  datatype ServerMsg =
    | Reply(code: string)
    | EventMsg(topic: string, payload: Json, stamp: Option<string>)
    | StateMsg(part: Partition, state: map<string, Json>)
    | DiffMsg(diff: Diff)

  datatype Subscriber = Subscriber(
    principal: Option<Principal>, queue: seq<ServerMsg>, open: bool,
    channels: set<ChannelId>, tracked: set<(ChannelId, string)>)

  type Conns = map<int, Subscriber>

  // ---------- queues ----------

  predicate HasRoom(sub: Subscriber) { sub.open && |sub.queue| < CONN_QUEUE }

  function Sent(sub: Subscriber, m: ServerMsg): Subscriber { sub.(queue := sub.queue + [m]) }

  /** A full or closed queue costs the connection its place. */
  function AfterSend(conns: Conns, conn: int, m: ServerMsg): Conns {
    if conn !in conns then conns
    else if HasRoom(conns[conn]) then conns[conn := Sent(conns[conn], m)]
    else conns - {conn}
  }

  /** The client's end takes the oldest message, or hangs up. */
  function AfterReceive(conns: Conns, conn: int, hangUp: bool): Conns {
    if conn !in conns then conns
    else if hangUp then conns[conn := conns[conn].(open := false)]
    else if conns[conn].queue == [] then conns
    else conns[conn := conns[conn].(queue := conns[conn].queue[1..])]
  }

  // ---------- presence keys and what a departure owes ----------

  /** The presence key of a connection: its user, or itself when anonymous. */
  function PresenceKey(p: Option<Principal>, conn: nat): string {
    if p.Some? then p.value.userId else "conn:" + Decimal(conn)
  }

  /** The partition tenant of a presence topic for a principal. */
  function PresenceTenant(cfg: Config, topic: string, p: Option<Principal>): Option<string> {
    if ScopeOf(cfg.presence, topic) == Some(ScopeTenant) then TenantOf(p) else None
  }

  function PartFor(cfg: Config, topic: string, p: Option<Principal>): Partition {
    Partition(topic, PresenceTenant(cfg, topic, p))
  }

  function ClearFor(cfg: Config, node: int, p: Option<Principal>, item: (ChannelId, string)): BusMsg {
    PresenceClear(PartFor(cfg, item.0.name, p), item.1, node)
  }

  /** The leaves owed when a connection goes: one per presence key it tracked. */
  function ClearsOf(cfg: Config, node: int, p: Option<Principal>, tracked: set<(ChannelId, string)>): set<BusMsg> {
    set item | item in tracked && item.0.Presence? :: ClearFor(cfg, node, p, item)
  }

  /** `pub` is each of `ms` once, in some order. */
  ghost predicate Publishes(pub: seq<BusMsg>, ms: set<BusMsg>) {
    (forall m :: m in pub <==> m in ms) && (forall i, j :: 0 <= i < j < |pub| ==> pub[i] != pub[j])
  }

  /** A connection that went in this operation is announced, leave by leave; otherwise nothing is. */
  ghost predicate Owed(cfg: Config, node: int, before: Conns, after: Conns, conn: int, pub: seq<BusMsg>) {
    if conn in before && conn !in after
    then Publishes(pub, ClearsOf(cfg, node, before[conn].principal, before[conn].tracked))
    else pub == []
  }

  /** Exactly the leaves of the connections that went. */
  ghost predicate LeavesOfGone(cfg: Config, node: int, before: Conns, after: Conns, pub: seq<BusMsg>) {
    forall m :: m in pub <==>
      exists cid ::
        cid in before && cid !in after && m in ClearsOf(cfg, node, before[cid].principal, before[cid].tracked)
  }

  // ---------- client operations ----------

  function JoinCode(e: JoinError): string {
    match e
    case UnknownChannel => "JC0404"
    case AuthenticationRequired => "JC0401"
    case TenantRequired => "JC0403"
  }

  function WithChannel(sub: Subscriber, id: ChannelId): Subscriber { sub.(channels := sub.channels + {id}) }

  function WithoutChannel(conns: Conns, conn: int, id: Option<ChannelId>): Conns {
    if id.Some? && conn in conns
    then conns[conn := conns[conn].(channels := conns[conn].channels - {id.value})]
    else conns
  }

  /** The gate decides; a joiner is told, and on a presence channel is sent the current state. */
  function AfterJoin(cfg: Config, shown: PMap, conns: Conns, conn: int, channel: string, sourceDown: bool): Conns {
    match ParseChannel(channel)
    case None => AfterSend(conns, conn, Reply("JC0404"))
    case Some(id) =>
      if id.Changes? && sourceDown then AfterSend(conns, conn, Reply("JC0530"))
      else if conn !in conns then conns
      else
        var p := conns[conn].principal;
        match MayJoin(cfg, id, p)
        case Err(e) => AfterSend(conns, conn, Reply(JoinCode(e)))
        case Ok(_) =>
          var joined := AfterSend(conns[conn := WithChannel(conns[conn], id)], conn, Reply("joined"));
          if id.Presence?
          then AfterSend(joined, conn, StateMsg(PartFor(cfg, id.name, p), StateOf(shown, PartFor(cfg, id.name, p))))
          else joined
  }

  function AfterLeave(conns: Conns, conn: int, channel: string): Conns {
    AfterSend(WithoutChannel(conns, conn, ParseChannel(channel)), conn, Reply("left"))
  }

  function Tracking(sub: Subscriber, item: (ChannelId, string)): Subscriber { sub.(tracked := sub.tracked + {item}) }

  function Forgetting(sub: Subscriber, item: (ChannelId, string)): Subscriber { sub.(tracked := sub.tracked - {item}) }

  /** The channel and key a client names on a presence channel, if there is such a client. */
  function ItemFor(conns: Conns, conn: nat, channel: string): Option<(ChannelId, string)> {
    match ParseChannel(channel)
    case None => None
    case Some(id) =>
      if !id.Presence? || conn !in conns then None else Some((id, PresenceKey(conns[conn].principal, conn)))
  }

  /** Tracking is accepted on a joined presence channel. */
  predicate TrackAccepted(conns: Conns, conn: nat, channel: string) {
    ItemFor(conns, conn, channel).Some? && ItemFor(conns, conn, channel).value.0 in conns[conn].channels
  }

  function AfterTrack(conns: Conns, conn: nat, channel: string): Conns {
    match ParseChannel(channel)
    case None => AfterSend(conns, conn, Reply("JC0404"))
    case Some(id) =>
      if !id.Presence? then AfterSend(conns, conn, Reply("JC0404"))
      else if conn !in conns then conns
      else if id in conns[conn].channels
      then conns[conn := Tracking(conns[conn], (id, PresenceKey(conns[conn].principal, conn)))]
      else if HasRoom(conns[conn]) then conns[conn := Sent(conns[conn], Reply("JC0403"))]
      else conns
  }

  function SetFor(cfg: Config, node: int, p: Option<Principal>, item: (ChannelId, string), meta: Json): BusMsg {
    PresenceSet(PartFor(cfg, item.0.name, p), item.1, node, meta)
  }

  predicate UntrackAccepted(conns: Conns, conn: nat, channel: string) {
    ItemFor(conns, conn, channel).Some? && ItemFor(conns, conn, channel).value in conns[conn].tracked
  }

  /** The tenant a client's broadcast is stamped with. */
  function TopicStamp(cfg: Config, topic: string, p: Option<Principal>): Option<string> {
    if ScopeOf(cfg.broadcast, topic) == Some(ScopeTenant) then TenantOf(p) else None
  }

  /** The broadcast a client's publish puts on the bus: on a joined broadcast channel only. */
  function BroadcastFor(cfg: Config, node: int, conns: Conns, conn: int, channel: string, payload: Json): Option<BusMsg>
  {
    match ParseChannel(channel)
    case None => None
    case Some(id) =>
      if !id.Broadcast? || conn !in conns || id !in conns[conn].channels then None
      else Some(BroadcastMsg(id.name, TopicStamp(cfg, id.name, conns[conn].principal), payload, Some((node, conn))))
  }

  function AfterPublish(conns: Conns, conn: int, channel: string): Conns {
    match ParseChannel(channel)
    case None => AfterSend(conns, conn, Reply("JC0404"))
    case Some(id) =>
      if !id.Broadcast? then AfterSend(conns, conn, Reply("JC0404"))
      else if conn in conns && id !in conns[conn].channels then AfterSend(conns, conn, Reply("JC0403"))
      else conns
  }

  // ---------- fan-out ----------

  /** Joined, not the sender itself, and of the message's tenant if it names one. */
  predicate Receives(node: int, cid: int, sub: Subscriber, m: BusMsg)
    requires m.BroadcastMsg?
  {
    && ChannelId.Broadcast(m.topic) in sub.channels
    && m.origin != Some((node, cid))
    && (m.tenant.Some? ==> TenantOf(sub.principal) == m.tenant)
  }

  /** Receivers with room get the event; receivers without are removed; nobody else changes. */
  function AfterBroadcast(node: int, conns: Conns, m: BusMsg): Conns
    requires m.BroadcastMsg?
  {
    map cid | cid in conns && (Receives(node, cid, conns[cid], m) ==> HasRoom(conns[cid])) ::
      if Receives(node, cid, conns[cid], m) then Sent(conns[cid], EventMsg(m.topic, m.payload, m.tenant))
      else conns[cid]
  }

  /** A subscriber of the diff's partition. */
  predicate Watches(cfg: Config, sub: Subscriber, part: Partition) {
    ChannelId.Presence(part.topic) in sub.channels && PresenceTenant(cfg, part.topic, sub.principal) == part.tenant
  }

  /** Watchers with room get the diff; watchers without are dropped; nobody else changes. */
  function AfterDiff(cfg: Config, conns: Conns, d: Diff): Conns {
    map cid | cid in conns && (Watches(cfg, conns[cid], d.part) ==> HasRoom(conns[cid])) ::
      if Watches(cfg, conns[cid], d.part) then Sent(conns[cid], DiffMsg(d)) else conns[cid]
  }

  /** The same for several diffs, first to last. */
  function AfterDiffs(cfg: Config, conns: Conns, diffs: seq<Diff>): Conns {
    if diffs == [] then conns
    else AfterDiff(cfg, AfterDiffs(cfg, conns, diffs[..|diffs| - 1]), diffs[|diffs| - 1])
  }

  /** Delivery of a message to the presence map, at time `now`. */
  function Delivered(m: PMap, msg: BusMsg, now: int): PMap {
    match msg
    case PresenceSet(part, key, node, meta) => SetEntry(m, part, key, node, meta, now).0
    case PresenceClear(part, key, node) => ClearEntry(m, part, key, node).0
    case PresenceSnapshot(node, _) => Touch(m, node, now)
    case BroadcastMsg(_, _, _, _) => m
  }

  function DeliveryDiffs(m: PMap, msg: BusMsg, now: int): seq<Diff> {
    match msg
    case PresenceSet(part, key, node, meta) => SetEntry(m, part, key, node, meta, now).1
    case PresenceClear(part, key, node) => ClearEntry(m, part, key, node).1
    case _ => []
  }

  // ---------- the operations ----------

  datatype HubState = HubState(conns: Conns, presence: PMap, nextConn: nat)

  const NewHub := HubState(map[], NoPresence, 0)

  function NewSubscriber(p: Option<Principal>): Subscriber { Subscriber(p, [], true, {}, {}) }

  /** What a node can do, each atomically. `sourceDown` and `now` are the environment's. */
  datatype Op =
    | ConnectOp(principal: Option<Principal>)
    | DisconnectOp(conn: int)
    | ReceiveOp(conn: int, hangUp: bool)
    | ReplyOp(conn: int, code: string)
    | JoinOp(conn: int, channel: string, sourceDown: bool)
    | LeaveOp(conn: int, channel: string)
    | TrackOp(who: nat, channel: string, state: Json)
    | UntrackOp(who: nat, channel: string)
    | PublishOp(conn: int, channel: string, payload: Json)
    | ServerPublishOp(topic: string, payload: Json)
    | TenantPublishOp(tenant: string, topic: string, payload: Json)
    | DeliverOp(msg: BusMsg, now: int)
    | TickOp(now: int)

  /** A server may publish plainly to declared topics that are not tenant-scoped. */
  predicate PlainPublishAllowed(cfg: Config, topic: string) {
    ScopeOf(cfg.broadcast, topic).Some? && !TenantTopic(cfg, topic)
  }

  ghost predicate OpStep(cfg: Config, n: int, a: HubState, op: Op, b: HubState, pub: seq<BusMsg>) {
    match op
    case ConnectOp(p) =>
      pub == [] && b == a.(conns := a.conns[a.nextConn := NewSubscriber(p)], nextConn := a.nextConn + 1)
    case DisconnectOp(c) =>
      b == a.(conns := a.conns - {c}) && Owed(cfg, n, a.conns, b.conns, c, pub)
    case ReceiveOp(c, hangUp) =>
      pub == [] && b == a.(conns := AfterReceive(a.conns, c, hangUp))
    case ReplyOp(c, code) =>
      b == a.(conns := AfterSend(a.conns, c, Reply(code))) && Owed(cfg, n, a.conns, b.conns, c, pub)
    case JoinOp(c, channel, down) =>
      b == a.(conns := AfterJoin(cfg, a.presence, a.conns, c, channel, down)) && Owed(cfg, n, a.conns, b.conns, c, pub)
    case LeaveOp(c, channel) =>
      b == a.(conns := AfterLeave(a.conns, c, channel)) && Owed(cfg, n, a.conns, b.conns, c, pub)
    case TrackOp(c, channel, state) =>
      && b == a.(conns := AfterTrack(a.conns, c, channel))
      && (if TrackAccepted(a.conns, c, channel)
          then pub == [SetFor(cfg, n, a.conns[c].principal, ItemFor(a.conns, c, channel).value, state)]
          else Owed(cfg, n, a.conns, b.conns, c, pub))
    case UntrackOp(c, channel) =>
      if UntrackAccepted(a.conns, c, channel)
      then
        var item := ItemFor(a.conns, c, channel).value;
        && b == a.(conns := a.conns[c := Forgetting(a.conns[c], item)])
        && pub == [ClearFor(cfg, n, a.conns[c].principal, item)]
      else b == a && pub == []
    case PublishOp(c, channel, payload) =>
      var m := BroadcastFor(cfg, n, a.conns, c, channel, payload);
      && b == a.(conns := AfterPublish(a.conns, c, channel))
      && (if m.Some? then pub == [m.value] else Owed(cfg, n, a.conns, b.conns, c, pub))
    case ServerPublishOp(topic, payload) =>
      b == a && pub == (if PlainPublishAllowed(cfg, topic) then [BroadcastMsg(topic, None, payload, None)] else [])
    case TenantPublishOp(tenant, topic, payload) =>
      b == a && pub == (if TenantTopic(cfg, topic) then [BroadcastMsg(topic, Some(tenant), payload, None)] else [])
    case DeliverOp(msg, now) =>
      && b.presence == Delivered(a.presence, msg, now) && b.nextConn == a.nextConn
      && (if msg.BroadcastMsg? then b.conns == AfterBroadcast(n, a.conns, msg) && pub == []
          else
            && b.conns == AfterDiffs(cfg, a.conns, DeliveryDiffs(a.presence, msg, now))
            && LeavesOfGone(cfg, n, a.conns, b.conns, pub))
    case TickOp(now) =>
      && b.presence == Swept(Touch(a.presence, n, now), now, NODE_TTL_MS) && b.nextConn == a.nextConn
      && (exists diffs ::
            && SweepDiffs(Touch(a.presence, n, now), now, NODE_TTL_MS, diffs)
            && b.conns == AfterDiffs(cfg, a.conns, diffs))
      && pub != [] && pub[0].PresenceSnapshot? && pub[0].node == n && ListsOwn(a.presence, n, pub[0].entries)
      && LeavesOfGone(cfg, n, a.conns, b.conns, pub[1..])
  }
}
