/**
 * Who is let in and who is told, from outside: channel names as clients write them, the
 * declared scopes, and the principals. Each theorem starts from any state that some run from
 * nothing reaches, and follows a client's request through the bus to what every connection
 * of every node is sent.
 */
module HubReach {
  import opened Basics
  import opened Text
  import opened Channel
  import opened Presence
  import opened HubSpec
  import opened HubSafety

  /** Node `n` is in state `a` at the end of some run from nothing. */
  ghost predicate Reachable(cfg: Config, n: int, a: HubState) {
    exists s, moves :: FreshSystem(s) && IsRun(cfg, s, moves) && n in EndOf(s, moves) && EndOf(s, moves)[n].hub == a
  }

  // ---------- the gate ----------

  /** Over every run: whoever is on a channel is entitled to it. */
  lemma JoinedIsEntitled(cfg: Config, n: int, a: HubState, cid: int, id: ChannelId)
    requires Reachable(cfg, n, a) && cid in a.conns && id in a.conns[cid].channels
    ensures Entitled(cfg, id, a.conns[cid].principal)
  {
    hide IsRun, EndOf, MayJoin, Entitled;
    var s, moves :| FreshSystem(s) && IsRun(cfg, s, moves) && n in EndOf(s, moves) && EndOf(s, moves)[n].hub == a;
    TenantsStayApart(cfg, s, moves);
    assert TenantSafe(cfg, a.conns[cid]);
    GateIsExact(cfg, id, a.conns[cid].principal);
  }

  /** The code a refused join is answered with. */
  ghost function Refusal(cfg: Config, id: ChannelId, p: Option<Principal>, sourceDown: bool): string {
    if id.Changes? && sourceDown then "JC0530"
    else if !Known(cfg, id) then "JC0404"
    else if TenantScoped(cfg, id) then "JC0403"
    else "JC0401"
  }

  /**
   * A join by a connection with room: it is let in exactly if it is entitled and, for a changes
   * channel, the source is up; otherwise it is told why. Nobody else notices.
   */
  lemma JoinIsExact(cfg: Config, n: int, a: HubState, c: int, id: ChannelId, sourceDown: bool,
                    b: HubState, pub: seq<BusMsg>)
    requires id.name != "" && OpStep(cfg, n, a, JoinOp(c, ChannelText(id), sourceDown), b, pub) && c in a.conns
    ensures var sub := a.conns[c];
            var entitled := Entitled(cfg, id, sub.principal) && !(id.Changes? && sourceDown);
            sub.open && |sub.queue| + 2 <= 128 ==>
              && c in b.conns && pub == []
              && b.conns[c].channels == sub.channels + (if entitled then {id} else {})
              && (!entitled ==> b.conns[c].queue == sub.queue + [Reply(Refusal(cfg, id, sub.principal, sourceDown))])
    ensures b.conns - {c} == a.conns - {c}
  {
    hide ParseChannel, ChannelText, MayJoin, Declared, Known, StateOf, PartFor;
    ChannelRoundTrip(id);
    GateIsExact(cfg, id, a.conns[c].principal);
  }

  // ---------- broadcasts ----------

  ghost predicate SameTenant(p: Option<Principal>, q: Option<Principal>) {
    p.Some? && q.Some? && p.value.tenantId == q.value.tenantId
  }

  /** What connections are told of. */
  datatype News =
    | EventNews(topic: string, payload: Json)
    | PresenceNews(topic: string, joins: map<string, Json>, leaves: map<string, Json>)

  ghost predicate Tells(m: ServerMsg, news: News) {
    match news
    case EventNews(topic, payload) => m.EventMsg? && m.topic == topic && m.payload == payload
    case PresenceNews(topic, joins, leaves) =>
      m.DiffMsg? && m.diff.part.topic == topic && m.diff.joins == joins && m.diff.leaves == leaves
  }

  /** `after` is `before` with one more message, telling the news. */
  ghost predicate Got(before: Subscriber, after: Subscriber, news: News) {
    exists m: ServerMsg :: Tells(m, news) && after == before.(queue := before.queue + [m])
  }

  /**
   * What a delivery makes of a node's connections: addressees with room get the news,
   * addressees without are gone, and nothing else changes.
   */
  ghost predicate Reached(before: Conns, after: Conns, addressed: set<int>, news: News) {
    && after.Keys <= before.Keys
    && forall cid :: cid in before ==>
         if cid in addressed && before[cid].open && |before[cid].queue| < 128
         then cid in after && Got(before[cid], after[cid], news)
         else if cid in addressed then cid !in after
         else cid in after && after[cid] == before[cid]
  }

  /** The connections of node `k` on `topic`, but for the sender and, on a tenant-scoped topic, other tenants. */
  ghost function Audience(cfg: Config, k: int, conns: Conns, topic: string, n: int, c: int, p: Option<Principal>)
    : set<int>
  {
    set cid | cid in conns && ChannelId.Broadcast(topic) in conns[cid].channels && (k, cid) != (n, c)
              && (Declared(cfg.broadcast, topic, ScopeTenant) ==> SameTenant(conns[cid].principal, p))
  }

  ghost function Receivers(k: int, conns: Conns, m: BusMsg): set<int>
    requires m.BroadcastMsg?
  {
    set cid | cid in conns && Receives(k, cid, conns[cid], m)
  }

  lemma DeliveryReaches(cfg: Config, k: int, x: HubState, m: BusMsg, now: int, y: HubState, pub: seq<BusMsg>)
    requires m.BroadcastMsg? && OpStep(cfg, k, x, DeliverOp(m, now), y, pub)
    ensures pub == [] && y.presence == x.presence
    ensures Reached(x.conns, y.conns, Receivers(k, x.conns, m), EventNews(m.topic, m.payload))
  {
    hide Receives;
    var ev := EventMsg(m.topic, m.payload, m.tenant);
    forall cid | cid in x.conns && Receives(k, cid, x.conns[cid], m) && HasRoom(x.conns[cid])
      ensures cid in y.conns && Got(x.conns[cid], y.conns[cid], EventNews(m.topic, m.payload))
    {
      assert Tells(ev, EventNews(m.topic, m.payload));
      assert y.conns[cid] == x.conns[cid].(queue := x.conns[cid].queue + [ev]);
    }
  }

  /** What a client's publish puts on the bus. */
  lemma PublishedBy(cfg: Config, n: int, a: HubState, c: int, topic: string, payload: Json, b: HubState,
                    pub: seq<BusMsg>)
    requires topic != "" && c in a.conns
    requires OpStep(cfg, n, a, PublishOp(c, ChannelText(ChannelId.Broadcast(topic)), payload), b, pub)
    ensures ChannelId.Broadcast(topic) in a.conns[c].channels ==>
              && b == a
              && pub == [BroadcastMsg(topic, TopicStamp(cfg, topic, a.conns[c].principal), payload, Some((n, c)))]
    ensures ChannelId.Broadcast(topic) !in a.conns[c].channels ==> forall m :: m in pub ==> !m.BroadcastMsg?
  {
    hide ParseChannel, ChannelText, TopicStamp;
    ChannelRoundTrip(ChannelId.Broadcast(topic));
  }

  lemma ReceiversAreAudience(cfg: Config, k: int, conns: Conns, topic: string, payload: Json, n: int, c: int,
                             p: Option<Principal>)
    requires Entitled(cfg, ChannelId.Broadcast(topic), p)
    ensures var m := BroadcastMsg(topic, TopicStamp(cfg, topic, p), payload, Some((n, c)));
            Receivers(k, conns, m) == Audience(cfg, k, conns, topic, n, c, p)
  {
    hide ScopeOf, Declared;
    ScopeIsDeclared(cfg.broadcast, topic, ScopeTenant);
    ScopeIsDeclared(cfg.broadcast, topic, ScopeAuth);
    ScopeIsDeclared(cfg.broadcast, topic, ScopeNone);
    var m := BroadcastMsg(topic, TopicStamp(cfg, topic, p), payload, Some((n, c)));
    assert forall cid :: cid in Receivers(k, conns, m) <==> cid in Audience(cfg, k, conns, topic, n, c, p);
  }

  /**
   * A client's broadcast. Unless the client has joined the topic nothing is broadcast. If it has,
   * one message goes on the bus, and its delivery at any node `k`, whatever happened there since,
   * reaches exactly the topic's connections, the sender excepted, and on a tenant-scoped topic
   * exactly those of the sender's tenant.
   */
  lemma ClientBroadcastReaches(cfg: Config, n: int, a: HubState, c: int, topic: string, payload: Json,
                               b: HubState, pub: seq<BusMsg>)
    requires Reachable(cfg, n, a) && c in a.conns && topic != ""
    requires OpStep(cfg, n, a, PublishOp(c, ChannelText(ChannelId.Broadcast(topic)), payload), b, pub)
    ensures if ChannelId.Broadcast(topic) !in a.conns[c].channels then forall m :: m in pub ==> !m.BroadcastMsg?
            else
              && b == a && |pub| == 1
              && forall k, x, now, y, pub2 :: OpStep(cfg, k, x, DeliverOp(pub[0], now), y, pub2) ==>
                   && pub2 == [] && y.presence == x.presence
                   && Reached(x.conns, y.conns, Audience(cfg, k, x.conns, topic, n, c, a.conns[c].principal),
                              EventNews(topic, payload))
  {
    hide ChannelText, Reachable, Reached, Audience, Receives, TopicStamp;
    PublishedBy(cfg, n, a, c, topic, payload, b, pub);
    if ChannelId.Broadcast(topic) in a.conns[c].channels {
      JoinedIsEntitled(cfg, n, a, c, ChannelId.Broadcast(topic));
      var p := a.conns[c].principal;
      forall k, x, now, y, pub2 | OpStep(cfg, k, x, DeliverOp(pub[0], now), y, pub2)
        ensures pub2 == [] && y.presence == x.presence
        ensures Reached(x.conns, y.conns, Audience(cfg, k, x.conns, topic, n, c, p), EventNews(topic, payload))
      {
        DeliveryReaches(cfg, k, x, pub[0], now, y, pub2);
        ReceiversAreAudience(cfg, k, x.conns, topic, payload, n, c, p);
      }
    }
  }

  /** Everyone on `topic`, or everyone of one tenant. */
  ghost function Public(conns: Conns, topic: string, tenant: Option<string>): set<int> {
    set cid | cid in conns && ChannelId.Broadcast(topic) in conns[cid].channels
              && (tenant.Some? ==> conns[cid].principal.Some? && conns[cid].principal.value.tenantId == tenant)
  }

  /**
   * A broadcast by the server itself, plain or for one tenant: a declared topic of the right kind
   * is announced to everyone on it, or of that tenant; any other is refused.
   */
  lemma ServerBroadcastReaches(cfg: Config, n: int, a: HubState, topic: string, tenant: Option<string>, payload: Json,
                               b: HubState, pub: seq<BusMsg>)
    requires OpStep(cfg, n, a, if tenant.None? then ServerPublishOp(topic, payload)
                               else TenantPublishOp(tenant.value, topic, payload), b, pub)
    ensures b == a
    ensures var declared := if tenant.Some? then Declared(cfg.broadcast, topic, ScopeTenant)
                            else Declared(cfg.broadcast, topic, ScopeNone) || Declared(cfg.broadcast, topic, ScopeAuth);
            if !declared then pub == []
            else
              && |pub| == 1
              && forall k, x, now, y, pub2 :: OpStep(cfg, k, x, DeliverOp(pub[0], now), y, pub2) ==>
                   && pub2 == [] && y.presence == x.presence
                   && Reached(x.conns, y.conns, Public(x.conns, topic, tenant), EventNews(topic, payload))
  {
    hide Reached, Public, ScopeOf, Declared, Receives;
    ScopeIsDeclared(cfg.broadcast, topic, ScopeTenant);
    ScopeIsDeclared(cfg.broadcast, topic, ScopeAuth);
    ScopeIsDeclared(cfg.broadcast, topic, ScopeNone);
    var scope := ScopeOf(cfg.broadcast, topic);
    assert scope.Some? ==> scope.value == ScopeNone || scope.value == ScopeAuth || scope.value == ScopeTenant;
    if pub != [] {
      forall k, x, now, y, pub2 | OpStep(cfg, k, x, DeliverOp(pub[0], now), y, pub2)
        ensures pub2 == [] && y.presence == x.presence
        ensures Reached(x.conns, y.conns, Public(x.conns, topic, tenant), EventNews(topic, payload))
      {
        DeliveryReaches(cfg, k, x, pub[0], now, y, pub2);
        ReceiversArePublic(k, x.conns, topic, tenant, payload);
      }
    }
  }

  lemma ReceiversArePublic(k: int, conns: Conns, topic: string, tenant: Option<string>, payload: Json)
    ensures var m := BroadcastMsg(topic, tenant, payload, None);
            Receivers(k, conns, m) == Public(conns, topic, tenant)
  {
    var m := BroadcastMsg(topic, tenant, payload, None);
    assert forall cid :: cid in Receivers(k, conns, m) <==> cid in Public(conns, topic, tenant);
  }

  // ---------- presence ----------

  /** The slice of a presence topic a principal sees: its tenant's, or the one everybody shares. */
  ghost function Slice(cfg: Config, topic: string, p: Option<Principal>): Option<string> {
    if Declared(cfg.presence, topic, ScopeTenant) && p.Some? then p.value.tenantId else None
  }

  /** The connections on a presence topic that see the same slice as `p`. */
  ghost function Watchers(cfg: Config, conns: Conns, topic: string, p: Option<Principal>): set<int> {
    set cid | cid in conns && ChannelId.Presence(topic) in conns[cid].channels
              && Slice(cfg, topic, conns[cid].principal) == Slice(cfg, topic, p)
  }

  /** What a client goes by: its user's id, or its connection when it is anonymous. */
  ghost function GoesBy(p: Option<Principal>, c: nat): string {
    match p case Some(user) => user.userId case None => "conn:" + Decimal(c)
  }

  lemma SliceIs(cfg: Config, topic: string, p: Option<Principal>, c: nat)
    ensures PresenceTenant(cfg, topic, p) == Slice(cfg, topic, p) && PresenceKey(p, c) == GoesBy(p, c)
  {
    hide Declared, ScopeOf, Decimal;
    ScopeIsDeclared(cfg.presence, topic, ScopeTenant);
  }

  lemma DiffReaches(cfg: Config, conns: Conns, topic: string, p: Option<Principal>, d: Diff)
    requires d.part == Partition(topic, Slice(cfg, topic, p))
    ensures Reached(conns, AfterDiffs(cfg, conns, [d]), Watchers(cfg, conns, topic, p),
                    PresenceNews(topic, d.joins, d.leaves))
  {
    hide Slice, PresenceTenant;
    var after := AfterDiffs(cfg, conns, [d]);
    assert [d][..0] == [] && AfterDiffs(cfg, conns, []) == conns;
    assert after == AfterDiff(cfg, conns, d);
    forall cid | cid in conns
      ensures cid in Watchers(cfg, conns, topic, p) <==> Watches(cfg, conns[cid], d.part)
      ensures cid in after && after[cid] == Sent(conns[cid], DiffMsg(d)) ==>
                Got(conns[cid], after[cid], PresenceNews(topic, d.joins, d.leaves))
    {
      SliceIs(cfg, topic, conns[cid].principal, 0);
      assert Tells(DiffMsg(d), PresenceNews(topic, d.joins, d.leaves));
    }
  }

  /** Who joins a presence topic with room is told who is there: its slice as the node shows it. */
  lemma JoinerSeesItsSlice(cfg: Config, n: int, a: HubState, c: int, topic: string, sourceDown: bool,
                           b: HubState, pub: seq<BusMsg>)
    requires topic != "" && c in a.conns && Entitled(cfg, ChannelId.Presence(topic), a.conns[c].principal)
    requires OpStep(cfg, n, a, JoinOp(c, ChannelText(ChannelId.Presence(topic)), sourceDown), b, pub)
    requires a.conns[c].open && |a.conns[c].queue| + 2 <= 128
    ensures c in b.conns
    ensures var q := b.conns[c].queue;
            && |q| == |a.conns[c].queue| + 2 && q[..|a.conns[c].queue|] == a.conns[c].queue && q[|q| - 1].StateMsg?
            && var told := q[|q| - 1];
               && told.part == Partition(topic, Slice(cfg, topic, a.conns[c].principal))
               && forall key ::
                    var e := Lookup(a.presence.entries, told.part, key);
                    (key in told.state <==> e.Some?) && (e.Some? ==> told.state[key] == e.value.meta)
  {
    hide ParseChannel, ChannelText, MayJoin, PresenceTenant, Slice, Entitled;
    ChannelRoundTrip(ChannelId.Presence(topic));
    GateIsExact(cfg, ChannelId.Presence(topic), a.conns[c].principal);
    SliceIs(cfg, topic, a.conns[c].principal, 0);
  }

  /**
   * A client that tracks itself on a presence topic: refused unless it has joined the topic, and
   * then, wherever the message is delivered, its key is shown with its state for its slice of the
   * topic, nothing else there changes, and exactly that slice's watchers are told it has joined.
   */
  lemma TrackReaches(cfg: Config, n: int, a: HubState, c: nat, topic: string, state: Json, b: HubState,
                     pub: seq<BusMsg>)
    requires c in a.conns && topic != ""
    requires OpStep(cfg, n, a, TrackOp(c, ChannelText(ChannelId.Presence(topic)), state), b, pub)
    ensures if ChannelId.Presence(topic) !in a.conns[c].channels then pub == []
            else
              var p := a.conns[c].principal;
              var key := GoesBy(p, c);
              && |pub| == 1 && c in b.conns && b.conns == a.conns[c := b.conns[c]]
              && b.conns[c] == a.conns[c].(tracked := a.conns[c].tracked + {(ChannelId.Presence(topic), key)})
              && forall k, x, now, y, pub2 :: OpStep(cfg, k, x, DeliverOp(pub[0], now), y, pub2) ==>
                   && Reached(x.conns, y.conns, Watchers(cfg, x.conns, topic, p),
                              PresenceNews(topic, map[key := state], map[]))
                   && forall part, other :: Lookup(y.presence.entries, part, other) ==
                        if part == Partition(topic, Slice(cfg, topic, p)) && other == key then Some(Entry(n, state))
                        else Lookup(x.presence.entries, part, other)
  {
    hide ParseChannel, ChannelText, PresenceTenant, PresenceKey, Slice, GoesBy, Watchers, Reached, Lookup, LeavesOfGone,
         AfterDiffs;
    ChannelRoundTrip(ChannelId.Presence(topic));
    var p := a.conns[c].principal;
    SliceIs(cfg, topic, p, c);
    if ChannelId.Presence(topic) in a.conns[c].channels {
      var part, key := Partition(topic, Slice(cfg, topic, p)), GoesBy(p, c);
      assert pub[0] == PresenceSet(part, key, n, state);
      forall k, x, now, y, pub2 | OpStep(cfg, k, x, DeliverOp(pub[0], now), y, pub2)
        ensures Reached(x.conns, y.conns, Watchers(cfg, x.conns, topic, p),
                        PresenceNews(topic, map[key := state], map[]))
        ensures forall part', other :: Lookup(y.presence.entries, part', other) ==
                  if part' == part && other == key then Some(Entry(n, state))
                  else Lookup(x.presence.entries, part', other)
      {
        SetLookup(x.presence, part, key, n, state, now);
        DiffReaches(cfg, x.conns, topic, p, Diff(part, map[key := state], map[]));
      }
    }
  }

  /**
   * A client that takes itself off: unless it tracked itself there nothing happens. If it did,
   * then wherever the message is delivered, its key is no longer shown as node `n`'s, nothing
   * else changes, and the slice's watchers are told exactly if it was shown as node `n`'s.
   */
  lemma UntrackReaches(cfg: Config, n: int, a: HubState, c: nat, topic: string, b: HubState, pub: seq<BusMsg>)
    requires c in a.conns && topic != ""
    requires OpStep(cfg, n, a, UntrackOp(c, ChannelText(ChannelId.Presence(topic))), b, pub)
    ensures var p := a.conns[c].principal;
            var key := GoesBy(p, c);
            if (ChannelId.Presence(topic), key) !in a.conns[c].tracked then b == a && pub == []
            else
              && |pub| == 1 && c in b.conns && b.conns == a.conns[c := b.conns[c]]
              && b.conns[c] == a.conns[c].(tracked := a.conns[c].tracked - {(ChannelId.Presence(topic), key)})
              && forall k, x, now, y, pub2 :: OpStep(cfg, k, x, DeliverOp(pub[0], now), y, pub2) ==>
                   var part := Partition(topic, Slice(cfg, topic, p));
                   var e := Lookup(x.presence.entries, part, key);
                   && (if e.Some? && e.value.node == n
                       then Reached(x.conns, y.conns, Watchers(cfg, x.conns, topic, p),
                                    PresenceNews(topic, map[], map[key := e.value.meta]))
                       else y.conns == x.conns)
                   && forall part', other :: Lookup(y.presence.entries, part', other) ==
                        if part' == part && other == key && e.Some? && e.value.node == n then None
                        else Lookup(x.presence.entries, part', other)
  {
    hide ParseChannel, ChannelText, PresenceTenant, PresenceKey, Slice, GoesBy, Watchers, Reached, LeavesOfGone;
    ChannelRoundTrip(ChannelId.Presence(topic));
    var p := a.conns[c].principal;
    SliceIs(cfg, topic, p, c);
    var part, key := Partition(topic, Slice(cfg, topic, p)), GoesBy(p, c);
    if (ChannelId.Presence(topic), key) in a.conns[c].tracked {
      assert pub[0] == PresenceClear(part, key, n);
      forall k, x, now, y, pub2 | OpStep(cfg, k, x, DeliverOp(pub[0], now), y, pub2)
        ensures var e := Lookup(x.presence.entries, part, key);
                && (if e.Some? && e.value.node == n
                    then Reached(x.conns, y.conns, Watchers(cfg, x.conns, topic, p),
                                 PresenceNews(topic, map[], map[key := e.value.meta]))
                    else y.conns == x.conns)
                && forall part', other :: Lookup(y.presence.entries, part', other) ==
                     if part' == part && other == key && e.Some? && e.value.node == n then None
                     else Lookup(x.presence.entries, part', other)
      {
        ClearLookup(x.presence, part, key, n);
        var e := Lookup(x.presence.entries, part, key);
        if e.Some? && e.value.node == n {
          DiffReaches(cfg, x.conns, topic, p, Diff(part, map[], map[key := e.value.meta]));
        }
      }
    }
  }

  /** The leave of one tracked key. */
  ghost function LeaveOf(cfg: Config, n: int, p: Option<Principal>, item: (ChannelId, string)): BusMsg {
    PresenceClear(Partition(item.0.name, Slice(cfg, item.0.name, p)), item.1, n)
  }

  /** A connection that ends takes itself off wherever it had tracked itself, once each, and nowhere else. */
  lemma DisconnectLeaves(cfg: Config, n: int, a: HubState, c: int, b: HubState, pub: seq<BusMsg>)
    requires c in a.conns && OpStep(cfg, n, a, DisconnectOp(c), b, pub)
    ensures b.conns == a.conns - {c} && b.presence == a.presence
    ensures forall item :: item in a.conns[c].tracked && item.0.Presence? ==>
              LeaveOf(cfg, n, a.conns[c].principal, item) in pub
    ensures forall m :: m in pub ==>
              exists item :: item in a.conns[c].tracked && item.0.Presence?
                             && m == LeaveOf(cfg, n, a.conns[c].principal, item)
    ensures forall i, j :: 0 <= i < j < |pub| ==> pub[i] != pub[j]
  {
    hide Slice, PresenceTenant;
    var p := a.conns[c].principal;
    forall item | item in a.conns[c].tracked && item.0.Presence?
      ensures LeaveOf(cfg, n, p, item) == ClearFor(cfg, n, p, item) && LeaveOf(cfg, n, p, item) in pub
    {
      SliceIs(cfg, item.0.name, p, 0);
      assert ClearFor(cfg, n, p, item) in ClearsOf(cfg, n, p, a.conns[c].tracked);
    }
    forall m | m in pub
      ensures exists item :: item in a.conns[c].tracked && item.0.Presence? && m == LeaveOf(cfg, n, p, item)
    {
      assert m in ClearsOf(cfg, n, p, a.conns[c].tracked);
      var item :| item in a.conns[c].tracked && item.0.Presence? && m == ClearFor(cfg, n, p, item);
      assert m == LeaveOf(cfg, n, p, item);
    }
  }

  /**
   * The periodic tick of node `n`: it announces exactly what it owns itself, keeps all of that, and
   * of every other node's exactly what was heard from within 90 seconds.
   */
  lemma TickIsExact(cfg: Config, n: int, a: HubState, now: int, b: HubState, pub: seq<BusMsg>)
    requires OpStep(cfg, n, a, TickOp(now), b, pub)
    ensures forall part, key ::
              var e := Lookup(a.presence.entries, part, key);
              Lookup(b.presence.entries, part, key) ==
              if e.None? then None
              else if e.value.node == n then e
              else if e.value.node in a.presence.seen && now <= a.presence.seen[e.value.node] + 90_000 then e
              else None
    ensures pub != [] && pub[0].PresenceSnapshot? && pub[0].node == n
    ensures forall part, key :: (part, key) in pub[0].entries <==>
              var e := Lookup(a.presence.entries, part, key); e.Some? && e.value.node == n
    ensures forall i :: 0 < i < |pub| ==> pub[i].PresenceClear? && pub[i].node == n
  {
    hide Lookup, AfterDiffs, SweepDiffs, Swept;
    SweepIsExact(Touch(a.presence, n, now), now, NODE_TTL_MS);
    forall i | 0 < i < |pub| ensures pub[i].PresenceClear? && pub[i].node == n {
      assert pub[i] == pub[1..][i - 1] && pub[1..][i - 1] in pub[1..];
    }
  }
}
