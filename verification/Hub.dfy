/**
 * The hub of the realtime crate as its source has it: a connection registry with bounded queues,
 * mutated in place, and an outbox on the bus. Each method is one operation of the specification.
 */
module Hub {
  import opened Basics
  import opened Text
  import opened Channel
  import opened Presence
  import opened HubSpec

  // ---------- teardown and fan-out loops ----------

  lemma ClearsAreLeaves(cfg: Config, node: int, before: Conns, cid: int, pub: seq<BusMsg>)
    requires cid in before && Publishes(pub, ClearsOf(cfg, node, before[cid].principal, before[cid].tracked))
    ensures Owed(cfg, node, before, before - {cid}, cid, pub)
  {
  }

  /** Two sends to one connection in a row owe what the teardown of either owes. */
  lemma OwedTwice(cfg: Config, node: int, a: Conns, b: Conns, c: Conns, conn: int, p: seq<BusMsg>, q: seq<BusMsg>)
    requires Owed(cfg, node, a, b, conn, p) && Owed(cfg, node, b, c, conn, q)
    requires conn in b ==> conn in a && b[conn].tracked == a[conn].tracked && b[conn].principal == a[conn].principal
    requires conn !in b ==> conn !in c
    ensures Owed(cfg, node, a, c, conn, p + q)
  {
    hide Publishes, ClearsOf;
    assert p + [] == p && [] + q == q;
  }

  /** The leaves of some connections, each still as it was. */
  ghost predicate LeavesOf(cfg: Config, node: int, conns: Conns, gone: seq<int>, pub: seq<BusMsg>) {
    forall m :: m in pub <==>
      exists cid :: cid in gone && cid in conns && m in ClearsOf(cfg, node, conns[cid].principal, conns[cid].tracked)
  }

  lemma LeavesGrow(cfg: Config, node: int, conns: Conns, done: seq<int>, cid: int, pub: seq<BusMsg>, more: seq<BusMsg>)
    requires cid in conns && LeavesOf(cfg, node, conns, done, pub)
    requires Publishes(more, ClearsOf(cfg, node, conns[cid].principal, conns[cid].tracked))
    ensures LeavesOf(cfg, node, conns, done + [cid], pub + more)
  {
    hide ClearsOf;
    var pq := pub + more;
    forall m ensures m in pq <==> m in pub || m in more {}
    assert forall x :: x in done + [cid] <==> x in done || x == cid;
  }

  lemma LeavesCompose(cfg: Config, node: int, a: Conns, b: Conns, c: Conns, p: seq<BusMsg>, q: seq<BusMsg>)
    requires LeavesOfGone(cfg, node, a, b, p) && LeavesOfGone(cfg, node, b, c, q)
    requires forall cid :: cid in b ==>
               cid in a && b[cid].tracked == a[cid].tracked && b[cid].principal == a[cid].principal
    requires forall cid :: cid in c ==> cid in b
    ensures LeavesOfGone(cfg, node, a, c, p + q)
  {
    hide ClearsOf;
    var pq := p + q;
    forall m ensures m in pq <==> m in p || m in q {}
    forall m | m in q
      ensures exists cid :: cid in a && cid !in c && m in ClearsOf(cfg, node, a[cid].principal, a[cid].tracked)
    {
      var cid :| cid in b && cid !in c && m in ClearsOf(cfg, node, b[cid].principal, b[cid].tracked);
      assert cid in a;
    }
    forall m | m in p
      ensures exists cid :: cid in a && cid !in c && m in ClearsOf(cfg, node, a[cid].principal, a[cid].tracked)
    {
      var cid :| cid in a && cid !in b && m in ClearsOf(cfg, node, a[cid].principal, a[cid].tracked);
      assert cid !in c;
    }
    forall cid, m | cid in a && cid !in c && m in ClearsOf(cfg, node, a[cid].principal, a[cid].tracked)
      ensures m in pq
    {
      if cid in b { assert m in ClearsOf(cfg, node, b[cid].principal, b[cid].tracked); }
    }
  }

  lemma NobodyGone(cfg: Config, node: int, conns: Conns)
    ensures LeavesOfGone(cfg, node, conns, conns, [])
  {
  }

  /** A fan-out of `m` to `reached`, with the connections of `todo` still ahead. */
  ghost predicate Fanning(c0: Conns, conns: Conns, todo: set<int>, dropList: seq<int>, reached: set<int>, m: ServerMsg)
  {
    && conns.Keys == c0.Keys && todo <= c0.Keys
    && (forall cid :: cid in c0 ==>
          conns[cid] == if cid !in todo && cid in reached && HasRoom(c0[cid]) then Sent(c0[cid], m) else c0[cid])
    && (forall cid :: cid in dropList <==> cid in c0 && cid !in todo && cid in reached && !HasRoom(c0[cid]))
    && (forall i, j :: 0 <= i < j < |dropList| ==> dropList[i] != dropList[j])
  }

  lemma FanOne(c0: Conns, conns: Conns, todo: set<int>, dropList: seq<int>, reached: set<int>, m: ServerMsg, cid: int)
    requires Fanning(c0, conns, todo, dropList, reached, m) && cid in todo
    ensures cid in conns && conns[cid] == c0[cid]
    ensures Fanning(c0, if cid in reached && HasRoom(conns[cid]) then conns[cid := Sent(conns[cid], m)] else conns,
                    todo - {cid},
                    if cid in reached && !HasRoom(conns[cid]) then dropList + [cid] else dropList, reached, m)
  {
    hide HasRoom;
    assert cid !in dropList;
    assert forall x :: x in dropList + [cid] <==> x in dropList || x == cid;
  }

  lemma FanStarts(c0: Conns, reached: set<int>, m: ServerMsg)
    ensures Fanning(c0, c0, c0.Keys, [], reached, m)
  {
  }

  lemma FanEnds(c0: Conns, conns: Conns, dropList: seq<int>, reached: set<int>, m: ServerMsg)
    requires Fanning(c0, conns, {}, dropList, reached, m)
    ensures forall cid :: cid in conns <==> cid in c0
    ensures forall cid :: cid in c0 ==>
              conns[cid] == if cid in reached && HasRoom(c0[cid]) then Sent(c0[cid], m) else c0[cid]
    ensures forall cid :: cid in dropList <==> cid in c0 && cid in reached && !HasRoom(c0[cid])
    ensures forall i, j :: 0 <= i < j < |dropList| ==> dropList[i] != dropList[j]
  {
    assert conns.Keys == c0.Keys;
  }

  lemma DroppedAreGone(cfg: Config, node: int, c0: Conns, after: Conns, dropList: seq<int>, pub: seq<BusMsg>)
    requires LeavesOf(cfg, node, c0, dropList, pub)
    requires forall cid :: cid in c0 ==> (cid in dropList <==> cid !in after)
    ensures LeavesOfGone(cfg, node, c0, after, pub)
  {
    hide ClearsOf;
  }

  // ---------- the hub ----------

  class Hub {
    const cfg: Config
    const node: int
    const presence: PresenceMap
    var conns: Conns
    var outbox: seq<BusMsg>
    var nextConn: nat
    var changesUnavailable: bool

    function State(): HubState
      reads this, presence
    {
      HubState(conns, presence.Abs(), nextConn)
    }

    constructor (cfg: Config, node: int)
      ensures this.cfg == cfg && this.node == node && fresh(presence)
      ensures State() == NewHub && outbox == []
    {
      this.cfg, this.node := cfg, node;
      presence := new PresenceMap();
      conns, outbox, nextConn, changesUnavailable := map[], [], 0, false;
    }

    method Connect(principal: Option<Principal>) returns (id: int)
      modifies this`conns, this`nextConn
      ensures id == old(nextConn) && OpStep(cfg, node, old(State()), ConnectOp(principal), State(), [])
    {
      id, nextConn := nextConn, nextConn + 1;
      conns := conns[id := Subscriber(principal, [], true, {}, {})];
    }

    /** The one teardown: each leave owed is published once; a connection already gone publishes nothing. */
    method DropConnection(cid: int) returns (ghost pub: seq<BusMsg>)
      modifies this`conns, this`outbox
      ensures OpStep(cfg, node, old(State()), DisconnectOp(cid), State(), pub) && outbox == old(outbox) + pub
      ensures cid !in conns && (cid !in old(conns) ==> pub == [])
    {
      pub := [];
      if cid !in conns {
        assert conns - {cid} == conns;
        return;
      }
      var sub := conns[cid];
      conns := conns - {cid};
      var todo := sub.tracked;
      while todo != {}
        invariant todo <= sub.tracked && outbox == old(outbox) + pub
        invariant conns == old(conns) - {cid}
        invariant forall m :: m in pub <==> exists item ::
                    && item in sub.tracked && item !in todo && item.0.Presence?
                    && m == ClearFor(cfg, node, sub.principal, item)
        invariant forall i, j :: 0 <= i < j < |pub| ==> pub[i] != pub[j]
        decreases todo
      {
        SetHasMember(todo);
        var item :| item in todo;
        todo := todo - {item};
        if item.0.Presence? {
          var m := ClearFor(cfg, node, sub.principal, item);
          assert m !in pub;
          outbox := outbox + [m];
          pub := pub + [m];
        }
      }
      assert Publishes(pub, ClearsOf(cfg, node, sub.principal, sub.tracked));
      ClearsAreLeaves(cfg, node, old(conns), cid, pub);
    }

    /** A connection's own loop ends: the same teardown. */
    method Disconnect(conn: int) returns (ghost pub: seq<BusMsg>)
      modifies this`conns, this`outbox
      ensures OpStep(cfg, node, old(State()), DisconnectOp(conn), State(), pub) && outbox == old(outbox) + pub
    {
      pub := DropConnection(conn);
    }

    /** The client's end of the queue. */
    method Receive(conn: int, hangUp: bool) returns (m: Option<ServerMsg>)
      modifies this`conns
      ensures OpStep(cfg, node, old(State()), ReceiveOp(conn, hangUp), State(), [])
      ensures m == if conn in old(conns) && !hangUp && old(conns)[conn].queue != []
                   then Some(old(conns)[conn].queue[0]) else None
    {
      m := None;
      if conn !in conns { return; }
      var sub := conns[conn];
      if hangUp {
        conns := conns[conn := sub.(open := false)];
      } else if sub.queue != [] {
        m := Some(sub.queue[0]);
        conns := conns[conn := sub.(queue := sub.queue[1..])];
      }
    }

    method SendTo(conn: int, m: ServerMsg) returns (ghost pub: seq<BusMsg>)
      modifies this`conns, this`outbox
      ensures conns == AfterSend(old(conns), conn, m) && outbox == old(outbox) + pub
      ensures Owed(cfg, node, old(conns), conns, conn, pub)
      ensures m.Reply? ==> OpStep(cfg, node, old(State()), ReplyOp(conn, m.code), State(), pub)
    {
      hide Publishes, ClearsOf;
      pub := [];
      if conn in conns {
        var sub := conns[conn];
        if HasRoom(sub) {
          conns := conns[conn := Sent(sub, m)];
        } else {
          pub := DropConnection(conn);
        }
      }
    }

    method Join(conn: int, channel: string) returns (ghost pub: seq<BusMsg>)
      modifies this`conns, this`outbox
      ensures OpStep(cfg, node, old(State()), JoinOp(conn, channel, changesUnavailable), State(), pub)
      ensures outbox == old(outbox) + pub
    {
      hide Owed, ParseChannel, MayJoin;
      pub := [];
      var parsed := ParseChannel(channel);
      if parsed.None? { pub := SendTo(conn, Reply("JC0404")); return; }
      var id := parsed.value;
      if id.Changes? && changesUnavailable { pub := SendTo(conn, Reply("JC0530")); return; }
      if conn !in conns { NothingOwed(cfg, node, conns, conn); return; }
      var p := conns[conn].principal;
      var allowed := MayJoin(cfg, id, p);
      if allowed.Err? { pub := SendTo(conn, Reply(JoinCode(allowed.error))); return; }
      ghost var c0 := conns;
      conns := conns[conn := WithChannel(conns[conn], id)];
      ghost var c1 := conns;
      pub := SendTo(conn, Reply("joined"));
      SameOwed(cfg, node, c0, c1, conns, conn, pub);
      if id.Presence? && conn in conns {
        var part := PartFor(cfg, id.name, conns[conn].principal);
        ghost var c2, before := conns, pub;
        ghost var more := SendTo(conn, StateMsg(part, StateOf(presence.Abs(), part)));
        pub := before + more;
        OwedTwice(cfg, node, c0, c2, conns, conn, before, more);
      }
    }

    method Leave(conn: int, channel: string) returns (ghost pub: seq<BusMsg>)
      modifies this`conns, this`outbox
      ensures OpStep(cfg, node, old(State()), LeaveOp(conn, channel), State(), pub) && outbox == old(outbox) + pub
    {
      hide Owed, ParseChannel;
      var parsed := ParseChannel(channel);
      ghost var c0 := conns;
      if parsed.Some? && conn in conns {
        var sub := conns[conn];
        conns := conns[conn := sub.(channels := sub.channels - {parsed.value})];
      }
      ghost var c1 := conns;
      pub := SendTo(conn, Reply("left"));
      SameOwed(cfg, node, c0, c1, conns, conn, pub);
    }

    /** On a joined presence channel the key is recorded, then announced. */
    method Track(conn: nat, channel: string, state: Json) returns (ghost pub: seq<BusMsg>)
      modifies this`conns, this`outbox
      ensures OpStep(cfg, node, old(State()), TrackOp(conn, channel, state), State(), pub)
      ensures outbox == old(outbox) + pub
    {
      hide Owed, ParseChannel;
      pub := [];
      var parsed := ParseChannel(channel);
      if parsed.None? || !parsed.value.Presence? { pub := SendTo(conn, Reply("JC0404")); return; }
      var id := parsed.value;
      if conn !in conns { NothingOwed(cfg, node, conns, conn); return; }
      var sub := conns[conn];
      if id !in sub.channels {
        if HasRoom(sub) { conns := conns[conn := Sent(sub, Reply("JC0403"))]; }
        StaysOwesNothing(cfg, node, old(conns), conns, conn);
        return;
      }
      var item := (id, PresenceKey(sub.principal, conn));
      conns := conns[conn := Tracking(sub, item)];
      pub := [SetFor(cfg, node, sub.principal, item, state)];
      outbox := outbox + [SetFor(cfg, node, sub.principal, item, state)];
    }

    /** The leave is published exactly when the key was tracked. */
    method Untrack(conn: nat, channel: string) returns (ghost pub: seq<BusMsg>)
      modifies this`conns, this`outbox
      ensures OpStep(cfg, node, old(State()), UntrackOp(conn, channel), State(), pub) && outbox == old(outbox) + pub
    {
      hide ParseChannel;
      pub := [];
      var parsed := ParseChannel(channel);
      if parsed.None? || !parsed.value.Presence? || conn !in conns { return; }
      var sub := conns[conn];
      var item := (parsed.value, PresenceKey(sub.principal, conn));
      if item in sub.tracked {
        conns := conns[conn := Forgetting(sub, item)];
        pub := [ClearFor(cfg, node, sub.principal, item)];
        outbox := outbox + [ClearFor(cfg, node, sub.principal, item)];
      }
    }

    /** Joined channels only, stamped with the sender's tenant where scoped; a refusal broadcasts nothing. */
    method Publish(conn: int, channel: string, payload: Json) returns (ghost pub: seq<BusMsg>)
      modifies this`conns, this`outbox
      ensures OpStep(cfg, node, old(State()), PublishOp(conn, channel, payload), State(), pub)
      ensures outbox == old(outbox) + pub
    {
      hide Owed, ParseChannel;
      pub := [];
      var parsed := ParseChannel(channel);
      if parsed.None? || !parsed.value.Broadcast? { pub := SendTo(conn, Reply("JC0404")); return; }
      var id := parsed.value;
      if conn !in conns { NothingOwed(cfg, node, conns, conn); return; }
      var sub := conns[conn];
      if id !in sub.channels { pub := SendTo(conn, Reply("JC0403")); return; }
      var m := BroadcastMsg(id.name, TopicStamp(cfg, id.name, sub.principal), payload, Some((node, conn)));
      outbox := outbox + [m];
      pub := [m];
    }

    /** A server's plain publish is refused on a tenant-scoped topic. */
    method PublishFromServer(topic: string, payload: Json) returns (r: Result<(), string>, ghost pub: seq<BusMsg>)
      modifies this`outbox
      ensures OpStep(cfg, node, old(State()), ServerPublishOp(topic, payload), State(), pub)
      ensures outbox == old(outbox) + pub
      ensures r.Ok? <==> ScopeOf(cfg.broadcast, topic).Some? && !TenantTopic(cfg, topic)
      ensures r.Err? ==> r.error == if ScopeOf(cfg.broadcast, topic).None? then "JC0404" else "JC0403"
    {
      pub := [];
      match ScopeOf(cfg.broadcast, topic)
      case None => r := Err("JC0404");
      case Some(scope) =>
        if scope == ScopeTenant { return Err("JC0403"), []; }
        outbox := outbox + [BroadcastMsg(topic, None, payload, None)];
        pub := [BroadcastMsg(topic, None, payload, None)];
        r := Ok(());
    }

    /** Its partitioned twin is accepted on tenant-scoped topics only. */
    method PublishToTenant(tenant: string, topic: string, payload: Json)
      returns (r: Result<(), string>, ghost pub: seq<BusMsg>)
      modifies this`outbox
      ensures OpStep(cfg, node, old(State()), TenantPublishOp(tenant, topic, payload), State(), pub)
      ensures outbox == old(outbox) + pub
      ensures r.Ok? <==> TenantTopic(cfg, topic)
      ensures r.Err? ==> r.error == if ScopeOf(cfg.broadcast, topic).None? then "JC0404" else "JC0403"
    {
      pub := [];
      match ScopeOf(cfg.broadcast, topic)
      case None => r := Err("JC0404");
      case Some(scope) =>
        if scope != ScopeTenant { return Err("JC0403"), []; }
        outbox := outbox + [BroadcastMsg(topic, Some(tenant), payload, None)];
        pub := [BroadcastMsg(topic, Some(tenant), payload, None)];
        r := Ok(());
    }

    /** Fan-out of a broadcast; slow consumers are removed bare, without their leaves. */
    method DeliverBroadcast(m: BusMsg)
      requires m.BroadcastMsg?
      modifies this`conns
      ensures conns == AfterBroadcast(node, old(conns), m)
    {
      hide Receives, HasRoom, Fanning;
      var dropList: seq<int> := [];
      var todo := conns.Keys;
      var event := EventMsg(m.topic, m.payload, m.tenant);
      ghost var c0, reached := conns, set cid | cid in conns && Receives(node, cid, conns[cid], m);
      FanStarts(c0, reached, event);
      while todo != {}
        invariant Fanning(c0, conns, todo, dropList, reached, event)
        decreases todo
      {
        ghost var some := Member(todo);
        assert some in todo;
        var cid :| cid in todo;
        FanOne(c0, conns, todo, dropList, reached, event, cid);
        todo := todo - {cid};
        if Receives(node, cid, conns[cid], m) {
          if HasRoom(conns[cid]) {
            conns := conns[cid := Sent(conns[cid], event)];
          } else {
            dropList := dropList + [cid];
          }
        }
      }
      FanEnds(c0, conns, dropList, reached, event);
      RemoveAll(dropList);
      ghost var want := AfterBroadcast(node, c0, m);
      assert forall cid :: cid in conns <==> cid in want;
      assert conns == want;
    }

    /** The bare removal of slow consumers. */
    method RemoveAll(dropList: seq<int>)
      modifies this`conns
      ensures forall cid :: cid in conns <==> cid in old(conns) && cid !in dropList
      ensures forall cid :: cid in conns ==> conns[cid] == old(conns)[cid]
    {
      var i := 0;
      while i < |dropList|
        invariant i <= |dropList|
        invariant forall cid :: cid in conns <==> cid in old(conns) && cid !in dropList[..i]
        invariant forall cid :: cid in conns ==> conns[cid] == old(conns)[cid]
      {
        conns := conns - {dropList[i]};
        assert dropList[..i + 1] == dropList[..i] + [dropList[i]];
        i := i + 1;
      }
      assert dropList[..i] == dropList;
    }

    /** Fan-out of a presence diff; slow watchers are torn down with exactly their leaves. */
    method BroadcastDiff(d: Diff) returns (ghost pub: seq<BusMsg>)
      modifies this`conns, this`outbox
      ensures conns == AfterDiff(cfg, old(conns), d) && outbox == old(outbox) + pub
      ensures LeavesOfGone(cfg, node, old(conns), conns, pub)
    {
      hide ClearsOf, LeavesOf, LeavesOfGone, HasRoom, Fanning, Watches;
      var dropList: seq<int> := [];
      var todo := conns.Keys;
      ghost var c0, reached := conns, set cid | cid in conns && Watches(cfg, conns[cid], d.part);
      FanStarts(c0, reached, DiffMsg(d));
      while todo != {}
        invariant Fanning(c0, conns, todo, dropList, reached, DiffMsg(d)) && outbox == old(outbox)
        decreases todo
      {
        ghost var some := Member(todo);
        assert some in todo;
        var cid :| cid in todo;
        FanOne(c0, conns, todo, dropList, reached, DiffMsg(d), cid);
        todo := todo - {cid};
        if Watches(cfg, conns[cid], d.part) {
          if HasRoom(conns[cid]) {
            conns := conns[cid := Sent(conns[cid], DiffMsg(d))];
          } else {
            dropList := dropList + [cid];
          }
        }
      }
      FanEnds(c0, conns, dropList, reached, DiffMsg(d));
      pub := DropAll(dropList, c0);
      ghost var want := AfterDiff(cfg, c0, d);
      assert forall cid :: cid in conns <==> cid in want;
      assert forall cid :: cid in conns ==> conns[cid] == want[cid];
      assert conns == want;
      DroppedAreGone(cfg, node, c0, conns, dropList, pub);
    }

    /** Tears down each listed connection; `c0` is where each of them is still as it was. */
    method DropAll(dropList: seq<int>, ghost c0: Conns) returns (ghost pub: seq<BusMsg>)
      requires forall i, j :: 0 <= i < j < |dropList| ==> dropList[i] != dropList[j]
      requires forall cid :: cid in dropList ==> cid in conns && cid in c0 && conns[cid] == c0[cid]
      modifies this`conns, this`outbox
      ensures outbox == old(outbox) + pub
      ensures forall cid :: cid in conns <==> cid in old(conns) && cid !in dropList
      ensures forall cid :: cid in conns ==> conns[cid] == old(conns)[cid]
      ensures LeavesOf(cfg, node, c0, dropList, pub)
    {
      hide ClearsOf, Publishes;
      pub := [];
      var i := 0;
      while i < |dropList|
        invariant i <= |dropList| && outbox == old(outbox) + pub
        invariant forall cid :: cid in conns <==> cid in old(conns) && cid !in dropList[..i]
        invariant forall cid :: cid in conns ==> conns[cid] == old(conns)[cid]
        invariant LeavesOf(cfg, node, c0, dropList[..i], pub)
      {
        var cid := dropList[i];
        assert dropList[..i + 1] == dropList[..i] + [cid];
        ghost var before := pub;
        ghost var more := DropConnection(cid);
        pub := before + more;
        LeavesGrow(cfg, node, c0, dropList[..i], cid, before, more);
        i := i + 1;
      }
      assert dropList[..i] == dropList;
    }

    method BroadcastDiffs(diffs: seq<Diff>) returns (ghost pub: seq<BusMsg>)
      modifies this`conns, this`outbox
      ensures conns == AfterDiffs(cfg, old(conns), diffs) && outbox == old(outbox) + pub
      ensures LeavesOfGone(cfg, node, old(conns), conns, pub)
    {
      hide AfterDiff, LeavesOfGone;
      pub := [];
      NobodyGone(cfg, node, conns);
      var i := 0;
      while i < |diffs|
        invariant i <= |diffs|
        invariant conns == AfterDiffs(cfg, old(conns), diffs[..i]) && outbox == old(outbox) + pub
        invariant LeavesOfGone(cfg, node, old(conns), conns, pub)
        invariant forall cid :: cid in conns ==>
                    && cid in old(conns) && conns[cid].tracked == old(conns)[cid].tracked
                    && conns[cid].principal == old(conns)[cid].principal
      {
        ghost var c1, before := conns, pub;
        ghost var more := BroadcastDiff(diffs[i]);
        pub := before + more;
        DiffRemovesOnly(cfg, c1, diffs[i]);
        LeavesCompose(cfg, node, old(conns), c1, conns, before, more);
        assert diffs[..i + 1][..i] == diffs[..i] && diffs[..i + 1][i] == diffs[i];
        i := i + 1;
      }
      assert diffs[..i] == diffs;
    }

    /** Bus fan-in: the presence map takes the message, watchers take the diff. */
    method Deliver(msg: BusMsg, now: int) returns (ghost pub: seq<BusMsg>)
      modifies this`conns, this`outbox, presence
      ensures OpStep(cfg, node, old(State()), DeliverOp(msg, now), State(), pub) && outbox == old(outbox) + pub
    {
      hide LeavesOfGone, AfterBroadcast, AfterDiff;
      pub := [];
      var diffs: seq<Diff> := [];
      match msg {
        case BroadcastMsg(_, _, _, _) => DeliverBroadcast(msg); return;
        case PresenceSet(part, key, from, meta) => diffs := presence.Put(part, key, from, meta, now);
        case PresenceClear(part, key, from) => diffs := presence.Clear(part, key, from);
        case PresenceSnapshot(from, _) => presence.TouchNode(from, now);
      }
      pub := BroadcastDiffs(diffs);
    }

    /** The supervisor's tick: announce what this node owns, refresh it, expire silent nodes, tell their watchers. */
    method PresenceTick(now: int) returns (ghost pub: seq<BusMsg>)
      modifies this`conns, this`outbox, presence
      ensures OpStep(cfg, node, old(State()), TickOp(now), State(), pub) && outbox == old(outbox) + pub
    {
      hide SweepDiffs, Swept, AfterDiffs, LeavesOfGone, ListsOwn;
      var own := presence.LocalEntries(node);
      outbox := outbox + [PresenceSnapshot(node, own)];
      presence.TouchNode(node, now);
      var found := presence.Sweep(now, NODE_TTL_MS);
      ghost var more := BroadcastDiffs(found);
      pub := [PresenceSnapshot(node, own)] + more;
      assert pub[1..] == more;
    }
  }

  lemma NothingOwed(cfg: Config, node: int, conns: Conns, conn: int)
    ensures Owed(cfg, node, conns, conns, conn, [])
  {
  }

  lemma StaysOwesNothing(cfg: Config, node: int, before: Conns, after: Conns, conn: int)
    requires conn in after
    ensures Owed(cfg, node, before, after, conn, [])
  {
  }

  /** What is owed depends on what was tracked only. */
  lemma SameOwed(cfg: Config, node: int, c0: Conns, c1: Conns, after: Conns, conn: int, pub: seq<BusMsg>)
    requires Owed(cfg, node, c1, after, conn, pub) && c0.Keys == c1.Keys
    requires conn in c0 ==> c1[conn].tracked == c0[conn].tracked && c1[conn].principal == c0[conn].principal
    ensures Owed(cfg, node, c0, after, conn, pub)
  {
  }

  lemma DiffRemovesOnly(cfg: Config, conns: Conns, d: Diff)
    ensures forall cid :: cid in AfterDiff(cfg, conns, d) ==>
              && cid in conns && AfterDiff(cfg, conns, d)[cid].tracked == conns[cid].tracked
              && AfterDiff(cfg, conns, d)[cid].principal == conns[cid].principal
  {
  }
}
