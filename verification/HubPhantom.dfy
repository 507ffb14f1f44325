/**
 * A run of one node, from nothing, that ends with a phantom: a member tracks its presence, stops
 * reading, and broadcasts fill its queue until one of them removes it bare.
 */
module HubPhantom {
  import opened Basics
  import opened Text
  import opened Channel
  import opened Presence
  import opened HubSpec
  import opened HubSafety
  import opened HubPresence

  const Lobby := ChannelId.Presence("lobby")
  const Room := ChannelId.Broadcast("room")
  const Cfg := Config([], [("room", ScopeNone)], [("lobby", ScopeNone)])
  const Part := Partition("lobby", None)
  const Noise := BroadcastMsg("room", None, "hi", None)

  function Key(): string { PresenceKey(None, 0) }

  function OneNode(h: HubState, inbox: seq<BusMsg>): System { map[1 := Node(h, inbox)] }

  lemma {:induction false} AppendMove(cfg: Config, s: System, moves: seq<Move>, v: Move)
    requires IsRun(cfg, s, moves) && CanMove(cfg, EndOf(s, moves), v)
    ensures IsRun(cfg, s, moves + [v]) && EndOf(s, moves + [v]) == Moved(EndOf(s, moves), v)
    decreases moves
  {
    hide CanMove, Moved;
    if moves == [] {
      assert moves + [v] == [v] && [v][1..] == [];
    } else {
      AppendMove(cfg, Moved(s, moves[0]), moves[1..], v);
      assert (moves + [v])[0] == moves[0] && (moves + [v])[1..] == moves[1..] + [v];
    }
  }

  /** One more move of the one node. */
  lemma Extend(s: System, moves: seq<Move>, h: HubState, inbox: seq<BusMsg>, op: Op, h': HubState, pub: seq<BusMsg>,
               rest: seq<BusMsg>)
    returns (longer: seq<Move>)
    requires IsRun(Cfg, s, moves) && EndOf(s, moves) == OneNode(h, inbox)
    requires OpStep(Cfg, 1, h, op, h', pub) && (op.DeliverOp? ==> inbox != [] && inbox[0] == op.msg)
    requires rest == (if op.DeliverOp? then inbox[1..] else inbox) + pub
    ensures IsRun(Cfg, s, longer) && EndOf(s, longer) == OneNode(h', rest)
  {
    hide OpStep, IsRun, EndOf;
    var v := Move(1, op, h', pub);
    AppendMove(Cfg, s, moves, v);
    longer := moves + [v];
  }

  /** The member: joined to both channels, tracked, shown, with `k` messages it has not read. */
  ghost predicate Member(h: HubState, k: nat) {
    && h.conns.Keys == {0} && h.nextConn == 1
    && h.conns[0] == Subscriber(None, h.conns[0].queue, true, {Lobby, Room}, {(Lobby, Key())})
    && |h.conns[0].queue| == k
    && Lookup(h.presence.entries, Part, Key()) == Some(Entry(1, "on"))
  }

  lemma Scopes()
    ensures ScopeOf(Cfg.presence, "lobby") == Some(ScopeNone) && ScopeOf(Cfg.broadcast, "room") == Some(ScopeNone)
  {
  }

  /** Joining a channel open to all. */
  lemma Joins(h: HubState, c: int, id: ChannelId)
    requires c in h.conns && h.conns[c].open && |h.conns[c].queue| <= 10
    requires id == Lobby || id == Room
    ensures var h' := h.(conns := AfterJoin(Cfg, h.presence, h.conns, c, ChannelText(id), false));
            && OpStep(Cfg, 1, h, JoinOp(c, ChannelText(id), false), h', [])
            && c in h'.conns
            && h'.conns == h.conns[c := h.conns[c].(queue := h'.conns[c].queue, channels := h.conns[c].channels + {id})]
            && |h'.conns[c].queue| == |h.conns[c].queue| + (if id == Lobby then 2 else 1)
  {
    hide ParseChannel, ScopeOf;
    ChannelRoundTrip(id);
    Scopes();
    assert MayJoin(Cfg, id, h.conns[c].principal).Ok?;
  }

  /** The member comes in and is shown. */
  lemma MemberArrives() returns (moves: seq<Move>, h: HubState)
    ensures IsRun(Cfg, OneNode(NewHub, []), moves) && EndOf(OneNode(NewHub, []), moves) == OneNode(h, [])
    ensures Member(h, 4)
  {
    hide OpStep, IsRun, EndOf, ParseChannel, AfterJoin, OneNode;
    var s := OneNode(NewHub, []);
    assert IsRun(Cfg, s, []) && EndOf(s, []) == s by { EmptyRun(s); }
    var h1 := HubState(map[0 := NewSubscriber(None)], NoPresence, 1);
    assert OpStep(Cfg, 1, NewHub, ConnectOp(None), h1, []) by { Connects(); }
    moves := Extend(s, [], NewHub, [], ConnectOp(None), h1, [], []);
    Joins(h1, 0, Lobby);
    var h2 := h1.(conns := AfterJoin(Cfg, h1.presence, h1.conns, 0, ChannelText(Lobby), false));
    moves := Extend(s, moves, h1, [], JoinOp(0, ChannelText(Lobby), false), h2, [], []);
    Joins(h2, 0, Room);
    var h3 := h2.(conns := AfterJoin(Cfg, h2.presence, h2.conns, 0, ChannelText(Room), false));
    moves := Extend(s, moves, h2, [], JoinOp(0, ChannelText(Room), false), h3, [], []);
    var hello := PresenceSet(Part, Key(), 1, "on");
    var h4 := Announces(h3, 0, Key());
    moves := Extend(s, moves, h3, [], TrackOp(0, ChannelText(Lobby), "on"), h4, [hello], [hello]);
    h := IsShown(h4);
    moves := Extend(s, moves, h4, [hello], DeliverOp(hello, 0), h, [], []);
  }

  lemma EmptyRun(s: System)
    ensures IsRun(Cfg, s, []) && EndOf(s, []) == s
  {
  }

  lemma Connects()
    ensures OpStep(Cfg, 1, NewHub, ConnectOp(None), HubState(map[0 := NewSubscriber(None)], NoPresence, 1), [])
  {
  }

  /** Tracking on the joined lobby. */
  lemma Announces(h: HubState, c: nat, key: string) returns (h': HubState)
    requires c in h.conns && Lobby in h.conns[c].channels && key == PresenceKey(h.conns[c].principal, c)
    ensures OpStep(Cfg, 1, h, TrackOp(c, ChannelText(Lobby), "on"), h', [PresenceSet(Part, key, 1, "on")])
    ensures h' == h.(conns := h.conns[c := Tracking(h.conns[c], (Lobby, key))])
  {
    hide ParseChannel, ScopeOf;
    ChannelRoundTrip(Lobby);
    Scopes();
    h' := h.(conns := h.conns[c := Tracking(h.conns[c], (Lobby, key))]);
  }

  lemma IsShown(h: HubState) returns (h': HubState)
    requires h.conns.Keys == {0} && h.nextConn == 1 && h.presence == NoPresence
    requires h.conns[0] == Subscriber(None, h.conns[0].queue, true, {Lobby, Room}, {(Lobby, Key())})
    requires |h.conns[0].queue| == 3
    ensures OpStep(Cfg, 1, h, DeliverOp(PresenceSet(Part, Key(), 1, "on"), 0), h', []) && Member(h', 4)
  {
    hide ScopeOf, Key, LeavesOfGone;
    Scopes();
    var (shown, diffs) := SetEntry(h.presence, Part, Key(), 1, "on", 0);
    SetLookup(h.presence, Part, Key(), 1, "on", 0);
    var sub := h.conns[0];
    assert Watches(Cfg, sub, Part) && HasRoom(sub);
    var after := AfterDiff(Cfg, h.conns, diffs[0]);
    assert diffs[..0] == [] && AfterDiffs(Cfg, h.conns, diffs) == after;
    assert after.Keys == {0} && after[0] == Sent(sub, DiffMsg(diffs[0]));
    assert LeavesOfGone(Cfg, 1, h.conns, after, []) by { NobodyLeft(h.conns, after); }
    h' := HubState(after, shown, 1);
  }

  lemma NobodyLeft(before: Conns, after: Conns)
    requires before.Keys == after.Keys
    ensures LeavesOfGone(Cfg, 1, before, after, [])
  {
  }

  /** One broadcast, published and delivered: one more unread message, or the member is gone. */
  lemma OneMore(s: System, moves: seq<Move>, h: HubState, k: nat) returns (longer: seq<Move>, h': HubState)
    requires IsRun(Cfg, s, moves) && EndOf(s, moves) == OneNode(h, []) && Member(h, k) && k <= CONN_QUEUE
    ensures IsRun(Cfg, s, longer) && EndOf(s, longer) == OneNode(h', [])
    ensures if k < CONN_QUEUE then Member(h', k + 1) else h' == h.(conns := map[])
  {
    hide IsRun, EndOf, ScopeOf, Key, OneNode, Lookup;
    Scopes();
    longer := Extend(s, moves, h, [], ServerPublishOp("room", "hi"), h, [Noise], [Noise]);
    var sub := h.conns[0];
    assert Receives(1, 0, sub, Noise) && (HasRoom(sub) <==> k < CONN_QUEUE);
    var after := AfterBroadcast(1, h.conns, Noise);
    assert k < CONN_QUEUE ==> after.Keys == {0} && after[0] == Sent(sub, EventMsg("room", "hi", None));
    assert k == CONN_QUEUE ==> after == map[] by {
      assert k == CONN_QUEUE ==> forall cid :: cid !in after;
    }
    h' := h.(conns := after);
    longer := Extend(s, longer, h, [Noise], DeliverOp(Noise, 0), h', [], []);
  }

  lemma {:induction false} Fill(s: System, moves: seq<Move>, h: HubState, k: nat)
    returns (longer: seq<Move>, h': HubState)
    requires IsRun(Cfg, s, moves) && EndOf(s, moves) == OneNode(h, []) && Member(h, k) && k <= CONN_QUEUE
    ensures IsRun(Cfg, s, longer) && EndOf(s, longer) == OneNode(h', []) && Member(h', CONN_QUEUE)
    decreases CONN_QUEUE - k
  {
    hide IsRun, EndOf, OneNode, Member;
    longer, h' := moves, h;
    if k < CONN_QUEUE {
      longer, h' := OneMore(s, moves, h, k);
      longer, h' := Fill(s, longer, h', k + 1);
    }
  }

  /** The phantom is reached: one member, one slow queue, no teardown, and its presence stays on display. */
  lemma PhantomIsReached() returns (s: System, moves: seq<Move>)
    ensures FreshSystem(s) && IsRun(Cfg, s, moves) && !NoPhantom(Cfg, EndOf(s, moves))
  {
    hide IsRun, EndOf, Key, Lookup;
    s := OneNode(NewHub, []);
    var h: HubState;
    moves, h := MemberArrives();
    moves, h := Fill(s, moves, h, 4);
    ghost var shown := h.presence;
    moves, h := OneMore(s, moves, h, CONN_QUEUE);
    var end := EndOf(s, moves);
    assert end[1].inbox == [] && Eventually(end, 1, Part, Key()) == Some(Entry(1, "on"));
    assert !Tracked(Cfg, end[1].hub.conns, Part, Key());
  }
}
