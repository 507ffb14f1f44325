/** A run, from nothing, in which one user's second connection is tracked and yet not shown. */
module HubSharedKey {
  import opened Basics
  import opened Text
  import opened Channel
  import opened Presence
  import opened HubSpec
  import opened HubSafety
  import opened HubPresence
  import opened HubShown
  import opened HubPhantom

  const Me: Option<Principal> := Some(Principal("me", None, None))

  const Hello := PresenceSet(Part, "me", 1, "on")

  lemma ConnectsMe(h: HubState)
    ensures var h' := h.(conns := h.conns[h.nextConn := NewSubscriber(Me)], nextConn := h.nextConn + 1);
            OpStep(Cfg, 1, h, ConnectOp(Me), h', [])
  {
  }

  /** Both connections of the user join and track; both announcements are on their way. */
  lemma BothTracked() returns (moves: seq<Move>, h: HubState)
    ensures IsRun(Cfg, OneNode(NewHub, []), moves) && EndOf(OneNode(NewHub, []), moves) == OneNode(h, [Hello, Hello])
    ensures h.conns.Keys == {0, 1} && h.presence == NoPresence
    ensures forall c :: c in h.conns ==> h.conns[c].principal == Me && h.conns[c].tracked == {(Lobby, "me")}
  {
    hide OpStep, IsRun, EndOf, ParseChannel, AfterJoin, OneNode;
    var s := OneNode(NewHub, []);
    assert IsRun(Cfg, s, []) && EndOf(s, []) == s by { EmptyRun(s); }
    var h1 := HubState(map[0 := NewSubscriber(Me)], NoPresence, 1);
    ConnectsMe(NewHub);
    moves := Extend(s, [], NewHub, [], ConnectOp(Me), h1, [], []);
    var h2 := HubState(map[0 := NewSubscriber(Me), 1 := NewSubscriber(Me)], NoPresence, 2);
    ConnectsMe(h1);
    moves := Extend(s, moves, h1, [], ConnectOp(Me), h2, [], []);
    Joins(h2, 0, Lobby);
    var h3 := h2.(conns := AfterJoin(Cfg, h2.presence, h2.conns, 0, ChannelText(Lobby), false));
    moves := Extend(s, moves, h2, [], JoinOp(0, ChannelText(Lobby), false), h3, [], []);
    Joins(h3, 1, Lobby);
    var h4 := h3.(conns := AfterJoin(Cfg, h3.presence, h3.conns, 1, ChannelText(Lobby), false));
    moves := Extend(s, moves, h3, [], JoinOp(1, ChannelText(Lobby), false), h4, [], []);
    var h5 := Announces(h4, 0, "me");
    moves := Extend(s, moves, h4, [], TrackOp(0, ChannelText(Lobby), "on"), h5, [Hello], [Hello]);
    h := Announces(h5, 1, "me");
    moves := Extend(s, moves, h5, [Hello], TrackOp(1, ChannelText(Lobby), "on"), h, [Hello], [Hello, Hello]);
  }

  /** The first connection leaves: its clear takes the user off the display, though the second still tracks. */
  lemma FirstToLeaveTakesOff() returns (s: System, moves: seq<Move>)
    ensures FreshSystem(s) && IsRun(Cfg, s, moves) && !AllShown(Cfg, EndOf(s, moves))
  {
    hide IsRun, EndOf;
    s := OneNode(NewHub, []);
    var h: HubState;
    moves, h := BothTracked();
    var bye := PresenceClear(Part, "me", 1);
    var left := h.(conns := h.conns - {0});
    Leaves(h, left, bye);
    moves := Extend(s, moves, h, [Hello, Hello], DisconnectOp(0), left, [bye], [Hello, Hello, bye]);
    var end := EndOf(s, moves);
    NotShown(end, bye);
    Scopes();
    assert Tracks(Cfg, end[1].hub.conns[1], Part, "me");
    assert Tracked(Cfg, end[1].hub.conns, Part, "me");
    assert TrackedSomewhere(Cfg, end, Part, "me");
  }

  lemma Leaves(h: HubState, left: HubState, bye: BusMsg)
    requires 0 in h.conns && h.conns[0].principal == Me && h.conns[0].tracked == {(Lobby, "me")}
    requires bye == PresenceClear(Part, "me", 1) && left == h.(conns := h.conns - {0})
    ensures OpStep(Cfg, 1, h, DisconnectOp(0), left, [bye])
  {
    hide ScopeOf;
    Scopes();
    assert ClearFor(Cfg, 1, Me, (Lobby, "me")) == bye;
    var clears := ClearsOf(Cfg, 1, Me, {(Lobby, "me")});
    assert forall m :: m in clears <==> m == bye;
  }

  lemma NotShown(end: System, bye: BusMsg)
    requires 1 in end && end[1].inbox == [Hello, Hello, bye] && end[1].hub.presence == NoPresence
    requires bye == PresenceClear(Part, "me", 1)
    ensures Eventually(end, 1, Part, "me").None?
  {
    var me := Some(Entry(1, "on"));
    var inbox := end[1].inbox;
    assert inbox[1..] == [Hello, bye] && inbox[1..][1..] == [bye] && [bye][1..] == [];
    assert Settled(me, [bye], Part, "me") == None;
    assert Settled(me, [Hello, bye], Part, "me") == None;
  }
}
