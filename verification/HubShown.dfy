/**
 * The other direction: is everyone who is tracked shown? Not in this hub, because connections of
 * one user share a presence key and the first one to leave clears it. Exactly when it is.
 */
module HubShown {
  import opened Basics
  import opened Text
  import opened Channel
  import opened Presence
  import opened HubSpec
  import opened HubSafety
  import opened HubPresence
  import opened HubDrops

  /** Some live connection of some node tracks the key. */
  ghost predicate TrackedSomewhere(cfg: Config, s: System, part: Partition, key: string) {
    exists n :: n in s && Tracked(cfg, s[n].hub.conns, part, key)
  }

  /** Whatever is tracked anywhere will be shown everywhere. */
  ghost predicate AllShown(cfg: Config, s: System) {
    forall m, part, key :: m in s && TrackedSomewhere(cfg, s, part, key) ==> Eventually(s, m, part, key).Some?
  }

  // ---------- the condition, before the operation ----------

  /** At this tick the node forgets the key: its owner has been silent past the TTL, and no set of it is in flight. */
  ghost predicate Silenced(s: System, n: int, op: Op, part: Partition, key: string)
    requires n in s
  {
    && op.TickOp? && Lookup(s[n].hub.presence.entries, part, key).Some?
    && IsDead(Touch(s[n].hub.presence, n, op.now), Lookup(s[n].hub.presence.entries, part, key).value.node,
              op.now, NODE_TTL_MS)
    && Settled(None, s[n].inbox, part, key).None?
  }

  /**
   * Node `n` may do `op` without taking anyone off a display: no key that it clears and that some
   * node shows as its own, and none that it forgets for silence, is tracked by a connection that
   * stays. Read off the state before the operation.
   */
  ghost predicate Spares(cfg: Config, s: System, n: int, op: Op)
    requires n in s
  {
    forall part, key ::
      (Clears(cfg, n, s[n].hub, op, part, key) && ShownAs(s, n, part, key)) || Silenced(s, n, op, part, key) ==>
        !StaysTracked(cfg, s, n, op, part, key)
  }

  // ---------- what a move takes off ----------

  /** The move takes the key off node `m`'s display: expired there, or cleared by its owner, and not set again. */
  ghost predicate TakesOff(s: System, v: Move, m: int, part: Partition, key: string)
    requires m in s
  {
    var e := Upcoming(s, v, m, part, key);
    !SetIn(v.pub, part, key) && (e.None? || (e.value.node == v.node && PresenceClear(part, key, v.node) in v.pub))
  }

  /** A set that is published alone is shown. */
  lemma {:induction false} SetStays(e: Option<Entry>, pub: seq<BusMsg>, part: Partition, key: string)
    requires |pub| == 1 && SetIn(pub, part, key)
    ensures Settled(e, pub, part, key).Some?
  {
    assert pub[1..] == [];
  }

  /** Only tracking sets, and it publishes nothing else. */
  lemma SetsAlone(cfg: Config, n: int, a: HubState, op: Op, b: HubState, pub: seq<BusMsg>, part: Partition, key: string)
    requires OpStep(cfg, n, a, op, b, pub)
    ensures SetIn(pub, part, key) ==> |pub| == 1
  {
    hide Owed, LeavesOfGone, SweepDiffs, ListsOwn, Delivered, DeliveryDiffs, ParseChannel, Swept, AfterJoin, AfterLeave,
         AfterPublish, AfterSend, AfterReceive, AfterBroadcast, AfterDiffs, ItemFor, AfterTrack, BroadcastFor;
    if Quiet(a, op) && !(op.DeliverOp? && op.msg.BroadcastMsg?) {
      var leaves := QuietLeaves(cfg, n, a, op, b, pub);
      assert !SetIn(pub, part, key);
    }
  }

  /** A node speaks for its own presence only. */
  lemma SpeaksForItself(cfg: Config, n: int, a: HubState, op: Op, b: HubState, pub: seq<BusMsg>)
    requires OpStep(cfg, n, a, op, b, pub) && IdsFresh(a)
    ensures OwnPresence(pub, n)
  {
    hide Owed, LeavesOfGone, SweepDiffs, ListsOwn, Delivered, DeliveryDiffs, ParseChannel, Swept, AfterJoin, AfterLeave,
         AfterPublish, AfterSend, AfterReceive, AfterBroadcast, AfterDiffs, BroadcastFor, ItemFor, AfterTrack;
    if !(op.DeliverOp? && op.msg.BroadcastMsg?) { OpAccounts(cfg, n, a, op, b, pub); }
  }

  /** What is gone after a move is exactly what the move took off. */
  lemma GoneIsTakenOff(cfg: Config, s: System, v: Move, m: int, part: Partition, key: string)
    requires CanMove(cfg, s, v) && SystemFresh(s) && m in s
    ensures Eventually(Moved(s, v), m, part, key).None? <==> TakesOff(s, v, m, part, key)
  {
    hide OpStep, Eventually, Upcoming, Moved;
    EventuallyExactly(cfg, s, v, m, part, key);
    SpeaksForItself(cfg, v.node, s[v.node].hub, v.op, v.after, v.pub);
    var e := Upcoming(s, v, m, part, key);
    if SetIn(v.pub, part, key) {
      SetsAlone(cfg, v.node, s[v.node].hub, v.op, v.after, v.pub, part, key);
      SetStays(e, v.pub, part, key);
    } else {
      SettledByClears(e, v.pub, part, key, v.node);
    }
  }

  /** What a node will show after its own expiry: the same as before, and nothing exactly where it forgets. */
  lemma UpcomingExactly(s: System, v: Move, m: int, part: Partition, key: string)
    requires m in s && v.node in s && Eventually(s, m, part, key).Some?
    ensures Upcoming(s, v, m, part, key) ==
            if m == v.node && Silenced(s, m, v.op, part, key) then None else Eventually(s, m, part, key)
  {
    hide Lookup, Swept, IsDead, Settled;
    if Sweeps(v, m) {
      var p, now := s[m].hub.presence, v.op.now;
      SweepLookup(Touch(p, m, now), now, NODE_TTL_MS);
      TouchKeepsEntries(p, m, now);
      SettledFromNone(Lookup(p.entries, part, key), s[m].inbox, part, key);
    }
  }

  /** Who tracks the key after a move that does not set it. */
  lemma TrackedAfter(cfg: Config, s: System, v: Move, part: Partition, key: string)
    requires CanMove(cfg, s, v) && SystemFresh(s) && !SetIn(v.pub, part, key)
    ensures TrackedSomewhere(cfg, Moved(s, v), part, key) <==> StaysTracked(cfg, s, v.node, v.op, part, key)
  {
    hide OpStep, Tracks, KeepsTracking;
    var s', n := Moved(s, v), v.node;
    WhoTracks(cfg, n, s[n].hub, v.op, v.after, v.pub, part, key);
    if TrackedSomewhere(cfg, s', part, key) {
      var m :| m in s' && Tracked(cfg, s'[m].hub.conns, part, key);
      if m == n {
        var cid :| KeepsTracking(cfg, n, s[n].hub, v.op, part, key, cid);
        KeepsMeansTracks(cfg, n, s[n].hub, v.op, part, key, cid);
        assert StaysAt(cfg, s, n, v.op, part, key, n, cid);
      } else {
        var cid :| cid in s[m].hub.conns && Tracks(cfg, s[m].hub.conns[cid], part, key);
        assert StaysAt(cfg, s, n, v.op, part, key, m, cid);
      }
    }
    if StaysTracked(cfg, s, n, v.op, part, key) {
      var m, cid :| StaysAt(cfg, s, n, v.op, part, key, m, cid);
      assert m in s' && Tracked(cfg, s'[m].hub.conns, part, key);
    }
  }

  lemma KeepsMeansTracks(cfg: Config, n: int, a: HubState, op: Op, part: Partition, key: string, cid: int)
    requires KeepsTracking(cfg, n, a, op, part, key, cid)
    ensures cid in a.conns && Tracks(cfg, a.conns[cid], part, key)
  {
  }

  lemma StaysWasTracked(cfg: Config, s: System, n: int, op: Op, part: Partition, key: string)
    requires StaysTracked(cfg, s, n, op, part, key)
    ensures TrackedSomewhere(cfg, s, part, key)
  {
    hide Tracks, KeepsTracking;
    var m, cid :| StaysAt(cfg, s, n, op, part, key, m, cid);
    assert Tracked(cfg, s[m].hub.conns, part, key);
  }

  // ---------- one move, exactly ----------

  /** A key that stays tracked is off some display after the move exactly if the condition names it. */
  lemma OffSomewhere(cfg: Config, s: System, v: Move, part: Partition, key: string)
    requires CanMove(cfg, s, v) && SystemFresh(s) && AllShown(cfg, s)
    requires StaysTracked(cfg, s, v.node, v.op, part, key)
    ensures (exists m :: m in s && TakesOff(s, v, m, part, key)) <==>
            !SetIn(v.pub, part, key)
            && ((Clears(cfg, v.node, s[v.node].hub, v.op, part, key) && ShownAs(s, v.node, part, key))
                || Silenced(s, v.node, v.op, part, key))
  {
    hide OpStep, Eventually, Upcoming, Clears, Silenced, StaysTracked, TrackedSomewhere;
    var n := v.node;
    StaysWasTracked(cfg, s, n, v.op, part, key);
    ClearsExactly(cfg, n, s[n].hub, v.op, v.after, v.pub, part, key);
    forall m | m in s
      ensures TakesOff(s, v, m, part, key) <==>
              !SetIn(v.pub, part, key)
              && ((m == n && Silenced(s, n, v.op, part, key))
                  || (Eventually(s, m, part, key).value.node == n && Clears(cfg, n, s[n].hub, v.op, part, key)))
    {
      UpcomingExactly(s, v, m, part, key);
    }
  }

  /**
   * One move, exactly: with everyone who is tracked shown before, everyone who is tracked is shown
   * after if and only if the operation spares them.
   */
  lemma ShownIsExact(cfg: Config, s: System, v: Move)
    requires CanMove(cfg, s, v) && SystemFresh(s) && AllShown(cfg, s)
    ensures AllShown(cfg, Moved(s, v)) <==> Spares(cfg, s, v.node, v.op)
  {
    hide OpStep, Eventually, TakesOff, TrackedSomewhere, Clears, Silenced, StaysTracked, ShownAs, SetIn;
    var s', n := Moved(s, v), v.node;
    forall m, part, key | m in s ensures Eventually(s', m, part, key).None? <==> TakesOff(s, v, m, part, key) {
      GoneIsTakenOff(cfg, s, v, m, part, key);
    }
    if Spares(cfg, s, n, v.op) {
      forall m, part, key | m in s' && TrackedSomewhere(cfg, s', part, key) ensures Eventually(s', m, part, key).Some? {
        if !SetIn(v.pub, part, key) {
          TrackedAfter(cfg, s, v, part, key);
          OffSomewhere(cfg, s, v, part, key);
        } else {
          NotTakenOff(s, v, m, part, key);
        }
      }
    }
    if AllShown(cfg, s') {
      forall part, key
        | (Clears(cfg, n, s[n].hub, v.op, part, key) && ShownAs(s, n, part, key)) || Silenced(s, n, v.op, part, key)
        ensures !StaysTracked(cfg, s, n, v.op, part, key)
      {
        NotSet(cfg, s, v, part, key);
        TrackedAfter(cfg, s, v, part, key);
        if StaysTracked(cfg, s, n, v.op, part, key) { OffSomewhere(cfg, s, v, part, key); }
      }
    }
  }

  lemma NotTakenOff(s: System, v: Move, m: int, part: Partition, key: string)
    requires m in s && SetIn(v.pub, part, key)
    ensures !TakesOff(s, v, m, part, key)
  {
  }

  /** A key that is cleared or forgotten is not set in the same move. */
  lemma NotSet(cfg: Config, s: System, v: Move, part: Partition, key: string)
    requires CanMove(cfg, s, v)
    requires Clears(cfg, v.node, s[v.node].hub, v.op, part, key) || Silenced(s, v.node, v.op, part, key)
    ensures !SetIn(v.pub, part, key)
  {
    hide OpStep, Clears;
    ClearsExactly(cfg, v.node, s[v.node].hub, v.op, v.after, v.pub, part, key);
    if v.op.TickOp? { TickSetsNothing(cfg, v.node, s[v.node].hub, v.op, v.after, v.pub, part, key); }
  }

  lemma TickSetsNothing(cfg: Config, n: int, a: HubState, op: Op, b: HubState, pub: seq<BusMsg>, part: Partition,
                        key: string)
    requires OpStep(cfg, n, a, op, b, pub) && op.TickOp?
    ensures !SetIn(pub, part, key)
  {
    hide OpStep;
    var leaves := QuietLeaves(cfg, n, a, op, b, pub);
  }

  // ---------- teardown ----------

  /** A live connection other than `c` of node `n` tracks the key. */
  ghost predicate TrackedElsewhere(cfg: Config, s: System, n: int, c: int, part: Partition, key: string) {
    exists m, cid ::
      m in s && cid in s[m].hub.conns && (m, cid) != (n, c) && Tracks(cfg, s[m].hub.conns[cid], part, key)
  }

  /**
   * A disconnect, exactly: with everyone shown before, everyone is shown after if and only if no
   * key that the connection tracks, and that some node shows as its node's, is tracked by another
   * live connection, here or on any node.
   */
  lemma TeardownIsExact(cfg: Config, s: System, v: Move)
    requires CanMove(cfg, s, v) && SystemFresh(s) && AllShown(cfg, s)
    requires v.op.DisconnectOp? && v.op.conn in s[v.node].hub.conns
    ensures AllShown(cfg, Moved(s, v)) <==>
            forall part, key ::
              Tracks(cfg, s[v.node].hub.conns[v.op.conn], part, key) && ShownAs(s, v.node, part, key) ==>
              !TrackedElsewhere(cfg, s, v.node, v.op.conn, part, key)
  {
    hide OpStep, AllShown, ShownAs, Tracks;
    ShownIsExact(cfg, s, v);
    var n, c := v.node, v.op.conn;
    forall part, key
      ensures Clears(cfg, n, s[n].hub, v.op, part, key) <==> Tracks(cfg, s[n].hub.conns[c], part, key)
      ensures StaysTracked(cfg, s, n, v.op, part, key) <==> TrackedElsewhere(cfg, s, n, c, part, key)
    {
      TeardownClears(cfg, s[n].hub, n, v.op, part, key);
      TeardownStays(cfg, s, n, v.op, part, key);
    }
  }

  lemma TeardownClears(cfg: Config, a: HubState, n: int, op: Op, part: Partition, key: string)
    requires op.DisconnectOp? && op.conn in a.conns
    ensures Clears(cfg, n, a, op, part, key) <==> Tracks(cfg, a.conns[op.conn], part, key)
  {
    hide Tracks;
    assert Goes(cfg, n, a, op, op.conn);
  }

  lemma TeardownStays(cfg: Config, s: System, n: int, op: Op, part: Partition, key: string)
    requires op.DisconnectOp? && n in s
    ensures StaysTracked(cfg, s, n, op, part, key) <==> TrackedElsewhere(cfg, s, n, op.conn, part, key)
  {
    hide Tracks;
    forall cid | cid in s[n].hub.conns
      ensures KeepsTracking(cfg, n, s[n].hub, op, part, key, cid) <==>
              Tracks(cfg, s[n].hub.conns[cid], part, key) && cid != op.conn
    {
    }
    if StaysTracked(cfg, s, n, op, part, key) {
      var m, cid :| StaysAt(cfg, s, n, op, part, key, m, cid);
      assert (m, cid) != (n, op.conn);
    }
    if TrackedElsewhere(cfg, s, n, op.conn, part, key) {
      var m, cid :| m in s && cid in s[m].hub.conns && (m, cid) != (n, op.conn)
                    && Tracks(cfg, s[m].hub.conns[cid], part, key);
      assert StaysAt(cfg, s, n, op, part, key, m, cid);
    }
  }

  // ---------- whole runs ----------

  ghost predicate AlwaysShown(cfg: Config, s: System, moves: seq<Move>)
    decreases moves
  {
    AllShown(cfg, s) && (moves == [] || AlwaysShown(cfg, Moved(s, moves[0]), moves[1..]))
  }

  /** Every operation of the run spares everyone, judged where it begins. */
  ghost predicate AllSpare(cfg: Config, s: System, moves: seq<Move>)
    requires IsRun(cfg, s, moves)
    decreases moves
  {
    moves == [] || (Spares(cfg, s, moves[0].node, moves[0].op) && AllSpare(cfg, Moved(s, moves[0]), moves[1..]))
  }

  lemma {:induction false} ShownExactly(cfg: Config, s: System, moves: seq<Move>)
    requires AllShown(cfg, s) && SystemFresh(s) && IsRun(cfg, s, moves)
    ensures AlwaysShown(cfg, s, moves) <==> AllSpare(cfg, s, moves)
    decreases moves
  {
    hide AllShown, SystemFresh, CanMove, Moved, Spares;
    if moves != [] {
      var s' := Moved(s, moves[0]);
      ShownIsExact(cfg, s, moves[0]);
      MoveKeepsFresh(cfg, s, moves[0]);
      if AllShown(cfg, s') { ShownExactly(cfg, s', moves[1..]); }
    }
  }

  lemma MoveKeepsFresh(cfg: Config, s: System, v: Move)
    requires CanMove(cfg, s, v) && SystemFresh(s)
    ensures SystemFresh(Moved(s, v)) && v.node in s
  {
    hide OpStep;
    StepKeepsIds(cfg, v.node, s[v.node].hub, v.op, v.after, v.pub);
  }

  /**
   * From nothing, over every run of every operation on any number of nodes: whatever is tracked is
   * always shown if and only if each operation, where it begins, spares everyone.
   */
  lemma ShownExactlyFromFresh(cfg: Config, s: System, moves: seq<Move>)
    requires FreshSystem(s) && IsRun(cfg, s, moves)
    ensures AlwaysShown(cfg, s, moves) <==> AllSpare(cfg, s, moves)
  {
    hide IsRun, AlwaysShown, AllSpare;
    forall m, part, key | m in s ensures !TrackedSomewhere(cfg, s, part, key) {
      forall n | n in s ensures !Tracked(cfg, s[n].hub.conns, part, key) {}
    }
    ShownExactly(cfg, s, moves);
  }
}
