/**
 What every transition of the preconnect pool keeps, whatever the server and the network do: `pending`
 counts the unsettled sockets, pool and pending together never exceed the target, there is at most one
 refill timeout and none while suspended, and each socket's timers match where it stands.
 */
module PoolAccounting {
  import opened Options
  import opened PreconnectPool

  function Unsettled(conns: seq<Conn>): (r: set<nat>)
    ensures forall k: nat :: k in r <==> k < |conns| && !conns[k].settled
  {
    set k: nat | k < |conns| && !conns[k].settled
  }

  /** Rejected after its chunk began and not yet closed: the only kind of socket a PRE:OK can still pool. */
  predicate Limbo(c: Conn, pooled: bool) {
    c.settled && !pooled && !c.closed && !c.detached
  }

  /** The numbers of the intervals the event loop runs for a socket. */
  ghost predicate BeatsMatch(c: Conn) {
    && (c.heartbeat.Some? ==> c.beatsStarted > 0 && c.heartbeat.value == c.beatsStarted - 1)
    && (forall k: nat :: k in c.beats <==>
          k < (if c.heartbeat.Some? || c.beatsStarted == 0 then c.beatsStarted else c.beatsStarted - 1))
  }

  ghost predicate ConnOk(c: Conn, pooled: bool) {
    && BeatsMatch(c)
    && (pooled ==> c.settled && c.connected && !c.closed && !c.detached)
    && (pooled <==> c.heartbeat.Some?)
    && (Limbo(c, pooled) ==> c.destroyed)
    && (c.beatsStarted > 0 && !c.closed && !c.detached ==> pooled)
    && (c.closed ==> c.settled && c.destroyed && !c.connectDeadline.Armed? && !c.ackDeadline.Armed?)
    && (c.connected ==> !c.connectDeadline.Armed?)
    && (!c.connected ==> c.beatsStarted == 0 && c.ackDeadline.Off? && !c.detached)
    && (c.beatsStarted == 0 ==> c.pongDeadline.Off?)
    && (c.beatsStarted <= 1 && c.pongDeadline.Armed? ==> pooled)
    && (c.settled && !c.closed ==> c.connected && !c.ackDeadline.Armed?)
    && (c.connected && !c.settled && !c.destroyed ==> c.ackDeadline.Armed?)
  }

  predicate TimersOk(s: State) {
    && (s.refillTimer.Some? ==> s.refillTimer.value < s.timersStarted)
    && s.timers.Keys == (if s.refillTimer.Some? then {s.refillTimer.value} else {})
    && (s.suspended ==> s.refillTimer.None?)
  }

  ghost predicate Inv(s: State) {
    && (forall k :: k in s.pool ==> k < |s.conns|)
    && (forall k {:trigger s.conns[k]} :: 0 <= k < |s.conns| ==> ConnOk(s.conns[k], k in s.pool))
    && s.pending == |Unsettled(s.conns)|
    && |s.pool| + s.pending <= TARGET_POOL_COUNT
    && TimersOk(s)
    && (!s.started ==> s.conns == [] && s.refillTimer.None? && !s.suspended)
  }

  /** Room is kept for a socket whose PRE:ERR may still be followed by a PRE:OK in the same chunk. */
  ghost predicate InvInChunk(s: State, i: nat) {
    && Inv(s)
    && i < |s.conns| && s.conns[i].connected && !s.conns[i].closed
    && (Limbo(s.conns[i], i in s.pool) ==> |s.pool| + s.pending < TARGET_POOL_COUNT)
  }

  // ---- counting ----------------------------------------------------------------------------------

  lemma UnsettledUpdate(conns: seq<Conn>, i: nat, c: Conn)
    requires i < |conns|
    ensures c.settled == conns[i].settled ==> Unsettled(conns[i := c]) == Unsettled(conns)
    ensures c.settled && !conns[i].settled ==> |Unsettled(conns[i := c])| == |Unsettled(conns)| - 1
  {
    if c.settled == conns[i].settled {
      assert Unsettled(conns[i := c]) == Unsettled(conns);
    } else if c.settled {
      assert Unsettled(conns[i := c]) == Unsettled(conns) - {i};
    }
  }

  lemma UnsettledAppend(conns: seq<Conn>, c: Conn)
    requires !c.settled
    ensures |Unsettled(conns + [c])| == |Unsettled(conns)| + 1
  {
    var all := conns + [c];
    forall k: nat ensures k in Unsettled(all) <==> k in Unsettled(conns) + {|conns|} {
      if k < |conns| { assert all[k] == conns[k]; }
    }
    assert Unsettled(all) == Unsettled(conns) + {|conns|};
  }

  lemma PendingIsPositive(s: State, i: nat)
    requires Inv(s) && i < |s.conns| && !s.conns[i].settled
    ensures s.pending >= 1
  {
    assert {i} <= Unsettled(s.conns);
    assert |Unsettled(s.conns)| == |{i}| + |Unsettled(s.conns) - {i}|;
  }

  // ---- filling -----------------------------------------------------------------------------------

  lemma PreconnectedKeepsInv(s: State)
    requires Inv(s) && s.started && |s.pool| + s.pending < TARGET_POOL_COUNT
    ensures Inv(Preconnected(s))
  {
    UnsettledAppend(s.conns, NewConn(s.now));
  }

  lemma {:induction false} FilledKeepsInv(s: State, limit: nat)
    requires Inv(s) && s.started && limit <= TARGET_POOL_COUNT
    ensures Inv(Filled(s, limit))
    decreases limit - |s.pool| - s.pending
  {
    if |s.pool| + s.pending < limit {
      PreconnectedKeepsInv(s);
      FilledKeepsInv(Preconnected(s), limit);
    }
  }

  lemma FormedKeepsInv(s: State)
    requires Inv(s) && s.started
    ensures Inv(Formed(s))
  {
    if !s.suspended {
      FilledKeepsInv(s, Limit(s.pool));
    }
  }

  lemma RefillScheduledKeepsInv(s: State, random: real)
    requires Inv(s) && s.started
    ensures Inv(RefillScheduled(s, random))
  {
  }

  // ---- frames ------------------------------------------------------------------------------------

  /** Only socket `i` changed, and the counters followed it. */
  lemma MovedKeepsInv(s: State, t: State, i: nat, c: Conn)
    requires Inv(s) && i < |s.conns| && t.conns == s.conns[i := c]
    requires forall k :: k != i ==> (k in t.pool <==> k in s.pool)
    requires ConnOk(c, i in t.pool) && (s.conns[i].settled ==> c.settled)
    requires t.pending == if c.settled && !s.conns[i].settled then s.pending - 1 else s.pending
    requires |t.pool| + t.pending <= TARGET_POOL_COUNT
    requires TimersOk(t) && t.started == s.started
    ensures Inv(t)
  {
    UnsettledUpdate(s.conns, i, c);
  }

  lemma AcknowledgedConnOk(c: Conn, pooled: bool, now: int)
    requires ConnOk(c, pooled) && c.connected && !c.closed && !c.detached
    ensures ConnOk(Acknowledged(c, now), true)
  {
  }

  lemma HandedOverConnOk(c: Conn, pooled: bool)
    requires ConnOk(c, pooled) && c.connected && !c.closed
    ensures ConnOk(HandedOver(c), false)
  {
  }

  lemma ShutConnOk(c: Conn, pooled: bool)
    requires ConnOk(c, pooled)
    ensures ConnOk(Shut(c).(settled := true), false)
  {
  }

  lemma AcceptedKeepsInv(s: State, i: nat)
    requires InvInChunk(s, i) && !s.conns[i].detached
    ensures Inv(Accepted(s, i))
  {
    var t := Accepted(s, i);
    AcknowledgedConnOk(s.conns[i], i in s.pool, s.now);
    MovedKeepsInv(s, t, i, t.conns[i]);
  }

  lemma OnPreOkKeepsInv(s: State, i: nat)
    requires InvInChunk(s, i) && !s.conns[i].detached
    ensures InvInChunk(OnPreOk(s, i), i)
  {
    AcceptedKeepsInv(s, i);
    FormedKeepsInv(Accepted(s, i));
  }

  lemma OnPreErrKeepsInv(s: State, i: nat, reason: string)
    requires InvInChunk(s, i) && !s.conns[i].detached
    ensures InvInChunk(OnPreErr(s, i, reason), i)
  {
    var t := OnPreErr(s, i, reason);
    UnsettledUpdate(s.conns, i, t.conns[i]);
    assert t.conns == s.conns[i := t.conns[i]];
    if !s.conns[i].settled { PendingIsPositive(s, i); }
  }

  lemma OnPongKeepsInv(s: State, i: nat)
    requires InvInChunk(s, i)
    ensures InvInChunk(OnPong(s, i), i)
  {
    UnsettledUpdate(s.conns, i, OnPong(s, i).conns[i]);
  }

  lemma ConsumedKeepsInv(s: State, i: nat)
    requires InvInChunk(s, i)
    ensures Inv(Consumed(s, i))
  {
    HandedOverConnOk(s.conns[i], i in s.pool);
    MovedKeepsInv(s, Consumed(s, i), i, Consumed(s, i).conns[i]);
  }

  lemma DestroyedKeepsInv(s: State, i: nat)
    requires InvInChunk(s, i)
    ensures InvInChunk(WithConn(s, i, Destroyed(s.conns[i])), i)
  {
    UnsettledUpdate(s.conns, i, Destroyed(s.conns[i]));
  }

  lemma OnOpenKeepsInv(s: State, i: nat, portOk: bool)
    requires InvInChunk(s, i)
    ensures InvInChunk(OnOpen(s, i, portOk), i)
  {
    ConsumedKeepsInv(s, i);
    FormedKeepsInv(Consumed(s, i));
    var s1 := Formed(Consumed(s, i));
    assert s1.conns[i] == HandedOver(s.conns[i]);
    DestroyedKeepsInv(s1, i);
  }

  lemma OnFrameKeepsInv(s: State, i: nat, f: Frame)
    requires InvInChunk(s, i) && !s.conns[i].detached
    ensures InvInChunk(OnFrame(s, i, f), i)
  {
    match f
    case PreOk => OnPreOkKeepsInv(s, i);
    case PreErr(reason) => OnPreErrKeepsInv(s, i, reason);
    case Pong => OnPongKeepsInv(s, i);
    case Open(portOk) => OnOpenKeepsInv(s, i, portOk);
    case Unknown =>
  }

  lemma {:induction false} OnFramesKeepsInv(s: State, i: nat, frames: seq<Frame>)
    requires InvInChunk(s, i)
    ensures InvInChunk(OnFrames(s, i, frames), i)
    decreases |frames|
  {
    if frames != [] && !s.conns[i].detached {
      OnFrameKeepsInv(s, i, frames[0]);
      OnFramesKeepsInv(OnFrame(s, i, frames[0]), i, frames[1..]);
    }
  }

  // ---- the other handlers ------------------------------------------------------------------------

  lemma ReleasedThenSettledKeepsInv(s: State, i: nat)
    requires Inv(s) && i < |s.conns| && !s.conns[i].closed
    ensures Inv(Settled(Released(s, i), i))
  {
    var t := Settled(Released(s, i), i);
    ShutConnOk(s.conns[i], i in s.pool);
    MovedKeepsInv(s, t, i, Shut(s.conns[i]).(settled := true));
  }

  lemma SettledOnceIsEnough(s: State, i: nat)
    requires Exists(s, i) && s.conns[i].settled
    ensures Settled(s, i) == s
  {
    assert s.conns[i := s.conns[i]] == s.conns;
  }

  lemma OnCloseKeepsInv(s: State, i: nat, random: real)
    requires Inv(s) && i < |s.conns| && !s.conns[i].closed
    ensures Inv(OnClose(s, i, random))
  {
    var s1 := Settled(Released(s, i), i);
    ReleasedThenSettledKeepsInv(s, i);
    if s.conns[i].settled { SettledOnceIsEnough(Released(s, i), i); }
    RefillScheduledKeepsInv(s1, random);
    FormedKeepsInv(s1);
  }

  /** A handler that touches only the timers and flags of one socket. */
  lemma TouchedKeepsInv(s: State, i: nat, c: Conn)
    requires Inv(s) && i < |s.conns| && c.settled == s.conns[i].settled && ConnOk(c, i in s.pool)
    ensures Inv(WithConn(s, i, c))
  {
    UnsettledUpdate(s.conns, i, c);
  }

  lemma InitializedKeepsInv(s: State, uuid: bool, secret: bool)
    requires Inv(s)
    ensures Inv(Initialized(s, uuid, secret))
  {
    if uuid && secret {
      FormedKeepsInv(WithoutRefillTimer(
        s.(suspended := false, consecutiveFailures := 0, resetAt := s.now, started := true)));
    }
  }

  lemma SocketStepKeepsInv(s: State, e: Event)
    requires Inv(s) && Enabled(s, e)
    requires e.Connect? || e.Error? || e.ConnectTimeout? || e.AckTimeout? || e.Heartbeat? || e.PongTimeout?
    ensures Inv(Step(s, e))
  {
    TouchedKeepsInv(s, e.i, Step(s, e).conns[e.i]);
  }

  lemma {:induction false} StepKeepsInv(s: State, e: Event)
    requires Inv(s) && Enabled(s, e)
    ensures Inv(Step(s, e))
  {
    match e
    case Init(uuid, secret) => InitializedKeepsInv(s, uuid, secret);
    case Data(i, frames) => OnFramesKeepsInv(s, i, frames);
    case Close(i, random) => OnCloseKeepsInv(s, i, random);
    case Refill(id) => FormedKeepsInv(s.(timers := s.timers - {id}, refillTimer := None));
    case Tick(to) =>
    case _ => SocketStepKeepsInv(s, e);
  }

  lemma {:induction false} RunKeepsInv(s: State, es: seq<Event>)
    requires Inv(s) && ValidRun(s, es)
    ensures Inv(Run(s, es))
    decreases |es|
  {
    if es != [] {
      StepKeepsInv(s, es[0]);
      RunKeepsInv(Step(s, es[0]), es[1..]);
    }
  }

  lemma ReachableInv(s: State)
    requires Reachable(s)
    ensures Inv(s)
  {
    var now: int, es: seq<Event> :| ValidRun(Initial(now), es) && Run(Initial(now), es) == s;
    RunKeepsInv(Initial(now), es);
  }

  // ---- the accounts ------------------------------------------------------------------------------

  /**
   For any server and network: `pending` is the number of unsettled sockets (so it is never negative),
   pool and pending never exceed the target, only open, acknowledged, unconsumed sockets are pooled.
   */
  lemma Accounting(s: State)
    requires Reachable(s)
    ensures s.pending == |Unsettled(s.conns)| >= 0
    ensures |s.pool| + s.pending <= TARGET_POOL_COUNT
    ensures forall k :: k in s.pool ==>
      k < |s.conns| && s.conns[k].settled && !s.conns[k].closed && !s.conns[k].detached
  {
    ReachableInv(s);
  }

  /** The event loop never holds a second refill timeout, nor one the service has lost track of. */
  lemma OneRefillTimer(s: State)
    requires Reachable(s)
    ensures s.timers.Keys == if s.refillTimer.Some? then {s.refillTimer.value} else {}
    ensures |s.timers| <= 1
  {
    ReachableInv(s);
    assert |s.timers| == |s.timers.Keys|;
  }

  /** Filling twice is filling once: concurrent consumption, closes and retries cannot overshoot. */
  lemma FillingIsIdempotent(s: State)
    ensures Formed(Formed(s)) == Formed(s)
  {
  }
}
