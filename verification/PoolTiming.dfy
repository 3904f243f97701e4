/**
 The timers of each socket. Which phase has which timer: a heartbeat belongs to a pooled socket and none
 outlives OPEN unless a second PRE:OK made the connection lose its handle. How long each phase lasts when
 timers fire on time: a pending socket at most 15 s, a pooled one at most 25 s without a word.
 */
module PoolTiming {
  import opened Options
  import opened PreconnectPool
  import opened PoolAccounting

  // ---- phases ------------------------------------------------------------------------------------

  /**
   For any server: the connection holds a heartbeat handle exactly while it is pooled. The intervals that
   really run match the pool as long as PRE:OK was handled at most once on the socket.
   */
  lemma PhasesAreSeparate(s: State, i: nat)
    requires Reachable(s) && i < |s.conns|
    ensures s.conns[i].heartbeat.Some? <==> i in s.pool
    ensures s.conns[i].beatsStarted <= 1 ==> (s.conns[i].beats != map[] <==> i in s.pool)
    ensures s.conns[i].beatsStarted <= 1 && s.conns[i].pongDeadline.Armed? ==> i in s.pool
  {
    ReachableInv(s);
    var c := s.conns[i];
    assert ConnOk(c, i in s.pool);
    if c.beatsStarted <= 1 {
      if i in s.pool { assert 0 in c.beats; }
      if c.beats != map[] {
        var k: nat :| k in c.beats;
        assert k == 0;
      }
    }
  }

  /** Exactly when a heartbeat survives OPEN or close: PRE:OK was handled more than once before it. */
  lemma HeartbeatSurvivesExactly(s: State, i: nat)
    requires Reachable(s) && i < |s.conns| && (s.conns[i].detached || s.conns[i].closed)
    ensures s.conns[i].beats != map[] <==> s.conns[i].beatsStarted >= 2
  {
    ReachableInv(s);
    var c := s.conns[i];
    assert ConnOk(c, i in s.pool);
    if c.beatsStarted >= 2 { assert 0 in c.beats; }
    if c.beats != map[] { var k: nat :| k in c.beats; }
  }

  /** How many PRE:OK lines the server sent on socket `i`. */
  function Acks(es: seq<Event>, i: nat): nat {
    if es == [] then 0
    else (if es[0].Data? && es[0].i == i then PreOks(es[0].frames) else 0) + Acks(es[1..], i)
  }

  function BeatsStarted(s: State, i: nat): nat {
    if i < |s.conns| then s.conns[i].beatsStarted else 0
  }

  lemma PreOkStartsABeat(s: State, i: nat, j: nat)
    requires Exists(s, i)
    ensures BeatsStarted(OnPreOk(s, i), j) <= BeatsStarted(s, j) + if i == j then 1 else 0
  {
    assert OnPreOk(s, i).conns[..|s.conns|] == Accepted(s, i).conns;
  }

  lemma OpenStartsNoBeat(s: State, i: nat, portOk: bool, j: nat)
    requires Exists(s, i)
    ensures BeatsStarted(OnOpen(s, i, portOk), j) <= BeatsStarted(s, j)
  {
    assert Formed(Consumed(s, i)).conns[..|s.conns|] == Consumed(s, i).conns;
  }

  lemma OnFrameStartsBeats(s: State, i: nat, f: Frame, j: nat)
    requires Exists(s, i)
    ensures BeatsStarted(OnFrame(s, i, f), j) <= BeatsStarted(s, j) + if f.PreOk? && i == j then 1 else 0
  {
    match f
    case PreOk => PreOkStartsABeat(s, i, j);
    case Open(portOk) => OpenStartsNoBeat(s, i, portOk, j);
    case _ =>
  }

  lemma {:induction false} OnFramesStartBeats(s: State, i: nat, frames: seq<Frame>, j: nat)
    requires Exists(s, i)
    ensures BeatsStarted(OnFrames(s, i, frames), j) <= BeatsStarted(s, j) + if i == j then PreOks(frames) else 0
    decreases |frames|
  {
    if frames != [] && !s.conns[i].detached {
      OnFrameStartsBeats(s, i, frames[0], j);
      OnFramesStartBeats(OnFrame(s, i, frames[0]), i, frames[1..], j);
    }
  }

  lemma {:induction false} StepStartsBeats(s: State, e: Event, j: nat)
    requires Enabled(s, e)
    ensures BeatsStarted(Step(s, e), j) <= BeatsStarted(s, j) + Acks([e], j)
  {
    match e
    case Data(i, frames) => OnFramesStartBeats(s, i, frames, j);
    case _ =>
  }

  lemma {:induction false} RunStartsBeats(s: State, es: seq<Event>, j: nat)
    requires ValidRun(s, es)
    ensures BeatsStarted(Run(s, es), j) <= BeatsStarted(s, j) + Acks(es, j)
    decreases |es|
  {
    if es != [] {
      StepStartsBeats(s, es[0], j);
      RunStartsBeats(Step(s, es[0]), es[1..], j);
    }
  }

  /** A server that sends at most one PRE:OK on a socket never sees a PING on it outside the pooled phase. */
  lemma NoPingOutsideThePool(now: int, es: seq<Event>, i: nat)
    requires ValidRun(Initial(now), es) && Acks(es, i) <= 1
    ensures var s := Run(Initial(now), es);
      && (forall id: nat {:trigger Heartbeat(i, id)} :: Enabled(s, Heartbeat(i, id)) ==>
            i in s.pool && !s.conns[i].detached && !s.conns[i].closed)
      && (Enabled(s, PongTimeout(i)) ==> i in s.pool && !s.conns[i].detached)
  {
    var s := Run(Initial(now), es);
    RunStartsBeats(Initial(now), es, i);
    ReachableInv(s);
    forall id: nat | Enabled(s, Heartbeat(i, id))
      ensures i in s.pool && !s.conns[i].detached && !s.conns[i].closed
    {
      PhasesAreSeparate(s, i);
      assert ConnOk(s.conns[i], i in s.pool);
    }
    if Enabled(s, PongTimeout(i)) {
      PhasesAreSeparate(s, i);
      assert ConnOk(s.conns[i], i in s.pool);
    }
  }

  lemma OnTwoFrames(s: State, i: nat, f: Frame, g: Frame)
    requires Exists(s, i) && !s.conns[i].detached && !OnFrame(s, i, f).conns[i].detached
    ensures OnFrames(s, i, [f, g]) == OnFrame(OnFrame(s, i, f), i, g)
  {
    assert [f, g][1..] == [g] && [g][1..] == [];
    assert OnFrames(OnFrame(s, i, f), i, [g]) == OnFrames(OnFrame(OnFrame(s, i, f), i, g), i, []);
  }

  /** The second acknowledgement starts a heartbeat of its own; OPEN then stops only that one. */
  lemma SecondAckLeavesABeat(s: State, i: nat)
    requires Inv(s) && i in s.pool && i < |s.conns| && !s.conns[i].destroyed
    ensures var c := Accepted(s, i).conns[i];
      !c.detached && !c.closed && HandedOver(c).detached && !HandedOver(c).closed && HandedOver(c).beats != map[]
  {
    assert ConnOk(s.conns[i], true);
    var c := Accepted(s, i).conns[i];
    assert 0 in HandedOver(c).beats;
  }

  lemma AckThenOpen(s: State, i: nat)
    requires Exists(s, i) && !s.conns[i].detached && !Accepted(s, i).conns[i].detached
    ensures OnFrames(s, i, [PreOk, Open(true)]).conns[i] == HandedOver(Accepted(s, i).conns[i])
  {
    var a := OnPreOk(s, i);
    assert a.conns[i] == Accepted(s, i).conns[i];
    OnTwoFrames(s, i, PreOk, Open(true));
    assert OnOpen(a, i, true).conns[i] == Consumed(a, i).conns[i];
  }

  /** Any pooled socket on which a second PRE:OK comes before its OPEN keeps a heartbeat in its byte phase. */
  lemma SecondAckOutlivesOpen(s: State, i: nat)
    requires Reachable(s) && i in s.pool && i < |s.conns| && !s.conns[i].destroyed
    ensures Enabled(s, Data(i, [PreOk, Open(true)]))
    ensures var c := Step(s, Data(i, [PreOk, Open(true)])).conns[i]; c.detached && !c.closed && c.beats != map[]
  {
    ReachableInv(s);
    assert ConnOk(s.conns[i], true);
    SecondAckLeavesABeat(s, i);
    AckThenOpen(s, i);
  }

  // ---- timers on time ----------------------------------------------------------------------------

  predicate NotPast(d: Deadline, now: int) {
    d.Armed? ==> now <= d.due
  }

  /** No timer of the socket is overdue at `now`. */
  predicate ConnOnTime(c: Conn, now: int) {
    && NotPast(c.connectDeadline, now) && NotPast(c.ackDeadline, now) && NotPast(c.pongDeadline, now)
    && forall id :: id in c.beats ==> now <= c.beats[id]
  }

  /** The clock does not move past a timer that is due: it fires first. */
  predicate OnTime(s: State, e: Event) {
    e.Tick? ==> forall k :: 0 <= k < |s.conns| ==> ConnOnTime(s.conns[k], e.to)
  }

  predicate OnTimeRun(s: State, es: seq<Event>)
    decreases |es|
  {
    es == [] || (Enabled(s, es[0]) && OnTime(s, es[0]) && OnTimeRun(Step(s, es[0]), es[1..]))
  }

  lemma {:induction false} OnTimeRunIsRun(s: State, es: seq<Event>)
    requires OnTimeRun(s, es)
    ensures ValidRun(s, es)
    decreases |es|
  {
    if es != [] { OnTimeRunIsRun(Step(s, es[0]), es[1..]); }
  }

  const PENDING_LIMIT_MS := CONNECT_TIMEOUT_MS + ACK_TIMEOUT_MS
  const SILENCE_LIMIT_MS := HEARTBEAT_INTERVAL_MS + PONG_TIMEOUT_MS

  /** No tick and no PONG deadline lies further ahead than its period. */
  predicate WithinReach(c: Conn, now: int) {
    && (forall id :: id in c.beats ==> c.beats[id] <= now + HEARTBEAT_INTERVAL_MS)
    && (c.pongDeadline.Armed? ==> c.pongDeadline.due <= now + PONG_TIMEOUT_MS)
    && (c.pongDeadline.Fired? ==> c.destroyed)
  }

  /** The timer that will end the phase the socket is in, and how late it can be. */
  predicate ConnWatched(c: Conn, pooled: bool, now: int) {
    && ConnOnTime(c, now)
    && WithinReach(c, now)
    && c.heard <= now
    && (!c.settled && !c.destroyed && !c.connected ==>
          c.connectDeadline.Armed? && c.connectDeadline.due <= c.born + CONNECT_TIMEOUT_MS)
    && (!c.settled && !c.destroyed && c.connected ==>
          c.ackDeadline.Armed? && c.ackDeadline.due <= c.born + PENDING_LIMIT_MS)
    && (pooled && !c.destroyed ==>
          && c.heartbeat.Some? && c.heartbeat.value in c.beats
          && (match c.pongDeadline
              case Off => c.beats[c.heartbeat.value] <= c.heard + HEARTBEAT_INTERVAL_MS
              case Armed(due) => due <= c.heard + SILENCE_LIMIT_MS
              case Fired => false))
  }

  ghost predicate Watched(s: State) {
    forall k {:trigger s.conns[k]} :: 0 <= k < |s.conns| ==> ConnWatched(s.conns[k], k in s.pool, s.now)
  }

  lemma FormedKeepsWatch(s: State)
    requires Watched(s) && forall k :: k in s.pool ==> k < |s.conns|
    ensures Watched(Formed(s))
  {
  }

  /** Only socket `i` changed. */
  lemma MovedKeepsWatch(s: State, t: State, i: nat, c: Conn)
    requires Watched(s) && i < |s.conns| && t.conns == s.conns[i := c] && t.now == s.now
    requires forall k :: k != i ==> (k in t.pool <==> k in s.pool)
    requires ConnWatched(c, i in t.pool, s.now)
    ensures Watched(t)
  {
  }

  lemma OnPreOkKeepsWatch(s: State, i: nat)
    requires InvInChunk(s, i) && !s.conns[i].detached && Watched(s)
    ensures Watched(OnPreOk(s, i))
  {
    var t := Accepted(s, i);
    assert ConnOk(s.conns[i], i in s.pool) && ConnWatched(s.conns[i], i in s.pool, s.now);
    MovedKeepsWatch(s, t, i, t.conns[i]);
    AcceptedKeepsInv(s, i);
    FormedKeepsWatch(t);
  }

  lemma OnPreErrKeepsWatch(s: State, i: nat, reason: string)
    requires InvInChunk(s, i) && Watched(s)
    ensures Watched(OnPreErr(s, i, reason))
  {
    assert ConnOk(s.conns[i], i in s.pool) && ConnWatched(s.conns[i], i in s.pool, s.now);
    MovedKeepsWatch(s, OnPreErr(s, i, reason), i, OnPreErr(s, i, reason).conns[i]);
  }

  lemma ConsumedKeepsWatch(s: State, i: nat)
    requires InvInChunk(s, i) && Watched(s)
    ensures Watched(Consumed(s, i))
  {
    var t := Consumed(s, i);
    assert ConnOk(s.conns[i], i in s.pool) && ConnWatched(s.conns[i], i in s.pool, s.now);
    MovedKeepsWatch(s, t, i, t.conns[i]);
  }

  lemma DestroyedKeepsWatch(s: State, i: nat)
    requires Watched(s) && i < |s.conns|
    ensures Watched(WithConn(s, i, Destroyed(s.conns[i])))
  {
    assert ConnWatched(s.conns[i], i in s.pool, s.now);
    MovedKeepsWatch(s, WithConn(s, i, Destroyed(s.conns[i])), i, Destroyed(s.conns[i]));
  }

  lemma OnOpenKeepsWatch(s: State, i: nat, portOk: bool)
    requires InvInChunk(s, i) && !s.conns[i].detached && Watched(s)
    ensures Watched(OnOpen(s, i, portOk))
  {
    var t := Consumed(s, i);
    ConsumedKeepsWatch(s, i);
    ConsumedKeepsInv(s, i);
    FormedKeepsWatch(t);
    var u := Formed(t);
    DestroyedKeepsWatch(u, i);
  }

  lemma OnPongKeepsWatch(s: State, i: nat)
    requires InvInChunk(s, i) && Watched(s)
    ensures Watched(OnPong(s, i))
  {
    assert ConnOk(s.conns[i], i in s.pool) && ConnWatched(s.conns[i], i in s.pool, s.now);
    MovedKeepsWatch(s, OnPong(s, i), i, OnPong(s, i).conns[i]);
  }

  lemma OnFrameKeepsWatch(s: State, i: nat, f: Frame)
    requires InvInChunk(s, i) && !s.conns[i].detached && Watched(s)
    ensures Watched(OnFrame(s, i, f))
  {
    match f
    case PreOk => OnPreOkKeepsWatch(s, i);
    case PreErr(reason) => OnPreErrKeepsWatch(s, i, reason);
    case Pong => OnPongKeepsWatch(s, i);
    case Open(portOk) => OnOpenKeepsWatch(s, i, portOk);
    case Unknown =>
  }

  lemma {:induction false} OnFramesKeepWatch(s: State, i: nat, frames: seq<Frame>)
    requires InvInChunk(s, i) && Watched(s)
    ensures Watched(OnFrames(s, i, frames))
    decreases |frames|
  {
    if frames != [] && !s.conns[i].detached {
      OnFrameKeepsWatch(s, i, frames[0]);
      OnFrameKeepsInv(s, i, frames[0]);
      OnFramesKeepWatch(OnFrame(s, i, frames[0]), i, frames[1..]);
    }
  }

  lemma OnCloseKeepsWatch(s: State, i: nat, random: real)
    requires Inv(s) && Watched(s) && i < |s.conns| && !s.conns[i].closed
    ensures Watched(OnClose(s, i, random))
  {
    var t := Settled(Released(s, i), i);
    assert ConnWatched(s.conns[i], i in s.pool, s.now);
    MovedKeepsWatch(s, t, i, Shut(s.conns[i]).(settled := true));
    ReleasedThenSettledKeepsInv(s, i);
    FormedKeepsWatch(t);
  }

  lemma HeartbeatKeepsWatch(s: State, i: nat, id: nat)
    requires Inv(s) && Watched(s) && Enabled(s, Heartbeat(i, id))
    ensures Watched(OnHeartbeat(s, i, id))
  {
    assert ConnOk(s.conns[i], i in s.pool) && ConnWatched(s.conns[i], i in s.pool, s.now);
    MovedKeepsWatch(s, OnHeartbeat(s, i, id), i, OnHeartbeat(s, i, id).conns[i]);
  }

  lemma SocketStepKeepsWatch(s: State, e: Event)
    requires Inv(s) && Watched(s) && Enabled(s, e)
    requires e.Connect? || e.Error? || e.ConnectTimeout? || e.AckTimeout? || e.PongTimeout?
    ensures Watched(Step(s, e))
  {
    assert ConnOk(s.conns[e.i], e.i in s.pool) && ConnWatched(s.conns[e.i], e.i in s.pool, s.now);
    MovedKeepsWatch(s, Step(s, e), e.i, Step(s, e).conns[e.i]);
  }

  lemma TickKeepsWatch(s: State, to: int)
    requires Watched(s) && s.now <= to && OnTime(s, Tick(to))
    ensures Watched(s.(now := to))
  {
    forall k {:trigger s.conns[k]} | 0 <= k < |s.conns| ensures ConnWatched(s.conns[k], k in s.pool, to) {
      assert ConnWatched(s.conns[k], k in s.pool, s.now);
    }
  }

  lemma StepKeepsWatch(s: State, e: Event)
    requires Inv(s) && Watched(s) && Enabled(s, e) && OnTime(s, e)
    ensures Watched(Step(s, e))
  {
    match e
    case Init(uuid, secret) =>
      FormedKeepsWatch(WithoutRefillTimer(
        s.(suspended := false, consecutiveFailures := 0, resetAt := s.now, started := true)));
    case Data(i, frames) => OnFramesKeepWatch(s, i, frames);
    case Close(i, random) => OnCloseKeepsWatch(s, i, random);
    case Heartbeat(i, id) => HeartbeatKeepsWatch(s, i, id);
    case Refill(id) => FormedKeepsWatch(s.(timers := s.timers - {id}, refillTimer := None));
    case Tick(to) => TickKeepsWatch(s, to);
    case _ => SocketStepKeepsWatch(s, e);
  }

  lemma {:induction false} RunKeepsWatch(s: State, es: seq<Event>)
    requires Inv(s) && Watched(s) && OnTimeRun(s, es) && ValidRun(s, es)
    ensures Inv(Run(s, es)) && Watched(Run(s, es))
    decreases |es|
  {
    if es != [] {
      StepKeepsInv(s, es[0]);
      StepKeepsWatch(s, es[0]);
      RunKeepsWatch(Step(s, es[0]), es[1..]);
    }
  }

  /**
   With timers on time and any server: a socket that is still pending 15 s after it was opened has been
   destroyed, and a pooled socket not heard from for 25 s has been destroyed too.
   */
  lemma PhasesEndInTime(now: int, es: seq<Event>)
    requires OnTimeRun(Initial(now), es)
    ensures ValidRun(Initial(now), es)
    ensures var s := Run(Initial(now), es);
      forall i {:trigger s.conns[i]} :: 0 <= i < |s.conns| && !s.conns[i].destroyed ==>
        && (!s.conns[i].settled ==> s.now <= s.conns[i].born + 15_000)
        && (i in s.pool ==> s.now <= s.conns[i].heard + 25_000)
  {
    OnTimeRunIsRun(Initial(now), es);
    RunKeepsWatch(Initial(now), es);
    var s := Run(Initial(now), es);
    forall i {:trigger s.conns[i]} | 0 <= i < |s.conns| && !s.conns[i].destroyed
      ensures !s.conns[i].settled ==> s.now <= s.conns[i].born + 15_000
      ensures i in s.pool ==> s.now <= s.conns[i].heard + 25_000
    {
      assert ConnWatched(s.conns[i], i in s.pool, s.now);
    }
  }

  // ---- a heartbeat that outlives OPEN ------------------------------------------------------------

  /** A handed-over socket is destroyed, or a tick and the PONG it will not get destroy it by `limit`. */
  predicate Doomed(c: Conn, id: nat, limit: int) {
    && c.detached
    && (c.destroyed ||
        (id in c.beats &&
         match c.pongDeadline
         case Off => c.beats[id] + PONG_TIMEOUT_MS <= limit
         case Armed(due) => due <= limit
         case Fired => false))
  }

  lemma OnFrameLeavesOthers(s: State, i: nat, f: Frame, j: nat)
    requires Exists(s, i) && Exists(s, j) && i != j
    ensures OnFrame(s, i, f).conns[j] == s.conns[j]
  {
  }

  lemma {:induction false} OnFramesLeaveOthers(s: State, i: nat, frames: seq<Frame>, j: nat)
    requires Exists(s, i) && Exists(s, j) && i != j
    ensures OnFrames(s, i, frames).conns[j] == s.conns[j]
    decreases |frames|
  {
    if frames != [] && !s.conns[i].detached {
      OnFrameLeavesOthers(s, i, frames[0], j);
      OnFramesLeaveOthers(OnFrame(s, i, frames[0]), i, frames[1..], j);
    }
  }

  lemma StepKeepsDoom(s: State, e: Event, i: nat, id: nat, limit: int)
    requires Exists(s, i) && Enabled(s, e) && ConnOnTime(s.conns[i], s.now)
    requires Doomed(s.conns[i], id, limit)
    ensures Exists(Step(s, e), i) && Doomed(Step(s, e).conns[i], id, limit)
  {
    match e
    case Data(k, frames) => OnFramesLeaveOthers(s, k, frames, i);
    case _ =>
  }

  lemma {:induction false} RunKeepsDoom(s: State, es: seq<Event>, i: nat, id: nat, limit: int)
    requires Inv(s) && Watched(s) && OnTimeRun(s, es) && ValidRun(s, es)
    requires Exists(s, i) && Doomed(s.conns[i], id, limit)
    ensures var t := Run(s, es);
      Exists(t, i) && t.conns[i].detached && (t.now > limit ==> t.conns[i].destroyed)
    decreases |es|
  {
    assert ConnWatched(s.conns[i], i in s.pool, s.now);
    if es != [] {
      StepKeepsInv(s, es[0]);
      StepKeepsWatch(s, es[0]);
      StepKeepsDoom(s, es[0], i, id, limit);
      RunKeepsDoom(Step(s, es[0]), es[1..], i, id, limit);
    }
  }

  lemma LeftHeartbeatDooms(s: State, i: nat, es: seq<Event>)
    requires Inv(s) && Watched(s) && Exists(s, i) && s.conns[i].detached && s.conns[i].beats != map[]
    requires OnTimeRun(s, es)
    ensures ValidRun(s, es)
    ensures var t := Run(s, es); Exists(t, i) && (t.now > s.now + 25_000 ==> t.conns[i].destroyed)
  {
    OnTimeRunIsRun(s, es);
    var c := s.conns[i];
    assert ConnWatched(c, i in s.pool, s.now);
    var id: nat :| id in c.beats;
    assert Doomed(c, id, s.now + SILENCE_LIMIT_MS);
    RunKeepsDoom(s, es, i, id, s.now + SILENCE_LIMIT_MS);
  }

  /**
   With timers on time, any heartbeat that a handed-over socket still has ends it: nobody reads a PONG any
   more, so 25 s later the socket has been destroyed, whatever it carried meanwhile.
   */
  lemma HeartbeatEndsTheByteStream(now: int, before: seq<Event>, i: nat, es: seq<Event>)
    requires OnTimeRun(Initial(now), before) && ValidRun(Initial(now), before)
    requires var s := Run(Initial(now), before);
      i < |s.conns| && s.conns[i].detached && s.conns[i].beats != map[] && OnTimeRun(s, es)
    ensures var s := Run(Initial(now), before);
      && ValidRun(s, es) && Exists(Run(s, es), i)
      && (Run(s, es).now > s.now + 25_000 ==> Run(s, es).conns[i].destroyed)
  {
    RunKeepsWatch(Initial(now), before);
    LeftHeartbeatDooms(Run(Initial(now), before), i, es);
  }

  /** So a second PRE:OK right before the OPEN of a pooled socket ends its session 25 s after that OPEN. */
  lemma SecondAckEndsTheSession(now: int, before: seq<Event>, i: nat, es: seq<Event>)
    requires OnTimeRun(Initial(now), before) && ValidRun(Initial(now), before)
    requires var s := Run(Initial(now), before); i in s.pool && i < |s.conns| && !s.conns[i].destroyed
    ensures Enabled(Run(Initial(now), before), Data(i, [PreOk, Open(true)]))
    ensures var u := Step(Run(Initial(now), before), Data(i, [PreOk, Open(true)]));
      && u.conns[i].detached && !u.conns[i].closed
      && (OnTimeRun(u, es) ==>
            ValidRun(u, es) && Exists(Run(u, es), i) &&
            (Run(u, es).now > u.now + 25_000 ==> Run(u, es).conns[i].destroyed))
  {
    var s := Run(Initial(now), before);
    var e := Data(i, [PreOk, Open(true)]);
    RunKeepsWatch(Initial(now), before);
    SecondAckOutlivesOpen(s, i);
    StepKeepsInv(s, e);
    StepKeepsWatch(s, e);
    if OnTimeRun(Step(s, e), es) { LeftHeartbeatDooms(Step(s, e), i, es); }
  }
}
