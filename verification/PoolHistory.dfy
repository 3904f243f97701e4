/**
 What a run so far says about a socket, read off its events alone: when each of its three timeouts can fire,
 and what its close leads to. A PONG in time saves it, an error makes the pool back off.
 */
module PoolHistory {
  import opened Options
  import opened PreconnectPool
  import opened PoolAccounting
  import opened PoolTiming

  // ---- positions in a run ------------------------------------------------------------------------

  lemma {:induction false} PrefixIsValid(s: State, es: seq<Event>, k: nat)
    requires ValidRun(s, es) && k <= |es|
    ensures ValidRun(s, es[..k])
    decreases k
  {
    if k > 0 {
      PrefixIsValid(Step(s, es[0]), es[1..], k - 1);
      assert es[..k][1..] == es[1..][..k - 1];
    }
  }

  /** The state before event k of a run, or after all of them. */
  function StateAt(s: State, es: seq<Event>, k: nat): State
    requires ValidRun(s, es) && k <= |es|
  {
    PrefixIsValid(s, es, k);
    Run(s, es[..k])
  }

  lemma {:induction false} StateAtNext(s: State, es: seq<Event>, k: nat)
    requires ValidRun(s, es) && k < |es|
    ensures Enabled(StateAt(s, es, k), es[k]) && StateAt(s, es, k + 1) == Step(StateAt(s, es, k), es[k])
    decreases k
  {
    PrefixIsValid(s, es, k + 1);
    if k > 0 {
      StateAtNext(Step(s, es[0]), es[1..], k - 1);
      assert es[..k][1..] == es[1..][..k - 1] && es[..k + 1][1..] == es[1..][..k];
    } else {
      assert es[..0] == [] && es[..1][1..] == [] && es[..1][0] == es[0];
      assert Run(Step(s, es[0]), []) == Step(s, es[0]);
      assert Run(s, es[..1]) == Run(Step(s, es[0]), es[..1][1..]);
    }
  }

  lemma StateAtEnd(s: State, es: seq<Event>)
    requires ValidRun(s, es)
    ensures StateAt(s, es, |es|) == Run(s, es)
  {
    assert es[..|es|] == es;
  }

  lemma StateAtKeepsInv(s: State, es: seq<Event>, k: nat)
    requires Inv(s) && ValidRun(s, es) && k <= |es|
    ensures Inv(StateAt(s, es, k))
  {
    PrefixIsValid(s, es, k);
    RunKeepsInv(s, es[..k]);
  }

  // ---- the three timeouts ------------------------------------------------------------------------

  datatype Timeout = Connecting | Acknowledging | Ponging

  function Length(timeout: Timeout): int {
    match timeout
    case Connecting => 10_000
    case Acknowledging => 5_000
    case Ponging => 5_000
  }

  function Firing(timeout: Timeout, i: nat): Event {
    match timeout
    case Connecting => ConnectTimeout(i)
    case Acknowledging => AckTimeout(i)
    case Ponging => PongTimeout(i)
  }

  predicate Opens(s: State, e: Event, i: nat)
    requires Enabled(s, e)
  {
    |s.conns| <= i < |Step(s, e).conns|
  }

  /** Opening the socket, its connect, and each tick of a heartbeat set these timeouts. */
  predicate Sets(s: State, e: Event, i: nat, timeout: Timeout)
    requires Enabled(s, e)
  {
    match timeout
    case Connecting => Opens(s, e, i)
    case Acknowledging => e == Connect(i)
    case Ponging => e.Heartbeat? && e.i == i
  }

  predicate FrameStops(timeout: Timeout, f: Frame) {
    match timeout
    case Connecting => false
    case Acknowledging => f.PreOk? || f.PreErr?
    case Ponging => f.Pong? || f.Open?
  }

  /** Whether some frame up to the first OPEN stops the timeout. */
  predicate ChunkStops(timeout: Timeout, frames: seq<Frame>) {
    frames != [] && (FrameStops(timeout, frames[0]) || (!frames[0].Open? && ChunkStops(timeout, frames[1..])))
  }

  /** A close stops every timeout; the connect stops the first, which also forgets itself, and answers the others. */
  predicate Stops(e: Event, i: nat, timeout: Timeout) {
    match e
    case Close(j, _) => j == i
    case Data(j, frames) => j == i && ChunkStops(timeout, frames)
    case Connect(j) => j == i && timeout == Connecting
    case ConnectTimeout(j) => j == i && timeout == Connecting
    case _ => false
  }

  function DeadlineOf(c: Conn, timeout: Timeout): Deadline {
    match timeout
    case Connecting => c.connectDeadline
    case Acknowledging => c.ackDeadline
    case Ponging => c.pongDeadline
  }

  function DeadlineAt(s: State, i: nat, timeout: Timeout): Deadline {
    if i < |s.conns| then DeadlineOf(s.conns[i], timeout) else Off
  }

  /** What one frame makes of its own socket. */
  function AfterFrame(c: Conn, f: Frame, now: int): Conn {
    match f
    case PreOk => Acknowledged(c, now)
    case PreErr(_) => Destroyed(c.(ackDeadline := Off, settled := true))
    case Pong => c.(pongDeadline := Off, heard := now)
    case Open(portOk) => if portOk then HandedOver(c) else Destroyed(HandedOver(c))
    case Unknown => c
  }

  lemma FrameOnSocket(s: State, i: nat, f: Frame)
    requires Exists(s, i)
    ensures OnFrame(s, i, f).conns[i] == AfterFrame(s.conns[i], f, s.now) && OnFrame(s, i, f).now == s.now
  {
  }

  /** What a chunk makes of its own socket. */
  function AfterFrames(c: Conn, frames: seq<Frame>, now: int): Conn
    decreases |frames|
  {
    if frames == [] || c.detached then c else AfterFrames(AfterFrame(c, frames[0], now), frames[1..], now)
  }

  lemma {:induction false} FramesOnSocket(s: State, i: nat, frames: seq<Frame>)
    requires Exists(s, i)
    ensures OnFrames(s, i, frames).conns[i] == AfterFrames(s.conns[i], frames, s.now)
    decreases |frames|
  {
    if frames != [] && !s.conns[i].detached {
      FrameOnSocket(s, i, frames[0]);
      FramesOnSocket(OnFrame(s, i, frames[0]), i, frames[1..]);
    }
  }

  lemma FrameOnDeadline(c: Conn, f: Frame, now: int, timeout: Timeout)
    ensures DeadlineOf(AfterFrame(c, f, now), timeout) == if FrameStops(timeout, f) then Off else DeadlineOf(c, timeout)
  {
  }

  lemma OpenDetaches(c: Conn, f: Frame, now: int)
    ensures AfterFrame(c, f, now).detached <==> c.detached || f.Open?
  {
  }

  lemma {:induction false} ChunkOnDeadline(c: Conn, frames: seq<Frame>, now: int, timeout: Timeout)
    requires !c.detached
    ensures DeadlineOf(AfterFrames(c, frames, now), timeout)
      == if ChunkStops(timeout, frames) then Off else DeadlineOf(c, timeout)
    decreases |frames|
  {
    if frames != [] {
      FrameOnDeadline(c, frames[0], now, timeout);
      OpenDetaches(c, frames[0], now);
      if !frames[0].Open? { ChunkOnDeadline(AfterFrame(c, frames[0], now), frames[1..], now, timeout); }
    }
  }

  predicate Concerns(e: Event, i: nat) {
    !e.Init? && !e.Refill? && !e.Tick? && e.i == i
  }

  /** Sockets that are new in t were opened just now. */
  predicate OpenedNow(s: State, t: State) {
    |t.conns| >= |s.conns| && forall k :: |s.conns| <= k < |t.conns| ==> t.conns[k] == NewConn(s.now)
  }

  lemma FrameOpensNow(s: State, i: nat, f: Frame)
    requires Exists(s, i)
    ensures OpenedNow(s, OnFrame(s, i, f)) && OnFrame(s, i, f).now == s.now
  {
  }

  lemma {:induction false} FramesOpenNow(s: State, i: nat, frames: seq<Frame>)
    requires Exists(s, i)
    ensures OpenedNow(s, OnFrames(s, i, frames)) && OnFrames(s, i, frames).now == s.now
    decreases |frames|
  {
    if frames != [] && !s.conns[i].detached {
      var t := OnFrame(s, i, frames[0]);
      FrameOpensNow(s, i, frames[0]);
      FramesOpenNow(t, i, frames[1..]);
      forall k | |s.conns| <= k < |t.conns|
        ensures OnFrames(t, i, frames[1..]).conns[k] == NewConn(s.now)
      {
        OnFramesLeaveOthers(t, i, frames[1..], k);
      }
    }
  }

  lemma StepOpensNow(s: State, e: Event)
    requires Enabled(s, e)
    ensures OpenedNow(s, Step(s, e)) && Step(s, e).now == if e.Tick? then e.to else s.now
  {
    match e
    case Data(i, frames) => FramesOpenNow(s, i, frames);
    case _ =>
  }

  lemma StepLeavesOthers(s: State, e: Event, i: nat)
    requires Enabled(s, e) && Exists(s, i) && !Concerns(e, i)
    ensures Exists(Step(s, e), i) && Step(s, e).conns[i] == s.conns[i]
  {
    match e
    case Data(j, frames) => OnFramesLeaveOthers(s, j, frames, i);
    case _ =>
  }

  /** What an event does to a timeout of socket i. */
  function DeadlineAfter(s: State, e: Event, i: nat, timeout: Timeout): Deadline
    requires Enabled(s, e)
  {
    if Stops(e, i, timeout) then Off
    else if e == Firing(timeout, i) then Fired
    else if Sets(s, e, i, timeout) && DeadlineAt(s, i, timeout).Off? then Armed(s.now + Length(timeout))
    else DeadlineAt(s, i, timeout)
  }

  lemma SocketStepOnDeadline(s: State, e: Event, i: nat, timeout: Timeout)
    requires Inv(s) && Enabled(s, e)
    requires e.Connect? || e.Error? || e.ConnectTimeout? || e.AckTimeout? || e.Heartbeat? || e.PongTimeout?
    requires e.i == i
    ensures DeadlineAt(Step(s, e), i, timeout) == DeadlineAfter(s, e, i, timeout)
  {
    assert ConnOk(s.conns[i], i in s.pool);
    assert timeout == Connecting ==> !Sets(s, e, i, timeout);
  }

  lemma CloseOnDeadline(s: State, i: nat, random: real, timeout: Timeout)
    requires Exists(s, i)
    ensures DeadlineAt(OnClose(s, i, random), i, timeout) == Off
  {
    assert DeadlineOf(Shut(s.conns[i]), timeout) == Off;
  }

  lemma OwnStepOnDeadline(s: State, e: Event, i: nat, timeout: Timeout)
    requires Inv(s) && Enabled(s, e) && Concerns(e, i)
    ensures DeadlineAt(Step(s, e), i, timeout) == DeadlineAfter(s, e, i, timeout)
  {
    match e
    case Data(j, frames) =>
      FramesOnSocket(s, i, frames);
      ChunkOnDeadline(s.conns[i], frames, s.now, timeout);
    case Close(j, random) => CloseOnDeadline(s, i, random, timeout);
    case _ => SocketStepOnDeadline(s, e, i, timeout);
  }

  lemma OthersDoNotConcern(s: State, e: Event, i: nat, timeout: Timeout)
    requires Enabled(s, e) && !Concerns(e, i)
    ensures DeadlineAfter(s, e, i, timeout)
      == if timeout == Connecting && Opens(s, e, i) then Armed(s.now + 10_000) else DeadlineAt(s, i, timeout)
  {
  }

  lemma OtherStepOnDeadline(s: State, e: Event, i: nat, timeout: Timeout)
    requires Enabled(s, e) && !Concerns(e, i)
    ensures DeadlineAt(Step(s, e), i, timeout) == DeadlineAfter(s, e, i, timeout)
  {
    OthersDoNotConcern(s, e, i, timeout);
    if Exists(s, i) {
      StepLeavesOthers(s, e, i);
      assert !Opens(s, e, i);
    } else {
      StepOpensNow(s, e);
    }
  }

  lemma StepOnDeadline(s: State, e: Event, i: nat, timeout: Timeout)
    requires Inv(s) && Enabled(s, e)
    ensures DeadlineAt(Step(s, e), i, timeout) == DeadlineAfter(s, e, i, timeout)
  {
    if Concerns(e, i) {
      OwnStepOnDeadline(s, e, i, timeout);
    } else {
      OtherStepOnDeadline(s, e, i, timeout);
    }
  }

  // ---- when a timeout can fire -------------------------------------------------------------------

  lemma {:induction false} ClockNeverFalls(s: State, es: seq<Event>, k: nat, m: nat)
    requires ValidRun(s, es) && k <= m <= |es|
    ensures StateAt(s, es, k).now <= StateAt(s, es, m).now
    decreases m
  {
    if k < m {
      ClockNeverFalls(s, es, k, m - 1);
      StateAtNext(s, es, m - 1);
      StepOpensNow(StateAt(s, es, m - 1), es[m - 1]);
    }
  }

  /** Event k set the timeout of socket i. */
  predicate SetAt(s: State, es: seq<Event>, k: nat, i: nat, timeout: Timeout)
    requires ValidRun(s, es) && k < |es|
  {
    match timeout
    case Connecting => |StateAt(s, es, k).conns| <= i < |StateAt(s, es, k + 1).conns|
    case Acknowledging => es[k] == Connect(i)
    case Ponging => es[k].Heartbeat? && es[k].i == i
  }

  /** Event k set the timeout, and nothing before event m has stopped it. */
  predicate Running(s: State, es: seq<Event>, k: nat, m: nat, i: nat, timeout: Timeout)
    requires ValidRun(s, es) && m <= |es|
  {
    k < m && SetAt(s, es, k, i, timeout) && forall a :: k < a < m ==> !Stops(es[a], i, timeout)
  }

  /** The timeout fired before event m and was not stopped since; it does not fire twice. */
  predicate HasFired(es: seq<Event>, m: nat, i: nat, timeout: Timeout)
    requires m <= |es|
  {
    exists p :: 0 <= p < m && es[p] == Firing(timeout, i) && forall a :: p <= a < m ==> !Stops(es[a], i, timeout)
  }

  lemma SetsIsSetAt(s: State, es: seq<Event>, k: nat, i: nat, timeout: Timeout)
    requires ValidRun(s, es) && k < |es|
    ensures Enabled(StateAt(s, es, k), es[k])
    ensures Sets(StateAt(s, es, k), es[k], i, timeout) <==> SetAt(s, es, k, i, timeout)
    ensures SetAt(s, es, k, i, timeout) ==> !Stops(es[k], i, timeout) && es[k] != Firing(timeout, i)
  {
    StateAtNext(s, es, k);
  }

  lemma RunningNext(s: State, es: seq<Event>, k: nat, m: nat, i: nat, timeout: Timeout)
    requires ValidRun(s, es) && m < |es|
    ensures Running(s, es, k, m + 1, i, timeout) <==>
      if k == m then SetAt(s, es, m, i, timeout) else Running(s, es, k, m, i, timeout) && !Stops(es[m], i, timeout)
  {
  }

  lemma HasFiredNext(es: seq<Event>, m: nat, i: nat, timeout: Timeout)
    requires m < |es|
    ensures HasFired(es, m + 1, i, timeout) <==>
      (HasFired(es, m, i, timeout) || es[m] == Firing(timeout, i)) && !Stops(es[m], i, timeout)
  {
    if HasFired(es, m, i, timeout) && !Stops(es[m], i, timeout) {
      var p :| 0 <= p < m && es[p] == Firing(timeout, i) && forall a :: p <= a < m ==> !Stops(es[a], i, timeout);
      assert 0 <= p < m + 1 && es[p] == Firing(timeout, i);
    }
  }

  /** Something set the timeout so long before `due`. */
  ghost predicate SetFor(s: State, es: seq<Event>, k: nat, m: nat, i: nat, timeout: Timeout, due: int)
    requires ValidRun(s, es) && m <= |es|
  {
    Running(s, es, k, m, i, timeout) && StateAt(s, es, k).now + Length(timeout) == due
  }

  /** What a deadline before event m says of the events so far. */
  ghost predicate Tells(s: State, es: seq<Event>, m: nat, i: nat, timeout: Timeout, deadline: Deadline)
    requires ValidRun(s, es) && m <= |es|
  {
    match deadline
    case Off => !HasFired(es, m, i, timeout) && forall k: nat :: !Running(s, es, k, m, i, timeout)
    case Fired => HasFired(es, m, i, timeout)
    case Armed(due) =>
      && !HasFired(es, m, i, timeout)
      && (exists k: nat :: SetFor(s, es, k, m, i, timeout, due))
      && (forall k: nat :: Running(s, es, k, m, i, timeout) ==> due <= StateAt(s, es, k).now + Length(timeout))
  }

  lemma StoppedTells(s: State, es: seq<Event>, m: nat, i: nat, timeout: Timeout)
    requires ValidRun(s, es) && m < |es| && Stops(es[m], i, timeout)
    ensures Tells(s, es, m + 1, i, timeout, Off)
  {
    SetsIsSetAt(s, es, m, i, timeout);
    HasFiredNext(es, m, i, timeout);
    var n := m + 1;
    forall k: nat ensures !Running(s, es, k, n, i, timeout) { RunningNext(s, es, k, m, i, timeout); }
  }

  lemma FirstTickTells(s: State, es: seq<Event>, m: nat, i: nat, timeout: Timeout)
    requires ValidRun(s, es) && m < |es| && SetAt(s, es, m, i, timeout) && Tells(s, es, m, i, timeout, Off)
    ensures Tells(s, es, m + 1, i, timeout, Armed(StateAt(s, es, m).now + Length(timeout)))
  {
    var n := m + 1;
    SetsIsSetAt(s, es, m, i, timeout);
    HasFiredNext(es, m, i, timeout);
    forall k: nat ensures Running(s, es, k, n, i, timeout) <==> k == m { RunningNext(s, es, k, m, i, timeout); }
    assert SetFor(s, es, m, n, i, timeout, StateAt(s, es, m).now + Length(timeout));
  }

  lemma ArmedTells(s: State, es: seq<Event>, m: nat, i: nat, timeout: Timeout, due: int)
    requires ValidRun(s, es) && m < |es| && Tells(s, es, m, i, timeout, Armed(due))
    requires !Stops(es[m], i, timeout) && es[m] != Firing(timeout, i)
    ensures Tells(s, es, m + 1, i, timeout, Armed(due))
  {
    var n := m + 1;
    HasFiredNext(es, m, i, timeout);
    var first: nat :| SetFor(s, es, first, m, i, timeout, due);
    RunningNext(s, es, first, m, i, timeout);
    assert SetFor(s, es, first, n, i, timeout, due);
    forall k: nat | Running(s, es, k, n, i, timeout) ensures due <= StateAt(s, es, k).now + Length(timeout) {
      RunningNext(s, es, k, m, i, timeout);
      if k == m { ClockNeverFalls(s, es, first, m); }
    }
  }

  lemma OffTells(s: State, es: seq<Event>, m: nat, i: nat, timeout: Timeout)
    requires ValidRun(s, es) && m < |es| && Tells(s, es, m, i, timeout, Off)
    requires !SetAt(s, es, m, i, timeout) && !Stops(es[m], i, timeout) && es[m] != Firing(timeout, i)
    ensures Tells(s, es, m + 1, i, timeout, Off)
  {
    var n := m + 1;
    HasFiredNext(es, m, i, timeout);
    forall k: nat ensures !Running(s, es, k, n, i, timeout) { RunningNext(s, es, k, m, i, timeout); }
  }

  lemma StepTells(s: State, es: seq<Event>, m: nat, i: nat, timeout: Timeout)
    requires ValidRun(s, es) && m < |es| && Enabled(StateAt(s, es, m), es[m])
    requires Tells(s, es, m, i, timeout, DeadlineAt(StateAt(s, es, m), i, timeout))
    ensures Tells(s, es, m + 1, i, timeout, DeadlineAfter(StateAt(s, es, m), es[m], i, timeout))
  {
    SetsIsSetAt(s, es, m, i, timeout);
    var deadline := DeadlineAt(StateAt(s, es, m), i, timeout);
    if Stops(es[m], i, timeout) {
      StoppedTells(s, es, m, i, timeout);
    } else if es[m] == Firing(timeout, i) || deadline.Fired? {
      HasFiredNext(es, m, i, timeout);
    } else if deadline.Armed? {
      ArmedTells(s, es, m, i, timeout, deadline.due);
    } else if SetAt(s, es, m, i, timeout) {
      FirstTickTells(s, es, m, i, timeout);
    } else {
      OffTells(s, es, m, i, timeout);
    }
  }

  /** The deadline before event m tells of the events so far. */
  ghost predicate Told(s: State, es: seq<Event>, m: nat, i: nat, timeout: Timeout)
    requires ValidRun(s, es) && m <= |es|
  {
    Tells(s, es, m, i, timeout, DeadlineAt(StateAt(s, es, m), i, timeout))
  }

  lemma DeadlineNext(s: State, es: seq<Event>, m: nat, i: nat, timeout: Timeout)
    requires Inv(s) && ValidRun(s, es) && m < |es|
    ensures Enabled(StateAt(s, es, m), es[m])
    ensures DeadlineAt(StateAt(s, es, m + 1), i, timeout) == DeadlineAfter(StateAt(s, es, m), es[m], i, timeout)
  {
    StateAtKeepsInv(s, es, m);
    StateAtNext(s, es, m);
    StepOnDeadline(StateAt(s, es, m), es[m], i, timeout);
  }

  lemma NextTold(s: State, es: seq<Event>, m: nat, i: nat, timeout: Timeout)
    requires Inv(s) && ValidRun(s, es) && m < |es| && Told(s, es, m, i, timeout)
    ensures Told(s, es, m + 1, i, timeout)
  {
    DeadlineNext(s, es, m, i, timeout);
    StepTells(s, es, m, i, timeout);
  }

  lemma {:induction false} RunTold(s: State, es: seq<Event>, m: nat, i: nat, timeout: Timeout)
    requires Inv(s) && s.conns == [] && ValidRun(s, es) && m <= |es|
    ensures Told(s, es, m, i, timeout)
    decreases m
  {
    if m > 0 {
      RunTold(s, es, m - 1, i, timeout);
      NextTold(s, es, m - 1, i, timeout);
    }
  }

  /**
   Exactly when each timeout of a socket can fire, at any point of any run: something set it at least its
   length ago, nothing has stopped it since, and it has not fired before. For a PONG that is: a tick at least
   5 s back, no PONG, OPEN or close of that socket since.
   */
  lemma TimeoutsFireExactly(now: int, es: seq<Event>, m: nat, i: nat, timeout: Timeout)
    requires ValidRun(Initial(now), es) && m <= |es|
    ensures var s := Initial(now);
      Enabled(StateAt(s, es, m), Firing(timeout, i)) <==>
        && !HasFired(es, m, i, timeout)
        && exists k: nat :: Running(s, es, k, m, i, timeout) &&
             StateAt(s, es, k).now + Length(timeout) <= StateAt(s, es, m).now
  {
    RunTold(Initial(now), es, m, i, timeout);
    assert Enabled(StateAt(Initial(now), es, m), Firing(timeout, i))
      <==> Due(DeadlineAt(StateAt(Initial(now), es, m), i, timeout), StateAt(Initial(now), es, m).now);
  }

  /** Each tick on socket i is answered by a PONG (or ended by OPEN or close) before 5 s have passed. */
  ghost predicate EveryPingAnswered(s: State, es: seq<Event>, i: nat)
    requires ValidRun(s, es)
  {
    forall k: nat, m: nat ::
      k < m < |es| && es[k].Heartbeat? && es[k].i == i && StateAt(s, es, k).now + 5_000 <= StateAt(s, es, m).now ==>
        exists a :: k < a < m && Stops(es[a], i, Ponging)
  }

  /** A socket whose every PING is answered in time never loses a PONG timeout, in no run. */
  lemma AnsweredPingsNeverKill(now: int, es: seq<Event>, i: nat, m: nat)
    requires ValidRun(Initial(now), es) && EveryPingAnswered(Initial(now), es, i) && m < |es|
    ensures es[m] != PongTimeout(i)
  {
    if es[m] == PongTimeout(i) {
      StateAtNext(Initial(now), es, m);
      TimeoutsFireExactly(now, es, m, i, Ponging);
    }
  }

  // ---- the period of a heartbeat -----------------------------------------------------------------

  /** Whether PRE:OK comes before any OPEN. */
  predicate Acknowledges(frames: seq<Frame>) {
    frames != [] && (frames[0].PreOk? || (!frames[0].Open? && Acknowledges(frames[1..])))
  }

  /** What starts interval `id` of socket i or makes it due again. */
  predicate StartsPeriod(e: Event, i: nat, id: nat) {
    e == Heartbeat(i, id) || (e.Data? && e.i == i && Acknowledges(e.frames))
  }

  lemma FrameOnBeats(c: Conn, f: Frame, now: int, id: nat)
    ensures var beats := AfterFrame(c, f, now).beats;
      id in beats ==>
        (id in c.beats && beats[id] == c.beats[id]) || (f.PreOk? && beats[id] == now + HEARTBEAT_INTERVAL_MS)
    ensures AfterFrame(c, f, now).detached <==> c.detached || f.Open?
  {
  }

  lemma {:induction false} ChunkOnBeats(c: Conn, frames: seq<Frame>, now: int, id: nat)
    requires !c.detached
    ensures var beats := AfterFrames(c, frames, now).beats;
      id in beats ==>
        (id in c.beats && beats[id] == c.beats[id]) ||
        (Acknowledges(frames) && beats[id] == now + HEARTBEAT_INTERVAL_MS)
    decreases |frames|
  {
    if frames != [] {
      FrameOnBeats(c, frames[0], now, id);
      if !frames[0].Open? { ChunkOnBeats(AfterFrame(c, frames[0], now), frames[1..], now, id); }
    }
  }

  function BeatsAt(s: State, i: nat): map<nat, int> {
    if i < |s.conns| then s.conns[i].beats else map[]
  }

  /** What an event leaves of the due time of interval id. */
  predicate DueAfter(s: State, e: Event, i: nat, id: nat, due: int) {
    || (StartsPeriod(e, i, id) && due == s.now + HEARTBEAT_INTERVAL_MS)
    || (e != Heartbeat(i, id) && id in BeatsAt(s, i) && due == BeatsAt(s, i)[id])
  }

  lemma ChunkStepOnBeats(s: State, i: nat, frames: seq<Frame>, id: nat)
    requires Enabled(s, Data(i, frames)) && id in OnFrames(s, i, frames).conns[i].beats
    ensures DueAfter(s, Data(i, frames), i, id, OnFrames(s, i, frames).conns[i].beats[id])
  {
    FramesOnSocket(s, i, frames);
    ChunkOnBeats(s.conns[i], frames, s.now, id);
  }

  lemma OwnStepOnBeats(s: State, e: Event, i: nat, id: nat)
    requires Enabled(s, e) && Concerns(e, i) && !e.Data? && id in BeatsAt(Step(s, e), i)
    ensures DueAfter(s, e, i, id, BeatsAt(Step(s, e), i)[id])
  {
  }

  lemma StepOnBeats(s: State, e: Event, i: nat, id: nat)
    requires Enabled(s, e) && id in BeatsAt(Step(s, e), i)
    ensures DueAfter(s, e, i, id, BeatsAt(Step(s, e), i)[id])
  {
    if !Concerns(e, i) {
      StepOpensNow(s, e);
      if Exists(s, i) { StepLeavesOthers(s, e, i); }
    } else if e.Data? {
      ChunkStepOnBeats(s, i, e.frames, id);
    } else {
      OwnStepOnBeats(s, e, i, id);
    }
  }

  /** The period of the interval began with event j, and it did not tick between then and event m. */
  predicate LastPeriod(es: seq<Event>, j: nat, m: nat, i: nat, id: nat)
    requires m <= |es|
  {
    j < m && StartsPeriod(es[j], i, id) && forall a :: j < a < m ==> es[a] != Heartbeat(i, id)
  }

  lemma {:induction false} BeatsHavePeriods(now: int, es: seq<Event>, m: nat, i: nat, id: nat)
    requires ValidRun(Initial(now), es) && m <= |es| && id in BeatsAt(StateAt(Initial(now), es, m), i)
    ensures var due := BeatsAt(StateAt(Initial(now), es, m), i)[id];
      exists j: nat ::
        LastPeriod(es, j, m, i, id) && StateAt(Initial(now), es, j).now + HEARTBEAT_INTERVAL_MS == due
    decreases m
  {
    if m > 0 {
      var s := StateAt(Initial(now), es, m - 1);
      StateAtNext(Initial(now), es, m - 1);
      StepOnBeats(s, es[m - 1], i, id);
      if id in BeatsAt(s, i) && es[m - 1] != Heartbeat(i, id) {
        BeatsHavePeriods(now, es, m - 1, i, id);
        var j: nat :| LastPeriod(es, j, m - 1, i, id) &&
          StateAt(Initial(now), es, j).now + HEARTBEAT_INTERVAL_MS == BeatsAt(s, i)[id];
        assert LastPeriod(es, j, m, i, id);
      }
      assert StartsPeriod(es[m - 1], i, id) ==> LastPeriod(es, m - 1, m, i, id);
    }
  }

  /** An interval ticks no sooner than 20 s after PRE:OK or after it ticked before. */
  lemma TicksAreSpaced(now: int, es: seq<Event>, m: nat, i: nat, id: nat)
    requires ValidRun(Initial(now), es) && m < |es| && es[m] == Heartbeat(i, id)
    ensures exists j: nat ::
      LastPeriod(es, j, m, i, id) && StateAt(Initial(now), es, j).now + 20_000 <= StateAt(Initial(now), es, m).now
  {
    StateAtNext(Initial(now), es, m);
    BeatsHavePeriods(now, es, m, i, id);
  }

  // ---- what a chunk leads to ---------------------------------------------------------------------

  predicate Opening(frames: seq<Frame>) {
    frames != [] && (frames[0].Open? || Opening(frames[1..]))
  }

  /** Whether a PRE:ERR comes before any OPEN, or the first OPEN names no port. */
  predicate Ruinous(frames: seq<Frame>) {
    frames != [] &&
    (frames[0].PreErr? || (if frames[0].Open? then !frames[0].portOk else Ruinous(frames[1..])))
  }

  lemma {:induction false} ChunkOnSocket(c: Conn, frames: seq<Frame>, now: int)
    requires !c.detached
    ensures var d := AfterFrames(c, frames, now);
      (d.detached <==> Opening(frames)) && (d.destroyed <==> c.destroyed || Ruinous(frames))
    decreases |frames|
  {
    if frames != [] && !frames[0].Open? { ChunkOnSocket(AfterFrame(c, frames[0], now), frames[1..], now); }
  }

  /** The pool after a chunk for socket i. */
  function PoolAfter(pool: set<nat>, i: nat, frames: seq<Frame>): set<nat> {
    if Opening(frames) then pool - {i} else if Acknowledges(frames) then pool + {i} else pool
  }

  function PoolAfterFrame(pool: set<nat>, i: nat, f: Frame): set<nat> {
    if f.PreOk? then pool + {i} else if f.Open? then pool - {i} else pool
  }

  lemma FrameOnPool(s: State, i: nat, f: Frame)
    requires Exists(s, i)
    ensures OnFrame(s, i, f).pool == PoolAfterFrame(s.pool, i, f)
    ensures OnFrame(s, i, f).conns[i].detached <==> s.conns[i].detached || f.Open?
  {
    FrameOnSocket(s, i, f);
  }

  lemma PoolAfterMore(pool: set<nat>, i: nat, frames: seq<Frame>)
    requires frames != []
    ensures PoolAfter(pool, i, frames)
      == if frames[0].Open? then PoolAfterFrame(pool, i, frames[0])
         else PoolAfter(PoolAfterFrame(pool, i, frames[0]), i, frames[1..])
  {
    assert pool + {i} - {i} == pool - {i} && pool + {i} + {i} == pool + {i};
  }

  lemma {:induction false} ChunkOnPool(s: State, i: nat, frames: seq<Frame>)
    requires Exists(s, i) && !s.conns[i].detached
    ensures OnFrames(s, i, frames).pool == PoolAfter(s.pool, i, frames)
    decreases |frames|
  {
    if frames != [] {
      FrameOnPool(s, i, frames[0]);
      PoolAfterMore(s.pool, i, frames);
      if !frames[0].Open? { ChunkOnPool(OnFrame(s, i, frames[0]), i, frames[1..]); }
    }
  }

  /**
   What becomes of a socket by a chunk, in any order of lines: it is handed over exactly if there is an OPEN,
   destroyed exactly if it was rejected before that or the OPEN names no port, and it ends up pooled exactly
   if it is not handed over and was pooled or acknowledged.
   */
  lemma ChunkExactly(s: State, i: nat, frames: seq<Frame>)
    requires Enabled(s, Data(i, frames))
    ensures var t := Step(s, Data(i, frames));
      && (t.conns[i].detached <==> Opening(frames))
      && (t.conns[i].destroyed <==> Ruinous(frames))
      && (i in t.pool <==> !Opening(frames) && (i in s.pool || Acknowledges(frames)))
      && (forall k :: k != i ==> (k in t.pool <==> k in s.pool))
  {
    FramesOnSocket(s, i, frames);
    ChunkOnSocket(s.conns[i], frames, s.now);
    ChunkOnPool(s, i, frames);
  }

  // ---- what a close leads to ---------------------------------------------------------------------

  /** The socket reports an error, or one of the timeouts that blame it fires. */
  predicate Evidence(e: Event, i: nat) {
    e == Error(i) || e == PongTimeout(i) || e == ConnectTimeout(i)
  }

  predicate FailedBefore(es: seq<Event>, i: nat, m: nat)
    requires m <= |es|
  {
    exists k :: 0 <= k < m && Evidence(es[k], i)
  }

  predicate UnhealthyAt(s: State, i: nat) {
    i < |s.conns| && s.conns[i].unhealthy
  }

  lemma {:induction false} ChunkLeavesHealth(c: Conn, frames: seq<Frame>, now: int)
    ensures AfterFrames(c, frames, now).unhealthy == c.unhealthy
    decreases |frames|
  {
    if frames != [] && !c.detached { ChunkLeavesHealth(AfterFrame(c, frames[0], now), frames[1..], now); }
  }

  lemma OwnStepOnHealth(s: State, e: Event, i: nat)
    requires Enabled(s, e) && Concerns(e, i) && !e.Data?
    ensures UnhealthyAt(Step(s, e), i) <==> UnhealthyAt(s, i) || Evidence(e, i)
  {
  }

  lemma StepOnHealth(s: State, e: Event, i: nat)
    requires Enabled(s, e)
    ensures UnhealthyAt(Step(s, e), i) <==> UnhealthyAt(s, i) || Evidence(e, i)
  {
    if !Concerns(e, i) {
      StepOpensNow(s, e);
      if Exists(s, i) { StepLeavesOthers(s, e, i); }
    } else if e.Data? {
      FramesOnSocket(s, i, e.frames);
      ChunkLeavesHealth(s.conns[i], e.frames, s.now);
    } else {
      OwnStepOnHealth(s, e, i);
    }
  }

  lemma {:induction false} EvidenceIsKept(s: State, es: seq<Event>, i: nat, m: nat)
    requires ValidRun(s, es) && m <= |es|
    ensures UnhealthyAt(StateAt(s, es, m), i) <==> UnhealthyAt(s, i) || FailedBefore(es, i, m)
    decreases m
  {
    if m > 0 {
      EvidenceIsKept(s, es, i, m - 1);
      StateAtNext(s, es, m - 1);
      StepOnHealth(StateAt(s, es, m - 1), es[m - 1], i);
      assert Evidence(es[m - 1], i) ==> FailedBefore(es, i, m);
    }
  }

  /** One more round of backoff: no socket is opened, and a refill is armed, unless one was or nothing may be. */
  predicate BacksOff(s: State, t: State) {
    && |t.conns| == |s.conns|
    && (s.suspended || t.refillTimer.Some?)
    && t.consecutiveFailures == s.consecutiveFailures + if s.suspended || s.refillTimer.Some? then 0 else 1
  }

  /** The pool is filled at once, with no round of backoff. */
  predicate Replaces(s: State, t: State) {
    && t.refillTimer == s.refillTimer && t.consecutiveFailures == s.consecutiveFailures
    && (s.suspended || if t.pool == {} then t.pending >= 1 else |t.pool| + t.pending == 10)
  }

  lemma FailedCloseBacksOff(s: State, i: nat, random: real)
    requires Exists(s, i) && (!s.conns[i].settled || (i in s.pool && s.conns[i].unhealthy))
    ensures BacksOff(s, OnClose(s, i, random)) && OnClose(s, i, random).pool == s.pool - {i}
  {
  }

  lemma HealthyCloseReplaces(s: State, i: nat, random: real)
    requires Inv(s) && i in s.pool && s.conns[i].settled && !s.conns[i].unhealthy && !s.conns[i].closed
    ensures Replaces(s, OnClose(s, i, random)) && OnClose(s, i, random).pool == s.pool - {i}
  {
    var r := Released(s, i);
    assert |r.pool| + r.pending < TARGET_POOL_COUNT;
  }

  /** What a close leads to: backoff, the pool filled at once, or nothing. */
  predicate Closes(s: State, t: State, i: nat, failed: bool)
    requires Exists(s, i)
  {
    && t.pool == s.pool - {i}
    && (if !s.conns[i].settled || (i in s.pool && failed) then BacksOff(s, t)
        else if i in s.pool then Replaces(s, t)
        else t == s.(conns := t.conns) && |t.conns| == |s.conns|)
  }

  lemma CloseOutcome(s: State, i: nat, random: real)
    requires Inv(s) && Enabled(s, Close(i, random))
    ensures Closes(s, OnClose(s, i, random), i, s.conns[i].unhealthy)
  {
    if !s.conns[i].settled || (i in s.pool && s.conns[i].unhealthy) {
      FailedCloseBacksOff(s, i, random);
    } else if i in s.pool {
      HealthyCloseReplaces(s, i, random);
    } else {
      assert s.pool - {i} == s.pool;
    }
  }

  /**
   Event m of any run, a close, from the events before it: the pool backs off if the socket was still pending,
   or was pooled and an error or timeout blamed it at any time before. A pooled socket without such evidence
   is replaced at once, and nothing follows the close of any other.
   */
  lemma CloseExactly(now: int, es: seq<Event>, m: nat, i: nat, random: real)
    requires ValidRun(Initial(now), es) && m < |es| && es[m] == Close(i, random)
    ensures var s, t := StateAt(Initial(now), es, m), StateAt(Initial(now), es, m + 1);
      Exists(s, i) && Closes(s, t, i, FailedBefore(es, i, m))
  {
    StateAtNext(Initial(now), es, m);
    StateAtKeepsInv(Initial(now), es, m);
    EvidenceIsKept(Initial(now), es, i, m);
    CloseOutcome(StateAt(Initial(now), es, m), i, random);
  }

  // ---- bursts of failures ------------------------------------------------------------------------

  /** An event of a burst: no socket is used or opened, and one that closes was still pending or failed before. */
  predicate InBurst(s: State, es: seq<Event>, k: nat)
    requires k < |es|
  {
    match es[k]
    case Close(i, _) => FailedBefore(es, i, k) || (Exists(s, i) && !s.conns[i].settled)
    case Init(_, _) => false
    case Data(_, _) => false
    case Refill(_) => false
    case _ => true
  }

  predicate Burst(s: State, es: seq<Event>) {
    forall k :: 0 <= k < |es| ==> InBurst(s, es, k)
  }

  /** A socket that s counts on closes before event m. */
  predicate Loses(s: State, es: seq<Event>, m: nat)
    requires m <= |es|
  {
    exists k :: 0 <= k < m && es[k].Close? && Exists(s, es[k].i) && (es[k].i in s.pool || !s.conns[es[k].i].settled)
  }

  /** As far as a socket is still open, the pool sees it as before. */
  predicate SeenAlike(s: State, t: State) {
    && |t.conns| == |s.conns| && t.suspended == s.suspended
    && forall i :: 0 <= i < |s.conns| && !t.conns[i].closed ==>
         t.conns[i].settled == s.conns[i].settled && (i in t.pool <==> i in s.pool)
  }

  /** One round, if a socket was lost and no refill was armed before. */
  predicate OneRound(s: State, t: State, lost: bool) {
    && (t.refillTimer.Some? <==> s.refillTimer.Some? || (!s.suspended && lost))
    && t.consecutiveFailures == s.consecutiveFailures + if s.refillTimer.None? && t.refillTimer.Some? then 1 else 0
  }

  lemma BurstCloseIs(u: State, i: nat, random: real)
    requires Exists(u, i) && (!u.conns[i].settled || u.conns[i].unhealthy)
    ensures var r := Settled(Released(u, i), i);
      OnClose(u, i, random) == if i in u.pool || !u.conns[i].settled then RefillScheduled(r, random) else r
  {
    if u.conns[i].settled { SettledOnceIsEnough(Released(u, i), i); }
  }

  lemma BurstCloses(s: State, u: State, i: nat, random: real, lost: bool)
    requires SeenAlike(s, u) && OneRound(s, u, lost) && Enabled(u, Close(i, random))
    requires !u.conns[i].settled || u.conns[i].unhealthy
    ensures SeenAlike(s, OnClose(u, i, random))
    ensures OneRound(s, OnClose(u, i, random), lost || i in s.pool || !s.conns[i].settled)
  {
    BurstCloseIs(u, i, random);
    var r := Settled(Released(u, i), i);
    assert SeenAlike(s, r);
    assert OneRound(s, r, lost);
  }

  lemma TouchedGoesOn(s: State, u: State, i: nat, c: Conn, lost: bool)
    requires SeenAlike(s, u) && OneRound(s, u, lost) && Exists(u, i)
    requires c.settled == u.conns[i].settled && c.closed == u.conns[i].closed
    ensures SeenAlike(s, WithConn(u, i, c)) && OneRound(s, WithConn(u, i, c), lost)
  {
  }

  lemma StepTouches(u: State, e: Event)
    requires Enabled(u, e) && !e.Close? && !e.Init? && !e.Data? && !e.Refill? && !e.Tick?
    ensures Exists(u, e.i)
    ensures var c := Step(u, e).conns[e.i];
      Step(u, e) == WithConn(u, e.i, c) && c.settled == u.conns[e.i].settled && c.closed == u.conns[e.i].closed
  {
  }

  lemma BurstGoesOn(s: State, u: State, e: Event, lost: bool)
    requires SeenAlike(s, u) && OneRound(s, u, lost) && Enabled(u, e)
    requires !e.Close? && !e.Init? && !e.Data? && !e.Refill?
    ensures SeenAlike(s, Step(u, e)) && OneRound(s, Step(u, e), lost)
  {
    if !e.Tick? {
      StepTouches(u, e);
      TouchedGoesOn(s, u, e.i, Step(u, e).conns[e.i], lost);
    }
  }

  lemma BurstNext(s: State, es: seq<Event>, m: nat)
    requires ValidRun(s, es) && m < |es| && InBurst(s, es, m)
    requires SeenAlike(s, StateAt(s, es, m)) && OneRound(s, StateAt(s, es, m), Loses(s, es, m))
    ensures SeenAlike(s, StateAt(s, es, m + 1)) && OneRound(s, StateAt(s, es, m + 1), Loses(s, es, m + 1))
  {
    var u, e := StateAt(s, es, m), es[m];
    StateAtNext(s, es, m);
    if e.Close? {
      EvidenceIsKept(s, es, e.i, m);
      BurstCloses(s, u, e.i, e.random, Loses(s, es, m));
      assert Loses(s, es, m + 1) <==> Loses(s, es, m) || e.i in s.pool || !s.conns[e.i].settled;
    } else {
      BurstGoesOn(s, u, e, Loses(s, es, m));
      assert Loses(s, es, m + 1) <==> Loses(s, es, m);
    }
  }

  lemma {:induction false} BurstSoFar(s: State, es: seq<Event>, m: nat)
    requires ValidRun(s, es) && Burst(s, es) && m <= |es|
    ensures SeenAlike(s, StateAt(s, es, m)) && OneRound(s, StateAt(s, es, m), Loses(s, es, m))
    decreases m
  {
    if m > 0 {
      BurstSoFar(s, es, m - 1);
      assert InBurst(s, es, m - 1);
      BurstNext(s, es, m - 1);
    }
  }

  /**
   However many sockets fail and close together, none is replaced at once, and they make one round between
   them: exactly if one of them was pooled or pending, no refill was armed and the pool is not suspended.
   */
  lemma BurstMakesOneRound(s: State, es: seq<Event>)
    requires ValidRun(s, es) && Burst(s, es)
    ensures |Run(s, es).conns| == |s.conns|
    ensures OneRound(s, Run(s, es), Loses(s, es, |es|))
  {
    BurstSoFar(s, es, |es|);
    StateAtEnd(s, es);
  }
}
