/**
 The preconnect pool of `ReverseTunnelService` as a state machine: the fields of the service, one
 record for every socket it ever opened, the timers the event loop holds, and one transition per
 event handler. Sockets, the server and the network are the environment: they choose which event
 happens next, what it carries and when the clock moves.

 Four fields are history only and influence no transition: `Conn.born`, `Conn.heard`, `State.lost` and
 `State.resetAt`.
 */
module PreconnectPool {
  import opened Options

  const TARGET_POOL_COUNT := 10
  const CONNECT_TIMEOUT_MS := 10_000
  const ACK_TIMEOUT_MS := 5_000
  const HEARTBEAT_INTERVAL_MS := 20_000
  const PONG_TIMEOUT_MS := 5_000

  const FATAL_REJECTIONS: set<string> := {"invalid_signature", "expired", "no_secret"}

  /** A line of the control protocol after parsing. `Open` says whether its port is an integer in 1..65535. */
  datatype Frame =
    | PreOk
    | PreErr(reason: string)
    | Pong
    | Open(portOk: bool)
    | Unknown

  /** A variable that holds a timeout: undefined or cleared, waiting for its due time, or already fired. */
  datatype Deadline = Off | Armed(due: int) | Fired

  /**
   One socket with its `PooledConnection` record and the closure variables of `preconnect`.
   `beats` are the intervals the event loop runs for this socket, by number, with their next due time;
   `heartbeat` is the one interval the connection still holds a handle to.
   */
  datatype Conn = Conn(
    born: int,
    connected: bool,
    destroyed: bool,
    closed: bool,
    settled: bool,
    connectDeadline: Deadline,
    ackDeadline: Deadline,
    heartbeat: Option<nat>,
    beats: map<nat, int>,
    beatsStarted: nat,
    pongDeadline: Deadline,
    unhealthy: bool,
    detached: bool,
    heard: int)

  /**
   The service. `timers` are the refill timeouts the event loop holds, by number, with their due times;
   `refillTimer` is the handle the service keeps. `lost` counts the pending sockets turned away by a
   non-fatal PRE:ERR since the pool was last filled; `resetAt` is when `consecutiveFailures` last became 0.
   */
  datatype State = State(
    now: int,
    conns: seq<Conn>,
    pool: set<nat>,
    pending: int,
    refillTimer: Option<nat>,
    timers: map<nat, int>,
    timersStarted: nat,
    consecutiveFailures: nat,
    suspended: bool,
    started: bool,
    lost: nat,
    resetAt: int)

  function Initial(now: int): State {
    State(now, [], {}, 0, None, map[], 0, 0, false, false, 0, now)
  }

  // ---- connections -------------------------------------------------------------------------------

  function NewConn(now: int): Conn {
    Conn(now, false, false, false, false, Armed(now + CONNECT_TIMEOUT_MS), Off,
         None, map[], 0, Off, false, false, now)
  }

  function Destroyed(c: Conn): Conn {
    c.(destroyed := true)
  }

  function HeartbeatStarted(c: Conn, now: int): Conn {
    c.(heartbeat := Some(c.beatsStarted),
       beats := c.beats[c.beatsStarted := now + HEARTBEAT_INTERVAL_MS],
       beatsStarted := c.beatsStarted + 1)
  }

  /** clearInterval reaches only the interval whose handle the connection still holds. */
  function HeartbeatStopped(c: Conn): Conn {
    c.(heartbeat := None,
       beats := if c.heartbeat.Some? then c.beats - {c.heartbeat.value} else c.beats,
       pongDeadline := Off)
  }

  // ---- filling and backing off -------------------------------------------------------------------

  function Limit(pool: set<nat>): nat {
    if pool == {} then 1 else TARGET_POOL_COUNT
  }

  function Preconnected(s: State): State {
    s.(pending := s.pending + 1, conns := s.conns + [NewConn(s.now)])
  }

  function Filled(s: State, limit: nat): (r: State)
    ensures s.conns <= r.conns
    ensures forall k :: |s.conns| <= k < |r.conns| ==> r.conns[k] == NewConn(s.now)
    ensures r == s.(conns := r.conns, pending := r.pending)
    ensures r.pending - s.pending == |r.conns| - |s.conns|
    ensures r.pending == if |s.pool| + s.pending < limit then limit - |s.pool| else s.pending
    decreases limit - |s.pool| - s.pending
  {
    if |s.pool| + s.pending < limit then Filled(Preconnected(s), limit) else s
  }

  /** formPreconnectPool. */
  function Formed(s: State): State {
    if s.suspended then s else Filled(s, Limit(s.pool)).(lost := 0)
  }

  function Pow2(n: nat): nat {
    if n == 0 then 1 else 2 * Pow2(n - 1)
  }

  const MAX_BACKOFF_MS := 30_000

  /** The delay before jitter of round n, counted from 1. */
  function Backoff(n: nat): nat
    requires n > 0
  {
    var ramp := 500 * Pow2(n - 1);
    if ramp < MAX_BACKOFF_MS then ramp else MAX_BACKOFF_MS
  }

  /** The whole milliseconds of Math.random() * backoffMs * 0.3: timeouts count whole milliseconds. */
  function Jitter(random: real, backoff: nat): int {
    (random * (backoff as real) * 0.3).Floor
  }

  function WithoutRefillTimer(s: State): State {
    s.(refillTimer := None,
       timers := if s.refillTimer.Some? then s.timers - {s.refillTimer.value} else s.timers)
  }

  function RefillScheduled(s: State, random: real): State {
    if s.suspended || s.refillTimer.Some? then s
    else
      var failures := s.consecutiveFailures + 1;
      var delay := Backoff(failures) + Jitter(random, Backoff(failures));
      s.(consecutiveFailures := failures,
         refillTimer := Some(s.timersStarted),
         timers := s.timers[s.timersStarted := s.now + delay],
         timersStarted := s.timersStarted + 1)
  }

  // ---- handlers ----------------------------------------------------------------------------------

  predicate Exists(s: State, i: nat) {
    i < |s.conns|
  }

  function WithConn(s: State, i: nat, c: Conn): State
    requires Exists(s, i)
  {
    s.(conns := s.conns[i := c])
  }

  /** initPreconnectPool: `uuid` and `secret` say whether each of the two was supplied. */
  function Initialized(s: State, uuid: bool, secret: bool): State {
    if uuid && secret
    then Formed(WithoutRefillTimer(s.(suspended := false, consecutiveFailures := 0, resetAt := s.now, started := true)))
    else s
  }

  /** What `settle` leaves in `pending`: the first time it gives the slot back, then nothing. */
  function PendingAfter(s: State, i: nat): int
    requires Exists(s, i)
  {
    if s.conns[i].settled then s.pending else s.pending - 1
  }

  function Settled(s: State, i: nat): State
    requires Exists(s, i)
  {
    WithConn(s, i, s.conns[i].(settled := true)).(pending := PendingAfter(s, i))
  }

  function OnConnect(s: State, i: nat): State
    requires Exists(s, i)
  {
    WithConn(s, i, s.conns[i].(connected := true, connectDeadline := Off,
                               ackDeadline := Armed(s.now + ACK_TIMEOUT_MS)))
  }

  function Acknowledged(c: Conn, now: int): Conn {
    HeartbeatStarted(c.(ackDeadline := Off, settled := true, heard := now), now)
  }

  /** PRE:OK up to the point where the pool is filled. */
  function Accepted(s: State, i: nat): State
    requires Exists(s, i)
  {
    WithConn(s, i, Acknowledged(s.conns[i], s.now)).(pool := s.pool + {i}, pending := PendingAfter(s, i))
  }

  function FailuresForgottenIfFull(s: State): State {
    if |s.pool| >= TARGET_POOL_COUNT then s.(consecutiveFailures := 0, resetAt := s.now) else s
  }

  function OnPreOk(s: State, i: nat): State
    requires Exists(s, i)
  {
    FailuresForgottenIfFull(Formed(Accepted(s, i)))
  }

  /** A fatal reason halts the pool; any other costs a pending socket its slot. */
  function RejectionNoted(s: State, i: nat, reason: string): State
    requires Exists(s, i)
  {
    if reason in FATAL_REJECTIONS then WithoutRefillTimer(s.(suspended := true))
    else if s.conns[i].settled then s
    else s.(lost := s.lost + 1)
  }

  /** The socket gives its pending slot back and is destroyed. */
  function TurnedAway(s: State, i: nat): State
    requires Exists(s, i)
  {
    WithConn(s, i, Destroyed(s.conns[i].(ackDeadline := Off, settled := true))).(pending := PendingAfter(s, i))
  }

  function OnPreErr(s: State, i: nat, reason: string): State
    requires Exists(s, i)
  {
    TurnedAway(RejectionNoted(s, i, reason), i)
  }

  function OnPong(s: State, i: nat): State
    requires Exists(s, i)
  {
    WithConn(s, i, s.conns[i].(pongDeadline := Off, heard := s.now))
  }

  function HandedOver(c: Conn): Conn {
    HeartbeatStopped(c.(detached := true))
  }

  /** OPEN up to the point where the pool is filled. */
  function Consumed(s: State, i: nat): State
    requires Exists(s, i)
  {
    WithConn(s, i, HandedOver(s.conns[i])).(pool := s.pool - {i})
  }

  function OnOpen(s: State, i: nat, portOk: bool): State
    requires Exists(s, i)
  {
    var s1 := Formed(Consumed(s, i));
    if portOk then s1 else WithConn(s1, i, Destroyed(s1.conns[i]))
  }

  function OnFrame(s: State, i: nat, f: Frame): (r: State)
    requires Exists(s, i)
    ensures |r.conns| >= |s.conns|
  {
    match f
    case PreOk => OnPreOk(s, i)
    case PreErr(reason) => OnPreErr(s, i, reason)
    case Pong => OnPong(s, i)
    case Open(portOk) => OnOpen(s, i, portOk)
    case Unknown => s
  }

  /** The frames cut out of one chunk, handled in order until one of them detaches the reader. */
  function OnFrames(s: State, i: nat, frames: seq<Frame>): (r: State)
    requires Exists(s, i)
    ensures |r.conns| >= |s.conns|
    decreases |frames|
  {
    if frames == [] || s.conns[i].detached then s
    else OnFrames(OnFrame(s, i, frames[0]), i, frames[1..])
  }

  function OnError(s: State, i: nat): State
    requires Exists(s, i)
  {
    WithConn(s, i, s.conns[i].(unhealthy := true, destroyed := true))
  }

  function Shut(c: Conn): Conn {
    HeartbeatStopped(c.(closed := true, destroyed := true, connectDeadline := Off, ackDeadline := Off))
  }

  /** The timers and the pool slot given up by every close, whatever the socket was doing. */
  function Released(s: State, i: nat): State
    requires Exists(s, i)
  {
    WithConn(s, i, Shut(s.conns[i])).(pool := s.pool - {i})
  }

  function OnClose(s: State, i: nat, random: real): State
    requires Exists(s, i)
  {
    var wasPooled := i in s.pool;
    var s1 := Released(s, i);
    if !s1.conns[i].settled then RefillScheduled(Settled(s1, i), random)
    else if !wasPooled then s1
    else if s1.conns[i].unhealthy then RefillScheduled(s1, random)
    else Formed(s1)
  }

  function OnConnectTimeout(s: State, i: nat): State
    requires Exists(s, i)
  {
    WithConn(s, i, Destroyed(s.conns[i].(connectDeadline := Off, unhealthy := true)))
  }

  function OnAckTimeout(s: State, i: nat): State
    requires Exists(s, i)
  {
    WithConn(s, i, Destroyed(s.conns[i].(ackDeadline := Fired)))
  }

  /** One tick of interval `id`: it is due again one period later, and asks for a PONG unless one is awaited. */
  function OnHeartbeat(s: State, i: nat, id: nat): State
    requires Exists(s, i)
  {
    var c := s.conns[i].(beats := s.conns[i].beats[id := s.now + HEARTBEAT_INTERVAL_MS]);
    WithConn(s, i, if c.pongDeadline.Off? then c.(pongDeadline := Armed(s.now + PONG_TIMEOUT_MS)) else c)
  }

  function OnPongTimeout(s: State, i: nat): State
    requires Exists(s, i)
  {
    WithConn(s, i, Destroyed(s.conns[i].(pongDeadline := Fired, unhealthy := true)))
  }

  /** The refill timeout `id` fires: the event loop drops it, the callback forgets the handle and fills. */
  function OnRefill(s: State, id: nat): State {
    Formed(s.(timers := s.timers - {id}, refillTimer := None))
  }

  // ---- events and runs ---------------------------------------------------------------------------

  datatype Event =
    | Init(uuid: bool, secret: bool)
    | Connect(i: nat)
    | Data(i: nat, frames: seq<Frame>)
    | Error(i: nat)
    | Close(i: nat, random: real)
    | ConnectTimeout(i: nat)
    | AckTimeout(i: nat)
    | Heartbeat(i: nat, id: nat)
    | PongTimeout(i: nat)
    | Refill(id: nat)
    | Tick(to: int)

  predicate Due(d: Deadline, now: int) {
    d.Armed? && d.due <= now
  }

  /**
   What the environment may do. A socket connects and closes at most once; it does not connect after it
   was destroyed, and it delivers no data before it connected nor after it was destroyed, closed or
   handed over. Timers may fire late but never early.
   */
  predicate Enabled(s: State, e: Event) {
    match e
    case Init(_, _) => true
    case Connect(i) => Exists(s, i) && !s.conns[i].connected && !s.conns[i].destroyed && !s.conns[i].closed
    case Data(i, _) =>
      && Exists(s, i) && s.conns[i].connected
      && !s.conns[i].destroyed && !s.conns[i].closed && !s.conns[i].detached
    case Error(i) => Exists(s, i) && !s.conns[i].closed
    case Close(i, random) => Exists(s, i) && !s.conns[i].closed && 0.0 <= random < 1.0
    case ConnectTimeout(i) => Exists(s, i) && Due(s.conns[i].connectDeadline, s.now)
    case AckTimeout(i) => Exists(s, i) && Due(s.conns[i].ackDeadline, s.now)
    case Heartbeat(i, id) => Exists(s, i) && id in s.conns[i].beats && s.conns[i].beats[id] <= s.now
    case PongTimeout(i) => Exists(s, i) && Due(s.conns[i].pongDeadline, s.now)
    case Refill(id) => id in s.timers && s.timers[id] <= s.now
    case Tick(to) => s.now <= to
  }

  function Step(s: State, e: Event): State
    requires Enabled(s, e)
  {
    match e
    case Init(uuid, secret) => Initialized(s, uuid, secret)
    case Connect(i) => OnConnect(s, i)
    case Data(i, frames) => OnFrames(s, i, frames)
    case Error(i) => OnError(s, i)
    case Close(i, random) => OnClose(s, i, random)
    case ConnectTimeout(i) => OnConnectTimeout(s, i)
    case AckTimeout(i) => OnAckTimeout(s, i)
    case Heartbeat(i, id) => OnHeartbeat(s, i, id)
    case PongTimeout(i) => OnPongTimeout(s, i)
    case Refill(id) => OnRefill(s, id)
    case Tick(to) => s.(now := to)
  }

  predicate ValidRun(s: State, es: seq<Event>)
    decreases |es|
  {
    es == [] || (Enabled(s, es[0]) && ValidRun(Step(s, es[0]), es[1..]))
  }

  function Run(s: State, es: seq<Event>): State
    requires ValidRun(s, es)
    decreases |es|
  {
    if es == [] then s else Run(Step(s, es[0]), es[1..])
  }

  lemma RunCons(s: State, e: Event, es: seq<Event>)
    requires Enabled(s, e) && ValidRun(Step(s, e), es)
    ensures ValidRun(s, [e] + es) && Run(s, [e] + es) == Run(Step(s, e), es)
  {
    assert ([e] + es)[1..] == es;
  }

  /** How many PRE:OK lines there are among some frames. */
  function PreOks(frames: seq<Frame>): nat {
    if frames == [] then 0 else (if frames[0].PreOk? then 1 else 0) + PreOks(frames[1..])
  }

  ghost predicate Reachable(s: State) {
    exists now: int, es: seq<Event> :: ValidRun(Initial(now), es) && Run(Initial(now), es) == s
  }
}
