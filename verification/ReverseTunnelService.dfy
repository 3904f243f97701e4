/**
 The service itself: its fields, its `PooledConnection` records and its event handlers, statement by
 statement. Each handler is proved to be the transition of the state machine in `PreconnectPool`, and the
 data handler to be the reader of `LineReader`, so what is proved of those two holds of the service.

 The socket, the event loop and the local service are fields too: what the code asks of them
 (net.connect, destroy, setTimeout, clearInterval, write, pipe) is an assignment to their fields.
 */
module ReverseTunnel {
  import opened Options
  import opened PreconnectPool
  import opened LineReader

  /** One socket with its record and the closure variables of `preconnect`. */
  class PooledConnection {
    const id: nat
    const born: int

    // the socket, as the environment left it
    var connected: bool
    var destroyed: bool
    var closed: bool
    var beats: map<nat, int>
    var beatsStarted: nat
    var backlog: Bytes
    var piped: bool
    var toLocal: Bytes

    // the record and the closure variables
    var buffer: Bytes
    var detached: bool
    var settled: bool
    var connectDeadline: Deadline
    var ackDeadline: Deadline
    var heartbeat: Option<nat>
    var pongDeadline: Deadline
    var unhealthy: bool

    ghost var heard: int
    ghost var lines: seq<Bytes>

    constructor (id: nat, now: int)
      ensures this.id == id && View() == NewConn(now) && Carried() == FreshTunnel
    {
      this.id, born := id, now;
      connected, destroyed, closed, settled := false, false, false, false;
      connectDeadline, ackDeadline, pongDeadline := Armed(now + CONNECT_TIMEOUT_MS), Off, Off;
      heartbeat, beats, beatsStarted := None, map[], 0;
      unhealthy, detached, piped := false, false, false;
      buffer, backlog, toLocal := [], [], [];
      heard, lines := now, [];
    }

    ghost function View(): Conn
      reads this
    {
      Conn(born, connected, destroyed, closed, settled, connectDeadline, ackDeadline, heartbeat, beats,
           beatsStarted, pongDeadline, unhealthy, detached, heard)
    }

    /** What became of the bytes of this socket. */
    ghost function Carried(): Tunnel
      reads this
    {
      LineReader.Tunnel(buffer, detached, lines, backlog, piped, toLocal)
    }

    method StartHeartbeat(now: int)
      modifies `beats, `heartbeat, `beatsStarted
      ensures View() == HeartbeatStarted(old(View()), now) && Carried() == old(Carried())
    {
      beats := beats[beatsStarted := now + HEARTBEAT_INTERVAL_MS];
      heartbeat := Some(beatsStarted);
      beatsStarted := beatsStarted + 1;
    }

    method StopHeartbeat()
      modifies `beats, `heartbeat, `pongDeadline
      ensures View() == HeartbeatStopped(old(View())) && Carried() == old(Carried())
    {
      if heartbeat.Some? {
        beats := beats - {heartbeat.value};
      }
      pongDeadline := Off;
      heartbeat := None;
    }

    /** The local service accepted the connection: the left-over bytes first, then the tunnel's stream. */
    method OnLocalConnect()
      modifies this
      ensures View() == old(View()) && Carried() == LocalConnected(old(Carried()))
    {
      if detached && !piped {
        if |buffer| > 0 {
          toLocal := buffer;
        } else {
          toLocal := [];
        }
        toLocal := toLocal + backlog;
        backlog, piped := [], true;
      }
    }
  }

  ghost function Views(cs: seq<PooledConnection>): (r: seq<Conn>)
    reads cs
    ensures |r| == |cs|
    ensures forall k :: 0 <= k < |cs| ==> r[k] == cs[k].View()
  {
    seq(|cs|, (k: nat) requires k < |cs| reads cs => cs[k].View())
  }

  ghost function Ids(cs: set<PooledConnection>): set<nat> {
    set c | c in cs :: c.id
  }

  ghost predicate Numbered(cs: seq<PooledConnection>) {
    forall k :: 0 <= k < |cs| ==> cs[k].id == k
  }

  lemma {:induction false} IdsCount(cs: seq<PooledConnection>, pool: set<PooledConnection>)
    requires Numbered(cs) && forall c :: c in pool ==> c in cs
    ensures |Ids(pool)| == |pool|
    decreases |pool|
  {
    if pool != {} {
      var c :| c in pool;
      IdsCount(cs, pool - {c});
      assert Ids(pool) == Ids(pool - {c}) + {c.id};
      assert c.id !in Ids(pool - {c});
    }
  }

  lemma FilledOneMore(s: State, limit: nat)
    requires |s.pool| + s.pending < limit
    ensures Filled(s, limit) == Filled(Preconnected(s), limit)
  {
  }

  lemma OnFramesOneMore(s: State, i: nat, f: Frame, more: seq<Frame>)
    requires Exists(s, i) && !s.conns[i].detached
    ensures OnFrames(s, i, [f] + more) == OnFrames(OnFrame(s, i, f), i, more)
  {
    assert ([f] + more)[1..] == more;
  }

  /** Of all frames only OPEN detaches the reader. */
  lemma OpenDetaches(s: State, i: nat, f: Frame)
    requires Exists(s, i)
    ensures OnFrame(s, i, f).conns[i].detached == (s.conns[i].detached || f.Open?)
  {
    match f
    case PreOk => assert OnPreOk(s, i).conns[i] == Accepted(s, i).conns[i];
    case Open(portOk) => assert Formed(Consumed(s, i)).conns[i] == Consumed(s, i).conns[i];
    case PreErr(reason) => assert OnPreErr(s, i, reason).conns[i].detached == s.conns[i].detached;
    case _ =>
  }

  class ReverseTunnelService {
    const decode: Bytes -> Frame

    // the environment: the clock, every socket ever opened, the refill timeouts of the event loop
    var now: int
    var conns: seq<PooledConnection>
    var timers: map<nat, int>
    var timersStarted: nat

    var pool: set<PooledConnection>
    var pending: int
    var refillTimer: Option<nat>
    var consecutiveFailures: nat
    var suspended: bool
    var started: bool

    ghost var lost: nat
    ghost var resetAt: int

    ghost predicate Valid()
      reads this
    {
      Numbered(conns) && forall c :: c in pool ==> c in conns
    }

    predicate Has(c: PooledConnection)
      reads this
    {
      c.id < |conns| && conns[c.id] == c
    }

    ghost function Abs(): State
      reads this, conns
    {
      State(now, Views(conns), Ids(pool), pending, refillTimer, timers, timersStarted, consecutiveFailures,
            suspended, started, lost, resetAt)
    }

    predicate IsOpen(line: Bytes) {
      decode(line).Open?
    }

    constructor (decode: Bytes -> Frame, now: int)
      ensures Valid() && Abs() == Initial(now) && this.decode == decode
    {
      this.decode := decode;
      this.now := now;
      conns, timers, timersStarted := [], map[], 0;
      pool, pending, refillTimer := {}, 0, None;
      consecutiveFailures, suspended, started := 0, false, false;
      lost, resetAt := 0, now;
    }

    method InitPreconnectPool(uuid: bool, secret: bool)
      requires Valid()
      modifies this
      ensures Valid() && Abs() == Initialized(old(Abs()), uuid, secret)
    {
      var available := true;
      if !uuid {
        available := false;
      }
      if !secret {
        available := false;
      }
      if !available {
        return;
      }
      StartAfresh();
      FormPreconnectPool();
    }

    /** A fresh registration clears earlier rejections and the backoff. */
    method StartAfresh()
      requires Valid()
      modifies this`started, this`suspended, this`consecutiveFailures, this`resetAt, this`timers, this`refillTimer
      ensures Abs() == WithoutRefillTimer(
        old(Abs()).(suspended := false, consecutiveFailures := 0, resetAt := now, started := true))
    {
      started := true;
      suspended := false;
      consecutiveFailures := 0;
      resetAt := now;
      ClearRefillTimer();
    }

    method ClearRefillTimer()
      modifies this`timers, this`refillTimer
      ensures Abs() == WithoutRefillTimer(old(Abs()))
    {
      if refillTimer.Some? {
        timers := timers - {refillTimer.value};
      }
      refillTimer := None;
    }

    method FormPreconnectPool()
      requires Valid()
      modifies this
      ensures Valid() && Abs() == Formed(old(Abs()))
      ensures old(conns) <= conns
    {
      if suspended {
        return;
      }
      IdsCount(conns, pool);
      var limit := if |pool| == 0 then 1 else TARGET_POOL_COUNT;
      assert limit == Limit(Ids(pool));
      FillUpTo(limit);
      lost := 0;
    }

    /** The while loop of formPreconnectPool. */
    method FillUpTo(limit: nat)
      requires Valid()
      modifies this`pending, this`conns
      ensures Valid() && Abs() == Filled(old(Abs()), limit)
      ensures old(conns) <= conns
    {
      IdsCount(conns, pool);
      while |pool| + pending < limit
        invariant Valid() && old(conns) <= conns
        invariant Filled(Abs(), limit) == Filled(old(Abs()), limit)
        decreases limit - |pool| - pending
      {
        FilledOneMore(Abs(), limit);
        Preconnect();
      }
    }

    method Preconnect()
      requires Valid()
      modifies this`pending, this`conns
      ensures Valid() && Abs() == Preconnected(old(Abs()))
      ensures |conns| == |old(conns)| + 1 && conns[..|old(conns)|] == old(conns) && fresh(conns[|old(conns)|])
    {
      pending := pending + 1;
      var connection := new PooledConnection(|conns|, now);
      conns := conns + [connection];
      assert Views(conns) == old(Views(conns)) + [NewConn(now)];
    }

    /** Only `c`, the pool and `pending` changed. */
    twostate lemma OnlyChanged(c: PooledConnection)
      requires Valid() && Has(c) && conns == old(conns)
      requires forall k :: 0 <= k < |conns| && conns[k] != c ==> unchanged(conns[k])
      requires now == old(now) && timers == old(timers) && timersStarted == old(timersStarted)
      requires refillTimer == old(refillTimer) && consecutiveFailures == old(consecutiveFailures)
      requires suspended == old(suspended) && started == old(started)
      requires lost == old(lost) && resetAt == old(resetAt)
      ensures Abs() == WithConn(old(Abs()), c.id, c.View()).(pool := Ids(pool), pending := pending)
      ensures old(Abs()).conns[c.id] == old(c.View())
    {
      assert Views(conns) == old(Views(conns))[c.id := c.View()];
    }

    /** settle(): pending is given back once per socket. */
    method Settle(c: PooledConnection)
      requires Valid() && Has(c)
      modifies this`pending, c`settled
      ensures c.View() == old(c.View()).(settled := true) && c.Carried() == old(c.Carried())
      ensures pending == if old(c.settled) then old(pending) else old(pending) - 1
    {
      if c.settled {
        return;
      }
      c.settled := true;
      pending := pending - 1;
    }

    // ---- socket events -----------------------------------------------------------------------------

    method HandleConnect(c: PooledConnection)
      requires Valid() && Has(c)
      modifies c
      ensures Abs() == OnConnect(old(Abs()), c.id) && c.Carried() == old(c.Carried())
    {
      c.connectDeadline := Off;
      c.connected := true;
      c.ackDeadline := Armed(now + ACK_TIMEOUT_MS);
      OnlyChanged(c);
    }

    /** A chunk arrives. The reader takes it until it is detached; after that it waits or flows on. */
    method OnArrival(c: PooledConnection, chunk: Bytes)
      requires Valid() && Has(c)
      modifies this, c
      ensures Valid() && c.Carried() == Arrived(old(c.Carried()), chunk, IsOpen)
      ensures Abs() == Dispatched(old(Abs()), c.id, old(c.buffer) + chunk)
    {
      assert Abs().conns[c.id] == c.View();
      if c.detached {
        if c.piped {
          c.toLocal := c.toLocal + chunk;
        } else {
          c.backlog := c.backlog + chunk;
        }
        assert Views(conns) == old(Views(conns));
      } else {
        OnData(c, chunk);
      }
    }

    function Frames(lines: seq<Bytes>): (r: seq<Frame>)
      ensures |r| == |lines| && forall k :: 0 <= k < |r| ==> r[k] == decode(lines[k])
    {
      seq(|lines|, (k: nat) requires k < |lines| => decode(lines[k]))
    }

    /** What handling every complete line of `buffer` makes of the service. */
    function Dispatched(s: State, i: nat, buffer: Bytes): State
      requires Exists(s, i)
    {
      OnFrames(s, i, Frames(Drain(buffer, IsOpen).lines))
    }

    lemma FramesOfMore(line: Bytes, lines: seq<Bytes>)
      ensures Frames([line] + lines) == [decode(line)] + Frames(lines)
    {
    }

    /** One round of the reader's loop leaves that the same. */
    lemma DispatchedOneLine(s: State, i: nat, buffer: Bytes, index: nat)
      requires Exists(s, i) && !s.conns[i].detached && IndexOf(buffer, NEWLINE) == Some(index)
      ensures Dispatched(OnFrame(s, i, decode(buffer[..index])), i, buffer[index + 1..]) == Dispatched(s, i, buffer)
    {
      var line, after := buffer[..index], buffer[index + 1..];
      var f := decode(line);
      OpenDetaches(s, i, f);
      if IsOpen(line) {
        FramesOfMore(line, []);
        assert [line] + [] == [line];
        OnFramesOneMore(s, i, f, Frames([]));
      } else {
        FramesOfMore(line, Drain(after, IsOpen).lines);
        OnFramesOneMore(s, i, f, Frames(Drain(after, IsOpen).lines));
      }
    }

    /** onData of attachLineReader. */
    method OnData(c: PooledConnection, chunk: Bytes)
      requires Valid() && Has(c) && !c.detached
      modifies this, c
      ensures Valid() && c.Carried() == Arrived(old(c.Carried()), chunk, IsOpen)
      ensures Abs() == Dispatched(old(Abs()), c.id, old(c.buffer) + chunk)
    {
      c.buffer := c.buffer + chunk;
      assert Views(conns) == old(Views(conns));
      assert Abs() == old(Abs());
      while !c.detached
        invariant Valid() && Has(c)
        invariant ReadOut(c.Carried(), IsOpen) == Arrived(old(c.Carried()), chunk, IsOpen)
        invariant Dispatched(Abs(), c.id, c.buffer) == Dispatched(old(Abs()), c.id, old(c.buffer) + chunk)
        decreases if c.detached then 0 else 1, |c.buffer|
      {
        var index := IndexOf(c.buffer, NEWLINE);
        if index.None? {
          NothingToRead(c);
          return;
        }
        assert Abs().conns[c.id] == c.View();
        ReadOutOneLine(c.Carried(), index.value, IsOpen);
        DispatchedOneLine(Abs(), c.id, c.buffer, index.value);
        HandleLine(c, index.value);
      }
      assert Abs().conns[c.id] == c.View();
    }

    lemma NothingToRead(c: PooledConnection)
      requires Has(c) && !c.detached && IndexOf(c.buffer, NEWLINE).None?
      ensures ReadOut(c.Carried(), IsOpen) == c.Carried() && Dispatched(Abs(), c.id, c.buffer) == Abs()
    {
      assert Frames([]) == [];
      assert c.lines + [] == c.lines;
    }

    /** One line is cut out of the buffer and dispatched. */
    method HandleLine(c: PooledConnection, index: nat)
      requires Valid() && Has(c) && index < |c.buffer|
      modifies this, c
      ensures Valid() && Has(c) && Abs() == OnFrame(old(Abs()), c.id, decode(old(c.buffer)[..index]))
      ensures c.Carried() == OneLineRead(old(c.Carried()), index, IsOpen)
    {
      var line := c.buffer[..index];
      c.buffer := c.buffer[index + 1..];
      c.lines := c.lines + [line];
      assert Views(conns) == old(Views(conns));
      Handle(c, decode(line));
    }

    method Handle(c: PooledConnection, frame: Frame)
      requires Valid() && Has(c)
      modifies this, c
      ensures Valid() && Has(c) && Abs() == OnFrame(old(Abs()), c.id, frame)
      ensures c.Carried() == old(c.Carried()).(detached := c.detached)
      ensures c.detached == (old(c.detached) || frame.Open?)
    {
      match frame
      case PreOk => HandlePreOk(c);
      case PreErr(reason) => HandlePreErr(c, reason);
      case Pong => HandlePong(c);
      case Open(portOk) => HandleOpen(c, portOk);
      case Unknown =>
    }

    /** PRE:OK and PRE:ERR alike: the ack deadline is cleared and the pending slot given back. */
    method EndPending(c: PooledConnection)
      requires Valid() && Has(c)
      modifies this`pending, c`ackDeadline, c`settled
      ensures c.ackDeadline == Off && c.settled
      ensures pending == PendingAfter(old(Abs()), c.id)
    {
      c.ackDeadline := Off;
      Settle(c);
    }

    method HandlePreOk(c: PooledConnection)
      requires Valid() && Has(c)
      modifies this, c
      ensures Valid() && Has(c) && Abs() == OnPreOk(old(Abs()), c.id)
      ensures c.Carried() == old(c.Carried())
    {
      Accept(c);
      FormPreconnectPool();
      ForgetFailuresIfFull();
    }

    method Accept(c: PooledConnection)
      requires Valid() && Has(c)
      modifies this`pending, this`pool, c
      ensures Valid() && Abs() == Accepted(old(Abs()), c.id) && c.Carried() == old(c.Carried())
    {
      EndPending(c);
      pool := pool + {c};
      assert Ids(pool) == old(Ids(pool)) + {c.id};
      c.heard := now;
      c.StartHeartbeat(now);
      assert c.View() == Acknowledged(old(c.View()), now);
      OnlyChanged(c);
    }

    method ForgetFailuresIfFull()
      requires Valid()
      modifies this`consecutiveFailures, this`resetAt
      ensures Abs() == FailuresForgottenIfFull(old(Abs()))
    {
      IdsCount(conns, pool);
      if |pool| >= TARGET_POOL_COUNT {
        consecutiveFailures := 0;
        resetAt := now;
      }
    }

    method HandlePreErr(c: PooledConnection, reason: string)
      requires Valid() && Has(c)
      modifies this, c
      ensures Valid() && Has(c) && Abs() == OnPreErr(old(Abs()), c.id, reason)
      ensures c.Carried() == old(c.Carried())
    {
      NoteRejection(c, reason);
      TurnAway(c);
    }

    method NoteRejection(c: PooledConnection, reason: string)
      requires Valid() && Has(c)
      modifies this`suspended, this`timers, this`refillTimer, this`lost
      ensures Abs() == RejectionNoted(old(Abs()), c.id, reason)
    {
      if reason in FATAL_REJECTIONS {
        suspended := true;
        ClearRefillTimer();
      } else if !c.settled {
        lost := lost + 1;
      }
    }

    method TurnAway(c: PooledConnection)
      requires Valid() && Has(c)
      modifies this`pending, c`ackDeadline, c`settled, c`destroyed
      ensures Abs() == TurnedAway(old(Abs()), c.id) && c.Carried() == old(c.Carried())
    {
      EndPending(c);
      c.destroyed := true;
      assert c.View() == Destroyed(old(c.View()).(ackDeadline := Off, settled := true));
      OnlyChanged(c);
    }

    method HandlePong(c: PooledConnection)
      requires Valid() && Has(c)
      modifies c
      ensures Abs() == OnPong(old(Abs()), c.id) && c.Carried() == old(c.Carried())
    {
      c.pongDeadline := Off;
      c.heard := now;
      OnlyChanged(c);
    }

    method HandleOpen(c: PooledConnection, portOk: bool)
      requires Valid() && Has(c)
      modifies this, c
      ensures Valid() && Has(c) && Abs() == OnOpen(old(Abs()), c.id, portOk)
      ensures c.Carried() == old(c.Carried()).(detached := true)
    {
      Consume(c);
      FormPreconnectPool();
      if !portOk {
        Destroy(c);
      }
    }

    method Consume(c: PooledConnection)
      requires Valid() && Has(c)
      modifies this`pool, c
      ensures Valid() && Abs() == Consumed(old(Abs()), c.id)
      ensures c.Carried() == old(c.Carried()).(detached := true)
    {
      c.detached := true;
      c.StopHeartbeat();
      pool := pool - {c};
      assert Ids(pool) == old(Ids(pool)) - {c.id};
      assert c.View() == HandedOver(old(c.View()));
      OnlyChanged(c);
    }

    method Destroy(c: PooledConnection)
      requires Valid() && Has(c)
      modifies c`destroyed
      ensures Abs() == WithConn(old(Abs()), c.id, Destroyed(old(c.View())))
    {
      c.destroyed := true;
      OnlyChanged(c);
    }

    method HandleError(c: PooledConnection)
      requires Valid() && Has(c)
      modifies c
      ensures Abs() == OnError(old(Abs()), c.id) && c.Carried() == old(c.Carried())
    {
      c.unhealthy := true;
      c.destroyed := true;
      OnlyChanged(c);
    }

    method HandleClose(c: PooledConnection, random: real)
      requires Valid() && Has(c)
      modifies this, c
      ensures Valid() && Abs() == OnClose(old(Abs()), c.id, random) && c.Carried() == old(c.Carried())
    {
      var wasPooled := Release(c);
      if !c.settled {
        GiveUpPending(c);
        ScheduleRefill(random);
        return;
      }
      if !wasPooled {
        return;
      }
      if c.unhealthy {
        ScheduleRefill(random);
      } else {
        FormPreconnectPool();
      }
    }

    method GiveUpPending(c: PooledConnection)
      requires Valid() && Has(c)
      modifies this`pending, c`settled
      ensures Abs() == Settled(old(Abs()), c.id) && c.Carried() == old(c.Carried())
    {
      Settle(c);
      OnlyChanged(c);
    }

    method Release(c: PooledConnection) returns (wasPooled: bool)
      requires Valid() && Has(c)
      modifies this`pool, c
      ensures Valid() && Abs() == Released(old(Abs()), c.id) && c.Carried() == old(c.Carried())
      ensures wasPooled == (c.id in old(Ids(pool)))
      ensures c.settled == old(c.settled) && c.unhealthy == old(c.unhealthy)
    {
      c.closed, c.destroyed := true, true;
      c.connectDeadline := Off;
      c.ackDeadline := Off;
      c.StopHeartbeat();
      wasPooled := c in pool;
      pool := pool - {c};
      assert Ids(pool) == old(Ids(pool)) - {c.id};
      assert c.View() == Shut(old(c.View()));
      OnlyChanged(c);
    }

    method ScheduleRefill(random: real)
      requires Valid()
      modifies this`consecutiveFailures, this`refillTimer, this`timers, this`timersStarted
      ensures Abs() == RefillScheduled(old(Abs()), random)
    {
      if suspended || refillTimer.Some? {
        return;
      }
      consecutiveFailures := consecutiveFailures + 1;
      var backoffMs := Backoff(consecutiveFailures);
      var jitter := Jitter(random, backoffMs);
      refillTimer := Some(timersStarted);
      timers := timers[timersStarted := now + (backoffMs + jitter)];
      timersStarted := timersStarted + 1;
    }

    // ---- timers ------------------------------------------------------------------------------------

    /** The callback of the refill timeout `id`, after the event loop dropped it. */
    method FireRefill(id: nat)
      requires Valid()
      modifies this
      ensures Valid() && Abs() == OnRefill(old(Abs()), id)
    {
      timers := timers - {id};
      refillTimer := None;
      FormPreconnectPool();
    }

    method FireConnectDeadline(c: PooledConnection)
      requires Valid() && Has(c)
      modifies c
      ensures Abs() == OnConnectTimeout(old(Abs()), c.id) && c.Carried() == old(c.Carried())
    {
      c.connectDeadline := Off;
      c.unhealthy := true;
      c.destroyed := true;
      OnlyChanged(c);
    }

    method FireAckDeadline(c: PooledConnection)
      requires Valid() && Has(c)
      modifies c
      ensures Abs() == OnAckTimeout(old(Abs()), c.id) && c.Carried() == old(c.Carried())
    {
      c.ackDeadline := Fired;
      c.destroyed := true;
      OnlyChanged(c);
    }

    /** The interval callback of startHeartbeat; the event loop has it due again one period later. */
    method FireHeartbeat(c: PooledConnection, id: nat)
      requires Valid() && Has(c)
      modifies c
      ensures Abs() == OnHeartbeat(old(Abs()), c.id, id) && c.Carried() == old(c.Carried())
    {
      c.beats := c.beats[id := now + HEARTBEAT_INTERVAL_MS];
      if c.pongDeadline.Off? {
        c.pongDeadline := Armed(now + PONG_TIMEOUT_MS);
      }
      OnlyChanged(c);
    }

    method FirePongDeadline(c: PooledConnection)
      requires Valid() && Has(c)
      modifies c
      ensures Abs() == OnPongTimeout(old(Abs()), c.id) && c.Carried() == old(c.Carried())
    {
      c.pongDeadline := Fired;
      c.unhealthy := true;
      c.destroyed := true;
      OnlyChanged(c);
    }
  }
}
