/**
 Does the pool heal? From every state in which it works at all, a server that acknowledges every socket
 brings it back to the target, whatever happened before and whatever order the events come in.
 */
module PoolRecovery {
  import opened Options
  import opened PreconnectPool
  import opened PoolAccounting
  import opened PoolProgress

  /** Started, neither halted nor stalled. */
  ghost predicate Working(s: State) {
    Inv(s) && SlotsAccounted(s) && s.started && !s.suspended && !Stalled(s)
  }

  // ---- friendly events ---------------------------------------------------------------------------

  /**
   What brings the pool forward: a socket connects, the server acknowledges it, a destroyed socket closes, a
   refill fires. A socket handed over before it was acknowledged runs into its acknowledgement timeout.
   */
  predicate Helps(s: State, e: Event) {
    Enabled(s, e) &&
    match e
    case Connect(_) => true
    case Data(i, frames) => frames == [PreOk] && !s.conns[i].settled
    case Close(i, _) => s.conns[i].destroyed
    case AckTimeout(i) => s.conns[i].detached && !s.conns[i].destroyed
    case Refill(_) => true
    case _ => false
  }

  /** Time passes, the server answers the PINGs, and destroyed sockets report errors and expired deadlines. */
  predicate Idles(s: State, e: Event) {
    Enabled(s, e) &&
    match e
    case Tick(_) => true
    case Heartbeat(_, _) => true
    case Data(_, frames) => frames == [Pong]
    case Error(i) => s.conns[i].destroyed
    case ConnectTimeout(i) => s.conns[i].destroyed
    case AckTimeout(i) => s.conns[i].destroyed
    case PongTimeout(i) => s.conns[i].destroyed
    case _ => false
  }

  predicate FriendlyRun(s: State, es: seq<Event>)
    decreases |es|
  {
    es == [] || ((Helps(s, es[0]) || Idles(s, es[0])) && FriendlyRun(Step(s, es[0]), es[1..]))
  }

  /** How many events of a run helped. */
  function Helpful(s: State, es: seq<Event>): nat
    requires ValidRun(s, es)
    decreases |es|
  {
    if es == [] then 0 else (if Helps(s, es[0]) then 1 else 0) + Helpful(Step(s, es[0]), es[1..])
  }

  /** No event helps, now or later. */
  ghost predicate NothingHelps(s: State) {
    forall to: int, e :: s.now <= to ==> !Helps(s.(now := to), e)
  }

  // ---- what is left to do ------------------------------------------------------------------------

  /** What one socket may still cost. */
  function Chores(c: Conn): nat {
    if c.closed then 0
    else if c.destroyed then 50
    else if c.settled then 0
    else if c.detached then 60
    else if c.connected then 0
    else 1
  }

  function AllChores(conns: seq<Conn>): nat {
    if conns == [] then 0 else AllChores(conns[..|conns| - 1]) + Chores(conns[|conns| - 1])
  }

  /** An upper bound for the helping events that are still to come. */
  function Effort(s: State): int {
    AllChores(s.conns) + 24 * (TARGET_POOL_COUNT - |s.pool|) + if s.refillTimer.Some? then 11 else 0
  }

  lemma {:induction false} ChoresUpdate(conns: seq<Conn>, i: nat, c: Conn)
    requires i < |conns|
    ensures AllChores(conns[i := c]) == AllChores(conns) - Chores(conns[i]) + Chores(c)
    decreases |conns|
  {
    var n := |conns| - 1;
    if i < n {
      ChoresUpdate(conns[..n], i, c);
      assert conns[i := c][..n] == conns[..n][i := c];
    } else {
      assert conns[i := c][..n] == conns[..n];
    }
  }

  lemma {:induction false} ChoresAppend(conns: seq<Conn>, more: seq<Conn>)
    requires forall k :: 0 <= k < |more| ==> Chores(more[k]) == 1
    ensures AllChores(conns + more) == AllChores(conns) + |more|
    decreases |more|
  {
    if more == [] {
      assert conns + more == conns;
    } else {
      var n := |more| - 1;
      ChoresAppend(conns, more[..n]);
      assert (conns + more)[..|conns| + n] == conns + more[..n];
    }
  }

  lemma FormedChores(s: State)
    ensures AllChores(Formed(s).conns) == AllChores(s.conns) + |Formed(s).conns| - |s.conns|
  {
    var all := Formed(s).conns;
    var more := all[|s.conns|..];
    forall k | 0 <= k < |more| ensures Chores(more[k]) == 1 {
      assert more[k] == all[|s.conns| + k] == NewConn(s.now);
    }
    assert all == s.conns + more;
    ChoresAppend(s.conns, more);
  }

  /** Filling costs one event for each new socket, and there are ten at most. */
  lemma FormedEffort(s: State)
    requires s.pending >= 0
    ensures Effort(Formed(s)) <= Effort(s) + 10
  {
    FormedChores(s);
  }

  lemma ConnectHelps(s: State, i: nat)
    requires Working(s) && Helps(s, Connect(i))
    ensures Working(OnConnect(s, i)) && Effort(OnConnect(s, i)) < Effort(s)
  {
    var t := OnConnect(s, i);
    StepKeepsInv(s, Connect(i));
    assert ConnOk(s.conns[i], i in s.pool);
    ChoresUpdate(s.conns, i, t.conns[i]);
  }

  lemma AcceptedEffort(s: State, i: nat)
    requires Working(s) && Helps(s, Data(i, [PreOk]))
    ensures Effort(Accepted(s, i)) == Effort(s) - 24
  {
    assert ConnOk(s.conns[i], i in s.pool);
    ChoresUpdate(s.conns, i, Accepted(s, i).conns[i]);
    assert |s.pool + {i}| == |s.pool| + 1;
  }

  lemma AckKeepsWorking(s: State, i: nat)
    requires Working(s) && InvInChunk(s, i) && !s.conns[i].detached
    ensures Working(OnPreOk(s, i))
  {
    OnPreOkKeepsInv(s, i);
    AcceptedKeepsInv(s, i);
    FormedAccounts(Accepted(s, i));
  }

  lemma AckHelps(s: State, i: nat)
    requires Working(s) && Helps(s, Data(i, [PreOk]))
    ensures Working(OnPreOk(s, i)) && Effort(OnPreOk(s, i)) < Effort(s)
  {
    assert ConnOk(s.conns[i], i in s.pool);
    AckKeepsWorking(s, i);
    AcceptedEffort(s, i);
    AcceptedKeepsInv(s, i);
    FormedEffort(Accepted(s, i));
  }

  lemma CloseHelps(s: State, i: nat, random: real)
    requires Working(s) && Helps(s, Close(i, random))
    ensures Working(OnClose(s, i, random)) && Effort(OnClose(s, i, random)) < Effort(s)
  {
    var r := Settled(Released(s, i), i);
    StepKeepsInv(s, Close(i, random));
    OnCloseAccounts(s, i, random);
    ReleasedThenSettledKeepsInv(s, i);
    OnCloseIs(s, i, random);
    assert |s.pool - {i}| >= |s.pool| - 1;
    assert r.conns == s.conns[i := r.conns[i]];
    ChoresUpdate(s.conns, i, r.conns[i]);
    FormedEffort(r);
  }

  lemma AckTimeoutHelps(s: State, i: nat)
    requires Working(s) && Helps(s, AckTimeout(i))
    ensures Working(OnAckTimeout(s, i)) && Effort(OnAckTimeout(s, i)) < Effort(s)
  {
    var t := OnAckTimeout(s, i);
    StepKeepsInv(s, AckTimeout(i));
    assert ConnOk(s.conns[i], i in s.pool);
    ChoresUpdate(s.conns, i, t.conns[i]);
  }

  lemma RefillHelps(s: State, id: nat)
    requires Working(s) && Helps(s, Refill(id))
    ensures Working(OnRefill(s, id)) && Effort(OnRefill(s, id)) < Effort(s)
  {
    var r := s.(timers := s.timers - {id}, refillTimer := None);
    assert id in s.timers.Keys;
    StepKeepsInv(s, Refill(id));
    FormedAccounts(r);
    FormedEffort(r);
  }

  lemma OneFrame(s: State, i: nat, f: Frame)
    requires Exists(s, i) && !s.conns[i].detached
    ensures OnFrames(s, i, [f]) == OnFrame(s, i, f)
  {
    assert OnFrames(OnFrame(s, i, f), i, [f][1..]) == OnFrame(s, i, f);
  }

  lemma HelpHelps(s: State, e: Event)
    requires Working(s) && Helps(s, e)
    ensures Working(Step(s, e)) && Effort(Step(s, e)) < Effort(s)
  {
    match e
    case Connect(i) => ConnectHelps(s, i);
    case Data(i, frames) =>
      OneFrame(s, i, PreOk);
      AckHelps(s, i);
    case Close(i, random) => CloseHelps(s, i, random);
    case AckTimeout(i) => AckTimeoutHelps(s, i);
    case Refill(id) => RefillHelps(s, id);
  }

  lemma IdleSocketCostsNothing(s: State, i: nat, c: Conn)
    requires Exists(s, i) && Chores(c) == Chores(s.conns[i])
    ensures Effort(WithConn(s, i, c)) == Effort(s)
  {
    ChoresUpdate(s.conns, i, c);
  }

  lemma IdlingChangesNoChore(s: State, e: Event)
    requires Idles(s, e) && !e.Tick?
    ensures exists c :: Chores(c) == Chores(s.conns[e.i]) && Step(s, e) == WithConn(s, e.i, c)
  {
    if e.Data? { OneFrame(s, e.i, Pong); }
    var c := Step(s, e).conns[e.i];
    assert Chores(c) == Chores(s.conns[e.i]) && Step(s, e) == WithConn(s, e.i, c);
  }

  lemma IdlingCostsNothing(s: State, e: Event)
    requires Working(s) && Idles(s, e)
    ensures Working(Step(s, e)) && Effort(Step(s, e)) == Effort(s)
  {
    StepKeepsInv(s, e);
    if !e.Tick? {
      IdlingChangesNoChore(s, e);
      var c :| Chores(c) == Chores(s.conns[e.i]) && Step(s, e) == WithConn(s, e.i, c);
      IdleSocketCostsNothing(s, e.i, c);
    }
  }

  lemma SomeoneIsPending(s: State) returns (i: nat)
    requires Inv(s) && s.pending > 0
    ensures i < |s.conns| && !s.conns[i].settled && !s.conns[i].closed
  {
    assert Unsettled(s.conns) != {};
    i :| i in Unsettled(s.conns);
    assert ConnOk(s.conns[i], i in s.pool);
  }

  function Later(now: int, due: int): int {
    if due > now then due else now
  }

  /** As long as the pool is short of its target, something helps: now, or when its timer is due. */
  lemma SomethingHelps(s: State) returns (to: int, e: Event)
    requires Working(s) && |s.pool| < TARGET_POOL_COUNT
    ensures s.now <= to && Helps(s.(now := to), e)
  {
    to := s.now;
    if s.pending > 0 {
      var i := SomeoneIsPending(s);
      var c := s.conns[i];
      assert ConnOk(c, i in s.pool);
      if c.destroyed {
        e := Close(i, 0.0);
      } else if !c.connected {
        e := Connect(i);
      } else if c.detached {
        to, e := Later(s.now, c.ackDeadline.due), AckTimeout(i);
      } else {
        e := Data(i, [PreOk]);
      }
    } else {
      assert s.refillTimer.value in s.timers.Keys;
      to, e := Later(s.now, s.timers[s.refillTimer.value]), Refill(s.refillTimer.value);
    }
  }

  // ---- recovery ----------------------------------------------------------------------------------

  /** At the target, and no pooled socket is a destroyed one that has not been closed yet. */
  predicate Full(s: State) {
    |s.pool| == 10 && forall i :: i in s.pool ==> i < |s.conns| && !s.conns[i].destroyed
  }

  lemma NothingLeftMeansFull(s: State)
    requires Working(s) && NothingHelps(s)
    ensures Full(s)
  {
    if |s.pool| < TARGET_POOL_COUNT {
      var to, e := SomethingHelps(s);
      assert false;
    }
    forall i | i in s.pool ensures i < |s.conns| && !s.conns[i].destroyed {
      assert ConnOk(s.conns[i], i in s.pool);
      assert !Helps(s.(now := s.now), Close(i, 0.0));
    }
  }

  lemma {:induction false} FriendlyRunKeepsWorking(s: State, es: seq<Event>)
    requires Working(s) && FriendlyRun(s, es)
    ensures ValidRun(s, es) && Working(Run(s, es))
    ensures Helpful(s, es) <= Effort(s) - Effort(Run(s, es))
    decreases |es|
  {
    if es != [] {
      if Helps(s, es[0]) { HelpHelps(s, es[0]); } else { IdlingCostsNothing(s, es[0]); }
      FriendlyRunKeepsWorking(Step(s, es[0]), es[1..]);
    }
  }

  lemma ReachableWorks(s: State)
    requires Reachable(s) && s.started && !s.suspended && !Stalled(s)
    ensures Working(s)
  {
    var now: int, es: seq<Event> :| ValidRun(Initial(now), es) && Run(Initial(now), es) == s;
    RunAccounts(Initial(now), es);
    ReachableInv(s);
  }

  /**
   The pool heals by itself: from any state that is neither halted nor stalled, a server that acknowledges
   every socket can be helped by a bounded number of events only, in whatever order they come, and a run in
   which none is left has filled the pool with ten live sockets.
   */
  lemma FriendlyRunsFillThePool(s: State, es: seq<Event>)
    requires Reachable(s) && s.started && !s.suspended && !Stalled(s) && FriendlyRun(s, es)
    ensures ValidRun(s, es)
    ensures Helpful(s, es) <= Effort(s)
    ensures NothingHelps(Run(s, es)) ==> Full(Run(s, es))
  {
    ReachableWorks(s);
    FriendlyRunKeepsWorking(s, es);
    if NothingHelps(Run(s, es)) { NothingLeftMeansFull(Run(s, es)); }
  }

  lemma FriendlyCons(s: State, e: Event, es: seq<Event>)
    requires (Helps(s, e) || Idles(s, e)) && FriendlyRun(Step(s, e), es) && ValidRun(Step(s, e), es)
    ensures FriendlyRun(s, [e] + es) && ValidRun(s, [e] + es) && Run(s, [e] + es) == Run(Step(s, e), es)
  {
    assert ([e] + es)[1..] == es;
  }

  lemma {:induction false} WorkingPoolFills(s: State) returns (es: seq<Event>)
    requires Working(s)
    ensures FriendlyRun(s, es) && ValidRun(s, es) && NothingHelps(Run(s, es)) && Full(Run(s, es))
    decreases Effort(s)
  {
    if NothingHelps(s) {
      NothingLeftMeansFull(s);
      es := [];
    } else {
      var to: int, e :| s.now <= to && Helps(s.(now := to), e);
      var t := Step(s, Tick(to));
      assert Idles(s, Tick(to));
      IdlingCostsNothing(s, Tick(to));
      HelpHelps(t, e);
      var rest := WorkingPoolFills(Step(t, e));
      FriendlyCons(t, e, rest);
      FriendlyCons(s, Tick(to), [e] + rest);
      es := [Tick(to)] + ([e] + rest);
    }
  }

  /** And such a run always exists: one that ends with the pool full. */
  lemma PoolCanAlwaysRecover(s: State) returns (es: seq<Event>)
    requires Reachable(s) && s.started && !s.suspended && !Stalled(s)
    ensures FriendlyRun(s, es) && ValidRun(s, es) && NothingHelps(Run(s, es)) && Full(Run(s, es))
  {
    ReachableWorks(s);
    es := WorkingPoolFills(s);
  }

  lemma StartWorks(s: State)
    requires Inv(s)
    ensures var t := Step(s, Init(true, true));
      && Working(t) && t.pool == s.pool && t.refillTimer.None? && t.consecutiveFailures == 0
  {
    StepKeepsInv(s, Init(true, true));
    FormedAccounts(WithoutRefillTimer(
      s.(suspended := false, consecutiveFailures := 0, resetAt := s.now, started := true)));
  }

  /**
   A start heals every pool, even a halted or stalled one: it keeps the sockets pooled, begins the ramp anew,
   and from there a friendly run fills the pool as above.
   */
  lemma StartHeals(s: State, es: seq<Event>)
    requires Reachable(s) && FriendlyRun(Step(s, Init(true, true)), es)
    ensures var t := Step(s, Init(true, true));
      && t.pool == s.pool && t.refillTimer.None? && t.consecutiveFailures == 0
      && ValidRun(t, es) && Helpful(t, es) <= Effort(t)
      && (NothingHelps(Run(t, es)) ==> Full(Run(t, es)))
  {
    var t := Step(s, Init(true, true));
    ReachableInv(s);
    StartWorks(s);
    FriendlyRunKeepsWorking(t, es);
    if NothingHelps(Run(t, es)) { NothingLeftMeansFull(Run(t, es)); }
  }
}
