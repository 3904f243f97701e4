/**
 How hard the preconnect pool presses on a server that does not answer: one attempt per refill, one
 backoff round per burst of failures, and rounds that take at least the exponential ramp.
 */
module PoolBackoff {
  import opened Options
  import opened PreconnectPool
  import opened PoolAccounting
  import opened PoolProgress

  function Refills(es: seq<Event>): nat {
    if es == [] then 0 else (if es[0].Refill? then 1 else 0) + Refills(es[1..])
  }

  function RestartCount(es: seq<Event>): nat {
    if es == [] then 0 else (if Restarts(es[0]) then 1 else 0) + RestartCount(es[1..])
  }

  // ---- outage ------------------------------------------------------------------------------------

  predicate Promising(f: Frame) {
    f.PreOk? || f.Open?
  }

  predicate Outage(es: seq<Event>) {
    forall k, j :: 0 <= k < |es| && es[k].Data? && 0 <= j < |es[k].frames| ==> !Promising(es[k].frames[j])
  }

  lemma {:induction false} OnFramesInOutage(s: State, i: nat, frames: seq<Frame>)
    requires Exists(s, i) && s.pool == {} && forall j :: 0 <= j < |frames| ==> !Promising(frames[j])
    ensures OnFrames(s, i, frames).pool == {} && |OnFrames(s, i, frames).conns| == |s.conns|
    decreases |frames|
  {
    if frames != [] && !s.conns[i].detached {
      assert !Promising(frames[0]);
      OnFramesInOutage(OnFrame(s, i, frames[0]), i, frames[1..]);
    }
  }

  lemma StepInOutage(s: State, e: Event)
    requires Inv(s) && s.pool == {} && Enabled(s, e) && Outage([e])
    ensures Step(s, e).pool == {}
    ensures |Step(s, e).conns| <= |s.conns| + Refills([e]) + RestartCount([e])
  {
    match e
    case Data(i, frames) =>
      forall j | 0 <= j < |frames| ensures !Promising(frames[j]) { assert [e][0].frames[j] == frames[j]; }
      OnFramesInOutage(s, i, frames);
    case Close(i, random) => assert s.pool - {i} == {};
    case _ =>
  }

  /**
   While the pool is empty and the server neither accepts nor opens anything, connection attempts are
   bounded by refill firings plus successful initialisations, however many events happen.
   */
  lemma {:induction false} OutageLoadIsBounded(s: State, es: seq<Event>)
    requires Inv(s) && s.pool == {} && ValidRun(s, es) && Outage(es)
    ensures Run(s, es).pool == {}
    ensures |Run(s, es).conns| - |s.conns| <= Refills(es) + RestartCount(es)
    decreases |es|
  {
    if es != [] {
      var e := es[0];
      forall k, j | 0 <= k < |[e]| && [e][k].Data? && 0 <= j < |[e][k].frames|
        ensures !Promising([e][k].frames[j])
      {
        assert es[0].frames[j] == e.frames[j];
      }
      forall k, j | 0 <= k < |es[1..]| && es[1..][k].Data? && 0 <= j < |es[1..][k].frames|
        ensures !Promising(es[1..][k].frames[j])
      {
        assert es[1..][k] == es[k + 1];
      }
      StepInOutage(s, e);
      StepKeepsInv(s, e);
      OutageLoadIsBounded(Step(s, e), es[1..]);
    }
  }

  // ---- one round per burst -----------------------------------------------------------------------

  /** Each scheduled round has fired, is armed, or was dropped by the suspension. */
  predicate RoundsCounted(s: State, fired: nat) {
    s.consecutiveFailures <= fired + (if s.refillTimer.Some? || s.suspended then 1 else 0)
  }

  lemma OnFrameCountsRounds(s: State, i: nat, f: Frame, fired: nat)
    requires Exists(s, i) && RoundsCounted(s, fired)
    ensures RoundsCounted(OnFrame(s, i, f), fired)
  {
  }

  lemma {:induction false} OnFramesCountRounds(s: State, i: nat, frames: seq<Frame>, fired: nat)
    requires Exists(s, i) && RoundsCounted(s, fired)
    ensures RoundsCounted(OnFrames(s, i, frames), fired)
    decreases |frames|
  {
    if frames != [] && !s.conns[i].detached {
      OnFrameCountsRounds(s, i, frames[0], fired);
      OnFramesCountRounds(OnFrame(s, i, frames[0]), i, frames[1..], fired);
    }
  }

  lemma {:induction false} RunCountsRounds(s: State, es: seq<Event>, fired: nat)
    requires Inv(s) && ValidRun(s, es) && RoundsCounted(s, fired)
    ensures RoundsCounted(Run(s, es), fired + Refills(es))
    decreases |es|
  {
    if es != [] {
      StepKeepsInv(s, es[0]);
      match es[0] {
        case Data(i, frames) => OnFramesCountRounds(s, i, frames, fired);
        case _ =>
      }
      RunCountsRounds(Step(s, es[0]), es[1..], fired + if es[0].Refill? then 1 else 0);
    }
  }

  /** Since a reset, failures count rounds and not sockets: at most one more than the timeouts that fired. */
  lemma OneRoundPerBurst(s: State, es: seq<Event>)
    requires Reachable(s) && s.consecutiveFailures == 0 && ValidRun(s, es)
    ensures Run(s, es).consecutiveFailures <= 1 + Refills(es)
  {
    ReachableInv(s);
    RunCountsRounds(s, es, 0);
  }

  // ---- what resets the rounds --------------------------------------------------------------------

  lemma FrameKeepsFailures(s: State, i: nat, f: Frame)
    requires Exists(s, i) && |s.pool| + PreOks([f]) < TARGET_POOL_COUNT
    ensures OnFrame(s, i, f).consecutiveFailures == s.consecutiveFailures
    ensures |OnFrame(s, i, f).pool| <= |s.pool| + PreOks([f])
  {
    match f
    case PreOk => assert Formed(Accepted(s, i)).pool == s.pool + {i};
    case Open(portOk) => assert Formed(Consumed(s, i)).pool == s.pool - {i};
    case _ =>
  }

  lemma {:induction false} FramesKeepFailures(s: State, i: nat, frames: seq<Frame>)
    requires Exists(s, i) && |s.pool| + PreOks(frames) < TARGET_POOL_COUNT
    ensures OnFrames(s, i, frames).consecutiveFailures == s.consecutiveFailures
    ensures |OnFrames(s, i, frames).pool| <= |s.pool| + PreOks(frames)
    decreases |frames|
  {
    if frames != [] && !s.conns[i].detached {
      FrameKeepsFailures(s, i, frames[0]);
      FramesKeepFailures(OnFrame(s, i, frames[0]), i, frames[1..]);
    }
  }

  function AllPreOks(es: seq<Event>): nat {
    if es == [] then 0 else (if es[0].Data? then PreOks(es[0].frames) else 0) + AllPreOks(es[1..])
  }

  lemma StepKeepsFailures(s: State, e: Event)
    requires Enabled(s, e) && RestartCount([e]) == 0 && |s.pool| + AllPreOks([e]) < TARGET_POOL_COUNT
    ensures Step(s, e).consecutiveFailures >= s.consecutiveFailures
    ensures |Step(s, e).pool| <= |s.pool| + AllPreOks([e])
  {
    match e
    case Data(i, frames) => FramesKeepFailures(s, i, frames);
    case Close(i, random) => assert OnClose(s, i, random).pool == s.pool - {i};
    case _ =>
  }

  /**
   A half outage never resets the ramp: as long as the sockets pooled and the acknowledgements still to come
   stay short of the target, the failures counted only grow until the pool is started anew.
   */
  lemma {:induction false} HalfOutageKeepsTheRamp(s: State, es: seq<Event>)
    requires ValidRun(s, es) && RestartCount(es) == 0 && |s.pool| + AllPreOks(es) < TARGET_POOL_COUNT
    ensures Run(s, es).consecutiveFailures >= s.consecutiveFailures
    decreases |es|
  {
    if es != [] {
      StepKeepsFailures(s, es[0]);
      HalfOutageKeepsTheRamp(Step(s, es[0]), es[1..]);
    }
  }

  /** A full pool has no failures counted. */
  predicate ForgottenWhenFull(s: State) {
    |s.pool| >= TARGET_POOL_COUNT ==> s.consecutiveFailures == 0
  }

  lemma FrameForgets(s: State, i: nat, f: Frame)
    requires Exists(s, i) && ForgottenWhenFull(s)
    ensures ForgottenWhenFull(OnFrame(s, i, f))
  {
    if f.Open? { assert Formed(Consumed(s, i)).pool == s.pool - {i}; }
  }

  lemma {:induction false} FramesForget(s: State, i: nat, frames: seq<Frame>)
    requires Exists(s, i) && ForgottenWhenFull(s)
    ensures ForgottenWhenFull(OnFrames(s, i, frames))
    decreases |frames|
  {
    if frames != [] && !s.conns[i].detached {
      FrameForgets(s, i, frames[0]);
      FramesForget(OnFrame(s, i, frames[0]), i, frames[1..]);
    }
  }

  lemma CloseForgets(s: State, i: nat, random: real)
    requires Inv(s) && Enabled(s, Close(i, random)) && ForgottenWhenFull(s)
    ensures ForgottenWhenFull(OnClose(s, i, random))
  {
    assert OnClose(s, i, random).pool == s.pool - {i};
    if !s.conns[i].settled { PendingIsPositive(s, i); }
  }

  lemma StepForgets(s: State, e: Event)
    requires Inv(s) && Enabled(s, e) && ForgottenWhenFull(s)
    ensures ForgottenWhenFull(Step(s, e))
  {
    match e
    case Data(i, frames) => FramesForget(s, i, frames);
    case Close(i, random) => CloseForgets(s, i, random);
    case _ =>
  }

  lemma {:induction false} RunForgets(s: State, es: seq<Event>)
    requires Inv(s) && ValidRun(s, es) && ForgottenWhenFull(s)
    ensures ForgottenWhenFull(Run(s, es))
    decreases |es|
  {
    if es != [] {
      StepForgets(s, es[0]);
      StepKeepsInv(s, es[0]);
      RunForgets(Step(s, es[0]), es[1..]);
    }
  }

  /**
   A pool that reached its target starts its ramp anew: in every reachable state with ten sockets pooled no
   failure is counted, so the first failure after that waits for the first and shortest delay.
   */
  lemma FullPoolForgetsFailures(s: State)
    requires Reachable(s) && |s.pool| == 10
    ensures s.consecutiveFailures == 0 && Backoff(s.consecutiveFailures + 1) == 500
  {
    var now: int, es: seq<Event> :| ValidRun(Initial(now), es) && Run(Initial(now), es) == s;
    RunForgets(Initial(now), es);
  }

  // ---- the ramp ----------------------------------------------------------------------------------

  /** The least time k rounds take. */
  function BackoffSum(k: nat): nat {
    if k == 0 then 0 else BackoffSum(k - 1) + Backoff(k)
  }

  /** The least time k rounds take, in closed form: it doubles up to the sixth and then grows by the cap. */
  function RampTime(k: nat): int {
    if k <= 6 then 500 * (Pow2(k) - 1) else 31_500 + 30_000 * (k - 6)
  }

  lemma {:induction false} Pow2Grows(n: nat)
    ensures Pow2(n) >= 1 && (n >= 6 ==> Pow2(n) >= 64)
    decreases n
  {
    if n == 6 {
      assert Pow2(6) == 2 * Pow2(5) == 4 * Pow2(4) == 8 * Pow2(3) == 16 * Pow2(2);
    } else if n > 0 {
      Pow2Grows(n - 1);
    }
  }

  lemma {:induction false} BackoffSumClosedForm(k: nat)
    ensures BackoffSum(k) == RampTime(k)
    decreases k
  {
    if k > 0 {
      BackoffSumClosedForm(k - 1);
      if k <= 6 {
        assert Pow2(0) == 1 && Pow2(1) == 2 && Pow2(2) == 4 && Pow2(3) == 8 && Pow2(4) == 16;
        assert Pow2(5) == 32;
      } else {
        Pow2Grows(k - 1);
        assert Pow2(6) == 2 * Pow2(5) == 4 * Pow2(4) == 8 * Pow2(3) == 64;
      }
    }
  }

  lemma DelayBounds(n: nat, random: real)
    requires n > 0 && 0.0 <= random < 1.0
    ensures Backoff(n) <= Backoff(n) + Jitter(random, Backoff(n)) < 39_000
  {
    var b := Backoff(n) as real;
    assert 0.0 <= random * b <= b;
    assert random * b * 0.3 <= 9_000.0;
    if random * b == b { assert b == 0.0; }
  }

  /** The rounds scheduled since the last reset, and the one that may still be armed, keep to the ramp. */
  predicate OnRamp(s: State) {
    && TimersOk(s)
    && s.now >= s.resetAt
    && (s.consecutiveFailures > 0 ==> s.now >= s.resetAt + BackoffSum(s.consecutiveFailures - 1))
    && (s.refillTimer.None? && !s.suspended ==> s.now >= s.resetAt + BackoffSum(s.consecutiveFailures))
    && (s.refillTimer.Some? && s.consecutiveFailures > 0 ==>
          s.timers[s.refillTimer.value] >= s.resetAt + BackoffSum(s.consecutiveFailures))
  }

  /** What the ramp is about did not change. */
  predicate SameRounds(s: State, t: State) {
    && t.now == s.now && t.resetAt == s.resetAt && t.suspended == s.suspended
    && t.consecutiveFailures == s.consecutiveFailures
    && t.refillTimer == s.refillTimer && t.timers == s.timers && t.timersStarted == s.timersStarted
  }

  lemma SameRoundsOnRamp(s: State, t: State)
    requires OnRamp(s) && SameRounds(s, t)
    ensures OnRamp(t)
  {
  }

  lemma AcceptedOnRamp(s: State, i: nat)
    requires Exists(s, i) && OnRamp(s)
    ensures OnRamp(OnPreOk(s, i))
  {
    SameRoundsOnRamp(s, Formed(Accepted(s, i)));
  }

  /** A fatal rejection takes the timer away with the suspension; the rounds do not see any other. */
  lemma RejectedOnRamp(s: State, i: nat, reason: string)
    requires Exists(s, i) && OnRamp(s)
    ensures OnRamp(OnPreErr(s, i, reason))
  {
    var t := RejectionNoted(s, i, reason);
    assert OnRamp(t);
    SameRoundsOnRamp(t, TurnedAway(t, i));
  }

  lemma OnFrameOnRamp(s: State, i: nat, f: Frame)
    requires Exists(s, i) && OnRamp(s)
    ensures OnRamp(OnFrame(s, i, f))
  {
    match f
    case PreOk => AcceptedOnRamp(s, i);
    case PreErr(reason) => RejectedOnRamp(s, i, reason);
    case Pong => SameRoundsOnRamp(s, OnPong(s, i));
    case Open(portOk) => SameRoundsOnRamp(s, OnOpen(s, i, portOk));
    case Unknown =>
  }

  lemma {:induction false} OnFramesOnRamp(s: State, i: nat, frames: seq<Frame>)
    requires Exists(s, i) && OnRamp(s)
    ensures OnRamp(OnFrames(s, i, frames))
    decreases |frames|
  {
    if frames != [] && !s.conns[i].detached {
      OnFrameOnRamp(s, i, frames[0]);
      OnFramesOnRamp(OnFrame(s, i, frames[0]), i, frames[1..]);
    }
  }

  lemma ScheduledOnRamp(s: State, random: real)
    requires OnRamp(s) && 0.0 <= random < 1.0
    ensures OnRamp(RefillScheduled(s, random))
  {
    DelayBounds(s.consecutiveFailures + 1, random);
  }

  lemma CloseOnRamp(s: State, i: nat, random: real)
    requires Enabled(s, Close(i, random)) && OnRamp(s)
    ensures OnRamp(OnClose(s, i, random))
  {
    var s1 := Released(s, i);
    var s2 := Settled(s1, i);
    SameRoundsOnRamp(s, s1);
    SameRoundsOnRamp(s, s2);
    SameRoundsOnRamp(s, Formed(s1));
    ScheduledOnRamp(s1, random);
    ScheduledOnRamp(s2, random);
  }

  lemma StepOnRamp(s: State, e: Event)
    requires Enabled(s, e) && OnRamp(s)
    ensures OnRamp(Step(s, e))
  {
    match e
    case Data(i, frames) => OnFramesOnRamp(s, i, frames);
    case Close(i, random) => CloseOnRamp(s, i, random);
    case Refill(id) => assert id in s.timers.Keys;
    case _ =>
  }

  lemma {:induction false} RunOnRamp(s: State, es: seq<Event>)
    requires ValidRun(s, es) && OnRamp(s)
    ensures OnRamp(Run(s, es))
    decreases |es|
  {
    if es != [] {
      StepOnRamp(s, es[0]);
      RunOnRamp(Step(s, es[0]), es[1..]);
    }
  }

  /**
   Round k since the last reset is not over before the ramp says so: while its timeout is armed it is due
   no earlier, and once it fired (or nothing is armed) that much time has passed.
   */
  lemma RoundsTakeTheirTime(s: State)
    requires Reachable(s)
    ensures var k := s.consecutiveFailures;
      && (k > 0 ==> s.now - s.resetAt >= RampTime(k - 1))
      && (s.refillTimer.None? && !s.suspended ==> s.now - s.resetAt >= RampTime(k))
      && (s.refillTimer.Some? && k > 0 ==>
            (s.refillTimer.value in s.timers && s.timers[s.refillTimer.value] - s.resetAt >= RampTime(k)))
  {
    var now: int, es: seq<Event> :| ValidRun(Initial(now), es) && Run(Initial(now), es) == s;
    RunOnRamp(Initial(now), es);
    var k := s.consecutiveFailures;
    BackoffSumClosedForm(k);
    if k > 0 { BackoffSumClosedForm(k - 1); }
  }

  lemma DelayIsSpread(n: nat, random: real)
    requires n > 0 && 0.0 <= random < 1.0
    ensures var delay, most := Backoff(n) + Jitter(random, Backoff(n)), (Backoff(n) as real) * (1.0 + 0.3 * random);
      most - 1.0 < delay as real <= most
  {
    var b := Backoff(n) as real;
    assert b * (1.0 + 0.3 * random) == b + random * b * 0.3;
  }

  /**
   Every armed refill is due within the largest delay, less than 39 seconds, and retries are spread: its delay
   is the backoff and up to three tenths more, as the random number says, cut to whole milliseconds.
   */
  lemma DelaysAreBounded(s: State, random: real)
    requires !s.suspended && s.refillTimer.None? && 0.0 <= random < 1.0
    ensures var t := RefillScheduled(s, random);
      t.refillTimer.Some? && t.refillTimer.value in t.timers &&
      s.now + Backoff(t.consecutiveFailures) <= t.timers[t.refillTimer.value] < s.now + 39_000
    ensures var t := RefillScheduled(s, random);
      var delay := (t.timers[t.refillTimer.value] - s.now) as real;
      var most := (Backoff(s.consecutiveFailures + 1) as real) * (1.0 + 0.3 * random);
      most - 1.0 < delay <= most
  {
    DelayBounds(s.consecutiveFailures + 1, random);
    DelayIsSpread(s.consecutiveFailures + 1, random);
  }

  // ---- the rate of an outage ---------------------------------------------------------------------

  lemma {:induction false} BackoffSumGrows(c: nat, d: nat)
    requires c <= d
    ensures BackoffSum(c) <= BackoffSum(d)
    decreases d
  {
    if c < d { BackoffSumGrows(c, d - 1); }
  }

  /** The earliest time the armed refill can fire at. */
  function NextRefill(s: State): int
    requires TimersOk(s) && s.refillTimer.Some?
  {
    if s.timers[s.refillTimer.value] > s.now then s.timers[s.refillTimer.value] else s.now
  }

  /**
   An outage that began with `first` sockets. On the ramp that starts at `origin` each new socket has a round
   of its own, the newest one round `|s.conns| + offset`; a later round is armed or came to nothing.
   */
  predicate Paced(s: State, origin: int, first: nat, offset: int) {
    && TimersOk(s)
    && |s.conns| >= first && first + offset >= -1
    && |s.conns| + offset + (if s.refillTimer.Some? then 1 else 0) <= s.consecutiveFailures
    && (|s.conns| > first ==> s.now >= origin + BackoffSum(|s.conns| + offset))
    && (s.refillTimer.Some? ==> NextRefill(s) >= origin + BackoffSum(s.consecutiveFailures))
    && (s.refillTimer.None? && !s.suspended ==> s.now >= origin + BackoffSum(s.consecutiveFailures))
  }

  lemma SameRoundsPaced(s: State, t: State, origin: int, first: nat, offset: int)
    requires Paced(s, origin, first, offset) && SameRounds(s, t) && |t.conns| == |s.conns|
    ensures Paced(t, origin, first, offset)
  {
  }

  lemma ScheduledPaced(s: State, random: real, origin: int, first: nat, offset: int)
    requires Paced(s, origin, first, offset) && 0.0 <= random < 1.0
    ensures Paced(RefillScheduled(s, random), origin, first, offset)
  {
    DelayBounds(s.consecutiveFailures + 1, random);
  }

  lemma ClosePaced(s: State, i: nat, random: real, origin: int, first: nat, offset: int)
    requires Enabled(s, Close(i, random)) && s.pool == {} && Paced(s, origin, first, offset)
    ensures Paced(OnClose(s, i, random), origin, first, offset)
    ensures |OnClose(s, i, random).conns| == |s.conns|
  {
    var r := Settled(Released(s, i), i);
    SameRoundsPaced(s, r, origin, first, offset);
    ScheduledPaced(r, random, origin, first, offset);
    if s.conns[i].settled { SettledAlready(s, i); }
  }

  /** The refill timeout is gone, and the pool not yet filled: time enough for one more socket has passed. */
  lemma RefillIsNotEarly(s: State, id: nat, origin: int, first: nat, offset: int)
    requires Enabled(s, Refill(id)) && Paced(s, origin, first, offset)
    ensures var t := s.(timers := s.timers - {id}, refillTimer := None);
      && Paced(t, origin, first, offset)
      && |t.conns| + offset + 1 <= t.consecutiveFailures
      && t.now >= origin + BackoffSum(|t.conns| + offset + 1)
  {
    assert id in s.timers.Keys;
    BackoffSumGrows(|s.conns| + offset + 1, s.consecutiveFailures);
  }

  /** An empty pool is filled with one socket at most. */
  lemma FormedPaced(s: State, origin: int, first: nat, offset: int)
    requires s.pool == {} && s.pending >= 0 && Paced(s, origin, first, offset)
    requires |s.conns| + offset + 1 <= s.consecutiveFailures
    requires s.refillTimer.None? && s.now >= origin + BackoffSum(|s.conns| + offset + 1)
    ensures |Formed(s).conns| >= |s.conns| && Paced(Formed(s), origin, first, offset)
  {
    var n := |Formed(s).conns|;
    assert n == |s.conns| || n == |s.conns| + 1;
  }

  lemma RefillPaced(s: State, id: nat, origin: int, first: nat, offset: int)
    requires Enabled(s, Refill(id)) && s.pool == {} && s.pending >= 0 && Paced(s, origin, first, offset)
    ensures |OnRefill(s, id).conns| >= |s.conns| && Paced(OnRefill(s, id), origin, first, offset)
  {
    RefillIsNotEarly(s, id, origin, first, offset);
    FormedPaced(s.(timers := s.timers - {id}, refillTimer := None), origin, first, offset);
  }

  lemma RejectedPaced(s: State, i: nat, reason: string, origin: int, first: nat, offset: int)
    requires Exists(s, i) && Paced(s, origin, first, offset)
    ensures Paced(OnPreErr(s, i, reason), origin, first, offset)
  {
    var t := RejectionNoted(s, i, reason);
    assert Paced(t, origin, first, offset);
    SameRoundsPaced(t, TurnedAway(t, i), origin, first, offset);
  }

  lemma {:induction false} FramesPaced(s: State, i: nat, frames: seq<Frame>, origin: int, first: nat, offset: int)
    requires Exists(s, i) && forall j :: 0 <= j < |frames| ==> !Promising(frames[j])
    requires Paced(s, origin, first, offset)
    ensures Paced(OnFrames(s, i, frames), origin, first, offset)
    ensures |OnFrames(s, i, frames).conns| == |s.conns|
    decreases |frames|
  {
    if frames != [] && !s.conns[i].detached {
      assert !Promising(frames[0]);
      var t := OnFrame(s, i, frames[0]);
      match frames[0] {
        case PreErr(reason) => RejectedPaced(s, i, reason, origin, first, offset);
        case Pong => SameRoundsPaced(s, t, origin, first, offset);
        case Unknown =>
      }
      FramesPaced(t, i, frames[1..], origin, first, offset);
    }
  }

  lemma SocketStepPaced(s: State, e: Event, origin: int, first: nat, offset: int)
    requires Enabled(s, e) && Paced(s, origin, first, offset)
    requires e.Connect? || e.Error? || e.ConnectTimeout? || e.AckTimeout? || e.Heartbeat? || e.PongTimeout?
    ensures |Step(s, e).conns| == |s.conns| && Paced(Step(s, e), origin, first, offset)
  {
    SameRoundsPaced(s, Step(s, e), origin, first, offset);
  }

  lemma StepPaced(s: State, e: Event, origin: int, first: nat, offset: int)
    requires Enabled(s, e) && s.pool == {} && s.pending >= 0 && Outage([e]) && !Restarts(e)
    requires Paced(s, origin, first, offset)
    ensures |Step(s, e).conns| >= |s.conns| && Paced(Step(s, e), origin, first, offset)
  {
    match e
    case Data(i, frames) =>
      forall j | 0 <= j < |frames| ensures !Promising(frames[j]) { assert [e][0].frames[j] == frames[j]; }
      FramesPaced(s, i, frames, origin, first, offset);
    case Close(i, random) => ClosePaced(s, i, random, origin, first, offset);
    case Refill(id) => RefillPaced(s, id, origin, first, offset);
    case Tick(to) =>
    case Init(uuid, secret) =>
    case _ => SocketStepPaced(s, e, origin, first, offset);
  }

  lemma OutageSplits(es: seq<Event>)
    requires es != [] && Outage(es) && RestartCount(es) == 0
    ensures Outage([es[0]]) && !Restarts(es[0]) && Outage(es[1..]) && RestartCount(es[1..]) == 0
  {
    forall k, j | 0 <= k < |es[1..]| && es[1..][k].Data? && 0 <= j < |es[1..][k].frames|
      ensures !Promising(es[1..][k].frames[j])
    {
      assert es[1..][k] == es[k + 1];
    }
  }

  lemma OutageStep(s: State, e: Event, origin: int, first: nat, offset: int)
    requires Inv(s) && s.pool == {} && Enabled(s, e) && Outage([e]) && !Restarts(e)
    requires Paced(s, origin, first, offset)
    ensures var t := Step(s, e);
      && Inv(t) && t.pool == {} && |t.conns| >= |s.conns|
      && Paced(t, origin, first, offset)
  {
    StepInOutage(s, e);
    StepKeepsInv(s, e);
    StepPaced(s, e, origin, first, offset);
  }

  lemma {:induction false} RunPaced(s: State, es: seq<Event>, origin: int, first: nat, offset: int)
    requires Inv(s) && s.pool == {} && ValidRun(s, es) && Outage(es) && RestartCount(es) == 0
    requires Paced(s, origin, first, offset)
    ensures Paced(Run(s, es), origin, first, offset)
    decreases |es|
  {
    if es != [] {
      var e := es[0];
      var t := Step(s, e);
      OutageSplits(es);
      OutageStep(s, e, origin, first, offset);
      RunPaced(t, es[1..], origin, first, offset);
    }
  }

  lemma {:induction false} Pow2Monotone(c: nat, d: nat)
    requires c <= d
    ensures Pow2(c) <= Pow2(d)
    decreases d
  {
    if c < d { Pow2Monotone(c, d - 1); }
  }

  /** The delays never shrink, so rounds late on the ramp take no less than as many rounds at its start. */
  lemma {:induction false} LaterRoundsTakeLonger(c: nat, k: nat)
    ensures BackoffSum(c + k) - BackoffSum(c) >= BackoffSum(k)
    decreases k
  {
    if k > 0 {
      LaterRoundsTakeLonger(c, k - 1);
      Pow2Monotone(k - 1, c + k - 1);
      assert Backoff(k) <= Backoff(c + k);
    }
  }

  lemma RampGetsSteeper(c: nat, k: nat)
    ensures BackoffSum(c + k) - BackoffSum(c) == RampTime(c + k) - RampTime(c) >= RampTime(k)
  {
    LaterRoundsTakeLonger(c, k);
    BackoffSumClosedForm(c);
    BackoffSumClosedForm(k);
    BackoffSumClosedForm(c + k);
  }

  /** What is left of the wait for the refill. */
  function Wait(s: State): nat
    requires TimersOk(s)
  {
    if s.refillTimer.Some? then NextRefill(s) - s.now else 0
  }

  /** How many sockets of t are new since s, not counting the one that the armed refill of s may open. */
  function FurtherSockets(s: State, t: State): int {
    |t.conns| - |s.conns| - if s.refillTimer.Some? then 1 else 0
  }

  /** The round of socket k on the ramp of s is k plus this. */
  function RoundOffset(s: State): int {
    s.consecutiveFailures + FurtherSockets(s, s) - |s.conns|
  }

  lemma StartsPaced(s: State, origin: int)
    requires TimersOk(s)
    requires s.suspended || origin == s.now + Wait(s) - BackoffSum(s.consecutiveFailures)
    ensures Paced(s, origin, |s.conns|, RoundOffset(s))
  {
  }

  /**
   The sockets opened between s and t took the rest of the wait for an armed refill and, for each further one,
   the next delay of the ramp; together those delays are at least what as many take at its beginning.
   */
  predicate KeepsToTheRamp(s: State, t: State)
    requires TimersOk(s)
  {
    |t.conns| > |s.conns| ==>
      var c, further := s.consecutiveFailures, FurtherSockets(s, t);
      && !s.suspended && further >= 0
      && t.now - s.now >= Wait(s) + RampTime(c + further) - RampTime(c) >= Wait(s) + RampTime(further)
  }

  /** Where the ramp of s starts; for a suspended pool nowhere before t, since it opens no socket at all. */
  function Origin(s: State, t: State): int
    requires TimersOk(s)
  {
    if s.suspended then t.now + 1 else s.now + Wait(s) - BackoffSum(s.consecutiveFailures)
  }

  lemma PacedKeepsToTheRamp(s: State, t: State)
    requires TimersOk(s) && Paced(t, Origin(s, t), |s.conns|, RoundOffset(s))
    ensures KeepsToTheRamp(s, t)
  {
    if |t.conns| > |s.conns| {
      assert s.consecutiveFailures + FurtherSockets(s, t) == |t.conns| + RoundOffset(s);
      assert !s.suspended;
      RampGetsSteeper(s.consecutiveFailures, FurtherSockets(s, t));
    }
  }

  /**
   How fast an outage can go: while the pool is empty, the server accepts nothing and nobody starts the pool
   anew, the sockets opened keep to the ramp, whatever else happens.
   */
  lemma OutageRateIsBounded(s: State, es: seq<Event>)
    requires Inv(s) && s.pool == {} && ValidRun(s, es) && Outage(es) && RestartCount(es) == 0
    ensures KeepsToTheRamp(s, Run(s, es))
  {
    var t := Run(s, es);
    StartsPaced(s, Origin(s, t));
    RunPaced(s, es, Origin(s, t), |s.conns|, RoundOffset(s));
    PacedKeepsToTheRamp(s, t);
  }
}
