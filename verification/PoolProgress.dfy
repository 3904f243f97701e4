/**
 Does the preconnect pool ever stop refilling itself? The slots it should be working on are accounted for
 exactly: only a non-fatal PRE:ERR on a pending socket loses one, and a pool that lost its last one
 stays empty until the next successful initPreconnectPool. A fatal rejection, on purpose, halts it.
 */
module PoolProgress {
  import opened Options
  import opened PreconnectPool
  import opened PoolAccounting

  /** Started, not halted, and yet nobody works on the missing sockets. */
  predicate Stalled(s: State) {
    && s.started && !s.suspended
    && s.refillTimer.None?
    && |s.pool| + s.pending < TARGET_POOL_COUNT
    && !(s.pool == {} && s.pending >= 1)
  }

  /** Every missing slot is pending, lost, or waiting for the refill timeout. */
  predicate SlotsAccounted(s: State) {
    s.started && !s.suspended && s.refillTimer.None? ==>
      if s.pool == {} then s.pending + s.lost >= 1
      else |s.pool| + s.pending + s.lost == TARGET_POOL_COUNT
  }

  lemma FormedAccounts(s: State)
    requires Inv(s)
    ensures s.suspended || (SlotsAccounted(Formed(s)) && !Stalled(Formed(s)) && Formed(s).lost == 0)
  {
  }

  lemma RejectedAccounts(s: State, i: nat, reason: string)
    requires InvInChunk(s, i) && !s.conns[i].detached && SlotsAccounted(s) && s.started
    ensures SlotsAccounted(OnPreErr(s, i, reason))
  {
  }

  lemma OpenedAccounts(s: State, i: nat, portOk: bool)
    requires InvInChunk(s, i)
    ensures SlotsAccounted(OnOpen(s, i, portOk))
  {
    ConsumedKeepsInv(s, i);
    FormedAccounts(Consumed(s, i));
  }

  lemma AcknowledgedAccounts(s: State, i: nat)
    requires InvInChunk(s, i) && !s.conns[i].detached
    ensures SlotsAccounted(OnPreOk(s, i))
  {
    AcceptedKeepsInv(s, i);
    FormedAccounts(Accepted(s, i));
  }

  lemma OnFrameAccounts(s: State, i: nat, f: Frame)
    requires InvInChunk(s, i) && !s.conns[i].detached && SlotsAccounted(s) && s.started
    ensures SlotsAccounted(OnFrame(s, i, f))
  {
    match f
    case PreOk => AcknowledgedAccounts(s, i);
    case PreErr(reason) => RejectedAccounts(s, i, reason);
    case Pong =>
    case Open(portOk) => OpenedAccounts(s, i, portOk);
    case Unknown =>
  }

  lemma {:induction false} OnFramesAccounts(s: State, i: nat, frames: seq<Frame>)
    requires InvInChunk(s, i) && SlotsAccounted(s) && s.started
    ensures SlotsAccounted(OnFrames(s, i, frames))
    decreases |frames|
  {
    if frames != [] && !s.conns[i].detached {
      OnFrameAccounts(s, i, frames[0]);
      OnFrameKeepsInv(s, i, frames[0]);
      OnFramesAccounts(OnFrame(s, i, frames[0]), i, frames[1..]);
    }
  }

  lemma ScheduledAccounts(s: State, random: real)
    requires 0.0 <= random < 1.0
    ensures SlotsAccounted(RefillScheduled(s, random)) && !Stalled(RefillScheduled(s, random))
  {
  }

  lemma SettledAlready(s: State, i: nat)
    requires Exists(s, i) && s.conns[i].settled
    ensures Settled(Released(s, i), i) == Released(s, i)
  {
    SettledOnceIsEnough(Released(s, i), i);
  }

  /** A close ends in one of three ways: a refill scheduled, the pool filled, or nothing for a socket not pooled. */
  lemma OnCloseIs(s: State, i: nat, random: real)
    requires Exists(s, i) && 0.0 <= random < 1.0
    ensures var r := Settled(Released(s, i), i);
      || OnClose(s, i, random) == RefillScheduled(r, random)
      || OnClose(s, i, random) == Formed(r)
      || (i !in s.pool && s.conns[i].settled && OnClose(s, i, random) == r)
  {
    if s.conns[i].settled { SettledAlready(s, i); }
  }

  lemma SettledNotPooledKeeps(s: State, i: nat)
    requires i < |s.conns| && i !in s.pool && s.conns[i].settled
    ensures var r := Settled(Released(s, i), i);
      (SlotsAccounted(r) <==> SlotsAccounted(s)) && (Stalled(r) <==> Stalled(s))
  {
    assert s.pool - {i} == s.pool;
  }

  /** A close loses no slot and stalls nothing. */
  lemma OnCloseAccounts(s: State, i: nat, random: real)
    requires Inv(s) && SlotsAccounted(s) && i < |s.conns| && !s.conns[i].closed && 0.0 <= random < 1.0
    ensures SlotsAccounted(OnClose(s, i, random))
    ensures !Stalled(s) ==> !Stalled(OnClose(s, i, random))
  {
    var r := Settled(Released(s, i), i);
    OnCloseIs(s, i, random);
    if OnClose(s, i, random) == RefillScheduled(r, random) {
      ScheduledAccounts(r, random);
    } else if OnClose(s, i, random) == Formed(r) {
      ReleasedThenSettledKeepsInv(s, i);
      FormedAccounts(r);
    } else {
      SettledNotPooledKeeps(s, i);
    }
  }

  lemma StepAccounts(s: State, e: Event)
    requires Inv(s) && Enabled(s, e) && SlotsAccounted(s)
    ensures SlotsAccounted(Step(s, e))
  {
    match e
    case Init(uuid, secret) =>
      var s1 := WithoutRefillTimer(s.(suspended := false, consecutiveFailures := 0, resetAt := s.now, started := true));
      FormedAccounts(s1);
    case Data(i, frames) => OnFramesAccounts(s, i, frames);
    case Close(i, random) => OnCloseAccounts(s, i, random);
    case Refill(id) => FormedAccounts(s.(timers := s.timers - {id}, refillTimer := None));
    case _ =>
  }

  lemma {:induction false} RunAccounts(s: State, es: seq<Event>)
    requires Inv(s) && SlotsAccounted(s) && ValidRun(s, es)
    ensures SlotsAccounted(Run(s, es))
    decreases |es|
  {
    if es != [] {
      StepAccounts(s, es[0]);
      StepKeepsInv(s, es[0]);
      RunAccounts(Step(s, es[0]), es[1..]);
    }
  }

  /**
   When the pool is stalled, exactly: no refill is armed and either slots were lost, or the pool is empty
   and its last pending socket was one of the lost ones.
   */
  lemma StalledExactly(s: State)
    requires Reachable(s) && s.started && !s.suspended
    ensures Stalled(s) <==> s.refillTimer.None? && (if s.pool == {} then s.pending == 0 else s.lost > 0)
    ensures Stalled(s) ==> s.lost > 0
    ensures s.refillTimer.None? && s.pool != {} ==> |s.pool| + s.pending == TARGET_POOL_COUNT - s.lost
  {
    var now: int, es: seq<Event> :| ValidRun(Initial(now), es) && Run(Initial(now), es) == s;
    RunAccounts(Initial(now), es);
    ReachableInv(s);
  }

  // ---- runs without a non-fatal rejection --------------------------------------------------------

  /** The reasons that stay the same however often one retries. */
  predicate IsFatal(reason: string) {
    reason == "invalid_signature" || reason == "expired" || reason == "no_secret"
  }

  predicate NonFatal(f: Frame) {
    f.PreErr? && !IsFatal(f.reason)
  }

  predicate NoNonFatal(es: seq<Event>) {
    forall k, j :: 0 <= k < |es| && es[k].Data? && 0 <= j < |es[k].frames| ==> !NonFatal(es[k].frames[j])
  }

  lemma {:induction false} OnFramesLoseNothing(s: State, i: nat, frames: seq<Frame>)
    requires Exists(s, i) && s.lost == 0 && forall j :: 0 <= j < |frames| ==> !NonFatal(frames[j])
    ensures OnFrames(s, i, frames).lost == 0
    decreases |frames|
  {
    if frames != [] && !s.conns[i].detached {
      assert !NonFatal(frames[0]);
      OnFramesLoseNothing(OnFrame(s, i, frames[0]), i, frames[1..]);
    }
  }

  lemma {:induction false} RunLosesNothing(s: State, es: seq<Event>)
    requires ValidRun(s, es) && s.lost == 0 && NoNonFatal(es)
    ensures Run(s, es).lost == 0
    decreases |es|
  {
    if es != [] {
      match es[0] {
        case Data(i, frames) =>
          OnFramesLoseNothing(s, i, frames);
        case _ =>
      }
      forall k, j | 0 <= k < |es[1..]| && es[1..][k].Data? && 0 <= j < |es[1..][k].frames|
        ensures !NonFatal(es[1..][k].frames[j])
      {
        assert es[1..][k] == es[k + 1];
      }
      RunLosesNothing(Step(s, es[0]), es[1..]);
    }
  }

  /** Without a non-fatal PRE:ERR the pool never stalls, whatever else the server and the network do. */
  lemma NeverStallsWithoutNonFatalRejection(now: int, es: seq<Event>)
    requires ValidRun(Initial(now), es) && NoNonFatal(es)
    ensures !Stalled(Run(Initial(now), es))
  {
    var s := Run(Initial(now), es);
    RunLosesNothing(Initial(now), es);
    if s.started && !s.suspended { StalledExactly(s); }
  }

  // ---- the step that stalls ----------------------------------------------------------------------

  /**
   What a non-fatal PRE:ERR has to meet to stall the pool: a socket that is still pending, no refill timeout
   armed, and either sockets in the pool or no other socket on its way.
   */
  predicate StallingRejection(s: State, i: nat, f: Frame)
    requires Exists(s, i)
  {
    && NonFatal(f) && !s.conns[i].settled
    && s.started && !s.suspended && s.refillTimer.None? && (s.pool != {} || s.pending == 1)
  }

  lemma PendingIsPositiveInChunk(s: State, i: nat)
    requires InvInChunk(s, i) && !s.conns[i].settled
    ensures s.pending >= 1
  {
    assert i in Unsettled(s.conns);
  }

  lemma RejectionStallsExactly(s: State, i: nat, reason: string)
    requires InvInChunk(s, i) && !s.conns[i].settled && reason !in FATAL_REJECTIONS && s.started && !s.suspended
    ensures Stalled(OnPreErr(s, i, reason)) <==> s.refillTimer.None? && (s.pool != {} || s.pending == 1)
  {
    PendingIsPositiveInChunk(s, i);
  }

  lemma LateRejectionStallsNothing(s: State, i: nat, reason: string)
    requires InvInChunk(s, i) && !Stalled(s) && (s.conns[i].settled || reason in FATAL_REJECTIONS)
    ensures !Stalled(OnPreErr(s, i, reason))
  {
  }

  /** Exactly which frame stalls a pool that is not stalled yet. */
  lemma FrameStallsExactly(s: State, i: nat, f: Frame)
    requires InvInChunk(s, i) && !s.conns[i].detached && SlotsAccounted(s) && s.started && !Stalled(s)
    ensures Stalled(OnFrame(s, i, f)) <==> StallingRejection(s, i, f)
  {
    match f
    case PreOk =>
      AcceptedKeepsInv(s, i);
      FormedAccounts(Accepted(s, i));
    case PreErr(reason) =>
      if s.conns[i].settled || reason in FATAL_REJECTIONS {
        LateRejectionStallsNothing(s, i, reason);
      } else if !s.suspended {
        RejectionStallsExactly(s, i, reason);
      }
    case Pong =>
    case Open(portOk) =>
      ConsumedKeepsInv(s, i);
      FormedAccounts(Consumed(s, i));
    case Unknown =>
  }

  /** The same for every reachable state, where the frame arrives as a chunk of its own. */
  lemma StalledByExactly(s: State, i: nat, f: Frame)
    requires Reachable(s) && Enabled(s, Data(i, [f])) && !Stalled(s)
    ensures Stalled(Step(s, Data(i, [f]))) <==> StallingRejection(s, i, f)
  {
    var now: int, es: seq<Event> :| ValidRun(Initial(now), es) && Run(Initial(now), es) == s;
    RunAccounts(Initial(now), es);
    ReachableInv(s);
    assert OnFrames(OnFrame(s, i, f), i, [f][1..]) == OnFrame(s, i, f);
    assert Step(s, Data(i, [f])) == OnFrame(s, i, f);
    if s.started { FrameStallsExactly(s, i, f); }
  }

  lemma {:induction false} FramesStallNothing(s: State, i: nat, frames: seq<Frame>)
    requires InvInChunk(s, i) && SlotsAccounted(s) && s.started && !Stalled(s)
    requires forall j :: 0 <= j < |frames| ==> !NonFatal(frames[j])
    ensures !Stalled(OnFrames(s, i, frames))
    decreases |frames|
  {
    if frames != [] && !s.conns[i].detached {
      FrameStallsExactly(s, i, frames[0]);
      OnFrameAccounts(s, i, frames[0]);
      OnFrameKeepsInv(s, i, frames[0]);
      FramesStallNothing(OnFrame(s, i, frames[0]), i, frames[1..]);
    }
  }

  /** Nothing but a chunk with a non-fatal PRE:ERR in it takes the pool from not stalled to stalled. */
  lemma OnlyRejectionsStall(s: State, e: Event)
    requires Reachable(s) && Enabled(s, e) && !Stalled(s)
    ensures Stalled(Step(s, e)) ==> e.Data? && exists j :: 0 <= j < |e.frames| && NonFatal(e.frames[j])
  {
    var now: int, es: seq<Event> :| ValidRun(Initial(now), es) && Run(Initial(now), es) == s;
    RunAccounts(Initial(now), es);
    ReachableInv(s);
    match e
    case Data(i, frames) =>
      if s.started && forall j :: 0 <= j < |frames| ==> !NonFatal(frames[j]) { FramesStallNothing(s, i, frames); }
    case Close(i, random) => OnCloseAccounts(s, i, random);
    case Init(uuid, secret) =>
      FormedAccounts(WithoutRefillTimer(
        s.(suspended := false, consecutiveFailures := 0, resetAt := s.now, started := true)));
    case Refill(id) => FormedAccounts(s.(timers := s.timers - {id}, refillTimer := None));
    case _ =>
  }

  // ---- the permanent stall -----------------------------------------------------------------------

  /** No socket is pooled or pending, no refill is armed: nothing but a new start can wake the pool. */
  ghost predicate Dormant(s: State) {
    Inv(s) && s.pool == {} && s.pending == 0 && s.refillTimer.None?
  }

  predicate Restarts(e: Event) {
    e.Init? && e.uuid && e.secret
  }

  predicate NoRestart(es: seq<Event>) {
    forall k :: 0 <= k < |es| ==> !Restarts(es[k])
  }

  lemma NothingUnsettled(s: State)
    requires Inv(s) && s.pending == 0
    ensures forall k: nat :: k < |s.conns| ==> s.conns[k].settled
  {
    forall k: nat | k < |s.conns| ensures s.conns[k].settled {
      if !s.conns[k].settled { PendingIsPositive(s, k); }
    }
  }

  lemma DormantStep(s: State, e: Event)
    requires Dormant(s) && Enabled(s, e) && !Restarts(e)
    ensures Dormant(Step(s, e)) && |Step(s, e).conns| == |s.conns|
  {
    StepKeepsInv(s, e);
    NothingUnsettled(s);
    if e.Data? {
      assert false;
    }
    if e.Close? { assert s.pool - {e.i} == {}; }
  }

  lemma {:induction false} DormantForever(s: State, es: seq<Event>)
    requires Dormant(s) && ValidRun(s, es) && NoRestart(es)
    ensures Dormant(Run(s, es)) && |Run(s, es).conns| == |s.conns|
    decreases |es|
  {
    if es != [] {
      assert !Restarts(es[0]);
      DormantStep(s, es[0]);
      forall k | 0 <= k < |es[1..]| ensures !Restarts(es[1..][k]) { assert es[1..][k] == es[k + 1]; }
      DormantForever(Step(s, es[0]), es[1..]);
    }
  }

  /** A pool that stalls while empty opens no socket ever again until it is started anew. */
  lemma EmptyStallIsPermanent(s: State, es: seq<Event>)
    requires Reachable(s) && Stalled(s) && s.pool == {}
    requires ValidRun(s, es) && NoRestart(es)
    ensures Run(s, es).pool == {} && Run(s, es).pending == 0 && |Run(s, es).conns| == |s.conns|
  {
    ReachableInv(s);
    DormantForever(s, es);
  }

  /** Start, connect, one non-fatal rejection of the single probe, its close: the pool is stalled. */
  lemma StallHappens() returns (es: seq<Event>)
    ensures ValidRun(Initial(0), es)
    ensures Stalled(Run(Initial(0), es)) && Run(Initial(0), es).pool == {}
  {
    var e0, e1, e2, e3 := Init(true, true), Connect(0), Data(0, [PreErr("replayed")]), Close(0, 0.0);
    var s1 := Step(Initial(0), e0);
    var s2 := Step(s1, e1);
    var s3 := Step(s2, e2);
    assert s3 == OnPreErr(s2, 0, "replayed");
    RunCons(s3, e3, []);
    RunCons(s2, e2, [e3]);
    RunCons(s1, e1, [e2] + [e3]);
    RunCons(Initial(0), e0, [e1] + ([e2] + [e3]));
    es := [e0] + ([e1] + ([e2] + [e3]));
  }

  // ---- suspension --------------------------------------------------------------------------------

  lemma OnFrameWhileSuspended(s: State, i: nat, f: Frame)
    requires Exists(s, i) && s.suspended
    ensures OnFrame(s, i, f).suspended && |OnFrame(s, i, f).conns| == |s.conns|
  {
  }

  lemma {:induction false} OnFramesWhileSuspended(s: State, i: nat, frames: seq<Frame>)
    requires Exists(s, i) && s.suspended
    ensures OnFrames(s, i, frames).suspended && |OnFrames(s, i, frames).conns| == |s.conns|
    decreases |frames|
  {
    if frames != [] && !s.conns[i].detached {
      OnFrameWhileSuspended(s, i, frames[0]);
      OnFramesWhileSuspended(OnFrame(s, i, frames[0]), i, frames[1..]);
    }
  }

  lemma StepWhileSuspended(s: State, e: Event)
    requires s.suspended && Enabled(s, e) && !Restarts(e)
    ensures Step(s, e).suspended && |Step(s, e).conns| == |s.conns|
  {
    match e
    case Data(i, frames) => OnFramesWhileSuspended(s, i, frames);
    case _ =>
  }

  /**
   Suspension is absorbing: whatever closes, consumptions, late acks and timers follow, no refill is armed
   and no socket is created until the next successful initPreconnectPool.
   */
  lemma {:induction false} SuspensionIsAbsorbing(s: State, es: seq<Event>)
    requires Inv(s) && s.suspended && ValidRun(s, es) && NoRestart(es)
    ensures Run(s, es).suspended && Run(s, es).timers == map[]
    ensures |Run(s, es).conns| == |s.conns|
    decreases |es|
  {
    if es == [] {
      assert s.timers.Keys == {};
    } else {
      assert !Restarts(es[0]);
      StepKeepsInv(s, es[0]);
      StepWhileSuspended(s, es[0]);
      forall k | 0 <= k < |es[1..]| ensures !Restarts(es[1..][k]) { assert es[1..][k] == es[k + 1]; }
      SuspensionIsAbsorbing(Step(s, es[0]), es[1..]);
    }
  }

  lemma {:induction false} OnFramesInTwo(s: State, i: nat, first: seq<Frame>, second: seq<Frame>)
    requires Exists(s, i)
    ensures OnFrames(s, i, first + second) == OnFrames(OnFrames(s, i, first), i, second)
    decreases |first|
  {
    if first == [] || s.conns[i].detached {
      assert first == [] ==> first + second == second;
    } else {
      assert (first + second)[1..] == first[1..] + second;
      OnFramesInTwo(OnFrame(s, i, first[0]), i, first[1..], second);
    }
  }

  lemma FrameKeepsReader(s: State, i: nat, f: Frame)
    requires Exists(s, i) && !s.conns[i].detached && !f.Open?
    ensures !OnFrame(s, i, f).conns[i].detached
  {
    match f
    case PreOk => assert OnPreOk(s, i).conns[i] == Accepted(s, i).conns[i];
    case PreErr(reason) => assert OnPreErr(s, i, reason).conns[i].detached == s.conns[i].detached;
    case _ =>
  }

  lemma {:induction false} OnlyOpenDetaches(s: State, i: nat, frames: seq<Frame>)
    requires Exists(s, i) && !s.conns[i].detached && forall k :: 0 <= k < |frames| ==> !frames[k].Open?
    ensures !OnFrames(s, i, frames).conns[i].detached
    decreases |frames|
  {
    if frames != [] {
      FrameKeepsReader(s, i, frames[0]);
      OnlyOpenDetaches(OnFrame(s, i, frames[0]), i, frames[1..]);
    }
  }

  lemma FatalFrameSuspends(s: State, i: nat, before: seq<Frame>, reason: string, after: seq<Frame>)
    requires Exists(s, i) && !s.conns[i].detached && IsFatal(reason)
    requires forall k :: 0 <= k < |before| ==> !before[k].Open?
    ensures var t := OnFrames(s, i, before + ([PreErr(reason)] + after));
      t.suspended && |t.conns| == |OnFrames(s, i, before).conns|
  {
    var u := OnFrames(s, i, before);
    OnlyOpenDetaches(s, i, before);
    OnFramesInTwo(s, i, before, [PreErr(reason)] + after);
    assert ([PreErr(reason)] + after)[1..] == after;
    OnFramesWhileSuspended(OnPreErr(u, i, reason), i, after);
  }

  /**
   A fatal rejection halts the pool for good: whatever stands before it (but OPEN) and after it in its chunk,
   and whatever happens afterwards, from its line on no socket is created and no refill armed until the next
   successful start.
   */
  lemma FatalRejectionHalts(s: State, i: nat, before: seq<Frame>, reason: string, after: seq<Frame>, es: seq<Event>)
    requires Reachable(s) && Enabled(s, Data(i, before + ([PreErr(reason)] + after))) && IsFatal(reason)
    requires forall k :: 0 <= k < |before| ==> !before[k].Open?
    requires ValidRun(Step(s, Data(i, before + ([PreErr(reason)] + after))), es) && NoRestart(es)
    ensures var t := Run(Step(s, Data(i, before + ([PreErr(reason)] + after))), es);
      t.suspended && t.timers == map[] && |t.conns| == |OnFrames(s, i, before).conns|
  {
    var e := Data(i, before + ([PreErr(reason)] + after));
    ReachableInv(s);
    StepKeepsInv(s, e);
    FatalFrameSuspends(s, i, before, reason, after);
    SuspensionIsAbsorbing(Step(s, e), es);
  }
}
