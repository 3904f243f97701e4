/**
 The listener that stands between the hub and the agent's handlers: every event but three is verified
 first, and all events share one replay guard for as long as the process lives.
 */
module HubListeners {
  import opened Options
  import opened JsonText
  import opened Canonical
  import opened ReplayGuards
  import opened Signing
  import opened SignatureFacts

  const UNVERIFIED_EVENTS := {Ascii("register"), Ascii("connect"), Ascii("disconnect")}

  /** An event arrives; `secret` and `clock` are what reading the secret and the time would give then. */
  datatype Packet = Packet(event: JsString, payload: Js, secret: Option<JsString>, clock: real)

  datatype Call = Call(event: JsString, payload: Js)

  /** The guard's memory after a packet, and whether the packet reaches its handler. */
  function Received(host: Host, seen: Memory, p: Packet): (Memory, bool)
    requires WellFormed(p.payload)
  {
    if p.event in UNVERIFIED_EVENTS then (seen, true)
    else if !HasSecret(p.secret) then (seen, false)
    else
      var (kept, r) := VerifyOutcome(host, p.event, p.payload, p.secret, p.clock, DEFAULT_MAX_CLOCK_SKEW_MS,
                                     DEFAULT_MAX_CLOCK_SKEW_MS, seen);
      (kept, r == Ok)
  }

  // ---- whole runs --------------------------------------------------------------------------------

  ghost predicate ValidPackets(ps: seq<Packet>) {
    forall k :: 0 <= k < |ps| ==> WellFormed(ps[k].payload)
  }

  /** The guard's memory after a run that starts with the process. */
  ghost function SeenAfter(host: Host, ps: seq<Packet>): Memory
    requires ValidPackets(ps)
  {
    if ps == [] then map[]
    else Received(host, SeenAfter(host, ps[..|ps| - 1]), ps[|ps| - 1]).0
  }

  /** Packet k reaches its handler as a verified event. */
  ghost predicate Executed(host: Host, ps: seq<Packet>, k: nat)
    requires ValidPackets(ps) && k < |ps|
  {
    ps[k].event !in UNVERIFIED_EVENTS && Received(host, SeenAfter(host, ps[..k]), ps[k]).1
  }

  function Check(host: Host, p: Packet): Checked
    requires WellFormed(p.payload)
  {
    CheckSignature(host, p.event, p.payload, p.secret)
  }

  predicate IsSigned(host: Host, p: Packet)
    requires WellFormed(p.payload)
  {
    p.event !in UNVERIFIED_EVENTS && Check(host, p).Signed?
  }

  /** The packet as the guard sees it; one that never gets there is one that is out of time. */
  function DeliveryOf(host: Host, p: Packet): Delivery
    requires WellFormed(p.payload)
  {
    if IsSigned(host, p)
    then Delivery(p.clock, Check(host, p).nonce, TimeOf(host, Check(host, p).timestamp))
    else Delivery(p.clock, [], p.clock - DEFAULT_MAX_CLOCK_SKEW_MS - 1.0)
  }

  ghost function Deliveries(host: Host, ps: seq<Packet>): seq<Delivery>
    requires ValidPackets(ps)
  {
    seq(|ps|, k requires 0 <= k < |ps| => DeliveryOf(host, ps[k]))
  }

  lemma ReceivedIsDelivered(host: Host, seen: Memory, p: Packet)
    requires WellFormed(p.payload)
    ensures Received(host, seen, p).0
      == After(seen, DEFAULT_MAX_CLOCK_SKEW_MS, DEFAULT_MAX_CLOCK_SKEW_MS, DeliveryOf(host, p))
    ensures p.event !in UNVERIFIED_EVENTS ==> (Received(host, seen, p).1
      <==> AcceptedIn(seen, DEFAULT_MAX_CLOCK_SKEW_MS, DEFAULT_MAX_CLOCK_SKEW_MS, DeliveryOf(host, p)))
  {
  }

  lemma {:induction false} RunIsDelivered(host: Host, ps: seq<Packet>)
    requires ValidPackets(ps)
    ensures SeenAfter(host, ps)
      == MemoryAfter(Deliveries(host, ps), DEFAULT_MAX_CLOCK_SKEW_MS, DEFAULT_MAX_CLOCK_SKEW_MS)
    decreases |ps|
  {
    if ps != [] {
      var n := |ps| - 1;
      RunIsDelivered(host, ps[..n]);
      assert Deliveries(host, ps)[..n] == Deliveries(host, ps[..n]);
      ReceivedIsDelivered(host, SeenAfter(host, ps[..n]), ps[n]);
    }
  }

  /** A verified event reaches its handler exactly if the guard accepts it, and then its signature held. */
  lemma ExecutedIsAccepted(host: Host, ps: seq<Packet>, k: nat)
    requires ValidPackets(ps) && k < |ps| && ps[k].event !in UNVERIFIED_EVENTS
    ensures Executed(host, ps, k)
      <==> Accepted(Deliveries(host, ps), k, DEFAULT_MAX_CLOCK_SKEW_MS, DEFAULT_MAX_CLOCK_SKEW_MS)
    ensures Executed(host, ps, k) ==> IsSigned(host, ps[k])
  {
    RunIsDelivered(host, ps[..k]);
    assert Deliveries(host, ps)[..k] == Deliveries(host, ps[..k]);
    ReceivedIsDelivered(host, SeenAfter(host, ps[..k]), ps[k]);
  }

  lemma UnsignedIsOutOfTime(host: Host, p: Packet)
    requires WellFormed(p.payload)
    ensures InTime(DeliveryOf(host, p), DEFAULT_MAX_CLOCK_SKEW_MS) ==> IsSigned(host, p)
  {
  }

  // ---- what reaches a handler --------------------------------------------------------------------

  /**
   What the source promises of packet k: a packet of the three events of the connection itself is passed on,
   and any other only if its signature holds, its time is within five minutes of the clock, and no packet
   with its nonce that was passed on is still kept.
   */
  ghost predicate ShouldReach(host: Host, ps: seq<Packet>, k: nat)
    requires ValidPackets(ps) && k < |ps|
  {
    if ps[k].event == Ascii("register") || ps[k].event == Ascii("connect") || ps[k].event == Ascii("disconnect")
    then true
    else Check(host, ps[k]).Signed? && IsLetThrough(Deliveries(host, ps), k, 300_000.0, 300_000.0)
  }

  /** The calls a run should lead to: its packets that should reach a handler, in order. */
  ghost function ExpectedCalls(host: Host, ps: seq<Packet>): seq<Call>
    requires ValidPackets(ps)
  {
    if ps == [] then []
    else
      var n := |ps| - 1;
      ExpectedCalls(host, ps[..n]) + if ShouldReach(host, ps, n) then [Call(ps[n].event, ps[n].payload)] else []
  }

  /** Packet k reaches its handler exactly if it should. */
  lemma ReachesExactly(host: Host, ps: seq<Packet>, k: nat)
    requires ValidPackets(ps) && k < |ps|
    ensures Received(host, SeenAfter(host, ps[..k]), ps[k]).1 <==> ShouldReach(host, ps, k)
  {
    if ps[k].event !in UNVERIFIED_EVENTS {
      ExecutedIsAccepted(host, ps, k);
      AcceptedExactly(Deliveries(host, ps), k, 300_000.0, 300_000.0);
      if InTime(Deliveries(host, ps)[k], 300_000.0) { UnsignedIsOutOfTime(host, ps[k]); }
    }
  }

  /** What one more packet adds. */
  lemma OneMorePacket(host: Host, ps: seq<Packet>, p: Packet)
    requires ValidPackets(ps) && WellFormed(p.payload)
    ensures var all := ps + [p];
      && ValidPackets(all)
      && SeenAfter(host, all) == Received(host, SeenAfter(host, ps), p).0
      && (Received(host, SeenAfter(host, ps), p).1 <==> ShouldReach(host, all, |ps|))
      && ExpectedCalls(host, all)
           == ExpectedCalls(host, ps) + if ShouldReach(host, all, |ps|) then [Call(p.event, p.payload)] else []
  {
    var all := ps + [p];
    assert all[..|ps|] == ps && all[|ps|] == p;
    ReachesExactly(host, all, |ps|);
  }

  // ---- the listener ------------------------------------------------------------------------------

  class HubListener {
    const host: Host
    const replayGuard: ReplayGuard
    /** The handler calls made so far. */
    var calls: seq<Call>
    /** Every packet that arrived. */
    ghost var arrived: seq<Packet>

    /** The calls made and what the guard remembers are those of the packets that arrived. */
    ghost predicate Valid()
      reads this, replayGuard
    {
      && replayGuard.windowMs == DEFAULT_MAX_CLOCK_SKEW_MS
      && ValidPackets(arrived)
      && replayGuard.seen == SeenAfter(host, arrived)
      && calls == ExpectedCalls(host, arrived)
    }

    constructor (host: Host)
      ensures Valid() && this.host == host && calls == [] && arrived == [] && fresh(replayGuard)
    {
      this.host := host;
      replayGuard := new ReplayGuard(DEFAULT_MAX_CLOCK_SKEW_MS);
      calls := [];
      arrived := [];
    }

    method Invoke(p: Packet)
      modifies this`calls
      ensures calls == old(calls) + [Call(p.event, p.payload)]
    {
      calls := calls + [Call(p.event, p.payload)];
    }

    method Handle(p: Packet)
      requires WellFormed(p.payload) && replayGuard.windowMs == DEFAULT_MAX_CLOCK_SKEW_MS
      modifies this`calls, replayGuard
      ensures replayGuard.seen == Received(host, old(replayGuard.seen), p).0
      ensures calls ==
        old(calls) + if Received(host, old(replayGuard.seen), p).1 then [Call(p.event, p.payload)] else []
    {
      if p.event in UNVERIFIED_EVENTS {
        Invoke(p);
        return;
      }
      if !HasSecret(p.secret) {
        return;
      }
      var verification :=
        Verify(host, p.event, p.payload, p.secret, p.clock, DEFAULT_MAX_CLOCK_SKEW_MS, replayGuard);
      if verification != Ok {
        return;
      }
      Invoke(p);
    }

    method Receive(p: Packet)
      requires WellFormed(p.payload) && Valid()
      modifies this, replayGuard
      ensures Valid() && arrived == old(arrived) + [p]
      ensures calls == old(calls) + if ShouldReach(host, arrived, |arrived| - 1) then [Call(p.event, p.payload)] else []
    {
      ghost var before := arrived;
      arrived := arrived + [p];
      OneMorePacket(host, before, p);
      Handle(p);
    }
  }

  // ---- no command twice --------------------------------------------------------------------------

  /**
   No reading of the clock lies more than `backMs` below an earlier one, and a signed timestamp the time check
   lets through is at most `aheadMs` ahead of it.
   */
  ghost predicate SteadyClock(host: Host, ps: seq<Packet>, aheadMs: real, backMs: real)
    requires ValidPackets(ps)
  {
    && (forall j, k :: 0 <= j < k < |ps| ==> ps[j].clock <= ps[k].clock + backMs)
    && (forall k :: 0 <= k < |ps| && IsSigned(host, ps[k]) ==>
          TimeOf(host, Check(host, ps[k]).timestamp) <= ps[k].clock + aheadMs
          || TooFarOff(host, Check(host, ps[k]).timestamp, ps[k].clock, DEFAULT_MAX_CLOCK_SKEW_MS))
  }

  /** Two packets with the same signed nonce and time both reach a handler. */
  ghost predicate ExecutedTwice(host: Host, ps: seq<Packet>, j: nat, k: nat)
    requires ValidPackets(ps) && j < k < |ps|
  {
    && Executed(host, ps, j) && Executed(host, ps, k)
    && IsSigned(host, ps[j]) && IsSigned(host, ps[k])
    && Check(host, ps[j]).nonce == Check(host, ps[k]).nonce
    && TimeOf(host, Check(host, ps[j]).timestamp) == TimeOf(host, Check(host, ps[k]).timestamp)
  }

  lemma SteadyIsPlausible(host: Host, ps: seq<Packet>, aheadMs: real, backMs: real)
    requires ValidPackets(ps) && SteadyClock(host, ps, aheadMs, backMs)
    ensures Plausible(Deliveries(host, ps), DEFAULT_MAX_CLOCK_SKEW_MS, aheadMs, backMs)
  {
    var ds := Deliveries(host, ps);
    forall k | 0 <= k < |ds| && InTime(ds[k], DEFAULT_MAX_CLOCK_SKEW_MS)
      ensures ds[k].timestamp <= ds[k].clock + aheadMs
    {
      assert ds[k] == DeliveryOf(host, ps[k]);
    }
    forall j, k | 0 <= j < k < |ds| ensures ds[j].clock <= ds[k].clock + backMs {
      assert ds[j].clock == ps[j].clock && ds[k].clock == ps[k].clock;
    }
  }

  /**
   No command is executed twice: over any run in which the clock is never set back and no accepted timestamp
   is ahead of it, whatever the events, payloads and secrets, two verified packets that both reach a handler
   differ in nonce or time.
   */
  lemma NothingIsExecutedTwice(host: Host, ps: seq<Packet>, j: nat, k: nat)
    requires ValidPackets(ps) && SteadyClock(host, ps, 0.0, 0.0) && j < k < |ps|
    ensures Executed(host, ps, j) && Executed(host, ps, k) ==> IsSigned(host, ps[j]) && IsSigned(host, ps[k])
    ensures !ExecutedTwice(host, ps, j, k)
  {
    var skew, ds := DEFAULT_MAX_CLOCK_SKEW_MS, Deliveries(host, ps);
    if Executed(host, ps, j) && Executed(host, ps, k) {
      ExecutedIsAccepted(host, ps, j);
      ExecutedIsAccepted(host, ps, k);
    }
    SteadyIsPlausible(host, ps, 0.0, 0.0);
    WideWindowIsSafe(skew, skew, 0.0, 0.0);
    assert !Replayed(ds, j, k, skew, skew);
  }

  /**
   The guard remembers executed packets and nothing else: whatever is turned away, for whatever reason, burns
   no nonce.
   */
  lemma OnlyExecutedAreRemembered(host: Host, ps: seq<Packet>, nonce: JsString) returns (k: nat)
    requires ValidPackets(ps) && nonce in SeenAfter(host, ps)
    ensures k < |ps| && Executed(host, ps, k) && IsSigned(host, ps[k])
    ensures Check(host, ps[k]).nonce == nonce
    ensures TimeOf(host, Check(host, ps[k]).timestamp) == SeenAfter(host, ps)[nonce]
  {
    var skew, ds := DEFAULT_MAX_CLOCK_SKEW_MS, Deliveries(host, ps);
    RunIsDelivered(host, ps);
    k := RememberedWereAccepted(ds, skew, skew, nonce);
    assert ds[k] == DeliveryOf(host, ps[k]);
    UnsignedIsOutOfTime(host, ps[k]);
    ExecutedIsAccepted(host, ps, k);
  }

  // ---- how a packet comes to run twice -----------------------------------------------------------

  /** A packet as a sender with the secret makes it, from a plain object. */
  function SignedPacket(host: Host, event: JsString, payload: Js, secret: JsString, t: JsString, nonce: JsString,
                        clock: real): Packet
    requires WellFormed(payload) && payload.Obj?
  {
    Packet(event, Sign(host, event, payload, Some(secret), Finite(t), nonce), Some(secret), clock)
  }

  /** A packet of a verified event whose signature holds for this nonce and time. */
  predicate Carries(host: Host, p: Packet, nonce: JsString, time: real) {
    && WellFormed(p.payload) && IsSigned(host, p)
    && Check(host, p).nonce == nonce && TimeOf(host, Check(host, p).timestamp) == time
  }

  lemma SignedPacketCarries(host: Host, event: JsString, payload: Js, secret: JsString, t: JsString,
                            nonce: JsString, clock: real)
    requires HostOk(host) && WellFormed(payload) && payload.Obj? && secret != [] && nonce != [] && IsNumeral(t)
    requires event !in UNVERIFIED_EVENTS
    ensures Carries(host, SignedPacket(host, event, payload, secret, t, nonce, clock), nonce, host.valueOf(t))
  {
    var signed := Sign(host, event, payload, Some(secret), Finite(t), nonce);
    SignedShape(host, event, payload, Some(secret), Finite(t), nonce);
    SignatureHolds(host, event, payload, Some(secret), Finite(t), nonce, signed);
  }

  /** Packets that bring the guard just these deliveries. */
  ghost predicate Bring(host: Host, ps: seq<Packet>, ds: seq<Delivery>) {
    |ps| == |ds| && forall k :: 0 <= k < |ps| ==>
      Carries(host, ps[k], ds[k].nonce, ds[k].timestamp) && ps[k].clock == ds[k].clock
  }

  lemma BroughtAreDeliveries(host: Host, ps: seq<Packet>, ds: seq<Delivery>)
    requires Bring(host, ps, ds)
    ensures ValidPackets(ps) && Deliveries(host, ps) == ds
  {
    forall k | 0 <= k < |ps| ensures WellFormed(ps[k].payload) {
      assert Carries(host, ps[k], ds[k].nonce, ds[k].timestamp);
    }
    forall k | 0 <= k < |ps| ensures DeliveryOf(host, ps[k]) == ds[k] {
      assert Carries(host, ps[k], ds[k].nonce, ds[k].timestamp);
    }
  }

  lemma PlausibleIsSteady(host: Host, ps: seq<Packet>, aheadMs: real, backMs: real)
    requires ValidPackets(ps) && Plausible(Deliveries(host, ps), DEFAULT_MAX_CLOCK_SKEW_MS, aheadMs, backMs)
    ensures SteadyClock(host, ps, aheadMs, backMs)
  {
    var ds := Deliveries(host, ps);
    forall j, k | 0 <= j < k < |ps| ensures ps[j].clock <= ps[k].clock + backMs {
      assert ds[j].clock == ps[j].clock && ds[k].clock == ps[k].clock;
    }
    forall k | 0 <= k < |ps| && IsSigned(host, ps[k])
      ensures TimeOf(host, Check(host, ps[k]).timestamp) <= ps[k].clock + aheadMs
        || TooFarOff(host, Check(host, ps[k]).timestamp, ps[k].clock, DEFAULT_MAX_CLOCK_SKEW_MS)
    {
      assert ds[k] == DeliveryOf(host, ps[k]);
    }
  }

  /** What the guard lets in twice the listener runs twice. */
  lemma ReplayedRunsTwice(host: Host, ps: seq<Packet>, ds: seq<Delivery>, j: nat, k: nat)
    requires Bring(host, ps, ds) && j < k < |ds|
    requires Replayed(ds, j, k, DEFAULT_MAX_CLOCK_SKEW_MS, DEFAULT_MAX_CLOCK_SKEW_MS)
    ensures ValidPackets(ps) && ExecutedTwice(host, ps, j, k)
  {
    BroughtAreDeliveries(host, ps, ds);
    assert Carries(host, ps[j], ds[j].nonce, ds[j].timestamp) && Carries(host, ps[k], ds[k].nonce, ds[k].timestamp);
    ExecutedIsAccepted(host, ps, j);
    ExecutedIsAccepted(host, ps, k);
  }

  /**
   Three signed packets of which the last is the first over again, byte for byte: the second, whose time is
   more than the skew later, makes the guard forget the first while it is still in time. Before the third
   arrives the clock is set back by `back`.
   */
  function ReplayRun(host: Host, event: JsString, payload: Js, secret: JsString, t0: JsString, t1: JsString,
                     first: JsString, second: JsString, back: real): seq<Packet>
    requires WellFormed(payload) && payload.Obj?
  {
    var at := host.valueOf(t0);
    [SignedPacket(host, event, payload, secret, t0, first, at),
     SignedPacket(host, event, payload, secret, t1, second, at + DEFAULT_MAX_CLOCK_SKEW_MS + back),
     SignedPacket(host, event, payload, secret, t0, first, at + DEFAULT_MAX_CLOCK_SKEW_MS)]
  }

  /** The parts of a replay run, and the numerals that carry its times. */
  predicate CanReplay(host: Host, event: JsString, payload: Js, secret: JsString, t0: JsString, t1: JsString,
                      first: JsString, second: JsString, lead: real, back: real)
  {
    && WellFormed(payload) && payload.Obj? && secret != [] && event !in UNVERIFIED_EVENTS
    && first != [] && second != [] && first != second && IsNumeral(t0) && IsNumeral(t1)
    && 0.0 <= lead <= DEFAULT_MAX_CLOCK_SKEW_MS && back >= 0.0 && lead + back > 0.0
    && host.valueOf(t1) == host.valueOf(t0) + DEFAULT_MAX_CLOCK_SKEW_MS + back + lead
  }

  lemma BringThree(host: Host, ps: seq<Packet>, ds: seq<Delivery>)
    requires |ps| == |ds| == 3
    requires Carries(host, ps[0], ds[0].nonce, ds[0].timestamp) && ps[0].clock == ds[0].clock
    requires Carries(host, ps[1], ds[1].nonce, ds[1].timestamp) && ps[1].clock == ds[1].clock
    requires Carries(host, ps[2], ds[2].nonce, ds[2].timestamp) && ps[2].clock == ds[2].clock
    ensures Bring(host, ps, ds)
  {
    forall k | 0 <= k < 3 ensures Carries(host, ps[k], ds[k].nonce, ds[k].timestamp) && ps[k].clock == ds[k].clock {
      assert k == 0 || k == 1 || k == 2;
    }
  }

  lemma ReplayRunBrings(host: Host, event: JsString, payload: Js, secret: JsString, t0: JsString, t1: JsString,
                        first: JsString, second: JsString, lead: real, back: real)
    requires HostOk(host) && CanReplay(host, event, payload, secret, t0, t1, first, second, lead, back)
    ensures Bring(host, ReplayRun(host, event, payload, secret, t0, t1, first, second, back),
                  ReplayedDeliveries(first, second, host.valueOf(t0), DEFAULT_MAX_CLOCK_SKEW_MS, lead, back))
  {
    var skew, at := DEFAULT_MAX_CLOCK_SKEW_MS, host.valueOf(t0);
    SignedPacketCarries(host, event, payload, secret, t0, first, at);
    SignedPacketCarries(host, event, payload, secret, t1, second, at + skew + back);
    SignedPacketCarries(host, event, payload, secret, t0, first, at + skew);
    BringThree(host, ReplayRun(host, event, payload, secret, t0, t1, first, second, back),
               ReplayedDeliveries(first, second, at, skew, lead, back));
  }

  /**
   Any lead of a timestamp over the clock, and any setback of the clock, lets a signed packet run twice,
   whatever event, payload and secret.
   */
  lemma LeadOrSetbackRunsTwice(
      host: Host, event: JsString, payload: Js, secret: JsString, t0: JsString, t1: JsString,
      first: JsString, second: JsString, lead: real, back: real)
    requires HostOk(host) && CanReplay(host, event, payload, secret, t0, t1, first, second, lead, back)
    ensures var ps := ReplayRun(host, event, payload, secret, t0, t1, first, second, back);
      && ValidPackets(ps) && SteadyClock(host, ps, lead, back) && ps[0].payload == ps[2].payload
      && ExecutedTwice(host, ps, 0, 2)
  {
    var ps := ReplayRun(host, event, payload, secret, t0, t1, first, second, back);
    var skew, at := DEFAULT_MAX_CLOCK_SKEW_MS, host.valueOf(t0);
    var ds := ReplayedDeliveries(first, second, at, skew, lead, back);
    ReplayRunBrings(host, event, payload, secret, t0, t1, first, second, lead, back);
    PushedOut(first, second, at, skew, skew, lead, back);
    BroughtAreDeliveries(host, ps, ds);
    PlausibleIsSteady(host, ps, lead, back);
    ReplayedRunsTwice(host, ps, ds, 0, 2);
  }

  /** A run with accepted timestamps and setbacks of the clock within bounds executes packet j again as k. */
  ghost predicate RunsTwice(host: Host, ps: seq<Packet>, j: nat, k: nat, aheadMs: real, backMs: real) {
    ValidPackets(ps) && SteadyClock(host, ps, aheadMs, backMs) && j < k < |ps| && ExecutedTwice(host, ps, j, k)
  }

  ghost predicate ExecutesOnce(host: Host, aheadMs: real, backMs: real) {
    forall ps: seq<Packet>, j: nat, k: nat :: !RunsTwice(host, ps, j, k, aheadMs, backMs)
  }

  lemma WiderBoundsAreSteadyToo(host: Host, ps: seq<Packet>, lead: real, back: real, aheadMs: real, backMs: real)
    requires ValidPackets(ps) && SteadyClock(host, ps, lead, back) && lead <= aheadMs && back <= backMs
    ensures SteadyClock(host, ps, aheadMs, backMs)
  {
  }

  /** Two numerals further apart than the skew, by no more than the bounds can make up for. */
  predicate Spans(host: Host, t0: JsString, t1: JsString, aheadMs: real, backMs: real) {
    && IsNumeral(t0) && IsNumeral(t1)
    && DEFAULT_MAX_CLOCK_SKEW_MS < host.valueOf(t1) - host.valueOf(t0)
         <= DEFAULT_MAX_CLOCK_SKEW_MS + Lead(aheadMs, DEFAULT_MAX_CLOCK_SKEW_MS) + backMs
  }

  lemma RunsTwiceWithinBounds(host: Host, aheadMs: real, backMs: real, t0: JsString, t1: JsString)
    returns (ps: seq<Packet>)
    requires HostOk(host) && aheadMs >= 0.0 && backMs >= 0.0 && Spans(host, t0, t1, aheadMs, backMs)
    ensures RunsTwice(host, ps, 0, 2, aheadMs, backMs)
  {
    var beyond := host.valueOf(t1) - host.valueOf(t0) - DEFAULT_MAX_CLOCK_SKEW_MS;
    var most := Lead(aheadMs, DEFAULT_MAX_CLOCK_SKEW_MS);
    var lead := if beyond <= most then beyond else most;
    var back := beyond - lead;
    ps := ReplayRun(host, [], Obj([]), [1], t0, t1, [0], [1], back);
    LeadOrSetbackRunsTwice(host, [], Obj([]), [1], t0, t1, [0], [1], lead, back);
    WiderBoundsAreSteadyToo(host, ps, lead, back, aheadMs, backMs);
  }

  /**
   With the default window and skew, packets run at most once if and only if no accepted timestamp may be
   ahead of the clock and the clock may not be set back. For the other direction numbers must be able to
   tell two times apart by a little more than the skew: `t0` and `t1` do.
   */
  lemma ExecutesOnceExactly(host: Host, aheadMs: real, backMs: real, t0: JsString, t1: JsString)
    requires HostOk(host) && aheadMs >= 0.0 && backMs >= 0.0
    requires aheadMs + backMs > 0.0 ==> Spans(host, t0, t1, aheadMs, backMs)
    ensures ExecutesOnce(host, aheadMs, backMs) <==> aheadMs == 0.0 && backMs == 0.0
  {
    if aheadMs == 0.0 && backMs == 0.0 {
      forall ps: seq<Packet>, j: nat, k: nat ensures !RunsTwice(host, ps, j, k, 0.0, 0.0) {
        if ValidPackets(ps) && SteadyClock(host, ps, 0.0, 0.0) && j < k < |ps| {
          NothingIsExecutedTwice(host, ps, j, k);
        }
      }
    } else {
      var ps := RunsTwiceWithinBounds(host, aheadMs, backMs, t0, t1);
    }
  }

  /** A packet captured under one event does not run under another, unless the digest collides. */
  lemma NoSignatureServesTwoEvents(host: Host, seen: Memory, seen': Memory, p: Packet, q: Packet)
    requires HostOk(host) && WellFormed(p.payload) && WellFormed(q.payload) && p.secret == q.secret
    requires p.event !in UNVERIFIED_EVENTS && q.event !in UNVERIFIED_EVENTS && p.event != q.event
    requires NEWLINE !in p.event && NEWLINE !in q.event
    requires Received(host, seen, p).1 && Received(host, seen', q).1
    ensures p.payload.Obj? && q.payload.Obj? && p.secret.Some?
    ensures Field(p.payload.props, SIGNATURE_FIELD) == Field(q.payload.props, SIGNATURE_FIELD) ==>
      var c, d := Check(host, p), Check(host, q);
      && c.Signed? && d.Signed?
      && Collides(host, p.secret.value, SigningMaterial(p.event, c.timestamp, c.nonce, p.payload),
                  SigningMaterial(q.event, d.timestamp, d.nonce, q.payload))
  {
    if Field(p.payload.props, SIGNATURE_FIELD) == Field(q.payload.props, SIGNATURE_FIELD) {
      OneSignatureOneMessage(host, p.event, p.payload, q.event, q.payload, p.secret);
    }
  }
}
