/**
 The replay guard: a map from nonces to message timestamps that forgets what lies outside its window.
 It measures the window from the timestamp of the message at hand, not from the clock. How wide the window
 must be for no message to be accepted twice is settled exactly.
 */
module ReplayGuards {
  import opened JsonText

  const DEFAULT_MAX_CLOCK_SKEW_MS: real := 300_000.0

  type Memory = map<JsString, real>

  function Abs(x: real): real {
    if x < 0.0 then -x else x
  }

  /** prune: what stays is within the window around `at`. */
  function Pruned(seen: Memory, windowMs: real, at: real): Memory {
    map nonce | nonce in seen && Abs(at - seen[nonce]) <= windowMs :: seen[nonce]
  }

  /** remember: the memory afterwards, and whether the nonce was new. */
  function Remembered(seen: Memory, windowMs: real, nonce: JsString, timestamp: real): (Memory, bool) {
    var kept := Pruned(seen, windowMs, timestamp);
    if nonce in kept then (kept, false) else (kept[nonce := timestamp], true)
  }

  class ReplayGuard {
    const windowMs: real
    var seen: Memory

    constructor (windowMs: real)
      ensures this.windowMs == windowMs && seen == map[]
    {
      this.windowMs := windowMs;
      seen := map[];
    }

    method Prune(at: real)
      modifies this
      ensures seen == Pruned(old(seen), windowMs, at)
    {
      var left := seen.Keys;
      while left != {}
        invariant left <= seen.Keys <= old(seen).Keys
        invariant forall nonce :: nonce in seen ==> seen[nonce] == old(seen)[nonce]
        invariant forall nonce :: nonce in left ==> nonce in old(seen)
        invariant forall nonce :: nonce in old(seen) && nonce !in left ==>
          (nonce in seen <==> Abs(at - old(seen)[nonce]) <= windowMs)
        decreases left
      {
        var nonce :| nonce in left;
        if Abs(at - seen[nonce]) > windowMs {
          seen := seen - {nonce};
        }
        left := left - {nonce};
      }
    }

    method Remember(nonce: JsString, timestamp: real) returns (isNew: bool)
      modifies this
      ensures (seen, isNew) == Remembered(old(seen), windowMs, nonce, timestamp)
    {
      Prune(timestamp);
      if nonce in seen {
        return false;
      }
      seen := seen[nonce := timestamp];
      return true;
    }
  }

  // ---- runs of one guard -------------------------------------------------------------------------

  /** A signed message reaches the receiver when its clock shows `clock`. */
  datatype Delivery = Delivery(clock: real, nonce: JsString, timestamp: real)

  /** verify's time check. */
  predicate InTime(d: Delivery, skewMs: real) {
    Abs(d.clock - d.timestamp) <= skewMs
  }

  /** The memory after a delivery: only one that is in time reaches the guard. */
  function After(seen: Memory, windowMs: real, skewMs: real, d: Delivery): Memory {
    if InTime(d, skewMs) then Remembered(seen, windowMs, d.nonce, d.timestamp).0 else seen
  }

  predicate AcceptedIn(seen: Memory, windowMs: real, skewMs: real, d: Delivery) {
    InTime(d, skewMs) && Remembered(seen, windowMs, d.nonce, d.timestamp).1
  }

  function MemoryAfter(ds: seq<Delivery>, windowMs: real, skewMs: real): Memory {
    if ds == [] then map[]
    else After(MemoryAfter(ds[..|ds| - 1], windowMs, skewMs), windowMs, skewMs, ds[|ds| - 1])
  }

  /** Whether delivery k of a run that starts with an empty guard is accepted. */
  predicate Accepted(ds: seq<Delivery>, k: nat, windowMs: real, skewMs: real)
    requires k < |ds|
  {
    AcceptedIn(MemoryAfter(ds[..k], windowMs, skewMs), windowMs, skewMs, ds[k])
  }

  /**
   No reading of the clock lies more than `backMs` below an earlier one, and messages in time are at most
   `aheadMs` ahead of it.
   */
  predicate Plausible(ds: seq<Delivery>, skewMs: real, aheadMs: real, backMs: real) {
    && (forall j, k :: 0 <= j < k < |ds| ==> ds[j].clock <= ds[k].clock + backMs)
    && (forall k :: 0 <= k < |ds| && InTime(ds[k], skewMs) ==> ds[k].timestamp <= ds[k].clock + aheadMs)
  }

  /** How far ahead of the clock a timestamp in time can be. */
  function Lead(aheadMs: real, skewMs: real): real {
    if aheadMs <= skewMs then aheadMs else skewMs
  }

  predicate Replayed(ds: seq<Delivery>, j: nat, k: nat, windowMs: real, skewMs: real)
    requires j < k < |ds|
  {
    && Accepted(ds, j, windowMs, skewMs) && Accepted(ds, k, windowMs, skewMs)
    && ds[j].nonce == ds[k].nonce && ds[j].timestamp == ds[k].timestamp
  }

  /** No plausible run accepts the same nonce and timestamp twice. */
  ghost predicate ReplaySafe(windowMs: real, skewMs: real, aheadMs: real, backMs: real) {
    forall ds: seq<Delivery>, j: nat, k: nat ::
      Plausible(ds, skewMs, aheadMs, backMs) && j < k < |ds| ==> !Replayed(ds, j, k, windowMs, skewMs)
  }

  lemma KeptByNearby(seen: Memory, windowMs: real, skewMs: real, d: Delivery, nonce: JsString)
    requires nonce in seen && (InTime(d, skewMs) ==> Abs(d.timestamp - seen[nonce]) <= windowMs)
    ensures var after := After(seen, windowMs, skewMs, d); nonce in after && after[nonce] == seen[nonce]
  {
  }

  /** A message and another that comes between it and its copy are within skew, lead and setback. */
  lemma WithinTheWindow(first: Delivery, d: Delivery, copyClock: real, windowMs: real, skewMs: real, aheadMs: real,
                        backMs: real)
    requires InTime(first, skewMs) && InTime(d, skewMs) && windowMs >= skewMs + Lead(aheadMs, skewMs) + backMs
    requires first.timestamp <= first.clock + aheadMs && d.timestamp <= d.clock + aheadMs
    requires first.clock <= d.clock + backMs && d.clock <= copyClock + backMs
    requires copyClock <= first.timestamp + skewMs
    ensures Abs(d.timestamp - first.timestamp) <= windowMs
  {
  }

  /** An accepted message is remembered up to any copy of it that would still be in time. */
  lemma {:induction false} AcceptedIsRemembered(
      ds: seq<Delivery>, j: nat, n: nat, copyClock: real, windowMs: real, skewMs: real, aheadMs: real, backMs: real)
    requires Plausible(ds, skewMs, aheadMs, backMs) && j < n <= |ds| && Accepted(ds, j, windowMs, skewMs)
    requires windowMs >= skewMs + Lead(aheadMs, skewMs) + backMs
    requires copyClock <= ds[j].timestamp + skewMs && forall k :: j < k < n ==> ds[k].clock <= copyClock + backMs
    ensures var seen := MemoryAfter(ds[..n], windowMs, skewMs);
      ds[j].nonce in seen && seen[ds[j].nonce] == ds[j].timestamp
    decreases n
  {
    var last := n - 1;
    assert ds[..n][..last] == ds[..last] && ds[..n][last] == ds[last];
    if j < last {
      AcceptedIsRemembered(ds, j, last, copyClock, windowMs, skewMs, aheadMs, backMs);
      if InTime(ds[last], skewMs) {
        WithinTheWindow(ds[j], ds[last], copyClock, windowMs, skewMs, aheadMs, backMs);
      }
      KeptByNearby(MemoryAfter(ds[..last], windowMs, skewMs), windowMs, skewMs, ds[last], ds[j].nonce);
    }
  }

  /** Only accepted messages are remembered: one that is turned away leaves no nonce behind. */
  lemma {:induction false} RememberedWereAccepted(ds: seq<Delivery>, windowMs: real, skewMs: real, nonce: JsString)
    returns (k: nat)
    requires nonce in MemoryAfter(ds, windowMs, skewMs)
    ensures k < |ds| && Accepted(ds, k, windowMs, skewMs)
    ensures ds[k].nonce == nonce && ds[k].timestamp == MemoryAfter(ds, windowMs, skewMs)[nonce]
    decreases |ds|
  {
    var n := |ds| - 1;
    var before := ds[..n];
    if AcceptedIn(MemoryAfter(before, windowMs, skewMs), windowMs, skewMs, ds[n]) && ds[n].nonce == nonce {
      k := n;
    } else {
      k := RememberedWereAccepted(before, windowMs, skewMs, nonce);
      assert ds[..k] == before[..k];
    }
  }

  // ---- acceptance, told by the deliveries alone --------------------------------------------------

  /** Nothing in time between delivery j and delivery n is further from j than the window. */
  predicate StillKept(ds: seq<Delivery>, j: nat, n: nat, windowMs: real, skewMs: real)
    requires j < n <= |ds|
  {
    forall m :: j < m < n && InTime(ds[m], skewMs) ==> Abs(ds[m].timestamp - ds[j].timestamp) <= windowMs
  }

  /** Delivery j brought this nonce, was let through, and is still kept before delivery n. */
  predicate Holds(ds: seq<Delivery>, j: nat, n: nat, nonce: JsString, windowMs: real, skewMs: real)
    requires n <= |ds|
  {
    j < n && ds[j].nonce == nonce && Accepted(ds, j, windowMs, skewMs) && StillKept(ds, j, n, windowMs, skewMs)
  }

  ghost predicate RemembersHeld(ds: seq<Delivery>, n: nat, nonce: JsString, windowMs: real, skewMs: real)
    requires n <= |ds|
  {
    var seen := MemoryAfter(ds[..n], windowMs, skewMs);
    && (nonce in seen <==> exists j: nat :: Holds(ds, j, n, nonce, windowMs, skewMs))
    && (forall j: nat :: Holds(ds, j, n, nonce, windowMs, skewMs) ==> nonce in seen && seen[nonce] == ds[j].timestamp)
  }

  lemma HoldsNext(ds: seq<Delivery>, j: nat, n: nat, nonce: JsString, windowMs: real, skewMs: real)
    requires n < |ds|
    ensures Holds(ds, j, n + 1, nonce, windowMs, skewMs) <==>
      if j == n then ds[n].nonce == nonce && Accepted(ds, n, windowMs, skewMs)
      else Holds(ds, j, n, nonce, windowMs, skewMs)
           && (InTime(ds[n], skewMs) ==> Abs(ds[n].timestamp - ds[j].timestamp) <= windowMs)
  {
  }

  lemma MemoryNext(ds: seq<Delivery>, n: nat, nonce: JsString, windowMs: real, skewMs: real)
    requires n < |ds|
    ensures var seen, after := MemoryAfter(ds[..n], windowMs, skewMs), MemoryAfter(ds[..n + 1], windowMs, skewMs);
      var kept := nonce in seen && (InTime(ds[n], skewMs) ==> Abs(ds[n].timestamp - seen[nonce]) <= windowMs);
      && (Accepted(ds, n, windowMs, skewMs) && ds[n].nonce == nonce ==>
            !kept && nonce in after && after[nonce] == ds[n].timestamp)
      && (!(Accepted(ds, n, windowMs, skewMs) && ds[n].nonce == nonce) ==>
            (nonce in after <==> kept) && (kept ==> after[nonce] == seen[nonce]))
  {
    assert ds[..n + 1][..n] == ds[..n] && ds[..n + 1][n] == ds[n];
  }

  lemma AcceptanceIsHeld(ds: seq<Delivery>, m: nat, nonce: JsString, windowMs: real, skewMs: real)
    requires m < |ds| && ds[m].nonce == nonce && Accepted(ds, m, windowMs, skewMs)
    requires RemembersHeld(ds, m, nonce, windowMs, skewMs)
    ensures RemembersHeld(ds, m + 1, nonce, windowMs, skewMs)
  {
    var n := m + 1;
    MemoryNext(ds, m, nonce, windowMs, skewMs);
    assert Holds(ds, m, n, nonce, windowMs, skewMs);
    forall j: nat | Holds(ds, j, n, nonce, windowMs, skewMs) ensures j == m {
      HoldsNext(ds, j, m, nonce, windowMs, skewMs);
    }
  }

  lemma OthersStayHeld(ds: seq<Delivery>, m: nat, nonce: JsString, windowMs: real, skewMs: real)
    requires m < |ds| && !(ds[m].nonce == nonce && Accepted(ds, m, windowMs, skewMs))
    requires RemembersHeld(ds, m, nonce, windowMs, skewMs)
    ensures RemembersHeld(ds, m + 1, nonce, windowMs, skewMs)
  {
    var n := m + 1;
    MemoryNext(ds, m, nonce, windowMs, skewMs);
    forall j: nat
      ensures Holds(ds, j, n, nonce, windowMs, skewMs) <==>
        Holds(ds, j, m, nonce, windowMs, skewMs) &&
        (InTime(ds[m], skewMs) ==> Abs(ds[m].timestamp - ds[j].timestamp) <= windowMs)
    {
      HoldsNext(ds, j, m, nonce, windowMs, skewMs);
    }
  }

  /** The guard remembers a nonce exactly while a delivery holds it, and with its time. */
  lemma {:induction false} MemoryIsHeld(ds: seq<Delivery>, n: nat, nonce: JsString, windowMs: real, skewMs: real)
    requires n <= |ds|
    ensures RemembersHeld(ds, n, nonce, windowMs, skewMs)
    decreases n
  {
    if n == 0 {
      assert ds[..0] == [];
    } else {
      MemoryIsHeld(ds, n - 1, nonce, windowMs, skewMs);
      if ds[n - 1].nonce == nonce && Accepted(ds, n - 1, windowMs, skewMs) {
        AcceptanceIsHeld(ds, n - 1, nonce, windowMs, skewMs);
      } else {
        OthersStayHeld(ds, n - 1, nonce, windowMs, skewMs);
      }
    }
  }

  /** Delivery k is in time and brings no nonce that was let through before and is still kept at its time. */
  predicate IsLetThrough(ds: seq<Delivery>, k: nat, windowMs: real, skewMs: real)
    requires k < |ds|
    decreases k
  {
    && InTime(ds[k], skewMs)
    && forall j :: 0 <= j < k && ds[j].nonce == ds[k].nonce && StillKept(ds, j, k + 1, windowMs, skewMs) ==>
         !IsLetThrough(ds, j, windowMs, skewMs)
  }

  lemma AcceptedUnlessHeld(ds: seq<Delivery>, k: nat, windowMs: real, skewMs: real)
    requires k < |ds|
    ensures Accepted(ds, k, windowMs, skewMs) <==>
      InTime(ds[k], skewMs) &&
      forall j: nat :: Holds(ds, j, k, ds[k].nonce, windowMs, skewMs) ==>
        Abs(ds[k].timestamp - ds[j].timestamp) > windowMs
  {
    MemoryIsHeld(ds, k, ds[k].nonce, windowMs, skewMs);
  }

  lemma StillKeptNext(ds: seq<Delivery>, j: nat, k: nat, windowMs: real, skewMs: real)
    requires j < k < |ds| && InTime(ds[k], skewMs)
    ensures StillKept(ds, j, k + 1, windowMs, skewMs) <==>
      StillKept(ds, j, k, windowMs, skewMs) && Abs(ds[k].timestamp - ds[j].timestamp) <= windowMs
  {
  }

  /** What the guard accepts, exactly, with its memory left out of the picture. */
  lemma {:induction false} AcceptedExactly(ds: seq<Delivery>, k: nat, windowMs: real, skewMs: real)
    requires k < |ds|
    ensures Accepted(ds, k, windowMs, skewMs) <==> IsLetThrough(ds, k, windowMs, skewMs)
    decreases k
  {
    AcceptedUnlessHeld(ds, k, windowMs, skewMs);
    if InTime(ds[k], skewMs) {
      forall j: nat | j < k
        ensures Holds(ds, j, k, ds[k].nonce, windowMs, skewMs) && Abs(ds[k].timestamp - ds[j].timestamp) <= windowMs
          <==> ds[j].nonce == ds[k].nonce && StillKept(ds, j, k + 1, windowMs, skewMs)
               && IsLetThrough(ds, j, windowMs, skewMs)
      {
        AcceptedExactly(ds, j, windowMs, skewMs);
        StillKeptNext(ds, j, k, windowMs, skewMs);
      }
    }
  }

  lemma WideWindowIsSafe(windowMs: real, skewMs: real, aheadMs: real, backMs: real)
    requires windowMs >= skewMs + Lead(aheadMs, skewMs) + backMs
    ensures ReplaySafe(windowMs, skewMs, aheadMs, backMs)
  {
    forall ds: seq<Delivery>, j: nat, k: nat | Plausible(ds, skewMs, aheadMs, backMs) && j < k < |ds|
      ensures !Replayed(ds, j, k, windowMs, skewMs)
    {
      if Replayed(ds, j, k, windowMs, skewMs) {
        AcceptedIsRemembered(ds, j, k, ds[k].clock, windowMs, skewMs, aheadMs, backMs);
      }
    }
  }

  /**
   A message; another one, `lead` ahead of a clock that will be set back by `backMs`; and the first again, at
   the last moment it is in time.
   */
  function ReplayedDeliveries(first: JsString, second: JsString, at: real, skewMs: real, lead: real, backMs: real)
    : seq<Delivery>
  {
    [Delivery(at, first, at), Delivery(at + skewMs + backMs, second, at + skewMs + backMs + lead),
     Delivery(at + skewMs, first, at)]
  }

  /** A narrower window lets the second push the first out while it is still in time. */
  lemma PushedOut(first: JsString, second: JsString, at: real, windowMs: real, skewMs: real, lead: real, backMs: real)
    requires first != second && skewMs > 0.0 && 0.0 <= lead <= skewMs && backMs >= 0.0
    requires 0.0 <= windowMs < skewMs + lead + backMs
    ensures var ds := ReplayedDeliveries(first, second, at, skewMs, lead, backMs);
      Plausible(ds, skewMs, lead, backMs) && Replayed(ds, 0, 2, windowMs, skewMs)
  {
    var ds := ReplayedDeliveries(first, second, at, skewMs, lead, backMs);
    var a, b := ds[0], ds[1];
    assert ds[..0] == [] && ds[..1] == [a] && ds[..2] == [a, b];
    assert [a][..0] == [] && [a, b][..1] == [a];
    assert Pruned(map[], windowMs, at) == map[];
    var m1 := MemoryAfter([a], windowMs, skewMs);
    assert m1 == After(MemoryAfter([], windowMs, skewMs), windowMs, skewMs, a) == map[first := at];
    var m2 := MemoryAfter([a, b], windowMs, skewMs);
    assert m2 == After(m1, windowMs, skewMs, b);
    assert first !in m2;
  }

  lemma NarrowWindowIsUnsafe(windowMs: real, skewMs: real, aheadMs: real, backMs: real)
    requires skewMs > 0.0 && aheadMs >= 0.0 && backMs >= 0.0
    requires 0.0 <= windowMs < skewMs + Lead(aheadMs, skewMs) + backMs
    ensures !ReplaySafe(windowMs, skewMs, aheadMs, backMs)
  {
    var lead := Lead(aheadMs, skewMs);
    var ds := ReplayedDeliveries([0], [1], 0.0, skewMs, lead, backMs);
    PushedOut([0], [1], 0.0, windowMs, skewMs, lead, backMs);
    assert Plausible(ds, skewMs, aheadMs, backMs) && Replayed(ds, 0, 2, windowMs, skewMs);
  }

  /**
   Exactly how wide the window must be: the allowed skew, plus how far ahead of the receiver's clock a
   timestamp in time can lie, plus how far that clock may be set back. Equal windows, the default, are safe
   only against timestamps never ahead of a clock never set back.
   */
  lemma ReplaySafetyThreshold(windowMs: real, skewMs: real, aheadMs: real, backMs: real)
    requires skewMs > 0.0 && aheadMs >= 0.0 && backMs >= 0.0 && windowMs >= 0.0
    ensures ReplaySafe(windowMs, skewMs, aheadMs, backMs) <==> windowMs >= skewMs + Lead(aheadMs, skewMs) + backMs
  {
    if windowMs >= skewMs + Lead(aheadMs, skewMs) + backMs {
      WideWindowIsSafe(windowMs, skewMs, aheadMs, backMs);
    } else {
      NarrowWindowIsUnsafe(windowMs, skewMs, aheadMs, backMs);
    }
  }
}
