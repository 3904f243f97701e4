/**
 SSH terminal sessions. Every call of `open` has its own client and its own callbacks; the service finds a
 session by its id, in the handlers of clients and streams as well, so a handler of an old call can meet
 the session of a newer one. The results say what holds whatever ids are used, and what needs fresh ids.
 */
module SshTerminal {
  import opened Options

  /** A shell that was asked for; an open one may be wired to a session, told to close, and closed. */
  datatype Shell = NotAsked | Asked | Refused | Opened(wired: bool, told: bool, closed: bool)

  /** One call of `open`, known by its number; `onCloses` and `onReadys` count its callbacks. */
  datatype Call = Call(
    id: string, accepted: bool, shell: Shell, errored: bool, clientClosed: bool, ended: bool,
    onReadys: nat, onCloses: nat, readyAfterClose: bool)

  /** The map entry: whose client and callbacks, and the shell opened by which call. */
  datatype Session = Session(call: nat, stream: Option<nat>)

  datatype Terminals = Terminals(sessions: map<string, Session>, calls: seq<Call>)

  const INIT := Terminals(map[], [])

  datatype Event =
    | Open(id: string, configured: bool)
    | ClientReady(k: nat)
    | ShellFails(k: nat)
    | ShellOpens(k: nat)
    | StreamCloses(k: nat)
    | ClientErrors(k: nat)
    | ClientCloses(k: nat)
    | CloseRequested(id: string)
    | ModuleDestroyed

  /** What ssh2 and the callers may do: each handler fires at most once, and a shell answers a request. */
  predicate Enabled(s: Terminals, e: Event) {
    match e
    case Open(_, _) => true
    case CloseRequested(_) => true
    case ModuleDestroyed => true
    case ClientReady(k) => IsClient(s, k) && s.calls[k].shell.NotAsked? && !s.calls[k].clientClosed
    case ShellFails(k) => IsClient(s, k) && s.calls[k].shell.Asked?
    case ShellOpens(k) => IsClient(s, k) && s.calls[k].shell.Asked?
    case StreamCloses(k) => IsClient(s, k) && s.calls[k].shell.Opened? && !s.calls[k].shell.closed
    case ClientErrors(k) => IsClient(s, k) && !s.calls[k].errored
    case ClientCloses(k) => IsClient(s, k) && !s.calls[k].clientClosed
  }

  predicate IsClient(s: Terminals, k: nat) {
    k < |s.calls| && s.calls[k].accepted
  }

  // ---- handlers ----------------------------------------------------------------------------------

  function ToldToClose(c: Call): Call {
    if c.shell.Opened? then c.(shell := c.shell.(told := true)) else c
  }

  function WithCall(s: Terminals, k: nat, c: Call): Terminals
    requires k < |s.calls|
  {
    s.(calls := s.calls[k := c])
  }

  function WithStreamTold(s: Terminals, stream: Option<nat>): Terminals {
    if stream.Some? && stream.value < |s.calls|
    then WithCall(s, stream.value, ToldToClose(s.calls[stream.value]))
    else s
  }

  /** finish: the session leaves the map before anyone is told. */
  function Finished(s: Terminals, id: string): Terminals {
    if id !in s.sessions || s.sessions[id].call >= |s.calls| then s
    else
      var session := s.sessions[id];
      var t := WithStreamTold(s.(sessions := s.sessions - {id}), session.stream);
      var c := t.calls[session.call];
      WithCall(t, session.call, c.(ended := true, onCloses := c.onCloses + 1))
  }

  function NewCall(id: string, accepted: bool): Call {
    Call(id, accepted, NotAsked, false, false, false, 0, if accepted then 0 else 1, false)
  }

  function Opening(s: Terminals, id: string, configured: bool): Terminals {
    if id in s.sessions || !configured then Terminals(s.sessions, s.calls + [NewCall(id, false)])
    else Terminals(s.sessions[id := Session(|s.calls|, None)], s.calls + [NewCall(id, true)])
  }

  /** The shell is there: it is wired to the session now under the id, or closed if there is none. */
  function ShellOpened(s: Terminals, k: nat): Terminals
    requires k < |s.calls|
  {
    var c := s.calls[k];
    if c.id !in s.sessions then WithCall(s, k, c.(shell := Opened(false, true, false)))
    else
      Terminals(s.sessions[c.id := s.sessions[c.id].(stream := Some(k))],
            s.calls[k := c.(shell := Opened(true, false, false), onReadys := c.onReadys + 1,
                            readyAfterClose := c.readyAfterClose || c.onCloses > 0)])
  }

  function AllFinished(s: Terminals, ids: seq<string>): Terminals
    decreases |ids|
  {
    if ids == [] then s else AllFinished(Finished(s, ids[0]), ids[1..])
  }

  /** The keys of the map, in any order; naming one again finishes nothing more. */
  ghost predicate Lists(ids: seq<string>, sessions: map<string, Session>) {
    forall id :: id in ids <==> id in sessions
  }

  ghost predicate Step(s: Terminals, e: Event, t: Terminals)
    requires Enabled(s, e)
  {
    match e
    case Open(id, configured) => t == Opening(s, id, configured)
    case ClientReady(k) => t == WithCall(s, k, s.calls[k].(shell := Asked))
    case ShellFails(k) => t == Finished(WithCall(s, k, s.calls[k].(shell := Refused)), s.calls[k].id)
    case ShellOpens(k) => t == ShellOpened(s, k)
    case StreamCloses(k) =>
      var c := s.calls[k];
      var u := WithCall(s, k, c.(shell := c.shell.(closed := true)));
      t == if c.shell.wired then Finished(u, c.id) else u
    case ClientErrors(k) => t == Finished(WithCall(s, k, s.calls[k].(errored := true)), s.calls[k].id)
    case ClientCloses(k) => t == Finished(WithCall(s, k, s.calls[k].(clientClosed := true)), s.calls[k].id)
    case CloseRequested(id) => t == Finished(s, id)
    case ModuleDestroyed => exists ids :: Lists(ids, s.sessions) && t == AllFinished(s, ids)
  }

  ghost predicate Run(s: Terminals, es: seq<Event>, t: Terminals)
    decreases |es|
  {
    if es == [] then t == s
    else Enabled(s, es[0]) && exists u :: Step(s, es[0], u) && Run(u, es[1..], t)
  }

  // ---- whatever the ids --------------------------------------------------------------------------

  predicate IsLive(s: Terminals, k: nat)
    requires k < |s.calls|
  {
    s.calls[k].id in s.sessions && s.sessions[s.calls[k].id].call == k
  }

  predicate CallOk(s: Terminals, k: nat)
    requires k < |s.calls|
  {
    var c := s.calls[k];
    && c.onCloses == (if IsLive(s, k) then 0 else 1)
    && (IsLive(s, k) ==> c.accepted && !c.clientClosed)
    && (c.ended <==> c.accepted && !IsLive(s, k))
    && (!c.accepted ==> c.onReadys == 0)
    && c.onReadys == (if c.shell.Opened? && c.shell.wired then 1 else 0)
  }

  predicate SessionOk(s: Terminals, id: string)
    requires id in s.sessions
  {
    var session := s.sessions[id];
    && session.call < |s.calls| && s.calls[session.call].id == id
    && (session.stream.Some? ==> session.stream.value < |s.calls| && s.calls[session.stream.value].shell.Opened?)
  }

  /** A call has been closed exactly if it is not the one in the map under its id; then its client was ended too. */
  ghost predicate Inv(s: Terminals) {
    && (forall id :: id in s.sessions ==> SessionOk(s, id))
    && (forall k :: 0 <= k < |s.calls| ==> CallOk(s, k))
  }

  lemma OpeningKeepsInv(s: Terminals, id: string, configured: bool)
    requires Inv(s)
    ensures Inv(Opening(s, id, configured))
  {
    var t := Opening(s, id, configured);
    forall i | i in t.sessions ensures SessionOk(t, i) {
      if i in s.sessions { assert SessionOk(s, i); }
    }
    forall k | 0 <= k < |t.calls| ensures CallOk(t, k) {
      if k < |s.calls| { assert CallOk(s, k); }
    }
  }

  /** Finishing needs the invariant of every other call, and of the finished one only that it was not closed yet. */
  lemma FinishLeavesInv(s: Terminals, id: string)
    requires id in s.sessions && SessionOk(s, id) && forall i :: i in s.sessions ==> SessionOk(s, i)
    requires forall k :: 0 <= k < |s.calls| && k != s.sessions[id].call ==> CallOk(s, k)
    requires var c := s.calls[s.sessions[id].call];
      c.onCloses == 0 && c.accepted && c.onReadys == (if c.shell.Opened? && c.shell.wired then 1 else 0)
    ensures Inv(Finished(s, id))
  {
    var t := Finished(s, id);
    forall i | i in t.sessions ensures SessionOk(t, i) {
      assert SessionOk(s, i);
    }
    forall k | 0 <= k < |t.calls| ensures CallOk(t, k) {
      if k != s.sessions[id].call { assert CallOk(s, k); }
    }
  }

  lemma FinishKeepsInv(s: Terminals, id: string)
    requires Inv(s)
    ensures Inv(Finished(s, id))
  {
    if id in s.sessions {
      assert SessionOk(s, id);
      assert CallOk(s, s.sessions[id].call);
      FinishLeavesInv(s, id);
    }
  }

  lemma ShellKeepsInv(s: Terminals, k: nat)
    requires Inv(s) && Enabled(s, ShellOpens(k))
    ensures Inv(ShellOpened(s, k))
  {
    var t := ShellOpened(s, k);
    assert CallOk(s, k);
    forall i | i in t.sessions ensures SessionOk(t, i) {
      assert SessionOk(s, i);
    }
    forall j | 0 <= j < |t.calls| ensures CallOk(t, j) {
      assert CallOk(s, j);
    }
  }

  lemma ClientCloseKeepsInv(s: Terminals, k: nat)
    requires Inv(s) && Enabled(s, ClientCloses(k))
    ensures Inv(Finished(WithCall(s, k, s.calls[k].(clientClosed := true)), s.calls[k].id))
  {
    var u := WithCall(s, k, s.calls[k].(clientClosed := true));
    var id := s.calls[k].id;
    assert CallOk(s, k);
    forall i | i in u.sessions ensures SessionOk(u, i) {
      assert SessionOk(s, i);
    }
    forall j | 0 <= j < |u.calls| && j != k ensures CallOk(u, j) {
      assert CallOk(s, j);
    }
    if id in s.sessions {
      assert CallOk(s, s.sessions[id].call);
      if s.sessions[id].call != k { assert CallOk(u, k); }
      FinishLeavesInv(u, id);
    } else {
      assert CallOk(u, k);
    }
  }

  lemma AllFinishedSnoc(s: Terminals, ids: seq<string>, id: string)
    ensures AllFinished(s, ids + [id]) == Finished(AllFinished(s, ids), id)
    decreases |ids|
  {
    if ids != [] {
      assert (ids + [id])[1..] == ids[1..] + [id];
      AllFinishedSnoc(Finished(s, ids[0]), ids[1..], id);
    }
  }

  lemma {:induction false} AllFinishedKeepsInv(s: Terminals, ids: seq<string>)
    requires Inv(s)
    ensures Inv(AllFinished(s, ids))
    decreases |ids|
  {
    if ids != [] {
      FinishKeepsInv(s, ids[0]);
      AllFinishedKeepsInv(Finished(s, ids[0]), ids[1..]);
    }
  }

  /** Noting something about a client or shell that has no part in the invariant. */
  lemma NoteKeepsInv(s: Terminals, k: nat, c: Call)
    requires Inv(s) && k < |s.calls|
    requires var b := s.calls[k];
      && c.id == b.id && c.accepted == b.accepted && c.clientClosed == b.clientClosed && c.ended == b.ended
      && c.onReadys == b.onReadys && c.onCloses == b.onCloses && (b.shell.Opened? ==> c.shell.Opened?)
      && (b.shell.Opened? && b.shell.wired <==> c.shell.Opened? && c.shell.wired)
    ensures Inv(WithCall(s, k, c))
  {
    var t := WithCall(s, k, c);
    forall i | i in t.sessions ensures SessionOk(t, i) {
      assert SessionOk(s, i);
    }
    forall j | 0 <= j < |t.calls| ensures CallOk(t, j) {
      assert CallOk(s, j);
    }
  }

  lemma StepKeepsInv(s: Terminals, e: Event, t: Terminals)
    requires Inv(s) && Enabled(s, e) && Step(s, e, t)
    ensures Inv(t)
  {
    match e
    case Open(id, configured) => OpeningKeepsInv(s, id, configured);
    case ClientReady(k) => NoteKeepsInv(s, k, s.calls[k].(shell := Asked));
    case ShellFails(k) =>
      var c := s.calls[k].(shell := Refused);
      NoteKeepsInv(s, k, c);
      FinishKeepsInv(WithCall(s, k, c), c.id);
    case ShellOpens(k) => ShellKeepsInv(s, k);
    case StreamCloses(k) =>
      var c := s.calls[k].(shell := s.calls[k].shell.(closed := true));
      NoteKeepsInv(s, k, c);
      FinishKeepsInv(WithCall(s, k, c), c.id);
    case ClientErrors(k) =>
      var c := s.calls[k].(errored := true);
      NoteKeepsInv(s, k, c);
      FinishKeepsInv(WithCall(s, k, c), c.id);
    case ClientCloses(k) => ClientCloseKeepsInv(s, k);
    case CloseRequested(id) => FinishKeepsInv(s, id);
    case ModuleDestroyed =>
      var ids :| Lists(ids, s.sessions) && t == AllFinished(s, ids);
      AllFinishedKeepsInv(s, ids);
  }

  lemma {:induction false} RunKeepsInv(s: Terminals, es: seq<Event>, t: Terminals)
    requires Inv(s) && Run(s, es, t)
    ensures Inv(t)
    decreases |es|
  {
    if es != [] {
      var u :| Step(s, es[0], u) && Run(u, es[1..], t);
      StepKeepsInv(s, es[0], u);
      RunKeepsInv(u, es[1..], t);
    }
  }

  /**
   Every call of `open` is closed at most once, and exactly once when it was refused, when its client has
   closed, or when it has left the map in any other way; onReady comes at most once.
   */
  lemma ClosedExactlyOnce(es: seq<Event>, s: Terminals)
    requires Run(INIT, es, s)
    ensures forall k :: 0 <= k < |s.calls| ==>
      && s.calls[k].onCloses == (if IsLive(s, k) then 0 else 1)
      && (!s.calls[k].accepted || s.calls[k].clientClosed ==> s.calls[k].onCloses == 1)
      && (s.calls[k].accepted && s.calls[k].onCloses == 1 ==> s.calls[k].ended)
      && s.calls[k].onReadys <= 1
  {
    RunKeepsInv(INIT, es, s);
    forall k | 0 <= k < |s.calls|
      ensures s.calls[k].onCloses == (if IsLive(s, k) then 0 else 1)
      ensures !s.calls[k].accepted || s.calls[k].clientClosed ==> s.calls[k].onCloses == 1
      ensures s.calls[k].accepted && s.calls[k].onCloses == 1 ==> s.calls[k].ended
      ensures s.calls[k].onReadys <= 1
    {
      assert CallOk(s, k);
    }
  }

  // ---- the service -------------------------------------------------------------------------------

  class SshTerminalService {
    var sessions: map<string, Session>
    var calls: seq<Call>

    constructor ()
      ensures State() == INIT
    {
      sessions := map[];
      calls := [];
    }

    function State(): Terminals
      reads this
    {
      Terminals(sessions, calls)
    }

    ghost predicate Valid()
      reads this
    {
      Inv(State())
    }

    method FinishAny(id: string)
      requires forall i :: i in sessions ==> sessions[i].call < |calls|
      requires forall i :: i in sessions && sessions[i].stream.Some? ==> sessions[i].stream.value < |calls|
      modifies this
      ensures State() == Finished(old(State()), id) && sessions == old(sessions) - {id}
    {
      if id !in sessions {
        assert sessions - {id} == sessions;
        return;
      }
      var session := sessions[id];
      sessions := sessions - {id};
      if session.stream.Some? {
        calls := calls[session.stream.value := ToldToClose(calls[session.stream.value])];
      }
      calls := calls[session.call := calls[session.call].(ended := true)];
      calls := calls[session.call := calls[session.call].(onCloses := calls[session.call].onCloses + 1)];
    }

    method Finish(id: string)
      requires Valid()
      modifies this
      ensures Valid() && State() == Finished(old(State()), id)
      ensures sessions == old(sessions) - {id}
    {
      FinishKeepsInv(State(), id);
      FinishAny(id);
    }

    method Open(id: string, configured: bool)
      requires Valid()
      modifies this
      ensures Valid() && State() == Opening(old(State()), id, configured)
    {
      OpeningKeepsInv(State(), id, configured);
      if id in sessions {
        calls := calls + [NewCall(id, false)];
        return;
      }
      if !configured {
        calls := calls + [NewCall(id, false)];
        return;
      }
      calls := calls + [NewCall(id, true)];
      sessions := sessions[id := Session(|calls| - 1, None)];
    }

    method OnReady(k: nat)
      requires Valid() && Enabled(State(), ClientReady(k))
      modifies this
      ensures Valid() && Step(old(State()), ClientReady(k), State())
    {
      NoteKeepsInv(State(), k, calls[k].(shell := Asked));
      calls := calls[k := calls[k].(shell := Asked)];
    }

    method OnShell(k: nat, failed: bool)
      requires Valid() && Enabled(State(), ShellOpens(k))
      modifies this
      ensures Valid() && Step(old(State()), if failed then ShellFails(k) else ShellOpens(k), State())
    {
      var c := calls[k];
      if failed {
        NoteKeepsInv(State(), k, c.(shell := Refused));
        calls := calls[k := c.(shell := Refused)];
        Finish(c.id);
        return;
      }
      ShellKeepsInv(State(), k);
      if c.id !in sessions {
        calls := calls[k := c.(shell := Opened(false, true, false))];
        return;
      }
      sessions := sessions[c.id := sessions[c.id].(stream := Some(k))];
      calls := calls[k := c.(shell := Opened(true, false, false), onReadys := c.onReadys + 1,
                             readyAfterClose := c.readyAfterClose || c.onCloses > 0)];
    }

    method OnStreamClose(k: nat)
      requires Valid() && Enabled(State(), StreamCloses(k))
      modifies this
      ensures Valid() && Step(old(State()), StreamCloses(k), State())
    {
      var c := calls[k];
      NoteKeepsInv(State(), k, c.(shell := c.shell.(closed := true)));
      calls := calls[k := c.(shell := c.shell.(closed := true))];
      if c.shell.wired {
        Finish(c.id);
      }
    }

    method OnClientError(k: nat)
      requires Valid() && Enabled(State(), ClientErrors(k))
      modifies this
      ensures Valid() && Step(old(State()), ClientErrors(k), State())
    {
      NoteKeepsInv(State(), k, calls[k].(errored := true));
      calls := calls[k := calls[k].(errored := true)];
      Finish(calls[k].id);
    }

    /** Between noting the close and finishing, the call may still be live: only finishing restores the invariant. */
    method OnClientClose(k: nat)
      requires Valid() && Enabled(State(), ClientCloses(k))
      modifies this
      ensures Valid() && Step(old(State()), ClientCloses(k), State())
    {
      var id := calls[k].id;
      ClientCloseKeepsInv(State(), k);
      calls := calls[k := calls[k].(clientClosed := true)];
      FinishAny(id);
    }

    method Close(id: string)
      requires Valid()
      modifies this
      ensures Valid() && State() == Finished(old(State()), id)
    {
      Finish(id);
    }

    method OnModuleDestroy()
      requires Valid()
      modifies this
      ensures Valid() && Step(old(State()), ModuleDestroyed, State())
      ensures sessions == map[]
    {
      ghost var ids: seq<string> := [];
      var left := sessions.Keys;
      while left != {}
        invariant Valid() && left == sessions.Keys
        invariant forall id :: id in old(sessions) <==> id in ids || id in left
        invariant State() == AllFinished(old(State()), ids)
        decreases left
      {
        var id :| id in left;
        AllFinishedSnoc(old(State()), ids, id);
        Finish(id);
        ids := ids + [id];
        left := left - {id};
      }
      assert Lists(ids, old(sessions));
    }
  }

  // ---- what ends a call --------------------------------------------------------------------------

  /** The events that reach finish with the id of call `j`: some call's handlers, a request, the shutdown. */
  predicate Ends(s: Terminals, e: Event, j: nat)
    requires Enabled(s, e) && j < |s.calls|
  {
    match e
    case ShellFails(k) => s.calls[k].id == s.calls[j].id
    case StreamCloses(k) => s.calls[k].shell.wired && s.calls[k].id == s.calls[j].id
    case ClientErrors(k) => s.calls[k].id == s.calls[j].id
    case ClientCloses(k) => s.calls[k].id == s.calls[j].id
    case CloseRequested(id) => id == s.calls[j].id
    case ModuleDestroyed => true
    case _ => false
  }

  /** Finishing an id takes exactly the session under it out of the map; the calls keep their ids. */
  lemma FinishedIs(s: Terminals, id: string, j: nat)
    requires j < |s.calls| && (id in s.sessions ==> s.sessions[id].call < |s.calls|)
    ensures var t := Finished(s, id);
      && |t.calls| == |s.calls| && t.calls[j].id == s.calls[j].id
      && t.sessions == s.sessions - {id}
      && (IsLive(t, j) <==> IsLive(s, j) && id != s.calls[j].id)
  {
    assert id !in s.sessions ==> s.sessions - {id} == s.sessions;
  }

  lemma {:induction false} AllFinishedIs(s: Terminals, ids: seq<string>, j: nat)
    requires Inv(s) && j < |s.calls|
    ensures var t := AllFinished(s, ids);
      j < |t.calls| && t.calls[j].id == s.calls[j].id && (IsLive(t, j) <==> IsLive(s, j) && s.calls[j].id !in ids)
    decreases |ids|
  {
    if ids != [] {
      if ids[0] in s.sessions { assert SessionOk(s, ids[0]); }
      FinishKeepsInv(s, ids[0]);
      FinishedIs(s, ids[0], j);
      AllFinishedIs(Finished(s, ids[0]), ids[1..], j);
      assert ids == [ids[0]] + ids[1..];
    }
  }

  lemma NotedThenFinishedIs(s: Terminals, k: nat, c: Call, j: nat)
    requires Inv(s) && k < |s.calls| && j < |s.calls| && c.id == s.calls[k].id
    ensures var t := Finished(WithCall(s, k, c), c.id);
      j < |t.calls| && (IsLive(t, j) <==> IsLive(s, j) && c.id != s.calls[j].id)
  {
    if c.id in s.sessions { assert SessionOk(s, c.id); }
    FinishedIs(WithCall(s, k, c), c.id, j);
  }

  /** A step leaves a live call in the map unless it ends it. */
  lemma StepLeavesLive(s: Terminals, e: Event, t: Terminals, j: nat)
    requires Inv(s) && Enabled(s, e) && Step(s, e, t) && j < |s.calls| && IsLive(s, j)
    ensures j < |t.calls| && (IsLive(t, j) <==> !Ends(s, e, j))
  {
    match e
    case ShellFails(k) => NotedThenFinishedIs(s, k, s.calls[k].(shell := Refused), j);
    case StreamCloses(k) => NotedThenFinishedIs(s, k, s.calls[k].(shell := s.calls[k].shell.(closed := true)), j);
    case ClientErrors(k) => NotedThenFinishedIs(s, k, s.calls[k].(errored := true), j);
    case ClientCloses(k) => NotedThenFinishedIs(s, k, s.calls[k].(clientClosed := true), j);
    case CloseRequested(id) =>
      if id in s.sessions { assert SessionOk(s, id); }
      FinishedIs(s, id, j);
    case ModuleDestroyed =>
      var ids :| Lists(ids, s.sessions) && t == AllFinished(s, ids);
      AllFinishedIs(s, ids, j);
    case _ =>
  }

  /**
   Exactly which step ends a call, whatever the ids: its onClose fires if and only if some call's shell
   fails, wired stream closes, or client fails or closes under the same id, or the id is asked to close, or
   the module goes down. It need not be the call's own client.
   */
  lemma EndedExactly(s: Terminals, e: Event, t: Terminals, j: nat)
    requires Inv(s) && Enabled(s, e) && Step(s, e, t) && j < |s.calls| && IsLive(s, j)
    ensures j < |t.calls| && s.calls[j].onCloses == 0 && (t.calls[j].onCloses == 1 <==> Ends(s, e, j))
  {
    StepKeepsInv(s, e, t);
    StepLeavesLive(s, e, t, j);
    assert CallOk(s, j) && CallOk(t, j);
  }

  // ---- with fresh ids ----------------------------------------------------------------------------

  /** An id is taken up again only while its session is there, which refuses it. */
  ghost predicate IsFresh(s: Terminals, e: Event) {
    e.Open? && e.configured && e.id !in s.sessions ==>
      forall k :: 0 <= k < |s.calls| && s.calls[k].accepted ==> s.calls[k].id != e.id
  }

  ghost predicate FreshRun(s: Terminals, es: seq<Event>, t: Terminals)
    decreases |es|
  {
    if es == [] then t == s
    else Enabled(s, es[0]) && IsFresh(s, es[0]) && exists u :: Step(s, es[0], u) && FreshRun(u, es[1..], t)
  }

  /** Whether a shell is open that nobody has told to close. */
  predicate HasOpenShell(c: Call) {
    c.shell.Opened? && !c.shell.told
  }

  predicate OwnShell(s: Terminals, k: nat)
    requires k < |s.calls|
  {
    && !s.calls[k].readyAfterClose
    && (HasOpenShell(s.calls[k]) ==> IsLive(s, k) && s.sessions[s.calls[k].id].stream == Some(k))
  }

  /** Accepted calls have ids of their own, so handlers meet no session but theirs. */
  ghost predicate FreshInv(s: Terminals) {
    && (forall j, k :: 0 <= j < k < |s.calls| && s.calls[j].accepted && s.calls[k].accepted ==>
          s.calls[j].id != s.calls[k].id)
    && (forall id :: id in s.sessions && s.sessions[id].stream.Some? ==>
          s.sessions[id].stream.value == s.sessions[id].call)
    && (forall k :: 0 <= k < |s.calls| ==> OwnShell(s, k))
  }

  lemma FinishKeepsFresh(s: Terminals, id: string)
    requires Inv(s) && FreshInv(s)
    ensures FreshInv(Finished(s, id))
  {
    if id in s.sessions {
      assert SessionOk(s, id);
      var t := Finished(s, id);
      forall k | 0 <= k < |t.calls| ensures OwnShell(t, k) {
        assert OwnShell(s, k) && CallOk(s, k);
      }
    }
  }

  lemma OpeningKeepsFresh(s: Terminals, id: string, configured: bool)
    requires Inv(s) && FreshInv(s) && IsFresh(s, Open(id, configured))
    ensures FreshInv(Opening(s, id, configured))
  {
    var t := Opening(s, id, configured);
    forall k | 0 <= k < |t.calls| ensures OwnShell(t, k) {
      if k < |s.calls| { assert OwnShell(s, k) && CallOk(s, k); }
    }
  }

  /** With fresh ids the session under the id of a client's call is that call's own. */
  lemma OwnSession(s: Terminals, k: nat)
    requires Inv(s) && FreshInv(s) && IsClient(s, k) && s.calls[k].id in s.sessions
    ensures s.sessions[s.calls[k].id].call == k
  {
    assert SessionOk(s, s.calls[k].id);
    assert CallOk(s, s.sessions[s.calls[k].id].call);
  }

  lemma ShellKeepsFresh(s: Terminals, k: nat)
    requires Inv(s) && FreshInv(s) && Enabled(s, ShellOpens(k))
    ensures FreshInv(ShellOpened(s, k))
  {
    var t := ShellOpened(s, k);
    assert CallOk(s, k) && OwnShell(s, k);
    if s.calls[k].id in s.sessions { OwnSession(s, k); }
    forall j | 0 <= j < |t.calls| ensures OwnShell(t, j) {
      assert OwnShell(s, j);
    }
  }

  lemma NoteKeepsFresh(s: Terminals, k: nat, c: Call)
    requires FreshInv(s) && k < |s.calls|
    requires var b := s.calls[k];
      c.id == b.id && c.accepted == b.accepted && c.readyAfterClose == b.readyAfterClose
      && (HasOpenShell(c) ==> HasOpenShell(b))
    ensures FreshInv(WithCall(s, k, c))
  {
    var t := WithCall(s, k, c);
    forall j | 0 <= j < |t.calls| ensures OwnShell(t, j) {
      assert OwnShell(s, j);
    }
  }

  /** Finishing right after a note about a client that has closed needs no more than the rest of the invariant. */
  lemma ClientCloseKeepsFresh(s: Terminals, k: nat)
    requires Inv(s) && FreshInv(s) && Enabled(s, ClientCloses(k))
    ensures FreshInv(Finished(WithCall(s, k, s.calls[k].(clientClosed := true)), s.calls[k].id))
  {
    var id := s.calls[k].id;
    var t := Finished(WithCall(s, k, s.calls[k].(clientClosed := true)), id);
    FinishKeepsFresh(s, id);
    var u := Finished(s, id);
    if id in s.sessions {
      OwnSession(s, k);
      assert SessionOk(s, id);
    }
    assert t == WithCall(u, k, u.calls[k].(clientClosed := true));
    NoteKeepsFresh(u, k, u.calls[k].(clientClosed := true));
  }

  lemma {:induction false} AllFinishedKeepsFresh(s: Terminals, ids: seq<string>)
    requires Inv(s) && FreshInv(s)
    ensures FreshInv(AllFinished(s, ids))
    decreases |ids|
  {
    if ids != [] {
      FinishKeepsInv(s, ids[0]);
      FinishKeepsFresh(s, ids[0]);
      AllFinishedKeepsFresh(Finished(s, ids[0]), ids[1..]);
    }
  }

  lemma NotedThenFinished(s: Terminals, k: nat, c: Call)
    requires Inv(s) && FreshInv(s) && k < |s.calls|
    requires var b := s.calls[k];
      && c.id == b.id && c.accepted == b.accepted && c.clientClosed == b.clientClosed && c.ended == b.ended
      && c.onReadys == b.onReadys && c.onCloses == b.onCloses && (b.shell.Opened? ==> c.shell.Opened?)
      && (b.shell.Opened? && b.shell.wired <==> c.shell.Opened? && c.shell.wired)
      && c.readyAfterClose == b.readyAfterClose && (HasOpenShell(c) ==> HasOpenShell(b))
    ensures FreshInv(Finished(WithCall(s, k, c), c.id))
  {
    NoteKeepsInv(s, k, c);
    NoteKeepsFresh(s, k, c);
    FinishKeepsFresh(WithCall(s, k, c), c.id);
  }

  lemma StepKeepsFresh(s: Terminals, e: Event, t: Terminals)
    requires Inv(s) && FreshInv(s) && Enabled(s, e) && IsFresh(s, e) && Step(s, e, t)
    ensures FreshInv(t)
  {
    match e
    case Open(id, configured) => OpeningKeepsFresh(s, id, configured);
    case ClientReady(k) => NoteKeepsFresh(s, k, s.calls[k].(shell := Asked));
    case ShellFails(k) => NotedThenFinished(s, k, s.calls[k].(shell := Refused));
    case ShellOpens(k) => ShellKeepsFresh(s, k);
    case StreamCloses(k) =>
      var c := s.calls[k].(shell := s.calls[k].shell.(closed := true));
      NoteKeepsFresh(s, k, c);
      NotedThenFinished(s, k, c);
    case ClientErrors(k) => NotedThenFinished(s, k, s.calls[k].(errored := true));
    case ClientCloses(k) => ClientCloseKeepsFresh(s, k);
    case CloseRequested(id) => FinishKeepsFresh(s, id);
    case ModuleDestroyed =>
      var ids :| Lists(ids, s.sessions) && t == AllFinished(s, ids);
      AllFinishedKeepsFresh(s, ids);
  }

  lemma {:induction false} FreshRunKeepsInv(s: Terminals, es: seq<Event>, t: Terminals)
    requires Inv(s) && FreshInv(s) && FreshRun(s, es, t)
    ensures Inv(t) && FreshInv(t)
    decreases |es|
  {
    if es != [] {
      var u :| Step(s, es[0], u) && FreshRun(u, es[1..], t);
      StepKeepsInv(s, es[0], u);
      StepKeepsFresh(s, es[0], u);
      FreshRunKeepsInv(u, es[1..], t);
    }
  }

  /** With fresh ids onReady never follows onClose, and every shell left open belongs to a session still there. */
  lemma NoReadyAfterCloseAndNoOrphanedShell(es: seq<Event>, s: Terminals)
    requires FreshRun(INIT, es, s)
    ensures forall k :: 0 <= k < |s.calls| ==> !s.calls[k].readyAfterClose
    ensures forall k :: 0 <= k < |s.calls| && HasOpenShell(s.calls[k]) ==>
      s.calls[k].onCloses == 0 && s.calls[k].id in s.sessions && s.sessions[s.calls[k].id] == Session(k, Some(k))
  {
    FreshRunKeepsInv(INIT, es, s);
    forall k | 0 <= k < |s.calls|
      ensures !s.calls[k].readyAfterClose
      ensures HasOpenShell(s.calls[k]) ==>
        s.calls[k].onCloses == 0 && s.calls[k].id in s.sessions && s.sessions[s.calls[k].id] == Session(k, Some(k))
    {
      assert OwnShell(s, k) && CallOk(s, k);
    }
  }

  /** The events of call `j` itself that end it, and the two that end any call. */
  predicate EndsItself(s: Terminals, e: Event, j: nat)
    requires j < |s.calls|
  {
    || e == ShellFails(j) || e == ClientErrors(j) || e == ClientCloses(j)
    || (e == StreamCloses(j) && s.calls[j].shell.Opened? && s.calls[j].shell.wired)
    || e == CloseRequested(s.calls[j].id) || e == ModuleDestroyed
  }

  lemma FreshEnds(s: Terminals, e: Event, j: nat)
    requires Inv(s) && FreshInv(s) && Enabled(s, e) && j < |s.calls| && IsLive(s, j)
    ensures Ends(s, e, j) <==> EndsItself(s, e, j)
  {
    if e.ShellFails? || e.StreamCloses? || e.ClientErrors? || e.ClientCloses? {
      if s.calls[e.k].id == s.calls[j].id { OwnSession(s, e.k); }
    }
  }

  /** With fresh ids no call is ever ended by the client, shell or stream of another: not at any step of any run. */
  lemma OnlyItsOwnClientEndsACall(es: seq<Event>, s: Terminals, e: Event, t: Terminals, j: nat)
    requires FreshRun(INIT, es, s) && Enabled(s, e) && Step(s, e, t) && j < |s.calls| && s.calls[j].onCloses == 0
    ensures j < |t.calls| && (t.calls[j].onCloses == 1 <==> EndsItself(s, e, j))
  {
    FreshRunKeepsInv(INIT, es, s);
    assert CallOk(s, j);
    EndedExactly(s, e, t, j);
    FreshEnds(s, e, j);
  }

  // ---- what reusing an id does -------------------------------------------------------------------

  lemma FinishingIsNoReady(s: Terminals, id: string, k: nat)
    requires k < |s.calls|
    ensures |Finished(s, id).calls| == |s.calls|
    ensures Finished(s, id).calls[k].readyAfterClose == s.calls[k].readyAfterClose
  {
  }

  lemma {:induction false} FinishingAllIsNoReady(s: Terminals, ids: seq<string>, k: nat)
    requires k < |s.calls|
    ensures k < |AllFinished(s, ids).calls|
    ensures AllFinished(s, ids).calls[k].readyAfterClose == s.calls[k].readyAfterClose
    decreases |ids|
  {
    if ids != [] {
      FinishingIsNoReady(s, ids[0], k);
      FinishingAllIsNoReady(Finished(s, ids[0]), ids[1..], k);
    }
  }

  /** onReady comes after onClose exactly when a shell opens and finds another call's session under its id. */
  lemma LateReadyExactly(s: Terminals, e: Event, t: Terminals, k: nat)
    requires Inv(s) && Enabled(s, e) && Step(s, e, t) && k < |s.calls| && !s.calls[k].readyAfterClose
    ensures k < |t.calls|
    ensures t.calls[k].readyAfterClose <==>
      e == ShellOpens(k) && s.calls[k].id in s.sessions && s.sessions[s.calls[k].id].call != k
  {
    match e
    case ShellOpens(j) =>
      assert CallOk(s, j);
    case ShellFails(j) => FinishingIsNoReady(WithCall(s, j, s.calls[j].(shell := Refused)), s.calls[j].id, k);
    case StreamCloses(j) =>
      FinishingIsNoReady(WithCall(s, j, s.calls[j].(shell := s.calls[j].shell.(closed := true))), s.calls[j].id, k);
    case ClientErrors(j) => FinishingIsNoReady(WithCall(s, j, s.calls[j].(errored := true)), s.calls[j].id, k);
    case ClientCloses(j) => FinishingIsNoReady(WithCall(s, j, s.calls[j].(clientClosed := true)), s.calls[j].id, k);
    case CloseRequested(id) => FinishingIsNoReady(s, id, k);
    case ModuleDestroyed =>
      var ids :| Lists(ids, s.sessions) && t == AllFinished(s, ids);
      FinishingAllIsNoReady(s, ids, k);
    case _ =>
  }

  lemma RunCons(s: Terminals, e: Event, u: Terminals, es: seq<Event>, t: Terminals)
    requires Enabled(s, e) && Step(s, e, u) && Run(u, es, t)
    ensures Run(s, [e] + es, t)
  {
    assert ([e] + es)[0] == e && ([e] + es)[1..] == es;
  }

  /** An id opened again while an old client still lingers: the old client's close ends the new session. */
  lemma StaleCloseEndsTheSuccessor(id: string)
    ensures exists es: seq<Event>, s ::
      Run(INIT, es, s) && |s.calls| == 2 && s.calls[1].onCloses == 1 && !s.calls[1].clientClosed
      && CloseRequested(id) !in es
  {
    var a := Opening(INIT, id, true);
    var b := Finished(WithCall(a, 0, a.calls[0].(errored := true)), id);
    var c := Opening(b, id, true);
    var d := Finished(WithCall(c, 0, c.calls[0].(clientClosed := true)), id);
    RunCons(c, ClientCloses(0), d, [], d);
    RunCons(b, Open(id, true), c, [ClientCloses(0)] + [], d);
    RunCons(a, ClientErrors(0), b, [Open(id, true)] + ([ClientCloses(0)] + []), d);
    RunCons(INIT, Open(id, true), a, [ClientErrors(0)] + ([Open(id, true)] + ([ClientCloses(0)] + [])), d);
  }

  /** And its shell, if it answers late, reports ready to closed callbacks and is wired to the new session. */
  lemma ReusedIdIsReadyAfterClose(id: string)
    ensures exists es: seq<Event>, s :: Run(INIT, es, s) && |s.calls| == 2 && s.calls[0].readyAfterClose
  {
    var a := Opening(INIT, id, true);
    var b := WithCall(a, 0, a.calls[0].(shell := Asked));
    var c := Finished(b, id);
    var d := Opening(c, id, true);
    var e := ShellOpened(d, 0);
    RunCons(d, ShellOpens(0), e, [], e);
    RunCons(c, Open(id, true), d, [ShellOpens(0)] + [], e);
    RunCons(b, CloseRequested(id), c, [Open(id, true)] + ([ShellOpens(0)] + []), e);
    RunCons(a, ClientReady(0), b, [CloseRequested(id)] + ([Open(id, true)] + ([ShellOpens(0)] + [])), e);
    RunCons(INIT, Open(id, true), a,
            [ClientReady(0)] + ([CloseRequested(id)] + ([Open(id, true)] + ([ShellOpens(0)] + []))), e);
  }
}
