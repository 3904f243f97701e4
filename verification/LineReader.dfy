/**
 The line reader of a tunnel socket and its hand-over to the byte phase. TCP delivers a stream in arbitrary
 chunks; the reader cuts lines out of its buffer, stops in mid-buffer at an OPEN line, and the bytes left
 over precede everything the socket delivers later. `isOpen` says which lines are OPEN lines.
 */
module LineReader {
  import opened Options

  type Byte = x: int | 0 <= x < 256
  type Bytes = seq<Byte>

  const NEWLINE: Byte := 0x0a

  function IndexOf(s: Bytes, b: Byte): (r: Option<nat>)
    ensures r.None? ==> b !in s
    ensures r.Some? ==> r.value < |s| && s[r.value] == b && b !in s[..r.value]
  {
    if s == [] then None
    else if s[0] == b then Some(0)
    else match IndexOf(s[1..], b)
      case None => None
      case Some(k) => assert s[..k + 1] == [s[0]] + s[1..][..k]; Some(k + 1)
  }

  // ---- one buffer --------------------------------------------------------------------------------

  /** The lines handed over, the bytes left in the buffer, and whether an OPEN line ended the reading. */
  datatype Drained = Drained(lines: seq<Bytes>, rest: Bytes, atOpen: bool)

  /** The loop of onData over one buffer. */
  function Drain(buffer: Bytes, isOpen: Bytes -> bool): Drained
    decreases |buffer|
  {
    match IndexOf(buffer, NEWLINE)
    case None => Drained([], buffer, false)
    case Some(k) =>
      var line, after := buffer[..k], buffer[k + 1..];
      if isOpen(line) then Drained([line], after, true)
      else var d := Drain(after, isOpen); Drained([line] + d.lines, d.rest, d.atOpen)
  }

  /** The bytes the lines came from: each line with its newline. */
  function Joined(lines: seq<Bytes>): Bytes {
    if lines == [] then [] else lines[0] + [NEWLINE] + Joined(lines[1..])
  }

  /**
   Splitting a whole stream at once, said without a loop: the lines with their newlines and the rest are
   the stream, no line contains a newline, only the last line may be an OPEN line, and without one the
   rest holds no complete line.
   */
  predicate SplitOf(stream: Bytes, d: Drained, isOpen: Bytes -> bool) {
    && stream == Joined(d.lines) + d.rest
    && (forall k :: 0 <= k < |d.lines| ==> NEWLINE !in d.lines[k])
    && (forall k :: 0 <= k < |d.lines| - 1 ==> !isOpen(d.lines[k]))
    && (d.atOpen <==> d.lines != [] && isOpen(d.lines[|d.lines| - 1]))
    && (!d.atOpen ==> NEWLINE !in d.rest)
  }

  lemma SplitAtOpen(line: Bytes, after: Bytes, isOpen: Bytes -> bool)
    requires NEWLINE !in line && isOpen(line)
    ensures SplitOf(line + [NEWLINE] + after, Drained([line], after, true), isOpen)
  {
    assert Joined([line]) == line + [NEWLINE] + Joined([line][1..]);
    assert Joined([line]) == line + [NEWLINE];
  }

  lemma SplitOneMore(line: Bytes, after: Bytes, d: Drained, isOpen: Bytes -> bool)
    requires NEWLINE !in line && !isOpen(line) && SplitOf(after, d, isOpen)
    ensures SplitOf(line + [NEWLINE] + after, Drained([line] + d.lines, d.rest, d.atOpen), isOpen)
  {
    var lines := [line] + d.lines;
    assert lines[1..] == d.lines;
    assert Joined(lines) + d.rest == line + [NEWLINE] + (Joined(d.lines) + d.rest);
  }

  lemma {:induction false} DrainSplits(stream: Bytes, isOpen: Bytes -> bool)
    ensures SplitOf(stream, Drain(stream, isOpen), isOpen)
    decreases |stream|
  {
    match IndexOf(stream, NEWLINE)
    case None =>
    case Some(k) =>
      var line, after := stream[..k], stream[k + 1..];
      assert stream == line + [NEWLINE] + after;
      if isOpen(line) {
        SplitAtOpen(line, after, isOpen);
      } else {
        DrainSplits(after, isOpen);
        SplitOneMore(line, after, Drain(after, isOpen), isOpen);
      }
  }

  lemma {:induction false} FirstIndex(s: Bytes, b: Byte, k: nat)
    requires k < |s| && s[k] == b && b !in s[..k]
    ensures IndexOf(s, b) == Some(k)
    decreases |s|
  {
    if k > 0 {
      assert s[0] in s[..k];
      assert s[..k][1..] == s[1..][..k - 1];
      FirstIndex(s[1..], b, k - 1);
    }
  }

  /** The newline that ends the first line is found where it is. */
  lemma FirstLine(line: Bytes, after: Bytes)
    requires NEWLINE !in line
    ensures IndexOf(line + [NEWLINE] + after, NEWLINE) == Some(|line|)
    ensures (line + [NEWLINE] + after)[..|line|] == line
    ensures (line + [NEWLINE] + after)[|line| + 1..] == after
  {
    FirstIndex(line + [NEWLINE] + after, NEWLINE, |line|);
  }

  lemma Associative(a: Bytes, b: Bytes, c: Bytes)
    ensures a + b + c == a + (b + c)
  {
  }

  /** There is only one way to split a stream, and the loop finds it. */
  lemma {:induction false} SplitIsUnique(stream: Bytes, d: Drained, isOpen: Bytes -> bool)
    requires SplitOf(stream, d, isOpen)
    ensures d == Drain(stream, isOpen)
    decreases |d.lines|
  {
    if d.lines == [] {
      assert stream == d.rest;
    } else {
      var line, more := d.lines[0], d.lines[1..];
      var after := Joined(more) + d.rest;
      Associative(line + [NEWLINE], Joined(more), d.rest);
      FirstLine(line, after);
      if more == [] {
        assert d.lines == [line];
      } else {
        assert !isOpen(line);
        forall k | 0 <= k < |more| ensures more[k] == d.lines[k + 1] {}
        SplitIsUnique(after, Drained(more, d.rest, d.atOpen), isOpen);
        assert d.lines == [line] + more;
      }
    }
  }

  lemma {:induction false} JoinedAppend(a: seq<Bytes>, b: seq<Bytes>)
    ensures Joined(a + b) == Joined(a) + Joined(b)
    decreases |a|
  {
    if a == [] {
      assert a + b == b;
    } else {
      JoinedAppend(a[1..], b);
      assert (a + b)[1..] == a[1..] + b;
    }
  }

  lemma SplitsConcatenate(first: Bytes, a: Drained, second: Bytes, b: Drained, isOpen: Bytes -> bool)
    requires SplitOf(first, a, isOpen) && !a.atOpen && SplitOf(a.rest + second, b, isOpen)
    ensures SplitOf(first + second, Drained(a.lines + b.lines, b.rest, b.atOpen), isOpen)
  {
    var lines := a.lines + b.lines;
    assert first + second == Joined(lines) + b.rest by {
      JoinedAppend(a.lines, b.lines);
      Associative(Joined(a.lines), a.rest, second);
      Associative(Joined(a.lines), Joined(b.lines), b.rest);
    }
    forall k | 0 <= k < |lines| ensures NEWLINE !in lines[k] && (k < |lines| - 1 ==> !isOpen(lines[k])) {
      if k < |a.lines| { assert lines[k] == a.lines[k]; } else { assert lines[k] == b.lines[k - |a.lines|]; }
    }
    if b.lines == [] { assert lines == a.lines; }
  }

  /** Draining what is left together with what comes next is draining everything at once. */
  lemma DrainInTwo(first: Bytes, second: Bytes, isOpen: Bytes -> bool)
    ensures var a := Drain(first, isOpen);
      Drain(first + second, isOpen) ==
        if a.atOpen then Drained(a.lines, a.rest + second, true)
        else var b := Drain(a.rest + second, isOpen); Drained(a.lines + b.lines, b.rest, b.atOpen)
  {
    var a := Drain(first, isOpen);
    DrainSplits(first, isOpen);
    if a.atOpen {
      assert first + second == Joined(a.lines) + (a.rest + second);
      SplitIsUnique(first + second, Drained(a.lines, a.rest + second, true), isOpen);
    } else {
      var b := Drain(a.rest + second, isOpen);
      DrainSplits(a.rest + second, isOpen);
      SplitsConcatenate(first, a, second, b, isOpen);
      SplitIsUnique(first + second, Drained(a.lines + b.lines, b.rest, b.atOpen), isOpen);
    }
  }

  /** After the OPEN line everything more is left over. */
  lemma DrainAfterOpen(first: Bytes, second: Bytes, isOpen: Bytes -> bool)
    requires Drain(first, isOpen).atOpen
    ensures var a := Drain(first, isOpen); Drain(first + second, isOpen) == Drained(a.lines, a.rest + second, true)
  {
    DrainInTwo(first, second, isOpen);
  }

  // ---- a socket over its life --------------------------------------------------------------------

  /**
   What became of the bytes of one socket: `lines` were handed to the frame handler (history), `buffer` is
   held by the reader, and from OPEN on holds what goes to the local service first; `backlog` waits in the
   paused socket, `toLocal` reached the local service.
   */
  datatype Tunnel = Tunnel(
    buffer: Bytes, detached: bool, lines: seq<Bytes>, backlog: Bytes, piped: bool, toLocal: Bytes)

  const FreshTunnel := Tunnel([], false, [], [], false, [])

  datatype Happening = Arrive(chunk: Bytes) | LocalConnect

  /** The reader runs until its buffer holds no complete line or an OPEN line detached it. */
  function ReadOut(t: Tunnel, isOpen: Bytes -> bool): Tunnel {
    if t.detached then t
    else
      var d := Drain(t.buffer, isOpen);
      t.(buffer := d.rest, detached := d.atOpen, lines := t.lines + d.lines)
  }

  /** One line, ending at `index`, is cut out of the buffer. */
  function OneLineRead(t: Tunnel, index: nat, isOpen: Bytes -> bool): Tunnel
    requires index < |t.buffer|
  {
    t.(buffer := t.buffer[index + 1..],
       detached := t.detached || isOpen(t.buffer[..index]),
       lines := t.lines + [t.buffer[..index]])
  }

  lemma ReadOutOneLine(t: Tunnel, index: nat, isOpen: Bytes -> bool)
    requires !t.detached && IndexOf(t.buffer, NEWLINE) == Some(index)
    ensures ReadOut(OneLineRead(t, index, isOpen), isOpen) == ReadOut(t, isOpen)
  {
    var line, after := t.buffer[..index], t.buffer[index + 1..];
    if !isOpen(line) {
      var d := Drain(after, isOpen);
      assert t.lines + [line] + d.lines == t.lines + ([line] + d.lines);
    }
  }

  /** A chunk arrives: the reader takes it, or it waits in the paused socket, or it flows on. */
  function Arrived(t: Tunnel, chunk: Bytes, isOpen: Bytes -> bool): Tunnel {
    if !t.detached then ReadOut(t.(buffer := t.buffer + chunk), isOpen)
    else if t.piped then t.(toLocal := t.toLocal + chunk)
    else t.(backlog := t.backlog + chunk)
  }

  /** The local service accepted: the left-over bytes are written, then the pipe empties the backlog. */
  function LocalConnected(t: Tunnel): Tunnel {
    if t.detached && !t.piped
    then t.(piped := true, toLocal := t.buffer + t.backlog, backlog := [])
    else t
  }

  function Happened(t: Tunnel, hs: seq<Happening>, isOpen: Bytes -> bool): Tunnel
    decreases |hs|
  {
    if hs == [] then t
    else match hs[0]
      case Arrive(chunk) => Happened(Arrived(t, chunk, isOpen), hs[1..], isOpen)
      case LocalConnect => Happened(LocalConnected(t), hs[1..], isOpen)
  }

  function Stream(hs: seq<Happening>): Bytes {
    if hs == [] then [] else (if hs[0].Arrive? then hs[0].chunk else []) + Stream(hs[1..])
  }

  /** The tunnel holds exactly what draining `stream` in one piece yields. */
  predicate Refines(t: Tunnel, stream: Bytes, isOpen: Bytes -> bool) {
    var d := Drain(stream, isOpen);
    && t.lines == d.lines
    && t.detached == d.atOpen
    && d.rest == (if t.piped then t.toLocal else t.buffer + t.backlog)
    && (!t.detached ==> t.backlog == [] && !t.piped)
    && (!t.piped ==> t.toLocal == [])
  }

  lemma ReadFromAttached(t: Tunnel, stream: Bytes, chunk: Bytes, isOpen: Bytes -> bool)
    requires Refines(t, stream, isOpen) && !t.detached
    ensures Refines(Arrived(t, chunk, isOpen), stream + chunk, isOpen)
  {
    DrainInTwo(stream, chunk, isOpen);
    assert t.buffer + t.backlog == t.buffer;
    var b := Drain(t.buffer + chunk, isOpen);
    assert b.rest + [] == b.rest;
  }

  lemma ArrivedRefines(t: Tunnel, stream: Bytes, chunk: Bytes, isOpen: Bytes -> bool)
    requires Refines(t, stream, isOpen)
    ensures Refines(Arrived(t, chunk, isOpen), stream + chunk, isOpen)
  {
    if !t.detached {
      ReadFromAttached(t, stream, chunk, isOpen);
    } else {
      DrainAfterOpen(stream, chunk, isOpen);
      Associative(t.buffer, t.backlog, chunk);
    }
  }

  lemma LocalConnectRefines(t: Tunnel, stream: Bytes, isOpen: Bytes -> bool)
    requires Refines(t, stream, isOpen)
    ensures Refines(LocalConnected(t), stream, isOpen)
  {
  }

  lemma {:induction false} HappenedRefines(t: Tunnel, stream: Bytes, hs: seq<Happening>, isOpen: Bytes -> bool)
    requires Refines(t, stream, isOpen)
    ensures Refines(Happened(t, hs, isOpen), stream + Stream(hs), isOpen)
    decreases |hs|
  {
    if hs == [] {
      assert stream + Stream(hs) == stream;
    } else if hs[0].Arrive? {
      var chunk := hs[0].chunk;
      Associative(stream, chunk, Stream(hs[1..]));
      ArrivedRefines(t, stream, chunk, isOpen);
      HappenedRefines(Arrived(t, chunk, isOpen), stream + chunk, hs[1..], isOpen);
    } else {
      assert Stream(hs) == Stream(hs[1..]);
      LocalConnectRefines(t, stream, isOpen);
      HappenedRefines(LocalConnected(t), stream, hs[1..], isOpen);
    }
  }

  /**
   However TCP cuts the stream and whenever the local service connects: the handler gets the lines of the
   whole stream up to its first OPEN line, in order; and the local service gets exactly the bytes after it.
   */
  lemma ChunkingIsInvisible(hs: seq<Happening>, isOpen: Bytes -> bool)
    ensures var t, d := Happened(FreshTunnel, hs, isOpen), Drain(Stream(hs), isOpen);
      && t.lines == d.lines
      && t.detached == d.atOpen
      && (!t.detached ==> t.buffer == d.rest)
      && (t.detached && t.piped ==> t.toLocal == d.rest)
      && (t.detached && !t.piped ==> t.toLocal == [] && t.buffer + t.backlog == d.rest)
    ensures SplitOf(Stream(hs), Drain(Stream(hs), isOpen), isOpen)
  {
    HappenedRefines(FreshTunnel, [], hs, isOpen);
    assert [] + Stream(hs) == Stream(hs);
    DrainSplits(Stream(hs), isOpen);
    var t := Happened(FreshTunnel, hs, isOpen);
    if !t.detached { assert t.buffer + t.backlog == t.buffer; }
  }
}
