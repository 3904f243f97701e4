/**
 The log of repeated tunnel errors: the first error is printed at once and opens a window of a minute, the
 rest are counted per kind and printed when the window ends, and a quiet window closes.
 */
module TunnelErrors {
  import opened Options

  datatype Tally = Tally(count: nat, detail: string)

  datatype Output = First(kind: string, detail: string) | Summary(tallies: map<string, Tally>)

  datatype ErrorLog = ErrorLog(counts: map<string, Tally>, open: bool, output: seq<Output>)

  const SILENT := ErrorLog(map[], false, [])

  function Recorded(s: ErrorLog, kind: string, detail: string): ErrorLog {
    if !s.open then s.(open := true, output := s.output + [First(kind, detail)])
    else if kind in s.counts then s.(counts := s.counts[kind := Tally(s.counts[kind].count + 1, detail)])
    else s.(counts := s.counts[kind := Tally(1, detail)])
  }

  function Flushed(s: ErrorLog): ErrorLog {
    if s.counts == map[] then s.(open := false)
    else s.(counts := map[], open := true, output := s.output + [Summary(s.counts)])
  }

  class TunnelErrorLog {
    var counts: map<string, Tally>
    /** Whether the window's timer runs. */
    var open: bool
    var output: seq<Output>

    constructor ()
      ensures State() == SILENT
    {
      counts, open, output := map[], false, [];
    }

    function State(): ErrorLog
      reads this
    {
      ErrorLog(counts, open, output)
    }

    method Record(kind: string, detail: string)
      modifies this
      ensures State() == Recorded(old(State()), kind, detail)
    {
      if !open {
        output := output + [First(kind, detail)];
        open := true;
        return;
      }
      if kind in counts {
        counts := counts[kind := Tally(counts[kind].count + 1, detail)];
      } else {
        counts := counts[kind := Tally(1, detail)];
      }
    }

    method Flush()
      modifies this
      ensures State() == Flushed(old(State()))
    {
      if |counts| == 0 {
        open := false;
        return;
      }
      output := output + [Summary(counts)];
      counts := map[];
      open := true;
    }
  }

  // ---- whole runs --------------------------------------------------------------------------------

  datatype Event = Record(kind: string, detail: string) | WindowEnds

  predicate ValidRun(s: ErrorLog, es: seq<Event>)
    decreases |es|
  {
    es == [] || ((es[0].WindowEnds? ==> s.open) && ValidRun(Step(s, es[0]), es[1..]))
  }

  function Step(s: ErrorLog, e: Event): ErrorLog {
    match e
    case Record(kind, detail) => Recorded(s, kind, detail)
    case WindowEnds => Flushed(s)
  }

  function Run(s: ErrorLog, es: seq<Event>): ErrorLog
    decreases |es|
  {
    if es == [] then s else Run(Step(s, es[0]), es[1..])
  }

  /** How often a kind was recorded. */
  function Records(es: seq<Event>, kind: string): nat {
    if es == [] then 0 else (if es[0].Record? && es[0].kind == kind then 1 else 0) + Records(es[1..], kind)
  }

  function WindowEndings(es: seq<Event>): nat {
    if es == [] then 0 else (if es[0].WindowEnds? then 1 else 0) + WindowEndings(es[1..])
  }

  function Count(counts: map<string, Tally>, kind: string): nat {
    if kind in counts then counts[kind].count else 0
  }

  /** How many occurrences of a kind one printed block stands for. */
  function Told(o: Output, kind: string): nat {
    match o
    case First(k, _) => if k == kind then 1 else 0
    case Summary(tallies) => Count(tallies, kind)
  }

  function Printed(output: seq<Output>, kind: string): nat {
    if output == [] then 0 else Printed(output[..|output| - 1], kind) + Told(output[|output| - 1], kind)
  }

  lemma PrintedOneMore(output: seq<Output>, o: Output, kind: string)
    ensures Printed(output + [o], kind) == Printed(output, kind) + Told(o, kind)
  {
    assert (output + [o])[..|output|] == output;
  }

  /** A closed window has nothing waiting, and what waits has occurred. */
  predicate Inv(s: ErrorLog) {
    && (!s.open ==> s.counts == map[])
    && forall kind :: kind in s.counts ==> s.counts[kind].count > 0
  }

  lemma {:induction false} RunAccounts(s: ErrorLog, es: seq<Event>, kind: string)
    requires Inv(s) && ValidRun(s, es)
    ensures var t := Run(s, es);
      && Inv(t)
      && Printed(t.output, kind) + Count(t.counts, kind)
           == Printed(s.output, kind) + Count(s.counts, kind) + Records(es, kind)
      && |t.output| + (if t.open then 0 else 1) <= |s.output| + (if s.open then 0 else 1) + WindowEndings(es)
    decreases |es|
  {
    if es != [] {
      match es[0] {
        case Record(k, detail) => PrintedOneMore(s.output, First(k, detail), kind);
        case WindowEnds => PrintedOneMore(s.output, Summary(s.counts), kind);
      }
      RunAccounts(Step(s, es[0]), es[1..], kind);
    }
  }

  /**
   No error is lost or told twice: of every kind, what was printed and what still waits add up to what was
   recorded; and at most one block is printed per window ended, plus one.
   */
  lemma EveryErrorIsCounted(es: seq<Event>, kind: string)
    requires ValidRun(SILENT, es)
    ensures var t := Run(SILENT, es);
      && Printed(t.output, kind) + Count(t.counts, kind) == Records(es, kind)
      && |t.output| <= 1 + WindowEndings(es)
      && (!t.open ==> Printed(t.output, kind) == Records(es, kind))
  {
    RunAccounts(SILENT, es, kind);
  }

  /** The detail of the last error of a kind, `earlier` if there is none. */
  function LastDetail(es: seq<Event>, kind: string, earlier: Option<string>): Option<string> {
    if es == [] then earlier
    else LastDetail(es[1..], kind, if es[0].Record? && es[0].kind == kind then Some(es[0].detail) else earlier)
  }

  lemma {:induction false} WaitingDetails(s: ErrorLog, es: seq<Event>, kind: string, earlier: Option<string>)
    requires Inv(s) && (kind in s.counts ==> earlier == Some(s.counts[kind].detail))
    ensures var t := Run(s, es); kind in t.counts ==> LastDetail(es, kind, earlier) == Some(t.counts[kind].detail)
    decreases |es|
  {
    if es != [] {
      WaitingDetails(Step(s, es[0]), es[1..], kind,
                     if es[0].Record? && es[0].kind == kind then Some(es[0].detail) else earlier);
    }
  }

  lemma {:induction false} RunSnoc(s: ErrorLog, es: seq<Event>, e: Event)
    requires ValidRun(s, es + [e])
    ensures ValidRun(s, es) && (e.WindowEnds? ==> Run(s, es).open) && Run(s, es + [e]) == Step(Run(s, es), e)
    decreases |es|
  {
    var all := es + [e];
    if es == [] {
      assert all[1..] == [];
    } else {
      assert all[1..] == es[1..] + [e];
      RunSnoc(Step(s, es[0]), es[1..], e);
    }
  }

  /**
   No window runs after these events: there was none yet, or one has just ended in which nothing was counted,
   because another ended right before it or its only error was the one that opened it.
   */
  predicate IsQuiet(es: seq<Event>) {
    es == [] ||
    (|es| >= 2 && es[|es| - 1].WindowEnds? && (es[|es| - 2].WindowEnds? || IsQuiet(es[..|es| - 2])))
  }

  /** The events told by the state: whether a window runs, and whether anything waits in it. */
  predicate Reflects(s: ErrorLog, es: seq<Event>) {
    && (s.open <==> !IsQuiet(es))
    && (s.open ==> (s.counts == map[] <==> IsQuiet(es + [WindowEnds])))
    && (!s.open ==> s.counts == map[])
  }

  lemma {:induction false} RunReflects(es: seq<Event>)
    requires ValidRun(SILENT, es)
    ensures Reflects(Run(SILENT, es), es)
    decreases |es|
  {
    if es != [] {
      var n := |es| - 1;
      var before, e := es[..n], es[n];
      assert es == before + [e];
      RunSnoc(SILENT, before, e);
      RunReflects(before);
      assert (es + [WindowEnds])[..n] == before;
      if e.WindowEnds? { assert before + [WindowEnds] == es; }
    }
  }

  /** An error printed at once is the one just recorded; a block tells of each kind the detail recorded last. */
  predicate IsUpToDate(o: Output, es: seq<Event>, e: Event) {
    match o
    case First(kind, detail) => e == Record(kind, detail)
    case Summary(tallies) =>
      e.WindowEnds? && forall kind :: kind in tallies ==> LastDetail(es, kind, None) == Some(tallies[kind].detail)
  }

  /**
   What the next event prints, after any run: an error is printed at once exactly if no window runs, the end
   of a window prints a block exactly if something was counted in it, and what is printed is up to date.
   */
  lemma PrintedExactly(es: seq<Event>, e: Event)
    requires ValidRun(SILENT, es + [e])
    ensures var s, t := Run(SILENT, es).output, Run(SILENT, es + [e]).output;
      if (if e.Record? then IsQuiet(es) else !IsQuiet(es + [WindowEnds]))
      then |t| == |s| + 1 && t[..|s|] == s && IsUpToDate(t[|s|], es, e)
      else t == s
  {
    RunSnoc(SILENT, es, e);
    RunReflects(es);
    var s := Run(SILENT, es);
    forall kind | kind in s.counts ensures LastDetail(es, kind, None) == Some(s.counts[kind].detail) {
      WaitingDetails(SILENT, es, kind, None);
    }
  }
}
