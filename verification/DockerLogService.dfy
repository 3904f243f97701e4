/**
 Streaming a container's log: the history goes out in batches with progress reports, then one process
 follows the log. The service keeps the follower of each container in a map; processes end on their own.
 */
module DockerLogs {
  import opened Options
  import opened LogEntries

  const HISTORY_BATCH_SIZE := 2000

  // ---- the history -------------------------------------------------------------------------------

  datatype Phase = Loading | Complete | Streaming

  datatype Emitted =
    | Batch(entries: seq<LogEntry>)
    | Line(entry: LogEntry)
    | Report(loaded: nat, total: nat, percent: nat, phase: Phase)

  /** Which of the optional callbacks the caller gave. */
  datatype Listener = Listener(takesBatches: bool, takesReports: bool)

  /** How many times `d` goes into `n`. */
  function Quotient(n: nat, d: nat): nat
    requires d > 0
  {
    if n < d then 0 else 1 + Quotient(n - d, d)
  }

  /** Math.round((loaded / total) * 100) */
  function Percent(loaded: nat, total: nat): nat {
    if total > 0 then Quotient(200 * loaded + total, 2 * total) else 100
  }

  lemma {:induction false} QuotientIsFloor(n: nat, d: nat)
    requires d > 0
    ensures Quotient(n, d) * d <= n < Quotient(n, d) * d + d
    decreases n
  {
    if n >= d { QuotientIsFloor(n - d, d); }
  }

  /** The percentage is the nearest whole number, halves up. */
  lemma PercentIsRounded(loaded: nat, total: nat)
    requires total > 0
    ensures 2 * total * Percent(loaded, total) <= 200 * loaded + total < 2 * total * Percent(loaded, total) + 2 * total
  {
    QuotientIsFloor(200 * loaded + total, 2 * total);
  }

  lemma {:induction false} QuotientIs(n: nat, d: nat, q: nat)
    requires d > 0 && q * d <= n < q * d + d
    ensures Quotient(n, d) == q
    decreases q
  {
    if q > 0 {
      assert q * d == (q - 1) * d + d;
      QuotientIs(n - d, d, q - 1);
    }
  }

  lemma {:induction false} QuotientAtMost(n: nat, d: nat, q: nat)
    requires d > 0 && n < q * d + d
    ensures Quotient(n, d) <= q
    decreases q
  {
    if q > 0 && n >= d {
      assert q * d == (q - 1) * d + d;
      QuotientAtMost(n - d, d, q - 1);
    }
  }

  predicate IsWithheld(last: int, percent: nat, phase: Phase) {
    phase == Loading && percent != 100 && percent < last + 5
  }

  /** emitProgress: what goes out, and the percentage reported last. */
  function EmitProgress(l: Listener, last: int, loaded: nat, total: nat, phase: Phase): (seq<Emitted>, int) {
    var percent := Percent(loaded, total);
    if IsWithheld(last, percent, phase) then ([], last)
    else (if l.takesReports then [Report(loaded, total, percent, phase)] else [], percent)
  }

  function Lines(entries: seq<LogEntry>): (r: seq<Emitted>)
    ensures |r| == |entries| && forall k :: 0 <= k < |r| ==> r[k] == Line(entries[k])
  {
    seq(|entries|, k requires 0 <= k < |entries| => Line(entries[k]))
  }

  function EmitBatch(l: Listener, batch: seq<LogEntry>): seq<Emitted> {
    if l.takesBatches then [Batch(batch)] else Lines(batch)
  }

  function BatchEnd(history: seq<LogEntry>, offset: nat): nat {
    if offset + HISTORY_BATCH_SIZE <= |history| then offset + HISTORY_BATCH_SIZE else |history|
  }

  /** The batches from an offset on. */
  function Batches(l: Listener, history: seq<LogEntry>, offset: nat, last: int): seq<Emitted>
    requires offset <= |history|
    decreases |history| - offset
  {
    if offset == |history| then []
    else
      var end := BatchEnd(history, offset);
      var (report, last') := EmitProgress(l, last, end, |history|, Loading);
      EmitBatch(l, history[offset..end]) + (report + Batches(l, history, end, last'))
  }

  /** The two reports that end the history. */
  function Ending(l: Listener, total: nat): seq<Emitted> {
    if l.takesReports then [Report(total, total, 100, Complete), Report(total, total, 100, Streaming)] else []
  }

  /** Everything a call sends before it follows the log. */
  function Streamed(l: Listener, history: seq<LogEntry>): seq<Emitted> {
    var (first, last) := EmitProgress(l, -1, 0, |history|, Loading);
    first + (Batches(l, history, 0, last) + Ending(l, |history|))
  }

  lemma AllIsAHundred(total: nat)
    ensures Percent(total, total) == 100
  {
    if total > 0 { QuotientIs(200 * total + total, 2 * total, 100); }
  }

  /** The entries sent, whichever way. */
  function Delivered(es: seq<Emitted>): seq<LogEntry> {
    if es == [] then []
    else
      (match es[0]
       case Batch(entries) => entries
       case Line(entry) => [entry]
       case Report(_, _, _, _) => []) + Delivered(es[1..])
  }

  lemma {:induction false} DeliveredConcat(a: seq<Emitted>, b: seq<Emitted>)
    ensures Delivered(a + b) == Delivered(a) + Delivered(b)
    decreases |a|
  {
    if a == [] {
      assert a + b == b;
    } else {
      assert (a + b)[1..] == a[1..] + b;
      DeliveredConcat(a[1..], b);
    }
  }

  lemma {:induction false} DeliveredLines(entries: seq<LogEntry>)
    ensures Delivered(Lines(entries)) == entries
    decreases |entries|
  {
    if entries != [] {
      assert Lines(entries)[1..] == Lines(entries[1..]);
      DeliveredLines(entries[1..]);
    }
  }

  lemma BatchIsDelivered(l: Listener, batch: seq<LogEntry>)
    ensures Delivered(EmitBatch(l, batch)) == batch
  {
    if l.takesBatches { assert Delivered([Batch(batch)]) == batch + Delivered([]); } else { DeliveredLines(batch); }
  }

  lemma {:induction false} ReportsDeliverNothing(es: seq<Emitted>)
    requires forall k :: 0 <= k < |es| ==> es[k].Report?
    ensures Delivered(es) == []
    decreases |es|
  {
    if es != [] { ReportsDeliverNothing(es[1..]); }
  }

  lemma ReportsAreSilent(l: Listener, last: int, loaded: nat, total: nat, phase: Phase)
    ensures Delivered(EmitProgress(l, last, loaded, total, phase).0) == []
  {
    ReportsDeliverNothing(EmitProgress(l, last, loaded, total, phase).0);
  }

  lemma {:induction false} BatchesDeliver(l: Listener, history: seq<LogEntry>, offset: nat, last: int)
    requires offset <= |history|
    ensures Delivered(Batches(l, history, offset, last)) == history[offset..]
    decreases |history| - offset
  {
    if offset < |history| {
      var end := BatchEnd(history, offset);
      var (report, last') := EmitProgress(l, last, end, |history|, Loading);
      var rest := Batches(l, history, end, last');
      BatchesDeliver(l, history, end, last');
      BatchIsDelivered(l, history[offset..end]);
      DeliveredConcat(EmitBatch(l, history[offset..end]), report + rest);
      DeliveredConcat(report, rest);
      ReportsAreSilent(l, last, end, |history|, Loading);
      assert history[offset..] == history[offset..end] + history[end..];
    }
  }

  lemma Assembled(first: seq<Emitted>, batches: seq<Emitted>, end: seq<Emitted>, history: seq<LogEntry>)
    requires Delivered(first) == [] && Delivered(end) == [] && Delivered(batches) == history[0..]
    ensures Delivered(first + (batches + end)) == history
  {
    DeliveredConcat(first, batches + end);
    DeliveredConcat(batches, end);
  }

  /** The history arrives whole and in order, in batches or line by line. */
  lemma HistoryIsDelivered(l: Listener, history: seq<LogEntry>)
    ensures Delivered(Streamed(l, history)) == history
  {
    var first, last := EmitProgress(l, -1, 0, |history|, Loading).0, EmitProgress(l, -1, 0, |history|, Loading).1;
    var batches, end := Batches(l, history, 0, last), Ending(l, |history|);
    ReportsAreSilent(l, -1, 0, |history|, Loading);
    BatchesDeliver(l, history, 0, last);
    ReportsDeliverNothing(end);
    Assembled(first, batches, end, history);
  }

  lemma {:induction false} BatchSizesFrom(l: Listener, history: seq<LogEntry>, offset: nat, last: int)
    requires offset <= |history|
    ensures forall e :: e in Batches(l, history, offset, last) && e.Batch? ==> 1 <= |e.entries| <= HISTORY_BATCH_SIZE
    decreases |history| - offset
  {
    if offset < |history| {
      var end := BatchEnd(history, offset);
      BatchSizesFrom(l, history, end, EmitProgress(l, last, end, |history|, Loading).1);
    }
  }

  lemma BatchSizes(l: Listener, history: seq<LogEntry>)
    ensures forall e :: e in Streamed(l, history) && e.Batch? ==> 1 <= |e.entries| <= 2000
  {
    BatchSizesFrom(l, history, 0, EmitProgress(l, -1, 0, |history|, Loading).1);
  }

  // ---- the reports -------------------------------------------------------------------------------

  /** Reports never fall back, stay within 0 to 100, and while loading rise by five at a time or end it. */
  predicate Rising(es: seq<Emitted>, last: int) {
    es == [] ||
    if es[0].Report? then
      && last <= es[0].percent <= 100 && es[0].loaded <= es[0].total
      && (es[0].phase == Loading && es[0].percent != 100 ==> es[0].percent >= last + 5)
      && Rising(es[1..], es[0].percent)
    else Rising(es[1..], last)
  }

  lemma PercentIsAtMostAHundred(loaded: nat, total: nat)
    requires loaded <= total
    ensures Percent(loaded, total) <= 100
  {
    if total > 0 { QuotientAtMost(200 * loaded + total, 2 * total, 100); }
  }

  predicate NoReports(es: seq<Emitted>) {
    forall k :: 0 <= k < |es| ==> !es[k].Report?
  }

  lemma {:induction false} SilentPrefix(a: seq<Emitted>, b: seq<Emitted>, last: int)
    requires NoReports(a) && Rising(b, last)
    ensures Rising(a + b, last)
    decreases |a|
  {
    if a == [] {
      assert a + b == b;
    } else {
      assert (a + b)[1..] == a[1..] + b;
      SilentPrefix(a[1..], b, last);
    }
  }

  lemma ReportedThen(l: Listener, last: int, loaded: nat, total: nat, phase: Phase, rest: seq<Emitted>)
    requires loaded <= total && last <= 100
    requires var (_, last') := EmitProgress(l, last, loaded, total, phase); Rising(rest, last')
    requires phase == Loading || loaded == total
    requires !l.takesReports ==> NoReports(rest)
    ensures Rising(EmitProgress(l, last, loaded, total, phase).0 + rest, last)
    ensures EmitProgress(l, last, loaded, total, phase).1 <= 100
  {
    PercentIsAtMostAHundred(loaded, total);
    AllIsAHundred(total);
    var (report, last') := EmitProgress(l, last, loaded, total, phase);
    if report == [] {
      assert report + rest == rest;
      if !l.takesReports { SilentPrefix(rest, [], last); assert rest + [] == rest; }
    } else {
      assert (report + rest)[1..] == rest;
    }
  }

  lemma {:induction false} UnreportedBatches(l: Listener, history: seq<LogEntry>, offset: nat, last: int)
    requires offset <= |history| && !l.takesReports
    ensures NoReports(Batches(l, history, offset, last))
    decreases |history| - offset
  {
    if offset < |history| {
      var end := BatchEnd(history, offset);
      UnreportedBatches(l, history, end, EmitProgress(l, last, end, |history|, Loading).1);
    }
  }

  lemma LastIsAtMostAHundred(l: Listener, last: int, loaded: nat, total: nat)
    requires loaded <= total && last <= 100
    ensures EmitProgress(l, last, loaded, total, Loading).1 <= 100
  {
    PercentIsAtMostAHundred(loaded, total);
  }

  /** One batch and its report, in front of what rises from there. */
  lemma BatchRises(l: Listener, batch: seq<LogEntry>, last: int, loaded: nat, total: nat, rest: seq<Emitted>)
    requires loaded <= total && last <= 100 && (!l.takesReports ==> NoReports(rest))
    requires Rising(rest, EmitProgress(l, last, loaded, total, Loading).1)
    ensures Rising(EmitBatch(l, batch) + (EmitProgress(l, last, loaded, total, Loading).0 + rest), last)
    ensures EmitProgress(l, last, loaded, total, Loading).1 <= 100
  {
    ReportedThen(l, last, loaded, total, Loading, rest);
    SilentPrefix(EmitBatch(l, batch), EmitProgress(l, last, loaded, total, Loading).0 + rest, last);
  }

  /** What the loop sends before a given end, one round unrolled. */
  lemma BatchesFrom(l: Listener, history: seq<LogEntry>, offset: nat, last: int, end: seq<Emitted>)
    requires offset < |history|
    ensures var stop := BatchEnd(history, offset);
      var (report, last') := EmitProgress(l, last, stop, |history|, Loading);
      Batches(l, history, offset, last) + end
        == EmitBatch(l, history[offset..stop]) + (report + (Batches(l, history, stop, last') + end))
  {
    var stop := BatchEnd(history, offset);
    var (report, last') := EmitProgress(l, last, stop, |history|, Loading);
    var batch, rest := EmitBatch(l, history[offset..stop]), Batches(l, history, stop, last');
    assert (batch + (report + rest)) + end == batch + (report + (rest + end));
  }

  lemma {:induction false} OnlyHundreds(end: seq<Emitted>, last: int, lower: int)
    requires Rising(end, last) && lower <= last
    requires forall e :: e in end && e.Report? ==> e.percent == 100 && e.phase != Loading
    ensures Rising(end, lower)
    decreases |end|
  {
    if end != [] {
      assert end[0] in end;
      if end[0].Report? {
        OnlyHundreds(end[1..], end[0].percent, end[0].percent);
      } else {
        OnlyHundreds(end[1..], last, lower);
      }
    }
  }

  lemma {:induction false} BatchesRise(l: Listener, history: seq<LogEntry>, offset: nat, last: int, end: seq<Emitted>)
    requires offset <= |history| && last <= 100 && Rising(end, 100) && (!l.takesReports ==> NoReports(end))
    requires forall e :: e in end && e.Report? ==> e.percent == 100 && e.phase != Loading
    ensures Rising(Batches(l, history, offset, last) + end, last)
    decreases |history| - offset
  {
    if offset == |history| {
      assert Batches(l, history, offset, last) + end == end;
      OnlyHundreds(end, 100, last);
    } else {
      var stop := BatchEnd(history, offset);
      var last' := EmitProgress(l, last, stop, |history|, Loading).1;
      LastIsAtMostAHundred(l, last, stop, |history|);
      BatchesRise(l, history, stop, last', end);
      if !l.takesReports { UnreportedBatches(l, history, stop, last'); }
      BatchRises(l, history[offset..stop], last, stop, |history|, Batches(l, history, stop, last') + end);
      BatchesFrom(l, history, offset, last, end);
    }
  }

  /** The reports of a call never fall, stay within 0..100, and a listener is told of completion at 100. */
  lemma ReportsRise(l: Listener, history: seq<LogEntry>)
    ensures Rising(Streamed(l, history), -1)
    ensures var es, total := Streamed(l, history), |history|;
      l.takesReports ==>
        |es| >= 2 && es[|es| - 2..] == [Report(total, total, 100, Complete), Report(total, total, 100, Streaming)]
  {
    var total := |history|;
    var (first, last) := EmitProgress(l, -1, 0, total, Loading);
    var end := Ending(l, total);
    assert Rising(end, 100) by {
      if l.takesReports { assert end[1..] == [Report(total, total, 100, Streaming)]; }
    }
    PercentIsAtMostAHundred(0, total);
    BatchesRise(l, history, 0, last, end);
    if !l.takesReports { UnreportedBatches(l, history, 0, last); }
    ReportedThen(l, -1, 0, total, Loading, Batches(l, history, 0, last) + end);
  }

  lemma {:induction false} ReportIsHigher(es: seq<Emitted>, last: int, k: nat)
    requires Rising(es, last) && k < |es| && es[k].Report?
    ensures last <= es[k].percent <= 100
    ensures es[k].phase == Loading && es[k].percent != 100 ==> es[k].percent >= last + 5
    decreases k
  {
    if k > 0 { ReportIsHigher(es[1..], if es[0].Report? then es[0].percent else last, k - 1); }
  }

  /** What rising means from one report to a later one. */
  lemma {:induction false} LaterReportsAreHigher(es: seq<Emitted>, last: int, j: nat, k: nat)
    requires Rising(es, last) && j < k < |es| && es[j].Report? && es[k].Report?
    ensures last <= es[j].percent <= es[k].percent <= 100
    ensures es[k].phase == Loading && es[k].percent != 100 ==> es[k].percent >= es[j].percent + 5
    decreases k
  {
    if j == 0 {
      ReportIsHigher(es[1..], es[0].percent, k - 1);
    } else {
      LaterReportsAreHigher(es[1..], if es[0].Report? then es[0].percent else last, j - 1, k - 1);
    }
  }

  /** How many loading reports fall short of the end. */
  function Partial(es: seq<Emitted>): nat {
    if es == [] then 0
    else (if es[0].Report? && es[0].phase == Loading && es[0].percent != 100 then 1 else 0) + Partial(es[1..])
  }

  lemma {:induction false} PartialReportsAreFew(es: seq<Emitted>, last: int)
    requires Rising(es, last) && -1 <= last <= 100
    ensures 5 * Partial(es) <= 100 - last
    decreases |es|
  {
    if es != [] { PartialReportsAreFew(es[1..], if es[0].Report? then es[0].percent else last); }
  }

  /** However long the history, at most twenty reports go out before one that says 100. */
  lemma AtMostTwentyPartialReports(l: Listener, history: seq<LogEntry>)
    ensures Partial(Streamed(l, history)) <= 20
  {
    ReportsRise(l, history);
    PartialReportsAreFew(Streamed(l, history), -1);
  }

  /** Only the two reports at the end are made once loading is over, and both say 100. */
  lemma {:induction false} BatchReportsAreLoading(l: Listener, history: seq<LogEntry>, offset: nat, last: int)
    requires offset <= |history|
    ensures forall e :: e in Batches(l, history, offset, last) && e.Report? ==> e.phase == Loading
    decreases |history| - offset
  {
    if offset < |history| {
      var end := BatchEnd(history, offset);
      BatchReportsAreLoading(l, history, end, EmitProgress(l, last, end, |history|, Loading).1);
    }
  }

  lemma LaterPhasesSayAHundred(l: Listener, history: seq<LogEntry>, e: Emitted)
    requires e in Streamed(l, history) && e.Report? && e.phase != Loading
    ensures e.percent == 100
  {
    BatchReportsAreLoading(l, history, 0, EmitProgress(l, -1, 0, |history|, Loading).1);
  }

  /** The report of 0 that the code makes first never goes out: it is not five above -1. */
  lemma NoReportOfZero(l: Listener, history: seq<LogEntry>, k: nat)
    requires k < |Streamed(l, history)| && Streamed(l, history)[k].Report?
    ensures Streamed(l, history)[k].percent >= 4
  {
    var es := Streamed(l, history);
    ReportsRise(l, history);
    ReportIsHigher(es, -1, k);
    if es[k].phase != Loading { LaterPhasesSayAHundred(l, history, es[k]); }
  }

  // ---- no progress is kept back -------------------------------------------------------------------

  /** The percentage reported last, `last` if there is no report. */
  function LastReported(es: seq<Emitted>, last: int): int {
    if es == [] then last else LastReported(es[1..], if es[0].Report? then es[0].percent else last)
  }

  lemma {:induction false} LastReportedConcat(a: seq<Emitted>, b: seq<Emitted>, last: int)
    ensures LastReported(a + b, last) == LastReported(b, LastReported(a, last))
    decreases |a|
  {
    if a == [] {
      assert a + b == b;
    } else {
      assert (a + b)[1..] == a[1..] + b;
      LastReportedConcat(a[1..], b, if a[0].Report? then a[0].percent else last);
    }
  }

  lemma {:induction false} NothingReported(es: seq<Emitted>, last: int)
    requires NoReports(es)
    ensures LastReported(es, last) == last
    decreases |es|
  {
    if es != [] { NothingReported(es[1..], last); }
  }

  /** A batch ends with entry number `loaded`. */
  predicate EndsBatch(loaded: nat, total: nat) {
    loaded > 0 && (loaded % 2000 == 0 || loaded == total)
  }

  /** The last of the first n things sent is not a report. */
  predicate AfterEntry(es: seq<Emitted>, n: nat) {
    0 < n <= |es| && !es[n - 1].Report?
  }

  /** The next thing after n things that were sent is this report while loading. */
  predicate ReportsNext(es: seq<Emitted>, n: nat, loaded: nat, total: nat, percent: nat) {
    n < |es| && es[n] == Report(loaded, total, percent, Loading)
  }

  predicate LoadingReportNext(es: seq<Emitted>, n: nat) {
    n < |es| && es[n].Report? && es[n].phase == Loading
  }

  /**
   With `loaded` entries sent and `reported` reported last: at the end of a batch its percentage comes next
   exactly if it is 100 or five more; otherwise no loading report comes next.
   */
  predicate DueNext(es: seq<Emitted>, n: nat, loaded: nat, reported: int, total: nat) {
    var percent := Percent(loaded, total);
    if EndsBatch(loaded, total) && (percent == 100 || percent >= reported + 5)
    then ReportsNext(es, n, loaded, total, percent)
    else !LoadingReportNext(es, n)
  }

  /** The same where n things from an offset on were sent. */
  predicate ToldInTime(es: seq<Emitted>, n: nat, offset: nat, total: nat, last: int)
    requires 0 < n <= |es|
  {
    DueNext(es, n, offset + |Delivered(es[..n])|, LastReported(es[..n], last), total)
  }

  lemma BatchIsSilent(l: Listener, batch: seq<LogEntry>)
    ensures NoReports(EmitBatch(l, batch))
  {
  }

  lemma {:induction false} LinesDelivered(batch: seq<LogEntry>, n: nat)
    requires n <= |batch|
    ensures |Delivered(Lines(batch)[..n])| == n
  {
    assert Lines(batch)[..n] == Lines(batch[..n]);
    DeliveredLines(batch[..n]);
  }

  /** Part of a batch delivers part of its entries. */
  lemma BatchSoFar(l: Listener, batch: seq<LogEntry>, n: nat)
    requires 0 < n <= |EmitBatch(l, batch)|
    ensures var es := EmitBatch(l, batch);
      if n == |es| then |Delivered(es[..n])| == |batch| else 0 < |Delivered(es[..n])| < |batch|
  {
    var es := EmitBatch(l, batch);
    if n == |es| { assert es[..n] == es; }
    if l.takesBatches { BatchIsDelivered(l, batch); } else { LinesDelivered(batch, n); }
  }

  lemma InsideABatch(offset: nat, n: nat, total: nat)
    requires offset % HISTORY_BATCH_SIZE == 0 && 0 < n < HISTORY_BATCH_SIZE && offset + n < total
    ensures !EndsBatch(offset + n, total)
  {
  }

  /** Within a batch nothing is reported; at its end it is, if it is due. */
  lemma BatchToldInTime(l: Listener, batch: seq<LogEntry>, n: nat, rest: seq<Emitted>, offset: nat, total: nat,
                        last: int)
    requires l.takesReports && 0 < |batch| <= HISTORY_BATCH_SIZE && offset % HISTORY_BATCH_SIZE == 0
    requires offset + |batch| == total || (|batch| == HISTORY_BATCH_SIZE && offset + |batch| < total)
    requires 0 < n <= |EmitBatch(l, batch)| && !LoadingReportNext(rest, 0)
    ensures var report := EmitProgress(l, last, offset + |batch|, total, Loading).0;
      ToldInTime(EmitBatch(l, batch) + (report + rest), n, offset, total, last)
  {
    var sent := EmitBatch(l, batch);
    var report := EmitProgress(l, last, offset + |batch|, total, Loading).0;
    var es := sent + (report + rest);
    assert es[..n] == sent[..n];
    BatchIsSilent(l, batch);
    NothingReported(sent[..n], last);
    BatchSoFar(l, batch, n);
    if n < |sent| {
      InsideABatch(offset, |Delivered(es[..n])|, total);
      assert es[n] == sent[n];
    } else {
      assert report + rest == es[n..];
    }
  }

  lemma TakenPast<T>(a: seq<T>, b: seq<T>, c: seq<T>, n: nat)
    requires n <= |c|
    ensures (a + (b + c))[..|a| + |b| + n] == a + (b + c[..n])
  {
  }

  /** One batch and its report deliver the batch and report what was due. */
  lemma SoFarPastABatch(sent: seq<Emitted>, report: seq<Emitted>, more: seq<Emitted>, last: int)
    requires Delivered(report) == [] && NoReports(sent)
    ensures Delivered(sent + (report + more)) == Delivered(sent) + Delivered(more)
    ensures LastReported(sent + (report + more), last) == LastReported(more, LastReported(report, last))
  {
    DeliveredConcat(sent, report + more);
    DeliveredConcat(report, more);
    LastReportedConcat(sent, report + more, last);
    LastReportedConcat(report, more, last);
    NothingReported(sent, last);
  }

  /** What comes next in the rest comes next in the whole. */
  lemma NextPast(a: seq<Emitted>, b: seq<Emitted>, c: seq<Emitted>, n: nat, loaded: nat, reported: int, total: nat)
    requires n <= |c|
    ensures DueNext(a + (b + c), |a| + |b| + n, loaded, reported, total) <==> DueNext(c, n, loaded, reported, total)
  {
    var es, m := a + (b + c), |a| + |b| + n;
    assert |es| - m == |c| - n;
    if n < |c| { assert es[m] == c[n]; }
  }

  lemma ToldFrom(es: seq<Emitted>, n: nat, offset: nat, total: nat, last: int, loaded: nat, reported: int)
    requires 0 < n <= |es| && offset + |Delivered(es[..n])| == loaded && LastReported(es[..n], last) == reported
    requires DueNext(es, n, loaded, reported, total)
    ensures ToldInTime(es, n, offset, total, last)
  {
  }

  /** What holds of the rest holds of the whole. */
  lemma PastABatch(sent: seq<Emitted>, report: seq<Emitted>, rest: seq<Emitted>, n: nat, offset: nat, total: nat,
                   last: int)
    requires 0 < n <= |rest| && Delivered(report) == [] && NoReports(sent)
    requires ToldInTime(rest, n, offset + |Delivered(sent)|, total, LastReported(report, last))
    ensures ToldInTime(sent + (report + rest), |sent| + |report| + n, offset, total, last)
  {
    var loaded := offset + |Delivered(sent)| + |Delivered(rest[..n])|;
    var reported := LastReported(rest[..n], LastReported(report, last));
    TakenPast(sent, report, rest, n);
    SoFarPastABatch(sent, report, rest[..n], last);
    NextPast(sent, report, rest, n, loaded, reported, total);
    ToldFrom(sent + (report + rest), |sent| + |report| + n, offset, total, last, loaded, reported);
  }

  lemma NoLoadingReportFirst(l: Listener, history: seq<LogEntry>, offset: nat, last: int, end: seq<Emitted>)
    requires offset <= |history| && !LoadingReportNext(end, 0)
    ensures !LoadingReportNext(Batches(l, history, offset, last) + end, 0)
  {
    if offset < |history| {
      var stop := BatchEnd(history, offset);
      BatchesFrom(l, history, offset, last, end);
      BatchIsSilent(l, history[offset..stop]);
      assert |EmitBatch(l, history[offset..stop])| > 0;
    } else {
      assert Batches(l, history, offset, last) + end == end;
    }
  }

  lemma BehindTheReport(sent: seq<Emitted>, report: seq<Emitted>, rest: seq<Emitted>, n: nat)
    requires |sent| < n && AfterEntry(sent + (report + rest), n)
    requires |report| <= 1 && forall e :: e in report ==> e.Report?
    ensures n > |sent| + |report| && AfterEntry(rest, n - |sent| - |report|)
  {
  }

  lemma BatchEndIs(history: seq<LogEntry>, offset: nat)
    requires offset < |history| && offset % HISTORY_BATCH_SIZE == 0
    ensures var stop := BatchEnd(history, offset);
      && offset < stop <= |history| && stop - offset <= HISTORY_BATCH_SIZE
      && (stop == |history| || (stop == offset + HISTORY_BATCH_SIZE && stop % HISTORY_BATCH_SIZE == 0))
  {
  }

  lemma LaterToldInTime(l: Listener, batch: seq<LogEntry>, rest: seq<Emitted>, n: nat, offset: nat, total: nat,
                        last: int)
    requires l.takesReports && 0 < n <= |rest|
    requires ToldInTime(rest, n, offset + |batch|, total, EmitProgress(l, last, offset + |batch|, total, Loading).1)
    ensures var sent, report := EmitBatch(l, batch), EmitProgress(l, last, offset + |batch|, total, Loading).0;
      ToldInTime(sent + (report + rest), |sent| + |report| + n, offset, total, last)
  {
    var report := EmitProgress(l, last, offset + |batch|, total, Loading).0;
    BatchIsDelivered(l, batch);
    BatchIsSilent(l, batch);
    ReportsAreSilent(l, last, offset + |batch|, total, Loading);
    assert LastReported(report, last) == EmitProgress(l, last, offset + |batch|, total, Loading).1;
    PastABatch(EmitBatch(l, batch), report, rest, n, offset, total, last);
  }

  lemma BehindABatchToldInTime(l: Listener, batch: seq<LogEntry>, rest: seq<Emitted>, es: seq<Emitted>, n: nat,
                               offset: nat, total: nat, last: int)
    requires l.takesReports && n > |EmitBatch(l, batch)| && AfterEntry(es, n)
    requires es == EmitBatch(l, batch) + (EmitProgress(l, last, offset + |batch|, total, Loading).0 + rest)
    requires forall k: nat :: AfterEntry(rest, k) ==>
      ToldInTime(rest, k, offset + |batch|, total, EmitProgress(l, last, offset + |batch|, total, Loading).1)
    ensures ToldInTime(es, n, offset, total, last)
  {
    var sent, report := EmitBatch(l, batch), EmitProgress(l, last, offset + |batch|, total, Loading).0;
    BehindTheReport(sent, report, rest, n);
    LaterToldInTime(l, batch, rest, n - |sent| - |report|, offset, total, last);
  }

  /** One round: the batch, its report and the rest. */
  lemma RoundToldInTime(l: Listener, batch: seq<LogEntry>, rest: seq<Emitted>, es: seq<Emitted>, n: nat, offset: nat,
                        total: nat, last: int)
    requires l.takesReports && 0 < |batch| <= HISTORY_BATCH_SIZE && offset % HISTORY_BATCH_SIZE == 0
    requires offset + |batch| == total || (|batch| == HISTORY_BATCH_SIZE && offset + |batch| < total)
    requires !LoadingReportNext(rest, 0) && AfterEntry(es, n)
    requires es == EmitBatch(l, batch) + (EmitProgress(l, last, offset + |batch|, total, Loading).0 + rest)
    requires forall k: nat :: AfterEntry(rest, k) ==>
      ToldInTime(rest, k, offset + |batch|, total, EmitProgress(l, last, offset + |batch|, total, Loading).1)
    ensures ToldInTime(es, n, offset, total, last)
  {
    if n <= |EmitBatch(l, batch)| {
      BatchToldInTime(l, batch, n, rest, offset, total, last);
    } else {
      BehindABatchToldInTime(l, batch, rest, es, n, offset, total, last);
    }
  }

  lemma {:induction false} BatchesToldInTime(
      l: Listener, history: seq<LogEntry>, offset: nat, last: int, end: seq<Emitted>, n: nat)
    requires l.takesReports && offset <= |history| && (offset % HISTORY_BATCH_SIZE == 0 || offset == |history|)
    requires (forall e :: e in end ==> e.Report?) && !LoadingReportNext(end, 0)
    requires AfterEntry(Batches(l, history, offset, last) + end, n)
    ensures ToldInTime(Batches(l, history, offset, last) + end, n, offset, |history|, last)
    decreases |history| - offset
  {
    if offset < |history| {
      var stop := BatchEnd(history, offset);
      var last' := EmitProgress(l, last, stop, |history|, Loading).1;
      var rest := Batches(l, history, stop, last') + end;
      BatchEndIs(history, offset);
      BatchesFrom(l, history, offset, last, end);
      NoLoadingReportFirst(l, history, stop, last', end);
      forall k: nat | AfterEntry(rest, k) ensures ToldInTime(rest, k, stop, |history|, last') {
        BatchesToldInTime(l, history, stop, last', end, k);
      }
      var es := Batches(l, history, offset, last) + end;
      RoundToldInTime(l, history[offset..stop], rest, es, n, offset, |history|, last);
    }
  }

  /**
   Progress is reported exactly when it is due: wherever a batch has just been sent, its percentage follows if
   and only if it is 100 or five above the last one reported.
   */
  lemma ReportsComeInTime(l: Listener, history: seq<LogEntry>, n: nat)
    requires l.takesReports && AfterEntry(Streamed(l, history), n)
    ensures ToldInTime(Streamed(l, history), n, 0, |history|, -1)
  {
    var (first, last) := EmitProgress(l, -1, 0, |history|, Loading);
    var rest := Batches(l, history, 0, last) + Ending(l, |history|);
    if |history| > 0 {
      QuotientIs(|history|, 2 * |history|, 0);
      assert first + rest == rest;
      BatchesToldInTime(l, history, 0, last, Ending(l, |history|), n);
    }
  }

  /** So at the end of every batch the last percentage reported is less than five behind. */
  lemma ProgressIsNeverStale(l: Listener, history: seq<LogEntry>, n: nat)
    requires l.takesReports && AfterEntry(Streamed(l, history), n)
    ensures var es, total := Streamed(l, history), |history|;
      var loaded := |Delivered(es[..n])|;
      var m := if LoadingReportNext(es, n) then n + 1 else n;
      EndsBatch(loaded, total) ==> LastReported(es[..m], -1) > Percent(loaded, total) - 5
  {
    var es := Streamed(l, history);
    ReportsComeInTime(l, history, n);
    if LoadingReportNext(es, n) {
      assert es[..n + 1] == es[..n] + [es[n]];
      LastReportedConcat(es[..n], [es[n]], -1);
    }
  }

  // ---- the loop that sends the history ------------------------------------------------------------

  lemma Regrouped<T>(a: seq<T>, b: seq<T>, c: seq<T>, d: seq<T>)
    ensures a + (b + (c + d)) == a + b + c + d
  {
  }

  /** The loop over the batches. */
  method SendBatches(history: seq<LogEntry>, l: Listener, last0: int) returns (emitted: seq<Emitted>, last: int)
    ensures emitted == Batches(l, history, 0, last0)
  {
    var total, offset := |history|, 0;
    emitted, last := [], last0;
    while offset < total
      invariant 0 <= offset
      invariant Batches(l, history, 0, last0)
        == emitted + (if offset < total then Batches(l, history, offset, last) else [])
      decreases total - offset
    {
      var end := BatchEnd(history, offset);
      var report, last' := EmitProgress(l, last, end, total, Loading).0, EmitProgress(l, last, end, total, Loading).1;
      var batch := EmitBatch(l, history[offset..end]);
      var rest := Batches(l, history, end, last');
      Regrouped(emitted, batch, report, rest);
      emitted := emitted + batch + report;
      last := last';
      offset := offset + HISTORY_BATCH_SIZE;
    }
  }

  method SendHistory(history: seq<LogEntry>, l: Listener) returns (emitted: seq<Emitted>)
    ensures emitted == Streamed(l, history)
  {
    var total := |history|;
    var first, last0 := EmitProgress(l, -1, 0, total, Loading).0, EmitProgress(l, -1, 0, total, Loading).1;
    var batches, last := SendBatches(history, l, last0);
    AllIsAHundred(total);
    var complete := EmitProgress(l, last, total, total, Complete).0;
    var streaming: seq<Emitted> := if l.takesReports then [Report(total, total, 100, Streaming)] else [];
    assert complete + streaming == Ending(l, total);
    emitted := first + (batches + (complete + streaming));
  }

  // ---- the followers -----------------------------------------------------------------------------

  /** A `docker logs --follow` process; whether it was told to end and whether it has. */
  datatype Follower = Follower(name: string, killed: bool, closed: bool)

  /** The map, and every process ever spawned, known by its number. */
  datatype Followers = Followers(streams: map<string, nat>, procs: seq<Follower>)

  function Stopped(s: Followers, name: string): Followers {
    if name in s.streams && s.streams[name] < |s.procs| then
      var p := s.streams[name];
      Followers(s.streams - {name}, s.procs[p := s.procs[p].(killed := true)])
    else s
  }

  function Followed(s: Followers, name: string): Followers {
    var t := Stopped(s, name);
    Followers(t.streams[name := |t.procs|], t.procs + [Follower(name, false, false)])
  }

  /** The close of a process, early or late. */
  function Ended(s: Followers, p: nat): Followers
    requires p < |s.procs|
  {
    var name := s.procs[p].name;
    Followers(if name in s.streams && s.streams[name] == p then s.streams - {name} else s.streams,
              s.procs[p := s.procs[p].(closed := true)])
  }

  // ---- whole runs --------------------------------------------------------------------------------

  /**
   A follower is in the map, under its own name, exactly while it has been neither killed nor closed: no
   process is orphaned, none is kept for dead, and a container never has two.
   */
  ghost predicate Inv(s: Followers) {
    && (forall name :: name in s.streams ==> s.streams[name] < |s.procs| && s.procs[s.streams[name]].name == name)
    && (forall p :: 0 <= p < |s.procs| ==>
          (s.procs[p].name in s.streams && s.streams[s.procs[p].name] == p
           <==> !s.procs[p].killed && !s.procs[p].closed))
  }

  lemma StopKeepsInv(s: Followers, name: string)
    requires Inv(s)
    ensures Inv(Stopped(s, name)) && name !in Stopped(s, name).streams
  {
  }

  lemma FollowKeepsInv(s: Followers, name: string)
    requires Inv(s)
    ensures Inv(Followed(s, name)) && Stopped(s, name).procs == Followed(s, name).procs[..|s.procs|]
  {
    StopKeepsInv(s, name);
  }

  /** Any close keeps the invariant and takes no other follower out of the map. */
  lemma EndKeepsInv(s: Followers, p: nat)
    requires Inv(s) && p < |s.procs| && !s.procs[p].closed
    ensures Inv(Ended(s, p))
    ensures forall name :: name in s.streams && s.streams[name] != p ==>
      name in Ended(s, p).streams && Ended(s, p).streams[name] == s.streams[name]
  {
  }

  datatype Event = Follow(name: string) | Stop(name: string) | Close(p: nat)

  predicate Enabled(s: Followers, e: Event) {
    e.Close? ==> e.p < |s.procs| && !s.procs[e.p].closed
  }

  function Step(s: Followers, e: Event): Followers
    requires Enabled(s, e)
  {
    match e
    case Follow(name) => Followed(s, name)
    case Stop(name) => Stopped(s, name)
    case Close(p) => Ended(s, p)
  }

  ghost predicate Reaches(s: Followers, es: seq<Event>, t: Followers)
    decreases |es|
  {
    if es == [] then t == s else Enabled(s, es[0]) && Reaches(Step(s, es[0]), es[1..], t)
  }

  lemma {:induction false} RunKeepsInv(s: Followers, es: seq<Event>, t: Followers)
    requires Inv(s) && Reaches(s, es, t)
    ensures Inv(t)
    decreases |es|
  {
    if es != [] {
      match es[0] {
        case Follow(name) => FollowKeepsInv(s, name);
        case Stop(name) => StopKeepsInv(s, name);
        case Close(p) => EndKeepsInv(s, p);
      }
      RunKeepsInv(Step(s, es[0]), es[1..], t);
    }
  }

  /** In every run every process spawned is in the map, killed or closed, and each container has at most one left. */
  lemma NoOrphanedFollower(es: seq<Event>, s: Followers)
    requires Reaches(Followers(map[], []), es, s)
    ensures forall p :: 0 <= p < |s.procs| ==>
      (s.procs[p].name in s.streams && s.streams[s.procs[p].name] == p) || s.procs[p].killed || s.procs[p].closed
    ensures forall p, q :: 0 <= p < q < |s.procs| && s.procs[p].name == s.procs[q].name ==>
      s.procs[p].killed || s.procs[p].closed || s.procs[q].killed || s.procs[q].closed
  {
    RunKeepsInv(Followers(map[], []), es, s);
  }

  // ---- the service --------------------------------------------------------------------------------

  class DockerLogService {
    var logStreams: map<string, nat>
    var procs: seq<Follower>

    constructor ()
      ensures logStreams == map[] && procs == []
    {
      logStreams := map[];
      procs := [];
    }

    function State(): Followers
      reads this
    {
      Followers(logStreams, procs)
    }

    ghost predicate Valid()
      reads this
    {
      Inv(State())
    }

    method StopContainerLog(name: string)
      requires Valid()
      modifies this
      ensures Valid() && State() == Stopped(old(State()), name)
    {
      StopKeepsInv(State(), name);
      if name in logStreams {
        var p := logStreams[name];
        procs := procs[p := procs[p].(killed := true)];
        logStreams := logStreams - {name};
      }
    }

    /** The new process is put in the map. */
    method Follow(name: string)
      modifies this
      ensures logStreams == old(logStreams)[name := |old(procs)|]
      ensures procs == old(procs) + [Follower(name, false, false)]
    {
      procs := procs + [Follower(name, false, false)];
      logStreams := logStreams[name := |procs| - 1];
    }

    method StreamContainerLog(
        name: string, status: Option<int>, stdout: seq<LogEntry>, stderr: seq<LogEntry>, l: Listener)
      returns (emitted: seq<Emitted>)
      requires Valid()
      modifies this
      ensures Valid() && State() == Followed(old(State()), name)
      ensures emitted == Streamed(l, FetchLogEntries(status, stdout, stderr))
    {
      FollowKeepsInv(State(), name);
      if name in logStreams {
        StopContainerLog(name);
      }
      emitted := SendHistory(FetchLogEntries(status, stdout, stderr), l);
      Follow(name);
    }

    method OnClose(p: nat)
      requires Valid() && p < |procs| && !procs[p].closed
      modifies this
      ensures Valid() && State() == Ended(old(State()), p)
    {
      EndKeepsInv(State(), p);
      var name := procs[p].name;
      procs := procs[p := procs[p].(closed := true)];
      if name in logStreams && logStreams[name] == p {
        logStreams := logStreams - {name};
      }
    }
  }
}
