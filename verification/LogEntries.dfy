/**
 The history of a container's log: what `docker logs` wrote to its two outputs, merged into one list by
 time. Array#sort is stable, so the merge is determined: in time order, and per time first stdout, then stderr.
 */
module LogEntries {
  import opened Options

  /** Number.MAX_SAFE_INTEGER, the time of an entry that has none. */
  const NO_TIME: int := 9007199254740991

  /** A parsed line; its time is absent when the timestamp is missing or no date. */
  datatype LogEntry = LogEntry(time: Option<int>, line: string, stderr: bool)

  /** logEntryTime */
  function Time(e: LogEntry): int {
    if e.time.Some? then e.time.value else NO_TIME
  }

  function Front(s: seq<LogEntry>): seq<LogEntry>
    requires s != []
  {
    s[..|s| - 1]
  }

  function Last(s: seq<LogEntry>): LogEntry
    requires s != []
  {
    s[|s| - 1]
  }

  /** The entry placed behind all that are not later. */
  function Placed(e: LogEntry, s: seq<LogEntry>): seq<LogEntry> {
    if s == [] then [e]
    else if Time(Last(s)) <= Time(e) then s + [e]
    else Placed(e, Front(s)) + [Last(s)]
  }

  /** sortLogEntries */
  function SortLogEntries(s: seq<LogEntry>): seq<LogEntry> {
    if s == [] then [] else Placed(Last(s), SortLogEntries(Front(s)))
  }

  predicate InTimeOrder(s: seq<LogEntry>) {
    forall j, k :: 0 <= j < k < |s| ==> Time(s[j]) <= Time(s[k])
  }

  /** The entries of one time, in the order given. */
  function At(time: int, s: seq<LogEntry>): seq<LogEntry> {
    if s == [] then [] else At(time, Front(s)) + (if Time(Last(s)) == time then [Last(s)] else [])
  }

  /** Per time the same entries in the same order. */
  ghost predicate SameAtEveryTime(a: seq<LogEntry>, b: seq<LogEntry>) {
    forall time :: At(time, a) == At(time, b)
  }

  // ---- placing one entry -------------------------------------------------------------------------

  lemma {:induction false} PlacedKeeps(e: LogEntry, s: seq<LogEntry>)
    ensures multiset(Placed(e, s)) == multiset(s) + multiset{e}
    decreases |s|
  {
    if s != [] {
      assert s == Front(s) + [Last(s)];
      PlacedKeeps(e, Front(s));
    }
  }

  lemma {:induction false} PlacedInOrder(e: LogEntry, s: seq<LogEntry>)
    requires InTimeOrder(s)
    ensures InTimeOrder(Placed(e, s))
    ensures forall k :: 0 <= k < |Placed(e, s)| ==>
      Time(Placed(e, s)[k]) <= Time(e) || (s != [] && Time(Placed(e, s)[k]) <= Time(Last(s)))
    decreases |s|
  {
    if s != [] && Time(Last(s)) > Time(e) {
      PlacedInOrder(e, Front(s));
    }
  }

  lemma AtSnoc(time: int, s: seq<LogEntry>, e: LogEntry)
    ensures At(time, s + [e]) == At(time, s) + (if Time(e) == time then [e] else [])
  {
    assert Front(s + [e]) == s;
  }

  lemma {:induction false} PlacedAt(time: int, e: LogEntry, s: seq<LogEntry>)
    ensures At(time, Placed(e, s)) == At(time, s) + (if Time(e) == time then [e] else [])
    decreases |s|
  {
    if s != [] {
      if Time(Last(s)) <= Time(e) {
        AtSnoc(time, s, e);
      } else {
        PlacedAt(time, e, Front(s));
        AtSnoc(time, Placed(e, Front(s)), Last(s));
      }
    }
  }

  // ---- sorting -----------------------------------------------------------------------------------

  /** Sorting rearranges, puts in time order, and leaves entries of one time in the order they had. */
  lemma {:induction false} SortIsStable(s: seq<LogEntry>)
    ensures multiset(SortLogEntries(s)) == multiset(s)
    ensures InTimeOrder(SortLogEntries(s))
    ensures SameAtEveryTime(SortLogEntries(s), s)
    decreases |s|
  {
    if s != [] {
      SortIsStable(Front(s));
      assert s == Front(s) + [Last(s)];
      PlacedKeeps(Last(s), SortLogEntries(Front(s)));
      PlacedInOrder(Last(s), SortLogEntries(Front(s)));
      forall time ensures At(time, SortLogEntries(s)) == At(time, s) {
        assert At(time, SortLogEntries(Front(s))) == At(time, Front(s));
        PlacedAt(time, Last(s), SortLogEntries(Front(s)));
      }
    }
  }

  lemma {:induction false} AtIsEmpty(time: int, s: seq<LogEntry>)
    requires forall k :: 0 <= k < |s| ==> Time(s[k]) < time
    ensures At(time, s) == []
    decreases |s|
  {
    if s != [] { AtIsEmpty(time, Front(s)); }
  }

  lemma LastTimes(a: seq<LogEntry>, b: seq<LogEntry>)
    requires InTimeOrder(b) && a != [] && At(Time(Last(a)), a) == At(Time(Last(a)), b)
    ensures b != [] && Time(Last(b)) >= Time(Last(a))
  {
    assert At(Time(Last(a)), a) != [];
    if b != [] && Time(Last(b)) < Time(Last(a)) { AtIsEmpty(Time(Last(a)), b); }
  }

  lemma Unsnoc(p: seq<LogEntry>, x: LogEntry, q: seq<LogEntry>, y: LogEntry)
    requires p + [x] == q + [y]
    ensures p == q && x == y
  {
    assert (p + [x])[|p|] == x && (q + [y])[|q|] == y;
    assert p == (p + [x])[..|p|] && q == (q + [y])[..|q|];
  }

  lemma SameLast(a: seq<LogEntry>, b: seq<LogEntry>)
    requires InTimeOrder(a) && InTimeOrder(b) && SameAtEveryTime(a, b) && a != []
    ensures b != [] && Last(a) == Last(b)
  {
    LastTimes(a, b);
    LastTimes(b, a);
    var t := Time(Last(a));
    Unsnoc(At(t, Front(a)), Last(a), At(t, Front(b)), Last(b));
  }

  lemma SameFront(time: int, a: seq<LogEntry>, b: seq<LogEntry>)
    requires a != [] && b != [] && Last(a) == Last(b) && At(time, a) == At(time, b)
    ensures At(time, Front(a)) == At(time, Front(b))
  {
    if Time(Last(a)) == time {
      Unsnoc(At(time, Front(a)), Last(a), At(time, Front(b)), Last(b));
    } else {
      assert At(time, a) == At(time, Front(a));
      assert At(time, b) == At(time, Front(b));
    }
  }

  /** Time order and the order within each time leave no choice. */
  lemma {:induction false} StableOrderIsUnique(a: seq<LogEntry>, b: seq<LogEntry>)
    requires InTimeOrder(a) && InTimeOrder(b) && SameAtEveryTime(a, b)
    ensures a == b
    decreases |a|
  {
    if a == [] {
      if b != [] { LastTimes(b, a); }
    } else {
      SameLast(a, b);
      assert SameAtEveryTime(Front(a), Front(b)) by {
        forall time ensures At(time, Front(a)) == At(time, Front(b)) {
          assert At(time, a) == At(time, b);
          SameFront(time, a, b);
        }
      }
      StableOrderIsUnique(Front(a), Front(b));
      assert a == Front(a) + [Last(a)] && b == Front(b) + [Last(b)];
    }
  }

  // ---- fetching ----------------------------------------------------------------------------------

  function DecimalText(n: nat): string {
    (if n < 10 then "" else DecimalText(n / 10)) + [('0' as int + n % 10) as char]
  }

  /** An exit status in a message; a command that never ran has none. */
  function StatusText(status: Option<int>): string {
    if status.None? then "unknown"
    else if status.value < 0 then "-" + DecimalText(-status.value)
    else DecimalText(status.value)
  }

  /** The entry that stands for a failed command which printed nothing. */
  function Failure(status: Option<int>): LogEntry {
    LogEntry(None, "ERROR: docker logs exited with code " + StatusText(status), false)
  }

  /** fetchLogEntries, from the parsed outputs. */
  function FetchLogEntries(status: Option<int>, stdout: seq<LogEntry>, stderr: seq<LogEntry>): seq<LogEntry> {
    if status != Some(0) && stdout == [] && stderr == [] then [Failure(status)] else SortLogEntries(stdout + stderr)
  }

  lemma {:induction false} AtOfBoth(time: int, a: seq<LogEntry>, b: seq<LogEntry>)
    ensures At(time, a + b) == At(time, a) + At(time, b)
    decreases |b|
  {
    if b == [] {
      assert a + b == a;
    } else {
      assert a + b == (a + Front(b)) + [Last(b)] && b == Front(b) + [Last(b)];
      AtSnoc(time, a + Front(b), Last(b));
      AtOfBoth(time, a, Front(b));
    }
  }

  /** A list that merges two: in time order, and per time the entries of the first before those of the second. */
  ghost predicate Merges(r: seq<LogEntry>, first: seq<LogEntry>, second: seq<LogEntry>) {
    InTimeOrder(r) && forall time :: At(time, r) == At(time, first) + At(time, second)
  }

  lemma MergesExactly(r: seq<LogEntry>, first: seq<LogEntry>, second: seq<LogEntry>)
    ensures Merges(r, first, second) <==> InTimeOrder(r) && SameAtEveryTime(r, first + second)
  {
    forall time ensures At(time, first + second) == At(time, first) + At(time, second) {
      AtOfBoth(time, first, second);
    }
  }

  /**
   The merge of the two outputs, exactly: a list is what is fetched if and only if it is in time order and
   holds, for every time, the stdout entries of that time and then the stderr entries, each in their order.
   */
  lemma FetchedIsTheStableMerge(status: Option<int>, stdout: seq<LogEntry>, stderr: seq<LogEntry>, r: seq<LogEntry>)
    requires status == Some(0) || stdout != [] || stderr != []
    ensures r == FetchLogEntries(status, stdout, stderr) <==> Merges(r, stdout, stderr)
    ensures multiset(FetchLogEntries(status, stdout, stderr)) == multiset(stdout) + multiset(stderr)
  {
    var all := stdout + stderr;
    SortIsStable(all);
    MergesExactly(r, stdout, stderr);
    if Merges(r, stdout, stderr) {
      assert SameAtEveryTime(r, SortLogEntries(all)) by {
        forall time ensures At(time, r) == At(time, SortLogEntries(all)) {
          assert At(time, r) == At(time, all);
        }
      }
      StableOrderIsUnique(r, SortLogEntries(all));
    }
  }

  /** A failed command is never taken for an empty log: nothing is fetched only if it worked and printed nothing. */
  lemma FailureIsNeverSilent(status: Option<int>, stdout: seq<LogEntry>, stderr: seq<LogEntry>)
    ensures FetchLogEntries(status, stdout, stderr) == [] <==> status == Some(0) && stdout == [] && stderr == []
    ensures status != Some(0) && stdout == [] && stderr == [] ==>
      FetchLogEntries(status, stdout, stderr)
        == [LogEntry(None, "ERROR: docker logs exited with code " + StatusText(status), false)]
  {
    SortIsStable(stdout + stderr);
    assert |multiset(stdout + stderr)| == |stdout| + |stderr|;
    assert |multiset(SortLogEntries(stdout + stderr))| == |SortLogEntries(stdout + stderr)|;
  }

  /** The largest time value of a Date (section 21.4.1.1 of ECMA-262). */
  const MAX_DATE_MS: int := 8_640_000_000_000_000

  /** Entries without a time come last, after those of any date. */
  lemma UntimedComeLast(s: seq<LogEntry>, j: nat, k: nat)
    requires forall e :: e in s && e.time.Some? ==> e.time.value <= MAX_DATE_MS
    requires j < k < |SortLogEntries(s)| && SortLogEntries(s)[j].time.None?
    ensures SortLogEntries(s)[k].time.None?
  {
    var r := SortLogEntries(s);
    SortIsStable(s);
    assert r[k] in multiset(r);
    assert r[k] in s;
  }
}
