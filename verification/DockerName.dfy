/**
 toDockerName: three regular-expression passes over the lower-cased name, and a fallback. They are proved to
 amount to one scan: keep every letter and digit, and put one separator between two that had anything else
 between them.
 */
module DockerName {
  // ---- the source's passes -----------------------------------------------------------------------

  /** [a-z0-9] */
  predicate IsLetter(c: char) {
    'a' <= c <= 'z' || '0' <= c <= '9'
  }

  /** [a-z0-9_] */
  predicate IsWord(c: char) {
    IsLetter(c) || c == '_'
  }

  /** [-_] */
  predicate IsSeparator(c: char) {
    c == '-' || c == '_'
  }

  predicate NoLetter(s: string) {
    forall k :: 0 <= k < |s| ==> !IsLetter(s[k])
  }

  predicate AllSeparators(s: string) {
    forall k :: 0 <= k < |s| ==> IsSeparator(s[k])
  }

  /** The character classes a run may be made of. */
  datatype Class = NotWord | NotLetter | Separator

  predicate IsIn(cls: Class, c: char) {
    match cls
    case NotWord => !IsWord(c)
    case NotLetter => !IsLetter(c)
    case Separator => IsSeparator(c)
  }

  /** How many characters at the front are in the class. */
  function RunLength(cls: Class, s: string): (n: nat)
    ensures n <= |s| && (forall k :: 0 <= k < n ==> IsIn(cls, s[k])) && (n < |s| ==> !IsIn(cls, s[n]))
  {
    if s == "" || !IsIn(cls, s[0]) then 0 else 1 + RunLength(cls, s[1..])
  }

  /** replace(/[^a-z0-9_]+/g, '-') */
  function Folded(s: string): string
    decreases |s|
  {
    if s == "" then ""
    else if IsWord(s[0]) then [s[0]] + Folded(s[1..])
    else "-" + Folded(s[RunLength(NotWord, s)..])
  }

  /** replace(/[-_]{2,}/g, '-') */
  function Collapsed(s: string): string
    decreases |s|
  {
    if s == "" then ""
    else if !IsSeparator(s[0]) then [s[0]] + Collapsed(s[1..])
    else
      var n := RunLength(Separator, s);
      (if n >= 2 then "-" else [s[0]]) + Collapsed(s[n..])
  }

  function WithoutTrailing(s: string): string {
    if s == "" || !IsSeparator(s[|s| - 1]) then s else WithoutTrailing(s[..|s| - 1])
  }

  /** replace(/^[-_]+|[-_]+$/g, '') */
  function Trimmed(s: string): string {
    WithoutTrailing(s[RunLength(Separator, s)..])
  }

  function Passes(lowered: string): string {
    Trimmed(Collapsed(Folded(lowered)))
  }

  /** Lower-casing in full Unicode, and the first eight hex digits of the SHA-1 of a name. */
  datatype Host = Host(lower: string -> string, digest: string -> string)

  function ToDockerName(host: Host, rawName: string): string {
    var normalized := Passes(host.lower(rawName));
    if normalized != "" then normalized else "service-" + host.digest(rawName)
  }

  predicate InAlphabet(s: string) {
    forall k :: 0 <= k < |s| ==> IsLetter(s[k]) || IsSeparator(s[k])
  }

  /** What the two functions are known to do: lower-casing leaves lower-case ASCII alone, digits are hex. */
  ghost predicate HostOk(host: Host) {
    && (forall s {:trigger host.lower(s)} :: InAlphabet(s) ==> host.lower(s) == s)
    && (forall s :: |host.digest(s)| == 8 && forall k :: 0 <= k < 8 ==> IsLetter(host.digest(s)[k]))
  }

  // ---- the reference: one scan -------------------------------------------------------------------

  /** What stands between two letters that had this between them. */
  function Joint(gap: string): string {
    if gap == "" then "" else if gap == "_" then "_" else "-"
  }

  predicate LetterFirst(s: string) {
    s != "" ==> IsLetter(s[0])
  }

  function Gap(s: string): (gap: string)
    ensures NoLetter(gap)
  {
    s[..RunLength(NotLetter, s)]
  }

  function AfterGap(s: string): (rest: string)
    ensures LetterFirst(rest) && |rest| <= |s| && s == Gap(s) + rest
  {
    s[RunLength(NotLetter, s)..]
  }

  /** The name from its first letter on. */
  function Scan(s: string): string
    requires LetterFirst(s)
    decreases |s|
  {
    if s == "" then ""
    else
      var rest := AfterGap(s[1..]);
      [s[0]] + ((if rest == "" then "" else Joint(Gap(s[1..]))) + Scan(rest))
  }

  // ---- the passes are the scan -------------------------------------------------------------------

  lemma RunLengthIs(cls: Class, s: string, n: nat)
    requires n <= |s| && (forall k :: 0 <= k < n ==> IsIn(cls, s[k])) && (n < |s| ==> !IsIn(cls, s[n]))
    ensures RunLength(cls, s) == n
  {
  }

  lemma FoldedWord(gap: string, rest: string)
    requires gap != "" && IsWord(gap[0])
    ensures Folded(gap + rest) == [gap[0]] + Folded(gap[1..] + rest)
  {
    assert (gap + rest)[1..] == gap[1..] + rest;
  }

  lemma FoldedStep(s: string, n: nat)
    requires 0 < n <= |s| && (forall k :: 0 <= k < n ==> !IsWord(s[k])) && (n < |s| ==> IsWord(s[n]))
    ensures Folded(s) == "-" + Folded(s[n..])
  {
    RunLengthIs(NotWord, s, n);
  }

  lemma RunInFront(gap: string, rest: string, n: nat)
    requires n <= |gap| && (forall k :: 0 <= k < n ==> !IsWord(gap[k]))
    requires (n < |gap| ==> IsWord(gap[n])) && LetterFirst(rest)
    ensures forall k :: 0 <= k < n ==> !IsWord((gap + rest)[k])
    ensures n < |gap + rest| ==> IsWord((gap + rest)[n])
    ensures (gap + rest)[n..] == gap[n..] + rest
  {
  }

  lemma FoldedRun(gap: string, rest: string, n: nat)
    requires 0 < n <= |gap| && (forall k :: 0 <= k < n ==> !IsWord(gap[k])) && (n < |gap| ==> IsWord(gap[n]))
    requires LetterFirst(rest)
    ensures Folded(gap + rest) == "-" + Folded(gap[n..] + rest)
  {
    RunInFront(gap, rest, n);
    FoldedStep(gap + rest, n);
  }

  lemma Regroup(a: string, b: string, c: string)
    ensures a + (b + c) == (a + b) + c
  {
  }

  /** A gap folds by itself. */
  lemma {:induction false} FoldedGap(gap: string, rest: string)
    requires NoLetter(gap) && LetterFirst(rest)
    ensures Folded(gap + rest) == Folded(gap) + Folded(rest)
    decreases |gap|
  {
    if gap == "" {
      assert gap + rest == rest;
    } else if IsWord(gap[0]) {
      FoldedGap(gap[1..], rest);
      FoldedWord(gap, rest);
      Regroup([gap[0]], Folded(gap[1..]), Folded(rest));
    } else {
      var n := RunLength(NotWord, gap);
      assert IsIn(NotWord, gap[0]);
      FoldedRun(gap, rest, n);
      FoldedStep(gap, n);
      FoldedGap(gap[n..], rest);
      Regroup("-", Folded(gap[n..]), Folded(rest));
    }
  }

  /** It folds into separators: a lone underscore stays, anything else brings a hyphen. */
  lemma {:induction false} FoldedGapShape(gap: string)
    requires NoLetter(gap)
    ensures AllSeparators(Folded(gap)) && (gap != "" ==> Folded(gap) != "")
    ensures |Folded(gap)| == 1 ==> Folded(gap) == Joint(gap)
    ensures gap == "_" ==> Folded(gap) == "_"
    decreases |gap|
  {
    if gap == "" {
    } else if IsWord(gap[0]) {
      FoldedGapShape(gap[1..]);
      if |Folded(gap)| == 1 { assert gap == [gap[0]]; }
    } else {
      FoldedGapShape(gap[RunLength(NotWord, gap)..]);
    }
  }

  lemma CollapsedRun(run: string, rest: string)
    requires run != "" && AllSeparators(run) && (rest != "" ==> !IsSeparator(rest[0]))
    ensures Collapsed(run + rest) == (if |run| >= 2 then "-" else run) + Collapsed(rest)
  {
    RunLengthIs(Separator, run + rest, |run|);
    assert (run + rest)[|run|..] == rest;
  }

  function Squeezed(s: string): string {
    Collapsed(Folded(s))
  }

  lemma SqueezedGap(gap: string, rest: string)
    requires NoLetter(gap) && LetterFirst(rest)
    ensures Squeezed(gap + rest) == Joint(gap) + Squeezed(rest)
  {
    FoldedGap(gap, rest);
    FoldedGapShape(gap);
    if gap == "" {
      assert gap + rest == rest;
    } else {
      CollapsedRun(Folded(gap), Folded(rest));
    }
  }

  lemma SqueezedLetter(s: string)
    requires s != "" && IsLetter(s[0])
    ensures Squeezed(s) == [s[0]] + Squeezed(s[1..])
  {
    assert Folded(s) == [s[0]] + Folded(s[1..]);
  }

  predicate EndsInLetter(s: string) {
    s != "" ==> IsLetter(s[|s| - 1])
  }

  /** Up to the last letter, the name takes one step at a time. */
  lemma ScanStep(s: string)
    requires s != "" && IsLetter(s[0])
    ensures var gap, rest := Gap(s[1..]), AfterGap(s[1..]);
      Squeezed(s) == [s[0]] + (Joint(gap) + Squeezed(rest))
      && Scan(s) == [s[0]] + ((if rest == "" then "" else Joint(gap)) + Scan(rest))
  {
    SqueezedLetter(s);
    SqueezedGap(Gap(s[1..]), AfterGap(s[1..]));
  }

  /** The first two passes give the scan and perhaps one trailing separator. */
  lemma {:induction false} SqueezedIsScan(s: string) returns (trail: string)
    requires LetterFirst(s)
    ensures Squeezed(s) == Scan(s) + trail && AllSeparators(trail) && EndsInLetter(Scan(s))
    ensures s == "" ==> trail == ""
    ensures s != "" ==> Scan(s) != "" && Scan(s)[0] == s[0]
    decreases |s|
  {
    if s == "" {
      trail := "";
    } else {
      var gap, rest := Gap(s[1..]), AfterGap(s[1..]);
      ScanStep(s);
      trail := SqueezedIsScan(rest);
      if rest == "" {
        trail := Joint(gap);
      } else {
        Regroup(Joint(gap), Scan(rest), trail);
        Regroup([s[0]], Joint(gap) + Scan(rest), trail);
      }
    }
  }

  lemma {:induction false} TrailingRemoved(s: string, trail: string)
    requires AllSeparators(trail) && EndsInLetter(s)
    ensures WithoutTrailing(s + trail) == s
    decreases |trail|
  {
    if trail == "" {
      assert s + trail == s;
    } else {
      assert (s + trail)[..|s + trail| - 1] == s + trail[..|trail| - 1];
      TrailingRemoved(s, trail[..|trail| - 1]);
    }
  }

  lemma LeadingRemoved(joint: string, rest: string)
    requires AllSeparators(joint) && LetterFirst(rest)
    ensures Trimmed(joint + rest) == WithoutTrailing(rest)
  {
    RunLengthIs(Separator, joint + rest, |joint|);
    assert (joint + rest)[|joint|..] == rest;
  }

  /** The three passes are one scan from the first letter on. */
  lemma PassesAreOneScan(s: string)
    ensures Passes(s) == Scan(AfterGap(s))
  {
    var gap, rest := Gap(s), AfterGap(s);
    SqueezedGap(gap, rest);
    var trail := SqueezedIsScan(rest);
    LeadingRemoved(Joint(gap), Squeezed(rest));
    TrailingRemoved(Scan(rest), trail);
  }

  // ---- the grammar -------------------------------------------------------------------------------

  /** A Docker name: letters, digits and single separators, none at either end. */
  predicate IsDockerName(s: string) {
    && s != "" && !IsSeparator(s[0]) && !IsSeparator(s[|s| - 1])
    && InAlphabet(s)
    && (forall k :: 0 <= k < |s| - 1 ==> !IsSeparator(s[k]) || !IsSeparator(s[k + 1]))
  }

  lemma Joined(c: char, joint: string, rest: string)
    requires IsLetter(c) && (joint == "" || joint == "-" || joint == "_")
    requires IsDockerName(rest) && IsLetter(rest[0])
    ensures IsDockerName([c] + (joint + rest))
  {
    var s := [c] + (joint + rest);
    var offset := 1 + |joint|;
    assert forall k :: offset <= k < |s| ==> s[k] == rest[k - offset];
    assert joint != "" ==> s[1] == joint[0];
  }

  lemma {:induction false} ScanIsDockerName(s: string)
    requires LetterFirst(s) && s != ""
    ensures IsDockerName(Scan(s)) && IsLetter(Scan(s)[0])
    decreases |s|
  {
    var rest := AfterGap(s[1..]);
    if rest != "" {
      ScanIsDockerName(rest);
      Joined(s[0], Joint(Gap(s[1..])), Scan(rest));
    }
  }

  lemma TailOfDockerName(s: string, n: nat)
    requires IsDockerName(s) && n < |s| && IsLetter(s[n])
    ensures IsDockerName(s[n..])
  {
    var rest := s[n..];
    assert forall k :: 0 <= k < |rest| ==> rest[k] == s[n + k];
  }

  /** In a Docker name every gap is empty or one separator. */
  lemma DockerNameGap(s: string)
    requires IsDockerName(s)
    ensures var rest := AfterGap(s[1..]);
      Joint(Gap(s[1..])) == Gap(s[1..]) && (rest == "" ==> |s| == 1) && (rest != "" ==> IsDockerName(rest))
  {
    var n := RunLength(NotLetter, s[1..]);
    assert forall k :: 0 <= k < n ==> !IsLetter(s[1..][k]) && s[1..][k] == s[k + 1];
    assert |s| > 2 ==> !IsSeparator(s[1]) || !IsSeparator(s[2]);
    assert !IsSeparator(s[|s| - 1]);
    if 1 + n < |s| {
      assert s[1..][n] == s[1 + n] && s[1..][n..] == s[1 + n..];
      TailOfDockerName(s, 1 + n);
    }
    assert n == 1 ==> Gap(s[1..]) == [s[1]];
  }

  lemma {:induction false} DockerNameIsItsScan(s: string)
    requires IsDockerName(s)
    ensures LetterFirst(s) && Scan(s) == s
    decreases |s|
  {
    DockerNameGap(s);
    var gap, rest := Gap(s[1..]), AfterGap(s[1..]);
    assert s == [s[0]] + (gap + rest);
    if rest != "" { DockerNameIsItsScan(rest); }
  }

  /** The result is always a Docker name. */
  lemma AlwaysADockerName(host: Host, rawName: string)
    requires HostOk(host)
    ensures IsDockerName(ToDockerName(host, rawName))
  {
    var rest := AfterGap(host.lower(rawName));
    PassesAreOneScan(host.lower(rawName));
    if rest != "" {
      ScanIsDockerName(rest);
    } else {
      var digest, name := host.digest(rawName), ToDockerName(host, rawName);
      assert forall k :: 8 <= k < 16 ==> name[k] == digest[k - 8];
    }
  }

  /** The Docker names are exactly the names that stay as they are. */
  lemma FixedPointsAreTheDockerNames(host: Host, rawName: string)
    requires HostOk(host)
    ensures ToDockerName(host, rawName) == rawName <==> IsDockerName(rawName)
  {
    AlwaysADockerName(host, rawName);
    if IsDockerName(rawName) {
      assert host.lower(rawName) == rawName;
      DockerNameIsItsScan(rawName);
      PassesAreOneScan(rawName);
      RunLengthIs(NotLetter, rawName, 0);
      assert AfterGap(rawName) == rawName;
    }
  }

  lemma Idempotent(host: Host, rawName: string)
    requires HostOk(host)
    ensures ToDockerName(host, ToDockerName(host, rawName)) == ToDockerName(host, rawName)
  {
    AlwaysADockerName(host, rawName);
    FixedPointsAreTheDockerNames(host, ToDockerName(host, rawName));
  }

  // ---- what is kept ------------------------------------------------------------------------------

  function Letters(s: string): string {
    if s == "" then "" else (if IsLetter(s[0]) then [s[0]] else "") + Letters(s[1..])
  }

  lemma {:induction false} LettersOfGap(gap: string, rest: string)
    requires NoLetter(gap)
    ensures Letters(gap + rest) == Letters(rest)
    decreases |gap|
  {
    if gap == "" {
      assert gap + rest == rest;
    } else {
      assert (gap + rest)[1..] == gap[1..] + rest;
      LettersOfGap(gap[1..], rest);
    }
  }

  lemma {:induction false} ScanKeepsLetters(s: string)
    requires LetterFirst(s)
    ensures Letters(Scan(s)) == Letters(s)
    decreases |s|
  {
    if s != "" {
      var gap, rest := Gap(s[1..]), AfterGap(s[1..]);
      LettersOfGap(gap, rest);
      ScanKeepsLetters(rest);
      var joint := if rest == "" then "" else Joint(gap);
      LettersOfGap(joint, Scan(rest));
      assert Scan(s)[1..] == joint + Scan(rest);
    }
  }

  /** No letter or digit is lost, added or moved, and the fallback is for names that have none. */
  lemma LettersAreKept(host: Host, rawName: string)
    requires HostOk(host)
    ensures var letters := Letters(host.lower(rawName));
      if letters == "" then ToDockerName(host, rawName) == "service-" + host.digest(rawName)
      else Letters(ToDockerName(host, rawName)) == letters
  {
    var s := host.lower(rawName);
    PassesAreOneScan(s);
    LettersOfGap(Gap(s), AfterGap(s));
    ScanKeepsLetters(AfterGap(s));
    if AfterGap(s) != "" { ScanIsDockerName(AfterGap(s)); }
  }
}
