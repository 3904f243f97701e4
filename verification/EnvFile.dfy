/**
 The `.env` file and the two functions that read and write the image tag in it. A file is missing or a
 text; `grep` and `sed` see its lines, the last of which may lack its newline.
 */
module EnvFile {
  import opened Options

  type Text = Option<string>

  /** `AGENT_IMAGE_TAG=`: what a tag line starts with. */
  const TAG_START := "AGENT_IMAGE_TAG="
  const LATEST := "latest"

  // ---- lines -------------------------------------------------------------------------------------

  function LineLength(text: string): (n: nat)
    ensures n <= |text| && '\n' !in text[..n] && (n < |text| ==> text[n] == '\n')
  {
    if text == "" || text[0] == '\n' then 0
    else
      var n := LineLength(text[1..]);
      assert text[..n + 1] == [text[0]] + text[1..][..n];
      n + 1
  }

  /** What follows the first line and its newline. */
  function AfterLine(text: string): (rest: string)
    ensures text != "" ==> |rest| < |text|
  {
    var n := LineLength(text);
    if n < |text| then text[n + 1..] else ""
  }

  function Lines(text: string): seq<string>
    decreases |text|
  {
    if text == "" then [] else [text[..LineLength(text)]] + Lines(AfterLine(text))
  }

  /** A whole line and what comes after it. */
  function WithLine(line: string, rest: string): string {
    line + ("\n" + rest)
  }

  /** A text to which a line can be appended: empty, or with its last newline. */
  predicate IsTerminated(text: string) {
    text == "" || text[|text| - 1] == '\n'
  }

  predicate IsTagLine(line: string) {
    TAG_START <= line
  }

  predicate HasTag(text: string) {
    exists k :: 0 <= k < |Lines(text)| && IsTagLine(Lines(text)[k])
  }

  /** grep, head -n 1 and cut -d= -f2-: the value of the first tag line. */
  function FirstTag(lines: seq<string>): string
    requires exists k :: 0 <= k < |lines| && IsTagLine(lines[k])
  {
    if IsTagLine(lines[0]) then lines[0][|TAG_START|..] else FirstTag(lines[1..])
  }

  /** read_tag */
  function ReadTag(file: Text): string {
    if file.Some? && HasTag(file.value) then FirstTag(Lines(file.value)) else LATEST
  }

  // ---- write_tag ---------------------------------------------------------------------------------

  /** The replacement of `sed`: an ampersand stands for what was matched. */
  function Expanded(tag: string, matched: string): string {
    if tag == "" then ""
    else (if tag[0] == '&' then matched else [tag[0]]) + Expanded(tag[1..], matched)
  }

  /** A tag line with the tag put in. */
  function Retagged(line: string, tag: string): string {
    if IsTagLine(line) then TAG_START + Expanded(tag, line) else line
  }

  /** `s|^AGENT_IMAGE_TAG=.*|AGENT_IMAGE_TAG=tag|` on every line. */
  function AllRetagged(text: string, tag: string): string
    decreases |text|
  {
    if text == "" then ""
    else
      var n := LineLength(text);
      if n < |text| then WithLine(Retagged(text[..n], tag), AllRetagged(AfterLine(text), tag))
      else Retagged(text, tag)
  }

  /** How a write fares: it may fail before it creates a missing file, or after some of an appended line. */
  datatype Attempt = Succeeds | Fails(created: bool, appended: nat)

  /** What `sed` does with a tag that breaks out of the replacement: nothing is known of it. */
  type Sed = (string, string) -> Option<string>

  /** Without these two the replacement is the tag, ampersands aside. */
  predicate StaysInside(tag: string) {
    '|' !in tag && '\\' !in tag && '\n' !in tag
  }

  /** write_tag: the file afterwards and whether the function succeeded. */
  function WriteTag(sed: Sed, file: Text, tag: string, attempt: Attempt): (Text, bool) {
    var text := if file.Some? then file.value else "";
    if HasTag(text) then
      if attempt.Fails? then (file, false)
      else if StaysInside(tag) then (Some(AllRetagged(text, tag)), true)
      else
        var edited := sed(text, tag);
        (if edited.Some? then edited else file, edited.Some?)
    else
      var line := WithLine(TAG_START + tag, "");
      match attempt
      case Succeeds => (Some(text + line), true)
      case Fails(created, appended) =>
        (if file.None? && !created then None
         else Some(text + line[..if appended < |line| then appended else |line|]), false)
  }

  /** A write that fails changes nothing in a file that has a tag, whatever `sed` made of it. */
  lemma FailedOverwriteKeepsTheFile(sed: Sed, file: Text, tag: string, attempt: Attempt)
    requires file.Some? && HasTag(file.value) && !WriteTag(sed, file, tag, attempt).1
    ensures WriteTag(sed, file, tag, attempt).0 == file
  {
  }

  // ---- facts about lines -------------------------------------------------------------------------

  lemma LineLengthIs(text: string, n: nat)
    requires n <= |text| && '\n' !in text[..n] && (n < |text| ==> text[n] == '\n')
    ensures LineLength(text) == n
  {
    var m := LineLength(text);
    assert forall k :: 0 <= k < m ==> text[k] == text[..m][k];
    assert forall k :: 0 <= k < n ==> text[k] == text[..n][k];
  }

  lemma WithLineParts(line: string, rest: string)
    requires '\n' !in line
    ensures var text := WithLine(line, rest);
      text != "" && LineLength(text) == |line| < |text| && text[..|line|] == line && AfterLine(text) == rest
  {
    var text := WithLine(line, rest);
    assert text[..|line|] == line && text[|line|] == '\n' && text[|line| + 1..] == rest;
    LineLengthIs(text, |line|);
  }

  /** The lines of a text that starts with a whole line. */
  lemma LinesOfLine(line: string, rest: string)
    requires '\n' !in line
    ensures Lines(WithLine(line, rest)) == [line] + Lines(rest)
  {
    WithLineParts(line, rest);
  }

  lemma LinesOfLast(line: string)
    requires '\n' !in line && line != ""
    ensures LineLength(line) == |line| && Lines(line) == [line]
  {
    assert line[..|line|] == line;
    LineLengthIs(line, |line|);
  }

  lemma CutAt(text: string, n: nat)
    requires n < |text| && text[n] == '\n'
    ensures text == WithLine(text[..n], text[n + 1..])
  {
  }

  /** A text is empty, one unfinished line, or a whole line and the rest. */
  lemma Decomposed(text: string)
    requires text != ""
    ensures var n := LineLength(text);
      '\n' !in text[..n]
      && (n < |text| ==> text == WithLine(text[..n], AfterLine(text)))
      && (n == |text| ==> text[..n] == text && '\n' !in text)
  {
    var n := LineLength(text);
    if n < |text| { CutAt(text, n); } else { assert text[..n] == text; }
  }

  lemma {:induction false} LinesHaveNoNewline(text: string)
    ensures forall k :: 0 <= k < |Lines(text)| ==> '\n' !in Lines(text)[k]
    decreases |text|
  {
    if text != "" { LinesHaveNoNewline(AfterLine(text)); }
  }

  lemma WithLineEnds(line: string, rest: string)
    ensures IsTerminated(WithLine(line, rest)) <==> IsTerminated(rest)
  {
    var text := WithLine(line, rest);
    if rest != "" { assert text[|text| - 1] == rest[|rest| - 1]; }
  }

  lemma AppendedToLine(line: string, rest: string, more: string)
    ensures WithLine(line, rest) + more == WithLine(line, rest + more)
  {
  }

  lemma LinesRegroup(line: string, a: seq<string>, b: seq<string>)
    ensures [line] + (a + b) == [line] + a + b
  {
  }

  /** Appending to a terminated text appends lines. */
  lemma {:induction false} LinesOfAppended(text: string, more: string)
    requires IsTerminated(text)
    ensures Lines(text + more) == Lines(text) + Lines(more)
    decreases |text|
  {
    if text == "" {
      assert text + more == more;
    } else {
      Decomposed(text);
      var line, rest := text[..LineLength(text)], AfterLine(text);
      assert LineLength(text) < |text| by { assert text[|text| - 1] in text; }
      WithLineEnds(line, rest);
      AppendedToLine(line, rest, more);
      LinesOfLine(line, rest + more);
      LinesOfAppended(rest, more);
      LinesRegroup(line, Lines(rest), Lines(more));
    }
  }

  /** The lines once the last one is made longer. */
  function LastExtended(lines: seq<string>, more: string): seq<string>
    requires lines != []
  {
    lines[|lines| - 1 := lines[|lines| - 1] + more]
  }

  lemma LastExtendedTail(first: string, lines: seq<string>, more: string)
    requires lines != []
    ensures LastExtended([first] + lines, more) == [first] + LastExtended(lines, more)
  {
  }

  lemma GluedLast(text: string, line: string)
    requires LineLength(text) == |text| && text != "" && '\n' !in line
    ensures Lines(text) == [text] && Lines(text + WithLine(line, "")) == [text + line]
  {
    Decomposed(text);
    LinesOfLast(text);
    assert text + WithLine(line, "") == WithLine(text + line, "");
    LinesOfLine(text + line, "");
  }

  lemma GluedFirst(first: string, rest: string, more: string)
    requires '\n' !in first
    ensures Lines(WithLine(first, rest) + more) == [first] + Lines(rest + more)
  {
    AppendedToLine(first, rest, more);
    LinesOfLine(first, rest + more);
  }

  /** Appending to a text that lacks its last newline lengthens its last line instead. */
  lemma {:induction false} LinesOfGlued(text: string, line: string)
    requires !IsTerminated(text) && '\n' !in line
    ensures Lines(text) != [] && Lines(text)[|Lines(text)| - 1] != ""
    ensures Lines(text + WithLine(line, "")) == LastExtended(Lines(text), line)
    decreases |text|
  {
    if LineLength(text) == |text| {
      GluedLast(text, line);
    } else {
      Decomposed(text);
      var first, rest := text[..LineLength(text)], AfterLine(text);
      WithLineEnds(first, rest);
      LinesOfGlued(rest, line);
      GluedFirst(first, rest, WithLine(line, ""));
      LinesOfLine(first, rest);
      LastExtendedTail(first, Lines(rest), line);
      var before := Lines(text);
      assert before[|before| - 1] == Lines(rest)[|Lines(rest)| - 1];
    }
  }

  // ---- facts about tags --------------------------------------------------------------------------

  lemma {:induction false} ExpandedLength(tag: string, matched: string)
    requires |matched| > 1
    ensures '&' !in tag ==> Expanded(tag, matched) == tag
    ensures '&' in tag ==> |Expanded(tag, matched)| > |tag|
    ensures |Expanded(tag, matched)| >= |tag|
    decreases |tag|
  {
    if tag != "" {
      ExpandedLength(tag[1..], matched);
      assert tag == [tag[0]] + tag[1..];
    }
  }

  lemma {:induction false} ExpandedHasNoNewline(tag: string, matched: string)
    requires '\n' !in tag && '\n' !in matched
    ensures '\n' !in Expanded(tag, matched)
    decreases |tag|
  {
    if tag != "" { ExpandedHasNoNewline(tag[1..], matched); }
  }

  /** Every line of one text, edited, is the line of another. */
  predicate Edited(before: seq<string>, after: seq<string>, tag: string) {
    |after| == |before| && forall k :: 0 <= k < |before| ==> after[k] == Retagged(before[k], tag)
  }

  lemma RetaggedLine(line: string, tag: string)
    requires '\n' !in tag && '\n' !in line
    ensures '\n' !in Retagged(line, tag) && (Retagged(line, tag) == "" <==> line == "")
  {
    ExpandedHasNoNewline(tag, line);
  }

  lemma EditedLine(line: string, before: seq<string>, after: seq<string>, tag: string)
    requires Edited(before, after, tag)
    ensures Edited([line] + before, [Retagged(line, tag)] + after, tag)
  {
  }

  lemma UnfinishedLine(line: string)
    requires '\n' !in line && line != ""
    ensures LineLength(line) == |line| && Lines(line) == [line] && !IsTerminated(line)
  {
    LinesOfLast(line);
    assert line[|line| - 1] in line;
  }

  lemma LastRetagged(text: string, tag: string)
    requires text != "" && LineLength(text) == |text| && '\n' !in tag
    ensures Edited(Lines(text), Lines(AllRetagged(text, tag)), tag)
    ensures !IsTerminated(text) && !IsTerminated(AllRetagged(text, tag))
  {
    Decomposed(text);
    RetaggedLine(text, tag);
    UnfinishedLine(text);
    UnfinishedLine(Retagged(text, tag));
  }

  /** Editing line by line is editing every line. */
  lemma {:induction false} RetaggedLines(text: string, tag: string)
    requires '\n' !in tag
    ensures Edited(Lines(text), Lines(AllRetagged(text, tag)), tag)
    ensures IsTerminated(AllRetagged(text, tag)) <==> IsTerminated(text)
    decreases |text|
  {
    if text != "" {
      if LineLength(text) == |text| {
        LastRetagged(text, tag);
      } else {
        Decomposed(text);
        var line, rest := text[..LineLength(text)], AfterLine(text);
        RetaggedLine(line, tag);
        RetaggedLines(rest, tag);
        LinesOfLine(Retagged(line, tag), AllRetagged(rest, tag));
        EditedLine(line, Lines(rest), Lines(AllRetagged(rest, tag)), tag);
        WithLineEnds(line, rest);
        WithLineEnds(Retagged(line, tag), AllRetagged(rest, tag));
      }
    }
  }

  lemma {:induction false} FirstTagIs(lines: seq<string>, k: nat)
    requires k < |lines| && IsTagLine(lines[k]) && forall j :: 0 <= j < k ==> !IsTagLine(lines[j])
    ensures FirstTag(lines) == lines[k][|TAG_START|..]
    decreases k
  {
    if k > 0 { FirstTagIs(lines[1..], k - 1); }
  }

  lemma {:induction false} FirstTagLine(lines: seq<string>) returns (k: nat)
    requires exists k :: 0 <= k < |lines| && IsTagLine(lines[k])
    ensures k < |lines| && IsTagLine(lines[k]) && forall j :: 0 <= j < k ==> !IsTagLine(lines[j])
    ensures lines[k] == TAG_START + FirstTag(lines)
    decreases |lines|
  {
    if IsTagLine(lines[0]) {
      k := 0;
    } else {
      var j := FirstTagLine(lines[1..]);
      k := j + 1;
    }
  }

  /** With no tag line before it, the last line decides. */
  lemma PartialTag(before: seq<string>, part: string)
    requires forall k :: 0 <= k < |before| ==> !IsTagLine(before[k])
    ensures var lines := before + [part];
      (exists k :: 0 <= k < |lines| && IsTagLine(lines[k])) == IsTagLine(part)
      && (IsTagLine(part) ==> FirstTag(lines) == part[|TAG_START|..])
  {
    var lines := before + [part];
    if IsTagLine(part) {
      assert lines[|before|] == part;
      FirstTagIs(lines, |before|);
    }
  }

  /** No line turns into a tag line by having one glued to its end: the start of a tag line has no border. */
  lemma GluedIsNoTagLine(line: string, tag: string)
    requires line != "" && !IsTagLine(line)
    ensures !IsTagLine(line + (TAG_START + tag))
  {
    var glued := line + (TAG_START + tag);
    assert |line| >= 16 ==> glued[..16] == line[..16];
    assert forall k :: |line| <= k < |line| + 16 ==> glued[k] == TAG_START[k - |line|];
    assert |line| < 16 && TAG_START[|line|] == 'A' ==> |line| == 8 || |line| == 13;
    assert TAG_START[11] != TAG_START[3] && TAG_START[15] != TAG_START[2];
  }

  // ---- what writing achieves ---------------------------------------------------------------------

  /** After a write over an existing tag every tag line holds the new text and every other line is as it was. */
  lemma OverwriteTouchesOnlyTagLines(sed: Sed, text: string, tag: string)
    requires HasTag(text) && StaysInside(tag)
    ensures WriteTag(sed, Some(text), tag, Succeeds).1
    ensures var after := WriteTag(sed, Some(text), tag, Succeeds).0.value;
      && |Lines(after)| == |Lines(text)| && (IsTerminated(after) <==> IsTerminated(text))
      && (forall k :: 0 <= k < |Lines(text)| && !IsTagLine(Lines(text)[k]) ==> Lines(after)[k] == Lines(text)[k])
      && (forall k :: 0 <= k < |Lines(text)| && IsTagLine(Lines(text)[k]) ==>
            Lines(after)[k] == TAG_START + Expanded(tag, Lines(text)[k]))
  {
    RetaggedLines(text, tag);
  }

  lemma AppendedLine(text: string, line: string)
    requires IsTerminated(text) && '\n' !in line
    ensures Lines(text + WithLine(line, "")) == Lines(text) + [line]
  {
    LinesOfAppended(text, WithLine(line, ""));
    LinesOfLine(line, "");
  }

  /** After a write to a terminated file without a tag the file has one more line. */
  lemma AppendAddsOneLine(sed: Sed, file: Text, tag: string)
    requires file.Some? ==> !HasTag(file.value) && IsTerminated(file.value)
    requires '\n' !in tag
    ensures WriteTag(sed, file, tag, Succeeds).1
    ensures var before := if file.Some? then Lines(file.value) else [];
      Lines(WriteTag(sed, file, tag, Succeeds).0.value) == before + [TAG_START + tag]
  {
    AppendedLine(if file.Some? then file.value else "", TAG_START + tag);
  }

  /**
   Reading back what was written, exactly. Over an existing tag it works unless the tag holds an ampersand;
   a new line works unless the file lacks its last newline, which loses every tag but the default.
   */
  predicate ReadsBack(file: Text, tag: string) {
    if file.Some? && HasTag(file.value) then '&' !in tag
    else file.None? || IsTerminated(file.value) || tag == LATEST
  }

  lemma OverwriteReadsBack(sed: Sed, text: string, tag: string)
    requires HasTag(text) && StaysInside(tag)
    ensures ReadTag(WriteTag(sed, Some(text), tag, Succeeds).0) == tag <==> '&' !in tag
  {
    RetaggedLines(text, tag);
    var lines, after := Lines(text), Lines(AllRetagged(text, tag));
    var k := FirstTagLine(lines);
    assert forall j :: 0 <= j < k ==> after[j] == Retagged(lines[j], tag) == lines[j];
    assert after[k] == Retagged(lines[k], tag);
    FirstTagIs(after, k);
    ExpandedLength(tag, lines[k]);
  }

  lemma AppendReadsBack(sed: Sed, file: Text, tag: string)
    requires file.Some? ==> !HasTag(file.value) && IsTerminated(file.value)
    requires '\n' !in tag
    ensures ReadTag(WriteTag(sed, file, tag, Succeeds).0) == tag
  {
    AppendAddsOneLine(sed, file, tag);
    var before := if file.Some? then Lines(file.value) else [];
    PartialTag(before, TAG_START + tag);
  }

  lemma NoTagWhenGlued(before: seq<string>, tag: string)
    requires before != [] && before[|before| - 1] != "" && forall k :: 0 <= k < |before| ==> !IsTagLine(before[k])
    ensures var after := LastExtended(before, TAG_START + tag); forall k :: 0 <= k < |after| ==> !IsTagLine(after[k])
  {
    GluedIsNoTagLine(before[|before| - 1], tag);
  }

  /** An unfinished line is a line: the newline that ends it adds none. */
  lemma FinishingTheLastLine(text: string)
    requires !IsTerminated(text)
    ensures Lines(text + "\n") == Lines(text)
  {
    LinesOfGlued(text, "");
    assert WithLine("", "") == "\n";
    var lines := Lines(text);
    assert lines[|lines| - 1] + "" == lines[|lines| - 1];
  }

  lemma LinesOfGluedPart(text: string, part: string)
    requires !IsTerminated(text) && '\n' !in part
    ensures Lines(text) != [] && Lines(text)[|Lines(text)| - 1] != ""
    ensures Lines(text + part) == LastExtended(Lines(text), part)
  {
    LinesOfGlued(text, part);
    assert text + WithLine(part, "") == (text + part) + "\n";
    assert !IsTerminated(text + part) by {
      if part != "" { assert (text + part)[|text + part| - 1] == part[|part| - 1] && part[|part| - 1] in part; }
      else { assert text + part == text; }
    }
    FinishingTheLastLine(text + part);
  }

  /** No part of a tag line makes one of a line it is glued to. */
  lemma NoTagWhenPartGlued(before: seq<string>, tag: string, part: string)
    requires before != [] && before[|before| - 1] != "" && forall k :: 0 <= k < |before| ==> !IsTagLine(before[k])
    requires part <= TAG_START + tag
    ensures var after := LastExtended(before, part); forall k :: 0 <= k < |after| ==> !IsTagLine(after[k])
  {
    var last := before[|before| - 1];
    GluedIsNoTagLine(last, tag);
    assert last + part <= last + (TAG_START + tag);
  }

  lemma GluedPartReadsLatest(text: string, tag: string, part: string)
    requires !HasTag(text) && !IsTerminated(text) && '\n' !in tag && part <= TAG_START + tag
    ensures ReadTag(Some(text + part)) == LATEST
  {
    LinesOfGluedPart(text, part);
    NoTagWhenPartGlued(Lines(text), tag, part);
    assert !HasTag(text + part) by { assert Lines(text + part) == LastExtended(Lines(text), part); }
  }

  lemma GlueReadsLatest(sed: Sed, text: string, tag: string)
    requires !HasTag(text) && !IsTerminated(text) && '\n' !in tag
    ensures ReadTag(WriteTag(sed, Some(text), tag, Succeeds).0) == LATEST
  {
    LinesOfGlued(text, TAG_START + tag);
    var before := Lines(text);
    var after := LastExtended(before, TAG_START + tag);
    NoTagWhenGlued(before, tag);
  }

  lemma WriteThenRead(sed: Sed, file: Text, tag: string)
    requires StaysInside(tag)
    ensures WriteTag(sed, file, tag, Succeeds).1
    ensures ReadTag(WriteTag(sed, file, tag, Succeeds).0) == tag <==> ReadsBack(file, tag)
  {
    if file.Some? && HasTag(file.value) {
      OverwriteReadsBack(sed, file.value, tag);
    } else if file.None? || IsTerminated(file.value) {
      AppendReadsBack(sed, file, tag);
    } else {
      GlueReadsLatest(sed, file.value, tag);
    }
  }

  // ---- putting a tag back ------------------------------------------------------------------------

  /** Whether all tag lines hold this tag. */
  predicate TagsAre(lines: seq<string>, tag: string) {
    forall k :: 0 <= k < |lines| && IsTagLine(lines[k]) ==> lines[k] == TAG_START + tag
  }

  lemma TerminatedTail(a: string)
    requires a != ""
    ensures IsTerminated(a) <==> LineLength(a) < |a| && IsTerminated(AfterLine(a))
  {
    Decomposed(a);
    var n := LineLength(a);
    if n == |a| { UnfinishedLine(a); } else { WithLineEnds(a[..n], AfterLine(a)); }
  }

  lemma {:induction false} SameLinesSameText(a: string, b: string)
    requires Lines(a) == Lines(b) && (IsTerminated(a) <==> IsTerminated(b))
    ensures a == b
    decreases |a|
  {
    if a != "" && b != "" {
      var n, m := LineLength(a), LineLength(b);
      Decomposed(a);
      Decomposed(b);
      assert Lines(a)[0] == Lines(b)[0];
      assert Lines(a)[1..] == Lines(AfterLine(a)) && Lines(b)[1..] == Lines(AfterLine(b));
      TerminatedTail(a);
      TerminatedTail(b);
      SameLinesSameText(AfterLine(a), AfterLine(b));
    }
  }

  /** A line edited to one tag and then to another. */
  lemma EditedTwice(line: string, tag: string, previous: string)
    requires IsTagLine(line)
    ensures var twice := Retagged(Retagged(line, tag), previous);
      && ('&' !in previous ==> twice == TAG_START + previous)
      && ('&' in previous ==> |twice| > |TAG_START + previous|)
  {
    ExpandedLength(previous, Retagged(line, tag));
  }

  lemma EditedLines(lines: seq<string>, between: seq<string>, after: seq<string>, tag: string, previous: string)
    requires Edited(lines, between, tag) && Edited(between, after, previous)
    requires exists k :: 0 <= k < |lines| && IsTagLine(lines[k])
    requires previous == FirstTag(lines)
    ensures after == lines <==> TagsAre(lines, previous) && '&' !in previous
  {
    forall j | 0 <= j < |lines|
      ensures after[j] == if IsTagLine(lines[j]) then Retagged(Retagged(lines[j], tag), previous) else lines[j]
    {
      assert between[j] == Retagged(lines[j], tag) && after[j] == Retagged(between[j], previous);
    }
    var k := FirstTagLine(lines);
    EditedTwice(lines[k], tag, previous);
    if '&' !in previous {
      forall j | 0 <= j < |lines| && IsTagLine(lines[j]) ensures after[j] == TAG_START + previous {
        EditedTwice(lines[j], tag, previous);
      }
    }
  }

  /**
   Overwriting the tag and then overwriting it with the one read at the start gives the very same file, if
   and only if all its tag lines agreed and that tag holds no ampersand.
   */
  lemma RestoringIsExact(text: string, tag: string)
    requires HasTag(text) && StaysInside(tag) && StaysInside(ReadTag(Some(text)))
    ensures AllRetagged(AllRetagged(text, tag), ReadTag(Some(text))) == text
      <==> TagsAre(Lines(text), ReadTag(Some(text))) && '&' !in ReadTag(Some(text))
  {
    var previous := ReadTag(Some(text));
    var middle := AllRetagged(text, tag);
    var last := AllRetagged(middle, previous);
    RetaggedLines(text, tag);
    RetaggedLines(middle, previous);
    EditedLines(Lines(text), Lines(middle), Lines(last), tag, previous);
    if Lines(last) == Lines(text) { SameLinesSameText(last, text); }
  }
}
