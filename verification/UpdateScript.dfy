/**
 The agent's self-update: pull, switch the tag in `.env`, recreate the container, look whether it stays up,
 and roll back if not. What docker, the network and the disk do is an outcome chosen by the environment;
 the results hold for every choice.
 */
module UpdateScript {
  import opened Options
  import opened EnvFile

  datatype Outcomes = Outcomes(
    configOk: bool, pullOk: bool,
    switchWrite: Attempt, upOk: bool, running: bool,
    restoreWrite: Attempt, restoredUpOk: bool, restoredRunning: bool)

  /** What the script does to the outside: `docker compose up` reads the file as it is then. */
  datatype Action = Pull(tag: string) | Up(file: Text) | Probe(running: bool)

  datatype Run = Run(file: Text, actions: seq<Action>, success: bool)

  /** The tags app.service.ts lets through: one alphanumeric and up to 127 more of the same or `.`, `_`, `-`. */
  predicate IsTagChar(c: char) {
    '0' <= c <= '9' || 'A' <= c <= 'Z' || 'a' <= c <= 'z' || c == '.' || c == '_' || c == '-'
  }

  predicate IsWellFormedTag(tag: string) {
    && 1 <= |tag| <= 128
    && (forall k :: 0 <= k < |tag| ==> IsTagChar(tag[k]))
    && tag[0] != '.' && tag[0] != '_' && tag[0] != '-'
  }

  lemma WellFormedTagStaysInside(tag: string)
    requires IsWellFormedTag(tag)
    ensures StaysInside(tag) && '&' !in tag
  {
  }

  // ---- the specification -------------------------------------------------------------------------

  /** The rollback, from the file and the actions as they are when it starts. */
  function RolledBack(sed: Sed, file: Text, actions: seq<Action>, previous: string, o: Outcomes): Run {
    var restored := WriteTag(sed, file, previous, o.restoreWrite).0;
    Run(restored, actions + [Up(restored)] + (if o.restoredUpOk then [Probe(o.restoredRunning)] else []), false)
  }

  /** The switch, the check and, if need be, the rollback. */
  function Switched(sed: Sed, file: Text, actions: seq<Action>, previous: string, target: string, o: Outcomes): Run {
    var (switched, written) := WriteTag(sed, file, target, o.switchWrite);
    var recreated := actions + [Up(switched)];
    if !written then Run(switched, actions, false)
    else if !o.upOk then RolledBack(sed, switched, recreated, previous, o)
    else if !o.running then RolledBack(sed, switched, recreated + [Probe(false)], previous, o)
    else Run(switched, recreated + [Probe(true)], true)
  }

  function Updated(sed: Sed, file: Text, target: string, o: Outcomes): Run {
    if !o.configOk then Run(file, [], false)
    else if !o.pullOk then Run(file, [Pull(target)], false)
    else Switched(sed, file, [Pull(target)], ReadTag(file), target, o)
  }

  // ---- the script --------------------------------------------------------------------------------

  class Updater {
    const sed: Sed
    var env: Text
    var actions: seq<Action>

    constructor (sed: Sed, env: Text)
      ensures this.sed == sed && this.env == env && actions == []
    {
      this.sed := sed;
      this.env := env;
      actions := [];
    }

    method Write(tag: string, attempt: Attempt) returns (ok: bool)
      modifies `env
      ensures (env, ok) == WriteTag(sed, old(env), tag, attempt)
    {
      ok := attempt.Succeeds?;
      if env.None? {
        if attempt.Fails? && !attempt.created {
          return;
        }
        env := Some("");
      }
      if HasTag(env.value) {
        if attempt.Succeeds? {
          if StaysInside(tag) {
            env := Some(AllRetagged(env.value, tag));
          } else {
            var edited := sed(env.value, tag);
            ok := edited.Some?;
            env := if ok then edited else env;
          }
        }
      } else {
        var line := WithLine(TAG_START + tag, "");
        assert line[..|line|] == line;
        if attempt.Fails? && attempt.appended < |line| {
          line := line[..attempt.appended];
        }
        env := Some(env.value + line);
      }
    }

    method ComposeUp()
      modifies `actions
      ensures actions == old(actions) + [Up(env)]
    {
      actions := actions + [Up(env)];
    }

    method SettleAndCheck(running: bool) returns (r: bool)
      modifies `actions
      ensures r == running && actions == old(actions) + [Probe(running)]
    {
      actions := actions + [Probe(running)];
      r := running;
    }

    method Rollback(previous: string, o: Outcomes)
      modifies this
      ensures Run(env, actions, false) == RolledBack(sed, old(env), old(actions), previous, o)
    {
      var restored := Write(previous, o.restoreWrite);
      ComposeUp();
      if o.restoredUpOk {
        var running := SettleAndCheck(o.restoredRunning);
      }
    }

    /** From the switch on there is something to roll back. */
    method Switch(previous: string, target: string, o: Outcomes) returns (success: bool)
      modifies this
      ensures Run(env, actions, success) == Switched(sed, old(env), old(actions), previous, target, o)
    {
      var written := Write(target, o.switchWrite);
      if !written {
        return false;
      }
      ComposeUp();
      if !o.upOk {
        Rollback(previous, o);
        return false;
      }
      var running := SettleAndCheck(o.running);
      if !running {
        Rollback(previous, o);
        return false;
      }
      return true;
    }

    method Update(target: string, o: Outcomes) returns (success: bool)
      requires actions == []
      modifies this
      ensures Run(env, actions, success) == Updated(sed, old(env), target, o)
    {
      if !o.configOk {
        return false;
      }
      var previous := ReadTag(env);
      actions := actions + [Pull(target)];
      assert actions == [Pull(target)];
      if !o.pullOk {
        return false;
      }
      ghost var expected := Switched(sed, env, actions, previous, target, o);
      success := Switch(previous, target, o);
      assert Run(env, actions, success) == expected;
    }
  }

  // ---- what holds over all outcomes --------------------------------------------------------------

  lemma {:induction false} FirstTagHasNoNewline(lines: seq<string>)
    requires exists k :: 0 <= k < |lines| && IsTagLine(lines[k])
    requires forall k :: 0 <= k < |lines| ==> '\n' !in lines[k]
    ensures '\n' !in FirstTag(lines)
    decreases |lines|
  {
    if !IsTagLine(lines[0]) { FirstTagHasNoNewline(lines[1..]); }
  }

  /** A tag that was read leaves sed's replacement only by a vertical bar or a backslash. */
  lemma PreviousStaysInside(file: Text)
    ensures StaysInside(ReadTag(file)) <==> '|' !in ReadTag(file) && '\\' !in ReadTag(file)
  {
    if file.Some? && HasTag(file.value) {
      LinesHaveNoNewline(file.value);
      FirstTagHasNoNewline(Lines(file.value));
    }
  }

  predicate AllWent(o: Outcomes) {
    o.configOk && o.pullOk && o.switchWrite.Succeeds? && o.upOk && o.running
  }

  /** With a tag that stays inside, the write succeeds exactly if the disk lets it. */
  lemma WriteSucceedsExactly(sed: Sed, file: Text, tag: string, attempt: Attempt)
    requires StaysInside(tag)
    ensures WriteTag(sed, file, tag, attempt).1 <==> attempt.Succeeds?
  {
  }

  lemma SuccessShape(sed: Sed, file: Text, target: string, o: Outcomes)
    requires IsWellFormedTag(target)
    ensures var run := Updated(sed, file, target, o);
      && (run.success <==> AllWent(o))
      && (run.success ==>
            && run.file == WriteTag(sed, file, target, Succeeds).0
            && run.actions == [Pull(target), Up(run.file), Probe(true)])
  {
    WellFormedTagStaysInside(target);
    WriteSucceedsExactly(sed, file, target, o.switchWrite);
  }

  /** Success is exactly: every step worked and the agent was seen running, on the file that was written. */
  lemma SuccessExactly(sed: Sed, file: Text, target: string, o: Outcomes)
    requires IsWellFormedTag(target)
    ensures var run := Updated(sed, file, target, o);
      && (run.success <==> AllWent(o))
      && (run.success ==>
            && run.actions == [Pull(target), Up(run.file), Probe(true)]
            && (ReadTag(run.file) == target <==> ReadsBack(file, target)))
  {
    WellFormedTagStaysInside(target);
    SuccessShape(sed, file, target, o);
    WriteThenRead(sed, file, target);
  }

  lemma WrittenTagsAgree(sed: Sed, file: Text, tag: string)
    requires StaysInside(tag) && '&' !in tag
    requires file.Some? ==> HasTag(file.value) || IsTerminated(file.value)
    ensures TagsAre(Lines(WriteTag(sed, file, tag, Succeeds).0.value), tag)
  {
    if file.Some? && HasTag(file.value) {
      var lines := Lines(file.value);
      OverwriteTouchesOnlyTagLines(sed, file.value, tag);
      forall k | 0 <= k < |lines| && IsTagLine(lines[k]) ensures Expanded(tag, lines[k]) == tag {
        ExpandedLength(tag, lines[k]);
      }
    } else {
      AppendAddsOneLine(sed, file, tag);
      assert file.Some? ==> forall k :: 0 <= k < |Lines(file.value)| ==> !IsTagLine(Lines(file.value)[k]);
    }
  }

  /** With an existing tag or a proper last line a success leaves the target, in every tag line. */
  lemma SuccessPinsTheTarget(sed: Sed, file: Text, target: string, o: Outcomes)
    requires IsWellFormedTag(target) && Updated(sed, file, target, o).success
    requires file.Some? ==> HasTag(file.value) || IsTerminated(file.value)
    ensures var run := Updated(sed, file, target, o);
      run.file.Some? && ReadTag(run.file) == target && TagsAre(Lines(run.file.value), target)
  {
    SuccessExactly(sed, file, target, o);
    WellFormedTagStaysInside(target);
    WrittenTagsAgree(sed, file, target);
  }

  /** The exception: without the last newline the script can succeed and still leave the default in force. */
  lemma SuccessCanMissTheTarget(sed: Sed)
    ensures var o := Outcomes(true, true, Succeeds, true, true, Succeeds, true, true);
      var run := Updated(sed, Some("A=1"), "2.0", o);
      run.success && ReadTag(run.file) == "latest"
  {
    var o := Outcomes(true, true, Succeeds, true, true, Succeeds, true, true);
    LinesOfLast("A=1");
    assert !HasTag("A=1");
    SuccessExactly(sed, Some("A=1"), "2.0", o);
    GlueReadsLatest(sed, "A=1", "2.0");
  }

  /** The file after an append of which only the first `n` characters arrived. */
  function CutFile(text: string, target: string, n: nat): Text {
    var line := WithLine(TAG_START + target, "");
    Some(text + line[..if n < |line| then n else |line|])
  }

  /** What the script sees of a file that may be missing. */
  function TextOf(file: Text): string {
    if file.Some? then file.value else ""
  }

  lemma FailedSwitchFile(sed: Sed, file: Text, target: string, o: Outcomes)
    requires o.configOk && o.pullOk && o.switchWrite.Fails? && !HasTag(TextOf(file))
    ensures Updated(sed, file, target, o).file ==
      if file.None? && !o.switchWrite.created then None else CutFile(TextOf(file), target, o.switchWrite.appended)
  {
  }

  lemma CutLine(target: string, n: nat)
    requires n <= |TAG_START + target| && '\n' !in target
    ensures var part := (TAG_START + target)[..n];
      && WithLine(TAG_START + target, "")[..n] == part && '\n' !in part
      && (IsTagLine(part) <==> n >= |TAG_START|)
      && (n >= |TAG_START| ==> part[|TAG_START|..] == target[..n - |TAG_START|])
  {
    var line := TAG_START + target;
    assert '\n' !in line;
    assert forall k :: 0 <= k < n ==> line[..n][k] == line[k];
  }

  lemma WholeLine(line: string)
    ensures WithLine(line, "")[..|line| + 1] == WithLine(line, "")
  {
  }

  lemma PartialLine(text: string, part: string)
    requires !HasTag(text) && IsTerminated(text) && '\n' !in part
    ensures ReadTag(Some(text + part)) == if IsTagLine(part) then part[|TAG_START|..] else LATEST
  {
    LinesOfAppended(text, part);
    if part == "" {
      assert text + part == text;
    } else {
      LinesOfLast(part);
      PartialTag(Lines(text), part);
    }
  }

  lemma PartlyWritten(sed: Sed, text: string, target: string, n: nat)
    requires !HasTag(text) && IsTerminated(text) && '\n' !in target
    ensures ReadTag(CutFile(text, target, n)) ==
      if n < |TAG_START| then LATEST
      else if n < |TAG_START| + |target| then target[..n - |TAG_START|] else target
  {
    if n <= |TAG_START + target| {
      CutLine(target, n);
      PartialLine(text, (TAG_START + target)[..n]);
    } else {
      WholeLine(TAG_START + target);
      AppendReadsBack(sed, Some(text), target);
    }
  }

  /** How much of the line must be written before the tag read back is no longer the default. */
  lemma FailedSwitchCanTruncateTheTag(sed: Sed, file: Text, target: string, o: Outcomes)
    requires IsWellFormedTag(target) && o.configOk && o.pullOk && o.switchWrite.Fails?
    requires file.Some? && !HasTag(file.value) && IsTerminated(file.value)
    ensures ReadTag(Updated(sed, file, target, o).file) ==
      var n := o.switchWrite.appended;
      if n < |TAG_START| then LATEST
      else if n < |TAG_START| + |target| then target[..n - |TAG_START|] else target
  {
    WellFormedTagStaysInside(target);
    FailedSwitchFile(sed, file, target, o);
    PartlyWritten(sed, file.value, target, o.switchWrite.appended);
  }

  /** On a file without its last newline the part that arrived lengthens the last line, and that is no tag line. */
  lemma PartlyGlued(sed: Sed, text: string, target: string, n: nat)
    requires !HasTag(text) && !IsTerminated(text) && '\n' !in target
    ensures ReadTag(CutFile(text, target, n)) == LATEST
  {
    if n <= |TAG_START + target| {
      CutLine(target, n);
      GluedPartReadsLatest(text, target, (TAG_START + target)[..n]);
    } else {
      WholeLine(TAG_START + target);
      GlueReadsLatest(sed, text, target);
    }
  }

  /** The part of the tag that an append of `n` characters brought. */
  function ArrivedTag(target: string, n: nat): string
    requires n >= |TAG_START|
  {
    if n < |TAG_START| + |target| then target[..n - |TAG_START|] else target
  }

  /**
   When a switch that fails leaves the tag in force as it was, over every file: a tag line was there, or the
   last newline was missing, or too little arrived to make a tag line, or the missing file was not even
   created, or what arrived of the tag spells the default.
   */
  predicate KeepsTheTag(file: Text, target: string, attempt: Attempt)
    requires attempt.Fails?
  {
    || HasTag(TextOf(file)) || !IsTerminated(TextOf(file))
    || (file.None? && !attempt.created)
    || attempt.appended < |TAG_START| || ArrivedTag(target, attempt.appended) == LATEST
  }

  lemma FailedSwitchKeepsTheTagExactly(sed: Sed, file: Text, target: string, o: Outcomes)
    requires IsWellFormedTag(target) && o.configOk && o.pullOk && o.switchWrite.Fails?
    ensures ReadTag(Updated(sed, file, target, o).file) == ReadTag(file) <==> KeepsTheTag(file, target, o.switchWrite)
  {
    WellFormedTagStaysInside(target);
    if !HasTag(TextOf(file)) {
      assert ReadTag(file) == LATEST;
      FailedSwitchFile(sed, file, target, o);
      if IsTerminated(TextOf(file)) {
        PartlyWritten(sed, TextOf(file), target, o.switchWrite.appended);
      } else {
        PartlyGlued(sed, TextOf(file), target, o.switchWrite.appended);
      }
    }
  }

  /** The run reaches the rollback. */
  predicate RollsBack(o: Outcomes) {
    o.configOk && o.pullOk && o.switchWrite.Succeeds? && !(o.upOk && o.running)
  }

  /** What a rollback comes to: the restored file, from which the container is recreated. */
  lemma RollbackShape(sed: Sed, file: Text, target: string, o: Outcomes)
    requires IsWellFormedTag(target) && RollsBack(o)
    ensures var run := Updated(sed, file, target, o);
      && !run.success && Up(run.file) in run.actions
      && run.file == WriteTag(sed, WriteTag(sed, file, target, Succeeds).0, ReadTag(file), o.restoreWrite).0
  {
    WellFormedTagStaysInside(target);
    WriteSucceedsExactly(sed, file, target, o.switchWrite);
    var run := Updated(sed, file, target, o);
    assert run.actions[if o.upOk then 3 else 2] == Up(run.file);
  }

  /** After the switch the file has a tag, or at least its last newline. */
  lemma SwitchedFile(sed: Sed, file: Text, target: string)
    requires StaysInside(target)
    ensures var switched := WriteTag(sed, file, target, Succeeds).0;
      switched.Some? && (HasTag(switched.value) || IsTerminated(switched.value))
      && (file.Some? && HasTag(file.value) ==> HasTag(switched.value))
  {
    if file.Some? && HasTag(file.value) {
      RetaggedLines(file.value, target);
      var k := FirstTagLine(Lines(file.value));
      assert IsTagLine(Lines(AllRetagged(file.value, target))[k]);
    }
  }

  /**
   A rollback whose write succeeds puts back the tag read at the start, if and only if that tag holds no
   ampersand, and recreates the container from that file. It never counts as a success.
   */
  lemma RollbackRestoresTheTag(sed: Sed, file: Text, target: string, o: Outcomes)
    requires IsWellFormedTag(target) && RollsBack(o) && o.restoreWrite.Succeeds?
    requires '|' !in ReadTag(file) && '\\' !in ReadTag(file)
    ensures var run := Updated(sed, file, target, o);
      && !run.success && Up(run.file) in run.actions
      && (ReadTag(run.file) == ReadTag(file) <==> '&' !in ReadTag(file))
  {
    WellFormedTagStaysInside(target);
    PreviousStaysInside(file);
    RollbackShape(sed, file, target, o);
    SwitchedFile(sed, file, target);
    WriteThenRead(sed, WriteTag(sed, file, target, Succeeds).0, ReadTag(file));
  }

  /** The rolled back file is the original, byte for byte, exactly if it had one and the same plain tag throughout. */
  lemma RollbackRestoresTheFile(sed: Sed, file: Text, target: string, o: Outcomes)
    requires IsWellFormedTag(target) && RollsBack(o) && o.restoreWrite.Succeeds?
    requires file.Some? && HasTag(file.value) && '|' !in ReadTag(file) && '\\' !in ReadTag(file)
    ensures Updated(sed, file, target, o).file == file <==>
      TagsAre(Lines(file.value), ReadTag(file)) && '&' !in ReadTag(file)
  {
    WellFormedTagStaysInside(target);
    PreviousStaysInside(file);
    SwitchedFile(sed, file, target);
    RestoringIsExact(file.value, target);
  }

  lemma WrittenHasTag(sed: Sed, file: Text, tag: string)
    requires StaysInside(tag)
    requires file.Some? ==> HasTag(file.value) || IsTerminated(file.value)
    ensures HasTag(WriteTag(sed, file, tag, Succeeds).0.value)
  {
    if file.Some? && HasTag(file.value) {
      SwitchedFile(sed, file, tag);
    } else {
      AppendAddsOneLine(sed, file, tag);
      var lines := Lines(WriteTag(sed, file, tag, Succeeds).0.value);
      assert IsTagLine(lines[|lines| - 1]);
    }
  }

  /**
   A rollback whose write fails, on the disk or in `sed`, leaves the new tag in place and recreates the
   container all the same.
   */
  lemma FailedRestoreKeepsTheTarget(sed: Sed, file: Text, target: string, o: Outcomes)
    requires IsWellFormedTag(target) && RollsBack(o)
    requires !WriteTag(sed, WriteTag(sed, file, target, Succeeds).0, ReadTag(file), o.restoreWrite).1
    requires file.Some? ==> HasTag(file.value) || IsTerminated(file.value)
    ensures var run := Updated(sed, file, target, o);
      && !run.success && ReadTag(run.file) == target
      && Up(run.file) in run.actions
  {
    WellFormedTagStaysInside(target);
    RollbackShape(sed, file, target, o);
    WriteThenRead(sed, file, target);
    WrittenHasTag(sed, file, target);
    FailedOverwriteKeepsTheFile(sed, WriteTag(sed, file, target, Succeeds).0, ReadTag(file), o.restoreWrite);
  }

  // ---- the whole run -----------------------------------------------------------------------------

  /** The file the container was last recreated from. */
  function LastRecreated(actions: seq<Action>): Option<Text> {
    if actions == [] then None
    else if actions[|actions| - 1].Up? then Some(actions[|actions| - 1].file)
    else LastRecreated(actions[..|actions| - 1])
  }

  lemma {:induction false} LastRecreatedWith(actions: seq<Action>, file: Text, probes: seq<Action>)
    requires |probes| <= 1 && (|probes| == 1 ==> probes[0].Probe?)
    ensures LastRecreated(actions + [Up(file)] + probes) == Some(file)
  {
    var upTo := actions + [Up(file)];
    if probes == [] { assert upTo + probes == upTo; } else { assert (upTo + probes)[..|upTo|] == upTo; }
  }

  lemma RolledBackRecreates(sed: Sed, file: Text, actions: seq<Action>, previous: string, o: Outcomes)
    ensures var run := RolledBack(sed, file, actions, previous, o); LastRecreated(run.actions) == Some(run.file)
  {
    var run := RolledBack(sed, file, actions, previous, o);
    LastRecreatedWith(actions, run.file, if o.restoredUpOk then [Probe(o.restoredRunning)] else []);
  }

  /** The run as its rollback, from the state the switch left. */
  lemma RunIsItsRollback(sed: Sed, file: Text, target: string, o: Outcomes)
    requires IsWellFormedTag(target) && RollsBack(o)
    ensures var switched := WriteTag(sed, file, target, Succeeds).0;
      Updated(sed, file, target, o) == RolledBack(
        sed, switched, [Pull(target), Up(switched)] + (if o.upOk then [Probe(false)] else []), ReadTag(file), o)
  {
    WellFormedTagStaysInside(target);
    WriteSucceedsExactly(sed, file, target, o.switchWrite);
    var actions := [Pull(target)] + [Up(WriteTag(sed, file, target, Succeeds).0)];
    assert actions + [] == actions;
    assert actions == [Pull(target), Up(WriteTag(sed, file, target, Succeeds).0)];
  }

  /** Over all outcomes: the container is recreated exactly once the switch is written, and last from the final file. */
  lemma ContainerFollowsTheFile(sed: Sed, file: Text, target: string, o: Outcomes)
    requires IsWellFormedTag(target)
    ensures LastRecreated(Updated(sed, file, target, o).actions) ==
      if o.configOk && o.pullOk && o.switchWrite.Succeeds? then Some(Updated(sed, file, target, o).file) else None
  {
    WellFormedTagStaysInside(target);
    var run := Updated(sed, file, target, o);
    if o.configOk && o.pullOk && o.switchWrite.Succeeds? {
      if AllWent(o) {
        LastRecreatedWith([Pull(target)], run.file, [Probe(true)]);
        assert run.actions == [Pull(target)] + [Up(run.file)] + [Probe(true)];
      } else {
        var switched := WriteTag(sed, file, target, Succeeds).0;
        RunIsItsRollback(sed, file, target, o);
        RolledBackRecreates(sed, switched, [Pull(target), Up(switched)] + (if o.upOk then [Probe(false)] else []),
                            ReadTag(file), o);
      }
    } else if run.actions != [] {
      assert run.actions == [Pull(target)] && run.actions[..0] == [];
    }
  }

  /** A container recreated from a file, and a look at it if it came up. */
  function UpAndLook(file: Text, up: bool, running: bool): seq<Action> {
    [Up(file)] + if up then [Probe(running)] else []
  }

  lemma RolledBackActions(sed: Sed, file: Text, actions: seq<Action>, previous: string, o: Outcomes)
    ensures var run := RolledBack(sed, file, actions, previous, o);
      run.actions == actions + UpAndLook(run.file, o.restoredUpOk, o.restoredRunning)
  {
    var up := [Up(RolledBack(sed, file, actions, previous, o).file)];
    var look := if o.restoredUpOk then [Probe(o.restoredRunning)] else [];
    assert actions + up + look == actions + (up + look);
  }

  lemma RollbackActions(sed: Sed, file: Text, target: string, o: Outcomes)
    requires IsWellFormedTag(target) && RollsBack(o)
    ensures var run, switched := Updated(sed, file, target, o), WriteTag(sed, file, target, Succeeds).0;
      run.actions == [Pull(target)] + UpAndLook(switched, o.upOk, o.running)
        + UpAndLook(run.file, o.restoredUpOk, o.restoredRunning)
  {
    var switched := WriteTag(sed, file, target, Succeeds).0;
    var look := if o.upOk then [Probe(false)] else [];
    RunIsItsRollback(sed, file, target, o);
    RolledBackActions(sed, switched, [Pull(target), Up(switched)] + look, ReadTag(file), o);
    assert [Pull(target), Up(switched)] + look == [Pull(target)] + ([Up(switched)] + look);
  }

  /**
   Everything the script does outside, over all outcomes: one pull if the configuration is good; the container
   recreated once the new tag is written and, in a rollback, once more from the file as it is then; and a look
   at it after each time it came up, and only then.
   */
  lemma ActionsExactly(sed: Sed, file: Text, target: string, o: Outcomes)
    requires IsWellFormedTag(target)
    ensures var run, switched := Updated(sed, file, target, o), WriteTag(sed, file, target, Succeeds).0;
      run.actions ==
        if !o.configOk then []
        else if !o.pullOk || o.switchWrite.Fails? then [Pull(target)]
        else if RollsBack(o) then
          [Pull(target)] + UpAndLook(switched, o.upOk, o.running)
            + UpAndLook(run.file, o.restoredUpOk, o.restoredRunning)
        else [Pull(target)] + UpAndLook(switched, o.upOk, o.running)
  {
    WellFormedTagStaysInside(target);
    WriteSucceedsExactly(sed, file, target, o.switchWrite);
    if RollsBack(o) {
      RollbackActions(sed, file, target, o);
    } else if AllWent(o) {
      SuccessShape(sed, file, target, o);
    }
  }

  /**
   Over all outcomes, from a file with a plain tag: the tag afterwards is the target exactly after a success
   or a rollback that could not write, and otherwise the one from before; never a third.
   */
  lemma TagAfterwards(sed: Sed, file: Text, target: string, o: Outcomes)
    requires IsWellFormedTag(target) && file.Some? && HasTag(file.value)
    requires StaysInside(ReadTag(file)) && '&' !in ReadTag(file)
    ensures ReadTag(Updated(sed, file, target, o).file) ==
      if AllWent(o) || (RollsBack(o) && o.restoreWrite.Fails?) then target else ReadTag(file)
  {
    WellFormedTagStaysInside(target);
    if AllWent(o) {
      SuccessExactly(sed, file, target, o);
    } else if RollsBack(o) {
      if o.restoreWrite.Succeeds? {
        RollbackRestoresTheTag(sed, file, target, o);
      } else {
        FailedRestoreKeepsTheTarget(sed, file, target, o);
      }
    }
  }

  /**
   The same byte for byte when all tag lines agree: either every tag line holds the target and nothing else
   changed, or the file is the one from before.
   */
  lemma FileAfterwards(sed: Sed, file: Text, target: string, o: Outcomes)
    requires IsWellFormedTag(target) && file.Some? && HasTag(file.value)
    requires StaysInside(ReadTag(file)) && '&' !in ReadTag(file) && TagsAre(Lines(file.value), ReadTag(file))
    ensures Updated(sed, file, target, o).file ==
      if AllWent(o) || (RollsBack(o) && o.restoreWrite.Fails?) then Some(AllRetagged(file.value, target)) else file
  {
    WellFormedTagStaysInside(target);
    if RollsBack(o) {
      SwitchedFile(sed, file, target);
      RollbackShape(sed, file, target, o);
      if o.restoreWrite.Succeeds? { RollbackRestoresTheFile(sed, file, target, o); }
    } else {
      SuccessShape(sed, file, target, o);
    }
  }
}
