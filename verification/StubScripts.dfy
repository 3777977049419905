/**
 What the stub reads in an instruction and which of its three trajectories it then follows, said of the instruction's
 own text (src/acp/model_gateway/stub.py).
 */
module StubScripts {
  import opened Common
  import opened Strings
  import opened Actions
  import opened Prompt
  import opened Kernel
  import opened KernelTheorems
  import opened Stub
  import opened StubTheorems

  // ---------------------------------------------------------------------------------------------
  // Hints

  /** An ASCII letter or an underscore, then letters, digits and underscores. */
  predicate IsIdentifier(name: string) {
    && name != "" && !('0' <= name[0] <= '9')
    && forall i :: 0 <= i < |name| ==> IsIdentifierChar(name[i])
  }

  predicate IsIdentifierChar(c: char) {
    'a' <= c <= 'z' || 'A' <= c <= 'Z' || '0' <= c <= '9' || c == '_'
  }

  /** The key stands at position i with this name behind it, the longest there is; for a bounded hint no word character
      touches either end. */
  predicate HintHere(w: CharTest, text: string, i: nat, key: string, bounded: bool, name: string) {
    var start, end := i + |key|, i + |key| + |name|;
    && end <= |text| && text[i..start] == key && text[start..end] == name && IsIdentifier(name)
    && (end < |text| ==> !IsIdentifierChar(text[end]))
    && (bounded ==> (i > 0 ==> !w(text[i - 1])) && (end < |text| ==> !w(text[end])))
  }

  /** The leftmost one. */
  ghost predicate FirstHintIs(w: CharTest, text: string, key: string, bounded: bool, name: string) {
    exists i: nat :: HintHere(w, text, i, key, bounded, name)
                     && forall j: nat, other :: HintHere(w, text, j, key, bounded, other) ==> i <= j
  }

  ghost predicate NoHint(w: CharTest, text: string, key: string, bounded: bool) {
    forall i: nat, name :: !HintHere(w, text, i, key, bounded, name)
  }

  lemma HintAtIs(w: CharTest, text: string, i: nat, key: string, bounded: bool, name: string)
    requires i <= |text|
    ensures HintAt(w, text, i, key, bounded) == Some(name) <==> HintHere(w, text, i, key, bounded, name)
  {
    if key <= text[i..] {
      var behind := text[i + |key|..];
      var (run, rest) := Span(IdentChar, behind);
      SpanSplits(IdentChar, behind);
      assert text[i..i + |key|] == key;
      assert text[i + |key|..i + |key| + |run|] == behind[..|run|] == run;
      assert rest != "" ==> rest[0] == text[i + |key| + |run|];
      if HintHere(w, text, i, key, bounded, name) {
        assert behind[..|name|] == name && behind == name + behind[|name|..];
        assert behind[|name|..] != "" ==> behind[|name|..][0] == text[i + |key| + |name|];
        SpanOf(IdentChar, name, behind[|name|..]);
      }
    } else if i + |key| <= |text| {
      assert text[i..i + |key|] == text[i..][..|key|];
    }
  }

  lemma {:induction false} FirstFound(w: CharTest, text: string, from: nat, key: string, bounded: bool)
    requires from <= |text|
    requires forall j: nat, other :: HintHere(w, text, j, key, bounded, other) ==> from <= j
    ensures match FirstHint(w, text, from, key, bounded)
            case Some(name) => FirstHintIs(w, text, key, bounded, name)
            case None => NoHint(w, text, key, bounded)
    decreases |text| - from
  {
    hide HintAt, HintHere;
    forall name
      ensures HintAt(w, text, from, key, bounded) == Some(name) <==> HintHere(w, text, from, key, bounded, name)
    {
      HintAtIs(w, text, from, key, bounded, name);
    }
    if HintAt(w, text, from, key, bounded).None? {
      forall j: nat, other | HintHere(w, text, j, key, bounded, other)
        ensures from + 1 <= j <= |text|
      {
        HintFits(w, text, j, key, bounded, other);
      }
      if from < |text| {
        FirstFound(w, text, from + 1, key, bounded);
      }
    }
  }

  lemma HintFits(w: CharTest, text: string, i: nat, key: string, bounded: bool, name: string)
    requires HintHere(w, text, i, key, bounded, name)
    ensures i < |text|
  {
  }

  /** The flag stands at position i and no word character touches it. */
  predicate FlagHere(w: CharTest, text: string, i: nat, flag: string) {
    && i + |flag| <= |text| && text[i..i + |flag|] == flag
    && (i > 0 ==> !w(text[i - 1])) && (i + |flag| < |text| ==> !w(text[i + |flag|]))
  }

  lemma FlagIs(w: CharTest, text: string, flag: string)
    requires flag != ""
    ensures HasFlag(w, text, flag) <==> exists i: nat :: FlagHere(w, text, i, flag)
  {
    forall i: nat | i < |text|
      ensures FlagAt(w, text, i, flag) <==> FlagHere(w, text, i, flag)
    {
      if i + |flag| <= |text| {
        assert text[i..][..|flag|] == text[i..i + |flag|];
      }
    }
  }

  /** What a run of the stub depends on: the symbol named first, `serialize_user` when none is; the flag; the two names
      of a rename. */
  lemma HintsAre(w: CharTest, xml: string)
    ensures var h := HintsOf(w, xml);
            && (FirstHintIs(w, xml, "target_symbol=", false, h.target)
                || (NoHint(w, xml, "target_symbol=", false) && h.target == "serialize_user"))
            && (h.failFirst <==> exists i: nat :: FlagHere(w, xml, i, "fail_first=1"))
            && (match h.renameTarget
                case Some(name) => FirstHintIs(w, xml, "rename_target=", true, name)
                case None => NoHint(w, xml, "rename_target=", true))
            && (match h.newName
                case Some(name) => FirstHintIs(w, xml, "new_name=", true, name)
                case None => NoHint(w, xml, "new_name=", true))
  {
    hide HintHere, FlagHere, FirstHint, HasFlag, FirstHintIs, NoHint;
    AllFound(w, xml, "target_symbol=", false);
    AllFound(w, xml, "rename_target=", true);
    AllFound(w, xml, "new_name=", true);
    FlagIs(w, xml, "fail_first=1");
  }

  lemma AllFound(w: CharTest, text: string, key: string, bounded: bool)
    ensures match FirstHint(w, text, 0, key, bounded)
            case Some(name) => FirstHintIs(w, text, key, bounded, name)
            case None => NoHint(w, text, key, bounded)
  {
    FirstFound(w, text, 0, key, bounded);
  }

  // ---------------------------------------------------------------------------------------------
  // Trajectories

  /** The symbol that the instruction names first. */
  ghost predicate IsTarget(w: CharTest, xml: string, target: string) {
    || FirstHintIs(w, xml, "target_symbol=", false, target)
    || (NoHint(w, xml, "target_symbol=", false) && target == "serialize_user")
  }

  ghost predicate AsksForRename(w: CharTest, xml: string, oldName: string, newName: string) {
    FirstHintIs(w, xml, "rename_target=", true, oldName) && FirstHintIs(w, xml, "new_name=", true, newName)
  }

  ghost predicate FailsFirst(w: CharTest, xml: string) {
    exists i: nat :: FlagHere(w, xml, i, "fail_first=1")
  }

  /** Plan, rename, then verify for good. */
  predicate RenameScript(oldName: string, newName: string, step: nat, a: AgentAction) {
    match step
    case 0 =>
      a.kind == Plan && a.fields == map["summary" := "rename " + oldName + " to " + newName + " across all call sites",
                                        "target_symbol" := oldName]
    case 1 => a.kind == Rename && a.fields == map["old_name" := oldName, "new_name" := newName]
    case _ => a.kind == Verify && a.fields == map[]
  }

  predicate WritesFile(a: AgentAction, path: string, content: string) {
    a.kind == Edit && a.fields == map["op" := "write", "file_path" := path, "content" := content]
  }

  /** Plan, look the target up, write the test, then verify for good; with the flag the first write goes to a path where
      the sandbox does not look, and the right one follows the verification at step 3. */
  predicate TestScript(target: string, failFirst: bool, step: nat, a: AgentAction) {
    match step
    case 0 =>
      a.kind == Plan
      && a.fields == map["summary" := "add a passing test exercising " + target, "target_symbol" := target]
    case 1 => a.kind == Retrieve && a.fields == map["primitive" := "definition", "name" := target]
    case 2 =>
      if failFirst then WritesFile(a, "backend/tests/test_bad_attempt.py", BadBody(target))
      else WritesFile(a, "backend/tests/test_agent_change.py", TestBody(target))
    case 4 =>
      if failFirst then WritesFile(a, "backend/tests/test_agent_change.py", TestBody(target))
      else a.kind == Verify && a.fields == map[]
    case _ => a.kind == Verify && a.fields == map[]
  }

  /** The rename with both names, the test with any instruction else. */
  ghost predicate Follows(w: CharTest, xml: string, step: nat, a: AgentAction) {
    if exists oldName, newName :: AsksForRename(w, xml, oldName, newName) then
      exists oldName, newName :: AsksForRename(w, xml, oldName, newName) && RenameScript(oldName, newName, step, a)
    else exists target :: IsTarget(w, xml, target) && TestScript(target, FailsFirst(w, xml), step, a)
  }

  lemma TestActionIs(h: Hints, step: nat)
    requires h.renameTarget.None? || h.newName.None?
    ensures TestScript(h.target, h.failFirst, step, ActionForStep(h, step))
  {
    hide BadBody, TestBody;
  }

  lemma RenameActionIs(h: Hints, step: nat)
    requires h.renameTarget.Some? && h.newName.Some?
    ensures RenameScript(h.renameTarget.value, h.newName.value, step, ActionForStep(h, step))
  {
  }

  lemma ScriptedActionFollows(w: CharTest, xml: string, step: nat)
    ensures Follows(w, xml, step, ActionForStep(HintsOf(w, xml), step))
  {
    hide FirstHintIs, NoHint, FlagHere, HintsOf, ActionForStep, TestScript, RenameScript;
    var h := HintsOf(w, xml);
    HintsAre(w, xml);
    FirstOrNone(w, xml, "rename_target=", true);
    FirstOrNone(w, xml, "new_name=", true);
    if h.renameTarget.Some? && h.newName.Some? {
      RenameActionIs(h, step);
      assert AsksForRename(w, xml, h.renameTarget.value, h.newName.value);
    } else {
      TestActionIs(h, step);
      assert IsTarget(w, xml, h.target);
    }
  }

  lemma FirstOrNone(w: CharTest, text: string, key: string, bounded: bool)
    ensures NoHint(w, text, key, bounded) ==> forall name :: !FirstHintIs(w, text, key, bounded, name)
  {
    hide HintHere;
  }

  /** Every journaled action of a run driven by the stub is the one that the instruction's trajectory has at that step,
      whatever was retrieved, verified, spent, or lost in a crash. */
  lemma JournalFollowsTheInstruction(cfg: Config, w: CharTest, instruction: string, events: seq<Event>, i: nat)
    requires DrivenByStub(cfg, w, instruction) && Execute(cfg, FRESH, events).Some?
    requires i < |Execute(cfg, FRESH, events).value.disk.journal|
    ensures var row := Execute(cfg, FRESH, events).value.disk.journal[i];
            && row.step == i && cfg.parse(row.xml).Some?
            && Follows(w, InstructionXml(instruction), i, cfg.parse(row.xml).value)
  {
    hide Follows, ActionForStep, HintsOf, Execute;
    var rows := Execute(cfg, FRESH, events).value.disk.journal;
    JournalFollowsTheScript(cfg, w, instruction, events);
    RunStructure(cfg, events);
    assert ActionsOf(rows)[i] == cfg.parse(rows[i].xml);
    ScriptedActionFollows(w, InstructionXml(instruction), i);
  }

  // ---------------------------------------------------------------------------------------------
  // Token counts

  function BytesOf(c: char): nat {
    if c < '\U{80}' then 1 else if c < '\U{800}' then 2 else if c < '\U{10000}' then 3 else 4
  }

  /** A text of this many bytes counts as a token for every four of them or part of four, and one more. */
  predicate IsEstimate(bytes: nat, tokens: nat) {
    4 * (tokens - 2) < bytes <= 4 * (tokens - 1)
  }

  lemma {:induction false} BytesAddUp(a: string, b: string)
    ensures Utf8Length(a + b) == Utf8Length(a) + Utf8Length(b)
    ensures forall c :: Utf8Length([c]) == BytesOf(c)
  {
    if a == "" {
      assert a + b == b;
    } else {
      assert (a + b)[1..] == a[1..] + b;
      BytesAddUp(a[1..], b);
    }
  }

  /** The metered tokens of a reply: those of both channels together, and those of its own text. */
  lemma ReplyIsMetered(w: CharTest, instruction: string, spans: seq<DataSpan>, step: int)
    ensures var reply := Complete(w, instruction, spans, step);
            && IsEstimate(Utf8Length(InstructionXml(instruction)) + Utf8Length(DataXml(spans)), reply.tokensIn)
            && IsEstimate(Utf8Length(reply.xml), reply.tokensOut)
  {
    hide HintsOf, ActionForStep, RenderAction, InstructionXml, DataXml, Utf8Length;
    BytesAddUp(InstructionXml(instruction), DataXml(spans));
  }
}
