/** Data-channel non-interference of the stub, carried through the kernel's runs. */
module StubTheorems {
  import opened Common
  import opened Strings
  import opened Actions
  import opened Xml
  import opened XmlNormal
  import opened Prompt
  import opened PromptTheorems
  import opened Journal
  import opened Kernel
  import opened KernelTheorems
  import opened Stub

  // ---------------------------------------------------------------------------------------------
  // Every reply of the stub is an action its own parser accepts

  predicate CleanHints(h: Hints) {
    && Every(CleanChar, h.target)
    && (h.renameTarget.Some? ==> Every(CleanChar, h.renameTarget.value))
    && (h.newName.Some? ==> Every(CleanChar, h.newName.value))
  }

  lemma {:induction false} FirstHintIsClean(w: CharTest, text: string, i: nat, key: string, bounded: bool)
    requires i <= |text|
    ensures var hint := FirstHint(w, text, i, key, bounded); hint.Some? ==> Every(CleanChar, hint.value)
    decreases |text| - i
  {
    if HintAt(w, text, i, key, bounded).Some? {
      SpanSplits(IdentChar, text[i + |key|..]);
    } else if i < |text| {
      FirstHintIsClean(w, text, i + 1, key, bounded);
    }
  }

  lemma HintsAreClean(w: CharTest, xml: string)
    ensures CleanHints(HintsOf(w, xml))
  {
    FirstHintIsClean(w, xml, 0, "target_symbol=", false);
    FirstHintIsClean(w, xml, 0, "rename_target=", true);
    FirstHintIsClean(w, xml, 0, "new_name=", true);
  }

  predicate CleanLines(lines: seq<string>) {
    forall i :: 0 <= i < |lines| ==> Every(CleanChar, lines[i])
  }

  lemma {:induction false} LinesAreClean(lines: seq<string>)
    requires CleanLines(lines)
    ensures Every(CleanChar, Lines(lines))
  {
    if lines != [] {
      LinesAreClean(lines[1..]);
      EveryConcat(CleanChar, lines[0], "\n");
      EveryConcat(CleanChar, lines[0] + "\n", Lines(lines[1..]));
    }
  }

  lemma FramedIsClean(before: string, target: string, after: string)
    requires Every(CleanChar, before) && Every(CleanChar, target) && Every(CleanChar, after)
    ensures Every(CleanChar, before + target + after)
  {
    EveryConcat(CleanChar, before, target);
    EveryConcat(CleanChar, before + target, after);
  }

  lemma BadTitleIsClean(target: string)
    requires Every(CleanChar, target)
    ensures Every(CleanChar, BadTitle(target))
  {
    FramedIsClean("\"\"\"Bad first attempt for ", target, " \U{2014} wrong path, repair needed.\"\"\"");
  }

  lemma BadNoteIsClean()
    ensures Every(CleanChar, BadNote())
  {
    FramedIsClean("# This file was written to the ", "wrong location by the stub's ", "first attempt.");
  }

  lemma BadHeadIsClean(target: string)
    requires Every(CleanChar, target)
    ensures Every(CleanChar, BadHead(target))
  {
    FramedIsClean("def test_bad_attempt_", target, "() -> None:");
  }

  lemma BadPassIsClean()
    ensures Every(CleanChar, BadPass())
  {
    EveryConcat(CleanChar, "    pass  # not the file ", "the FakeSandbox looks for");
  }

  lemma TestTitleIsClean(target: string)
    requires Every(CleanChar, target)
    ensures Every(CleanChar, TestTitle(target))
  {
    FramedIsClean("\"\"\"Agent-authored verification test for ", target, " (Phase-4 stub).\"\"\"");
  }

  lemma TestFutureIsClean()
    ensures Every(CleanChar, TestFuture())
  {
  }

  lemma TestModelIsClean()
    ensures Every(CleanChar, TestModel())
  {
  }

  lemma TestImportIsClean(target: string)
    requires Every(CleanChar, target)
    ensures Every(CleanChar, TestImport(target))
  {
    EveryConcat(CleanChar, "from app.users.service import ", target);
  }

  lemma TestHeadIsClean()
    ensures Every(CleanChar, TestHead())
  {
    EveryConcat(CleanChar, "def test_agent_change_", "serialize_active() -> None:");
  }

  lemma TestUserIsClean()
    ensures Every(CleanChar, TestUser())
  {
    FramedIsClean("    user = User(id=\"a1\", ", "name=\"Ada Lovelace\", ", "email=\"ada@example.com\")");
  }

  lemma TestCallIsClean(target: string)
    requires Every(CleanChar, target)
    ensures Every(CleanChar, TestCall(target))
  {
    FramedIsClean("    result = ", target, "(user)");
  }

  lemma TestIdIsClean()
    ensures Every(CleanChar, TestId())
  {
  }

  lemma TestActiveIsClean()
    ensures Every(CleanChar, TestActive())
  {
  }

  lemma BadBodyIsClean(target: string)
    requires Every(CleanChar, target)
    ensures Every(CleanChar, BadBody(target))
  {
    hide BadTitle, BadNote, BadHead, BadPass;
    BadTitleIsClean(target);
    BadNoteIsClean();
    BadHeadIsClean(target);
    BadPassIsClean();
    LinesAreClean(BadLines(target));
  }

  lemma TestBodyIsClean(target: string)
    requires Every(CleanChar, target)
    ensures Every(CleanChar, TestBody(target))
  {
    hide TestTitle, TestFuture, TestModel, TestImport, TestHead, TestUser, TestCall, TestId, TestActive;
    TestTitleIsClean(target);
    TestFutureIsClean();
    TestModelIsClean();
    TestImportIsClean(target);
    TestHeadIsClean();
    TestUserIsClean();
    TestCallIsClean(target);
    TestIdIsClean();
    TestActiveIsClean();
    LinesAreClean(TestLines(target));
  }

  lemma PathsAreClean()
    ensures Every(CleanChar, TEST_PATH) && Every(CleanChar, BAD_PATH)
  {
  }

  lemma WriteFileIsSendable(path: string, content: string)
    requires Every(CleanChar, path) && Every(CleanChar, content)
    ensures Sendable(WriteFile(path, content))
  {
  }

  lemma RenameTrajectoryIsSendable(oldName: string, newName: string, step: int)
    requires Every(CleanChar, oldName) && Every(CleanChar, newName)
    ensures Sendable(RenameTrajectory(oldName, newName, step))
  {
    assert Every(CleanChar, "rename ") && Every(CleanChar, " to ") && Every(CleanChar, " across all call sites");
  }

  lemma TrajectoryIsSendable(h: Hints, step: int)
    requires CleanHints(h)
    ensures Sendable(ActionForStep(h, step))
  {
    hide BadBody, TestBody;
    if h.renameTarget.Some? && h.newName.Some? {
      RenameTrajectoryIsSendable(h.renameTarget.value, h.newName.value, step);
    } else if step <= 0 {
      assert Every(CleanChar, "add a passing test exercising ");
    } else if step != 1 {
      PathsAreClean();
      BadBodyIsClean(h.target);
      TestBodyIsClean(h.target);
      WriteFileIsSendable(BAD_PATH, BadBody(h.target));
      WriteFileIsSendable(TEST_PATH, TestBody(h.target));
    }
  }

  /** The stub's reply depends on the instruction and the step only, and parses to the scripted action; the data
      channel can move nothing but the input token count. */
  lemma ReplyIsTheScript(w: CharTest, instruction: string, spans: seq<DataSpan>, step: int)
    ensures ActionOf(Complete(w, instruction, spans, step).xml)
         == Success(ActionForStep(HintsOf(w, InstructionXml(instruction)), step))
    ensures Complete(w, instruction, spans, step).(tokensIn := 0)
         == Complete(w, instruction, [], step).(tokensIn := 0)
  {
    var h := HintsOf(w, InstructionXml(instruction));
    HintsAreClean(w, InstructionXml(instruction));
    TrajectoryIsSendable(h, step);
    ActionRoundTripIff(ActionForStep(h, step));
  }

  // ---------------------------------------------------------------------------------------------
  // Runs driven by the stub

  function ParseOf(content: string): Option<AgentAction> {
    match ActionOf(content)
    case Success(a) => Some(a)
    case Failure(_) => None
  }

  /** The task's model is the stub under this instruction, its parser the real one. */
  ghost predicate DrivenByStub(cfg: Config, w: CharTest, instruction: string) {
    && (forall step: nat, spans: seq<DataSpan>, nonce: int {:trigger cfg.model(step, spans, nonce)} ::
          cfg.model(step, spans, nonce) == Complete(w, instruction, spans, step))
    && (forall content {:trigger cfg.parse(content)} :: cfg.parse(content) == ParseOf(content))
  }

  /** The actions that a journal's replies stand for. */
  function ActionsOf(rows: seq<JournalRow>): seq<Option<AgentAction>> {
    seq(|rows|, i requires 0 <= i < |rows| => ParseOf(rows[i].xml))
  }

  function Script(w: CharTest, instruction: string): nat -> string {
    (step: nat) => Complete(w, instruction, [], step).xml
  }

  lemma StubIsScripted(cfg: Config, w: CharTest, instruction: string)
    requires DrivenByStub(cfg, w, instruction)
    ensures Scripted(cfg, Script(w, instruction))
  {
  }

  /** In every reachable state the action journaled at step i is the scripted one: retrieved bytes, verdicts,
      budgets, crashes and resumes cannot change it. */
  lemma JournalFollowsTheScript(cfg: Config, w: CharTest, instruction: string, events: seq<Event>)
    requires DrivenByStub(cfg, w, instruction) && Execute(cfg, FRESH, events).Some?
    ensures var actions := ActionsOf(Execute(cfg, FRESH, events).value.disk.journal);
            forall i :: 0 <= i < |actions| ==>
                          actions[i] == Some(ActionForStep(HintsOf(w, InstructionXml(instruction)), i))
  {
    var rows := Execute(cfg, FRESH, events).value.disk.journal;
    StubIsScripted(cfg, w, instruction);
    AlwaysOnScript(cfg, events, Script(w, instruction));
    RunStructure(cfg, events);
    forall i | 0 <= i < |rows|
      ensures ParseOf(rows[i].xml) == Some(ActionForStep(HintsOf(w, InstructionXml(instruction)), i))
    {
      assert rows[i] in rows && rows[i].step == i;
      ReplyIsTheScript(w, instruction, [], i);
    }
  }

  /** Two runs of one instruction, in different worlds: one action sequence is a prefix of the other. */
  lemma OneActionSequenceIsAPrefix(cfg1: Config, events1: seq<Event>, cfg2: Config, events2: seq<Event>,
                                   w: CharTest, instruction: string)
    requires DrivenByStub(cfg1, w, instruction) && DrivenByStub(cfg2, w, instruction)
    requires Execute(cfg1, FRESH, events1).Some? && Execute(cfg2, FRESH, events2).Some?
    ensures var a := ActionsOf(Execute(cfg1, FRESH, events1).value.disk.journal);
            var b := ActionsOf(Execute(cfg2, FRESH, events2).value.disk.journal);
            a <= b || b <= a
  {
    JournalFollowsTheScript(cfg1, w, instruction, events1);
    JournalFollowsTheScript(cfg2, w, instruction, events2);
  }
}
