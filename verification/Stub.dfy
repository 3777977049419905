/**
 The deterministic model backend (src/acp/model_gateway/stub.py). Its control flow reads the instruction and the
 step index only, which makes every run of one instruction follow one script. `w` is the regular expression
 engine's word-character test.
 */
module Stub {
  import opened Common
  import opened Strings
  import opened Actions
  import opened Prompt
  import opened Kernel

  // ---------------------------------------------------------------------------------------------
  // Hints in the instruction

  predicate IdentStart(c: char) {
    'a' <= c <= 'z' || 'A' <= c <= 'Z' || c == '_'
  }

  predicate IdentChar(c: char) {
    IdentStart(c) || '0' <= c <= '9'
  }

  /** key + identifier at position i; `bounded` asks for a word boundary on both sides. */
  function HintAt(w: CharTest, text: string, i: nat, key: string, bounded: bool): Option<string>
    requires i <= |text|
  {
    if !(key <= text[i..]) || (bounded && i > 0 && w(text[i - 1])) then None
    else
      var (name, rest) := Span(IdentChar, text[i + |key|..]);
      if name == "" || !IdentStart(name[0]) || (bounded && rest != "" && w(rest[0])) then None else Some(name)
  }

  /** The leftmost match. */
  function FirstHint(w: CharTest, text: string, i: nat, key: string, bounded: bool): Option<string>
    requires i <= |text|
    decreases |text| - i
  {
    if HintAt(w, text, i, key, bounded).Some? then HintAt(w, text, i, key, bounded)
    else if i == |text| then None
    else FirstHint(w, text, i + 1, key, bounded)
  }

  predicate HasFlag(w: CharTest, text: string, flag: string) {
    exists i :: 0 <= i < |text| && FlagAt(w, text, i, flag)
  }

  predicate FlagAt(w: CharTest, text: string, i: nat, flag: string)
    requires i <= |text|
  {
    && flag <= text[i..]
    && !(i > 0 && w(text[i - 1]))
    && !(i + |flag| < |text| && w(text[i + |flag|]))
  }

  datatype Hints = Hints(target: string, failFirst: bool, renameTarget: Option<string>, newName: Option<string>)

  function HintsOf(w: CharTest, instructionXml: string): Hints {
    var target := FirstHint(w, instructionXml, 0, "target_symbol=", false);
    Hints(if target.Some? then target.value else "serialize_user",
          HasFlag(w, instructionXml, "fail_first=1"),
          FirstHint(w, instructionXml, 0, "rename_target=", true),
          FirstHint(w, instructionXml, 0, "new_name=", true))
  }

  // ---------------------------------------------------------------------------------------------
  // The trajectory

  const TEST_PATH := "backend/tests/test_agent_change.py"
  const BAD_PATH := "backend/tests/test_bad_attempt.py"

  function Lines(lines: seq<string>): string {
    if lines == [] then "" else lines[0] + "\n" + Lines(lines[1..])
  }

  // The file bodies the stub proposes, line by line: a first attempt at a path the sandbox does not look for, and
  // the test.

  function BadTitle(target: string): string {
    "\"\"\"Bad first attempt for " + target + " \U{2014} wrong path, repair needed.\"\"\""
  }

  function BadNote(): string {
    "# This file was written to the " + "wrong location by the stub's " + "first attempt."
  }

  function BadHead(target: string): string {
    "def test_bad_attempt_" + target + "() -> None:"
  }

  function BadPass(): string {
    "    pass  # not the file " + "the FakeSandbox looks for"
  }

  function TestTitle(target: string): string {
    "\"\"\"Agent-authored verification test for " + target + " (Phase-4 stub).\"\"\""
  }

  function TestFuture(): string {
    "from __future__ import annotations"
  }

  function TestModel(): string {
    "from app.users.models import User"
  }

  function TestImport(target: string): string {
    "from app.users.service import " + target
  }

  function TestHead(): string {
    "def test_agent_change_" + "serialize_active() -> None:"
  }

  function TestUser(): string {
    "    user = User(id=\"a1\", " + "name=\"Ada Lovelace\", " + "email=\"ada@example.com\")"
  }

  function TestCall(target: string): string {
    "    result = " + target + "(user)"
  }

  function TestId(): string {
    "    assert result[\"id\"] == \"a1\""
  }

  function TestActive(): string {
    "    assert result[\"active\"] is True"
  }

  function BadLines(target: string): seq<string> {
    [BadTitle(target), "", BadNote(), BadHead(target), BadPass()]
  }

  function TestLines(target: string): seq<string> {
    [TestTitle(target), "", TestFuture(), "", TestModel(), TestImport(target), "", "", TestHead(), TestUser(),
     TestCall(target), TestId(), TestActive()]
  }

  function BadBody(target: string): string {
    Lines(BadLines(target))
  }

  function TestBody(target: string): string {
    Lines(TestLines(target))
  }

  function WriteFile(path: string, content: string): AgentAction {
    AgentAction(Edit, map["op" := "write", "file_path" := path, "content" := content])
  }

  function RenameTrajectory(oldName: string, newName: string, step: int): AgentAction {
    if step <= 0 then
      AgentAction(Plan, map["summary" := "rename " + oldName + " to " + newName + " across all call sites",
                            "target_symbol" := oldName])
    else if step == 1 then AgentAction(Rename, map["old_name" := oldName, "new_name" := newName])
    else AgentAction(Verify, map[])
  }

  function ActionForStep(h: Hints, step: int): AgentAction {
    if h.renameTarget.Some? && h.newName.Some? then RenameTrajectory(h.renameTarget.value, h.newName.value, step)
    else if step <= 0 then
      AgentAction(Plan, map["summary" := "add a passing test exercising " + h.target, "target_symbol" := h.target])
    else if step == 1 then AgentAction(Retrieve, map["primitive" := "definition", "name" := h.target])
    else if step == 2 then
      if h.failFirst then WriteFile(BAD_PATH, BadBody(h.target)) else WriteFile(TEST_PATH, TestBody(h.target))
    else if step == 4 && h.failFirst then WriteFile(TEST_PATH, TestBody(h.target))
    else AgentAction(Verify, map[])
  }

  function Utf8Length(s: string): nat {
    if s == "" then 0
    else (if s[0] < '\U{80}' then 1 else if s[0] < '\U{800}' then 2 else if s[0] < '\U{10000}' then 3 else 4)
         + Utf8Length(s[1..])
  }

  function TokenEstimate(text: string): nat {
    1 + (Utf8Length(text) + 3) / 4
  }

  function Complete(w: CharTest, instruction: string, spans: seq<DataSpan>, step: int): Reply {
    var instructionXml := InstructionXml(instruction);
    var contentXml := RenderAction(ActionForStep(HintsOf(w, instructionXml), step));
    Reply(contentXml, TokenEstimate(instructionXml + DataXml(spans)), TokenEstimate(contentXml))
  }
}
