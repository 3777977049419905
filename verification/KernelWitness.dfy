/**
 Where the published base is not what was tested: concrete histories of one task, each ending VERIFIED_SUCCESS and
 leaving a base on which the tests fail. In the first three the worktree has every file of the base and a path is
 stale, one history for each way to become stale; in the fourth nothing is stale and a file was deleted. So both
 conditions of KernelTheorems.PublishedTreesWereTested are needed.

 The model of these histories answers as its nonce says; tests pass exactly when file "f" holds "x" and there is
 no file "g".
 */
module KernelWitness {
  import opened Common
  import opened Actions
  import opened Patches
  import opened Journal
  import opened Ledger
  import opened Kernel
  import opened KernelCharges
  import opened KernelFidelity
  import opened KernelTheorems
  import Strings

  ghost predicate Reachable(cfg: Config, s: State) {
    exists events :: Execute(cfg, FRESH, events) == Some(s)
  }

  lemma Take(cfg: Config, s: State, e: Event)
    requires Reachable(cfg, s) && Step(cfg, s, e).Some?
    ensures Reachable(cfg, Step(cfg, s, e).value)
  {
    var events :| Execute(cfg, FRESH, events) == Some(s);
    ExecuteOneMore(cfg, FRESH, events, e);
  }

  lemma ReachableHolds(cfg: Config, s: State)
    requires Reachable(cfg, s)
    ensures Invariant(cfg, s)
  {
    var events :| Execute(cfg, FRESH, events) == Some(s);
    InvariantAlways(cfg, events);
  }

  lemma FreshIsReachable(cfg: Config)
    ensures Reachable(cfg, FRESH)
  {
    assert Execute(cfg, FRESH, []) == Some(FRESH);
  }

  // ---------------------------------------------------------------------------------------------
  // Stretches of a history that has spent nothing yet

  function Settled(d: Disk, base: Tree): Disk {
    d.(task := Running, worktree := if d.worktree.None? then Some(base) else d.worktree)
  }

  lemma Resumes(cfg: Config, s: State, base: Tree, head: string)
    requires Reachable(cfg, s) && s.pc.Down? && !s.disk.task.IsTerminal() && AllCommitted(cfg, s.disk)
    ensures Reachable(cfg, State(Settled(s.disk, base), s.world, AtHead(Resume(s.disk)), head))
  {
    ReachableHolds(cfg, s);
    CommittedMeans(cfg, s.disk);
    Take(cfg, s, Resuming(Start));
    var s1 := s.(pc := Reconciling);
    Take(cfg, s1, Resuming(ReconcileDone));
    var s2 := s1.(disk := s1.disk.(task := Running), pc := Opening);
    Take(cfg, s2, Resuming(Open(base, head)));
    assert Resume(s2.disk) == Resume(s.disk);
  }

  function CalledWorld(w: World): World {
    w.(modelCalls := w.modelCalls + 1)
  }

  lemma Calls(cfg: Config, s: State, nonce: int, action: AgentAction)
    requires Reachable(cfg, s) && s.pc.AtHead? && !Breached(cfg, s.disk, s.pc.turn)
    requires cfg.parse(cfg.model(s.pc.turn.step, s.pc.turn.spans, nonce).xml) == Some(action)
    ensures Reachable(cfg, State(s.disk, CalledWorld(s.world),
                                 Acting(Move(s.pc.turn, cfg.model(s.pc.turn.step, s.pc.turn.spans, nonce), action)),
                                 s.handle))
  {
    hide Reachable;
    assert Step(cfg, s, Heading(CallModel(nonce))).Some?;
    Take(cfg, s, Heading(CallModel(nonce)));
  }

  function Journaling(s: State): State
    requires s.pc.Acted?
  {
    WithRow(s, RowOf(s.pc.move, s.pc.payload)).(pc := Journaled(s.pc.move))
  }

  function Metering(cfg: Config, s: State): State
    requires s.pc.Journaled?
  {
    s.(disk := s.disk.(ledger := s.disk.ledger + [ModelCommit(cfg, s.pc.move)], toolCalls := s.disk.toolCalls + 1),
    pc := Deciding(s.pc.move))
  }

  /** The step's row is written, charged and metered. */
  function Recorded(cfg: Config, s: State): State
    requires s.pc.Acted?
  {
    Metering(cfg, Journaling(s))
  }

  lemma RecordsRow(cfg: Config, s: State) returns (s': State)
    requires Reachable(cfg, s) && s.pc.Acted?
    ensures s' == Journaling(s)
    ensures Reachable(cfg, s') && s.pc.move.turn.step !in CommittedSteps(s'.disk.ledger, cfg)
  {
    ReachableHolds(cfg, s);
    DenseLookups(s.disk.journal);
    CommittedMeans(cfg, s.disk);
    Take(cfg, s, Recording(AppendJournal));
    s' := Step(cfg, s, Recording(AppendJournal)).value;
  }

  lemma CommitsCharge(cfg: Config, s: State) returns (s': State)
    requires Reachable(cfg, s) && s.pc.Journaled? && s.pc.move.turn.step !in CommittedSteps(s.disk.ledger, cfg)
    ensures s' == s.(disk := s.disk.(ledger := s.disk.ledger + [ModelCommit(cfg, s.pc.move)]), pc := Charged(s.pc.move))
    ensures Reachable(cfg, s')
  {
    Take(cfg, s, Recording(CommitCharge));
    s' := StepRecord(cfg, s, CommitCharge).value;
  }

  lemma Meters(cfg: Config, s: State)
    requires Reachable(cfg, s) && s.pc.Charged?
    ensures Reachable(cfg, s.(disk := s.disk.(toolCalls := s.disk.toolCalls + 1), pc := Deciding(s.pc.move)))
  {
    Take(cfg, s, Recording(Meter));
  }

  lemma ChargesRow(cfg: Config, s: State)
    requires Reachable(cfg, s) && s.pc.Journaled? && s.pc.move.turn.step !in CommittedSteps(s.disk.ledger, cfg)
    ensures Reachable(cfg, Metering(cfg, s))
  {
    hide Reachable;
    var charged := CommitsCharge(cfg, s);
    Meters(cfg, charged);
  }

  lemma Records(cfg: Config, s: State)
    requires Reachable(cfg, s) && s.pc.Acted?
    ensures Reachable(cfg, Recorded(cfg, s))
  {
    hide Reachable;
    var s1 := RecordsRow(cfg, s);
    ChargesRow(cfg, s1);
  }

  // ---------------------------------------------------------------------------------------------
  // The task of the histories

  function Answer(nonce: int): string {
    if nonce == 0 then "x" else if nonce == 1 then "y" else if nonce == 2 then "rename"
    else if nonce == 3 then "verify" else "delete"
  }

  function Meaning(xml: string): AgentAction {
    if xml == "verify" then AgentAction(Verify, map[])
    else if xml == "rename" then AgentAction(Rename, map["old_name" := "x", "new_name" := "y"])
    else if xml == "delete" then AgentAction(Edit, map["op" := "delete", "file_path" := "g"])
    else AgentAction(Edit, map["file_path" := "f", "content" := xml])
  }

  predicate TestsPass(tree: Tree) {
    "f" in tree && tree["f"] == "x" && "g" !in tree
  }

  function Task(): Config {
    Config("t", true, 1, 4,
           (step, spans, nonce) => Reply(Answer(nonce), 0, 0),
           (xml: string) => Some(Meaning(xml)),
           (content: string, oldName: string, newName: string) => if content == oldName then newName else content,
           (op: PatchOp) => op.op + ":" + op.path + ":" + op.content,
           (path: Path) => true,
           (tree: Tree, nonce: int) => TestsPass(tree))
  }

  /** At a loop head, nothing spent, room for one more step. */
  predicate Idle(s: State) {
    && s.pc.AtHead? && s.pc.turn.step < 4
    && SpentTokens(s.disk.ledger, Task().Scope()) == 0
  }

  lemma SpendsNothing(s: State)
    requires s.pc.Acted? && s.pc.move.reply.Charge() == 0 && SpentTokens(s.disk.ledger, Task().Scope()) == 0
    ensures SpentTokens(Recorded(Task(), s).disk.ledger, Task().Scope()) == 0
  {
    BalancesAfterAppend(s.disk.ledger, ModelCommit(Task(), s.pc.move), Task().Scope());
  }

  function WriteOp(content: string): PatchOp {
    PatchOp("write", "f", content)
  }

  /** What an edit reply asks for. */
  function OpOf(xml: string): PatchOp {
    if xml == "delete" then PatchOp("delete", "g", "") else WriteOp(xml)
  }

  function EditMove(turn: Turn, xml: string): Move {
    Move(turn, Reply(xml, 0, 0), Meaning(xml))
  }

  function EditRow(step: nat, xml: string): JournalRow {
    JournalRow(step, EditStep, xml, 0, Edited(OpOf(xml)))
  }

  function EditedDisk(d: Disk, op: PatchOp): (d': Disk)
    requires d.worktree.Some?
    ensures d'.worktree.Some?
  {
    if Task().hash(op) in d.artifacts then d
    else d.(artifacts := d.artifacts + [Task().hash(op)], worktree := Some(ApplyToWorktree(d.worktree.value, op)))
  }

  /** No crash and no publication between the two states. */
  predicate SameHistory(s: State, s': State) {
    s'.world.crashes == s.world.crashes && s'.world.published == s.world.published
  }

  lemma EditsFile(s: State, nonce: int) returns (s': State)
    requires Reachable(Task(), s) && Idle(s) && s.disk.worktree.Some? && nonce in {0, 1, 4}
    ensures Reachable(Task(), s') && s'.pc.Acted? && s'.pc.payload == Edited(OpOf(Answer(nonce)))
    ensures s'.pc.move == EditMove(s.pc.turn, Answer(nonce)) && s'.handle == s.handle
    ensures s'.pc.move.action.kind == Edit && s'.pc.move.turn == s.pc.turn && s'.pc.move.reply.Charge() == 0
    ensures RowOf(s'.pc.move, s'.pc.payload) == EditRow(s.pc.turn.step, Answer(nonce))
    ensures s'.disk == EditedDisk(s.disk, OpOf(Answer(nonce))) && s'.disk.ledger == s.disk.ledger
    ensures SameHistory(s, s') && s'.world.stale == s.world.stale
  {
    hide Reachable;
    var cfg, m, op := Task(), EditMove(s.pc.turn, Answer(nonce)), OpOf(Answer(nonce));
    Calls(cfg, s, nonce, m.action);
    var s1 := State(s.disk, CalledWorld(s.world), Acting(m), s.handle);
    Take(cfg, s1, Editing(BeginEdit));
    s' := Step(cfg, s1, Editing(BeginEdit)).value;
    if cfg.hash(op) !in s.disk.artifacts {
      Take(cfg, s', Editing(ApplyEdit));
      s' := Step(cfg, s', Editing(ApplyEdit)).value;
    }
  }

  /** The row is journaled and the stale paths follow; nothing else of these parts of the disk changes. */
  predicate RowAdded(d: Disk, stale: set<Path>, row: JournalRow, s': State)
    requires d.worktree.Some?
  {
    && s'.disk.journal == d.journal + [row]
    && s'.disk.artifacts == d.artifacts && s'.disk.worktree == d.worktree && s'.disk.task == d.task
    && s'.world.stale == StaleAfterRow(stale, row, d.worktree.value)
  }

  lemma GoesOn(s: State) returns (s': State)
    requires Reachable(Task(), s) && s.pc.Acted? && s.pc.move.action.kind == Edit
    requires s.pc.move.reply.Charge() == 0 && SpentTokens(s.disk.ledger, Task().Scope()) == 0
    requires s.pc.move.turn.step < 3 && s.disk.worktree.Some?
    ensures Reachable(Task(), s') && Idle(s') && s'.pc.turn.step == s.pc.move.turn.step + 1
    ensures SameHistory(s, s') && s'.handle == s.handle
    ensures RowAdded(s.disk, s.world.stale, RowOf(s.pc.move, s.pc.payload), s')
  {
    hide Reachable;
    SpendsNothing(s);
    Records(Task(), s);
    var s1 := Recorded(Task(), s);
    Take(Task(), s1, Closing(Decide));
    s' := s1.(pc := AfterStep(s.pc.move, [], s.pc.move.turn.repairs));
  }

  /** A fresh edit is recorded and written; a repeated one is only journaled. */
  lemma Edits(s: State, nonce: int) returns (s': State)
    requires Reachable(Task(), s) && Idle(s) && s.disk.worktree.Some? && nonce in {0, 1, 4} && s.pc.turn.step < 3
    ensures Reachable(Task(), s') && Idle(s') && s'.pc.turn.step == s.pc.turn.step + 1
    ensures SameHistory(s, s') && s'.handle == s.handle
    ensures RowAdded(EditedDisk(s.disk, OpOf(Answer(nonce))), s.world.stale,
                     EditRow(s.pc.turn.step, Answer(nonce)), s')
  {
    hide Reachable;
    var s1 := EditsFile(s, nonce);
    s' := GoesOn(s1);
  }

  /** The task verifies, publishes its worktree over `base` and succeeds, whenever the patched snapshot passes and the
      head is still the one handed out. */
  lemma Publishes(s: State, base: Tree) returns (s': State)
    requires Reachable(Task(), s) && Idle(s) && s.disk.worktree.Some?
    requires TestsPass(ApplyAll(s.disk.worktree.value, CombinedPatch(s.disk.journal, s.disk.worktree.value)))
    requires forall op <- CombinedPatch(s.disk.journal, s.disk.worktree.value) :: op.op in {"write", "delete"}
    ensures Reachable(Task(), s') && s'.disk.task == VerifiedSuccess && s'.world.crashes == s.world.crashes
    ensures s'.world.published == s.world.published + [Publication(base, s.disk.worktree.value, s.world.stale)]
  {
    hide Reachable;
    var s1 := Verifies(s);
    var publish := Closing(Publish(Locked(base, s.handle)));
    Take(Task(), s1, publish);
    var s2 := Step(Task(), s1, publish).value;
    Take(Task(), s2, Closing(Finish));
    s' := Step(Task(), s2, Closing(Finish)).value;
  }

  lemma Verifies(s: State) returns (s': State)
    requires Reachable(Task(), s) && Idle(s) && s.disk.worktree.Some?
    requires TestsPass(ApplyAll(s.disk.worktree.value, CombinedPatch(s.disk.journal, s.disk.worktree.value)))
    requires forall op <- CombinedPatch(s.disk.journal, s.disk.worktree.value) :: op.op in {"write", "delete"}
    ensures Reachable(Task(), s') && s'.pc.Publishing? && s'.handle == s.handle
    ensures SameHistory(s, s') && s'.disk.worktree == s.disk.worktree && s'.world.stale == s.world.stale
  {
    hide Reachable;
    var s1 := RunsTests(s);
    Records(Task(), s1);
    RecordIsThere(Task(), s1);
    s' := DecidesToPublish(Recorded(Task(), s1));
  }

  lemma RecordIsThere(cfg: Config, s: State)
    requires Reachable(cfg, s) && s.pc.Acted? && Reachable(cfg, Recorded(cfg, s))
    ensures RowAt(Recorded(cfg, s).disk.journal, s.pc.move.turn.step) == Some(RowOf(s.pc.move, s.pc.payload))
  {
    ReachableHolds(cfg, s);
    ReachableHolds(cfg, Recorded(cfg, s));
    DenseLookups(Recorded(cfg, s).disk.journal);
  }

  lemma RunsTests(s: State) returns (s': State)
    requires Reachable(Task(), s) && Idle(s) && s.disk.worktree.Some?
    requires TestsPass(ApplyAll(s.disk.worktree.value, CombinedPatch(s.disk.journal, s.disk.worktree.value)))
    requires forall op <- CombinedPatch(s.disk.journal, s.disk.worktree.value) :: op.op in {"write", "delete"}
    ensures Reachable(Task(), s') && s'.pc.Acted? && s'.pc.payload == Verified(true, "")
    ensures s'.pc.move == Move(s.pc.turn, Reply("verify", 0, 0), AgentAction(Verify, map[]))
    ensures s'.disk == s.disk && s'.handle == s.handle && SameHistory(s, s') && s'.world.stale == s.world.stale
  {
    hide Reachable;
    var m := Move(s.pc.turn, Reply("verify", 0, 0), AgentAction(Verify, map[]));
    Calls(Task(), s, 3, m.action);
    var s1 := State(s.disk, CalledWorld(s.world), Acting(m), s.handle);
    Take(Task(), s1, RunSandbox(0, ""));
    s' := Step(Task(), s1, RunSandbox(0, "")).value;
  }

  lemma DecidesToPublish(s: State) returns (s': State)
    requires Reachable(Task(), s) && s.pc.Deciding? && s.pc.move.action.kind == Verify
    requires VerifiedAt(s.disk.journal, s.pc.move.turn.step)
    ensures Reachable(Task(), s') && s' == s.(pc := Publishing)
  {
    Take(Task(), s, Closing(Decide));
    s' := s.(pc := Publishing);
  }

  lemma Starts(base: Tree) returns (s: State)
    ensures Reachable(Task(), s) && Idle(s) && s.pc.turn.step == 0
    ensures s.disk == Settled(FRESH.disk, base) && s.world == FRESH.world
  {
    FreshIsReachable(Task());
    Resumes(Task(), FRESH, base, "");
    s := State(Settled(FRESH.disk, base), FRESH.world, AtHead(Resume(FRESH.disk)), "");
  }

  // ---------------------------------------------------------------------------------------------
  // The four histories

  /** Success was reported over a published base that fails the tests. */
  predicate PublishedUntested(s: State, crashes: nat) {
    && s.disk.task == VerifiedSuccess && s.world.crashes == crashes
    && |s.world.published| == 1 && !TestsPass(s.world.published[0].Result())
  }

  predicate KeptEveryFile(s: State)
    requires s.world.published != []
  {
    s.world.published[0].base.Keys <= s.world.published[0].worktree.Keys
  }

  predicate IsEdit(row: JournalRow) {
    row.kind == EditStep && row.payload == Edited(OpOf(row.xml))
  }

  lemma {:induction false} EditsWriteOrDelete(rows: seq<JournalRow>, tree: Tree)
    requires forall row <- rows :: IsEdit(row)
    ensures forall op <- CombinedPatch(rows, tree) :: op.op in {"write", "delete"}
  {
    if rows != [] {
      var last := rows[|rows| - 1];
      EditsWriteOrDelete(rows[..|rows| - 1], tree);
      assert IsEdit(last);
      assert CombinedPatch(rows, tree) == CombinedPatch(rows[..|rows| - 1], tree) + [OpOf(last.xml)];
    }
  }

  predicate EditsElsewhere(row: JournalRow, p: Path) {
    row.kind == EditStep && row.payload.Edited? && row.payload.edit.path != p
  }

  lemma {:induction false} EditsLeaveTheRest(rows: seq<JournalRow>, tree: Tree, p: Path)
    requires forall row <- rows :: EditsElsewhere(row, p)
    ensures LastOn(CombinedPatch(rows, tree), p).Untouched?
  {
    if rows != [] {
      var front, last := rows[..|rows| - 1], rows[|rows| - 1];
      EditsLeaveTheRest(front, tree, p);
      assert front + [last] == rows && EditsElsewhere(last, p);
      OneMoreElsewhere(front, last, tree, p);
    }
  }

  lemma OneMoreElsewhere(rows: seq<JournalRow>, row: JournalRow, tree: Tree, p: Path)
    requires LastOn(CombinedPatch(rows, tree), p).Untouched? && EditsElsewhere(row, p)
    ensures LastOn(CombinedPatch(rows + [row], tree), p).Untouched?
  {
    CombinedPatchAppend(rows, row, tree, p);
    OneElsewhere(row.payload.edit, p);
  }

  lemma OneElsewhere(op: PatchOp, p: Path)
    requires op.path != p
    ensures LastOn([op], p).Untouched?
  {
  }

  lemma WriteIsElsewhere(row: JournalRow)
    requires IsEdit(row) && row.xml != "delete"
    ensures EditsElsewhere(row, "g")
  {
  }

  /** The patch ends with the journal's last edit of the file, whatever the worktree shows. */
  lemma LastEditDecides(rows: seq<JournalRow>, step: nat, tree: Tree)
    requires "g" !in tree && forall row <- rows :: IsEdit(row) && row.xml != "delete"
    ensures TestsPass(ApplyAll(tree, CombinedPatch(rows + [EditRow(step, "x")], tree)))
  {
    var all := rows + [EditRow(step, "x")];
    LastWriteWins(rows, EditRow(step, "x"), tree);
    forall row | row in all
      ensures EditsElsewhere(row, "g")
    {
      WriteIsElsewhere(row);
    }
    EditsLeaveTheRest(all, tree, "g");
    ApplyAllAt(tree, CombinedPatch(all, tree), "g");
  }

  lemma LastWriteWins(rows: seq<JournalRow>, row: JournalRow, tree: Tree)
    requires row.kind == EditStep && row.payload.Edited? && row.payload.edit.op != "delete"
    ensures var op, patched := row.payload.edit, ApplyAll(tree, CombinedPatch(rows + [row], tree));
            op.path in patched && patched[op.path] == op.content
  {
    var op := row.payload.edit;
    CombinedPatchAppend(rows, row, tree, op.path);
    assert LastOn([op], op.path) == Last(op);
    ApplyAllAt(tree, CombinedPatch(rows + [row], tree), op.path);
  }

  lemma HashesDiffer()
    ensures Task().hash(WriteOp("x")) != Task().hash(WriteOp("y"))
  {
    assert Task().hash(WriteOp("x"))[8] == 'x' && Task().hash(WriteOp("y"))[8] == 'y';
  }

  lemma WritesThenOverwrites() returns (s: State)
    ensures Reachable(Task(), s) && Idle(s) && s.pc.turn.step == 2 && s.world.crashes == 0 && s.world.published == []
    ensures s.disk.journal == [EditRow(0, "x"), EditRow(1, "y")] && s.disk.worktree == Some(map["f" := "y"])
    ensures Task().hash(WriteOp("x")) in s.disk.artifacts
  {
    HashesDiffer();
    var s0 := Starts(map[]);
    var s1 := Edits(s0, 0);
    s := Edits(s1, 1);
    assert map["f" := "x"]["f" := "y"] == map["f" := "y"];
  }

  /** Without any crash: writing x, then y, then x again leaves y, because the third edit's hash is known. */
  lemma DeliberateReEditIsLost()
    ensures exists s :: Reachable(Task(), s) && PublishedUntested(s, 0) && KeptEveryFile(s)
  {
    var s2 := WritesThenOverwrites();
    var s3 := Edits(s2, 0);
    var tree := map["f" := "y"];
    LastEditDecides(s2.disk.journal, 2, tree);
    EditsWriteOrDelete(s3.disk.journal, tree);
    var end := Publishes(s3, map[]);
    assert PublishedUntested(end, 0);
  }

  /** A death between the artifact row and the write: the resumed edit finds its hash and writes nothing. */
  lemma RecordedButNotApplied()
    ensures exists s :: Reachable(Task(), s) && PublishedUntested(s, 1) && KeptEveryFile(s)
  {
    var s0 := Starts(map[]);
    var s1 := RecordsAndDies(s0);
    Resumes(Task(), s1, map[], "");
    var s2 := State(Settled(s1.disk, map[]), s1.world, AtHead(Resume(s1.disk)), "");
    var s3 := Edits(s2, 0);
    LastEditDecides([], 0, map[]);
    assert s3.disk.journal == [EditRow(0, "x")];
    EditsWriteOrDelete(s3.disk.journal, map[]);
    var end := Publishes(s3, map[]);
    assert PublishedUntested(end, 1);
  }

  lemma RecordsAndDies(s: State) returns (s': State)
    requires Reachable(Task(), s) && Idle(s) && s.disk.artifacts == [] && s.disk.worktree.Some?
    ensures Reachable(Task(), s') && s'.pc.Down?
    ensures s'.disk == s.disk.(artifacts := [Task().hash(WriteOp("x"))])
    ensures s'.world.crashes == s.world.crashes + 1 && s'.world.published == s.world.published
  {
    var cfg := Task();
    var m, op := EditMove(s.pc.turn, "x"), WriteOp("x");
    Calls(cfg, s, 0, m.action);
    var s1 := State(s.disk, CalledWorld(s.world), Acting(m), s.handle);
    Take(cfg, s1, Editing(BeginEdit));
    var s2 := s1.(disk := s.disk.(artifacts := s.disk.artifacts + [cfg.hash(op)]), pc := Pc.Recorded(m, op));
    Take(cfg, s2, Crash);
    s' := Die(s2);
  }

  lemma EditsThenDiesRenaming() returns (s: State)
    ensures Reachable(Task(), s) && s.pc.Down? && !s.disk.task.IsTerminal() && AllCommitted(Task(), s.disk)
    ensures s.disk.journal == [EditRow(0, "x")] && s.disk.worktree == Some(map["f" := "y"])
    ensures SpentTokens(s.disk.ledger, Task().Scope()) == 0
    ensures s.world.crashes == 1 && s.world.published == []
  {
    var s0 := Starts(map[]);
    var s1 := Edits(s0, 0);
    ReachableHolds(Task(), s1);
    s := RenamesAndDies(s1);
  }

  /** A death between a rename's write and its row: the journal never learns of the rewritten file. */
  lemma RewrittenButNotJournaled()
    ensures exists s :: Reachable(Task(), s) && PublishedUntested(s, 1) && KeptEveryFile(s)
  {
    var s1 := EditsThenDiesRenaming();
    Resumes(Task(), s1, map[], "");
    var s2 := State(Settled(s1.disk, map[]), s1.world, AtHead(Resume(s1.disk)), "");
    DenseLookups(s2.disk.journal);
    var tree := map["f" := "y"];
    LastEditDecides([], 0, tree);
    EditsWriteOrDelete(s2.disk.journal, tree);
    var end := Publishes(s2, map[]);
    assert PublishedUntested(end, 1);
  }

  /** Without any crash and with nothing stale: the task deletes "g", its tests pass on the worktree, and the commit,
      which copies the worktree's files over the base, leaves "g" there. */
  lemma DeletedFileIsStillPublished()
    ensures exists s :: Reachable(Task(), s) && PublishedUntested(s, 0) && s.world.published[0].stale == {}
  {
    var base := map["f" := "x", "g" := "z"];
    var s0 := Starts(base);
    var s1 := Edits(s0, 4);
    var tree := base - {"g"};
    assert s1.disk.worktree == Some(tree) && EffectHolds(OpOf("delete"), tree);
    assert s1.world.stale == {};
    ReachableHolds(Task(), s1);
    PatchIsIdentityIffNothingStale(s1.disk.journal, tree, {});
    EditsWriteOrDelete(s1.disk.journal, tree);
    var end := Publishes(s1, base);
    assert "g" in end.world.published[0].Result();
    assert PublishedUntested(end, 0);
  }

  lemma OneKey(p: Path)
    ensures Strings.SortedKeys({p}) == [p]
  {
    var sorted := Strings.SortedKeys({p});
    assert sorted[0] in sorted;
    assert {p} - {sorted[0]} == {};
  }

  lemma RenamesAndDies(s: State) returns (s': State)
    requires Reachable(Task(), s) && Idle(s) && s.disk.worktree == Some(map["f" := "x"])
    requires s.disk.artifacts == [Task().hash(WriteOp("x"))]
    ensures Reachable(Task(), s') && s'.pc.Down? && s'.world.crashes == s.world.crashes + 1
    ensures s'.world.published == s.world.published
    ensures s'.disk == s.disk.(artifacts := s'.disk.artifacts, worktree := Some(map["f" := "y"]))
  {
    hide Reachable;
    var cfg := Task();
    var m := Move(s.pc.turn, Reply("rename", 0, 0), Meaning("rename"));
    Calls(cfg, s, 2, m.action);
    var s1 := State(s.disk, CalledWorld(s.world), Acting(m), s.handle);
    assert Strings.SortedKeys({"f"}) == ["f"] by {
      OneKey("f");
    }
    Take(cfg, s1, RenamingFiles(BeginRename({"f"})));
    var s2 := s1.(pc := Renaming(m, ["f"], [], false));
    HashesDiffer();
    Take(cfg, s2, RenamingFiles(RenameFile));
    var s3 := RenameNext(cfg, s2, map["f" := "x"]);
    assert s3.pc.RenameRecorded? && s3.pc.op == WriteOp("y");
    Take(cfg, s3, RenamingFiles(ApplyRename));
    var s4 := Step(cfg, s3, RenamingFiles(ApplyRename)).value;
    assert map["f" := "x"]["f" := "y"] == map["f" := "y"];
    Take(cfg, s4, Crash);
    s' := Die(s4);
  }
}
