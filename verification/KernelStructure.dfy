/**
 How the journal, the loop's variables and the task row fit together in every reachable state,
 through any crashes and resumes.
 */
module KernelStructure {
  import opened Actions
  import opened Journal
  import opened Kernel

  /** The model has answered and the step's row is not written yet. */
  predicate BeforeRow(pc: Pc) {
    pc.Acting? || pc.Charging? || pc.Recorded? || pc.Renaming? || pc.RenameRecorded? || pc.Acted?
  }

  /** The step's row is written and the decision about it is still to come. */
  predicate AfterRow(pc: Pc) {
    pc.Journaled? || pc.Charged? || pc.Deciding?
  }

  predicate LastIsVerified(rows: seq<JournalRow>) {
    && rows != []
    && rows[|rows| - 1].kind == VerifyStep
    && rows[|rows| - 1].payload.Verified?
    && rows[|rows| - 1].payload.verified
  }

  predicate PayloadFits(kind: ActionKind, payload: Payload) {
    match kind
    case Plan | GiveUp => payload.Nothing?
    case Retrieve => payload.Retrieved?
    case Edit => payload.Edited?
    case Rename => payload.Renamed?
    case Verify => payload.Verified?
  }

  predicate KindFits(pc: Pc)
    requires BeforeRow(pc)
  {
    var kind := pc.move.action.kind;
    match pc
    case Charging(_, _, _) => kind == Retrieve
    case Recorded(_, op) => kind == Edit && "file_path" in pc.move.action.fields && op == EditOp(pc.move.action)
    case Renaming(_, _, _, _) => kind == Rename
    case RenameRecorded(_, op, _, _, _) => kind == Rename && op.op == "write"
    case Acted(_, payload, _) => PayloadFits(kind, payload)
    case _ => true
  }

  /** The loop's variables against the journal. */
  ghost predicate VariablesFit(cfg: Config, s: State) {
    var rows := s.disk.journal;
    && (s.pc.AtHead? ==> s.pc.turn.step == |rows| && s.pc.turn.repairs == CountFailed(rows))
    && (BeforeRow(s.pc) ==>
          && s.pc.move.turn.step == |rows| < cfg.stepBudget
          && s.pc.move.turn.repairs == CountFailed(rows)
          && KindFits(s.pc))
    && (AfterRow(s.pc) ==>
          && rows != []
          && s.pc.move.turn.step == |rows| - 1
          && s.pc.move.turn.repairs == CountFailed(rows[..|rows| - 1])
          && var last := rows[|rows| - 1];
          && PayloadFits(s.pc.move.action.kind, last.payload)
          && last == RowOf(s.pc.move, last.payload))
  }

  ghost predicate VerdictFits(s: State) {
    && (s.pc.Publishing? || s.pc == Ending(VerifiedSuccess) || s.disk.task.VerifiedSuccess?
        ==> LastIsVerified(s.disk.journal))
    && (s.pc.Ending? ==> s.pc.verdict.IsTerminal())
    && (s.disk.task.IsTerminal() ==> s.pc.Down?)
  }

  ghost predicate Structure(cfg: Config, s: State) {
    && Dense(s.disk.journal)
    && |s.disk.journal| <= cfg.stepBudget
    && (s.pc.AtHead? || BeforeRow(s.pc) || AfterRow(s.pc) || s.pc.Publishing? ==> s.disk.worktree.Some?)
    && VariablesFit(cfg, s)
    && VerdictFits(s)
  }

  lemma KeptByResume(cfg: Config, s: State, e: ResumeEvent)
    requires Structure(cfg, s) && StepResume(cfg, s, e).Some?
    ensures Structure(cfg, StepResume(cfg, s, e).value)
  {
    DenseLookups(s.disk.journal);
  }

  lemma KeptByHead(cfg: Config, s: State, e: HeadEvent)
    requires Structure(cfg, s) && StepHead(cfg, s, e).Some?
    ensures Structure(cfg, StepHead(cfg, s, e).value)
  {
  }

  lemma KeptByRetrieve(cfg: Config, s: State, e: RetrieveEvent)
    requires Structure(cfg, s) && StepRetrieve(cfg, s, e).Some?
    ensures Structure(cfg, StepRetrieve(cfg, s, e).value)
  {
  }

  lemma KeptByEdit(cfg: Config, s: State, e: EditEvent)
    requires Structure(cfg, s) && StepEdit(cfg, s, e).Some?
    ensures Structure(cfg, StepEdit(cfg, s, e).value)
  {
  }

  lemma KeptByRenameFile(cfg: Config, s: State)
    requires Structure(cfg, s) && StepRename(cfg, s, RenameFile).Some?
    ensures Structure(cfg, StepRename(cfg, s, RenameFile).value)
  {
  }

  lemma KeptByRenameRest(cfg: Config, s: State, e: RenameEvent)
    requires Structure(cfg, s) && StepRename(cfg, s, e).Some? && !e.RenameFile?
    ensures Structure(cfg, StepRename(cfg, s, e).value)
  {
  }

  lemma KeptByRename(cfg: Config, s: State, e: RenameEvent)
    requires Structure(cfg, s) && StepRename(cfg, s, e).Some?
    ensures Structure(cfg, StepRename(cfg, s, e).value)
  {
    match e
    case RenameFile => KeptByRenameFile(cfg, s);
    case _ => KeptByRenameRest(cfg, s, e);
  }

  lemma KeptBySandbox(cfg: Config, s: State, nonce: int, output: string)
    requires Structure(cfg, s) && StepSandbox(cfg, s, nonce, output).Some?
    ensures Structure(cfg, StepSandbox(cfg, s, nonce, output).value)
  {
  }

  lemma KeptByRecord(cfg: Config, s: State, e: RecordEvent)
    requires Structure(cfg, s) && StepRecord(cfg, s, e).Some?
    ensures Structure(cfg, StepRecord(cfg, s, e).value)
  {
    if e.AppendJournal? {
      var rows, row := s.disk.journal, RowOf(s.pc.move, s.pc.payload);
      DenseLookups(rows);
      assert (rows + [row])[..|rows|] == rows;
    }
  }

  lemma KeptByEnd(cfg: Config, s: State, e: EndEvent)
    requires Structure(cfg, s) && StepEnd(cfg, s, e).Some?
    ensures Structure(cfg, StepEnd(cfg, s, e).value)
  {
    DenseLookups(s.disk.journal);
  }

  lemma KeptByCrash(cfg: Config, s: State)
    requires Structure(cfg, s) && !s.pc.Down?
    ensures Structure(cfg, Die(s))
  {
  }

  lemma StructureKept(cfg: Config, s: State, e: Event)
    requires Structure(cfg, s) && Step(cfg, s, e).Some?
    ensures Structure(cfg, Step(cfg, s, e).value)
  {
    match e
    case Crash => KeptByCrash(cfg, s);
    case Resuming(r) => KeptByResume(cfg, s, r);
    case Heading(h) => KeptByHead(cfg, s, h);
    case Retrieving(r) => KeptByRetrieve(cfg, s, r);
    case Editing(ed) => KeptByEdit(cfg, s, ed);
    case RenamingFiles(r) => KeptByRename(cfg, s, r);
    case RunSandbox(nonce, output) => KeptBySandbox(cfg, s, nonce, output);
    case Recording(r) => KeptByRecord(cfg, s, r);
    case Closing(c) => KeptByEnd(cfg, s, c);
  }
}
