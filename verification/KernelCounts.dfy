/**
 What a crash can cost: bounds on repeated model calls, lost metering, extra repair attempts and
 recorded-but-unapplied edits, in every reachable state.
 */
module KernelCounts {
  import opened Journal
  import opened Kernel
  import opened KernelStructure

  function One(b: bool): nat {
    if b then 1 else 0
  }

  /** A paid reply that never reached the journal, and a row that was never metered, each cost one crash. */
  predicate Calls(s: State) {
    var n, crashes := |s.disk.journal|, s.world.crashes;
    && n + One(BeforeRow(s.pc)) <= s.world.modelCalls <= n + One(BeforeRow(s.pc)) + crashes
    && s.disk.toolCalls + One(s.pc.Journaled? || s.pc.Charged?) <= n
    && n <= s.disk.toolCalls + One(s.pc.Journaled? || s.pc.Charged?) + crashes
  }

  predicate MayRunOn(s: State) {
    s.pc.AtHead? || BeforeRow(s.pc) || s.pc.Opening? || s.pc.Reconciling? || (s.pc.Down? && !s.disk.task.IsTerminal())
  }

  predicate Repairs(s: State) {
    && CountFailed(s.disk.journal) <= MAX_REPAIR_ATTEMPTS + s.world.crashes + One(!MayRunOn(s))
    && (AfterRow(s.pc) ==> s.pc.move.turn.repairs <= MAX_REPAIR_ATTEMPTS + s.world.crashes)
  }

  ghost predicate Distinct(hashes: seq<string>) {
    forall i, j :: 0 <= i < j < |hashes| ==> hashes[i] != hashes[j]
  }

  /** The content-hash gate: an operation is recorded at most once and written at most once. */
  ghost predicate Gate(cfg: Config, s: State) {
    && Distinct(s.disk.artifacts)
    && Distinct(s.world.applied)
    && (forall h <- s.world.applied :: h in s.disk.artifacts)
    && (s.pc.Recorded? || s.pc.RenameRecorded? ==>
          cfg.hash(s.pc.op) in s.disk.artifacts && cfg.hash(s.pc.op) !in s.world.applied)
    && |s.disk.artifacts| <= |s.world.applied| + s.world.crashes + One(s.pc.Recorded? || s.pc.RenameRecorded?)
  }

  ghost predicate Counts(cfg: Config, s: State) {
    Calls(s) && Repairs(s) && Gate(cfg, s)
  }

  lemma KeptByResume(cfg: Config, s: State, e: ResumeEvent)
    requires Structure(cfg, s) && Counts(cfg, s) && StepResume(cfg, s, e).Some?
    ensures Counts(cfg, StepResume(cfg, s, e).value)
  {
    DenseLookups(s.disk.journal);
  }

  lemma KeptByHead(cfg: Config, s: State, e: HeadEvent)
    requires Structure(cfg, s) && Counts(cfg, s) && StepHead(cfg, s, e).Some?
    ensures Counts(cfg, StepHead(cfg, s, e).value)
  {
  }

  lemma KeptByRetrieve(cfg: Config, s: State, e: RetrieveEvent)
    requires Structure(cfg, s) && Counts(cfg, s) && StepRetrieve(cfg, s, e).Some?
    ensures Counts(cfg, StepRetrieve(cfg, s, e).value)
  {
  }

  lemma KeptByEdit(cfg: Config, s: State, e: EditEvent)
    requires Structure(cfg, s) && Counts(cfg, s) && StepEdit(cfg, s, e).Some?
    ensures Counts(cfg, StepEdit(cfg, s, e).value)
  {
  }

  lemma KeptByRenameFile(cfg: Config, s: State)
    requires Structure(cfg, s) && Counts(cfg, s) && StepRename(cfg, s, RenameFile).Some?
    ensures Counts(cfg, StepRename(cfg, s, RenameFile).value)
  {
  }

  lemma KeptByRenameRest(cfg: Config, s: State, e: RenameEvent)
    requires Structure(cfg, s) && Counts(cfg, s) && StepRename(cfg, s, e).Some? && !e.RenameFile?
    ensures Counts(cfg, StepRename(cfg, s, e).value)
  {
  }

  lemma KeptByRename(cfg: Config, s: State, e: RenameEvent)
    requires Structure(cfg, s) && Counts(cfg, s) && StepRename(cfg, s, e).Some?
    ensures Counts(cfg, StepRename(cfg, s, e).value)
  {
    match e
    case RenameFile => KeptByRenameFile(cfg, s);
    case _ => KeptByRenameRest(cfg, s, e);
  }

  lemma KeptBySandbox(cfg: Config, s: State, nonce: int, output: string)
    requires Structure(cfg, s) && Counts(cfg, s) && StepSandbox(cfg, s, nonce, output).Some?
    ensures Counts(cfg, StepSandbox(cfg, s, nonce, output).value)
  {
  }

  lemma KeptByRecord(cfg: Config, s: State, e: RecordEvent)
    requires Structure(cfg, s) && Counts(cfg, s) && StepRecord(cfg, s, e).Some?
    ensures Counts(cfg, StepRecord(cfg, s, e).value)
  {
    DenseLookups(s.disk.journal);
  }

  lemma KeptByEnd(cfg: Config, s: State, e: EndEvent)
    requires Structure(cfg, s) && Counts(cfg, s) && StepEnd(cfg, s, e).Some?
    ensures Counts(cfg, StepEnd(cfg, s, e).value)
  {
    DenseLookups(s.disk.journal);
  }

  lemma KeptByCrash(cfg: Config, s: State)
    requires Structure(cfg, s) && Counts(cfg, s) && !s.pc.Down?
    ensures Counts(cfg, Die(s))
  {
  }

  lemma CountsKept(cfg: Config, s: State, e: Event)
    requires Structure(cfg, s) && Counts(cfg, s) && Step(cfg, s, e).Some?
    ensures Counts(cfg, Step(cfg, s, e).value)
  {
    match e
    case Crash => KeptByCrash(cfg, s);
    case Resuming(r) => KeptByResume(cfg, s, r);
    case Heading(h) => KeptByHead(cfg, s, h);
    case Retrieving(r) => KeptByRetrieve(cfg, s, r);
    case Editing(ed) => KeptByEdit(cfg, s, ed);
    case RenamingFiles(r) => KeptByRename(cfg, s, r);
    case RunSandbox(nonce, output) => KeptBySandbox(cfg, s, nonce, output);
    case Recording(r) => KeptByRecord(cfg, s, r);
    case Closing(c) => KeptByEnd(cfg, s, c);
  }
}
