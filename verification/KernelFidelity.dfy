/**
 What the sandbox tests against what is committed.

 The sandbox patches a copy of the worktree with the operations reassembled from the journal. That test is
 about the worktree only if the patch changes nothing, which PatchIsIdentityIff reduces to: on every touched
 path the journal's last word is what the worktree shows. Here `stale` is proved to be exactly the set of the
 paths where it is not, in every reachable state and up to the files of the step under way.
 */
module KernelFidelity {
  import opened Common
  import opened Actions
  import opened Patches
  import opened Journal
  import opened Kernel
  import opened KernelStructure

  function RenamedSoFar(pc: Pc): seq<Path> {
    match pc
    case Renaming(_, _, files, _) => files
    case RenameRecorded(_, _, _, files, _) => files
    case Acted(_, Renamed(files), _) => files
    case _ => []
  }

  /** Outside `skip`, exactly the stale paths are those that the journal describes wrongly. */
  ghost predicate StaleIsExact(rows: seq<JournalRow>, tree: Tree, stale: set<Path>, skip: set<Path>) {
    forall p {:trigger DescribedAt(rows, tree, p)} :: p !in skip ==> (p in stale <==> !DescribedAt(rows, tree, p))
  }

  ghost predicate Faithful(s: State) {
    && (s.disk.worktree.None? ==> s.disk.journal == [] && s.world.stale == {})
    && (s.disk.worktree.Some? ==>
          && StaleIsExact(s.disk.journal, s.disk.worktree.value, s.world.stale, PendingPaths(s.pc))
          && (forall p <- RenamedSoFar(s.pc) :: p in s.disk.worktree.value))
  }

  /** A positive run on a copy of `tree`; the tests saw `tree` itself exactly when nothing was stale. */
  predicate Stands(run: SandboxRun, tree: Tree, stale: set<Path>) {
    && run.verified && run.snapshot == tree
    && (run.Tested() == tree <==> stale == {})
  }

  /** The runner holds a positive verdict it has not acted on yet. */
  predicate HoldsVerdict(s: State) {
    || (s.pc.Acted? && s.pc.payload.Verified? && s.pc.payload.verified)
    || (AfterRow(s.pc) && LastIsVerified(s.disk.journal))
    || s.pc.Publishing?
  }

  predicate Succeeded(s: State) {
    s.disk.task.VerifiedSuccess? || s.pc == Ending(VerifiedSuccess)
  }

  ghost predicate Tested(cfg: Config, s: State) {
    && (forall run <- s.world.runs :: run.verified == Verdict(cfg, run.snapshot, run.ops, run.nonce))
    && (HoldsVerdict(s) ==> s.world.runs != [] && s.disk.worktree.Some?
                            && Stands(s.world.runs[|s.world.runs| - 1], s.disk.worktree.value, s.world.stale))
    && (forall pub <- s.world.published :: exists run <- s.world.runs :: Stands(run, pub.worktree, pub.stale))
    && (Succeeded(s) ==> exists run <- s.world.runs :: run.verified)
    && (Succeeded(s) && cfg.apply ==>
          s.world.published != [] && s.disk.worktree == Some(s.world.published[|s.world.published| - 1].worktree))
  }

  // ---------------------------------------------------------------------------------------------
  // The journal's description under one write and under one row

  lemma DescribedIsLocal(rows: seq<JournalRow>, t: Tree, u: Tree, p: Path)
    requires SameAt(t, u, p)
    ensures DescribedAt(rows, t, p) == DescribedAt(rows, u, p)
  {
    CombinedPatchIsLocal(rows, t, u, p);
    ApplyAllAt(t, CombinedPatch(rows, t), p);
  }

  /** A write changes the description of its own path only. */
  lemma WriteTouchesOnePath(rows: seq<JournalRow>, tree: Tree, op: PatchOp, stale: set<Path>, skip: set<Path>)
    requires StaleIsExact(rows, tree, stale, skip)
    ensures StaleIsExact(rows, ApplyToWorktree(tree, op), stale, skip + {op.path})
  {
    var after := ApplyToWorktree(tree, op);
    EffectHoldsIffApplyingChangesNothing(op, tree);
    forall p | p !in skip + {op.path}
      ensures p in stale <==> !DescribedAt(rows, after, p)
    {
      DescribedIsLocal(rows, tree, after, p);
      assert p in stale <==> !DescribedAt(rows, tree, p);
    }
  }

  /** After an EDIT row the journal describes the edited path if and only if the worktree shows the edit, and every
      other path as before. */
  lemma EditRowDescribesIff(rows: seq<JournalRow>, row: JournalRow, tree: Tree, p: Path)
    requires row.kind == EditStep && row.payload.Edited?
    ensures DescribedAt(rows + [row], tree, p)
       <==> if p == row.payload.edit.path then EffectHolds(row.payload.edit, tree) else DescribedAt(rows, tree, p)
  {
    CombinedPatchAppend(rows, row, tree, p);
    assert LastOn([row.payload.edit], p) == if p == row.payload.edit.path then Last(row.payload.edit) else Untouched;
  }

  /** After a RENAME row it describes every renamed file that exists, because the patch reads it back. */
  lemma RenameRowDescribesIff(rows: seq<JournalRow>, row: JournalRow, tree: Tree, p: Path)
    requires row.kind == EditStep && row.payload.Renamed?
    ensures DescribedAt(rows + [row], tree, p)
       <==> (p in row.payload.files && p in tree) || DescribedAt(rows, tree, p)
  {
    CombinedPatchAppend(rows, row, tree, p);
    RenameOpsAt(row.payload.files, tree, p);
  }

  lemma OtherRowDescribes(rows: seq<JournalRow>, row: JournalRow, tree: Tree, p: Path)
    requires row.kind != EditStep || !(row.payload.Edited? || row.payload.Renamed?)
    ensures DescribedAt(rows + [row], tree, p) == DescribedAt(rows, tree, p)
  {
    CombinedPatchAppend(rows, row, tree, p);
    assert LastOn([], p) == Untouched;
  }

  /** The bookkeeping of a row is exact: pending paths are settled and no other path changes. */
  lemma RowKeepsStaleExact(rows: seq<JournalRow>, row: JournalRow, tree: Tree, stale: set<Path>, skip: set<Path>)
    requires StaleIsExact(rows, tree, stale, skip)
    requires row.kind == EditStep && row.payload.Edited? ==> skip <= {row.payload.edit.path}
    requires row.kind == EditStep && row.payload.Renamed? ==>
               skip <= (set p <- row.payload.files) && forall p <- row.payload.files :: p in tree
    requires row.kind == EditStep && !row.payload.Edited? && !row.payload.Renamed? ==> skip == {}
    requires row.kind != EditStep ==> skip == {}
    ensures StaleIsExact(rows + [row], tree, StaleAfterRow(stale, row, tree), {})
  {
    forall p
      ensures p in StaleAfterRow(stale, row, tree) <==> !DescribedAt(rows + [row], tree, p)
    {
      assert p !in skip ==> (p in stale <==> !DescribedAt(rows, tree, p));
      if row.kind == EditStep && row.payload.Edited? {
        EditRowDescribesIff(rows, row, tree, p);
      } else if row.kind == EditStep && row.payload.Renamed? {
        RenameRowDescribesIff(rows, row, tree, p);
      } else {
        OtherRowDescribes(rows, row, tree, p);
      }
    }
  }

  /** With nothing pending, the reassembled patch is the identity if and only if nothing is stale. */
  lemma PatchIsIdentityIffNothingStale(rows: seq<JournalRow>, tree: Tree, stale: set<Path>)
    requires StaleIsExact(rows, tree, stale, {})
    ensures ApplyAll(tree, CombinedPatch(rows, tree)) == tree <==> stale == {}
  {
    PatchIsIdentityIff(tree, CombinedPatch(rows, tree));
    if Agrees(CombinedPatch(rows, tree), tree) {
      forall p
        ensures p !in stale
      {
        assert DescribedAt(rows, tree, p);
      }
    }
    if stale == {} {
      forall p | LastOn(CombinedPatch(rows, tree), p).Last?
        ensures EffectHolds(LastOn(CombinedPatch(rows, tree), p).op, tree)
      {
        assert DescribedAt(rows, tree, p);
      }
    }
  }

  // ---------------------------------------------------------------------------------------------
  // Preservation

  ghost predicate Fidelity(cfg: Config, s: State) {
    Faithful(s) && Tested(cfg, s)
  }

  lemma FaithfulByDeath(s: State)
    requires Faithful(s)
    ensures Faithful(Die(s))
  {
    if s.disk.worktree.Some? {
      forall p
        ensures p in StaleAfterDeath(s) <==> !DescribedAt(s.disk.journal, s.disk.worktree.value, p)
      {
      }
    }
  }

  lemma TestedByDeath(cfg: Config, s: State)
    requires VerdictFits(s) && Tested(cfg, s)
    ensures Tested(cfg, Die(s))
  {
  }

  lemma FaithfulByResume(cfg: Config, s: State, e: ResumeEvent)
    requires Faithful(s) && StepResume(cfg, s, e).Some?
    ensures Faithful(StepResume(cfg, s, e).value)
  {
    if e.Open? && s.disk.worktree.None? {
      forall p
        ensures DescribedAt([], e.base, p)
      {
        assert CombinedPatch([], e.base) == [];
      }
    }
  }

  lemma TestedByResume(cfg: Config, s: State, e: ResumeEvent)
    requires VerdictFits(s) && Tested(cfg, s) && StepResume(cfg, s, e).Some?
    ensures Tested(cfg, StepResume(cfg, s, e).value)
  {
  }

  lemma FaithfulByHead(cfg: Config, s: State, e: HeadEvent)
    requires Faithful(s) && StepHead(cfg, s, e).Some?
    ensures Faithful(StepHead(cfg, s, e).value)
  {
    if e.CallModel? {
      var called := s.(world := s.world.(modelCalls := s.world.modelCalls + 1));
      FaithfulByDeath(called);
    }
  }

  lemma TestedByHead(cfg: Config, s: State, e: HeadEvent)
    requires VerdictFits(s) && Tested(cfg, s) && StepHead(cfg, s, e).Some?
    ensures Tested(cfg, StepHead(cfg, s, e).value)
  {
  }

  lemma FaithfulByRetrieve(cfg: Config, s: State, e: RetrieveEvent)
    requires Faithful(s) && StepRetrieve(cfg, s, e).Some?
    ensures Faithful(StepRetrieve(cfg, s, e).value)
  {
    FaithfulByDeath(s);
  }

  lemma TestedByRetrieve(cfg: Config, s: State, e: RetrieveEvent)
    requires VerdictFits(s) && Tested(cfg, s) && StepRetrieve(cfg, s, e).Some?
    ensures Tested(cfg, StepRetrieve(cfg, s, e).value)
  {
  }

  lemma FaithfulByBeginEdit(cfg: Config, s: State)
    requires Faithful(s) && StepEdit(cfg, s, BeginEdit).Some?
    ensures Faithful(StepEdit(cfg, s, BeginEdit).value)
  {
    FaithfulByDeath(s);
  }

  lemma FaithfulByApplyEdit(cfg: Config, s: State)
    requires Faithful(s) && StepEdit(cfg, s, ApplyEdit).Some?
    ensures Faithful(StepEdit(cfg, s, ApplyEdit).value)
  {
    if cfg.inside(s.pc.op.path) {
      WriteTouchesOnePath(s.disk.journal, s.disk.worktree.value, s.pc.op, s.world.stale, {});
    } else {
      FaithfulByDeath(s);
    }
  }

  lemma FaithfulByEdit(cfg: Config, s: State, e: EditEvent)
    requires Faithful(s) && StepEdit(cfg, s, e).Some?
    ensures Faithful(StepEdit(cfg, s, e).value)
  {
    match e
    case BeginEdit => FaithfulByBeginEdit(cfg, s);
    case ApplyEdit => FaithfulByApplyEdit(cfg, s);
  }

  lemma TestedByEdit(cfg: Config, s: State, e: EditEvent)
    requires VerdictFits(s) && Tested(cfg, s) && StepEdit(cfg, s, e).Some?
    ensures Tested(cfg, StepEdit(cfg, s, e).value)
  {
  }

  lemma FaithfulByRenamed(cfg: Config, s: State)
    requires Faithful(s) && StepRename(cfg, s, ApplyRename).Some? && s.pc.op.op == "write"
    ensures Faithful(StepRename(cfg, s, ApplyRename).value)
  {
    if cfg.inside(s.pc.op.path) {
      WriteTouchesOnePath(s.disk.journal, s.disk.worktree.value, s.pc.op, s.world.stale, PendingPaths(s.pc));
      assert PendingPaths(StepRename(cfg, s, ApplyRename).value.pc) >= PendingPaths(s.pc) + {s.pc.op.path};
    } else {
      FaithfulByDeath(s);
    }
  }

  lemma FaithfulByRenameFile(cfg: Config, s: State)
    requires Faithful(s) && StepRename(cfg, s, RenameFile).Some?
    ensures Faithful(StepRename(cfg, s, RenameFile).value)
  {
  }

  lemma FaithfulByRenameEnds(cfg: Config, s: State, e: RenameEvent)
    requires Faithful(s) && StepRename(cfg, s, e).Some? && (e.BeginRename? || e.EndRename?)
    ensures Faithful(StepRename(cfg, s, e).value)
  {
  }

  lemma FaithfulByRename(cfg: Config, s: State, e: RenameEvent)
    requires Faithful(s) && StepRename(cfg, s, e).Some?
    requires s.pc.RenameRecorded? ==> s.pc.op.op == "write"
    ensures Faithful(StepRename(cfg, s, e).value)
  {
    match e
    case RenameFile => FaithfulByRenameFile(cfg, s);
    case ApplyRename => FaithfulByRenamed(cfg, s);
    case _ => FaithfulByRenameEnds(cfg, s, e);
  }

  lemma TestedByRenameFile(cfg: Config, s: State)
    requires VerdictFits(s) && Tested(cfg, s) && StepRename(cfg, s, RenameFile).Some?
    ensures Tested(cfg, StepRename(cfg, s, RenameFile).value)
  {
  }

  lemma TestedByRename(cfg: Config, s: State, e: RenameEvent)
    requires VerdictFits(s) && Tested(cfg, s) && StepRename(cfg, s, e).Some?
    ensures Tested(cfg, StepRename(cfg, s, e).value)
  {
    if e.RenameFile? {
      TestedByRenameFile(cfg, s);
    }
  }

  lemma FaithfulBySandbox(cfg: Config, s: State, nonce: int, output: string)
    requires Faithful(s) && StepSandbox(cfg, s, nonce, output).Some?
    ensures Faithful(StepSandbox(cfg, s, nonce, output).value)
  {
  }

  /** The tests of a run see the worktree itself exactly when nothing is stale. */
  lemma RunStands(cfg: Config, s: State, nonce: int, output: string)
    requires Faithful(s) && StepSandbox(cfg, s, nonce, output).Some?
    ensures var s' := StepSandbox(cfg, s, nonce, output).value;
            var run := s'.world.runs[|s'.world.runs| - 1];
            && s'.world.runs == s.world.runs + [run]
            && run.verified == Verdict(cfg, run.snapshot, run.ops, run.nonce)
            && (run.verified ==> Stands(run, s.disk.worktree.value, s.world.stale))
  {
    PatchIsIdentityIffNothingStale(s.disk.journal, s.disk.worktree.value, s.world.stale);
  }

  lemma TestedBySandbox(cfg: Config, s: State, nonce: int, output: string)
    requires VerdictFits(s) && Fidelity(cfg, s) && StepSandbox(cfg, s, nonce, output).Some?
    ensures Tested(cfg, StepSandbox(cfg, s, nonce, output).value)
  {
    var s' := StepSandbox(cfg, s, nonce, output).value;
    RunStands(cfg, s, nonce, output);
    forall pub | pub in s'.world.published
      ensures exists run <- s'.world.runs :: Stands(run, pub.worktree, pub.stale)
    {
      var run :| run in s.world.runs && Stands(run, pub.worktree, pub.stale);
      assert run in s'.world.runs;
    }
  }

  lemma FaithfulByAppend(cfg: Config, s: State)
    requires Faithful(s) && StepRecord(cfg, s, AppendJournal).Some?
    requires PayloadFits(s.pc.move.action.kind, s.pc.payload) && s.disk.worktree.Some?
    requires RowAt(s.disk.journal, s.pc.move.turn.step).None?
    ensures Faithful(StepRecord(cfg, s, AppendJournal).value)
  {
    RowKeepsStaleExact(s.disk.journal, RowOf(s.pc.move, s.pc.payload), s.disk.worktree.value, s.world.stale,
                       PendingPaths(s.pc));
  }

  lemma FaithfulByRecord(cfg: Config, s: State, e: RecordEvent)
    requires Faithful(s) && StepRecord(cfg, s, e).Some?
    requires s.pc.Acted? ==> PayloadFits(s.pc.move.action.kind, s.pc.payload) && s.disk.worktree.Some?
    requires s.pc.Acted? ==> RowAt(s.disk.journal, s.pc.move.turn.step).None?
    ensures Faithful(StepRecord(cfg, s, e).value)
  {
    if e.AppendJournal? {
      FaithfulByAppend(cfg, s);
    }
  }

  lemma TestedByRecord(cfg: Config, s: State, e: RecordEvent)
    requires VerdictFits(s) && Tested(cfg, s) && StepRecord(cfg, s, e).Some?
    requires s.pc.Acted? ==> PayloadFits(s.pc.move.action.kind, s.pc.payload)
    requires s.pc.Acted? ==> RowAt(s.disk.journal, s.pc.move.turn.step).None?
    ensures Tested(cfg, StepRecord(cfg, s, e).value)
  {
  }

  lemma TestedByPublish(cfg: Config, s: State, found: CommitView)
    requires VerdictFits(s) && Tested(cfg, s) && StepEnd(cfg, s, Publish(found)).Some?
    ensures Tested(cfg, StepEnd(cfg, s, Publish(found)).value)
  {
    assert s.world.runs[|s.world.runs| - 1] in s.world.runs;
  }

  lemma FaithfulByEnd(cfg: Config, s: State, e: EndEvent)
    requires Faithful(s) && StepEnd(cfg, s, e).Some?
    ensures Faithful(StepEnd(cfg, s, e).value)
  {
  }

  lemma TestedByDecide(cfg: Config, s: State)
    requires VerdictFits(s) && Tested(cfg, s) && s.pc.Deciding?
    requires LastIsVerified(s.disk.journal)
          == (s.pc.move.action.kind == Verify && VerifiedAt(s.disk.journal, s.pc.move.turn.step))
    ensures Tested(cfg, StepEnd(cfg, s, Decide).value)
  {
    if HoldsVerdict(s) {
      assert s.world.runs[|s.world.runs| - 1] in s.world.runs;
    }
  }

  lemma TestedByEnd(cfg: Config, s: State, e: EndEvent)
    requires VerdictFits(s) && Tested(cfg, s) && StepEnd(cfg, s, e).Some?
    requires s.pc.Deciding? ==>
               LastIsVerified(s.disk.journal)
               == (s.pc.move.action.kind == Verify && VerifiedAt(s.disk.journal, s.pc.move.turn.step))
    ensures Tested(cfg, StepEnd(cfg, s, e).value)
  {
    match e
    case Decide => TestedByDecide(cfg, s);
    case Publish(found) => TestedByPublish(cfg, s, found);
    case Finish =>
  }

  lemma KeptByRecord(cfg: Config, s: State, e: RecordEvent)
    requires Structure(cfg, s) && Fidelity(cfg, s) && StepRecord(cfg, s, e).Some?
    ensures Fidelity(cfg, StepRecord(cfg, s, e).value)
  {
    DenseLookups(s.disk.journal);
    FaithfulByRecord(cfg, s, e);
    TestedByRecord(cfg, s, e);
  }

  lemma KeptByEnd(cfg: Config, s: State, e: EndEvent)
    requires Structure(cfg, s) && Fidelity(cfg, s) && StepEnd(cfg, s, e).Some?
    ensures Fidelity(cfg, StepEnd(cfg, s, e).value)
  {
    DenseLookups(s.disk.journal);
    FaithfulByEnd(cfg, s, e);
    TestedByEnd(cfg, s, e);
  }

  lemma FidelityKept(cfg: Config, s: State, e: Event)
    requires Structure(cfg, s) && Fidelity(cfg, s) && Step(cfg, s, e).Some?
    ensures Fidelity(cfg, Step(cfg, s, e).value)
  {
    match e
    case Crash => FaithfulByDeath(s); TestedByDeath(cfg, s);
    case Resuming(r) => FaithfulByResume(cfg, s, r); TestedByResume(cfg, s, r);
    case Heading(h) => FaithfulByHead(cfg, s, h); TestedByHead(cfg, s, h);
    case Retrieving(r) => FaithfulByRetrieve(cfg, s, r); TestedByRetrieve(cfg, s, r);
    case Editing(ed) => FaithfulByEdit(cfg, s, ed); TestedByEdit(cfg, s, ed);
    case RenamingFiles(r) => FaithfulByRename(cfg, s, r); TestedByRename(cfg, s, r);
    case RunSandbox(nonce, output) => FaithfulBySandbox(cfg, s, nonce, output); TestedBySandbox(cfg, s, nonce, output);
    case Recording(r) => KeptByRecord(cfg, s, r);
    case Closing(c) => KeptByEnd(cfg, s, c);
  }
}
