/**
 The kernel's guarantees, for every list of events: every model, sandbox and clock, every pattern of
 crashes and resumes.
 */
module KernelTheorems {
  import opened Common
  import opened Actions
  import opened Patches
  import opened Journal
  import opened Ledger
  import opened Kernel
  import opened KernelStructure
  import opened KernelCharges
  import opened KernelCounts
  import opened KernelFidelity

  ghost predicate Invariant(cfg: Config, s: State) {
    Structure(cfg, s) && Money(cfg, s) && Counts(cfg, s) && Fidelity(cfg, s)
  }

  lemma FreshHolds(cfg: Config)
    ensures Invariant(cfg, FRESH)
  {
  }

  lemma InvariantKept(cfg: Config, s: State, e: Event)
    requires Invariant(cfg, s) && Step(cfg, s, e).Some?
    ensures Invariant(cfg, Step(cfg, s, e).value)
  {
    StructureKept(cfg, s, e);
    MoneyKept(cfg, s, e);
    CountsKept(cfg, s, e);
    FidelityKept(cfg, s, e);
  }

  lemma {:induction false} InvariantAlways(cfg: Config, events: seq<Event>)
    requires Execute(cfg, FRESH, events).Some?
    ensures Invariant(cfg, Execute(cfg, FRESH, events).value)
  {
    if events == [] {
      FreshHolds(cfg);
    } else {
      var front := events[..|events| - 1];
      InvariantAlways(cfg, front);
      InvariantKept(cfg, Execute(cfg, FRESH, front).value, events[|events| - 1]);
    }
  }

  // ---------------------------------------------------------------------------------------------

  /** Every step-tagged commit is the charge of the journaled step with that number, no step has two, and
      only the newest journaled step can lack its commit; at a loop head and at the end none does. */
  lemma EffectivelyOnceCharging(cfg: Config, events: seq<Event>)
    requires Execute(cfg, FRESH, events).Some?
    ensures var s := Execute(cfg, FRESH, events).value;
            var rows, charges := s.disk.journal, StepCharges(s.disk.ledger, cfg);
            && |rows| - 1 <= |charges| <= |rows|
            && (forall k :: 0 <= k < |charges| ==> charges[k] == StepCharge(k, rows[k].charge))
            && (s.pc.AtHead? || s.disk.task.IsTerminal() ==> |charges| == |rows|)
  {
    InvariantAlways(cfg, events);
  }

  /** A paid call is repeated only when the runner died holding its reply. */
  lemma ModelCallsBeyondTheJournal(cfg: Config, events: seq<Event>)
    requires Execute(cfg, FRESH, events).Some?
    ensures var s := Execute(cfg, FRESH, events).value;
            var inFlight := if BeforeRow(s.pc) then 1 else 0;
            |s.disk.journal| + inFlight <= s.world.modelCalls <= |s.disk.journal| + inFlight + s.world.crashes
  {
    InvariantAlways(cfg, events);
  }

  /** Spend plus charges still owed never pass the budget by more than the newest step's own charge. */
  lemma TokenOvershootBound(cfg: Config, events: seq<Event>)
    requires Execute(cfg, FRESH, events).Some?
    ensures var s := Execute(cfg, FRESH, events).value;
            && SpentTokens(s.disk.ledger, cfg.Scope()) + Owed(cfg, s.disk)
               <= cfg.tokenBudget + LastCharge(s.disk.journal)
            && 0 <= Owed(cfg, s.disk) <= LastCharge(s.disk.journal)
            && ReservedTokens(s.disk.ledger, cfg.Scope()) == 0
  {
    InvariantAlways(cfg, events);
    OwedCases(cfg, Execute(cfg, FRESH, events).value.disk);
  }

  /** The journal is exactly steps 0 .. n-1 with n within the step budget, and every loop head stands at the
      first step that is not journaled: no journaled step's call is ever issued again. */
  lemma RunStructure(cfg: Config, events: seq<Event>)
    requires Execute(cfg, FRESH, events).Some?
    ensures var s := Execute(cfg, FRESH, events).value;
            && Dense(s.disk.journal)
            && |s.disk.journal| <= cfg.stepBudget
            && (s.pc.AtHead? ==> s.pc.turn.step == |s.disk.journal| && RowAt(s.disk.journal, s.pc.turn.step).None?)
  {
    InvariantAlways(cfg, events);
    DenseLookups(Execute(cfg, FRESH, events).value.disk.journal);
  }

  /** Reading the journal back in step order gives the rows as they were appended. */
  lemma TraceIsTheJournal(cfg: Config, events: seq<Event>)
    requires Execute(cfg, FRESH, events).Some?
    ensures var rows := Execute(cfg, FRESH, events).value.disk.journal; Trace(rows) == rows
  {
    InvariantAlways(cfg, events);
    DenseTraceIsTheTable(Execute(cfg, FRESH, events).value.disk.journal);
  }

  /** A step whose effect is done has no row yet, so its append always inserts. */
  lemma AppendIsFresh(cfg: Config, events: seq<Event>)
    requires Execute(cfg, FRESH, events).Some? && Execute(cfg, FRESH, events).value.pc.Acted?
    ensures var s := Execute(cfg, FRESH, events).value; RowAt(s.disk.journal, s.pc.move.turn.step).None?
  {
    InvariantAlways(cfg, events);
    DenseLookups(Execute(cfg, FRESH, events).value.disk.journal);
  }

  /** Nor has it a commit, when it comes to its commit. */
  lemma CommitIsFresh(cfg: Config, events: seq<Event>)
    requires Execute(cfg, FRESH, events).Some? && Execute(cfg, FRESH, events).value.pc.Journaled?
    ensures var s := Execute(cfg, FRESH, events).value;
            s.pc.move.turn.step !in CommittedSteps(s.disk.ledger, cfg)
  {
    InvariantAlways(cfg, events);
    CommittedMeans(cfg, Execute(cfg, FRESH, events).value.disk);
  }

  lemma WorktreeIsOpen(cfg: Config, events: seq<Event>)
    requires Execute(cfg, FRESH, events).Some?
    requires var pc := Execute(cfg, FRESH, events).value.pc;
             pc.AtHead? || BeforeRow(pc) || AfterRow(pc) || pc.Publishing?
    ensures Execute(cfg, FRESH, events).value.disk.worktree.Some?
  {
    InvariantAlways(cfg, events);
  }

  /** Success always rests on the sandbox: the last row is a positive VERIFY and the sandbox did run and say so. */
  lemma SuccessComesFromTheSandbox(cfg: Config, events: seq<Event>)
    requires Execute(cfg, FRESH, events).Some?
    requires Execute(cfg, FRESH, events).value.disk.task.VerifiedSuccess?
    ensures var s := Execute(cfg, FRESH, events).value;
            && LastIsVerified(s.disk.journal)
            && exists run <- s.world.runs :: run.verified && Verdict(cfg, run.snapshot, run.ops, run.nonce)
  {
    InvariantAlways(cfg, events);
  }

  /** Nothing can happen to a finished task: a later `run` returns at once. */
  lemma TerminalIsFinal(cfg: Config, events: seq<Event>, more: seq<Event>)
    requires Execute(cfg, FRESH, events).Some?
    requires Execute(cfg, FRESH, events).value.disk.task.IsTerminal()
    requires Execute(cfg, Execute(cfg, FRESH, events).value, more).Some?
    ensures more == []
  {
    InvariantAlways(cfg, events);
    NoEventFromDown(cfg, Execute(cfg, FRESH, events).value, more);
  }

  lemma {:induction false} NoEventFromDown(cfg: Config, s: State, more: seq<Event>)
    requires s.pc.Down? && s.disk.task.IsTerminal() && Execute(cfg, s, more).Some?
    ensures more == []
  {
    if more != [] {
      NoEventFromDown(cfg, s, more[..|more| - 1]);
    }
  }

  /** The repair counter is the journal's, also after a resume, and the ceiling can be passed only by crashing. */
  lemma RepairCeiling(cfg: Config, events: seq<Event>)
    requires Execute(cfg, FRESH, events).Some?
    ensures var s := Execute(cfg, FRESH, events).value;
            && CountFailed(s.disk.journal) <= MAX_REPAIR_ATTEMPTS + 1 + s.world.crashes
            && (s.pc.AtHead? ==> s.pc.turn.repairs == CountFailed(s.disk.journal))
  {
    InvariantAlways(cfg, events);
  }

  /** After a failed verification that may still be repaired, the loop head right after the decision holds exactly
      the output that the sandbox recorded, as the newest span of the data channel. A resume from the journal
      before the next call would drop it. */
  lemma RepairSeesTheFailure(cfg: Config, events: seq<Event>)
    requires Execute(cfg, FRESH, events).Some? && Execute(cfg, FRESH, events).value.pc.Deciding?
    requires var s := Execute(cfg, FRESH, events).value;
             s.pc.move.action.kind == Verify && !LastIsVerified(s.disk.journal)
             && CountFailed(s.disk.journal) <= MAX_REPAIR_ATTEMPTS
    ensures var s := Execute(cfg, FRESH, events).value;
            var next := Step(cfg, s, Closing(Decide)).value.pc;
            && s.disk.journal != [] && s.disk.journal[|s.disk.journal| - 1].payload.Verified?
            && next.AtHead? && next.turn.spans != []
            && next.turn.spans[|next.turn.spans| - 1].content == s.disk.journal[|s.disk.journal| - 1].payload.output
            && next.turn.spans[..|next.turn.spans| - 1] == s.pc.move.turn.spans
  {
    InvariantAlways(cfg, events);
    DenseLookups(Execute(cfg, FRESH, events).value.disk.journal);
  }

  /** The gate records an operation once and writes it at most once; each operation recorded but not written
      cost a crash. */
  lemma WrittenAtMostOnce(cfg: Config, events: seq<Event>)
    requires Execute(cfg, FRESH, events).Some?
    ensures var s := Execute(cfg, FRESH, events).value;
            && Distinct(s.disk.artifacts) && Distinct(s.world.applied)
            && (forall h <- s.world.applied :: h in s.disk.artifacts)
            && (s.pc.Down? ==> |s.disk.artifacts| - |s.world.applied| <= s.world.crashes)
  {
    InvariantAlways(cfg, events);
  }

  /** At every VERIFY, after any history: the reassembled patch, applied operation by operation to the worktree,
      yields the worktree itself if and only if no path is stale. */
  lemma SandboxSeesTheWorktree(cfg: Config, events: seq<Event>)
    requires Execute(cfg, FRESH, events).Some? && Execute(cfg, FRESH, events).value.pc.Acting?
    ensures var s := Execute(cfg, FRESH, events).value;
            && s.disk.worktree.Some?
            && var tree := s.disk.worktree.value;
            ApplyAll(tree, CombinedPatch(s.disk.journal, tree)) == tree <==> s.world.stale == {}
  {
    InvariantAlways(cfg, events);
    var s := Execute(cfg, FRESH, events).value;
    PatchIsIdentityIffNothingStale(s.disk.journal, s.disk.worktree.value, s.world.stale);
  }

  /** The step neither kills the runner over a written file that is not journaled, nor journals an edit that the
      content-hash gate suppressed and the worktree does not show. */
  predicate CalmStep(cfg: Config, s: State, e: Event) {
    match Step(cfg, s, e)
    case None => true
    case Some(s') =>
      && (s'.world.crashes > s.world.crashes ==> PendingPaths(s.pc) == {})
      && (e == Recording(AppendJournal) && s.pc.Acted? && s.pc.payload.Edited? && !s.pc.wrote && s.disk.worktree.Some?
          ==> EffectHolds(s.pc.payload.edit, s.disk.worktree.value))
  }

  predicate Calm(cfg: Config, events: seq<Event>) {
    events != [] ==>
      && Calm(cfg, events[..|events| - 1])
      && match Execute(cfg, FRESH, events[..|events| - 1])
         case None => true
         case Some(s) => CalmStep(cfg, s, events[|events| - 1])
  }

  /** An edit that was just written is shown. */
  predicate WrittenShows(s: State) {
    s.pc.Acted? && s.pc.payload.Edited? && s.pc.wrote ==>
      s.disk.worktree.Some? && EffectHolds(s.pc.payload.edit, s.disk.worktree.value)
  }

  lemma WrittenShowsKept(cfg: Config, s: State, e: Event)
    requires WrittenShows(s) && Step(cfg, s, e).Some?
    ensures WrittenShows(Step(cfg, s, e).value)
  {
    if e == Editing(ApplyEdit) && s.disk.worktree.Some? && s.pc.Recorded? {
      EffectHoldsIffApplyingChangesNothing(s.pc.op, s.disk.worktree.value);
    }
  }

  lemma CalmStepKeepsNothingStale(cfg: Config, s: State, e: Event)
    requires WrittenShows(s) && s.world.stale == {} && Step(cfg, s, e).Some? && CalmStep(cfg, s, e)
    ensures Step(cfg, s, e).value.world.stale == {}
  {
  }

  lemma {:induction false} CalmKeepsNothingStale(cfg: Config, events: seq<Event>)
    requires Execute(cfg, FRESH, events).Some? && Calm(cfg, events)
    ensures WrittenShows(Execute(cfg, FRESH, events).value) && Execute(cfg, FRESH, events).value.world.stale == {}
  {
    if events != [] {
      var front, last := events[..|events| - 1], events[|events| - 1];
      var s := Execute(cfg, FRESH, front).value;
      CalmKeepsNothingStale(cfg, front);
      WrittenShowsKept(cfg, s, last);
      CalmStepKeepsNothingStale(cfg, s, last);
    }
  }

  /** The condition on the events alone: in a history without such steps nothing is ever stale, so each VERIFY sees
      the worktree itself. */
  lemma CalmHistoriesSeeTheWorktree(cfg: Config, events: seq<Event>)
    requires Execute(cfg, FRESH, events).Some? && Calm(cfg, events)
    ensures var s := Execute(cfg, FRESH, events).value;
            && s.world.stale == {}
            && (s.pc.Acting? ==>
                  && s.disk.worktree.Some?
                  && var tree := s.disk.worktree.value; ApplyAll(tree, CombinedPatch(s.disk.journal, tree)) == tree)
  {
    CalmKeepsNothingStale(cfg, events);
    if Execute(cfg, FRESH, events).value.pc.Acting? {
      SandboxSeesTheWorktree(cfg, events);
    }
  }

  /** The positive sandbox run behind a publication, and what its tests have to do with the base it leaves. */
  predicate Backs(cfg: Config, run: SandboxRun, pub: Publication) {
    && run.snapshot == pub.worktree
    && Applies(run.ops, cfg.inside) && cfg.tests(run.Tested(), run.nonce)
    && (run.Tested() == pub.worktree <==> pub.stale == {})
    && (pub.stale == {} ==> (run.Tested() == pub.Result() <==> pub.base.Keys <= pub.worktree.Keys))
  }

  /** Behind every publication stands a sandbox run on the published worktree whose tests passed. They saw that
      worktree if and only if no path was stale; and then they saw the base that the publication leaves behind if
      and only if the worktree had every file of the base before. A task that succeeds in apply mode has
      published its worktree. */
  lemma PublishedTreesWereTested(cfg: Config, events: seq<Event>)
    requires Execute(cfg, FRESH, events).Some?
    ensures var s := Execute(cfg, FRESH, events).value;
            && (forall pub <- s.world.published :: exists run <- s.world.runs :: Backs(cfg, run, pub))
            && (s.disk.task.VerifiedSuccess? && cfg.apply ==>
                  && s.world.published != []
                  && s.disk.worktree == Some(s.world.published[|s.world.published| - 1].worktree))
  {
    InvariantAlways(cfg, events);
    var s := Execute(cfg, FRESH, events).value;
    forall pub | pub in s.world.published
      ensures exists run <- s.world.runs :: Backs(cfg, run, pub)
    {
      PublicationIsBacked(cfg, s, pub);
    }
  }

  lemma PublicationIsBacked(cfg: Config, s: State, pub: Publication)
    requires Tested(cfg, s) && pub in s.world.published
    ensures exists run <- s.world.runs :: Backs(cfg, run, pub)
  {
    var run :| run in s.world.runs && Stands(run, pub.worktree, pub.stale);
    OverlayPublishesIff(pub.base, pub.worktree);
    assert Backs(cfg, run, pub);
  }

  // ---------------------------------------------------------------------------------------------
  // Non-interference: a model that reads only the instruction and the step number

  /** The reply text at a step does not depend on the data channel or on anything else. */
  ghost predicate Scripted(cfg: Config, script: nat -> string) {
    forall step: nat, spans: seq<DataSpan>, nonce: int {:trigger cfg.model(step, spans, nonce)} ::
      cfg.model(step, spans, nonce).xml == script(step)
  }

  predicate OnScript(s: State, script: nat -> string) {
    && (forall row <- s.disk.journal :: row.xml == script(row.step))
    && (BeforeRow(s.pc) ==> s.pc.move.reply.xml == script(s.pc.move.turn.step))
  }

  lemma StaysOnScript(cfg: Config, s: State, e: Event, script: nat -> string)
    requires Scripted(cfg, script) && OnScript(s, script) && Step(cfg, s, e).Some?
    ensures OnScript(Step(cfg, s, e).value, script)
  {
  }

  lemma {:induction false} AlwaysOnScript(cfg: Config, events: seq<Event>, script: nat -> string)
    requires Scripted(cfg, script) && Execute(cfg, FRESH, events).Some?
    ensures OnScript(Execute(cfg, FRESH, events).value, script)
  {
    if events != [] {
      var front := events[..|events| - 1];
      AlwaysOnScript(cfg, front, script);
      StaysOnScript(cfg, Execute(cfg, FRESH, front).value, events[|events| - 1], script);
    }
  }

  function Replies(rows: seq<JournalRow>): seq<string> {
    seq(|rows|, i requires 0 <= i < |rows| => rows[i].xml)
  }

  /** Two histories under the same script: whatever the retrieved bytes, verdicts, budgets, crashes and resumes,
      one sequence of journaled replies is a prefix of the other. */
  lemma OneReplySequenceIsAPrefix(cfg1: Config, events1: seq<Event>, cfg2: Config, events2: seq<Event>,
                                  script: nat -> string)
    requires Scripted(cfg1, script) && Scripted(cfg2, script)
    requires Execute(cfg1, FRESH, events1).Some? && Execute(cfg2, FRESH, events2).Some?
    ensures var a := Replies(Execute(cfg1, FRESH, events1).value.disk.journal);
            var b := Replies(Execute(cfg2, FRESH, events2).value.disk.journal);
            a <= b || b <= a
  {
    AlwaysOnScript(cfg1, events1, script);
    AlwaysOnScript(cfg2, events2, script);
    InvariantAlways(cfg1, events1);
    InvariantAlways(cfg2, events2);
    var rows1 := Execute(cfg1, FRESH, events1).value.disk.journal;
    var rows2 := Execute(cfg2, FRESH, events2).value.disk.journal;
    assert forall i :: 0 <= i < |rows1| ==> rows1[i] in rows1 && rows1[i].step == i;
    assert forall i :: 0 <= i < |rows2| ==> rows2[i] in rows2 && rows2[i].step == i;
  }
}
