/**
 The agent loop itself (src/acp/orchestrator/loop.py, class AgentLoop), as the imperative program it is.

 Every durable write is followed by a ghost `Log` of the kernel event it stands for, and `Synced` says that the
 logged events replay, in the kernel, to exactly what is on disk. So every point at which this program can die
 is a state of the kernel, and the theorems of KernelTheorems hold there. `*` stands for the outside world.
 */
module AgentLoop {
  import opened Common
  import opened Actions
  import opened Patches
  import opened Journal
  import opened Ledger
  import opened Kernel
  import opened KernelCharges
  import opened KernelCounts
  import opened KernelTheorems
  import opened KernelOutcomes
  import opened StepEffects
  import Strings

  datatype RenameOutcome = Skipped | Touched | Raised

  datatype StepOutcome = GoOn | Ended | Failed

  class AgentLoop {
    const cfg: Config
    const journal: JournalRepo
    const ledger: LedgerRepo
    var task: TaskState
    var artifacts: seq<string>
    var worktree: Option<Tree>
    var toolCalls: nat

    /** The base commit of the open worktree handle; a new run starts without one. */
    var handle: string

    ghost var events: seq<Event>
    ghost var now: State

    ghost predicate Synced()
      reads this, journal, ledger
    {
      && Execute(cfg, FRESH, events) == Some(now)
      && now.disk == OnDisk()
      && now.handle == handle
    }

    ghost function OnDisk(): Disk
      reads this, journal, ledger
    {
      Disk(task, journal.rows, ledger.rows, artifacts, worktree, toolCalls)
    }

    /** A new task: nothing recorded yet. */
    constructor (cfg: Config)
      ensures Synced() && now == FRESH && this.cfg == cfg && fresh(journal) && fresh(ledger)
    {
      this.cfg := cfg;
      journal := new JournalRepo();
      ledger := new LedgerRepo();
      task, artifacts, worktree, toolCalls, handle := Pending, [], None, 0, "";
      events, now := [], FRESH;
    }

    ghost method Log(e: Event)
      requires Execute(cfg, FRESH, events) == Some(now)
      requires Step(cfg, now, e).Some? && Step(cfg, now, e).value.disk == OnDisk()
      requires Step(cfg, now, e).value.handle == handle
      modifies this`events, this`now
      ensures Synced() && events == old(events) + [e] && now == Step(cfg, old(now), e).value
    {
      ExecuteOneMore(cfg, FRESH, events, e);
      now := Step(cfg, now, e).value;
      events := events + [e];
    }

    /** The log only grew, and the runner died `deaths` times meanwhile. */
    twostate predicate Grew(deaths: nat)
      reads this`events, this`now
    {
      old(events) <= events && now.world.crashes == old(now.world.crashes) + deaths
    }

    /** Run or resume to a terminal state. `finished` is false when a step raised: the task stays resumable. */
    method Run() returns (finished: bool)
      requires Synced() && now.pc.Down?
      modifies this, journal, ledger
      ensures Synced() && now.pc.Down? && Grew(One(!finished))
      ensures finished <==> task.IsTerminal()
      ensures old(task).IsTerminal() ==> OnDisk() == old(OnDisk()) && events == old(events)
      ensures task.BudgetExhausted? && Heading(StopAtHead(true)) !in events ==>
                |journal.rows| == cfg.stepBudget || SpentTokens(ledger.rows, TaskScope(cfg)) >= cfg.tokenBudget
    {
      if task.IsTerminal() {
        BudgetEndHasCause();
        return true;
      }
      var step: nat, repairs: nat, spans := Resume();
      while true
        invariant Synced() && now.pc == AtHead(Turn(step, repairs, spans)) && Grew(0)
        invariant !task.IsTerminal()
        decreases cfg.stepBudget - step
      {
        var late: bool, outside: Outside := *, *;
        var breach := BudgetBreach(step, late);
        if breach {
          StopOnBreach(late);
          BudgetEndHasCause();
          return true;
        }
        var cached := GetStep(step);
        if cached.Some? {
          assert false;
        }
        var outcome;
        outcome, repairs, spans := TakeStep(step, repairs, spans, outside);
        if !outcome.GoOn? {
          BudgetEndHasCause();
          return outcome.Ended?;
        }
        step := step + 1;
      }
    }

    lemma BudgetEndHasCause()
      requires Synced()
      ensures task.BudgetExhausted? && Heading(StopAtHead(true)) !in events ==>
                |journal.rows| == cfg.stepBudget || SpentTokens(ledger.rows, TaskScope(cfg)) >= cfg.tokenBudget
    {
      if task.BudgetExhausted? && Heading(StopAtHead(true)) !in events {
        BudgetStopsOnlyWhenSpent(cfg, events);
      }
    }

    /** One step of the journal: the model call with its effect, then the decision. */
    method TakeStep(step: nat, repairs: nat, spans: seq<DataSpan>, outside: Outside)
      returns (outcome: StepOutcome, repairs': nat, spans': seq<DataSpan>)
      requires Synced() && now.pc == AtHead(Turn(step, repairs, spans)) && !Breached(cfg, OnDisk(), now.pc.turn)
      modifies this`task, this`artifacts, this`worktree, this`toolCalls, this`events, this`now, journal, ledger
      ensures Synced() && Grew(One(outcome.Failed?))
      ensures outcome.Failed? ==> now.pc.Down? && task == old(task)
      ensures outcome.Ended? ==> now.pc.Down? && task.IsTerminal()
      ensures outcome.GoOn? ==> now.pc == AtHead(Turn(step + 1, repairs', spans')) && task == old(task)
    {
      repairs', spans' := repairs, spans;
      var answer := IssueModelCall(step, repairs, spans, outside);
      if answer.None? {
        return Failed, repairs', spans';
      }
      var ended;
      ended, repairs', spans' := Conclude(step, repairs, answer.value.1, answer.value.0);
      outcome := if ended then Ended else GoOn;
    }

    /** Give up, act on a verdict, or go on to the next step. */
    method Conclude(step: nat, repairs: nat, spans: seq<DataSpan>, action: AgentAction)
      returns (ended: bool, repairs': nat, spans': seq<DataSpan>)
      requires Synced() && now.pc.Deciding? && now.pc.move.turn == Turn(step, repairs, spans)
      requires now.pc.move.action == action
      modifies this`task, this`events, this`now
      ensures Synced() && Grew(0)
      ensures ended ==> now.pc.Down? && task.IsTerminal()
      ensures !ended ==> now.pc == AtHead(Turn(step + 1, repairs', spans')) && task == old(task)
    {
      repairs', spans' := repairs, spans;
      if action.kind == GiveUp {
        LogDecision(step, repairs, spans);
        Terminate(GaveUp);
        return true, repairs', spans';
      }
      if action.kind == Verify {
        var failure := AfterVerify(step, repairs, spans);
        if failure.None? {
          return true, repairs', spans';
        }
        return false, repairs + 1, spans + [failure.value];
      }
      LogDecision(step, repairs, spans);
      return false, repairs', spans';
    }

    /** Reconcile the ledger, mark the task running, open the worktree, recover the loop's variables. */
    method Resume() returns (step: nat, repairs: nat, spans: seq<DataSpan>)
      requires Synced() && now.pc.Down? && !task.IsTerminal()
      modifies this`task, this`worktree, this`handle, this`events, this`now, ledger
      ensures Synced() && now.pc == AtHead(Turn(step, repairs, spans)) && Grew(0) && task == Running
    {
      Log(Resuming(Start));
      ChargeFromJournal();
      BecomeRunning();
      step, repairs, spans := OpenWorktree();
    }

    /** None: the task has ended. Otherwise the failure to show the model in the next repair attempt. */
    method AfterVerify(step: nat, repairs: nat, spans: seq<DataSpan>) returns (failure: Option<DataSpan>)
      requires Synced() && now.pc.Deciding? && now.pc.move.turn == Turn(step, repairs, spans)
      requires now.pc.move.action.kind == Verify
      modifies this`task, this`events, this`now
      ensures Synced() && Grew(0)
      ensures failure.None? ==> now.pc.Down? && task.IsTerminal()
      ensures failure.Some? ==> now.pc == AtHead(Turn(step + 1, repairs + 1, spans + [failure.value]))
      ensures failure.Some? ==> task == old(task)
    {
      hide StepResume, StepHead, StepRetrieve, StepEdit, StepRename, StepSandbox, StepRecord, Execute;
      if VerifiedAt(journal.rows, step) {
        WorktreeIsOpen(cfg, events);
        Log(Closing(Decide));
        var found: CommitView := *;
        var conflict := CommitIfApply(found);
        Terminate(if conflict then GaveUp else VerifiedSuccess);
        return None;
      }
      Log(Closing(Decide));
      if repairs >= MAX_REPAIR_ATTEMPTS {
        Terminate(GaveUp);
        return None;
      }
      return Some(FailureSpan(journal.rows, step));
    }

    method StopOnBreach(late: bool)
      requires Synced() && now.pc.AtHead? && (late || Breached(cfg, OnDisk(), now.pc.turn))
      modifies this`task, this`events, this`now
      ensures Synced() && now.pc.Down? && task == BudgetExhausted && Grew(0)
    {
      Log(Heading(StopAtHead(late)));
      Terminate(BudgetExhausted);
    }

    ghost method LogDecision(step: nat, repairs: nat, spans: seq<DataSpan>)
      requires Synced() && now.pc.Deciding? && now.pc.move.turn == Turn(step, repairs, spans)
      requires now.pc.move.action.kind != Verify
      modifies this`events, this`now
      ensures Synced() && Grew(0)
      ensures now.pc == if old(now).pc.move.action.kind == GiveUp then Ending(GaveUp)
                        else AtHead(Turn(step + 1, repairs, spans))
    {
      assert spans + [] == spans;
      Log(Closing(Decide));
    }

    /** Adds the commit of every journaled step that lacks one. */
    method ChargeFromJournal()
      requires Synced() && now.pc.Reconciling?
      modifies this`events, this`now, ledger
      ensures Synced() && now.pc.Reconciling? && Grew(0)
      ensures ChargedUpTo(|journal.rows|)
    {
      var trace := GetTrace();
      var committed := CommittedSteps(ledger.rows, cfg);
      for i := 0 to |trace|
        invariant Synced() && now.pc.Reconciling? && Grew(0)
        invariant trace == journal.rows && committed == CommittedSteps(ledger.rows, cfg)
        invariant ChargedUpTo(i)
      {
        if trace[i].step !in committed {
          Reconcile(trace[i], i);
          committed := committed + {trace[i].step};
        }
      }
    }

    ghost predicate ChargedUpTo(n: nat)
      reads this, journal, ledger
    {
      n <= |journal.rows| && forall j :: 0 <= j < n ==> journal.rows[j].step in CommittedSteps(ledger.rows, cfg)
    }

    method GetTrace() returns (trace: seq<JournalRow>)
      requires Synced()
      ensures trace == journal.rows
    {
      TraceIsTheJournal(cfg, events);
      trace := Trace(journal.rows);
    }

    method GetStep(step: nat) returns (cached: Option<JournalRow>)
      requires Synced() && now.pc.AtHead? && now.pc.turn.step == step
      ensures cached.None?
    {
      RunStructure(cfg, events);
      cached := RowAt(journal.rows, step);
    }

    method Reconcile(entry: JournalRow, ghost i: nat)
      requires Synced() && now.pc.Reconciling?
      requires i < |journal.rows| && entry == journal.rows[i]
      requires ChargedUpTo(i) && entry.step !in CommittedSteps(ledger.rows, cfg)
      modifies this`events, this`now, ledger
      ensures Synced() && now.pc.Reconciling? && Grew(0)
      ensures CommittedSteps(ledger.rows, cfg) == old(CommittedSteps(ledger.rows, cfg)) + {entry.step}
      ensures ChargedUpTo(i + 1)
    {
      FirstUnchargedIs(journal.rows, CommittedSteps(ledger.rows, cfg), i);
      CommittedStepsAppend(ledger.rows, ReconcileCommit(cfg, entry), cfg);
      var step, charge := entry.step, entry.charge;
      ledger.Append(LedgerRow(cfg.Scope(), Commit, Some(cfg.taskId), Some(step), charge, "reconcile:model"));
      Log(Resuming(ReconcileOne));
    }

    method BecomeRunning()
      requires Synced() && now.pc.Reconciling?
      requires ChargedUpTo(|journal.rows|)
      modifies this`task, this`events, this`now
      ensures Synced() && now.pc.Opening? && task == Running && Grew(0)
    {
      FirstUnchargedIs(journal.rows, CommittedSteps(ledger.rows, cfg), |journal.rows|);
      task := Running;
      Log(Resuming(ReconcileDone));
    }

    /** Copies the base on first open only, then recovers the loop's variables from the journal. */
    method OpenWorktree() returns (step: nat, repairs: nat, spans: seq<DataSpan>)
      requires Synced() && now.pc.Opening?
      modifies this`worktree, this`handle, this`events, this`now
      ensures Synced() && now.pc == AtHead(Turn(step, repairs, spans)) && Grew(0)
    {
      var base: Tree, head: string := *, *;
      if worktree.None? {
        worktree := Some(base);
      }
      handle := head;
      Log(Resuming(Open(base, head)));
      var trace := GetTrace();
      spans := ReplaySpans(trace);
      step := NextStep(trace);
      repairs := CountRepairAttempts(trace);
    }

    /** `late` is the clock's answer: the run is past its wall-clock budget. */
    method BudgetBreach(step: nat, late: bool) returns (breach: bool)
      requires Synced() && now.pc.AtHead? && now.pc.turn.step == step
      ensures breach <==> late || step >= cfg.stepBudget || SpentTokens(ledger.rows, TaskScope(cfg)) >= cfg.tokenBudget
      ensures breach <==> late || Breached(cfg, OnDisk(), now.pc.turn)
    {
      if step >= cfg.stepBudget {
        return true;
      }
      if late {
        return true;
      }
      return SpentTokens(ledger.rows, cfg.Scope()) >= cfg.tokenBudget;
    }

    /** One paid call, one effect, one journal row, one commit. None when the step raised. */
    method IssueModelCall(step: nat, repairs: nat, spans: seq<DataSpan>, outside: Outside)
      returns (answer: Option<(AgentAction, seq<DataSpan>)>)
      requires Synced() && now.pc == AtHead(Turn(step, repairs, spans)) && !Breached(cfg, OnDisk(), now.pc.turn)
      modifies this`artifacts, this`worktree, this`toolCalls, this`events, this`now, journal, ledger
      ensures Synced() && Grew(One(answer.None?)) && old(worktree).Some?
      ensures answer.None? ==> now.pc.Down? && StepRaised(cfg, step, outside, spans, old(OnDisk()), OnDisk())
      ensures answer.Some? ==> now.pc.Deciding? && now.pc.move.action == answer.value.0
                               && now.pc.move.turn == Turn(step, repairs, answer.value.1)
      ensures answer.Some? ==>
                exists effected, payload ::
                  StepDone(cfg, step, outside, spans, old(OnDisk()), effected, OnDisk(), answer.value.0,
                           answer.value.1, payload)
    {
      hide EffectShown, EffectRaises, RowAndCharge, Breached, Spent, Step, Execute;
      WorktreeIsOpen(cfg, events);
      var reply, parsed := AskModel(step, repairs, spans, outside.nonce);
      if parsed.None? {
        return None;
      }
      var action := parsed.value;
      var effect := RunEffect(action, spans, outside);
      if effect.None? {
        return None;
      }
      var payload, told := effect.value.0, effect.value.1;
      ghost var effected := OnDisk();
      JournalAndCharge(step, action, reply, payload);
      assert StepDone(cfg, step, outside, spans, old(OnDisk()), effected, OnDisk(), action, told, payload);
      return Some((action, told));
    }

    /** The row that carries the reply and the effect, the commit of the reply's charge, the metering. */
    method JournalAndCharge(step: nat, action: AgentAction, reply: Reply, payload: Payload)
      requires Synced() && now.pc.Acted? && now.pc.payload == payload
      requires now.pc.move.action == action && now.pc.move.reply == reply && now.pc.move.turn.step == step
      modifies this`toolCalls, this`events, this`now, journal, ledger
      ensures Synced() && now.pc == Deciding(old(now.pc.move)) && Grew(0)
      ensures RowAndCharge(cfg, step, action, reply, payload, old(OnDisk()), OnDisk())
    {
      hide RowAt, CommittedSteps, Step, Execute;
      AppendRow(JournalRow(step, StepKindOf(action.kind), reply.xml, reply.tokensIn + reply.tokensOut, payload));
      CommitStepCharge(step, reply.tokensIn + reply.tokensOut, "model:" + KindName(action.kind));
      BumpTaskTokens();
    }

    method AskModel(step: nat, repairs: nat, spans: seq<DataSpan>, nonce: int)
      returns (reply: Reply, parsed: Option<AgentAction>)
      requires Synced() && now.pc == AtHead(Turn(step, repairs, spans)) && !Breached(cfg, OnDisk(), now.pc.turn)
      modifies this`events, this`now
      ensures Synced() && Grew(One(parsed.None?))
      ensures reply == cfg.model(step, spans, nonce) && parsed == cfg.parse(reply.xml)
      ensures parsed.None? ==> now.pc.Down?
      ensures parsed.Some? ==> now.pc == Acting(Move(Turn(step, repairs, spans), reply, parsed.value))
    {
      reply := cfg.model(step, spans, nonce);
      parsed := cfg.parse(reply.xml);
      Log(Heading(CallModel(nonce)));
    }

    method AppendRow(row: JournalRow)
      requires Synced() && now.pc.Acted? && row == RowOf(now.pc.move, now.pc.payload)
      modifies this`events, this`now, journal
      ensures Synced() && now.pc == Journaled(old(now.pc.move)) && Grew(0)
      ensures journal.rows == old(journal.rows) + [row]
    {
      AppendIsFresh(cfg, events);
      var entry, created := journal.Append(row);
      Log(Recording(AppendJournal));
    }

    method CommitStepCharge(step: nat, tokens: nat, note: string)
      requires Synced() && now.pc.Journaled?
      requires ModelCommit(cfg, now.pc.move) == CommitRow(cfg, step, tokens, note) && now.pc.move.turn.step == step
      modifies this`events, this`now, ledger
      ensures Synced() && now.pc == Charged(old(now.pc.move)) && Grew(0)
      ensures ledger.rows == old(ledger.rows)
                             + [LedgerRow(TaskScope(cfg), EntryKind.Commit, Some(cfg.taskId), Some(step), tokens, note)]
    {
      hide StepResume, StepHead, StepRetrieve, StepEdit, StepRename, StepSandbox, StepEnd, Execute;
      CommitIsFresh(cfg, events);
      if step !in CommittedSteps(ledger.rows, cfg) {
        ledger.Append(LedgerRow(cfg.Scope(), EntryKind.Commit, Some(cfg.taskId), Some(step), tokens, note));
      }
      Log(Recording(CommitCharge));
    }

    method BumpTaskTokens()
      requires Synced() && now.pc.Charged?
      modifies this`toolCalls, this`events, this`now
      ensures Synced() && now.pc == Deciding(old(now.pc.move)) && Grew(0) && toolCalls == old(toolCalls) + 1
    {
      toolCalls := toolCalls + 1;
      Log(Recording(Meter));
    }

    /** None: the effect raised. Otherwise the payload for the journal row and the data channel afterwards. */
    ghost predicate EffectDone(m: Move, effect: Option<(Payload, seq<DataSpan>)>)
      reads this`now
    {
      match effect
      case None => now.pc.Down?
      case Some((payload, spans)) =>
        now.pc.Acted? && now.pc.payload == payload && now.pc.move == m.(turn := m.turn.(spans := spans))
    }

    method RunEffect(action: AgentAction, spans: seq<DataSpan>, outside: Outside)
      returns (effect: Option<(Payload, seq<DataSpan>)>)
      requires Synced() && now.pc.Acting? && worktree.Some?
      requires now.pc.move.action == action && now.pc.move.turn.spans == spans
      modifies this`artifacts, this`worktree, this`events, this`now, ledger
      ensures Synced() && Grew(One(effect.None?)) && EffectDone(old(now.pc.move), effect)
      ensures effect.None? <==> EffectRaises(cfg, action, outside, old(OnDisk()))
      ensures effect.Some? ==>
                EffectShown(cfg, action, outside, old(OnDisk()), OnDisk(), spans, effect.value.1, effect.value.0)
      ensures effect.Some? ==> Spent(cfg, OnDisk()) == Spent(cfg, old(OnDisk())) + EffectCost(action, outside)
    {
      hide StepResume, StepHead, StepEdit, StepRename, StepSandbox, StepRecord, StepEnd, Execute;
      match action.kind
      case Plan | GiveUp =>
        Log(Retrieving(NoEffect));
        effect := Some((Nothing, spans));
      case Retrieve =>
        effect := DoRetrieve(action, spans, outside.lookup);
      case Edit =>
        effect := DoEdit(action, spans);
      case Rename =>
        effect := DoRename(action, spans, outside.affected);
      case Verify =>
        effect := DoVerify(action, spans, outside.boxNonce, outside.output);
    }

    /** Only `definition` does any work; each metered call is refused when the budget does not cover it. */
    method DoRetrieve(action: AgentAction, spans: seq<DataSpan>, lookup: Lookup)
      returns (effect: Option<(Payload, seq<DataSpan>)>)
      requires Synced() && now.pc.Acting? && now.pc.move.action == action && now.pc.move.turn.spans == spans
      requires action.kind == Retrieve
      modifies this`events, this`now, ledger
      ensures Synced() && Grew(One(effect.None?)) && EffectDone(old(now.pc.move), effect)
      ensures effect.None? <==> RetrieveRefused(cfg, old(OnDisk()), action, lookup)
      ensures effect.Some? ==> SpanTold(action, lookup, spans, effect.value.1, effect.value.0)
      ensures effect.Some? ==> Spent(cfg, OnDisk()) == Spent(cfg, old(OnDisk())) + RetrieveCost(action, lookup)
    {
      hide StepResume, StepHead, StepEdit, StepRename, StepSandbox, StepRecord, StepEnd, Execute;
      var span := DataSpan(DefaultOrigin(action), "");
      Log(Retrieving(BeginRetrieve(lookup)));
      if Primitive(action) == "definition" {
        var granted := AskForDefinition(lookup);
        if !granted {
          return None;
        }
        if lookup.found.Some? {
          span := DataSpan(SpanOrigin(lookup.found.value), lookup.found.value.content);
        }
      }
      Log(Retrieving(EndRetrieve));
      return Some((Retrieved(span.origin), spans + [span]));
    }

    /** The two metered calls of the retrieval service. */
    method AskForDefinition(lookup: Lookup) returns (granted: bool)
      requires Synced() && now.pc.Charging?
      requires now.pc.costs == if lookup.found.Some? then [lookup.symbolCost, lookup.spanCost] else [lookup.symbolCost]
      modifies this`events, this`now, ledger
      ensures Synced() && Grew(One(!granted))
      ensures !granted ==> now.pc.Down?
      ensures granted ==> now.pc == Charging(old(now.pc.move), [], old(now.pc.span))
      ensures var more := if lookup.found.Some? then lookup.spanCost else 0;
              && (granted <==> lookup.symbolCost <= Room(cfg, old(OnDisk()))
                               && (lookup.found.Some? ==> lookup.symbolCost + more <= Room(cfg, old(OnDisk()))))
              && (granted ==> Spent(cfg, OnDisk()) == Spent(cfg, old(OnDisk())) + lookup.symbolCost + more)
    {
      hide Spent, Room;
      granted := ChargeRetrieved(lookup.symbolCost, "definition");
      if granted && lookup.found.Some? {
        granted := ChargeRetrieved(lookup.spanCost, "read_span");
      }
    }

    method ChargeRetrieved(cost: nat, note: string) returns (granted: bool)
      requires Synced() && now.pc.Charging? && now.pc.costs != [] && now.pc.costs[0] == cost
      modifies this`events, this`now, ledger
      ensures Synced() && Grew(One(!granted))
      ensures granted <==> cost <= Room(cfg, old(OnDisk()))
      ensures !granted ==> now.pc.Down?
      ensures granted ==>
                && now.pc == Charging(old(now.pc.move), old(now.pc.costs[1..]), old(now.pc.span))
                && Room(cfg, OnDisk()) == Room(cfg, old(OnDisk())) - cost
                && Spent(cfg, OnDisk()) == Spent(cfg, old(OnDisk())) + cost
    {
      ChargeMovesOnlyItsScope(ledger.rows, cfg.Scope(), cost, None, None, note, cfg.Scope());
      granted := ledger.ChargeAtomic(cfg.Scope(), cost, cfg.tokenBudget, None, None, note);
      Log(Retrieving(ChargeRetrieval(note)));
    }

    /** Refuses a path outside the worktree; otherwise deletes or writes the file. */
    method ApplyOpToWorktree(op: PatchOp) returns (applied: bool)
      requires worktree.Some?
      modifies this`worktree
      ensures applied == cfg.inside(op.path)
      ensures worktree == if applied then Some(ApplyToWorktree(old(worktree).value, op)) else old(worktree)
    {
      if !cfg.inside(op.path) {
        return false;
      }
      if op.op == "delete" {
        worktree := Some(worktree.value - {op.path});
      } else {
        worktree := Some(worktree.value[op.path := op.content]);
      }
      return true;
    }

    /** The artifact row first, then the file: the row is the gate against applying twice. */
    method DoEdit(action: AgentAction, spans: seq<DataSpan>) returns (effect: Option<(Payload, seq<DataSpan>)>)
      requires Synced() && now.pc.Acting? && worktree.Some?
      requires now.pc.move.action == action && now.pc.move.turn.spans == spans && action.kind == Edit
      modifies this`artifacts, this`worktree, this`events, this`now
      ensures Synced() && Grew(One(effect.None?)) && EffectDone(old(now.pc.move), effect)
      ensures effect.None? <==> EditRaises(cfg, old(OnDisk()), action)
      ensures effect.Some? ==>
                && worktree.Some? && effect.value.1 == spans && effect.value.0.Edited?
                && AskedFor(action, effect.value.0.edit) && EditDone(cfg, effect.value.0.edit, old(OnDisk()), OnDisk())
    {
      if "file_path" !in action.fields {
        Log(Editing(BeginEdit));
        return None;
      }
      var op := EditOp(action);
      assert AskedFor(action, op);
      assert forall other :: AskedFor(action, other) ==> other == op;
      var done := EditFile(op);
      return if done then Some((Edited(op), spans)) else None;
    }

    method EditFile(op: PatchOp) returns (done: bool)
      requires Synced() && now.pc.Acting? && worktree.Some? && now.pc.move.action.kind == Edit
      requires "file_path" in now.pc.move.action.fields && op == EditOp(now.pc.move.action)
      modifies this`artifacts, this`worktree, this`events, this`now
      ensures Synced() && Grew(One(!done)) && worktree.Some?
      ensures now.pc.Down? || now.pc.Acted?
      ensures done <==> now.pc.Acted?
      ensures done ==> now.pc.move == old(now.pc.move) && now.pc.payload == Edited(op)
      ensures done <==> cfg.hash(op) in old(artifacts) || cfg.inside(op.path)
      ensures done ==> EditDone(cfg, op, old(OnDisk()), OnDisk())
    {
      hide StepResume, StepHead, StepRetrieve, StepRename, StepSandbox, StepRecord, StepEnd, Execute;
      var contentHash := cfg.hash(op);
      if contentHash in artifacts {
        Log(Editing(BeginEdit));
        return true;
      }
      artifacts := artifacts + [contentHash];
      Log(Editing(BeginEdit));
      done := ApplyOpToWorktree(op);
      Log(Editing(ApplyEdit));
    }

    /** Rewrites every file the index flags, each through the same gate. */
    method DoRename(action: AgentAction, spans: seq<DataSpan>, affected: set<Path>)
      returns (effect: Option<(Payload, seq<DataSpan>)>)
      requires Synced() && now.pc.Acting? && worktree.Some?
      requires now.pc.move.action == action && now.pc.move.turn.spans == spans && action.kind == Rename
      modifies this`artifacts, this`worktree, this`events, this`now
      ensures Synced() && Grew(One(effect.None?)) && EffectDone(old(now.pc.move), effect)
      ensures var oldName, newName := NameOf(action, "old_name"), NameOf(action, "new_name");
              && (effect.None? <==> RenameRaises(cfg, old(OnDisk()), affected, oldName, newName))
              && (effect.Some? ==>
                    && worktree.Some? && effect.value.1 == spans && effect.value.0.Renamed?
                    && if oldName == "" || newName == ""
                       then SameFiles(old(OnDisk()), OnDisk()) && effect.value.0.files == []
                       else RenameDone(cfg, old(OnDisk()), affected, oldName, newName, worktree.value,
                                       effect.value.0.files))
    {
      hide StepResume, StepHead, StepRetrieve, StepEdit, StepSandbox, StepRecord, StepEnd, Execute;
      var oldName, newName := action.Field("old_name", ""), action.Field("new_name", "");
      Log(RenamingFiles(BeginRename(affected)));
      if oldName == "" || newName == "" {
        return Some((Renamed([]), spans));
      }
      var files := RenameAll(affected, oldName, newName);
      if files.None? {
        return None;
      }
      Log(RenamingFiles(EndRename));
      return Some((Renamed(files.value), spans));
    }

    /** The loop over the flagged files, in path order. None: a write raised. */
    method RenameAll(affected: set<Path>, oldName: string, newName: string) returns (files: Option<seq<Path>>)
      requires Synced() && worktree.Some? && oldName != "" && newName != ""
      requires now.pc.Renaming? && now.pc.todo == Strings.SortedKeys(affected) && now.pc.files == []
      requires oldName == now.pc.move.action.Field("old_name", "")
      requires newName == now.pc.move.action.Field("new_name", "")
      modifies this`artifacts, this`worktree, this`events, this`now
      ensures Synced() && Grew(One(files.None?)) && worktree.Some?
      ensures files.None? ==> now.pc.Down?
      ensures files.Some? ==> now.pc.Renaming? && now.pc.move == old(now).pc.move && now.pc.todo == []
                              && now.pc.files == files.value
      ensures files.None? <==> RenameRaises(cfg, old(OnDisk()), affected, oldName, newName)
      ensures files.Some? ==>
                RenameDone(cfg, old(OnDisk()), affected, oldName, newName, worktree.value, files.value)
    {
      hide RenamedUpTo, RenameDone, IsRewritten, FileDone, FileRaises, Step, Execute;
      ghost var before := OnDisk();
      var todo := Strings.SortedKeys(affected);
      var list: seq<Path> := [];
      NoFileYet(cfg, before, affected, oldName, newName);
      assert todo[..0] == [] && todo[0..] == todo;
      for i := 0 to |todo|
        invariant Synced() && Grew(0) && worktree.Some?
        invariant now.pc.Renaming? && now.pc.move == old(now).pc.move
        invariant now.pc.todo == todo[i..] && now.pc.files == list
        invariant RenamedUpTo(cfg, before, affected, todo[..i], oldName, newName, worktree.value, artifacts, list)
      {
        assert todo[i..][1..] == todo[i + 1..];
        ghost var t, a := worktree.value, artifacts;
        var outcome := RenameOne(todo[i], oldName, newName);
        if outcome.Raised? {
          RaisesHere(cfg, before, affected, todo, i, oldName, newName, t, a, list);
          return None;
        }
        OneMoreFile(cfg, before, affected, todo, i, oldName, newName, t, a, list, worktree.value, artifacts,
                    outcome.Touched?);
        if outcome.Touched? {
          list := list + [todo[i]];
        }
      }
      assert todo[..|todo|] == todo;
      AllFilesDone(cfg, before, affected, todo, oldName, newName, worktree.value, artifacts, list);
      return Some(list);
    }

    method RenameOne(p: Path, oldName: string, newName: string) returns (outcome: RenameOutcome)
      requires Synced() && now.pc.Renaming? && now.pc.todo != [] && now.pc.todo[0] == p && worktree.Some?
      requires oldName == now.pc.move.action.Field("old_name", "")
      requires newName == now.pc.move.action.Field("new_name", "")
      modifies this`artifacts, this`worktree, this`events, this`now
      ensures Synced() && Grew(One(outcome.Raised?)) && worktree.Some?
      ensures outcome.Raised? ==> now.pc.Down?
      ensures !outcome.Raised? ==>
                && now.pc.Renaming? && now.pc.move == old(now).pc.move && now.pc.todo == old(now).pc.todo[1..]
                && now.pc.files == old(now).pc.files + (if outcome.Touched? then [p] else [])
      ensures outcome.Raised? ==> FileRaises(cfg, p, oldName, newName, old(worktree).value, old(artifacts))
      ensures !outcome.Raised? ==>
                FileDone(cfg, p, oldName, newName, old(worktree).value, old(artifacts), worktree.value, artifacts,
                         outcome.Touched?)
    {
      hide StepResume, StepHead, StepRetrieve, StepEdit, StepSandbox, StepRecord, StepEnd, Execute, StaleAfterDeath;
      if p !in worktree.value {
        Log(RenamingFiles(RenameFile));
        return Skipped;
      }
      var original := worktree.value[p];
      var updated := cfg.rewrite(original, oldName, newName);
      if updated == original {
        Log(RenamingFiles(RenameFile));
        return Skipped;
      }
      var op := PatchOp("write", p, updated);
      var contentHash := cfg.hash(op);
      if contentHash in artifacts {
        Log(RenamingFiles(RenameFile));
        return Touched;
      }
      artifacts := artifacts + [contentHash];
      Log(RenamingFiles(RenameFile));
      var applied := WriteRenamed(op);
      return if applied then Touched else Raised;
    }

    method WriteRenamed(op: PatchOp) returns (applied: bool)
      requires Synced() && now.pc.RenameRecorded? && now.pc.op == op && op.op == "write" && worktree.Some?
      modifies this`worktree, this`events, this`now
      ensures Synced() && Grew(One(!applied)) && worktree.Some? && applied == cfg.inside(op.path)
      ensures !applied ==> now.pc.Down?
      ensures applied ==> now.pc == Renaming(old(now).pc.move, old(now).pc.todo, old(now).pc.files + [op.path], true)
      ensures applied ==> worktree.value == old(worktree).value[op.path := op.content]
    {
      applied := ApplyOpToWorktree(op);
      Log(RenamingFiles(ApplyRename));
    }

    /** The verdict is the sandbox's alone: its own copy, the reassembled patch, then the tests. */
    method DoVerify(action: AgentAction, spans: seq<DataSpan>, nonce: int, output: string)
      returns (effect: Option<(Payload, seq<DataSpan>)>)
      requires Synced() && now.pc.Acting? && worktree.Some?
      requires now.pc.move.action == action && now.pc.move.turn.spans == spans && action.kind == Verify
      modifies this`events, this`now
      ensures Synced() && Grew(One(effect.None?)) && EffectDone(old(now.pc.move), effect)
      ensures effect.Some? && effect.value.1 == spans && VerdictGiven(cfg, OnDisk(), nonce, output, effect.value.0)
    {
      hide StepResume, StepHead, StepRetrieve, StepEdit, StepRename, StepRecord, StepEnd;
      hide Execute, ApplyAll, CombinedPatch;
      var trace := GetTrace();
      var ops := BuildCombinedPatch(trace, worktree.value);
      var box := new SandboxWork(worktree.value);
      var applied, ran := box.ApplyPatch(ops, cfg.inside);
      var verified := applied && cfg.tests(box.work, nonce);
      Log(RunSandbox(nonce, output));
      return Some((Verified(verified, output), spans));
    }

    /** In apply mode the verified worktree goes back through the guarded commit. It is rejected if and only if the
        lock cannot be had or the head is no longer the handle's; otherwise it is overlaid on the base found. */
    method CommitIfApply(found: CommitView) returns (conflict: bool)
      requires Synced() && now.pc == (if cfg.apply then Publishing else Ending(VerifiedSuccess)) && worktree.Some?
      modifies this`events, this`now
      ensures Synced() && Grew(0)
      ensures now.pc == Ending(if conflict then GaveUp else VerifiedSuccess)
      ensures conflict <==> cfg.apply && (found.LockTimeout? || found.head != handle)
      ensures now.world.published
           == old(now).world.published
              + (if cfg.apply && !conflict then [Publication(found.base, worktree.value, now.world.stale)] else [])
    {
      if !cfg.apply {
        return false;
      }
      conflict := found.LockTimeout? || found.head != handle;
      Log(Closing(Publish(found)));
    }

    method Terminate(verdict: TaskState)
      requires Synced() && now.pc == Ending(verdict)
      modifies this`task, this`events, this`now
      ensures Synced() && now.pc.Down? && task == verdict && Grew(0)
    {
      task := verdict;
      Log(Closing(Finish));
    }
  }
}
