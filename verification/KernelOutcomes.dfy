/**
 What the end of a task, its decisions and its data channel say about its history, in terms of the durable rows
 alone: why a task stopped, what a verdict leads to, which spans the next call of the model sees.
 */
module KernelOutcomes {
  import opened Common
  import opened Actions
  import opened Patches
  import opened Journal
  import opened Ledger
  import opened Kernel
  import opened KernelStructure
  import opened KernelTheorems

  // ---------------------------------------------------------------------------------------------
  // Why a task ended

  /** The last row's reply was an action of this kind. */
  predicate EndsOn(cfg: Config, rows: seq<JournalRow>, kind: ActionKind) {
    rows != [] && cfg.parse(rows[|rows| - 1].xml).Some? && cfg.parse(rows[|rows| - 1].xml).value.kind == kind
  }

  /** The journal is full or the budget is spent. */
  predicate NothingLeft(cfg: Config, d: Disk) {
    |d.journal| >= cfg.stepBudget || SpentTokens(d.ledger, "task:" + cfg.taskId) >= cfg.tokenBudget
  }

  /** The model gave up; or a verification failed that may not be repaired again; or the commit was refused. */
  predicate NoWayOn(cfg: Config, rows: seq<JournalRow>) {
    || EndsOn(cfg, rows, GiveUp)
    || (EndsOn(cfg, rows, Verify) && IsFailedVerify(rows[|rows| - 1]) && CountFailed(rows) > 3)
    || (EndsOn(cfg, rows, Verify) && LastIsVerified(rows) && cfg.apply)
  }

  predicate Reached(s: State, verdict: TaskState) {
    s.pc == Ending(verdict) || s.disk.task == verdict
  }

  ghost predicate EndFits(cfg: Config, s: State, late: bool) {
    && (BeforeRow(s.pc) || AfterRow(s.pc) ==> cfg.parse(s.pc.move.reply.xml) == Some(s.pc.move.action))
    && (s.pc.Publishing? ==> EndsOn(cfg, s.disk.journal, Verify) && cfg.apply)
    && (Reached(s, GaveUp) ==> NoWayOn(cfg, s.disk.journal))
    && (Reached(s, BudgetExhausted) ==> late || NothingLeft(cfg, s.disk))
  }

  predicate StopsLate(e: Event) {
    e == Heading(StopAtHead(true))
  }

  lemma EndKeptByEnd(cfg: Config, s: State, e: EndEvent, late: bool)
    requires Structure(cfg, s) && EndFits(cfg, s, late) && StepEnd(cfg, s, e).Some?
    ensures EndFits(cfg, StepEnd(cfg, s, e).value, late)
  {
    DenseLookups(s.disk.journal);
  }

  lemma EndKeptByRecord(cfg: Config, s: State, e: RecordEvent, late: bool)
    requires Structure(cfg, s) && EndFits(cfg, s, late) && StepRecord(cfg, s, e).Some?
    ensures EndFits(cfg, StepRecord(cfg, s, e).value, late)
  {
  }

  /** An effect keeps the reply and the action, and ends nothing. */
  predicate IsEffect(e: Event) {
    e.Retrieving? || e.Editing? || e.RenamingFiles? || e.RunSandbox?
  }

  predicate SameMove(s: State, s': State) {
    && s'.disk.task == s.disk.task && s'.disk.journal == s.disk.journal && !s'.pc.Ending? && !s'.pc.Publishing?
    && (BeforeRow(s'.pc) || AfterRow(s'.pc) ==>
          BeforeRow(s.pc) && s'.pc.move.reply == s.pc.move.reply && s'.pc.move.action == s.pc.move.action)
  }

  lemma RetrievingKeepsMove(cfg: Config, s: State, e: RetrieveEvent)
    requires StepRetrieve(cfg, s, e).Some?
    ensures SameMove(s, StepRetrieve(cfg, s, e).value)
  {
  }

  lemma EditingKeepsMove(cfg: Config, s: State, e: EditEvent)
    requires StepEdit(cfg, s, e).Some?
    ensures SameMove(s, StepEdit(cfg, s, e).value)
  {
  }

  lemma RenamingKeepsMove(cfg: Config, s: State, e: RenameEvent)
    requires StepRename(cfg, s, e).Some?
    ensures SameMove(s, StepRename(cfg, s, e).value)
  {
  }

  lemma EffectKeepsMove(cfg: Config, s: State, e: Event)
    requires Step(cfg, s, e).Some? && IsEffect(e)
    ensures SameMove(s, Step(cfg, s, e).value)
  {
    hide StepRetrieve, StepEdit, StepRename;
    match e
    case Retrieving(r) => RetrievingKeepsMove(cfg, s, r);
    case Editing(ed) => EditingKeepsMove(cfg, s, ed);
    case RenamingFiles(r) => RenamingKeepsMove(cfg, s, r);
    case _ =>
  }

  lemma EndKeptByEffect(cfg: Config, s: State, e: Event, late: bool)
    requires Structure(cfg, s) && EndFits(cfg, s, late) && Step(cfg, s, e).Some? && IsEffect(e)
    requires !s.pc.Down?
    ensures EndFits(cfg, Step(cfg, s, e).value, late)
  {
    hide Step, Execute, NoWayOn, NothingLeft;
    EffectKeepsMove(cfg, s, e);
  }

  lemma EndKeptElse(cfg: Config, s: State, e: Event, late: bool)
    requires Structure(cfg, s) && EndFits(cfg, s, late) && Step(cfg, s, e).Some?
    requires e.Crash? || e.Resuming? || e.Heading?
    ensures EndFits(cfg, Step(cfg, s, e).value, late || StopsLate(e))
  {
    hide NoWayOn;
  }

  lemma EndKept(cfg: Config, s: State, e: Event, late: bool)
    requires Structure(cfg, s) && EndFits(cfg, s, late) && Step(cfg, s, e).Some?
    ensures EndFits(cfg, Step(cfg, s, e).value, late || StopsLate(e))
  {
    hide EndFits, Structure, StepRetrieve, StepEdit, StepRename, StepSandbox, StepHead, StepResume;
    match e
    case Closing(c) => EndKeptByEnd(cfg, s, c, late);
    case Recording(r) => EndKeptByRecord(cfg, s, r, late);
    case Retrieving(_) | Editing(_) | RenamingFiles(_) | RunSandbox(_, _) =>
      EffectIsAlive(cfg, s, e);
      EndKeptByEffect(cfg, s, e, late);
    case _ => EndKeptElse(cfg, s, e, late);
  }

  lemma EffectIsAlive(cfg: Config, s: State, e: Event)
    requires Step(cfg, s, e).Some? && IsEffect(e)
    ensures !s.pc.Down?
  {
  }

  predicate AnyLate(events: seq<Event>) {
    exists e <- events :: StopsLate(e)
  }

  lemma {:induction false} EndAlwaysFits(cfg: Config, events: seq<Event>)
    requires Execute(cfg, FRESH, events).Some?
    ensures EndFits(cfg, Execute(cfg, FRESH, events).value, AnyLate(events))
  {
    hide EndFits, Invariant, Step;
    if events != [] {
      var front, last := events[..|events| - 1], events[|events| - 1];
      EndAlwaysFits(cfg, front);
      InvariantAlways(cfg, front);
      InvariantHasStructure(cfg, Execute(cfg, FRESH, front).value);
      EndKept(cfg, Execute(cfg, FRESH, front).value, last, AnyLate(front));
      assert events == front + [last];
    } else {
      FreshFits(cfg);
    }
  }

  lemma FreshFits(cfg: Config)
    ensures EndFits(cfg, FRESH, false)
  {
  }

  lemma InvariantHasStructure(cfg: Config, s: State)
    requires Invariant(cfg, s)
    ensures Structure(cfg, s)
  {
  }

  /** A task whose clock never stopped it exhausted its budget only with a full journal or a spent ledger. */
  lemma BudgetStopsOnlyWhenSpent(cfg: Config, events: seq<Event>)
    requires Execute(cfg, FRESH, events).Some? && Heading(StopAtHead(true)) !in events
    requires Execute(cfg, FRESH, events).value.disk.task.BudgetExhausted?
    ensures var d := Execute(cfg, FRESH, events).value.disk;
            |d.journal| == cfg.stepBudget || SpentTokens(d.ledger, "task:" + cfg.taskId) >= cfg.tokenBudget
  {
    EndAlwaysFits(cfg, events);
    InvariantAlways(cfg, events);
  }

  /** A task gave up only on the model's own word, on a failed verification with more than three failed ones in the
      journal, or on a positive one whose commit was refused. */
  lemma GivesUpOnlyWithCause(cfg: Config, events: seq<Event>)
    requires Execute(cfg, FRESH, events).Some? && Execute(cfg, FRESH, events).value.disk.task.GaveUp?
    ensures var rows := Execute(cfg, FRESH, events).value.disk.journal;
            && rows != [] && cfg.parse(rows[|rows| - 1].xml).Some?
            && var last, kind := rows[|rows| - 1], cfg.parse(rows[|rows| - 1].xml).value.kind;
            || kind == GiveUp
            || (kind == Verify && last.payload.Verified? && !last.payload.verified && Failures(rows) > 3)
            || (kind == Verify && last.payload.Verified? && last.payload.verified && cfg.apply)
  {
    EndAlwaysFits(cfg, events);
    RowsAlwaysFit(cfg, events);
    var rows := Execute(cfg, FRESH, events).value.disk.journal;
    CountFailedIs(rows);
    assert rows[|rows| - 1] in rows;
  }

  /** Where a journal has failed verifications, and how many it has. */
  function FailedSteps(rows: seq<JournalRow>): set<int> {
    set i | 0 <= i < |rows| && rows[i].kind == VerifyStep && IsNegative(rows[i].payload)
  }

  function Failures(rows: seq<JournalRow>): nat {
    |FailedSteps(rows)|
  }

  predicate IsNegative(payload: Payload) {
    payload.Verified? ==> !payload.verified
  }

  lemma FailedStepsGrow(rows: seq<JournalRow>)
    requires rows != []
    ensures var n := |rows| - 1;
            var before := FailedSteps(rows[..n]);
            n !in before && FailedSteps(rows) == if IsFailedVerify(rows[n]) then before + {n} else before
  {
    var n := |rows| - 1;
    var before, after := FailedSteps(rows[..n]), FailedSteps(rows);
    forall i
      ensures i in after <==> i in before || (i == n && IsFailedVerify(rows[n]))
    {
      assert 0 <= i < n ==> rows[..n][i] == rows[i];
    }
    assert after == if IsFailedVerify(rows[n]) then before + {n} else before;
  }

  lemma {:induction false} CountFailedIs(rows: seq<JournalRow>)
    ensures CountFailed(rows) == Failures(rows)
  {
    if rows == [] {
      assert FailedSteps(rows) == {};
    } else {
      hide FailedSteps;
      var n := |rows| - 1;
      CountFailedIs(rows[..n]);
      FailedStepsGrow(rows);
    }
  }

  // ---------------------------------------------------------------------------------------------
  // Rows carry what their kind says

  predicate RowFits(row: JournalRow) {
    && (row.kind == RetrieveStep ==> row.payload.Retrieved?)
    && (row.kind == VerifyStep ==> row.payload.Verified?)
  }

  lemma RowsFitKept(cfg: Config, s: State, e: Event)
    requires Structure(cfg, s) && Step(cfg, s, e).Some? && forall row <- s.disk.journal :: RowFits(row)
    ensures forall row <- Step(cfg, s, e).value.disk.journal :: RowFits(row)
  {
  }

  lemma {:induction false} RowsAlwaysFit(cfg: Config, events: seq<Event>)
    requires Execute(cfg, FRESH, events).Some?
    ensures forall row <- Execute(cfg, FRESH, events).value.disk.journal :: RowFits(row)
  {
    if events != [] {
      var front := events[..|events| - 1];
      RowsAlwaysFit(cfg, front);
      InvariantAlways(cfg, front);
      RowsFitKept(cfg, Execute(cfg, FRESH, front).value, events[|events| - 1]);
    }
  }

  // ---------------------------------------------------------------------------------------------
  // What a decision leads to

  /** The failure of a step as the model is told it. */
  predicate TellsFailure(row: JournalRow, span: DataSpan) {
    && span.origin == "sandbox_failure:step:" + Decimal(row.step)
    && row.payload.Verified? && span.content == row.payload.output
  }

  /** Once a step is journaled, its kind, its verdict and the number of failed verifications decide: a positive
      verdict ends the task or goes to publishing, the fourth failure and a surrender end it with GAVE_UP, an
      earlier failure goes on with its output as the newest span, anything else goes on as it was. */
  lemma DecisionIs(cfg: Config, events: seq<Event>)
    requires Execute(cfg, FRESH, events).Some? && Execute(cfg, FRESH, events).value.pc.Deciding?
    ensures var s := Execute(cfg, FRESH, events).value;
            var rows, action, spans := s.disk.journal, s.pc.move.action, s.pc.move.turn.spans;
            && rows != [] && rows[|rows| - 1].step == |rows| - 1 && cfg.parse(rows[|rows| - 1].xml) == Some(action)
            && Step(cfg, s, Closing(Decide)).Some?
            && var next, last := Step(cfg, s, Closing(Decide)).value.pc, rows[|rows| - 1];
            if action.kind == GiveUp then next == Ending(GaveUp)
            else if action.kind != Verify then next == AtHead(Turn(|rows|, Failures(rows), spans))
            else
              && last.payload.Verified?
              && if last.payload.verified then next == if cfg.apply then Publishing else Ending(VerifiedSuccess)
                 else if Failures(rows) > 3 then next == Ending(GaveUp)
                 else
                   && next.AtHead? && next.turn.step == |rows| && next.turn.repairs == Failures(rows)
                   && |next.turn.spans| == |spans| + 1 && next.turn.spans[..|spans|] == spans
                   && TellsFailure(last, next.turn.spans[|spans|])
  {
    InvariantAlways(cfg, events);
    EndAlwaysFits(cfg, events);
    var s := Execute(cfg, FRESH, events).value;
    DenseLookups(s.disk.journal);
    CountFailedIs(s.disk.journal);
    assert s.pc.move.turn.spans + [] == s.pc.move.turn.spans;
  }

  // ---------------------------------------------------------------------------------------------
  // Numbers in origins

  predicate AreDigits(text: string) {
    forall i :: 0 <= i < |text| ==> '0' <= text[i] <= '9'
  }

  /** What a text of digits reads as. */
  function Value(digits: string): nat
    requires AreDigits(digits)
  {
    if digits == "" then 0
    else 10 * Value(digits[..|digits| - 1]) + (digits[|digits| - 1] as int - '0' as int)
  }

  /** The decimal text of a number has digits only, no leading zero, and reads as the number. */
  lemma {:induction false} DecimalReadsBack(n: nat)
    ensures Decimal(n) != "" && AreDigits(Decimal(n))
    ensures Value(Decimal(n)) == n
    ensures Decimal(n)[0] == '0' <==> n == 0
  {
    if n >= 10 {
      DecimalReadsBack(n / 10);
      assert Decimal(n)[..|Decimal(n)| - 1] == Decimal(n / 10);
    } else {
      assert Decimal(n)[..0] == "";
    }
  }

  // ---------------------------------------------------------------------------------------------
  // The data channel

  /** One span for every RETRIEVE row, with its origin, and for every failed VERIFY row, with its output, in order.
      Of the first `resumed` rows, those from before the last resume, only the origins that were retrieved are left. */
  predicate Tells(rows: seq<JournalRow>, resumed: nat, spans: seq<DataSpan>) {
    if rows == [] then spans == []
    else
      var front, last := rows[..|rows| - 1], rows[|rows| - 1];
      if last.kind == RetrieveStep then
        && spans != [] && last.payload == Retrieved(spans[|spans| - 1].origin)
        && (|rows| <= resumed ==> spans[|spans| - 1].content == "")
        && Tells(front, resumed, spans[..|spans| - 1])
      else if last.kind == VerifyStep && IsNegative(last.payload) && |rows| > resumed then
        && spans != [] && TellsFailure(last, spans[|spans| - 1])
        && Tells(front, resumed, spans[..|spans| - 1])
      else Tells(front, resumed, spans)
  }

  /** What a step adds to the spans: a retrieved one when its effect is done, a failure when it is decided. */
  predicate ChannelFits(s: State, resumed: nat) {
    var rows := s.disk.journal;
    && (s.pc.AtHead? ==> Tells(rows, resumed, s.pc.turn.spans))
    && (BeforeRow(s.pc) ==>
          if s.pc.Acted? && s.pc.payload.Retrieved?
          then Tells(rows + [RowOf(s.pc.move, s.pc.payload)], resumed, s.pc.move.turn.spans)
          else Tells(rows, resumed, s.pc.move.turn.spans))
    && (AfterRow(s.pc) && rows != [] ==>
          if IsFailedVerify(rows[|rows| - 1])
          then Tells(rows[..|rows| - 1], resumed, s.pc.move.turn.spans)
          else Tells(rows, resumed, s.pc.move.turn.spans))
  }

  predicate StartsOver(s: State) {
    s.pc.Reconciling? || s.pc.Opening? || (s.pc.Down? && !s.disk.task.IsTerminal())
  }

  ghost predicate Channel(s: State, resumed: nat) {
    && resumed <= |s.disk.journal| && (AfterRow(s.pc) ==> resumed < |s.disk.journal|)
    && (forall row <- s.disk.journal :: RowFits(row))
    && (s.world.crashes == 0 ==> resumed == 0 && (StartsOver(s) ==> s.disk.journal == []))
    && ChannelFits(s, resumed)
  }

  /** A resume from the journal recalls the origins of its RETRIEVE rows, in order, and nothing else. */
  lemma {:induction false} ReplayTells(rows: seq<JournalRow>, resumed: nat)
    requires |rows| <= resumed && forall row <- rows :: RowFits(row)
    ensures Tells(rows, resumed, ReplaySpans(rows))
  {
    if rows != [] {
      ReplayTells(rows[..|rows| - 1], resumed);
      assert rows[|rows| - 1] in rows;
      var before, after := ReplaySpans(rows[..|rows| - 1]), ReplaySpans(rows);
      assert if rows[|rows| - 1].kind == RetrieveStep then after[..|after| - 1] == before else after == before;
    }
  }

  lemma ChannelKeptByResume(cfg: Config, s: State, e: ResumeEvent, resumed: nat) returns (resumed': nat)
    requires Structure(cfg, s) && Channel(s, resumed) && StepResume(cfg, s, e).Some?
    ensures Channel(StepResume(cfg, s, e).value, resumed')
  {
    hide Tells;
    resumed' := if e.Open? then |s.disk.journal| else resumed;
    ReplayTells(s.disk.journal, |s.disk.journal|);
  }

  lemma RetrievedRowTells(rows: seq<JournalRow>, row: JournalRow, resumed: nat, spans: seq<DataSpan>, span: DataSpan)
    requires row.kind == RetrieveStep && row.payload == Retrieved(span.origin)
    requires resumed <= |rows| && Tells(rows, resumed, spans)
    ensures Tells(rows + [row], resumed, spans + [span])
  {
    assert (rows + [row])[..|rows|] == rows && (spans + [span])[..|spans|] == spans;
  }

  lemma ChannelKeptByRetrieve(cfg: Config, s: State, e: RetrieveEvent, resumed: nat)
    requires Structure(cfg, s) && Channel(s, resumed) && StepRetrieve(cfg, s, e).Some?
    ensures Channel(StepRetrieve(cfg, s, e).value, resumed)
  {
    hide Tells;
    if e.EndRetrieve? {
      var m, rows := s.pc.move, s.disk.journal;
      var told := m.(turn := m.turn.(spans := m.turn.spans + [s.pc.span]));
      RetrievedRowTells(rows, RowOf(told, Retrieved(s.pc.span.origin)), resumed, m.turn.spans, s.pc.span);
    }
  }

  lemma ChannelKeptByEdit(cfg: Config, s: State, e: EditEvent, resumed: nat)
    requires Structure(cfg, s) && Channel(s, resumed) && StepEdit(cfg, s, e).Some?
    ensures Channel(StepEdit(cfg, s, e).value, resumed)
  {
    hide Tells;
  }

  lemma ChannelKeptByRename(cfg: Config, s: State, e: RenameEvent, resumed: nat)
    requires Structure(cfg, s) && Channel(s, resumed) && StepRename(cfg, s, e).Some?
    ensures Channel(StepRename(cfg, s, e).value, resumed)
  {
    hide Tells;
  }

  lemma ChannelKeptElse(cfg: Config, s: State, e: Event, resumed: nat)
    requires Structure(cfg, s) && Channel(s, resumed) && Step(cfg, s, e).Some?
    requires e.RunSandbox? || e.Heading? || e.Crash?
    ensures Channel(Step(cfg, s, e).value, resumed)
  {
    hide Tells;
  }

  lemma PlainRowTellsNothing(rows: seq<JournalRow>, row: JournalRow, resumed: nat, spans: seq<DataSpan>)
    requires row.kind != RetrieveStep && !IsFailedVerify(row)
    ensures Tells(rows + [row], resumed, spans) == Tells(rows, resumed, spans)
  {
    assert (rows + [row])[..|rows|] == rows;
  }

  lemma ChannelKeptByAppend(cfg: Config, s: State, resumed: nat)
    requires Structure(cfg, s) && Channel(s, resumed) && StepRecord(cfg, s, AppendJournal).Some?
    ensures Channel(StepRecord(cfg, s, AppendJournal).value, resumed)
  {
    hide Tells, NextStep, StaleAfterRow;
    var rows, row := s.disk.journal, RowOf(s.pc.move, s.pc.payload);
    DenseLookups(rows);
    assert (rows + [row])[..|rows|] == rows;
    if row.kind != RetrieveStep && !IsFailedVerify(row) {
      PlainRowTellsNothing(rows, row, resumed, s.pc.move.turn.spans);
    }
  }

  lemma ChannelKeptByRecord(cfg: Config, s: State, e: RecordEvent, resumed: nat)
    requires Structure(cfg, s) && Channel(s, resumed) && StepRecord(cfg, s, e).Some?
    ensures Channel(StepRecord(cfg, s, e).value, resumed)
  {
    hide Tells;
    if e.AppendJournal? {
      ChannelKeptByAppend(cfg, s, resumed);
    }
  }

  lemma FailedRowTells(rows: seq<JournalRow>, resumed: nat, spans: seq<DataSpan>, span: DataSpan)
    requires rows != [] && IsFailedVerify(rows[|rows| - 1]) && TellsFailure(rows[|rows| - 1], span)
    requires resumed < |rows| && Tells(rows[..|rows| - 1], resumed, spans)
    ensures Tells(rows, resumed, spans + [span])
  {
    assert (spans + [span])[..|spans|] == spans;
  }

  lemma ChannelKeptByEnd(cfg: Config, s: State, e: EndEvent, resumed: nat)
    requires Structure(cfg, s) && Channel(s, resumed) && StepEnd(cfg, s, e).Some?
    ensures Channel(StepEnd(cfg, s, e).value, resumed)
  {
    hide Tells;
    if e.Decide? {
      var m, rows := s.pc.move, s.disk.journal;
      DenseLookups(rows);
      assert m.turn.spans + [] == m.turn.spans;
      if IsFailedVerify(rows[|rows| - 1]) {
        FailedRowTells(rows, resumed, m.turn.spans, FailureSpan(rows, m.turn.step));
      }
    }
  }

  lemma ChannelKept(cfg: Config, s: State, e: Event, resumed: nat) returns (resumed': nat)
    requires Structure(cfg, s) && Channel(s, resumed) && Step(cfg, s, e).Some?
    ensures Channel(Step(cfg, s, e).value, resumed')
  {
    hide Channel, Structure, StepSandbox, StepHead;
    resumed' := resumed;
    match e
    case Resuming(r) => resumed' := ChannelKeptByResume(cfg, s, r, resumed);
    case Retrieving(r) => ChannelKeptByRetrieve(cfg, s, r, resumed);
    case Recording(r) => ChannelKeptByRecord(cfg, s, r, resumed);
    case Closing(c) => ChannelKeptByEnd(cfg, s, c, resumed);
    case Editing(ed) => ChannelKeptByEdit(cfg, s, ed, resumed);
    case RenamingFiles(r) => ChannelKeptByRename(cfg, s, r, resumed);
    case _ => ChannelKeptElse(cfg, s, e, resumed);
  }

  lemma {:induction false} ChannelAlways(cfg: Config, events: seq<Event>) returns (resumed: nat)
    requires Execute(cfg, FRESH, events).Some?
    ensures Channel(Execute(cfg, FRESH, events).value, resumed)
  {
    resumed := 0;
    if events != [] {
      var front := events[..|events| - 1];
      resumed := ChannelAlways(cfg, front);
      InvariantAlways(cfg, front);
      resumed := ChannelKept(cfg, Execute(cfg, FRESH, front).value, events[|events| - 1], resumed);
    }
  }

  /** At every loop head the data channel tells the journal: nothing is missing, added or out of order. Only what was
      journaled before the last resume is told by its origins alone; without a crash there is no such row. */
  lemma DataChannelTellsTheJournal(cfg: Config, events: seq<Event>)
    requires Execute(cfg, FRESH, events).Some? && Execute(cfg, FRESH, events).value.pc.AtHead?
    ensures var s := Execute(cfg, FRESH, events).value;
            && (s.world.crashes == 0 ==> Tells(s.disk.journal, 0, s.pc.turn.spans))
            && exists resumed: nat :: resumed <= |s.disk.journal| && Tells(s.disk.journal, resumed, s.pc.turn.spans)
  {
    var resumed := ChannelAlways(cfg, events);
  }

  /** A resume stands at the first step that is not journaled, with as many repairs as the journal has failed
      verifications and with the origins that its RETRIEVE rows keep. */
  lemma ResumeRecalls(cfg: Config, events: seq<Event>, base: Tree, head: string)
    requires Execute(cfg, FRESH, events).Some? && Execute(cfg, FRESH, events).value.pc.Opening?
    ensures var s := Execute(cfg, FRESH, events).value;
            && Step(cfg, s, Resuming(Open(base, head))).Some?
            && var resumption := Step(cfg, s, Resuming(Open(base, head))).value;
            && resumption.handle == head && resumption.pc.AtHead? && resumption.pc.turn.step == |s.disk.journal|
            && resumption.pc.turn.repairs == Failures(s.disk.journal)
            && Tells(s.disk.journal, |s.disk.journal|, resumption.pc.turn.spans)
            && resumption.disk == s.disk.(worktree := if s.disk.worktree.None? then Some(base) else s.disk.worktree)
  {
    var rows := Execute(cfg, FRESH, events).value.disk.journal;
    InvariantAlways(cfg, events);
    RowsAlwaysFit(cfg, events);
    DenseLookups(rows);
    CountFailedIs(rows);
    ReplayTells(rows, |rows|);
  }

  // ---------------------------------------------------------------------------------------------
  // What a positive verdict rests on

  /** A sandbox run is positive exactly when its patch stays inside the work directory, holds writes and deletes only,
      and the tests pass on the patched copy. */
  lemma VerifiedRunsStayInside(cfg: Config, events: seq<Event>, run: SandboxRun)
    requires Execute(cfg, FRESH, events).Some? && run in Execute(cfg, FRESH, events).value.world.runs
    ensures run.verified
       <==> (forall op <- run.ops :: cfg.inside(op.path) && op.op in {"write", "delete"})
            && cfg.tests(ApplyAll(run.snapshot, run.ops), run.nonce)
  {
    InvariantAlways(cfg, events);
  }
}
