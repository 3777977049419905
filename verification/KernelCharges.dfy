/**
 Effectively-once charging and the token ceiling, for every reachable state.

 The ledger's step-tagged commits, read in order, are the journal's charges, read in order; at most the
 last one is missing, and only between a row and its commit or after a crash there.
 */
module KernelCharges {
  import opened Common
  import opened Journal
  import opened Ledger
  import opened Kernel
  import opened KernelStructure

  function TokenSum(charges: seq<StepCharge>): int {
    if charges == [] then 0 else TokenSum(charges[..|charges| - 1]) + charges[|charges| - 1].tokens
  }

  /** Journaled charges that have no commit yet. */
  function Owed(cfg: Config, d: Disk): int {
    TokenSum(JournalCharges(d.journal)) - TokenSum(StepCharges(d.ledger, cfg))
  }

  function LastCharge(rows: seq<JournalRow>): nat {
    if rows == [] then 0 else rows[|rows| - 1].charge
  }

  predicate AllCommitted(cfg: Config, d: Disk) {
    StepCharges(d.ledger, cfg) == JournalCharges(d.journal)
  }

  predicate LastUncommitted(cfg: Config, d: Disk) {
    d.journal != [] && StepCharges(d.ledger, cfg) == JournalCharges(d.journal[..|d.journal| - 1])
  }

  predicate Charges(cfg: Config, s: State) {
    if s.pc.Journaled? then LastUncommitted(cfg, s.disk)
    else AllCommitted(cfg, s.disk)
         || ((s.pc.Reconciling? || (s.pc.Down? && !s.disk.task.IsTerminal())) && LastUncommitted(cfg, s.disk))
  }

  predicate TokensFit(cfg: Config, d: Disk) {
    var spent := SpentTokens(d.ledger, cfg.Scope());
    && ReservedTokens(d.ledger, cfg.Scope()) == 0
    && spent + Owed(cfg, d) <= cfg.tokenBudget + LastCharge(d.journal)
  }

  predicate Tokens(cfg: Config, s: State) {
    && TokensFit(cfg, s.disk)
    && (BeforeRow(s.pc) ==> SpentTokens(s.disk.ledger, cfg.Scope()) <= cfg.tokenBudget)
  }

  // ---------------------------------------------------------------------------------------------
  // Appending to the two tables

  lemma StepChargesAppend(rows: seq<LedgerRow>, row: LedgerRow, cfg: Config)
    ensures StepCharges(rows + [row], cfg)
         == StepCharges(rows, cfg)
            + (if IsModelCommit(row, cfg) then [StepCharge(row.stepIndex.value, row.tokens)] else [])
  {
    assert (rows + [row])[..|rows|] == rows;
  }

  lemma RetrievalIsNotAStepCharge(rows: seq<LedgerRow>, cfg: Config, tokens: nat, note: string)
    ensures StepCharges(rows + ChargeRows(cfg.Scope(), tokens, None, None, note), cfg) == StepCharges(rows, cfg)
  {
    var three := ChargeRows(cfg.Scope(), tokens, None, None, note);
    StepChargesAppend(rows, three[0], cfg);
    StepChargesAppend(rows + [three[0]], three[1], cfg);
    StepChargesAppend(rows + [three[0]] + [three[1]], three[2], cfg);
    assert rows + three == rows + [three[0]] + [three[1]] + [three[2]];
  }

  lemma TokenSumAppend(charges: seq<StepCharge>, c: StepCharge)
    ensures TokenSum(charges + [c]) == TokenSum(charges) + c.tokens
  {
    assert (charges + [c])[..|charges|] == charges;
  }

  lemma JournalChargesAppend(rows: seq<JournalRow>, row: JournalRow)
    ensures JournalCharges(rows + [row]) == JournalCharges(rows) + [StepCharge(row.step, row.charge)]
  {
  }

  lemma OwedCases(cfg: Config, d: Disk)
    ensures AllCommitted(cfg, d) ==> Owed(cfg, d) == 0
    ensures LastUncommitted(cfg, d) ==> Owed(cfg, d) == LastCharge(d.journal)
  {
    if d.journal != [] {
      var front, last := d.journal[..|d.journal| - 1], d.journal[|d.journal| - 1];
      assert d.journal == front + [last];
      JournalChargesAppend(front, last);
      TokenSumAppend(JournalCharges(front), StepCharge(last.step, last.charge));
    }
  }

  /** Which journaled steps the ledger already knows. */
  lemma CommittedMeans(cfg: Config, d: Disk)
    requires Dense(d.journal)
    ensures AllCommitted(cfg, d) ==> FirstUncharged(d.journal, CommittedSteps(d.ledger, cfg)) == |d.journal|
    ensures AllCommitted(cfg, d) ==> |d.journal| !in CommittedSteps(d.ledger, cfg)
    ensures LastUncommitted(cfg, d) ==> FirstUncharged(d.journal, CommittedSteps(d.ledger, cfg)) == |d.journal| - 1
    ensures LastUncommitted(cfg, d) ==> |d.journal| - 1 !in CommittedSteps(d.ledger, cfg)
  {
    var charged := CommittedSteps(d.ledger, cfg);
    var k := FirstUncharged(d.journal, charged);
    if AllCommitted(cfg, d) || LastUncommitted(cfg, d) {
      var n := |StepCharges(d.ledger, cfg)|;
      forall i: int
        ensures i in charged <==> 0 <= i < n
      {
        if 0 <= i < n {
          assert StepCharges(d.ledger, cfg)[i].step == i;
        }
      }
      assert LastUncommitted(cfg, d) ==> d.journal[n].step == n;
    }
  }

  // ---------------------------------------------------------------------------------------------
  // Preservation

  /** Journaling a row makes its charge owed; committing a charge turns owed into spent. */
  lemma RowBecomesOwed(cfg: Config, d: Disk, row: JournalRow)
    ensures Owed(cfg, d.(journal := d.journal + [row])) == Owed(cfg, d) + row.charge
  {
    JournalChargesAppend(d.journal, row);
    TokenSumAppend(JournalCharges(d.journal), StepCharge(row.step, row.charge));
  }

  lemma CommitSpendsOwed(cfg: Config, d: Disk, row: LedgerRow)
    requires IsModelCommit(row, cfg)
    ensures var d' := d.(ledger := d.ledger + [row]);
            && SpentTokens(d'.ledger, cfg.Scope()) + Owed(cfg, d') == SpentTokens(d.ledger, cfg.Scope()) + Owed(cfg, d)
            && ReservedTokens(d'.ledger, cfg.Scope()) == ReservedTokens(d.ledger, cfg.Scope())
  {
    StepChargesAppend(d.ledger, row, cfg);
    TokenSumAppend(StepCharges(d.ledger, cfg), StepCharge(row.stepIndex.value, row.tokens));
    BalancesAfterAppend(d.ledger, row, cfg.Scope());
  }

  lemma CommitCompletes(cfg: Config, d: Disk, row: LedgerRow)
    requires LastUncommitted(cfg, d) && IsModelCommit(row, cfg)
    requires var last := d.journal[|d.journal| - 1]; row.stepIndex.value == last.step && row.tokens == last.charge
    ensures AllCommitted(cfg, d.(ledger := d.ledger + [row]))
  {
    var front, last := d.journal[..|d.journal| - 1], d.journal[|d.journal| - 1];
    StepChargesAppend(d.ledger, row, cfg);
    assert d.journal == front + [last];
    JournalChargesAppend(front, last);
  }

  lemma FirstUnchargedIs(rows: seq<JournalRow>, charged: set<int>, n: nat)
    requires n <= |rows| && (n < |rows| ==> rows[n].step !in charged)
    requires forall i :: 0 <= i < n ==> rows[i].step in charged
    ensures FirstUncharged(rows, charged) == n
  {
    var k := FirstUncharged(rows, charged);
    if k < n {
      assert false;
    } else if n < k {
      assert false;
    }
  }

  lemma CommittedStepsAppend(rows: seq<LedgerRow>, row: LedgerRow, cfg: Config)
    requires IsModelCommit(row, cfg)
    ensures CommittedSteps(rows + [row], cfg) == CommittedSteps(rows, cfg) + {row.stepIndex.value}
  {
    StepChargesAppend(rows, row, cfg);
    var old', added := StepCharges(rows, cfg), StepCharge(row.stepIndex.value, row.tokens);
    assert forall c :: c in old' + [added] <==> c in old' || c == added;
  }

  predicate Money(cfg: Config, s: State) {
    Charges(cfg, s) && Tokens(cfg, s)
  }

  lemma KeptByReconcile(cfg: Config, s: State)
    requires Money(cfg, s) && s.pc.Reconciling? && LastUncommitted(cfg, s.disk)
    ensures var row := ReconcileCommit(cfg, s.disk.journal[|s.disk.journal| - 1]);
            Money(cfg, s.(disk := s.disk.(ledger := s.disk.ledger + [row])))
  {
    var row := ReconcileCommit(cfg, s.disk.journal[|s.disk.journal| - 1]);
    CommitCompletes(cfg, s.disk, row);
    CommitSpendsOwed(cfg, s.disk, row);
  }

  lemma KeptByReconcileOne(cfg: Config, s: State)
    requires Dense(s.disk.journal) && Money(cfg, s) && StepResume(cfg, s, ReconcileOne).Some?
    ensures Money(cfg, StepResume(cfg, s, ReconcileOne).value)
  {
    CommittedMeans(cfg, s.disk);
    KeptByReconcile(cfg, s);
  }

  lemma KeptByReconcileDone(cfg: Config, s: State)
    requires Dense(s.disk.journal) && Money(cfg, s) && StepResume(cfg, s, ReconcileDone).Some?
    ensures Money(cfg, StepResume(cfg, s, ReconcileDone).value)
  {
    CommittedMeans(cfg, s.disk);
  }

  lemma KeptByResume(cfg: Config, s: State, e: ResumeEvent)
    requires Dense(s.disk.journal) && Money(cfg, s) && StepResume(cfg, s, e).Some?
    ensures Money(cfg, StepResume(cfg, s, e).value)
  {
    match e
    case ReconcileOne => KeptByReconcileOne(cfg, s);
    case ReconcileDone => KeptByReconcileDone(cfg, s);
    case _ =>
  }

  lemma KeptByHead(cfg: Config, s: State, e: HeadEvent)
    requires Structure(cfg, s) && Money(cfg, s) && StepHead(cfg, s, e).Some?
    ensures Money(cfg, StepHead(cfg, s, e).value)
  {
  }

  lemma KeptByRetrieve(cfg: Config, s: State, e: RetrieveEvent)
    requires Structure(cfg, s) && Money(cfg, s) && StepRetrieve(cfg, s, e).Some?
    ensures Money(cfg, StepRetrieve(cfg, s, e).value)
  {
    if e.ChargeRetrieval? {
      var scope := cfg.Scope();
      ChargeMovesOnlyItsScope(s.disk.ledger, scope, s.pc.costs[0], None, None, e.note, scope);
      RetrievalIsNotAStepCharge(s.disk.ledger, cfg, s.pc.costs[0], e.note);
      OwedCases(cfg, s.disk);
    }
  }

  lemma KeptByEdit(cfg: Config, s: State, e: EditEvent)
    requires Structure(cfg, s) && Money(cfg, s) && StepEdit(cfg, s, e).Some?
    ensures Money(cfg, StepEdit(cfg, s, e).value)
  {
  }

  lemma KeptByRename(cfg: Config, s: State, e: RenameEvent)
    requires Structure(cfg, s) && Money(cfg, s) && StepRename(cfg, s, e).Some?
    ensures Money(cfg, StepRename(cfg, s, e).value)
  {
  }

  lemma KeptBySandbox(cfg: Config, s: State, nonce: int, output: string)
    requires Structure(cfg, s) && Money(cfg, s) && StepSandbox(cfg, s, nonce, output).Some?
    ensures Money(cfg, StepSandbox(cfg, s, nonce, output).value)
  {
  }

  lemma ChargesByRecord(cfg: Config, s: State, e: RecordEvent)
    requires Structure(cfg, s) && Charges(cfg, s) && StepRecord(cfg, s, e).Some?
    ensures Charges(cfg, StepRecord(cfg, s, e).value)
  {
    if e.AppendJournal? {
      DenseLookups(s.disk.journal);
      assert (s.disk.journal + [RowOf(s.pc.move, s.pc.payload)])[..|s.disk.journal|] == s.disk.journal;
    } else if e.CommitCharge? {
      CommittedMeans(cfg, s.disk);
      CommitCompletes(cfg, s.disk, ModelCommit(cfg, s.pc.move));
    }
  }

  lemma TokensByAppend(cfg: Config, s: State)
    requires Tokens(cfg, s) && StepRecord(cfg, s, AppendJournal).Some?
    requires Owed(cfg, s.disk) == 0 && RowAt(s.disk.journal, s.pc.move.turn.step).None?
    ensures Tokens(cfg, StepRecord(cfg, s, AppendJournal).value)
  {
    RowBecomesOwed(cfg, s.disk, RowOf(s.pc.move, s.pc.payload));
  }

  lemma TokensFitAfterCommit(cfg: Config, d: Disk, row: LedgerRow)
    requires TokensFit(cfg, d) && IsModelCommit(row, cfg)
    ensures TokensFit(cfg, d.(ledger := d.ledger + [row]))
  {
    CommitSpendsOwed(cfg, d, row);
  }

  lemma CommitGives(cfg: Config, s: State)
    requires StepRecord(cfg, s, CommitCharge).Some?
    ensures var s', row := StepRecord(cfg, s, CommitCharge).value, ModelCommit(cfg, s.pc.move);
            && s'.pc.Charged? && IsModelCommit(row, cfg)
            && (s'.disk == s.disk || s'.disk == s.disk.(ledger := s.disk.ledger + [row]))
  {
  }

  lemma TokensAfterCommit(cfg: Config, s: State, s': State, row: LedgerRow)
    requires Tokens(cfg, s) && s'.pc.Charged? && IsModelCommit(row, cfg)
    requires s'.disk == s.disk || s'.disk == s.disk.(ledger := s.disk.ledger + [row])
    ensures Tokens(cfg, s')
  {
    TokensFitAfterCommit(cfg, s.disk, row);
  }

  lemma TokensByCommit(cfg: Config, s: State)
    requires Tokens(cfg, s) && StepRecord(cfg, s, CommitCharge).Some?
    ensures Tokens(cfg, StepRecord(cfg, s, CommitCharge).value)
  {
    CommitGives(cfg, s);
    TokensAfterCommit(cfg, s, StepRecord(cfg, s, CommitCharge).value, ModelCommit(cfg, s.pc.move));
  }

  lemma TokensByMeter(cfg: Config, s: State)
    requires Tokens(cfg, s) && StepRecord(cfg, s, Meter).Some?
    ensures Tokens(cfg, StepRecord(cfg, s, Meter).value)
  {
  }

  lemma KeptByRecord(cfg: Config, s: State, e: RecordEvent)
    requires Structure(cfg, s) && Money(cfg, s) && StepRecord(cfg, s, e).Some?
    ensures Money(cfg, StepRecord(cfg, s, e).value)
  {
    ChargesByRecord(cfg, s, e);
    match e
    case AppendJournal =>
      OwedCases(cfg, s.disk);
      DenseLookups(s.disk.journal);
      TokensByAppend(cfg, s);
    case CommitCharge => TokensByCommit(cfg, s);
    case Meter => TokensByMeter(cfg, s);
  }

  lemma KeptByEnd(cfg: Config, s: State, e: EndEvent)
    requires Structure(cfg, s) && Money(cfg, s) && StepEnd(cfg, s, e).Some?
    ensures Money(cfg, StepEnd(cfg, s, e).value)
  {
  }

  lemma KeptByCrash(cfg: Config, s: State)
    requires Structure(cfg, s) && Money(cfg, s) && !s.pc.Down?
    ensures Money(cfg, Die(s))
  {
  }

  lemma MoneyKept(cfg: Config, s: State, e: Event)
    requires Structure(cfg, s) && Money(cfg, s) && Step(cfg, s, e).Some?
    ensures Money(cfg, Step(cfg, s, e).value)
  {
    match e
    case Crash => KeptByCrash(cfg, s);
    case Resuming(r) => KeptByResume(cfg, s, r);
    case Heading(h) => KeptByHead(cfg, s, h);
    case Retrieving(r) => KeptByRetrieve(cfg, s, r);
    case Editing(ed) => KeptByEdit(cfg, s, ed);
    case RenamingFiles(r) => KeptByRename(cfg, s, r);
    case RunSandbox(nonce, output) => KeptBySandbox(cfg, s, nonce, output);
    case Recording(r) => KeptByRecord(cfg, s, r);
    case Closing(c) => KeptByEnd(cfg, s, c);
  }
}
