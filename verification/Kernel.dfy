/**
 One task driven by the agent loop, as a machine over atomic durable writes
 (src/acp/orchestrator/loop.py).

 `Step` is the effect of one event: one write transaction, one file write, one model call or sandbox
 call, or a decision between them. Whatever the outside world chooses (replies, retrieved bytes, sandbox
 output, the wall clock, other tasks' commits) is carried by the event or by a nonce. `Crash` is enabled
 wherever a runner is alive, and `Start` resumes a task that is not terminal, so `Execute` over all event
 lists covers every pattern of crashes and resumes. An exception out of a step is a crash.

 AgentLoop.dfy proves that the imperative loop performs exactly these steps.
 */
module Kernel {
  import opened Common
  import opened Actions
  import opened Patches
  import opened Journal
  import opened Ledger
  import Strings

  const MAX_REPAIR_ATTEMPTS: nat := 3

  datatype TaskState = Pending | Running | VerifiedSuccess | GaveUp | BudgetExhausted {
    predicate IsTerminal() {
      VerifiedSuccess? || GaveUp? || BudgetExhausted?
    }
  }

  datatype Reply = Reply(xml: string, tokensIn: nat, tokensOut: nat) {
    function Charge(): nat {
      tokensIn + tokensOut
    }
  }

  /** The task row's constants and the parts of the world the loop calls into. */
  datatype Config = Config(
    taskId: string,
    apply: bool,
    tokenBudget: nat,
    stepBudget: nat,
    model: (nat, seq<DataSpan>, int) -> Reply,
    parse: string -> Option<AgentAction>,
    rewrite: (string, string, string) -> string,
    hash: PatchOp -> string,
    inside: Path -> bool,
    tests: (Tree, int) -> bool)
  {
    function Scope(): string {
      "task:" + taskId
    }
  }

  /** What survives a crash. */
  datatype Disk = Disk(
    task: TaskState,
    journal: seq<JournalRow>,
    ledger: seq<LedgerRow>,
    artifacts: seq<string>,
    worktree: Option<Tree>,
    toolCalls: nat)

  datatype SandboxRun = SandboxRun(snapshot: Tree, ops: seq<PatchOp>, nonce: int, verified: bool) {
    /** The tree that the tests saw. */
    function Tested(): Tree {
      ApplyAll(snapshot, ops)
    }
  }

  /** One overlay of a worktree on the shared base, and the paths that were stale then. */
  datatype Publication = Publication(base: Tree, worktree: Tree, stale: set<Path>) {
    function Result(): Tree {
      Overlaying(base, worktree)
    }
  }

  /** What an observer of the outside world has seen; the loop never reads it.
      `applied` lists the hashes of the operations written to the worktree. `stale` holds the paths on which the
      journal's last word is not what the worktree shows. A path becomes stale when an edit is journaled that the
      content-hash gate suppressed and the worktree does not show, or when the runner dies after writing a file
      and before journaling it; the next row that covers the path settles it. */
  datatype World = World(
    modelCalls: nat,
    crashes: nat,
    applied: seq<string>,
    runs: seq<SandboxRun>,
    published: seq<Publication>,
    stale: set<Path>)

  /** The loop's local variables. */
  datatype Turn = Turn(step: nat, repairs: nat, spans: seq<DataSpan>)

  datatype Move = Move(turn: Turn, reply: Reply, action: AgentAction)

  /** Where the runner is. */
  datatype Pc =
    | Down
    | Reconciling
    | Opening
    | AtHead(turn: Turn)
    | Acting(move: Move)
    | Charging(move: Move, costs: seq<nat>, span: DataSpan)
    | Recorded(move: Move, op: PatchOp)
    | Renaming(move: Move, todo: seq<Path>, files: seq<Path>, wrote: bool)
    | RenameRecorded(move: Move, op: PatchOp, todo: seq<Path>, files: seq<Path>, wrote: bool)
    | Acted(move: Move, payload: Payload, wrote: bool)
    | Journaled(move: Move)
    | Charged(move: Move)
    | Deciding(move: Move)
    | Publishing
    | Ending(verdict: TaskState)

  /** `handle` is the base commit that the last open handed out. */
  datatype State = State(disk: Disk, world: World, pc: Pc, handle: string)

  /** How the guarded commit finds the workspace: the lock stays taken, or it is held over this base and head. */
  datatype CommitView = LockTimeout | Locked(base: Tree, head: string)

  datatype Located = Located(file: Path, first: nat, last: nat, content: string)

  /** What the retrieval service would answer and charge: for looking the symbol up, and for reading its span. */
  datatype Lookup = Lookup(symbolCost: nat, spanCost: nat, found: Option<Located>)

  datatype ResumeEvent = Start | ReconcileOne | ReconcileDone | Open(base: Tree, head: string)
  datatype HeadEvent = StopAtHead(late: bool) | CallModel(nonce: int)
  datatype RetrieveEvent = NoEffect | BeginRetrieve(lookup: Lookup) | ChargeRetrieval(note: string) | EndRetrieve
  datatype EditEvent = BeginEdit | ApplyEdit
  datatype RenameEvent = BeginRename(affected: set<Path>) | RenameFile | ApplyRename | EndRename
  datatype RecordEvent = AppendJournal | CommitCharge | Meter
  datatype EndEvent = Decide | Publish(found: CommitView) | Finish

  datatype Event =
    | Crash
    | Resuming(resume: ResumeEvent)
    | Heading(head: HeadEvent)
    | Retrieving(retrieve: RetrieveEvent)
    | Editing(edit: EditEvent)
    | RenamingFiles(rename: RenameEvent)
    | RunSandbox(nonce: int, output: string)
    | Recording(record: RecordEvent)
    | Closing(end: EndEvent)

  const FRESH: State := State(Disk(Pending, [], [], [], None, 0), World(0, 0, [], [], [], {}), Down, "")

  // ---------------------------------------------------------------------------------------------
  // Ledger readings

  datatype StepCharge = StepCharge(step: int, tokens: int)

  predicate IsModelCommit(row: LedgerRow, cfg: Config) {
    && row.scope == cfg.Scope() && row.kind == Commit && row.taskId == Some(cfg.taskId)
    && row.stepIndex.Some? && ("model:" <= row.note || row.note == "reconcile:model")
  }

  /** The step-tagged commits of the task, in the order they were written. */
  function StepCharges(rows: seq<LedgerRow>, cfg: Config): seq<StepCharge> {
    if rows == [] then [] else
    var last := rows[|rows| - 1];
    StepCharges(rows[..|rows| - 1], cfg)
    + (if IsModelCommit(last, cfg) then [StepCharge(last.stepIndex.value, last.tokens)] else [])
  }

  function CommittedSteps(rows: seq<LedgerRow>, cfg: Config): set<int> {
    set c <- StepCharges(rows, cfg) :: c.step
  }

  function JournalCharges(rows: seq<JournalRow>): seq<StepCharge> {
    seq(|rows|, i requires 0 <= i < |rows| => StepCharge(rows[i].step, rows[i].charge))
  }

  /** Index of the first journaled step without a commit, or |rows|. */
  function FirstUncharged(rows: seq<JournalRow>, charged: set<int>): (n: nat)
    ensures n <= |rows|
    ensures n < |rows| ==> rows[n].step !in charged
    ensures forall i :: 0 <= i < n ==> rows[i].step in charged
  {
    if rows == [] || rows[0].step !in charged then 0 else 1 + FirstUncharged(rows[1..], charged)
  }

  function CommitRow(cfg: Config, step: int, tokens: int, note: string): LedgerRow {
    LedgerRow(cfg.Scope(), Commit, Some(cfg.taskId), Some(step), tokens, note)
  }

  /** The commit a fresh step appends, and the one that resume appends for a row that lacks it. */
  function ModelCommit(cfg: Config, m: Move): LedgerRow {
    CommitRow(cfg, m.turn.step, m.reply.Charge(), "model:" + KindName(m.action.kind))
  }

  function ReconcileCommit(cfg: Config, row: JournalRow): LedgerRow {
    CommitRow(cfg, row.step, row.charge, "reconcile:model")
  }

  // ---------------------------------------------------------------------------------------------
  // Pieces of a step

  predicate Breached(cfg: Config, d: Disk, turn: Turn) {
    turn.step >= cfg.stepBudget || SpentTokens(d.ledger, cfg.Scope()) >= cfg.tokenBudget
  }

  /** Files that may have been written since the last journal row. */
  function PendingPaths(pc: Pc): set<Path> {
    match pc
    case Renaming(_, _, files, true) => set p <- files
    case RenameRecorded(_, _, _, files, true) => set p <- files
    case Acted(_, Edited(op), true) => {op.path}
    case Acted(_, Renamed(files), true) => set p <- files
    case _ => {}
  }

  /** A death leaves a written file unjournaled: it is stale unless the journal happens to describe it. */
  function StaleAfterDeath(s: State): set<Path> {
    match s.disk.worktree
    case None => s.world.stale
    case Some(tree) =>
      (s.world.stale - PendingPaths(s.pc))
      + (set p <- PendingPaths(s.pc) | !DescribedAt(s.disk.journal, tree, p))
  }

  /** A row settles the paths it covers: an EDIT's by what the worktree shows, a RENAME's for good, because the
      patch reads them back. */
  function StaleAfterRow(stale: set<Path>, row: JournalRow, tree: Tree): set<Path> {
    if row.kind != EditStep then stale
    else
      match row.payload
      case Edited(op) => if EffectHolds(op, tree) then stale - {op.path} else stale + {op.path}
      case Renamed(files) => stale - (set p <- files)
      case _ => stale
  }

  function WithRow(s: State, row: JournalRow): State {
    var settled := match s.disk.worktree
      case None => s.world.stale
      case Some(tree) => StaleAfterRow(s.world.stale, row, tree);
    s.(disk := s.disk.(journal := s.disk.journal + [row]), world := s.world.(stale := settled))
  }

  /** The runner dies: volatile state is lost, everything durable stays. */
  function Die(s: State): State {
    s.(pc := Down, world := s.world.(crashes := s.world.crashes + 1, stale := StaleAfterDeath(s)))
  }

  /** On resume the retrieved spans come back as origins only. */
  function ReplaySpans(rows: seq<JournalRow>): seq<DataSpan> {
    if rows == [] then [] else
    var last := rows[|rows| - 1];
    ReplaySpans(rows[..|rows| - 1])
    + (if last.kind == RetrieveStep then
         [DataSpan(if last.payload.Retrieved? then last.payload.origin else "", "")]
       else [])
  }

  function Resume(d: Disk): Turn {
    Turn(NextStep(d.journal), CountFailed(d.journal), ReplaySpans(d.journal))
  }

  function EditOp(action: AgentAction): PatchOp
    requires "file_path" in action.fields
  {
    PatchOp(action.Field("op", "write"), action.fields["file_path"], action.Field("content", ""))
  }

  function Primitive(action: AgentAction): string {
    action.Field("primitive", "definition")
  }

  function DefaultOrigin(action: AgentAction): string {
    Primitive(action) + ":" + action.Field("name", "")
  }

  /** Only `definition` asks the service: it is metered once, and once more when the symbol was found. */
  function Costs(action: AgentAction, lookup: Lookup): seq<nat> {
    if Primitive(action) != "definition" then []
    else if lookup.found.None? then [lookup.symbolCost]
    else [lookup.symbolCost, lookup.spanCost]
  }

  function SpanOrigin(at: Located): string {
    "read_span:" + at.file + ":" + Decimal(at.first) + "-" + Decimal(at.last)
  }

  function RetrievedSpan(action: AgentAction, lookup: Lookup): DataSpan {
    if Primitive(action) != "definition" || lookup.found.None? then DataSpan(DefaultOrigin(action), "")
    else DataSpan(SpanOrigin(lookup.found.value), lookup.found.value.content)
  }

  function StepKindOf(kind: ActionKind): StepKind {
    match kind
    case Plan => PlanStep
    case Retrieve => RetrieveStep
    case Edit => EditStep
    case Verify => VerifyStep
    case GiveUp => PlanStep
    case Rename => EditStep
  }

  function RowOf(m: Move, payload: Payload): JournalRow {
    JournalRow(m.turn.step, StepKindOf(m.action.kind), m.reply.xml, m.reply.Charge(), payload)
  }

  /** The container applies the patch to its copy of the snapshot and only then runs the tests. */
  function Verdict(cfg: Config, snapshot: Tree, ops: seq<PatchOp>, nonce: int): bool {
    Applies(ops, cfg.inside) && cfg.tests(ApplyAll(snapshot, ops), nonce)
  }

  function VerifiedAt(rows: seq<JournalRow>, step: nat): bool {
    match RowAt(rows, step)
    case None => false
    case Some(row) => row.payload.Verified? && row.payload.verified
  }

  function FailureSpan(rows: seq<JournalRow>, step: nat): DataSpan {
    var output := match RowAt(rows, step)
      case None => ""
      case Some(row) => if row.payload.Verified? then row.payload.output else "";
    DataSpan("sandbox_failure:step:" + Decimal(step), output)
  }

  function Decimal(n: nat): string {
    if n < 10 then [('0' as int + n) as char] else Decimal(n / 10) + [('0' as int + n % 10) as char]
  }

  function AfterStep(m: Move, extraSpans: seq<DataSpan>, repairs: nat): Pc {
    AtHead(Turn(m.turn.step + 1, repairs, m.turn.spans + extraSpans))
  }

  // ---------------------------------------------------------------------------------------------
  // The step function: None means the event is not possible here.

  function Step(cfg: Config, s: State, e: Event): Option<State> {
    match e
    case Crash => if s.pc.Down? then None else Some(Die(s))
    case Resuming(r) => StepResume(cfg, s, r)
    case Heading(h) => StepHead(cfg, s, h)
    case Retrieving(r) => StepRetrieve(cfg, s, r)
    case Editing(ed) => StepEdit(cfg, s, ed)
    case RenamingFiles(r) => StepRename(cfg, s, r)
    case RunSandbox(nonce, output) => StepSandbox(cfg, s, nonce, output)
    case Recording(r) => StepRecord(cfg, s, r)
    case Closing(c) => StepEnd(cfg, s, c)
  }

  function StepResume(cfg: Config, s: State, e: ResumeEvent): Option<State> {
    var d := s.disk;
    var k := FirstUncharged(d.journal, CommittedSteps(d.ledger, cfg));
    match e
    case Start =>
      if s.pc.Down? && !d.task.IsTerminal() then Some(s.(pc := Reconciling)) else None
    case ReconcileOne =>
      if s.pc.Reconciling? && k < |d.journal| then
        Some(s.(disk := d.(ledger := d.ledger + [ReconcileCommit(cfg, d.journal[k])])))
      else None
    case ReconcileDone =>
      if s.pc.Reconciling? && k == |d.journal| then Some(s.(disk := d.(task := Running), pc := Opening)) else None
    case Open(base, head) =>
      if s.pc.Opening? then
        Some(s.(disk := d.(worktree := if d.worktree.None? then Some(base) else d.worktree),
             pc := AtHead(Resume(d)), handle := head))
      else None
  }

  function StepHead(cfg: Config, s: State, e: HeadEvent): Option<State> {
    if !s.pc.AtHead? then None
    else match e
         case StopAtHead(late) =>
           if late || Breached(cfg, s.disk, s.pc.turn) then Some(s.(pc := Ending(BudgetExhausted))) else None
         case CallModel(nonce) =>
           if Breached(cfg, s.disk, s.pc.turn) then None else
           var reply := cfg.model(s.pc.turn.step, s.pc.turn.spans, nonce);
           var called := s.(world := s.world.(modelCalls := s.world.modelCalls + 1));
           Some(match cfg.parse(reply.xml)
                case None => Die(called)
                case Some(action) => called.(pc := Acting(Move(s.pc.turn, reply, action))))
  }

  function StepRetrieve(cfg: Config, s: State, e: RetrieveEvent): Option<State> {
    match e
    case NoEffect =>
      if s.pc.Acting? && s.pc.move.action.kind in {Plan, GiveUp} then
        Some(s.(pc := Acted(s.pc.move, Nothing, false)))
      else None
    case BeginRetrieve(lookup) =>
      if s.pc.Acting? && s.pc.move.action.kind == Retrieve then
        var m := s.pc.move;
        Some(s.(pc := Charging(m, Costs(m.action, lookup), RetrievedSpan(m.action, lookup))))
      else None
    case ChargeRetrieval(note) =>
      if s.pc.Charging? && s.pc.costs != [] then
        Some(match Charge(s.disk.ledger, cfg.Scope(), s.pc.costs[0], cfg.tokenBudget, None, None, note)
             case None => Die(s)
             case Some(rows) => s.(disk := s.disk.(ledger := rows), pc := s.pc.(costs := s.pc.costs[1..])))
      else None
    case EndRetrieve =>
      if s.pc.Charging? && s.pc.costs == [] then
        var m := s.pc.move;
        var told := m.(turn := m.turn.(spans := m.turn.spans + [s.pc.span]));
        Some(s.(pc := Acted(told, Retrieved(s.pc.span.origin), false)))
      else None
  }

  function StepEdit(cfg: Config, s: State, e: EditEvent): Option<State> {
    var d, w := s.disk, s.world;
    if d.worktree.None? then None
    else match e
         case BeginEdit =>
           if !s.pc.Acting? || s.pc.move.action.kind != Edit then None
           else if "file_path" !in s.pc.move.action.fields then Some(Die(s))
           else
             var op := EditOp(s.pc.move.action);
             if cfg.hash(op) in d.artifacts then
               Some(s.(pc := Acted(s.pc.move, Edited(op), false)))
             else
               Some(s.(disk := d.(artifacts := d.artifacts + [cfg.hash(op)]), pc := Recorded(s.pc.move, op)))
         case ApplyEdit =>
           if !s.pc.Recorded? then None
           else if !cfg.inside(s.pc.op.path) then Some(Die(s))
           else
             Some(s.(disk := d.(worktree := Some(ApplyToWorktree(d.worktree.value, s.pc.op))),
                  world := w.(applied := w.applied + [cfg.hash(s.pc.op)]),
                  pc := Acted(s.pc.move, Edited(s.pc.op), true)))
  }

  /** One file of a rename: skipped when missing or without the name, gated on the content hash, or recorded. */
  function RenameNext(cfg: Config, s: State, tree: Tree): State
    requires s.pc.Renaming? && s.pc.todo != []
  {
    var m, p, rest := s.pc.move, s.pc.todo[0], s.pc.todo[1..];
    if p !in tree then s.(pc := Renaming(m, rest, s.pc.files, s.pc.wrote))
    else
      var updated := cfg.rewrite(tree[p], m.action.Field("old_name", ""), m.action.Field("new_name", ""));
      var op := PatchOp("write", p, updated);
      if updated == tree[p] then s.(pc := Renaming(m, rest, s.pc.files, s.pc.wrote))
      else if cfg.hash(op) in s.disk.artifacts then s.(pc := Renaming(m, rest, s.pc.files + [p], s.pc.wrote))
      else s.(disk := s.disk.(artifacts := s.disk.artifacts + [cfg.hash(op)]),
           pc := RenameRecorded(m, op, rest, s.pc.files, s.pc.wrote))
  }

  function StepRename(cfg: Config, s: State, e: RenameEvent): Option<State> {
    var d, w := s.disk, s.world;
    if d.worktree.None? then None
    else match e
         case BeginRename(affected) =>
           if !s.pc.Acting? || s.pc.move.action.kind != Rename then None
           else
             var names := s.pc.move.action;
             if names.Field("old_name", "") == "" || names.Field("new_name", "") == "" then
               Some(s.(pc := Acted(s.pc.move, Renamed([]), false)))
             else
               Some(s.(pc := Renaming(s.pc.move, Strings.SortedKeys(affected), [], false)))
         case RenameFile =>
           if s.pc.Renaming? && s.pc.todo != [] then Some(RenameNext(cfg, s, d.worktree.value)) else None
         case ApplyRename =>
           if !s.pc.RenameRecorded? then None
           else if !cfg.inside(s.pc.op.path) then Some(Die(s))
           else
             Some(s.(disk := d.(worktree := Some(ApplyToWorktree(d.worktree.value, s.pc.op))),
                  world := w.(applied := w.applied + [cfg.hash(s.pc.op)]),
                  pc := Renaming(s.pc.move, s.pc.todo, s.pc.files + [s.pc.op.path], true)))
         case EndRename =>
           if s.pc.Renaming? && s.pc.todo == [] then
             Some(s.(pc := Acted(s.pc.move, Renamed(s.pc.files), s.pc.wrote)))
           else None
  }

  function StepSandbox(cfg: Config, s: State, nonce: int, output: string): Option<State> {
    if s.pc.Acting? && s.pc.move.action.kind == Verify && s.disk.worktree.Some? then
      var snapshot := s.disk.worktree.value;
      var ops := CombinedPatch(s.disk.journal, snapshot);
      var verified := Verdict(cfg, snapshot, ops, nonce);
      Some(s.(world := s.world.(runs := s.world.runs + [SandboxRun(snapshot, ops, nonce, verified)]),
           pc := Acted(s.pc.move, Verified(verified, output), false)))
    else None
  }

  function StepRecord(cfg: Config, s: State, e: RecordEvent): Option<State> {
    var d := s.disk;
    match e
    case AppendJournal =>
      if !s.pc.Acted? then None
      else
        var row := RowOf(s.pc.move, s.pc.payload);
        Some((if RowAt(d.journal, row.step).Some? then s else WithRow(s, row)).(pc := Journaled(s.pc.move)))
    case CommitCharge =>
      if !s.pc.Journaled? then None
      else
        var m := s.pc.move;
        var charged := m.turn.step in CommittedSteps(d.ledger, cfg);
        Some(s.(disk := if charged then d else d.(ledger := d.ledger + [ModelCommit(cfg, m)]),
             pc := Charged(m)))
    case Meter =>
      if s.pc.Charged? then Some(s.(disk := d.(toolCalls := d.toolCalls + 1), pc := Deciding(s.pc.move))) else None
  }

  /** Where the loop goes once the step is journaled, charged and metered. */
  function Decision(cfg: Config, rows: seq<JournalRow>, m: Move): Pc {
    if m.action.kind == GiveUp then Ending(GaveUp)
    else if m.action.kind != Verify then AfterStep(m, [], m.turn.repairs)
    else if VerifiedAt(rows, m.turn.step) then (if cfg.apply then Publishing else Ending(VerifiedSuccess))
    else if m.turn.repairs >= MAX_REPAIR_ATTEMPTS then Ending(GaveUp)
    else AfterStep(m, [FailureSpan(rows, m.turn.step)], m.turn.repairs + 1)
  }

  function StepEnd(cfg: Config, s: State, e: EndEvent): Option<State> {
    var d, w := s.disk, s.world;
    match e
    case Decide => if s.pc.Deciding? then Some(s.(pc := Decision(cfg, d.journal, s.pc.move))) else None
    case Publish(found) =>
      if !s.pc.Publishing? || d.worktree.None? then None
      else if found.LockTimeout? || found.head != s.handle then Some(s.(pc := Ending(GaveUp)))
      else
        var overlay := Publication(found.base, d.worktree.value, w.stale);
        Some(s.(world := w.(published := w.published + [overlay]), pc := Ending(VerifiedSuccess)))
    case Finish =>
      if s.pc.Ending? then Some(s.(disk := d.(task := s.pc.verdict), pc := Down)) else None
  }

  /** The state after a list of events, or None when one of them was not possible. */
  function Execute(cfg: Config, start: State, events: seq<Event>): Option<State> {
    if events == [] then Some(start)
    else match Execute(cfg, start, events[..|events| - 1])
         case None => None
         case Some(s) => Step(cfg, s, events[|events| - 1])
  }

  lemma ExecuteOneMore(cfg: Config, start: State, events: seq<Event>, e: Event)
    requires Execute(cfg, start, events).Some?
    ensures Execute(cfg, start, events + [e]) == Step(cfg, Execute(cfg, start, events).value, e)
  {
    assert (events + [e])[..|events|] == events;
  }
}
