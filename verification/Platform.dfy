/**
 The kernel inside the shared workspace: the machine of one task (Kernel.dfy) and the machine of the workspace
 (Workspace.dfy) step together, while other tasks take any steps of theirs in between.

 The kernel opens the base and head that the workspace shows, its worktree is the one in the workspace, its
 publication is the base check of a commit, whose files are then copied one by one before the task can finish, and
 its death is the death of that commit.
 */
module Platform {
  import opened Common
  import opened Patches
  import K = Kernel
  import S = KernelStructure
  import F = KernelFidelity
  import T = KernelTheorems
  import W = Workspace

  datatype State = State(kernel: K.State, shared: W.State)

  datatype Event = Others(step: W.Event) | Runner(event: K.Event) | Commit(step: W.Event)

  predicate Idle(t: W.TaskId, shared: W.State) {
    t in shared.tasks ==> shared.tasks[t].phase.Working?
  }

  /** What a kernel step that was no death does to the workspace. */
  function Follow(snap: W.Snap, t: W.TaskId, k: K.State, e: K.Event, k': K.State, shared: W.State): Option<W.State> {
    match e
    case Resuming(Open(base, head)) =>
      if base != shared.base || head != shared.head then None
      else W.Step(snap, shared, if t in shared.tasks then W.Reopen(t) else W.Open(t, {}))
    case Closing(Publish(LockTimeout)) => if shared.lock.Some? && Idle(t, shared) then Some(shared) else None
    case Closing(Publish(Locked(base, head))) =>
      if base != shared.base || head != shared.head then None
      else W.Step(snap, shared, if head == k.handle then W.Check(t) else W.Refuse(t))
    case Closing(Finish) => if Idle(t, shared) then Some(shared) else None
    case _ =>
      if t in shared.tasks && k'.disk.worktree.Some? && k'.disk.worktree.value != shared.tasks[t].worktree then
        W.Step(snap, shared, W.Write(t, k'.disk.worktree.value))
      else Some(shared)
  }

  function FollowDeath(snap: W.Snap, t: W.TaskId, shared: W.State): Option<W.State> {
    if Idle(t, shared) then Some(shared) else W.Step(snap, shared, W.Die(t))
  }

  predicate Dies(k: K.State, k': K.State) {
    k'.world.crashes > k.world.crashes
  }

  function RunnerStep(cfg: K.Config, snap: W.Snap, s: State, e: K.Event): Option<State> {
    match K.Step(cfg, s.kernel, e)
    case None => None
    case Some(k') =>
      match (if Dies(s.kernel, k') then FollowDeath(snap, cfg.taskId, s.shared)
             else Follow(snap, cfg.taskId, s.kernel, e, k', s.shared))
      case None => None
      case Some(shared) => Some(State(k', shared))
  }

  /** The commit's own steps: it takes the lock for the handle, and copies and advances once the check has passed. */
  predicate InCommit(k: K.State, e: W.Event) {
    match e
    case Acquire(_, claim) => k.pc.Publishing? && claim == k.handle
    case CopyFile(_, _) => k.pc == K.Ending(K.VerifiedSuccess)
    case Advance(_) => k.pc == K.Ending(K.VerifiedSuccess)
    case _ => false
  }

  function Step(cfg: K.Config, snap: W.Snap, s: State, e: Event): Option<State> {
    match e
    case Runner(k) => RunnerStep(cfg, snap, s, k)
    case Others(w) =>
      if w.t == cfg.taskId || W.Step(snap, s.shared, w).None? then None
      else Some(s.(shared := W.Step(snap, s.shared, w).value))
    case Commit(w) =>
      if w.t != cfg.taskId || !InCommit(s.kernel, w) || W.Step(snap, s.shared, w).None? then None
      else Some(s.(shared := W.Step(snap, s.shared, w).value))
  }

  function Execute(cfg: K.Config, snap: W.Snap, start: State, events: seq<Event>): Option<State> {
    if events == [] then Some(start)
    else match Execute(cfg, snap, start, events[..|events| - 1])
         case None => None
         case Some(s) => Step(cfg, snap, s, events[|events| - 1])
  }

  // ---------------------------------------------------------------------------------------------
  // How the two states fit together

  /** A run that may still open the worktree. */
  predicate Starting(k: K.State) {
    k.pc.Reconciling? || k.pc.Opening? || (k.pc.Down? && !k.disk.task.IsTerminal())
  }

  predicate SameWorktree(t: W.TaskId, k: K.State, shared: W.State) {
    && (t in shared.tasks <==> k.disk.worktree.Some?)
    && (t in shared.tasks ==>
          && shared.tasks[t].worktree == k.disk.worktree.value && shared.tasks[t].handle == k.handle)
  }

  predicate PhaseFits(cfg: K.Config, k: K.State, shared: W.State) {
    cfg.taskId in shared.tasks ==>
      match shared.tasks[cfg.taskId].phase
      case Working => true
      case Holding(claim) => k.pc.Publishing? && claim == k.handle
      case Copying(_) => k.pc == K.Ending(K.VerifiedSuccess) && cfg.apply
  }

  /** Without a crash the worktree is opened once, so its handle is the first one. */
  predicate FirstHandle(t: W.TaskId, k: K.State, shared: W.State) {
    k.world.crashes == 0 ==>
      && (t in shared.tasks ==> shared.tasks[t].vended == shared.tasks[t].copied)
      && (Starting(k) ==> k.disk.worktree.None?)
  }

  /** The commit behind a publication. */
  predicate Answers(t: W.TaskId, crashes: nat, pub: K.Publication, c: W.Commit) {
    && c.task == t && c.before == pub.base && c.work.worktree == pub.worktree && c.claim == c.work.handle
    && (crashes == 0 ==> c.work.vended == c.work.copied)
  }

  ghost predicate Backed(t: W.TaskId, k: K.State, shared: W.State)
    requires k.world.published != []
  {
    var pub := k.world.published[|k.world.published| - 1];
    if Idle(t, shared) then exists c <- shared.log :: c.advanced && Answers(t, k.world.crashes, pub, c)
    else shared.log != [] && Answers(t, k.world.crashes, pub, W.Newest(shared))
  }

  ghost predicate Coupled(cfg: K.Config, s: State) {
    && SameWorktree(cfg.taskId, s.kernel, s.shared)
    && PhaseFits(cfg, s.kernel, s.shared)
    && FirstHandle(cfg.taskId, s.kernel, s.shared)
    && (s.kernel.pc.Publishing? ==> cfg.apply)
    && (F.Succeeded(s.kernel) && cfg.apply ==>
          s.kernel.world.published != [] && Backed(cfg.taskId, s.kernel, s.shared))
  }

  // ---------------------------------------------------------------------------------------------
  // Steps of the others and of the commit itself

  lemma OthersKeep(snap: W.Snap, t: W.TaskId, shared: W.State, e: W.Event)
    requires e.t != t && W.Step(snap, shared, e).Some?
    ensures var shared' := W.Step(snap, shared, e).value;
            (t in shared'.tasks <==> t in shared.tasks) && (t in shared.tasks ==> shared'.tasks[t] == shared.tasks[t])
  {
  }

  /** A task's finished commits stay in the log, and while it is committing nobody else touches the log. */
  lemma OthersKeepLog(snap: W.Snap, t: W.TaskId, shared: W.State, e: W.Event)
    requires e.t != t && W.LockFits(shared) && W.LogFits(shared) && W.Step(snap, shared, e).Some?
    ensures var shared' := W.Step(snap, shared, e).value;
            && (!Idle(t, shared) ==> shared'.log == shared.log)
            && (forall c <- shared.log :: c.task == t ==> c in shared'.log)
  {
    var shared' := W.Step(snap, shared, e).value;
    forall c | c in shared.log && c.task == t
      ensures c in shared'.log
    {
      var i :| 0 <= i < |shared.log| && shared.log[i] == c;
      if e.CopyFile? || e.Advance? {
        assert W.MidCommit(shared) && W.Newest(shared).task == e.t;
        assert i < |shared.log| - 1;
      }
      assert shared'.log[i] == c;
    }
  }

  lemma CoupledByOthers(cfg: K.Config, snap: W.Snap, s: State, e: W.Event)
    requires Coupled(cfg, s) && W.LockFits(s.shared) && W.LogFits(s.shared)
    requires Step(cfg, snap, s, Others(e)).Some?
    ensures Coupled(cfg, Step(cfg, snap, s, Others(e)).value)
  {
    var s' := Step(cfg, snap, s, Others(e)).value;
    hide W.Step;
    OthersKeep(snap, cfg.taskId, s.shared, e);
    OthersKeepLog(snap, cfg.taskId, s.shared, e);
  }

  lemma AcquireKeeps(cfg: K.Config, snap: W.Snap, s: State, claim: string)
    requires Coupled(cfg, s) && Step(cfg, snap, s, Commit(W.Acquire(cfg.taskId, claim))).Some?
    requires s.kernel.pc.Publishing? ==> !s.kernel.disk.task.VerifiedSuccess?
    ensures Coupled(cfg, Step(cfg, snap, s, Commit(W.Acquire(cfg.taskId, claim))).value)
  {
  }

  lemma CopyKeeps(cfg: K.Config, snap: W.Snap, s: State, path: Path)
    requires Coupled(cfg, s) && Step(cfg, snap, s, Commit(W.CopyFile(cfg.taskId, path))).Some?
    ensures Coupled(cfg, Step(cfg, snap, s, Commit(W.CopyFile(cfg.taskId, path))).value)
  {
  }

  lemma AdvanceKeeps(cfg: K.Config, snap: W.Snap, s: State)
    requires Coupled(cfg, s) && Step(cfg, snap, s, Commit(W.Advance(cfg.taskId))).Some?
    ensures Coupled(cfg, Step(cfg, snap, s, Commit(W.Advance(cfg.taskId))).value)
  {
    var s' := Step(cfg, snap, s, Commit(W.Advance(cfg.taskId))).value;
    assert W.Newest(s'.shared) == W.Newest(s.shared).(advanced := true);
    assert W.Newest(s'.shared) in s'.shared.log;
  }

  lemma CoupledByCommit(cfg: K.Config, snap: W.Snap, s: State, e: W.Event)
    requires Coupled(cfg, s) && S.VerdictFits(s.kernel) && Step(cfg, snap, s, Commit(e)).Some?
    ensures Coupled(cfg, Step(cfg, snap, s, Commit(e)).value)
  {
    match e
    case Acquire(t, claim) => AcquireKeeps(cfg, snap, s, claim);
    case CopyFile(t, path) => CopyKeeps(cfg, snap, s, path);
    case Advance(t) => AdvanceKeeps(cfg, snap, s);
    case _ =>
  }

  // ---------------------------------------------------------------------------------------------
  // Steps of the kernel

  predicate IsCoupled(e: K.Event) {
    (e.Resuming? && e.resume.Open?) || (e.Closing? && !e.end.Decide?)
  }

  /** All that the coupling needs to know of any other step. */
  predicate Quiet(cfg: K.Config, k: K.State, k': K.State) {
    && k'.handle == k.handle && k'.world.published == k.world.published && k'.world.crashes == k.world.crashes
    && (k'.disk.worktree.Some? <==> k.disk.worktree.Some?)
    && !k.pc.Publishing? && !k.pc.Ending?
    && (Starting(k') ==> Starting(k))
    && (F.Succeeded(k') && cfg.apply ==> F.Succeeded(k))
    && (k'.pc.Publishing? ==> cfg.apply)
  }

  lemma ResumeIsQuiet(cfg: K.Config, k: K.State, e: K.ResumeEvent)
    requires K.StepResume(cfg, k, e).Some? && !e.Open? && S.VerdictFits(k)
    ensures Quiet(cfg, k, K.StepResume(cfg, k, e).value)
  {
  }

  lemma HeadIsQuiet(cfg: K.Config, k: K.State, e: K.HeadEvent)
    requires K.StepHead(cfg, k, e).Some? && !Dies(k, K.StepHead(cfg, k, e).value)
    ensures Quiet(cfg, k, K.StepHead(cfg, k, e).value)
  {
  }

  lemma RetrieveIsQuiet(cfg: K.Config, k: K.State, e: K.RetrieveEvent)
    requires K.StepRetrieve(cfg, k, e).Some? && !Dies(k, K.StepRetrieve(cfg, k, e).value)
    ensures Quiet(cfg, k, K.StepRetrieve(cfg, k, e).value)
  {
  }

  lemma EditIsQuiet(cfg: K.Config, k: K.State, e: K.EditEvent)
    requires K.StepEdit(cfg, k, e).Some? && !Dies(k, K.StepEdit(cfg, k, e).value)
    ensures Quiet(cfg, k, K.StepEdit(cfg, k, e).value)
  {
  }

  lemma RenameIsQuiet(cfg: K.Config, k: K.State, e: K.RenameEvent)
    requires K.StepRename(cfg, k, e).Some? && !Dies(k, K.StepRename(cfg, k, e).value)
    ensures Quiet(cfg, k, K.StepRename(cfg, k, e).value)
  {
  }

  lemma RecordIsQuiet(cfg: K.Config, k: K.State, e: K.RecordEvent)
    requires K.StepRecord(cfg, k, e).Some?
    ensures Quiet(cfg, k, K.StepRecord(cfg, k, e).value)
  {
  }

  lemma StepIsQuiet(cfg: K.Config, k: K.State, e: K.Event)
    requires K.Step(cfg, k, e).Some? && !Dies(k, K.Step(cfg, k, e).value) && !IsCoupled(e) && S.VerdictFits(k)
    ensures Quiet(cfg, k, K.Step(cfg, k, e).value)
  {
    match e
    case Crash =>
    case Resuming(r) => ResumeIsQuiet(cfg, k, r);
    case Heading(h) => HeadIsQuiet(cfg, k, h);
    case Retrieving(r) => RetrieveIsQuiet(cfg, k, r);
    case Editing(ed) => EditIsQuiet(cfg, k, ed);
    case RenamingFiles(r) => RenameIsQuiet(cfg, k, r);
    case RunSandbox(_, _) =>
    case Recording(r) => RecordIsQuiet(cfg, k, r);
    case Closing(_) =>
  }

  lemma CoupledByQuiet(cfg: K.Config, snap: W.Snap, s: State, e: K.Event, k': K.State)
    requires Coupled(cfg, s) && Quiet(cfg, s.kernel, k') && !IsCoupled(e)
    requires Follow(snap, cfg.taskId, s.kernel, e, k', s.shared).Some?
    ensures Coupled(cfg, State(k', Follow(snap, cfg.taskId, s.kernel, e, k', s.shared).value))
  {
  }

  /** What a death leaves of the kernel. */
  predicate Died(k: K.State, k': K.State) {
    && k'.pc.Down? && k'.handle == k.handle && k'.disk.worktree == k.disk.worktree
    && k'.disk.task == k.disk.task && k'.world.crashes > 0
  }

  lemma DeathIs(cfg: K.Config, k: K.State, e: K.Event)
    requires K.Step(cfg, k, e).Some? && Dies(k, K.Step(cfg, k, e).value)
    ensures Died(k, K.Step(cfg, k, e).value) && !k.pc.Down?
  {
  }

  lemma CoupledByDeath(cfg: K.Config, snap: W.Snap, s: State, k': K.State)
    requires Coupled(cfg, s) && S.VerdictFits(s.kernel) && Died(s.kernel, k') && !s.kernel.pc.Down?
    requires FollowDeath(snap, cfg.taskId, s.shared).Some?
    ensures Coupled(cfg, State(k', FollowDeath(snap, cfg.taskId, s.shared).value))
  {
  }

  lemma CoupledByOpen(cfg: K.Config, snap: W.Snap, s: State, base: Tree, head: string)
    requires Coupled(cfg, s) && S.VerdictFits(s.kernel)
    requires RunnerStep(cfg, snap, s, K.Resuming(K.Open(base, head))).Some?
    ensures Coupled(cfg, RunnerStep(cfg, snap, s, K.Resuming(K.Open(base, head))).value)
  {
    assert s.shared.base - {} == s.shared.base;
  }

  lemma CoupledByPublish(cfg: K.Config, snap: W.Snap, s: State, found: K.CommitView)
    requires Coupled(cfg, s) && S.VerdictFits(s.kernel)
    requires RunnerStep(cfg, snap, s, K.Closing(K.Publish(found))).Some?
    ensures Coupled(cfg, RunnerStep(cfg, snap, s, K.Closing(K.Publish(found))).value)
  {
    if found.Locked? && found.head == s.kernel.handle {
      CoupledByCheck(cfg, snap, s, found.base);
    }
  }

  lemma CoupledByCheck(cfg: K.Config, snap: W.Snap, s: State, base: Tree)
    requires Coupled(cfg, s) && S.VerdictFits(s.kernel)
    requires RunnerStep(cfg, snap, s, K.Closing(K.Publish(K.Locked(base, s.kernel.handle)))).Some?
    ensures Coupled(cfg, RunnerStep(cfg, snap, s, K.Closing(K.Publish(K.Locked(base, s.kernel.handle)))).value)
  {
  }

  lemma CoupledByFinish(cfg: K.Config, snap: W.Snap, s: State)
    requires Coupled(cfg, s) && S.VerdictFits(s.kernel) && RunnerStep(cfg, snap, s, K.Closing(K.Finish)).Some?
    ensures Coupled(cfg, RunnerStep(cfg, snap, s, K.Closing(K.Finish)).value)
  {
  }

  lemma CoupledByRunner(cfg: K.Config, snap: W.Snap, s: State, e: K.Event)
    requires Coupled(cfg, s) && S.VerdictFits(s.kernel) && RunnerStep(cfg, snap, s, e).Some?
    ensures Coupled(cfg, RunnerStep(cfg, snap, s, e).value)
  {
    var k' := K.Step(cfg, s.kernel, e).value;
    hide Coupled, Quiet, Died, Follow, FollowDeath, K.Step;
    if Dies(s.kernel, k') {
      DeathIs(cfg, s.kernel, e);
      CoupledByDeath(cfg, snap, s, k');
    } else if !IsCoupled(e) {
      StepIsQuiet(cfg, s.kernel, e);
      CoupledByQuiet(cfg, snap, s, e, k');
    } else {
      match e
      case Resuming(Open(base, head)) => CoupledByOpen(cfg, snap, s, base, head);
      case Closing(Publish(found)) => CoupledByPublish(cfg, snap, s, found);
      case Closing(Finish) => CoupledByFinish(cfg, snap, s);
    }
  }

  /** What a kernel step assumes of the workspace is what the workspace shows. */
  predicate Sees(t: W.TaskId, e: K.Event, shared: W.State) {
    match e
    case Resuming(Open(base, head)) => base == shared.base && head == shared.head
    case Closing(Publish(LockTimeout)) => shared.lock.Some? && Idle(t, shared)
    case Closing(Publish(Locked(base, head))) => base == shared.base && head == shared.head && !Idle(t, shared)
    case Closing(Finish) => Idle(t, shared)
    case _ => true
  }

  /** The workspace holds up no step of the kernel that sees it as it is, and no death. */
  lemma KernelIsNotHeldUp(cfg: K.Config, snap: W.Snap, s: State, e: K.Event)
    requires Coupled(cfg, s) && S.VerdictFits(s.kernel) && K.Step(cfg, s.kernel, e).Some?
    requires Dies(s.kernel, K.Step(cfg, s.kernel, e).value) || Sees(cfg.taskId, e, s.shared)
    ensures RunnerStep(cfg, snap, s, e).Some?
  {
    var k' := K.Step(cfg, s.kernel, e).value;
    if !Dies(s.kernel, k') && !IsCoupled(e) {
      StepIsQuiet(cfg, s.kernel, e);
      hide K.Step;
    }
  }

  // ---------------------------------------------------------------------------------------------
  // Every history of both machines

  ghost predicate Invariant(cfg: K.Config, snap: W.Snap, first: Tree, s: State) {
    T.Invariant(cfg, s.kernel) && W.Protocol(snap, first, s.shared) && Coupled(cfg, s)
  }

  /** Seen from the workspace, each step is at most one of its own. */
  lemma SharedKept(cfg: K.Config, snap: W.Snap, first: Tree, s: State, e: Event)
    requires W.Protocol(snap, first, s.shared) && Step(cfg, snap, s, e).Some?
    ensures W.Protocol(snap, first, Step(cfg, snap, s, e).value.shared)
  {
    var shared' := Step(cfg, snap, s, e).value.shared;
    if shared' != s.shared {
      var w := SharedStep(cfg, snap, s, e);
      W.ProtocolKept(snap, first, s.shared, w);
    }
  }

  lemma SharedStep(cfg: K.Config, snap: W.Snap, s: State, e: Event) returns (w: W.Event)
    requires Step(cfg, snap, s, e).Some? && Step(cfg, snap, s, e).value.shared != s.shared
    ensures W.Step(snap, s.shared, w) == Some(Step(cfg, snap, s, e).value.shared)
  {
    hide K.Step, W.Step;
    var t := cfg.taskId;
    match e
    case Others(step) => w := step;
    case Commit(step) => w := step;
    case Runner(k) =>
      var k' := K.Step(cfg, s.kernel, k).value;
      var tree := if k'.disk.worktree.Some? then k'.disk.worktree.value else map[];
      if Dies(s.kernel, k') {
        w := W.Die(t);
      } else {
        match k
        case Resuming(Open(_, _)) => w := if t in s.shared.tasks then W.Reopen(t) else W.Open(t, {});
        case Closing(Publish(Locked(_, head))) => w := if head == s.kernel.handle then W.Check(t) else W.Refuse(t);
        case _ => w := W.Write(t, tree);
      }
  }

  lemma KernelKept(cfg: K.Config, snap: W.Snap, s: State, e: Event)
    requires T.Invariant(cfg, s.kernel) && Step(cfg, snap, s, e).Some?
    ensures T.Invariant(cfg, Step(cfg, snap, s, e).value.kernel)
  {
    hide T.Invariant, K.Step, W.Step;
    if e.Runner? {
      T.InvariantKept(cfg, s.kernel, e.event);
    }
  }

  lemma CoupledKept(cfg: K.Config, snap: W.Snap, first: Tree, s: State, e: Event)
    requires Invariant(cfg, snap, first, s) && Step(cfg, snap, s, e).Some?
    ensures Coupled(cfg, Step(cfg, snap, s, e).value)
  {
    hide Coupled, RunnerStep, W.Step, S.VariablesFit;
    match e
    case Others(w) => CoupledByOthers(cfg, snap, s, w);
    case Commit(w) => CoupledByCommit(cfg, snap, s, w);
    case Runner(k) => CoupledByRunner(cfg, snap, s, k);
  }

  lemma InvariantKept(cfg: K.Config, snap: W.Snap, first: Tree, s: State, e: Event)
    requires Invariant(cfg, snap, first, s) && Step(cfg, snap, s, e).Some?
    ensures Invariant(cfg, snap, first, Step(cfg, snap, s, e).value)
  {
    CoupledKept(cfg, snap, first, s, e);
    hide Coupled, T.Invariant, W.Protocol, Step;
    SharedKept(cfg, snap, first, s, e);
    KernelKept(cfg, snap, s, e);
  }

  /** The task begins in a workspace that other tasks have used in any way before. */
  ghost predicate Begins(snap: W.Snap, first: Tree, t: W.TaskId, earlier: seq<W.Event>, s: State) {
    && s.kernel == K.FRESH
    && W.Execute(snap, W.Fresh(snap, first), earlier) == Some(s.shared) && t !in s.shared.tasks
  }

  lemma {:induction false} InvariantAlways(cfg: K.Config, snap: W.Snap, first: Tree, earlier: seq<W.Event>,
                                           start: State, events: seq<Event>)
    requires Begins(snap, first, cfg.taskId, earlier, start) && Execute(cfg, snap, start, events).Some?
    ensures Invariant(cfg, snap, first, Execute(cfg, snap, start, events).value)
  {
    if events == [] {
      W.ProtocolAlways(snap, first, earlier);
      T.FreshHolds(cfg);
    } else {
      var front, last := events[..|events| - 1], events[|events| - 1];
      InvariantAlways(cfg, snap, first, earlier, start, front);
      InvariantKept(cfg, snap, first, Execute(cfg, snap, start, front).value, last);
    }
  }

  /** The commit that a success stands on. It copied the task's worktree onto the published base, completely; with
      no crash its handle is that of the first open; and then, where the handle holds, the base is the tree that
      the worktree was opened from, nobody's update is lost, and the result is the worktree if and only if no file
      of that tree was deleted. */
  ghost predicate StandsOn(snap: W.Snap, k: K.State, pub: K.Publication, c: W.Commit) {
    && c.advanced && c.left == {}
    && c.before == pub.base && Some(c.work.worktree) == Some(pub.worktree) == k.disk.worktree
    && c.After() == pub.Result() && c.claim == c.work.handle
    && (k.world.crashes == 0 ==>
          && c.work.vended == c.work.copied
          && (W.HandleHolds(snap, c) ==>
                && pub.base == c.work.copied && W.NoClobber(c)
                && (pub.Result() == pub.worktree <==> c.work.copied.Keys <= pub.worktree.Keys)))
  }

  lemma AnswerStands(snap: W.Snap, first: Tree, t: W.TaskId, k: K.State, shared: W.State, pub: K.Publication,
                     c: W.Commit)
    requires W.LogFits(shared) && W.IdsFit(snap, shared) && c in shared.log && c.advanced
    requires Answers(t, k.world.crashes, pub, c) && k.disk.worktree == Some(pub.worktree)
    ensures StandsOn(snap, k, pub, c)
  {
    assert c.work.worktree - {} == c.work.worktree;
    if k.world.crashes == 0 && W.HandleHolds(snap, c) {
      W.HandleNamesTheBase(snap, shared, c);
      W.NoClobberWhenCurrent(c);
      OverlayPublishesIff(c.before, c.work.worktree);
    }
  }

  /** After every history of a task among others in one workspace: a success in apply mode stands on a commit of its
      worktree, and behind it on a sandbox run whose tests passed. */
  lemma SuccessStandsOnACommit(cfg: K.Config, snap: W.Snap, first: Tree, earlier: seq<W.Event>, start: State,
                               events: seq<Event>)
    requires Begins(snap, first, cfg.taskId, earlier, start) && Execute(cfg, snap, start, events).Some?
    requires Execute(cfg, snap, start, events).value.kernel.disk.task.VerifiedSuccess? && cfg.apply
    ensures var s := Execute(cfg, snap, start, events).value;
            && s.kernel.world.published != []
            && var pub := s.kernel.world.published[|s.kernel.world.published| - 1];
            && (exists c <- s.shared.log :: StandsOn(snap, s.kernel, pub, c))
            && (exists run <- s.kernel.world.runs :: T.Backs(cfg, run, pub))
  {
    hide Execute, Begins, Invariant, StandsOn;
    InvariantAlways(cfg, snap, first, earlier, start, events);
    SuccessStands(cfg, snap, first, Execute(cfg, snap, start, events).value);
  }

  lemma SuccessStands(cfg: K.Config, snap: W.Snap, first: Tree, s: State)
    requires Invariant(cfg, snap, first, s) && s.kernel.disk.task.VerifiedSuccess? && cfg.apply
    ensures s.kernel.world.published != []
    ensures var pub := s.kernel.world.published[|s.kernel.world.published| - 1];
            && (exists c <- s.shared.log :: StandsOn(snap, s.kernel, pub, c))
            && (exists run <- s.kernel.world.runs :: T.Backs(cfg, run, pub))
  {
    hide StandsOn, Answers, T.Backs;
    var pub := s.kernel.world.published[|s.kernel.world.published| - 1];
    T.PublicationIsBacked(cfg, s.kernel, pub);
    assert Idle(cfg.taskId, s.shared);
    var c :| c in s.shared.log && c.advanced && Answers(cfg.taskId, s.kernel.world.crashes, pub, c);
    AnswerStands(snap, first, cfg.taskId, s.kernel, s.shared, pub, c);
  }
}
