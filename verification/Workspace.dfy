/**
 Optimistic commit of worktrees to one shared workspace (src/acp/workspace/service.py).

 A machine over the steps of any number of tasks: first open, re-open, writing in one's own worktree, and the steps of
 a commit under the lock (base check, one copied file after the other, head advance), with a death possible at each
 of them. `snap` is the snapshot id of a tree.
 */
module Workspace {
  import opened Common
  import opened Patches

  type TaskId = string

  datatype Phase = Working | Holding(claim: string) | Copying(todo: set<Path>)

  /** One task's checkout. `copied` is the base at the first open, `vended` the base when `handle` was handed out, and
      `named` says whether the handle was then the id of that base; they are history, the service stores none. */
  datatype Work = Work(worktree: Tree, copied: Tree, vended: Tree, handle: string, named: bool, phase: Phase)

  /** A commit that passed the base check: the base it found, the base commit it claimed, whether the head was then
      the id of that base, the files it has not copied, and whether it advanced the head. */
  datatype Commit = Commit(task: TaskId, before: Tree, work: Work, claim: string, named: bool, left: set<Path>,
                           advanced: bool)
  {
    function After(): Tree {
      Overlaying(before, work.worktree - left)
    }
  }

  datatype State = State(base: Tree, head: string, lock: Option<TaskId>, tasks: map<TaskId, Work>, log: seq<Commit>)

  /** The copy of a first open may be cut short by a death, which leaves out the files in `missed`. */
  datatype Event =
    | Open(t: TaskId, missed: set<Path>)
    | Reopen(t: TaskId)
    | Write(t: TaskId, tree: Tree)
    | Acquire(t: TaskId, claim: string)
    | Refuse(t: TaskId)
    | Check(t: TaskId)
    | CopyFile(t: TaskId, path: Path)
    | Advance(t: TaskId)
    | Die(t: TaskId)

  type Snap = Tree -> string

  function Fresh(snap: Snap, base: Tree): State {
    State(base, snap(base), None, map[], [])
  }

  predicate HeadIsNamed(snap: Snap, s: State) {
    s.head == snap(s.base)
  }

  function Opened(snap: Snap, s: State, missed: set<Path>): Work {
    Work(s.base - missed, s.base, s.base, s.head, HeadIsNamed(snap, s), Working)
  }

  function Released(s: State, t: TaskId): State
    requires t in s.tasks
  {
    s.(lock := None, tasks := s.tasks[t := s.tasks[t].(phase := Working)])
  }

  function Newest(s: State): Commit
    requires s.log != []
  {
    s.log[|s.log| - 1]
  }

  function WithNewest(s: State, c: Commit): State
    requires s.log != []
  {
    s.(log := s.log[..|s.log| - 1] + [c])
  }

  /** The base check has passed. */
  function Accepted(snap: Snap, s: State, t: TaskId, claim: string): State
    requires t in s.tasks
  {
    var work := s.tasks[t];
    var todo := work.worktree.Keys;
    s.(tasks := s.tasks[t := work.(phase := Copying(todo))],
    log := s.log + [Commit(t, s.base, work, claim, HeadIsNamed(snap, s), todo, false)])
  }

  function Copied(s: State, t: TaskId, path: Path): State
    requires t in s.tasks && s.tasks[t].phase.Copying? && path in s.tasks[t].worktree && s.log != []
  {
    var work, c := s.tasks[t], Newest(s);
    WithNewest(s, c.(left := c.left - {path}))
    .(base := s.base[path := work.worktree[path]],
    tasks := s.tasks[t := work.(phase := Copying(work.phase.todo - {path}))])
  }

  function Step(snap: Snap, s: State, e: Event): Option<State> {
    var t := e.t;
    if e.Open? then
      if t in s.tasks then None else Some(s.(tasks := s.tasks[t := Opened(snap, s, e.missed)]))
    else if t !in s.tasks then None
    else
      var work := s.tasks[t];
      match e
      case Reopen(_) =>
        if work.phase.Working? then
          Some(s.(tasks := s.tasks[t := work.(vended := s.base, handle := s.head, named := HeadIsNamed(snap, s))]))
        else None
      case Write(_, tree) =>
        if work.phase.Working? then Some(s.(tasks := s.tasks[t := work.(worktree := tree)])) else None
      case Acquire(_, claim) =>
        if work.phase.Working? && s.lock.None? then
          Some(s.(lock := Some(t), tasks := s.tasks[t := work.(phase := Holding(claim))]))
        else None
      case Refuse(_) =>
        if work.phase.Holding? && s.head != work.phase.claim then Some(Released(s, t)) else None
      case Check(_) =>
        if work.phase.Holding? && s.head == work.phase.claim then Some(Accepted(snap, s, t, s.head)) else None
      case CopyFile(_, path) =>
        if work.phase.Copying? && path in work.phase.todo && path in work.worktree && s.log != [] then
          Some(Copied(s, t, path))
        else None
      case Advance(_) =>
        if work.phase == Copying({}) && s.log != [] then
          Some(WithNewest(Released(s, t), Newest(s).(advanced := true)).(head := snap(s.base)))
        else None
      case Die(_) => if work.phase.Working? then None else Some(Released(s, t))
  }

  function Execute(snap: Snap, start: State, events: seq<Event>): Option<State> {
    if events == [] then Some(start)
    else match Execute(snap, start, events[..|events| - 1])
         case None => None
         case Some(s) => Step(snap, s, events[|events| - 1])
  }

  lemma ExecuteOneMore(snap: Snap, start: State, events: seq<Event>, e: Event)
    requires Execute(snap, start, events).Some?
    ensures Execute(snap, start, events + [e]) == Step(snap, Execute(snap, start, events).value, e)
  {
    assert (events + [e])[..|events|] == events;
  }

  // ---------------------------------------------------------------------------------------------
  // The protocol invariant

  /** The lock is held exactly by the one task that is inside a commit. */
  ghost predicate LockFits(s: State) {
    && (forall t <- s.tasks :: !s.tasks[t].phase.Working? <==> s.lock == Some(t))
    && (s.lock.Some? ==> s.lock.value in s.tasks)
  }

  /** The lock holder is past the base check. */
  predicate MidCommit(s: State) {
    s.lock.Some? && s.lock.value in s.tasks && s.tasks[s.lock.value].phase.Copying?
  }

  /** The newest commit is the one under way, if any is, and knows what is left to copy; an advanced commit copied
      everything. */
  ghost predicate LogFits(s: State) {
    && (MidCommit(s) ==>
          && s.log != []
          && var c, work := Newest(s), s.tasks[s.lock.value];
          && c.task == s.lock.value && c.work.worktree == work.worktree && c.left == work.phase.todo && !c.advanced)
    && (forall c <- s.log :: c.left <= c.work.worktree.Keys && (c.advanced ==> c.left == {}))
  }

  /** The base before the n-th commit: the first tree, or what the commit before left. */
  function BaseAt(start: Tree, log: seq<Commit>, n: nat): Tree
    requires n <= |log|
  {
    if n == 0 then start else log[n - 1].After()
  }

  /** The commits form one chain from the first tree to the present one. */
  ghost predicate Chained(start: Tree, s: State) {
    && s.base == BaseAt(start, s.log, |s.log|)
    && forall i {:trigger BaseAt(start, s.log, i)} :: 0 <= i < |s.log| ==> s.log[i].before == BaseAt(start, s.log, i)
  }

  /** No commit was cut short right before the n-th. */
  predicate UntornBefore(log: seq<Commit>, n: nat)
    requires n <= |log|
  {
    n == 0 || log[n - 1].advanced
  }

  ghost predicate NamesFit(snap: Snap, work: Work) {
    work.named ==> work.handle == snap(work.vended)
  }

  /** Outside commits the head names the base, unless the last commit was cut short. */
  predicate HeadFits(snap: Snap, s: State) {
    !MidCommit(s) && UntornBefore(s.log, |s.log|) ==> HeadIsNamed(snap, s)
  }

  /** And so it did at every base check that did not come right behind a commit cut short. */
  ghost predicate ChecksFit(s: State) {
    forall i {:trigger UntornBefore(s.log, i)} :: 0 <= i < |s.log| && UntornBefore(s.log, i) ==> s.log[i].named
  }

  /** Handles and claims that are marked so name the trees they were recorded with. */
  ghost predicate IdsFit(snap: Snap, s: State) {
    && (forall t <- s.tasks :: NamesFit(snap, s.tasks[t]))
    && (forall c <- s.log :: NamesFit(snap, c.work) && (c.named ==> c.claim == snap(c.before)))
  }

  ghost predicate Protocol(snap: Snap, start: Tree, s: State) {
    && LockFits(s) && LogFits(s) && Chained(start, s)
    && HeadFits(snap, s) && ChecksFit(s) && IdsFit(snap, s)
  }

  lemma LockKept(snap: Snap, s: State, e: Event)
    requires LockFits(s) && Step(snap, s, e).Some?
    ensures LockFits(Step(snap, s, e).value)
  {
  }

  lemma LogKept(snap: Snap, s: State, e: Event)
    requires LockFits(s) && LogFits(s) && Step(snap, s, e).Some?
    ensures LogFits(Step(snap, s, e).value)
  {
  }

  /** One more file: what the commit has left behind so far grows by it. */
  lemma CopyExtendsOverlay(before: Tree, worktree: Tree, left: set<Path>, path: Path)
    requires path in worktree && path in left
    ensures Overlaying(before, worktree - left)[path := worktree[path]]
         == Overlaying(before, worktree - (left - {path}))
  {
  }

  /** A chain grows by one commit, and its last link may be replaced by one over the same base. */
  lemma ChainGrows(start: Tree, s: State, c: Commit, s': State)
    requires Chained(start, s) && s'.log == s.log + [c] && c.before == s.base && s'.base == c.After()
    ensures Chained(start, s')
  {
    forall i | 0 <= i < |s'.log|
      ensures s'.log[i].before == BaseAt(start, s'.log, i)
    {
      if i < |s.log| {
        assert s.log[i].before == BaseAt(start, s.log, i);
      }
    }
  }

  lemma LastLinkChanges(start: Tree, s: State, c: Commit, s': State)
    requires Chained(start, s) && s.log != [] && s'.log == WithNewest(s, c).log
    requires c.before == Newest(s).before && s'.base == c.After()
    ensures Chained(start, s')
  {
    forall i | 0 <= i < |s'.log|
      ensures s'.log[i].before == BaseAt(start, s'.log, i)
    {
      assert s.log[i].before == BaseAt(start, s.log, i);
    }
  }

  lemma ChainKeptByCheck(snap: Snap, start: Tree, s: State, t: TaskId)
    requires Chained(start, s) && Step(snap, s, Check(t)).Some?
    ensures Chained(start, Step(snap, s, Check(t)).value)
  {
    var s' := Step(snap, s, Check(t)).value;
    var c := Newest(s');
    assert c.work.worktree - c.left == map[];
    ChainGrows(start, s, c, s');
  }

  lemma ChainKeptByCopy(snap: Snap, start: Tree, s: State, t: TaskId, path: Path)
    requires LockFits(s) && LogFits(s) && Chained(start, s) && Step(snap, s, CopyFile(t, path)).Some?
    ensures Chained(start, Step(snap, s, CopyFile(t, path)).value)
  {
    var s', c := Step(snap, s, CopyFile(t, path)).value, Newest(s);
    assert MidCommit(s) && s.lock == Some(t);
    CopyExtendsOverlay(c.before, c.work.worktree, c.left, path);
    LastLinkChanges(start, s, c.(left := c.left - {path}), s');
  }

  lemma ChainKept(snap: Snap, start: Tree, s: State, e: Event)
    requires LockFits(s) && LogFits(s) && Chained(start, s) && Step(snap, s, e).Some?
    ensures Chained(start, Step(snap, s, e).value)
  {
    match e
    case Check(t) => ChainKeptByCheck(snap, start, s, t);
    case CopyFile(t, path) => ChainKeptByCopy(snap, start, s, t, path);
    case Advance(t) => LastLinkChanges(start, s, Newest(s).(advanced := true), Step(snap, s, e).value);
    case _ =>
  }

  lemma HeadKept(snap: Snap, s: State, e: Event)
    requires LockFits(s) && LogFits(s) && HeadFits(snap, s) && Step(snap, s, e).Some?
    ensures HeadFits(snap, Step(snap, s, e).value)
  {
  }

  lemma ChecksKept(snap: Snap, s: State, e: Event)
    requires LockFits(s) && HeadFits(snap, s) && ChecksFit(s) && Step(snap, s, e).Some?
    ensures ChecksFit(Step(snap, s, e).value)
  {
    var s' := Step(snap, s, e).value;
    forall i | 0 <= i < |s'.log| && UntornBefore(s'.log, i)
      ensures s'.log[i].named
    {
      assert i <= |s.log| && UntornBefore(s.log, i);
    }
  }

  lemma IdsKept(snap: Snap, s: State, e: Event)
    requires IdsFit(snap, s) && Step(snap, s, e).Some?
    ensures IdsFit(snap, Step(snap, s, e).value)
  {
    if e.CopyFile? || e.Advance? {
      assert Newest(s) in s.log;
    }
  }

  lemma ProtocolKept(snap: Snap, start: Tree, s: State, e: Event)
    requires Protocol(snap, start, s) && Step(snap, s, e).Some?
    ensures Protocol(snap, start, Step(snap, s, e).value)
  {
    LockKept(snap, s, e);
    LogKept(snap, s, e);
    ChainKept(snap, start, s, e);
    HeadKept(snap, s, e);
    ChecksKept(snap, s, e);
    IdsKept(snap, s, e);
  }

  lemma {:induction false} ProtocolAlways(snap: Snap, start: Tree, events: seq<Event>)
    requires Execute(snap, Fresh(snap, start), events).Some?
    ensures Protocol(snap, start, Execute(snap, Fresh(snap, start), events).value)
  {
    if events != [] {
      var front, last := events[..|events| - 1], events[|events| - 1];
      var s := Execute(snap, Fresh(snap, start), front).value;
      ProtocolAlways(snap, start, front);
      ProtocolKept(snap, start, s, last);
    }
  }

  // ---------------------------------------------------------------------------------------------
  // No lost update

  /** The head names the base whenever no commit is under way and the last one was not cut short. */
  lemma HeadNamesTheBase(snap: Snap, start: Tree, events: seq<Event>)
    requires Execute(snap, Fresh(snap, start), events).Some?
    ensures var s := Execute(snap, Fresh(snap, start), events).value;
            s.lock.None? && (s.log == [] || Newest(s).advanced) ==> s.head == snap(s.base)
  {
    ProtocolAlways(snap, start, events);
  }

  /** A base check can meet a head that does not name the base only right behind a commit that was cut short. */
  lemma StaleHeadFollowsATornCommit(snap: Snap, start: Tree, events: seq<Event>, i: nat)
    requires Execute(snap, Fresh(snap, start), events).Some?
    requires i < |Execute(snap, Fresh(snap, start), events).value.log|
    ensures var log := Execute(snap, Fresh(snap, start), events).value.log;
            !log[i].named ==> i > 0 && !log[i - 1].advanced
  {
    ProtocolAlways(snap, start, events);
    var log := Execute(snap, Fresh(snap, start), events).value.log;
    assert UntornBefore(log, i) ==> log[i].named;
  }

  /** A task wrote p when its worktree shows something there that its first copy did not. */
  predicate Wrote(work: Work, p: Path) {
    p in work.worktree && !(p in work.copied && work.copied[p] == work.worktree[p])
  }

  /** The commit changed only files that its own task wrote. */
  ghost predicate NoClobber(c: Commit) {
    forall p :: !Wrote(c.work, p) ==> SameAt(c.before, c.After(), p)
  }

  /** What the commit copied and its task had left alone is still what the base has. */
  ghost predicate KeptFilesAreCurrent(c: Commit, base: Tree) {
    forall p :: p in c.work.worktree && p !in c.left && !Wrote(c.work, p) ==> SameAt(base, c.work.copied, p)
  }

  lemma NoClobberWhenCurrent(c: Commit)
    ensures NoClobber(c) <==> KeptFilesAreCurrent(c, c.before)
  {
    if NoClobber(c) {
      forall p | p in c.work.worktree && p !in c.left && !Wrote(c.work, p)
        ensures SameAt(c.before, c.work.copied, p)
      {
        assert SameAt(c.before, c.After(), p);
      }
    }
    if KeptFilesAreCurrent(c, c.before) {
      forall p | !Wrote(c.work, p)
        ensures SameAt(c.before, c.After(), p)
      {
        if p in c.work.worktree && p !in c.left {
          assert SameAt(c.before, c.work.copied, p);
        }
      }
    }
  }

  /** The commit claimed the handle that its task was handed, at the open and at the check the head named the base,
      and the ids tell the two bases apart. */
  predicate HandleHolds(snap: Snap, c: Commit) {
    && c.claim == c.work.handle && c.work.named && c.named
    && (snap(c.before) == snap(c.work.vended) ==> c.before == c.work.vended)
  }

  lemma HandleNamesTheBase(snap: Snap, s: State, c: Commit)
    requires IdsFit(snap, s) && c in s.log && HandleHolds(snap, c)
    ensures c.before == c.work.vended
  {
  }

  /** Every commit ever accepted loses nobody's update if and only if what it copied unchanged is still current. Its
      base is the one its handle was handed out for whenever the handle holds. */
  lemma AcceptedCommitIsSafeIff(snap: Snap, start: Tree, events: seq<Event>, i: nat)
    requires Execute(snap, Fresh(snap, start), events).Some?
    requires i < |Execute(snap, Fresh(snap, start), events).value.log|
    ensures var c := Execute(snap, Fresh(snap, start), events).value.log[i];
            && (NoClobber(c) <==> KeptFilesAreCurrent(c, c.before))
            && (HandleHolds(snap, c) ==> c.before == c.work.vended)
  {
    ProtocolAlways(snap, start, events);
    var log := Execute(snap, Fresh(snap, start), events).value.log;
    assert log[i] in log;
    NoClobberWhenCurrent(log[i]);
  }

  /** With the handle of the first open, the tree that a commit overlays is the tree its worktree was copied from, so
      nobody's update is lost; and a commit that copied everything leaves exactly its worktree if and only if its
      task deleted no file of that first copy. */
  lemma FirstOpenHandlesAreSafe(snap: Snap, start: Tree, events: seq<Event>, i: nat)
    requires Execute(snap, Fresh(snap, start), events).Some?
    requires i < |Execute(snap, Fresh(snap, start), events).value.log|
    requires var c := Execute(snap, Fresh(snap, start), events).value.log[i];
             HandleHolds(snap, c) && c.work.vended == c.work.copied
    ensures var c := Execute(snap, Fresh(snap, start), events).value.log[i];
            && c.before == c.work.copied && NoClobber(c)
            && (c.left == {} ==> (c.After() == c.work.worktree <==> c.work.copied.Keys <= c.work.worktree.Keys))
  {
    AcceptedCommitIsSafeIff(snap, start, events, i);
    var c := Execute(snap, Fresh(snap, start), events).value.log[i];
    OverlayPublishesIff(c.before, c.work.worktree);
    assert c.left == {} ==> c.work.worktree - c.left == c.work.worktree;
  }

  /** Consecutive commits of tasks whose handles were handed out for one tree: only the last can change it. */
  lemma OnlyTheLastOfOneHeadChanges(snap: Snap, start: Tree, events: seq<Event>, from: nat, to: nat, tree: Tree)
    requires Execute(snap, Fresh(snap, start), events).Some?
    requires var log := Execute(snap, Fresh(snap, start), events).value.log;
             && from <= to <= |log|
             && forall k :: from <= k < to ==> HandleHolds(snap, log[k]) && log[k].work.vended == tree
    ensures var log := Execute(snap, Fresh(snap, start), events).value.log;
            forall k :: from <= k < to - 1 ==> log[k].After() == log[k].before
  {
    ProtocolAlways(snap, start, events);
    var log := Execute(snap, Fresh(snap, start), events).value.log;
    forall k | from <= k < to - 1
      ensures log[k].After() == log[k].before
    {
      AcceptedCommitIsSafeIff(snap, start, events, k);
      AcceptedCommitIsSafeIff(snap, start, events, k + 1);
      assert log[k + 1].before == BaseAt(start, log, k + 1);
    }
  }

  // ---------------------------------------------------------------------------------------------
  // The last writer wins, over a whole history

  function ValueAt(tree: Tree, p: Path): Option<string> {
    if p in tree then Some(tree[p]) else None
  }

  /** The commit wrote p in its worktree and got as far as copying it. */
  predicate Delivered(c: Commit, p: Path) {
    Wrote(c.work, p) && p !in c.left
  }

  /** What the first n commits make of p if each only adds what its task wrote. */
  function LastWritten(start: Tree, log: seq<Commit>, n: nat, p: Path): Option<string>
    requires n <= |log|
  {
    if n == 0 then ValueAt(start, p)
    else if Delivered(log[n - 1], p) then Some(log[n - 1].work.worktree[p])
    else LastWritten(start, log, n - 1, p)
  }

  ghost predicate LastWriterWins(start: Tree, log: seq<Commit>, n: nat)
    requires n <= |log|
  {
    forall p :: ValueAt(BaseAt(start, log, n), p) == LastWritten(start, log, n, p)
  }

  lemma CommitAt(c: Commit, p: Path)
    ensures Delivered(c, p) ==> ValueAt(c.After(), p) == Some(c.work.worktree[p])
    ensures Wrote(c.work, p) && !Delivered(c, p) ==> SameAt(c.before, c.After(), p)
    ensures SameAt(c.before, c.After(), p) <==> ValueAt(c.before, p) == ValueAt(c.After(), p)
  {
  }

  lemma OneMoreWriter(start: Tree, s: State, n: nat)
    requires Chained(start, s) && n < |s.log| && LastWriterWins(start, s.log, n)
    ensures LastWriterWins(start, s.log, n + 1) <==> NoClobber(s.log[n])
  {
    var c := s.log[n];
    assert c.before == BaseAt(start, s.log, n);
    forall p
      ensures ValueAt(BaseAt(start, s.log, n + 1), p) == LastWritten(start, s.log, n + 1, p)
         <==> (!Wrote(c.work, p) ==> SameAt(c.before, c.After(), p))
    {
      CommitAt(c, p);
      assert ValueAt(BaseAt(start, s.log, n), p) == LastWritten(start, s.log, n, p);
    }
  }

  lemma {:induction false} WinsWhenNoneClobbers(start: Tree, s: State, n: nat)
    requires Chained(start, s) && n <= |s.log| && forall k :: 0 <= k < n ==> NoClobber(s.log[k])
    ensures LastWriterWins(start, s.log, n)
  {
    if n > 0 {
      WinsWhenNoneClobbers(start, s, n - 1);
      OneMoreWriter(start, s, n - 1);
    }
  }

  /** After any history: at every point of it each path of the base shows the value of the last commit that wrote it,
      or the first tree's, if and only if no commit clobbers. */
  lemma LastWriterWinsIff(snap: Snap, start: Tree, events: seq<Event>)
    requires Execute(snap, Fresh(snap, start), events).Some?
    ensures var log := Execute(snap, Fresh(snap, start), events).value.log;
            (forall n :: 0 <= n <= |log| ==> LastWriterWins(start, log, n))
            <==> (forall k :: 0 <= k < |log| ==> NoClobber(log[k]))
  {
    ProtocolAlways(snap, start, events);
    var s := Execute(snap, Fresh(snap, start), events).value;
    if forall k :: 0 <= k < |s.log| ==> NoClobber(s.log[k]) {
      forall n | 0 <= n <= |s.log|
        ensures LastWriterWins(start, s.log, n)
      {
        WinsWhenNoneClobbers(start, s, n);
      }
    }
    if forall n :: 0 <= n <= |s.log| ==> LastWriterWins(start, s.log, n) {
      forall k | 0 <= k < |s.log|
        ensures NoClobber(s.log[k])
      {
        OneMoreWriter(start, s, k);
      }
    }
  }

  /** When every commit is made under a first-open handle that holds, each path of the base shows the value of the
      last commit that wrote it, or the first tree's. */
  lemma LastWriterOfFirstOpens(snap: Snap, start: Tree, events: seq<Event>, p: Path)
    requires Execute(snap, Fresh(snap, start), events).Some?
    requires forall c <- Execute(snap, Fresh(snap, start), events).value.log ::
               HandleHolds(snap, c) && c.work.vended == c.work.copied
    ensures var s := Execute(snap, Fresh(snap, start), events).value;
            ValueAt(s.base, p) == LastWritten(start, s.log, |s.log|, p)
  {
    ProtocolAlways(snap, start, events);
    var s := Execute(snap, Fresh(snap, start), events).value;
    forall k | 0 <= k < |s.log|
      ensures NoClobber(s.log[k])
    {
      assert s.log[k] in s.log;
      FirstOpenHandlesAreSafe(snap, start, events, k);
    }
    WinsWhenNoneClobbers(start, s, |s.log|);
  }

  // ---------------------------------------------------------------------------------------------
  // Committing again

  function Copies(t: TaskId, order: seq<Path>): seq<Event> {
    seq(|order|, i requires 0 <= i < |order| => CopyFile(t, order[i]))
  }

  /** An accepted commit of one task, undisturbed, its files copied in some order. */
  function CommitSteps(t: TaskId, claim: string, order: seq<Path>): seq<Event> {
    [Acquire(t, claim), Check(t)] + Copies(t, order) + [Advance(t)]
  }

  lemma {:induction false} ExecuteConcat(snap: Snap, start: State, a: seq<Event>, b: seq<Event>)
    requires Execute(snap, start, a).Some?
    ensures Execute(snap, start, a + b) == Execute(snap, Execute(snap, start, a).value, b)
  {
    if b == [] {
      assert a + b == a;
    } else {
      ExecuteConcat(snap, start, a, b[..|b| - 1]);
      assert (a + b)[..|a + b| - 1] == a + b[..|b| - 1];
    }
  }

  lemma {:induction false} PrefixExecutes(snap: Snap, start: State, a: seq<Event>, b: seq<Event>)
    requires Execute(snap, start, a + b).Some?
    ensures Execute(snap, start, a).Some?
  {
    if b == [] {
      assert a + b == a;
    } else {
      assert (a + b)[..|a + b| - 1] == a + b[..|b| - 1];
      PrefixExecutes(snap, start, a, b[..|b| - 1]);
    }
  }

  /** Under way, over `before`. */
  predicate CommitsOver(s: State, t: TaskId, worktree: Tree, before: Tree) {
    && t in s.tasks && s.tasks[t].phase.Copying? && s.tasks[t].worktree == worktree && s.log != []
    && s.base == Overlaying(before, worktree - s.tasks[t].phase.todo)
  }

  lemma {:induction false} CopiesOverlay(snap: Snap, s: State, t: TaskId, order: seq<Path>, before: Tree)
    requires t in s.tasks && CommitsOver(s, t, s.tasks[t].worktree, before)
    requires Execute(snap, s, Copies(t, order)).Some?
    ensures CommitsOver(Execute(snap, s, Copies(t, order)).value, t, s.tasks[t].worktree, before)
  {
    if order != [] {
      var front := order[..|order| - 1];
      assert Copies(t, order)[..|order| - 1] == Copies(t, front);
      CopiesOverlay(snap, s, t, front, before);
      var mid := Execute(snap, s, Copies(t, front)).value;
      CopyExtendsOverlay(before, s.tasks[t].worktree, mid.tasks[t].phase.todo, order[|order| - 1]);
    }
  }

  lemma CommitOverlays(snap: Snap, s: State, t: TaskId, claim: string, order: seq<Path>)
    requires t in s.tasks && Execute(snap, s, CommitSteps(t, claim, order)).Some?
    ensures var s' := Execute(snap, s, CommitSteps(t, claim, order)).value;
            s'.base == Overlaying(s.base, s.tasks[t].worktree) && s'.head == snap(s'.base) && s'.lock.None?
  {
    var opening, copies := [Acquire(t, claim), Check(t)], Copies(t, order);
    PrefixExecutes(snap, s, opening + copies, [Advance(t)]);
    PrefixExecutes(snap, s, opening, copies);
    ExecuteConcat(snap, s, opening, copies);
    ExecuteOneMore(snap, s, opening + copies, Advance(t));
    var checked := CheckPasses(snap, s, t, claim);
    CopiesOverlay(snap, checked, t, order, s.base);
    var done := Execute(snap, checked, copies).value;
    AdvanceNames(snap, done, t, s.tasks[t].worktree, s.base);
  }

  lemma CheckPasses(snap: Snap, s: State, t: TaskId, claim: string) returns (checked: State)
    requires t in s.tasks && Execute(snap, s, [Acquire(t, claim), Check(t)]).Some?
    ensures Execute(snap, s, [Acquire(t, claim), Check(t)]) == Some(checked)
    ensures CommitsOver(checked, t, s.tasks[t].worktree, s.base) && checked.tasks[t].worktree == s.tasks[t].worktree
  {
    assert [Acquire(t, claim), Check(t)][..1] == [] + [Acquire(t, claim)];
    ExecuteOneMore(snap, s, [], Acquire(t, claim));
    assert s.tasks[t].worktree - s.tasks[t].worktree.Keys == map[];
    checked := Execute(snap, s, [Acquire(t, claim), Check(t)]).value;
  }

  lemma AdvanceNames(snap: Snap, s: State, t: TaskId, worktree: Tree, before: Tree)
    requires CommitsOver(s, t, worktree, before) && Step(snap, s, Advance(t)).Some?
    ensures var s' := Step(snap, s, Advance(t)).value;
            s'.base == Overlaying(before, worktree) && s'.head == snap(s'.base) && s'.lock.None?
  {
    assert worktree - {} == worktree;
  }

  /** After any history whose last accepted commit is the task's own, wherever that commit was cut short, and with the
      worktree as it was: committing again under the present head leaves what the first commit was to leave, and the
      head names it. If the first commit got as far as copying everything, the base does not change, and if it
      finished, neither does the head. */
  lemma RecommitCompletes(snap: Snap, start: Tree, events: seq<Event>, t: TaskId, order: seq<Path>)
    requires Execute(snap, Fresh(snap, start), events).Some?
    requires var s := Execute(snap, Fresh(snap, start), events).value;
             && s.lock.None? && s.log != [] && t in s.tasks
             && Newest(s).task == t && Newest(s).work.worktree == s.tasks[t].worktree
             && Execute(snap, s, CommitSteps(t, s.head, order)).Some?
    ensures var s := Execute(snap, Fresh(snap, start), events).value;
            var s', c := Execute(snap, s, CommitSteps(t, s.head, order)).value, Newest(s);
            && s'.base == Overlaying(c.before, c.work.worktree) && s'.head == snap(s'.base) && s'.lock.None?
            && (c.left == {} ==> s'.base == s.base) && (c.advanced ==> s'.head == s.head)
  {
    ProtocolAlways(snap, start, events);
    var s := Execute(snap, Fresh(snap, start), events).value;
    var c := Newest(s);
    assert c in s.log;
    CommitOverlays(snap, s, t, s.head, order);
    OverlayAbsorbs(c.before, c.work.worktree, c.left);
  }

  /** Overlaying part of a worktree and then all of it is overlaying all of it. */
  lemma OverlayAbsorbs(base: Tree, worktree: Tree, left: set<Path>)
    ensures Overlaying(Overlaying(base, worktree - left), worktree) == Overlaying(base, worktree)
    ensures left == {} ==> Overlaying(base, worktree - left) == Overlaying(base, worktree)
  {
    assert left == {} ==> worktree - left == worktree;
  }
}
