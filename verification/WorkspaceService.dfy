/**
 The service's two operations on the shared workspace (src/acp/workspace/service.py `open_worktree`,
 `commit_worktree`), proved to perform exactly the steps of the machine in Workspace.dfy, whatever the other
 runners do while a commit waits for the lock.
 */
module WorkspaceService {
  import opened Common
  import opened Patches
  import opened Workspace

  /** What the directories, the workspace row and the lock file show of a state. */
  datatype Disk = Disk(base: Tree, head: string, holder: Option<TaskId>, worktrees: map<TaskId, Tree>)

  ghost predicate Shows(d: Disk, s: State) {
    && d.base == s.base && d.head == s.head && d.holder == s.lock
    && d.worktrees.Keys == s.tasks.Keys
    && forall t <- d.worktrees :: d.worktrees[t] == s.tasks[t].worktree
  }

  /** A step that leaves the task's files alone needs no look at the worktrees. */
  lemma ShowsAfter(d: Disk, snap: Snap, s: State, e: Event)
    requires Shows(d, s) && Step(snap, s, e).Some? && !e.Open? && !e.Write?
    ensures var s' := Step(snap, s, e).value; Shows(Disk(s'.base, s'.head, s'.lock, d.worktrees), s')
  {
  }

  datatype CommitError = LockTimeout | HeadAdvanced | NoWorktree

  ghost predicate ByOthers(task: TaskId, events: seq<Event>) {
    forall i :: 0 <= i < |events| ==> events[i].t != task
  }

  predicate KeptWork(task: TaskId, s: State, s': State) {
    (task in s'.tasks <==> task in s.tasks) && (task in s.tasks ==> s'.tasks[task] == s.tasks[task])
  }

  lemma {:induction false} OthersKeepMyWork(snap: Snap, s: State, task: TaskId, events: seq<Event>)
    requires ByOthers(task, events) && Execute(snap, s, events).Some?
    ensures KeptWork(task, s, Execute(snap, s, events).value)
  {
    if events != [] {
      OthersKeepMyWork(snap, s, task, events[..|events| - 1]);
      assert events[|events| - 1].t != task;
    }
  }

  /** In each pause between two polls the other runners take some steps; `states` are the states at the polls and
      `glimpses` what they show on disk. */
  ghost predicate OthersAct(snap: Snap, task: TaskId, rounds: seq<seq<Event>>, states: seq<State>,
                            glimpses: seq<Disk>)
  {
    && |states| == |rounds| + 1 && |glimpses| == |rounds|
    && forall k {:trigger rounds[k]} :: 0 <= k < |rounds| ==>
                                          RoundOk(snap, task, states[k], rounds[k], states[k + 1], glimpses[k])
  }

  ghost predicate RoundOk(snap: Snap, task: TaskId, s: State, events: seq<Event>, s': State, glimpse: Disk) {
    ByOthers(task, events) && Execute(snap, s, events) == Some(s') && Shows(glimpse, s')
  }

  function Flat(rounds: seq<seq<Event>>): seq<Event> {
    if rounds == [] then [] else Flat(rounds[..|rounds| - 1]) + rounds[|rounds| - 1]
  }

  lemma FlatUpTo(rounds: seq<seq<Event>>, k: nat)
    requires k < |rounds|
    ensures Flat(rounds[..k + 1]) == Flat(rounds[..k]) + rounds[k]
  {
    assert rounds[..k + 1][..k] == rounds[..k];
  }

  lemma {:induction false} RoundsExecute(snap: Snap, task: TaskId, rounds: seq<seq<Event>>, states: seq<State>,
                                         glimpses: seq<Disk>, k: nat)
    requires OthersAct(snap, task, rounds, states, glimpses) && k <= |rounds|
    ensures Execute(snap, states[0], Flat(rounds[..k])) == Some(states[k])
  {
    if k > 0 {
      RoundsExecute(snap, task, rounds, states, glimpses, k - 1);
      FlatUpTo(rounds, k - 1);
      ExecuteConcat(snap, states[0], Flat(rounds[..k - 1]), rounds[k - 1]);
    }
  }

  /** The steps of an accepted commit, its files copied in some order, and of a refused one. */
  ghost predicate Committed(snap: Snap, s: State, t: TaskId, claim: string, order: seq<Path>, s': State) {
    Execute(snap, s, CommitSteps(t, claim, order)) == Some(s')
  }

  ghost predicate Refused(snap: Snap, s: State, t: TaskId, claim: string, s': State) {
    Execute(snap, s, [Acquire(t, claim), Refuse(t)]) == Some(s')
  }

  lemma OneStep(snap: Snap, s: State, e: Event)
    requires Step(snap, s, e).Some?
    ensures Execute(snap, s, [e]) == Step(snap, s, e)
  {
    ExecuteOneMore(snap, s, [], e);
    assert [] + [e] == [e];
  }

  lemma TwoSteps(snap: Snap, s: State, x: Event, y: Event)
    requires Step(snap, s, x).Some? && Step(snap, Step(snap, s, x).value, y).Some?
    ensures Execute(snap, s, [x, y]) == Step(snap, Step(snap, s, x).value, y)
  {
    OneStep(snap, s, x);
    ExecuteOneMore(snap, s, [x], y);
    assert [x] + [y] == [x, y];
  }

  lemma CommittedBy(snap: Snap, s: State, t: TaskId, claim: string, order: seq<Path>, checked: State, done: State)
    requires Execute(snap, s, [Acquire(t, claim), Check(t)]) == Some(checked)
    requires Execute(snap, checked, Copies(t, order)) == Some(done) && Step(snap, done, Advance(t)).Some?
    ensures Committed(snap, s, t, claim, order, Step(snap, done, Advance(t)).value)
  {
    ExecuteConcat(snap, s, [Acquire(t, claim), Check(t)], Copies(t, order));
    ExecuteOneMore(snap, s, [Acquire(t, claim), Check(t)] + Copies(t, order), Advance(t));
  }

  lemma CopiesOneMore(snap: Snap, s: State, t: TaskId, order: seq<Path>, path: Path)
    requires Execute(snap, s, Copies(t, order)).Some?
    ensures Execute(snap, s, Copies(t, order + [path]))
         == Step(snap, Execute(snap, s, Copies(t, order)).value, CopyFile(t, path))
  {
    ExecuteOneMore(snap, s, Copies(t, order), CopyFile(t, path));
    assert Copies(t, order + [path]) == Copies(t, order) + [CopyFile(t, path)];
  }

  class Service {
    var base: Tree
    var head: string
    var holder: Option<TaskId>
    var worktrees: map<TaskId, Tree>
    const snap: Snap
    ghost const start: State
    ghost var trace: seq<Event>
    ghost var now: State

    /** The fields show the machine's state. */
    ghost predicate Valid()
      reads this
    {
      Shows(Disk(base, head, holder, worktrees), now)
    }

    /** The recorded steps lead to it. */
    ghost predicate Traced()
      reads this
    {
      Execute(snap, start, trace) == Some(now)
    }

    constructor (snap: Snap, source: Tree)
      ensures Valid() && Traced() && trace == [] && now == Fresh(snap, source) && this.snap == snap
    {
      this.snap, this.start := snap, Fresh(snap, source);
      base, head, holder, worktrees := source, snap(source), None, map[];
      trace, now := [], Fresh(snap, source);
    }

    /** Copy on first open; afterwards only the current head is handed out. */
    method OpenWorktree(task: TaskId) returns (baseCommit: string)
      requires Valid() && Traced() && (task in now.tasks ==> now.tasks[task].phase.Working?)
      modifies this
      ensures Valid() && Traced()
      ensures trace == old(trace) + [if task in old(worktrees) then Reopen(task) else Open(task, {})]
      ensures baseCommit == head == old(head) && base == old(base) && holder == old(holder)
      ensures worktrees == if task in old(worktrees) then old(worktrees) else old(worktrees)[task := old(base)]
      ensures task in now.tasks && now.tasks[task].handle == baseCommit && now.tasks[task].phase.Working?
    {
      ghost var e := if task in worktrees then Reopen(task) else Open(task, {});
      ExecuteOneMore(snap, start, trace, e);
      trace := trace + [e];
      baseCommit := Vend(task);
    }

    method Vend(task: TaskId) returns (baseCommit: string)
      requires Valid() && (task in now.tasks ==> now.tasks[task].phase.Working?)
      modifies `worktrees, `now
      ensures Valid() && baseCommit == head
      ensures Step(snap, old(now), if task in old(worktrees) then Reopen(task) else Open(task, {})) == Some(now)
      ensures worktrees == if task in old(worktrees) then old(worktrees) else old(worktrees)[task := base]
      ensures task in now.tasks && now.tasks[task].handle == baseCommit && now.tasks[task].phase.Working?
    {
      if task !in worktrees {
        worktrees := worktrees[task := base];
        assert base - {} == base;
        now := Step(snap, now, Open(task, {})).value;
      } else {
        ShowsAfter(Disk(base, head, holder, worktrees), snap, now, Reopen(task));
        now := Step(snap, now, Reopen(task)).value;
      }
      baseCommit := head;
    }

    /** Polls until the lock is free or the polls run out; between polls the other runners act. */
    method WaitForLock(task: TaskId, glimpses: seq<Disk>, ghost rounds: seq<seq<Event>>, ghost states: seq<State>)
      returns (waited: nat)
      requires Valid() && OthersAct(snap, task, rounds, states, glimpses) && now == states[0]
      modifies `base, `head, `holder, `worktrees, `now
      ensures Valid() && waited <= |rounds| && now == states[waited]
      ensures holder.Some? ==> waited == |rounds|
      ensures KeptWork(task, old(now), now)
    {
      waited := 0;
      while holder.Some? && waited < |glimpses|
        invariant Valid() && waited <= |glimpses|
        invariant now == states[waited] && KeptWork(task, old(now), now)
      {
        OthersRun(task, glimpses[waited], rounds[waited], states[waited + 1]);
        waited := waited + 1;
      }
    }

    method OthersRun(task: TaskId, glimpse: Disk, ghost events: seq<Event>, ghost after: State)
      requires RoundOk(snap, task, now, events, after, glimpse)
      modifies `base, `head, `holder, `worktrees, `now
      ensures Valid() && now == after && KeptWork(task, old(now), now)
    {
      OthersKeepMyWork(snap, now, task, events);
      base, head, holder, worktrees := glimpse.base, glimpse.head, glimpse.holder, glimpse.worktrees;
      now := after;
    }

    /** The commit under the advisory lock, for whatever base commit the caller names. */
    method CommitWorktree(task: TaskId, baseCommit: string, glimpses: seq<Disk>,
                          ghost rounds: seq<seq<Event>>, ghost states: seq<State>)
      returns (r: Result<string, CommitError>, waited: nat, ghost order: seq<Path>)
      requires Valid() && Traced() && OthersAct(snap, task, rounds, states, glimpses) && now == states[0]
      requires task in now.tasks ==> now.tasks[task].phase.Working?
      modifies this
      ensures Valid() && Traced() && waited <= |rounds|
      ensures var met := old(trace) + Flat(rounds[..waited]);
              match r
              case Success(newHead) =>
                trace == met + CommitSteps(task, baseCommit, order) && newHead == head == snap(base)
              case Failure(HeadAdvanced) =>
                && trace == met + (if task in worktrees then [Acquire(task, baseCommit), Refuse(task)] else [])
                && head != baseCommit
              case Failure(NoWorktree) => trace == met && head == baseCommit && task !in worktrees
              case Failure(LockTimeout) => trace == met && waited == |rounds| && holder.Some?
    {
      order := [];
      waited := WaitForLock(task, glimpses, rounds, states);
      RoundsExecute(snap, task, rounds, states, glimpses, waited);
      ExecuteConcat(snap, start, trace, Flat(rounds[..waited]));
      trace := trace + Flat(rounds[..waited]);
      if holder.Some? {
        return Failure(LockTimeout), waited, order;
      }
      if task !in worktrees {
        return Failure(if head != baseCommit then HeadAdvanced else NoWorktree), waited, order;
      }
      ghost var met := now;
      r, order := CheckAndOverlay(task, baseCommit);
      ghost var steps := if r.Success? then CommitSteps(task, baseCommit, order)
      else [Acquire(task, baseCommit), Refuse(task)];
      ExecuteConcat(snap, start, trace, steps);
      trace := trace + steps;
    }

    /** Inside the lock: base check, overlay, head advance. A refused commit changes nothing. */
    method CheckAndOverlay(task: TaskId, baseCommit: string)
      returns (r: Result<string, CommitError>, ghost order: seq<Path>)
      requires Valid() && holder.None? && task in worktrees && now.tasks[task].phase.Working?
      modifies `base, `head, `holder, `now
      ensures Valid() && holder.None? && (r.Success? <==> old(head) == baseCommit)
      ensures match r
              case Success(newHead) =>
                && Committed(snap, old(now), task, baseCommit, order, now)
                && base == Overlaying(old(base), worktrees[task]) && newHead == head == snap(base)
              case Failure(e) =>
                && Refused(snap, old(now), task, baseCommit, now)
                && e == HeadAdvanced && base == old(base) && head == old(head)
    {
      order := [];
      Lock(task, baseCommit);
      if head != baseCommit {
        Unlock(task);
        TwoSteps(snap, old(now), Acquire(task, baseCommit), Refuse(task));
        return Failure(HeadAdvanced), order;
      }
      order := OverlayHeld(task, baseCommit, old(now));
      return Success(head), order;
    }

    /** The accepted commit, once the lock is held. */
    method OverlayHeld(task: TaskId, baseCommit: string, ghost before: State) returns (ghost order: seq<Path>)
      requires Valid() && task in worktrees && Step(snap, before, Acquire(task, baseCommit)) == Some(now)
      requires now.tasks[task].phase == Holding(head) && head == baseCommit
      modifies `base, `head, `holder, `now
      ensures Valid() && holder.None? && Committed(snap, before, task, baseCommit, order, now)
      ensures base == Overlaying(old(base), worktrees[task]) && head == snap(base)
    {
      PassCheck(task);
      TwoSteps(snap, before, Acquire(task, baseCommit), Check(task));
      ghost var checked := now;
      order := CopyOver(task);
      ghost var done := now;
      AdvanceHead(task);
      CommittedBy(snap, before, task, baseCommit, order, checked, done);
    }

    method Lock(task: TaskId, baseCommit: string)
      requires Valid() && holder.None? && task in worktrees && now.tasks[task].phase.Working?
      modifies `holder, `now
      ensures Valid() && holder == Some(task) && Step(snap, old(now), Acquire(task, baseCommit)) == Some(now)
      ensures now.tasks[task] == old(now).tasks[task].(phase := Holding(baseCommit))
    {
      ShowsAfter(Disk(base, head, holder, worktrees), snap, now, Acquire(task, baseCommit));
      holder := Some(task);
      now := Step(snap, now, Acquire(task, baseCommit)).value;
    }

    method Unlock(task: TaskId)
      requires Valid() && task in worktrees
      requires now.tasks[task].phase.Holding? && head != now.tasks[task].phase.claim
      modifies `holder, `now
      ensures Valid() && holder.None? && Step(snap, old(now), Refuse(task)) == Some(now)
    {
      ShowsAfter(Disk(base, head, holder, worktrees), snap, now, Refuse(task));
      holder := None;
      now := Step(snap, now, Refuse(task)).value;
    }

    ghost method PassCheck(task: TaskId)
      requires Valid() && task in worktrees
      requires now.tasks[task].phase.Holding? && head == now.tasks[task].phase.claim
      modifies `now
      ensures Valid() && Step(snap, old(now), Check(task)) == Some(now)
      ensures now.tasks[task].phase == Copying(worktrees[task].Keys) && now.log != []
    {
      ShowsAfter(Disk(base, head, holder, worktrees), snap, now, Check(task));
      now := Step(snap, now, Check(task)).value;
    }

    /** Copies every file of the worktree over the base, in whatever order the directories list them. */
    method CopyOver(task: TaskId) returns (ghost order: seq<Path>)
      requires Valid() && task in worktrees
      requires now.tasks[task].phase == Copying(worktrees[task].Keys) && now.log != []
      modifies `base, `now
      ensures Valid() && base == Overlaying(old(base), worktrees[task])
      ensures Execute(snap, old(now), Copies(task, order)) == Some(now)
      ensures now.tasks[task].phase == Copying({}) && now.log != []
    {
      var todo := worktrees[task].Keys;
      order := [];
      assert worktrees[task] - todo == map[];
      while todo != {}
        invariant Valid() && task in worktrees && todo <= worktrees[task].Keys
        invariant base == Overlaying(old(base), worktrees[task] - todo)
        invariant now.tasks[task].phase == Copying(todo) && now.log != []
        invariant Execute(snap, old(now), Copies(task, order)) == Some(now)
        decreases todo
      {
        var path :| path in todo;
        CopyExtendsOverlay(old(base), worktrees[task], todo, path);
        CopiesOneMore(snap, old(now), task, order, path);
        CopyOne(task, path);
        todo, order := todo - {path}, order + [path];
      }
      assert worktrees[task] - todo == worktrees[task];
    }

    method CopyOne(task: TaskId, path: Path)
      requires Valid() && task in worktrees && path in worktrees[task]
      requires now.tasks[task].phase.Copying? && path in now.tasks[task].phase.todo && now.log != []
      modifies `base, `now
      ensures Valid() && base == old(base)[path := worktrees[task][path]] && now.log != []
      ensures Step(snap, old(now), CopyFile(task, path)) == Some(now)
      ensures now.tasks[task].phase == Copying(old(now).tasks[task].phase.todo - {path})
    {
      ShowsAfter(Disk(base, head, holder, worktrees), snap, now, CopyFile(task, path));
      base := base[path := worktrees[task][path]];
      now := Step(snap, now, CopyFile(task, path)).value;
    }

    method AdvanceHead(task: TaskId)
      requires Valid() && task in worktrees && now.tasks[task].phase == Copying({}) && now.log != []
      modifies `head, `holder, `now
      ensures Valid() && head == snap(base) && holder.None? && Step(snap, old(now), Advance(task)) == Some(now)
    {
      ShowsAfter(Disk(base, head, holder, worktrees), snap, now, Advance(task));
      head := snap(base);
      holder := None;
      now := Step(snap, now, Advance(task)).value;
    }
  }
}
