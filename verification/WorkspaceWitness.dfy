/**
 Where the commit protocol does lose an update: one history for each hypothesis of the safety results, with every
 other hypothesis met.
 */
module WorkspaceWitness {
  import opened Common
  import opened Patches
  import opened Workspace

  ghost predicate Reachable(snap: Snap, start: Tree, s: State) {
    exists events :: Execute(snap, Fresh(snap, start), events) == Some(s)
  }

  lemma Take(snap: Snap, start: Tree, s: State, e: Event) returns (s': State)
    requires Reachable(snap, start, s) && Step(snap, s, e).Some?
    ensures s' == Step(snap, s, e).value && Reachable(snap, start, s')
  {
    var events :| Execute(snap, Fresh(snap, start), events) == Some(s);
    ExecuteOneMore(snap, Fresh(snap, start), events, e);
    s' := Step(snap, s, e).value;
  }

  const A: Tree := map["f" := "a"]
  const B: Tree := map["f" := "b"]

  function Idle(worktree: Tree, checkout: Tree, handle: string, named: bool): Work {
    Work(worktree, checkout, checkout, handle, named, Working)
  }

  /** The commit put a tree back over an update that its task never made. */
  predicate PutsBack(c: Commit, lost: Tree, back: Tree) {
    c.before == lost && c.After() == back && c.work.copied == back && c.work.worktree == back
  }

  lemma PuttingBackIsClobbering(c: Commit, lost: Tree, back: Tree)
    requires PutsBack(c, lost, back) && "f" in lost && "f" in back && lost["f"] != back["f"]
    ensures !NoClobber(c)
  {
    assert !Wrote(c.work, "f") && !SameAt(c.before, c.After(), "f");
  }

  predicate FirstHandle(work: Work) {
    work.vended == work.copied
  }

  /** One task commits its whole worktree up to the point before the head advances. */
  lemma Overlays(snap: Snap, s: State, t: TaskId, claim: string) returns (s': State)
    requires Reachable(snap, A, s) && s.lock.None? && s.head == claim
    requires t in s.tasks && s.tasks[t].phase.Working? && s.tasks[t].worktree in {A, B}
    requires s.base.Keys == {"f"}
    ensures Reachable(snap, A, s') && s'.base == s.tasks[t].worktree && s'.head == s.head && s'.lock == Some(t)
    ensures s'.tasks == s.tasks[t := s.tasks[t].(phase := Copying({}))]
    ensures s'.log
         == s.log + [Commit(t, s.base, s.tasks[t].(phase := Holding(claim)), claim, HeadIsNamed(snap, s), {}, false)]
    ensures Newest(s').After() == s.tasks[t].worktree
  {
    var worktree := s.tasks[t].worktree;
    var checked := PassesCheck(snap, s, t, claim);
    s' := Take(snap, A, checked, CopyFile(t, "f"));
    assert worktree.Keys - {"f"} == {};
    assert s'.base == worktree;
    assert worktree - {} == worktree;
  }

  lemma PassesCheck(snap: Snap, s: State, t: TaskId, claim: string) returns (s': State)
    requires Reachable(snap, A, s) && s.lock.None? && s.head == claim
    requires t in s.tasks && s.tasks[t].phase.Working?
    ensures Reachable(snap, A, s') && s'.base == s.base && s'.head == s.head && s'.lock == Some(t)
    ensures var held, todo := s.tasks[t].(phase := Holding(claim)), s.tasks[t].worktree.Keys;
            && s'.tasks == s.tasks[t := held.(phase := Copying(todo))]
            && s'.log == s.log + [Commit(t, s.base, held, claim, HeadIsNamed(snap, s), todo, false)]
  {
    s' := Take(snap, A, s, Acquire(t, claim));
    s' := Take(snap, A, s', Check(t));
  }

  lemma OneOverlaysB(snap: Snap) returns (s: State)
    ensures Reachable(snap, A, s) && s.head == snap(A) && s.base == B && s.lock == Some("q") && |s.log| == 1
    ensures s.tasks == map["p" := Idle(A, A, snap(A), true), "q" := Idle(B, A, snap(A), true).(phase := Copying({}))]
  {
    assert Execute(snap, Fresh(snap, A), []) == Some(Fresh(snap, A));
    assert A - {} == A;
    s := Take(snap, A, Fresh(snap, A), Open("p", {}));
    s := Take(snap, A, s, Open("q", {}));
    s := Take(snap, A, s, Write("q", B));
    s := Overlays(snap, s, "q", snap(A));
  }

  lemma OneCommitsB(snap: Snap) returns (s: State)
    ensures Reachable(snap, A, s) && s.head == snap(B) && s.base == B && s.lock.None? && |s.log| == 1
    ensures s.tasks == map["p" := Idle(A, A, snap(A), true), "q" := Idle(B, A, snap(A), true)]
  {
    s := OneOverlaysB(snap);
    s := Take(snap, A, s, Advance("q"));
  }

  /** Re-opening hands out the current head for the old worktree: the base check passes and q's update is lost. Only
      the handle is not the first one. */
  lemma ReopenedHandleClobbers(snap: Snap)
    requires snap(A) != snap(B)
    ensures exists s :: Reachable(snap, A, s) && |s.log| == 2
                        && var c := s.log[1];
                        PutsBack(c, B, A) && !NoClobber(c) && HandleHolds(snap, c) && !FirstHandle(c.work)
  {
    var s := OneCommitsB(snap);
    s := Take(snap, A, s, Reopen("p"));
    s := Overlays(snap, s, "p", snap(B));
    PuttingBackIsClobbering(s.log[1], B, A);
  }

  /** A claim that is not the handle, here the id of the update itself, passes the check as well. */
  lemma ForeignClaimClobbers(snap: Snap)
    requires snap(A) != snap(B)
    ensures exists s :: Reachable(snap, A, s) && |s.log| == 2
                        && var c := s.log[1];
                        PutsBack(c, B, A) && !NoClobber(c) && FirstHandle(c.work)
                        && c.work.named && c.named && c.claim != c.work.handle
  {
    var s := OneCommitsB(snap);
    s := Overlays(snap, s, "p", snap(B));
    PuttingBackIsClobbering(s.log[1], B, A);
  }

  /** A death between overlay and head advance leaves the old head over the new tree: p's first-open handle still
      passes the check. */
  lemma TornCommitClobbers(snap: Snap)
    requires snap(A) != snap(B)
    ensures exists s :: Reachable(snap, A, s) && |s.log| == 2
                        && var c := s.log[1];
                        PutsBack(c, B, A) && !NoClobber(c) && FirstHandle(c.work)
                        && c.claim == c.work.handle && c.work.named && !c.named
  {
    var s := OneOverlaysB(snap);
    s := Take(snap, A, s, Die("q"));
    s := Overlays(snap, s, "p", snap(A));
    PuttingBackIsClobbering(s.log[1], B, A);
  }

  lemma OneOpensMidCommit(snap: Snap) returns (s: State)
    requires snap(A) != snap(B)
    ensures Reachable(snap, A, s) && s.head == snap(B) && s.base == B && s.lock.None? && |s.log| == 1
    ensures s.tasks == map["p" := Idle(A, A, snap(A), true), "q" := Idle(B, A, snap(A), true),
                           "r" := Idle(B, B, snap(A), false)]
  {
    s := OneOverlaysB(snap);
    assert B - {} == B;
    s := Take(snap, A, s, Open("r", {}));
    s := Take(snap, A, s, Advance("q"));
  }

  lemma OneRestoresA(snap: Snap) returns (s: State)
    requires snap(A) != snap(B)
    ensures Reachable(snap, A, s) && s.head == snap(A) && s.base == A && s.lock.None? && |s.log| == 2
    ensures "r" in s.tasks && s.tasks["r"] == Idle(B, B, snap(A), false)
  {
    s := OneOpensMidCommit(snap);
    s := Take(snap, A, s, Reopen("q"));
    s := Take(snap, A, s, Write("q", A));
    s := Overlays(snap, s, "q", snap(B));
    s := Take(snap, A, s, Advance("q"));
  }

  /** A first open between overlay and head advance pairs the new tree with the old head; when the old tree is
      restored, the check passes and the tree that was copied comes back. */
  lemma RacedOpenClobbers(snap: Snap)
    requires snap(A) != snap(B)
    ensures exists s :: Reachable(snap, A, s) && |s.log| == 3
                        && var c := s.log[2];
                        PutsBack(c, A, B) && !NoClobber(c) && FirstHandle(c.work)
                        && c.claim == c.work.handle && !c.work.named && c.named
  {
    var s := OneRestoresA(snap);
    s := Overlays(snap, s, "r", snap(A));
    PuttingBackIsClobbering(s.log[2], A, B);
  }
}
