/** The commit protocol with its real ids: the safety results rest on SHA-256 alone. */
module WorkspaceIds {
  import opened Patches
  import opened Snapshot
  import opened Workspace

  function ShaSnap(sha: Bytes -> Bytes): Snap {
    tree => SnapshotId(sha, tree)
  }

  /** No two inputs hashed for these two trees collide. */
  ghost predicate ShaTellsApart(sha: Bytes -> Bytes, a: Tree, b: Tree) {
    && (forall x :: |sha(x)| == 32)
    && Storable(a) && Storable(b)
    && (forall x, y :: !Collide(sha, a, b, x, y))
  }

  /** After every history of any number of tasks, for every commit that claimed the handle of its task's first open:
      if the head named the base at that open and at the check, the commit overlays the tree its worktree was copied
      from and changes only what its task wrote. Of SHA-256 only these two trees are asked. */
  lemma NoLostUpdate(sha: Bytes -> Bytes, start: Tree, events: seq<Event>, i: nat)
    requires Execute(ShaSnap(sha), Fresh(ShaSnap(sha), start), events).Some?
    requires i < |Execute(ShaSnap(sha), Fresh(ShaSnap(sha), start), events).value.log|
    requires var c := Execute(ShaSnap(sha), Fresh(ShaSnap(sha), start), events).value.log[i];
             && c.claim == c.work.handle && c.work.named && c.named && c.work.vended == c.work.copied
             && ShaTellsApart(sha, c.before, c.work.copied)
    ensures var c := Execute(ShaSnap(sha), Fresh(ShaSnap(sha), start), events).value.log[i];
            c.before == c.work.copied && NoClobber(c)
  {
    var c := Execute(ShaSnap(sha), Fresh(ShaSnap(sha), start), events).value.log[i];
    if ShaSnap(sha)(c.before) == ShaSnap(sha)(c.work.copied) {
      EqualIdsMeanEqualTrees(sha, c.before, c.work.copied);
    }
    FirstOpenHandlesAreSafe(ShaSnap(sha), start, events, i);
  }
}
