/**
 Trees of files and the whole-file patch operations that move between the loop, the worktree and
 the sandbox (sandbox/entrypoint.py `_apply_patch`, src/acp/orchestrator/loop.py
 `_apply_op_to_worktree`).

 A tree maps a normalized path to its text. The main result is exact: applying a patch to a tree
 gives that same tree back if and only if, path by path, the last operation on the path already holds.
 */
module Patches {
  type Path = string
  type Tree = map<Path, string>

  datatype PatchOp = PatchOp(op: string, path: Path, content: string)

  /** The loop's own effect: `delete` unlinks (a missing file is fine), every other verb writes. */
  function ApplyToWorktree(tree: Tree, op: PatchOp): Tree {
    if op.op == "delete" then tree - {op.path} else tree[op.path := op.content]
  }

  /** The tree already shows what the operation would do. */
  predicate EffectHolds(op: PatchOp, tree: Tree) {
    if op.op == "delete" then op.path !in tree else op.path in tree && tree[op.path] == op.content
  }

  predicate SameAt(t: Tree, u: Tree, p: Path) {
    (p in t <==> p in u) && (p in t ==> t[p] == u[p])
  }

  lemma EffectHoldsIffApplyingChangesNothing(op: PatchOp, tree: Tree)
    ensures EffectHolds(op, tree) <==> ApplyToWorktree(tree, op) == tree
    ensures EffectHolds(op, ApplyToWorktree(tree, op))
    ensures forall p :: p != op.path ==> SameAt(tree, ApplyToWorktree(tree, op), p)
  {
    var after := ApplyToWorktree(tree, op);
    if after == tree && op.op == "delete" {
      assert op.path !in after;
    }
  }

  /** What a commit makes of the shared base: every file of the worktree is copied over it, and a file that the
      worktree lacks stays. */
  function Overlaying(base: Tree, worktree: Tree): Tree {
    base + worktree
  }

  /** The overlay is exactly the worktree if and only if no file of the base is missing from it. */
  lemma OverlayPublishesIff(base: Tree, worktree: Tree)
    ensures Overlaying(base, worktree) == worktree <==> base.Keys <= worktree.Keys
  {
    if Overlaying(base, worktree) == worktree {
      assert base.Keys <= Overlaying(base, worktree).Keys;
    }
  }

  /** The sandbox fails closed on a path outside the work directory and on any verb but write and delete. */
  predicate Acceptable(op: PatchOp, inside: Path -> bool) {
    inside(op.path) && (op.op == "write" || op.op == "delete")
  }

  function ApplyAll(tree: Tree, ops: seq<PatchOp>): Tree {
    if ops == [] then tree
    else ApplyToWorktree(ApplyAll(tree, ops[..|ops| - 1]), ops[|ops| - 1])
  }



  predicate Applies(ops: seq<PatchOp>, inside: Path -> bool) {
    forall op <- ops :: Acceptable(op, inside)
  }

  /** The writable copy of the snapshot inside the container. */
  class SandboxWork {
    var work: Tree

    constructor (snapshot: Tree)
      ensures work == snapshot
    {
      work := snapshot;
    }

    /** Runs the operations in order. The first one that leaves the work directory or is neither a write nor a delete
        stops it; the `ran` operations before that one stay applied. */
    method ApplyPatch(ops: seq<PatchOp>, inside: Path -> bool) returns (applied: bool, ghost ran: nat)
      modifies this
      ensures applied <==> forall op <- ops :: inside(op.path) && op.op in {"write", "delete"}
      ensures ran <= |ops| && (applied <==> ran == |ops|)
      ensures forall i :: 0 <= i < ran ==> inside(ops[i].path) && ops[i].op in {"write", "delete"}
      ensures !applied ==> !inside(ops[ran].path) || ops[ran].op !in {"write", "delete"}
      ensures work == ApplyAll(old(work), ops[..ran])
      ensures applied ==> work == ApplyAll(old(work), ops)
    {
      ran := 0;
      for i := 0 to |ops|
        invariant ran == i
        invariant forall j :: 0 <= j < i ==> inside(ops[j].path) && ops[j].op in {"write", "delete"}
        invariant work == ApplyAll(old(work), ops[..i])
      {
        var op := ops[i];
        if !inside(op.path) {
          assert op in ops;
          return false, ran;
        }
        assert ops[..i + 1][..i] == ops[..i];
        if op.op == "write" {
          work := work[op.path := op.content];
        } else if op.op == "delete" {
          if op.path in work {
            work := work - {op.path};
          } else {
            assert work - {op.path} == work;
          }
        } else {
          assert op in ops;
          return false, ran;
        }
        ran := i + 1;
      }
      assert ops[..|ops|] == ops;
      return true, ran;
    }
  }

  // ---------------------------------------------------------------------------------------------
  // What a patch does to one path: only the last operation on it counts.

  datatype LastOp = Untouched | Last(op: PatchOp)

  function LastOn(ops: seq<PatchOp>, p: Path): LastOp {
    if ops == [] then Untouched
    else if ops[|ops| - 1].path == p then Last(ops[|ops| - 1])
    else LastOn(ops[..|ops| - 1], p)
  }

  /** Every path, except those in `skip`, shows what the last operation on it says. */
  ghost predicate AgreesExcept(ops: seq<PatchOp>, tree: Tree, skip: set<Path>) {
    forall p {:trigger LastOn(ops, p)} :: p !in skip && LastOn(ops, p).Last? ==> EffectHolds(LastOn(ops, p).op, tree)
  }

  ghost predicate Agrees(ops: seq<PatchOp>, tree: Tree) {
    AgreesExcept(ops, tree, {})
  }

  lemma {:induction false} ApplyAllAt(tree: Tree, ops: seq<PatchOp>, p: Path)
    ensures LastOn(ops, p).Untouched? ==> SameAt(tree, ApplyAll(tree, ops), p)
    ensures LastOn(ops, p).Last? ==> EffectHolds(LastOn(ops, p).op, ApplyAll(tree, ops)) && LastOn(ops, p).op.path == p
    ensures p in ApplyAll(tree, ops)
       <==> if LastOn(ops, p).Untouched? then p in tree else LastOn(ops, p).op.op != "delete"
    ensures p in ApplyAll(tree, ops) ==>
              ApplyAll(tree, ops)[p] == if LastOn(ops, p).Untouched? then tree[p] else LastOn(ops, p).op.content
  {
    if ops != [] {
      ApplyAllAt(tree, ops[..|ops| - 1], p);
    }
  }

  /** Patching a tree changes nothing if and only if the last operation on every touched path already holds. */
  lemma PatchIsIdentityIff(tree: Tree, ops: seq<PatchOp>)
    ensures ApplyAll(tree, ops) == tree <==> Agrees(ops, tree)
  {
    var after := ApplyAll(tree, ops);
    forall p
      ensures after == tree && LastOn(ops, p).Last? ==> EffectHolds(LastOn(ops, p).op, tree)
      ensures Agrees(ops, tree) ==> SameAt(tree, after, p)
    {
      ApplyAllAt(tree, ops, p);
    }
    if Agrees(ops, tree) {
      forall p
        ensures p in tree <==> p in after
        ensures p in tree ==> tree[p] == after[p]
      {
        assert SameAt(tree, after, p);
      }
      assert tree.Keys == after.Keys;
    }
  }

  lemma {:induction false} LastOnConcat(a: seq<PatchOp>, b: seq<PatchOp>, p: Path)
    ensures LastOn(a + b, p) == (if LastOn(b, p).Last? then LastOn(b, p) else LastOn(a, p))
  {
    if b == [] {
      assert a + b == a;
    } else {
      var last := |a + b| - 1;
      assert (a + b)[..last] == a + b[..|b| - 1];
      LastOnConcat(a, b[..|b| - 1], p);
    }
  }
}
