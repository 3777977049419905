/**
 The append-only journal (src/acp/db/repositories.py, class JournalRepo) and the two readings of it that
 the loop depends on: the failed verifications it counts and the patch it reassembles for the sandbox
 (src/acp/orchestrator/loop.py `_count_repair_attempts`, `_combined_patch`).
 */
module Journal {
  import opened Common
  import opened Patches
  import opened Sorting

  datatype StepKind = PlanStep | RetrieveStep | EditStep | VerifyStep

  /** What a step's effect leaves in its row. */
  datatype Payload =
    | Nothing
    | Retrieved(origin: string)
    | Edited(edit: PatchOp)
    | Renamed(files: seq<Path>)
    | Verified(verified: bool, output: string)

  datatype JournalRow = JournalRow(step: nat, kind: StepKind, xml: string, charge: nat, payload: Payload)

  function RowAt(rows: seq<JournalRow>, step: nat): Option<JournalRow> {
    if rows == [] then None
    else if rows[|rows| - 1].step == step then Some(rows[|rows| - 1])
    else RowAt(rows[..|rows| - 1], step)
  }

  /** max(step_index) + 1, or 0 for an empty trace. */
  function NextStep(rows: seq<JournalRow>): nat {
    if rows == [] then 0 else
    var rest := NextStep(rows[..|rows| - 1]);
    if rows[|rows| - 1].step + 1 > rest then rows[|rows| - 1].step + 1 else rest
  }

  /** The journal holds steps 0 .. n-1, each once and in order. */
  ghost predicate Dense(rows: seq<JournalRow>) {
    forall i :: 0 <= i < |rows| ==> rows[i].step == i
  }

  lemma {:induction false} DenseLookups(rows: seq<JournalRow>)
    requires Dense(rows)
    ensures NextStep(rows) == |rows|
    ensures forall k: nat :: RowAt(rows, k) == (if k < |rows| then Some(rows[k]) else None)
  {
    if rows != [] {
      DenseLookups(rows[..|rows| - 1]);
    }
  }

  // ---------------------------------------------------------------------------------------------
  // ORDER BY step_index

  function StepKey(row: JournalRow): Key {
    Key(row.step, 0, "", "")
  }

  function Trace(rows: seq<JournalRow>): seq<JournalRow> {
    SortBy(StepKey, rows)
  }

  lemma {:induction false} DenseIsSorted(rows: seq<JournalRow>)
    requires Dense(rows)
    ensures Sorted(StepKey, rows)
  {
    if |rows| > 1 {
      DenseIsSorted(rows[..|rows| - 1]);
    }
  }

  lemma DenseTraceIsTheTable(rows: seq<JournalRow>)
    requires Dense(rows)
    ensures Trace(rows) == rows
  {
    DenseIsSorted(rows);
    SortOfSorted(StepKey, rows);
  }

  class JournalRepo {
    var rows: seq<JournalRow>

    constructor ()
      ensures rows == []
    {
      rows := [];
    }

    /** INSERT OR IGNORE on the step index: an existing row wins and is handed back. */
    method Append(row: JournalRow) returns (entry: JournalRow, created: bool)
      modifies this
      ensures created == RowAt(old(rows), row.step).None?
      ensures rows == if created then old(rows) + [row] else old(rows)
      ensures RowAt(rows, row.step) == Some(entry)
      ensures created ==> entry == row
    {
      match RowAt(rows, row.step) {
        case Some(existing) =>
          entry, created := existing, false;
        case None =>
          rows := rows + [row];
          entry, created := row, true;
      }
    }
  }

  // ---------------------------------------------------------------------------------------------
  // Failed verifications

  predicate IsFailedVerify(row: JournalRow) {
    row.kind == VerifyStep && !(row.payload.Verified? && row.payload.verified)
  }

  function CountFailed(rows: seq<JournalRow>): nat {
    if rows == [] then 0
    else CountFailed(rows[..|rows| - 1]) + (if IsFailedVerify(rows[|rows| - 1]) then 1 else 0)
  }

  method CountRepairAttempts(trace: seq<JournalRow>) returns (count: nat)
    ensures count == CountFailed(trace)
  {
    count := 0;
    for i := 0 to |trace|
      invariant count == CountFailed(trace[..i])
    {
      assert trace[..i + 1][..i] == trace[..i];
      if trace[i].kind == VerifyStep {
        if !(trace[i].payload.Verified? && trace[i].payload.verified) {
          count := count + 1;
        }
      }
    }
    assert trace[..|trace|] == trace;
  }

  // ---------------------------------------------------------------------------------------------
  // The patch handed to the sandbox

  /** A rename row stores only paths; its operations are read back from the worktree as it is now. */
  function RenameOps(files: seq<Path>, tree: Tree): seq<PatchOp> {
    if files == [] then [] else
    var p := files[|files| - 1];
    RenameOps(files[..|files| - 1], tree) + (if p in tree then [PatchOp("write", p, tree[p])] else [])
  }

  function RowOps(row: JournalRow, tree: Tree): seq<PatchOp> {
    if row.kind != EditStep then []
    else match row.payload
         case Edited(edit) => [edit]
         case Renamed(files) => RenameOps(files, tree)
         case _ => []
  }

  function CombinedPatch(rows: seq<JournalRow>, tree: Tree): seq<PatchOp> {
    if rows == [] then [] else CombinedPatch(rows[..|rows| - 1], tree) + RowOps(rows[|rows| - 1], tree)
  }

  /** The journal's last word on p, if it has one, is what the worktree shows. */
  predicate DescribedAt(rows: seq<JournalRow>, tree: Tree, p: Path) {
    match LastOn(CombinedPatch(rows, tree), p)
    case Untouched => true
    case Last(op) => EffectHolds(op, tree)
  }

  method ReadRenamesBack(files: seq<Path>, tree: Tree) returns (ops: seq<PatchOp>)
    ensures ops == RenameOps(files, tree)
  {
    ops := [];
    for j := 0 to |files|
      invariant ops == RenameOps(files[..j], tree)
    {
      assert files[..j + 1][..j] == files[..j];
      if files[j] in tree {
        ops := ops + [PatchOp("write", files[j], tree[files[j]])];
      }
    }
    assert files[..|files|] == files;
  }

  method BuildCombinedPatch(trace: seq<JournalRow>, tree: Tree) returns (ops: seq<PatchOp>)
    ensures ops == CombinedPatch(trace, tree)
  {
    ops := [];
    for i := 0 to |trace|
      invariant ops == CombinedPatch(trace[..i], tree)
    {
      assert trace[..i + 1][..i] == trace[..i];
      var entry := trace[i];
      if entry.kind == EditStep {
        if entry.payload.Edited? {
          ops := ops + [entry.payload.edit];
        } else if entry.payload.Renamed? {
          var renames := ReadRenamesBack(entry.payload.files, tree);
          ops := ops + renames;
        }
      }
    }
    assert trace[..|trace|] == trace;
  }

  lemma {:induction false} RenameOpsAt(files: seq<Path>, tree: Tree, p: Path)
    ensures LastOn(RenameOps(files, tree), p)
         == (if p in files && p in tree then Last(PatchOp("write", p, tree[p])) else Untouched)
  {
    if files != [] {
      var front, q := files[..|files| - 1], files[|files| - 1];
      RenameOpsAt(front, tree, p);
      LastOnConcat(RenameOps(front, tree), if q in tree then [PatchOp("write", q, tree[q])] else [], p);
      assert p in files <==> p in front || p == q;
    }
  }

  lemma RowOpsAreLocal(row: JournalRow, t: Tree, u: Tree, p: Path)
    requires SameAt(t, u, p)
    ensures LastOn(RowOps(row, t), p) == LastOn(RowOps(row, u), p)
  {
    if row.payload.Renamed? {
      RenameOpsAt(row.payload.files, t, p);
      RenameOpsAt(row.payload.files, u, p);
    }
  }

  /** What the combined patch finally does to a path depends on the tree at that path only. */
  lemma {:induction false} CombinedPatchIsLocal(rows: seq<JournalRow>, t: Tree, u: Tree, p: Path)
    requires SameAt(t, u, p)
    ensures LastOn(CombinedPatch(rows, t), p) == LastOn(CombinedPatch(rows, u), p)
  {
    if rows == [] {
      return;
    }
    var front, row := rows[..|rows| - 1], rows[|rows| - 1];
    assert rows == front + [row];
    CombinedPatchIsLocal(front, t, u, p);
    RowOpsAreLocal(row, t, u, p);
    CombinedPatchAppend(front, row, t, p);
    CombinedPatchAppend(front, row, u, p);
  }

  lemma CombinedPatchAppend(rows: seq<JournalRow>, row: JournalRow, tree: Tree, p: Path)
    ensures CombinedPatch(rows + [row], tree) == CombinedPatch(rows, tree) + RowOps(row, tree)
    ensures LastOn(CombinedPatch(rows + [row], tree), p)
         == (if LastOn(RowOps(row, tree), p).Last? then LastOn(RowOps(row, tree), p)
             else LastOn(CombinedPatch(rows, tree), p))
  {
    assert (rows + [row])[..|rows|] == rows;
    LastOnConcat(CombinedPatch(rows, tree), RowOps(row, tree), p);
  }
}
