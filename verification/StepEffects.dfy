/**
 What one step of the loop is for, said of the disk before and after it: in terms of the action's fields and of what
 the outside world answers during the step, not of the kernel's own steps.
 */
module StepEffects {
  import opened Common
  import opened Actions
  import opened Patches
  import opened Journal
  import opened Ledger
  import opened Kernel
  import opened Rename
  import Strings

  /** What the model's nonce, the retrieval service, the index and the sandbox say, should they be asked. */
  datatype Outside = Outside(nonce: int, lookup: Lookup, affected: set<Path>, boxNonce: int, output: string)

  function TaskScope(cfg: Config): string {
    "task:" + cfg.taskId
  }

  function Spent(cfg: Config, d: Disk): int {
    SpentTokens(d.ledger, TaskScope(cfg))
  }

  function Room(cfg: Config, d: Disk): int {
    cfg.tokenBudget - Spent(cfg, d) - ReservedTokens(d.ledger, TaskScope(cfg))
  }

  // ---------------------------------------------------------------------------------------------
  // Retrieving

  /** The symbol is looked up for the primitive `definition` only, which is also the default. */
  predicate AsksForDefinition(action: AgentAction) {
    "primitive" in action.fields ==> action.fields["primitive"] == "definition"
  }

  function RetrieveCost(action: AgentAction, lookup: Lookup): nat {
    if !AsksForDefinition(action) then 0
    else lookup.symbolCost + (if lookup.found.Some? then lookup.spanCost else 0)
  }

  /** The budget does not cover the lookup, or what it leaves does not cover the reading. */
  predicate RetrieveRefused(cfg: Config, before: Disk, action: AgentAction, lookup: Lookup) {
    && AsksForDefinition(action)
    && (lookup.symbolCost > Room(cfg, before)
        || (lookup.found.Some? && lookup.symbolCost + lookup.spanCost > Room(cfg, before)))
  }

  /** One more span in the data channel: the located text under its place, or nothing under the request. The
      journal keeps its origin. */
  predicate SpanTold(action: AgentAction, lookup: Lookup, spans: seq<DataSpan>, told: seq<DataSpan>, payload: Payload) {
    && |told| == |spans| + 1 && told[..|spans|] == spans
    && payload == Retrieved(told[|spans|].origin)
    && match (if AsksForDefinition(action) then lookup.found else None)
       case Some(at) =>
         && told[|spans|].content == at.content
         && told[|spans|].origin == "read_span:" + at.file + ":" + Decimal(at.first) + "-" + Decimal(at.last)
       case None =>
         var primitive := if "primitive" in action.fields then action.fields["primitive"] else "definition";
         var name := if "name" in action.fields then action.fields["name"] else "";
         told[|spans|] == DataSpan(primitive + ":" + name, "")
  }

  // ---------------------------------------------------------------------------------------------
  // Editing

  /** The operation that the action's fields ask for. */
  predicate AskedFor(action: AgentAction, op: PatchOp) {
    && "file_path" in action.fields && op.path == action.fields["file_path"]
    && op.content == (if "content" in action.fields then action.fields["content"] else "")
    && op.op == (if "op" in action.fields then action.fields["op"] else "write")
  }

  /** An operation whose hash is known changes nothing; any other is recorded, and deletes or writes its file. */
  ghost predicate EditDone(cfg: Config, op: PatchOp, before: Disk, after: Disk)
    requires before.worktree.Some? && after.worktree.Some?
  {
    var t, u := before.worktree.value, after.worktree.value;
    if cfg.hash(op) in before.artifacts then u == t && after.artifacts == before.artifacts
    else
      && cfg.inside(op.path) && after.artifacts == before.artifacts + [cfg.hash(op)]
      && (op.path in u <==> op.op != "delete") && (op.op != "delete" ==> u[op.path] == op.content)
      && forall p :: p != op.path ==> SameAt(t, u, p)
  }

  ghost predicate EditRaises(cfg: Config, before: Disk, action: AgentAction) {
    "file_path" !in action.fields
    || exists op :: AskedFor(action, op) && cfg.hash(op) !in before.artifacts && !cfg.inside(op.path)
  }

  // ---------------------------------------------------------------------------------------------
  // Renaming

  function NameOf(action: AgentAction, field: string): string {
    if field in action.fields then action.fields[field] else ""
  }

  /** The file is there and its text changes. */
  predicate Changes(cfg: Config, tree: Tree, p: Path, oldName: string, newName: string) {
    p in tree && cfg.rewrite(tree[p], oldName, newName) != tree[p]
  }

  function WriteBack(cfg: Config, tree: Tree, p: Path, oldName: string, newName: string): PatchOp
    requires p in tree
  {
    PatchOp("write", p, cfg.rewrite(tree[p], oldName, newName))
  }

  /** No earlier step, and no file before it, had an operation with its hash. */
  predicate Ungated(cfg: Config, before: Disk, affected: set<Path>, p: Path, oldName: string, newName: string)
    requires before.worktree.Some? && p in before.worktree.value
  {
    var tree := before.worktree.value;
    var h := cfg.hash(WriteBack(cfg, tree, p, oldName, newName));
    && h !in before.artifacts
    && forall q <- affected :: Changes(cfg, tree, q, oldName, newName) && q != p && Strings.Leq(q, p) ==>
                                 cfg.hash(WriteBack(cfg, tree, q, oldName, newName)) != h
  }

  /** The file is one that the rename writes. */
  predicate IsRewritten(cfg: Config, before: Disk, affected: set<Path>, p: Path, oldName: string, newName: string)
    requires before.worktree.Some?
  {
    && p in affected && Changes(cfg, before.worktree.value, p, oldName, newName)
    && Ungated(cfg, before, affected, p, oldName, newName)
  }

  /** Exactly these files hold their text rewritten, the others as before; and the files listed are those whose text
      changes, in path order. */
  ghost predicate RenameDone(cfg: Config, before: Disk, affected: set<Path>, oldName: string, newName: string,
                             after: Tree, files: seq<Path>)
    requires before.worktree.Some?
  {
    var tree := before.worktree.value;
    && after.Keys == tree.Keys
    && (forall p <- tree :: after[p] == if IsRewritten(cfg, before, affected, p, oldName, newName)
                                        then cfg.rewrite(tree[p], oldName, newName) else tree[p])
    && Strings.Ascending(files)
    && (forall p :: p in files <==> p in affected && Changes(cfg, tree, p, oldName, newName))
  }

  ghost predicate RenameRaises(cfg: Config, before: Disk, affected: set<Path>, oldName: string, newName: string)
    requires before.worktree.Some?
  {
    && oldName != "" && newName != ""
    && exists p <- affected :: IsRewritten(cfg, before, affected, p, oldName, newName) && !cfg.inside(p)
  }

  // One file after the other, in path order

  /** What is written for one file with these artifacts, and whether it is listed. */
  predicate FileDone(cfg: Config, p: Path, oldName: string, newName: string, t: Tree, artifacts: seq<string>, u: Tree,
                     artifacts': seq<string>, touched: bool)
  {
    if !Changes(cfg, t, p, oldName, newName) then u == t && artifacts' == artifacts && !touched
    else
      var op := WriteBack(cfg, t, p, oldName, newName);
      && touched
      && if cfg.hash(op) in artifacts then u == t && artifacts' == artifacts
         else cfg.inside(p) && u == t[p := op.content] && artifacts' == artifacts + [cfg.hash(op)]
  }

  predicate FileRaises(cfg: Config, p: Path, oldName: string, newName: string, t: Tree, artifacts: seq<string>) {
    && Changes(cfg, t, p, oldName, newName)
    && cfg.hash(WriteBack(cfg, t, p, oldName, newName)) !in artifacts && !cfg.inside(p)
  }

  ghost predicate RenamedUpTo(cfg: Config, before: Disk, affected: set<Path>, done: seq<Path>, oldName: string,
                              newName: string, t: Tree, artifacts: seq<string>, files: seq<Path>)
    requires before.worktree.Some?
  {
    && TreeUpTo(cfg, before, affected, done, oldName, newName, t)
    && ListUpTo(cfg, before.worktree.value, done, oldName, newName, files)
    && HashesUpTo(cfg, before, done, oldName, newName, artifacts)
  }

  ghost predicate TreeUpTo(cfg: Config, before: Disk, affected: set<Path>, done: seq<Path>, oldName: string,
                           newName: string, t: Tree)
    requires before.worktree.Some?
  {
    var tree := before.worktree.value;
    && t.Keys == tree.Keys
    && (forall p <- tree :: t[p] == if p in done && IsRewritten(cfg, before, affected, p, oldName, newName)
                                    then cfg.rewrite(tree[p], oldName, newName) else tree[p])
    && (forall p <- done :: IsRewritten(cfg, before, affected, p, oldName, newName) ==> cfg.inside(p))
  }

  ghost predicate ListUpTo(cfg: Config, tree: Tree, done: seq<Path>, oldName: string, newName: string,
                           files: seq<Path>)
  {
    && Strings.Ascending(files)
    && (forall p :: p in files <==> p in done && Changes(cfg, tree, p, oldName, newName))
  }

  ghost predicate HashesUpTo(cfg: Config, before: Disk, done: seq<Path>, oldName: string, newName: string,
                             artifacts: seq<string>)
    requires before.worktree.Some?
  {
    forall h :: h in artifacts
                <==> h in before.artifacts || HashedBy(cfg, before.worktree.value, done, oldName, newName, h)
  }

  predicate HashedBy(cfg: Config, tree: Tree, done: seq<Path>, oldName: string, newName: string, h: string) {
    exists q <- done :: Changes(cfg, tree, q, oldName, newName)
                        && cfg.hash(WriteBack(cfg, tree, q, oldName, newName)) == h
  }

  lemma NoFileYet(cfg: Config, before: Disk, affected: set<Path>, oldName: string, newName: string)
    requires before.worktree.Some?
    ensures RenamedUpTo(cfg, before, affected, [], oldName, newName, before.worktree.value, before.artifacts, [])
  {
  }

  /** The paths before the i-th in path order are those listed before it. */
  lemma EarlierPaths(affected: set<Path>, todo: seq<Path>, i: nat, q: Path)
    requires todo == Strings.SortedKeys(affected) && i < |todo|
    ensures q in todo[..i] <==> q in affected && q != todo[i] && Strings.Leq(q, todo[i])
  {
    Strings.SortedKeysAscend(affected);
    if q in affected && q !in todo[..i] {
      var k :| 0 <= k < |todo| && todo[k] == q;
      assert k >= i;
      Strings.LeqIsTotal(q, todo[i]);
    }
  }

  lemma WrittenIffUnknown(cfg: Config, before: Disk, affected: set<Path>, todo: seq<Path>, i: nat, oldName: string,
                          newName: string, t: Tree, artifacts: seq<string>, files: seq<Path>)
    requires todo == Strings.SortedKeys(affected) && i < |todo| && before.worktree.Some?
    requires RenamedUpTo(cfg, before, affected, todo[..i], oldName, newName, t, artifacts, files)
    requires Changes(cfg, before.worktree.value, todo[i], oldName, newName)
    ensures var op := WriteBack(cfg, before.worktree.value, todo[i], oldName, newName);
            IsRewritten(cfg, before, affected, todo[i], oldName, newName) <==> cfg.hash(op) !in artifacts
  {
    var tree, p := before.worktree.value, todo[i];
    var h := cfg.hash(WriteBack(cfg, tree, p, oldName, newName));
    assert p in todo && p in affected;
    forall q
      ensures q in todo[..i] <==> q in affected && q != p && Strings.Leq(q, p)
    {
      EarlierPaths(affected, todo, i, q);
    }
    assert HashedBy(cfg, tree, todo[..i], oldName, newName, h)
      <==> exists q <- affected :: Changes(cfg, tree, q, oldName, newName) && q != p && Strings.Leq(q, p)
                                   && cfg.hash(WriteBack(cfg, tree, q, oldName, newName)) == h;
  }

  lemma NotYetDone(cfg: Config, before: Disk, affected: set<Path>, todo: seq<Path>, i: nat, oldName: string,
                   newName: string, t: Tree, artifacts: seq<string>, files: seq<Path>)
    requires todo == Strings.SortedKeys(affected) && i < |todo| && before.worktree.Some?
    requires RenamedUpTo(cfg, before, affected, todo[..i], oldName, newName, t, artifacts, files)
    ensures todo[i] !in todo[..i] && SameAt(before.worktree.value, t, todo[i])
    ensures Changes(cfg, t, todo[i], oldName, newName) == Changes(cfg, before.worktree.value, todo[i], oldName, newName)
  {
    EarlierPaths(affected, todo, i, todo[i]);
  }

  lemma RaisesHere(cfg: Config, before: Disk, affected: set<Path>, todo: seq<Path>, i: nat, oldName: string,
                   newName: string, t: Tree, artifacts: seq<string>, files: seq<Path>)
    requires todo == Strings.SortedKeys(affected) && i < |todo| && before.worktree.Some?
    requires RenamedUpTo(cfg, before, affected, todo[..i], oldName, newName, t, artifacts, files)
    requires FileRaises(cfg, todo[i], oldName, newName, t, artifacts)
    ensures IsRewritten(cfg, before, affected, todo[i], oldName, newName) && !cfg.inside(todo[i])
    ensures todo[i] in affected
  {
    NotYetDone(cfg, before, affected, todo, i, oldName, newName, t, artifacts, files);
    WrittenIffUnknown(cfg, before, affected, todo, i, oldName, newName, t, artifacts, files);
  }

  lemma ListedNext(files: seq<Path>, affected: set<Path>, todo: seq<Path>, i: nat)
    requires todo == Strings.SortedKeys(affected) && i < |todo| && Strings.Ascending(files)
    requires forall p <- files :: p in todo[..i]
    ensures Strings.Ascending(files + [todo[i]])
  {
    forall k | 0 <= k < |files|
      ensures Strings.Leq(files[k], todo[i]) && files[k] != todo[i]
    {
      assert files[k] in files;
      EarlierPaths(affected, todo, i, files[k]);
    }
  }

  lemma OneMoreFile(cfg: Config, before: Disk, affected: set<Path>, todo: seq<Path>, i: nat, oldName: string,
                    newName: string, t: Tree, artifacts: seq<string>, files: seq<Path>, u: Tree,
                    artifacts': seq<string>, touched: bool)
    requires todo == Strings.SortedKeys(affected) && i < |todo| && before.worktree.Some?
    requires RenamedUpTo(cfg, before, affected, todo[..i], oldName, newName, t, artifacts, files)
    requires FileDone(cfg, todo[i], oldName, newName, t, artifacts, u, artifacts', touched)
    ensures RenamedUpTo(cfg, before, affected, todo[..i + 1], oldName, newName, u, artifacts',
                        if touched then files + [todo[i]] else files)
  {
    var tree, p := before.worktree.value, todo[i];
    NotYetDone(cfg, before, affected, todo, i, oldName, newName, t, artifacts, files);
    assert todo[..i + 1] == todo[..i] + [p];
    if Changes(cfg, tree, p, oldName, newName) {
      WrittenIffUnknown(cfg, before, affected, todo, i, oldName, newName, t, artifacts, files);
      ListedNext(files, affected, todo, i);
    }
    OneMoreTree(cfg, before, affected, todo[..i], p, oldName, newName, t, artifacts, u, artifacts', touched);
    OneMoreHash(cfg, before, todo[..i], p, oldName, newName, t, artifacts, u, artifacts', touched);
    OneMoreListed(cfg, tree, todo[..i], p, oldName, newName, files, touched);
  }

  lemma OneMoreTree(cfg: Config, before: Disk, affected: set<Path>, done: seq<Path>, p: Path, oldName: string,
                    newName: string, t: Tree, artifacts: seq<string>, u: Tree, artifacts': seq<string>, touched: bool)
    requires before.worktree.Some? && TreeUpTo(cfg, before, affected, done, oldName, newName, t)
    requires p !in done && SameAt(before.worktree.value, t, p)
    requires FileDone(cfg, p, oldName, newName, t, artifacts, u, artifacts', touched)
    requires Changes(cfg, before.worktree.value, p, oldName, newName) ==>
               var op := WriteBack(cfg, before.worktree.value, p, oldName, newName);
               IsRewritten(cfg, before, affected, p, oldName, newName) <==> cfg.hash(op) !in artifacts
    ensures TreeUpTo(cfg, before, affected, done + [p], oldName, newName, u)
  {
    hide Ungated;
    var tree := before.worktree.value;
    forall q | q in tree
      ensures q in u && u[q] == if q in done + [p] && IsRewritten(cfg, before, affected, q, oldName, newName)
                                then cfg.rewrite(tree[q], oldName, newName) else tree[q]
    {
      if q != p {
        assert q in done + [p] <==> q in done;
      }
    }
    assert u.Keys == t.Keys;
  }

  lemma OneMoreHash(cfg: Config, before: Disk, done: seq<Path>, p: Path, oldName: string, newName: string, t: Tree,
                    artifacts: seq<string>, u: Tree, artifacts': seq<string>, touched: bool)
    requires before.worktree.Some? && HashesUpTo(cfg, before, done, oldName, newName, artifacts)
    requires SameAt(before.worktree.value, t, p)
    requires FileDone(cfg, p, oldName, newName, t, artifacts, u, artifacts', touched)
    ensures HashesUpTo(cfg, before, done + [p], oldName, newName, artifacts')
  {
    var tree := before.worktree.value;
    forall h
      ensures HashedBy(cfg, tree, done + [p], oldName, newName, h)
         <==> HashedBy(cfg, tree, done, oldName, newName, h)
              || (Changes(cfg, tree, p, oldName, newName) && cfg.hash(WriteBack(cfg, tree, p, oldName, newName)) == h)
    {
      assert forall q :: q in done + [p] <==> q in done || q == p;
    }
  }

  lemma OneMoreListed(cfg: Config, tree: Tree, done: seq<Path>, p: Path, oldName: string, newName: string,
                      files: seq<Path>, touched: bool)
    requires ListUpTo(cfg, tree, done, oldName, newName, files)
    requires touched <==> Changes(cfg, tree, p, oldName, newName)
    requires touched ==> Strings.Ascending(files + [p])
    ensures ListUpTo(cfg, tree, done + [p], oldName, newName, if touched then files + [p] else files)
  {
  }

  lemma AllFilesDone(cfg: Config, before: Disk, affected: set<Path>, todo: seq<Path>, oldName: string,
                     newName: string, t: Tree, artifacts: seq<string>, files: seq<Path>)
    requires todo == Strings.SortedKeys(affected) && before.worktree.Some?
    requires RenamedUpTo(cfg, before, affected, todo, oldName, newName, t, artifacts, files)
    ensures RenameDone(cfg, before, affected, oldName, newName, t, files)
    ensures !RenameRaises(cfg, before, affected, oldName, newName)
  {
  }

  /** When nothing is gated, every affected file that is there is rewritten, and no other file changes. */
  lemma UngatedRenameRewritesAll(cfg: Config, before: Disk, affected: set<Path>, oldName: string, newName: string,
                                 after: Tree, files: seq<Path>)
    requires before.worktree.Some? && RenameDone(cfg, before, affected, oldName, newName, after, files)
    requires forall p <- affected :: Changes(cfg, before.worktree.value, p, oldName, newName) ==>
                                       Ungated(cfg, before, affected, p, oldName, newName)
    ensures var tree := before.worktree.value;
            && after.Keys == tree.Keys
            && forall p <- tree ::
                 after[p] == if p in affected then cfg.rewrite(tree[p], oldName, newName) else tree[p]
  {
    var tree := before.worktree.value;
    forall p | p in tree
      ensures after[p] == if p in affected then cfg.rewrite(tree[p], oldName, newName) else tree[p]
    {
      assert p in affected && Changes(cfg, tree, p, oldName, newName) ==>
          IsRewritten(cfg, before, affected, p, oldName, newName);
    }
  }

  /** With the whole-identifier rename and nothing gated, no affected file keeps the old name as a token, its runs are
      those from before with the name replaced, and no other file changes. */
  lemma RenameReachesEverySite(cfg: Config, w: Strings.CharTest, before: Disk, affected: set<Path>, oldName: string,
                               newName: string, after: Tree, files: seq<Path>)
    requires Identifier(w, oldName) && Identifier(w, newName) && oldName != newName
    requires forall text :: cfg.rewrite(text, oldName, newName) == RenameTokens(w, text, oldName, newName)
    requires before.worktree.Some? && RenameDone(cfg, before, affected, oldName, newName, after, files)
    requires forall p <- affected :: Changes(cfg, before.worktree.value, p, oldName, newName) ==>
                                       Ungated(cfg, before, affected, p, oldName, newName)
    ensures var tree := before.worktree.value;
            && after.Keys == tree.Keys
            && (forall p <- tree :: p !in affected ==> after[p] == tree[p])
            && (forall p <- tree :: p in affected ==>
                                      && Word(oldName) !in Runs(w, after[p])
                                      && Runs(w, after[p]) == Swap(Runs(w, tree[p]), oldName, newName))
            && (forall p :: p in files <==> p in affected && p in tree && Word(oldName) in Runs(w, tree[p]))
  {
    var tree := before.worktree.value;
    UngatedRenameRewritesAll(cfg, before, affected, oldName, newName, after, files);
    forall p | p in tree
      ensures p in affected ==> Word(oldName) !in Runs(w, after[p])
      ensures p in affected ==> Runs(w, after[p]) == Swap(Runs(w, tree[p]), oldName, newName)
      ensures Changes(cfg, tree, p, oldName, newName) <==> Word(oldName) in Runs(w, tree[p])
    {
      RenameIsCompleteAndIdempotent(w, tree[p], oldName, newName);
      RunsOfRenamed(w, tree[p], oldName, newName);
      ChangesIffOccurs(w, tree[p], oldName, newName);
    }
  }

  lemma ChangesIffOccurs(w: Strings.CharTest, text: string, oldName: string, newName: string)
    requires Identifier(w, oldName) && Identifier(w, newName) && oldName != newName
    ensures RenameTokens(w, text, oldName, newName) != text <==> Word(oldName) in Runs(w, text)
  {
    RunsOfRenamed(w, text, oldName, newName);
    RenameIsMapOverRuns(w, text, oldName, newName);
    JoinRuns(w, text, 0);
    assert text[0..] == text;
    var runs, swapped := Runs(w, text), Swap(Runs(w, text), oldName, newName);
    if Word(oldName) in runs {
      var i :| 0 <= i < |runs| && runs[i] == Word(oldName);
      assert swapped[i] == Word(newName);
    } else {
      assert swapped == runs;
    }
  }

  // ---------------------------------------------------------------------------------------------
  // Verifying

  /** The verdict is positive exactly when every operation of the reassembled patch stays inside the work directory
      and is a write or a delete, and the tests pass on the patched copy. */
  predicate VerdictGiven(cfg: Config, before: Disk, boxNonce: int, output: string, payload: Payload)
    requires before.worktree.Some?
  {
    var ops := CombinedPatch(before.journal, before.worktree.value);
    && payload.Verified? && payload.output == output
    && (payload.verified
        <==> (forall op <- ops :: cfg.inside(op.path) && op.op in {"write", "delete"})
             && cfg.tests(ApplyAll(before.worktree.value, ops), boxNonce))
  }

  // ---------------------------------------------------------------------------------------------
  // The step as a whole

  /** The effect of an action on the worktree, the artifacts and the data channel, and what its row records. */
  ghost predicate EffectShown(cfg: Config, action: AgentAction, outside: Outside, before: Disk, after: Disk,
                              spans: seq<DataSpan>, told: seq<DataSpan>, payload: Payload)
  {
    && before.worktree.Some? && after.worktree.Some?
    && match action.kind
       case Plan | GiveUp => SameFiles(before, after) && told == spans && payload == Nothing
       case Retrieve => SameFiles(before, after) && SpanTold(action, outside.lookup, spans, told, payload)
       case Edit =>
         && told == spans
         && payload.Edited? && AskedFor(action, payload.edit) && EditDone(cfg, payload.edit, before, after)
       case Rename =>
         var oldName, newName := NameOf(action, "old_name"), NameOf(action, "new_name");
         && told == spans && payload.Renamed?
         && if oldName == "" || newName == "" then SameFiles(before, after) && payload.files == []
            else RenameDone(cfg, before, outside.affected, oldName, newName, after.worktree.value, payload.files)
       case Verify =>
         SameFiles(before, after) && told == spans
         && VerdictGiven(cfg, before, outside.boxNonce, outside.output, payload)
  }

  predicate SameFiles(before: Disk, after: Disk) {
    after.worktree == before.worktree && after.artifacts == before.artifacts
  }

  /** When an effect raises instead. */
  ghost predicate EffectRaises(cfg: Config, action: AgentAction, outside: Outside, before: Disk)
    requires before.worktree.Some?
  {
    match action.kind
    case Retrieve => RetrieveRefused(cfg, before, action, outside.lookup)
    case Edit => EditRaises(cfg, before, action)
    case Rename =>
      RenameRaises(cfg, before, outside.affected, NameOf(action, "old_name"), NameOf(action, "new_name"))
    case _ => false
  }

  function EffectCost(action: AgentAction, outside: Outside): nat {
    if action.kind == Retrieve then RetrieveCost(action, outside.lookup) else 0
  }

  predicate IsStepKind(kind: ActionKind, step: StepKind) {
    match kind
    case Plan | GiveUp => step == PlanStep
    case Retrieve => step == RetrieveStep
    case Edit | Rename => step == EditStep
    case Verify => step == VerifyStep
  }



  /** The row carries the reply and what the effect records; the reply's charge is committed under the step; the call
      is metered. */
  ghost predicate RowAndCharge(cfg: Config, step: nat, action: AgentAction, reply: Reply, payload: Payload,
                               before: Disk, after: Disk)
  {
    var charge := reply.tokensIn + reply.tokensOut;
    && after.worktree == before.worktree && after.artifacts == before.artifacts && after.task == before.task
    && |after.journal| == |before.journal| + 1 && after.journal[..|before.journal|] == before.journal
    && (var row := after.journal[|before.journal|];
        && row.step == step && IsStepKind(action.kind, row.kind) && row.xml == reply.xml && row.charge == charge
        && row.payload == payload)
    && |after.ledger| == |before.ledger| + 1 && after.ledger[..|before.ledger|] == before.ledger
    && (var commit := after.ledger[|before.ledger|];
        && commit.scope == TaskScope(cfg) && commit.kind == EntryKind.Commit && commit.taskId == Some(cfg.taskId)
        && commit.stepIndex == Some(step) && commit.tokens == charge
        && |commit.note| >= 6 && commit.note[..6] == "model:" && IsWireName(action.kind, commit.note[6..]))
    && after.toolCalls == before.toolCalls + 1
  }

  /** One paid call, one effect, one row that carries both, one commit of its charge, one metered call. `effected` is
      the disk between the effect and its row. */
  ghost predicate StepDone(cfg: Config, step: nat, outside: Outside, spans: seq<DataSpan>, before: Disk,
                           effected: Disk, after: Disk, action: AgentAction, told: seq<DataSpan>, payload: Payload)
  {
    var reply := cfg.model(step, spans, outside.nonce);
    && cfg.parse(reply.xml) == Some(action)
    && effected.journal == before.journal && effected.task == before.task && effected.toolCalls == before.toolCalls
    && EffectShown(cfg, action, outside, before, effected, spans, told, payload)
    && Spent(cfg, effected) == Spent(cfg, before) + EffectCost(action, outside)
    && RowAndCharge(cfg, step, action, reply, payload, effected, after)
  }

  /** The step's cost is its retrieval and the reply's tokens. */
  lemma StepCosts(cfg: Config, step: nat, outside: Outside, spans: seq<DataSpan>, before: Disk, effected: Disk,
                  after: Disk, action: AgentAction, told: seq<DataSpan>, payload: Payload)
    requires StepDone(cfg, step, outside, spans, before, effected, after, action, told, payload)
    ensures var reply := cfg.model(step, spans, outside.nonce);
            Spent(cfg, after) == Spent(cfg, before) + EffectCost(action, outside) + reply.tokensIn + reply.tokensOut
  {
    var commit := after.ledger[|effected.ledger|];
    assert after.ledger == effected.ledger + [commit];
    BalancesAfterAppend(effected.ledger, commit, TaskScope(cfg));
  }

  /** Nothing is journaled when the reply is no action or its effect raises. */
  ghost predicate StepRaised(cfg: Config, step: nat, outside: Outside, spans: seq<DataSpan>, before: Disk, after: Disk)
    requires before.worktree.Some?
  {
    && after.journal == before.journal && after.task == before.task
    && match cfg.parse(cfg.model(step, spans, outside.nonce).xml)
       case None => true
       case Some(action) => EffectRaises(cfg, action, outside, before)
  }
}
