# Durable agent kernel: a verified model

This project models the durable-execution kernel of the agent platform and proves what it keeps through
crashes, resumes and concurrent commits. The agent loop drives one piece of work through model calls,
retrievals, edits, renames and sandbox verifications; every effect is recorded in an append-only journal, a
token ledger and an artifact table, so that a process can die between any two writes and be resumed.

`dafny verify dfyconfig.toml` checks everything.

## How the model is laid out

**The agent loop.** `Kernel.dfy` is a state machine. One event is one atomic durable write, one file write, one
model or sandbox call, or a decision between them; `Crash` is enabled wherever a runner is alive, and `Start`
resumes whatever is not terminal. `Execute` runs a list of events, so a statement about every list for which
`Execute` yields a state is a statement about every model, sandbox, clock and pattern of crashes.
`KernelStructure`, `KernelCharges`, `KernelCounts` and `KernelFidelity` hold the invariants, `KernelTheorems` and
`KernelOutcomes` the results. `AgentLoop.dfy` is the imperative loop itself (journal, ledger, artifacts, worktree as
mutable state); each method is proved to perform exactly the machine's steps, in order, and `Run` is proved to
terminate by `stepBudget - step`. What each step's effect is for is said besides in terms of the action's fields, the
outside answers and the disk before and after, by the predicates of `StepEffects.dfy`, and the methods ensure that
too. The replay branch of the original loop is proved unreachable: resume starts at the first step without a row.

Where comments of the original claim more than its code does, the code is followed:

- The artifact row is written before the file, so an edit is applied at most once, and exactly once only without
  a crash in between (`KernelTheorems.WrittenAtMostOnce`).
- The content-hash gate also suppresses a deliberate re-edit. `World.stale` is the set of the paths on which the
  journal's last word is not what the worktree shows: a path enters it by a suppressed edit that is not shown or by
  a death between a file write and its row, and leaves it with the next row that covers it. The tests of a VERIFY
  see the worktree itself if and only if that set is empty.
- A commit copies the worktree over the base and deletes nothing, so a file that the task deleted stays. What a
  success leaves behind is what its tests saw if and only if, besides, the worktree has every file of the base.
  `KernelWitness` shows a history for each way to fail: success over a base that fails the tests.
- Only model-step charges are once-only; retrieval charges carry no step and may repeat after a crash.
- An exception out of a step leaves the state RUNNING and is modelled as a death of the runner.

**The workspace.** `Workspace.dfy` is a machine over any number of runners that open, re-open, write and commit
(acquire, base check, one copied file after the other, head advance), under whatever base commit they claim and with
a death possible after each of these steps. `WorkspaceService.dfy` holds the service with its fields, its
lock-polling loop and its copy loop, proved to perform the machine's steps whatever the other runners do between two
polls. For every commit after every history it is said exactly when it loses an update. That it loses none follows
from four facts about the commit itself: it claims its task's handle, the handle is the first one, and the head
named the base at that open and at the base check; `WorkspaceWitness` gives a history for each in which an update is
lost without it. `Snapshot.dfy` reduces equality of ids to collisions of SHA-256, and `WorkspaceIds.dfy` puts the
two together. `Platform.dfy` lets the kernel of one task and the workspace step together, among any other tasks.

**Texts and data.** `Rename.dfy` (whole-identifier substitution), `Xml*.dfy` and `Prompt*.dfy` (prompt channels and
action grammar over a reader for the XML 1.0 fragment they use), `Stub*.dfy` (the deterministic model and its
non-interference, carried through the kernel), `Sentinel.dfy` (framing of the sandbox verdict),
`Limiter.dfy` (sliding-window rate limit, also for calls out of time order), `Sorting.dfy`, `ImportResolution.dfy`,
`ImportRules.dfy` (which file an import means), `IndexModel.dfy`, `IndexBuilder.dfy` (canonical and incremental
index), `Walk.dfy` (explicit-stack traversal),
`Ledger.dfy`, `Journal.dfy`, `Patches.dfy` (the tables and the patch semantics).

Parameters stand for what lies outside: the model, the sandbox's tests, the content hash and SHA-256, path
containment, the regular expression engine's word test, the grammars' `extract`, language detection.

## Model

| member | source | states |
|---|---|---|
| KernelTheorems.EffectivelyOnceCharging | src/acp/orchestrator/loop.py:378-434 | in every reachable state the step-tagged commits are, in order, the charges of the journaled steps 0..k-1, each once; at most the newest row lacks its commit, and none does at a loop head or in a terminal state |
| KernelTheorems.ModelCallsBeyondTheJournal | src/acp/orchestrator/loop.py:274-326 | paid calls exceed journal rows by at most the number of deaths (plus the call in flight) |
| KernelTheorems.TokenOvershootBound | src/acp/orchestrator/loop.py:646-665 | spend plus journaled charges still owed is at most the budget plus the newest step's charge, and nothing stays reserved |
| KernelTheorems.RunStructure | src/acp/orchestrator/loop.py:189-217 | journal indices are exactly 0..n-1 with n within the step budget, and every loop head stands at the first unjournaled step, so no journaled call is re-issued |
| KernelTheorems.TraceIsTheJournal | src/acp/db/repositories.py:230-235 | reading the journal ordered by step gives the rows as appended |
| KernelTheorems.AppendIsFresh | src/acp/db/repositories.py:195-221 | a finished effect's append always inserts, so the ignored `created` flag cannot hide a lost row |
| KernelTheorems.SuccessComesFromTheSandbox | src/acp/orchestrator/loop.py:601-607 | VERIFIED_SUCCESS implies the last row is a VERIFY with a true verdict and that the sandbox did run and pass |
| KernelTheorems.TerminalIsFinal | src/acp/orchestrator/loop.py:157-159 | from a terminal state no event is possible: a later `run` changes nothing |
| KernelTheorems.RepairCeiling | src/acp/orchestrator/loop.py:630-644 | the repair counter equals the failed VERIFY rows at every loop head, also after resume; those rows never exceed 4 plus the deaths |
| KernelTheorems.RepairSeesTheFailure | src/acp/orchestrator/loop.py:235-263 | after a failed verification that may be repaired, the loop head right after the decision holds the recorded sandbox output as the newest span, behind the spans from before |
| KernelOutcomes.DecisionIs | src/acp/orchestrator/loop.py:219-266 | once a step is journaled: a surrender ends GAVE_UP, a positive verdict ends or goes to publishing, a failed verification ends GAVE_UP exactly when it is at least the fourth in the journal and else goes on with a span `sandbox_failure:step:` and its step holding its output, anything else goes on at the next step with the spans as they were |
| KernelOutcomes.BudgetStopsOnlyWhenSpent | src/acp/orchestrator/loop.py:646-665 | a task in BUDGET_EXHAUSTED that the clock never stopped has a full journal or a spent token budget |
| KernelOutcomes.GivesUpOnlyWithCause | src/acp/orchestrator/loop.py:219-249 | a task in GAVE_UP ended on a give_up reply, on a failed verification with more than three failed ones journaled, or in apply mode on a positive one |
| KernelOutcomes.DataChannelTellsTheJournal | src/acp/orchestrator/loop.py:185-263 | at every loop head the spans are, in order and without gaps, one per RETRIEVE row with its origin and one per failed VERIFY row with its step and output; of rows from before the last resume only the retrieved origins are left, and without a crash there are none such |
| KernelOutcomes.ResumeRecalls | src/acp/orchestrator/loop.py:701-728 | a resume stands at the first unjournaled step with as many repairs as the journal has failed verifications and exactly the origins of its RETRIEVE rows, in order; it copies the base on the first open only |
| KernelOutcomes.CountFailedIs | src/acp/orchestrator/loop.py:630-644 | the repair counter is the number of VERIFY rows without a true verdict |
| KernelOutcomes.DecimalReadsBack | src/acp/orchestrator/loop.py:251-254 | the step number in an origin is decimal digits without a leading zero that read as the number |
| KernelOutcomes.VerifiedRunsStayInside | sandbox/entrypoint.py:89-111 | in every history a sandbox run is positive if and only if each operation of its patch stays inside the work directory and is a write or a delete, and the tests pass on the patched copy |
| KernelTheorems.WrittenAtMostOnce | src/acp/orchestrator/loop.py:462-480 | each operation is recorded at most once and written at most once; every recorded but unwritten one cost a death |
| KernelTheorems.SandboxSeesTheWorktree | src/acp/orchestrator/loop.py:668-699 | at every VERIFY of every history, the reassembled patch applied to the worktree yields the worktree itself if and only if no path is stale |
| KernelTheorems.CalmHistoriesSeeTheWorktree | src/acp/orchestrator/loop.py:462-556 | when no death falls between a file write and its row and no suppressed edit differs from the worktree, nothing is ever stale and every VERIFY sees the worktree |
| KernelTheorems.PublishedTreesWereTested | src/acp/orchestrator/loop.py:766-796 | behind every publication stands a passed run on the published worktree; its tests saw that worktree if and only if nothing was stale, and then the resulting base if and only if no file of the base is missing from the worktree; success in apply mode means the task's worktree was published |
| KernelTheorems.OneReplySequenceIsAPrefix | src/acp/orchestrator/loop.py:189-217 | under one script, of two histories in different worlds one reply sequence is a prefix of the other |
| KernelTheorems.InvariantAlways | src/acp/orchestrator/loop.py:152-266 | the four invariants hold after every list of events |
| KernelFidelity.EditRowDescribesIff | src/acp/orchestrator/loop.py:462-480 | after an EDIT row the journal describes the edited path if and only if the worktree shows the edit, and every other path as before |
| KernelFidelity.RenameRowDescribesIff | src/acp/orchestrator/loop.py:524-554 | after a RENAME row the journal describes a path if and only if it did before or the row names it and it exists, because the patch reads it back |
| KernelWitness.DeliberateReEditIsLost | src/acp/orchestrator/loop.py:472-478 | without any crash, editing x, y, x ends in success with the untested y published |
| KernelWitness.RecordedButNotApplied | src/acp/orchestrator/loop.py:475-478 | a death between artifact row and write ends in success with a tree that lacks the edit |
| KernelWitness.RewrittenButNotJournaled | src/acp/orchestrator/loop.py:524-544 | a death between a rename's write and its row ends in success with an untested tree |
| KernelWitness.DeletedFileIsStillPublished | src/acp/workspace/service.py:183-191 | without any crash and with nothing stale, deleting a file ends in success over a base that keeps the file and fails the tests |
| AgentLoop.AgentLoop.Run | src/acp/orchestrator/loop.py:152-266 | ends terminal or with a raised step, performs only machine steps, terminates, leaves a terminal state untouched, and ends BUDGET_EXHAUSTED without a late clock only with a full journal or a spent budget |
| AgentLoop.AgentLoop.ChargeFromJournal | src/acp/orchestrator/loop.py:378-406 | commits every journaled step that lacks a commit, and nothing else |
| AgentLoop.AgentLoop.IssueModelCall | src/acp/orchestrator/loop.py:274-326 | one call of the model on the spans so far, the effect of the action it parses to, one row with the reply and what the effect records, one commit of the reply's tokens under the step, one metered call; nothing is journaled exactly when the reply is no action or the effect raises |
| AgentLoop.AgentLoop.BudgetBreach | src/acp/orchestrator/loop.py:646-665 | true if and only if the clock has run out, the step budget is reached or the committed spend reaches the token budget |
| AgentLoop.AgentLoop.DoRetrieve | src/acp/orchestrator/loop.py:437-460 | appends exactly one span, whose origin the row records: place and text of what was located, or the request and nothing; charges the lookup and the reading, and raises exactly when the budget does not cover them |
| AgentLoop.AgentLoop.DoEdit | src/acp/orchestrator/loop.py:462-480 | the operation of the action's fields: with a known hash nothing changes, else the hash is recorded and the file deleted or written and no other; raises exactly without a path or with a new one outside |
| AgentLoop.AgentLoop.DoRename | src/acp/orchestrator/loop.py:482-556 | exactly the affected files that are there, whose text changes and whose hash is new hold their text with the old name rewritten to the new, every other file is as before; the row lists the files whose text changes, in path order; raises exactly when one to be written lies outside |
| StepEffects.UngatedRenameRewritesAll | src/acp/orchestrator/loop.py:482-556 | when no write is gated every affected file that is there holds its text rewritten, and no other changes |
| StepEffects.RenameReachesEverySite | src/acp/orchestrator/loop.py:835-846 | with the whole-identifier substitution and nothing gated, no affected file keeps the old name as a token, its tokens are those from before with the name replaced, and the row lists exactly the files that had it |
| StepEffects.StepCosts | src/acp/orchestrator/loop.py:274-326 | a step costs its retrieval and its reply's tokens |
| AgentLoop.AgentLoop.DoVerify | src/acp/orchestrator/loop.py:558-599 | the verdict is positive exactly when every operation of the reassembled patch stays inside and is a write or a delete and the tests pass on the patched copy; the row keeps it with the output |
| AgentLoop.AgentLoop.CommitIfApply | src/acp/orchestrator/loop.py:766-796 | conflicts, and so ends in GAVE_UP, if and only if the lock stays taken or the head is not the handle's; otherwise overlays the worktree on the base found |
| Ledger.SpendIsWhatWasGranted | src/acp/db/repositories.py:286-344 | for every interleaving of charges on any scopes, the spend of a scope is the sum of its granted costs, within its budget, with no reservation left |
| Ledger.ServedLedgerOnlyGrows | src/acp/db/repositories.py:286-344 | a refused charge leaves the ledger identical; a granted one keeps every earlier row |
| Ledger.UniformPriceGrantsExactly | src/acp/db/repositories.py:286-344 | with one positive price exactly min(calls, budget / price) calls are granted |
| Ledger.ChargeMovesOnlyItsScope | src/acp/db/repositories.py:268-284 | a charge moves no balance of another scope |
| Ledger.LedgerRepo.ChargeAtomic | src/acp/db/repositories.py:286-344 | grants exactly when the cost fits what is neither spent nor reserved, and appends the three rows |
| Journal.JournalRepo.Append | src/acp/db/repositories.py:195-221 | an existing row for the step wins and is returned |
| Journal.DenseLookups | src/acp/orchestrator/loop.py:726-728 | on a dense journal the next step is its length and each lookup finds its row |
| Journal.CountRepairAttempts | src/acp/orchestrator/loop.py:630-644 | counts the VERIFY rows without a true verdict |
| Journal.BuildCombinedPatch | src/acp/orchestrator/loop.py:668-699 | concatenates the journaled edits and the renamed files as they are now |
| Journal.CombinedPatchIsLocal | src/acp/orchestrator/loop.py:668-699 | what the patch finally does to a path depends on the tree at that path only |
| Patches.PatchIsIdentityIff | sandbox/entrypoint.py:90-111 | applying a patch gives the same tree back if and only if the last operation on every touched path already holds |
| Patches.SandboxWork.ApplyPatch | sandbox/entrypoint.py:70-111 | succeeds if and only if every operation stays inside the work directory and is a write or a delete; the operations before the first that is not stay applied, and nothing else |
| Patches.ApplyAllAt | sandbox/entrypoint.py:90-111 | only the last operation on a path counts |
| Rename.RenameIsMapOverRuns | src/acp/orchestrator/loop.py:835-846 | the boundary-anchored left-to-right substitution equals replacing exactly the maximal word runs equal to the old name |
| Rename.RunsOfRenamed | src/acp/orchestrator/loop.py:835-846 | the renamed text splits into the same runs with the name replaced: nothing is glued or split |
| Rename.RenameIsCompleteAndIdempotent | src/acp/orchestrator/loop.py:482-504 | no standalone old name is left and renaming again changes nothing |
| Rename.RenameBackIff | src/acp/orchestrator/loop.py:835-846 | renaming back restores the text if and only if the new name was not a token of it |
| Workspace.ProtocolAlways | src/acp/workspace/service.py:150-203 | lock discipline, commit log, commit chain and naming by ids hold after every list of events |
| Workspace.HeadNamesTheBase | src/acp/workspace/service.py:162-203 | whenever the lock is free and the last commit was not cut short, the head is the snapshot id of the base |
| Workspace.StaleHeadFollowsATornCommit | src/acp/workspace/service.py:170-191 | a base check meets a head that does not name the base only right behind a commit that was cut short |
| Workspace.FirstOpenHandlesAreSafe | src/acp/workspace/service.py:162-203 | a commit under a first-open handle that holds overlays the tree its worktree was copied from, changes only what its runner wrote, and leaves its worktree if and only if no file of the first copy was deleted |
| Workspace.AcceptedCommitIsSafeIff | src/acp/workspace/service.py:162-203 | every accepted commit of every history loses no update if and only if what it copied unchanged is still current in the base it found; that base is the one its handle was handed out for whenever the handle holds |
| Workspace.OnlyTheLastOfOneHeadChanges | src/acp/workspace/service.py:162-203 | of consecutive commits with handles handed out for one tree only the last can change it |
| Workspace.LastWriterWinsIff | src/acp/workspace/service.py:162-203 | at every point of a history each path of the base shows the last commit that wrote it, or the first tree, if and only if no commit clobbers |
| Workspace.LastWriterOfFirstOpens | src/acp/workspace/service.py:162-203 | so it does when every commit is made under a first-open handle that holds |
| Patches.OverlayPublishesIff | src/acp/workspace/service.py:183-191 | the overlay equals the worktree if and only if no file of the base is missing from the worktree |
| Workspace.RecommitCompletes | src/acp/workspace/service.py:162-203 | after a commit cut short anywhere, with no commit between, committing again leaves what the first was to leave and a head that names it; a finished commit is repeated without any change |
| WorkspaceWitness.ReopenedHandleClobbers | src/acp/workspace/service.py:109-119 | a re-opened handle passes the base check and undoes another update |
| WorkspaceWitness.ForeignClaimClobbers | src/acp/workspace/service.py:121-203 | so does a claimed base commit that is not the handle |
| WorkspaceWitness.TornCommitClobbers | src/acp/workspace/service.py:183-191 | so does a first-open handle after a death between overlay and head advance |
| WorkspaceWitness.RacedOpenClobbers | src/acp/workspace/service.py:106-119 | so does a first open between overlay and head advance, once the old tree is restored |
| WorkspaceService.Service.OpenWorktree | src/acp/workspace/service.py:88-119 | copies the base on first open only and hands out the current head |
| WorkspaceService.Service.CommitWorktree | src/acp/workspace/service.py:121-203 | for any base commit: after the other runners' steps, performs the steps of an accepted or a refused commit, or none on a timeout or a missing worktree |
| WorkspaceService.Service.CheckAndOverlay | src/acp/workspace/service.py:162-203 | accepted exactly when the head is the claimed commit; copies every file over the base and advances the head, or changes nothing |
| WorkspaceIds.NoLostUpdate | src/acp/workspace/service.py:121-203 | the no-lost-update result per commit with the real ids, resting on SHA-256 not colliding on the inputs of two trees |
| Platform.SuccessStandsOnACommit | src/acp/orchestrator/loop.py:766-796 | with the kernel and the workspace stepping together among any other tasks, a success in apply mode stands on one complete commit of its worktree over the published base; without a crash and where the handle holds, that base is the tree the worktree was opened from and nobody's update is lost |
| Platform.KernelIsNotHeldUp | src/acp/orchestrator/loop.py:152-266 | the workspace holds up no kernel step that sees it as it is, and no death |
| Snapshot.StreamIsUniquelyDecodable | src/acp/workspace/service.py:305-313 | the stream of path, NUL and 32-byte digest determines the file list |
| Snapshot.EqualIdsMeanEqualTrees | src/acp/workspace/service.py:305-313 | trees with one id are equal or exhibit a SHA-256 collision among their own inputs |
| Snapshot.TakeSnapshot | src/acp/workspace/service.py:305-313 | the hashing loop feeds exactly that stream |
| Snapshot.PathsAreInComponentOrder | src/acp/workspace/service.py:309 | every file is fed once, in the order of the components of the paths |
| PromptTheorems.DataChannelIsRead | src/acp/model_gateway/prompt.py:117-135 | whatever the spans contain, the data channel is refused or parses to one `data` element with exactly one child per span, in order, each with its own origin and content in normal form |
| PromptTheorems.DataChannelIsExactIff | src/acp/model_gateway/prompt.py:117-135 | the span list decodes exactly if and only if contents are legal without carriage returns and origins also without tabs and line ends |
| PromptTheorems.InstructionIsRead | src/acp/model_gateway/prompt.py:125 | the instruction arrives as the text of one element, independent of the spans |
| PromptTheorems.RenderedActionIsRead | src/acp/model_gateway/prompt.py:168-226 | the whole answer to a rendered action with fields of its kind: not XML when a value has an illegal character, otherwise every value with its line endings normalized |
| PromptTheorems.ActionRoundTripIff | src/acp/model_gateway/prompt.py:168-226 | parsing a rendered action gives it back if and only if its fields are allowed for its kind and its values are legal without carriage returns |
| PromptTheorems.AcceptedIsSendable | src/acp/model_gateway/prompt.py:194-226 | an action accepted from any reply names only its kind's fields and carries only legal characters; it is sendable if and only if no value has a carriage return, and always when the reply has no character reference |
| PromptRules.AcceptedIff | src/acp/model_gateway/prompt.py:194-226 | a reply is a given action if and only if it reads as an `action` element with the wire name of its kind, with `field` children only, all names on the kind's allowlist, whose last occurrences are its fields |
| PromptRules.RefusedBecause | src/acp/model_gateway/prompt.py:203-225 | a refused reply is refused for the first of the six causes that holds |
| PromptRules.FieldIsAcceptedIff | src/acp/model_gateway/prompt.py:184-191 | some reply delivers a field with a verb if and only if the pair is on the allowlist |
| PromptTheorems.CanonicalReplyMeansTheSame | src/acp/model_gateway/prompt.py:168-226 | re-rendering an accepted reply keeps its meaning if and only if no value has a carriage return |
| PromptReferences.AcceptableIff | src/acp/model_gateway/prompt.py:194-226 | some reply is accepted as an action if and only if its fields are allowed for its kind and its values are legal |
| PromptReferences.ReferencedReplyIsRead | src/acp/model_gateway/prompt.py:194-226 | a reply that spells carriage returns as character references delivers every legal value as it is, its fields in any order |
| PromptReferences.ReturnDoesNotSurvive | src/acp/model_gateway/prompt.py:168-226 | one accepted reply with `&#13;` whose value changes when it is rendered and read again |
| Prompt.BuildChannels | src/acp/model_gateway/prompt.py:117-135 | the part-collecting loop yields the two channel texts |
| Prompt.ParseAction | src/acp/model_gateway/prompt.py:194-226 | the checks and the field-collecting loop decide as the specification does, error by error |
| XmlDocuments.FlatDocumentIsRead | src/acp/model_gateway/prompt.py:159-179 | a printed two-level document is refused or read back with exactly the printed shape, for any texts and attribute values |
| XmlPrint.EscapeIsPerCharacter | src/acp/model_gateway/prompt.py:131-132 | the sequential replacements equal one character-by-character map |
| XmlPrint.TextRoundTrip | src/acp/model_gateway/prompt.py:168-179 | escaped text decodes to itself |
| XmlNormal.LinesOfSpelled | src/acp/model_gateway/prompt.py:155-159 | end-of-line handling of a document acts inside its texts and values only |
| XmlLegal.ParsedIsLegal | src/acp/model_gateway/prompt.py:194-206 | every document that is read delivers legal characters only; one without character references delivers no carriage return and no line structure in an attribute |
| StubTheorems.ReplyIsTheScript | src/acp/model_gateway/stub.py:105-129 | the stub's reply parses to the scripted action and depends on the data channel in its input token count only |
| StubTheorems.TrajectoryIsSendable | src/acp/model_gateway/stub.py:132-207 | every scripted action is within the grammar, for every instruction and step |
| StubTheorems.JournalFollowsTheScript | src/acp/model_gateway/stub.py:132-207 | in every reachable state the action journaled at index i is the scripted action of the instruction at i |
| StubScripts.HintsAre | src/acp/model_gateway/stub.py:45-59 | the stub reads the leftmost whole identifier behind each key, `serialize_user` when no target is named, and the flag only as a word of its own |
| StubScripts.JournalFollowsTheInstruction | src/acp/model_gateway/stub.py:132-207 | in every reachable state each journaled action is the one that the trajectory of the instruction has at its step: rename, test, or test with a failing first write |
| StubScripts.ReplyIsMetered | src/acp/model_gateway/stub.py:225-232 | the metered tokens are one more than the quarters, rounded up, of the UTF-8 lengths of both channels and of the reply |
| StubTheorems.OneActionSequenceIsAPrefix | src/acp/model_gateway/stub.py:105-207 | of two runs of one instruction, whatever the retrieved bytes, verdicts, budgets and crashes, one action sequence is a prefix of the other |
| Sentinel.RoundTripIff | src/acp/sandbox_client/docker_runner.py:320-330 | behind any noise the framed text is extracted unchanged if and only if it is stripped and contains neither marker |
| Sentinel.ExtractYields | src/acp/sandbox_client/docker_runner.py:320-330 | what is extracted in every case |
| Sentinel.LastMarkerOccurs | src/acp/sandbox_client/docker_runner.py:323-325 | the last BEGIN of a frame is its own or the last one inside the body; no marker straddles a line break |
| Sentinel.LastBehindNoise | src/acp/sandbox_client/docker_runner.py:323-325 | noise in front of a frame does not move its last marker |
| Sentinel.Stdout.Emit | sandbox/entrypoint.py:63-67 | appends exactly one frame |
| Limiter.DequeIsASuffix | src/acp/gateway/auth.py:56-70 | for calls in any order the deque is a suffix of the key's admissions, and what is gone from it was too old for some call |
| Limiter.AdmissionsAreSpacedOut | src/acp/gateway/auth.py:56-70 | any limit + 1 consecutive admissions of a key span at least the window less the skew of its calls |
| Limiter.WindowBound | src/acp/gateway/auth.py:56-70 | every half-open window of the configured length less the skew holds at most `limit` admissions of a key, however the keys interleave |
| Limiter.LateCallsOverfill | src/acp/gateway/auth.py:56-70 | for every limit above one and every skew below the window there are calls that the limiter admits, one of them against the reference, and that overfill every longer window |
| Limiter.OneNeedsNoOrder | src/acp/gateway/auth.py:56-70 | a limit of one keeps to windows of the full configured length, in any order of calls |
| Limiter.BoundIsTightIff | src/acp/gateway/auth.py:56-70 | the bound with the skew is the best possible if and only if the limit is above one or there is no skew |
| Limiter.DequeIsRemembered | src/acp/gateway/auth.py:56-70 | when a key's calls are in time order its deque holds exactly the admissions newer than the last cutoff, in order |
| Limiter.DecidesAsTheReference | src/acp/gateway/auth.py:56-70 | when a key's calls are in time order, every decision equals that of a reference that never forgets an admission |
| Limiter.SlidingWindowLimiter.Check | src/acp/gateway/auth.py:56-70 | pops what is too old, then admits and records, or rejects and records nothing |
| Sorting.SortsAlikeIff | src/acp/index/model.py:98-106 | two lists sort alike if and only if for every key they hold the same items in the same order |
| Sorting.SortIsIdempotent | src/acp/index/model.py:98-106 | sorting a sorted list changes nothing |
| Sorting.PermutationsSortAlike | src/acp/index/model.py:45-78 | with distinct keys, permutations sort to one list |
| IndexModel.SerializeAlikeIff | src/acp/index/model.py:177-186 | two indexes serialize alike if and only if they hold the same files with the same scalars and lists that agree key by key |
| IndexModel.PermutedListsSerializeAlike | src/acp/index/model.py:92-107 | with distinct sort keys the order of a file's lists does not show |
| IndexModel.EqualKeysKeepTheirOrder | src/acp/index/model.py:45-46 | without distinct keys it does: two different symbols with one key keep their order |
| IndexModel.ListedByPosition | src/acp/index/model.py:45-107 | the canonical lists are in order of line, column, name and kind; imports in order of line, text and target, an unresolved one as empty |
| IndexModel.CanonicalHoldsTheSame | src/acp/index/model.py:89-107 | the canonical form holds what the partition held, with every multiplicity |
| IndexModel.SerializedInPathOrder | src/acp/index/model.py:177-186 | the payload lists every file once, in ascending path order |
| IndexModel.SerializeRoundTrip | src/acp/index/model.py:193-200 | loading a serialized index and serializing it again gives the same payload |
| IndexBuilder.EditsKeepUp | src/acp/index/builder.py:104-119 | for every sequence of content edits of indexed files, incremental maintenance equals a full rebuild |
| IndexBuilder.AddedFileIff | src/acp/index/builder.py:104-119 | indexing only an added file equals a rebuild if and only if no other file's import resolves to it |
| IndexBuilder.RemovedFileIff | src/acp/index/builder.py:112-117 | dropping only a removed file's partition equals a rebuild if and only if no other file imports it |
| IndexBuilder.IgnoredFileIsIndexed | src/acp/index/builder.py:104-119 | the update indexes a file in an ignored directory that discovery would skip |
| IndexBuilder.Builder.Build | src/acp/index/builder.py:52-101 | one parse per discovered file, and a partition for exactly the files of a known language outside the ignored directories: path, language, hash, what was extracted, and one edge per import with its text, line and resolution among those files |
| IndexBuilder.BuiltIff | src/acp/index/builder.py:52-101 | those partitions determine the index: whatever shows the tree so is the build |
| IndexBuilder.Builder.ReindexFile | src/acp/index/builder.py:104-119 | replaces exactly one partition by what the file shows now, or drops it when the file is gone, with at most one parse; fails exactly on a file of no known language |
| ImportResolution.ResolveGrows | src/acp/index/builder.py:125-188 | one more known path changes a resolution only to that path |
| ImportResolution.ResolvedIsKnown | src/acp/index/builder.py:133-168 | a resolution is always a known path |
| ImportResolution.ResolveTypeScriptImport | src/acp/index/builder.py:171-188 | the component loop computes the candidate stem |
| ImportRules.RelativePythonImport | src/acp/index/builder.py:147-158 | n dots and a dotted rest mean the first known of module and package under the importer's directory with its last n - 1 components removed; nothing when there are not that many, or neither is known |
| ImportRules.AbsolutePythonImport | src/acp/index/builder.py:160-168 | an absolute import means the least known path that is the module or the package under any directory, and nothing exactly when there is none |
| ImportRules.EveryPythonImportIsWritten | src/acp/index/builder.py:147-168 | every Python import is of one of these two forms |
| ImportRules.RelativeTypeScriptImport | src/acp/index/builder.py:171-188 | dots and double dots and then a name mean the first known of the five readings of the importer's directory with one component removed per double dot, followed by the name |
| ImportRules.NowhereChangesNothing | src/acp/index/builder.py:176-182 | an empty component, a dot, or a name taken back changes no resolution, which brings every relative import into that form |
| ImportRules.SplitOfWritten | src/acp/index/builder.py:150-161 | splitting a joined list of components gives them back |
| Walk.WalkTree | src/acp/index/languages.py:65-72 | the explicit stack yields exactly the recursive preorder |
| Walk.PreorderVisitsAll | src/acp/index/languages.py:65-72 | the walk goes through every position of the tree, each once and in document order, and yields the node there |

## Left out

- Terminal reasons, timestamps, progress events and the byte, second and token counters of the metering row: only
  the number of metered steps is kept, nothing depends on the rest.
- Wall-clock budget: the clock's answer is an arbitrary flag of the stop at the loop head.
- Two runners on one id at once: the loop ignores the `created` flag of the journal append, so one runner per id is
  assumed.
- Exact content of data spans after a resume: they come back as origins only, as in the code.
- JSON envelopes and malformed patch operations: journal payloads and patches are values; a payload that does not
  parse is not modelled.
- SQLite and the file system: tables are sequences, trees are maps from normalized paths to texts; symlinks, file
  and directory clashes and the copy-ignore patterns are not modelled.
- The base at first open and the set of files a rename touches are arbitrary inputs; the kernel treats publishing as one
  step. Its parts are modelled in `Workspace.dfy`, where a death between them is a commit cut short, and
  `Platform.dfy` ties the step to them.
- `create_workspace` and `update_file` on the shared workspace: operator actions outside the commit protocol; the
  head is always set.
- KernelTheorems.WrittenAtMostOnce: says at most once, not exactly once, because a death between the artifact row
  and the write leaves the operation unwritten for good.
- WorkspaceService.Service.CommitWorktree: other runners act between polls of the lock; between its own check, copies
  and head advance only the machine interleaves them.
- Rename.RenameTokens: the replacement text is inserted literally; `re.sub` would interpret backslashes in it, which
  identifier names do not contain.
- Xml.ParseXml: comments, CDATA sections, processing instructions, document types, namespace declarations, prefixed
  names and names outside ASCII are not read; such a reply counts as not well-formed, and what is said of accepted
  replies is said of the others.
- Prompt.RenderAction: fields are printed in key order by code point; `render_prompt` is plain concatenation and not
  modelled.
- Sentinel.Extract: yields the stripped text; decoding it as JSON is not modelled.
- Limiter.SlidingWindowLimiter.Check: times are exact reals; each call carries the time it read before the lock, and
  the calls are in the order of the lock.
- IndexModel.Serialized: the payload is a list of canonical partitions; its JSON text is not modelled.
- IndexBuilder.Built: extraction by the grammars is a function of path and content.
- HTTP routes, dashboard, command line, container isolation, secret redaction, key hashing and the other language
  runners: no invariant of this kernel, or a repetition of the patch semantics above.
