# Verified models of the desktop application's native core

A Dafny project about the native (Rust) side of the application: the commit explanation controller with its isolated
executor, and seven smaller cores around it. Each core is modelled with the branches, limits and error cases of the source,
and what the core is for is proved over all inputs, all runs or all interleavings. `dafny verify dfyconfig.toml` checks
everything.

## How the models are built

* **A protocol** (`commit_explanation.rs`, `rpc.rs`, the quit state machine) is a transition system: one event per locked
  section or per wait that ends, so that a run is one interleaving. Its invariants hold in every reachable state.
* **An object that is updated in place** is a class whose methods are its locked sections or calls. Each method is proved to
  have exactly the effect of the function (or event) that the protocol proofs speak about, so a change to a method body
  breaks its contract. What the functions mean is stated apart from them, in laws over reachable states that write out every
  condition, status and code, so a change to method and function together breaks a law.
* **Foreign code** (model runtime, audit store, readiness verdict, JSON decoding, SHA-256, file operations, clocks) is an
  oracle: a parameter, or a function that may answer anything.

| file | what it holds |
|---|---|
| `Prelude.dfy` | options, results, small sequence facts |
| `ExplanationModel.dfy`, `ExplanationSystem.dfy` | the controller's locked sections as functions, and the system of data, workers and one request in flight |
| `ExplanationInvariant.dfy`, `ExplanationRuns.dfy` | the invariant and its preservation by every section and every event |
| `ExplanationSafety.dfy`, `ExplanationRebind.dfy`, `ExplanationAccounting.dfy` | lifecycle, wakeups, scope, shutdown; latest rebind wins; token totals and cache contents |
| `ExplanationDecisions.dfy`, `ExplanationOutcomes.dfy` | what every step of a run does, case by case with statuses and codes: requests; cancel, shutdown, scope, pop and finish, and how long a cancel lasts |
| `ExplanationController.dfy` | the controller as a class |
| `SupportExecutor.dfy`, `SupportOwnership.dfy`, `SupportPhases.dfy`, `SupportTables.dfy` | isolated executions, who owns them and for how long, what their phases say, and the guarded map as a class |
| `ExplanationShutdown.dfy` | controller and executor side by side: what a successful shutdown leaves behind |
| `CanonicalJson.dfy`, `CanonicalText.dfy`, `SchemaFingerprint.dfy` | canonical JSON, its decoder, and the text that schema fingerprints hash |
| `CharacterStorage.dfy` | pack publish, replace and delete under injected faults |
| `JsonlFramer.dfy` | incremental framing against a one-shot splitter |
| `RpcProtocol.dfy`, `RpcCorrelation.dfy`, `RpcErrors.dfy`, `RpcConnection.dfy` | request/response correlation, what errors mean, and the shared tables as a class |
| `DecisionHandles.dfy`, `DecisionLedger.dfy`, `DecisionRuns.dfy`, `DecisionLaws.dfy` | decision handles and options, the ledger, its runs, and where a claim comes from |
| `ShellTokens.dfy`, `CommitClassifier.dfy`, `CommitShapes.dfy` | the quoting automaton, the git-commit recogniser, and the grammar it recognises |
| `Attachments.dfy`, `AttachmentRuns.dfy`, `AttachmentLaws.dfy` | attachment registration, resolution and consumption, their runs, and what each step answers |
| `AppLifecycle.dfy`, `AppLifecycleRuns.dfy`, `AppLifecycleLaws.dfy` | quitting, retries, the shutdown plan, and which cleanups an attempt runs |

## What turned out different from what one would expect

* **A response can complete after the reader exited.** The answer may already lie in the request's channel.
  `RpcCorrelation.OkAfterExitHappens` is such a run; `RpcCorrelation.OkAfterExitExactlyWhenDelivered` gives the exact
  condition. Readers that return early (protocol violations) leave their pending requests to time out.
* **Where a stream is cut matters for one kind of line.** A line that fits the limit only without its CR is accepted in one
  piece and refused when the cut falls between CR and newline (`JsonlFramer.CutBeforeNewlineCanRefuse`);
  `JsonlFramer.PushesSucceedExactlyWhen` is the exact condition.
* **A failing directory sync can leave the new pack in the library** although the call reports an error:
  `CharacterStorage.PublishSyncLeavesPack` and `CharacterStorage.UndoSyncLeavesPack` are such calls, and
  `CharacterStorage.Storage.PublishAndReplaceCustom` states exactly when it happens. As long as undoing works, any other error
  leaves library and state as they were.
* **Claim tokens repeat every 2^64 - 1 claims** (`DecisionRuns.TokensRepeatExactlyWhen`), and a claim can then settle a second
  time (`DecisionRuns.ClaimsSettleTwiceAfterWrapping`), so the exactly-once results are stated for fewer than 2^64 claims.

## Model

| member | source | states |
|---|---|---|
| ExplanationSafety.LifecycleAgrees | src-tauri/src/codex/commit_explanation.rs:1107-1157 | in every reachable state a Queued key has a queued task with that request, a Running key is the active task, `presentation_available` holds exactly when Generated, and a Generated key is cached under the same request |
| ExplanationSafety.OneRunning | src-tauri/src/codex/commit_explanation.rs:1547-1640 | at most one key is Running |
| ExplanationSafety.RequestFindsItsState | src-tauri/src/codex/commit_explanation.rs:1107-1157 | neither locked part of `request` can reach the STATE-MISSING error |
| ExplanationSafety.GeneratedCanBePresented | src-tauri/src/codex/commit_explanation.rs:1338-1367 | `present` finds an entry for the request id a Generated state shows |
| ExplanationSafety.SingleFlight | src-tauri/src/codex/commit_explanation.rs:1180-1216 | work implies a running worker, there is at most one worker, the active slot is empty at every pop, and outstanding work is at most `queue_limit + 1` |
| ExplanationSafety.FinishOwnsItsTask | src-tauri/src/codex/commit_explanation.rs:1619-1667 | a finishing worker finds its own task still in the active slot, under the executor's request id |
| ExplanationSafety.GenerationsNeverDecrease | src-tauri/src/codex/commit_explanation.rs:1039-1081 | recorded generations per workspace never decrease along a run |
| ExplanationSafety.ScopeIsRecorded | src-tauri/src/codex/commit_explanation.rs:1412-1433 | the active scope's generation is the recorded one of its workspace |
| ExplanationSafety.AdmittedTaskMatchesScope | src-tauri/src/codex/commit_explanation.rs:1039-1105 | every task enters the queue in agreement with the active scope, even if the scope changed while `request` had released the lock |
| ExplanationSafety.ShutdownIsFinal | src-tauri/src/codex/commit_explanation.rs:1435-1449 | after `begin_shutdown` the queue stays empty, an empty active slot stays empty and a stopped controller stays stopped |
| ExplanationSafety.NothingStartsAfterShutdown | src-tauri/src/codex/commit_explanation.rs:1547-1554 | a worker that pops after `begin_shutdown` starts nothing and is gone |
| ExplanationRuns.StepKeepsInvariant | src-tauri/src/codex/commit_explanation.rs:1002-1721 | every critical section of every actor keeps the invariant of data, workers and in-flight request |
| ExplanationRuns.RunKeepsInvariant | src-tauri/src/codex/commit_explanation.rs:1002-1721 | so does every interleaving |
| ExplanationInvariant.InsertCacheKeeps | src-tauri/src/codex/commit_explanation.rs:1761-1783 | insertion keeps the order list a duplicate-free listing of the cache within the limit and never evicts the key just inserted |
| ExplanationRebind.StepTracks | src-tauri/src/codex/commit_explanation.rs:1107-1157 | an undisturbed step keeps a key to one task whose state it is, and an accepted request supersedes the one before |
| ExplanationRebind.StateCarriesLatest | src-tauri/src/codex/commit_explanation.rs:1806-1822 | while a key has an undisturbed task its state carries the last accepted request, never with a lower version or a downgraded trigger |
| ExplanationRebind.LatestRebindWins | src-tauri/src/codex/commit_explanation.rs:1589-1667 | the final Generated state and cache entry carry the last accepted request although the executor ran under the first one's id |
| ExplanationAccounting.AddUsageIsExact | src-tauri/src/codex/commit_explanation.rs:1986-2002 | adding one result keeps total = input + output within the maximum and adds exactly what fits, input before output, and the latency up to the maximum |
| ExplanationAccounting.TokenTotalIsExact | src-tauri/src/codex/commit_explanation.rs:1888-2002 | over any run the total is the initial total plus all reported tokens, clipped once |
| ExplanationAccounting.OrderListsCache | src-tauri/src/codex/commit_explanation.rs:1697-1783 | in every reachable state `cache_order` lists exactly the cached keys, each once, within the limit |
| ExplanationAccounting.RecencyIsOrdered | src-tauri/src/codex/commit_explanation.rs:1761-1783 | the reference order lists keys by when they were last generated |
| ExplanationAccounting.TruncationCommutes | src-tauri/src/codex/commit_explanation.rs:1770-1782 | evicting at every insertion equals truncating the full recency order once |
| ExplanationAccounting.CacheHoldsTheMostRecent | src-tauri/src/codex/commit_explanation.rs:1697-1783 | in runs whose outcomes are saved the cache holds exactly the `min(limit, n)` most recently generated of the n distinct keys |
| ExplanationDecisions.RequestsAreDecided | src-tauri/src/codex/commit_explanation.rs:979-1218 | what every request section of a run answers and does, case by case with the codes: blocked by the audit, the gate, a shutdown, an older generation or another scope; shown the older state when outranked; repointed while live; relabelled when over and no retry; RETRY-STATE for a retry of nothing; queued; or QUEUE-FULL |
| ExplanationDecisions.AdmittedExactlyWhen | src-tauri/src/codex/commit_explanation.rs:1158-1218 | a request section appends its task exactly when the checks passed, shutdown has not begun, the scope agrees, there is room, and it is a first request that is no retry or a user's retry of a Failed, Unavailable or Canceled task of no lower version; the key is then Queued and one worker runs |
| ExplanationDecisions.RequestsSettle | src-tauri/src/codex/commit_explanation.rs:1039-1105 | which generation and which scope a request leaves recorded |
| ExplanationOutcomes.CancelsAreDecided | src-tauri/src/codex/commit_explanation.rs:1259-1336 | a cancel makes the active task it names, or else the first such queued one, Canceled and retryable with the code CANCELED; the slot is flagged or the queue loses exactly that task; an active task's state is never missing; nothing else changes, and nothing at all when no task is named |
| ExplanationOutcomes.CancelOutlivesTheExecutor | src-tauri/src/codex/commit_explanation.rs:1298-1640 | from a cancel of the running task until its worker finishes, without a request for its key, the key stays Canceled, cached results and tokens stay, and the outcome only empties the slot |
| ExplanationOutcomes.CanceledQueuedStays | src-tauri/src/codex/commit_explanation.rs:1282-1304 | a canceled queued task stays Canceled over any run until its key is requested again |
| ExplanationOutcomes.ShutdownCancels | src-tauri/src/codex/commit_explanation.rs:1435-1497 | `begin_shutdown` makes every queued or active key that has a state Canceled with the code SHUTDOWN, leaves the others, flags the slot and counts the drained entries that have a state |
| ExplanationOutcomes.DrainedStay | src-tauri/src/codex/commit_explanation.rs:1435-1640 | drained keys stay Canceled, whatever the executor still answers, until their key is requested again |
| ExplanationOutcomes.WorkersAndScopesAreDecided | src-tauri/src/codex/commit_explanation.rs:1412-1713 | what every pop, scope change and finish of a run does: which runtime error ends a task Failed, Unavailable or Canceled, with which code and counter; a result of another request is RESULT-STALE; an unsaved outcome leaves no cache entry; other keys keep their states unless evicted |
| ExplanationController.Controller.constructor | src-tauri/src/codex/commit_explanation.rs:903-939 | a fresh controller satisfies the invariant; a cache limit of zero becomes one |
| ExplanationController.Controller.BeginRequest | src-tauri/src/codex/commit_explanation.rs:1002-1059 | first section of `request`, in place; never STATE-MISSING |
| ExplanationController.Controller.ResumeRequest | src-tauri/src/codex/commit_explanation.rs:1061-1218 | second section after the lock was retaken, in place |
| ExplanationController.Controller.Admit | src-tauri/src/codex/commit_explanation.rs:1061-1218 | scope check, reuse, rebind or enqueue, in place |
| ExplanationController.Controller.Rebind | src-tauri/src/codex/commit_explanation.rs:1107-1157 | repoints the first queued task, the active task or the cache entry, found by a loop |
| ExplanationController.Controller.Block | src-tauri/src/codex/commit_explanation.rs:979-1000 | a blocked request overwrites the key's state and is counted |
| ExplanationController.Controller.Cancel | src-tauri/src/codex/commit_explanation.rs:1259-1336 | cancels the active or the first named queued task, in place; when none is named, changes nothing and shows a state of that request id if there is one |
| ExplanationController.Controller.SetScope | src-tauri/src/codex/commit_explanation.rs:1412-1433 | refuses older generations, otherwise records generation and scope |
| ExplanationController.Controller.BeginShutdown | src-tauri/src/codex/commit_explanation.rs:1435-1497 | drains the queue, marks every drained and the active state, counts them |
| ExplanationController.Controller.PopTask | src-tauri/src/codex/commit_explanation.rs:1547-1618 | takes the head of the queue into the active slot, or ends the worker |
| ExplanationController.Controller.FinishTask | src-tauri/src/codex/commit_explanation.rs:1619-1713 | records an outcome under the request the task was last rebound to; takes it back if it could not be saved |
| ExplanationController.Controller.InsertCache | src-tauri/src/codex/commit_explanation.rs:1761-1783 | insertion with the evicting loop equals inserting and dropping the surplus |
| ExplanationController.Controller.Present | src-tauri/src/codex/commit_explanation.rs:1338-1367 | the entry found is one of that workspace, generation, evidence and request id; none is found only if there is none |
| SupportOwnership.StepKeeps | src-tauri/src/codex/commit_explanation.rs:620-783 | every step of callers, tasks and cleaners keeps the ownership invariant |
| SupportOwnership.RegistrationFindsItsEntry | src-tauri/src/codex/commit_explanation.rs:580-595 | the `!registered` branch of `run_owned` is dead |
| SupportOwnership.UnfinishedIsOwned | src-tauri/src/codex/commit_explanation.rs:713-783 | an execution is in the map for as long as its task has not finished |
| SupportOwnership.RemovalNeedsEvidence | src-tauri/src/codex/commit_explanation.rs:636-687 | an entry leaves the map only after its task finished and some cleanup of it reported convergence |
| SupportOwnership.EntryNeedsOpenLatch | src-tauri/src/codex/commit_explanation.rs:725-740 | an entry appears once, when its caller takes the lock, and only with the latch down |
| SupportOwnership.ReleasedIsFinal | src-tauri/src/codex/commit_explanation.rs:620-634 | with the latch up an empty map stays empty |
| SupportOwnership.SuccessfulShutdownIsFinal | src-tauri/src/codex/commit_explanation.rs:620-687 | once `stop_executions` answers true nothing is owned, then and in every later state |
| SupportPhases.PhaseFollowsTask | src-tauri/src/codex/commit_explanation.rs:580-767 | the phase of an owned execution is the one its task has brought it to: Constructing, Running, then Unconverged exactly when a cleanup is pending, else Terminal |
| SupportPhases.ReturnedAndConvergedIsReleased | src-tauri/src/codex/commit_explanation.rs:773-783 | when `execute` has returned and its cleanup converged, the execution is owned no more |
| SupportPhases.CleanersDecide | src-tauri/src/codex/commit_explanation.rs:625-687 | how a cleaner decides on convergence, removes the entry and answers |
| SupportPhases.CancelKeepsOtherRequests | src-tauri/src/codex/commit_explanation.rs:787-801 | a cancel never takes away an execution of another request |
| SupportTables.Tables.Enter | src-tauri/src/codex/commit_explanation.rs:721-741 | the latch is read under the lock that guards the insertion |
| SupportTables.Tables.Register | src-tauri/src/codex/commit_explanation.rs:580-595 | marks the entry Running if it is there |
| SupportTables.Tables.Publish | src-tauri/src/codex/commit_explanation.rs:752-759 | records whether a cleanup is pending |
| SupportTables.Tables.Return | src-tauri/src/codex/commit_explanation.rs:773-783 | gives up a converged execution only |
| SupportTables.Tables.TakeSnapshot | src-tauri/src/codex/commit_explanation.rs:625-634 | lists exactly the selected entries, each once |
| SupportTables.Tables.Remove | src-tauri/src/codex/commit_explanation.rs:675-684 | removes an entry only when the cleaner decided on convergence |
| ExplanationShutdown.ConvergedIsFinal | src-tauri/src/codex/commit_explanation.rs:1499-1529 | when `shutdown_converged` returns true nothing is queued, active, running or owned, then and in every later state of controller and executor |
| ExplanationShutdown.WorkerGoneMeansStopped | src-tauri/src/codex/commit_explanation.rs:1517-1528 | after `begin_shutdown` the controller half of the verdict says exactly that no worker runs |
| CanonicalJson.EquivalentHaveSameCanon | src-tauri/src/codex/binary.rs:733-735 | sorting members by key at every depth identifies values that differ only in member order |
| CanonicalJson.SameCanonAreEquivalent | src-tauri/src/codex/binary.rs:733-735 | and no others |
| CanonicalJson.BeforeExactlyWhen | src-tauri/src/codex/binary.rs:733-735 | the key order is lexicographic: a proper prefix, or smaller where the texts first differ |
| CanonicalText.EscapingIsExact | src-tauri/src/codex/binary.rs:722-724 | escaping changes a string exactly when it holds a quotation mark, a reverse solidus or a control character, and leaves no control character behind |
| CanonicalText.EscapesAre | src-tauri/src/codex/binary.rs:722-724 | the two-character escapes, and lower-case hex for the other control characters |
| CanonicalText.EscapesAreShortest | src-tauri/src/codex/binary.rs:722-724 | no shorter text reads back as the character |
| CanonicalText.StringRoundTrip | src-tauri/src/codex/binary.rs:722-724 | strings escaped as in section 7 of RFC 8259 read back to themselves |
| CanonicalText.ValueRoundTrip | src-tauri/src/codex/binary.rs:717-751 | the compact text of a value, followed by anything a number does not swallow, decodes to that value |
| CanonicalText.DecodingInvertsPrinting | src-tauri/src/codex/binary.rs:717-751 | the decoder returns the printed value with its members in canonical order |
| CanonicalText.CanonicalMembersAscend | src-tauri/src/codex/binary.rs:733-748 | a canonical object lists its members in lexicographic order of their keys |
| CanonicalText.CompactItems | src-tauri/src/codex/binary.rs:725-732 | brackets and commas of an array, nothing around them |
| CanonicalText.CompactMembers | src-tauri/src/codex/binary.rs:736-748 | braces and commas of an object, nothing around them |
| CanonicalText.CompactMember | src-tauri/src/codex/binary.rs:741-746 | a member is its quoted key, a colon and its value |
| CanonicalText.SameTextExactlyWhenEquivalent | src-tauri/src/codex/binary.rs:717-751 | two documents print alike exactly when they agree up to member order |
| CanonicalText.WriteCanonicalJson | src-tauri/src/codex/binary.rs:717-751 | the printer, with its loops over items and sorted members, appends exactly the canonical text |
| SchemaFingerprint.TextOrderIsPathOrder | src-tauri/src/codex/binary.rs:786 | the order used on listed paths is the component-wise order of paths |
| SchemaFingerprint.HashInputDecodes | src-tauri/src/codex/binary.rs:833-846 | the hashed text decodes into exactly the listed paths and canonical documents |
| SchemaFingerprint.SameInputExactlyWhenSameFiles | src-tauri/src/codex/binary.rs:793-851 | two listings hash the same text exactly when they hold the same paths with equivalent documents, whatever the enumeration order |
| SchemaFingerprint.LoadSchemaSet | src-tauri/src/codex/binary.rs:793-851 | the loading loop produces that text and every document; its duplicate-path branch is dead |
| CharacterStorage.Storage.SaveState | src-tauri/src/character/storage.rs:953-978 | the state is replaced exactly when write and rename work, and the call succeeds exactly when the sync after them works too |
| CharacterStorage.Storage.Publish | src-tauri/src/character/storage.rs:401-452 | the exact condition for success and the error of the first thing that stands in the way; the library gains the pack exactly when everything up to the rename works, also when the last sync then fails |
| CharacterStorage.Storage.RestoreArchived | src-tauri/src/character/storage.rs:826-838 | when undoing works during the call, library and quarantine are restored, and the call succeeds exactly when its two syncs work |
| CharacterStorage.Storage.ArchivePacks | src-tauri/src/character/storage.rs:793-824 | succeeds exactly when the packs are there, listed once each, and renames and syncs work; otherwise everything is back if undoing works during the call |
| CharacterStorage.Storage.RollbackPublish | src-tauri/src/character/storage.rs:777-791 | moves the new pack back to its preview exactly when the rename works |
| CharacterStorage.Storage.SaveOrRestore | src-tauri/src/character/storage.rs:516-524 | a save that failed but reads back counts; otherwise the packs come back, and whether that went through is decided by the two syncs after it |
| CharacterStorage.Storage.ReplaceByPublished | src-tauri/src/character/storage.rs:504-527 | the second half of a replacement: exact conditions for success and for leaving the new pack behind |
| CharacterStorage.Storage.PublishAndReplaceCustom | src-tauri/src/character/storage.rs:495-528 | Ok: the library is the old one minus the replaced packs plus the new one, which is selected. When undoing works during the call: the exact condition for Ok; on Err the state is the initial one, and the new pack stays in the library exactly when the last sync of the publish fails, or the state write does not take and a sync of the restore fails (so a sync failed during the call), and otherwise the library is the initial one; the selection stays showable |
| CharacterStorage.PublishSyncLeavesPack | src-tauri/src/character/storage.rs:446 | a failing last sync of the publish as the only fault leaves the new pack behind with an error |
| CharacterStorage.UndoSyncLeavesPack | src-tauri/src/character/storage.rs:516-524 | a failing state rename and then a failing sync of the restore leave the new pack behind with an error |
| CharacterStorage.Storage.DeleteCustomAndFallback | src-tauri/src/character/storage.rs:530-548 | Ok: the pack and its mapping are gone, another selection and its time stay, and the pack's own gives way to the builtin one. When undoing works during the call: the exact condition for Ok, and on Err library, quarantine and state are the initial ones; the selection stays showable |
| CharacterStorage.DeletionState | src-tauri/src/character/storage.rs:73-78 | deleting a pack takes exactly its mapping and changes the selection and its time only if it was selected |
| CharacterStorage.Storage.DiscardArchived | src-tauri/src/character/storage.rs:840-845 | removes backups and nothing else, and all of them when no removal fails |
| JsonlFramer.Framer.PushBytes | src-tauri/src/codex/jsonl.rs:43-78 | the draining loop has exactly the effect of the push function |
| JsonlFramer.Framer.Finish | src-tauri/src/codex/jsonl.rs:80-87 | succeeds exactly when only whitespace is left |
| JsonlFramer.DrainAgreesWithReference | src-tauri/src/codex/jsonl.rs:50-77 | draining succeeds exactly when all complete lines are acceptable and the rest is short enough, and then yields the reference frames |
| JsonlFramer.LinesEnd | src-tauri/src/codex/jsonl.rs:50-55 | a line ends at byte 10, and one byte 13 before it does not belong to it |
| JsonlFramer.FirstBadLineDecides | src-tauri/src/codex/jsonl.rs:50-69 | the first unacceptable line decides the error; one that is too long empties the buffer, after another one the rest is still there |
| JsonlFramer.LongTailDecides | src-tauri/src/codex/jsonl.rs:72-75 | with acceptable lines only an unfinished one that is too long fails, and it empties the buffer |
| JsonlFramer.OverflowDecides | src-tauri/src/codex/jsonl.rs:44-48 | `BufferTooLarge` exactly when the push would grow the buffer over its limit |
| JsonlFramer.FramingRoundTrip | src-tauri/src/codex/jsonl.rs:43-78 | encoded frames, each followed by a newline, give back exactly the values and leave nothing over |
| JsonlFramer.TailIsTheUnfinishedLine | src-tauri/src/codex/jsonl.rs:50-51 | the leftover is the suffix after the last newline |
| JsonlFramer.ChunkingDoesNotMatter | src-tauri/src/codex/jsonl.rs:43-78 | for any split whose pushes succeed, frames and leftover are those of the whole stream |
| JsonlFramer.CutsAgree | src-tauri/src/codex/jsonl.rs:43-78 | two such splits of one stream agree |
| JsonlFramer.PushesSucceedExactlyWhen | src-tauri/src/codex/jsonl.rs:43-78 | with chunks that fit, pushes succeed exactly when complete lines are acceptable and every cut leaves a short enough rest |
| JsonlFramer.FittingLinesNeverFail | src-tauri/src/codex/jsonl.rs:43-78 | lines that fit with their CR never fail, wherever the stream is cut |
| JsonlFramer.ReaderNeverOverflows | src-tauri/src/codex/rpc.rs:19-42 | `BufferTooLarge` is unreachable from the reader with either set of limits |
| JsonlFramer.CutBeforeNewlineCanRefuse | src-tauri/src/codex/jsonl.rs:52-62 | the line `{}` with CR and newline is accepted whole and refused when cut before the newline, under a limit of two bytes |
| RpcProtocol.StepKeeps | src-tauri/src/codex/rpc.rs:138-398 | every step of callers, reader and failing keeps the correlation invariant |
| RpcCorrelation.AnsweredAtMostOnce | src-tauri/src/codex/rpc.rs:328-347 | pending and answered ids are disjoint, each id is answered at most once, `resolved` is the last at most 256 answered ids, pending is at most 128 |
| RpcCorrelation.DuplicatesAreRecognised | src-tauri/src/codex/rpc.rs:348-353 | an unexpected response is called a duplicate exactly when its id is among the last 256 answered |
| RpcCorrelation.PeerAnswersReachTheirCaller | src-tauri/src/codex/rpc.rs:328-341 | a request that completes with a result or a server error got what the peer sent under its own id |
| RpcCorrelation.OkAfterExitExactlyWhenDelivered | src-tauri/src/codex/rpc.rs:168-176 | after the reader exited a request can complete with Ok exactly when its answer had been delivered and it still waits |
| RpcCorrelation.NoOkForLaterRequests | src-tauri/src/codex/rpc.rs:138-177 | a request made after the reader exited never completes with Ok |
| RpcCorrelation.OkAfterExitHappens | src-tauri/src/codex/rpc.rs:168-176 | a run in which a request completes with Ok after the reader exited |
| RpcErrors.ErrorsMeanWhatTheySay | src-tauri/src/codex/rpc.rs:138-177 | a failed request is told the truth: its time ran out, it was refused or not accepted for sending, the connection was lost while it was pending, or the peer sent that error under its id |
| RpcErrors.RefusedExactlyWhenFull | src-tauri/src/codex/rpc.rs:146-158 | a request is refused exactly when 128 are pending, and otherwise becomes pending under its own id |
| RpcConnection.Tables.DrawId | src-tauri/src/codex/rpc.rs:144 | the wrapping counter hands out the next id |
| RpcConnection.Tables.Register | src-tauri/src/codex/rpc.rs:146-158 | inserts unless 128 requests are pending |
| RpcConnection.Tables.TakeResponse | src-tauri/src/codex/rpc.rs:328-356 | takes the pending request of an id or reports the violation |
| RpcConnection.Tables.RememberResolved | src-tauri/src/codex/rpc.rs:342-346 | the popping loop keeps the last 256 ids |
| RpcConnection.Tables.FailAllPending | src-tauri/src/codex/rpc.rs:393-398 | empties the table and names exactly the pending callers |
| DecisionHandles.EncodingRoundTrip | src-tauri/src/codex/decision.rs:525-529 | the length-prefixed encoding decodes back to its components |
| DecisionHandles.LengthBytes | src-tauri/src/codex/decision.rs:525-529 | the eight bytes of a length, the most significant first |
| DecisionHandles.EncodingIsInjective | src-tauri/src/codex/decision.rs:525-529 | different component lists feed the hasher different bytes |
| DecisionHandles.HandlesIdentifyComponents | src-tauri/src/codex/decision.rs:525-533 | with a collision-free digest handles agree exactly when their components do |
| DecisionHandles.OptionHandleIs | src-tauri/src/codex/decision.rs:525-533 | an option handle is its prefix and the digest of decision and id, each after its length |
| DecisionHandles.DecisionHandleIs | src-tauri/src/codex/decision.rs:115-124 | with a collision-free digest decision handles agree exactly when pending id, workspace, generation, thread and turn do |
| DecisionHandles.ContextualOptions | src-tauri/src/codex/decision.rs:128-141 | the option loop of `register` relabels ids and follows the recommendation |
| DecisionHandles.RegisteredCardMeansTheSame | src-tauri/src/codex/decision.rs:105-159 | order, labels and descriptions stay, option ids are distinct, and the recommendation points at the same option |
| DecisionHandles.MapOptions | src-tauri/src/codex/decision.rs:399-421 | accepts exactly the lists of acceptable options with distinct ids and labels, and maps them in order |
| DecisionLedger.FallbackDecisionLedger.RegisterCard | src-tauri/src/codex/decision.rs:105-159 | new, existing with the same content, or a mismatch |
| DecisionLedger.FallbackDecisionLedger.TakeClaim | src-tauri/src/codex/decision.rs:161-215 | the checks in order, then a fresh token |
| DecisionLedger.FallbackDecisionLedger.RestoreClaim | src-tauri/src/codex/decision.rs:217-227 | returns an entry to pending only for the claim that holds it |
| DecisionLedger.FallbackDecisionLedger.CompleteClaim | src-tauri/src/codex/decision.rs:229-240 | removes an entry only for the claim that holds it |
| DecisionLedger.FallbackDecisionLedger.MarkTurnTerminal | src-tauri/src/codex/decision.rs:242-270 | marks or drops exactly the entries of the turn |
| DecisionLedger.FallbackDecisionLedger.ExpireOverdue | src-tauri/src/codex/decision.rs:272-286 | drops exactly the overdue pending entries |
| DecisionRuns.SettlesAtMostOnce | src-tauri/src/codex/decision.rs:217-240 | a claim that was restored or completed changes nothing when presented again |
| DecisionRuns.SupersededClaimsAreInert | src-tauri/src/codex/decision.rs:161-240 | a superseded claim changes nothing, ever |
| DecisionRuns.TokensAreFresh | src-tauri/src/codex/decision.rs:195-196 | later claims carry larger tokens |
| DecisionRuns.EveryRegistrationIsAccountedFor | src-tauri/src/codex/decision.rs:161-286 | per handle, registrations equal completions plus drops plus the entry still there |
| DecisionRuns.ClaimedTurnsAreComplete | src-tauri/src/codex/decision.rs:180-182 | a claimed entry always has its source turn completed |
| DecisionRuns.TokenOfClaim | src-tauri/src/codex/decision.rs:195-196 | without a bound on the claims: the n-th claim carries the token (n - 1) mod (2^64 - 1) + 1 |
| DecisionRuns.TokensRepeatExactlyWhen | src-tauri/src/codex/decision.rs:195-196 | two claims carry the same token exactly when the claims from one to the other are a multiple of 2^64 - 1 |
| DecisionRuns.ClaimsSettleTwiceAfterWrapping | src-tauri/src/codex/decision.rs:195-227 | a run in which a claim that was restored settles again after 2^64 - 1 more claims |
| DecisionLaws.OperationsAreDecided | src-tauri/src/codex/decision.rs:105-290 | what every operation of a run answers and changes, with the order of the checks, the codes, the five minutes and the wrapping token |
| DecisionLaws.EntriesComeFromRegistrations | src-tauri/src/codex/decision.rs:105-290 | every entry was put there by one registration, whose context, options and content it still has; its turn is completed exactly if it ended so since |
| DecisionLaws.ClaimCarriesTheChoice | src-tauri/src/codex/decision.rs:161-215 | an issued claim carries the handle and the option the user chose and the context the decision was registered under; the option is one of those registered, and of the entry only the state changes |
| ShellTokens.Tokenize | src-tauri/src/codex/main_work_unit.rs:386-425 | the character loop computes the automaton's tokens |
| ShellTokens.TokenListsAreTidy | src-tauri/src/codex/main_work_unit.rs:386-431 | no word is empty and no two separators are adjacent |
| ShellTokens.TokensOfJoined | src-tauri/src/codex/main_work_unit.rs:410-415 | the tokens of two commands with a separator character between them |
| ShellTokens.BlankSeparates | src-tauri/src/codex/main_work_unit.rs:409 | space, tab and carriage return put the tokens of two commands one after the other |
| ShellTokens.OpenQuoteHasNoTokens | src-tauri/src/codex/main_work_unit.rs:420-422 | a quote that is not closed leaves no tokens |
| ShellTokens.OpenEscapeHasNoTokens | src-tauri/src/codex/main_work_unit.rs:408 | a backslash at the end leaves no tokens |
| ShellTokens.PlainSpells | src-tauri/src/codex/main_work_unit.rs:416 | characters that are no blank, separator, quote or backslash stand for themselves |
| ShellTokens.DoubleQuotedSpells | src-tauri/src/codex/main_work_unit.rs:400-404 | inside double quotes only the quote and the backslash need a backslash |
| ShellTokens.SpellingRoundTrip | src-tauri/src/codex/main_work_unit.rs:386-431 | words spelled plainly, escaped, in either quotes or in any mix of these, joined with spaces, tokenise to those words |
| ShellTokens.QuotingRoundTrip | src-tauri/src/codex/main_work_unit.rs:386-431 | single-quoting any non-empty words and joining with spaces tokenises back to them |
| CommitClassifier.SegmentIsGitCommit | src-tauri/src/codex/main_work_unit.rs:306-368 | the loops over the words of a segment compute the recogniser |
| CommitClassifier.IsCandidate | src-tauri/src/codex/main_work_unit.rs:297-304 | true exactly when the command tokenises and some segment is a commit |
| CommitShapes.RecognisedExactlyWhen | src-tauri/src/codex/main_work_unit.rs:306-381 | a segment is recognised exactly when its words are: assignments; perhaps `env` under any path with assignments and options; perhaps `command` with options; git under any path; its options, six of which take the next word; `commit`; anything |
| CommitShapes.SpelledCommandsAreDecided | src-tauri/src/codex/main_work_unit.rs:297-431 | a command line that spells words, however quoted, is a candidate exactly when they have that shape |
| CommitShapes.CommitInDirectory | src-tauri/src/codex/main_work_unit.rs:349-366 | `git -C <directory> commit` is recognised in every spelling and with any arguments |
| CommitShapes.LaterArgumentsDoNotMatter | src-tauri/src/codex/main_work_unit.rs:349-352 | words after a recognised commit do not matter |
| CommitClassifier.ClassifierIsCompositional | src-tauri/src/codex/main_work_unit.rs:297-304 | two commands with a separator between them are a candidate exactly when one of them is |
| Attachments.AttachmentService.RegisterCandidates | src-tauri/src/codex/attachment.rs:488-596 | the answer and the records after it, with fresh handles and expired records gone |
| Attachments.AttachmentService.ResolveRecords | src-tauri/src/codex/attachment.rs:398-441 | succeeds exactly when all handles are known, live, of this workspace, distinct, at most ten, and within the total; otherwise the first handle in the way decides the code |
| Attachments.AttachmentService.ValidateHandleList | src-tauri/src/codex/attachment.rs:611-626 | accepts exactly lists of at most ten distinct handles |
| Attachments.AttachmentService.Consume | src-tauri/src/codex/attachment.rs:476-486 | removes exactly the listed records of this workspace |
| Attachments.EveryCandidateLandsOnce | src-tauri/src/codex/attachment.rs:537-595 | every candidate index lands in exactly one of items and rejections, in order |
| Attachments.AcceptedExactlyWhen | src-tauri/src/codex/attachment.rs:537-578 | a candidate is accepted exactly when it is readable, its path is new, and count and bytes still fit after those before it |
| AttachmentLaws.RejectedExactlyWhen | src-tauri/src/codex/attachment.rs:537-578 | a candidate is turned away with a code exactly when it is not accepted and that is the first reason: unreadable, duplicate path, ten attachments, or the total |
| AttachmentLaws.ExistingBudget | src-tauri/src/codex/attachment.rs:521-536 | the budget starts from the existing handles that are registered for this workspace and not expired: their number and their paths |
| Attachments.AcceptedPathsAreDistinct | src-tauri/src/codex/attachment.rs:545-551 | accepted paths differ from one another and from the live existing ones |
| Attachments.RegisteredHandlesResolve | src-tauri/src/codex/attachment.rs:488-596 | if the live existing handles fit the total, they and the new ones pass all record checks in any records that still hold theirs |
| AttachmentRuns.UnspentAreKept | src-tauri/src/codex/attachment.rs:476-578 | over any later registrations, resolutions and consumptions, records that nobody consumes in their workspace stay as they are while no reading is past their expiry |
| AttachmentRuns.SpentDoesNotPass | src-tauri/src/codex/attachment.rs:476-486 | a consumed handle never resolves again in any later state |
| AttachmentRuns.RegisteredPassUntilSpent | src-tauri/src/codex/attachment.rs:398-595 | from a registration whose existing handles fit the total to any later state, by readings up to the least expiry, the existing and the new handles pass all record checks exactly when no consumption in their workspace named one of them |
| AttachmentLaws.StepsAreDecided | src-tauri/src/codex/attachment.rs:476-595 | what every registration and consumption of a run does to the records: refusals, what has expired goes, new records last half an hour, and consuming takes exactly the listed ones of the workspace |
| AppLifecycle.Coordinator.Close | src-tauri/src/app_lifecycle.rs:194-226 | prompts, starts a shutdown, or repeats what is already under way |
| AppLifecycle.Coordinator.Cancel | src-tauri/src/app_lifecycle.rs:228-238 | only the shown request can be withdrawn |
| AppLifecycle.Coordinator.Confirm | src-tauri/src/app_lifecycle.rs:240-258 | only the shown request can be confirmed |
| AppLifecycle.Coordinator.Retry | src-tauri/src/app_lifecycle.rs:260-280 | a retry carries the previous report and a saturating attempt number |
| AppLifecycle.Coordinator.Finish | src-tauri/src/app_lifecycle.rs:282-310 | ends the application or keeps the failure; refuses attempts that are not current |
| AppLifecycle.ExecuteShutdownPlan | src-tauri/src/app_lifecycle.rs:396-439 | the report of an attempt and the cleanups it ran; which those are is `AppLifecycleLaws.EveryAttemptRunsWhatIsDue` |
| AppLifecycleRuns.AttemptKeeps | src-tauri/src/app_lifecycle.rs:396-439 | an attempt repeats nothing that completed, and its report says how each cleanup ended last |
| AppLifecycleRuns.RetriesRepeatOnlyUnfinishedWork | src-tauri/src/app_lifecycle.rs:260-439 | over any run no cleanup runs again after it completed and the graceful shutdown runs at most once |
| AppLifecycleRuns.ExitMeansDone | src-tauri/src/app_lifecycle.rs:103-110 | `exit_ready` holds exactly in state ExitReady and exactly when the graceful shutdown or all four forced cleanups completed |
| AppLifecycleRuns.ExitIsFinal | src-tauri/src/app_lifecycle.rs:293-297 | once exit is allowed nothing changes any more |
| AppLifecycleRuns.FinishIsNeverStale | src-tauri/src/app_lifecycle.rs:282-292 | the result of a running attempt is never refused |
| AppLifecycleLaws.EveryAttemptRunsWhatIsDue | src-tauri/src/app_lifecycle.rs:396-439 | only an attempt runs cleanups: the graceful shutdown exactly when nothing was run before; unless that completed, exactly once each forced cleanup not completed yet, in the order codex, narration, explanation, history |
| AppLifecycleLaws.EventsAreDecided | src-tauri/src/app_lifecycle.rs:194-310 | what every event of the coordinator does and answers, with the attempt number saturating at 65535 |
| AppLifecycleLaws.SuccessfulRetryExits | src-tauri/src/app_lifecycle.rs:260-439 | from a failed cleanup, a retry whose unfinished cleanups all complete ends with exit allowed, whatever else is asked meanwhile |

## Left out

Controller and executor:

- Field validators, error-code tables, event emission, `get_state`, timestamps, `latest_outcome`, `last_error_code` and `last_readiness`: settled by reading one branch.
- Content of evidence, presentations and results beyond request id, locale, token and latency numbers.
- Identifiers are natural numbers, and generation numbers of the explanation controller and the executor are unbounded: no run reaches the 64-bit wrap-around.
- The audit store, the readiness verdict and the model runtime are oracles; the executor's cancel and force flags only steer what its runtime answers.
- The executor is modelled on values, because its callers, tasks and cleaners interleave inside one call; the map it guards is a class (`SupportTables`). Aliasing of its reference-counted parts is not modelled.
- A call of `execute` is not dropped between taking the lock and starting its task; without that, an entry could stay behind with no task to finish it.
- Liveness and fairness: that a worker pops eventually, or that a shutdown returns.

Smaller cores:

- `SchemaFingerprint`: the directory walk, file identity and size checks, SHA-256 and UTF-8; the walk delivers each file once, in any order.
- `CanonicalJson`: a number is its printed text, so that printing a number is taken to be injective.
- `structural_capabilities` and the other shape checks of `binary.rs`.
- CharacterStorage.Storage.PublishAndReplaceCustom: assumes that the new pack's id is not among the replaced ones, because the caller draws a fresh UUID and passes the packs it found in the library.
- `CharacterStorage`: inodes, permissions, symbolic links and hashing; state migration; what a crash between two operations leaves behind.
- `JsonlFramer`: decoding a line is an oracle from bytes to an object, another value or nothing.
- RpcProtocol.StepKeeps: the writer task, signals and timeouts are events without content; failing the pending requests and telling each of them is one step.
- `DecisionHandles`: SHA-256 is a function that may be assumed collision-free; redaction and the length checks are functions of the option.
- `CommitClassifier`: notification parsing and commit proofs of `main_work_unit.rs`.
- `Attachments`: opening, fingerprinting and copying files, snapshot leases and their cleanup, and the overflow of the clock.
- `AppLifecycle`: what the cleanups do, windows and events; an attempt's cleanups are one event, since nothing else touches its report.
- Window state, narration, workspace history, locale code and the user interface.
