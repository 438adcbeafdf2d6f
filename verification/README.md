# A verified model of a crash-consistent agent runtime

The runtime drives tool calls for an agent and may be killed between any two of
its durable writes. What survives is an append-only event log, outbox rows for
calls that are not idempotent, and a ledger of effects in the outside world. This
project models the code that writes these three, and the code that reads them
back, and proves what every run keeps.

## How it is built

`Pipeline` lists the durable commits of each operation as a value: an appended
event, a row write, an effect. A kill leaves a prefix of the list. `Executor` and
`AgentLoop` hold the operations as the source writes them, over mutable tables and
a log, with a kill that may come at any commit; their contracts say that they make
exactly the listed commits, up to the kill. The claims about runs are proved on
the lists: a claim that holds after every prefix holds at every kill.

| modules | what they are about |
|---|---|
| `Events`, `Tools`, `Approvals`, `Tables` | the log's vocabulary, tool contracts, approvals, ledger and rows |
| `Reducer`, `ReducerSpec` | the fold over the log, against a quantified description of a good log |
| `Pipeline`, `Executor`, `Footprint` | one tool call, its commits, and what it may touch |
| `Invariants`, `Justification`, `Exclusivity`, `Attribution`, `Ordering`, `Deciding`, `Runs`, `Gates`, `Agreement`, `ExactlyOnce`, `OutboxOff` | what every run keeps |
| `Boundaries`, `Siblings`, `TwoBranches`, `Witnesses` | where that ends: exact conditions, and runs from the empty store that fail |
| `Chain`, `Store`, `Branching`, `StoredLog`, `Audit`, `Migration` | the hash chain, forked branches, what they have to do with the log of a run, the audit, the migration that rebuilds the chain |
| `View`, `Compaction`, `Turns`, `LoopRuns`, `Continuation`, `Cache`, `Tokens` | what the model is shown, what compaction takes away, what the prefix cache can read |
| `AgentLoop`, `Checkpoints`, `Tracing`, `Oracle`, `Artifacts` | the loop, its checkpoints, the trace, the outside judge, paged reads |

Dafny's automatic induction is switched off throughout: every induction is
written out.

## What is taken as given

- Hashes are terms: equal hashes are hashes of equal things, and none equals the
  genesis constant, the empty string, or a text that was never hashed. This covers
  event hashes, argument hashes, content hashes and idempotency keys.
- Of a tool the pipeline believes its declaration, and so does the model: a reader leaves
  no effect, what is declared idempotent is deduplicated by key downstream, and a call has
  at most one effect each time it is run (`EffectCommits`).
- Where a claim needs something of the caller or the outside, it says so in its
  hypotheses. A caller can check before the call: a call that stands open has a registered
  tool (`OrderAllowed`) and is driven again for no other tool (`SameTool`) and with no
  other arguments (`OneRequest`), and a decision finds its call unanswered (`DecideSafe`)
  and never let through (`NeverLetThrough`). An id that was answered may be proposed again
  with anything; the log answers it. In a turn of the loop nothing is open, and `SameTool`
  and `OneRequest` hold by themselves (`AgentLoop.TurnsReuseNoOpenId`).
  Of the outside: a read-back denies no effect that happened (`HonestProbe`), and where
  recorded outcomes are compared with the ledger it invents none (`Trusted`).
- What happens without them: `Boundaries.UnregisteredIsSafeExactlyWhenNew`,
  `Witnesses.ReusedIdRunsTwice`, `Witnesses.ReusedArgumentsHideAnEffect`,
  `Deciding.DecisionsAreSafeExactlyWhenOpen`,
  `Siblings.DecisionsAgreeExactlyWhenNeverLetThrough` with
  `Witnesses.LateRejectionOfWhatRan`, and `Boundaries.OnceExactlyWhenTheProbeIsHonest`
  with `Witnesses.LyingProbeRunsTwice`.
- Clocks, the hook that may swap arguments, read-backs, tool outcomes, summaries
  and the model's answers are inputs, and the claims hold for all of them. A new
  interrupt id is one that no event carries.
- An event is named by its position in the effective log of its branch.
  `Branching.SeqIsPosition` proves that this is its sequence number.

## Where the code and its documentation differ

The model follows the code.

- The documentation of `verify_chain` (harness/state.py:85-88) says that only the
  chain can expose an older copy of the database. The chain alone cannot: every
  prefix of a sound chain is sound. `Chain.OlderCopyVerifies`.
- `append_many` looks at the owner of a branch for its first event only
  (harness/store/sqlite_store.py:335-344). `Branching.OwnerIsCheckedOnce`.
- The reducer matches a resume with its interrupt by index only
  (harness/state.py:263-287), while the trace goes by id, so the two part on a log that
  is clean. `Tracing.AgreeThroughoutExactlyWhenNamed` says when;
  `Tracing.MisnamedResumeSplitsThem` is such a log.
- `check_no_tamper` expects every branch to be numbered from 0
  (opsenv/oracle.py:166-175), but a forked branch goes on where it forked.
  `Oracle.NoTamperCheckIsForRootBranches`.
- A call of an unregistered tool is noted without asking whether it already was
  (harness/execution.py:277). `Boundaries.UnregisteredIsSafeExactlyWhenNew`.
- A rejection or an edit that was killed half way must not be repeated
  (harness/execution.py:491-511). `Deciding.CutClosingMustNotBeRepeated`.
- An open call that is driven again with other arguments is closed as rejected by its
  intent's hash, whether or not the intent had its effect (harness/execution.py:295-309).
  `Witnesses.ReusedArgumentsHideAnEffect`.
- The idempotency key names the branch (harness/tools.py:229) while the rows are unique by
  call id too (harness/store/schema.py:151), so a call that has a row on the branch a
  branch was forked from cannot get one of its own.
  `TwoBranches.AForkedCallClashesExactlyWhenItHasARow`.
- A decision asks for a pending interrupt and no more (harness/execution.py:481-484), so
  it can be given in a run that a fatal error has ended, and then it breaks the log.
  `Deciding.DecisionsAreSafeExactlyWhenOpen`.
- The gate looks for an approval before it looks whether one is being asked for
  (harness/execution.py:340-352), so an approval that was killed before its resume lets
  the call run while its interrupt still waits; rejecting it then records `rejected` for
  a call that ran. `Siblings.DecisionsAgreeExactlyWhenNeverLetThrough` says what to look
  for in the log first; `Witnesses.LateRejectionOfWhatRan` is such a run.

## Model

| member | source | states |
|---|---|---|
| `Reducer.ReduceEvents` | harness/state.py:148-293 | The one loop over the log computes the folded state and the list of broken invariants that `Reduce` and `Report` define. |
| `ReducerSpec.ReportsExactlyTheIllFormed` | harness/state.py:148-293 | Nothing is reported exactly when the log meets a quantified description: no tree node after the end, each call named once, each result after its call and alone, one interrupt at a time, each resume answering a waiting interrupt with its index, nothing open in a completed run. |
| `ReducerSpec.CleanMeans` | harness/state.py:184-279 | On a clean log open, closed and pending say what the log says: called and unanswered, answered, asked and not resumed. |
| `ReducerSpec.CompletedMeans` | harness/state.py:163-190 | A clean log is completed exactly when a final message is in it and no fatal error. |
| `ReducerSpec.TerminalFreezes` | harness/state.py:168-183 | Once a prefix has ended, no extension changes step, calls or gate, and the run stays in the terminal statuses. |
| `ReducerSpec.EndedStatusStaysExactlyWithoutAFatalError` | harness/state.py:163-167 | For every ended run and every extension: the status stays exactly when the run had failed or nothing fatal follows. Only the set of terminal statuses is absorbing. |
| `Tools.AdmitsExactlyTheDomain` | harness/tools.py:127-147 | A policy admits exactly the domain it declares; what an absent field means for each kind of constraint. |
| `Tools.TruthIsNoNumber` | harness/tools.py:115-147 | A truth value passes neither for a listed number nor for one in a range. |
| `Approvals.LetsThroughExactly` | harness/approval.py:58-80 | A binding lets a call through exactly when it approves, has not expired, names these arguments, and is for this call or for its tool for the session; the order of the reasons otherwise. |
| `Approvals.FindApproval` | harness/execution.py:705-724 | Collecting candidates and taking the first maximal one finds the binding `Best` names. |
| `Approvals.BestIsBest` | harness/execution.py:705-724 | No candidate in the log outranks the chosen one, and none is chosen only when there is none. |
| `Approvals.ExactApprovalIsNotVetoed` | harness/execution.py:705-724 | A later rejection for the session never vetoes an approval of the call itself. |
| `Tables.World.Apply` | fakeworld/world.py:55-101 | An idempotent effect is looked up by key first; any other appends one ledger row. |
| `Tables.World.Probe` | fakeworld/world.py:122-131 | The read-back tells whether a key has effects, the first of them and how many. |
| `Tables.World.AnswerByKey` | fakeworld/world.py:122-131 | A read-back built on the ledger denies an effect exactly when there is none: the honesty the claims below ask for can be had. |
| `Tables.ToolCallStore.Record` | harness/store/tool_calls.py:99-141 | A row is inserted unless its key is taken, and the answer says which. |
| `Tables.ToolCallStore.Begin` | harness/store/tool_calls.py:54-82 | The intent is a pending row, written once. |
| `Tables.ToolCallStore.Complete` | harness/store/tool_calls.py:84-97 | Closing an intent changes its status and result and nothing else. |
| `Tables.ToolCallStore.SetUnknown` | harness/store/tool_calls.py:143-150 | Giving an intent up changes its status and nothing else. |
| `Executor.ToolExecutor.Execute` | harness/execution.py:260-437 | One call, killed after any number of commits, has made exactly that prefix of the commits `ExecutePlan` lists, and answers as it says. |
| `Executor.ToolExecutor.HandleRow` | harness/execution.py:287-337 | What an existing outbox row allows: refusal on other arguments, answer, read-back, giving up, or the gate. |
| `Executor.ToolExecutor.ResolvePending` | harness/execution.py:572-619 | An intent never closed is read back: reconstruct, run again, or give up to a human. |
| `Executor.ToolExecutor.PassGate` | harness/execution.py:339-356 | The approval gate: checked binding, interrupt, or neither. |
| `Executor.ToolExecutor.RaiseInterrupt` | harness/execution.py:666-703 | At most one interrupt waits; its index is the number of interrupts before it; one that waits and is not in the log is an error. |
| `Executor.ToolExecutor.CheckAndRun` | harness/execution.py:358-394 | The arguments about to be used are compared with the approved ones and with the policy, in that order. |
| `Executor.ToolExecutor.RunTool` | harness/execution.py:396-437 | Intent, effect, event, row, in that order. |
| `Executor.ToolExecutor.HandleToolFailure` | harness/execution.py:621-664 | A tool that raised is recorded as failed, or as unknown where an intent was written. |
| `Executor.ToolExecutor.OpenCallsInLogOrder` | harness/execution.py:194-217 | Open calls come in the order the log first names them. |
| `Executor.ToolExecutor.ResumeOpenCalls` | harness/execution.py:439-462 | The recovery pass makes the commits `ResumePlan` lists, up to a kill, and reports the calls it answered and how it ended. |
| `Executor.ToolExecutor.DecideOn` | harness/execution.py:466-551 | A decision answers or supersedes the call, then writes approval and resume; its refusals. |
| `Footprint.ACallWritesOnlyItsOwn` | harness/execution.py:260-437 | Whatever a call meets, it writes its own call, result, interrupt and row, and effects under its own key only; an intent only for a non-idempotent writer with the outbox on. |
| `Footprint.OtherKeysStay` | harness/execution.py:260-437 | No row and no effect of another key moves, wherever the call is killed. |
| `Justification.EveryEffectIsJustified` | harness/execution.py:340-394 | After any calls, decisions and kills, with any arguments swapped in between, every effect of a tool that needs approval stands behind an approval of exactly its arguments, and every effect lies in its tool's declared domain. No hypothesis on tools, clocks, read-backs or the hook. |
| `Justification.ExecuteJustified` | harness/execution.py:260-437 | One call keeps that at every point where a kill may fall. |
| `Justification.NoEffectUnderAnExpiredApproval` | harness/execution.py:340-394 | An effect only follows an approval that had not expired when the gate looked, for these arguments and this call, or for its tool for the session; or the tool needs none. |
| `Exclusivity.NoKeyHasTwoEffects` | harness/execution.py:294-437 | With the outbox on, no run gives a key two effects, if an open call is driven again for no other tool and read-backs deny no effect that happened. Answered ids may come back with anything. |
| `Exclusivity.ExecuteOnce` | harness/execution.py:294-437 | One call keeps at-most-once at every point where a kill may fall. |
| `Boundaries.OnceExactlyWhenTheProbeIsHonest` | harness/execution.py:572-619 | For every waiting intent that gate and policy let through again: a denied effect adds one, unless the tool raises before it reaches the outside, and the key keeps one effect exactly when the denial was true. |
| `Witnesses.LyingProbeRunsTwice` | harness/execution.py:572-619 | From the empty store: a call killed behind its effect and a read-back that denies it give two effects, with nothing else out of order. |
| `Witnesses.ReusedIdRunsTwice` | harness/execution.py:287-294 | From the empty store: one id for an idempotent and a non-idempotent writer gives two effects, whichever the log named first. |
| `Witnesses.ReusedArgumentsHideAnEffect` | harness/execution.py:295-309 | From the empty store: a call killed behind its effect and its id driven again with other arguments: the log says rejected, the ledger holds the effect, with nothing else out of order. |
| `Ordering.ExecuteOrdered` | harness/execution.py:260-437 | One call leaves no violation at any kill, if its tool is registered or it is not open yet; run to its end it is answered once or stands open at the gate. |
| `Ordering.ClosedRowsAreAnsweredByTheLog` | harness/execution.py:311-337 | A closed row's call is closed in the log, so the branches that would answer from such a row are never taken. |
| `Runs.EveryRunIsWellFormed` | harness/execution.py:260-551 | After any run with safe decisions in which no open call of an unregistered tool is driven again, killed anywhere, the log meets the quantified description, closed rows have results and pending rows have calls; with or without outbox. |
| `Boundaries.UnregisteredIsSafeExactlyWhenNew` | harness/execution.py:270-285 | A call of an unregistered tool leaves the log clean exactly when it is replayed, or when it is new and the run has not ended. |
| `Deciding.DecisionsAreSafeExactlyWhenOpen` | harness/execution.py:466-551 | An accepted decision leaves a clean log exactly when the run has not ended, a rejected or edited call is still unanswered and the edited id unused; and then so does every kill inside it. |
| `Deciding.PlainApprovalCanBeRepeated` | harness/execution.py:466-551 | A plain approval leaves a clean log exactly when the run has not ended; killed before its resume, it can be given again and leaves the log reduced to the same state. |
| `Deciding.CutClosingMustNotBeRepeated` | harness/execution.py:491-511 | A rejection or edit killed anywhere between its first commit and its last still waits, and breaks the log when repeated. |
| `Runs.EditedCallWaitsBehindTheQueue` | harness/execution.py:498-511 | An edit writes its call at the end of the log, so recovery comes to it behind every call that was queued. |
| `Agreement.RecordedOutcomesAgreeWithTheLedger` | harness/execution.py:311-337 | For non-idempotent writers with the outbox on: executed means one effect, rejected, superseded and failed none, unknown at most one, after any run with truthful read-backs in which open calls are driven with no other arguments and only calls that the log shows were never let through are rejected or edited. |
| `ExactlyOnce.LetInRunsExactlyOnce` | harness/execution.py:287-437 | From any state such a run leaves: a writer's unanswered call that is let in, finds a read-back that settles its intent if it has one, and is driven to its end with a tool that returns, is recorded as executed and has exactly one effect. |
| `Agreement.ExecuteAgreed` | harness/execution.py:260-437 | One call keeps that at every point where a kill may fall. |
| `Siblings.DecisionsAgreeExactlyWhenNeverLetThrough` | harness/execution.py:491-511 | Read off the log alone, at the end of any run: a safe decision keeps log and ledger in agreement in every run with this log exactly when it closes no writer's call with an approval of its arguments on record that its policy admits. |
| `Siblings.SameLogWithItsEffect` | harness/execution.py:396-410 | Beside every run whose log shows such an approval for the waiting call stands one, as orderly and with the same log, in which the call has had its effect. |
| `Gates.ApprovedIsLetIn` | harness/execution.py:339-356 | An approval on record for a call that waits lets it in before it expires: nothing else that is on record for the call outranks it with other arguments or a rejection. |
| `Attribution.NeverLetThroughHasNoEffect` | harness/execution.py:339-394 | A call that waits for a human and that no approval on record lets through has had no effect, whatever was killed where. |
| `Attribution.NoApprovalOnRecordIsEnough` | harness/execution.py:705-724 | Where no approval speaks for the call at all, it was never let through. |
| `Witnesses.LateRejectionOfWhatRan` | harness/execution.py:339-352 | From the empty store: an approval killed before its resume, the call driven and killed behind its effect, and a safe rejection: the log says rejected, the ledger holds the effect. |
| `OutboxOff.EffectsAreBoundedByLostResults` | harness/execution.py:411-434 | With the outbox off a key has at most one effect more than there were attempts that ended between an effect and its result. |
| `OutboxOff.OnlyAKillLosesAResult` | harness/execution.py:411-434 | Only a kill loses a result. |
| `OutboxOff.RepeatsFromTheStart` | harness/execution.py:411-434 | The bound from the empty store: one effect and one for every lost result. |
| `OutboxOff.TheBoundIsAttained` | harness/execution.py:411-434 | For every number of kills there is a run that reaches the bound. |
| `OutboxOff.DedupChangesNoRun` | harness/execution.py:287-288 | With the outbox off the deduplication switch changes no run. |
| `Runs.OpenInOrderIsOpen` | harness/execution.py:194-217 | The recovery order holds every open call once, and no other. |
| `Runs.ResumeAnswersAPrefix` | harness/execution.py:439-462 | A recovery pass answers a prefix of its calls, in order, once each, and leaves the others open. |
| `Runs.RecoveryClosesOrStopsAtTheGate` | harness/execution.py:439-462 | Not killed, it closes everything or stops at the gate with exactly the calls from there on open; killed, it leaves no violation. |
| `TwoBranches.OneBranchNeverClashes` | harness/store/schema.py:150-165 | After any run on one branch no insertion of any action finds its key free and its call id taken. |
| `TwoBranches.AForkedCallClashesExactlyWhenItHasARow` | harness/store/tool_calls.py:99-141 | On a branch forked from it, the row of a call is refused exactly when the call has a row on the branch it was forked from. |
| `Chain.VerifyChain` | harness/state.py:70-145 | The loop reports what `Verify` lists, in its order. |
| `Chain.VerifiesExactlyTheChains` | harness/state.py:70-145 | The checker is silent exactly on events that each hold the hash of their record behind the hash before them, from the given start or from genesis. |
| `Chain.EqualHeadsEqualHistories` | harness/events.py:156-202 | Two chains from genesis that end in the same hash are equal, event for event. |
| `Chain.RewrittenRecordIsTheOnlyBreak` | harness/state.py:116-144 | A record rewritten in place is reported once, at its event. |
| `Chain.CutOutEventsBreakTheChainOnce` | harness/state.py:105-144 | Events cut out of the middle are reported once, at the first event behind the cut. |
| `Chain.VerifySplits` | harness/state.py:70-145 | Checking in two parts, the second from the first's last hash, finds what checking the whole finds. |
| `Chain.VerifySplitsBlindly` | harness/state.py:91-115 | When the first part ends without a hash, the two agree exactly when the second begins empty, unhashed or at genesis. |
| `Chain.OlderCopyVerifies` | harness/state.py:85-88 | An older copy of a log verifies too; its head tells it apart. |
| `Store.SqliteStore.Lineage` | harness/store/sqlite_store.py:251-267 | On any tables the climb to the root ends, with the branches from the root down or the error the code raises. |
| `Store.SqliteStore.EffectiveEvents` | harness/store/sqlite_store.py:399-414 | The effective log, or the first error on the way down. |
| `Store.SqliteStore.CreateBranch` | harness/store/sqlite_store.py:214-243 | A branch is added or refused, and events stay as they are. |
| `Store.SqliteStore.AppendOne` | harness/store/sqlite_store.py:284-332 | One event gets its sequence number and hashes or is refused. |
| `Store.SqliteStore.AppendMany` | harness/store/sqlite_store.py:274-333 | A batch goes in as a whole or leaves the tables as they were. |
| `Branching.LineageEndsAndUnrolls` | harness/store/sqlite_store.py:251-267 | In a store laid out as a tree the climb meets no cycle and unrolls to the recursively defined effective log. |
| `Branching.SeqIsPosition` | harness/store/sqlite_store.py:335-352 | An event's sequence number is its position in every effective log that holds it, across forks. |
| `Branching.EffectiveIsOneChain` | harness/store/sqlite_store.py:354-384 | Every effective log is one chain from genesis. |
| `StoredLog.StoringIsAppending` | harness/store/sqlite_store.py:284-332 | An event the store takes for a branch is appended to the log that calls on that branch are run against, at its sequence number, and to no other. |
| `Branching.CreatingABranchKeepsSound` | harness/store/sqlite_store.py:214-243 | A fork starts as its parent's log up to the fork point and changes no other log. |
| `Branching.AppendingAnEventKeepsSound` | harness/store/sqlite_store.py:284-332 | An append extends its own branch's log by one event and no other, and keeps tree, numbers and chains. |
| `Branching.AppendingABatchKeepsSound` | harness/store/sqlite_store.py:274-333 | A batch extends each log by the batch's events for its branch, in order. |
| `Branching.BatchCarriesItsEvents` | harness/store/sqlite_store.py:284-332 | What is stored carries what was handed over, event by event. |
| `Branching.EveryStoreIsSound` | harness/store/sqlite_store.py:214-414 | After any requests, granted or refused, every branch has its effective log, numbered by position, which the checker is silent about. |
| `Branching.LogsOnlyGrow` | harness/store/sqlite_store.py:214-414 | Over any further requests an effective log only gets longer. |
| `Branching.OwnerIsCheckedOnce` | harness/store/sqlite_store.py:335-344 | An event that names a run other than the branch's owner is refused exactly when it would be the branch's first. |
| `Audit.RunAudit` | harness/audit_chain.py:101-156 | The audit lists the findings of every branch that holds events, parents before children. |
| `Audit.AuditFindsExactlyTheBrokenStores` | harness/audit_chain.py:101-156 | On any store laid out as a tree the audit is silent exactly when every branch continues the chain it inherits. |
| `Audit.EveryStoreAuditsClean` | harness/audit_chain.py:101-156 | After any requests the audit has nothing to report. |
| `Migration.RehashBranch` | harness/store/schema.py:256-279 | Rows of one branch are rehashed in place into a chain from the given start; other rows stay. |
| `Migration.MigrateV3` | harness/store/schema.py:205-282 | From any store laid out as a tree every fork hash is found, no record changes, and the result is sound. |
| `Migration.HashesAreDetermined` | harness/store/schema.py:205-282 | Branches and records leave no choice of hashes. |
| `Migration.MigrateBack` | harness/store/schema.py:205-282 | A store that lost its hashes gets back exactly those that appending gave it. |
| `View.RenderHistory` | harness/context.py:181-317 | The loop renders what `Rendered` defines: blocks, faults, dropped events. |
| `View.FlushBatch` | harness/context.py:191-241 | A batch becomes blocks as a whole or is dropped as a whole. |
| `View.RenderingConservesEvents` | harness/context.py:188-317 | With call ids used once, each event ends in exactly one block or in the dropped list. |
| `View.RenderedBatchesAreWhole` | harness/context.py:191-241 | Every block of calls is followed by one result block a call, in the calls' order, and no result stands elsewhere. |
| `View.RenderingIsIncremental` | harness/context.py:243-317 | A log continued by an agent or user message renders as before with the rest behind it: blocks, faults and drops. |
| `Compaction.IterGroups` | harness/compaction.py:61-71 | Turns are split at agent and user messages. |
| `Compaction.GroupsAreTheTree` | harness/compaction.py:61-71 | Put back together the turns are the tree events, in order. |
| `Compaction.Compact` | harness/compaction.py:130-212 | What is replaced, or why nothing is. |
| `Compaction.KeptIsLive` | harness/context.py:99-118 | When only whole turns are gone, a view is rendered from exactly the turns left. |
| `LoopRuns.VictimsAreFreshWholeTurns` | harness/compaction.py:133-148 | A compaction takes whole turns, never the first, and nothing taken before. |
| `LoopRuns.CompactingTwiceIsOnce` | harness/compaction.py:133-148 | Compacting again without a new turn does nothing, whatever number of turns is to be kept. |
| `Turns.ViewIsFaultless` | harness/context.py:86-160 | A view of a clean log at rest, compacted or not, has no fault and drops nothing. |
| `LoopRuns.EveryLoopViewIsFaultless` | harness/loop.py:302-364 | Over any run of the loop with compactions, decisions and kills, compactions have taken whole turns and never the first; and whenever no call is open the view is faultless and shows each event left exactly once. |
| `Cache.PrefixCacheModel.Fetch` | harness/cache.py:56-103 | A request is priced against the entry of its model and replaces it; each is a hit or a miss. |
| `Cache.TokensAreCountedOnce` | harness/cache.py:79-103 | Read, written and uncached tokens add up to the request; what is read is long enough to be kept. |
| `Cache.LoopReadsItsEarlierHistory` | harness/cache.py:56-103 | For any two requests of the loop: without compaction and with changing data at the end, the later one, in time, reads the prefix and all history of the earlier one once that is long enough. |
| `AgentLoop.Loop.BuildView` | harness/loop.py:302-364 | A view is built of a log at rest and is faultless; the log behind every earlier view goes on from there with a message, over steps, kills and resumptions. |
| `Cache.ChangingHeadReadsNothing` | harness/context.py:162-172 | With changing data at the head it reads nothing. |
| `Tokens.EstimateGrowsWithTheText` | harness/tokens.py:34-40 | The estimate grows with the text, by at most one token a character, and lies between a quarter of the length and the length. |
| `AgentLoop.Loop.Start` | harness/loop.py:176-198 | A run starts on an empty branch only; however it ends, the log is in order, every effect is justified, with the outbox on no key has two, and no view was faulty. |
| `AgentLoop.Loop.Resume` | harness/loop.py:200-224 | A run is picked up from its log after any kill: a finished or waiting one is left as it is; the checkpoint never points past the log; with registered tools and truthful read-backs all that a start keeps is kept. |
| `AgentLoop.Loop.Drive` | harness/loop.py:255-298 | Driving ends in a finished run, one that waits, or one at rest, and reports the log's own status. |
| `AgentLoop.Loop.OneStep` | harness/loop.py:261-293 | One super-step leaves someone being asked, the run ended, or nothing open. |
| `AgentLoop.Loop.CallModel` | harness/loop.py:302-349 | The model is asked at most twice; a fatal error ends the run; otherwise nothing is open. |
| `AgentLoop.TurnsReuseNoOpenId` | harness/loop.py:268-283 | At rest an id that the model proposes is new or answered: it is driven for no other tool and no other request, and no read-back is asked about it. |
| `AgentLoop.Loop.Commit` | harness/loop.py:413-448 | Writes first, then the snapshot of the log's status and end. |
| `AgentLoop.Loop.CheckpointCrossCheck` | harness/loop.py:390-411 | The check fires exactly when the latest checkpoint of the branch points past its log. |
| `AgentLoop.Loop.Approve` | harness/loop.py:226-251 | The log a decision leaves behind is clean exactly when the run had not ended and the decision was safe; then the gate is open, and the invariants hold at every kill. |
| `Checkpoints.ClassifyWrites` | harness/store/checkpoints.py:268-283 | The loop computes `Classified`. |
| `Checkpoints.TaskIsItsGravestWrite` | harness/store/checkpoints.py:268-286 | A task counts as the gravest thing it wrote, whatever the order. |
| `Checkpoints.SqliteCheckpointSaver.PutWrites` | harness/store/checkpoints.py:143-175 | Writes are upserted by checkpoint, task and index. |
| `Checkpoints.UpsertAgain` | harness/store/checkpoints.py:143-175 | Writing the same row again changes nothing. |
| `Checkpoints.SqliteCheckpointSaver.PlanRecovery` | harness/store/checkpoints.py:202-232 | The plan holds the checkpoint, its classified tasks, and the writes of the completed ones. |
| `Checkpoints.UncommittedWritesAreInvisible` | harness/store/checkpoints.py:143-232 | Writes of a super-step that was never committed change no recovery plan of any thread. |
| `Checkpoints.CommitIsLatestUnlessTheClockWentBack` | harness/store/checkpoints.py:190-200 | A commit is what recovery starts from exactly when no earlier one bears a later time. |
| `Tracing.BuildTrace` | harness/trace.py:165-333 | The loop builds the children `TraceOf` defines. |
| `Tracing.OneSpanEach` | harness/trace.py:183-315 | Each message of the model, call, interrupt, compaction and error yields one span, in order, and nothing else does. |
| `Tracing.AgreeThroughoutExactlyWhenNamed` | harness/trace.py:205-256 | On a clean log trace and reducer agree after every event, on which calls are open and which approval pends, exactly when each interrupt has an id of its own and each resume names the interrupt it answers. |
| `Tracing.OneSpanACall` | harness/trace.py:205-229 | On any clean log each open call has one span, no two calls share one, and it is unended exactly when the call is open. |
| `Tracing.EveryTraceAgrees` | harness/trace.py:165-333 | After any run, killed anywhere, trace and reducer agree, and so they did after every event. |
| `Oracle.CheckClosedCalls` | opsenv/oracle.py:192-235 | Calls with a closed row and no result in the log. |
| `Oracle.ClosedCallsCheckIsSilent` | opsenv/oracle.py:192-235 | After any run, killed anywhere, there are none. |
| `Oracle.CheckEffectAccounting` | opsenv/oracle.py:238-317 | Keys with several effects and no row that says unknown. |
| `Oracle.AccountingMeans` | opsenv/oracle.py:295-316 | The check is silent exactly when every repeated effect is owned up to. |
| `Oracle.AccountingIsSilentWithOutbox` | opsenv/oracle.py:238-317 | With the outbox on it is silent after any run. |
| `Oracle.CheckNoTamper` | opsenv/oracle.py:137-189 | The loop finds the branches not numbered from 0 and the event ids that occur twice. |
| `Oracle.NoTamperCheckIsForRootBranches` | opsenv/oracle.py:137-189 | On an untouched store no id occurs twice, and no branch is reported exactly when none that inherits events has events of its own. |
| `Artifacts.ArtifactStore.Put` | harness/artifacts.py:42-55 | Content is filed under its hash; filing it again changes nothing. |
| `Artifacts.ReadArtifact` | harness/artifacts.py:121-138 | A page of stored content, or none for an unknown hash. |
| `Artifacts.TrimToBudget` | harness/artifacts.py:109-119 | Shrinking in proportion, at most eight times. |
| `Artifacts.PageAdvancesExactlyWhenSliceHolds` | harness/artifacts.py:121-138 | Inside the content a page moves on exactly when something was asked for, or when the limit is so far below zero that it passes the content's start but not its length. |
| `Artifacts.NegativeLimitCountsFromTheEnd` | harness/artifacts.py:66-76 | Such a limit is counted from the end, for every content: the slice runs from the offset to that point, and the page holds what of it fits. |
| `Artifacts.ReadAll` | harness/artifacts.py:121-138 | Following the next offset from the start, with any positive limits, rebuilds the content in at most one read a character. |

## Left out

- Tables.World.Apply: timestamps and generated ids of effects are not modelled.
- Executor.ToolExecutor.Execute: the hook that runs before execution may swap the arguments only, not the tool or the call id; counters for reports are not kept.
- Tables.ToolCallStore.Record: unique by key only; that a call id taken under another key is refused with an error is stated in `TwoBranches`, where it can happen, and what the executor does with that error is left out.
- Store.SqliteStore.AppendMany: the runs table and its foreign keys, trace and span ids, and the guard on the schema are left out; a transaction is one atomic step.
- Migration.MigrateV3: dropping and recreating triggers, and the rollback of a migration that fails, are left out.
- Audit.RunAudit: the memo of the depth function is left out; it can only change the order of findings on a lineage with a cycle.
- View.RenderHistory: a block's text is a function of the events it shows; how long results are replaced by references is left out.
- Compaction.Compact: token counts before and after are inputs; the summary text and its artifact are left out.
- Cache.PrefixCacheModel.Fetch: prices and the accounting of costs are left out.
- AgentLoop.Loop.CallModel: whether a view nearly fills the window is an input; usage and cost counters are left out.
- AgentLoop.Loop.Commit: a kill between writes and snapshot is not a step of the loop here; `Checkpoints.UncommittedWritesAreInvisible` covers what it leaves behind.
- AgentLoop.Loop.Resume: asks that the tools of open calls are still registered; driving an open call of any other breaks the log, as `Boundaries.UnregisteredIsSafeExactlyWhenNew` says.
- Checkpoints.SqliteCheckpointSaver.PlanRecovery: writes come in the order they were stored, not ordered by task and index; the sequence number to resume from is left out.
- Tracing.BuildTrace: of a span's attributes only status, pending and decision are kept; spent budget and the export formats are left out.
- Artifacts.ReadArtifact: content is read back as it was filed. The source reads text, which turns carriage returns into newlines; what the runtime files is JSON, which has none.
- Artifacts.TrimToBudget: that a trimmed text fits the budget is not claimed; eight rounds of a proportional cut need not reach it. The quotient is exact where the source divides floating-point numbers.
- JSON values nested in arguments are kept as their canonical text; definition checks of argument policies are left out.
- SQLite itself, leases, cassettes, budgets, artifact garbage collection, the tool-protocol server, live transport, the command lines, scenarios and reports are left out.
