# A verified model of the DAGE runtime core

DAGE runs workflows: directed graphs of nodes whose executors may be synchronous or
asynchronous, may have external effects, and may be interrupted, checkpointed and
restored by another engine. This project models the parts of the runtime where
correctness depends on many operations at once, and proves what they promise.
`dafny verify dfyconfig.toml` checks everything.

Each mutex-protected section of the C++ code is one atomic step. Concurrent parts are
state machines over those steps, and their theorems quantify over every history of
steps. Parts that update objects in place are classes or methods with loops, each proved
equal to a specification function; the theorems are about those functions.

| file | what it models |
|---|---|
| `StateStore.dfy`, `Fencing.dfy` | versioned records, claims, and any number of engines creating, persisting, crashing and restoring one run id |
| `EffectFence.dfy` | the prepare/commit fence of one external-write node on top of that machine |
| `AsyncRun.dfy` | one asynchronous run: completions, timeouts, retry timers, cancellation and re-drives |
| `ParallelNode.dfy` | a parallel node: batches, completion order, wake-up |
| `Continuations.dfy` | runs that mix asynchronous, parallel and subflow nodes over several registrations: closures, wake-ups, callbacks |
| `RunBudget.dfy` | activations, executor starts and termination of every drive |
| `DriveLoop.dfy`, `Replay.dfy` | the drive loop as a run visits nodes, its trace, and replay from the trace |
| `CycleValidator.dfy` | the depth-first cycle check of workflow validation |
| `WorkflowPatch.dfy` | loading, patching and un-patching workflow documents |
| `SemVer.dfy`, `BundleResolver.dfy`, `ResolveFailures.dfy` | version texts, constraints, dependency resolution and locks, and why a resolution fails |
| `ResourceLease.dfy` | the fair multi-resource lease provider |
| `ThreadPool.dfy`, `TraceSink.dfy` | the two bounded queues with their condition variables |
| `RecordCodec.dfy` | the DAGESTATE1 record format and the file store |
| `CanonicalJson.dfy`, `JsonReader.dfy` | the canonical JSON encoder, and a reader by RFC 8259 that gives its texts their meaning |
| `Base.dfy`, `Decimal.dfy`, `Json.dfy` | shared types, decimal text, JSON values |

Strings are sequences of characters that stand for bytes. SHA-256, signature
verification, template and condition evaluation, workflow validation and compilation
are parameters: functions or predicates about which only the stated hypotheses are used.
Executors, timers, schedulers and clocks are choices of the environment.

## Where the code and its documentation differ

The model follows the code. These are proved, each with a concrete history or input and,
where the property is partly true, with the condition under which it holds.

- A restore claims the stored record before it knows that it can continue. A crash after
  the claim, or the refusal of an in-flight node, leaves a record whose checkpoint names an
  older version than the record has, and then no restore of that run id ever succeeds again
  (`Fencing.StrandedForEver`, `Fencing.StrandingHappens`). Recovery from the store is
  therefore only promised as long as no claim is followed by a crash before the next persist.
- Fencing is only as good as the checkpoints used: restoring a checkpoint of any positive
  version that came from elsewhere into an empty store ends with two live runs that both hold
  the record (`Fencing.ForeignCheckpointBreaksFencing`).
- A node whose effect record became unknown is prepared and started again, so at-most-once
  means at most one start more than the number of times that happened
  (`EffectFence.AtMostOnce`, `EffectFence.UnknownRestarts`).
- An asynchronous external write that may not be repeated can never commit: its own
  continuation is stopped by the prepared fence, and a success reported by its executor is
  lost (`EffectFence.AsyncUnrepeatableNeverCommits`, `EffectFence.CommittedSuccessIsLost`).
  Every other successful node commits (`EffectFence.CommitIsRecorded`).
- A wake-up can be lost. A caller that registers again while a drive of its previous
  registration is left may wait for ever: that drive is seen at work, so the completion
  submits nothing, and its own closure has been emptied, so its submission is refused
  (`Continuations.WakeupIsLost`). Exactly such a submission loses a result, and exactly a
  cancellation finds it again (`Continuations.KnownExactly`).
- A callback can be called twice: a cancellation between the two sections of `execute_async`
  can deliver it and empty the closure, and the refused first submission calls it again
  (`Continuations.CalledTwice`, `Continuations.CallsExactly`). Callers that register once, or
  only when nothing of the previous registration is left, and cancel only after
  `execute_async` has returned, meet neither (`Continuations.CarefulCallers`).
- Exceeding `max_hits` sets a result that the next node's visit discards, so it does not
  stop a run (`DriveLoop.MaxHitsDoesNotStop`); when it is reported at all is stated exactly
  (`DriveLoop.MaxHitsIsReported`). A declared loop stops unless an edge of it names its own
  target in `on_exhausted` (`DriveLoop.LoopsAreBounded`, `DriveLoop.OwnTargetNeverStops`).
  Every drive ends by its step limit (`RunBudget.DrivesEnd`).
- The cycle check is stricter than its comment: it can reject a workflow in which every
  cycle has a bounded edge (`CycleValidator.BoundedCycleCanBeRejected`); what it accepts is
  stated exactly (`CycleValidator.AcceptsExactly`).
- Loading a workflow inserts a null `defaults` member when some node needs one and there is
  none, and the inverse patch does not remove it. The inverse restores the digest exactly
  when the base declares `defaults` or every node of the patched document has its own
  timeout and retry (`WorkflowPatch.RestoredIsBase`, `WorkflowPatch.InverseCanLeaveDefaults`).
- A lease whose deadline does not fit 64 bits is born expired; every other grant and renewal
  lives for its ttl (`ResourceLease.LivesForItsTtl`).
- A record whose owner contains a newline does not survive the record format
  (`RecordCodec.RoundTrip` is an equivalence); recovery owners never contain one.
- A lock made from a root bundle without a version text is refused when it is read back
  (`BundleResolver.LockReproduces`).

## Model

| member | source | states |
|---|---|---|
| StateStore.OneWinnerPerVersion | src/reliability.cpp:159-170 | of any two exchanges or claims, by any owners, that name the same expected version, the second is refused and changes nothing |
| StateStore.RecordTellsHistory | src/reliability.cpp:159-170 | over any attempts on a slot: the version counts the moves that won, the epoch the claims, the owner is the last claimant, the checkpoint the last one written, and exactly the attempts naming the current version win |
| StateStore.MemoryStateStore.Load | src/reliability.cpp:154-158 | returns the stored record or the not-found error |
| StateStore.MemoryStateStore.Put | src/reliability.cpp:141-145 | an empty id is refused; otherwise one more version of that record, other records untouched |
| StateStore.MemoryStateStore.CompareAndSet | src/reliability.cpp:159-164 | the slot changes exactly as the pure compare-exchange says, a refused exchange included; other slots untouched |
| StateStore.MemoryStateStore.Recover | src/reliability.cpp:165-170 | the slot changes exactly as the pure claim says: version and epoch rise, the checkpoint stays |
| Fencing.PersistKeepsInv | src/dage.cpp:1908-1911 | a persist by any live run, accepted or refused, keeps the fencing invariant |
| Fencing.RecoverKeepsInv | src/dage.cpp:2109-2121 | a restore, accepted, refused or crashing after its claim, keeps the fencing invariant |
| Fencing.AtMostOneHolder | src/dage.cpp:1392-1395 | in every history no live run is ahead of the record, and once the version is positive at most one can persist |
| Fencing.VersionsNeverFall | src/reliability.cpp:159-170 | the log of accepted writes and claims, one entry per version, only grows and is never rewritten |
| Fencing.SupersededForEver | src/dage.cpp:1908-1911 | once another run has moved the record on, every later persist of the superseded run fails |
| Fencing.OneRestorePerCheckpoint | src/dage.cpp:2109-2121 | over a whole history at most one restore of a given checkpoint succeeds |
| Fencing.OneChain | src/dage.cpp:1908-1911 | the writes and claims of all engines form one chain, one entry per version; a write follows an entry of the same run, a claim brings a new run |
| Fencing.RestoresTheNewest | src/dage.cpp:2109-2121 | of the store's own checkpoints exactly the newest entry, if it is a write, can be claimed, and it is the stored one |
| Fencing.StrandedForEver | src/dage.cpp:2109-2133 | after a claim whose run is gone without a persist, nothing is ever written or claimed again under that run id |
| Fencing.StrandingHappens | src/dage.cpp:2109-2133 | a history in which that happens |
| Fencing.SucceedsMeansAnswered | src/reliability.cpp:159-170 | a persist or claim is answered with success exactly when the fencing machine lets it through |
| Fencing.RestoreExactly | src/dage.cpp:2109-2121 | a restore claims the record exactly when the checkpoint's version is stored, and its run holds the claimed version unless the restore throws |
| Fencing.PersistExactly | src/dage.cpp:1908-1911 | a persist by the holder writes the next version and its checkpoint, any other changes neither record nor log |
| Fencing.ForeignCheckpointBreaksFencing | src/dage.cpp:2109-2121 | for every positive version, a history with a foreign checkpoint of that version and an empty store that ends with two holders |
| EffectFence.EventKeepsInv | src/dage.cpp:1367-1406 | visits, returns, saves, crashes and restores keep the node's fence and commit knowledge |
| EffectFence.VisitExactly | src/dage.cpp:1367-1399 | a visit gets to a start if and only if the record is open, or prepared and repeatable, and the prepared record could be stored |
| EffectFence.ReturnExactly | src/dage.cpp:1612-1681 | the record a returned attempt leaves, and when the next attempt starts, for every answer of the executor |
| EffectFence.LifeExactly | src/dage.cpp:1908-1911 | what creating, crashing and saving do to the node's record, in the run and in the store |
| EffectFence.RestoreExactly | src/dage.cpp:2109-2131 | a restore yields a run if and only if the record is missing or has the checkpoint's version and no node in flight forbids replay; the record is claimed either way |
| EffectFence.InFlightIsRefused | src/dage.cpp:2126-2131 | a history in which a crashed run with such a node cannot be restored |
| EffectFence.StartsAreFenced | src/dage.cpp:1388-1399 | whenever an attempt starts, first or retry, that run has itself persisted a prepared record for the node |
| EffectFence.CommittedForEver | src/dage.cpp:1668-1681 | a stored committed record stays through every crash and restore, and nobody prepares the node again |
| EffectFence.AtMostOnce | src/dage.cpp:1381-1398 | all engines together start an unrepeatable node at most once more than its record became unknown |
| EffectFence.UnknownRestarts | src/dage.cpp:1381-1398 | a history in which an unknown record leads to a second start, so the bound is met |
| EffectFence.AsyncUnrepeatableNeverCommits | src/dage.cpp:1383-1387 | an asynchronous unrepeatable node is never committed in any history |
| EffectFence.CommitIsRecorded | src/dage.cpp:1668-1681 | a returned success marks the node committed if and only if it is not both asynchronous and unrepeatable, and the accepted save then stores that |
| EffectFence.CommittedSuccessIsLost | src/dage.cpp:1383-1387 | a history in which an asynchronous unrepeatable executor succeeds and the record stays prepared |
| AsyncRun.ActionKeepsInv | src/dage.cpp:1330-1346 | every locked section of completion, timers, cancellation and drive keeps generation fence and callback books |
| AsyncRun.WrittenAtMostOnce | src/dage.cpp:1579-1604 | each asynchronous generation's result is written at most once |
| AsyncRun.ResultsAreGenuine | src/dage.cpp:1579-1604 | in every history a ready result is a value completed for the awaited generation, a timeout of an executor started with one, or a retry of an attempt that was put off |
| AsyncRun.FirstWakerDecides | src/dage.cpp:1579-1604 | the first section to run for the awaited generation leaves its own outcome, a completion the value its executor completed with |
| AsyncRun.LateWakersAreIgnored | src/dage.cpp:1579-1604 | a completion or timer of an older generation, or after the result is there, changes nothing a drive can see |
| AsyncRun.CallbackAtMostOnce | src/dage.cpp:1957-1971 | as long as submissions are accepted, the run callback is delivered at most once per execute_async |
| AsyncRun.NoLostWakeup | src/dage.cpp:1942-1956 | a ready result always has a drive that will look at it, a run without a drive sleeps on a generation that has a waker, there is never a second drive, a cancelled run has a thread that will deliver |
| ParallelNode.RefinesFold | src/dage.cpp:1728-1822 | for fixed branch outcomes and every completion order, the launched branches and the verdict are those of a sequential batch-by-batch fold |
| ParallelNode.VerdictMeans | src/dage.cpp:1739-1826 | on the branch outcomes alone: when a finished node is satisfied for all, any and min_success with wait and fast, which batches it launched, and what it counted |
| ParallelNode.NeverStuck | src/dage.cpp:1728-1816 | an unfinished node always has a step to take |
| ParallelNode.EveryNodeFinishes | src/dage.cpp:1728-1822 | from every history every scheduler brings the node to a verdict |
| ParallelNode.BoundedInFlight | src/dage.cpp:1757-1792 | never more than max_parallel children in flight |
| ParallelNode.EachBranchOnce | src/dage.cpp:1762-1811 | every launched branch is in flight, reported or counted, exactly one of them and once; all are counted when the node finishes |
| ParallelNode.BatchWakeupKept | src/dage.cpp:1799-1816 | a finished batch always has a drive, queued, waiting for the drive mutex, at work or closing, that will harvest it |
| ParallelNode.OrderDoesNotMatter | src/dage.cpp:1739-1752 | the success and failure counts of a batch do not depend on the order of completion |
| Continuations.ActionKeepsInv | src/dage.cpp:1940-1971 | every locked section keeps: one drive holds the drive mutex, a set `driving` has a drive before its closing section, an awaited run has a closure to resume |
| Continuations.KnowledgeStep | src/dage.cpp:1945-1956 | one action forgets a known ready result exactly if a drive submits its emptied closure and nobody else knows of it; a forgotten one is found again exactly by a cancellation |
| Continuations.KnownExactly | src/dage.cpp:1945-1971 | in every history a ready asynchronous, batch or subflow result is known to some drive or thread if and only if each submission that lost it was followed by a cancellation |
| Continuations.WakeupIsLost | src/dage.cpp:1954-1970 | a history with two registrations after which the result is ready, the callback awaited, no drive left and only a cancellation possible |
| Continuations.CallsExactly | src/dage.cpp:1957-1986 | a registration's callback is called once when it is over, once more if its first submission was refused, once less if an earlier refusal dropped it |
| Continuations.CalledTwice | src/dage.cpp:1973-1986 | a history in which a cancellation during execute_async makes the callback fire twice |
| Continuations.CarefulCallers | src/dage.cpp:1930-1987 | callers that register only in a quiet run and cancel only after execute_async returned lose no wake-up, and each callback is called exactly once |
| Continuations.OnceIsCareful | src/dage.cpp:1930-1938 | a caller that registers once is such a caller |
| RunBudget.WorkIsBounded | src/dage.cpp:1334-1350 | over any calls on one created run: at most max_steps fresh activations and at most max_steps plus retry_budget executor starts |
| RunBudget.StartsAreNumbered | src/dage.cpp:1484-1521 | every start is attempt 1 of a fresh activation or the next attempt of the same node, never beyond max_attempts, and a node with a pending attempt is not activated afresh |
| RunBudget.BoundIsTight | src/dage.cpp:1612-1616 | some history attains the bound on starts if and only if the attempts some node allows, over all steps, can spend the retry budget |
| RunBudget.StepLowersMeasure | src/dage.cpp:1484-1521 | every step other than a new call lowers a natural number |
| RunBudget.DrivesEnd | src/dage.cpp:1327-1350 | between two calls the run takes at most as many steps as its measure says |
| DriveLoop.FindEdge | src/dage.cpp:1873-1885 | the edge loop returns the first enabled matching edge and the number of events it emitted |
| DriveLoop.FirstMatch | src/dage.cpp:1873-1885 | the chosen edge has an enabled target and a true condition, and no edge before it has both |
| DriveLoop.RunState.FinishVisit | src/dage.cpp:1844-1926 | recording a result, choosing the edge, counters and completion, in place, equal the specified visit, and the event count is exact |
| DriveLoop.OutcomeIsRecorded | src/dage.cpp:1844-1854 | what a visit records: the output of a success that fits, or the fault and its node, an output too large being a fault |
| DriveLoop.FailureFollowsOnError | src/dage.cpp:1865-1901 | a failed node is left by the first usable on_error edge, with its target, counters, state and result, and without one the run ends with that failure |
| DriveLoop.SuccessFollowsNext | src/dage.cpp:1864-1901 | a node that succeeded is left by the first usable next edge in the same way, and an end node ends the run with its input |
| DriveLoop.EdgeEventsMean | src/dage.cpp:1875-1889 | one evaluation event for each enabled edge tried, then one selection event if an edge was taken |
| DriveLoop.VisitEventsMean | src/dage.cpp:1844-1925 | the events of a visit: start, input, the result with its payload, and completion last |
| DriveLoop.RunState.MoveOn | src/dage.cpp:1871-1901 | leaving by the first matching edge updates state, counters and current node as specified |
| DriveLoop.RunState.TakeChosen | src/dage.cpp:1886-1901 | taking an edge: set values, loop counter with its exhausted target, hit counter, pending failure |
| DriveLoop.StepsAreCounted | src/dage.cpp:1350-1350 | the i-th visit of a history has step i, and there are at most max_steps |
| DriveLoop.EachNodeOnce | src/dage.cpp:1870-1901 | an accepted workflow without loop and max_hits edges visits each node at most once in every run |
| DriveLoop.PassesExactly | src/dage.cpp:1893-1896 | a visit that leaves by a loop's edge reaches the edge's target if and only if iterations remain or on_exhausted names that target |
| DriveLoop.LoopsAreBounded | src/dage.cpp:1893-1896 | over a whole run the edges of a loop lead to their targets at most max_iterations times, if none names its own target in on_exhausted |
| DriveLoop.OwnTargetNeverStops | src/dage.cpp:1893-1896 | for every max_iterations and max_steps, an accepted workflow whose loop names its own target and a run that goes round until max_steps |
| DriveLoop.MaxHitsIsReported | src/dage.cpp:1897-1900 | a run ends with MAX_HITS if and only if the chosen edge's loop is used up and leads nowhere and that way out was hit more than max_hits times |
| DriveLoop.MaxHitsDoesNotStop | src/dage.cpp:1897-1900 | for every max_hits and max_steps, an accepted workflow and a run that visits the limited edge's target until max_steps, with the counter at the number of visits |
| CycleValidator.Validator.Dfs | src/dage.cpp:852-859 | the recursive search adds exactly the specified diagnostics and restores its path |
| CycleValidator.Validator.Check | src/dage.cpp:851-859 | diagnostics are empty exactly when the graph is clean from its entry |
| CycleValidator.AcceptsExactly | src/dage.cpp:852-859 | no diagnostic if and only if along every simple walk from the entry each edge back onto the walk is bounded |
| CycleValidator.EveryCycleIsBounded | src/dage.cpp:851-859 | in an accepted workflow every cycle reachable from the entry has an edge with loop or max_hits |
| CycleValidator.FreeRunsNeverRepeat | src/dage.cpp:851-859 | walks along unbounded edges of an accepted workflow never repeat a node |
| CycleValidator.BoundedCycleCanBeRejected | src/dage.cpp:851-859 | a rejected workflow in which every cycle has a bounded edge |
| Replay.PrepareTraceReplay | src/dage.cpp:568-629 | the reading loop equals the specified reader on every event list, error cases included |
| Replay.AcceptedExactly | src/dage.cpp:575-629 | a trace is accepted with a plan if and only if its first run_started fits, no later event of the trace is wrong and the run was completed; the plan is what the events say |
| Replay.StartIsChecked | src/dage.cpp:577-586 | which error answers a first run_started with another schema, workflow or bundle, or without input |
| Replay.FirstErrorIsTheAnswer | src/dage.cpp:590-625 | otherwise the answer is what is wrong with the first wrong event: no start, sequence, gap, invocation or payload |
| Replay.FailureStays | src/dage.cpp:575-625 | the first error found in a trace is the answer, whatever follows |
| Replay.AcceptedIsContiguous | src/dage.cpp:590-597 | in an accepted trace consecutive events of the traced run carry consecutive sequence numbers |
| Replay.ReplayRun.TakeOutcome | src/dage.cpp:1450-1456 | an executor node takes the oldest recorded outcome of its invocation, a missing one is the replay error, other nodes return their input |
| Replay.RecallAnswers | src/dage.cpp:1450-1456 | what stands in for an executor, by queue key: the oldest outcome, or the replay error when none is left |
| Replay.ReplayRun.TakeTurn | src/dage.cpp:1327-1350 | one turn of a replay run in place: the checks in order, then a whole visit |
| Replay.ReplayRun.Loop | src/dage.cpp:1327-1926 | the loop takes turns in place until one halts; the visited nodes and the ending are those of the specified drive |
| Replay.Execute | src/dage.cpp:2059-2069 | creating a replay run from a plan's outcomes and executing it gives the specified replay |
| Replay.QueueIsRecordedOrder | src/dage.cpp:2065-2067 | each node's queue holds its recorded outcomes in trace order |
| Replay.TraceIsAccepted | src/dage.cpp:568-629 | the full trace of any completed run is accepted; the plan holds the executor outcomes in order and the final result |
| Replay.ReplaySimulates | src/dage.cpp:2059-2069 | a replay run from that plan visits the same nodes in the same order and ends with the same result, the plan's expected one |
| WorkflowPatch.NormalizeTwice | src/dage.cpp:866-879 | a loaded document is normal: loading it again changes nothing |
| WorkflowPatch.NormalizeNodeFills | src/dage.cpp:870-877 | each of name, enabled, effects, timeout and retry is the node's own or exactly what load supplies |
| WorkflowPatch.EffectsByType | src/dage.cpp:871-875 | the effects a node without declared ones gets for each type |
| WorkflowPatch.Apply | src/dage.cpp:893-962 | the loop over the changes equals the specified patch on every document and patch, error cases included |
| WorkflowPatch.PatchIsChecked | src/dage.cpp:897-909 | which error answers a patch for another digest or revision or without changes, in the order of the checks |
| WorkflowPatch.RevisionMeans | src/dage.cpp:901-901 | the revision a document declares, in every JSON form |
| WorkflowPatch.RevisionRises | src/dage.cpp:960-960 | an applied patch raises the revision by one on 64 bits |
| WorkflowPatch.ChangesWrite | src/dage.cpp:920-941 | what each change of one node writes, and its error without that node or field |
| WorkflowPatch.WholeNodesAnswer | src/dage.cpp:918-922 | what add, replace, remove and set_entry answer, and that every other change needs a node id |
| WorkflowPatch.InsertAnswers | src/dage.cpp:942-949 | where insert_next puts the edge, and its error for every form of index |
| WorkflowPatch.RemoveAnswers | src/dage.cpp:950-957 | which edge remove_next takes, and its error for every form of index |
| WorkflowPatch.RenameAnswers | src/dage.cpp:923-935 | a rename succeeds if and only if the new id is given and free, the old one known, and every reference a scalar |
| WorkflowPatch.ChangesKeepTop | src/dage.cpp:909-959 | no sequence of changes touches a top-level member other than the entry |
| WorkflowPatch.ChangeKeepsOtherNodes | src/dage.cpp:919-958 | a change other than a rename leaves every other node alone |
| WorkflowPatch.RenameLeavesNoReference | src/dage.cpp:923-935 | after a rename nothing refers to the old id: entry, next, on_error, join and branches of every node; the node has the new id |
| WorkflowPatch.RenameMovesReferences | src/dage.cpp:923-935 | after a rename every reference to the old id names the new one, in entry, next, on_error, join and branches, and nothing else changed |
| WorkflowPatch.ScalarsHaveText | src/dage.cpp:504-513 | the text a scalar reference is compared by, and that arrays and objects have none |
| WorkflowPatch.InsertThenRemove | src/dage.cpp:942-957 | removing the edge inserted at a place gives back the list of edges |
| WorkflowPatch.BuildInverse | src/dage.cpp:1028-1048 | the collected inverse is the specified one, over the union of node names in key order |
| WorkflowPatch.UndoApplies | src/dage.cpp:1031-1048 | applied to the candidate, the inverse changes give back entry and nodes of the base, or fail exactly when the base entry is no node of the candidate |
| WorkflowPatch.NothingChanged | src/dage.cpp:1031-1047 | the inverse has no change exactly when entry and nodes are equal |
| WorkflowPatch.InversePatch | src/dage.cpp:1019-1048 | the result of applying the inverse patch in every case: nothing to undo, entry not settable, restored document, restored document invalid |
| WorkflowPatch.RestoredIsBase | src/ir.cpp:130-134 | the restored document equals the base apart from its revision, hence has its digest, exactly under the stated condition on defaults |
| WorkflowPatch.InverseCanLeaveDefaults | src/dage.cpp:866-879 | a workflow with both format members and an end node, and a patch that adds another, whose undoing changes what is digested |
| SemVer.VersionsRoundTrip | src/bundle_resolver.cpp:49-54 | every version whose numbers fit an int is read back from its text |
| SemVer.VersionForms | src/bundle_resolver.cpp:49-54 | which texts with three numerals are read as a version and as which, signs, white space, range and trailing text included |
| SemVer.CompareIsTotalOrder | src/bundle_resolver.cpp:55-59 | comparison is antisymmetric, transitive and zero only on equal versions |
| SemVer.CaretRange | src/bundle_resolver.cpp:62-66 | a caret range holds the versions from its base that agree up to the first non-zero part |
| SemVer.OperatorMeaning | src/bundle_resolver.cpp:60-71 | each operator sign before a version text means its comparison, no sign means equality |
| SemVer.AtomsMean | src/bundle_resolver.cpp:60-71 | what every form of atom admits, on major, minor and patch |
| SemVer.UnreadableAtoms | src/bundle_resolver.cpp:60-71 | an atom whose text is no version is never met, with any sign and without one |
| SemVer.WordsMean | src/bundle_resolver.cpp:72-75 | a constraint is cut at white space and nowhere else |
| SemVer.CheckSatisfies | src/bundle_resolver.cpp:72-75 | true exactly when the version parses, there is an atom, and all atoms hold |
| SemVer.SelectBest | src/bundle_resolver.cpp:313-316 | the selection loop returns the specified choice |
| SemVer.ChosenIsHighest | src/bundle_resolver.cpp:313-316 | if any candidate is compatible one is chosen, it is compatible, and none is higher |
| BundleResolver.Resolver.VisitBundle | src/bundle_resolver.cpp:292-325 | one visit changes selected, active, bundles and order in place as specified, or reports the specified error |
| BundleResolver.Resolver.VisitDependency | src/bundle_resolver.cpp:303-323 | the same for one dependency: cycle, conflict, lock, choice, identity check, nested visit |
| BundleResolver.ResolveBundle | src/bundle_resolver.cpp:282-334 | the whole resolution equals its specification, lock parsing included |
| BundleResolver.Visit | src/bundle_resolver.cpp:291-326 | terminates for every repository, and never forgets a selection |
| BundleResolver.ResolvedGraphIsSorted | src/bundle_resolver.cpp:291-326 | one bundle per id, the order lists each once, dependencies first and root last, every constraint of every dependent satisfied |
| BundleResolver.ResolvedGraphHasNoCycle | src/bundle_resolver.cpp:291-326 | no chain of dependencies leads back to its start |
| BundleResolver.LockReproduces | src/bundle_resolver.cpp:282-334 | Frozen resolution with the lock of a Development resolution gives the same bundles, order and lock, exactly when the root has a version text |
| BundleResolver.LockIsEnforced | src/bundle_resolver.cpp:296-299 | every bundle of a locked resolution has the locked version and digest, and outside Frozen is trusted |
| BundleResolver.VerifiedIsFrozenAndTrusted | src/bundle_resolver.cpp:299-299 | Verified accepts what Frozen accepts, with the same graph, exactly when every bundle is trusted |
| ResolveFailures.FetchAnswers | src/bundle_resolver.cpp:309-323 | a dependency is fetched as the bundle held under the locked or highest compatible version, or the error says why there is none |
| ResolveFailures.FailuresHaveCauses | src/bundle_resolver.cpp:282-325 | every failed resolution has a cause in the lock text or at the end of a chain of dependencies from the root |
| ResolveFailures.LockedExactly | src/bundle_resolver.cpp:282-325 | with a lock a resolution succeeds if and only if the lock is well formed and nothing reached from the root is wrong |
| ResourceLease.ActionKeepsInv | src/resource_lease.cpp:32-133 | every step of acquire, renew, sweep and drop keeps conservation, token book-keeping and the queue order |
| ResourceLease.CapacityIsConserved | src/resource_lease.cpp:73-133 | in every history available plus unreleased equals capacity per resource, each lease is returned at most once, live leases never exceed capacity, tokens strictly increase |
| ResourceLease.ExpiredNeverRevives | src/resource_lease.cpp:77-85 | a released lease, swept ones included, stays released in every history and cannot be renewed |
| ResourceLease.LivesForItsTtl | src/resource_lease.cpp:99-125 | a grant or renewal sets the deadline to now plus ttl, and the lease is live then if and only if that fits 64 bits |
| ResourceLease.HeldUntilItsDeadline | src/resource_lease.cpp:32-43 | in every history a lease is untouched until its deadline as long as its own handle leaves it alone |
| ResourceLease.SweepReclaimsAll | src/resource_lease.cpp:32-43 | a sweep releases every expired lease |
| ResourceLease.SomeoneIsSelected | src/resource_lease.cpp:49-62 | whenever waiters exist, one is selected |
| ResourceLease.SelectionIsUnique | src/resource_lease.cpp:49-62 | with a top-class key other than the last served, the selected waiter is the oldest such, and unique |
| ResourceLease.IdleCapacityIsGranted | src/resource_lease.cpp:44-62 | when every lease is released or expired, some waiter's next round is granted |
| ResourceLease.NoOvertaking | src/resource_lease.cpp:49-125 | a waiter that comes late enough for its priority advantage is never granted while the earlier one waits |
| ResourceLease.FairLeaseProvider.SweepExpired | src/resource_lease.cpp:32-43 | the sweep loop updates leases, capacity and the active list as specified |
| ResourceLease.FairLeaseProvider.ResourcesFit | src/resource_lease.cpp:44-48 | true exactly when every requested resource is positive and available and there is one |
| ResourceLease.FairLeaseProvider.IsSelected | src/resource_lease.cpp:49-62 | the selection loops equal the selection predicate |
| ResourceLease.FairLeaseProvider.Enter | src/resource_lease.cpp:99-113 | request checks and enqueueing |
| ResourceLease.EnqueueAnswers | src/resource_lease.cpp:101-108 | what a request is refused for, and that one without named resources asks for slots |
| ResourceLease.FairLeaseProvider.Round | src/resource_lease.cpp:115-132 | one round of the acquire loop: sweep, grant, give up or keep waiting |
| ResourceLease.FairLeaseProvider.RenewLease | src/resource_lease.cpp:77-85 | renewal, refused and released when expired |
| ResourceLease.FairLeaseProvider.ReleaseLease | src/resource_lease.cpp:87-89 | a release returns the units once |
| ResourceLease.FairLeaseProvider.DropLease | src/resource_lease.cpp:73-73 | destroying the handle releases the lease |
| ThreadPool.ThreadPoolScheduler.Submit | src/scheduler.cpp:73-89 | the submit section: refused when stopping, queued, run by the caller, rejected, or must wait |
| ThreadPool.SubmissionsAnswered | src/scheduler.cpp:55-92 | what becomes of a submission in each state and policy, nested ones included |
| ThreadPool.RetriesAnswered | src/scheduler.cpp:77-88 | what becomes of a blocked submission that wakes up |
| ThreadPool.EverySubmissionIsAccounted | src/scheduler.cpp:55-92 | in every history each submission is queued, run by its caller, refused, or with a producer that waits |
| ThreadPool.ThreadPoolScheduler.WorkerTurn | src/scheduler.cpp:98-105 | the worker section: sleep, exit, or take the oldest task |
| ThreadPool.ThreadPoolScheduler.Stop | src/scheduler.cpp:40-43 | shutdown sets the stop flag and nothing else |
| ThreadPool.BoundedFifo | src/scheduler.cpp:73-105 | the queue never exceeds its capacity and tasks start in queueing order, each at most once |
| ThreadPool.ShutdownRunsEverything | src/scheduler.cpp:38-109 | once all workers have exited the queue is empty for ever and every queued task ran exactly once |
| ThreadPool.SleepersAreWoken | src/scheduler.cpp:73-105 | a queue with work has an awake worker or a pending notice, all sleepers wake after shutdown, and producers sleep with none awake only on a full queue |
| ThreadPool.EveryTaskRuns | src/scheduler.cpp:55-109 | when submissions cease every scheduler brings the pool to rest, and then everything queued has run and no producer waits |
| TraceSink.AsyncTraceSink.Emit | src/trace.cpp:51-62 | the emit section under each full-queue policy |
| TraceSink.EmitsAnswered | src/trace.cpp:51-62 | what becomes of an emitted event in each state and policy |
| TraceSink.StopsOnce | src/trace.cpp:29-31 | a sink stops only when it is destroyed |
| TraceSink.EveryEventIsAccounted | src/trace.cpp:51-62 | until then every emitted event is accepted, counted as dropped, or waits |
| TraceSink.AsyncTraceSink.TakeNext | src/trace.cpp:33-37 | the worker section: sleep, exit, or take the oldest event |
| TraceSink.AsyncTraceSink.ExportDone | src/trace.cpp:38-40 | the section after an export |
| TraceSink.EventsAreConserved | src/trace.cpp:32-41 | accepted equals exported plus queued plus active, plus dropped under DropOldest; the queue is bounded; the counters are exact |
| TraceSink.ExportsKeepOrder | src/trace.cpp:32-62 | exports are accepted events in acceptance order, a prefix of them unless DropOldest |
| TraceSink.FlushMeansDrained | src/trace.cpp:63-64 | when flush may return everything accepted is exported or dropped, and no flush, worker or blocked emit sleeps without a wake-up ahead |
| TraceSink.ExitDrains | src/trace.cpp:29-41 | once the worker has exited nothing accepted is left, and nothing is accepted any more |
| TraceSink.EverySinkDrains | src/trace.cpp:32-41 | when emits cease every scheduler brings the sink to rest, and then every accepted event was exported or dropped and no emit or flush waits |
| RecordCodec.NumbersRoundTrip | src/reliability.cpp:33-41 | a 64-bit number is read back from its decimal text |
| RecordCodec.StoullMeans | src/reliability.cpp:33-35 | what is read from white space, a sign, digits and whatever follows |
| RecordCodec.DecodeRecord | src/reliability.cpp:28-38 | reading the header line by line equals the specified decoder on every byte string |
| RecordCodec.RoundTrip | src/reliability.cpp:28-43 | decoding an encoded record returns it if and only if its owner has no newline |
| RecordCodec.EncodedText | src/reliability.cpp:39-43 | the text of a record, line by line |
| RecordCodec.DecodesExactly | src/reliability.cpp:28-38 | the accepted texts are exactly those that write a record, and that record is read |
| RecordCodec.PrefixesAreRejected | src/reliability.cpp:28-43 | every proper prefix of an encoding is rejected, except the last newline of an empty checkpoint, which decodes to the same record |
| RecordCodec.FileStateStore.Load | src/reliability.cpp:182-188 | the four answers of a load |
| RecordCodec.RunIdMeans | src/reliability.cpp:23-27 | which run ids and owners are accepted, by character code |
| RecordCodec.FileStateStore.CompareAndSet | src/reliability.cpp:194-208 | the file changes exactly as specified; a refused or corrupt file is untouched, other files too |
| RecordCodec.FileStateStore.Recover | src/reliability.cpp:209-218 | the same for claims, bad owners included |
| RecordCodec.FileExchangeRefines | src/reliability.cpp:194-208 | on a file that represents a record, compare-exchange answers as the memory store does and leaves a file that represents its result |
| RecordCodec.FileClaimRefines | src/reliability.cpp:209-218 | the same for claims |
| CanonicalJson.SortKeys | src/bundle.cpp:55-56 | sorting gives the unique ascending order, whatever order the names came in |
| CanonicalJson.AscendingIsUnique | src/bundle.cpp:20-23 | a set of keys has one ascending order |
| CanonicalJson.LessIsTotal | src/bundle.cpp:20-23 | bytewise order is irreflexive and total |
| CanonicalJson.LessMeans | src/bundle.cpp:20-23 | the key order: a proper prefix first, otherwise the first byte that differs decides |
| CanonicalJson.CanonicalWriter.AppendString | src/bundle.cpp:28-37 | appends the quoted, escaped string |
| CanonicalJson.CanonicalWriter.AppendCanonical | src/bundle.cpp:38-61 | appends the canonical text of any value |
| CanonicalJson.EscapeForms | src/bundle.cpp:28-37 | the form of every escape |
| CanonicalJson.MembersAscend | src/bundle.cpp:55-59 | members stand in the ascending order of their keys |
| CanonicalJson.EscapedReadsBack | src/bundle.cpp:28-37 | a reader by section 7 of RFC 8259 gets back the string that was escaped |
| CanonicalJson.QuotedIsPrefixFree | src/bundle.cpp:28-37 | a quoted string ends where it says: equal texts mean equal strings and equal rests |
| CanonicalJson.CanonicalIsPrefixFree | src/bundle.cpp:38-61 | equal texts before delimiters mean equal values and equal rests |
| CanonicalJson.CanonicalIsUnambiguous | src/bundle.cpp:62-64 | equal canonical texts mean equal documents |
| JsonReader.CanonicalMeansItsDocument | src/bundle.cpp:38-64 | a reader by the grammar of RFC 8259 gets back exactly the document that was encoded |

## Left out

- Language bindings, the C interface, command line, exporters and benchmarks: marshalling and formatting.
- File system, locks, fsync and rename of the file stores: a locked read-check-write is one step and a write is atomic.
- SHA-256, Ed25519 and zlib: the digest is a function, a bundle's signatures are one predicate.
- JSON text: documents are values without floating-point numbers, and printing and parsing are given.
- Expression and template text: templates and conditions are functions of the visible run.
- The timer thread and rejected scheduler submissions: timers fire at any time, and submissions other than those of an emptied closure are accepted.
- AsyncRun.CallbackAtMostOnce: every submission counts as accepted; the refused one of an emptied closure is in `Continuations.CallsExactly`.
- Continuations.KnownExactly: the node a continuation belongs to is not named; a parallel continuation left behind by a selective rerun is not covered.
- Human, subflow and parallel nodes in the drive loop and in replay: parallel and subflow continuations have their own machines, a human node adds no new kind of step.
- StateStore.CompareExchange and the fencing machine count versions without the 64-bit wrap-around; the file store wraps.
- MemoryStateStore and FileStateStore erase, list and get, and the retry loop of FileStateStore put: no protocol step reads a list or a plain get, and the fencing theorems are about stores without erase and put.
- ParallelNode.RefinesFold: which branch's error is reported depends on the completion order and is not part of the verdict.
- DriveLoop.RunState.FinishVisit: the byte quotas on one output and on accumulated outputs and state are predicates, the latter checked on the visible run without effect records.
- Replay.ReplaySimulates: the original and the replay run have the same quotas; cancellation, deadlines and store failures end a drive early and leave no completed run to replay.
- RunBudget.WorkIsBounded: children of parallel nodes and subflows are runs of their own and are not counted.
- BundleResolver.ResolveBundle: the error texts, the signature list copied into the lock, and 32-bit overflow of a caret bound at the largest int.
- WorkflowPatch.Apply: a patch whose changes are not well-formed JSON objects; changes arrive parsed by action.
- The affected-node expansion and merge preview of patch analysis, configuration merging and rollback plans: read-only reports.
- Recovered outputs after a crash between commit and the next save: the code does not provide them.
