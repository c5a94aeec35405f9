# Proofs about the acquisition platform's protocols

This project models six parts of the platform in Dafny and proves what their protocols promise,
over every run, every input or every reachable state:

1. **The reverse channel** between the center and its edge agents: the tables of waiters, owners
   and retained cleanup evidence (`AgentTables`, `AgentManager`), the life of a dispatched task
   under timeouts, cancellation, callback failures and disconnects (`TaskDispatch`,
   `TaskEvidence`), and center, edge and Doubao adapter together, where a conversation may only be
   deleted after its capture has been consumed (`CaptureProtocol`, `CaptureStatus`,
   `AnswerPolling`).
2. **The acquisition lease** (`AcquisitionLease`, `AcquisitionSteps`, `AcquisitionTiming`,
   `AcquisitionRunner`): claim, heartbeat, sweep and fail, and the finish, cancel and queue requests
   that read first and commit later.
3. **The browser pools**: token queues and profile locks in one process (`LocalPool`,
   `LocalPoolProgress`, `BrowserSlots`), and leases in Redis (`RedisLease`).
4. **Proof-bundle governance**: signing keys, the hash-chained audit log, immutable bundles and
   tombstones, and the offline check (`Signing`, `KeyLifecycle`, `AuditLog`, `ProofBundles`,
   `BundleGuarantees`, `OfflineVerification`, `TamperEvidence`).
5. **Edge data structures**: the terminal cache, the replay buffer and the terminal frame codec
   (`TerminalCache`, `TerminalReplay`, `TerminalFrame`, with `OrderedDict` and `Numerals`), and what
   a viewer sees when it attaches (`TerminalViewer`).
6. **Schedulers and adapter streams** (`CronScheduler`, `AutomationSchedule`, `AdapterStreams`).

`dafny verify dfyconfig.toml` checks all of it.

## How the models are built

A protocol is a total function `Step(state, label)` and a function `Run` that folds it over a
sequence of labels.  Code between two `await`s is one step; a label that is not possible in a
state leaves the state unchanged, so every sequence of labels is a run and the theorems quantify
over all of them.  Code that updates dictionaries, rows or buffers in place is a class whose
methods and loops are proved equal to the functions the theorems are about.  Beside the theorems
over runs there are results that say, for each kind of step, exactly when it takes effect and how.

Clocks, UUIDs, generated keys, frames from the network and page observations are parameters of
the labels, in any combination; a lemma that needs an orderly clock says so.  The digest is some
function (injective only where a lemma says so), a signature verifies under the matching public key
and was not forged where a lemma says so, and `croniter` and `zoneinfo` are a next-fire function and
a map from UTC minutes to local fields.

Where the code does less than its documentation says, the code is modelled:

- The in-process pool says that each slot holds exactly one token.  A call cancelled while it
  waits for the profile lock, and an unrouted call that finds several getters done, lose tokens;
  the model proves what holds instead, and when a waiter starves.
- The Redis pool's documentation speaks of BLPOP lists; `acquire` uses leases set with NX and PX,
  and so does the model.
- A finishing worker, a cancel request and a new submission each commit over the row by its key
  alone, after having read it.  The fencing that the sweeper's documentation claims, the finality
  of results and the pairing of RUNNING with a lease hold exactly under the conditions given.
- The terminal frames carry a sequence number that the center drops, so an attach can lose,
  repeat or reorder output; the model says exactly when.
- `certify` and `create` read the clock several times, and it may be set back; the model says what
  that does to a bundle.  `create` alone can store a bundle that never verifies.
- A retired key can be promoted again, and the fences of a Redis lease need not follow the order of
  its grants; the model says exactly when they do.
- The scheduler's loop says that no fire time falls in two windows.  A clock that runs backwards and
  an expression without a further date make it dispatch a fire again; the model counts how often.
- Heartbeats applied less than 30 seconds apart are not enough to keep a lease if they were read
  long before they landed.

## Model

| member | source | states |
|---|---|---|
| `CaptureProtocol.DeleteFollowsPersistedEvidence` | backend/agent_runtimes/bbx_adapter.py:553-562 | in every run of center, edge and adapter, with frames delayed, lost or reordered, timeouts, cancels and disconnects, a conversation is deleted only after the center's event callback for that task's pre-cleanup evidence has completed |
| `CaptureProtocol.EvidenceYieldIsAGate` | backend/agent_server.py:425-463 | the generator leaves the yield of its evidence in two ways only: resumed after the callback completed, or closed, as after a missing or rejected acknowledgement |
| `CaptureProtocol.NothingRunsAfterStrictReturn` | backend/agent_server.py:577-615 | once a strict dispatch has returned normally at the center, the edge is done with the adapter, whose readiness check, generator and close did not raise (an adapter may still have ended with an error event), and no continuation of the run starts a deletion |
| `CaptureProtocol.RetainedEvidenceMeansQuiet` | backend/ws_agent_manager.py:223-229 | whoever reads retained cleanup evidence, however late, knows the same |
| `CaptureStatus.ProbeEvidenceMeansQuiet` | backend/agent_server.py:697-724 | a status probe answered with cleanup evidence from the edge's terminal cache means the same |
| `CaptureProtocol.MoveHolds` | backend/agent_server.py:476-655 | every step of the edge handler and its generator keeps what the deletion guarantee and the truth of the cleanup verdict rest on, and a handler past its adapter never deletes again |
| `CaptureProtocol.RunHolds` | backend/ws_agent_manager.py:976-1014 | the joint invariant of center, edge and acknowledgements in flight holds in every reachable state |
| `CaptureProtocol.DeletionIsReachable` | backend/agent_runtimes/bbx_adapter.py:592-601 | with the acknowledgement delivered the deletion does happen, so the guarantees are not vacuous |
| `CaptureProtocol.ReportReachesTheCaller` | backend/agent_server.py:577-655 | what a strict task reports while its call waits is returned to the caller with the adapter's outcome exactly if the handler found the cleanup complete; otherwise the call goes into confirmed cancellation |
| `CaptureProtocol.SetupIsHandled` | backend/agent_server.py:513-575 | before the adapter runs, a failing check ends the task with its own cleanup verdict and a cancellation with a clean one |
| `CaptureProtocol.PullingIsHandled` | backend/agent_server.py:577-602 | each event is delivered before the next is pulled; the end or a cancellation closes the generator |
| `CaptureProtocol.EvidenceIsHandled` | backend/agent_server.py:425-463 | evidence waits for its own first acknowledgement, which alone resumes the generator; a rejection, a failed delivery or a cancellation closes it |
| `CaptureProtocol.ClosingIsHandled` | backend/agent_server.py:603-609 | closing decides the verdict: clean unless the adapter itself had raised or fails to close |
| `CaptureProtocol.ReportGoesOut` | backend/agent_server.py:488-510 | a terminal frame keeps the adapter's kind and error, carries the task's id and the handler's verdict if strict, and is cached |
| `CaptureProtocol.QueryIsAnswered` | backend/agent_server.py:697-724 | a status query is answered with the cached terminal if it is complete or the task is over, with its kind and whether it was cancelled |
| `CaptureProtocol.EventIsHandledIff` | backend/ws_agent_manager.py:981-989 | an event is handled exactly if it came on the socket the center accepts for the task |
| `CaptureProtocol.CallbackIsAnswered` | backend/ws_agent_manager.py:991-1014 | a callback acknowledges what it has persisted; one that raises, or whose acknowledgement is not sent, fails the waiter |
| `AnswerPolling.Poll` | backend/agent_runtimes/bbx_adapter.py:351-467 | the loop completes at the first observation whose last `required` predecessors were all ready and equal, unless a verification page or the deadline came first |
| `AnswerPolling.StreakIsStability` | backend/agent_runtimes/bbx_adapter.py:448-463 | remembering one answer and a counter is enough: the counter reaches the requirement exactly when the last observations were all ready and equal |
| `TaskDispatch.StrictReturnIsConfirmed` | backend/ws_agent_manager.py:755-827 | a strict call that returns normally returns a terminal with its own task id and cleanup complete, delivered by the socket it was dispatched on, in every interleaving |
| `TaskDispatch.CleanupDecidesTheOutcome` | backend/ws_agent_manager.py:786-811 | after a timeout a strict call returns only a finished task, after a cancellation anything but a terminal that reports that cancellation, after an error nothing |
| `TaskDispatch.DeliveredResultIsReturned` | backend/ws_agent_manager.py:766-785 | in every run, a result that arrives on the call's own socket while it waits is returned, whatever happens before it resumes, exactly when the call is not strict or the result confirms the cleanup; otherwise the call goes into confirmed cancellation |
| `TaskDispatch.ConfirmedCleanupDecides` | backend/ws_agent_manager.py:786-811 | a cleaning call that obtains a confirmed terminal returns it exactly when it may, and raises otherwise |
| `TaskDispatch.FailedCallbackCancels` | backend/ws_agent_manager.py:1008-1014 | a callback that fails while the call waits sends it into cancellation, confirmed if strict |
| `TaskDispatch.DisconnectEndsTheCall` | backend/ws_agent_manager.py:291-311 | a disconnect ends a waiting call: one that is not strict returns an error terminal that confirms nothing, a strict one raises |
| `TaskDispatch.ForeignFrameIsIgnored` | backend/ws_agent_manager.py:1035-1037 | a result frame from any other socket settles no waiter and moves no call |
| `TaskDispatch.CallBegins` | backend/ws_agent_manager.py:736-750 | a call begins exactly under a connected url, with its waiters, owner and callback in place |
| `TaskDispatch.StrictDispatchIsRetained` | backend/ws_agent_manager.py:752-760 | a strict call is retained as the newest entry before its frame goes out |
| `TaskDispatch.SendingIsAnswered` | backend/ws_agent_manager.py:761-785 | sending leads to waiting or, where it fails, into cancellation |
| `TaskDispatch.InterruptionIsAnswered` | backend/ws_agent_manager.py:786-811 | a timeout or cancellation sends a dispatched call into cancellation and abandons the waiter of one that is not strict; a call that is cleaning up absorbs it |
| `TaskDispatch.CleanupAsksTheEdge` | backend/ws_agent_manager.py:925-958 | confirmed cancellation asks the edge to stop while the transport stands, and gives up where it is gone or asking fails |
| `TaskDispatch.EndedCallsAreGone` | backend/ws_agent_manager.py:812-827 | a call that has ended never moves again and has left nothing in the tables of waiters |
| `TaskDispatch.CollectBeginsIff` | backend/ws_agent_manager.py:604-668 | a one-shot request begins under a free id and a connected url, owned by the current socket |
| `TaskDispatch.ProbeBeginsIff` | backend/ws_agent_manager.py:849-898 | so does a probe, which remembers the task it asks about |
| `TaskDispatch.OwnershipTestsAlwaysAgree` | backend/ws_agent_manager.py:976-989 | in every reachable state the owner test of event frames and that of result frames accept the same socket |
| `TaskDispatch.FuturesSettleOnce` | backend/ws_agent_manager.py:1035-1050 | no step of any run changes the outcome of a waiter that already has one |
| `TaskDispatch.DisconnectReleasesEveryWaiter` | backend/ws_agent_manager.py:260-311 | after a disconnect in any run no collect, task, probe or terminal-control waiter of that transport is pending, exactly unless the socket was connected for another agent too and owes a task of that agent |
| `TaskDispatch.RunInv` | backend/ws_agent_manager.py:690-827 | every live call has its table entries under its own socket, and waiters hold only what that socket delivered, or the disconnect notice |
| `AgentTables.OwnershipTestsAgree` | backend/ws_agent_manager.py:976-989 | a task with a callback is owned by the connected socket, so the two ownership tests are the same test |
| `AgentTables.UnregisterCoherent` | backend/ws_agent_manager.py:260-311 | unregistering keeps the tables coherent |
| `AgentTables.RegisterCoherent` | backend/ws_agent_manager.py:250-257 | a connection, which displaces the agent's old socket, keeps the tables coherent, for any socket |
| `AgentTables.NoWaiterSurvivesDisconnect` | backend/ws_agent_manager.py:260-311 | unregistering from a coherent state releases every waiter of the socket, whichever table it is in, exactly unless the socket is also connected for another agent and owes a task of that agent |
| `AgentTables.DisconnectFailsItsOwn` | backend/ws_agent_manager.py:260-311 | a disconnect fails exactly the pending waiters of its socket and of its agent's tasks and leaves every other one as it is; one that names another socket changes nothing |
| `AgentTables.ConnectReplaces` | backend/ws_agent_manager.py:250-257 | a connection replaces the agent's old one and fails its waiters |
| `AgentTables.OwnerAnswersCollect` | backend/ws_agent_manager.py:671-681 | a collect waiter takes the first response of the socket that owns it, and no other |
| `AgentTables.ProbeIsAnswered` | backend/ws_agent_manager.py:901-922 | a status frame answers a pending probe of its own current socket about the very task: evidence, running or unknown, each exactly where it applies; any other frame is dropped |
| `AgentTables.PruneKeepsNewestUnexpired` | backend/ws_agent_manager.py:214-220 | pruning keeps an entry exactly when it is unexpired and fewer than 1024 unexpired ones are newer |
| `AgentTables.EvidenceWrittenOnce` | backend/ws_agent_manager.py:1017-1034 | a result frame leaves every evidence entry as it was, or gives its own dispatch its first proof, from a confirmed terminal on the dispatching socket while that is current |
| `AgentTables.EvidenceIsRecordedIff` | backend/ws_agent_manager.py:1017-1034 | an `agent_result` becomes evidence exactly where its dispatch is retained without a proof for this still current socket and the terminal confirms the cleanup; the proof says which task it was, how it ended and whether it was cancelled |
| `AgentTables.RetainedIsNewest` | backend/ws_agent_manager.py:756-760 | a new dispatch survives the pruning that follows it |
| `AgentTables.EvidenceStaysWithItsAgent` | backend/ws_agent_manager.py:223-229 | evidence is returned only under the key of the agent the task was sent to |
| `TaskEvidence.EvidenceIsGenuine` | backend/ws_agent_manager.py:756-763 | in every run at most one proof is recorded per dispatch, and what a caller reads redacts a confirmed terminal that arrived on the dispatching socket |
| `TaskEvidence.EvidenceNeedsCurrentSocket` | backend/ws_agent_manager.py:1017-1034 | a proof appears only in the step that receives the terminal, while the dispatching socket is the current connection |
| `TaskEvidence.RunEvidence` | backend/ws_agent_manager.py:756-763 | the evidence invariant, with one entry per dispatch at most, holds in every reachable state |
| `AgentManager.Manager.UnregisterConnection` | backend/ws_agent_manager.py:260-311 | the loops over the waiters compute the table function of the theorems, and the result says whether the connection was the right one |
| `AgentManager.Manager.RegisterConnection` | backend/ws_agent_manager.py:250-257 | replacing a connection first unregisters the old socket |
| `AgentManager.Manager.FailTaskWaiters` | backend/ws_agent_manager.py:291-310 | the loop over an agent's dead requests settles all of their waiters and drops all of their callbacks |
| `AgentManager.Manager.PruneRetained` | backend/ws_agent_manager.py:214-220 | the scan and the loop that drops the oldest keep exactly the newest unexpired entries |
| `AgentManager.Manager.ResolveAgentResult` | backend/ws_agent_manager.py:1017-1050 | updating the tables in place is the table function of the theorems |
| `AgentManager.Manager.ResolveTaskStatus` | backend/ws_agent_manager.py:901-922 | a status answer settles its probe only from the probe's own, still current socket and for its own task |
| `AgentManager.Manager.ResolveCollectResponse` | backend/ws_agent_manager.py:671-685 | a response settles a collect waiter only from the socket that owns it |
| `AcquisitionLease.RunningIffLeased` | backend/services/acquisition_service.py:132-153 | a RUNNING row always has a lease owner; it is the only one that has, throughout a run, exactly when no cancel or queue request of the run commits over a lease that was taken after its read |
| `AcquisitionLease.RequeuedWorkerIsFenced` | backend/acquisition/runner.py:118-153 | a worker whose row went back to QUEUED, by a sweep or by a late queue request, can never change that row again, exactly when that did not fall between its finishing check and its commit |
| `AcquisitionLease.FinalIsAbsorbingIff` | backend/acquisition/runner.py:422-428 | a final status never changes again exactly when no worker is between its check and its commit and no request is between its read and a commit other than a repeated cancellation |
| `AcquisitionLease.ResultsAreAbsorbing` | backend/acquisition/runner.py:422-527 | if the row never goes back into the queue while a worker is finishing, SUCCEEDED and FAILED absorb every continuation exactly while no cancel or queue request is between its read and its commit |
| `AcquisitionLease.ResultsComeFromTheOwner` | backend/acquisition/runner.py:422-527 | in such runs the row becomes SUCCEEDED or FAILED only by the worker that owns it, or had passed its check before a cancellation, and with the outcome that worker reports |
| `AcquisitionLease.UnguardedFinishOverwrites` | backend/acquisition/runner.py:422-527 | without that condition a late commit turns another worker's FAILED into SUCCEEDED |
| `AcquisitionLease.LateCancelOverwritesResult` | backend/services/acquisition_service.py:132-143 | a cancel request that read RUNNING turns SUCCEEDED into CANCELLED |
| `AcquisitionLease.LateCancelStrandsLease` | backend/services/acquisition_service.py:132-143 | a cancel request that read QUEUED leaves a CANCELLED row with the owner that claimed it meanwhile |
| `AcquisitionLease.LateQueueStrandsLease` | backend/services/acquisition_service.py:146-153 | a submission that read ACCEPTED puts a row that was swept and claimed meanwhile back to QUEUED, with its owner |
| `AcquisitionLease.RunHeld` | backend/acquisition/runner.py:259-279 | in every run owner and expiry go together, and a finishing worker saw its own lease |
| `AcquisitionSteps.ClaimTakesIff` | backend/acquisition/runner.py:259-279 | a claim takes exactly a QUEUED row, for 30 seconds |
| `AcquisitionSteps.WorkerActsIff` | backend/acquisition/runner.py:183-240 | a beat, a failure or a finishing check takes effect exactly while the row is RUNNING under the worker |
| `AcquisitionSteps.FinishCommits` | backend/acquisition/runner.py:422-527 | in every run a worker past its check commits its result over whatever the row has become |
| `AcquisitionSteps.SweepTakesIff` | backend/acquisition/runner.py:97-153 | a sweep selects ACCEPTED rows and RUNNING ones without a live lease, and requeues a row that still is one |
| `AcquisitionSteps.RequestsTakeIff` | backend/services/acquisition_service.py:132-153 | a submission queues the row it read as ACCEPTED, a cancel request takes a row that is not final |
| `AcquisitionSteps.CommitWritesTheChanged` | backend/services/acquisition_service.py:132-153 | a commit sets the status and clears the owner and expiry only if they were read |
| `AcquisitionSteps.UndisturbedWorkerDecides` | backend/acquisition/runner.py:259-279 | a worker that claims, beats and finishes undisturbed decides the row |
| `AcquisitionLease.QueueEntriesAreAccountedFor` | backend/acquisition/runner.py:259-279 | every entry into QUEUED is claimed, withdrawn, overwritten by a late commit, or still there |
| `AcquisitionLease.ClaimsMatchQueueEntriesIff` | backend/acquisition/runner.py:118-153 | claims made plus the entry still queued equal the entries into QUEUED exactly when no cancel request and no late result commits over a QUEUED row |
| `AcquisitionLease.ClaimsMatchQueueEntries` | backend/acquisition/runner.py:118-153 | over the lease steps alone, with no entry into QUEUED while a worker is finishing, claims made plus the entry still queued equal the entries into QUEUED |
| `AcquisitionTiming.SweepRequeuesIff` | backend/acquisition/runner.py:123-150 | a sweep takes a row exactly when it read its clock 30 seconds or more after the reading behind the last lease write |
| `AcquisitionTiming.PromptWorkerIsNeverRequeued` | backend/acquisition/runner.py:97-113 | while less than 30 seconds pass since the reading of the last lease write, no sweep of any timed run requeues the worker, stale clock readings included |
| `AcquisitionTiming.FrequentHeartbeatsKeepTheLease` | backend/acquisition/runner.py:217-240 | if lease writes land at most d after they read their clock, landing less than 30 seconds minus d apart is enough, for every d |
| `AcquisitionTiming.SlowHeartbeatIsRequeued` | backend/acquisition/runner.py:217-240 | without a bound on the delay, a run whose lease writes all land less than 30 seconds apart is requeued |
| `AcquisitionRunner.ExecutionTable.ClaimExecution` | backend/acquisition/runner.py:259-279 | the conditional update claims exactly a QUEUED row and touches no other |
| `AcquisitionRunner.ExecutionTable.HeartbeatExecution` | backend/acquisition/runner.py:209-245 | the heartbeat loop beats on the table as it is at each beat, extends the lease while it is held and stops at the first beat that finds it gone, leaving the row alone |
| `AcquisitionRunner.ExecutionTable.FailExecution` | backend/acquisition/runner.py:183-206 | only the owner of a RUNNING row can fail it |
| `AcquisitionRunner.ExecutionTable.FinishExecution` | backend/acquisition/runner.py:422-527 | the finish checks the row as it is and commits over the row as it has become by then, writing the columns it changed |
| `AcquisitionRunner.ExecutionTable.CancelExecution` | backend/services/acquisition_service.py:132-143 | a cancel request decides on the row it read and commits over the row as it has become |
| `AcquisitionRunner.ExecutionTable.QueueExecution` | backend/services/acquisition_service.py:146-153 | a submission queues an ACCEPTED row by writing the status column alone, over the row as it has become |
| `AcquisitionRunner.ExecutionTable.RequeueSeen` | backend/acquisition/runner.py:118-150 | the requeue rechecks the row, which may have changed since it was selected |
| `AcquisitionRunner.ExecutionTable.RecoverExecutions` | backend/acquisition/runner.py:80-157 | one query picks the accepted, the expired and, at start-up, the queued rows; each update then runs on the table as it is by then, and what is dispatched is what was queued or still eligible, in the order of the query |
| `AcquisitionRunner.PickedIff` | backend/acquisition/runner.py:97-113 | recovery picks exactly the rows that are ACCEPTED, RUNNING without a live lease, or, at start-up, QUEUED, with their status |
| `AcquisitionRunner.BeatExtendsIff` | backend/acquisition/runner.py:209-245 | a beat extends the lease to 30 seconds from its reading exactly while the row is RUNNING under the worker |
| `AcquisitionRunner.PickedKeepsOrder` | backend/acquisition/runner.py:106-113 | the picks keep the order of the query |
| `AcquisitionRunner.DispatchedIff` | backend/acquisition/runner.py:118-153 | dispatched are exactly the picks that were QUEUED or whose update still finds them ACCEPTED, or RUNNING without a live lease |
| `AcquisitionRunner.QuietRecovery` | backend/acquisition/runner.py:97-153 | on a table nobody else writes, exactly the wanted rows are dispatched and all of them are QUEUED without an owner afterwards, the others as before |
| `AcquisitionRunner.RecoveryTakesExactlyTheExpired` | backend/acquisition/runner.py:97-113 | a picked row nobody touched is requeued and would not be picked again; one whose lease was renewed meanwhile is left alone |
| `LocalPool.TokenIsConserved` | backend/browser_pool.py:146-189 | in every run queued plus held tokens of an endpoint never exceed one, no put overflows, and they are one exactly when no step has lost the token since the endpoint was added |
| `LocalPool.LossStep` | backend/browser_pool.py:180-235 | a step loses an endpoint's token exactly when it cancels a call suspended at the profile lock or one racing with the token, chooses another endpoint, or lets a getter of a call that has chosen or was cancelled take it |
| `LocalPool.BodiesExclude` | backend/browser_pool.py:180-189 | at most one body runs per endpoint and per profile name |
| `LocalPool.AcquireRacesTheReady` | backend/browser_pool.py:153-178 | a routed call waits for its endpoint if that is ready, any other call races for exactly the ready and unreserved endpoints, and a call that finds none is refused |
| `LocalPool.TokenLetsIn` | backend/browser_pool.py:175-182 | a call with its token enters its body if nobody holds or awaits the lock of the profile, and puts the token back if the profile's kind has changed |
| `LocalPool.LeavingGivesBack` | backend/browser_pool.py:186-189 | a body that is left releases its lock and puts its token back |
| `LocalPool.CancellationStrikes` | backend/browser_pool.py:153-182 | where a cancellation strikes and what becomes of the call and the tokens still queued |
| `LocalPool.RaceIsDecided` | backend/browser_pool.py:208-235 | a getter takes a free token; the call keeps one of those it has got and cancels the getters that have none |
| `LocalPool.WaitingIsAcyclic` | backend/browser_pool.py:180-181 | the wait-for relation has no cycle, and no chain of waits is longer than two |
| `LocalPool.RunInv` | backend/browser_pool.py:146-242 | token and lock accounting survive every step, also several completed getters and cancellation at any await |
| `LocalPoolProgress.StarvedIffTokensLost` | backend/browser_pool.py:217-242 | a waiting call can never be served again exactly when some step of the run has lost the token of every endpoint it waits for; otherwise the others can always make way |
| `LocalPoolProgress.RaceLosesToken` | backend/browser_pool.py:225-235 | an unrouted call that finds two getters done drops a token, without any cancellation |
| `LocalPoolProgress.CancelAtLockLosesToken` | backend/browser_pool.py:180-182 | with two endpoints on one profile, a call cancelled while another holds the profile lock drops its token |
| `LocalPoolProgress.FreeFromHolder` | backend/browser_pool.py:182-189 | whatever a holder is doing, the calls other than a given waiter can bring its token back to the queue |
| `BrowserSlots.LocalBrowserPool.constructor` | backend/browser_pool.py:113-144 | every endpoint starts with its token; the reported total is the number of slots exactly when the list has no duplicates |
| `BrowserSlots.LocalBrowserPool.AddEndpoint` | backend/browser_pool.py:328-345 | adding is idempotent and never changes the error of the reported total |
| `BrowserSlots.LocalBrowserPool.RemoveEndpoint` | backend/browser_pool.py:347-359 | removing forgets slot and profile and keeps the total in step |
| `BrowserSlots.LocalBrowserPool.Available` | backend/browser_pool.py:248-250 | counts the slots that hold their token |
| `BrowserSlots.CountsMembersIff` | backend/browser_pool.py:113-120 | a list names as many endpoints as it has elements exactly when it has no duplicates |
| `RedisLease.LiveLeaseIsItsOwners` | backend/browser_pool.py:513-542 | in every run no step of anybody but its owner changes a live lease, and the owner's steps extend it by the time to live or delete it |
| `RedisLease.RenewalExtends` | backend/browser_pool.py:505-525 | a renewal extends the lease by the time to live exactly while it is still the call's own; otherwise the call is revoked |
| `RedisLease.TimelyCallKeepsTheLease` | backend/browser_pool.py:479-543 | a call that sends its renewals less than the time to live apart, from its grant on, keeps the lease until it leaves: it is never revoked and nobody else is granted the lease; read off the labels alone |
| `RedisLease.TimelyCallIsAlone` | backend/browser_pool.py:479-543 | so no grant happens between its own and the end of its body |
| `RedisLease.LastRenewalFollows` | backend/browser_pool.py:487-525 | the instant that theorem counts from: the grant, and every renewal sent since |
| `RedisLease.SetGrantsIff` | backend/browser_pool.py:487-500 | SET grants the lease exactly when no live one is found |
| `RedisLease.ReleaseFreesIff` | backend/browser_pool.py:530-543 | a call that leaves releases its own live lease and nobody else's |
| `RedisLease.OwnersAreNeverReused` | backend/browser_pool.py:485-486 | no two attempts of a run get the same owner string |
| `RedisLease.TimelyBodiesExclude` | backend/browser_pool.py:479-543 | while every holder's renewal is applied within the time to live, no two bodies overlap |
| `RedisLease.OverlapMeansLate` | backend/browser_pool.py:479-543 | whenever two bodies overlap, in any timed run, one of them let the time to live pass since its last renewal |
| `RedisLease.OvertakenIffLate` | backend/browser_pool.py:484-492 | a call in its body can be overtaken by a newcomer, before it moves and before any time passes, exactly when it is late |
| `RedisLease.FencesFollowGrantsIff` | backend/browser_pool.py:485-492 | in every run the fences ascend in the order of the grants, exactly when no call is granted the lease after a call whose INCR came later |
| `RedisLease.GrantsMayReverseFences` | backend/browser_pool.py:485-492 | since INCR and SET are separate commands, there is a run in which they do not |
| `KeyLifecycle.RunIsSane` | scripts/proof_bundle_governance.py:440-539 | every sequence of key operations keeps the active key known and unrevoked and private material for exactly the unrevoked keys |
| `KeyLifecycle.RevocationIsForEver` | scripts/proof_bundle_governance.py:524-539 | no sequence of key operations clears a revocation, forgets a key or changes its public key or window |
| `KeyLifecycle.OperationTakesEffect` | scripts/proof_bundle_governance.py:440-539 | an allowed operation has its effect on its own key and none on the others |
| `KeyLifecycle.RefusedIff` | scripts/proof_bundle_governance.py:402-539 | what each key operation is refused for, and in which order |
| `KeyLifecycle.ActiveIsUnretiredIff` | scripts/proof_bundle_governance.py:493-507 | over every run of operations the active key is never a retired one, exactly when no allowed promotion names a key that is retired by then |
| `KeyLifecycle.RetiredKeyMayBePromoted` | scripts/proof_bundle_governance.py:493-507 | promotion looks at revocation and window only, so any retired key inside its window can be made active again |
| `KeyLifecycle.LoadRestores` | scripts/proof_bundle_governance.py:237-309 | loading what was persisted is accepted and restores the same state, whatever was on disk before |
| `KeyLifecycle.LoadAcceptsIff` | scripts/proof_bundle_governance.py:237-281 | what is on disk is accepted exactly if its ids are well-formed, every unrevoked key has its matching private key and the active key is known |
| `KeyLifecycle.KeyStore.Persist` | scripts/proof_bundle_governance.py:282-309 | the loop writes the files of unrevoked keys and removes those of revoked ones, and what is then on disk loads back to memory's state |
| `KeyLifecycle.KeyStore.BootstrapActive` | scripts/proof_bundle_governance.py:440-469 | the first active key, refused once there is one; disk and memory stay in step |
| `KeyLifecycle.KeyStore.StageNext` | scripts/proof_bundle_governance.py:471-491 | a staged key under a new id |
| `KeyLifecycle.KeyStore.PromoteStaged` | scripts/proof_bundle_governance.py:493-507 | only a known, unrevoked key inside its window becomes active |
| `KeyLifecycle.KeyStore.RetireKnown` | scripts/proof_bundle_governance.py:509-522 | retirement deactivates and is recorded |
| `KeyLifecycle.KeyStore.RevokeKnown` | scripts/proof_bundle_governance.py:524-539 | revocation deactivates and destroys the private key |
| `AuditLog.VerifyChain` | scripts/proof_bundle_governance.py:829-844 | the loop with its predecessor hash decides validity of the whole chain |
| `AuditLog.ChainValidIff` | scripts/proof_bundle_governance.py:829-844 | a chain is valid exactly when every record carries the key, a signature of its own body and the hash of the record before |
| `AuditLog.AppendAllIsValid` | scripts/proof_bundle_governance.py:346-385 | appending keeps the chain valid and the old log as its beginning |
| `AuditLog.PrefixIsValid` | scripts/proof_bundle_governance.py:829-844 | every prefix of a valid chain is valid, so cutting the end off goes unnoticed |
| `AuditLog.SameEndSamePast` | scripts/proof_bundle_governance.py:829-844 | with an injective digest two valid chains that end in the same record agree as far back as the shorter reaches |
| `AuditLog.SameEndSameChain` | scripts/proof_bundle_governance.py:947-960 | two such chains are equal exactly when they are equally long; otherwise the record of the longer one before the beginning of the shorter one hashes to 64 zeros |
| `AuditLog.ZeroDigestHidesTheFirstRecord` | scripts/proof_bundle_governance.py:829-844 | a record that did hash to the zeros could be cut off the front |
| `ProofBundles.AuditLogVerifiesAndGrows` | scripts/proof_bundle_governance.py:346-396 | over every run of requests, allowed or denied, and for every clock, the log of every scope verifies after every request and has only grown |
| `ProofBundles.StepExtendsLogs` | scripts/proof_bundle_governance.py:346-396 | each request records something in its own scope and nothing in others |
| `ProofBundles.NewestRecordTells` | scripts/proof_bundle_governance.py:346-396 | the newest record of the scope's log says who asked for what and when, whether and why it was denied, and which bundle it concerned |
| `ProofBundles.RequestIsTold` | scripts/proof_bundle_governance.py:346-396 | a request leaves one record, or two where it puts an expired bundle to rest |
| `ProofBundles.CreateIsAllowedIff` | scripts/proof_bundle_governance.py:548-630 | a creation is allowed exactly for a bundle writer with a fitting envelope under a vacant name, and then stores the signed bundle once |
| `ProofBundles.CertifyIsAllowedIff` | scripts/proof_bundle_governance.py:643-701 | the exact condition for a certification, and the envelope it fills in |
| `ProofBundles.OthersAreAllowedIff` | scripts/proof_bundle_governance.py:802-868 | the exact condition for the remaining requests |
| `ProofBundles.RolesAreEnforced` | scripts/proof_bundle_governance.py:398-400 | only key administrators manage keys, only bundle writers create, certify and read logs and metadata |
| `ProofBundles.DenialChangesNothing` | scripts/proof_bundle_governance.py:387-396 | a denied request changes neither keys nor bundles, except that an expired bundle is put to rest |
| `BundleGuarantees.CertifiedBundleVerifiesIff` | scripts/proof_bundle_governance.py:643-701 | for every clock, a certified bundle verifies for its scope after any later requests exactly when the verifier reads a time before its expiry, its key is unrevoked, no earlier reader past the expiry has put it to rest, and it was not issued before the start of its key's window |
| `BundleGuarantees.CertifiedBundleVerifies` | scripts/proof_bundle_governance.py:643-701 | so, if the clock does not run backwards while it is issued nor between a later request and the verification, exactly while its expiry has not passed and its key is unrevoked |
| `BundleGuarantees.ClockSetBackDeniesBundle` | scripts/proof_bundle_governance.py:703-729 | with a clock set back, a bundle put to rest by one reader is denied to the next before its expiry |
| `BundleGuarantees.VerifiesIff` | scripts/proof_bundle_governance.py:731-799 | the exact condition under which a stored bundle is read and verified |
| `BundleGuarantees.CreatedBundleVerifiesIff` | scripts/proof_bundle_governance.py:548-630 | what `create` alone does not ensure: validation, run and the start of the key window decide whether its bundle ever verifies |
| `BundleGuarantees.RecordIsImmutable` | scripts/proof_bundle_governance.py:600-630 | a stored record stays byte for byte, exactly as long as no reader whose clock is past its expiry has found it verifiable; then its tombstone replaces it |
| `BundleGuarantees.TombstoneIsFinal` | scripts/proof_bundle_governance.py:703-729 | a tombstoned name is never read, verified or created again |
| `BundleGuarantees.RevocationIsFinal` | scripts/proof_bundle_governance.py:731-799 | once its key is revoked a bundle is denied for ever, and its record is never expired either |
| `BundleGuarantees.RunIsGood` | scripts/proof_bundle_governance.py:548-630 | every stored bundle of every run is authentic: it names itself and its scope, hashes to its payload, fits its key and carries its signature |
| `OfflineVerification.CertifiedBundleIsAcceptedOffline` | scripts/proof_bundle_governance.py:877-969 | a kept certified bundle passes the offline check against later published metadata and log exactly while its key is unrevoked, if it was not issued before the start of its key's window; expiry plays no part |
| `OfflineVerification.VerifyPublicArtifacts` | scripts/proof_bundle_governance.py:877-969 | the checks and the chain loop decide the offline acceptance predicate |
| `TamperEvidence.AcceptedIff` | scripts/proof_bundle_governance.py:877-969 | if nobody forges signatures, the offline check accepts exactly the records that the store has stored, envelope, payload and signature alike, whose key is unrevoked, whose payload validates and carries the envelope's stamp, and which were not created before their key's window |
| `TamperEvidence.AcceptedBundleWasStored` | scripts/proof_bundle_governance.py:942-944 | so a change to envelope, payload or signature is refused |
| `TamperEvidence.AcceptanceBinds` | scripts/proof_bundle_governance.py:899-958 | whoever made the material, acceptance means a published unrevoked key, a signature over this very envelope and payload, a hash and a stamp that bind the payload, and a linked log |
| `TamperEvidence.AcceptedLogIsAPrefix` | scripts/proof_bundle_governance.py:947-960 | every record of an accepted log stands in the store's own log of its scope, and the whole is a beginning of it, unless some record hashes to 64 zeros |
| `TamperEvidence.AlteredRecordIsDenied` | scripts/proof_bundle_governance.py:731-799 | a record altered on disk is denied by the service too |
| `TamperEvidence.ReadingBinds` | scripts/proof_bundle_governance.py:731-799 | what an allowed read or verification has made sure of, whatever is on disk |
| `TerminalCache.FrontPruningIsExact` | backend/agent_server.py:664-694 | with a non-decreasing clock the cache stays sorted by expiry and within 1024, and popping from the front removes what a full scan would |
| `TerminalCache.NeverStale` | backend/agent_server.py:697-737 | a cached entry is always the latest terminal of its task since the task's last start |
| `TerminalCache.LatestWasStored` | backend/agent_server.py:672-694 | what a status query can answer was stored by the task, which has not been started again since |
| `TerminalCache.RetainedUntilExpiry` | backend/agent_server.py:672-694 | a terminal stays visible until it expires unless its task restarts or 1024 others follow |
| `TerminalCache.ResultIsCached` | backend/agent_server.py:672-694 | exactly a `done` or `error` result of its own task with a cleanup verdict under a bounded id is cached, for an hour, and keeps its kind, its verdict and a safe error type |
| `TerminalCache.QueryForgetsTheExpired` | backend/agent_server.py:697-705 | a status query leaves nothing in the cache that has expired, and loses nothing live |
| `TerminalCache.ErrorTypesAre` | backend/agent_server.py:686-688 | an error type is kept exactly if it is an identifier of 1 to 128 ASCII characters |
| `TerminalCache.EdgeTerminals.PruneExpired` | backend/agent_server.py:664-669 | the pruning loop pops exactly the expired entries in front of the first live one |
| `TerminalCache.EdgeTerminals.CacheTerminal` | backend/agent_server.py:672-694 | caching prunes, replaces the task's entry at the end and drops the oldest beyond 1024 |
| `TerminalCache.EdgeTerminals.QueryStatus` | backend/agent_server.py:697-724 | running, unknown or the cached terminal, each exactly when it applies, a task that has ended counting as not running before its callback too; a query with an identifier out of bounds is dropped and prunes nothing |
| `TerminalCache.EdgeTerminals.StartTask` | backend/agent_server.py:732-737 | a start forgets the task's previous terminal |
| `TerminalCache.EdgeTerminals.CompleteTask` | backend/agent_server.py:708-711 | a task that ends stops counting as running at once, wherever it is registered, and no other task is affected |
| `TerminalCache.EdgeTerminals.FinishTask` | backend/agent_server.py:727-729 | a finished task only forgets itself, not a later start under the same id |
| `TerminalReplay.ReplayIsSuffixOfOutput` | backend/agent_server.py:929-937 | after any reads the buffer is the last 4 MiB of the output, the counter its length, and the truncation flag says whether it exceeded the limit |
| `TerminalReplay.ChunksCoverBuffer` | backend/agent_server.py:1146-1152 | snapshot chunks concatenate to the buffer and have 1 to 65536 bytes |
| `TerminalReplay.BroadcastsAreReads` | backend/agent_server.py:920-944 | a live frame is sent exactly for each watched read before the end, with its bytes and the offset at which they end in the output |
| `TerminalViewer.ViewerShowsSuffixIff` | backend/agent_server.py:1113-1158 | over every interleaving of reads, broadcasts and an attach, the viewer, which gets no sequence numbers and clears its screen at `snapshot_begin`, shows each byte from the snapshot's start once and in order exactly when no broadcast falls between the attach and `snapshot_begin` for a later read, after it for an earlier read, or before the last chunk |
| `TerminalViewer.UndisturbedTextIsSuffix` | backend/ws_agent_manager.py:562-580 | an undisturbed viewer's bytes are the replay buffer of the attach followed by the rest of the output |
| `TerminalViewer.ChunkCarriesOn` | backend/agent_server.py:1146-1152 | a chunk carries on where the last one ended, with 64 KiB unless it is the last |
| `TerminalViewer.EarlyBroadcastIsLost` | frontend/components/experience/alice-chat/terminal/native-terminal.tsx:227-232 | a read broadcast between the attach and `snapshot_begin` is wiped and missing |
| `TerminalViewer.LateBroadcastIsRepeated` | frontend/components/experience/alice-chat/terminal/native-terminal.tsx:212-215 | a read absorbed before the attach and broadcast after `snapshot_begin` is shown twice |
| `TerminalViewer.BroadcastOvertakesChunk` | backend/agent_server.py:1146-1152 | a read broadcast before a chunk is shown before the chunk's older bytes |
| `TerminalReplay.SnapshotReachesCenter` | backend/ws_agent_manager.py:192-201 | the center decodes every snapshot frame and reads back the buffer, while the counter fits 64 bits |
| `TerminalReplay.NativeTerminal.Append` | backend/agent_server.py:929-937 | the locked section appends and truncates from the front |
| `TerminalReplay.NativeTerminal.ReadUntilClosed` | backend/agent_server.py:920-944 | the reader loop absorbs every read up to the end and broadcasts each with the offset at which it ends |
| `TerminalReplay.NativeTerminal.Snapshot` | backend/agent_server.py:1146-1152 | the snapshot loop sends the buffer in chunks |
| `TerminalFrame.CanonicalUuidIff` | backend/ws_agent_manager.py:159-166 | exactly the canonical lower-case texts of section 4 of RFC 9562 are accepted, whatever else the UUID constructor tolerates |
| `TerminalFrame.EncodeAcceptsExactlyValid` | backend/ws_agent_manager.py:169-189 | encoding accepts exactly the valid tuples |
| `TerminalFrame.DecodeEncode` | backend/ws_agent_manager.py:169-201 | what is encoded decodes to the same fields |
| `TerminalFrame.EncodeDecode` | backend/ws_agent_manager.py:192-201 | what is accepted is the encoding of what it decodes to |
| `TerminalFrame.EdgeAgreesWithCenter` | backend/agent_server.py:1245-1256 | the edge accepts the same input frames as the center's decoder and reads the same fields |
| `TerminalFrame.CenterInputReachesEdge` | backend/agent_server.py:1245-1256 | a center-encoded frame is taken by the edge exactly when it is an input frame, unchanged |
| `TerminalFrame.EdgeOutputReachesCenter` | backend/agent_server.py:882-890 | an output frame is accepted by the center exactly when its payload has 1 to 65536 bytes |
| `CronScheduler.WindowsTile` | backend/scheduler.py:94-187 | in every run the completed windows follow one another without gap from the first tick to the watermark; with a non-decreasing clock none runs backwards |
| `CronScheduler.CoveringIsOneMoreThanBackward` | backend/scheduler.py:104-187 | for every clock, an instant after the first tick and up to the watermark is covered by one more completed window than run backwards over it |
| `CronScheduler.InstantIsCoveredOnceIff` | backend/scheduler.py:104-187 | exactly one completed window covers the instant, exactly when none runs backwards over it |
| `CronScheduler.MonotoneCoversOnce` | backend/scheduler.py:104-187 | with a non-decreasing clock every such instant is covered exactly once |
| `CronScheduler.DispatchesAreCounted` | backend/scheduler.py:104-187 | for every clock and every failure, a fire between the first tick and the watermark is dispatched once, once more for every completed window that runs backwards over it, and once more for every tick over it that raises while counting after having dealt with the schedule |
| `CronScheduler.FireIsDispatchedOnceIff` | backend/scheduler.py:94-151 | so it is dispatched exactly once, exactly when there is no such window and no such tick |
| `CronScheduler.DueOnce` | backend/scheduler.py:120-151 | a schedule is attempted once for a window that holds a fire and not at all otherwise |
| `CronScheduler.FiresAdd` | backend/scheduler.py:56-91 | fire counts of adjacent windows add up |
| `CronScheduler.NothingIsAbortedIff` | backend/scheduler.py:84-91 | nothing is dispatched outside completed windows, exactly when no tick raises while counting after having dispatched something |
| `CronScheduler.FailedCountRepeatsDispatch` | backend/scheduler.py:84-91 | an expression that parses but has no date left leaves the window open, and a fire dispatched before it is dispatched again, with a clock that never runs backwards |
| `CronScheduler.ExhaustedScheduleStopsTheWatermark` | backend/scheduler.py:84-91 | while such a schedule stays enabled no window is ever completed again |
| `CronScheduler.BackwardClockRepeatsDispatch` | backend/scheduler.py:104-118 | a clock that runs backwards dispatches a fire twice |
| `CronScheduler.LocalScheduler.FiresInWindow` | backend/scheduler.py:56-91 | stepping from fire to fire counts exactly the fires in the window, or raises exactly when no date is left after it; a malformed expression is remembered once and counts none |
| `CronScheduler.LocalScheduler.RunTick` | backend/scheduler.py:104-184 | the loop over the schedules attempts exactly those due up to the first that raises, and the watermark moves to the tick unless one raises |
| `AutomationSchedule.ParseAcceptsIff` | backend/automation_schedule.py:18-33 | a notation is read as `hourly`, or as a kind and a clock time, exactly if that is what it denotes and the time exists; a denoted time that does not exist and anything else are refused, each in its way |
| `AutomationSchedule.ParseRender` | backend/automation_schedule.py:18-33 | every valid specification is read back from its notation |
| `AutomationSchedule.FireTimesIff` | backend/automation_schedule.py:50-74 | fire times are exactly the whole minutes of (start, end] at which the local clock shows the full hour, or the given time every day, from Monday to Friday, or on Mondays, for any time-zone map |
| `AutomationSchedule.MatchingAscends` | backend/automation_schedule.py:50-74 | they come in strictly ascending order |
| `AutomationSchedule.FireTimesAdd` | backend/automation_schedule.py:50-74 | adjacent windows neither lose nor repeat an occurrence |
| `AutomationSchedule.KindsNest` | backend/automation_schedule.py:60-71 | at the same clock time weekly occurrences are weekday ones, those are daily ones, and daily ones on the hour are hourly ones |
| `AutomationSchedule.AutomationFireTimes` | backend/automation_schedule.py:41-74 | the checks in their order and the minute loop compute the fire times; an empty window is answered before the notation is read |
| `AdapterStreams.StreamEndsOnce` | backend/agent_runtimes/codex_adapter.py:371-450 | a stream that ends without an exception has exactly one terminal event, last, and a `done` text is the concatenation of its text events |
| `AdapterStreams.CodexEmits` | backend/agent_runtimes/codex_adapter.py:715-759 | no native line makes the Codex translator emit `done`, and its texts are strings |
| `AdapterStreams.CodexStreamReports` | backend/agent_runtimes/codex_adapter.py:371-450 | the first line that breaks the reading makes a Codex stream raise, the first native error ends it with that error; else a timeout or a non-zero exit ends it with an error of its own kind, and a run that succeeds ends with the concatenation of the texts its lines carry |
| `AdapterStreams.PiStreamReports` | backend/agent_runtimes/pi_adapter.py:290-341 | the same for pi, whose successful run raises if a delta is no string |
| `AdapterStreams.CodexLineMeans` | backend/agent_runtimes/codex_adapter.py:715-759 | which native lines, by their JSON fields, Codex reports as text, state, tool call, tool result or error, and with what; a line raises exactly when it cannot be read or a type that is looked at is a list or a dict |
| `AdapterStreams.PiLineMeans` | backend/agent_runtimes/pi_adapter.py:345-383 | the same for pi; a line raises exactly when it cannot be read, is no object, or carries a message update that is neither empty nor an object |
| `AdapterStreams.JoinConcatenates` | backend/agent_runtimes/pi_adapter.py:341 | joining succeeds exactly for strings and concatenates them in order |
| `AdapterStreams.CodexRaisesIff` | backend/agent_runtimes/codex_adapter.py:371-450 | a Codex stream raises exactly when the first line that stops the reading breaks it; joining its texts never fails |
| `AdapterStreams.PiRaisesIff` | backend/agent_runtimes/pi_adapter.py:271-341 | a pi stream raises exactly when the first line that stops the reading breaks it, or when a run that succeeds had a delta that was not a string |
| `AdapterStreams.PiIsHonest` | backend/agent_runtimes/pi_adapter.py:345-383 | no native line makes the pi translator emit `done` |
| `AdapterStreams.EdgeReportsTheTerminal` | backend/agent_server.py:577-615 | for every invocation of either adapter, also one that cannot hand over its prompt, every native line sequence and every delivery, the edge sends one terminal event: the stream's own if the stream ended and was delivered to its end, an error that says which otherwise |
| `AdapterStreams.Collect` | backend/agent_runtimes/pi_adapter.py:290-341 | the reading loop with its mutable text list and error flag computes the stream of the theorems |

## Left out

- Sockets, HTTP, subprocesses, PTYs, file permissions and atomic renames: only whether they succeed appears, as a choice.
- A crash in the middle of persisting key material; the model persists as one step.
- SHA-256, Ed25519, JSON canonicalisation and its round trip, SQL and Redis internals: functions, conditional updates and key expiry.
- Truncation of scope hashes to 128 bits: scopes are told apart exactly.
- The redaction scan and the field-by-field validators of proof payloads: opaque predicates; an audit entry's own redaction check, which its callers' checks imply, is not modelled.
- Nested `acquire` calls by a body, and adding, removing or renaming an endpoint while a call uses it, which the pool does not protect against.
- FIFO order among waiters of a queue or a lock: any waiter may be next.
- The Redis pool's loop over several candidates and its overall timeout: each attempt on a lease key is a run of its own.
- Bounded queues of terminal attachments and frames lost on the way to a viewer, takeover and detach of the terminal controller, whose ownership check is outside the lock.
- The in-page JavaScript and the text heuristics of the Doubao adapter: page observations are arbitrary.
- Tool arguments, usage records and thread ids in adapter events; message texts of errors are placeholders or the native value.
- The limit of 50 years on `croniter`'s search: a schedule has a further date or it has none.
- Dispatching of due automations and recovery of queued runs inside a scheduler tick.
- Configuration, command lines, MCP tools, FastAPI wiring, authentication headers, Docker runners, smoke scripts, captcha and userscript tools: they hold no protocol of their own.
- The capability catalog generator and the analysis snapshot reader: single-pass transformations without shared state.
