# Secure MCP runtime: a verified model

Secure MCP is a TypeScript runtime that puts authentication, policy, bounded execution and mandatory
audit records in front of tool handlers. Its guarantees are made by small concurrent state machines
that have to agree with each other. This project models those machines in Dafny and proves the
guarantees over every run and every interleaving, together with four self-contained algorithms.

How the files fit together:

| part | files | what it is |
|---|---|---|
| audit dispatcher | `AuditDispatcher.dfy`, `AuditDispatchers.dfy` | the no-queue dispatcher as a ledger with events, and the class that refines it |
| HTTP runtime | `FrontDoor.dfy`, `RequestProgram.dfy`, `HttpSystem.dfy` | admission, one concurrent program per admitted request, and both with the dispatcher, the execution controller and shutdown as one state machine |
| its invariant | `RequestInvariant.dfy`, `HttpInvariant.dfy` | what holds in every reachable state; every event keeps it |
| what its steps do | `AdmissionTheorems.dfy`, `RecordTheorems.dfy` | the exact condition of each fate of an arrival, of each audit record, of each stage of a call and of each answer |
| its guarantees | `HttpTheorems.dfy`, `InvocationTheorems.dfy`, `ShutdownTheorems.dfy`, `HttpProgress.dfy`, `OverlapExample.dfy` | the theorems about runs, that no run is stuck, and three runs that show what can happen |
| its objects | `HttpServers.dfy`, `ExecutionControllers.dfy` | the variables of `serveHttp` and the `ExecutionController`, as classes that refine the state machine |
| collector sink | `SocketSink.dfy`, `SocketEffects.dfy`, `SocketAuditSink.dfy`, `Collector.dfy`, `CollectorProgress.dfy` | the acknowledged socket protocol as two queues, what each event does to the records, the class with one list and an index, the collector at the other end, and that together they are never stuck |
| end to end | `DurableDelivery.dfy`, `DeliveryProgress.dfy`, `EndToEnd.dfy`, `EndToEndProgress.dfy` | dispatcher, sink and collector composed; then the HTTP runtime on top; both safe and never stuck |
| object-graph walk | `InputWalk.dfy` | the bounded iterative walk against a recursive unfolding, and that against paths |
| document tool | `DocumentRead.dfy`, `DocumentTheorems.dfy` | path walk, bounded read and closing of handles in a file system that changes; paths in characters, walks in directory entries |
| base32 | `Base32.dfy` | the encoder with its 32-bit accumulator against section 6 of RFC 4648 |
| rate limiter | `RateLimiter.dfy` | the stored sorted set against the definition of a sliding window |
| expiring lock | `ExpiringLock.dfy`, `LockSafety.dfy`, `LockAnswers.dfy` | the lock, its store, all clients and the maintenance job; what is safe, and what each operation answers |
| shared | `Wrappers.dfy`, `Sets.dfy`, `Runs.dfy` | options, cardinality, and where a property of a run turns true |

A stretch of code between two suspensions is one step. Time is the order of events: a timer is an event
that may happen at any moment while it is armed. The network, the SDK, token verification, policy,
schemas and handlers are choices of the environment; what they may choose is spelled out in the
`Enabled` and `CanAct` predicates. A run is a sequence of states in which each follows from the one
before by one enabled event; theorems about runs hold for all of them.

## What is false, and exactly when

- `extendLock` answers yes and loses the lock when less than a second is asked for, because the time is
  rounded down to seconds and an expiry of zero seconds deletes the key. The lock is still held if and
  only if `newTTL >= 1000`; the time to live shown on the handle is kept if and only if it is a whole
  number of seconds or not positive (`LockSafety.ExtensionKeepsTheLockIff`,
  `LockSafety.ExtensionKeepsItsPromiseIff`, `LockSafety.ShortExtensionLosesTheLock`).
- `cleanupExpiredLocks` samples the times to live and deletes later. It can take a lock from its holder
  if and only if a key under the prefix had no expiry when it was sampled; locks taken by `tryAcquire`
  always have one (`LockSafety.CleanupIsSafeIff`, `LockSafety.CleanupDeletesNothing`).
- The rate limiter's bound is kept in every run, whatever the random parts of the set members are, if and
  only if `maxRequests` is at most one or the window is not positive (`RateLimiter.BoundHoldsIff`). For
  every other configuration any number of calls with one member is allowed at one instant
  (`RateLimiter.RepeatedMembersEscape`); with members that do not repeat the bound always holds
  (`RateLimiter.NoMoreThanMax`).

Two facts about the size of the audit queue: one HTTP request alone can need all of its three slots, under
every valid configuration (`OverlapExample.ThreeAreNeeded`), but while nothing has failed all open
requests together never hold more than two each plus one for every running tool task
(`HttpTheorems.PendingIsBounded`).

## Model

| member | source | states |
|---|---|---|
| Dispatch.RunKeeps | src/audit.ts:53-142 | in every run the slots cover every racing delivery and never exceed the capacity, and the counters are the numbers of refused and failed records |
| Dispatch.EffectsAreExact | src/audit.ts:90-128 | in every run a write takes a slot and races exactly when nothing was lost and a slot is free and is dropped otherwise; a settled call frees its slot and decides a record that is still racing; a timer fails a racing record and frees nothing |
| Dispatch.WritesAreConserved | src/audit.ts:53-142 | in every reachable state writes = delivered + racing + dropped + failed, slots stay within the capacity, the sink is closed at most once |
| Dispatch.SlotsAreUnsettledCalls | src/audit.ts:95-97 | a slot is held exactly from an accepted write until the raw sink call settles, timeouts included |
| Dispatch.LossIsPermanent | src/audit.ts:64-66 | after the first loss health never returns and no later write reaches the sink |
| AuditDispatchers.AuditDispatcher.Deliver | src/audit.ts:90-97 | the object's synchronous part of `deliver` is the ledger's submission |
| AuditDispatchers.AuditDispatcher.WorkSettles | src/audit.ts:97-111 | the reactions to a settled sink call, slot first and race second, are the ledger's resolution or rejection |
| AuditDispatchers.AuditDispatcher.TimerFires | src/audit.ts:102-111 | the timer's reaction is the ledger's expiry |
| AuditDispatchers.AuditDispatcher.CloseSinkOnce | src/audit.ts:129-142 | `close` reports the slots in use and calls the hook only the first time |
| AuditDispatchers.AuditDispatcher.CloseFails | src/audit.ts:113-128 | a failing hook counts one more failure |
| FrontDoor.ArriveKeeps | src/http.ts:160-243 | an arrival is answered, refused or put under verification as the checks say, and verified if and only if every condition for it holds; all earlier arrivals keep their fates; the slots in use are the arrivals under verification and never exceed `maxConcurrent`, and each counter is its number of refusals, saturated |
| FrontDoor.VerifiedKeeps | src/http.ts:244-265 | the end of a verification gives its slot back and makes that arrival, and no other, admitted, refused or departed; each admitted request is one arrival |
| AdmissionTheorems.ArrivalIsExact | src/http.ts:160-243 | in every run an arrival is refused for each reason, answered, or put under verification exactly under the condition of that fate; a verification takes one slot |
| AdmissionTheorems.VerdictIsExact | src/http.ts:244-265 | in every run a verification ends in an admission exactly if the token was accepted, the client is there, the server is open, the audit healthy and there is room for three more records beside those of the open requests; each refusal and the departure have their own exact condition |
| RequestInvariant.ActKeeps | src/runtime.ts:180-241 | every step of a request keeps its own records, slots and evidence consistent with the audit log |
| RecordTheorems.RecordsAreExact | src/runtime.ts:180-241 | in every run a step submits a record if and only if it asks for that record: `allowed` when a schema passes and nothing was aborted, the outcome of the value when a handler returns one, a failure for each refusal and each way to throw, and so on for every kind |
| RecordTheorems.RecordHasItsStep | src/audit.ts:82-97 | each record in the log was asked for by exactly the step at which the log ended before it |
| RecordTheorems.StagesAreExact | src/runtime.ts:180-241 | each step of a request moves its operation, its call, its response and its terminal exactly as the step says; a call returns with or without an error, and the client is sent each reply, exactly under the stated condition |
| RecordTheorems.PlacesAreExact | src/audit.ts:161-187 | each step of a request changes the places where it waits exactly as the step says: for the record it has just asked for, for the deliveries unsettled when it drains, and the acknowledged record that later lets an error pass is kept exactly then |
| RecordTheorems.OutcomeDecidesAnswer | src/runtime.ts:218-229 | when the outcome of a call that was not aborted is acknowledged, a handler had returned that value; from then on the call has that result and no other: a value without an error is sent as a success, one with an error as an error whose evidence is that record |
| HttpInvariant.ThreeSlots | src/http.ts:57-58 | a request's program waits for at most three audit deliveries at a time |
| HttpInvariant.ThreeEach | src/http.ts:59-62 | the deliveries of several requests are at most three times as many as the requests |
| HttpInvariant.TwoEachAndTheTasks | src/http.ts:57-62 | they are at most two for each request and one more for each running tool task |
| HttpInvariant.MoveIsNotRefused | src/http.ts:59-62 | while nothing has failed, a free slot exists for every record an admitted request submits |
| HttpInvariant.AdmissionIsNotRefused | src/http.ts:256-265 | while nothing has failed, a free slot exists for the `received` record of a newly admitted request |
| HttpInvariant.EventKeeps | src/http.ts:160-379 | every event of the runtime keeps the invariant of admission, requests, audit and shutdown |
| HttpInvariant.RunKeepsInv | src/http.ts:34-379 | the invariant holds in every reachable state |
| HttpTheorems.FirstLossIsNotOverload | src/http.ts:57-62 | if the audit is unhealthy, the first loss was a sink call that failed or timed out or a failed closing, never a refused write |
| HttpTheorems.NoRefusalWithoutFailure | src/audit.ts:90-94 | without a failure nothing is ever dropped for want of a slot |
| HttpTheorems.ThreePerRequest | src/http.ts:295-341 | at most three deliveries of a request are unsettled, none once its place is released; open requests never exceed a third of `maxPending` nor twice `maxConcurrent` |
| HttpTheorems.PendingIsBounded | src/http.ts:57-62 | in every run without a failure the sink calls in flight are at most two for each open request plus one for each running task, so at most `maxConcurrent` more |
| HttpTheorems.AdmittedIffRoom | src/http.ts:59-62 | while healthy and open, a verified request is admitted if and only if `maxPending` has room for three records of it beside three of each open request and fewer than `2 * maxConcurrent` are open |
| HttpTheorems.AuditTrail | src/http.ts:295-341 | a request's records are `received` first and once, `response` at most once, the terminal record last with all others settled, and present once the place is released |
| HttpTheorems.TerminalWaitsForScope | src/audit.ts:70-80 | the terminal record is attempted only when the response has closed, the adapter has ended, nobody awaits `run` and no scoped record is unsettled, those begun while draining included; in every later state it is still the last record of its request |
| HttpTheorems.PlacesAreConserved | src/http.ts:323-340 | places in use are the admissions less the released requests, and a released request stays released: each place is given back exactly once |
| HttpTheorems.ArrivalsAreConserved | src/http.ts:160-265 | in every run each arrival ends in exactly one of answered, refused, departed or admitted and never leaves it; `authenticating` is the number still undecided, each counter its number of refusals, saturated, and each admitted request is one arrival |
| OverlapExample.ThreeAreNeeded | src/http.ts:57-58 | under every valid configuration some healthy run has one request with three unsettled deliveries: tool record, cancellation outcome and response |
| OverlapExample.DescendantIsAwaited | src/audit.ts:74-78 | under every valid configuration some healthy run has a record that joins its scope while the scope is drained, and `settle` waits again for it |
| OverlapExample.CallsCanBeAnswered | src/runtime.ts:212-229 | under every valid configuration some healthy run carries a tool call out: its value is sent to the client, an error or not, with exactly the records `received`, `allowed` and its outcome |
| InvocationTheorems.HandlerStartsBehindGates | src/runtime.ts:195-213 | a handler starts only after `received` was acknowledged, then policy and input limits held, then the schema passed, then its `allowed` record was acknowledged, and only while its signal is not aborted and nothing is closing |
| InvocationTheorems.SuccessIsOnRecord | src/runtime.ts:212-229 | a success reaches the client only after `allowed` was acknowledged, then the handler returned a value that is not an error, and the record of that outcome, submitted at that step, was acknowledged |
| InvocationTheorems.ErrorIsOnRecord | src/audit.ts:161-187 | an error passes unchanged only if an outcome, failure or protocol record of that request was acknowledged |
| InvocationTheorems.UnavailableMeansLoss | src/audit.ts:170-185 | the generic error replaces an answer only when the audit is losing records |
| InvocationTheorems.AnswerIsFinal | src/execution.ts:36-51 | a call is answered once, whatever settles, times out or is aborted later |
| ShutdownTheorems.NothingBeginsAfterClose | src/execution.ts:13-16 | after `close` has begun no request is admitted and no operation or handler begins |
| ShutdownTheorems.CloseAborts | src/execution.ts:57-59 | closing aborts exactly the operations in progress that were not aborted before, and changes nothing else about any request |
| ShutdownTheorems.SinkClosesLast | src/http.ts:364-379 | the sink's close hook is called when no place is in use, every terminal record has settled and no delivery is unsettled |
| ShutdownTheorems.HookIsCalled | src/audit.ts:113-128 | the hook is called once, then; one that fails counts one more failure and changes no record |
| ShutdownTheorems.DisposalIsFinal | src/runtime.ts:258-266 | disposers run only when no operation is unsettled, and none ever is afterwards |
| ShutdownTheorems.DisposesIff | src/runtime.ts:258-266 | disposers run if and only if no operation was in progress when the drain of the controller ended |
| ShutdownTheorems.ActiveIsUnsettled | src/execution.ts:20-35 | `active` is exactly the set of unsettled operations and never exceeds `maxConcurrent`; one nobody waits for has been aborted |
| HttpProgress.AllCanBeReleased | src/http.ts:295-341 | every run can be continued, by timeouts, by the ends of responses and by the steps of the runtime alone, so that every admitted request has given its place back: nothing is stuck on a sink call or a handler |
| HttpProgress.ShutdownCanComplete | src/http.ts:364-379 | every run can be continued in that way to the end of the shutdown, although no sink call and no handler ever settles and the close hook fails: no place is in use, every delivery has settled and the hook has been called once |
| HttpServers.HttpServer.constructor | src/http.ts:52-75 | the initial variables and the request capacity |
| HttpServers.HttpServer.Count | src/http.ts:76-78 | the saturating counters |
| HttpServers.HttpServer.OnRequest | src/http.ts:160-243 | the listener changes the variables as one arrival of the model |
| HttpServers.HttpServer.OnVerified | src/http.ts:244-265 | the end of a verification admits exactly if the token was accepted, the client is there, the server open and healthy and a place free; it changes the variables as the model says and registers the terminal of an admitted request |
| HttpServers.HttpServer.OnTerminalSettled | src/http.ts:336-340 | the settled terminal gives back exactly one place |
| HttpServers.HttpServer.Arrives | src/http.ts:160-243 | an arrival is one step of the whole runtime |
| HttpServers.HttpServer.Verifies | src/http.ts:244-265 | the end of a verification is one step of the whole runtime |
| HttpServers.HttpServer.TerminalSettles | src/http.ts:335-339 | the settlement of a terminal record is one step of the whole runtime |
| HttpServers.HttpServer.CloseBegins | src/http.ts:364-366 | the beginning of shutdown is one step of the whole runtime |
| ExecutionControllers.Entry.Abort | src/execution.ts:19-20 | the first reason of an abort stays |
| ExecutionControllers.ExecutionController.Run | src/execution.ts:13-21 | closing, then an aborted caller, then a full controller refuse; otherwise one new entry is active |
| ExecutionControllers.ExecutionController.Drain | src/execution.ts:57-59 | every active entry is aborted, and earlier reasons stay |
| ExecutionControllers.ExecutionController.Invoke | src/runtime.ts:195-201 | the gates of `invoke` and `run` change the set of entries as one step of the runtime |
| ExecutionControllers.ExecutionController.WorkEnds | src/execution.ts:26-35 | a settled operation leaves the set as one step of the runtime |
| ExecutionControllers.ExecutionController.AbortFires | src/execution.ts:17-19 | an abort changes the reason of its entry as one step of the runtime |
| ExecutionControllers.ExecutionController.CloseBegins | src/execution.ts:53-59 | closing changes the entries as one step of the runtime |
| SocketSink.RunValid | src/collector.ts:7-101 | in every run at most 1024 records are outstanding, a failed sink holds none, and accepted, written and settled records agree in order |
| SocketSink.PrefixChain | src/collector.ts:21-101 | resolved is a prefix of written, which is a prefix of accepted: nothing is written twice, skipped or reordered over all reconnects |
| SocketSink.SettlementsAreFinal | src/collector.ts:21-29 | a settled record stays settled the same way, and each accepted record settles at most once |
| SocketSink.ReconnectsOnlyWhenIdle | src/collector.ts:88-92 | a new socket is opened only when everything written before has been acknowledged |
| SocketSink.ChunkingIsImmaterial | src/collector.ts:50-64 | any split of an acknowledgement stream that stays within what was written settles the same records |
| SocketSink.BadAcksFail | src/collector.ts:52-63 | a byte too many or of another value rejects every outstanding record in order, resolves none and turns every later call away; other data resolves exactly the oldest written records, one for each byte |
| SocketEffects.ConnectWrites | src/collector.ts:39-44 | in every run `connect` of the current socket writes the oldest unsent records to it in order, one more than fit into its buffer or all of them, and nothing else happens to any record |
| SocketEffects.DrainWrites | src/collector.ts:45-49 | so does `drain` of a connected socket, and before that it writes nothing |
| SocketEffects.CallTakes | src/collector.ts:83-94 | a call is taken if and only if nothing has failed, the sink is open, fewer than 1024 are outstanding and the record is short enough; it is written at once on a connected, writable socket and waits otherwise, and a socket is opened exactly if there is none |
| SocketEffects.StaleChangesNothing | src/collector.ts:40-80 | an event of any socket but the current one changes nothing |
| SocketEffects.FailuresRejectAll | src/collector.ts:21-29 | an error or the end of the current socket, a timer or closing rejects everything outstanding in order and fails the sink; with nothing outstanding no record and no failure comes of it |
| SocketEffects.ClosedForGood | src/collector.ts:95-99 | a closed sink stays closed and takes no record |
| SocketAuditSinks.SocketAuditSink.Fail | src/collector.ts:21-29 | `fail` rejects all outstanding records in order and forgets what was sent |
| SocketAuditSinks.SocketAuditSink.Flush | src/collector.ts:30-35 | the loop over the index writes the unsent records until the socket reports a full buffer |
| SocketAuditSinks.SocketAuditSink.OnConnect | src/collector.ts:39-44 | `connect` of the current socket starts the writing; a stale one does nothing |
| SocketAuditSinks.SocketAuditSink.OnDrain | src/collector.ts:45-49 | `drain` of the current socket resumes the writing; a stale one does nothing |
| SocketAuditSinks.SocketAuditSink.OnData | src/collector.ts:50-64 | each byte resolves the oldest written record, or everything fails |
| SocketAuditSinks.SocketAuditSink.OnError | src/collector.ts:65-67 | an error of the current socket fails what is outstanding |
| SocketAuditSinks.SocketAuditSink.Disconnected | src/collector.ts:68-80 | `end` or `close` of the current socket fails what is outstanding and forgets the socket |
| SocketAuditSinks.SocketAuditSink.Call | src/collector.ts:83-94 | a record is refused, or appended and written as far as the socket allows |
| SocketAuditSinks.SocketAuditSink.Close | src/collector.ts:95-99 | closing fails what is outstanding and refuses everything later |
| Collector.ResolvedIsDurable | examples/audit-collector.mjs:68-101 | resolved records are a prefix of the journal, which is a prefix of what was written |
| Collector.HonestAcksNeverFail | src/collector.ts:50-64 | the bytes of an honest collector never exceed what was written, so they never make the sink fail |
| Collector.IdleIsDone | src/collector.ts:89-91 | when everything written has been acknowledged, no byte and no record of any connection is under way |
| CollectorProgress.AllCanBeResolved | examples/audit-collector.mjs:68-101 | every run in which neither side has failed and the socket is writable can be continued so that all records taken are resolved |
| DurableDelivery.DeliveredIsDurable | src/collector.ts:5-6 | a record the dispatcher reports as delivered is in the journal, and the journal is in submission order |
| DurableDelivery.SinkBoundIsNeverReached | src/collector.ts:84-85 | with `maxPending` at most 1024 the sink's own bound is never met when it is called, and what it holds are slots of the dispatcher; a record is turned away if and only if the sink has failed or is closed or the record is too long, and taken otherwise |
| DeliveryProgress.AllCanBeDelivered | src/audit.ts:90-112 | every run at whose end sink and collector work can be continued so that exactly the records still racing that were not turned away are delivered, and no other record changes |
| EndToEnd.SuccessIsDurable | src/runtime.ts:212-229 | when a success was sent to the client, its handler had returned a value that is not an error, and its `allowed` record and the outcome record submitted then are in the journal, in that order |
| EndToEnd.ErrorIsDurable | src/audit.ts:161-187 | an error sent unchanged has a record of the call or message in the journal |
| EndToEnd.StartedIsDurable | src/runtime.ts:212-214 | a handler has started only for calls whose `allowed` record is in the journal |
| EndToEnd.RuntimeIsARun | src/http.ts:34-379 | each state reached together with sink and collector has a runtime that is reached by a run of the runtime alone, so every theorem about its runs holds end to end |
| EndToEndProgress.RecordsCanArrive | src/collector.ts:83-94 | every end-to-end run at whose end sink and collector work can be continued by their steps alone so that every record of the runtime still racing that was not turned away is delivered and in the journal |
| InputWalk.PushItems | src/input.ts:23-27 | the loop over an array counts its items and pushes the objects, or stops past the maximum |
| InputWalk.PushFields | src/input.ts:28-34 | the loop over an object counts its own properties and pushes the objects, or stops past the maximum |
| InputWalk.WithinInputElementLimit | src/input.ts:16-38 | terminates on every heap, cyclic ones included, and accepts exactly the values whose unfolding is finite, free of the reserved key and within the maximum |
| InputWalk.FiniteIsSound | src/input.ts:14-21 | a value that is accepted reaches no cycle and no reserved key |
| InputWalk.CleanAndAcyclicIsFinite | src/input.ts:14-38 | a value that reaches neither has a finite unfolding |
| InputWalk.FitsIffCleanAcyclicAndSmall | src/input.ts:14-38 | accepted if and only if no cycle and no reserved key is reachable and the size is at most `maximum` |
| InputWalk.SizeCountsTheWays | src/input.ts:22-34 | the size is the number of ways from the value to an entry: a shared entry counts once for each way to reach it |
| InputWalk.EntriesAre | src/input.ts:22-34 | the entries of an array are its items, those of an object the values of its own properties, all of them and no others, in order |
| DocumentRead.FileHandle.Read | src/tools.ts:92 | a read delivers the next bytes of the file, possibly fewer than asked for, and none only at its end |
| DocumentRead.OpenAll | src/tools.ts:69-82 | each part is opened by name under the handle before it, never through a symbolic link, through directories only; it stops at the first failure |
| DocumentRead.ReadAll | src/tools.ts:86-95 | for every sequence of short reads and whatever happens to the file meanwhile, each byte is the one at its place when it was read; with at most `maxBytes` bytes the last read found the end of the file |
| DocumentRead.WholeIfAppendOnly | src/tools.ts:86-95 | of a file that is only appended to, that is the whole content at the last read |
| DocumentRead.WalkIsResolve | src/tools.ts:69-82 | in a file system at rest the walk ends where the path resolves |
| DocumentRead.CloseAll | src/tools.ts:102-104 | each handle is closed once |
| DocumentRead.Invoke | src/tools.ts:57-105 | a text is read in that way, up to the end, from a regular file reached by the parts of an acceptable path, and has at most `maxBytes` bytes; each failure has the code of what went wrong, on the walk or at the file; every handle is closed exactly once on every exit; undisturbed, the result is the reference result |
| DocumentTheorems.SplitIsInverse | src/tools.ts:58 | the parts joined by slashes give the path back, and none of them has a slash |
| DocumentTheorems.AcceptableIff | src/tools.ts:59-65 | a path is acceptable if and only if it is not empty, has no slash at either end, no two in a row, no backslash, no NUL, and no dot at the start or after a slash |
| DocumentTheorems.LeadsMeans | src/tools.ts:69-82 | the handles follow the directory entries that the parts name, one at a time from the root, through directories and never to a symbolic link |
| DocumentTheorems.DeadEndMeans | src/tools.ts:74-80 | an open stops by itself exactly if the entry is missing, a symbolic link, or not the last and no directory |
| DocumentTheorems.ExpectedMeans | src/tools.ts:57-105 | undisturbed, an acceptable path that such entries lead along gives the content of a regular file that is short enough and decodes, and every other case its own code |
| Base32.BytesToBase32 | legacy/v1/src/auth/crypto/totp-generator.ts:262-283 | for every byte string the result is its base32 form without padding, although the accumulator wraps at 32 bits |
| Base32.SymbolIsTable | legacy/v1/src/auth/crypto/totp-generator.ts:263 | the table is the alphabet of the standard |
| Base32.Int32KeepsLowBits | legacy/v1/src/auth/crypto/totp-generator.ts:269 | the wrap-around of the shift does not reach the bits that are still to be encoded |
| Base32.OrIsSum | legacy/v1/src/auth/crypto/totp-generator.ts:269 | the bitwise or joins the byte to the shifted accumulator without touching its bits |
| Base32.DecodeInverts | legacy/v1/src/auth/crypto/totp-generator.ts:262-283 | decoding gives the bytes back, and the length is the number of bits divided by five, rounded up |
| Base32.EncodedIsInjective | legacy/v1/src/auth/crypto/totp-generator.ts:262-283 | different inputs have different encodings |
| Base32.EncodedIsTheNumber | legacy/v1/src/auth/crypto/totp-generator.ts:262-283 | the encoding is the number that the bytes denote in base 256, shifted to a multiple of five bits and written in base 32 with symbols of the alphabet |
| Base32.ValueIsUnique | legacy/v1/src/auth/crypto/totp-generator.ts:262-283 | no other string of that length has that value |
| RateLimiter.TokenRateLimiter.CheckRateLimit | legacy/v1/src/auth/token-rate-limiter.ts:87-149 | the script trims, counts, and adds the call and its expiry if there is room; the reply has the numbers counted |
| RateLimiter.TokenRateLimiter.IncrementCounter | legacy/v1/src/auth/token-rate-limiter.ts:244-278 | the script adds a call without checking |
| RateLimiter.TokenRateLimiter.GetRateLimitStatus | legacy/v1/src/auth/token-rate-limiter.ts:202-227 | two commands: the set is trimmed, and counted later, when others may have changed it |
| RateLimiter.StatusCountsTheWindow | legacy/v1/src/auth/token-rate-limiter.ts:214-217 | the count includes every call of the window that ends when it is taken, and none outside the window that ended when the set was trimmed |
| RateLimiter.CleanedIsLive | legacy/v1/src/auth/token-rate-limiter.ts:104-108 | after key expiry and trimming, the set is exactly the window of the history |
| RateLimiter.ExpiryLosesNothing | legacy/v1/src/auth/token-rate-limiter.ts:117-118 | the key never expires while a call of the window is in it |
| RateLimiter.KeyIsForgotten | legacy/v1/src/auth/token-rate-limiter.ts:117-118 | a second after the window of the last counted call the key has expired |
| RateLimiter.AnswersAreOfTheWindow | legacy/v1/src/auth/token-rate-limiter.ts:110-124 | a check is refused only when the window is full, and the reply states the window's numbers |
| RateLimiter.ResetStartsOver | legacy/v1/src/auth/token-rate-limiter.ts:178-197 | after a reset the next check is allowed if and only if any is, and is the first of its window |
| RateLimiter.NoMoreThanMax | legacy/v1/src/auth/token-rate-limiter.ts:91-124 | in every run with distinct members, for every instant at most `maxRequests` calls are allowed in the window that ends there |
| RateLimiter.BoundHoldsIff | legacy/v1/src/auth/token-rate-limiter.ts:91-124 | the limiter keeps its bound in every run, repeated members included, if and only if `maxRequests` is at most one or the window is not positive |
| RateLimiter.AllCountedIffDistinct | legacy/v1/src/auth/token-rate-limiter.ts:113-115 | the set counts every call of the window if and only if their members are distinct |
| RateLimiter.RepeatedMembersEscape | legacy/v1/src/auth/token-rate-limiter.ts:113-115 | for every `maxRequests` of two or more and every positive window, any number of calls with one member is allowed at one instant |
| ExpiringLock.RedisDistributedLock.AcquireLock | legacy/v1/src/auth/distributed-lock.ts:33-101 | the first attempt that the store grants gives the lock; the call throws exactly if none is granted and the last one is an error |
| ExpiringLock.RedisDistributedLock.ReleaseLock | legacy/v1/src/auth/distributed-lock.ts:106-152 | the key is deleted only if it holds the handle's value |
| ExpiringLock.RedisDistributedLock.ExtendLock | legacy/v1/src/auth/distributed-lock.ts:157-197 | the expiry is set in whole seconds only if the key holds the handle's value |
| ExpiringLock.RedisDistributedLock.CleanupExpiredLocks | legacy/v1/src/auth/distributed-lock.ts:279-317 | exactly the keys sampled without an expiry are deleted, and counted if still there |
| LockSafety.LeasesExclude | legacy/v1/src/auth/distributed-lock.ts:319-323 | in every run two handles on one key never match the store together, and a handle matches exactly during its lease |
| LockSafety.LeaseRunsItsCourse | legacy/v1/src/auth/distributed-lock.ts:106-197 | nothing but its own handle ends a lease before its time, the maintenance job included |
| LockSafety.GrantedForItsTime | legacy/v1/src/auth/distributed-lock.ts:319-323 | in every run a lock is granted only on a free key, and without an act of its own handle it is valid exactly for its time to live |
| LockSafety.ExtendedForWholeSeconds | legacy/v1/src/auth/distributed-lock.ts:157-197 | in every run an extension that answers yes is good for exactly the whole seconds asked for, and for no time if that is less than one |
| LockSafety.SuccessorIsUntouched | legacy/v1/src/auth/distributed-lock.ts:112-129 | releasing or extending a handle whose lease is over changes nothing in the store |
| LockSafety.ExtensionKeepsTheLockIff | legacy/v1/src/auth/distributed-lock.ts:163-178 | after an extension that answers yes the lock is held if and only if at least a second was asked for |
| LockSafety.ExtensionKeepsItsPromiseIff | legacy/v1/src/auth/distributed-lock.ts:178-182 | the handle's new time to live is kept if and only if it is whole seconds or not positive |
| LockSafety.ShortExtensionLosesTheLock | legacy/v1/src/auth/distributed-lock.ts:178-182 | half a second: the answer is yes and the lock is gone |
| LockSafety.CleanupDeletesNothing | legacy/v1/src/auth/distributed-lock.ts:279-317 | in every run of these clients the maintenance job deletes nothing |
| LockSafety.CleanupIsSafeIff | legacy/v1/src/auth/distributed-lock.ts:290-308 | a sweep can take a lock from its holder if and only if a key was sampled without an expiry |
| LockAnswers.AttemptIsExact | legacy/v1/src/auth/distributed-lock.ts:319-323 | one attempt is granted exactly on a sound connection, with a positive time to live, on a free key; a lost reply stores the entry and answers with an error |
| LockAnswers.AcquiresIff | legacy/v1/src/auth/distributed-lock.ts:319-323 | in every run an attempt gets a handle if and only if the connection is sound, the time to live positive and the key free |
| LockAnswers.ReleasesIff | legacy/v1/src/auth/distributed-lock.ts:106-152 | in every run a release answers yes if and only if the connection is sound and the lease still running; the key is deleted whenever the command arrives during the lease, a lost reply included, and no other key changes |
| LockAnswers.ReleasedIsGranted | legacy/v1/src/auth/distributed-lock.ts:106-152 | after a release that answers yes the next sound attempt on that key is granted |
| LockAnswers.ExtendsIff | legacy/v1/src/auth/distributed-lock.ts:157-197 | in every run an extension answers yes if and only if the connection is sound and the lease still running, and the deadline is then the whole seconds asked for |
| LockAnswers.SweepTakesTheUnending | legacy/v1/src/auth/distributed-lock.ts:279-317 | in any store exactly the scanned keys without a deadline are deleted |

## Left out

- RequestProgram: an invocation is an activation record of `async` functions, not an object, so its steps are functions on values; the object forms cover the state that several invocations share.
- AuditDispatchers: the `AsyncLocalStorage` scopes are modelled as the unsettled deliveries of a request, not as sets of promises.
- HttpSystem: the SDK adapter's promise is assumed not to settle while a call that has not been aborted awaits `run`, and the SDK to send nothing after it has settled; the rejection of an aborted `run` is a ready microtask and runs before `settle` looks at the scope again; all audit records of the runtime come from HTTP requests; `SecureRuntime.close` is called through the server's `close` only.
- HttpSystem: the outcome label, the status code and the duration of a terminal record, and the texts of responses.
- Collector: the journal's size limit and the rejection of malformed frames appear as a batch that fails; destroyed sockets appear as acknowledgement bytes that never arrive.
- SocketSink: `ref` and `unref`, which only affect whether the process may exit, and `jsonAuditSink`, which writes lines to a stream.
- InputWalk: proxies and accessors that change the graph while it is walked.
- DocumentRead: decoding itself; a predicate says which byte strings decode, and the decoder drops a leading byte order mark.
- RateLimiter: the store and its callers share one clock, and a script runs at the instant it is stamped with; the branch that allows the call when the store fails; blocking of users and global statistics.
- LockSafety: `forceReleaseLock`, which deletes whatever is there; it appears only as an act of a stranger.
- Transport, URL, JSON, CORS and header handling, metrics text, policy as a property of its own, command line, identity verification, the API tool, and the rest of `legacy/v1`.
