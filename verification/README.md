# ConveneWire: verified models of its hard cores

This project models, in Dafny 4.11, the parts of ConveneWire whose correctness
depends on every interleaving, every crash point or every input, and proves
what the system relies on.

**Governed runs on a device** (`bridge/internal/admission`). Two write-once
journals decide whether a local runtime process may start, has stopped and may
be cleaned up. `RuntimeFence` holds the critical sections of the admission
fence (claimed, starting, stopped) and `FenceProtocol` every run of them with
crashes; `FenceText` reads the same records with their times as texts.
`ProcessStore` and `ProcessProtocol` do the same for the process journal and its
inherited locks, `ProcessLeases` adds the lease objects and `FenceAll` the loop
that fences every process; `CleanupProtocol` runs both journals together under
the cleanup authority. `AdmissionCoordinator` places a start call into a run of
the fence and classifies its errors, `RuntimeRunner` orders the events of a run
and ties them to the stop it records, and `IntegrationProtocol` with
`IntegrationSafety` treats the intent, compare-and-swap and receipt of an
integration. `DurableDirectory` is the disk they share: a link is visible at
once, a directory sync makes everything visible durable, either may fail, and a
machine crash drops any entries that were never synced. `Timestamps` shows that
the fixed-width time text orders like time.

**The relay** (`ops/convenewire-relay`). `RelayTable` and `RelaySafety` are the
session and stream tables under one mutex, `RelayServer` the server, session and
stream objects that stand for them, `RelayLocks` the order of its locks, `RelayPump` the bounded byte pump, and `ClientHello` the
TLS ClientHello reader against the grammar of RFC 8446 sections 4.1.2, 4.2 and
5.1 and RFC 6066 section 3.

**Smaller pieces.** `RunProjection` (the browser's event-log projections),
`Mentions` and `MentionCommands` (longest-match mentions), `RunLock` and
`Materializer` (the reference-counted run lock and the resumable download) and
`Activation` (the desktop activation queue).

## How the models are built

- A section that the source runs under a mutex is a function from the state it
  finds to the state it leaves.
- Where the source shares objects (relay sessions and streams, process leases,
  run locks), classes with the source's own fields stand for a protocol state:
  `Models(s)`, or the ghost field `model`, says which. Each method takes the
  objects from the old state to the one its step leads to, so a wrong pointer,
  a flag not set or a table entry left behind would fail.
- A protocol is a total function `Apply(state, step)`, so a run is any sequence
  of steps and a theorem about all runs quantifies over all sequences. Faults,
  clock readings, callback answers and crashes are parameters of steps. A crash
  inside a section is the section with the fault that stops it there, followed
  by the crash.
- Digests are free constructors over what they cover, hence injective.
  Identifiers carry a flag for whether the source's pattern accepts them.

## Where a property turned out to be conditional

- The fence refuses its own directory after a crash that keeps a start record
  but loses its unsynced claim, and after a clock that ran backwards between
  claim and authority check (`CrashOrphanRefused`, `BackwardClockRefused`). Every
  crash is survived exactly when the earlier stages of everything visible are
  durable before it (`CrashesAccepted`), and a run gets out of that condition
  exactly by a write that links a later stage over an unsynced earlier one and
  then fails to sync (`FenceProtocol.SeversIff`, `InseparableIff`); for the clock
  see `CommitAccepted`. `StoreAcceptsItsOwnDirectories` covers all runs without
  such a write, whatever their crashes keep.
- A crash can keep a finished process record and drop its unsynced active one
  (`OrphanIsReachable`). No crash can exactly when the active records of all
  finished runs are durable before it, and a run gets out of that condition
  exactly by a confirm that links the finished record over an unsynced active one
  and then fails to sync (`ProcessProtocol.SeversIff`, `InseparableIff`,
  `FinishedWasActive`). Such a run is refused from then on (`OrphanFailsClosed`).
- A download that stops between making the partial file read-only and renaming
  it is never resumed: every later attempt refuses that file. `Resumed` says that
  from an empty directory this is the only way to lose one.
- An integration keeps three promises, each under its own condition.
  `EffectsHaveDurableIntents`, one effect after a durable intent, needs that no
  intent is left unsynced while its effect can still come
  (`UnsyncedIntentMisleads` breaks it otherwise). `OneReceipt` needs that receipts
  are synced (`UnsyncedReceiptIsFollowed`). `DenialsAreTrue`, that a failed or
  canceled receipt is right, needs runs in which no intent and no denial is left
  unsynced while the effect can still come, and no look at an update that was
  applied but reported an error finds the target moved on by another writer;
  `AccidentMisleads` shows each of these leading to a false denial from whatever
  state it happens in, and `UnsyncedIntentIsReachable`,
  `UnsyncedReceiptIsReachable` and `OvertakableIsReachable` that they come up.
- A terminal event is revealed only over a recorded stop, and that stop is
  durable exactly when the run found no stop that was left unsynced
  (`TerminalEventIsBacked`); `UnsyncedRecovery` leaves such a stop and
  `UnsyncedStopIsAccepted` shows it accepted.
- Fencing everything leaves no live process only if adapters abandon a lease
  after their child is gone: a missing lock file proves nothing by itself when
  there is nothing to kill. `FenceAllLeavesNobody` states this for the whole loop.
- The mention search finds every mention exactly for names whose token cannot
  begin again inside itself after a boundary (`CompleteIff`); names without `@`
  are of that kind, `x @x` is not (`OverlappingName`).

## Model

| member | source | states |
|---|---|---|
| DurableDirectory.WriteExclusive | bridge/internal/admission/profiles.go:700-726 | a write never changes an existing record; only this name can appear and only with this record; success is exactly "newly created and the whole directory durable" |
| DurableDirectory.AfterCrash | bridge/internal/admission/profiles.go:700-726 | every durable record survives a crash unchanged, nothing else than a previously visible record is found, and what is found is durable |
| Timestamps.StampOrder | bridge/internal/admission/profiles.go:741-745 | comparing two rendered times as text is comparing the instants |
| Timestamps.FieldOrderIsTimeOrder | bridge/internal/admission/profiles.go:741-745 | comparing calendar fields from the year down is comparing the nanoseconds since year zero, leap years included |
| Timestamps.StampRoundTrip | bridge/internal/admission/profiles.go:741-745 | a rendered instant parses back to itself |
| Timestamps.ValidStampIsRendering | bridge/internal/admission/profiles.go:741-745 | a text is a valid profile time exactly when it is the rendering of some instant, and then of the one it parses to |
| RuntimeFence.Get | bridge/internal/admission/runtime_fence.go:502-543 | an accepted run has a claim; its state and start digest say exactly which later stages exist; "does not exist" exactly when a well-formed run has no claim, whatever else of it survived |
| RuntimeFence.Collect | bridge/internal/admission/runtime_fence.go:585-602 | the inventory is refused exactly when one run is refused, and otherwise lists the view of every run once |
| RuntimeFence.FindClash | bridge/internal/admission/runtime_fence.go:288-300 | a clash is found exactly when some admitted run shares workspace generation, identity or operation |
| RuntimeFence.Store.Inventory | bridge/internal/admission/runtime_fence.go:321-331 | the listed runs are exactly the accepted inventory of the journal |
| RuntimeFence.Store.Claim | bridge/internal/admission/runtime_fence.go:265-310 | the claim performed in place is the claim section on the journal it found |
| RuntimeFence.Store.Start | bridge/internal/admission/runtime_fence.go:365-423 | the authority is asked exactly for a claimed run under the expected digest; the run is invoked exactly when it agreed, the run is still claimed, the time is inside the window and not before the claim and the write succeeded, and then both records are durable; at most the start record is added |
| RuntimeFence.Store.Stop | bridge/internal/admission/runtime_fence.go:425-463 | an accepted stop leaves the run stopped with this outcome under the expected digests, newly written ones durable; a second outcome changes nothing; at most the stop record is added |
| RuntimeFence.Store.RecoverUnknown | bridge/internal/admission/runtime_fence.go:465-500 | it lists the inventory itself and closes what it found starting, in that order, up to the first failure; without an error every run found starting reads as stopped with outcome unknown and every other run reads as before |
| RuntimeFence.RecoverAllSettles | bridge/internal/admission/runtime_fence.go:476-500 | a recovery that returns without error settles every run of its inventory |
| FenceProtocol.StepKeeps | bridge/internal/admission/runtime_fence.go:265-500 | every claim, observation, authorization, commit, stop, recovery, process crash and machine crash keeps the journal typed, chained, exclusive and bounded and every past invocation durable and unique |
| FenceProtocol.AtMostOnePossibleStart | bridge/internal/admission/runtime_fence.go:365-423 | in every run with any crashes a run id is invoked at most once, and only by a call whose own callback agreed inside the admission window |
| FenceProtocol.WorkspacesStayExclusive | bridge/internal/admission/runtime_fence.go:288-300 | whatever clocks, faults and crashes do, at most 256 claims exist and no two share a workspace generation, identity or operation |
| FenceProtocol.InvokingCommit | bridge/internal/admission/runtime_fence.go:395-423 | a commit that grants the start has checked the window and leaves claim and start record durable |
| FenceProtocol.AcceptedExactly | bridge/internal/admission/runtime_fence.go:545-602 | a journal the store wrote is accepted by its own list exactly when stages are prefix-closed, no start predates its claim and the entry bound holds |
| FenceProtocol.EntriesBounded | bridge/internal/admission/runtime_fence.go:545-575 | prefix-closed stages need at most three entries per claim |
| FenceProtocol.NoCrashSeparatesIff | bridge/internal/admission/runtime_fence.go:545-602 | no crash can drop a stage under a later one exactly when the earlier stages of everything visible are durable before it |
| FenceProtocol.SeversIff | bridge/internal/admission/runtime_fence.go:395-500 | from such a journal a step leads to one where a crash could exactly when it is a commit, stop or recovery, past its checks, whose sync fails after it linked its stage over an unsynced earlier one |
| FenceProtocol.InseparableIff | bridge/internal/admission/runtime_fence.go:265-500 | a run contains no such step exactly when at no moment of it a crash could drop a stage under a later one |
| FenceProtocol.CrashesAccepted | bridge/internal/admission/runtime_fence.go:545-602 | every crash of an accepted directory leaves an accepted one exactly when the earlier stages of everything visible are durable before it |
| FenceProtocol.CrashAccepted | bridge/internal/admission/runtime_fence.go:545-602 | a given crash leaves an accepted directory exactly when what it kept is closed under earlier stages |
| FenceProtocol.CommitAccepted | bridge/internal/admission/runtime_fence.go:395-423 | a start record leaves an accepted directory exactly when it is not dated before its claim |
| FenceProtocol.StoreAcceptsItsOwnDirectories | bridge/internal/admission/runtime_fence.go:502-602 | with a nondecreasing clock, no write that severs a stage from an unsynced earlier one and at most 16 leftovers, every reachable directory is accepted by get and list with all their conditions, whatever crashes kept |
| FenceProtocol.BackwardClockRefused | bridge/internal/admission/runtime_fence.go:520-530 | a concrete run whose clock moves back between claim and start leaves a directory the store refuses |
| FenceProtocol.CrashOrphanRefused | bridge/internal/admission/runtime_fence.go:580-584 | a concrete run with two failed syncs and a crash leaves a directory the store refuses |
| FenceProtocol.ClaimReplay | bridge/internal/admission/runtime_fence.go:265-287 | repeating a successful claim at any time returns the same view and writes nothing |
| FenceProtocol.ClaimConflict | bridge/internal/admission/runtime_fence.go:265-287 | another spec for a claimed run is a conflict and writes nothing |
| FenceProtocol.StopReplay | bridge/internal/admission/runtime_fence.go:425-463 | a successful stop repeats harmlessly with the same outcome and conflicts with any other |
| FenceProtocol.RecoverAllIsSteps | bridge/internal/admission/runtime_fence.go:465-500 | recovering the whole inventory is a sequence of single recovery steps, so the run theorems cover it |
| FenceProtocol.RunGrows | bridge/internal/admission/runtime_fence.go:265-500 | while no machine crashes no record is ever changed or lost |
| FenceText.StampsAreTimes | bridge/internal/admission/profiles.go:741-745 | two valid time texts compare exactly like the times they stand for |
| FenceText.GetTextIsGet | bridge/internal/admission/runtime_fence.go:502-543 | reading a run from records with time texts, with the text comparisons of the source, gives the same answer as reading the times |
| FenceText.ListTextIsList | bridge/internal/admission/runtime_fence.go:545-602 | the inventory of text records is accepted exactly when that of their times is |
| FenceText.StoreAcceptsItsOwnTexts | bridge/internal/admission/runtime_fence.go:502-602 | under the same conditions every reachable directory written out as texts is accepted by the text-level reading, whatever crashes kept |
| ProcessStore.Get | bridge/internal/admission/process_store.go:623-672 | an accepted process has a prepared record and its view says exactly which other records exist |
| ProcessLeases.Store.PrepareProcess | bridge/internal/admission/process_store.go:241-303 | a successful prepare creates one new lease object with the lock file open, kept by the store; objects and disk then stand for the prepare step, errors included |
| ProcessLeases.GovernedLease.Started | bridge/internal/admission/process_store.go:433-445 | on every path the lock file is given up and the objects stand for the start step; a closed lease or store changes nothing and is refused |
| ProcessLeases.GovernedLease.Finished | bridge/internal/admission/process_store.go:447-460 | up to its unlock it is the begin-finish step: the lock file is closed, the store forgets the lease when the source does, and the lease is closed exactly when it is over without error |
| ProcessLeases.GovernedLease.FinishedWaited | bridge/internal/admission/process_store.go:539-562 | after the wait it is the confirm step of that call; the lease is closed and forgotten exactly on success |
| ProcessLeases.Store.FenceWaited | bridge/internal/admission/process_store.go:331-377 | the end of a fencing call is the confirm step and touches no lease object |
| ProcessLeases.GovernedLease.Abandon | bridge/internal/admission/process_store.go:462-475 | abandoning is the abandon step and closes the lease exactly on success; a closed lease returns success and nothing changes |
| ProcessLeases.Store.Close | bridge/internal/admission/process_store.go:385-422 | closing the store closes every lease it still has; no lock file stays open, as after the end of the bridge |
| ProcessLeases.QuietAgrees | bridge/internal/admission/process_store.go:305-377 | forks, exits, new fencing calls and their waits leave objects and protocol state in agreement |
| ProcessLeases.Store.RequireFinished | bridge/internal/admission/process_store.go:133-157 | true exactly for a finished run of that identity whose lock file is gone, and then nobody holds its lock |
| ProcessStore.WaitForLock | bridge/internal/admission/process_store_unix.go:42-78 | waiting succeeds exactly when the file is missing and nothing is to be killed, or some attempt finds the lock free and none before it failed |
| ProcessProtocol.StepKeeps | bridge/internal/admission/process_store.go:241-377 | every prepare, fork, exit, start, finish, abandon, fence, confirm, restart and crash keeps: who holds a lock is durably prepared and not finished; terminal records exclude each other |
| ProcessProtocol.FinishedMeansGone | bridge/internal/admission/process_store.go:504-600 | in every run a finished process has no live holder, no run has both terminal records, none is abandoned and active |
| ProcessProtocol.NoCrashSeparatesIff | bridge/internal/admission/process_store.go:593-609 | no crash can keep a finished record and drop its active one exactly when the active records of all finished runs are durable before it |
| ProcessProtocol.SeversIff | bridge/internal/admission/process_store.go:504-609 | from such a journal a step leads to one where a crash could exactly when it is a confirm, past its checks, whose sync fails after it linked the finished record over an unsynced active one |
| ProcessProtocol.InseparableIff | bridge/internal/admission/process_store.go:241-609 | a run contains no such step exactly when at no moment of it a crash could separate the two |
| ProcessProtocol.FinishedWasActive | bridge/internal/admission/process_store.go:593-609 | in every run without such a confirm every finished run has its active record, whatever crashes kept |
| ProcessProtocol.OrphanIsReachable | bridge/internal/admission/process_store.go:593-609 | for any run some sequence of faults and a crash leaves finished without active |
| ProcessProtocol.OrphanFailsClosed | bridge/internal/admission/process_store.go:623-672 | such a run is refused and never counts as finished |
| ProcessProtocol.FinishedStays | bridge/internal/admission/process_store.go:133-157 | until a machine crash, and across restarts of the bridge, a finished process stays finished under its identity |
| FenceAll.WaitIsSeeFree | bridge/internal/admission/process_store_unix.go:42-78 | whenever the waiting loop succeeds on the lock file as the state presents it, the protocol lets that operation go on |
| FenceAll.StepKeeps | bridge/internal/admission/process_store.go:159-183 | between the list and the return, every live process is still to be fenced or being fenced |
| FenceAll.FenceAllLeavesNobody | bridge/internal/admission/process_store.go:159-183 | if adapters abandon only when their child is gone, a fence-all that lists, fences one after another and returns success, with anything but a prepare in between, leaves no live process |
| CleanupProtocol.CleanupActionIsAlone | bridge/internal/admission/cleanup.go:60-76 | for as long as the cleanup callback runs, its run is stopped, its process finished under the same digests with nobody alive, and no other claim names that workspace generation |
| CleanupProtocol.NoStartAfterCleanup | bridge/internal/admission/runtime_fence.go:333-363 | once a workspace generation entered cleanup, no start for it is granted during the action or ever after, across crashes |
| AdmissionCoordinator.RunIsPlausible | bridge/internal/admission/coordinator.go:150-208 | the journals a start call meets at its locks in any run of the fence are ones its classification was written for |
| AdmissionCoordinator.CommittedIsCall | bridge/internal/admission/coordinator.go:150-208 | the call commits in that run as the call that observed, asked and was authorized, whatever others do in between |
| AdmissionCoordinator.ErrorsAreConservative | bridge/internal/admission/coordinator.go:150-208 | in every run of the fence around it, an error that does not report a possible start comes from a call that left no start record, at every failure point |
| AdmissionCoordinator.StartIsReported | bridge/internal/admission/coordinator.go:150-208 | in every run of the fence around it, a call that left a start record returns the invocation with the record durable, or reports a possible start |
| AdmissionCoordinator.InvokeMeansLeft | bridge/internal/admission/coordinator.go:150-208 | an invocation is returned only to the call that left the record, with its rechecks passed inside the window |
| RuntimeRunner.Run | bridge/internal/admission/runtime_runner.go:80-173 | on every path, failed checks included, the trace is lawful and stops exactly once past validation; the journal is what that stop leaves; the terminal event is withheld exactly when a check, the execution or the stop failed |
| RuntimeRunner.Execute | bridge/internal/admission/runtime_runner.go:114-141 | the callback loop hands on exactly the updates before the first terminal event, keeps that event and its outcome, and fails exactly when a call failed or the adapter went on after it |
| RuntimeRunner.TraceIsLawful | bridge/internal/admission/runtime_runner.go:80-158 | whatever the adapter emits, at most one terminal event is seen, last, directly after the accepted stop and marked when capture failed; capture runs only after a clean completion and verification only on its checkpoint |
| RuntimeRunner.StopIsRecorded | bridge/internal/admission/coordinator.go:212-232 | an accepted stop is in the journal under the decision's digests with its outcome, durable exactly when no unsynced stop was found; a refused one adds at most this record |
| RuntimeRunner.TerminalEventIsBacked | bridge/internal/admission/runtime_runner.go:80-158 | a terminal event that was revealed has its stop, with the outcome of the first terminal event, in the journal, and durably so exactly when no unsynced stop was found |
| RuntimeRunner.UnsyncedStopIsAccepted | bridge/internal/admission/coordinator.go:212-232 | over a matching stop left unsynced the stop is accepted and stays unsynced |
| RuntimeRunner.UnsyncedRecovery | bridge/internal/admission/runtime_fence.go:465-500 | a recovery whose sync fails leaves such a stop for every started run |
| IntegrationProtocol.Ensure | bridge/internal/integration/journal.go:133-148 | success means this record is the durable one; existing records never change; nothing else appears |
| IntegrationSafety.StepKeeps | bridge/internal/admission/integration.go:65-184 | every step of an execution, every other writer and every crash keeps the journal typed, the phase backed by its intent, and every effect's target past its expected commit |
| IntegrationSafety.EffectAtMostOnce | bridge/internal/admission/integration.go:128-141 | in every run, with any crashes and retries, each admission moves the target at most once |
| IntegrationSafety.EffectHasIntent | bridge/internal/admission/integration.go:65-103 | a step that moves the target does so from the expected commit to the candidate, with a visible intent equal to its admission and no receipt |
| IntegrationSafety.SucceededMeansHeld | bridge/internal/admission/integration.go:105-141 | a succeeded receipt handed over means the target held the candidate at a moment when the intent was journaled |
| IntegrationSafety.ReceiptIsFinal | bridge/internal/admission/integration.go:72-80 | once a receipt is durable, whatever follows, Git never runs again and only that receipt is handed over |
| IntegrationSafety.EffectsHaveDurableIntents | bridge/internal/admission/integration.go:81-103 | in every run that leaves no intent unsynced while its effect can still come, the operation moves the target at most once, whatever admissions it is retried under, and only with its intent durable |
| IntegrationSafety.OneReceipt | bridge/internal/admission/integration.go:160-184 | in every run whose receipts are synced all receipts handed over are one and the same |
| IntegrationSafety.DenialsAreTrue | bridge/internal/admission/integration.go:65-184 | in every run without one of the three accidents, every failed or canceled receipt handed over is true |
| IntegrationSafety.AccidentMisleads | bridge/internal/admission/integration.go:65-184 | each accident leads, from whatever state it happens in, to a denial handed over of an effect that happened |
| IntegrationSafety.LookDeniesWrongly | bridge/internal/repository/integration.go:105-132 | the look after an applied update denies it exactly when the update reported an error, the look worked and another writer is past the candidate |
| IntegrationSafety.OvertakenDenial | bridge/internal/repository/integration.go:115-132 | from every applied update with a reported error, an overtaking writer leads to a denial of an effect that happened |
| IntegrationSafety.UnsyncedIntentMisleads | bridge/internal/admission/integration.go:81-103 | from every state with an unsynced intent whose effect can still come, some run has an effect without durable intent and then denies it |
| IntegrationSafety.UnsyncedReceiptMisleads | bridge/internal/admission/integration.go:160-184 | from every state with an unsynced denial whose effect can still come, some run hands it over, loses it and then moves the target |
| IntegrationSafety.UnsyncedIntentIsReachable | bridge/internal/integration/write.go:11-40 | one failed sync of the intent reaches such a state |
| IntegrationSafety.UnsyncedReceiptIsReachable | bridge/internal/integration/write.go:11-40 | one failed sync of the receipt reaches such a state |
| IntegrationSafety.OvertakableIsReachable | bridge/internal/repository/integration.go:105-132 | an update that was applied but reported an error, before anybody overtakes it, is reachable for any admission |
| IntegrationSafety.UnsyncedReceiptIsFollowed | bridge/internal/admission/integration.go:160-184 | from every state with an unsynced receipt some run hands over two different receipts |
| ClientHello.ParserIsExact | ops/convenewire-relay/sni.go:52-111 | the parser returns a name exactly for the printed hellos with distinct extensions that name this valid host |
| ClientHello.PrintedHelloParses | ops/convenewire-relay/sni.go:52-78 | every well-formed hello parses back to itself |
| ClientHello.ParsedHelloPrints | ops/convenewire-relay/sni.go:52-78 | whatever parses is well-formed and prints back to the same bytes |
| ClientHello.ClientHelloServerName | ops/convenewire-relay/sni.go:52-111 | the cursor code with its checks computes the parser's answer on all bytes, with every index in range |
| ClientHello.ScanExtensions | ops/convenewire-relay/sni.go:79-111 | the extension loop with its seen map and hostname computes the answer for the remaining extensions |
| ClientHello.ReadServerName | ops/convenewire-relay/sni.go:16-50 | the record loop returns the reader's answer and as prefix exactly the bytes it consumed |
| ClientHello.AnyCutIsRead | ops/convenewire-relay/sni.go:16-50 | any hello that names a host, cut into any nonempty records of at most 16384 bytes that fit the maximum, with anything after it, is read to that name using exactly the records it takes |
| ClientHello.ReadIsCarried | ops/convenewire-relay/sni.go:16-50 | every success comes from whole valid records within the maximum that carry a hello naming that host |
| ClientHello.PrefixedConn.Read | ops/convenewire-relay/sni.go:113-123 | each read hands on the next bytes of the prefix and then of the connection, losing and repeating none |
| ClientHello.Replay | ops/convenewire-relay/server.go:185-199 | after reading the name, the replayed connection yields everything the client ever sent |
| RelaySafety.StepKeeps | ops/convenewire-relay/streams.go:25-109 | every section, frame, upgrade and close keeps the tables, seats, sockets, claims and wires consistent |
| RelaySafety.RoutesAndTokensCorrespond | ops/convenewire-relay/server.go:312-324 | in every interleaving routes and tokens are one-to-one through the sessions they name |
| RelaySafety.LimitsHold | ops/convenewire-relay/server.go:146-155 | connections, nodes and streams per node never exceed their limits |
| RelaySafety.ClaimedOnceNeverBlocked | ops/convenewire-relay/streams.go:56-90 | no stream is claimed twice, so the one-slot send under the mutex never blocks |
| RelaySafety.NoSocketLeaks | ops/convenewire-relay/streams.go:71-109 | a socket accepted for a closed stream is with its request, about to be closed or closed; once requests and closes have run it is closed |
| RelaySafety.LateRequestCloses | ops/convenewire-relay/streams.go:79-86 | a request that finds its stream closed hands its socket to be closed |
| RelaySafety.ClosedStaysEmpty | ops/convenewire-relay/server.go:362-378 | a closed session's stream table is empty after every further run |
| RelaySafety.RegisteredPrecedesOpen | ops/convenewire-relay/server.go:309-328 | on every control connection the registered frame is the first and only one of its kind |
| RelayServer.Server.Tracked | ops/convenewire-relay/server.go:146-155 | a connection is kept exactly when it is added below the limit; the objects stand for the track step |
| RelayServer.Server.Publish | ops/convenewire-relay/server.go:307-324 | the new session object is listed under its host and its token at once, or neither table changes; the objects stand for the register step |
| RelayServer.Server.OpenStream | ops/convenewire-relay/streams.go:25-37 | a new stream object joins the table of the very session the route points at, exactly when the relay and that session are open and below their limit |
| RelayServer.Server.ClaimStream | ops/convenewire-relay/streams.go:50-70 | the request gets the one object of that stream and uses up its claim, exactly once; otherwise no claim changes |
| RelayServer.Server.AttachStream | ops/convenewire-relay/streams.go:79-90 | with the object claimed earlier, whatever closed meanwhile: the channel is empty so the send cannot block, the socket is recorded exactly when stream, session and server are open, and otherwise is handed on to be closed |
| RelayServer.Server.CloseStream | ops/convenewire-relay/streams.go:92-109 | the first close marks the object, removes it from its session's table and returns the socket to close; later ones change nothing |
| RelayServer.Server.CloseSession | ops/convenewire-relay/server.go:362-378 | section and loop are a run of the protocol that ends with the session closed, both names gone, its table empty and every stream object it found closed |
| RelayLocks.NoDeadlock | ops/convenewire-relay/server.go:312-328 | any number of procedures that keep the lock discipline, in any interleaving, always have one that can go on |
| RelayLocks.ProceduresDisciplined | ops/convenewire-relay/streams.go:25-46 | openStream, streamRequest, controlSession and the closes take a write lock only with nothing held, on every path |
| RelayPump.PumpIsBoundedPrefix | ops/convenewire-relay/streams.go:111-183 | in every interleaving each side receives a prefix of what the other sent, at most the maximum is forwarded, and the counter passes it by at most 96 KiB |
| RelayPump.ReadingMeansDelivered | ops/convenewire-relay/streams.go:130-170 | a loop that is reading again has delivered all it admitted |
| RelayPump.WriteFull | ops/convenewire-relay/streams.go:185-199 | exactly the reported number of bytes goes out in order; success means all; a willing writer gets everything |
| RunProjection.BatchesFoldThePrefix | apps/web/src/room-sync.ts:65-145 | after any batches of one log a projection is the plain fold over its first events, and each batch takes it as far as it can go without a gap |
| RunProjection.ActivitiesAreExact | apps/web/src/room-sync.ts:78-106 | items are unique by id in first-appearance order with the last kind, phase and label, and the content since the last reset, cut to its last 20000 units once something was appended |
| RunProjection.OutputIsExact | apps/web/src/room-sync.ts:118-145 | live output is everything since the last reset until the run ends, and empty and sealed for good afterwards |
| RunProjection.ProjectionsAreExact | apps/web/src/room-sync.ts:65-145 | after any batches the activities are exact for the prefix seen, and the live output is everything spoken in it until the run ends and empty from then on |
| RunProjection.ReduceRunActivities | apps/web/src/room-sync.ts:65-108 | the loop over the sorted records consumes exactly the next ones in order |
| RunProjection.ReduceRunOutput | apps/web/src/room-sync.ts:118-145 | likewise for the output |
| RunProjection.FindIndex | apps/web/src/room-sync.ts:80-82 | the loop finds the first item with the id |
| Mentions.FindMentionToken | apps/web/src/structured-mentions.ts:25-39 | the search loop returns the first token between boundaries among those it looks at |
| Mentions.CompleteIff | apps/web/src/structured-mentions.ts:25-54 | the search finds every mention in every text exactly for names that do not overlap themselves |
| Mentions.PlainNamesDoNotOverlap | apps/web/src/structured-mentions.ts:25-54 | names without @ do not overlap themselves |
| Mentions.OverlappingName | apps/web/src/structured-mentions.ts:25-54 | a concrete name with @ and a text in which its second mention is overlooked |
| Mentions.LongestMentionIndexes | apps/web/src/structured-mentions.ts:41-73 | the three loops give each name exactly its list of positions |
| Mentions.IndexesAreLongest | apps/web/src/structured-mentions.ts:41-73 | a position is listed under a name exactly when that name is the longest known token between boundaries there |
| Mentions.OneNamePerPosition | apps/web/src/structured-mentions.ts:41-73 | no position is listed under two names, whatever the names |
| Mentions.IndexesAscend | apps/web/src/structured-mentions.ts:69-71 | every list of positions is strictly ascending |
| MentionCommands.FirstMentionIsLeast | apps/web/src/structured-mentions.ts:75-119 | for names that do not overlap themselves the first mention is the least position where the name is the longest one mentioned |
| MentionCommands.ResolveExactMentionCommands | apps/web/src/structured-mentions.ts:75-119 | @all gives every eligible agent once; otherwise exactly the eligible agents with a visible unshared name, by first position, and exactly the ambiguous names, by first position |
| MentionCommands.RetainVisibleMentionIds | apps/web/src/structured-mentions.ts:121-142 | an id stays exactly when fewer earlier ids asked for its name than mentions are visible |
| MentionCommands.RetainedCounts | apps/web/src/structured-mentions.ts:121-142 | per name exactly the smaller of requested and visible are kept |
| MentionCommands.RetainedIsSubsequence | apps/web/src/structured-mentions.ts:121-142 | the kept ids are a subsequence of the requested ones |
| RunLock.StepKeeps | bridge/internal/artifact/materializer.go:341-360 | entering, locking, unlocking and leaving keep counts, links and holders exact |
| RunLock.MutualExclusion | bridge/internal/artifact/materializer.go:341-360 | two callers never hold the lock of one run together |
| RunLock.OneLockPerRun | bridge/internal/artifact/materializer.go:341-360 | two lock objects are never in use for one run |
| RunLock.MapIsExact | bridge/internal/artifact/materializer.go:341-360 | the map holds exactly the runs in use with their true positive counts and is empty once all have left |
| RunLock.Materializer.Register | bridge/internal/artifact/materializer.go:341-350 | the caller gets the one lock object of its run, new exactly when the run had none, with the count of the enter step; its release function captures that object |
| RunLock.Materializer.Deregister | bridge/internal/artifact/materializer.go:351-359 | releasing the captured object is the leave step: deleting the entry by run id deletes this object, exactly with the last reference, while every other caller's object stays in the map |
| Materializer.Staging.MaterializeOne | bridge/internal/artifact/materializer.go:177-254 | for any server success means installed read-only bytes of the pinned size and digest; requests go on where the stored bytes end; an honest server's files stay prefixes and content; an undisturbed attempt then succeeds exactly when the directory is not spoilt by a stop between chmod and rename, after which nothing changes any more |
| Materializer.Staging.Download | bridge/internal/artifact/materializer.go:220-234 | the requested ranges tile the rest in chunks, and success means all bytes are stored |
| Materializer.Staging.Append | bridge/internal/artifact/materializer.go:456-474 | a whole or torn append of the right piece keeps a prefix |
| Materializer.TilesCoverOnce | bridge/internal/artifact/materializer.go:224-234 | ranges that tile ask for every byte exactly once |
| Materializer.Attempts | bridge/internal/artifact/materializer.go:177-254 | after any number of interrupted attempts an honest server's partial file is a prefix of the content |
| Materializer.Resumed | bridge/internal/artifact/materializer.go:177-254 | from an empty directory and after any attempts against an honest server, an undisturbed attempt installs the content exactly when none of them stopped between chmod and rename |
| Activation.StepKeeps | bridge/cmd/convenewire-bridge-desktop/activation.go:86-159 | every accept, ready, drain and close keeps one drain per pending intent and deliveries in step with acknowledgements |
| Activation.ExactlyOneDrain | bridge/cmd/convenewire-bridge-desktop/activation.go:131-152 | before close a pending intent with a ready receiver has exactly one outstanding drain |
| Activation.DeliveredInOrder | bridge/cmd/convenewire-bridge-desktop/activation.go:86-152 | acknowledged links are delivered at most once and in order; before close each is delivered or still waiting |
| Activation.DrainedMeansDelivered | bridge/cmd/convenewire-bridge-desktop/activation.go:139-152 | when all drains have run nothing is pending and every intent was delivered |
| Activation.NeverReplaced | bridge/cmd/convenewire-bridge-desktop/activation.go:96-105 | a waiting link is neither replaced nor erased by any step but its own delivery or close |
| Activation.AcknowledgedWillBeDelivered | bridge/cmd/convenewire-bridge-desktop/activation.go:86-112 | an acknowledged launch has an outstanding drain that delivers it |
| Activation.DesktopActivation.Offer | bridge/cmd/convenewire-bridge-desktop/activation.go:86-112 | accept performed in place is the accept step with its answer |
| Activation.DesktopActivation.BecomeReady | bridge/cmd/convenewire-bridge-desktop/activation.go:114-129 | ready in place is the ready step |
| Activation.DesktopActivation.RunDrain | bridge/cmd/convenewire-bridge-desktop/activation.go:139-152 | drain in place is the drain step |
| Activation.DesktopActivation.Shut | bridge/cmd/convenewire-bridge-desktop/activation.go:154-159 | close in place is the close step |

## Left out

- Filesystem permissions, symbolic links and inode pins, JSON and schema validation, identifier patterns: records and identifiers are accepted or refused as a whole.
- The order in which the fence lists its runs: the inventory is a map, and the code's sort by run id is not modelled.
- ProcessLeases: a call that waits with the store unlocked is two methods, and the mutexes of store and lease are the atomicity of each.
- ProcessLeases: closing a lock file is taken to succeed; the source joins a failing close to its answer.
- The process store for a node owner and the Windows process fencing.
- Times after the year 9999, which the fixed-width text cannot show.
- Liveness of timers, and the recovery of a run stuck by a leftover lock file, where the code fails closed.
- AdmissionCoordinator: the callback is one answer; what it looks at is not modelled.
- The preparation half of the admission coordinator, profiles and grants: their checks are the callback's answer.
- IntegrationProtocol: one execution of an operation at a time, because the data directory has one owner; it is a state machine so that a crash can fall between any two steps, not an object.
- IntegrationProtocol: an update-ref is taken to be over, applied or not, before its execution goes on or dies; a Git child that outlives the bridge is not modelled.
- RelayTable: a control write that fails is taken to break its connection, and tokens and stream identifiers are fresh because they are 32 random bytes.
- HTTP handling, TLS set-up, WebSocket and HTTP-01 forwarding of the relay, and its 64-bit counter overflow.
- Materializer: a machine crash that undoes a rename before the directory sync is not modelled; only processes stop and writes tear.
- Materializer: the receipts' JSON and the metadata headers of a download are part of "the server answers or does not".
- removeVisibleMentionToken, mergeRoomMessages and teamChangeRefreshScope would only add easy members.
- Characters are code points where JavaScript counts UTF-16 units.
- Link parsing and the encrypted envelope of the desktop activation.
