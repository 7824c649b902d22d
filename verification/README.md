# HID transport, verified model

A Dafny model of the hard parts of a FIDO client library written in Go and C: the supervisor that owns a
native HID handle, the CTAPHID session above it, the HID report descriptor parser, credential enumeration
over CTAP2 and a power-event reducer. The theorems are statements about every run, every interleaving or
every input of these parts.

## How the model is organised

| file | what it holds |
|---|---|
| `Framing.dfy` | CTAPHID fragmentation and reassembly (section 11.2.4 of CTAP 2.1) |
| `FramingBytes.dfy` | the reports byte by byte |
| `MessageReader.dfy` | reading one message from a channel: foreign reports, keepalives, device errors |
| `WireLog.dfy` | what was sent and heard, and the device as the set of answers it may give |
| `ExchangeQueue.dfy` | the mutex that callers of a session wait for, each with its own context |
| `SessionOutcome.dfy`, `SessionAnswers.dfy` | how a call ends as a function of what the connection and the context do, and what that is for answered, refused and lost messages |
| `Session.dfy` | handshake, one exchange with its delivery evidence, any sequence of calls |
| `SessionQueue.dfy` | a session with concurrent callers and closes |
| `Supervisor.dfy` | the critical sections of a connection, as functions and as methods of an object with a ring buffer |
| `SupervisorRuns.dfy` | the driver contract as an automaton, and every interleaving of pump, readers, writers and cleanup |
| `OpenConnection.dfy` | what an open connection does: the exact causes of retirement, admission, input, reads and writes |
| `Pool.dfy` | process-wide leases and memory budget, and every run of opens together with their connections |
| `NativeWriter.dfy` | the macOS writer thread, and its composition with the supervisor |
| `Transport.dfy` | one exchange from the session through supervisor and writer thread to the system call |
| `ReportDescriptor.dfy`, `ReportLayout.dfy`, `ReportParser.dfy` | the strict descriptor parser and what its state means |
| `ReportAcceptance.dfy` | which descriptors the parser accepts |
| `ContextLaws.dfy` | the laws of the item context |
| `UsageScan.dfy` | the tolerant scan, the inventory, and when the scan agrees with the parser |
| `DescriptorEncoding.dfy` | writing descriptors, and the plainest device that is supported |
| `Enumeration.dfy` | an authenticator with an enumeration cursor, and the credential listing over it |
| `PowerReducer.dfy` | the power-event counter machine with wrapping counters |

Code that updates state in place is modelled by classes and by methods with loops. Their contracts equate
the new state with a function of the old one (or state the result outright), and the theorems over runs are
lemmas about those functions. Concurrency is modelled by steps: everything the source does under one mutex
is one step, every native call has a begin and an end step, and contexts, timers and the driver act at any
moment.

### Assumptions about the environment

* On the channels the session sends requests on, the CTAPHID device answers a request only after it was
  started, at most once and in order, and it never allocates a channel twice. Which requests are answered,
  with how many keepalives, is free. All other channels are unconstrained: they carry the traffic of other
  clients and of earlier sessions, which may appear anywhere (`WireLog.ForeignTrafficIsLegal`).
* The authenticator's answers to credential management are its own. A call can fail for any reason, before
  or after the authenticator acted on it, and then leaves the enumeration cursor anywhere.
* Native calls return eventually only where a theorem says so (`SupervisorRuns.CleanupCannotStall` and
  `SupervisorRuns.RetirementCompletes` count the returns that are still missing).

### Where the code does not do what one would expect

* The assembler does not enforce the sender's size limit: messages longer than `maxPayloadSize` assemble,
  and their sequence bytes pass 127 (`Framing.OversizeAccepted`).
* The layout recorded for a collection with two or more report IDs in a direction depends on the iteration
  order of a Go map, and only then (`DescriptorParser.LayoutOrderFree`); whether a collection is supported
  never does (`DescriptorParser.ParseDescriptor`).
* The two descriptor passes read different leftovers for a collection that no Usage or Usage Minimum names.
  `UsageScan.PassesCanDisagree` is such a descriptor; `UsageScan.ScanAgrees` is the exact condition.
* The writer thread keeps its promises only to callers that respect the driver contract: overlapping writes
  mix their results and a Close under a pending write strands it (`NativeWriter.OverlapMixesResults`,
  `NativeWriter.CloseStrandsPendingWrite`). The supervisor is such a caller (`Composition.OutcomesReachTheSystem`).
* The power reducer's counters wrap: after 2^64 cancelled sleeps it accepts a run it should not
  (`PowerReducer.WrapForgets`). Below that length it is exact.

## Model

| member | source | states |
|---|---|---|
| `Framing.Fragment` | pkg/wire/hid/codec.go:51-78 | the loop returns exactly the padded reports of the payload, or refuses payloads over either limit |
| `Framing.Assembler.Add` | pkg/wire/hid/codec.go:86-118 | one report changes the assembler as the specification says, or is refused for the first reason that applies |
| `Framing.Assembler.Payload` | pkg/wire/hid/codec.go:126-131 | the payload exists exactly when the message is complete |
| `Framing.FramingExact` | pkg/wire/hid/codec.go:51-118 | a list of reports assembles to a payload if and only if it is that payload's fragmentation on every byte that is not padding |
| `Framing.RoundTrip` | pkg/wire/hid/codec.go:51-131 | the reports of a payload assemble to it, each is accepted, and no proper prefix is complete |
| `Framing.PacketsInjective` | pkg/wire/hid/codec.go:51-78 | different payloads have different reports |
| `Framing.PacketHeaders` | pkg/wire/hid/codec.go:56-76 | each report names the channel; the first carries the command, the others sequence numbers 0, 1, 2, ... below 128 |
| `FramingBytes.ReportBytes` | pkg/wire/hid/codec.go:56-76 | every report byte by byte: channel and length by big-endian weights, command or sequence number, its chunk of the payload, zeros; the last report completes the payload |
| `FramingBytes.ChunkStartExact` | pkg/wire/hid/codec.go:61-75 | where each report's chunk starts in the payload |
| `FramingBytes.LimitExact` | pkg/wire/hid/codec.go:140-143 | the sender's limit is what fits into one initial and 128 continuation reports, 7609 bytes in 64-byte reports |
| `Framing.OversizeAccepted` | pkg/wire/hid/codec.go:97-143 | the assembler accepts messages beyond the sender's limit, whose sequence bytes reach 128 |
| `MessageReader.EventSource.ReadChannel` | pkg/transport/usb/hid_init.go:132-148 | the loop returns the next report of the channel, consuming exactly the reports before it |
| `MessageReader.EventSource.ReadRest` | pkg/transport/usb/hid_protocol.go:45-68 | a started keepalive or error message is read to its end and nothing more |
| `MessageReader.EventSource.ReadHIDMessage` | pkg/transport/usb/hid_protocol.go:10-113 | the reading loop computes the specified outcome and leaves exactly the specified rest |
| `MessageReader.ReadMessageExact` | pkg/transport/usb/hid_protocol.go:10-113 | a payload or a device error is returned if and only if the consumed events hold, on the channel, complete keepalives and then that message, ending with its last report |
| `MessageReader.FragmentedResponseIsRead` | pkg/transport/usb/hid_protocol.go:10-68 | through any interleaving with other channels and any keepalives, a fragmented response is returned and nothing past it is consumed |
| `MessageReader.ExchangePrefixFree` | pkg/transport/usb/hid_protocol.go:10-44 | keepalives and a closing message are prefix-free: the reports alone say where an exchange ends and what it carries |
| `WireLog.Pairs` | pkg/transport/usb/hid_session.go:54-69 | on a channel with nothing outstanding, a request and one complete exchange are paired, and nothing is outstanding again |
| `WireLog.ForeignTrafficIsLegal` | pkg/transport/usb/hid_init.go:132-148 | any report on a channel the session sends no requests on leaves the hypothesis of the pairing theorem true |
| `WireLog.UnusedIsQuiet` | pkg/transport/usb/hid_init.go:43-48 | before the first request on a channel nothing is outstanding there |
| `Session.NewChannelIsUnused` | pkg/transport/usb/hid_init.go:39-47 | no request was ever started on a freshly allocated channel, whatever was heard on it or on others |
| `Session.ProbedIsQuiet` | pkg/transport/usb/hid_init.go:43-55 | an echoed PING on a channel never used before leaves nothing outstanding there |
| `Session.InitReplyAllocates` | pkg/transport/usb/hid_init.go:77-89 | an accepted INIT response is an allocation heard on the broadcast channel |
| `Session.RecordedExact` | pkg/transport/usb/hid_session.go:101-109 | the progress record counts exactly the completed reports and is clear exactly when every report ended NotSubmitted |
| `Session.HidSession.WritePacket` | pkg/transport/usb/hid_session.go:87-114 | one report at most, recorded with its outcome, and an error unless it completed |
| `Session.HidSession.WritePackets` | pkg/transport/usb/hid_exchange.go:50-57 | a prefix of the reports, in order, each once, all of them on success |
| `Session.HidSession.ExchangeMessage` | pkg/transport/usb/hid_exchange.go:39-63 | the message's reports are sent once; a response or device error is one complete exchange among the events consumed |
| `Session.HidSession.ExchangeInit` | pkg/transport/usb/hid_init.go:63-90 | one INIT on the broadcast channel; the response carries the nonce |
| `Session.HidSession.AllocateChannel` | pkg/transport/usb/hid_init.go:30-42 | the channel is neither 0 nor broadcast, was allocated by a reply, and no request was ever started on it |
| `Session.HidSession.ProbeChannel` | pkg/transport/usb/hid_init.go:47-55 | one PING at most; when it is echoed on a channel never used before, nothing is outstanding there |
| `Session.HidSession.InitializeChannel` | pkg/transport/usb/hid_init.go:25-61 | only handshake reports are sent, at most 21 INITs and 21 PINGs, none after a failed write; success means a channel with nothing outstanding |
| `Session.HidSession.Admit` | pkg/transport/usb/hid_session.go:31-52 | exactly what is refused before the transaction and in which order: no context, an unsendable request, a context that expires before or in the queue, a late one, a closed session; only the late one retires the session |
| `Session.HidSession.Exchange` | pkg/transport/usb/hid_session.go:30-78 | the result and the session it leaves are those of the specified outcome of the script; application reports are a prefix of the request's fragmentation, the whole on success; failures carry true evidence and retire the session unless the device answered; a response answers this very request; a Close by another caller at any point is seen at the next report and leaves the session closed |
| `SessionAnswers.FragmentsArrive` | pkg/transport/usb/hid_protocol.go:10-68 | the arriving message the session theorems ask for is met by any fragmented keepalives and message, through any accepted reports of other channels |
| `SessionAnswers.AnsweredExchange` | pkg/transport/usb/hid_session.go:54-77 | on an open session with a channel, confirmed reports and an arriving answer return that answer, an arriving ERROR its code, and the session stays open |
| `SessionAnswers.AnsweredFirstExchange` | pkg/transport/usb/hid_session.go:70-85 | the same for the first exchange, whose handshake is answered |
| `SessionAnswers.HandshakeAnswered` | pkg/transport/usb/hid_init.go:25-130 | up to twenty attempts whose INIT or PING is lost or answered with channel busy do not keep the handshake from the channel of the next one |
| `SessionAnswers.HandshakeEnds` | pkg/transport/usb/hid_init.go:110-130 | any other failure ends the handshake at once, and so does the twenty-first attempt |
| `SessionAnswers.FirstReport` | pkg/transport/usb/hid_session.go:134-151 | the command byte of a request, from the request's bytes |
| `SessionAnswers.HandshakeReports` | pkg/transport/usb/hid_init.go:63-76 | the bytes of INIT with its nonce and of the empty PING |
| `SessionAnswers.CommandRefused` | pkg/transport/usb/hid.go:33-42 | exactly the zero, encoded and session-owned commands are refused, without effect |
| `SessionAnswers.ClosesOnFailure` | pkg/transport/usb/hid_session.go:47-69 | among refusals only a context that expires right before the first check closes the session; every failure that is not the device's own error does |
| `SessionAnswers.ClosedForGood` | pkg/transport/usb/hid_lifetime.go:38-65 | a closed session stays closed and answers nothing, whatever calls follow |
| `Session.HidSession.ObserveClose` | pkg/transport/usb/hid_lifetime.go:38-47 | a Close by another caller sets the flag whatever becomes of the transaction |
| `Session.HidSession.Conclude` | pkg/transport/usb/hid_session.go:54-69 | a non-definitive failure retires the session and is ambiguous if any report completed |
| `Session.RequestEvidence` | pkg/transport/usb/hid_error.go:24-49 | the packet count is exact; stage `response` implies every report completed; an unambiguous failure implies no report completed or is unknown |
| `Session.HidSession.Run` | pkg/transport/usb/hid_session.go:18-78 | over any sequence of calls, with any traffic on other channels, each call ends as its script says on the session the calls before it left, and every response is the device's answer to the request that very call sent, whole and once, in its own part of the log; later responses on a channel answer later requests |
| `SessionQueue.RunConcurrently` | pkg/transport/usb/hid_session.go:30-78 | the same for any schedule of concurrent callers and of closes at any moment, also inside a transaction: what is performed is the mutex's transactions in their order, each caller's at most once |
| `ExchangeQueue.TransactionsAreSequential` | pkg/transport/usb/hid_exchange.go:13-37 | however callers come, wait, are cancelled and leave, at most one has the slot, transactions never overlap, and a refused caller never started one |
| `ExchangeQueue.WaitersCanGoOn` | pkg/transport/usb/hid_exchange.go:18-37 | a waiting caller can take the slot or the caller that has it can move |
| `ExchangeQueue.EntersOnce` | pkg/transport/usb/hid_exchange.go:18-33 | no caller starts two transactions |
| `ExchangeQueue.ExchangeMutex.Check` | pkg/transport/usb/hid_exchange.go:19-21 | a caller whose context has expired is refused, as the step of the same name |
| `ExchangeQueue.ExchangeMutex.Await` | pkg/transport/usb/hid_exchange.go:23-33 | every way the wait can end is a sequence of steps of the state the mutex stands for: inside with the slot, refused without it, or given back when the context expired too |
| `ExchangeQueue.ExchangeMutex.Unlock` | pkg/transport/usb/hid_exchange.go:35-37 | the slot is free again, as the step that ends the transaction |
| `ExchangeDelivery.UnambiguousMeansUntouched` | pkg/transport/usb/hid_session.go:54-69 | after a failed exchange that is neither a device error nor ambiguous, the system call is never made with any report of its request |
| `ExchangeDelivery.DeliveredMeansSet` | pkg/transport/usb/hid_session.go:73-77 | an exchange that began reading its response had every report of the request accepted by the system, in order, each by its own call |
| `ExchangeDelivery.RequestCarried` | pkg/transport/usb/hid_session.go:94-110 | successive Write calls are successive writes of the supervisor, with the reports and outcomes the session recorded, for the rest of the run |
| `Supervisor.Connection.RetireLocked` | pkg/hid/connection.go:45-64 | the first reason is kept and the queue is emptied; later calls change nothing |
| `Supervisor.Connection.PumpDeliver` | pkg/hid/connection.go:83-116 | a valid report is appended to the FIFO the ring holds; anything else, or a full ring, retires |
| `Supervisor.Connection.ReadAdmit` | pkg/hid/read.go:17-33 | one reader at a time |
| `Supervisor.Connection.ReadPoll` | pkg/hid/read.go:42-71 | the oldest report, a closing error, a local timeout or a wait, in the source's order of precedence |
| `Supervisor.Connection.WriteAdmit` | pkg/hid/write.go:34-53 | refused without effect, or admitted with a worker counted |
| `Supervisor.Connection.WorkerSubmit` | pkg/hid/write.go:83-96 | submission happens only on a connection that is not retiring |
| `Supervisor.Connection.WorkerComplete` | pkg/hid/write.go:97-112 | the driver's answer is recorded once and anything but confirmed completion retires |
| `Supervisor.Connection.WriteDecide` | pkg/hid/write.go:59-78 | the outcome told to the caller |
| `Supervisor.RingPush` | pkg/hid/connection.go:110-111 | writing behind the last element of the ring appends to the queue it holds |
| `Supervisor.RingPop` | pkg/hid/read.go:57-60 | clearing the head of the ring removes the front of the queue |
| `DriverContract.NothingAfterClose` | pkg/hid/internal/driver/driver.go:65-74 | in an obedient history nothing begins after Close |
| `SupervisorRuns.StepKeeps` | pkg/hid/connection.go:45-118 | every step of every goroutine keeps the invariant tying worker count, retirement, admissions, queue and native calls together |
| `SupervisorRuns.HandleSafety` | pkg/hid/connection.go:45-118 | in every interleaving the handle is closed at most once, with no native call in flight, and none starts afterwards |
| `SupervisorRuns.WriteOutcomesAreTrue` | pkg/hid/write.go:54-113 | for the rest of the run: no error means Completed, NotSubmitted means the native write never runs unless the driver said so, an error leaves the connection retiring |
| `SupervisorRuns.NoSpuriousWriteError` | pkg/hid/write.go:70-78 | an admitted write that wakes is completed or cancelled, so the last return is never taken |
| `SupervisorRuns.InputIsFifo` | pkg/hid/connection.go:93-117 | what readers took is a prefix of what the pump accepted, and until retirement the at most 64 queued reports are the difference |
| `SupervisorRuns.NothingAfterRetirement` | pkg/hid/connection.go:49-54 | for the rest of the run after retirement nothing is accepted or returned, and retirement is permanent |
| `SupervisorRuns.TimeoutsAreLocal` | pkg/hid/read.go:42-80 | every timeout a Read call is about to report in a run was decided at a moment when the connection was open and everything accepted had been taken, and deciding it changed nothing |
| `SupervisorRuns.NoLostWakeup` | pkg/hid/read.go:71-79 | a parked reader with input waiting, a retired connection or a cancelled context can always go on |
| `SupervisorRuns.CloseMeansClosed` | pkg/hid/connection.go:122-149 | a Close that reports completion returns after the handle is closed and the lease released |
| `SupervisorRuns.CleanupCannotStall` | pkg/hid/connection.go:55-63 | a retiring connection that is not finished always has a step of the pump, a worker or the cleanup to take |
| `SupervisorRuns.RetirementCompletes` | pkg/hid/connection.go:43-64 | whatever is scheduled, a retiring connection takes at most a bounded number of such steps, and once it has none left the handle is closed and the lease released |
| `OpenConnection.RetiresExactly` | pkg/hid/connection.go:73-118 | an open connection retires at a step if and only if a native read failed, a report does not fit or finds 64 queued, an expired context is observed by a read, a write worker or a write caller, the driver did not complete a write cleanly, or Close was called |
| `OpenConnection.InputIsKept` | pkg/hid/connection.go:93-116 | a fitting report on an open connection with room is queued, the reader is woken and the pump goes on |
| `OpenConnection.IdlePollGoesOn` | pkg/hid/connection.go:82-87 | a poll without input changes nothing |
| `OpenConnection.PumpKeepsReading` | pkg/hid/connection.go:73-92 | the pump of an open connection never stops |
| `OpenConnection.ReadAdmission` | pkg/hid/read.go:17-33 | a read is admitted exactly on an open connection without another reader; a refusal changes nothing |
| `OpenConnection.ReadRound` | pkg/hid/read.go:42-71 | what each round of a read comes to, by context, state, queue and cause of waking |
| `OpenConnection.WriteAdmission` | pkg/hid/write.go:34-53 | the same for writes |
| `OpenConnection.NextWriteIsAdmitted` | pkg/hid/write.go:44-54 | when all earlier writes have returned an open connection admits the next |
| `OpenConnection.SubmissionExact` | pkg/hid/write.go:83-96 | the report goes to the driver exactly if the connection is open and the context good |
| `OpenConnection.WriteSucceedsExactly` | pkg/hid/write.go:54-113 | a write that was not cancelled succeeds if and only if the driver completed it without an error, and is told the driver's outcome, or NotSubmitted if the driver was never called |
| `OpenConnection.CloseExact` | pkg/hid/connection.go:141-148 | Close reports completion exactly when the cleanup is finished |
| `Resources.ResourcePool.ReserveEndpoint` | pkg/hid/resources.go:31-42 | a balanced pool stays balanced and refuses for lack of resources exactly at 64 leases |
| `Resources.ResourcePool.ReleaseEndpoint` | pkg/hid/resources.go:44-49 | a balanced pool stays balanced exactly if the endpoint was leased |
| `Resources.ResourcePool.ChargeEnumeration` | pkg/hid/resources.go:54-67 | an enumeration that holds the slot is never refused |
| `Resources.ReserveExact` | pkg/hid/resources.go:8-42 | the byte test never decides |
| `PoolRuns.OpenRace.Settle` | pkg/hid/native.go:126-142 | a device is kept exactly if its caller has not given up and nothing failed |
| `PoolRuns.OpenRace.Wake` | pkg/hid/native.go:148-154 | the caller takes the result or leaves the cleanup to the worker |
| `PoolRuns.OpenSucceedsExactly` | pkg/hid/native.go:112-142 | an opened device becomes a connection if and only if there is a device without error, for the endpoint asked for, with report sizes in 1..4096, and its caller has not given up |
| `PoolRuns.ConnectsOnlySettling` | pkg/hid/native.go:126-142 | no other step makes or loses a connection |
| `PoolRuns.WakingCaller` | pkg/hid/native.go:144-154 | a waking caller gets the connection or error if there is one, and gives up exactly otherwise |
| `PoolRuns.LeaseOwnership` | pkg/hid/native.go:93-155 | each leased endpoint has exactly one owner among all opens and connections, and two open handles for it never coexist |
| `PoolRuns.ReleasedOnce` | pkg/hid/native.go:126-142 | each lease is released exactly once, when it stops being owned, with its handle closed |
| `PoolRuns.ReleaseIsSafe` | pkg/hid/connection.go:55-63 | a release is always of a leased endpoint whose handle is closed |
| `PoolRuns.ConnectionsReachTheirCaller` | pkg/hid/native.go:126-155 | a connection exists only for a caller that gets it |
| `PoolRuns.LeasesComeBack` | pkg/hid/native.go:126-142 | the lease of an abandoned or failed open, and of a retiring connection, comes back after boundedly much work, with the handle closed |
| `PoolRuns.DoomedCannotStall` | pkg/hid/native.go:112-143 | such an open always has work it can do until its lease is released |
| `PoolRuns.BudgetIsTight` | pkg/hid/resources.go:8-74 | the byte counter is exactly accounted for, never over 64 MiB, and the byte tests never refuse |
| `NativeWriter.Connection.EnterWrite` | pkg/hid/internal/darwin/connection_darwin.c:251-269 | a report is handed over or refused, with the flags as specified |
| `NativeWriter.Connection.PublishResult` | pkg/hid/internal/darwin/connection_darwin.c:138-151 | the result is published and the thread leaves exactly if the signal mask was lost |
| `NativeWriter.WritesGetTheirOwnResult` | pkg/hid/internal/darwin/connection_darwin.c:251-274 | under the driver contract every write is told whether its own report was set, and whether that succeeded |
| `NativeWriter.RefusedExactly` | pkg/hid/internal/darwin/connection_darwin.c:251-269 | in any run a write is refused if and only if its length is wrong, a disconnect was asked for, the input failed or the mask was lost; otherwise it is handed to the writer |
| `NativeWriter.WriteSucceedsExactly` | pkg/hid/internal/darwin/connection_darwin.c:107-127 | a finished write is error-free if and only if its report was set successfully and the mask restored after it |
| `NativeWriter.ReportsAreSetOnce` | pkg/hid/internal/darwin/connection_darwin.c:129-158 | reports are set in the order of the calls, none twice and none after a failed mask restore |
| `NativeWriter.PendingWritesAreServed` | pkg/hid/internal/darwin/connection_darwin.c:129-158 | the writer never exits while a write waits for it |
| `NativeWriter.WriterServes` | pkg/hid/internal/darwin/connection_darwin.c:129-158 | every step of the writer brings a waiting write nearer to its own result, and the last delivers it |
| `NativeWriter.DisconnectEnds` | pkg/hid/internal/darwin/connection_darwin.c:276-301 | after a disconnect the writer exits at its next wait and the connection can be freed |
| `NativeWriter.FreedMeansUnused` | pkg/hid/internal/darwin/connection_darwin.c:276-301 | when the connection is freed its writer has exited and no write is inside |
| `NativeWriter.OverlapMixesResults` | pkg/hid/internal/darwin/connection_darwin.c:259-271 | without the contract a write can be told about another one's report |
| `NativeWriter.CloseStrandsPendingWrite` | pkg/hid/internal/darwin/connection_darwin.c:133-135 | without the contract a pending write can wait forever |
| `Composition.SupervisedWriterIsSafe` | pkg/hid/internal/driver/driver.go:65-67 | a writer driven by any run of the supervisor has all these guarantees |
| `Composition.WritesBeginInOrder` | pkg/hid/write.go:44-53 | native writes begin in the order of admission, each at most once |
| `Composition.OutcomesReachTheSystem` | pkg/hid/write.go:59-113 | Completed means the system call succeeded with this very report; NotSubmitted means it is never made with it |
| `StrictParser.FieldBitsExact` | pkg/hid/internal/reportdesc/parser.go:173-173 | the 64-bit product never wraps |
| `Acceptance.ParseAccepts` | pkg/hid/internal/reportdesc/parser.go:43-194 | a descriptor is accepted if and only if it is a stream of short items, each allowed in its context (value ranges, depths, counts, usage ranges, report items inside an Application collection), every report's bit sum is at most 32768, and all collections and pushed states are closed |
| `Acceptance.StepAccepted` | pkg/hid/internal/reportdesc/parser.go:67-94 | the parser takes an item exactly if it is allowed where it stands and its report still fits |
| `LayoutTracking.ParsedMeans` | pkg/hid/internal/reportdesc/parser.go:43-194 | an accepted descriptor is a well-formed item stream and the maps hold exactly its report IDs and bit lengths, at most 32768 |
| `ContextLaws.GlobalsSet` | pkg/hid/internal/reportdesc/parser.go:103-124 | each global item sets just its own value |
| `ContextLaws.PopRestores` | pkg/hid/internal/reportdesc/parser.go:124-135 | Pop restores the global state of its Push, whatever balanced items stand between |
| `ContextLaws.EndReturns` | pkg/hid/internal/reportdesc/parser.go:141-171 | an ended collection leaves the collections as they were, and only one opened outside all others starts a new Application |
| `ContextLaws.FieldAdded` | pkg/hid/internal/reportdesc/parser.go:172-191 | a report item adds size times count bits to the report of its ID in the collection it stands in |
| `DescriptorParser.Parser.ApplyGlobal` | pkg/hid/internal/reportdesc/parser.go:103-137 | a global item updates the object as specified or fails for the specified reason |
| `DescriptorParser.Parser.ApplyLocal` | pkg/hid/internal/reportdesc/parser.go:73-88 | the same for local items |
| `DescriptorParser.Parser.ApplyMain` | pkg/hid/internal/reportdesc/parser.go:139-194 | the same for main items |
| `DescriptorParser.Claim` | pkg/hid/internal/reportdesc/parser.go:203-226 | whatever order the keys are taken in, new IDs get this owner and both sides of every clash are marked |
| `DescriptorParser.Parser.Finish` | pkg/hid/internal/reportdesc/parser.go:196-243 | supported is decided by the maps alone, not by the order they are walked in |
| `DescriptorParser.SupportedExact` | pkg/hid/internal/reportdesc/parser.go:196-243 | a collection is supported if and only if no Report ID 0 is set, it has one nonempty Input and one nonempty Output report, neither ID is shared in its direction, and no direction mixes numbered and unnumbered reports |
| `DescriptorParser.ParseDescriptor` | pkg/hid/internal/reportdesc/parser.go:43-101 | the collections are the descriptor's, supported exactly when usable, with sizes the rounded-up bit sums in 1..4096 |
| `DescriptorParser.LayoutOrderFree` | pkg/hid/internal/reportdesc/parser.go:203-216 | the recorded layout is independent of map order if and only if there is at most one ID |
| `DescriptorParser.EveryReportCanBeLeft` | pkg/hid/internal/reportdesc/parser.go:203-216 | the layouts allowed for a collection are exactly those some map order leaves |
| `UsageScan.ScanStep` | pkg/hid/internal/reportdesc/inventory.go:73-121 | one short item of the tolerant scan |
| `UsageScan.ScanUsages` | pkg/hid/internal/reportdesc/inventory.go:29-124 | the scanning loop lists the specified usages, none of them supported |
| `UsageScan.Inventory` | pkg/hid/internal/reportdesc/inventory.go:14-24 | the strict result when there is one; otherwise the scanned usages, never supported; otherwise nothing |
| `UsageScan.BothRead` | pkg/hid/internal/reportdesc/inventory.go:29-124 | whatever Parse accepts the scan accepts with the same collections, and each usage is what the pass reads at that opening |
| `UsageScan.ScanAgrees` | pkg/hid/internal/reportdesc/inventory.go:80-88 | the usages are equal if and only if every collection is named or the leftovers read alike; naming every collection suffices |
| `UsageScan.UsagesExact` | pkg/hid/internal/reportdesc/parser.go:154-163 | the usage of every collection, by number: the chosen local value under the 16-bit page in force, or with its own page if it has more than 16 bits |
| `UsageScan.ScanExact` | pkg/hid/internal/reportdesc/inventory.go:29-124 | on every descriptor the scan succeeds if and only if the bytes can be read and at most 256 top-level Application collections open, and lists exactly their usages whatever else is wrong |
| `DescriptorEncoding.DecodeInverts` | pkg/hid/internal/reportdesc/parser.go:48-65 | decoding inverts an independent encoder, for every stream of short items in any sizes |
| `DescriptorEncoding.PlainDeviceIsSupported` | pkg/hid/internal/reportdesc/parser.go:43-101 | the descriptor of a one-collection device, however encoded, gives a supported collection with its page, usage and rounded report lengths |
| `UsageScan.PassesCanDisagree` | pkg/hid/internal/reportdesc/parser.go:154-157 | an accepted descriptor for which the two passes name different usages |
| `Walks.PartiesAreTheStores` | internal/client/ctap2/manager.go:317-357 | a complete walk over relying parties lists the authenticator's, in its order |
| `Walks.CredentialsAreTheStores` | internal/client/ctap2/manager.go:359-395 | a complete walk over one party's credentials lists exactly those |
| `Walks.InsideIsServed` | internal/client/ctap2/manager.go:342-355 | a GetNext inside its enumeration is one the authenticator serves |
| `CredentialListing.Manager.EnumerateRelyingParties` | internal/client/ctap2/manager.go:317-357 | Begin and then only its own GetNexts, never past the announced total; what is returned is what was answered |
| `CredentialListing.Manager.EnumerateCredentials` | internal/client/ctap2/manager.go:359-395 | the same for the credentials of a party |
| `CredentialListing.Manager.ListWithCommand` | internal/client/ctap2/manager.go:245-272 | one attempt with its own token: everything is listed, or the last call failed |
| `CredentialListing.Manager.ListCredentials` | internal/client/ctap2/manager.go:69-93 | the standard command when the device has it and the preview command otherwise; at most three attempts, each only when the failure before asks for it, the last one alone giving the result; a success on a conforming authenticator is exactly its store; no GetNext is ever sent outside its enumeration |
| `CredentialListing.FollowingExact` | internal/client/ctap2/manager.go:577-599 | which status leads to which further attempt |
| `CredentialListing.ProtocolExact` | internal/client/ctap2/protocol.go:37-52 | which PIN/UV protocol is chosen |
| `CredentialListing.ListingIsTheStore` | internal/client/ctap2/manager.go:245-272 | a successful attempt on a conforming authenticator lists its credentials grouped in its order, none when the count is 0 |
| `PowerReducer.Observer.Reduce` | internal/diagnostics/power/observer_darwin.c:42-77 | the snapshot changes as specified, counters wrapping at 2^64 |
| `PowerReducer.RecognisesCycle` | internal/diagnostics/power/observer_darwin.c:42-77 | below 2^64 events, matched holds if and only if the events are one cycle of the armed generation |
| `PowerReducer.DisqualificationIsPermanent` | internal/diagnostics/power/observer_darwin.c:44-76 | a disqualified run never matches again |
| `PowerReducer.VerdictExact` | internal/diagnostics/power/observer_darwin.c:235-253 | a waiter is told success, timeout or protocol error exactly according to how far the events are on course |
| `PowerReducer.WrapForgets` | internal/diagnostics/power/observer_darwin.c:66-76 | the bound on the number of events is needed |

## Left out

- Native I/O: the Linux and Windows drivers, IOKit calls, the reader thread and input callbacks of the macOS driver; only the driver contract and the writer's rendezvous are modelled.
- `NativeWriter` and `PoolRuns`: the threads themselves are steps on values; only what their locks guard is an object. Aliasing of buffers between threads is not modelled.
- Real time: deadlines, the 100 ms poll, the write timeout and retry delays are events that may happen at any moment.
- Session.HidSession.AllocateChannel: the random nonce of each attempt is a parameter of the call; equal nonces are possible, and no guarantee relies on their being different.
- Report size: the session uses 64-byte reports, as the backend configures; framing and reading are proved for every size.
- Error wrapping, categories and messages: an error keeps only the distinctions the code branches on.
- Enumeration of endpoints and filters: only its charge on the memory budget is modelled.
- Credential management payloads: CBOR, PIN/UV protocols and tokens are opaque values; obtaining a token is one call.
- DeleteCredential and the PIN operations: the same retry policy around a single command.
- Descriptor errors: which error a rejected descriptor gets is given by the item-by-item specification; acceptance itself is exact.
- PowerReducer.Observer: registration, arming and the callback thread; a fresh snapshot stands for a successful arm.
- BLE, NFC and APDU codecs, command line, tracing and metadata conversion.
