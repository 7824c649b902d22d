/**
 The contract of a native device handle (pkg/hid/internal/driver/driver.go:65-67), as an
 automaton over the calls made on it: at most one Read and one Write are in flight, Close
 comes once, after both have returned, nothing follows it, and the lease is given back last.
 */
module DriverContract {
  import opened Values
  import opened Sections

  datatype Call =
    | ReadBegin
    | ReadEnd
    | WriteBegin(id: nat)
    | WriteEnd(id: nat, raw: NativeWrite)
    | CloseBegin
    | CloseEnd
    | Release

  datatype Phase = Open | Closing | Shut | Released

  datatype Handle = Handle(reading: bool, writing: Option<nat>, phase: Phase)

  /** The handle after one more call, or None when the call breaks the contract. */
  function After(h: Handle, call: Call): Option<Handle> {
    match call
    case ReadBegin => if h.phase == Open && !h.reading then Some(h.(reading := true)) else None
    case ReadEnd => if h.reading then Some(h.(reading := false)) else None
    case WriteBegin(id) => if h.phase == Open && h.writing == None then Some(h.(writing := Some(id))) else None
    case WriteEnd(id, _) => if h.writing == Some(id) then Some(h.(writing := None)) else None
    case CloseBegin => if h.phase == Open && !h.reading && h.writing == None then Some(h.(phase := Closing)) else None
    case CloseEnd => if h.phase == Closing then Some(h.(phase := Shut)) else None
    case Release => if h.phase == Shut then Some(h.(phase := Released)) else None
  }

  /** The handle after a list of calls, or None when some call breaks the contract. */
  function HandleAfter(log: seq<Call>): Option<Handle> {
    if log == [] then Some(Handle(false, None, Open))
    else
      match HandleAfter(log[..|log| - 1])
      case None => None
      case Some(h) => After(h, log[|log| - 1])
  }

  predicate Obeys(log: seq<Call>) {
    HandleAfter(log).Some?
  }

  lemma HandleAfterAppend(log: seq<Call>, call: Call)
    ensures HandleAfter(log + [call]) ==
            match HandleAfter(log) case None => None case Some(h) => After(h, call)
  {
    assert (log + [call])[..|log|] == log;
  }

  /** A prefix of an obedient list is obedient. */
  lemma {:induction false} ObeysPrefix(log: seq<Call>, k: nat)
    requires Obeys(log) && k <= |log|
    ensures Obeys(log[..k])
    decreases |log|
  {
    if k < |log| {
      assert log[..|log| - 1][..k] == log[..k];
      ObeysPrefix(log[..|log| - 1], k);
    } else {
      assert log[..k] == log;
    }
  }

  /** Once Close has begun, no Read or Write ever begins and Close never begins again. */
  lemma {:induction false} NothingAfterClose(log: seq<Call>, i: nat, j: nat)
    requires Obeys(log) && i < j < |log| && log[i] == CloseBegin
    ensures log[j] != CloseBegin && log[j] != ReadBegin && !log[j].WriteBegin?
    ensures HandleAfter(log[..j]).Some? && HandleAfter(log[..j]).value.phase != Open
    decreases j
  {
    ObeysPrefix(log, j);
    ObeysPrefix(log, j + 1);
    assert log[..j + 1] == log[..j] + [log[j]];
    HandleAfterAppend(log[..j], log[j]);
    if j == i + 1 {
      ObeysPrefix(log, i);
      assert log[..j] == log[..i] + [log[i]];
      HandleAfterAppend(log[..i], log[i]);
    } else {
      NothingAfterClose(log, i, j - 1);
      assert log[..j] == log[..j - 1] + [log[j - 1]];
      HandleAfterAppend(log[..j - 1], log[j - 1]);
    }
  }
}

/**
 Every interleaving of a connection: the input pump, any number of Read, Write and Close
 callers, the write workers and the cleanup goroutine. Each critical section, native call
 boundary and channel wakeup is one atomic step; contexts and timers fire at any time.
 */
module SupervisorRuns {
  import opened Values
  import opened Sections
  import opened DriverContract

  datatype Pump = PumpTop | PumpArmed | PumpReading | PumpHolding(result: NativeRead) | PumpExiting | PumpGone

  /** The admitted Read call, if any. */
  datatype Reader =
    | NoReader
    | Polling(canceled: bool, timed: bool, wake: Wake)
    | Parked(canceled: bool, timed: bool)
    | ReadReturning(poll: Poll)

  datatype Worker = Spawned | Armed | Writing | Holding | Exiting | Gone

  datatype Caller =
    | Waiting
    | Awake
    | Returning(outcome: Outcome, err: Option<Err>)
    | Returned(outcome: Outcome, err: Option<Err>)

  /** An admitted Write call with its worker; `raw` is what the driver answered. */
  datatype WriteOp = WriteOp(report: Report, canceled: bool, caller: Caller, worker: Worker, pending: Pending, raw: Option<NativeWrite>)

  datatype Cleanup = NotStarted | AwaitWorkers | ReadyToClose | InClose | HandleClosed | LeaseGone | Finished

  datatype Closer = CloseWaiting(canceled: bool) | CloseDone | CloseExpired

  datatype World = World(
    s: Shared,
    input: ReportSpec,
    output: ReportSpec,
    pump: Pump,
    reader: Reader,
    writes: seq<WriteOp>,
    cleanup: Cleanup,
    closers: seq<Closer>,
    log: seq<Call>,
    accepted: seq<Report>,     // valid reports the pump queued
    taken: seq<Report>)        // reports Read calls returned

  function Start(input: ReportSpec, output: ReportSpec): World {
    World(Initial(), input, output, PumpTop, NoReader, [], NotStarted, [], [], [], [])
  }

  // ----- Local steps: what each goroutine does with the shared state ---------------------

  datatype PumpAction = Check | BeginRead | EndRead(r: NativeRead) | HandOver | LeavePump

  predicate PumpCan(pump: Pump, s: Shared, a: PumpAction) {
    match a
    case Check => pump == PumpTop
    case BeginRead => pump == PumpArmed
    case EndRead(_) => pump == PumpReading
    case HandOver => pump.PumpHolding?
    case LeavePump => pump == PumpExiting && s.workers > 0
  }

  function PumpDoes(pump: Pump, s: Shared, input: ReportSpec, a: PumpAction): (Pump, Shared)
    requires PumpCan(pump, s, a)
  {
    match a
    case Check => (if s.retiring then PumpExiting else PumpArmed, s)
    case BeginRead => (PumpReading, s)
    case EndRead(r) => (PumpHolding(r), s)
    case HandOver => var (s', goOn) := Deliver(s, input, pump.result); (if goOn then PumpTop else PumpExiting, s')
    case LeavePump => (PumpGone, s.(workers := s.workers - 1))
  }

  /** The report a pump action puts into the queue, if any. */
  function Queued(pump: Pump, s: Shared, input: ReportSpec, a: PumpAction): seq<Report>
    requires PumpCan(pump, s, a)
  {
    if a == HandOver && pump.result.ReadReport? && Deliver(s, input, pump.result).1 then [pump.result.report] else []
  }

  datatype ReadAction = CancelRead | PollOnce | Wakeup(cause: WakeBy) | FinishRead

  datatype WakeBy = ByReady | ByRetired | ByContext | ByTimer

  predicate ReadCan(reader: Reader, s: Shared, a: ReadAction) {
    match a
    case CancelRead => reader.Polling? || reader.Parked?
    case PollOnce => reader.Polling?
    case Wakeup(cause) => reader.Parked? && WakeReady(reader, s, cause)
    case FinishRead => reader.ReadReturning?
  }

  /** Which branches of the reader's select can fire. */
  predicate WakeReady(reader: Reader, s: Shared, cause: WakeBy)
    requires reader.Parked?
  {
    match cause
    case ByReady => s.ready
    case ByRetired => s.retiring
    case ByContext => reader.canceled
    case ByTimer => reader.timed
  }

  function ReadDoes(reader: Reader, s: Shared, a: ReadAction): (Reader, Shared)
    requires ReadCan(reader, s, a)
  {
    match a
    case CancelRead => (reader.(canceled := true), s)
    case PollOnce =>
      var (s', poll) := PollRead(s, reader.canceled, reader.wake);
      (if poll.Park? then Parked(reader.canceled, reader.timed) else ReadReturning(poll), s')
    case Wakeup(cause) =>
      var wake := match cause case ByContext => ContextWake case ByTimer => TimerWake case _ => NotWoken;
      (Polling(reader.canceled, reader.timed, wake), if cause == ByReady then s.(ready := false) else s)
    case FinishRead => (NoReader, s.(readBusy := false))
  }

  /** The report a read action takes from the queue, if any. */
  function Dequeued(reader: Reader, s: Shared, a: ReadAction): seq<Report>
    requires ReadCan(reader, s, a)
  {
    if a == PollOnce && PollRead(s, reader.canceled, reader.wake).1.Take? then [s.queue[0]] else []
  }

  datatype WriteAction =
    | CancelWrite | SubmitWork | BeginWrite | EndWrite(raw: NativeWrite) | CompleteWork | LeaveWorker
    | WakeCaller | DecideCaller | FinishCaller

  predicate WriteCan(op: WriteOp, s: Shared, a: WriteAction) {
    match a
    case CancelWrite => true
    case SubmitWork => op.worker == Spawned
    case BeginWrite => op.worker == Armed
    case EndWrite(_) => op.worker == Writing
    case CompleteWork => op.worker == Holding && op.raw.Some?
    case LeaveWorker => op.worker == Exiting && s.workers > 0
    case WakeCaller => op.caller == Waiting && (op.pending.completed || op.canceled)
    case DecideCaller => op.caller == Awake
    case FinishCaller => op.caller.Returning?
  }

  function WriteDoes(op: WriteOp, s: Shared, a: WriteAction): (WriteOp, Shared)
    requires WriteCan(op, s, a)
  {
    match a
    case CancelWrite => (op.(canceled := true), s)
    case SubmitWork =>
      var (s', pending, go) := Submit(s, op.pending, op.canceled);
      (op.(pending := pending, worker := if go then Armed else Exiting), s')
    case BeginWrite => (op.(worker := Writing), s)
    case EndWrite(raw) => (op.(worker := Holding, raw := Some(raw)), s)
    case CompleteWork =>
      var (s', pending) := Complete(s, op.pending, op.raw.value);
      (op.(pending := pending, worker := Exiting), s')
    case LeaveWorker => (op.(worker := Gone), s.(workers := s.workers - 1))
    case WakeCaller => (op.(caller := Awake), s)
    case DecideCaller =>
      var (s', outcome, err) := Decide(s, op.pending, op.canceled);
      (op.(caller := Returning(outcome, err)), s')
    case FinishCaller => (op.(caller := Returned(op.caller.outcome, op.caller.err)), s.(writeBusy := false))
  }

  datatype CleanupAction = EndWait | BeginClose | EndClose | GiveBack | Publish

  predicate CleanupCan(c: Cleanup, s: Shared, a: CleanupAction) {
    match a
    case EndWait => c == AwaitWorkers && s.workers == 0
    case BeginClose => c == ReadyToClose
    case EndClose => c == InClose
    case GiveBack => c == HandleClosed
    case Publish => c == LeaseGone
  }

  function CleanupDoes(a: CleanupAction): Cleanup {
    match a
    case EndWait => ReadyToClose
    case BeginClose => InClose
    case EndClose => HandleClosed
    case GiveBack => LeaseGone
    case Publish => Finished
  }

  // ----- The whole connection ---------------------------------------------------------------

  datatype Step =
    | PumpStep(p: PumpAction)
    | ReadAdmit(canceled: bool, timed: bool)
    | ReadStep(r: ReadAction)
    | WriteAdmit(report: Report, canceled: bool)
    | WriteStep(i: nat, a: WriteAction)
    | CleanupStep(c: CleanupAction)
    | CloseCall(canceled: bool)
    | CloseCancel(k: nat)
    | CloseReturn(k: nat)

  predicate Enabled(w: World, step: Step) {
    match step
    case PumpStep(p) => PumpCan(w.pump, w.s, p)
    case ReadStep(r) => ReadCan(w.reader, w.s, r)
    case WriteAdmit(report, _) => w.output.Fits(report)
    case WriteStep(i, a) => i < |w.writes| && WriteCan(w.writes[i], w.s, a)
    case CleanupStep(c) => CleanupCan(w.cleanup, w.s, c)
    case CloseCancel(k) => k < |w.closers| && w.closers[k].CloseWaiting?
    case CloseReturn(k) => k < |w.closers| && w.closers[k].CloseWaiting? && (w.cleanup == Finished || w.closers[k].canceled)
    case _ => true
  }

  /** The native calls a step makes or ends. */
  function Calls(step: Step): seq<Call> {
    match step
    case PumpStep(BeginRead) => [ReadBegin]
    case PumpStep(EndRead(_)) => [ReadEnd]
    case WriteStep(i, BeginWrite) => [WriteBegin(i)]
    case WriteStep(i, EndWrite(raw)) => [WriteEnd(i, raw)]
    case CleanupStep(BeginClose) => [CloseBegin]
    case CleanupStep(EndClose) => [CloseEnd]
    case CleanupStep(GiveBack) => [Release]
    case _ => []
  }

  /** Replaces the shared state; the call that first retires the connection spawns the cleanup. */
  function WithShared(w: World, s: Shared): World {
    w.(s := s, cleanup := if s.retiring && !w.s.retiring then AwaitWorkers else w.cleanup)
  }

  function Effect(w: World, step: Step): World
    requires Enabled(w, step)
  {
    match step
    case PumpStep(p) =>
      var (pump, s) := PumpDoes(w.pump, w.s, w.input, p);
      WithShared(w, s).(pump := pump, accepted := w.accepted + Queued(w.pump, w.s, w.input, p))
    case ReadAdmit(canceled, timed) =>
      var (s, err) := AdmitRead(w.s, canceled);
      if err.Some? then w else w.(s := s, reader := Polling(false, timed, NotWoken))
    case ReadStep(r) =>
      var (reader, s) := ReadDoes(w.reader, w.s, r);
      WithShared(w, s).(reader := reader, taken := w.taken + Dequeued(w.reader, w.s, r))
    case WriteAdmit(report, canceled) =>
      var (s, err) := AdmitWrite(w.s, canceled);
      if err.Some? then w
      else w.(s := s, writes := w.writes + [WriteOp(report, false, Waiting, Spawned, NewPending(), None)])
    case WriteStep(i, a) =>
      var (op, s) := WriteDoes(w.writes[i], w.s, a);
      WithShared(w, s).(writes := w.writes[i := op])
    case CleanupStep(c) => w.(cleanup := CleanupDoes(c))
    case CloseCall(canceled) => WithShared(w, Retire(w.s, None)).(closers := w.closers + [CloseWaiting(canceled)])
    case CloseCancel(k) => w.(closers := w.closers[k := CloseWaiting(true)])
    case CloseReturn(k) => w.(closers := w.closers[k := if w.cleanup == Finished then CloseDone else CloseExpired])
  }

  function Apply(w: World, step: Step): World
    requires Enabled(w, step)
  {
    Effect(w, step).(log := w.log + Calls(step))
  }

  /** The world after a schedule, if every step of it was possible. */
  function Run(w: World, steps: seq<Step>): Option<World>
    decreases |steps|
  {
    if steps == [] then Some(w)
    else if !Enabled(w, steps[0]) then None
    else Run(Apply(w, steps[0]), steps[1..])
  }

  ghost predicate Reachable(w: World) {
    exists input, output, steps :: Run(Start(input, output), steps) == Some(w)
  }

  // ----- The invariant -----------------------------------------------------------------

  function Live(writes: seq<WriteOp>): nat {
    if writes == [] then 0 else Live(writes[..|writes| - 1]) + (if writes[|writes| - 1].worker == Gone then 0 else 1)
  }

  function PhaseOf(c: Cleanup): Phase {
    match c
    case InClose => Closing
    case HandleClosed => Shut
    case LeaseGone => Released
    case Finished => Released
    case _ => Open
  }

  /** The native Write of an operation has begun. */
  predicate Begun(op: WriteOp) {
    op.worker == Writing || op.worker == Holding || ((op.worker == Exiting || op.worker == Gone) && op.pending.submitted)
  }

  /** What holds of one write: its worker's progress and what its caller has been or will be told. */
  predicate WriteInv(op: WriteOp, retiring: bool) {
    var p := op.pending;
    && (p.completed <==> op.worker == Exiting || op.worker == Gone)
    && (op.worker == Spawned ==> !p.submitted)
    && (op.worker == Armed || op.worker == Writing || op.worker == Holding ==> p.submitted)
    && (op.raw.Some? <==> op.worker == Holding || (p.completed && p.submitted))
    && (p.completed ==> if p.submitted then p.result == Interpret(op.raw.value) else p.result == NotSubmitted && p.err.Some?)
    && (p.completed && p.err == None ==> p.result == Completed)
    && (p.completed && p.err.Some? ==> retiring)
    && (op.caller == Awake ==> p.completed || op.canceled)
    && (op.caller.Returning? || op.caller.Returned? ==> Told(op, op.caller.outcome, op.caller.err, retiring))
  }

  predicate Told(op: WriteOp, outcome: Outcome, err: Option<Err>, retiring: bool) {
    var p := op.pending;
    && (err == None ==> outcome == Completed)
    && (err.Some? ==> retiring)
    && (outcome == Completed ==> p.completed && p.submitted && p.result == Completed)
    && (outcome == NotSubmitted ==> !p.submitted || (p.completed && p.result == NotSubmitted))
    && (!p.completed ==> retiring)
  }

  predicate WritesInv(w: World) {
    && (forall i :: 0 <= i < |w.writes| ==> WriteInv(w.writes[i], w.s.retiring))
    && (forall i :: 0 <= i < |w.writes| - 1 ==> w.writes[i].pending.completed && w.writes[i].caller.Returned?)
    && (w.s.writeBusy <==> |w.writes| > 0 && !w.writes[|w.writes| - 1].caller.Returned?)
  }

  /** The write in flight, if any: only the latest write can be unfinished. */
  function InFlight(writes: seq<WriteOp>): Option<nat> {
    if |writes| > 0 && writes[|writes| - 1].worker == Writing then Some(|writes| - 1) else None
  }

  predicate LogInv(w: World) {
    && HandleAfter(w.log) == Some(Handle(w.pump == PumpReading, InFlight(w.writes), PhaseOf(w.cleanup)))
    && (forall c :: c in w.log && c.WriteBegin? ==> c.id < |w.writes| && Begun(w.writes[c.id]))
    && (forall i :: 0 <= i < |w.writes| && w.writes[i].raw.Some? ==> WriteEnd(i, w.writes[i].raw.value) in w.log)
  }

  predicate WorkersInv(w: World) {
    && w.s.workers == (if w.pump == PumpGone then 0 else 1) + Live(w.writes)
    && (w.cleanup == NotStarted <==> !w.s.retiring)
    && (w.cleanup != NotStarted && w.cleanup != AwaitWorkers ==> w.s.workers == 0)
    && (w.pump == PumpExiting || w.pump == PumpGone ==> w.s.retiring)
    && (|w.closers| > 0 ==> w.s.retiring)
    && (forall i :: 0 <= i < |w.closers| && w.closers[i] == CloseDone ==> w.cleanup == Finished)
  }

  /** Reports flow from the pump to readers without gap or duplicate, until retirement drops the rest. */
  predicate FlowInv(s: Shared, input: ReportSpec, accepted: seq<Report>, taken: seq<Report>) {
    && |s.queue| <= QUEUE_SIZE
    && (!s.retiring ==> accepted == taken + s.queue)
    && (s.retiring ==> s.queue == [] && taken <= accepted)
    && (forall r :: r in accepted ==> input.Fits(r))
  }

  /** A parked reader has a wakeup for whatever is queued. */
  predicate ReaderInv(s: Shared, reader: Reader) {
    && (s.readBusy <==> !reader.NoReader?)
    && (reader.Parked? && s.queue != [] ==> s.ready)
  }

  predicate QueueInv(w: World) {
    FlowInv(w.s, w.input, w.accepted, w.taken) && ReaderInv(w.s, w.reader)
  }

  predicate Inv(w: World) {
    WritesInv(w) && LogInv(w) && WorkersInv(w) && QueueInv(w)
  }

  // ----- Every step keeps the invariant ---------------------------------------------------

  lemma {:induction false} LiveUpdate(writes: seq<WriteOp>, i: nat, op: WriteOp)
    requires i < |writes|
    ensures Live(writes[i := op]) == Live(writes) - (if writes[i].worker == Gone then 0 else 1) + (if op.worker == Gone then 0 else 1)
    decreases |writes|
  {
    var n := |writes| - 1;
    if i < n {
      assert writes[i := op][..n] == writes[..n][i := op];
      LiveUpdate(writes[..n], i, op);
    } else {
      assert writes[i := op][..n] == writes[..n];
    }
  }

  lemma LiveAppend(writes: seq<WriteOp>, op: WriteOp)
    ensures Live(writes + [op]) == Live(writes) + (if op.worker == Gone then 0 else 1)
  {
    assert (writes + [op])[..|writes|] == writes;
  }

  lemma {:induction false} LivePositive(writes: seq<WriteOp>, i: nat)
    requires i < |writes| && writes[i].worker != Gone
    ensures Live(writes) > 0
    decreases |writes|
  {
    if i < |writes| - 1 {
      LivePositive(writes[..|writes| - 1], i);
    }
  }

  lemma LiveZero(writes: seq<WriteOp>, i: nat)
    requires i < |writes| && Live(writes) == 0
    ensures writes[i].worker == Gone
  {
    if writes[i].worker != Gone {
      LivePositive(writes, i);
    }
  }

  /** How a step may change the shared state: retirement is permanent and drops the queue. */
  predicate Evolves(s: Shared, s': Shared, added: seq<Report>, removed: seq<Report>) {
    && (s.retiring ==> s'.retiring && s'.queue == s.queue)
    && (!s.retiring && s'.retiring ==> s'.queue == [])
    && (s'.retiring ==> added == [] && removed == [])
    && (!s'.retiring ==> s.queue + added == removed + s'.queue)
    && (|s.queue| <= QUEUE_SIZE ==> |s'.queue| <= QUEUE_SIZE)
    && (added != [] ==> s'.ready)
  }

  lemma FlowKeeps(s: Shared, input: ReportSpec, accepted: seq<Report>, taken: seq<Report>,
                  s': Shared, added: seq<Report>, removed: seq<Report>)
    requires FlowInv(s, input, accepted, taken) && Evolves(s, s', added, removed)
    requires forall r :: r in added ==> input.Fits(r)
    ensures FlowInv(s', input, accepted + added, taken + removed)
  {
    assert accepted + [] == accepted && taken + [] == taken;
    if !s'.retiring {
      assert taken + s.queue + added == taken + (s.queue + added);
      assert taken + (removed + s'.queue) == taken + removed + s'.queue;
    }
  }

  // Local facts, one per goroutine.

  lemma PumpLocal(pump: Pump, s: Shared, input: ReportSpec, a: PumpAction)
    requires PumpCan(pump, s, a)
    ensures var (pump', s') := PumpDoes(pump, s, input, a);
            && Evolves(s, s', Queued(pump, s, input, a), [])
            && (forall r :: r in Queued(pump, s, input, a) ==> input.Fits(r))
            && s'.readBusy == s.readBusy && s'.writeBusy == s.writeBusy && (s.ready ==> s'.ready)
            && (s'.queue == s.queue || s'.queue == [] || s'.ready)
            && s'.workers == s.workers - (if a == LeavePump then 1 else 0)
            && (pump' == PumpGone <==> a == LeavePump) && pump != PumpGone
            && (pump' == PumpExiting ==> s'.retiring)
  {
  }

  lemma ReadLocal(reader: Reader, s: Shared, a: ReadAction)
    requires ReadCan(reader, s, a) && ReaderInv(s, reader)
    ensures var (reader', s') := ReadDoes(reader, s, a);
            && Evolves(s, s', [], Dequeued(reader, s, a))
            && ReaderInv(s', reader')
            && s'.writeBusy == s.writeBusy && s'.workers == s.workers
  {
  }

  /** The worker and the caller keep what is true of their write. */
  lemma WriteLocal(op: WriteOp, s: Shared, a: WriteAction)
    requires WriteCan(op, s, a) && WriteInv(op, s.retiring)
    ensures var (op', s') := WriteDoes(op, s, a); WriteInv(op', s'.retiring)
  {
  }

  lemma WriteFrame(op: WriteOp, s: Shared, a: WriteAction)
    requires WriteCan(op, s, a)
    ensures var (op', s') := WriteDoes(op, s, a);
            && Evolves(s, s', [], [])
            && s'.readBusy == s.readBusy && s'.ready == s.ready
            && s'.writeBusy == (s.writeBusy && a != FinishCaller)
            && s'.workers == s.workers - (if a == LeaveWorker then 1 else 0)
  {
  }

  lemma WriteProgress(op: WriteOp, s: Shared, a: WriteAction)
    requires WriteCan(op, s, a) && WriteInv(op, s.retiring)
    ensures var (op', s') := WriteDoes(op, s, a);
            && (op.pending.completed ==> op'.pending.completed)
            && (op.caller.Returned? ==> op'.caller == op.caller)
            && (op'.caller.Returned? <==> op.caller.Returned? || a == FinishCaller)
            && (op.worker == Gone ==> op'.worker == Gone) && (op'.worker == Gone ==> op.worker == Gone || a == LeaveWorker)
            && (a == LeaveWorker ==> op.worker != Gone && op'.worker == Gone)
            && (Begun(op') <==> Begun(op) || a == BeginWrite)
            && (op'.worker == Writing <==> a == BeginWrite || (op.worker == Writing && !a.EndWrite?))
            && (op.raw.Some? ==> op'.raw == op.raw)
            && (a.EndWrite? ==> op'.raw == Some(a.raw))
            && (op'.raw.Some? ==> op.raw.Some? || a.EndWrite?)
  {
  }

  // The invariant, part by part.

  lemma QueueKeeps(w: World, step: Step)
    requires QueueInv(w) && Enabled(w, step)
    ensures QueueInv(Apply(w, step))
  {
    var w' := Apply(w, step);
    match step {
      case PumpStep(p) =>
        PumpLocal(w.pump, w.s, w.input, p);
        QueueEvolves(w, w', Queued(w.pump, w.s, w.input, p), []);
      case ReadStep(r) =>
        ReadLocal(w.reader, w.s, r);
        QueueEvolves(w, w', [], Dequeued(w.reader, w.s, r));
      case WriteStep(i, a) =>
        WriteFrame(w.writes[i], w.s, a);
        QueueEvolves(w, w', [], []);
      case _ =>
        QueueEvolves(w, w', [], []);
    }
  }

  lemma QueueEvolves(w: World, w': World, added: seq<Report>, removed: seq<Report>)
    requires QueueInv(w) && Evolves(w.s, w'.s, added, removed) && w'.input == w.input
    requires w'.accepted == w.accepted + added && w'.taken == w.taken + removed
    requires forall r :: r in added ==> w.input.Fits(r)
    requires ReaderInv(w'.s, w'.reader) ||
             (w'.reader == w.reader && w'.s.readBusy == w.s.readBusy && (w.s.ready ==> w'.s.ready))
    ensures QueueInv(w')
  {
    FlowKeeps(w.s, w.input, w.accepted, w.taken, w'.s, added, removed);
    if !w'.s.retiring && added == [] && removed == [] {
      assert w.s.queue + [] == w.s.queue && [] + w'.s.queue == w'.s.queue;
    }
  }

  /** Steps of the pump, a reader, a write or a new Close call: workers only join before retirement. */
  lemma WorkersEvolve(w: World, w': World)
    requires WorkersInv(w) && (w.s.retiring ==> w'.s.retiring && w'.s.workers <= w.s.workers)
    requires w'.cleanup == if w'.s.retiring && !w.s.retiring then AwaitWorkers else w.cleanup
    requires w'.s.workers == (if w'.pump == PumpGone then 0 else 1) + Live(w'.writes)
    requires w'.pump == PumpExiting || w'.pump == PumpGone ==> w'.s.retiring
    requires w'.closers == w.closers || (w'.s.retiring && exists c :: w'.closers == w.closers + [CloseWaiting(c)])
    ensures WorkersInv(w')
  {
  }

  lemma WorkersKeep(w: World, step: Step)
    requires WorkersInv(w) && WritesInv(w) && QueueInv(w) && Enabled(w, step)
    ensures WorkersInv(Apply(w, step))
  {
    match step {
      case PumpStep(p) => WorkersKeepPump(w, p);
      case ReadStep(r) => WorkersKeepRead(w, r);
      case WriteAdmit(report, canceled) => WorkersKeepAdmit(w, report, canceled);
      case WriteStep(i, a) => WorkersKeepWrite(w, i, a);
      case CloseCall(canceled) => WorkersKeepClose(w, canceled);
      case ReadAdmit(_, _) => WorkersEvolve(w, Apply(w, step));
      case CleanupStep(c) => WorkersKeepCleanup(w, c);
      case _ =>
    }
  }

  lemma WorkersKeepClose(w: World, canceled: bool)
    requires WorkersInv(w)
    ensures WorkersInv(Apply(w, CloseCall(canceled)))
  {
    WorkersEvolve(w, Apply(w, CloseCall(canceled)));
  }

  lemma WorkersKeepCleanup(w: World, c: CleanupAction)
    requires WorkersInv(w) && Enabled(w, CleanupStep(c))
    ensures WorkersInv(Apply(w, CleanupStep(c)))
  {
  }

  lemma WorkersKeepPump(w: World, p: PumpAction)
    requires WorkersInv(w) && Enabled(w, PumpStep(p))
    ensures WorkersInv(Apply(w, PumpStep(p)))
  {
    PumpLocal(w.pump, w.s, w.input, p);
    WorkersEvolve(w, Apply(w, PumpStep(p)));
  }

  lemma WorkersKeepRead(w: World, r: ReadAction)
    requires WorkersInv(w) && QueueInv(w) && Enabled(w, ReadStep(r))
    ensures WorkersInv(Apply(w, ReadStep(r)))
  {
    ReadLocal(w.reader, w.s, r);
    WorkersEvolve(w, Apply(w, ReadStep(r)));
  }

  lemma WorkersKeepAdmit(w: World, report: Report, canceled: bool)
    requires WorkersInv(w) && Enabled(w, WriteAdmit(report, canceled))
    ensures WorkersInv(Apply(w, WriteAdmit(report, canceled)))
  {
    LiveAppend(w.writes, WriteOp(report, false, Waiting, Spawned, NewPending(), None));
    WorkersEvolve(w, Apply(w, WriteAdmit(report, canceled)));
  }

  lemma WorkersKeepWrite(w: World, i: nat, a: WriteAction)
    requires WorkersInv(w) && WritesInv(w) && Enabled(w, WriteStep(i, a))
    ensures WorkersInv(Apply(w, WriteStep(i, a)))
  {
    WriteFrame(w.writes[i], w.s, a);
    WriteProgress(w.writes[i], w.s, a);
    LiveUpdate(w.writes, i, WriteDoes(w.writes[i], w.s, a).0);
    WorkersEvolve(w, Apply(w, WriteStep(i, a)));
  }

  /** Retirement does not disturb what is true of the writes. */
  lemma WritesSurvive(w: World, w': World)
    requires WritesInv(w) && w'.writes == w.writes && w'.s.writeBusy == w.s.writeBusy && (w.s.retiring ==> w'.s.retiring)
    ensures WritesInv(w')
  {
  }

  /** A write may change while the others only see the connection retire. */
  lemma WritesEvolve(w: World, w': World, i: nat, op: WriteOp)
    requires WritesInv(w) && i < |w.writes| && w'.writes == w.writes[i := op] && (w.s.retiring ==> w'.s.retiring)
    requires WriteInv(op, w'.s.retiring)
    requires w.writes[i].pending.completed ==> op.pending.completed
    requires w.writes[i].caller.Returned? ==> op.caller.Returned?
    requires if op.caller.Returned? && !w.writes[i].caller.Returned? then !w'.s.writeBusy else w'.s.writeBusy == w.s.writeBusy
    ensures WritesInv(w')
  {
  }

  /** A write is only admitted when the previous one is over. */
  lemma WritesAdmitted(w: World, w': World, report: Report)
    requires WritesInv(w) && !w.s.retiring && !w.s.writeBusy && w'.s.retiring == w.s.retiring && w'.s.writeBusy
    requires w'.writes == w.writes + [WriteOp(report, false, Waiting, Spawned, NewPending(), None)]
    ensures WritesInv(w')
  {
    if |w.writes| > 0 {
      assert WriteInv(w.writes[|w.writes| - 1], false);
    }
  }

  lemma WritesKeep(w: World, step: Step)
    requires WritesInv(w) && QueueInv(w) && Enabled(w, step)
    ensures WritesInv(Apply(w, step))
  {
    var w' := Apply(w, step);
    match step {
      case PumpStep(p) =>
        PumpLocal(w.pump, w.s, w.input, p);
        WritesSurvive(w, w');
      case ReadStep(r) =>
        ReadLocal(w.reader, w.s, r);
        WritesSurvive(w, w');
      case WriteStep(i, a) =>
        WriteLocal(w.writes[i], w.s, a);
        WriteFrame(w.writes[i], w.s, a);
        WriteProgress(w.writes[i], w.s, a);
        WritesEvolve(w, w', i, WriteDoes(w.writes[i], w.s, a).0);
      case WriteAdmit(report, canceled) =>
        if AdmitWrite(w.s, canceled).1 == None {
          WritesAdmitted(w, w', report);
        }
      case _ =>
        WritesSurvive(w, w');
    }
  }

  // The calls on the handle.

  /** The last write is the only one that can be unfinished. */
  lemma UnfinishedIsLast(w: World, i: nat)
    requires WritesInv(w) && i < |w.writes| && !w.writes[i].pending.completed
    ensures i == |w.writes| - 1
  {
  }

  /** While a worker or the pump is running, the handle is open. */
  lemma RunningMeansOpen(w: World)
    requires WorkersInv(w) && (w.pump != PumpGone || Live(w.writes) > 0)
    ensures PhaseOf(w.cleanup) == Open
  {
  }

  /** The log does not change, and the writes keep what it says about them. */
  lemma LogSurvives(w: World, w': World)
    requires LogInv(w) && w'.log == w.log && (w'.pump == PumpReading <==> w.pump == PumpReading)
    requires InFlight(w'.writes) == InFlight(w.writes) && PhaseOf(w'.cleanup) == PhaseOf(w.cleanup) && |w.writes| <= |w'.writes|
    requires forall i :: 0 <= i < |w.writes| && Begun(w.writes[i]) ==> Begun(w'.writes[i])
    requires forall i :: 0 <= i < |w'.writes| && w'.writes[i].raw.Some? ==> i < |w.writes| && w'.writes[i].raw == w.writes[i].raw
    ensures LogInv(w')
  {
  }

  /** The log grows by one call the contract allows. */
  lemma LogGrows(w: World, w': World, call: Call)
    requires LogInv(w) && w'.log == w.log + [call] && |w.writes| == |w'.writes|
    requires After(HandleAfter(w.log).value, call) == Some(Handle(w'.pump == PumpReading, InFlight(w'.writes), PhaseOf(w'.cleanup)))
    requires forall i :: 0 <= i < |w.writes| && Begun(w.writes[i]) ==> Begun(w'.writes[i])
    requires call.WriteBegin? ==> call.id < |w.writes| && Begun(w'.writes[call.id])
    requires forall i :: 0 <= i < |w.writes| && w'.writes[i].raw.Some? ==>
               w'.writes[i].raw == w.writes[i].raw || call == WriteEnd(i, w'.writes[i].raw.value)
    ensures LogInv(w')
  {
    HandleAfterAppend(w.log, call);
    assert forall c :: c in w.log ==> c in w'.log;
    assert call == w'.log[|w.log|] && call in w'.log;
  }

  lemma LogKeepsBeginWrite(w: World, i: nat)
    requires LogInv(w) && WritesInv(w) && WorkersInv(w) && Enabled(w, WriteStep(i, BeginWrite))
    ensures LogInv(Apply(w, WriteStep(i, BeginWrite)))
  {
    assert WriteInv(w.writes[i], w.s.retiring);
    UnfinishedIsLast(w, i);
    LivePositive(w.writes, i);
    RunningMeansOpen(w);
    LogGrows(w, Apply(w, WriteStep(i, BeginWrite)), WriteBegin(i));
  }

  lemma LogKeepsEndWrite(w: World, i: nat, raw: NativeWrite)
    requires LogInv(w) && WritesInv(w) && WorkersInv(w) && Enabled(w, WriteStep(i, EndWrite(raw)))
    ensures LogInv(Apply(w, WriteStep(i, EndWrite(raw))))
  {
    assert WriteInv(w.writes[i], w.s.retiring);
    UnfinishedIsLast(w, i);
    LogGrows(w, Apply(w, WriteStep(i, EndWrite(raw))), WriteEnd(i, raw));
  }

  lemma LogKeepsWrite(w: World, i: nat, a: WriteAction)
    requires LogInv(w) && WritesInv(w) && WorkersInv(w) && Enabled(w, WriteStep(i, a)) && a != BeginWrite && !a.EndWrite?
    ensures LogInv(Apply(w, WriteStep(i, a)))
  {
    var w', op, op' := Apply(w, WriteStep(i, a)), w.writes[i], WriteDoes(w.writes[i], w.s, a).0;
    assert (op'.worker == Writing <==> op.worker == Writing) && (Begun(op') <==> Begun(op)) && (op'.raw.Some? ==> op'.raw == op.raw) by {
      assert WriteInv(op, w.s.retiring);
      WriteProgress(op, w.s, a);
    }
    assert w'.writes == w.writes[i := op'] && PhaseOf(w'.cleanup) == PhaseOf(w.cleanup) by {
      WriteFrame(op, w.s, a);
    }
    assert w.log + [] == w.log;
    LogSurvives(w, w');
  }

  lemma LogKeepsPump(w: World, p: PumpAction)
    requires LogInv(w) && WorkersInv(w) && Enabled(w, PumpStep(p))
    ensures LogInv(Apply(w, PumpStep(p)))
  {
    var w' := Apply(w, PumpStep(p));
    if p == BeginRead {
      RunningMeansOpen(w);
      LogGrows(w, w', ReadBegin);
    } else if p.EndRead? {
      LogGrows(w, w', ReadEnd);
    } else {
      assert w.log + [] == w.log;
      PumpLocal(w.pump, w.s, w.input, p);
      LogSurvives(w, w');
    }
  }

  lemma LogKeepsCleanup(w: World, c: CleanupAction)
    requires LogInv(w) && WorkersInv(w) && Enabled(w, CleanupStep(c))
    ensures LogInv(Apply(w, CleanupStep(c)))
  {
    var w' := Apply(w, CleanupStep(c));
    match c {
      case BeginClose =>
        if |w.writes| > 0 {
          LiveZero(w.writes, |w.writes| - 1);
        }
        LogGrows(w, w', CloseBegin);
      case EndClose => LogGrows(w, w', CloseEnd);
      case GiveBack => LogGrows(w, w', Release);
      case _ =>
        assert w.log + [] == w.log;
        LogSurvives(w, w');
    }
  }

  lemma LogKeepsRead(w: World, r: ReadAction)
    requires LogInv(w) && WorkersInv(w) && QueueInv(w) && Enabled(w, ReadStep(r))
    ensures LogInv(Apply(w, ReadStep(r)))
  {
    assert w.log + [] == w.log;
    ReadLocal(w.reader, w.s, r);
    LogSurvives(w, Apply(w, ReadStep(r)));
  }

  lemma LogKeepsAdmit(w: World, report: Report, canceled: bool)
    requires LogInv(w) && WritesInv(w) && Enabled(w, WriteAdmit(report, canceled))
    ensures LogInv(Apply(w, WriteAdmit(report, canceled)))
  {
    assert w.log + [] == w.log;
    if AdmitWrite(w.s, canceled).1 == None && |w.writes| > 0 {
      assert WriteInv(w.writes[|w.writes| - 1], w.s.retiring);
    }
    LogSurvives(w, Apply(w, WriteAdmit(report, canceled)));
  }

  lemma LogKeeps(w: World, step: Step)
    requires Inv(w) && Enabled(w, step)
    ensures LogInv(Apply(w, step))
  {
    match step {
      case PumpStep(p) => LogKeepsPump(w, p);
      case WriteStep(i, BeginWrite) => LogKeepsBeginWrite(w, i);
      case WriteStep(i, EndWrite(raw)) => LogKeepsEndWrite(w, i, raw);
      case WriteStep(i, a) => LogKeepsWrite(w, i, a);
      case CleanupStep(c) => LogKeepsCleanup(w, c);
      case ReadStep(r) => LogKeepsRead(w, r);
      case WriteAdmit(report, canceled) => LogKeepsAdmit(w, report, canceled);
      case _ =>
        assert w.log + [] == w.log;
        LogSurvives(w, Apply(w, step));
    }
  }

  lemma StepKeeps(w: World, step: Step)
    requires Inv(w) && Enabled(w, step)
    ensures Inv(Apply(w, step))
  {
    QueueKeeps(w, step);
    WorkersKeep(w, step);
    WritesKeep(w, step);
    LogKeeps(w, step);
  }

  lemma {:induction false} RunKeeps(w: World, steps: seq<Step>)
    requires Inv(w) && Run(w, steps).Some?
    ensures Inv(Run(w, steps).value)
    decreases |steps|
  {
    if steps != [] {
      StepKeeps(w, steps[0]);
      RunKeeps(Apply(w, steps[0]), steps[1..]);
    }
  }

  /** The invariant holds in every state any schedule can reach. */
  lemma ReachableInv(w: World)
    requires Reachable(w)
    ensures Inv(w)
  {
    var input, output, steps :| Run(Start(input, output), steps) == Some(w);
    RunKeeps(Start(input, output), steps);
  }

  // ----- What every run guarantees -----------------------------------------------------------

  /**
   In every interleaving the native handle is used as the driver demands: at most one Read and
   one Write in flight, one Close after both have returned, nothing after it.
   */
  lemma HandleSafety(w: World)
    requires Reachable(w)
    ensures Obeys(w.log)
    ensures forall i, j :: 0 <= i < j < |w.log| && w.log[i] == CloseBegin ==>
              w.log[j] != CloseBegin && w.log[j] != ReadBegin && !w.log[j].WriteBegin?
    ensures w.cleanup == InClose || w.cleanup == HandleClosed || w.cleanup == LeaseGone || w.cleanup == Finished ==>
              w.pump != PumpReading && forall i :: 0 <= i < |w.writes| ==> w.writes[i].worker != Writing
  {
    ReachableInv(w);
    forall i, j | 0 <= i < j < |w.log| && w.log[i] == CloseBegin
      ensures w.log[j] != CloseBegin && w.log[j] != ReadBegin && !w.log[j].WriteBegin?
    {
      NothingAfterClose(w.log, i, j);
    }
    if w.s.workers == 0 {
      forall i | 0 <= i < |w.writes| ensures w.writes[i].worker != Writing {
        LiveZero(w.writes, i);
      }
    }
  }

  lemma {:induction false} RunAppend(w: World, xs: seq<Step>, ys: seq<Step>)
    requires Run(w, xs).Some?
    ensures Run(w, xs + ys) == Run(Run(w, xs).value, ys)
    decreases |xs|
  {
    if xs == [] {
      assert xs + ys == ys;
    } else {
      assert (xs + ys)[0] == xs[0] && (xs + ys)[1..] == xs[1..] + ys;
      RunAppend(Apply(w, xs[0]), xs[1..], ys);
    }
  }

  /** What a write call has returned stays as it is, and retirement is permanent. */
  lemma {:induction false} ResultsPersist(w: World, steps: seq<Step>, i: nat)
    requires Inv(w) && Run(w, steps).Some? && i < |w.writes| && w.writes[i].caller.Returned?
    ensures var w' := Run(w, steps).value;
            i < |w'.writes| && w'.writes[i].caller == w.writes[i].caller && (w.s.retiring ==> w'.s.retiring)
    decreases |steps|
  {
    if steps != [] {
      var w' := Apply(w, steps[0]);
      StepKeeps(w, steps[0]);
      StepPersists(w, steps[0], i);
      ResultsPersist(w', steps[1..], i);
    }
  }

  lemma StepPersists(w: World, step: Step, i: nat)
    requires Inv(w) && Enabled(w, step) && i < |w.writes| && w.writes[i].caller.Returned?
    ensures var w' := Apply(w, step);
            i < |w'.writes| && w'.writes[i].caller == w.writes[i].caller && (w.s.retiring ==> w'.s.retiring)
  {
    match step {
      case PumpStep(p) => PumpLocal(w.pump, w.s, w.input, p);
      case ReadStep(r) => ReadLocal(w.reader, w.s, r);
      case WriteStep(k, a) =>
        WriteFrame(w.writes[k], w.s, a);
        WriteProgress(w.writes[k], w.s, a);
      case _ =>
    }
  }

  /** The driver itself answered that it did not submit the report of this write. */
  ghost predicate DriverDeclined(log: seq<Call>, i: nat) {
    exists raw: NativeWrite :: raw.code == 1 && WriteEnd(i, raw) in log
  }

  /**
   The outcome of a write is true for the rest of the run. Success means the driver confirmed
   completion; NotSubmitted means the report never reaches the driver, unless the driver itself
   answered so; and a failed write leaves the connection retiring for good.
   */
  lemma WriteOutcomesAreTrue(w: World, later: seq<Step>, i: nat)
    requires Reachable(w) && i < |w.writes| && w.writes[i].caller.Returned? && Run(w, later).Some?
    ensures var w', told := Run(w, later).value, w.writes[i].caller;
            && (told.err == None ==> told.outcome == Completed)
            && (told.outcome == Completed ==> exists raw: NativeWrite :: raw.code == 2 && WriteEnd(i, raw) in w'.log)
            && (told.outcome == NotSubmitted ==> WriteBegin(i) !in w'.log || DriverDeclined(w'.log, i))
            && (told.err.Some? ==> w'.s.retiring)
  {
    ReachableInv(w);
    RunKeeps(w, later);
    ResultsPersist(w, later, i);
    var w', told := Run(w, later).value, w.writes[i].caller;
    var op := w'.writes[i];
    assert WriteInv(w.writes[i], w.s.retiring) && WriteInv(op, w'.s.retiring);
    if op.raw.Some? {
      assert WriteEnd(i, op.raw.value) in w'.log;
    }
    if told.outcome == NotSubmitted && WriteBegin(i) in w'.log {
      assert Begun(op);
      assert op.pending.completed && op.pending.submitted && Interpret(op.raw.value) == NotSubmitted;
      assert op.raw.value.code == 1;
    }
  }

  /**
   The ring refines a bounded FIFO: what Read calls returned is a prefix of what the pump
   accepted, with no gap or duplicate, and until retirement exactly the queue is missing.
   */
  lemma InputIsFifo(w: World)
    requires Reachable(w)
    ensures w.taken <= w.accepted && forall r :: r in w.accepted ==> w.input.Fits(r)
    ensures !w.s.retiring ==> w.accepted == w.taken + w.s.queue && |w.s.queue| <= QUEUE_SIZE
  {
    ReachableInv(w);
  }

  /** After retirement no report is accepted or returned, for the rest of the run, and retirement is permanent. */
  lemma NothingAfterRetirement(w: World, later: seq<Step>)
    requires Reachable(w) && w.s.retiring && Run(w, later).Some?
    ensures var w' := Run(w, later).value; w'.taken == w.taken && w'.accepted == w.accepted && w'.s.retiring
  {
    ReachableInv(w);
    RetiredRun(w, later);
  }

  lemma {:induction false} RetiredRun(w: World, later: seq<Step>)
    requires Inv(w) && w.s.retiring && Run(w, later).Some?
    ensures var w' := Run(w, later).value; w'.taken == w.taken && w'.accepted == w.accepted && w'.s.retiring
    decreases |later|
  {
    if later != [] {
      StepKeeps(w, later[0]);
      RetiredStep(w, later[0]);
      RetiredRun(Apply(w, later[0]), later[1..]);
    }
  }

  lemma RetiredStep(w: World, step: Step)
    requires ReaderInv(w.s, w.reader) && Enabled(w, step) && w.s.retiring
    ensures Apply(w, step).taken == w.taken && Apply(w, step).accepted == w.accepted && Apply(w, step).s.retiring
  {
    match step {
      case PumpStep(p) => PumpLocal(w.pump, w.s, w.input, p);
      case ReadStep(r) => ReadLocal(w.reader, w.s, r);
      case WriteStep(i, a) => WriteFrame(w.writes[i], w.s, a);
      case _ =>
    }
  }

  /** A Read call decides to report a timeout: the timer fired, the connection is open and nothing accepted is left to take. */
  ghost predicate DecidesTimeout(w: World, step: Step) {
    && Enabled(w, step) && w.reader.Polling? && w.reader.wake == TimerWake && !w.s.retiring && w.accepted == w.taken
    && var w' := Apply(w, step);
       w'.reader == ReadReturning(Fail(Timeout)) && w'.s == w.s && w'.taken == w.taken && w'.accepted == w.accepted
  }

  /** The worlds a schedule goes through. */
  ghost predicate Trace(worlds: seq<World>, steps: seq<Step>) {
    && |worlds| == |steps| + 1 && Reachable(worlds[0])
    && forall k :: 0 <= k < |steps| ==> Enabled(worlds[k], steps[k]) && worlds[k + 1] == Apply(worlds[k], steps[k])
  }

  lemma ReachableStep(w: World, step: Step)
    requires Reachable(w) && Enabled(w, step)
    ensures Reachable(Apply(w, step))
  {
    var input, output, steps :| Run(Start(input, output), steps) == Some(w);
    RunAppend(Start(input, output), steps, [step]);
    assert Run(w, [step]) == Run(Apply(w, step), [step][1..]);
    assert Run(Start(input, output), steps + [step]) == Some(Apply(w, step));
  }

  lemma {:induction false} TraceReachable(worlds: seq<World>, steps: seq<Step>, k: nat)
    requires Trace(worlds, steps) && k <= |steps|
    ensures Reachable(worlds[k])
  {
    if k > 0 {
      TraceReachable(worlds, steps, k - 1);
      ReachableStep(worlds[k - 1], steps[k - 1]);
    }
  }

  /**
   Behind every timeout a Read call is about to report lies the moment it was decided: the connection was
   open then, everything accepted so far had been taken, and deciding it changed nothing shared.
   */
  lemma {:induction false} TimeoutsAreLocal(worlds: seq<World>, steps: seq<Step>, n: nat) returns (k: nat)
    requires Trace(worlds, steps) && n <= |steps|
    requires worlds[0].reader != ReadReturning(Fail(Timeout)) && worlds[n].reader == ReadReturning(Fail(Timeout))
    ensures k < n && DecidesTimeout(worlds[k], steps[k])
    ensures forall j :: k < j <= n ==> worlds[j].reader == ReadReturning(Fail(Timeout))
    decreases n
  {
    if worlds[n - 1].reader == ReadReturning(Fail(Timeout)) {
      k := TimeoutsAreLocal(worlds, steps, n - 1);
    } else {
      k := n - 1;
      TraceReachable(worlds, steps, k);
      TimeoutDecided(worlds[k], steps[k]);
    }
  }

  lemma TimeoutDecided(w: World, step: Step)
    requires Reachable(w) && Enabled(w, step)
    requires w.reader != ReadReturning(Fail(Timeout)) && Apply(w, step).reader == ReadReturning(Fail(Timeout))
    ensures DecidesTimeout(w, step)
  {
    InputIsFifo(w);
  }

  /** No lost wakeup: a parked reader with input waiting, or a retired connection, can always go on. */
  lemma NoLostWakeup(w: World)
    requires Reachable(w) && w.reader.Parked? && (w.s.queue != [] || w.s.retiring || w.reader.canceled)
    ensures exists cause :: Enabled(w, ReadStep(Wakeup(cause)))
  {
    ReachableInv(w);
    var cause := if w.s.retiring then ByRetired else if w.s.queue != [] then ByReady else ByContext;
    assert Enabled(w, ReadStep(Wakeup(cause)));
  }

  /** A woken write call never falls through to the branch for a write that is neither done nor canceled. */
  lemma NoSpuriousWriteError(w: World, i: nat)
    requires Reachable(w) && i < |w.writes| && w.writes[i].caller == Awake
    ensures w.writes[i].pending.completed || w.writes[i].canceled
  {
    ReachableInv(w);
    assert WriteInv(w.writes[i], w.s.retiring);
  }

  /** A Close call that reports completion returns only after the handle is closed and the lease given back. */
  lemma CloseMeansClosed(w: World, k: nat)
    requires Reachable(w) && k < |w.closers| && w.closers[k] == CloseDone
    ensures HandleAfter(w.log) == Some(Handle(false, None, Released))
  {
    ReachableInv(w);
    if |w.writes| > 0 {
      LiveZero(w.writes, |w.writes| - 1);
    }
  }

  // ----- Retirement always completes -----------------------------------------------------------

  /** Steps of the pump, the write workers and the cleanup, including the return of native calls. */
  predicate Driving(step: Step) {
    match step
    case PumpStep(_) => true
    case CleanupStep(_) => true
    case WriteStep(_, a) => a == SubmitWork || a == BeginWrite || a.EndWrite? || a == CompleteWork || a == LeaveWorker
    case _ => false
  }

  function PumpRank(pump: Pump): nat {
    match pump
    case PumpArmed => 5
    case PumpReading => 4
    case PumpHolding(_) => 3
    case PumpTop => 2
    case PumpExiting => 1
    case PumpGone => 0
  }

  function WorkerRank(op: WriteOp): nat {
    match op.worker
    case Spawned => 5
    case Armed => 4
    case Writing => 3
    case Holding => 2
    case Exiting => 1
    case Gone => 0
  }

  function WorkRank(writes: seq<WriteOp>): nat {
    if writes == [] then 0 else WorkRank(writes[..|writes| - 1]) + WorkerRank(writes[|writes| - 1])
  }

  function CleanupRank(c: Cleanup): nat {
    match c
    case NotStarted => 6
    case AwaitWorkers => 5
    case ReadyToClose => 4
    case InClose => 3
    case HandleClosed => 2
    case LeaseGone => 1
    case Finished => 0
  }

  /** How many driving steps a retiring connection can still take. */
  function Rank(w: World): nat {
    PumpRank(w.pump) + WorkRank(w.writes) + CleanupRank(w.cleanup)
  }

  lemma {:induction false} WorkRankUpdate(writes: seq<WriteOp>, i: nat, op: WriteOp)
    requires i < |writes|
    ensures WorkRank(writes[i := op]) == WorkRank(writes) - WorkerRank(writes[i]) + WorkerRank(op)
    decreases |writes|
  {
    var n := |writes| - 1;
    if i < n {
      assert writes[i := op][..n] == writes[..n][i := op];
      WorkRankUpdate(writes[..n], i, op);
    } else {
      assert writes[i := op][..n] == writes[..n];
    }
  }

  lemma {:induction false} FindLive(writes: seq<WriteOp>) returns (i: nat)
    requires Live(writes) > 0
    ensures i < |writes| && writes[i].worker != Gone
  {
    var n := |writes| - 1;
    if writes[n].worker != Gone {
      i := n;
    } else {
      i := FindLive(writes[..n]);
    }
  }

  /** A retiring connection that is not cleaned up yet can always take a driving step. */
  lemma CleanupCannotStall(w: World)
    requires Reachable(w) && w.s.retiring && w.cleanup != Finished
    ensures exists step :: Driving(step) && Enabled(w, step)
  {
    ReachableInv(w);
    var step: Step;
    if w.cleanup != AwaitWorkers {
      var c := match w.cleanup case ReadyToClose => BeginClose case InClose => EndClose case HandleClosed => GiveBack case _ => Publish;
      step := CleanupStep(c);
    } else if w.s.workers == 0 {
      step := CleanupStep(EndWait);
    } else if w.pump != PumpGone {
      var p := match w.pump case PumpTop => Check case PumpArmed => BeginRead case PumpReading => EndRead(ReadTimeout)
                            case PumpHolding(_) => HandOver case _ => LeavePump;
      step := PumpStep(p);
    } else {
      var i := FindLive(w.writes);
      assert WriteInv(w.writes[i], w.s.retiring);
      var a := match w.writes[i].worker case Spawned => SubmitWork case Armed => BeginWrite case Writing => EndWrite(NativeWrite(2, false))
                                        case Holding => CompleteWork case _ => LeaveWorker;
      step := WriteStep(i, a);
    }
    assert Driving(step) && Enabled(w, step);
  }

  /** The driving steps of a schedule. */
  function Driven(steps: seq<Step>): nat {
    if steps == [] then 0 else (if Driving(steps[0]) then 1 else 0) + Driven(steps[1..])
  }

  /**
   Whatever else is scheduled, a retiring connection takes at most `Rank` driving steps, and when it has
   none left to take the handle is closed, the lease is back and Close calls can return.
   */
  lemma RetirementCompletes(w: World, steps: seq<Step>)
    requires Reachable(w) && w.s.retiring && Run(w, steps).Some?
    ensures var w' := Run(w, steps).value;
            && w'.s.retiring && Driven(steps) + Rank(w') <= Rank(w)
            && ((forall step :: Driving(step) ==> !Enabled(w', step)) ==>
                  w'.cleanup == Finished && HandleAfter(w'.log) == Some(Handle(false, None, Released)))
  {
    var w' := Run(w, steps).value;
    assert Inv(w) by {
      ReachableInv(w);
    }
    RankRun(w, steps);
    ReachableRun(w, steps);
    if forall step :: Driving(step) ==> !Enabled(w', step) {
      if w'.cleanup != Finished {
        CleanupCannotStall(w');
      }
      FinishedMeansReleased(w');
    }
  }

  lemma ReachableRun(w: World, steps: seq<Step>)
    requires Reachable(w) && Run(w, steps).Some?
    ensures Reachable(Run(w, steps).value)
  {
    var input, output, before :| Run(Start(input, output), before) == Some(w);
    RunAppend(Start(input, output), before, steps);
    assert Run(Start(input, output), before + steps) == Run(w, steps);
  }

  lemma FinishedMeansReleased(w: World)
    requires Inv(w) && w.cleanup == Finished
    ensures HandleAfter(w.log) == Some(Handle(false, None, Released))
  {
    if |w.writes| > 0 {
      LiveZero(w.writes, |w.writes| - 1);
    }
  }

  lemma {:induction false} RankRun(w: World, steps: seq<Step>)
    requires Inv(w) && w.s.retiring && Run(w, steps).Some?
    ensures Driven(steps) + Rank(Run(w, steps).value) <= Rank(w) && Inv(Run(w, steps).value) && Run(w, steps).value.s.retiring
    decreases |steps|
  {
    if steps != [] {
      StepKeeps(w, steps[0]);
      RankStep(w, steps[0]);
      RankRun(Apply(w, steps[0]), steps[1..]);
    }
  }

  /** Once retiring, each driving step lowers the rank and no other step raises it. */
  lemma RankStep(w: World, step: Step)
    requires ReaderInv(w.s, w.reader) && w.s.retiring && Enabled(w, step)
    ensures Apply(w, step).s.retiring
    ensures if Driving(step) then Rank(Apply(w, step)) < Rank(w) else Rank(Apply(w, step)) == Rank(w)
  {
    match step {
      case PumpStep(p) => PumpRankDrops(w, p);
      case ReadStep(r) => ReadRankSame(w, r);
      case WriteStep(i, a) => WriteRankDrops(w, i, a);
      case CleanupStep(c) => CleanupRankDrops(w, c);
      case _ => CallerRankSame(w, step);
    }
  }

  lemma CleanupRankDrops(w: World, c: CleanupAction)
    requires w.s.retiring && Enabled(w, CleanupStep(c))
    ensures Apply(w, CleanupStep(c)).s.retiring && Rank(Apply(w, CleanupStep(c))) < Rank(w)
  {
  }

  /** Admissions and Close calls leave the remaining work alone once the connection is retiring. */
  lemma CallerRankSame(w: World, step: Step)
    requires w.s.retiring && Enabled(w, step)
    requires step.ReadAdmit? || step.WriteAdmit? || step.CloseCall? || step.CloseCancel? || step.CloseReturn?
    ensures Apply(w, step).s.retiring && Rank(Apply(w, step)) == Rank(w)
  {
  }

  lemma ReadRankSame(w: World, r: ReadAction)
    requires w.s.retiring && ReaderInv(w.s, w.reader) && Enabled(w, ReadStep(r))
    ensures Apply(w, ReadStep(r)).s.retiring && Rank(Apply(w, ReadStep(r))) == Rank(w)
  {
    ReadLocal(w.reader, w.s, r);
  }

  lemma PumpRankDrops(w: World, p: PumpAction)
    requires w.s.retiring && Enabled(w, PumpStep(p))
    ensures Apply(w, PumpStep(p)).s.retiring && Rank(Apply(w, PumpStep(p))) < Rank(w)
  {
    PumpLocal(w.pump, w.s, w.input, p);
  }

  lemma WriteRankDrops(w: World, i: nat, a: WriteAction)
    requires w.s.retiring && Enabled(w, WriteStep(i, a))
    ensures var w' := Apply(w, WriteStep(i, a));
            w'.s.retiring && if Driving(WriteStep(i, a)) then Rank(w') < Rank(w) else Rank(w') == Rank(w)
  {
    WriteFrame(w.writes[i], w.s, a);
    WorkRankUpdate(w.writes, i, WriteDoes(w.writes[i], w.s, a).0);
    WriteRank(w.writes[i], w.s, a);
  }

  lemma WriteRank(op: WriteOp, s: Shared, a: WriteAction)
    requires WriteCan(op, s, a) && s.retiring
    ensures var op' := WriteDoes(op, s, a).0;
            if Driving(WriteStep(0, a)) then WorkerRank(op') < WorkerRank(op) else WorkerRank(op') == WorkerRank(op)
  {
  }
}
