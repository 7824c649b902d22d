/**
 The writer thread of a macOS connection (pkg/hid/internal/darwin/connection_darwin.c) and the
 callers that hand reports to it: hid_write, writer_main, protected_write and hid_disconnect.
 Every section under the connection's lock, and each native call made outside it, is one step.
 Calls may overlap in any way; the theorems are about the runs that keep the driver contract.
 */
module NativeWriter {
  import opened Values
  import opened Sections
  import opened DriverContract

  /** What hid_write reports, and the number of the call whose report it is about. */
  datatype WriteResult = WriteResult(submitted: bool, completed: bool, failed: bool, about: Option<nat>)

  /** How the Go binding reads it: a completed report wins over a submitted one. */
  function RawOf(r: WriteResult): NativeWrite {
    NativeWrite(if r.completed then 2 else if r.submitted then 0 else 1, r.failed)
  }

  datatype CallState = InWrite | Finished(result: WriteResult)

  datatype Thread =
    | Idle                                  // waiting for work, or at the top of its loop
    | Working                               // in protected_write, before the report is set
    | Restoring(ok: bool)                   // the report was set; the signal mask comes next
    | Exited

  /** IOHIDDeviceSetReport was called with the report of a call and returned; the signal mask could not be restored. */
  datatype NativeEvent = SetReport(id: nat, ok: bool) | MaskLost(id: nat)

  /** What the connection's lock guards. */
  datatype Locked = Locked(
    pending: bool, done: bool, stop: bool, dead: bool, terminal: bool,
    buffer: nat,                            // the call whose report is in the output buffer
    result: WriteResult)

  datatype State = State(
    lock: Locked,
    writer: Thread,
    calls: seq<CallState>,
    inputFailed: bool,                      // a callback has made the connection terminal
    native: seq<NativeEvent>,
    log: seq<Call>)

  const NOTHING := WriteResult(false, false, false, None)

  function Start(): State {
    State(Locked(false, false, false, false, false, 0, NOTHING), Idle, [], false, [], [])
  }

  datatype Step =
    | CallWrite(fits: bool)                 // hid_write is entered
    | ReturnWrite(i: nat)                   // a waiting hid_write sees write_done
    | Pick                                  // the writer thread leaves its wait
    | SetupFails                            // the signal mask cannot be blocked
    | Set(ok: bool)                         // IOHIDDeviceSetReport returns
    | Restore(ok: bool)                     // the signal mask is restored, or not
    | InputFails                            // a callback makes the connection terminal
    | Disconnect                            // hid_disconnect asks both threads to stop
    | Joined                                // it has joined the writer and frees the connection

  predicate Enabled(st: State, step: Step) {
    match step
    case CallWrite(_) => true
    case ReturnWrite(i) => i < |st.calls| && st.calls[i] == InWrite && st.lock.done
    case Pick => st.writer == Idle && (st.lock.pending || st.lock.stop)
    case SetupFails => st.writer == Working
    case Set(_) => st.writer == Working
    case Restore(_) => st.writer.Restoring?
    case InputFails => true
    case Disconnect => !st.lock.stop
    case Joined => st.lock.stop && st.writer == Exited
  }

  // The critical sections.

  const REFUSED := WriteResult(false, false, true, None)

  /** hid_write hands its report over, or is refused. */
  function Enter(l: Locked, i: nat, fits: bool): (Locked, Option<WriteResult>) {
    if l.stop || l.terminal || l.dead || !fits then (l, Some(REFUSED))
    else (l.(buffer := i, pending := true, done := false), None)
  }

  /** writer_main records a result; it goes on unless the signal mask was lost. */
  function Publish(l: Locked, result: WriteResult, lost: bool): Locked {
    l.(result := result, pending := false, done := true, dead := l.dead || lost, terminal := l.terminal || lost)
  }

  function Published(st: State, result: WriteResult, lost: bool): State {
    var lock := Publish(st.lock, result, lost);
    st.(lock := lock, writer := if lock.dead then Exited else Idle, native := if lost then st.native + [MaskLost(st.lock.buffer)] else st.native)
  }

  function Apply(st: State, step: Step): State
    requires Enabled(st, step)
  {
    match step
    case CallWrite(fits) =>
      var i := |st.calls|;
      var log := st.log + [WriteBegin(i)];
      var (lock, refused) := Enter(st.lock, i, fits);
      if refused.Some? then
        st.(calls := st.calls + [Finished(refused.value)], log := log + [WriteEnd(i, RawOf(refused.value))])
      else
        st.(lock := lock, calls := st.calls + [InWrite], log := log)
    case ReturnWrite(i) =>
      st.(calls := st.calls[i := Finished(st.lock.result)], log := st.log + [WriteEnd(i, RawOf(st.lock.result))])
    case Pick => st.(writer := if st.lock.stop then Exited else Working)
    case SetupFails => Published(st, WriteResult(false, false, true, Some(st.lock.buffer)), false)
    case Set(ok) => st.(writer := Restoring(ok), native := st.native + [SetReport(st.lock.buffer, ok)])
    case Restore(ok) => Published(st, WriteResult(true, st.writer.ok, !st.writer.ok || !ok, Some(st.lock.buffer)), !ok)
    case InputFails => st.(lock := st.lock.(terminal := true), inputFailed := true)
    case Disconnect => st.(lock := st.lock.(stop := true), log := st.log + [CloseBegin])
    case Joined => st.(log := st.log + [CloseEnd])
  }

  /** The connection's guarded fields, as the C code updates them. */
  class Connection {
    var pending: bool
    var done: bool
    var stop: bool
    var dead: bool
    var terminal: bool
    var buffer: nat
    var result: WriteResult

    ghost function View(): Locked
      reads this
    {
      Locked(pending, done, stop, dead, terminal, buffer, result)
    }

    constructor ()
      ensures View() == Start().lock
    {
      pending, done, stop, dead, terminal, buffer, result := false, false, false, false, false, 0, NOTHING;
    }

    /** hid_write up to its wait. */
    method EnterWrite(i: nat, fits: bool) returns (refused: Option<WriteResult>)
      modifies this
      ensures (View(), refused) == Enter(old(View()), i, fits)
      ensures refused.Some? <==> old(stop || terminal || dead) || !fits
    {
      if stop || terminal || dead || !fits {
        return Some(REFUSED);
      }
      buffer := i;
      pending, done := true, false;
      refused := None;
    }

    /** writer_main after protected_write; the thread leaves its loop when told to. */
    method PublishResult(r: WriteResult, lost: bool) returns (leave: bool)
      modifies this
      ensures View() == Publish(old(View()), r, lost) && leave == View().dead
    {
      result := r;
      pending, done := false, true;
      if lost {
        dead := true;
        if !terminal {
          terminal := true;
        }
      }
      leave := dead;
    }

    method RequestStop()
      modifies this
      ensures View() == old(View()).(stop := true)
    {
      stop := true;
    }
  }

  function Run(st: State, steps: seq<Step>): Option<State>
    decreases |steps|
  {
    if steps == [] then Some(st)
    else if !Enabled(st, steps[0]) then None
    else Run(Apply(st, steps[0]), steps[1..])
  }

  ghost predicate Reachable(st: State) {
    exists steps :: Run(Start(), steps) == Some(st)
  }

  // ----- The invariant of obedient runs ---------------------------------------------------

  /** The one call that may be waiting. */
  predicate WaitingIs(st: State, writing: Option<nat>) {
    forall i :: 0 <= i < |st.calls| ==> (st.calls[i] == InWrite <==> writing == Some(i))
  }

  /** A finished call was told about its own report, or refused before it reached the writer. */
  predicate Truthful(r: WriteResult, i: nat, native: seq<NativeEvent>) {
    && (r.about == None || r.about == Some(i))
    && (r.submitted <==> WasSet(native, i))
    && (r.completed <==> SetReport(i, true) in native)
    && (!r.failed <==> SetReport(i, true) in native && MaskLost(i) !in native)
  }

  predicate WasSet(native: seq<NativeEvent>, i: nat) {
    SetReport(i, true) in native || SetReport(i, false) in native
  }

  predicate NativeInv(st: State) {
    && (forall i, j :: 0 <= i < j < |st.native| && st.native[i].MaskLost? ==> !st.native[j].SetReport?)
    && (forall i, j :: 0 <= i < j < |st.native| && st.native[i].SetReport? && st.native[j].SetReport? ==> st.native[i].id < st.native[j].id)
    && (forall e :: e in st.native ==> e.id < |st.calls|)
    && (forall e :: e in st.native && e.MaskLost? ==> st.lock.dead && st.writer == Exited)
  }

  predicate Inv(st: State) {
    Obeys(st.log) && InvAt(st, HandleAfter(st.log).value)
  }

  /** What holds of the connection while the contract sees its handle as `h`. */
  predicate InvAt(st: State, h: Handle) {
    && !h.reading
    && (st.lock.stop <==> h.phase != Open)
    && (h.writing.Some? ==> h.writing.value == |st.calls| - 1)
    && WaitingIs(st, h.writing)
    && (h.phase != Open ==> h.writing == None)
    && (h.phase == Shut || h.phase == Released ==> st.writer == Exited)
    && (st.lock.dead ==> st.writer == Exited)
    && (st.writer == Exited ==> st.lock.dead || st.lock.stop)
    && (st.lock.pending <==> h.writing.Some? && !st.lock.done)
    && (st.lock.pending ==> st.lock.buffer == h.writing.value && st.writer != Exited)
    && (st.lock.pending && (st.writer == Idle || st.writer == Working) ==> !WasSet(st.native, st.lock.buffer))
    && (st.writer.Restoring? ==> SetReport(st.lock.buffer, st.writer.ok) in st.native && SetReport(st.lock.buffer, !st.writer.ok) !in st.native)
    && (st.writer == Working || st.writer.Restoring? ==> st.lock.pending)
    && (h.writing.Some? && st.lock.done ==> st.lock.result.about == h.writing && Truthful(st.lock.result, h.writing.value, st.native))
    && NativeInv(st)
    && (forall i :: 0 <= i < |st.calls| && st.calls[i].Finished? ==> Truthful(st.calls[i].result, i, st.native))
  }

  lemma LogStep(log: seq<Call>, call: Call)
    requires Obeys(log + [call])
    ensures Obeys(log) && After(HandleAfter(log).value, call) == HandleAfter(log + [call])
  {
    HandleAfterAppend(log, call);
  }

  lemma CallRefused(st: State, h: Handle, log: seq<Call>)
    requires InvAt(st, h) && h.writing == None
    ensures InvAt(st.(calls := st.calls + [Finished(REFUSED)], log := log), h)
  {
    UnsetLater(st, |st.calls|);
  }

  /** The one call the contract lets wait. */
  lemma CallAdmitted(st: State, h: Handle, fits: bool, log: seq<Call>)
    requires InvAt(st, h) && h.phase == Open && h.writing == None && Enter(st.lock, |st.calls|, fits).1 == None
    ensures InvAt(st.(lock := Enter(st.lock, |st.calls|, fits).0, calls := st.calls + [InWrite], log := log), h.(writing := Some(|st.calls|)))
  {
    UnsetLater(st, |st.calls|);
  }

  /** A write the contract allows begins on an idle open handle; a refusal at once leaves the handle as it was. */
  lemma BeginAllowed(log: seq<Call>, i: nat, raw: NativeWrite)
    requires Obeys(log + [WriteBegin(i)])
    ensures Obeys(log)
    ensures var h := HandleAfter(log).value;
            && h.phase == Open && h.writing == None && HandleAfter(log + [WriteBegin(i)]) == Some(h.(writing := Some(i)))
            && HandleAfter(log + [WriteBegin(i)] + [WriteEnd(i, raw)]) == Some(h)
  {
    LogStep(log, WriteBegin(i));
    HandleAfterAppend(log + [WriteBegin(i)], WriteEnd(i, raw));
  }

  lemma CallKeeps(st: State, fits: bool)
    requires Inv(st) && Obeys(Apply(st, CallWrite(fits)).log)
    ensures Inv(Apply(st, CallWrite(fits)))
  {
    var i, st', h := |st.calls|, Apply(st, CallWrite(fits)), HandleAfter(st.log).value;
    CallLog(st, fits);
    if Enter(st.lock, i, fits).1.Some? {
      CallRefused(st, h, st'.log);
    } else {
      CallAdmitted(st, h, fits, st'.log);
    }
  }

  lemma CallLog(st: State, fits: bool)
    requires Obeys(Apply(st, CallWrite(fits)).log)
    ensures Obeys(st.log)
    ensures var i, st', h := |st.calls|, Apply(st, CallWrite(fits)), HandleAfter(st.log).value;
            && h.phase == Open && h.writing == None
            && HandleAfter(st'.log) == Some(if Enter(st.lock, i, fits).1.Some? then h else h.(writing := Some(i)))
  {
    var i, st' := |st.calls|, Apply(st, CallWrite(fits));
    assert Obeys(st.log + [WriteBegin(i)]) by {
      ObeysPrefix(st'.log, |st.log| + 1);
      assert st'.log[..|st.log| + 1] == st.log + [WriteBegin(i)];
    }
    BeginAllowed(st.log, i, RawOf(REFUSED));
  }

  /** No report of a call that has not been made yet was set. */
  lemma UnsetLater(st: State, i: nat)
    requires NativeInv(st) && i >= |st.calls|
    ensures !WasSet(st.native, i) && MaskLost(i) !in st.native
  {
  }

  lemma ReturnKeeps(st: State, i: nat)
    requires Inv(st) && Enabled(st, ReturnWrite(i)) && Obeys(Apply(st, ReturnWrite(i)).log)
    ensures Inv(Apply(st, ReturnWrite(i)))
  {
    LogStep(st.log, WriteEnd(i, RawOf(st.lock.result)));
  }

  lemma NativeGrows(st: State, st': State, ok: bool)
    requires NativeInv(st) && st.lock.buffer == |st.calls| - 1 && !WasSet(st.native, st.lock.buffer) && (forall e :: e in st.native ==> e.SetReport?)
    requires st'.native == st.native + [SetReport(st.lock.buffer, ok)] && st'.calls == st.calls
    ensures NativeInv(st')
  {
    forall k | 0 <= k < |st.native| && st.native[k].SetReport? ensures st.native[k].id < st.lock.buffer {
      assert st.native[k] in st.native && st.native[k] == SetReport(st.native[k].id, st.native[k].ok);
    }
    assert forall k :: 0 <= k < |st.native| ==> st'.native[k] == st.native[k] && st.native[k] in st.native;
  }

  lemma SetKeeps(st: State, ok: bool)
    requires Inv(st) && Enabled(st, Set(ok))
    ensures Inv(Apply(st, Set(ok)))
  {
    var st' := Apply(st, Set(ok));
    assert NativeInv(st') by {
      NativeGrows(st, st', ok);
    }
    assert forall x :: x in st'.native <==> x in st.native || x == SetReport(st.lock.buffer, ok);
  }

  lemma PublishKeeps(st: State, h: Handle, result: WriteResult, lost: bool)
    requires InvAt(st, h) && (st.writer == Working || st.writer.Restoring?) && (lost ==> st.writer.Restoring?)
    requires result.about == Some(st.lock.buffer) && (result.submitted <==> st.writer.Restoring?) && (!result.failed <==> result.completed && !lost)
    requires result.completed <==> st.writer.Restoring? && st.writer.ok
    ensures InvAt(Published(st, result, lost), h)
  {
    var st' := Published(st, result, lost);
    if lost {
      MaskLostLast(st, st');
    }
    assert forall i :: WasSet(st'.native, i) <==> WasSet(st.native, i);
    assert MaskLost(st.lock.buffer) !in st.native;
  }

  lemma MaskLostLast(st: State, st': State)
    requires NativeInv(st) && st.lock.buffer < |st.calls| && st'.native == st.native + [MaskLost(st.lock.buffer)] && st'.calls == st.calls && st'.lock.dead && st'.writer == Exited
    ensures NativeInv(st') && forall e: NativeEvent :: e in st'.native <==> e in st.native || e == MaskLost(st.lock.buffer)
  {
    assert forall k :: 0 <= k < |st.native| ==> st'.native[k] == st.native[k] && st.native[k] in st.native;
  }

  lemma StepKeeps(st: State, step: Step)
    requires Inv(st) && Enabled(st, step) && Obeys(Apply(st, step).log)
    ensures Inv(Apply(st, step))
  {
    match step {
      case CallWrite(fits) => CallKeeps(st, fits);
      case ReturnWrite(i) => ReturnKeeps(st, i);
      case SetupFails => PublishKeeps(st, HandleAfter(st.log).value, WriteResult(false, false, true, Some(st.lock.buffer)), false);
      case Set(ok) => SetKeeps(st, ok);
      case Restore(ok) => PublishKeeps(st, HandleAfter(st.log).value, WriteResult(true, st.writer.ok, !st.writer.ok || !ok, Some(st.lock.buffer)), !ok);
      case Disconnect => LogStep(st.log, CloseBegin);
      case Joined => LogStep(st.log, CloseEnd);
      case _ =>
    }
  }

  lemma LogOnlyGrows(st: State, step: Step)
    requires Enabled(st, step)
    ensures st.log <= Apply(st, step).log
  {
  }

  lemma {:induction false} RunLogGrows(st: State, steps: seq<Step>)
    requires Run(st, steps).Some?
    ensures st.log <= Run(st, steps).value.log
    decreases |steps|
  {
    if steps != [] {
      LogOnlyGrows(st, steps[0]);
      RunLogGrows(Apply(st, steps[0]), steps[1..]);
    }
  }

  lemma {:induction false} RunKeeps(st: State, steps: seq<Step>)
    requires Inv(st) && Run(st, steps).Some? && Obeys(Run(st, steps).value.log)
    ensures Inv(Run(st, steps).value)
    decreases |steps|
  {
    if steps != [] {
      var st', last := Apply(st, steps[0]), Run(st, steps).value;
      RunLogGrows(st', steps[1..]);
      ObeysPrefix(last.log, |st'.log|);
      assert last.log[..|st'.log|] == st'.log;
      StepKeeps(st, steps[0]);
      RunKeeps(st', steps[1..]);
    }
  }

  lemma ObedientInv(st: State)
    requires Reachable(st) && Obeys(st.log)
    ensures Inv(st)
  {
    var steps :| Run(Start(), steps) == Some(st);
    assert HandleAfter([]).Some?;
    RunKeeps(Start(), steps);
  }

  // ----- What the writer guarantees to callers that keep the contract -------------------------

  /** Every hid_write is told about its own report: submitted exactly if that report was set. */
  lemma WritesGetTheirOwnResult(st: State, i: nat)
    requires Reachable(st) && Obeys(st.log) && i < |st.calls| && st.calls[i].Finished?
    ensures Truthful(st.calls[i].result, i, st.native)
  {
    ObedientInv(st);
  }

  /** A report is set at most once, and none is set after the signal mask was lost. */
  lemma ReportsAreSetOnce(st: State, i: nat, j: nat)
    requires Reachable(st) && Obeys(st.log) && i < j < |st.native| && st.native[j].SetReport?
    ensures st.native[i].SetReport? && st.native[i].id < st.native[j].id
  {
    ObedientInv(st);
  }

  /** The writer never exits while a call waits for it: the call can return, or the writer can go on. */
  lemma PendingWritesAreServed(st: State, i: nat)
    requires Reachable(st) && Obeys(st.log) && i < |st.calls| && st.calls[i] == InWrite
    ensures Enabled(st, ReturnWrite(i)) ||
            Enabled(st, Pick) || Enabled(st, Set(true)) || Enabled(st, Restore(true))
    ensures !st.lock.done ==> st.writer != Exited && st.lock.buffer == i
  {
    ObedientInv(st);
  }

  /** How many steps of the writer are left before the waiting call has its result. */
  function WriterRank(t: Thread): nat {
    match t
    case Idle => 3
    case Working => 2
    case Restoring(_) => 1
    case Exited => 4
  }

  /** Each step of the writer brings a waiting call nearer to its result, and the last one delivers it. */
  lemma WriterServes(st: State, i: nat, step: Step)
    requires Reachable(st) && Obeys(st.log) && i < |st.calls| && st.calls[i] == InWrite && !st.lock.done
    requires Enabled(st, step) && (step.Pick? || step.SetupFails? || step.Set? || step.Restore?)
    ensures var st' := Apply(st, step);
            && st'.calls == st.calls
            && (st'.lock.done <==> step.Restore? || step.SetupFails?)
            && (st'.lock.done ==> st'.lock.result.about == Some(i) && Enabled(st', ReturnWrite(i)))
            && (!st'.lock.done ==> WriterRank(st'.writer) < WriterRank(st.writer))
  {
    ObedientInv(st);
  }

  /** Once a disconnect is asked for, the writer exits at its next wait and the connection can be freed. */
  lemma DisconnectEnds(st: State)
    requires Reachable(st) && Obeys(st.log) && CloseBegin in st.log
    ensures Enabled(st, Joined) || (Enabled(st, Pick) && Enabled(Apply(st, Pick), Joined))
  {
    ObedientInv(st);
    var steps :| Run(Start(), steps) == Some(st);
    FlagsRun(Start(), steps);
  }

  /** When the connection is freed, its writer has exited and no call is inside it. */
  lemma FreedMeansUnused(st: State)
    requires Reachable(st) && Obeys(st.log) && CloseEnd in st.log
    ensures st.writer == Exited && forall i :: 0 <= i < |st.calls| ==> st.calls[i].Finished?
  {
    ObedientInv(st);
    var k :| 0 <= k < |st.log| && st.log[k] == CloseEnd;
    ShutStays(st.log, k);
  }

  lemma {:induction false} ShutStays(log: seq<Call>, k: nat)
    requires Obeys(log) && k < |log| && log[k] == CloseEnd
    ensures HandleAfter(log).value.phase == Shut || HandleAfter(log).value.phase == Released
    decreases |log|
  {
    if k < |log| - 1 {
      ObeysPrefix(log, |log| - 1);
      ShutStays(log[..|log| - 1], k);
    }
  }

  // ----- When a call is refused ---------------------------------------------------------------------

  /** The signal mask was lost at some report. */
  ghost predicate LostMask(st: State) {
    exists id :: MaskLost(id) in st.native
  }

  /** The flags say what has happened: a disconnect, a failed input, a lost mask. */
  ghost predicate FlagsTell(st: State) {
    && (st.lock.stop <==> CloseBegin in st.log)
    && (st.lock.dead <==> LostMask(st))
    && (st.lock.terminal <==> st.inputFailed || LostMask(st))
  }

  lemma FlagsStep(st: State, step: Step)
    requires FlagsTell(st) && Enabled(st, step)
    ensures FlagsTell(Apply(st, step))
  {
    var st' := Apply(st, step);
    if LostMask(st) {
      var id :| MaskLost(id) in st.native;
      assert MaskLost(id) in st'.native;
    }
    if step.Restore? && !step.ok {
      assert MaskLost(st.lock.buffer) in st'.native;
    } else {
      assert forall id :: MaskLost(id) in st'.native <==> MaskLost(id) in st.native;
    }
  }

  lemma {:induction false} FlagsRun(st: State, steps: seq<Step>)
    requires FlagsTell(st) && Run(st, steps).Some?
    ensures FlagsTell(Run(st, steps).value)
    decreases |steps|
  {
    if steps != [] {
      FlagsStep(st, steps[0]);
      FlagsRun(Apply(st, steps[0]), steps[1..]);
    }
  }

  /**
   In any run a call is refused if and only if its report does not fit, the connection was asked to stop, its
   input failed or its signal mask was lost; otherwise it is handed to the writer and waits.
   */
  lemma RefusedExactly(st: State, fits: bool)
    requires Reachable(st)
    ensures var st', i := Apply(st, CallWrite(fits)), |st.calls|;
            && |st'.calls| == i + 1
            && (st'.calls[i].Finished? <==> !fits || CloseBegin in st.log || st.inputFailed || LostMask(st))
            && (st'.calls[i].Finished? ==> st'.calls[i].result == WriteResult(false, false, true, None) && st'.lock == st.lock)
            && (!st'.calls[i].Finished? ==> st'.calls[i] == InWrite && st'.lock.pending && !st'.lock.done && st'.lock.buffer == i)
  {
    var steps :| Run(Start(), steps) == Some(st);
    FlagsRun(Start(), steps);
  }

  /** A finished write succeeded if and only if its report was set successfully and the mask was restored after it. */
  lemma WriteSucceedsExactly(st: State, i: nat)
    requires Reachable(st) && Obeys(st.log) && i < |st.calls| && st.calls[i].Finished?
    ensures !st.calls[i].result.failed <==> SetReport(i, true) in st.native && MaskLost(i) !in st.native
    ensures RawOf(st.calls[i].result) == NativeWrite(2, false) <==> SetReport(i, true) in st.native && MaskLost(i) !in st.native
  {
    ObedientInv(st);
    assert Truthful(st.calls[i].result, i, st.native);
  }

  // ----- Without the contract neither guarantee holds -------------------------------------------

  /** Two overlapping writes: the first is told about the second one's report. */
  lemma OverlapMixesResults()
    ensures exists st :: Reachable(st) && |st.calls| == 2 && st.calls[0].Finished? && !Truthful(st.calls[0].result, 0, st.native)
  {
    var s0 := Start();
    assert Run(Start(), []) == Some(s0);
    var s1 := ReachStep(s0, CallWrite(true));
    var s2 := ReachStep(s1, CallWrite(true));
    var s3 := ReachStep(s2, Pick);
    var s4 := ReachStep(s3, Set(true));
    var s5 := ReachStep(s4, Restore(true));
    var s6 := ReachStep(s5, ReturnWrite(0));
    assert s6.calls[0].result.about == Some(1);
  }

  lemma ReachStep(st: State, step: Step) returns (st': State)
    requires Reachable(st) && Enabled(st, step)
    ensures Reachable(st') && st' == Apply(st, step)
  {
    var steps :| Run(Start(), steps) == Some(st);
    st' := Apply(st, step);
    RunLast(Start(), steps, step);
  }

  lemma {:induction false} RunLast(st: State, steps: seq<Step>, step: Step)
    requires Run(st, steps).Some? && Enabled(Run(st, steps).value, step)
    ensures Run(st, steps + [step]) == Some(Apply(Run(st, steps).value, step))
    decreases |steps|
  {
    if steps == [] {
      assert ([] + [step])[1..] == [];
    } else {
      assert (steps + [step])[0] == steps[0] && (steps + [step])[1..] == steps[1..] + [step];
      RunLast(Apply(st, steps[0]), steps[1..], step);
    }
  }

  /** Closing under a pending write strands it: the writer exits first and the call never returns. */
  lemma CloseStrandsPendingWrite(later: seq<Step>)
    ensures var st := Apply(Apply(Apply(Start(), CallWrite(true)), Disconnect), Pick);
            Run(st, later).Some? ==> var st' := Run(st, later).value; |st'.calls| > 0 && st'.calls[0] == InWrite
  {
    var st := Apply(Apply(Apply(Start(), CallWrite(true)), Disconnect), Pick);
    if Run(st, later).Some? {
      StrandedStays(st, later);
    }
  }

  predicate Stranded(st: State) {
    st.lock.stop && st.writer == Exited && !st.lock.done && |st.calls| > 0 && st.calls[0] == InWrite
  }

  lemma {:induction false} StrandedStays(st: State, steps: seq<Step>)
    requires Stranded(st) && Run(st, steps).Some?
    ensures Stranded(Run(st, steps).value)
    decreases |steps|
  {
    if steps != [] {
      StrandedStays(Apply(st, steps[0]), steps[1..]);
    }
  }

  // ----- What the Go side is told is what the call ended with -------------------------------------

  predicate EndsMatch(st: State) {
    forall c :: c in st.log && c.WriteEnd? ==>
                  c.id < |st.calls| && st.calls[c.id].Finished? && RawOf(st.calls[c.id].result) == c.raw
  }

  lemma EndsMatchStep(st: State, step: Step)
    requires EndsMatch(st) && Enabled(st, step)
    ensures EndsMatch(Apply(st, step))
  {
    match step {
      case CallWrite(_) =>
      case ReturnWrite(_) =>
      case Disconnect =>
      case Joined =>
      case _ => assert Apply(st, step).log == st.log && Apply(st, step).calls == st.calls;
    }
  }

  lemma {:induction false} EndsMatchRun(st: State, steps: seq<Step>)
    requires EndsMatch(st) && Run(st, steps).Some?
    ensures EndsMatch(Run(st, steps).value)
    decreases |steps|
  {
    if steps != [] {
      EndsMatchStep(st, steps[0]);
      EndsMatchRun(Apply(st, steps[0]), steps[1..]);
    }
  }

  lemma ReachableEndsMatch(st: State)
    requires Reachable(st)
    ensures EndsMatch(st)
  {
    var steps :| Run(Start(), steps) == Some(st);
    EndsMatchRun(Start(), steps);
  }
}

/** The supervisor keeps the contract the writer thread relies on. */
module Composition {
  import opened Values
  import opened Sections
  import opened DriverContract
  import C = SupervisorRuns
  import N = NativeWriter

  /** One call as the native writer sees it after `n` writes: reads and the lease are invisible. */
  function Visible(call: Call, n: nat): Option<Call> {
    match call
    case WriteBegin(_) => Some(WriteBegin(n))
    case WriteEnd(_, raw) => Some(WriteEnd(if n == 0 then 0 else n - 1, raw))
    case CloseBegin => Some(CloseBegin)
    case CloseEnd => Some(CloseEnd)
    case _ => None
  }

  /** The calls as the native writer sees them, with its writes numbered in order. */
  function WriterView(log: seq<Call>): (seq<Call>, nat) {
    if log == [] then ([], 0)
    else
      var (view, n) := WriterView(log[..|log| - 1]);
      var last := log[|log| - 1];
      var call := Visible(last, n);
      (if call.Some? then view + [call.value] else view, if last.WriteBegin? then n + 1 else n)
  }

  /** The native handle as the writer sees it. */
  function Seen(h: Handle, n: nat): Handle {
    Handle(false,
           if h.writing.Some? && n > 0 then Some(n - 1) else None,
           if h.phase == Released then Shut else h.phase)
  }

  lemma VisibleAllowed(h: Handle, call: Call, n: nat)
    requires After(h, call).Some? && (h.writing.Some? ==> n > 0)
    ensures var h', n' := After(h, call).value, if call.WriteBegin? then n + 1 else n;
            && (h'.writing.Some? ==> n' > 0)
            && match Visible(call, n)
               case Some(c) => After(Seen(h, n), c) == Some(Seen(h', n'))
               case None => Seen(h, n) == Seen(h', n')
  {
  }

  lemma {:induction false} ViewObeys(log: seq<Call>)
    requires Obeys(log)
    ensures var (view, n) := WriterView(log);
            HandleAfter(view) == Some(Seen(HandleAfter(log).value, n)) && (HandleAfter(log).value.writing.Some? ==> n > 0)
    decreases |log|
  {
    if log != [] {
      var init, last := log[..|log| - 1], log[|log| - 1];
      ViewObeys(init);
      var (view, n) := WriterView(init);
      VisibleAllowed(HandleAfter(init).value, last, n);
      if Visible(last, n).Some? {
        HandleAfterAppend(view, Visible(last, n).value);
      }
    }
  }

  /**
   Rely and guarantee meet: a native connection driven by any run of the supervisor answers every
   write with that write's own result, never strands one, and is free of callers when it is freed.
   */
  lemma SupervisedWriterIsSafe(w: C.World, st: N.State)
    requires C.Reachable(w) && N.Reachable(st) && st.log == WriterView(w.log).0
    ensures forall i :: 0 <= i < |st.calls| && st.calls[i].Finished? ==> N.Truthful(st.calls[i].result, i, st.native)
    ensures forall i :: 0 <= i < |st.calls| && st.calls[i] == N.InWrite && !st.lock.done ==> st.writer != N.Exited
    ensures CloseEnd in st.log ==> st.writer == N.Exited && forall i :: 0 <= i < |st.calls| ==> st.calls[i].Finished?
  {
    C.HandleSafety(w);
    ViewObeys(w.log);
    N.ObedientInv(st);
    if CloseEnd in st.log {
      N.FreedMeansUnused(st);
    }
  }

  /** The supervisor's numbers of the writes it began, in the order the writer saw them. */
  function Writes(log: seq<Call>): seq<nat> {
    if log == [] then []
    else
      var last := log[|log| - 1];
      Writes(log[..|log| - 1]) + (if last.WriteBegin? then [last.id] else [])
  }

  /** The writer's k-th call carries the report of the supervisor's write i. */
  predicate Carries(log: seq<Call>, i: nat, k: nat) {
    k < |Writes(log)| && Writes(log)[k] == i
  }

  lemma {:induction false} WritesCounted(log: seq<Call>)
    ensures WriterView(log).1 == |Writes(log)|
    ensures forall k :: 0 <= k < |Writes(log)| ==> WriteBegin(Writes(log)[k]) in log
    decreases |log|
  {
    if log != [] {
      WritesCounted(log[..|log| - 1]);
    }
  }

  lemma {:induction false} InFlightIsLast(log: seq<Call>)
    requires Obeys(log) && HandleAfter(log).value.writing.Some?
    ensures Writes(log) != [] && Writes(log)[|Writes(log)| - 1] == HandleAfter(log).value.writing.value
    decreases |log|
  {
    var init, last := log[..|log| - 1], log[|log| - 1];
    if !last.WriteBegin? {
      InFlightIsLast(init);
    }
  }

  /** The result of the supervisor's write i is the result of the writer's call for it. */
  lemma {:induction false} EndSeen(log: seq<Call>, i: nat, raw: NativeWrite) returns (k: nat)
    requires Obeys(log) && WriteEnd(i, raw) in log
    ensures Carries(log, i, k) && WriteEnd(k, raw) in WriterView(log).0
    decreases |log|
  {
    var init, last := log[..|log| - 1], log[|log| - 1];
    if last == WriteEnd(i, raw) {
      InFlightIsLast(init);
      WritesCounted(init);
      k := |Writes(init)| - 1;
    } else {
      assert WriteEnd(i, raw) in init;
      k := EndSeen(init, i, raw);
    }
  }

  predicate Increasing(ids: seq<nat>) {
    forall i, j :: 0 <= i < j < |ids| ==> ids[i] < ids[j]
  }

  lemma IncreasingGrows(log: seq<Call>, call: Call)
    requires Increasing(Writes(log)) && (call.WriteBegin? ==> forall c :: c in log && c.WriteBegin? ==> c.id < call.id)
    ensures Increasing(Writes(log + [call]))
  {
    WritesCounted(log);
    assert (log + [call])[..|log|] == log;
  }

  lemma BeginsInOrderStep(w: C.World, step: C.Step)
    requires C.LogInv(w) && C.WritesInv(w) && C.Enabled(w, step) && Increasing(Writes(w.log))
    ensures Increasing(Writes(C.Apply(w, step).log))
  {
    var more := C.Calls(step);
    assert C.Apply(w, step).log == w.log + more;
    if more == [] {
      assert w.log + more == w.log;
    } else {
      assert more == [more[0]];
      if more[0].WriteBegin? {
        assert more[0].id == step.i && w.writes[step.i].worker == C.Armed;
        assert C.WriteInv(w.writes[step.i], w.s.retiring);
        C.UnfinishedIsLast(w, step.i);
      }
      IncreasingGrows(w.log, more[0]);
    }
  }

  lemma {:induction false} BeginsInOrderRun(w: C.World, steps: seq<C.Step>)
    requires C.Inv(w) && C.Run(w, steps).Some? && Increasing(Writes(w.log))
    ensures Increasing(Writes(C.Run(w, steps).value.log))
    decreases |steps|
  {
    if steps != [] {
      BeginsInOrderStep(w, steps[0]);
      C.StepKeeps(w, steps[0]);
      BeginsInOrderRun(C.Apply(w, steps[0]), steps[1..]);
    }
  }

  /** The supervisor begins native writes in the order of admission, each at most once. */
  lemma WritesBeginInOrder(w: C.World)
    requires C.Reachable(w)
    ensures Increasing(Writes(w.log))
  {
    var input, output, steps :| C.Run(C.Start(input, output), steps) == Some(w);
    BeginsInOrderRun(C.Start(input, output), steps);
  }

  /** The end of the supervisor's write i is the end of one call of the writer, told the truth. */
  lemma EndedCall(w: C.World, st: N.State, i: nat, raw: NativeWrite) returns (k: nat)
    requires C.Reachable(w) && N.Reachable(st) && st.log == WriterView(w.log).0 && WriteEnd(i, raw) in w.log
    ensures Carries(w.log, i, k) && (raw.code == 2 ==> N.SetReport(k, true) in st.native) && (raw.code == 1 ==> !N.WasSet(st.native, k))
  {
    assert Obeys(w.log) && Obeys(st.log) by {
      C.HandleSafety(w);
      ViewObeys(w.log);
    }
    k := EndSeen(w.log, i, raw);
    N.ReachableEndsMatch(st);
    N.WritesGetTheirOwnResult(st, k);
  }

  /**
   From the caller of Write down to the operating system: Completed means that IOHIDDeviceSetReport
   succeeded with this very report, and NotSubmitted means that it is never called with it.
   */
  lemma OutcomesReachTheSystem(w: C.World, st: N.State, i: nat)
    requires C.Reachable(w) && N.Reachable(st) && st.log == WriterView(w.log).0
    requires i < |w.writes| && w.writes[i].caller.Returned?
    ensures w.writes[i].caller.outcome == Completed ==> exists k :: Carries(w.log, i, k) && N.SetReport(k, true) in st.native
    ensures w.writes[i].caller.outcome == NotSubmitted ==> forall k :: Carries(w.log, i, k) ==> !N.WasSet(st.native, k)
  {
    C.WriteOutcomesAreTrue(w, [], i);
    if w.writes[i].caller.outcome == Completed {
      var raw: NativeWrite :| raw.code == 2 && WriteEnd(i, raw) in w.log;
      var k := EndedCall(w, st, i, raw);
    } else if w.writes[i].caller.outcome == NotSubmitted {
      WritesCounted(w.log);
      if C.DriverDeclined(w.log, i) {
        var raw: NativeWrite :| raw.code == 1 && WriteEnd(i, raw) in w.log;
        var k := EndedCall(w, st, i, raw);
        WritesBeginInOrder(w);
      }
    }
  }
}
