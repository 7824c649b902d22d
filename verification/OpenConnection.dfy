/**
 What an open connection does: exactly what retires it, which calls it admits, that it keeps reading and
 hands out what it reads, and when a write succeeds. Conditions are said of the driver's answers, the contexts
 and the queue.
 */
module OpenConnection {
  import opened Values
  import opened Sections
  import opened SupervisorRuns

  // ----- Retirement ---------------------------------------------------------------------------

  /** The input cannot be kept: the read failed, the report is not of the input format, or 64 are waiting. */
  predicate Unkeepable(w: World, r: NativeRead) {
    match r
    case ReadTimeout => false
    case ReadFailure => true
    case ReadReport(report) => report.id != w.input.id || |report.data| != w.input.size || |w.s.queue| >= 64
  }

  /**
   The causes of retirement: input that cannot be kept, an expired context that an admitted read, a write worker
   or a write caller observes, a driver answer that is not an error-free completion, and a Close call.
   */
  predicate Retires(w: World, step: Step)
    requires Enabled(w, step)
  {
    match step
    case PumpStep(p) => p == HandOver && Unkeepable(w, w.pump.result)
    case ReadStep(r) => r == PollOnce && (w.reader.canceled || (w.reader.wake == ContextWake && w.s.queue == []))
    case WriteStep(i, a) =>
      var op := w.writes[i];
      || ((a == SubmitWork || a == DecideCaller) && op.canceled)
      || (a == CompleteWork && (op.raw.value.code != 2 || op.raw.value.failed))
    case CloseCall(_) => true
    case _ => false
  }

  lemma PumpRetires(w: World, p: PumpAction)
    requires Enabled(w, PumpStep(p)) && !w.s.retiring && |w.s.queue| <= 64
    ensures Apply(w, PumpStep(p)).s.retiring <==> Retires(w, PumpStep(p))
  {
  }

  lemma ReadRetires(w: World, r: ReadAction)
    requires Enabled(w, ReadStep(r)) && !w.s.retiring
    ensures Apply(w, ReadStep(r)).s.retiring <==> Retires(w, ReadStep(r))
  {
  }

  lemma WriteRetires(w: World, i: nat, a: WriteAction)
    requires Enabled(w, WriteStep(i, a)) && !w.s.retiring && WriteInv(w.writes[i], false)
    ensures Apply(w, WriteStep(i, a)).s.retiring <==> Retires(w, WriteStep(i, a))
  {
  }

  /** An open connection retires at a step if and only if the step has one of the causes. */
  lemma RetiresExactly(w: World, step: Step)
    requires Reachable(w) && Enabled(w, step) && !w.s.retiring
    ensures Apply(w, step).s.retiring <==> Retires(w, step)
  {
    assert |w.s.queue| <= 64 by {
      InputIsFifo(w);
    }
    match step {
      case PumpStep(p) => PumpRetires(w, p);
      case ReadStep(r) => ReadRetires(w, r);
      case WriteStep(i, a) =>
        assert WriteInv(w.writes[i], false) by {
          ReachableInv(w);
        }
        WriteRetires(w, i, a);
      case _ =>
    }
  }

  // ----- Input ----------------------------------------------------------------------------------

  /** A fitting report on an open connection with room is queued, wakes the reader and keeps the pump going. */
  lemma InputIsKept(w: World, report: Report)
    requires !w.s.retiring && w.pump == PumpHolding(ReadReport(report))
    requires report.id == w.input.id && |report.data| == w.input.size && |w.s.queue| < 64
    ensures var w' := Apply(w, PumpStep(HandOver));
            && w'.accepted == w.accepted + [report] && w'.s.queue == w.s.queue + [report] && w'.s.ready
            && w'.pump == PumpTop && !w'.s.retiring
  {
  }

  /** A poll that brings nothing changes nothing. */
  lemma IdlePollGoesOn(w: World)
    requires w.pump == PumpHolding(ReadTimeout)
    ensures var w' := Apply(w, PumpStep(HandOver));
            w'.pump == PumpTop && w'.s == w.s && w'.accepted == w.accepted && w'.cleanup == w.cleanup
  {
    assert w.accepted + [] == w.accepted;
  }

  predicate PumpStopped(w: World) {
    w.pump == PumpExiting || w.pump == PumpGone
  }

  lemma StopsOnlyRetired(w: World, step: Step)
    requires Inv(w) && Enabled(w, step) && (PumpStopped(w) ==> w.s.retiring)
    ensures PumpStopped(Apply(w, step)) ==> Apply(w, step).s.retiring
  {
    match step {
      case PumpStep(p) => PumpLocal(w.pump, w.s, w.input, p);
      case ReadStep(r) => ReadLocal(w.reader, w.s, r);
      case WriteStep(i, a) => WriteFrame(w.writes[i], w.s, a);
      case _ =>
    }
  }

  lemma {:induction false} StopsOnlyRetiredRun(w: World, steps: seq<Step>)
    requires Inv(w) && Run(w, steps).Some? && (PumpStopped(w) ==> w.s.retiring)
    ensures PumpStopped(Run(w, steps).value) ==> Run(w, steps).value.s.retiring
    decreases |steps|
  {
    if steps != [] {
      StopsOnlyRetired(w, steps[0]);
      StepKeeps(w, steps[0]);
      StopsOnlyRetiredRun(Apply(w, steps[0]), steps[1..]);
    }
  }

  /** The pump of an open connection never stops, and while it is not in a native read it can go on. */
  lemma PumpKeepsReading(w: World)
    requires Reachable(w) && !w.s.retiring
    ensures !PumpStopped(w)
    ensures w.pump == PumpTop ==> Enabled(w, PumpStep(Check)) && Apply(w, PumpStep(Check)).pump == PumpArmed
    ensures w.pump == PumpArmed ==> Enabled(w, PumpStep(BeginRead)) && Apply(w, PumpStep(BeginRead)).pump == PumpReading
  {
    var input, output, steps :| Run(Start(input, output), steps) == Some(w);
    StopsOnlyRetiredRun(Start(input, output), steps);
  }

  // ----- Reads ------------------------------------------------------------------------------------

  /** A read is admitted exactly on an open connection without another reader, with a context still good; refusals change nothing. */
  lemma ReadAdmission(w: World, canceled: bool, timed: bool)
    ensures Apply(w, ReadAdmit(canceled, timed)) ==
            if !canceled && !w.s.retiring && !w.s.readBusy then w.(s := w.s.(readBusy := true), reader := Polling(false, timed, NotWoken)) else w
  {
    assert w.log + [] == w.log;
  }

  /** What a round of an admitted read comes to: cancellation, closing, the oldest report, a timeout, or a wait. */
  lemma ReadRound(w: World)
    requires Enabled(w, ReadStep(PollOnce))
    ensures var w', reader := Apply(w, ReadStep(PollOnce)), w.reader;
            && (reader.canceled ==> w'.reader == ReadReturning(Fail(Canceled)))
            && (!reader.canceled && w.s.retiring ==> w'.reader == ReadReturning(Fail(Closed(w.s.reason))))
            && (!reader.canceled && !w.s.retiring && w.s.queue != [] ==>
                  && w'.reader == ReadReturning(Take(w.s.queue[0])) && w'.s.queue == w.s.queue[1..]
                  && w'.taken == w.taken + [w.s.queue[0]] && !w'.s.retiring)
            && (!reader.canceled && !w.s.retiring && w.s.queue == [] ==>
                  match reader.wake
                  case NotWoken => w'.reader == Parked(false, reader.timed) && w'.s == w.s
                  case TimerWake => w'.reader == ReadReturning(Fail(Timeout)) && w'.s == w.s
                  case ContextWake => w'.reader == ReadReturning(Fail(Canceled)))
  {
  }

  /** A returning read gives its place back. */
  lemma ReadFinishes(w: World)
    requires w.reader.ReadReturning?
    ensures Enabled(w, ReadStep(FinishRead)) && !Apply(w, ReadStep(FinishRead)).s.readBusy && Apply(w, ReadStep(FinishRead)).reader == NoReader
  {
  }

  // ----- Writes -----------------------------------------------------------------------------------

  /** A write is admitted exactly on an open connection without another writer, with a context still good; refusals change nothing. */
  lemma WriteAdmission(w: World, report: Report, canceled: bool)
    requires w.output.Fits(report)
    ensures Apply(w, WriteAdmit(report, canceled)) ==
            if !canceled && !w.s.retiring && !w.s.writeBusy then
              w.(s := w.s.(writeBusy := true, workers := w.s.workers + 1),
                 writes := w.writes + [WriteOp(report, false, Waiting, Spawned, NewPending(), None)])
            else w
  {
    assert w.log + [] == w.log;
  }

  /** A new write is admitted whenever the connection is open and every earlier one has returned. */
  lemma NextWriteIsAdmitted(w: World, report: Report)
    requires Reachable(w) && !w.s.retiring && w.output.Fits(report)
    requires forall i :: 0 <= i < |w.writes| ==> w.writes[i].caller.Returned?
    ensures |Apply(w, WriteAdmit(report, false)).writes| == |w.writes| + 1
  {
    ReachableInv(w);
    WriteAdmission(w, report, false);
  }

  /** The worker hands its report to the driver exactly if the connection is open and the context still good. */
  lemma SubmissionExact(w: World, i: nat)
    requires Enabled(w, WriteStep(i, SubmitWork))
    ensures var op := Apply(w, WriteStep(i, SubmitWork)).writes[i];
            && (op.worker == Armed <==> !w.s.retiring && !w.writes[i].canceled)
            && (op.worker == Armed ==> Enabled(Apply(w, WriteStep(i, SubmitWork)), WriteStep(i, BeginWrite)))
  {
  }

  /** The driver's answer that makes a write succeed. */
  const CLEAN := NativeWrite(2, false)

  /** What an outcome code of the driver means. */
  function OutcomeOf(code: Byte): Outcome {
    if code == 2 then Completed else if code == 1 then NotSubmitted else Unknown
  }

  /** A completed write has no error exactly after a clean answer; a caller not cancelled is told just what was recorded. */
  predicate ToldExactly(op: WriteOp) {
    && (op.pending.completed && op.pending.submitted ==>
          (op.pending.err == None <==> op.raw == Some(CLEAN)) && op.raw.Some? && op.pending.result == OutcomeOf(op.raw.value.code))
    && (op.pending.completed && !op.pending.submitted ==> op.pending.result == NotSubmitted)
    && ((op.caller.Returning? || op.caller.Returned?) && !op.canceled ==>
          op.pending.completed && op.caller.outcome == op.pending.result && op.caller.err == op.pending.err)
  }

  lemma ToldExactlyStep(op: WriteOp, s: Shared, a: WriteAction)
    requires WriteCan(op, s, a) && WriteInv(op, s.retiring) && ToldExactly(op)
    ensures ToldExactly(WriteDoes(op, s, a).0)
  {
  }

  ghost predicate AllToldExactly(w: World) {
    forall i :: 0 <= i < |w.writes| ==> ToldExactly(w.writes[i])
  }

  lemma AllToldStep(w: World, step: Step)
    requires Inv(w) && Enabled(w, step) && AllToldExactly(w)
    ensures AllToldExactly(Apply(w, step))
  {
    if step.WriteStep? {
      assert WriteInv(w.writes[step.i], w.s.retiring);
      ToldExactlyStep(w.writes[step.i], w.s, step.a);
    }
  }

  lemma {:induction false} AllToldRun(w: World, steps: seq<Step>)
    requires Inv(w) && Run(w, steps).Some? && AllToldExactly(w)
    ensures AllToldExactly(Run(w, steps).value)
    decreases |steps|
  {
    if steps != [] {
      AllToldStep(w, steps[0]);
      StepKeeps(w, steps[0]);
      AllToldRun(Apply(w, steps[0]), steps[1..]);
    }
  }

  /** A returned write that was not cancelled succeeded if and only if the driver completed it without an error. */
  lemma WriteSucceedsExactly(w: World, i: nat)
    requires Reachable(w) && i < |w.writes| && w.writes[i].caller.Returned? && !w.writes[i].canceled
    ensures w.writes[i].caller == Returned(Completed, None) <==> w.writes[i].raw == Some(CLEAN)
    ensures w.writes[i].caller.err == None <==> w.writes[i].raw == Some(CLEAN)
    ensures w.writes[i].caller.outcome == if w.writes[i].raw.Some? then OutcomeOf(w.writes[i].raw.value.code) else NotSubmitted
  {
    var input, output, steps :| Run(Start(input, output), steps) == Some(w);
    AllToldRun(Start(input, output), steps);
    ReachableInv(w);
    assert WriteInv(w.writes[i], w.s.retiring) && ToldExactly(w.writes[i]);
  }

  // ----- Close --------------------------------------------------------------------------------------

  /** Close reports completion exactly when the cleanup is finished. */
  lemma CloseExact(w: World, k: nat)
    requires Enabled(w, CloseReturn(k))
    ensures Apply(w, CloseReturn(k)).closers[k] == if w.cleanup == Finished then CloseDone else CloseExpired
    ensures w.cleanup != Finished ==> w.closers[k].canceled
  {
  }
}
