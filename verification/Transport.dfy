/**
 One exchange from the session down to the operating system: the session hands its reports to the
 supervisor one Write call at a time, the supervisor to the writer thread, and the thread to
 IOHIDDeviceSetReport. What a failed exchange claims about delivery is true of the system calls made.
 */
module ExchangeDelivery {
  import opened Values
  import Sections
  import F = Framing
  import M = MessageReader
  import S = Session
  import C = SupervisorRuns
  import N = NativeWriter
  import P = Composition

  /**
   One Write call of the session: refused before admission, or admitted as the next write and returned
   within `moves`, during which anything else may happen too.
   */
  ghost predicate Called(before: C.World, s: M.Step, op: Option<nat>, moves: seq<C.Step>, after: C.World) {
    && s.Sent?
    && match op
       case None => s.outcome == NotSubmitted && s.failed && C.Run(before, moves) == Some(after)
       case Some(i) =>
         var admit := C.WriteAdmit(Sections.Report(before.output.id, s.packet), false);
         && i == |before.writes| && C.Enabled(before, admit) && Sections.AdmitWrite(before.s, false).1 == None
         && C.Run(C.Apply(before, admit), moves) == Some(after)
         && i < |after.writes| && after.writes[i].caller.Returned?
         && after.writes[i].caller.outcome == s.outcome && (s.failed <==> after.writes[i].caller.err.Some?)
  }

  /** The reports of a request were handed over one after another, each by its own call. */
  ghost predicate HandedOver(worlds: seq<C.World>, sends: seq<M.Step>, ops: seq<Option<nat>>, moves: seq<seq<C.Step>>) {
    && |worlds| == |sends| + 1 && |ops| == |moves| == |sends| && C.Reachable(worlds[0])
    && forall j :: 0 <= j < |sends| ==> Called(worlds[j], sends[j], ops[j], moves[j], worlds[j + 1])
  }

  /** In this world each report sent is that of its write, which has returned what the session was told. */
  ghost predicate CarriedOut(w: C.World, s: M.Step, op: Option<nat>) {
    && s.Sent?
    && match op
       case None => s.outcome == NotSubmitted && s.failed
       case Some(i) =>
         && i < |w.writes| && w.writes[i].report.data == s.packet && w.writes[i].caller.Returned?
         && w.writes[i].caller.outcome == s.outcome && (s.failed <==> w.writes[i].caller.err.Some?)
  }

  // ----- Writes stay as they are -----------------------------------------------------------------

  lemma WriteStays(w: C.World, step: C.Step, i: nat)
    requires C.Inv(w) && C.Enabled(w, step) && i < |w.writes|
    ensures var w' := C.Apply(w, step); i < |w'.writes| && w'.writes[i].report == w.writes[i].report
  {
  }

  lemma {:induction false} WritesStay(w: C.World, steps: seq<C.Step>, i: nat)
    requires C.Inv(w) && C.Run(w, steps).Some? && i < |w.writes|
    ensures var w' := C.Run(w, steps).value; i < |w'.writes| && w'.writes[i].report == w.writes[i].report
    decreases |steps|
  {
    if steps != [] {
      WriteStays(w, steps[0], i);
      C.StepKeeps(w, steps[0]);
      WritesStay(C.Apply(w, steps[0]), steps[1..], i);
    }
  }

  lemma {:induction false} WritesGrow(w: C.World, steps: seq<C.Step>)
    requires C.Inv(w) && C.Run(w, steps).Some?
    ensures |w.writes| <= |C.Run(w, steps).value.writes|
  {
    if |w.writes| > 0 {
      WritesStay(w, steps, |w.writes| - 1);
    }
  }

  lemma CarriedStays(w: C.World, steps: seq<C.Step>, s: M.Step, op: Option<nat>)
    requires C.Reachable(w) && C.Run(w, steps).Some? && CarriedOut(w, s, op)
    ensures CarriedOut(C.Run(w, steps).value, s, op)
  {
    if op.Some? {
      C.ReachableInv(w);
      WritesStay(w, steps, op.value);
      C.ResultsPersist(w, steps, op.value);
    }
  }

  /** One call carries its report out, is reachable again, and only adds writes. */
  lemma CallCarries(before: C.World, s: M.Step, op: Option<nat>, moves: seq<C.Step>, after: C.World)
    requires C.Reachable(before) && Called(before, s, op, moves, after)
    ensures C.Reachable(after) && CarriedOut(after, s, op) && |before.writes| <= |after.writes|
    ensures op.Some? ==> |before.writes| == op.value < |after.writes|
  {
    if op.None? {
      C.ReachableRun(before, moves);
      C.ReachableInv(before);
      WritesGrow(before, moves);
    } else {
      var admit := C.WriteAdmit(Sections.Report(before.output.id, s.packet), false);
      var mid := C.Apply(before, admit);
      C.ReachableStep(before, admit);
      C.ReachableRun(mid, moves);
      assert |mid.writes| == op.value + 1 && mid.writes[op.value].report.data == s.packet;
      C.ReachableInv(mid);
      WritesStay(mid, moves, op.value);
    }
  }

  /** What was carried out before a call is still so after it. */
  lemma CallKeeps(before: C.World, s: M.Step, op: Option<nat>, moves: seq<C.Step>, after: C.World, t: M.Step, earlier: Option<nat>)
    requires C.Reachable(before) && Called(before, s, op, moves, after) && CarriedOut(before, t, earlier)
    ensures CarriedOut(after, t, earlier)
  {
    if op.None? {
      CarriedStays(before, moves, t, earlier);
    } else {
      var admit := C.WriteAdmit(Sections.Report(before.output.id, s.packet), false);
      var mid := C.Apply(before, admit);
      C.ReachableStep(before, admit);
      assert CarriedOut(mid, t, earlier);
      CarriedStays(mid, moves, t, earlier);
    }
  }

  /** The writes of a request come in the order of its reports. */
  predicate InOrder(ops: seq<Option<nat>>, n: nat, limit: nat) {
    && n <= |ops|
    && (forall j :: 0 <= j < n && ops[j].Some? ==> ops[j].value < limit)
    && (forall i, j :: 0 <= i < j < n && ops[i].Some? && ops[j].Some? ==> ops[i].value < ops[j].value)
  }

  ghost predicate AllCarriedOut(w: C.World, sends: seq<M.Step>, ops: seq<Option<nat>>, n: nat) {
    n <= |sends| == |ops| && forall j :: 0 <= j < n ==> CarriedOut(w, sends[j], ops[j])
  }

  /** What one call does, without how: its report is carried out, and nothing carried out before is lost. */
  ghost predicate Adds(before: C.World, s: M.Step, op: Option<nat>, after: C.World) {
    && CarriedOut(after, s, op) && |before.writes| <= |after.writes|
    && (op.Some? ==> |before.writes| == op.value < |after.writes|)
    && (forall t, earlier :: CarriedOut(before, t, earlier) ==> CarriedOut(after, t, earlier))
  }

  lemma CallAdds(before: C.World, s: M.Step, op: Option<nat>, moves: seq<C.Step>, after: C.World)
    requires C.Reachable(before) && Called(before, s, op, moves, after)
    ensures Adds(before, s, op, after)
  {
    forall t, earlier | CarriedOut(before, t, earlier) ensures CarriedOut(after, t, earlier) {
      CallKeeps(before, s, op, moves, after, t, earlier);
    }
    CallCarries(before, s, op, moves, after);
  }

  lemma {:induction false} WorldsReachable(worlds: seq<C.World>, sends: seq<M.Step>, ops: seq<Option<nat>>, moves: seq<seq<C.Step>>, n: nat)
    requires HandedOver(worlds, sends, ops, moves) && n <= |sends|
    ensures C.Reachable(worlds[n])
  {
    if n > 0 {
      WorldsReachable(worlds, sends, ops, moves, n - 1);
      CallCarries(worlds[n - 1], sends[n - 1], ops[n - 1], moves[n - 1], worlds[n]);
    }
  }

  ghost predicate AddsEach(worlds: seq<C.World>, sends: seq<M.Step>, ops: seq<Option<nat>>) {
    && |worlds| == |sends| + 1 && |ops| == |sends|
    && forall j :: 0 <= j < |sends| ==> Adds(worlds[j], sends[j], ops[j], worlds[j + 1])
  }

  lemma CallsAdd(worlds: seq<C.World>, sends: seq<M.Step>, ops: seq<Option<nat>>, moves: seq<seq<C.Step>>)
    requires HandedOver(worlds, sends, ops, moves)
    ensures AddsEach(worlds, sends, ops)
  {
    forall j | 0 <= j < |sends| ensures Adds(worlds[j], sends[j], ops[j], worlds[j + 1]) {
      WorldsReachable(worlds, sends, ops, moves, j);
      CallAdds(worlds[j], sends[j], ops[j], moves[j], worlds[j + 1]);
    }
  }

  lemma {:induction false} AddedInOrder(worlds: seq<C.World>, sends: seq<M.Step>, ops: seq<Option<nat>>, n: nat)
    requires AddsEach(worlds, sends, ops) && n <= |sends|
    ensures AllCarriedOut(worlds[n], sends, ops, n) && InOrder(ops, n, |worlds[n].writes|)
  {
    if n > 0 {
      AddedInOrder(worlds, sends, ops, n - 1);
      assert Adds(worlds[n - 1], sends[n - 1], ops[n - 1], worlds[n]);
      assert forall j :: 0 <= j < n - 1 ==> CarriedOut(worlds[n], sends[j], ops[j]);
    }
  }

  /** The whole request, seen from any moment after it: reachable, in order, and carried out. */
  lemma RequestCarried(worlds: seq<C.World>, sends: seq<M.Step>, ops: seq<Option<nat>>, moves: seq<seq<C.Step>>, later: seq<C.Step>, w: C.World)
    requires HandedOver(worlds, sends, ops, moves) && C.Run(worlds[|sends|], later) == Some(w)
    ensures C.Reachable(w) && InOrder(ops, |sends|, |w.writes|) && AllCarriedOut(w, sends, ops, |sends|)
  {
    var n := |sends|;
    CallsAdd(worlds, sends, ops, moves);
    AddedInOrder(worlds, sends, ops, n);
    WorldsReachable(worlds, sends, ops, moves, n);
    C.ReachableRun(worlds[n], later);
    assert |worlds[n].writes| <= |w.writes| by {
      C.ReachableInv(worlds[n]);
      WritesGrow(worlds[n], later);
    }
    forall j | 0 <= j < n ensures CarriedOut(w, sends[j], ops[j]) {
      CarriedStays(worlds[n], later, sends[j], ops[j]);
    }
  }

  // ----- What an exchange's evidence means for the system -----------------------------------------

  /** The system call was made with the report of this write. */
  predicate ReachedSystem(w: C.World, st: N.State, op: Option<nat>, k: nat) {
    op.Some? && P.Carries(w.log, op.value, k) && N.WasSet(st.native, k)
  }

  /**
   A failed exchange that is neither a device error nor ambiguous left nothing behind: the system call is
   never made with any report of its request, at any moment after the exchange.
   */
  lemma UnambiguousMeansUntouched(worlds: seq<C.World>, packets: seq<F.Packet>, sends: seq<M.Step>, ops: seq<Option<nat>>, moves: seq<seq<C.Step>>,
                                  p: S.Progress, cause: M.Error, later: seq<C.Step>, w: C.World, st: N.State)
    requires HandedOver(worlds, sends, ops, moves) && C.Run(worlds[|sends|], later) == Some(w)
    requires N.Reachable(st) && st.log == P.WriterView(w.log).0
    requires S.SendsOf(packets, sends) && S.Evidence(p, cause, packets, sends) && !cause.DeviceError? && !p.ambiguous
    ensures forall j, k :: 0 <= j < |sends| ==> !ReachedSystem(w, st, ops[j], k)
  {
    RequestCarried(worlds, sends, ops, moves, later, w);
    forall j, k | 0 <= j < |sends| ensures !ReachedSystem(w, st, ops[j], k) {
      assert sends[j] in sends && sends[j].outcome == NotSubmitted && CarriedOut(w, sends[j], ops[j]);
      if ops[j].Some? {
        P.OutcomesReachTheSystem(w, st, ops[j].value);
      }
    }
  }

  lemma SetOnce(w: C.World, st: N.State, s: M.Step, op: Option<nat>) returns (k: nat)
    requires C.Reachable(w) && N.Reachable(st) && st.log == P.WriterView(w.log).0 && CarriedOut(w, s, op) && S.Delivered(s)
    ensures op.Some? && P.Carries(w.log, op.value, k) && N.SetReport(k, true) in st.native
  {
    P.OutcomesReachTheSystem(w, st, op.value);
    k :| P.Carries(w.log, op.value, k) && N.SetReport(k, true) in st.native;
  }

  /**
   An exchange that got as far as reading its response, and every exchange that returned one, had all reports
   of its request accepted by the system, in order, each by a call of its own.
   */
  lemma DeliveredMeansSet(worlds: seq<C.World>, packets: seq<F.Packet>, sends: seq<M.Step>, ops: seq<Option<nat>>, moves: seq<seq<C.Step>>,
                          later: seq<C.Step>, w: C.World, st: N.State) returns (calls: seq<nat>)
    requires HandedOver(worlds, sends, ops, moves) && C.Run(worlds[|sends|], later) == Some(w)
    requires N.Reachable(st) && st.log == P.WriterView(w.log).0
    requires S.SendsOf(packets, sends) && |sends| == |packets| && S.AllDelivered(sends)
    ensures |calls| == |packets| && P.Increasing(calls)
    ensures forall j :: 0 <= j < |packets| ==> SetBy(w, st, packets[j], ops[j], calls[j])
  {
    RequestCarried(worlds, sends, ops, moves, later, w);
    calls := SetAll(packets, sends, ops, w, st);
    P.WritesBeginInOrder(w);
    forall i, j | 0 <= i < j < |calls| ensures calls[i] < calls[j] {
      assert SetBy(w, st, packets[i], ops[i], calls[i]) && SetBy(w, st, packets[j], ops[j], calls[j]);
    }
  }

  /** The system call succeeded with this report, in the writer's call k for this write. */
  ghost predicate SetBy(w: C.World, st: N.State, packet: F.Packet, op: Option<nat>, k: nat) {
    && op.Some? && op.value < |w.writes| && w.writes[op.value].report.data == packet
    && P.Carries(w.log, op.value, k) && N.SetReport(k, true) in st.native
  }

  lemma SetAll(packets: seq<F.Packet>, sends: seq<M.Step>, ops: seq<Option<nat>>, w: C.World, st: N.State) returns (calls: seq<nat>)
    requires C.Reachable(w) && N.Reachable(st) && st.log == P.WriterView(w.log).0
    requires S.SendsOf(packets, sends) && |sends| == |packets| == |ops| && S.AllDelivered(sends) && AllCarriedOut(w, sends, ops, |sends|)
    ensures |calls| == |packets| && forall j :: 0 <= j < |packets| ==> SetBy(w, st, packets[j], ops[j], calls[j])
  {
    calls := [];
    for n := 0 to |packets|
      invariant |calls| == n && forall j :: 0 <= j < n ==> SetBy(w, st, packets[j], ops[j], calls[j])
    {
      assert S.Delivered(sends[n]) && CarriedOut(w, sends[n], ops[n]);
      var k := SetOnce(w, st, sends[n], ops[n]);
      calls := calls + [k];
    }
  }
}
