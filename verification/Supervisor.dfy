/**
 The critical sections of a HID connection (pkg/hid/connection.go, read.go, write.go), each
 as a function of the state the connection's mutex protects.
 */
module Sections {
  import opened Values

  const QUEUE_SIZE := 64

  datatype Report = Report(id: Byte, data: seq<Byte>)

  datatype ReportSpec = ReportSpec(id: Byte, size: nat) {
    predicate Fits(r: Report) {
      r.id == id && |r.data| == size
    }
  }

  datatype Err =
    | Canceled
    | Native
    | InvalidReport
    | IO
    | Closed(reason: Option<Err>)
    | Busy
    | Timeout

  /** The fields under the mutex. The input queue is its contents, oldest first. */
  datatype Shared = Shared(
    retiring: bool,
    reason: Option<Err>,
    readBusy: bool,
    writeBusy: bool,
    queue: seq<Report>,
    ready: bool,              // the capacity-one wakeup token
    workers: nat)             // the wait group

  function Initial(): Shared {
    Shared(false, None, false, false, [], false, 1)
  }

  /** retireLocked: revoke admission and drop queued input, once. */
  function Retire(s: Shared, reason: Option<Err>): Shared {
    if s.retiring then s else s.(retiring := true, reason := reason, queue := [])
  }

  // ----- The input pump -----

  datatype NativeRead = ReadTimeout | ReadFailure | ReadReport(report: Report)

  /** What the pump does with the result of a native read, and whether it goes on. */
  function Deliver(s: Shared, input: ReportSpec, r: NativeRead): (Shared, bool) {
    match r
    case ReadTimeout => (s, true)
    case ReadFailure => (Retire(s, Some(Native)), false)
    case ReadReport(report) =>
      if s.retiring then (s, false)
      else if !input.Fits(report) then (Retire(s, Some(InvalidReport)), false)
      else if |s.queue| == QUEUE_SIZE then (Retire(s, Some(IO)), false)
      else (s.(queue := s.queue + [report], ready := true), true)
  }

  // ----- Read -----

  datatype Wake = NotWoken | ContextWake | TimerWake

  datatype Poll = Park | Take(report: Report) | Fail(error: Err)

  function AdmitRead(s: Shared, canceled: bool): (Shared, Option<Err>) {
    if canceled then (s, Some(Canceled))
    else if s.retiring then (s, Some(Closed(s.reason)))
    else if s.readBusy then (s, Some(Busy))
    else (s.(readBusy := true), None)
  }

  /** One round of the read loop: cancellation wins over queued input, which wins over a timeout. */
  function PollRead(s: Shared, canceled: bool, wake: Wake): (Shared, Poll) {
    if canceled then (Retire(s, Some(Canceled)), Fail(Canceled))
    else if s.retiring then (s, Fail(Closed(s.reason)))
    else if s.queue != [] then (s.(queue := s.queue[1..]), Take(s.queue[0]))
    else
      match wake
      case NotWoken => (s, Park)
      case TimerWake => (s, Fail(Timeout))
      case ContextWake => (Retire(s, Some(Canceled)), Fail(Canceled))
  }

  // ----- Write -----

  /** The record a write call shares with its worker. */
  datatype Pending = Pending(submitted: bool, completed: bool, result: Outcome, err: Option<Err>)

  function NewPending(): Pending {
    Pending(false, false, Unknown, None)
  }

  /** What the driver answers: a raw outcome code and whether it reports an error. */
  datatype NativeWrite = NativeWrite(code: Byte, failed: bool)

  /** The outcome codes of the driver: 0 unknown, 1 not submitted, 2 completed; anything else is unknown. */
  function Interpret(raw: NativeWrite): Outcome {
    if raw.code == 1 then NotSubmitted else if raw.code == 2 then Completed else Unknown
  }

  function AdmitWrite(s: Shared, canceled: bool): (Shared, Option<Err>) {
    if canceled then (s, Some(Canceled))
    else if s.retiring then (s, Some(Closed(s.reason)))
    else if s.writeBusy then (s, Some(Busy))
    else (s.(writeBusy := true, workers := s.workers + 1), None)
  }

  /** The worker's submission: the last moment at which retirement can keep the report from the driver. */
  function Submit(s: Shared, p: Pending, canceled: bool): (Shared, Pending, bool) {
    var s' := if canceled then Retire(s, Some(Canceled)) else s;
    if s'.retiring then (s', Pending(p.submitted, true, NotSubmitted, Some(Closed(s'.reason))), false)
    else (s', p.(submitted := true), true)
  }

  /** The worker publishes what the driver answered. */
  function Complete(s: Shared, p: Pending, raw: NativeWrite): (Shared, Pending) {
    var result := Interpret(raw);
    var err := if raw.failed then Some(Native) else if raw.code > 2 || result != Completed then Some(IO) else None;
    var s' := if err.Some? then Retire(s, err) else s;
    (s', Pending(p.submitted, true, result, err))
  }

  /** What the write call returns once it is awake. */
  function Decide(s: Shared, p: Pending, canceled: bool): (Shared, Outcome, Option<Err>) {
    if p.completed then
      if canceled then (Retire(s, Some(Canceled)), p.result, Some(Canceled))
      else (s, p.result, p.err)
    else if canceled then
      (Retire(s, Some(Canceled)), if p.submitted then Unknown else NotSubmitted, Some(Canceled))
    else (s, Unknown, Some(Closed(s.reason)))
  }
}

/** The connection object: the same critical sections on a circular buffer. */
module Supervisor {
  import opened Values
  import opened Sections

  class PendingWrite {
    var submitted: bool
    var completed: bool
    var result: Outcome
    var err: Option<Err>

    ghost function View(): Pending
      reads this
    {
      Pending(submitted, completed, result, err)
    }

    constructor ()
      ensures View() == NewPending()
    {
      submitted, completed, result, err := false, false, Unknown, None;
    }
  }

  /** The contents of a circular buffer, oldest first. */
  function RingContents(slots: seq<Report>, head: nat, count: nat): (q: seq<Report>)
    requires |slots| == QUEUE_SIZE && head < QUEUE_SIZE && count <= QUEUE_SIZE
    ensures |q| == count
  {
    seq(count, i requires 0 <= i < count => slots[(head + i) % QUEUE_SIZE])
  }

  /** Writing past the last element appends to the contents. */
  lemma RingPush(slots: seq<Report>, head: nat, count: nat, r: Report)
    requires |slots| == QUEUE_SIZE && head < QUEUE_SIZE && count < QUEUE_SIZE
    ensures RingContents(slots[(head + count) % QUEUE_SIZE := r], head, count + 1) == RingContents(slots, head, count) + [r]
  {
    var slots' := slots[(head + count) % QUEUE_SIZE := r];
    forall i | 0 <= i < count
      ensures RingContents(slots', head, count + 1)[i] == RingContents(slots, head, count)[i]
    {
      assert (head + i) % QUEUE_SIZE != (head + count) % QUEUE_SIZE;
    }
  }

  lemma NextSlot(head: nat, i: nat)
    requires head < QUEUE_SIZE && i < QUEUE_SIZE
    ensures ((head + 1) % QUEUE_SIZE + i) % QUEUE_SIZE == (head + (i + 1)) % QUEUE_SIZE
    ensures i + 1 < QUEUE_SIZE ==> (head + (i + 1)) % QUEUE_SIZE != head
  {
    if head + 1 < QUEUE_SIZE {
      assert (head + 1) % QUEUE_SIZE == head + 1;
    } else {
      assert (head + 1) % QUEUE_SIZE == 0;
    }
  }

  /** Moving the head removes the oldest element, whatever is left in its slot. */
  lemma RingPop(slots: seq<Report>, head: nat, count: nat, blank: Report)
    requires |slots| == QUEUE_SIZE && head < QUEUE_SIZE && 0 < count <= QUEUE_SIZE
    ensures RingContents(slots, head, count)[0] == slots[head]
    ensures RingContents(slots[head := blank], (head + 1) % QUEUE_SIZE, count - 1) == RingContents(slots, head, count)[1..]
  {
    var popped := RingContents(slots[head := blank], (head + 1) % QUEUE_SIZE, count - 1);
    forall i | 0 <= i < count - 1
      ensures popped[i] == RingContents(slots, head, count)[1..][i]
    {
      NextSlot(head, i);
    }
  }

  class Connection {
    const input: ReportSpec
    const output: ReportSpec
    var retiring: bool
    var reason: Option<Err>
    var readBusy: bool
    var writeBusy: bool
    const slots: array<Report>
    var head: nat
    var count: nat
    var ready: bool
    var workers: nat

    const blank := Report(0, [])

    ghost predicate Valid()
      reads this
    {
      slots.Length == QUEUE_SIZE && head < QUEUE_SIZE && count <= QUEUE_SIZE
    }

    ghost function View(): Shared
      requires Valid()
      reads this, slots
    {
      Shared(retiring, reason, readBusy, writeBusy, RingContents(slots[..], head, count), ready, workers)
    }

    constructor (input: ReportSpec, output: ReportSpec)
      ensures Valid() && fresh(slots) && this.input == input && this.output == output && View() == Initial()
    {
      this.input, this.output := input, output;
      slots := new Report[QUEUE_SIZE](_ => Report(0, []));
      retiring, reason, readBusy, writeBusy, head, count, ready, workers := false, None, false, false, 0, 0, false, 1;
    }

    /** Returns whether this call is the one that starts the cleanup. */
    method RetireLocked(why: Option<Err>) returns (cleanup: bool)
      requires Valid()
      modifies this`retiring, this`reason, this`count, slots
      ensures Valid() && View() == Retire(old(View()), why)
      ensures cleanup <==> !old(retiring)
    {
      if retiring {
        return false;
      }
      retiring, reason := true, why;
      forall i | 0 <= i < slots.Length {
        slots[i] := blank;
      }
      count := 0;
      cleanup := true;
    }

    method PumpDeliver(r: NativeRead) returns (goOn: bool)
      requires Valid()
      modifies this, slots
      ensures Valid() && (View(), goOn) == Deliver(old(View()), input, r)
    {
      if r.ReadTimeout? {
        return true;
      }
      if r.ReadFailure? {
        var _ := RetireLocked(Some(Native));
        return false;
      }
      if retiring {
        return false;
      }
      if !input.Fits(r.report) {
        var _ := RetireLocked(Some(InvalidReport));
        return false;
      }
      if count == QUEUE_SIZE {
        var _ := RetireLocked(Some(IO));
        return false;
      }
      ghost var before := slots[..];
      slots[(head + count) % QUEUE_SIZE] := r.report;
      RingPush(before, head, count, r.report);
      assert slots[..] == before[(head + count) % QUEUE_SIZE := r.report];
      count := count + 1;
      ready := true;
      goOn := true;
    }

    method ReadAdmit(canceled: bool) returns (err: Option<Err>)
      requires Valid()
      modifies this`readBusy
      ensures Valid() && (View(), err) == AdmitRead(old(View()), canceled)
    {
      if canceled {
        return Some(Canceled);
      }
      if retiring {
        return Some(Closed(reason));
      }
      if readBusy {
        return Some(Busy);
      }
      readBusy := true;
      err := None;
    }

    method ReadPoll(canceled: bool, wake: Wake) returns (poll: Poll)
      requires Valid()
      modifies this, slots
      ensures Valid() && (View(), poll) == PollRead(old(View()), canceled, wake)
    {
      if canceled {
        var _ := RetireLocked(Some(Canceled));
        return Fail(Canceled);
      }
      if retiring {
        return Fail(Closed(reason));
      }
      if count > 0 {
        var report := slots[head];
        ghost var before := slots[..];
        slots[head] := blank;
        RingPop(before, head, count, blank);
        assert slots[..] == before[head := blank];
        head := (head + 1) % QUEUE_SIZE;
        count := count - 1;
        return Take(report);
      }
      assert View().queue == [];
      if wake != NotWoken {
        if wake != TimerWake {
          var _ := RetireLocked(Some(Canceled));
        }
        return Fail(if wake == TimerWake then Timeout else Canceled);
      }
      poll := Park;
    }

    method WriteAdmit(canceled: bool) returns (err: Option<Err>)
      requires Valid()
      modifies this`writeBusy, this`workers
      ensures Valid() && (View(), err) == AdmitWrite(old(View()), canceled)
    {
      if canceled {
        return Some(Canceled);
      }
      if retiring {
        return Some(Closed(reason));
      }
      if writeBusy {
        return Some(Busy);
      }
      writeBusy := true;
      workers := workers + 1;
      err := None;
    }

    method WorkerSubmit(p: PendingWrite, canceled: bool) returns (go: bool)
      requires Valid()
      modifies this`retiring, this`reason, this`count, slots, p
      ensures Valid() && (View(), p.View(), go) == Submit(old(View()), old(p.View()), canceled)
    {
      if canceled {
        var _ := RetireLocked(Some(Canceled));
      }
      if retiring {
        p.result, p.err, p.completed := NotSubmitted, Some(Closed(reason)), true;
        return false;
      }
      p.submitted := true;
      go := true;
    }

    method WorkerComplete(p: PendingWrite, raw: NativeWrite)
      requires Valid()
      modifies this`retiring, this`reason, this`count, slots, p
      ensures Valid() && (View(), p.View()) == Complete(old(View()), old(p.View()), raw)
    {
      var result := if raw.code == 1 then NotSubmitted else if raw.code == 2 then Completed else Unknown;
      var err := if raw.failed then Some(Native) else None;
      if raw.code > 2 {
        result := Unknown;
        if err == None {
          err := Some(IO);
        }
      }
      if err == None && result != Completed {
        err := Some(IO);
      }
      p.result, p.err, p.completed := result, err, true;
      if err.Some? {
        var _ := RetireLocked(err);
      }
    }

    method WriteDecide(p: PendingWrite, canceled: bool) returns (outcome: Outcome, err: Option<Err>)
      requires Valid()
      modifies this`retiring, this`reason, this`count, slots
      ensures Valid() && (View(), outcome, err) == Decide(old(View()), p.View(), canceled)
    {
      if p.completed {
        if canceled {
          var _ := RetireLocked(Some(Canceled));
          return p.result, Some(Canceled);
        }
        return p.result, p.err;
      }
      if canceled {
        var _ := RetireLocked(Some(Canceled));
        return if p.submitted then Unknown else NotSubmitted, Some(Canceled);
      }
      return Unknown, Some(Closed(reason));
    }
  }
}
