/**
 The exchange mutex (pkg/transport/usb/hid_exchange.go): a one-slot channel that callers wait for with their
 own contexts. Any number of callers come, wait, are cancelled and leave in any order; their transactions
 follow one another as if the callers had come one by one.
 */
module ExchangeQueue {
  import opened Values

  /** Where a caller is: before its first check, waiting for the slot, holding it unchecked, inside, or gone. */
  datatype Place = Arriving | Queued | Holding | Inside | Refused | Left

  datatype Caller = Caller(at: Place, canceled: bool)

  datatype Mark = Enter(caller: nat) | Leave(caller: nat)

  datatype State = State(busy: bool, callers: seq<Caller>, trace: seq<Mark>)

  datatype Step = Come | Cancel(i: nat) | Check(i: nat) | Take(i: nat) | GiveUp(i: nat) | Recheck(i: nat) | Finish(i: nat)

  predicate Enabled(st: State, step: Step) {
    if step.Come? then true
    else
      && step.i < |st.callers|
      && var c := st.callers[step.i];
         match step
         case Check(_) => c.at == Arriving
         case Take(_) => c.at == Queued && !st.busy
         case GiveUp(_) => c.at == Queued && c.canceled
         case Recheck(_) => c.at == Holding
         case Finish(_) => c.at == Inside
         case _ => true
  }

  function Moved(st: State, i: nat, at: Place): State
    requires i < |st.callers|
  {
    st.(callers := st.callers[i := st.callers[i].(at := at)])
  }

  function Apply(st: State, step: Step): State
    requires Enabled(st, step)
  {
    match step
    case Come => st.(callers := st.callers + [Caller(Arriving, false)])
    case Cancel(i) => st.(callers := st.callers[i := st.callers[i].(canceled := true)])
    case Check(i) => Moved(st, i, if st.callers[i].canceled then Refused else Queued)
    case Take(i) => Moved(st, i, Holding).(busy := true)
    case GiveUp(i) => Moved(st, i, Refused)
    case Recheck(i) =>
      if st.callers[i].canceled then Moved(st, i, Refused).(busy := false)
      else Moved(st, i, Inside).(trace := st.trace + [Enter(i)])
    case Finish(i) => Moved(st, i, Left).(busy := false, trace := st.trace + [Leave(i)])
  }

  function Run(st: State, steps: seq<Step>): Option<State>
    decreases |steps|
  {
    if steps == [] then Some(st)
    else if !Enabled(st, steps[0]) then None
    else Run(Apply(st, steps[0]), steps[1..])
  }

  ghost predicate Reachable(st: State) {
    exists steps :: Run(State(false, [], []), steps) == Some(st)
  }

  /** The transactions of the trace do not overlap; `open` is the one that has not ended. */
  predicate Sequential(trace: seq<Mark>, open: Option<nat>) {
    if trace == [] then open == None
    else
      var init, last := trace[..|trace| - 1], trace[|trace| - 1];
      match last
      case Enter(i) => open == Some(i) && Sequential(init, None)
      case Leave(i) => open == None && Sequential(init, Some(i))
  }

  predicate HasSlot(c: Caller) {
    c.at == Holding || c.at == Inside
  }

  /** The slot is busy exactly for one caller, and the open transaction is that of the caller inside. */
  predicate InvFor(st: State, holder: Option<nat>) {
    && (st.busy <==> holder.Some?)
    && (forall i :: 0 <= i < |st.callers| ==> (HasSlot(st.callers[i]) <==> holder == Some(i)))
    && (holder.Some? ==> holder.value < |st.callers|)
    && Sequential(st.trace, if holder.Some? && st.callers[holder.value].at == Inside then holder else None)
    && (forall i :: 0 <= i < |st.callers| && (st.callers[i].at != Inside && st.callers[i].at != Left) ==> Enter(i) !in st.trace)
    && (forall m :: m in st.trace ==> m.caller < |st.callers|)
  }

  lemma SequentialGrows(trace: seq<Mark>, m: Mark)
    ensures Sequential(trace + [m], match m case Enter(i) => Some(i) case Leave(_) => None) <==>
            Sequential(trace, match m case Enter(_) => None case Leave(i) => Some(i))
  {
    assert (trace + [m])[..|trace|] == trace;
  }

  lemma EntersKeeps(st: State, holder: Option<nat>, i: nat)
    requires InvFor(st, holder) && Enabled(st, Recheck(i)) && !st.callers[i].canceled
    ensures InvFor(Apply(st, Recheck(i)), holder)
  {
    assert HasSlot(st.callers[i]);
    SequentialGrows(st.trace, Enter(i));
  }

  lemma LeavesKeeps(st: State, holder: Option<nat>, i: nat)
    requires InvFor(st, holder) && Enabled(st, Finish(i))
    ensures InvFor(Apply(st, Finish(i)), None)
  {
    assert HasSlot(st.callers[i]);
    SequentialGrows(st.trace, Leave(i));
  }

  lemma SlotMoves(st: State, holder: Option<nat>, step: Step, holder': Option<nat>)
    requires InvFor(st, holder) && Enabled(st, step)
    requires (step.Take? && holder' == Some(step.i)) || (step.Recheck? && st.callers[step.i].canceled && holder' == None)
    ensures InvFor(Apply(st, step), holder')
  {
    assert step.Recheck? ==> HasSlot(st.callers[step.i]);
  }

  /** Coming, being cancelled and giving up leave the slot and the transactions alone. */
  lemma WaitersKeep(st: State, holder: Option<nat>, step: Step)
    requires InvFor(st, holder) && Enabled(st, step) && (step.Come? || step.Cancel? || step.Check? || step.GiveUp?)
    ensures InvFor(Apply(st, step), holder)
  {
    assert Apply(st, step).trace == st.trace && Apply(st, step).busy == st.busy;
  }

  lemma StepKeeps(st: State, holder: Option<nat>, step: Step) returns (holder': Option<nat>)
    requires InvFor(st, holder) && Enabled(st, step)
    ensures InvFor(Apply(st, step), holder')
  {
    match step {
      case Take(i) =>
        holder' := Some(i);
        SlotMoves(st, holder, step, holder');
      case Recheck(i) =>
        if st.callers[i].canceled {
          holder' := None;
          SlotMoves(st, holder, step, holder');
        } else {
          holder' := holder;
          EntersKeeps(st, holder, i);
        }
      case Finish(i) =>
        holder' := None;
        LeavesKeeps(st, holder, i);
      case _ =>
        holder' := holder;
        WaitersKeep(st, holder, step);
    }
  }

  lemma {:induction false} RunKeeps(st: State, holder: Option<nat>, steps: seq<Step>) returns (holder': Option<nat>)
    requires InvFor(st, holder) && Run(st, steps).Some?
    ensures InvFor(Run(st, steps).value, holder')
    decreases |steps|
  {
    if steps == [] {
      holder' := holder;
    } else {
      var next := StepKeeps(st, holder, steps[0]);
      holder' := RunKeeps(Apply(st, steps[0]), next, steps[1..]);
    }
  }

  /** In every run at most one caller has the slot, and the transactions so far happened one after another. */
  lemma TransactionsAreSequential(st: State)
    requires Reachable(st)
    ensures forall i, j :: 0 <= i < j < |st.callers| ==> !(HasSlot(st.callers[i]) && HasSlot(st.callers[j]))
    ensures exists open :: Sequential(st.trace, open)
    ensures forall i :: 0 <= i < |st.callers| && st.callers[i].at == Refused ==> Enter(i) !in st.trace
  {
    var steps :| Run(State(false, [], []), steps) == Some(st);
    var holder := RunKeeps(State(false, [], []), None, steps);
  }

  /** A waiting caller can always go on: it takes a free slot, or the caller that has the slot can move. */
  lemma WaitersCanGoOn(st: State, i: nat)
    requires Reachable(st) && i < |st.callers| && st.callers[i].at == Queued
    ensures Enabled(st, Take(i)) || exists j :: Enabled(st, Recheck(j)) || Enabled(st, Finish(j))
  {
    var steps :| Run(State(false, [], []), steps) == Some(st);
    var holder := RunKeeps(State(false, [], []), None, steps);
    if st.busy {
      assert HasSlot(st.callers[holder.value]);
      assert Enabled(st, Recheck(holder.value)) || Enabled(st, Finish(holder.value));
    }
  }

  /** The callers that started a transaction, in order. */
  function Entered(trace: seq<Mark>): seq<nat> {
    if trace == [] then []
    else
      var last := trace[|trace| - 1];
      Entered(trace[..|trace| - 1]) + (if last.Enter? then [last.caller] else [])
  }

  predicate Distinct(callers: seq<nat>) {
    forall i, j :: 0 <= i < j < |callers| ==> callers[i] != callers[j]
  }

  lemma {:induction false} EnteredIn(trace: seq<Mark>)
    ensures forall i :: i in Entered(trace) <==> Enter(i) in trace
  {
    if trace != [] {
      var init, last := trace[..|trace| - 1], trace[|trace| - 1];
      assert trace == init + [last];
      EnteredIn(init);
    }
  }

  lemma EntersOnceStep(st: State, holder: Option<nat>, step: Step)
    requires InvFor(st, holder) && Enabled(st, step) && Distinct(Entered(st.trace))
    ensures Distinct(Entered(Apply(st, step).trace))
  {
    var st' := Apply(st, step);
    if st'.trace != st.trace {
      assert st'.trace[..|st.trace|] == st.trace;
      EnteredIn(st.trace);
    }
  }

  lemma {:induction false} EntersOnceRun(st: State, holder: Option<nat>, steps: seq<Step>)
    requires InvFor(st, holder) && Run(st, steps).Some? && Distinct(Entered(st.trace))
    ensures Distinct(Entered(Run(st, steps).value.trace))
    decreases |steps|
  {
    if steps != [] {
      EntersOnceStep(st, holder, steps[0]);
      var next := StepKeeps(st, holder, steps[0]);
      EntersOnceRun(Apply(st, steps[0]), next, steps[1..]);
    }
  }

  /** No caller starts two transactions. */
  lemma EntersOnce(st: State)
    requires Reachable(st)
    ensures Distinct(Entered(st.trace))
  {
    var steps :| Run(State(false, [], []), steps) == Some(st);
    EntersOnceRun(State(false, [], []), None, steps);
  }

  lemma {:induction false} RunAppend(st: State, xs: seq<Step>, ys: seq<Step>)
    requires Run(st, xs).Some?
    ensures Run(st, xs + ys) == Run(Run(st, xs).value, ys)
    decreases |xs|
  {
    if xs == [] {
      assert xs + ys == ys;
    } else {
      assert (xs + ys)[0] == xs[0] && (xs + ys)[1..] == xs[1..] + ys;
      RunAppend(Apply(st, xs[0]), xs[1..], ys);
    }
  }

  lemma ReachableStep(st: State, step: Step)
    requires Reachable(st) && Enabled(st, step)
    ensures Reachable(Apply(st, step))
  {
    var steps :| Run(State(false, [], []), steps) == Some(st);
    RunAppend(State(false, [], []), steps, [step]);
    assert [step][1..] == [];
    assert Run(st, [step]) == Some(Apply(st, step));
  }

  /** How a wait for the slot ends: with the slot, perhaps after the context expired too, or by the context. */
  datatype Turn = SlotFree(expired: bool) | ContextFirst

  /** The steps the end of a wait stands for. */
  function TurnSteps(i: nat, turn: Turn): seq<Step> {
    match turn
    case SlotFree(expired) => if expired then [Take(i), Cancel(i), Recheck(i)] else [Take(i), Recheck(i)]
    case ContextFirst => [Cancel(i), GiveUp(i)]
  }

  /** The mutex: its slot, and the state of all its callers that it stands for. */
  class ExchangeMutex {
    var busy: bool
    ghost var st: State

    ghost predicate Valid()
      reads this
    {
      busy == st.busy && Reachable(st)
    }

    constructor ()
      ensures Valid() && st == State(false, [], [])
    {
      busy, st := false, State(false, [], []);
      assert Run(State(false, [], []), []) == Some(State(false, [], []));
    }

    /** The first test of lock. */
    method Check(i: nat, expired: bool) returns (queued: bool)
      requires Valid() && Enabled(st, Step.Check(i)) && expired == st.callers[i].canceled
      modifies this`st
      ensures Valid() && st == Apply(old(st), Step.Check(i))
      ensures queued == !expired && st.callers[i].at == (if queued then Queued else Refused)
    {
      ReachableStep(st, Step.Check(i));
      st := Apply(st, Step.Check(i));
      queued := !expired;
    }

    /** The select of lock and what follows it. */
    method Await(i: nat, turn: Turn) returns (entered: bool)
      requires Valid() && i < |st.callers| && st.callers[i].at == Queued
      requires turn.SlotFree? ==> !busy && (st.callers[i].canceled ==> turn.expired)
      modifies this
      ensures Valid() && Run(old(st), TurnSteps(i, turn)) == Some(st)
      ensures entered == (turn == SlotFree(false)) && i < |st.callers| && st.callers[i].at == (if entered then Inside else Refused)
      ensures busy == (entered || old(busy))
    {
      EndsWait(st, i, turn);
      if turn.ContextFirst? {
        st := Run(st, TurnSteps(i, turn)).value;
        return false;
      }
      busy := true;
      if turn.expired {
        busy := false;
      }
      st := Run(st, TurnSteps(i, turn)).value;
      entered := !turn.expired;
    }

    method Unlock(i: nat)
      requires Valid() && Enabled(st, Finish(i))
      modifies this
      ensures Valid() && st == Apply(old(st), Finish(i)) && !busy
    {
      ReachableStep(st, Finish(i));
      st := Apply(st, Finish(i));
      busy := false;
    }
  }

  /** The steps of a turn are possible, and leave the caller inside with the slot or refused without it. */
  lemma EndsWait(st: State, i: nat, turn: Turn)
    requires Reachable(st) && i < |st.callers| && st.callers[i].at == Queued
    requires turn.SlotFree? ==> !st.busy && (st.callers[i].canceled ==> turn.expired)
    ensures Run(st, TurnSteps(i, turn)).Some?
    ensures var st', entered := Run(st, TurnSteps(i, turn)).value, turn == SlotFree(false);
            && Reachable(st') && i < |st'.callers| && st'.busy == (entered || st.busy)
            && st'.callers[i].at == if entered then Inside else Refused
  {
    if turn.ContextFirst? {
      TwoSteps(st, Cancel(i), GiveUp(i));
    } else if !turn.expired {
      TwoSteps(st, Take(i), Recheck(i));
    } else {
      TwoSteps(st, Take(i), Cancel(i));
      var mid := Apply(Apply(st, Take(i)), Cancel(i));
      ReachableStep(mid, Recheck(i));
      assert Run(mid, [Recheck(i)]) == Run(Apply(mid, Recheck(i)), [Recheck(i)][1..]);
      RunAppend(st, [Take(i), Cancel(i)], [Recheck(i)]);
      assert [Take(i), Cancel(i)] + [Recheck(i)] == TurnSteps(i, turn);
    }
  }

  lemma TwoSteps(st: State, a: Step, b: Step)
    requires Reachable(st) && Enabled(st, a) && Enabled(Apply(st, a), b)
    ensures Run(st, [a, b]) == Some(Apply(Apply(st, a), b)) && Reachable(Apply(Apply(st, a), b))
  {
    ReachableStep(st, a);
    ReachableStep(Apply(st, a), b);
    assert [a, b][1..] == [b] && [b][1..] == [];
    assert Run(Apply(st, a), [b]) == Run(Apply(Apply(st, a), b), []);
  }
}
