/**
 A session with many concurrent callers: they come, wait for the exchange mutex, are cancelled and leave in
 any order, and anyone may close the session at any moment, also in the middle of another caller's
 transaction (a `Shut` in that call's script). Request and response still belong together.
 */
module SessionQueue {
  import opened Values
  import Q = ExchangeQueue
  import M = MessageReader
  import O = SessionOutcome
  import S = Session

  /** What may happen next: a step of the mutex, or a Close that does not wait for it. */
  datatype Move = Queue(step: Q.Step) | CloseNow

  /** The move can be made: a step is possible, and there are no more callers than calls. */
  predicate Possible(st: Q.State, n: nat, move: Move) {
    move.Queue? ==> Q.Enabled(st, move.step) && (move.step.Come? ==> |st.callers| < n)
  }

  /** The caller whose transaction the move starts. */
  function Starting(st: Q.State, move: Move): Option<nat> {
    if move.Queue? && move.step.Recheck? && Q.Enabled(st, move.step) && !st.callers[move.step.i].canceled then Some(move.step.i) else None
  }

  /** The call a performed entry stands for: that of a caller, or a Close. */
  function CallOf(calls: seq<O.Call>, who: Option<nat>): O.Call {
    if who.Some? && who.value < |calls| then calls[who.value] else O.Close
  }

  function CallsOf(calls: seq<O.Call>, who: seq<Option<nat>>): seq<O.Call> {
    seq(|who|, k requires 0 <= k < |who| => CallOf(calls, who[k]))
  }

  /** The callers among the performed entries. */
  function Callers(who: seq<Option<nat>>): seq<nat> {
    if who == [] then []
    else
      var last := who[|who| - 1];
      Callers(who[..|who| - 1]) + (if last.Some? then [last.value] else [])
  }

  lemma PerformedSnoc(calls: seq<O.Call>, who: seq<Option<nat>>, one: Option<nat>)
    ensures CallsOf(calls, who + [one]) == CallsOf(calls, who) + [CallOf(calls, one)]
    ensures Callers(who + [one]) == Callers(who) + (if one.Some? then [one.value] else [])
  {
    assert (who + [one])[..|who|] == who;
  }

  /** What a move adds to the transactions started. */
  lemma MoveEnters(st: Q.State, n: nat, move: Move)
    requires Q.Reachable(st) && |st.callers| <= n && Possible(st, n, move) && move.Queue?
    ensures var st' := Q.Apply(st, move.step);
            && Q.Reachable(st') && |st'.callers| <= n
            && Q.Entered(st'.trace) == Q.Entered(st.trace) + (match Starting(st, move) case Some(i) => [i] case None => [])
    ensures Starting(st, move).Some? ==> Starting(st, move).value < n
  {
    Q.ReachableStep(st, move.step);
    var st' := Q.Apply(st, move.step);
    if st'.trace != st.trace {
      assert st'.trace[..|st.trace|] == st.trace;
    }
  }

  /**
   Since the session stood at `face` and its log was `start` it has performed these entries: each ended as its
   script says, and every response is paired with the request of its own call.
   */
  ghost predicate Performed(session: S.HidSession, turns: (O.Face, O.Call) -> (O.Face, O.Ending), face: O.Face, start: seq<M.Step>,
                            calls: seq<O.Call>, who: seq<Option<nat>>,
                            results: seq<S.ExchangeResult>, tickets: seq<(U32, nat)>, marks: seq<nat>)
    reads session
  {
    session.Ran(CallsOf(calls, who), results, tickets, marks, turns, face, start)
  }

  /** The entries are the transactions of the mutex, each of a caller with a call. */
  ghost predicate Scheduled(st: Q.State, n: nat, who: seq<Option<nat>>) {
    && Q.Reachable(st) && |st.callers| <= n && Callers(who) == Q.Entered(st.trace)
    && forall k :: 0 <= k < |who| && who[k].Some? ==> who[k].value < n
  }

  lemma ScheduledNext(st: Q.State, n: nat, who: seq<Option<nat>>, move: Move)
    requires Scheduled(st, n, who) && Possible(st, n, move)
    ensures var st', one := if move.Queue? then Q.Apply(st, move.step) else st, Starting(st, move);
            Scheduled(st', n, if one.Some? || move.CloseNow? then who + [one] else who)
  {
    var one := Starting(st, move);
    if move.Queue? {
      MoveEnters(st, n, move);
    }
    PerformedSnoc([], who, one);
  }

  method PerformEntry(session: S.HidSession, calls: seq<O.Call>, one: Option<nat>, ghost turns: (O.Face, O.Call) -> (O.Face, O.Ending),
                      ghost face: O.Face, ghost start: seq<M.Step>, ghost who: seq<Option<nat>>,
                      ghost results: seq<S.ExchangeResult>, ghost tickets: seq<(U32, nat)>, ghost marks: seq<nat>)
    returns (r: S.ExchangeResult, ghost ticket: (U32, nat))
    requires forall f, call {:trigger O.CallEnding(session.inputId, f, call)} :: O.CallEnding(session.inputId, f, call) == turns(f, call)
    requires Performed(session, turns, face, start, calls, who, results, tickets, marks)
    modifies session
    ensures Performed(session, turns, face, start, calls, who + [one], results + [r], tickets + [ticket], marks + [|session.log|])
  {
    PerformedSnoc(calls, who, one);
    r, ticket := session.PerformTurn(CallOf(calls, one), CallsOf(calls, who), results, tickets, marks, turns, face, start);
  }

  /**
   Any schedule of callers and closes. The performed entries are exactly the transactions of the mutex, in
   their order and each caller's at most once, and the closes; every response among them answers the request
   of that very caller.
   */
  method RunConcurrently(session: S.HidSession, calls: seq<O.Call>, moves: seq<Move>)
    returns (st: Q.State, who: seq<Option<nat>>, results: seq<S.ExchangeResult>, ghost tickets: seq<(U32, nat)>, ghost marks: seq<nat>)
    requires session.Valid()
    modifies session
    ensures Performed(session, O.Turns(session.inputId), old(O.Face(session.channelID, session.closing)), old(session.log),
                      calls, who, results, tickets, marks)
    ensures Scheduled(st, |calls|, who) && Q.Distinct(Callers(who))
  {
    ghost var turns, face, start := O.Turns(session.inputId), O.Face(session.channelID, session.closing), session.log;
    st, who, results, tickets, marks := Q.State(false, [], []), [], [], [], [|session.log|];
    assert Q.Run(st, []) == Some(st);
    for m := 0 to |moves|
      invariant Performed(session, turns, face, start, calls, who, results, tickets, marks) && Scheduled(st, |calls|, who)
    {
      var move := moves[m];
      if Possible(st, |calls|, move) {
        var one := Starting(st, move);
        ScheduledNext(st, |calls|, who, move);
        if move.Queue? {
          st := Q.Apply(st, move.step);
        }
        if one.Some? || move.CloseNow? {
          ghost var held := marks;
          var r, ticket := PerformEntry(session, calls, one, turns, face, start, who, results, tickets, held);
          who, results, tickets, marks := who + [one], results + [r], tickets + [ticket], held + [|session.log|];
        }
      }
    }
    Q.EntersOnce(st);
  }
}
