/**
 The power-event reducer (internal/diagnostics/power/observer_darwin.c): a counter machine over 64-bit
 unsigned fields that is meant to recognise one sleep and wake cycle of the armed generation. The
 counters wrap here as they do there.
 */
module PowerReducer {
  const WORD := 0x1_0000_0000_0000_0000

  const CAN_SLEEP := 1
  const WILL_SLEEP := 2
  const POWERED_ON := 3
  const WILL_NOT_SLEEP := 4

  /** A notification as the reducer receives it; kinds other than the four named ones are possible. */
  datatype Event = Event(generation: Word, kind: int, ack: nat)

  datatype Snapshot = Snapshot(
    armGeneration: Word, willSleepGeneration: Word, poweredOnGeneration: Word,
    sleepSequence: Word, wakeSequence: Word, sequence: Word,
    canSleepEvents: Word, sleepEvents: Word, wakeEvents: Word, canceledEvents: Word,
    outOfOrderEvents: Word, extraCycleEvents: Word, staleEvents: Word, ackCount: Word, ackErrors: Word,
    nativeCode: nat, armed: bool, matched: bool, closed: bool)

  type Word = x: int | 0 <= x < WORD

  function Next(counter: Word): Word {
    if counter + 1 == WORD then 0 else counter + 1
  }

  /** The snapshot a successful arm leaves. */
  function Armed(g: Word): Snapshot {
    Snapshot(g, 0, 0, 0, 0, 0, 0, 0, 0, 0, 0, 0, 0, 0, 0, 0, true, false, false)
  }

  predicate Acknowledged(kind: int) {
    kind == CAN_SLEEP || kind == WILL_SLEEP
  }

  function Acked(s: Snapshot, e: Event): Snapshot {
    var t := s.(sequence := Next(s.sequence));
    if !Acknowledged(e.kind) then t
    else if e.ack == 0 then t.(ackCount := Next(s.ackCount))
    else t.(ackCount := Next(s.ackCount), ackErrors := Next(s.ackErrors), nativeCode := if s.nativeCode == 0 then e.ack else s.nativeCode)
  }

  function Counted(s: Snapshot, e: Event): Snapshot {
    if e.kind == CAN_SLEEP then
      var t := s.(canSleepEvents := Next(s.canSleepEvents));
      if t.canSleepEvents > 1 || s.sleepEvents != 0 || s.wakeEvents != 0 then t.(extraCycleEvents := Next(s.extraCycleEvents)) else t
    else if e.kind == WILL_SLEEP then
      var t := s.(sleepEvents := Next(s.sleepEvents));
      if t.sleepEvents == 1 && s.wakeEvents == 0 && s.canceledEvents == 0 then t.(willSleepGeneration := e.generation, sleepSequence := s.sequence)
      else t.(extraCycleEvents := Next(s.extraCycleEvents), outOfOrderEvents := Next(s.outOfOrderEvents))
    else if e.kind == POWERED_ON then
      var t := s.(wakeEvents := Next(s.wakeEvents));
      if t.wakeEvents == 1 && s.sleepEvents == 1 && s.sleepSequence != 0 && s.canceledEvents == 0 then
        t.(poweredOnGeneration := e.generation, wakeSequence := s.sequence)
      else t.(outOfOrderEvents := Next(s.outOfOrderEvents),
              extraCycleEvents := if t.wakeEvents > 1 then Next(s.extraCycleEvents) else s.extraCycleEvents)
    else if e.kind == WILL_NOT_SLEEP then s.(canceledEvents := Next(s.canceledEvents))
    else s.(outOfOrderEvents := Next(s.outOfOrderEvents))
  }

  predicate Matches(s: Snapshot) {
    && s.sleepEvents == 1 && s.wakeEvents == 1
    && s.willSleepGeneration == s.armGeneration && s.poweredOnGeneration == s.armGeneration
    && s.sleepSequence != 0 && s.wakeSequence > s.sleepSequence && s.canceledEvents == 0
    && s.outOfOrderEvents == 0 && s.extraCycleEvents == 0 && s.staleEvents == 0 && s.ackErrors == 0
  }

  function Reduced(s: Snapshot, e: Event): Snapshot {
    if !s.armed then s
    else if e.generation != s.armGeneration then s.(staleEvents := Next(s.staleEvents), matched := false)
    else
      var t := Counted(Acked(s, e), e);
      t.(matched := Matches(t))
  }

  function ReducedAll(s: Snapshot, events: seq<Event>): Snapshot {
    if events == [] then s else Reduced(ReducedAll(s, events[..|events| - 1]), events[|events| - 1])
  }

  /** What a waiter is told: 0, or the reason it is refused. */
  datatype Verdict = Accepted | InvalidGeneration | Canceled | ProtocolError | TimedOut

  function WaitVerdict(s: Snapshot, generation: Word, sleepOnly: bool): Verdict {
    if generation == 0 || s.armGeneration != generation then InvalidGeneration
    else if s.closed then Canceled
    else if s.nativeCode != 0 || s.outOfOrderEvents != 0 || s.extraCycleEvents != 0 || s.staleEvents != 0 || s.canceledEvents != 0 then ProtocolError
    else if (if sleepOnly then s.sleepEvents == 1 else s.matched) then Accepted
    else TimedOut
  }

  /** The snapshot as the object the callback updates. */
  class Observer {
    var armGeneration: Word
    var willSleepGeneration: Word
    var poweredOnGeneration: Word
    var sleepSequence: Word
    var wakeSequence: Word
    var sequence: Word
    var canSleepEvents: Word
    var sleepEvents: Word
    var wakeEvents: Word
    var canceledEvents: Word
    var outOfOrderEvents: Word
    var extraCycleEvents: Word
    var staleEvents: Word
    var ackCount: Word
    var ackErrors: Word
    var nativeCode: nat
    var armed: bool
    var matched: bool
    var closed: bool

    ghost function View(): Snapshot
      reads this
    {
      Snapshot(armGeneration, willSleepGeneration, poweredOnGeneration, sleepSequence, wakeSequence, sequence,
               canSleepEvents, sleepEvents, wakeEvents, canceledEvents, outOfOrderEvents, extraCycleEvents, staleEvents,
               ackCount, ackErrors, nativeCode, armed, matched, closed)
    }

    constructor (g: Word)
      ensures View() == Armed(g)
    {
      armGeneration, willSleepGeneration, poweredOnGeneration := g, 0, 0;
      sleepSequence, wakeSequence, sequence := 0, 0, 0;
      canSleepEvents, sleepEvents, wakeEvents, canceledEvents := 0, 0, 0, 0;
      outOfOrderEvents, extraCycleEvents, staleEvents, ackCount, ackErrors := 0, 0, 0, 0, 0;
      nativeCode, armed, matched, closed := 0, true, false, false;
    }

    method Reduce(e: Event)
      modifies this
      ensures View() == Reduced(old(View()), e)
    {
      if !armed {
        return;
      }
      if e.generation != armGeneration {
        staleEvents := Next(staleEvents);
        matched := false;
        return;
      }
      Acknowledge(e);
      Count(e);
      matched := Matches(Snapshot(armGeneration, willSleepGeneration, poweredOnGeneration, sleepSequence, wakeSequence, sequence,
                                  canSleepEvents, sleepEvents, wakeEvents, canceledEvents, outOfOrderEvents, extraCycleEvents, staleEvents,
                                  ackCount, ackErrors, nativeCode, armed, matched, closed));
    }

    method Acknowledge(e: Event)
      modifies this`sequence, this`ackCount, this`ackErrors, this`nativeCode
      ensures View() == Acked(old(View()), e)
    {
      sequence := Next(sequence);
      if e.kind == CAN_SLEEP || e.kind == WILL_SLEEP {
        ackCount := Next(ackCount);
        if e.ack != 0 {
          ackErrors := Next(ackErrors);
          if nativeCode == 0 {
            nativeCode := e.ack;
          }
        }
      }
    }

    method Count(e: Event)
      modifies this
      ensures View() == Counted(old(View()), e)
    {
      if e.kind == CAN_SLEEP {
        canSleepEvents := Next(canSleepEvents);
        if canSleepEvents > 1 || sleepEvents != 0 || wakeEvents != 0 {
          extraCycleEvents := Next(extraCycleEvents);
        }
      } else if e.kind == WILL_SLEEP {
        WillSleep(e);
      } else if e.kind == POWERED_ON {
        PoweredOn(e);
      } else if e.kind == WILL_NOT_SLEEP {
        canceledEvents := Next(canceledEvents);
      } else {
        outOfOrderEvents := Next(outOfOrderEvents);
      }
    }

    method WillSleep(e: Event)
      requires e.kind == WILL_SLEEP
      modifies this
      ensures View() == Counted(old(View()), e)
    {
      sleepEvents := Next(sleepEvents);
      if sleepEvents == 1 && wakeEvents == 0 && canceledEvents == 0 {
        willSleepGeneration := e.generation;
        sleepSequence := sequence;
      } else {
        extraCycleEvents := Next(extraCycleEvents);
        outOfOrderEvents := Next(outOfOrderEvents);
      }
    }

    method PoweredOn(e: Event)
      requires e.kind == POWERED_ON
      modifies this
      ensures View() == Counted(old(View()), e)
    {
      wakeEvents := Next(wakeEvents);
      if wakeEvents == 1 && sleepEvents == 1 && sleepSequence != 0 && canceledEvents == 0 {
        poweredOnGeneration := e.generation;
        wakeSequence := sequence;
      } else {
        outOfOrderEvents := Next(outOfOrderEvents);
        if wakeEvents > 1 {
          extraCycleEvents := Next(extraCycleEvents);
        }
      }
    }
  }

  // ----- The language ------------------------------------------------------------------------

  predicate Asks(e: Event, g: Word) {
    e.kind == 1 && e.generation == g && e.ack == 0
  }

  predicate Sleeps(e: Event, g: Word) {
    e.kind == 2 && e.generation == g && e.ack == 0
  }

  predicate Wakes(e: Event, g: Word) {
    e.kind == 3 && e.generation == g
  }

  /** One cycle of generation g: an optional question, sleep, wake, both acknowledgements clean. */
  predicate Cycle(events: seq<Event>, g: Word) {
    || (|events| == 2 && Sleeps(events[0], g) && Wakes(events[1], g))
    || (|events| == 3 && Asks(events[0], g) && Sleeps(events[1], g) && Wakes(events[2], g))
  }

  /** The beginning of a cycle up to and including the sleep. */
  predicate Asleep(events: seq<Event>, g: Word) {
    || (|events| == 1 && Sleeps(events[0], g))
    || (|events| == 2 && Asks(events[0], g) && Sleeps(events[1], g))
  }

  predicate Awaiting(events: seq<Event>, g: Word) {
    events == [] || (|events| == 1 && Asks(events[0], g))
  }

  /** The events so far can still become a cycle, or are one. */
  predicate OnCourse(events: seq<Event>, g: Word) {
    Awaiting(events, g) || Asleep(events, g) || Cycle(events, g)
  }

  // ----- What the counters say about the events ----------------------------------------------

  predicate Disqualified(s: Snapshot) {
    s.canceledEvents > 0 || s.outOfOrderEvents > 0 || s.extraCycleEvents > 0 || s.staleEvents > 0 || s.ackErrors > 0
  }

  /** No disqualifying counter has counted past the number of events, so none has wrapped. */
  predicate Bounded(s: Snapshot, n: nat) {
    && s.canceledEvents <= n && s.outOfOrderEvents <= n && s.extraCycleEvents <= n && s.staleEvents <= n && s.ackErrors <= n
  }

  function OnCourseSnapshot(events: seq<Event>, g: Word): Snapshot
    requires OnCourse(events, g)
  {
    var asked: nat := if events != [] && Asks(events[0], g) then 1 else 0;
    var s := Armed(g).(canSleepEvents := asked, sequence := |events|);
    if Awaiting(events, g) then s.(ackCount := asked)
    else
      var t := s.(ackCount := asked + 1, sleepEvents := 1, willSleepGeneration := g, sleepSequence := asked + 1);
      if Asleep(events, g) then t
      else t.(wakeEvents := 1, poweredOnGeneration := g, wakeSequence := asked + 2, matched := true)
  }

  ghost predicate Follows(s: Snapshot, events: seq<Event>, g: Word) {
    && s.armGeneration == g && s.armed && !s.closed && Bounded(s, |events|)
    && (OnCourse(events, g) ==> s == OnCourseSnapshot(events, g))
    && (!OnCourse(events, g) ==> Disqualified(s) && !s.matched)
    && (s.ackErrors > 0 <==> s.nativeCode != 0)
  }

  lemma OffCourseStays(events: seq<Event>, e: Event, g: Word)
    requires OnCourse(events + [e], g)
    ensures OnCourse(events, g)
  {
    assert forall k :: 0 <= k < |events| ==> (events + [e])[k] == events[k];
  }

  /** The disqualifying counters only grow, by at most one. */
  predicate Grows(s: Snapshot, t: Snapshot) {
    && s.canceledEvents <= t.canceledEvents <= s.canceledEvents + 1 && s.outOfOrderEvents <= t.outOfOrderEvents <= s.outOfOrderEvents + 1
    && s.extraCycleEvents <= t.extraCycleEvents <= s.extraCycleEvents + 1 && s.staleEvents <= t.staleEvents <= s.staleEvents + 1
    && s.ackErrors <= t.ackErrors <= s.ackErrors + 1
    && t.armGeneration == s.armGeneration && t.armed == s.armed && t.closed == s.closed
  }

  lemma AckedGrows(s: Snapshot, e: Event, n: nat)
    requires Bounded(s, n) && n + 1 < WORD && (s.ackErrors > 0 <==> s.nativeCode != 0)
    ensures Grows(s, Acked(s, e)) && (Acked(s, e).ackErrors > 0 <==> Acked(s, e).nativeCode != 0)
    ensures var t := Acked(s, e); t.canceledEvents == s.canceledEvents && t.outOfOrderEvents == s.outOfOrderEvents
                                  && t.extraCycleEvents == s.extraCycleEvents && t.staleEvents == s.staleEvents
  {
  }

  lemma CountedGrows(s: Snapshot, e: Event, n: nat)
    requires n + 1 < WORD && s.canceledEvents <= n && s.outOfOrderEvents <= n && s.extraCycleEvents <= n
    ensures Grows(s, Counted(s, e)) && Counted(s, e).ackErrors == s.ackErrors && Counted(s, e).nativeCode == s.nativeCode
  {
    if e.kind == CAN_SLEEP {
    } else if e.kind == WILL_SLEEP {
    } else if e.kind == POWERED_ON {
    }
  }

  /** One event moves every disqualifying counter by at most one, and never forgets a disqualification. */
  lemma CountersStep(s: Snapshot, e: Event, n: nat)
    requires Bounded(s, n) && n + 1 < WORD && s.armed && (s.ackErrors > 0 <==> s.nativeCode != 0)
    ensures Grows(s, Reduced(s, e)) && (Reduced(s, e).ackErrors > 0 <==> Reduced(s, e).nativeCode != 0)
    ensures Disqualified(Reduced(s, e)) ==> !Reduced(s, e).matched
  {
    AckedGrows(s, e, n);
    CountedGrows(Acked(s, e), e, n);
  }

  lemma OnCourseStep(s: Snapshot, events: seq<Event>, e: Event, g: Word)
    requires OnCourse(events, g) && s == OnCourseSnapshot(events, g)
    ensures if OnCourse(events + [e], g) then Reduced(s, e) == OnCourseSnapshot(events + [e], g) else Disqualified(Reduced(s, e))
  {
    var after := events + [e];
    assert after[|events|] == e && forall k :: 0 <= k < |events| ==> after[k] == events[k];
  }

  lemma FollowsStep(s: Snapshot, events: seq<Event>, e: Event, g: Word)
    requires Follows(s, events, g) && |events| + 1 < WORD
    ensures Follows(Reduced(s, e), events + [e], g)
  {
    CountersStep(s, e, |events|);
    if OnCourse(events, g) {
      OnCourseStep(s, events, e, g);
    } else if OnCourse(events + [e], g) {
      OffCourseStays(events, e, g);
    }
  }

  lemma {:induction false} FollowsAll(events: seq<Event>, g: Word)
    requires |events| < WORD
    ensures Follows(ReducedAll(Armed(g), events), events, g)
  {
    if events != [] {
      var rest, last := events[..|events| - 1], events[|events| - 1];
      FollowsAll(rest, g);
      FollowsStep(ReducedAll(Armed(g), rest), rest, last, g);
      assert rest + [last] == events;
    }
  }

  /** The reducer recognises exactly the cycles, for any run shorter than the counters. */
  lemma RecognisesCycle(events: seq<Event>, g: Word)
    requires |events| < WORD
    ensures ReducedAll(Armed(g), events).matched <==> Cycle(events, g)
  {
    FollowsAll(events, g);
  }

  /** A run that has left course never matches again, whatever follows. */
  lemma DisqualificationIsPermanent(events: seq<Event>, more: seq<Event>, g: Word)
    requires |events| + |more| < WORD && Disqualified(ReducedAll(Armed(g), events))
    ensures Disqualified(ReducedAll(Armed(g), events + more)) && !ReducedAll(Armed(g), events + more).matched
  {
    FollowsAll(events, g);
    FollowsAll(events + more, g);
    OffCourseForever(events, more, g);
  }

  lemma {:induction false} OffCourseForever(events: seq<Event>, more: seq<Event>, g: Word)
    requires !OnCourse(events, g)
    ensures !OnCourse(events + more, g)
  {
    if more == [] {
      assert events + more == events;
    } else {
      var rest, last := more[..|more| - 1], more[|more| - 1];
      OffCourseForever(events, rest, g);
      assert events + more == (events + rest) + [last];
      if OnCourse(events + more, g) {
        OffCourseStays(events + rest, last, g);
      }
    }
  }

  /** What a waiter on generation g is told, for every run. */
  lemma VerdictExact(events: seq<Event>, g: Word)
    requires |events| < WORD && g != 0
    ensures var s := ReducedAll(Armed(g), events);
            && WaitVerdict(s, g, false) == (if !OnCourse(events, g) then ProtocolError else if Cycle(events, g) then Accepted else TimedOut)
            && WaitVerdict(s, g, true) == (if !OnCourse(events, g) then ProtocolError else if Awaiting(events, g) then TimedOut else Accepted)
  {
    FollowsAll(events, g);
  }

  // ----- The bound is needed -------------------------------------------------------------------

  function Cancellations(n: nat, g: Word): seq<Event> {
    seq(n, _ => Event(g, WILL_NOT_SLEEP, 0))
  }

  lemma NextCounts(n: nat)
    ensures Next(n % WORD) == (n + 1) % WORD
  {
  }

  lemma Cancels(g: Word, counted: Word)
    ensures Reduced(Armed(g).(sequence := counted, canceledEvents := counted), Event(g, WILL_NOT_SLEEP, 0)) ==
            Armed(g).(sequence := Next(counted), canceledEvents := Next(counted))
  {
  }

  lemma {:induction false} CancellationsCount(n: nat, g: Word)
    ensures ReducedAll(Armed(g), Cancellations(n, g)) == Armed(g).(sequence := n % WORD, canceledEvents := n % WORD)
  {
    if n > 0 {
      var events := Cancellations(n, g);
      assert events[..n - 1] == Cancellations(n - 1, g) && events[n - 1] == Event(g, WILL_NOT_SLEEP, 0);
      CancellationsCount(n - 1, g);
      Cancels(g, (n - 1) % WORD);
      NextCounts(n - 1);
    }
  }

  /** After 2^64 cancelled sleeps the counters have forgotten them, and a cycle matches that should not. */
  lemma WrapForgets(g: Word)
    ensures var events := Cancellations(WORD, g) + [Event(g, WILL_SLEEP, 0), Event(g, POWERED_ON, 0)];
            ReducedAll(Armed(g), events).matched && !Cycle(events, g)
  {
    var start := Cancellations(WORD, g);
    var sleep, wake := Event(g, WILL_SLEEP, 0), Event(g, POWERED_ON, 0);
    CancellationsCount(WORD, g);
    var events := start + [sleep, wake];
    assert events[..WORD + 1] == start + [sleep] && events[WORD + 1] == wake;
    assert (start + [sleep])[..WORD] == start && (start + [sleep])[WORD] == sleep;
    var s := Reduced(Armed(g), sleep);
    assert ReducedAll(Armed(g), start) == Armed(g);
    assert ReducedAll(Armed(g), start + [sleep]) == s;
    assert ReducedAll(Armed(g), events) == Reduced(s, wake);
  }
}
