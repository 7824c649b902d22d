/**
 What the wire log of a session says about the authenticator: which requests were started on
 a channel, what was heard on it, and which channels were allocated. A device is a table of
 answers; a log is legal for a device when nothing is heard on the channels it sends requests on
 that is not an answer, in order and at most once, to a request already started there (section
 11.2 of CTAP 2.1).
 */
module WireLog {
  import opened Values
  import opened Framing
  import opened MessageReader

  /** Concatenates what `f` selects from each step. */
  function Select<T>(f: Step -> seq<T>, log: seq<Step>): seq<T> {
    if log == [] then [] else f(log[0]) + Select(f, log[1..])
  }

  lemma {:induction false} SelectAppend<T>(f: Step -> seq<T>, xs: seq<Step>, ys: seq<Step>)
    ensures Select(f, xs + ys) == Select(f, xs) + Select(f, ys)
  {
    if xs == [] {
      assert xs + ys == ys;
    } else {
      assert (xs + ys)[0] == xs[0] && (xs + ys)[1..] == xs[1..] + ys;
      SelectAppend(f, xs[1..], ys);
    }
  }

  lemma {:induction false} SelectIn<T>(f: Step -> seq<T>, log: seq<Step>, i: nat, x: T)
    requires i < |log| && x in f(log[i])
    ensures x in Select(f, log)
    decreases i
  {
    if i > 0 {
      SelectIn(f, log[1..], i - 1, x);
    }
  }

  lemma {:induction false} SelectNone<T>(f: Step -> seq<T>, log: seq<Step>)
    requires forall i :: 0 <= i < |log| ==> f(log[i]) == []
    ensures Select(f, log) == []
  {
    if log != [] {
      SelectNone(f, log[1..]);
    }
  }

  lemma SelectSkip<T>(f: Step -> seq<T>, xs: seq<Step>, ys: seq<Step>)
    requires forall i :: 0 <= i < |ys| ==> f(ys[i]) == []
    ensures Select(f, xs + ys) == Select(f, xs)
  {
    SelectAppend(f, xs, ys);
    SelectNone(f, ys);
  }

  /** The step may have put the first report of a request on the channel. */
  predicate Starts(channel: U32, s: Step) {
    s.Sent? && s.outcome != NotSubmitted && |s.packet| > 4 && Be32(s.packet) == channel && s.packet[4] >= 0x80
  }

  function RequestsIn(channel: U32): Step -> seq<Packet> {
    (s: Step) => if Starts(channel, s) then [s.packet] else []
  }

  /** The number of requests that may have been started on the channel. */
  function Started(log: seq<Step>, channel: U32): nat {
    |Select(RequestsIn(channel), log)|
  }

  function HeardIn(channel: U32): Step -> seq<Packet> {
    (s: Step) => if s.Seen? && ForChannel(channel, s.event) then [s.event.data] else []
  }

  function Heard(log: seq<Step>, channel: U32): seq<Packet> {
    Select(HeardIn(channel), log)
  }

  /** A report that starts an INIT reply; it holds the nonce and the allocated channel. */
  predicate InitReply(e: Event) {
    e.Input? && |e.data| >= 19 && Be32(e.data) == BROADCAST && e.data[4] == INIT
  }

  function AllocatedIn(s: Step): seq<U32> {
    if s.Seen? && InitReply(s.event) then [Be32(s.event.data[15..])] else []
  }

  function Allocations(log: seq<Step>): seq<U32> {
    Select(AllocatedIn, log)
  }

  lemma {:induction false} HeardSeen(evs: seq<Event>, channel: U32)
    ensures Heard(SeenSteps(evs), channel) == OnChannel(channel, evs)
  {
    if evs != [] {
      assert SeenSteps(evs)[1..] == SeenSteps(evs[1..]);
      HeardSeen(evs[1..], channel);
    }
  }

  // ----- Devices -----------------------------------------------------------------

  /** Keepalives and one closing message. */
  datatype Answer = Answer(keepalives: seq<seq<Packet>>, last: seq<Packet>, command: Byte, payload: seq<Byte>) {
    function Reports(): seq<Packet> {
      Flatten(keepalives) + last
    }
  }

  /** The answer to the n-th request on each channel, if it is ever given. */
  datatype Device = Device(reportSize: int, answers: (U32, nat) -> Option<Answer>) {
    ghost predicate Valid() {
      forall channel, n {:trigger WellFormed(channel, answers(channel, n).value)} ::
        answers(channel, n).Some? ==> WellFormed(channel, answers(channel, n).value)
    }

    ghost predicate WellFormed(channel: U32, a: Answer) {
      var c := Codec(channel, a.command, reportSize);
      c.Valid() && a.command != KEEPALIVE && Exchange(c, a.keepalives, a.last, a.payload)
    }

    /** Everything the device will send on a channel for its first `n` requests. */
    ghost function Promised(channel: U32, n: nat): seq<Packet> {
      if n == 0 then []
      else
        var block := match answers(channel, n - 1) case None => [] case Some(a) => a.Reports();
        Promised(channel, n - 1) + block
    }
  }

  /**
   At every moment, what was heard on a channel this log sends requests on answers only requests already
   started there. Other channels are not constrained: they carry the traffic of other clients.
   */
  ghost predicate Legal(dev: Device, log: seq<Step>) {
    forall k, channel :: 0 <= k <= |log| && channel != BROADCAST && Started(log, channel) > 0 ==> LegalAt(dev, log[..k], channel)
  }

  ghost predicate LegalAt(dev: Device, log: seq<Step>, channel: U32) {
    Heard(log, channel) <= dev.Promised(channel, Started(log, channel))
  }

  /** Every allocated channel is a fresh one. */
  predicate FreshChannels(log: seq<Step>) {
    var cs := Allocations(log);
    forall i, j :: 0 <= i < j < |cs| ==> cs[i] != cs[j]
  }

  /** No answer on the channel is outstanding or unread. */
  ghost predicate Quiet(dev: Device, log: seq<Step>, channel: U32) {
    Heard(log, channel) == dev.Promised(channel, Started(log, channel))
  }

  lemma LegalNow(dev: Device, log: seq<Step>, channel: U32)
    requires Legal(dev, log) && channel != BROADCAST && Started(log, channel) > 0
    ensures LegalAt(dev, log, channel)
  {
    assert log[..|log|] == log;
  }

  lemma StartedGrows(log: seq<Step>, more: seq<Step>, channel: U32)
    ensures Started(log, channel) <= Started(log + more, channel)
  {
    SelectAppend(RequestsIn(channel), log, more);
  }

  lemma LegalPrefix(dev: Device, log: seq<Step>, more: seq<Step>)
    requires Legal(dev, log + more)
    ensures Legal(dev, log)
  {
    forall k, channel | 0 <= k <= |log| && channel != BROADCAST && Started(log, channel) > 0 ensures LegalAt(dev, log[..k], channel) {
      StartedGrows(log, more, channel);
      assert (log + more)[..k] == log[..k];
    }
  }

  lemma FreshPrefix(log: seq<Step>, more: seq<Step>)
    requires FreshChannels(log + more)
    ensures FreshChannels(log)
  {
    SelectAppend(AllocatedIn, log, more);
    var cs := Allocations(log);
    forall i, j | 0 <= i < j < |cs| ensures cs[i] != cs[j] {
      assert Allocations(log + more)[i] == cs[i] && Allocations(log + more)[j] == cs[j];
    }
  }

  /** Before the first request on a channel the log goes on to use, the channel is quiet: nothing was heard there. */
  lemma UnusedIsQuiet(dev: Device, log: seq<Step>, more: seq<Step>, channel: U32)
    requires Legal(dev, log + more) && channel != BROADCAST && Started(log, channel) == 0 && Started(log + more, channel) > 0
    ensures Quiet(dev, log, channel)
  {
    assert (log + more)[..|log|] == log;
    assert LegalAt(dev, (log + more)[..|log|], channel);
  }

  /** Traffic of other clients never makes a log illegal: any event on a channel without requests may be heard. */
  lemma ForeignTrafficIsLegal(dev: Device, log: seq<Step>, e: Event)
    requires Legal(dev, log) && forall channel :: ForChannel(channel, e) && channel != BROADCAST ==> Started(log, channel) == 0
    ensures Legal(dev, log + [Seen(e)])
  {
    var after := log + [Seen(e)];
    forall k, channel | 0 <= k <= |after| && channel != BROADCAST && Started(after, channel) > 0 ensures LegalAt(dev, after[..k], channel) {
      SelectSkip(RequestsIn(channel), log, [Seen(e)]);
      assert Started(log, channel) > 0;
      if k <= |log| {
        assert after[..k] == log[..k];
        assert LegalAt(dev, log[..k], channel);
      } else {
        SelectSkip(HeardIn(channel), log, [Seen(e)]);
        LegalNow(dev, log, channel);
        assert LegalAt(dev, after, channel) && after[..k] == after;
      }
    }
  }

  /** The exchange is the device's answer to request `n` of the channel. */
  ghost predicate Answers(dev: Device, channel: U32, n: nat, command: Byte, payload: seq<Byte>) {
    var a := dev.answers(channel, n);
    a.Some? && a.value.command == command && a.value.payload == payload
  }

  lemma PrefixCancel<T>(a: seq<T>, b: seq<T>, c: seq<T>)
    requires a + b <= a + c
    ensures |b| <= |c| && b + c[|b|..] == c
  {
    assert b == (a + b)[|a|..];
    assert (a + c)[..|a + b|] == a + c[..|b|];
    assert c[..|b|] == (a + c[..|b|])[|a|..];
  }

  /** What is heard beyond the first `n` answers, if it is a complete exchange, is the next answer. */
  lemma NextAnswer(dev: Device, c: Codec, n: nat, messages: seq<seq<Packet>>, last: seq<Packet>, payload: seq<Byte>)
    requires c.Valid() && c.reportSize == dev.reportSize && c.command != KEEPALIVE && dev.Valid()
    requires Exchange(c, messages, last, payload)
    requires dev.Promised(c.channel, n) + (Flatten(messages) + last) <= dev.Promised(c.channel, n + 1)
    ensures Answers(dev, c.channel, n, c.command, payload)
    ensures dev.Promised(c.channel, n) + (Flatten(messages) + last) == dev.Promised(c.channel, n + 1)
  {
    var heard, before := Flatten(messages) + last, dev.Promised(c.channel, n);
    FirstCommand(c, messages, last, payload);
    assert dev.answers(c.channel, n).Some? by {
      assert |before + heard| > |before|;
    }
    var a := dev.answers(c.channel, n).value;
    PrefixCancel(before, heard, a.Reports());
    var more := a.Reports()[|heard|..];
    assert dev.WellFormed(c.channel, dev.answers(c.channel, n).value);
    var d := Codec(c.channel, a.command, dev.reportSize);
    assert heard + more == Flatten(a.keepalives) + a.last + [];
    ExchangePrefixFree(c, messages, last, payload, d, a.keepalives, a.last, a.payload, more, []);
    assert heard == a.Reports();
  }

  /**
   On a quiet channel, one more request followed by one complete exchange on the channel pairs
   the two: the exchange is the device's answer to that request, and the channel is quiet again.
   */
  lemma Pairs(dev: Device, c: Codec, log: seq<Step>, after: seq<Step>, heard: seq<Packet>,
              messages: seq<seq<Packet>>, last: seq<Packet>, payload: seq<Byte>)
    requires c.Valid() && c.reportSize == dev.reportSize && c.command != KEEPALIVE && dev.Valid()
    requires LegalAt(dev, after, c.channel) && Started(after, c.channel) == Started(log, c.channel) + 1
    requires Quiet(dev, log, c.channel) && Heard(after, c.channel) == Heard(log, c.channel) + heard
    requires heard == Flatten(messages) + last && Exchange(c, messages, last, payload)
    ensures Answers(dev, c.channel, Started(log, c.channel), c.command, payload)
    ensures Quiet(dev, after, c.channel)
  {
    NextAnswer(dev, c, Started(log, c.channel), messages, last, payload);
  }

  lemma Appends(log: seq<Step>, sends: seq<Step>, seen: seq<Event>, after: seq<Step>, channel: U32)
    requires after == log + sends + SeenSteps(seen) && forall i :: 0 <= i < |sends| ==> sends[i].Sent?
    ensures Started(after, channel) == Started(log, channel) + Started(sends, channel)
    ensures Heard(after, channel) == Heard(log, channel) + OnChannel(channel, seen)
  {
    SelectAppend(RequestsIn(channel), log, sends);
    SelectSkip(RequestsIn(channel), log + sends, SeenSteps(seen));
    SelectSkip(HeardIn(channel), log, sends);
    SelectAppend(HeardIn(channel), log + sends, SeenSteps(seen));
    HeardSeen(seen, channel);
  }
}
