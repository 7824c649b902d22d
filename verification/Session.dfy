/**
 A CTAPHID session (pkg/transport/usb/hid_session.go, hid_init.go, hid_exchange.go,
 hid_lifetime.go): a retried INIT and PING handshake allocates a channel, then every
 application request is sent once and its response is read from that channel. A failure
 carries delivery evidence, and every failure that is not a CTAPHID ERROR retires the session.

 Each call runs against a script of what the connection and the call's context do. The `log`
 keeps everything that crossed the connection over the life of the session.
 */
module Session {
  import opened Values
  import opened Framing
  import opened MessageReader
  import opened WireLog
  import opened SessionOutcome

  datatype Stage = StageInit | StagePing | StageRequest | StageResponse

  datatype Progress = Progress(stage: Stage, packets: nat, outcome: Outcome, ambiguous: bool)

  datatype ExchangeResult =
    | Response(payload: seq<Byte>)
    | Rejected(error: Error)      // refused before admission, the session is as it was
    | Failed(progress: Progress, cause: Error)

  /** The result without its evidence. */
  function EndingOf(r: ExchangeResult): Ending {
    match r
    case Response(payload) => Answered(payload)
    case Rejected(e) => TurnedAway(e)
    case Failed(_, cause) => Broken(cause)
  }

  function Endings(results: seq<ExchangeResult>): seq<Ending> {
    seq(|results|, i requires 0 <= i < |results| => EndingOf(results[i]))
  }

  function ResultOf(r: ExchangeResult): Result<seq<Byte>, Error> {
    match r
    case Response(payload) => Ok(payload)
    case Rejected(e) => Err(e)
    case Failed(_, cause) => Err(cause)
  }

  // ----- Delivery evidence ---------------------------------------------------------

  function Recorded(p: Progress, outcome: Outcome): Progress {
    Progress(p.stage,
             if outcome == Completed then p.packets + 1 else p.packets,
             outcome,
             p.ambiguous || outcome == Unknown)
  }

  function RecordedAll(p: Progress, sends: seq<Step>): Progress
    requires forall i :: 0 <= i < |sends| ==> sends[i].Sent?
  {
    if sends == [] then p
    else Recorded(RecordedAll(p, sends[..|sends| - 1]), sends[|sends| - 1].outcome)
  }

  /** The report was handed over and its completion confirmed. */
  predicate Delivered(s: Step) {
    s.Sent? && s.outcome == Completed && !s.failed
  }

  predicate AllDelivered(sends: seq<Step>) {
    forall i :: 0 <= i < |sends| ==> Delivered(sends[i])
  }

  /** The sends are a prefix of the reports, in order and without repeats; only the last may have failed. */
  predicate SendsOf(packets: seq<Packet>, sends: seq<Step>) {
    && |sends| <= |packets|
    && (forall i :: 0 <= i < |sends| ==> sends[i].Sent? && sends[i].packet == packets[i])
    && (forall i :: 0 <= i < |sends| - 1 ==> Delivered(sends[i]))
  }

  /** Nothing is sent after a write that did not complete. */
  predicate Careful(steps: seq<Step>) {
    forall i, j :: 0 <= i < j < |steps| && steps[i].Sent? && steps[j].Sent? ==> Delivered(steps[i])
  }

  predicate Clean(steps: seq<Step>) {
    forall i :: 0 <= i < |steps| && steps[i].Sent? ==> Delivered(steps[i])
  }

  lemma CarefulAppend(xs: seq<Step>, ys: seq<Step>)
    requires Clean(xs) && Careful(ys)
    ensures Careful(xs + ys)
    ensures Clean(ys) ==> Clean(xs + ys)
  {
  }

  lemma CarefulSends(packets: seq<Packet>, sends: seq<Step>, seen: seq<Event>)
    requires SendsOf(packets, sends)
    ensures Careful(sends + SeenSteps(seen))
    ensures AllDelivered(sends) ==> Clean(sends + SeenSteps(seen))
  {
    var steps := sends + SeenSteps(seen);
    assert forall j :: |sends| <= j < |steps| ==> steps[j].Seen?;
  }

  /** The positions of the reports whose completion was confirmed. */
  function Confirmed(sends: seq<Step>): set<int> {
    set i | 0 <= i < |sends| && sends[i].Sent? && sends[i].outcome == Completed
  }

  lemma ConfirmedSnoc(init: seq<Step>, last: Step)
    requires last.Sent?
    ensures |Confirmed(init + [last])| == |Confirmed(init)| + if last.outcome == Completed then 1 else 0
  {
    var more := if last.outcome == Completed then {|init|} else {};
    assert Confirmed(init + [last]) == Confirmed(init) + more;
  }

  /** The progress record after some sends counts the completed ones and flags the uncertain ones. */
  lemma {:induction false} RecordedExact(p: Progress, packets: seq<Packet>, sends: seq<Step>)
    requires SendsOf(packets, sends) && p.packets == 0 && !p.ambiguous
    ensures var q := RecordedAll(p, sends);
            && q.stage == p.stage
            && q.packets == |Confirmed(sends)|
            && (AllDelivered(sends) ==> q.packets == |sends| && !q.ambiguous)
            && (q.packets == 0 && !q.ambiguous <==> forall s :: s in sends ==> s.outcome == NotSubmitted)
            && q.outcome == (if sends == [] then p.outcome else sends[|sends| - 1].outcome)
    decreases |sends|
  {
    if sends != [] {
      var init, last := sends[..|sends| - 1], sends[|sends| - 1];
      assert sends == init + [last];
      assert AllDelivered(init);
      RecordedExact(p, packets, init);
      ConfirmedSnoc(init, last);
      assert forall s :: s in sends <==> s in init || s == last;
      assert init != [] ==> init[0] in init && Delivered(init[0]);
    }
  }

  /** What a failed exchange may claim about the reports of its request. */
  predicate Evidence(p: Progress, cause: Error, packets: seq<Packet>, sends: seq<Step>)
    requires SendsOf(packets, sends)
  {
    && (p.stage == StageInit || p.stage == StagePing ==> sends == [])
    && (p.stage == StageResponse ==> |sends| == |packets| == p.packets && AllDelivered(sends))
    && (p.stage == StageRequest || p.stage == StageResponse ==>
          && p.packets == |Confirmed(sends)|
          && p.outcome == (if sends == [] then NotSubmitted else sends[|sends| - 1].outcome)
          && (!cause.DeviceError? ==> (p.ambiguous <==> exists s :: s in sends && s.outcome != NotSubmitted)))
    && (!cause.DeviceError? && !p.ambiguous ==> forall s :: s in sends ==> s.outcome == NotSubmitted)
  }

  lemma SendsExtend(packets: seq<Packet>, sends: seq<Step>, one: seq<Step>, p: Progress)
    requires |sends| < |packets| && SendsOf(packets, sends) && AllDelivered(sends) && SendsOf([packets[|sends|]], one)
    ensures SendsOf(packets, sends + one)
    ensures RecordedAll(p, sends + one) == RecordedAll(RecordedAll(p, sends), one)
    ensures AllDelivered(one) ==> AllDelivered(sends + one)
  {
    var all := sends + one;
    if one == [] {
      assert all == sends;
    } else {
      assert all[..|all| - 1] == sends && one[..0] == [];
    }
  }

  // ----- The handshake -----------------------------------------------------------------

  predicate HandshakeStep(s: Step) {
    s.Sent? ==> |s.packet| > 4 && (s.packet[4] == PING || (s.packet[4] == INIT && Be32(s.packet) == BROADCAST))
  }

  predicate HandshakeOnly(steps: seq<Step>) {
    forall i :: 0 <= i < |steps| ==> HandshakeStep(steps[i])
  }

  function InitIn(s: Step): seq<Packet> {
    if s.Sent? && |s.packet| > 4 && s.packet[4] == INIT then [s.packet] else []
  }

  function PingIn(s: Step): seq<Packet> {
    if s.Sent? && |s.packet| > 4 && s.packet[4] == PING then [s.packet] else []
  }

  /** The steps only perform handshakes, with at most so many INITs and PINGs, and send nothing after a failed write. */
  predicate HandshakePart(steps: seq<Step>, inits: nat, pings: nat) {
    HandshakeOnly(steps) && |Select(InitIn, steps)| <= inits && |Select(PingIn, steps)| <= pings && Careful(steps)
  }

  lemma HandshakeAppend(xs: seq<Step>, ys: seq<Step>, n: nat, p: nat, m: nat, q: nat)
    requires HandshakePart(xs, n, p) && Clean(xs) && HandshakePart(ys, m, q)
    ensures HandshakePart(xs + ys, n + m, p + q)
    ensures Clean(ys) ==> Clean(xs + ys)
  {
    SelectAppend(InitIn, xs, ys);
    SelectAppend(PingIn, xs, ys);
    CarefulAppend(xs, ys);
  }

  lemma SinglePacket(c: Codec, payload: seq<Byte>)
    requires c.Valid() && |payload| <= 8 && c.reportSize == REPORT_SIZE
    ensures |Packets(c, payload)| == 1 && |Packets(c, payload)[0]| == REPORT_SIZE
    ensures Packets(c, payload)[0][4] == c.command && Be32(Packets(c, payload)[0]) == c.channel
  {
    assert ContinuationBodies(c, 0, payload[|payload|..]) == [];
    PacketHeaders(c, payload, 0);
  }

  /** The steps of one INIT or PING exchange are a handshake part. */
  lemma HandshakeSends(c: Codec, payload: seq<Byte>, sends: seq<Step>, seen: seq<Event>)
    requires c.Valid() && |payload| <= 8 && c.reportSize == REPORT_SIZE
    requires c.command == PING || (c.command == INIT && c.channel == BROADCAST)
    requires SendsOf(Packets(c, payload), sends)
    ensures HandshakePart(sends + SeenSteps(seen), if c.command == INIT then 1 else 0, if c.command == PING then 1 else 0)
    ensures AllDelivered(sends) ==> Clean(sends + SeenSteps(seen))
    ensures forall i :: 0 <= i < |sends| ==> sends[i].Sent? && |sends[i].packet| > 4 && Be32(sends[i].packet) == c.channel
  {
    SinglePacket(c, payload);
    CarefulSends(Packets(c, payload), sends, seen);
    SelectSkip(InitIn, sends, SeenSteps(seen));
    SelectSkip(PingIn, sends, SeenSteps(seen));
    if sends != [] {
      assert sends == [sends[0]] && sends[1..] == [];
      assert Select(InitIn, sends) == InitIn(sends[0]) && Select(PingIn, sends) == PingIn(sends[0]);
    }
  }

  /** Everything sent went to the broadcast channel or to a channel allocated before. */
  ghost predicate Known(log: seq<Step>) {
    forall i :: 0 <= i < |log| && log[i].Sent? ==> KnownChannel(log[i].packet, Allocations(log))
  }

  predicate KnownChannel(p: Packet, channels: seq<U32>) {
    |p| > 4 && (Be32(p) == BROADCAST || Be32(p) in channels)
  }

  lemma KnownAppend(log: seq<Step>, steps: seq<Step>)
    requires Known(log)
    requires forall i :: 0 <= i < |steps| && steps[i].Sent? ==> KnownChannel(steps[i].packet, Allocations(log))
    ensures Known(log + steps)
  {
    SelectAppend(AllocatedIn, log, steps);
  }

  lemma NotAllocatedNotStarted(log: seq<Step>, channel: U32)
    requires Known(log) && channel !in Allocations(log) && channel != BROADCAST
    ensures Started(log, channel) == 0
  {
    SelectNone(RequestsIn(channel), log);
  }

  lemma {:induction false} OnChannelIn(channel: U32, evs: seq<Event>, p: Packet) returns (i: nat)
    requires p in OnChannel(channel, evs)
    ensures i < |evs| && ForChannel(channel, evs[i]) && evs[i].data == p
  {
    if ForChannel(channel, evs[0]) && evs[0].data == p {
      i := 0;
    } else {
      i := OnChannelIn(channel, evs[1..], p);
      i := i + 1;
    }
  }

  /** What was seen holds, on the codec's channel, exactly one exchange with this closing message. */
  ghost predicate HeardExchange(c: Codec, seen: seq<Event>, payload: seq<Byte>)
    requires c.Valid()
  {
    exists messages, last :: OnChannel(c.channel, seen) == Flatten(messages) + last && Exchange(c, messages, last, payload)
  }

  /** The channel named in an INIT reply is one of the allocations seen. */
  lemma InitReplyAllocates(c: Codec, seen: seq<Event>, payload: seq<Byte>)
    requires c == Codec(BROADCAST, INIT, REPORT_SIZE) && |payload| >= 17 && HeardExchange(c, seen, payload)
    ensures Be32(payload[8..]) in Allocations(SeenSteps(seen))
  {
    var messages, last :| OnChannel(c.channel, seen) == Flatten(messages) + last && Exchange(c, messages, last, payload);
    FirstPacket(c, last, payload);
    var p := last[0];
    assert p == (Flatten(messages) + last)[|Flatten(messages)|];
    var i := OnChannelIn(BROADCAST, seen, p);
    InitReplyBytes(c, last, payload);
    assert InitReply(seen[i]) && SeenSteps(seen)[i] == Seen(seen[i]);
    SelectIn(AllocatedIn, SeenSteps(seen), i, Be32(payload[8..]));
  }

  lemma InitReplyBytes(c: Codec, last: seq<Packet>, payload: seq<Byte>)
    requires c == Codec(BROADCAST, INIT, REPORT_SIZE) && |payload| >= 17 && Complete(c, last, payload)
    ensures last != [] && |last[0]| == REPORT_SIZE && Be32(last[0][15..]) == Be32(payload[8..])
  {
    FramingExact(c, last, payload);
    var n := Min(|payload|, c.reportSize - 7);
    var body := InitialBody(c, |payload|, payload[..n]);
    assert Bodies(c, payload)[0] == body <= last[0];
    assert body[7..] == payload[..n];
    forall j | 0 <= j < n ensures last[0][7 + j] == payload[j] {
      assert body[7..][j] == body[7 + j] == last[0][7 + j];
    }
    assert last[0][15..19] == payload[8..12];
    assert forall k :: 0 <= k < 4 ==> last[0][15..][k] == payload[8..][k];
  }

  /** One completed request puts exactly one first report on its channel. */
  lemma SendsStartOne(c: Codec, payload: seq<Byte>, sends: seq<Step>)
    requires c.Valid() && |payload| <= 0xffff && |payload| <= MaxPayloadSize(c.reportSize)
    requires SendsOf(Packets(c, payload), sends) && |sends| == |Packets(c, payload)| && AllDelivered(sends)
    ensures Started(sends, c.channel) == 1
  {
    PacketHeaders(c, payload, 0);
    assert RequestsIn(c.channel)(sends[0]) == [sends[0].packet];
    forall i | 0 <= i < |sends[1..]| ensures RequestsIn(c.channel)(sends[1..][i]) == [] {
      PacketHeaders(c, payload, i + 1);
    }
    SelectNone(RequestsIn(c.channel), sends[1..]);
  }

  /** A request sent whole on a quiet channel and the exchange then heard there belong together. */
  lemma AnswerBelongs(dev: Device, c: Codec, request: Codec, payload: seq<Byte>, log: seq<Step>, sends: seq<Step>, seen: seq<Event>,
                      after: seq<Step>, answer: seq<Byte>)
    requires c.Valid() && request.Valid() && c == request.(command := c.command)
    requires c.reportSize == dev.reportSize && c.command != KEEPALIVE && c.channel != BROADCAST && dev.Valid()
    requires |payload| <= 0xffff && |payload| <= MaxPayloadSize(c.reportSize)
    requires SendsOf(Packets(request, payload), sends) && |sends| == |Packets(request, payload)| && AllDelivered(sends)
    requires HeardExchange(c, seen, answer) && after == log + sends + SeenSteps(seen)
    requires Quiet(dev, log, c.channel) && Legal(dev, after)
    ensures Answers(dev, c.channel, Started(log, c.channel), c.command, answer)
    ensures Quiet(dev, after, c.channel) && Started(after, c.channel) == Started(log, c.channel) + 1
  {
    SendsStartOne(request, payload, sends);
    Appends(log, sends, seen, after, c.channel);
    LegalNow(dev, after, c.channel);
    var messages, last :| OnChannel(c.channel, seen) == Flatten(messages) + last && Exchange(c, messages, last, answer);
    Pairs(dev, c, log, after, OnChannel(c.channel, seen), messages, last, answer);
  }

  lemma NewInLater<T>(before: seq<T>, later: seq<T>, x: T)
    requires x in later && forall i, j :: 0 <= i < j < |before + later| ==> (before + later)[i] != (before + later)[j]
    ensures x !in before
  {
    var j :| 0 <= j < |later| && later[j] == x;
    forall i | 0 <= i < |before| ensures before[i] != x {
      assert (before + later)[i] == before[i] && (before + later)[|before| + j] == x;
    }
  }

  /** A channel allocated since the last send has never been used, whatever was heard on it or on others. */
  lemma NewChannelIsUnused(log: seq<Step>, sends: seq<Step>, seen: seq<Event>, after: seq<Step>, channel: U32)
    requires Known(log) && after == log + sends + SeenSteps(seen) && channel != BROADCAST
    requires forall i :: 0 <= i < |sends| ==> sends[i].Sent? && |sends[i].packet| > 4 && Be32(sends[i].packet) == BROADCAST
    requires channel in Allocations(SeenSteps(seen)) && FreshChannels(after)
    ensures Started(after, channel) == 0
  {
    assert Allocations(after) == Allocations(log) + Allocations(SeenSteps(seen)) by {
      SelectSkip(AllocatedIn, log, sends);
      SelectAppend(AllocatedIn, log + sends, SeenSteps(seen));
    }
    NewInLater(Allocations(log), Allocations(SeenSteps(seen)), channel);
    NotAllocatedNotStarted(log, channel);
    Appends(log, sends, seen, after, channel);
    SelectNone(RequestsIn(channel), sends);
  }

  // ----- The session ---------------------------------------------------------------------

  /** The failures a write can report; none of them allows the handshake to be retried. */
  predicate WriteFailure(e: Error) {
    e == ContextDone || e == Closed || e == WriteError
  }

  class HidSession {
    const inputId: Byte
    var channelID: U32
    var closing: bool
    var progress: Option<Progress>
    ghost const dev: Device
    ghost var log: seq<Step>

    /**
     Between exchanges, on a session that is still open, the channel is quiet: against any device
     whose answers explain the log, every request sent on it has been answered and the answer read.
     */
    ghost predicate Valid()
      reads this
    {
      && dev.Valid() && dev.reportSize == REPORT_SIZE && progress == None
      && Known(log)
      && (channelID != 0 ==> channelID != BROADCAST && channelID in Allocations(log))
      && (channelID != 0 && !closing && Legal(dev, log) && FreshChannels(log) ==> Quiet(dev, log, channelID))
    }

    constructor (inputId: Byte, ghost dev: Device)
      requires dev.Valid() && dev.reportSize == REPORT_SIZE
      ensures Valid() && !closing && channelID == 0 && log == [] && this.dev == dev && this.inputId == inputId
    {
      this.inputId := inputId;
      this.dev := dev;
      channelID, closing, progress, log := 0, false, None, [];
    }

    /** CloseContext and retire: new exchanges are refused from now on. */
    method Retire()
      modifies this`closing
      ensures closing
    {
      closing := true;
    }

    method WritePacket(src: EventSource, packet: Packet) returns (err: Option<Error>, ghost sends: seq<Step>)
      requires src.Valid() && progress.Some?
      modifies this`progress, this`log, src`pos
      ensures src.Valid() && old(src.pos) <= src.pos
      ensures log == old(log) + sends && SendsOf([packet], sends)
      ensures progress == Some(RecordedAll(old(progress).value, sends))
      ensures err == None <==> |sends| == 1 && Delivered(sends[0])
      ensures !closing ==> Agrees(if err == None then Ok(()) else Err(err.value), src.Pending(), Write(old(src.Pending())))
      ensures err.Some? ==> WriteFailure(err.value)
    {
      sends := [];
      var expired := src.Expired();
      if expired {
        return Some(ContextDone), [];
      }
      if closing || src.AtShut() {
        return Some(Closed), [];
      }
      var outcome, failed := NotSubmitted, true;
      if src.script[src.pos].WriteDone? {
        outcome, failed := src.script[src.pos].outcome, src.script[src.pos].failed;
        src.pos := src.pos + 1;
        assert old(src.Pending())[1..] == src.Pending();
      }
      sends := [Sent(packet, outcome, failed)];
      log := log + sends;
      var p := progress.value;
      assert sends[..0] == [];
      progress := Some(Progress(p.stage, if outcome == Completed then p.packets + 1 else p.packets, outcome,
                                p.ambiguous || outcome == Unknown));
      err := if failed || outcome != Completed then Some(WriteError) else None;
    }

    /** The packet loops of exchangeHIDMessage and exchangeInit. */
    method WritePackets(src: EventSource, packets: seq<Packet>) returns (err: Option<Error>, ghost sends: seq<Step>)
      requires src.Valid() && progress.Some?
      modifies this`progress, this`log, src`pos
      ensures src.Valid() && old(src.pos) <= src.pos
      ensures log == old(log) + sends && SendsOf(packets, sends)
      ensures progress == Some(RecordedAll(old(progress).value, sends))
      ensures err == None ==> |sends| == |packets| && AllDelivered(sends)
      ensures err.Some? ==> WriteFailure(err.value)
      ensures !closing ==> Agrees(if err == None then Ok(()) else Err(err.value), src.Pending(), Writes(|packets|, old(src.Pending())))
    {
      sends := [];
      var i := 0;
      while i < |packets|
        invariant i == |sends| <= |packets| && src.Valid() && old(src.pos) <= src.pos
        invariant log == old(log) + sends && SendsOf(packets, sends) && AllDelivered(sends)
        invariant progress == Some(RecordedAll(old(progress).value, sends))
        invariant !closing ==> Writes(|packets| - i, src.Pending()) == Writes(|packets|, old(src.Pending()))
      {
        var expired := src.Expired();
        if expired {
          return Some(ContextDone), sends;
        }
        ghost var one: seq<Step>;
        err, one := WritePacket(src, packets[i]);
        SendsExtend(packets, sends, one, old(progress).value);
        assert old(log) + sends + one == old(log) + (sends + one);
        sends := sends + one;
        if err.Some? {
          return err, sends;
        }
        i := i + 1;
      }
      err := None;
    }

    /** exchangeHIDMessage: send one request whole, then read one response on the same channel. */
    method ExchangeMessage(src: EventSource, port: Port, channel: U32, command: Byte, payload: seq<Byte>)
      returns (r: Result<seq<Byte>, Error>, ghost sends: seq<Step>, ghost seen: seq<Event>)
      requires src.Valid() && progress.Some? && port.reportSize == REPORT_SIZE
      requires command >= 0x80 && command != KEEPALIVE && command != ERROR
      requires |payload| <= MaxPayloadSize(REPORT_SIZE)
      modifies this`progress, this`log, src`pos
      ensures src.Valid() && old(src.pos) <= src.pos
      ensures log == old(log) + sends + SeenSteps(seen)
      ensures var packets := Packets(Codec(channel, command, REPORT_SIZE), payload);
              && SendsOf(packets, sends)
              && (r.Ok? || !WriteFailure(r.error) || (progress.Some? && progress.value.stage != old(progress).value.stage) ==>
                    |sends| == |packets| && AllDelivered(sends))
      ensures progress.Some?
      ensures var p := RecordedAll(old(progress).value, sends);
              progress.value == p || (!port.handshake && progress.value == p.(stage := StageResponse))
      ensures r.Ok? ==> HeardExchange(Codec(channel, command, REPORT_SIZE), seen, r.value)
      ensures r.Err? && r.error.DeviceError? ==> HeardExchange(Codec(channel, ERROR, REPORT_SIZE), seen, [r.error.code])
      ensures !closing ==> Agrees(r, src.Pending(), Message(port, Codec(channel, command, REPORT_SIZE), payload, old(src.Pending())))
    {
      seen := [];
      var c := Codec(channel, command, REPORT_SIZE);
      var packets := Fragment(c, payload);
      assert packets.Ok?;
      var err: Option<Error>;
      err, sends := WritePackets(src, packets.value);
      assert SeenSteps([]) == [] && log == old(log) + sends + [];
      RecordedStage(old(progress).value, sends);
      if err.Some? {
        return Err(err.value), sends, seen;
      }
      var expired := src.Expired();
      if !expired && !port.handshake {
        progress := Some(progress.value.(stage := StageResponse));
      }
      r, seen := ReadResponse(src, port, c);
    }

    /** Reads one message and records what was consumed for it. */
    method ReadResponse(src: EventSource, port: Port, c: Codec) returns (r: Result<seq<Byte>, Error>, ghost seen: seq<Event>)
      requires src.Valid() && port.reportSize == c.reportSize && c.Valid() && c.command != KEEPALIVE && c.command != ERROR
      modifies this`log, src`pos
      ensures src.Valid() && old(src.pos) <= src.pos && (r.Ok? ==> old(src.pos) < src.pos)
      ensures log == old(log) + SeenSteps(seen)
      ensures r.Ok? ==> HeardExchange(c, seen, r.value)
      ensures r.Err? && r.error.DeviceError? ==> HeardExchange(c.(command := ERROR), seen, [r.error.code])
      ensures Agrees(r, src.Pending(), ReadMessage(port, c, old(src.Pending())))
    {
      ghost var evs := src.Pending();
      r := src.ReadHIDMessage(port, c);
      seen := src.script[old(src.pos)..src.pos];
      assert seen == evs[..|evs| - |src.Pending()|];
      log := log + SeenSteps(seen);
      ReadIsExchange(port, c, evs, src.Pending(), seen);
    }

    /** exchangeInit: broadcast INIT, then read replies until one echoes the nonce. */
    method ExchangeInit(src: EventSource, nonce: Nonce)
      returns (r: Result<seq<Byte>, Error>, ghost sends: seq<Step>, ghost seen: seq<Event>)
      requires src.Valid() && progress.Some?
      modifies this`progress, this`log, src`pos
      ensures src.Valid() && old(src.pos) <= src.pos && progress.Some? && progress.value.stage == old(progress).value.stage
      ensures log == old(log) + sends + SeenSteps(seen)
      ensures SendsOf(Packets(Codec(BROADCAST, INIT, REPORT_SIZE), nonce), sends)
      ensures r.Ok? || !WriteFailure(r.error) ==> AllDelivered(sends)
      ensures r.Ok? ==> |r.value| >= 17 && r.value[..8] == nonce && Be32(r.value[8..]) in Allocations(SeenSteps(seen))
      ensures !closing ==> match Writes(|Packets(InitCodec(), nonce)|, old(src.Pending()))
                           case Stop(e, left) => r == Err(e) && src.Pending() == left
                           case Got(_, rest) => Agrees(r, src.Pending(), InitResponse(inputId, nonce, rest))
    {
      seen := [];
      var packets := Fragment(InitCodec(), nonce);
      var err: Option<Error>;
      err, sends := WritePackets(src, packets.value);
      RecordedStage(old(progress).value, sends);
      assert SeenSteps([]) == [] && log == old(log) + sends + [];
      if err.Some? {
        return Err(err.value), sends, seen;
      }
      r, seen := AwaitInit(src, nonce);
    }

    /** The reading loop of exchangeInit. */
    method AwaitInit(src: EventSource, nonce: Nonce) returns (r: Result<seq<Byte>, Error>, ghost seen: seq<Event>)
      requires src.Valid()
      modifies this`log, src`pos
      ensures src.Valid() && old(src.pos) <= src.pos && log == old(log) + SeenSteps(seen)
      ensures r.Ok? ==> |r.value| >= 17 && r.value[..8] == nonce && Be32(r.value[8..]) in Allocations(SeenSteps(seen))
      ensures Agrees(r, src.Pending(), InitResponse(inputId, nonce, old(src.Pending())))
    {
      var c, port := InitCodec(), HandshakePort(inputId);
      seen := [];
      assert SeenSteps([]) == [] && log == old(log) + [];
      while true
        invariant src.Valid() && old(src.pos) <= src.pos
        invariant log == old(log) + SeenSteps(seen)
        invariant InitResponse(inputId, nonce, src.Pending()) == InitResponse(inputId, nonce, old(src.Pending()))
        decreases |src.script| - src.pos
      {
        ghost var before, more := seen, [];
        r, more := ReadResponse(src, port, c);
        SeenAppend(before, more);
        Regroup(old(log), SeenSteps(before), SeenSteps(more));
        seen := before + more;
        if r.Err? {
          return;
        }
        if |r.value| < 17 {
          return Err(InitTooShort), seen;
        }
        if r.value[..8] == nonce {
          InitReplyAllocates(c, more, r.value);
          SelectAppend(AllocatedIn, SeenSteps(before), SeenSteps(more));
          return;
        }
      }
    }

    /** The INIT half of an attempt. */
    method AllocateChannel(src: EventSource, nonce: Option<Nonce>) returns (r: Result<U32, Error>, ghost steps: seq<Step>)
      requires src.Valid() && progress.Some? && Known(log)
      modifies this`progress, this`log, src`pos
      ensures src.Valid() && old(src.pos) <= src.pos && Known(log)
      ensures progress.Some? && (progress.value.stage == StageInit || progress == old(progress))
      ensures log == old(log) + steps && HandshakePart(steps, 1, 0)
      ensures r.Ok? || Retryable(r.error) ==> Clean(steps)
      ensures r.Ok? ==> r.value != 0 && r.value != BROADCAST && r.value in Allocations(log)
      ensures r.Ok? && FreshChannels(log) ==> Started(log, r.value) == 0
      ensures !closing ==> Agrees(r, src.Pending(), Allocate(inputId, nonce, old(src.Pending())))
    {
      steps := [];
      assert log == old(log) + steps;
      if nonce.None? {
        return Err(RandomFailure), steps;
      }
      progress := Some(Progress(StageInit, 0, NotSubmitted, false));
      var response, sends, seen := ExchangeInit(src, nonce.value);
      steps := sends + SeenSteps(seen);
      AllocateEffect(old(log), nonce.value, sends, seen, log);
      if response.Err? {
        return Err(response.error), steps;
      }
      var channel := Be32(response.value[8..]);
      if channel == 0 || channel == BROADCAST {
        return Err(InvalidChannel), steps;
      }
      r := Ok(channel);
    }

    /** The PING half of an attempt. */
    method ProbeChannel(src: EventSource, channel: U32) returns (err: Option<Error>, ghost steps: seq<Step>)
      requires src.Valid() && progress.Some? && dev.Valid() && dev.reportSize == REPORT_SIZE
      requires Known(log) && channel != BROADCAST && channel in Allocations(log)
      modifies this`progress, this`log, src`pos
      ensures src.Valid() && old(src.pos) <= src.pos && Known(log) && channel in Allocations(log)
      ensures progress.Some? && progress.value.stage == StagePing
      ensures log == old(log) + steps && HandshakePart(steps, 0, 1)
      ensures err == None || Retryable(err.value) ==> Clean(steps)
      ensures err == None && Legal(dev, log) && Started(old(log), channel) == 0 ==> Quiet(dev, log, channel)
      ensures !closing ==> Agrees(if err == None then Ok(()) else Err(err.value), src.Pending(), Probe(inputId, channel, old(src.Pending())))
    {
      progress := Some(Progress(StagePing, 0, NotSubmitted, false));
      var echo, sends, seen := ExchangeMessage(src, HandshakePort(inputId), channel, PING, []);
      RecordedStage(Progress(StagePing, 0, NotSubmitted, false), sends);
      steps := sends + SeenSteps(seen);
      ProbeEffect(dev, old(log), channel, sends, seen, log);
      if echo.Err? {
        return Some(echo.error), steps;
      }
      if |echo.value| != 0 {
        return Some(BadPingEcho), steps;
      }
      err := None;
    }

    /** One attempt of the handshake: INIT for a channel, then an empty PING on it. */
    method HandshakeAttempt(src: EventSource, nonce: Option<Nonce>) returns (r: Result<U32, Error>, ghost steps: seq<Step>)
      requires src.Valid() && progress.Some? && Known(log) && dev.Valid() && dev.reportSize == REPORT_SIZE
      modifies this`progress, this`log, src`pos
      ensures src.Valid() && old(src.pos) <= src.pos && Known(log)
      ensures progress.Some? && (progress.value.stage == StageInit || progress.value.stage == StagePing || progress == old(progress))
      ensures log == old(log) + steps && HandshakePart(steps, 1, 1)
      ensures r.Ok? || Retryable(r.error) ==> Clean(steps)
      ensures r.Ok? ==> r.value != 0 && r.value != BROADCAST && r.value in Allocations(log)
      ensures r.Ok? && Legal(dev, log) && FreshChannels(log) ==> Quiet(dev, log, r.value)
      ensures !closing ==> Agrees(r, src.Pending(), Attempt(inputId, nonce, old(src.Pending())))
    {
      r, steps := AllocateChannel(src, nonce);
      if r.Err? {
        return;
      }
      var err, more := ProbeChannel(src, r.value);
      AttemptEffect(dev, old(log), steps, more, log);
      steps := steps + more;
      if err.Some? {
        return Err(err.value), steps;
      }
    }

    /** Before an attempt: only handshakes so far, and the rest of the script leads to `goal`. */
    ghost predicate Retrying(src: EventSource, start: seq<Step>, channel: U32, steps: seq<Step>, attempt: nat,
                             attempts: (nat, seq<Event>) -> Read<U32>, goal: Read<U32>)
      reads this, src
    {
      && attempt <= BUSY_RETRIES && src.Valid() && Known(log) && dev.Valid() && dev.reportSize == REPORT_SIZE
      && progress.Some? && (progress.value.stage == StageInit || progress.value.stage == StagePing)
      && log == start + steps && HandshakePart(steps, attempt, attempt) && Clean(steps) && channelID == channel
      && (!closing ==> Handshake(attempts, attempt, src.Pending()) == goal)
    }

    /** After the last attempt: a quiet channel or an error, as `goal` says. */
    ghost predicate Concluded(src: EventSource, start: seq<Step>, channel: U32, steps: seq<Step>, err: Option<Error>, goal: Read<U32>)
      reads this, src
    {
      && src.Valid() && Known(log)
      && progress.Some? && (progress.value.stage == StageInit || progress.value.stage == StagePing)
      && log == start + steps && HandshakePart(steps, BUSY_RETRIES + 1, BUSY_RETRIES + 1)
      && (err.Some? ==> channelID == channel)
      && (err == None ==> Clean(steps) && channelID != 0 && channelID != BROADCAST && channelID in Allocations(log))
      && (err == None && Legal(dev, log) && FreshChannels(log) ==> Quiet(dev, log, channelID))
      && (!closing ==> Agrees(if err == None then Ok(channelID) else Err(err.value), src.Pending(), goal))
    }

    /** retryHIDHandshake: whole attempts, at most twenty-one of them. */
    method RetryHandshake(src: EventSource, around: Surroundings, ghost attempts: (nat, seq<Event>) -> Read<U32>)
      returns (err: Option<Error>, ghost steps: seq<Step>)
      requires forall k: nat, evs {:trigger Attempt(inputId, around.NonceOf(k), evs)} :: Attempt(inputId, around.NonceOf(k), evs) == attempts(k, evs)
      requires src.Valid() && progress.Some? && (progress.value.stage == StageInit || progress.value.stage == StagePing)
      requires Known(log) && dev.Valid() && dev.reportSize == REPORT_SIZE
      modifies this`progress, this`log, this`channelID, src`pos
      ensures old(src.pos) <= src.pos
      ensures Concluded(src, old(log), old(channelID), steps, err, Handshake(attempts, 0, old(src.Pending())))
    {
      ghost var goal := Handshake(attempts, 0, src.Pending());
      assert HandshakePart([], 0, 0) && Clean([]) && log == log + [];
      err, steps := RetryFrom(src, around, attempts, log, channelID, goal);
    }

    method RetryFrom(src: EventSource, around: Surroundings, ghost attempts: (nat, seq<Event>) -> Read<U32>,
                     ghost start: seq<Step>, ghost channel: U32, ghost goal: Read<U32>)
      returns (err: Option<Error>, ghost steps: seq<Step>)
      requires forall k: nat, evs {:trigger Attempt(inputId, around.NonceOf(k), evs)} :: Attempt(inputId, around.NonceOf(k), evs) == attempts(k, evs)
      requires Retrying(src, start, channel, [], 0, attempts, goal)
      modifies this`progress, this`log, this`channelID, src`pos
      ensures old(src.pos) <= src.pos && Concluded(src, start, channel, steps, err, goal)
    {
      var attempt, ended := 0, false;
      steps, err := [], None;
      while !ended
        invariant old(src.pos) <= src.pos && attempt <= BUSY_RETRIES
        invariant ended ==> Concluded(src, start, channel, steps, err, goal)
        invariant !ended ==> Retrying(src, start, channel, steps, attempt, attempts, goal)
        decreases !ended, BUSY_RETRIES - attempt
      {
        ended, err, steps := TryHandshake(src, around, attempt, attempts, start, channel, steps, goal);
        if !ended {
          attempt := attempt + 1;
        }
      }
    }

    /** One turn of the retry loop: whether it ends, and with what. */
    method TryHandshake(src: EventSource, around: Surroundings, attempt: nat, ghost attempts: (nat, seq<Event>) -> Read<U32>,
                        ghost start: seq<Step>, ghost channel: U32, ghost before: seq<Step>, ghost goal: Read<U32>)
      returns (ended: bool, err: Option<Error>, ghost steps: seq<Step>)
      requires forall k: nat, evs {:trigger Attempt(inputId, around.NonceOf(k), evs)} :: Attempt(inputId, around.NonceOf(k), evs) == attempts(k, evs)
      requires Retrying(src, start, channel, before, attempt, attempts, goal)
      modifies this`progress, this`log, this`channelID, src`pos
      ensures src.Valid() && old(src.pos) <= src.pos && (!ended ==> attempt < BUSY_RETRIES)
      ensures if ended then Concluded(src, start, channel, steps, err, goal)
              else Retrying(src, start, channel, steps, attempt + 1, attempts, goal)
    {
      ghost var evs := src.Pending();
      var expired := src.Expired();
      if expired {
        return true, Some(ContextDone), before;
      }
      var r: Result<U32, Error>;
      r, steps := AttemptOnce(src, around, attempt, attempts, start, before);
      if !closing {
        HandshakeNext(attempts, attempt, evs, r, src.Pending());
      }
      if r.Ok? {
        channelID := r.value;
        return true, None, steps;
      }
      if !Retryable(r.error) || attempt == BUSY_RETRIES {
        return true, Some(r.error), steps;
      }
      expired := src.Expired();
      if expired {
        return true, Some(ContextDone), steps;
      }
      ended, err := false, None;
    }

    /** One attempt, as the retrying function sees it. */
    method AttemptOnce(src: EventSource, around: Surroundings, attempt: nat, ghost attempts: (nat, seq<Event>) -> Read<U32>,
                       ghost start: seq<Step>, ghost before: seq<Step>)
      returns (r: Result<U32, Error>, ghost steps: seq<Step>)
      requires forall k: nat, evs {:trigger Attempt(inputId, around.NonceOf(k), evs)} :: Attempt(inputId, around.NonceOf(k), evs) == attempts(k, evs)
      requires src.Valid() && progress.Some? && Known(log) && dev.Valid() && dev.reportSize == REPORT_SIZE
      requires log == start + before && HandshakePart(before, attempt, attempt) && Clean(before)
      modifies this`progress, this`log, src`pos
      ensures src.Valid() && old(src.pos) <= src.pos && Known(log)
      ensures progress.Some? && (progress.value.stage == StageInit || progress.value.stage == StagePing || progress == old(progress))
      ensures log == start + steps && HandshakePart(steps, attempt + 1, attempt + 1)
      ensures r.Ok? || Retryable(r.error) ==> Clean(steps)
      ensures r.Ok? ==> r.value != 0 && r.value != BROADCAST && r.value in Allocations(log)
      ensures r.Ok? && Legal(dev, log) && FreshChannels(log) ==> Quiet(dev, log, r.value)
      ensures !closing ==> Agrees(r, src.Pending(), attempts(attempt, old(src.Pending())))
    {
      ghost var more;
      r, more := HandshakeAttempt(src, around.NonceOf(attempt));
      HandshakeAppend(before, more, attempt, attempt, 1, 1);
      Regroup(start, before, more);
      steps := before + more;
    }

    /** initializeChannel. */
    method InitializeChannel(src: EventSource, around: Surroundings) returns (err: Option<Error>, ghost steps: seq<Step>)
      requires src.Valid() && progress.Some? && (progress.value.stage == StageInit || progress.value.stage == StagePing)
      requires Known(log) && dev.Valid() && dev.reportSize == REPORT_SIZE
      modifies this`progress, this`log, this`channelID, src`pos
      ensures src.Valid() && old(src.pos) <= src.pos && Known(log)
      ensures progress.Some? && (progress.value.stage == StageInit || progress.value.stage == StagePing)
      ensures log == old(log) + steps && HandshakePart(steps, BUSY_RETRIES + 1, BUSY_RETRIES + 1)
      ensures err.Some? ==> channelID == old(channelID)
      ensures err == None ==> Clean(steps) && channelID != 0 && channelID != BROADCAST && channelID in Allocations(log)
      ensures err == None && Legal(dev, log) && FreshChannels(log) ==> Quiet(dev, log, channelID)
      ensures !closing ==> Agrees(if err == None then Ok(channelID) else Err(err.value), src.Pending(),
                                  Handshake(Attempts(inputId, around), 0, old(src.Pending())))
    {
      err, steps := RetryHandshake(src, around, Attempts(inputId, around));
    }

    /**
     One exchange. The steps it adds to the log are a handshake part `hs`, the request's `sends` and the events
     `seen` while reading the response.
     */
    method Exchange(command: Byte, payload: seq<Byte>, around: Surroundings)
      returns (r: ExchangeResult, ghost hs: seq<Step>, ghost sends: seq<Step>, ghost seen: seq<Event>)
      requires Valid() && command != KEEPALIVE && command != ERROR
      modifies this
      ensures Valid()
      ensures log == old(log) + hs + sends + SeenSteps(seen)
      ensures HandshakePart(hs, BUSY_RETRIES + 1, BUSY_RETRIES + 1) && (old(channelID) != 0 ==> hs == [] && channelID == old(channelID))
      ensures Careful(hs + sends + SeenSteps(seen))
      ensures (Face(channelID, closing), EndingOf(r)) == ExchangeEnding(inputId, old(Face(channelID, closing)), around, command, payload)
      ensures r.Rejected? ==> log == old(log)
      ensures !r.Rejected? ==>
                var packets := Packets(Codec(channelID, command, REPORT_SIZE), payload);
                && SendsOf(packets, sends)
                && (r.Response? ==> |sends| == |packets| && AllDelivered(sends))
                && (r.Failed? ==> Evidence(r.progress, r.cause, packets, sends))
      ensures r.Response? && Legal(dev, log) && FreshChannels(log) ==>
                && Answers(dev, channelID, Started(old(log) + hs, channelID), command, r.payload)
                && Started(log, channelID) == Started(old(log) + hs, channelID) + 1
    {
      hs, sends, seen := [], [], [];
      assert log == old(log) + hs + sends + SeenSteps(seen);
      var src := new EventSource(around.script);
      var refused := Admit(src, around, command, payload);
      if refused.Some? {
        return Rejected(refused.value), hs, sends, seen;
      }
      r, hs, sends, seen := Transact(src, around, command, payload);
    }

    /** Everything an exchange refuses before it owns the transaction, in the order it refuses it. */
    method Admit(src: EventSource, around: Surroundings, command: Byte, payload: seq<Byte>) returns (refused: Option<Error>)
      requires src.Valid() && src.Pending() == around.script
      modifies this`closing
      ensures refused == Refusal(old(closing), around, command, payload)
      ensures closing == (old(closing) || RefusedLate(around, command, payload))
    {
      if around.arrival == NoContext {
        return Some(InvalidArgument);
      }
      var codec := NewCodec(1, command, REPORT_SIZE);
      if codec.Err? {
        return Some(FramingFailure(codec.error));
      }
      var trial := Fragment(codec.value, payload);
      if trial.Err? {
        return Some(FramingFailure(trial.error));
      }
      var expired := src.Expired();
      if expired || around.arrival == CanceledInQueue {
        return Some(ContextDone);
      }
      if around.arrival == CanceledLate {
        Retire();
        return Some(ContextDone);
      }
      if closing {
        return Some(Closed);
      }
      refused := None;
    }

    /** The transaction itself: a channel if there is none yet, then the request. */
    method Transact(src: EventSource, around: Surroundings, command: Byte, payload: seq<Byte>)
      returns (r: ExchangeResult, ghost hs: seq<Step>, ghost sends: seq<Step>, ghost seen: seq<Event>)
      requires Valid() && src.Valid() && src.Pending() == around.script && !closing
      requires command >= 0x80 && command != KEEPALIVE && command != ERROR && |payload| <= MaxPayloadSize(REPORT_SIZE)
      modifies this, src`pos
      ensures Valid()
      ensures log == old(log) + hs + sends + SeenSteps(seen) && !r.Rejected?
      ensures HandshakePart(hs, BUSY_RETRIES + 1, BUSY_RETRIES + 1) && (old(channelID) != 0 ==> hs == [] && channelID == old(channelID))
      ensures Careful(hs + sends + SeenSteps(seen))
      ensures src.Valid() && (closing <==> (r.Failed? && !r.cause.DeviceError?) || src.AtShut())
      ensures var (channel, o) := Transaction(inputId, old(channelID), around, command, payload);
              channelID == channel && Agrees(ResultOf(r), src.Pending(), o)
      ensures var packets := Packets(Codec(channelID, command, REPORT_SIZE), payload);
              && SendsOf(packets, sends)
              && (r.Response? ==> |sends| == |packets| && AllDelivered(sends))
              && (r.Failed? ==> Evidence(r.progress, r.cause, packets, sends))
      ensures r.Response? && Legal(dev, log) && FreshChannels(log) ==>
                && Answers(dev, channelID, Started(old(log) + hs, channelID), command, r.payload)
                && Started(log, channelID) == Started(old(log) + hs, channelID) + 1
    {
      hs, sends, seen := [], [], [];
      progress := Some(Progress(StageInit, 0, NotSubmitted, false));
      if channelID == 0 {
        var err: Option<Error>;
        err, hs := InitializeChannel(src, around);
        if err.Some? {
          assert log == old(log) + hs + [] + SeenSteps([]);
          r := Conclude(err.value);
          ObserveClose(src);
          return;
        }
      }
      assert log == old(log) + hs;
      r, sends, seen := SendRequest(src, command, payload);
      CarefulSends(Packets(Codec(channelID, command, REPORT_SIZE), payload), sends, seen);
      ExchangeEffect(dev, old(log), hs, sends, seen, log);
      ObserveClose(src);
    }

    /** A Close by another caller during the transaction has set the flag, whatever became of the transaction. */
    method ObserveClose(src: EventSource)
      requires src.Valid()
      modifies this`closing
      ensures closing == (old(closing) || src.AtShut())
    {
      if src.AtShut() {
        closing := true;
      }
    }

    /** The deferred conclusion of a failed exchange: evidence, and retirement unless the device answered. */
    method Conclude(cause: Error) returns (r: ExchangeResult)
      requires progress.Some?
      modifies this`progress, this`closing
      ensures progress == None && r.Failed? && r.cause == cause
      ensures var p := old(progress).value;
              if cause.DeviceError? then closing == old(closing) && r.progress == p
              else closing && r.progress == p.(ambiguous := p.ambiguous || p.packets > 0)
    {
      var p := progress.value;
      progress := None;
      if !cause.DeviceError? {
        p := p.(ambiguous := p.ambiguous || p.packets > 0);
        Retire();
      }
      r := Failed(p, cause);
    }

    /** The application half of an exchange, on an allocated channel. */
    method SendRequest(src: EventSource, command: Byte, payload: seq<Byte>)
      returns (r: ExchangeResult, ghost sends: seq<Step>, ghost seen: seq<Event>)
      requires src.Valid() && !closing && channelID != BROADCAST && channelID in Allocations(log)
      requires dev.Valid() && dev.reportSize == REPORT_SIZE && Known(log)
      requires command >= 0x80 && command != KEEPALIVE && command != ERROR && |payload| <= MaxPayloadSize(REPORT_SIZE)
      modifies this`progress, this`closing, this`log, src`pos
      ensures src.Valid() && log == old(log) + sends + SeenSteps(seen) && progress == None && !r.Rejected?
      ensures closing <==> r.Failed? && !r.cause.DeviceError?
      ensures Agrees(ResultOf(r), src.Pending(), Request(inputId, channelID, command, payload, old(src.Pending())))
      ensures var packets := Packets(Codec(channelID, command, REPORT_SIZE), payload);
              && SendsOf(packets, sends)
              && (r.Response? ==> |sends| == |packets| && AllDelivered(sends))
              && (r.Failed? ==> Evidence(r.progress, r.cause, packets, sends))
      ensures Known(log) && channelID in Allocations(log)
      ensures Legal(dev, log) && Quiet(dev, old(log), channelID) && !closing ==> Quiet(dev, log, channelID)
      ensures Legal(dev, log) && Quiet(dev, old(log), channelID) && r.Response? ==>
                && Answers(dev, channelID, Started(old(log), channelID), command, r.payload)
                && Started(log, channelID) == Started(old(log), channelID) + 1
    {
      var response: Result<seq<Byte>, Error>;
      response, sends, seen := RequestMessage(src, command, payload);
      if response.Err? {
        ghost var before := progress.value;
        r := Conclude(response.error);
        RequestEvidence(Packets(Codec(channelID, command, REPORT_SIZE), payload), sends, before, r.progress, r.cause);
        return;
      }
      progress := None;
      r := Response(response.value);
    }

    /** The request's packets and the reading of its response, before any conclusion is drawn. */
    method RequestMessage(src: EventSource, command: Byte, payload: seq<Byte>)
      returns (response: Result<seq<Byte>, Error>, ghost sends: seq<Step>, ghost seen: seq<Event>)
      requires src.Valid() && channelID != BROADCAST && channelID in Allocations(log)
      requires dev.Valid() && dev.reportSize == REPORT_SIZE && Known(log)
      requires command >= 0x80 && command != KEEPALIVE && command != ERROR && |payload| <= MaxPayloadSize(REPORT_SIZE)
      modifies this`progress, this`log, src`pos
      ensures src.Valid() && log == old(log) + sends + SeenSteps(seen) && Known(log) && channelID in Allocations(log)
      ensures !closing ==> Agrees(response, src.Pending(), Request(inputId, channelID, command, payload, old(src.Pending())))
      ensures var packets := Packets(Codec(channelID, command, REPORT_SIZE), payload);
              && SendsOf(packets, sends)
              && (response.Ok? ==> |sends| == |packets| && AllDelivered(sends))
              && progress.Some?
              && var q := RecordedAll(Progress(StageRequest, 0, NotSubmitted, false), sends);
              && (progress.value == q || progress.value == q.(stage := StageResponse))
              && (progress.value.stage != StageRequest ==> |sends| == |packets| && AllDelivered(sends))
      ensures Legal(dev, log) && Quiet(dev, old(log), channelID) && (response.Ok? || response.error.DeviceError?) ==> Quiet(dev, log, channelID)
      ensures Legal(dev, log) && Quiet(dev, old(log), channelID) && response.Ok? ==>
                && Answers(dev, channelID, Started(old(log), channelID), command, response.value)
                && Started(log, channelID) == Started(old(log), channelID) + 1
    {
      progress := Some(Progress(StageRequest, 0, NotSubmitted, false));
      response, sends, seen := ExchangeMessage(src, Port(inputId, REPORT_SIZE, false), channelID, command, payload);
      RequestEffect(dev, Codec(channelID, command, REPORT_SIZE), payload, old(log), sends, seen, log, response);
    }

    /** One public call. A response carries a ticket: the channel and number of its request. */
    method Perform(call: Call) returns (r: ExchangeResult, ghost ticket: (U32, nat), ghost steps: seq<Step>)
      requires Valid()
      modifies this
      ensures Valid() && log == old(log) + steps
      ensures (Face(channelID, closing), EndingOf(r)) == CallEnding(inputId, old(Face(channelID, closing)), call)
      ensures r.Rejected? ==> log == old(log)
      ensures r.Response? && Legal(dev, log) && FreshChannels(log) ==>
                Ticketed(dev, call, r, ticket, log, |old(log)|, |log|) && Started(old(log), ticket.0) <= ticket.1
    {
      ticket, steps := (channelID, 0), [];
      assert log == old(log) + steps;
      if call.Close? {
        Retire();
        return Rejected(Closed), ticket, steps;
      }
      var command := call.Wire();
      if call.HID? && !ValidCommand(call.command) {
        return Rejected(FramingFailure(InvalidCommand)), ticket, steps;
      }
      var payload := call.Body();
      ghost var hs, sends, seen;
      r, hs, sends, seen := Exchange(command, payload, call.around);
      ticket, steps := (channelID, Started(old(log) + hs, channelID)), hs + sends + SeenSteps(seen);
      Regroup(old(log) + hs, sends, SeenSteps(seen));
      Regroup(old(log), hs, sends + SeenSteps(seen));
      Regroup(hs, sends, SeenSteps(seen));
      StartedGrows(old(log), hs, channelID);
      if r.Response? {
        AskedHere(call, ticket, old(log), hs, sends, seen, log);
      }
    }

    /**
     Any sequence of public calls, each with its own context and environment. The log from `marks[i]` to
     `marks[i + 1]` is what call i did.
     */
    method Run(calls: seq<Call>) returns (results: seq<ExchangeResult>, ghost tickets: seq<(U32, nat)>, ghost marks: seq<nat>)
      requires Valid()
      modifies this
      ensures Valid() && |results| == |tickets| == |calls|
      ensures Face(channelID, closing) == FaceAfter(Turns(inputId), old(Face(channelID, closing)), calls)
      ensures EndingsOf(Turns(inputId), old(Face(channelID, closing)), calls, Endings(results))
      ensures Windows(marks, |calls|, |old(log)|, |log|) && old(log) <= log
      ensures Paired(dev, calls, results, tickets, marks, log)
    {
      results, tickets, marks := RunAll(calls, Turns(inputId));
    }

    /** The calls one by one, each making of the session and ending as `turns` says. */
    method RunAll(calls: seq<Call>, ghost turns: (Face, Call) -> (Face, Ending))
      returns (results: seq<ExchangeResult>, ghost tickets: seq<(U32, nat)>, ghost marks: seq<nat>)
      requires forall face, call {:trigger CallEnding(inputId, face, call)} :: CallEnding(inputId, face, call) == turns(face, call)
      requires Valid()
      modifies this
      ensures Valid() && |results| == |tickets| == |calls|
      ensures Face(channelID, closing) == FaceAfter(turns, old(Face(channelID, closing)), calls)
      ensures EndingsOf(turns, old(Face(channelID, closing)), calls, Endings(results))
      ensures Windows(marks, |calls|, |old(log)|, |log|) && old(log) <= log
      ensures Paired(dev, calls, results, tickets, marks, log)
    {
      results, tickets, marks := [], [], [|log|];
      ghost var start, first := Face(channelID, closing), log;
      for i := 0 to |calls|
        invariant |results| == |tickets| == i && Ran(calls[..i], results, tickets, marks, turns, start, first)
      {
        ghost var done := calls[..i];
        assert calls[..i + 1] == done + [calls[i]];
        ghost var ticket;
        var r;
        r, ticket := PerformTurn(calls[i], done, results, tickets, marks, turns, start, first);
        results, tickets, marks := results + [r], tickets + [ticket], marks + [|log|];
      }
      assert calls[..|calls|] == calls;
    }

    /** These calls have been performed since the log was `first`, with these results, paired and as `turns` says. */
    ghost predicate Ran(calls: seq<Call>, results: seq<ExchangeResult>, tickets: seq<(U32, nat)>, marks: seq<nat>,
                        turns: (Face, Call) -> (Face, Ending), start: Face, first: seq<Step>)
      reads this
    {
      && Valid() && |calls| == |results| == |tickets| && first <= log && Windows(marks, |calls|, |first|, |log|)
      && Face(channelID, closing) == FaceAfter(turns, start, calls) && EndingsOf(turns, start, calls, Endings(results))
      && Paired(dev, calls, results, tickets, marks, log)
    }

    method PerformTurn(call: Call, ghost calls: seq<Call>, ghost results: seq<ExchangeResult>, ghost tickets: seq<(U32, nat)>, ghost marks: seq<nat>,
                       ghost turns: (Face, Call) -> (Face, Ending), ghost start: Face, ghost first: seq<Step>)
      returns (r: ExchangeResult, ghost ticket: (U32, nat))
      requires forall face, one {:trigger CallEnding(inputId, face, one)} :: CallEnding(inputId, face, one) == turns(face, one)
      requires Ran(calls, results, tickets, marks, turns, start, first)
      modifies this
      ensures Ran(calls + [call], results + [r], tickets + [ticket], marks + [|log|], turns, start, first)
    {
      EndingsSnoc(turns, start, calls, Endings(results), call);
      r, ticket := PerformNext(call, calls, results, tickets, marks);
      assert Endings(results + [r]) == Endings(results) + [EndingOf(r)];
    }

    /** One more call after those already paired. */
    method PerformNext(call: Call, ghost calls: seq<Call>, ghost results: seq<ExchangeResult>, ghost tickets: seq<(U32, nat)>, ghost marks: seq<nat>)
      returns (r: ExchangeResult, ghost ticket: (U32, nat))
      requires Valid() && |calls| == |results| == |tickets| == |marks| - 1 && marks[|calls|] == |log|
      requires Paired(dev, calls, results, tickets, marks, log)
      modifies this
      ensures Valid() && old(log) <= log
      ensures (Face(channelID, closing), EndingOf(r)) == CallEnding(inputId, old(Face(channelID, closing)), call)
      ensures Paired(dev, calls + [call], results + [r], tickets + [ticket], marks + [|log|], log)
    {
      ghost var before, steps := log, [];
      r, ticket, steps := Perform(call);
      PairedExtend(dev, calls, results, tickets, marks, before, steps, call, r, ticket, log);
    }
  }

  /** Consecutive windows of a log: the k-th of n starts at `marks[k]`, and together they span `lo` to `hi`. */
  predicate Windows(marks: seq<nat>, n: nat, lo: nat, hi: nat) {
    && |marks| == n + 1 && marks[0] == lo && marks[n] == hi
    && forall i, j :: 0 <= i <= j <= n ==> marks[i] <= marks[j]
  }

  /** Within the window the whole request of the call was sent, once, as the request of this number on this channel. */
  ghost predicate Asked(call: Call, ticket: (U32, nat), log: seq<Step>, lo: nat, hi: nat) {
    exists from: nat :: AskedAt(call, ticket, log, lo, hi, from)
  }

  ghost predicate AskedAt(call: Call, ticket: (U32, nat), log: seq<Step>, lo: nat, hi: nat, from: nat) {
    && Unsendable(call.Wire(), call.Body()) == None
    && SentAt(Packets(Codec(ticket.0, call.Wire(), REPORT_SIZE), call.Body()), ticket, log, lo, hi, from)
  }

  ghost predicate SentAt(packets: seq<Packet>, ticket: (U32, nat), log: seq<Step>, lo: nat, hi: nat, from: nat) {
    && lo <= from && from + |packets| <= hi <= |log|
    && Started(log[..from], ticket.0) == ticket.1
    && SendsOf(packets, log[from..from + |packets|]) && AllDelivered(log[from..from + |packets|])
  }

  /** The response is the device's answer to the request this call sent in its window. */
  ghost predicate Ticketed(dev: Device, call: Call, r: ExchangeResult, ticket: (U32, nat), log: seq<Step>, lo: nat, hi: nat)
    requires r.Response?
  {
    && Answers(dev, ticket.0, ticket.1, call.Wire(), r.payload) && Asked(call, ticket, log, lo, hi)
    && ticket.1 < Started(log, ticket.0)
  }

  /**
   Against a device whose answers explain the log, every response is the device's answer to the request
   that very call sent, and later responses on a channel answer later requests.
   */
  ghost predicate Paired(dev: Device, calls: seq<Call>, results: seq<ExchangeResult>, tickets: seq<(U32, nat)>, marks: seq<nat>, log: seq<Step>)
    requires |calls| == |results| == |tickets| == |marks| - 1
  {
    Legal(dev, log) && FreshChannels(log) ==>
      && (forall i :: 0 <= i < |results| && results[i].Response? ==>
                        Ticketed(dev, calls[i], results[i], tickets[i], log, marks[i], marks[i + 1]))
      && (forall i, j :: 0 <= i < j < |results| && results[i].Response? && results[j].Response? && tickets[i].0 == tickets[j].0 ==>
                           tickets[i].1 < tickets[j].1)
  }

  lemma AskedHere(call: Call, ticket: (U32, nat), log: seq<Step>, hs: seq<Step>, sends: seq<Step>, seen: seq<Event>, after: seq<Step>)
    requires Unsendable(call.Wire(), call.Body()) == None && after == log + hs + sends + SeenSteps(seen)
    requires ticket.1 == Started(log + hs, ticket.0)
    requires var packets := Packets(Codec(ticket.0, call.Wire(), REPORT_SIZE), call.Body());
             SendsOf(packets, sends) && |sends| == |packets| && AllDelivered(sends)
    ensures Asked(call, ticket, after, |log|, |after|)
  {
    var from := |log + hs|;
    assert after[..from] == log + hs && after[from..from + |sends|] == sends;
    assert AskedAt(call, ticket, after, |log|, |after|, from);
  }

  lemma AskedStays(call: Call, ticket: (U32, nat), log: seq<Step>, more: seq<Step>, lo: nat, hi: nat)
    requires Asked(call, ticket, log, lo, hi)
    ensures Asked(call, ticket, log + more, lo, hi)
  {
    var from: nat :| AskedAt(call, ticket, log, lo, hi, from);
    SentStays(Packets(Codec(ticket.0, call.Wire(), REPORT_SIZE), call.Body()), ticket, log, more, lo, hi, from);
    assert AskedAt(call, ticket, log + more, lo, hi, from);
  }

  lemma SentStays(packets: seq<Packet>, ticket: (U32, nat), log: seq<Step>, more: seq<Step>, lo: nat, hi: nat, from: nat)
    requires SentAt(packets, ticket, log, lo, hi, from)
    ensures SentAt(packets, ticket, log + more, lo, hi, from)
  {
    assert (log + more)[..from] == log[..from];
    assert (log + more)[from..from + |packets|] == log[from..from + |packets|];
  }

  lemma PairedExtend(dev: Device, calls: seq<Call>, results: seq<ExchangeResult>, tickets: seq<(U32, nat)>, marks: seq<nat>, log: seq<Step>,
                     steps: seq<Step>, call: Call, r: ExchangeResult, ticket: (U32, nat), after: seq<Step>)
    requires |calls| == |results| == |tickets| == |marks| - 1 && Paired(dev, calls, results, tickets, marks, log) && after == log + steps
    requires marks[|marks| - 1] == |log|
    requires Legal(dev, after) && FreshChannels(after) && r.Response? ==>
               Ticketed(dev, call, r, ticket, after, |log|, |after|) && Started(log, ticket.0) <= ticket.1
    ensures Paired(dev, calls + [call], results + [r], tickets + [ticket], marks + [|after|], after)
  {
    if Legal(dev, after) && FreshChannels(after) {
      LegalPrefix(dev, log, steps);
      FreshPrefix(log, steps);
      forall i | 0 <= i < |results| && results[i].Response?
        ensures Ticketed(dev, calls[i], results[i], tickets[i], after, marks[i], marks[i + 1])
        ensures tickets[i].1 < Started(log, tickets[i].0)
      {
        StartedGrows(log, steps, tickets[i].0);
        AskedStays(calls[i], tickets[i], log, steps, marks[i], marks[i + 1]);
      }
    }
  }

  lemma EvidenceHolds(start: Progress, packets: seq<Packet>, sends: seq<Step>, p: Progress, cause: Error)
    requires start == Progress(StageRequest, 0, NotSubmitted, false) && SendsOf(packets, sends)
    requires var q := RecordedAll(start, sends);
             && p.packets == q.packets && p.outcome == q.outcome
             && p.ambiguous == (q.ambiguous || (!cause.DeviceError? && q.packets > 0))
    requires p.stage == StageRequest || (p.stage == StageResponse && |sends| == |packets| && AllDelivered(sends))
    ensures Evidence(p, cause, packets, sends)
  {
    RecordedExact(start, packets, sends);
  }

  lemma RequestEvidence(packets: seq<Packet>, sends: seq<Step>, before: Progress, after: Progress, cause: Error)
    requires SendsOf(packets, sends)
    requires var q := RecordedAll(Progress(StageRequest, 0, NotSubmitted, false), sends); before == q || before == q.(stage := StageResponse)
    requires before.stage != StageRequest ==> |sends| == |packets| && AllDelivered(sends)
    requires after == if cause.DeviceError? then before else before.(ambiguous := before.ambiguous || before.packets > 0)
    ensures Evidence(after, cause, packets, sends)
  {
    RecordedStage(Progress(StageRequest, 0, NotSubmitted, false), sends);
    EvidenceHolds(Progress(StageRequest, 0, NotSubmitted, false), packets, sends, after, cause);
  }

  /** After a request and one exchange on a quiet channel, the channel is quiet again. */
  lemma RequestEffect(dev: Device, c: Codec, payload: seq<Byte>, log: seq<Step>, sends: seq<Step>, seen: seq<Event>,
                      after: seq<Step>, response: Result<seq<Byte>, Error>)
    requires dev.Valid() && dev.reportSize == REPORT_SIZE && c.reportSize == REPORT_SIZE && c.Valid()
    requires c.command != KEEPALIVE && c.command != ERROR && |payload| <= MaxPayloadSize(REPORT_SIZE)
    requires c.channel != BROADCAST && c.channel in Allocations(log) && Known(log)
    requires after == log + sends + SeenSteps(seen) && SendsOf(Packets(c, payload), sends)
    requires response.Ok? || response.error.DeviceError? ==> |sends| == |Packets(c, payload)| && AllDelivered(sends)
    requires response.Ok? ==> HeardExchange(c, seen, response.value)
    requires response.Err? && response.error.DeviceError? ==> HeardExchange(c.(command := ERROR), seen, [response.error.code])
    ensures Known(after) && c.channel in Allocations(after)
    ensures Legal(dev, after) && Quiet(dev, log, c.channel) && (response.Ok? || response.error.DeviceError?) ==>
              Quiet(dev, after, c.channel) && Started(after, c.channel) == Started(log, c.channel) + 1
    ensures Legal(dev, after) && Quiet(dev, log, c.channel) && response.Ok? ==>
              Answers(dev, c.channel, Started(log, c.channel), c.command, response.value)
  {
    var steps := sends + SeenSteps(seen);
    assert after == log + steps;
    forall i | 0 <= i < |sends| ensures |sends[i].packet| > 4 && Be32(sends[i].packet) == c.channel {
      PacketHeaders(c, payload, i);
    }
    KnownAppend(log, steps);
    SelectAppend(AllocatedIn, log, steps);
    if Legal(dev, after) && Quiet(dev, log, c.channel) {
      if response.Ok? {
        AnswerBelongs(dev, c, c, payload, log, sends, seen, after, response.value);
      } else if response.error.DeviceError? {
        AnswerBelongs(dev, c.(command := ERROR), c, payload, log, sends, seen, after, [response.error.code]);
      }
    }
  }

  lemma ExchangeEffect(dev: Device, log: seq<Step>, hs: seq<Step>, sends: seq<Step>, seen: seq<Event>, after: seq<Step>)
    requires Clean(hs) && after == log + hs + sends + SeenSteps(seen) && Careful(sends + SeenSteps(seen))
    ensures Careful(hs + sends + SeenSteps(seen))
    ensures Legal(dev, after) ==> Legal(dev, log + hs)
    ensures FreshChannels(after) ==> FreshChannels(log + hs)
  {
    var steps := sends + SeenSteps(seen);
    CarefulAppend(hs, steps);
    assert hs + sends + SeenSteps(seen) == hs + steps;
    assert after == log + hs + steps;
    if Legal(dev, after) {
      LegalPrefix(dev, log + hs, steps);
    }
    if FreshChannels(after) {
      FreshPrefix(log + hs, steps);
    }
  }

  lemma AttemptEffect(dev: Device, log: seq<Step>, steps: seq<Step>, more: seq<Step>, after: seq<Step>)
    requires HandshakePart(steps, 1, 0) && Clean(steps) && HandshakePart(more, 0, 1) && after == log + steps + more
    ensures after == log + (steps + more) && HandshakePart(steps + more, 1, 1)
    ensures Clean(more) ==> Clean(steps + more)
    ensures Legal(dev, after) ==> Legal(dev, log + steps)
    ensures FreshChannels(after) ==> FreshChannels(log + steps)
  {
    HandshakeAppend(steps, more, 1, 0, 0, 1);
    assert log + steps + more == log + (steps + more);
    if Legal(dev, after) {
      LegalPrefix(dev, log + steps, more);
    }
    if FreshChannels(after) {
      FreshPrefix(log + steps, more);
    }
  }

  lemma AllocateEffect(log: seq<Step>, nonce: seq<Byte>, sends: seq<Step>, seen: seq<Event>, after: seq<Step>)
    requires |nonce| == 8 && SendsOf(Packets(Codec(BROADCAST, INIT, REPORT_SIZE), nonce), sends)
    requires Known(log) && after == log + sends + SeenSteps(seen)
    ensures var steps := sends + SeenSteps(seen);
            after == log + steps && HandshakePart(steps, 1, 0) && (AllDelivered(sends) ==> Clean(steps))
    ensures Known(after)
    ensures forall channel :: channel in Allocations(SeenSteps(seen)) ==> channel in Allocations(after)
    ensures FreshChannels(after) ==>
              forall channel :: channel in Allocations(SeenSteps(seen)) && channel != BROADCAST ==> Started(after, channel) == 0
  {
    var steps := sends + SeenSteps(seen);
    HandshakeSends(Codec(BROADCAST, INIT, REPORT_SIZE), nonce, sends, seen);
    assert log + sends + SeenSteps(seen) == log + steps;
    KnownAppend(log, steps);
    SelectAppend(AllocatedIn, log + sends, SeenSteps(seen));
    if FreshChannels(after) {
      forall channel | channel in Allocations(SeenSteps(seen)) && channel != BROADCAST
        ensures Started(after, channel) == 0
      {
        NewChannelIsUnused(log, sends, seen, after, channel);
      }
    }
  }

  /** An echoed PING on a channel never used before leaves nothing outstanding there. */
  lemma ProbedIsQuiet(dev: Device, log: seq<Step>, c: Codec, sends: seq<Step>, seen: seq<Event>, after: seq<Step>)
    requires c == Codec(c.channel, PING, REPORT_SIZE) && dev.Valid() && dev.reportSize == REPORT_SIZE && c.channel != BROADCAST
    requires SendsOf(Packets(c, []), sends) && |sends| == |Packets(c, [])| && AllDelivered(sends) && HeardExchange(c, seen, [])
    requires after == log + sends + SeenSteps(seen) && Legal(dev, after) && Started(log, c.channel) == 0
    ensures Quiet(dev, after, c.channel)
  {
    SendsStartOne(c, [], sends);
    Appends(log, sends, seen, after, c.channel);
    Regroup(log, sends, SeenSteps(seen));
    UnusedIsQuiet(dev, log, sends + SeenSteps(seen), c.channel);
    AnswerBelongs(dev, c, c, [], log, sends, seen, after, []);
  }

  lemma ProbeEffect(dev: Device, log: seq<Step>, channel: U32, sends: seq<Step>, seen: seq<Event>, after: seq<Step>)
    requires var c := Codec(channel, PING, REPORT_SIZE); SendsOf(Packets(c, []), sends)
    requires dev.Valid() && dev.reportSize == REPORT_SIZE && channel != BROADCAST && channel in Allocations(log)
    requires Known(log) && after == log + sends + SeenSteps(seen)
    ensures var steps := sends + SeenSteps(seen);
            after == log + steps && HandshakePart(steps, 0, 1) && (AllDelivered(sends) ==> Clean(steps))
    ensures Known(after) && channel in Allocations(after)
    ensures var c := Codec(channel, PING, REPORT_SIZE);
            (|sends| == |Packets(c, [])| && AllDelivered(sends) && HeardExchange(c, seen, []) &&
             Legal(dev, after) && Started(log, channel) == 0) ==> Quiet(dev, after, channel)
  {
    var c, steps := Codec(channel, PING, REPORT_SIZE), sends + SeenSteps(seen);
    HandshakeSends(c, [], sends, seen);
    assert log + sends + SeenSteps(seen) == log + steps;
    KnownAppend(log, steps);
    SelectAppend(AllocatedIn, log, steps);
    if |sends| == |Packets(c, [])| && AllDelivered(sends) && HeardExchange(c, seen, []) &&
       Legal(dev, after) && Started(log, channel) == 0 {
      ProbedIsQuiet(dev, log, c, sends, seen, after);
    }
  }

  lemma {:induction false} RecordedStage(p: Progress, sends: seq<Step>)
    requires forall i :: 0 <= i < |sends| ==> sends[i].Sent?
    ensures RecordedAll(p, sends).stage == p.stage
    decreases |sends|
  {
    if sends != [] {
      RecordedStage(p, sends[..|sends| - 1]);
    }
  }

  lemma SeenAppend(xs: seq<Event>, ys: seq<Event>)
    ensures SeenSteps(xs + ys) == SeenSteps(xs) + SeenSteps(ys)
  {
  }

  /** A response or a device error comes from exactly one exchange among the consumed events. */
  lemma ReadIsExchange(port: Port, c: Codec, evs: seq<Event>, rest: seq<Event>, seen: seq<Event>)
    requires c.Valid() && c.reportSize == port.reportSize && c.command != KEEPALIVE && c.command != ERROR
    requires |rest| <= |evs| && seen == evs[..|evs| - |rest|]
    ensures var r := ReadMessage(port, c, evs);
            && (r.Got? && r.rest == rest ==> HeardExchange(c, seen, r.value))
            && (r.Stop? && r.left == rest && r.error.DeviceError? ==> HeardExchange(c.(command := ERROR), seen, [r.error.code]))
  {
    var r := ReadMessage(port, c, evs);
    if (r.Got? && r.rest == rest) || (r.Stop? && r.left == rest && r.error.DeviceError?) {
      var command, messages, last, payload, rest' := ReadMeans(port, c, evs);
      assert rest' == rest;
      var n := DeliversConsumes(port, c.channel, evs, Flatten(messages) + last, rest);
      assert n == |evs| - |rest|;
      assert OnChannel(c.(command := command).channel, seen) == Flatten(messages) + last;
      assert HeardExchange(c.(command := command), seen, payload);
      assert c.(command := c.command) == c;
      if r.Stop? {
        assert payload == [r.error.code];
      }
    }
  }
}
