/**
 What a session returns, said of the script: an answered request returns its answer, a CTAPHID ERROR returns
 its code, and a handshake gets its channel after any permitted number of lost or busy attempts.
 */
module SessionAnswers {
  import opened Values
  import opened Framing
  import opened MessageReader
  import opened SessionOutcome

  /** The connection confirms n reports one after another. */
  function Confirmations(n: nat): seq<Event> {
    seq(n, _ => WriteDone(Completed, false))
  }

  lemma {:induction false} ConfirmedWrites(n: nat, evs: seq<Event>)
    ensures Writes(n, Confirmations(n) + evs) == Got((), evs)
  {
    var all := Confirmations(n) + evs;
    if n > 0 {
      assert all[0] == WriteDone(Completed, false) && all[1..] == Confirmations(n - 1) + evs;
      ConfirmedWrites(n - 1, evs);
    } else {
      assert all == evs;
    }
  }

  /** Complete keepalives and then one message of this command arrive on the channel, through any other traffic. */
  ghost predicate Arrives(port: Port, c: Codec, command: Byte, evs: seq<Event>, payload: seq<Byte>, rest: seq<Event>)
    requires c.Valid() && command >= 0x80
  {
    exists n, messages, last :: Explains(port, c, command, evs, n, messages, last, payload, rest)
  }

  lemma ArrivedIsRead(port: Port, c: Codec, command: Byte, evs: seq<Event>, payload: seq<Byte>, rest: seq<Event>)
    requires c.Valid() && c.reportSize == port.reportSize && c.command != KEEPALIVE && c.command != ERROR
    requires command == c.command || (command == ERROR && |payload| == 1)
    requires Arrives(port, c, command, evs, payload, rest)
    ensures ReadMessage(port, c, evs) == if command == c.command then Got(payload, rest) else Stop(DeviceError(payload[0]), rest)
  {
    ReadMessageExact(port, c, command, evs, payload, rest);
  }

  /** Fragmented keepalives and then one fragmented message arrive, through any accepted reports of other channels. */
  lemma FragmentsArrive(port: Port, c: Codec, command: Byte, evs: seq<Event>, n: nat, keepalives: seq<seq<Byte>>, payload: seq<Byte>)
    requires c.Valid() && c.reportSize == port.reportSize && command >= 0x80
    requires |payload| <= 0xffff && forall i :: 0 <= i < |keepalives| ==> |keepalives[i]| <= 0xffff
    requires n <= |evs| && StretchOf(port, c.channel, evs, n, evs[n..])
    requires OnChannel(c.channel, evs[..n]) == Flatten(KeepaliveMessages(c, keepalives)) + Packets(c.(command := command), payload)
    ensures Arrives(port, c, command, evs, payload, evs[n..])
  {
    var messages, d := KeepaliveMessages(c, keepalives), c.(command := command);
    forall i | 0 <= i < |messages| ensures IsKeepalive(d, messages[i]) {
      RoundTrip(c.(command := KEEPALIVE), keepalives[i]);
      assert d.(command := KEEPALIVE) == c.(command := KEEPALIVE);
    }
    RoundTrip(d, payload);
    assert Explains(port, c, command, evs, n, messages, Packets(d, payload), payload, evs[n..]);
  }

  // ----- The request -----------------------------------------------------------------------------

  function RequestCodec(channel: U32, command: Byte): Codec {
    Codec(channel, command, REPORT_SIZE)
  }

  function RequestPort(inputId: Byte): Port {
    Port(inputId, REPORT_SIZE, false)
  }

  /** The connection confirms every report of the request, and then this message arrives on its channel. */
  ghost predicate RequestMet(inputId: Byte, channel: U32, command: Byte, payload: seq<Byte>, script: seq<Event>,
                             reply: Byte, answer: seq<Byte>, rest: seq<Event>)
    requires Unsendable(command, payload) == None && reply >= 0x80
  {
    exists evs: seq<Event> :: && script == Confirmations(|Packets(RequestCodec(channel, command), payload)|) + evs
                              && Arrives(RequestPort(inputId), RequestCodec(channel, command), reply, evs, answer, rest)
  }

  lemma RequestAnswered(inputId: Byte, channel: U32, command: Byte, payload: seq<Byte>, script: seq<Event>,
                        reply: Byte, answer: seq<Byte>, rest: seq<Event>)
    requires Unsendable(command, payload) == None && command != KEEPALIVE && command != ERROR
    requires reply == command || (reply == ERROR && |answer| == 1)
    requires RequestMet(inputId, channel, command, payload, script, reply, answer, rest)
    ensures Request(inputId, channel, command, payload, script) ==
            if reply == command then Got(answer, rest) else Stop(DeviceError(answer[0]), rest)
    ensures !ContextExpired(script)
  {
    var c := RequestCodec(channel, command);
    var n := |Packets(c, payload)|;
    var evs :| script == Confirmations(n) + evs && Arrives(RequestPort(inputId), c, reply, evs, answer, rest);
    ConfirmedWrites(n, evs);
    ArrivedIsRead(RequestPort(inputId), c, reply, evs, answer, rest);
    assert n > 0 && script[0] == WriteDone(Completed, false);
  }

  /**
   On an open session with a channel, a request whose reports are confirmed and whose answer arrives returns
   that answer, or the device's error, and the session stays open unless another caller closes it then.
   */
  lemma AnsweredExchange(inputId: Byte, face: Face, around: Surroundings, command: Byte, payload: seq<Byte>,
                         reply: Byte, answer: seq<Byte>, rest: seq<Event>)
    requires face.channel != 0 && !face.closed && around.arrival == InTime
    requires Unsendable(command, payload) == None && command != KEEPALIVE && command != ERROR
    requires reply == command || (reply == ERROR && |answer| == 1)
    requires RequestMet(inputId, face.channel, command, payload, around.script, reply, answer, rest)
    ensures ExchangeEnding(inputId, face, around, command, payload) ==
            (Face(face.channel, ShutNext(rest)), if reply == command then Answered(answer) else Broken(DeviceError(answer[0])))
  {
    RequestAnswered(inputId, face.channel, command, payload, around.script, reply, answer, rest);
  }

  // ----- The handshake ----------------------------------------------------------------------------

  /** Responses to INIT arrive until one echoes the nonce; that one names the channel. */
  ghost predicate InitReplies(inputId: Byte, nonce: Nonce, evs: seq<Event>, channel: U32, rest: seq<Event>)
    decreases |evs|
  {
    exists payload, left ::
      && InitReplyArrives(inputId, evs, payload, left)
      && if payload[..8] == nonce then channel == Be32(payload[8..]) && rest == left
         else InitReplies(inputId, nonce, left, channel, rest)
  }

  ghost predicate InitReplyArrives(inputId: Byte, evs: seq<Event>, payload: seq<Byte>, left: seq<Event>) {
    |payload| >= 17 && |left| < |evs| && Arrives(HandshakePort(inputId), InitCodec(), INIT, evs, payload, left)
  }

  /** One INIT response: taken if it echoes the nonce, passed over if not. */
  lemma InitNext(inputId: Byte, nonce: Nonce, evs: seq<Event>, payload: seq<Byte>, left: seq<Event>)
    requires InitReplyArrives(inputId, evs, payload, left)
    ensures InitResponse(inputId, nonce, evs) == if payload[..8] == nonce then Got(payload, left) else InitResponse(inputId, nonce, left)
  {
    ArrivedIsRead(HandshakePort(inputId), InitCodec(), INIT, evs, payload, left);
  }

  lemma {:induction false} InitAnswered(inputId: Byte, nonce: Nonce, evs: seq<Event>, channel: U32, rest: seq<Event>)
    requires InitReplies(inputId, nonce, evs, channel, rest)
    ensures InitTaken(InitResponse(inputId, nonce, evs), channel, rest)
    decreases |evs|
  {
    var payload, left :| && InitReplyArrives(inputId, evs, payload, left)
                         && if payload[..8] == nonce then channel == Be32(payload[8..]) && rest == left
                            else InitReplies(inputId, nonce, left, channel, rest);
    InitNext(inputId, nonce, evs, payload, left);
    if payload[..8] != nonce {
      InitAnswered(inputId, nonce, left, channel, rest);
    }
  }

  predicate InitTaken(o: Read<seq<Byte>>, channel: U32, rest: seq<Event>) {
    o.Got? && o.rest == rest && |o.value| >= 12 && Be32(o.value[8..]) == channel
  }

  /** The INIT is confirmed and answered with a usable channel. */
  ghost predicate Allocates(inputId: Byte, nonce: Nonce, script: seq<Event>, channel: U32, rest: seq<Event>) {
    && channel != 0 && channel != BROADCAST
    && exists evs: seq<Event> :: script == Confirmations(1) + evs && InitReplies(inputId, nonce, evs, channel, rest)
  }

  lemma OneReport(c: Codec, payload: seq<Byte>)
    requires c.Valid() && c.reportSize == REPORT_SIZE && |payload| <= 8
    ensures |Packets(c, payload)| == 1
  {
    assert ContinuationBodies(c, 0, payload[|payload|..]) == [];
  }

  lemma AllocateAnswered(inputId: Byte, nonce: Nonce, script: seq<Event>, channel: U32, rest: seq<Event>)
    requires Allocates(inputId, nonce, script, channel, rest)
    ensures Allocate(inputId, Some(nonce), script) == Got(channel, rest)
  {
    OneReport(InitCodec(), nonce);
    var evs :| script == Confirmations(1) + evs && InitReplies(inputId, nonce, evs, channel, rest);
    ConfirmedWrites(1, evs);
    InitAnswered(inputId, nonce, evs, channel, rest);
  }

  /** The PING is confirmed and echoed. */
  ghost predicate Echoes(inputId: Byte, channel: U32, script: seq<Event>, rest: seq<Event>) {
    exists evs: seq<Event> :: script == Confirmations(1) + evs
                              && Arrives(HandshakePort(inputId), RequestCodec(channel, PING), PING, evs, [], rest)
  }

  lemma ProbeAnswered(inputId: Byte, channel: U32, script: seq<Event>, rest: seq<Event>)
    requires Echoes(inputId, channel, script, rest)
    ensures Probe(inputId, channel, script) == Got((), rest)
  {
    var c := RequestCodec(channel, PING);
    OneReport(c, []);
    var evs :| script == Confirmations(1) + evs && Arrives(HandshakePort(inputId), c, PING, evs, [], rest);
    ConfirmedWrites(1, evs);
    ArrivedIsRead(HandshakePort(inputId), c, PING, evs, [], rest);
  }

  /** Nothing but keepalives and other channels' reports arrives before the local wait runs out. */
  ghost predicate Silence(port: Port, c: Codec, evs: seq<Event>, left: seq<Event>)
    requires c.Valid() && c.reportSize == port.reportSize
  {
    exists messages, mid: seq<Event>, n: nat ::
      && Keepalives(c, messages) && Delivers(port, c.channel, evs, Flatten(messages), mid)
      && n < |mid| && mid[n] == ReadFailed(true) && left == mid[n + 1..]
      && forall i :: 0 <= i < n ==> Accepted(port, mid[i]) && !ForChannel(c.channel, mid[i])
  }

  lemma {:induction false} SilentChannel(port: Port, channel: U32, evs: seq<Event>, n: nat)
    requires port.reportSize > 7 && port.handshake && n < |evs| && evs[n] == ReadFailed(true)
    requires forall i :: 0 <= i < n ==> Accepted(port, evs[i]) && !ForChannel(channel, evs[i])
    ensures NextOnChannel(port, channel, evs) == Stop(LocalWait, evs[n + 1..])
    decreases n
  {
    if n > 0 {
      forall i | 0 <= i < n - 1 ensures Accepted(port, evs[1..][i]) && !ForChannel(channel, evs[1..][i]) {
        assert evs[1..][i] == evs[i + 1];
      }
      assert evs[1..][n..] == evs[n + 1..];
      SilentChannel(port, channel, evs[1..], n - 1);
    }
  }

  lemma {:induction false} KeepalivesSkipped(port: Port, c: Codec, evs: seq<Event>, messages: seq<seq<Packet>>, mid: seq<Event>)
    requires c.Valid() && c.reportSize == port.reportSize && Keepalives(c, messages)
    requires Delivers(port, c.channel, evs, Flatten(messages), mid)
    ensures ReadMessage(port, c, evs) == ReadMessage(port, c, mid)
    decreases |messages|
  {
    if messages != [] {
      var between := DeliversSplit(port, c.channel, evs, messages[0], Flatten(messages[1..]), mid);
      KeepaliveSkipped(port, c, c, evs, messages[0], between);
      KeepalivesSkipped(port, c, between, messages[1..], mid);
    }
  }

  lemma SilenceIsWaited(port: Port, c: Codec, evs: seq<Event>, left: seq<Event>)
    requires c.Valid() && c.reportSize == port.reportSize && port.handshake && Silence(port, c, evs, left)
    ensures ReadMessage(port, c, evs) == Stop(LocalWait, left)
  {
    var messages, mid: seq<Event>, n: nat :|
      && Keepalives(c, messages) && Delivers(port, c.channel, evs, Flatten(messages), mid)
      && n < |mid| && mid[n] == ReadFailed(true) && left == mid[n + 1..]
      && forall i :: 0 <= i < n ==> Accepted(port, mid[i]) && !ForChannel(c.channel, mid[i]);
    KeepalivesSkipped(port, c, evs, messages, mid);
    SilentChannel(port, c.channel, mid, n);
  }

  predicate TriedAgain<T(==)>(o: Read<T>, left: seq<Event>) {
    o == Stop(LocalWait, left) || o == Stop(DeviceError(0x06), left)
  }

  /** A handshake message is confirmed, and then lost or answered with channel busy. */
  ghost predicate Unanswered(inputId: Byte, c: Codec, script: seq<Event>, left: seq<Event>)
    requires c.Valid() && c.reportSize == REPORT_SIZE
  {
    exists evs: seq<Event> ::
      && script == Confirmations(1) + evs
      && (Silence(HandshakePort(inputId), c, evs, left) || Arrives(HandshakePort(inputId), c, ERROR, evs, [0x06], left))
  }

  lemma UnansweredRead(inputId: Byte, c: Codec, script: seq<Event>, left: seq<Event>) returns (evs: seq<Event>)
    requires c.Valid() && c.reportSize == REPORT_SIZE && c.command != KEEPALIVE && c.command != ERROR && Unanswered(inputId, c, script, left)
    ensures Writes(1, script) == Got((), evs)
    ensures TriedAgain(ReadMessage(HandshakePort(inputId), c, evs), left)
  {
    evs :| script == Confirmations(1) + evs
           && (Silence(HandshakePort(inputId), c, evs, left) || Arrives(HandshakePort(inputId), c, ERROR, evs, [0x06], left));
    ConfirmedWrites(1, evs);
    if Silence(HandshakePort(inputId), c, evs, left) {
      SilenceIsWaited(HandshakePort(inputId), c, evs, left);
    } else {
      ArrivedIsRead(HandshakePort(inputId), c, ERROR, evs, [0x06], left);
    }
  }

  /** An attempt that gets its channel. */
  ghost predicate AttemptMet(inputId: Byte, nonce: Nonce, script: seq<Event>, channel: U32, rest: seq<Event>) {
    exists granted :: Allocates(inputId, nonce, script, channel, granted) && Echoes(inputId, channel, granted, rest)
  }

  /** An attempt whose INIT or PING is lost, or refused because the channel is busy. */
  ghost predicate AttemptLost(inputId: Byte, nonce: Nonce, script: seq<Event>, left: seq<Event>) {
    || Unanswered(inputId, InitCodec(), script, left)
    || exists channel, granted :: Allocates(inputId, nonce, script, channel, granted)
                                  && Unanswered(inputId, RequestCodec(channel, PING), granted, left)
  }

  lemma MetAttempt(inputId: Byte, nonce: Nonce, script: seq<Event>, channel: U32, rest: seq<Event>)
    requires AttemptMet(inputId, nonce, script, channel, rest)
    ensures Attempt(inputId, Some(nonce), script) == Got(channel, rest) && !ContextExpired(script)
  {
    var granted :| Allocates(inputId, nonce, script, channel, granted) && Echoes(inputId, channel, granted, rest);
    AllocateAnswered(inputId, nonce, script, channel, granted);
    ProbeAnswered(inputId, channel, granted, rest);
    AttemptParts(inputId, nonce, script, channel, granted);
    ConfirmedFirst(script);
  }

  /** An attempt is its INIT and then its PING. */
  lemma AttemptParts(inputId: Byte, nonce: Nonce, script: seq<Event>, channel: U32, granted: seq<Event>)
    requires Allocate(inputId, Some(nonce), script) == Got(channel, granted)
    ensures Attempt(inputId, Some(nonce), script) ==
            match Probe(inputId, channel, granted) case Stop(e, left) => Stop(e, left) case Got(_, rest) => Got(channel, rest)
  {
  }

  lemma ConfirmedFirst(script: seq<Event>)
    requires exists evs: seq<Event> :: script == Confirmations(1) + evs
    ensures !ContextExpired(script)
  {
    assert script[0] == WriteDone(Completed, false);
  }

  lemma LostInit(inputId: Byte, nonce: Nonce, script: seq<Event>, left: seq<Event>)
    requires Unanswered(inputId, InitCodec(), script, left)
    ensures TriedAgain(Allocate(inputId, Some(nonce), script), left)
  {
    OneReport(InitCodec(), nonce);
    var evs := UnansweredRead(inputId, InitCodec(), script, left);
    assert InitResponse(inputId, nonce, evs) == match ReadMessage(HandshakePort(inputId), InitCodec(), evs)
                                                case Stop(e, l) => Stop(e, l)
                                                case Got(_, _) => InitResponse(inputId, nonce, evs);
  }

  lemma LostPing(inputId: Byte, channel: U32, script: seq<Event>, left: seq<Event>)
    requires Unanswered(inputId, RequestCodec(channel, PING), script, left)
    ensures TriedAgain(Probe(inputId, channel, script), left)
  {
    OneReport(RequestCodec(channel, PING), []);
    var evs := UnansweredRead(inputId, RequestCodec(channel, PING), script, left);
  }

  lemma LostAttempt(inputId: Byte, nonce: Nonce, script: seq<Event>, left: seq<Event>)
    requires AttemptLost(inputId, nonce, script, left)
    ensures TriedAgain(Attempt(inputId, Some(nonce), script), left) && !ContextExpired(script)
  {
    if Unanswered(inputId, InitCodec(), script, left) {
      ConfirmedFirst(script);
      LostInit(inputId, nonce, script, left);
    } else {
      var channel, granted :| Allocates(inputId, nonce, script, channel, granted) && Unanswered(inputId, RequestCodec(channel, PING), granted, left);
      ConfirmedFirst(script);
      AllocateAnswered(inputId, nonce, script, channel, granted);
      AttemptParts(inputId, nonce, script, channel, granted);
      LostPing(inputId, channel, granted, left);
    }
  }

  /** From this attempt on, some attempts are lost and then one gets the channel, all within the permitted number. */
  ghost predicate Leads(inputId: Byte, around: Surroundings, attempt: nat, script: seq<Event>, channel: U32, rest: seq<Event>)
    requires attempt <= 20
    decreases 20 - attempt
  {
    && around.NonceOf(attempt).Some?
    && var nonce := around.NonceOf(attempt).value;
       || AttemptMet(inputId, nonce, script, channel, rest)
       || (attempt < 20 && exists left :: AttemptLost(inputId, nonce, script, left) && !ContextExpired(left)
                                          && Leads(inputId, around, attempt + 1, left, channel, rest))
  }

  /** Up to twenty lost or busy attempts do not keep the handshake from its channel. */
  lemma {:induction false} HandshakeAnswered(inputId: Byte, around: Surroundings, attempt: nat, script: seq<Event>, channel: U32, rest: seq<Event>)
    requires attempt <= 20 && Leads(inputId, around, attempt, script, channel, rest)
    ensures Handshake(Attempts(inputId, around), attempt, script) == Got(channel, rest) && !ContextExpired(script)
    decreases 20 - attempt
  {
    var nonce := around.NonceOf(attempt).value;
    if AttemptMet(inputId, nonce, script, channel, rest) {
      MetAttempt(inputId, nonce, script, channel, rest);
      HandshakeNext(Attempts(inputId, around), attempt, script, Ok(channel), rest);
    } else {
      var left :| AttemptLost(inputId, nonce, script, left) && !ContextExpired(left) && Leads(inputId, around, attempt + 1, left, channel, rest);
      LostAttempt(inputId, nonce, script, left);
      HandshakeNext(Attempts(inputId, around), attempt, script, Err(Attempt(inputId, Some(nonce), script).error), left);
      HandshakeAnswered(inputId, around, attempt + 1, left, channel, rest);
    }
  }

  /** The handshake ends with any other failure, and with the twenty-first. */
  lemma HandshakeEnds(attempts: (nat, seq<Event>) -> Read<U32>, attempt: nat, evs: seq<Event>, e: Error, left: seq<Event>)
    requires attempt <= 20 && !ContextExpired(evs) && attempts(attempt, evs) == Stop(e, left)
    requires (e != LocalWait && e != DeviceError(0x06)) || attempt == 20
    ensures Handshake(attempts, attempt, evs) == Stop(e, left)
  {
    HandshakeNext(attempts, attempt, evs, Err(e), left);
  }

  /** The first exchange of a session: its handshake is answered, and then its request. */
  lemma AnsweredFirstExchange(inputId: Byte, around: Surroundings, command: Byte, payload: seq<Byte>, channel: U32, granted: seq<Event>,
                              reply: Byte, answer: seq<Byte>, rest: seq<Event>)
    requires around.arrival == InTime && Leads(inputId, around, 0, around.script, channel, granted)
    requires Unsendable(command, payload) == None && command != KEEPALIVE && command != ERROR
    requires reply == command || (reply == ERROR && |answer| == 1)
    requires RequestMet(inputId, channel, command, payload, granted, reply, answer, rest)
    ensures ExchangeEnding(inputId, Face(0, false), around, command, payload) ==
            (Face(channel, ShutNext(rest)), if reply == command then Answered(answer) else Broken(DeviceError(answer[0])))
  {
    HandshakeAnswered(inputId, around, 0, around.script, channel, granted);
    FirstTransaction(inputId, around, command, payload, channel, granted);
    RequestAnswered(inputId, channel, command, payload, granted, reply, answer, rest);
    Ends(inputId, Face(0, false), around, command, payload, channel, Request(inputId, channel, command, payload, granted));
  }

  lemma FirstTransaction(inputId: Byte, around: Surroundings, command: Byte, payload: seq<Byte>, channel: U32, granted: seq<Event>)
    requires Unsendable(command, payload) == None
    requires Handshake(Attempts(inputId, around), 0, around.script) == Got(channel, granted)
    ensures Transaction(inputId, 0, around, command, payload) == (channel, Request(inputId, channel, command, payload, granted))
  {
  }

  /** How an admitted exchange ends, given its transaction. */
  lemma Ends(inputId: Byte, face: Face, around: Surroundings, command: Byte, payload: seq<Byte>, channel: U32, o: Read<seq<Byte>>)
    requires Refusal(face.closed, around, command, payload) == None
    requires Transaction(inputId, face.channel, around, command, payload) == (channel, o)
    ensures ExchangeEnding(inputId, face, around, command, payload) ==
            match o
            case Got(answer, rest) => (Face(channel, ShutNext(rest)), Answered(answer))
            case Stop(e, left) => (Face(channel, !e.DeviceError? || ShutNext(left)), Broken(e))
  {
  }

  // ----- Closing ---------------------------------------------------------------------------------------

  /** A Close closes; a closed session stays closed and refuses every request without touching its channel. */
  lemma ClosedTurn(inputId: Byte, face: Face, call: Call)
    requires face.closed || call.Close?
    ensures CallEnding(inputId, face, call).0 == face.(closed := true) && CallEnding(inputId, face, call).1.TurnedAway?
  {
  }

  /** Once closed, a session answers nothing more, whatever calls follow. */
  lemma {:induction false} ClosedForGood(inputId: Byte, face: Face, calls: seq<Call>)
    requires face.closed
    ensures FaceAfter(Turns(inputId), face, calls) == face
    ensures forall call :: CallEnding(inputId, FaceAfter(Turns(inputId), face, calls), call).1.TurnedAway?
  {
    if calls != [] {
      ClosedForGood(inputId, face, calls[..|calls| - 1]);
      ClosedTurn(inputId, face, calls[|calls| - 1]);
    }
    forall call ensures CallEnding(inputId, face, call).1.TurnedAway? {
      ClosedTurn(inputId, face, call);
    }
  }

  /**
   What a refusal and a failure make of an open session: only a context that expires right before the first check
   closes it among the refusals, and every failure that is not the device's own error does.
   */
  lemma ClosesOnFailure(inputId: Byte, face: Face, around: Surroundings, command: Byte, payload: seq<Byte>)
    requires !face.closed
    ensures var (after, ending) := ExchangeEnding(inputId, face, around, command, payload);
            && (ending.TurnedAway? ==>
                  after == face.(closed := around.arrival == CanceledLate && command >= 0x80 && |payload| <= 7609 && !ContextExpired(around.script)))
            && (ending.Broken? && !ending.cause.DeviceError? ==> after.closed)
  {
    if Refusal(face.closed, around, command, payload) == None {
      var (channel, o) := Transaction(inputId, face.channel, around, command, payload);
      Ends(inputId, face, around, command, payload, channel, o);
    }
  }

  // ----- Which command a call sends ------------------------------------------------------------------

  /** The first report of a request: MSG for a CTAP1 command, CBOR otherwise, the caller's command with the marker bit. */
  lemma FirstReport(call: Call, channel: U32)
    requires !call.Close? && (call.HID? ==> call.command < 0x80) && |call.Body()| <= MaxPayloadSize(REPORT_SIZE)
    ensures call.Wire() >= 0x80
    ensures Packets(Codec(channel, call.Wire(), REPORT_SIZE), call.Body())[0][4] ==
            match call
            case CTAP(req, _) => if |req| >= 4 && req[0] == 0 && (req[1] == 1 || req[1] == 2 || req[1] == 3) then 0x83 else 0x90
            case HID(command, _, _) => (command as int) + 0x80
            case Close => 0
  {
    PacketHeaders(Codec(channel, call.Wire(), REPORT_SIZE), call.Body(), 0);
  }

  /** INIT goes to the broadcast channel with its nonce, PING empty to the new one. */
  lemma HandshakeReports(nonce: Nonce, channel: U32)
    ensures Packets(InitCodec(), nonce)[0][..15] == [0xff, 0xff, 0xff, 0xff, 0x86, 0, 8] + nonce
    ensures Packets(RequestCodec(channel, PING), [])[0][4..7] == [0x81, 0, 0]
  {
    var init, ping := Packets(InitCodec(), nonce)[0], Packets(RequestCodec(channel, PING), [])[0];
    var body := Bodies(InitCodec(), nonce)[0];
    assert nonce[..8] == nonce && PutBe32(BROADCAST) == [0xff, 0xff, 0xff, 0xff] && PutBe16(8) == [0, 8];
    assert body == [0xff, 0xff, 0xff, 0xff] + [0x86] + [0, 8] + nonce && init == Padded(body, REPORT_SIZE);
    assert body == [0xff, 0xff, 0xff, 0xff, 0x86, 0, 8] + nonce;
    var empty := Bodies(RequestCodec(channel, PING), [])[0];
    assert PutBe16(0) == [0, 0] && empty == PutBe32(channel) + [0x81] + [0, 0] + [] && ping == Padded(empty, REPORT_SIZE);
  }

  /** Only session-owned, zero and encoded commands are refused as such, without any effect. */
  lemma CommandRefused(inputId: Byte, face: Face, call: Call)
    requires call.HID?
    ensures call.command == 0 || call.command >= 0x80 || call.command == 0x06 || call.command == 0x11 || call.command == 0x3b || call.command == 0x3f ==>
              CallEnding(inputId, face, call) == (face, TurnedAway(FramingFailure(InvalidCommand)))
    ensures !(call.command == 0 || call.command >= 0x80 || call.command == 0x06 || call.command == 0x11 || call.command == 0x3b || call.command == 0x3f) ==>
              CallEnding(inputId, face, call) == ExchangeEnding(inputId, face, call.around, call.Wire(), call.payload)
  {
  }
}
