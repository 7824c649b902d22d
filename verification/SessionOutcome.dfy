/**
 How a call on a session ends, as a function of what the connection and the call's context do: which
 request is refused, how the handshake goes on or gives up, and what the exchange returns.
 */
module SessionOutcome {
  import opened Values
  import opened Framing
  import opened MessageReader

  const REPORT_SIZE := 64
  const CHANNEL_BUSY: Byte := 0x06
  const BUSY_RETRIES := 20

  type Nonce = s: seq<Byte> | |s| == 8 witness [0, 0, 0, 0, 0, 0, 0, 0]

  /** Failures after which the handshake is tried again. */
  predicate Retryable(e: Error) {
    e == LocalWait || e == DeviceError(CHANNEL_BUSY)
  }

  function RequestCommand(req: seq<Byte>): Byte {
    if IsCtap1Apdu(req) then MSG else CBOR
  }

  predicate IsCtap1Apdu(req: seq<Byte>) {
    |req| >= 4 && req[0] == 0 && 1 <= req[1] <= 3
  }

  /** Why a request cannot be fragmented, if so. */
  function Unsendable(command: Byte, payload: seq<Byte>): Option<FramingError> {
    if command < 0x80 then Some(InvalidCommand)
    else if |payload| > MaxPayloadSize(REPORT_SIZE) then Some(PayloadTooLarge)
    else None
  }

  /** Logical commands a caller may send: not INIT, CANCEL, KEEPALIVE or ERROR. */
  predicate ValidCommand(command: Byte) {
    0 < command < 0x80 && command !in {0x06, 0x11, 0x3b, 0x3f}
  }

  /**
   How a call arrives: without a context, cancelled while it waits for the exchange mutex, cancelled between
   taking the mutex and the first check, or in time.
   */
  datatype Arrival = NoContext | CanceledInQueue | CanceledLate | InTime

  /** What happens around a call: its arrival, the script, and the random nonce of each handshake attempt, if it can be drawn. */
  datatype Surroundings = Surroundings(arrival: Arrival, script: seq<Event>, nonces: seq<Option<Nonce>>) {
    function NonceOf(attempt: nat): Option<Nonce> {
      if attempt < |nonces| then nonces[attempt] else None
    }
  }

  /** A call of the public API: Close, ExchangeHID or Exchange. */
  datatype Call =
    | Close
    | HID(command: Byte, payload: seq<Byte>, around: Surroundings)
    | CTAP(req: seq<Byte>, around: Surroundings)
  {
    /** The wire command of the request: the logical command with the packet marker bit set. */
    function Wire(): Byte {
      match this
      case Close => 0
      case HID(command, _, _) => if command < 0x80 then command + 0x80 else command
      case CTAP(req, _) => RequestCommand(req)
    }

    /** What the request carries. */
    function Body(): seq<Byte> {
      match this
      case Close => []
      case HID(_, payload, _) => payload
      case CTAP(req, _) => req
    }
  }

  /** A read and a method's result tell the same, and leave the same events. */
  predicate Agrees<T(==)>(r: Result<T, Error>, left: seq<Event>, o: Read<T>) {
    match o
    case Got(v, rest) => r == Ok(v) && left == rest
    case Stop(e, l) => r == Err(e) && left == l
  }

  /** One report handed to the connection of an open session. */
  function Write(evs: seq<Event>): (o: Read<()>)
    ensures o.Got? ==> |o.rest| < |evs|
    ensures o.Stop? ==> |o.left| <= |evs|
  {
    if ContextExpired(evs) then Stop(ContextDone, evs)
    else
      match evs[0]
      case Shut => Stop(Closed, evs)
      case WriteDone(outcome, failed) => if failed || outcome != Completed then Stop(WriteError, evs[1..]) else Got((), evs[1..])
      case _ => Stop(WriteError, evs)
  }

  function Writes(n: nat, evs: seq<Event>): (o: Read<()>)
    ensures o.Got? ==> |o.rest| <= |evs|
    ensures o.Stop? ==> |o.left| <= |evs|
  {
    if n == 0 then Got((), evs)
    else
      match Write(evs)
      case Stop(e, left) => Stop(e, left)
      case Got(_, rest) => Writes(n - 1, rest)
  }

  /** One message sent whole, and one read in answer. */
  function Message(port: Port, c: Codec, payload: seq<Byte>, evs: seq<Event>): (o: Read<seq<Byte>>)
    requires c.Valid() && c.reportSize == port.reportSize && |payload| <= 0xffff
    ensures o.Got? ==> |o.rest| <= |evs|
    ensures o.Stop? ==> |o.left| <= |evs|
  {
    match Writes(|Packets(c, payload)|, evs)
    case Stop(e, left) => Stop(e, left)
    case Got(_, rest) => ReadMessage(port, c, rest)
  }

  function HandshakePort(inputId: Byte): Port {
    Port(inputId, REPORT_SIZE, true)
  }

  function InitCodec(): Codec {
    Codec(BROADCAST, INIT, REPORT_SIZE)
  }

  /** INIT responses are read until one echoes the nonce. */
  function InitResponse(inputId: Byte, nonce: Nonce, evs: seq<Event>): (o: Read<seq<Byte>>)
    ensures o.Got? ==> |o.value| >= 17 && |o.rest| <= |evs|
    ensures o.Stop? ==> |o.left| <= |evs|
    decreases |evs|
  {
    match ReadMessage(HandshakePort(inputId), InitCodec(), evs)
    case Stop(e, left) => Stop(e, left)
    case Got(payload, rest) =>
      if |payload| < 17 then Stop(InitTooShort, rest)
      else if payload[..8] == nonce then Got(payload, rest)
      else InitResponse(inputId, nonce, rest)
  }

  /** The INIT half of an attempt: a channel. */
  function Allocate(inputId: Byte, nonce: Option<Nonce>, evs: seq<Event>): (o: Read<U32>)
    ensures o.Got? ==> |o.rest| <= |evs|
    ensures o.Stop? ==> |o.left| <= |evs|
  {
    if nonce.None? then Stop(RandomFailure, evs)
    else
      match Writes(|Packets(InitCodec(), nonce.value)|, evs)
      case Stop(e, left) => Stop(e, left)
      case Got(_, sent) =>
        match InitResponse(inputId, nonce.value, sent)
        case Stop(e, left) => Stop(e, left)
        case Got(payload, rest) =>
          var channel := Be32(payload[8..]);
          if channel == 0 || channel == BROADCAST then Stop(InvalidChannel, rest) else Got(channel, rest)
  }

  /** The PING half: an empty echo on the channel. */
  function Probe(inputId: Byte, channel: U32, evs: seq<Event>): (o: Read<()>)
    ensures o.Got? ==> |o.rest| <= |evs|
    ensures o.Stop? ==> |o.left| <= |evs|
  {
    match Message(HandshakePort(inputId), Codec(channel, PING, REPORT_SIZE), [], evs)
    case Stop(e, left) => Stop(e, left)
    case Got(echo, rest) => if |echo| != 0 then Stop(BadPingEcho, rest) else Got((), rest)
  }

  function Attempt(inputId: Byte, nonce: Option<Nonce>, evs: seq<Event>): (o: Read<U32>)
    ensures o.Got? ==> |o.rest| <= |evs|
    ensures o.Stop? ==> |o.left| <= |evs|
  {
    match Allocate(inputId, nonce, evs)
    case Stop(e, left) => Stop(e, left)
    case Got(channel, granted) =>
      match Probe(inputId, channel, granted)
      case Stop(e, left) => Stop(e, left)
      case Got(_, rest) => Got(channel, rest)
  }

  /** How each attempt of the handshake goes. */
  function Attempts(inputId: Byte, around: Surroundings): (nat, seq<Event>) -> Read<U32> {
    (attempt: nat, evs: seq<Event>) => Attempt(inputId, around.NonceOf(attempt), evs)
  }

  /** The handshake from the given attempt on. */
  function Handshake(attempts: (nat, seq<Event>) -> Read<U32>, attempt: nat, evs: seq<Event>): Read<U32>
    requires attempt <= BUSY_RETRIES
    decreases BUSY_RETRIES - attempt
  {
    if ContextExpired(evs) then Stop(ContextDone, evs)
    else
      match attempts(attempt, evs)
      case Got(channel, rest) => Got(channel, rest)
      case Stop(e, left) =>
        if !Retryable(e) || attempt == BUSY_RETRIES then Stop(e, left)
        else if ContextExpired(left) then Stop(ContextDone, left)
        else Handshake(attempts, attempt + 1, left)
  }

  /** What follows an attempt: its channel, the next attempt, or the end. */
  lemma HandshakeNext(attempts: (nat, seq<Event>) -> Read<U32>, attempt: nat, evs: seq<Event>, r: Result<U32, Error>, left: seq<Event>)
    requires attempt <= BUSY_RETRIES && !ContextExpired(evs) && Agrees(r, left, attempts(attempt, evs))
    ensures Handshake(attempts, attempt, evs) ==
            if r.Ok? then Got(r.value, left)
            else if !Retryable(r.error) || attempt == BUSY_RETRIES then Stop(r.error, left)
            else if ContextExpired(left) then Stop(ContextDone, left)
            else Handshake(attempts, attempt + 1, left)
  {
  }

  /** The request on an allocated channel. */
  function Request(inputId: Byte, channel: U32, command: Byte, payload: seq<Byte>, evs: seq<Event>): Read<seq<Byte>>
    requires Unsendable(command, payload) == None
  {
    Message(Port(inputId, REPORT_SIZE, false), Codec(channel, command, REPORT_SIZE), payload, evs)
  }

  /** The transaction: a channel if there is none, then the request. */
  function Transaction(inputId: Byte, channel: U32, around: Surroundings, command: Byte, payload: seq<Byte>): (U32, Read<seq<Byte>>)
    requires Unsendable(command, payload) == None
  {
    if channel != 0 then (channel, Request(inputId, channel, command, payload, around.script))
    else
      match Handshake(Attempts(inputId, around), 0, around.script)
      case Stop(e, left) => (0, Stop(e, left))
      case Got(granted, rest) => (granted, Request(inputId, granted, command, payload, rest))
  }

  /** Why an exchange is refused before it owns the transaction, if so. */
  function Refusal(closed: bool, around: Surroundings, command: Byte, payload: seq<Byte>): Option<Error> {
    if around.arrival == NoContext then Some(InvalidArgument)
    else if Unsendable(command, payload).Some? then Some(FramingFailure(Unsendable(command, payload).value))
    else if ContextExpired(around.script) || around.arrival != InTime then Some(ContextDone)
    else if closed then Some(Closed)
    else None
  }

  /** The only refusal that closes the session: the context expired right before the first check. */
  predicate RefusedLate(around: Surroundings, command: Byte, payload: seq<Byte>) {
    around.arrival == CanceledLate && Unsendable(command, payload) == None && !ContextExpired(around.script)
  }

  predicate ShutNext(evs: seq<Event>) {
    evs != [] && evs[0].Shut?
  }

  /** A session between calls. */
  datatype Face = Face(channel: U32, closed: bool)

  datatype Ending = TurnedAway(error: Error) | Answered(payload: seq<Byte>) | Broken(cause: Error)

  function ExchangeEnding(inputId: Byte, face: Face, around: Surroundings, command: Byte, payload: seq<Byte>): (Face, Ending) {
    var refusal := Refusal(face.closed, around, command, payload);
    if refusal.Some? then (face.(closed := face.closed || RefusedLate(around, command, payload)), TurnedAway(refusal.value))
    else
      var (channel, o) := Transaction(inputId, face.channel, around, command, payload);
      match o
      case Got(answer, rest) => (Face(channel, ShutNext(rest)), Answered(answer))
      case Stop(e, left) => (Face(channel, !e.DeviceError? || ShutNext(left)), Broken(e))
  }

  /** How a public call ends, and what it makes of the session. */
  function CallEnding(inputId: Byte, face: Face, call: Call): (Face, Ending) {
    match call
    case Close => (face.(closed := true), TurnedAway(Closed))
    case HID(command, payload, around) =>
      if !ValidCommand(command) then (face, TurnedAway(FramingFailure(InvalidCommand)))
      else ExchangeEnding(inputId, face, around, call.Wire(), payload)
    case CTAP(req, around) => ExchangeEnding(inputId, face, around, call.Wire(), req)
  }

  /** What a call makes of a session, and how it ends. */
  function Turns(inputId: Byte): (Face, Call) -> (Face, Ending) {
    (face: Face, call: Call) => CallEnding(inputId, face, call)
  }

  /** The session after some calls. */
  function FaceAfter(turns: (Face, Call) -> (Face, Ending), face: Face, calls: seq<Call>): Face {
    if calls == [] then face else turns(FaceAfter(turns, face, calls[..|calls| - 1]), calls[|calls| - 1]).0
  }

  /** These are the endings of the calls, each on the session the calls before it left. */
  ghost predicate EndingsOf(turns: (Face, Call) -> (Face, Ending), face: Face, calls: seq<Call>, endings: seq<Ending>) {
    && |endings| == |calls|
    && forall i :: 0 <= i < |calls| ==> endings[i] == turns(FaceAfter(turns, face, calls[..i]), calls[i]).1
  }

  lemma EndingsSnoc(turns: (Face, Call) -> (Face, Ending), face: Face, calls: seq<Call>, endings: seq<Ending>, call: Call)
    requires EndingsOf(turns, face, calls, endings)
    ensures var (after, ending) := turns(FaceAfter(turns, face, calls), call);
            EndingsOf(turns, face, calls + [call], endings + [ending]) && FaceAfter(turns, face, calls + [call]) == after
  {
    var more := calls + [call];
    assert more[..|calls|] == calls;
    forall i | 0 <= i < |calls| ensures more[..i] == calls[..i] {
    }
  }
}
