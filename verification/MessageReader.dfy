/**
 Reading one CTAPHID message (pkg/transport/usb/hid_protocol.go): reports for other
 channels are skipped, KEEPALIVE messages are read whole and dropped, an ERROR message
 becomes a device error, and anything else must be the expected response.

 What the HID connection and the caller's context do is a list of events. The functions
 say what a read yields and which events it leaves; the methods are the source's loops.
 */
module MessageReader {
  import opened Values
  import opened Framing

  const PING: Byte := 0x81
  const MSG: Byte := 0x83
  const INIT: Byte := 0x86
  const CBOR: Byte := 0x90
  const KEEPALIVE: Byte := 0xbb
  const ERROR: Byte := 0xbf
  const BROADCAST: U32 := 0xffff_ffff

  /**
   One answer of the environment. The context has expired when `Expired` is next or nothing is
   left, and the session has been closed by another caller when `Shut` is next; these are never consumed,
   so an expired context stays expired and a closed session stays closed. An answer that does not fit
   the call being made stands for an expiry during that call.
   */
  datatype Event =
    | Input(id: Byte, data: Packet)              // the connection delivers a report
    | ReadFailed(timeout: bool)                  // the read fails, perhaps with a timeout
    | WriteDone(outcome: Outcome, failed: bool)
    | Expired
    | Shut                                       // another caller closes the session; this stays so

  datatype Error =
    | InvalidArgument
    | ContextDone
    | Closed
    | LocalWait                                  // a local read wait during the handshake ran out
    | ReadError
    | WriteError
    | InvalidReport
    | FramingFailure(cause: FramingError)
    | DeviceError(code: Byte)                    // a complete CTAPHID ERROR message
    | BadErrorLength
    | InitTooShort
    | InvalidChannel
    | BadPingEcho
    | RandomFailure

  datatype Read<+T> = Got(value: T, rest: seq<Event>) | Stop(error: Error, left: seq<Event>)

  /** How reports are read: the expected report format, and whether a local wait may expire. */
  datatype Port = Port(inputId: Byte, reportSize: int, handshake: bool)

  predicate ContextExpired(evs: seq<Event>) {
    evs == [] || evs[0].Expired?
  }

  /** The report is one the session accepts. */
  predicate Accepted(port: Port, e: Event) {
    e.Input? && e.id == port.inputId && |e.data| == port.reportSize
  }

  function ReadPacket(port: Port, evs: seq<Event>): (r: Read<Packet>)
    ensures r.Got? ==> evs != [] && r.rest == evs[1..] && Accepted(port, evs[0]) && r.value == evs[0].data
    ensures r.Stop? ==> |r.left| <= |evs| && !r.error.DeviceError?
  {
    if ContextExpired(evs) || evs[0].WriteDone? then Stop(ContextDone, evs)
    else
      match evs[0]
      case Shut => Stop(Closed, evs)
      case ReadFailed(timeout) => Stop(if timeout && port.handshake then LocalWait else ReadError, evs[1..])
      case Input(id, data) =>
        if id != port.inputId || |data| != port.reportSize then Stop(InvalidReport, evs[1..])
        else Got(data, evs[1..])
  }

  /** Reads the next report of one channel. */
  function NextOnChannel(port: Port, channel: U32, evs: seq<Event>): (r: Read<Packet>)
    requires port.reportSize > 7
    ensures r.Got? ==> |r.rest| < |evs| && |r.value| == port.reportSize && Be32(r.value) == channel
    ensures r.Stop? ==> |r.left| <= |evs| && !r.error.DeviceError?
    decreases |evs|
  {
    match ReadPacket(port, evs)
    case Stop(e, left) => Stop(e, left)
    case Got(p, rest) => if Be32(p) != channel then NextOnChannel(port, channel, rest) else Got(p, rest)
  }

  /** Reads reports of the codec's channel until the message under assembly is complete. */
  function Collect(port: Port, c: Codec, a: Assembly, evs: seq<Event>): (r: Read<seq<Byte>>)
    requires c.Valid() && Sound(a) && c.reportSize == port.reportSize
    ensures r.Got? ==> |r.rest| <= |evs|
    ensures r.Stop? ==> |r.left| <= |evs| && !r.error.DeviceError?
    decreases |evs|
  {
    if a.done then Got(a.buffer, evs)
    else
      match NextOnChannel(port, c.channel, evs)
      case Stop(e, left) => Stop(e, left)
      case Got(p, rest) =>
        match AddPacket(c, a, p)
        case Refused(e) => Stop(FramingFailure(e), rest)
        case Added(next) => Collect(port, c, next, rest)
  }

  /** Reads the rest of the message that `first` starts. */
  function CollectFrom(port: Port, c: Codec, first: Packet, evs: seq<Event>): (r: Read<seq<Byte>>)
    requires c.Valid() && c.reportSize == port.reportSize
    ensures r.Got? ==> |r.rest| <= |evs|
    ensures r.Stop? ==> |r.left| <= |evs| && !r.error.DeviceError?
  {
    match AddPacket(c, Fresh(), first)
    case Refused(e) => Stop(FramingFailure(e), evs)
    case Added(next) => Collect(port, c, next, evs)
  }

  /** Reads one response on the codec's channel. */
  function ReadMessage(port: Port, c: Codec, evs: seq<Event>): (r: Read<seq<Byte>>)
    requires c.Valid() && c.reportSize == port.reportSize
    ensures r.Got? ==> |r.rest| < |evs|
    ensures r.Stop? ==> |r.left| <= |evs|
    decreases |evs|
  {
    match NextOnChannel(port, c.channel, evs)
    case Stop(e, left) => Stop(e, left)
    case Got(p, rest) =>
      if p[4] == KEEPALIVE then
        match CollectFrom(port, c.(command := KEEPALIVE), p, rest)
        case Stop(e, left) => Stop(e, left)
        case Got(_, after) => ReadMessage(port, c, after)
      else if p[4] == ERROR then
        match CollectFrom(port, c.(command := ERROR), p, rest)
        case Stop(e, left) => Stop(e, left)
        case Got(payload, after) =>
          Stop(if |payload| == 1 then DeviceError(payload[0]) else BadErrorLength, after)
      else CollectFrom(port, c, p, rest)
  }

  // ----- The source's loops --------------------------------------------------

  /** What crosses the connection: reports handed to it, and answers taken from it. */
  datatype Step = Sent(packet: Packet, outcome: Outcome, failed: bool) | Seen(event: Event)

  function SeenSteps(evs: seq<Event>): (steps: seq<Step>)
    ensures |steps| == |evs|
  {
    seq(|evs|, i requires 0 <= i < |evs| => Seen(evs[i]))
  }

  /** The connection and the context of one call: a script of what is going to happen. */
  class EventSource {
    const script: seq<Event>
    var pos: nat

    ghost predicate Valid()
      reads this
    {
      pos <= |script|
    }

    /** What is still to come. */
    ghost function Pending(): seq<Event>
      requires Valid()
      reads this
    {
      script[pos..]
    }

    constructor (script: seq<Event>)
      ensures Valid() && this.script == script && pos == 0 && Pending() == script
    {
      this.script, pos := script, 0;
    }

    method Expired() returns (expired: bool)
      requires Valid()
      ensures expired == ContextExpired(Pending())
    {
      expired := pos == |script| || script[pos].Expired?;
    }

    /** Another caller has closed the session. */
    predicate AtShut()
      requires Valid()
      reads this
    {
      pos < |script| && script[pos].Shut?
    }

    method Read(port: Port) returns (r: Result<Packet, Error>)
      requires Valid()
      modifies this`pos
      ensures Valid() && old(pos) <= pos
      ensures match ReadPacket(port, old(Pending()))
              case Got(p, rest) => r == Ok(p) && Pending() == rest
              case Stop(e, left) => r == Err(e) && Pending() == left
    {
      var expired := Expired();
      if expired || script[pos].WriteDone? {
        return Err(ContextDone);
      }
      if script[pos].Shut? {
        return Err(Closed);
      }
      var e := script[pos];
      pos := pos + 1;
      assert old(Pending())[1..] == Pending();
      if e.ReadFailed? {
        return Err(if e.timeout && port.handshake then LocalWait else ReadError);
      }
      if e.id != port.inputId || |e.data| != port.reportSize {
        return Err(InvalidReport);
      }
      r := Ok(e.data);
    }

    /** hidChannelReader: drop reports of other channels. */
    method ReadChannel(port: Port, channel: U32) returns (r: Result<Packet, Error>)
      requires Valid() && port.reportSize > 7
      modifies this`pos
      ensures Valid() && old(pos) <= pos
      ensures match NextOnChannel(port, channel, old(Pending()))
              case Got(p, rest) => r == Ok(p) && Pending() == rest
              case Stop(e, left) => r == Err(e) && Pending() == left
    {
      while true
        invariant Valid() && old(pos) <= pos
        invariant NextOnChannel(port, channel, Pending()) == NextOnChannel(port, channel, old(Pending()))
        decreases |script| - pos
      {
        var expired := Expired();
        if expired {
          return Err(ContextDone);
        }
        r := Read(port);
        if r.Err? || !(|r.value| == port.reportSize && Be32(r.value) != channel) {
          return;
        }
      }
    }

    /** The common loop of discardHIDMessage and readHIDError. */
    method ReadRest(port: Port, c: Codec, first: Packet) returns (r: Result<seq<Byte>, Error>)
      requires Valid() && c.Valid() && c.reportSize == port.reportSize
      modifies this`pos
      ensures Valid() && old(pos) <= pos
      ensures match CollectFrom(port, c, first, old(Pending()))
              case Got(payload, rest) => r == Ok(payload) && Pending() == rest
              case Stop(e, left) => r == Err(e) && Pending() == left
    {
      var assembler := new Assembler(c);
      var err := assembler.Add(first);
      if err.Some? {
        return Err(FramingFailure(err.value));
      }
      while !assembler.done
        invariant Valid() && old(pos) <= pos
        invariant assembler.Valid() && assembler.codec == c && fresh(assembler)
        invariant Collect(port, c, assembler.View(), Pending()) == CollectFrom(port, c, first, old(Pending()))
        decreases |script| - pos, !assembler.done
      {
        var expired := Expired();
        if expired {
          return Err(ContextDone);
        }
        var packet := ReadChannel(port, c.channel);
        if packet.Err? {
          return Err(packet.error);
        }
        err := assembler.Add(packet.value);
        if err.Some? {
          return Err(FramingFailure(err.value));
        }
      }
      var payload := assembler.Payload();
      r := Ok(payload.value);
    }

    method ReadHIDMessage(port: Port, c: Codec) returns (r: Result<seq<Byte>, Error>)
      requires Valid() && c.Valid() && c.reportSize == port.reportSize
      modifies this`pos
      ensures Valid() && old(pos) <= pos
      ensures match ReadMessage(port, c, old(Pending()))
              case Got(payload, rest) => r == Ok(payload) && Pending() == rest
              case Stop(e, left) => r == Err(e) && Pending() == left
    {
      var assembler := new Assembler(c);
      var firstPacket := true;
      while !assembler.done
        invariant Valid() && old(pos) <= pos
        invariant assembler.Valid() && assembler.codec == c && fresh(assembler)
        invariant firstPacket ==> assembler.View() == Fresh()
        invariant firstPacket ==> ReadMessage(port, c, Pending()) == ReadMessage(port, c, old(Pending()))
        invariant !firstPacket ==> Collect(port, c, assembler.View(), Pending()) == ReadMessage(port, c, old(Pending()))
        decreases |script| - pos
      {
        var expired := Expired();
        if expired {
          return Err(ContextDone);
        }
        var packet := ReadChannel(port, c.channel);
        if packet.Err? {
          return Err(packet.error);
        }
        if firstPacket && packet.value[4] == KEEPALIVE {
          var discarded := ReadRest(port, c.(command := KEEPALIVE), packet.value);
          if discarded.Err? {
            return Err(discarded.error);
          }
          continue;
        }
        if firstPacket && packet.value[4] == ERROR {
          var failure := ReadRest(port, c.(command := ERROR), packet.value);
          if failure.Err? {
            return Err(failure.error);
          }
          if |failure.value| != 1 {
            return Err(BadErrorLength);
          }
          return Err(DeviceError(failure.value[0]));
        }
        var err := assembler.Add(packet.value);
        if err.Some? {
          return Err(FramingFailure(err.value));
        }
        firstPacket := false;
      }
      var payload := assembler.Payload();
      r := Ok(payload.value);
    }
  }

  // ----- Reading is independent of other channels -----------------------------

  predicate ForChannel(channel: U32, e: Event) {
    e.Input? && |e.data| >= 4 && Be32(e.data) == channel
  }

  /** The reports of one channel, in order. */
  function OnChannel(channel: U32, evs: seq<Event>): (ps: seq<Packet>)
    ensures forall p :: p in ps ==> |p| >= 4 && Be32(p) == channel
  {
    if evs == [] then []
    else if ForChannel(channel, evs[0]) then [evs[0].data] + OnChannel(channel, evs[1..])
    else OnChannel(channel, evs[1..])
  }

  /** Reading `ps` from the channel consumes exactly the events before `rest`. */
  predicate Delivers(port: Port, channel: U32, evs: seq<Event>, ps: seq<Packet>, rest: seq<Event>)
    requires port.reportSize > 7
    decreases |ps|
  {
    if ps == [] then rest == evs
    else
      var r := NextOnChannel(port, channel, evs);
      r.Got? && r.value == ps[0] && Delivers(port, channel, r.rest, ps[1..], rest)
  }

  /** The first `n` events are accepted reports, the last one of the channel, and `rest` follows them. */
  predicate StretchOf(port: Port, channel: U32, evs: seq<Event>, n: nat, rest: seq<Event>) {
    && n <= |evs| && evs[n..] == rest
    && (forall i :: 0 <= i < n ==> Accepted(port, evs[i]))
    && (n > 0 ==> ForChannel(channel, evs[n - 1]))
  }

  lemma {:induction false} OnChannelAppend(channel: U32, xs: seq<Event>, ys: seq<Event>)
    ensures OnChannel(channel, xs + ys) == OnChannel(channel, xs) + OnChannel(channel, ys)
  {
    if xs == [] {
      assert xs + ys == ys;
    } else {
      assert (xs + ys)[0] == xs[0] && (xs + ys)[1..] == xs[1..] + ys;
      OnChannelAppend(channel, xs[1..], ys);
    }
  }

  /** Putting one more accepted report in front of a stretch. */
  lemma StretchPrepend(port: Port, channel: U32, evs: seq<Event>, n: nat, rest: seq<Event>)
    requires evs != [] && Accepted(port, evs[0]) && StretchOf(port, channel, evs[1..], n, rest)
    requires n == 0 ==> ForChannel(channel, evs[0])
    ensures StretchOf(port, channel, evs, n + 1, rest)
    ensures evs[..n + 1][0] == evs[0] && evs[..n + 1][1..] == evs[1..][..n]
  {
    assert evs[n + 1..] == evs[1..][n..];
    assert n > 0 ==> evs[n] == evs[1..][n - 1];
    forall i | 0 < i < n + 1 ensures Accepted(port, evs[i]) {
      assert evs[i] == evs[1..][i - 1];
    }
  }

  /** Taking the first report off a stretch. */
  lemma StretchTail(port: Port, channel: U32, evs: seq<Event>, n: nat, rest: seq<Event>)
    requires n > 0 && StretchOf(port, channel, evs, n, rest)
    ensures StretchOf(port, channel, evs[1..], n - 1, rest)
    ensures evs[..n][0] == evs[0] && evs[..n][1..] == evs[1..][..n - 1]
    ensures !ForChannel(channel, evs[0]) ==> n > 1
  {
    assert evs[1..][n - 1..] == evs[n..];
    assert n > 1 ==> evs[1..][n - 2] == evs[n - 1];
    forall i | 0 <= i < n - 1 ensures Accepted(port, evs[1..][i]) {
      assert evs[1..][i] == evs[i + 1];
    }
  }

  /** The first event of a delivery is accepted; it is either the first report or one to skip. */
  lemma DeliversStep(port: Port, channel: U32, evs: seq<Event>, ps: seq<Packet>, rest: seq<Event>)
    requires port.reportSize > 7 && ps != [] && Delivers(port, channel, evs, ps, rest)
    ensures evs != [] && Accepted(port, evs[0])
    ensures ForChannel(channel, evs[0]) ==> ps[0] == evs[0].data && Delivers(port, channel, evs[1..], ps[1..], rest)
    ensures !ForChannel(channel, evs[0]) ==> Delivers(port, channel, evs[1..], ps, rest)
  {
    var read := ReadPacket(port, evs);
    assert read.Got?;
    if !ForChannel(channel, evs[0]) {
      assert NextOnChannel(port, channel, evs) == NextOnChannel(port, channel, evs[1..]);
    }
  }

  /** Reports delivered on a channel are the channel's part of the consumed events. */
  lemma {:induction false} DeliversConsumes(port: Port, channel: U32, evs: seq<Event>, ps: seq<Packet>, rest: seq<Event>)
    returns (n: nat)
    requires port.reportSize > 7 && Delivers(port, channel, evs, ps, rest)
    ensures StretchOf(port, channel, evs, n, rest) && OnChannel(channel, evs[..n]) == ps
    decreases |evs|
  {
    if ps == [] {
      n := 0;
    } else {
      DeliversStep(port, channel, evs, ps, rest);
      var m := DeliversConsumes(port, channel, evs[1..], if ForChannel(channel, evs[0]) then ps[1..] else ps, rest);
      StretchPrepend(port, channel, evs, m, rest);
      n := m + 1;
    }
  }

  /** A stretch that ends in a report of the channel has one. */
  lemma {:induction false} StretchNonempty(port: Port, channel: U32, evs: seq<Event>, n: nat, rest: seq<Event>)
    requires n > 0 && StretchOf(port, channel, evs, n, rest)
    ensures OnChannel(channel, evs[..n]) != []
    decreases n
  {
    StretchTail(port, channel, evs, n, rest);
    if !ForChannel(channel, evs[0]) {
      StretchNonempty(port, channel, evs[1..], n - 1, rest);
    }
  }

  /** Conversely, any interleaving with accepted reports of other channels delivers the same. */
  lemma {:induction false} ConsumesDelivers(port: Port, channel: U32, evs: seq<Event>, n: nat, rest: seq<Event>)
    requires port.reportSize > 7 && StretchOf(port, channel, evs, n, rest)
    ensures Delivers(port, channel, evs, OnChannel(channel, evs[..n]), rest)
    decreases n
  {
    if n > 0 {
      StretchTail(port, channel, evs, n, rest);
      ConsumesDelivers(port, channel, evs[1..], n - 1, rest);
      if !ForChannel(channel, evs[0]) {
        StretchNonempty(port, channel, evs[1..], n - 1, rest);
        assert NextOnChannel(port, channel, evs) == NextOnChannel(port, channel, evs[1..]);
      }
    }
  }

  lemma {:induction false} DeliversAppend(port: Port, channel: U32, evs: seq<Event>, ps: seq<Packet>, mid: seq<Event>,
                                          qs: seq<Packet>, rest: seq<Event>)
    requires port.reportSize > 7
    requires Delivers(port, channel, evs, ps, mid) && Delivers(port, channel, mid, qs, rest)
    ensures Delivers(port, channel, evs, ps + qs, rest)
    decreases |ps|
  {
    if ps == [] {
      assert ps + qs == qs;
    } else {
      var r := NextOnChannel(port, channel, evs);
      assert (ps + qs)[0] == ps[0] && (ps + qs)[1..] == ps[1..] + qs;
      DeliversAppend(port, channel, r.rest, ps[1..], mid, qs, rest);
    }
  }

  lemma {:induction false} DeliversSplit(port: Port, channel: U32, evs: seq<Event>, ps: seq<Packet>, qs: seq<Packet>,
                                         rest: seq<Event>) returns (mid: seq<Event>)
    requires port.reportSize > 7 && Delivers(port, channel, evs, ps + qs, rest)
    ensures Delivers(port, channel, evs, ps, mid) && Delivers(port, channel, mid, qs, rest)
    decreases |ps|
  {
    if ps == [] {
      assert ps + qs == qs;
      mid := evs;
    } else {
      var r := NextOnChannel(port, channel, evs);
      assert (ps + qs)[0] == ps[0] && (ps + qs)[1..] == ps[1..] + qs;
      mid := DeliversSplit(port, channel, r.rest, ps[1..], qs, rest);
    }
  }

  // ----- What a completed read means -------------------------------------------

  lemma {:induction false} CollectExact(port: Port, c: Codec, a: Assembly, evs: seq<Event>) returns (ps: seq<Packet>)
    requires c.Valid() && Sound(a) && c.reportSize == port.reportSize && Collect(port, c, a, evs).Got?
    ensures var r := Collect(port, c, a, evs);
            && Delivers(port, c.channel, evs, ps, r.rest)
            && AddAll(c, a, ps).Added? && AddAll(c, a, ps).next.done && AddAll(c, a, ps).next.buffer == r.value
    decreases |evs|
  {
    if a.done {
      ps := [];
    } else {
      var r := NextOnChannel(port, c.channel, evs);
      var tail := CollectExact(port, c, AddPacket(c, a, r.value).next, r.rest);
      ps := [r.value] + tail;
      assert ps[1..] == tail;
    }
  }

  lemma {:induction false} CollectComplete(port: Port, c: Codec, a: Assembly, evs: seq<Event>, ps: seq<Packet>, rest: seq<Event>)
    requires c.Valid() && Sound(a) && c.reportSize == port.reportSize
    requires Delivers(port, c.channel, evs, ps, rest)
    requires AddAll(c, a, ps).Added? && AddAll(c, a, ps).next.done
    ensures Collect(port, c, a, evs) == Got(AddAll(c, a, ps).next.buffer, rest)
    decreases |ps|
  {
    if ps != [] {
      var r := NextOnChannel(port, c.channel, evs);
      CollectComplete(port, c, AddPacket(c, a, ps[0]).next, r.rest, ps[1..], rest);
    }
  }

  ghost predicate IsKeepalive(c: Codec, ps: seq<Packet>)
    requires c.Valid()
  {
    exists payload :: Complete(c.(command := KEEPALIVE), ps, payload)
  }

  /** Zero or more complete KEEPALIVE messages. */
  ghost predicate Keepalives(c: Codec, messages: seq<seq<Packet>>)
    requires c.Valid()
  {
    forall i :: 0 <= i < |messages| ==> IsKeepalive(c, messages[i])
  }

  /** Keepalives followed by one complete message with the codec's command. */
  ghost predicate Exchange(c: Codec, messages: seq<seq<Packet>>, last: seq<Packet>, payload: seq<Byte>)
    requires c.Valid()
  {
    Keepalives(c, messages) && Complete(c, last, payload)
  }

  /** What `ReadMessage` answers once the keepalives and a message of the given command have arrived. */
  function Verdict(command: Byte, payload: seq<Byte>, rest: seq<Event>): Read<seq<Byte>> {
    if command != ERROR then Got(payload, rest)
    else Stop(if |payload| == 1 then DeviceError(payload[0]) else BadErrorLength, rest)
  }

  lemma FirstPacket(c: Codec, ps: seq<Packet>, payload: seq<Byte>)
    requires c.Valid() && Complete(c, ps, payload)
    ensures ps != [] && |ps[0]| == c.reportSize && ps[0][4] == c.command && Be32(ps[0]) == c.channel
  {
  }

  lemma CollectFromComplete(port: Port, c: Codec, evs: seq<Event>, ps: seq<Packet>, payload: seq<Byte>, rest: seq<Event>)
    requires c.Valid() && c.reportSize == port.reportSize
    requires Complete(c, ps, payload) && Delivers(port, c.channel, evs, ps, rest)
    ensures var r := NextOnChannel(port, c.channel, evs);
            r.Got? && r.value == ps[0] && r.value[4] == c.command &&
            CollectFrom(port, c, r.value, r.rest) == Got(payload, rest)
  {
    FirstPacket(c, ps, payload);
    var r := NextOnChannel(port, c.channel, evs);
    CollectComplete(port, c, AddPacket(c, Fresh(), ps[0]).next, r.rest, ps[1..], rest);
  }

  /**
   Non-interference: whatever accepted reports of other channels are mixed in, keepalives
   followed by one message give exactly that message and consume nothing after its last report.
   */
  lemma {:induction false} ReadsThrough(port: Port, c: Codec, command: Byte, evs: seq<Event>,
                                        messages: seq<seq<Packet>>, last: seq<Packet>, payload: seq<Byte>, rest: seq<Event>)
    requires c.Valid() && c.reportSize == port.reportSize && c.command != KEEPALIVE && c.command != ERROR
    requires command == c.command || command == ERROR
    requires Exchange(c.(command := command), messages, last, payload)
    requires Delivers(port, c.channel, evs, Flatten(messages) + last, rest)
    ensures ReadMessage(port, c, evs) == Verdict(command, payload, rest)
    decreases |messages|
  {
    var d := c.(command := command);
    if messages == [] {
      assert Flatten(messages) + last == last;
      CollectFromComplete(port, d, evs, last, payload, rest);
    } else {
      var others := Flatten(messages[1..]) + last;
      assert Flatten(messages) + last == messages[0] + others;
      var mid := DeliversSplit(port, c.channel, evs, messages[0], others, rest);
      KeepaliveSkipped(port, c, d, evs, messages[0], mid);
      ReadsThrough(port, c, command, mid, messages[1..], last, payload, rest);
    }
  }

  lemma KeepaliveSkipped(port: Port, c: Codec, d: Codec, evs: seq<Event>, ps: seq<Packet>, mid: seq<Event>)
    requires c.Valid() && d.Valid() && c.reportSize == port.reportSize && d == c.(command := d.command)
    requires IsKeepalive(d, ps) && Delivers(port, c.channel, evs, ps, mid)
    ensures ReadMessage(port, c, evs) == ReadMessage(port, c, mid)
  {
    var k := c.(command := KEEPALIVE);
    assert d.(command := KEEPALIVE) == k;
    var dropped :| Complete(k, ps, dropped);
    CollectFromComplete(port, k, evs, ps, dropped, mid);
  }

  lemma CollectFromMeans(port: Port, c: Codec, evs: seq<Event>) returns (ps: seq<Packet>)
    requires c.Valid() && c.reportSize == port.reportSize && NextOnChannel(port, c.channel, evs).Got?
    requires var r := NextOnChannel(port, c.channel, evs); CollectFrom(port, c, r.value, r.rest).Got?
    ensures var r := NextOnChannel(port, c.channel, evs);
            var got := CollectFrom(port, c, r.value, r.rest);
            Complete(c, ps, got.value) && Delivers(port, c.channel, evs, ps, got.rest)
  {
    var r := NextOnChannel(port, c.channel, evs);
    var tail := CollectExact(port, c, AddPacket(c, Fresh(), r.value).next, r.rest);
    ps := [r.value] + tail;
    assert ps[1..] == tail;
  }

  /** Conversely, a response or a device error is only ever reported for such a stretch of input. */
  lemma {:induction false} ReadMeans(port: Port, c: Codec, evs: seq<Event>)
    returns (command: Byte, messages: seq<seq<Packet>>, last: seq<Packet>, payload: seq<Byte>, rest: seq<Event>)
    requires c.Valid() && c.reportSize == port.reportSize && c.command != KEEPALIVE && c.command != ERROR
    requires ReadMessage(port, c, evs).Got? || ReadMessage(port, c, evs).error.DeviceError?
    ensures command == c.command || command == ERROR
    ensures Exchange(c.(command := command), messages, last, payload)
    ensures Delivers(port, c.channel, evs, Flatten(messages) + last, rest)
    ensures ReadMessage(port, c, evs) == Verdict(command, payload, rest)
    decreases |evs|
  {
    var r := NextOnChannel(port, c.channel, evs);
    command := if r.value[4] == KEEPALIVE || r.value[4] == ERROR then r.value[4] else c.command;
    var d := c.(command := command);
    var got := CollectFrom(port, d, r.value, r.rest);
    var ps := CollectFromMeans(port, d, evs);
    if command == KEEPALIVE {
      command, messages, last, payload, rest := ReadMeans(port, c, got.rest);
      var all := [ps] + messages;
      assert all[1..] == messages;
      assert c.(command := command).(command := KEEPALIVE) == d;
      assert IsKeepalive(c.(command := command), ps);
      DeliversAppend(port, c.channel, evs, ps, got.rest, Flatten(messages) + last, rest);
      assert ps + (Flatten(messages) + last) == Flatten(all) + last;
      messages := all;
    } else {
      messages, last, payload, rest := [], ps, got.value, got.rest;
      assert Flatten(messages) + last == ps;
    }
  }

  /** The first `n` events hold, on the channel, keepalives and then one message of the given command. */
  ghost predicate Explains(port: Port, c: Codec, command: Byte, evs: seq<Event>, n: nat,
                           messages: seq<seq<Packet>>, last: seq<Packet>, payload: seq<Byte>, rest: seq<Event>)
    requires c.Valid() && command >= 0x80
  {
    && StretchOf(port, c.channel, evs, n, rest)
    && OnChannel(c.channel, evs[..n]) == Flatten(messages) + last
    && Exchange(c.(command := command), messages, last, payload)
  }

  /**
   `ReadMessage` returns a payload, or a device error, exactly when the events consumed hold on
   its channel some complete keepalives and then that one message, ending with its last report.
   */
  lemma ReadMessageExact(port: Port, c: Codec, command: Byte, evs: seq<Event>, payload: seq<Byte>, rest: seq<Event>)
    requires c.Valid() && c.reportSize == port.reportSize && c.command != KEEPALIVE && c.command != ERROR
    requires command == c.command || (command == ERROR && |payload| == 1)
    ensures ReadMessage(port, c, evs) == Verdict(command, payload, rest) <==>
            exists n, messages, last :: Explains(port, c, command, evs, n, messages, last, payload, rest)
  {
    if ReadMessage(port, c, evs) == Verdict(command, payload, rest) {
      var command', messages, last, payload', rest' := ReadMeans(port, c, evs);
      assert command' == command && payload' == payload && rest' == rest;
      var n := DeliversConsumes(port, c.channel, evs, Flatten(messages) + last, rest);
      assert Explains(port, c, command, evs, n, messages, last, payload, rest);
    }
    if n, messages, last :| Explains(port, c, command, evs, n, messages, last, payload, rest) {
      ConsumesDelivers(port, c.channel, evs, n, rest);
      ReadsThrough(port, c, command, evs, messages, last, payload, rest);
    }
  }

  function KeepaliveMessages(c: Codec, payloads: seq<seq<Byte>>): (messages: seq<seq<Packet>>)
    requires c.Valid() && forall i :: 0 <= i < |payloads| ==> |payloads[i]| <= 0xffff
    ensures |messages| == |payloads|
  {
    seq(|payloads|, i requires 0 <= i < |payloads| => Packets(c.(command := KEEPALIVE), payloads[i]))
  }

  /**
   For any interleaving of accepted reports of other channels with fragmented keepalives and one
   fragmented response, exactly that response is returned and nothing past its last report is read.
   */
  lemma FragmentedResponseIsRead(port: Port, c: Codec, evs: seq<Event>, n: nat, keepalives: seq<seq<Byte>>, payload: seq<Byte>)
    requires c.Valid() && c.reportSize == port.reportSize && c.command != KEEPALIVE && c.command != ERROR
    requires |payload| <= 0xffff && forall i :: 0 <= i < |keepalives| ==> |keepalives[i]| <= 0xffff
    requires n <= |evs| && StretchOf(port, c.channel, evs, n, evs[n..])
    requires OnChannel(c.channel, evs[..n]) == Flatten(KeepaliveMessages(c, keepalives)) + Packets(c, payload)
    ensures ReadMessage(port, c, evs) == Got(payload, evs[n..])
  {
    var messages := KeepaliveMessages(c, keepalives);
    forall i | 0 <= i < |messages| ensures IsKeepalive(c, messages[i]) {
      RoundTrip(c.(command := KEEPALIVE), keepalives[i]);
    }
    RoundTrip(c, payload);
    assert c.(command := c.command) == c;
    ConsumesDelivers(port, c.channel, evs, n, evs[n..]);
    ReadsThrough(port, c, c.command, evs, messages, Packets(c, payload), payload, evs[n..]);
  }

  // ----- Complete exchanges are prefix-free ---------------------------------------

  lemma CompletePrefixFree(c: Codec, ps: seq<Packet>, x: seq<Byte>, qs: seq<Packet>, y: seq<Byte>, s: seq<Packet>, t: seq<Packet>)
    requires c.Valid() && Complete(c, ps, x) && Complete(c, qs, y) && ps + s == qs + t
    ensures ps == qs && x == y && s == t
  {
    if |ps| < |qs| {
      assert qs[..|ps|] == (qs + t)[..|ps|] == ps;
      PrefixUnfinished(c, Fresh(), qs, |ps|);
    } else if |qs| < |ps| {
      assert ps[..|qs|] == (ps + s)[..|qs|] == qs;
      PrefixUnfinished(c, Fresh(), ps, |qs|);
    } else {
      assert ps == (ps + s)[..|ps|] && qs == (qs + t)[..|qs|];
      assert s == (ps + s)[|ps|..] && t == (qs + t)[|qs|..];
    }
  }

  /** The first report of an exchange tells whether a keepalive comes first. */
  lemma FirstCommand(c: Codec, messages: seq<seq<Packet>>, last: seq<Packet>, payload: seq<Byte>)
    requires c.Valid() && Exchange(c, messages, last, payload)
    ensures var ps := Flatten(messages) + last;
            |ps| > 0 && |ps[0]| > 4 && ps[0][4] == if messages == [] then c.command else KEEPALIVE
  {
    FirstPacket(c, last, payload);
    if messages != [] {
      assert IsKeepalive(c, messages[0]);
      var dropped :| Complete(c.(command := KEEPALIVE), messages[0], dropped);
      FirstPacket(c.(command := KEEPALIVE), messages[0], dropped);
    }
  }

  lemma FlattenFirst(ms: seq<seq<Packet>>, l: seq<Packet>, s: seq<Packet>)
    requires ms != []
    ensures Flatten(ms) + l + s == ms[0] + (Flatten(ms[1..]) + l + s)
  {
  }

  /** No exchange is a proper prefix of another: the reports alone say where it ends and what it carries. */
  lemma {:induction false} ExchangePrefixFree(c: Codec, ms: seq<seq<Packet>>, l: seq<Packet>, x: seq<Byte>,
                                              d: Codec, ns: seq<seq<Packet>>, k: seq<Packet>, y: seq<Byte>, s: seq<Packet>, t: seq<Packet>)
    requires c.Valid() && d.Valid() && c.command != KEEPALIVE && d.command != KEEPALIVE && d == c.(command := d.command)
    requires Exchange(c, ms, l, x) && Exchange(d, ns, k, y)
    requires Flatten(ms) + l + s == Flatten(ns) + k + t
    ensures c == d && x == y && s == t
    decreases |ms|
  {
    FirstCommand(c, ms, l, x);
    FirstCommand(d, ns, k, y);
    assert (Flatten(ms) + l)[0] == (Flatten(ms) + l + s)[0] == (Flatten(ns) + k + t)[0] == (Flatten(ns) + k)[0];
    assert ms == [] <==> ns == [];
    if ms == [] {
      assert Flatten(ms) + l + s == l + s && Flatten(ns) + k + t == k + t;
      CompletePrefixFree(c, l, x, k, y, s, t);
    } else {
      var q := c.(command := KEEPALIVE);
      assert d.(command := KEEPALIVE) == q && IsKeepalive(c, ms[0]) && IsKeepalive(d, ns[0]);
      var u :| Complete(q, ms[0], u);
      var v :| Complete(q, ns[0], v);
      FlattenFirst(ms, l, s);
      FlattenFirst(ns, k, t);
      CompletePrefixFree(q, ms[0], u, ns[0], v, Flatten(ms[1..]) + l + s, Flatten(ns[1..]) + k + t);
      ExchangePrefixFree(c, ms[1..], l, x, d, ns[1..], k, y, s, t);
    }
  }
}
