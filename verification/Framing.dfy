/** Shared value types: bytes, big-endian integers, a failure type and the outcome of a report write. */
module Values {
  datatype Option<+T> = None | Some(value: T)

  datatype Result<+T, +E> = Ok(value: T) | Err(error: E)

  /** What is known about the delivery of a report. */
  datatype Outcome = Unknown | NotSubmitted | Completed

  type Byte = x: int | 0 <= x < 0x100
  type U16 = x: int | 0 <= x < 0x1_0000
  type U32 = x: int | 0 <= x < 0x1_0000_0000

  function Min(a: int, b: int): int {
    if a < b then a else b
  }

  function PutBe16(v: U16): (s: seq<Byte>)
    ensures |s| == 2
  {
    [v / 0x100, v % 0x100]
  }

  function PutBe32(v: U32): (s: seq<Byte>)
    ensures |s| == 4
  {
    PutBe16(v / 0x1_0000) + PutBe16(v % 0x1_0000)
  }

  function Be16(s: seq<Byte>): (v: U16)
    requires |s| >= 2
  {
    (s[0] as int) * 0x100 + s[1]
  }

  function Be32(s: seq<Byte>): (v: U32)
    requires |s| >= 4
  {
    (Be16(s) as int) * 0x1_0000 + Be16(s[2..])
  }

  /** Two bytes read as `v` exactly when they are the encoding of `v`. */
  lemma Be16Inverts(s: seq<Byte>, v: U16)
    requires |s| >= 2
    ensures Be16(s) == v <==> PutBe16(v) <= s
  {
    assert PutBe16(v) <= s <==> s[0] == v / 0x100 && s[1] == v % 0x100;
  }

  /** Four bytes read as `v` exactly when they are the encoding of `v`. */
  lemma Be32Inverts(s: seq<Byte>, v: U32)
    requires |s| >= 4
    ensures Be32(s) == v <==> PutBe32(v) <= s
  {
    var hi, lo := v / 0x1_0000, v % 0x1_0000;
    Be16Inverts(s, hi);
    Be16Inverts(s[2..], lo);
    assert Be32(s) == v <==> Be16(s) == hi && Be16(s[2..]) == lo;
    assert PutBe32(v) <= s <==> PutBe16(hi) <= s && PutBe16(lo) <= s[2..];
  }

  function Flatten<T>(parts: seq<seq<T>>): seq<T> {
    if parts == [] then [] else parts[0] + Flatten(parts[1..])
  }

  lemma {:induction false} FlattenSnoc<T>(parts: seq<seq<T>>, last: seq<T>)
    ensures Flatten(parts + [last]) == Flatten(parts) + last
  {
    if parts == [] {
      assert [last][1..] == [] && Flatten([last]) == last;
    } else {
      assert (parts + [last])[0] == parts[0] && (parts + [last])[1..] == parts[1..] + [last];
      FlattenSnoc(parts[1..], last);
    }
  }

  lemma Regroup<T>(a: seq<T>, x: seq<T>, b: seq<T>)
    ensures a + x + b == a + (x + b)
  {
  }
}

/**
 HID framing (pkg/wire/hid/codec.go; packet format of section 11.2.4 of CTAP 2.1):
 a payload becomes one initial report and a run of numbered continuation reports,
 and an assembler accepts reports one at a time until the announced length is reached.
 */
module Framing {
  import opened Values

  type Packet = seq<Byte>

  datatype FramingError =
    | InvalidReportSize
    | InvalidCommand
    | PayloadTooLarge
    | InvalidPacket
    | MismatchedChannel
    | UnexpectedCommand
    | UnexpectedSequence
    | IncompletePayload

  datatype Codec = Codec(channel: U32, command: Byte, reportSize: int) {
    predicate Valid() {
      reportSize > 7 && command >= 0x80
    }
  }

  function NewCodec(channel: U32, command: Byte, reportSize: int): (r: Result<Codec, FramingError>)
    ensures r.Ok? <==> Codec(channel, command, reportSize).Valid()
    ensures r.Ok? ==> r.value == Codec(channel, command, reportSize)
  {
    if reportSize <= 7 then Err(InvalidReportSize)
    else if command < 0x80 then Err(InvalidCommand)
    else Ok(Codec(channel, command, reportSize))
  }

  function MaxPayloadSize(reportSize: int): int {
    (reportSize - 7) + 128 * (reportSize - 5)
  }

  // ----- What the wire carries, without the zero padding ---------------------

  /** The used bytes of the initial report: channel, command, total length, first chunk. */
  function InitialBody(c: Codec, total: U16, chunk: seq<Byte>): (b: seq<Byte>)
    ensures |b| == 7 + |chunk|
  {
    PutBe32(c.channel) + [c.command] + PutBe16(total) + chunk
  }

  /** The used bytes of a continuation report: channel, sequence number, chunk. */
  function ContinuationBody(c: Codec, sequence: Byte, chunk: seq<Byte>): (b: seq<Byte>)
    ensures |b| == 5 + |chunk|
  {
    PutBe32(c.channel) + [sequence] + chunk
  }

  /** Continuation bodies for the rest of a payload; the sequence byte wraps as a Go byte does. */
  function ContinuationBodies(c: Codec, sequence: nat, rest: seq<Byte>): (bodies: seq<seq<Byte>>)
    requires c.Valid()
    ensures rest == [] <==> bodies == []
    ensures forall i :: 0 <= i < |bodies| ==> 5 < |bodies[i]| <= c.reportSize
    decreases |rest|
  {
    if rest == [] then []
    else
      var n := Min(|rest|, c.reportSize - 5);
      [ContinuationBody(c, sequence % 0x100, rest[..n])] + ContinuationBodies(c, sequence + 1, rest[n..])
  }

  /** All report bodies of a payload. */
  function Bodies(c: Codec, payload: seq<Byte>): (bodies: seq<seq<Byte>>)
    requires c.Valid() && |payload| <= 0xffff
    ensures |bodies| >= 1
    ensures forall i :: 0 <= i < |bodies| ==> 5 < |bodies[i]| <= c.reportSize
  {
    var n := Min(|payload|, c.reportSize - 7);
    [InitialBody(c, |payload|, payload[..n])] + ContinuationBodies(c, 0, payload[n..])
  }

  function Zeros(n: nat): (z: seq<Byte>)
    ensures |z| == n
  {
    seq(n, _ => 0)
  }

  function Padded(body: seq<Byte>, size: nat): (p: Packet)
    requires |body| <= size
    ensures |p| == size && body <= p
  {
    body + Zeros(size - |body|)
  }

  function PadAll(bodies: seq<seq<Byte>>, size: nat): (ps: seq<Packet>)
    requires forall i :: 0 <= i < |bodies| ==> |bodies[i]| <= size
    ensures |ps| == |bodies|
  {
    seq(|bodies|, i requires 0 <= i < |bodies| => Padded(bodies[i], size))
  }

  /** The reports `Fragment` produces: every body, zero-padded to the report size. */
  function Packets(c: Codec, payload: seq<Byte>): (ps: seq<Packet>)
    requires c.Valid() && |payload| <= 0xffff
    ensures |ps| == |Bodies(c, payload)| >= 1
  {
    PadAll(Bodies(c, payload), c.reportSize)
  }

  // ----- Fragmentation ------------------------------------------------------

  /** Fills one zeroed report buffer with a header and a chunk. */
  method FillReport(header: seq<Byte>, chunk: seq<Byte>, size: nat) returns (p: Packet)
    requires |header| + |chunk| <= size
    ensures p == Padded(header + chunk, size)
  {
    var buffer := new Byte[size](_ => 0);
    forall i | 0 <= i < |header| {
      buffer[i] := header[i];
    }
    forall i | 0 <= i < |chunk| {
      buffer[|header| + i] := chunk[i];
    }
    p := buffer[..];
    assert forall i :: 0 <= i < |chunk| ==> p[|header| + i] == chunk[i];
    assert forall i :: |header| <= i < |header| + |chunk| ==> p[i] == p[|header| + (i - |header|)];
  }

  lemma PadAllAppend(bodies: seq<seq<Byte>>, body: seq<Byte>, size: nat)
    requires |body| <= size && forall i :: 0 <= i < |bodies| ==> |bodies[i]| <= size
    ensures forall i :: 0 <= i < |bodies + [body]| ==> |(bodies + [body])[i]| <= size
    ensures PadAll(bodies + [body], size) == PadAll(bodies, size) + [Padded(body, size)]
  {
  }

  lemma ContinuationStep(c: Codec, done: seq<seq<Byte>>, sequence: nat, rest: seq<Byte>)
    requires c.Valid() && rest != []
    ensures var n := Min(|rest|, c.reportSize - 5);
            done + [ContinuationBody(c, sequence % 0x100, rest[..n])] + ContinuationBodies(c, sequence + 1, rest[n..]) ==
            done + ContinuationBodies(c, sequence, rest)
  {
  }

  /** Rejects exactly the payloads over the framing limits; otherwise emits every report in order. */
  method Fragment(c: Codec, payload: seq<Byte>) returns (r: Result<seq<Packet>, FramingError>)
    requires c.Valid()
    ensures |payload| > MaxPayloadSize(c.reportSize) || |payload| > 0xffff ==> r == Err(PayloadTooLarge)
    ensures |payload| <= MaxPayloadSize(c.reportSize) && |payload| <= 0xffff ==> r == Ok(Packets(c, payload))
  {
    if |payload| > MaxPayloadSize(c.reportSize) || |payload| > 0xffff {
      return Err(PayloadTooLarge);
    }
    var firstSize := Min(|payload|, c.reportSize - 7);
    var header := PutBe32(c.channel) + [c.command] + PutBe16(|payload|);
    var initial := FillReport(header, payload[..firstSize], c.reportSize);
    var packets := [initial];
    var remaining := payload[firstSize..];
    var sequence: nat := 0;
    ghost var bodies := [InitialBody(c, |payload|, payload[..firstSize])];
    assert packets == PadAll(bodies, c.reportSize);
    while |remaining| > 0
      invariant forall i :: 0 <= i < |bodies| ==> |bodies[i]| <= c.reportSize
      invariant packets == PadAll(bodies, c.reportSize)
      invariant bodies + ContinuationBodies(c, sequence, remaining) == Bodies(c, payload)
      decreases |remaining|
    {
      var chunkSize := Min(|remaining|, c.reportSize - 5);
      var next := FillReport(PutBe32(c.channel) + [sequence % 0x100], remaining[..chunkSize], c.reportSize);
      ghost var body := ContinuationBody(c, sequence % 0x100, remaining[..chunkSize]);
      assert next == Padded(body, c.reportSize);
      PadAllAppend(bodies, body, c.reportSize);
      ContinuationStep(c, bodies, sequence, remaining);
      packets := packets + [next];
      bodies := bodies + [body];
      remaining := remaining[chunkSize..];
      sequence := sequence + 1;
    }
    assert bodies == Bodies(c, payload);
    r := Ok(packets);
  }

  // ----- Reassembly ---------------------------------------------------------

  /** The mutable part of an assembler. */
  datatype Assembly = Assembly(started: bool, done: bool, total: int, nextSeq: Byte, buffer: seq<Byte>)

  datatype AddResult = Added(next: Assembly) | Refused(error: FramingError)

  function Fresh(): Assembly {
    Assembly(false, false, -1, 0, [])
  }

  /** What every assembler between two `Add` calls looks like. */
  predicate Sound(a: Assembly) {
    if !a.started then a == Fresh()
    else 0 <= a.total <= 0xffff && |a.buffer| <= a.total && (a.done <==> |a.buffer| == a.total)
  }

  /** One step of reassembly; a refused report leaves the assembler as it was. */
  function AddPacket(c: Codec, a: Assembly, p: Packet): (r: AddResult)
    requires c.Valid() && Sound(a)
    ensures r.Added? ==> Sound(r.next) && r.next.started
  {
    if a.done || |p| != c.reportSize then Refused(InvalidPacket)
    else if Be32(p) != c.channel then Refused(MismatchedChannel)
    else if !a.started then
      if p[4] != c.command then Refused(UnexpectedCommand)
      else
        var total := Be16(p[5..]);
        var n := Min(total, |p| - 7);
        Added(Assembly(true, n >= total, total, a.nextSeq, a.buffer + p[7..7 + n]))
    else if p[4] != a.nextSeq then Refused(UnexpectedSequence)
    else
      var n := Min(a.total - |a.buffer|, |p| - 5);
      var buffer := a.buffer + p[5..5 + n];
      Added(Assembly(true, |buffer| >= a.total, a.total, (a.nextSeq + 1) % 0x100, buffer))
  }

  function AddAll(c: Codec, a: Assembly, ps: seq<Packet>): (r: AddResult)
    requires c.Valid() && Sound(a)
    ensures r.Added? ==> Sound(r.next)
    decreases |ps|
  {
    if ps == [] then Added(a)
    else
      match AddPacket(c, a, ps[0])
      case Refused(e) => Refused(e)
      case Added(next) => AddAll(c, next, ps[1..])
  }

  /** The reports, fed to a fresh assembler, finish one message carrying `payload`. */
  predicate Complete(c: Codec, ps: seq<Packet>, payload: seq<Byte>)
    requires c.Valid()
  {
    var r := AddAll(c, Fresh(), ps);
    r.Added? && r.next.done && r.next.buffer == payload
  }

  class Assembler {
    const codec: Codec
    var started: bool
    var done: bool
    var total: int
    var nextSeq: Byte
    var buffer: seq<Byte>

    ghost function View(): Assembly
      reads this
    {
      Assembly(started, done, total, nextSeq, buffer)
    }

    ghost predicate Valid()
      reads this
    {
      codec.Valid() && Sound(View())
    }

    constructor (codec: Codec)
      requires codec.Valid()
      ensures Valid() && this.codec == codec && View() == Fresh()
    {
      this.codec := codec;
      started, done, total, nextSeq, buffer := false, false, -1, 0, [];
    }

    method Add(packet: Packet) returns (err: Option<FramingError>)
      requires Valid()
      modifies this
      ensures Valid()
      ensures match AddPacket(codec, old(View()), packet)
              case Added(next) => err == None && View() == next
              case Refused(e) => err == Some(e) && View() == old(View())
    {
      if done || |packet| != codec.reportSize {
        return Some(InvalidPacket);
      }
      if Be32(packet) != codec.channel {
        return Some(MismatchedChannel);
      }
      if !started {
        if packet[4] != codec.command {
          return Some(UnexpectedCommand);
        }
        started := true;
        total := Be16(packet[5..]);
        var chunkSize := Min(total, |packet| - 7);
        buffer := buffer + packet[7..7 + chunkSize];
        done := |buffer| >= total;
        return None;
      }
      if packet[4] != nextSeq {
        return Some(UnexpectedSequence);
      }
      nextSeq := (nextSeq + 1) % 0x100;
      var chunkSize := Min(total - |buffer|, |packet| - 5);
      buffer := buffer + packet[5..5 + chunkSize];
      done := |buffer| >= total;
      err := None;
    }

    method Payload() returns (r: Result<seq<Byte>, FramingError>)
      requires Valid()
      ensures r == if done then Ok(buffer) else Err(IncompletePayload)
    {
      if !done {
        return Err(IncompletePayload);
      }
      assert buffer[..total] == buffer;
      r := Ok(buffer[..total]);
    }
  }

  // ----- Framing is invertible, both ways -----------------------------------

  /** Each report has the report size and starts with the corresponding body. */
  predicate Carries(c: Codec, bodies: seq<seq<Byte>>, ps: seq<Packet>) {
    |ps| == |bodies| && forall i :: 0 <= i < |ps| ==> |ps[i]| == c.reportSize && bodies[i] <= ps[i]
  }

  lemma PacketsCarryBodies(c: Codec, payload: seq<Byte>)
    requires c.Valid() && |payload| <= 0xffff
    ensures Carries(c, Bodies(c, payload), Packets(c, payload))
  {
  }

  /** A continuation report is accepted exactly when its header is the expected one. */
  lemma AddContinuation(c: Codec, a: Assembly, p: Packet, rest: seq<Byte>)
    requires c.Valid() && Sound(a) && a.started && !a.done && |rest| == a.total - |a.buffer|
    ensures var n := Min(|rest|, c.reportSize - 5);
            |p| == c.reportSize && ContinuationBody(c, a.nextSeq, rest[..n]) <= p <==>
            AddPacket(c, a, p).Added? && AddPacket(c, a, p).next.buffer == a.buffer + rest[..n]
  {
    var n := Min(|rest|, c.reportSize - 5);
    if |p| == c.reportSize {
      Be32Inverts(p, c.channel);
      var body := ContinuationBody(c, a.nextSeq, rest[..n]);
      assert p[..5 + n] == p[..4] + [p[4]] + p[5..5 + n];
      assert body <= p <==> PutBe32(c.channel) == p[..4] && a.nextSeq == p[4] && rest[..n] == p[5..5 + n] by {
        if body <= p {
          assert body[..4] == PutBe32(c.channel) && body[4] == a.nextSeq && body[5..] == rest[..n];
          assert p[..5 + n] == body;
          assert p[5..5 + n] == p[..5 + n][5..];
        }
      }
      assert a.buffer + p[5..5 + n] == a.buffer + rest[..n] <==> p[5..5 + n] == rest[..n] by {
        assert (a.buffer + p[5..5 + n])[|a.buffer|..] == p[5..5 + n];
        assert (a.buffer + rest[..n])[|a.buffer|..] == rest[..n];
      }
    }
  }

  /** The continuation reports finish with the missing bytes exactly when they carry them. */
  lemma {:induction false} ContinuationsExact(c: Codec, a: Assembly, sequence: nat, rest: seq<Byte>, ps: seq<Packet>)
    requires c.Valid() && Sound(a) && a.started && |rest| == a.total - |a.buffer|
    requires a.nextSeq == sequence % 0x100
    ensures Carries(c, ContinuationBodies(c, sequence, rest), ps) <==>
            AddAll(c, a, ps).Added? && AddAll(c, a, ps).next.done && AddAll(c, a, ps).next.buffer == a.buffer + rest
    decreases |ps|
  {
    var bodies := ContinuationBodies(c, sequence, rest);
    if rest == [] || ps == [] {
    } else {
      var n := Min(|rest|, c.reportSize - 5);
      AddContinuation(c, a, ps[0], rest);
      var tail := ContinuationBodies(c, sequence + 1, rest[n..]);
      assert bodies[0] == ContinuationBody(c, a.nextSeq, rest[..n]) && bodies[1..] == tail;
      CarriesSplit(c, bodies, ps);
      assert a.buffer + rest == a.buffer + rest[..n] + rest[n..];
      var r := AddPacket(c, a, ps[0]);
      if r.Added? {
        var got := r.next.buffer[|a.buffer|..];
        assert |got| == n && r.next.buffer == a.buffer + got;
        if got == rest[..n] {
          ContinuationsExact(c, r.next, sequence + 1, rest[n..], ps[1..]);
        } else {
          AddAllExtends(c, r.next, ps[1..]);
          assert (a.buffer + rest)[|a.buffer|..|a.buffer| + n] == rest[..n];
        }
      }
    }
  }

  /** Reassembly only ever appends to the buffer. */
  lemma {:induction false} AddAllExtends(c: Codec, a: Assembly, ps: seq<Packet>)
    requires c.Valid() && Sound(a)
    ensures AddAll(c, a, ps).Added? ==> a.buffer <= AddAll(c, a, ps).next.buffer
    decreases |ps|
  {
    if ps != [] && AddPacket(c, a, ps[0]).Added? {
      AddAllExtends(c, AddPacket(c, a, ps[0]).next, ps[1..]);
    }
  }

  /** The initial report is accepted exactly when it announces a length and carries its first chunk. */
  lemma AddInitial(c: Codec, p: Packet, payload: seq<Byte>)
    requires c.Valid() && |payload| <= 0xffff
    ensures var n := Min(|payload|, c.reportSize - 7);
            var r := AddPacket(c, Fresh(), p);
            |p| == c.reportSize && InitialBody(c, |payload|, payload[..n]) <= p <==>
            r.Added? && r.next.total == |payload| && r.next.buffer == payload[..n]
  {
    var n := Min(|payload|, c.reportSize - 7);
    if |p| == c.reportSize {
      Be32Inverts(p, c.channel);
      Be16Inverts(p[5..], |payload|);
      var body := InitialBody(c, |payload|, payload[..n]);
      assert body[..4] == PutBe32(c.channel) && body[4] == c.command;
      assert body[5..7] == PutBe16(|payload|) && body[7..] == payload[..n];
      assert p[..7 + n] == p[..4] + [p[4]] + p[5..7] + p[7..7 + n];
      if body <= p {
        assert p[..7 + n] == body;
        assert p[..7 + n][5..7] == p[5..7] && p[..7 + n][7..] == p[7..7 + n];
      }
    }
  }

  /**
   A list of reports assembles to `payload` exactly when it is the fragmentation of
   `payload` on every byte that is not padding.
   */
  lemma FramingExact(c: Codec, ps: seq<Packet>, payload: seq<Byte>)
    requires c.Valid()
    ensures Complete(c, ps, payload) <==> |payload| <= 0xffff && Carries(c, Bodies(c, payload), ps)
  {
    if ps == [] || |payload| > 0xffff {
      return;
    }
    var n := Min(|payload|, c.reportSize - 7);
    var bodies, tail := Bodies(c, payload), ContinuationBodies(c, 0, payload[n..]);
    assert bodies[0] == InitialBody(c, |payload|, payload[..n]) && bodies[1..] == tail;
    AddInitial(c, ps[0], payload);
    CarriesSplit(c, bodies, ps);
    assert payload == payload[..n] + payload[n..];
    var r := AddPacket(c, Fresh(), ps[0]);
    if r.Added? {
      AddAllExtends(c, r.next, ps[1..]);
      AddAllTotal(c, r.next, ps[1..]);
      if r.next.total == |payload| && r.next.buffer == payload[..n] {
        ContinuationsExact(c, r.next, 0, payload[n..], ps[1..]);
      }
    }
  }

  lemma CarriesSplit(c: Codec, bodies: seq<seq<Byte>>, ps: seq<Packet>)
    requires bodies != [] && ps != []
    ensures Carries(c, bodies, ps) <==>
            |ps[0]| == c.reportSize && bodies[0] <= ps[0] && Carries(c, bodies[1..], ps[1..])
  {
    if |ps[0]| == c.reportSize && bodies[0] <= ps[0] && Carries(c, bodies[1..], ps[1..]) {
      forall i | 0 < i < |ps| ensures |ps[i]| == c.reportSize && bodies[i] <= ps[i] {
        assert ps[i] == ps[1..][i - 1] && bodies[i] == bodies[1..][i - 1];
      }
    }
  }

  lemma {:induction false} AddAllTotal(c: Codec, a: Assembly, ps: seq<Packet>)
    requires c.Valid() && Sound(a) && a.started
    ensures AddAll(c, a, ps).Added? ==> AddAll(c, a, ps).next.started && AddAll(c, a, ps).next.total == a.total
    decreases |ps|
  {
    if ps != [] && AddPacket(c, a, ps[0]).Added? {
      AddAllTotal(c, AddPacket(c, a, ps[0]).next, ps[1..]);
    }
  }

  /** Assembling a prefix of an accepted list succeeds, and is unfinished if anything follows. */
  lemma {:induction false} PrefixUnfinished(c: Codec, a: Assembly, ps: seq<Packet>, k: nat)
    requires c.Valid() && Sound(a) && k < |ps| && AddAll(c, a, ps).Added?
    ensures AddAll(c, a, ps[..k]).Added? && !AddAll(c, a, ps[..k]).next.done
    decreases k
  {
    if k > 0 {
      assert ps[..k][0] == ps[0] && ps[..k][1..] == ps[1..][..k - 1];
      PrefixUnfinished(c, AddPacket(c, a, ps[0]).next, ps[1..], k - 1);
    }
  }

  /**
   Feeding the reports of a payload to a fresh assembler succeeds on each, finishes
   exactly at the last and yields the payload, for every length the header can announce.
   */
  lemma RoundTrip(c: Codec, payload: seq<Byte>)
    requires c.Valid() && |payload| <= 0xffff
    ensures Complete(c, Packets(c, payload), payload)
    ensures forall k :: 0 <= k < |Packets(c, payload)| ==>
              var r := AddAll(c, Fresh(), Packets(c, payload)[..k]);
              r.Added? && !r.next.done
  {
    var ps := Packets(c, payload);
    PacketsCarryBodies(c, payload);
    FramingExact(c, ps, payload);
    forall k | 0 <= k < |ps|
      ensures AddAll(c, Fresh(), ps[..k]).Added? && !AddAll(c, Fresh(), ps[..k]).next.done
    {
      PrefixUnfinished(c, Fresh(), ps, k);
    }
  }

  /** Two payloads with the same reports are the same payload. */
  lemma PacketsInjective(c: Codec, p: seq<Byte>, q: seq<Byte>)
    requires c.Valid() && |p| <= 0xffff && |q| <= 0xffff && Packets(c, p) == Packets(c, q)
    ensures p == q
  {
    RoundTrip(c, p);
    RoundTrip(c, q);
  }

  lemma {:induction false} ContinuationHeaders(c: Codec, sequence: nat, rest: seq<Byte>, i: nat)
    requires c.Valid() && i < |ContinuationBodies(c, sequence, rest)|
    ensures ContinuationBodies(c, sequence, rest)[i][..4] == PutBe32(c.channel)
    ensures ContinuationBodies(c, sequence, rest)[i][4] == (sequence + i) % 0x100
    decreases i
  {
    var n := Min(|rest|, c.reportSize - 5);
    if i > 0 {
      ContinuationHeaders(c, sequence + 1, rest[n..], i - 1);
    }
  }

  /** How many bytes `k` continuation reports carry. */
  function Capacity(c: Codec, k: nat): int {
    if k == 0 then 0 else Capacity(c, k - 1) + (c.reportSize - 5)
  }

  lemma {:induction false} CapacityIsProduct(c: Codec, k: nat)
    ensures Capacity(c, k) == k * (c.reportSize - 5)
  {
    if k > 0 {
      CapacityIsProduct(c, k - 1);
      var n := c.reportSize - 5;
      assert (k - 1) * n + n == k * n;
    }
  }

  /** `k` continuation reports are enough exactly when they have the room. */
  lemma {:induction false} ContinuationCount(c: Codec, sequence: nat, rest: seq<Byte>, k: nat)
    requires c.Valid()
    ensures |ContinuationBodies(c, sequence, rest)| <= k <==> |rest| <= Capacity(c, k)
    decreases k
  {
    if k > 0 && rest != [] {
      var n := Min(|rest|, c.reportSize - 5);
      ContinuationCount(c, sequence + 1, rest[n..], k - 1);
      CapacityNonnegative(c, k - 1);
    } else if k > 0 {
      CapacityNonnegative(c, k);
    }
  }

  lemma {:induction false} CapacityNonnegative(c: Codec, k: nat)
    requires c.Valid()
    ensures Capacity(c, k) >= 0
  {
    if k > 0 {
      CapacityNonnegative(c, k - 1);
    }
  }

  lemma InitialHeader(c: Codec, total: U16, chunk: seq<Byte>)
    ensures InitialBody(c, total, chunk)[..4] == PutBe32(c.channel) && InitialBody(c, total, chunk)[4] == c.command
  {
  }

  lemma ContinuationHeader(c: Codec, rest: seq<Byte>, i: nat)
    requires c.Valid() && |rest| <= 128 * (c.reportSize - 5) && i < |ContinuationBodies(c, 0, rest)|
    ensures ContinuationBodies(c, 0, rest)[i][..4] == PutBe32(c.channel)
    ensures ContinuationBodies(c, 0, rest)[i][4] == i < 128
  {
    ContinuationHeaders(c, 0, rest, i);
    CapacityIsProduct(c, 128);
    ContinuationCount(c, 0, rest, 128);
  }

  lemma BodyHeaders(c: Codec, payload: seq<Byte>, i: nat)
    requires c.Valid() && |payload| <= 0xffff && |payload| <= MaxPayloadSize(c.reportSize)
    requires i < |Bodies(c, payload)|
    ensures Bodies(c, payload)[i][..4] == PutBe32(c.channel)
    ensures Bodies(c, payload)[i][4] == if i == 0 then c.command else i - 1
    ensures i <= 128
  {
    var n := Min(|payload|, c.reportSize - 7);
    if i == 0 {
      InitialHeader(c, |payload|, payload[..n]);
    } else {
      ContinuationHeader(c, payload[n..], i - 1);
    }
  }

  /**
   Within the limits `Fragment` accepts, every report names the channel, the first carries
   the command and the others carry sequence numbers 0, 1, 2, ... that stay below 128 and so
   never look like a command.
   */
  lemma PacketHeaders(c: Codec, payload: seq<Byte>, i: nat)
    requires c.Valid() && |payload| <= 0xffff && |payload| <= MaxPayloadSize(c.reportSize)
    requires i < |Packets(c, payload)|
    ensures |Packets(c, payload)[i]| == c.reportSize && Be32(Packets(c, payload)[i]) == c.channel
    ensures i == 0 ==> Packets(c, payload)[0][4] == c.command
    ensures i > 0 ==> Packets(c, payload)[i][4] == i - 1 < 128
  {
    var p, body := Packets(c, payload)[i], Bodies(c, payload)[i];
    BodyHeaders(c, payload, i);
    assert p == Padded(body, c.reportSize);
    assert p[..4] == body[..4];
    Be32Inverts(p, c.channel);
  }

  /**
   The assembler does not enforce the sender's limit: a message of any announced length is
   accepted, so a completed payload can be fragmented again exactly when it is within the limit.
   */
  lemma OversizeAccepted(c: Codec, payload: seq<Byte>)
    requires c.Valid() && MaxPayloadSize(c.reportSize) < |payload| <= 0xffff
    ensures exists ps :: Complete(c, ps, payload)
    ensures exists i :: 129 <= i < |Packets(c, payload)| && Packets(c, payload)[i][4] == 128
  {
    RoundTrip(c, payload);
    var n := c.reportSize - 7;
    var bodies := ContinuationBodies(c, 0, payload[n..]);
    CapacityIsProduct(c, 128);
    ContinuationCount(c, 0, payload[n..], 128);
    assert Bodies(c, payload)[129] == bodies[128];
    assert bodies[128][4] == 128 by {
      ContinuationHeaders(c, 0, payload[n..], 128);
    }
    assert Packets(c, payload)[129] == Padded(bodies[128], c.reportSize);
  }
}
