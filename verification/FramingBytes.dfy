/**
 The bytes of CTAPHID reports, position by position, as section 11.2.4 of CTAP 2.1 lays them out: big-endian
 channel and length, the payload in order and without gaps, zeros after it.
 */
module FramingBytes {
  import opened Values
  import opened Framing

  /** Where the chunk of the i-th report starts in the payload. */
  function ChunkStart(c: Codec, i: nat): int {
    if i == 0 then 0 else (c.reportSize - 7) + Capacity(c, i - 1)
  }

  /** Where the chunk starts in its report. */
  function HeaderSize(i: nat): nat {
    if i == 0 then 7 else 5
  }

  predicate ChannelBytes(p: Packet, channel: U32)
    requires |p| >= 4
  {
    p[0] * 0x100_0000 + p[1] * 0x1_0000 + p[2] * 0x100 + p[3] as int == channel
  }

  lemma PutBe32Weights(v: U32)
    ensures ChannelBytes(PutBe32(v), v)
  {
    var hi, lo := v / 0x1_0000, v % 0x1_0000;
    assert PutBe32(v) == [hi / 0x100, hi % 0x100, lo / 0x100, lo % 0x100];
  }

  /** The first continuation. */
  lemma ContinuationHead(c: Codec, sequence: nat, rest: seq<Byte>)
    requires c.Valid() && rest != []
    ensures var all := ContinuationBodies(c, sequence, rest);
            && all != [] && all[0] == ContinuationBody(c, sequence % 0x100, rest[..Min(|rest|, c.reportSize - 5)])
            && (|all| == 1 <==> |rest| <= c.reportSize - 5)
  {
  }

  /** The others are the continuations of what the first leaves. */
  lemma ContinuationTail(c: Codec, sequence: nat, rest: seq<Byte>, i: nat)
    requires c.Valid() && 0 < i < |ContinuationBodies(c, sequence, rest)|
    ensures var k, all := c.reportSize - 5, ContinuationBodies(c, sequence, rest);
            && |rest| > k && |all| == 1 + |ContinuationBodies(c, sequence + 1, rest[k..])|
            && all[i] == ContinuationBodies(c, sequence + 1, rest[k..])[i - 1]
  {
  }

  /** The reports after the first are the continuations of what it leaves. */
  lemma BodyTail(c: Codec, payload: seq<Byte>, i: nat)
    requires c.Valid() && |payload| <= 0xffff && 0 < i < |Packets(c, payload)|
    ensures var k := c.reportSize - 7;
            && |payload| > k && |Packets(c, payload)| == 1 + |ContinuationBodies(c, 0, payload[k..])|
            && Bodies(c, payload)[i] == ContinuationBodies(c, 0, payload[k..])[i - 1]
  {
  }

  lemma BodyHead(c: Codec, payload: seq<Byte>)
    requires c.Valid() && |payload| <= 0xffff
    ensures var n := Min(|payload|, c.reportSize - 7);
            && Bodies(c, payload)[0] == InitialBody(c, |payload|, payload[..n])
            && (|Packets(c, payload)| == 1 <==> n == |payload|)
  {
  }

  lemma Subslice<T>(s: seq<T>, k: int, a: int, b: int)
    requires 0 <= k <= a <= b <= |s|
    ensures s[k..][a - k..b - k] == s[a..b]
  {
  }

  /** A body is that of the i-th continuation of these bytes: the chunk after i whole ones. */
  ghost predicate Chunk(c: Codec, sequence: nat, rest: seq<Byte>, i: nat, body: seq<Byte>, last: bool) {
    var m, at := c.reportSize - 5, Capacity(c, i);
    && 0 <= at < |rest| && m > 0
    && body == ContinuationBody(c, (sequence + i) % 0x100, rest[at..at + Min(|rest| - at, m)])
    && (last <==> at + Min(|rest| - at, m) == |rest|)
  }

  /** One chunk further on is one continuation later. */
  lemma ChunkLater(c: Codec, sequence: nat, rest: seq<Byte>, i: nat, body: seq<Byte>, last: bool)
    requires c.Valid() && i > 0 && |rest| > c.reportSize - 5 && Chunk(c, sequence + 1, rest[c.reportSize - 5..], i - 1, body, last)
    ensures Chunk(c, sequence, rest, i, body, last)
  {
    var m, at := c.reportSize - 5, Capacity(c, i);
    var n := Min(|rest| - at, m);
    Subslice(rest, m, at, at + n);
  }

  /** The i-th continuation carries the chunk after the i chunks before it. */
  lemma {:induction false} ContinuationAt(c: Codec, sequence: nat, rest: seq<Byte>, i: nat)
    requires c.Valid() && rest != [] && i < |ContinuationBodies(c, sequence, rest)|
    ensures Chunk(c, sequence, rest, i, ContinuationBodies(c, sequence, rest)[i], i == |ContinuationBodies(c, sequence, rest)| - 1)
    decreases i
  {
    if i == 0 {
      ContinuationHead(c, sequence, rest);
      assert rest[0..0 + Min(|rest|, c.reportSize - 5)] == rest[..Min(|rest|, c.reportSize - 5)];
    } else {
      ContinuationTail(c, sequence, rest, i);
      var tail := rest[c.reportSize - 5..];
      ContinuationAt(c, sequence + 1, tail, i - 1);
      ChunkLater(c, sequence, rest, i, ContinuationBodies(c, sequence, rest)[i], i == |ContinuationBodies(c, sequence, rest)| - 1);
    }
  }

  lemma LaterBody(c: Codec, payload: seq<Byte>, i: nat, start: int, n: int)
    requires c.Valid() && |payload| <= 0xffff && 0 < i < |Packets(c, payload)|
    requires start == ChunkStart(c, i) && n == Min(|payload| - start, c.reportSize - 5)
    ensures 0 <= start <= start + n <= |payload|
    ensures Bodies(c, payload)[i] == ContinuationBody(c, (i - 1) % 0x100, payload[start..start + n])
    ensures i == |Packets(c, payload)| - 1 <==> start + n == |payload|
  {
    BodyTail(c, payload, i);
    ContinuationAt(c, 0, payload[c.reportSize - 7..], i - 1);
    ChunkOfPayload(c, payload, i, start, n, Bodies(c, payload)[i], i == |Packets(c, payload)| - 1);
  }

  lemma ChunkOfPayload(c: Codec, payload: seq<Byte>, i: nat, start: int, n: int, body: seq<Byte>, last: bool)
    requires c.Valid() && i > 0 && |payload| > c.reportSize - 7
    requires start == ChunkStart(c, i) && n == Min(|payload| - start, c.reportSize - 5)
    requires Chunk(c, 0, payload[c.reportSize - 7..], i - 1, body, last)
    ensures 0 <= start <= start + n <= |payload|
    ensures body == ContinuationBody(c, (i - 1) % 0x100, payload[start..start + n]) && (last <==> start + n == |payload|)
  {
    Subslice(payload, c.reportSize - 7, start, start + n);
  }

  /** The body of any report: its header and its chunk of the payload. */
  lemma BodyAt(c: Codec, payload: seq<Byte>, i: nat, start: int, n: int)
    requires c.Valid() && |payload| <= 0xffff && i < |Packets(c, payload)|
    requires start == ChunkStart(c, i) && n == Min(|payload| - start, c.reportSize - HeaderSize(i))
    ensures 0 <= start <= start + n <= |payload|
    ensures Bodies(c, payload)[i] ==
            if i == 0 then InitialBody(c, |payload|, payload[start..start + n]) else ContinuationBody(c, (i - 1) % 0x100, payload[start..start + n])
    ensures i == |Packets(c, payload)| - 1 <==> start + n == |payload|
  {
    if i == 0 {
      BodyHead(c, payload);
      assert payload[0..0 + n] == payload[..n];
    } else {
      LaterBody(c, payload, i, start, n);
    }
  }

  /**
   Every report of a payload, byte by byte: channel, command and length or sequence number by weights, its chunk
   of the payload, zeros to the end; the last report is the one that completes the payload.
   */
  lemma ReportBytes(c: Codec, payload: seq<Byte>, i: nat, start: int, n: int)
    requires c.Valid() && |payload| <= 0xffff && i < |Packets(c, payload)|
    requires start == ChunkStart(c, i) && n == Min(|payload| - start, c.reportSize - HeaderSize(i))
    ensures 0 <= start <= start + n <= |payload|
    ensures var p, h := Packets(c, payload)[i], HeaderSize(i);
            && |p| == c.reportSize && ChannelBytes(p, c.channel)
            && (i == 0 ==> p[4] == c.command && p[5] * 0x100 + p[6] as int == |payload|)
            && (i > 0 ==> p[4] == (i - 1) % 0x100)
            && p[h..h + n] == payload[start..start + n]
            && (forall t :: h + n <= t < c.reportSize ==> p[t] == 0)
    ensures i == |Packets(c, payload)| - 1 <==> start + n == |payload|
  {
    BodyAt(c, payload, i, start, n);
    PaddedBytes(c, Bodies(c, payload)[i], payload[start..start + n], i, |payload|);
    assert Packets(c, payload)[i] == Padded(Bodies(c, payload)[i], c.reportSize);
  }

  lemma PaddedBytes(c: Codec, body: seq<Byte>, chunk: seq<Byte>, i: nat, total: U16)
    requires c.Valid() && HeaderSize(i) + |chunk| <= c.reportSize
    requires body == if i == 0 then InitialBody(c, total, chunk) else ContinuationBody(c, (i - 1) % 0x100, chunk)
    ensures var p, h := Padded(body, c.reportSize), HeaderSize(i);
            && ChannelBytes(p, c.channel)
            && (i == 0 ==> p[4] == c.command && p[5] * 0x100 + p[6] as int == total)
            && (i > 0 ==> p[4] == (i - 1) % 0x100)
            && p[h..h + |chunk|] == chunk
            && (forall t :: h + |chunk| <= t < c.reportSize ==> p[t] == 0)
  {
    PutBe32Weights(c.channel);
    var p := Padded(body, c.reportSize);
    var channel := PutBe32(c.channel);
    assert p[0] == channel[0] && p[1] == channel[1] && p[2] == channel[2] && p[3] == channel[3];
    if i == 0 {
      assert PutBe16(total) == [total / 0x100, total % 0x100];
      assert p[5] == total / 0x100 && p[6] == total % 0x100;
    }
  }

  /** The chunks follow one another: the first report takes 7 bytes off its size for the header, the others 5. */
  lemma ChunkStartExact(c: Codec, i: nat)
    ensures ChunkStart(c, i) == if i == 0 then 0 else (c.reportSize - 7) + (i - 1) * (c.reportSize - 5)
  {
    if i > 0 {
      CapacityIsProduct(c, i - 1);
    }
  }

  /** The sender's limit is exactly what fits into one initial and 128 continuation reports; 7609 bytes in 64-byte reports. */
  lemma LimitExact(c: Codec, payload: seq<Byte>)
    requires c.Valid() && |payload| <= 0xffff
    ensures |payload| <= MaxPayloadSize(c.reportSize) <==> |Packets(c, payload)| <= 129
    ensures c.reportSize == 64 ==> MaxPayloadSize(c.reportSize) == 7609
  {
    var n := Min(|payload|, c.reportSize - 7);
    ContinuationCount(c, 0, payload[n..], 128);
    CapacityIsProduct(c, 128);
  }
}
