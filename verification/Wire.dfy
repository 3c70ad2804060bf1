/** The two wire formats: RIP messages (pkg/ipstack) and TCP segments (pkg/tcpstack). */
module Wire {
  import opened Addresses
  import opened Bytes
  import opened Forwarding
  import opened Rip
  import Slices
  import opened Tcp

  datatype Result<T> = Ok(value: T) | Err

  // ------------------------------------------------------------------ RIP

  datatype RipMessage = RipMessage(command: uint16, numEntries: uint16, entries: seq<RipEntry>)

  const RIP_RESPONSE: uint16 := 2

  /** The message SendRIPResponse builds. */
  function Response(es: seq<RipEntry>): RipMessage {
    RipMessage(RIP_RESPONSE, |es| % TWO16, es)
  }

  function EntryBytes(x: RipEntry): (b: seq<byte>)
    ensures |b| == 12
  {
    Put32(x.cost) + Put32(x.address) + Put32(x.mask)
  }

  function EntriesBytes(es: seq<RipEntry>): (b: seq<byte>)
    ensures |b| == 12 * |es|
  {
    if es == [] then [] else EntriesBytes(es[..|es| - 1]) + EntryBytes(es[|es| - 1])
  }

  function MessageBytes(m: RipMessage): seq<byte> {
    Put16(m.command) + Put16(m.numEntries) + EntriesBytes(m.entries)
  }

  function EntryAt(b: seq<byte>, at: nat): RipEntry
    requires at + 12 <= |b|
  {
    RipEntry(Get32(b, at), Get32(b, at + 4), Get32(b, at + 8))
  }

  /** What UnmarshalRIPMessage makes of the bytes: an error if it runs out of them. */
  function Decode(b: seq<byte>): Result<RipMessage> {
    if |b| < 4 then Err
    else
      var n := Get16(b, 2);
      if |b| < 4 + 12 * n then Err
      else Ok(RipMessage(Get16(b, 0), n, seq(n, i requires 0 <= i < n => EntryAt(b, 4 + 12 * i))))
  }

  method MarshalRIPMessage(m: RipMessage) returns (buf: seq<byte>)
    ensures buf == MessageBytes(m)
  {
    buf := Put16(m.command);
    buf := buf + Put16(m.numEntries);
    for i := 0 to |m.entries|
      invariant buf == Put16(m.command) + Put16(m.numEntries) + EntriesBytes(m.entries[..i])
    {
      var x := m.entries[i];
      assert m.entries[..i + 1][..i] == m.entries[..i];
      buf := buf + Put32(x.cost);
      buf := buf + Put32(x.address);
      buf := buf + Put32(x.mask);
    }
    assert m.entries[..|m.entries|] == m.entries;
  }

  method UnmarshalRIPMessage(message: seq<byte>) returns (r: Result<RipMessage>)
    ensures r == Decode(message)
  {
    if |message| < 2 { return Err; }
    var command := Get16(message, 0);
    if |message| < 4 { return Err; }
    var n := Get16(message, 2);
    var entries: seq<RipEntry> := [];
    var at := 4;
    for i := 0 to n
      invariant at == 4 + 12 * i <= |message|
      invariant |entries| == i && forall k :: 0 <= k < i ==> entries[k] == EntryAt(message, 4 + 12 * k)
    {
      if |message| < at + 4 { return Err; }
      var cost := Get32(message, at);
      if |message| < at + 8 { return Err; }
      var address := Get32(message, at + 4);
      if |message| < at + 12 { return Err; }
      entries := entries + [RipEntry(cost, address, Get32(message, at + 8))];
      at := at + 12;
    }
    assert Decode(message).Ok? && Decode(message).value.entries == entries;
    return Ok(RipMessage(command, n, entries));
  }

  lemma ReadsOneEntry(pre: seq<byte>, x: RipEntry, post: seq<byte>)
    ensures EntryAt(pre + EntryBytes(x) + post, |pre|) == x
  {
    var b := pre + EntryBytes(x) + post;
    var c, a, m := Put32(x.cost), Put32(x.address), Put32(x.mask);
    assert b == pre + c + (a + m + post);
    Get32Within(pre, x.cost, a + m + post);
    assert b == (pre + c) + a + (m + post);
    Get32Within(pre + c, x.address, m + post);
    assert b == (pre + c + a) + m + post;
    Get32Within(pre + c + a, x.mask, post);
  }

  lemma {:induction false} ReadsEntry(pre: seq<byte>, es: seq<RipEntry>, post: seq<byte>, i: nat)
    requires i < |es|
    ensures |pre| + 12 * i + 12 <= |pre + EntriesBytes(es) + post|
    ensures EntryAt(pre + EntriesBytes(es) + post, |pre| + 12 * i) == es[i]
    decreases |es|
  {
    var init, x := es[..|es| - 1], es[|es| - 1];
    assert pre + EntriesBytes(es) + post == pre + EntriesBytes(init) + (EntryBytes(x) + post);
    if i == |es| - 1 {
      assert pre + EntriesBytes(es) + post == (pre + EntriesBytes(init)) + EntryBytes(x) + post;
      ReadsOneEntry(pre + EntriesBytes(init), x, post);
    } else {
      ReadsEntry(pre, init, EntryBytes(x) + post, i);
    }
  }

  /**
   The RIP round trip for a list of any length: what is read back is the list up to its length
   modulo 65536, which is the count the message carries.
   */
  lemma RipRoundTrip(es: seq<RipEntry>)
    ensures Decode(MessageBytes(Response(es))) == Ok(Response(es).(entries := es[..|es| % TWO16]))
  {
    var b := MessageBytes(Response(es));
    var n := |es| % TWO16;
    var head := Put16(RIP_RESPONSE) + Put16(n);
    assert b == head + EntriesBytes(es) + [];
    assert Get16(b, 0) == RIP_RESPONSE && Get16(b, 2) == n;
    forall i: nat | i < n ensures EntryAt(b, 4 + 12 * i) == es[i] {
      ReadsEntry(head, es, [], i);
    }
    assert Decode(b).Ok?;
    assert Decode(b).value.entries == es[..n];
  }

  /**
   The layout of a response: command 2, the count, and 12 bytes for each entry, its cost, address and
   mask, every number with its highest byte first.
   */
  lemma ResponseLayout(es: seq<RipEntry>, i: nat)
    requires i < |es|
    ensures var b := MessageBytes(Response(es));
            && |b| == 4 + 12 * |es|
            && b[..2] == [0, 2] && BigEndian(b[2..4]) == |es| % TWO16
            && BigEndian(b[4 + 12 * i..8 + 12 * i]) == es[i].cost
            && BigEndian(b[8 + 12 * i..12 + 12 * i]) == es[i].address
            && BigEndian(b[12 + 12 * i..16 + 12 * i]) == es[i].mask
  {
    var b := MessageBytes(Response(es));
    var head := Put16(RIP_RESPONSE) + Put16(|es| % TWO16);
    assert b == head + EntriesBytes(es) + [];
    assert Get16(b, 2) == |es| % TWO16;
    ReadsEntry(head, es, [], i);
    BigEndianOf16(b, 2);
    hide EntriesBytes, Get32, BigEndian;
    BigEndianOf32(b, 4 + 12 * i);
    BigEndianOf32(b, 8 + 12 * i);
    BigEndianOf32(b, 12 + 12 * i);
  }

  /** A whole list comes back exactly when it has at most 65535 entries. */
  lemma RipRoundTripIff(es: seq<RipEntry>)
    ensures Decode(MessageBytes(Response(es))) == Ok(Response(es)) <==> |es| < TWO16
  {
    RipRoundTrip(es);
    assert es[..|es| % TWO16] == es <==> |es| < TWO16;
  }

  /** A truncation of a response of any length is rejected exactly if the entries it counts are not all there. */
  lemma TruncationRejectedIff(es: seq<RipEntry>, k: nat)
    requires k <= |MessageBytes(Response(es))|
    ensures Decode(MessageBytes(Response(es))[..k]) == Err <==> k < 4 + 12 * (|es| % TWO16)
  {
    hide EntriesBytes, EntryAt;
    var b := MessageBytes(Response(es));
    assert b == Put16(RIP_RESPONSE) + Put16(|es| % TWO16) + EntriesBytes(es);
    if k >= 4 {
      assert Get16(b[..k], 2) == Get16(b, 2) == |es| % TWO16;
    }
  }

  /** So is every strict truncation of a response of at most 65535 entries. */
  lemma TruncationRejected(es: seq<RipEntry>, k: nat)
    requires |es| < TWO16 && k < |MessageBytes(Response(es))|
    ensures Decode(MessageBytes(Response(es))[..k]) == Err
  {
    TruncationRejectedIff(es, k);
  }

  /** A table sent over the wire: the receiver reads its prefixes and metrics back, in order. */
  lemma TableRoundTrip(t: seq<Route>)
    requires |t| < TWO16
    requires forall i :: 0 <= i < |t| ==> 0 <= t[i].metric < TWO32
    ensures var r := Decode(MessageBytes(Response(Advertise(t))));
            && r.Ok? && |r.value.entries| == |t|
            && forall i :: 0 <= i < |t| ==>
                 PrefixOf(r.value.entries[i]) == t[i].prefix && r.value.entries[i].cost == t[i].metric
  {
    RipRoundTripIff(Advertise(t));
  }

  // ------------------------------------------------------------------ TCP

  datatype TcpHeader = TcpHeader(
    sourcePort: uint16, destPort: uint16, seqNum: uint32, ackNum: uint32,
    dataOffset: byte, flags: byte, windowSize: uint16, checksum: uint16, urgentPtr: uint16)

  function HeaderBytes(h: TcpHeader): (b: seq<byte>)
    ensures |b| == 20
  {
    Put16(h.sourcePort) + Put16(h.destPort) + Put32(h.seqNum) + Put32(h.ackNum)
    + [h.dataOffset * 16 % TWO8, h.flags] + Put16(h.windowSize) + Put16(0) + Put16(h.urgentPtr)
  }

  /** serializeTCPPacket, which refuses a payload of more than 1000 bytes. */
  function SegmentBytes(h: TcpHeader, payload: seq<byte>): Result<seq<byte>> {
    if |payload| > MAX_TCP_PAYLOAD then Err else Ok(HeaderBytes(h) + payload)
  }

  /** ParseTCPHeader; an error stands for the panic on a slice that is too short. */
  function ParseTCPHeader(b: seq<byte>): Result<(TcpHeader, seq<byte>)> {
    if |b| < 20 then Err
    else
      var h := TcpHeader(Get16(b, 0), Get16(b, 2), Get32(b, 4), Get32(b, 8),
                         b[12] / 16, b[13], Get16(b, 14), Get16(b, 16), Get16(b, 18));
      if |b| < 4 * h.dataOffset then Err else Ok((h, b[4 * h.dataOffset..]))
  }

  method PutHeader(packet: array<byte>, h: TcpHeader)
    requires packet.Length >= 20
    modifies packet
    ensures packet[..20] == HeaderBytes(h)
  {
    Slices.Copy(packet, 0, Put16(h.sourcePort));
    Slices.Copy(packet, 2, Put16(h.destPort));
    Slices.Copy(packet, 4, Put32(h.seqNum));
    Slices.Copy(packet, 8, Put32(h.ackNum));
    Slices.Copy(packet, 12, [h.dataOffset * 16 % TWO8, h.flags]);
    Slices.Copy(packet, 14, Put16(h.windowSize));
    Slices.Copy(packet, 16, Put16(0));
    Slices.Copy(packet, 18, Put16(h.urgentPtr));
  }

  method SerializeTCPPacket(h: TcpHeader, payload: seq<byte>) returns (r: Result<seq<byte>>)
    ensures r == SegmentBytes(h, payload)
  {
    if |payload| > MAX_TCP_PAYLOAD {
      return Err;
    }
    var packet := new byte[20 + |payload|](_ => 0);
    PutHeader(packet, h);
    hide HeaderBytes;
    if |payload| > 0 {
      Slices.Copy(packet, 20, payload);
    }
    assert packet[..] == packet[..20 + |payload|] == HeaderBytes(h) + payload;
    return Ok(packet[..]);
  }

  lemma HeaderReadsBack(h: TcpHeader, payload: seq<byte>)
    ensures var b := HeaderBytes(h) + payload;
            && Get16(b, 0) == h.sourcePort && Get16(b, 2) == h.destPort
            && Get32(b, 4) == h.seqNum && Get32(b, 8) == h.ackNum
            && b[12] == h.dataOffset * 16 % TWO8 && b[13] == h.flags
            && Get16(b, 14) == h.windowSize && Get16(b, 16) == 0 && Get16(b, 18) == h.urgentPtr
  {
  }

  /** The layout of a segment, section 3.1 of RFC 9293: every field at its place, and then the payload. */
  lemma SegmentLayout(h: TcpHeader, payload: seq<byte>)
    ensures var b := HeaderBytes(h) + payload;
            && BigEndian(b[0..2]) == h.sourcePort && BigEndian(b[2..4]) == h.destPort
            && BigEndian(b[4..8]) == h.seqNum && BigEndian(b[8..12]) == h.ackNum
            && b[12] == h.dataOffset * 16 % TWO8 && b[13] == h.flags
            && BigEndian(b[14..16]) == h.windowSize && b[16..18] == [0, 0]
            && BigEndian(b[18..20]) == h.urgentPtr && b[20..] == payload
  {
    HeaderReadsBack(h, payload);
    var b := HeaderBytes(h) + payload;
    assert b[20..] == payload;
    hide HeaderBytes, BigEndian;
    assert b[16..18] == [0, 0];
    hide Get16, Get32;
    BigEndianOf16(b, 0);
    BigEndianOf16(b, 2);
    BigEndianOf32(b, 4);
    BigEndianOf32(b, 8);
    BigEndianOf16(b, 14);
    BigEndianOf16(b, 18);
  }

  /**
   The TCP round trip.  Of the segments that can be serialized, exactly those with a data offset
   of 5 are parsed back to their header, with the checksum zeroed, and their payload.
   */
  lemma TcpRoundTripIff(h: TcpHeader, payload: seq<byte>)
    requires |payload| <= MAX_TCP_PAYLOAD
    ensures ParseTCPHeader(SegmentBytes(h, payload).value) == Ok((h.(checksum := 0), payload))
            <==> h.dataOffset == 5
  {
    var b := HeaderBytes(h) + payload;
    HeaderReadsBack(h, payload);
    assert h.dataOffset < 16 ==> h.dataOffset * 16 % TWO8 / 16 == h.dataOffset;
    assert b[20..] == payload;
    if h.dataOffset != 5 && ParseTCPHeader(b).Ok? {
      assert ParseTCPHeader(b).value.0.dataOffset == h.dataOffset ==> |ParseTCPHeader(b).value.1| != |payload|;
    }
  }
}
