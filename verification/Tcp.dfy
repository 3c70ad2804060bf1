/**
 The per-connection logic of pkg/tcpstack as functions on values: what each handler, user
 call and timer expiry does to a socket, and which segments it hands to IP.  The class in
 NormalSocket.dfy runs the same operations in place and is proved against these functions.
 */
module Tcp {
  import opened Bytes

  const BUFFER_SIZE: nat := 65535
  const MAX_TCP_PAYLOAD: nat := 1000
  const RTO_MAX_RETRIES := 3
  const ZWP_RETRIES: nat := 30

  // Durations are in nanoseconds, as in time.Duration.
  const SECOND := 1_000_000_000
  const MIN_RTO := SECOND
  const MAX_RTO := 60 * SECOND
  const MSL := 4 * SECOND

  datatype TcpState =
    | Listen | SynSent | SynReceived | Established
    | FinWait1 | FinWait2 | Closing | TimeWait | CloseWait | LastAck | Closed

  datatype Flags = Flags(fin: bool, syn: bool, rst: bool, ack: bool)

  const FIN := Flags(true, false, false, false)
  const SYN := Flags(false, true, false, false)
  const ACK := Flags(false, false, false, true)
  const SYN_ACK := Flags(false, true, false, true)

  datatype Segment = Segment(seqNum: uint32, ackNum: uint32, flags: Flags, window: uint16, payload: seq<byte>)

  /** What the segments handed to IP add to a network that forgets nothing. */
  function Sent(out: seq<Segment>): set<Segment> {
    set x | x in out
  }

  /** The contents of a ring buffer, which never holds more than its capacity. */
  type Ring = s: seq<byte> | |s| <= BUFFER_SIZE

  function Free(ring: Ring): uint16 {
    BUFFER_SIZE - |ring|
  }

  datatype InFlight = InFlight(
    seqNum: uint32, length: uint16, data: seq<byte>, timeSent: int, flags: Flags, windowFlags: uint16)

  datatype Early = Early(seqNum: uint32, data: seq<byte>)

  /** The sending half; `accepted` is every byte VWrite has put into `buf` so far. */
  datatype Snd = Snd(
    buf: Ring, accepted: seq<byte>,
    iss: uint32, una: uint32, nxt: uint32, wnd: uint16,
    rto: int, srtt: int, rttvar: int, retransmissions: nat,
    inFlight: seq<InFlight>)

  /** The receiving half; `taken` is every byte the application has read out of `buf` so far. */
  datatype Rcv = Rcv(
    buf: Ring, taken: seq<byte>,
    wnd: uint16, nxt: uint32, irs: uint32,
    early: seq<Early>)
  {
    /** Everything ever delivered in order. */
    function Log(): seq<byte> {
      taken + buf
    }
  }

  datatype Sock = Sock(seqNum: uint32, ackNum: uint32, snd: Snd, rcv: Rcv)

  /** A connection: the State field of its table entry, and its socket. */
  datatype Conn = Conn(state: TcpState, sock: Sock)

  // ---------------------------------------------------------------- receiving

  /** A blocking ring-buffer write: it returns once the reader has taken whatever did not fit. */
  function Put(r: Rcv, p: seq<byte>): (q: Rcv)
    ensures q.Log() == r.Log() + p
    ensures |q.buf| == Min(|r.buf| + |p|, BUFFER_SIZE)
    ensures |r.buf| + |p| <= BUFFER_SIZE ==> q.taken == r.taken
  {
    var all := r.buf + p;
    var over := if |all| > BUFFER_SIZE then |all| - BUFFER_SIZE else 0;
    assert all[..over] + all[over..] == all;
    var q := r.(buf := all[over..], taken := r.taken + all[..over], nxt := Add32(r.nxt, |p|));
    assert q.Log() == r.taken + all == r.Log() + p;
    q
  }

  /** Index of the first early segment that starts at `s`, or the length of the list. */
  function FindSeq(early: seq<Early>, s: uint32): (i: nat)
    ensures i <= |early|
    ensures i < |early| ==> early[i].seqNum == s
    ensures forall k :: 0 <= k < i ==> early[k].seqNum != s
  {
    if early == [] then 0
    else if early[0].seqNum == s then 0
    else 1 + FindSeq(early[1..], s)
  }

  function RemoveAt<T>(s: seq<T>, i: nat): seq<T>
    requires i < |s|
  {
    s[..i] + s[i + 1..]
  }

  /** Appends early segments for as long as one starts at the next expected number. */
  function Drain(r: Rcv): Rcv
    decreases |r.early|
  {
    var i := FindSeq(r.early, r.nxt);
    if i == |r.early| then r
    else Drain(Put(r, r.early[i].data).(early := RemoveAt(r.early, i)))
  }

  function AckSegment(k: Sock): Segment {
    Segment(k.snd.nxt, k.rcv.nxt, ACK, k.rcv.wnd, [])
  }

  function ProcessInOrder(k: Sock, payload: seq<byte>): (Sock, seq<Segment>) {
    var r := Drain(Put(k.rcv, payload));
    var k' := k.(rcv := r.(wnd := Free(r.buf)));
    (k', [AckSegment(k')])
  }

  function HandleData(k: Sock, seg: Segment): (Sock, seq<Segment>) {
    if seg.seqNum == k.rcv.nxt then ProcessInOrder(k, seg.payload)
    else
      var k' := k.(rcv := k.rcv.(early := k.rcv.early + [Early(seg.seqNum, seg.payload)]));
      (k', [AckSegment(k')])
  }

  /** VRead with a buffer of `n` bytes. */
  function Read(r: Rcv, n: nat): Rcv {
    var m := Min(n, |r.buf|);
    var buf: Ring := r.buf[m..];
    r.(buf := buf, taken := r.taken + r.buf[..m], wnd := Free(buf))
  }

  // ------------------------------------------------- acknowledgements and the RTO

  /** Conversion of a float64 to an integer, which drops the fraction. */
  function Trunc(x: real): int {
    if x >= 0.0 then x.Floor else -((-x).Floor)
  }

  function Abs(x: int): int {
    if x < 0 then -x else x
  }

  /** The RTO arithmetic for one round-trip sample. */
  function Sample(s: Snd, rtt: int): Snd {
    var s1 :=
      if s.srtt == 0 then s.(srtt := rtt, rttvar := Trunc(rtt as real / 2.0))
      else s.(rttvar := Trunc(s.rttvar as real * 0.75 + Abs(s.srtt - rtt) as real * 0.25),
              srtt := Trunc(0.875 * s.srtt as real + 0.125 * rtt as real));
    var rto := s1.srtt + 4 * s1.rttvar;
    s1.(rto := if rto < MIN_RTO then MIN_RTO else if rto > MSL then MSL else rto)
  }

  /** The round-trip time computeRTO works out: against the first packet with that number. */
  function MeasuredRtt(l: seq<InFlight>, seqNum: uint32, received: int): int {
    if l == [] then 0
    else if l[0].seqNum == seqNum then received - l[0].timeSent
    else MeasuredRtt(l[1..], seqNum, received)
  }

  predicate Kept(p: InFlight, ack: uint32) {
    Add32(p.seqNum, p.length) > ack
  }

  /** The in-flight packets that an acknowledgement leaves in the list. */
  function Keep(l: seq<InFlight>, ack: uint32): (k: seq<InFlight>)
    ensures forall p :: p in k ==> p in l && Kept(p, ack)
    ensures forall p :: p in l && Kept(p, ack) ==> p in k
  {
    if l == [] then []
    else if Kept(l[0], ack) then [l[0]] + Keep(l[1..], ack)
    else Keep(l[1..], ack)
  }

  lemma {:induction false} KeepNone(l: seq<InFlight>, ack: uint32)
    requires forall f :: f in l ==> !Kept(f, ack)
    ensures Keep(l, ack) == []
  {
    if l != [] {
      KeepNone(l[1..], ack);
    }
  }

  /** One computeRTO for every acknowledged packet of `l`, in list order. */
  function Samples(s: Snd, l: seq<InFlight>, ack: uint32): (s': Snd)
    ensures s' == s.(rto := s'.rto, srtt := s'.srtt, rttvar := s'.rttvar)
    decreases |l|
  {
    if l == [] then s
    else if Kept(l[0], ack) then Samples(s, l[1..], ack)
    else Samples(Sample(s, MeasuredRtt(s.inFlight, l[0].seqNum, l[0].timeSent)), l[1..], ack)
  }

  function CleanUp(s: Snd, ack: uint32): (s': Snd)
    ensures s' == s.(rto := s'.rto, srtt := s'.srtt, rttvar := s'.rttvar, inFlight := Keep(s.inFlight, ack))
  {
    Samples(s, s.inFlight, ack).(inFlight := Keep(s.inFlight, ack))
  }

  function ProcessAck(s: Snd, ack: uint32): Snd {
    if |s.inFlight| == 0 || ack <= s.una then s
    else CleanUp(s.(una := ack), ack).(retransmissions := 0)
  }

  function HandleEstablished(k: Sock, seg: Segment): (Sock, seq<Segment>) {
    var k0 := k.(snd := k.snd.(wnd := seg.window));
    var (k1, out) := if |seg.payload| > 0 then HandleData(k0, seg) else (k0, []);
    (if seg.flags.ack then k1.(snd := ProcessAck(k1.snd, seg.ackNum)) else k1, out)
  }

  // ------------------------------------------------------------------ sending

  /** What is left of the peer's window, in the source's own uint16 arithmetic. */
  function FreeWindow(s: Snd): uint16 {
    (s.wnd - Sub32(s.nxt, s.una) % TWO16) % TWO16
  }

  /** One TryWrite of VWrite: as many bytes as the send buffer has room for. */
  function Accept(s: Snd, data: seq<byte>): Snd {
    var n := Min(Free(s.buf), |data|);
    s.(buf := s.buf + data[..n], accepted := s.accepted + data[..n])
  }

  /** How many bytes one pass of the loop in trySendData sends; 0 when it has to wait or probe. */
  function SendSize(s: Snd): nat {
    if s.wnd == 0 then 0 else Min(Min(FreeWindow(s), MAX_TCP_PAYLOAD), |s.buf|)
  }

  function DataSegment(k: Sock, payload: seq<byte>): Segment {
    Segment(k.snd.nxt, k.rcv.nxt, ACK, Free(k.rcv.buf), payload)
  }

  /** One pass of the loop in trySendData that sends a data segment, at time `now`. */
  function SendOnce(k: Sock, now: int): (Sock, seq<Segment>)
    requires SendSize(k.snd) > 0
  {
    var s := k.snd;
    var n := SendSize(s);
    var data := s.buf[..n];
    (k.(snd := s.(
          buf := s.buf[n..],
          nxt := Add32(s.nxt, n),
          inFlight := s.inFlight + [InFlight(s.nxt, n, data, now, ACK, 0)])),
     [DataSegment(k, data)])
  }

  /** Index of the first in-flight packet at or above UNA, or the length of the list. */
  function FirstUnacked(l: seq<InFlight>, una: uint32): (i: nat)
    ensures i <= |l|
    ensures i < |l| ==> l[i].seqNum >= una
    ensures forall k :: 0 <= k < i ==> l[k].seqNum < una
  {
    if l == [] then 0
    else if l[0].seqNum >= una then 0
    else 1 + FirstUnacked(l[1..], una)
  }

  /** The in-flight packets with another sequence number. */
  function Others(l: seq<InFlight>, seqNum: uint32): (o: seq<InFlight>)
    ensures forall p :: p in o <==> p in l && p.seqNum != seqNum
  {
    if l == [] then []
    else if l[0].seqNum != seqNum then [l[0]] + Others(l[1..], seqNum)
    else Others(l[1..], seqNum)
  }

  /** Whether an expiry of the retransmission timer sends a packet. */
  predicate CanRetransmit(s: Snd) {
    FirstUnacked(s.inFlight, s.una) < |s.inFlight| && s.retransmissions <= RTO_MAX_RETRIES
  }

  function DoubleRto(rto: int): int {
    if 2 * rto > MAX_RTO then MAX_RTO else 2 * rto
  }

  /** retransmitPacket: the packet goes to the end of the list, without its length. */
  function Retransmit(k: Sock, now: int): (Sock, seq<Segment>)
    requires CanRetransmit(k.snd)
  {
    var s := k.snd;
    var p := s.inFlight[FirstUnacked(s.inFlight, s.una)];
    (k.(snd := s.(
          inFlight := Others(s.inFlight, p.seqNum) + [p.(length := 0, timeSent := now)],
          retransmissions := s.retransmissions + 1,
          rto := DoubleRto(s.rto))),
     [Segment(p.seqNum, k.rcv.nxt, p.flags, p.windowFlags, p.data)])
  }

  // --------------------------------------------------- handshake and tear-down

  /** The socket and entry state that VConnect sets up, and its SYN. */
  function Connect(iss: uint32, now: int): (Conn, seq<Segment>) {
    var snd := Snd([], [], iss, iss, Add32(iss, 1), BUFFER_SIZE, SECOND, 0, 0, 0,
                   [InFlight(iss, 0, [], now, SYN, 0)]);
    (Conn(SynSent, Sock(iss, 0, snd, Rcv([], [], BUFFER_SIZE, 0, 0, []))),
     [Segment(iss, 0, SYN, BUFFER_SIZE, [])])
  }

  /** The child connection that handleSYN inserts, and its SYN-ACK. */
  function Child(syn: Segment, iss: uint32, now: int): (Conn, seq<Segment>) {
    var snd := Snd([], [], iss, iss, Add32(iss, 1), syn.window, MIN_RTO, 0, 0, 0,
                   [InFlight(iss, 0, [], now, SYN_ACK, BUFFER_SIZE)]);
    var next := Add32(syn.seqNum, 1);
    (Conn(SynReceived, Sock(iss, next, snd, Rcv([], [], BUFFER_SIZE, next, syn.seqNum, []))),
     [Segment(iss, next, SYN_ACK, BUFFER_SIZE, [])])
  }

  function HandleSynAck(k: Sock, seg: Segment): (Conn, seq<Segment>) {
    var next := Add32(seg.seqNum, 1);
    var k' := k.(
      ackNum := next,
      rcv := k.rcv.(irs := seg.seqNum, nxt := next),
      snd := k.snd.(una := seg.ackNum, nxt := seg.ackNum, wnd := seg.window, inFlight := []));
    (Conn(Established, k'), [AckSegment(k')])
  }

  /** handleACK on the connection itself; the accept queue is the listener's business. */
  function HandleAck(k: Sock, seg: Segment): (Conn, seq<Segment>) {
    (Conn(Established, k.(seqNum := Add32(k.seqNum, 1),
                          ackNum := Add32(seg.seqNum, 1),
                          snd := CleanUp(k.snd, seg.ackNum))), [])
  }

  function HandleFin(c: Conn, seg: Segment): (Conn, seq<Segment>) {
    var k := c.sock.(rcv := c.sock.rcv.(nxt := Add32(seg.seqNum, 1), wnd := seg.window));
    var state :=
      if c.state == Established then CloseWait
      else if c.state == FinWait2 then TimeWait
      else c.state;
    (Conn(state, k.(snd := CleanUp(k.snd, seg.ackNum))), [AckSegment(k)])
  }

  function HandleClosingAck(c: Conn, seg: Segment): Conn {
    var k := c.sock.(rcv := c.sock.rcv.(wnd := seg.window), snd := CleanUp(c.sock.snd, seg.ackNum));
    Conn(if c.state == FinWait1 then FinWait2 else if c.state == LastAck then Closed else c.state, k)
  }

  /** The part of HandlePacket that handles a payload while closing. */
  function HandlePayload(c: Conn, seg: Segment, relevant: bool): (Conn, seq<Segment>) {
    if relevant then
      var (k, out) := HandleEstablished(c.sock, seg);
      (c.(sock := k), out)
    else (c, [])
  }

  function FinPart(c: Conn, seg: Segment): (Conn, seq<Segment>) {
    if seg.flags.fin then HandleFin(c, seg) else (c, [])
  }

  function AckPart(c: Conn, seg: Segment): Conn {
    if seg.flags.ack then HandleClosingAck(c, seg) else c
  }

  /** HandlePacket on an entry with a normal socket. */
  function Handle(c: Conn, seg: Segment): (Conn, seq<Segment>)
    requires c.state != Listen
  {
    if seg.flags.rst then (c.(state := Closed), [])
    else match c.state
      case SynSent =>
        if seg.flags.syn && seg.flags.ack then HandleSynAck(c.sock, seg) else (c, [])
      case SynReceived =>
        if seg.flags.ack then HandleAck(c.sock, seg) else (c, [])
      case Established =>
        var (c1, out1) := HandlePayload(c, seg, seg.flags.ack || |seg.payload| > 0);
        var (c2, out2) := FinPart(c1, seg);
        (c2, out1 + out2)
      case FinWait1 =>
        var (c1, out1) := HandlePayload(c, seg, |seg.payload| > 0);
        (AckPart(c1, seg), out1)
      case FinWait2 =>
        var (c1, out1) := HandlePayload(c, seg, |seg.payload| > 0);
        var (c2, out2) := FinPart(c1, seg);
        (AckPart(c2, seg), out1 + out2)
      case CloseWait => (c, [])
      case Closing => (AckPart(c, seg), [])
      case TimeWait =>
        var (c1, out1) := FinPart(c, seg);
        (AckPart(c1, seg), out1)
      case LastAck => (AckPart(c, seg), [])
      case Closed => (c, [])
  }

  predicate CanClose(c: Conn) {
    c.state == Established || c.state == CloseWait
  }

  /** VClose: a bare FIN numbered by the socket's SeqNum, and the next state. */
  function Close(c: Conn, now: int): (Conn, seq<Segment>)
    requires CanClose(c)
  {
    var k := c.sock;
    (Conn(if c.state == Established then FinWait1 else LastAck,
          k.(snd := k.snd.(inFlight := k.snd.inFlight + [InFlight(k.seqNum, 0, [], now, FIN, 0)]))),
     [Segment(k.seqNum, k.rcv.nxt, FIN, k.rcv.wnd, [])])
  }
}
