/**
 One endpoint of a connection, against any network: every user call, timer expiry, probe and arrival
 is one atomic step.
 */
module Endpoint {
  import opened Bytes
  import opened Tcp

  /** The byte that sendZeroWindowProbe has taken out of the buffer, and how often it was sent. */
  datatype Probe = NoProbe | Probing(b: byte, retries: nat)

  datatype Party = Party(conn: Conn, probe: Probe)

  datatype Act =
    | Write(data: seq<byte>)      // one TryWrite of VWrite
    | Send(now: int)              // one pass of the loop in trySendData
    | ProbeStart                  // sendZeroWindowProbe takes its byte
    | ProbeSend                   // one pass of its loop
    | ProbeFinish                 // its loop has ended
    | Expire(now: int)            // the retransmission timer
    | Arrive(seg: Segment)        // HandlePacket
    | ReadSome(n: nat)            // VRead
    | UserClose(now: int)         // VClose
    | TimeWaitEnds                // 2*MSL after TIME_WAIT was entered

  function WithSnd(p: Party, snd: Snd, probe: Probe): Party {
    Party(p.conn.(sock := p.conn.sock.(snd := snd)), probe)
  }

  predicate LoopEnded(p: Party) {
    p.probe.Probing? && (p.conn.sock.snd.wnd != 0 || p.probe.retries >= ZWP_RETRIES)
  }

  /** The end of sendZeroWindowProbe: an error after thirty probes, or NXT past the byte. */
  function FinishProbe(p: Party): Party
    requires p.probe.Probing?
  {
    var snd := p.conn.sock.snd;
    WithSnd(p, if p.probe.retries >= ZWP_RETRIES then snd else snd.(nxt := Add32(snd.nxt, 1)), NoProbe)
  }

  /**
   Whether the endpoint can take the step; `Write` stays below the sequence number wrap.  VWrite and
   VRead look at the state only when they begin, so that their steps may come in any state.
   */
  predicate CanDo(p: Party, act: Act) {
    var snd := p.conn.sock.snd;
    match act
    case Write(data) => snd.iss + 1 + |snd.accepted| + |data| < TWO32
    case Send(_) => p.probe.NoProbe? && SendSize(snd) > 0
    case ProbeStart => p.probe.NoProbe? && snd.wnd == 0 && |snd.buf| > 0
    case ProbeSend => p.probe.Probing? && snd.wnd == 0 && p.probe.retries < ZWP_RETRIES
    case ProbeFinish => LoopEnded(p)
    case Expire(_) => CanRetransmit(snd)
    case Arrive(_) => p.conn.state != Listen
    case ReadSome(_) => true
    case UserClose(_) => CanClose(p.conn)
    case TimeWaitEnds => p.conn.state == TimeWait
  }

  /** What the step makes of the endpoint, and the segments it sends. */
  function Do(p: Party, act: Act): (Party, set<Segment>)
    requires CanDo(p, act)
  {
    var k := p.conn.sock;
    match act
    case Write(data) => (WithSnd(p, Accept(k.snd, data), p.probe), {})
    case Send(now) =>
      var (k', out) := SendOnce(k, now);
      (p.(conn := p.conn.(sock := k')), Sent(out))
    case ProbeStart =>
      (WithSnd(p, k.snd.(buf := k.snd.buf[1..]), Probing(k.snd.buf[0], 0)), {})
    case ProbeSend =>
      (p.(probe := Probing(p.probe.b, p.probe.retries + 1)), {DataSegment(k, [p.probe.b])})
    case ProbeFinish => (FinishProbe(p), {})
    case Expire(now) =>
      var (k', out) := Retransmit(k, now);
      (p.(conn := p.conn.(sock := k')), Sent(out))
    case Arrive(seg) =>
      var (c', out) := Handle(p.conn, seg);
      (p.(conn := c'), Sent(out))
    case ReadSome(n) =>
      (p.(conn := p.conn.(sock := k.(rcv := Read(k.rcv, n)))), {})
    case UserClose(now) =>
      var (c', out) := Close(p.conn, now);
      (p.(conn := c'), Sent(out))
    case TimeWaitEnds => (p.(conn := p.conn.(state := Closed)), {})
  }

  /** A run of the endpoint, whatever its peer and the network do. */
  predicate Acts(p: Party, acts: seq<Act>)
    decreases |acts|
  {
    acts == [] || (CanDo(p, acts[0]) && Acts(Do(p, acts[0]).0, acts[1..]))
  }

  function PartyAfter(p: Party, acts: seq<Act>): Party
    requires Acts(p, acts)
    decreases |acts|
  {
    if acts == [] then p else PartyAfter(Do(p, acts[0]).0, acts[1..])
  }

  /** The number of the first byte written. */
  function Base(snd: Snd): nat {
    snd.iss + 1
  }

  function Pending(p: Party): seq<byte> {
    if p.probe.Probing? then [p.probe.b] else []
  }

  /** What an arrival leaves of the sending half, and that only its data concerns the receiving half. */
  lemma HandleEstablishedFrame(k: Sock, seg: Segment)
    ensures var s := HandleEstablished(k, seg).0.snd;
            && s.buf == k.snd.buf && s.accepted == k.snd.accepted && s.iss == k.snd.iss && s.nxt == k.snd.nxt
            && forall f :: f in s.inFlight ==> f in k.snd.inFlight
    ensures HandleEstablished(k, seg).0.rcv
            == (if |seg.payload| > 0 then HandleData(k.(snd := k.snd.(wnd := seg.window)), seg).0.rcv else k.rcv)
  {
  }
}
