/**
 The FIN of VClose is numbered by the socket's SeqNum and not by NXT.  The side that opened the
 connection has SeqNum at its SYN, below UNA, and the timer only sends packets at or above UNA again:
 its FIN is sent once.
 */
module FinNumbers {
  import opened Bytes
  import opened Endpoint
  import Handshake
  import opened StreamSafety
  import opened Tcp

  /** After VClose with nothing else in flight, the timer sends the FIN again exactly if it is not below UNA. */
  lemma FinIsResentIff(c: Conn, now: int, later: int)
    requires CanClose(c) && c.sock.snd.inFlight == [] && c.sock.snd.retransmissions <= RTO_MAX_RETRIES
    ensures var d := Close(c, now).0;
            && (CanRetransmit(d.sock.snd) <==> c.sock.seqNum >= c.sock.snd.una)
            && (CanRetransmit(d.sock.snd) ==>
                  Retransmit(d.sock, later).1 == [Segment(c.sock.seqNum, c.sock.rcv.nxt, FIN, 0, [])])
  {
    assert Close(c, now).0.sock.snd.inFlight[0].flags == FIN;
  }

  /** Every FIN in flight has the number of the socket, which UNA has passed. */
  predicate FinsBelow(p: Party) {
    var k := p.conn.sock;
    && Synchronized(p.conn.state) && p.conn.state != SynReceived && k.seqNum < k.snd.una
    && forall f :: f in k.snd.inFlight && f.flags.fin ==> f.seqNum == k.seqNum
  }

  /** What a packet leaves alone once the handshake is over. */
  predicate Frame(c: Conn, d: Conn) {
    && d.sock.seqNum == c.sock.seqNum && d.sock.snd.una >= c.sock.snd.una
    && (Synchronized(c.state) && c.state != SynReceived ==> Synchronized(d.state) && d.state != SynReceived)
    && forall f :: f in d.sock.snd.inFlight ==> f in c.sock.snd.inFlight
  }

  predicate NoFins(out: seq<Segment>) {
    forall g :: g in out ==> !g.flags.fin
  }

  lemma PayloadFrame(c: Conn, seg: Segment, relevant: bool)
    ensures var (d, out) := HandlePayload(c, seg, relevant); d.state == c.state && Frame(c, d) && NoFins(out)
  {
    hide Drain, CleanUp, Keep;
  }

  lemma FinFrame(c: Conn, seg: Segment)
    ensures var (d, out) := FinPart(c, seg); Frame(c, d) && NoFins(out)
  {
    hide CleanUp, Keep;
  }

  lemma AckFrame(b: Conn, c: Conn, seg: Segment)
    requires Frame(b, c)
    ensures Frame(b, AckPart(c, seg))
  {
    hide CleanUp, Keep;
  }

  lemma FrameTwice(c: Conn, d: Conn, e: Conn)
    requires Frame(c, d) && Frame(d, e)
    ensures Frame(c, e)
  {
  }

  lemma PacketFrame(c: Conn, seg: Segment)
    requires Synchronized(c.state) && c.state != SynReceived
    ensures var (d, out) := Handle(c, seg); Frame(c, d) && NoFins(out)
  {
    assert Frame(c, c) && Frame(c, c.(state := Closed)) && NoFins([]);
    assert forall x, y :: NoFins(x) && NoFins(y) ==> NoFins(x + y);
    hide FinPart, AckPart, HandlePayload, Frame, NoFins;
    if c.state in {Established, FinWait1, FinWait2} {
      var relevant := (c.state == Established && seg.flags.ack) || |seg.payload| > 0;
      var c1 := HandlePayload(c, seg, relevant).0;
      PayloadFrame(c, seg, relevant);
      AckFrame(c, c1, seg);
      FinFrame(c1, seg);
      FrameTwice(c, c1, FinPart(c1, seg).0);
      AckFrame(c, FinPart(c1, seg).0, seg);
    } else {
      FinFrame(c, seg);
      AckFrame(c, FinPart(c, seg).0, seg);
      AckFrame(c, c, seg);
    }
  }

  lemma DoKeepsBelow(p: Party, act: Act)
    requires FinsBelow(p) && CanDo(p, act)
    ensures FinsBelow(Do(p, act).0)
    ensures act.Expire? ==> !Retransmit(p.conn.sock, act.now).1[0].flags.fin
  {
    if act.Arrive? {
      PacketFrame(p.conn, act.seg);
    }
    hide Handle, SendSize, FreeWindow;
  }

  /** No expiry of the retransmission timer in the run sends a FIN. */
  predicate NoFinResent(p: Party, acts: seq<Act>)
    requires Acts(p, acts)
    decreases |acts|
  {
    acts == [] || (
      && (acts[0].Expire? ==> !Retransmit(p.conn.sock, acts[0].now).1[0].flags.fin)
      && NoFinResent(Do(p, acts[0]).0, acts[1..]))
  }

  lemma {:induction false} BelowIsNotResent(p: Party, acts: seq<Act>)
    requires FinsBelow(p) && Acts(p, acts)
    ensures NoFinResent(p, acts)
    decreases |acts|
  {
    hide FinsBelow, Do, CanDo, Retransmit;
    if acts != [] {
      DoKeepsBelow(p, acts[0]);
      BelowIsNotResent(Do(p, acts[0]).0, acts[1..]);
    }
  }

  /**
   The side that opened the connection never sends its FIN again, whatever it does after the
   handshake and whatever arrives: if that one FIN is lost, its peer will not learn of the close.
   The side that accepted it does send its FIN again, as FinIsResentIff says: its SeqNum is one more
   than its UNA.
   */
  lemma OpenersFinIsNotResent(s: Handshake.State, iss: uint32, now: int, steps: seq<Handshake.Step>, acts: seq<Act>)
    requires Handshake.Start(s, iss, now) && Handshake.Run(s, steps) && iss + 1 < TWO32
    requires var c := Handshake.After(s, steps).client; c.state == Established && Acts(Party(c, NoProbe), acts)
    ensures NoFinResent(Party(Handshake.After(s, steps).client, NoProbe), acts)
    ensures var server := Handshake.After(s, steps).server;
            server.HasChild? && (server.conn.state == Established ==>
              server.conn.sock.seqNum == Add32(server.conn.sock.snd.una, 1))
  {
    Handshake.RunKeeps(s, steps);
    BelowIsNotResent(Party(Handshake.After(s, steps).client, NoProbe), acts);
  }
}
