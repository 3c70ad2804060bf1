/**
 What the retransmission timer sends.  A packet is sent again with the window it was put in flight
 with, which for data is zero: whoever gets it takes the window of its peer for closed.
 */
module Retransmission {
  import opened Bytes
  import opened Endpoint
  import opened Rto
  import opened Tcp

  /**
   An expiry sends the first packet at or above UNA again, acknowledging what has been delivered by
   now.  It stays in flight, as the last one, since `now` and without a length; the others stay as
   they are.
   */
  lemma ResendsOldest(k: Sock, now: int) returns (i: nat)
    requires CanRetransmit(k.snd)
    ensures var (k', out) := Retransmit(k, now);
            var l := k.snd.inFlight;
            var l' := k'.snd.inFlight;
            && i < |l| && l[i].seqNum >= k.snd.una && (forall j :: 0 <= j < i ==> l[j].seqNum < k.snd.una)
            && out == [Segment(l[i].seqNum, k.rcv.nxt, l[i].flags, l[i].windowFlags, l[i].data)]
            && l' != [] && l'[|l'| - 1] == l[i].(length := 0, timeSent := now)
            && (forall f: InFlight :: f.seqNum != l[i].seqNum ==> (f in l' <==> f in l))
            && (forall f :: f in l' && f.seqNum == l[i].seqNum ==> f == l'[|l'| - 1])
            && k' == k.(snd := k.snd.(inFlight := l', rto := k'.snd.rto, retransmissions := k'.snd.retransmissions))
  {
    i := FirstUnacked(k.snd.inFlight, k.snd.una);
    hide FirstUnacked, Others;
  }

  /** Data is put in flight without a window. */
  predicate NoWindows(s: Snd) {
    forall f :: f in s.inFlight && f.data != [] ==> f.windowFlags == 0
  }

  lemma PacketKeepsFlight(c: Conn, seg: Segment)
    requires c.state != Listen
    ensures forall f :: f in Handle(c, seg).0.sock.snd.inFlight ==> f in c.sock.snd.inFlight
  {
    hide HandleData, CleanUp, Keep;
    EstablishedSnd(c.sock, seg);
  }

  lemma DoKeepsNoWindows(p: Party, act: Act)
    requires NoWindows(p.conn.sock.snd) && CanDo(p, act)
    ensures NoWindows(Do(p, act).0.conn.sock.snd)
  {
    if act.Arrive? {
      PacketKeepsFlight(p.conn, act.seg);
    } else if act.Expire? {
      var i := ResendsOldest(p.conn.sock, act.now);
      hide Retransmit;
    }
    hide Handle, SendSize, FreeWindow;
  }

  lemma {:induction false} ActsKeepNoWindows(p: Party, acts: seq<Act>)
    requires NoWindows(p.conn.sock.snd) && Acts(p, acts)
    ensures NoWindows(PartyAfter(p, acts).conn.sock.snd)
    decreases |acts|
  {
    hide NoWindows, Do, CanDo;
    if acts != [] {
      DoKeepsNoWindows(p, acts[0]);
      ActsKeepNoWindows(Do(p, acts[0]).0, acts[1..]);
    }
  }

  /**
   After any run of an endpoint, from VConnect or a SYN on: data that is sent again advertises a
   window of 0, and an established peer that gets it can send no data until another segment comes.
   */
  lemma ResentDataClosesWindow(c: Conn, iss: uint32, syn: Segment, t: int, acts: seq<Act>, now: int, peer: Conn)
    requires Opens(c, iss, syn, t) && Acts(Party(c, NoProbe), acts)
    requires CanRetransmit(PartyAfter(Party(c, NoProbe), acts).conn.sock.snd)
    requires peer.state == Established
    ensures var g := Retransmit(PartyAfter(Party(c, NoProbe), acts).conn.sock, now).1[0];
            g.payload != [] && !g.flags.rst ==>
              g.window == 0 && Handle(peer, g).0.sock.snd.wnd == 0 && SendSize(Handle(peer, g).0.sock.snd) == 0
  {
    ActsKeepNoWindows(Party(c, NoProbe), acts);
    var k := PartyAfter(Party(c, NoProbe), acts).conn.sock;
    hide PartyAfter, Acts;
    var i := ResendsOldest(k, now);
    var g := Retransmit(k, now).1[0];
    assert k.snd.inFlight[i] in k.snd.inFlight;
    hide Retransmit, Drain, CleanUp, NoWindows;
    if g.payload != [] && !g.flags.rst {
      EstablishedSnd(peer.sock, g);
    }
  }
}
