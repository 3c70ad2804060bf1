/**
 What the acknowledgement numbers say.  Every segment acknowledges what its sender has delivered at
 that moment; so that, over any run up to the first FIN, whatever a side takes for acknowledged has
 been delivered to its peer.
 */
module Acknowledgement {
  import opened Bytes
  import Delivery
  import opened Endpoint
  import Reassembly
  import opened StreamSafety
  import opened Tcp
  import opened TwoSides

  /** A FIN brings no data, as the source sends it. */
  predicate BareFin(act: Act) {
    act.Arrive? && act.seg.flags.fin ==> act.seg.payload == []
  }

  /** The segment is a bare ACK of what the socket has delivered. */
  predicate AcksNext(g: Segment, k: Sock) {
    g.ackNum == k.rcv.nxt && g.flags == ACK && g.payload == [] && g.seqNum == k.snd.nxt
  }

  lemma PayloadAcknowledges(c: Conn, seg: Segment, relevant: bool)
    ensures var (d, out) := HandlePayload(c, seg, relevant);
            && d.state == c.state && (forall g :: g in out ==> AcksNext(g, d.sock))
            && (seg.payload == [] ==> out == [])
  {
    hide Drain, CleanUp;
  }

  lemma PacketAcknowledges(c: Conn, seg: Segment)
    requires c.state != Listen && BareFin(Arrive(seg))
    ensures var (d, out) := Handle(c, seg); forall g :: g in out ==> AcksNext(g, d.sock)
  {
    PayloadAcknowledges(c, seg, |seg.payload| > 0);
    PayloadAcknowledges(c, seg, seg.flags.ack || |seg.payload| > 0);
    hide HandlePayload, CleanUp;
  }

  /**
   Whatever is sent, data, probe, retransmission, FIN or reply, acknowledges exactly the bytes
   delivered so far: its number is RCV.NXT after the step.
   */
  lemma SentAcknowledges(p: Party, act: Act)
    requires CanDo(p, act) && BareFin(act)
    ensures var (p', out) := Do(p, act);
            forall g :: g in out ==> g.ackNum == p'.conn.sock.rcv.nxt
  {
    if act.Arrive? {
      PacketAcknowledges(p.conn, act.seg);
    }
    hide Handle, SendSize, FreeWindow, Retransmit, Others;
    if act.Expire? {
      assert Retransmit(p.conn.sock, act.now).1[0].ackNum == p.conn.sock.rcv.nxt;
    }
  }

  // ------------------------------------------------------------------ the window

  /** Until a FIN or an acknowledgement of the close overwrites it, WND is the free space of the buffer. */
  predicate WindowIsFree(c: Conn) {
    c.state in {SynSent, SynReceived, Established} ==> c.sock.rcv.wnd == BUFFER_SIZE - |c.sock.rcv.buf|
  }

  lemma PacketWindow(c: Conn, seg: Segment)
    requires c.state in {SynSent, SynReceived, Established} && WindowIsFree(c)
    ensures var (d, out) := Handle(c, seg);
            && WindowIsFree(d)
            && (!seg.flags.fin ==> forall g :: g in out ==> g.window == BUFFER_SIZE - |d.sock.rcv.buf|)
  {
    hide Drain, CleanUp;
  }

  lemma StaysPast(c: Conn, seg: Segment)
    requires c.state !in {Listen, SynSent, SynReceived, Established}
    ensures Handle(c, seg).0.state !in {SynSent, SynReceived, Established}
  {
    hide HandleEstablished, CleanUp;
  }

  predicate NoFinArrives(act: Act) {
    act.Arrive? ==> !act.seg.flags.fin
  }

  lemma DoWindow(p: Party, act: Act)
    requires CanDo(p, act) && WindowIsFree(p.conn)
    ensures var (p', out) := Do(p, act);
            && WindowIsFree(p'.conn)
            && (p.conn.state in {SynSent, SynReceived, Established} && !act.Expire? && NoFinArrives(act) ==>
                  forall g :: g in out ==> g.window == BUFFER_SIZE - |p'.conn.sock.rcv.buf|)
  {
    hide Handle, SendSize, FreeWindow, Others, FirstUnacked;
    if act.Arrive? {
      if p.conn.state in {SynSent, SynReceived, Established} {
        PacketWindow(p.conn, act.seg);
      } else {
        StaysPast(p.conn, act.seg);
      }
      hide Read, Accept, SendOnce, Close;
    }
  }

  lemma {:induction false} ActsWindow(p: Party, acts: seq<Act>)
    requires Acts(p, acts) && WindowIsFree(p.conn)
    ensures WindowIsFree(PartyAfter(p, acts).conn)
    decreases |acts|
  {
    hide Do, CanDo, WindowIsFree;
    if acts != [] {
      DoWindow(p, acts[0]);
      ActsWindow(Do(p, acts[0]).0, acts[1..]);
    }
  }

  /**
   Whatever an endpoint sends until it takes a FIN or has closed, its FIN included but not what is
   sent again, advertises exactly the free space of its receive buffer.
   */
  lemma AdvertisesFreeSpace(c: Conn, acts: seq<Act>, act: Act)
    requires WindowIsFree(c) && Acts(Party(c, NoProbe), acts) && CanDo(PartyAfter(Party(c, NoProbe), acts), act)
    requires PartyAfter(Party(c, NoProbe), acts).conn.state in {SynSent, SynReceived, Established}
    requires !act.Expire? && NoFinArrives(act)
    ensures var (p', out) := Do(PartyAfter(Party(c, NoProbe), acts), act);
            forall g :: g in out ==> g.window == BUFFER_SIZE - |p'.conn.sock.rcv.buf|
  {
    ActsWindow(Party(c, NoProbe), acts);
    DoWindow(PartyAfter(Party(c, NoProbe), acts), act);
    hide Do;
  }

  // ------------------------------------------------------------------ every run

  lemma PacketUna(c: Conn, seg: Segment)
    requires c.state != Listen
    ensures var una := Handle(c, seg).0.sock.snd.una;
            una == c.sock.snd.una || (seg.flags.ack && una == seg.ackNum)
  {
    hide Drain, CleanUp;
  }

  /** Up to a FIN, NXT never moves back. */
  lemma PacketGrows(c: Conn, seg: Segment, snd: Snd)
    requires Open(c.state) && Follows(c, snd) && Honest(snd, seg.flags, seg.seqNum, seg.payload) && !seg.flags.fin
    ensures var d := Handle(c, seg).0; Open(d.state) && d.sock.rcv.nxt >= c.sock.rcv.nxt
  {
    hide Drain, CleanUp, Reassembly.Carries;
    if |seg.payload| > 0 && c.state != SynReceived {
      Delivery.HandleIsHandleData(c, seg);
      Reassembly.HandleDataFaithful(c.sock.(snd := c.sock.snd.(wnd := seg.window)), seg, snd.accepted, Base(snd));
      hide Handle, HandleData;
    }
  }

  /** Nothing that the side has sent, and nothing that its peer takes for acknowledged, is beyond its NXT. */
  ghost predicate AckOk(s: State, side: Side) {
    var p, q := Local(s, side), Local(s, Other(side));
    && Open(p.conn.state)
    && q.conn.sock.snd.una <= p.conn.sock.rcv.nxt
    && forall g :: g in Inbox(s, Other(side)) && g.flags.ack ==> g.ackNum <= p.conn.sock.rcv.nxt
  }

  lemma DoGrows(p: Party, q: Party, act: Act)
    requires CanDo(p, act) && Open(p.conn.state) && Receiver(p, q)
    requires act.Arrive? ==> !act.seg.flags.fin
                             && Honest(q.conn.sock.snd, act.seg.flags, act.seg.seqNum, act.seg.payload)
    ensures var p' := Do(p, act).0; Open(p'.conn.state) && p'.conn.sock.rcv.nxt >= p.conn.sock.rcv.nxt
  {
    if act.Arrive? {
      PacketGrows(p.conn, act.seg, q.conn.sock.snd);
    }
    hide Handle, SendSize, FreeWindow, Follows;
  }

  lemma DoUna(p: Party, act: Act)
    requires CanDo(p, act)
    ensures var una := Do(p, act).0.conn.sock.snd.una;
            una == p.conn.sock.snd.una || (act.Arrive? && act.seg.flags.ack && una == act.seg.ackNum)
  {
    if act.Arrive? {
      PacketUna(p.conn, act.seg);
    }
    hide Handle, SendSize, FreeWindow;
  }

  lemma StepKeepsAcks(s: State, step: Step, side: Side)
    requires Safe(s) && CanStep(s, step) && NoFinArrives(step.act) && AckOk(s, A) && AckOk(s, B)
    ensures AckOk(TakeStep(s, step), side)
  {
    var here, there := step.side, Other(step.side);
    var p, q := Local(s, here), Local(s, there);
    assert Other(there) == here && AckOk(s, here) && AckOk(s, there);
    assert SideIsSafe(s, here) && SideIsSafe(s, there);
    DoGrows(p, q, step.act);
    DoUna(p, step.act);
    SentAcknowledges(p, step.act);
    hide Do, CanDo, Sender, Receiver;
  }

  predicate NoFins(steps: seq<Step>) {
    forall i :: 0 <= i < |steps| ==> NoFinArrives(steps[i].act)
  }

  lemma {:induction false} RunKeepsAcks(s: State, steps: seq<Step>, side: Side)
    requires Safe(s) && Run(s, steps) && ProbesHold(s, steps) && NoFins(steps) && AckOk(s, A) && AckOk(s, B)
    ensures AckOk(After(s, steps), side)
    decreases |steps|
  {
    hide Safe, CanStep, TakeStep, ProbeHolds, AckOk;
    if steps != [] {
      StepKeepsSafeIff(s, steps[0]);
      StepKeepsAcks(s, steps[0], A);
      StepKeepsAcks(s, steps[0], B);
      RunKeepsAcks(TakeStep(s, steps[0]), steps[1..], side);
    }
  }

  /**
   Only what is delivered is acknowledged.  After any run in which no probe gives up and no FIN
   arrives, no acknowledgement in the network, and no UNA, is beyond what the other side has
   delivered: the bytes below UNA are in the peer's log.
   */
  lemma OnlyDeliveredIsAcknowledged(s: State, steps: seq<Step>, side: Side)
    requires Start(s) && Run(s, steps) && ProbesHold(s, steps) && NoFins(steps)
    ensures var t := After(s, steps);
            var snd, rcv := Local(t, side).conn.sock.snd, Local(t, Other(side)).conn.sock.rcv;
            && (forall g :: g in Inbox(t, side) && g.flags.ack ==> g.ackNum <= rcv.nxt)
            && snd.una <= rcv.nxt == Base(snd) + |rcv.Log()|
  {
    assert AckOk(s, A) && AckOk(s, B) by {
      assert Fresh(s, A) && Fresh(s, B);
    }
    forall side ensures SideIsSafe(s, side) {
      FreshIsSafe(s, side);
    }
    hide Start, AckOk, SideIsSafe;
    RunKeepsAcks(s, steps, Other(side));
    RunKeepsSafe(s, steps);
    assert SideIsSafe(After(s, steps), Other(side)) && Other(Other(side)) == side;
  }
}
