/**
 The three-way handshake of one connection over a network that may lose and duplicate its SYN,
 SYN-ACK and ACK, retransmissions included, before either side writes data.
 */
module Handshake {
  import opened Bytes
  import opened Endpoint
  import opened Tcp
  import Flow = FlowControl
  import Stream = StreamSafety
  import TwoSides

  /** What the listener's side has of the connection; Lifecycle.SynCreatesChild makes it. */
  datatype Server = NoChild | HasChild(conn: Conn)

  datatype State = State(client: Conn, server: Server, toServer: set<Segment>, toClient: set<Segment>)

  datatype Step =
    | ServerGets(seg: Segment, iss: uint32, now: int)
    | ClientGets(seg: Segment)
    | ClientExpires(now: int)
    | ServerExpires(now: int)

  predicate CanStep(s: State, step: Step) {
    match step
    case ServerGets(seg, _, _) => seg in s.toServer && (s.server.HasChild? ==> s.server.conn.state != Listen)
    case ClientGets(seg) => seg in s.toClient && s.client.state != Listen
    case ClientExpires(_) => CanRetransmit(s.client.sock.snd)
    case ServerExpires(_) => s.server.HasChild? && CanRetransmit(s.server.conn.sock.snd)
  }

  function TakeStep(s: State, step: Step): State
    requires CanStep(s, step)
  {
    match step
    case ServerGets(seg, iss, now) =>
      if s.server.HasChild? then
        var (c, out) := Handle(s.server.conn, seg);
        s.(server := HasChild(c), toClient := s.toClient + Sent(out))
      else if seg.flags.syn then
        var (c, out) := Child(seg, iss, now);
        s.(server := HasChild(c), toClient := s.toClient + Sent(out))
      else s
    case ClientGets(seg) =>
      var (c, out) := Handle(s.client, seg);
      s.(client := c, toServer := s.toServer + Sent(out))
    case ClientExpires(now) =>
      var (k, out) := Retransmit(s.client.sock, now);
      s.(client := s.client.(sock := k), toServer := s.toServer + Sent(out))
    case ServerExpires(now) =>
      var (k, out) := Retransmit(s.server.conn.sock, now);
      s.(server := HasChild(s.server.conn.(sock := k)), toClient := s.toClient + Sent(out))
  }

  /** The client has called VConnect and its SYN is in the network. */
  predicate Start(s: State, iss: uint32, now: int) {
    var (c, out) := Connect(iss, now);
    s == State(c, NoChild, Sent(out), {})
  }

  // ------------------------------------------------------------------ invariant

  predicate Idle(k: Sock) {
    && k.snd.buf == [] && k.snd.accepted == []
    && k.snd.nxt == Add32(k.snd.iss, 1)
    && k.rcv.buf == [] && k.rcv.taken == [] && k.rcv.early == [] && k.rcv.wnd == BUFFER_SIZE
  }

  predicate IsSyn(g: Segment, iss: uint32) {
    g.flags == SYN && g.seqNum == iss && g.payload == []
  }

  predicate IsSynAck(g: Segment, iss: uint32, peer: uint32) {
    g.flags == SYN_ACK && g.seqNum == iss && g.ackNum == Add32(peer, 1) && g.payload == [] && g.window == BUFFER_SIZE
  }

  predicate IsAck(g: Segment, iss: uint32, peer: uint32) {
    g.flags == ACK && g.seqNum == Add32(iss, 1) && g.ackNum == Add32(peer, 1) && g.payload == []
  }

  /** The client: waiting with its SYN in flight, or established on the child's number. */
  predicate ClientOk(c: Conn, server: Server) {
    && Idle(c.sock) && c.sock.seqNum == c.sock.snd.iss
    && (c.state == SynSent || c.state == Established)
    && (c.state == SynSent ==>
          forall f :: f in c.sock.snd.inFlight ==> f.flags == SYN && f.seqNum == c.sock.snd.iss && f.data == [])
    && (c.state == Established ==>
          && c.sock.snd.inFlight == [] && server.HasChild?
          && c.sock.snd.una == Add32(c.sock.snd.iss, 1) && c.sock.snd.wnd == BUFFER_SIZE
          && c.sock.rcv.nxt == Add32(server.conn.sock.snd.iss, 1))
  }

  /** The child: always expecting the client's first byte, with its SYN-ACK in flight until established. */
  predicate ServerOk(c: Conn, client: Sock) {
    && Idle(c.sock)
    && (c.state == SynReceived || c.state == Established)
    && c.sock.seqNum == (if c.state == SynReceived then c.sock.snd.iss else Add32(c.sock.snd.iss, 1))
    && c.sock.rcv.nxt == Add32(client.snd.iss, 1)
    && c.sock.snd.una == c.sock.snd.iss
    && (forall f :: f in c.sock.snd.inFlight ==>
          && f.flags == SYN_ACK && f.seqNum == c.sock.snd.iss && f.data == []
          && f.length == 0 && f.windowFlags == BUFFER_SIZE)
    && (c.state == Established && c.sock.snd.iss + 1 < TWO32 ==> c.sock.snd.inFlight == [])
  }

  predicate Inv(s: State) {
    && ClientOk(s.client, s.server)
    && (s.server.HasChild? ==> ServerOk(s.server.conn, s.client.sock))
    && (forall g :: g in s.toServer ==>
          || IsSyn(g, s.client.sock.snd.iss)
          || (s.server.HasChild? && IsAck(g, s.client.sock.snd.iss, s.server.conn.sock.snd.iss)))
    && (forall g :: g in s.toClient ==>
          s.server.HasChild? && IsSynAck(g, s.server.conn.sock.snd.iss, s.client.sock.snd.iss))
  }

  // ------------------------------------------------------------------ each step

  lemma ServerKeeps(s: State, seg: Segment, iss: uint32, now: int)
    requires Inv(s) && seg in s.toServer
    ensures Inv(TakeStep(s, ServerGets(seg, iss, now)))
    ensures TakeStep(s, ServerGets(seg, iss, now)).client.sock.snd.iss == s.client.sock.snd.iss
  {
    if s.server.HasChild? {
      var c := s.server.conn;
      if c.state == SynReceived && seg.flags.ack {
        if c.sock.snd.iss + 1 < TWO32 {
          KeepNone(c.sock.snd.inFlight, seg.ackNum);
        }
        assert Handle(c, seg) == HandleAck(c.sock, seg);
      } else if c.state == Established && seg.flags.ack {
        assert Handle(c, seg).0.sock == HandleEstablished(c.sock, seg).0;
      } else {
        assert Handle(c, seg).0 == c && Handle(c, seg).1 == [];
      }
    }
  }

  lemma ClientKeeps(s: State, seg: Segment)
    requires Inv(s) && seg in s.toClient
    ensures Inv(TakeStep(s, ClientGets(seg)))
    ensures TakeStep(s, ClientGets(seg)).client.sock.snd.iss == s.client.sock.snd.iss
  {
    var c := s.client;
    if c.state == SynSent {
      assert Handle(c, seg) == HandleSynAck(c.sock, seg);
    } else {
      assert Handle(c, seg).0.sock == HandleEstablished(c.sock, seg).0;
    }
  }

  /** What is retransmitted is the SYN or the SYN-ACK again. */
  lemma ExpireKeeps(s: State, step: Step)
    requires Inv(s) && CanStep(s, step) && (step.ClientExpires? || step.ServerExpires?)
    ensures Inv(TakeStep(s, step))
    ensures TakeStep(s, step).client.sock.snd.iss == s.client.sock.snd.iss
  {
    hide Others;
    var snd := (if step.ClientExpires? then s.client else s.server.conn).sock.snd;
    assert snd.inFlight[FirstUnacked(snd.inFlight, snd.una)] in snd.inFlight;
    hide FirstUnacked, DoubleRto;
  }

  lemma StepKeeps(s: State, step: Step)
    requires Inv(s) && CanStep(s, step)
    ensures Inv(TakeStep(s, step)) && TakeStep(s, step).client.sock.snd.iss == s.client.sock.snd.iss
  {
    hide Inv, TakeStep;
    match step
    case ServerGets(seg, iss, now) => ServerKeeps(s, seg, iss, now);
    case ClientGets(seg) => ClientKeeps(s, seg);
    case _ => ExpireKeeps(s, step);
  }

  // ------------------------------------------------------------------ every run

  predicate Run(s: State, steps: seq<Step>)
    decreases |steps|
  {
    steps == [] || (CanStep(s, steps[0]) && Run(TakeStep(s, steps[0]), steps[1..]))
  }

  function After(s: State, steps: seq<Step>): State
    requires Run(s, steps)
    decreases |steps|
  {
    if steps == [] then s else After(TakeStep(s, steps[0]), steps[1..])
  }

  lemma {:induction false} RunExtends(s: State, steps: seq<Step>, step: Step)
    requires Run(s, steps) && CanStep(After(s, steps), step)
    ensures Run(s, steps + [step])
    ensures After(s, steps + [step]) == TakeStep(After(s, steps), step)
    decreases |steps|
  {
    if steps == [] {
      assert [step][1..] == [];
    } else {
      assert (steps + [step])[1..] == steps[1..] + [step];
      RunExtends(TakeStep(s, steps[0]), steps[1..], step);
    }
  }

  lemma {:induction false} RunKeeps(s: State, steps: seq<Step>)
    requires Inv(s) && Run(s, steps)
    ensures Inv(After(s, steps))
    ensures After(s, steps).client.sock.snd.iss == s.client.sock.snd.iss
    decreases |steps|
  {
    if steps != [] {
      StepKeeps(s, steps[0]);
      RunKeeps(TakeStep(s, steps[0]), steps[1..]);
    }
  }

  /** Once both ends are established they agree: each expects exactly the number the other sends next. */
  lemma HandshakeAgrees(s: State, iss: uint32, now: int, steps: seq<Step>)
    requires Start(s, iss, now) && Run(s, steps)
    ensures var t := After(s, steps);
            t.client.state == Established ==>
              && t.server.HasChild?
              && t.client.sock.rcv.nxt == t.server.conn.sock.snd.nxt
              && t.server.conn.sock.rcv.nxt == t.client.sock.snd.nxt
  {
    RunKeeps(s, steps);
  }

  /** The two endpoints of StreamSafety, once the server has its child. */
  function Endpoints(t: State): Stream.State
    requires t.server.HasChild?
  {
    TwoSides.Pair(Party(t.client, NoProbe), Party(t.server.conn, NoProbe),
                  t.toClient, t.toServer)
  }

  /**
   What the handshake leaves behind, late segments included, is a start of the data phase that
   StreamSafety.StreamIsSafe is about, as soon as the client is established; the server may still
   wait for the last ACK.  No initial number may be the largest one.
   */
  lemma HandshakeStartsStream(s: State, iss: uint32, now: int, steps: seq<Step>)
    requires Start(s, iss, now) && Run(s, steps)
    ensures var t := After(s, steps);
            t.client.state == Established ==>
              && t.server.HasChild?
              && (iss + 1 < TWO32 && t.server.conn.sock.snd.iss + 1 < TWO32 ==> Stream.Start(Endpoints(t)))
  {
    RunKeeps(s, steps);
    var t := After(s, steps);
    assert s.client.sock.snd.iss == iss;
    hide Run, After, Start;
  }

  /**
   What the handshake leaves behind is a start of FlowControl's runs in both directions: the client
   may send at once, and the server as soon as it is established, if it has an open window.
   */
  lemma HandshakeStartsFlow(s: State, iss: uint32, now: int, steps: seq<Step>)
    requires Start(s, iss, now) && Run(s, steps) && After(s, steps).client.state == Established
    ensures After(s, steps).server.HasChild?
    ensures var t := After(s, steps);
            var ahead := Flow.Flow(t.client.sock, t.server.conn, {}, [], []);
            var back := Flow.Flow(t.server.conn.sock, t.client, {}, [], []);
            iss + 1 < TWO32 && t.server.conn.sock.snd.iss + 1 < TWO32 ==>
              && Flow.Init(ahead) && Flow.Active(ahead)
              && (t.server.conn.state == Established && t.server.conn.sock.snd.wnd > 0 ==> Flow.Init(back))
  {
    RunKeeps(s, steps);
    assert s.client.sock.snd.iss == iss;
    hide Run, After, Start;
  }

  /** What a SYN-ACK sets, whatever its numbers and its window: both halves and the reply. */
  lemma SynAckOpens(c: Conn, seg: Segment)
    requires c.state == SynSent && seg.flags == SYN_ACK
    ensures var (d, out) := Handle(c, seg);
            && d.state == Established
            && d.sock.rcv.irs == seg.seqNum && d.sock.rcv.nxt == d.sock.ackNum == Add32(seg.seqNum, 1)
            && d.sock.snd.una == d.sock.snd.nxt == seg.ackNum && d.sock.snd.wnd == seg.window
            && d.sock.snd.inFlight == []
            && out == [Segment(seg.ackNum, Add32(seg.seqNum, 1), ACK, c.sock.rcv.wnd, [])]
  {
  }

  /**
   If nothing is lost, three steps establish both ends, each of which has the whole buffer of the
   other as its window.
   */
  lemma CleanHandshake(s: State, iss: uint32, now: int, serverIss: uint32) returns (steps: seq<Step>)
    requires Start(s, iss, now) && serverIss + 1 < TWO32
    ensures |steps| == 3 && Run(s, steps)
    ensures var t := After(s, steps);
            && t.client.state == Established && t.client.sock.snd.wnd == BUFFER_SIZE
            && t.server.HasChild? && t.server.conn.state == Established && t.server.conn.sock.snd.wnd == BUFFER_SIZE
  {
    var syn := Connect(iss, now).1[0];
    var one := ServerGets(syn, serverIss, now);
    var s1 := TakeStep(s, one);
    var synAck := Child(syn, serverIss, now).1[0];
    var s2 := TakeStep(s1, ClientGets(synAck));
    var ack := HandleSynAck(s1.client.sock, synAck).1[0];
    KeepNone(s2.server.conn.sock.snd.inFlight, ack.ackNum);
    var three := ServerGets(ack, serverIss, now);
    var s3 := TakeStep(s2, three);
    hide Connect, Child, Handle;
    assert Run(s3, []) && After(s3, []) == s3;
    steps := [one, ClientGets(synAck), three];
    assert steps[1..] == [ClientGets(synAck), three] && steps[1..][1..] == [three] && [three][1..] == [];
    assert Run(s2, [three]) && After(s2, [three]) == s3;
    assert Run(s1, steps[1..]) && After(s1, steps[1..]) == s3;
  }
}
