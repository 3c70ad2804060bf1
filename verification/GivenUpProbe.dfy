/**
 A run that starts with a SYN and ends with a receiver off the stream.  The first SYN is lost; the
 retransmitted one carries window 0, so that the server begins with probes; thirty of them are
 lost, and the byte they carried is missing from what is sent once the window opens.
 */
module GivenUpProbe {
  import opened Bytes
  import opened Tcp
  import opened Endpoint
  import opened StreamSafety
  import opened TwoSides
  import Handshake

  function Begin(): Handshake.State {
    Handshake.State(Connect(0, 0).0, Handshake.NoChild, Sent(Connect(0, 0).1), {})
  }

  ghost predicate ShakenHands(h: Handshake.State) {
    exists steps :: Handshake.Run(Begin(), steps) && Handshake.After(Begin(), steps) == h
  }

  lemma Shake(h: Handshake.State, step: Handshake.Step)
    requires ShakenHands(h) && Handshake.CanStep(h, step)
    ensures ShakenHands(Handshake.TakeStep(h, step))
  {
    var steps :| Handshake.Run(Begin(), steps) && Handshake.After(Begin(), steps) == h;
    Handshake.RunExtends(Begin(), steps, step);
  }

  ghost predicate Reached(s: State, t: State) {
    exists steps :: Run(s, steps) && After(s, steps) == t
  }

  lemma Reach(s: State, t: State, step: Step)
    requires Reached(s, t) && CanStep(t, step)
    ensures Reached(s, TakeStep(t, step))
  {
    var steps :| Run(s, steps) && After(s, steps) == t;
    RunExtends(s, steps, step);
  }

  // ------------------------------------------------------------------ the handshake

  const OPENING := Segment(1, 1, ACK, BUFFER_SIZE, [])

  /** Side B, the server, has nothing in flight and takes the window for closed; A's ACK says it is open. */
  predicate Closed(s: State) {
    && s.a.conn.state == Established && s.b.conn.state == Established && s.b.probe == NoProbe
    && s.b.conn.sock.snd == s.b.conn.sock.snd.(
         wnd := 0, iss := 0, una := 0, nxt := 1, buf := [], accepted := [], inFlight := [])
    && s.a.conn.sock.rcv == s.a.conn.sock.rcv.(nxt := 1, buf := [], taken := [], early := [])
    && OPENING in s.toB
  }

  function Again(): Segment {
    Segment(0, 0, SYN, 0, [])
  }

  function SynAck(): Segment {
    Segment(0, 1, SYN_ACK, BUFFER_SIZE, [])
  }

  /** The retransmitted SYN has made the child. */
  lemma HalfOpen() returns (h: Handshake.State)
    ensures ShakenHands(h)
    ensures h.client.state == SynSent && h.client.sock.rcv == Connect(0, 0).0.sock.rcv
    ensures h.server == Handshake.HasChild(Child(Again(), 0, 0).0) && SynAck() in h.toClient
  {
    assert Handshake.Run(Begin(), []) && Handshake.After(Begin(), []) == Begin();
    hide ShakenHands;
    Shake(Begin(), Handshake.ClientExpires(0));
    h := Handshake.TakeStep(Begin(), Handshake.ClientExpires(0));
    assert Again() in h.toServer;
    Shake(h, Handshake.ServerGets(Again(), 0, 0));
    h := Handshake.TakeStep(h, Handshake.ServerGets(Again(), 0, 0));
  }

  lemma ClosedWindow()
    ensures exists h :: ShakenHands(h) && h.client.state == Established && h.server.HasChild?
                        && Closed(Handshake.Endpoints(h))
  {
    var h := HalfOpen();
    hide ShakenHands, Begin, CleanUp, HandleEstablished;
    Shake(h, Handshake.ClientGets(SynAck()));
    h := Handshake.TakeStep(h, Handshake.ClientGets(SynAck()));
    assert OPENING in h.toServer;
    KeepNone(h.server.conn.sock.snd.inFlight, 1);
    Shake(h, Handshake.ServerGets(OPENING, 0, 0));
    h := Handshake.TakeStep(h, Handshake.ServerGets(OPENING, 0, 0));
    assert ShakenHands(h) && Closed(Handshake.Endpoints(h));
  }

  // ------------------------------------------------------------------ thirty probes

  predicate Probed(t: State, retries: nat) {
    && t.a.conn.state == Established && t.b.conn.state == Established && t.b.probe == Probing(1, retries)
    && t.b.conn.sock.snd == t.b.conn.sock.snd.(
         wnd := 0, una := 0, nxt := 1, buf := [2], accepted := [1, 2], inFlight := [])
    && t.a.conn.sock.rcv == t.a.conn.sock.rcv.(nxt := 1, buf := [], taken := [], early := [])
    && OPENING in t.toB
  }

  lemma {:induction false} Probes(s: State, retries: nat)
    requires Closed(s) && retries <= ZWP_RETRIES
    ensures exists t :: Reached(s, t) && Probed(t, retries)
  {
    var t: State;
    if retries == 0 {
      assert Run(s, []) && After(s, []) == s;
      hide Reached;
      Reach(s, s, Step(B, Write([1, 2])));
      t := TakeStep(s, Step(B, Write([1, 2])));
      assert t.b.conn.sock.snd.buf == [1, 2] && t.b.conn.sock.snd.buf[1..] == [2];
      assert t.b.conn.sock.snd.accepted == [1, 2];
      Reach(s, t, Step(B, ProbeStart));
      t := TakeStep(t, Step(B, ProbeStart));
    } else {
      Probes(s, retries - 1);
      t :| Reached(s, t) && Probed(t, retries - 1);
      hide Reached;
      Reach(s, t, Step(B, ProbeSend));
      t := TakeStep(t, Step(B, ProbeSend));
    }
    assert Reached(s, t) && Probed(t, retries);
  }

  /** The second byte goes out under the number of the first. */
  lemma Misnumbers(s: State, u: State) returns (t: State)
    requires Reached(s, u) && Probed(u, ZWP_RETRIES)
    ensures Reached(s, t)
    ensures t.a.conn.sock.rcv.Log() == [2] && t.b.conn.sock.snd.accepted == [1, 2]
  {
    hide Reached;
    Reach(s, u, Step(B, ProbeFinish));
    t := TakeStep(u, Step(B, ProbeFinish));
    Reach(s, t, Step(B, Arrive(OPENING)));
    t := TakeStep(t, Step(B, Arrive(OPENING)));
    assert t.b.conn.sock.snd.wnd == BUFFER_SIZE && t.b.conn.sock.snd.buf[..1] == [2];
    var g := DataSegment(t.b.conn.sock, [2]);
    Reach(s, t, Step(B, Send(0)));
    t := TakeStep(t, Step(B, Send(0)));
    assert g in t.toA && g.seqNum == 1;
    Reach(s, t, Step(A, Arrive(g)));
    t := TakeStep(t, Step(A, Arrive(g)));
  }

  /**
   From the client's first SYN on, there is a run after which the client has received [2], while the
   server has written [1, 2].
   */
  lemma GivenUpProbeCorrupts() returns (h: Handshake.State, steps: seq<Step>)
    ensures Handshake.Start(Begin(), 0, 0) && ShakenHands(h) && h.server.HasChild?
    ensures var s := Handshake.Endpoints(h);
            && Start(s) && Run(s, steps) && !ProbesHold(s, steps)
            && var t := After(s, steps);
               t.a.conn.sock.rcv.Log() == [2] && t.b.conn.sock.snd.accepted == [1, 2]
  {
    ClosedWindow();
    h :| ShakenHands(h) && h.client.state == Established && h.server.HasChild? && Closed(Handshake.Endpoints(h));
    var hs :| Handshake.Run(Begin(), hs) && Handshake.After(Begin(), hs) == h;
    Handshake.HandshakeStartsStream(Begin(), 0, 0, hs);
    var s := Handshake.Endpoints(h);
    Probes(s, ZWP_RETRIES);
    var u :| Reached(s, u) && Probed(u, ZWP_RETRIES);
    var t := Misnumbers(s, u);
    steps :| Run(s, steps) && After(s, steps) == t;
    assert [2][0] != [1, 2][0];
    if ProbesHold(s, steps) {
      StreamIsSafe(s, steps);
    }
  }
}
