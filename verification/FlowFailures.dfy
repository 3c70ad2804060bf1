/**
 Two runs that start after the handshake.  In the first, the receive buffer is nearly full; two
 retransmissions and an acknowledgement make the sender forget a segment; UNA then stays behind, and
 the next window makes the uint16 subtraction wrap.  In the second, the sender has accepted the
 connection, and forgets a segment after a single retransmission.
 */
module FlowFailures {
  import opened Bytes
  import opened Tcp
  import opened FlowControl
  import opened Coverage

  const FILLED := 64       // segments of 1000 bytes, delivered, acknowledged and not read

  function Zeros(n: nat): seq<byte> {
    seq(n, _ => 0)
  }

  lemma ZerosSplit(n: nat, k: nat)
    requires k <= n
    ensures Zeros(n)[..k] == Zeros(k) && Zeros(n)[k..] == Zeros(n - k) && Zeros(k) + Zeros(n - k) == Zeros(n)
  {
  }

  function Fresh(): Flow {
    Flow(Sock(0, 0, Snd([], [], 0, 1, 1, BUFFER_SIZE, SECOND, 0, 0, 0, []), Rcv([], [], BUFFER_SIZE, 1, 0, [])),
         Conn(Established,
              Sock(0, 0, Snd([], [], 0, 1, 1, BUFFER_SIZE, SECOND, 0, 0, 0, []), Rcv([], [], BUFFER_SIZE, 1, 0, []))),
         {}, [], [])
  }

  /** All 65535 bytes are written; `k` segments of 1000 are delivered and acknowledged, none is read. */
  predicate Filled(s: Flow, k: nat)
    requires k <= FILLED
  {
    && s.x.snd == s.x.snd.(
         buf := Zeros(BUFFER_SIZE - 1000 * k), accepted := Zeros(BUFFER_SIZE), iss := 0,
         una := 1 + 1000 * k, nxt := 1 + 1000 * k, wnd := BUFFER_SIZE - 1000 * k,
         inFlight := [], retransmissions := 0)
    && s.y.state == Established
    && s.y.sock.rcv == s.y.sock.rcv.(
         buf := Zeros(1000 * k), early := [], nxt := 1 + 1000 * k, wnd := BUFFER_SIZE - 1000 * k)
    && s.acks == []
  }

  ghost predicate Reached(t: Flow) {
    exists steps :: Run(Fresh(), steps) && After(Fresh(), steps) == t
  }

  lemma Reach(s: Flow, step: Step)
    requires Reached(s) && CanStep(s, step)
    ensures Reached(TakeStep(s, step))
  {
    var steps :| Run(Fresh(), steps) && After(Fresh(), steps) == s;
    RunExtends(Fresh(), steps, step);
  }

  /** In-order data with nothing waiting early. */
  lemma InOrderDelivery(y: Conn, seg: Segment)
    requires y.state == Established && Plain(seg.flags)
    requires seg.seqNum == y.sock.rcv.nxt && y.sock.rcv.early == []
    requires 0 < |seg.payload| && |y.sock.rcv.buf| + |seg.payload| <= BUFFER_SIZE
    ensures var (y', out) := Handle(y, seg);
            var r, r' := y.sock.rcv, y'.sock.rcv;
            && r'.buf == r.buf + seg.payload && r'.early == []
            && r'.nxt == Add32(r.nxt, |seg.payload|) && r'.wnd == Free(r'.buf)
            && y'.state == Established && out == [AckSegment(y'.sock)]
  {
    DataEffect(y, seg);
    hide Handle;
  }

  /** The states of one more segment: sent, delivered, acknowledged. */
  lemma FillSend(s: Flow, k: nat) returns (seg: Segment)
    requires k < FILLED && Filled(s, k)
    ensures seg == DataSegment(s.x, Zeros(1000)) && seg.payload == Zeros(1000)
    ensures CanStep(s, Send(0))
    ensures var s1 := TakeStep(s, Send(0));
            && s1.x.snd == s.x.snd.(buf := Zeros(BUFFER_SIZE - 1000 * (k + 1)), nxt := 1001 + 1000 * k,
                                    inFlight := [InFlight(1 + 1000 * k, 1000, Zeros(1000), 0, ACK, 0)])
            && s1.y == s.y && s1.acks == [] && CanStep(s1, DataArrives(seg))
  {
    ZerosSplit(BUFFER_SIZE - 1000 * k, 1000);
    seg := DataSegment(s.x, Zeros(1000));
    hide Handle;
  }

  lemma FillOne(s: Flow, k: nat) returns (seg: Segment)
    requires k < FILLED && Filled(s, k)
    ensures CanStep(s, Send(0))
    ensures var s1 := TakeStep(s, Send(0));
            && CanStep(s1, DataArrives(seg))
            && var s2 := TakeStep(s1, DataArrives(seg));
               CanStep(s2, AckArrives(0)) && Filled(TakeStep(s2, AckArrives(0)), k + 1)
  {
    seg := FillSend(s, k);
    hide HandleEstablished, HandleData, Handle, CleanUp, Keep, SendSize, SendOnce;
    ZerosSplit(1000 * (k + 1), 1000 * k);
    InOrderDelivery(s.y, seg);
    var s1 := TakeStep(s, Send(0));
    var s2 := TakeStep(s1, DataArrives(seg));
    assert s2.acks == [AckSegment(s2.y.sock)] && s2.acks[1..] == [];
    KeepNone(s1.x.snd.inFlight, s2.y.sock.rcv.nxt);
    AckEffect(s2, 0);
  }

  lemma {:induction false} Fill(k: nat) returns (s: Flow)
    requires k <= FILLED
    ensures Reached(s) && Filled(s, k)
  {
    if k == 0 {
      assert Run(Fresh(), []) && After(Fresh(), []) == Fresh();
      Reach(Fresh(), Write(Zeros(BUFFER_SIZE)));
      s := TakeStep(Fresh(), Write(Zeros(BUFFER_SIZE)));
      ZerosSplit(BUFFER_SIZE, BUFFER_SIZE);
    } else {
      s := Fill(k - 1);
      var seg := FillOne(s, k - 1);
      hide Filled, CanStep, TakeStep, Reached;
      Reach(s, Send(0));
      s := TakeStep(s, Send(0));
      Reach(s, DataArrives(seg));
      s := TakeStep(s, DataArrives(seg));
      Reach(s, AckArrives(0));
      s := TakeStep(s, AckArrives(0));
    }
  }

  // ------------------------------------------------------------ two segments more

  function First(): InFlight {
    InFlight(64001, 1000, Zeros(1000), 0, ACK, 0)
  }

  function Second(): InFlight {
    InFlight(65001, 535, Zeros(535), 0, ACK, 0)
  }

  function Lost(f: InFlight): InFlight {
    f.(length := 0)
  }

  /** Two segments fill the window, and both are retransmitted. */
  predicate BothResent(s: Flow, a: Segment, b: Segment) {
    && s.x.snd == s.x.snd.(
         buf := [], accepted := Zeros(BUFFER_SIZE), iss := 0, una := 64001, nxt := 65536,
         inFlight := [Lost(First()), Lost(Second())])
    && s.y.state == Established
    && s.y.sock.rcv == s.y.sock.rcv.(buf := Zeros(64000), early := [], nxt := 64001)
    && s.acks == []
    && a in s.data && a == a.(seqNum := 64001, payload := Zeros(1000), flags := ACK)
    && b in s.data && b == b.(seqNum := 65001, payload := Zeros(535), flags := ACK)
  }

  /** Both segments are in flight, and the window is full. */
  lemma SendBoth(s: Flow) returns (t: Flow, a: Segment, b: Segment)
    requires Reached(s) && Filled(s, FILLED)
    ensures Reached(t) && BothResent(t.(x := t.x.(snd := t.x.snd.(inFlight := [Lost(First()), Lost(Second())]))), a, b)
    ensures t.x.snd.inFlight == [First(), Second()] && t.x.snd.retransmissions == s.x.snd.retransmissions
  {
    hide Handle, HandleEstablished, Retransmit;
    hide Reached;
    ZerosSplit(1535, 1000);
    ZerosSplit(535, 535);
    a := DataSegment(s.x, Zeros(1000));
    Reach(s, Send(0));
    t := TakeStep(s, Send(0));
    assert t.x.snd.inFlight == [First()] && t.x.snd.buf == Zeros(535);
    b := DataSegment(t.x, Zeros(535));
    Reach(t, Send(0));
    t := TakeStep(t, Send(0));
    assert t.x.snd.inFlight == [First(), Second()] && t.x.snd.buf == [];
  }

  lemma ResendBoth(s: Flow) returns (t: Flow, a: Segment, b: Segment)
    requires Reached(s) && Filled(s, FILLED)
    ensures Reached(t) && BothResent(t, a, b)
  {
    assert s.x.snd.retransmissions == 0;
    t, a, b := SendBoth(s);
    hide Handle, HandleEstablished, SendOnce, Zeros;
    hide Reached;
    OthersOfTwo(First(), Second());
    Reach(t, Expire(0));
    t := TakeStep(t, Expire(0));
    assert t.x.snd.inFlight == [Second(), Lost(First())];
    OthersOfTwo(Second(), Lost(First()));
    Reach(t, Expire(0));
    t := TakeStep(t, Expire(0));
    assert t.x.snd.inFlight == [Lost(First()), Lost(Second())];
  }

  predicate IsAck(g: Segment, ackNum: uint32, window: uint16) {
    g.flags == ACK && g.payload == [] && g.ackNum == ackNum && g.window == window
  }

  /** Nothing is in flight, but UNA has stopped short of NXT, and the window has no room for that. */
  predicate Overrun(s: Flow) {
    && s.x.snd == s.x.snd.(
         buf := [], accepted := Zeros(BUFFER_SIZE), iss := 0, una := 65001, nxt := 65536, wnd := 100, inFlight := [])
    && RightEdge(s.y.sock.rcv) == 65636
  }

  /**
   Both arrive, the reader takes 100 bytes, and the second arrives once more.  The first of the three
   acknowledgements drops both packets; the last one then moves only the window.
   */
  lemma AcksForget(s: Flow, a: Segment, b: Segment) returns (t: Flow)
    requires Reached(s) && BothResent(s, a, b)
    ensures Reached(t) && Overrun(t)
  {
    hide Retransmit, SendOnce;
    hide Reached;
    InOrderDelivery(s.y, a);
    Reach(s, DataArrives(a));
    t := TakeStep(s, DataArrives(a));
    InOrderDelivery(t.y, b);
    Reach(t, DataArrives(b));
    t := TakeStep(t, DataArrives(b));
    assert |t.y.sock.rcv.buf| == BUFFER_SIZE && |t.acks| == 2 && IsAck(t.acks[0], 65001, 535);
    Reach(t, ReadSome(100));
    t := TakeStep(t, ReadSome(100));
    Reach(t, DataArrives(b));
    t := TakeStep(t, DataArrives(b));
    assert |t.acks| == 3 && IsAck(t.acks[0], 65001, 535) && IsAck(t.acks[2], 65536, 100);
    assert RightEdge(t.y.sock.rcv) == 65636;
    hide HandleEstablished, Zeros;
    AckEffect(t, 0);
    KeepNone(t.x.snd.inFlight, 65001);
    Reach(t, AckArrives(0));
    ghost var acks := t.acks;
    t := TakeStep(t, AckArrives(0));
    assert t.x.snd.inFlight == [] && t.acks == acks[1..];
    AckEffect(t, 1);
    Reach(t, AckArrives(1));
    t := TakeStep(t, AckArrives(1));
  }

  /** Once `bytes` are written, a segment goes out that ends `n` bytes beyond the receiver's window. */
  ghost predicate SendsBeyond(t: Flow, bytes: seq<byte>, n: nat) {
    CanStep(t, Write(bytes)) && CanStep(TakeStep(t, Write(bytes)), Send(0)) &&
    var t' := TakeStep(TakeStep(t, Write(bytes)), Send(0));
    exists g :: g in t'.data && g.seqNum + |g.payload| == RightEdge(t'.y.sock.rcv) + n
  }

  lemma OverrunSends(t: Flow)
    requires Overrun(t)
    ensures FreeWindow(t.x.snd) == 65101 && !WindowFits(t) && SendsBeyond(t, Zeros(1000), 900)
  {
    var t' := TakeStep(t, Write(Zeros(1000)));
    assert t'.x.snd.buf == Zeros(1000);
    assert DataSegment(t'.x, Zeros(1000)[..1000]) in TakeStep(t', Send(0)).data;
  }

  /**
   Flow control fails past its condition.  There is a run from the start after which 535 bytes are
   unacknowledged in a window of 100, none of them in flight; the uint16 subtraction says 65101;
   and the next segment ends 900 bytes beyond the receiver's window.
   */
  lemma WindowIsOverrun() returns (steps: seq<Step>)
    ensures Init(Fresh()) && Run(Fresh(), steps) && !AcksFit(Fresh(), steps) && !AllSpare(Fresh(), steps)
    ensures var t := After(Fresh(), steps);
            && t.x.snd.nxt - t.x.snd.una == 535 && t.x.snd.wnd == 100 && t.x.snd.inFlight == []
            && FreeWindow(t.x.snd) == 65101
            && SendsBeyond(t, Zeros(1000), 900)
  {
    var s := Fill(FILLED);
    var a, b;
    s, a, b := ResendBoth(s);
    s := AcksForget(s, a, b);
    steps :| Run(Fresh(), steps) && After(Fresh(), steps) == s;
    OverrunSends(s);
    if AcksFit(Fresh(), steps) {
      FlowIsControlled(Fresh(), steps);
    }
    NothingUnackedIsForgottenIff(Fresh(), steps);
  }

  // ------------------------------------------------------------ one retransmission

  /** The side that accepted the connection: its UNA is still its SYN's number. */
  function Accepting(): Flow {
    Fresh().(x := Fresh().x.(snd := Fresh().x.snd.(una := 0)))
  }

  lemma OneMore(s: Flow, step: Step, rest: seq<Step>)
    requires CanStep(s, step) && Run(TakeStep(s, step), rest)
    ensures Run(s, [step] + rest) && After(s, [step] + rest) == After(TakeStep(s, step), rest)
    ensures OneAtATime(s, [step] + rest)
            <==> (step.Expire? ==> s.x.snd.retransmissions == 0) && OneAtATime(TakeStep(s, step), rest)
    ensures AllSpare(s, [step] + rest) <==> Spares(s, step) && AllSpare(TakeStep(s, step), rest)
  {
    assert ([step] + rest)[1..] == rest;
  }

  function FirstByte(): InFlight {
    InFlight(1, 1, [1], 0, ACK, 0)
  }

  function SecondByte(): InFlight {
    InFlight(2, 1, [2], 0, ACK, 0)
  }

  /** Two bytes in two segments are in flight. */
  predicate BothSent(s: Flow, g: Segment) {
    && s.x.snd == s.x.snd.(una := 0, inFlight := [FirstByte(), SecondByte()], retransmissions := 0)
    && s.acks == [] && s.y == Accepting().y
    && g in s.data && g == g.(seqNum := 2, payload := [2], flags := ACK)
  }

  lemma SendTwo() returns (s1: Flow, s2: Flow, s3: Flow, s4: Flow, g: Segment)
    ensures CanStep(Accepting(), Write([1])) && s1 == TakeStep(Accepting(), Write([1]))
    ensures CanStep(s1, Send(0)) && s2 == TakeStep(s1, Send(0))
    ensures CanStep(s2, Write([2])) && s3 == TakeStep(s2, Write([2]))
    ensures CanStep(s3, Send(0)) && s4 == TakeStep(s3, Send(0)) && BothSent(s4, g)
  {
    hide Handle, HandleEstablished, Retransmit;
    s1 := TakeStep(Accepting(), Write([1]));
    assert s1.x.snd.buf == [1] && [1][..1] == [1];
    s2 := TakeStep(s1, Send(0));
    assert s2.x.snd.inFlight == [FirstByte()] && s2.x.snd.buf == [];
    s3 := TakeStep(s2, Write([2]));
    assert s3.x.snd.buf == [2] && [2][..1] == [2];
    s4 := TakeStep(s3, Send(0));
    g := DataSegment(s3.x, [2]);
  }

  /** The first is sent again, and the second arrives early. */
  lemma EarlyAck(s4: Flow, g: Segment) returns (s5: Flow, s6: Flow)
    requires BothSent(s4, g)
    ensures CanStep(s4, Expire(0)) && s5 == TakeStep(s4, Expire(0))
    ensures CanStep(s5, DataArrives(g)) && s6 == TakeStep(s5, DataArrives(g))
    ensures s6.x.snd.inFlight == [SecondByte(), Lost(FirstByte())]
    ensures s6.x.snd.una == 0 && |s6.acks| == 1 && IsAck(s6.acks[0], 1, BUFFER_SIZE)
  {
    OthersOfTwo(FirstByte(), SecondByte());
    s5 := TakeStep(s4, Expire(0));
    assert s5.x.snd.inFlight == [SecondByte(), Lost(FirstByte())] && g in s5.data;
    hide Others, FirstUnacked;
    DataEffect(s5.y, g);
    hide Handle;
    s6 := TakeStep(s5, DataArrives(g));
  }

  lemma DuplicateAck(s: Flow)
    requires s.x.snd.inFlight == [SecondByte(), Lost(FirstByte())]
    requires s.x.snd.una == 0 && |s.acks| == 1 && IsAck(s.acks[0], 1, BUFFER_SIZE)
    ensures CanStep(s, AckArrives(0)) && !Spares(s, AckArrives(0))
    ensures TakeStep(s, AckArrives(0)).x.snd.una == 1
    ensures TakeStep(s, AckArrives(0)).x.snd.inFlight == [SecondByte()]
  {
    AckEffect(s, 0);
    var b, a := SecondByte(), Lost(FirstByte());
    KeepNone([a], 1);
    assert [b, a][1..] == [a] && Kept(b, 1);
    assert Keep([b, a], 1) == [b] + Keep([a], 1);
    assert a in s.x.snd.inFlight;
    hide HandleEstablished;
  }

  /**
   Where `x` has accepted the connection, a single retransmission can forget a segment: the duplicate
   acknowledgement that a segment behind it causes counts as new, and drops the retransmitted packet.
   */
  lemma OneRetransmissionForgets() returns (steps: seq<Step>)
    ensures Init(Accepting()) && Run(Accepting(), steps) && OneAtATime(Accepting(), steps)
    ensures !NeverForgets(Accepting(), steps)
    ensures var t := After(Accepting(), steps);
            t.x.snd.una == 1 && t.x.snd.inFlight == [SecondByte()]
  {
    var s1, s2, s3, s4, g := SendTwo();
    var s5, s6 := EarlyAck(s4, g);
    DuplicateAck(s6);
    assert Init(Accepting());
    hide CanStep, TakeStep, Spares, Accepting, Init, BothSent, IsAck;
    var end := TakeStep(s6, AckArrives(0));
    assert Run(end, []) && After(end, []) == end && OneAtATime(end, []) && AllSpare(end, []);
    hide Run, After, OneAtATime, AllSpare, NeverForgets;
    OneMore(s6, AckArrives(0), []);
    OneMore(s5, DataArrives(g), [AckArrives(0)] + []);
    OneMore(s4, Expire(0), [DataArrives(g)] + ([AckArrives(0)] + []));
    var r4 := [Expire(0)] + ([DataArrives(g)] + ([AckArrives(0)] + []));
    OneMore(s3, Send(0), r4);
    OneMore(s2, Write([2]), [Send(0)] + r4);
    OneMore(s1, Send(0), [Write([2])] + ([Send(0)] + r4));
    steps := [Write([1])] + ([Send(0)] + ([Write([2])] + ([Send(0)] + r4)));
    OneMore(Accepting(), Write([1]), [Send(0)] + ([Write([2])] + ([Send(0)] + r4)));
    NothingUnackedIsForgottenIff(Accepting(), steps);
  }
}
