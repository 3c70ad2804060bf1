/**
 Flow control and retransmission for data that flows one way: `x` sends, `y` only acknowledges.  If
 `x` opened the connection, `y` may still wait for the last ACK of the handshake; if `x` accepted it,
 its UNA has not passed its SYN yet.  Data segments may be lost, duplicated and reordered;
 acknowledgements may be lost but stay in order.  No zero-window probes, and any number of
 retransmissions.
 */
module FlowControl {
  import opened Bytes
  import opened Tcp
  import opened Reassembly

  /** `pieces` lists the data segments sent so far, in the order of their first transmission. */
  datatype Flow = Flow(x: Sock, y: Conn, data: set<Segment>, acks: seq<Segment>, pieces: seq<seq<byte>>)

  datatype Step =
    | Write(bytes: seq<byte>)
    | Send(now: int)
    | Expire(now: int)
    | DataArrives(seg: Segment)
    | AckArrives(i: nat)          // the acknowledgements before the i-th are lost
    | ReadSome(n: nat)

  predicate CanStep(s: Flow, step: Step) {
    match step
    case Write(bytes) => s.x.snd.iss + 1 + |s.x.snd.accepted| + |bytes| < TWO32
    case Send(_) => SendSize(s.x.snd) > 0
    case Expire(_) => CanRetransmit(s.x.snd)
    case DataArrives(seg) => seg in s.data && s.y.state != Listen
    case AckArrives(i) => i < |s.acks|
    case ReadSome(_) => true
  }

  function TakeStep(s: Flow, step: Step): Flow
    requires CanStep(s, step)
  {
    match step
    case Write(bytes) => s.(x := s.x.(snd := Accept(s.x.snd, bytes)))
    case Send(now) =>
      var (x, out) := SendOnce(s.x, now);
      s.(x := x, data := s.data + {out[0]}, pieces := s.pieces + [out[0].payload])
    case Expire(now) =>
      var (x, out) := Retransmit(s.x, now);
      s.(x := x, data := s.data + {out[0]})
    case DataArrives(seg) =>
      var (y, out) := Handle(s.y, seg);
      s.(y := y, acks := s.acks + out)
    case AckArrives(i) =>
      s.(x := Handle(Conn(Established, s.x), s.acks[i]).0.sock, acks := s.acks[i + 1..])
    case ReadSome(n) => s.(y := s.y.(sock := s.y.sock.(rcv := Read(s.y.sock.rcv, n))))
  }

  // ---------------------------------------------------------------------- invariant

  function Edge(g: Segment): nat {
    g.ackNum + g.window
  }

  function RightEdge(r: Rcv): nat {
    r.nxt + r.wnd
  }

  ghost predicate GoodAck(g: Segment, pieces: seq<seq<byte>>, base: nat) {
    && g.payload == [] && g.flags == ACK
    && exists j: nat :: j <= |pieces| && g.ackNum == Start(pieces, base, j)
  }

  /** Acknowledgements on their way are ordered, from what `x` knows to what `y` would say now. */
  ghost predicate AcksInOrder(
    acks: seq<Segment>, una: nat, edge: nat, nxt: nat, rightEdge: nat, pieces: seq<seq<byte>>, base: nat)
  {
    && (forall g :: g in acks ==> GoodAck(g, pieces, base))
    && (forall g :: g in acks ==> una <= g.ackNum <= nxt)
    && (forall g :: g in acks ==> edge <= Edge(g) <= rightEdge)
    && (forall i, j :: 0 <= i < j < |acks| ==>
          acks[i].ackNum <= acks[j].ackNum && Edge(acks[i]) <= Edge(acks[j]))
  }

  ghost predicate AllAcksInOrder(s: Flow, base: nat) {
    AcksInOrder(
      s.acks, s.x.snd.una, s.x.snd.una + s.x.snd.wnd, s.y.sock.rcv.nxt, RightEdge(s.y.sock.rcv), s.pieces, base)
  }

  ghost predicate ReceiverTiles(y: Conn, pieces: seq<seq<byte>>, base: nat, m: nat) {
    var r := y.sock.rcv;
    && (y.state == Established || y.state == SynReceived)
    && Tiled(r, pieces, base, m)
    && (forall e :: e in r.early ==> e.seqNum != r.nxt)
    && r.wnd == Free(r.buf)
  }

  predicate Plain(flags: Flags) {
    !flags.fin && !flags.rst
  }

  ghost predicate OnlyPieceData(data: set<Segment>, pieces: seq<seq<byte>>, base: nat) {
    forall g :: g in data ==> IsPiece(pieces, base, g.seqNum, g.payload) && Plain(g.flags)
  }

  /** What is in flight fits the window, and the window fits the receiver's buffer. */
  predicate WindowFits(s: Flow) {
    && s.x.snd.una <= s.y.sock.rcv.nxt
    && s.x.snd.una <= s.x.snd.nxt
    && s.x.snd.nxt - s.x.snd.una <= s.x.snd.wnd
    && s.x.snd.una + s.x.snd.wnd <= RightEdge(s.y.sock.rcv)
  }

  /** Whatever is retransmitted is a data segment sent before. */
  ghost predicate InFlightPieces(l: seq<InFlight>, pieces: seq<seq<byte>>, base: nat) {
    forall f :: f in l ==> IsPiece(pieces, base, f.seqNum, f.data) && Plain(f.flags)
  }

  ghost predicate InvAt(s: Flow, m: nat) {
    var base := s.x.snd.iss + 1;
    && base + |s.x.snd.accepted| < TWO32
    && s.x.snd.nxt + |s.x.snd.buf| == base + |s.x.snd.accepted|
    && s.x.snd.nxt == Start(s.pieces, base, |s.pieces|)
    && InFlightPieces(s.x.snd.inFlight, s.pieces, base)
    && ReceiverTiles(s.y, s.pieces, base, m)
    && OnlyPieceData(s.data, s.pieces, base)
    && AllAcksInOrder(s, base)
    && (s.pieces == [] ==> s.acks == [])
    && WindowFits(s)
  }

  ghost predicate Inv(s: Flow) {
    exists m: nat :: InvAt(s, m)
  }

  /** The state after a handshake, with the receiver's whole buffer free. */
  ghost predicate Init(s: Flow) {
    var base := s.x.snd.iss + 1;
    && base < TWO32
    && s.x.snd.accepted == [] && s.x.snd.buf == [] && s.x.snd.inFlight == []
    && s.x.snd.nxt == s.y.sock.rcv.nxt == base
    && (s.x.snd.una == base || s.x.snd.una == s.x.snd.iss)
    && s.x.snd.nxt - s.x.snd.una <= s.x.snd.wnd
    && (s.y.state == Established || s.y.state == SynReceived)
    && s.y.sock.rcv == Rcv([], [], BUFFER_SIZE, base, s.y.sock.rcv.irs, [])
    && s.data == {} && s.acks == [] && s.pieces == []
  }

  /** `x` opened the connection: the SYN-ACK has moved its UNA past its SYN. */
  predicate Active(s: Flow) {
    s.x.snd.una > s.x.snd.iss
  }

  // ------------------------------------------------------------- growing the tiling

  lemma GrowStart(pieces: seq<seq<byte>>, p: seq<byte>, base: nat, k: nat)
    requires k <= |pieces|
    ensures Start(pieces + [p], base, k) == Start(pieces, base, k)
    ensures (pieces + [p])[..k] == pieces[..k]
  {
  }

  lemma GrowPiece(pieces: seq<seq<byte>>, p: seq<byte>, base: nat, seqNum: nat, data: seq<byte>)
    requires IsPiece(pieces, base, seqNum, data)
    ensures IsPiece(pieces + [p], base, seqNum, data)
  {
    var k: nat :| IsPieceAt(pieces, base, seqNum, data, k);
    GrowStart(pieces, p, base, k);
    assert IsPieceAt(pieces + [p], base, seqNum, data, k);
  }

  // -------------------------------------------------------------- the receiver's room

  /** When every piece fits, draining never has to wait for the reader. */
  lemma {:induction false} DrainFits(r: Rcv, pieces: seq<seq<byte>>, base: nat, m: nat)
    requires Tiled(r, pieces, base, m)
    requires |Stream(pieces)| <= |r.taken| + BUFFER_SIZE
    ensures Drain(r).taken == r.taken
    decreases |r.early|
  {
    var i := FindSeq(r.early, r.nxt);
    if i < |r.early| {
      var e := r.early[i];
      RemoveAtIn(r.early, i);
      PutTiled(r, e.data, pieces, base, m);
      StartsOrdered(pieces, base, m + 1, |pieces|);
      NextStart(pieces, base, m);
      assert pieces[..|pieces|] == pieces;
      DrainFits(Put(r, e.data).(early := RemoveAt(r.early, i)), pieces, base, m + 1);
    }
  }

  lemma DataFits(k: Sock, seg: Segment, pieces: seq<seq<byte>>, base: nat, m: nat)
    requires Tiled(k.rcv, pieces, base, m)
    requires IsPiece(pieces, base, seg.seqNum, seg.payload)
    requires |Stream(pieces)| <= |k.rcv.taken| + BUFFER_SIZE
    requires k.rcv.wnd == Free(k.rcv.buf)
    ensures seg.seqNum == k.rcv.nxt ==> |seg.payload| <= Free(k.rcv.buf)
    ensures var r := HandleData(k, seg).0.rcv;
            r.taken == k.rcv.taken && r.wnd == Free(r.buf)
  {
    if seg.seqNum == k.rcv.nxt {
      PutTiled(k.rcv, seg.payload, pieces, base, m);
      StartsOrdered(pieces, base, m + 1, |pieces|);
      NextStart(pieces, base, m);
      assert pieces[..|pieces|] == pieces;
      DrainFits(Put(k.rcv, seg.payload), pieces, base, m + 1);
    }
  }

  // ---------------------------------------------------------------------- each step

  /** What is known of the tiling stays true when it grows by a new data segment. */
  lemma GrowTiling(s: Flow, g: Segment, base: nat, m: nat)
    requires ReceiverTiles(s.y, s.pieces, base, m) && OnlyPieceData(s.data, s.pieces, base)
    requires AllAcksInOrder(s, base) && InFlightPieces(s.x.snd.inFlight, s.pieces, base)
    requires g.seqNum == Start(s.pieces, base, |s.pieces|)
    requires |g.payload| > 0 && g.seqNum + |g.payload| < TWO32 && Plain(g.flags)
    ensures var more := s.pieces + [g.payload];
            && Start(more, base, |more|) == g.seqNum + |g.payload|
            && IsPiece(more, base, g.seqNum, g.payload)
            && ReceiverTiles(s.y, more, base, m)
            && OnlyPieceData(s.data + {g}, more, base)
            && InFlightPieces(s.x.snd.inFlight, more, base)
            && AllAcksInOrder(s.(pieces := more), base)
  {
    var p := g.payload;
    var more := s.pieces + [p];
    GrowStart(s.pieces, p, base, m);
    GrowStart(s.pieces, p, base, |s.pieces|);
    NextStart(more, base, |s.pieces|);
    assert IsPieceAt(more, base, Start(s.pieces, base, |s.pieces|), p, |s.pieces|);
    forall seqNum: nat, data | IsPiece(s.pieces, base, seqNum, data) ensures IsPiece(more, base, seqNum, data) {
      GrowPiece(s.pieces, p, base, seqNum, data);
    }
    forall a | a in s.acks ensures GoodAck(a, more, base) {
      var j: nat :| j <= |s.pieces| && a.ackNum == Start(s.pieces, base, j);
      GrowStart(s.pieces, p, base, j);
    }
  }

  /** While the data in flight fits the window, the uint16 subtraction is the true difference. */
  lemma SendSizeFits(s: Snd)
    requires s.una <= s.nxt && s.nxt - s.una <= s.wnd
    ensures FreeWindow(s) == s.wnd - (s.nxt - s.una)
    ensures SendSize(s) <= FreeWindow(s) && SendSize(s) <= |s.buf| && SendSize(s) <= MAX_TCP_PAYLOAD
  {
  }

  /** The data segment that one pass of trySendData puts in flight. */
  function NextInFlight(snd: Snd, now: int): InFlight
    requires SendSize(snd) > 0
  {
    InFlight(snd.nxt, SendSize(snd), snd.buf[..SendSize(snd)], now, ACK, 0)
  }

  lemma NextSegment(s: Flow, m: nat, now: int)
    requires InvAt(s, m) && SendSize(s.x.snd) > 0
    ensures var f := NextInFlight(s.x.snd, now);
            var g := DataSegment(s.x, f.data);
            && f.seqNum == g.seqNum == s.x.snd.nxt == Start(s.pieces, s.x.snd.iss + 1, |s.pieces|)
            && f.length == |f.data| > 0 && g.payload == f.data && Plain(f.flags) && Plain(g.flags)
            && f.length <= |s.x.snd.buf| && s.x.snd.nxt + |s.x.snd.buf| < TWO32
            && f.length <= s.x.snd.wnd - (s.x.snd.nxt - s.x.snd.una)
  {
    hide ReceiverTiles, AcksInOrder, OnlyPieceData, InFlightPieces;
    SendSizeFits(s.x.snd);
  }

  lemma SendEffect(s: Flow, now: int)
    requires SendSize(s.x.snd) > 0 && s.x.snd.nxt + |s.x.snd.buf| < TWO32
    ensures var snd := s.x.snd;
            var f := NextInFlight(snd, now);
            var x := s.x.(snd := snd.(
                       buf := snd.buf[f.length..], nxt := snd.nxt + f.length, inFlight := snd.inFlight + [f]));
            TakeStep(s, Send(now))
            == s.(x := x, pieces := s.pieces + [f.data], data := s.data + {DataSegment(s.x, f.data)})
  {
  }

  lemma SendKeeps(s: Flow, m: nat, now: int)
    requires InvAt(s, m) && SendSize(s.x.snd) > 0
    ensures InvAt(TakeStep(s, Send(now)), m)
  {
    hide ReceiverTiles, AcksInOrder, OnlyPieceData;
    hide SendSize, FreeWindow, NextInFlight, DataSegment, TakeStep;
    var f := NextInFlight(s.x.snd, now);
    NextSegment(s, m, now);
    SendEffect(s, now);
    GrowTiling(s, DataSegment(s.x, f.data), s.x.snd.iss + 1, m);
  }

  lemma ExpireKeeps(s: Flow, m: nat, now: int)
    requires InvAt(s, m) && CanStep(s, Expire(now))
    ensures InvAt(TakeStep(s, Expire(now)), m)
  {
    hide ReceiverTiles, AcksInOrder, IsPiece, Others;
    var l := s.x.snd.inFlight;
    assert l[FirstUnacked(l, s.x.snd.una)] in l;
  }

  /** A data segment that is in order fits the receive buffer. */
  lemma InOrderFits(s: Flow, m: nat, seg: Segment)
    requires InvAt(s, m) && seg in s.data
    ensures |Stream(s.pieces)| <= |s.y.sock.rcv.taken| + BUFFER_SIZE
    ensures |seg.payload| > 0
    ensures seg.seqNum == s.y.sock.rcv.nxt ==> |seg.payload| <= Free(s.y.sock.rcv.buf)
  {
    var base := s.x.snd.iss + 1;
    assert s.pieces[..|s.pieces|] == s.pieces;
    var i: nat :| IsPieceAt(s.pieces, base, seg.seqNum, seg.payload, i);
    DataFits(s.y.sock, seg, s.pieces, base, m);
  }

  /** A data segment ends the handshake of a connection still in SYN_RECEIVED, and is dropped. */
  lemma DataEffect(y: Conn, seg: Segment)
    requires Plain(seg.flags) && |seg.payload| > 0 && (y.state == Established || y.state == SynReceived)
    ensures var (y', out) := Handle(y, seg);
            && (y'.state == Established || y'.state == SynReceived)
            && if y.state == SynReceived then y'.sock.rcv == y.sock.rcv && out == []
               else
                 && y'.sock.rcv == HandleData(y.sock.(snd := y.sock.snd.(wnd := seg.window)), seg).0.rcv
                 && out == [AckSegment(y'.sock)]
  {
    hide Drain, CleanUp;
  }

  /** `y` processes a data segment: it keeps the tiling, its right edge, and answers in order. */
  lemma ReceiverKeeps(s: Flow, m: nat, seg: Segment) returns (m': nat)
    requires InvAt(s, m) && seg in s.data
    ensures var (y, out) := Handle(s.y, seg);
            && ReceiverTiles(y, s.pieces, s.x.snd.iss + 1, m')
            && s.y.sock.rcv.nxt <= y.sock.rcv.nxt
            && RightEdge(y.sock.rcv) == RightEdge(s.y.sock.rcv)
            && (out == [] || out == [AckSegment(y.sock)])
            && GoodAck(AckSegment(y.sock), s.pieces, s.x.snd.iss + 1)
  {
    var base := s.x.snd.iss + 1;
    var k0 := s.y.sock.(snd := s.y.sock.snd.(wnd := seg.window));
    InOrderFits(s, m, seg);
    DataEffect(s.y, seg);
    hide Handle, HandleData;
    m' := m;
    if s.y.state == Established {
      DataFits(k0, seg, s.pieces, base, m);
      m' := HandleDataTiled(k0, seg, s.pieces, base, m);
      StartsOrdered(s.pieces, base, m, m');
      var y := Handle(s.y, seg).0;
      assert RightEdge(y.sock.rcv) == base + |y.sock.rcv.Log()| + BUFFER_SIZE - |y.sock.rcv.buf|;
    }
    assert AckSegment(Handle(s.y, seg).0.sock).ackNum == Start(s.pieces, base, m');
  }

  lemma AppendAck(s: Flow, g: Segment, y: Conn, base: nat)
    requires AllAcksInOrder(s, base) && GoodAck(g, s.pieces, base) && WindowFits(s)
    requires s.y.sock.rcv.nxt <= y.sock.rcv.nxt == g.ackNum
    requires RightEdge(s.y.sock.rcv) <= RightEdge(y.sock.rcv) == Edge(g)
    ensures AllAcksInOrder(s.(y := y), base) && AllAcksInOrder(s.(acks := s.acks + [g], y := y), base)
  {
    forall i | 0 <= i < |s.acks| ensures s.acks[i].ackNum <= g.ackNum && Edge(s.acks[i]) <= Edge(g) {
      assert s.acks[i] in s.acks;
    }
  }

  lemma ReplyKeeps(s: Flow, m: nat, y: Conn, out: seq<Segment>, m': nat)
    requires InvAt(s, m) && s.pieces != [] && ReceiverTiles(y, s.pieces, s.x.snd.iss + 1, m')
    requires s.y.sock.rcv.nxt <= y.sock.rcv.nxt && RightEdge(y.sock.rcv) == RightEdge(s.y.sock.rcv)
    requires out == [] || out == [AckSegment(y.sock)]
    requires GoodAck(AckSegment(y.sock), s.pieces, s.x.snd.iss + 1)
    ensures InvAt(s.(y := y, acks := s.acks + out), m')
  {
    var g := AckSegment(y.sock);
    assert g.ackNum == y.sock.rcv.nxt && Edge(g) == RightEdge(y.sock.rcv);
    assert WindowFits(s.(y := y, acks := s.acks + out));
    hide ReceiverTiles, AcksInOrder, GoodAck, OnlyPieceData, InFlightPieces, AckSegment, Start, WindowFits;
    assert s.acks + [] == s.acks;
    AppendAck(s, g, y, s.x.snd.iss + 1);
  }

  lemma DataKeeps(s: Flow, m: nat, seg: Segment) returns (m': nat)
    requires InvAt(s, m) && CanStep(s, DataArrives(seg))
    ensures InvAt(TakeStep(s, DataArrives(seg)), m')
    ensures RightEdge(TakeStep(s, DataArrives(seg)).y.sock.rcv) == RightEdge(s.y.sock.rcv)
  {
    assert s.pieces != [];
    hide InvAt, Handle;
    m' := ReceiverKeeps(s, m, seg);
    var (y, out) := Handle(s.y, seg);
    assert TakeStep(s, DataArrives(seg)) == s.(y := y, acks := s.acks + out);
    hide TakeStep, ReceiverTiles, GoodAck;
    ReplyKeeps(s, m, y, out, m');
  }

  /** The acknowledgements behind the i-th, once `x` has taken that one, or only its window. */
  lemma DropAcks(s: Flow, i: nat, snd: Snd, base: nat)
    requires AllAcksInOrder(s, base) && i < |s.acks|
    requires snd.una == s.acks[i].ackNum || snd.una == s.x.snd.una
    requires snd.wnd == s.acks[i].window
    ensures AllAcksInOrder(s.(acks := s.acks[i + 1..], x := s.x.(snd := snd)), base)
  {
    var rest := s.acks[i + 1..];
    assert s.acks[i] in s.acks;
    forall g | g in rest
      ensures g in s.acks && s.acks[i].ackNum <= g.ackNum && Edge(s.acks[i]) <= Edge(g)
    {
      var j :| 0 <= j < |rest| && rest[j] == g;
      assert s.acks[i + 1 + j] == g;
    }
  }

  lemma AckEffect(s: Flow, i: nat)
    requires i < |s.acks| && s.acks[i].payload == [] && s.acks[i].flags == ACK
    ensures var was := s.x.snd.(wnd := s.acks[i].window);
            var snd := ProcessAck(was, s.acks[i].ackNum);
            && TakeStep(s, AckArrives(i)) == s.(x := s.x.(snd := snd), acks := s.acks[i + 1..])
            && snd.buf == was.buf && snd.accepted == was.accepted
            && snd.iss == was.iss && snd.nxt == was.nxt && snd.wnd == was.wnd
            && snd.una == (if was.inFlight != [] && s.acks[i].ackNum > was.una then s.acks[i].ackNum else was.una)
            && (forall f :: f in snd.inFlight ==> f in was.inFlight)
            && (s.acks[i].ackNum <= was.una ==> snd == was)
  {
    hide Samples, Keep;
  }

  lemma AckFacts(s: Flow, i: nat, base: nat)
    requires AllAcksInOrder(s, base) && i < |s.acks|
    ensures GoodAck(s.acks[i], s.pieces, base)
    ensures s.x.snd.una <= s.acks[i].ackNum <= s.y.sock.rcv.nxt
    ensures s.acks[i].ackNum <= Start(s.pieces, base, |s.pieces|)
    ensures s.x.snd.una + s.x.snd.wnd <= Edge(s.acks[i]) <= RightEdge(s.y.sock.rcv)
  {
    assert s.acks[i] in s.acks;
    var j: nat :| j <= |s.pieces| && s.acks[i].ackNum == Start(s.pieces, base, j);
    StartsOrdered(s.pieces, base, j, |s.pieces|);
  }

  /**
   An acknowledgement that finds nothing in flight does not move UNA, but its window is taken all
   the same.  The flow stays within the window if that window has room for what UNA leaves behind.
   */
  predicate AckFits(s: Flow, step: Step) {
    step.AckArrives? && step.i < |s.acks| && s.x.snd.inFlight == [] && s.acks[step.i].ackNum > s.x.snd.una ==>
      s.x.snd.nxt - s.x.snd.una <= s.acks[step.i].window
  }

  lemma AckKeeps(s: Flow, m: nat, i: nat)
    requires InvAt(s, m) && i < |s.acks|
    ensures var t := TakeStep(s, AckArrives(i));
            && (AckFits(s, AckArrives(i)) ==> InvAt(t, m))
            && (WindowFits(t) <==> AckFits(s, AckArrives(i)))
            && t.y == s.y
  {
    hide ReceiverTiles, AcksInOrder, OnlyPieceData, ProcessAck, TakeStep;
    var base := s.x.snd.iss + 1;
    var snd := s.x.snd.(wnd := s.acks[i].window);
    AckFacts(s, i, base);
    AckEffect(s, i);
    DropAcks(s, i, ProcessAck(snd, s.acks[i].ackNum), base);
  }

  /** Reading frees room: the window the receiver could advertise moves right. */
  lemma ReadKeeps(s: Flow, n: nat, m: nat)
    requires ReceiverTiles(s.y, s.pieces, s.x.snd.iss + 1, m) && AllAcksInOrder(s, s.x.snd.iss + 1)
    ensures var y := s.y.(sock := s.y.sock.(rcv := Read(s.y.sock.rcv, n)));
            && ReceiverTiles(y, s.pieces, s.x.snd.iss + 1, m)
            && RightEdge(y.sock.rcv) >= RightEdge(s.y.sock.rcv)
            && AllAcksInOrder(s.(y := y), s.x.snd.iss + 1)
  {
    var r := s.y.sock.rcv;
    assert r.buf[..Min(n, |r.buf|)] + r.buf[Min(n, |r.buf|)..] == r.buf;
    assert Read(r, n).Log() == r.Log();
  }

  lemma WriteAndReadKeep(s: Flow, m: nat, step: Step)
    requires InvAt(s, m) && CanStep(s, step) && (step.Write? || step.ReadSome?)
    ensures InvAt(TakeStep(s, step), m)
    ensures RightEdge(TakeStep(s, step).y.sock.rcv) >= RightEdge(s.y.sock.rcv)
  {
    hide AcksInOrder;
    if step.ReadSome? {
      ReadKeeps(s, step.n, m);
    } else {
      hide ReceiverTiles;
    }
  }

  /** A step keeps the invariant exactly when AckFits; the receiver's right edge never moves left. */
  lemma StepKeepsIff(s: Flow, step: Step)
    requires Inv(s) && CanStep(s, step)
    ensures AckFits(s, step) ==> Inv(TakeStep(s, step))
    ensures WindowFits(TakeStep(s, step)) <==> AckFits(s, step)
    ensures RightEdge(TakeStep(s, step).y.sock.rcv) >= RightEdge(s.y.sock.rcv)
  {
    hide ReceiverTiles, OnlyPieceData, InFlightPieces, AcksInOrder;
    hide SendOnce, SendSize, Retransmit, HandleEstablished;
    var m: nat :| InvAt(s, m);
    var m' := m;
    match step {
      case Send(now) => SendKeeps(s, m, now);
      case Expire(now) => ExpireKeeps(s, m, now);
      case DataArrives(seg) => m' := DataKeeps(s, m, seg);
      case AckArrives(i) => AckKeeps(s, m, i);
      case _ => WriteAndReadKeep(s, m, step);
    }
    assert AckFits(s, step) ==> InvAt(TakeStep(s, step), m');
  }

  // ---------------------------------------------------------------------- every run

  predicate Run(s: Flow, steps: seq<Step>)
    decreases |steps|
  {
    steps == [] || (CanStep(s, steps[0]) && Run(TakeStep(s, steps[0]), steps[1..]))
  }

  function After(s: Flow, steps: seq<Step>): Flow
    requires Run(s, steps)
    decreases |steps|
  {
    if steps == [] then s else After(TakeStep(s, steps[0]), steps[1..])
  }

  lemma {:induction false} RunExtends(s: Flow, steps: seq<Step>, step: Step)
    requires Run(s, steps) && CanStep(After(s, steps), step)
    ensures Run(s, steps + [step])
    ensures After(s, steps + [step]) == TakeStep(After(s, steps), step)
    decreases |steps|
  {
    if steps == [] {
      assert [step][1..] == [];
    } else {
      assert (steps + [step])[1..] == steps[1..] + [step];
      RunExtends(TakeStep(s, steps[0]), steps[1..], step);
    }
  }

  /** Every acknowledgement of the run fits. */
  predicate AcksFit(s: Flow, steps: seq<Step>)
    decreases |steps|
  {
    steps == [] || (CanStep(s, steps[0]) && AckFits(s, steps[0]) && AcksFit(TakeStep(s, steps[0]), steps[1..]))
  }

  /** The window holds in every state of the run. */
  predicate AlwaysFits(s: Flow, steps: seq<Step>)
    decreases |steps|
  {
    WindowFits(s) && (steps == [] || (CanStep(s, steps[0]) && AlwaysFits(TakeStep(s, steps[0]), steps[1..])))
  }

  lemma {:induction false} RunKeeps(s: Flow, steps: seq<Step>)
    requires Inv(s) && Run(s, steps) && AcksFit(s, steps)
    ensures Inv(After(s, steps))
    ensures RightEdge(After(s, steps).y.sock.rcv) >= RightEdge(s.y.sock.rcv)
    decreases |steps|
  {
    hide Inv, WindowFits, AckFits;
    if steps != [] {
      StepKeepsIff(s, steps[0]);
      RunKeeps(TakeStep(s, steps[0]), steps[1..]);
    }
  }

  lemma {:induction false} RunFitsIff(s: Flow, steps: seq<Step>)
    requires Inv(s) && Run(s, steps)
    ensures AlwaysFits(s, steps) <==> AcksFit(s, steps)
    decreases |steps|
  {
    assert WindowFits(s);
    hide Inv, WindowFits, AckFits;
    if steps != [] {
      StepKeepsIff(s, steps[0]);
      if AckFits(s, steps[0]) {
        RunFitsIff(TakeStep(s, steps[0]), steps[1..]);
      } else {
        assert !AlwaysFits(TakeStep(s, steps[0]), steps[1..]);
      }
    }
  }

  lemma InvMeansFlow(t: Flow)
    requires Inv(t)
    ensures FreeWindow(t.x.snd) == t.x.snd.wnd - (t.x.snd.nxt - t.x.snd.una)
    ensures forall g :: g in t.data && g.seqNum == t.y.sock.rcv.nxt ==> |g.payload| <= Free(t.y.sock.rcv.buf)
  {
    var m: nat :| InvAt(t, m);
    SendSizeFits(t.x.snd);
    forall g | g in t.data && g.seqNum == t.y.sock.rcv.nxt ensures |g.payload| <= Free(t.y.sock.rcv.buf) {
      InOrderFits(t, m, g);
    }
  }

  lemma InitHolds(s: Flow)
    requires Init(s)
    ensures Inv(s)
  {
    assert InvAt(s, 0);
  }

  /**
   The data in flight fits the window, and the window fits the receiver's buffer, in every state of
   a run exactly when each acknowledgement of the run fits.
   */
  lemma FlowIsControlledIff(s: Flow, steps: seq<Step>)
    requires Init(s) && Run(s, steps)
    ensures AlwaysFits(s, steps) <==> AcksFit(s, steps)
  {
    InitHolds(s);
    RunFitsIff(s, steps);
  }

  /**
   After any run whose acknowledgements fit, the source's uint16 subtraction is the true
   difference; the receiver's right edge has not moved left; and a segment in order fits the
   receive buffer.
   */
  lemma FlowIsControlled(s: Flow, steps: seq<Step>)
    requires Init(s) && Run(s, steps) && AcksFit(s, steps)
    ensures var t := After(s, steps);
            && WindowFits(t)
            && FreeWindow(t.x.snd) == t.x.snd.wnd - (t.x.snd.nxt - t.x.snd.una)
            && RightEdge(t.y.sock.rcv) >= RightEdge(s.y.sock.rcv)
            && (forall g :: g in t.data && g.seqNum == t.y.sock.rcv.nxt ==> |g.payload| <= Free(t.y.sock.rcv.buf))
  {
    InitHolds(s);
    RunKeeps(s, steps);
    InvMeansFlow(After(s, steps));
  }
}
