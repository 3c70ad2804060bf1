/**
 NormalSocket and its table entry's State, updated in place by the handlers, the user calls and
 the retransmission timer.  Each method is proved against its function in Tcp.dfy; `sent` lists
 the segments handed to IP.
 */
module NormalSocket {
  import opened Bytes
  import opened Tcp

  /** Everything trySendData sends before it has to wait for the window or to probe it. */
  function Burst(k: Sock, now: int): (Sock, seq<Segment>)
    decreases |k.snd.buf|
  {
    if SendSize(k.snd) == 0 then (k, [])
    else
      var (k1, out1) := SendOnce(k, now);
      var (k2, out2) := Burst(k1, now);
      (k2, out1 + out2)
  }

  function Payloads(out: seq<Segment>): seq<byte> {
    if out == [] then [] else out[0].payload + Payloads(out[1..])
  }

  /** The segments carry the bytes of `data` back to back, numbered from `nxt`, none of them too long. */
  predicate Consecutive(out: seq<Segment>, nxt: uint32) {
    out == [] || (
      && out[0].seqNum == nxt && 0 < |out[0].payload| <= MAX_TCP_PAYLOAD
      && Consecutive(out[1..], Add32(nxt, |out[0].payload|)))
  }

  /** One pass sends the next bytes of the buffer under the next number. */
  lemma SendOncePrefix(k: Sock, now: int)
    requires SendSize(k.snd) > 0
    ensures var (k', out) := SendOnce(k, now);
            && |out| == 1 && out[0].seqNum == k.snd.nxt && 0 < |out[0].payload| <= MAX_TCP_PAYLOAD
            && k.snd.buf == out[0].payload + k'.snd.buf && k'.snd.nxt == Add32(k.snd.nxt, |out[0].payload|)
            && k'.snd.accepted == k.snd.accepted && k'.rcv == k.rcv
            && (|out[0].payload| < MAX_TCP_PAYLOAD ==>
                  k'.snd.buf == [] || |out[0].payload| == FreeWindow(k.snd))
  {
    hide FreeWindow;
  }

  lemma StopsWhen(s: Snd)
    ensures SendSize(s) == 0 ==> s.buf == [] || s.wnd == 0 || FreeWindow(s) == 0
  {
    hide FreeWindow;
  }

  /**
   A burst sends a prefix of the buffer in order, numbered consecutively from NXT, and stops only
   when the buffer or the window is exhausted, or the peer's window is closed.
   */
  lemma {:induction false} BurstSendsPrefix(k: Sock, now: int)
    ensures var (k', out) := Burst(k, now);
            && Payloads(out) + k'.snd.buf == k.snd.buf
            && Consecutive(out, k.snd.nxt)
            && (k'.snd.buf == [] || k'.snd.wnd == 0 || FreeWindow(k'.snd) == 0)
            && k'.snd.accepted == k.snd.accepted && k'.rcv == k.rcv
    decreases |k.snd.buf|
  {
    StopsWhen(k.snd);
    hide FreeWindow, SendSize, SendOnce;
    if SendSize(k.snd) > 0 {
      SendOncePrefix(k, now);
      var (k1, out1) := SendOnce(k, now);
      var (k2, out2) := Burst(k1, now);
      BurstSendsPrefix(k1, now);
      assert (out1 + out2)[1..] == out2 && out1[0] == (out1 + out2)[0];
      assert Payloads(out1 + out2) + k2.snd.buf == out1[0].payload + (Payloads(out2) + k2.snd.buf);
    }
  }

  /** How many probes are sent when the peer's window is `windows[i]` after probe number i. */
  function Probes(windows: seq<uint16>): (n: nat)
    ensures n <= |windows| && (windows != [] ==> n > 0)
    ensures forall i :: 0 <= i < n - 1 ==> windows[i] == 0
    ensures n < |windows| ==> windows[n - 1] != 0
  {
    if windows == [] then 0 else if windows[0] != 0 then 1 else 1 + Probes(windows[1..])
  }

  lemma ProbeTurn(windows: seq<uint16>, i: nat)
    ensures i < |windows| ==>
              Probes(windows[i..]) == if windows[i] != 0 then 1 else 1 + Probes(windows[i + 1..])
    ensures Probes(windows[|windows|..]) == 0
  {
    assert i < |windows| ==> windows[i..][1..] == windows[i + 1..];
  }

  function Repeat(g: Segment, n: nat): seq<Segment> {
    if n == 0 then [] else Repeat(g, n - 1) + [g]
  }

  /** What the loop of cleanUpInFlightPackets does in turn `i`. */
  lemma CleanUpTurn(s: Snd, l: seq<InFlight>, i: nat, ack: uint32)
    requires i < |l| && s.inFlight == l
    ensures if Kept(l[i], ack)
            then && Keep(l[i..], ack) == [l[i]] + Keep(l[i + 1..], ack)
                 && Samples(s, l[i..], ack) == Samples(s, l[i + 1..], ack)
            else && Keep(l[i..], ack) == Keep(l[i + 1..], ack)
                 && Samples(s, l[i..], ack)
                    == Samples(Sample(s, MeasuredRtt(l, l[i].seqNum, l[i].timeSent)), l[i + 1..], ack)
  {
    assert l[i..][0] == l[i] && l[i..][1..] == l[i + 1..];
  }

  lemma CleanUpEnds(s: Snd, l: seq<InFlight>, ack: uint32)
    ensures Keep(l[|l|..], ack) == [] && Samples(s, l[|l|..], ack) == s && l[0..] == l
  {
  }

  datatype ReadResult = NotEstablished | Waits | Bytes(data: seq<byte>)

  class NormalSocket {
    var state: TcpState
    var seqNum: uint32
    var ackNum: uint32
    var snd: Snd
    var rcv: Rcv
    var sent: seq<Segment>

    function Value(): Sock
      reads this
    {
      Sock(seqNum, ackNum, snd, rcv)
    }

    function Connection(): Conn
      reads this
    {
      Conn(state, Value())
    }

    constructor (c: Conn)
      ensures Connection() == c && sent == []
    {
      state, seqNum, ackNum, snd, rcv, sent := c.state, c.sock.seqNum, c.sock.ackNum, c.sock.snd, c.sock.rcv, [];
    }

    method SendPacket(g: Segment)
      modifies this`sent
      ensures sent == old(sent) + [g]
    {
      sent := sent + [g];
    }

    // ------------------------------------------------------------------ receiving

    method FindNextSequence(early: seq<Early>, expected: uint32) returns (i: nat)
      ensures i == FindSeq(early, expected)
    {
      i := 0;
      while i < |early|
        invariant i <= |early| && forall k :: 0 <= k < i ==> early[k].seqNum != expected
      {
        if early[i].seqNum == expected {
          return;
        }
        i := i + 1;
      }
    }

    method RemovePacket(early: seq<Early>, n: uint32) returns (rest: seq<Early>)
      ensures var i := FindSeq(early, n); rest == if i < |early| then RemoveAt(early, i) else early
    {
      for i := 0 to |early|
        invariant forall k :: 0 <= k < i ==> early[k].seqNum != n
      {
        if early[i].seqNum == n {
          return early[..i] + early[i + 1..];
        }
      }
      return early;
    }

    method ProcessInOrderData(payload: seq<byte>)
      modifies this
      ensures state == old(state)
      ensures Value() == ProcessInOrder(old(Value()), payload).0
      ensures sent == old(sent) + ProcessInOrder(old(Value()), payload).1
    {
      rcv := Put(rcv, payload);
      ghost var r := Drain(rcv);
      while true
        invariant Drain(rcv) == r
        invariant state == old(state) && sent == old(sent)
        invariant seqNum == old(seqNum) && ackNum == old(ackNum) && snd == old(snd)
        decreases |rcv.early|
      {
        var i := FindNextSequence(rcv.early, rcv.nxt);
        if i == |rcv.early| {
          break;
        }
        var next := rcv.early[i];
        var rest := RemovePacket(rcv.early, next.seqNum);
        rcv := Put(rcv, next.data).(early := rest);
      }
      rcv := rcv.(wnd := Free(rcv.buf));
      SendPacket(AckSegment(Value()));
    }

    method HandleDataPacket(seg: Segment)
      modifies this
      ensures state == old(state)
      ensures Value() == HandleData(old(Value()), seg).0
      ensures sent == old(sent) + HandleData(old(Value()), seg).1
    {
      if seg.seqNum == rcv.nxt {
        ProcessInOrderData(seg.payload);
      } else {
        rcv := rcv.(early := rcv.early + [Early(seg.seqNum, seg.payload)]);
        SendPacket(AckSegment(Value()));
      }
    }

    // ------------------------------------------------------------------ acknowledgements

    /** computeRTO's loop, for the packet's send time. */
    method MeasureRTT(n: uint32, received: int) returns (rtt: int)
      ensures rtt == MeasuredRtt(snd.inFlight, n, received)
    {
      var l := snd.inFlight;
      for i := 0 to |l|
        invariant MeasuredRtt(l, n, received) == MeasuredRtt(l[i..], n, received)
      {
        if l[i].seqNum == n {
          return received - l[i].timeSent;
        }
      }
      return 0;
    }

    method ComputeRTO(n: uint32, received: int)
      modifies this`snd
      ensures snd == Sample(old(snd), MeasuredRtt(old(snd).inFlight, n, received))
    {
      hide MeasuredRtt, Trunc, Abs;
      var rtt := MeasureRTT(n, received);
      if snd.srtt == 0 {
        snd := snd.(srtt := rtt, rttvar := Trunc(rtt as real / 2.0));
      } else {
        snd := snd.(rttvar := Trunc(snd.rttvar as real * 0.75 + Abs(snd.srtt - rtt) as real * 0.25));
        snd := snd.(srtt := Trunc(0.875 * snd.srtt as real + 0.125 * rtt as real));
      }
      snd := snd.(rto := snd.srtt + 4 * snd.rttvar);
      if snd.rto < MIN_RTO {
        snd := snd.(rto := MIN_RTO);
      } else if snd.rto > MSL {
        snd := snd.(rto := MSL);
      }
    }

    method CleanUpInFlightPackets(ack: uint32)
      modifies this`snd
      ensures snd == CleanUp(old(snd), ack)
    {
      hide Sample, MeasuredRtt, Samples, Keep;
      var l := snd.inFlight;
      var newPackets: seq<InFlight> := [];
      CleanUpEnds(snd, l, ack);
      for i := 0 to |l|
        invariant newPackets + Keep(l[i..], ack) == Keep(l, ack)
        invariant snd.inFlight == l
        invariant Samples(snd, l[i..], ack) == Samples(old(snd), l, ack)
      {
        CleanUpTurn(snd, l, i, ack);
        if Add32(l[i].seqNum, l[i].length) > ack {
          newPackets := newPackets + [l[i]];
        } else {
          ComputeRTO(l[i].seqNum, l[i].timeSent);
        }
      }
      CleanUpEnds(snd, l, ack);
      snd := snd.(inFlight := newPackets);
    }

    method HandleEstablishedPacket(seg: Segment)
      modifies this
      ensures state == old(state)
      ensures Value() == HandleEstablished(old(Value()), seg).0
      ensures sent == old(sent) + HandleEstablished(old(Value()), seg).1
    {
      hide HandleData, CleanUp;
      snd := snd.(wnd := seg.window);
      if |seg.payload| > 0 {
        HandleDataPacket(seg);
      }
      if seg.flags.ack && |snd.inFlight| > 0 {
        if seg.ackNum <= snd.una {
          return;
        }
        snd := snd.(una := seg.ackNum);
        CleanUpInFlightPackets(seg.ackNum);
        snd := snd.(retransmissions := 0);
      }
    }

    // ------------------------------------------------------------------ sending

    /** One pass of trySendData's loop: false when it has to wait for the window, or to probe it. */
    method SendPass(now: int) returns (ok: bool)
      modifies this
      ensures state == old(state)
      ensures ok <==> old(SendSize(snd)) > 0
      ensures ok ==> Value() == SendOnce(old(Value()), now).0 && sent == old(sent) + SendOnce(old(Value()), now).1
      ensures !ok ==> Value() == old(Value()) && sent == old(sent)
    {
      hide FreeWindow;
      var free := FreeWindow(snd);
      if snd.wnd == 0 || free <= 0 || |snd.buf| == 0 {
        return false;
      }
      var n := Min(Min(free, MAX_TCP_PAYLOAD), |snd.buf|);
      var data := snd.buf[..n];
      SendPacket(DataSegment(Value(), data));
      snd := snd.(buf := snd.buf[n..],
                  inFlight := snd.inFlight + [InFlight(snd.nxt, n, data, now, ACK, 0)],
                  nxt := Add32(snd.nxt, n));
      return true;
    }

    /** The passes of trySendData's loop up to the first one that waits or probes. */
    method TrySendData(now: int)
      modifies this
      ensures state == old(state)
      ensures Value() == Burst(old(Value()), now).0
      ensures sent == old(sent) + Burst(old(Value()), now).1
    {
      ghost var all := Burst(Value(), now);
      while |snd.buf| > 0
        invariant state == old(state)
        invariant Burst(Value(), now).0 == all.0
        invariant sent + Burst(Value(), now).1 == old(sent) + all.1
      {
        hide SendOnce, SendSize;
        ghost var k, before := Value(), sent;
        var ok := SendPass(now);
        if !ok {
          break;
        }
        SendOncePrefix(k, now);
        assert Burst(k, now).1 == SendOnce(k, now).1 + Burst(Value(), now).1;
        assert sent + Burst(Value(), now).1 == before + Burst(k, now).1;
      }
    }

    /** One TryWrite of VWrite, which goes on with `data[n..]`. */
    method TryWrite(data: seq<byte>) returns (n: nat)
      modifies this`snd
      ensures snd == Accept(old(snd), data) && n == Min(Free(old(snd).buf), |data|)
      ensures snd.buf + data[n..] == old(snd).buf + data && snd.accepted + data[n..] == old(snd).accepted + data
    {
      assert data == data[..Min(Free(snd.buf), |data|)] + data[Min(Free(snd.buf), |data|)..];
      n := Min(Free(snd.buf), |data|);
      snd := snd.(buf := snd.buf + data[..n], accepted := snd.accepted + data[..n]);
    }

    /**
     sendZeroWindowProbe.  The handler of arriving packets runs beside its loop; `windows` says
     what it has set the peer's window to after each probe.  A window that opens only after the
     thirtieth probe comes too late, and then the byte taken out of the buffer is given up.
     */
    method SendZeroWindowProbe(windows: seq<uint16>) returns (ok: bool)
      requires |windows| == ZWP_RETRIES && snd.wnd == 0 && |snd.buf| > 0
      modifies this`snd, this`sent
      ensures var n := Probes(windows);
              && (ok <==> n < ZWP_RETRIES)
              && sent == old(sent) + Repeat(DataSegment(old(Value()), old(snd.buf[..1])), n)
              && snd == old(snd).(buf := old(snd).buf[1..], wnd := windows[n - 1],
                                  nxt := if ok then Add32(old(snd).nxt, 1) else old(snd).nxt)
    {
      ghost var k := Value();
      var retries := 0;
      var data := snd.buf[..1];
      snd := snd.(buf := snd.buf[1..]);
      while snd.wnd == 0 && retries < ZWP_RETRIES
        invariant retries <= ZWP_RETRIES && rcv == k.rcv
        invariant snd == k.snd.(buf := k.snd.buf[1..], wnd := if retries == 0 then 0 else windows[retries - 1])
        invariant Probes(windows) == retries + (if snd.wnd == 0 then Probes(windows[retries..]) else 0)
        invariant sent == old(sent) + Repeat(DataSegment(k, data), retries)
      {
        hide Probes;
        ProbeTurn(windows, retries);
        SendPacket(DataSegment(Value(), data));
        snd := snd.(wnd := windows[retries]);
        retries := retries + 1;
      }
      if retries >= ZWP_RETRIES {
        return false;
      }
      snd := snd.(nxt := Add32(snd.nxt, 1));
      return true;
    }

    method GetFirstUnackedPacket() returns (i: nat)
      ensures i == FirstUnacked(snd.inFlight, snd.una)
    {
      i := 0;
      while i < |snd.inFlight|
        invariant i <= |snd.inFlight| && forall k :: 0 <= k < i ==> snd.inFlight[k].seqNum < snd.una
      {
        if snd.inFlight[i].seqNum >= snd.una {
          return;
        }
        i := i + 1;
      }
    }

    /** retransmitPacket's loop over the in-flight list. */
    method DropPacket(l: seq<InFlight>, n: uint32) returns (newPackets: seq<InFlight>)
      ensures newPackets == Others(l, n)
    {
      newPackets := [];
      for j := 0 to |l|
        invariant newPackets + Others(l[j..], n) == Others(l, n)
      {
        assert l[j..][0] == l[j] && l[j..][1..] == l[j + 1..];
        if l[j].seqNum != n {
          newPackets := newPackets + [l[j]];
        }
      }
    }

    /** retransmitPacket: nothing to send, an error after four retransmissions, or one packet again. */
    method RetransmitPacket(now: int) returns (ok: bool)
      modifies this
      ensures state == old(state)
      ensures ok <==> old(CanRetransmit(snd)) || old(FirstUnacked(snd.inFlight, snd.una) == |snd.inFlight|)
      ensures old(CanRetransmit(snd)) ==> Value() == Retransmit(old(Value()), now).0
                                          && sent == old(sent) + Retransmit(old(Value()), now).1
      ensures !old(CanRetransmit(snd)) ==> Value() == old(Value()) && sent == old(sent)
    {
      hide FirstUnacked, Others;
      var i := GetFirstUnackedPacket();
      if i == |snd.inFlight| {
        return true;
      }
      if snd.retransmissions > RTO_MAX_RETRIES {
        return false;
      }
      var p := snd.inFlight[i];
      SendPacket(Segment(p.seqNum, rcv.nxt, p.flags, p.windowFlags, p.data));
      var newPackets := DropPacket(snd.inFlight, p.seqNum);
      snd := snd.(inFlight := newPackets + [InFlight(p.seqNum, 0, p.data, now, p.flags, p.windowFlags)]);
      snd := snd.(retransmissions := snd.retransmissions + 1, rto := 2 * snd.rto);
      if snd.rto > MAX_RTO {
        snd := snd.(rto := MAX_RTO);
      }
      return true;
    }

    // ------------------------------------------------------------------ user calls, tear-down

    /**
     VRead with a buffer of `n` bytes: an error outside three states; otherwise it waits for a first
     byte, which is to say that nothing has happened yet, or takes what there is, up to `n` bytes.
     */
    method VRead(n: nat) returns (r: ReadResult)
      modifies this`rcv
      ensures r.NotEstablished? <==> state != Established && state != FinWait1 && state != FinWait2
      ensures r.Waits? <==> !r.NotEstablished? && old(rcv).buf == [] && n > 0
      ensures !r.Bytes? ==> rcv == old(rcv)
      ensures r.Bytes? ==> rcv == Read(old(rcv), n) && rcv.taken == old(rcv).taken + r.data
      ensures r.Bytes? ==> r.data + rcv.buf == old(rcv).buf && |r.data| <= n && (|r.data| < n ==> rcv.buf == [])
    {
      if state != Established && state != FinWait1 && state != FinWait2 {
        return NotEstablished;
      }
      if rcv.buf == [] && n > 0 {
        return Waits;
      }
      var data := rcv.buf[..Min(n, |rcv.buf|)];
      rcv := rcv.(buf := rcv.buf[|data|..], taken := rcv.taken + data);
      rcv := rcv.(wnd := Free(rcv.buf));
      return Bytes(data);
    }

    method VClose(now: int) returns (ok: bool)
      modifies this
      ensures ok <==> old(CanClose(Connection()))
      ensures ok ==> Connection() == Close(old(Connection()), now).0
                     && sent == old(sent) + Close(old(Connection()), now).1
      ensures !ok ==> Connection() == old(Connection()) && sent == old(sent)
    {
      if state != Established && state != CloseWait {
        return false;
      }
      var g := Segment(seqNum, rcv.nxt, FIN, rcv.wnd, []);
      snd := snd.(inFlight := snd.inFlight + [InFlight(seqNum, 0, [], now, FIN, 0)]);
      SendPacket(g);
      if state == Established {
        state := FinWait1;
      } else if state == CloseWait {
        state := LastAck;
      }
      return true;
    }

    method HandleFINPacket(seg: Segment)
      modifies this
      ensures Connection() == HandleFin(old(Connection()), seg).0
      ensures sent == old(sent) + HandleFin(old(Connection()), seg).1
    {
      hide CleanUp;
      rcv := rcv.(nxt := Add32(seg.seqNum, 1), wnd := seg.window);
      SendPacket(AckSegment(Value()));
      CleanUpInFlightPackets(seg.ackNum);
      if state == Established {
        state := CloseWait;
      }
      if state == FinWait2 {
        state := TimeWait;
      }
    }

    method HandleClosingACK(seg: Segment)
      modifies this
      ensures Connection() == HandleClosingAck(old(Connection()), seg) && sent == old(sent)
    {
      hide CleanUp;
      rcv := rcv.(wnd := seg.window);
      CleanUpInFlightPackets(seg.ackNum);
      if state == FinWait1 {
        state := FinWait2;
      }
      if state == LastAck {
        state := Closed;
      }
    }

    method HandleSYNACK(seg: Segment)
      modifies this
      ensures Connection() == HandleSynAck(old(Value()), seg).0
      ensures sent == old(sent) + HandleSynAck(old(Value()), seg).1
    {
      ackNum := Add32(seg.seqNum, 1);
      rcv := rcv.(irs := seg.seqNum, nxt := Add32(seg.seqNum, 1));
      snd := snd.(una := seg.ackNum, nxt := seg.ackNum, wnd := seg.window);
      state := Established;
      snd := snd.(inFlight := []);
      SendPacket(AckSegment(Value()));
    }

    /** HandlePacket, from the dispatch on the entry's state on. */
    method HandlePacket(seg: Segment)
      requires state != Listen
      modifies this
      ensures Connection() == Handle(old(Connection()), seg).0
      ensures sent == old(sent) + Handle(old(Connection()), seg).1
    {
      hide HandleEstablished, CleanUp, HandleFin, HandleClosingAck, HandleSynAck;
      if seg.flags.rst {
        state := Closed;
        return;
      }
      match state
      case SynSent =>
        if seg.flags.syn && seg.flags.ack {
          HandleSYNACK(seg);
        }
      case SynReceived =>
        if seg.flags.ack {
          state := Established;
          seqNum := Add32(seqNum, 1);
          ackNum := Add32(seg.seqNum, 1);
          CleanUpInFlightPackets(seg.ackNum);
        }
      case Established =>
        if seg.flags.ack || |seg.payload| > 0 {
          HandleEstablishedPacket(seg);
        }
        if seg.flags.fin {
          HandleFINPacket(seg);
        }
      case FinWait1 =>
        if |seg.payload| > 0 {
          HandleEstablishedPacket(seg);
        }
        if seg.flags.ack {
          HandleClosingACK(seg);
        }
      case FinWait2 =>
        if |seg.payload| > 0 {
          HandleEstablishedPacket(seg);
        }
        if seg.flags.fin {
          HandleFINPacket(seg);
        }
        if seg.flags.ack {
          HandleClosingACK(seg);
        }
      case Closing =>
        if seg.flags.ack {
          HandleClosingACK(seg);
        }
      case TimeWait =>
        if seg.flags.fin {
          HandleFINPacket(seg);
        }
        if seg.flags.ack {
          HandleClosingACK(seg);
        }
      case LastAck =>
        if seg.flags.ack {
          HandleClosingACK(seg);
        }
      case _ =>
    }
  }
}
