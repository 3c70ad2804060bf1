/**
 The retransmission timeout, sections 2 and 5 of RFC 6298: bounds on the estimator, exponential
 back-off over runs of the two endpoints, and what the round-trip samples really are.
 */
module Rto {
  import opened Bytes
  import opened Endpoint
  import opened Tcp

  // ------------------------------------------------------------------ the estimator

  predicate Bounded(s: Snd, m: int) {
    0 <= s.srtt <= m && 0 <= s.rttvar <= m
  }

  /** A sample in [0, m] keeps both estimates in [0, m], and leaves the timeout in [1s, 4s]. */
  lemma SampleBounds(s: Snd, rtt: int, m: int)
    ensures MIN_RTO <= Sample(s, rtt).rto <= MSL
    ensures Bounded(s, m) && 0 <= rtt <= m ==> Bounded(Sample(s, rtt), m)
  {
  }

  /**
   The first sample sets the estimates to itself and half of it.  Each later one moves the smoothed
   time by an eighth of the way towards it, and the variation by a quarter of the way towards its
   distance from the smoothed time, both rounded down.
   */
  lemma SampleWeights(s: Snd, rtt: int)
    requires s.srtt >= 0 && s.rttvar >= 0 && rtt >= 0
    ensures var t := Sample(s, rtt);
            && (if s.srtt == 0 then t.srtt == rtt && 2 * t.rttvar <= rtt < 2 * t.rttvar + 2
                else && 8 * t.srtt <= 7 * s.srtt + rtt < 8 * t.srtt + 8
                     && 4 * t.rttvar <= 3 * s.rttvar + Abs(s.srtt - rtt) < 4 * t.rttvar + 4)
            && t.rto == -Min(-MIN_RTO, -Min(MSL, t.srtt + 4 * t.rttvar))
  {
  }

  function SampleTimes(s: Snd, rtt: int, k: nat): Snd
    decreases k
  {
    if k == 0 then s else SampleTimes(Sample(s, rtt), rtt, k - 1)
  }

  function Power(b: nat, k: nat): nat {
    if k == 0 then 1 else b * Power(b, k - 1)
  }

  lemma Shrinks(d: int, d0: int, k: nat, d1: int)
    requires k > 0 && 8 * d1 <= 7 * d0 && d * Power(8, k - 1) <= d1 * Power(7, k - 1)
    ensures d * Power(8, k) <= d0 * Power(7, k)
  {
    var p, q := Power(8, k - 1), Power(7, k - 1);
    assert Power(8, k) == 8 * p && Power(7, k) == 7 * q;
    hide Power;
    assert d * (8 * p) == 8 * (d * p) && d0 * (7 * q) == 7 * d0 * q;
    assert 8 * (d1 * q) == 8 * d1 * q;
    assert (7 * d0 - 8 * d1) * q >= 0;
    assert (7 * d0 - 8 * d1) * q == 7 * d0 * q - 8 * d1 * q;
  }

  /**
   A round-trip time that stays the same is approached from either side without ever being passed,
   and k samples leave at most (7/8)^k of the distance, up to the rounding.
   */
  lemma {:induction false} ConstantSamples(s: Snd, rtt: int, k: nat)
    requires s.srtt >= 0 && s.rttvar >= 0 && rtt >= 0
    ensures var t := SampleTimes(s, rtt, k);
            && (s.srtt >= rtt ==>
                  rtt <= t.srtt <= s.srtt && (t.srtt - rtt) * Power(8, k) <= (s.srtt - rtt) * Power(7, k))
            && (s.srtt <= rtt ==>
                  s.srtt <= t.srtt <= rtt && (rtt - t.srtt - 7) * Power(8, k) <= (rtt - s.srtt - 7) * Power(7, k))
    decreases k
  {
    if k > 0 {
      var s1, t := Sample(s, rtt), SampleTimes(s, rtt, k);
      SampleWeights(s, rtt);
      ConstantSamples(s1, rtt, k - 1);
      hide Sample, Power, Abs;
      assert t == SampleTimes(s1, rtt, k - 1);
      hide SampleTimes;
      if s.srtt >= rtt {
        Shrinks(t.srtt - rtt, s.srtt - rtt, k, s1.srtt - rtt);
      }
      if s.srtt <= rtt {
        Shrinks(rtt - t.srtt - 7, rtt - s.srtt - 7, k, rtt - s1.srtt - 7);
      }
    }
  }

  /** The samples that an acknowledgement takes from the in-flight list. */
  predicate SamplesInRange(l: seq<InFlight>, ack: uint32, m: int) {
    forall f :: f in l && !Kept(f, ack) ==> 0 <= MeasuredRtt(l, f.seqNum, f.timeSent) <= m
  }

  lemma {:induction false} SamplesBounds(s: Snd, l: seq<InFlight>, ack: uint32, m: int)
    requires Bounded(s, m)
    requires forall f :: f in l && !Kept(f, ack) ==> 0 <= MeasuredRtt(s.inFlight, f.seqNum, f.timeSent) <= m
    ensures Bounded(Samples(s, l, ack), m)
    decreases |l|
  {
    if l != [] {
      var rtt := MeasuredRtt(s.inFlight, l[0].seqNum, l[0].timeSent);
      SampleBounds(s, rtt, m);
      SamplesBounds(if Kept(l[0], ack) then s else Sample(s, rtt), l[1..], ack, m);
    }
  }

  /** A whole acknowledgement keeps the estimates within the largest sample it takes. */
  lemma CleanUpBounds(s: Snd, ack: uint32, m: int)
    requires Bounded(s, m) && SamplesInRange(s.inFlight, ack, m)
    ensures Bounded(CleanUp(s, ack), m)
  {
    SamplesBounds(s, s.inFlight, ack, m);
  }

  /** Packets in flight with different numbers. */
  predicate DistinctNumbers(l: seq<InFlight>) {
    forall i, j :: 0 <= i < j < |l| ==> l[i].seqNum != l[j].seqNum
  }

  /** The packet that computeRTO measures against. */
  function FirstNumbered(l: seq<InFlight>, seqNum: uint32): (k: nat)
    ensures k <= |l|
    ensures k < |l| ==> l[k].seqNum == seqNum
    ensures forall i :: 0 <= i < k ==> l[i].seqNum != seqNum
  {
    if l == [] || l[0].seqNum == seqNum then 0 else 1 + FirstNumbered(l[1..], seqNum)
  }

  /** A measurement is against the first packet of the number, or 0 without any. */
  lemma {:induction false} MeasuresFirst(l: seq<InFlight>, seqNum: uint32, received: int)
    ensures var k := FirstNumbered(l, seqNum);
            MeasuredRtt(l, seqNum, received) == if k < |l| then received - l[k].timeSent else 0
  {
    if l != [] && l[0].seqNum != seqNum {
      MeasuresFirst(l[1..], seqNum, received);
    }
  }

  /**
   computeRTO is given the time a packet was sent, not the time of its acknowledgement.  Its sample
   is 0 exactly if the first packet in flight of that number was sent at the same time.
   */
  lemma SampleIsZeroIff(l: seq<InFlight>, i: nat)
    requires i < |l|
    ensures FirstNumbered(l, l[i].seqNum) <= i
    ensures MeasuredRtt(l, l[i].seqNum, l[i].timeSent) == 0
            <==> l[FirstNumbered(l, l[i].seqNum)].timeSent == l[i].timeSent
  {
    MeasuresFirst(l, l[i].seqNum, l[i].timeSent);
  }

  lemma {:induction false} ZeroSamples(s: Snd, l: seq<InFlight>, ack: uint32)
    requires s.srtt == 0 && s.rttvar == 0
    requires forall f :: f in l ==> MeasuredRtt(s.inFlight, f.seqNum, f.timeSent) == 0
    ensures var t := Samples(s, l, ack);
            && t.srtt == 0 && t.rttvar == 0
            && t.rto == (if exists f :: f in l && !Kept(f, ack) then MIN_RTO else s.rto)
    decreases |l|
  {
    if l != [] {
      assert l[0] in l;
      ZeroSamples(if Kept(l[0], ack) then s else Sample(s, 0), l[1..], ack);
      assert forall f :: f in l <==> f == l[0] || f in l[1..];
    }
  }

  /**
   While in-flight numbers are distinct, every sample is therefore 0, and a connection that has no
   estimate yet does not get one: an acknowledgement that takes a sample sets the RTO to one second.
   */
  lemma EverySampleIsZero(s: Snd, ack: uint32)
    requires DistinctNumbers(s.inFlight) && s.srtt == 0 && s.rttvar == 0
    ensures var t := CleanUp(s, ack);
            && t.srtt == 0 && t.rttvar == 0
            && t.rto == (if exists f :: f in s.inFlight && !Kept(f, ack) then MIN_RTO else s.rto)
  {
    forall f | f in s.inFlight ensures MeasuredRtt(s.inFlight, f.seqNum, f.timeSent) == 0 {
      var i :| 0 <= i < |s.inFlight| && s.inFlight[i] == f;
      SampleIsZeroIff(s.inFlight, i);
    }
    ZeroSamples(s, s.inFlight, ack);
  }

  // ------------------------------------------------------------------ what every packet keeps

  predicate TimeoutOk(s: Snd) {
    && MIN_RTO <= s.rto <= MAX_RTO
    && s.retransmissions <= RTO_MAX_RETRIES + 1
  }

  lemma {:induction false} SamplesTimeout(s: Snd, l: seq<InFlight>, ack: uint32)
    requires MIN_RTO <= s.rto <= MAX_RTO
    ensures MIN_RTO <= Samples(s, l, ack).rto <= MAX_RTO
    decreases |l|
  {
    if l != [] {
      var rtt := MeasuredRtt(s.inFlight, l[0].seqNum, l[0].timeSent);
      SampleBounds(s, rtt, 0);
      SamplesTimeout(if Kept(l[0], ack) then s else Sample(s, rtt), l[1..], ack);
    }
  }

  /** Nothing has been measured, and the packets in flight can be told apart by their numbers. */
  predicate Unmeasured(s: Snd) {
    DistinctNumbers(s.inFlight) && s.srtt == 0 && s.rttvar == 0
  }

  predicate Numbers(l: seq<InFlight>, seqNum: uint32) {
    exists f :: f in l && f.seqNum == seqNum
  }

  lemma DistinctCons(f: InFlight, l: seq<InFlight>)
    requires DistinctNumbers(l) && !Numbers(l, f.seqNum)
    ensures DistinctNumbers([f] + l)
  {
    assert forall i :: 0 <= i < |l| ==> l[i] in l;
  }

  lemma {:induction false} KeepDistinct(l: seq<InFlight>, ack: uint32)
    requires DistinctNumbers(l)
    ensures DistinctNumbers(Keep(l, ack))
  {
    if l != [] {
      KeepDistinct(l[1..], ack);
      assert DistinctNumbers(l[1..]) && !Numbers(l[1..], l[0].seqNum);
      if Kept(l[0], ack) {
        DistinctCons(l[0], Keep(l[1..], ack));
      }
    }
  }

  lemma DistinctAppend(l: seq<InFlight>, f: InFlight)
    requires DistinctNumbers(l) && !Numbers(l, f.seqNum)
    ensures DistinctNumbers(l + [f])
  {
    assert forall i :: 0 <= i < |l| ==> l[i] in l;
  }

  lemma {:induction false} OthersDistinct(l: seq<InFlight>, n: uint32)
    requires DistinctNumbers(l)
    ensures DistinctNumbers(Others(l, n))
  {
    if l != [] {
      OthersDistinct(l[1..], n);
      assert DistinctNumbers(l[1..]) && !Numbers(l[1..], l[0].seqNum);
      if l[0].seqNum != n {
        DistinctCons(l[0], Others(l[1..], n));
      }
    }
  }

  datatype Quality = TimeoutInBounds | NothingMeasured

  predicate Holds(q: Quality, s: Snd) {
    match q
    case TimeoutInBounds => TimeoutOk(s)
    case NothingMeasured => Unmeasured(s)
  }

  /** What holds of the estimator before holds after. */
  ghost predicate Keeps(s: Snd, t: Snd) {
    forall q :: Holds(q, s) ==> Holds(q, t)
  }

  lemma CleanUpKeeps(s: Snd, ack: uint32)
    ensures Keeps(s, CleanUp(s, ack))
  {
    if TimeoutOk(s) {
      SamplesTimeout(s, s.inFlight, ack);
    }
    if Unmeasured(s) {
      EverySampleIsZero(s, ack);
      KeepDistinct(s.inFlight, ack);
    }
  }

  lemma EstablishedSnd(k: Sock, seg: Segment)
    ensures HandleEstablished(k, seg).0.snd
            == if seg.flags.ack then ProcessAck(k.snd.(wnd := seg.window), seg.ackNum) else k.snd.(wnd := seg.window)
  {
  }

  lemma EstablishedKeeps(k: Sock, seg: Segment)
    ensures Keeps(k.snd, HandleEstablished(k, seg).0.snd)
  {
    hide CleanUp, HandleData;
    EstablishedSnd(k, seg);
    var s := k.snd.(wnd := seg.window, una := seg.ackNum);
    CleanUpKeeps(s, seg.ackNum);
    assert forall q :: Holds(q, k.snd) ==> Holds(q, s) && Holds(q, CleanUp(s, seg.ackNum));
  }

  lemma ClosingKeeps(c: Conn, seg: Segment)
    ensures Keeps(c.sock.snd, FinPart(c, seg).0.sock.snd) && Keeps(c.sock.snd, AckPart(c, seg).sock.snd)
  {
    hide CleanUp;
    CleanUpKeeps(c.sock.snd, seg.ackNum);
  }

  /** Any packet, in any state. */
  lemma PacketKeeps(c: Conn, seg: Segment)
    requires c.state != Listen
    ensures Keeps(c.sock.snd, Handle(c, seg).0.sock.snd)
  {
    hide HandleEstablished, CleanUp, FinPart, AckPart, AckSegment;
    EstablishedKeeps(c.sock, seg);
    CleanUpKeeps(c.sock.snd, seg.ackNum);
    forall d: Conn ensures Keeps(d.sock.snd, FinPart(d, seg).0.sock.snd)
                   ensures Keeps(d.sock.snd, AckPart(d, seg).sock.snd) {
      ClosingKeeps(d, seg);
    }
    hide TimeoutOk, DistinctNumbers;
  }

  // ------------------------------------------------------------------ every reachable state

  lemma ActTimeout(p: Party, act: Act)
    requires TimeoutOk(p.conn.sock.snd) && CanDo(p, act)
    ensures TimeoutOk(Do(p, act).0.conn.sock.snd)
  {
    hide Handle, SendSize, FreeWindow;
    assert Holds(TimeoutInBounds, p.conn.sock.snd);
    if act.Arrive? {
      PacketKeeps(p.conn, act.seg);
      assert Holds(TimeoutInBounds, Handle(p.conn, act.seg).0.sock.snd);
    }
  }

  lemma {:induction false} ActsTimeout(p: Party, acts: seq<Act>)
    requires TimeoutOk(p.conn.sock.snd) && Acts(p, acts)
    ensures TimeoutOk(PartyAfter(p, acts).conn.sock.snd)
    decreases |acts|
  {
    if acts != [] {
      ActTimeout(p, acts[0]);
      ActsTimeout(Do(p, acts[0]).0, acts[1..]);
    }
  }

  /** The connection as VConnect or a SYN makes it. */
  predicate Opens(c: Conn, iss: uint32, syn: Segment, t: int) {
    c == Connect(iss, t).0 || c == Child(syn, iss, t).0
  }

  /**
   In every state a connection can reach, from VConnect or from the SYN that made it on and
   whatever segments arrive, the timeout is in [1s, 60s], and at most four retransmissions have
   happened since the counter was last reset.
   */
  lemma TimeoutInRange(c: Conn, iss: uint32, syn: Segment, t: int, acts: seq<Act>)
    requires Opens(c, iss, syn, t)
    requires Acts(Party(c, NoProbe), acts)
    ensures var snd := PartyAfter(Party(c, NoProbe), acts).conn.sock.snd;
            MIN_RTO <= snd.rto <= MAX_RTO && snd.retransmissions <= RTO_MAX_RETRIES + 1
  {
    ActsTimeout(Party(c, NoProbe), acts);
  }

  // ------------------------------------------------------------------ what is measured

  /** The act puts no packet in flight whose number is in flight already. */
  predicate NewNumber(p: Party, act: Act) {
    match act
    case Send(_) => !Numbers(p.conn.sock.snd.inFlight, p.conn.sock.snd.nxt)
    case UserClose(_) => !Numbers(p.conn.sock.snd.inFlight, p.conn.sock.seqNum)
    case _ => true
  }

  lemma ActUnmeasured(p: Party, act: Act)
    requires Unmeasured(p.conn.sock.snd) && CanDo(p, act) && NewNumber(p, act)
    ensures Unmeasured(Do(p, act).0.conn.sock.snd)
  {
    var s := p.conn.sock.snd;
    match act
    case Arrive(seg) =>
      hide Unmeasured, TimeoutOk, Handle;
      assert Holds(NothingMeasured, s);
      PacketKeeps(p.conn, seg);
      assert Holds(NothingMeasured, Handle(p.conn, seg).0.sock.snd);
    case Expire(now) =>
      var f := s.inFlight[FirstUnacked(s.inFlight, s.una)];
      OthersDistinct(s.inFlight, f.seqNum);
      DistinctAppend(Others(s.inFlight, f.seqNum), f.(length := 0, timeSent := now));
    case Send(now) =>
      hide FreeWindow;
      var n := SendSize(s);
      DistinctAppend(s.inFlight, InFlight(s.nxt, n, s.buf[..n], now, ACK, 0));
    case UserClose(now) =>
      DistinctAppend(s.inFlight, InFlight(p.conn.sock.seqNum, 0, [], now, FIN, 0));
    case _ =>
  }

  predicate AllNew(p: Party, acts: seq<Act>)
    decreases |acts|
  {
    acts == [] || (CanDo(p, acts[0]) && NewNumber(p, acts[0]) && AllNew(Do(p, acts[0]).0, acts[1..]))
  }

  lemma {:induction false} ActsUnmeasured(p: Party, acts: seq<Act>)
    requires Unmeasured(p.conn.sock.snd) && Acts(p, acts) && AllNew(p, acts)
    ensures Unmeasured(PartyAfter(p, acts).conn.sock.snd)
    decreases |acts|
  {
    hide Unmeasured, NewNumber, Do, CanDo;
    if acts != [] {
      ActUnmeasured(p, acts[0]);
      ActsUnmeasured(Do(p, acts[0]).0, acts[1..]);
    }
  }

  /**
   From VConnect or a SYN on, whatever arrives: as long as no packet is put in flight under a number
   that is in flight already, nothing is ever measured.  The estimates stay 0, and every
   acknowledgement that removes a packet sets the timeout to one second.
   */
  lemma NothingIsMeasured(c: Conn, iss: uint32, syn: Segment, t: int, acts: seq<Act>, ack: uint32)
    requires Opens(c, iss, syn, t) && Acts(Party(c, NoProbe), acts) && AllNew(Party(c, NoProbe), acts)
    ensures var s := PartyAfter(Party(c, NoProbe), acts).conn.sock.snd;
            && s.srtt == 0 && s.rttvar == 0
            && CleanUp(s, ack).rto == (if exists f :: f in s.inFlight && !Kept(f, ack) then MIN_RTO else s.rto)
  {
    ActsUnmeasured(Party(c, NoProbe), acts);
    EverySampleIsZero(PartyAfter(Party(c, NoProbe), acts).conn.sock.snd, ack);
  }

  // ------------------------------------------------------------------ until VClose

  /** The user has not closed the connection, and a SYN-ACK acknowledges just the SYN. */
  predicate Unclosed(p: Party, act: Act) {
    match act
    case UserClose(_) => false
    case Arrive(seg) =>
      p.conn.state == SynSent && seg.flags.syn && seg.flags.ack && !seg.flags.rst ==>
        seg.ackNum == Add32(p.conn.sock.snd.iss, 1)
    case _ => true
  }

  predicate AllUnclosed(p: Party, acts: seq<Act>)
    decreases |acts|
  {
    acts == [] || (CanDo(p, acts[0]) && Unclosed(p, acts[0]) && AllUnclosed(Do(p, acts[0]).0, acts[1..]))
  }

  /** Every number in flight is below NXT, and what may still be sent is below the wrap. */
  predicate BelowNext(p: Party) {
    var s := p.conn.sock.snd;
    && Base(s) + |s.accepted| < TWO32
    && Base(s) <= s.nxt && s.nxt + |Pending(p)| + |s.buf| <= Base(s) + |s.accepted|
    && forall f :: f in s.inFlight ==> f.seqNum < s.nxt
  }

  lemma PacketBelow(p: Party, seg: Segment)
    requires BelowNext(p) && p.conn.state != Listen && Unclosed(p, Arrive(seg))
    ensures BelowNext(p.(conn := Handle(p.conn, seg).0))
  {
    hide HandleData;
    HandleEstablishedFrame(p.conn.sock, seg);
    var s, t := p.conn.sock.snd, Handle(p.conn, seg).0.sock.snd;
    assert t.buf == s.buf && t.accepted == s.accepted && t.iss == s.iss;
  }

  lemma ActBelow(p: Party, act: Act)
    requires BelowNext(p) && CanDo(p, act) && Unclosed(p, act)
    ensures NewNumber(p, act) && BelowNext(Do(p, act).0)
  {
    match act
    case Arrive(seg) =>
      hide BelowNext, Handle;
      PacketBelow(p, seg);
    case Expire(_) =>
      var s := p.conn.sock.snd;
      assert s.inFlight[FirstUnacked(s.inFlight, s.una)] in s.inFlight;
    case _ => hide FreeWindow;
  }

  lemma {:induction false} UnclosedIsNew(p: Party, acts: seq<Act>)
    requires BelowNext(p) && Acts(p, acts) && AllUnclosed(p, acts)
    ensures AllNew(p, acts)
    decreases |acts|
  {
    hide BelowNext, NewNumber, Do, CanDo, Unclosed;
    if acts != [] {
      ActBelow(p, acts[0]);
      UnclosedIsNew(Do(p, acts[0]).0, acts[1..]);
    }
  }

  /** Until VClose, every packet has a number of its own, so that nothing is measured. */
  lemma NothingIsMeasuredBeforeClose(c: Conn, iss: uint32, syn: Segment, t: int, acts: seq<Act>)
    requires Opens(c, iss, syn, t) && iss + 1 < TWO32
    requires Acts(Party(c, NoProbe), acts) && AllUnclosed(Party(c, NoProbe), acts)
    ensures var s := PartyAfter(Party(c, NoProbe), acts).conn.sock.snd;
            DistinctNumbers(s.inFlight) && s.srtt == 0 && s.rttvar == 0
  {
    UnclosedIsNew(Party(c, NoProbe), acts);
    ActsUnmeasured(Party(c, NoProbe), acts);
  }

  function Twice(): seq<Act> {
    [Arrive(Segment(51, 101, ACK, BUFFER_SIZE, [])), Write([1, 2, 3, 4, 5]), Send(0),
     UserClose(2 * SECOND), Arrive(Segment(51, 106, ACK, BUFFER_SIZE, []))]
  }

  function Passive(): Party {
    Party(Child(Segment(50, 0, SYN, BUFFER_SIZE, []), 100, 0).0, NoProbe)
  }

  function FirstData(): InFlight {
    InFlight(101, 5, [1, 2, 3, 4, 5], 0, ACK, 0)
  }

  lemma OnlyOneAcked(s: Snd, f: InFlight, ack: uint32)
    requires s.inFlight == [f] && !Kept(f, ack)
    ensures CleanUp(s, ack) == Sample(s, 0).(inFlight := [])
  {
    assert [f][1..] == [];
    assert Keep([f], ack) == [];
    assert MeasuredRtt(s.inFlight, f.seqNum, f.timeSent) == 0;
    assert Samples(Sample(s, 0), [], ack) == Sample(s, 0);
  }

  /** The handshake ends, and five bytes are sent. */
  lemma FiveBytesSent() returns (p1: Party, p2: Party, p3: Party)
    ensures CanDo(Passive(), Twice()[0]) && p1 == Do(Passive(), Twice()[0]).0
    ensures CanDo(p1, Twice()[1]) && p2 == Do(p1, Twice()[1]).0
    ensures CanDo(p2, Twice()[2]) && p3 == Do(p2, Twice()[2]).0
    ensures p3.conn.state == Established && p3.conn.sock.seqNum == 101
    ensures p3.conn.sock.snd.inFlight == [FirstData()] && p3.conn.sock.snd.srtt == p3.conn.sock.snd.rttvar == 0
  {
    OnlyOneAcked(Passive().conn.sock.snd, InFlight(100, 0, [], 0, SYN_ACK, BUFFER_SIZE), 101);
    p1 := Do(Passive(), Twice()[0]).0;
    p2 := Do(p1, Twice()[1]).0;
    assert p2.conn.sock.snd.buf == [1, 2, 3, 4, 5] && p2.conn.sock.snd.buf[..5] == [1, 2, 3, 4, 5];
    p3 := Do(p2, Twice()[2]).0;
  }

  lemma TwoAcked(s: Snd, f: InFlight, g: InFlight, ack: uint32)
    requires s.inFlight == [f, g] && !Kept(f, ack) && !Kept(g, ack) && g.seqNum == f.seqNum
    ensures CleanUp(s, ack) == Sample(Sample(s, 0), g.timeSent - f.timeSent).(inFlight := [])
  {
    var l := [f, g];
    assert l[1..] == [g] && [g][1..] == [];
    var s1 := Sample(s, 0);
    var s2 := Sample(s1, g.timeSent - f.timeSent);
    assert Samples(s2, [], ack) == s2;
    assert Samples(s1, [g], ack) == s2;
    assert Keep([g], ack) == [];
  }

  lemma FinAcked(p3: Party) returns (p4: Party, p5: Party)
    requires p3.conn.state == Established && p3.conn.sock.seqNum == 101
    requires p3.conn.sock.snd.inFlight == [FirstData()] && p3.conn.sock.snd.srtt == p3.conn.sock.snd.rttvar == 0
    ensures CanDo(p3, Twice()[3]) && !NewNumber(p3, Twice()[3]) && p4 == Do(p3, Twice()[3]).0
    ensures CanDo(p4, Twice()[4]) && p5 == Do(p4, Twice()[4]).0
    ensures p5.conn.sock.snd.srtt == 2 * SECOND && p5.conn.sock.snd.rto == MSL
  {
    assert FirstData() in p3.conn.sock.snd.inFlight;
    p4 := Do(p3, Twice()[3]).0;
    var fin := InFlight(101, 0, [], 2 * SECOND, FIN, 0);
    assert p4.conn.sock.snd.inFlight == [FirstData(), fin];
    TwoAcked(p4.conn.sock.snd, FirstData(), fin, 106);
    p5 := Do(p4, Twice()[4]).0;
  }

  lemma OneMoreAct(p: Party, act: Act, acts: seq<Act>)
    requires CanDo(p, act) && Acts(Do(p, act).0, acts)
    ensures Acts(p, [act] + acts) && PartyAfter(p, [act] + acts) == PartyAfter(Do(p, act).0, acts)
    ensures AllNew(p, [act] + acts) <==> NewNumber(p, act) && AllNew(Do(p, act).0, acts)
  {
    assert ([act] + acts)[1..] == acts;
  }

  /**
   VClose on the passive side may number its FIN like the first data segment.  If that is still in
   flight, the time between the two is taken for the round-trip time: here, two seconds.
   */
  lemma FinIsMeasured()
    ensures Acts(Passive(), Twice()) && !AllNew(Passive(), Twice())
    ensures var s := PartyAfter(Passive(), Twice()).conn.sock.snd;
            s.srtt == 2 * SECOND && s.rto == MSL
  {
    var p1, p2, p3 := FiveBytesSent();
    var p4, p5 := FinAcked(p3);
    var acts := Twice();
    hide CanDo, Do, NewNumber, Passive;
    OneMoreAct(p4, acts[4], []);
    OneMoreAct(p3, acts[3], [acts[4]]);
    OneMoreAct(p2, acts[2], acts[3..]);
    OneMoreAct(p1, acts[1], acts[2..]);
    OneMoreAct(Passive(), acts[0], acts[1..]);
    assert [acts[3]] + [acts[4]] == acts[3..] && [acts[2]] + acts[3..] == acts[2..];
    assert [acts[1]] + acts[2..] == acts[1..] && [acts[0]] + acts[1..] == acts && [acts[4]] + [] == [acts[4]];
  }

  // ------------------------------------------------------------------ back-off

  /** The segment makes cleanUpInFlightPackets run without a look at UNA. */
  predicate Cleans(state: TcpState, seg: Segment) {
    || (seg.flags.ack && state in {SynReceived, FinWait1, FinWait2, Closing, TimeWait, LastAck})
    || (seg.flags.fin && state in {Established, FinWait2, TimeWait})
  }

  /** A cumulative acknowledgement that the established connection has not had yet. */
  predicate IsNews(c: Conn, seg: Segment) {
    && !seg.flags.rst && seg.flags.ack
    && (c.state == Established || (c.state in {FinWait1, FinWait2} && |seg.payload| > 0))
    && c.sock.snd.inFlight != [] && seg.ackNum > c.sock.snd.una
  }

  /**
   The in-flight list after a segment without data: in the closing states, at the end of the handshake
   and on a FIN, whatever ends at or below the acknowledgement is gone, without a look at UNA.
   */
  lemma CleansUp(c: Conn, seg: Segment)
    requires !seg.flags.rst && seg.payload == [] && Cleans(c.state, seg)
    requires c.state == Established ==> !seg.flags.ack
    ensures var d := Handle(c, seg).0;
            && (forall f :: f in d.sock.snd.inFlight <==>
                  f in c.sock.snd.inFlight && Add32(f.seqNum, f.length) > seg.ackNum)
            && d.sock.snd.una == c.sock.snd.una && d.sock.snd.nxt == c.sock.snd.nxt
            && (c.state != SynReceived ==> d.sock.rcv.wnd == seg.window)
  {
    hide Keep, Samples;
  }

  /**
   An acknowledgement that is news, with or without data, moves UNA to its number, keeps in flight
   exactly what ends above it and resets the counter; the window is that of the segment.
   */
  lemma NewsMovesUna(c: Conn, seg: Segment)
    requires c.state != Listen && IsNews(c, seg) && !seg.flags.fin
    ensures var snd := Handle(c, seg).0.sock.snd;
            && snd.una == seg.ackNum && snd.retransmissions == 0 && snd.wnd == seg.window
            && snd.nxt == c.sock.snd.nxt
            && forall f :: f in snd.inFlight <==>
                 f in c.sock.snd.inFlight && Add32(f.seqNum, f.length) > seg.ackNum
  {
    hide HandleData, Keep, Samples;
    EstablishedSnd(c.sock, seg);
  }

  /** The act acknowledges no packet in flight. */
  predicate AcksNothing(p: Party, act: Act) {
    act.Arrive? ==>
      && !IsNews(p.conn, act.seg)
      && (Cleans(p.conn.state, act.seg) ==> forall f :: f in p.conn.sock.snd.inFlight ==> Kept(f, act.seg.ackNum))
  }

  predicate Unacked(p: Party, acts: seq<Act>)
    decreases |acts|
  {
    acts == [] || (CanDo(p, acts[0]) && AcksNothing(p, acts[0]) && Unacked(Do(p, acts[0]).0, acts[1..]))
  }

  /** How often the endpoint retransmits in the run. */
  function Expiries(acts: seq<Act>): nat {
    if acts == [] then 0 else (if acts[0].Expire? then 1 else 0) + Expiries(acts[1..])
  }

  function Timeout(p: Party): int {
    p.conn.sock.snd.rto
  }

  function Retries(p: Party): nat {
    p.conn.sock.snd.retransmissions
  }

  lemma {:induction false} AllKept(s: Snd, l: seq<InFlight>, ack: uint32)
    requires forall f :: f in l ==> Kept(f, ack)
    ensures Samples(s, l, ack) == s && Keep(l, ack) == l
    decreases |l|
  {
    if l != [] {
      AllKept(s, l[1..], ack);
    }
  }

  /** What a packet does to the counter: only news resets it. */
  lemma PacketRetries(c: Conn, seg: Segment)
    requires c.state != Listen
    ensures Handle(c, seg).0.sock.snd.retransmissions
            == if IsNews(c, seg) then 0 else c.sock.snd.retransmissions
  {
    hide HandleData, CleanUp;
    EstablishedSnd(c.sock, seg);
  }

  lemma PacketUnacked(c: Conn, seg: Segment)
    requires c.state != Listen && AcksNothing(Party(c, NoProbe), Arrive(seg))
    ensures Handle(c, seg).0.sock.snd.rto == c.sock.snd.rto
  {
    hide HandleData;
    EstablishedSnd(c.sock, seg);
    var s := c.sock.snd;
    if Cleans(c.state, seg) {
      AllKept(s, s.inFlight, seg.ackNum);
      AllKept(s.(wnd := seg.window), s.inFlight, seg.ackNum);
    }
    hide Keep, Samples, Kept;
  }

  /** Without a new acknowledgement, only an expiry touches the timeout and the retry counter. */
  lemma UnackedStep(p: Party, act: Act)
    requires CanDo(p, act) && AcksNothing(p, act)
    ensures var p' := Do(p, act).0;
            if act.Expire?
            then Timeout(p') == DoubleRto(Timeout(p)) && Retries(p') == Retries(p) + 1 <= RTO_MAX_RETRIES + 1
            else Timeout(p') == Timeout(p) && Retries(p') == Retries(p)
  {
    if act.Arrive? {
      PacketUnacked(p.conn, act.seg);
      PacketRetries(p.conn, act.seg);
    }
    hide SendSize, FreeWindow, Handle, AcksNothing;
  }

  lemma DoubledAgain(r: nat, k: nat)
    requires MIN_RTO <= r <= MAX_RTO
    ensures MIN_RTO <= DoubleRto(r) <= MAX_RTO
    ensures Min(MAX_RTO, DoubleRto(r) * Pow2(k)) == Min(MAX_RTO, r * Pow2(k + 1))
  {
    assert r * Pow2(k + 1) == 2 * r * Pow2(k);
    if 2 * r > MAX_RTO {
      assert MAX_RTO * Pow2(k) >= MAX_RTO;
      assert (2 * r) * Pow2(k) >= MAX_RTO;
    }
  }

  lemma NotDoubled(r: int)
    ensures MIN_RTO <= r <= MAX_RTO ==> Min(MAX_RTO, r * Pow2(0)) == r
  {
  }

  /**
   k retransmissions in a row, whatever else happens in between short of a new acknowledgement,
   multiply the timeout by 2^k up to sixty seconds; and at most four fit before the counter is reset.
   */
  lemma {:induction false} BackOff(p: Party, acts: seq<Act>)
    requires Acts(p, acts) && Unacked(p, acts)
    requires MIN_RTO <= Timeout(p) <= MAX_RTO && Retries(p) <= RTO_MAX_RETRIES + 1
    ensures var k := Expiries(acts);
            && Timeout(PartyAfter(p, acts)) == Min(MAX_RTO, Timeout(p) * Pow2(k))
            && Retries(PartyAfter(p, acts)) == Retries(p) + k <= RTO_MAX_RETRIES + 1
    decreases |acts|
  {
    NotDoubled(Timeout(p));
    hide Do, CanDo, AcksNothing, Timeout, Retries, Pow2, Min, DoubleRto;
    if acts != [] {
      UnackedStep(p, acts[0]);
      DoubledAgain(Timeout(p), Expiries(acts[1..]));
      BackOff(Do(p, acts[0]).0, acts[1..]);
    }
  }

  lemma {:induction false} Pow2Grows(j: nat, k: nat)
    ensures j <= k ==> Pow2(j) <= Pow2(k)
    decreases k
  {
    if j < k {
      Pow2Grows(j, k - 1);
    }
  }

  /** A SYN or a SYN-ACK that is not acknowledged is sent again after 1, 2, 4 and 8 seconds, and then no more. */
  lemma OpeningBacksOff(c: Conn, iss: uint32, syn: Segment, t: int, acts: seq<Act>)
    requires Opens(c, iss, syn, t) && Acts(Party(c, NoProbe), acts) && Unacked(Party(c, NoProbe), acts)
    ensures Expiries(acts) <= 4
    ensures Timeout(PartyAfter(Party(c, NoProbe), acts)) == SECOND * Pow2(Expiries(acts))
  {
    BackOff(Party(c, NoProbe), acts);
    Pow2Grows(Expiries(acts), 4);
    assert Pow2(4) == 16;
    hide Acts, PartyAfter, Unacked, Expiries, Pow2;
  }

  /** How many of the retransmissions come after the last news, `n` being counted already. */
  function SinceNews(p: Party, acts: seq<Act>, n: nat): nat
    requires Acts(p, acts)
    decreases |acts|
  {
    if acts == [] then n
    else
      SinceNews(Do(p, acts[0]).0, acts[1..],
                if acts[0].Expire? then n + 1 else if acts[0].Arrive? && IsNews(p.conn, acts[0].seg) then 0 else n)
  }

  /** Over any run the counter says how often a packet was sent again since the last news. */
  lemma {:induction false} CounterCounts(p: Party, acts: seq<Act>)
    requires Acts(p, acts)
    ensures Retries(PartyAfter(p, acts)) == SinceNews(p, acts, Retries(p))
    decreases |acts|
  {
    if acts != [] {
      if acts[0].Arrive? {
        PacketRetries(p.conn, acts[0].seg);
      }
      CounterCounts(Do(p, acts[0]).0, acts[1..]);
      hide SendSize, FreeWindow, Handle, IsNews;
    }
  }
}
