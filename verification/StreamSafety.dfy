/**
 Two endpoints exchanging data both ways over a network that may lose, duplicate and reorder
 segments, from the end of the handshake, one of them perhaps still waiting for its last ACK, to
 the close of both.  A segment once sent stays in the network for ever: losing it is never delivering
 it, duplicating it is delivering it again.
 */
module StreamSafety {
  import opened Bytes
  import opened Tcp
  import opened Endpoint
  import opened Reassembly
  import opened TwoSides

  type State = Pair<Party>

  datatype Step = Step(side: Side, act: Act)

  predicate CanStep(s: State, step: Step) {
    && CanDo(Local(s, step.side), step.act)
    && (step.act.Arrive? ==> step.act.seg in Inbox(s, step.side))
  }

  function TakeStep(s: State, step: Step): State
    requires CanStep(s, step)
  {
    var (p, out) := Do(Local(s, step.side), step.act);
    Update(s, step.side, p, out)
  }

  // ------------------------------------------------------------------ invariant

  /** The exchange of SYNs is over. */
  predicate Synchronized(state: TcpState) {
    state != Listen && state != SynSent
  }

  /** The peer's FIN has not been taken yet. */
  predicate Open(state: TcpState) {
    state in {SynReceived, Established, FinWait1, FinWait2}
  }

  predicate Honest(snd: Snd, flags: Flags, seqNum: nat, data: seq<byte>) {
    && !flags.rst
    && (data == [] || Carries(snd.accepted, Base(snd), seqNum, data))
  }

  /** The bytes from NXT on are those not yet sent; everything numbered carries what was written. */
  ghost predicate Sender(p: Party, net: set<Segment>) {
    var snd := p.conn.sock.snd;
    && Synchronized(p.conn.state)
    && Base(snd) + |snd.accepted| < TWO32
    && Base(snd) <= snd.nxt <= Base(snd) + |snd.accepted|
    && snd.accepted[snd.nxt - Base(snd)..] == Pending(p) + snd.buf
    && (forall g :: g in net ==> Honest(snd, g.flags, g.seqNum, g.payload))
    && (forall f :: f in snd.inFlight ==> Honest(snd, f.flags, f.seqNum, f.data))
  }

  /** What has been delivered is the beginning of what the peer has written; no more comes after its FIN. */
  predicate Follows(c: Conn, snd: Snd) {
    && (Open(c.state) ==> Faithful(c.sock.rcv, snd.accepted, Base(snd)))
    && c.sock.rcv.Log() <= snd.accepted
  }

  predicate Receiver(q: Party, p: Party) {
    Follows(q.conn, p.conn.sock.snd)
  }

  ghost predicate SideIsSafe(s: State, side: Side) {
    Sender(Local(s, side), Inbox(s, Other(side))) && Receiver(Local(s, side), Local(s, Other(side)))
  }

  ghost predicate Safe(s: State) {
    forall side :: SideIsSafe(s, side)
  }

  predicate Bare(flags: Flags, data: seq<byte>) {
    data == [] && !flags.fin && !flags.rst
  }

  ghost predicate Fresh(s: State, side: Side) {
    var p, q := Local(s, side), Local(s, Other(side));
    var snd, rcv := p.conn.sock.snd, p.conn.sock.rcv;
    && (p.conn.state == Established || p.conn.state == SynReceived)
    && p.probe == NoProbe && snd.buf == [] && snd.accepted == [] && snd.una <= snd.nxt == Base(snd) < TWO32
    && rcv.nxt == Base(q.conn.sock.snd) && rcv.buf == [] && rcv.taken == [] && rcv.early == []
    && (forall g :: g in Inbox(s, Other(side)) ==>
          Bare(g.flags, g.payload) && (g.flags.ack ==> g.ackNum <= rcv.nxt))
    && (forall f :: f in snd.inFlight ==> Bare(f.flags, f.data))
  }

  /** Both sides past the exchange of SYNs, nothing written or read yet, and no FIN or RST about. */
  ghost predicate Start(s: State) {
    forall side :: Fresh(s, side)
  }

  // ------------------------------------------------------------------ each operation

  /** The parts of a socket that say what its stream is, and what only loses members. */
  predicate SameStream(s: Snd, t: Snd) {
    && t.buf == s.buf && t.accepted == s.accepted && t.iss == s.iss && t.nxt == s.nxt
    && forall f :: f in t.inFlight ==> f in s.inFlight
  }

  /** What is handed down from one state of a connection to the next, and what its replies are like. */
  ghost predicate Inherits(c: Conn, d: Conn, out: seq<Segment>) {
    && (Synchronized(c.state) ==> Synchronized(d.state))
    && SameStream(c.sock.snd, d.sock.snd)
    && forall g :: g in out ==> Bare(g.flags, g.payload)
  }

  lemma PayloadFollows(c: Conn, seg: Segment, relevant: bool, snd: Snd)
    requires Open(c.state) && Follows(c, snd) && Honest(snd, seg.flags, seg.seqNum, seg.payload)
    ensures var (d, out) := HandlePayload(c, seg, relevant);
            d.state == c.state && Follows(d, snd) && Inherits(c, d, out)
  {
    hide Carries, Drain, CleanUp;
    HandleEstablishedFrame(c.sock, seg);
    if |seg.payload| > 0 {
      HandleDataFaithful(c.sock.(snd := c.sock.snd.(wnd := seg.window)), seg, snd.accepted, Base(snd));
    }
  }

  /** After the peer's FIN the receiver is done. */
  lemma FinFollows(c: Conn, seg: Segment, snd: Snd)
    requires c.state in {Established, FinWait2, TimeWait} && Follows(c, snd)
    ensures var (d, out) := FinPart(c, seg); Follows(d, snd) && Inherits(c, d, out)
  {
    hide Carries, CleanUp;
  }

  lemma AckFollows(c: Conn, seg: Segment, snd: Snd)
    requires Follows(c, snd)
    ensures Follows(AckPart(c, seg), snd) && Inherits(c, AckPart(c, seg), [])
  {
    hide Carries, CleanUp;
  }

  lemma InheritsTwice(c: Conn, d: Conn, out: seq<Segment>, e: Conn, more: seq<Segment>)
    requires Inherits(c, d, out) && Inherits(d, e, more)
    ensures Inherits(c, e, out) && Inherits(c, e, out + more)
  {
  }

  lemma HandshakeFollows(c: Conn, seg: Segment, snd: Snd)
    requires c.state == SynReceived && Follows(c, snd) && !seg.flags.rst
    ensures var (d, out) := Handle(c, seg); Follows(d, snd) && Inherits(c, d, out)
  {
    hide Faithful, CleanUp;
  }

  lemma ArriveFollows(c: Conn, seg: Segment, snd: Snd)
    requires Synchronized(c.state) && Follows(c, snd) && Honest(snd, seg.flags, seg.seqNum, seg.payload)
    ensures var (d, out) := Handle(c, seg); Follows(d, snd) && Inherits(c, d, out)
  {
    assert Inherits(c, c, []);
    hide Follows, SameStream, FinPart, AckPart, HandlePayload, HandleAck;
    var (c1, out1) := HandlePayload(c, seg, (c.state == Established && seg.flags.ack) || |seg.payload| > 0);
    var (c2, out2) := FinPart(c1, seg);
    if c.state == SynReceived {
      HandshakeFollows(c, seg, snd);
    } else if Open(c.state) {
      PayloadFollows(c, seg, (c.state == Established && seg.flags.ack) || |seg.payload| > 0, snd);
      AckFollows(c1, seg, snd);
      InheritsTwice(c, c1, out1, AckPart(c1, seg), []);
      if c.state != FinWait1 {
        FinFollows(c1, seg, snd);
        InheritsTwice(c, c1, out1, c2, out2);
        AckFollows(c2, seg, snd);
        InheritsTwice(c, c2, out1 + out2, AckPart(c2, seg), []);
      }
    } else if c.state == TimeWait {
      FinFollows(c, seg, snd);
      var (d, out) := FinPart(c, seg);
      AckFollows(d, seg, snd);
      InheritsTwice(c, d, out, AckPart(d, seg), []);
    } else {
      AckFollows(c, seg, snd);
    }
  }

  lemma SameSender(p: Party, p': Party, out: set<Segment>, more: set<Segment>)
    requires Sender(p, out) && SameStream(p.conn.sock.snd, p'.conn.sock.snd) && p'.probe == p.probe
    requires Synchronized(p'.conn.state) && forall g :: g in more ==> g.payload == [] && !g.flags.rst
    ensures Sender(p', out + more)
  {
    hide Carries;
  }

  /** An arrival keeps the receiver on the peer's stream and leaves the sender's stream alone. */
  lemma ArriveKeeps(p: Party, q: Party, out: set<Segment>, seg: Segment)
    requires Sender(p, out) && Receiver(p, q)
    requires Honest(q.conn.sock.snd, seg.flags, seg.seqNum, seg.payload)
    ensures var (c, more) := Handle(p.conn, seg);
            Sender(p.(conn := c), out + Sent(more)) && Receiver(p.(conn := c), q)
  {
    var (c, more) := Handle(p.conn, seg);
    ArriveFollows(p.conn, seg, q.conn.sock.snd);
    hide Handle, Faithful;
    SameSender(p, p.(conn := c), out, Sent(more));
  }

  /** Numbering the next `n` bytes of the buffer. */
  lemma AdvanceKeeps(snd: Snd, n: nat)
    requires n <= |snd.buf| && Base(snd) <= snd.nxt <= Base(snd) + |snd.accepted| < TWO32
    requires snd.accepted[snd.nxt - Base(snd)..] == snd.buf
    ensures Carries(snd.accepted, Base(snd), snd.nxt, snd.buf[..n])
    ensures snd.nxt + n <= Base(snd) + |snd.accepted|
    ensures snd.accepted[snd.nxt + n - Base(snd)..] == snd.buf[n..]
  {
    var off := snd.nxt - Base(snd);
    assert snd.accepted[off..off + n] == snd.accepted[off..][..n];
    assert snd.accepted[off + n..] == snd.accepted[off..][n..];
  }

  lemma SendKeeps(p: Party, out: set<Segment>, now: int)
    requires Sender(p, out) && p.probe.NoProbe? && SendSize(p.conn.sock.snd) > 0
    ensures var (k, more) := SendOnce(p.conn.sock, now);
            Sender(p.(conn := p.conn.(sock := k)), out + Sent(more))
  {
    hide Carries, FreeWindow;
    var snd := p.conn.sock.snd;
    AdvanceKeeps(snd, SendSize(snd));
  }

  /** Writing more does not change what is already numbered. */
  lemma HonestGrows(snd: Snd, snd': Snd, more: seq<byte>, flags: Flags, seqNum: nat, data: seq<byte>)
    requires Honest(snd, flags, seqNum, data)
    requires snd'.accepted == snd.accepted + more && snd'.iss == snd.iss
    ensures Honest(snd', flags, seqNum, data)
  {
    if data != [] {
      CarriesGrows(snd.accepted, more, Base(snd), seqNum, data);
    }
  }

  lemma WriteKeepsSender(p: Party, out: set<Segment>, data: seq<byte>)
    requires Sender(p, out)
    requires Base(p.conn.sock.snd) + |p.conn.sock.snd.accepted| + |data| < TWO32
    ensures Sender(WithSnd(p, Accept(p.conn.sock.snd, data), p.probe), out)
  {
    hide Honest;
    var snd := p.conn.sock.snd;
    var snd' := Accept(snd, data);
    var more := data[..Min(Free(snd.buf), |data|)];
    var off := snd.nxt - Base(snd);
    assert (snd.accepted + more)[off..] == snd.accepted[off..] + more;
    forall g | g in out ensures Honest(snd', g.flags, g.seqNum, g.payload) {
      HonestGrows(snd, snd', more, g.flags, g.seqNum, g.payload);
    }
    forall f | f in snd.inFlight ensures Honest(snd', f.flags, f.seqNum, f.data) {
      HonestGrows(snd, snd', more, f.flags, f.seqNum, f.data);
    }
  }

  lemma WriteKeepsPeer(p: Party, q: Party, data: seq<byte>)
    requires Receiver(q, p)
    requires Base(p.conn.sock.snd) + |p.conn.sock.snd.accepted| + |data| < TWO32
    ensures Receiver(q, WithSnd(p, Accept(p.conn.sock.snd, data), p.probe))
  {
    var snd := p.conn.sock.snd;
    if Open(q.conn.state) {
      FaithfulGrows(q.conn.sock.rcv, snd.accepted, data[..Min(Free(snd.buf), |data|)], Base(snd));
    }
  }

  lemma ProbeStartKeeps(p: Party, out: set<Segment>)
    requires Sender(p, out) && p.probe.NoProbe? && |p.conn.sock.snd.buf| > 0
    ensures var snd := p.conn.sock.snd;
            Sender(WithSnd(p, snd.(buf := snd.buf[1..]), Probing(snd.buf[0], 0)), out)
  {
    var buf := p.conn.sock.snd.buf;
    assert [buf[0]] + buf[1..] == buf;
  }

  lemma ProbeSendKeeps(p: Party, out: set<Segment>)
    requires Sender(p, out) && p.probe.Probing?
    ensures Sender(p.(probe := Probing(p.probe.b, p.probe.retries + 1)), out + {DataSegment(p.conn.sock, [p.probe.b])})
  {
    var snd := p.conn.sock.snd;
    var off := snd.nxt - Base(snd);
    assert snd.accepted[off..off + 1] == snd.accepted[off..][..1];
  }

  /**
   The end of a probe keeps the numbering exactly when fewer than thirty probes were sent; after
   thirty, the byte is neither in the buffer nor below NXT.
   */
  lemma ProbeFinishKeepsIff(p: Party, out: set<Segment>)
    requires Sender(p, out) && p.probe.Probing?
    ensures Sender(FinishProbe(p), out) <==> p.probe.retries < ZWP_RETRIES
  {
    hide Carries;
    var snd := p.conn.sock.snd;
    var off := snd.nxt - Base(snd);
    assert snd.accepted[off..] == [p.probe.b] + snd.buf;
    assert snd.accepted[off + 1..] == snd.accepted[off..][1..];
  }

  /**
   What a given-up probe does: if the byte after the probed one differs from it, the next data
   segment carries bytes that were not written at its number.
   */
  lemma GivenUpProbeMisnumbers(p: Party, out: set<Segment>, window: uint16, now: int)
    requires Sender(p, out) && p.probe.Probing? && p.probe.retries >= ZWP_RETRIES
    requires |p.conn.sock.snd.buf| > 0 && p.conn.sock.snd.buf[0] != p.probe.b
    requires SendSize(p.conn.sock.snd.(wnd := window)) > 0
    ensures var k := FinishProbe(p).conn.sock;
            var g := SendOnce(k.(snd := k.snd.(wnd := window)), now).1[0];
            !Carries(k.snd.accepted, Base(k.snd), g.seqNum, g.payload)
  {
    var snd := p.conn.sock.snd;
    var off := snd.nxt - Base(snd);
    assert snd.accepted[off] == snd.accepted[off..][0] == p.probe.b;
    assert snd.buf[..SendSize(snd.(wnd := window))][0] != snd.accepted[off];
  }

  lemma ExpireKeeps(p: Party, out: set<Segment>, now: int)
    requires Sender(p, out) && CanRetransmit(p.conn.sock.snd)
    ensures var (k, more) := Retransmit(p.conn.sock, now);
            Sender(p.(conn := p.conn.(sock := k)), out + Sent(more))
  {
    var snd := p.conn.sock.snd;
    var f := snd.inFlight[FirstUnacked(snd.inFlight, snd.una)];
    assert f in snd.inFlight;
  }

  /** VClose puts a FIN without data in flight, and the stream stays as it is. */
  lemma CloseKeeps(p: Party, out: set<Segment>, now: int)
    requires Sender(p, out) && CanClose(p.conn)
    ensures var (c, more) := Close(p.conn, now);
            Sender(p.(conn := c), out + Sent(more))
  {
    hide Carries;
  }

  // ------------------------------------------------------------------ every run

  /** The step is not the failure of a probe. */
  predicate ProbeHolds(s: State, step: Step) {
    step.act.ProbeFinish? ==> var p := Local(s, step.side); p.probe.Probing? && p.probe.retries < ZWP_RETRIES
  }

  /** Whatever a side does, its own stream stays well numbered and its peer stays on it. */
  lemma DoKeepsSender(p: Party, q: Party, out: set<Segment>, act: Act)
    requires Sender(p, out) && Receiver(p, q) && Receiver(q, p) && CanDo(p, act)
    requires act.Arrive? ==> Honest(q.conn.sock.snd, act.seg.flags, act.seg.seqNum, act.seg.payload)
    requires act.ProbeFinish? ==> p.probe.retries < ZWP_RETRIES
    ensures Sender(Do(p, act).0, out + Do(p, act).1)
  {
    if act.ReadSome? || act.TimeWaitEnds? {
      assert out + {} == out;
    } else {
      hide Sender, Handle, SendOnce, Retransmit, Accept, Close, Honest, Follows, SendSize, FinishProbe;
      match act
      case Write(data) => WriteKeepsSender(p, out, data); assert out + {} == out;
      case Send(now) => SendKeeps(p, out, now);
      case ProbeStart => ProbeStartKeeps(p, out); assert out + {} == out;
      case ProbeSend => ProbeSendKeeps(p, out);
      case ProbeFinish => ProbeFinishKeepsIff(p, out); assert out + {} == out;
      case Expire(now) => ExpireKeeps(p, out, now);
      case UserClose(now) => CloseKeeps(p, out, now);
      case Arrive(seg) => ArriveKeeps(p, q, out, seg);
    }
  }

  lemma DoKeepsReceivers(p: Party, q: Party, out: set<Segment>, act: Act)
    requires Sender(p, out) && Receiver(p, q) && Receiver(q, p) && CanDo(p, act)
    requires act.Arrive? ==> Honest(q.conn.sock.snd, act.seg.flags, act.seg.seqNum, act.seg.payload)
    ensures Receiver(Do(p, act).0, q) && Receiver(q, Do(p, act).0)
  {
    hide Handle, Carries;
    match act
    case Write(data) => WriteKeepsPeer(p, q, data);
    case Arrive(seg) => ArriveFollows(p.conn, seg, q.conn.sock.snd);
    case ReadSome(n) =>
      var r := p.conn.sock.rcv;
      assert r.buf[..Min(n, |r.buf|)] + r.buf[Min(n, |r.buf|)..] == r.buf;
      assert Read(r, n).Log() == r.Log();
    case _ =>
  }

  /** A step keeps the streams safe exactly if it is not the end of a probe that has given up. */
  lemma StepKeepsSafeIff(s: State, step: Step)
    requires Safe(s) && CanStep(s, step)
    ensures Safe(TakeStep(s, step)) <==> ProbeHolds(s, step)
  {
    var here, there := step.side, Other(step.side);
    var p, q, out := Local(s, here), Local(s, there), Inbox(s, there);
    var t := TakeStep(s, step);
    assert Other(there) == here;
    assert SideIsSafe(s, here) && SideIsSafe(s, there);
    if !ProbeHolds(s, step) {
      ProbeFinishKeepsIff(p, out);
      assert !SideIsSafe(t, here);
    } else {
      DoKeepsSender(p, q, out, step.act);
      DoKeepsReceivers(p, q, out, step.act);
      hide Do, CanDo, Sender, Receiver;
      assert SideIsSafe(t, here) && SideIsSafe(t, there);
    }
  }

  /** A run of the two endpoints, step by step. */
  predicate Run(s: State, steps: seq<Step>)
    decreases |steps|
  {
    steps == [] || (CanStep(s, steps[0]) && Run(TakeStep(s, steps[0]), steps[1..]))
  }

  function After(s: State, steps: seq<Step>): State
    requires Run(s, steps)
    decreases |steps|
  {
    if steps == [] then s else After(TakeStep(s, steps[0]), steps[1..])
  }

  lemma {:induction false} RunExtends(s: State, steps: seq<Step>, step: Step)
    requires Run(s, steps) && CanStep(After(s, steps), step)
    ensures Run(s, steps + [step])
    ensures After(s, steps + [step]) == TakeStep(After(s, steps), step)
    decreases |steps|
  {
    if steps == [] {
      assert [step][1..] == [];
    } else {
      assert (steps + [step])[1..] == steps[1..] + [step];
      RunExtends(TakeStep(s, steps[0]), steps[1..], step);
    }
  }

  /** No probe gives up in the run. */
  predicate ProbesHold(s: State, steps: seq<Step>)
    decreases |steps|
  {
    steps == [] || (CanStep(s, steps[0]) && ProbeHolds(s, steps[0]) && ProbesHold(TakeStep(s, steps[0]), steps[1..]))
  }

  ghost predicate AlwaysSafe(s: State, steps: seq<Step>)
    decreases |steps|
  {
    Safe(s) && (steps == [] || (CanStep(s, steps[0]) && AlwaysSafe(TakeStep(s, steps[0]), steps[1..])))
  }

  /** Numbers, buffers and logs agree in every state of a run exactly if no probe gives up in it. */
  lemma {:induction false} AlwaysSafeIff(s: State, steps: seq<Step>)
    requires Safe(s) && Run(s, steps)
    ensures AlwaysSafe(s, steps) <==> ProbesHold(s, steps)
    decreases |steps|
  {
    hide Safe, CanStep, TakeStep, ProbeHolds;
    if steps != [] {
      StepKeepsSafeIff(s, steps[0]);
      if ProbeHolds(s, steps[0]) {
        AlwaysSafeIff(TakeStep(s, steps[0]), steps[1..]);
      } else {
        assert !AlwaysSafe(TakeStep(s, steps[0]), steps[1..]);
      }
    }
  }

  lemma {:induction false} RunKeepsSafe(s: State, steps: seq<Step>)
    requires Safe(s) && Run(s, steps) && ProbesHold(s, steps)
    ensures Safe(After(s, steps))
    decreases |steps|
  {
    hide Safe, CanStep, TakeStep, ProbeHolds;
    if steps != [] {
      StepKeepsSafeIff(s, steps[0]);
      RunKeepsSafe(TakeStep(s, steps[0]), steps[1..]);
    }
  }

  lemma FreshIsSafe(s: State, side: Side)
    requires Start(s)
    ensures SideIsSafe(s, side)
  {
    hide Carries;
    assert Fresh(s, side) && Fresh(s, Other(side));
    var p := Local(s, side);
    assert p.conn.sock.snd.accepted[0..] == [] == Pending(p) + p.conn.sock.snd.buf;
    hide Start, Fresh;
  }

  /**
   End-to-end safety.  After any run in which no probe gives up, what each application has read
   followed by its receive buffer is a prefix of what the other has written, and every data segment
   ever sent carries exactly the bytes written at its number.
   */
  lemma StreamIsSafe(s: State, steps: seq<Step>)
    requires Start(s) && Run(s, steps) && ProbesHold(s, steps)
    ensures var t := After(s, steps);
            && t.b.conn.sock.rcv.taken + t.b.conn.sock.rcv.buf <= t.a.conn.sock.snd.accepted
            && t.a.conn.sock.rcv.taken + t.a.conn.sock.rcv.buf <= t.b.conn.sock.snd.accepted
            && (forall g :: g in t.toB && g.payload != [] ==>
                  Carries(t.a.conn.sock.snd.accepted, Base(t.a.conn.sock.snd), g.seqNum, g.payload))
            && (forall g :: g in t.toA && g.payload != [] ==>
                  Carries(t.b.conn.sock.snd.accepted, Base(t.b.conn.sock.snd), g.seqNum, g.payload))
  {
    forall side ensures SideIsSafe(s, side) {
      FreshIsSafe(s, side);
      hide SideIsSafe, Start;
    }
    hide Carries, Start, ProbesHold;
    RunKeepsSafe(s, steps);
    assert SideIsSafe(After(s, steps), A) && SideIsSafe(After(s, steps), B);
  }

  // ------------------------------------------------------------------ what the applications write

  /** TryWrite takes a beginning of the data; VWrite goes on with the rest. */
  lemma AcceptTakesPrefix(s: Snd, data: seq<byte>)
    ensures var n := Min(Free(s.buf), |data|);
            && Accept(s, data).accepted + data[n..] == s.accepted + data
            && Accept(s, data).buf + data[n..] == s.buf + data
  {
    var n := Min(Free(s.buf), |data|);
    assert data[..n] + data[n..] == data;
  }

  /** If the step is a write of the side, it is of bytes that come next in `data`. */
  predicate Passes(step: Step, side: Side, data: seq<byte>) {
    step.side == side && step.act.Write? ==> step.act.data <= data
  }

  /** What remains of `data` after the step: everything TryWrite has not taken. */
  function Left(s: State, step: Step, side: Side, data: seq<byte>): seq<byte>
    requires Passes(step, side, data)
  {
    if step.side == side && step.act.Write?
    then data[Min(Free(Local(s, side).conn.sock.snd.buf), |step.act.data|)..] else data
  }

  /** The side's application passes `data` to VWrite, in calls of any length, one after the other. */
  predicate Writing(s: State, steps: seq<Step>, side: Side, data: seq<byte>)
    decreases |steps|
  {
    steps == [] || (
      && CanStep(s, steps[0]) && Passes(steps[0], side, data)
      && Writing(TakeStep(s, steps[0]), steps[1..], side, Left(s, steps[0], side, data)))
  }

  function LeftAfter(s: State, steps: seq<Step>, side: Side, data: seq<byte>): seq<byte>
    requires Writing(s, steps, side, data)
    decreases |steps|
  {
    if steps == [] then data
    else LeftAfter(TakeStep(s, steps[0]), steps[1..], side, Left(s, steps[0], side, data))
  }

  function Written(s: State, side: Side): seq<byte> {
    Local(s, side).conn.sock.snd.accepted
  }

  lemma PacketWritesNothing(c: Conn, seg: Segment)
    requires c.state != Listen
    ensures Handle(c, seg).0.sock.snd.accepted == c.sock.snd.accepted
  {
    hide HandleData, CleanUp;
    HandleEstablishedFrame(c.sock, seg);
  }

  lemma StepWrites(s: State, step: Step, side: Side, data: seq<byte>)
    requires CanStep(s, step) && Passes(step, side, data)
    ensures Written(TakeStep(s, step), side) + Left(s, step, side, data) == Written(s, side) + data
  {
    hide SendSize, FreeWindow;
    var p := Local(s, step.side);
    match step.act
    case Arrive(seg) => PacketWritesNothing(p.conn, seg); hide Handle;
    case Write(x) =>
      AcceptTakesPrefix(p.conn.sock.snd, x);
      if step.side == side {
        var n := Min(Free(p.conn.sock.snd.buf), |x|);
        assert data == x + data[|x|..] && data[n..] == x[n..] + data[|x|..];
      }
    case _ =>
  }

  /** Over any run, what a side has accepted grows by just what its application has passed to it. */
  lemma {:induction false} WritesAddUp(s: State, steps: seq<Step>, side: Side, data: seq<byte>)
    requires Run(s, steps) && Writing(s, steps, side, data)
    ensures Written(After(s, steps), side) + LeftAfter(s, steps, side, data) == Written(s, side) + data
    decreases |steps|
  {
    hide CanStep, TakeStep, Passes, Left, Written;
    if steps != [] {
      StepWrites(s, steps[0], side, data);
      WritesAddUp(TakeStep(s, steps[0]), steps[1..], side, Left(s, steps[0], side, data));
    }
  }

  /**
   What each application reads is a prefix of what the other one writes: after any run in which no
   probe gives up, bytes read followed by the receive buffer are a prefix of the data that the peer's
   calls of VWrite were given, and each side has accepted all of its data but what is left to pass.
   */
  lemma WrittenIsRead(s: State, steps: seq<Step>, x: seq<byte>, y: seq<byte>)
    requires Start(s) && Run(s, steps) && ProbesHold(s, steps)
    requires Writing(s, steps, A, x) && Writing(s, steps, B, y)
    ensures var t := After(s, steps);
            && t.b.conn.sock.rcv.Log() <= x && t.a.conn.sock.rcv.Log() <= y
            && Written(t, A) + LeftAfter(s, steps, A, x) == x
            && Written(t, B) + LeftAfter(s, steps, B, y) == y
  {
    assert Written(s, A) == [] && Written(s, B) == [] by {
      assert Fresh(s, A) && Fresh(s, B);
    }
    hide Run, After, Writing, LeftAfter, Start, ProbesHold, Carries;
    StreamIsSafe(s, steps);
    WritesAddUp(s, steps, A, x);
    WritesAddUp(s, steps, B, y);
    assert [] + x == x && [] + y == y;
  }
}
