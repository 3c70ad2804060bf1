/**
 The four-way close of one connection.  Either side may close first, or both; FINs and their
 acknowledgements may be lost, duplicated and reordered, and FINs are retransmitted.  There is
 no RST, and nobody writes any more.
 */
module TwoPartyClose {
  import opened Bytes
  import opened Tcp
  import opened TwoSides

  /** `first` records that this side called VClose while ESTABLISHED. */
  datatype Party = Party(conn: Conn, first: bool)

  type State = Pair<Party>

  datatype Step =
    | UserClose(side: Side, now: int)
    | Arrive(side: Side, seg: Segment)
    | Expire(side: Side, now: int)
    | TimeWaitEnds(side: Side)

  predicate CanDo(p: Party, step: Step) {
    match step
    case UserClose(_, _) => CanClose(p.conn)
    case Arrive(_, _) => p.conn.state != Listen
    case Expire(_, _) => CanRetransmit(p.conn.sock.snd)
    case TimeWaitEnds(_) => p.conn.state == TimeWait
  }

  function Do(p: Party, step: Step): (Party, set<Segment>)
    requires CanDo(p, step)
  {
    match step
    case UserClose(_, now) =>
      var (c, out) := Close(p.conn, now);
      (Party(c, p.first || p.conn.state == Established), Sent(out))
    case Arrive(_, seg) =>
      var (c, out) := Handle(p.conn, seg);
      (p.(conn := c), Sent(out))
    case Expire(_, now) =>
      var (k, out) := Retransmit(p.conn.sock, now);
      (p.(conn := p.conn.(sock := k)), Sent(out))
    case TimeWaitEnds(_) => (p.(conn := p.conn.(state := Closed)), {})
  }

  predicate CanStep(s: State, step: Step) {
    && CanDo(Local(s, step.side), step)
    && (step.Arrive? ==> step.seg in Inbox(s, step.side))
  }

  function TakeStep(s: State, step: Step): State
    requires CanStep(s, step)
  {
    var (p, out) := Do(Local(s, step.side), step);
    Update(s, step.side, p, out)
  }

  // ------------------------------------------------------------------ invariant

  /** The side has sent its FIN. */
  predicate FinSent(p: Party) {
    p.conn.state in {FinWait1, FinWait2, TimeWait, LastAck, Closed}
  }

  /** handleFIN has run on the peer's FIN. */
  predicate TookFin(p: Party) {
    p.conn.state in {CloseWait, LastAck, TimeWait, Closed}
  }

  /** The side has had its FIN acknowledged. */
  predicate FinAcked(p: Party) {
    p.conn.state in {FinWait2, TimeWait, Closed}
  }

  predicate Plain(flags: Flags, data: seq<byte>) {
    !flags.rst && data == []
  }

  /**
   What `q` may find in the network, `p` being its peer: a FIN of `p` with the number of its socket,
   or an ACK of just the FIN of `q`.
   */
  predicate Evidence(g: Segment, p: Party, q: Party) {
    && Plain(g.flags, g.payload)
    && (g.flags.fin ==> FinSent(p) && g.seqNum == p.conn.sock.seqNum)
    && (g.flags.ack ==> TookFin(p) && g.ackNum == Add32(q.conn.sock.seqNum, 1))
  }

  ghost predicate Good(p: Party, q: Party, out: set<Segment>) {
    && p.conn.state in {Established, FinWait1, FinWait2, TimeWait, CloseWait, LastAck, Closed}
    && (p.conn.state != Closed ==> (p.first <==> p.conn.state in {FinWait1, FinWait2, TimeWait}))
    && (TookFin(p) ==> FinSent(q) && p.conn.sock.rcv.nxt == Add32(q.conn.sock.seqNum, 1))
    && (FinAcked(p) ==> TookFin(q))
    && (TookFin(p) && !p.first ==> q.first)
    && (forall g :: g in out ==> Evidence(g, p, q))
    && (forall f :: f in p.conn.sock.snd.inFlight ==>
          && Plain(f.flags, f.data) && !f.flags.ack
          && (f.flags.fin ==> FinSent(p) && f.seqNum == p.conn.sock.seqNum))
  }

  ghost predicate GoodSide(s: State, side: Side) {
    Good(Local(s, side), Local(s, Other(side)), Inbox(s, Other(side)))
  }

  ghost predicate Inv(s: State) {
    forall side :: GoodSide(s, side)
  }

  /** No FIN and no RST; and data comes with an ACK, as the source sends it. */
  predicate Ordinary(flags: Flags, data: seq<byte>) {
    !flags.fin && !flags.rst && (data != [] ==> flags.ack)
  }

  predicate NoAcks(l: seq<InFlight>) {
    forall f :: f in l ==> !f.flags.ack
  }

  /** Data in flight will be sent again when the timer expires. */
  predicate Resends(snd: Snd) {
    CanRetransmit(snd) && snd.inFlight[FirstUnacked(snd.inFlight, snd.una)].flags.ack
  }

  predicate Open(p: Party) {
    && p.conn.state == Established && !p.first
    && (forall f :: f in p.conn.sock.snd.inFlight ==> Ordinary(f.flags, f.data))
    && (NoAcks(p.conn.sock.snd.inFlight) || Resends(p.conn.sock.snd))
  }

  /** Both sides established, and no FIN or RST about; data may still be in flight, and be acknowledged. */
  ghost predicate Start(s: State) {
    Open(s.a) && Open(s.b) && forall g :: g in s.toA + s.toB ==> Ordinary(g.flags, g.payload)
  }

  /** Nothing outstanding carries an ACK, and nothing in flight will. */
  predicate NoAckOutstanding(s: State) {
    && (forall g :: g in s.toA + s.toB ==> !g.flags.ack)
    && NoAcks(s.a.conn.sock.snd.inFlight) && NoAcks(s.b.conn.sock.snd.inFlight)
  }

  // ------------------------------------------------------------------ each step

  /** What an arrival does to a closing connection: the state table of the four-way close. */
  lemma ArrivalTable(c: Conn, seg: Segment)
    requires Plain(seg.flags, seg.payload)
    requires c.state in {Established, FinWait1, FinWait2, TimeWait, CloseWait, LastAck, Closed}
    ensures var (d, out) := Handle(c, seg);
            && d.state == (
                 if c.state == Established && seg.flags.fin then CloseWait
                 else if c.state == FinWait1 && seg.flags.ack then FinWait2
                 else if c.state == FinWait2 && seg.flags.fin then TimeWait
                 else if c.state == LastAck && seg.flags.ack then Closed
                 else c.state)
            && (forall g :: g in out ==>
                  && g.flags == ACK && g.payload == [] && g.ackNum == Add32(seg.seqNum, 1)
                  && seg.flags.fin && c.state in {Established, FinWait2, TimeWait})
            && d.sock.rcv.nxt == (if seg.flags.fin && c.state in {Established, FinWait2, TimeWait}
                                  then Add32(seg.seqNum, 1) else c.sock.rcv.nxt)
            && d.sock.seqNum == c.sock.seqNum
            && |out| == (if seg.flags.fin && c.state in {Established, FinWait2, TimeWait} then 1 else 0)
            && (forall f :: f in d.sock.snd.inFlight ==> f in c.sock.snd.inFlight)
  {
  }

  lemma ArriveKeeps(p: Party, q: Party, out: set<Segment>, back: set<Segment>, seg: Segment)
    requires Good(p, q, out) && Good(q, p, back) && seg in back
    ensures var (c, more) := Handle(p.conn, seg);
            Good(p.(conn := c), q, out + Sent(more)) && Good(q, p.(conn := c), back)
  {
    hide Handle;
    ArrivalTable(p.conn, seg);
  }

  lemma UserCloseKeeps(p: Party, q: Party, out: set<Segment>, back: set<Segment>, now: int)
    requires Good(p, q, out) && Good(q, p, back) && CanClose(p.conn)
    ensures var (c, more) := Close(p.conn, now);
            var p' := Party(c, p.first || p.conn.state == Established);
            Good(p', q, out + Sent(more)) && Good(q, p', back)
  {
  }

  lemma ExpireKeeps(p: Party, q: Party, out: set<Segment>, back: set<Segment>, now: int)
    requires Good(p, q, out) && Good(q, p, back) && CanRetransmit(p.conn.sock.snd)
    ensures var (k, more) := Retransmit(p.conn.sock, now);
            var p' := p.(conn := p.conn.(sock := k));
            Good(p', q, out + Sent(more)) && Good(q, p', back)
  {
    var l := p.conn.sock.snd.inFlight;
    assert l[FirstUnacked(l, p.conn.sock.snd.una)] in l;
  }

  lemma DoKeeps(p: Party, q: Party, out: set<Segment>, back: set<Segment>, step: Step)
    requires Good(p, q, out) && Good(q, p, back) && CanDo(p, step) && (step.Arrive? ==> step.seg in back)
    ensures var (p', more) := Do(p, step);
            Good(p', q, out + more) && Good(q, p', back)
  {
    hide Handle, Close, Retransmit;
    match step
    case UserClose(_, now) => UserCloseKeeps(p, q, out, back, now);
    case Arrive(_, seg) => ArriveKeeps(p, q, out, back, seg);
    case Expire(_, now) => ExpireKeeps(p, q, out, back, now);
    case TimeWaitEnds(_) =>
  }

  lemma StepKeeps(s: State, step: Step)
    requires Inv(s) && CanStep(s, step)
    ensures Inv(TakeStep(s, step))
  {
    var here, there := step.side, Other(step.side);
    assert Other(there) == here;
    assert GoodSide(s, here) && GoodSide(s, there);
    DoKeeps(Local(s, here), Local(s, there), Inbox(s, there), Inbox(s, here), step);
    hide Do, CanDo, Good;
    assert GoodSide(TakeStep(s, step), here) && GoodSide(TakeStep(s, step), there);
  }

  // ------------------------------------------------------------------ every run

  predicate Run(s: State, steps: seq<Step>)
    decreases |steps|
  {
    steps == [] || (CanStep(s, steps[0]) && Run(TakeStep(s, steps[0]), steps[1..]))
  }

  function After(s: State, steps: seq<Step>): State
    requires Run(s, steps)
    decreases |steps|
  {
    if steps == [] then s else After(TakeStep(s, steps[0]), steps[1..])
  }

  lemma {:induction false} RunKeeps(s: State, steps: seq<Step>)
    requires Inv(s) && Run(s, steps)
    ensures Inv(After(s, steps))
    decreases |steps|
  {
    if steps != [] {
      StepKeeps(s, steps[0]);
      RunKeeps(TakeStep(s, steps[0]), steps[1..]);
    }
  }

  /**
   A side whose FIN counts as acknowledged has a peer that took it; a side that took a FIN has a
   peer that sent one; and when the passive closer is gone, the active one is past FIN_WAIT_2.
   */
  predicate Orderly(p: Party, q: Party) {
    && (FinAcked(p) ==> TookFin(q))
    && (TookFin(p) ==> FinSent(q))
    && (p.conn.state == Closed && !p.first ==> q.conn.state == TimeWait || q.conn.state == Closed)
  }

  /** After any run, both ways round. */
  lemma CloseIsOrderly(s: State, steps: seq<Step>)
    requires Start(s) && NoAckOutstanding(s) && Run(s, steps)
    ensures var t := After(s, steps); Orderly(t.a, t.b) && Orderly(t.b, t.a)
  {
    assert GoodSide(s, A) && GoodSide(s, B);
    RunKeeps(s, steps);
    assert GoodSide(After(s, steps), A) && GoodSide(After(s, steps), B);
  }

  /**
   The numbers of the close.  After any run every FIN has the number of its socket, every ACK says
   exactly one more than the FIN it answers, and its sender has taken that FIN.
   */
  lemma CloseNumbers(s: State, steps: seq<Step>, side: Side, g: Segment)
    requires Start(s) && NoAckOutstanding(s) && Run(s, steps)
    requires g in Inbox(After(s, steps), Other(side))
    ensures var p, q := Local(After(s, steps), side), Local(After(s, steps), Other(side));
            && (g.flags.fin ==> FinSent(p) && g.seqNum == p.conn.sock.seqNum)
            && (g.flags.ack ==> TookFin(p) && FinSent(q) && g.ackNum == Add32(q.conn.sock.seqNum, 1))
  {
    assert GoodSide(s, A) && GoodSide(s, B);
    RunKeeps(s, steps);
    assert GoodSide(After(s, steps), side);
    hide Run, After, Inv, Start;
  }

  ghost predicate AlwaysOrderly(s: State) {
    forall steps :: Run(s, steps) ==>
      var t := After(s, steps); Orderly(t.a, t.b) && Orderly(t.b, t.a)
  }

  /** In FIN_WAIT_1 any ACK is taken for that of the FIN. */
  lemma AnyAckCounts(c: Conn, seg: Segment)
    requires c.state == FinWait1 && seg.flags.ack && !seg.flags.rst
    ensures Handle(c, seg).0.state == FinWait2
  {
    hide HandleEstablished, CleanUp;
  }

  /** An old ACK is taken for that of the FIN: the peer has not even seen it. */
  lemma OldAckMisleads(s: State, side: Side, g: Segment) returns (steps: seq<Step>)
    requires CanClose(Local(s, side).conn) && Local(s, side).conn.state == Established
    requires Local(s, Other(side)).conn.state == Established
    requires g in Inbox(s, side) && g.flags.ack && !g.flags.rst
    ensures Run(s, steps)
    ensures var t := After(s, steps); !Orderly(Local(t, side), Local(t, Other(side)))
  {
    var closed := TakeStep(s, UserClose(side, 0));
    AnyAckCounts(Local(closed, side).conn, g);
    hide Handle, Close;
    steps := [UserClose(side, 0), Arrive(side, g)];
    assert steps[1..] == [Arrive(side, g)] && [Arrive(side, g)][1..] == [];
    assert CanStep(closed, Arrive(side, g)) && Run(TakeStep(closed, Arrive(side, g)), []);
    assert Run(closed, [Arrive(side, g)]) && After(closed, steps[1..]) == TakeStep(closed, Arrive(side, g));
  }

  /** Data in flight brings such an ACK when its timer expires. */
  lemma ResentDataMisleads(s: State, side: Side) returns (steps: seq<Step>)
    requires Local(s, side).conn.state == Established && Local(s, Other(side)).conn.state == Established
    requires forall f :: f in Local(s, side).conn.sock.snd.inFlight ==> !f.flags.rst
    requires Resends(Local(s, side).conn.sock.snd)
    ensures Run(s, steps)
    ensures var t := After(s, steps); !Orderly(Local(t, Other(side)), Local(t, side))
  {
    var step := Expire(side, 0);
    var t := TakeStep(s, step);
    var snd := Local(s, side).conn.sock.snd;
    var f := snd.inFlight[FirstUnacked(snd.inFlight, snd.una)];
    assert f in snd.inFlight;
    var g := Retransmit(Local(s, side).conn.sock, 0).1[0];
    assert g in Inbox(t, Other(side)) && g.flags == f.flags;
    hide Handle, Close, Retransmit, Orderly;
    assert Other(Other(side)) == side;
    var rest := OldAckMisleads(t, Other(side), g);
    steps := [step] + rest;
    assert steps[1..] == rest;
  }

  /** Every run of the close is orderly exactly if no ACK is outstanding, or in flight, when it begins. */
  lemma CloseIsOrderlyIff(s: State)
    requires Start(s)
    ensures AlwaysOrderly(s) <==> NoAckOutstanding(s)
  {
    if NoAckOutstanding(s) {
      forall steps | Run(s, steps)
        ensures var t := After(s, steps); Orderly(t.a, t.b) && Orderly(t.b, t.a)
      {
        CloseIsOrderly(s, steps);
      }
    } else if g :| g in s.toA + s.toB && g.flags.ack {
      var steps := OldAckMisleads(s, if g in s.toA then A else B, g);
    } else {
      var steps := ResentDataMisleads(s, if NoAcks(s.a.conn.sock.snd.inFlight) then B else A);
    }
  }

  /**
   Two sides that both close first never get any further: neither takes the other's FIN, so
   neither FIN is ever acknowledged.
   */
  lemma {:induction false} SimultaneousCloseIsStuck(s: State, steps: seq<Step>)
    requires Inv(s) && Run(s, steps)
    requires s.a.conn.state == FinWait1 && s.b.conn.state == FinWait1
    ensures After(s, steps).a.conn.state == FinWait1 && After(s, steps).b.conn.state == FinWait1
    decreases |steps|
  {
    if steps != [] {
      StepKeeps(s, steps[0]);
      if steps[0].Arrive? {
        assert Other(Other(steps[0].side)) == steps[0].side && GoodSide(s, Other(steps[0].side));
        ArrivalTable(Local(s, steps[0].side).conn, steps[0].seg);
      }
      SimultaneousCloseIsStuck(TakeStep(s, steps[0]), steps[1..]);
    }
  }
}
