/**
 What a receiver does with data in every state in which it takes any: ESTABLISHED, FIN_WAIT_1 and
 FIN_WAIT_2.  First one segment; then pieces that tile a stream, over any run of the endpoint up to
 the peer's FIN; and how the application gets the bytes.
 */
module Delivery {
  import opened Bytes
  import opened Endpoint
  import opened Reassembly
  import opened Tcp

  predicate TakesData(state: TcpState) {
    state in {Established, FinWait1, FinWait2}
  }

  /** The reply is one bare ACK of everything delivered so far. */
  predicate Acknowledges(out: seq<Segment>, k: Sock, window: uint16) {
    out == [Segment(k.snd.nxt, k.rcv.nxt, ACK, window, [])]
  }

  // ------------------------------------------------------------------ one segment

  lemma {:induction false} DrainGrows(r: Rcv)
    ensures r.Log() <= Drain(r).Log()
    ensures Drain(r) == r.(buf := Drain(r).buf, taken := Drain(r).taken, nxt := Drain(r).nxt, early := Drain(r).early)
    decreases |r.early|
  {
    var i := FindSeq(r.early, r.nxt);
    if i < |r.early| {
      DrainGrows(Put(r, r.early[i].data).(early := RemoveAt(r.early, i)));
    }
  }

  /** What HandlePacket does with data, all fields but those of the acknowledgement. */
  lemma HandleIsHandleData(c: Conn, seg: Segment)
    requires TakesData(c.state) && !seg.flags.rst && !seg.flags.fin && |seg.payload| > 0
    ensures var (d, out) := Handle(c, seg);
            var (k, acks) := HandleData(c.sock.(snd := c.sock.snd.(wnd := seg.window)), seg);
            && out == acks && TakesData(d.state)
            && d.sock.rcv == k.rcv.(wnd := d.sock.rcv.wnd) && d.sock.snd.nxt == c.sock.snd.nxt
  {
    hide Drain, CleanUp;
  }

  /**
   Data in order is delivered, with whatever waited for it, and acknowledged by one ACK of the new
   NXT and the free space of the buffer, in all three states.
   */
  lemma InOrderIsDelivered(c: Conn, seg: Segment)
    requires TakesData(c.state) && !seg.flags.rst && !seg.flags.fin
    requires |seg.payload| > 0 && seg.seqNum == c.sock.rcv.nxt
    ensures var (d, out) := Handle(c, seg);
            && c.sock.rcv.Log() + seg.payload <= d.sock.rcv.Log()
            && Acknowledges(out, d.sock, Free(d.sock.rcv.buf)) && TakesData(d.state)
  {
    HandleIsHandleData(c, seg);
    DrainGrows(Put(c.sock.rcv, seg.payload));
    hide Handle;
  }

  /** Any other data is kept for later, delivers nothing, and is answered by another ACK of NXT. */
  lemma EarlyIsKept(c: Conn, seg: Segment)
    requires TakesData(c.state) && !seg.flags.rst && !seg.flags.fin
    requires |seg.payload| > 0 && seg.seqNum != c.sock.rcv.nxt
    ensures var (d, out) := Handle(c, seg);
            && d.sock.rcv == c.sock.rcv.(wnd := d.sock.rcv.wnd,
                                         early := c.sock.rcv.early + [Early(seg.seqNum, seg.payload)])
            && Acknowledges(out, d.sock, c.sock.rcv.wnd) && TakesData(d.state)
  {
    HandleIsHandleData(c, seg);
    hide Handle;
  }

  // ------------------------------------------------------------------ every order, with duplicates

  /** What arrives is a piece or carries no data, and ends nothing. */
  ghost predicate PieceOrBare(pieces: seq<seq<byte>>, base: nat, seg: Segment) {
    && !seg.flags.rst && !seg.flags.fin
    && (seg.payload == [] || IsPiece(pieces, base, seg.seqNum, seg.payload))
  }

  ghost predicate OnlyPieces(pieces: seq<seq<byte>>, base: nat, acts: seq<Act>) {
    forall i :: 0 <= i < |acts| && acts[i].Arrive? ==> PieceOrBare(pieces, base, acts[i].seg)
  }

  /** Piece `k` is among the arrivals. */
  predicate Brings(act: Act, pieces: seq<seq<byte>>, base: nat, k: nat) {
    act.Arrive? && IsPieceAt(pieces, base, act.seg.seqNum, act.seg.payload, k)
  }

  ghost predicate Brought(acts: seq<Act>, pieces: seq<seq<byte>>, base: nat, k: nat) {
    exists i :: 0 <= i < |acts| && Brings(acts[i], pieces, base, k)
  }

  /** The first `m` pieces are delivered; the others may wait, but not the next one. */
  ghost predicate Assembling(p: Party, pieces: seq<seq<byte>>, base: nat, m: nat) {
    && TakesData(p.conn.state)
    && Tiled(p.conn.sock.rcv, pieces, base, m)
    && forall e :: e in p.conn.sock.rcv.early ==> e.seqNum != p.conn.sock.rcv.nxt
  }

  /** Whatever does not touch the log, NXT and the early segments. */
  lemma SameAssembling(p: Party, p': Party, pieces: seq<seq<byte>>, base: nat, m: nat)
    requires Assembling(p, pieces, base, m) && TakesData(p'.conn.state)
    requires var r, r' := p.conn.sock.rcv, p'.conn.sock.rcv;
             r'.Log() == r.Log() && r'.nxt == r.nxt && r'.early == r.early
    ensures Assembling(p', pieces, base, m)
    ensures forall k: nat :: Arrived(p.conn.sock.rcv, pieces, base, m, k) ==>
              Arrived(p'.conn.sock.rcv, pieces, base, m, k)
  {
  }

  lemma DataAssembles(p: Party, seg: Segment, pieces: seq<seq<byte>>, base: nat, m: nat) returns (m': nat)
    requires Assembling(p, pieces, base, m) && PieceOrBare(pieces, base, seg) && |seg.payload| > 0
    ensures var p' := p.(conn := Handle(p.conn, seg).0);
            && Assembling(p', pieces, base, m')
            && forall k: nat ::
                 Arrived(p.conn.sock.rcv, pieces, base, m, k)
                 || IsPieceAt(pieces, base, seg.seqNum, seg.payload, k) ==>
                   Arrived(p'.conn.sock.rcv, pieces, base, m', k)
  {
    HandleIsHandleData(p.conn, seg);
    var k0 := p.conn.sock.(snd := p.conn.sock.snd.(wnd := seg.window));
    m' := HandleDataTiled(k0, seg, pieces, base, m);
    var r' := Handle(p.conn, seg).0.sock.rcv;
    hide Handle, HandleData;
    forall k: nat | (Arrived(k0.rcv, pieces, base, m, k)
                     || IsPieceAt(pieces, base, seg.seqNum, seg.payload, k)) && k >= m'
      ensures Arrived(r', pieces, base, m', k)
    {
      var all := k0.rcv.early + [Early(seg.seqNum, seg.payload)];
      assert exists e :: e in all && IsPieceAt(pieces, base, e.seqNum, e.data, k) by {
        if IsPieceAt(pieces, base, seg.seqNum, seg.payload, k) {
          assert Early(seg.seqNum, seg.payload) in all;
        }
      }
      var e :| e in all && IsPieceAt(pieces, base, e.seqNum, e.data, k);
      StartsOrdered(pieces, base, m', k);
    }
  }

  lemma ActAssembles(p: Party, act: Act, pieces: seq<seq<byte>>, base: nat, m: nat) returns (m': nat)
    requires Assembling(p, pieces, base, m) && CanDo(p, act)
    requires act.Arrive? ==> PieceOrBare(pieces, base, act.seg)
    ensures var p' := Do(p, act).0;
            && Assembling(p', pieces, base, m')
            && forall k: nat :: Arrived(p.conn.sock.rcv, pieces, base, m, k) || Brings(act, pieces, base, k) ==>
                 Arrived(p'.conn.sock.rcv, pieces, base, m', k)
  {
    m' := m;
    if act.Arrive? && |act.seg.payload| > 0 {
      m' := DataAssembles(p, act.seg, pieces, base, m);
    } else {
      assert forall k :: !Brings(act, pieces, base, k);
      SameAssembling(p, Do(p, act).0, pieces, base, m);
    }
  }

  lemma {:induction false} ActsAssemble(p: Party, acts: seq<Act>, pieces: seq<seq<byte>>, base: nat, m: nat)
    returns (m': nat)
    requires Assembling(p, pieces, base, m) && Acts(p, acts) && OnlyPieces(pieces, base, acts)
    ensures var p' := PartyAfter(p, acts);
            && Assembling(p', pieces, base, m')
            && forall k: nat :: Arrived(p.conn.sock.rcv, pieces, base, m, k) || Brought(acts, pieces, base, k) ==>
                 Arrived(p'.conn.sock.rcv, pieces, base, m', k)
    decreases |acts|
  {
    hide Assembling, Arrived, CanDo, Do, PieceOrBare, Brings;
    m' := m;
    if acts != [] {
      assert forall i :: 0 <= i < |acts[1..]| ==> acts[1..][i] == acts[i + 1];
      m' := ActAssembles(p, acts[0], pieces, base, m);
      m' := ActsAssemble(Do(p, acts[0]).0, acts[1..], pieces, base, m');
      forall k: nat | Brought(acts, pieces, base, k)
        ensures Brings(acts[0], pieces, base, k) || Brought(acts[1..], pieces, base, k) {
        var i :| 0 <= i < |acts| && Brings(acts[i], pieces, base, k);
        assert i > 0 ==> acts[1..][i - 1] == acts[i];
      }
    }
  }

  /**
   Over any run of the endpoint up to the peer's FIN, with writes, reads, timers, ACKs and its own
   VClose in between: once every piece has arrived at least once, in any order and with any
   duplicates, the whole stream has been delivered and the next expected number is its end.
   */
  lemma ReassemblyComplete(p: Party, acts: seq<Act>, pieces: seq<seq<byte>>, base: nat)
    requires Assembling(p, pieces, base, 0) && Acts(p, acts) && OnlyPieces(pieces, base, acts)
    requires forall k: nat :: k < |pieces| ==> Brought(acts, pieces, base, k)
    ensures var r := PartyAfter(p, acts).conn.sock.rcv;
            && r.Log() == Stream(pieces)
            && r.nxt == base + |Stream(pieces)|
            && forall e :: e in r.early ==> e.seqNum != r.nxt
  {
    var m := ActsAssemble(p, acts, pieces, base, 0);
    assert pieces[..|pieces|] == pieces;
    assert m == |pieces| by {
      assert !Arrived(PartyAfter(p, acts).conn.sock.rcv, pieces, base, m, m);
    }
  }

  /** Two runs in which the same pieces arrive, in whatever order, deliver the same bytes. */
  lemma OrderIndependent(p: Party, acts1: seq<Act>, acts2: seq<Act>, pieces: seq<seq<byte>>, base: nat)
    requires Assembling(p, pieces, base, 0)
    requires Acts(p, acts1) && OnlyPieces(pieces, base, acts1)
    requires Acts(p, acts2) && OnlyPieces(pieces, base, acts2)
    requires forall k: nat :: k < |pieces| ==> Brought(acts1, pieces, base, k) && Brought(acts2, pieces, base, k)
    ensures var r1, r2 := PartyAfter(p, acts1).conn.sock.rcv, PartyAfter(p, acts2).conn.sock.rcv;
            r1.Log() == r2.Log() && r1.nxt == r2.nxt
  {
    ReassemblyComplete(p, acts1, pieces, base);
    ReassemblyComplete(p, acts2, pieces, base);
  }

  // ------------------------------------------------------------------ reading

  /** A read takes the next bytes, as many as it asks for or all there are, and opens the window by them. */
  lemma ReadTakes(r: Rcv, n: nat)
    ensures var r' := Read(r, n);
            var m := |r'.taken| - |r.taken|;
            && 0 <= m <= n && r'.Log() == r.Log() && r.taken <= r'.taken
            && (m < n ==> r'.buf == [])
            && r' == r.(buf := r'.buf, taken := r'.taken, wnd := Free(r.buf) + m)
  {
    assert r.buf[..Min(n, |r.buf|)] + r.buf[Min(n, |r.buf|)..] == r.buf;
  }

  function ReadAll(r: Rcv, ns: seq<nat>): Rcv
    decreases |ns|
  {
    if ns == [] then r else ReadAll(Read(r, ns[0]), ns[1..])
  }

  function Total(ns: seq<nat>): nat {
    if ns == [] then 0 else ns[0] + Total(ns[1..])
  }

  /** Reads hand over everything delivered exactly if together they ask for as many bytes. */
  lemma {:induction false} ReadsHandOverIff(r: Rcv, ns: seq<nat>)
    ensures var r' := ReadAll(r, ns);
            && r'.Log() == r.Log()
            && (r'.taken == r.Log() <==> Total(ns) >= |r.buf|)
            && |r'.buf| == if Total(ns) >= |r.buf| then 0 else |r.buf| - Total(ns)
    decreases |ns|
  {
    if ns != [] {
      ReadTakes(r, ns[0]);
      ReadsHandOverIff(Read(r, ns[0]), ns[1..]);
    }
  }
}
