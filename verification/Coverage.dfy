/**
 The in-flight list of FlowControl's sender.  A retransmitted packet moves to its end and loses its
 length, so that an acknowledgement may drop it too early: exactly when that happens, and that it
 does not for the side that opened the connection with one retransmission between two accepted
 acknowledgements.
 */
module Coverage {
  import opened Bytes
  import opened Tcp
  import opened Reassembly
  import opened FlowControl

  // ------------------------------------------------------------ the in-flight list

  predicate Full(f: InFlight) {
    f.length == |f.data|
  }

  /** The segment of piece `k` is in the list. */
  ghost predicate Holds(l: seq<InFlight>, pieces: seq<seq<byte>>, base: nat, k: nat) {
    exists f :: f in l && IsPieceAt(pieces, base, f.seqNum, f.data, k)
  }

  /** No piece from the `u`-th on has been forgotten. */
  ghost predicate Covered(l: seq<InFlight>, pieces: seq<seq<byte>>, base: nat, u: nat) {
    forall k: nat :: u <= k < |pieces| ==> Holds(l, pieces, base, k)
  }

  ghost predicate OnlyPieces(l: seq<InFlight>, pieces: seq<seq<byte>>, base: nat, u: nat) {
    forall f :: f in l ==> exists k: nat :: u <= k && IsPieceAt(pieces, base, f.seqNum, f.data, k)
  }

  /** No two different packets have the same number. */
  predicate NumberedApart(l: seq<InFlight>) {
    forall f, g :: f in l && g in l && f.seqNum == g.seqNum ==> f == g
  }

  lemma BelowNext(l: seq<InFlight>, pieces: seq<seq<byte>>, base: nat, u: nat)
    requires OnlyPieces(l, pieces, base, u) && NonEmpty(pieces)
    ensures forall f :: f in l ==> f.seqNum < Start(pieces, base, |pieces|)
  {
    forall f | f in l ensures f.seqNum < Start(pieces, base, |pieces|) {
      var k: nat :| u <= k && IsPieceAt(pieces, base, f.seqNum, f.data, k);
      StartsOrdered(pieces, base, k, |pieces|);
    }
  }

  /** Whether a packet of piece `k` survives an acknowledgement of everything before piece `j`. */
  lemma KeptPiece(f: InFlight, pieces: seq<seq<byte>>, base: nat, k: nat, j: nat)
    requires NonEmpty(pieces) && j <= |pieces| && Start(pieces, base, |pieces|) < TWO32
    requires IsPieceAt(pieces, base, f.seqNum, f.data, k)
    requires f.length == 0 || Full(f)
    ensures Start(pieces, base, j) < TWO32
    ensures Kept(f, Start(pieces, base, j)) <==> if Full(f) then j <= k else j < k
  {
    assert pieces[..|pieces|] == pieces;
    NextStart(pieces, base, k);
    StartsOrdered(pieces, base, j, |pieces|);
    StartsOrdered(pieces, base, k + 1, |pieces|);
    if j <= k {
      StartsOrdered(pieces, base, j, k);
    } else {
      StartsOrdered(pieces, base, k + 1, j);
      StartsOrdered(pieces, base, k, j);
    }
  }

  /**
   A cumulative acknowledgement at a segment boundary forgets nothing exactly when no
   retransmitted packet, which has lost its length, is numbered by the acknowledgement itself.
   */
  lemma CoverageKeptIff(l: seq<InFlight>, pieces: seq<seq<byte>>, base: nat, u: nat, j: nat)
    requires NonEmpty(pieces) && Start(pieces, base, |pieces|) < TWO32
    requires u <= j <= |pieces| && Start(pieces, base, j) < TWO32
    requires Covered(l, pieces, base, u) && OnlyPieces(l, pieces, base, u) && NumberedApart(l)
    requires forall f :: f in l ==> f.length == 0 || Full(f)
    ensures Covered(Keep(l, Start(pieces, base, j)), pieces, base, j)
            <==> !exists f :: f in l && f.length == 0 && f.seqNum == Start(pieces, base, j)
  {
    var ack: uint32 := Start(pieces, base, j);
    if f :| f in l && f.length == 0 && f.seqNum == ack {
      // The packet is piece j, and no other packet in the list has its number.
      var k: nat :| u <= k && IsPieceAt(pieces, base, f.seqNum, f.data, k);
      StartsOrdered(pieces, base, Min(k, j), if k < j then j else k);
      KeptPiece(f, pieces, base, k, j);
      assert !Holds(Keep(l, ack), pieces, base, j);
    } else {
      forall k: nat | j <= k < |pieces| ensures Holds(Keep(l, ack), pieces, base, k) {
        assert Holds(l, pieces, base, k);
        var f :| f in l && IsPieceAt(pieces, base, f.seqNum, f.data, k);
        KeptPiece(f, pieces, base, k, j);
      }
    }
  }

  lemma OthersOfTwo(p: InFlight, q: InFlight)
    requires p.seqNum != q.seqNum
    ensures Others([p, q], p.seqNum) == [q]
  {
    var l := [p, q];
    assert l[1..] == [q] && l[1..][1..] == [];
    assert Others(l[1..], p.seqNum) == [q];
  }

  /**
   Two retransmissions between acknowledgements are enough to lose a segment: the second packet
   is sent again, and the acknowledgement of the first then drops it, unacknowledged.
   */
  lemma TwoRetransmissionsForget(k: Sock, a: InFlight, b: InFlight, now: int)
    requires k.snd.inFlight == [a, b] && k.snd.una == a.seqNum < b.seqNum && k.snd.retransmissions == 0
    ensures CanRetransmit(k.snd) && CanRetransmit(Retransmit(k, now).0.snd)
    ensures var s := Retransmit(Retransmit(k, now).0, now).0.snd;
            ProcessAck(s, b.seqNum).inFlight == [] && ProcessAck(s, b.seqNum).una == b.seqNum
  {
    var a' := a.(length := 0, timeSent := now);
    var b' := b.(length := 0, timeSent := now);
    OthersOfTwo(a, b);
    var s1 := Retransmit(k, now).0;
    assert s1.snd.inFlight == [b, a'];
    OthersOfTwo(b, a');
    var s2 := Retransmit(s1, now).0;
    assert s2.snd.inFlight == [a', b'];
    var l := s2.snd.inFlight;
    assert forall f :: f in l ==> !Kept(f, b.seqNum);
    KeepNone(l, b.seqNum);
  }

  // ------------------------------------------------------------ each operation

  /** UNA is where piece `u` starts; before the first new acknowledgement it may still be at the SYN. */
  predicate UnaAt(una: nat, pieces: seq<seq<byte>>, base: nat, u: nat) {
    u <= |pieces| && (una == Start(pieces, base, u) || (u == 0 && una + 1 == base))
  }

  /**
   The in-flight packets are exactly the pieces from the `u`-th on, where UNA is, up to NXT, each with
   its whole length or with none.
   */
  ghost predicate InFlightTiles(s: Snd, pieces: seq<seq<byte>>, base: nat, u: nat) {
    && NonEmpty(pieces)
    && UnaAt(s.una, pieces, base, u)
    && s.nxt == Start(pieces, base, |pieces|)
    && Covered(s.inFlight, pieces, base, u)
    && OnlyPieces(s.inFlight, pieces, base, u)
    && NumberedApart(s.inFlight)
    && forall f :: f in s.inFlight ==> Full(f) || f.length == 0
  }

  /** A new data segment is one more piece of the tiling, and is in flight. */
  lemma SendTiles(s: Snd, pieces: seq<seq<byte>>, base: nat, u: nat, f: InFlight, nxt: uint32)
    requires InFlightTiles(s, pieces, base, u)
    requires f.seqNum == s.nxt && Full(f) && |f.data| > 0 && nxt == s.nxt + |f.data|
    ensures InFlightTiles(s.(nxt := nxt, inFlight := s.inFlight + [f]), pieces + [f.data], base, u)
  {
    var more := pieces + [f.data];
    var l := s.inFlight + [f];
    NextStart(more, base, |pieces|);
    assert more[..|more|] == more && more[..|pieces|] == pieces == pieces[..|pieces|];
    GrowStart(pieces, f.data, base, u);
    GrowStart(pieces, f.data, base, |pieces|);
    assert IsPieceAt(more, base, f.seqNum, f.data, |pieces|);
    BelowNext(s.inFlight, pieces, base, u);
    hide Start, NonEmpty;
    forall k: nat | u <= k < |more| ensures Holds(l, more, base, k) {
      if k < |pieces| {
        assert Holds(s.inFlight, pieces, base, k);
        var g :| g in s.inFlight && IsPieceAt(pieces, base, g.seqNum, g.data, k);
        GrowStart(pieces, f.data, base, k);
        assert g in l && IsPieceAt(more, base, g.seqNum, g.data, k);
      } else {
        assert f in l;
      }
    }
    forall g | g in s.inFlight
      ensures exists k: nat :: u <= k && IsPieceAt(more, base, g.seqNum, g.data, k)
    {
      var k: nat :| u <= k && IsPieceAt(pieces, base, g.seqNum, g.data, k);
      GrowStart(pieces, f.data, base, k);
      assert IsPieceAt(more, base, g.seqNum, g.data, k);
    }
  }

  /** A retransmission, the first or a later one, takes a packet to the end and keeps its piece. */
  lemma ExpireTiles(k: Sock, pieces: seq<seq<byte>>, base: nat, u: nat, now: int)
    requires InFlightTiles(k.snd, pieces, base, u) && CanRetransmit(k.snd)
    ensures InFlightTiles(Retransmit(k, now).0.snd, pieces, base, u)
  {
    var l := k.snd.inFlight;
    var f := l[FirstUnacked(l, k.snd.una)];
    var f' := f.(length := 0, timeSent := now);
    var l' := Others(l, f.seqNum) + [f'];
    assert f in l;
    forall i: nat | u <= i < |pieces| ensures Holds(l', pieces, base, i) {
      assert Holds(l, pieces, base, i);
      var g :| g in l && IsPieceAt(pieces, base, g.seqNum, g.data, i);
      if g.seqNum == f.seqNum {
        assert f' in l' && IsPieceAt(pieces, base, f'.seqNum, f'.data, i);
      } else {
        assert g in l';
      }
    }
  }

  /**
   An accepted acknowledgement at a boundary moves UNA there.  It keeps the tiling exactly when no
   packet without a length has its number.
   */
  lemma AckTilesIff(s: Snd, pieces: seq<seq<byte>>, base: nat, u: nat, j: nat)
    requires InFlightTiles(s, pieces, base, u) && s.inFlight != []
    requires j <= |pieces| && Start(pieces, base, j) < TWO32
    requires s.una < Start(pieces, base, j)
    ensures ProcessAck(s, Start(pieces, base, j)).una == Start(pieces, base, j)
    ensures var spared := !exists f :: f in s.inFlight && f.length == 0 && f.seqNum == Start(pieces, base, j);
            && (InFlightTiles(ProcessAck(s, Start(pieces, base, j)), pieces, base, j) <==> spared)
            && (Covered(ProcessAck(s, Start(pieces, base, j)).inFlight, pieces, base, j) <==> spared)
  {
    var ack: uint32 := Start(pieces, base, j);
    var l := s.inFlight;
    if j < u {
      StartsOrdered(pieces, base, j, u);
    }
    assert u <= j;
    StartsOrdered(pieces, base, j, |pieces|);
    CoverageKeptIff(l, pieces, base, u, j);
    forall f | f in Keep(l, ack)
      ensures exists k: nat :: j <= k && IsPieceAt(pieces, base, f.seqNum, f.data, k)
    {
      var k: nat :| u <= k && IsPieceAt(pieces, base, f.seqNum, f.data, k);
      KeptPiece(f, pieces, base, k, j);
    }
  }

  // ------------------------------------------------------------ each step

  ghost predicate TilesAt(s: Flow, u: nat) {
    InFlightTiles(s.x.snd, s.pieces, s.x.snd.iss + 1, u)
  }

  /** The in-flight packets are exactly the segments from UNA on. */
  ghost predicate ListTiles(s: Flow) {
    exists u: nat :: TilesAt(s, u)
  }

  ghost predicate CoveredFrom(s: Flow, u: nat) {
    var base := s.x.snd.iss + 1;
    UnaAt(s.x.snd.una, s.pieces, base, u) && Covered(s.x.snd.inFlight, s.pieces, base, u)
  }

  /** Every segment from UNA on is in flight. */
  ghost predicate NoneForgotten(s: Flow) {
    exists u: nat :: CoveredFrom(s, u)
  }

  /** The step is not the acceptance of an acknowledgement numbered like a packet without a length. */
  predicate Spares(s: Flow, step: Step) {
    step.AckArrives? && step.i < |s.acks| && s.acks[step.i].ackNum > s.x.snd.una ==>
      forall f :: f in s.x.snd.inFlight ==> f.length > 0 || f.seqNum != s.acks[step.i].ackNum
  }

  /** With nothing in flight nothing is unacknowledged, so that no acknowledgement is news. */
  lemma IdleIsAcked(s: Flow, i: nat)
    requires Inv(s) && ListTiles(s) && i < |s.acks| && s.x.snd.inFlight == []
    ensures s.acks[i].ackNum == s.x.snd.una
  {
    hide ReceiverTiles, OnlyPieceData, AcksInOrder, WindowFits, InFlightPieces, NumberedApart, OnlyPieces;
    var u: nat :| TilesAt(s, u);
    var m: nat :| InvAt(s, m);
    AckFacts(s, i, s.x.snd.iss + 1);
    assert s.pieces != [];
    assert u < |s.pieces| ==> Holds(s.x.snd.inFlight, s.pieces, s.x.snd.iss + 1, u);
  }

  /** UNA is the start of one piece only. */
  lemma OneBoundary(s: Flow, j: nat)
    requires NonEmpty(s.pieces) && j <= |s.pieces| && s.x.snd.una == Start(s.pieces, s.x.snd.iss + 1, j)
    ensures NoneForgotten(s) <==> Covered(s.x.snd.inFlight, s.pieces, s.x.snd.iss + 1, j)
  {
    hide Covered, NonEmpty;
    if k: nat :| CoveredFrom(s, k) {
      StartsOrdered(s.pieces, s.x.snd.iss + 1, Min(j, k), if j < k then k else j);
    }
    assert Covered(s.x.snd.inFlight, s.pieces, s.x.snd.iss + 1, j) ==> CoveredFrom(s, j);
  }

  lemma TilesMeanNoneForgotten(s: Flow)
    requires ListTiles(s)
    ensures NoneForgotten(s)
  {
    var u: nat :| TilesAt(s, u);
    assert CoveredFrom(s, u);
  }

  /** An acknowledgement that is news. */
  lemma NewAckCoversIff(s: Flow, snd: Snd, base: nat, u: nat, g: Segment)
    requires InFlightTiles(snd, s.pieces, base, u) && snd.inFlight != []
    requires GoodAck(g, s.pieces, base) && g.ackNum > snd.una
    requires s.x.snd == ProcessAck(snd, g.ackNum) && base == s.x.snd.iss + 1
    ensures var spared := forall f :: f in snd.inFlight ==> f.length > 0 || f.seqNum != g.ackNum;
            && (spared ==> ListTiles(s))
            && (NoneForgotten(s) <==> spared)
  {
    var j: nat :| j <= |s.pieces| && g.ackNum == Start(s.pieces, base, j);
    AckTilesIff(snd, s.pieces, base, u, j);
    OneBoundary(s, j);
    assert InFlightTiles(s.x.snd, s.pieces, base, j) ==> TilesAt(s, j);
  }

  lemma AckCoversIff(s: Flow, i: nat)
    requires Inv(s) && ListTiles(s) && i < |s.acks|
    ensures var t := TakeStep(s, AckArrives(i));
            && (Spares(s, AckArrives(i)) ==> ListTiles(t) && AckFits(s, AckArrives(i)))
            && (NoneForgotten(t) <==> Spares(s, AckArrives(i)))
  {
    hide ReceiverTiles, AcksInOrder, OnlyPieceData, InFlightPieces, WindowFits, ProcessAck, TakeStep;
    hide Covered, OnlyPieces, NumberedApart, NonEmpty, UnaAt;
    var base := s.x.snd.iss + 1;
    var g := s.acks[i];
    var snd := s.x.snd.(wnd := g.window);
    var m: nat :| InvAt(s, m);
    AckFacts(s, i, base);
    AckEffect(s, i);
    if s.x.snd.inFlight == [] {
      IdleIsAcked(s, i);
    }
    hide Inv, InvAt, GoodAck, NoneForgotten, Start;
    var t := TakeStep(s, AckArrives(i));
    var u: nat :| TilesAt(s, u);
    if g.ackNum == s.x.snd.una {
      assert TilesAt(t, u);
      TilesMeanNoneForgotten(t);
    } else {
      NewAckCoversIff(t, snd, base, u, g);
    }
  }

  lemma OtherStepCovers(s: Flow, step: Step)
    requires Inv(s) && ListTiles(s) && CanStep(s, step) && !step.AckArrives?
    ensures ListTiles(TakeStep(s, step))
  {
    hide Covered, OnlyPieces, NumberedApart, NonEmpty, UnaAt;
    hide InvAt, Handle, HandleEstablished, SendOnce, SendSize, Others, NextInFlight;
    var u: nat :| TilesAt(s, u);
    assert TilesAt(TakeStep(s, step), u) by {
      hide ListTiles;
      if step.Send? {
        var f := NextInFlight(s.x.snd, step.now);
        var m: nat :| InvAt(s, m);
        NextSegment(s, m, step.now);
        SendEffect(s, step.now);
        hide TakeStep;
        SendTiles(s.x.snd, s.pieces, s.x.snd.iss + 1, u, f, s.x.snd.nxt + f.length);
      } else if step.Expire? {
        ExpireTiles(s.x, s.pieces, s.x.snd.iss + 1, u, step.now);
      }
    }
    hide TilesAt;
  }

  /** Whatever the step, no segment from UNA on is forgotten exactly if it spares them. */
  lemma StepCoversIff(s: Flow, step: Step)
    requires Inv(s) && ListTiles(s) && CanStep(s, step)
    ensures Spares(s, step) ==> ListTiles(TakeStep(s, step)) && AckFits(s, step)
    ensures NoneForgotten(TakeStep(s, step)) <==> Spares(s, step)
  {
    if step.AckArrives? {
      AckCoversIff(s, step.i);
    } else {
      OtherStepCovers(s, step);
      hide ListTiles, Inv, TakeStep, NoneForgotten;
      TilesMeanNoneForgotten(TakeStep(s, step));
    }
  }

  // ------------------------------------------------------------ every run

  predicate AllSpare(s: Flow, steps: seq<Step>)
    decreases |steps|
  {
    steps == [] || (CanStep(s, steps[0]) && Spares(s, steps[0]) && AllSpare(TakeStep(s, steps[0]), steps[1..]))
  }

  /** In no state of the run is a segment from UNA on forgotten. */
  ghost predicate NeverForgets(s: Flow, steps: seq<Step>)
    decreases |steps|
  {
    NoneForgotten(s) && (steps == [] || (CanStep(s, steps[0]) && NeverForgets(TakeStep(s, steps[0]), steps[1..])))
  }

  lemma {:induction false} RunCoversIff(s: Flow, steps: seq<Step>)
    requires Inv(s) && ListTiles(s) && Run(s, steps)
    ensures NeverForgets(s, steps) <==> AllSpare(s, steps)
    ensures AllSpare(s, steps) ==> AcksFit(s, steps)
    decreases |steps|
  {
    TilesMeanNoneForgotten(s);
    hide Inv, ListTiles, AckFits, Spares, NoneForgotten;
    if steps != [] {
      StepKeepsIff(s, steps[0]);
      StepCoversIff(s, steps[0]);
      if Spares(s, steps[0]) {
        RunCoversIff(TakeStep(s, steps[0]), steps[1..]);
      } else {
        assert !NeverForgets(TakeStep(s, steps[0]), steps[1..]);
      }
    }
  }

  /** UNA never moves back. */
  lemma UnaGrows(s: Flow, step: Step)
    requires Inv(s) && CanStep(s, step)
    ensures TakeStep(s, step).x.snd.una >= s.x.snd.una && TakeStep(s, step).x.snd.iss == s.x.snd.iss
  {
    if step.AckArrives? {
      var m: nat :| InvAt(s, m);
      AckFacts(s, step.i, s.x.snd.iss + 1);
      AckEffect(s, step.i);
    }
    hide InvAt, HandleEstablished, Handle, SendSize;
  }

  lemma {:induction false} RunTiles(s: Flow, steps: seq<Step>)
    requires Inv(s) && ListTiles(s) && Run(s, steps) && AllSpare(s, steps)
    ensures ListTiles(After(s, steps))
    ensures After(s, steps).x.snd.una >= s.x.snd.una && After(s, steps).x.snd.iss == s.x.snd.iss
    decreases |steps|
  {
    hide Inv, ListTiles, AckFits, Spares, NoneForgotten;
    if steps != [] {
      StepKeepsIff(s, steps[0]);
      StepCoversIff(s, steps[0]);
      UnaGrows(s, steps[0]);
      RunTiles(TakeStep(s, steps[0]), steps[1..]);
    }
  }

  /**
   In every state of a run, whatever is retransmitted and however often, all segments from UNA on
   are in flight exactly when no acknowledgement of the run is accepted while a packet without a
   length has its number.  In such a run the window fits as well.
   */
  lemma NothingUnackedIsForgottenIff(s: Flow, steps: seq<Step>)
    requires Init(s) && Run(s, steps)
    ensures NeverForgets(s, steps) <==> AllSpare(s, steps)
    ensures AllSpare(s, steps) ==> AcksFit(s, steps)
  {
    InitHolds(s);
    assert TilesAt(s, 0);
    RunCoversIff(s, steps);
  }

  /**
   After such a run the in-flight packets, taken by number and data, are exactly the segments of
   [UNA, NXT): no unacknowledged byte is forgotten.
   */
  lemma NothingUnackedIsForgotten(s: Flow, steps: seq<Step>) returns (u: nat)
    requires Init(s) && Run(s, steps) && AllSpare(s, steps)
    ensures var t := After(s, steps);
            var base := t.x.snd.iss + 1;
            && u <= |t.pieces|
            && (t.x.snd.una == Start(t.pieces, base, u) || (u == 0 && t.x.snd.una == s.x.snd.una == s.x.snd.iss))
            && t.x.snd.nxt == Start(t.pieces, base, |t.pieces|)
            && Covered(t.x.snd.inFlight, t.pieces, base, u)
            && OnlyPieces(t.x.snd.inFlight, t.pieces, base, u)
  {
    InitHolds(s);
    assert TilesAt(s, 0);
    RunTiles(s, steps);
    u :| TilesAt(After(s, steps), u);
  }

  // ------------------------------------------------- one retransmission at a time

  /** Packets that still have their length are in order of their numbers. */
  predicate Ordered(l: seq<InFlight>) {
    l == [] || (
      && (Full(l[0]) ==> forall f :: f in l[1..] && Full(f) ==> l[0].seqNum < f.seqNum)
      && Ordered(l[1..]))
  }

  lemma {:induction false} KeepOrdered(l: seq<InFlight>, ack: uint32)
    requires Ordered(l)
    ensures Ordered(Keep(l, ack))
  {
    if l != [] {
      KeepOrdered(l[1..], ack);
    }
  }

  lemma {:induction false} OthersOrdered(l: seq<InFlight>, n: uint32)
    requires Ordered(l)
    ensures Ordered(Others(l, n))
  {
    if l != [] {
      OthersOrdered(l[1..], n);
    }
  }

  lemma {:induction false} AppendOrdered(l: seq<InFlight>, f: InFlight)
    requires Ordered(l)
    requires Full(f) ==> forall p :: p in l && Full(p) ==> p.seqNum < f.seqNum
    ensures Ordered(l + [f])
  {
    if l != [] {
      AppendOrdered(l[1..], f);
      assert (l + [f])[1..] == l[1..] + [f];
    } else {
      assert l + [f] == [f] && [f][1..] == [];
    }
  }

  /** UNA is past the SYN; only the packet there may have lost its length, after a retransmission. */
  predicate Resent(s: Snd) {
    && s.una > s.iss && Ordered(s.inFlight)
    && forall f :: f in s.inFlight ==> Full(f) || (f.length == 0 && f.seqNum == s.una && s.retransmissions > 0)
  }

  /** The first packet at or above UNA, which is the one retransmitted, starts at UNA. */
  lemma RetransmitsUna(s: Snd, pieces: seq<seq<byte>>, u: nat)
    requires InFlightTiles(s, pieces, s.iss + 1, u) && Resent(s) && s.retransmissions == 0 && CanRetransmit(s)
    ensures FirstUnacked(s.inFlight, s.una) == 0 && s.inFlight[0].seqNum == s.una
    ensures u < |pieces| && s.inFlight[0].data == pieces[u]
  {
    hide NumberedApart, NonEmpty;
    var base := s.iss + 1;
    var l := s.inFlight;
    var f := l[0];
    assert f in l;
    var k: nat :| u <= k && IsPieceAt(pieces, base, f.seqNum, f.data, k);
    StartsOrdered(pieces, base, u, k);
    assert Holds(l, pieces, base, u);
    var g :| g in l && IsPieceAt(pieces, base, g.seqNum, g.data, u);
    assert l == [f] + l[1..];
  }

  lemma ExpireResends(k: Sock, pieces: seq<seq<byte>>, u: nat, now: int)
    requires InFlightTiles(k.snd, pieces, k.snd.iss + 1, u) && Resent(k.snd)
    requires k.snd.retransmissions == 0 && CanRetransmit(k.snd)
    ensures Resent(Retransmit(k, now).0.snd)
  {
    var s := k.snd;
    RetransmitsUna(s, pieces, u);
    var f := s.inFlight[0];
    var f' := f.(length := 0, timeSent := now);
    assert IsPieceAt(pieces, s.iss + 1, f.seqNum, f.data, u);
    OthersOrdered(s.inFlight, f.seqNum);
    AppendOrdered(Others(s.inFlight, f.seqNum), f');
  }

  lemma SendResends(s: Flow, now: int)
    requires Inv(s) && ListTiles(s) && Resent(s.x.snd) && SendSize(s.x.snd) > 0
    ensures Resent(TakeStep(s, Send(now)).x.snd)
  {
    hide ReceiverTiles, AcksInOrder, OnlyPieceData, InFlightPieces, WindowFits, TakeStep, SendSize, Covered;
    var u: nat :| TilesAt(s, u);
    var f := NextInFlight(s.x.snd, now);
    var m: nat :| InvAt(s, m);
    NextSegment(s, m, now);
    SendEffect(s, now);
    BelowNext(s.x.snd.inFlight, s.pieces, s.x.snd.iss + 1, u);
    hide InvAt, NextInFlight, OnlyPieces, NonEmpty, Start;
    AppendOrdered(s.x.snd.inFlight, f);
  }

  /** What an accepted acknowledgement leaves has its length: the packet at the old UNA is gone. */
  lemma AckResends(s: Snd, ack: uint32)
    requires Resent(s)
    ensures Resent(ProcessAck(s, ack))
  {
    if s.inFlight != [] && ack > s.una {
      KeepOrdered(s.inFlight, ack);
    }
  }

  lemma NewAckResends(s: Flow, i: nat)
    requires Inv(s) && Resent(s.x.snd) && i < |s.acks|
    ensures Spares(s, AckArrives(i)) && Resent(TakeStep(s, AckArrives(i)).x.snd)
  {
    var m: nat :| InvAt(s, m);
    AckFacts(s, i, s.x.snd.iss + 1);
    AckEffect(s, i);
    hide InvAt, TakeStep, ProcessAck, Ordered;
    AckResends(s.x.snd.(wnd := s.acks[i].window), s.acks[i].ackNum);
  }

  lemma StepResends(s: Flow, step: Step)
    requires Inv(s) && ListTiles(s) && Resent(s.x.snd) && CanStep(s, step)
    requires step.Expire? ==> s.x.snd.retransmissions == 0
    ensures Spares(s, step) && Resent(TakeStep(s, step).x.snd)
  {
    hide Inv, InFlightTiles, Ordered, HandleEstablished, SendOnce, SendSize;
    if step.Send? {
      SendResends(s, step.now);
    } else if step.Expire? {
      var u: nat :| TilesAt(s, u);
      ExpireResends(s.x, s.pieces, u, step.now);
    } else if step.AckArrives? {
      NewAckResends(s, step.i);
    }
  }

  /** No packet is retransmitted while the counter of retransmissions, reset by a new acknowledgement, is up. */
  predicate OneAtATime(s: Flow, steps: seq<Step>)
    decreases |steps|
  {
    steps == [] || (
      && CanStep(s, steps[0]) && (steps[0].Expire? ==> s.x.snd.retransmissions == 0)
      && OneAtATime(TakeStep(s, steps[0]), steps[1..]))
  }

  lemma {:induction false} RunResends(s: Flow, steps: seq<Step>)
    requires Inv(s) && ListTiles(s) && Resent(s.x.snd) && Run(s, steps) && OneAtATime(s, steps)
    ensures AllSpare(s, steps)
    decreases |steps|
  {
    hide Inv, ListTiles, Resent, AckFits, Spares, NoneForgotten;
    if steps != [] {
      StepResends(s, steps[0]);
      StepKeepsIff(s, steps[0]);
      StepCoversIff(s, steps[0]);
      RunResends(TakeStep(s, steps[0]), steps[1..]);
    }
  }

  /**
   For the side that opened the connection, at most one retransmission between accepted
   acknowledgements forgets nothing and overruns nothing.
   */
  lemma OneAtATimeIsSafe(s: Flow, steps: seq<Step>)
    requires Init(s) && Active(s) && Run(s, steps) && OneAtATime(s, steps)
    ensures NeverForgets(s, steps) && AlwaysFits(s, steps)
  {
    InitHolds(s);
    assert TilesAt(s, 0);
    RunResends(s, steps);
    NothingUnackedIsForgottenIff(s, steps);
    FlowIsControlledIff(s, steps);
  }
}
