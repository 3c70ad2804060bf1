/**
 The receiver.  First, byte by byte: if every segment carries the bytes of one stream, so does
 what is delivered.  Then, segment by segment: pieces that tile a stream are put back together
 whatever order they arrive in.
 */
module Reassembly {
  import opened Bytes
  import opened Tcp

  // ------------------------------------------------------------ streams of bytes

  /** The segment holds exactly the bytes of `stream` that its number says, counting from `base`. */
  predicate Carries(stream: seq<byte>, base: nat, seqNum: nat, data: seq<byte>) {
    && base <= seqNum
    && seqNum - base + |data| <= |stream|
    && stream[seqNum - base..seqNum - base + |data|] == data
  }

  /** What has been delivered, and what waits out of order, are bytes of `stream`. */
  predicate Faithful(r: Rcv, stream: seq<byte>, base: nat) {
    && base + |stream| < TWO32
    && r.nxt == base + |r.Log()|
    && r.Log() <= stream
    && forall e :: e in r.early ==> Carries(stream, base, e.seqNum, e.data)
  }

  lemma CarriesGrows(stream: seq<byte>, more: seq<byte>, base: nat, seqNum: nat, data: seq<byte>)
    requires Carries(stream, base, seqNum, data)
    ensures Carries(stream + more, base, seqNum, data)
  {
  }

  lemma FaithfulGrows(r: Rcv, stream: seq<byte>, more: seq<byte>, base: nat)
    requires Faithful(r, stream, base) && base + |stream + more| < TWO32
    ensures Faithful(r, stream + more, base)
  {
    forall e | e in r.early ensures Carries(stream + more, base, e.seqNum, e.data) {
      CarriesGrows(stream, more, base, e.seqNum, e.data);
    }
  }

  lemma PutFaithful(r: Rcv, p: seq<byte>, stream: seq<byte>, base: nat)
    requires Faithful(r, stream, base) && Carries(stream, base, r.nxt, p)
    ensures Faithful(Put(r, p), stream, base)
  {
    var n := |r.Log()|;
    assert stream[..n + |p|] == stream[..n] + stream[n..n + |p|];
  }

  lemma RemoveAtIn<T>(s: seq<T>, i: nat)
    requires i < |s|
    ensures forall x :: x in RemoveAt(s, i) ==> x in s
    ensures forall x :: x in s && x != s[i] ==> x in RemoveAt(s, i)
  {
    assert s == s[..i] + [s[i]] + s[i + 1..];
  }

  /** The drain loop of processInOrderData keeps to the stream and leaves nothing it could use. */
  lemma {:induction false} DrainFaithful(r: Rcv, stream: seq<byte>, base: nat)
    requires Faithful(r, stream, base)
    ensures Faithful(Drain(r), stream, base)
    ensures r.Log() <= Drain(r).Log()
    ensures forall e :: e in Drain(r).early ==> e in r.early && e.seqNum != Drain(r).nxt
    decreases |r.early|
  {
    var i := FindSeq(r.early, r.nxt);
    if i < |r.early| {
      RemoveAtIn(r.early, i);
      PutFaithful(r, r.early[i].data, stream, base);
      DrainFaithful(Put(r, r.early[i].data).(early := RemoveAt(r.early, i)), stream, base);
    }
  }

  lemma HandleDataFaithful(k: Sock, seg: Segment, stream: seq<byte>, base: nat)
    requires Faithful(k.rcv, stream, base)
    requires Carries(stream, base, seg.seqNum, seg.payload)
    ensures Faithful(HandleData(k, seg).0.rcv, stream, base)
    ensures k.rcv.Log() <= HandleData(k, seg).0.rcv.Log()
    ensures HandleData(k, seg).0.snd == k.snd
    ensures forall s :: s in HandleData(k, seg).1 ==> s.payload == []
  {
    if seg.seqNum == k.rcv.nxt {
      PutFaithful(k.rcv, seg.payload, stream, base);
      DrainFaithful(Put(k.rcv, seg.payload), stream, base);
    }
  }

  // ------------------------------------------------------------ pieces that tile

  function Stream(pieces: seq<seq<byte>>): seq<byte> {
    if pieces == [] then [] else Stream(pieces[..|pieces| - 1]) + pieces[|pieces| - 1]
  }

  /** The number of the first byte of piece `k`. */
  function Start(pieces: seq<seq<byte>>, base: nat, k: nat): nat
    requires k <= |pieces|
  {
    base + |Stream(pieces[..k])|
  }

  predicate NonEmpty(pieces: seq<seq<byte>>) {
    forall k :: 0 <= k < |pieces| ==> |pieces[k]| > 0
  }

  lemma NextStart(pieces: seq<seq<byte>>, base: nat, k: nat)
    requires k < |pieces|
    ensures Stream(pieces[..k + 1]) == Stream(pieces[..k]) + pieces[k]
    ensures Start(pieces, base, k + 1) == Start(pieces, base, k) + |pieces[k]|
  {
    assert pieces[..k + 1][..k] == pieces[..k];
  }

  lemma {:induction false} StartsOrdered(pieces: seq<seq<byte>>, base: nat, j: nat, k: nat)
    requires j <= k <= |pieces|
    ensures Stream(pieces[..j]) <= Stream(pieces[..k])
    ensures NonEmpty(pieces) && j < k ==> Start(pieces, base, j) + |pieces[j]| <= Start(pieces, base, k)
    ensures NonEmpty(pieces) && j < k ==> Start(pieces, base, j) < Start(pieces, base, k)
    decreases k - j
  {
    if j < k {
      NextStart(pieces, base, j);
      StartsOrdered(pieces, base, j + 1, k);
    }
  }

  predicate IsPieceAt(pieces: seq<seq<byte>>, base: nat, seqNum: nat, data: seq<byte>, k: nat) {
    k < |pieces| && seqNum == Start(pieces, base, k) && data == pieces[k]
  }

  ghost predicate IsPiece(pieces: seq<seq<byte>>, base: nat, seqNum: nat, data: seq<byte>) {
    exists k: nat :: IsPieceAt(pieces, base, seqNum, data, k)
  }

  /** The receiver has delivered exactly the first `m` pieces, and holds only pieces. */
  ghost predicate Tiled(r: Rcv, pieces: seq<seq<byte>>, base: nat, m: nat) {
    && NonEmpty(pieces)
    && m <= |pieces|
    && Start(pieces, base, |pieces|) < TWO32
    && r.nxt == Start(pieces, base, m)
    && r.Log() == Stream(pieces[..m])
    && forall e :: e in r.early ==> IsPiece(pieces, base, e.seqNum, e.data)
  }

  /** Piece `k` has arrived: it is delivered, or it waits in the list. */
  ghost predicate Arrived(r: Rcv, pieces: seq<seq<byte>>, base: nat, m: nat, k: nat) {
    k < m || exists e :: e in r.early && IsPieceAt(pieces, base, e.seqNum, e.data, k)
  }

  /** A piece that starts at the next expected number is the next piece. */
  lemma PieceAtNext(pieces: seq<seq<byte>>, base: nat, m: nat, data: seq<byte>)
    requires NonEmpty(pieces) && m <= |pieces|
    requires IsPiece(pieces, base, Start(pieces, base, m), data)
    ensures m < |pieces| && data == pieces[m]
  {
    var k: nat :| IsPieceAt(pieces, base, Start(pieces, base, m), data, k);
    StartsOrdered(pieces, base, Min(k, m), if k < m then m else k);
  }

  lemma PutTiled(r: Rcv, data: seq<byte>, pieces: seq<seq<byte>>, base: nat, m: nat)
    requires Tiled(r, pieces, base, m) && IsPiece(pieces, base, r.nxt, data)
    ensures m < |pieces| && Tiled(Put(r, data), pieces, base, m + 1)
  {
    PieceAtNext(pieces, base, m, data);
    NextStart(pieces, base, m);
    StartsOrdered(pieces, base, m + 1, |pieces|);
    assert pieces[..|pieces|] == pieces;
  }

  /** Draining delivers further whole pieces, forgets none, and stops only when the next is missing. */
  lemma {:induction false} DrainTiled(r: Rcv, pieces: seq<seq<byte>>, base: nat, m: nat) returns (m': nat)
    requires Tiled(r, pieces, base, m)
    ensures m <= m' && Tiled(Drain(r), pieces, base, m')
    ensures forall e :: e in Drain(r).early ==> e in r.early && e.seqNum != Drain(r).nxt
    ensures forall e :: e in r.early && e.seqNum >= Drain(r).nxt ==> e in Drain(r).early
    decreases |r.early|
  {
    var i := FindSeq(r.early, r.nxt);
    m' := m;
    if i < |r.early| {
      var e := r.early[i];
      RemoveAtIn(r.early, i);
      PutTiled(r, e.data, pieces, base, m);
      NextStart(pieces, base, m);
      m' := DrainTiled(Put(r, e.data).(early := RemoveAt(r.early, i)), pieces, base, m + 1);
      StartsOrdered(pieces, base, m + 1, m');
    }
  }

  lemma HandleDataTiled(k: Sock, seg: Segment, pieces: seq<seq<byte>>, base: nat, m: nat) returns (m': nat)
    requires Tiled(k.rcv, pieces, base, m)
    requires IsPiece(pieces, base, seg.seqNum, seg.payload)
    requires forall e :: e in k.rcv.early ==> e.seqNum != k.rcv.nxt
    ensures var r := HandleData(k, seg).0.rcv;
            && m <= m' && Tiled(r, pieces, base, m')
            && (forall e :: e in r.early ==> e.seqNum != r.nxt)
            && (forall e :: e in k.rcv.early + [Early(seg.seqNum, seg.payload)] && e.seqNum >= r.nxt ==> e in r.early)
  {
    m' := m;
    if seg.seqNum == k.rcv.nxt {
      PutTiled(k.rcv, seg.payload, pieces, base, m);
      NextStart(pieces, base, m);
      m' := DrainTiled(Put(k.rcv, seg.payload), pieces, base, m + 1);
      StartsOrdered(pieces, base, m + 1, m');
    }
  }
}
