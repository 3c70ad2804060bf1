/**
 A TCP stack as a whole: its table, HandlePacket on any packet, the user calls and the timers.
 Every connection moves along a ranked set of edges, reaching CLOSED removes exactly its entry,
 and a child connection is put on its listener's accept queue once.
 */
module Lifecycle {
  import opened Addresses
  import opened Bytes
  import opened Tcp
  import opened TcpTable
  import Slices

  /** One send on a listening socket's acceptQueue. */
  datatype Accept = Accept(listener: nat, child: nat)

  /** `accepts` records every send on an accept queue, in order. */
  datatype Stack = Stack(table: seq<Entry>, nextSid: nat, accepts: seq<Accept>)

  const EMPTY := Stack([], 0, [])

  datatype Packet = Packet(src: Addr, srcPort: uint16, dstPort: uint16, seg: Segment)

  datatype Event =
    | Arrives(p: Packet, iss: uint32, now: int)
    | UserClose(i: nat, now: int)
    | Expires(i: nat)                                    // 2*MSL after TIME_WAIT was entered
    | HandshakeTimeout(i: nat)
    | UserConnect(localPort: uint16, remoteAddr: Addr, remotePort: uint16, iss: uint32, now: int)
    | UserListen(localPort: uint16)
    | Works(i: nat, sock: Sock)                          // VWrite, VRead, a probe or a retransmission

  function ConnOf(e: Entry): Conn
    requires e.body.Normal?
  {
    Conn(e.state, e.body.sock)
  }

  function WithConn(e: Entry, c: Conn): Entry {
    e.(state := c.state, body := Normal(c.sock))
  }

  /** The entry handleSYN inserts for a SYN from `p`. */
  function ChildEntry(ts: Stack, e: Entry, p: Packet, iss: uint32, now: int): Entry {
    var c := Child(p.seg, iss, now).0;
    Entry(e.localPort, p.src, p.srcPort, c.state, ts.nextSid, Normal(c.sock))
  }

  /** handleSYN: a child entry at the end of the table, accepted already if the SYN carries an ACK. */
  function HandleSyn(ts: Stack, i: nat, p: Packet, iss: uint32, now: int): Stack
    requires i < |ts.table|
  {
    Stack(ts.table + [ChildEntry(ts, ts.table[i], p, iss, now)], ts.nextSid + 1,
          if p.seg.flags.ack then ts.accepts + [Accept(ts.table[i].sid, ts.nextSid)] else ts.accepts)
  }

  /** handleACK's send to the parent: the listener on the same port, if there is one. */
  function Promote(t: seq<Entry>, accepts: seq<Accept>, e: Entry): seq<Accept> {
    var j := Find(t, e.localPort, NoAddr, 0);
    if j < |t| && t[j].state == Listen then accepts + [Accept(t[j].sid, e.sid)] else accepts
  }

  /** Whether the handler ends in VDeleteTableEntry. */
  predicate Removes(e: Entry, seg: Segment) {
    seg.flags.rst || (e.state == LastAck && seg.flags.ack)
  }

  function HandleNormal(ts: Stack, i: nat, seg: Segment): Stack
    requires i < |ts.table| && ts.table[i].body.Normal? && ts.table[i].state != Listen
  {
    var e := ts.table[i];
    var e' := WithConn(e, Handle(ConnOf(e), seg).0);
    var t := ts.table[i := e'];
    if Removes(e, seg) then ts.(table := Without(t, e'))
    else if e.state == SynReceived && seg.flags.ack then ts.(table := t, accepts := Promote(t, ts.accepts, e'))
    else ts.(table := t)
  }

  predicate SameKey(a: Entry, b: Entry) {
    a.localPort == b.localPort && a.remoteAddr == b.remoteAddr && a.remotePort == b.remotePort
  }

  predicate GoodEntry(e: Entry, nextSid: nat) {
    && e.sid < nextSid
    && e.state != Closed && e.state != Closing
    && (e.state == Listen <==> e.body.Listener?)
    && (e.state == Listen <==> e.remoteAddr == ANY && e.remotePort == 0)
    && e.remoteAddr != NoAddr
  }

  /** Distinct sockets; one entry per connection; listeners, and only they, have the wildcard key. */
  predicate WellFormed(ts: Stack) {
    && DistinctSids(ts.table)
    && (forall i :: 0 <= i < |ts.table| ==> GoodEntry(ts.table[i], ts.nextSid))
    && (forall i, j :: 0 <= i < j < |ts.table| && ts.table[i].state != Listen ==> !SameKey(ts.table[i], ts.table[j]))
    && (forall a :: a in ts.accepts ==> a.child < ts.nextSid)
  }

  function HandlePacket(ts: Stack, p: Packet, iss: uint32, now: int): Stack
    requires WellFormed(ts)
  {
    var i := Find(ts.table, p.dstPort, p.src, p.srcPort);
    if i == |ts.table| then ts
    else if ts.table[i].state == Listen then
      if p.seg.flags.syn then HandleSyn(ts, i, p, iss, now) else ts
    else HandleNormal(ts, i, p.seg)
  }

  /** A packet from a real endpoint, which the wildcard address and port are not. */
  predicate FromEndpoint(addr: Addr, port: uint16) {
    addr != NoAddr && !(addr == ANY && port == 0)
  }

  predicate CanHappen(ts: Stack, ev: Event) {
    match ev
    case Arrives(p, _, _) => FromEndpoint(p.src, p.srcPort)
    case UserClose(i, _) => i < |ts.table| && ts.table[i].body.Normal?
    case Expires(i) => i < |ts.table| && ts.table[i].state == TimeWait
    case HandshakeTimeout(i) => i < |ts.table| && ts.table[i].state == SynSent
    case UserConnect(lp, ra, rp, _, _) =>
      FromEndpoint(ra, rp) && forall k :: 0 <= k < |ts.table| ==> !Matches(ts.table[k], lp, ra, rp)
    case UserListen(_) => true
    case Works(i, _) => i < |ts.table| && ts.table[i].body.Normal?
  }

  /** VClose looks its own entry up by its addresses and ports. */
  function CloseAt(ts: Stack, i: nat, now: int): Stack
    requires WellFormed(ts) && i < |ts.table| && ts.table[i].body.Normal?
  {
    var k := ts.table[i];
    var j := Find(ts.table, k.localPort, k.remoteAddr, k.remotePort);
    if j < |ts.table| && ts.table[j].body.Normal? && CanClose(ConnOf(ts.table[j])) then
      ts.(table := ts.table[j := WithConn(ts.table[j], Close(ConnOf(ts.table[j]), now).0)])
    else ts
  }

  function Happen(ts: Stack, ev: Event): Stack
    requires WellFormed(ts) && CanHappen(ts, ev)
  {
    match ev
    case Arrives(p, iss, now) => HandlePacket(ts, p, iss, now)
    case UserClose(i, now) => CloseAt(ts, i, now)
    case Expires(i) =>
      var e := ts.table[i].(state := Closed);
      ts.(table := Without(ts.table[i := e], e))
    case HandshakeTimeout(i) => ts.(table := Without(ts.table, ts.table[i]))
    case UserConnect(lp, ra, rp, iss, now) =>
      var c := Connect(iss, now).0;
      ts.(table := ts.table + [Entry(lp, ra, rp, c.state, ts.nextSid, Normal(c.sock))], nextSid := ts.nextSid + 1)
    case Works(i, sock) => ts.(table := ts.table[i := ts.table[i].(body := Normal(sock))])
    case UserListen(lp) =>
      ts.(table := ts.table + [Entry(lp, ANY, 0, Listen, ts.nextSid, Listener)], nextSid := ts.nextSid + 1)
  }

  // ------------------------------------------------------------------ the edges

  /** The edges of section 3.3.2 of RFC 9293 that the code can take, and RST or a give-up to CLOSED. */
  predicate Edge(s: TcpState, s': TcpState) {
    || (s == SynSent && s' == Established)
    || (s == SynReceived && s' == Established)
    || (s == Established && (s' == FinWait1 || s' == CloseWait))
    || (s == FinWait1 && s' == FinWait2)
    || (s == FinWait2 && s' == TimeWait)
    || (s == CloseWait && s' == LastAck)
    || (s != Listen && s != Closed && s' == Closed)
  }

  function Rank(s: TcpState): nat {
    match s
    case Listen => 0
    case SynSent => 0
    case SynReceived => 0
    case Established => 1
    case FinWait1 => 2
    case CloseWait => 2
    case FinWait2 => 3
    case Closing => 3
    case LastAck => 3
    case TimeWait => 4
    case Closed => 5
  }

  /** One packet moves a connection along at most one edge, into CLOSED exactly when it is removed. */
  lemma HandleTakesAnEdge(c: Conn, seg: Segment)
    requires c.state != Listen && c.state != Closed && c.state != Closing
    ensures var s := Handle(c, seg).0.state;
            && (s == c.state || Edge(c.state, s))
            && (s == Closed <==> seg.flags.rst || (c.state == LastAck && seg.flags.ack))
            && (c.state == SynReceived ==> (s == Established <==> seg.flags.ack && !seg.flags.rst))
            && s != Listen && s != Closing
  {
    hide HandleEstablished, CleanUp, AckSegment;
  }

  // ------------------------------------------------------------------ the table

  /** What one event does to the table: nothing, an edge at one place, a new end, or a removal. */
  datatype Change =
    | NoChange
    | At(i: nat)
    | Appended
    | Removed(i: nat)

  ghost predicate Describes(ch: Change, t: seq<Entry>, t': seq<Entry>, nextSid: nat) {
    match ch
    case NoChange => t' == t
    case At(i) =>
      && i < |t| && |t'| == |t| && t' == t[i := t'[i]]
      && SameKey(t[i], t'[i]) && t'[i].sid == t[i].sid && t'[i].body.Normal? && t[i].body.Normal?
      && (t'[i].state == t[i].state || (Edge(t[i].state, t'[i].state) && t'[i].state != Closed))
    case Appended =>
      && |t'| == |t| + 1 && t' == t + [t'[|t|]]
      && t'[|t|].sid == nextSid
    case Removed(i) =>
      i < |t| && t' == RemoveAt(t, i) && Edge(t[i].state, Closed)
  }

  /** An entry is found by its own addresses and ports. */
  lemma FindsItself(ts: Stack, i: nat)
    requires WellFormed(ts) && i < |ts.table| && ts.table[i].state != Listen
    ensures var e := ts.table[i]; Find(ts.table, e.localPort, e.remoteAddr, e.remotePort) == i
  {
    var e := ts.table[i];
    var j := Find(ts.table, e.localPort, e.remoteAddr, e.remotePort);
    assert Matches(ts.table[i], e.localPort, e.remoteAddr, e.remotePort);
    if j < i {
      assert ts.table[j] in ts.table && ts.table[i] in ts.table;
      assert SameKey(ts.table[j], ts.table[i]);
    }
  }

  lemma RemoveUpdated(t: seq<Entry>, i: nat, e: Entry)
    requires DistinctSids(t) && i < |t| && e.sid == t[i].sid
    ensures Without(t[i := e], e) == RemoveAt(t, i)
  {
    WithoutAt(t[i := e], i);
    assert RemoveAt(t[i := e], i) == RemoveAt(t, i);
  }

  ghost predicate HasListener(t: seq<Entry>, localPort: uint16) {
    exists j :: 0 <= j < |t| && Listens(t[j], localPort)
  }

  /** Each connection in SYN_RECEIVED has its listener in the table. */
  ghost predicate HasParents(t: seq<Entry>) {
    forall i :: 0 <= i < |t| && t[i].state == SynReceived ==> HasListener(t, t[i].localPort)
  }

  /** The event is a SYN to a listener that also carries an ACK. */
  predicate SynWithAck(ts: Stack, ev: Event) {
    ev.Arrives? && ev.p.seg.flags.syn && ev.p.seg.flags.ack
    && var i := Find(ts.table, ev.p.dstPort, ev.p.src, ev.p.srcPort);
       i < |ts.table| && ts.table[i].state == Listen
  }

  /** The entry at `i` has just been promoted from SYN_RECEIVED to ESTABLISHED. */
  predicate Promotes(ch: Change, t: seq<Entry>, t': seq<Entry>) {
    ch.At? && ch.i < |t| && ch.i < |t'| && t[ch.i].state == SynReceived && t'[ch.i].state == Established
  }

  /** What one event makes of the stack: a change in one place, and its send on an accept queue. */
  ghost predicate Effect(ts: Stack, ts': Stack, ch: Change, early: bool) {
    && Describes(ch, ts.table, ts'.table, ts.nextSid)
    && ts'.nextSid == ts.nextSid + (if ch.Appended? then 1 else 0)
    && (early ==> ch.Appended?)
    && (ch.At? ==> ts'.table[ch.i].state != Listen && ts'.table[ch.i].state != Closing)
    && (ch.Appended? ==>
          && GoodEntry(ts'.table[|ts.table|], ts'.nextSid)
          && (ts'.table[|ts.table|].state == SynReceived ==> HasListener(ts.table, ts'.table[|ts.table|].localPort))
          && (ts'.table[|ts.table|].state != Listen ==>
                forall i :: 0 <= i < |ts.table| ==> !SameKey(ts.table[i], ts'.table[|ts.table|])))
    && (if Promotes(ch, ts.table, ts'.table)
        then exists l :: ts'.accepts == ts.accepts + [Accept(l, ts.table[ch.i].sid)]
        else if early
        then exists l :: ts'.accepts == ts.accepts + [Accept(l, ts.nextSid)]
        else ts'.accepts == ts.accepts)
  }

  /** handleACK finds a listening parent: no entry has the empty address as its remote end. */
  lemma ParentIsFound(ts: Stack, i: nat, e: Entry)
    requires WellFormed(ts) && HasParents(ts.table) && i < |ts.table| && ts.table[i].state == SynReceived
    requires SameKey(e, ts.table[i]) && e.state == Established
    ensures var t := ts.table[i := e];
            var j := Find(t, e.localPort, NoAddr, 0);
            j < |t| && t[j].state == Listen
  {
    var t := ts.table[i := e];
    var k :| 0 <= k < |ts.table| && Listens(ts.table[k], e.localPort);
    assert Listens(t[k], e.localPort);
    assert forall n :: 0 <= n < |t| ==> GoodEntry(ts.table[n], ts.nextSid) && !Matches(t[n], e.localPort, NoAddr, 0);
  }

  lemma NormalEffect(ts: Stack, i: nat, seg: Segment) returns (ch: Change)
    requires WellFormed(ts) && HasParents(ts.table)
    requires i < |ts.table| && ts.table[i].body.Normal? && ts.table[i].state != Listen
    ensures Effect(ts, HandleNormal(ts, i, seg), ch, false)
    ensures ch == if Removes(ts.table[i], seg) then Removed(i) else At(i)
  {
    hide Handle, Find;
    var e := ts.table[i];
    assert GoodEntry(e, ts.nextSid);
    HandleTakesAnEdge(ConnOf(e), seg);
    var e' := WithConn(e, Handle(ConnOf(e), seg).0);
    ch := if Removes(e, seg) then Removed(i) else At(i);
    if Removes(e, seg) {
      RemoveUpdated(ts.table, i, e');
    } else if e.state == SynReceived && seg.flags.ack {
      ParentIsFound(ts, i, e');
    }
  }

  lemma PacketEffect(ts: Stack, p: Packet, iss: uint32, now: int)
    requires WellFormed(ts) && HasParents(ts.table) && FromEndpoint(p.src, p.srcPort)
    ensures exists ch :: Effect(ts, HandlePacket(ts, p, iss, now), ch, SynWithAck(ts, Arrives(p, iss, now)))
  {
    var i := Find(ts.table, p.dstPort, p.src, p.srcPort);
    var ch := NoChange;
    if i < |ts.table| {
      assert GoodEntry(ts.table[i], ts.nextSid);
      if ts.table[i].state != Listen {
        ch := NormalEffect(ts, i, p.seg);
      } else if p.seg.flags.syn {
        ch := Appended;
        assert Listens(ts.table[i], p.dstPort);
      }
    }
    assert Effect(ts, HandlePacket(ts, p, iss, now), ch, SynWithAck(ts, Arrives(p, iss, now)));
  }

  /** Every event changes the table in one place at most; the other entries keep their order. */
  lemma EventEffect(ts: Stack, ev: Event) returns (ch: Change)
    requires WellFormed(ts) && HasParents(ts.table) && CanHappen(ts, ev)
    ensures Effect(ts, Happen(ts, ev), ch, SynWithAck(ts, ev))
  {
    match ev
    case Arrives(p, iss, now) =>
      PacketEffect(ts, p, iss, now);
      ch :| Effect(ts, HandlePacket(ts, p, iss, now), ch, SynWithAck(ts, ev));
    case UserClose(i, now) =>
      assert GoodEntry(ts.table[i], ts.nextSid);
      FindsItself(ts, i);
      ch := if CanClose(ConnOf(ts.table[i])) then At(i) else NoChange;
    case Expires(i) =>
      RemoveUpdated(ts.table, i, ts.table[i].(state := Closed));
      ch := Removed(i);
    case HandshakeTimeout(i) =>
      WithoutAt(ts.table, i);
      ch := Removed(i);
    case Works(i, _) =>
      assert GoodEntry(ts.table[i], ts.nextSid);
      ch := At(i);
    case _ => ch := Appended;
  }

  lemma UpdateKeeps(ts: Stack, ts': Stack, i: nat, e: Entry)
    requires WellFormed(ts) && HasParents(ts.table)
    requires i < |ts.table| && ts'.table == ts.table[i := e] && ts'.nextSid == ts.nextSid
    requires SameKey(ts.table[i], e) && e.sid == ts.table[i].sid && e.body.Normal? && ts.table[i].body.Normal?
    requires e.state != Listen && e.state != Closing && e.state != Closed
    requires e.state == ts.table[i].state || Edge(ts.table[i].state, e.state)
    requires forall a :: a in ts'.accepts ==> a.child < ts'.nextSid
    ensures WellFormed(ts') && HasParents(ts'.table)
  {
    var t, t' := ts.table, ts'.table;
    assert GoodEntry(t[i], ts.nextSid);
    assert forall k :: 0 <= k < |t| && k != i ==> t'[k] == t[k] && GoodEntry(t[k], ts.nextSid);
    forall k | 0 <= k < |t'| && t'[k].state == SynReceived ensures HasListener(t', t'[k].localPort) {
      assert t[k].state == SynReceived;
      var j :| 0 <= j < |t| && Listens(t[j], t'[k].localPort);
      assert Listens(t'[j], t'[k].localPort);
    }
  }

  lemma AppendKeeps(ts: Stack, ts': Stack, e: Entry)
    requires WellFormed(ts) && HasParents(ts.table)
    requires ts'.table == ts.table + [e] && ts'.nextSid == ts.nextSid + 1
    requires e.sid == ts.nextSid && GoodEntry(e, ts'.nextSid)
    requires e.state == SynReceived ==> HasListener(ts.table, e.localPort)
    requires e.state != Listen ==> forall k :: 0 <= k < |ts.table| ==> !SameKey(ts.table[k], e)
    requires forall a :: a in ts'.accepts ==> a.child < ts'.nextSid
    ensures WellFormed(ts') && HasParents(ts'.table)
  {
    var t, t' := ts.table, ts'.table;
    assert forall k :: 0 <= k < |t| ==> t'[k] == t[k] && GoodEntry(t[k], ts.nextSid);
    forall k | 0 <= k < |t'| && t'[k].state == SynReceived ensures HasListener(t', t'[k].localPort) {
      assert k < |t| ==> t[k].state == SynReceived;
      var j :| 0 <= j < |t| && Listens(t[j], t'[k].localPort);
      assert Listens(t'[j], t'[k].localPort);
    }
  }

  lemma RemoveKeepsParents(t: seq<Entry>, t': seq<Entry>, i: nat)
    requires HasParents(t) && i < |t| && t[i].state != Listen
    requires |t'| + 1 == |t| && forall k: nat :: k < |t'| ==> t'[k] == t[Slices.OldPlace(i, k)]
    ensures HasParents(t')
  {
    forall k: nat | k < |t'| && t'[k].state == SynReceived ensures HasListener(t', t'[k].localPort) {
      assert t[Slices.OldPlace(i, k)].state == SynReceived;
      var j :| 0 <= j < |t| && Listens(t[j], t'[k].localPort);
      assert Listens(t'[if j < i then j else j - 1], t'[k].localPort);
    }
  }

  lemma RemoveKeeps(ts: Stack, ts': Stack, i: nat)
    requires WellFormed(ts) && HasParents(ts.table)
    requires i < |ts.table| && ts'.table == RemoveAt(ts.table, i) && ts'.nextSid == ts.nextSid
    requires ts.table[i].state != Listen
    requires forall a :: a in ts'.accepts ==> a.child < ts'.nextSid
    ensures WellFormed(ts') && HasParents(ts'.table)
  {
    var t, t' := ts.table, ts'.table;
    assert forall k: nat :: k < |t'| ==> t'[k] == t[Slices.OldPlace(i, k)];
    RemoveKeepsParents(t, t', i);
    hide HasParents, RemoveAt, GoodEntry;
    assert forall k :: 0 <= k < |t| ==> GoodEntry(t[k], ts.nextSid);
  }

  lemma EffectKeeps(ts: Stack, ts': Stack, ch: Change, early: bool)
    requires WellFormed(ts) && HasParents(ts.table) && Effect(ts, ts', ch, early)
    ensures WellFormed(ts') && HasParents(ts'.table)
  {
    assert ch.At? ==> GoodEntry(ts.table[ch.i], ts.nextSid) && ts'.table[ch.i].state != Closed;
    assert forall a :: a in ts'.accepts ==> a.child < ts'.nextSid;
    hide HasParents, HasListener, GoodEntry, DistinctSids, SameKey;
    assert ch.NoChange? ==> WellFormed(ts');
    hide WellFormed;
    match ch
    case NoChange =>
    case At(i) => UpdateKeeps(ts, ts', i, ts'.table[i]);
    case Appended => AppendKeeps(ts, ts', ts'.table[|ts.table|]);
    case Removed(i) => RemoveKeeps(ts, ts', i);
  }

  // ------------------------------------------------------------------ one connection

  /** The state of a connection; one that has left the table is closed. */
  function StateOf(t: seq<Entry>, sid: nat): TcpState {
    if t == [] then Closed else if t[0].sid == sid then t[0].state else StateOf(t[1..], sid)
  }

  lemma {:induction false} StateAt(t: seq<Entry>, sid: nat, i: nat)
    requires DistinctSids(t) && i < |t| && t[i].sid == sid
    ensures StateOf(t, sid) == t[i].state
  {
    if i > 0 {
      assert t[1..][i - 1] == t[i];
      StateAt(t[1..], sid, i - 1);
    }
  }

  lemma {:induction false} StateAbsent(t: seq<Entry>, sid: nat)
    requires forall i :: 0 <= i < |t| ==> t[i].sid != sid
    ensures StateOf(t, sid) == Closed
  {
    if t != [] {
      assert forall i :: 0 <= i < |t[1..]| ==> t[1..][i] == t[i + 1];
      StateAbsent(t[1..], sid);
    }
  }

  lemma {:induction false} StateUpdated(t: seq<Entry>, i: nat, e: Entry, sid: nat)
    requires DistinctSids(t) && i < |t| && e.sid == t[i].sid
    ensures StateOf(t[i := e], sid) == if t[i].sid == sid then e.state else StateOf(t, sid)
  {
    if i > 0 {
      assert t[i := e][1..] == t[1..][i - 1 := e];
      StateUpdated(t[1..], i - 1, e, sid);
    }
  }

  lemma {:induction false} StateAppended(t: seq<Entry>, e: Entry, sid: nat)
    requires e.sid != sid
    ensures StateOf(t + [e], sid) == StateOf(t, sid)
  {
    if t == [] {
      assert (t + [e])[1..] == [];
    } else {
      assert (t + [e])[1..] == t[1..] + [e];
      StateAppended(t[1..], e, sid);
    }
  }

  lemma {:induction false} StateRemoved(t: seq<Entry>, i: nat, sid: nat)
    requires DistinctSids(t) && i < |t|
    ensures StateOf(RemoveAt(t, i), sid) == if t[i].sid == sid then Closed else StateOf(t, sid)
  {
    if i == 0 {
      assert RemoveAt(t, i) == t[1..];
      if t[0].sid == sid {
        StateAbsent(t[1..], sid);
      }
    } else {
      assert RemoveAt(t, i)[1..] == RemoveAt(t[1..], i - 1);
      assert RemoveAt(t, i)[0] == t[0] && t[1..][i - 1] == t[i];
      StateRemoved(t[1..], i - 1, sid);
    }
  }

  lemma {:induction false} NeverClosing(t: seq<Entry>, sid: nat)
    requires forall i :: 0 <= i < |t| ==> t[i].state != Closing
    ensures StateOf(t, sid) != Closing
  {
    if t != [] {
      assert forall i :: 0 <= i < |t[1..]| ==> t[1..][i] == t[i + 1];
      NeverClosing(t[1..], sid);
    }
  }

  /** Where an event leaves the connection: at most one edge further, and closed only by removal. */
  lemma ConnectionMoves(ts: Stack, ts': Stack, ch: Change, early: bool, sid: nat)
    requires WellFormed(ts) && Effect(ts, ts', ch, early) && sid < ts.nextSid
    ensures var s, s' := StateOf(ts.table, sid), StateOf(ts'.table, sid);
            && (s' == s || Edge(s, s'))
            && (s != Closed && s' == Closed ==> ch.Removed? && ts.table[ch.i].sid == sid)
            && (s == SynReceived && s' == Established
                <==> Promotes(ch, ts.table, ts'.table) && ts.table[ch.i].sid == sid)
  {
    assert DistinctSids(ts.table);
    hide WellFormed, DistinctSids, HasListener;
    match ch
    case NoChange =>
    case At(i) =>
      StateUpdated(ts.table, i, ts'.table[i], sid);
      if ts.table[i].sid == sid { StateAt(ts.table, sid, i); }
    case Appended => StateAppended(ts.table, ts'.table[|ts.table|], sid);
    case Removed(i) =>
      StateRemoved(ts.table, i, sid);
      if ts.table[i].sid == sid { StateAt(ts.table, sid, i); }
  }

  // ------------------------------------------------------------------ every run

  lemma NextKeeps(ts: Stack, ev: Event)
    requires WellFormed(ts) && HasParents(ts.table) && CanHappen(ts, ev)
    ensures WellFormed(Happen(ts, ev)) && HasParents(Happen(ts, ev).table)
  {
    var ch := EventEffect(ts, ev);
    EffectKeeps(ts, Happen(ts, ev), ch, SynWithAck(ts, ev));
  }

  function Next(ts: Stack, ev: Event): (ts': Stack)
    requires WellFormed(ts) && HasParents(ts.table) && CanHappen(ts, ev)
    ensures WellFormed(ts') && HasParents(ts'.table)
  {
    NextKeeps(ts, ev);
    Happen(ts, ev)
  }

  predicate Run(ts: Stack, evs: seq<Event>)
    requires WellFormed(ts) && HasParents(ts.table)
    decreases |evs|
  {
    evs == [] || (CanHappen(ts, evs[0]) && Run(Next(ts, evs[0]), evs[1..]))
  }

  function After(ts: Stack, evs: seq<Event>): (ts': Stack)
    requires WellFormed(ts) && HasParents(ts.table) && Run(ts, evs)
    ensures WellFormed(ts') && HasParents(ts'.table)
    decreases |evs|
  {
    if evs == [] then ts else After(Next(ts, evs[0]), evs[1..])
  }

  /** How many events of the run change the state of the connection. */
  function Moves(ts: Stack, evs: seq<Event>, sid: nat): nat
    requires WellFormed(ts) && HasParents(ts.table) && Run(ts, evs)
    decreases |evs|
  {
    if evs == [] then 0
    else
      var ts' := Next(ts, evs[0]);
      (if StateOf(ts'.table, sid) != StateOf(ts.table, sid) then 1 else 0) + Moves(ts', evs[1..], sid)
  }

  lemma StepOf(ts: Stack, ev: Event, sid: nat) returns (ch: Change)
    requires WellFormed(ts) && HasParents(ts.table) && CanHappen(ts, ev) && sid < ts.nextSid
    ensures sid < Next(ts, ev).nextSid
    ensures Effect(ts, Next(ts, ev), ch, SynWithAck(ts, ev))
    ensures var s, s' := StateOf(ts.table, sid), StateOf(Next(ts, ev).table, sid);
            && (s' == s || Edge(s, s'))
            && (s != Closed && s' == Closed ==> ch.Removed? && ts.table[ch.i].sid == sid)
            && (s == SynReceived && s' == Established
                <==> Promotes(ch, ts.table, Next(ts, ev).table) && ts.table[ch.i].sid == sid)
            && s' != Closing
  {
    hide Happen, HasParents;
    ch := EventEffect(ts, ev);
    NextKeeps(ts, ev);
    ConnectionMoves(ts, Happen(ts, ev), ch, SynWithAck(ts, ev), sid);
    var t' := Next(ts, ev).table;
    assert forall k :: 0 <= k < |t'| ==> GoodEntry(t'[k], Next(ts, ev).nextSid);
    NeverClosing(t', sid);
  }

  /**
   Over any run of packets, user calls and timers, a connection only climbs the ranks, so that it
   changes state at most five times; it is never in CLOSING, and once closed it stays closed.
   */
  lemma {:induction false} StatesProgress(ts: Stack, evs: seq<Event>, sid: nat)
    requires WellFormed(ts) && HasParents(ts.table) && Run(ts, evs) && sid < ts.nextSid
    ensures var s, s' := StateOf(ts.table, sid), StateOf(After(ts, evs).table, sid);
            && Rank(s) + Moves(ts, evs, sid) <= Rank(s') <= 5
            && (evs != [] ==> s' != Closing)
            && (s == Closed ==> s' == Closed)
            && (s == Listen ==> s' == Listen)
    decreases |evs|
  {
    hide WellFormed, HasParents, Happen, Effect, CanHappen;
    if evs != [] {
      var ch := StepOf(ts, evs[0], sid);
      StatesProgress(Next(ts, evs[0]), evs[1..], sid);
      if evs[1..] == [] {
        assert After(ts, evs) == Next(ts, evs[0]);
      }
    }
  }

  /** The event that closes a connection removes its entry and leaves the others as they were, in order. */
  lemma ClosingRemovesExactly(ts: Stack, ev: Event, sid: nat) returns (i: nat)
    requires WellFormed(ts) && HasParents(ts.table) && CanHappen(ts, ev) && sid < ts.nextSid
    requires StateOf(ts.table, sid) != Closed && StateOf(Next(ts, ev).table, sid) == Closed
    ensures i < |ts.table| && ts.table[i].sid == sid
    ensures Next(ts, ev).table == RemoveAt(ts.table, i)
  {
    var ch := StepOf(ts, ev, sid);
    i := ch.i;
  }

  // ------------------------------------------------------------------ the accept queue

  /** How often the connection has been sent on an accept queue. */
  function Times(accepts: seq<Accept>, sid: nat): nat {
    if accepts == [] then 0
    else (if accepts[|accepts| - 1].child == sid then 1 else 0) + Times(accepts[..|accepts| - 1], sid)
  }

  lemma TimesAppend(accepts: seq<Accept>, a: Accept, sid: nat)
    ensures Times(accepts + [a], sid) == Times(accepts, sid) + (if a.child == sid then 1 else 0)
  {
    assert (accepts + [a])[..|accepts|] == accepts;
  }

  /** Accepted exactly when it is past the handshake; a connection reset early was never accepted. */
  predicate AcceptedOnce(ts: Stack, sid: nat) {
    var s := StateOf(ts.table, sid);
    && (s == SynReceived ==> Times(ts.accepts, sid) == 0)
    && (s != SynReceived && s != Closed ==> Times(ts.accepts, sid) == 1)
    && Times(ts.accepts, sid) <= 1
  }

  lemma {:induction false} NeverAccepted(accepts: seq<Accept>, sid: nat)
    requires forall a :: a in accepts ==> a.child < sid
    ensures Times(accepts, sid) == 0
  {
    if accepts != [] {
      NeverAccepted(accepts[..|accepts| - 1], sid);
    }
  }

  /** The event moves the connection from SYN_RECEIVED to ESTABLISHED. */
  predicate PromotedBy(ts: Stack, ev: Event, sid: nat)
    requires WellFormed(ts) && HasParents(ts.table) && CanHappen(ts, ev)
  {
    StateOf(ts.table, sid) == SynReceived && StateOf(Next(ts, ev).table, sid) == Established
  }

  /** The event makes the connection, from a SYN that carries an ACK. */
  predicate MadeWithAck(ts: Stack, ev: Event, sid: nat) {
    SynWithAck(ts, ev) && sid == ts.nextSid
  }

  /** An accept queue gets the connection once for either reason, and never for any other. */
  lemma AcceptStep(ts: Stack, ev: Event, sid: nat)
    requires WellFormed(ts) && HasParents(ts.table) && CanHappen(ts, ev)
    ensures Times(Next(ts, ev).accepts, sid) == Times(ts.accepts, sid)
              + (if PromotedBy(ts, ev, sid) then 1 else 0) + (if MadeWithAck(ts, ev, sid) then 1 else 0)
  {
    var ch := EventEffect(ts, ev);
    var ts' := Next(ts, ev);
    if sid < ts.nextSid {
      ConnectionMoves(ts, ts', ch, SynWithAck(ts, ev), sid);
    } else {
      assert forall i :: 0 <= i < |ts.table| ==> GoodEntry(ts.table[i], ts.nextSid);
      StateAbsent(ts.table, sid);
    }
    hide WellFormed, HasParents, Happen, CanHappen;
    if Promotes(ch, ts.table, ts'.table) {
      assert ts.table[ch.i].sid == sid ==> sid < ts.nextSid;
      var l :| ts'.accepts == ts.accepts + [Accept(l, ts.table[ch.i].sid)];
      TimesAppend(ts.accepts, Accept(l, ts.table[ch.i].sid), sid);
    } else if SynWithAck(ts, ev) {
      var l :| ts'.accepts == ts.accepts + [Accept(l, ts.nextSid)];
      TimesAppend(ts.accepts, Accept(l, ts.nextSid), sid);
    }
  }

  /**
   A child in SYN_RECEIVED that no queue holds yet enters an accept queue exactly once over any
   run, when it becomes established.
   */
  lemma {:induction false} ChildAcceptedOnce(ts: Stack, evs: seq<Event>, sid: nat)
    requires WellFormed(ts) && HasParents(ts.table) && Run(ts, evs) && sid < ts.nextSid
    requires AcceptedOnce(ts, sid)
    ensures AcceptedOnce(After(ts, evs), sid)
    decreases |evs|
  {
    hide WellFormed, HasParents, Happen, Effect, CanHappen;
    if evs != [] {
      var ch := StepOf(ts, evs[0], sid);
      AcceptStep(ts, evs[0], sid);
      ChildAcceptedOnce(Next(ts, evs[0]), evs[1..], sid);
    }
  }

  /** Whether the run makes the connection from a SYN that carries an ACK. */
  predicate SynHadAck(ts: Stack, evs: seq<Event>, sid: nat)
    requires WellFormed(ts) && HasParents(ts.table) && Run(ts, evs)
    decreases |evs|
  {
    evs != [] && (MadeWithAck(ts, evs[0], sid) || SynHadAck(Next(ts, evs[0]), evs[1..], sid))
  }

  predicate Promoted(ts: Stack, evs: seq<Event>, sid: nat)
    requires WellFormed(ts) && HasParents(ts.table) && Run(ts, evs)
    decreases |evs|
  {
    evs != [] && (PromotedBy(ts, evs[0], sid) || Promoted(Next(ts, evs[0]), evs[1..], sid))
  }

  /** A connection is made once, and promoted at most once. */
  lemma {:induction false} OnlyOnce(ts: Stack, evs: seq<Event>, sid: nat)
    requires WellFormed(ts) && HasParents(ts.table) && Run(ts, evs) && sid < ts.nextSid
    ensures !SynHadAck(ts, evs, sid)
    ensures StateOf(ts.table, sid) != SynReceived ==> !Promoted(ts, evs, sid)
    decreases |evs|
  {
    hide WellFormed, HasParents, Happen, Effect, CanHappen;
    if evs != [] {
      var ch := StepOf(ts, evs[0], sid);
      OnlyOnce(Next(ts, evs[0]), evs[1..], sid);
    }
  }

  /** How often a run puts a connection on an accept queue. */
  lemma {:induction false} QueuedTimes(ts: Stack, evs: seq<Event>, sid: nat)
    requires WellFormed(ts) && HasParents(ts.table) && Run(ts, evs)
    ensures Times(After(ts, evs).accepts, sid) == Times(ts.accepts, sid)
              + (if SynHadAck(ts, evs, sid) then 1 else 0) + (if Promoted(ts, evs, sid) then 1 else 0)
    decreases |evs|
  {
    if evs != [] {
      var ts' := Next(ts, evs[0]);
      AcceptStep(ts, evs[0], sid);
      QueuedTimes(ts', evs[1..], sid);
      if MadeWithAck(ts, evs[0], sid) {
        var ch := EventEffect(ts, evs[0]);
        OnlyOnce(ts', evs[1..], sid);
      }
      if PromotedBy(ts, evs[0], sid) {
        if sid >= ts.nextSid {
          assert forall i :: 0 <= i < |ts.table| ==> GoodEntry(ts.table[i], ts.nextSid);
          StateAbsent(ts.table, sid);
        }
        var ch := StepOf(ts, evs[0], sid);
        OnlyOnce(ts', evs[1..], sid);
      }
    }
  }

  /**
   Over any run of a stack that starts empty, a connection is put on an accept queue at most twice;
   and twice exactly if its SYN carried an ACK and it has been promoted.
   */
  lemma QueuedTwiceIff(evs: seq<Event>, sid: nat)
    requires Run(EMPTY, evs)
    ensures var n := Times(After(EMPTY, evs).accepts, sid);
            && n <= 2
            && (n == 2 <==> SynHadAck(EMPTY, evs, sid) && Promoted(EMPTY, evs, sid))
  {
    QueuedTimes(EMPTY, evs, sid);
  }

  predicate QueueFor(t: seq<Entry>, listener: Entry, child: nat) {
    listener.state == Listen && forall k :: 0 <= k < |t| && t[k].sid == child ==> t[k].localPort == listener.localPort
  }

  /** The queue is that of a listener in the table, on the port of the connection sent to it. */
  ghost predicate RightQueue(t: seq<Entry>, a: Accept) {
    exists j :: 0 <= j < |t| && t[j].sid == a.listener && QueueFor(t, t[j], a.child)
  }

  /** Where place `k` of the new table was in the old one. */
  function WasAt(ch: Change, k: nat): nat {
    if ch.Removed? then Slices.OldPlace(ch.i, k) else k
  }

  lemma PortStays(ts: Stack, ts': Stack, ch: Change, early: bool, k: nat)
    requires Effect(ts, ts', ch, early) && k < |ts'.table| && ts'.table[k].sid < ts.nextSid
    ensures var i := WasAt(ch, k);
            i < |ts.table| && ts.table[i].sid == ts'.table[k].sid && ts.table[i].localPort == ts'.table[k].localPort
  {
    hide Edge, GoodEntry, HasListener;
  }

  lemma ListenerStays(ts: Stack, ts': Stack, ch: Change, early: bool, j: nat) returns (j': nat)
    requires Effect(ts, ts', ch, early) && j < |ts.table| && ts.table[j].state == Listen
    ensures j' < |ts'.table| && ts'.table[j'] == ts.table[j]
  {
    hide GoodEntry, HasListener;
    j' := if ch.Removed? && j > ch.i then j - 1 else j;
  }

  /** Listeners stay, and ports do not change. */
  lemma RightQueueStays(ts: Stack, ev: Event, a: Accept)
    requires WellFormed(ts) && HasParents(ts.table) && CanHappen(ts, ev)
    requires a.child < ts.nextSid && RightQueue(ts.table, a)
    ensures RightQueue(Happen(ts, ev).table, a)
  {
    var ch := EventEffect(ts, ev);
    var ts' := Happen(ts, ev);
    var t, t' := ts.table, ts'.table;
    hide Happen, CanHappen, WellFormed, HasParents, Effect;
    var j :| 0 <= j < |t| && t[j].sid == a.listener && QueueFor(t, t[j], a.child);
    var j' := ListenerStays(ts, ts', ch, SynWithAck(ts, ev), j);
    forall k | 0 <= k < |t'| && t'[k].sid == a.child ensures t'[k].localPort == t[j].localPort {
      PortStays(ts, ts', ch, SynWithAck(ts, ev), k);
    }
    assert QueueFor(t', t'[j'], a.child);
  }

  /** What a packet adds to a queue goes to the listener of the port it came to. */
  lemma PromotedRight(ts: Stack, i: nat, seg: Segment)
    requires WellFormed(ts) && HasParents(ts.table) && i < |ts.table| && ts.table[i].body.Normal?
    requires ts.table[i].state == SynReceived && seg.flags.ack && !seg.flags.rst
    ensures var ts' := HandleNormal(ts, i, seg);
            exists a :: ts'.accepts == ts.accepts + [a] && RightQueue(ts'.table, a)
  {
    hide Find, Handle;
    var e := ts.table[i];
    assert GoodEntry(e, ts.nextSid);
    HandleTakesAnEdge(ConnOf(e), seg);
    var e' := WithConn(e, Handle(ConnOf(e), seg).0);
    ParentIsFound(ts, i, e');
    var t' := ts.table[i := e'];
    var j := Find(t', e'.localPort, NoAddr, 0);
    assert IsFound(t', e'.localPort, NoAddr, 0, j);
    var a := Accept(t'[j].sid, e'.sid);
    hide WellFormed, HasParents;
    assert QueueFor(t', t'[j], a.child) by {
      assert DistinctSids(t') by {
        assert DistinctSids(ts.table);
      }
      assert t'[i].sid == a.child;
    }
    assert HandleNormal(ts, i, seg).accepts == ts.accepts + [a];
  }

  lemma EarlyRight(ts: Stack, p: Packet, iss: uint32, now: int)
    requires WellFormed(ts) && HasParents(ts.table) && FromEndpoint(p.src, p.srcPort)
    requires SynWithAck(ts, Arrives(p, iss, now))
    ensures var ts' := HandlePacket(ts, p, iss, now);
            exists a :: ts'.accepts == ts.accepts + [a] && RightQueue(ts'.table, a)
  {
    var i := Find(ts.table, p.dstPort, p.src, p.srcPort);
    var a := Accept(ts.table[i].sid, ts.nextSid);
    var t' := HandlePacket(ts, p, iss, now).table;
    assert forall k :: 0 <= k < |ts.table| ==> GoodEntry(ts.table[k], ts.nextSid) && t'[k] == ts.table[k];
    hide Find, WellFormed;
    assert QueueFor(t', t'[i], a.child);
    assert HandlePacket(ts, p, iss, now).accepts == ts.accepts + [a];
  }

  /** Every send on an accept queue goes to a listener of the connection's own port. */
  lemma StepQueuesRight(ts: Stack, ev: Event)
    requires WellFormed(ts) && HasParents(ts.table) && CanHappen(ts, ev)
    ensures Happen(ts, ev).accepts == ts.accepts
            || exists a :: Happen(ts, ev).accepts == ts.accepts + [a] && RightQueue(Happen(ts, ev).table, a)
  {
    if ev.Arrives? {
      var p := ev.p;
      var i := Find(ts.table, p.dstPort, p.src, p.srcPort);
      hide Find, RightQueue;
      if SynWithAck(ts, ev) {
        EarlyRight(ts, p, ev.iss, ev.now);
      } else if i < |ts.table| && ts.table[i].state == SynReceived && p.seg.flags.ack && !p.seg.flags.rst {
        assert GoodEntry(ts.table[i], ts.nextSid);
        PromotedRight(ts, i, p.seg);
      }
    }
    hide Find, RightQueue, Handle;
  }

  ghost predicate QueuesRight(ts: Stack) {
    forall a :: a in ts.accepts ==> RightQueue(ts.table, a)
  }

  lemma {:induction false} RunQueuesRight(ts: Stack, evs: seq<Event>)
    requires WellFormed(ts) && HasParents(ts.table) && Run(ts, evs) && QueuesRight(ts)
    ensures QueuesRight(After(ts, evs))
    decreases |evs|
  {
    if evs != [] {
      var ts' := Next(ts, evs[0]);
      StepQueuesRight(ts, evs[0]);
      assert forall a :: a in ts.accepts ==> a.child < ts.nextSid;
      hide WellFormed, HasParents, CanHappen, RightQueue;
      forall a | a in ts'.accepts ensures RightQueue(ts'.table, a) {
        if a in ts.accepts {
          RightQueueStays(ts, evs[0], a);
        }
      }
      hide Happen;
      RunQueuesRight(ts', evs[1..]);
    }
  }

  /**
   Over any run of a stack that starts empty, whatever has been put on an accept queue was put on
   that of a listener which is still there, and a connection that is still there has its local port.
   */
  lemma QueuedByItsListener(evs: seq<Event>, a: Accept)
    requires Run(EMPTY, evs) && a in After(EMPTY, evs).accepts
    ensures var t := After(EMPTY, evs).table;
            exists j :: 0 <= j < |t| && t[j].sid == a.listener && t[j].state == Listen
              && forall k :: 0 <= k < |t| && t[k].sid == a.child ==> t[k].localPort == t[j].localPort
  {
    RunQueuesRight(EMPTY, evs);
    var t := After(EMPTY, evs).table;
    assert RightQueue(t, a);
    var j :| 0 <= j < |t| && t[j].sid == a.listener && QueueFor(t, t[j], a.child);
  }

  /** A SYN makes at most one child per connection, unaccepted exactly when the SYN is bare. */
  lemma SynCreatesChild(ts: Stack, p: Packet, iss: uint32, now: int)
    requires WellFormed(ts) && HasParents(ts.table) && FromEndpoint(p.src, p.srcPort)
    requires p.seg.flags.syn
    requires var i := Find(ts.table, p.dstPort, p.src, p.srcPort); i < |ts.table| && ts.table[i].state == Listen
    ensures forall e :: e in ts.table ==> !Matches(e, p.dstPort, p.src, p.srcPort)
    ensures var ts' := HandlePacket(ts, p, iss, now);
            && StateOf(ts'.table, ts.nextSid) == SynReceived
            && Matches(ts'.table[|ts.table|], p.dstPort, p.src, p.srcPort)
            && (AcceptedOnce(ts', ts.nextSid) <==> !p.seg.flags.ack)
  {
    var i := Find(ts.table, p.dstPort, p.src, p.srcPort);
    assert GoodEntry(ts.table[i], ts.nextSid);
    var ts' := HandlePacket(ts, p, iss, now);
    NextKeeps(ts, Arrives(p, iss, now));
    StateAt(ts'.table, ts.nextSid, |ts.table|);
    NeverAccepted(ts.accepts, ts.nextSid);
    TimesAppend(ts.accepts, Accept(ts.table[i].sid, ts.nextSid), ts.nextSid);
  }

  const LISTENING := Stack([Entry(80, ANY, 0, Listen, 0, Listener)], 1, [])
  const SYN_WITH_ACK := Packet(V4(9), 1000, 80, Segment(0, 0, SYN_ACK, BUFFER_SIZE, []))
  const FINAL_ACK := Packet(V4(9), 1000, 80, Segment(1, 1, ACK, BUFFER_SIZE, []))

  function HalfOpen(): Stack {
    HandleSyn(LISTENING, 0, SYN_WITH_ACK, 0, 0)
  }

  lemma ListenAndSyn()
    ensures WellFormed(EMPTY) && HasParents(EMPTY.table)
    ensures CanHappen(EMPTY, UserListen(80)) && Next(EMPTY, UserListen(80)) == LISTENING
    ensures CanHappen(LISTENING, Arrives(SYN_WITH_ACK, 0, 0))
    ensures Next(LISTENING, Arrives(SYN_WITH_ACK, 0, 0)) == HalfOpen()
  {
    assert Next(EMPTY, UserListen(80)) == LISTENING;
    assert Listens(LISTENING.table[0], 80);
  }

  lemma AckQueuesAgain()
    requires WellFormed(HalfOpen()) && HasParents(HalfOpen().table)
    ensures CanHappen(HalfOpen(), Arrives(FINAL_ACK, 0, 0))
    ensures Next(HalfOpen(), Arrives(FINAL_ACK, 0, 0)).accepts == [Accept(0, 1), Accept(0, 1)]
  {
    var t := HalfOpen().table;
    assert Listens(t[0], 80) && !Matches(t[0], 80, V4(9), 1000) && Matches(t[1], 80, V4(9), 1000);
    assert Find(t, 80, V4(9), 1000) == 1;
    var e := WithConn(t[1], Handle(ConnOf(t[1]), FINAL_ACK.seg).0);
    var t' := t[1 := e];
    assert e.state == Established && e.localPort == 80 && e.sid == 1 && t'[0] == t[0];
    hide Handle, WellFormed, HasParents;
    assert Find(t', 80, NoAddr, 0) == 0;
  }

  lemma OneMore(ts: Stack, ev: Event, evs: seq<Event>)
    requires WellFormed(ts) && HasParents(ts.table) && CanHappen(ts, ev) && Run(Next(ts, ev), evs)
    ensures Run(ts, [ev] + evs) && After(ts, [ev] + evs) == After(Next(ts, ev), evs)
  {
    hide WellFormed, HasParents, CanHappen, Happen;
    assert ([ev] + evs)[1..] == evs;
  }

  /** A listener, a SYN with an ACK, and an ACK: the child, socket 1, is queued twice. */
  lemma SynWithAckAcceptsTwice() returns (evs: seq<Event>)
    ensures evs == [UserListen(80), Arrives(SYN_WITH_ACK, 0, 0), Arrives(FINAL_ACK, 0, 0)]
    ensures Run(EMPTY, evs) && Times(After(EMPTY, evs).accepts, 1) == 2
  {
    hide WellFormed, HasParents, CanHappen, Happen, Next, HalfOpen;
    var a, b, c := UserListen(80), Arrives(SYN_WITH_ACK, 0, 0), Arrives(FINAL_ACK, 0, 0);
    ListenAndSyn();
    AckQueuesAgain();
    var end := Next(HalfOpen(), c);
    assert Run(end, []) && After(end, []) == end;
    hide After, Run;
    OneMore(HalfOpen(), c, []);
    OneMore(LISTENING, b, [c] + []);
    OneMore(EMPTY, a, [b] + ([c] + []));
    evs := [a] + ([b] + ([c] + []));
    assert Times([Accept(0, 1), Accept(0, 1)], 1) == 2;
  }
}
