/**
 A TCPStack whose table is updated in place: HandlePacket and the calls that add and remove
 entries, proved against the functions of Lifecycle.dfy, whose properties therefore hold of it.
 An entry holds its socket's value; the socket object is built from it and written back.
 */
module TcpStack {
  import opened Addresses
  import opened Bytes
  import opened Tcp
  import opened TcpTable
  import opened Lifecycle
  import NormalSocket

  /** The segments the stack hands to IP for a packet. */
  function Replies(t: seq<Entry>, p: Packet, iss: uint32, now: int): seq<Segment> {
    var i := Find(t, p.dstPort, p.src, p.srcPort);
    if i == |t| then []
    else if t[i].body.Listener? || t[i].state == Listen then
      if p.seg.flags.syn then Child(p.seg, iss, now).1 else []
    else Handle(ConnOf(t[i]), p.seg).1
  }

  lemma DistinctAfterUpdate(ts: Stack, i: nat, e: Entry)
    requires WellFormed(ts) && i < |ts.table| && e.sid == ts.table[i].sid
    ensures DistinctSids(ts.table[i := e])
  {
  }

  lemma EntryIsGood(ts: Stack, i: nat)
    requires WellFormed(ts) && i < |ts.table|
    ensures ts.table[i].state == Listen <==> ts.table[i].body.Listener?
  {
    assert GoodEntry(ts.table[i], ts.nextSid);
  }

  class TCPStack {
    const table: Table
    var nextSid: nat
    var accepts: seq<Accept>

    ghost predicate Valid()
      reads this, table, table.slots
    {
      table.Valid() && WellFormed(Value())
    }

    ghost function Value(): Stack
      requires table.Valid()
      reads this, table, table.slots
    {
      Stack(table.Entries(), nextSid, accepts)
    }

    constructor ()
      ensures Valid() && fresh(table) && fresh(table.slots)
      ensures Value() == Stack([], 0, [])
    {
      table := new Table();
      nextSid, accepts := 0, [];
    }

    method GenerateSID() returns (sid: nat)
      modifies this`nextSid
      ensures sid == old(nextSid) && nextSid == old(nextSid) + 1
    {
      sid := nextSid;
      nextSid := nextSid + 1;
    }

    method HandleSYN(i: nat, p: Packet, iss: uint32, now: int) returns (out: seq<Segment>)
      requires Valid() && i < table.len
      modifies this, table, table.slots
      ensures table.Valid() && (table.slots == old(table.slots) || fresh(table.slots))
      ensures Value() == HandleSyn(old(Value()), i, p, iss, now)
      ensures out == Child(p.seg, iss, now).1
    {
      var listener := table.slots[i];
      var sid := GenerateSID();
      var (c, synAck) := Child(p.seg, iss, now);
      table.Insert(Entry(listener.localPort, p.src, p.srcPort, c.state, sid, Normal(c.sock)));
      out := synAck;
      if p.seg.flags.ack {
        accepts := accepts + [Accept(listener.sid, sid)];
      }
    }

    /** handleACK's send to the accept queue of the listener the connection came from. */
    method PromoteChild(e: Entry)
      requires table.Valid()
      modifies this`accepts
      ensures accepts == Promote(table.Entries(), old(accepts), e)
    {
      var j, found := table.VFind(e.localPort, NoAddr, 0);
      if found && table.slots[j].state == Listen {
        accepts := accepts + [Accept(table.slots[j].sid, e.sid)];
      }
    }

    method HandleNormalPacket(i: nat, seg: Segment) returns (out: seq<Segment>)
      requires Valid() && i < table.len && table.slots[i].body.Normal? && table.slots[i].state != Listen
      modifies this, table, table.slots
      ensures table.Valid() && table.slots == old(table.slots)
      ensures Value() == HandleNormal(old(Value()), i, seg)
      ensures out == Handle(ConnOf(old(table.slots[i])), seg).1
    {
      hide Handle, Find, WellFormed;
      ghost var t := table.Entries();
      var e := table.slots[i];
      var socket := new NormalSocket.NormalSocket(ConnOf(e));
      socket.HandlePacket(seg);
      out := socket.sent;
      var e' := e.(state := socket.state, body := Normal(socket.Value()));
      assert e' == WithConn(e, Handle(ConnOf(e), seg).0);
      table.slots[i] := e';
      assert table.Entries() == t[i := e'];
      if seg.flags.rst || (e.state == LastAck && seg.flags.ack) {
        DistinctAfterUpdate(Stack(t, nextSid, accepts), i, e');
        table.Delete(e');
      } else if e.state == SynReceived && seg.flags.ack {
        PromoteChild(e');
      }
    }

    /** HandlePacket keeps the table well formed and does what Lifecycle.HandlePacket says. */
    method HandlePacket(p: Packet, iss: uint32, now: int) returns (found: bool, out: seq<Segment>)
      requires Valid() && HasParents(table.Entries()) && FromEndpoint(p.src, p.srcPort)
      modifies this, table, table.slots
      ensures Valid() && (table.slots == old(table.slots) || fresh(table.slots))
      ensures HasParents(table.Entries())
      ensures Value() == Lifecycle.HandlePacket(old(Value()), p, iss, now)
      ensures found <==> Find(old(table.Entries()), p.dstPort, p.src, p.srcPort) < |old(table.Entries())|
      ensures !found ==> Value() == old(Value())
      ensures out == Replies(old(table.Entries()), p, iss, now)
    {
      NextKeeps(Value(), Arrives(p, iss, now));
      hide WellFormed, HasParents, HandleNormal, HandleSyn, Find, GoodEntry;
      var i;
      i, found := table.VFind(p.dstPort, p.src, p.srcPort);
      out := [];
      if !found {
        return;
      }
      EntryIsGood(Value(), i);
      if table.slots[i].state != Listen {
        out := HandleNormalPacket(i, p.seg);
      } else if p.seg.flags.syn {
        out := HandleSYN(i, p, iss, now);
      }
    }
  }
}
