/**
 ReceivePacket, hop by hop: a packet that SendIP creates is accepted by at most as many nodes as
 its initial TTL, whatever loops the forwarding tables contain.
 */
module IpForwarding {
  import opened Addresses
  import opened Bytes
  import opened Forwarding

  /** The fields of an IPPacket that its header checksum covers. */
  datatype Fields = Fields(src: Addr, dst: Addr, ttl: byte, protocol: byte, payload: seq<byte>)

  datatype IPPacket = IPPacket(fields: Fields, checksum: int)

  /** CalculateChecksum: some deterministic function of the header fields. */
  type HeaderSum = Fields -> int

  datatype Iface = Iface(name: string, ip: Addr, netmask: Prefix, down: bool)

  /** A node as ReceivePacket sees it; the interfaces are listed in the order the map yields them. */
  datatype Node = Node(ifaces: seq<Iface>, table: seq<Route>)

  function CreatePacket(sum: HeaderSum, f: Fields): IPPacket {
    IPPacket(f, sum(f))
  }

  predicate ValidatePacket(sum: HeaderSum, p: IPPacket) {
    p.fields.ttl != 0 && sum(p.fields) == p.checksum
  }

  datatype Outcome =
    | Invalid                                              // dropped by ValidatePacket
    | ForMe
    | NoRoute
    | Forwarded(p: IPPacket, iface: string, nextHop: Addr)

  predicate IsLocal(node: Node, dst: Addr) {
    exists i :: 0 <= i < |node.ifaces| && !node.ifaces[i].down && node.ifaces[i].ip == dst
  }

  /** Index of the first interface whose network contains the address. */
  function Connected(ifaces: seq<Iface>, dst: Addr): (i: nat)
    ensures i <= |ifaces|
    ensures i < |ifaces| ==> Contains(ifaces[i].netmask, dst)
    ensures forall k :: 0 <= k < i ==> !Contains(ifaces[k].netmask, dst)
  {
    if ifaces == [] || Contains(ifaces[0].netmask, dst) then 0 else 1 + Connected(ifaces[1..], dst)
  }

  /** packet.TTL--, on a uint8, and the checksum of the new header. */
  function Decremented(sum: HeaderSum, p: IPPacket): IPPacket {
    var f := p.fields.(ttl := (p.fields.ttl - 1) % TWO8);
    IPPacket(f, sum(f))
  }

  /** How the packet leaves over the route NextHop finds; "" stands for no route. */
  predicate ByTable(sum: HeaderSum, p: IPPacket, iface: string, nextHop: Addr, o: Outcome) {
    o == if iface == "" then NoRoute else Forwarded(Decremented(sum, p), iface, nextHop)
  }

  /** What ReceivePacket does with the packet at this node, case by case. */
  ghost predicate Receives(sum: HeaderSum, node: Node, p: IPPacket, o: Outcome) {
    var dst := p.fields.dst;
    var c := Connected(node.ifaces, dst);
    if !ValidatePacket(sum, p) then o == Invalid
    else if IsLocal(node, dst) then o == ForMe
    else if c < |node.ifaces| then o == Forwarded(Decremented(sum, p), node.ifaces[c].name, dst)
    else
      || ((forall e :: e in node.table ==> !Contains(e.prefix, dst)) && ByTable(sum, p, "", NoAddr, o))
      || (exists i: nat :: IsLongestMatch(node.table, dst, i)
                        && ByTable(sum, p, node.table[i].iface, node.table[i].nextHop, o))
  }

  /** The node handles the packet at all: delivers it or forwards it. */
  predicate Accepts(sum: HeaderSum, p: IPPacket) {
    ValidatePacket(sum, p)
  }

  /** ReceivePacket, which rewrites the TTL and the checksum of the packet it is given. */
  method ReceivePacket(sum: HeaderSum, ifaces: seq<Iface>, ft: ForwardingTable, packet: IPPacket)
    returns (p: IPPacket, o: Outcome)
    requires ft.Valid()
    ensures Receives(sum, Node(ifaces, ft.Entries()), packet, o)
    ensures p == if o.Forwarded? then o.p else packet
  {
    p := packet;
    if !ValidatePacket(sum, p) {
      return p, Invalid;
    }
    for i := 0 to |ifaces|
      invariant forall k :: 0 <= k < i ==> ifaces[k].down || ifaces[k].ip != packet.fields.dst
    {
      if !ifaces[i].down {
        if ifaces[i].ip == p.fields.dst {
          return p, ForMe;
        }
      }
    }
    for i := 0 to |ifaces|
      invariant forall k :: 0 <= k < i ==> !Contains(ifaces[k].netmask, packet.fields.dst)
    {
      if Contains(ifaces[i].netmask, p.fields.dst) {
        p := p.(fields := p.fields.(ttl := (p.fields.ttl - 1) % TWO8));
        p := p.(checksum := sum(p.fields));
        return p, Forwarded(p, ifaces[i].name, p.fields.dst);
      }
    }
    var iface, nextHop := ft.NextHop(p.fields.dst);
    if iface == "" {
      return p, NoRoute;
    }
    p := p.(fields := p.fields.(ttl := (p.fields.ttl - 1) % TWO8));
    p := p.(checksum := sum(p.fields));
    return p, Forwarded(p, iface, nextHop);
  }

  /** The destination is on a network of the interface over which the packet leaves. */
  predicate OnLink(node: Node, dst: Addr, i: nat, o: Outcome) {
    i < |node.ifaces| && Contains(node.ifaces[i].netmask, dst)
    && o.Forwarded? && o.iface == node.ifaces[i].name && o.nextHop == dst
  }

  predicate ByRoute(node: Node, dst: Addr, i: nat, o: Outcome) {
    IsLongestMatch(node.table, dst, i)
    && o.Forwarded? && o.iface == node.table[i].iface && o.nextHop == node.table[i].nextHop
  }

  /**
   What becomes of a packet.  It is dropped as invalid exactly without time to live or with a wrong
   checksum.  Otherwise it is delivered exactly if an interface that is up has its destination; else
   it leaves, with one less to live, for the destination itself over an interface on whose network
   that is, if there is any; else for the next hop of the longest match; and it is dropped if there is
   none, or one without an interface.
   */
  lemma Dispositions(sum: HeaderSum, node: Node, p: IPPacket, o: Outcome)
    requires Receives(sum, node, p, o)
    ensures var dst := p.fields.dst;
            var valid := p.fields.ttl > 0 && p.checksum == sum(p.fields);
            var local := exists i :: 0 <= i < |node.ifaces| && !node.ifaces[i].down && node.ifaces[i].ip == dst;
            var connected := exists i :: 0 <= i < |node.ifaces| && Contains(node.ifaces[i].netmask, dst);
            && (o == Invalid <==> !valid)
            && (o == ForMe <==> valid && local)
            && (valid && !local && connected ==> exists i: nat :: OnLink(node, dst, i, o))
            && (valid && !local && !connected ==>
                  || (exists i: nat :: ByRoute(node, dst, i, o))
                  || (o == NoRoute
                      && forall i: nat :: IsLongestMatch(node.table, dst, i) ==> node.table[i].iface == ""))
            && (o.Forwarded? ==> o.p == CreatePacket(sum, p.fields.(ttl := p.fields.ttl - 1)))
  {
    var dst := p.fields.dst;
    var c := Connected(node.ifaces, dst);
    hide Contains;
    if o.Forwarded? && c < |node.ifaces| {
      assert OnLink(node, dst, c, o);
    } else if i: nat :| IsLongestMatch(node.table, dst, i)
                        && ByTable(sum, p, node.table[i].iface, node.table[i].nextHop, o) {
      assert o.Forwarded? ==> ByRoute(node, dst, i, o);
      forall j: nat | IsLongestMatch(node.table, dst, j) ensures j == i {
        LongestMatchIsOne(node.table, dst, i, j);
      }
    }
  }

  /** One stop of a packet's way: the node it is at, and the packet as it arrives there. */
  datatype Stop = Stop(node: Node, p: IPPacket)

  /** The first node forwards what the second receives; which node that is, is left to the links. */
  ghost predicate Hop(sum: HeaderSum, a: Stop, b: Stop) {
    exists o :: Receives(sum, a.node, a.p, o) && o.Forwarded? && o.p == b.p
  }

  ghost predicate Way(sum: HeaderSum, stops: seq<Stop>) {
    forall i :: 0 <= i < |stops| - 1 ==> Hop(sum, stops[i], stops[i + 1])
  }

  /** A forwarded packet was valid, so its TTL is exactly one less and its checksum fits its header. */
  lemma HopDecrements(sum: HeaderSum, a: Stop, b: Stop)
    requires Hop(sum, a, b)
    ensures a.p.fields.ttl > 0
    ensures b.p == CreatePacket(sum, a.p.fields.(ttl := a.p.fields.ttl - 1))
  {
  }

  /** The packet that SendIP would have created with `i` less time to live. */
  function Later(sum: HeaderSum, f: Fields, i: nat): IPPacket
    requires i <= f.ttl
  {
    CreatePacket(sum, f.(ttl := f.ttl - i))
  }

  lemma {:induction false} PacketAlong(sum: HeaderSum, stops: seq<Stop>, f: Fields, i: nat)
    requires Way(sum, stops) && i < |stops| && stops[0].p == CreatePacket(sum, f)
    ensures i <= f.ttl && stops[i].p == Later(sum, f, i)
  {
    if i > 0 {
      PacketAlong(sum, stops, f, i - 1);
      HopDecrements(sum, stops[i - 1], stops[i]);
    }
  }

  /**
   Forwarding terminates on any tables.  Wherever the packet goes, its checksum stays valid, its
   TTL counts down by one per hop without wrapping, and a node accepts it exactly while the TTL
   lasts: the way has at most one stop more than the initial TTL, and the last of these drops it.
   */
  lemma ForwardingTerminates(sum: HeaderSum, stops: seq<Stop>, f: Fields, i: nat)
    requires Way(sum, stops) && stops != [] && stops[0].p == CreatePacket(sum, f) && i < |stops|
    ensures |stops| <= f.ttl + 1
    ensures stops[i].p.fields.ttl == f.ttl - i
    ensures stops[i].p.checksum == sum(stops[i].p.fields)
    ensures Accepts(sum, stops[i].p) <==> i < f.ttl
  {
    PacketAlong(sum, stops, f, i);
    PacketAlong(sum, stops, f, |stops| - 1);
  }
}
