/**
 RIP on one router: what a response does to the forwarding table, what is advertised, and poison
 reverse.  First as functions on tables, then in place on a ForwardingTable.
 */
module Rip {
  import opened Addresses
  import opened Bytes
  import opened Forwarding

  const INFINITY := 16

  datatype RipEntry = RipEntry(cost: uint32, address: uint32, mask: uint32)

  /** The prefix a received entry stands for. */
  function PrefixOf(x: RipEntry): Prefix {
    PrefixFrom(x.address, x.mask)
  }

  /** Conversion of an int to uint32, which keeps the low 32 bits. */
  function ToUint32(x: int): (r: uint32)
    ensures 0 <= x < TWO32 ==> r == x
  {
    x % TWO32
  }

  function EntryOf(r: Route): (x: RipEntry)
    ensures PrefixOf(x) == r.prefix
    ensures 0 <= r.metric < TWO32 ==> x.cost == r.metric
  {
    RipEntry(ToUint32(r.metric), r.prefix.addr, ToUint32(r.prefix.bits))
  }

  /** GetAllRIPEntries. */
  function Advertise(t: seq<Route>): (es: seq<RipEntry>)
    ensures |es| == |t|
    ensures forall i :: 0 <= i < |t| ==> es[i] == EntryOf(t[i])
  {
    seq(|t|, i requires 0 <= i < |t| => EntryOf(t[i]))
  }

  function RouteVia(x: RipEntry, source: Addr, iface: string, now: int): Route {
    Route(PrefixOf(x), source, iface, x.cost + 1, Rip, now)
  }

  /** The entry makes the router add or replace a route. */
  predicate Improves(t: seq<Route>, x: RipEntry) {
    x.cost + 1 < INFINITY && (!Has(t, PrefixOf(x)) || x.cost + 1 < Get(t, PrefixOf(x)).metric)
  }

  /**
   ProcessRIPResponse up to the triggered update: the new table, and the changed entries with
   their new costs.  Lookup returns a copy of the route, so what the source writes through its
   result (the refreshed time, a changed metric) does not reach the table.
   */
  function Process(t: seq<Route>, source: Addr, iface: string, es: seq<RipEntry>, now: int)
    : (seq<Route>, seq<RipEntry>)
    decreases |es|
  {
    if es == [] then (t, [])
    else
      var (t0, changed) := Process(t, source, iface, es[..|es| - 1], now);
      var x := es[|es| - 1];
      if Improves(t0, x) then
        (Add(t0, RouteVia(x, source, iface, now)), changed + [RipEntry(x.cost + 1, x.address, x.mask)])
      else (t0, changed)
  }

  /** The entry as applyPoisonReverse passes it to `neighbor`. */
  function PoisonOne(t: seq<Route>, x: RipEntry, neighbor: Addr): RipEntry {
    if Has(t, PrefixOf(x)) && Get(t, PrefixOf(x)).nextHop == neighbor then x.(cost := INFINITY) else x
  }

  function Poison(t: seq<Route>, es: seq<RipEntry>, neighbor: Addr): (ps: seq<RipEntry>)
    ensures |ps| == |es|
    ensures forall i :: 0 <= i < |es| ==> ps[i] == PoisonOne(t, es[i], neighbor)
  {
    seq(|es|, i requires 0 <= i < |es| => PoisonOne(t, es[i], neighbor))
  }

  /** The entries that applyPoisonReverse does not drop. */
  function Passed(t: seq<Route>, es: seq<RipEntry>, neighbor: Addr): seq<RipEntry>
    decreases |es|
  {
    if es == [] then []
    else
      var before := Passed(t, es[..|es| - 1], neighbor);
      var x := es[|es| - 1];
      if neighbor != NoAddr || Has(t, PrefixOf(x)) then before + [x] else before
  }

  lemma {:induction false} PassedAll(t: seq<Route>, es: seq<RipEntry>, neighbor: Addr)
    ensures neighbor != NoAddr ==> Passed(t, es, neighbor) == es
    decreases |es|
  {
    if es != [] {
      PassedAll(t, es[..|es| - 1], neighbor);
    }
  }

  /** What the loop of applyPoisonReverse appends in turn `i`. */
  lemma PoisonTurn(t: seq<Route>, es: seq<RipEntry>, i: nat, neighbor: Addr)
    requires i < |es|
    ensures Poison(t, Passed(t, es[..i + 1], neighbor), neighbor)
            == Poison(t, Passed(t, es[..i], neighbor), neighbor)
               + if neighbor != NoAddr || Has(t, PrefixOf(es[i])) then [PoisonOne(t, es[i], neighbor)] else []
  {
    assert es[..i + 1][..i] == es[..i];
  }

  // ------------------------------------------------------------------ tables only improve

  /** Every route of `t` is still there in `t'`, at the same metric or a smaller one. */
  ghost predicate Better(t': seq<Route>, t: seq<Route>) {
    forall p :: Has(t, p) ==> Has(t', p) && Get(t', p).metric <= Get(t, p).metric
  }

  lemma AddBetter(t: seq<Route>, e: Route)
    requires DistinctPrefixes(t)
    ensures DistinctPrefixes(Add(t, e)) && Better(Add(t, e), t)
  {
    AddKeepsDistinct(t, e);
    forall p | p != e.prefix && Has(t, p) ensures Has(Add(t, e), p) && Get(Add(t, e), p) == Get(t, p) {
      AddLeavesOthers(t, e, p);
    }
  }

  /** A response never makes a route worse, and each entry below 16 hops is taken into account. */
  lemma {:induction false} ProcessBetter(t: seq<Route>, source: Addr, iface: string, es: seq<RipEntry>, now: int)
    requires DistinctPrefixes(t)
    ensures var t' := Process(t, source, iface, es, now).0;
            && DistinctPrefixes(t') && Better(t', t)
            && forall x :: x in es && x.cost + 1 < INFINITY ==>
                 Has(t', PrefixOf(x)) && Get(t', PrefixOf(x)).metric <= x.cost + 1
    decreases |es|
  {
    if es != [] {
      var init := es[..|es| - 1];
      var x := es[|es| - 1];
      ProcessBetter(t, source, iface, init, now);
      var t0 := Process(t, source, iface, init, now).0;
      AddBetter(t0, RouteVia(x, source, iface, now));
      AddKeepsDistinct(t0, RouteVia(x, source, iface, now));
      assert forall y :: y in es ==> y in init || y == x;
    }
  }

  /** The entry is for `p`, below 16 hops, and better than what `t` had. */
  predicate Improvement(t: seq<Route>, x: RipEntry, p: Prefix) {
    PrefixOf(x) == p && x.cost + 1 < INFINITY && (Has(t, p) ==> x.cost + 1 < Get(t, p).metric)
  }

  /**
   What a route of the new table is: an old one, or one learned from an entry at one hop more.
   And what a changed entry is: no better than the route now in the table.
   */
  lemma {:induction false} ProcessOrigin(t: seq<Route>, source: Addr, iface: string, es: seq<RipEntry>, now: int)
    requires DistinctPrefixes(t)
    ensures var (t', changed) := Process(t, source, iface, es, now);
            && (forall p :: Has(t', p) ==>
                  || (Has(t, p) && Get(t', p) == Get(t, p))
                  || exists x :: x in es && Improvement(t, x, p) && Get(t', p) == RouteVia(x, source, iface, now))
            && (forall c :: c in changed ==>
                  Has(t', PrefixOf(c)) && Get(t', PrefixOf(c)).metric <= c.cost < INFINITY)
    decreases |es|
  {
    if es != [] {
      var init := es[..|es| - 1];
      var x := es[|es| - 1];
      ProcessOrigin(t, source, iface, init, now);
      ProcessBetter(t, source, iface, init, now);
      var (t0, changed0) := Process(t, source, iface, init, now);
      if Improves(t0, x) {
        var e := RouteVia(x, source, iface, now);
        AddKeepsDistinct(t0, e);
        AddBetter(t0, e);
        forall p | p != e.prefix ensures Has(Add(t0, e), p) == Has(t0, p)
                                 ensures Has(t0, p) ==> Get(Add(t0, e), p) == Get(t0, p) {
          AddLeavesOthers(t0, e, p);
        }
      }
    }
  }

  // ------------------------------------------------------------------ poison reverse

  /** Poison reverse keeps the length, the order and the prefixes of the list. */
  lemma PoisonKeepsPrefixes(t: seq<Route>, es: seq<RipEntry>, neighbor: Addr, i: nat)
    requires i < |es|
    ensures |Poison(t, es, neighbor)| == |es|
    ensures PrefixOf(Poison(t, es, neighbor)[i]) == PrefixOf(es[i])
    ensures Poison(t, es, neighbor)[i].cost
            == if Has(t, PrefixOf(es[i])) && Get(t, PrefixOf(es[i])).nextHop == neighbor then INFINITY else es[i].cost
  {
  }

  /** Whatever is advertised to a neighbour, it learns nothing of a prefix that is routed through it. */
  lemma NotTaughtBack(
    u: seq<Route>, v: seq<Route>, es: seq<RipEntry>, neighbor: Addr, source: Addr, iface: string, now: int,
    p: Prefix)
    requires DistinctPrefixes(v) && Has(u, p) && Get(u, p).nextHop == neighbor
    ensures var v' := Process(v, source, iface, Poison(u, es, neighbor), now).0;
            Has(v', p) == Has(v, p) && (Has(v, p) ==> Get(v', p) == Get(v, p))
  {
    var ps := Poison(u, es, neighbor);
    ProcessBetter(v, source, iface, ps, now);
    ProcessOrigin(v, source, iface, ps, now);
    hide Process;
    forall y | y in ps && PrefixOf(y) == p ensures y.cost == INFINITY {
      var i :| 0 <= i < |es| && ps[i] == y;
      PoisonKeepsPrefixes(u, es, neighbor, i);
    }
  }

  /** What is poisoned would have been a better route for the neighbour. */
  predicate Withheld(u: seq<Route>, v: seq<Route>, x: RipEntry, neighbor: Addr) {
    PoisonOne(u, x, neighbor) != x && Improvement(v, x, PrefixOf(x))
  }

  lemma UselessStays(u: seq<Route>, v: seq<Route>, t: seq<Route>, x: RipEntry, neighbor: Addr)
    requires Better(t, v) && !Withheld(u, v, x, neighbor)
    ensures var y := PoisonOne(u, x, neighbor);
            y == x || (!Improves(t, x) && !Improves(t, y))
  {
  }

  lemma {:induction false} UnimprovingIsHarmless(
    u: seq<Route>, v: seq<Route>, es: seq<RipEntry>, neighbor: Addr, source: Addr, iface: string, now: int)
    requires DistinctPrefixes(v)
    requires forall x :: x in es ==> !Withheld(u, v, x, neighbor)
    ensures Process(v, source, iface, Poison(u, es, neighbor), now) == Process(v, source, iface, es, now)
    decreases |es|
  {
    hide Has, Get, Add, Improves, Withheld, PoisonOne, Better;
    if es != [] {
      var init := es[..|es| - 1];
      var ps := Poison(u, es, neighbor);
      assert ps[..|ps| - 1] == Poison(u, init, neighbor);
      UnimprovingIsHarmless(u, v, init, neighbor, source, iface, now);
      ProcessBetter(v, source, iface, init, now);
      var x := es[|es| - 1];
      assert x in es && ps[|ps| - 1] == PoisonOne(u, x, neighbor);
      UselessStays(u, v, Process(v, source, iface, init, now).0, x, neighbor);
    }
  }

  /** Every entry of a prefix is poisoned alike, so that nothing else teaches the neighbour the route. */
  lemma WithheldIsMissing(
    u: seq<Route>, v: seq<Route>, es: seq<RipEntry>, x: RipEntry, neighbor: Addr, source: Addr, iface: string,
    now: int)
    requires DistinctPrefixes(v) && x in es && Withheld(u, v, x, neighbor)
    ensures Process(v, source, iface, Poison(u, es, neighbor), now).0 != Process(v, source, iface, es, now).0
  {
    var p := PrefixOf(x);
    var ps := Poison(u, es, neighbor);
    var t := Process(v, source, iface, ps, now).0;
    ProcessBetter(v, source, iface, es, now);
    ProcessOrigin(v, source, iface, ps, now);
    forall y | y in ps && PrefixOf(y) == p ensures y.cost == INFINITY {
      var i :| 0 <= i < |es| && ps[i] == y;
    }
    assert Has(t, p) ==> Has(v, p) && Get(t, p) == Get(v, p);
  }

  /**
   Poison reverse changes nothing at the neighbour, neither its table nor what it sends on, exactly
   if no poisoned entry would have been a better route there.
   */
  lemma PoisonIsHarmlessIff(
    u: seq<Route>, v: seq<Route>, es: seq<RipEntry>, neighbor: Addr, source: Addr, iface: string, now: int)
    requires DistinctPrefixes(v)
    ensures Process(v, source, iface, Poison(u, es, neighbor), now) == Process(v, source, iface, es, now)
            <==> forall x :: x in es ==> !Withheld(u, v, x, neighbor)
  {
    if x :| x in es && Withheld(u, v, x, neighbor) {
      WithheldIsMissing(u, v, es, x, neighbor, source, iface, now);
    } else {
      UnimprovingIsHarmless(u, v, es, neighbor, source, iface, now);
    }
  }

  /** Some entry of the response is a better route for `p` than the table's. */
  ghost predicate Bettered(t: seq<Route>, es: seq<RipEntry>, p: Prefix) {
    exists x :: x in es && Improvement(t, x, p)
  }

  /**
   The lost writes.  A response changes anything of a route the table has, its metric or the time
   of its last update, exactly if it holds a better one.  So a route's own next hop neither
   refreshes it by confirming its metric, nor makes it worse, nor takes it back with a cost of 16.
   */
  lemma RefreshedIff(t: seq<Route>, source: Addr, iface: string, es: seq<RipEntry>, now: int, p: Prefix)
    requires DistinctPrefixes(t) && Has(t, p)
    ensures var t' := Process(t, source, iface, es, now).0;
            && Has(t', p)
            && (Get(t', p) == Get(t, p) <==> !Bettered(t, es, p))
            && (Get(t', p).metric < Get(t, p).metric <==> Bettered(t, es, p))
  {
    ProcessBetter(t, source, iface, es, now);
    ProcessOrigin(t, source, iface, es, now);
    var t' := Process(t, source, iface, es, now).0;
    assert Get(t', p).metric <= Get(t, p).metric;
    if x :| x in es && Improvement(t, x, p) {
      assert Get(t', p).metric <= x.cost + 1;
    }
  }

  /** The changed entry tells the neighbours of the route that the table has now. */
  predicate Tells(c: RipEntry, t: seq<Route>, p: Prefix) {
    PrefixOf(c) == p && Has(t, p) && c.cost == Get(t, p).metric
  }

  /** A changed entry is of a prefix that was bettered, and every route that is new is among them. */
  lemma {:induction false} ChangedEntries(t: seq<Route>, source: Addr, iface: string, es: seq<RipEntry>, now: int)
    requires DistinctPrefixes(t)
    ensures var (t', changed) := Process(t, source, iface, es, now);
            && (forall c :: c in changed ==> Bettered(t, es, PrefixOf(c)))
            && (forall p :: Has(t', p) && !(Has(t, p) && Get(t', p) == Get(t, p)) ==>
                  exists c :: c in changed && Tells(c, t', p))
    decreases |es|
  {
    if es != [] {
      var init := es[..|es| - 1];
      var x := es[|es| - 1];
      ChangedEntries(t, source, iface, init, now);
      ProcessBetter(t, source, iface, init, now);
      var (t0, changed0) := Process(t, source, iface, init, now);
      var (t', changed) := Process(t, source, iface, es, now);
      assert forall y :: y in init ==> y in es;
      var e := RouteVia(x, source, iface, now);
      AddKeepsDistinct(t0, e);
      hide Has, Get, Add;
      forall c | c in changed ensures Bettered(t, es, PrefixOf(c)) {
        if c in changed0 {
          var y :| y in init && Improvement(t, y, PrefixOf(c));
        } else {
          assert x in es && Improvement(t, x, PrefixOf(c));
        }
      }
      forall p | Has(t', p) && !(Has(t, p) && Get(t', p) == Get(t, p))
        ensures exists c :: c in changed && Tells(c, t', p) {
        if Improves(t0, x) && p == e.prefix {
          assert RipEntry(x.cost + 1, x.address, x.mask) in changed;
          assert Tells(RipEntry(x.cost + 1, x.address, x.mask), t', p);
        } else {
          if Improves(t0, x) {
            AddLeavesOthers(t0, e, p);
          }
          var c :| c in changed0 && Tells(c, t0, p);
          assert c in changed && Tells(c, t', p);
        }
      }
    }
  }

  /** The least cost that the response offers for the prefix. */
  ghost predicate IsLeastOffer(es: seq<RipEntry>, p: Prefix, cost: int) {
    && (exists x :: x in es && PrefixOf(x) == p && x.cost == cost)
    && forall x :: x in es && PrefixOf(x) == p ==> cost <= x.cost
  }

  /**
   What a response makes of any prefix.  If an entry betters it, the route is the response's: through
   its source and its interface, one hop more than the least cost offered, as of now; and the
   triggered update tells of it.  Otherwise nothing changes and nothing is told.
   */
  lemma LearnsLeastOffer(t: seq<Route>, source: Addr, iface: string, es: seq<RipEntry>, now: int, p: Prefix)
    requires DistinctPrefixes(t)
    ensures var (t', changed) := Process(t, source, iface, es, now);
            if Bettered(t, es, p) then
              && Has(t', p) && IsLeastOffer(es, p, Get(t', p).metric - 1)
              && Get(t', p) == Route(p, source, iface, Get(t', p).metric, RouteSource.Rip, now)
              && exists c :: c in changed && Tells(c, t', p)
            else
              && Has(t', p) == Has(t, p) && (Has(t, p) ==> Get(t', p) == Get(t, p))
              && forall c :: c in changed ==> PrefixOf(c) != p
  {
    ProcessBetter(t, source, iface, es, now);
    ProcessOrigin(t, source, iface, es, now);
    ChangedEntries(t, source, iface, es, now);
    var (t', changed) := Process(t, source, iface, es, now);
    hide Process, Has, Get, Tells, DistinctPrefixes;
    if Bettered(t, es, p) {
      var x :| x in es && Improvement(t, x, p);
      assert Has(t', p) && Get(t', p).metric <= x.cost + 1;
      hide Better;
      var y :| y in es && Improvement(t, y, p) && Get(t', p) == RouteVia(y, source, iface, now);
      assert forall z :: z in es && PrefixOf(z) == p && z.cost + 1 < INFINITY ==> y.cost <= z.cost;
      assert IsLeastOffer(es, p, y.cost);
      hide Bettered, IsLeastOffer, PrefixOf;
    } else {
      hide IsLeastOffer;
    }
  }

  /** What the loop of ProcessRIPResponse adds in turn `i`. */
  lemma ProcessTurn(t: seq<Route>, source: Addr, iface: string, es: seq<RipEntry>, i: nat, now: int)
    requires i < |es|
    ensures var (t0, changed) := Process(t, source, iface, es[..i], now);
            var x := es[i];
            Process(t, source, iface, es[..i + 1], now)
            == if Improves(t0, x) then
                 (Add(t0, RouteVia(x, source, iface, now)), changed + [RipEntry(x.cost + 1, x.address, x.mask)])
               else (t0, changed)
  {
    assert es[..i + 1][..i] == es[..i];
  }

  // ------------------------------------------------------------------ in place

  /** An interface: its name and the prefix of its network. */
  datatype Interface = Interface(name: string, netmask: Prefix)

  predicate FirstContaining(ifs: seq<Interface>, ip: Addr, i: nat) {
    i < |ifs| && Contains(ifs[i].netmask, ip) && forall k :: 0 <= k < i ==> !Contains(ifs[k].netmask, ip)
  }

  /** getInterfaceForIP, the interfaces being listed in the order the map yields them. */
  function InterfaceFor(ifs: seq<Interface>, ip: Addr): (name: string)
    ensures (exists i :: 0 <= i < |ifs| && name == ifs[i].name && FirstContaining(ifs, ip, i))
            || (name == "" && forall i :: 0 <= i < |ifs| ==> !Contains(ifs[i].netmask, ip))
  {
    if ifs == [] then ""
    else if Contains(ifs[0].netmask, ip) then
      assert FirstContaining(ifs, ip, 0);
      ifs[0].name
    else
      assert forall i :: 0 <= i < |ifs| - 1 && FirstContaining(ifs[1..], ip, i) ==> FirstContaining(ifs, ip, i + 1);
      InterfaceFor(ifs[1..], ip)
  }

  datatype Update = Update(dst: Addr, entries: seq<RipEntry>)

  /** One poisoned copy of the entries per neighbour. */
  function Updates(t: seq<Route>, es: seq<RipEntry>, neighbors: seq<Addr>): (us: seq<Update>)
    ensures |us| == |neighbors|
    ensures forall i :: 0 <= i < |neighbors| ==> us[i] == Update(neighbors[i], Poison(t, es, neighbors[i]))
  {
    seq(|neighbors|, i requires 0 <= i < |neighbors| => Update(neighbors[i], Poison(t, es, neighbors[i])))
  }

  class IPStack {
    const table: ForwardingTable
    const interfaces: seq<Interface>
    const neighbors: seq<Addr>
    var sent: seq<Update>       // RIP responses handed to SendIP

    ghost predicate Valid()
      reads this, table
    {
      table.Valid() && NoAddr !in neighbors
    }

    constructor (t: ForwardingTable, ifs: seq<Interface>, ns: seq<Addr>)
      requires t.Valid() && NoAddr !in ns
      ensures Valid() && table == t && interfaces == ifs && neighbors == ns && sent == []
    {
      table, interfaces, neighbors, sent := t, ifs, ns, [];
    }

    method GetAllRIPEntries() returns (es: seq<RipEntry>)
      requires Valid()
      ensures es == Advertise(table.Entries())
    {
      es := [];
      for i := 0 to table.len
        invariant |es| == i && forall k :: 0 <= k < i ==> es[k] == EntryOf(table.Entries()[k])
      {
        es := es + [EntryOf(table.slots[i])];
      }
    }

    /**
     For the zero address, which the zero route of a failed Lookup has as its next hop, the entries
     without a route are dropped.  Configured neighbours have other addresses.
     */
    method ApplyPoisonReverse(es: seq<RipEntry>, neighbor: Addr) returns (ps: seq<RipEntry>)
      requires Valid()
      ensures ps == Poison(table.Entries(), Passed(table.Entries(), es, neighbor), neighbor)
      ensures neighbor != NoAddr ==> ps == Poison(table.Entries(), es, neighbor)
    {
      ghost var t := table.Entries();
      ps := [];
      PassedAll(t, es, neighbor);
      for i := 0 to |es|
        invariant ps == Poison(t, Passed(t, es[..i], neighbor), neighbor)
      {
        var route, exists_ := table.Lookup(PrefixOf(es[i]));
        PoisonTurn(t, es, i, neighbor);
        if exists_ && route.nextHop == neighbor {
          ps := ps + [RipEntry(INFINITY, es[i].address, es[i].mask)];
        } else {
          if route.nextHop != neighbor {
            ps := ps + [es[i]];
          }
        }
      }
      assert es[..|es|] == es;
    }

    method SendTriggeredUpdate(changed: seq<RipEntry>)
      requires Valid()
      modifies this`sent
      ensures sent == old(sent) + Updates(table.Entries(), changed, neighbors)
    {
      ghost var us := Updates(table.Entries(), changed, neighbors);
      for i := 0 to |neighbors|
        invariant sent == old(sent) + us[..i]
      {
        assert neighbors[i] in neighbors;
        var ps := ApplyPoisonReverse(changed, neighbors[i]);
        sent := sent + [Update(neighbors[i], ps)];
        assert us[..i + 1] == us[..i] + [us[i]];
      }
      assert us[..|neighbors|] == us;
    }

    /** ProcessRIPResponse, triggered update included. */
    method ProcessRIPResponse(source: Addr, es: seq<RipEntry>, now: int)
      requires Valid()
      modifies this`sent, table, table.slots
      ensures Valid() && (table.slots == old(table.slots) || fresh(table.slots))
      ensures table.Entries() == Process(old(table.Entries()), source, InterfaceFor(interfaces, source), es, now).0
      ensures var changed := Process(old(table.Entries()), source, InterfaceFor(interfaces, source), es, now).1;
              sent == if changed == [] then old(sent) else old(sent) + Updates(table.Entries(), changed, neighbors)
    {
      ghost var t := table.Entries();
      ghost var iface := InterfaceFor(interfaces, source);
      var changed: seq<RipEntry> := [];
      assert Process(t, source, iface, es[..0], now) == (t, []);
      hide Process, Add, Get, Has;
      for i := 0 to |es|
        invariant Valid() && (table.slots == old(table.slots) || fresh(table.slots)) && sent == old(sent)
        invariant (table.Entries(), changed) == Process(t, source, iface, es[..i], now)
      {
        var x := es[i];
        ProcessTurn(t, source, iface, es, i, now);
        var cost := x.cost + 1;
        var oldEntry, exists_ := table.Lookup(PrefixOf(x));
        if cost >= INFINITY {
          if oldEntry.nextHop == source {
            oldEntry := oldEntry.(lastUpdated := now, metric := cost);
          }
        } else {
          if !exists_ || cost < oldEntry.metric {
            table.AddRoute(Route(PrefixOf(x), source, InterfaceFor(interfaces, source), cost, Rip, now));
            changed := changed + [RipEntry(cost, x.address, x.mask)];
          } else if oldEntry.nextHop == source {
            oldEntry := oldEntry.(lastUpdated := now, metric := cost);
          }
        }
      }
      assert es[..|es|] == es;
      if |changed| > 0 {
        SendTriggeredUpdate(changed);
      }
    }
  }
}
