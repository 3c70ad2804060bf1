/**
 A run that ends in a forwarding loop.  Router 0 holds a prefix and is next to router 1; routers 1, 2
 and 3 are next to each other.  The route spreads from 0 to 1, 2 and 3; then router 1 sweeps its own
 away, and learns the prefix from router 3, which still routes it through 2 and 1.
 */
module RoutingLoop {
  import opened Addresses
  import opened Bytes
  import opened Forwarding
  import opened Rip
  import opened RipNetwork
  import opened RipBacking

  const P := Prefix(0x0A000000, 8)

  function At(r: nat): Addr
    requires r < 4
  {
    V4(r + 1)
  }

  function Via(r: nat, metric: int): Route
    requires r < 4
  {
    Route(P, At(r), "", metric, RouteSource.Rip, 0)
  }

  function Triangle(): Net {
    Graph(
      map[At(0) := 0, At(1) := 1, At(2) := 2, At(3) := 3],
      {Link(At(0), At(1)), Link(At(1), At(0)), Link(At(1), At(2)), Link(At(2), At(1)),
       Link(At(2), At(3)), Link(At(3), At(2)), Link(At(3), At(1)), Link(At(1), At(3))},
      [[Route(P, At(0), "", 0, Local, 0)], [], [], []],
      false)
  }

  ghost predicate Leads(s: State, evs: seq<Event>, t: State) {
    Run(Triangle(), s, evs) && After(Triangle(), s, evs) == t
  }

  lemma {:induction false} RunsJoin(s: State, evs: seq<Event>, t: State, more: seq<Event>, u: State)
    requires Leads(s, evs, t) && Leads(t, more, u)
    ensures Leads(s, evs + more, u)
    decreases |evs|
  {
    if evs == [] {
      assert evs + more == more;
    } else {
      assert (evs + more)[1..] == evs[1..] + more;
      RunsJoin(Happen(Triangle(), s, evs[0]), evs[1..], t, more, u);
    }
  }

  /** One periodic update, sent and delivered: the receiver had no route, and has one now. */
  lemma UpdateTeaches(s: State, i: nat, j: nat, e: Route) returns (evs: seq<Event>, t: State)
    requires |s.tables| == 4 && i < 4 && j < 4 && i != j && Link(At(i), At(j)) in Triangle().links
    requires s.tables[i] == [e] && s.tables[j] == []
    requires e.prefix == P && 0 <= e.metric < 15 && e.nextHop != At(j)
    ensures Leads(s, evs, t) && t.tables == s.tables[j := [Via(i, e.metric + 1)]]
  {
    var net, l := Triangle(), Link(At(i), At(j));
    assert From(net, l) == i && To(net, l) == j;
    var m := Periodic(s.tables[i], l);
    var x := EntryOf(e);
    assert Has([e], P) && m.entries == [x];
    var s1 := Happen(net, s, Send(l));
    t := Happen(net, s1, Deliver(m, "", 0));
    assert [x][..0] == [];
    assert Process([], At(i), "", [], 0) == ([], []);
    assert Add([], Via(i, e.metric + 1)) == [Via(i, e.metric + 1)];
    assert Process([], At(i), "", [x], 0).0 == [Via(i, e.metric + 1)];
    evs := [Send(l), Deliver(m, "", 0)];
    assert evs[1..] == [Deliver(m, "", 0)] && [Deliver(m, "", 0)][1..] == [];
    assert Run(net, t, []) && Run(net, s1, [Deliver(m, "", 0)]);
    assert After(net, s1, [Deliver(m, "", 0)]) == t;
  }

  lemma SweepRemoves(s: State) returns (evs: seq<Event>, t: State)
    requires |s.tables| == 4 && s.tables[1] == [Via(0, 1)]
    ensures Leads(s, evs, t) && t.tables == s.tables[1 := []]
  {
    evs := [Sweep(1, 100, 10)];
    t := Happen(Triangle(), s, evs[0]);
    assert [Via(0, 1)][1..] == [] && evs[1..] == [];
    assert Run(Triangle(), t, []);
  }

  lemma LoopIsUnbacked(tables: seq<seq<Route>>)
    requires tables == [[Route(P, At(0), "", 0, Local, 0)], [Via(3, 4)], [Via(1, 2)], [Via(2, 3)]]
    ensures ForwardsTo(Triangle(), tables, P, 1, 3)
    ensures ForwardsTo(Triangle(), tables, P, 3, 2)
    ensures ForwardsTo(Triangle(), tables, P, 2, 1)
    ensures Has(tables[2], P) && !FromNeighbor(Triangle(), tables, 2, P)
  {
    hide GoodGraph;
    assert Has(tables[1], P) && Get(tables[1], P) == Via(3, 4);
    assert Has(tables[3], P) && Get(tables[3], P) == Via(2, 3);
    assert Has(tables[2], P) && Get(tables[2], P) == Via(1, 2);
  }

  lemma NotBacked(t: State)
    requires |t.tables| == 4 && Has(t.tables[2], P) && !FromNeighbor(Triangle(), t.tables, 2, P)
    ensures !Inv(Triangle(), t)
  {
    hide GoodGraph, FromNeighbor, Sound;
    assert !Has(Triangle().initial[2], P);
  }

  /**
   Loop freedom fails past its condition: one sweep at router 1, between five updates, and router 1
   forwards to 3, 3 to 2, and 2 to 1.
   */
  lemma SweepMakesLoop() returns (evs: seq<Event>)
    ensures Run(Triangle(), Init(Triangle()), evs) && !AllSpare(Triangle(), Init(Triangle()), evs)
    ensures var tables := Reached(Triangle(), evs).tables;
            && ForwardsTo(Triangle(), tables, P, 1, 3)
            && ForwardsTo(Triangle(), tables, P, 3, 2)
            && ForwardsTo(Triangle(), tables, P, 2, 1)
  {
    var s0 := Init(Triangle());
    var e1, s1 := UpdateTeaches(s0, 0, 1, s0.tables[0][0]);
    var e2, s2 := UpdateTeaches(s1, 1, 2, Via(0, 1));
    var e3, s3 := UpdateTeaches(s2, 2, 3, Via(1, 2));
    var e4, s4 := SweepRemoves(s3);
    var e5, s5 := UpdateTeaches(s4, 3, 1, Via(2, 3));
    hide Leads;
    RunsJoin(s0, e1, s1, e2, s2);
    RunsJoin(s0, e1 + e2, s2, e3, s3);
    RunsJoin(s0, e1 + e2 + e3, s3, e4, s4);
    RunsJoin(s0, e1 + e2 + e3 + e4, s4, e5, s5);
    evs := e1 + e2 + e3 + e4 + e5;
    hide Triangle, Inv, Init;
    LoopIsUnbacked(s5.tables);
    InitBacked(Triangle());
    RunBackedIff(Triangle(), Init(Triangle()), evs);
    NotBacked(s5);
  }
}
