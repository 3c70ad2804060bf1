/**
 Routers exchanging RIP responses over a fixed graph with its links up, each of them removing
 expired routes now and then.  Responses may be delayed, duplicated, reordered and lost: a message
 once sent stays available.
 */
module RipNetwork {
  import opened Addresses
  import opened Bytes
  import opened Forwarding
  import opened Rip

  /** Router `owner[src]` has `dst`, an address of router `owner[dst]`, as a RIP neighbour. */
  datatype Link = Link(src: Addr, dst: Addr)

  /**
   Routers are numbered; `initial` holds the local and static routes each starts with.  `answers`
   says whether RIP requests are answered, which is done without poison reverse.
   */
  datatype Graph = Graph(owner: map<Addr, nat>, links: set<Link>, initial: seq<seq<Route>>, answers: bool)

  predicate GoodLink(g: Graph, l: Link) {
    && l.src != NoAddr && l.dst != NoAddr
    && l.src in g.owner && l.dst in g.owner
    && g.owner[l.src] < |g.initial| && g.owner[l.dst] < |g.initial|
  }

  /** A local route leads to the router itself; a static one may lead anywhere, and counts as one hop. */
  predicate Configured(g: Graph, r: nat, e: Route) {
    || (e.source == Local && e.metric == 0 && e.nextHop in g.owner && g.owner[e.nextHop] == r)
    || (e.source == Static && e.metric == 1)
  }

  predicate GoodGraph(g: Graph) {
    && (forall l :: l in g.links ==> GoodLink(g, l))
    && (forall r :: 0 <= r < |g.initial| ==> DistinctPrefixes(g.initial[r]))
    && (forall r, e :: 0 <= r < |g.initial| && e in g.initial[r] ==> Configured(g, r, e))
  }

  type Net = g: Graph | GoodGraph(g) witness Graph(map[], {}, [], false)

  datatype Msg = Msg(link: Link, entries: seq<RipEntry>)

  datatype State = State(tables: seq<seq<Route>>, msgs: set<Msg>)

  function From(net: Net, l: Link): (r: nat)
    requires l in net.links
    ensures r < |net.initial| && l.src in net.owner
  {
    assert GoodLink(net, l);
    net.owner[l.src]
  }

  function To(net: Net, l: Link): (r: nat)
    requires l in net.links
    ensures r < |net.initial|
  {
    assert GoodLink(net, l);
    net.owner[l.dst]
  }

  lemma InitialIsConfigured(net: Net, r: nat, p: Prefix)
    requires r < |net.initial| && Has(net.initial[r], p)
    ensures Configured(net, r, Get(net.initial[r], p)) && DistinctPrefixes(net.initial[r])
  {
    HasMeansIn(net.initial[r], p);
  }

  // ------------------------------------------------------------------ steps

  datatype Event =
    | Send(l: Link)                             // a periodic update
    | Answer(l: Link)                           // the reply to a RIP request, which is not poisoned
    | Deliver(m: Msg, iface: string, now: int)  // ProcessRIPResponse, triggered update included
    | Sweep(r: nat, now: int, timeout: int)     // one pass of RIPTimeoutCheck at router r

  predicate CanHappen(net: Net, s: State, ev: Event) {
    && |s.tables| == |net.initial|
    && match ev
       case Send(l) => l in net.links
       case Answer(l) => net.answers && l in net.links
       case Deliver(m, _, _) => m in s.msgs && m.link in net.links
       case Sweep(r, _, _) => r < |s.tables|
  }

  /** The response `l.src` sends over the link when its router's table is `t`. */
  function Periodic(t: seq<Route>, l: Link): Msg {
    Msg(l, Poison(t, Advertise(t), l.dst))
  }

  function Triggered(net: Net, r: nat, t: seq<Route>, changed: seq<RipEntry>): set<Msg> {
    if changed == [] then {}
    else set l | l in net.links && From(net, l) == r :: Msg(l, Poison(t, changed, l.dst))
  }

  function Happen(net: Net, s: State, ev: Event): (s': State)
    requires CanHappen(net, s, ev)
    ensures |s'.tables| == |s.tables|
  {
    match ev
    case Send(l) => s.(msgs := s.msgs + {Periodic(s.tables[From(net, l)], l)})
    case Answer(l) => s.(msgs := s.msgs + {Msg(l, Advertise(s.tables[From(net, l)]))})
    case Deliver(m, iface, now) =>
      var v := To(net, m.link);
      var (t, changed) := Process(s.tables[v], m.link.src, iface, m.entries, now);
      State(s.tables[v := t], s.msgs + Triggered(net, v, t, changed))
    case Sweep(r, now, timeout) => s.(tables := s.tables[r := SweepResult(s.tables[r], now, timeout)])
  }

  function Init(net: Net): State {
    State(net.initial, {})
  }

  // ------------------------------------------------------------------ distances

  /** The sender's own static route for the prefix leads back over the link. */
  predicate LeadsBack(net: Net, l: Link, p: Prefix)
    requires l in net.links
  {
    Has(net.initial[From(net, l)], p) && Get(net.initial[From(net, l)], p).nextHop == l.dst
  }

  /** The link teaches its receiver routes for the prefix: poison reverse or not. */
  predicate Teaches(net: Net, l: Link, p: Prefix, back: bool)
    requires l in net.links
  {
    back || !LeadsBack(net, l, p)
  }

  /** A configured route for the prefix is at most `d` hops away, over links that teach it. */
  ghost predicate Within(net: Net, r: nat, p: Prefix, d: nat, back: bool)
    requires r < |net.initial|
    decreases d
  {
    || (Has(net.initial[r], p) && Get(net.initial[r], p).metric <= d)
    || (d > 0 && exists l :: l in net.links && To(net, l) == r && Teaches(net, l, p, back)
                          && Within(net, From(net, l), p, d - 1, back))
  }

  lemma {:induction false} WithinGrows(net: Net, r: nat, p: Prefix, d: nat, d': nat, back: bool)
    requires r < |net.initial| && Within(net, r, p, d, back) && d <= d'
    ensures Within(net, r, p, d', back)
    decreases d
  {
    hide GoodGraph, Has, Get, Teaches;
    if !(Has(net.initial[r], p) && Get(net.initial[r], p).metric <= d) {
      var l :| l in net.links && To(net, l) == r && Teaches(net, l, p, back)
               && Within(net, From(net, l), p, d - 1, back);
      WithinGrows(net, From(net, l), p, d - 1, d' - 1, back);
    }
  }

  /** The number of hops from `r` to the nearest configured route for the prefix. */
  ghost predicate IsDistance(net: Net, r: nat, p: Prefix, d: nat, back: bool)
    requires r < |net.initial|
  {
    Within(net, r, p, d, back) && (d > 0 ==> !Within(net, r, p, d - 1, back))
  }

  /** No static route leads to a RIP neighbour. */
  ghost predicate NothingLeadsBack(net: Net) {
    forall l, p :: l in net.links ==> !LeadsBack(net, l, p)
  }

  /** Then the two notions of distance agree. */
  lemma {:induction false} WithinEitherWay(net: Net, r: nat, p: Prefix, d: nat)
    requires NothingLeadsBack(net) && r < |net.initial| && Within(net, r, p, d, true)
    ensures Within(net, r, p, d, false)
    decreases d
  {
    hide GoodGraph, Has, Get;
    if !(Has(net.initial[r], p) && Get(net.initial[r], p).metric <= d) {
      var l :| l in net.links && To(net, l) == r && Teaches(net, l, p, true)
               && Within(net, From(net, l), p, d - 1, true);
      WithinEitherWay(net, From(net, l), p, d - 1);
      assert Teaches(net, l, p, false);
    }
  }

  // ------------------------------------------------------------------ soundness

  /** The route came over the link, whose other end was one hop closer to a configured route. */
  ghost predicate LearnedOver(net: Net, l: Link, r: nat, p: Prefix, e: Route) {
    && l in net.links && l.src == e.nextHop && To(net, l) == r
    && e.metric > 0 && Within(net, From(net, l), p, e.metric - 1, net.answers)
  }

  /** A route of router `r`: the configured one, or one no shorter than the true distance. */
  ghost predicate SoundRoute(net: Net, r: nat, p: Prefix, e: Route)
    requires r < |net.initial|
  {
    && 0 <= e.metric < INFINITY
    && Within(net, r, p, e.metric, net.answers)
    && if Has(net.initial[r], p) then e == Get(net.initial[r], p)
       else e.source == RouteSource.Rip && exists l :: LearnedOver(net, l, r, p, e)
  }

  ghost predicate SoundTable(net: Net, r: nat, t: seq<Route>)
    requires r < |net.initial|
  {
    && DistinctPrefixes(t)
    && (forall p :: Has(net.initial[r], p) ==> Has(t, p))
    && (forall p :: Has(t, p) ==> SoundRoute(net, r, p, Get(t, p)))
  }

  ghost predicate SoundMsg(net: Net, m: Msg) {
    m.link in net.links && forall x :: x in m.entries && x.cost < INFINITY ==>
      && Teaches(net, m.link, PrefixOf(x), net.answers)
      && Within(net, From(net, m.link), PrefixOf(x), x.cost, net.answers)
  }

  ghost predicate Sound(net: Net, s: State) {
    && |s.tables| == |net.initial|
    && (forall r: nat :: r < |s.tables| ==> SoundTable(net, r, s.tables[r]))
    && (forall m :: m in s.msgs ==> SoundMsg(net, m))
  }

  /** What the entry claims is infinity, or no better than the sender's route is now. */
  predicate Honest(t: seq<Route>, x: RipEntry) {
    x.cost >= INFINITY || (Has(t, PrefixOf(x)) && Get(t, PrefixOf(x)).metric <= x.cost)
  }

  lemma InitSound(net: Net)
    ensures Sound(net, Init(net))
  {
    forall r: nat, p | r < |net.initial| && Has(net.initial[r], p)
      ensures SoundRoute(net, r, p, Get(net.initial[r], p))
    {
      InitialIsConfigured(net, r, p);
    }
  }

  /** What a router advertises is honest. */
  lemma AdvertiseHonest(net: Net, r: nat, t: seq<Route>)
    requires r < |net.initial| && SoundTable(net, r, t)
    ensures forall x :: x in Advertise(t) ==> Honest(t, x)
  {
    forall x | x in Advertise(t) ensures Honest(t, x) {
      var i :| 0 <= i < |t| && Advertise(t)[i] == x;
      IndexIs(t, i);
      assert SoundRoute(net, r, t[i].prefix, Get(t, t[i].prefix));
    }
  }

  /**
   Honest entries make a sound message.  Poison reverse withholds what leads back: the route in the
   table is still the static one.
   */
  lemma SentSound(net: Net, l: Link, t: seq<Route>, es: seq<RipEntry>)
    requires l in net.links && SoundTable(net, From(net, l), t)
    requires forall x :: x in es ==> Honest(t, x)
    ensures SoundMsg(net, Msg(l, Poison(t, es, l.dst))) && (net.answers ==> SoundMsg(net, Msg(l, es)))
    ensures forall x :: x in Poison(t, es, l.dst) ==> Honest(t, x)
  {
    var u := From(net, l);
    hide GoodGraph, Within;
    forall x | x in es && x.cost < INFINITY ensures Within(net, u, PrefixOf(x), x.cost, net.answers) {
      var p := PrefixOf(x);
      assert SoundRoute(net, u, p, Get(t, p));
      WithinGrows(net, u, p, Get(t, p).metric, x.cost, net.answers);
    }
    forall x | x in Poison(t, es, l.dst)
      ensures x.cost < INFINITY ==> x in es && !LeadsBack(net, l, PrefixOf(x))
      ensures Honest(t, x)
    {
      var i :| 0 <= i < |es| && Poison(t, es, l.dst)[i] == x;
      assert es[i] in es;
      assert Has(t, PrefixOf(x)) ==> SoundRoute(net, u, PrefixOf(x), Get(t, PrefixOf(x)));
    }
  }

  /** No entry improves on a configured route. */
  lemma NotConfigured(net: Net, r: nat, t: seq<Route>, x: RipEntry, p: Prefix)
    requires r < |net.initial| && SoundTable(net, r, t) && Improvement(t, x, p)
    ensures !Has(net.initial[r], p)
  {
    if Has(net.initial[r], p) {
      InitialIsConfigured(net, r, p);
    }
  }

  /** A sound message makes a sound table of a sound one, no entry of it worse than before. */
  lemma ProcessSound(net: Net, m: Msg, t: seq<Route>, iface: string, now: int)
    requires SoundMsg(net, m) && SoundTable(net, To(net, m.link), t)
    ensures var (t', changed) := Process(t, m.link.src, iface, m.entries, now);
            && SoundTable(net, To(net, m.link), t') && Better(t', t)
            && forall c :: c in changed ==> Honest(t', c)
  {
    var v := To(net, m.link);
    var t' := Process(t, m.link.src, iface, m.entries, now).0;
    ProcessBetter(t, m.link.src, iface, m.entries, now);
    ProcessOrigin(t, m.link.src, iface, m.entries, now);
    hide GoodGraph, Process;
    forall p | Has(t', p) ensures SoundRoute(net, v, p, Get(t', p)) {
      assert Has(t, p) ==> SoundRoute(net, v, p, Get(t, p));
      if !(Has(t, p) && Get(t', p) == Get(t, p)) {
        var x :| x in m.entries && Improvement(t, x, p) && Get(t', p) == RouteVia(x, m.link.src, iface, now);
        NotConfigured(net, v, t, x, p);
        assert LearnedOver(net, m.link, v, p, Get(t', p));
      }
    }
  }

  lemma KeptInitial(net: Net, r: nat, t: seq<Route>, p: Prefix)
    requires r < |net.initial| && SoundTable(net, r, t) && Has(net.initial[r], p)
    ensures Has(t, p) && Get(t, p) == Get(net.initial[r], p)
  {
    assert SoundRoute(net, r, p, Get(t, p));
  }

  /** A sweep leaves configured routes alone. */
  lemma SweepSound(net: Net, r: nat, t: seq<Route>, now: int, timeout: int)
    requires r < |net.initial| && SoundTable(net, r, t)
    ensures SoundTable(net, r, SweepResult(t, now, timeout))
  {
    hide GoodGraph, SweepResult, SoundRoute;
    SweepKeepsRoutes(t, now, timeout, Prefix(0, 0));
    forall p ensures Has(SweepResult(t, now, timeout), p) ==>
                       Has(t, p) && Get(SweepResult(t, now, timeout), p) == Get(t, p)
             ensures Has(net.initial[r], p) ==> Has(SweepResult(t, now, timeout), p) {
      SweepKeepsRoutes(t, now, timeout, p);
      if Has(net.initial[r], p) {
        KeptInitial(net, r, t, p);
        InitialIsConfigured(net, r, p);
      }
    }
  }

  /** Whether no sweep at router `r` is among the events. */
  predicate NoSweepAt(evs: seq<Event>, r: nat) {
    forall i :: 0 <= i < |evs| && evs[i].Sweep? ==> evs[i].r != r
  }

  /** Every step, sweeps included, keeps soundness; only a sweep makes a router's table worse. */
  lemma StepSound(net: Net, s: State, ev: Event)
    requires Sound(net, s) && CanHappen(net, s, ev)
    ensures Sound(net, Happen(net, s, ev))
    ensures forall r: nat :: r < |s.tables| && NoSweepAt([ev], r) ==> Better(Happen(net, s, ev).tables[r], s.tables[r])
  {
    hide GoodGraph, SoundTable, Process, SweepResult, Poison, Advertise;
    match ev
    case Send(l) =>
      AdvertiseHonest(net, From(net, l), s.tables[From(net, l)]);
      SentSound(net, l, s.tables[From(net, l)], Advertise(s.tables[From(net, l)]));
    case Answer(l) =>
      AdvertiseHonest(net, From(net, l), s.tables[From(net, l)]);
      SentSound(net, l, s.tables[From(net, l)], Advertise(s.tables[From(net, l)]));
    case Deliver(m, iface, now) =>
      var v := To(net, m.link);
      var (t, changed) := Process(s.tables[v], m.link.src, iface, m.entries, now);
      ProcessSound(net, m, s.tables[v], iface, now);
      forall l | l in net.links && From(net, l) == v ensures SoundMsg(net, Msg(l, Poison(t, changed, l.dst))) {
        SentSound(net, l, t, changed);
      }
    case Sweep(r, now, timeout) =>
      assert [ev][0] == ev;
      SweepSound(net, r, s.tables[r], now, timeout);
  }

  // ------------------------------------------------------------------ every run

  predicate Run(net: Net, s: State, evs: seq<Event>)
    decreases |evs|
  {
    evs == [] || (CanHappen(net, s, evs[0]) && Run(net, Happen(net, s, evs[0]), evs[1..]))
  }

  function After(net: Net, s: State, evs: seq<Event>): (s': State)
    requires Run(net, s, evs)
    ensures |s'.tables| == |s.tables|
    decreases |evs|
  {
    if evs == [] then s else After(net, Happen(net, s, evs[0]), evs[1..])
  }

  lemma {:induction false} RunSound(net: Net, s: State, evs: seq<Event>)
    requires Sound(net, s) && Run(net, s, evs)
    ensures Sound(net, After(net, s, evs))
    ensures forall r: nat :: r < |s.tables| && NoSweepAt(evs, r) ==>
              Better(After(net, s, evs).tables[r], s.tables[r])
    decreases |evs|
  {
    hide Sound, Happen, CanHappen;
    if evs != [] {
      StepSound(net, s, evs[0]);
      RunSound(net, Happen(net, s, evs[0]), evs[1..]);
      assert forall r: nat :: NoSweepAt(evs, r) ==> NoSweepAt([evs[0]], r) && NoSweepAt(evs[1..], r);
    }
  }

  /** The state reached from the start by the events. */
  function Reached(net: Net, evs: seq<Event>): (s: State)
    requires Run(net, Init(net), evs)
    ensures |s.tables| == |net.initial| && Sound(net, s)
  {
    InitSound(net);
    RunSound(net, Init(net), evs);
    After(net, Init(net), evs)
  }

  /**
   Soundness.  In every reachable state, sweeps or not, a route's metric is below 16 and at least
   the true distance; and a route learned by RIP came from a neighbour one hop closer.
   */
  lemma RoutesAreSound(net: Net, evs: seq<Event>, r: nat, p: Prefix)
    requires Run(net, Init(net), evs)
    requires r < |net.initial| && Has(Reached(net, evs).tables[r], p)
    ensures var e := Get(Reached(net, evs).tables[r], p);
            && 0 <= e.metric < INFINITY
            && Within(net, r, p, e.metric, net.answers)
            && (e.source == RouteSource.Rip ==> exists l :: LearnedOver(net, l, r, p, e))
  {
    var t := Reached(net, evs).tables[r];
    assert SoundTable(net, r, t) && SoundRoute(net, r, p, Get(t, p));
    if Has(net.initial[r], p) {
      InitialIsConfigured(net, r, p);
    }
  }
}
