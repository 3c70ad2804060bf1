/**
 Whether the next hop of a route has a shorter route itself.  As long as nobody sweeps away what
 others rely on, it has, and forwarding runs into no loops; and poison reverse loses nothing.
 */
module RipBacking {
  import opened Addresses
  import opened Bytes
  import opened Forwarding
  import opened Rip
  import opened RipNetwork

  predicate Supports(net: Net, tables: seq<seq<Route>>, l: Link, p: Prefix, metric: int)
    requires |tables| == |net.initial| && l in net.links
  {
    Has(tables[From(net, l)], p) && Get(tables[From(net, l)], p).metric + 1 <= metric
  }

  /** The next hop of the router's route is a neighbour whose own route is shorter. */
  ghost predicate FromNeighbor(net: Net, tables: seq<seq<Route>>, r: nat, p: Prefix)
    requires |tables| == |net.initial| && r < |tables| && Has(tables[r], p)
  {
    var e := Get(tables[r], p);
    exists l :: l in net.links && l.src == e.nextHop && To(net, l) == r && Supports(net, tables, l, p, e.metric)
  }

  predicate HonestMsg(net: Net, tables: seq<seq<Route>>, m: Msg)
    requires |tables| == |net.initial|
  {
    m.link in net.links && forall x :: x in m.entries ==> Honest(tables[From(net, m.link)], x)
  }

  ghost predicate Backed(net: Net, s: State)
    requires |s.tables| == |net.initial|
  {
    && (forall r: nat, p :: r < |s.tables| && Has(s.tables[r], p) && !Has(net.initial[r], p) ==>
          FromNeighbor(net, s.tables, r, p))
    && (forall m :: m in s.msgs ==> HonestMsg(net, s.tables, m))
  }

  ghost predicate Inv(net: Net, s: State) {
    Sound(net, s) && Backed(net, s)
  }

  predicate RouterRelies(net: Net, s: State, r: nat, p: Prefix, r': nat)
    requires |s.tables| == |net.initial|
  {
    && r' < |s.tables| && r' != r && Has(s.tables[r'], p) && !Has(net.initial[r'], p)
    && Get(s.tables[r'], p).nextHop in net.owner && net.owner[Get(s.tables[r'], p).nextHop] == r
  }

  predicate MessageRelies(net: Net, s: State, r: nat, p: Prefix, m: Msg, x: RipEntry) {
    && m in s.msgs && m.link in net.links && From(net, m.link) == r
    && x in m.entries && x.cost < INFINITY && PrefixOf(x) == p
  }

  /** Another router's RIP route for the prefix has its next hop at `r`, or a message of `r` still offers it. */
  ghost predicate Relied(net: Net, s: State, r: nat, p: Prefix)
    requires |s.tables| == |net.initial|
  {
    || (exists r': nat :: RouterRelies(net, s, r, p, r'))
    || (exists m, x :: MessageRelies(net, s, r, p, m, x))
  }

  /** The event is not a sweep that removes a route on which anything relies. */
  ghost predicate Spares(net: Net, s: State, ev: Event)
    requires |s.tables| == |net.initial|
  {
    ev.Sweep? && ev.r < |s.tables| ==>
      forall p :: Has(s.tables[ev.r], p) && !Has(SweepResult(s.tables[ev.r], ev.now, ev.timeout), p) ==>
        !Relied(net, s, ev.r, p)
  }

  // ------------------------------------------------------------------ each step

  lemma StillHonest(net: Net, tables: seq<seq<Route>>, tables': seq<seq<Route>>, m: Msg)
    requires |tables| == |tables'| == |net.initial| && HonestMsg(net, tables, m)
    requires forall r: nat :: r < |tables| ==> Better(tables'[r], tables[r])
    ensures HonestMsg(net, tables', m)
  {
    var u := From(net, m.link);
    assert Better(tables'[u], tables[u]);
  }

  /** A route stays backed while tables get better. */
  lemma StillBacked(net: Net, tables: seq<seq<Route>>, tables': seq<seq<Route>>, r: nat, p: Prefix)
    requires |tables| == |tables'| == |net.initial| && r < |tables| && Has(tables[r], p) && Has(tables'[r], p)
    requires forall r: nat :: r < |tables| ==> Better(tables'[r], tables[r])
    requires FromNeighbor(net, tables, r, p) && Get(tables'[r], p) == Get(tables[r], p)
    ensures FromNeighbor(net, tables', r, p)
  {
    var e := Get(tables[r], p);
    var l :| l in net.links && l.src == e.nextHop && To(net, l) == r && Supports(net, tables, l, p, e.metric);
    assert Better(tables'[From(net, l)], tables[From(net, l)]);
    assert Supports(net, tables', l, p, e.metric);
  }

  lemma SendBacked(net: Net, s: State, ev: Event)
    requires Inv(net, s) && CanHappen(net, s, ev) && (ev.Send? || ev.Answer?)
    ensures Backed(net, Happen(net, s, ev))
  {
    hide GoodGraph, SoundTable, SoundMsg, FromNeighbor;
    var t := s.tables[From(net, ev.l)];
    AdvertiseHonest(net, From(net, ev.l), t);
    SentSound(net, ev.l, t, Advertise(t));
  }

  lemma NewBacked(
    net: Net, s: State, m: Msg, iface: string, now: int, tables': seq<seq<Route>>, p: Prefix)
    requires |s.tables| == |tables'| == |net.initial| && HonestMsg(net, s.tables, m)
    requires var v := To(net, m.link);
             && DistinctPrefixes(s.tables[v])
             && tables'[v] == Process(s.tables[v], m.link.src, iface, m.entries, now).0
             && Has(tables'[v], p) && (Has(s.tables[v], p) ==> Get(tables'[v], p) != Get(s.tables[v], p))
    requires forall r: nat :: r < |s.tables| ==> Better(tables'[r], s.tables[r])
    ensures FromNeighbor(net, tables', To(net, m.link), p)
  {
    var v := To(net, m.link);
    ProcessOrigin(s.tables[v], m.link.src, iface, m.entries, now);
    var x :| x in m.entries && Improvement(s.tables[v], x, p)
             && Get(tables'[v], p) == RouteVia(x, m.link.src, iface, now);
    assert Better(tables'[From(net, m.link)], s.tables[From(net, m.link)]);
    assert Supports(net, tables', m.link, p, x.cost + 1);
  }

  lemma DeliverBacked(net: Net, s: State, m: Msg, iface: string, now: int)
    requires Inv(net, s) && CanHappen(net, s, Deliver(m, iface, now))
    ensures Backed(net, Happen(net, s, Deliver(m, iface, now)))
  {
    var ev := Deliver(m, iface, now);
    var s' := Happen(net, s, ev);
    var v := To(net, m.link);
    var (t', changed) := Process(s.tables[v], m.link.src, iface, m.entries, now);
    assert HonestMsg(net, s.tables, m) && SoundMsg(net, m) && SoundTable(net, v, s.tables[v]);
    ProcessSound(net, m, s.tables[v], iface, now);
    forall r: nat | r < |s.tables| ensures Better(s'.tables[r], s.tables[r]) {
    }
    hide GoodGraph, SoundMsg, Better;
    forall g | g in s'.msgs ensures HonestMsg(net, s'.tables, g) {
      if g in s.msgs {
        StillHonest(net, s.tables, s'.tables, g);
      } else {
        SentSound(net, g.link, t', changed);
      }
    }
    hide SoundTable, HonestMsg;
    forall r: nat, p | r < |s'.tables| && Has(s'.tables[r], p) && !Has(net.initial[r], p)
      ensures FromNeighbor(net, s'.tables, r, p)
    {
      if Has(s.tables[r], p) && Get(s'.tables[r], p) == Get(s.tables[r], p) {
        StillBacked(net, s.tables, s'.tables, r, p);
      } else {
        NewBacked(net, s, m, iface, now, s'.tables, p);
      }
    }
  }

  lemma SparingBacks(net: Net, s: State, r: nat, t: seq<Route>)
    requires |s.tables| == |net.initial| && Backed(net, s) && r < |s.tables|
    requires forall p :: Has(t, p) ==> Has(s.tables[r], p) && Get(t, p) == Get(s.tables[r], p)
    requires forall p :: Has(s.tables[r], p) && !Has(t, p) ==> !Relied(net, s, r, p)
    ensures Backed(net, s.(tables := s.tables[r := t]))
  {
    var s' := s.(tables := s.tables[r := t]);
    forall r2: nat, p | r2 < |s'.tables| && Has(s'.tables[r2], p) && !Has(net.initial[r2], p)
      ensures FromNeighbor(net, s'.tables, r2, p)
    {
      var e := Get(s.tables[r2], p);
      assert FromNeighbor(net, s.tables, r2, p);
      var l :| l in net.links && l.src == e.nextHop && To(net, l) == r2 && Supports(net, s.tables, l, p, e.metric);
      assert r2 != From(net, l) ==> RouterRelies(net, s, From(net, l), p, r2);
      assert Supports(net, s'.tables, l, p, e.metric);
    }
    forall m | m in s'.msgs ensures HonestMsg(net, s'.tables, m) {
      assert HonestMsg(net, s.tables, m);
      forall x | x in m.entries ensures Honest(s'.tables[From(net, m.link)], x) {
        assert x.cost < INFINITY ==> MessageRelies(net, s, From(net, m.link), PrefixOf(x), m, x);
      }
    }
  }

  lemma RelyingFails(net: Net, s: State, r: nat, t: seq<Route>, p: Prefix)
    requires |s.tables| == |net.initial| && r < |s.tables| && !Has(t, p) && Relied(net, s, r, p)
    ensures !Backed(net, s.(tables := s.tables[r := t]))
  {
    var s' := s.(tables := s.tables[r := t]);
    if r': nat :| RouterRelies(net, s, r, p, r') {
      assert !FromNeighbor(net, s'.tables, r', p);
    } else {
      var m, x :| MessageRelies(net, s, r, p, m, x);
      assert !HonestMsg(net, s'.tables, m);
    }
  }

  /** A sweep leaves every route backed and every message honest exactly if it spares what is relied on. */
  lemma SweepBackedIff(net: Net, s: State, ev: Event)
    requires Inv(net, s) && CanHappen(net, s, ev) && ev.Sweep?
    ensures Backed(net, Happen(net, s, ev)) <==> Spares(net, s, ev)
  {
    var r := ev.r;
    var s' := Happen(net, s, ev);
    assert SoundTable(net, r, s.tables[r]);
    forall p ensures Has(s'.tables[r], p) ==> Has(s.tables[r], p) && Get(s'.tables[r], p) == Get(s.tables[r], p) {
      SweepKeepsRoutes(s.tables[r], ev.now, ev.timeout, p);
    }
    hide GoodGraph, SoundTable, SoundMsg, SweepResult, Sound;
    if Spares(net, s, ev) {
      SparingBacks(net, s, r, s'.tables[r]);
    } else {
      var p :| Has(s.tables[r], p) && !Has(s'.tables[r], p) && Relied(net, s, r, p);
      RelyingFails(net, s, r, s'.tables[r], p);
    }
  }

  /** A step keeps routes backed and messages honest exactly if it spares what is relied on. */
  lemma StepBackedIff(net: Net, s: State, ev: Event)
    requires Inv(net, s) && CanHappen(net, s, ev)
    ensures Sound(net, Happen(net, s, ev))
    ensures Backed(net, Happen(net, s, ev)) <==> Spares(net, s, ev)
  {
    hide Sound, Backed, Relied;
    StepSound(net, s, ev);
    match ev
    case Deliver(m, iface, now) => DeliverBacked(net, s, m, iface, now);
    case Sweep(_, _, _) => SweepBackedIff(net, s, ev);
    case _ => SendBacked(net, s, ev);
  }

  // ------------------------------------------------------------------ every run

  ghost predicate AllSpare(net: Net, s: State, evs: seq<Event>)
    decreases |evs|
  {
    evs == [] || (
      && CanHappen(net, s, evs[0]) && Spares(net, s, evs[0])
      && AllSpare(net, Happen(net, s, evs[0]), evs[1..]))
  }

  ghost predicate AlwaysBacked(net: Net, s: State, evs: seq<Event>)
    decreases |evs|
  {
    && |s.tables| == |net.initial| && Backed(net, s)
    && (evs == [] || (CanHappen(net, s, evs[0]) && AlwaysBacked(net, Happen(net, s, evs[0]), evs[1..])))
  }

  lemma {:induction false} RunBackedIff(net: Net, s: State, evs: seq<Event>)
    requires Inv(net, s) && Run(net, s, evs)
    ensures AlwaysBacked(net, s, evs) <==> AllSpare(net, s, evs)
    ensures AllSpare(net, s, evs) ==> Inv(net, After(net, s, evs))
    decreases |evs|
  {
    assert |s.tables| == |net.initial|;
    hide Sound, Backed, Spares, Happen, CanHappen;
    if evs != [] {
      StepBackedIff(net, s, evs[0]);
      if Spares(net, s, evs[0]) {
        RunBackedIff(net, Happen(net, s, evs[0]), evs[1..]);
      } else {
        assert !AlwaysBacked(net, Happen(net, s, evs[0]), evs[1..]);
      }
    }
  }

  lemma InitBacked(net: Net)
    ensures Inv(net, Init(net))
  {
    InitSound(net);
  }

  /**
   In every state of a run from the start each RIP route's next hop is a neighbour with a route at
   least one hop shorter, and no message promises more than its sender has, exactly if no sweep of
   the run removes a route on which another route or a message relies.
   */
  lemma RoutesAreBackedIff(net: Net, evs: seq<Event>)
    requires Run(net, Init(net), evs)
    ensures AlwaysBacked(net, Init(net), evs) <==> AllSpare(net, Init(net), evs)
  {
    InitBacked(net);
    RunBackedIff(net, Init(net), evs);
  }

  // ------------------------------------------------------------------ loop freedom

  predicate HasRoute(tables: seq<seq<Route>>, r: nat, p: Prefix) {
    r < |tables| && Has(tables[r], p)
  }

  /** Router `r` forwards to router `r'`. */
  predicate ForwardsTo(net: Net, tables: seq<seq<Route>>, p: Prefix, r: nat, r': nat) {
    && HasRoute(tables, r, p) && HasRoute(tables, r', p)
    && Get(tables[r], p).nextHop in net.owner
    && net.owner[Get(tables[r], p).nextHop] == r'
  }

  /** Each router of the path forwards to the next one, towards `p`, whose route is shorter. */
  predicate Descends(net: Net, tables: seq<seq<Route>>, p: Prefix, path: seq<nat>) {
    && (forall i :: 0 <= i < |path| ==> HasRoute(tables, path[i], p))
    && (forall i :: 0 <= i < |path| - 1 ==>
          && ForwardsTo(net, tables, p, path[i], path[i + 1])
          && Get(tables[path[i + 1]], p).metric < Get(tables[path[i]], p).metric)
  }

  lemma RouteIsGood(net: Net, s: State, r: nat, p: Prefix)
    requires Inv(net, s) && r < |s.tables| && Has(s.tables[r], p)
    ensures |s.tables| == |net.initial| && SoundRoute(net, r, p, Get(s.tables[r], p))
    ensures !Has(net.initial[r], p) ==> FromNeighbor(net, s.tables, r, p)
  {
    assert SoundTable(net, r, s.tables[r]);
  }

  lemma {:induction false} FollowFrom(net: Net, s: State, r: nat, p: Prefix) returns (path: seq<nat>)
    requires Inv(net, s) && r < |s.tables| && Has(s.tables[r], p)
    ensures path != [] && path[0] == r && Descends(net, s.tables, p, path)
    ensures |path| <= Get(s.tables[r], p).metric + 1
    ensures path[|path| - 1] < |net.initial| && Has(net.initial[path[|path| - 1]], p)
    decreases Get(s.tables[r], p).metric
  {
    hide Sound, Backed, GoodGraph, Within;
    RouteIsGood(net, s, r, p);
    path := [r];
    if !Has(net.initial[r], p) {
      var e := Get(s.tables[r], p);
      var l :| l in net.links && l.src == e.nextHop && To(net, l) == r && Supports(net, s.tables, l, p, e.metric);
      RouteIsGood(net, s, From(net, l), p);
      var rest := FollowFrom(net, s, From(net, l), p);
      path := [r] + rest;
    }
  }

  /**
   Loop freedom.  After any run whose sweeps spare what is relied on, from any router with a route,
   following next hops strictly descends and ends, within as many hops as the metric says, at a
   router with a configured route for the prefix.
   */
  lemma NextHopsDescend(net: Net, evs: seq<Event>, r: nat, p: Prefix) returns (path: seq<nat>)
    requires Run(net, Init(net), evs) && AllSpare(net, Init(net), evs)
    requires r < |net.initial| && Has(Reached(net, evs).tables[r], p)
    ensures path != [] && path[0] == r && Descends(net, Reached(net, evs).tables, p, path)
    ensures |path| <= Get(Reached(net, evs).tables[r], p).metric + 1
    ensures path[|path| - 1] < |net.initial| && Has(net.initial[path[|path| - 1]], p)
  {
    InitBacked(net);
    RunBackedIff(net, Init(net), evs);
    path := FollowFrom(net, Reached(net, evs), r, p);
  }

  // ------------------------------------------------------------------ poison reverse

  /** A route learned from a neighbour is backed by the neighbour's own, which is shorter. */
  lemma PoisonedIsSupported(net: Net, s: State, l: Link, p: Prefix)
    requires Inv(net, s) && l in net.links && !LeadsBack(net, l, p)
    requires Has(s.tables[From(net, l)], p) && Get(s.tables[From(net, l)], p).nextHop == l.dst
    ensures Has(s.tables[To(net, l)], p)
    ensures Get(s.tables[To(net, l)], p).metric + 1 <= Get(s.tables[From(net, l)], p).metric
  {
    RouteIsGood(net, s, From(net, l), p);
  }

  /** What is withheld from the neighbour is what leads back to it and would have been better there. */
  lemma WithheldIff(net: Net, s: State, l: Link, v: seq<Route>, x: RipEntry)
    requires Inv(net, s) && l in net.links
    requires Better(v, s.tables[To(net, l)]) && Honest(s.tables[From(net, l)], x)
    ensures Withheld(s.tables[From(net, l)], v, x, l.dst)
            <==> LeadsBack(net, l, PrefixOf(x)) && Improvement(v, x, PrefixOf(x))
  {
    var u := s.tables[From(net, l)];
    var p := PrefixOf(x);
    assert SoundTable(net, From(net, l), u);
    hide Sound, Backed, GoodGraph, SoundTable;
    if LeadsBack(net, l, p) {
      KeptInitial(net, From(net, l), u, p);
    } else if Has(u, p) && Get(u, p).nextHop == l.dst {
      PoisonedIsSupported(net, s, l, p);
    }
  }

  /**
   What poison reverse loses.  Whatever honest entries the router sends over the link, its periodic
   table or a triggered update, and however late they arrive, as long as the neighbour has not swept
   in between: it makes the same table and the same changes of them as of the entries before
   poisoning, exactly if none of them would be a better route there for a prefix that the sender
   routes back over the link statically.
   */
  lemma PoisonLosesNothingIff(
    net: Net, s: State, later: seq<Event>, l: Link, es: seq<RipEntry>, iface: string, now: int)
    requires Inv(net, s) && Run(net, s, later) && l in net.links && NoSweepAt(later, To(net, l))
    requires forall x :: x in es ==> Honest(s.tables[From(net, l)], x)
    ensures var u := s.tables[From(net, l)];
            var v := After(net, s, later).tables[To(net, l)];
            Process(v, l.src, iface, Poison(u, es, l.dst), now) == Process(v, l.src, iface, es, now)
            <==> forall x :: x in es && LeadsBack(net, l, PrefixOf(x)) ==> !Improvement(v, x, PrefixOf(x))
  {
    var u := s.tables[From(net, l)];
    var v := After(net, s, later).tables[To(net, l)];
    RunSound(net, s, later);
    assert SoundTable(net, To(net, l), v) && Better(v, s.tables[To(net, l)]);
    PoisonIsHarmlessIff(u, v, es, l.dst, l.src, iface, now);
    hide Sound, Backed, SoundTable, GoodGraph, Process, Better;
    forall x | x in es ensures Withheld(u, v, x, l.dst)
                               <==> LeadsBack(net, l, PrefixOf(x)) && Improvement(v, x, PrefixOf(x)) {
      WithheldIff(net, s, l, v, x);
    }
  }

  /** Where no static route leads to a RIP neighbour, poison reverse loses nothing. */
  lemma PoisonLosesNothing(
    net: Net, s: State, later: seq<Event>, l: Link, es: seq<RipEntry>, iface: string, now: int)
    requires NothingLeadsBack(net) && Inv(net, s) && Run(net, s, later)
    requires l in net.links && NoSweepAt(later, To(net, l))
    requires forall x :: x in es ==> Honest(s.tables[From(net, l)], x)
    ensures var u := s.tables[From(net, l)];
            var v := After(net, s, later).tables[To(net, l)];
            Process(v, l.src, iface, Poison(u, es, l.dst), now) == Process(v, l.src, iface, es, now)
  {
    PoisonLosesNothingIff(net, s, later, l, es, iface, now);
  }

  // ------------------------------------------------------------------ what is told

  /** The message tells of the table's route for the prefix, at its metric or, if allowed, at infinity. */
  predicate TellsOf(m: Msg, t: seq<Route>, p: Prefix, x: RipEntry, poisoned: bool) {
    && x in m.entries && PrefixOf(x) == p && Has(t, p)
    && x.cost == if poisoned && Get(t, p).nextHop == m.link.dst then INFINITY else Get(t, p).metric
  }

  lemma PoisonTells(t: seq<Route>, es: seq<RipEntry>, l: Link, c: RipEntry, p: Prefix) returns (x: RipEntry)
    requires c in es && Tells(c, t, p)
    ensures TellsOf(Msg(l, Poison(t, es, l.dst)), t, p, x, true)
  {
    var i :| 0 <= i < |es| && es[i] == c;
    PoisonKeepsPrefixes(t, es, l.dst, i);
    x := Poison(t, es, l.dst)[i];
  }

  /**
   A periodic update and the answer to a request tell of every route; the update tells the next hop
   of a route that it is at infinity.
   */
  lemma EveryRouteIsTold(net: Net, s: State, l: Link, p: Prefix)
    requires Sound(net, s) && l in net.links && Has(s.tables[From(net, l)], p)
    ensures exists m, x :: m in Happen(net, s, Send(l)).msgs && m.link == l
                           && TellsOf(m, s.tables[From(net, l)], p, x, true)
    ensures net.answers ==> exists m, x :: m in Happen(net, s, Answer(l)).msgs && m.link == l
                                           && TellsOf(m, s.tables[From(net, l)], p, x, false)
  {
    var t := s.tables[From(net, l)];
    assert SoundTable(net, From(net, l), t) && SoundRoute(net, From(net, l), p, Get(t, p));
    var c := Advertise(t)[IndexOf(t, p)];
    assert c == EntryOf(Get(t, p)) && Tells(c, t, p);
    var x := PoisonTells(t, Advertise(t), l, c, p);
    hide GoodGraph, Sound, SoundTable, SoundRoute, Advertise, Poison;
    assert TellsOf(Periodic(t, l), t, p, x, true);
    assert Periodic(t, l) in Happen(net, s, Send(l)).msgs;
    hide Tells;
    assert TellsOf(Msg(l, Advertise(t)), t, p, c, false) by {
      assert c in Advertise(t);
    }
    if net.answers {
      assert Msg(l, Advertise(t)) in Happen(net, s, Answer(l)).msgs;
    }
  }

  /** A response that betters a route is told on at once, over every link. */
  lemma NewsIsToldOn(net: Net, s: State, d: Msg, iface: string, now: int, p: Prefix, l: Link)
    requires Sound(net, s) && CanHappen(net, s, Deliver(d, iface, now))
    requires l in net.links && From(net, l) == To(net, d.link) && Bettered(s.tables[From(net, l)], d.entries, p)
    ensures var s' := Happen(net, s, Deliver(d, iface, now));
            exists m, x :: m in s'.msgs && m.link == l && TellsOf(m, s'.tables[From(net, l)], p, x, true)
  {
    var v := To(net, d.link);
    var s' := Happen(net, s, Deliver(d, iface, now));
    assert SoundTable(net, v, s.tables[v]);
    LearnsLeastOffer(s.tables[v], d.link.src, iface, d.entries, now, p);
    var (t, changed) := Process(s.tables[v], d.link.src, iface, d.entries, now);
    hide Sound, SoundTable, Process, Bettered, IsLeastOffer;
    var c :| c in changed && Tells(c, t, p);
    var x := PoisonTells(t, changed, l, c, p);
    hide GoodGraph, Poison, Tells, TellsOf, Has, Get;
    var m := Msg(l, Poison(t, changed, l.dst));
    assert m in Triggered(net, v, t, changed);
    assert m in s'.msgs && s'.tables[From(net, l)] == t;
    hide Happen;
    assert TellsOf(m, s'.tables[From(net, l)], p, x, true);
  }

  // ------------------------------------------------------------------ loops of two routers

  /** The message offers no prefix, below 16, that the table routes over the message's own link. */
  predicate OffersNoneBack(t: seq<Route>, m: Msg) {
    forall x :: x in m.entries && x.cost < INFINITY ==>
      !(Has(t, PrefixOf(x)) && Get(t, PrefixOf(x)).nextHop == m.link.dst)
  }

  lemma PoisonOffersNoneBack(t: seq<Route>, es: seq<RipEntry>, l: Link)
    ensures OffersNoneBack(t, Msg(l, Poison(t, es, l.dst)))
  {
    var ps := Poison(t, es, l.dst);
    forall x | x in ps && x.cost < INFINITY ensures !(Has(t, PrefixOf(x)) && Get(t, PrefixOf(x)).nextHop == l.dst) {
      var i :| 0 <= i < |es| && ps[i] == x;
      PoisonKeepsPrefixes(t, es, l.dst, i);
    }
  }

  /** No periodic or triggered update offers back what its sender then routes through the neighbour. */
  lemma SentOffersNoneBack(net: Net, s: State, ev: Event, m: Msg)
    requires CanHappen(net, s, ev) && !ev.Answer? && m in Happen(net, s, ev).msgs && m !in s.msgs
    ensures m.link in net.links && OffersNoneBack(Happen(net, s, ev).tables[From(net, m.link)], m)
  {
    hide GoodGraph, Poison, OffersNoneBack;
    match ev
    case Send(l) => PoisonOffersNoneBack(s.tables[From(net, l)], Advertise(s.tables[From(net, l)]), l);
    case Deliver(d, iface, now) =>
      var v := To(net, d.link);
      var (t, changed) := Process(s.tables[v], d.link.src, iface, d.entries, now);
      PoisonOffersNoneBack(t, changed, m.link);
    case Sweep(_, _, _) =>
  }

  /**
   Poison reverse, what it is for.  After any run, sweeps included: if an update is delivered as soon
   as it is sent, then of no prefix for which its receiver learns a route from it, through its sender,
   does the sender's own route lead back over the link.
   */
  lemma NoLoopOfTwo(net: Net, evs: seq<Event>, ev: Event, m: Msg, iface: string, now: int, p: Prefix)
    requires Run(net, Init(net), evs) && CanHappen(net, Reached(net, evs), ev) && !ev.Answer?
    requires m in Happen(net, Reached(net, evs), ev).msgs && m !in Reached(net, evs).msgs
    ensures m.link in net.links
    ensures var s := Happen(net, Reached(net, evs), ev);
            var s' := Happen(net, s, Deliver(m, iface, now));
            var u, v := From(net, m.link), To(net, m.link);
            u != v && Has(s'.tables[v], p) && !(Has(s.tables[v], p) && Get(s'.tables[v], p) == Get(s.tables[v], p)) ==>
              && Get(s'.tables[v], p).nextHop == m.link.src
              && !(Has(s'.tables[u], p) && Get(s'.tables[u], p).nextHop == m.link.dst)
  {
    StepSound(net, Reached(net, evs), ev);
    SentOffersNoneBack(net, Reached(net, evs), ev, m);
    var s := Happen(net, Reached(net, evs), ev);
    var v := To(net, m.link);
    assert SoundTable(net, v, s.tables[v]);
    LearnsLeastOffer(s.tables[v], m.link.src, iface, m.entries, now, p);
    hide GoodGraph, Run, Reached, Sound, Process;
  }
}
