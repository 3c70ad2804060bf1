/** From any reachable state, rounds of updates without a sweep bring every router to its distances. */
module RipConvergence {
  import opened Addresses
  import opened Bytes
  import opened Forwarding
  import opened Rip
  import opened RipNetwork
  import opened RipBacking

  predicate AtMost(t: seq<Route>, p: Prefix, d: nat) {
    Has(t, p) && Get(t, p).metric <= d
  }

  /** Every router has every prefix that is at most `k` hops away, at no more than its distance. */
  ghost predicate Converged(net: Net, tables: seq<seq<Route>>, k: nat)
    requires |tables| == |net.initial|
  {
    forall r: nat, p, d: nat :: r < |tables| && d <= k && d < INFINITY && Within(net, r, p, d, false) ==>
      AtMost(tables[r], p, d)
  }

  /** Either notion of distance will do, or every route is backed. */
  ghost predicate Steady(net: Net, s: State) {
    Sound(net, s) && (!net.answers || NothingLeadsBack(net) || Backed(net, s))
  }

  predicate NoSweep(evs: seq<Event>) {
    forall i :: 0 <= i < |evs| ==> !evs[i].Sweep?
  }

  lemma {:induction false} QuietSpares(net: Net, s: State, evs: seq<Event>)
    requires Run(net, s, evs) && NoSweep(evs)
    ensures AllSpare(net, s, evs)
    decreases |evs|
  {
    hide Happen;
    if evs != [] {
      QuietSpares(net, Happen(net, s, evs[0]), evs[1..]);
    }
  }

  lemma {:induction false} QuietRun(net: Net, s: State, evs: seq<Event>)
    requires Steady(net, s) && Run(net, s, evs) && NoSweep(evs)
    ensures Steady(net, After(net, s, evs))
    ensures forall r: nat :: r < |s.tables| ==> Better(After(net, s, evs).tables[r], s.tables[r])
    decreases |evs|
  {
    RunSound(net, s, evs);
    assert forall r: nat :: NoSweepAt(evs, r);
    hide Sound, Backed, Happen, CanHappen, Better, NothingLeadsBack;
    if Inv(net, s) {
      QuietSpares(net, s, evs);
      RunBackedIff(net, s, evs);
    }
  }

  // ------------------------------------------------------------------ rounds

  lemma {:induction false} RunSplits(net: Net, s: State, evs: seq<Event>, i: nat)
    requires Run(net, s, evs) && i <= |evs|
    ensures Run(net, s, evs[..i])
    ensures Run(net, After(net, s, evs[..i]), evs[i..])
    ensures After(net, After(net, s, evs[..i]), evs[i..]) == After(net, s, evs)
    decreases |evs|
  {
    hide Happen, CanHappen, GoodGraph;
    if i > 0 {
      var s1 := Happen(net, s, evs[0]);
      RunSplits(net, s1, evs[1..], i - 1);
      assert evs[..i][1..] == evs[1..][..i - 1] && evs[1..][i - 1..] == evs[i..];
    } else {
      assert evs[..0] == [] && evs[0..] == evs;
    }
  }

  ghost predicate ExchangedAt(net: Net, s: State, evs: seq<Event>, l: Link, i: nat, j: nat)
    requires Run(net, s, evs) && |s.tables| == |net.initial| && l in net.links && i < j < |evs|
  {
    RunSplits(net, s, evs, i);
    evs[i] == Send(l) && evs[j].Deliver?
    && evs[j].m == Periodic(After(net, s, evs[..i]).tables[From(net, l)], l)
  }

  /** In the run, a periodic update is sent over the link and later delivered. */
  ghost predicate Exchanged(net: Net, s: State, evs: seq<Event>, l: Link)
    requires Run(net, s, evs) && |s.tables| == |net.initial|
  {
    l in net.links && exists i, j :: 0 <= i < j < |evs| && ExchangedAt(net, s, evs, l, i, j)
  }

  /** A round: no sweep, and every router has sent its poisoned table to every neighbour, and it has arrived. */
  ghost predicate Round(net: Net, s: State, evs: seq<Event>)
    requires Run(net, s, evs) && |s.tables| == |net.initial|
  {
    NoSweep(evs) && forall l :: l in net.links ==> Exchanged(net, s, evs, l)
  }

  /**
   A route that is poisoned towards the neighbour was learned from it, and the neighbour has a
   shorter one: still, if it is backed, or else by now.
   */
  lemma PoisonedIsKnown(net: Net, start: State, sent: State, l: Link, p: Prefix, k: nat)
    requires Steady(net, sent) && l in net.links && !LeadsBack(net, l, p) && k + 1 < INFINITY
    requires |start.tables| == |net.initial| && Converged(net, start.tables, k)
    requires forall r: nat :: r < |start.tables| ==> Better(sent.tables[r], start.tables[r])
    requires AtMost(sent.tables[From(net, l)], p, k) && Get(sent.tables[From(net, l)], p).nextHop == l.dst
    ensures AtMost(sent.tables[To(net, l)], p, k)
  {
    var e := Get(sent.tables[From(net, l)], p);
    assert SoundTable(net, From(net, l), sent.tables[From(net, l)]);
    assert SoundRoute(net, From(net, l), p, e);
    if !net.answers || NothingLeadsBack(net) {
      var l' :| LearnedOver(net, l', From(net, l), p, e);
      assert From(net, l') == To(net, l);
      if net.answers {
        WithinEitherWay(net, To(net, l), p, e.metric - 1);
      }
      assert AtMost(start.tables[To(net, l)], p, e.metric - 1);
      assert Better(sent.tables[To(net, l)], start.tables[To(net, l)]);
    } else {
      PoisonedIsSupported(net, sent, l, p);
    }
  }

  /** What one delivered update teaches the receiver about `p`. */
  lemma DeliveryTeaches(net: Net, sent: State, l: Link, p: Prefix, k: nat, v: seq<Route>, iface: string, now: int)
    requires Sound(net, sent) && l in net.links && k + 1 < INFINITY && DistinctPrefixes(v)
    requires var u := sent.tables[From(net, l)]; AtMost(u, p, k) && Get(u, p).nextHop != l.dst
    ensures AtMost(Process(v, l.src, iface, Periodic(sent.tables[From(net, l)], l).entries, now).0, p, k + 1)
  {
    var u := sent.tables[From(net, l)];
    var i := IndexOf(u, p);
    var es := Poison(u, Advertise(u), l.dst);
    assert SoundTable(net, From(net, l), u) && SoundRoute(net, From(net, l), p, u[i]);
    assert PrefixOf(Advertise(u)[i]) == p && Advertise(u)[i].cost == u[i].metric;
    ProcessBetter(v, l.src, iface, es, now);
    assert es[i] == Advertise(u)[i] && es[i] in es;
  }

  lemma StayAtMost(t': seq<Route>, t: seq<Route>, p: Prefix, k: nat)
    requires AtMost(t, p, k) && Better(t', t)
    ensures Has(t, p) && AtMost(t', p, k) && AtMost(t', p, k + 1)
  {
  }

  lemma OneStep(net: Net, s: State, ev: Event)
    requires CanHappen(net, s, ev)
    ensures Run(net, s, [ev]) && After(net, s, [ev]) == Happen(net, s, ev)
  {
    assert [ev][1..] == [];
  }

  /** The states in which an update is sent, before turn `i`, and arrives, before turn `j`. */
  lemma BetweenTurns(net: Net, s: State, evs: seq<Event>, i: nat, j: nat)
    requires Steady(net, s) && Run(net, s, evs) && NoSweep(evs) && i < j < |evs|
    ensures Run(net, s, evs[..i]) && Run(net, s, evs[..j])
    ensures var si, sj := After(net, s, evs[..i]), After(net, s, evs[..j]);
            && Steady(net, si) && Steady(net, sj) && CanHappen(net, sj, evs[j])
            && forall r: nat :: r < |s.tables| ==>
                 && Better(si.tables[r], s.tables[r])
                 && Better(After(net, s, evs).tables[r], si.tables[r])
                 && Better(After(net, s, evs).tables[r], Happen(net, sj, evs[j]).tables[r])
  {
    hide Steady, Happen, CanHappen, GoodGraph, Better;
    RunSplits(net, s, evs, i);
    RunSplits(net, s, evs, j);
    RunSplits(net, s, evs, j + 1);
    var si, sj := After(net, s, evs[..i]), After(net, s, evs[..j]);
    QuietRun(net, s, evs[..i]);
    QuietRun(net, s, evs[..j]);
    QuietRun(net, si, evs[i..]);
    var rest := evs[j..];
    assert rest[0] == evs[j] && rest[1..] == evs[j + 1..];
    assert Run(net, Happen(net, sj, rest[0]), rest[1..]);
    OneStep(net, sj, rest[0]);
    QuietRun(net, sj, [rest[0]]);
    QuietRun(net, Happen(net, sj, rest[0]), rest[1..]);
  }

  lemma LinkTeaches(net: Net, s: State, evs: seq<Event>, l: Link, p: Prefix, k: nat)
    requires Steady(net, s) && |s.tables| == |net.initial| && Run(net, s, evs) && NoSweep(evs)
    requires Exchanged(net, s, evs, l) && Converged(net, s.tables, k)
    requires AtMost(s.tables[From(net, l)], p, k) && !LeadsBack(net, l, p) && k + 1 < INFINITY
    ensures AtMost(After(net, s, evs).tables[To(net, l)], p, k + 1)
  {
    var i, j :| 0 <= i < j < |evs| && ExchangedAt(net, s, evs, l, i, j);
    BetweenTurns(net, s, evs, i, j);
    var si, sj := After(net, s, evs[..i]), After(net, s, evs[..j]);
    var v := sj.tables[To(net, l)];
    assert Sound(net, si) && SoundTable(net, To(net, l), v);
    hide Sound, Converged, GoodGraph, Within, Better, AtMost, LeadsBack, Periodic, Steady, SoundTable, Run;
    StayAtMost(si.tables[From(net, l)], s.tables[From(net, l)], p, k);
    var t := After(net, s, evs).tables[To(net, l)];
    if Get(si.tables[From(net, l)], p).nextHop == l.dst {
      PoisonedIsKnown(net, s, si, l, p, k);
      StayAtMost(t, si.tables[To(net, l)], p, k);
    } else {
      DeliveryTeaches(net, si, l, p, k, v, evs[j].iface, evs[j].now);
      StayAtMost(t, Happen(net, sj, evs[j]).tables[To(net, l)], p, k + 1);
    }
  }

  /** What a round teaches one router. */
  lemma RouterLearns(net: Net, s: State, evs: seq<Event>, k: nat, r: nat, p: Prefix, d: nat)
    requires Steady(net, s) && Run(net, s, evs) && |s.tables| == |net.initial|
    requires Round(net, s, evs) && Converged(net, s.tables, k)
    requires r < |s.tables| && d <= k + 1 && d < INFINITY && Within(net, r, p, d, false)
    requires Better(After(net, s, evs).tables[r], s.tables[r])
    ensures AtMost(After(net, s, evs).tables[r], p, d)
  {
    var t := After(net, s, evs).tables[r];
    hide After, GoodGraph;
    if d <= k {
      assert AtMost(s.tables[r], p, d);
      StayAtMost(t, s.tables[r], p, d);
    } else if Has(net.initial[r], p) && Get(net.initial[r], p).metric <= d {
      assert SoundTable(net, r, s.tables[r]);
      KeptInitial(net, r, s.tables[r], p);
      StayAtMost(t, s.tables[r], p, d);
    } else {
      hide AtMost, Steady, Exchanged, Run, NoSweep, Has, Get;
      var l :| l in net.links && To(net, l) == r && Teaches(net, l, p, false)
               && Within(net, From(net, l), p, d - 1, false);
      assert AtMost(s.tables[From(net, l)], p, d - 1);
      LinkTeaches(net, s, evs, l, p, d - 1);
    }
  }

  /** One round extends convergence by one hop. */
  lemma RoundConverges(net: Net, s: State, evs: seq<Event>, k: nat)
    requires Steady(net, s) && Run(net, s, evs) && |s.tables| == |net.initial|
    requires Round(net, s, evs) && Converged(net, s.tables, k)
    ensures Converged(net, After(net, s, evs).tables, k + 1)
  {
    QuietRun(net, s, evs);
    var tables := After(net, s, evs).tables;
    forall r: nat, p, d: nat | r < |tables| && d <= k + 1 && d < INFINITY && Within(net, r, p, d, false)
      ensures AtMost(tables[r], p, d)
    {
      assert Better(tables[r], s.tables[r]);
      hide Within, AtMost, Round, Run, After, Steady, Better;
      RouterLearns(net, s, evs, k, r, p, d);
    }
  }

  // ------------------------------------------------------------------ runs of rounds

  /** A run of rounds, one after the other. */
  ghost predicate Rounds(net: Net, s: State, rounds: seq<seq<Event>>)
    requires |s.tables| == |net.initial|
    decreases |rounds|
  {
    rounds == [] || (
      && Run(net, s, rounds[0]) && Round(net, s, rounds[0])
      && Rounds(net, After(net, s, rounds[0]), rounds[1..]))
  }

  ghost function AfterRounds(net: Net, s: State, rounds: seq<seq<Event>>): (s': State)
    requires |s.tables| == |net.initial| && Rounds(net, s, rounds)
    ensures |s'.tables| == |s.tables|
    decreases |rounds|
  {
    if rounds == [] then s else AfterRounds(net, After(net, s, rounds[0]), rounds[1..])
  }

  lemma {:induction false} RoundsConverge(net: Net, s: State, rounds: seq<seq<Event>>, k: nat)
    requires Steady(net, s) && |s.tables| == |net.initial|
    requires Rounds(net, s, rounds) && Converged(net, s.tables, k)
    ensures Steady(net, AfterRounds(net, s, rounds))
    ensures Converged(net, AfterRounds(net, s, rounds).tables, k + |rounds|)
    decreases |rounds|
  {
    if rounds != [] {
      QuietRun(net, s, rounds[0]);
      RoundConverges(net, s, rounds[0], k);
      RoundsConverge(net, After(net, s, rounds[0]), rounds[1..], k + 1);
    }
  }

  lemma ReachedIsSteady(net: Net, evs: seq<Event>)
    requires Run(net, Init(net), evs)
    requires !net.answers || NothingLeadsBack(net) || AllSpare(net, Init(net), evs)
    ensures Steady(net, Reached(net, evs)) && Converged(net, Reached(net, evs).tables, 0)
  {
    InitBacked(net);
    RunBackedIff(net, Init(net), evs);
    var s := Reached(net, evs);
    forall r: nat, p | r < |s.tables| && Has(net.initial[r], p) ensures Get(s.tables[r], p) == Get(net.initial[r], p) {
      KeptInitial(net, r, s.tables[r], p);
    }
  }

  lemma NoneIsCloser(net: Net, r: nat, p: Prefix, m: nat, d: nat)
    requires r < |net.initial| && (!net.answers || NothingLeadsBack(net))
    requires IsDistance(net, r, p, d, false) && Within(net, r, p, m, net.answers)
    ensures d <= m
  {
    hide Within, GoodGraph;
    if net.answers {
      WithinEitherWay(net, r, p, m);
    }
    if m < d {
      WithinGrows(net, r, p, m, d - 1, false);
    }
  }

  /**
   Convergence.  Whatever has happened before, sweeps included: after k rounds, in which anything but
   a sweep may happen as well, every router has every prefix whose distance is at most min(k, 15), at
   exactly that distance.  If a static route leads to a RIP neighbour and requests are answered
   without poison reverse, then at no more than that distance, provided that the sweeps before spared
   what was relied on.
   */
  lemma RipConverges(net: Net, before: seq<Event>, rounds: seq<seq<Event>>, r: nat, p: Prefix, d: nat)
    requires Run(net, Init(net), before) && Rounds(net, Reached(net, before), rounds)
    requires !net.answers || NothingLeadsBack(net) || AllSpare(net, Init(net), before)
    requires r < |net.initial| && IsDistance(net, r, p, d, false) && d <= Min(|rounds|, 15)
    ensures var t := AfterRounds(net, Reached(net, before), rounds).tables[r];
            && Has(t, p) && 0 <= Get(t, p).metric <= d && Within(net, r, p, Get(t, p).metric, net.answers)
            && (!net.answers || NothingLeadsBack(net) ==> Get(t, p).metric == d)
  {
    ReachedIsSteady(net, before);
    RoundsConverge(net, Reached(net, before), rounds, 0);
    var s := AfterRounds(net, Reached(net, before), rounds);
    assert AtMost(s.tables[r], p, d);
    assert SoundTable(net, r, s.tables[r]) && SoundRoute(net, r, p, Get(s.tables[r], p));
    hide Sound, Converged, Within, GoodGraph, IsDistance, NothingLeadsBack;
    if !net.answers || NothingLeadsBack(net) {
      NoneIsCloser(net, r, p, Get(s.tables[r], p).metric, d);
    }
  }
}
