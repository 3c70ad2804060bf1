/**
 How a route ages, over any run of responses and timeout sweeps at one router.  Since responses
 do not refresh it, a route expires although its next hop goes on confirming it.
 */
module RouteAging {
  import opened Addresses
  import opened Bytes
  import opened Forwarding
  import opened Rip

  datatype Event =
    | Response(source: Addr, iface: string, es: seq<RipEntry>, now: int)
    | Sweep(now: int, timeout: int)

  function Happen(t: seq<Route>, ev: Event): seq<Route> {
    match ev
    case Response(source, iface, es, now) => Process(t, source, iface, es, now).0
    case Sweep(now, timeout) => SweepResult(t, now, timeout)
  }

  function After(t: seq<Route>, evs: seq<Event>): seq<Route>
    decreases |evs|
  {
    if evs == [] then t else After(Happen(t, evs[0]), evs[1..])
  }

  /** No response of the run offers a better route for `p` than the table has then. */
  ghost predicate NeverBettered(t: seq<Route>, evs: seq<Event>, p: Prefix)
    decreases |evs|
  {
    evs == [] || (
      && (evs[0].Response? ==> !Bettered(t, evs[0].es, p))
      && NeverBettered(Happen(t, evs[0]), evs[1..], p))
  }

  predicate OnlyResponses(evs: seq<Event>) {
    forall i :: 0 <= i < |evs| ==> evs[i].Response?
  }

  // ------------------------------------------------------------------ every run

  lemma HappenKeeps(t: seq<Route>, ev: Event, p: Prefix)
    requires DistinctPrefixes(t)
    ensures DistinctPrefixes(Happen(t, ev))
    ensures (ev.Response? ==> !Bettered(t, ev.es, p)) ==>
              (Has(Happen(t, ev), p) ==> Has(t, p) && Get(Happen(t, ev), p) == Get(t, p))
    ensures ev.Response? && Has(t, p) ==>
              && Has(Happen(t, ev), p)
              && (Get(Happen(t, ev), p) == Get(t, p) <==> !Bettered(t, ev.es, p))
              && (Get(Happen(t, ev), p).metric < Get(t, p).metric <==> Bettered(t, ev.es, p))
  {
    match ev
    case Sweep(now, timeout) => SweepKeepsRoutes(t, now, timeout, p);
    case Response(source, iface, es, now) =>
      ProcessBetter(t, source, iface, es, now);
      ProcessOrigin(t, source, iface, es, now);
      if Has(t, p) {
        RefreshedIff(t, source, iface, es, now, p);
      }
  }

  /** While nothing better is offered, a route stays exactly as it was, until it is removed for good. */
  lemma {:induction false} UnbetteredStays(t: seq<Route>, evs: seq<Event>, p: Prefix)
    requires DistinctPrefixes(t) && NeverBettered(t, evs, p)
    ensures DistinctPrefixes(After(t, evs))
    ensures Has(After(t, evs), p) ==> Has(t, p) && Get(After(t, evs), p) == Get(t, p)
    decreases |evs|
  {
    if evs != [] {
      HappenKeeps(t, evs[0], p);
      UnbetteredStays(Happen(t, evs[0]), evs[1..], p);
    }
  }

  /**
   Over any run of responses, a route is the same at the end, the time of its last update
   included, exactly if no response ever bettered it; otherwise its metric is strictly smaller.
   */
  lemma {:induction false} RefreshedOnlyByBetter(t: seq<Route>, evs: seq<Event>, p: Prefix)
    requires DistinctPrefixes(t) && Has(t, p) && OnlyResponses(evs)
    ensures var t' := After(t, evs);
            && Has(t', p)
            && (Get(t', p) == Get(t, p) <==> NeverBettered(t, evs, p))
            && (Get(t', p).metric < Get(t, p).metric <==> !NeverBettered(t, evs, p))
    decreases |evs|
  {
    if evs != [] {
      HappenKeeps(t, evs[0], p);
      RefreshedOnlyByBetter(Happen(t, evs[0]), evs[1..], p);
    }
  }

  /** When a route for the prefix was last bettered. */
  datatype Bettering = Never | LastAt(time: int)

  ghost function LastBettered(t: seq<Route>, evs: seq<Event>, p: Prefix): Bettering
    decreases |evs|
  {
    if evs == [] then Never
    else
      var later := LastBettered(Happen(t, evs[0]), evs[1..], p);
      if later.LastAt? then later
      else if evs[0].Response? && Bettered(t, evs[0].es, p) then LastAt(evs[0].now)
      else Never
  }

  lemma {:induction false} NeverMeansNever(t: seq<Route>, evs: seq<Event>, p: Prefix)
    ensures LastBettered(t, evs, p) == Never <==> NeverBettered(t, evs, p)
    decreases |evs|
  {
    if evs != [] {
      NeverMeansNever(Happen(t, evs[0]), evs[1..], p);
    }
  }

  /**
   The time stamp.  After any run of responses and sweeps, a route that was bettered in the run is
   a RIP route that was last updated when it was last bettered; any other is as it was at first.
   */
  lemma {:induction false} StampIsLastBettering(t: seq<Route>, evs: seq<Event>, p: Prefix)
    requires DistinctPrefixes(t)
    ensures var t' := After(t, evs);
            DistinctPrefixes(t') && (Has(t', p) ==>
              match LastBettered(t, evs, p)
              case Never => Has(t, p) && Get(t', p) == Get(t, p)
              case LastAt(time) => Get(t', p).lastUpdated == time && Get(t', p).source == RouteSource.Rip)
    decreases |evs|
  {
    if evs != [] {
      HappenKeeps(t, evs[0], p);
      if evs[0].Response? {
        LearnsLeastOffer(t, evs[0].source, evs[0].iface, evs[0].es, evs[0].now, p);
      }
      hide Happen, Bettered;
      StampIsLastBettering(Happen(t, evs[0]), evs[1..], p);
    }
  }

  /** No sweep of the run comes more than its timeout after `time`. */
  predicate SweptInTime(evs: seq<Event>, time: int) {
    forall i :: 0 <= i < |evs| && evs[i].Sweep? ==> evs[i].now - time <= evs[i].timeout
  }

  /** What no response betters and no sweep finds too old stays. */
  lemma {:induction false} YoungStays(t: seq<Route>, evs: seq<Event>, p: Prefix)
    requires DistinctPrefixes(t) && Has(t, p) && NeverBettered(t, evs, p)
    requires SweptInTime(evs, Get(t, p).lastUpdated)
    ensures Has(After(t, evs), p) && Get(After(t, evs), p) == Get(t, p)
    decreases |evs|
  {
    if evs != [] {
      HappenKeeps(t, evs[0], p);
      if evs[0].Sweep? {
        SweepKeepsRoutes(t, evs[0].now, evs[0].timeout, p);
      }
      assert forall i :: 0 <= i < |evs[1..]| ==> evs[1..][i] == evs[i + 1];
      YoungStays(Happen(t, evs[0]), evs[1..], p);
    }
  }

  /**
   No sweep within the timeout of the response that has last bettered a route removes it: the route
   stays as that response made it.
   */
  lemma BetteredRouteLives(
    t: seq<Route>, source: Addr, iface: string, es: seq<RipEntry>, time: int, later: seq<Event>, p: Prefix)
    requires DistinctPrefixes(t) && Bettered(t, es, p)
    requires NeverBettered(Happen(t, Response(source, iface, es, time)), later, p) && SweptInTime(later, time)
    ensures var t' := After(Happen(t, Response(source, iface, es, time)), later);
            && Has(t', p) && IsLeastOffer(es, p, Get(t', p).metric - 1)
            && Get(t', p) == Route(p, source, iface, Get(t', p).metric, RouteSource.Rip, time)
  {
    var ev := Response(source, iface, es, time);
    LearnsLeastOffer(t, source, iface, es, time, p);
    HappenKeeps(t, ev, p);
    YoungStays(Happen(t, ev), later, p);
  }

  /**
   A route expires and is removed however often its next hop confirms it: once `timeout` has passed
   since it was last bettered, enough sweeps leave no route for the prefix.
   */
  lemma ConfirmedRouteExpires(t: seq<Route>, evs: seq<Event>, p: Prefix, k: nat, now: int, timeout: int)
    requires DistinctPrefixes(t)
    requires var last := LastBettered(t, evs, p); last.LastAt? && now - last.time > timeout
    requires k >= |After(t, evs)|
    ensures !Has(SweepTimes(After(t, evs), k, now, timeout), p)
  {
    var t' := After(t, evs);
    StampIsLastBettering(t, evs, p);
    RepeatedSweepsClear(t', k, now, timeout);
    FreshRoutes(t', now, timeout);
    var s := FreshOnly(t', now, timeout);
    if Has(s, p) {
      HasMeansIn(s, p);
      FoundIn(t', Get(s, p));
    }
  }
}
