/**
 The forwarding table of pkg/ipstack: longest-prefix match, least-metric routes per prefix, and
 the timeout sweep that removes routes from the array it is ranging over.
 */
module Forwarding {
  import opened Addresses
  import opened Bytes
  import Slices

  datatype RouteSource = Static | Rip | Local

  datatype Route = Route(
    prefix: Prefix, nextHop: Addr, iface: string, metric: int, source: RouteSource, lastUpdated: int)

  // ------------------------------------------------------------------ the table as a list

  /** Index of the route for `p`, or the length of the table. */
  function IndexOf(t: seq<Route>, p: Prefix): (i: nat)
    ensures i <= |t|
    ensures i < |t| ==> t[i].prefix == p
    ensures forall k :: 0 <= k < i ==> t[k].prefix != p
  {
    if t == [] || t[0].prefix == p then 0 else 1 + IndexOf(t[1..], p)
  }

  predicate Has(t: seq<Route>, p: Prefix) {
    IndexOf(t, p) < |t|
  }

  function Get(t: seq<Route>, p: Prefix): Route
    requires Has(t, p)
  {
    t[IndexOf(t, p)]
  }

  /** AddRoute: replaces a route of the same prefix only by one of smaller metric. */
  function Add(t: seq<Route>, e: Route): seq<Route> {
    var i := IndexOf(t, e.prefix);
    if i == |t| then t + [e] else if e.metric < t[i].metric then t[i := e] else t
  }

  function Remove(t: seq<Route>, p: Prefix): seq<Route> {
    var i := IndexOf(t, p);
    if i == |t| then t else t[..i] + t[i + 1..]
  }

  predicate DistinctPrefixes(t: seq<Route>) {
    forall i, j :: 0 <= i < j < |t| ==> t[i].prefix != t[j].prefix
  }

  lemma IndexIs(t: seq<Route>, i: nat)
    requires DistinctPrefixes(t) && i < |t|
    ensures IndexOf(t, t[i].prefix) == i
  {
  }

  lemma AddKeepsDistinct(t: seq<Route>, e: Route)
    requires DistinctPrefixes(t)
    ensures DistinctPrefixes(Add(t, e))
    ensures Has(Add(t, e), e.prefix)
    ensures Get(Add(t, e), e.prefix)
            == if Has(t, e.prefix) && Get(t, e.prefix).metric <= e.metric then Get(t, e.prefix) else e
  {
    IndexIs(Add(t, e), IndexOf(t, e.prefix));
  }

  lemma AddLeavesOthers(t: seq<Route>, e: Route, p: Prefix)
    requires DistinctPrefixes(t) && p != e.prefix
    ensures Has(Add(t, e), p) == Has(t, p)
    ensures Has(t, p) ==> Get(Add(t, e), p) == Get(t, p)
  {
    AddKeepsDistinct(t, e);
    var t' := Add(t, e);
    hide DistinctPrefixes;
    var i := IndexOf(t, p);
    if i < |t| {
      assert t'[i] == t[i];
      IndexIs(t', i);
    }
  }

  lemma RemoveKeepsDistinct(t: seq<Route>, q: Prefix)
    requires DistinctPrefixes(t)
    ensures DistinctPrefixes(Remove(t, q)) && !Has(Remove(t, q), q) && Remove(Remove(t, q), q) == Remove(t, q)
  {
    var t' := Remove(t, q);
    assert Has(t, q) ==> forall k: nat :: k < |t'| ==> t'[k] == t[Slices.OldPlace(IndexOf(t, q), k)];
  }

  /** A route that is in a table with distinct prefixes is the one for its prefix. */
  lemma FoundIn(t: seq<Route>, e: Route)
    requires DistinctPrefixes(t) && e in t
    ensures Has(t, e.prefix) && Get(t, e.prefix) == e
  {
    var i :| 0 <= i < |t| && t[i] == e;
    IndexIs(t, i);
  }

  lemma HasMeansIn(t: seq<Route>, p: Prefix)
    requires Has(t, p)
    ensures Get(t, p) in t && Get(t, p).prefix == p
  {
  }

  lemma RemoveLeavesIn(t: seq<Route>, q: Prefix)
    ensures forall e :: e in Remove(t, q) ==> e in t
    ensures forall e :: e in t && e.prefix != q ==> e in Remove(t, q)
  {
    var i := IndexOf(t, q);
    if i < |t| {
      assert t == t[..i] + [t[i]] + t[i + 1..];
    }
  }

  lemma RemoveLeavesOthers(t: seq<Route>, q: Prefix, p: Prefix)
    requires DistinctPrefixes(t) && p != q
    ensures Has(Remove(t, q), p) == Has(t, p)
    ensures Has(t, p) ==> Get(Remove(t, q), p) == Get(t, p)
  {
    RemoveKeepsDistinct(t, q);
    RemoveLeavesIn(t, q);
    var t' := Remove(t, q);
    hide DistinctPrefixes, Remove, Has, Get;
    if Has(t, p) {
      HasMeansIn(t, p);
      FoundIn(t', Get(t, p));
    } else if Has(t', p) {
      HasMeansIn(t', p);
      FoundIn(t, Get(t', p));
    }
  }

  /** What RemoveRoute's loop finds: the place of the prefix, or none. */
  lemma RemovesAt(t: seq<Route>, i: nat, p: Prefix)
    requires i <= |t| && forall k :: 0 <= k < i ==> t[k].prefix != p
    ensures i == |t| ==> Remove(t, p) == t
    ensures i < |t| && t[i].prefix == p ==> Remove(t, p) == t[..i] + t[i + 1..]
  {
    assert i < |t| && t[i].prefix == p ==> IndexOf(t, p) == i;
  }

  // ------------------------------------------------------------------ histories

  datatype Op = AddRoute(e: Route) | RemoveRoute(p: Prefix)

  function Apply(t: seq<Route>, op: Op): seq<Route> {
    match op
    case AddRoute(e) => Add(t, e)
    case RemoveRoute(p) => Remove(t, p)
  }

  function TableAfter(ops: seq<Op>): seq<Route>
    decreases |ops|
  {
    if ops == [] then [] else Apply(TableAfter(ops[..|ops| - 1]), ops[|ops| - 1])
  }

  /** The routes offered for `p` since it was last removed, in order. */
  function Offers(ops: seq<Op>, p: Prefix): seq<Route>
    decreases |ops|
  {
    if ops == [] then []
    else
      var before := Offers(ops[..|ops| - 1], p);
      match ops[|ops| - 1]
      case AddRoute(e) => if e.prefix == p then before + [e] else before
      case RemoveRoute(q) => if q == p then [] else before
  }

  predicate LeastAt(offers: seq<Route>, i: nat)
    requires i < |offers|
  {
    forall k :: 0 <= k < |offers| ==>
      if k < i then offers[i].metric < offers[k].metric else offers[i].metric <= offers[k].metric
  }

  /** The first of the offers with the least metric. */
  ghost predicate IsFirstLeast(offers: seq<Route>, e: Route) {
    exists i :: 0 <= i < |offers| && offers[i] == e && LeastAt(offers, i)
  }

  /**
   After any history, prefixes are distinct, a prefix has a route exactly when one was offered
   since its last removal, and that route is the first offer of least metric.
   */
  lemma {:induction false} TableIsLeastMetricMap(ops: seq<Op>, p: Prefix)
    ensures DistinctPrefixes(TableAfter(ops))
    ensures Has(TableAfter(ops), p) <==> Offers(ops, p) != []
    ensures Has(TableAfter(ops), p) ==> IsFirstLeast(Offers(ops, p), Get(TableAfter(ops), p))
    decreases |ops|
  {
    if ops != [] {
      var init := ops[..|ops| - 1];
      TableIsLeastMetricMap(init, p);
      var t := TableAfter(init);
      match ops[|ops| - 1]
      case RemoveRoute(q) =>
        RemoveKeepsDistinct(t, q);
        if q != p { RemoveLeavesOthers(t, q, p); }
      case AddRoute(e) =>
        AddKeepsDistinct(t, e);
        if e.prefix != p {
          AddLeavesOthers(t, e, p);
        } else {
          var before := Offers(init, p);
          var after := before + [e];
          if Has(t, p) {
            var i :| 0 <= i < |before| && before[i] == Get(t, p) && LeastAt(before, i);
            assert after[i] == before[i];
            assert LeastAt(after, if before[i].metric <= e.metric then i else |before|);
          } else {
            assert after[0] == e && LeastAt(after, 0);
          }
        }
    }
  }

  // ------------------------------------------------------------------ longest-prefix match

  /**
   Entry `i` has the most prefix bits of all that contain the address.  Of several it is the
   first, except that a later default route displaces an earlier one.
   */
  predicate IsLongestMatch(t: seq<Route>, dest: Addr, i: nat) {
    && i < |t| && Contains(t[i].prefix, dest)
    && forall k :: 0 <= k < |t| && Contains(t[k].prefix, dest) ==>
         && t[k].prefix.bits <= t[i].prefix.bits
         && (k < i && t[i].prefix.bits > 0 ==> t[k].prefix.bits < t[i].prefix.bits)
         && (k > i ==> t[i].prefix.bits > 0)
  }

  /** At most one entry is the longest match. */
  lemma LongestMatchIsOne(t: seq<Route>, dest: Addr, i: nat, j: nat)
    requires IsLongestMatch(t, dest, i) && IsLongestMatch(t, dest, j)
    ensures i == j
  {
  }

  /**
   What another route at the end of the table does to the choice: nothing, if it does not contain the
   address or is not longer; but the first route that does, any longer one, and any one after a
   default route is chosen.
   */
  lemma LongestMatchGrows(t: seq<Route>, e: Route, dest: Addr, i: nat)
    requires IsLongestMatch(t + [e], dest, i)
    ensures if i == |t|
            then Contains(e.prefix, dest) && forall j: nat :: IsLongestMatch(t, dest, j) ==>
                   e.prefix.bits > t[j].prefix.bits || t[j].prefix.bits == 0
            else IsLongestMatch(t, dest, i)
                 && (Contains(e.prefix, dest) ==> e.prefix.bits <= t[i].prefix.bits && t[i].prefix.bits > 0)
  {
    var t' := t + [e];
    assert t'[|t|] == e && t'[..|t|] == t;
    hide Contains;
    if i == |t| {
      forall j: nat | IsLongestMatch(t, dest, j) ensures e.prefix.bits > t[j].prefix.bits || t[j].prefix.bits == 0 {
        assert t'[j] == t[j];
      }
    } else {
      assert t'[i] == t[i];
      forall k | 0 <= k < |t| && Contains(t[k].prefix, dest)
        ensures t[k].prefix.bits <= t[i].prefix.bits
        ensures k < i && t[i].prefix.bits > 0 ==> t[k].prefix.bits < t[i].prefix.bits
        ensures k > i ==> t[i].prefix.bits > 0 {
        assert t'[k] == t[k];
      }
    }
  }

  // ------------------------------------------------------------------ the timeout sweep

  predicate Expired(e: Route, now: int, timeout: int) {
    e.source == Rip && now - e.lastUpdated > timeout
  }

  /**
   What one sweep leaves of `t`: each removal shifts the next route under the range's feet, so it
   is skipped; only the last route of the table is seen again, in the slot that the shift vacates.
   */
  function SweepResult(t: seq<Route>, now: int, timeout: int): seq<Route> {
    if t == [] then []
    else if !Expired(t[0], now, timeout) then [t[0]] + SweepResult(t[1..], now, timeout)
    else if |t| <= 2 then SweepResult(t[1..], now, timeout)
    else [t[1]] + SweepResult(t[2..], now, timeout)
  }

  /** The table a sweep will leave, when it has reached slot `i` of `n` and the table is `t`. */
  function SweepFrom(t: seq<Route>, i: nat, n: nat, last: Route, now: int, timeout: int): seq<Route> {
    if i < |t| then t[..i] + SweepResult(t[i..], now, timeout)
    else if i < n && Expired(last, now, timeout) then Remove(t, last.prefix)
    else t
  }

  /** Every survivor keeps its place in the order. */
  predicate Subsequence(s: seq<Route>, t: seq<Route>) {
    s == [] || (t != [] && (if s[0] == t[0] then Subsequence(s[1..], t[1..]) else Subsequence(s, t[1..])))
  }

  /** No route but the last is expired right behind another expired one. */
  predicate NoTwinsButLast(t: seq<Route>, now: int, timeout: int) {
    forall i :: 0 <= i < |t| - 1 && Expired(t[i], now, timeout) && Expired(t[i + 1], now, timeout) ==> i + 2 == |t|
  }

  predicate AllFresh(t: seq<Route>, now: int, timeout: int) {
    forall e :: e in t ==> !Expired(e, now, timeout)
  }

  function FreshOnly(t: seq<Route>, now: int, timeout: int): seq<Route> {
    if t == [] then []
    else (if Expired(t[0], now, timeout) then [] else [t[0]]) + FreshOnly(t[1..], now, timeout)
  }

  lemma {:induction false} DropFirst(s: seq<Route>, t: seq<Route>)
    requires Subsequence(s, t) && s != []
    ensures Subsequence(s[1..], t)
  {
    if s[0] == t[0] {
      if |s| > 1 {
        if s[1] == t[0] {
          DropFirst(s[1..], t[1..]);
        }
      }
    } else {
      DropFirst(s, t[1..]);
      if |s| > 1 && s[1] == t[0] {
        DropFirst(s[1..], t[1..]);
      }
    }
  }

  /** A subsequence stays one when a route is put in front of the whole, or of both. */
  lemma {:induction false} Widen(s: seq<Route>, t: seq<Route>, e: Route)
    requires Subsequence(s, t)
    ensures Subsequence(s, [e] + t) && Subsequence([e] + s, [e] + t)
  {
    assert ([e] + t)[1..] == t && ([e] + s)[1..] == s;
    if s != [] && s[0] == e {
      DropFirst(s, t);
    }
  }

  /**
   One sweep removes only expired RIP routes and reorders nothing; and it removes at least one if
   any is expired.
   */
  lemma {:induction false} SweepIsSound(t: seq<Route>, now: int, timeout: int)
    ensures var s := SweepResult(t, now, timeout);
            && Subsequence(s, t)
            && FreshOnly(s, now, timeout) == FreshOnly(t, now, timeout)
            && (AllFresh(t, now, timeout) ==> s == t)
            && (!AllFresh(t, now, timeout) ==> |s| < |t|)
  {
    hide Expired;
    if t == [] {
    } else if !Expired(t[0], now, timeout) || |t| <= 2 {
      SweepIsSound(t[1..], now, timeout);
      assert t == [t[0]] + t[1..];
      Widen(SweepResult(t[1..], now, timeout), t[1..], t[0]);
    } else {
      assert t == [t[0]] + t[1..] && t[1..] == [t[1]] + t[2..] && t[1..][1..] == t[2..];
      var s := SweepResult(t[2..], now, timeout);
      SweepIsSound(t[2..], now, timeout);
      assert ([t[1]] + s)[1..] == s;
      assert Subsequence([t[1]] + s, t[1..]);
      Widen([t[1]] + s, t[1..], t[0]);
    }
  }

  /** Whether twins are absent from `t` is decided by what follows its first `k` places. */
  predicate NoTwinsTail(t: seq<Route>, k: nat, now: int, timeout: int)
    requires k <= |t|
  {
    (forall i :: 0 <= i < k && i < |t| - 1 && Expired(t[i], now, timeout) ==>
       !Expired(t[i + 1], now, timeout) || i + 2 == |t|)
    ==> (NoTwinsButLast(t, now, timeout) <==> NoTwinsButLast(t[k..], now, timeout))
  }

  /**
   One sweep clears every expired route exactly when no expired route directly follows another,
   the last place of the table excepted.
   */
  lemma {:induction false} SweepClearsIff(t: seq<Route>, now: int, timeout: int)
    ensures AllFresh(SweepResult(t, now, timeout), now, timeout) <==> NoTwinsButLast(t, now, timeout)
  {
    if t == [] {
    } else if !Expired(t[0], now, timeout) || |t| <= 2 {
      SweepClearsIff(t[1..], now, timeout);
      assert forall i :: 0 <= i < |t| - 1 ==> t[1..][i] == t[i + 1];
      assert forall i :: 1 <= i < |t| ==> t[1..][i - 1] == t[i];
      assert |t| > 1 && !Expired(t[0], now, timeout) ==> NoTwinsTail(t, 1, now, timeout);
    } else {
      SweepClearsIff(t[2..], now, timeout);
      assert [t[1]] + SweepResult(t[2..], now, timeout) == SweepResult(t, now, timeout);
      assert t[1] in SweepResult(t, now, timeout);
      assert NoTwinsTail(t, 2, now, timeout);
    }
  }

  /** The table after `k` sweeps. */
  function SweepTimes(t: seq<Route>, k: nat, now: int, timeout: int): seq<Route>
    decreases k
  {
    if k == 0 then t else SweepTimes(SweepResult(t, now, timeout), k - 1, now, timeout)
  }

  lemma {:induction false} FreshIsAll(t: seq<Route>, now: int, timeout: int)
    requires AllFresh(t, now, timeout)
    ensures FreshOnly(t, now, timeout) == t
  {
    if t != [] {
      FreshIsAll(t[1..], now, timeout);
    }
  }

  lemma {:induction false} StaysFresh(t: seq<Route>, k: nat, now: int, timeout: int)
    requires AllFresh(t, now, timeout)
    ensures SweepTimes(t, k, now, timeout) == t
  {
    if k > 0 {
      SweepIsSound(t, now, timeout);
      StaysFresh(t, k - 1, now, timeout);
    }
  }

  /** Enough sweeps leave exactly the routes that have not expired, in their order. */
  lemma {:induction false} RepeatedSweepsClear(t: seq<Route>, k: nat, now: int, timeout: int)
    requires k >= |t|
    ensures SweepTimes(t, k, now, timeout) == FreshOnly(t, now, timeout)
    decreases k
  {
    SweepIsSound(t, now, timeout);
    if AllFresh(t, now, timeout) {
      FreshIsAll(t, now, timeout);
    }
    if k > 0 {
      if AllFresh(t, now, timeout) {
        StaysFresh(t, k, now, timeout);
      } else {
        RepeatedSweepsClear(SweepResult(t, now, timeout), k - 1, now, timeout);
      }
    }
  }

  lemma {:induction false} InSubsequence(s: seq<Route>, t: seq<Route>)
    requires Subsequence(s, t)
    ensures forall e :: e in s ==> e in t
    ensures DistinctPrefixes(t) ==> DistinctPrefixes(s)
  {
    if s != [] {
      assert forall e :: e in s <==> e == s[0] || e in s[1..];
      assert DistinctPrefixes(t) ==> DistinctPrefixes(t[1..]);
      InSubsequence(if s[0] == t[0] then s[1..] else s, t[1..]);
      assert s[0] == t[0] ==> forall i :: 1 <= i < |s| ==> s[i] == s[1..][i - 1] && s[i] in t[1..];
    }
  }

  lemma {:induction false} FreshRoutes(t: seq<Route>, now: int, timeout: int)
    ensures forall e :: e in FreshOnly(t, now, timeout) <==> e in t && !Expired(e, now, timeout)
  {
    if t != [] {
      FreshRoutes(t[1..], now, timeout);
      assert forall e :: e in t <==> e == t[0] || e in t[1..];
    }
  }

  /**
   A sweep changes no route, and removes none but a RIP route that was last updated more than the
   timeout ago.
   */
  lemma SweepKeepsRoutes(t: seq<Route>, now: int, timeout: int, p: Prefix)
    requires DistinctPrefixes(t)
    ensures var s := SweepResult(t, now, timeout);
            && DistinctPrefixes(s)
            && (Has(s, p) ==> Has(t, p) && Get(s, p) == Get(t, p))
            && (Has(t, p) && !Has(s, p) ==>
                  Get(t, p).source == Rip && Get(t, p).lastUpdated < now - timeout)
  {
    var s := SweepResult(t, now, timeout);
    SweepIsSound(t, now, timeout);
    InSubsequence(s, t);
    FreshRoutes(s, now, timeout);
    FreshRoutes(t, now, timeout);
    hide SweepResult, Subsequence, FreshOnly, DistinctPrefixes, Expired;
    if Has(s, p) {
      HasMeansIn(s, p);
      FoundIn(t, Get(s, p));
    } else if Has(t, p) && !Expired(Get(t, p), now, timeout) {
      HasMeansIn(t, p);
      FoundIn(s, Get(t, p));
    }
  }

  lemma StepOverFresh(t: seq<Route>, i: nat, n: nat, last: Route, now: int, timeout: int)
    requires i < |t| <= n && t[|t| - 1] == last && !Expired(t[i], now, timeout)
    ensures SweepFrom(t, i + 1, n, last, now, timeout) == SweepFrom(t, i, n, last, now, timeout)
  {
    assert t[i..][0] == t[i] && t[i..][1..] == t[i + 1..];
    var r := SweepResult(t[i + 1..], now, timeout);
    assert t[..i] + ([t[i]] + r) == t[..i + 1] + r;
    assert i + 1 == |t| ==> r == [] && t[..i + 1] + r == t;
  }

  /** Removing the route at a known place. */
  lemma RemoveIs(t: seq<Route>, i: nat)
    requires DistinctPrefixes(t) && i < |t|
    ensures Remove(t, t[i].prefix) == t[..i] + t[i + 1..]
    ensures DistinctPrefixes(t[..i] + t[i + 1..])
    ensures Remove(t[..i] + t[i + 1..], t[i].prefix) == t[..i] + t[i + 1..]
  {
    IndexIs(t, i);
    RemoveKeepsDistinct(t, t[i].prefix);
  }

  lemma SweepOfTwo(e: Route, last: Route, now: int, timeout: int)
    requires Expired(e, now, timeout)
    ensures SweepResult([last], now, timeout) == if Expired(last, now, timeout) then [] else [last]
    ensures SweepResult([e, last], now, timeout) == SweepResult([last], now, timeout)
  {
    assert [last][1..] == [] && [e, last][1..] == [last];
  }

  lemma StepOverLastExpired(t: seq<Route>, n: nat, now: int, timeout: int)
    requires DistinctPrefixes(t) && t != []
    requires Expired(t[|t| - 1], now, timeout)
    ensures var i, last := |t| - 1, t[|t| - 1];
            SweepFrom(Remove(t, last.prefix), i + 1, n, last, now, timeout) == SweepFrom(t, i, n, last, now, timeout)
  {
    hide IndexOf, DistinctPrefixes, Remove, SweepResult;
    var i, last := |t| - 1, t[|t| - 1];
    RemoveIs(t, i);
    SweepOfTwo(last, last, now, timeout);
    assert t[..i] + t[i + 1..] == t[..i] == t[..i] + [];
    assert t[i..] == [last];
  }

  lemma StepOverLastButOne(t: seq<Route>, n: nat, now: int, timeout: int)
    requires DistinctPrefixes(t) && 2 <= |t| <= n
    requires Expired(t[|t| - 2], now, timeout)
    ensures var i, e, last := |t| - 2, t[|t| - 2], t[|t| - 1];
            SweepFrom(Remove(t, e.prefix), i + 1, n, last, now, timeout) == SweepFrom(t, i, n, last, now, timeout)
  {
    hide IndexOf, DistinctPrefixes, Remove, SweepResult;
    var i, e, last := |t| - 2, t[|t| - 2], t[|t| - 1];
    RemoveIs(t, i);
    var t' := t[..i] + [last];
    assert t' == t[..i] + t[i + 1..];
    RemoveIs(t', i);
    assert t'[..i] + t'[i + 1..] == t[..i] == t[..i] + [];
    assert t[i..] == [e, last];
    SweepOfTwo(e, last, now, timeout);
  }

  lemma StepOverExpired(t: seq<Route>, i: nat, n: nat, last: Route, now: int, timeout: int)
    requires DistinctPrefixes(t)
    requires i < |t| <= n && i + 2 < |t| && Expired(t[i], now, timeout)
    ensures SweepFrom(Remove(t, t[i].prefix), i + 1, n, last, now, timeout) == SweepFrom(t, i, n, last, now, timeout)
  {
    hide IndexOf, DistinctPrefixes, Remove;
    RemoveIs(t, i);
    var rest := t[i..];
    var t' := t[..i] + t[i + 1..];
    assert t'[..i + 1] == t[..i] + [rest[1]];
    assert t'[i + 1..] == rest[2..];
    var r := SweepResult(rest[2..], now, timeout);
    assert t[..i] + ([rest[1]] + r) == (t[..i] + [rest[1]]) + r;
  }

  /** One turn of the sweep's loop does not change what the sweep will leave. */
  lemma SweepStep(t: seq<Route>, i: nat, n: nat, last: Route, now: int, timeout: int)
    requires DistinctPrefixes(t) && i < n && |t| <= n
    requires i < |t| ==> t[|t| - 1] == last
    ensures var e := if i < |t| then t[i] else last;
            var t' := if Expired(e, now, timeout) then Remove(t, e.prefix) else t;
            && DistinctPrefixes(t')
            && SweepFrom(t', i + 1, n, last, now, timeout) == SweepFrom(t, i, n, last, now, timeout)
  {
    hide SweepResult, IndexOf, DistinctPrefixes;
    if i < |t| {
      hide SweepFrom, Remove;
      RemoveKeepsDistinct(t, t[i].prefix);
      if Expired(t[i], now, timeout) && i + 1 == |t| {
        StepOverLastExpired(t, n, now, timeout);
      } else if Expired(t[i], now, timeout) && i + 2 == |t| {
        StepOverLastButOne(t, n, now, timeout);
      } else if Expired(t[i], now, timeout) {
        StepOverExpired(t, i, n, last, now, timeout);
      } else {
        StepOverFresh(t, i, n, last, now, timeout);
      }
    } else {
      RemoveKeepsDistinct(t, last.prefix);
      assert |Remove(t, last.prefix)| <= |t|;
    }
  }

  /** The vacated slots hold the last route; if it is still in the table, it is the last one there. */
  predicate LastAtEnd(t: seq<Route>, last: Route) {
    forall k :: 0 <= k < |t| && t[k].prefix == last.prefix ==> k == |t| - 1 && t[k] == last
  }

  lemma RemoveKeepsLast(t: seq<Route>, p: Prefix, last: Route)
    requires LastAtEnd(t, last)
    ensures LastAtEnd(Remove(t, p), last)
    ensures |Remove(t, p)| == |t| - (if Has(t, p) then 1 else 0)
    ensures IndexOf(t, p) < |t| - 1 ==> |Remove(t, p)| > 0 && Remove(t, p)[|Remove(t, p)| - 1] == t[|t| - 1]
  {
    var i := IndexOf(t, p);
    var t' := Remove(t, p);
    if i < |t| {
      hide IndexOf;
      assert forall k: nat :: k < |t'| ==> t'[k] == t[Slices.OldPlace(i, k)];
    }
  }

  /**
   The backing array `back` before turn `i` of the loop: the first `len` slots are the table, the
   rest hold the last route, and the sweep is on its way to `result`.
   */
  ghost predicate Sweeping(
    back: seq<Route>, len: nat, i: nat, last: Route, now: int, timeout: int, result: seq<Route>)
  {
    && len <= |back|
    && DistinctPrefixes(back[..len])
    && LastAtEnd(back[..len], last)
    && (forall k :: len <= k < |back| ==> back[k] == last)
    && (i < len ==> back[len - 1] == last)
    && SweepFrom(back[..len], i, |back|, last, now, timeout) == result
  }

  lemma SweepingStarts(t: seq<Route>, last: Route, now: int, timeout: int)
    requires DistinctPrefixes(t) && (t != [] ==> last == t[|t| - 1])
    ensures Sweeping(t, |t|, 0, last, now, timeout, SweepResult(t, now, timeout))
  {
    assert t[..|t|] == t && t[0..] == t;
    assert t[..0] + SweepResult(t, now, timeout) == SweepResult(t, now, timeout);
  }

  lemma SweepingBounds(back: seq<Route>, len: nat, i: nat, last: Route, now: int, timeout: int, result: seq<Route>)
    requires Sweeping(back, len, i, last, now, timeout, result)
    ensures len <= |back|
    ensures i == |back| ==> back[..len] == result
  {
  }

  /** A removal in turn `i` leaves the last route in the slot it vacates, and at the end of the table. */
  lemma LastLeaves(t: seq<Route>, i: nat, e: Route, last: Route)
    requires DistinctPrefixes(t) && LastAtEnd(t, last)
    requires if i < |t| then t[i] == e && t[|t| - 1] == last else e == last
    ensures Has(t, e.prefix) ==> t != [] && t[|t| - 1] == last
    ensures i + 1 < |Remove(t, e.prefix)| ==> Remove(t, e.prefix)[|Remove(t, e.prefix)| - 1] == last
  {
    RemoveKeepsLast(t, e.prefix, last);
    if i < |t| {
      IndexIs(t, i);
    }
  }

  lemma SweepingTurn(
    back: seq<Route>, len: nat, back': seq<Route>, len': nat,
    i: nat, last: Route, now: int, timeout: int, result: seq<Route>)
    requires Sweeping(back, len, i, last, now, timeout, result) && i < |back|
    requires len' <= |back'| == |back|
    requires back'[..len']
             == if Expired(back[i], now, timeout) then Remove(back[..len], back[i].prefix) else back[..len]
    requires forall k :: len' <= k < |back| ==> back'[k] == back[k]
    ensures Sweeping(back', len', i + 1, last, now, timeout, result)
  {
    hide SweepFrom, SweepResult, IndexOf, Remove, Has, DistinctPrefixes, LastAtEnd, Expired;
    var t := back[..len];
    var e := back[i];
    assert i < len ==> t[i] == e && t[len - 1] == last;
    assert |t| == len && |back'[..len']| == len';
    SweepStep(t, i, |back|, last, now, timeout);
    RemoveKeepsLast(t, e.prefix, last);
    LastLeaves(t, i, e, last);
    assert len - 1 <= len' <= len && (len' < len ==> back[len - 1] == last);
    if i + 1 < len' {
      assert back'[..len'][len' - 1] == last;
    }
  }

  // ------------------------------------------------------------------ the table in place

  class ForwardingTable {
    var slots: array<Route>
    var len: nat

    ghost predicate Valid()
      reads this
    {
      len <= slots.Length
    }

    ghost function Entries(): seq<Route>
      requires Valid()
      reads this, slots
    {
      slots[..len]
    }

    constructor ()
      ensures Valid() && fresh(slots) && Entries() == []
    {
      slots := new Route[0];
      len := 0;
    }

    method NextHop(dest: Addr) returns (iface: string, nextHop: Addr)
      requires Valid()
      ensures (exists i: nat :: IsLongestMatch(Entries(), dest, i)
                             && iface == Entries()[i].iface && nextHop == Entries()[i].nextHop)
              || ((forall e :: e in Entries() ==> !Contains(e.prefix, dest)) && iface == "" && nextHop == NoAddr)
    {
      ghost var t := Entries();
      iface, nextHop := "", NoAddr;
      var bestBits := -1;    // Bits() of the unset bestPrefix
      ghost var best: nat := 0;
      for i := 0 to len
        invariant bestBits == -1 ==>
                    iface == "" && nextHop == NoAddr && forall k :: 0 <= k < i ==> !Contains(t[k].prefix, dest)
        invariant bestBits != -1 ==>
                    && best < i && IsLongestMatch(t[..i], dest, best)
                    && bestBits == t[best].prefix.bits && iface == t[best].iface && nextHop == t[best].nextHop
      {
        assert t[..i + 1] == t[..i] + [t[i]];
        if Contains(slots[i].prefix, dest) {
          if bestBits == 0 || slots[i].prefix.bits > bestBits {
            iface, nextHop := slots[i].iface, slots[i].nextHop;
            bestBits, best := slots[i].prefix.bits, i;
          }
        }
      }
      assert t[..len] == t;
    }

    method Lookup(p: Prefix) returns (e: Route, found: bool)
      requires Valid()
      ensures found <==> Has(Entries(), p)
      ensures e == if found then Get(Entries(), p) else Route(Prefix(0, -1), NoAddr, "", 0, Static, 0)
    {
      ghost var t := Entries();
      for i := 0 to len
        invariant forall k :: 0 <= k < i ==> t[k].prefix != p
      {
        if slots[i].prefix == p {
          return slots[i], true;
        }
      }
      return Route(Prefix(0, -1), NoAddr, "", 0, Static, 0), false;
    }

    method AddRoute(e: Route)
      requires Valid()
      modifies this, slots
      ensures Valid() && (slots == old(slots) || fresh(slots))
      ensures Entries() == Add(old(Entries()), e)
    {
      ghost var t := Entries();
      for i := 0 to len
        invariant forall k :: 0 <= k < i ==> t[k].prefix != e.prefix
        invariant Valid() && Entries() == t && slots == old(slots)
      {
        if slots[i].prefix == e.prefix {
          assert IndexOf(t, e.prefix) == i;
          if e.metric < slots[i].metric {
            slots[i] := e;
          }
          return;
        }
      }
      slots := Slices.Append(slots, len, e);
      len := len + 1;
    }

    method RemoveRoute(p: Prefix)
      requires Valid()
      modifies this, slots
      ensures Valid() && slots == old(slots)
      ensures len <= old(len) && Entries() == Remove(old(Entries()), p)
      ensures forall k :: len <= k < slots.Length ==> slots[k] == old(slots[k])
    {
      hide IndexOf, Remove;
      ghost var t := Entries();
      for i := 0 to len
        invariant forall k :: 0 <= k < i ==> t[k].prefix != p
      {
        if slots[i].prefix == p {
          RemovesAt(t, i, p);
          Slices.Shift(slots, len, i);
          len := len - 1;
          return;
        }
      }
      RemovesAt(t, len, p);
    }

    /** One turn of the sweep: slot `i` of the array, whatever earlier removals have moved there. */
    method SweepTurn(i: nat, n: nat, now: int, timeout: int, ghost last: Route, ghost result: seq<Route>)
      requires Valid() && i < n <= slots.Length
      requires Sweeping(slots[..n], len, i, last, now, timeout, result)
      modifies this, slots
      ensures Valid() && slots == old(slots)
      ensures Sweeping(slots[..n], len, i + 1, last, now, timeout, result)
    {
      hide Sweeping, Remove;
      ghost var back, len0, t0 := slots[..n], len, Entries();
      SweepingBounds(back, len0, i, last, now, timeout, result);
      assert back[..len0] == t0;
      var entry := slots[i];
      if entry.source == Rip {
        if now - entry.lastUpdated > timeout {
          RemoveRoute(entry.prefix);
        }
      }
      assert slots[..n][..len] == Entries();
      SweepingTurn(back, len0, slots[..n], len, i, last, now, timeout, result);
    }

    /**
     One pass of the loop in RIPTimeoutCheck.  It ranges over the slice as it was on entry, so
     that it goes on reading the array that RemoveRoute shifts.
     */
    method Sweep(now: int, timeout: int)
      requires Valid() && DistinctPrefixes(Entries())
      modifies this, slots
      ensures Valid() && slots == old(slots)
      ensures Entries() == SweepResult(old(Entries()), now, timeout)
    {
      ghost var t := Entries();
      ghost var last := if t == [] then Route(Prefix(0, -1), NoAddr, "", 0, Static, 0) else t[|t| - 1];
      var n := len;
      SweepingStarts(t, last, now, timeout);
      hide Sweeping, SweepResult, DistinctPrefixes;
      for i := 0 to n
        invariant Valid() && slots == old(slots) && n <= slots.Length
        invariant Sweeping(slots[..n], len, i, last, now, timeout, SweepResult(t, now, timeout))
      {
        SweepTurn(i, n, now, timeout, last, SweepResult(t, now, timeout));
      }
      SweepingBounds(slots[..n], len, n, last, now, timeout, SweepResult(t, now, timeout));
      assert slots[..n][..len] == Entries();
    }
  }
}
