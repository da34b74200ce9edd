/**
 The site-to-site route table: per destination a list of advertised routes, kept sorted by
 metric through in-place replacement, an unstable sort and in-place compaction.
 */
module RouteTables {
  import opened Common
  import opened Slices

  datatype RouteEntry = RouteEntry(
    destination: string, viaGateway: string, viaPublicKey: string, viaEndpoint: string, metric: int, isActive: bool)

  /** The routes by destination. */
  type Routes = map<string, seq<RouteEntry>>

  /** The calls made on the table so far. */
  datatype Call =
    | Advertised(gateway: string, publicKey: string, endpoint: string, subnets: seq<string>, metric: int)
    | Withdrawn(gateway: string)

  /** The simple form: what `gateway` last said about `destination` since it last withdrew. */
  function Latest(log: seq<Call>, destination: string, gateway: string): Option<RouteEntry> {
    if log == [] then None
    else
      var earlier, last := log[..|log| - 1], log[|log| - 1];
      match last
      case Withdrawn(g) => if g == gateway then None else Latest(earlier, destination, gateway)
      case Advertised(g, key, endpoint, subnets, metric) =>
        if g == gateway && destination in subnets
        then Some(RouteEntry(destination, gateway, key, endpoint, metric, true))
        else Latest(earlier, destination, gateway)
  }

  /** The call says something about this destination and gateway. */
  predicate Concerns(c: Call, destination: string, gateway: string) {
    c.gateway == gateway && (c.Withdrawn? || destination in c.subnets)
  }

  /** The last call that concerns them decides: a withdrawal leaves nothing, an advertisement its own data. */
  lemma {:induction false} LatestExactly(log: seq<Call>, destination: string, gateway: string, i: nat)
    requires i <= |log| && forall j :: i < j < |log| ==> !Concerns(log[j], destination, gateway)
    ensures i < |log| && Concerns(log[i], destination, gateway) && log[i].Withdrawn? ==>
              Latest(log, destination, gateway) == None
    ensures i < |log| && Concerns(log[i], destination, gateway) && log[i].Advertised? ==>
              Latest(log, destination, gateway)
              == Some(RouteEntry(destination, gateway, log[i].publicKey, log[i].endpoint, log[i].metric, true))
    ensures (forall c <- log :: !Concerns(c, destination, gateway)) ==> Latest(log, destination, gateway) == None
  {
    if log != [] {
      assert log[|log| - 1] in log;
      if !Concerns(log[|log| - 1], destination, gateway) {
        var init := log[..|log| - 1];
        LatestExactly(init, destination, gateway, if i < |init| then i else |init|);
      }
    }
  }

  predicate SortedByMetric(s: seq<RouteEntry>) {
    forall i, j :: 0 <= i < j < |s| ==> s[i].metric <= s[j].metric
  }

  predicate DistinctGateways(s: seq<RouteEntry>) {
    forall i, j :: 0 <= i < j < |s| ==> s[i].viaGateway != s[j].viaGateway
  }

  ghost predicate WellFormed(routes: Routes) {
    forall d <- routes :: routes[d] != [] && SortedByMetric(routes[d]) && DistinctGateways(routes[d])
  }

  /** The table holds exactly the entries of the simple form. */
  ghost predicate Holds(routes: Routes, log: seq<Call>) {
    forall d: string, e: RouteEntry :: Has(routes, d, e) <==> Latest(log, d, e.viaGateway) == Some(e)
  }

  predicate Has(routes: Routes, d: string, e: RouteEntry) {
    d in routes && e in routes[d]
  }

  /** `entry` has taken the place of its gateway's entry for its destination; nothing else changed. */
  ghost predicate Upserted(was: Routes, now: Routes, entry: RouteEntry) {
    forall d: string, e: RouteEntry ::
      Has(now, d, e) <==>
      if d == entry.destination && e.viaGateway == entry.viaGateway then e == entry else Has(was, d, e)
  }

  /** The gateway's entries are gone, except from the destinations in `rest`. */
  ghost predicate WithdrawnBut(was: Routes, now: Routes, rest: set<string>, gateway: string) {
    forall d: string, e: RouteEntry ::
      Has(now, d, e) <==> Has(was, d, e) && (d in rest || e.viaGateway != gateway)
  }

  lemma {:induction false} AdvertiseHolds(was: Routes, now: Routes, log: seq<Call>, c: Call, i: nat)
    requires c.Advertised? && i < |c.subnets|
    requires Holds(was, log + [c.(subnets := c.subnets[..i])])
    requires Upserted(was, now, RouteEntry(c.subnets[i], c.gateway, c.publicKey, c.endpoint, c.metric, true))
    ensures Holds(now, log + [c.(subnets := c.subnets[..i + 1])])
  {
  }

  lemma {:induction false} AdvertiseNothingHolds(routes: Routes, log: seq<Call>, c: Call)
    requires c.Advertised? && c.subnets == [] && Holds(routes, log)
    ensures Holds(routes, log + [c])
  {
  }

  lemma {:induction false} WithdrawHolds(was: Routes, now: Routes, log: seq<Call>, gateway: string)
    requires Holds(was, log) && WithdrawnBut(was, now, {}, gateway)
    ensures Holds(now, log + [Withdrawn(gateway)])
  {
  }

  /** `g` advertises `d` and is not the gateway that asks. */
  ghost predicate Offers(log: seq<Call>, d: string, g: string, asker: Option<string>) {
    Latest(log, d, g).Some? && asker != Some(g)
  }

  /** `e` is what one of the offering gateways last said about `d`, and no offer has a lower metric. */
  ghost predicate IsBest(log: seq<Call>, d: string, asker: Option<string>, e: RouteEntry) {
    && Offers(log, d, e.viaGateway, asker) && Latest(log, d, e.viaGateway) == Some(e)
    && forall g :: Offers(log, d, g, asker) ==> e.metric <= Latest(log, d, g).value.metric
  }

  predicate Served(result: seq<RouteEntry>, d: string) {
    exists r <- result :: r.destination == d
  }

  lemma {:induction false} ServedGrows(result: seq<RouteEntry>, e: RouteEntry)
    ensures forall d :: Served(result + [e], d) <==> Served(result, d) || e.destination == d
  {
  }

  lemma {:induction false} LatestFields(log: seq<Call>, d: string, g: string)
    ensures var e := Latest(log, d, g);
            e.Some? ==> e.value.destination == d && e.value.viaGateway == g && e.value.isActive
  {
    if log != [] {
      LatestFields(log[..|log| - 1], d, g);
    }
  }

  // ---- Sorting -----------------------------------------------------------------

  lemma {:induction false} CountTwice<T>(s: seq<T>, i: nat, j: nat)
    requires i < j < |s| && s[i] == s[j]
    ensures multiset(s)[s[i]] >= 2
  {
    assert s == s[..j] + [s[j]] + s[j + 1..];
    assert s[..j][i] in multiset(s[..j]);
  }

  lemma {:induction false} TwicePositions<T>(s: seq<T>, x: T) returns (i: nat, j: nat)
    requires multiset(s)[x] >= 2
    ensures i < j < |s| && s[i] == s[j] == x
  {
    var n := |s| - 1;
    assert s == s[..n] + [s[n]];
    if s[n] == x {
      assert x in multiset(s[..n]);
      i :| 0 <= i < n && s[..n][i] == x;
      j := n;
    } else {
      i, j := TwicePositions(s[..n], x);
    }
  }

  /** A permutation of a list of routes over different gateways is one too. */
  lemma {:induction false} PermutedGateways(s: seq<RouteEntry>, r: seq<RouteEntry>)
    requires multiset(s) == multiset(r) && DistinctGateways(s)
    ensures DistinctGateways(r)
  {
    forall i, j | 0 <= i < j < |r|
      ensures r[i].viaGateway != r[j].viaGateway
    {
      if r[i] == r[j] {
        CountTwice(r, i, j);
        var a, b := TwicePositions(s, r[i]);
      } else {
        assert r[i] in multiset(s) && r[j] in multiset(s);
        var a :| 0 <= a < |s| && s[a] == r[i];
        var b :| 0 <= b < |s| && s[b] == r[j];
      }
    }
  }

  lemma {:induction false} InsertSorted(s: seq<RouteEntry>, x: RouteEntry, j: nat)
    requires SortedByMetric(s) && j <= |s|
    requires j > 0 ==> s[j - 1].metric <= x.metric
    requires forall k :: j <= k < |s| ==> x.metric <= s[k].metric
    ensures SortedByMetric(s[..j] + [x] + s[j..])
  {
  }

  lemma {:induction false} InsertPermutes(s: seq<RouteEntry>, x: RouteEntry, j: nat)
    requires j <= |s|
    ensures multiset(s[..j] + [x] + s[j..]) == multiset(s) + multiset{x}
  {
    assert s == s[..j] + s[j..];
  }

  /** Where `x` goes: behind everything that is not worse. */
  method InsertPosition(s: seq<RouteEntry>, x: RouteEntry) returns (j: nat)
    ensures j <= |s| && (j > 0 ==> s[j - 1].metric <= x.metric)
    ensures forall k :: j <= k < |s| ==> x.metric <= s[k].metric
  {
    j := |s|;
    while j > 0 && x.metric < s[j - 1].metric
      invariant 0 <= j <= |s|
      invariant forall k :: j <= k < |s| ==> x.metric <= s[k].metric
    {
      j := j - 1;
    }
  }

  /** Sorts by metric. Callers may only rely on a sorted permutation: the library sort is unstable. */
  method SortByMetric(s: seq<RouteEntry>) returns (r: seq<RouteEntry>)
    ensures multiset(r) == multiset(s) && SortedByMetric(r)
  {
    r := [];
    for i := 0 to |s|
      invariant multiset(r) == multiset(s[..i]) && SortedByMetric(r)
    {
      var j := InsertPosition(r, s[i]);
      InsertSorted(r, s[i], j);
      InsertPermutes(r, s[i], j);
      assert s[..i + 1] == s[..i] + [s[i]];
      r := r[..j] + [s[i]] + r[j..];
    }
    assert s[..|s|] == s;
  }

  /** What the update of a list changes: the gateway's own entry and nothing else. */
  lemma {:induction false} UpsertEffect(was: seq<RouteEntry>, list: seq<RouteEntry>, entry: RouteEntry, i: nat)
    requires DistinctGateways(was)
    requires i <= |was|
    requires list == if i < |was| then was[i := entry] else was + [entry]
    requires if i < |was| then was[i].viaGateway == entry.viaGateway
             else forall k :: 0 <= k < i ==> was[k].viaGateway != entry.viaGateway
    ensures DistinctGateways(list)
    ensures forall e :: e in list <==> e == entry || (e in was && e.viaGateway != entry.viaGateway)
  {
    forall e | e in was && e.viaGateway != entry.viaGateway
      ensures e in list
    {
      var k :| 0 <= k < |was| && was[k] == e;
      assert list[k] == e;
    }
    assert list[i] == entry;
    forall e | e in list && e != entry
      ensures e in was && e.viaGateway != entry.viaGateway
    {
      var k :| 0 <= k < |list| && list[k] == e;
      assert k != i && was[k] == e;
    }
    forall a, b | 0 <= a < b < |list|
      ensures list[a].viaGateway != list[b].viaGateway
    {
    }
  }

  // ---- The table ---------------------------------------------------------------

  class RouteTable {
    var routes: Routes
    ghost var log: seq<Call>

    /** Every list is non-empty, metric-sorted and free of duplicates, and together they refine the log. */
    ghost predicate Valid()
      reads this
    {
      WellFormed(routes) && Holds(routes, log)
    }

    constructor ()
      ensures Valid() && log == []
    {
      routes := map[];
      log := [];
    }

    /** Replaces the gateway's entry in a destination's list, or appends it, and sorts the list again. */
    method Upsert(was: seq<RouteEntry>, entry: RouteEntry) returns (sorted: seq<RouteEntry>)
      requires DistinctGateways(was)
      ensures sorted != [] && SortedByMetric(sorted) && DistinctGateways(sorted)
      ensures forall e :: e in sorted <==> e == entry || (e in was && e.viaGateway != entry.viaGateway)
    {
      var list := was;
      var i := 0;
      while i < |list| && list[i].viaGateway != entry.viaGateway
        invariant 0 <= i <= |list|
        invariant forall k :: 0 <= k < i ==> was[k].viaGateway != entry.viaGateway
      {
        i := i + 1;
      }
      if i < |list| {
        list := list[i := entry];
      } else {
        list := list + [entry];
      }
      UpsertEffect(was, list, entry, i);
      sorted := SortByMetric(list);
      PermutedGateways(list, sorted);
      assert forall e :: e in sorted <==> e in multiset(sorted);
      assert forall e :: e in list <==> e in multiset(list);
      assert entry in sorted;
    }

    method AdvertiseOne(entry: RouteEntry)
      requires WellFormed(routes)
      modifies this`routes
      ensures WellFormed(routes)
      ensures Upserted(old(routes), routes, entry)
    {
      var subnet := entry.destination;
      var sorted := Upsert(if subnet in routes then routes[subnet] else [], entry);
      routes := routes[subnet := sorted];
    }

    /** Adds or updates the gateway's routes; the log gets the call. */
    method Advertise(gateway: string, publicKey: string, endpoint: string, subnets: seq<string>, metric: int)
      requires Valid()
      modifies this
      ensures Valid() && log == old(log) + [Advertised(gateway, publicKey, endpoint, subnets, metric)]
    {
      ghost var call := Advertised(gateway, publicKey, endpoint, subnets, metric);
      AdvertiseNothingHolds(routes, log, call.(subnets := []));
      for i := 0 to |subnets|
        invariant WellFormed(routes) && log == old(log)
        invariant Holds(routes, log + [call.(subnets := subnets[..i])])
      {
        ghost var was := routes;
        AdvertiseOne(RouteEntry(subnets[i], gateway, publicKey, endpoint, metric, true));
        AdvertiseHolds(was, routes, log, call, i);
      }
      assert subnets[..|subnets|] == subnets;
      log := log + [call];
    }

    /** The list of one destination without the gateway's entry, compacted in place. */
    method WithdrawOne(list: seq<RouteEntry>, gateway: string) returns (kept: seq<RouteEntry>)
      requires SortedByMetric(list) && DistinctGateways(list)
      ensures SortedByMetric(kept) && DistinctGateways(kept)
      ensures forall e :: e in kept <==> e in list && e.viaGateway != gateway
    {
      var keep := (e: RouteEntry) => e.viaGateway != gateway;
      var a := new RouteEntry[|list|](i requires 0 <= i < |list| => list[i]);
      assert a[..] == list;
      var n := CompactInPlace(a, keep);
      kept := a[..n];
      forall i, j | 0 <= i < j < |kept|
        ensures kept[i].metric <= kept[j].metric && kept[i].viaGateway != kept[j].viaGateway
      {
        var x, y := FilterOrder(list, keep, i, j);
      }
      forall e
        ensures e in kept <==> e in list && e.viaGateway != gateway
      {
        FilterMember(list, keep, e);
      }
    }

    /** Removes all routes of the gateway, visiting the destinations in any order. */
    method Withdraw(gateway: string)
      requires Valid()
      modifies this
      ensures Valid() && log == old(log) + [Withdrawn(gateway)]
    {
      var rest := routes.Keys;
      while rest != {}
        invariant WellFormed(routes) && rest <= routes.Keys && log == old(log)
        invariant WithdrawnBut(old(routes), routes, rest, gateway)
        decreases |rest|
      {
        var dest :| dest in rest;
        ghost var was := routes;
        var filtered := WithdrawOne(routes[dest], gateway);
        if |filtered| == 0 {
          routes := routes - {dest};
        } else {
          routes := routes[dest := filtered];
        }
        rest := rest - {dest};
        forall d: string, e: RouteEntry
          ensures Has(routes, d, e) <==> Has(old(routes), d, e) && (d in rest || e.viaGateway != gateway)
        {
          assert Has(was, d, e) <==> Has(old(routes), d, e) && (d in rest + {dest} || e.viaGateway != gateway);
        }
      }
      WithdrawHolds(old(routes), routes, log, gateway);
      log := log + [Withdrawn(gateway)];
    }

    /** The first entry that is active and not via the asker. */
    method FirstUsable(list: seq<RouteEntry>, asker: Option<string>) returns (r: Option<RouteEntry>)
      requires SortedByMetric(list)
      ensures r.None? ==> forall e <- list :: !(e.isActive && asker != Some(e.viaGateway))
      ensures r.Some? ==> r.value in list && r.value.isActive && asker != Some(r.value.viaGateway)
      ensures r.Some? ==> forall e <- list :: e.isActive && asker != Some(e.viaGateway) ==> r.value.metric <= e.metric
    {
      for i := 0 to |list|
        invariant forall k :: 0 <= k < i ==> !(list[k].isActive && asker != Some(list[k].viaGateway))
      {
        if list[i].isActive && asker != Some(list[i].viaGateway) {
          return Some(list[i]);
        }
      }
      return None;
    }

    /** The best of a destination's list is the best of the simple form. */
    lemma {:induction false} UsableIsBest(d: string, asker: Option<string>, r: Option<RouteEntry>)
      requires Valid() && d in routes
      requires r.None? ==> forall e <- routes[d] :: !(e.isActive && asker != Some(e.viaGateway))
      requires r.Some? ==> r.value in routes[d] && r.value.isActive && asker != Some(r.value.viaGateway)
      requires r.Some? ==>
          forall e <- routes[d] :: e.isActive && asker != Some(e.viaGateway) ==> r.value.metric <= e.metric
      ensures r.Some? <==> exists g :: Offers(log, d, g, asker)
      ensures r.Some? ==> IsBest(log, d, asker, r.value) && r.value.destination == d
    {
      forall g | Offers(log, d, g, asker)
        ensures r.Some? && r.value.metric <= Latest(log, d, g).value.metric
      {
        LatestFields(log, d, g);
        assert Has(routes, d, Latest(log, d, g).value);
      }
      if r.Some? {
        LatestFields(log, d, r.value.viaGateway);
        assert Has(routes, d, r.value);
        assert Offers(log, d, r.value.viaGateway, asker);
      }
    }

    lemma {:induction false} NoListNoOffer(d: string)
      requires Valid() && d !in routes
      ensures forall g, asker :: !Offers(log, d, g, asker)
    {
      forall g, asker
        ensures !Offers(log, d, g, asker)
      {
        if Latest(log, d, g).Some? {
          assert !Has(routes, d, Latest(log, d, g).value);
          LatestFields(log, d, g);
        }
      }
    }

    /** The lowest-metric route to a destination, if any gateway advertises it. */
    method BestRoute(destination: string) returns (best: Option<RouteEntry>)
      requires Valid()
      ensures best.Some? <==> exists g :: Offers(log, destination, g, None)
      ensures best.Some? ==> IsBest(log, destination, None, best.value) && best.value.destination == destination
      ensures forall g :: Latest(log, destination, g).Some? ==>
                best.Some? && best.value.metric <= Latest(log, destination, g).value.metric
    {
      assert forall g :: Latest(log, destination, g).Some? ==> Offers(log, destination, g, None);
      if destination !in routes {
        NoListNoOffer(destination);
        return None;
      }
      best := FirstUsable(routes[destination], None);
      UsableIsBest(destination, None, best);
    }

    /** For every destination that someone else offers, exactly one route, the best of the others. */
    method RoutesForGateway(gateway: string) returns (result: seq<RouteEntry>)
      requires Valid()
      ensures forall r <- result :: IsBest(log, r.destination, Some(gateway), r) && r.viaGateway != gateway
      ensures forall i, j :: 0 <= i < j < |result| ==> result[i].destination != result[j].destination
      ensures forall d, g :: Offers(log, d, g, Some(gateway)) ==> Served(result, d)
    {
      result := [];
      var rest := routes.Keys;
      forall d, g | Offers(log, d, g, Some(gateway))
        ensures d in rest
      {
        if d !in routes {
          NoListNoOffer(d);
        }
      }
      while rest != {}
        invariant rest <= routes.Keys
        invariant forall r <- result :: r.destination !in rest && IsBest(log, r.destination, Some(gateway), r)
        invariant forall i, j :: 0 <= i < j < |result| ==> result[i].destination != result[j].destination
        invariant forall d, g :: Offers(log, d, g, Some(gateway)) ==> d in rest || Served(result, d)
        decreases |rest|
      {
        var dest :| dest in rest;
        var found := FirstUsable(routes[dest], Some(gateway));
        UsableIsBest(dest, Some(gateway), found);
        rest := rest - {dest};
        if found.Some? {
          ServedGrows(result, found.value);
          result := result + [found.value];
        }
      }
    }
  }
}
