/** RIP input processing, timeouts and updates (pkg/ipStack/rip.go) as functions on tables. */
module Rip {
  import opened Words
  import opened Prefixes
  import opened Forwarding

  const RIP_REQUEST: uint16 := 1
  const RIP_RESPONSE: uint16 := 2

  datatype RipEntry = RipEntry(cost: uint32, prefix: Prefix)

  /** The cost through the neighbour that advertised cost. */
  function HopCost(cost: uint32): uint32 {
    if cost < INFINITY then cost + 1 else INFINITY
  }

  /** UpdateForwardingTable, called with no interface name. */
  function Learn(t: Table, e: RipEntry, src: Addr, now: int): Table {
    t[e.prefix := FwdEntry(e.prefix, src, "", SourceType.Rip, HopCost(e.cost), now)]
  }

  /** One entry of a response from src; true when a triggered update must carry it. */
  function Process(t: Table, e: RipEntry, src: Addr, now: int): (Table, bool) {
    var c := HopCost(e.cost);
    if e.prefix !in t then (Learn(t, e, src, now), true)
    else
      var current := t[e.prefix];
      if current.source != SourceType.Rip then (t, false)
      else if c < current.cost then (Learn(t, e, src, now), true)
      else if c > current.cost && src == current.nextHop then (Learn(t, e, src, now), true)
      else if c == current.cost && src == current.nextHop then (t[e.prefix := current.(lastUpdated := now)], false)
      else (t, false)
  }

  /** A whole response, entry by entry; the second part lists the changed entries as received. */
  function ProcessAll(t: Table, es: seq<RipEntry>, src: Addr, now: int): (Table, seq<RipEntry>) {
    if es == [] then (t, [])
    else
      var n := |es| - 1;
      var (t1, changed) := ProcessAll(t, es[..n], src, now);
      var (t2, c) := Process(t1, es[n], src, now);
      (t2, if c then changed + [es[n]] else changed)
  }

  // ---- what a response does ----

  /** The metric after adding the cost of the hop, capped at infinity. */
  function Metric(e: RipEntry): nat {
    Min(e.cost + 1, INFINITY)
  }

  /** Distance-vector relaxation by one entry from src: a new destination is added through src; a
      route that already goes through src takes the new metric, better or worse; any other route
      changes only to a strictly smaller metric. A route is confirmed, now, whenever it is taken
      over or its own neighbour names it. Interface and static routes never change. */
  ghost predicate Relaxed(t: Table, t': Table, e: RipEntry, src: Addr, now: int) {
    var p := e.prefix;
    && p in t'
    && (p !in t ==> t'[p] == FwdEntry(p, src, "", SourceType.Rip, Metric(e), now))
    && (p in t && t[p].source != SourceType.Rip ==> t'[p] == t[p])
    && (p in t && t[p].source == SourceType.Rip ==>
          && t'[p].source == SourceType.Rip
          && t'[p].cost == (if t[p].nextHop == src then Metric(e) else Min(t[p].cost, Metric(e)))
          && t'[p].nextHop == (if Metric(e) < t[p].cost then src else t[p].nextHop)
          && t'[p].lastUpdated == (if t[p].nextHop == src || Metric(e) < t[p].cost then now else t[p].lastUpdated))
  }

  /** Metrics run to 16, which is unreachable. */
  lemma MetricIsOneMore(e: RipEntry)
    ensures Metric(e) == HopCost(e.cost) == if e.cost < 15 then e.cost + 1 else 16
  {
  }

  /** A destination that is new or whose cost is not what it was. */
  ghost predicate CostChanged(t: Table, t': Table, p: Prefix) {
    p in t' && (p !in t || t'[p].cost != t[p].cost)
  }

  ghost predicate DistinctPrefixes(es: seq<RipEntry>) {
    forall i, j :: 0 <= i < j < |es| ==> es[i].prefix != es[j].prefix
  }

  lemma {:induction false} UnmentionedUntouched(t: Table, es: seq<RipEntry>, src: Addr, now: int, p: Prefix)
    requires forall i :: 0 <= i < |es| ==> es[i].prefix != p
    ensures var t' := ProcessAll(t, es, src, now).0; (p in t' <==> p in t) && (p in t ==> t'[p] == t[p])
    ensures forall e :: e in ProcessAll(t, es, src, now).1 ==> e in es && e.prefix != p
    decreases |es|
  {
    if es != [] {
      UnmentionedUntouched(t, es[..|es| - 1], src, now, p);
    }
  }

  /** Handling a response with distinct prefixes relaxes the route of every entry and reports
      exactly the entries whose cost changed. */
  lemma {:induction false} ResponseRelaxes(t: Table, es: seq<RipEntry>, src: Addr, now: int, i: nat)
    requires DistinctPrefixes(es) && i < |es|
    ensures var (t', changed) := ProcessAll(t, es, src, now);
      Relaxed(t, t', es[i], src, now) && (es[i] in changed <==> CostChanged(t, t', es[i].prefix))
    decreases |es|
  {
    var n := |es| - 1;
    var init := es[..n];
    if i < n {
      assert init[i] == es[i];
      ResponseRelaxes(t, init, src, now, i);
    } else {
      UnmentionedUntouched(t, init, src, now, es[n].prefix);
    }
  }

  /** Every reported entry is one of those received. */
  lemma {:induction false} ChangedAreReceived(t: Table, es: seq<RipEntry>, src: Addr, now: int)
    ensures forall e :: e in ProcessAll(t, es, src, now).1 ==> e in es
    decreases |es|
  {
    if es != [] {
      ChangedAreReceived(t, es[..|es| - 1], src, now);
    }
  }

  /** A response without repeated prefixes makes a triggered update without repeated prefixes. */
  lemma {:induction false} ChangedAreDistinct(t: Table, es: seq<RipEntry>, src: Addr, now: int)
    requires DistinctPrefixes(es)
    ensures DistinctPrefixes(ProcessAll(t, es, src, now).1)
    decreases |es|
  {
    if es != [] {
      var n := |es| - 1;
      ChangedAreDistinct(t, es[..n], src, now);
      UnmentionedUntouched(t, es[..n], src, now, es[n].prefix);
    }
  }

  // ---- section 3.9.2 of RFC 2453 ----

  /** The destination may be advertised: a unicast address, or 0.0.0.0 for the default route, and
      not on net 0 or net 127. */
  predicate ValidDestination(p: Prefix) {
    var net := p.addr / 0x100_0000;
    p.addr == 0 || (0 < net < 224 && net != 127)
  }

  predicate ValidMetric(e: RipEntry) {
    1 <= e.cost <= INFINITY
  }

  predicate Valid(e: RipEntry) {
    ValidDestination(e.prefix) && ValidMetric(e)
  }

  ghost predicate SameRoute(t: Table, t': Table, p: Prefix) {
    (p in t' <==> p in t) && (p in t ==> t'[p] == t[p])
  }

  /** What the RFC asks of the route through src: its metric, its next hop and a fresh timeout. */
  ghost predicate Adopted(t': Table, e: RipEntry, src: Addr, now: int) {
    && e.prefix in t'
    && t'[e.prefix] == FwdEntry(e.prefix, src, "", SourceType.Rip, Metric(e), now)
  }

  /** What the RFC asks of one entry from src. An invalid entry is ignored. A new destination is
      added unless it is unreachable. A route already through src has its timeout reset, and
      takes a metric that differs; a route through another router gives way to a smaller metric
      and is otherwise left alone. Routes that RIP did not learn are not its to change. */
  ghost predicate RfcRule(t: Table, t': Table, e: RipEntry, src: Addr, now: int) {
    var p := e.prefix;
    if !Valid(e) then SameRoute(t, t', p)
    else if p !in t then if Metric(e) == INFINITY then p !in t' else Adopted(t', e, src, now)
    else if t[p].source != SourceType.Rip then SameRoute(t, t', p)
    else if Metric(e) < t[p].cost || (Metric(e) != t[p].cost && t[p].nextHop == src) then Adopted(t', e, src, now)
    else if t[p].nextHop == src then p in t' && t'[p] == t[p].(lastUpdated := now)
    else SameRoute(t, t', p)
  }

  /** The table has a route that the entry does not touch: one RIP did not learn, one through
      another router at no greater cost, or one that was confirmed at this very moment. */
  predicate Untouched(t: Table, e: RipEntry, src: Addr, now: int) {
    var p := e.prefix;
    && p in t
    && (|| t[p].source != SourceType.Rip
        || (t[p].nextHop != src && t[p].cost <= Metric(e))
        || (t[p].nextHop == src && t[p].cost == Metric(e) && t[p].lastUpdated == now))
  }

  /** The table is keyed by the prefixes of its routes. */
  ghost predicate Keyed(t: Table) {
    forall p :: p in t ==> t[p].prefix == p
  }

  /** The code departs from the RFC in two ways: it does not check entries, and it adds
      unreachable destinations. An entry is handled as the RFC asks if and only if it is valid and
      its destination is known or reachable, or it is invalid and would change nothing anyway. */
  predicate Conforms(t: Table, e: RipEntry, src: Addr, now: int) {
    if Valid(e) then e.prefix in t || e.cost + 1 < INFINITY else Untouched(t, e, src, now)
  }

  lemma EntryConformsExactly(t: Table, e: RipEntry, src: Addr, now: int)
    requires Keyed(t)
    ensures RfcRule(t, Process(t, e, src, now).0, e, src, now) <==> Conforms(t, e, src, now)
  {
  }

  lemma OtherRoutesStay(t: Table, e: RipEntry, src: Addr, now: int, q: Prefix)
    requires q != e.prefix
    ensures SameRoute(t, Process(t, e, src, now).0, q)
  {
  }

  /** The rule looks at the entry's own destination only. */
  lemma RuleIsLocal(t: Table, t1: Table, t2: Table, e: RipEntry, src: Addr, now: int)
    requires SameRoute(t1, t2, e.prefix)
    ensures RfcRule(t, t1, e, src, now) <==> RfcRule(t, t2, e, src, now)
  {
  }

  /** The same for every entry of a response with distinct prefixes. */
  lemma {:induction false} ResponseConformsExactly(t: Table, es: seq<RipEntry>, src: Addr, now: int, i: nat)
    requires Keyed(t) && DistinctPrefixes(es) && i < |es|
    ensures RfcRule(t, ProcessAll(t, es, src, now).0, es[i], src, now) <==> Conforms(t, es[i], src, now)
    decreases |es|
  {
    var n := |es| - 1;
    var t1 := ProcessAll(t, es[..n], src, now).0;
    if i < n {
      assert es[..n][i] == es[i];
      ResponseConformsExactly(t, es[..n], src, now, i);
      OtherRoutesStay(t1, es[n], src, now, es[i].prefix);
      RuleIsLocal(t, t1, ProcessAll(t, es, src, now).0, es[i], src, now);
    } else {
      UnmentionedUntouched(t, es[..n], src, now, es[n].prefix);
      StaysKeyed(t, es[..n], src, now);
      EntryConformsExactly(t1, es[n], src, now);
    }
  }

  lemma {:induction false} StaysKeyed(t: Table, es: seq<RipEntry>, src: Addr, now: int)
    requires Keyed(t)
    ensures Keyed(ProcessAll(t, es, src, now).0)
    decreases |es|
  {
    if es != [] {
      StaysKeyed(t, es[..|es| - 1], src, now);
    }
  }

  // ---- timeouts and updates ----

  predicate Expired(e: FwdEntry, now: int, timeout: int) {
    e.source == SourceType.Rip && now - e.lastUpdated >= timeout && e.cost < INFINITY
  }

  function TimeOut(t: Table, now: int, timeout: int): Table {
    map p | p in t :: if Expired(t[p], now, timeout) then t[p].(cost := INFINITY) else t[p]
  }

  /** What a timeout check does to the table: a learned route that was not confirmed in time
      becomes unreachable, all else stays. */
  lemma ExpiryIsExact(t: Table, now: int, timeout: int, p: Prefix)
    ensures var t' := TimeOut(t, now, timeout); t'.Keys == t.Keys && (p in t ==>
      t'[p] == (if t[p].source == SourceType.Rip && now - t[p].lastUpdated >= timeout && t[p].cost < 16
                then t[p].(cost := 16) else t[p]))
  {
  }

  /** The report names exactly the routes that the check changes, as unreachable. */
  lemma ReportMatchesTable(t: Table, now: int, timeout: int, es: seq<RipEntry>, p: Prefix)
    requires ReportsExpired(es, t, now, timeout)
    ensures RipEntry(16, p) in es <==> p in t && TimeOut(t, now, timeout)[p] != t[p]
    ensures forall e :: e in es ==> e.cost == 16
  {
  }

  /** es reports each expired route once, as unreachable, in some order. */
  ghost predicate ReportsExpired(es: seq<RipEntry>, t: Table, now: int, timeout: int) {
    && DistinctPrefixes(es)
    && (forall i :: 0 <= i < |es| ==> es[i].cost == INFINITY && es[i].prefix in t && Expired(t[es[i].prefix], now, timeout))
    && (forall p :: p in t && Expired(t[p], now, timeout) ==> RipEntry(INFINITY, p) in es)
  }

  /** Split horizon with poisoned reverse. */
  function AdvertisedCost(e: FwdEntry, neighbour: Addr): uint32 {
    if e.source == SourceType.Rip && e.nextHop == neighbour then INFINITY else e.cost
  }

  /** es lists the whole table for a neighbour, in some order: as many entries as routes, no
      prefix twice, each with its cost. */
  ghost predicate ListsTable(es: seq<RipEntry>, t: Table, neighbour: Addr) {
    && DistinctPrefixes(es)
    && |es| == |t|
    && (forall i :: 0 <= i < |es| ==> es[i].prefix in t && es[i].cost == AdvertisedCost(t[es[i].prefix], neighbour))
  }

  lemma {:induction false} PrefixSet(es: seq<RipEntry>) returns (ps: set<Prefix>)
    requires DistinctPrefixes(es)
    ensures |ps| == |es| && forall p :: p in ps <==> exists i :: 0 <= i < |es| && es[i].prefix == p
    decreases |es|
  {
    if es == [] {
      ps := {};
    } else {
      var n := |es| - 1;
      var before := PrefixSet(es[..n]);
      assert forall i :: 0 <= i < n ==> es[..n][i] == es[i];
      ps := before + {es[n].prefix};
    }
  }

  lemma SubsetOfSameSize(a: set<Prefix>, b: set<Prefix>)
    requires a <= b && |a| == |b|
    ensures a == b
  {
    if a != b {
      Larger(a, b);
    }
  }

  /** An update lists every route of the table, each with its cost, but with 16 for those that were
      learned from the neighbour it goes to. */
  lemma UpdateListsEveryRoute(es: seq<RipEntry>, t: Table, neighbour: Addr, p: Prefix)
    requires ListsTable(es, t, neighbour)
    ensures forall e :: e in es ==> e.prefix in t
    ensures p in t ==> RipEntry(if t[p].source == SourceType.Rip && t[p].nextHop == neighbour then 16 else t[p].cost, p) in es
  {
    var ps := PrefixSet(es);
    SubsetOfSameSize(ps, t.Keys);
  }

  /** So a route is never led back to where it came from: such an entry gives its receiver no
      route that it could use, and lowers no cost. */
  lemma PoisonIsNotAdopted(t: Table, es: seq<RipEntry>, src: Addr, now: int, i: nat)
    requires DistinctPrefixes(es) && i < |es| && es[i].cost >= 15
    ensures var t' := ProcessAll(t, es, src, now).0; var p := es[i].prefix;
      p in t' && (if p in t then t'[p].cost >= Min(t[p].cost, 16) else t'[p].cost == 16)
  {
    ResponseRelaxes(t, es, src, now, i);
  }
}
