/** A node's IP stack: its table, next-hop resolution and RIP handlers, updated in place. */
module IpStack {
  import opened Words
  import opened Prefixes
  import opened Forwarding
  import opened Rip

  class IPStack {
    var forwardingTable: Table
    var interfaces: map<string, Interface>

    constructor (ifaces: map<string, Interface>)
      ensures forwardingTable == map[] && interfaces == ifaces
    {
      forwardingTable, interfaces := map[], ifaces;
    }

    method InitFwdTable(staticRoutes: map<Prefix, Addr>)
      requires forwardingTable == map[]
      modifies this`forwardingTable
      ensures InitialTable(forwardingTable, interfaces, staticRoutes)
    {
      var names := interfaces.Keys;
      while names != {}
        invariant names <= interfaces.Keys
        invariant forall n :: n in interfaces && n !in names ==> interfaces[n].prefix in forwardingTable
        invariant forall p :: p in forwardingTable ==>
          exists n :: n in interfaces && interfaces[n].prefix == p && forwardingTable[p] == LocalRoute(p, n)
        decreases names
      {
        var name :| name in names;
        var iface := interfaces[name];
        forwardingTable := forwardingTable[iface.prefix := LocalRoute(iface.prefix, name)];
        names := names - {name};
      }
      AddStaticRoutes(staticRoutes);
    }

    method AddStaticRoutes(staticRoutes: map<Prefix, Addr>)
      modifies this`forwardingTable
      ensures forwardingTable.Keys == old(forwardingTable).Keys + staticRoutes.Keys
      ensures forall p :: p in forwardingTable ==>
        forwardingTable[p] == if p in staticRoutes then StaticRoute(p, staticRoutes[p]) else old(forwardingTable)[p]
    {
      var t0 := forwardingTable;
      var todo := staticRoutes.Keys;
      while todo != {}
        invariant todo <= staticRoutes.Keys
        invariant forwardingTable.Keys == t0.Keys + (staticRoutes.Keys - todo)
        invariant forall p :: p in forwardingTable ==>
          forwardingTable[p] == if p in staticRoutes && p !in todo then StaticRoute(p, staticRoutes[p]) else t0[p]
        decreases todo
      {
        var prefix :| prefix in todo;
        forwardingTable := forwardingTable[prefix := StaticRoute(prefix, staticRoutes[prefix])];
        todo := todo - {prefix};
      }
    }

    /** The loop visits the map in any order, and the recursion has no bound of its own: it ends
        exactly when Forwarding.EndlessExactly says. */
    method LongestPrefixMatch(dest: Addr) returns (r: Option<Route>)
      requires Ends(forwardingTable, dest)
      ensures CanReturn(forwardingTable, dest, r, |forwardingTable| + 1)
      decreases Lookups(forwardingTable, dest, |forwardingTable| + 1)
    {
      ghost var n := |forwardingTable| + 1;
      var maxLen: int := -1;
      var longest: Option<Prefix> := None;
      var todo := forwardingTable.Keys;
      while todo != {}
        invariant todo <= forwardingTable.Keys
        invariant -1 <= maxLen && (maxLen == -1 <==> longest == None)
        invariant longest.Some? ==>
          longest.value in forwardingTable && Contains(longest.value, dest) && maxLen == longest.value.bits
        invariant forall q :: q in forwardingTable && q !in todo && Contains(q, dest) ==> q.bits <= maxLen
        decreases todo
      {
        var prefix :| prefix in todo;
        if Contains(prefix, dest) && prefix.bits > maxLen {
          maxLen := prefix.bits;
          longest := Some(prefix);
        }
        todo := todo - {prefix};
      }
      if maxLen == -1 {
        return None;
      }
      assert IsBest(forwardingTable, dest, longest.value);
      var entry := forwardingTable[longest.value];
      if entry.interfaceName != "" {
        assert CanReturnFrom(forwardingTable, longest.value, dest, Some(Route(entry, dest)), n);
        return Some(Route(entry, dest));
      }
      if entry.cost >= INFINITY {
        assert CanReturnFrom(forwardingTable, longest.value, dest, None, n);
        return None;
      }
      assert EndsWithin(forwardingTable, entry.nextHop, Lookups(forwardingTable, dest, n) - 1);
      EndsLater(forwardingTable, entry.nextHop, n - 1, n);
      r := LongestPrefixMatch(entry.nextHop);
      ReturnsInTime(forwardingTable, entry.nextHop, r, n, n - 1);
      assert CanReturnFrom(forwardingTable, longest.value, dest, r, n);
    }

    /** The forwarding decision of ipForwarding, with the decremented TTL. */
    method IpForwarding(dest: Addr, ttl: int) returns (v: Verdict, newTtl: int)
      requires Ends(forwardingTable, dest)
      requires forall p :: p in forwardingTable && forwardingTable[p].source == Local ==>
        forwardingTable[p].interfaceName in interfaces
      ensures (exists n :: n in interfaces && interfaces[n].ip == dest) <==> v == DeliveredLocally
      ensures newTtl == if v == DeliveredLocally then ttl else ttl - 1
      ensures v == TtlExpired <==> v != DeliveredLocally && newTtl <= 0
      ensures v != DeliveredLocally && v != TtlExpired ==> exists r ::
        CanReturn(forwardingTable, dest, r, |forwardingTable| + 1) && ForwardsAs(v, r, interfaces)
    {
      if exists n :: n in interfaces && interfaces[n].ip == dest {
        return DeliveredLocally, ttl;
      }
      newTtl := ttl - 1;
      if newTtl <= 0 {
        return TtlExpired, newTtl;
      }
      var r := LongestPrefixMatch(dest);
      ReturnsInterfaceRoute(forwardingTable, dest, r, |forwardingTable| + 1);
      v := ForwardAlong(r);
    }

    /** The route-type switch of ipForwarding. */
    method ForwardAlong(r: Option<Route>) returns (v: Verdict)
      requires r.Some? && r.value.entry.source == Local ==> r.value.entry.interfaceName in interfaces
      ensures ForwardsAs(v, r, interfaces)
    {
      if r == None {
        return NoMatch;
      }
      var entry := r.value.entry;
      if entry.cost >= INFINITY {
        return Offline;
      }
      match entry.source {
        case Local =>
          var iface := interfaces[entry.interfaceName];
          if !iface.up {
            return InterfaceDown;
          }
          if r.value.nextDest !in iface.neighbours {
            return NoNeighbour;
          }
          return SentOn(entry.interfaceName, r.value.nextDest);
        case Rip =>
          return UnexpectedRip;
        case Static =>
          return UnexpectedType;
      }
    }

    /** HandleRipMessage for a response: updates the table entry by entry; the result is the
        triggered update sent to every neighbour, if it is not empty. */
    method HandleRipResponse(src: Addr, entries: seq<RipEntry>, now: int) returns (changedEntries: seq<RipEntry>)
      modifies this`forwardingTable
      ensures (forwardingTable, changedEntries) == ProcessAll(old(forwardingTable), entries, src, now)
    {
      changedEntries := [];
      assert entries[..0] == [];
      for i := 0 to |entries|
        invariant (forwardingTable, changedEntries) == ProcessAll(old(forwardingTable), entries[..i], src, now)
      {
        assert entries[..i + 1][..i] == entries[..i];
        var ripEntry := entries[i];
        var ripEntryCost := INFINITY;
        if ripEntry.cost < INFINITY {
          ripEntryCost := ripEntry.cost + 1;
        }
        if ripEntry.prefix !in forwardingTable {
          UpdateForwardingTable(ripEntry, src, "", ripEntryCost, now);
          changedEntries := changedEntries + [ripEntry];
          continue;
        }
        var current := forwardingTable[ripEntry.prefix];
        if current.source != SourceType.Rip {
          continue;
        }
        if ripEntryCost < current.cost {
          UpdateForwardingTable(ripEntry, src, "", ripEntryCost, now);
          changedEntries := changedEntries + [ripEntry];
          continue;
        }
        if ripEntryCost > current.cost && src == current.nextHop {
          UpdateForwardingTable(ripEntry, src, "", ripEntryCost, now);
          changedEntries := changedEntries + [ripEntry];
          continue;
        }
        if ripEntryCost == current.cost && src == current.nextHop {
          forwardingTable := forwardingTable[ripEntry.prefix := current.(lastUpdated := now)];
        }
      }
      assert entries[..|entries|] == entries;
    }

    method UpdateForwardingTable(ripEntry: RipEntry, src: Addr, ifaceName: string, ripEntryCost: uint32, now: int)
      modifies this`forwardingTable
      ensures forwardingTable == old(forwardingTable)[ripEntry.prefix :=
        FwdEntry(ripEntry.prefix, src, ifaceName, SourceType.Rip, ripEntryCost, now)]
    {
      forwardingTable := forwardingTable[ripEntry.prefix :=
        FwdEntry(ripEntry.prefix, src, ifaceName, SourceType.Rip, ripEntryCost, now)];
    }

    /** Marks every route that was not refreshed in time as unreachable. */
    method CheckForTimeouts(now: int, ripTimeout: int) returns (timedOut: seq<RipEntry>)
      modifies this`forwardingTable
      ensures forwardingTable == TimeOut(old(forwardingTable), now, ripTimeout)
      ensures forwardingTable.Keys == old(forwardingTable).Keys
      ensures forall p :: p in forwardingTable ==>
        var e := old(forwardingTable)[p];
        var expired := e.source == SourceType.Rip && now - e.lastUpdated >= ripTimeout && e.cost < 16;
        forwardingTable[p] == (if expired then e.(cost := 16) else e)
      ensures ReportsExpired(timedOut, old(forwardingTable), now, ripTimeout)
    {
      timedOut := [];
      var t0 := forwardingTable;
      var todo := t0.Keys;
      while todo != {}
        invariant todo <= t0.Keys == forwardingTable.Keys
        invariant forall p :: p in t0 ==>
          forwardingTable[p] == if p !in todo && Expired(t0[p], now, ripTimeout) then t0[p].(cost := INFINITY) else t0[p]
        invariant DistinctPrefixes(timedOut)
        invariant forall i :: 0 <= i < |timedOut| ==>
          && timedOut[i].cost == INFINITY && timedOut[i].prefix in t0 && timedOut[i].prefix !in todo
          && Expired(t0[timedOut[i].prefix], now, ripTimeout)
        invariant forall p :: p in t0 && p !in todo && Expired(t0[p], now, ripTimeout) ==> RipEntry(INFINITY, p) in timedOut
        decreases todo
      {
        var prefix :| prefix in todo;
        var entry := forwardingTable[prefix];
        todo := todo - {prefix};
        if entry.source != SourceType.Rip {
          continue;
        }
        if now - entry.lastUpdated >= ripTimeout {
          if entry.cost >= INFINITY {
            continue;
          }
          timedOut := timedOut + [RipEntry(INFINITY, prefix)];
          forwardingTable := forwardingTable[prefix := entry.(cost := INFINITY)];
        }
      }
    }

    /** The routes sent to one neighbour by sendPeriodicUpdate, in map order. */
    method RoutesToSend(neighbour: Addr) returns (routes: seq<RipEntry>)
      requires forall p :: p in forwardingTable ==> forwardingTable[p].prefix == p
      ensures ListsTable(routes, forwardingTable, neighbour)
    {
      routes := [];
      var todo := forwardingTable.Keys;
      while todo != {}
        invariant todo <= forwardingTable.Keys
        invariant DistinctPrefixes(routes)
        invariant forall i :: 0 <= i < |routes| ==>
          && routes[i].prefix in forwardingTable && routes[i].prefix !in todo
          && routes[i].cost == AdvertisedCost(forwardingTable[routes[i].prefix], neighbour)
        invariant |routes| + |todo| == |forwardingTable.Keys|
        decreases todo
      {
        var prefix :| prefix in todo;
        var entry := forwardingTable[prefix];
        var cost := entry.cost;
        if entry.source == SourceType.Rip {
          if entry.nextHop == neighbour {
            cost := INFINITY;
          }
        }
        routes := routes + [RipEntry(cost, entry.prefix)];
        todo := todo - {prefix};
      }
    }
  }
}
