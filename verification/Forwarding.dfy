/** The forwarding table and next-hop resolution of pkg/ipStack/ipStack.go. */
module Forwarding {
  import opened Words
  import opened Prefixes

  const INFINITY: nat := 16

  datatype SourceType = Local | Rip | Static

  /** interfaceName is "" for routes that go through a next hop. */
  datatype FwdEntry = FwdEntry(prefix: Prefix, nextHop: Addr, interfaceName: string,
                               source: SourceType, cost: uint32, lastUpdated: int)

  type Table = map<Prefix, FwdEntry>

  /** The entry found and the address to hand the packet to on its interface. */
  datatype Route = Route(entry: FwdEntry, nextDest: Addr)

  ghost predicate Masked(t: Table) {
    forall p :: p in t ==> IsMasked(p)
  }

  /** p is a longest match for ip. */
  ghost predicate IsBest(t: Table, ip: Addr, p: Prefix) {
    && p in t && Contains(p, ip)
    && forall q :: q in t && Contains(q, ip) ==> q.bits <= p.bits
  }

  ghost predicate HasMatch(t: Table, ip: Addr) {
    exists p :: p in t && Contains(p, ip)
  }

  /** In a table of masked prefixes the longest match is unique, whatever the iteration order. */
  lemma BestUnique(t: Table, ip: Addr, p: Prefix, q: Prefix)
    requires Masked(t) && IsBest(t, ip, p) && IsBest(t, ip, q)
    ensures p == q
  {
    SameLengthUnique(p, q, ip);
  }

  /** Some entry that matches has a longest match. */
  lemma BestExists(t: Table, ip: Addr, p: Prefix) returns (best: Prefix)
    requires p in t && Contains(p, ip)
    ensures IsBest(t, ip, best)
    decreases 32 - p.bits
  {
    if q :| q in t && Contains(q, ip) && q.bits > p.bits {
      best := BestExists(t, ip, q);
    } else {
      best := p;
    }
  }

  // ---- what a lookup can return ----

  /** The route sends the lookup on to its next hop. */
  predicate Indirect(e: FwdEntry) {
    e.interfaceName == "" && e.cost < INFINITY
  }

  /** LongestPrefixMatch can return r within n lookups, if the map is visited in some order. */
  ghost predicate CanReturn(t: Table, dest: Addr, r: Option<Route>, n: nat)
    decreases n, 1
  {
    n > 0 &&
    if !HasMatch(t, dest) then r == None
    else exists p :: IsBest(t, dest, p) && CanReturnFrom(t, p, dest, r, n)
  }

  /** The same, once p was found to match best. */
  ghost predicate CanReturnFrom(t: Table, p: Prefix, dest: Addr, r: Option<Route>, n: nat)
    requires p in t && n > 0
    decreases n, 0
  {
    var e := t[p];
    if e.interfaceName != "" then r == Some(Route(e, dest))
    else if e.cost >= INFINITY then r == None
    else CanReturn(t, e.nextHop, r, n - 1)
  }

  /** Every lookup of dest is over within n lookups, in whatever order the map is visited. */
  ghost predicate EndsWithin(t: Table, dest: Addr, n: nat)
    decreases n
  {
    n > 0 && forall p :: IsBest(t, dest, p) && Indirect(t[p]) ==> EndsWithin(t, t[p].nextHop, n - 1)
  }

  lemma {:induction false} EndsLater(t: Table, dest: Addr, m: nat, n: nat)
    requires m <= n && EndsWithin(t, dest, m)
    ensures EndsWithin(t, dest, n)
    decreases m
  {
    forall p | IsBest(t, dest, p) && Indirect(t[p]) ensures EndsWithin(t, t[p].nextHop, n - 1) {
      EndsLater(t, t[p].nextHop, m - 1, n - 1);
    }
  }

  /** With masked prefixes the result does not depend on the iteration order. */
  lemma {:induction false} ResultUnique(t: Table, dest: Addr, r: Option<Route>, m: nat, s: Option<Route>, n: nat)
    requires Masked(t) && CanReturn(t, dest, r, m) && CanReturn(t, dest, s, n)
    ensures r == s
    decreases m
  {
    if HasMatch(t, dest) {
      var p :| IsBest(t, dest, p) && CanReturnFrom(t, p, dest, r, m);
      var q :| IsBest(t, dest, q) && CanReturnFrom(t, q, dest, s, n);
      BestUnique(t, dest, p, q);
      if Indirect(t[p]) {
        ResultUnique(t, t[p].nextHop, r, m - 1, s, n - 1);
      }
    }
  }

  /** What a lookup returns is a route of the table with an interface of its own. */
  lemma {:induction false} ReturnsInterfaceRoute(t: Table, dest: Addr, r: Option<Route>, n: nat)
    requires CanReturn(t, dest, r, n)
    ensures r.Some? ==> r.value.entry.interfaceName != "" && exists p :: p in t && t[p] == r.value.entry
    decreases n
  {
    if HasMatch(t, dest) {
      var p :| IsBest(t, dest, p) && CanReturnFrom(t, p, dest, r, n);
      if Indirect(t[p]) {
        ReturnsInterfaceRoute(t, t[p].nextHop, r, n - 1);
      }
    }
  }

  /** Every return is in time. */
  lemma {:induction false} ReturnsInTime(t: Table, dest: Addr, r: Option<Route>, n: nat, m: nat)
    requires CanReturn(t, dest, r, n) && EndsWithin(t, dest, m)
    ensures CanReturn(t, dest, r, m)
    decreases n
  {
    if HasMatch(t, dest) {
      var p :| IsBest(t, dest, p) && CanReturnFrom(t, p, dest, r, n);
      if Indirect(t[p]) {
        ReturnsInTime(t, t[p].nextHop, r, n - 1, m - 1);
      }
      assert CanReturnFrom(t, p, dest, r, m);
    }
  }

  /** How many lookups dest may take. */
  ghost function Lookups(t: Table, dest: Addr, n: nat): (m: nat)
    requires EndsWithin(t, dest, n)
    ensures EndsWithin(t, dest, m) && m <= n
    ensures forall k: nat :: EndsWithin(t, dest, k) ==> m <= k
    decreases n
  {
    if n > 0 && EndsWithin(t, dest, n - 1) then Lookups(t, dest, n - 1)
    else
      assert forall k: nat :: EndsWithin(t, dest, k) ==> n <= k by {
        forall k: nat | k < n && EndsWithin(t, dest, k) ensures false {
          EndsLater(t, dest, k, n - 1);
        }
      }
      n
  }

  // ---- what is found ----

  /** With a default route every lookup has a match. */
  lemma DefaultRouteMatches(t: Table, p: Prefix, dest: Addr)
    requires p in t && p.bits == 0
    ensures HasMatch(t, dest)
  {
    DefaultAndHost(p, dest);
  }

  /** If every longest match is an interface's own route, the lookup returns one of them, with the
      destination itself as the address to send to. */
  lemma DirectIsReturned(t: Table, dest: Addr, r: Option<Route>, n: nat)
    requires HasMatch(t, dest) && CanReturn(t, dest, r, n)
    requires forall p :: IsBest(t, dest, p) ==> t[p].interfaceName != ""
    ensures r.Some? && r.value.nextDest == dest && exists p :: IsBest(t, dest, p) && t[p] == r.value.entry
  {
  }

  /** A route that is unreachable, at a cost of 16 or more, is a dead end. */
  lemma UnreachableIsDeadEnd(t: Table, dest: Addr, r: Option<Route>, n: nat)
    requires HasMatch(t, dest) && CanReturn(t, dest, r, n)
    requires forall p :: IsBest(t, dest, p) ==> t[p].interfaceName == "" && t[p].cost >= 16
    ensures r == None
  {
  }

  /** A host with one link and a default route, 11.0.0.0/24 and 0.0.0.0/0 through 11.0.0.2. */
  const LINK: Prefix := RawPrefix(0x0B00_0000, 24)
  const DEFAULT: Prefix := RawPrefix(0, 0)
  const GATEWAY: Addr := 0x0B00_0002
  const HOST: Table := map[LINK := FwdEntry(LINK, 0, "if0", Local, 0, 0),
                           DEFAULT := FwdEntry(DEFAULT, GATEWAY, "", Static, 0, 0)]

  lemma HostMatches(dest: Addr)
    ensures Contains(LINK, dest) <==> 0x0B00_0000 <= dest < 0x0B00_0100
    ensures Contains(DEFAULT, dest)
  {
    PowerOf32();
    assert Power2(8) == 256;
    MaskedMultiple();
    MaskedMatchesInterval(LINK, dest);
    DefaultAndHost(DEFAULT, dest);
  }

  lemma MaskedMultiple()
    ensures IsMasked(LINK)
  {
    MaskedIsMultiple(LINK.addr, 8);
    ShrIsDivision(LINK.addr, 8);
    PowerOf32();
    assert LINK.addr / 256 * 256 == LINK.addr;
  }

  lemma HostBest(dest: Addr, p: Prefix)
    requires IsBest(HOST, dest, p)
    ensures p == if 0x0B00_0000 <= dest < 0x0B00_0100 then LINK else DEFAULT
  {
    HostMatches(dest);
    assert LINK in HOST && DEFAULT in HOST;
  }

  lemma HostNextHops()
    ensures NextHopsLocal(HOST)
  {
    forall p, q | p in HOST && Indirect(HOST[p]) && IsBest(HOST, HOST[p].nextHop, q)
      ensures HOST[q].interfaceName != ""
    {
      HostBest(GATEWAY, q);
    }
  }

  /** The longest match that a lookup went by. */
  lemma GoesBy(t: Table, dest: Addr, r: Option<Route>, n: nat) returns (p: Prefix)
    requires HasMatch(t, dest) && CanReturn(t, dest, r, n)
    ensures IsBest(t, dest, p) && CanReturnFrom(t, p, dest, r, n)
  {
    p :| IsBest(t, dest, p) && CanReturnFrom(t, p, dest, r, n);
  }

  lemma GatewayResolves(r: Option<Route>, n: nat)
    requires CanReturn(HOST, GATEWAY, r, n)
    ensures r == Some(Route(HOST[LINK], GATEWAY))
  {
    DefaultRouteMatches(HOST, DEFAULT, GATEWAY);
    var q := GoesBy(HOST, GATEWAY, r, n);
    HostBest(GATEWAY, q);
  }

  /** It sends to its link's addresses directly and to every other through the gateway. */
  lemma HostResolves(dest: Addr, r: Option<Route>, n: nat)
    requires CanReturn(HOST, dest, r, n)
    ensures r == Some(Route(HOST[LINK], if 0x0B00_0000 <= dest < 0x0B00_0100 then dest else GATEWAY))
    ensures Ends(HOST, dest)
  {
    HostNextHops();
    TwoLookups(HOST, dest);
    DefaultRouteMatches(HOST, DEFAULT, dest);
    var p := GoesBy(HOST, dest, r, n);
    HostBest(dest, p);
    if p == DEFAULT {
      assert CanReturn(HOST, GATEWAY, r, n - 1);
      GatewayResolves(r, n - 1);
    }
  }

  // ---- when lookups end ----

  /** The indirect routes whose next hop is resolved within n lookups. */
  ghost function Settled(t: Table, n: nat): (s: set<Prefix>)
    ensures s <= t.Keys
  {
    set p | p in t && Indirect(t[p]) && EndsWithin(t, t[p].nextHop, n)
  }

  lemma SettledGrows(t: Table, n: nat)
    ensures Settled(t, n) <= Settled(t, n + 1)
  {
    forall p | p in Settled(t, n) ensures p in Settled(t, n + 1) {
      EndsLater(t, t[p].nextHop, n, n + 1);
    }
  }

  /** A lookup ends within n + 1 lookups if and only if all it can go through is settled by n. */
  lemma EndsBySettled(t: Table, dest: Addr, n: nat)
    ensures EndsWithin(t, dest, n + 1) <==> forall p :: IsBest(t, dest, p) && Indirect(t[p]) ==> p in Settled(t, n)
  {
  }

  lemma SettledSteps(t: Table, n: nat)
    requires Settled(t, n) == Settled(t, n + 1)
    ensures Settled(t, n + 1) == Settled(t, n + 2)
  {
    SettledGrows(t, n + 1);
    forall p | p in t && p in Settled(t, n + 2) ensures p in Settled(t, n + 1) {
      EndsBySettled(t, t[p].nextHop, n + 1);
      EndsBySettled(t, t[p].nextHop, n);
    }
  }

  /** Each further lookup settles another route, until none is added any more. */
  lemma {:induction false} SettlesOrGrows(t: Table, n: nat)
    ensures |Settled(t, n)| >= n || Settled(t, n) == Settled(t, n + 1)
    decreases n
  {
    if n > 0 {
      SettlesOrGrows(t, n - 1);
      SettledGrows(t, n - 1);
      if Settled(t, n - 1) == Settled(t, n) {
        SettledSteps(t, n - 1);
      } else {
        Larger(Settled(t, n - 1), Settled(t, n));
      }
    }
  }

  lemma Larger(a: set<Prefix>, b: set<Prefix>)
    requires a < b
    ensures |a| < |b|
  {
    var x :| x in b && x !in a;
    Smaller(a, b - {x});
    assert |b - {x}| == |b| - 1;
  }

  lemma {:induction false} Smaller(a: set<Prefix>, b: set<Prefix>)
    requires a <= b
    ensures |a| <= |b|
    decreases a
  {
    if a != {} {
      var x :| x in a;
      Smaller(a - {x}, b - {x});
    }
  }

  /** After as many lookups as there are routes nothing more is settled. */
  lemma SettledByTableSize(t: Table)
    ensures Settled(t, |t|) == Settled(t, |t| + 1)
  {
    SettlesOrGrows(t, |t|);
    SettledGrows(t, |t|);
    Smaller(Settled(t, |t| + 1), t.Keys);
    if Settled(t, |t|) < Settled(t, |t| + 1) {
      Larger(Settled(t, |t|), Settled(t, |t| + 1));
    }
  }

  lemma {:induction false} SettledForGood(t: Table, n: nat)
    requires n >= |t|
    ensures Settled(t, n) == Settled(t, |t|) == Settled(t, n + 1)
    decreases n
  {
    SettledByTableSize(t);
    if n > |t| {
      SettledForGood(t, n - 1);
      SettledSteps(t, n - 1);
    }
  }

  /** The lookup of dest is over at some time. */
  ghost predicate Ends(t: Table, dest: Addr) {
    EndsWithin(t, dest, |t| + 1)
  }

  /** A lookup that ends at all ends within one lookup more than there are routes. */
  lemma EndsByTableSize(t: Table, dest: Addr, n: nat)
    requires EndsWithin(t, dest, n)
    ensures Ends(t, dest)
  {
    if n <= |t| {
      EndsLater(t, dest, n, |t| + 1);
    } else {
      SettledForGood(t, n - 1);
      EndsBySettled(t, dest, n - 1);
      EndsBySettled(t, dest, |t|);
    }
  }

  /** A longest match of dest is in c. */
  ghost predicate Enters(t: Table, dest: Addr, c: set<Prefix>) {
    exists p :: p in c && IsBest(t, dest, p)
  }

  /** From route p the lookup can go on to a route of c. */
  ghost predicate GoesOn(t: Table, p: Prefix, c: set<Prefix>) {
    p in t && Indirect(t[p]) && Enters(t, t[p].nextHop, c)
  }

  /** From each route of c the lookup can go on to another route of c. */
  ghost predicate Loops(t: Table, c: set<Prefix>) {
    forall p {:trigger GoesOn(t, p, c)} :: p in c ==> GoesOn(t, p, c)
  }

  lemma {:induction false} LoopNeverEnds(t: Table, c: set<Prefix>, dest: Addr, n: nat)
    requires Loops(t, c) && Enters(t, dest, c)
    ensures !EndsWithin(t, dest, n)
    decreases n
  {
    if n > 0 {
      var p :| p in c && IsBest(t, dest, p);
      assert GoesOn(t, p, c);
      LoopNeverEnds(t, c, t[p].nextHop, n - 1);
    }
  }

  /** The indirect routes that no number of lookups settles. */
  ghost function Unsettled(t: Table): set<Prefix> {
    set p | p in t && Indirect(t[p]) && p !in Settled(t, |t|)
  }

  lemma UnsettledLoops(t: Table)
    ensures Loops(t, Unsettled(t))
  {
    SettledByTableSize(t);
    forall p | p in Unsettled(t) ensures GoesOn(t, p, Unsettled(t)) {
      assert p !in Settled(t, |t| + 1);
      EndsBySettled(t, t[p].nextHop, |t|);
    }
  }

  /** The recursion of LongestPrefixMatch has no bound of its own. It can go on for ever if and
      only if a longest match of dest belongs to a set of usable indirect routes each of which
      has another one of the set as a longest match of its next hop. */
  lemma EndlessExactly(t: Table, dest: Addr)
    ensures !Ends(t, dest) <==> exists c :: Loops(t, c) && Enters(t, dest, c)
  {
    if !Ends(t, dest) {
      UnsettledLoops(t);
      EndsBySettled(t, dest, |t|);
      assert Enters(t, dest, Unsettled(t));
    }
    if c :| Loops(t, c) && Enters(t, dest, c) {
      LoopNeverEnds(t, c, dest, |t| + 1);
    }
  }

  /** Such a table: two routes, each the only way to the other's next hop. */
  const TWO_ROUTES: Table :=
    map[RawPrefix(1, 32) := FwdEntry(RawPrefix(1, 32), 2, "", Static, 0, 0),
        RawPrefix(2, 32) := FwdEntry(RawPrefix(2, 32), 1, "", Static, 0, 0)]

  lemma TwoRoutesLoop()
    ensures Masked(TWO_ROUTES) && !Ends(TWO_ROUTES, 1)
  {
    var p1: Prefix, p2: Prefix := RawPrefix(1, 32), RawPrefix(2, 32);
    var c := {p1, p2};
    assert IsBest(TWO_ROUTES, 1, p1) && IsBest(TWO_ROUTES, 2, p2);
    assert GoesOn(TWO_ROUTES, p1, c) && GoesOn(TWO_ROUTES, p2, c);
    LoopNeverEnds(TWO_ROUTES, c, 1, |TWO_ROUTES| + 1);
  }

  /** Every usable next hop is matched, and only by interface routes at best. */
  ghost predicate NextHopsLocal(t: Table) {
    forall p, q :: p in t && Indirect(t[p]) && IsBest(t, t[p].nextHop, q) ==> t[q].interfaceName != ""
  }

  /** Then every lookup is over after two. */
  lemma TwoLookups(t: Table, dest: Addr)
    requires NextHopsLocal(t)
    ensures EndsWithin(t, dest, 2) && Ends(t, dest)
  {
    forall p | IsBest(t, dest, p) && Indirect(t[p]) ensures EndsWithin(t, t[p].nextHop, 1) {
    }
    EndsByTableSize(t, dest, 2);
  }

  /** What ipForwarding does with a packet. The SRC filter is not part of this model. */
  datatype Verdict =
    | DeliveredLocally | TtlExpired | NoMatch | Offline | InterfaceDown | NoNeighbour
    | SentOn(interfaceName: string, nextDest: Addr) | UnexpectedRip | UnexpectedType

  datatype Interface = Interface(prefix: Prefix, ip: Addr, up: bool, neighbours: set<Addr>)

  /** The verdict on a packet for another node, given what the lookup returned. */
  ghost predicate ForwardsAs(v: Verdict, r: Option<Route>, ifaces: map<string, Interface>) {
    match r
    case None => v == NoMatch
    case Some(Route(e, nextDest)) =>
      if e.cost >= INFINITY then v == Offline
      else
        match e.source
        case Rip => v == UnexpectedRip
        case Static => v == UnexpectedType
        case Local =>
          && e.interfaceName in ifaces
          && var iface := ifaces[e.interfaceName];
          v == (if !iface.up then InterfaceDown
                else if nextDest in iface.neighbours then SentOn(e.interfaceName, nextDest)
                else NoNeighbour)
  }

  /** A packet leaves only on an interface's own, reachable route, over a link that is up, to a node
      that is on it; and then it does leave. */
  lemma SentExactly(v: Verdict, r: Option<Route>, ifaces: map<string, Interface>, name: string, to: Addr)
    requires ForwardsAs(v, r, ifaces)
    ensures v == SentOn(name, to) <==>
      && r.Some? && r.value.nextDest == to && r.value.entry.interfaceName == name
      && r.value.entry.source == Local && r.value.entry.cost < 16
      && name in ifaces && ifaces[name].up && to in ifaces[name].neighbours
    ensures r.Some? && r.value.entry.cost >= 16 ==> v == Offline
    ensures r == None ==> v == NoMatch
  {
  }

  /** The table initFwdTable makes: one local route for each interface prefix, then the static
      routes, which win where the prefix is the same. */
  ghost predicate InitialTable(t: Table, ifaces: map<string, Interface>, statics: map<Prefix, Addr>) {
    && (forall p :: p in t <==> p in statics || exists n :: n in ifaces && ifaces[n].prefix == p)
    && (forall p :: p in statics ==> p in t && t[p] == StaticRoute(p, statics[p]))
    && (forall p :: p in t && p !in statics ==> exists n :: n in ifaces && ifaces[n].prefix == p && t[p] == LocalRoute(p, n))
  }

  /** The empty next hop and the zero time are both 0. */
  function LocalRoute(p: Prefix, interfaceName: string): FwdEntry {
    FwdEntry(p, 0, interfaceName, Local, 0, 0)
  }

  function StaticRoute(p: Prefix, nextHop: Addr): FwdEntry {
    FwdEntry(p, nextHop, "", Static, 0, 0)
  }
}
