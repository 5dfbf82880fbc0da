/** Many routers running RIP over a network that loses, duplicates, delays and reorders. */
module RipNetwork {
  import opened Words
  import opened Prefixes
  import opened Forwarding
  import opened Rip

  /** A router's configuration: its table after initFwdTable and initRIP, the address of each
      interface, and the interface through which each RIP neighbour is reached. */
  datatype Router = Router(initial: Table, address: map<string, Addr>, neighbours: map<Addr, string>)

  /** owner names the router an interface address belongs to. */
  datatype Config = Config(routers: map<nat, Router>, owner: map<Addr, nat>)

  datatype Message = Message(src: Addr, to: nat, entries: seq<RipEntry>)

  datatype Network = Network(tables: map<nat, Table>, sent: set<Message>)

  /** a lies on a link of the router. */
  ghost predicate OnLink(r: Router, a: Addr) {
    exists l :: l in r.initial && r.initial[l].source == Local && Contains(l, a)
  }

  /** Some router started out with this prefix. */
  ghost predicate Originated(cfg: Config, p: Prefix) {
    exists r :: r in cfg.routers && p in cfg.routers[r].initial
  }

  /** Interface and static routes only: interface routes cost 0, static routes have cost 0 and a
      next hop on a link. */
  ghost predicate InitialOk(r: Router) {
    forall p :: p in r.initial ==>
      var e := r.initial[p];
      && e.prefix == p && e.cost == 0
      && (e.source == Local ==> e.interfaceName != "")
      && (e.source == Static ==> e.interfaceName == "" && OnLink(r, e.nextHop))
      && e.source != SourceType.Rip
  }

  /** Neighbours are routers, linked to us both ways. */
  ghost predicate NeighboursOk(cfg: Config, r: nat)
    requires r in cfg.routers
  {
    forall n :: n in cfg.routers[r].neighbours ==>
      var me := cfg.routers[r];
      && me.neighbours[n] in me.address
      && n in cfg.owner && cfg.owner[n] in cfg.routers
      && var you := cfg.routers[cfg.owner[n]]; var a := me.address[me.neighbours[n]];
      a in you.neighbours && OnLink(you, a)
  }

  /** No other prefix in the network is as specific as an interface's prefix and lies within it. */
  ghost predicate LinksUndivided(cfg: Config) {
    forall r, l, q ::
      (r in cfg.routers && l in cfg.routers[r].initial && cfg.routers[r].initial[l].source == Local
       && Originated(cfg, q) && q != l) ==> !(q.bits >= l.bits && Contains(l, q.addr))
  }

  ghost predicate RouterOk(cfg: Config, r: nat)
    requires r in cfg.routers
  {
    InitialOk(cfg.routers[r]) && NeighboursOk(cfg, r)
  }

  ghost predicate WellConfigured(cfg: Config) {
    && (forall r {:trigger RouterOk(cfg, r)} :: r in cfg.routers ==> RouterOk(cfg, r))
    && LinksUndivided(cfg)
  }

  // ---- runs ----

  /** The message r sends to its neighbour n. */
  function MessageTo(cfg: Config, r: nat, n: Addr, es: seq<RipEntry>): Message
    requires r in cfg.routers && n in cfg.routers[r].neighbours && n in cfg.owner
    requires cfg.routers[r].neighbours[n] in cfg.routers[r].address
  {
    Message(cfg.routers[r].address[cfg.routers[r].neighbours[n]], cfg.owner[n], es)
  }

  /** A triggered update goes to every neighbour, unless it is empty. */
  ghost function Triggered(cfg: Config, r: nat, es: seq<RipEntry>): set<Message>
    requires WellConfigured(cfg) && r in cfg.routers
  {
    if es == [] then {}
    else
      assert RouterOk(cfg, r);
      set n | n in cfg.routers[r].neighbours :: MessageTo(cfg, r, n, es)
  }

  datatype Event =
    | SendsUpdate(r: nat, n: Addr, es: seq<RipEntry>)
    | Receives(r: nat, m: Message, now: int)
    | TimesOut(r: nat, now: int, timeout: int, es: seq<RipEntry>)

  /** One step. A request only makes its receiver send updates, so it adds no step of its own. */
  ghost predicate NetStep(cfg: Config, s: Network, ev: Event, s': Network)
    requires WellConfigured(cfg)
  {
    && ev.r in cfg.routers && ev.r in s.tables && RouterOk(cfg, ev.r)
    && var t := s.tables[ev.r];
    match ev
    case SendsUpdate(r, n, es) =>
      && n in cfg.routers[r].neighbours && ListsTable(es, t, n)
      && s' == s.(sent := s.sent + {MessageTo(cfg, r, n, es)})
    case Receives(r, m, now) =>
      && m in s.sent && m.to == r
      && var (t', changed) := ProcessAll(t, m.entries, m.src, now);
      s' == Network(s.tables[r := t'], s.sent + Triggered(cfg, r, changed))
    case TimesOut(r, now, timeout, es) =>
      && ReportsExpired(es, t, now, timeout)
      && s' == Network(s.tables[r := TimeOut(t, now, timeout)], s.sent + Triggered(cfg, r, es))
  }

  ghost predicate NetInit(cfg: Config, s: Network) {
    && s.tables.Keys == cfg.routers.Keys
    && (forall r :: r in cfg.routers ==> s.tables[r] == cfg.routers[r].initial)
    && s.sent == {}
  }

  ghost predicate NetNext(cfg: Config, s: Network, s': Network)
    requires WellConfigured(cfg)
  {
    exists ev :: NetStep(cfg, s, ev, s')
  }

  ghost predicate NetStepAt(cfg: Config, run: seq<Network>, i: nat)
    requires WellConfigured(cfg) && i + 1 < |run|
  {
    NetNext(cfg, run[i], run[i + 1])
  }

  ghost predicate IsNetRun(cfg: Config, run: seq<Network>)
    requires WellConfigured(cfg)
  {
    && run != [] && NetInit(cfg, run[0])
    && forall i: nat :: i < |run| - 1 ==> NetStepAt(cfg, run, i)
  }

  // ---- the invariant ----

  /** A learned route: its cost is in range, some router originated its prefix, and its next hop
      is a RIP neighbour on a link. */
  ghost predicate LearnedOk(cfg: Config, r: nat, p: Prefix, e: FwdEntry)
    requires r in cfg.routers
  {
    && e.prefix == p && e.source == SourceType.Rip && e.interfaceName == ""
    && 1 <= e.cost <= INFINITY
    && Originated(cfg, p)
    && e.nextHop in cfg.routers[r].neighbours && OnLink(cfg.routers[r], e.nextHop)
  }

  /** The routes a router started with are as they were; all others are learned. */
  ghost predicate TableOk(cfg: Config, r: nat, t: Table)
    requires r in cfg.routers
  {
    && (forall p :: p in cfg.routers[r].initial ==> p in t && t[p] == cfg.routers[r].initial[p])
    && (forall p :: p in t && p !in cfg.routers[r].initial ==> LearnedOk(cfg, r, p, t[p]))
  }

  ghost predicate MessageOk(cfg: Config, m: Message) {
    && m.to in cfg.routers
    && m.src in cfg.routers[m.to].neighbours && OnLink(cfg.routers[m.to], m.src)
    && DistinctPrefixes(m.entries)
    && forall e :: e in m.entries ==> Originated(cfg, e.prefix)
  }

  ghost predicate NetInv(cfg: Config, s: Network) {
    && s.tables.Keys == cfg.routers.Keys
    && (forall r :: r in cfg.routers ==> TableOk(cfg, r, s.tables[r]))
    && (forall m :: m in s.sent ==> MessageOk(cfg, m))
  }

  lemma InTableIsOriginated(cfg: Config, r: nat, t: Table, p: Prefix)
    requires r in cfg.routers && TableOk(cfg, r, t) && p in t
    ensures Originated(cfg, p)
  {
    if p !in cfg.routers[r].initial {
      assert LearnedOk(cfg, r, p, t[p]);
    }
  }

  lemma LearnKeepsTable(cfg: Config, r: nat, t: Table, p: Prefix, e: FwdEntry)
    requires r in cfg.routers && TableOk(cfg, r, t) && p !in cfg.routers[r].initial && LearnedOk(cfg, r, p, e)
    ensures TableOk(cfg, r, t[p := e])
  {
  }

  lemma ProcessKeepsTable(cfg: Config, r: nat, t: Table, e: RipEntry, src: Addr, now: int)
    requires r in cfg.routers && InitialOk(cfg.routers[r]) && TableOk(cfg, r, t) && Originated(cfg, e.prefix)
    requires src in cfg.routers[r].neighbours && OnLink(cfg.routers[r], src)
    ensures TableOk(cfg, r, Process(t, e, src, now).0)
  {
    var t' := Process(t, e, src, now).0;
    var p := e.prefix;
    if p !in cfg.routers[r].initial {
      assert p in t ==> LearnedOk(cfg, r, p, t[p]);
      assert t' != t ==> LearnedOk(cfg, r, p, t'[p]) && t' == t[p := t'[p]];
      if t' != t {
        LearnKeepsTable(cfg, r, t, p, t'[p]);
      }
    } else {
      assert t' == t;
    }
  }

  lemma {:induction false} ProcessAllKeepsTable(cfg: Config, r: nat, t: Table, es: seq<RipEntry>, src: Addr, now: int)
    requires r in cfg.routers && InitialOk(cfg.routers[r]) && TableOk(cfg, r, t)
    requires forall e :: e in es ==> Originated(cfg, e.prefix)
    requires src in cfg.routers[r].neighbours && OnLink(cfg.routers[r], src)
    ensures TableOk(cfg, r, ProcessAll(t, es, src, now).0)
    decreases |es|
  {
    if es != [] {
      var n := |es| - 1;
      ProcessAllKeepsTable(cfg, r, t, es[..n], src, now);
      ProcessKeepsTable(cfg, r, ProcessAll(t, es[..n], src, now).0, es[n], src, now);
    }
  }

  lemma MessageToOk(cfg: Config, r: nat, n: Addr, es: seq<RipEntry>)
    requires r in cfg.routers && RouterOk(cfg, r) && n in cfg.routers[r].neighbours
    requires DistinctPrefixes(es) && forall e :: e in es ==> Originated(cfg, e.prefix)
    ensures MessageOk(cfg, MessageTo(cfg, r, n, es))
  {
  }

  lemma TriggeredOk(cfg: Config, r: nat, es: seq<RipEntry>)
    requires WellConfigured(cfg) && r in cfg.routers
    requires DistinctPrefixes(es) && forall e :: e in es ==> Originated(cfg, e.prefix)
    ensures forall m :: m in Triggered(cfg, r, es) ==> MessageOk(cfg, m)
  {
    assert RouterOk(cfg, r);
  }

  lemma TimeOutKeepsTable(cfg: Config, r: nat, t: Table, now: int, timeout: int)
    requires r in cfg.routers && InitialOk(cfg.routers[r]) && TableOk(cfg, r, t)
    ensures TableOk(cfg, r, TimeOut(t, now, timeout))
  {
    var t' := TimeOut(t, now, timeout);
    forall p | p in t' && p !in cfg.routers[r].initial ensures LearnedOk(cfg, r, p, t'[p]) {
      assert LearnedOk(cfg, r, p, t[p]);
    }
  }

  lemma ListedAreOriginated(cfg: Config, r: nat, t: Table, es: seq<RipEntry>)
    requires r in cfg.routers && TableOk(cfg, r, t)
    requires forall i :: 0 <= i < |es| ==> es[i].prefix in t
    ensures forall e :: e in es ==> Originated(cfg, e.prefix)
  {
    forall e | e in es ensures Originated(cfg, e.prefix) {
      InTableIsOriginated(cfg, r, t, e.prefix);
    }
  }

  /** A step replaces one router's table and adds messages. */
  lemma NetUpdate(cfg: Config, s: Network, s': Network, r: nat, t': Table, added: set<Message>)
    requires NetInv(cfg, s) && r in cfg.routers && TableOk(cfg, r, t')
    requires forall m :: m in added ==> MessageOk(cfg, m)
    requires s' == Network(s.tables[r := t'], s.sent + added)
    ensures NetInv(cfg, s')
  {
  }

  lemma NetSend(cfg: Config, s: Network, s': Network, m: Message)
    requires NetInv(cfg, s) && MessageOk(cfg, m) && s' == s.(sent := s.sent + {m})
    ensures NetInv(cfg, s')
  {
  }

  lemma SendsKeeps(cfg: Config, s: Network, r: nat, n: Addr, es: seq<RipEntry>, s': Network)
    requires WellConfigured(cfg) && NetInv(cfg, s) && NetStep(cfg, s, SendsUpdate(r, n, es), s')
    ensures NetInv(cfg, s')
  {
    var t := s.tables[r];
    ListedAreOriginated(cfg, r, t, es);
    MessageToOk(cfg, r, n, es);
    NetSend(cfg, s, s', MessageTo(cfg, r, n, es));
  }

  lemma ReceivesKeeps(cfg: Config, s: Network, r: nat, m: Message, now: int, s': Network)
    requires WellConfigured(cfg) && NetInv(cfg, s) && NetStep(cfg, s, Receives(r, m, now), s')
    ensures NetInv(cfg, s')
  {
    var t := s.tables[r];
    assert MessageOk(cfg, m) && RouterOk(cfg, r);
    ProcessAllKeepsTable(cfg, r, t, m.entries, m.src, now);
    ChangedAreReceived(t, m.entries, m.src, now);
    ChangedAreDistinct(t, m.entries, m.src, now);
    var (t', changed) := ProcessAll(t, m.entries, m.src, now);
    TriggeredOk(cfg, r, changed);
    NetUpdate(cfg, s, s', r, t', Triggered(cfg, r, changed));
  }

  lemma TimesOutKeeps(cfg: Config, s: Network, r: nat, now: int, timeout: int, es: seq<RipEntry>, s': Network)
    requires WellConfigured(cfg) && NetInv(cfg, s) && NetStep(cfg, s, TimesOut(r, now, timeout, es), s')
    ensures NetInv(cfg, s')
  {
    var t := s.tables[r];
    assert RouterOk(cfg, r);
    TimeOutKeepsTable(cfg, r, t, now, timeout);
    ListedAreOriginated(cfg, r, t, es);
    TriggeredOk(cfg, r, es);
    NetUpdate(cfg, s, s', r, TimeOut(t, now, timeout), Triggered(cfg, r, es));
  }

  lemma NetStepKeeps(cfg: Config, s: Network, ev: Event, s': Network)
    requires WellConfigured(cfg) && NetInv(cfg, s) && NetStep(cfg, s, ev, s')
    ensures NetInv(cfg, s')
  {
    match ev {
      case SendsUpdate(r, n, es) => SendsKeeps(cfg, s, r, n, es, s');
      case Receives(r, m, now) => ReceivesKeeps(cfg, s, r, m, now, s');
      case TimesOut(r, now, timeout, es) => TimesOutKeeps(cfg, s, r, now, timeout, es, s');
    }
  }

  lemma NetInitInv(cfg: Config, s: Network)
    requires NetInit(cfg, s)
    ensures NetInv(cfg, s)
  {
  }

  lemma {:induction false} NetRunInv(cfg: Config, run: seq<Network>, i: nat)
    requires WellConfigured(cfg) && IsNetRun(cfg, run) && i < |run|
    ensures NetInv(cfg, run[i])
    decreases i
  {
    if i == 0 {
      NetInitInv(cfg, run[0]);
    } else {
      NetRunInv(cfg, run, i - 1);
      assert NetStepAt(cfg, run, i - 1);
      var ev :| NetStep(cfg, run[i - 1], ev, run[i]);
      NetStepKeeps(cfg, run[i - 1], ev, run[i]);
    }
  }

  /** In every run a response relaxes the route of each of its entries, and the triggered update
      it causes names exactly the destinations whose cost it changed. */
  lemma EveryResponseRelaxes(cfg: Config, run: seq<Network>, i: nat, r: nat, m: Message, now: int, s': Network, k: nat)
    requires WellConfigured(cfg) && IsNetRun(cfg, run) && i < |run|
    requires NetStep(cfg, run[i], Receives(r, m, now), s') && k < |m.entries|
    ensures r in s'.tables
    ensures var t := run[i].tables[r]; var e := m.entries[k];
      && Relaxed(t, s'.tables[r], e, m.src, now)
      && (e in ProcessAll(t, m.entries, m.src, now).1 <==> CostChanged(t, s'.tables[r], e.prefix))
  {
    NetRunInv(cfg, run, i);
    assert MessageOk(cfg, m);
    ResponseRelaxes(run[i].tables[r], m.entries, m.src, now, k);
  }

  /** In every run an entry is handled as section 3.9.2 of RFC 2453 asks if and only if it meets
      the condition. */
  lemma EveryResponseConformsExactly(cfg: Config, run: seq<Network>, i: nat, r: nat, m: Message, now: int, s': Network, k: nat)
    requires WellConfigured(cfg) && IsNetRun(cfg, run) && i < |run|
    requires NetStep(cfg, run[i], Receives(r, m, now), s') && k < |m.entries|
    ensures r in s'.tables
    ensures var t := run[i].tables[r]; var e := m.entries[k];
      RfcRule(t, s'.tables[r], e, m.src, now) <==> Conforms(t, e, m.src, now)
  {
    NetRunInv(cfg, run, i);
    assert MessageOk(cfg, m) && RouterOk(cfg, r);
    TableKeyed(cfg, r, run[i].tables[r]);
    ResponseConformsExactly(run[i].tables[r], m.entries, m.src, now, k);
  }

  lemma TableKeyed(cfg: Config, r: nat, t: Table)
    requires r in cfg.routers && InitialOk(cfg.routers[r]) && TableOk(cfg, r, t)
    ensures Keyed(t)
  {
    forall p | p in t ensures t[p].prefix == p {
      assert p !in cfg.routers[r].initial ==> LearnedOk(cfg, r, p, t[p]);
    }
  }

  /** The departure is the ordinary case: an update lists every interface and static route with
      metric 0, which the RFC calls invalid. */
  lemma OwnRoutesAreSentInvalid(cfg: Config, r: nat, t: Table, n: Addr, es: seq<RipEntry>, i: nat)
    requires r in cfg.routers && InitialOk(cfg.routers[r]) && TableOk(cfg, r, t)
    requires ListsTable(es, t, n) && i < |es|
    ensures es[i].prefix in cfg.routers[r].initial <==> es[i].cost == 0
    ensures es[i].prefix in cfg.routers[r].initial ==> !Valid(es[i])
  {
    var p := es[i].prefix;
    assert p !in cfg.routers[r].initial ==> LearnedOk(cfg, r, p, t[p]);
  }

  // ---- what it means for forwarding ----

  /** An address on a link is matched best by that link's own route and by no other. */
  lemma OnLinkResolves(cfg: Config, r: nat, t: Table, a: Addr, b: Prefix)
    requires WellConfigured(cfg) && r in cfg.routers && TableOk(cfg, r, t) && OnLink(cfg.routers[r], a)
    requires IsBest(t, a, b)
    ensures b in cfg.routers[r].initial && t[b].source == Local
  {
    var me := cfg.routers[r];
    var l :| l in me.initial && me.initial[l].source == Local && Contains(l, a);
    assert l in t && Contains(l, a);
    InTableIsOriginated(cfg, r, t, b);
    Nested(l, b, a);
  }

  /** In any such table every usable next hop is matched best by an interface route. */
  lemma TableResolves(cfg: Config, r: nat, t: Table)
    requires WellConfigured(cfg) && r in cfg.routers && TableOk(cfg, r, t)
    ensures NextHopsLocal(t)
  {
    assert RouterOk(cfg, r);
    forall p, q | p in t && Indirect(t[p]) && IsBest(t, t[p].nextHop, q) ensures t[q].interfaceName != "" {
      assert p !in cfg.routers[r].initial ==> LearnedOk(cfg, r, p, t[p]);
      OnLinkResolves(cfg, r, t, t[p].nextHop, q);
    }
  }

  /** In every reachable state of every router: the lookup of any destination ends within two
      lookups and returns an interface's own route or nothing, in whatever order the table is
      visited. */
  lemma EveryRouterResolves(cfg: Config, run: seq<Network>, i: nat, r: nat, dest: Addr)
    requires WellConfigured(cfg) && IsNetRun(cfg, run) && i < |run| && r in cfg.routers
    ensures r in run[i].tables
    ensures var t := run[i].tables[r];
      && EndsWithin(t, dest, 2) && Ends(t, dest)
      && forall res, n: nat :: CanReturn(t, dest, res, n) && res.Some? ==>
           res.value.entry.source == Local && res.value.entry.cost == 0
  {
    NetRunInv(cfg, run, i);
    var t := run[i].tables[r];
    TableResolves(cfg, r, t);
    TwoLookups(t, dest);
    forall res, n: nat | CanReturn(t, dest, res, n) && res.Some?
      ensures res.value.entry.source == Local && res.value.entry.cost == 0
    {
      ReturnsLocal(cfg, r, t, dest, res, n);
    }
  }

  lemma ReturnsLocal(cfg: Config, r: nat, t: Table, dest: Addr, res: Option<Route>, n: nat)
    requires WellConfigured(cfg) && r in cfg.routers && TableOk(cfg, r, t)
    requires CanReturn(t, dest, res, n) && res.Some?
    ensures res.value.entry.source == Local && res.value.entry.cost == 0
  {
    ReturnsInterfaceRoute(t, dest, res, n);
    var p :| p in t && t[p] == res.value.entry;
    assert RouterOk(cfg, r);
    assert p !in cfg.routers[r].initial ==> LearnedOk(cfg, r, p, t[p]);
  }

  /** Every route of every reachable table: configured ones never change, learned ones have a
      cost from 1 to 16, a prefix some router originated, and a neighbour as next hop. */
  lemma EveryRouteIsSound(cfg: Config, run: seq<Network>, i: nat, r: nat, p: Prefix)
    requires WellConfigured(cfg) && IsNetRun(cfg, run) && i < |run| && r in cfg.routers
    ensures r in run[i].tables
    ensures p in cfg.routers[r].initial ==> p in run[i].tables[r] && run[i].tables[r][p] == cfg.routers[r].initial[p]
    ensures p in run[i].tables[r] && p !in cfg.routers[r].initial ==> LearnedOk(cfg, r, p, run[i].tables[r][p])
  {
    NetRunInv(cfg, run, i);
  }

  /** In every reachable state of every router a packet for another node is sent on, dropped for
      want of a route, or dropped because its link is down or the node is not on it. The RIP case
      of ipForwarding, the wrong-type case and the offline case are never taken. */
  lemma UnexpectedNeverHappens(cfg: Config, run: seq<Network>, i: nat, r: nat, dest: Addr,
                               res: Option<Route>, n: nat, ifaces: map<string, Interface>, v: Verdict)
    requires WellConfigured(cfg) && IsNetRun(cfg, run) && i < |run| && r in cfg.routers
    ensures r in run[i].tables
    ensures CanReturn(run[i].tables[r], dest, res, n) && ForwardsAs(v, res, ifaces) ==>
      v.NoMatch? || v.SentOn? || v.InterfaceDown? || v.NoNeighbour?
  {
    EveryRouterResolves(cfg, run, i, r, dest);
  }

  /** The table initFwdTable makes is a fit start, if each static route leads to an interface's
      link whose prefix no static route takes. */
  lemma InitialTableFits(t: Table, ifaces: map<string, Interface>, statics: map<Prefix, Addr>, r: Router)
    requires InitialTable(t, ifaces, statics) && r.initial == t
    requires "" !in ifaces
    requires forall p :: p in statics ==>
      exists n :: n in ifaces && Contains(ifaces[n].prefix, statics[p]) && ifaces[n].prefix !in statics
    ensures InitialOk(r)
  {
    forall p | p in statics ensures OnLink(r, statics[p]) {
      var n :| n in ifaces && Contains(ifaces[n].prefix, statics[p]) && ifaces[n].prefix !in statics;
      assert ifaces[n].prefix in t;
    }
  }

  /** In every run a timeout check leaves no learned route usable that was not confirmed in time,
      tells every neighbour so, and changes nothing else. */
  lemma TimeoutsCleanTables(cfg: Config, run: seq<Network>, i: nat, r: nat, now: int, timeout: int, es: seq<RipEntry>,
                            s': Network, p: Prefix)
    requires WellConfigured(cfg) && IsNetRun(cfg, run) && i < |run|
    requires NetStep(cfg, run[i], TimesOut(r, now, timeout, es), s')
    ensures r in run[i].tables && r in s'.tables && s'.tables[r].Keys == run[i].tables[r].Keys
    ensures p in s'.tables[r] ==>
      var e, e' := run[i].tables[r][p], s'.tables[r][p];
      if e'.source == SourceType.Rip && now - e'.lastUpdated >= timeout then e'.cost == 16 && e' == e.(cost := 16)
      else e' == e
    ensures RipEntry(16, p) in es <==> p in s'.tables[r] && s'.tables[r][p] != run[i].tables[r][p]
  {
    NetRunInv(cfg, run, i);
    var t := run[i].tables[r];
    ExpiryIsExact(t, now, timeout, p);
    ReportMatchesTable(t, now, timeout, es, p);
    if p in t && p !in cfg.routers[r].initial {
      assert LearnedOk(cfg, r, p, t[p]);
    }
    assert RouterOk(cfg, r);
  }

  /** In every reachable table a packet for a node on a link that is up is sent on that link to
      that node. */
  lemma LinkTrafficIsSent(cfg: Config, run: seq<Network>, i: nat, r: nat, dest: Addr,
                          res: Option<Route>, n: nat, ifaces: map<string, Interface>, v: Verdict)
    requires WellConfigured(cfg) && IsNetRun(cfg, run) && i < |run| && r in cfg.routers
    requires OnLink(cfg.routers[r], dest)
    ensures r in run[i].tables
    ensures CanReturn(run[i].tables[r], dest, res, n) ==>
      && res.Some? && res.value.nextDest == dest && res.value.entry.source == Local
      && Contains(res.value.entry.prefix, dest)
    ensures CanReturn(run[i].tables[r], dest, res, n) && ForwardsAs(v, res, ifaces) ==>
      var name := res.value.entry.interfaceName;
      v == SentOn(name, dest) <==> name in ifaces && ifaces[name].up && dest in ifaces[name].neighbours
  {
    NetRunInv(cfg, run, i);
    if CanReturn(run[i].tables[r], dest, res, n) {
      LinkIsReturned(cfg, r, run[i].tables[r], dest, res, n);
      if ForwardsAs(v, res, ifaces) {
        SentExactly(v, res, ifaces, res.value.entry.interfaceName, dest);
      }
    }
  }

  lemma LinkIsReturned(cfg: Config, r: nat, t: Table, dest: Addr, res: Option<Route>, n: nat)
    requires WellConfigured(cfg) && r in cfg.routers && TableOk(cfg, r, t)
    requires OnLink(cfg.routers[r], dest) && CanReturn(t, dest, res, n)
    ensures res.Some? && res.value.nextDest == dest
    ensures res.value.entry.source == Local && res.value.entry.cost == 0 && Contains(res.value.entry.prefix, dest)
  {
    assert RouterOk(cfg, r);
    var l :| l in cfg.routers[r].initial && cfg.routers[r].initial[l].source == Local && Contains(l, dest);
    assert l in t;
    forall p | IsBest(t, dest, p) ensures t[p].interfaceName != "" {
      OnLinkResolves(cfg, r, t, dest, p);
    }
    DirectIsReturned(t, dest, res, n);
    var p :| IsBest(t, dest, p) && t[p] == res.value.entry;
    OnLinkResolves(cfg, r, t, dest, p);
  }

  /** What a response or a timeout changes is announced to every neighbour, each from the address
      that neighbour knows. */
  lemma ChangesAreAnnounced(cfg: Config, s: Network, ev: Event, s': Network, n: Addr)
    requires WellConfigured(cfg) && NetStep(cfg, s, ev, s') && !ev.SendsUpdate?
    requires n in cfg.routers[ev.r].neighbours
    ensures var me := cfg.routers[ev.r]; me.neighbours[n] in me.address && n in cfg.owner
    ensures var me := cfg.routers[ev.r];
      var es := if ev.Receives? then ProcessAll(s.tables[ev.r], ev.m.entries, ev.m.src, ev.now).1 else ev.es;
      es != [] ==> Message(me.address[me.neighbours[n]], cfg.owner[n], es) in s'.sent
  {
    assert RouterOk(cfg, ev.r);
  }
}
