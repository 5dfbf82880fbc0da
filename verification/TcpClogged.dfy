/** What an early segment that arrives twice does to the heap. */
module TcpClogged {
  import opened Words
  import opened EarlyArrivalHeap
  import opened TcpSpec
  import opened TcpNetwork
  import opened TcpInvariant
  import opened TcpSteps
  import opened TcpTheorems
  import opened TcpPaths

  /** The smallest early arrival is one that is not early any more. The drain loop looks at no
      other, and takes it only if it begins at nxt. */
  predicate Clogged(r: Rcv) {
    r.heap != [] && r.heap[0].startSeq < r.nxt
  }

  lemma CloggedExactly(r: Rcv)
    requires IsHeap(r.heap, |r.heap|)
    ensures Clogged(r) <==> exists e :: e in r.heap && e.startSeq < r.nxt
  {
    if e :| e in r.heap && e.startSeq < r.nxt {
      var k :| 0 <= k < |r.heap| && r.heap[k] == e;
      RootIsMin(r.heap, k);
    }
    if Clogged(r) {
      assert r.heap[0] in r.heap;
    }
  }

  // ---- a clogged heap stays clogged ----

  lemma CloggedPush(r: Rcv, x: EarlyArrival)
    requires Clogged(r) && IsHeap(r.heap, |r.heap|)
    ensures Clogged(r.(heap := PushHeap(r.heap, x)))
    ensures multiset(r.heap) <= multiset(PushHeap(r.heap, x))
  {
    PushKeepsHeap(r.heap, x);
    assert r.heap[0] in r.heap;
    assert r.heap[0] in multiset(PushHeap(r.heap, x));
    CloggedExactly(r.(heap := PushHeap(r.heap, x)));
  }

  /** In-order data still gets in, but nothing out of the heap. */
  lemma CloggedInOrder(e: Endpoint, data: seq<byte>)
    requires e.WellFormed() && Clogged(e.rcv) && |data| <= e.rcv.ring.FreeSpace() && e.rcv.nxt + |data| < WORD
    ensures var r := HandleInOrder(e, data).0.rcv; r.heap == e.rcv.heap && r.nxt == e.rcv.nxt + |data|
  {
    assert !CanDrain(Accept(e.rcv, data));
  }

  lemma CloggedPayload(e: Endpoint, p: Packet)
    requires e.WellFormed() && 0 < |p.data| < WORD && Clogged(e.rcv) && IsHeap(e.rcv.heap, |e.rcv.heap|)
    requires e.rcv.nxt + |p.data| < WORD
    ensures var r := HandlePayload(e, p).0.rcv; Clogged(r) && multiset(e.rcv.heap) <= multiset(r.heap)
  {
    var r := e.rcv;
    if p.seqNum > r.nxt {
      CloggedPush(r, EarlyArrival(p.seqNum, Add32(p.seqNum, |p.data|), p.data));
    } else if p.seqNum == r.nxt && r.ring.FreeSpace() > 0 {
      CloggedInOrder(e, Fitting(p.data, r.ring.FreeSpace()));
    }
  }

  lemma DataFits(x: Node, y: Node, xy: set<Packet>, yx: set<Packet>, p: Packet)
    requires Pair(x, y, xy, yx) && p in xy && p.data != []
    ensures p.seqNum + |p.data| < WORD && !p.fin
  {
    assert PacketOk(x, y.ep.rcv, p) && DataOk(x, y.ep.rcv, p);
  }

  lemma CloggedReceive(x: Node, y: Node, xy: set<Packet>, yx: set<Packet>, p: Packet, rtt: real)
    requires Pair(x, y, xy, yx) && p in xy && y.ep.WellFormed() && |p.data| < WORD && Clogged(y.ep.rcv)
    ensures var r := HandleTcp(y.ep, p, rtt).0.rcv;
      Clogged(r) && multiset(y.ep.rcv.heap) <= multiset(r.heap)
  {
    if p.data != [] {
      DataFits(x, y, xy, yx, p);
      if p.seqNum >= y.ep.rcv.nxt {
        CloggedPayload(y.ep, p);
      }
    }
  }

  lemma ThreadsKeepHeap(y: Node, xy: set<Packet>, act: Action)
    requires Steppable(y, xy, act) && !act.Receive?
    ensures var y' := Act(y, act).0; y'.ep.rcv.heap == y.ep.rcv.heap && y'.ep.rcv.nxt == y.ep.rcv.nxt
  {
  }

  lemma CloggedNext(s: System, s': System)
    requires Reachable(s) && Next(s, s') && Clogged(s.b.ep.rcv)
    ensures Clogged(s'.b.ep.rcv) && multiset(s.b.ep.rcv.heap) <= multiset(s'.b.ep.rcv.heap)
  {
    ReachableInv(s);
    var t := NextIsStep(s, s');
    if !t.byA && t.act.Receive? {
      CloggedReceive(s.a, s.b, s.ab, s.ba, t.act.packet, t.act.rtt);
    } else if !t.byA {
      ThreadsKeepHeap(s.b, s.ab, t.act);
    }
  }

  lemma CloggedPathStep(path: seq<System>, i: nat)
    requires IsPath(path) && i + 1 < |path| && Clogged(path[i].b.ep.rcv)
    ensures Clogged(path[i + 1].b.ep.rcv)
    ensures multiset(path[i].b.ep.rcv.heap) <= multiset(path[i + 1].b.ep.rcv.heap)
  {
    PathReaches(path, i);
    assert StepAt(path, i);
    CloggedNext(path[i], path[i + 1]);
  }

  /** From then on the drain loop takes nothing, in whatever way a run goes on: the heap only
      grows, and every byte has to arrive in order. */
  lemma {:induction false} CloggedForever(path: seq<System>, j: nat)
    requires IsPath(path) && j < |path| && Clogged(path[0].b.ep.rcv)
    ensures Clogged(path[j].b.ep.rcv)
    ensures multiset(path[0].b.ep.rcv.heap) <= multiset(path[j].b.ep.rcv.heap)
    decreases j
  {
    if j > 0 {
      CloggedForever(path, j - 1);
      CloggedPathStep(path, j - 1);
    }
  }

  // ---- how it gets clogged ----

  /** The heap holds z twice, or once and too late. */
  predicate Doubled(r: Rcv, z: EarlyArrival) {
    multiset(r.heap)[z] >= 2 || (z in r.heap && z.startSeq < r.nxt)
  }

  lemma DoubledPop(r: Rcv, z: EarlyArrival)
    requires r.ring.Valid() && CanDrain(r) && Doubled(r, z)
    requires 0 < |z.data| && z.startSeq + |z.data| < WORD && r.nxt + |r.heap[0].data| < WORD
    ensures Doubled(Accept(r, r.heap[0].data).(heap := PopHeap(r.heap)), z)
  {
    var h := PopHeap(r.heap);
    PopPermutes(r.heap);
    assert multiset(r.heap)[z] == multiset(h)[z] + multiset{r.heap[0]}[z];
    assert z in r.heap ==> multiset(r.heap)[z] >= 1;
    assert multiset(h)[z] >= 1 ==> z in h;
  }

  lemma {:induction false} DoubledDrain(e: Endpoint, z: EarlyArrival)
    requires e.WellFormed() && Doubled(e.rcv, z) && 0 < |z.data| && z.startSeq + |z.data| < WORD
    requires forall a :: a in e.rcv.heap ==> a.startSeq + |a.data| < WORD
    ensures Doubled(Drain(e).0.rcv, z)
    decreases |e.rcv.heap|
  {
    if e.rcv.heap != [] && CanDrain(e.rcv) {
      DoubledPop(e.rcv, z);
      PopPermutes(e.rcv.heap);
      forall a | a in DrainOne(e).rcv.heap ensures a.startSeq + |a.data| < WORD {
        assert a in multiset(PopHeap(e.rcv.heap));
        assert a in multiset(e.rcv.heap);
      }
      DoubledDrain(DrainOne(e), z);
    }
  }

  lemma DoubledIn(r: Rcv, z: EarlyArrival)
    requires Doubled(r, z)
    ensures z in r.heap
  {
    assert multiset(r.heap)[z] >= 2 ==> z in multiset(r.heap);
  }

  /** Every early arrival ends within the sequence space, and has a byte. */
  lemma ArrivalsFit(x: Node, y: Node, xy: set<Packet>, yx: set<Packet>)
    requires Pair(x, y, xy, yx)
    ensures forall a :: a in y.ep.rcv.heap ==> 0 < |a.data| && a.startSeq + |a.data| < WORD
  {
    forall a | a in y.ep.rcv.heap ensures 0 < |a.data| && a.startSeq + |a.data| < WORD {
      assert HeapEntryOk(x, y.ep.rcv, a);
    }
  }

  lemma DoubledPayload(e: Endpoint, p: Packet, z: EarlyArrival)
    requires e.WellFormed() && 0 < |p.data| < WORD && Doubled(e.rcv, z) && e.rcv.nxt + |p.data| < WORD
    requires IsHeap(e.rcv.heap, |e.rcv.heap|)
    requires forall a :: a in e.rcv.heap ==> 0 < |a.data| && a.startSeq + |a.data| < WORD
    ensures Doubled(HandlePayload(e, p).0.rcv, z)
  {
    var r := e.rcv;
    DoubledIn(r, z);
    if p.seqNum > r.nxt {
      var x := EarlyArrival(p.seqNum, Add32(p.seqNum, |p.data|), p.data);
      PushKeepsHeap(r.heap, x);
      DoubledGrows(r, PushHeap(r.heap, x), z);
    } else if p.seqNum == r.nxt && r.ring.FreeSpace() > 0 {
      DoubledDrain(e.(rcv := Accept(r, Fitting(p.data, r.ring.FreeSpace()))), z);
    }
  }

  lemma DoubledReceive(x: Node, y: Node, xy: set<Packet>, yx: set<Packet>, p: Packet, rtt: real, z: EarlyArrival)
    requires Pair(x, y, xy, yx) && p in xy && y.ep.WellFormed() && |p.data| < WORD && Doubled(y.ep.rcv, z)
    ensures Doubled(HandleTcp(y.ep, p, rtt).0.rcv, z)
  {
    DoubledIn(y.ep.rcv, z);
    ArrivalsFit(x, y, xy, yx);
    if p.data != [] {
      DataFits(x, y, xy, yx, p);
      if p.seqNum >= y.ep.rcv.nxt {
        DoubledPayload(y.ep, p, z);
      }
    }
  }

  lemma DoubledGrows(r: Rcv, h: Heap, z: EarlyArrival)
    requires Doubled(r, z) && multiset(r.heap) <= multiset(h)
    ensures Doubled(r.(heap := h), z)
  {
    if z in r.heap {
      assert z in multiset(r.heap);
      assert z in multiset(h);
    }
  }

  lemma DoubledNext(s: System, s': System, z: EarlyArrival)
    requires Reachable(s) && Next(s, s') && Doubled(s.b.ep.rcv, z)
    ensures Doubled(s'.b.ep.rcv, z)
  {
    ReachableInv(s);
    var t := NextIsStep(s, s');
    if !t.byA && t.act.Receive? {
      DoubledReceive(s.a, s.b, s.ab, s.ba, t.act.packet, t.act.rtt, z);
    } else if !t.byA {
      ThreadsKeepHeap(s.b, s.ab, t.act);
    }
  }

  lemma DoubledPathStep(path: seq<System>, i: nat, z: EarlyArrival)
    requires IsPath(path) && i + 1 < |path| && Doubled(path[i].b.ep.rcv, z)
    ensures Doubled(path[i + 1].b.ep.rcv, z)
  {
    PathReaches(path, i);
    assert StepAt(path, i);
    DoubledNext(path[i], path[i + 1], z);
  }

  lemma {:induction false} DoubledAlong(path: seq<System>, j: nat, z: EarlyArrival)
    requires IsPath(path) && j < |path| && Doubled(path[0].b.ep.rcv, z)
    ensures Doubled(path[j].b.ep.rcv, z)
    decreases j
  {
    if j > 0 {
      DoubledAlong(path, j - 1, z);
      DoubledPathStep(path, j - 1, z);
    }
  }

  /** An early segment that was stored twice clogs the heap as soon as nxt is past it. */
  lemma DuplicateClogs(path: seq<System>, j: nat, z: EarlyArrival)
    requires IsPath(path) && j < |path| && multiset(path[0].b.ep.rcv.heap)[z] >= 2
    ensures z.startSeq < path[j].b.ep.rcv.nxt ==> Clogged(path[j].b.ep.rcv)
  {
    DoubledAlong(path, j, z);
    PathReaches(path, j);
    ReachableInv(path[j]);
    var r := path[j].b.ep.rcv;
    if z.startSeq < r.nxt {
      DoubledIn(r, z);
      CloggedExactly(r);
    }
  }
}
