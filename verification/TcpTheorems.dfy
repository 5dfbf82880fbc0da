/** What every run of a connection guarantees. */
module TcpTheorems {
  import opened Words
  import opened CircleBuffers
  import opened EarlyArrivalHeap
  import opened TcpSpec
  import opened TcpNetwork
  import opened TcpInvariant
  import opened TcpSteps

  // ---- steps ----

  datatype Step = Step(byA: bool, act: Action)

  ghost predicate TakesStep(s: System, t: Step, s': System) {
    if t.byA then Steppable(s.a, s.ba, t.act) && StepA(s, t.act, s')
    else Steppable(s.b, s.ab, t.act) && StepB(s, t.act, s')
  }

  lemma NextIsStep(s: System, s': System) returns (t: Step)
    requires Next(s, s')
    ensures TakesStep(s, t, s')
  {
    var act: Action :|
      || (Steppable(s.a, s.ba, act) && StepA(s, act, s'))
      || (Steppable(s.b, s.ab, act) && StepB(s, act, s'));
    t := Step(Steppable(s.a, s.ba, act) && StepA(s, act, s'), act);
  }

  // ---- the invariant holds in every reachable state ----

  lemma NewNodeOk(iss: uint32, irs: uint32)
    requires 0 < iss && iss + 3 <= WORD && 0 < irs
    ensures NodeOk(NewNode(iss, irs))
  {
    assert NewNode(iss, irs).written[0..] == [];
  }

  lemma NewLink(iss: uint32, irs: uint32)
    requires 0 < iss && iss + 3 <= WORD && 0 < irs && irs + 3 <= WORD
    ensures Link(NewNode(iss, irs), NewNode(irs, iss), {}, {})
  {
    assert NewRing(iss).Contents() == [];
  }

  lemma InitInv(s: System)
    requires Init(s)
    ensures Inv(s)
  {
    NewNodeOk(s.a.iss, s.b.iss);
    NewNodeOk(s.b.iss, s.a.iss);
    NewLink(s.a.iss, s.b.iss);
    NewLink(s.b.iss, s.a.iss);
  }

  lemma PairWellFormed(x: Node, y: Node, xy: set<Packet>, yx: set<Packet>)
    requires Pair(x, y, xy, yx)
    ensures x.ep.WellFormed()
  {
    var q := x.ep.rtx.queue;
    forall i: nat | i < |q| ensures q[i].len <= MAX_SEG_SIZE {
      assert !FinSent(x.ep.snd) ==> TileAt(q, i, x.iss, x.ep.snd.nxt);
    }
  }

  /** The run-time panics that Steppable leaves out cannot happen. */
  lemma EnabledIsSteppable(x: Node, y: Node, xy: set<Packet>, yx: set<Packet>, act: Action)
    requires Pair(x, y, xy, yx) && Enabled(x, yx, act)
    ensures Steppable(x, yx, act)
  {
    PairWellFormed(x, y, xy, yx);
    if act.Receive? {
      assert PacketOk(y, x.ep.rcv, act.packet);
    }
  }

  lemma NextKeepsInv(s: System, s': System)
    requires Inv(s) && Next(s, s')
    ensures Inv(s')
  {
    var t := NextIsStep(s, s');
    if t.byA {
      ActKeeps(s.a, s.b, s.ab, s.ba, t.act);
    } else {
      ActKeeps(s.b, s.a, s.ba, s.ab, t.act);
    }
  }

  lemma {:induction false} RunInv(run: seq<System>, i: nat)
    requires IsRun(run) && i < |run|
    ensures Inv(run[i])
    decreases i
  {
    if i == 0 {
      InitInv(run[0]);
    } else {
      RunInv(run, i - 1);
      assert StepAt(run, i - 1);
      NextKeepsInv(run[i - 1], run[i]);
    }
  }

  lemma ReachableInv(s: System)
    requires Reachable(s)
    ensures Inv(s)
  {
    var run :| IsRun(run) && run[|run| - 1] == s;
    RunInv(run, |run| - 1);
  }

  /** x and y are the two sides of s, in either order. */
  ghost predicate Sides(s: System, x: Node, y: Node, xy: set<Packet>, yx: set<Packet>) {
    || (x == s.a && y == s.b && xy == s.ab && yx == s.ba)
    || (x == s.b && y == s.a && xy == s.ba && yx == s.ab)
  }

  lemma ReachablePair(s: System, x: Node, y: Node, xy: set<Packet>, yx: set<Packet>)
    requires Reachable(s) && Sides(s, x, y, xy, yx)
    ensures Pair(x, y, xy, yx)
  {
    ReachableInv(s);
  }

  lemma SameStep(run: seq<System>, longer: seq<System>, i: nat, j: nat)
    requires i + 1 < |run| && j + 1 < |longer| && longer[j] == run[i] && longer[j + 1] == run[i + 1]
    ensures StepAt(run, i) <==> StepAt(longer, j)
  {
  }

  lemma ExtendRun(run: seq<System>, s': System)
    requires IsRun(run) && Next(run[|run| - 1], s')
    ensures IsRun(run + [s'])
  {
    var longer := run + [s'];
    forall i: nat | i < |longer| - 1 ensures StepAt(longer, i) {
      if i < |run| - 1 {
        SameStep(run, longer, i, i);
      } else {
        assert longer[i] == run[|run| - 1] && longer[i + 1] == s';
      }
    }
  }

  lemma ReachableNext(s: System, s': System)
    requires Reachable(s) && Next(s, s')
    ensures Reachable(s')
  {
    var run: seq<System> :| IsRun(run) && run[|run| - 1] == s;
    ExtendRun(run, s');
    assert (run + [s'])[|run + [s']| - 1] == s';
  }

  // ---- the byte stream ----

  /** What VRead has returned is always a prefix of what the peer's VWrite has accepted. */
  lemma StreamSafety(s: System, x: Node, y: Node, xy: set<Packet>, yx: set<Packet>)
    requires Reachable(s) && Sides(s, x, y, xy, yx)
    ensures y.read <= x.written
  {
    ReachablePair(s, x, y, xy, yx);
    var c := y.ep.rcv.ring.Contents();
    assert y.read == (y.read + c)[..|y.read|] == x.written[..|y.read|];
  }

  /** io.EOF means that everything the peer ever wrote has been read, and that the peer can
      write no more. */
  lemma EofMeansComplete(s: System, x: Node, y: Node, xy: set<Packet>, yx: set<Packet>)
    requires Reachable(s) && Sides(s, x, y, xy, yx) && y.eof
    ensures y.read == x.written && x.writer == WriterIdle && !MayWrite(x.ep.state)
  {
    ReachablePair(s, x, y, xy, yx);
    assert y.ep.rcv.ring.Contents() == [];
    assert x.written[..|x.written|] == x.written;
    assert y.read + [] == y.read;
  }

  /** A VWrite that has copied its whole argument has appended exactly that argument. */
  lemma CompletedWriteIsExact(s: System, x: Node, y: Node, xy: set<Packet>, yx: set<Packet>)
    requires Reachable(s) && Sides(s, x, y, xy, yx)
    requires x.writer.Writing? && x.writer.total == |x.writer.data|
    ensures x.writer.start <= |x.written| && x.written == x.written[..x.writer.start] + x.writer.data
  {
    ReachablePair(s, x, y, xy, yx);
    assert x.writer.data[..|x.writer.data|] == x.writer.data;
  }

  /** Every data segment ever put on the wire, by a first send, a probe or a retransmission,
      either carries the written stream at its sequence number or starts below the receiver's
      nxt, where handlePayload drops it. */
  lemma WireTruth(s: System, x: Node, y: Node, xy: set<Packet>, yx: set<Packet>, p: Packet)
    requires Reachable(s) && Sides(s, x, y, xy, yx) && p in xy && p.data != []
    ensures TrueBytes(x, p.seqNum, p.data) || p.seqNum < y.ep.rcv.nxt
  {
    ReachablePair(s, x, y, xy, yx);
    assert PacketOk(x, y.ep.rcv, p);
  }

  /** The send ring holds exactly the unacknowledged suffix; the pointers are ordered. */
  lemma SendBufferHoldsSuffix(s: System, x: Node, y: Node, xy: set<Packet>, yx: set<Packet>)
    requires Reachable(s) && Sides(s, x, y, xy, yx) && !FinSent(x.ep.snd)
    ensures var d := x.ep.snd;
      && d.ring.Valid()
      && d.ring.base == d.una <= d.nxt <= d.lbw + 1 == d.una + d.ring.size <= d.una + MAX_WIN_SIZE
      && x.ep.seqNum == d.nxt && d.ring.size <= |x.written|
      && d.ring.Contents() == x.written[|x.written| - d.ring.size..]
  {
    ReachablePair(s, x, y, xy, yx);
  }

  // ---- acknowledgments and retransmission ----

  /** An ACK in flight never exceeds nxt, except by the one byte of an outstanding probe; then
      nothing else is in flight. So the drop of "acks something not yet sent" is never taken. */
  lemma AckConsistency(s: System, x: Node, y: Node, xy: set<Packet>, yx: set<Packet>, p: Packet)
    requires Reachable(s) && Sides(s, x, y, xy, yx) && p in yx
    ensures p.ackNum <= y.ep.rcv.nxt
    ensures
      || p.ackNum <= x.ep.snd.nxt
      || (&& p.ackNum == x.ep.snd.nxt + 1 && x.ep.snd.isProbing
          && x.ep.snd.una == x.ep.snd.nxt && x.ep.rtx.queue == [])
  {
    ReachablePair(s, x, y, xy, yx);
    AckInRange(x, y, xy, yx, p);
    assert AckOk(y.ep.rcv, p);
  }

  /** The queue tiles the flight from una to nxt; the timer runs exactly while it is non-empty,
      so retransmitSegment always finds a head. */
  lemma QueueTilesFlight(s: System, x: Node, y: Node, xy: set<Packet>, yx: set<Packet>)
    requires Reachable(s) && Sides(s, x, y, xy, yx)
    ensures var d := x.ep.snd; var q := x.ep.rtx.queue;
      && (q == [] <==> d.una == d.nxt)
      && (!FinSent(d) ==> HeadCovers(q, d.una))
      && (!FinSent(d) ==> forall i: nat :: i < |q| ==> TileAt(q, i, x.iss, d.nxt))
      && (FinSent(d) && q != [] ==> |q| == 1 && q[0].seqNum == d.una && q[0].fin)
      && (x.ep.state != CLOSED ==> (x.ep.rtx.timerArmed <==> q != []))
      && (x.ep.rtx.timerArmed ==> q != [])
  {
    ReachablePair(s, x, y, xy, yx);
  }

  /** A head that an ACK has only partly covered is resent from below una, and the receiver is
      already past it. */
  lemma PartialRetransmitIsDropped(s: System, x: Node, y: Node, xy: set<Packet>, yx: set<Packet>)
    requires Reachable(s) && Sides(s, x, y, xy, yx) && x.ep.WellFormed()
    requires x.ep.rtx.timerArmed
    ensures x.ep.rtx.queue != []
    ensures x.ep.rtx.queue[0].seqNum < x.ep.snd.una ==>
      forall p :: p in Retransmit(x.ep).1 ==> p.seqNum < y.ep.rcv.nxt
  {
    ReachablePair(s, x, y, xy, yx);
  }

  /** The timeout stays in range and no segment is resent more than four times while the
      connection is open. */
  lemma RetransmissionBounds(s: System, x: Node, y: Node, xy: set<Packet>, yx: set<Packet>, e: RtxEntry)
    requires Reachable(s) && Sides(s, x, y, xy, yx)
    ensures 250.0 <= x.ep.rtx.rto <= 5000.0
    ensures e in x.ep.rtx.queue && x.ep.state != CLOSED ==> e.numRetransmits <= 4
    ensures e in x.ep.rtx.queue ==> e.numRetransmits <= 5
  {
    ReachablePair(s, x, y, xy, yx);
  }

  lemma KarnsAlgorithm(q: Rtx, ackNum: uint32, rtt: real)
    ensures var k := |q.queue| - |AckQueue(q, ackNum, rtt).queue|; var q' := AckQueue(q, ackNum, rtt);
      && 0 <= k && q'.queue == q.queue[k..] && (q'.timerArmed <==> q'.queue != [])
      && (k == 0 || q.queue[k - 1].retransmitted ==> q'.srtt == q.srtt && q'.rto == q.rto)
      && (k > 0 && !q.queue[k - 1].retransmitted ==>
            && q'.srtt == NewSrtt(q.srtt, rtt)
            && q'.rto == (if 1.65 * q'.srtt < 250.0 then 250.0
                          else if 1.65 * q'.srtt > 5000.0 then 5000.0 else 1.65 * q'.srtt))
  {
    AckTakesCoveredEntries(q.queue, ackNum, None);
  }

  /** A new sample moves the smoothed RTT by 15% of the difference, so it stays within the range
      of the samples taken. */
  lemma SrttWithinSamples(srtt: real, rtt: real, lo: real, hi: real)
    requires lo <= rtt <= hi && (srtt == 0.0 || lo <= srtt <= hi)
    ensures lo <= NewSrtt(srtt, rtt) <= hi
    ensures srtt != 0.0 ==> NewSrtt(srtt, rtt) - srtt == 0.15 * (rtt - srtt)
  {
    if srtt != 0.0 {
      assert RTO_ALPHA * lo + (1.0 - RTO_ALPHA) * lo == lo;
      assert RTO_ALPHA * hi + (1.0 - RTO_ALPHA) * hi == hi;
    }
  }

  // ---- flow control ----

  /** As long as no ACK below una was processed, an in-order segment fits the receive buffer
      whole, unless it is the one byte of a probe into a full buffer; and the segment that the
      drain loop wants next always fits. So neither the truncation in handlePayload nor the
      "does not fit" exit of its drain loop is taken. */
  lemma FlowControl(s: System, x: Node, y: Node, xy: set<Packet>, yx: set<Packet>, p: Packet)
    requires Reachable(s) && Sides(s, x, y, xy, yx) && !x.stale
    ensures p in xy && p.data != [] && p.seqNum == y.ep.rcv.nxt ==>
      |p.data| <= y.ep.rcv.ring.FreeSpace() || (|p.data| == 1 && y.ep.rcv.ring.FreeSpace() == 0)
    ensures var h := y.ep.rcv.heap;
      h != [] && h[0].startSeq == y.ep.rcv.nxt ==> |h[0].data| <= y.ep.rcv.ring.FreeSpace()
  {
    ReachablePair(s, x, y, xy, yx);
    var r := y.ep.rcv;
    if p in xy && p.data != [] && p.seqNum == r.nxt {
      assert PacketOk(x, r, p) && DataOk(x, r, p);
    }
    if r.heap != [] && r.heap[0].startSeq == r.nxt {
      assert HeapEntryOk(x, r, r.heap[0]);
    }
  }

  /** A data segment that leaves is as long as it may be: it empties the buffer, fills the
      window, or has the maximum size. */
  lemma SegmentIsMaximal(s: System, x: Node, y: Node, xy: set<Packet>, yx: set<Packet>)
    requires Reachable(s) && Sides(s, x, y, xy, yx) && x.ep.WellFormed() && SendLoopStep(x.ep).2.Running?
    ensures var (e, out, pc) := SendLoopStep(x.ep);
      && |out| == 1 && out[0].seqNum == x.ep.snd.nxt && out[0].data != []
      && e.snd.nxt == x.ep.snd.nxt + |out[0].data|
      && (e.snd.lbw < e.snd.nxt || e.snd.nxt == e.snd.una + e.snd.window || |out[0].data| == 1360)
  {
    ReachablePair(s, x, y, xy, yx);
    SendableBounds(x);
    assert Sub32(x.ep.snd.nxt, x.ep.snd.una) == x.ep.snd.nxt - x.ep.snd.una;
  }

  // ---- reassembly ----

  /** The drain loop stops only at an empty heap, at a smallest segment that is not next, or at
      one that does not fit; it takes segments and never adds any. */
  lemma {:induction false} DrainExits(e: Endpoint)
    requires e.WellFormed() && IsHeap(e.rcv.heap, |e.rcv.heap|)
    ensures var r := Drain(e).0.rcv;
      && IsHeap(r.heap, |r.heap|) && multiset(r.heap) <= multiset(e.rcv.heap)
      && (r.heap == [] || r.heap[0].startSeq != r.nxt || |r.heap[0].data| > 65535 - r.ring.size)
    decreases |e.rcv.heap|
  {
    if e.rcv.heap != [] && CanDrain(e.rcv) {
      PopRemovesMin(e.rcv.heap);
      DrainExits(DrainOne(e));
    }
  }

  /** The bytes of segments laid end to end. */
  function Joined(es: seq<EarlyArrival>): seq<byte> {
    if es == [] then [] else es[0].data + Joined(es[1..])
  }

  /** Each segment fits a buffer and starts where the one before ends, modulo 2^32. */
  predicate Contiguous(es: seq<EarlyArrival>, start: uint32) {
    es == [] || (es[0].startSeq == start && |es[0].data| <= MAX_WIN_SIZE
                 && Contiguous(es[1..], Add32(start, |es[0].data|)))
  }

  /** A receiver that is ready to append at nxt. */
  ghost predicate AppendsAtNxt(r: Rcv) {
    r.ring.Valid() && r.nxt == Add32(r.ring.base, r.ring.size)
  }

  /** Every receiver is, until it has consumed the peer's FIN. */
  lemma ReachableAppends(s: System, x: Node, y: Node, xy: set<Packet>, yx: set<Packet>)
    requires Reachable(s) && Sides(s, x, y, xy, yx)
    ensures AppendsAtNxt(y.ep.rcv) || FinConsumed(y.ep.rcv)
  {
    ReachablePair(s, x, y, xy, yx);
  }

  /** The receiver after taking in `data`, then `popped` from its heap, then perhaps a stored FIN. */
  ghost predicate Reassembled(r: Rcv, r': Rcv, data: seq<byte>, popped: seq<EarlyArrival>) {
    && r'.ring.Valid() && r.ring.Valid()
    && r'.ring.Contents() == r.ring.Contents() + data + Joined(popped)
    && r'.ring.base == r.ring.base && r'.lbr == r.lbr
    && multiset(r.heap) == multiset(r'.heap) + multiset(popped)
    && |data| + |Joined(popped)| <= MAX_WIN_SIZE
    && Contiguous(popped, Add32(r.nxt, |data|))
    && var end := Add32(r.nxt, |data| + |Joined(popped)|);
    r'.nxt == end || (r'.nxt == Add32(end, 1) && r.fin == end && r'.heap == [])
  }

  lemma AcceptAppends(r: Rcv, data: seq<byte>)
    requires AppendsAtNxt(r) && |data| <= r.ring.FreeSpace()
    ensures var r' := Accept(r, data);
      && AppendsAtNxt(r') && r'.ring.Contents() == r.ring.Contents() + data
      && r'.nxt == Add32(r.nxt, |data|) && r'.ring.base == r.ring.base
  {
    WriteAppends(r.ring, data);
  }

  /** The drain loop appends exactly the segments it takes out, each at nxt, and loses none. */
  lemma {:induction false} DrainReassembles(e: Endpoint) returns (popped: seq<EarlyArrival>)
    requires e.WellFormed() && AppendsAtNxt(e.rcv)
    ensures Reassembled(e.rcv, Drain(e).0.rcv, [], popped)
    decreases |e.rcv.heap|
  {
    var r := e.rcv;
    if r.heap != [] && CanDrain(r) {
      AcceptAppends(r, r.heap[0].data);
      PopPermutes(r.heap);
      var rest := DrainReassembles(DrainOne(e));
      popped := [r.heap[0]] + rest;
      ReassembledMore(r, DrainOne(e).rcv, Drain(e).0.rcv, r.heap[0], rest);
    } else {
      popped := [];
      assert r.ring.Contents() + [] + [] == r.ring.Contents();
    }
  }

  lemma ReassembledMore(r: Rcv, r1: Rcv, r': Rcv, x: EarlyArrival, rest: seq<EarlyArrival>)
    requires Reassembled(r1, r', [], rest) && r.ring.Valid() && x.startSeq == r.nxt
    requires r1.ring.Contents() == r.ring.Contents() + x.data && r1.ring.base == r.ring.base
    requires r1.lbr == r.lbr && r1.fin == r.fin && |x.data| <= MAX_WIN_SIZE && r1.nxt == Add32(r.nxt, |x.data|)
    requires multiset(r.heap) == multiset(r1.heap) + multiset{x}
    ensures Reassembled(r, r', [], [x] + rest)
  {
    var all := [x] + rest;
    assert all[1..] == rest && Joined(all) == x.data + Joined(rest);
    JoinedMore(r.ring.Contents(), x.data, Joined(rest));
    assert multiset(all) == multiset{x} + multiset(rest);
  }

  lemma JoinedMore(c: seq<byte>, x: seq<byte>, rest: seq<byte>)
    ensures c + x + [] + rest == c + [] + (x + rest)
  {
  }

  /** Reassembly in one call: an early segment goes to the heap and nothing else changes; one
      below nxt, or at nxt with the buffer full, changes nothing; one at nxt is appended as far as
      it fits, followed by what the heap has next to it. */
  lemma PayloadReassembles(e: Endpoint, p: Packet) returns (popped: seq<EarlyArrival>)
    requires e.WellFormed() && AppendsAtNxt(e.rcv) && 0 < |p.data| < WORD
    ensures var r := e.rcv; var e' := HandlePayload(e, p).0;
      && (p.seqNum > r.nxt ==>
            && e' == e.(rcv := r.(heap := e'.rcv.heap))
            && multiset(e'.rcv.heap) == multiset(r.heap)
                 + multiset{EarlyArrival(p.seqNum, Add32(p.seqNum, |p.data|), p.data)})
      && (p.seqNum < r.nxt || (p.seqNum == r.nxt && r.ring.FreeSpace() == 0) ==> e' == e)
      && (p.seqNum == r.nxt && r.ring.FreeSpace() > 0 ==>
            Reassembled(r, e'.rcv, p.data[..Min(|p.data|, r.ring.FreeSpace())], popped))
  {
    var r := e.rcv;
    popped := [];
    if p.seqNum > r.nxt {
      var x := EarlyArrival(p.seqNum, Add32(p.seqNum, |p.data|), p.data);
      UpPermutes(r.heap + [x], |r.heap|);
    } else if p.seqNum == r.nxt && r.ring.FreeSpace() > 0 {
      popped := InOrderReassembles(e, Fitting(p.data, r.ring.FreeSpace()));
      assert p.data[..|p.data|] == p.data;
    }
  }

  lemma InOrderReassembles(e: Endpoint, data: seq<byte>) returns (popped: seq<EarlyArrival>)
    requires e.WellFormed() && AppendsAtNxt(e.rcv) && |data| <= e.rcv.ring.FreeSpace()
    ensures Reassembled(e.rcv, HandleInOrder(e, data).0.rcv, data, popped)
  {
    AcceptAppends(e.rcv, data);
    var e0 := e.(rcv := Accept(e.rcv, data));
    popped := DrainReassembles(e0);
    assert e.rcv.ring.Contents() + data + [] == e.rcv.ring.Contents() + data;
  }

  /** Every data segment draws an ACK that names the receiver's new nxt and free space. */
  lemma PayloadIsAcked(e: Endpoint, p: Packet)
    requires e.WellFormed() && 0 < |p.data| < WORD
    ensures var (e', out) := HandlePayload(e, p);
      && out != [] && var ack := out[|out| - 1];
      && ack.ackNum == e'.rcv.nxt && ack.window == e'.rcv.ring.FreeSpace() && ack.data == [] && !ack.fin
  {
  }

  // ---- no quiescence ----

  /** The send loop can take a step. */
  predicate Runnable(x: Node) {
    || x.loop.Running?
    || (x.loop.Parked? && (x.ep.snd.dataWritten || x.ep.snd.zwpTrigger))
    || ((x.loop.WindowWait? || x.loop.ProbeWait?) && x.ep.snd.windowUpdated)
  }

  /** While the connection is open and a byte is unacknowledged, the send loop can run, or the
      retransmission timer or the probe timer is armed. */
  lemma NoQuiescence(s: System, x: Node, y: Node, xy: set<Packet>, yx: set<Packet>)
    requires Reachable(s) && Sides(s, x, y, xy, yx)
    requires x.ep.state != CLOSED && x.ep.snd.una <= x.ep.snd.lbw
    ensures Runnable(x) || x.ep.rtx.timerArmed || x.loop.ProbeWait?
  {
    ReachablePair(s, x, y, xy, yx);
  }

  /** A VWrite, a VRead or a send loop waiting for data whose condition has become true has a
      token waiting. */
  lemma NoLostWakeup(s: System, x: Node, y: Node, xy: set<Packet>, yx: set<Packet>)
    requires Reachable(s) && Sides(s, x, y, xy, yx)
    ensures x.writer.Writing? && x.writer.blocked && x.ep.snd.ring.FreeSpace() > 0 ==> x.ep.snd.spaceAvailable
    ensures x.reader.Reading? && x.reader.blocked && (x.ep.rcv.ring.size > 0 || x.ep.state == CLOSE_WAIT) ==>
      x.ep.rcv.dataToRead
    ensures x.loop.Parked? && x.ep.snd.nxt <= x.ep.snd.lbw ==> x.ep.snd.dataWritten
  {
    ReachablePair(s, x, y, xy, yx);
  }

  /** The window lets the waiting send loop send. */
  predicate WindowOpen(s: Snd) {
    s.nxt <= s.lbw && s.window - s.BytesInFlight() > 0
  }

  /** The send loop waiting for a window update is the exception: a duplicate ACK that opens the
      window leaves it asleep, and nothing else does. Only the retransmission timer, which then
      runs, gets the connection going again. */
  lemma WindowWakeupIsLostExactly(s: System, x: Node, y: Node, xy: set<Packet>, yx: set<Packet>, p: Packet, rtt: real)
    requires Reachable(s) && Sides(s, x, y, xy, yx) && p in yx && TakenAsAck(x.ep, p) && x.ep.WellFormed()
    requires x.loop.WindowWait? && !x.ep.snd.windowUpdated
    ensures var d := HandlePureAck(x.ep, p, rtt).snd;
      WindowOpen(d) && !d.windowUpdated <==>
        p.ackNum <= x.ep.snd.una && x.ep.snd.nxt <= x.ep.snd.lbw && p.window > x.ep.snd.nxt - x.ep.snd.una
    ensures x.ep.snd.nxt <= x.ep.snd.lbw ==> x.ep.rtx.timerArmed
  {
    ReachablePair(s, x, y, xy, yx);
    AckInRange(x, y, xy, yx, p);
    assert Sub32(x.ep.snd.nxt, x.ep.snd.una) == x.ep.snd.nxt - x.ep.snd.una;
  }

  // ---- closing ----

  /** VClose lets every byte be acknowledged before the FIN is sent, so a FIN never arrives
      before the data: the stored-FIN path through handleEarlyFin is never taken. */
  lemma FinIsNeverEarly(s: System, x: Node, y: Node, xy: set<Packet>, yx: set<Packet>, p: Packet)
    requires Reachable(s) && Sides(s, x, y, xy, yx) && y.ep.WellFormed()
    ensures p in xy && p.fin ==> p.seqNum <= y.ep.rcv.nxt
    ensures HandleEarlyFin(y.ep) == (y.ep, [])
  {
    ReachablePair(s, x, y, xy, yx);
    if p in xy && p.fin {
      FinIsNotEarly(x, y, xy, yx, p);
    }
  }

  /** FIN_WAIT_2 means the peer has consumed our FIN, and so everything we wrote. CLOSE_WAIT and
      TIME_WAIT mean we have received every byte the peer wrote. */
  lemma CloseAgreement(s: System, x: Node, y: Node, xy: set<Packet>, yx: set<Packet>)
    requires Reachable(s) && Sides(s, x, y, xy, yx)
    ensures x.ep.state == FIN_WAIT_2 ==>
      && FinConsumed(y.ep.rcv) && y.ep.rcv.nxt == x.ep.snd.nxt
      && |y.read| + y.ep.rcv.ring.size == |x.written|
    ensures y.ep.rcv.ring.Valid()
    ensures y.ep.state == CLOSE_WAIT || y.ep.state == LAST_ACK || y.ep.state == TIME_WAIT ==>
      && FinSent(x.ep.snd)
      && |y.read| + y.ep.rcv.ring.size == |x.written|
      && y.read + y.ep.rcv.ring.Contents() == x.written
  {
    ReachablePair(s, x, y, xy, yx);
    assert x.written[..|x.written|] == x.written;
  }

  /** LAST_ACK is left for CLOSED through handleLastAck only when the peer has consumed our FIN. */
  lemma LastAckAgreement(s: System, x: Node, y: Node, xy: set<Packet>, yx: set<Packet>, p: Packet, rtt: real)
    requires Reachable(s) && Sides(s, x, y, xy, yx) && p in yx && x.ep.WellFormed() && |p.data| < WORD
    requires x.ep.state == LAST_ACK && HandleTcp(x.ep, p, rtt).0.state != LAST_ACK
    ensures HandleTcp(x.ep, p, rtt).0.state == CLOSED
    ensures FinConsumed(y.ep.rcv) && |y.read| + y.ep.rcv.ring.size == |x.written|
  {
    ReachablePair(s, x, y, xy, yx);
    AckInRange(x, y, xy, yx, p);
    assert AckOk(y.ep.rcv, p);
  }

  function Rank(st: TcpState): nat {
    match st
    case ESTABLISHED => 0
    case FIN_WAIT_1 => 1
    case CLOSE_WAIT => 1
    case FIN_WAIT_2 => 2
    case LAST_ACK => 2
    case TIME_WAIT => 3
    case CLOSED => 4
  }

  lemma {:induction false} DrainRank(e: Endpoint)
    requires e.WellFormed()
    ensures var e' := Drain(e).0; e'.state == e.state || Rank(e.state) < Rank(e'.state)
    decreases |e.rcv.heap|
  {
    if e.rcv.heap != [] && CanDrain(e.rcv) {
      DrainRank(DrainOne(e));
    }
  }

  lemma HandleTcpRank(e: Endpoint, p: Packet, rtt: real)
    requires e.WellFormed() && |p.data| < WORD
    ensures var e' := HandleTcp(e, p, rtt).0; e'.state == e.state || Rank(e.state) < Rank(e'.state)
  {
    if p.data != [] && p.seqNum == e.rcv.nxt && e.rcv.ring.FreeSpace() > 0 {
      DrainRank(e.(rcv := Accept(e.rcv, Fitting(p.data, e.rcv.ring.FreeSpace()))));
    }
  }

  /** Later state of the same side: histories only grow, and the connection state stays or rises. */
  ghost predicate Later(x: Node, x': Node) {
    && x.written <= x'.written && x.read <= x'.read
    && (x'.ep.state == x.ep.state || Rank(x.ep.state) < Rank(x'.ep.state))
    && (x.eof ==> x'.eof) && (x.stale ==> x'.stale)
  }

  lemma ReceiveIsLater(x: Node, p: Packet, rtt: real)
    requires x.ep.WellFormed() && |p.data| < WORD
    ensures Later(x, DoReceive(x, p, rtt).0)
  {
    HandleTcpRank(x.ep, p, rtt);
  }

  lemma SendingIsLater(x: Node, act: Action)
    requires NodeOk(x) && Steppable(x, {}, act)
    requires act.LoopStep? || act.RtoFires? || act.ClosePoll?
    ensures Later(x, Act(x, act).0)
  {
  }

  lemma WakeIsLater(x: Node, act: Action)
    requires IsWake(act) && (act.WriteWake? ==> x.writer.Writing?) && (act.ReadWake? ==> x.reader.Reading?)
    ensures Later(x, Wake(x, act))
  {
  }

  lemma WriteIsLater(x: Node)
    requires x.writer.Writing? && x.writer.total <= |x.writer.data| && x.ep.WellFormed()
    ensures Later(x, DoWriteStep(x))
  {
  }

  lemma ReadIsLater(x: Node)
    requires x.reader.Reading? && x.ep.WellFormed()
    ensures Later(x, DoReadStep(x))
  {
  }

  lemma ThreadIsLater(x: Node, inbox: set<Packet>, act: Action)
    requires NodeOk(x) && Steppable(x, inbox, act)
    requires !act.Receive? && !act.LoopStep? && !act.RtoFires? && !act.ClosePoll?
    ensures Later(x, Act(x, act).0)
  {
    if IsWake(act) {
      WakeIsLater(x, act);
    } else if act.WriteStep? {
      WriteIsLater(x);
    } else if act.ReadStep? {
      ReadIsLater(x);
    }
  }

  lemma ActIsLater(x: Node, inbox: set<Packet>, act: Action)
    requires NodeOk(x) && Steppable(x, inbox, act)
    ensures Later(x, Act(x, act).0)
  {
    if act.Receive? {
      ReceiveIsLater(x, act.packet, act.rtt);
    } else if act.LoopStep? || act.RtoFires? || act.ClosePoll? {
      SendingIsLater(x, act);
    } else {
      ThreadIsLater(x, inbox, act);
    }
  }

  lemma NextIsLater(s: System, s': System)
    requires Inv(s) && Next(s, s')
    ensures Later(s.a, s'.a) && Later(s.b, s'.b)
  {
    var t := NextIsStep(s, s');
    if t.byA {
      ActIsLater(s.a, s.ba, t.act);
    } else {
      ActIsLater(s.b, s.ab, t.act);
    }
  }

  lemma LaterTransitive(x: Node, y: Node, z: Node)
    requires Later(x, y) && Later(y, z)
    ensures Later(x, z)
  {
  }

  lemma RunStepIsLater(run: seq<System>, j: nat)
    requires IsRun(run) && j + 1 < |run|
    ensures Later(run[j].a, run[j + 1].a) && Later(run[j].b, run[j + 1].b)
  {
    RunInv(run, j);
    assert StepAt(run, j);
    NextIsLater(run[j], run[j + 1]);
  }

  /** Along a run no connection state is re-entered, and no byte written or read is taken back. */
  lemma {:induction false} RunsMoveForward(run: seq<System>, i: nat, j: nat)
    requires IsRun(run) && i <= j < |run|
    ensures Later(run[i].a, run[j].a) && Later(run[i].b, run[j].b)
    decreases j
  {
    if i < j {
      RunsMoveForward(run, i, j - 1);
      RunStepIsLater(run, j - 1);
      LaterTransitive(run[i].a, run[j - 1].a, run[j].a);
      LaterTransitive(run[i].b, run[j - 1].b, run[j].b);
    }
  }

  // ---- after the FIN ----

  lemma FinStaysSent(x: Node, y: Node, xy: set<Packet>, yx: set<Packet>, act: Action)
    requires Pair(x, y, xy, yx) && Steppable(x, yx, act) && FinSent(x.ep.snd)
    ensures var x' := Act(x, act).0; FinSent(x'.ep.snd) && x'.written == x.written
  {
    if act.Receive? {
      AckInRange(x, y, xy, yx, act.packet);
      FinStaysThroughReceive(x.ep, act.packet, act.rtt);
    } else if act.LoopStep? {
      FinStaysThroughLoop(x);
    } else if IsWake(act) {
      assert Act(x, act).0 == Wake(x, act);
    }
  }

  lemma FinStaysThroughLoop(x: Node)
    requires x.ep.WellFormed() && FinSent(x.ep.snd)
    ensures var x' := DoLoopStep(x).0; FinSent(x'.ep.snd) && x'.written == x.written
  {
  }

  lemma FinStaysThroughAck(e: Endpoint, p: Packet, rtt: real)
    requires e.WellFormed() && FinSent(e.snd)
    requires p.ackNum <= e.snd.nxt || (p.ackNum == e.snd.nxt + 1 && e.snd.nxt <= e.snd.lbw)
    ensures FinSent(HandlePureAck(e, p, rtt).snd)
  {
  }

  lemma FinStaysThroughReceive(e: Endpoint, p: Packet, rtt: real)
    requires e.WellFormed() && |p.data| < WORD && FinSent(e.snd)
    requires p.ackNum <= e.snd.nxt || (p.ackNum == e.snd.nxt + 1 && e.snd.nxt <= e.snd.lbw)
    ensures FinSent(HandleTcp(e, p, rtt).0.snd)
  {
    if p.data != [] {
      PayloadLeavesSender(e, p);
    } else {
      FinStaysThroughAck(e, p, rtt);
    }
  }

  lemma {:induction false} DrainLeavesSender(e: Endpoint)
    requires e.WellFormed()
    ensures var (e', out) := Drain(e);
      e'.snd == e.snd && e'.rtx == e.rtx && (forall q :: q in out ==> q.data == [])
    decreases |e.rcv.heap|
  {
    if e.rcv.heap != [] && CanDrain(e.rcv) {
      DrainLeavesSender(DrainOne(e));
    }
  }

  /** Receiving data leaves the sending half alone. */
  lemma PayloadLeavesSender(e: Endpoint, p: Packet)
    requires e.WellFormed() && 0 < |p.data| < WORD
    ensures var (e', out) := HandlePayload(e, p);
      e'.snd == e.snd && e'.rtx == e.rtx && (forall q :: q in out ==> q.data == [])
  {
    if p.seqNum == e.rcv.nxt && e.rcv.ring.FreeSpace() > 0 {
      var payload := Fitting(p.data, e.rcv.ring.FreeSpace());
      DrainLeavesSender(e.(rcv := Accept(e.rcv, payload)));
    }
  }

  lemma FinFixesStream(s: System, s': System)
    requires Inv(s) && Next(s, s')
    ensures FinSent(s.a.ep.snd) ==> FinSent(s'.a.ep.snd) && s'.a.written == s.a.written
  {
    var t := NextIsStep(s, s');
    if FinSent(s.a.ep.snd) && t.byA {
      FinStaysSent(s.a, s.b, s.ab, s.ba, t.act);
    }
  }

  lemma {:induction false} FinEndsStream(run: seq<System>, i: nat, j: nat)
    requires IsRun(run) && i <= j < |run| && FinSent(run[i].a.ep.snd)
    ensures FinSent(run[j].a.ep.snd) && run[j].a.written == run[i].a.written
    decreases j
  {
    if i < j {
      FinEndsStream(run, i, j - 1);
      RunInv(run, j - 1);
      assert StepAt(run, j - 1);
      FinFixesStream(run[j - 1], run[j]);
    }
  }

  lemma ReachedInRun(run: seq<System>, i: nat)
    requires IsRun(run) && i < |run|
    ensures Reachable(run[i])
  {
    var r := run[..i + 1];
    forall k: nat | k < |r| - 1 ensures StepAt(r, k) {
      assert StepAt(run, k);
    }
    assert IsRun(r) && r[|r| - 1] == run[i];
  }

  /** Once VRead has returned io.EOF the stream is complete for good: what was read then is all
      that is ever written or read. */
  lemma EofIsFinal(run: seq<System>, i: nat, j: nat)
    requires IsRun(run) && i <= j < |run| && run[i].b.eof
    ensures run[j].a.written == run[i].b.read == run[j].b.read
  {
    ReachedInRun(run, i);
    ReachedInRun(run, j);
    RunsMoveForward(run, i, j);
    EofMeansComplete(run[i], run[i].a, run[i].b, run[i].ab, run[i].ba);
    EofMeansComplete(run[j], run[j].a, run[j].b, run[j].ab, run[j].ba);
    RunInv(run, i);
    FinEndsStream(run, i, j);
  }

  // ---- after a refusal ----

  lemma RefusedWritesNothing(x: Node, inbox: set<Packet>, act: Action)
    requires NodeOk(x) && Steppable(x, inbox, act) && !MayWrite(x.ep.state)
    ensures Act(x, act).0.written == x.written
  {
  }

  /** Once VWrite and VRead refuse they always will, and the stream gains no more bytes. */
  lemma {:induction false} RefusalIsFinal(run: seq<System>, i: nat, j: nat)
    requires IsRun(run) && i <= j < |run| && !MayWrite(run[i].a.ep.state)
    ensures !MayWrite(run[j].a.ep.state) && run[j].a.written == run[i].a.written
    decreases j
  {
    if i < j {
      RefusalIsFinal(run, i, j - 1);
      RunInv(run, j - 1);
      assert StepAt(run, j - 1);
      RefusalPersists(run[j - 1], run[j]);
    }
  }

  lemma RefusalPersists(s: System, s': System)
    requires Inv(s) && Next(s, s') && !MayWrite(s.a.ep.state)
    ensures !MayWrite(s'.a.ep.state) && s'.a.written == s.a.written
  {
    NextIsLater(s, s');
    var t := NextIsStep(s, s');
    if t.byA {
      RefusedWritesNothing(s.a, s.ba, t.act);
    }
  }
}
