/** Flow control when ACKs may be lost but arrive in the order in which they were sent. */
module TcpInOrder {
  import opened Words
  import opened TcpSpec
  import opened TcpNetwork
  import opened TcpInvariant
  import opened TcpSteps
  import opened TcpTheorems
  import opened TcpRuns

  /** Step i hands an ACK to side A's handlePureAck. */
  predicate AckTaken(run: seq<System>, trace: seq<Step>, i: nat)
    requires |trace| == |run| - 1 && i < |trace|
  {
    trace[i].byA && trace[i].act.Receive? && TakenAsAck(run[i].a.ep, trace[i].act.packet)
  }

  /** q was on its way to A when p had not been sent. */
  ghost predicate SentBefore(run: seq<System>, q: Packet, p: Packet) {
    exists k: nat :: k < |run| && q in run[k].ba && p !in run[k].ba
  }

  /** A never takes an ACK that was sent before one it took already. */
  ghost predicate AcksInOrder(run: seq<System>, trace: seq<Step>)
    requires |trace| == |run| - 1
  {
    forall i: nat, j: nat :: i < j < |trace| && AckTaken(run, trace, i) && AckTaken(run, trace, j) ==>
      !SentBefore(run, trace[j].act.packet, trace[i].act.packet)
  }

  // ---- what an ACK says ----

  lemma {:induction false} DrainEmitsAtNxt(e: Endpoint)
    requires e.WellFormed()
    ensures var (e', out) := Drain(e); forall p :: p in out ==> p.ackNum == e'.rcv.nxt
    decreases |e.rcv.heap|
  {
    if e.rcv.heap != [] && CanDrain(e.rcv) {
      DrainEmitsAtNxt(DrainOne(e));
    }
  }

  lemma ReceiveEmitsAtNxt(e: Endpoint, p: Packet, rtt: real)
    requires e.WellFormed() && |p.data| < WORD
    ensures var (e', out) := HandleTcp(e, p, rtt); forall q :: q in out ==> q.ackNum == e'.rcv.nxt
  {
    if p.data != [] && p.seqNum == e.rcv.nxt && e.rcv.ring.FreeSpace() > 0 {
      DrainEmitsAtNxt(e.(rcv := Accept(e.rcv, Fitting(p.data, e.rcv.ring.FreeSpace()))));
    }
  }

  /** Whatever a side sends acknowledges exactly what it has. */
  lemma ActEmitsAtNxt(x: Node, inbox: set<Packet>, act: Action)
    requires Steppable(x, inbox, act)
    ensures var (x', out) := Act(x, act); forall q :: q in out ==> q.ackNum == x'.ep.rcv.nxt
  {
    if act.Receive? {
      ReceiveEmitsAtNxt(x.ep, act.packet, act.rtt);
    }
  }

  /** The step that first sent q, and what q acknowledges. */
  lemma {:induction false} FirstSent(run: seq<System>, trace: seq<Step>, j: nat, q: Packet) returns (k: nat)
    requires IsTracedRun(run, trace) && j < |run| && q in run[j].ba
    ensures 0 < k <= j && q in run[k].ba && q.ackNum == run[k].b.ep.rcv.nxt
    decreases j
  {
    assert j > 0;
    if q in run[j - 1].ba {
      k := FirstSent(run, trace, j - 1, q);
    } else {
      k := j;
      var s, t := run[j - 1], trace[j - 1];
      assert TraceAt(run, trace, j - 1);
      if !t.byA {
        ActEmitsAtNxt(s.b, s.ab, t.act);
      }
    }
  }

  /** An ACK of less was sent before. */
  lemma LowerIsEarlier(run: seq<System>, trace: seq<Step>, j: nat, q: Packet, p: Packet)
    requires IsTracedRun(run, trace) && j < |run| && q in run[j].ba && q.ackNum < p.ackNum
    ensures SentBefore(run, q, p)
  {
    var k := FirstSent(run, trace, j, q);
    TracedIsRun(run, trace);
    RunInv(run, k);
    assert forall r :: r in run[k].ba ==> AckOk(run[k].b.ep.rcv, r);
  }

  lemma NoAckBelowIss(run: seq<System>, trace: seq<Step>, j: nat, q: Packet)
    requires IsTracedRun(run, trace) && j < |run| && q in run[j].ba
    ensures run[0].a.iss <= q.ackNum
  {
    var k := FirstSent(run, trace, j, q);
    TracedIsRun(run, trace);
    RunInv(run, k);
    IssAlong(run, trace, k);
  }

  // ---- una is the last ACK taken ----

  lemma PureAckSetsUna(e: Endpoint, p: Packet, rtt: real)
    requires e.WellFormed() && e.snd.una <= p.ackNum && e.snd.nxt + 1 < WORD
    requires p.ackNum <= e.snd.nxt || (p.ackNum == e.snd.nxt + 1 && e.snd.isProbing)
    ensures HandlePureAck(e, p, rtt).snd.una == p.ackNum
  {
  }

  lemma AckSetsUna(x: Node, y: Node, xy: set<Packet>, yx: set<Packet>, p: Packet, rtt: real)
    requires Pair(x, y, xy, yx) && p in yx && x.ep.WellFormed() && |p.data| < WORD
    requires TakenAsAck(x.ep, p) && x.ep.snd.una <= p.ackNum
    ensures var x' := DoReceive(x, p, rtt).0; x'.ep.snd.una == p.ackNum && x'.stale == x.stale
  {
    AckInRange(x, y, xy, yx, p);
    PureAckSetsUna(x.ep, p, rtt);
    assert HandleTcp(x.ep, p, rtt).0 == HandlePureAck(x.ep, p, rtt);
  }

  lemma OtherPacketsKeepUna(e: Endpoint, p: Packet, rtt: real)
    requires e.WellFormed() && |p.data| < WORD && !TakenAsAck(e, p)
    ensures HandleTcp(e, p, rtt).0.snd.una == e.snd.una
  {
    if p.data != [] {
      PayloadLeavesSender(e, p);
    }
  }

  lemma OthersKeepUna(x: Node, inbox: set<Packet>, act: Action)
    requires Steppable(x, inbox, act) && !(act.Receive? && TakenAsAck(x.ep, act.packet))
    ensures var x' := Act(x, act).0; x'.ep.snd.una == x.ep.snd.una && x'.stale == x.stale
  {
    if act.Receive? {
      OtherPacketsKeepUna(x.ep, act.packet, act.rtt);
    }
  }

  /** una is where it started or what some ACK taken before step j said. */
  ghost predicate UnaTaken(run: seq<System>, trace: seq<Step>, j: nat)
    requires |trace| == |run| - 1 && j < |run|
  {
    || run[j].a.ep.snd.una == run[0].a.iss
    || exists i: nat :: i < j && AckTaken(run, trace, i) && run[j].a.ep.snd.una == trace[i].act.packet.ackNum
  }

  lemma NotBelowUna(run: seq<System>, trace: seq<Step>, j: nat)
    requires IsTracedRun(run, trace) && AcksInOrder(run, trace) && j < |trace|
    requires UnaTaken(run, trace, j) && AckTaken(run, trace, j)
    ensures run[j].a.ep.snd.una <= trace[j].act.packet.ackNum
  {
    var q := trace[j].act.packet;
    assert TraceAt(run, trace, j);
    NoAckBelowIss(run, trace, j, q);
    if q.ackNum < run[j].a.ep.snd.una {
      var i: nat :| i < j && AckTaken(run, trace, i) && run[j].a.ep.snd.una == trace[i].act.packet.ackNum;
      LowerIsEarlier(run, trace, j, q, trace[i].act.packet);
    }
  }

  /** With ACKs in order no ACK below una is ever processed. */
  lemma {:induction false} InOrderAcksAreFresh(run: seq<System>, trace: seq<Step>, j: nat)
    requires IsTracedRun(run, trace) && AcksInOrder(run, trace) && j < |run|
    ensures !run[j].a.stale && UnaTaken(run, trace, j)
    decreases j
  {
    if j > 0 {
      var i := j - 1;
      InOrderAcksAreFresh(run, trace, i);
      FreshStep(run, trace, i);
    }
  }

  lemma FreshStep(run: seq<System>, trace: seq<Step>, i: nat)
    requires IsTracedRun(run, trace) && AcksInOrder(run, trace) && i < |trace|
    requires !run[i].a.stale && UnaTaken(run, trace, i)
    ensures !run[i + 1].a.stale && UnaTaken(run, trace, i + 1)
  {
    var s, t := run[i], trace[i];
    assert TraceAt(run, trace, i);
    if AckTaken(run, trace, i) {
      NotBelowUna(run, trace, i);
      TracedIsRun(run, trace);
      RunInv(run, i);
      AckSetsUna(s.a, s.b, s.ab, s.ba, t.act.packet, t.act.rtt);
    } else if t.byA {
      OthersKeepUna(s.a, s.ba, t.act);
    }
  }

  /** So in such a run, whatever happens to the data, side B never has to cut off an in-order
      segment, but for a probe into a full buffer, and never leaves in its heap, for want of
      room, the segment that comes next. */
  lemma FlowControlInOrder(run: seq<System>, trace: seq<Step>, j: nat, p: Packet)
    requires IsTracedRun(run, trace) && AcksInOrder(run, trace) && j < |run|
    ensures var r := run[j].b.ep.rcv;
      && (p in run[j].ab && p.data != [] && p.seqNum == r.nxt ==>
            |p.data| <= r.ring.FreeSpace() || (|p.data| == 1 && r.ring.FreeSpace() == 0))
      && (r.heap != [] && r.heap[0].startSeq == r.nxt ==> |r.heap[0].data| <= r.ring.FreeSpace())
  {
    InOrderAcksAreFresh(run, trace, j);
    TracedIsRun(run, trace);
    ReachedInRun(run, j);
    var s := run[j];
    FlowControl(s, s.a, s.b, s.ab, s.ba, p);
  }
}
