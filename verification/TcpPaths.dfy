/** Building runs step by step, and the ledger of what is on the network. */
module TcpPaths {
  import opened Words
  import opened TcpSpec
  import opened TcpNetwork
  import opened TcpInvariant
  import opened TcpSteps
  import opened TcpTheorems
  import opened TcpRuns

  // ---- continuations ----

  ghost predicate AllSteps(path: seq<System>) {
    forall i: nat :: i < |path| - 1 ==> StepAt(path, i)
  }

  /** A continuation of some run. */
  ghost predicate IsPath(path: seq<System>) {
    path != [] && Reachable(path[0]) && AllSteps(path)
  }

  function End(path: seq<System>): System
    requires path != []
  {
    path[|path| - 1]
  }

  lemma {:induction false} PathReaches(path: seq<System>, i: nat)
    requires IsPath(path) && i < |path|
    ensures Reachable(path[i])
    decreases i
  {
    if i > 0 {
      PathReaches(path, i - 1);
      assert StepAt(path, i - 1);
      ReachableNext(path[i - 1], path[i]);
    }
  }

  lemma PathPair(path: seq<System>)
    requires IsPath(path)
    ensures var s := End(path); Pair(s.a, s.b, s.ab, s.ba) && Pair(s.b, s.a, s.ba, s.ab)
    ensures End(path).a.ep.WellFormed() && End(path).b.ep.WellFormed()
  {
    var s := End(path);
    PathReaches(path, |path| - 1);
    ReachableInv(s);
    PairWellFormed(s.a, s.b, s.ab, s.ba);
    PairWellFormed(s.b, s.a, s.ba, s.ab);
  }

  lemma PathWellFormed(path: seq<System>)
    requires IsPath(path)
    ensures End(path).a.ep.WellFormed() && End(path).b.ep.WellFormed()
  {
    PathPair(path);
  }

  lemma Extend(path: seq<System>, s': System)
    requires path != [] && AllSteps(path) && Next(End(path), s')
    ensures AllSteps(path + [s'])
  {
    var longer := path + [s'];
    forall i: nat | i < |longer| - 1 ensures StepAt(longer, i) {
      if i < |path| - 1 {
        SameStep(path, longer, i, i);
      } else {
        assert longer[i] == End(path) && longer[i + 1] == s';
      }
    }
  }

  lemma StepIsNext(s: System, t: Step, s': System)
    requires TakesStep(s, t, s')
    ensures Next(s, s')
  {
  }

  /** Side A takes an enabled step. */
  lemma GoA(path: seq<System>, act: Action) returns (longer: seq<System>)
    requires IsPath(path) && Enabled(End(path).a, End(path).ba, act)
    ensures Steppable(End(path).a, End(path).ba, act)
    ensures var s := End(path); var (x, out) := Act(s.a, act);
      longer == path + [s.(a := x, ab := s.ab + ToSet(out))]
    ensures IsPath(longer)
  {
    var s := End(path);
    PathPair(path);
    EnabledIsSteppable(s.a, s.b, s.ab, s.ba, act);
    var (x, out) := Act(s.a, act);
    var s' := s.(a := x, ab := s.ab + ToSet(out));
    StepIsNext(s, Step(true, act), s');
    Extend(path, s');
    longer := path + [s'];
  }

  /** Side B takes an enabled step. */
  lemma GoB(path: seq<System>, act: Action) returns (longer: seq<System>)
    requires IsPath(path) && Enabled(End(path).b, End(path).ab, act)
    ensures Steppable(End(path).b, End(path).ab, act)
    ensures var s := End(path); var (y, out) := Act(s.b, act);
      longer == path + [s.(b := y, ba := s.ba + ToSet(out))]
    ensures IsPath(longer)
  {
    var s := End(path);
    PathPair(path);
    EnabledIsSteppable(s.b, s.a, s.ba, s.ab, act);
    var (y, out) := Act(s.b, act);
    var s' := s.(b := y, ba := s.ba + ToSet(out));
    StepIsNext(s, Step(false, act), s');
    Extend(path, s');
    longer := path + [s'];
  }

  // ---- what is on the network ----

  /** A data segment that starts at n has been sent. */
  ghost predicate HasSegment(sent: set<Packet>, n: int) {
    exists p :: p in sent && p.data != [] && p.seqNum == n
  }

  predicate IsAckOf(p: Packet, n: int) {
    p.ack && p.data == [] && !p.fin && p.ackNum == n
  }

  /** A pure ACK of n has been sent. */
  ghost predicate HasAck(sent: set<Packet>, n: int) {
    exists p :: p in sent && IsAckOf(p, n)
  }

  /** Whatever waits for an ACK has been sent. */
  ghost predicate QueueSent(q: seq<RtxEntry>, sent: set<Packet>) {
    forall i :: 0 <= i < |q| && !q[i].fin ==> HasSegment(sent, q[i].seqNum)
  }

  /** Whatever a side sent it has on the network: the segments in its queue, and an ACK of all it
      has received, once that is anything. */
  ghost predicate Ledger(x: Node, sent: set<Packet>, peerIss: nat) {
    QueueSent(x.ep.rtx.queue, sent) && (x.ep.rcv.nxt == peerIss || HasAck(sent, x.ep.rcv.nxt))
  }

  lemma LedgerGrows(x: Node, x': Node, sent: set<Packet>, more: set<Packet>, peerIss: nat)
    requires Ledger(x, sent, peerIss)
    requires x'.ep.rtx.queue == x.ep.rtx.queue && x'.ep.rcv.nxt == x.ep.rcv.nxt
    ensures Ledger(x', sent + more, peerIss)
  {
    QueueSentGrows(x.ep.rtx.queue, sent, more);
    if HasAck(sent, x.ep.rcv.nxt) {
      AckStays(sent, more, x.ep.rcv.nxt);
    }
  }

  lemma SegmentStays(sent: set<Packet>, more: set<Packet>, n: int)
    requires HasSegment(sent, n)
    ensures HasSegment(sent + more, n)
  {
    var p :| p in sent && p.data != [] && p.seqNum == n;
    assert p in sent + more;
  }

  lemma AckStays(sent: set<Packet>, more: set<Packet>, n: int)
    requires HasAck(sent, n)
    ensures HasAck(sent + more, n)
  {
    var p :| p in sent && IsAckOf(p, n);
    assert p in sent + more;
  }

  lemma AckedQueue(e: Endpoint, p: Packet, rtt: real)
    requires e.WellFormed()
    ensures var q' := HandlePureAck(e, p, rtt).rtx.queue; q' == e.rtx.queue || q' == PopAcked(e.rtx.queue, p.ackNum)
  {
  }

  /** Receiving pops entries from the front, if it does anything to the queue. */
  lemma ReceiveQueue(e: Endpoint, p: Packet, rtt: real)
    requires e.WellFormed() && |p.data| < WORD
    ensures var q' := HandleTcp(e, p, rtt).0.rtx.queue; q' == e.rtx.queue || q' == PopAcked(e.rtx.queue, p.ackNum)
  {
    if p.data != [] {
      PayloadLeavesSender(e, p);
    } else {
      AckedQueue(e, p, rtt);
    }
  }

  lemma PoppedSent(q: seq<RtxEntry>, ackNum: uint32, sent: set<Packet>)
    requires QueueSent(q, sent)
    ensures QueueSent(PopAcked(q, ackNum), sent)
  {
    AckTakesCoveredEntries(q, ackNum, None);
    var q' := PopAcked(q, ackNum);
    forall i | 0 <= i < |q'| && !q'[i].fin ensures HasSegment(sent, q'[i].seqNum) {
      assert q'[i] == q[|q| - |q'| + i];
    }
  }

  lemma QueueSentGrows(q: seq<RtxEntry>, sent: set<Packet>, more: set<Packet>)
    requires QueueSent(q, sent)
    ensures QueueSent(q, sent + more)
  {
    forall i | 0 <= i < |q| && !q[i].fin ensures HasSegment(sent + more, q[i].seqNum) {
      SegmentStays(sent, more, q[i].seqNum);
    }
  }

  /** Receiving leaves nxt as it was or acknowledges the new one. */
  lemma ReceiveAcks(e: Endpoint, p: Packet, rtt: real)
    requires e.WellFormed() && |p.data| < WORD
    ensures var (e', out) := HandleTcp(e, p, rtt);
      e'.rcv.nxt == e.rcv.nxt || HasAck(ToSet(out), e'.rcv.nxt)
  {
    var (e', out) := HandleTcp(e, p, rtt);
    if out != [] {
      if e'.rcv.nxt != e.rcv.nxt {
        var last := out[|out| - 1];
        assert last in ToSet(out) && IsAckOf(last, e'.rcv.nxt);
      }
    }
  }

  lemma ReceiveLedger(x: Node, sent: set<Packet>, peerIss: nat, p: Packet, rtt: real)
    requires x.ep.WellFormed() && |p.data| < WORD && Ledger(x, sent, peerIss)
    ensures var (x', out) := DoReceive(x, p, rtt); Ledger(x', sent + ToSet(out), peerIss)
  {
    var (x', out) := DoReceive(x, p, rtt);
    ReceiveQueue(x.ep, p, rtt);
    PoppedSent(x.ep.rtx.queue, p.ackNum, sent);
    QueueSentGrows(x'.ep.rtx.queue, sent, ToSet(out));
    ReceiveAcks(x.ep, p, rtt);
    if x'.ep.rcv.nxt == x.ep.rcv.nxt {
      if HasAck(sent, x.ep.rcv.nxt) {
        AckStays(sent, ToSet(out), x.ep.rcv.nxt);
      }
    } else {
      AckStays(ToSet(out), sent, x'.ep.rcv.nxt);
      assert ToSet(out) + sent == sent + ToSet(out);
    }
  }

  lemma LoopLedger(x: Node, sent: set<Packet>, peerIss: nat)
    requires SendOk(x) && x.ep.WellFormed() && Ledger(x, sent, peerIss)
    ensures var (x', out) := DoLoopStep(x); Ledger(x', sent + ToSet(out), peerIss)
  {
    var (x', out) := DoLoopStep(x);
    if x'.loop.Running? {
      SendableBounds(x);
      var q, q' := x.ep.rtx.queue, x'.ep.rtx.queue;
      assert out[0] in ToSet(out) && out[0].data != [] && out[0].seqNum == q'[|q|].seqNum;
      assert out[0] in sent + ToSet(out);
      forall i | 0 <= i < |q'| && !q'[i].fin ensures HasSegment(sent + ToSet(out), q'[i].seqNum) {
        if i < |q| {
          SegmentStays(sent, ToSet(out), q[i].seqNum);
        }
      }
      if HasAck(sent, x.ep.rcv.nxt) {
        AckStays(sent, ToSet(out), x.ep.rcv.nxt);
      }
    } else {
      LedgerGrows(x, x', sent, ToSet(out), peerIss);
    }
  }

  /** Resending and sending the FIN add no data segment to the queue. */
  lemma TimerLedger(x: Node, sent: set<Packet>, peerIss: nat, act: Action)
    requires Steppable(x, {}, act) && (act.RtoFires? || act.ClosePoll?) && Ledger(x, sent, peerIss)
    ensures var (x', out) := Act(x, act); Ledger(x', sent + ToSet(out), peerIss)
  {
    var (x', out) := Act(x, act);
    var q, q' := x.ep.rtx.queue, x'.ep.rtx.queue;
    forall i | 0 <= i < |q'| && !q'[i].fin ensures HasSegment(sent + ToSet(out), q'[i].seqNum) {
      assert i < |q| && !q[i].fin && q[i].seqNum == q'[i].seqNum;
      SegmentStays(sent, ToSet(out), q[i].seqNum);
    }
    if HasAck(sent, x.ep.rcv.nxt) {
      AckStays(sent, ToSet(out), x.ep.rcv.nxt);
    }
  }

  lemma ActLedger(x: Node, inbox: set<Packet>, sent: set<Packet>, peerIss: nat, act: Action)
    requires NodeOk(x) && Steppable(x, inbox, act) && Ledger(x, sent, peerIss)
    ensures var (x', out) := Act(x, act); Ledger(x', sent + ToSet(out), peerIss)
  {
    if act.Receive? {
      ReceiveLedger(x, sent, peerIss, act.packet, act.rtt);
    } else if act.LoopStep? {
      LoopLedger(x, sent, peerIss);
    } else if act.RtoFires? || act.ClosePoll? {
      TimerLedger(x, sent, peerIss, act);
    } else {
      var (x', out) := Act(x, act);
      LedgerGrows(x, x', sent, ToSet(out), peerIss);
    }
  }

  lemma {:induction false} LedgerAlong(run: seq<System>, trace: seq<Step>, j: nat)
    requires IsTracedRun(run, trace) && j < |run|
    ensures Ledger(run[j].a, run[j].ab, run[0].b.iss) && Ledger(run[j].b, run[j].ba, run[0].a.iss)
    decreases j
  {
    if j > 0 {
      LedgerAlong(run, trace, j - 1);
      TracedIsRun(run, trace);
      RunInv(run, j - 1);
      assert TraceAt(run, trace, j - 1);
      LedgerStep(run[j - 1], trace[j - 1], run[j], run[0].a.iss, run[0].b.iss);
    }
  }

  lemma LedgerStep(s: System, t: Step, s': System, issA: nat, issB: nat)
    requires NodeOk(s.a) && NodeOk(s.b) && TakesStep(s, t, s')
    requires Ledger(s.a, s.ab, issB) && Ledger(s.b, s.ba, issA)
    ensures Ledger(s'.a, s'.ab, issB) && Ledger(s'.b, s'.ba, issA)
  {
    if t.byA {
      ActLedger(s.a, s.ba, s.ab, issB, t.act);
    } else {
      ActLedger(s.b, s.ab, s.ba, issA, t.act);
    }
  }

  lemma ReachableLedger(s: System)
    requires Reachable(s)
    ensures Ledger(s.a, s.ab, s.b.iss) && Ledger(s.b, s.ba, s.a.iss)
  {
    var run: seq<System> :| IsRun(run) && run[|run| - 1] == s;
    var trace := RunIsTraced(run);
    var n := |run| - 1;
    LedgerAlong(run, trace, n);
    IssAlong(run, trace, n);
    SwappedIsTracedRun(run, trace);
    IssAlong(SwappedRun(run), SwappedTrace(trace), n);
  }
}
