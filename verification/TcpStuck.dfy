/** When a stream can still advance, exactly, and how the source comes to stop for good. */
module TcpStuck {
  import opened Words
  import opened CircleBuffers
  import opened TcpSpec
  import opened TcpNetwork
  import opened TcpInvariant
  import opened TcpSteps
  import opened TcpTheorems
  import opened TcpRuns
  import opened TcpPaths
  import opened TcpInOrder

  /** Bytes delivered to y so far, read or waiting. */
  function Received(y: Node): nat {
    |y.read| + y.ep.rcv.ring.size
  }

  /** The receiver's nxt lies within what the sender has in flight, but no segment ever sent
      begins there: an ACK has cut one in two, and a segment is only ever resent whole. */
  ghost predicate Stuck(x: Node, y: Node, xy: set<Packet>) {
    y.ep.rcv.nxt <= x.ep.snd.lbw && y.ep.rcv.nxt < x.ep.snd.nxt && !HasSegment(xy, y.ep.rcv.nxt)
  }

  /** VRead is possible, or is going on with room for a byte. */
  predicate CanRead(y: Node) {
    MayWrite(y.ep.state) || (y.reader.Reading? && y.reader.max > 0)
  }

  /** The receiver handles data, and has room for it or can make some. */
  predicate CanTake(y: Node) {
    (OpenForData(y.ep.state) || y.ep.state == CLOSE_WAIT) && (y.ep.rcv.ring.size < MAX_WIN_SIZE || CanRead(y))
  }

  // ---- once stuck, always stuck ----

  lemma NothingAt(xy: set<Packet>, out: seq<Packet>, n: int)
    requires !HasSegment(xy, n) && forall p :: p in out && p.data != [] ==> p.seqNum != n
    ensures !HasSegment(xy + ToSet(out), n)
  {
  }

  lemma StuckPointers(x: Node, y: Node, xy: set<Packet>, yx: set<Packet>)
    requires Pair(x, y, xy, yx) && Stuck(x, y, xy)
    ensures !FinSent(x.ep.snd) && x.ep.snd.una <= y.ep.rcv.nxt < x.ep.snd.nxt && x.ep.rtx.queue != []
    ensures !FinConsumed(y.ep.rcv) && y.ep.rcv.fin == 0
    ensures Received(y) == y.ep.rcv.nxt - x.iss < |x.written|
  {
  }

  lemma StuckAck(x: Node, y: Node, xy: set<Packet>, yx: set<Packet>, p: Packet, rtt: real)
    requires Pair(x, y, xy, yx) && Stuck(x, y, xy) && p in yx && x.ep.WellFormed() && |p.data| < WORD
    ensures var (e, out) := HandleTcp(x.ep, p, rtt);
      e.snd.nxt == x.ep.snd.nxt && e.snd.lbw == x.ep.snd.lbw && (forall q :: q in out ==> q.data == [])
  {
    assert AckOk(y.ep.rcv, p);
    if p.data != [] {
      PayloadLeavesSender(x.ep, p);
    }
  }

  lemma StuckLoop(x: Node, y: Node, xy: set<Packet>, yx: set<Packet>)
    requires Pair(x, y, xy, yx) && Stuck(x, y, xy) && x.ep.WellFormed()
    ensures var (x', out) := DoLoopStep(x);
      && x'.ep.snd.nxt >= x.ep.snd.nxt && x'.ep.snd.lbw == x.ep.snd.lbw
      && (forall q :: q in out && q.data != [] ==> q.seqNum != y.ep.rcv.nxt)
  {
    assert Sub32(x.ep.snd.nxt, x.ep.snd.una) == x.ep.snd.nxt - x.ep.snd.una;
    if SendLoopStep(x.ep).2.Running? {
      SendableBounds(x);
    }
  }

  /** What the timer resends begins where it began before. */
  lemma StuckRto(x: Node, y: Node, xy: set<Packet>, yx: set<Packet>)
    requires Pair(x, y, xy, yx) && Stuck(x, y, xy) && x.ep.WellFormed() && x.ep.rtx.queue != []
    requires QueueSent(x.ep.rtx.queue, xy)
    ensures var (x', out) := DoRtoFires(x);
      && x'.ep.snd == x.ep.snd
      && (forall q :: q in out && q.data != [] ==> q.seqNum != y.ep.rcv.nxt)
  {
    var h := x.ep.rtx.queue[0];
    assert TileAt(x.ep.rtx.queue, 0, x.iss, x.ep.snd.nxt);
    assert HasSegment(xy, h.seqNum);
  }

  lemma ThreadsKeepFlight(x: Node, yx: set<Packet>, act: Action)
    requires NodeOk(x) && Steppable(x, yx, act)
    requires !act.Receive? && !act.LoopStep? && !act.RtoFires? && !act.ClosePoll?
    ensures var (x', out) := Act(x, act); var s := x.ep.snd; var s' := x'.ep.snd;
      out == [] && s'.una == s.una && s'.nxt == s.nxt && s'.lbw >= s.lbw && x'.ep.rtx.queue == x.ep.rtx.queue
  {
    if act.WriteStep? {
      assert Act(x, act).0 == DoWriteStep(x);
    }
  }

  /** Nothing the sender does helps. */
  lemma StuckSender(x: Node, y: Node, xy: set<Packet>, yx: set<Packet>, act: Action)
    requires Pair(x, y, xy, yx) && Stuck(x, y, xy) && Steppable(x, yx, act) && QueueSent(x.ep.rtx.queue, xy)
    ensures var (x', out) := Act(x, act); Stuck(x', y, xy + ToSet(out))
  {
    StuckPointers(x, y, xy, yx);
    if act.Receive? {
      StuckAck(x, y, xy, yx, act.packet, act.rtt);
    } else if act.LoopStep? {
      StuckLoop(x, y, xy, yx);
    } else if act.RtoFires? {
      StuckRto(x, y, xy, yx);
    } else if !act.ClosePoll? {
      ThreadsKeepFlight(x, yx, act);
    }
    NothingAt(xy, Act(x, act).1, y.ep.rcv.nxt);
  }

  lemma StuckReceive(x: Node, y: Node, xy: set<Packet>, yx: set<Packet>, p: Packet, rtt: real)
    requires Pair(x, y, xy, yx) && Stuck(x, y, xy) && p in xy && y.ep.WellFormed() && |p.data| < WORD
    ensures var e := HandleTcp(y.ep, p, rtt).0; e.rcv == y.ep.rcv.(heap := e.rcv.heap)
  {
    StuckPointers(x, y, xy, yx);
    assert PacketOk(x, y.ep.rcv, p);
    assert p.data != [] ==> p.seqNum != y.ep.rcv.nxt;
  }

  lemma ThreadsKeepReceived(y: Node, xy: set<Packet>, act: Action)
    requires NodeOk(y) && Steppable(y, xy, act) && y.ep.rcv.ring.size <= MAX_WIN_SIZE && !act.Receive?
    ensures var y' := Act(y, act).0; Received(y') == Received(y) && y'.ep.rcv.nxt == y.ep.rcv.nxt
  {
    if act.ReadStep? {
      assert Act(y, act).0 == DoReadStep(y);
    }
  }

  /** Nothing the receiver does helps. */
  lemma StuckReceiver(x: Node, y: Node, xy: set<Packet>, yx: set<Packet>, act: Action)
    requires Pair(x, y, xy, yx) && Stuck(x, y, xy) && Steppable(y, xy, act)
    ensures var y' := Act(y, act).0; Stuck(x, y', xy) && Received(y') == Received(y)
  {
    if act.Receive? {
      StuckReceive(x, y, xy, yx, act.packet, act.rtt);
    } else {
      ThreadsKeepReceived(y, xy, act);
    }
  }

  // ---- a receiver that takes nothing any more ----

  lemma DeafReceive(y: Node, p: Packet, rtt: real)
    requires y.ep.WellFormed() && |p.data| < WORD && !CanTake(y)
    ensures var y' := DoReceive(y, p, rtt).0; !CanTake(y') && Received(y') == Received(y)
  {
    HandleTcpRank(y.ep, p, rtt);
    if p.data == [] {
      AckKeepsReceiver(y.ep, p, rtt);
    }
  }

  lemma AckKeepsReceiver(e: Endpoint, p: Packet, rtt: real)
    requires e.WellFormed() && p.data == []
    ensures var e' := HandleTcp(e, p, rtt).0; e'.rcv.ring == e.rcv.ring
  {
  }

  lemma DeafThreads(y: Node, xy: set<Packet>, act: Action)
    requires NodeOk(y) && Steppable(y, xy, act) && !CanTake(y) && !act.Receive?
    ensures !CanTake(Act(y, act).0)
  {
    if act.ReadStep? {
      assert Act(y, act).0 == DoReadStep(y);
    }
  }

  lemma DeafReceiver(y: Node, xy: set<Packet>, act: Action)
    requires NodeOk(y) && Steppable(y, xy, act) && !CanTake(y)
    ensures var y' := Act(y, act).0; !CanTake(y') && Received(y') == Received(y)
  {
    if act.Receive? {
      DeafReceive(y, act.packet, act.rtt);
    } else {
      ThreadsKeepReceived(y, xy, act);
      DeafThreads(y, xy, act);
    }
  }

  // ---- along a run ----

  /** The stream from A to B cannot advance. */
  ghost predicate NoWay(s: System) {
    Stuck(s.a, s.b, s.ab) || !CanTake(s.b)
  }

  lemma NoWayStep(s: System, t: Step, s': System)
    requires Reachable(s) && TakesStep(s, t, s') && NoWay(s)
    ensures NoWay(s') && Received(s'.b) == Received(s.b)
    ensures Stuck(s.a, s.b, s.ab) ==> Stuck(s'.a, s'.b, s'.ab)
  {
    ReachableInv(s);
    ReachableLedger(s);
    if t.byA {
      if Stuck(s.a, s.b, s.ab) {
        StuckSender(s.a, s.b, s.ab, s.ba, t.act);
      }
    } else if Stuck(s.a, s.b, s.ab) {
      StuckReceiver(s.a, s.b, s.ab, s.ba, t.act);
    } else {
      DeafReceiver(s.b, s.ab, t.act);
    }
  }

  lemma NoWayNext(s: System, s': System)
    requires Reachable(s) && Next(s, s') && NoWay(s)
    ensures NoWay(s') && Received(s'.b) == Received(s.b)
    ensures Stuck(s.a, s.b, s.ab) ==> Stuck(s'.a, s'.b, s'.ab)
  {
    var t := NextIsStep(s, s');
    NoWayStep(s, t, s');
  }

  lemma NoWayPathStep(path: seq<System>, i: nat)
    requires IsPath(path) && i + 1 < |path| && NoWay(path[i])
    ensures NoWay(path[i + 1]) && Received(path[i + 1].b) == Received(path[i].b)
    ensures Stuck(path[i].a, path[i].b, path[i].ab) ==> Stuck(path[i + 1].a, path[i + 1].b, path[i + 1].ab)
  {
    PathReaches(path, i);
    assert StepAt(path, i);
    NoWayNext(path[i], path[i + 1]);
  }

  lemma {:induction false} NoWayAlong(path: seq<System>, j: nat)
    requires IsPath(path) && j < |path| && NoWay(path[0])
    ensures NoWay(path[j]) && Received(path[j].b) == Received(path[0].b)
    ensures Stuck(path[0].a, path[0].b, path[0].ab) ==> Stuck(path[j].a, path[j].b, path[j].ab)
    decreases j
  {
    if j > 0 {
      NoWayAlong(path, j - 1);
      NoWayPathStep(path, j - 1);
    }
  }

  /** Once stuck, always stuck: in whatever way a run goes on, the receiver accepts no further
      byte, although more was written and sent. */
  lemma StuckForever(path: seq<System>, j: nat)
    requires IsPath(path) && j < |path| && Stuck(path[0].a, path[0].b, path[0].ab)
    ensures Stuck(path[j].a, path[j].b, path[j].ab)
    ensures Received(path[j].b) == Received(path[0].b) < |path[j].a.written|
  {
    NoWayAlong(path, j);
    PathReaches(path, j);
    ReachableInv(path[j]);
    StuckPointers(path[j].a, path[j].b, path[j].ab, path[j].ba);
  }

  // ---- otherwise the stream can advance ----

  /** The bytes still to come are not in flight: the receiver has all that was sent. */
  ghost predicate AllTaken(x: Node, y: Node) {
    x.ep.snd.nxt <= y.ep.rcv.nxt <= x.ep.snd.lbw && x.ep.state != CLOSED
  }

  lemma AllTakenPointers(x: Node, y: Node, xy: set<Packet>, yx: set<Packet>)
    requires Pair(x, y, xy, yx) && AllTaken(x, y)
    ensures !FinSent(x.ep.snd) && x.ep.snd.una <= x.ep.snd.nxt <= y.ep.rcv.nxt <= x.ep.snd.nxt + 1
    ensures x.ep.state == ESTABLISHED || x.ep.state == CLOSE_WAIT
    ensures x.ep.snd.lbw + 4 <= WORD
  {
  }

  lemma AckArrives(x: Node, y: Node, xy: set<Packet>, yx: set<Packet>, p: Packet)
    requires Pair(x, y, xy, yx) && AllTaken(x, y) && x.ep.WellFormed()
    requires p in yx && IsAckOf(p, y.ep.rcv.nxt)
    ensures var (x', out) := DoReceive(x, p, 0.0);
      && x'.ep.snd.una == x'.ep.snd.nxt == y.ep.rcv.nxt && x'.ep.snd.lbw == x.ep.snd.lbw
      && x'.ep.state == x.ep.state
  {
    AllTakenPointers(x, y, xy, yx);
    AckInRange(x, y, xy, yx, p);
    AckSetsUna(x, y, xy, yx, p, 0.0);
  }

  /** The send loop is not running, but something can wake it. */
  lemma WakesUp(x: Node, inbox: set<Packet>) returns (act: Action)
    requires NodeOk(x) && x.ep.WellFormed() && !x.loop.Running? && x.ep.state != CLOSED
    requires x.ep.snd.una == x.ep.snd.nxt <= x.ep.snd.lbw
    ensures IsWake(act) && !act.WriteWake? && !act.ReadWake? && Enabled(x, inbox, act)
    ensures var x' := Wake(x, act); var s := x'.ep.snd;
      && x'.loop.Running? && s.una == s.nxt == x.ep.snd.nxt && s.lbw == x.ep.snd.lbw
  {
    match x.loop {
      case Parked => act := WakeOnData;
      case ProbeWait => act := ProbeTimer;
      case WindowWait => act := WakeOnWindow;
      case Exited =>
    }
  }

  /** It sends the next byte, in a segment or in a probe. */
  lemma SendsNext(x: Node)
    requires SendOk(x) && x.ep.WellFormed() && x.ep.snd.una == x.ep.snd.nxt <= x.ep.snd.lbw
    ensures HasSegment(ToSet(DoLoopStep(x).1), x.ep.snd.nxt)
  {
    var (x', out) := DoLoopStep(x);
    assert Sub32(x.ep.snd.nxt, x.ep.snd.una) == 0;
    if x'.loop.Running? {
      SendableBounds(x);
    }
    assert out[0] in ToSet(out) && out[0].data != [] && out[0].seqNum == x.ep.snd.nxt;
  }

  lemma AckWaits(path: seq<System>)
    requires IsPath(path)
    ensures var s := End(path); s.b.ep.rcv.nxt == s.a.iss || HasAck(s.ba, s.b.ep.rcv.nxt)
  {
    PathReaches(path, |path| - 1);
    ReachableLedger(End(path));
  }

  lemma AckComes(path: seq<System>) returns (longer: seq<System>)
    requires IsPath(path) && AllTaken(End(path).a, End(path).b)
    ensures IsPath(longer) && path <= longer
    ensures var s, s' := End(path), End(longer);
      && s'.b == s.b && AllTaken(s'.a, s'.b)
      && s'.a.ep.snd.una == s'.a.ep.snd.nxt == s.b.ep.rcv.nxt
  {
    var s := End(path);
    PathPair(path);
    AllTakenPointers(s.a, s.b, s.ab, s.ba);
    if s.a.ep.snd.una == s.b.ep.rcv.nxt {
      longer := path;
    } else {
      AckWaits(path);
      assert s.a.iss <= s.a.ep.snd.una;
      var p :| p in s.ba && IsAckOf(p, s.b.ep.rcv.nxt);
      longer := GoA(path, Receive(p, 0.0));
      AckArrives(s.a, s.b, s.ab, s.ba, p);
    }
  }

  lemma LoopComes(path: seq<System>) returns (longer: seq<System>)
    requires IsPath(path) && AllTaken(End(path).a, End(path).b)
    requires End(path).a.ep.snd.una == End(path).a.ep.snd.nxt
    ensures IsPath(longer) && path <= longer
    ensures var s, s' := End(path), End(longer);
      && s'.b == s.b && s'.a.loop.Running?
      && s'.a.ep.snd.una == s'.a.ep.snd.nxt == s.a.ep.snd.nxt <= s'.a.ep.snd.lbw
  {
    var s := End(path);
    if s.a.loop.Running? {
      longer := path;
    } else {
      PathPair(path);
      var act := WakesUp(s.a, s.ba);
      longer := GoA(path, act);
    }
  }

  /** A segment that begins where the receiver waits is on the network, or can be brought there. */
  lemma SegmentComes(path: seq<System>) returns (longer: seq<System>)
    requires IsPath(path)
    requires var s := End(path);
      s.b.ep.rcv.nxt <= s.a.ep.snd.lbw && s.a.ep.state != CLOSED && !Stuck(s.a, s.b, s.ab)
    ensures IsPath(longer) && path <= longer
    ensures var s, s' := End(path), End(longer); s'.b == s.b && HasSegment(s'.ab, s.b.ep.rcv.nxt)
  {
    var s := End(path);
    if HasSegment(s.ab, s.b.ep.rcv.nxt) {
      longer := path;
    } else {
      var p1 := AckComes(path);
      var p2 := LoopComes(p1);
      longer := GoA(p2, LoopStep);
      PathPair(p2);
      var x := End(p2).a;
      SendsNext(x);
      SegmentStays(ToSet(DoLoopStep(x).1), End(p2).ab, x.ep.snd.nxt);
      assert End(p2).ab + ToSet(DoLoopStep(x).1) == ToSet(DoLoopStep(x).1) + End(p2).ab;
    }
  }

  // ---- making room and taking the segment ----

  /** What reading leaves as it is. */
  ghost predicate SameButRead(y: Node, y': Node) {
    && Received(y') == Received(y) && y'.ep.state == y.ep.state
    && y'.ep.rcv.nxt == y.ep.rcv.nxt && y'.ep.rcv.ring.size <= y.ep.rcv.ring.size
  }

  lemma ReadFrees(y: Node)
    requires y.ep.WellFormed() && y.reader.Reading? && y.ep.rcv.ring.size > 0
    ensures var y' := DoReadStep(y);
      && SameButRead(y, y') && y'.reader.ReaderIdle?
      && (y.reader.max > 0 ==> y'.ep.rcv.ring.size < y.ep.rcv.ring.size)
  {
  }

  /** A VRead that waits while there are bytes to read is woken. */
  lemma ReadWakes(path: seq<System>) returns (longer: seq<System>)
    requires IsPath(path) && End(path).b.reader.Reading? && End(path).b.ep.rcv.ring.size > 0
    ensures IsPath(longer) && path <= longer
    ensures var s, s' := End(path), End(longer);
      && s'.a == s.a && s'.ab == s.ab && SameButRead(s.b, s'.b)
      && s'.b.ep.rcv.ring.size == s.b.ep.rcv.ring.size && s'.b.reader == s.b.reader.(blocked := false)
  {
    longer := path;
    if End(path).b.reader.blocked {
      PathPair(path);
      longer := GoB(path, ReadWake);
    }
  }

  /** A VRead under way with bytes to read gets to the end. */
  lemma ReadEnds(path: seq<System>) returns (longer: seq<System>)
    requires IsPath(path) && End(path).b.reader.Reading? && End(path).b.ep.rcv.ring.size > 0
    ensures IsPath(longer) && path <= longer
    ensures var s, s' := End(path), End(longer);
      && s'.a == s.a && s'.ab == s.ab
      && SameButRead(s.b, s'.b) && s'.b.reader.ReaderIdle?
      && (s.b.reader.max > 0 ==> s'.b.ep.rcv.ring.size < s.b.ep.rcv.ring.size)
  {
    var p1 := ReadWakes(path);
    longer := GoB(p1, ReadStep);
    ReadFrees(End(p1).b);
  }

  lemma ReadCalled(path: seq<System>) returns (longer: seq<System>)
    requires IsPath(path) && End(path).b.reader.ReaderIdle? && MayWrite(End(path).b.ep.state)
    ensures IsPath(longer) && path <= longer
    ensures var s, s' := End(path), End(longer);
      s'.a == s.a && s'.ab == s.ab && s'.b == s.b.(reader := Reading(1, false))
  {
    longer := GoB(path, ReadCall(1));
    assert ToSet([]) == {};
  }

  lemma RoomComes(path: seq<System>) returns (longer: seq<System>)
    requires IsPath(path) && CanTake(End(path).b)
    ensures IsPath(longer) && path <= longer
    ensures var s, s' := End(path), End(longer);
      && s'.a == s.a && s'.ab == s.ab && SameButRead(s.b, s'.b) && s'.b.ep.rcv.ring.size < MAX_WIN_SIZE
  {
    PathPair(path);
    longer := path;
    if End(longer).b.ep.rcv.ring.size == MAX_WIN_SIZE && End(longer).b.reader.Reading? {
      longer := ReadEnds(longer);
    }
    if End(longer).b.ep.rcv.ring.size == MAX_WIN_SIZE {
      var p1 := ReadCalled(longer);
      longer := ReadEnds(p1);
    }
  }

  /** A segment that begins at nxt is accepted where there is room. */
  lemma SegmentTaken(y: Node, p: Packet)
    requires y.ep.WellFormed() && 0 < |p.data| < WORD && !p.fin && p.seqNum == y.ep.rcv.nxt
    requires (OpenForData(y.ep.state) || y.ep.state == CLOSE_WAIT) && y.ep.rcv.ring.size < MAX_WIN_SIZE
    ensures Received(DoReceive(y, p, 0.0).0) > Received(y)
  {
    var data := Fitting(p.data, y.ep.rcv.ring.FreeSpace());
    DrainFills(y.ep.(rcv := Accept(y.ep.rcv, data)));
  }

  lemma {:induction false} DrainFills(e: Endpoint)
    requires e.WellFormed()
    ensures Drain(e).0.rcv.ring.size >= e.rcv.ring.size
    decreases |e.rcv.heap|
  {
    if e.rcv.heap != [] && CanDrain(e.rcv) {
      DrainFills(DrainOne(e));
    }
  }

  /** The run can be continued so that B accepts a further byte. */
  ghost predicate CanAdvance(s: System) {
    exists path :: IsPath(path) && path[0] == s && Received(End(path).b) > Received(s.b)
  }

  lemma Advances(s: System) returns (path: seq<System>)
    requires Reachable(s) && s.b.ep.rcv.nxt <= s.a.ep.snd.lbw && s.a.ep.state != CLOSED && !NoWay(s)
    ensures IsPath(path) && path[0] == s && Received(End(path).b) > Received(s.b)
  {
    assert AllSteps([s]);
    var p1 := SegmentComes([s]);
    var p2 := RoomComes(p1);
    var t := End(p2);
    var p :| p in t.ab && p.data != [] && p.seqNum == s.b.ep.rcv.nxt;
    path := GoB(p2, Receive(p, 0.0));
    PathPair(p2);
    assert PacketOk(t.a, t.b.ep.rcv, p);
    SegmentTaken(t.b, p);
  }

  /** As long as A's side is open and B lacks a byte that A has written, the stream can advance
      if and only if it is not stuck and B takes data. */
  lemma AdvanceExactly(s: System)
    requires Reachable(s) && s.b.ep.rcv.nxt <= s.a.ep.snd.lbw && s.a.ep.state != CLOSED
    ensures CanAdvance(s) <==> !Stuck(s.a, s.b, s.ab) && CanTake(s.b)
  {
    if !NoWay(s) {
      var path := Advances(s);
    }
    if CanAdvance(s) && NoWay(s) {
      var path :| IsPath(path) && path[0] == s && Received(End(path).b) > Received(s.b);
      NoWayAlong(path, |path| - 1);
    }
  }

  // ---- how a stuck connection ends ----

  /** Stuck, and all before the segment that was cut in two has been acknowledged. */
  ghost predicate CutAtHead(x: Node, y: Node, xy: set<Packet>) {
    && Stuck(x, y, xy)
    && x.ep.rtx.queue != []
    && x.ep.rtx.queue[0].seqNum < y.ep.rcv.nxt < x.ep.rtx.queue[0].End()
  }

  /** Side x is closed or has resent the head k times. */
  predicate Resent(x: Node, k: nat) {
    x.ep.rtx.queue != [] && (x.ep.state == CLOSED || x.ep.rtx.queue[0].numRetransmits >= k)
  }

  lemma CutReceive(x: Node, y: Node, xy: set<Packet>, yx: set<Packet>, p: Packet, rtt: real)
    requires Pair(x, y, xy, yx) && CutAtHead(x, y, xy) && p in yx && x.ep.WellFormed() && |p.data| < WORD
    ensures var e := HandleTcp(x.ep, p, rtt).0;
      e.rtx.queue == x.ep.rtx.queue && (x.ep.state == CLOSED ==> e.state == CLOSED)
  {
    assert AckOk(y.ep.rcv, p);
    ReceiveQueue(x.ep, p, rtt);
  }

  lemma TimeoutCounts(x: Node, k: nat)
    requires x.ep.WellFormed() && x.ep.rtx.queue != [] && Resent(x, k)
    ensures var x' := DoRtoFires(x).0; var q, q' := x.ep.rtx.queue, x'.ep.rtx.queue;
      Resent(x', k + 1) && q'[0].seqNum == q[0].seqNum && q'[0].len == q[0].len
  {
  }

  lemma LoopKeepsHead(x: Node, k: nat)
    requires x.ep.WellFormed() && Resent(x, k)
    ensures var x' := DoLoopStep(x).0; Resent(x', k) && x'.ep.rtx.queue[0] == x.ep.rtx.queue[0]
  {
  }

  /** The head stays, and every timeout counts against it. */
  lemma CutSender(x: Node, y: Node, xy: set<Packet>, yx: set<Packet>, act: Action, k: nat)
    requires Pair(x, y, xy, yx) && CutAtHead(x, y, xy) && Steppable(x, yx, act) && Resent(x, k)
    ensures var x' := Act(x, act).0; var q, q' := x.ep.rtx.queue, x'.ep.rtx.queue;
      && Resent(x', if act.RtoFires? then k + 1 else k)
      && q'[0].seqNum == q[0].seqNum && q'[0].len == q[0].len
  {
    if act.Receive? {
      CutReceive(x, y, xy, yx, act.packet, act.rtt);
    } else if act.RtoFires? {
      TimeoutCounts(x, k);
    } else if act.LoopStep? {
      LoopKeepsHead(x, k);
    } else if !act.ClosePoll? {
      ThreadsKeepFlight(x, yx, act);
    }
  }

  /** How many of the first j steps are timeouts of side A's retransmission timer. */
  function Timeouts(trace: seq<Step>, j: nat): nat
    requires j <= |trace|
  {
    if j == 0 then 0 else Timeouts(trace, j - 1) + if trace[j - 1].byA && trace[j - 1].act.RtoFires? then 1 else 0
  }

  lemma CutStep(s: System, t: Step, s': System, k: nat)
    requires Reachable(s) && TakesStep(s, t, s') && CutAtHead(s.a, s.b, s.ab) && Resent(s.a, k)
    ensures CutAtHead(s'.a, s'.b, s'.ab) && Resent(s'.a, if t.byA && t.act.RtoFires? then k + 1 else k)
  {
    ReachableInv(s);
    NoWayStep(s, t, s');
    if t.byA {
      CutSender(s.a, s.b, s.ab, s.ba, t.act, k);
    } else if t.act.Receive? {
      StuckReceive(s.a, s.b, s.ab, s.ba, t.act.packet, t.act.rtt);
    } else {
      ThreadsKeepReceived(s.b, s.ab, t.act);
    }
  }

  lemma TracedReaches(run: seq<System>, trace: seq<Step>, j: nat)
    requires IsTracedRun(run, trace) && j < |run|
    ensures Reachable(run[j])
  {
    TracedIsRun(run, trace);
    ReachedInRun(run, j);
  }

  lemma {:induction false} ResentAlong(run: seq<System>, trace: seq<Step>, i: nat, j: nat)
    requires IsTracedRun(run, trace) && i <= j < |run| && CutAtHead(run[i].a, run[i].b, run[i].ab)
    ensures CutAtHead(run[j].a, run[j].b, run[j].ab)
    ensures Timeouts(trace, j) >= Timeouts(trace, i) && Resent(run[j].a, Timeouts(trace, j) - Timeouts(trace, i))
    decreases j
  {
    if i < j {
      ResentAlong(run, trace, i, j - 1);
      TracedReaches(run, trace, j - 1);
      assert TraceAt(run, trace, j - 1);
      CutStep(run[j - 1], trace[j - 1], run[j], Timeouts(trace, j - 1) - Timeouts(trace, i));
    }
  }

  /** The fifth timeout after that closes the connection, with bytes undelivered. */
  lemma FifthTimeoutCloses(run: seq<System>, trace: seq<Step>, i: nat, j: nat)
    requires IsTracedRun(run, trace) && i <= j < |run| && CutAtHead(run[i].a, run[i].b, run[i].ab)
    requires Timeouts(trace, j) - Timeouts(trace, i) > MAX_RETRANSMISSIONS
    ensures run[j].a.ep.state == CLOSED && Received(run[j].b) < |run[j].a.written|
  {
    ResentAlong(run, trace, i, j);
    TracedReaches(run, trace, j);
    var s := run[j];
    RetransmissionBounds(s, s.a, s.b, s.ab, s.ba, s.a.ep.rtx.queue[0]);
    ReachableInv(s);
    StuckPointers(s.a, s.b, s.ab, s.ba);
  }
}
