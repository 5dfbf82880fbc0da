/** Runs that show what the source lets happen. */
module TcpWitnesses {
  import opened Words
  import opened CircleBuffers
  import opened EarlyArrivalHeap
  import opened TcpSpec
  import opened TcpNetwork
  import opened TcpInvariant
  import opened TcpSteps
  import opened TcpTheorems
  import opened TcpPaths
  import opened TcpStuck
  import opened TcpClogged

  // ---- the start: a connection, something to send, the send loop awake ----

  const START := System(NewNode(1, 1), NewNode(1, 1), {}, {})

  function Zeros(n: nat): seq<byte> {
    seq(n, _ => 0)
  }

  lemma StartPath() returns (path: seq<System>)
    ensures IsPath(path) && End(path) == START
  {
    path := [START];
    assert IsRun(path) && path[|path| - 1] == START;
    assert AllSteps(path);
  }

  /** A is writing, has written n bytes and sent none, and its loop is running; B has done nothing. */
  ghost predicate Loaded(s: System, n: nat) {
    && s.a.loop.Running? && s.a.ep.state == ESTABLISHED && s.a.iss == 1
    && s.a.ep.snd.una == s.a.ep.snd.nxt == 1 && s.a.ep.snd.lbw == n && s.a.ep.snd.window == MAX_WIN_SIZE
    && s.b == NewNode(1, 1) && s.ab == {} && s.ba == {}
  }

  lemma Load(total: nat) returns (path: seq<System>)
    requires 0 < total && total + 4 <= WORD
    ensures IsPath(path)
    ensures var n := Min(total, MAX_WIN_SIZE); var s := End(path);
      Loaded(s, n) && s.a.writer == Writing(Zeros(total), n, 0, false)
  {
    var p0 := StartPath();
    var p1 := GoA(p0, WriteCall(Zeros(total)));
    var p2 := GoA(p1, WriteStep);
    path := GoA(p2, WakeOnData);
  }

  /** A step of A that sends nothing. */
  lemma QuietA(path: seq<System>, act: Action) returns (longer: seq<System>)
    requires IsPath(path) && Enabled(End(path).a, End(path).ba, act)
    requires IsWake(act) || IsCall(act) || act.WriteStep?
    ensures Steppable(End(path).a, End(path).ba, act)
    ensures IsPath(longer) && End(longer) == End(path).(a := Act(End(path).a, act).0)
  {
    longer := GoA(path, act);
    assert End(path).ab + ToSet([]) == End(path).ab;
  }

  /** A step of B that sends nothing. */
  lemma QuietB(path: seq<System>, act: Action) returns (longer: seq<System>)
    requires IsPath(path) && Enabled(End(path).b, End(path).ab, act)
    requires IsCall(act) || act.ReadStep?
    ensures Steppable(End(path).b, End(path).ab, act)
    ensures IsPath(longer) && End(longer) == End(path).(b := Act(End(path).b, act).0)
  {
    longer := GoB(path, act);
    assert End(path).ba + ToSet([]) == End(path).ba;
  }

  // ---- sending and delivering, segment by segment ----

  lemma Sends(x: Node)
    requires SendOk(x) && x.ep.WellFormed() && x.loop.Running?
    requires x.ep.snd.nxt <= x.ep.snd.lbw && x.ep.snd.nxt < x.ep.snd.una + x.ep.snd.window
    ensures var (x', out) := DoLoopStep(x); var d := x.ep.snd;
      var n := Min(Min(d.lbw + 1 - d.nxt, d.una + d.window - d.nxt), MAX_SEG_SIZE);
      && 1 <= n && d.nxt + n < WORD
      && x' == x.(ep := x'.ep) && x'.ep.state == x.ep.state
      && x'.ep.snd == d.(nxt := d.nxt + n, isProbing := false)
      && x'.ep.rtx.queue == x.ep.rtx.queue + [RtxEntry(d.nxt, n, false, false, 0)]
      && |out| == 1 && out[0].seqNum == d.nxt && |out[0].data| == n && !out[0].fin
  {
    assert Sub32(x.ep.snd.nxt, x.ep.snd.una) == x.ep.snd.nxt - x.ep.snd.una;
    SendableBounds(x);
  }

  lemma Takes(y: Node, p: Packet)
    requires y.ep.WellFormed() && y.ep.state == ESTABLISHED && y.ep.rcv.heap == [] && y.ep.rcv.fin == 0
    requires p.seqNum == y.ep.rcv.nxt && !p.fin && 0 < |p.data| <= y.ep.rcv.ring.FreeSpace()
    requires p.seqNum + |p.data| < WORD
    ensures var (y', out) := DoReceive(y, p, 0.0); var r := y.ep.rcv; var r' := y'.ep.rcv;
      && y'.ep.state == ESTABLISHED && y' == y.(ep := y'.ep)
      && r'.nxt == r.nxt + |p.data| && r'.ring.size == r.ring.size + |p.data| && r'.heap == [] && r'.fin == 0
      && |out| == 1 && IsAckOf(out[0], r'.nxt) && out[0].window == MAX_WIN_SIZE - r'.ring.size
  {
  }

  /** What changes at the sender while segments go out: nxt, up to g, and its queue. */
  ghost predicate SenderMoved(x: Node, x': Node, g: nat) {
    && x' == x.(ep := x'.ep) && x'.ep.state == x.ep.state && g < WORD
    && x'.ep.snd == x.ep.snd.(nxt := g, isProbing := x'.ep.snd.isProbing)
  }

  /** What changes at the receiver: it has got everything before g. */
  ghost predicate ReceiverMoved(y: Node, y': Node, g: nat) {
    && y' == y.(ep := y'.ep) && y'.ep.state == y.ep.state
    && y.ep.rcv.nxt <= y'.ep.rcv.nxt == g
    && y'.ep.rcv.ring.size == y.ep.rcv.ring.size + (g - y.ep.rcv.nxt)
    && y'.ep.rcv.heap == [] && y'.ep.rcv.fin == 0
  }

  /** An ACK of g with the receiver's present window is on its way. */
  ghost predicate AckSent(y: Node, yx: set<Packet>, g: nat) {
    exists p :: p in yx && IsAckOf(p, g) && p.window == MAX_WIN_SIZE - y.ep.rcv.ring.size
  }

  /** g is as far as A can send, and all before it will be received. */
  ghost predicate CanPump(s: System, g: nat) {
    var d, r := s.a.ep.snd, s.b.ep.rcv;
    && s.a.loop.Running? && s.a.ep.state == ESTABLISHED && s.b.ep.state == ESTABLISHED
    && r.heap == [] && r.fin == 0
    && d.nxt == r.nxt <= g == Min(d.lbw + 1, d.una + d.window)
    && r.ring.size + (g - r.nxt) <= MAX_WIN_SIZE
  }

  lemma SendOnce(path: seq<System>) returns (longer: seq<System>, q: Packet)
    requires IsPath(path)
    requires var x := End(path).a;
      x.loop.Running? && x.ep.snd.nxt <= x.ep.snd.lbw && x.ep.snd.nxt < x.ep.snd.una + x.ep.snd.window
    ensures IsPath(longer)
    ensures var s, s' := End(path), End(longer); var d := s.a.ep.snd;
      var n := Min(Min(d.lbw + 1 - d.nxt, d.una + d.window - d.nxt), MAX_SEG_SIZE);
      && 1 <= n && SenderMoved(s.a, s'.a, d.nxt + n)
      && s'.a.ep.rtx.queue == s.a.ep.rtx.queue + [RtxEntry(d.nxt, n, false, false, 0)]
      && s' == s.(a := s'.a, ab := s.ab + {q})
      && q.seqNum == d.nxt && |q.data| == n && !q.fin
  {
    var s := End(path);
    PathPair(path);
    Sends(s.a);
    var out := DoLoopStep(s.a).1;
    q := out[0];
    longer := GoA(path, LoopStep);
    assert ToSet(out) == {q};
  }

  lemma TakeOnce(path: seq<System>, p: Packet) returns (longer: seq<System>)
    requires IsPath(path) && p in End(path).ab
    requires var y := End(path).b;
      && y.ep.state == ESTABLISHED && y.ep.rcv.heap == [] && y.ep.rcv.fin == 0
      && p.seqNum == y.ep.rcv.nxt && !p.fin && 0 < |p.data| <= y.ep.rcv.ring.FreeSpace() && p.seqNum + |p.data| < WORD
    ensures IsPath(longer)
    ensures var s, s' := End(path), End(longer);
      && s' == s.(b := s'.b, ba := s'.ba) && s.ba <= s'.ba
      && ReceiverMoved(s.b, s'.b, p.seqNum + |p.data|) && AckSent(s'.b, s'.ba, p.seqNum + |p.data|)
  {
    PathWellFormed(path);
    Takes(End(path).b, p);
    var ack := DoReceive(End(path).b, p, 0.0).1[0];
    longer := GoB(path, Receive(p, 0.0));
    assert ack in End(longer).ba;
  }

  lemma PumpOnce(path: seq<System>, g: nat) returns (longer: seq<System>)
    requires IsPath(path) && CanPump(End(path), g) && End(path).a.ep.snd.nxt < g
    ensures IsPath(longer) && CanPump(End(longer), g)
    ensures var s, s' := End(path), End(longer); var n := s'.a.ep.snd.nxt;
      && s.a.ep.snd.nxt < n && SenderMoved(s.a, s'.a, n) && ReceiverMoved(s.b, s'.b, n)
      && s.ab <= s'.ab && s.ba <= s'.ba
      && HasSegment(s'.ab, s.a.ep.snd.nxt) && AckSent(s'.b, s'.ba, n)
  {
    var p1, q := SendOnce(path);
    longer := TakeOnce(p1, q);
  }

  lemma {:induction false} Pump(path: seq<System>, g: nat) returns (longer: seq<System>)
    requires IsPath(path) && CanPump(End(path), g) && End(path).a.ep.snd.nxt < g
    ensures IsPath(longer) && CanPump(End(longer), g)
    ensures var s, s' := End(path), End(longer);
      && SenderMoved(s.a, s'.a, g) && ReceiverMoved(s.b, s'.b, g)
      && s.ab <= s'.ab && s.ba <= s'.ba
      && HasSegment(s'.ab, s.a.ep.snd.nxt) && AckSent(s'.b, s'.ba, g)
    decreases g - End(path).a.ep.snd.nxt
  {
    longer := PumpOnce(path, g);
    if End(longer).a.ep.snd.nxt < g {
      var p1 := longer;
      longer := Pump(p1, g);
      SegmentStays(End(p1).ab, End(longer).ab, End(path).a.ep.snd.nxt);
      assert End(p1).ab + End(longer).ab == End(longer).ab;
    }
  }

  // ---- a stuck connection ----

  /** First sequence number after a full buffer. */
  const FULL: nat := 1 + MAX_WIN_SIZE

  /** No data segment begins beyond FULL. */
  ghost predicate NoneBeyond(sent: set<Packet>) {
    forall p :: p in sent && p.data != [] ==> p.seqNum <= FULL
  }

  /** B has room for `room` bytes and waits for FULL. */
  ghost predicate WaitsAtFull(y: Node, room: nat) {
    && y.ep.state == ESTABLISHED && y.reader.ReaderIdle?
    && y.ep.rcv.nxt == FULL && y.ep.rcv.ring.size + room == MAX_WIN_SIZE
    && y.ep.rcv.heap == [] && y.ep.rcv.fin == 0
  }

  /** A has sent all it wrote but `more` bytes and everything sent is acknowledged. */
  ghost predicate AllAcked(x: Node, more: nat, window: nat) {
    && x.ep.state == ESTABLISHED
    && x.ep.snd.una == x.ep.snd.nxt == FULL && x.ep.snd.lbw + 1 == FULL + more && x.ep.snd.window == window
  }

  /** B's buffer is filled, without a VRead. */
  lemma Fills() returns (path: seq<System>)
    ensures IsPath(path)
    ensures var s := End(path);
      && s.a.loop.Running? && s.a.ep.state == ESTABLISHED && s.a.writer == Writing(Zeros(MAX_WIN_SIZE), MAX_WIN_SIZE, 0, false)
      && s.a.ep.snd.nxt == FULL == s.a.ep.snd.lbw + 1
      && WaitsAtFull(s.b, 0) && HasSegment(s.ab, 1) && AckSent(s.b, s.ba, FULL)
  {
    var p1 := Load(MAX_WIN_SIZE);
    path := Pump(p1, FULL);
  }

  lemma FullAck(x: Node, y: Node, xy: set<Packet>, yx: set<Packet>, p: Packet)
    requires Pair(x, y, xy, yx) && x.ep.WellFormed() && p in yx && IsAckOf(p, FULL) && p.window == 0
    requires x.ep.state == ESTABLISHED && x.ep.snd.nxt == FULL == x.ep.snd.lbw + 1 && x.ep.snd.una <= FULL
    ensures var (x', out) := DoReceive(x, p, 0.0);
      && AllAcked(x', 0, 0) && x' == x.(ep := x'.ep, stale := x'.stale) && out == []
  {
  }

  lemma Parks(x: Node)
    requires x.ep.WellFormed() && x.ep.state == ESTABLISHED && x.ep.snd.lbw < x.ep.snd.nxt
    ensures DoLoopStep(x) == (x.(loop := Parked), [])
  {
  }

  lemma LoopParks(path: seq<System>) returns (longer: seq<System>)
    requires IsPath(path) && End(path).a.loop.Running? && End(path).a.ep.state == ESTABLISHED
    requires End(path).a.ep.snd.lbw < End(path).a.ep.snd.nxt
    ensures IsPath(longer) && End(longer) == End(path).(a := End(path).a.(loop := Parked))
  {
    PathWellFormed(path);
    Parks(End(path).a);
    longer := GoA(path, LoopStep);
    assert End(path).ab + ToSet([]) == End(path).ab;
  }

  /** VWrite and the send loop have nothing left to do. */
  lemma Rests() returns (path: seq<System>)
    ensures IsPath(path)
    ensures var s := End(path);
      && s.a.loop.Parked? && s.a.ep.state == ESTABLISHED && s.a.writer.WriterIdle?
      && s.a.ep.snd.nxt == FULL == s.a.ep.snd.lbw + 1
      && WaitsAtFull(s.b, 0) && HasSegment(s.ab, 1) && AckSent(s.b, s.ba, FULL)
  {
    var p1 := Fills();
    var p2 := LoopParks(p1);
    path := QuietA(p2, WriteStep);
  }

  /** The ACK that closes the window arrives. */
  lemma WindowCloses() returns (path: seq<System>)
    ensures IsPath(path)
    ensures var s := End(path);
      && s.a.loop.Parked? && s.a.writer.WriterIdle? && AllAcked(s.a, 0, 0)
      && WaitsAtFull(s.b, 0) && HasSegment(s.ab, 1)
  {
    var p1 := Rests();
    var s := End(p1);
    PathPair(p1);
    var ack :| ack in s.ba && IsAckOf(ack, FULL) && ack.window == 0;
    FullAck(s.a, s.b, s.ab, s.ba, ack);
    path := GoA(p1, Receive(ack, 0.0));
    assert s.ab + ToSet([]) == s.ab;
  }

  lemma SentIsWritten(x: Node, y: Node, xy: set<Packet>, yx: set<Packet>)
    requires Pair(x, y, xy, yx) && x.ep.snd.lbw + 1 == FULL
    ensures NoneBeyond(xy)
  {
    forall p | p in xy && p.data != [] ensures p.seqNum <= FULL {
      assert PacketOk(x, y.ep.rcv, p) && DataOk(x, y.ep.rcv, p);
    }
  }

  /** The state of A and B when everything is delivered, B's buffer is full, and A has `more` bytes
      to send into a closed window. */
  ghost predicate Blocked(s: System, more: nat) {
    AllAcked(s.a, more, 0) && WaitsAtFull(s.b, 0) && HasSegment(s.ab, 1) && NoneBeyond(s.ab)
  }

  lemma CallsWrite() returns (path: seq<System>)
    ensures IsPath(path)
    ensures var s := End(path);
      s.a.loop.Parked? && s.a.writer == Writing(Zeros(2), 0, |s.a.written|, false) && Blocked(s, 0)
  {
    var p1 := WindowCloses();
    PathPair(p1);
    SentIsWritten(End(p1).a, End(p1).b, End(p1).ab, End(p1).ba);
    path := QuietA(p1, WriteCall(Zeros(2)));
  }

  lemma TwoFit(x: Node)
    requires SendOk(x) && x.ep.WellFormed() && AllAcked(x, 0, 0)
    requires x.writer == Writing(Zeros(2), 0, |x.written|, false)
    ensures var x' := DoWriteStep(x);
      AllAcked(x', 2, 0) && x'.loop == x.loop && x'.ep.snd.dataWritten
  {
  }

  lemma WritesTwo() returns (path: seq<System>)
    ensures IsPath(path)
    ensures End(path).a.loop.Running? && Blocked(End(path), 2)
  {
    var p1 := CallsWrite();
    PathPair(p1);
    TwoFit(End(p1).a);
    var p2 := QuietA(p1, WriteStep);
    path := QuietA(p2, WakeOnData);
  }

  lemma ProbeSent(x: Node)
    requires SendOk(x) && x.ep.WellFormed() && AllAcked(x, 2, 0)
    ensures var (x', out) := DoLoopStep(x);
      && x'.loop.ProbeWait? && AllAcked(x', 2, 0)
      && |out| == 1 && out[0].seqNum == FULL && |out[0].data| == 1 && !out[0].fin
  {
    assert Sub32(x.ep.snd.nxt, x.ep.snd.una) == 0;
  }

  /** A probe goes out and stays on its way. */
  lemma ProbeOut() returns (path: seq<System>, probe: Packet)
    ensures IsPath(path) && probe.seqNum == FULL && |probe.data| == 1 && !probe.fin
    ensures var s := End(path);
      && s.a.loop.ProbeWait? && AllAcked(s.a, 2, 0)
      && WaitsAtFull(s.b, 0) && HasSegment(s.ab, 1) && NoneBeyond(s.ab) && probe in s.ab
  {
    var p1 := WritesTwo();
    PathPair(p1);
    ProbeSent(End(p1).a);
    probe := DoLoopStep(End(p1).a).1[0];
    path := GoA(p1, LoopStep);
    assert ToSet(DoLoopStep(End(p1).a).1) == {probe};
    SegmentStays(End(p1).ab, {probe}, 1);
  }

  /** B reads ten bytes. */
  lemma ReadsTen() returns (path: seq<System>, probe: Packet)
    ensures IsPath(path) && probe.seqNum == FULL && |probe.data| == 1 && !probe.fin
    ensures var s := End(path);
      && s.a.loop.ProbeWait? && AllAcked(s.a, 2, 0)
      && WaitsAtFull(s.b, 10) && HasSegment(s.ab, 1) && NoneBeyond(s.ab) && probe in s.ab
  {
    var p1;
    p1, probe := ProbeOut();
    var p2 := QuietB(p1, ReadCall(10));
    PathPair(p2);
    path := QuietB(p2, ReadStep);
  }

  lemma OldDataAcked(y: Node, p: Packet)
    requires y.ep.WellFormed() && WaitsAtFull(y, 10) && p.data != [] && p.seqNum == 1 && !p.fin && |p.data| < WORD
    ensures var (y', out) := DoReceive(y, p, 0.0);
      && WaitsAtFull(y', 10) && |out| == 1 && IsAckOf(out[0], FULL) && out[0].window == 10
  {
  }

  /** The network repeats the first segment, and B acknowledges it with its new window. */
  lemma OldSegmentReturns() returns (path: seq<System>, probe: Packet, ack: Packet)
    ensures IsPath(path) && probe.seqNum == FULL && |probe.data| == 1 && !probe.fin
    ensures var s := End(path);
      && s.a.loop.ProbeWait? && AllAcked(s.a, 2, 0)
      && WaitsAtFull(s.b, 10) && NoneBeyond(s.ab) && probe in s.ab
      && ack in s.ba && IsAckOf(ack, FULL) && ack.window == 10
  {
    var p1;
    p1, probe := ReadsTen();
    var s := End(p1);
    PathPair(p1);
    var first :| first in s.ab && first.data != [] && first.seqNum == 1;
    assert PacketOk(s.a, s.b.ep.rcv, first) && DataOk(s.a, s.b.ep.rcv, first);
    OldDataAcked(s.b, first);
    ack := DoReceive(s.b, first, 0.0).1[0];
    path := GoB(p1, Receive(first, 0.0));
    assert ack in End(path).ba;
  }

  lemma WindowOpens(x: Node, p: Packet)
    requires x.ep.WellFormed() && AllAcked(x, 2, 0) && IsAckOf(p, FULL) && p.window == 10
    ensures var (x', out) := DoReceive(x, p, 0.0); AllAcked(x', 2, 10) && x'.loop == x.loop && out == []
  {
  }

  /** That ACK reopens A's window, and the probe timer wakes its loop. */
  lemma WindowReopens() returns (path: seq<System>, probe: Packet)
    ensures IsPath(path) && probe.seqNum == FULL && |probe.data| == 1 && !probe.fin
    ensures var s := End(path);
      && s.a.loop.Running? && AllAcked(s.a, 2, 10)
      && WaitsAtFull(s.b, 10) && NoneBeyond(s.ab) && probe in s.ab
  {
    var p1, ack;
    p1, probe, ack := OldSegmentReturns();
    PathWellFormed(p1);
    WindowOpens(End(p1).a, ack);
    var p2 := GoA(p1, Receive(ack, 0.0));
    assert End(p1).ab + ToSet([]) == End(p1).ab;
    path := QuietA(p2, ProbeTimer);
  }

  lemma NothingQueued(path: seq<System>)
    requires IsPath(path) && End(path).a.ep.snd.una == End(path).a.ep.snd.nxt
    ensures End(path).a.ep.rtx.queue == []
  {
    PathPair(path);
  }

  /** A sends both bytes in one segment. */
  lemma SendsLonger() returns (path: seq<System>, probe: Packet)
    ensures IsPath(path) && probe.seqNum == FULL && |probe.data| == 1 && !probe.fin
    ensures var s := End(path);
      && s.a.ep.state == ESTABLISHED && s.a.ep.snd.lbw == FULL + 1 && s.a.ep.snd.nxt == FULL + 2
      && s.a.ep.rtx.queue == [RtxEntry(FULL, 2, false, false, 0)]
      && WaitsAtFull(s.b, 10) && NoneBeyond(s.ab) && probe in s.ab
  {
    var p1;
    p1, probe := WindowReopens();
    NothingQueued(p1);
    var q;
    path, q := SendOnce(p1);
  }

  /** Now the probe arrives. It brings B one byte into the segment that A has just sent, and the
      connection, both sides open, is stuck for good: a reachable state of TcpStuck. */
  lemma StuckIsReachable() returns (path: seq<System>)
    ensures IsPath(path)
    ensures var s := End(path);
      s.a.ep.state == s.b.ep.state == ESTABLISHED && CutAtHead(s.a, s.b, s.ab)
  {
    var p1, probe := SendsLonger();
    path := TakeOnce(p1, probe);
    assert forall p :: p in End(path).ab && p.data != [] ==> p.seqNum != FULL + 1;
  }

  // ---- a lost wake-up ----

  /** First sequence number after one segment, and what a buffer that holds one can still take. */
  const SECOND: nat := 1 + MAX_SEG_SIZE
  const LESS: nat := MAX_WIN_SIZE - MAX_SEG_SIZE
  /** As much as fits A's buffer once the first segment is acknowledged. */
  const ENOUGH: nat := MAX_WIN_SIZE + MAX_SEG_SIZE

  /** B has the first segment, of which `unread` bytes are still in its buffer. */
  ghost predicate HasFirst(y: Node, unread: nat) {
    && y.ep.state == ESTABLISHED && y.reader.ReaderIdle?
    && y.ep.rcv.nxt == SECOND && y.ep.rcv.ring.size == unread
    && y.ep.rcv.heap == [] && y.ep.rcv.fin == 0
  }

  predicate IsFirst(p: Packet) {
    p.seqNum == 1 && |p.data| == MAX_SEG_SIZE && !p.fin
  }

  /** A has written up to lbw and sent the first segment, which is acknowledged. */
  ghost predicate FirstAcked(x: Node, lbw: nat) {
    && x.loop.Running? && x.ep.state == ESTABLISHED
    && x.ep.snd.una == x.ep.snd.nxt == SECOND && x.ep.snd.window == LESS && x.ep.snd.lbw == lbw
    && x.ep.snd.windowUpdated
  }

  lemma FirstTaken() returns (path: seq<System>, p: Packet)
    ensures IsPath(path) && IsFirst(p)
    ensures var s := End(path);
      && s.a.loop.Running? && s.a.ep.state == ESTABLISHED
      && s.a.writer == Writing(Zeros(ENOUGH), MAX_WIN_SIZE, 0, false)
      && s.a.ep.snd.una == 1 && s.a.ep.snd.nxt == SECOND && s.a.ep.snd.lbw == MAX_WIN_SIZE
      && HasFirst(s.b, MAX_SEG_SIZE) && p in s.ab && AckSent(s.b, s.ba, SECOND)
  {
    var p1 := Load(ENOUGH);
    var p2;
    p2, p := SendOnce(p1);
    path := TakeOnce(p2, p);
  }

  lemma FirstAck(x: Node, y: Node, xy: set<Packet>, yx: set<Packet>, ack: Packet)
    requires Pair(x, y, xy, yx) && x.ep.WellFormed() && ack in yx && IsAckOf(ack, SECOND) && ack.window == LESS
    requires x.loop.Running? && x.ep.state == ESTABLISHED
    requires x.ep.snd.una == 1 && x.ep.snd.nxt == SECOND && x.ep.snd.lbw == MAX_WIN_SIZE
    ensures var (x', out) := DoReceive(x, ack, 0.0);
      FirstAcked(x', MAX_WIN_SIZE) && x'.writer == x.writer && out == []
  {
  }

  lemma TakesFirstAck(path: seq<System>, ack: Packet) returns (longer: seq<System>)
    requires IsPath(path) && ack in End(path).ba && IsAckOf(ack, SECOND) && ack.window == LESS
    requires var x := End(path).a;
      && x.loop.Running? && x.ep.state == ESTABLISHED
      && x.ep.snd.una == 1 && x.ep.snd.nxt == SECOND && x.ep.snd.lbw == MAX_WIN_SIZE
    ensures IsPath(longer)
    ensures var s, s' := End(path), End(longer);
      FirstAcked(s'.a, MAX_WIN_SIZE) && s'.a.writer == s.a.writer && s'.b == s.b && s'.ab == s.ab
  {
    var s := End(path);
    PathPair(path);
    FirstAck(s.a, s.b, s.ab, s.ba, ack);
    longer := GoA(path, Receive(ack, 0.0));
    assert s.ab + ToSet([]) == s.ab;
  }

  lemma FirstIsAcked() returns (path: seq<System>, p: Packet)
    ensures IsPath(path) && IsFirst(p)
    ensures var s := End(path);
      && FirstAcked(s.a, MAX_WIN_SIZE) && s.a.writer == Writing(Zeros(ENOUGH), MAX_WIN_SIZE, 0, false)
      && HasFirst(s.b, MAX_SEG_SIZE) && p in s.ab
  {
    var p1;
    p1, p := FirstTaken();
    var ack :| ack in End(p1).ba && IsAckOf(ack, SECOND) && ack.window == LESS;
    path := TakesFirstAck(p1, ack);
  }

  lemma RestFits(x: Node)
    requires SendOk(x) && x.ep.WellFormed() && FirstAcked(x, MAX_WIN_SIZE)
    requires x.writer == Writing(Zeros(ENOUGH), MAX_WIN_SIZE, 0, false)
    ensures FirstAcked(DoWriteStep(x), ENOUGH)
  {
  }

  /** A fills its buffer again. */
  lemma WritesMore() returns (path: seq<System>, p: Packet)
    ensures IsPath(path) && IsFirst(p)
    ensures var s := End(path); FirstAcked(s.a, ENOUGH) && HasFirst(s.b, MAX_SEG_SIZE) && p in s.ab
  {
    var p1;
    p1, p := FirstIsAcked();
    PathPair(p1);
    RestFits(End(p1).a);
    path := QuietA(p1, WriteStep);
  }

  /** B reads all it has. */
  lemma WritesAndReads() returns (path: seq<System>, p: Packet)
    ensures IsPath(path) && IsFirst(p)
    ensures var s := End(path); FirstAcked(s.a, ENOUGH) && HasFirst(s.b, 0) && p in s.ab
  {
    var p1;
    p1, p := WritesMore();
    var p2 := QuietB(p1, ReadCall(MAX_SEG_SIZE));
    PathPair(p2);
    path := QuietB(p2, ReadStep);
  }

  lemma FirstRepeated(y: Node, p: Packet)
    requires y.ep.WellFormed() && HasFirst(y, 0) && IsFirst(p)
    ensures var (y', out) := DoReceive(y, p, 0.0);
      && y' == y.(stale := y'.stale)
      && |out| == 1 && IsAckOf(out[0], SECOND) && out[0].window == MAX_WIN_SIZE
  {
  }

  /** The network repeats the first segment; B's ACK of it tells of the whole buffer. */
  lemma FirstReturns() returns (path: seq<System>, ack: Packet)
    ensures IsPath(path) && IsAckOf(ack, SECOND) && ack.window == MAX_WIN_SIZE
    ensures var s := End(path); FirstAcked(s.a, ENOUGH) && HasFirst(s.b, 0) && ack in s.ba
  {
    var p1, p := WritesAndReads();
    PathWellFormed(p1);
    FirstRepeated(End(p1).b, p);
    ack := DoReceive(End(p1).b, p, 0.0).1[0];
    path := GoB(p1, Receive(p, 0.0));
    assert ack in End(path).ba;
  }

  /** A has sent what its window allows, and not all it has written. */
  ghost predicate WindowUsed(x: Node, loop: LoopPc, token: bool) {
    && x.loop == loop && x.ep.state == ESTABLISHED
    && x.ep.snd.una == SECOND && x.ep.snd.nxt == FULL && x.ep.snd.window == LESS && x.ep.snd.lbw == ENOUGH
    && x.ep.snd.windowUpdated == token
  }

  lemma WaitsForWindow(x: Node, token: bool)
    requires x.ep.WellFormed() && WindowUsed(x, Running, token)
    ensures DoLoopStep(x) == (x.(loop := WindowWait), []) && WindowUsed(x.(loop := WindowWait), WindowWait, token)
  {
  }

  lemma UsesWindow() returns (path: seq<System>, ack: Packet)
    ensures IsPath(path) && IsAckOf(ack, SECOND) && ack.window == MAX_WIN_SIZE
    ensures var s := End(path); WindowUsed(s.a, Running, true) && ack in s.ba
  {
    var p1;
    p1, ack := FirstReturns();
    path := Pump(p1, FULL);
  }

  lemma LoopWaits(path: seq<System>, token: bool) returns (longer: seq<System>)
    requires IsPath(path) && WindowUsed(End(path).a, Running, token)
    ensures IsPath(longer) && WindowUsed(End(longer).a, WindowWait, token) && End(longer).ba == End(path).ba
  {
    PathWellFormed(path);
    WaitsForWindow(End(path).a, token);
    longer := GoA(path, LoopStep);
  }

  /** The loop uses up its token and waits again. The ACK on its way opens the window and leaves
      the loop asleep: a reachable case of TcpTheorems.WindowWakeupIsLostExactly. */
  lemma WakeupIsLost() returns (path: seq<System>, ack: Packet)
    ensures IsPath(path)
    ensures var s := End(path);
      && ack in s.ba && TakenAsAck(s.a.ep, ack)
      && s.a.loop.WindowWait? && !s.a.ep.snd.windowUpdated
      && s.a.ep.WellFormed()
      && var x := DoReceive(s.a, ack, 0.0).0;
      x.loop.WindowWait? && WindowOpen(x.ep.snd) && !x.ep.snd.windowUpdated
  {
    var p1;
    p1, ack := UsesWindow();
    var p2 := LoopWaits(p1, true);
    var p3 := QuietA(p2, WakeOnWindow);
    path := LoopWaits(p3, false);
    PathWellFormed(path);
    assert FULL - SECOND == LESS;
  }

  // ---- a clogged heap ----

  lemma SecondSent() returns (path: seq<System>, p: Packet, q: Packet)
    ensures IsPath(path) && IsFirst(p) && q.seqNum == SECOND && |q.data| == 1 && !q.fin
    ensures var s := End(path); s.b == NewNode(1, 1) && p in s.ab && q in s.ab
  {
    var p1 := Load(SECOND);
    var p2;
    p2, p := SendOnce(p1);
    path, q := SendOnce(p2);
  }

  function AsArrival(p: Packet): EarlyArrival {
    EarlyArrival(p.seqNum, Add32(p.seqNum, |p.data| % WORD), p.data)
  }

  /** B has seen nothing but early arrivals. */
  ghost predicate OnlyEarly(y: Node, heap: Heap) {
    && y.ep.state == ESTABLISHED
    && y.ep.rcv.nxt == 1 && y.ep.rcv.ring.size == 0 && y.ep.rcv.fin == 0 && y.ep.rcv.heap == heap
  }

  lemma EarlyStored(y: Node, heap: Heap, q: Packet)
    requires y.ep.WellFormed() && OnlyEarly(y, heap) && q.seqNum == SECOND && |q.data| == 1 && !q.fin
    ensures OnlyEarly(DoReceive(y, q, 0.0).0, PushHeap(heap, AsArrival(q)))
  {
  }

  lemma StoresOnce(path: seq<System>, heap: Heap, q: Packet) returns (longer: seq<System>)
    requires IsPath(path) && OnlyEarly(End(path).b, heap) && q in End(path).ab
    requires q.seqNum == SECOND && |q.data| == 1 && !q.fin
    ensures IsPath(longer) && OnlyEarly(End(longer).b, PushHeap(heap, AsArrival(q))) && End(longer).ab == End(path).ab
  {
    PathWellFormed(path);
    EarlyStored(End(path).b, heap, q);
    longer := GoB(path, Receive(q, 0.0));
  }

  lemma TwoPushed(z: EarlyArrival)
    ensures PushHeap(PushHeap([], z), z) == [z, z]
  {
    assert PushHeap([], z) == Up([z], 0) == [z];
    assert PushHeap([z], z) == Up([z, z], 1) == [z, z];
  }

  lemma FirstDrains(y: Node, p: Packet, z: EarlyArrival)
    requires y.ep.WellFormed() && OnlyEarly(y, [z, z]) && IsFirst(p)
    requires z.startSeq == SECOND && |z.data| == 1
    ensures Clogged(DoReceive(y, p, 0.0).0.ep.rcv)
  {
    var e0 := y.ep.(rcv := Accept(y.ep.rcv, p.data));
    assert PopHeap([z, z]) == [z];
    assert Drain(e0) == Drain(DrainOne(e0));
    assert DrainOne(e0).rcv.nxt == SECOND + 1;
  }

  /** The second segment arrives twice, then the first: the heap is clogged for good. */
  lemma CloggedIsReachable() returns (path: seq<System>)
    ensures IsPath(path) && Clogged(End(path).b.ep.rcv)
  {
    var p1, p, q := SecondSent();
    var p2 := StoresOnce(p1, [], q);
    var p3 := StoresOnce(p2, PushHeap([], AsArrival(q)), q);
    TwoPushed(AsArrival(q));
    PathWellFormed(p3);
    FirstDrains(End(p3).b, p, AsArrival(q));
    path := GoB(p3, Receive(p, 0.0));
  }
}
