/** What each operation does in a reachable state, in terms of pointers, states and stream bytes:
    how it moves the connection on, and not only what it keeps. */
module TcpEffects {
  import opened Words
  import opened CircleBuffers
  import opened TcpSpec
  import opened TcpNetwork
  import opened TcpInvariant
  import opened TcpSteps
  import opened TcpTheorems
  import opened TcpPaths
  import opened TcpStuck

  // ---- a new connection ----

  /** initBufs: nothing sent, received or measured yet, a full window either way, and one second
      to the first retransmission. */
  lemma FreshConnection(iss: uint32, irs: uint32)
    requires 0 < iss && 0 < irs
    ensures var e := NewEndpoint(iss, irs);
      && e.state == ESTABLISHED && e.seqNum == e.snd.una == e.snd.nxt == e.snd.lbw + 1 == iss
      && e.rcv.nxt == e.rcv.lbr + 1 == irs && e.rcv.fin == 0 && e.rcv.heap == []
      && e.snd.ring.Contents() == [] && e.rcv.ring.Contents() == []
      && e.snd.window == 65535 && e.rcv.AvailableWindow() == 65535 && !e.snd.isProbing
      && e.rtx == Rtx([], false, 1000.0, 0.0)
  {
  }

  // ---- retransmission ----

  /** What a retransmission puts on the network: the whole head, as it was sent. */
  ghost predicate ResendsHead(x: Node, out: seq<Packet>)
    requires x.ep.rtx.queue != []
  {
    var h := x.ep.rtx.queue[0];
    && |out| == 1 && out[0].seqNum == h.seqNum && out[0].fin == h.fin && |out[0].data| == h.len
    && (h.seqNum == x.ep.snd.una && !h.fin ==> TrueBytes(x, h.seqNum, out[0].data))
  }

  lemma HeadBytes(x: Node)
    requires SendOk(x) && x.ep.WellFormed() && x.ep.rtx.queue != []
    requires var h := x.ep.rtx.queue[0]; h.seqNum == x.ep.snd.una && !h.fin
    ensures var h := x.ep.rtx.queue[0];
      && h.seqNum - x.iss + h.len <= |x.written|
      && x.ep.snd.ring.SliceFrom(h.seqNum, h.len) == x.written[h.seqNum - x.iss..h.seqNum - x.iss + h.len]
  {
    var q := x.ep.rtx.queue;
    var r := x.ep.snd.ring;
    assert TileAt(q, 0, x.iss, x.ep.snd.nxt);
    TileBound(q, x.iss, x.ep.snd.nxt, 0);
    assert Add32(r.base, 0) == q[0].seqNum;
    SliceOfLiveRange(r, 0, q[0].len);
  }

  lemma Resends(x: Node)
    requires SendOk(x) && x.ep.WellFormed() && x.ep.rtx.queue != [] && x.ep.rtx.queue[0].numRetransmits < 4
    ensures ResendsHead(x, DoRtoFires(x).1)
  {
    var h := x.ep.rtx.queue[0];
    if h.seqNum == x.ep.snd.una && !h.fin {
      HeadBytes(x);
    }
  }

  /** The head after one more retransmission. */
  function Marked(h: RtxEntry): RtxEntry {
    RtxEntry(h.seqNum, h.len, h.fin, true, h.numRetransmits + 1)
  }

  lemma TimeoutEffect(x: Node)
    requires x.ep.WellFormed() && x.ep.rtx.queue != []
    ensures var q := x.ep.rtx.queue; var (x', out) := DoRtoFires(x);
      && x' == x.(ep := x.ep.(state := x'.ep.state, rtx := x'.ep.rtx))
      && x'.ep.rtx.queue == [Marked(q[0])] + q[1..] && x'.ep.rtx.srtt == x.ep.rtx.srtt
      && (if q[0].numRetransmits < 4 then
            && x'.ep.state == x.ep.state && x'.ep.rtx.timerArmed
            && x'.ep.rtx.rto == (if 2.0 * x.ep.rtx.rto <= 5000.0 then 2.0 * x.ep.rtx.rto else 5000.0)
          else
            out == [] && x'.ep.state == CLOSED && !x'.ep.rtx.timerArmed && x'.ep.rtx.rto == x.ep.rtx.rto)
  {
  }

  /** When the timer fires, the first four times for a head send exactly that segment again, mark
      it for Karn's algorithm, double the timeout up to five seconds and restart the timer. The
      fifth sends nothing and closes. Nothing else changes. */
  lemma RetransmissionIsExact(s: System, x: Node, y: Node, xy: set<Packet>, yx: set<Packet>)
    requires Reachable(s) && Sides(s, x, y, xy, yx) && x.ep.WellFormed() && x.ep.rtx.timerArmed
    ensures var q := x.ep.rtx.queue; q != [] && var (x', out) := DoRtoFires(x);
      && x' == x.(ep := x.ep.(state := x'.ep.state, rtx := x'.ep.rtx))
      && x'.ep.rtx.queue == [Marked(q[0])] + q[1..] && x'.ep.rtx.srtt == x.ep.rtx.srtt
      && (if q[0].numRetransmits < 4 then
            && ResendsHead(x, out) && x'.ep.state == x.ep.state && x'.ep.rtx.timerArmed
            && x'.ep.rtx.rto == (if 2.0 * x.ep.rtx.rto <= 5000.0 then 2.0 * x.ep.rtx.rto else 5000.0)
          else
            out == [] && x'.ep.state == CLOSED && !x'.ep.rtx.timerArmed && x'.ep.rtx.rto == x.ep.rtx.rto)
  {
    ReachablePair(s, x, y, xy, yx);
    TimeoutEffect(x);
    if x.ep.rtx.queue[0].numRetransmits < 4 {
      Resends(x);
    }
  }

  /** A receiver that waits for the head and has room gains bytes from the retransmission. */
  lemma RetransmissionIsTaken(s: System, x: Node, y: Node, xy: set<Packet>, yx: set<Packet>)
    requires Reachable(s) && Sides(s, x, y, xy, yx) && x.ep.WellFormed() && y.ep.WellFormed()
    requires x.ep.rtx.timerArmed && x.ep.rtx.queue != []
    requires var h := x.ep.rtx.queue[0]; h.numRetransmits < 4 && !h.fin && y.ep.rcv.nxt == h.seqNum
    requires OpenForData(y.ep.state) && y.ep.rcv.ring.size < 65535
    ensures var out := DoRtoFires(x).1;
      out != [] && |out[0].data| < WORD && Received(DoReceive(y, out[0], 0.0).0) > Received(y)
  {
    ReachablePair(s, x, y, xy, yx);
    RetransmissionIsExact(s, x, y, xy, yx);
    var h := x.ep.rtx.queue[0];
    HeadIsData(x);
    SegmentTaken(y, DoRtoFires(x).1[0]);
  }

  lemma HeadIsData(x: Node)
    requires SendOk(x) && x.ep.rtx.queue != [] && !x.ep.rtx.queue[0].fin
    ensures 1 <= x.ep.rtx.queue[0].len <= 1360
  {
    assert TileAt(x.ep.rtx.queue, 0, x.iss, x.ep.snd.nxt);
  }

  /** Only RTT samples and timeouts change the retransmission timeout. */
  lemma OthersKeepRto(x: Node, inbox: set<Packet>, act: Action)
    requires Steppable(x, inbox, act) && !act.RtoFires? && !act.Receive?
    ensures Act(x, act).0.ep.rtx.rto == x.ep.rtx.rto && Act(x, act).0.ep.rtx.srtt == x.ep.rtx.srtt
  {
  }

  // ---- ACKs ----

  function Max(m: int, n: int): int {
    if m <= n then n else m
  }

  /** An ACK of new data frees VWrite and the send loop; one that closes the window on unsent data
      also has the loop start to probe. */
  ghost predicate WakesSender(s: Snd, s': Snd, window: uint16) {
    && s'.spaceAvailable && s'.windowUpdated && s'.dataWritten == s.dataWritten
    && (if window == 0 && s.nxt <= s.lbw && !s.isProbing then s'.isProbing && s'.zwpTrigger
        else s'.isProbing == s.isProbing && s'.zwpTrigger == s.zwpTrigger)
  }

  lemma NewAckEffect(e: Endpoint, p: Packet, rtt: real)
    requires e.WellFormed() && e.snd.una < p.ackNum <= e.snd.nxt && p.ack && p.data == [] && !p.fin
    requires e.state == ESTABLISHED || e.state == CLOSE_WAIT || e.state == FIN_WAIT_1
    ensures var e' := HandleTcp(e, p, rtt).0;
      && e'.snd.una == p.ackNum && e'.snd.nxt == e.snd.nxt && e'.snd.lbw == e.snd.lbw && e'.snd.window == p.window
      && WakesSender(e.snd, e'.snd, p.window)
      && e'.rtx == AckQueue(e.rtx, p.ackNum, rtt)
  {
  }

  lemma PureAckEffect(e: Endpoint, p: Packet, rtt: real)
    requires e.WellFormed() && e.snd.una <= e.snd.nxt && e.snd.nxt + 1 < WORD && e.seqNum == e.snd.nxt
    requires p.ackNum <= e.snd.nxt || (p.ackNum == e.snd.nxt + 1 && e.snd.isProbing)
    ensures var e' := HandlePureAck(e, p, rtt);
      && e'.rcv == e.rcv && e'.snd.window == p.window
      && e'.snd.una == Max(e.snd.una, p.ackNum) && e'.snd.nxt == Max(e.snd.nxt, p.ackNum)
      && e'.snd.lbw == e.snd.lbw && e'.seqNum == e'.snd.nxt
      && (p.ackNum <= e.snd.una ==> e' == e.(snd := e.snd.(window := p.window)))
      && (p.ackNum > e.snd.una && e.state != LAST_ACK ==> e'.snd.spaceAvailable && e'.snd.windowUpdated)
  {
  }

  /** Every ACK in flight that is processed sets the window it names and moves una and nxt no
      further than it says; it sends nothing and leaves the receiving half alone. A duplicate
      changes nothing but the window. */
  lemma AckIsTaken(s: System, x: Node, y: Node, xy: set<Packet>, yx: set<Packet>, p: Packet, rtt: real)
    requires Reachable(s) && Sides(s, x, y, xy, yx) && x.ep.WellFormed() && p in yx && TakenAsAck(x.ep, p)
    ensures var (e, out) := HandleTcp(x.ep, p, rtt);
      && out == [] && e.rcv == x.ep.rcv && e.snd.window == p.window
      && e.snd.una == Max(x.ep.snd.una, p.ackNum) && e.snd.nxt == Max(x.ep.snd.nxt, p.ackNum)
      && e.snd.lbw == x.ep.snd.lbw && e.seqNum == e.snd.nxt
      && (p.ackNum <= x.ep.snd.una ==> e == x.ep.(snd := x.ep.snd.(window := p.window)))
      && (p.ackNum > x.ep.snd.una && x.ep.state != LAST_ACK ==> e.snd.spaceAvailable && e.snd.windowUpdated)
  {
    ReachablePair(s, x, y, xy, yx);
    AckInRange(x, y, xy, yx, p);
    PureAckEffect(x.ep, p, rtt);
    assert HandleTcp(x.ep, p, rtt) == (HandlePureAck(x.ep, p, rtt), []);
  }

  // ---- closing ----

  /** VWrite and VClose are open exactly until this side has sent its FIN or is closed. */
  lemma RefusedMeansClosing(s: System, x: Node, y: Node, xy: set<Packet>, yx: set<Packet>)
    requires Reachable(s) && Sides(s, x, y, xy, yx)
    ensures MayWrite(x.ep.state) <==> x.ep.state != CLOSED && !FinSent(x.ep.snd)
  {
    ReachablePair(s, x, y, xy, yx);
  }

  /** VClose sends the FIN when all that was written has been acknowledged, not before: one FIN
      after the last byte, queued for retransmission, with the state that goes with it. */
  lemma FinIsSent(s: System, x: Node, y: Node, xy: set<Packet>, yx: set<Packet>)
    requires Reachable(s) && Sides(s, x, y, xy, yx) && x.ep.WellFormed() && x.writer.Closing?
    requires x.ep.state != CLOSED
    ensures var (x', out) := DoClosePoll(x); var d := x.ep.snd;
      if d.una == d.lbw + 1 then
        && d.lbw + 2 < WORD
        && |out| == 1 && out[0].fin && out[0].data == [] && out[0].seqNum == d.lbw + 1
        && x'.ep.state == (if x.ep.state == ESTABLISHED then FIN_WAIT_1 else LAST_ACK)
        && x'.ep.rtx.queue == [RtxEntry(d.lbw + 1, 0, true, false, 0)] && x'.ep.rtx.timerArmed
        && x'.ep.snd == d.(nxt := d.lbw + 2) && x'.writer.WriterIdle?
      else x' == x && out == []
  {
    ReachablePair(s, x, y, xy, yx);
  }

  /** Until its FIN is acknowledged a side waits for exactly that; the ACK of it moves the
      connection on. */
  lemma FinAckMovesOn(s: System, x: Node, y: Node, xy: set<Packet>, yx: set<Packet>, p: Packet, rtt: real)
    requires Reachable(s) && Sides(s, x, y, xy, yx) && x.ep.WellFormed()
    requires x.ep.state == FIN_WAIT_1 || x.ep.state == LAST_ACK
    ensures x.ep.snd.una == x.ep.snd.lbw + 1 && x.ep.snd.nxt == x.ep.snd.lbw + 2
    ensures p in yx && TakenAsAck(x.ep, p) ==>
      HandleTcp(x.ep, p, rtt).0.state ==
        if p.ackNum < x.ep.snd.lbw + 2 then x.ep.state
        else if x.ep.state == FIN_WAIT_1 then FIN_WAIT_2 else CLOSED
  {
    ReachablePair(s, x, y, xy, yx);
    if p in yx && TakenAsAck(x.ep, p) {
      AckInRange(x, y, xy, yx, p);
    }
  }

  /** The state after the peer's FIN. */
  function AfterFin(st: TcpState): TcpState {
    if st == ESTABLISHED then CLOSE_WAIT else TIME_WAIT
  }

  /** Every FIN that reaches an open receiver is acknowledged, the first time and again: exactly
      one pure ACK of all that was received, with the free space. The first one takes the state
      on and wakes a reader that it leaves in CLOSE_WAIT. */
  lemma FinIsAcked(s: System, x: Node, y: Node, xy: set<Packet>, yx: set<Packet>, p: Packet, rtt: real)
    requires Reachable(s) && Sides(s, x, y, xy, yx) && y.ep.WellFormed() && p in xy && p.fin
    requires OpenForData(y.ep.state) || y.ep.state == CLOSE_WAIT
    ensures p.data == [] && var (e, out) := HandleTcp(y.ep, p, rtt);
      && |out| == 1 && IsAckOf(out[0], e.rcv.nxt) && out[0].window == 65535 - e.rcv.ring.size
      && e.rcv.ring == y.ep.rcv.ring && e.snd == y.ep.snd
      && (if p.seqNum == y.ep.rcv.nxt then
            && e.rcv.nxt == y.ep.rcv.nxt + 1 && e.state == AfterFin(y.ep.state)
            && (e.state == CLOSE_WAIT ==> e.rcv.dataToRead)
          else e.rcv.nxt == y.ep.rcv.nxt && e.state == y.ep.state)
  {
    ReachablePair(s, x, y, xy, yx);
    assert PacketOk(x, y.ep.rcv, p);
    FinIsNotEarly(x, y, xy, yx, p);
    if p.seqNum == y.ep.rcv.nxt {
      FinAtNxt(x, y, xy, yx, p);
    }
  }

  lemma FinAtNxt(x: Node, y: Node, xy: set<Packet>, yx: set<Packet>, p: Packet)
    requires Pair(x, y, xy, yx) && p in xy && p.fin && p.seqNum == y.ep.rcv.nxt
    ensures y.ep.state != CLOSE_WAIT && y.ep.rcv.nxt + 1 < WORD
  {
    assert PacketOk(x, y.ep.rcv, p);
  }

  /** But in TIME_WAIT, and once closed, everything is dropped: a peer whose FIN was acknowledged
      by a lost ACK is not answered again. */
  lemma ClosedSideIsSilent(e: Endpoint, p: Packet, rtt: real)
    requires e.WellFormed() && |p.data| < WORD && (e.state == TIME_WAIT || e.state == CLOSED)
    ensures HandleTcp(e, p, rtt) == (e, [])
  {
  }

  /** In LAST_ACK only ACKs count, and in no state does a segment with neither ACK, FIN nor data. */
  lemma OnlyAcksInLastAck(e: Endpoint, p: Packet, rtt: real)
    requires e.WellFormed() && |p.data| < WORD
    ensures e.state == LAST_ACK && (p.data != [] || !p.ack) ==> HandleTcp(e, p, rtt) == (e, [])
    ensures !p.ack && !p.fin && p.data == [] ==> HandleTcp(e, p, rtt) == (e, [])
  {
  }

  lemma TimeWaitEnds(x: Node)
    requires x.ep.WellFormed() && x.ep.state == TIME_WAIT
    requires x.writer.Writing? ==> x.writer.total <= |x.writer.data|
    ensures Act(x, TimeWaitExpires) == (x.(ep := x.ep.(state := CLOSED)), [])
  {
  }

  /** The two ways to handle a FIN agree: one that came early is only remembered, and a
      remembered FIN is handled, when the data before it is there, as if it came then. */
  lemma EarlyFinIsHandledLater(e: Endpoint, p: Packet)
    requires e.WellFormed()
    ensures p.seqNum > e.rcv.nxt ==> HandleFin(e, p) == (e.(rcv := e.rcv.(fin := p.seqNum)), [])
    ensures HandleEarlyFin(e) ==
      if e.rcv.fin != 0 && e.rcv.fin == e.rcv.nxt then HandleFin(e, Packet(e.rcv.fin, 0, true, true, 0, [])) else (e, [])
  {
  }

  // ---- sending ----

  lemma SegmentBytes(x: Node)
    requires SendOk(x) && x.ep.WellFormed() && x.ep.snd.una == x.ep.snd.nxt <= x.ep.snd.lbw
    ensures TrueBytes(x, x.ep.snd.una, x.ep.snd.ring.SliceFrom(x.ep.snd.una, 1))
  {
    var r := x.ep.snd.ring;
    assert Add32(r.base, 0) == x.ep.snd.una;
    SliceOfLiveRange(r, 0, 1);
  }

  /** The send loop idles: everything is sent. */
  lemma LoopParks(x: Node)
    requires x.ep.WellFormed() && x.ep.snd.lbw < x.ep.snd.nxt
    ensures DoLoopStep(x) == (x.(loop := if x.ep.state == CLOSED then Exited else Parked), [])
  {
  }

  /** The window is used up: with nothing in flight and a window of zero the loop sends the next
      byte as a probe and waits, else it just waits. */
  lemma LoopProbesOrWaits(x: Node)
    requires SendOk(x) && x.ep.WellFormed() && x.ep.snd.nxt <= x.ep.snd.lbw
    requires x.ep.snd.una + x.ep.snd.window <= x.ep.snd.nxt
    ensures var (x', out) := DoLoopStep(x); var d := x.ep.snd;
      if d.window == 0 && d.una == d.nxt then
        && x' == x.(loop := ProbeWait, ep := x.ep.(snd := d.(isProbing := true)))
        && |out| == 1 && out[0].seqNum == d.nxt && |out[0].data| == 1 && !out[0].fin
        && TrueBytes(x, d.nxt, out[0].data)
      else x' == x.(loop := WindowWait) && out == []
  {
    assert Sub32(x.ep.snd.nxt, x.ep.snd.una) == x.ep.snd.nxt - x.ep.snd.una;
    if x.ep.snd.window == 0 && x.ep.snd.una == x.ep.snd.nxt {
      SegmentBytes(x);
    }
  }

  /** Else it sends the next bytes, as many as are written, the window lets it and a segment
      holds, and queues them unmarked; the timer runs. */
  lemma LoopSends(x: Node)
    requires NodeOk(x) && x.ep.WellFormed() && x.loop.Running? && x.ep.state != CLOSED
    requires x.ep.snd.nxt <= x.ep.snd.lbw && x.ep.snd.nxt < x.ep.snd.una + x.ep.snd.window
    ensures var (x', out) := DoLoopStep(x); var d := x.ep.snd;
      var n := Min(Min(d.lbw + 1 - d.nxt, d.una + d.window - d.nxt), 1360);
      && 1 <= n && |out| == 1 && out[0].seqNum == d.nxt && |out[0].data| == n && !out[0].fin
      && TrueBytes(x, d.nxt, out[0].data)
      && d.nxt + n < WORD && x'.ep.snd == d.(nxt := d.nxt + n, isProbing := false) && x'.ep.seqNum == d.nxt + n
      && x'.ep.rtx == x.ep.rtx.(queue := x.ep.rtx.queue + [RtxEntry(d.nxt, n, false, false, 0)], timerArmed := true)
      && x' == x.(ep := x.ep.(snd := x'.ep.snd, rtx := x'.ep.rtx, seqNum := x'.ep.seqNum))
  {
    assert Sub32(x.ep.snd.nxt, x.ep.snd.una) == x.ep.snd.nxt - x.ep.snd.una;
    SendableBounds(x);
  }

  // ---- packets ----

  /** Every packet acknowledges what its sender has received and offers its free space. */
  predicate Stamped(e: Endpoint, p: Packet) {
    p.ack && p.ackNum == e.rcv.nxt && p.window == 65535 - e.rcv.ring.size
  }

  lemma {:induction false} DrainStamps(e: Endpoint)
    requires e.WellFormed()
    ensures var (e', out) := Drain(e); forall p :: p in out ==> Stamped(e', p) && p.seqNum == e.seqNum
    ensures Drain(e).0.seqNum == e.seqNum
    decreases |e.rcv.heap|
  {
    if e.rcv.heap != [] && CanDrain(e.rcv) {
      DrainStamps(DrainOne(e));
    }
  }

  lemma ReceiveStamps(e: Endpoint, p: Packet, rtt: real)
    requires e.WellFormed() && |p.data| < WORD
    ensures var (e', out) := HandleTcp(e, p, rtt);
      forall q :: q in out ==> Stamped(e', q) && q.seqNum == e.seqNum && q.data == [] && !q.fin
  {
    if p.data != [] && p.seqNum == e.rcv.nxt && e.rcv.ring.FreeSpace() > 0 {
      var e0 := e.(rcv := Accept(e.rcv, Fitting(p.data, e.rcv.ring.FreeSpace())));
      DrainStamps(e0);
      DrainAcksOnly(e0);
    }
  }

  lemma {:induction false} DrainAcksOnly(e: Endpoint)
    requires e.WellFormed()
    ensures forall p :: p in Drain(e).1 ==> p.data == [] && !p.fin
    decreases |e.rcv.heap|
  {
    if e.rcv.heap != [] && CanDrain(e.rcv) {
      DrainAcksOnly(DrainOne(e));
    }
  }

  lemma EveryPacketIsStamped(x: Node, inbox: set<Packet>, act: Action)
    requires Steppable(x, inbox, act)
    ensures var (x', out) := Act(x, act); forall q :: q in out ==> Stamped(x'.ep, q)
  {
    if act.Receive? {
      ReceiveStamps(x.ep, act.packet, act.rtt);
    }
  }

  // ---- the application ----

  /** A pass of VWrite that finds room copies as much as fits, none is skipped; it blocks only on
      a full buffer and returns only when all is copied. */
  lemma WritePassAppends(x: Node)
    requires x.ep.WellFormed() && x.writer.Writing?
    requires x.writer.total <= |x.writer.data|
    ensures var x' := DoWriteStep(x); var w := x.writer; var left := |w.data| - w.total; var space := 65535 - x.ep.snd.ring.size;
      if left == 0 then x' == x.(writer := WriterIdle)
      else if space == 0 then x' == x.(writer := w.(blocked := true))
      else
        var n := Min(left, space);
        && x'.written == x.written + w.data[w.total..w.total + n] && x'.writer == w.(total := w.total + n)
        && x'.ep.snd.dataWritten
  {
  }

  /** A pass of VRead returns the next bytes, as many as there are and fit; with none there it
      reports the end exactly in CLOSE_WAIT, and else waits. */
  lemma ReadPassReturns(s: System, x: Node, y: Node, xy: set<Packet>, yx: set<Packet>)
    requires Reachable(s) && Sides(s, x, y, xy, yx) && y.ep.WellFormed() && y.reader.Reading?
    ensures var y' := DoReadStep(y); var size := y.ep.rcv.ring.size;
      if size == 0 then
        if y.ep.state == CLOSE_WAIT then y' == y.(reader := ReaderIdle, eof := true)
        else y' == y.(reader := y.reader.(blocked := true))
      else
        var n := Min(y.reader.max, size);
        && n <= |y.ep.rcv.ring.Contents()| && y'.read == y.read + y.ep.rcv.ring.Contents()[..n]
        && y'.ep.rcv.ring.size == size - n && y'.reader.ReaderIdle? && y'.eof == y.eof
        && y'.ep == y.ep.(rcv := y'.ep.rcv) && y'.ep.rcv.nxt == y.ep.rcv.nxt
  {
    ReachablePair(s, x, y, xy, yx);
    var r := y.ep.rcv;
    if r.ring.size > 0 {
      assert Add32(r.ring.base, 0) == Add32(r.lbr, 1);
      SliceOfLiveRange(r.ring, 0, Min(y.reader.max, r.ring.size));
    }
  }

  /** A call is taken in the states that allow it, and otherwise refused without effect. */
  lemma CallsAreTaken(x: Node, data: seq<byte>, max: nat)
    ensures var open := MayWrite(x.ep.state);
      && Call(x, WriteCall(data)) == (if open then x.(writer := Writing(data, 0, |x.written|, false)) else x)
      && Call(x, ReadCall(max)) == (if open then x.(reader := Reading(max, false)) else x)
      && Call(x, CloseCall) == (if open then x.(writer := Closing) else x)
  {
  }

  /** Bytes that get in wake the reader. */
  lemma DataWakesReader(e: Endpoint, p: Packet, rtt: real)
    requires e.WellFormed() && 0 < |p.data| < WORD && !p.fin && p.seqNum == e.rcv.nxt && e.rcv.ring.size < 65535
    requires OpenForData(e.state) || e.state == CLOSE_WAIT
    ensures HandleTcp(e, p, rtt).0.rcv.dataToRead
  {
  }

  /** Taking a token uses it up. */
  lemma WakeUsesToken(x: Node)
    ensures !Wake(x, WakeOnData).ep.snd.dataWritten && !Wake(x, WakeOnZwp).ep.snd.zwpTrigger
    ensures !Wake(x, WakeOnWindow).ep.snd.windowUpdated
    ensures x.writer.Writing? ==> !Wake(x, WriteWake).ep.snd.spaceAvailable
    ensures x.reader.Reading? ==> !Wake(x, ReadWake).ep.rcv.dataToRead
  {
  }

  // ---- the end of the stream is reported ----

  lemma ReadsAll(path: seq<System>) returns (longer: seq<System>)
    requires IsPath(path) && End(path).b.ep.state == CLOSE_WAIT && End(path).b.ep.rcv.ring.size > 0
    ensures IsPath(longer) && path <= longer
    ensures var s, s' := End(path), End(longer);
      && s'.b.ep.state == CLOSE_WAIT && s'.b.ep.rcv.ring.size < s.b.ep.rcv.ring.size && s'.b.reader.ReaderIdle?
  {
    longer := path;
    if End(longer).b.reader.Reading? {
      longer := ReadEnds(longer);
    }
    if End(longer).b.ep.rcv.ring.size == End(path).b.ep.rcv.ring.size {
      var p1 := ReadCalled(longer);
      longer := ReadEnds(p1);
    }
  }

  /** A VRead is called, or one that waits is woken. */
  lemma ReadRuns(path: seq<System>) returns (longer: seq<System>)
    requires IsPath(path) && End(path).b.ep.state == CLOSE_WAIT
    ensures IsPath(longer) && path <= longer
    ensures var y, y' := End(path).b, End(longer).b;
      && y'.ep.state == CLOSE_WAIT && y'.ep.rcv.ring.size == y.ep.rcv.ring.size
      && y'.reader.Reading? && !y'.reader.blocked
  {
    longer := path;
    if End(path).b.reader.ReaderIdle? {
      longer := ReadCalled(path);
    } else if End(path).b.reader.blocked {
      PathPair(path);
      longer := GoB(path, ReadWake);
    }
  }

  lemma ReportsEof(path: seq<System>) returns (longer: seq<System>)
    requires IsPath(path) && End(path).b.ep.state == CLOSE_WAIT && End(path).b.ep.rcv.ring.size == 0
    ensures IsPath(longer) && path <= longer && End(longer).b.eof
  {
    var p1 := ReadRuns(path);
    PathWellFormed(p1);
    longer := GoB(p1, ReadStep);
  }

  /** From every reachable state in CLOSE_WAIT, VRead can go on to return all that is buffered and
      then io.EOF. */
  lemma {:induction false} EofIsReported(path: seq<System>) returns (longer: seq<System>)
    requires IsPath(path) && End(path).b.ep.state == CLOSE_WAIT
    ensures IsPath(longer) && path <= longer && End(longer).b.eof
    decreases End(path).b.ep.rcv.ring.size
  {
    if End(path).b.ep.rcv.ring.size == 0 {
      longer := ReportsEof(path);
    } else {
      var p1 := ReadsAll(path);
      longer := EofIsReported(p1);
    }
  }
}
