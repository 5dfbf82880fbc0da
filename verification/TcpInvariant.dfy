/** The invariant of every reachable connection state, stated half by half. */
module TcpInvariant {
  import opened Words
  import opened CircleBuffers
  import opened EarlyArrivalHeap
  import opened TcpSpec
  import opened TcpNetwork

  /** Our FIN has been sent: it takes the sequence number after the last byte written. */
  predicate FinSent(s: Snd) {
    s.nxt == s.lbw + 2
  }

  /** The peer's FIN has been consumed: nxt is one past the last byte received. */
  predicate FinConsumed(r: Rcv) {
    r.nxt == r.lbr + r.ring.size + 2
  }

  // ---- the sending half ----

  /** Entry i is a data segment and ends where the next one, or nxt, begins. */
  ghost predicate TileAt(q: seq<RtxEntry>, i: nat, iss: nat, nxt: nat)
    requires i < |q|
  {
    && iss <= q[i].seqNum && 1 <= q[i].len <= MAX_SEG_SIZE && !q[i].fin
    && q[i].seqNum + q[i].len == if i + 1 < |q| then q[i + 1].seqNum else nxt
  }

  /** Entries are contiguous data segments and the last one ends at nxt. */
  ghost predicate DataTiled(q: seq<RtxEntry>, iss: nat, nxt: nat) {
    forall i: nat :: i < |q| ==> TileAt(q, i, iss, nxt)
  }

  ghost predicate HeadCovers(q: seq<RtxEntry>, una: nat) {
    q != [] ==> q[0].seqNum <= una < q[0].seqNum + q[0].len
  }

  /** The retransmission queue tiles the flight; a FIN stands alone in it and counts as one unit. */
  ghost predicate Tiled(s: Snd, q: seq<RtxEntry>, iss: nat) {
    && (q == [] <==> s.una == s.nxt)
    && (!FinSent(s) ==> DataTiled(q, iss, s.nxt) && HeadCovers(q, s.una))
    && (FinSent(s) && q != [] ==>
          |q| == 1 && q[0].seqNum == s.una == s.nxt - 1 && q[0].len == 0 && q[0].fin)
  }

  /** The ring holds exactly the unacknowledged suffix of what was written. */
  ghost predicate SendOk(x: Node) {
    var s := x.ep.snd;
    && s.ring.Valid()
    && 0 < x.iss <= s.una <= s.nxt
    && s.lbw + 1 == x.iss + |x.written| && s.lbw + 4 <= WORD
    && (s.nxt <= s.lbw + 1 || FinSent(s))
    && s.ring.base == Min(s.una, s.lbw + 1)
    && s.ring.size == s.lbw + 1 - s.ring.base
    && s.ring.Contents() == x.written[s.ring.base - x.iss..]
    && x.ep.seqNum == s.nxt
    && Tiled(s, x.ep.rtx.queue, x.iss)
  }

  // ---- one direction of the connection ----

  /** A probe of the byte at nxt may be under way. */
  predicate Probing(x: Node) {
    var s := x.ep.snd;
    s.isProbing && s.una == s.nxt && x.ep.rtx.queue == [] && s.nxt <= s.lbw
  }

  /** The bytes are the written stream at their sequence number. */
  ghost predicate TrueBytes(x: Node, seqNum: nat, data: seq<byte>) {
    && x.iss <= seqNum && seqNum - x.iss + |data| <= |x.written|
    && x.written[seqNum - x.iss..seqNum - x.iss + |data|] == data
  }

  /** First sequence number the receiver has no room for. */
  function RightEdge(r: Rcv): int {
    r.lbr + 1 + MAX_WIN_SIZE
  }

  /** A data segment starts below the receiver's nxt or carries the written stream; only a probe
      reaches past nxt. Unless a stale ACK was processed, only probes reach past the window. */
  ghost predicate DataOk(x: Node, r: Rcv, p: Packet) {
    var s := x.ep.snd;
    && !p.fin
    && x.iss <= p.seqNum && p.seqNum + |p.data| <= s.lbw + 1
    && (p.seqNum < r.nxt || TrueBytes(x, p.seqNum, p.data))
    && (p.seqNum + |p.data| <= s.nxt || (Probing(x) && |p.data| == 1 && p.seqNum == s.nxt))
    && (x.stale || p.seqNum + |p.data| <= RightEdge(r) || (|p.data| == 1 && p.seqNum <= r.nxt))
  }

  ghost predicate PacketOk(x: Node, r: Rcv, p: Packet) {
    && p.ack && |p.data| <= MAX_SEG_SIZE
    && (p.data != [] ==> DataOk(x, r, p))
    && (p.fin ==> p.data == [] && FinSent(x.ep.snd) && p.seqNum == x.ep.snd.lbw + 1)
  }

  /** No packet acknowledges more than the receiver has, or offers room beyond its right edge. */
  ghost predicate AckOk(r: Rcv, p: Packet) {
    && p.ackNum <= r.nxt
    && (p.ackNum + p.window <= RightEdge(r) || (FinConsumed(r) && p.ackNum == r.nxt))
  }

  ghost predicate HeapEntryOk(x: Node, r: Rcv, e: EarlyArrival) {
    && e.data != [] && |e.data| <= MAX_SEG_SIZE
    && TrueBytes(x, e.startSeq, e.data)
    && e.startSeq + |e.data| <= x.ep.snd.nxt
    && (x.stale || e.startSeq + |e.data| <= RightEdge(r))
  }

  /** What was read, followed by what is buffered, is a prefix of what was written. */
  ghost predicate Delivered(x: Node, y: Node) {
    var r := y.ep.rcv;
    && r.ring.Valid()
    && r.ring.base == r.lbr + 1
    && x.iss <= r.lbr + 1 && |y.read| == r.lbr + 1 - x.iss
    && (r.nxt == r.lbr + 1 + r.ring.size || FinConsumed(r))
    && |y.read| + r.ring.size <= |x.written|
    && y.read + r.ring.Contents() == x.written[..|y.read| + r.ring.size]
  }

  /** How far the receiver of x's data can be. */
  ghost predicate Pointers(x: Node, r: Rcv) {
    var s := x.ep.snd;
    && s.una <= r.nxt
    && (r.nxt <= s.nxt || (r.nxt == s.nxt + 1 && Probing(x)))
    && (FinConsumed(r) ==> FinSent(s) && r.nxt == s.nxt)
    // A remembered FIN is one already consumed.
    && (r.fin != 0 ==> FinConsumed(r) && r.fin < r.nxt)
  }

  ghost predicate FlowOk(x: Node, r: Rcv) {
    var s := x.ep.snd;
    !x.stale && !FinSent(s) ==> s.una + s.window <= RightEdge(r) && s.nxt <= RightEdge(r)
  }

  /** The direction from x to y. */
  ghost predicate Link(x: Node, y: Node, xy: set<Packet>, yx: set<Packet>) {
    && Delivered(x, y)
    && Pointers(x, y.ep.rcv)
    && FlowOk(x, y.ep.rcv)
    && IsHeap(y.ep.rcv.heap, |y.ep.rcv.heap|)
    && (forall e :: e in y.ep.rcv.heap ==> HeapEntryOk(x, y.ep.rcv, e))
    && (forall p :: p in xy ==> PacketOk(x, y.ep.rcv, p))
    && (forall p :: p in yx ==> AckOk(y.ep.rcv, p))
  }

  // ---- one node on its own ----

  /** The state names exactly which FINs have been sent and consumed. */
  ghost predicate StateOk(x: Node) {
    var st := x.ep.state;
    && (st != CLOSED ==>
          && (FinSent(x.ep.snd) <==> st in {FIN_WAIT_1, FIN_WAIT_2, LAST_ACK, TIME_WAIT})
          && (FinConsumed(x.ep.rcv) <==> st in {CLOSE_WAIT, LAST_ACK, TIME_WAIT}))
    && (st == FIN_WAIT_2 ==> x.ep.snd.una == x.ep.snd.nxt)
    && (st == FIN_WAIT_1 || st == LAST_ACK ==> x.ep.snd.una < x.ep.snd.nxt)
    && (x.eof ==> FinConsumed(x.ep.rcv) && x.ep.rcv.ring.size == 0)
    && (FinSent(x.ep.snd) ==> x.writer == WriterIdle)
    && (x.writer.Closing? ==> st in {ESTABLISHED, CLOSE_WAIT} || (st == CLOSED && x.ep.snd.una < x.ep.snd.nxt))
  }

  /** A VWrite in progress has appended exactly the part of its argument it has counted. */
  ghost predicate WriterOk(x: Node) {
    x.writer.Writing? ==>
      && x.writer.total <= |x.writer.data|
      && x.writer.start + x.writer.total == |x.written|
      && x.written[x.writer.start..] == x.writer.data[..x.writer.total]
  }

  /** Timers and channel tokens. */
  ghost predicate WakeOk(x: Node) {
    var s := x.ep.snd;
    && (x.ep.rtx.timerArmed ==> x.ep.rtx.queue != [])
    && (x.ep.rtx.queue != [] && !x.ep.rtx.timerArmed ==> x.ep.state == CLOSED)
    && (x.loop.Parked? && s.nxt <= s.lbw ==> s.dataWritten)
    && (x.loop.WindowWait? && s.una == s.nxt && !FinSent(s) ==> s.windowUpdated)
    && (x.loop.Exited? ==> x.ep.state == CLOSED)
    && (x.writer.Writing? && x.writer.blocked && s.ring.size < MAX_WIN_SIZE ==> s.spaceAvailable)
    && (x.reader.Reading? && x.reader.blocked && (x.ep.rcv.ring.size > 0 || x.ep.state == CLOSE_WAIT) ==>
          x.ep.rcv.dataToRead)
  }

  ghost predicate RetransmitsOk(x: Node) {
    && RTO_MIN <= x.ep.rtx.rto <= RTO_MAX
    && forall i :: 0 <= i < |x.ep.rtx.queue| ==>
         x.ep.rtx.queue[i].numRetransmits <= if x.ep.state == CLOSED && !x.ep.rtx.timerArmed
                                             then MAX_RETRANSMISSIONS + 1 else MAX_RETRANSMISSIONS
  }

  ghost predicate NodeOk(x: Node) {
    SendOk(x) && StateOk(x) && WriterOk(x) && WakeOk(x) && RetransmitsOk(x)
  }

  ghost predicate Inv(s: System) {
    && NodeOk(s.a) && NodeOk(s.b)
    && Link(s.a, s.b, s.ab, s.ba)
    && Link(s.b, s.a, s.ba, s.ab)
  }
}
