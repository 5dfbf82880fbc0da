/** Every step keeps the invariant. */
module TcpSteps {
  import opened Words
  import opened CircleBuffers
  import opened EarlyArrivalHeap
  import opened TcpSpec
  import opened TcpNetwork
  import opened TcpInvariant

  /** The invariant seen from the side that is about to step. */
  ghost predicate Pair(x: Node, y: Node, xy: set<Packet>, yx: set<Packet>) {
    NodeOk(x) && NodeOk(y) && Link(x, y, xy, yx) && Link(y, x, yx, xy)
  }

  /** What the side's step has to establish. */
  ghost predicate Kept(x: Node, out: seq<Packet>, y: Node, xy: set<Packet>, yx: set<Packet>) {
    NodeOk(x) && Link(x, y, xy + ToSet(out), yx) && Link(y, x, yx, xy + ToSet(out))
  }

  // ---- frames ----

  /** The sending half as the receiver's invariant sees it: everything but the channel tokens. */
  ghost predicate SameSender(x: Node, x': Node) {
    var s := x.ep.snd; var s' := x'.ep.snd;
    && s'.una == s.una && s'.nxt == s.nxt && s'.lbw == s.lbw && s'.window == s.window
    && s'.isProbing == s.isProbing && x'.ep.rtx.queue == x.ep.rtx.queue
    && x'.iss == x.iss && x'.written == x.written && x'.stale == x.stale
  }

  ghost predicate SameReceiver(y: Node, y': Node) {
    y'.ep.rcv == y.ep.rcv.(dataToRead := y'.ep.rcv.dataToRead) && y'.read == y.read
  }

  lemma SenderFrame(x: Node, x': Node, y: Node, xy: set<Packet>, yx: set<Packet>, out: seq<Packet>)
    requires Link(x, y, xy, yx) && SameSender(x, x')
    requires forall p :: p in out ==> PacketOk(x', y.ep.rcv, p)
    ensures Link(x', y, xy + ToSet(out), yx)
  {
    forall p | p in xy ensures PacketOk(x', y.ep.rcv, p) {
      assert PacketOk(x, y.ep.rcv, p);
    }
    forall e | e in y.ep.rcv.heap ensures HeapEntryOk(x', y.ep.rcv, e) {
      assert HeapEntryOk(x, y.ep.rcv, e);
    }
  }

  lemma ReceiverFrame(x: Node, y: Node, y': Node, xy: set<Packet>, yx: set<Packet>, out: seq<Packet>)
    requires Link(x, y, xy, yx) && SameReceiver(y, y')
    requires forall p :: p in out ==> AckOk(y.ep.rcv, p)
    ensures Link(x, y', xy, yx + ToSet(out))
  {
    forall p | p in xy ensures PacketOk(x, y'.ep.rcv, p) {
      assert PacketOk(x, y.ep.rcv, p);
    }
    forall e | e in y'.ep.rcv.heap ensures HeapEntryOk(x, y'.ep.rcv, e) {
      assert HeapEntryOk(x, y.ep.rcv, e);
    }
    forall p | p in yx + ToSet(out) ensures AckOk(y'.ep.rcv, p) {
      assert AckOk(y.ep.rcv, p);
    }
  }

  /** Neither half changed as far as the other side can tell. */
  lemma QuietStep(x: Node, x': Node, y: Node, xy: set<Packet>, yx: set<Packet>)
    requires Pair(x, y, xy, yx) && SameSender(x, x') && SameReceiver(x, x') && NodeOk(x')
    ensures Kept(x', [], y, xy, yx)
  {
    SenderFrame(x, x', y, xy, yx, []);
    ReceiverFrame(y, x, x', yx, xy, []);
  }

  /** Whatever this side sends acknowledges what it has and offers the room it has. */
  lemma OwnAckOk(x: Node, y: Node, e: Endpoint, p: Packet)
    requires Delivered(y, x) && e.rcv == x.ep.rcv
    requires p.ackNum == e.rcv.nxt && p.window == e.rcv.AvailableWindow()
    ensures AckOk(x.ep.rcv, p)
  {
  }

  /** Sending one pure ACK for the current nxt is harmless in both directions. */
  lemma EmitAck(x: Node, x': Node, y: Node, xy: set<Packet>, yx: set<Packet>, out: seq<Packet>)
    requires Link(x, y, xy, yx) && Link(y, x', yx, xy) && SameSender(x, x') && NodeOk(x')
    requires x'.ep.WellFormed() && out == [PureAck(x'.ep, x'.ep.rcv.nxt)]
    ensures Kept(x', out, y, xy, yx)
  {
    OwnAckOk(x', y, x'.ep, out[0]);
    ReceiverFrame(y, x', x', yx, xy, out);
    SenderFrame(x, x', y, xy, yx, out);
  }

  // ---- the sending half grows ----

  /** x' extends x: more may have been written, sent and acknowledged, nothing was taken back. */
  ghost predicate Extends(x: Node, x': Node) {
    var s := x.ep.snd; var s' := x'.ep.snd;
    && x'.iss == x.iss && x.written <= x'.written && (x.stale ==> x'.stale)
    && s.lbw <= s'.lbw && s.nxt <= s'.nxt
    && (FinSent(s) ==> s'.nxt == s.nxt && s'.lbw == s.lbw)
    && (Probing(x) ==> (Probing(x') && s'.nxt == s.nxt) || s.nxt + 1 <= s'.nxt)
  }

  lemma TrueBytesGrow(x: Node, x': Node, seqNum: nat, data: seq<byte>)
    requires TrueBytes(x, seqNum, data) && x'.iss == x.iss && x.written <= x'.written
    ensures TrueBytes(x', seqNum, data)
  {
    var k := seqNum - x.iss;
    assert x'.written[..|x.written|][k..k + |data|] == x'.written[k..k + |data|];
  }

  lemma PacketExtends(x: Node, x': Node, r: Rcv, p: Packet)
    requires PacketOk(x, r, p) && Extends(x, x')
    ensures PacketOk(x', r, p)
  {
    if p.data != [] && r.nxt <= p.seqNum {
      TrueBytesGrow(x, x', p.seqNum, p.data);
    }
  }

  /** The part of the link that follows whenever the sending half extends. */
  lemma SenderExtends(x: Node, x': Node, y: Node, xy: set<Packet>, yx: set<Packet>, out: seq<Packet>)
    requires Link(x, y, xy, yx) && Extends(x, x')
    requires Pointers(x', y.ep.rcv) && FlowOk(x', y.ep.rcv)
    requires forall p :: p in out ==> PacketOk(x', y.ep.rcv, p)
    ensures Link(x', y, xy + ToSet(out), yx)
  {
    var r := y.ep.rcv;
    forall p | p in xy ensures PacketOk(x', r, p) {
      PacketExtends(x, x', r, p);
    }
    forall e | e in r.heap ensures HeapEntryOk(x', r, e) {
      assert HeapEntryOk(x, r, e);
      TrueBytesGrow(x, x', e.startSeq, e.data);
    }
    var n := |y.read| + r.ring.size;
    assert x'.written[..n] == x'.written[..|x.written|][..n];
  }

  // ---- application writes ----

  lemma WriteChunkSendOk(x: Node, x': Node, chunk: seq<byte>)
    requires SendOk(x) && !FinSent(x.ep.snd) && |chunk| <= x.ep.snd.ring.FreeSpace()
    requires x.ep.snd.lbw + |chunk| + 4 <= WORD
    requires x'.ep == x.ep.(snd := WriteChunk(x.ep.snd, chunk))
    requires x'.written == x.written + chunk && x'.iss == x.iss
    ensures SendOk(x') && !FinSent(x'.ep.snd)
  {
    var s := x.ep.snd;
    WriteAppends(s.ring, chunk);
    assert x'.written[s.ring.base - x.iss..] == x.written[s.ring.base - x.iss..] + chunk;
  }

  lemma AppendNodeOk(x: Node, chunk: seq<byte>)
    requires NodeOk(x) && x.ep.WellFormed() && x.writer.Writing? && !x.writer.blocked
    requires |chunk| <= x.ep.snd.ring.FreeSpace() && x.ep.snd.lbw + |chunk| + 4 <= WORD
    requires x.writer.total + |chunk| <= |x.writer.data|
    requires chunk == x.writer.data[x.writer.total..x.writer.total + |chunk|]
    ensures NodeOk(AppendChunk(x, chunk))
  {
    var x' := AppendChunk(x, chunk);
    WriteChunkSendOk(x, x', chunk);
    assert x'.written[x.writer.start..] == x.written[x.writer.start..] + chunk;
    assert x.writer.data[..x.writer.total] + chunk == x.writer.data[..x.writer.total + |chunk|];
  }

  lemma AppendKeeps(x: Node, y: Node, xy: set<Packet>, yx: set<Packet>, chunk: seq<byte>)
    requires Pair(x, y, xy, yx) && x.ep.WellFormed() && x.writer.Writing?
    requires |chunk| <= x.ep.snd.ring.FreeSpace() && x.ep.snd.lbw + |chunk| + 4 <= WORD
    requires NodeOk(AppendChunk(x, chunk))
    ensures Kept(AppendChunk(x, chunk), [], y, xy, yx)
  {
    var x' := AppendChunk(x, chunk);
    SenderExtends(x, x', y, xy, yx, []);
    ReceiverFrame(y, x, x', yx, xy, []);
  }

  lemma WriterPauses(x: Node)
    requires NodeOk(x) && x.ep.WellFormed() && x.writer.Writing?
    requires x.writer.total == |x.writer.data| || x.ep.snd.ring.FreeSpace() == 0
    ensures NodeOk(DoWriteStep(x)) && SameSender(x, DoWriteStep(x)) && SameReceiver(x, DoWriteStep(x))
  {
  }

  lemma WriteStepKeeps(x: Node, y: Node, xy: set<Packet>, yx: set<Packet>)
    requires Pair(x, y, xy, yx) && Steppable(x, yx, WriteStep)
    ensures Kept(DoWriteStep(x), [], y, xy, yx)
  {
    if x.writer.total == |x.writer.data| || x.ep.snd.ring.FreeSpace() == 0 {
      WriterPauses(x);
      QuietStep(x, DoWriteStep(x), y, xy, yx);
    } else {
      AppendNodeOk(x, NextChunk(x.ep.snd, x.writer.data, x.writer.total));
      AppendKeeps(x, y, xy, yx, NextChunk(x.ep.snd, x.writer.data, x.writer.total));
    }
  }

  // ---- sending ----

  lemma TileAppend(q: seq<RtxEntry>, iss: nat, nxt: nat, e: RtxEntry, r: seq<RtxEntry>)
    requires DataTiled(q, iss, nxt) && iss <= nxt && r == q + [e]
    requires e.seqNum == nxt && 1 <= e.len <= MAX_SEG_SIZE && !e.fin
    ensures DataTiled(r, iss, nxt + e.len)
  {
    var end := nxt + e.len;
    forall i: nat | i < |r| ensures TileAt(r, i, iss, end) {
      if i < |q| {
        assert TileAt(q, i, iss, nxt);
      }
    }
  }

  /** Every entry ends at or before nxt. */
  lemma {:induction false} TileBound(q: seq<RtxEntry>, iss: nat, nxt: nat, i: nat)
    requires DataTiled(q, iss, nxt) && i < |q|
    ensures q[i].seqNum + q[i].len <= nxt
    decreases |q| - i
  {
    assert TileAt(q, i, iss, nxt);
    if i + 1 < |q| {
      TileBound(q, iss, nxt, i + 1);
    }
  }

  lemma ProbeKeeps(x: Node, y: Node, xy: set<Packet>, yx: set<Packet>)
    requires Pair(x, y, xy, yx) && x.loop.Running? && x.ep.WellFormed()
    requires SendLoopStep(x.ep).2.ProbeWait?
    ensures var (x', out) := DoLoopStep(x); Kept(x', out, y, xy, yx)
  {
    var (x', out) := DoLoopStep(x);
    var s := x.ep.snd;
    assert Sub32(s.nxt, s.una) == s.nxt - s.una;
    var p := out[0];
    assert out == [p];
    SliceOfLiveRange(s.ring, 0, 1);
    assert s.una == s.ring.base;
    assert p.data == x.written[s.una - x.iss..s.una - x.iss + 1];
    assert PacketOk(x', y.ep.rcv, p);
    SenderExtends(x, x', y, xy, yx, out);
    OwnAckOk(x, y, x.ep, p);
    ReceiverFrame(y, x, x', yx, xy, out);
  }

  /** The next data segment: its length, and what the invariant needs to know about it. */
  lemma SendableBounds(x: Node)
    requires SendOk(x) && x.ep.WellFormed() && SendLoopStep(x.ep).2.Running?
    ensures var s := x.ep.snd; var n := Sendable(s);
      && 1 <= n <= MAX_SEG_SIZE && s.nxt + n <= s.lbw + 1 && s.nxt + n <= s.una + s.window
      && !FinSent(s)
      && s.ring.SliceFrom(s.nxt, n) == x.written[s.nxt - x.iss..s.nxt - x.iss + n]
  {
    var s := x.ep.snd;
    assert Sub32(s.nxt, s.una) == s.nxt - s.una;
    assert s.nxt <= s.lbw;
    assert Sub32(s.lbw, s.nxt) == s.lbw - s.nxt;
    assert Add32(Sub32(s.lbw, s.nxt), 1) == s.lbw - s.nxt + 1;
    UnsentBytes(x, Sendable(s));
  }

  lemma UnsentBytes(x: Node, n: nat)
    requires SendOk(x) && x.ep.snd.nxt + n <= x.ep.snd.lbw + 1
    ensures x.ep.snd.ring.Valid() && n <= MAX_WIN_SIZE
    ensures var s := x.ep.snd;
      s.ring.SliceFrom(s.nxt, n) == x.written[s.nxt - x.iss..s.nxt - x.iss + n]
  {
    var s := x.ep.snd;
    assert Add32(s.ring.base, s.nxt - s.una) == s.nxt;
    SliceOfLiveRange(s.ring, s.nxt - s.una, n);
  }

  lemma DataSegmentNodeOk(x: Node)
    requires NodeOk(x) && x.ep.WellFormed() && x.loop.Running? && SendLoopStep(x.ep).2.Running?
    ensures NodeOk(DoLoopStep(x).0)
  {
    SendableBounds(x);
    var s := x.ep.snd;
    var n := Sendable(s);
    var x' := DoLoopStep(x).0;
    TileAppend(x.ep.rtx.queue, x.iss, s.nxt, RtxEntry(s.nxt, n, false, false, 0), x'.ep.rtx.queue);
    assert HeadCovers(x'.ep.rtx.queue, s.una);
    assert Tiled(x'.ep.snd, x'.ep.rtx.queue, x.iss);
  }

  lemma DataSegmentKeeps(x: Node, y: Node, xy: set<Packet>, yx: set<Packet>)
    requires Pair(x, y, xy, yx) && x.loop.Running? && x.ep.WellFormed()
    requires SendLoopStep(x.ep).2.Running?
    ensures var (x', out) := DoLoopStep(x); Kept(x', out, y, xy, yx)
  {
    var (x', out) := DoLoopStep(x);
    SendableBounds(x);
    DataSegmentNodeOk(x);
    var p := out[0];
    assert out == [p];
    assert PacketOk(x', y.ep.rcv, p);
    SenderExtends(x, x', y, xy, yx, out);
    OwnAckOk(x, y, x.ep, p);
    ReceiverFrame(y, x, x', yx, xy, out);
  }

  lemma LoopWaits(x: Node, y: Node, xy: set<Packet>, yx: set<Packet>)
    requires Pair(x, y, xy, yx) && x.loop.Running? && x.ep.WellFormed()
    requires var pc := SendLoopStep(x.ep).2; !pc.Running? && !pc.ProbeWait?
    ensures var (x', out) := DoLoopStep(x); Kept(x', out, y, xy, yx)
  {
    var (x', out) := DoLoopStep(x);
    assert Sub32(x.ep.snd.nxt, x.ep.snd.una) == x.ep.snd.nxt - x.ep.snd.una;
    assert NodeOk(x');
    QuietStep(x, x', y, xy, yx);
  }

  lemma LoopStepKeeps(x: Node, y: Node, xy: set<Packet>, yx: set<Packet>)
    requires Pair(x, y, xy, yx) && Steppable(x, yx, LoopStep)
    ensures var (x', out) := DoLoopStep(x); Kept(x', out, y, xy, yx)
  {
    var pc := SendLoopStep(x.ep).2;
    if pc.ProbeWait? {
      ProbeKeeps(x, y, xy, yx);
    } else if pc.Running? {
      DataSegmentKeeps(x, y, xy, yx);
    } else {
      LoopWaits(x, y, xy, yx);
    }
  }

  lemma RtoNodeOk(x: Node)
    requires NodeOk(x) && x.ep.WellFormed() && x.ep.rtx.timerArmed
    ensures NodeOk(DoRtoFires(x).0)
  {
    var q := x.ep.rtx.queue;
    var x' := DoRtoFires(x).0;
    if !FinSent(x.ep.snd) {
      forall i: nat | i < |q| ensures TileAt(x'.ep.rtx.queue, i, x.iss, x.ep.snd.nxt) {
        assert TileAt(q, i, x.iss, x.ep.snd.nxt);
      }
    }
    assert Tiled(x'.ep.snd, x'.ep.rtx.queue, x.iss);
  }

  /** A retransmission repeats true bytes, or starts below una and so below the receiver's nxt. */
  lemma RetransmittedOk(x: Node, y: Node, xy: set<Packet>, yx: set<Packet>, p: Packet)
    requires NodeOk(x) && Link(x, y, xy, yx) && x.ep.WellFormed() && x.ep.rtx.queue != []
    requires p in Retransmit(x.ep).1
    ensures PacketOk(x, y.ep.rcv, p)
  {
    var s := x.ep.snd;
    var h := x.ep.rtx.queue[0];
    if !FinSent(s) {
      TileBound(x.ep.rtx.queue, x.iss, s.nxt, 0);
      assert TileAt(x.ep.rtx.queue, 0, x.iss, s.nxt);
      if h.seqNum == s.una {
        assert Add32(s.ring.base, 0) == s.una;
        SliceOfLiveRange(s.ring, 0, h.len);
        var k := s.una - x.iss;
        assert s.ring.SliceFrom(h.seqNum, h.len) == x.written[k..][0..h.len] == x.written[k..k + h.len];
      }
    }
  }

  lemma RtoKeeps(x: Node, y: Node, xy: set<Packet>, yx: set<Packet>)
    requires Pair(x, y, xy, yx) && Steppable(x, yx, RtoFires)
    ensures var (x', out) := DoRtoFires(x); Kept(x', out, y, xy, yx)
  {
    var (x', out) := DoRtoFires(x);
    RtoNodeOk(x);
    forall p | p in out ensures PacketOk(x', y.ep.rcv, p) && AckOk(x.ep.rcv, p) {
      RetransmittedOk(x, y, xy, yx, p);
      PacketExtends(x, x', y.ep.rcv, p);
      OwnAckOk(x, y, x.ep, p);
    }
    SenderExtends(x, x', y, xy, yx, out);
    ReceiverFrame(y, x, x', yx, xy, out);
  }

  lemma FlushedPointers(x: Node)
    requires SendOk(x) && Flushed(x.ep.snd) && !FinSent(x.ep.snd)
    ensures x.ep.rtx.queue == [] && x.ep.snd.nxt == x.ep.snd.lbw + 1 == x.ep.snd.una
  {
  }

  lemma FinSendOk(x: Node)
    requires SendOk(x) && x.ep.WellFormed() && Flushed(x.ep.snd) && !FinSent(x.ep.snd)
    ensures SendOk(DoClosePoll(x).0)
  {
    FlushedPointers(x);
  }

  lemma FinNodeOk(x: Node)
    requires NodeOk(x) && x.ep.WellFormed() && x.writer.Closing? && Flushed(x.ep.snd)
    ensures NodeOk(DoClosePoll(x).0)
    ensures var x' := DoClosePoll(x).0;
      FinSent(x'.ep.snd) && x'.ep.snd.nxt == x.ep.snd.nxt + 1 && x.ep.snd.nxt == x.ep.snd.lbw + 1 == x.ep.snd.una
  {
    FlushedPointers(x);
    FinSendOk(x);
  }

  lemma ClosePollKeeps(x: Node, y: Node, xy: set<Packet>, yx: set<Packet>)
    requires Pair(x, y, xy, yx) && x.ep.WellFormed() && x.writer.Closing?
    ensures var (x', out) := DoClosePoll(x); Kept(x', out, y, xy, yx)
  {
    var (x', out) := DoClosePoll(x);
    if Flushed(x.ep.snd) {
      var p := out[0];
      assert out == [p];
      FinNodeOk(x);
      assert PacketOk(x', y.ep.rcv, p);
      SenderExtends(x, x', y, xy, yx, out);
      OwnAckOk(x, y, x.ep, p);
      ReceiverFrame(y, x, x', yx, xy, out);
    } else {
      QuietStep(x, x', y, xy, yx);
    }
  }

  // ---- receiving an ACK ----

  /** Popping acknowledged entries leaves a tiled queue whose head covers the new una. */
  lemma {:induction false} PopTiles(q: seq<RtxEntry>, iss: nat, nxt: nat, ackNum: uint32)
    requires DataTiled(q, iss, nxt) && q != [] && q[0].seqNum <= ackNum <= nxt < WORD
    ensures var r := PopAcked(q, ackNum);
      && DataTiled(r, iss, nxt) && HeadCovers(r, ackNum)
      && (r == [] <==> ackNum == nxt)
      && (forall e :: e in r ==> e in q)
    decreases |q|
  {
    assert TileAt(q, 0, iss, nxt);
    TileBound(q, iss, nxt, 0);
    if q[0].End() <= ackNum {
      var t := q[1..];
      forall i: nat | i < |t| ensures TileAt(t, i, iss, nxt) {
        assert TileAt(q, i + 1, iss, nxt);
      }
      if t != [] {
        PopTiles(t, iss, nxt, ackNum);
      }
    }
  }

  /** The queue part of the invariant survives any acknowledgment of sent data. */
  lemma AckQueueTiled(s: Snd, q: seq<RtxEntry>, iss: nat, ackNum: uint32)
    requires Tiled(s, q, iss) && s.una < ackNum <= s.nxt
    ensures var r := PopAcked(q, ackNum);
      Tiled(s.(una := ackNum), r, iss) && (forall e :: e in r ==> e in q)
  {
    if FinSent(s) {
      assert PopAcked(q, ackNum) == PopAcked(q[1..], ackNum) == [];
    } else {
      PopTiles(q, iss, s.nxt, ackNum);
    }
  }

  lemma AckQueueKeeps(q: Rtx, ackNum: uint32, rtt: real)
    requires RTO_MIN <= q.rto <= RTO_MAX
    ensures var r := AckQueue(q, ackNum, rtt);
      && r.queue == PopAcked(q.queue, ackNum)
      && (r.timerArmed <==> r.queue != [])
      && RTO_MIN <= r.rto <= RTO_MAX
  {
  }

  /** An acceptable ACK acknowledges sent data, or exactly the one byte of an outstanding probe. */
  lemma AckInRange(x: Node, y: Node, xy: set<Packet>, yx: set<Packet>, p: Packet)
    requires Link(x, y, xy, yx) && p in yx
    ensures p.ackNum <= x.ep.snd.nxt || (p.ackNum == x.ep.snd.nxt + 1 && Probing(x))
  {
    assert AckOk(y.ep.rcv, p);
  }

  lemma RingAdvances(x: Node, k: nat)
    requires SendOk(x)
    ensures var r := x.ep.snd.ring; var m := Min(k, r.size); var a := r.AdvanceBase(k);
      && a.Valid() && a.base == r.base + m && a.size == r.size - m
      && a.Contents() == x.written[a.base - x.iss..]
  {
    var r := x.ep.snd.ring;
    var m := Min(k, r.size);
    AdvanceDrops(r, k);
    assert x.written[r.base - x.iss..][m..] == x.written[r.base + m - x.iss..];
  }

  /** AdvanceBase keeps the ring equal to the unacknowledged suffix. */
  lemma AdvanceSendOk(x: Node, x': Node, ackNum: uint32)
    requires SendOk(x) && x.ep.snd.una < ackNum
    requires ackNum <= x.ep.snd.nxt || (ackNum == x.ep.snd.nxt + 1 && Probing(x))
    requires var s := x.ep.snd; var s' := x'.ep.snd;
      && s'.una == ackNum && s'.nxt == (if ackNum <= s.nxt then s.nxt else ackNum) && s'.lbw == s.lbw
      && s'.ring == s.ring.AdvanceBase(Sub32(ackNum, s.una))
    requires x'.iss == x.iss && x'.written == x.written && x'.ep.seqNum == x'.ep.snd.nxt
    requires Tiled(x'.ep.snd, x'.ep.rtx.queue, x.iss)
    ensures SendOk(x')
  {
    RingAdvances(x, Sub32(ackNum, x.ep.snd.una));
    assert Sub32(ackNum, x.ep.snd.una) == ackNum - x.ep.snd.una;
  }

  lemma ProbeAckKeeps(x: Node, y: Node, xy: set<Packet>, yx: set<Packet>, p: Packet, rtt: real)
    requires Pair(x, y, xy, yx) && x.ep.WellFormed() && p in yx && p.ackNum > x.ep.snd.nxt
    requires x.ep.state != CLOSED
    ensures Kept(x.(ep := HandlePureAck(x.ep, p, rtt)), [], y, xy, yx)
  {
    AckInRange(x, y, xy, yx, p);
    var x' := x.(ep := HandlePureAck(x.ep, p, rtt));
    AdvanceSendOk(x, x', p.ackNum);
    assert NodeOk(x');
    assert AckOk(y.ep.rcv, p);
    SenderExtends(x, x', y, xy, yx, []);
    ReceiverFrame(y, x, x', yx, xy, []);
  }

  lemma PoppedCounts(x: Node, x': Node)
    requires RetransmitsOk(x) && x.ep.state != CLOSED
    requires RTO_MIN <= x'.ep.rtx.rto <= RTO_MAX
    requires forall e :: e in x'.ep.rtx.queue ==> e in x.ep.rtx.queue
    ensures RetransmitsOk(x')
  {
    forall i | 0 <= i < |x'.ep.rtx.queue|
      ensures x'.ep.rtx.queue[i].numRetransmits <= MAX_RETRANSMISSIONS
    {
      assert x'.ep.rtx.queue[i] in x.ep.rtx.queue;
    }
  }

  /** What an ACK of new data does to the sending half, apart from tokens and probing. */
  ghost predicate Acked(e: Endpoint, e': Endpoint, ackNum: uint32, rtt: real)
    requires e.WellFormed() && e.snd.una < ackNum
  {
    var s := e.snd; var s' := e'.snd;
    && s'.una == ackNum && s'.nxt == s.nxt && s'.lbw == s.lbw
    && s'.ring == s.ring.AdvanceBase(Sub32(ackNum, s.una))
    && e'.rtx == AckQueue(e.rtx, ackNum, rtt) && e'.seqNum == e.seqNum && e'.rcv == e.rcv
  }

  lemma NewAckSendOk(x: Node, x': Node, ackNum: uint32, rtt: real)
    requires SendOk(x) && RetransmitsOk(x) && x.ep.WellFormed() && x.ep.snd.una < ackNum <= x.ep.snd.nxt
    requires x.ep.state != CLOSED && x' == x.(ep := x'.ep) && Acked(x.ep, x'.ep, ackNum, rtt)
    ensures SendOk(x') && RetransmitsOk(x')
  {
    AckQueueTiled(x.ep.snd, x.ep.rtx.queue, x.iss, ackNum);
    AckQueueKeeps(x.ep.rtx, ackNum, rtt);
    assert Tiled(x'.ep.snd, x'.ep.rtx.queue, x.iss);
    AdvanceSendOk(x, x', ackNum);
    PoppedCounts(x, x');
  }

  lemma NewAckNodeOk(x: Node, p: Packet, rtt: real)
    requires NodeOk(x) && x.ep.WellFormed() && x.ep.snd.una < p.ackNum <= x.ep.snd.nxt
    requires x.ep.state != CLOSED
    ensures NodeOk(x.(ep := HandlePureAck(x.ep, p, rtt)))
  {
    NewAckSendOk(x, x.(ep := HandlePureAck(x.ep, p, rtt)), p.ackNum, rtt);
    AckQueueKeeps(x.ep.rtx, p.ackNum, rtt);
  }

  lemma NewAckKeeps(x: Node, y: Node, xy: set<Packet>, yx: set<Packet>, p: Packet, rtt: real)
    requires Pair(x, y, xy, yx) && x.ep.WellFormed() && p in yx
    requires x.ep.snd.una < p.ackNum <= x.ep.snd.nxt && x.ep.state != CLOSED
    ensures Kept(x.(ep := HandlePureAck(x.ep, p, rtt)), [], y, xy, yx)
  {
    var x' := x.(ep := HandlePureAck(x.ep, p, rtt));
    NewAckNodeOk(x, p, rtt);
    assert AckOk(y.ep.rcv, p);
    SenderExtends(x, x', y, xy, yx, []);
    ReceiverFrame(y, x, x', yx, xy, []);
  }

  lemma OldAckKeeps(x: Node, y: Node, xy: set<Packet>, yx: set<Packet>, p: Packet, rtt: real)
    requires Pair(x, y, xy, yx) && x.ep.WellFormed() && p in yx && p.ackNum <= x.ep.snd.una
    ensures var stale := x.stale || p.ackNum < x.ep.snd.una;
      Kept(x.(ep := HandlePureAck(x.ep, p, rtt), stale := stale), [], y, xy, yx)
  {
    var x' := x.(ep := HandlePureAck(x.ep, p, rtt), stale := x.stale || p.ackNum < x.ep.snd.una);
    OldAckNodeOk(x, x', p.window);
    assert AckOk(y.ep.rcv, p);
    SenderExtends(x, x', y, xy, yx, []);
    ReceiverFrame(y, x, x', yx, xy, []);
  }

  lemma OldAckNodeOk(x: Node, x': Node, window: uint16)
    requires NodeOk(x) && x' == x.(ep := x.ep.(snd := x.ep.snd.(window := window)), stale := x'.stale)
    ensures NodeOk(x')
  {
    OldAckSendOk(x, x', window);
  }

  lemma OldAckSendOk(x: Node, x': Node, window: uint16)
    requires SendOk(x) && x' == x.(ep := x.ep.(snd := x.ep.snd.(window := window)), stale := x'.stale)
    ensures SendOk(x')
  {
  }

  // ---- the receiving half grows ----

  /** r' extends r: more may have been received or read. */
  ghost predicate ReceiverExtends(r: Rcv, r': Rcv) {
    && r.nxt <= r'.nxt && RightEdge(r) <= RightEdge(r')
    && (FinConsumed(r) ==> FinConsumed(r') && r'.nxt == r.nxt)
  }

  lemma ReceiverStep(x: Node, y: Node, y': Node, xy: set<Packet>, yx: set<Packet>, out: seq<Packet>)
    requires Link(x, y, xy, yx) && ReceiverExtends(y.ep.rcv, y'.ep.rcv)
    requires Delivered(x, y') && Pointers(x, y'.ep.rcv) && FlowOk(x, y'.ep.rcv)
    requires IsHeap(y'.ep.rcv.heap, |y'.ep.rcv.heap|)
    requires forall e :: e in y'.ep.rcv.heap ==> e in y.ep.rcv.heap || HeapEntryOk(x, y'.ep.rcv, e)
    requires forall p :: p in out ==> AckOk(y'.ep.rcv, p)
    ensures Link(x, y', xy, yx + ToSet(out))
  {
    var r := y.ep.rcv;
    var r' := y'.ep.rcv;
    forall p | p in xy ensures PacketOk(x, r', p) {
      assert PacketOk(x, r, p);
    }
    forall e | e in r'.heap ensures HeapEntryOk(x, r', e) {
      assert e in r.heap ==> HeapEntryOk(x, r, e);
    }
    forall p | p in yx + ToSet(out) ensures AckOk(r', p) {
      assert p in yx ==> AckOk(r, p);
    }
  }

  lemma SplitRead(read: seq<byte>, c: seq<byte>, n: nat)
    requires n <= |c|
    ensures (read + c[0..0 + n]) + c[n..] == read + c
  {
  }

  /** Reading moves bytes from the ring to the application. */
  lemma ReadDelivers(x: Node, y: Node, y': Node, n: nat)
    requires Delivered(x, y) && y.ep.rcv.lbr + y.ep.rcv.ring.size + 2 < WORD
    requires 0 <= n <= y.ep.rcv.ring.size
    requires var (bytes, rcv) := ReadBytes(y.ep.rcv, n);
      y'.ep.rcv == rcv && y'.read == y.read + bytes
    ensures Delivered(x, y') && ReceiverExtends(y.ep.rcv, y'.ep.rcv)
    ensures FinConsumed(y'.ep.rcv) <==> FinConsumed(y.ep.rcv)
  {
    var r := y.ep.rcv;
    assert Add32(r.ring.base, 0) == Add32(r.lbr, 1);
    SliceOfLiveRange(r.ring, 0, n);
    AdvanceDrops(r.ring, n);
    SplitRead(y.read, r.ring.Contents(), n);
  }

  /** Receive pointers stay below the top of the sequence space. */
  lemma ReceiverBound(x: Node, y: Node, xy: set<Packet>, yx: set<Packet>)
    requires SendOk(x) && Link(x, y, xy, yx)
    ensures y.ep.rcv.nxt + 1 < WORD && y.ep.rcv.lbr + y.ep.rcv.ring.size + 2 < WORD
  {
  }

  lemma ReadNodeOk(x: Node)
    requires NodeOk(x) && x.ep.WellFormed() && x.reader.Reading? && !x.reader.blocked
    requires FinConsumed(DoReadStep(x).ep.rcv) <==> FinConsumed(x.ep.rcv)
    requires x.ep.rcv.ring.size == 0 ==> DoReadStep(x).ep == x.ep
    requires DoReadStep(x).ep.rcv.ring.size <= x.ep.rcv.ring.size
    ensures NodeOk(DoReadStep(x))
  {
  }

  lemma ReadLinks(x: Node, x': Node, y: Node, xy: set<Packet>, yx: set<Packet>)
    requires Link(x, y, xy, yx) && Link(y, x, yx, xy) && SameSender(x, x')
    requires Delivered(y, x') && ReceiverExtends(x.ep.rcv, x'.ep.rcv)
    requires FinConsumed(x'.ep.rcv) <==> FinConsumed(x.ep.rcv)
    requires var r := x.ep.rcv; var r' := x'.ep.rcv; r'.nxt == r.nxt && r'.fin == r.fin && r'.heap == r.heap
    ensures Link(x', y, xy + ToSet([]), yx) && Link(y, x', yx, xy + ToSet([]))
  {
    SenderFrame(x, x', y, xy, yx, []);
    ReceiverStep(y, x, x', yx, xy, []);
  }

  lemma ReadNothingKeeps(x: Node, y: Node, xy: set<Packet>, yx: set<Packet>)
    requires Pair(x, y, xy, yx) && x.ep.WellFormed() && x.reader.Reading? && !x.reader.blocked
    requires x.ep.rcv.ring.size == 0
    ensures Kept(DoReadStep(x), [], y, xy, yx)
  {
    ReadNodeOk(x);
    QuietStep(x, DoReadStep(x), y, xy, yx);
  }

  lemma ReadSomeKeeps(x: Node, y: Node, xy: set<Packet>, yx: set<Packet>)
    requires Pair(x, y, xy, yx) && x.ep.WellFormed() && x.reader.Reading? && !x.reader.blocked
    requires x.ep.rcv.ring.size > 0
    ensures Kept(DoReadStep(x), [], y, xy, yx)
  {
    var x' := DoReadStep(x);
    ReceiverBound(y, x, yx, xy);
    ReadDelivers(y, x, x', Min(x.reader.max, x.ep.rcv.ring.size));
    ReadNodeOk(x);
    ReadLinks(x, x', y, xy, yx);
  }

  lemma ReadStepKeeps(x: Node, y: Node, xy: set<Packet>, yx: set<Packet>)
    requires Pair(x, y, xy, yx) && Steppable(x, yx, ReadStep)
    ensures Kept(DoReadStep(x), [], y, xy, yx)
  {
    if x.ep.rcv.ring.size == 0 {
      ReadNothingKeeps(x, y, xy, yx);
    } else {
      ReadSomeKeeps(x, y, xy, yx);
    }
  }

  // ---- receiving data ----

  lemma AcceptDelivers(x: Node, y: Node, data: seq<byte>)
    requires Delivered(x, y) && !FinConsumed(y.ep.rcv) && |data| <= y.ep.rcv.ring.FreeSpace()
    requires TrueBytes(x, y.ep.rcv.nxt, data) && y.ep.rcv.nxt + |data| < WORD
    ensures var y' := y.(ep := y.ep.(rcv := Accept(y.ep.rcv, data)));
      && Delivered(x, y') && !FinConsumed(y'.ep.rcv) && y'.ep.rcv.nxt == y.ep.rcv.nxt + |data|
  {
    var r := y.ep.rcv;
    assert Add32(r.ring.base, r.ring.size) == r.nxt;
    WriteAppends(r.ring, data);
    var n := |y.read| + r.ring.size;
    assert x.written[..n] + x.written[n..n + |data|] == x.written[..n + |data|];
    assert y.read + (r.ring.Contents() + data) == y.read + r.ring.Contents() + data;
  }

  /** Appending true bytes at nxt. */
  lemma AcceptKeeps(x: Node, y: Node, xy: set<Packet>, yx: set<Packet>, data: seq<byte>)
    requires SendOk(x) && Link(x, y, xy, yx) && !FinConsumed(y.ep.rcv)
    requires data != [] && |data| <= y.ep.rcv.ring.FreeSpace()
    requires TrueBytes(x, y.ep.rcv.nxt, data)
    requires y.ep.rcv.nxt + |data| <= x.ep.snd.nxt
      || (Probing(x) && |data| == 1 && y.ep.rcv.nxt == x.ep.snd.nxt)
    ensures var y' := y.(ep := y.ep.(rcv := Accept(y.ep.rcv, data)));
      Link(x, y', xy, yx) && !FinConsumed(y'.ep.rcv)
  {
    var r := y.ep.rcv;
    var y' := y.(ep := y.ep.(rcv := Accept(r, data)));
    AcceptDelivers(x, y, data);
    ReceiverStep(x, y, y', xy, yx, []);
    assert yx + ToSet([]) == yx;
  }

  lemma PopKeeps(x: Node, y: Node, xy: set<Packet>, yx: set<Packet>)
    requires Link(x, y, xy, yx) && y.ep.rcv.heap != []
    ensures Link(x, y.(ep := y.ep.(rcv := y.ep.rcv.(heap := PopHeap(y.ep.rcv.heap)))), xy, yx)
  {
    var h := y.ep.rcv.heap;
    var y' := y.(ep := y.ep.(rcv := y.ep.rcv.(heap := PopHeap(h))));
    PopRemovesMin(h);
    forall e | e in PopHeap(h) ensures e in h {
      assert e in multiset(PopHeap(h));
      assert e in multiset(h);
    }
    ReceiverStep(x, y, y', xy, yx, []);
    assert yx + ToSet([]) == yx;
  }

  lemma PushKeeps(x: Node, y: Node, xy: set<Packet>, yx: set<Packet>, e: EarlyArrival)
    requires Link(x, y, xy, yx) && HeapEntryOk(x, y.ep.rcv, e)
    ensures Link(x, y.(ep := y.ep.(rcv := y.ep.rcv.(heap := PushHeap(y.ep.rcv.heap, e)))), xy, yx)
  {
    var h := y.ep.rcv.heap;
    var y' := y.(ep := y.ep.(rcv := y.ep.rcv.(heap := PushHeap(h, e))));
    PushKeepsHeap(h, e);
    forall d | d in PushHeap(h, e) ensures d in h || d == e {
      assert d in multiset(PushHeap(h, e));
      assert d in multiset(h) + multiset{e};
    }
    ReceiverStep(x, y, y', xy, yx, []);
    assert yx + ToSet([]) == yx;
  }

  /** The FIN is consumed only once every byte has been received. */
  lemma FinKeeps(x: Node, y: Node, xy: set<Packet>, yx: set<Packet>)
    requires SendOk(x) && Link(x, y, xy, yx) && y.ep.WellFormed() && !FinConsumed(y.ep.rcv)
    requires FinSent(x.ep.snd) && y.ep.rcv.nxt == x.ep.snd.lbw + 1
    ensures var (e, out) := ConsumeFin(y.ep);
      && Link(x, y.(ep := e), xy, yx + ToSet(out)) && FinConsumed(e.rcv)
      && e.rcv.ring.size == y.ep.rcv.ring.size
  {
    var (e, out) := ConsumeFin(y.ep);
    var y' := y.(ep := e);
    forall p | p in out ensures AckOk(e.rcv, p) {
    }
    ReceiverStep(x, y, y', xy, yx, out);
  }

  /** How receiving may change an endpoint whose peer's FIN had not been consumed: only its
      receiving half, and its state exactly when the FIN is consumed. */
  ghost predicate ReceivedInto(e: Endpoint, e': Endpoint) {
    && e'.snd == e.snd && e'.rtx == e.rtx && e'.seqNum == e.seqNum
    && e'.rcv.ring.size >= e.rcv.ring.size
    && e'.state == (if !FinConsumed(e'.rcv) then e.state
                    else if e.state == ESTABLISHED then CLOSE_WAIT else TIME_WAIT)
    && (e.rcv.dataToRead ==> e'.rcv.dataToRead)
    && (FinConsumed(e'.rcv) && e.state == ESTABLISHED ==> e'.rcv.dataToRead)
  }

  predicate OpenForData(st: TcpState) {
    st == ESTABLISHED || st == FIN_WAIT_1 || st == FIN_WAIT_2
  }

  lemma DrainOneKeeps(x: Node, y: Node, xy: set<Packet>, yx: set<Packet>)
    requires SendOk(x) && Link(x, y, xy, yx) && y.ep.WellFormed() && !FinConsumed(y.ep.rcv)
    requires CanDrain(y.ep.rcv)
    ensures var e := DrainOne(y.ep); Link(x, y.(ep := e), xy, yx) && !FinConsumed(e.rcv)
  {
    var r := y.ep.rcv;
    assert HeapEntryOk(x, r, r.heap[0]);
    AcceptKeeps(x, y, xy, yx, r.heap[0].data);
    var y1 := y.(ep := y.ep.(rcv := Accept(r, r.heap[0].data)));
    PopKeeps(x, y1, xy, yx);
    assert y1.(ep := y1.ep.(rcv := y1.ep.rcv.(heap := PopHeap(r.heap)))) == y.(ep := DrainOne(y.ep));
  }

  /** The drain loop only moves segments: no FIN is ever waiting for it. */
  lemma {:induction false} DrainKeeps(x: Node, y: Node, xy: set<Packet>, yx: set<Packet>)
    requires SendOk(x) && Link(x, y, xy, yx) && y.ep.WellFormed() && !FinConsumed(y.ep.rcv)
    ensures var (e, out) := Drain(y.ep);
      Link(x, y.(ep := e), xy, yx) && ReceivedInto(y.ep, e) && !FinConsumed(e.rcv) && out == []
    decreases |y.ep.rcv.heap|
  {
    if y.ep.rcv.heap != [] && CanDrain(y.ep.rcv) {
      DrainOneKeeps(x, y, xy, yx);
      DrainKeeps(x, y.(ep := DrainOne(y.ep)), xy, yx);
    }
  }

  lemma ReceivedStateOk(x: Node, x': Node)
    requires StateOk(x) && OpenForData(x.ep.state) && ReceivedInto(x.ep, x'.ep)
    requires x' == x.(ep := x'.ep)
    ensures StateOk(x')
  {
  }

  lemma ReceivedWakeOk(x: Node, x': Node)
    requires WakeOk(x) && OpenForData(x.ep.state) && ReceivedInto(x.ep, x'.ep)
    requires x' == x.(ep := x'.ep)
    requires x'.ep.rcv.ring.size > x.ep.rcv.ring.size ==> x'.ep.rcv.dataToRead
    ensures WakeOk(x')
  {
  }

  /** The node's own invariant follows from how receiving changed it. */
  lemma ReceivedNodeOk(x: Node, x': Node)
    requires NodeOk(x) && OpenForData(x.ep.state) && ReceivedInto(x.ep, x'.ep)
    requires x' == x.(ep := x'.ep)
    requires x'.ep.rcv.ring.size > x.ep.rcv.ring.size ==> x'.ep.rcv.dataToRead
    ensures NodeOk(x')
  {
    ReceivedStateOk(x, x');
    ReceivedWakeOk(x, x');
  }

  lemma PayloadKeeps(x: Node, y: Node, xy: set<Packet>, yx: set<Packet>, p: Packet)
    requires Pair(x, y, xy, yx) && x.ep.WellFormed() && p in yx && p.data != []
    requires OpenForData(x.ep.state) && |p.data| < WORD
    ensures var (e, out) := HandlePayload(x.ep, p); Kept(x.(ep := e), out, y, xy, yx)
  {
    var r := x.ep.rcv;
    var (e, out) := HandlePayload(x.ep, p);
    var x' := x.(ep := e);
    assert PacketOk(y, r, p) && DataOk(y, r, p);
    if p.seqNum > r.nxt {
      PushKeeps(y, x, yx, xy, EarlyArrival(p.seqNum, Add32(p.seqNum, |p.data|), p.data));
      ReceivedNodeOk(x, x');
      EmitAck(x, x', y, xy, yx, out);
    } else if p.seqNum < r.nxt || r.ring.FreeSpace() == 0 {
      EmitAck(x, x, y, xy, yx, out);
    } else {
      InOrderKeeps(x, y, xy, yx, p);
    }
  }

  lemma TruncatedTrue(x: Node, seqNum: nat, data: seq<byte>, n: nat)
    requires TrueBytes(x, seqNum, data) && n <= |data|
    ensures TrueBytes(x, seqNum, data[..n])
  {
    var k := seqNum - x.iss;
    assert x.written[k..k + |data|][..n] == x.written[k..k + n];
  }

  /** An in-order payload is accepted, the heap drained behind it, and the result acknowledged. */
  lemma InOrderReceived(x: Node, y: Node, xy: set<Packet>, yx: set<Packet>, payload: seq<byte>)
    requires SendOk(x) && Link(x, y, xy, yx) && y.ep.WellFormed() && !FinConsumed(y.ep.rcv)
    requires payload != [] && |payload| <= y.ep.rcv.ring.FreeSpace()
    requires TrueBytes(x, y.ep.rcv.nxt, payload)
    requires y.ep.rcv.nxt + |payload| <= x.ep.snd.nxt
      || (Probing(x) && |payload| == 1 && y.ep.rcv.nxt == x.ep.snd.nxt)
    ensures var (e, out) := HandleInOrder(y.ep, payload);
      && Link(x, y.(ep := e), xy, yx) && ReceivedInto(y.ep, e) && !FinConsumed(e.rcv)
      && e.rcv.dataToRead && e.WellFormed() && out == [PureAck(e, e.rcv.nxt)]
  {
    AcceptKeeps(x, y, xy, yx, payload);
    var e0 := y.ep.(rcv := Accept(y.ep.rcv, payload));
    DrainKeeps(x, y.(ep := e0), xy, yx);
    DrainWellFormed(e0);
    var e1 := Drain(e0).0;
    var e2 := e1.(rcv := e1.rcv.(dataToRead := true));
    ReceiverFrame(x, y.(ep := e1), y.(ep := e2), xy, yx, []);
    assert yx + ToSet([]) == yx;
  }

  lemma FittingTrue(x: Node, r: Rcv, p: Packet)
    requires PacketOk(x, r, p) && p.data != [] && p.seqNum == r.nxt
    requires 0 < r.ring.FreeSpace()
    ensures var payload := Fitting(p.data, r.ring.FreeSpace());
      && TrueBytes(x, r.nxt, payload)
      && (r.nxt + |payload| <= x.ep.snd.nxt || (Probing(x) && |payload| == 1 && r.nxt == x.ep.snd.nxt))
  {
    var payload := Fitting(p.data, r.ring.FreeSpace());
    assert DataOk(x, r, p) && p.data[..|payload|] == payload;
    TruncatedTrue(x, r.nxt, p.data, |payload|);
  }

  lemma InOrderKeeps(x: Node, y: Node, xy: set<Packet>, yx: set<Packet>, p: Packet)
    requires Pair(x, y, xy, yx) && x.ep.WellFormed() && p in yx && p.data != []
    requires OpenForData(x.ep.state) && |p.data| < WORD
    requires p.seqNum == x.ep.rcv.nxt && x.ep.rcv.ring.FreeSpace() > 0
    ensures var (e, out) := HandlePayload(x.ep, p); Kept(x.(ep := e), out, y, xy, yx)
  {
    assert PacketOk(y, x.ep.rcv, p);
    FittingTrue(y, x.ep.rcv, p);
    InOrderReceived(y, x, yx, xy, Fitting(p.data, x.ep.rcv.ring.FreeSpace()));
    var (e, out) := HandlePayload(x.ep, p);
    ReceivedNodeOk(x, x.(ep := e));
    EmitAck(x, x.(ep := e), y, xy, yx, out);
  }

  // ---- receiving a FIN ----

  /** A FIN that was already consumed. */
  lemma DuplicateFin(x: Node, y: Node, xy: set<Packet>, yx: set<Packet>, p: Packet)
    requires SendOk(x) && Link(x, y, xy, yx) && p in xy && p.fin && p.seqNum < y.ep.rcv.nxt
    ensures var y' := y.(ep := y.ep.(rcv := y.ep.rcv.(fin := p.seqNum)));
      Link(x, y', xy, yx)
  {
    assert PacketOk(x, y.ep.rcv, p);
    ReceiverStep(x, y, y.(ep := y.ep.(rcv := y.ep.rcv.(fin := p.seqNum))), xy, yx, []);
    assert yx + ToSet([]) == yx;
  }

  /** VClose sends the FIN only after every byte was acknowledged, so no FIN is ever early. */
  lemma FinIsNotEarly(x: Node, y: Node, xy: set<Packet>, yx: set<Packet>, p: Packet)
    requires SendOk(x) && Link(x, y, xy, yx) && p in xy && p.fin
    ensures p.seqNum <= y.ep.rcv.nxt
    ensures p.seqNum == y.ep.rcv.nxt ==> !FinConsumed(y.ep.rcv) && y.ep.rcv.nxt == x.ep.snd.lbw + 1
    ensures FinSent(x.ep.snd)
  {
    assert PacketOk(x, y.ep.rcv, p);
  }

  lemma FinNotedNodeOk(x: Node, x': Node, n: uint32)
    requires NodeOk(x) && x' == x.(ep := x.ep.(rcv := x.ep.rcv.(fin := n)))
    ensures NodeOk(x')
  {
  }

  lemma HandleFinKeeps(x: Node, y: Node, xy: set<Packet>, yx: set<Packet>, p: Packet)
    requires Pair(x, y, xy, yx) && x.ep.WellFormed() && p in yx && p.fin
    requires OpenForData(x.ep.state) || x.ep.state == CLOSE_WAIT
    ensures var (e, out) := HandleFin(x.ep, p); Kept(x.(ep := e), out, y, xy, yx)
  {
    var (e, out) := HandleFin(x.ep, p);
    FinIsNotEarly(y, x, yx, xy, p);
    if p.seqNum < x.ep.rcv.nxt {
      var x1 := x.(ep := x.ep.(rcv := x.ep.rcv.(fin := p.seqNum)));
      DuplicateFin(y, x, yx, xy, p);
      FinNotedNodeOk(x, x1, p.seqNum);
      EmitAck(x, x1, y, xy, yx, out);
    } else {
      assert (e, out) == ConsumeFin(x.ep);
      FinKeeps(y, x, yx, xy);
      ReceivedNodeOk(x, x.(ep := e));
      SenderFrame(x, x.(ep := e), y, xy, yx, out);
    }
  }

  // ---- any step ----

  lemma AckKeeps(x: Node, y: Node, xy: set<Packet>, yx: set<Packet>, p: Packet, rtt: real)
    requires Pair(x, y, xy, yx) && x.ep.WellFormed() && p in yx && TakenAsAck(x.ep, p)
    ensures var stale := x.stale || p.ackNum < x.ep.snd.una;
      Kept(x.(ep := HandlePureAck(x.ep, p, rtt), stale := stale), [], y, xy, yx)
  {
    if p.ackNum > x.ep.snd.nxt {
      ProbeAckKeeps(x, y, xy, yx, p, rtt);
    } else if x.ep.snd.una < p.ackNum {
      NewAckKeeps(x, y, xy, yx, p, rtt);
    } else {
      OldAckKeeps(x, y, xy, yx, p, rtt);
    }
    var stale := x.stale || p.ackNum < x.ep.snd.una;
    assert p.ackNum > x.ep.snd.una ==>
      x.(ep := HandlePureAck(x.ep, p, rtt), stale := stale) == x.(ep := HandlePureAck(x.ep, p, rtt));
  }

  lemma NothingKeeps(x: Node, y: Node, xy: set<Packet>, yx: set<Packet>)
    requires Pair(x, y, xy, yx)
    ensures Kept(x, [], y, xy, yx)
  {
    QuietStep(x, x, y, xy, yx);
  }

  lemma ReceiveKeeps(x: Node, y: Node, xy: set<Packet>, yx: set<Packet>, p: Packet, rtt: real)
    requires Pair(x, y, xy, yx) && Steppable(x, yx, Receive(p, rtt))
    ensures var (x', out) := DoReceive(x, p, rtt); Kept(x', out, y, xy, yx)
  {
    var st := x.ep.state;
    if TakenAsAck(x.ep, p) {
      AckKeeps(x, y, xy, yx, p, rtt);
    } else if st == CLOSED || st == TIME_WAIT || st == LAST_ACK {
      NothingKeeps(x, y, xy, yx);
    } else if p.fin {
      HandleFinKeeps(x, y, xy, yx, p);
    } else if p.data == [] {
      NothingKeeps(x, y, xy, yx);
    } else if st == CLOSE_WAIT {
      assert PacketOk(y, x.ep.rcv, p) && DataOk(y, x.ep.rcv, p);
      LateDataKeeps(x, y, xy, yx, p);
    } else {
      PayloadKeeps(x, y, xy, yx, p);
    }
  }

  /** After the FIN every data segment is a duplicate. */
  lemma LateDataKeeps(x: Node, y: Node, xy: set<Packet>, yx: set<Packet>, p: Packet)
    requires Pair(x, y, xy, yx) && x.ep.WellFormed() && p in yx && p.data != [] && |p.data| < WORD
    requires FinConsumed(x.ep.rcv)
    ensures var (e, out) := HandlePayload(x.ep, p); Kept(x.(ep := e), out, y, xy, yx)
  {
    var (e, out) := HandlePayload(x.ep, p);
    assert PacketOk(y, x.ep.rcv, p) && DataOk(y, x.ep.rcv, p);
    EmitAck(x, x, y, xy, yx, out);
  }

  /** Only tokens, the loop's place and the threads' waiting have changed. */
  ghost predicate OnlyTokens(x: Node, x': Node) {
    && x'.ep.state == x.ep.state && x'.ep.seqNum == x.ep.seqNum && x'.ep.rtx == x.ep.rtx
    && x'.ep.rcv == x.ep.rcv.(dataToRead := x'.ep.rcv.dataToRead)
    && (var s := x.ep.snd; var s' := x'.ep.snd;
        s' == s.(dataWritten := s'.dataWritten, spaceAvailable := s'.spaceAvailable,
                 windowUpdated := s'.windowUpdated, zwpTrigger := s'.zwpTrigger))
    && x'.iss == x.iss && x'.written == x.written && x'.eof == x.eof
    && (x'.writer == x.writer || (x.writer.Writing? && x'.writer == x.writer.(blocked := false)))
  }

  lemma TokensOnly(x: Node, x': Node)
    requires NodeOk(x) && WakeOk(x') && OnlyTokens(x, x')
    ensures NodeOk(x')
  {
  }

  /** A loop that runs needs no token. */
  lemma LoopWakes(x: Node, s': Snd)
    requires WakeOk(x) && !x.loop.Running? && !x.loop.Exited?
    requires var s := x.ep.snd;
      s' == s.(dataWritten := s'.dataWritten, windowUpdated := s'.windowUpdated, zwpTrigger := s'.zwpTrigger)
    ensures var x' := x.(loop := Running, ep := x.ep.(snd := s')); WakeOk(x') && OnlyTokens(x, x')
  {
  }

  /** A thread that does not wait needs none either. */
  lemma WriterWakes(x: Node)
    requires WakeOk(x) && x.writer.Writing? && x.writer.blocked
    ensures var x' := Wake(x, WriteWake); WakeOk(x') && OnlyTokens(x, x')
  {
  }

  lemma ReaderWakes(x: Node)
    requires WakeOk(x) && x.reader.Reading? && x.reader.blocked
    ensures var x' := Wake(x, ReadWake); WakeOk(x') && OnlyTokens(x, x')
  {
  }

  lemma WakeTakesToken(x: Node, act: Action)
    requires WakeOk(x) && Enabled(x, {}, act) && IsWake(act)
    ensures WakeOk(Wake(x, act)) && OnlyTokens(x, Wake(x, act))
  {
    if act.WriteWake? {
      WriterWakes(x);
    } else if act.ReadWake? {
      ReaderWakes(x);
    } else {
      LoopWakes(x, Wake(x, act).ep.snd);
    }
  }

  lemma WakeNodeOk(x: Node, act: Action)
    requires NodeOk(x) && Enabled(x, {}, act) && IsWake(act)
    ensures NodeOk(Wake(x, act))
  {
    WakeTakesToken(x, act);
    TokensOnly(x, Wake(x, act));
  }

  lemma WakeKeeps(x: Node, y: Node, xy: set<Packet>, yx: set<Packet>, act: Action)
    requires Pair(x, y, xy, yx) && Enabled(x, yx, act) && IsWake(act)
    ensures Kept(Wake(x, act), [], y, xy, yx)
  {
    WakeNodeOk(x, act);
    QuietStep(x, Wake(x, act), y, xy, yx);
  }

  lemma SendOkSame(x: Node, x': Node)
    requires SendOk(x) && x'.ep == x.ep && x'.iss == x.iss && x'.written == x.written
    ensures SendOk(x')
  {
  }

  lemma CallNodeOk(x: Node, act: Action)
    requires NodeOk(x) && IsCall(act) && Enabled(x, {}, act)
    ensures NodeOk(Call(x, act))
  {
    SendOkSame(x, Call(x, act));
    assert x.written[|x.written|..] == [];
  }

  lemma CallKeeps(x: Node, y: Node, xy: set<Packet>, yx: set<Packet>, act: Action)
    requires Pair(x, y, xy, yx) && Enabled(x, yx, act) && IsCall(act)
    ensures Kept(Call(x, act), [], y, xy, yx)
  {
    CallNodeOk(x, act);
    QuietStep(x, Call(x, act), y, xy, yx);
  }

  lemma TimeWaitKeeps(x: Node, y: Node, xy: set<Packet>, yx: set<Packet>)
    requires Pair(x, y, xy, yx) && x.ep.state == TIME_WAIT
    ensures Kept(x.(ep := x.ep.(state := CLOSED)), [], y, xy, yx)
  {
    var x' := x.(ep := x.ep.(state := CLOSED));
    assert NodeOk(x');
    QuietStep(x, x', y, xy, yx);
  }

  /** Any step of either side keeps the invariant. */
  lemma ActKeeps(x: Node, y: Node, xy: set<Packet>, yx: set<Packet>, act: Action)
    requires Pair(x, y, xy, yx) && Steppable(x, yx, act)
    ensures var (x', out) := Act(x, act); Kept(x', out, y, xy, yx)
  {
    if IsWake(act) {
      WakeKeeps(x, y, xy, yx, act);
    } else if IsCall(act) {
      CallKeeps(x, y, xy, yx, act);
    } else {
      match act {
        case WriteStep => WriteStepKeeps(x, y, xy, yx);
        case ReadStep => ReadStepKeeps(x, y, xy, yx);
        case ClosePoll => ClosePollKeeps(x, y, xy, yx);
        case LoopStep => LoopStepKeeps(x, y, xy, yx);
        case RtoFires => RtoKeeps(x, y, xy, yx);
        case TimeWaitExpires => TimeWaitKeeps(x, y, xy, yx);
        case Receive(p, rtt) => ReceiveKeeps(x, y, xy, yx, p, rtt);
      }
    }
  }
}
