/** The connection objects of pkg/tcpStack and the methods that update them in place. Each
    method is proved to compute the corresponding function of TcpSpec on the object's value. */
module TcpSocket {
  import opened Words
  import opened CircleBuffers
  import opened EarlyArrivalHeap
  import opened TcpSpec

  /** A connection's send buffer. The channels are one-slot, so a token is a boolean. */
  class SendBuf {
    const cBuf: CircleBuf
    var una: uint32
    var nxt: uint32
    var lbw: uint32
    var otherSideWindow: uint16
    var isProbing: bool
    var dataWrittenToBuf: bool
    var spaceAvailable: bool
    var otherSideWindowUpdated: bool
    var zwpTrigger: bool

    constructor (seqNum: uint32)
      ensures fresh(cBuf) && fresh(cBuf.buf) && cBuf.Valid()
      ensures View() == NewEndpoint(seqNum, 0).snd
    {
      cBuf := new CircleBuf(MAX_WIN_SIZE, seqNum);
      una, nxt, lbw := seqNum, seqNum, Sub32(seqNum, 1);
      otherSideWindow, isProbing := MAX_WIN_SIZE, false;
      dataWrittenToBuf, spaceAvailable, otherSideWindowUpdated, zwpTrigger := false, false, false, false;
    }

    ghost function View(): Snd
      reads this, cBuf, cBuf.buf
    {
      Snd(cBuf.View(), una, nxt, lbw, otherSideWindow, isProbing,
          dataWrittenToBuf, spaceAvailable, otherSideWindowUpdated, zwpTrigger)
    }
  }

  class RecvBuf {
    const cBuf: CircleBuf
    var lbr: uint32
    var nxt: uint32
    var fin: uint32
    const earlyArrivals: EarlyArrivals
    var dataToRead: bool

    constructor (otherSideSeq: uint32)
      ensures fresh(cBuf) && fresh(cBuf.buf) && fresh(earlyArrivals) && cBuf.Valid()
      ensures View() == NewEndpoint(0, otherSideSeq).rcv
    {
      cBuf := new CircleBuf(MAX_WIN_SIZE, otherSideSeq);
      earlyArrivals := new EarlyArrivals();
      lbr, nxt, fin, dataToRead := Sub32(otherSideSeq, 1), otherSideSeq, 0, false;
    }

    ghost function View(): Rcv
      reads this, cBuf, cBuf.buf, earlyArrivals
    {
      Rcv(cBuf.View(), lbr, nxt, fin, earlyArrivals.segments, dataToRead)
    }
  }

  class RetransmissionQueue {
    var entries: seq<RtxEntry>
    var timerArmed: bool
    var rto: real
    var srtt: real

    constructor ()
      ensures View() == NewEndpoint(0, 0).rtx
    {
      entries, timerArmed, rto, srtt := [], false, RTO_INIT, 0.0;
    }

    ghost function View(): Rtx
      reads this
    {
      Rtx(entries, timerArmed, rto, srtt)
    }

    method ComputeNewSrtt(rtt: real) returns (r: real)
      modifies this`srtt
      ensures r == srtt == NewSrtt(old(srtt), rtt)
    {
      if srtt == 0.0 {
        srtt := rtt;
      } else {
        srtt := RTO_ALPHA * srtt + (1.0 - RTO_ALPHA) * rtt;
      }
      return srtt;
    }

    method UpdateTimeout(rtt: real)
      modifies this
      ensures View() == UpdateRto(old(View()), rtt)
    {
      var s := ComputeNewSrtt(rtt);
      rto := MaxReal(RTO_MIN, MinReal(RTO_BETA * s, RTO_MAX));
    }

    /** The retransmission part of handlePureAck: stop the timer, pop what is acknowledged, take
        an RTT sample from the last entry popped unless it was retransmitted, restart the timer
        if anything is left. */
    method Acknowledge(ackNum: uint32, rtt: real)
      modifies this
      ensures View() == AckQueue(old(View()), ackNum, rtt)
    {
      timerArmed := false;
      var acked: Option<RtxEntry> := None;
      while |entries| > 0 && entries[0].End() <= ackNum
        invariant PopAcked(entries, ackNum) == PopAcked(old(entries), ackNum)
        invariant LastAcked(entries, ackNum, acked) == LastAcked(old(entries), ackNum, None)
        invariant rto == old(rto) && srtt == old(srtt) && !timerArmed
        decreases |entries|
      {
        acked := Some(entries[0]);
        entries := entries[1..];
      }
      if acked.Some? && !acked.value.retransmitted {
        UpdateTimeout(rtt);
      }
      if |entries| > 0 {
        timerArmed := true;
      }
    }
  }

  /** A normal socket's table entry with its connection. */
  class SocketTableEntry {
    var state: TcpState
    var seqNum: uint32
    const sendBuf: SendBuf
    const recvBuf: RecvBuf
    const retransQueue: RetransmissionQueue
    /** Packets handed to the stack's send channel, oldest first. */
    var sendRequests: seq<Packet>

    ghost const Repr: set<object>

    /** All the objects a connection is made of, pairwise distinct. */
    ghost predicate Valid()
      reads this, Repr
    {
      && Repr == {this, sendBuf, recvBuf, retransQueue, sendBuf.cBuf, sendBuf.cBuf.buf,
                  recvBuf.cBuf, recvBuf.cBuf.buf, recvBuf.earlyArrivals}
      && sendBuf.cBuf != recvBuf.cBuf && sendBuf.cBuf.buf != recvBuf.cBuf.buf
      && sendBuf.cBuf.Valid() && recvBuf.cBuf.Valid()
      && forall i :: 0 <= i < |retransQueue.entries| ==> retransQueue.entries[i].len <= MAX_SEG_SIZE
    }

    ghost function View(): Endpoint
      reads this, Repr
      requires Valid()
      ensures View().WellFormed()
    {
      Endpoint(state, seqNum, sendBuf.View(), retransQueue.View(), recvBuf.View())
    }

    /** initBufs, at the end of the handshake. */
    constructor (ourSeqNum: uint32, otherSideSeq: uint32)
      ensures Valid() && fresh(Repr) && sendRequests == []
      ensures View() == NewEndpoint(ourSeqNum, otherSideSeq)
    {
      state, seqNum, sendRequests := ESTABLISHED, ourSeqNum, [];
      var sb := new SendBuf(ourSeqNum);
      var rb := new RecvBuf(otherSideSeq);
      var rq := new RetransmissionQueue();
      sendBuf, recvBuf, retransQueue := sb, rb, rq;
      Repr := {this, sb, rb, rq, sb.cBuf, sb.cBuf.buf, rb.cBuf, rb.cBuf.buf, rb.earlyArrivals};
    }

    method SendPureAck(ackNum: uint32)
      requires Valid()
      modifies this`sendRequests
      ensures Valid() && View() == old(View())
      ensures sendRequests == old(sendRequests) + [PureAck(old(View()), ackNum)]
    {
      sendRequests := sendRequests +
        [Packet(seqNum, ackNum, false, true, MAX_WIN_SIZE - recvBuf.cBuf.currSize, [])];
    }

    method SendSegment(segment: seq<byte>, number: uint32, fin: bool)
      requires Valid()
      modifies this`sendRequests
      ensures Valid() && View() == old(View())
      ensures sendRequests == old(sendRequests) + [Segment(old(View()), segment, number, fin)]
    {
      sendRequests := sendRequests +
        [Packet(number, recvBuf.nxt, fin, true, MAX_WIN_SIZE - recvBuf.cBuf.currSize, segment)];
    }

    method HandlePureAck(seg: Packet, rtt: real)
      requires Valid()
      modifies Repr
      ensures Valid() && sendRequests == old(sendRequests)
      ensures View() == TcpSpec.HandlePureAck(old(View()), seg, rtt)
    {
      if seg.ackNum > sendBuf.nxt {
        if sendBuf.isProbing && seg.ackNum == Add32(sendBuf.nxt, 1) {
          ProbeAcked(seg);
        }
        return;
      }
      sendBuf.otherSideWindow := seg.window;
      if sendBuf.una < seg.ackNum && seg.ackNum <= sendBuf.nxt {
        AckNewData(seg.ackNum, rtt);
        FinishAck(seg.ackNum);
      }
    }

    /** The rest of handlePureAck once new data was acknowledged. */
    method FinishAck(ackNum: uint32)
      requires Valid()
      modifies this`state, sendBuf
      ensures Valid()
      ensures View() == TcpSpec.FinishAck(old(View()), ackNum)
    {
      if state == FIN_WAIT_1 && ackNum == sendBuf.nxt {
        state := FIN_WAIT_2;
      }
      if state == LAST_ACK && ackNum == sendBuf.nxt {
        HandleLastAck();
        return;
      }
      sendBuf.spaceAvailable := true;
      SignalWindow();
    }

    /** The peer took the probe byte. */
    method ProbeAcked(seg: Packet)
      requires Valid()
      modifies this`seqNum, sendBuf, sendBuf.cBuf
      ensures Valid() && sendRequests == old(sendRequests)
      ensures var s := old(View()).snd; View() == old(View()).(seqNum := seg.ackNum,
        snd := s.(window := seg.window, una := seg.ackNum, nxt := seg.ackNum,
                  ring := s.ring.AdvanceBase(Sub32(seg.ackNum, s.una)),
                  spaceAvailable := true, windowUpdated := true))
    {
      var ackedBytes := Sub32(seg.ackNum, sendBuf.una);
      sendBuf.otherSideWindow := seg.window;
      sendBuf.una := seg.ackNum;
      sendBuf.nxt := seg.ackNum;
      seqNum := sendBuf.nxt;
      sendBuf.cBuf.AdvanceBase(ackedBytes);
      sendBuf.spaceAvailable := true;
      sendBuf.otherSideWindowUpdated := true;
    }

    /** Starts probing if the window closed with data left to send, and wakes the send loop. */
    method SignalWindow()
      requires Valid()
      modifies sendBuf
      ensures Valid() && View() == old(View()).(snd := AckTail(old(View()).snd))
    {
      if sendBuf.otherSideWindow == 0 && sendBuf.lbw >= sendBuf.nxt && !sendBuf.isProbing {
        sendBuf.isProbing := true;
        sendBuf.zwpTrigger := true;
      }
      sendBuf.otherSideWindowUpdated := true;
    }

    /** Moves una up and drops what it covers from the ring and the retransmission queue. */
    method AckNewData(ackNum: uint32, rtt: real)
      requires Valid()
      modifies Repr
      ensures Valid() && sendRequests == old(sendRequests)
      ensures View() == old(View()).(
        snd := old(View()).snd.(una := ackNum,
          ring := old(View()).snd.ring.AdvanceBase(Sub32(ackNum, old(sendBuf.una)))),
        rtx := AckQueue(old(View()).rtx, ackNum, rtt))
    {
      var ackedBytes := Sub32(ackNum, sendBuf.una);
      sendBuf.una := ackNum;
      sendBuf.cBuf.AdvanceBase(ackedBytes);
      retransQueue.Acknowledge(ackNum, rtt);
      AckTakesCoveredEntries(old(retransQueue.entries), ackNum, None);
    }

    /** teardown closes the channels and removes the entry from the table; neither is modelled. */
    method HandleLastAck()
      requires Valid()
      modifies this`state
      ensures Valid() && View() == old(View()).(state := CLOSED)
    {
      state := CLOSED;
    }

    /** The state switch after a FIN was acknowledged. */
    method SwitchOnFin()
      requires Valid()
      modifies this`state, recvBuf`dataToRead
      ensures Valid() && View() == FinReceived(old(View()))
    {
      if state == ESTABLISHED {
        state := CLOSE_WAIT;
        recvBuf.dataToRead := true;
      } else if state == FIN_WAIT_1 || state == FIN_WAIT_2 {
        state := TIME_WAIT;
      }
    }

    method HandleEarlyFin()
      requires Valid()
      modifies this`state, this`sendRequests, recvBuf
      ensures Valid()
      ensures var (e, out) := TcpSpec.HandleEarlyFin(old(View()));
        View() == e && sendRequests == old(sendRequests) + out
    {
      if recvBuf.fin == 0 {
        return;
      }
      if recvBuf.fin != recvBuf.nxt {
        return;
      }
      var finAckNum := Add32(recvBuf.fin, 1);
      recvBuf.nxt := finAckNum;
      recvBuf.fin := 0;
      SendPureAck(finAckNum);
      SwitchOnFin();
    }

    method HandleFin(seg: Packet)
      requires Valid()
      modifies this`state, this`sendRequests, recvBuf
      ensures Valid()
      ensures var (e, out) := TcpSpec.HandleFin(old(View()), seg);
        View() == e && sendRequests == old(sendRequests) + out
    {
      recvBuf.fin := seg.seqNum;
      if seg.seqNum > recvBuf.nxt {
        return;
      }
      if seg.seqNum < recvBuf.nxt {
        SendPureAck(recvBuf.nxt);
        return;
      }
      var finAckNum := Add32(seg.seqNum, 1);
      recvBuf.nxt := finAckNum;
      recvBuf.fin := 0;
      SendPureAck(finAckNum);
      SwitchOnFin();
    }

    /** Writes in-order bytes into the receive ring. */
    method AcceptBytes(data: seq<byte>)
      requires Valid() && |data| <= View().rcv.ring.FreeSpace()
      modifies recvBuf`nxt, recvBuf.cBuf`currSize, recvBuf.cBuf.buf
      ensures Valid() && View() == old(View()).(rcv := Accept(old(View()).rcv, data))
    {
      var written := recvBuf.cBuf.WriteIntoBuf(recvBuf.nxt, data);
      recvBuf.nxt := Add32(recvBuf.nxt, written);
    }

    /** The drain loop: moves early arrivals into the ring while the smallest one is next and
        fits; with the heap empty it looks for an early FIN. */
    method DrainEarlyArrivals()
      requires Valid()
      modifies this`state, this`sendRequests, recvBuf, recvBuf.cBuf`currSize, recvBuf.cBuf.buf, recvBuf.earlyArrivals
      ensures Valid()
      ensures var (e, out) := Drain(old(View()));
        View() == e && sendRequests == old(sendRequests) + out
    {
      ghost var goal := Drain(View());
      while true
        invariant Valid() && sendRequests == old(sendRequests)
        invariant Drain(View()) == goal
        decreases |recvBuf.earlyArrivals.segments|
      {
        var min := recvBuf.earlyArrivals.Peek();
        if min == None {
          HandleEarlyFin();
          break;
        }
        if min.value.startSeq != recvBuf.nxt {
          break;
        }
        var space := recvBuf.cBuf.maxSize - recvBuf.cBuf.currSize;
        if |min.value.data| > space {
          break;
        }
        ghost var before := View();
        var segment := recvBuf.earlyArrivals.PopMin();
        AcceptBytes(segment.value.data);
        assert View() == DrainOne(before);
      }
    }

    method HandlePayload(seg: Packet)
      requires Valid() && 0 < |seg.data| < WORD
      modifies Repr
      ensures Valid()
      ensures var (e, out) := TcpSpec.HandlePayload(old(View()), seg);
        View() == e && sendRequests == old(sendRequests) + out
    {
      if seg.seqNum > recvBuf.nxt {
        recvBuf.earlyArrivals.PushSegment(seg.seqNum, seg.data);
        SendPureAck(recvBuf.nxt);
        return;
      }
      if seg.seqNum < recvBuf.nxt {
        SendPureAck(recvBuf.nxt);
        return;
      }
      var space := recvBuf.cBuf.maxSize - recvBuf.cBuf.currSize;
      if space == 0 {
        SendPureAck(recvBuf.nxt);
        return;
      }
      var payload := seg.data;
      if |payload| > space {
        payload := payload[..space];
      }
      AcceptInOrder(payload);
    }

    /** Takes the expected bytes and what the heap has behind them; wakes the reader and ACKs. */
    method AcceptInOrder(payload: seq<byte>)
      requires Valid() && |payload| <= View().rcv.ring.FreeSpace()
      modifies this`state, this`sendRequests, recvBuf, recvBuf.cBuf`currSize, recvBuf.cBuf.buf, recvBuf.earlyArrivals
      ensures Valid()
      ensures var (e, out) := HandleInOrder(old(View()), payload);
        View() == e && sendRequests == old(sendRequests) + out
    {
      AcceptBytes(payload);
      DrainEarlyArrivals();
      recvBuf.dataToRead := true;
      SendPureAck(recvBuf.nxt);
    }

    method HandleTCP(seg: Packet, rtt: real)
      requires Valid() && |seg.data| < WORD
      modifies Repr
      ensures Valid()
      ensures var (e, out) := HandleTcp(old(View()), seg, rtt);
        View() == e && sendRequests == old(sendRequests) + out
    {
      match state {
        case CLOSED =>
        case TIME_WAIT =>
        case LAST_ACK =>
          if seg.ack && |seg.data| == 0 {
            HandlePureAck(seg, rtt);
          }
        case _ =>
          if seg.fin {
            HandleFin(seg);
          } else if seg.ack && |seg.data| == 0 {
            HandlePureAck(seg, rtt);
          } else if |seg.data| < 1 {
          } else {
            HandlePayload(seg);
          }
      }
    }

    /** One iteration of the inner loop of sendLoop; pc says where the goroutine ends up. */
    method SendLoopIteration() returns (pc: LoopPc)
      requires Valid()
      modifies Repr
      ensures Valid()
      ensures var (e, out, next) := SendLoopStep(old(View()));
        View() == e && sendRequests == old(sendRequests) + out && pc == next
    {
      if sendBuf.lbw < sendBuf.nxt {
        return if state == CLOSED then Exited else Parked;
      }
      var bytesAvailableInBuf := Add32(Sub32(sendBuf.lbw, sendBuf.nxt), 1);
      var bytesInFlight := Sub32(sendBuf.nxt, sendBuf.una);
      var windowRemaining := sendBuf.otherSideWindow - bytesInFlight;
      if windowRemaining <= 0 {
        if sendBuf.otherSideWindow == 0 && sendBuf.lbw >= sendBuf.nxt && bytesInFlight == 0 {
          sendBuf.isProbing := true;
          var probeByte := sendBuf.cBuf.SliceFrom(sendBuf.una, 1);
          SendSegment(probeByte, sendBuf.una, false);
          return ProbeWait;
        }
        return WindowWait;
      }
      sendBuf.isProbing := false;
      var maxBytesSendable := bytesAvailableInBuf;
      if maxBytesSendable > windowRemaining {
        maxBytesSendable := windowRemaining;
      }
      if maxBytesSendable > MAX_SEG_SIZE {
        maxBytesSendable := MAX_SEG_SIZE;
      }
      SendNext(maxBytesSendable);
      return Running;
    }

    /** Sends the next n bytes, queues them for retransmission, starts the timer if need be. */
    method SendNext(n: nat)
      requires Valid() && n <= MAX_SEG_SIZE
      modifies Repr
      ensures Valid()
      ensures var e := old(View());
        && View() == e.(snd := e.snd.(nxt := Add32(e.snd.nxt, n)), seqNum := Add32(e.snd.nxt, n),
             rtx := e.rtx.(timerArmed := e.rtx.timerArmed || e.rtx.queue == [],
                           queue := e.rtx.queue + [RtxEntry(e.seqNum, n, false, false, 0)]))
        && sendRequests == old(sendRequests) + [Segment(e, e.snd.ring.SliceFrom(e.snd.nxt, n), e.seqNum, false)]
    {
      var segmentData := sendBuf.cBuf.SliceFrom(sendBuf.nxt, n);
      SendSegment(segmentData, seqNum, false);
      if |retransQueue.entries| == 0 {
        retransQueue.timerArmed := true;
      }
      retransQueue.entries := retransQueue.entries + [RtxEntry(seqNum, n, false, false, 0)];
      sendBuf.nxt := Add32(sendBuf.nxt, n);
      seqNum := sendBuf.nxt;
    }

    /** The head is always there when the timer fires: TcpTheorems.QueueTilesFlight. */
    method RetransmitSegment()
      requires Valid() && retransQueue.entries != []
      modifies Repr
      ensures Valid()
      ensures var (e, out) := Retransmit(old(View()));
        View() == e && sendRequests == old(sendRequests) + out
    {
      var head := retransQueue.entries[0];
      head := head.(retransmitted := true, numRetransmits := head.numRetransmits + 1);
      retransQueue.entries := retransQueue.entries[0 := head];
      retransQueue.timerArmed := false;
      if head.numRetransmits > MAX_RETRANSMISSIONS {
        state := CLOSED;
        return;
      }
      var sliceToSend := sendBuf.cBuf.SliceFrom(head.seqNum, head.len);
      SendSegment(sliceToSend, head.seqNum, head.fin);
      retransQueue.rto := MinReal(retransQueue.rto * 2.0, RTO_MAX);
      retransQueue.timerArmed := true;
    }

    method SendFin()
      requires Valid()
      modifies Repr
      ensures Valid()
      ensures var (e, out) := TcpSpec.SendFin(old(View()));
        View() == e && sendRequests == old(sendRequests) + out
    {
      SendSegment([], seqNum, true);
      if |retransQueue.entries| == 0 {
        retransQueue.timerArmed := true;
      }
      retransQueue.entries := retransQueue.entries + [RtxEntry(seqNum, 0, true, false, 0)];
      sendBuf.nxt := Add32(sendBuf.nxt, 1);
      seqNum := sendBuf.nxt;
      if state == ESTABLISHED {
        state := FIN_WAIT_1;
      } else {
        state := LAST_ACK;
      }
    }

    /** One pass of VWrite's loop over data, of which total bytes are already in the buffer;
        blocked when the buffer is full. */
    method VWriteChunk(data: seq<byte>, total: nat) returns (newTotal: nat, blocked: bool)
      requires Valid() && total < |data|
      modifies Repr
      ensures Valid() && sendRequests == old(sendRequests)
      ensures blocked <==> old(View()).snd.ring.FreeSpace() == 0
      ensures blocked ==> newTotal == total && View() == old(View())
      ensures !blocked ==>
        && var chunk := NextChunk(old(View()).snd, data, total);
        total < newTotal == total + |chunk| && View() == old(View()).(snd := WriteChunk(old(View()).snd, chunk))
    {
      var spaceInBuf := sendBuf.cBuf.maxSize - sendBuf.cBuf.currSize;
      if spaceInBuf == 0 {
        return total, true;
      }
      var numBytesToWrite := |data| - total;
      if numBytesToWrite > spaceInBuf {
        numBytesToWrite := spaceInBuf;
      }
      var _ := sendBuf.cBuf.WriteIntoBuf(Add32(sendBuf.lbw, 1), data[total..total + numBytesToWrite]);
      sendBuf.lbw := Add32(sendBuf.lbw, numBytesToWrite);
      sendBuf.dataWrittenToBuf := true;
      return total + numBytesToWrite, false;
    }

    /** One pass of VRead's loop: nothing buffered is EOF in CLOSE_WAIT and a wait otherwise;
        buffered data fills buf from the front. */
    method VReadPass(buf: array<byte>) returns (n: nat, outcome: ReadOutcome)
      requires Valid() && buf !in Repr
      modifies Repr, buf
      ensures Valid() && sendRequests == old(sendRequests)
      ensures n <= buf.Length && (View(), buf[..n], outcome) == ReadPass(old(View()), buf.Length)
      ensures buf[n..] == old(buf[n..])
    {
      if recvBuf.cBuf.currSize == 0 {
        return 0, if state == CLOSE_WAIT then Eof else WouldBlock;
      }
      outcome := Data;
      var numBytesToRead := buf.Length;
      if numBytesToRead > recvBuf.cBuf.currSize {
        numBytesToRead := recvBuf.cBuf.currSize;
      }
      n := recvBuf.cBuf.ReadFromBuf(Add32(recvBuf.lbr, 1), buf, numBytesToRead);
      recvBuf.lbr := Add32(recvBuf.lbr, n);
      recvBuf.cBuf.AdvanceBase(n);
    }

    /** One poll of VClose's loop: sends the FIN once nothing is unsent or unacknowledged. */
    method VClosePoll() returns (closed: bool)
      requires Valid()
      modifies Repr
      ensures Valid() && closed == Flushed(old(View()).snd)
      ensures !closed ==> View() == old(View()) && sendRequests == old(sendRequests)
      ensures closed ==> var (e, out) := TcpSpec.SendFin(old(View()));
        View() == e && sendRequests == old(sendRequests) + out
    {
      var noneInFlight := sendBuf.nxt <= sendBuf.una;
      var noneUnsent := sendBuf.lbw < sendBuf.nxt;
      closed := noneInFlight && noneUnsent;
      if closed {
        SendFin();
      }
    }
  }
}
