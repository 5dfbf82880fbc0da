/** What each critical section of pkg/tcpStack does to one endpoint, as functions on values.
    The classes of TcpSocket are proved to compute these functions; TcpNetwork proves what a
    connection built from them guarantees. */
module TcpSpec {
  import opened Words
  import opened CircleBuffers
  import opened EarlyArrivalHeap

  const MAX_SEG_SIZE: nat := 1360
  const MAX_RETRANSMISSIONS: nat := 4
  // Milliseconds, as reals.
  const RTO_MIN: real := 250.0
  const RTO_MAX: real := 5000.0
  const RTO_INIT: real := 1000.0
  const RTO_ALPHA: real := 0.85
  const RTO_BETA: real := 1.65

  datatype TcpState = CLOSED | ESTABLISHED | FIN_WAIT_1 | CLOSE_WAIT | LAST_ACK | FIN_WAIT_2 | TIME_WAIT

  datatype Packet = Packet(seqNum: uint32, ackNum: uint32, fin: bool, ack: bool, window: uint16, data: seq<byte>)

  datatype RtxEntry = RtxEntry(seqNum: uint32, len: uint32, fin: bool, retransmitted: bool, numRetransmits: nat)
  {
    function End(): uint32 { Add32(seqNum, len) }
  }

  /** RetransmissionQueue. */
  datatype Rtx = Rtx(queue: seq<RtxEntry>, timerArmed: bool, rto: real, srtt: real)

  /** SendBuf. The four booleans after isProbing are the one-slot channels: true when a token waits. */
  datatype Snd = Snd(ring: Ring, una: uint32, nxt: uint32, lbw: uint32, window: uint16, isProbing: bool,
                     dataWritten: bool, spaceAvailable: bool, windowUpdated: bool, zwpTrigger: bool)
  {
    function BytesInFlight(): uint32 { Sub32(nxt, una) }
  }

  /** RecvBuf. */
  datatype Rcv = Rcv(ring: Ring, lbr: uint32, nxt: uint32, fin: uint32, heap: Heap, dataToRead: bool)
  {
    function AvailableWindow(): int { MAX_WIN_SIZE - ring.size }
  }

  datatype Endpoint = Endpoint(state: TcpState, seqNum: uint32, snd: Snd, rtx: Rtx, rcv: Rcv)
  {
    /** What the Go types and the buffer code guarantee on their own. */
    ghost predicate WellFormed() {
      && snd.ring.Valid()
      && rcv.ring.Valid()
      && (forall i :: 0 <= i < |rtx.queue| ==> rtx.queue[i].len <= MAX_SEG_SIZE)
    }
  }

  /** Where the send loop is: at the outer select, running its inner loop, in the probe select,
      blocked for a window update, or returned. */
  datatype LoopPc = Parked | Running | ProbeWait | WindowWait | Exited

  function NewEndpoint(iss: uint32, irs: uint32): Endpoint {
    Endpoint(ESTABLISHED, iss,
      Snd(NewRing(iss), iss, iss, Sub32(iss, 1), MAX_WIN_SIZE, false, false, false, false, false),
      Rtx([], false, RTO_INIT, 0.0),
      Rcv(NewRing(irs), Sub32(irs, 1), irs, 0, [], false))
  }

  // ---- retransmission timing ----

  function NewSrtt(srtt: real, rtt: real): real {
    if srtt == 0.0 then rtt else RTO_ALPHA * srtt + (1.0 - RTO_ALPHA) * rtt
  }

  function MinReal(x: real, y: real): real { if x <= y then x else y }
  function MaxReal(x: real, y: real): real { if x <= y then y else x }

  function UpdateRto(q: Rtx, rtt: real): Rtx {
    var srtt := NewSrtt(q.srtt, rtt);
    q.(srtt := srtt, rto := MaxReal(RTO_MIN, MinReal(RTO_BETA * srtt, RTO_MAX)))
  }

  // ---- packets ----

  function PureAck(e: Endpoint, ackNum: uint32): Packet
    requires e.WellFormed()
  {
    Packet(e.seqNum, ackNum, false, true, e.rcv.AvailableWindow(), [])
  }

  function Segment(e: Endpoint, data: seq<byte>, seqNum: uint32, fin: bool): Packet
    requires e.WellFormed()
  {
    Packet(seqNum, e.rcv.nxt, fin, true, e.rcv.AvailableWindow(), data)
  }

  // ---- receiving ACKs ----

  /** The queue after popping every entry that ends at or before ackNum. */
  function PopAcked(q: seq<RtxEntry>, ackNum: uint32): seq<RtxEntry> {
    if q != [] && q[0].End() <= ackNum then PopAcked(q[1..], ackNum) else q
  }

  /** The last entry popped. */
  function LastAcked(q: seq<RtxEntry>, ackNum: uint32, last: Option<RtxEntry>): Option<RtxEntry> {
    if q != [] && q[0].End() <= ackNum then LastAcked(q[1..], ackNum, Some(q[0])) else last
  }

  /** An ACK takes off the queue exactly the entries at the front that it covers whole, and the
      last of them gives the RTT sample unless it was ever resent (Karn's algorithm). */
  lemma {:induction false} AckTakesCoveredEntries(q: seq<RtxEntry>, ackNum: uint32, last: Option<RtxEntry>)
    ensures |PopAcked(q, ackNum)| <= |q|
    ensures var k := |q| - |PopAcked(q, ackNum)|;
      && PopAcked(q, ackNum) == q[k..]
      && (forall i :: 0 <= i < k ==> q[i].End() <= ackNum)
      && (k < |q| ==> q[k].End() > ackNum)
      && LastAcked(q, ackNum, last) == (if k > 0 then Some(q[k - 1]) else last)
    decreases |q|
  {
    if q != [] && q[0].End() <= ackNum {
      AckTakesCoveredEntries(q[1..], ackNum, Some(q[0]));
    }
  }

  /** The retransmission bookkeeping of an ACK of new data. */
  function AckQueue(q: Rtx, ackNum: uint32, rtt: real): Rtx {
    var acked := LastAcked(q.queue, ackNum, None);
    var q1 := q.(queue := PopAcked(q.queue, ackNum));
    var q2 := if acked.Some? && !acked.value.retransmitted then UpdateRto(q1, rtt) else q1;
    q2.(timerArmed := q2.queue != [])
  }

  /** The tail of handlePureAck: start probing if the window closed, and wake the send loop. */
  function AckTail(s: Snd): Snd {
    var s1 := if s.window == 0 && s.lbw >= s.nxt && !s.isProbing
              then s.(isProbing := true, zwpTrigger := true) else s;
    s1.(windowUpdated := true)
  }

  /** The rest of handlePureAck once new data was acknowledged. */
  function FinishAck(e: Endpoint, ackNum: uint32): Endpoint {
    if e.state == LAST_ACK && ackNum == e.snd.nxt then e.(state := CLOSED)
    else e.(state := if e.state == FIN_WAIT_1 && ackNum == e.snd.nxt then FIN_WAIT_2 else e.state,
            snd := AckTail(e.snd.(spaceAvailable := true)))
  }

  function HandlePureAck(e: Endpoint, seg: Packet, rtt: real): Endpoint
    requires e.WellFormed()
  {
    var s := e.snd;
    if seg.ackNum > s.nxt then
      if s.isProbing && seg.ackNum == Add32(s.nxt, 1) then
        e.(seqNum := seg.ackNum,
           snd := s.(window := seg.window, una := seg.ackNum, nxt := seg.ackNum,
                     ring := s.ring.AdvanceBase(Sub32(seg.ackNum, s.una)),
                     spaceAvailable := true, windowUpdated := true))
      else e
    else if s.una < seg.ackNum then
      FinishAck(e.(rtx := AckQueue(e.rtx, seg.ackNum, rtt),
                   snd := s.(window := seg.window, una := seg.ackNum,
                             ring := s.ring.AdvanceBase(Sub32(seg.ackNum, s.una)))), seg.ackNum)
    else
      e.(snd := s.(window := seg.window))
  }

  // ---- receiving data and FIN ----

  /** The state switch shared by handleFin and handleEarlyFin. */
  function FinReceived(e: Endpoint): Endpoint {
    match e.state
    case ESTABLISHED => e.(state := CLOSE_WAIT, rcv := e.rcv.(dataToRead := true))
    case FIN_WAIT_1 => e.(state := TIME_WAIT)
    case FIN_WAIT_2 => e.(state := TIME_WAIT)
    case _ => e
  }

  /** Consumes the FIN at nxt: acknowledges it and switches state. */
  function ConsumeFin(e: Endpoint): (Endpoint, seq<Packet>)
    requires e.WellFormed()
  {
    var e1 := e.(rcv := e.rcv.(nxt := Add32(e.rcv.nxt, 1), fin := 0));
    (FinReceived(e1), [PureAck(e1, e1.rcv.nxt)])
  }

  function HandleEarlyFin(e: Endpoint): (Endpoint, seq<Packet>)
    requires e.WellFormed()
  {
    if e.rcv.fin == 0 || e.rcv.fin != e.rcv.nxt then (e, []) else ConsumeFin(e)
  }

  function HandleFin(e: Endpoint, seg: Packet): (Endpoint, seq<Packet>)
    requires e.WellFormed()
  {
    var e1 := e.(rcv := e.rcv.(fin := seg.seqNum));
    if seg.seqNum > e.rcv.nxt then (e1, [])
    else if seg.seqNum < e.rcv.nxt then (e1, [PureAck(e1, e1.rcv.nxt)])
    else ConsumeFin(e1)
  }

  /** Appends in-order data to the receive ring. */
  function Accept(r: Rcv, data: seq<byte>): Rcv
    requires r.ring.Valid() && |data| <= r.ring.FreeSpace()
  {
    r.(ring := r.ring.Write(r.nxt, data), nxt := Add32(r.nxt, |data|))
  }

  /** True when the drain loop takes another segment from the heap. */
  predicate CanDrain(r: Rcv) {
    r.heap != [] && r.heap[0].startSeq == r.nxt && |r.heap[0].data| <= r.ring.FreeSpace()
  }

  /** The drain loop of handlePayload. */
  function Drain(e: Endpoint): (Endpoint, seq<Packet>)
    requires e.WellFormed()
    decreases |e.rcv.heap|
  {
    if e.rcv.heap == [] then HandleEarlyFin(e)
    else if !CanDrain(e.rcv) then (e, [])
    else Drain(DrainOne(e))
  }

  function DrainOne(e: Endpoint): (r: Endpoint)
    requires e.WellFormed() && CanDrain(e.rcv)
    ensures r.WellFormed() && |r.rcv.heap| < |e.rcv.heap|
  {
    e.(rcv := Accept(e.rcv, e.rcv.heap[0].data).(heap := PopHeap(e.rcv.heap)))
  }

  function HandlePayload(e: Endpoint, seg: Packet): (Endpoint, seq<Packet>)
    requires e.WellFormed() && 0 < |seg.data| < WORD
  {
    var r := e.rcv;
    if seg.seqNum > r.nxt then
      (e.(rcv := r.(heap := PushHeap(r.heap, EarlyArrival(seg.seqNum, Add32(seg.seqNum, |seg.data|), seg.data)))),
       [PureAck(e, r.nxt)])
    else if seg.seqNum < r.nxt then (e, [PureAck(e, r.nxt)])
    else if r.ring.FreeSpace() == 0 then (e, [PureAck(e, r.nxt)])
    else
      HandleInOrder(e, Fitting(seg.data, r.ring.FreeSpace()))
  }

  /** The payload, cut to the room there is. */
  function Fitting(data: seq<byte>, space: nat): (r: seq<byte>)
    ensures r <= data && |r| <= space && (data != [] && space > 0 ==> r != [])
  {
    if |data| > space then data[..space] else data
  }

  /** Accepts the expected bytes, drains the heap behind them, wakes the reader, acknowledges. */
  function HandleInOrder(e: Endpoint, payload: seq<byte>): (Endpoint, seq<Packet>)
    requires e.WellFormed() && |payload| <= e.rcv.ring.FreeSpace()
  {
    var e0 := e.(rcv := Accept(e.rcv, payload));
    var (e1, out) := Drain(e0);
    DrainWellFormed(e0);
    var e2 := e1.(rcv := e1.rcv.(dataToRead := true));
    (e2, out + [PureAck(e2, e2.rcv.nxt)])
  }

  lemma {:induction false} DrainWellFormed(e: Endpoint)
    requires e.WellFormed()
    ensures Drain(e).0.WellFormed()
    decreases |e.rcv.heap|
  {
    if e.rcv.heap != [] && CanDrain(e.rcv) {
      DrainWellFormed(DrainOne(e));
    }
  }

  /** The per-state dispatch of HandleTCP for an open connection. SYN and RST segments are not
      part of this model; a CLOSED connection is no longer in the socket table. */
  function HandleTcp(e: Endpoint, seg: Packet, rtt: real): (Endpoint, seq<Packet>)
    requires e.WellFormed() && |seg.data| < WORD
  {
    match e.state
    case CLOSED => (e, [])
    case TIME_WAIT => (e, [])
    case LAST_ACK => if seg.ack && seg.data == [] then (HandlePureAck(e, seg, rtt), []) else (e, [])
    case _ =>
      if seg.fin then HandleFin(e, seg)
      else if seg.ack && seg.data == [] then (HandlePureAck(e, seg, rtt), [])
      else if seg.data == [] then (e, [])
      else HandlePayload(e, seg)
  }

  // ---- sending ----

  /** How many bytes the next data segment carries. */
  function Sendable(s: Snd): int {
    Min(Min(Add32(Sub32(s.lbw, s.nxt), 1), s.window - s.BytesInFlight()), MAX_SEG_SIZE)
  }

  /** One iteration of the inner loop of sendLoop. */
  function SendLoopStep(e: Endpoint): (Endpoint, seq<Packet>, LoopPc)
    requires e.WellFormed()
  {
    var s := e.snd;
    if s.lbw < s.nxt then (e, [], if e.state == CLOSED then Exited else Parked)
    else if s.window - s.BytesInFlight() <= 0 then
      if s.window == 0 && s.BytesInFlight() == 0 then
        (e.(snd := s.(isProbing := true)), [Segment(e, s.ring.SliceFrom(s.una, 1), s.una, false)], ProbeWait)
      else (e, [], WindowWait)
    else
      var n := Sendable(s);
      (e.(snd := s.(isProbing := false, nxt := Add32(s.nxt, n)),
          seqNum := Add32(s.nxt, n),
          rtx := e.rtx.(timerArmed := e.rtx.timerArmed || e.rtx.queue == [],
                        queue := e.rtx.queue + [RtxEntry(e.seqNum, n, false, false, 0)])),
       [Segment(e, s.ring.SliceFrom(s.nxt, n), e.seqNum, false)], Running)
  }

  /** The retransmission timer fires. */
  function Retransmit(e: Endpoint): (Endpoint, seq<Packet>)
    requires e.WellFormed() && e.rtx.queue != []
  {
    var h := e.rtx.queue[0];
    var h1 := h.(retransmitted := true, numRetransmits := h.numRetransmits + 1);
    var q := e.rtx.(queue := e.rtx.queue[0 := h1]);
    if h1.numRetransmits > MAX_RETRANSMISSIONS then
      (e.(state := CLOSED, rtx := q.(timerArmed := false)), [])
    else
      (e.(rtx := q.(timerArmed := true, rto := MinReal(q.rto * 2.0, RTO_MAX))),
       [Segment(e, e.snd.ring.SliceFrom(h.seqNum, h.len), h.seqNum, h.fin)])
  }

  function SendFin(e: Endpoint): (Endpoint, seq<Packet>)
    requires e.WellFormed()
  {
    (e.(snd := e.snd.(nxt := Add32(e.snd.nxt, 1)),
        seqNum := Add32(e.snd.nxt, 1),
        rtx := e.rtx.(timerArmed := e.rtx.timerArmed || e.rtx.queue == [],
                      queue := e.rtx.queue + [RtxEntry(e.seqNum, 0, true, false, 0)]),
        state := if e.state == ESTABLISHED then FIN_WAIT_1 else LAST_ACK),
     [Segment(e, [], e.seqNum, true)])
  }

  // ---- the application side ----

  predicate MayWrite(state: TcpState) {
    state == ESTABLISHED || state == CLOSE_WAIT
  }

  /** One chunk of VWrite. */
  function WriteChunk(s: Snd, chunk: seq<byte>): Snd
    requires s.ring.Valid() && |chunk| <= s.ring.FreeSpace()
  {
    s.(ring := s.ring.Write(Add32(s.lbw, 1), chunk), lbw := Add32(s.lbw, |chunk|), dataWritten := true)
  }

  /** VClose may go on to send the FIN. */
  predicate Flushed(s: Snd) {
    s.nxt <= s.una && s.lbw < s.nxt
  }

  /** VRead takes n bytes. */
  function ReadBytes(r: Rcv, n: nat): (seq<byte>, Rcv)
    requires r.ring.Valid() && n <= r.ring.size
  {
    (r.ring.SliceFrom(Add32(r.lbr, 1), n), r.(lbr := Add32(r.lbr, n), ring := r.ring.AdvanceBase(n)))
  }

  /** What the next pass of VWrite copies: as much of the rest as there is room for. */
  function NextChunk(s: Snd, data: seq<byte>, total: nat): seq<byte>
    requires total <= |data| && s.ring.Valid()
  {
    data[total..total + Min(|data| - total, s.ring.FreeSpace())]
  }

  datatype ReadOutcome = Data | Eof | WouldBlock

  /** One pass of VRead with a buffer of max bytes. */
  function ReadPass(e: Endpoint, max: nat): (Endpoint, seq<byte>, ReadOutcome)
    requires e.WellFormed()
  {
    if e.rcv.ring.size == 0 then (e, [], if e.state == CLOSE_WAIT then Eof else WouldBlock)
    else
      var (bytes, rcv) := ReadBytes(e.rcv, Min(max, e.rcv.ring.size));
      (e.(rcv := rcv), bytes, Data)
  }
}
