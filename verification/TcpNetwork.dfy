/** A connection as a transition system: two endpoints, their goroutines and application
    threads, and a network that loses, duplicates, delays and reorders. Every critical section
    of the source is one step. */
module TcpNetwork {
  import opened Words
  import opened TcpSpec

  /** The thread that calls VWrite and VClose. While writing, `total` bytes of `data` are in the
      buffer; `start` records how many bytes had been written when the call began. */
  datatype Writer = WriterIdle | Writing(data: seq<byte>, total: nat, start: nat, blocked: bool) | Closing

  /** The thread that calls VRead with a buffer of `max` bytes. */
  datatype Reader = ReaderIdle | Reading(max: nat, blocked: bool)

  /** One side. `written` and `read` are the histories of VWrite and VRead; `eof` records that
      VRead returned io.EOF, `stale` that an ACK below una was processed. */
  datatype Node = Node(ep: Endpoint, loop: LoopPc, writer: Writer, reader: Reader,
                       iss: uint32, written: seq<byte>, read: seq<byte>, eof: bool, stale: bool)

  datatype Action =
    | WriteCall(data: seq<byte>) | WriteStep | WriteWake
    | ReadCall(max: nat) | ReadStep | ReadWake
    | CloseCall | ClosePoll
    | WakeOnData | WakeOnZwp | WakeOnWindow | ProbeTimer | LoopStep
    | RtoFires | TimeWaitExpires
    | Receive(packet: Packet, rtt: real)

  ghost predicate Enabled(x: Node, inbox: set<Packet>, act: Action) {
    match act
    case WriteCall(data) => x.writer.WriterIdle?
    case WriteStep =>
      && x.writer.Writing? && !x.writer.blocked && x.ep.state != CLOSED
      // The run does not exhaust the sequence space.
      && x.ep.snd.lbw + |x.writer.data| - x.writer.total + 4 <= WORD
    case WriteWake => x.writer.Writing? && x.writer.blocked && x.ep.snd.spaceAvailable
    case ReadCall(max) => x.reader.ReaderIdle?
    case ReadStep => x.reader.Reading? && !x.reader.blocked
    case ReadWake => x.reader.Reading? && x.reader.blocked && x.ep.rcv.dataToRead
    case CloseCall => x.writer.WriterIdle?
    case ClosePoll => x.writer.Closing?
    case WakeOnData => x.loop.Parked? && x.ep.snd.dataWritten
    case WakeOnZwp => x.loop.Parked? && x.ep.snd.zwpTrigger
    case WakeOnWindow => (x.loop.ProbeWait? || x.loop.WindowWait?) && x.ep.snd.windowUpdated
    case ProbeTimer => x.loop.ProbeWait?
    case LoopStep => x.loop.Running?
    case RtoFires => x.ep.rtx.timerArmed
    case TimeWaitExpires => x.ep.state == TIME_WAIT
    case Receive(p, rtt) => p in inbox && rtt >= 0.0
  }

  // ---- the steps ----

  function DoWriteStep(x: Node): Node
    requires x.writer.Writing? && x.writer.total <= |x.writer.data| && x.ep.WellFormed()
  {
    if x.writer.total == |x.writer.data| then x.(writer := WriterIdle)
    else if x.ep.snd.ring.FreeSpace() == 0 then x.(writer := x.writer.(blocked := true))
    else AppendChunk(x, NextChunk(x.ep.snd, x.writer.data, x.writer.total))
  }

  function AppendChunk(x: Node, chunk: seq<byte>): Node
    requires x.writer.Writing? && x.ep.WellFormed() && |chunk| <= x.ep.snd.ring.FreeSpace()
  {
    x.(ep := x.ep.(snd := WriteChunk(x.ep.snd, chunk)),
       writer := x.writer.(total := x.writer.total + |chunk|),
       written := x.written + chunk)
  }

  function DoReadStep(x: Node): Node
    requires x.reader.Reading? && x.ep.WellFormed()
  {
    var (e, bytes, outcome) := ReadPass(x.ep, x.reader.max);
    match outcome
    case Data => x.(ep := e, reader := ReaderIdle, read := x.read + bytes)
    case Eof => x.(reader := ReaderIdle, eof := true)
    case WouldBlock => x.(reader := x.reader.(blocked := true))
  }

  function DoClosePoll(x: Node): (Node, seq<Packet>)
    requires x.ep.WellFormed()
  {
    if Flushed(x.ep.snd) then
      var (e, out) := SendFin(x.ep);
      (x.(ep := e, writer := WriterIdle), out)
    else (x, [])
  }

  function DoLoopStep(x: Node): (Node, seq<Packet>)
    requires x.ep.WellFormed()
  {
    var (e, out, pc) := SendLoopStep(x.ep);
    (x.(ep := e, loop := pc), out)
  }

  function DoRtoFires(x: Node): (Node, seq<Packet>)
    requires x.ep.WellFormed() && x.ep.rtx.queue != []
  {
    var (e, out) := Retransmit(x.ep);
    (x.(ep := e), out)
  }

  /** The packet goes to handlePureAck. */
  predicate TakenAsAck(e: Endpoint, p: Packet) {
    && p.ack && p.data == []
    && (e.state == LAST_ACK || (e.state != CLOSED && e.state != TIME_WAIT && !p.fin))
  }

  function DoReceive(x: Node, p: Packet, rtt: real): (Node, seq<Packet>)
    requires x.ep.WellFormed() && |p.data| < WORD
  {
    var (e, out) := HandleTcp(x.ep, p, rtt);
    (x.(ep := e, stale := x.stale || (TakenAsAck(x.ep, p) && p.ackNum < x.ep.snd.una)), out)
  }

  /** Taking a token, or a probe timeout, and resuming. */
  predicate IsWake(act: Action) {
    act.WakeOnData? || act.WakeOnZwp? || act.WakeOnWindow? || act.ProbeTimer? || act.WriteWake? || act.ReadWake?
  }

  function Wake(x: Node, act: Action): Node
    requires IsWake(act)
    requires act.WriteWake? ==> x.writer.Writing?
    requires act.ReadWake? ==> x.reader.Reading?
  {
    var s := x.ep.snd;
    match act
    case WakeOnData => x.(loop := Running, ep := x.ep.(snd := s.(dataWritten := false)))
    case WakeOnZwp => x.(loop := Running, ep := x.ep.(snd := s.(zwpTrigger := false)))
    case WakeOnWindow => x.(loop := Running, ep := x.ep.(snd := s.(windowUpdated := false)))
    case WriteWake => x.(writer := x.writer.(blocked := false), ep := x.ep.(snd := s.(spaceAvailable := false)))
    case ReadWake => x.(reader := x.reader.(blocked := false), ep := x.ep.(rcv := x.ep.rcv.(dataToRead := false)))
    case _ => x.(loop := Running)
  }

  /** The application enters VWrite, VRead or VClose; all are refused once this side closes. */
  predicate IsCall(act: Action) {
    act.WriteCall? || act.ReadCall? || act.CloseCall?
  }

  function Call(x: Node, act: Action): Node
    requires IsCall(act)
  {
    if !MayWrite(x.ep.state) then x
    else
      match act
      case WriteCall(data) => x.(writer := Writing(data, 0, |x.written|, false))
      case ReadCall(max) => x.(reader := Reading(max, false))
      case _ => x.(writer := Closing)
  }

  function Act(x: Node, act: Action): (Node, seq<Packet>)
    requires x.ep.WellFormed()
    requires x.writer.Writing? ==> x.writer.total <= |x.writer.data|
    requires act.WriteStep? || act.WriteWake? ==> x.writer.Writing?
    requires act.ReadStep? || act.ReadWake? ==> x.reader.Reading?
    requires act.RtoFires? ==> x.ep.rtx.queue != []
    requires act.Receive? ==> |act.packet.data| < WORD
  {
    if IsWake(act) then (Wake(x, act), [])
    else if IsCall(act) then (Call(x, act), [])
    else
      match act
      case WriteStep => (DoWriteStep(x), [])
      case ReadStep => (DoReadStep(x), [])
      case ClosePoll => DoClosePoll(x)
      case LoopStep => DoLoopStep(x)
      case RtoFires => DoRtoFires(x)
      case Receive(p, rtt) => DoReceive(x, p, rtt)
      case _ => (x.(ep := x.ep.(state := CLOSED)), [])
  }

  datatype System = System(a: Node, b: Node, ab: set<Packet>, ba: set<Packet>)

  function ToSet(out: seq<Packet>): set<Packet> {
    set p | p in out
  }

  /** Side A takes a step: it may receive anything ever sent to it. */
  ghost predicate StepA(s: System, act: Action, s': System)
    requires Steppable(s.a, s.ba, act)
  {
    var (x, out) := Act(s.a, act);
    s' == s.(a := x, ab := s.ab + ToSet(out))
  }

  ghost predicate StepB(s: System, act: Action, s': System)
    requires Steppable(s.b, s.ab, act)
  {
    var (x, out) := Act(s.b, act);
    s' == s.(b := x, ba := s.ba + ToSet(out))
  }

  /** Enabled, and free of the run-time panics that the invariant below rules out: an index into
      an empty retransmission queue, a slice past the end of the caller's data. */
  ghost predicate Steppable(x: Node, inbox: set<Packet>, act: Action) {
    && Enabled(x, inbox, act)
    && x.ep.WellFormed()
    && (x.writer.Writing? ==> x.writer.total <= |x.writer.data|)
    && (act.RtoFires? ==> x.ep.rtx.queue != [])
    && (act.Receive? ==> |act.packet.data| < WORD)
  }

  ghost predicate Next(s: System, s': System) {
    exists act: Action ::
      || (Steppable(s.a, s.ba, act) && StepA(s, act, s'))
      || (Steppable(s.b, s.ab, act) && StepB(s, act, s'))
  }

  function NewNode(iss: uint32, irs: uint32): Node {
    Node(NewEndpoint(iss, irs), Parked, WriterIdle, ReaderIdle, iss, [], [], false, false)
  }

  /** Both sides ESTABLISHED with agreed pointers and no handshake packet left in the network. */
  ghost predicate Init(s: System) {
    && 0 < s.a.iss && s.a.iss + 3 <= WORD
    && 0 < s.b.iss && s.b.iss + 3 <= WORD
    && s.a == NewNode(s.a.iss, s.b.iss)
    && s.b == NewNode(s.b.iss, s.a.iss)
    && s.ab == {} && s.ba == {}
  }

  ghost predicate StepAt(run: seq<System>, i: nat)
    requires i + 1 < |run|
  {
    Next(run[i], run[i + 1])
  }

  ghost predicate IsRun(run: seq<System>) {
    && run != []
    && Init(run[0])
    && forall i: nat :: i < |run| - 1 ==> StepAt(run, i)
  }

  ghost predicate Reachable(s: System) {
    exists run: seq<System> :: IsRun(run) && run[|run| - 1] == s
  }
}
