/** The record layer on top of a connection: one direction, from side A to side B, run together. */
module TlsOverTcp {
  import opened TcpNetwork
  import opened TcpTheorems
  import opened TlsRecord
  import opened TlsChannel

  /** The connection, and the record layers of its two ends. */
  datatype Joint = Joint(tcp: System, chan: Channel)

  // ---- what the record layer does while the histories of VWrite and VRead grow ----

  /** The record layer starts, counts or gives up a write, gives up a read, or copies bytes out. */
  ghost predicate MovesAlone(a: Aead, c: Channel, c': Channel) {
    exists m: Move :: !m.Accepted? && !m.Received? && CanMove(c, m) && c' == Do(a, c, m)
  }

  /** VWrite takes the next bytes of the record being sent. */
  ghost predicate Writes(written: Bytes, written': Bytes, c: Channel, c': Channel) {
    && written <= written'
    && var more := written'[|written|..];
    && CanMove(c, Accepted(|more|)) && more == c.pending.rest[..|more|]
    && c' == DoAccepted(c, |more|)
  }

  /** VRead returns bytes to a VTLSRead, which feeds them to its reader. */
  ghost predicate Reads(a: Aead, h: Bytes, read: Bytes, read': Bytes, c: Channel, c': Channel) {
    && |h| <= |read| && read <= read'
    && var more := read'[|read|..];
    && !c.ended && c.reader.readBuf == [] && 1 <= |more| <= Wanted(c.reader.partial)
    && c' == c.(reader := PushAll(a, c.reader, more), taken := c.taken + |more|)
  }

  /** h is the handshake, which both histories begin with and the records follow. */
  ghost predicate RecordStep(a: Aead, h: Bytes, written: Bytes, written': Bytes, read: Bytes, read': Bytes,
                             c: Channel, c': Channel) {
    || (written' == written && read' == read && c' == c)
    || (written' == written && read' == read && MovesAlone(a, c, c'))
    || (read' == read && Writes(written, written', c, c'))
    || (written' == written && Reads(a, h, read, read', c, c'))
    || (written' == written && |read'| <= |h| && c' == c)
  }

  /** The connection rests or takes a step, and the record layers with it. */
  ghost predicate JointStep(a: Aead, h: Bytes, j: Joint, j': Joint) {
    && (j'.tcp == j.tcp || Next(j.tcp, j'.tcp))
    && RecordStep(a, h, j.tcp.a.written, j'.tcp.a.written, j.tcp.b.read, j'.tcp.b.read, j.chan, j'.chan)
  }

  ghost predicate JointStepAt(a: Aead, h: Bytes, run: seq<Joint>, i: nat)
    requires i + 1 < |run|
  {
    JointStep(a, h, run[i], run[i + 1])
  }

  /** A has written its handshake h, and B may still be reading it. */
  ghost predicate JointStart(h: Bytes, j: Joint) {
    Reachable(j.tcp) && j.tcp.a.written == h && j.chan == NEW_CHANNEL
  }

  ghost predicate IsJointRun(a: Aead, h: Bytes, run: seq<Joint>) {
    && run != [] && JointStart(h, run[0])
    && forall i: nat :: i < |run| - 1 ==> JointStepAt(a, h, run, i)
  }

  // ---- the link between the two layers ----

  /** The channel's stream is what A wrote after the handshake, and the channel has taken what B
      read after it. */
  ghost predicate Linked(h: Bytes, written: Bytes, read: Bytes, c: Channel) {
    && written == h + c.wire
    && (if |read| < |h| then c.taken == 0 else |read| == |h| + c.taken)
  }

  lemma WritesLinked(h: Bytes, written: Bytes, written': Bytes, read: Bytes, c: Channel, c': Channel)
    requires Linked(h, written, read, c) && Writes(written, written', c, c')
    ensures Linked(h, written', read, c')
  {
    var more := written'[|written|..];
    assert written' == written + more;
    assert h + c.wire + more == h + (c.wire + more);
  }

  /** The bytes that VRead returned are the next ones that VWrite took. */
  lemma ReturnedIsNext(h: Bytes, wire: Bytes, before: Bytes, after: Bytes)
    requires before <= after <= h + wire && |h| <= |before|
    ensures var i := |before| - |h|; var k := |after| - |before|;
      i + k <= |wire| && after[|before|..] == wire[i..i + k]
  {
    var i, k := |before| - |h|, |after| - |before|;
    assert after == (h + wire)[..|after|];
    assert after[|before|..] == (h + wire)[|h| + i..|h| + i + k] == wire[i..i + k];
  }

  lemma ReadsIsReceived(a: Aead, h: Bytes, written: Bytes, read: Bytes, read': Bytes, c: Channel, c': Channel)
    requires Linked(h, written, read, c) && Reads(a, h, read, read', c, c') && read' <= written
    ensures var k := |read'| - |read|; CanMove(c, Received(k)) && c' == DoReceived(a, c, k)
  {
    ReturnedIsNext(h, c.wire, read, read');
  }

  lemma StepLinked(a: Aead, h: Bytes, written: Bytes, written': Bytes, read: Bytes, read': Bytes, c: Channel, c': Channel)
    requires Linked(h, written, read, c) && RecordStep(a, h, written, written', read, read', c, c')
    requires read <= read' <= written'
    ensures Linked(h, written', read', c')
  {
    if read' == read && Writes(written, written', c, c') {
      WritesLinked(h, written, written', read, c, c');
    }
  }

  /** Whatever the connection does, the record layers see a move of the channel. */
  lemma StepIsMove(a: Aead, h: Bytes, written: Bytes, written': Bytes, read: Bytes, read': Bytes,
                   c: Channel, c': Channel) returns (m: Move)
    requires Linked(h, written, read, c) && RecordStep(a, h, written, written', read, read', c, c')
    requires read <= read' <= written'
    ensures CanMove(c, m) && c' == Do(a, c, m)
  {
    if c' == c {
      m := Rest;
    } else if MovesAlone(a, c, c') {
      m :| !m.Accepted? && !m.Received? && CanMove(c, m) && c' == Do(a, c, m);
    } else if Writes(written, written', c, c') {
      m := Accepted(|written'| - |written|);
    } else {
      m := Received(|read'| - |read|);
      ReadsIsReceived(a, h, written, read, read', c, c');
    }
  }

  // ---- along a run ----

  lemma TcpReadsOn(s: System, s': System)
    requires Reachable(s) && Next(s, s')
    ensures Reachable(s') && s.b.read <= s'.b.read <= s'.a.written
  {
    ReachableInv(s);
    NextIsLater(s, s');
    ReachableNext(s, s');
    StreamSafety(s', s'.a, s'.b, s'.ab, s'.ba);
  }

  lemma {:induction false} JointReaches(a: Aead, h: Bytes, run: seq<Joint>, i: nat)
    requires IsJointRun(a, h, run) && i < |run|
    ensures Reachable(run[i].tcp)
    decreases i
  {
    if i > 0 {
      JointReaches(a, h, run, i - 1);
      assert JointStepAt(a, h, run, i - 1);
      if run[i].tcp != run[i - 1].tcp {
        ReachableNext(run[i - 1].tcp, run[i].tcp);
      }
    }
  }

  lemma JointReads(a: Aead, h: Bytes, run: seq<Joint>, i: nat)
    requires IsJointRun(a, h, run) && i + 1 < |run|
    ensures run[i].tcp.b.read <= run[i + 1].tcp.b.read <= run[i + 1].tcp.a.written
  {
    JointReaches(a, h, run, i);
    assert JointStepAt(a, h, run, i);
    var s := run[i].tcp;
    StreamSafety(s, s.a, s.b, s.ab, s.ba);
    if run[i + 1].tcp != s {
      TcpReadsOn(s, run[i + 1].tcp);
    }
  }

  lemma JointRecordStep(a: Aead, h: Bytes, run: seq<Joint>, i: nat)
    requires IsJointRun(a, h, run) && i + 1 < |run|
    ensures var j, j' := run[i], run[i + 1];
      RecordStep(a, h, j.tcp.a.written, j'.tcp.a.written, j.tcp.b.read, j'.tcp.b.read, j.chan, j'.chan)
  {
    assert JointStepAt(a, h, run, i);
  }

  lemma {:induction false} JointRunLinked(a: Aead, h: Bytes, run: seq<Joint>, i: nat)
    requires IsJointRun(a, h, run) && i < |run|
    ensures Linked(h, run[i].tcp.a.written, run[i].tcp.b.read, run[i].chan)
    decreases i
  {
    if i == 0 {
      var s := run[0].tcp;
      StreamSafety(s, s.a, s.b, s.ab, s.ba);
      assert h + [] == h;
    } else {
      JointRunLinked(a, h, run, i - 1);
      JointReads(a, h, run, i - 1);
      JointRecordStep(a, h, run, i - 1);
      var j, j' := run[i - 1], run[i];
      StepLinked(a, h, j.tcp.a.written, j'.tcp.a.written, j.tcp.b.read, j'.tcp.b.read, j.chan, j'.chan);
    }
  }

  /** What the record layers do in a joint run. */
  function Channels(run: seq<Joint>): (chans: seq<Channel>)
    ensures |chans| == |run|
  {
    seq(|run|, i requires 0 <= i < |run| => run[i].chan)
  }

  lemma JointMoveAt(a: Aead, h: Bytes, run: seq<Joint>, i: nat)
    requires IsJointRun(a, h, run) && i + 1 < |run|
    ensures MoveAt(a, Channels(run), i)
  {
    JointRunLinked(a, h, run, i);
    JointReads(a, h, run, i);
    JointRecordStep(a, h, run, i);
    var j, j' := run[i], run[i + 1];
    var m := StepIsMove(a, h, j.tcp.a.written, j'.tcp.a.written, j.tcp.b.read, j'.tcp.b.read, j.chan, j'.chan);
    assert Channels(run)[i] == j.chan && Channels(run)[i + 1] == j'.chan;
  }

  /** It is a run of the channel: the network adds nothing that the record layers could see. */
  lemma JointIsChannelRun(a: Aead, h: Bytes, run: seq<Joint>)
    requires IsJointRun(a, h, run)
    ensures IsChannelRun(a, Channels(run))
  {
    forall i: nat | i < |run| - 1 ensures MoveAt(a, Channels(run), i) {
      JointMoveAt(a, h, run, i);
    }
  }

  // ---- what every joint run guarantees ----

  /** Over a network that loses, repeats, delays and reorders: at every moment of every run what
      B's VTLSRead has returned, followed by what it holds back, is the concatenation of the first
      readSeq records that A put on its stream, no record was refused, and none was read before
      A's VTLSWrite had sent it whole. */
  lemma RecordsSurviveTheNetwork(a: Aead, h: Bytes, run: seq<Joint>, i: nat)
    requires Lawful(a) && IsJointRun(a, h, run) && i < |run|
    ensures var c := run[i].chan; var n := c.reader.readSeq;
      && n <= |c.records| && c.reader.faults == 0 && c.written <= c.records
      && c.delivered + c.reader.readBuf == Concat(c.records[..n])
      && n <= c.writeSeq + 1
      && (n > c.writeSeq <==> SentUncounted(c) && c.taken == |c.wire|)
  {
    JointIsChannelRun(a, h, run);
    RecordStream(a, Channels(run), i);
  }

  lemma TakenAll(a: Aead, c: Channel)
    requires Lawful(a) && ChannelInv(a, c) && c.taken == |c.wire| && c.pending.Idle? && !c.refused
    ensures c.reader.readSeq == c.writeSeq && c.delivered + c.reader.readBuf == Concat(c.written)
  {
    assert c.wire[..c.taken] == c.wire;
    assert c.records[..c.writeSeq] == c.records;
    WholeStreamDecodes(a, c.records);
  }

  /** When B's VRead has reported the end of the stream, and A's writes have all succeeded, B has
      opened every plaintext that A wrote. */
  lemma AllRecordsByEof(a: Aead, h: Bytes, run: seq<Joint>, i: nat)
    requires Lawful(a) && IsJointRun(a, h, run) && i < |run|
    requires run[i].tcp.b.eof && run[i].chan.pending.Idle? && !run[i].chan.refused
    ensures var c := run[i].chan;
      c.reader.readSeq == c.writeSeq && c.delivered + c.reader.readBuf == Concat(c.written)
  {
    JointReaches(a, h, run, i);
    var s := run[i].tcp;
    EofMeansComplete(s, s.a, s.b, s.ab, s.ba);
    JointRunLinked(a, h, run, i);
    JointIsChannelRun(a, h, run);
    ChannelRunInv(a, Channels(run), i);
    TakenAll(a, run[i].chan);
  }
}
