/** One direction of a record connection as a transition system. Every VWrite or VRead of the
    record layer is a step; how much each transfers, and when the stream ends, is arbitrary. */
module TlsChannel {
  import opened BigEndian
  import opened TlsRecord

  /** A VTLSWrite in progress: the nonce it sealed with, its argument, and the bytes of the record
      that no VWrite has taken yet. */
  datatype Pending = Idle | Sending(nonce: Bytes, plain: Bytes, rest: Bytes)

  /** `sealedWith` lists the nonces of all calls of Seal and `written` the arguments of the
      VTLSWrites that succeeded; `records` and `nonces` belong to the records of which any byte is
      on the stream. `refused` and `ended` tell that VWrite, respectively VRead, has failed, which
      the stream makes final. */
  datatype Channel = Channel(
    writeSeq: nat, pending: Pending, refused: bool, sealedWith: seq<Bytes>, written: seq<Bytes>,
    wire: Bytes, records: seq<Bytes>, nonces: seq<Bytes>,
    taken: nat, ended: bool, reader: Reader, delivered: Bytes)

  datatype Move =
    | BeginWrite(plain: Bytes) | Accepted(k: nat) | EndWrite | WriteFails
    | Received(k: nat) | ReadFails | Copied(k: nat) | Rest

  const NEW_CHANNEL := Channel(0, Idle, false, [], [], [], [], [], 0, false, NEW_READER, [])

  /** How much VTLSRead asks of VRead: the rest of the length field, or of the sealed data. */
  function Wanted(partial: Bytes): int {
    if |partial| < 4 then 4 - |partial| else 4 + Uint32(partial[..4]) - |partial|
  }

  predicate CanMove(c: Channel, m: Move) {
    match m
    // The length fits its field and the counter does not wrap.
    case BeginWrite(plain) => c.pending.Idle? && Fits(plain) && c.writeSeq + 1 < UINT64
    case Accepted(k) => c.pending.Sending? && !c.refused && 1 <= k <= |c.pending.rest|
    case EndWrite => c.pending.Sending? && c.pending.rest == []
    case WriteFails => c.pending.Sending? && c.pending.rest != []
    case Received(k) => !c.ended && c.reader.readBuf == [] && 1 <= k <= Wanted(c.reader.partial) && c.taken + k <= |c.wire|
    case ReadFails => c.reader.readBuf == []
    case Copied(k) => k <= |c.reader.readBuf|
    case Rest => true
  }

  /** VWrite takes the first k bytes of what is left of the record. */
  function DoAccepted(c: Channel, k: nat): Channel
    requires CanMove(c, Accepted(k))
  {
    var p := c.pending;
    var c1 := c.(wire := c.wire + p.rest[..k], pending := p.(rest := p.rest[k..]));
    if |c.records| == c.writeSeq then c1.(records := c.records + [p.plain], nonces := c.nonces + [p.nonce]) else c1
  }

  /** VRead returns the next k bytes. */
  function DoReceived(a: Aead, c: Channel, k: nat): Channel
    requires c.taken + k <= |c.wire|
  {
    c.(reader := PushAll(a, c.reader, c.wire[c.taken..c.taken + k]), taken := c.taken + k)
  }

  function Do(a: Aead, c: Channel, m: Move): Channel
    requires CanMove(c, m)
  {
    match m
    case BeginWrite(plain) =>
      var nonce := Nonce(Counter(c.writeSeq));
      c.(sealedWith := c.sealedWith + [nonce], pending := Sending(nonce, plain, Framed(a.seal(nonce, plain))))
    case Accepted(k) => DoAccepted(c, k)
    case EndWrite => c.(writeSeq := c.writeSeq + 1, pending := Idle, written := c.written + [c.pending.plain])
    case WriteFails => c.(pending := Idle, refused := true)
    case Received(k) => DoReceived(a, c, k)
    case ReadFails => c.(ended := true, reader := c.reader.(partial := []))
    case Copied(k) =>
      c.(delivered := c.delivered + c.reader.readBuf[..k], reader := c.reader.(readBuf := c.reader.readBuf[k..]))
    case Rest => c
  }

  ghost predicate MoveAt(a: Aead, run: seq<Channel>, i: nat)
    requires i + 1 < |run|
  {
    exists m :: CanMove(run[i], m) && run[i + 1] == Do(a, run[i], m)
  }

  ghost predicate IsChannelRun(a: Aead, run: seq<Channel>) {
    && run != [] && run[0] == NEW_CHANNEL
    && forall i: nat :: i < |run| - 1 ==> MoveAt(a, run, i)
  }

  // ---- the invariant ----

  /** The writing half: the stream is what the records make, up to the part still to be sent. */
  ghost predicate WriterInv(a: Aead, c: Channel) {
    && |c.written| == c.writeSeq <= |c.records| <= c.writeSeq + 1
    && Sendable(c.records)
    && c.written == c.records[..c.writeSeq]
    && c.wire <= Frames(a, c.records)
    && (|c.records| == c.writeSeq ==> c.wire == Frames(a, c.records))
    && (c.pending.Idle? && !c.refused ==> |c.records| == c.writeSeq)
    && (c.pending.Idle? && |c.records| > c.writeSeq ==> c.wire != Frames(a, c.records))
    && (c.pending.Sending? ==> c.writeSeq + 1 < UINT64 && PendingInv(a, c))
  }

  ghost predicate PendingInv(a: Aead, c: Channel)
    requires c.pending.Sending? && c.writeSeq + 1 < UINT64
  {
    var p := c.pending;
    && Fits(p.plain) && p.nonce == Nonce(c.writeSeq)
    && (c.refused ==> p.rest != [])
    && (|c.records| == c.writeSeq ==> p.rest == Frame(a, c.writeSeq, p.plain))
    && (|c.records| > c.writeSeq && |c.records| < UINT64 ==>
          if c.refused then c.wire != Frames(a, c.records)
          else c.records[c.writeSeq] == p.plain && c.wire + p.rest == Frames(a, c.records))
  }

  ghost predicate NoncesInv(c: Channel) {
    && |c.nonces| == |c.records| < UINT64
    && forall i :: 0 <= i < |c.nonces| ==> c.nonces[i] == Nonce(i)
  }

  /** Each VTLSWrite seals once, with the number of successes so far; there are as many calls as
      successes, and one under way, until one fails. */
  ghost predicate SealsInv(c: Channel) {
    && (!c.refused ==> |c.sealedWith| == c.writeSeq + if c.pending.Sending? then 1 else 0)
    && c.writeSeq <= |c.sealedWith|
    && forall i :: 0 <= i < |c.sealedWith| ==> c.sealedWith[i] == Nonce(Counter(Least(i, c.writeSeq)))
  }

  function Least(m: nat, n: nat): nat {
    if m <= n then m else n
  }

  /** The reader is where one that has read t would be, but for what it handed out, and for a
      part of a record that it lost when the stream ended. */
  ghost predicate HasRead(a: Aead, t: Bytes, delivered: Bytes, reader: Reader, ended: bool) {
    var r := PushAll(a, NEW_READER, t);
    && reader.readSeq == r.readSeq && reader.faults == r.faults
    && delivered + reader.readBuf == r.readBuf
    && (!ended ==> reader.partial == r.partial)
  }

  ghost predicate ReaderInv(a: Aead, c: Channel) {
    c.taken <= |c.wire| && HasRead(a, c.wire[..c.taken], c.delivered, c.reader, c.ended)
  }

  ghost predicate ChannelInv(a: Aead, c: Channel) {
    WriterInv(a, c) && NoncesInv(c) && SealsInv(c) && ReaderInv(a, c)
  }

  // ---- preservation ----

  lemma FramesSnoc(a: Aead, ps: seq<Bytes>, p: Bytes)
    requires |ps| + 1 < UINT64
    ensures Frames(a, ps + [p]) == Frames(a, ps) + Frame(a, |ps|, p)
  {
    assert (ps + [p])[..|ps|] == ps;
  }

  lemma FirstAccepted(a: Aead, c: Channel, k: nat)
    requires Lawful(a) && WriterInv(a, c) && CanMove(c, Accepted(k)) && |c.records| == c.writeSeq
    ensures WriterInv(a, DoAccepted(c, k))
  {
    var p := c.pending;
    FramesSnoc(a, c.records, p.plain);
    assert c.wire + p.rest[..k] + p.rest[k..] == c.wire + p.rest;
    assert (c.records + [p.plain])[..c.writeSeq] == c.records[..c.writeSeq];
  }

  lemma LaterAccepted(a: Aead, c: Channel, k: nat)
    requires WriterInv(a, c) && CanMove(c, Accepted(k)) && |c.records| > c.writeSeq
    ensures WriterInv(a, DoAccepted(c, k))
  {
    var p := c.pending;
    assert c.wire + p.rest[..k] + p.rest[k..] == c.wire + p.rest;
  }

  lemma WriterKeeps(a: Aead, c: Channel, m: Move)
    requires Lawful(a) && WriterInv(a, c) && CanMove(c, m)
    ensures WriterInv(a, Do(a, c, m))
  {
    match m {
      case Accepted(k) =>
        if |c.records| == c.writeSeq {
          FirstAccepted(a, c, k);
        } else {
          LaterAccepted(a, c, k);
        }
      case EndWrite =>
        EndWriteKeeps(a, c);
      case WriteFails =>
        WriteFailsKeeps(a, c);
      case _ =>
    }
  }

  lemma EndWriteKeeps(a: Aead, c: Channel)
    requires Lawful(a) && WriterInv(a, c) && CanMove(c, EndWrite)
    ensures WriterInv(a, Do(a, c, EndWrite))
  {
    assert |c.records| == c.writeSeq + 1;
    assert c.records == c.records[..c.writeSeq] + [c.pending.plain];
    assert c.wire + [] == c.wire;
  }

  lemma WriteFailsKeeps(a: Aead, c: Channel)
    requires WriterInv(a, c) && CanMove(c, WriteFails)
    ensures WriterInv(a, Do(a, c, WriteFails))
  {
    if |c.records| > c.writeSeq && !c.refused {
      assert |c.wire + c.pending.rest| > |c.wire|;
    }
  }

  lemma NoncesKeep(a: Aead, c: Channel, m: Move)
    requires WriterInv(a, c) && NoncesInv(c) && CanMove(c, m)
    ensures NoncesInv(Do(a, c, m))
  {
  }

  lemma SealsKeep(a: Aead, c: Channel, m: Move)
    requires Lawful(a) && WriterInv(a, c) && SealsInv(c) && CanMove(c, m)
    ensures SealsInv(Do(a, c, m))
  {
    if m.EndWrite? {
      assert !c.refused;
    }
  }

  lemma ReadsOn(a: Aead, t: Bytes, more: Bytes, d: Bytes, r: Reader)
    requires HasRead(a, t, d, r, false)
    ensures HasRead(a, t + more, d, PushAll(a, r, more), false)
  {
    assert PushAll(a, NEW_READER, t) == r.(readBuf := d + r.readBuf);
    ChunkingIrrelevant(a, NEW_READER, t, more);
    PushAllAppends(a, r, d, more);
  }

  lemma ReceivedKeeps(a: Aead, c: Channel, k: nat)
    requires ReaderInv(a, c) && !c.ended && c.taken + k <= |c.wire|
    ensures ReaderInv(a, DoReceived(a, c, k))
  {
    var t, more := c.wire[..c.taken], c.wire[c.taken..c.taken + k];
    ReadsOn(a, t, more, c.delivered, c.reader);
    assert c.wire[..c.taken + k] == t + more;
  }

  lemma ReaderKeeps(a: Aead, c: Channel, m: Move)
    requires ReaderInv(a, c) && CanMove(c, m)
    ensures ReaderInv(a, Do(a, c, m))
  {
    match m {
      case Accepted(k) =>
        assert (c.wire + c.pending.rest[..k])[..c.taken] == c.wire[..c.taken];
      case Received(k) =>
        ReceivedKeeps(a, c, k);
      case Copied(k) =>
        assert c.delivered + c.reader.readBuf[..k] + c.reader.readBuf[k..] == c.delivered + c.reader.readBuf;
      case _ =>
    }
  }

  lemma MoveKeeps(a: Aead, c: Channel, m: Move)
    requires Lawful(a) && ChannelInv(a, c) && CanMove(c, m)
    ensures ChannelInv(a, Do(a, c, m))
  {
    WriterKeeps(a, c, m);
    NoncesKeep(a, c, m);
    SealsKeep(a, c, m);
    ReaderKeeps(a, c, m);
  }

  lemma NewChannelInv(a: Aead)
    ensures ChannelInv(a, NEW_CHANNEL)
  {
  }

  lemma {:induction false} ChannelRunInv(a: Aead, run: seq<Channel>, i: nat)
    requires Lawful(a) && IsChannelRun(a, run) && i < |run|
    ensures ChannelInv(a, run[i])
    decreases i
  {
    if i == 0 {
      NewChannelInv(a);
    } else {
      ChannelRunInv(a, run, i - 1);
      assert MoveAt(a, run, i - 1);
      var c := run[i - 1];
      var m :| CanMove(c, m) && run[i] == Do(a, c, m);
      MoveKeeps(a, c, m);
    }
  }

  // ---- what every run guarantees ----

  /** The last byte of a record is on the stream but its VTLSWrite has not counted it yet. */
  predicate SentUncounted(c: Channel) {
    c.pending.Sending? && c.pending.rest == []
  }

  /** When all that a VTLSWrite has to send is out, the stream is the whole of its records. */
  lemma AllSent(a: Aead, c: Channel)
    requires Lawful(a) && ChannelInv(a, c) && SentUncounted(c)
    ensures |c.records| == c.writeSeq + 1 && c.wire == Frames(a, c.records)
  {
    assert c.wire + [] == c.wire;
  }

  lemma WholeRecordsOnWire(a: Aead, c: Channel)
    requires Lawful(a) && ChannelInv(a, c)
    ensures var n := c.reader.readSeq;
      && n <= |c.records| && c.reader.faults == 0
      && c.delivered + c.reader.readBuf == Concat(c.records[..n])
      && n <= c.writeSeq + 1
      && (n > c.writeSeq ==> SentUncounted(c) && c.taken == |c.wire|)
  {
    var t := c.wire[..c.taken];
    PrefixDecodes(a, c.records, t);
    var n := c.reader.readSeq;
    if n > c.writeSeq {
      assert c.records[..n] == c.records;
      assert Frames(a, c.records) <= t <= c.wire;
      assert c.wire == Frames(a, c.records);
      assert c.pending.Sending?;
      assert c.wire + c.pending.rest == Frames(a, c.records);
    }
  }

  lemma OvertakenExactly(a: Aead, c: Channel)
    requires Lawful(a) && ChannelInv(a, c)
    ensures c.reader.readSeq > c.writeSeq <==> SentUncounted(c) && c.taken == |c.wire|
  {
    WholeRecordsOnWire(a, c);
    if SentUncounted(c) && c.taken == |c.wire| {
      AllSent(a, c);
      assert c.wire[..c.taken] == c.wire;
      WholeStreamDecodes(a, c.records);
    }
  }

  /** In every reachable state no record has been refused, and what VTLSRead has returned,
      followed by what it holds back, is the concatenation of the first readSeq records. No
      record is read before it was written: readSeq is at most writeSeq, and ahead of it by one
      exactly when the reader has taken all of a record that its VTLSWrite has sent whole but not
      counted yet. */
  lemma RecordStream(a: Aead, run: seq<Channel>, i: nat)
    requires Lawful(a) && IsChannelRun(a, run) && i < |run|
    ensures var c := run[i]; var n := c.reader.readSeq;
      && n <= |c.records| && c.reader.faults == 0
      && c.written <= c.records
      && c.delivered + c.reader.readBuf == Concat(c.records[..n])
      && n <= c.writeSeq + 1
      && (n > c.writeSeq <==> SentUncounted(c) && c.taken == |c.wire|)
  {
    ChannelRunInv(a, run, i);
    WholeRecordsOnWire(a, run[i]);
    OvertakenExactly(a, run[i]);
  }

  /** No two records on the stream were sealed with the same nonce, failed writes included. */
  lemma NoncesNeverRepeat(a: Aead, run: seq<Channel>, i: nat, j: nat, k: nat)
    requires Lawful(a) && IsChannelRun(a, run) && i < |run| && j < k < |run[i].nonces|
    ensures run[i].nonces[j] != run[i].nonces[k]
  {
    ChannelRunInv(a, run, i);
    NonceInjective(j, k);
  }

  /** Seal itself is given a nonce a second time exactly by the calls after a failed one, which
      seals with the same counter again. */
  lemma SealReusesExactly(a: Aead, run: seq<Channel>, i: nat, j: nat, k: nat)
    requires Lawful(a) && IsChannelRun(a, run) && i < |run| && j < k < |run[i].sealedWith|
    ensures var c := run[i];
      && (c.sealedWith[j] == c.sealedWith[k] <==> j >= c.writeSeq)
      && (c.sealedWith[j] == c.sealedWith[k] ==> c.refused)
  {
    ChannelRunInv(a, run, i);
    var w := run[i].writeSeq;
    NonceInjective(Counter(Least(j, w)), Counter(Least(k, w)));
  }

  /** And nothing they seal leaves: once VWrite has failed the stream stays as it is. */
  lemma {:induction false} RefusedIsSilent(a: Aead, run: seq<Channel>, i: nat, j: nat)
    requires Lawful(a) && IsChannelRun(a, run) && i <= j < |run| && run[i].refused
    ensures run[j].refused && run[j].wire == run[i].wire && run[j].records == run[i].records
    ensures run[j].writeSeq == run[i].writeSeq && run[j].nonces == run[i].nonces
    decreases j
  {
    if i < j {
      RefusedIsSilent(a, run, i, j - 1);
      ChannelRunInv(a, run, j - 1);
      assert MoveAt(a, run, j - 1);
      var m :| CanMove(run[j - 1], m) && run[j] == Do(a, run[j - 1], m);
      RefusedStep(a, run[j - 1], m);
    }
  }

  lemma RefusedStep(a: Aead, c: Channel, m: Move)
    requires WriterInv(a, c) && c.refused && CanMove(c, m)
    ensures var c' := Do(a, c, m);
      && c'.refused && c'.wire == c.wire && c'.records == c.records
      && c'.writeSeq == c.writeSeq && c'.nonces == c.nonces
  {
    assert !m.Accepted? && !m.EndWrite?;
  }

  // ---- pieces ----

  /** Taking a record in two pieces is taking it in one: the contracts of TlsConn, which do not
      mention pieces, describe any sequence of these moves. */
  lemma AcceptedInPieces(a: Aead, c: Channel, j: nat, k: nat)
    requires Lawful(a) && ChannelInv(a, c) && CanMove(c, Accepted(j + k)) && 1 <= j && 1 <= k
    ensures CanMove(c, Accepted(j)) && CanMove(DoAccepted(c, j), Accepted(k))
    ensures DoAccepted(DoAccepted(c, j), k) == DoAccepted(c, j + k)
  {
    var rest := c.pending.rest;
    assert rest[j..][..k] == rest[j..j + k] && rest[j..][k..] == rest[j + k..];
    assert c.wire + rest[..j] + rest[j..j + k] == c.wire + rest[..j + k];
  }

  /** And so is reading in two pieces. */
  lemma ReceivedInPieces(a: Aead, c: Channel, j: nat, k: nat)
    requires c.taken + j + k <= |c.wire|
    ensures DoReceived(a, DoReceived(a, c, j), k) == DoReceived(a, c, j + k)
  {
    ReadsInPieces(a, c.reader, c.wire, c.taken, j, k);
  }

  lemma ReadsInPieces(a: Aead, r: Reader, w: Bytes, i: nat, j: nat, k: nat)
    requires i + j + k <= |w|
    ensures PushAll(a, PushAll(a, r, w[i..i + j]), w[i + j..i + j + k]) == PushAll(a, r, w[i..i + (j + k)])
  {
    ChunkingIrrelevant(a, r, w[i..i + j], w[i + j..i + j + k]);
    assert w[i..i + j] + w[i + j..i + j + k] == w[i..i + (j + k)];
  }

  /** A VTLSWrite that succeeds, as its contract has it: one whole record more on the stream, one
      more counted. */
  lemma WholeWrite(a: Aead, c: Channel, plain: Bytes)
    requires Lawful(a) && ChannelInv(a, c) && CanMove(c, BeginWrite(plain)) && !c.refused
    ensures var c1 := Do(a, c, BeginWrite(plain)); var f := Frame(a, c.writeSeq, plain);
      && c1.pending.rest == f && CanMove(c1, Accepted(|f|))
      && var c2 := DoAccepted(c1, |f|);
      && CanMove(c2, EndWrite)
      && var c3 := Do(a, c2, EndWrite);
      && c3.wire == c.wire + f && c3.writeSeq == c.writeSeq + 1 && c3.written == c.written + [plain]
  {
    FrameParts(a, c.writeSeq, plain);
    var f := Frame(a, c.writeSeq, plain);
    assert f[..|f|] == f && f[|f|..] == [];
  }

  /** The exception is real: a peer can have read a whole record while writeSeq is still 0. */
  lemma ReaderOvertakesCounter(a: Aead, plain: Bytes) returns (run: seq<Channel>)
    requires Lawful(a) && Fits(plain)
    ensures IsChannelRun(a, run)
    ensures var c := run[|run| - 1]; c.reader.readSeq == 1 && c.writeSeq == 0 && c.reader.readBuf == plain
  {
    var f := Frame(a, 0, plain);
    ConcludesFrame(a, NEW_READER, plain);
    var c1 := NEW_CHANNEL.(sealedWith := [Nonce(0)], pending := Sending(Nonce(0), plain, f));
    var c2 := c1.(pending := Sending(Nonce(0), plain, []), wire := f, records := [plain], nonces := [Nonce(0)]);
    var c3 := c2.(reader := NEW_READER.(partial := f[..4]), taken := 4);
    var c4 := c3.(reader := Reader(1, [], plain, 0), taken := |f|);
    run := ExtendRun(a, [NEW_CHANNEL], BeginWrite(plain), c1);
    SendsAll(a, c1, f, plain, c2);
    run := ExtendRun(a, run, Accepted(|f|), c2);
    ReadsLength(a, c2, f, c3);
    run := ExtendRun(a, run, Received(4), c3);
    ReadsBody(a, c3, f, plain, c4);
    run := ExtendRun(a, run, Received(|f| - 4), c4);
  }

  lemma ExtendRun(a: Aead, run: seq<Channel>, m: Move, c: Channel) returns (longer: seq<Channel>)
    requires IsChannelRun(a, run) && CanMove(run[|run| - 1], m) && c == Do(a, run[|run| - 1], m)
    ensures longer == run + [c] && IsChannelRun(a, longer)
  {
    longer := run + [c];
    forall i: nat | i < |longer| - 1 ensures MoveAt(a, longer, i) {
      if i < |run| - 1 {
        assert MoveAt(a, run, i);
        var n :| CanMove(run[i], n) && run[i + 1] == Do(a, run[i], n);
        assert longer[i] == run[i] && longer[i + 1] == run[i + 1];
      } else {
        assert longer[i] == run[|run| - 1] && longer[i + 1] == c;
      }
    }
  }

  lemma SendsAll(a: Aead, c: Channel, f: Bytes, plain: Bytes, c': Channel)
    requires f != [] && c == NEW_CHANNEL.(sealedWith := [Nonce(0)], pending := Sending(Nonce(0), plain, f))
    requires c' == c.(pending := Sending(Nonce(0), plain, []), wire := f, records := [plain], nonces := [Nonce(0)])
    ensures CanMove(c, Accepted(|f|)) && c' == Do(a, c, Accepted(|f|))
  {
    assert f[..|f|] == f && f[|f|..] == [] && [] + f == f;
    assert [] + [plain] == [plain] && [] + [Nonce(0)] == [Nonce(0)];
  }

  lemma ReadsLength(a: Aead, c: Channel, f: Bytes, c': Channel)
    requires WholeRecord(f) && c.wire == f && c.taken == 0 && c.reader == NEW_READER && !c.ended
    requires c' == c.(reader := NEW_READER.(partial := f[..4]), taken := 4)
    ensures CanMove(c, Received(4)) && c' == Do(a, c, Received(4))
  {
    assert f[0..4] == f[..4] && f[..4][..4] == f[..4];
    Collects(a, NEW_READER, f[..4]);
  }

  lemma ReadsBody(a: Aead, c: Channel, f: Bytes, plain: Bytes, c': Channel)
    requires Lawful(a) && Fits(plain) && f == Frame(a, 0, plain) && WholeRecord(f)
    requires c.wire == f && c.taken == 4 && c.reader == NEW_READER.(partial := f[..4]) && !c.ended
    requires c' == c.(reader := Reader(1, [], plain, 0), taken := |f|)
    ensures CanMove(c, Received(|f| - 4)) && c' == Do(a, c, Received(|f| - 4))
  {
    assert f[4..|f|] == f[4..] && f[..4][..4] == f[..4];
    BodyReads(a, f, plain);
  }

  lemma BodyReads(a: Aead, f: Bytes, plain: Bytes)
    requires Lawful(a) && Fits(plain) && f == Frame(a, 0, plain) && WholeRecord(f)
    ensures PushAll(a, NEW_READER.(partial := f[..4]), f[4..]) == Reader(1, [], plain, 0)
  {
    assert f == f[..4] + f[4..] && f[..4][..4] == f[..4];
    ChunkingIrrelevant(a, NEW_READER, f[..4], f[4..]);
    Collects(a, NEW_READER, f[..4]);
    FrameReadsBackExactly(a, NEW_READER, plain);
  }
}
