/** The record connection of pkg/tlsStack/tlsApi.go over a byte stream that returns its bytes in
    pieces of any size and fails at any time. */
module TlsConn {
  import opened Words
  import opened BigEndian
  import opened TlsRecord

  /** The stream as its two calls present it. `incoming` is everything VRead will still return
      before it fails, `outgoing` everything VWrite has taken; a failed call fails ever after. */
  class VTCPConn {
    var incoming: Bytes
    var outgoing: Bytes
    var refusing: bool

    constructor (stream: Bytes)
      ensures incoming == stream && outgoing == [] && !refusing
    {
      incoming, outgoing, refusing := stream, [], false;
    }

    /** VRead(buf[from:]): at least one byte if there is room for one, or a failure. */
    method VRead(buf: array<byte>, from: nat) returns (ok: bool, n: nat)
      requires from <= buf.Length
      modifies this`incoming, buf
      ensures !ok ==> old(incoming) == [] && incoming == [] && buf[..] == old(buf[..])
      ensures ok ==>
        && n <= buf.Length - from && (n == 0 ==> from == buf.Length)
        && old(incoming) == buf[from..from + n] + incoming
        && buf[..from] == old(buf[..from]) && buf[from + n..] == old(buf[from + n..])
    {
      if |incoming| == 0 {
        return false, 0;
      }
      var most := Min(buf.Length - from, |incoming|);
      if most == 0 {
        return true, 0;
      }
      var k :| 1 <= k <= most;
      forall i | 0 <= i < k {
        buf[from + i] := incoming[i];
      }
      incoming := incoming[k..];
      return true, k;
    }

    /** VWrite: takes some of a non-empty argument, or refuses for good. */
    method VWrite(data: Bytes) returns (ok: bool, n: nat)
      modifies this`outgoing, this`refusing
      ensures old(refusing) ==> !ok
      ensures !ok ==> refusing && outgoing == old(outgoing)
      ensures ok ==> !refusing && n <= |data| && (n == 0 ==> data == []) && outgoing == old(outgoing) + data[..n]
    {
      var failing: bool := *;
      if refusing || failing {
        refusing := true;
        return false, 0;
      }
      if |data| == 0 {
        return true, 0;
      }
      n :| 1 <= n <= |data|;
      outgoing := outgoing + data[..n];
      return true, n;
    }
  }

  /** A proper part of data, possibly none of it, went out after `before`. */
  ghost predicate PartSent(before: Bytes, data: Bytes, after: Bytes) {
    exists k :: 0 <= k < |data| && after == before + data[..k]
  }

  /** Calls VRead until buf is full. */
  method ReadFull(tcpConn: VTCPConn, buf: array<byte>) returns (ok: bool)
    modifies tcpConn`incoming, buf
    ensures ok ==> old(tcpConn.incoming) == buf[..] + tcpConn.incoming
    ensures !ok ==> |old(tcpConn.incoming)| < buf.Length && tcpConn.incoming == []
  {
    var total := 0;
    while total < buf.Length
      invariant total <= buf.Length
      invariant old(tcpConn.incoming) == buf[..total] + tcpConn.incoming
    {
      ghost var before := buf[..total];
      var more, n := tcpConn.VRead(buf, total);
      if !more || n == 0 {
        return false;
      }
      assert buf[..total + n] == before + buf[total..total + n];
      total := total + n;
    }
    assert buf[..total] == buf[..];
    return true;
  }

  /** Calls VWrite until all of data is taken. */
  method WriteFull(tcpConn: VTCPConn, data: Bytes) returns (ok: bool)
    modifies tcpConn`outgoing, tcpConn`refusing
    ensures ok ==> tcpConn.outgoing == old(tcpConn.outgoing) + data && tcpConn.refusing == old(tcpConn.refusing)
    ensures !ok ==> tcpConn.refusing
    ensures !ok ==> PartSent(old(tcpConn.outgoing), data, tcpConn.outgoing)
    ensures old(tcpConn.refusing) && data != [] ==> !ok && tcpConn.outgoing == old(tcpConn.outgoing)
  {
    var total := 0;
    while total < |data|
      invariant total <= |data|
      invariant tcpConn.refusing == old(tcpConn.refusing) && (tcpConn.refusing ==> total == 0)
      invariant tcpConn.outgoing == old(tcpConn.outgoing) + data[..total]
    {
      var more, n := tcpConn.VWrite(data[total..]);
      if !more || n == 0 {
        return false;
      }
      assert data[..total] + data[total..][..n] == data[..total + n];
      total := total + n;
    }
    assert data[..total] == data;
    return true;
  }

  datatype Outcome = Done | StreamFailed | TooShort | AuthFailed

  /** What was taken from a stream of which `left` remains. */
  function Taken(before: Bytes, left: Bytes): Bytes
    requires |left| <= |before|
  {
    before[..|before| - |left|]
  }

  lemma TakenIs(got: Bytes, left: Bytes)
    ensures Taken(got + left, left) == got
  {
  }

  /** A length field with the body it announces is concluded; a length without room for the tag
      is concluded at once. */
  lemma ConcludesParts(a: Aead, r: Reader, head: Bytes, body: Bytes)
    requires r.partial == [] && |head| == 4
    requires |body| == if Uint32(head) < AESGCM_TAG_LEN then 0 else Uint32(head)
    ensures (head + body)[..4] == head && (head + body)[4..] == body
    ensures PushAll(a, r, head + body) == Conclude(a, r, head + body)
  {
    assert (head + body)[..4] == head;
    Concludes(a, r, head + body);
  }

  /** The stream ended within a record. */
  lemma EndsWithin(a: Aead, r: Reader, stream: Bytes, want: nat)
    requires r.partial == [] && |stream| < want
    requires want == 4 || (|stream| >= 4 && Uint32(stream[..4]) >= AESGCM_TAG_LEN && want == 4 + Uint32(stream[..4]))
    ensures Taken(stream, []) == stream && stream + [] == stream
    ensures PushAll(a, r, stream) == r.(partial := stream)
    ensures stream != [] ==> Incomplete(stream)
  {
    Collects(a, r, stream);
  }

  /** What VTLSRead reports, given what the reading automaton made of the bytes got. */
  ghost predicate Agrees(outcome: Outcome, start: nat, got: Bytes, r: Reader, plain: Bytes) {
    match outcome
    case Done => r == Reader(start + 1, [], plain, 0)
    case StreamFailed => r == Reader(start, got, [], 0) && (got != [] ==> Incomplete(got)) && plain == []
    case TooShort => r == Reader(start, [], [], 1) && |got| == 4 && plain == []
    case AuthFailed => r == Reader(start, [], [], 1) && |got| > 4 && plain == []
  }

  class VTLSConn {
    const tcpConn: VTCPConn
    const writeAead: Aead
    const readAead: Aead
    var writeSeq: uint64
    var readSeq: uint64
    var readBuf: Bytes

    constructor (conn: VTCPConn, writeAead: Aead, readAead: Aead)
      ensures tcpConn == conn && this.writeAead == writeAead && this.readAead == readAead
      ensures writeSeq == 0 && readSeq == 0 && readBuf == []
    {
      tcpConn := conn;
      this.writeAead, this.readAead := writeAead, readAead;
      writeSeq, readSeq, readBuf := 0, 0, [];
    }

    /** Puts one whole record on the stream and counts it; or fails, with at most a proper part of
        it on the stream and nothing counted, and from then on the stream takes nothing. */
    method VTLSWrite(data: Bytes) returns (ok: bool, n: nat)
      modifies this`writeSeq, tcpConn`outgoing, tcpConn`refusing
      ensures ok ==>
        && n == |data| && writeSeq == Counter(old(writeSeq) + 1)
        && tcpConn.outgoing == old(tcpConn.outgoing) + Frame(writeAead, old(writeSeq), data)
      ensures !ok ==> n == 0 && writeSeq == old(writeSeq) && tcpConn.refusing
      ensures !ok ==> PartSent(old(tcpConn.outgoing), Frame(writeAead, writeSeq, data), tcpConn.outgoing)
      ensures old(tcpConn.refusing) ==> !ok && tcpConn.outgoing == old(tcpConn.outgoing)
    {
      var sealedData := writeAead.seal(Nonce(writeSeq), data);
      var lenBuf := PutUint32(|sealedData| % WORD);
      ghost var before := tcpConn.outgoing;
      ghost var f := Frame(writeAead, writeSeq, data);
      assert f == lenBuf + sealedData;
      ok := WriteFull(tcpConn, lenBuf);
      if !ok {
        ghost var k :| 0 <= k < |lenBuf| && tcpConn.outgoing == before + lenBuf[..k];
        assert lenBuf[..k] == f[..k];
        return false, 0;
      }
      ok := WriteFull(tcpConn, sealedData);
      if !ok {
        ghost var k :| 0 <= k < |sealedData| && tcpConn.outgoing == before + lenBuf + sealedData[..k];
        assert lenBuf + sealedData[..k] == f[..4 + k];
        assert before + lenBuf + sealedData[..k] == before + f[..4 + k];
        return false, 0;
      }
      assert before + lenBuf + sealedData == before + f;
      writeSeq := Counter(writeSeq + 1);
      return true, |data|;
    }

    /** Copies what fits of bs into buf and keeps the rest. */
    method CopyOut(bs: Bytes, buf: array<byte>) returns (n: nat)
      modifies this`readBuf, buf
      ensures n == Min(buf.Length, |bs|)
      ensures buf[..n] + readBuf == bs && buf[n..] == old(buf[n..])
    {
      n := Min(buf.Length, |bs|);
      forall i | 0 <= i < n {
        buf[i] := bs[i];
      }
      readBuf := bs[n..];
      assert buf[..n] == bs[..n];
    }

    /** Takes one record from the stream and opens it. */
    method ReadRecord() returns (outcome: Outcome, plaintext: Bytes)
      modifies this`readSeq, tcpConn`incoming
      ensures |tcpConn.incoming| <= |old(tcpConn.incoming)|
      ensures var got := Taken(old(tcpConn.incoming), tcpConn.incoming);
        && old(tcpConn.incoming) == got + tcpConn.incoming
        && var r := PushAll(readAead, Reader(old(readSeq), [], [], 0), got);
        && readSeq == Counter(r.readSeq)
        && Agrees(outcome, old(readSeq), got, r, plaintext)
      ensures outcome.StreamFailed? ==> tcpConn.incoming == []
    {
      ghost var stream := tcpConn.incoming;
      ghost var start := Reader(readSeq, [], [], 0);
      var lenBuf := new byte[4];
      var ok := ReadFull(tcpConn, lenBuf);
      if !ok {
        EndsWithin(readAead, start, stream, 4);
        return StreamFailed, [];
      }
      ghost var head, rest := lenBuf[..], tcpConn.incoming;
      var recordLen := Uint32(lenBuf[..]);
      if recordLen < AESGCM_TAG_LEN {
        ConcludesParts(readAead, start, head, []);
        TakenIs(head, rest);
        assert head + [] == head;
        return TooShort, [];
      }
      var sealedData := new byte[recordLen];
      ok := ReadFull(tcpConn, sealedData);
      if !ok {
        assert stream == head + rest && stream[..4] == head;
        EndsWithin(readAead, start, stream, 4 + recordLen);
        return StreamFailed, [];
      }
      ghost var body := sealedData[..];
      assert stream == head + body + tcpConn.incoming;
      TakenIs(head + body, tcpConn.incoming);
      ConcludesParts(readAead, start, head, body);
      var opening := readAead.open(Nonce(readSeq), sealedData[..]);
      if opening.None? {
        return AuthFailed, [];
      }
      readSeq := Counter(readSeq + 1);
      return Done, opening.value;
    }

    /** Leftover bytes are handed out first, without touching the stream. Otherwise exactly one
        record is taken from the stream and the outcome is that of the reading automaton on its
        bytes, however VRead cut them up; a refused record leaves readSeq as it was. */
    method VTLSRead(buf: array<byte>) returns (outcome: Outcome, n: nat)
      modifies this`readSeq, this`readBuf, tcpConn`incoming, buf
      ensures n <= buf.Length && buf[n..] == old(buf[n..])
      ensures old(readBuf) != [] ==>
        && outcome.Done? && readSeq == old(readSeq) && tcpConn.incoming == old(tcpConn.incoming)
        && n == Min(buf.Length, |old(readBuf)|) && buf[..n] + readBuf == old(readBuf)
      ensures old(readBuf) == [] ==>
        && |tcpConn.incoming| <= |old(tcpConn.incoming)|
        && var got := Taken(old(tcpConn.incoming), tcpConn.incoming);
        && old(tcpConn.incoming) == got + tcpConn.incoming
        && var r := PushAll(readAead, Reader(old(readSeq), [], [], 0), got);
        && readSeq == Counter(r.readSeq)
        && Agrees(outcome, old(readSeq), got, r, buf[..n] + readBuf)
        && n == Min(buf.Length, |buf[..n] + readBuf|)
        && (outcome.StreamFailed? ==> tcpConn.incoming == [])
    {
      if |readBuf| > 0 {
        n := CopyOut(readBuf, buf);
        return Done, n;
      }
      var plaintext;
      outcome, plaintext := ReadRecord();
      n := 0;
      if outcome.Done? {
        n := CopyOut(plaintext, buf);
      }
    }
  }
}
