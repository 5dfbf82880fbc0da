/** The record layer of pkg/tlsStack: framing, sequence-number nonces and leftover buffering on
    top of a byte stream, with the cipher as an abstract pair of functions. */
module TlsRecord {
  import opened Words
  import opened BigEndian

  type Bytes = seq<byte>

  const AESGCM_TAG_LEN: nat := 16

  /** The cipher under one direction's key; both functions take the nonce first. */
  datatype Aead = Aead(seal: (Bytes, Bytes) -> Bytes, open: (Bytes, Bytes) -> Option<Bytes>)

  /** All that is assumed of AES-GCM: a sealed record opens under its own nonce, and sealing adds
      the tag. */
  ghost predicate Lawful(a: Aead) {
    forall nonce: Bytes, plain: Bytes ::
      |a.seal(nonce, plain)| == |plain| + AESGCM_TAG_LEN && a.open(nonce, a.seal(nonce, plain)) == Some(plain)
  }

  /** getNonce. */
  function Nonce(n: uint64): (nonce: Bytes)
    ensures |nonce| == 12
  {
    [0, 0, 0, 0] + PutUint64(n)
  }

  lemma NonceInjective(m: uint64, n: uint64)
    ensures Nonce(m) == Nonce(n) <==> m == n
  {
    if Nonce(m) == Nonce(n) {
      assert Nonce(m)[4..] == PutUint64(m) && Nonce(n)[4..] == PutUint64(n);
      PutUint64Injective(m, n);
    }
  }

  /** A 64-bit counter after n increments. */
  function Counter(n: nat): uint64 {
    if n < UINT64 then n else n % UINT64
  }

  /** What VTLSWrite puts on the stream: the length, cut to 32 bits, and the sealed data. */
  function Framed(sealedData: Bytes): Bytes {
    PutUint32(|sealedData| % WORD) + sealedData
  }

  /** Record number n. */
  function Frame(a: Aead, n: uint64, plain: Bytes): Bytes {
    Framed(a.seal(Nonce(n), plain))
  }

  /** The length field can hold the sealed length. */
  predicate Fits(plain: Bytes) {
    |plain| + AESGCM_TAG_LEN < WORD
  }

  ghost predicate Sendable(ps: seq<Bytes>) {
    |ps| < UINT64 && forall i :: 0 <= i < |ps| ==> Fits(ps[i])
  }

  /** The stream that carries the records ps, numbered from 0. */
  function Frames(a: Aead, ps: seq<Bytes>): Bytes
    requires |ps| < UINT64
  {
    if ps == [] then [] else Frames(a, ps[..|ps| - 1]) + Frame(a, |ps| - 1, ps[|ps| - 1])
  }

  function Concat(ps: seq<Bytes>): Bytes {
    if ps == [] then [] else Concat(ps[..|ps| - 1]) + ps[|ps| - 1]
  }

  // ---- the reading half, byte by byte ----

  /** partial is the part of the current record received so far; faults counts the records that
      VTLSRead refused. */
  datatype Reader = Reader(readSeq: nat, partial: Bytes, readBuf: Bytes, faults: nat)

  const NEW_READER := Reader(0, [], [], 0)

  /** p, the start of a record, must be read further: its length or its body is not complete. */
  predicate Incomplete(p: Bytes) {
    |p| < 4 || (Uint32(p[..4]) >= AESGCM_TAG_LEN && |p| < 4 + Uint32(p[..4]))
  }

  /** What becomes of a record that was read as far as it goes. A refused one is dropped without
      advancing readSeq. */
  function Conclude(a: Aead, r: Reader, p: Bytes): Reader
    requires |p| >= 4
  {
    if Uint32(p[..4]) < AESGCM_TAG_LEN then r.(partial := [], faults := r.faults + 1)
    else
      match a.open(Nonce(Counter(r.readSeq)), p[4..])
      case None => r.(partial := [], faults := r.faults + 1)
      case Some(plain) => Reader(r.readSeq + 1, [], r.readBuf + plain, r.faults)
  }

  /** One more byte of the stream. */
  function Push(a: Aead, r: Reader, b: byte): Reader {
    var p := r.partial + [b];
    if Incomplete(p) then r.(partial := p) else Conclude(a, r, p)
  }

  function PushAll(a: Aead, r: Reader, bs: Bytes): Reader {
    if bs == [] then r else Push(a, PushAll(a, r, bs[..|bs| - 1]), bs[|bs| - 1])
  }

  /** However the stream is cut into chunks, the reader ends in the same state. */
  lemma {:induction false} ChunkingIrrelevant(a: Aead, r: Reader, x: Bytes, y: Bytes)
    ensures PushAll(a, r, x + y) == PushAll(a, PushAll(a, r, x), y)
    decreases |y|
  {
    if y == [] {
      assert x + y == x;
    } else {
      var y0 := y[..|y| - 1];
      ChunkingIrrelevant(a, r, x, y0);
      assert (x + y)[..|x + y| - 1] == x + y0;
    }
  }

  /** What was returned to the caller before plays no part in reading on. */
  lemma {:induction false} PushAllAppends(a: Aead, r: Reader, d: Bytes, bs: Bytes)
    ensures PushAll(a, r.(readBuf := d + r.readBuf), bs)
      == var r' := PushAll(a, r, bs); r'.(readBuf := d + r'.readBuf)
    decreases |bs|
  {
    if bs != [] {
      var n := |bs| - 1;
      PushAllAppends(a, r, d, bs[..n]);
      PushAppends(a, PushAll(a, r, bs[..n]), d, bs[n]);
    }
  }

  lemma PushAppends(a: Aead, r: Reader, d: Bytes, b: byte)
    ensures Push(a, r.(readBuf := d + r.readBuf), b) == var r' := Push(a, r, b); r'.(readBuf := d + r'.readBuf)
  {
    forall plain: Bytes ensures d + (r.readBuf + plain) == d + r.readBuf + plain {
    }
  }

  // ---- decoding inverts framing ----

  lemma {:induction false} FramesPrefix(a: Aead, ps: seq<Bytes>, i: nat)
    requires i <= |ps| < UINT64
    ensures Frames(a, ps[..i]) <= Frames(a, ps)
    decreases |ps|
  {
    if i < |ps| {
      FramesPrefix(a, ps[..|ps| - 1], i);
      assert ps[..|ps| - 1][..i] == ps[..i];
    } else {
      assert ps[..i] == ps;
    }
  }

  lemma FrameInFrames(a: Aead, ps: seq<Bytes>, i: nat)
    requires i < |ps| < UINT64
    ensures Frames(a, ps[..i + 1]) == Frames(a, ps[..i]) + Frame(a, i, ps[i])
    ensures Frames(a, ps[..i]) + Frame(a, i, ps[i]) <= Frames(a, ps)
  {
    FramesPrefix(a, ps, i + 1);
    assert ps[..i + 1][..i] == ps[..i];
  }

  lemma ConcatNext(ps: seq<Bytes>, i: nat)
    requires i < |ps|
    ensures Concat(ps[..i + 1]) == Concat(ps[..i]) + ps[i]
  {
    assert ps[..i + 1][..i] == ps[..i];
  }

  lemma FrameParts(a: Aead, n: uint64, plain: Bytes)
    requires Lawful(a) && Fits(plain)
    ensures var f := Frame(a, n, plain);
      |f| == 4 + |plain| + AESGCM_TAG_LEN && Uint32(f[..4]) == |f| - 4 && f[4..] == a.seal(Nonce(n), plain)
  {
    var sealedData := a.seal(Nonce(n), plain);
    Uint32RoundTrip(|sealedData|);
    assert Frame(a, n, plain)[..4] == PutUint32(|sealedData|);
  }

  /** The length field tells where f ends. */
  predicate WholeRecord(f: Bytes) {
    |f| >= 4 + AESGCM_TAG_LEN && Uint32(f[..4]) == |f| - 4
  }

  lemma PushInRecord(a: Aead, r: Reader, f: Bytes, j: nat)
    requires WholeRecord(f) && j < |f| && r.partial == f[..j]
    ensures Push(a, r, f[j]) == if j + 1 < |f| then r.(partial := f[..j + 1]) else Conclude(a, r, f)
  {
    var p := r.partial + [f[j]];
    assert p == f[..j + 1];
    assert j >= 3 ==> p[..4] == f[..4];
    assert j + 1 == |f| ==> p == f;
  }

  lemma ConcludesFrame(a: Aead, r: Reader, plain: Bytes)
    requires Lawful(a) && Fits(plain) && r.readSeq < UINT64
    ensures var f := Frame(a, r.readSeq, plain);
      WholeRecord(f) && Conclude(a, r, f) == Reader(r.readSeq + 1, [], r.readBuf + plain, r.faults)
  {
    FrameParts(a, r.readSeq, plain);
    assert Counter(r.readSeq) == r.readSeq;
  }

  /** Where the reader is after t: whole records ps[..readSeq], then a proper part of the next. */
  ghost predicate DecodedTo(a: Aead, ps: seq<Bytes>, t: Bytes, r: Reader)
    requires |ps| < UINT64
  {
    && r.readSeq <= |ps| && r.faults == 0
    && r.readBuf == Concat(ps[..r.readSeq])
    && t == Frames(a, ps[..r.readSeq]) + r.partial
    && (r.partial != [] ==> r.readSeq < |ps| && |r.partial| < |Frame(a, r.readSeq, ps[r.readSeq])|)
  }

  lemma NextOf(whole: Bytes, done: Bytes, f: Bytes, partial: Bytes, b: byte)
    requires done + f <= whole && done + partial + [b] <= whole && |partial| < |f|
    ensures var j := |partial|; partial == f[..j] && b == f[j]
    ensures done + partial + [b] == done + f[..|partial| + 1]
  {
    var j := |partial|;
    assert f == whole[|done|..|done| + |f|];
    assert partial + [b] == (done + partial + [b])[|done|..] == whole[|done|..|done| + j + 1] == f[..j + 1];
    assert f[..j + 1] == f[..j] + [f[j]];
  }

  lemma MoreToRead(a: Aead, ps: seq<Bytes>, t: Bytes, b: byte, r: Reader)
    requires Lawful(a) && Sendable(ps) && t + [b] <= Frames(a, ps) && DecodedTo(a, ps, t, r)
    ensures r.readSeq < |ps| && |r.partial| < |Frame(a, r.readSeq, ps[r.readSeq])|
  {
    assert ps[..|ps|] == ps;
  }

  lemma DecodeNext(a: Aead, ps: seq<Bytes>, t: Bytes, b: byte, r: Reader)
    requires Lawful(a) && Sendable(ps) && t + [b] <= Frames(a, ps) && DecodedTo(a, ps, t, r)
    ensures DecodedTo(a, ps, t + [b], Push(a, r, b))
  {
    MoreToRead(a, ps, t, b, r);
    var k := r.readSeq;
    var f := Frame(a, k, ps[k]);
    var done := Frames(a, ps[..k]);
    var j := |r.partial|;
    FrameInFrames(a, ps, k);
    NextOf(Frames(a, ps), done, f, r.partial, b);
    ConcludesFrame(a, r, ps[k]);
    PushInRecord(a, r, f, j);
    ConcatNext(ps, k);
    if j + 1 == |f| {
      assert f[..j + 1] == f;
    }
  }

  /** Reading any prefix of a stream of records, however chunked, yields exactly the plaintexts
      of its whole records and never refuses one. */
  lemma {:induction false} PrefixDecodes(a: Aead, ps: seq<Bytes>, t: Bytes)
    requires Lawful(a) && Sendable(ps) && t <= Frames(a, ps)
    ensures DecodedTo(a, ps, t, PushAll(a, NEW_READER, t))
    decreases |t|
  {
    if t != [] {
      var n := |t| - 1;
      PrefixDecodes(a, ps, t[..n]);
      assert t[..n] + [t[n]] == t;
      DecodeNext(a, ps, t[..n], t[n], PushAll(a, NEW_READER, t[..n]));
    }
  }

  /** A stream of whole records is decoded to the last. */
  lemma WholeStreamDecodes(a: Aead, ps: seq<Bytes>)
    requires Lawful(a) && Sendable(ps)
    ensures PushAll(a, NEW_READER, Frames(a, ps)) == Reader(|ps|, [], Concat(ps), 0)
  {
    var r := PushAll(a, NEW_READER, Frames(a, ps));
    PrefixDecodes(a, ps, Frames(a, ps));
    assert ps[..|ps|] == ps;
    if r.readSeq < |ps| {
      FrameInFrames(a, ps, r.readSeq);
    }
  }

  // ---- the length field ----

  /** A record is collected until it is complete. */
  lemma {:induction false} Collects(a: Aead, r: Reader, bs: Bytes)
    requires r.partial == [] && (bs == [] || Incomplete(bs))
    ensures PushAll(a, r, bs) == r.(partial := bs)
    decreases |bs|
  {
    if bs != [] {
      var n := |bs| - 1;
      assert bs[..n] + [bs[n]] == bs;
      assert n >= 4 ==> bs[..n][..4] == bs[..4];
      Collects(a, r, bs[..n]);
    }
  }

  /** The last byte of a record concludes it. */
  lemma Concludes(a: Aead, r: Reader, bs: Bytes)
    requires r.partial == [] && |bs| >= 4 && |bs| == if Uint32(bs[..4]) < AESGCM_TAG_LEN then 4 else 4 + Uint32(bs[..4])
    ensures PushAll(a, r, bs) == Conclude(a, r, bs)
  {
    var n := |bs| - 1;
    assert bs[..n] + [bs[n]] == bs;
    assert n >= 4 ==> bs[..n][..4] == bs[..4];
    Collects(a, r, bs[..n]);
  }

  /** How many records were concluded, well or badly. */
  function Concluded(r: Reader): nat {
    r.readSeq + r.faults
  }

  /** Bytes are never swallowed: they are held back in partial or conclude a record. */
  lemma {:induction false} NothingIsSwallowed(a: Aead, r: Reader, bs: Bytes)
    ensures var r' := PushAll(a, r, bs);
      Concluded(r) <= Concluded(r') && (bs != [] && r'.partial == [] ==> Concluded(r) < Concluded(r'))
    decreases |bs|
  {
    if bs != [] {
      NothingIsSwallowed(a, r, bs[..|bs| - 1]);
    }
  }

  /** Where the length field says that the record ends. */
  function ClaimedEnd(f: Bytes): nat
    requires |f| >= 4
  {
    if Uint32(f[..4]) < AESGCM_TAG_LEN then 4 else 4 + Uint32(f[..4])
  }

  lemma OverlongFrame(a: Aead, n: uint64, plain: Bytes)
    requires Lawful(a) && !Fits(plain)
    ensures var f := Frame(a, n, plain); |f| >= 4 && ClaimedEnd(f) < |f|
  {
    var sealedData := a.seal(Nonce(n), plain);
    Uint32RoundTrip(|sealedData| % WORD);
    assert Frame(a, n, plain)[..4] == PutUint32(|sealedData| % WORD);
  }

  lemma CutRecordIsLost(a: Aead, r: Reader, f: Bytes)
    requires r.partial == [] && |f| >= 4 && ClaimedEnd(f) < |f|
    ensures var r' := PushAll(a, r, f); r'.partial != [] || Concluded(r') >= Concluded(r) + 2
  {
    var end := ClaimedEnd(f);
    var first, rest := f[..end], f[end..];
    assert f == first + rest && first[..4] == f[..4];
    Concludes(a, r, first);
    ChunkingIrrelevant(a, r, first, rest);
    NothingIsSwallowed(a, Conclude(a, r, first), rest);
  }

  /** VTLSWrite accepts plaintexts of any length, but a record reads back if and only if its
      sealed length fits the 32-bit field. */
  lemma FrameReadsBackExactly(a: Aead, r: Reader, plain: Bytes)
    requires Lawful(a) && r.partial == [] && r.readSeq < UINT64
    ensures PushAll(a, r, Frame(a, r.readSeq, plain)) == Reader(r.readSeq + 1, [], r.readBuf + plain, r.faults)
      <==> Fits(plain)
  {
    var f := Frame(a, r.readSeq, plain);
    if Fits(plain) {
      ConcludesFrame(a, r, plain);
      Concludes(a, r, f);
    } else {
      OverlongFrame(a, r.readSeq, plain);
      CutRecordIsLost(a, r, f);
    }
  }

  // ---- the format itself ----

  /** A nonce is four zero bytes and the counter, most significant byte first. */
  lemma NonceOnTheWire()
    ensures Nonce(0x0102_0304_0506_0708) == [0, 0, 0, 0, 1, 2, 3, 4, 5, 6, 7, 8]
  {
    assert PutUint32(0x0102_0304) == [1, 2, 3, 4];
    assert PutUint32(0x0506_0708) == [5, 6, 7, 8];
  }

  /** The length of the sealed data, which is 16 more than the plaintext's, comes first. */
  lemma FrameOnTheWire(a: Aead, n: uint64, plain: Bytes)
    requires Lawful(a) && |plain| == 0x01_0203
    ensures Frame(a, n, plain)[..4] == [0, 1, 2, 0x13] && |Frame(a, n, plain)| == 4 + 0x01_0213
  {
    assert PutUint32(0x01_0213) == [0, 1, 2, 0x13];
  }

  /** A length of 15 is refused at once, one of 16 is waited for. */
  lemma ShortestRecord(a: Aead, r: Reader)
    requires r.partial == []
    ensures PushAll(a, r, [0, 0, 0, 15]) == r.(faults := r.faults + 1)
    ensures PushAll(a, r, [0, 0, 0, 16]) == r.(partial := [0, 0, 0, 16])
  {
    Concludes(a, r, [0, 0, 0, 15]);
    Collects(a, r, [0, 0, 0, 16]);
  }

  /** A record that does not open is dropped whole, without being counted: the next one is opened
      with the same counter. */
  lemma BadRecordIsDropped(a: Aead, r: Reader, f: Bytes)
    requires r.partial == [] && WholeRecord(f) && a.open(Nonce(Counter(r.readSeq)), f[4..]) == None
    ensures PushAll(a, r, f) == r.(faults := r.faults + 1)
  {
    Concludes(a, r, f);
  }
}
