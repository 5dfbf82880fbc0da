/** Big-endian integers, as Go's encoding/binary writes and reads them. */
module BigEndian {
  import opened Words

  const UINT64: int := WORD * WORD

  type uint64 = x: int | 0 <= x < UINT64

  function PutUint16(x: uint16): (b: seq<byte>)
    ensures |b| == 2
  {
    [x / 0x100, x % 0x100]
  }

  function Uint16(b: seq<byte>): uint16
    requires |b| == 2
  {
    var hi: int, lo: int := b[0], b[1];
    hi * 0x100 + lo
  }

  function PutUint32(x: uint32): (b: seq<byte>)
    ensures |b| == 4
  {
    PutUint16(x / 0x1_0000) + PutUint16(x % 0x1_0000)
  }

  function Uint32(b: seq<byte>): uint32
    requires |b| == 4
  {
    var hi: int, lo: int := Uint16(b[..2]), Uint16(b[2..]);
    hi * 0x1_0000 + lo
  }

  lemma Uint16RoundTrip(x: uint16)
    ensures Uint16(PutUint16(x)) == x
  {
  }

  lemma Uint16BytesRoundTrip(b: seq<byte>)
    requires |b| == 2
    ensures PutUint16(Uint16(b)) == b
  {
  }

  lemma Uint32RoundTrip(x: uint32)
    ensures Uint32(PutUint32(x)) == x
  {
    var hi := x / 0x1_0000;
    var lo := x % 0x1_0000;
    Uint16RoundTrip(hi);
    Uint16RoundTrip(lo);
    assert PutUint32(x)[..2] == PutUint16(hi) && PutUint32(x)[2..] == PutUint16(lo);
  }

  lemma Uint32BytesRoundTrip(b: seq<byte>)
    requires |b| == 4
    ensures PutUint32(Uint32(b)) == b
  {
    Uint16BytesRoundTrip(b[..2]);
    Uint16BytesRoundTrip(b[2..]);
    assert b == b[..2] + b[2..];
    assert Uint32(b) / 0x1_0000 == Uint16(b[..2]) && Uint32(b) % 0x1_0000 == Uint16(b[2..]);
  }

  function PutUint64(x: uint64): (b: seq<byte>)
    ensures |b| == 8
  {
    PutUint32(x / WORD) + PutUint32(x % WORD)
  }

  lemma PutUint64Injective(x: uint64, y: uint64)
    requires PutUint64(x) == PutUint64(y)
    ensures x == y
  {
    var xs := PutUint64(x);
    var ys := PutUint64(y);
    assert xs[..4] == PutUint32(x / WORD) && ys[..4] == PutUint32(y / WORD);
    assert xs[4..] == PutUint32(x % WORD) && ys[4..] == PutUint32(y % WORD);
    Uint32RoundTrip(x / WORD);
    Uint32RoundTrip(y / WORD);
    Uint32RoundTrip(x % WORD);
    Uint32RoundTrip(y % WORD);
  }

  /** The most significant byte comes first. */
  lemma HighByteFirst(x: uint32)
    ensures PutUint32(x) == [x / 0x100_0000, x / 0x1_0000 % 0x100, x / 0x100 % 0x100, x % 0x100]
  {
    var hi := x / 0x1_0000;
    assert hi / 0x100 == x / 0x100_0000;
    assert x % 0x1_0000 / 0x100 == x / 0x100 % 0x100;
  }
}
