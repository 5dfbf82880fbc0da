/** The circular byte buffer under both halves of a connection (pkg/tcpStack/circleBuf.go). */
module CircleBuffers {
  import opened Words

  const MAX_WIN_SIZE: int := 65535

  /** Reduces an index below twice the capacity; the Go code writes `% maxSize`. */
  function Wrap(x: nat): nat
    requires x < 2 * MAX_WIN_SIZE
  {
    if x < MAX_WIN_SIZE then x else x - MAX_WIN_SIZE
  }

  /** The value of a CircleBuf: its cells, and which of them are live. */
  datatype Ring = Ring(buf: seq<byte>, size: nat, base: uint32, head: nat)
  {
    ghost predicate Valid() {
      && |buf| == MAX_WIN_SIZE
      && size <= MAX_WIN_SIZE
      && head < MAX_WIN_SIZE
    }

    function FreeSpace(): int {
      MAX_WIN_SIZE - size
    }

    /** Physical index of a sequence number; nothing restricts it to the live range. */
    function IndexOf(seqNum: uint32): nat {
      (head + Sub32(seqNum, base)) % MAX_WIN_SIZE
    }

    /** The n cells starting at physical index start. */
    function Cells(start: nat, n: nat): seq<byte>
      requires Valid() && start < MAX_WIN_SIZE && n <= MAX_WIN_SIZE
    {
      seq(n, i requires 0 <= i < n => buf[Wrap(start + i)])
    }

    /** The byte queue the ring stands for. */
    function Contents(): seq<byte>
      requires Valid()
    {
      Cells(head, size)
    }

    function SliceFrom(seqNum: uint32, n: nat): seq<byte>
      requires Valid() && n <= MAX_WIN_SIZE
    {
      Cells(IndexOf(seqNum), n)
    }

    /** Nothing keeps the data within the free space: that is left to the caller. */
    function Write(seqNum: uint32, data: seq<byte>): Ring
      requires Valid() && |data| <= MAX_WIN_SIZE
    {
      this.(buf := Overwrite(buf, IndexOf(seqNum), data), size := size + |data|)
    }

    function AdvanceBase(numBytesAcked: nat): Ring
      requires Valid()
    {
      var n := Min(numBytesAcked, size);
      this.(base := Add32(base, n), size := size - n, head := (head + n) % MAX_WIN_SIZE)
    }
  }

  /** How far cell j lies after start, going round. */
  function Distance(start: nat, j: nat): nat
    requires start < MAX_WIN_SIZE && j < MAX_WIN_SIZE
  {
    if start <= j then j - start else j - start + MAX_WIN_SIZE
  }

  function Overwrite(buf: seq<byte>, start: nat, data: seq<byte>): seq<byte>
    requires |buf| == MAX_WIN_SIZE && start < MAX_WIN_SIZE && |data| <= MAX_WIN_SIZE
  {
    seq(MAX_WIN_SIZE, j requires 0 <= j < MAX_WIN_SIZE =>
      if Distance(start, j) < |data| then data[Distance(start, j)] else buf[j])
  }

  function NewRing(base: uint32): Ring {
    Ring(seq(MAX_WIN_SIZE, _ => 0), 0, base, 0)
  }

  // ---- the ring refines a byte queue ----

  lemma IndexOfOffset(r: Ring, off: nat)
    requires r.Valid() && off <= MAX_WIN_SIZE
    ensures r.IndexOf(Add32(r.base, off)) == Wrap(r.head + off)
  {
    assert Sub32(Add32(r.base, off), r.base) == off;
  }

  /** Any live range, wherever it crosses the end of the array or of the sequence space,
      reads back as that slice of the queue. */
  lemma SliceOfLiveRange(r: Ring, off: nat, n: nat)
    requires r.Valid() && off + n <= r.size
    ensures r.SliceFrom(Add32(r.base, off), n) == r.Contents()[off..off + n]
  {
    IndexOfOffset(r, off);
    var s := r.SliceFrom(Add32(r.base, off), n);
    forall i | 0 <= i < n ensures s[i] == r.Contents()[off..off + n][i] {
      assert Wrap(Wrap(r.head + off) + i) == Wrap(r.head + (off + i));
    }
  }

  /** Writing at base + size appends. */
  lemma WriteAppends(r: Ring, data: seq<byte>)
    requires r.Valid() && |data| <= r.FreeSpace()
    ensures var w := r.Write(Add32(r.base, r.size), data);
      && w.Valid() && w.base == r.base && w.head == r.head
      && w.size == r.size + |data|
      && w.Contents() == r.Contents() + data
  {
    IndexOfOffset(r, r.size);
    var start := Wrap(r.head + r.size);
    var w := r.Write(Add32(r.base, r.size), data);
    forall i | 0 <= i < w.size ensures w.Contents()[i] == (r.Contents() + data)[i] {
      var j := Wrap(r.head + i);
      if i < r.size {
        assert Distance(start, j) == MAX_WIN_SIZE - r.size + i;
      } else {
        assert Distance(start, j) == i - r.size;
      }
    }
  }

  /** AdvanceBase drops a prefix of the queue, never more than is there. */
  lemma AdvanceDrops(r: Ring, n: nat)
    requires r.Valid()
    ensures var k := Min(n, r.size); var a := r.AdvanceBase(n);
      && a.Valid() && a.size == r.size - k && a.base == Add32(r.base, k)
      && a.Contents() == r.Contents()[k..]
  {
    var k := Min(n, r.size);
    var a := r.AdvanceBase(n);
    assert a.head == Wrap(r.head + k);
    forall i | 0 <= i < a.size ensures a.Contents()[i] == r.Contents()[k..][i] {
      assert Wrap(a.head + i) == Wrap(r.head + (k + i));
    }
  }

  /** Below the base the index is off by one: 2^32 leaves remainder 1 modulo 65535, so a
      sequence number k below the base is looked up at head + 1 - k and not at head - k.
      This is what a retransmission of a partly acknowledged segment reads. */
  lemma IndexBelowBase(r: Ring, k: nat)
    requires r.Valid() && 1 <= k <= MAX_WIN_SIZE
    ensures r.IndexOf(Sub32(r.base, k)) == if k == 1 then r.head else Wrap(r.head + MAX_WIN_SIZE + 1 - k)
  {
    assert Sub32(Sub32(r.base, k), r.base) == WORD - k;
    assert WORD == 65537 * MAX_WIN_SIZE + 1;
  }

  // ---- the class ----

  class CircleBuf {
    const buf: array<byte>
    var currSize: nat
    const maxSize: nat
    var baseSeq: uint32
    var head: nat

    ghost predicate Valid()
      reads this, buf
    {
      && maxSize == MAX_WIN_SIZE
      && View().Valid()
    }

    ghost function View(): Ring
      reads this, buf
    {
      Ring(buf[..], currSize, baseSeq, head)
    }

    /** NewCircleBuf ignores its maxSize argument, as here. */
    constructor (requestedSize: nat, base: uint32)
      ensures Valid() && fresh(this.buf) && View() == NewRing(base)
    {
      buf := new byte[MAX_WIN_SIZE](_ => 0);
      currSize, maxSize, baseSeq, head := 0, MAX_WIN_SIZE, base, 0;
      new;
      assert buf[..] == NewRing(base).buf;
    }

    method SeqNumToIndex(seqNum: uint32) returns (index: nat)
      requires Valid()
      ensures index == View().IndexOf(seqNum) && index < buf.Length
    {
      var offset := Sub32(seqNum, baseSeq);
      index := (head + offset) % maxSize;
    }

    method WriteIntoBuf(seqNum: uint32, data: seq<byte>) returns (written: nat)
      requires Valid() && |data| <= MAX_WIN_SIZE
      modifies this`currSize, buf
      ensures View() == old(View()).Write(seqNum, data) && written == |data|
      ensures Valid() <==> |data| <= old(View()).FreeSpace()
    {
      if |data| == 0 {
        assert buf[..] == Overwrite(old(buf[..]), old(View()).IndexOf(seqNum), data);
        return 0;
      }
      var start := SeqNumToIndex(seqNum);
      var firstChunk := Min(|data|, buf.Length - start);
      forall i | 0 <= i < firstChunk {
        buf[start + i] := data[i];
      }
      var remaining := |data| - firstChunk;
      if remaining > 0 {
        forall i | 0 <= i < remaining {
          buf[i] := data[firstChunk + i];
        }
      }
      currSize := currSize + |data|;
      assert buf[..] == Overwrite(old(buf[..]), start, data);
      return |data|;
    }

    method ReadFromBuf(seqNum: uint32, dest: array<byte>, n: nat) returns (count: nat)
      requires Valid() && dest != buf
      requires Min(n, dest.Length) <= MAX_WIN_SIZE
      modifies dest
      ensures count == Min(n, dest.Length)
      ensures dest[..count] == View().SliceFrom(seqNum, count)
      ensures dest[count..] == old(dest[count..])
    {
      if n < 1 || dest.Length == 0 {
        return 0;
      }
      count := Min(n, dest.Length);
      var start := SeqNumToIndex(seqNum);
      var firstChunk := Min(count, buf.Length - start);
      forall i | 0 <= i < firstChunk {
        dest[i] := buf[start + i];
      }
      var remaining := count - firstChunk;
      if remaining > 0 {
        forall i | 0 <= i < remaining {
          dest[firstChunk + i] := buf[i];
        }
      }
      assert forall i | 0 <= i < count :: dest[i] == buf[Wrap(start + i)];
    }

    method SliceFrom(seqNum: uint32, n: nat) returns (out: seq<byte>)
      requires Valid() && n <= MAX_WIN_SIZE
      ensures out == View().SliceFrom(seqNum, n)
    {
      if n == 0 {
        return [];
      }
      var a := new byte[n](_ => 0);
      var _ := ReadFromBuf(seqNum, a, n);
      return a[..];
    }

    method AdvanceBase(bytesAcked: nat)
      requires Valid()
      modifies this
      ensures Valid() && View() == old(View()).AdvanceBase(bytesAcked)
    {
      var numBytesAcked := bytesAcked;
      if numBytesAcked == 0 {
        return;
      }
      if numBytesAcked > currSize {
        numBytesAcked := currSize;
      }
      baseSeq := Add32(baseSeq, numBytesAcked);
      currSize := currSize - numBytesAcked;
      head := (head + numBytesAcked) % maxSize;
    }
  }
}
