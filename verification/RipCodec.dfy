/** The wire format of RIP messages: Marshal and DeserializeRipMessage (pkg/ipStack/rip.go). */
module RipCodec {
  import opened Words
  import opened BigEndian
  import opened Prefixes
  import opened Rip

  datatype RipMessage = RipMessage(command: uint16, entries: seq<RipEntry>)

  datatype Result<+T> = Ok(value: T) | Truncated

  const ENTRY_LEN: nat := 12

  // ---- masks, as net.CIDRMask and net.IPMask.Size treat them ----

  /** The byte whose top n bits are set. */
  function TopBits(n: nat): byte
    requires n < 8
  {
    [0, 128, 192, 224, 240, 248, 252, 254][n]
  }

  /** CIDRMask: len bytes of which the first ones bits are set. */
  function CidrMask(ones: nat, len: nat): (m: seq<byte>)
    requires ones <= 8 * len
    ensures |m| == len
    decreases len
  {
    if len == 0 then []
    else if ones >= 8 then [255] + CidrMask(ones - 8, len - 1)
    else [TopBits(ones)] + CidrMask(0, len - 1)
  }

  /** The number of leading ones of a byte; none if a one follows a zero. */
  function LeadingOnes(v: byte): Option<nat>
    decreases v
  {
    if v == 0 then Some(0)
    else if v < 128 then None
    else
      match LeadingOnes(2 * v - 256)
      case None => None
      case Some(n) => Some(n + 1)
  }

  predicate AllZero(m: seq<byte>) {
    forall i :: 0 <= i < |m| ==> m[i] == 0
  }

  /** simpleMaskLength. */
  function MaskLength(m: seq<byte>): Option<nat> {
    if m == [] then Some(0)
    else if m[0] == 255 then
      match MaskLength(m[1..])
      case None => None
      case Some(n) => Some(n + 8)
    else if AllZero(m[1..]) then LeadingOnes(m[0])
    else None
  }

  /** The prefix length a mask stands for; a mask with a gap counts as length 0. */
  function MaskSize(m: seq<byte>): nat {
    match MaskLength(m)
    case None => 0
    case Some(n) => n
  }

  lemma LeadingOnesOfTopBits(n: nat)
    requires n < 8
    ensures LeadingOnes(TopBits(n)) == Some(n)
  {
    assert LeadingOnes(128) == Some(1);
    assert LeadingOnes(192) == Some(2);
    assert LeadingOnes(224) == Some(3);
    assert LeadingOnes(240) == Some(4);
    assert LeadingOnes(248) == Some(5);
    assert LeadingOnes(252) == Some(6);
    assert LeadingOnes(254) == Some(7);
  }

  lemma {:induction false} ZeroMask(len: nat)
    ensures AllZero(CidrMask(0, len))
    decreases len
  {
    if len > 0 {
      ZeroMask(len - 1);
    }
  }

  /** The mask of a prefix length gives that length back. */
  lemma {:induction false} MaskRoundTrip(ones: nat, len: nat)
    requires ones <= 8 * len
    ensures MaskLength(CidrMask(ones, len)) == Some(ones)
    decreases len
  {
    if len > 0 {
      var m := CidrMask(ones, len);
      if ones >= 8 {
        MaskRoundTrip(ones - 8, len - 1);
        assert m[1..] == CidrMask(ones - 8, len - 1);
      } else {
        ZeroMask(len - 1);
        LeadingOnesOfTopBits(ones);
        assert m[1..] == CidrMask(0, len - 1);
      }
    }
  }

  // ---- messages ----

  function EncodeEntry(e: RipEntry): (b: seq<byte>)
    ensures |b| == ENTRY_LEN
  {
    PutUint32(e.cost) + PutUint32(e.prefix.addr) + PutUint32(Uint32(CidrMask(e.prefix.bits, 4)))
  }

  function EncodeEntries(es: seq<RipEntry>): (b: seq<byte>)
    ensures |b| == ENTRY_LEN * |es|
  {
    if es == [] then [] else EncodeEntry(es[0]) + EncodeEntries(es[1..])
  }

  /** The count field holds 16 bits. */
  function Encode(m: RipMessage): seq<byte> {
    PutUint16(m.command) + PutUint16(|m.entries| % 0x1_0000) + EncodeEntries(m.entries)
  }

  lemma {:induction false} MaskSizeInRange(m: seq<byte>)
    ensures match MaskLength(m) case None => true case Some(n) => n <= 8 * |m|
    decreases |m|
  {
    if m != [] {
      if m[0] == 255 {
        MaskSizeInRange(m[1..]);
      } else if AllZero(m[1..]) {
        LeadingOnesInRange(m[0]);
      }
    }
  }

  lemma LeadingOnesInRange(v: byte)
    ensures match LeadingOnes(v) case None => true case Some(n) => n <= 8
  {
    ShiftsOut(v, 0);
  }

  /** After k shifts the distance to 256 has doubled k times, so at most 8 - k ones are left. */
  lemma {:induction false} ShiftsOut(v: byte, k: nat)
    requires k <= 8 && Power2(k) <= 256 - v
    ensures match LeadingOnes(v) case None => true case Some(n) => n + k <= 8
    decreases 8 - k
  {
    if v >= 128 {
      assert Power2(8) == 256;
      ShiftsOut(2 * v - 256, k + 1);
    }
  }

  function DecodeEntry(b: seq<byte>): RipEntry
    requires |b| == ENTRY_LEN
  {
    var mask := PutUint32(Uint32(b[8..12]));
    MaskSizeInRange(mask);
    RipEntry(Uint32(b[0..4]), RawPrefix(Uint32(b[4..8]), MaskSize(mask)))
  }

  /** Puts the entry read first before the result for the rest. */
  function Prepend(es: seq<RipEntry>, r: Result<seq<RipEntry>>): Result<seq<RipEntry>> {
    match r
    case Truncated => Truncated
    case Ok(rest) => Ok(es + rest)
  }

  function DecodeEntries(b: seq<byte>, n: nat): Result<seq<RipEntry>>
    decreases n
  {
    if n == 0 then Ok([])
    else if |b| < ENTRY_LEN then Truncated
    else Prepend([DecodeEntry(b[..ENTRY_LEN])], DecodeEntries(b[ENTRY_LEN..], n - 1))
  }

  function Decode(b: seq<byte>): Result<RipMessage> {
    if |b| < 2 then Truncated
    else
      var command := Uint16(b[..2]);
      if command == RIP_REQUEST then Ok(RipMessage(command, []))
      else if |b| < 4 then Truncated
      else
        match DecodeEntries(b[4..], Uint16(b[2..4]))
        case Truncated => Truncated
        case Ok(es) => Ok(RipMessage(command, es))
  }

  // ---- round trips ----

  lemma EntryRoundTrip(e: RipEntry)
    ensures DecodeEntry(EncodeEntry(e)) == e
  {
    var b := EncodeEntry(e);
    var mask := CidrMask(e.prefix.bits, 4);
    assert b[0..4] == PutUint32(e.cost);
    assert b[4..8] == PutUint32(e.prefix.addr);
    assert b[8..12] == PutUint32(Uint32(mask));
    Uint32RoundTrip(e.cost);
    Uint32RoundTrip(e.prefix.addr);
    Uint32BytesRoundTrip(mask);
    MaskRoundTrip(e.prefix.bits, 4);
  }

  lemma EncodedParts(es: seq<RipEntry>)
    requires es != []
    ensures EncodeEntries(es)[..ENTRY_LEN] == EncodeEntry(es[0])
    ensures EncodeEntries(es)[ENTRY_LEN..] == EncodeEntries(es[1..])
  {
  }

  lemma FirstThenRest(es: seq<RipEntry>, n: nat)
    requires 0 < n <= |es|
    ensures [es[0]] + es[1..][..n - 1] == es[..n]
  {
  }

  /** The first n encoded entries decode to the first n entries. */
  lemma {:induction false} EntriesRoundTrip(es: seq<RipEntry>, n: nat)
    requires n <= |es|
    ensures DecodeEntries(EncodeEntries(es), n) == Ok(es[..n])
    decreases n
  {
    if n > 0 {
      var b := EncodeEntries(es);
      EncodedParts(es);
      EntryRoundTrip(es[0]);
      EntriesRoundTrip(es[1..], n - 1);
      assert DecodeEntries(b, n) == Prepend([es[0]], Ok(es[1..][..n - 1]));
      FirstThenRest(es, n);
    }
  }

  /** What decoding a marshalled message gives, for every message: a request loses its entries,
      and any other message keeps as many as its 16-bit count says. */
  lemma MessageDecodes(m: RipMessage)
    ensures Decode(Encode(m)) == Ok(RipMessage(m.command,
      if m.command == RIP_REQUEST then [] else m.entries[..|m.entries| % 0x1_0000]))
  {
    var b := Encode(m);
    assert b[..2] == PutUint16(m.command);
    assert Uint16(b[..2]) == m.command;
    if m.command != RIP_REQUEST {
      assert b[2..4] == PutUint16(|m.entries| % 0x1_0000);
      assert b[4..] == EncodeEntries(m.entries);
      EntriesRoundTrip(m.entries, |m.entries| % 0x1_0000);
    }
  }

  /** The round trip is exact if and only if the entries fit the count field and a request has
      none. */
  lemma RoundTripExactly(m: RipMessage)
    ensures Decode(Encode(m)) == Ok(m) <==>
      |m.entries| <= 65535 && (m.command == RIP_REQUEST ==> m.entries == [])
  {
    MessageDecodes(m);
    CutIsWhole(m.entries);
  }

  lemma CutIsWhole(es: seq<RipEntry>)
    ensures es[..|es| % 0x1_0000] == es <==> |es| <= 65535
  {
    if |es| <= 65535 {
      assert es[..|es|] == es;
    } else {
      assert |es[..|es| % 0x1_0000]| != |es|;
    }
  }

  // ---- the code ----

  lemma MarshalStep(buf: seq<byte>, es: seq<RipEntry>, i: nat)
    requires i < |es|
    ensures var e := es[i];
      buf + PutUint32(e.cost) + PutUint32(e.prefix.addr) + PutUint32(Uint32(CidrMask(e.prefix.bits, 4)))
        + EncodeEntries(es[i + 1..]) == buf + EncodeEntries(es[i..])
  {
    var e := es[i];
    assert es[i..][1..] == es[i + 1..];
    Regroup(buf, PutUint32(e.cost), PutUint32(e.prefix.addr), PutUint32(Uint32(CidrMask(e.prefix.bits, 4))),
            EncodeEntries(es[i + 1..]));
  }

  lemma Regroup(a: seq<byte>, b: seq<byte>, c: seq<byte>, d: seq<byte>, e: seq<byte>)
    ensures a + b + c + d + e == a + (b + c + d + e)
  {
  }

  method Marshal(m: RipMessage) returns (buf: seq<byte>)
    ensures buf == Encode(m)
  {
    buf := PutUint16(m.command);
    var numEntries := |m.entries| % 0x1_0000;
    buf := buf + PutUint16(numEntries);
    for i := 0 to |m.entries|
      invariant buf + EncodeEntries(m.entries[i..]) == Encode(m)
    {
      var entry := m.entries[i];
      MarshalStep(buf, m.entries, i);
      buf := buf + PutUint32(entry.cost);
      buf := buf + PutUint32(entry.prefix.addr);
      buf := buf + PutUint32(Uint32(CidrMask(entry.prefix.bits, 4)));
    }
  }

  lemma PrependNothing(r: Result<seq<RipEntry>>)
    ensures Prepend([], r) == r
  {
    if r.Ok? {
      assert [] + r.value == r.value;
    }
  }

  lemma PrependTwice(es: seq<RipEntry>, e: RipEntry, r: Result<seq<RipEntry>>)
    ensures Prepend(es, Prepend([e], r)) == Prepend(es + [e], r)
  {
    if r.Ok? {
      assert es + ([e] + r.value) == es + [e] + r.value;
    }
  }

  /** Reads fields one after the other and fails as soon as the data runs out. */
  method DeserializeRipMessage(data: seq<byte>) returns (r: Result<RipMessage>)
    ensures r == Decode(data)
  {
    if |data| < 2 {
      return Truncated;
    }
    var command := Uint16(data[..2]);
    if command == RIP_REQUEST {
      return Ok(RipMessage(command, []));
    }
    if |data| < 4 {
      return Truncated;
    }
    var numEntries := Uint16(data[2..4]);
    var rest := data[4..];
    var entries: seq<RipEntry> := [];
    PrependNothing(DecodeEntries(rest, numEntries));
    for i := 0 to numEntries
      invariant Prepend(entries, DecodeEntries(rest, numEntries - i)) == DecodeEntries(data[4..], numEntries)
    {
      if |rest| < ENTRY_LEN {
        return Truncated;
      }
      var entry := DecodeEntry(rest[..ENTRY_LEN]);
      PrependTwice(entries, entry, DecodeEntries(rest[ENTRY_LEN..], numEntries - i - 1));
      entries := entries + [entry];
      rest := rest[ENTRY_LEN..];
    }
    assert entries + [] == entries;
    return Ok(RipMessage(command, entries));
  }

  // ---- the format itself ----

  /** A response, command 2, with the one entry 10.1.0.0/16 at cost 3. */
  lemma ResponseOnTheWire()
    ensures Encode(RipMessage(2, [RipEntry(3, RawPrefix(0x0A01_0000, 16))]))
      == [0, 2, 0, 1] + [0, 0, 0, 3] + [10, 1, 0, 0] + [255, 255, 0, 0]
  {
    var e := RipEntry(3, RawPrefix(0x0A01_0000, 16));
    assert CidrMask(16, 4) == [255] + CidrMask(8, 3) && CidrMask(8, 3) == [255] + CidrMask(0, 2);
    assert CidrMask(0, 2) == [0] + CidrMask(0, 1) && CidrMask(0, 1) == [0] + [];
    Uint32BytesRoundTrip(CidrMask(16, 4));
    assert PutUint32(3) == [0, 0, 0, 3];
    assert PutUint32(0x0A01_0000) == [10, 1, 0, 0];
    assert EncodeEntries([e]) == EncodeEntry(e) + [];
  }

  /** A message with command 1 is a request and has no entries, one with command 2 keeps all that
      its count can count. */
  lemma CommandsAreKept(es: seq<RipEntry>)
    requires |es| <= 65535
    ensures Decode(Encode(RipMessage(2, es))) == Ok(RipMessage(2, es))
    ensures Decode(Encode(RipMessage(1, es))) == Ok(RipMessage(1, []))
  {
    RoundTripExactly(RipMessage(2, es));
    MessageDecodes(RipMessage(1, es));
  }

  // ---- what other bytes decode to ----

  lemma {:induction false} EntriesTruncated(b: seq<byte>, n: nat)
    ensures DecodeEntries(b, n) == Truncated <==> |b| < 12 * n
    ensures DecodeEntries(b, n).Ok? ==> |DecodeEntries(b, n).value| == n
    decreases n
  {
    if n > 0 && |b| >= ENTRY_LEN {
      EntriesTruncated(b[ENTRY_LEN..], n - 1);
    }
  }

  /** The count field of a response. */
  function CountField(b: seq<byte>): nat
    requires |b| >= 4
  {
    var hi: int, lo: int := b[2], b[3];
    256 * hi + lo
  }

  /** Decoding fails exactly when the data ends within the command, the count or the entries that
      the count announces; a request needs only its command. Data beyond is ignored. */
  lemma TruncatedExactly(b: seq<byte>)
    ensures Decode(b) == Truncated <==>
      |b| < 2 || (b[..2] != [0, 1] && (|b| < 4 || |b| < 4 + 12 * CountField(b)))
  {
    if |b| >= 2 {
      assert Uint16(b[..2]) == 1 <==> b[..2] == [0, 1];
      if |b| >= 4 {
        EntriesTruncated(b[4..], Uint16(b[2..4]));
      }
    }
  }

  /** n leading ones leave the distance 256 / 2^n to 256. */
  lemma {:induction false} OnesDistance(v: byte)
    ensures LeadingOnes(v).Some? ==> (256 - v) * Power2(LeadingOnes(v).value) == 256
    decreases v
  {
    if v >= 128 {
      OnesDistance(2 * v - 256);
      if LeadingOnes(2 * v - 256).Some? {
        var n := LeadingOnes(2 * v - 256).value;
        Doubling(256 - v, Power2(n));
      }
    }
  }

  lemma Doubling(d: int, m: int)
    ensures d * (2 * m) == (2 * d) * m
  {
  }

  lemma TopBitsExactly(v: byte, n: nat)
    requires v < 255
    ensures LeadingOnes(v) == Some(n) <==> n < 8 && v == TopBits(n)
  {
    if n < 8 {
      LeadingOnesOfTopBits(n);
    }
    if LeadingOnes(v) == Some(n) {
      OnesDistance(v);
      LeadingOnesInRange(v);
      Powers();
    }
  }

  lemma Powers()
    ensures Power2(0) == 1 && Power2(1) == 2 && Power2(2) == 4 && Power2(3) == 8 && Power2(4) == 16
    ensures Power2(5) == 32 && Power2(6) == 64 && Power2(7) == 128 && Power2(8) == 256
  {
  }

  lemma {:induction false} AllZeroIsMask(m: seq<byte>)
    ensures AllZero(m) <==> m == CidrMask(0, |m|)
    decreases |m|
  {
    if m != [] {
      AllZeroIsMask(m[1..]);
      assert m == [m[0]] + m[1..];
    }
  }

  /** A mask has a length exactly if it is a mask of that length; any other counts as length 0. */
  lemma {:induction false} MaskLengthExactly(m: seq<byte>, n: nat)
    ensures MaskLength(m) == Some(n) <==> n <= 8 * |m| && m == CidrMask(n, |m|)
    decreases |m|
  {
    if n <= 8 * |m| && m == CidrMask(n, |m|) {
      MaskRoundTrip(n, |m|);
    }
    if m != [] && MaskLength(m) == Some(n) {
      assert m == [m[0]] + m[1..];
      if m[0] == 255 {
        MaskLengthExactly(m[1..], n - 8);
      } else {
        TopBitsExactly(m[0], n);
        AllZeroIsMask(m[1..]);
      }
    }
  }
}
