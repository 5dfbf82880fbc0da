/** IPv4 prefixes as netip.Prefix compares and matches them. */
module Prefixes {
  import opened Words

  type Addr = uint32

  datatype RawPrefix = RawPrefix(addr: Addr, bits: nat)

  type Prefix = p: RawPrefix | p.bits <= 32 witness RawPrefix(0, 0)

  /** x without its k lowest bits. */
  function Shr(x: nat, k: nat): nat
    decreases k
  {
    if k == 0 then x else Shr(x / 2, k - 1)
  }

  /** The k lowest bits of x are zero. */
  predicate LowZero(x: nat, k: nat)
    decreases k
  {
    k == 0 || (x % 2 == 0 && LowZero(x / 2, k - 1))
  }

  /** The address agrees with the prefix on its leading bits. */
  predicate Contains(p: Prefix, ip: Addr) {
    Shr(p.addr, 32 - p.bits) == Shr(ip, 32 - p.bits)
  }

  /** No host bits are set. */
  predicate IsMasked(p: Prefix) {
    LowZero(p.addr, 32 - p.bits)
  }

  lemma {:induction false} ShrAgain(x: nat, y: nat, k: nat, m: nat)
    requires k <= m && Shr(x, k) == Shr(y, k)
    ensures Shr(x, m) == Shr(y, m)
    decreases m
  {
    if k == 0 {
    } else {
      ShrAgain(x / 2, y / 2, k - 1, m - 1);
    }
  }

  lemma {:induction false} ShrInjective(x: nat, y: nat, k: nat)
    requires LowZero(x, k) && LowZero(y, k) && Shr(x, k) == Shr(y, k)
    ensures x == y
    decreases k
  {
    if k > 0 {
      ShrInjective(x / 2, y / 2, k - 1);
    }
  }

  /** Two masked prefixes of one length that match the same address are the same prefix. */
  lemma SameLengthUnique(p: Prefix, q: Prefix, ip: Addr)
    requires IsMasked(p) && IsMasked(q) && p.bits == q.bits && Contains(p, ip) && Contains(q, ip)
    ensures p == q
  {
    ShrInjective(p.addr, q.addr, 32 - p.bits);
  }

  /** Of two prefixes that match the same address the shorter contains the longer. */
  lemma Nested(p: Prefix, q: Prefix, ip: Addr)
    requires p.bits <= q.bits && Contains(p, ip) && Contains(q, ip)
    ensures Contains(p, q.addr)
  {
    ShrAgain(q.addr, ip, 32 - q.bits, 32 - p.bits);
  }

  // ---- which addresses a prefix matches ----

  function Power2(k: nat): (p: nat)
    ensures p > 0
  {
    if k == 0 then 1 else 2 * Power2(k - 1)
  }

  lemma Halved(x: nat, q: nat, m: nat)
    requires q * m <= x / 2 < (q + 1) * m
    ensures q * (2 * m) <= x < (q + 1) * (2 * m)
  {
    assert q * (2 * m) == 2 * (q * m) && (q + 1) * (2 * m) == 2 * ((q + 1) * m);
  }

  /** Shr halves k times, so it divides by 2^k. */
  lemma {:induction false} ShrBounds(x: nat, k: nat)
    ensures Shr(x, k) * Power2(k) <= x < (Shr(x, k) + 1) * Power2(k)
    decreases k
  {
    if k > 0 {
      ShrBounds(x / 2, k - 1);
      Halved(x, Shr(x / 2, k - 1), Power2(k - 1));
    }
  }

  lemma QuotientIs(x: nat, q: nat, m: nat)
    requires m > 0 && q * m <= x < (q + 1) * m
    ensures x / m == q
  {
    var d := x / m;
    assert d * m <= x < (d + 1) * m;
    if d < q {
      Monotone(d + 1, q, m);
    }
    if d > q {
      Monotone(q + 1, d, m);
    }
  }

  lemma Monotone(a: nat, b: nat, m: nat)
    requires a <= b
    ensures a * m <= b * m
  {
  }

  lemma ShrIsDivision(x: nat, k: nat)
    ensures Shr(x, k) == x / Power2(k)
  {
    ShrBounds(x, k);
    QuotientIs(x, Shr(x, k), Power2(k));
  }

  /** A prefix matches the addresses that agree with it in all but the last 32 - bits bits. */
  lemma MatchesExactly(p: Prefix, ip: Addr)
    ensures Contains(p, ip) <==> p.addr / Power2(32 - p.bits) == ip / Power2(32 - p.bits)
  {
    ShrIsDivision(p.addr, 32 - p.bits);
    ShrIsDivision(ip, 32 - p.bits);
  }

  lemma {:induction false} MaskedIsMultiple(x: nat, k: nat)
    ensures LowZero(x, k) <==> x == Shr(x, k) * Power2(k)
    decreases k
  {
    if k > 0 {
      MaskedIsMultiple(x / 2, k - 1);
      var q, m := Shr(x / 2, k - 1), Power2(k - 1);
      assert q * Power2(k) == 2 * (q * m);
    }
  }

  lemma SameCell(ip: nat, q: nat, s: nat, m: nat)
    requires m > 0 && s * m <= ip < (s + 1) * m
    ensures s == q <==> q * m <= ip < q * m + m
  {
    assert (q + 1) * m == q * m + m;
    if q * m <= ip < q * m + m {
      QuotientIs(ip, q, m);
      QuotientIs(ip, s, m);
    }
  }

  /** A masked prefix matches one interval, from its own address. */
  lemma MaskedMatchesInterval(p: Prefix, ip: Addr)
    requires IsMasked(p)
    ensures Contains(p, ip) <==> p.addr <= ip < p.addr + Power2(32 - p.bits)
  {
    var k := 32 - p.bits;
    MaskedIsMultiple(p.addr, k);
    ShrBounds(ip, k);
    SameCell(ip, Shr(p.addr, k), Shr(ip, k), Power2(k));
  }

  lemma PowerOf32()
    ensures Power2(0) == 1 && Power2(8) == 256 && Power2(32) == 0x1_0000_0000
  {
    assert Power2(8) == 256;
    assert Power2(16) == 0x1_0000;
    PowerSum(16, 16);
  }

  lemma {:induction false} PowerSum(j: nat, k: nat)
    ensures Power2(j + k) == Power2(j) * Power2(k)
    decreases j
  {
    if j > 0 {
      PowerSum(j - 1, k);
      assert Power2(j) * Power2(k) == 2 * (Power2(j - 1) * Power2(k));
    }
  }

  /** The default prefix matches every address, a host prefix only its own. */
  lemma DefaultAndHost(p: Prefix, ip: Addr)
    ensures p.bits == 0 ==> Contains(p, ip)
    ensures p.bits == 32 ==> (Contains(p, ip) <==> ip == p.addr)
  {
    MatchesExactly(p, ip);
    PowerOf32();
  }
}
