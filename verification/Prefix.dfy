/** IP prefixes as net/netip has them, and the byte arithmetic subtractPrefixes does on addresses.

    An address is its bytes, most significant first: four for IPv4, sixteen for IPv6. A prefix is read
    through its path, the leading bits it fixes; containment and overlap are prefix order on paths. */
module Prefixes {

  type Addr = a: seq<bv8> | |a| == 4 || |a| == 16 witness [0, 0, 0, 0]

  /** 0x80 >> k. */
  function Mask8(k: nat): bv8
    requires k < 8
  {
    if k == 0 then 0x80 else if k == 1 then 0x40 else if k == 2 then 0x20 else if k == 3 then 0x10
    else if k == 4 then 0x08 else if k == 5 then 0x04 else if k == 6 then 0x02 else 0x01
  }

  /** The byte mask that keeps the leading k bits. */
  function Keep8(k: int): bv8 {
    if k <= 0 then 0x00 else if k == 1 then 0x80 else if k == 2 then 0xC0 else if k == 3 then 0xE0
    else if k == 4 then 0xF0 else if k == 5 then 0xF8 else if k == 6 then 0xFC else if k == 7 then 0xFE else 0xFF
  }

  function BitOf(b: bv8, k: nat): bool
    requires k < 8
  {
    b & Mask8(k) != 0
  }

  /** The bits of an address, most significant first. */
  function Bits(a: Addr): (r: seq<bool>)
    ensures |r| == 8 * |a|
  {
    seq(8 * |a|, i requires 0 <= i < 8 * |a| => BitOf(a[i / 8], i % 8))
  }

  /** b[i/8] |= 0x80 >> (i%8). */
  function SetBit(a: Addr, i: nat): Addr
    requires i < 8 * |a|
  {
    a[i / 8 := a[i / 8] | Mask8(i % 8)]
  }

  /** Clears every bit after the leading n. */
  function MaskAddr(a: Addr, n: nat): Addr {
    seq(|a|, i requires 0 <= i < |a| => a[i] & Keep8(n - 8 * i))
  }

  lemma OrMask(b: bv8, k: nat, l: nat)
    requires k < 8 && l < 8
    ensures BitOf(b | Mask8(k), l) <==> k == l || BitOf(b, l)
  {
  }

  lemma AndKeep(b: bv8, k: int, l: nat)
    requires l < 8
    ensures BitOf(b & Keep8(k), l) <==> l < k && BitOf(b, l)
  {
  }

  /** The byte-level OR sets exactly one bit. */
  lemma SetBitBits(a: Addr, i: nat)
    requires i < 8 * |a|
    ensures |SetBit(a, i)| == |a| && Bits(SetBit(a, i)) == Bits(a)[i := true]
  {
    forall j | 0 <= j < 8 * |a| ensures Bits(SetBit(a, i))[j] == Bits(a)[i := true][j] {
      OrMask(a[i / 8], i % 8, j % 8);
    }
  }

  function Zeros(n: nat): seq<bool> { seq(n, _ => false) }

  lemma MaskBits(a: Addr, n: nat)
    requires n <= 8 * |a|
    ensures |MaskAddr(a, n)| == |a| && Bits(MaskAddr(a, n)) == Bits(a)[..n] + Zeros(8 * |a| - n)
  {
    var m := MaskAddr(a, n);
    forall j | 0 <= j < 8 * |a| ensures Bits(m)[j] == (Bits(a)[..n] + Zeros(8 * |a| - n))[j] {
      AndKeep(a[j / 8], n - 8 * (j / 8), j % 8);
    }
  }

  lemma BitsInjective(a: Addr, b: Addr)
    requires Bits(a) == Bits(b)
    ensures a == b
  {
    assert 8 * |a| == |Bits(a)| == 8 * |b|;
    forall i | 0 <= i < |a| ensures a[i] == b[i] {
      forall k: nat | k < 8 ensures BitOf(a[i], k) == BitOf(b[i], k) {
        assert Bits(a)[8 * i + k] == Bits(b)[8 * i + k];
        assert (8 * i + k) / 8 == i && (8 * i + k) % 8 == k;
      }
      ByteInjective(a[i], b[i]);
    }
  }

  lemma ByteInjective(x: bv8, y: bv8)
    requires forall k: nat | k < 8 :: BitOf(x, k) == BitOf(y, k)
    ensures x == y
  {
    assert BitOf(x, 0) == BitOf(y, 0) && BitOf(x, 1) == BitOf(y, 1) && BitOf(x, 2) == BitOf(y, 2);
    assert BitOf(x, 3) == BitOf(y, 3) && BitOf(x, 4) == BitOf(y, 4) && BitOf(x, 5) == BitOf(y, 5);
    assert BitOf(x, 6) == BitOf(y, 6) && BitOf(x, 7) == BitOf(y, 7);
  }

  // ---------------------------------------------------------------- prefixes

  datatype RawPrefix = Invalid | Net(addr: Addr, bits: nat)

  /** netip.Prefix: either the invalid prefix or an address with at most its own number of bits. */
  type Prefix = p: RawPrefix | p.Net? ==> p.bits <= 8 * |p.addr| witness Invalid

  function Path(p: Prefix): seq<bool>
    requires p.Net?
  {
    Bits(p.addr)[..p.bits]
  }

  predicate SameFamily(p: Prefix, q: Prefix) { p.Net? && q.Net? && |p.addr| == |q.addr| }

  predicate Contains(p: Prefix, a: Addr) { p.Net? && |p.addr| == |a| && Path(p) <= Bits(a) }

  predicate Overlaps(p: Prefix, q: Prefix) { SameFamily(p, q) && (Path(p) <= Path(q) || Path(q) <= Path(p)) }

  /** Every address of q is one of p. */
  predicate Inside(q: Prefix, p: Prefix) { SameFamily(p, q) && Path(p) <= Path(q) }

  function Masked(p: Prefix): Prefix {
    if p.Net? then Net(MaskAddr(p.addr, p.bits), p.bits) else Invalid
  }

  lemma MaskedPath(p: Prefix)
    requires p.Net?
    ensures Masked(p).Net? && |Masked(p).addr| == |p.addr| && Masked(p).bits == p.bits
    ensures Path(Masked(p)) == Path(p)
    ensures Bits(Masked(p).addr) == Path(p) + Zeros(8 * |p.addr| - p.bits)
    ensures Masked(Masked(p)) == Masked(p)
  {
    MaskBits(p.addr, p.bits);
    var m := Masked(p);
    MaskBits(m.addr, m.bits);
    assert Bits(m.addr)[..p.bits] == Bits(p.addr)[..p.bits];
    BitsInjective(MaskAddr(m.addr, m.bits), m.addr);
  }

  /** A prefix contains an address of its family exactly when masking both to its length gives the same bytes. */
  lemma ContainsMasked(p: Prefix, a: Addr)
    requires p.Net? && |p.addr| == |a|
    ensures Contains(p, a) <==> MaskAddr(p.addr, p.bits) == MaskAddr(a, p.bits)
  {
    MaskBits(p.addr, p.bits);
    MaskBits(a, p.bits);
    var zeros := Zeros(8 * |a| - p.bits);
    if MaskAddr(p.addr, p.bits) == MaskAddr(a, p.bits) {
      assert Path(p) == (Path(p) + zeros)[..p.bits] && Bits(a)[..p.bits] == (Bits(a)[..p.bits] + zeros)[..p.bits];
    }
    if Contains(p, a) {
      assert Path(p) == Bits(a)[..p.bits];
      BitsInjective(MaskAddr(p.addr, p.bits), MaskAddr(a, p.bits));
    }
  }

  predicate Covers(s: seq<Prefix>, a: Addr) { exists i | 0 <= i < |s| :: Contains(s[i], a) }

  lemma CoversConcat(s: seq<Prefix>, t: seq<Prefix>, a: Addr)
    ensures Covers(s + t, a) <==> Covers(s, a) || Covers(t, a)
  {
    if Covers(s, a) {
      var i :| 0 <= i < |s| && Contains(s[i], a);
      assert (s + t)[i] == s[i];
    }
    if Covers(t, a) {
      var i :| 0 <= i < |t| && Contains(t[i], a);
      assert (s + t)[|s| + i] == t[i];
    }
    if Covers(s + t, a) {
      var i :| 0 <= i < |s + t| && Contains((s + t)[i], a);
      assert (s + t)[i] == if i < |s| then s[i] else t[i - |s|];
    }
  }
}
