/** Bytes and big-endian integers, as encoding/binary writes and reads them. */
module Wire {

  type Byte = b: int | 0 <= b < 256

  function Pow256(k: nat): nat { if k == 0 then 1 else 256 * Pow256(k - 1) }

  /** The low width bytes of n, most significant first. */
  function Be(n: nat, width: nat): (r: seq<Byte>)
    ensures |r| == width
    decreases width
  {
    if width == 0 then [] else Be(n / 256, width - 1) + [n % 256]
  }

  function Unbe(b: seq<Byte>): nat {
    if b == [] then 0 else 256 * Unbe(b[..|b| - 1]) + b[|b| - 1]
  }

  lemma {:induction false} UnbeBe(n: nat, width: nat)
    requires n < Pow256(width)
    ensures Unbe(Be(n, width)) == n
    decreases width
  {
    if width > 0 {
      UnbeBe(n / 256, width - 1);
      var b := Be(n, width);
      assert b[..|b| - 1] == Be(n / 256, width - 1);
    }
  }

  lemma {:induction false} BeUnbe(b: seq<Byte>)
    ensures Unbe(b) < Pow256(|b|)
    ensures Be(Unbe(b), |b|) == b
  {
    if b != [] {
      BeUnbe(b[..|b| - 1]);
      assert b == b[..|b| - 1] + [b[|b| - 1]];
    }
  }

  lemma Widths()
    ensures Pow256(2) == 0x1_0000 && Pow256(4) == 0x1_0000_0000 && Pow256(8) == 0x1_0000_0000_0000_0000
  {
    assert Pow256(1) == 256 && Pow256(2) == 256 * Pow256(1) && Pow256(3) == 256 * Pow256(2);
    assert Pow256(4) == 256 * Pow256(3) && Pow256(5) == 256 * Pow256(4) && Pow256(6) == 256 * Pow256(5);
    assert Pow256(7) == 256 * Pow256(6) && Pow256(8) == 256 * Pow256(7);
  }

  // int64 as uint64 and back

  const TWO63: int := 0x8000_0000_0000_0000
  const TWO64: int := 0x1_0000_0000_0000_0000

  predicate IsInt64(x: int) { -TWO63 <= x < TWO63 }

  function ToUint64(x: int): nat { x % TWO64 }

  function ToInt64(n: nat): int { if n < TWO63 then n else n - TWO64 }

  lemma Int64RoundTrip(x: int, n: nat)
    ensures IsInt64(x) ==> ToInt64(ToUint64(x)) == x && ToUint64(x) < TWO64
    ensures n < TWO64 ==> IsInt64(ToInt64(n)) && ToUint64(ToInt64(n)) == n
  {
  }

  /** Where the parts of a message in three parts are found. */
  lemma Split(x: seq<Byte>, y: seq<Byte>, tail: seq<Byte>)
    ensures (x + y + tail)[..|x|] == x && (x + y + tail)[|x|..|x| + |y|] == y
    ensures (x + y + tail)[..|x| + |y|] == x + y && (x + y + tail)[|x| + |y|..] == tail
  {
  }
}
