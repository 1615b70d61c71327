/** subtractPrefixes: base minus every removed prefix, as the fewest prefixes that cover the rest. */
module PrefixSubtraction {
  import opened Prefixes

  /** The lower and upper half of a prefix that is not a single address. */
  function Lower(b: Prefix): Prefix
    requires b.Net? && b.bits < 8 * |b.addr|
  {
    Net(b.addr, b.bits + 1)
  }

  function Upper(b: Prefix): Prefix
    requires b.Net? && b.bits < 8 * |b.addr|
  {
    Net(SetBit(b.addr, b.bits), b.bits + 1)
  }

  predicate Swallowed(b: Prefix, remove: seq<Prefix>) { exists i | 0 <= i < |remove| :: Inside(b, remove[i]) }

  predicate Touched(b: Prefix, remove: seq<Prefix>) { exists i | 0 <= i < |remove| :: Overlaps(b, remove[i]) }

  /** A full-length base that overlaps a removed prefix already lies inside it, so the recursion ends. */
  lemma FullLengthIsSwallowed(b: Prefix, remove: seq<Prefix>)
    requires Touched(b, remove) && !Swallowed(b, remove)
    ensures b.Net? && b.bits < 8 * |b.addr|
  {
    var i :| 0 <= i < |remove| && Overlaps(b, remove[i]);
    assert !Inside(b, remove[i]);
    assert |Path(remove[i])| == remove[i].bits && |Path(b)| == b.bits;
  }

  function Room(p: Prefix): nat { if p.Net? then 8 * |p.addr| - p.bits else 0 }

  function Subtract(base: Prefix, remove: seq<Prefix>): seq<Prefix>
    decreases Room(base)
  {
    var b := Masked(base);
    if Swallowed(b, remove) then []
    else if !Touched(b, remove) then [b]
    else
      FullLengthIsSwallowed(b, remove);
      Subtract(Lower(b), remove) + Subtract(Upper(b), remove)
  }

  /** The two halves are aligned and split the base's addresses. */
  lemma Halves(base: Prefix)
    requires base.Net? && base.bits < 8 * |base.addr|
    ensures var b := Masked(base);
            && b.Net? && b.bits < 8 * |b.addr| && |b.addr| == |base.addr|
            && SameFamily(Lower(b), b) && SameFamily(Upper(b), b)
            && Path(Lower(b)) == Path(base) + [false] && Path(Upper(b)) == Path(base) + [true]
            && Masked(Lower(b)) == Lower(b) && Masked(Upper(b)) == Upper(b)
  {
    MaskedPath(base);
    var b := Masked(base);
    SetBitBits(b.addr, b.bits);
    assert Bits(b.addr)[b.bits] == false;
    assert Bits(b.addr)[..b.bits + 1] == Path(base) + [false];
    assert Bits(Upper(b).addr)[..b.bits + 1] == Path(base) + [true];
    MaskedPath(Lower(b));
    MaskedPath(Upper(b));
    var rest := 8 * |b.addr| - b.bits;
    assert Bits(b.addr) == Path(base) + [false] + Zeros(rest - 1);
    assert Bits(Upper(b).addr) == Path(base) + [true] + Zeros(rest - 1);
    BitsInjective(Masked(Lower(b)).addr, Lower(b).addr);
    BitsInjective(Masked(Upper(b)).addr, Upper(b).addr);
  }

  lemma MaskedBase(base: Prefix, remove: seq<Prefix>)
    ensures Swallowed(Masked(base), remove) <==> Swallowed(base, remove)
    ensures Touched(Masked(base), remove) <==> Touched(base, remove)
    ensures forall a: Addr :: Contains(Masked(base), a) <==> Contains(base, a)
  {
    if base.Net? {
      MaskedPath(base);
      assert forall i | 0 <= i < |remove| :: Inside(Masked(base), remove[i]) <==> Inside(base, remove[i]);
      assert forall i | 0 <= i < |remove| :: Overlaps(Masked(base), remove[i]) <==> Overlaps(base, remove[i]);
    }
  }

  /** The three ways a call can go, with the facts a proof needs about the split. */
  lemma Unfold(base: Prefix, remove: seq<Prefix>) returns (split: bool, lo: Prefix, hi: Prefix)
    ensures split <==> !Swallowed(base, remove) && Touched(base, remove)
    ensures !split ==> Subtract(base, remove) == if Swallowed(base, remove) then [] else [Masked(base)]
    ensures split ==> base.Net? && SameFamily(lo, base) && SameFamily(hi, base) && base.bits < 8 * |base.addr|
    ensures split ==> Path(lo) == Path(base) + [false] && Path(hi) == Path(base) + [true]
    ensures split ==> lo.bits == hi.bits == base.bits + 1
    ensures split ==> Subtract(base, remove) == Subtract(lo, remove) + Subtract(hi, remove)
  {
    MaskedBase(base, remove);
    split, lo, hi := Touched(base, remove) && !Swallowed(base, remove), base, base;
    if split {
      FullLengthIsSwallowed(base, remove);
      Halves(base);
      lo, hi := Lower(Masked(base)), Upper(Masked(base));
    }
  }

  // -------------------------------------------------------------- exactness

  /** An address is covered exactly when it is in the base and in nothing removed. */
  lemma {:induction false} Exact(base: Prefix, remove: seq<Prefix>, a: Addr)
    ensures Covers(Subtract(base, remove), a) <==> Contains(base, a) && !Covers(remove, a)
    decreases Room(base)
  {
    var split, lo, hi := Unfold(base, remove);
    MaskedBase(base, remove);
    if split {
      Exact(lo, remove, a);
      Exact(hi, remove, a);
      CoversConcat(Subtract(lo, remove), Subtract(hi, remove), a);
      ContainsHalves(base, lo, hi, a);
    } else if Swallowed(base, remove) {
      var i :| 0 <= i < |remove| && Inside(base, remove[i]);
      assert Contains(base, a) ==> Contains(remove[i], a);
    } else if Contains(base, a) {
      assert Covers([Masked(base)], a) by { assert [Masked(base)][0] == Masked(base); }
      forall i | 0 <= i < |remove| && Contains(remove[i], a) ensures Overlaps(base, remove[i]) {
        Comparable(Path(base), Path(remove[i]), Bits(a));
      }
    }
  }

  lemma Comparable(p: seq<bool>, q: seq<bool>, a: seq<bool>)
    requires p <= a && q <= a
    ensures p <= q || q <= p
  {
    if |p| <= |q| {
      assert p == a[..|p|] == q[..|p|];
    } else {
      assert q == a[..|q|] == p[..|q|];
    }
  }

  lemma ContainsHalves(base: Prefix, lo: Prefix, hi: Prefix, a: Addr)
    requires SameFamily(lo, base) && SameFamily(hi, base) && base.bits < 8 * |base.addr|
    requires Path(lo) == Path(base) + [false] && Path(hi) == Path(base) + [true]
    ensures Contains(base, a) <==> Contains(lo, a) || Contains(hi, a)
  {
    assert Path(base) <= Path(lo) && Path(base) <= Path(hi);
    if Contains(base, a) {
      var n := |Path(base)|;
      assert Bits(a)[..n + 1] == Path(base) + [Bits(a)[n]];
    }
  }

  /** A list of aligned prefixes inside one prefix, no two of which share an address. */
  predicate Partition(s: seq<Prefix>, base: Prefix) {
    && (forall i | 0 <= i < |s| :: Inside(s[i], base) && Masked(s[i]) == s[i])
    && (forall i, j | 0 <= i < j < |s| :: !Overlaps(s[i], s[j]))
  }

  lemma JoinHalves(base: Prefix, lo: Prefix, hi: Prefix, below: seq<Prefix>, above: seq<Prefix>)
    requires SameFamily(lo, base) && SameFamily(hi, base) && base.bits < 8 * |base.addr|
    requires Path(lo) == Path(base) + [false] && Path(hi) == Path(base) + [true]
    requires Partition(below, lo) && Partition(above, hi)
    ensures Partition(below + above, base)
  {
    forall i, j | 0 <= i < |below| && 0 <= j < |above| ensures !Overlaps(below[i], above[j]) {
      HalvesApart(base, lo, hi, below[i], above[j]);
    }
    assert Path(base) <= Path(lo) && Path(base) <= Path(hi);
  }

  lemma HalvesApart(base: Prefix, lo: Prefix, hi: Prefix, p: Prefix, q: Prefix)
    requires SameFamily(lo, base) && SameFamily(hi, base) && base.bits < 8 * |base.addr|
    requires Path(lo) == Path(base) + [false] && Path(hi) == Path(base) + [true]
    requires Inside(p, lo) && Inside(q, hi)
    ensures !Overlaps(p, q)
  {
    var n := |Path(base)|;
    assert Path(p)[n] == Path(lo)[n] == false && Path(q)[n] == Path(hi)[n] == true;
  }

  /** The outputs are aligned, lie inside the base and are pairwise disjoint. */
  lemma {:induction false} Outputs(base: Prefix, remove: seq<Prefix>)
    requires base.Net?
    ensures Partition(Subtract(base, remove), base)
    decreases Room(base)
  {
    var split, lo, hi := Unfold(base, remove);
    if split {
      Outputs(lo, remove);
      Outputs(hi, remove);
      JoinHalves(base, lo, hi, Subtract(lo, remove), Subtract(hi, remove));
    } else {
      MaskedPath(base);
    }
  }

  // -------------------------------------------------------------- minimality

  predicate Avoids(q: Prefix, remove: seq<Prefix>) { forall i | 0 <= i < |remove| :: !Overlaps(q, remove[i]) }

  lemma SwallowedMeets(base: Prefix, remove: seq<Prefix>, q: Prefix)
    requires Inside(q, base)
    ensures Swallowed(base, remove) ==> !Avoids(q, remove)
    ensures Touched(base, remove) && Path(q) == Path(base) ==> !Avoids(q, remove)
  {
    if Swallowed(base, remove) {
      var k :| 0 <= k < |remove| && Inside(base, remove[k]);
      assert Overlaps(q, remove[k]);
    }
    if Touched(base, remove) && Path(q) == Path(base) {
      var k :| 0 <= k < |remove| && Overlaps(base, remove[k]);
      assert Overlaps(q, remove[k]);
    }
  }

  lemma LongerOrSame(p: seq<bool>, q: seq<bool>)
    requires p <= q
    ensures p == q || |q| > |p|
  {
  }

  lemma InsideHalf(base: Prefix, lo: Prefix, hi: Prefix, q: Prefix)
    requires SameFamily(lo, base) && SameFamily(hi, base) && base.bits < 8 * |base.addr|
    requires Path(lo) == Path(base) + [false] && Path(hi) == Path(base) + [true]
    requires Inside(q, base) && Path(q) != Path(base)
    ensures Inside(q, lo) || Inside(q, hi)
  {
    var n := |Path(base)|;
    assert Path(q)[..n] == Path(base);
    assert |Path(q)| > n by { LongerOrSame(Path(base), Path(q)); }
    assert Path(q)[..n + 1] == Path(base) + [Path(q)[n]];
  }

  /** One prefix of the list holds all of q. */
  predicate SomeHolds(s: seq<Prefix>, q: Prefix) { exists i | 0 <= i < |s| :: Inside(q, s[i]) }

  lemma HoldsConcat(s: seq<Prefix>, t: seq<Prefix>, q: Prefix)
    requires SomeHolds(s, q) || SomeHolds(t, q)
    ensures SomeHolds(s + t, q)
  {
    if SomeHolds(s, q) {
      var i :| 0 <= i < |s| && Inside(q, s[i]);
      assert (s + t)[i] == s[i];
    } else {
      var i :| 0 <= i < |t| && Inside(q, t[i]);
      assert (s + t)[|s| + i] == t[i];
    }
  }

  /** Any prefix inside the base that avoids everything removed lies inside a single output. */
  lemma {:induction false} Maximal(base: Prefix, remove: seq<Prefix>, q: Prefix)
    requires Inside(q, base) && Avoids(q, remove)
    ensures SomeHolds(Subtract(base, remove), q)
    decreases Room(base)
  {
    SwallowedMeets(base, remove, q);
    var split, lo, hi := Unfold(base, remove);
    if split {
      InsideHalf(base, lo, hi, q);
      if Inside(q, lo) {
        Maximal(lo, remove, q);
      } else {
        Maximal(hi, remove, q);
      }
      HoldsConcat(Subtract(lo, remove), Subtract(hi, remove), q);
    } else {
      MaskedPath(base);
      assert Inside(q, [Masked(base)][0]);
    }
  }

  /** A prefix shorter than another has an address the other lacks: both settings of its next bit are in it. */
  lemma ShorterSticksOut(q: Prefix, base: Prefix)
    requires q.Net?
    ensures (forall a: Addr | Contains(q, a) :: Contains(base, a)) ==> Inside(q, base)
  {
    assert Contains(q, q.addr);
    if base.Net? && |base.addr| == |q.addr| && q.bits < base.bits {
      var low, high := MaskAddr(q.addr, q.bits), SetBit(q.addr, q.bits);
      MaskBits(q.addr, q.bits);
      SetBitBits(q.addr, q.bits);
      assert Bits(low)[q.bits] == false && Bits(high)[q.bits] == true;
      assert Path(q) <= Bits(low) && Path(q) <= Bits(high);
      assert !Contains(base, low) || !Contains(base, high) by {
        assert Contains(base, low) ==> Path(base)[q.bits] == Bits(low)[q.bits];
        assert Contains(base, high) ==> Path(base)[q.bits] == Bits(high)[q.bits];
      }
      assert Contains(q, low) && Contains(q, high);
    } else if Contains(base, q.addr) {
      Comparable(Path(q), Path(base), Bits(q.addr));
      assert Path(base) <= Path(q) by { assert |Path(base)| <= |Path(q)|; }
    }
  }

  lemma OverlapShares(q: Prefix, r: Prefix)
    ensures Overlaps(q, r) ==> exists a: Addr :: Contains(q, a) && Contains(r, a)
  {
    if Overlaps(q, r) {
      if Path(r) <= Path(q) {
        assert Contains(q, q.addr) && Contains(r, q.addr);
      } else {
        assert Contains(q, r.addr) && Contains(r, r.addr);
      }
    }
  }

  ghost predicate SameCover(l: seq<Prefix>, s: seq<Prefix>) { forall a: Addr :: Covers(l, a) <==> Covers(s, a) }

  /** A list with the coverage of the difference consists of prefixes inside the base that avoid what is removed. */
  lemma ExactListAvoids(base: Prefix, remove: seq<Prefix>, l: seq<Prefix>, k: nat)
    requires k < |l| && l[k].Net?
    requires SameCover(l, Subtract(base, remove))
    ensures Inside(l[k], base) && Avoids(l[k], remove)
  {
    var q := l[k];
    forall a: Addr | Contains(q, a) ensures Contains(base, a) && !Covers(remove, a) {
      Exact(base, remove, a);
      assert Covers(l, a);
    }
    ShorterSticksOut(q, base);
    forall i | 0 <= i < |remove| ensures !Overlaps(q, remove[i]) {
      OverlapShares(q, remove[i]);
      assert forall a: Addr | Contains(q, a) :: !Contains(remove[i], a) by {
        assert forall a: Addr | Contains(remove[i], a) :: Covers(remove, a);
      }
    }
  }

  lemma SharedMeansSame(s: seq<Prefix>, base: Prefix, i: nat, j: nat, a: Addr)
    requires Partition(s, base) && i < |s| && j < |s| && Contains(s[i], a) && Contains(s[j], a)
    ensures i == j
  {
    Comparable(Path(s[i]), Path(s[j]), Bits(a));
    assert Overlaps(s[i], s[j]) && Overlaps(s[j], s[i]);
  }

  /** Some entry of a list with the same coverage lies inside each output. */
  lemma Witness(base: Prefix, remove: seq<Prefix>, l: seq<Prefix>, i: nat) returns (k: nat)
    requires base.Net? && i < |Subtract(base, remove)|
    requires SameCover(l, Subtract(base, remove))
    ensures k < |l| && Inside(l[k], Subtract(base, remove)[i])
  {
    var out := Subtract(base, remove);
    Outputs(base, remove);
    var a := out[i].addr;
    assert Contains(out[i], a);
    assert Covers(l, a);
    k :| 0 <= k < |l| && Contains(l[k], a);
    ExactListAvoids(base, remove, l, k);
    Maximal(base, remove, l[k]);
    var j :| 0 <= j < |out| && Inside(l[k], out[j]);
    assert Contains(out[j], a);
    SharedMeansSame(out, base, i, j, a);
  }

  lemma {:induction false} DistinctBelow(s: seq<nat>, m: nat)
    requires forall i | 0 <= i < |s| :: s[i] < m
    requires forall i, j | 0 <= i < j < |s| :: s[i] != s[j]
    ensures |s| <= m
    decreases m
  {
    if s != [] {
      assert s[0] < m;
      if k :| 0 <= k < |s| && s[k] == m - 1 {
        var t := s[..k] + s[k + 1..];
        assert forall i | 0 <= i < |t| :: t[i] == if i < k then s[i] else s[i + 1];
        DistinctBelow(t, m - 1);
      } else {
        DistinctBelow(s, m - 1);
      }
    }
  }

  /** No list of prefixes with the same coverage is shorter, for any valid base; for the invalid base, which
      covers nothing yet is returned as it is, the empty list is. */
  lemma Fewest(base: Prefix, remove: seq<Prefix>)
    ensures base.Net? <==>
            forall l: seq<Prefix> | SameCover(l, Subtract(base, remove)) :: |Subtract(base, remove)| <= |l|
  {
    if base.Net? {
      forall l: seq<Prefix> | SameCover(l, Subtract(base, remove)) ensures |Subtract(base, remove)| <= |l| {
        NoShorter(base, remove, l);
      }
    } else {
      InvalidIsEmpty(base, remove);
      var l: seq<Prefix> := [];
      assert SameCover(l, Subtract(base, remove)) && |l| < |Subtract(base, remove)|;
    }
  }

  lemma InvalidIsEmpty(base: Prefix, remove: seq<Prefix>)
    requires base.Invalid?
    ensures Subtract(base, remove) == [Invalid] && SameCover([], Subtract(base, remove))
  {
  }

  lemma OneOnly(p: Prefix, r: Prefix, q: Prefix)
    requires !Overlaps(p, r) && Inside(q, p)
    ensures !Inside(q, r)
  {
    if SameFamily(p, r) && Path(r) <= Path(q) {
      Comparable(Path(p), Path(r), Path(q));
    }
  }

  /** Distinct entries of l, the i-th inside the i-th output. */
  predicate Picked(out: seq<Prefix>, l: seq<Prefix>, picks: seq<nat>) {
    && |picks| <= |out|
    && (forall i | 0 <= i < |picks| :: picks[i] < |l| && Inside(l[picks[i]], out[i]))
    && (forall i, j | 0 <= i < j < |picks| :: picks[i] != picks[j])
  }

  /** An entry inside the next output was not picked for an earlier one: the outputs share no address. */
  lemma OneMorePick(out: seq<Prefix>, base: Prefix, l: seq<Prefix>, picks: seq<nat>, k: nat)
    requires Partition(out, base) && Picked(out, l, picks) && |picks| < |out|
    requires k < |l| && Inside(l[k], out[|picks|])
    ensures Picked(out, l, picks + [k])
  {
    var n := |picks|;
    forall i | 0 <= i < n ensures picks[i] != k {
      assert Inside(l[picks[i]], out[i]);
      OneOnly(out[i], out[n], l[picks[i]]);
    }
  }

  lemma {:induction false} PickFor(base: Prefix, remove: seq<Prefix>, l: seq<Prefix>, n: nat) returns (picks: seq<nat>)
    requires base.Net? && SameCover(l, Subtract(base, remove)) && n <= |Subtract(base, remove)|
    ensures |picks| == n && Picked(Subtract(base, remove), l, picks)
  {
    picks := [];
    if n > 0 {
      picks := PickFor(base, remove, l, n - 1);
      var k := Witness(base, remove, l, n - 1);
      Outputs(base, remove);
      OneMorePick(Subtract(base, remove), base, l, picks, k);
      picks := picks + [k];
    }
  }

  lemma NoShorter(base: Prefix, remove: seq<Prefix>, l: seq<Prefix>)
    requires base.Net? && SameCover(l, Subtract(base, remove))
    ensures |Subtract(base, remove)| <= |l|
  {
    var picks := PickFor(base, remove, l, |Subtract(base, remove)|);
    DistinctBelow(picks, |l|);
  }

  // -------------------------------------------------------------- size bound

  /** The removed prefixes strictly inside the base: how many, and the total depth they add. */
  function Strictly(base: Prefix, remove: seq<Prefix>): nat {
    if remove == [] then 0
    else (if Inside(remove[0], base) && !Inside(base, remove[0]) then 1 else 0) + Strictly(base, remove[1..])
  }

  function Depth(base: Prefix, remove: seq<Prefix>): nat {
    if remove == [] then 0
    else (if Inside(remove[0], base) && !Inside(base, remove[0]) then remove[0].bits - base.bits else 0)
         + Depth(base, remove[1..])
  }

  lemma {:induction false} DepthSplits(base: Prefix, lo: Prefix, hi: Prefix, remove: seq<Prefix>)
    requires SameFamily(lo, base) && SameFamily(hi, base) && base.bits < 8 * |base.addr|
    requires lo.bits == hi.bits == base.bits + 1
    requires Path(lo) == Path(base) + [false] && Path(hi) == Path(base) + [true]
    ensures Depth(base, remove) == Depth(lo, remove) + Depth(hi, remove) + Strictly(base, remove)
  {
    if remove != [] {
      DepthSplits(base, lo, hi, remove[1..]);
      OneSplits(base, lo, hi, remove[0]);
    }
  }

  lemma OneSplits(base: Prefix, lo: Prefix, hi: Prefix, r: Prefix)
    requires SameFamily(lo, base) && SameFamily(hi, base) && base.bits < 8 * |base.addr|
    requires lo.bits == hi.bits == base.bits + 1
    requires Path(lo) == Path(base) + [false] && Path(hi) == Path(base) + [true]
    ensures Inside(r, lo) ==> !Inside(r, hi)
    ensures Inside(r, base) && !Inside(base, r) <==> Inside(r, lo) || Inside(r, hi)
    ensures Inside(r, lo) && Inside(lo, r) ==> r.bits == lo.bits
    ensures Inside(r, hi) && Inside(hi, r) ==> r.bits == hi.bits
  {
    if SameFamily(base, r) {
      var n := |Path(base)|;
      assert |Path(r)| == r.bits;
      if Inside(r, base) && !Inside(base, r) {
        assert Path(r)[..n + 1] == Path(base) + [Path(r)[n]];
      }
      if Inside(r, lo) {
        assert Path(r)[n] == false && Path(base) <= Path(r);
      }
      if Inside(r, hi) {
        assert Path(r)[n] == true && Path(base) <= Path(r);
      }
    }
  }

  lemma {:induction false} SomeStrictly(base: Prefix, remove: seq<Prefix>, k: nat)
    requires k < |remove| && Inside(remove[k], base) && !Inside(base, remove[k])
    ensures Strictly(base, remove) >= 1
  {
    if k > 0 {
      SomeStrictly(base, remove[1..], k - 1);
    }
  }

  lemma TouchedHalf(base: Prefix, lo: Prefix, hi: Prefix, remove: seq<Prefix>)
    requires SameFamily(lo, base) && SameFamily(hi, base) && base.bits < 8 * |base.addr|
    requires lo.bits == hi.bits == base.bits + 1
    requires Path(lo) == Path(base) + [false] && Path(hi) == Path(base) + [true]
    requires Touched(base, remove) && !Swallowed(base, remove)
    ensures Strictly(base, remove) >= 1
    ensures Touched(lo, remove) || Touched(hi, remove)
  {
    var k :| 0 <= k < |remove| && Overlaps(base, remove[k]);
    assert !Inside(base, remove[k]);
    OneSplits(base, lo, hi, remove[k]);
    SomeStrictly(base, remove, k);
    assert Overlaps(lo, remove[k]) || Overlaps(hi, remove[k]);
  }

  /** The output is no longer than the total depth of what lies strictly inside the base, but for one prefix
      when nothing touches it. */
  lemma {:induction false} LengthBound(base: Prefix, remove: seq<Prefix>)
    ensures |Subtract(base, remove)| <= Depth(base, remove) + if Touched(base, remove) then 0 else 1
    decreases Room(base)
  {
    var split, lo, hi := Unfold(base, remove);
    if split {
      TouchedHalf(base, lo, hi, remove);
      DepthSplits(base, lo, hi, remove);
      LengthBound(lo, remove);
      LengthBound(hi, remove);
    }
  }

  // ------------------------------------------------------------- the method

  /** Addr().Is4(); the invalid prefix has no address and is not IPv4. */
  predicate Is4(p: Prefix) { p.Net? && |p.addr| == 4 }

  /** rm.Bits() <= base.Bits() && rm.Contains(base.Addr()); the invalid prefix has bits -1 and contains nothing. */
  predicate HoldsBase(rm: Prefix, b: Prefix) {
    rm.Net? && b.Net? && rm.bits <= b.bits && Contains(rm, b.addr)
  }

  /** The three tests of one scan step, on the masked removed prefix, in terms of the prefix as given. */
  lemma ScanTests(b: Prefix, r: Prefix)
    ensures Is4(Masked(r)) != Is4(b) ==> !Inside(b, r) && !Overlaps(b, r)
    ensures HoldsBase(Masked(r), b) <==> Inside(b, r)
    ensures Overlaps(b, Masked(r)) <==> Overlaps(b, r)
  {
    if r.Net? {
      MaskedPath(r);
      if HoldsBase(Masked(r), b) {
        Comparable(Path(r), Path(b), Bits(b.addr));
        LongerOrSame(Path(b), Bits(b.addr));
      }
      if Inside(b, r) {
        assert |Path(r)| <= |Path(b)|;
        assert Path(r) <= Bits(b.addr);
      }
    }
  }

  /** subtractPrefixes, with its scan over the removed prefixes. */
  method SubtractPrefixes(base: Prefix, remove: seq<Prefix>) returns (out: seq<Prefix>)
    ensures out == Subtract(base, remove)
    decreases Room(base)
  {
    var b := Masked(base);
    var swallowed, overlaps := Scan(b, remove);
    if swallowed {
      return [];
    }
    if !overlaps {
      return [b];
    }
    FullLengthIsSwallowed(b, remove);
    var bits := b.bits + 1;
    var lo := Net(b.addr, bits);
    var hi := Net(SetBit(b.addr, bits - 1), bits);
    assert lo == Lower(b) && hi == Upper(b);
    var below := SubtractPrefixes(lo, remove);
    var above := SubtractPrefixes(hi, remove);
    return below + above;
  }

  method Scan(b: Prefix, remove: seq<Prefix>) returns (swallowed: bool, overlaps: bool)
    ensures swallowed == Swallowed(b, remove)
    ensures !swallowed ==> overlaps == Touched(b, remove)
  {
    overlaps := false;
    for i := 0 to |remove|
      invariant forall k | 0 <= k < i :: !Inside(b, remove[k])
      invariant overlaps <==> exists k | 0 <= k < i :: Overlaps(b, remove[k])
    {
      var rm := Masked(remove[i]);
      ScanTests(b, remove[i]);
      if Is4(rm) != Is4(b) {
        continue;
      }
      if HoldsBase(rm, b) {
        return true, overlaps;
      }
      if Overlaps(b, rm) {
        overlaps := true;
      }
    }
    return false, overlaps;
  }
}
