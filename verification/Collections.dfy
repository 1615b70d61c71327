/** Library-level notions the models share: optional values, sorting as Go's sort.Slice does it,
    an order-free enumeration of a set, and sums over finite maps. */
module Collections {

  datatype Option<+T> = None | Some(value: T)

  // ---------------------------------------------------------------- sorting

  ghost predicate TotalPreorder<T(!new)>(leq: (T, T) -> bool) {
    && (forall x, y :: leq(x, y) || leq(y, x))
    && (forall x, y, z :: leq(x, y) && leq(y, z) ==> leq(x, z))
  }

  predicate SortedBy<T>(s: seq<T>, leq: (T, T) -> bool) {
    forall i, j | 0 <= i < j < |s| :: leq(s[i], s[j])
  }

  function Insert<T>(x: T, s: seq<T>, leq: (T, T) -> bool): seq<T> {
    if s == [] || leq(x, s[0]) then [x] + s else [s[0]] + Insert(x, s[1..], leq)
  }

  /** sort.Slice. The algorithm is immaterial: see SortUnique. */
  function SortBy<T>(s: seq<T>, leq: (T, T) -> bool): seq<T> {
    if s == [] then [] else Insert(s[0], SortBy(s[1..], leq), leq)
  }

  lemma {:induction false} InsertSorts<T(!new)>(x: T, s: seq<T>, leq: (T, T) -> bool)
    requires TotalPreorder(leq) && SortedBy(s, leq)
    ensures SortedBy(Insert(x, s, leq), leq)
    ensures multiset(Insert(x, s, leq)) == multiset(s) + multiset{x}
  {
    if s == [] {
    } else if leq(x, s[0]) {
      assert forall i | 0 <= i < |s| :: leq(x, s[i]);
    } else {
      InsertSorts(x, s[1..], leq);
      var r := Insert(x, s[1..], leq);
      assert s == [s[0]] + s[1..];
      forall i | 0 <= i < |r| ensures leq(s[0], r[i]) {
        assert r[i] in multiset(r);
        assert r[i] == x || r[i] in s[1..];
      }
    }
  }

  lemma {:induction false} SortSorts<T(!new)>(s: seq<T>, leq: (T, T) -> bool)
    requires TotalPreorder(leq)
    ensures SortedBy(SortBy(s, leq), leq)
    ensures multiset(SortBy(s, leq)) == multiset(s)
  {
    if s != [] {
      SortSorts(s[1..], leq);
      InsertSorts(s[0], SortBy(s[1..], leq), leq);
      assert s == [s[0]] + s[1..];
    }
  }

  lemma SameElements<T(!new)>(a: seq<T>, b: seq<T>)
    requires multiset(a) == multiset(b)
    ensures |a| == |b|
    ensures forall x :: x in a <==> x in b
  {
    assert |a| == |multiset(a)| == |multiset(b)| == |b|;
    forall x ensures x in a <==> x in b {
      assert x in a <==> x in multiset(a);
      assert x in b <==> x in multiset(b);
    }
  }

  lemma SortSame<T(!new)>(s: seq<T>, leq: (T, T) -> bool)
    requires TotalPreorder(leq)
    ensures |SortBy(s, leq)| == |s|
    ensures forall x :: x in SortBy(s, leq) <==> x in s
  {
    SortSorts(s, leq);
    SameElements(SortBy(s, leq), s);
  }

  lemma SortedHead<T(!new)>(a: seq<T>, b: seq<T>, leq: (T, T) -> bool)
    requires SortedBy(a, leq) && SortedBy(b, leq)
    requires a != [] && b != [] && a[0] in b && b[0] in a
    requires leq(a[0], b[0]) && leq(b[0], a[0]) ==> a[0] == b[0]
    ensures a[0] == b[0]
  {
    var i :| 0 <= i < |a| && a[i] == b[0];
    var j :| 0 <= j < |b| && b[j] == a[0];
    if i != 0 && j != 0 {
      assert leq(a[0], a[i]) && leq(b[0], b[j]);
    }
  }

  /** Two sorted arrangements of the same elements are equal when elements that tie are equal. */
  lemma {:induction false} SortUnique<T(!new)>(a: seq<T>, b: seq<T>, leq: (T, T) -> bool)
    requires SortedBy(a, leq) && SortedBy(b, leq)
    requires multiset(a) == multiset(b)
    requires forall x, y | x in a && y in a && leq(x, y) && leq(y, x) :: x == y
    ensures a == b
  {
    SameElements(a, b);
    if a != [] {
      SortedHead(a, b, leq);
      TailMultiset(a);
      TailMultiset(b);
      SortUnique(a[1..], b[1..], leq);
    }
  }

  lemma TailMultiset<T>(a: seq<T>)
    requires a != []
    ensures multiset(a[1..]) == multiset(a) - multiset{a[0]}
  {
    assert a == [a[0]] + a[1..];
  }

  lemma NonEmptyHas<T>(s: seq<T>)
    ensures s != [] ==> exists x :: x in s
  {
    if s != [] {
      assert s[0] in s;
    }
  }

  predicate IntLeq(x: int, y: int) { x <= y }

  // ------------------------------------------------------- enumerating a set

  /** Some order in which a Go map's keys may be visited. */
  ghost function Enumerate<T(!new)>(s: set<T>): (r: seq<T>)
    ensures multiset(r) == multiset(s)
    ensures forall x :: x in r <==> x in s
  {
    if s == {} then [] else
      var x :| x in s;
      var r := [x] + Enumerate(s - {x});
      assert multiset(s) == multiset(s - {x}) + multiset{x};
      assert forall y :: y in r <==> y in multiset(r);
      r
  }

  /** The next key a Go range over a map yields: any one of those left. */
  method Pick<T>(s: set<T>) returns (x: T)
    requires s != {}
    ensures x in s
  {
    x :| x in s;
  }

  // ------------------------------------------------------- sums over a map

  ghost function Total<K(!new)>(m: map<K, int>): int {
    if m == map[] then 0 else
      var k :| k in m;
      m[k] + Total(m - {k})
  }

  lemma {:induction false} TotalRemove<K(!new)>(m: map<K, int>, k: K)
    requires k in m
    ensures Total(m) == m[k] + Total(m - {k})
    decreases |m|
  {
    var j :| j in m && Total(m) == m[j] + Total(m - {j});
    if j != k {
      assert |m - {j}| < |m| && |m - {k}| < |m| by {
        assert (m - {j}).Keys == m.Keys - {j} && (m - {k}).Keys == m.Keys - {k};
      }
      TotalRemove(m - {j}, k);
      TotalRemove(m - {k}, j);
      assert (m - {j}) - {k} == (m - {k}) - {j};
    }
  }

  lemma TotalUpdate<K(!new)>(m: map<K, int>, k: K, v: int)
    ensures Total(m[k := v]) == Total(m) - (if k in m then m[k] else 0) + v
  {
    TotalRemove(m[k := v], k);
    assert m[k := v] - {k} == m - {k};
    if k in m {
      TotalRemove(m, k);
    } else {
      assert m - {k} == m;
    }
  }

  /** Summing two maps over the same keys pointwise sums their totals. */
  lemma {:induction false} TotalAdd<K(!new)>(a: map<K, int>, b: map<K, int>, c: map<K, int>)
    requires a.Keys == b.Keys == c.Keys && forall k | k in c :: c[k] == a[k] + b[k]
    ensures Total(c) == Total(a) + Total(b)
    decreases |c|
  {
    if c != map[] {
      var k :| k in c;
      TotalRemove(a, k);
      TotalRemove(b, k);
      TotalRemove(c, k);
      assert (c - {k}).Keys == c.Keys - {k} && |c - {k}| < |c|;
      assert (a - {k}).Keys == (b - {k}).Keys == (c - {k}).Keys;
      TotalAdd(a - {k}, b - {k}, c - {k});
    } else {
      assert a == map[] && b == map[];
    }
  }

  ghost function Within<K(!new)>(m: map<K, int>, keys: set<K>): map<K, int> { map k | k in m && k in keys :: m[k] }

  ghost function Without<K(!new)>(m: map<K, int>, keys: set<K>): map<K, int> { map k | k in m && k !in keys :: m[k] }

  /** A total splits along any set of keys. */
  lemma {:induction false} TotalSplit<K(!new)>(m: map<K, int>, keys: set<K>)
    ensures Total(m) == Total(Within(m, keys)) + Total(Without(m, keys))
    decreases |m|
  {
    var yes, no := Within(m, keys), Without(m, keys);
    if m != map[] {
      var k :| k in m;
      var r := m - {k};
      assert r.Keys == m.Keys - {k} && |r| < |m|;
      TotalRemove(m, k);
      TotalSplit(r, keys);
      var yes', no' := Within(r, keys), Without(r, keys);
      if k in keys {
        TotalRemove(yes, k);
        assert yes - {k} == yes' && no == no';
      } else {
        TotalRemove(no, k);
        assert no - {k} == no' && yes == yes';
      }
    } else {
      assert yes == map[] && no == map[];
    }
  }
}
