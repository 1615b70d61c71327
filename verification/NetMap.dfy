/** The netmap message a coordinator streams to a node, and what both ends of the stream share.

    meshpb.NetMap is kept as the fields the stream logic reads: the metadata (self, plus every other
    non-peer field in wire form), the peers, the relay grant, and the six envelope fields. */
module NetMaps {
  import opened Collections
  import opened Wire

  type Uint64 = n: int | 0 <= n < 0x1_0000_0000_0000_0000

  /** e.seq + 1 on a uint64. */
  function Succ(n: Uint64): Uint64 { if n + 1 == TWO64 then 0 else n + 1 }

  /** A *meshpb.Peer; protobuf getters read a nil message as zero, so a nil peer has id 0. */
  datatype Peer = NilPeer | Peer(nodeId: int, nodeKey: string, body: seq<Byte>)

  function Id(p: Peer): int { if p.Peer? then p.nodeId else 0 }

  predicate IdLeq(p: Peer, q: Peer) { Id(p) <= Id(q) }

  datatype NetMap = NetMap(
    self: Peer, rest: seq<Byte>, peers: seq<Peer>, relayGrant: seq<Byte>,
    sequence: Uint64, baseSequence: Uint64, delta: bool, removedPeerIds: seq<int>,
    metadataPresent: bool, grantOnly: bool)

  const Blank := NetMap(NilPeer, [], [], [], 0, 0, false, [], false, false)

  /** mapMetadata: everything but fields 2, 6 and 20-25. */
  function Metadata(m: NetMap): NetMap { Blank.(self := m.self, rest := m.rest) }

  /** proto.Size(mapMetadata(m)) == 0: a message has size zero exactly when no field is set. */
  predicate NoMetadata(m: NetMap) { m.self.NilPeer? && m.rest == [] }

  predicate AllPositive(s: seq<Peer>) { forall i | 0 <= i < |s| :: Id(s[i]) > 0 }

  predicate DistinctIds(s: seq<Peer>) { forall i, j | 0 <= i < j < |s| :: Id(s[i]) != Id(s[j]) }

  predicate StrictIds(s: seq<Peer>) { forall i, j | 0 <= i < j < |s| :: Id(s[i]) < Id(s[j]) }

  predicate HasId(s: seq<Peer>, id: int) { exists i | 0 <= i < |s| :: Id(s[i]) == id }

  predicate Increasing(ids: seq<int>) { forall i, j | 0 <= i < j < |ids| :: ids[i] < ids[j] }

  predicate Distinct(ids: seq<int>) { forall i, j | 0 <= i < j < |ids| :: ids[i] != ids[j] }

  function SortPeers(s: seq<Peer>): seq<Peer> { SortBy(s, IdLeq) }

  function SortIds(s: seq<int>): seq<int> { SortBy(s, IntLeq) }

  // ------------------------------------------------------------ id-sorted lists

  /** A list with strictly ascending ids is determined by its members. */
  lemma {:induction false} StrictSame(a: seq<Peer>, b: seq<Peer>)
    requires StrictIds(a) && StrictIds(b)
    requires forall p :: p in a <==> p in b
    ensures a == b
  {
    if a == [] {
      NonEmptyHas(b);
    } else {
      assert a[0] in b && b != [];
      assert b[0] in a;
      assert a[0] == b[0];
      forall p ensures p in a[1..] <==> p in b[1..] {
        assert p in a <==> p == a[0] || p in a[1..];
        assert p in b <==> p == b[0] || p in b[1..];
        assert a[0] !in a[1..] && b[0] !in b[1..];
      }
      StrictSame(a[1..], b[1..]);
    }
  }

  lemma {:induction false} IncreasingSame(a: seq<int>, b: seq<int>)
    requires Increasing(a) && Increasing(b)
    requires forall x :: x in a <==> x in b
    ensures a == b
  {
    if a == [] {
      NonEmptyHas(b);
    } else {
      assert a[0] in b && b != [];
      assert b[0] in a;
      assert a[0] == b[0];
      forall x ensures x in a[1..] <==> x in b[1..] {
        assert x in a <==> x == a[0] || x in a[1..];
        assert x in b <==> x == b[0] || x in b[1..];
      }
      IncreasingSame(a[1..], b[1..]);
    }
  }

  /** Two members with one id are one peer. */
  lemma SameIdSamePeer(s: seq<Peer>, p: Peer, q: Peer)
    requires DistinctIds(s) && p in s && q in s && Id(p) == Id(q)
    ensures p == q
  {
  }

  lemma CountAtMostOnce<T>(s: seq<T>, i: int, j: int)
    requires 0 <= i < j < |s| && s[i] == s[j]
    ensures multiset(s)[s[i]] >= 2
  {
    assert s == s[..i] + [s[i]] + s[i + 1..j] + [s[j]] + s[j + 1..];
  }

  lemma {:induction false} DistinctCount<T>(s: seq<T>, x: T)
    requires forall i, j | 0 <= i < j < |s| :: s[i] != s[j]
    ensures multiset(s)[x] <= 1
  {
    if s != [] {
      assert s == [s[0]] + s[1..];
      DistinctCount(s[1..], x);
      if x == s[0] {
        assert x !in s[1..];
      }
    }
  }

  /** Sorting a list of distinct ids gives strictly ascending ids over the same members. */
  lemma SortPeersStrict(s: seq<Peer>)
    requires DistinctIds(s)
    ensures StrictIds(SortPeers(s))
    ensures |SortPeers(s)| == |s|
    ensures forall p :: p in SortPeers(s) <==> p in s
  {
    SortSorts(s, IdLeq);
    SortSame(s, IdLeq);
    var r := SortPeers(s);
    forall i, j | 0 <= i < j < |r| ensures Id(r[i]) < Id(r[j]) {
      assert IdLeq(r[i], r[j]);
      if Id(r[i]) == Id(r[j]) {
        assert r[i] in s && r[j] in s;
        SameIdSamePeer(s, r[i], r[j]);
        CountAtMostOnce(r, i, j);
        DistinctCount(s, r[i]);
      }
    }
  }

  lemma SortIdsIncreasing(s: seq<int>)
    requires Distinct(s)
    ensures Increasing(SortIds(s))
    ensures |SortIds(s)| == |s|
    ensures forall x :: x in SortIds(s) <==> x in s
  {
    SortSorts(s, IntLeq);
    SortSame(s, IntLeq);
    var r := SortIds(s);
    forall i, j | 0 <= i < j < |r| ensures r[i] < r[j] {
      assert IntLeq(r[i], r[j]);
      if r[i] == r[j] {
        CountAtMostOnce(r, i, j);
        DistinctCount(s, r[i]);
      }
    }
  }
}
