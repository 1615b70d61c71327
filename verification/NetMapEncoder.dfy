/** The coordinator's end of the stream: NetMapEncoder.NextWithPeerCache and the fingerprint cache.

    Protobuf marshalling, SHA-256 and proto.Size are parameters, collected in Codec; nothing is
    assumed of them here. */
module NetMapEncoders {
  import opened Collections
  import opened Wire
  import opened NetMaps

  type Digest = d: seq<Byte> | |d| == 32 witness ZERO32

  const ZERO32: seq<Byte> :=
    [0, 0, 0, 0, 0, 0, 0, 0, 0, 0, 0, 0, 0, 0, 0, 0,
     0, 0, 0, 0, 0, 0, 0, 0, 0, 0, 0, 0, 0, 0, 0, 0]

  /** Deterministic marshalling (None is a marshalling error), the hash, and the encoded size. */
  datatype Codec = Codec(
    peerWire: Peer -> Option<seq<Byte>>,
    mapWire: NetMap -> Option<seq<Byte>>,
    sum256: seq<Byte> -> Digest,
    size: NetMap -> nat)

  datatype Encoder = Encoder(seqNo: Uint64, peers: map<int, Digest>, metadata: Digest)

  const ZeroEncoder := Encoder(0, map[], ZERO32)

  /** mapDigest of a peer and of a map's metadata. */
  function PeerDigest(c: Codec, p: Peer): Option<Digest> {
    var w := c.peerWire(p);
    if w.Some? then Some(c.sum256(w.value)) else None
  }

  function MetaDigest(c: Codec, m: NetMap): Option<Digest> {
    var w := c.mapWire(Metadata(m));
    if w.Some? then Some(c.sum256(w.value)) else None
  }

  /** The maps the encoder accepts. */
  predicate ValidFull(c: Codec, m: NetMap) {
    && m.self.Peer? && MetaDigest(c, m).Some?
    && AllPositive(m.peers) && DistinctIds(m.peers) && Hashable(c, m.peers)
  }

  predicate Hashable(c: Codec, s: seq<Peer>) { forall i | 0 <= i < |s| :: PeerDigest(c, s[i]).Some? }

  /** The digests the encoder keeps, by node id. */
  function Fingerprints(c: Codec, s: seq<Peer>): map<int, Digest>
    requires Hashable(c, s)
  {
    if s == [] then map[]
    else
      var n := |s| - 1;
      Fingerprints(c, s[..n])[Id(s[n]) := PeerDigest(c, s[n]).value]
  }

  predicate Differs(c: Codec, e: Encoder, p: Peer)
    requires PeerDigest(c, p).Some?
  {
    Id(p) !in e.peers || e.peers[Id(p)] != PeerDigest(c, p).value
  }

  function Changed(c: Codec, e: Encoder, s: seq<Peer>): seq<Peer>
    requires Hashable(c, s)
  {
    if s == [] then []
    else
      var n := |s| - 1;
      Changed(c, e, s[..n]) + if Differs(c, e, s[n]) then [s[n]] else []
  }

  ghost function Gone(e: Encoder, next: map<int, Digest>): seq<int> {
    SortIds(Enumerate(e.peers.Keys - next.Keys))
  }

  function FullFrame(m: NetMap, n: Uint64): NetMap {
    Metadata(m).(peers := m.peers, relayGrant := m.relayGrant, sequence := n)
  }

  /** A delta over given upserts and removals; metadata travels only when its digest moved. */
  function DeltaOf(e: Encoder, m: NetMap, present: bool, changed: seq<Peer>, gone: seq<int>): NetMap {
    var meta := if present then Metadata(m) else Blank;
    NetMap(meta.self, meta.rest, changed, m.relayGrant, Succ(e.seqNo), e.seqNo, true, gone, present,
           !present && changed == [] && gone == [])
  }

  ghost function DeltaFrame(c: Codec, e: Encoder, m: NetMap): NetMap
    requires ValidFull(c, m)
  {
    DeltaOf(e, m, e.metadata != MetaDigest(c, m).value,
            SortPeers(Changed(c, e, m.peers)), Gone(e, Fingerprints(c, m.peers)))
  }

  function Advance(c: Codec, e: Encoder, m: NetMap): Encoder
    requires ValidFull(c, m)
  {
    Encoder(Succ(e.seqNo), Fingerprints(c, m.peers), MetaDigest(c, m).value)
  }

  /** Length of a protobuf varint: one byte for every started group of seven bits. */
  function VarintLen(n: nat): nat { if n < 128 then 1 else 1 + VarintLen(n / 128) }

  /** A delta goes out only against an acknowledged baseline and only when it is the smaller frame. */
  ghost predicate SendsDelta(c: Codec, e: Encoder, m: NetMap)
    requires ValidFull(c, m)
  {
    e.seqNo != 0 && c.size(DeltaFrame(c, e, m)) < c.size(m) + 2 + VarintLen(Succ(e.seqNo))
  }

  /** What the encoder emits for a map and keeps for the next one; None is a refusal. */
  ghost function Encode(c: Codec, e: Encoder, full: Option<NetMap>): Option<(NetMap, Encoder)> {
    if full.None? || !ValidFull(c, full.value) then None
    else
      var m := full.value;
      Some((if SendsDelta(c, e, m) then DeltaFrame(c, e, m) else FullFrame(m, Succ(e.seqNo)), Advance(c, e, m)))
  }

  // ------------------------------------------------------------------ size

  function Pow128(k: nat): nat { if k == 0 then 1 else 128 * Pow128(k - 1) }

  /** VarintLen is the least number of seven-bit groups that holds n. */
  lemma {:induction false} VarintLenExact(n: nat)
    ensures VarintLen(n) >= 1 && n < Pow128(VarintLen(n))
    ensures n > 0 ==> Pow128(VarintLen(n) - 1) <= n
  {
    if n >= 128 {
      VarintLenExact(n / 128);
    } else {
      assert Pow128(1) == 128 * Pow128(0);
    }
  }

  method VarintSize(n: Uint64) returns (size: nat)
    ensures size == VarintLen(n)
  {
    size := 1;
    var v: nat := n;
    while v >= 128
      invariant size + VarintLen(v) - 1 == VarintLen(n)
    {
      v := v / 128;
      size := size + 1;
    }
  }

  /** Protobuf sizes as the fallback test relies on: setting a nonzero sequence on a message without one
      adds its two-byte tag and its varint. */
  ghost predicate SequenceCosts(c: Codec) {
    forall m: NetMap, n: Uint64 {:trigger c.size(m.(sequence := n))} ::
      m.sequence == 0 && n != 0 ==> c.size(m.(sequence := n)) == c.size(m) + 2 + VarintLen(n)
  }

  /** For a map without an envelope the frame sent is never the larger of the two candidates. */
  lemma SmallestFrame(c: Codec, e: Encoder, m: NetMap)
    requires SequenceCosts(c) && ValidFull(c, m) && Succ(e.seqNo) != 0 && e.seqNo != 0
    requires m == FullFrame(m, 0)
    ensures c.size(Encode(c, e, Some(m)).value.0) <= c.size(FullFrame(m, Succ(e.seqNo)))
    ensures c.size(Encode(c, e, Some(m)).value.0) <= c.size(DeltaFrame(c, e, m))
  {
    assert FullFrame(m, Succ(e.seqNo)) == m.(sequence := Succ(e.seqNo));
  }

  // ----------------------------------------------------------- the cache

  const MAX_ENTRIES := 4096
  const MAX_BYTES := 0x80_0000

  datatype Fingerprint = Fingerprint(wire: seq<Byte>, hash: Digest)

  ghost function WireSizes(peers: map<int, Fingerprint>): map<int, int> {
    map id | id in peers :: |peers[id].wire|
  }

  /** At most 4096 entries and 8 MiB of wire forms, each with its own hash. */
  ghost predicate CacheOk(peers: map<int, Fingerprint>, bytes: int, sum256: seq<Byte> -> Digest) {
    && |peers| <= 4096
    && bytes == Total(WireSizes(peers)) && bytes <= 8 * 1024 * 1024
    && forall id | id in peers :: peers[id].hash == sum256(peers[id].wire)
  }

  lemma SizesUpdate(peers: map<int, Fingerprint>, id: int, f: Fingerprint)
    ensures Total(WireSizes(peers[id := f]))
         == Total(WireSizes(peers)) - (if id in peers then |peers[id].wire| else 0) + |f.wire|
  {
    assert WireSizes(peers[id := f]) == WireSizes(peers)[id := |f.wire|];
    TotalUpdate(WireSizes(peers), id, |f.wire|);
  }

  lemma StoreKeeps(peers: map<int, Fingerprint>, bytes: int, sum256: seq<Byte> -> Digest, id: int, b: seq<Byte>)
    requires CacheOk(peers, bytes, sum256)
    requires var had := if id in peers then |peers[id].wire| else 0;
             (|peers| < 4096 || had > 0) && bytes - had + |b| <= 8 * 1024 * 1024
    ensures var had := if id in peers then |peers[id].wire| else 0;
            CacheOk(peers[id := Fingerprint(b, sum256(b))], bytes - had + |b|, sum256)
  {
    SizesUpdate(peers, id, Fingerprint(b, sum256(b)));
    assert peers[id := Fingerprint(b, sum256(b))].Keys == peers.Keys + {id};
  }

  /** What is remembered after a peer was asked for: its wire form and hash, unless it did not marshal or there is no
      room; an id already held under a non-empty form needs no new entry. */
  function Remembered(peers: map<int, Fingerprint>, bytes: int, id: int, wire: Option<seq<Byte>>,
                      sum256: seq<Byte> -> Digest): map<int, Fingerprint>
  {
    var had := if id in peers then |peers[id].wire| else 0;
    if wire.None? || !(|peers| < 4096 || had > 0) || bytes - had + |wire.value| > 8 * 1024 * 1024 then peers
    else peers[id := Fingerprint(wire.value, sum256(wire.value))]
  }

  class PeerFingerprintCache {
    const codec: Codec
    var peers: map<int, Fingerprint>
    var bytes: int

    ghost predicate Valid()
      reads this
    {
      CacheOk(peers, bytes, codec.sum256)
    }

    constructor (codec: Codec)
      ensures Valid() && this.codec == codec && peers == map[]
    {
      this.codec, peers, bytes := codec, map[], 0;
    }

    /** Whatever was cached before, under this id or any other, the answer is the digest of this peer. */
    method Digest(p: Peer) returns (r: Option<Digest>)
      requires Valid()
      modifies this
      ensures Valid()
      ensures r == PeerDigest(codec, p)
      ensures peers == Remembered(old(peers), old(bytes), Id(p), codec.peerWire(p), codec.sum256)
    {
      var id := Id(p);
      var wire := codec.peerWire(p);
      if wire.None? {
        return None;
      }
      var b := wire.value;
      if id in peers && peers[id].wire == b {
        assert peers[id := Fingerprint(b, codec.sum256(b))] == peers;
        return Some(peers[id].hash);
      }
      var h := codec.sum256(b);
      var oldSize := if id in peers then |peers[id].wire| else 0;
      if (|peers| < MAX_ENTRIES || oldSize != 0) && bytes - oldSize + |b| <= MAX_BYTES {
        StoreKeeps(peers, bytes, codec.sum256, id, b);
        peers := peers[id := Fingerprint(b, h)];
        bytes := bytes + |b| - oldSize;
      }
      return Some(h);
    }
  }

  // --------------------------------------------------------- the encoder

  lemma Prefixes(c: Codec, e: Encoder, s: seq<Peer>, i: nat)
    requires i < |s| && Hashable(c, s[..i + 1])
    ensures Hashable(c, s[..i]) && PeerDigest(c, s[i]).Some?
    ensures Changed(c, e, s[..i + 1]) == Changed(c, e, s[..i]) + if Differs(c, e, s[i]) then [s[i]] else []
    ensures Fingerprints(c, s[..i + 1]) == Fingerprints(c, s[..i])[Id(s[i]) := PeerDigest(c, s[i]).value]
  {
    assert s[..i + 1][..i] == s[..i];
    assert s[..i + 1][i] == s[i];
    assert forall p | p in s[..i] :: p in s[..i + 1];
  }

  lemma {:induction false} FingerprintKeys(c: Codec, s: seq<Peer>, id: int)
    requires Hashable(c, s)
    ensures id in Fingerprints(c, s) <==> HasId(s, id)
  {
    if s != [] {
      var n := |s| - 1;
      assert s[..n + 1] == s;
      Prefixes(c, ZeroEncoder, s, n);
      FingerprintKeys(c, s[..n], id);
      assert forall k | 0 <= k < n :: s[..n][k] == s[k];
    }
  }

  lemma {:induction false} FingerprintOf(c: Codec, s: seq<Peer>, p: Peer)
    requires DistinctIds(s) && Hashable(c, s) && p in s
    ensures Id(p) in Fingerprints(c, s) && Fingerprints(c, s)[Id(p)] == PeerDigest(c, p).value
  {
    var n := |s| - 1;
    assert s[..n + 1] == s;
    Prefixes(c, ZeroEncoder, s, n);
    if p != s[n] {
      assert p in s[..n];
      FingerprintOf(c, s[..n], p);
    }
  }

  lemma GoneExact(e: Encoder, next: map<int, Digest>)
    ensures Increasing(Gone(e, next))
    ensures forall id :: id in Gone(e, next) <==> id in e.peers && id !in next
  {
    var listed := Enumerate(e.peers.Keys - next.Keys);
    forall i, j | 0 <= i < j < |listed| ensures listed[i] != listed[j] {
      if listed[i] == listed[j] {
        CountAtMostOnce(listed, i, j);
      }
    }
    SortIdsIncreasing(listed);
  }

  /** The ids of the last map that the new one lacks, collected in whatever order the map yields them. */
  method CollectGone(e: Encoder, next: map<int, Digest>) returns (gone: seq<int>)
    ensures gone == Gone(e, next)
  {
    var removed := KeysWithout(e.peers.Keys, next.Keys);
    gone := SortIds(removed);
    SortIdsIncreasing(removed);
    GoneExact(e, next);
    IncreasingSame(gone, Gone(e, next));
  }

  method KeysWithout(had: set<int>, has: set<int>) returns (removed: seq<int>)
    ensures Distinct(removed)
    ensures forall id :: id in removed <==> id in had && id !in has
  {
    var todo := had;
    removed := [];
    while todo != {}
      invariant todo <= had
      invariant Distinct(removed)
      invariant forall id :: id in removed <==> id in had && id !in has && id !in todo
      decreases todo
    {
      var id := Pick(todo);
      todo := todo - {id};
      if id !in has {
        removed := removed + [id];
      }
    }
  }

  /** The digests of a map's peers and those that changed; None when the map is not acceptable. */
  method FingerprintPeers(c: Codec, e: Encoder, s: seq<Peer>, cache: PeerFingerprintCache?)
    returns (r: Option<(map<int, Digest>, seq<Peer>)>)
    requires cache != null ==> cache.Valid() && cache.codec == c
    modifies cache
    ensures cache != null ==> cache.Valid()
    ensures r.Some? <==> AllPositive(s) && DistinctIds(s) && Hashable(c, s)
    ensures r.Some? ==> r.value == (Fingerprints(c, s), Changed(c, e, s))
  {
    var peers: map<int, Digest> := map[];
    var changed: seq<Peer> := [];
    for i := 0 to |s|
      invariant cache != null ==> cache.Valid() && cache.codec == c
      invariant AllPositive(s[..i]) && DistinctIds(s[..i]) && Hashable(c, s[..i])
      invariant peers == Fingerprints(c, s[..i])
      invariant changed == Changed(c, e, s[..i])
    {
      var p := s[i];
      if Id(p) <= 0 {
        return None;
      }
      if Id(p) in peers {
        RepeatedId(c, s, i);
        return None;
      }
      var h;
      if cache == null {
        h := PeerDigest(c, p);
      } else {
        h := cache.Digest(p);
      }
      if h.None? {
        assert p in s;
        return None;
      }
      FreshId(c, s, i);
      Prefixes(c, e, s, i);
      peers := peers[Id(p) := h.value];
      if Id(p) !in e.peers || e.peers[Id(p)] != h.value {
        changed := changed + [p];
      }
    }
    assert s[..|s|] == s;
    return Some((peers, changed));
  }

  method BuildDelta(e: Encoder, m: NetMap, metadata: Digest, changed: seq<Peer>, gone: seq<int>) returns (delta: NetMap)
    ensures delta == DeltaOf(e, m, e.metadata != metadata, changed, gone)
  {
    delta := Blank;
    if e.metadata != metadata {
      delta := Metadata(m).(metadataPresent := true);
    }
    delta := delta.(sequence := Succ(e.seqNo), baseSequence := e.seqNo, delta := true);
    delta := delta.(peers := changed, removedPeerIds := gone, relayGrant := m.relayGrant);
    delta := delta.(grantOnly := !delta.metadataPresent && |changed| == 0 && |gone| == 0);
  }

  /** Encoding with a cache, whatever it holds, is encoding without one. */
  method NextWithPeerCache(c: Codec, e: Encoder, full: Option<NetMap>, cache: PeerFingerprintCache?)
    returns (r: Option<(NetMap, Encoder)>)
    requires cache != null ==> cache.Valid() && cache.codec == c
    modifies cache
    ensures cache != null ==> cache.Valid()
    ensures r == Encode(c, e, full)
  {
    if full.None? || full.value.self.NilPeer? {
      return None;
    }
    var m := full.value;
    var meta := Metadata(m);
    var metaWire := c.mapWire(meta);
    if metaWire.None? {
      return None;
    }
    var metadata := c.sum256(metaWire.value);
    var prints := FingerprintPeers(c, e, m.peers, cache);
    if prints.None? {
      return None;
    }
    var (peers, changed) := prints.value;
    var gone := CollectGone(e, peers);
    changed := SortPeers(changed);
    var next := Encoder(Succ(e.seqNo), peers, metadata);
    if e.seqNo == 0 {
      return Some((meta.(peers := m.peers, relayGrant := m.relayGrant, sequence := next.seqNo), next));
    }
    var delta := BuildDelta(e, m, metadata, changed, gone);
    assert delta == DeltaFrame(c, e, m);
    var seqSize := VarintSize(next.seqNo);
    if c.size(delta) < c.size(m) + 2 + seqSize {
      return Some((delta, next));
    }
    return Some((Metadata(m).(peers := m.peers, relayGrant := m.relayGrant, sequence := next.seqNo), next));
  }

  lemma RepeatedId(c: Codec, s: seq<Peer>, i: nat)
    requires i < |s| && Hashable(c, s[..i])
    requires Id(s[i]) in Fingerprints(c, s[..i])
    ensures !DistinctIds(s)
  {
    FingerprintKeys(c, s[..i], Id(s[i]));
    var k :| 0 <= k < i && Id(s[..i][k]) == Id(s[i]);
  }

  lemma FreshId(c: Codec, s: seq<Peer>, i: nat)
    requires i < |s| && DistinctIds(s[..i]) && Hashable(c, s[..i])
    requires Id(s[i]) !in Fingerprints(c, s[..i]) && PeerDigest(c, s[i]).Some?
    ensures DistinctIds(s[..i + 1]) && Hashable(c, s[..i + 1])
  {
    FingerprintKeys(c, s[..i], Id(s[i]));
    assert s[..i + 1] == s[..i] + [s[i]];
    assert forall k | 0 <= k < i :: s[..i][k] == s[k];
    assert forall p | p in s[..i + 1] :: p in s[..i] || p == s[i];
  }
}
