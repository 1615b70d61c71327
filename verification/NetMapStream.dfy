/** The stream as a whole: one encoder feeding one decoder.

    Sending is transactional: an encoder is installed only after its frame was sent, so an offer whose
    send fails leaves both ends where they were. */
module NetMapStreams {
  import opened Collections
  import opened Wire
  import opened NetMaps
  import opened NetMapEncoders
  import opened NetMapDecoders

  /** What "send the whole map every time" would leave at the node: the map's own self, other metadata and grant, and
      its peers sorted by id, at sequence n, with no delta field set. */
  function Canonical(m: NetMap, n: Uint64): NetMap {
    NetMap(m.self, m.rest, SortPeers(m.peers), m.relayGrant, n, 0, false, [], false, false)
  }

  predicate SameSelf(a: NetMap, b: NetMap) {
    a.self.Peer? && b.self.Peer? && a.self.nodeId == b.self.nodeId && a.self.nodeKey == b.self.nodeKey
  }

  /** The hash of what deterministic marshalling makes of a peer is the same. */
  predicate SameHash(c: Codec, p: Peer, q: Peer) {
    var v, w := c.peerWire(p), c.peerWire(q);
    v.Some? && w.Some? && c.sum256(v.value) == c.sum256(w.value)
  }

  /** Likewise of a message that carries nothing but the map's self and other metadata. */
  predicate SameMetaHash(c: Codec, a: NetMap, b: NetMap) {
    var v := c.mapWire(NetMap(a.self, a.rest, [], [], 0, 0, false, [], false, false));
    var w := c.mapWire(NetMap(b.self, b.rest, [], [], 0, 0, false, [], false, false));
    v.Some? && w.Some? && c.sum256(v.value) == c.sum256(w.value)
  }

  /** Two contents of one peer never share a hash. */
  ghost predicate PeersTold(c: Codec, a: NetMap, b: NetMap) {
    forall p, q | p in a.peers && q in b.peers && Id(p) == Id(q) && SameHash(c, p, q) :: p == q
  }

  /** No two different contents a delta would have to tell apart share a digest. */
  ghost predicate NoCollision(c: Codec, a: NetMap, b: NetMap) {
    && PeersTold(c, a, b)
    && (SameMetaHash(c, a, b) ==> a.self == b.self && a.rest == b.rest)
  }

  /** The encoder's fingerprints and the decoder's baseline both stand for map m. */
  ghost predicate Linked(c: Codec, e: Encoder, b: Baseline, m: NetMap) {
    && ValidFull(c, m) && e.seqNo != 0
    && e == Encoder(e.seqNo, Fingerprints(c, m.peers), MetaDigest(c, m).value)
    && b == Baseline(Some(Canonical(m, e.seqNo)), e.seqNo)
  }

  // ------------------------------------------------------------ one step

  lemma {:induction false} ChangedMembers(c: Codec, e: Encoder, s: seq<Peer>, p: Peer)
    requires Hashable(c, s)
    ensures p in Changed(c, e, s) <==> p in s && Differs(c, e, p)
  {
    if s != [] {
      var n := |s| - 1;
      assert s[..n + 1] == s;
      Prefixes(c, e, s, n);
      ChangedMembers(c, e, s[..n], p);
      assert p in s <==> p in s[..n] || p == s[n];
    }
  }

  lemma {:induction false} ChangedDistinct(c: Codec, e: Encoder, s: seq<Peer>)
    requires Hashable(c, s) && DistinctIds(s)
    ensures DistinctIds(Changed(c, e, s))
  {
    if s != [] {
      var n := |s| - 1;
      assert s[..n + 1] == s;
      Prefixes(c, e, s, n);
      ChangedDistinct(c, e, s[..n]);
      var ch := Changed(c, e, s[..n]);
      forall i | 0 <= i < |ch| ensures Id(ch[i]) != Id(s[n]) {
        ChangedMembers(c, e, s[..n], ch[i]);
        var k :| 0 <= k < n && s[..n][k] == ch[i];
      }
    }
  }

  /** The hash last sent under the peer's id is the hash of the peer's wire form. */
  predicate LastSent(c: Codec, e: Encoder, p: Peer) {
    var w := c.peerWire(p);
    w.Some? && Id(p) in e.peers && e.peers[Id(p)] == c.sum256(w.value)
  }

  /** The delta's upserts: sorted, and exactly the peers whose digest is not the one last sent. */
  lemma UpsertsExact(c: Codec, e: Encoder, m: NetMap)
    requires ValidFull(c, m)
    ensures StrictIds(DeltaFrame(c, e, m).peers) && AllPositive(DeltaFrame(c, e, m).peers)
    ensures forall p :: p in DeltaFrame(c, e, m).peers <==> p in m.peers && !LastSent(c, e, p)
  {
    ChangedDistinct(c, e, m.peers);
    SortPeersStrict(Changed(c, e, m.peers));
    var ups := DeltaFrame(c, e, m).peers;
    forall p ensures p in ups <==> p in m.peers && !LastSent(c, e, p) {
      ChangedMembers(c, e, m.peers, p);
    }
    forall i | 0 <= i < |ups| ensures Id(ups[i]) > 0 {
      assert ups[i] in ups;
    }
  }

  lemma HasIdMember(s: seq<Peer>, id: int) returns (p: Peer)
    requires HasId(s, id)
    ensures p in s && Id(p) == id
  {
    var k :| 0 <= k < |s| && Id(s[k]) == id;
    p := s[k];
  }

  /** The delta's removals are exactly the ids the old map had and the new one lacks, and pass validation. */
  lemma RemovalsExact(c: Codec, e: Encoder, b: Baseline, last: NetMap, m: NetMap)
    requires Linked(c, e, b, last) && ValidFull(c, m)
    ensures RemovalsOk(CurrentPeers(b), DeltaFrame(c, e, m))
    ensures forall id :: id in DeltaFrame(c, e, m).removedPeerIds <==> HasId(last.peers, id) && !HasId(m.peers, id)
  {
    var f := DeltaFrame(c, e, m);
    var gone := f.removedPeerIds;
    GoneExact(e, Fingerprints(c, m.peers));
    forall id ensures id in gone <==> HasId(last.peers, id) && !HasId(m.peers, id) {
      FingerprintKeys(c, last.peers, id);
      FingerprintKeys(c, m.peers, id);
    }
    UpsertsExact(c, e, m);
    HasIdSorted(last.peers);
    forall i | 0 <= i < |gone| ensures gone[i] > 0 && HasId(CurrentPeers(b), gone[i]) && !HasId(f.peers, gone[i]) {
      assert gone[i] in gone;
      if HasId(f.peers, gone[i]) {
        var p := HasIdMember(f.peers, gone[i]);
      }
    }
  }

  /** What survives a delta: an old peer stays exactly when its id is still listed under its old digest. */
  lemma KeptExact(c: Codec, e: Encoder, b: Baseline, last: NetMap, m: NetMap, p: Peer)
    requires Linked(c, e, b, last) && ValidFull(c, m) && p in last.peers
    ensures var f := DeltaFrame(c, e, m);
            Id(p) !in f.removedPeerIds && !HasId(f.peers, Id(p)) <==>
            exists q :: q in m.peers && Id(q) == Id(p) && SameHash(c, p, q)
  {
    var f := DeltaFrame(c, e, m);
    UpsertsExact(c, e, m);
    RemovalsExact(c, e, b, last, m);
    FingerprintOf(c, last.peers, p);
    if Id(p) !in f.removedPeerIds && !HasId(f.peers, Id(p)) {
      var q := HasIdMember(m.peers, Id(p));
      assert LastSent(c, e, q) by { assert q !in f.peers; }
    }
    if q :| q in m.peers && Id(q) == Id(p) && SameHash(c, p, q) {
      assert LastSent(c, e, q);
      if HasId(f.peers, Id(p)) {
        var r := HasIdMember(f.peers, Id(p));
        SameIdSamePeer(m.peers, q, r);
      }
    }
  }

  /** A peer of the new map whose digest did not move is, for the old map, a peer of the same id and digest. */
  lemma Unmoved(c: Codec, e: Encoder, b: Baseline, last: NetMap, q: Peer) returns (p: Peer)
    requires Linked(c, e, b, last) && LastSent(c, e, q)
    ensures p in last.peers && Id(p) == Id(q) && SameHash(c, p, q)
  {
    FingerprintKeys(c, last.peers, Id(q));
    p := HasIdMember(last.peers, Id(q));
    FingerprintOf(c, last.peers, p);
  }

  lemma CanonicalPeers(b: Baseline, last: NetMap, n: Uint64)
    requires DistinctIds(last.peers) && b == Baseline(Some(Canonical(last, n)), n)
    ensures StrictIds(CurrentPeers(b))
    ensures forall p :: p in CurrentPeers(b) <==> p in last.peers
  {
    SortPeersStrict(last.peers);
  }

  /** The peers a delta leaves at the node are the new map's exactly when no digest stood for two contents. */
  lemma DeltaPeers(c: Codec, e: Encoder, b: Baseline, last: NetMap, m: NetMap)
    requires Linked(c, e, b, last) && ValidFull(c, m)
    ensures NextPeers(b, DeltaFrame(c, e, m)) == SortPeers(m.peers) <==> PeersTold(c, last, m)
  {
    var f := DeltaFrame(c, e, m);
    CanonicalPeers(b, last, e.seqNo);
    UpsertsExact(c, e, m);
    NextPeersExact(b, f);
    SortPeersStrict(m.peers);
    if NextPeers(b, f) == SortPeers(m.peers) {
      forall p, q | p in last.peers && q in m.peers && Id(p) == Id(q) && SameHash(c, p, q) ensures p == q {
        KeptExact(c, e, b, last, m, p);
        assert p in NextPeers(b, f);
        SameIdSamePeer(m.peers, p, q);
      }
    }
    if PeersTold(c, last, m) {
      forall p ensures p in NextPeers(b, f) <==> p in SortPeers(m.peers) {
        DeltaMember(c, e, b, last, m, p);
      }
      StrictSame(NextPeers(b, f), SortPeers(m.peers));
    }
  }

  lemma DeltaMember(c: Codec, e: Encoder, b: Baseline, last: NetMap, m: NetMap, p: Peer)
    requires Linked(c, e, b, last) && ValidFull(c, m)
    requires PeersTold(c, last, m)
    ensures p in NextPeers(b, DeltaFrame(c, e, m)) <==> p in m.peers
  {
    var f := DeltaFrame(c, e, m);
    CanonicalPeers(b, last, e.seqNo);
    UpsertsExact(c, e, m);
    NextPeersExact(b, f);
    if p in last.peers {
      KeptExact(c, e, b, last, m, p);
      OldKept(c, last, m, p);
    }
    if p in m.peers && LastSent(c, e, p) {
      var o := Unmoved(c, e, b, last, p);
      assert o == p;
    }
  }

  /** Where hashes tell contents apart, an old peer whose id is listed under its old hash is a peer of the new map. */
  lemma OldKept(c: Codec, last: NetMap, m: NetMap, p: Peer)
    requires PeersTold(c, last, m) && p in last.peers
    ensures (exists q :: q in m.peers && Id(q) == Id(p) && SameHash(c, p, q)) ==> p in m.peers
  {
  }

  /** A full frame of an acceptable map: accepted on its envelope and identity alone. */
  lemma FullAccepted(c: Codec, b: Baseline, m: NetMap, n: Uint64)
    requires ValidFull(c, m)
    ensures var f := FullFrame(m, n);
            && (Accepts(b, Some(f)) <==> FullEnvelope(b, f) && SameIdentity(b, f))
            && NextMap(b, f) == Canonical(m, n)
  {
    assert [] + m.peers == m.peers;
  }

  lemma DeltaAccepted(c: Codec, e: Encoder, b: Baseline, last: NetMap, m: NetMap)
    requires Linked(c, e, b, last) && ValidFull(c, m)
    ensures Accepts(b, Some(DeltaFrame(c, e, m))) <==>
            Succ(e.seqNo) != 0 && (SameMetaHash(c, last, m) || SameSelf(last, m))
  {
    var f := DeltaFrame(c, e, m);
    assert AllPositive(f.peers) && DistinctIds(f.peers) by { UpsertsExact(c, e, m); }
    assert RemovalsOk(CurrentPeers(b), f) by { RemovalsExact(c, e, b, last, m); }
    assert DeltaEnvelope(b, f) <==> Succ(e.seqNo) != 0;
  }

  lemma DeltaResult(c: Codec, e: Encoder, b: Baseline, last: NetMap, m: NetMap)
    requires Linked(c, e, b, last) && ValidFull(c, m)
    ensures NextMap(b, DeltaFrame(c, e, m)) == Canonical(m, Succ(e.seqNo)) <==> NoCollision(c, last, m)
  {
    var f := DeltaFrame(c, e, m);
    DeltaPeers(c, e, b, last, m);
    var got := NextMap(b, f);
    assert got == Canonical(m, Succ(e.seqNo)) <==>
           NextPeers(b, f) == SortPeers(m.peers) && got.self == m.self && got.rest == m.rest;
    assert f.metadataPresent <==> !SameMetaHash(c, last, m);
    if f.metadataPresent {
      assert got.self == m.self && got.rest == m.rest;
    } else {
      assert got.self == last.self && got.rest == last.rest;
    }
  }

  /** The step law. For any acceptable map offered on a live stream:
      the frame is accepted if and only if the sequence did not wrap and the node is the same, or looks the same to
      a delta because the metadata digest did not move; and an accepted frame leaves the node holding exactly the
      new map if and only if the frame was full or no digest stood for two contents. */
  lemma StepExact(c: Codec, e: Encoder, b: Baseline, last: NetMap, m: NetMap)
    requires Linked(c, e, b, last) && ValidFull(c, m)
    ensures var (f, _) := Encode(c, e, Some(m)).value;
            Accepts(b, Some(f)) <==>
            Succ(e.seqNo) != 0 && (SameSelf(last, m) || (f.delta && SameMetaHash(c, last, m)))
    ensures var (f, next) := Encode(c, e, Some(m)).value;
            Accepts(b, Some(f)) ==>
              (Receive(b, Some(f)) == Some(Baseline(Some(Canonical(m, next.seqNo)), next.seqNo)) <==>
               !f.delta || NoCollision(c, last, m))
  {
    if SendsDelta(c, e, m) {
      DeltaAccepted(c, e, b, last, m);
      DeltaResult(c, e, b, last, m);
    } else {
      FullAccepted(c, b, m, Succ(e.seqNo));
    }
  }

  /** The first frame of a stream is full and always accepted. */
  lemma FirstExact(c: Codec, m: NetMap)
    requires ValidFull(c, m)
    ensures var (f, next) := Encode(c, ZeroEncoder, Some(m)).value;
            Accepts(Fresh, Some(f)) && Linked(c, next, Receive(Fresh, Some(f)).value, m)
  {
    FullAccepted(c, Fresh, m, 1);
  }

  /** The encoder refuses a map, whatever it sent before, exactly if the map is missing or names no self, does not
      marshal, or lists a peer that is nil, has no positive id, repeats one or does not marshal. */
  lemma EncoderRefuses(c: Codec, e: Encoder, full: Option<NetMap>)
    ensures Encode(c, e, full).None? <==>
            || full.None?
            || full.value.self.NilPeer?
            || c.mapWire(NetMap(full.value.self, full.value.rest, [], [], 0, 0, false, [], false, false)).None?
            || (exists i | 0 <= i < |full.value.peers| ::
                  var p := full.value.peers[i]; p.NilPeer? || p.nodeId <= 0 || c.peerWire(p).None?)
            || (exists i, j | 0 <= i < j < |full.value.peers| :: Id(full.value.peers[i]) == Id(full.value.peers[j]))
  {
  }

  /** A frame of the stream that is lost, repeated or out of order is found out: the node accepts a frame the encoder
      made against another state only if that state had the node's own sequence number. */
  lemma OutOfOrderRefused(c: Codec, b: Baseline, e: Encoder, m: NetMap)
    requires Good(b) && b.current.Some? && ValidFull(c, m) && Succ(e.seqNo) != 0 && e.seqNo != b.seqNo
    ensures !Accepts(b, Some(Encode(c, e, Some(m)).value.0))
  {
  }

  // ------------------------------------------------------------ whole runs

  /** A map offered to the stream, and whether sending its frame succeeded. */
  datatype Offer = Offer(full: Option<NetMap>, sent: bool)

  datatype Stream = Stream(enc: Encoder, dec: Baseline, live: bool)

  ghost function Step(c: Codec, s: Stream, o: Offer): Stream {
    var r := Encode(c, s.enc, o.full);
    if !s.live || r.None? || !o.sent then s
    else
      var d := Receive(s.dec, Some(r.value.0));
      if d.None? then s.(live := false) else Stream(r.value.1, d.value, true)
  }

  ghost function Run(c: Codec, offers: seq<Offer>): Stream {
    if offers == [] then Stream(ZeroEncoder, Fresh, true)
    else Step(c, Run(c, offers[..|offers| - 1]), offers[|offers| - 1])
  }

  /** The maps that were acceptable and went out, in order. */
  ghost function Sent(c: Codec, offers: seq<Offer>): seq<NetMap> {
    if offers == [] then []
    else Sent(c, offers[..|offers| - 1]) + GoesOut(c, offers[|offers| - 1])
  }

  function GoesOut(c: Codec, o: Offer): seq<NetMap> {
    if o.sent && o.full.Some? && ValidFull(c, o.full.value) then [o.full.value] else []
  }

  /** One node, fewer than 2^64 maps, and no digest collision between a map and its successor. */
  ghost predicate Compatible(c: Codec, ms: seq<NetMap>) {
    && |ms| < TWO64
    && forall i | 0 < i < |ms| :: SameSelf(ms[i - 1], ms[i]) && NoCollision(c, ms[i - 1], ms[i])
  }

  /** The stream is up and both ends stand for the last of the maps sent; nothing has moved before the first. */
  ghost predicate InSync(c: Codec, s: Stream, ms: seq<NetMap>) {
    && s.live
    && (ms == [] ==> s.enc == ZeroEncoder && s.dec == Fresh)
    && (ms != [] ==> s.enc.seqNo == |ms| && Linked(c, s.enc, s.dec, ms[|ms| - 1]))
  }

  /** Whatever maps are offered, whichever are refused or fail to send, and whichever mix of full, delta and
      grant-only frames goes out: the stream stays up and the node holds exactly the last map sent. */
  lemma {:induction false} StreamExact(c: Codec, offers: seq<Offer>)
    requires Compatible(c, Sent(c, offers))
    ensures InSync(c, Run(c, offers), Sent(c, offers))
  {
    if offers != [] {
      var before := offers[..|offers| - 1];
      var o := offers[|offers| - 1];
      var ms := Sent(c, before);
      CompatiblePrefix(c, ms, GoesOut(c, o));
      StreamExact(c, before);
      OfferKeepsSync(c, Run(c, before), ms, o);
    }
  }

  lemma CompatiblePrefix(c: Codec, ms: seq<NetMap>, more: seq<NetMap>)
    requires Compatible(c, ms + more)
    ensures Compatible(c, ms)
  {
    assert forall i | 0 <= i < |ms| :: (ms + more)[i] == ms[i];
  }

  lemma CompatibleLast(c: Codec, ms: seq<NetMap>, m: NetMap)
    requires Compatible(c, ms + [m])
    ensures ms != [] ==> SameSelf(ms[|ms| - 1], m) && NoCollision(c, ms[|ms| - 1], m)
  {
    var all := ms + [m];
    assert all[|ms|] == m;
    assert ms != [] ==> all[|ms| - 1] == ms[|ms| - 1];
  }

  lemma OfferKeepsSync(c: Codec, s: Stream, ms: seq<NetMap>, o: Offer)
    requires InSync(c, s, ms) && Compatible(c, ms + GoesOut(c, o))
    ensures InSync(c, Step(c, s, o), ms + GoesOut(c, o))
  {
    if GoesOut(c, o) == [] {
      assert ms + [] == ms;
    } else {
      CompatibleLast(c, ms, o.full.value);
      OneMoreSent(c, s, ms, o.full.value);
    }
  }

  lemma OneMoreSent(c: Codec, s: Stream, ms: seq<NetMap>, m: NetMap)
    requires InSync(c, s, ms) && ValidFull(c, m) && |ms| + 1 < TWO64
    requires ms != [] ==> SameSelf(ms[|ms| - 1], m) && NoCollision(c, ms[|ms| - 1], m)
    ensures var s' := Step(c, s, Offer(Some(m), true));
            s'.live && s'.enc.seqNo == |ms| + 1 && Linked(c, s'.enc, s'.dec, m)
  {
    if ms == [] {
      FirstExact(c, m);
    } else {
      StepExact(c, s.enc, s.dec, ms[|ms| - 1], m);
    }
  }

  // ------------------------------------------------- arbitrary frame sequences

  /** The decoder fed any frames at all; a rejected frame leaves it as it was. */
  function Feed(frames: seq<Option<NetMap>>): Baseline {
    if frames == [] then Fresh
    else
      var b := Feed(frames[..|frames| - 1]);
      var r := Receive(b, frames[|frames| - 1]);
      if r.Some? then r.value else b
  }

  lemma {:induction false} FeedGood(frames: seq<Option<NetMap>>)
    ensures Good(Feed(frames))
  {
    if frames != [] {
      var b := Feed(frames[..|frames| - 1]);
      FeedGood(frames[..|frames| - 1]);
      if Accepts(b, frames[|frames| - 1]) {
        ReceiveKeepsGood(b, frames[|frames| - 1]);
      }
    }
  }

  /** However malformed the frames, a baseline once set keeps its node for ever, its sequence never goes back,
      and an accepted frame moves a sequenced stream on by exactly one. */
  lemma {:induction false} FeedKeeps(frames: seq<Option<NetMap>>, i: nat)
    requires i <= |frames|
    ensures var b, b' := Feed(frames[..i]), Feed(frames);
            && Good(b) && Good(b') && b.seqNo <= b'.seqNo <= b.seqNo + (|frames| - i)
            && (b.current.Some? ==> b'.current.Some? && SameSelf(b.current.value, b'.current.value))
    ensures i < |frames| && Accepts(Feed(frames[..i]), frames[i]) ==>
            var b, b' := Feed(frames[..i]), Feed(frames[..i + 1]);
            b'.seqNo == b.seqNo + 1 || (b.seqNo == 0 && b'.seqNo == 0 && !frames[i].value.delta)
    decreases |frames|
  {
    FeedGood(frames);
    FeedGood(frames[..i]);
    if i < |frames| {
      var before := frames[..|frames| - 1];
      assert before[..i] == frames[..i];
      FeedKeeps(before, i);
      FeedGood(before);
      assert frames[..i + 1][..i] == frames[..i];
      var b := Feed(before);
      if Accepts(b, frames[|frames| - 1]) && b.current.Some? {
        assert SameSelf(b.current.value, Feed(frames).current.value);
      }
    } else {
      assert frames[..i] == frames;
    }
  }
}
