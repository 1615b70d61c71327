/** The node's end of the stream: NetMapDecoder.Apply.

    The specification is plain: which frames are acceptable, and the map update an accepted frame
    means. The class keeps the source's form: sorted copies, binary searches and a merge with three
    moving indices. */
module NetMapDecoders {
  import opened Collections
  import opened Wire
  import opened NetMaps

  /** What the decoder retains between frames. */
  datatype Baseline = Baseline(current: Option<NetMap>, seqNo: Uint64)

  const Fresh := Baseline(None, 0)

  /** The envelope of an acceptable full frame. */
  predicate FullEnvelope(b: Baseline, f: NetMap) {
    && f.baseSequence == 0 && !f.grantOnly && !f.metadataPresent && f.removedPeerIds == [] && f.self.Peer?
    && (b.current.Some? && f.sequence == 0 ==> b.seqNo == 0)
    && (b.current.Some? && f.sequence != 0 ==> f.sequence == Succ(b.seqNo))
    && (b.current.None? ==> f.sequence <= 1)
  }

  /** The envelope of an acceptable delta. */
  predicate DeltaEnvelope(b: Baseline, f: NetMap) {
    && b.current.Some? && f.sequence != 0 && f.baseSequence == b.seqNo && f.sequence == Succ(b.seqNo)
    && (f.grantOnly ==> !f.metadataPresent && f.peers == [] && f.removedPeerIds == [])
    && (if f.metadataPresent then f.self.Peer? else NoMetadata(f))
  }

  /** A frame that names the node must name the node the baseline is about. */
  predicate SameIdentity(b: Baseline, f: NetMap) {
    b.current.Some? && b.current.value.self.Peer? && f.self.Peer? ==>
      f.self.nodeId == b.current.value.self.nodeId && f.self.nodeKey == b.current.value.self.nodeKey
  }

  /** Removals are positive, distinct, known to the baseline, and not upserted by the same frame. */
  predicate RemovalsOk(cur: seq<Peer>, f: NetMap) {
    && Distinct(f.removedPeerIds)
    && forall i | 0 <= i < |f.removedPeerIds| ::
         var id := f.removedPeerIds[i]; id > 0 && HasId(cur, id) && !HasId(f.peers, id)
  }

  function CurrentPeers(b: Baseline): seq<Peer> { if b.current.Some? then b.current.value.peers else [] }

  predicate Accepts(b: Baseline, frame: Option<NetMap>) {
    && frame.Some?
    && var f := frame.value;
    && (if f.delta then DeltaEnvelope(b, f) else FullEnvelope(b, f))
    && SameIdentity(b, f)
    && AllPositive(f.peers) && DistinctIds(f.peers)
    && RemovalsOk(CurrentPeers(b), f)
  }

  /** The ways a frame is refused, over its raw fields: a full frame with a delta field set, without a self or out of
      turn; a delta with nothing to apply it to, out of turn or against another baseline; a grant-only delta or one
      without metadata that carries any after all; another node's frame; and bad upserts or removals. */
  predicate Refused(b: Baseline, f: NetMap) {
    || (!f.delta && (f.baseSequence != 0 || f.grantOnly || f.metadataPresent))
    || (!f.delta && (f.removedPeerIds != [] || f.self.NilPeer?))
    || (!f.delta && b.current.None? && f.sequence > 1)
    || (!f.delta && b.current.Some? && f.sequence == 0 && b.seqNo != 0)
    || (!f.delta && b.current.Some? && f.sequence != 0 && f.sequence != (b.seqNo + 1) % TWO64)
    || (f.delta && (b.current.None? || f.sequence == 0 || f.sequence != (b.seqNo + 1) % TWO64))
    || (f.delta && f.baseSequence != b.seqNo)
    || (f.delta && f.grantOnly && (f.metadataPresent || f.peers != [] || f.removedPeerIds != []))
    || (f.delta && !f.metadataPresent && (f.self.Peer? || f.rest != []))
    || (f.delta && f.metadataPresent && f.self.NilPeer?)
    || (b.current.Some? && b.current.value.self.Peer? && f.self.Peer?
        && (f.self.nodeId != b.current.value.self.nodeId || f.self.nodeKey != b.current.value.self.nodeKey))
    || (exists i | 0 <= i < |f.peers| :: f.peers[i].NilPeer? || f.peers[i].nodeId <= 0)
    || (exists i, j | 0 <= i < j < |f.peers| :: Id(f.peers[i]) == Id(f.peers[j]))
    || (exists i, j | 0 <= i < j < |f.removedPeerIds| :: f.removedPeerIds[i] == f.removedPeerIds[j])
    || (exists i | 0 <= i < |f.removedPeerIds| ::
          var id := f.removedPeerIds[i]; id <= 0 || !HasId(CurrentPeers(b), id) || HasId(f.peers, id))
  }

  lemma AcceptsExact(b: Baseline, f: NetMap)
    ensures Accepts(b, Some(f)) <==> !Refused(b, f)
  {
    if !Refused(b, f) {
      assert AllPositive(f.peers) && DistinctIds(f.peers) && Distinct(f.removedPeerIds);
      assert RemovalsOk(CurrentPeers(b), f);
    }
  }

  /** The current peers a delta neither removes nor replaces. */
  function Kept(cur: seq<Peer>, upserts: seq<Peer>, removed: seq<int>): seq<Peer> {
    if cur == [] then []
    else
      (if Id(cur[0]) in removed || HasId(upserts, Id(cur[0])) then [] else [cur[0]])
      + Kept(cur[1..], upserts, removed)
  }

  function NextPeers(b: Baseline, f: NetMap): seq<Peer> {
    SortPeers((if f.delta then Kept(CurrentPeers(b), f.peers, f.removedPeerIds) else []) + f.peers)
  }

  /** The map an accepted frame leaves behind. */
  function NextMap(b: Baseline, f: NetMap): NetMap
    requires f.delta ==> b.current.Some?
  {
    Metadata(if !f.delta || f.metadataPresent then f else b.current.value)
    .(peers := NextPeers(b, f), relayGrant := f.relayGrant, sequence := f.sequence)
  }

  function Receive(b: Baseline, frame: Option<NetMap>): Option<Baseline> {
    if Accepts(b, frame) then Some(Baseline(Some(NextMap(b, frame.value)), frame.value.sequence)) else None
  }

  /** Everything a reader of the decoder may rely on. */
  predicate Good(b: Baseline) {
    if b.current.None? then b.seqNo == 0
    else
      var m := b.current.value;
      && m.self.Peer? && AllPositive(m.peers) && StrictIds(m.peers) && m.sequence == b.seqNo
      && m == NetMap(m.self, m.rest, m.peers, m.relayGrant, m.sequence, 0, false, [], false, false)
  }

  // ------------------------------------------------------ the update as a map

  /** A peer list as the id-to-peer table it stands for. */
  function Table(s: seq<Peer>): map<int, Peer>
    requires DistinctIds(s)
  {
    map p | p in s :: Id(p) := p
  }

  lemma TableOf(s: seq<Peer>, p: Peer)
    requires DistinctIds(s) && p in s
    ensures Id(p) in Table(s) && Table(s)[Id(p)] == p
  {
  }

  lemma {:induction false} KeptMembers(cur: seq<Peer>, upserts: seq<Peer>, removed: seq<int>)
    ensures forall p :: p in Kept(cur, upserts, removed) <==>
                        p in cur && Id(p) !in removed && !HasId(upserts, Id(p))
  {
    if cur != [] {
      KeptMembers(cur[1..], upserts, removed);
      assert forall p :: p in cur <==> p == cur[0] || p in cur[1..];
    }
  }

  lemma {:induction false} KeptDistinct(cur: seq<Peer>, upserts: seq<Peer>, removed: seq<int>)
    requires DistinctIds(cur)
    ensures DistinctIds(Kept(cur, upserts, removed))
  {
    if cur != [] {
      KeptDistinct(cur[1..], upserts, removed);
      KeptMembers(cur[1..], upserts, removed);
      var k := Kept(cur[1..], upserts, removed);
      assert forall i | 0 <= i < |k| :: k[i] in k && k[i] in cur[1..];
    }
  }

  /** The list a frame leaves behind: strictly ascending, and holding exactly the upserts and the peers kept. */
  lemma NextPeersExact(b: Baseline, f: NetMap)
    requires DistinctIds(CurrentPeers(b)) && DistinctIds(f.peers)
    ensures StrictIds(NextPeers(b, f))
    ensures forall p :: p in NextPeers(b, f) <==>
                        || p in f.peers
                        || (f.delta && p in CurrentPeers(b) && Id(p) !in f.removedPeerIds && !HasId(f.peers, Id(p)))
  {
    var cur := CurrentPeers(b);
    var k := if f.delta then Kept(cur, f.peers, f.removedPeerIds) else [];
    KeptMembers(cur, f.peers, f.removedPeerIds);
    KeptDistinct(cur, f.peers, f.removedPeerIds);
    assert forall i | 0 <= i < |k| :: k[i] in k;
    assert DistinctIds(k + f.peers);
    SortPeersStrict(k + f.peers);
  }

  /** A delta is the plain table update: drop what is removed, then overwrite with the upserts. */
  lemma DeltaIsTableUpdate(b: Baseline, f: NetMap)
    requires f.delta && DistinctIds(CurrentPeers(b)) && DistinctIds(f.peers)
    ensures StrictIds(NextPeers(b, f))
    ensures Table(NextPeers(b, f)) ==
            (Table(CurrentPeers(b)) - (set id | id in f.removedPeerIds)) + Table(f.peers)
  {
    NextPeersExact(b, f);
    var next, cur := NextPeers(b, f), CurrentPeers(b);
    var want := (Table(cur) - (set id | id in f.removedPeerIds)) + Table(f.peers);
    forall id | id in Table(next) ensures id in want && want[id] == Table(next)[id] {
      var p :| p in next && Id(p) == id;
      TableOf(next, p);
      if p in f.peers {
        TableOf(f.peers, p);
      } else {
        TableOf(cur, p);
        assert id !in Table(f.peers);
      }
    }
    forall id | id in want ensures id in Table(next) {
      if id in Table(f.peers) {
        var p :| p in f.peers && Id(p) == id;
        TableOf(next, p);
      } else {
        var p :| p in cur && Id(p) == id;
        assert !HasId(f.peers, id);
        TableOf(next, p);
      }
    }
  }

  // ------------------------------------------------------- the sorted merge

  /** The three-index merge over id-sorted inputs. */
  function Merge(cur: seq<Peer>, ups: seq<Peer>, rem: seq<int>): seq<Peer>
    decreases |cur| + |ups|
  {
    if cur == [] then ups
    else if ups != [] && Id(ups[0]) < Id(cur[0]) then [ups[0]] + Merge(cur, ups[1..], rem)
    else if rem != [] && rem[0] == Id(cur[0]) then Merge(cur[1..], ups, rem[1..])
    else if ups != [] && Id(ups[0]) == Id(cur[0]) then [ups[0]] + Merge(cur[1..], ups[1..], rem)
    else [cur[0]] + Merge(cur[1..], ups, rem)
  }

  /** The merge's inputs: id-sorted, every removal known and not upserted. */
  predicate Mergeable(cur: seq<Peer>, ups: seq<Peer>, rem: seq<int>) {
    && StrictIds(cur) && StrictIds(ups) && Increasing(rem)
    && forall i | 0 <= i < |rem| :: HasId(cur, rem[i]) && !HasId(ups, rem[i])
  }

  lemma MergeableTails(cur: seq<Peer>, ups: seq<Peer>, rem: seq<int>)
    requires Mergeable(cur, ups, rem) && cur != []
    ensures ups != [] ==> Mergeable(cur, ups[1..], rem)
    ensures rem != [] && rem[0] == Id(cur[0]) ==> Mergeable(cur[1..], ups, rem[1..])
    ensures !(rem != [] && rem[0] == Id(cur[0])) ==> Mergeable(cur[1..], ups, rem)
  {
    forall i | 0 <= i < |rem| && rem[i] != Id(cur[0]) ensures HasId(cur[1..], rem[i]) {
      var k :| 0 <= k < |cur| && Id(cur[k]) == rem[i];
      assert cur[1..][k - 1] == cur[k];
    }
    if ups != [] {
      forall i | 0 <= i < |rem| ensures !HasId(ups[1..], rem[i]) {
        assert forall k | 0 <= k < |ups[1..]| :: ups[1..][k] == ups[k + 1];
      }
    }
    if rem != [] && rem[0] != Id(cur[0]) {
      var k :| 0 <= k < |cur| && Id(cur[k]) == rem[0];
      assert rem[0] > Id(cur[0]);
    }
  }

  /** The merge keeps exactly the upserts and the peers neither removed nor replaced. */
  lemma {:induction false} MergeMembers(cur: seq<Peer>, ups: seq<Peer>, rem: seq<int>, p: Peer)
    requires Mergeable(cur, ups, rem)
    ensures p in Merge(cur, ups, rem) <==> p in ups || (p in cur && Id(p) !in rem && !HasId(ups, Id(p)))
    decreases |cur| + |ups|
  {
    if cur != [] {
      MergeableTails(cur, ups, rem);
      assert p in cur <==> p == cur[0] || p in cur[1..];
      if ups != [] {
        assert p in ups <==> p == ups[0] || p in ups[1..];
        assert HasId(ups, Id(p)) <==> Id(ups[0]) == Id(p) || HasId(ups[1..], Id(p)) by {
          assert forall k | 1 <= k < |ups| :: ups[1..][k - 1] == ups[k];
        }
      }
      if rem != [] {
        assert Id(p) in rem <==> Id(p) == rem[0] || Id(p) in rem[1..];
      }
      if ups != [] && Id(ups[0]) < Id(cur[0]) {
        MergeMembers(cur, ups[1..], rem, p);
      } else if rem != [] && rem[0] == Id(cur[0]) {
        MergeMembers(cur[1..], ups, rem[1..], p);
      } else if ups != [] && Id(ups[0]) == Id(cur[0]) {
        MergeMembers(cur[1..], ups, rem, p);
        MergeMembers(cur[1..], ups[1..], rem, p);
      } else {
        assert Id(cur[0]) !in rem && !HasId(ups, Id(cur[0])) by { HeadUntouched(cur, ups, rem); }
        MergeMembers(cur[1..], ups, rem, p);
      }
    }
  }

  lemma HeadUntouched(cur: seq<Peer>, ups: seq<Peer>, rem: seq<int>)
    requires Mergeable(cur, ups, rem) && cur != []
    requires ups != [] ==> Id(ups[0]) > Id(cur[0])
    requires rem != [] ==> rem[0] != Id(cur[0])
    ensures Id(cur[0]) !in rem && !HasId(ups, Id(cur[0]))
  {
    if rem != [] {
      var k :| 0 <= k < |cur| && Id(cur[k]) == rem[0];
      assert rem[0] > Id(cur[0]);
    }
  }

  /** The preallocated capacity is never negative and always suffices. */
  lemma {:induction false} MergeFits(cur: seq<Peer>, ups: seq<Peer>, rem: seq<int>)
    requires Mergeable(cur, ups, rem)
    ensures |rem| <= |cur|
    ensures |Merge(cur, ups, rem)| <= |cur| + |ups| - |rem|
    decreases |cur| + |ups|
  {
    if cur == [] {
      NonEmptyHas(rem);
    } else {
      MergeableTails(cur, ups, rem);
      if ups != [] && Id(ups[0]) < Id(cur[0]) {
        MergeFits(cur, ups[1..], rem);
      } else if rem != [] && rem[0] == Id(cur[0]) {
        MergeFits(cur[1..], ups, rem[1..]);
      } else if ups != [] && Id(ups[0]) == Id(cur[0]) {
        assert Mergeable(cur[1..], ups[1..], rem) by { UpsTail(cur[1..], ups, rem); }
        MergeFits(cur[1..], ups[1..], rem);
      } else {
        MergeFits(cur[1..], ups, rem);
      }
    }
  }

  /** The merge yields strictly ascending ids. */
  lemma {:induction false} MergeStrict(cur: seq<Peer>, ups: seq<Peer>, rem: seq<int>)
    requires Mergeable(cur, ups, rem)
    ensures StrictIds(Merge(cur, ups, rem))
    decreases |cur| + |ups|
  {
    if cur != [] {
      MergeableTails(cur, ups, rem);
      if ups != [] && Id(ups[0]) < Id(cur[0]) {
        MergeStrict(cur, ups[1..], rem);
        HeadBelow(cur, ups[1..], rem, ups[0]);
      } else if rem != [] && rem[0] == Id(cur[0]) {
        MergeStrict(cur[1..], ups, rem[1..]);
      } else if ups != [] && Id(ups[0]) == Id(cur[0]) {
        assert Mergeable(cur[1..], ups[1..], rem) by { UpsTail(cur[1..], ups, rem); }
        MergeStrict(cur[1..], ups[1..], rem);
        HeadBelow(cur[1..], ups[1..], rem, ups[0]);
      } else {
        MergeStrict(cur[1..], ups, rem);
        HeadBelow(cur[1..], ups, rem, cur[0]);
      }
    }
  }

  lemma UpsTail(cur: seq<Peer>, ups: seq<Peer>, rem: seq<int>)
    requires Mergeable(cur, ups, rem) && ups != []
    ensures Mergeable(cur, ups[1..], rem)
  {
    assert forall k | 0 <= k < |ups[1..]| :: ups[1..][k] == ups[k + 1];
  }

  lemma HeadBelow(cur: seq<Peer>, ups: seq<Peer>, rem: seq<int>, h: Peer)
    requires Mergeable(cur, ups, rem)
    requires forall i | 0 <= i < |cur| :: Id(h) < Id(cur[i])
    requires forall i | 0 <= i < |ups| :: Id(h) < Id(ups[i])
    ensures forall i | 0 <= i < |Merge(cur, ups, rem)| :: Id(h) < Id(Merge(cur, ups, rem)[i])
  {
    var r := Merge(cur, ups, rem);
    forall i | 0 <= i < |r| ensures Id(h) < Id(r[i]) {
      MergeMembers(cur, ups, rem, r[i]);
    }
  }

  /** The merge computes the specified update. */
  lemma MergeIsNextPeers(b: Baseline, f: NetMap)
    requires Good(b) && f.delta && b.current.Some?
    requires DistinctIds(f.peers) && RemovalsOk(CurrentPeers(b), f)
    ensures Mergeable(CurrentPeers(b), SortPeers(f.peers), SortIds(f.removedPeerIds))
    ensures Merge(CurrentPeers(b), SortPeers(f.peers), SortIds(f.removedPeerIds)) == NextPeers(b, f)
  {
    var cur, ups, rem := CurrentPeers(b), SortPeers(f.peers), SortIds(f.removedPeerIds);
    SortPeersStrict(f.peers);
    SortIdsIncreasing(f.removedPeerIds);
    HasIdSorted(f.peers);
    forall i | 0 <= i < |rem| ensures HasId(cur, rem[i]) && !HasId(ups, rem[i]) {
      assert rem[i] in rem;
    }
    MergeStrict(cur, ups, rem);
    NextPeersExact(b, f);
    forall p ensures p in Merge(cur, ups, rem) <==> p in NextPeers(b, f) {
      MergeMembers(cur, ups, rem, p);
    }
    StrictSame(Merge(cur, ups, rem), NextPeers(b, f));
  }

  lemma HasIdSorted(s: seq<Peer>)
    requires DistinctIds(s)
    ensures forall id :: HasId(SortPeers(s), id) <==> HasId(s, id)
  {
    SortPeersStrict(s);
    var r := SortPeers(s);
    forall id ensures HasId(r, id) <==> HasId(s, id) {
      if HasId(r, id) {
        var i :| 0 <= i < |r| && Id(r[i]) == id;
        assert r[i] in s;
      }
      if HasId(s, id) {
        var i :| 0 <= i < |s| && Id(s[i]) == id;
        assert s[i] in r;
      }
    }
  }

  /** With nothing removed or upserted the peers stay as they are: the grant-only fast path. */
  lemma GrantOnlyKeepsPeers(b: Baseline, f: NetMap)
    requires Good(b) && b.current.Some? && f.delta && f.peers == [] && f.removedPeerIds == []
    ensures NextPeers(b, f) == CurrentPeers(b)
  {
    NextPeersExact(b, f);
    StrictSame(NextPeers(b, f), CurrentPeers(b));
  }

  // ---------------------------------------------------------- the decoder

  class NetMapDecoder {
    var current: Option<NetMap>
    var seqNo: Uint64

    function View(): Baseline
      reads this
    {
      Baseline(current, seqNo)
    }

    constructor ()
      ensures View() == Fresh && Good(View())
    {
      current, seqNo := None, 0;
    }

    /** Validates a complete frame before changing the baseline; a rejected frame changes nothing. */
    method Apply(frame: Option<NetMap>) returns (ok: bool, out: NetMap, grantOnly: bool)
      requires Good(View())
      modifies this
      ensures ok == Accepts(old(View()), frame)
      ensures ok ==> Some(View()) == Receive(old(View()), frame)
      ensures ok ==> Some(out) == current && grantOnly == frame.value.grantOnly
      ensures !ok ==> View() == old(View())
      ensures Good(View())
    {
      ok, out, grantOnly := false, Blank, false;
      if frame.None? {
        return;
      }
      var f := frame.value;
      if !f.delta {
        if f.baseSequence != 0 || f.grantOnly || f.metadataPresent || |f.removedPeerIds| != 0 || f.self.NilPeer? {
          return;
        }
        if current.Some? && ((f.sequence == 0 && seqNo != 0) || (f.sequence != 0 && f.sequence != Succ(seqNo))) {
          return;
        }
        if current.None? && f.sequence > 1 {
          return;
        }
      } else if current.None? || f.sequence == 0 || f.baseSequence != seqNo || f.sequence != Succ(seqNo)
                || (f.grantOnly && (f.metadataPresent || |f.peers| != 0 || |f.removedPeerIds| != 0)) {
        return;
      }
      if f.delta && !f.metadataPresent && Metadata(f) != Blank {
        return;
      }
      if current.Some? && f.self.Peer?
         && (f.self.nodeId != current.value.self.nodeId || f.self.nodeKey != current.value.self.nodeKey) {
        return;
      }
      if f.delta && f.metadataPresent && f.self.NilPeer? {
        return;
      }
      ghost var b := View();
      if f.grantOnly {
        out := Metadata(current.value).(peers := current.value.peers);
        out := out.(relayGrant := f.relayGrant, sequence := f.sequence);
        GrantOnlyKeepsPeers(b, f);
        ReceiveKeepsGood(b, frame);
        current, seqNo := Some(out), f.sequence;
        ok, grantOnly := true, true;
        return;
      }
      out := if !f.delta || f.metadataPresent then Metadata(f) else Metadata(current.value);
      var upsertsOk := SortedUpserts(f.peers);
      if !upsertsOk {
        return;
      }
      var upserts := SortPeers(f.peers);
      var removalsOk := CheckRemovals(if current.Some? then current.value.peers else [], f);
      if !removalsOk {
        return;
      }
      if !f.delta {
        out := out.(peers := upserts);
        assert [] + f.peers == f.peers;
      } else {
        MergeIsNextPeers(b, f);
        var merged := MergeSorted(current.value.peers, upserts, SortIds(f.removedPeerIds));
        out := out.(peers := merged);
      }
      out := out.(relayGrant := f.relayGrant, sequence := f.sequence);
      ReceiveKeepsGood(b, frame);
      current, seqNo := Some(out), f.sequence;
      ok, grantOnly := true, f.grantOnly;
    }
  }

  /** Every acceptance keeps the baseline well formed. */
  lemma ReceiveKeepsGood(b: Baseline, frame: Option<NetMap>)
    requires Good(b) && Accepts(b, frame)
    ensures Good(Receive(b, frame).value)
  {
    NextPeersExact(b, frame.value);
    var n := NextPeers(b, frame.value);
    forall i | 0 <= i < |n| ensures Id(n[i]) > 0 {
      assert n[i] in n;
    }
  }

  /** Sorts a copy of the upserts and scans neighbours for duplicates, after a scan for bad ids. */
  method SortedUpserts(peers: seq<Peer>) returns (ok: bool)
    ensures ok <==> AllPositive(peers) && DistinctIds(peers)
  {
    for i := 0 to |peers|
      invariant forall k | 0 <= k < i :: Id(peers[k]) > 0
    {
      if Id(peers[i]) <= 0 {
        return false;
      }
    }
    var upserts := SortPeers(peers);
    SortSorts(peers, IdLeq);
    SortSame(peers, IdLeq);
    var i := 1;
    while i < |upserts|
      invariant 1 <= i
      invariant forall k | 1 <= k < i && k < |upserts| :: Id(upserts[k - 1]) < Id(upserts[k])
    {
      assert IdLeq(upserts[i - 1], upserts[i]);
      if Id(upserts[i - 1]) == Id(upserts[i]) {
        if DistinctIds(peers) {
          SortPeersStrict(peers);
        }
        return false;
      }
      i := i + 1;
    }
    NeighboursToDistinct(peers);
    return true;
  }

  lemma NeighboursToDistinct(peers: seq<Peer>)
    requires forall k | 1 <= k < |SortPeers(peers)| :: Id(SortPeers(peers)[k - 1]) < Id(SortPeers(peers)[k])
    ensures DistinctIds(peers)
  {
    var r := SortPeers(peers);
    SortSorts(peers, IdLeq);
    ChainIsStrict(r);
    forall i, j | 0 <= i < j < |peers| ensures Id(peers[i]) != Id(peers[j]) {
      if Id(peers[i]) == Id(peers[j]) {
        SameElements(r, peers);
        assert peers[i] in r && peers[j] in r;
        assert peers[i] == peers[j];
        CountAtMostOnce(peers, i, j);
        DistinctCount(r, peers[i]);
      }
    }
  }

  lemma {:induction false} ChainIsStrict(r: seq<Peer>)
    requires forall k | 1 <= k < |r| :: Id(r[k - 1]) < Id(r[k])
    ensures StrictIds(r)
  {
    if |r| > 1 {
      var init := r[..|r| - 1];
      ChainIsStrict(init);
      assert Id(r[|r| - 2]) < Id(r[|r| - 1]);
      assert forall i | 0 <= i < |init| :: r[i] == init[i];
    }
  }

  /** sort.Search over an id-sorted list: the least index whose id is at least id. */
  method Search(s: seq<Peer>, id: int) returns (j: nat)
    requires StrictIds(s)
    ensures j <= |s|
    ensures forall k | 0 <= k < j :: Id(s[k]) < id
    ensures forall k | j <= k < |s| :: Id(s[k]) >= id
  {
    var lo, hi := 0, |s|;
    while lo < hi
      invariant 0 <= lo <= hi <= |s|
      invariant forall k | 0 <= k < lo :: Id(s[k]) < id
      invariant forall k | hi <= k < |s| :: Id(s[k]) >= id
    {
      var mid := (lo + hi) / 2;
      if Id(s[mid]) < id {
        lo := mid + 1;
      } else {
        hi := mid;
      }
    }
    j := lo;
  }

  method CheckRemoval(cur: seq<Peer>, upserts: seq<Peer>, id: int) returns (ok: bool)
    requires StrictIds(cur) && StrictIds(upserts)
    ensures ok <==> !HasId(upserts, id) && HasId(cur, id)
  {
    var j := Search(upserts, id);
    if j < |upserts| && Id(upserts[j]) == id {
      return false;
    }
    j := Search(cur, id);
    return !(j == |cur| || Id(cur[j]) != id);
  }

  predicate RemovalOk(cur: seq<Peer>, upserts: seq<Peer>, id: int) {
    id > 0 && HasId(cur, id) && !HasId(upserts, id)
  }

  method CheckRemovals(cur: seq<Peer>, f: NetMap) returns (ok: bool)
    requires StrictIds(cur) && DistinctIds(f.peers)
    ensures ok == RemovalsOk(cur, f)
  {
    var upserts, removed := SortPeers(f.peers), SortIds(f.removedPeerIds);
    SortPeersStrict(f.peers);
    SortSorts(f.removedPeerIds, IntLeq);
    for i := 0 to |removed|
      invariant forall k | 0 <= k < i :: RemovalOk(cur, upserts, removed[k])
      invariant forall k | 1 <= k < i :: removed[k - 1] < removed[k]
    {
      var id := removed[i];
      assert i > 0 ==> IntLeq(removed[i - 1], removed[i]);
      if id <= 0 || (i > 0 && removed[i - 1] == id) {
        RemovalRefuted(cur, f, i);
        return false;
      }
      var known := CheckRemoval(cur, upserts, id);
      if !known {
        RemovalRefuted(cur, f, i);
        return false;
      }
    }
    RemovalsConfirmed(cur, f);
    return true;
  }

  lemma RemovalRefuted(cur: seq<Peer>, f: NetMap, i: nat)
    requires DistinctIds(f.peers) && i < |SortIds(f.removedPeerIds)|
    requires var rem := SortIds(f.removedPeerIds);
             !RemovalOk(cur, SortPeers(f.peers), rem[i]) || (i > 0 && rem[i - 1] == rem[i])
    ensures !RemovalsOk(cur, f)
  {
    var rem := SortIds(f.removedPeerIds);
    SortSame(f.removedPeerIds, IntLeq);
    HasIdSorted(f.peers);
    assert rem[i] in rem;
    if Distinct(f.removedPeerIds) {
      SortIdsIncreasing(f.removedPeerIds);
      var k :| 0 <= k < |f.removedPeerIds| && f.removedPeerIds[k] == rem[i];
    }
  }

  lemma RemovalsConfirmed(cur: seq<Peer>, f: NetMap)
    requires DistinctIds(f.peers)
    requires forall k | 0 <= k < |SortIds(f.removedPeerIds)| ::
               RemovalOk(cur, SortPeers(f.peers), SortIds(f.removedPeerIds)[k])
    requires forall k | 1 <= k < |SortIds(f.removedPeerIds)| ::
               SortIds(f.removedPeerIds)[k - 1] < SortIds(f.removedPeerIds)[k]
    ensures RemovalsOk(cur, f)
  {
    IdsDistinct(f.removedPeerIds);
    HasIdSorted(f.peers);
  }

  lemma IdsDistinct(ids: seq<int>)
    requires forall k | 1 <= k < |SortIds(ids)| :: SortIds(ids)[k - 1] < SortIds(ids)[k]
    ensures Distinct(ids)
    ensures forall i | 0 <= i < |ids| :: ids[i] in SortIds(ids)
  {
    var r := SortIds(ids);
    SortSorts(ids, IntLeq);
    SameElements(r, ids);
    IdChain(r);
    forall i, j | 0 <= i < j < |ids| ensures ids[i] != ids[j] {
      if ids[i] == ids[j] {
        CountAtMostOnce(ids, i, j);
        DistinctCount(r, ids[i]);
      }
    }
  }

  lemma {:induction false} IdChain(r: seq<int>)
    requires forall k | 1 <= k < |r| :: r[k - 1] < r[k]
    ensures Increasing(r)
  {
    if |r| > 1 {
      IdChain(r[..|r| - 1]);
      assert r[|r| - 2] < r[|r| - 1];
      assert forall i | 0 <= i < |r| - 1 :: r[i] == r[..|r| - 1][i];
    }
  }

  /** One step of the merge, at any position of the three indices. */
  lemma MergeUnfold(cur: seq<Peer>, ups: seq<Peer>, rem: seq<int>, i: nat, j: nat, r: nat)
    requires i < |cur| && j <= |ups| && r <= |rem|
    ensures var m := Merge(cur[i..], ups[j..], rem[r..]);
            if j < |ups| && Id(ups[j]) < Id(cur[i]) then m == [ups[j]] + Merge(cur[i..], ups[j + 1..], rem[r..])
            else if r < |rem| && rem[r] == Id(cur[i]) then m == Merge(cur[i + 1..], ups[j..], rem[r + 1..])
            else if j < |ups| && Id(ups[j]) == Id(cur[i]) then
              m == [ups[j]] + Merge(cur[i + 1..], ups[j + 1..], rem[r..])
            else m == [cur[i]] + Merge(cur[i + 1..], ups[j..], rem[r..])
  {
    assert cur[i..][1..] == cur[i + 1..];
    if j < |ups| {
      assert ups[j..][1..] == ups[j + 1..];
    }
    if r < |rem| {
      assert rem[r..][1..] == rem[r + 1..];
    }
  }

  lemma Shift(a: seq<Peer>, x: Peer, b: seq<Peer>)
    ensures a + ([x] + b) == (a + [x]) + b
  {
  }

  /** What the loop has put out so far, and what the merge yields from its three indices on. */
  ghost predicate Ahead(out: seq<Peer>, cur: seq<Peer>, ups: seq<Peer>, rem: seq<int>, i: int, j: int, r: int) {
    && 0 <= i <= |cur| && 0 <= j <= |ups| && 0 <= r <= |rem|
    && out + Merge(cur[i..], ups[j..], rem[r..]) == Merge(cur, ups, rem)
  }

  lemma MergeAdvance(out: seq<Peer>, cur: seq<Peer>, ups: seq<Peer>, rem: seq<int>, i: nat, j: nat, r: nat)
    requires i < |cur| && Ahead(out, cur, ups, rem, i, j, r)
    ensures if j < |ups| && Id(ups[j]) < Id(cur[i]) then Ahead(out + [ups[j]], cur, ups, rem, i, j + 1, r)
            else if r < |rem| && rem[r] == Id(cur[i]) then Ahead(out, cur, ups, rem, i + 1, j, r + 1)
            else if j < |ups| && Id(ups[j]) == Id(cur[i]) then Ahead(out + [ups[j]], cur, ups, rem, i + 1, j + 1, r)
            else Ahead(out + [cur[i]], cur, ups, rem, i + 1, j, r)
  {
    MergeUnfold(cur, ups, rem, i, j, r);
    if j < |ups| && Id(ups[j]) < Id(cur[i]) {
      Shift(out, ups[j], Merge(cur[i..], ups[j + 1..], rem[r..]));
    } else if r < |rem| && rem[r] == Id(cur[i]) {
    } else if j < |ups| && Id(ups[j]) == Id(cur[i]) {
      Shift(out, ups[j], Merge(cur[i + 1..], ups[j + 1..], rem[r..]));
    } else {
      Shift(out, cur[i], Merge(cur[i + 1..], ups[j..], rem[r..]));
    }
  }

  lemma MergeEnds(out: seq<Peer>, cur: seq<Peer>, ups: seq<Peer>, rem: seq<int>, j: int, r: int)
    ensures Ahead([], cur, ups, rem, 0, 0, 0)
    ensures Ahead(out, cur, ups, rem, |cur|, j, r) ==> out + ups[j..] == Merge(cur, ups, rem)
  {
    assert cur[0..] == cur && ups[0..] == ups && rem[0..] == rem;
    assert [] + Merge(cur, ups, rem) == Merge(cur, ups, rem);
    assert cur[|cur|..] == [];
  }

  /** The merge loop. The result never outgrows the capacity reserved for it. */
  method MergeSorted(cur: seq<Peer>, upserts: seq<Peer>, removed: seq<int>) returns (out: seq<Peer>)
    requires Mergeable(cur, upserts, removed)
    ensures out == Merge(cur, upserts, removed)
    ensures 0 <= |cur| + |upserts| - |removed| && |out| <= |cur| + |upserts| - |removed|
  {
    MergeFits(cur, upserts, removed);
    out := [];
    var j, r := 0, 0;
    MergeEnds(out, cur, upserts, removed, j, r);
    for i := 0 to |cur|
      invariant Ahead(out, cur, upserts, removed, i, j, r)
    {
      out, j, r := MergeTurn(out, cur, upserts, removed, i, j, r);
    }
    MergeEnds(out, cur, upserts, removed, j, r);
    out := out + upserts[j..];
  }

  /** One turn of the outer loop: the upserts below the current peer, then that peer, its replacement or nothing. */
  method MergeTurn(done: seq<Peer>, cur: seq<Peer>, upserts: seq<Peer>, removed: seq<int>, i: nat, j0: nat, r0: nat)
    returns (out: seq<Peer>, j: nat, r: nat)
    requires i < |cur| && Ahead(done, cur, upserts, removed, i, j0, r0)
    ensures Ahead(out, cur, upserts, removed, i + 1, j, r)
  {
    out, j, r := done, j0, r0;
    while j < |upserts| && Id(upserts[j]) < Id(cur[i])
      invariant j <= |upserts| && Ahead(out, cur, upserts, removed, i, j, r)
    {
      MergeAdvance(out, cur, upserts, removed, i, j, r);
      out, j := out + [upserts[j]], j + 1;
    }
    MergeAdvance(out, cur, upserts, removed, i, j, r);
    if r < |removed| && removed[r] == Id(cur[i]) {
      r := r + 1;
    } else if j < |upserts| && Id(upserts[j]) == Id(cur[i]) {
      out, j := out + [upserts[j]], j + 1;
    } else {
      out := out + [cur[i]];
    }
  }
}
