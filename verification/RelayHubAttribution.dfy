/** Whose bytes the relay reports and between whom it forwards: the meshnet on a counter, over every interleaving. */
module RelayHubAttribution {
  import opened Collections
  import opened DerpFrames
  import opened RelayHub
  import opened RelayHubInvariants
  import opened RelayHubUsage
  import opened RelayHubSafety
  import DerpAuth
  import RelayGrants

  /** A grant accepted by this relay put that node in that meshnet; zero attributes nothing. */
  predicate Granted(s: State, key: Key, meshnet: int) {
    meshnet == 0 || exists g :: g in s.grants && g.node == key && g.meshnet == meshnet
  }

  predicate LinkGranted(s: State, k: Link) {
    Granted(s, k.key, k.meshnet) && (k.phase.Mirror? ==> Granted(s, k.key, k.phase.meshnet))
  }

  ghost predicate Attributed(s: State) {
    && (forall c | c in s.counters :: Granted(s, s.counters[c].key, s.counters[c].meshnet))
    && (forall i | 0 <= i < |s.reports| :: Granted(s, s.reports[i].key, s.reports[i].meshnet))
    && (forall l | l in s.links :: LinkGranted(s, s.links[l]))
  }

  lemma GrantedStays(s: State, s': State, key: Key, meshnet: int)
    requires Granted(s, key, meshnet) && s.grants <= s'.grants
    ensures Granted(s', key, meshnet)
  {
    if meshnet != 0 {
      var g :| g in s.grants && g.node == key && g.meshnet == meshnet;
      assert g in s'.grants;
    }
  }

  predicate SameCounters(s: State, s': State) {
    forall c | c in s'.counters ::
      c in s.counters && s'.counters[c].key == s.counters[c].key && s'.counters[c].meshnet == s.counters[c].meshnet
  }

  predicate LinksNoNewer(s: State, s': State, but: Option<LinkId>) {
    forall l | l in s'.links && Some(l) != but ::
      l in s.links && s'.links[l].key == s.links[l].key && s'.links[l].meshnet == s.links[l].meshnet
      && (s'.links[l].phase.Mirror? ==> s'.links[l].phase == s.links[l].phase)
  }

  lemma LinksStay(s: State, s': State, but: Option<LinkId>)
    requires Attributed(s) && s.grants <= s'.grants && LinksNoNewer(s, s', but)
    ensures forall l | l in s'.links && Some(l) != but :: LinkGranted(s', s'.links[l])
  {
    forall l | l in s'.links && Some(l) != but ensures LinkGranted(s', s'.links[l]) {
      var k := s.links[l];
      assert LinkGranted(s, k);
      GrantedStays(s, s', k.key, k.meshnet);
      if k.phase.Mirror? {
        GrantedStays(s, s', k.key, k.phase.meshnet);
      }
    }
  }

  lemma BooksStay(s: State, s': State)
    requires Attributed(s) && s.grants <= s'.grants && SameCounters(s, s') && s'.reports == s.reports
    ensures forall c | c in s'.counters :: Granted(s', s'.counters[c].key, s'.counters[c].meshnet)
    ensures forall i | 0 <= i < |s'.reports| :: Granted(s', s'.reports[i].key, s'.reports[i].meshnet)
  {
    forall c | c in s'.counters ensures Granted(s', s'.counters[c].key, s'.counters[c].meshnet) {
      GrantedStays(s, s', s.counters[c].key, s.counters[c].meshnet);
    }
    forall i | 0 <= i < |s'.reports| ensures Granted(s', s'.reports[i].key, s'.reports[i].meshnet) {
      GrantedStays(s, s', s.reports[i].key, s.reports[i].meshnet);
    }
  }

  lemma AttributionFrame(s: State, s': State)
    requires Attributed(s) && s.grants <= s'.grants
    requires SameCounters(s, s') && s'.reports == s.reports && LinksNoNewer(s, s', None)
    ensures Attributed(s')
  {
    LinksStay(s, s', None);
    BooksStay(s, s');
  }

  lemma CommitAttributes(cfg: Config, s: State, l: LinkId)
    requires Attributed(s) && l in s.links && s.links[l].phase.Checked? && LinkAuth(cfg, s, l)
    ensures Attributed(Committed(s, l))
  {
    var s', g := Committed(s, l), s.links[l].phase.ev.grant;
    assert g in s'.grants && g.node == s.links[l].key;
    LinksStay(s, s', Some(l));
    BooksStay(s, s');
  }

  lemma MirrorAttributes(cfg: Config, s: State, l: LinkId)
    requires Attributed(s) && Registry(s) && Enabled(cfg, s, MirrorMeshnet(l))
    ensures Attributed(Next(cfg, s, MirrorMeshnet(l)))
  {
    var s' := Next(cfg, s, MirrorMeshnet(l));
    var c := s.links[l].counter.value;
    assert LinkCounterOk(s, l) && LinkGranted(s, s.links[l]);
    LinksStay(s, s', None);
    forall d | d in s'.counters ensures Granted(s', s'.counters[d].key, s'.counters[d].meshnet) {
      if d == c {
        GrantedStays(s, s', s.links[l].key, s.links[l].phase.meshnet);
      } else {
        GrantedStays(s, s', s.counters[d].key, s.counters[d].meshnet);
      }
    }
    forall i | 0 <= i < |s'.reports| ensures Granted(s', s'.reports[i].key, s'.reports[i].meshnet) {
      GrantedStays(s, s', s.reports[i].key, s.reports[i].meshnet);
    }
  }

  lemma RegisterAttributes(s: State, l: LinkId)
    requires Attributed(s) && Registry(s) && l in s.links
    ensures Attributed(Registered(s, l))
  {
    var s', k := Registered(s, l), s.links[l];
    assert LinkGranted(s, k);
    assert k.key in s.usage ==> UsageOk(s, k.key);
    LinksStay(s, s', None);
    forall d | d in s'.counters ensures Granted(s', s'.counters[d].key, s'.counters[d].meshnet) {
      GrantedStays(s, s', k.key, k.meshnet);
      if d in s.counters {
        GrantedStays(s, s', s.counters[d].key, s.counters[d].meshnet);
      }
    }
    forall i | 0 <= i < |s'.reports| ensures Granted(s', s'.reports[i].key, s'.reports[i].meshnet) {
      GrantedStays(s, s', s.reports[i].key, s.reports[i].meshnet);
    }
  }

  lemma DecideAttributes(s: State)
    requires Attributed(s) && Registry(s)
    requires s.take.Some? && s.take.value.visit.Some? && s.take.value.visit.value.out.Some?
    requires s.take.value.visit.value.counter in s.counters
    ensures Attributed(Decided(s))
  {
    var s', v := Decided(s), s.take.value.visit.value;
    assert UsageOk(s, v.key);
    LinksStay(s, s', None);
    forall c | c in s'.counters ensures Granted(s', s'.counters[c].key, s'.counters[c].meshnet) {
      GrantedStays(s, s', s.counters[c].key, s.counters[c].meshnet);
    }
    forall i | 0 <= i < |s'.reports| ensures Granted(s', s'.reports[i].key, s'.reports[i].meshnet) {
      if i < |s.reports| {
        GrantedStays(s, s', s.reports[i].key, s.reports[i].meshnet);
      } else {
        GrantedStays(s, s', s.counters[v.counter].key, s.counters[v.counter].meshnet);
      }
    }
  }

  /** Steps that attribute nothing: they leave links, or one link's phase, or the books' owners alone. */
  lemma OtherAttributes(cfg: Config, s: State, e: Step)
    requires Attributed(s) && Enabled(cfg, s, e)
    requires !e.Commit? && !e.MirrorMeshnet? && !e.Register? && !e.TakeDecide?
    ensures Attributed(Next(cfg, s, e))
  {
    var s' := Next(cfg, s, e);
    OwnersKept(cfg, s, e);
    if LinksSame(e) {
      LinksSameEffect(cfg, s, e);
    } else if PhaseOnly(e) {
      PhaseEffect(cfg, s, e);
      PhaseLeads(cfg, s, e);
    } else {
      LinkOwnersKept(cfg, s, e);
    }
    if e.Accept? {
      LinksStay(s, s', Some(e.l));
      BooksStay(s, s');
    } else {
      AttributionFrame(s, s');
    }
  }

  predicate OwnersSame(s: State, s': State) {
    s'.grants == s.grants && s'.reports == s.reports && SameCounters(s, s')
  }

  lemma OwnersKept(cfg: Config, s: State, e: Step)
    requires !e.Commit? && !e.MirrorMeshnet? && !e.Register? && !e.TakeDecide?
    ensures OwnersSame(s, Next(cfg, s, e))
  {
    if LinksSame(e) {
      LinksSameOwners(cfg, s, e);
    } else if PhaseOnly(e) {
      PhaseOwners(cfg, s, e);
    }
  }

  lemma LinksSameOwners(cfg: Config, s: State, e: Step)
    requires LinksSame(e) && !e.TakeDecide?
    ensures OwnersSame(s, Next(cfg, s, e))
  {
  }

  lemma PhaseOwners(cfg: Config, s: State, e: Step)
    requires PhaseOnly(e) && !e.MirrorMeshnet?
    ensures OwnersSame(s, Next(cfg, s, e))
  {
  }

  lemma ChallengedOwners(s: State, l: LinkId, ch: DerpAuth.Challenge, eph: Key, phase: Phase)
    requires l in s.links && (phase == s.links[l].phase || phase == Handshake)
    ensures LinksNoNewer(s, Challenged(s, l, ch, eph, phase), None)
  {
  }

  lemma SweptOwners(s: State, ch: DerpAuth.Challenge, eph: Key)
    requires s.sweeper.Acting? && s.sweeper.l in s.links
    ensures LinksNoNewer(s, Swept(s, ch, eph), None)
  {
    var a := s.sweeper;
    match Judge(a.now, a.expiry, a.pending)
    case LeaveAlone => assert Swept(s, ch, eph).links == s.links;
    case CloseLink => assert Swept(s, ch, eph).links == s.links[a.l := s.links[a.l].(open := false)];
    case Rechallenge => ChallengedOwners(s, a.l, ch, eph, s.links[a.l].phase);
  }

  lemma LinkOwnersKept(cfg: Config, s: State, e: Step)
    requires e.Accept? || e.FirstChallenge? || e.SweepAct?
    requires Enabled(cfg, s, e)
    ensures LinksNoNewer(s, Next(cfg, s, e), if e.Accept? then Some(e.l) else None)
    ensures e.Accept? ==> LinkGranted(Next(cfg, s, e), Next(cfg, s, e).links[e.l])
  {
    match e
    case Accept(_, _, _) =>
    case FirstChallenge(l, ch, eph) => ChallengedOwners(s, l, ch, eph, Handshake);
    case SweepAct(ch, eph) => SweptOwners(s, ch, eph);
  }

  lemma StepAttributes(cfg: Config, s: State, e: Step)
    requires Attributed(s) && Inv(cfg, s)
    ensures Attributed(Next(cfg, s, e))
  {
    if Enabled(cfg, s, e) {
      match e
      case Commit(l) => CommitAttributes(cfg, s, l);
      case MirrorMeshnet(l) => MirrorAttributes(cfg, s, l);
      case Register(l) => RegisterAttributes(s, l);
      case TakeDecide => DecideAttributes(s);
      case _ => OtherAttributes(cfg, s, e);
    }
  }

  lemma {:induction false} AlwaysAttributed(cfg: Config, es: seq<Step>)
    ensures Attributed(Run(cfg, es))
  {
    if es != [] {
      AlwaysAttributed(cfg, es[..|es| - 1]);
      Reachable(cfg, es[..|es| - 1]);
      StepAttributes(cfg, Run(cfg, es[..|es| - 1]), es[|es| - 1]);
    }
  }

  /** An accepted grant authorized its node at the time. */
  ghost predicate Vouched(cfg: Config, g: RelayGrants.Grant) {
    exists blob, at :: Authorizes(cfg, g.node, blob, g, at)
  }

  lemma {:induction false} GrantsVouched(cfg: Config, es: seq<Step>)
    ensures forall g | g in Run(cfg, es).grants :: Vouched(cfg, g)
  {
    if es != [] {
      var s, e := Run(cfg, es[..|es| - 1]), es[|es| - 1];
      GrantsVouched(cfg, es[..|es| - 1]);
      Reachable(cfg, es[..|es| - 1]);
      if Enabled(cfg, s, e) && e.Commit? {
        assert LinkAuth(cfg, s, e.l);
        var ev := s.links[e.l].phase.ev;
        CheckedExact(cfg, s.links[e.l].key, ev.blob, ev.at, ev.grant);
        assert Vouched(cfg, ev.grant);
      } else {
        GrantsOnlyByCommit(cfg, s, e);
      }
    }
  }

  lemma GrantsOnlyByCommit(cfg: Config, s: State, e: Step)
    requires !e.Commit? || !Enabled(cfg, s, e)
    ensures Next(cfg, s, e).grants == s.grants
  {
    if !e.Commit? && !e.MirrorMeshnet? && !e.Register? && !e.TakeDecide? {
      OwnersKept(cfg, s, e);
    }
  }

  /** Whatever the interleaving of handshakes, re-authentications, reconnects and reports: bytes reported for a
      node are attributed to no meshnet, or to one the coordinator signed that very node into; on a relay that
      serves one meshnet, to that one. */
  lemma AttributionSound(cfg: Config, es: seq<Step>, d: Delta)
    requires d in Run(cfg, es).reports && d.meshnet != 0
    ensures exists g :: Vouched(cfg, g) && g.node == d.key && g.meshnet == d.meshnet
    ensures cfg.meshnet != 0 ==> d.meshnet == cfg.meshnet
  {
    AlwaysAttributed(cfg, es);
    GrantsVouched(cfg, es);
    var s := Run(cfg, es);
    var i :| 0 <= i < |s.reports| && s.reports[i] == d;
    assert Granted(s, s.reports[i].key, s.reports[i].meshnet);
    var g :| g in s.grants && g.node == d.key && g.meshnet == d.meshnet;
    assert Vouched(cfg, g);
  }

  // ------------------------------------------------------------- forwarding

  /** The meshnet mirrored on a link's counter. */
  function MeshnetOf(s: State, l: LinkId): int {
    if l in s.links && s.links[l].counter.Some? && s.links[l].counter.value in s.counters
    then s.counters[s.links[l].counter.value].meshnet else 0
  }

  predicate CrossesMeshnets(s: State, src: LinkId, dst: LinkId) {
    MeshnetOf(s, src) != 0 && MeshnetOf(s, dst) != 0 && MeshnetOf(s, src) != MeshnetOf(s, dst)
  }

  /** forward up to the queue: the link whose queue takes the packet, given the rate limiter's answer. */
  function Forward(s: State, src: LinkId, dst: Key, allow: bool): Option<LinkId> {
    if dst !in s.clients then None
    else if CrossesMeshnets(s, src, s.clients[dst]) then None
    else if !allow then None
    else Some(s.clients[dst])
  }

  lemma MeshnetVouched(cfg: Config, es: seq<Step>, l: LinkId)
    requires l in Run(cfg, es).links && MeshnetOf(Run(cfg, es), l) != 0
    ensures var s := Run(cfg, es);
            exists g :: Vouched(cfg, g) && g.node == s.links[l].key && g.meshnet == MeshnetOf(s, l)
  {
    Reachable(cfg, es);
    AlwaysAttributed(cfg, es);
    GrantsVouched(cfg, es);
    var s := Run(cfg, es);
    assert LinkCounterOk(s, l);
    var c := s.counters[s.links[l].counter.value];
    assert Granted(s, c.key, c.meshnet);
    var g :| g in s.grants && g.node == c.key && g.meshnet == c.meshnet;
    assert Vouched(cfg, g);
  }

  /** In every reachable state a packet is queued on the registered link of the node it is addressed to, and when
      both ends are attributed the coordinator signed sender and receiver into one meshnet. */
  lemma ForwardStaysInMeshnet(cfg: Config, es: seq<Step>, src: LinkId, dst: Key, allow: bool)
    requires var s := Run(cfg, es); src in s.links && Forward(s, src, dst, allow).Some?
    ensures var s := Run(cfg, es);
            var to := Forward(s, src, dst, allow).value;
            && to in s.links && s.links[to].key == dst && s.links[to].counter.Some?
            && (MeshnetOf(s, src) != 0 && MeshnetOf(s, to) != 0 ==>
                  exists g, h :: Vouched(cfg, g) && Vouched(cfg, h)
                                 && g.node == s.links[src].key && h.node == dst && g.meshnet == h.meshnet)
  {
    Reachable(cfg, es);
    var s := Run(cfg, es);
    assert ClientOk(s, dst);
    var to := s.clients[dst];
    if MeshnetOf(s, src) != 0 && MeshnetOf(s, to) != 0 {
      MeshnetVouched(cfg, es, src);
      MeshnetVouched(cfg, es, to);
      var g :| Vouched(cfg, g) && g.node == s.links[src].key && g.meshnet == MeshnetOf(s, src);
      var h :| Vouched(cfg, h) && h.node == dst && h.meshnet == MeshnetOf(s, to);
      assert g.meshnet == h.meshnet;
    }
  }
}
