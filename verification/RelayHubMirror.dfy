/** The copy of a link's meshnet on its usage counter, which forwarding and reports read: when it is the link's own. */
module RelayHubMirror {
  import opened Collections
  import opened DerpFrames
  import opened RelayHub
  import opened RelayHubInvariants
  import opened RelayHubUsage
  import opened RelayHubSafety
  import opened RelayHubAttribution
  import opened RelayHubRegistry
  import opened RelayHubRuns
  import DerpAuth
  import RelayGrants

  /** Another link stored last, and another meshnet than this one's: a link that was evicted while it was
      re-authenticating. Or this link registered without a meshnet over an older attribution. */
  predicate Overwritten(cfg: Config, es: seq<Step>, l: LinkId) {
    es != []
    && var before, e := es[..|es| - 1], es[|es| - 1];
       var s := Run(cfg, before);
       if Enabled(cfg, s, e) && Stores(s, e, l) then StoresOther(s, e, l) else Overwritten(cfg, before, l)
  }

  /** The step stores a meshnet into the link's counter, or attaches the counter to the link. */
  predicate Stores(s: State, e: Step, l: LinkId) {
    l in s.links
    && match e
       case Register(m) => m == l
       case MirrorMeshnet(m) =>
         m == l || (m in s.links && s.links[l].counter.Some? && s.links[m].counter == s.links[l].counter)
       case _ => false
  }

  predicate StoresOther(s: State, e: Step, l: LinkId)
    requires Stores(s, e, l)
  {
    match e
    case Register(_) =>
      var key := s.links[l].key;
      s.links[l].meshnet == 0 && key in s.usage && s.usage[key] in s.counters && s.counters[s.usage[key]].meshnet != 0
    case MirrorMeshnet(m) => m != l && s.links[m].phase.Mirror? && s.links[m].phase.meshnet != s.links[l].meshnet
    case _ => false
  }

  /** The counter the map holds for a registered node carries its link's meshnet, exactly if nothing overwrote it;
      a link between accepting a new grant and storing its meshnet is not settled. */
  ghost predicate MirrorOk(cfg: Config, es: seq<Step>, k: Key)
    requires k in Run(cfg, es).clients
  {
    var s := Run(cfg, es);
    var l := s.clients[k];
    && l in s.links && k in s.usage && s.usage[k] in s.counters
    && (!s.links[l].phase.Mirror? ==>
          (s.counters[s.usage[k]].meshnet == s.links[l].meshnet <==> !Overwritten(cfg, es, l)))
  }

  /** A meshnet waiting to be stored is the link's own. */
  ghost predicate WaitingOwn(s: State) {
    forall l | l in s.links && s.links[l].phase.Mirror? :: s.links[l].phase.meshnet == s.links[l].meshnet
  }

  ghost predicate AllMirrored(cfg: Config, es: seq<Step>) {
    WaitingOwn(Run(cfg, es)) && forall k | k in Run(cfg, es).clients :: MirrorOk(cfg, es, k)
  }

  // ---------------------------------------------------------------- one step

  lemma OverwrittenSnoc(cfg: Config, es: seq<Step>, e: Step, l: LinkId)
    ensures var s := Run(cfg, es);
            Overwritten(cfg, es + [e], l) <==>
            if Enabled(cfg, s, e) && Stores(s, e, l) then StoresOther(s, e, l) else Overwritten(cfg, es, l)
  {
    assert (es + [e])[..|es|] == es;
  }

  /** The node's registration, its counter's meshnet and its link's are as before. */
  predicate Steady(s: State, s': State, k: Key) {
    && k in s.clients && k in s'.clients && s'.clients[k] == s.clients[k]
    && k in s.usage && k in s'.usage && s'.usage[k] == s.usage[k]
    && s.usage[k] in s.counters && s.usage[k] in s'.counters
    && s'.counters[s.usage[k]].meshnet == s.counters[s.usage[k]].meshnet
    && s.clients[k] in s.links && s.clients[k] in s'.links && SameMeshnet(s.links[s.clients[k]], s'.links[s.clients[k]])
  }

  predicate SameMeshnet(a: Link, b: Link) {
    b.meshnet == a.meshnet && (b.phase.Mirror? <==> a.phase.Mirror?) && (b.phase.Mirror? ==> b.phase == a.phase)
  }

  lemma SteadyOk(cfg: Config, es: seq<Step>, e: Step, k: Key)
    requires var s := Run(cfg, es);
             && k in s.clients && MirrorOk(cfg, es, k) && Steady(s, Next(cfg, s, e), k)
             && !(Enabled(cfg, s, e) && Stores(s, e, s.clients[k]))
    ensures k in Run(cfg, es + [e]).clients && MirrorOk(cfg, es + [e], k)
  {
    RunSnoc(cfg, es, e);
    OverwrittenSnoc(cfg, es, e, Run(cfg, es).clients[k]);
  }

  // ------------------------------------------------- steps that store nothing

  lemma PhaseMeshnet(cfg: Config, s: State, e: Step, l: LinkId)
    requires Enabled(cfg, s, e) && PhaseOnly(e) && l in s.links && e != MirrorMeshnet(l)
    ensures l in Next(cfg, s, e).links && SameMeshnet(s.links[l], Next(cfg, s, e).links[l])
  {
    PhaseEffect(cfg, s, e);
    if e.l == l {
      NotWaiting(cfg, s, e);
    }
  }

  lemma NotWaiting(cfg: Config, s: State, e: Step)
    requires Enabled(cfg, s, e) && PhaseOnly(e) && !e.MirrorMeshnet?
    ensures !s.links[e.l].phase.Mirror? && !NewPhase(cfg, s, e).Mirror?
  {
    PhaseLeads(cfg, s, e);
  }

  lemma SweptMeshnet(s: State, ch: DerpAuth.Challenge, eph: Key, l: LinkId)
    requires s.sweeper.Acting? && s.sweeper.l in s.links && l in s.links
    ensures l in Swept(s, ch, eph).links && SameMeshnet(s.links[l], Swept(s, ch, eph).links[l])
  {
    var a := s.sweeper;
    match Judge(a.now, a.expiry, a.pending)
    case LeaveAlone => assert Swept(s, ch, eph).links == s.links;
    case CloseLink => assert Swept(s, ch, eph).links == s.links[a.l := s.links[a.l].(open := false)];
    case Rechallenge =>
  }

  /** Only its own Commit and MirrorMeshnet change a link's meshnet or whether it waits to store it. */
  lemma MeshnetKept(cfg: Config, s: State, e: Step, l: LinkId)
    requires Enabled(cfg, s, e) && l in s.links && e != Commit(l) && e != MirrorMeshnet(l)
    ensures l in Next(cfg, s, e).links && SameMeshnet(s.links[l], Next(cfg, s, e).links[l])
  {
    if LinksSame(e) {
      LinksSameEffect(cfg, s, e);
    } else if PhaseOnly(e) {
      PhaseMeshnet(cfg, s, e, l);
    } else {
      match e
      case Accept(_, _, _) =>
      case FirstChallenge(_, _, _) =>
      case Commit(_) =>
      case Register(m) => RegisterMeshnet(cfg, s, m, l);
      case SweepAct(ch, eph) => SweptMeshnet(s, ch, eph, l);
    }
  }

  lemma RegisterMeshnet(cfg: Config, s: State, m: LinkId, l: LinkId)
    requires Enabled(cfg, s, Register(m)) && l in s.links
    ensures l in Registered(s, m).links && SameMeshnet(s.links[l], Registered(s, m).links[l])
  {
  }

  lemma ClientsKept(cfg: Config, s: State, e: Step, k: Key)
    requires !e.Register? && k in Next(cfg, s, e).clients
    ensures k in s.clients && Next(cfg, s, e).clients[k] == s.clients[k]
  {
    if LinksSame(e) {
      LinksSameClients(cfg, s, e);
    } else if PhaseOnly(e) && Enabled(cfg, s, e) && !e.Unregister? {
      PhaseClients(cfg, s, e);
    }
  }

  lemma UsageKept(cfg: Config, s: State, e: Step)
    requires !e.Register? && !e.TakeDecide?
    ensures Next(cfg, s, e).usage == s.usage
  {
    if LinksSame(e) {
      LinksSameKeys(cfg, s, e);
    } else if PhaseOnly(e) {
      PhaseKeys(cfg, s, e);
    }
  }

  lemma StoresKept(cfg: Config, s: State, e: Step)
    requires !e.Register? && !e.MirrorMeshnet?
    ensures SameCounters(s, Next(cfg, s, e))
  {
    if !e.Commit? && !e.TakeDecide? {
      OwnersKept(cfg, s, e);
    }
  }

  lemma EntryKept(cfg: Config, s: State, e: Step, k: Key)
    requires !e.Register? && k in s.usage && k in s.clients
    ensures k in Next(cfg, s, e).usage && Next(cfg, s, e).usage[k] == s.usage[k]
  {
    if e.TakeDecide? {
      DecideKeepsEntry(cfg, s, k);
    } else {
      UsageKept(cfg, s, e);
    }
  }

  lemma DecideKeepsEntry(cfg: Config, s: State, k: Key)
    requires k in s.usage && k in s.clients
    ensures k in Next(cfg, s, TakeDecide).usage && Next(cfg, s, TakeDecide).usage[k] == s.usage[k]
  {
  }

  lemma QuietSteady(cfg: Config, s: State, e: Step, k: Key)
    requires Enabled(cfg, s, e) && Registry(s) && Registry(Next(cfg, s, e)) && k in Next(cfg, s, e).clients
    requires !e.Register? && !e.MirrorMeshnet?
    requires k in s.clients ==> e != Commit(s.clients[k])
    ensures Steady(s, Next(cfg, s, e), k)
  {
    var s' := Next(cfg, s, e);
    ClientsKept(cfg, s, e, k);
    assert ClientOk(s, k) && UsageOk(s, k);
    MeshnetKept(cfg, s, e, s.clients[k]);
    StoresKept(cfg, s, e);
    EntryKept(cfg, s, e, k);
    assert UsageOk(s', k);
  }

  // ----------------------------------------------------- steps that store one

  lemma MirrorElsewhere(cfg: Config, s: State, m: LinkId, k: Key)
    requires Enabled(cfg, s, MirrorMeshnet(m)) && Registry(s) && k in s.clients
    requires m != s.clients[k] && s.links[m].counter != Some(s.usage[k])
    ensures Steady(s, Next(cfg, s, MirrorMeshnet(m)), k)
  {
    assert ClientOk(s, k) && UsageOk(s, k);
  }

  /** The link's own store, or another's into the same counter: the counter then carries what was stored. */
  lemma MirrorHere(cfg: Config, s: State, m: LinkId, k: Key)
    requires Enabled(cfg, s, MirrorMeshnet(m)) && Registry(s) && k in s.clients
    requires s.links[m].counter == Some(s.usage[k])
    ensures var s' := Next(cfg, s, MirrorMeshnet(m));
            && k in s'.clients && s'.clients[k] == s.clients[k] && s.clients[k] in s'.links
            && k in s'.usage && s'.usage[k] == s.usage[k] && s.usage[k] in s'.counters
            && s'.counters[s.usage[k]].meshnet == s.links[m].phase.meshnet
            && s'.links[s.clients[k]].meshnet == s.links[s.clients[k]].meshnet
            && (m != s.clients[k] ==> s'.links[s.clients[k]] == s.links[s.clients[k]])
  {
    assert ClientOk(s, k) && UsageOk(s, k);
  }

  lemma MirrorStep(cfg: Config, es: seq<Step>, m: LinkId, k: Key)
    requires AllMirrored(cfg, es) && Registry(Run(cfg, es)) && Enabled(cfg, Run(cfg, es), MirrorMeshnet(m))
    requires k in Run(cfg, es).clients
    ensures var all := es + [MirrorMeshnet(m)]; k in Run(cfg, all).clients && MirrorOk(cfg, all, k)
  {
    var s, e := Run(cfg, es), MirrorMeshnet(m);
    var l := s.clients[k];
    assert MirrorOk(cfg, es, k) && ClientOk(s, k);
    RunSnoc(cfg, es, e);
    OverwrittenSnoc(cfg, es, e, l);
    if s.links[m].counter == Some(s.usage[k]) {
      MirrorHere(cfg, s, m, k);
    } else {
      MirrorElsewhere(cfg, s, m, k);
      SteadyOk(cfg, es, e, k);
    }
  }

  lemma RegisterElsewhere(s: State, m: LinkId, k: Key)
    requires Registry(s) && m in s.links && k in s.clients && k != s.links[m].key
    ensures s.clients[k] in s.links && s.clients[k] != m
    ensures var s' := Registered(s, m);
            && k in s'.clients && s'.clients[k] == s.clients[k] && k in s.usage && k in s'.usage
            && s'.usage[k] == s.usage[k] && s.usage[k] in s.counters && s.usage[k] in s'.counters
            && s'.counters[s.usage[k]].meshnet == s.counters[s.usage[k]].meshnet
  {
    assert ClientOk(s, k) && UsageOk(s, k);
    assert s.links[m].key in s.usage ==> UsageOk(s, s.links[m].key);
    assert s.usage[k] < s.nextCounter;
  }

  lemma RegisterHere(s: State, m: LinkId)
    requires Registry(s) && m in s.links
    ensures var s', k := Registered(s, m), s.links[m].key;
            && k in s'.clients && s'.clients[k] == m && m in s'.links && s'.links[m].meshnet == s.links[m].meshnet
            && k in s'.usage && s'.usage[k] in s'.counters
            && s'.counters[s'.usage[k]].meshnet ==
               (if s.links[m].meshnet != 0 then s.links[m].meshnet
                else if k in s.usage then s.counters[s.usage[k]].meshnet else 0)
  {
    assert s.links[m].key in s.usage ==> UsageOk(s, s.links[m].key);
  }

  lemma RegisterStep(cfg: Config, es: seq<Step>, m: LinkId, k: Key)
    requires AllMirrored(cfg, es) && Registry(Run(cfg, es)) && Enabled(cfg, Run(cfg, es), Register(m))
    requires k in Run(cfg, es + [Register(m)]).clients
    ensures MirrorOk(cfg, es + [Register(m)], k)
  {
    var s, e := Run(cfg, es), Register(m);
    RunSnoc(cfg, es, e);
    assert Next(cfg, s, e) == Registered(s, m);
    if k == s.links[m].key {
      assert k in s.usage ==> UsageOk(s, k);
      RegisterHere(s, m);
      OverwrittenSnoc(cfg, es, e, m);
    } else {
      RegisterElsewhere(s, m, k);
      RegisterMeshnet(cfg, s, m, s.clients[k]);
      assert MirrorOk(cfg, es, k);
      SteadyOk(cfg, es, e, k);
    }
  }

  // ---------------------------------------------------------------- every run

  lemma WaitingStep(cfg: Config, s: State, e: Step)
    requires WaitingOwn(s)
    ensures WaitingOwn(Next(cfg, s, e))
  {
    var s' := Next(cfg, s, e);
    if Enabled(cfg, s, e) {
      forall l | l in s'.links && s'.links[l].phase.Mirror? ensures s'.links[l].phase.meshnet == s'.links[l].meshnet {
        if e != Commit(l) && e != MirrorMeshnet(l) && l in s.links {
          MeshnetKept(cfg, s, e, l);
        } else if l !in s.links {
          NewLink(cfg, s, e, l);
        }
      }
    }
  }

  lemma QuietStep(cfg: Config, es: seq<Step>, e: Step, k: Key)
    requires AllMirrored(cfg, es) && Registry(Run(cfg, es)) && Registry(Run(cfg, es + [e]))
    requires Enabled(cfg, Run(cfg, es), e) && !e.Register? && !e.MirrorMeshnet? && k in Run(cfg, es + [e]).clients
    ensures MirrorOk(cfg, es + [e], k)
  {
    var s := Run(cfg, es);
    RunSnoc(cfg, es, e);
    ClientsKept(cfg, s, e, k);
    assert MirrorOk(cfg, es, k);
    if e == Commit(s.clients[k]) {
      CommitWaits(cfg, s, k);
    } else {
      QuietSteady(cfg, s, e, k);
      SteadyOk(cfg, es, e, k);
    }
  }

  lemma CommitWaits(cfg: Config, s: State, k: Key)
    requires Registry(s) && k in s.clients && Enabled(cfg, s, Commit(s.clients[k]))
    ensures var s' := Next(cfg, s, Commit(s.clients[k]));
            && s'.clients == s.clients && s.clients[k] in s'.links && s'.links[s.clients[k]].phase.Mirror?
            && k in s'.usage && s'.usage[k] in s'.counters
  {
    assert ClientOk(s, k) && UsageOk(s, k);
  }

  lemma KeyStep(cfg: Config, es: seq<Step>, e: Step, k: Key)
    requires AllMirrored(cfg, es) && Registry(Run(cfg, es)) && Registry(Run(cfg, es + [e]))
    requires k in Run(cfg, es + [e]).clients
    ensures MirrorOk(cfg, es + [e], k)
  {
    var s := Run(cfg, es);
    RunSnoc(cfg, es, e);
    if !Enabled(cfg, s, e) {
      assert MirrorOk(cfg, es, k);
      OverwrittenSnoc(cfg, es, e, s.clients[k]);
    } else if e.Register? {
      RegisterStep(cfg, es, e.l, k);
    } else if e.MirrorMeshnet? {
      ClientsKept(cfg, s, e, k);
      MirrorStep(cfg, es, e.l, k);
    } else {
      QuietStep(cfg, es, e, k);
    }
  }

  lemma {:induction false} AlwaysMirrored(cfg: Config, es: seq<Step>)
    ensures AllMirrored(cfg, es)
  {
    if es != [] {
      var before, e := es[..|es| - 1], es[|es| - 1];
      assert before + [e] == es;
      AlwaysMirrored(cfg, before);
      Reachable(cfg, before);
      Reachable(cfg, es);
      RunSnoc(cfg, before, e);
      WaitingStep(cfg, Run(cfg, before), e);
      forall k | k in Run(cfg, es).clients ensures MirrorOk(cfg, es, k) {
        KeyStep(cfg, before, e, k);
      }
    }
  }

  // ---------------------------------------------------------------- promises

  /** A registered node's link is done storing what it was granted, and nobody stored over it. */
  ghost predicate Settled(cfg: Config, es: seq<Step>, k: Key)
    requires k in Run(cfg, es).clients
  {
    var l := Run(cfg, es).clients[k];
    l in Run(cfg, es).links && !Run(cfg, es).links[l].phase.Mirror? && !Overwritten(cfg, es, l)
  }

  /** In every reachable state, for every registered node whose link is not just storing a new grant's meshnet: the
      counter carries the meshnet of that link's grant if and only if the counter was not overwritten. */
  lemma MirrorExact(cfg: Config, es: seq<Step>, k: Key)
    requires k in Run(cfg, es).clients
    ensures var s := Run(cfg, es);
            var l := s.clients[k];
            && l in s.links && k in s.usage && s.usage[k] in s.counters
            && (!s.links[l].phase.Mirror? ==>
                  (s.counters[s.usage[k]].meshnet == s.links[l].meshnet <==> !Overwritten(cfg, es, l)))
  {
    AlwaysMirrored(cfg, es);
    assert MirrorOk(cfg, es, k);
  }

  /** Between settled nodes of a relay that requires authentication a packet the limiter allows is queued, on the link
      lookups find, if and only if the grants their links hold now do not name two different meshnets. */
  lemma ForwardByCurrentGrants(cfg: Config, es: seq<Step>, from: Key, dst: Key, allow: bool)
    requires cfg.require
    requires var s := Run(cfg, es); from in s.clients && dst in s.clients
    requires Settled(cfg, es, from) && Settled(cfg, es, dst)
    ensures var s := Run(cfg, es);
            var a, b := s.clients[from], s.clients[dst];
            && a in s.links && b in s.links && s.links[a].proof.Some? && s.links[b].proof.Some?
            && var g, h := s.links[a].proof.value.grant, s.links[b].proof.value.grant;
            && g.node == from && h.node == dst
            && Forward(s, a, dst, allow) ==
               if allow && (g.meshnet == h.meshnet || g.meshnet == 0 || h.meshnet == 0) then Some(b) else None
  {
    MirrorExact(cfg, es, from);
    MirrorExact(cfg, es, dst);
    RegisteredIsAdmitted(cfg, es, from);
    RegisteredIsAdmitted(cfg, es, dst);
    Reachable(cfg, es);
    var s := Run(cfg, es);
    assert ClientOk(s, from) && ClientOk(s, dst);
    assert LinkAuth(cfg, s, s.clients[from]) && LinkAuth(cfg, s, s.clients[dst]);
  }

  /** Whatever is settled: a packet is queued exactly if its addressee is registered, the limiter allows it, and the
      two counters do not carry two different meshnets. */
  lemma ForwardExact(cfg: Config, es: seq<Step>, src: LinkId, dst: Key, allow: bool)
    requires src in Run(cfg, es).links && Run(cfg, es).links[src].counter.Some?
    ensures var s := Run(cfg, es);
            && s.links[src].counter.value in s.counters
            && (dst in s.clients ==> dst in s.usage && s.usage[dst] in s.counters)
            && (Forward(s, src, dst, allow).Some? <==>
                  && allow && dst in s.clients
                  && var m, n := s.counters[s.links[src].counter.value].meshnet, s.counters[s.usage[dst]].meshnet;
                     m == n || m == 0 || n == 0)
            && (Forward(s, src, dst, allow).Some? ==> Forward(s, src, dst, allow).value == s.clients[dst])
  {
    Reachable(cfg, es);
    var s := Run(cfg, es);
    assert LinkCounterOk(s, src);
    if dst in s.clients {
      assert ClientOk(s, dst) && UsageOk(s, dst);
    }
  }

  // A relay without authentication.

  ghost predicate NoProofs(s: State) {
    s.grants == {} && forall l | l in s.links :: !s.links[l].phase.Opening? && !s.links[l].phase.Checked?
  }

  lemma PhaseNoProofs(cfg: Config, s: State, e: Step)
    requires !cfg.require && NoProofs(s) && PhaseOnly(e) && Enabled(cfg, s, e)
    ensures NoProofs(Next(cfg, s, e))
  {
    PhaseEffect(cfg, s, e);
    GrantsOnlyByCommit(cfg, s, e);
  }

  lemma StepNoProofs(cfg: Config, s: State, e: Step)
    requires !cfg.require && NoProofs(s)
    ensures NoProofs(Next(cfg, s, e))
  {
    if Enabled(cfg, s, e) {
      if LinksSame(e) {
        LinksSameEffect(cfg, s, e);
        GrantsOnlyByCommit(cfg, s, e);
      } else if PhaseOnly(e) {
        PhaseNoProofs(cfg, s, e);
      } else if e.SweepAct? {
        SweptPhases(s, e.ch, e.eph);
        SweptLinks(s, e.ch, e.eph);
      }
    }
  }

  lemma SweptLinks(s: State, ch: DerpAuth.Challenge, eph: Key)
    requires s.sweeper.Acting? && s.sweeper.l in s.links
    ensures Swept(s, ch, eph).links.Keys == s.links.Keys && Swept(s, ch, eph).grants == s.grants
  {
  }

  lemma {:induction false} AlwaysNoProofs(cfg: Config, es: seq<Step>)
    requires !cfg.require
    ensures NoProofs(Run(cfg, es))
  {
    if es != [] {
      AlwaysNoProofs(cfg, es[..|es| - 1]);
      StepNoProofs(cfg, Run(cfg, es[..|es| - 1]), es[|es| - 1]);
    }
  }

  /** With authentication off every registered addressee is reached: no counter ever carries a meshnet. */
  lemma OpenRelayForwards(cfg: Config, es: seq<Step>, src: LinkId, dst: Key, allow: bool)
    requires !cfg.require
    ensures var s := Run(cfg, es);
            && (forall c | c in s.counters :: s.counters[c].meshnet == 0)
            && Forward(s, src, dst, allow) == if allow && dst in s.clients then Some(s.clients[dst]) else None
  {
    AlwaysNoProofs(cfg, es);
    AlwaysAttributed(cfg, es);
    var s := Run(cfg, es);
    forall c | c in s.counters ensures s.counters[c].meshnet == 0 {
      assert Granted(s, s.counters[c].key, s.counters[c].meshnet);
    }
  }

  /** Bytes reported for a settled node are attributed to the meshnet of the grant its link holds now. */
  lemma ReportByCurrentGrant(cfg: Config, es: seq<Step>, k: Key)
    requires var s := Run(cfg, es);
             && Enabled(cfg, s, TakeDecide) && s.take.value.visit.value.key == k && k in s.clients
             && Next(cfg, s, TakeDecide).reports != s.reports
    requires Settled(cfg, es, k)
    ensures var s, s' := Run(cfg, es), Next(cfg, Run(cfg, es), TakeDecide);
            && s.clients[k] in s.links && |s'.reports| == |s.reports| + 1
            && s'.reports[|s.reports|].key == k && s'.reports[|s.reports|].meshnet == s.links[s.clients[k]].meshnet
  {
    MirrorExact(cfg, es, k);
    Reachable(cfg, es);
    var s := Run(cfg, es);
    assert TakeOk(s);
    assert Next(cfg, s, TakeDecide) == Decided(s);
  }

  /** How a counter is overwritten: a re-authenticated link stores its meshnet after its successor registered. */
  lemma OverwrittenBy(cfg: Config, s: State, a: LinkId, b: LinkId)
    requires Registry(s) && a in s.links && b in s.links && a != b && s.links[a].key == s.links[b].key
    requires s.links[a].phase.Mirror? && s.links[a].counter.Some? && Enabled(cfg, s, Register(b))
    requires s.links[a].key in s.clients && s.clients[s.links[a].key] == a
    requires s.links[b].meshnet != 0 && s.links[a].phase.meshnet != s.links[b].meshnet
    ensures var end, k := Next(cfg, Next(cfg, s, Register(b)), MirrorMeshnet(a)), s.links[b].key;
            && k in end.clients && end.clients[k] == b && b in end.links && end.links[b].meshnet == s.links[b].meshnet
            && k in end.usage && end.usage[k] in end.counters
            && end.counters[end.usage[k]].meshnet == s.links[a].phase.meshnet
            && end.counters[end.usage[k]].meshnet != end.links[b].meshnet
  {
    var mid, k := Registered(s, b), s.links[b].key;
    assert ClientOk(s, k) && UsageOk(s, k);
    RegisterHere(s, b);
    assert mid == Next(cfg, s, Register(b));
    assert mid.links[a] == s.links[a].(open := false) && mid.usage[k] == s.usage[k];
  }

  /** The node connects and registers, is challenged again, and its new proof is accepted. */
  function ReauthSteps(w: World): seq<Step> {
    AdmitSteps(w.cfg, w.coord, w.n, w.g, w.d0) + [Register(w.n.l)] + SweepSteps(w.cfg, w.n.l, w.d1)
    + (AnswerSteps(w.cfg, w.coord, w.n, w.g, w.d1) + [Commit(w.n.l)])
  }

  lemma Reauthenticated(w: World)
    requires Plausible(w)
    ensures var s := Follow(w.cfg, Initial, ReauthSteps(w));
            && s.links.Keys == {w.n.l} && s.clients == map[NodeKey(w.cfg, w.n) := w.n.l]
            && s.links[w.n.l].phase == Mirror(w.g.meshnet) && s.links[w.n.l].key == NodeKey(w.cfg, w.n)
            && s.links[w.n.l].counter == Some(0) && s.take.None? && s.clock == 0
  {
    var cfg, l := w.cfg, w.n.l;
    var asked := AdmitSteps(cfg, w.coord, w.n, w.g, w.d0) + [Register(l)] + SweepSteps(cfg, l, w.d1);
    Rechallenged(w);
    var t := Follow(cfg, Initial, asked);
    AnswerCommits(cfg, w.coord, w.n, w.g, t, w.d1, Second(w));
    FollowConcat(cfg, Initial, asked, AnswerSteps(cfg, w.coord, w.n, w.g, w.d1) + [Commit(l)]);
  }

  /** Before it stores its meshnet, the node connects anew with a grant for another meshnet, and registers. */
  function OverwriteSteps(w: World, again: Node, g: RelayGrants.Grant): seq<Step> {
    ReauthSteps(w) + AdmitSteps(w.cfg, w.coord, again, g, w.d2)
  }

  /** From a fresh hub, for every such node: the registered link's traffic is attributed to, and forwarded under, the
      meshnet of the grant its predecessor held. */
  lemma OverwrittenRun(w: World, again: Node, g: RelayGrants.Grant)
    requires Plausible(w) && Entitled(w.cfg, w.coord, again, g) && again.priv == w.n.priv && again.l != w.n.l
    requires 0 <= g.expiry && g.meshnet != 0 && g.meshnet != w.g.meshnet
    ensures var es := OverwriteSteps(w, again, g) + [Register(again.l)] + [MirrorMeshnet(w.n.l)];
            var s, k := Run(w.cfg, es), NodeKey(w.cfg, again);
            && k in s.clients && s.clients[k] == again.l && again.l in s.links && s.links[again.l].meshnet == g.meshnet
            && k in s.usage && s.usage[k] in s.counters && s.counters[s.usage[k]].meshnet == w.g.meshnet
  {
    var cfg, es := w.cfg, OverwriteSteps(w, again, g);
    Reauthenticated(w);
    var s := Follow(cfg, Initial, ReauthSteps(w));
    Admits(cfg, w.coord, again, g, w.d2, s);
    FollowConcat(cfg, Initial, ReauthSteps(w), AdmitSteps(cfg, w.coord, again, g, w.d2));
    RunFollows(cfg, es);
    Reachable(cfg, es);
    RunSnoc(cfg, es, Register(again.l));
    RunSnoc(cfg, es + [Register(again.l)], MirrorMeshnet(w.n.l));
    OverwrittenBy(cfg, Run(cfg, es), w.n.l, again.l);
  }
}
