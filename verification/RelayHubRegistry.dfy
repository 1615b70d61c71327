/** One node, one link: what eviction on reconnect achieves, over every interleaving. */
module RelayHubRegistry {
  import opened DerpFrames
  import opened RelayHub
  import opened RelayHubInvariants
  import opened RelayHubUsage
  import opened RelayHubSafety
  import DerpAuth

  /** A link that registered, was not closed and has not left. */
  predicate Serving(k: Link) { k.counter.Some? && k.open && !k.phase.Gone? }

  predicate Holds(s: State, l: LinkId)
    requires l in s.links
  {
    s.links[l].key in s.clients && s.clients[s.links[l].key] == l
  }

  ghost predicate HolderInv(s: State) { forall l | l in s.links && Serving(s.links[l]) :: Holds(s, l) }

  /** No link starts to serve or changes its key, and the registry is the same. */
  predicate NoneServesAnew(s: State, s': State) {
    && s'.clients == s.clients
    && forall l | l in s'.links && Serving(s'.links[l]) ::
         l in s.links && Serving(s.links[l]) && s'.links[l].key == s.links[l].key
  }

  lemma HolderFrame(s: State, s': State)
    requires HolderInv(s) && NoneServesAnew(s, s')
    ensures HolderInv(s')
  {
    forall l | l in s'.links && Serving(s'.links[l]) ensures Holds(s', l) {
      assert Holds(s, l);
    }
  }

  lemma RegisterHolds(s: State, l: LinkId)
    requires HolderInv(s) && l in s.links
    ensures HolderInv(Registered(s, l))
  {
    var s' := Registered(s, l);
    forall m | m in s'.links && Serving(s'.links[m]) ensures Holds(s', m) {
      if m != l {
        assert Serving(s.links[m]) && Holds(s, m);
      }
    }
  }

  lemma UnregisterHolds(cfg: Config, s: State, l: LinkId)
    requires HolderInv(s) && Enabled(cfg, s, Unregister(l))
    ensures HolderInv(Next(cfg, s, Unregister(l)))
  {
    var s' := Next(cfg, s, Unregister(l));
    assert s'.links == s.links[l := s.links[l].(phase := Gone)];
    forall m | m in s'.links && Serving(s'.links[m]) ensures Holds(s', m) {
      assert m != l && Holds(s, m);
    }
  }

  lemma LinksSameClients(cfg: Config, s: State, e: Step)
    requires LinksSame(e)
    ensures Next(cfg, s, e).clients == s.clients
  {
    if TakeStep(e) {
      TakeClients(cfg, s, e);
    }
  }

  lemma TakeClients(cfg: Config, s: State, e: Step)
    requires TakeStep(e)
    ensures Next(cfg, s, e).clients == s.clients
  {
  }

  lemma PhaseClients(cfg: Config, s: State, e: Step)
    requires PhaseOnly(e) && !e.Unregister? && Enabled(cfg, s, e)
    ensures Next(cfg, s, e).clients == s.clients && !s.links[e.l].phase.Gone?
  {
  }

  lemma ChallengedServes(s: State, l: LinkId, ch: DerpAuth.Challenge, eph: Key, phase: Phase)
    requires l in s.links && (phase == s.links[l].phase || s.links[l].phase.Connected?)
    ensures NoneServesAnew(s, Challenged(s, l, ch, eph, phase))
  {
  }

  lemma SweptServes(s: State, ch: DerpAuth.Challenge, eph: Key)
    requires s.sweeper.Acting? && s.sweeper.l in s.links
    ensures NoneServesAnew(s, Swept(s, ch, eph))
  {
    var a := s.sweeper;
    match Judge(a.now, a.expiry, a.pending)
    case LeaveAlone => assert Swept(s, ch, eph).links == s.links;
    case CloseLink => assert Swept(s, ch, eph).links == s.links[a.l := s.links[a.l].(open := false)];
    case Rechallenge => ChallengedServes(s, a.l, ch, eph, s.links[a.l].phase);
  }

  lemma OtherServes(cfg: Config, s: State, e: Step)
    requires Enabled(cfg, s, e) && !e.Register? && !e.Unregister?
    ensures NoneServesAnew(s, Next(cfg, s, e))
  {
    if LinksSame(e) {
      LinksSameEffect(cfg, s, e);
      LinksSameClients(cfg, s, e);
    } else if PhaseOnly(e) {
      PhaseEffect(cfg, s, e);
      PhaseClients(cfg, s, e);
    } else {
      match e
      case Accept(_, _, _) =>
      case FirstChallenge(l, ch, eph) => ChallengedServes(s, l, ch, eph, Handshake);
      case Commit(_) =>
      case SweepAct(ch, eph) => SweptServes(s, ch, eph);
    }
  }

  lemma StepHolds(cfg: Config, s: State, e: Step)
    requires HolderInv(s)
    ensures HolderInv(Next(cfg, s, e))
  {
    if Enabled(cfg, s, e) {
      match e
      case Register(l) => RegisterHolds(s, l);
      case Unregister(l) => UnregisterHolds(cfg, s, l);
      case _ =>
        OtherServes(cfg, s, e);
        HolderFrame(s, Next(cfg, s, e));
    }
  }

  lemma {:induction false} AlwaysHolds(cfg: Config, es: seq<Step>)
    ensures HolderInv(Run(cfg, es))
  {
    if es != [] {
      AlwaysHolds(cfg, es[..|es| - 1]);
      StepHolds(cfg, Run(cfg, es[..|es| - 1]), es[|es| - 1]);
    }
  }

  /** In every reachable state a node has at most one open link that serves it, and that link is the one lookups
      find: a reconnect leaves no second link behind, and a link that leaves late does not unregister its successor. */
  lemma OneLinkPerNode(cfg: Config, es: seq<Step>, l: LinkId)
    requires l in Run(cfg, es).links && Serving(Run(cfg, es).links[l])
    ensures var s := Run(cfg, es);
            && s.links[l].key in s.clients && s.clients[s.links[l].key] == l
            && forall m | m in s.links && m != l && s.links[m].key == s.links[l].key :: !Serving(s.links[m])
  {
    AlwaysHolds(cfg, es);
    var s := Run(cfg, es);
    assert Holds(s, l);
    forall m | m in s.links && m != l && s.links[m].key == s.links[l].key ensures !Serving(s.links[m]) {
      assert Serving(s.links[m]) ==> Holds(s, m);
    }
  }

  /** Registering closes the link it replaces and no other, and leaves every other registration alone. */
  lemma EvictsOnlyItsOwn(cfg: Config, es: seq<Step>, l: LinkId)
    requires Enabled(cfg, Run(cfg, es), Register(l))
    ensures var s, s' := Run(cfg, es), Next(cfg, Run(cfg, es), Register(l));
            var k := s.links[l].key;
            && s'.clients == s.clients[k := l]
            && forall m | m in s.links && m != l ::
                 m in s'.links
                 && s'.links[m] == s.links[m].(open := s.links[m].open && !(k in s.clients && s.clients[k] == m))
  {
    Reachable(cfg, es);
    assert Next(cfg, Run(cfg, es), Register(l)) == Registered(Run(cfg, es), l);
    EvictsExact(Run(cfg, es), l);
  }

  lemma EvictsExact(s: State, l: LinkId)
    requires Registry(s) && l in s.links
    ensures var s', k := Registered(s, l), s.links[l].key;
            && s'.clients == s.clients[k := l]
            && forall m | m in s.links && m != l ::
                 m in s'.links
                 && s'.links[m] == s.links[m].(open := s.links[m].open && !(k in s.clients && s.clients[k] == m))
  {
    var k := s.links[l].key;
    if k in s.clients {
      assert ClientOk(s, k);
    }
  }

  // ------------------------------------------------------------ who is registered

  /** No registered link has left. */
  ghost predicate NoneGone(s: State) {
    forall k | k in s.clients :: s.clients[k] in s.links && !s.links[s.clients[k]].phase.Gone?
  }

  lemma PhaseNotGone(cfg: Config, s: State, e: Step, l: LinkId)
    requires Enabled(cfg, s, e) && PhaseOnly(e) && !e.Unregister? && l in s.links && s.links[l].counter.Some?
    requires !s.links[l].phase.Gone?
    ensures l in Next(cfg, s, e).links && !Next(cfg, s, e).links[l].phase.Gone?
  {
    PhaseEffect(cfg, s, e);
  }

  lemma UnregisterNoneGone(cfg: Config, s: State, l: LinkId)
    requires Registry(s) && NoneGone(s) && Enabled(cfg, s, Unregister(l))
    ensures NoneGone(Next(cfg, s, Unregister(l)))
  {
    var s' := Next(cfg, s, Unregister(l));
    assert s'.links == s.links[l := s.links[l].(phase := Gone)];
    forall k | k in s'.clients ensures s'.clients[k] in s'.links && !s'.links[s'.clients[k]].phase.Gone? {
      assert k in s.clients && s'.clients[k] == s.clients[k] && ClientOk(s, k);
    }
  }

  lemma RegisterNoneGone(s: State, l: LinkId)
    requires NoneGone(s) && l in s.links
    ensures NoneGone(Registered(s, l))
  {
  }

  lemma StepNoneGone(cfg: Config, s: State, e: Step)
    requires Registry(s) && NoneGone(s)
    ensures NoneGone(Next(cfg, s, e))
  {
    var s' := Next(cfg, s, e);
    if Enabled(cfg, s, e) {
      if e.Unregister? {
        UnregisterNoneGone(cfg, s, e.l);
      } else if e.Register? {
        RegisterNoneGone(s, e.l);
      } else if LinksSame(e) {
        LinksSameEffect(cfg, s, e);
        LinksSameClients(cfg, s, e);
      } else if PhaseOnly(e) {
        PhaseClients(cfg, s, e);
        forall k | k in s'.clients ensures s'.clients[k] in s'.links && !s'.links[s'.clients[k]].phase.Gone? {
          assert ClientOk(s, k);
          PhaseNotGone(cfg, s, e, s.clients[k]);
        }
      } else {
        LinkNoneGone(cfg, s, e);
      }
    }
  }

  lemma LinkNoneGone(cfg: Config, s: State, e: Step)
    requires NoneGone(s) && Enabled(cfg, s, e) && (e.Accept? || e.FirstChallenge? || e.Commit? || e.SweepAct?)
    ensures NoneGone(Next(cfg, s, e))
  {
    if e.SweepAct? {
      SweptServes(s, e.ch, e.eph);
      SweptPhases(s, e.ch, e.eph);
    }
  }

  lemma SweptPhases(s: State, ch: DerpAuth.Challenge, eph: Key)
    requires s.sweeper.Acting? && s.sweeper.l in s.links
    ensures forall l | l in s.links ::
              l in Swept(s, ch, eph).links && Swept(s, ch, eph).links[l].phase == s.links[l].phase
  {
  }

  lemma {:induction false} AlwaysNoneGone(cfg: Config, es: seq<Step>)
    ensures NoneGone(Run(cfg, es))
  {
    if es != [] {
      AlwaysNoneGone(cfg, es[..|es| - 1]);
      Reachable(cfg, es[..|es| - 1]);
      StepNoneGone(cfg, Run(cfg, es[..|es| - 1]), es[|es| - 1]);
    }
  }

  /** In every reachable state, an open link that registered is the one lookups find for its node if and only if it has
      not left. */
  lemma RegisteredExact(cfg: Config, es: seq<Step>, l: LinkId)
    requires var s := Run(cfg, es); l in s.links && s.links[l].open && s.links[l].counter.Some?
    ensures var s := Run(cfg, es);
            (s.links[l].key in s.clients && s.clients[s.links[l].key] == l) <==> !s.links[l].phase.Gone?
  {
    AlwaysHolds(cfg, es);
    AlwaysNoneGone(cfg, es);
    assert Serving(Run(cfg, es).links[l]) ==> Holds(Run(cfg, es), l);
  }
}
