/** What every reachable state of the relay hub keeps. */
module RelayHubInvariants {
  import opened Collections
  import opened DerpFrames
  import opened RelayHub
  import DerpAuth

  // ------------------------------------------------------- kinds of steps

  /** Steps that leave every link as it is. */
  predicate LinksSame(e: Step) {
    e.Tick? || e.Receive? || e.Delivered? || e.SweepStart? || e.Snapshot? || e.SweepRead? || e.SweepEnd?
    || e.TakeStart? || e.TakeIn? || e.TakeOut? || e.TakeDecide? || e.TakeEnd?
  }

  /** Steps that only move one link's goroutine on. */
  predicate PhaseOnly(e: Step) { e.ReadPending? || e.OpenAndCheck? || e.MirrorMeshnet? || e.Quit? || e.Unregister? }

  predicate SameChallenges(s: State, s': State) {
    s'.issued == s.issued && s'.accepted == s.accepted && s'.nextChallenge == s.nextChallenge
  }

  lemma LinksSameEffect(cfg: Config, s: State, e: Step)
    requires LinksSame(e)
    ensures var s' := Next(cfg, s, e); s'.links == s.links && SameChallenges(s, s') && s'.clock >= s.clock
  {
  }

  /** Where a phase step leads: on to checking the outstanding challenge, to its verdict, or to a plain phase. */
  predicate Leads(cfg: Config, s: State, k: Link, phase: Phase) {
    match phase
    case Opening(p, _) => k.pending == Some(p)
    case Checked(ev) =>
      k.phase.Opening? && ev.p == k.phase.p && ev.at == s.clock && Proven(cfg, k.key, k.binding, ev)
    case Live => k.counter.Some?
    case Leaving => k.counter.Some?
    case Gone => true
    case _ => false
  }

  lemma OpenedLeads(cfg: Config, s: State, l: LinkId)
    requires l in s.links && s.links[l].phase.Opening?
    ensures Leads(cfg, s, s.links[l], Opened(cfg, s, l))
  {
  }

  function NewPhase(cfg: Config, s: State, e: Step): Phase
    requires PhaseOnly(e) && Enabled(cfg, s, e)
  {
    var k := s.links[e.l];
    match e
    case ReadPending(_, payload) => if k.pending.None? then k.phase else Opening(k.pending.value, payload)
    case OpenAndCheck(l) => Opened(cfg, s, l)
    case MirrorMeshnet(_) => Live
    case Quit(_) => Failing(k)
    case Unregister(_) => Gone
  }

  lemma PhaseLeads(cfg: Config, s: State, e: Step)
    requires PhaseOnly(e) && Enabled(cfg, s, e)
    ensures NewPhase(cfg, s, e) == s.links[e.l].phase || Leads(cfg, s, s.links[e.l], NewPhase(cfg, s, e))
  {
    if e.OpenAndCheck? {
      OpenedLeads(cfg, s, e.l);
    }
  }

  lemma PhaseEffect(cfg: Config, s: State, e: Step)
    requires PhaseOnly(e) && Enabled(cfg, s, e)
    ensures var s' := Next(cfg, s, e);
            && s'.links == s.links[e.l := s.links[e.l].(phase := NewPhase(cfg, s, e))]
            && SameChallenges(s, s') && s'.clock == s.clock
  {
    var k := s.links[e.l];
    if e.ReadPending? && k.pending.None? {
      assert k.(phase := k.phase) == k;
      assert s.links[e.l := k] == s.links;
    }
  }

  /** A link that was not there before has just connected. */
  lemma NewLink(cfg: Config, s: State, e: Step, l: LinkId)
    requires l !in s.links && l in Next(cfg, s, e).links
    ensures Next(cfg, s, e).links[l].phase.Connected? && Next(cfg, s, e).links[l].proof.None?
  {
    if LinksSame(e) {
      LinksSameEffect(cfg, s, e);
    } else if PhaseOnly(e) && Enabled(cfg, s, e) {
      PhaseEffect(cfg, s, e);
    }
  }

  lemma RunSnoc(cfg: Config, es: seq<Step>, e: Step)
    ensures (es + [e])[..|es|] == es && Run(cfg, es + [e]) == Next(cfg, Run(cfg, es), e)
  {
  }

  // ------------------------------------------------------------ admission

  /** The challenge acceptProof is working on. */
  function Held(k: Link): Option<Pending> {
    match k.phase
    case Opening(p, _) => Some(p)
    case Checked(ev) => Some(ev.p)
    case _ => None
  }

  predicate IssuedOn(s: State, p: Pending, l: LinkId) { p.id in s.issued && s.issued[p.id] == l }

  /** The proof opens for this link's key and transport, and its grant passed every check at the time. */
  predicate Proven(cfg: Config, key: Key, binding: Option<Key>, ev: Evidence) {
    && OpenProof(cfg, binding, ev.p, key, ev.payload) == DerpAuth.Grant(ev.blob)
    && CheckGrant(cfg, key, ev.blob, ev.at) == Some(ev.grant)
  }

  /** Which phases come before and after registration. */
  predicate PhaseFits(k: Link) {
    match k.phase
    case Connected => k.counter.None?
    case Handshake => k.counter.None?
    case Authenticated => k.counter.None?
    case Mirror(_) => k.counter.Some?
    case Live => k.counter.Some?
    case Leaving => k.counter.Some?
    case _ => true
  }

  predicate LinkAuth(cfg: Config, s: State, l: LinkId)
    requires l in s.links
  {
    var k := s.links[l];
    && PhaseFits(k)
    && (cfg.require && (k.phase.Authenticated? || k.counter.Some?) ==> k.proof.Some?)
    && (k.proof.Some? ==>
          var ev := k.proof.value;
          && Proven(cfg, k.key, k.binding, ev) && 0 <= ev.at <= s.clock && IssuedOn(s, ev.p, l)
          && k.expiry == ev.grant.expiry && k.meshnet == ev.grant.meshnet)
    && (k.phase.Checked? ==> Proven(cfg, k.key, k.binding, k.phase.ev) && 0 <= k.phase.ev.at <= s.clock)
    && (k.pending.Some? ==> IssuedOn(s, k.pending.value, l))
    && (Held(k).Some? ==> IssuedOn(s, Held(k).value, l))
  }

  ghost predicate AuthInv(cfg: Config, s: State) {
    && s.clock >= 0
    && forall l | l in s.links :: LinkAuth(cfg, s, l)
  }

  /** Only link l changed, beyond whether connections are open. */
  predicate OnlyLink(s: State, s': State, l: LinkId) {
    && s'.clock >= s.clock
    && (forall id | id in s.issued :: id in s'.issued && s'.issued[id] == s.issued[id])
    && (forall m | m in s'.links && m != l :: m in s.links && s'.links[m] == s.links[m].(open := s'.links[m].open))
  }

  lemma AuthFrame(cfg: Config, s: State, s': State, l: LinkId)
    requires AuthInv(cfg, s) && OnlyLink(s, s', l)
    requires l in s'.links ==> LinkAuth(cfg, s', l)
    ensures AuthInv(cfg, s')
  {
    forall m | m in s'.links && m != l ensures LinkAuth(cfg, s', m) {
      assert LinkAuth(cfg, s, m);
      assert Held(s'.links[m]) == Held(s.links[m]);
    }
  }

  predicate FreshIds(s: State) { forall id | id in s.issued :: id < s.nextChallenge }

  lemma ChallengedAuth(cfg: Config, s: State, l: LinkId, ch: DerpAuth.Challenge, eph: Key, phase: Phase)
    requires AuthInv(cfg, s) && FreshIds(s) && l in s.links
    requires phase == s.links[l].phase || (phase == Handshake && s.links[l].phase.Connected?)
    ensures AuthInv(cfg, Challenged(s, l, ch, eph, phase))
  {
    assert LinkAuth(cfg, s, l);
    ChallengedLink(cfg, s, l, ch, eph, phase);
    AuthFrame(cfg, s, Challenged(s, l, ch, eph, phase), l);
  }

  lemma ChallengedLink(cfg: Config, s: State, l: LinkId, ch: DerpAuth.Challenge, eph: Key, phase: Phase)
    requires l in s.links && LinkAuth(cfg, s, l) && FreshIds(s)
    requires phase == s.links[l].phase || (phase == Handshake && s.links[l].phase.Connected?)
    ensures var s' := Challenged(s, l, ch, eph, phase); LinkAuth(cfg, s', l) && OnlyLink(s, s', l)
  {
    assert s.nextChallenge !in s.issued;
  }

  lemma PhaseAuth(cfg: Config, s: State, s': State, l: LinkId, phase: Phase)
    requires AuthInv(cfg, s) && l in s.links
    requires s'.links == s.links[l := s.links[l].(phase := phase)] && SameChallenges(s, s') && s'.clock == s.clock
    requires phase == s.links[l].phase || Leads(cfg, s, s.links[l], phase)
    ensures AuthInv(cfg, s')
  {
    PhaseLinkAuth(cfg, s, s', l, phase);
    AuthFrame(cfg, s, s', l);
  }

  lemma PhaseLinkAuth(cfg: Config, s: State, s': State, l: LinkId, phase: Phase)
    requires l in s.links && LinkAuth(cfg, s, l) && s.clock >= 0
    requires l in s'.links && s'.links[l] == s.links[l].(phase := phase)
    requires SameChallenges(s, s') && s'.clock == s.clock
    requires phase == s.links[l].phase || Leads(cfg, s, s.links[l], phase)
    ensures LinkAuth(cfg, s', l)
  {
    var k' := s'.links[l];
    assert PhaseFits(k');
    assert Held(k').Some? ==> IssuedOn(s', Held(k').value, l);
  }

  lemma CommittedAuth(cfg: Config, s: State, l: LinkId)
    requires AuthInv(cfg, s) && l in s.links && s.links[l].phase.Checked?
    ensures AuthInv(cfg, Committed(s, l))
  {
    assert LinkAuth(cfg, s, l);
    AuthFrame(cfg, s, Committed(s, l), l);
  }

  lemma RegisteredAuth(cfg: Config, s: State, l: LinkId)
    requires AuthInv(cfg, s) && Enabled(cfg, s, Register(l))
    ensures AuthInv(cfg, Registered(s, l))
  {
    assert LinkAuth(cfg, s, l);
    var s' := Registered(s, l);
    assert LinkAuth(cfg, s', l);
    AuthFrame(cfg, s, s', l);
  }

  lemma SameLinksAuth(cfg: Config, s: State, s': State)
    requires AuthInv(cfg, s) && s'.links == s.links && s'.clock >= s.clock && s'.issued == s.issued
    ensures AuthInv(cfg, s')
  {
    forall l | l in s'.links ensures LinkAuth(cfg, s', l) {
      assert LinkAuth(cfg, s, l);
    }
  }

  lemma ClosedAuth(cfg: Config, s: State, s': State, l: LinkId)
    requires AuthInv(cfg, s) && l in s.links && s'.links == s.links[l := s.links[l].(open := false)]
    requires s'.clock == s.clock && s'.issued == s.issued
    ensures AuthInv(cfg, s')
  {
    assert LinkAuth(cfg, s, l);
    assert Held(s'.links[l]) == Held(s.links[l]);
    assert LinkAuth(cfg, s', l);
    AuthFrame(cfg, s, s', l);
  }

  lemma SweptAuth(cfg: Config, s: State, ch: DerpAuth.Challenge, eph: Key)
    requires AuthInv(cfg, s) && FreshIds(s) && s.sweeper.Acting? && s.sweeper.l in s.links
    ensures AuthInv(cfg, Swept(s, ch, eph))
  {
    var a, s' := s.sweeper, Swept(s, ch, eph);
    match Judge(a.now, a.expiry, a.pending)
    case LeaveAlone => SameLinksAuth(cfg, s, s');
    case CloseLink => ClosedAuth(cfg, s, s', a.l);
    case Rechallenge =>
      ChallengedAuth(cfg, s, a.l, ch, eph, s.links[a.l].phase);
      SameLinksAuth(cfg, Challenged(s, a.l, ch, eph, s.links[a.l].phase), s');
  }

  lemma StepAuth(cfg: Config, s: State, e: Step)
    requires AuthInv(cfg, s) && FreshIds(s)
    ensures AuthInv(cfg, Next(cfg, s, e))
  {
    if Enabled(cfg, s, e) {
      if LinksSame(e) {
        LinksSameEffect(cfg, s, e);
        SameLinksAuth(cfg, s, Next(cfg, s, e));
      } else if PhaseOnly(e) {
        PhaseEffect(cfg, s, e);
        PhaseLeads(cfg, s, e);
        PhaseAuth(cfg, s, Next(cfg, s, e), e.l, NewPhase(cfg, s, e));
      } else {
        match e
        case Accept(l, _, _) => AuthFrame(cfg, s, Next(cfg, s, e), l);
        case FirstChallenge(l, ch, eph) => ChallengedAuth(cfg, s, l, ch, eph, Handshake);
        case Commit(l) => CommittedAuth(cfg, s, l);
        case Register(l) => RegisteredAuth(cfg, s, l);
        case SweepAct(ch, eph) => SweptAuth(cfg, s, ch, eph);
      }
    }
  }

  // ----------------------------------------------------------- challenges

  /** Outstanding and held challenges are unanswered; the outstanding one is the newest; one is outstanding for as
      long as a proof is being checked. */
  predicate ChallengeOk(s: State, k: Link) {
    && (k.pending.Some? ==> s.accepted[k.pending.value.id] == 0 && k.newest == Some(k.pending.value.id))
    && (Held(k).Some? ==> s.accepted[Held(k).value.id] == 0 && k.pending.Some?)
  }

  ghost predicate ChallengeInv(s: State) {
    && FreshIds(s)
    && (forall id | id in s.accepted :: id in s.issued && s.accepted[id] <= 1)
    && (forall l | l in s.links :: ChallengeOk(s, s.links[l]))
  }

  lemma ChallengeFrame(s: State, s': State)
    requires ChallengeInv(s)
    requires s'.issued == s.issued && s'.accepted == s.accepted && s'.nextChallenge == s.nextChallenge
    requires forall l | l in s'.links :: ChallengeOk(s, s'.links[l])
    ensures ChallengeInv(s')
  {
    forall l | l in s'.links ensures ChallengeOk(s', s'.links[l]) {
      assert ChallengeOk(s, s'.links[l]);
    }
  }

  lemma ChallengedChallenges(s: State, l: LinkId, ch: DerpAuth.Challenge, eph: Key, phase: Phase)
    requires ChallengeInv(s) && l in s.links
    requires phase == s.links[l].phase || phase == Handshake
    ensures ChallengeInv(Challenged(s, l, ch, eph, phase))
  {
    var s' := Challenged(s, l, ch, eph, phase);
    var id := s.nextChallenge;
    assert id !in s.accepted by { assert id !in s.issued; }
    forall m | m in s'.links ensures ChallengeOk(s', s'.links[m]) {
      assert ChallengeOk(s, s.links[m]);
    }
  }

  lemma CommittedChallenges(cfg: Config, s: State, l: LinkId)
    requires ChallengeInv(s) && AuthInv(cfg, s) && l in s.links && s.links[l].phase.Checked?
    ensures ChallengeInv(Committed(s, l))
  {
    var s', id := Committed(s, l), s.links[l].phase.ev.p.id;
    assert LinkAuth(cfg, s, l) && ChallengeOk(s, s.links[l]);
    forall m | m in s'.links ensures ChallengeOk(s', s'.links[m]) {
      assert ChallengeOk(s, s.links[m]) && LinkAuth(cfg, s, m);
    }
  }

  lemma StepChallenges(cfg: Config, s: State, e: Step)
    requires ChallengeInv(s) && AuthInv(cfg, s)
    ensures ChallengeInv(Next(cfg, s, e))
  {
    if Enabled(cfg, s, e) {
      var s' := Next(cfg, s, e);
      if LinksSame(e) {
        LinksSameEffect(cfg, s, e);
        ChallengeFrame(s, s');
      } else if PhaseOnly(e) {
        PhaseEffect(cfg, s, e);
        PhaseLeads(cfg, s, e);
        assert ChallengeOk(s, s.links[e.l]);
        ChallengeFrame(s, s');
      } else {
        match e
        case Accept(l, _, _) => ChallengeFrame(s, s');
        case FirstChallenge(l, ch, eph) => ChallengedChallenges(s, l, ch, eph, Handshake);
        case Commit(l) => CommittedChallenges(cfg, s, l);
        case Register(l) => RegisteredChallenges(s, l);
        case SweepAct(ch, eph) => SweptChallenges(s, ch, eph);
      }
    }
  }

  lemma RegisteredChallenges(s: State, l: LinkId)
    requires ChallengeInv(s) && l in s.links
    ensures ChallengeInv(Registered(s, l))
  {
    var s' := Registered(s, l);
    forall m | m in s'.links ensures ChallengeOk(s, s'.links[m]) {
      assert ChallengeOk(s, s.links[m]);
    }
    ChallengeFrame(s, s');
  }

  lemma SweptChallenges(s: State, ch: DerpAuth.Challenge, eph: Key)
    requires ChallengeInv(s) && s.sweeper.Acting? && s.sweeper.l in s.links
    ensures ChallengeInv(Swept(s, ch, eph))
  {
    var a, s' := s.sweeper, Swept(s, ch, eph);
    if Judge(a.now, a.expiry, a.pending) == Rechallenge {
      ChallengedChallenges(s, a.l, ch, eph, s.links[a.l].phase);
      ChallengeFrame(Challenged(s, a.l, ch, eph, s.links[a.l].phase), s');
    } else {
      assert ChallengeOk(s, s.links[a.l]);
      ChallengeFrame(s, s');
    }
  }
}
