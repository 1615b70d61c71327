/** What the relay promises, over every interleaving of its goroutines. */
module RelayHubSafety {
  import opened Collections
  import opened Wire
  import opened DerpFrames
  import opened RelayHub
  import opened RelayHubInvariants
  import opened RelayHubUsage
  import DerpAuth
  import RelayGrants

  /** The sweeper handles links that registered, and what it read of a link's challenge is still there unless the
      link answered. */
  ghost predicate SweepInv(s: State) {
    match s.sweeper
    case Asleep => true
    case Woken(now) => now <= s.clock
    case Sweeping(now, todo) =>
      now <= s.clock && forall l | l in todo :: l in s.links && s.links[l].counter.Some?
    case Acting(now, todo, l, _, pending) =>
      && now <= s.clock && (forall m | m in todo :: m in s.links && s.links[m].counter.Some?)
      && l in s.links && s.links[l].counter.Some?
      && (s.links[l].pending == pending || s.links[l].pending.None?)
  }

  ghost predicate Inv(cfg: Config, s: State) { AuthInv(cfg, s) && ChallengeInv(s) && UsageInv(s) && SweepInv(s) }

  /** Links keep their counters; only the sweeper and the link itself touch its challenge. */
  lemma SweepFrame(s: State, s': State)
    requires SweepInv(s) && s'.sweeper == s.sweeper && s'.clock >= s.clock
    requires forall l | l in s.links && s.links[l].counter.Some? ::
               l in s'.links && s'.links[l].counter.Some?
               && (s'.links[l].pending == s.links[l].pending || s'.links[l].pending.None?)
    ensures SweepInv(s')
  {
  }

  lemma SnapshotKeepsSweep(cfg: Config, s: State)
    requires UsageInv(s) && SweepInv(s) && Enabled(cfg, s, Snapshot)
    ensures SweepInv(Next(cfg, s, Snapshot))
  {
    forall k | k in s.clients ensures s.clients[k] in s.links && s.links[s.clients[k]].counter.Some? {
      assert ClientOk(s, k);
    }
  }

  lemma OtherKeepsSweep(cfg: Config, s: State, e: Step)
    requires SweepInv(s) && AuthInv(cfg, s) && Enabled(cfg, s, e)
    requires !SweepStep(e)
    ensures SweepInv(Next(cfg, s, e))
  {
    var s' := Next(cfg, s, e);
    SweeperSame(cfg, s, e);
    if PhaseOnly(e) {
      PhaseEffect(cfg, s, e);
      SweepFrame(s, s');
    } else if LinksSame(e) {
      LinksSameEffect(cfg, s, e);
      SweepFrame(s, s');
    } else {
      assert e.FirstChallenge? ==> LinkAuth(cfg, s, e.l);
      LinkKeepsSweep(cfg, s, e);
    }
  }

  lemma SweeperSame(cfg: Config, s: State, e: Step)
    requires !SweepStep(e)
    ensures Next(cfg, s, e).sweeper == s.sweeper
  {
  }

  lemma LinkKeepsSweep(cfg: Config, s: State, e: Step)
    requires SweepInv(s) && Enabled(cfg, s, e) && (e.Accept? || e.FirstChallenge? || e.Commit? || e.Register?)
    requires e.FirstChallenge? ==> LinkAuth(cfg, s, e.l)
    ensures SweepInv(Next(cfg, s, e))
  {
    SweepFrame(s, Next(cfg, s, e));
  }

  lemma ReadKeepsSweep(cfg: Config, s: State, l: LinkId)
    requires SweepInv(s) && Enabled(cfg, s, SweepRead(l))
    ensures SweepInv(Next(cfg, s, SweepRead(l)))
  {
  }

  lemma ActKeepsSweep(s: State, ch: DerpAuth.Challenge, eph: Key)
    requires SweepInv(s) && s.sweeper.Acting? && s.sweeper.l in s.links
    ensures SweepInv(Swept(s, ch, eph))
  {
    var s' := Swept(s, ch, eph);
    forall m | m in s.links ensures m in s'.links && s'.links[m].counter == s.links[m].counter {
    }
  }

  lemma StepSweep(cfg: Config, s: State, e: Step)
    requires SweepInv(s) && AuthInv(cfg, s) && UsageInv(s)
    ensures SweepInv(Next(cfg, s, e))
  {
    if Enabled(cfg, s, e) {
      if SweepStep(e) {
        SweepStepKeeps(cfg, s, e);
      } else {
        OtherKeepsSweep(cfg, s, e);
      }
    }
  }

  predicate SweepStep(e: Step) { e.SweepStart? || e.Snapshot? || e.SweepRead? || e.SweepAct? || e.SweepEnd? }

  lemma SweepStepKeeps(cfg: Config, s: State, e: Step)
    requires SweepInv(s) && UsageInv(s) && Enabled(cfg, s, e) && SweepStep(e)
    ensures SweepInv(Next(cfg, s, e))
  {
    match e
    case SweepStart =>
    case Snapshot => SnapshotKeepsSweep(cfg, s);
    case SweepRead(l) => ReadKeepsSweep(cfg, s, l);
    case SweepAct(ch, eph) => ActKeepsSweep(s, ch, eph);
    case SweepEnd =>
  }

  /** Every reachable state. */
  lemma {:induction false} Reachable(cfg: Config, es: seq<Step>)
    ensures Inv(cfg, Run(cfg, es))
  {
    if es != [] {
      var before, e := es[..|es| - 1], es[|es| - 1];
      Reachable(cfg, before);
      var s := Run(cfg, before);
      StepAuth(cfg, s, e);
      StepChallenges(cfg, s, e);
      StepUsage(cfg, s, e);
      StepSweep(cfg, s, e);
    }
  }

  // ------------------------------------------------------------- admission

  /** What admission by a grant means: the blob is exactly what the coordinator's key signs over g, for this node,
      this relay's meshnet if it serves one, with scope "all", or "self-hosted" on a self-hosted relay; and it had not
      expired. */
  predicate Authorizes(cfg: Config, key: Key, blob: seq<Byte>, g: RelayGrants.Grant, at: int) {
    && |blob| == 120 && |cfg.coordPub| == 32
    && blob[..56] == RelayGrants.SignedBytes(g) && RelayGrants.Encodable(g) && g.expiry % 1_000_000_000 == 0
    && cfg.ed25519.verify(cfg.coordPub, blob[..56], blob[56..])
    && g.node == key
    && (cfg.meshnet != 0 ==> g.meshnet == cfg.meshnet)
    && (g.scope == 1 || (g.scope == 2 && cfg.kind == RelayGrants.SelfHosted))
    && at <= g.expiry
  }

  /** A grant passes the relay's checks if and only if it authorizes this node here and now. */
  lemma CheckedExact(cfg: Config, key: Key, blob: seq<Byte>, now: int, g: RelayGrants.Grant)
    ensures CheckGrant(cfg, key, blob, now) == Some(g) <==> Authorizes(cfg, key, blob, g, now)
  {
    RelayGrants.VerifyExact(cfg.ed25519, cfg.coordPub, blob, now, g);
  }

  /** With authentication required, every registered link answered a challenge issued on that same link, with a
      proof bound to the certificate presented if the link is TLS and the legacy one if it is not, carrying a grant
      that authorizes it; and the expiry on record is that grant's, set, and was not past when the proof was
      accepted. */
  lemma RegisteredIsAdmitted(cfg: Config, es: seq<Step>, k: Key)
    requires cfg.require && k in Run(cfg, es).clients
    ensures var s := Run(cfg, es);
            var l := s.clients[k];
            && l in s.links && s.links[l].key == k && s.links[l].proof.Some?
            && var ev := s.links[l].proof.value;
            && IssuedOn(s, ev.p, l)
            && (s.links[l].binding.Some? ==>
                  DerpAuth.OpenRelay(cfg.box, DerpAuth.BoundRelay(s.links[l].binding.value), ev.p.ch, ev.p.ephPriv, k,
                                     ev.payload) == DerpAuth.Grant(ev.blob))
            && (s.links[l].binding.None? ==>
                  DerpAuth.OpenRelay(cfg.box, DerpAuth.Relay, ev.p.ch, ev.p.ephPriv, k, ev.payload)
                  == DerpAuth.Grant(ev.blob))
            && Authorizes(cfg, k, ev.blob, ev.grant, ev.at)
            && s.links[l].expiry == ev.grant.expiry && ev.at <= s.links[l].expiry
            && s.links[l].expiry != -62_135_596_800_000_000_000
  {
    Reachable(cfg, es);
    var s := Run(cfg, es);
    assert ClientOk(s, k);
    var l := s.clients[k];
    assert LinkAuth(cfg, s, l);
    var ev := s.links[l].proof.value;
    CheckedExact(cfg, k, ev.blob, ev.at, ev.grant);
  }

  /** The link whose goroutine takes a step. */
  function Actor(e: Step): Option<LinkId> {
    match e
    case Accept(l, _, _) => Some(l)
    case FirstChallenge(l, _, _) => Some(l)
    case ReadPending(l, _) => Some(l)
    case OpenAndCheck(l) => Some(l)
    case Commit(l) => Some(l)
    case MirrorMeshnet(l) => Some(l)
    case Register(l) => Some(l)
    case Receive(l, _) => Some(l)
    case Delivered(l, _) => Some(l)
    case Quit(l) => Some(l)
    case Unregister(l) => Some(l)
    case _ => None
  }

  /** A connection that has not proved itself changes nothing but itself: not the registry, and no other link. */
  lemma UnprovenIsHarmless(cfg: Config, es: seq<Step>, e: Step, l: LinkId)
    requires cfg.require && Actor(e) == Some(l)
    requires var s := Run(cfg, es); l in s.links ==> s.links[l].proof.None?
    ensures var s, s' := Run(cfg, es), Next(cfg, Run(cfg, es), e);
            && s'.clients == s.clients && s'.usage == s.usage && s'.counters == s.counters
            && forall m | m in s.links && m != l :: m in s'.links && s'.links[m] == s.links[m]
  {
    Reachable(cfg, es);
    var s := Run(cfg, es);
    if l in s.links && AfterProof(e) {
      assert LinkAuth(cfg, s, l);
      NotBeforeProof(cfg, s, e, l);
    } else {
      KeepsToItself(cfg, s, e, l);
    }
  }

  predicate AfterProof(e: Step) { e.MirrorMeshnet? || e.Register? || e.Receive? || e.Delivered? || e.Unregister? }

  lemma NotBeforeProof(cfg: Config, s: State, e: Step, l: LinkId)
    requires cfg.require && Actor(e) == Some(l) && AfterProof(e)
    requires l in s.links && LinkAuth(cfg, s, l) && s.links[l].proof.None?
    ensures !Enabled(cfg, s, e)
  {
  }

  lemma KeepsToItself(cfg: Config, s: State, e: Step, l: LinkId)
    requires Actor(e) == Some(l) && (l !in s.links || !AfterProof(e))
    ensures var s' := Next(cfg, s, e);
            && s'.clients == s.clients && s'.usage == s.usage && s'.counters == s.counters
            && forall m | m in s.links && m != l :: m in s'.links && s'.links[m] == s.links[m]
  {
  }

  // ------------------------------------------------------------ challenges

  /** Whatever the interleaving of readers and sweeper, no challenge is accepted twice, and none that was not
      issued is accepted at all. */
  lemma AcceptedOnce(cfg: Config, es: seq<Step>, id: ChallengeId)
    ensures var s := Run(cfg, es); s.accepted[id] <= 1 && (s.accepted[id] == 1 ==> id in s.issued)
  {
    Reachable(cfg, es);
    assert id in Run(cfg, es).accepted || Run(cfg, es).accepted[id] == 0;
  }

  /** The sweeper can challenge a link while its proof is being opened: the older challenge is accepted all the same,
      and the newer one is discarded unanswered. */
  lemma SupersededYetAccepted(cfg: Config, es: seq<Step>, l: LinkId, ch: DerpAuth.Challenge, eph: Key)
    requires var s := Run(cfg, es);
             && l in s.links && s.links[l].phase.Checked?
             && s.sweeper.Acting? && s.sweeper.l == l
             && Judge(s.sweeper.now, s.sweeper.expiry, s.sweeper.pending) == Rechallenge
    ensures var s := Run(cfg, es);
            var p := s.links[l].phase.ev.p;
            var mid := Next(cfg, s, SweepAct(ch, eph));
            var end := Next(cfg, mid, Commit(l));
            && mid.links[l].newest == Some(s.nextChallenge) && s.nextChallenge != p.id
            && end.accepted == s.accepted + multiset{p.id}
            && end.links[l].pending.None? && end.accepted[s.nextChallenge] == 0
  {
    Reachable(cfg, es);
    var s := Run(cfg, es);
    assert LinkAuth(cfg, s, l);
    assert s.nextChallenge !in s.issued;
    assert s.nextChallenge !in s.accepted;
    ReplacedThenCommitted(cfg, s, l, ch, eph);
  }

  lemma ReplacedThenCommitted(cfg: Config, s: State, l: LinkId, ch: DerpAuth.Challenge, eph: Key)
    requires l in s.links && s.links[l].phase.Checked? && s.sweeper.Acting? && s.sweeper.l == l
    requires Judge(s.sweeper.now, s.sweeper.expiry, s.sweeper.pending) == Rechallenge
    ensures var mid := Next(cfg, s, SweepAct(ch, eph));
            var end := Next(cfg, mid, Commit(l));
            && l in mid.links && mid.links[l].newest == Some(s.nextChallenge)
            && end.accepted == s.accepted + multiset{s.links[l].phase.ev.p.id}
            && l in end.links && end.links[l].pending.None?
  {
    var mid := Next(cfg, s, SweepAct(ch, eph));
    assert mid == Challenged(s, l, ch, eph, s.links[l].phase).(sweeper := Sweeping(s.sweeper.now, s.sweeper.todo));
    assert Next(cfg, mid, Commit(l)) == Committed(mid, l);
  }

  // ----------------------------------------------------------------- usage

  /** Credits by a registered link land on the counter the usage map reports for its key. */
  lemma RegisteredCreditsLand(cfg: Config, es: seq<Step>, k: Key)
    requires k in Run(cfg, es).clients
    ensures var s := Run(cfg, es);
            s.clients[k] in s.links && k in s.usage && s.links[s.clients[k]].counter == Some(s.usage[k])
            && s.usage[k] in s.counters && s.counters[s.usage[k]].key == k
  {
    Reachable(cfg, es);
    assert ClientOk(Run(cfg, es), k) && UsageOk(Run(cfg, es), k);
  }

  /** What a step does to a node's entry in the usage map: it keeps its counter, reconnects included; and it is dropped
      exactly when TakeUsage, having drained nothing from it, finds no link registered for the node. What lands on
      the counter from then on comes from links that left the hub. */
  lemma EntryExact(cfg: Config, es: seq<Step>, e: Step, k: Key)
    requires k in Run(cfg, es).usage
    ensures var s, s' := Run(cfg, es), Next(cfg, Run(cfg, es), e);
            && (k in s'.usage ==> s'.usage[k] == s.usage[k])
            && (k !in s'.usage <==>
                  && e.TakeDecide? && Enabled(cfg, s, e) && k !in s.clients
                  && var v := s.take.value.visit.value; v.key == k && v.inn == 0 && v.out == Some(0))
  {
    var s := Run(cfg, es);
    if e.TakeDecide? {
      DecideEntry(cfg, s, k);
    } else {
      KeysKept(cfg, s, e, k);
    }
  }

  lemma DecideEntry(cfg: Config, s: State, k: Key)
    requires k in s.usage
    ensures var s' := Next(cfg, s, TakeDecide);
            && (k in s'.usage ==> s'.usage[k] == s.usage[k])
            && (k !in s'.usage <==>
                  && Enabled(cfg, s, TakeDecide) && k !in s.clients
                  && var v := s.take.value.visit.value; v.key == k && v.inn == 0 && v.out == Some(0))
  {
  }

  lemma LinksSameKeys(cfg: Config, s: State, e: Step)
    requires LinksSame(e) && !e.TakeDecide?
    ensures Next(cfg, s, e).usage == s.usage
  {
  }

  lemma PhaseKeys(cfg: Config, s: State, e: Step)
    requires PhaseOnly(e)
    ensures Next(cfg, s, e).usage == s.usage
  {
  }

  lemma KeysKept(cfg: Config, s: State, e: Step, k: Key)
    requires !e.TakeDecide? && k in s.usage
    ensures k in Next(cfg, s, e).usage && Next(cfg, s, e).usage[k] == s.usage[k]
  {
    if LinksSame(e) {
      LinksSameKeys(cfg, s, e);
    } else if PhaseOnly(e) {
      PhaseKeys(cfg, s, e);
    }
  }

  // ----------------------------------------------------------------- sweep

  /** A challenge the sweeper sends in place of an unanswered one comes at least a tick after it. */
  lemma ChallengesSpaced(cfg: Config, es: seq<Step>, ch: DerpAuth.Challenge, eph: Key)
    requires var s := Run(cfg, es);
             && Enabled(cfg, s, SweepAct(ch, eph)) && s.links[s.sweeper.l].pending.Some?
             && Judge(s.sweeper.now, s.sweeper.expiry, s.sweeper.pending) == Rechallenge
    ensures var s := Run(cfg, es);
            var s' := Next(cfg, s, SweepAct(ch, eph));
            && s'.links[s.sweeper.l].pending.Some?
            && s'.links[s.sweeper.l].pending.value.sentAt - s.links[s.sweeper.l].pending.value.sentAt >= 60_000_000_000
  {
    Reachable(cfg, es);
  }

  /** The challenge the sweep would draw for each link. */
  type Draws = LinkId -> (DerpAuth.Challenge, Key)

  /** The sweep of one link, without interruption. */
  function SweepOne(cfg: Config, s: State, l: LinkId, draws: Draws): State {
    Next(cfg, Next(cfg, s, SweepRead(l)), SweepAct(draws(l).0, draws(l).1))
  }

  function SweepAll(cfg: Config, s: State, order: seq<LinkId>, draws: Draws): State {
    if order == [] then s
    else SweepOne(cfg, SweepAll(cfg, s, order[..|order| - 1], draws), order[|order| - 1], draws)
  }

  /** A grant's expiry is on record: not the zero time, which is the first instant of year 1. */
  predicate HasGrant(k: Link) { k.expiry != -62_135_596_800_000_000_000 }

  predicate Expired(k: Link, now: int) { HasGrant(k) && k.expiry < now }

  /** Its grant is still good but runs out within ten minutes. */
  predicate Due(k: Link, now: int) { HasGrant(k) && now <= k.expiry < now + 600_000_000_000 }

  /** A challenge less than a minute old is outstanding. */
  predicate FreshlyChallenged(k: Link, now: int) {
    k.pending.Some? && now - k.pending.value.sentAt < 60_000_000_000
  }

  /** What a sweep does to a link: an expired one is closed, one that is due stays up with a challenge less than a
      tick old outstanding, and no other is touched. */
  predicate SweptOk(before: Link, after: Link, now: int) {
    && (Expired(before, now) ==> after == before.(open := false))
    && (Due(before, now) ==>
          && FreshlyChallenged(after, now)
          && after == before.(pending := after.pending, newest := after.newest)
          && (FreshlyChallenged(before, now) ==> after == before))
    && (!Expired(before, now) && !Due(before, now) ==> after == before)
  }

  lemma SweptExact(s: State, ch: DerpAuth.Challenge, eph: Key)
    requires s.sweeper.Acting? && s.sweeper.l in s.links && s.sweeper.now <= s.clock
    requires s.sweeper.expiry == s.links[s.sweeper.l].expiry && s.sweeper.pending == s.links[s.sweeper.l].pending
    ensures var a, s' := s.sweeper, Swept(s, ch, eph);
            && s'.sweeper == Sweeping(a.now, a.todo) && s'.clock == s.clock
            && a.l in s'.links && s'.links == s.links[a.l := s'.links[a.l]]
            && SweptOk(s.links[a.l], s'.links[a.l], a.now)
  {
    var a := s.sweeper;
    var k := s.links[a.l];
    match Judge(a.now, a.expiry, a.pending)
    case LeaveAlone =>
      assert s.links == s.links[a.l := k];
      assert SweptOk(k, k, a.now);
    case CloseLink => assert SweptOk(k, k.(open := false), a.now);
    case Rechallenge => RechallengedOk(k, a.now, s.clock, s.nextChallenge, ch, eph);
  }

  lemma RechallengedOk(k: Link, now: int, clock: int, id: ChallengeId, ch: DerpAuth.Challenge, eph: Key)
    requires Judge(now, k.expiry, k.pending).Rechallenge? && now <= clock
    ensures SweptOk(k, k.(pending := Some(Pending(id, ch, eph, clock)), newest := Some(id)), now)
  {
  }

  lemma SweepOneExact(cfg: Config, s: State, l: LinkId, draws: Draws)
    requires s.sweeper.Sweeping? && l in s.sweeper.todo && l in s.links && s.sweeper.now <= s.clock
    ensures var s' := SweepOne(cfg, s, l, draws);
            && s'.sweeper == Sweeping(s.sweeper.now, s.sweeper.todo - {l}) && s'.clock == s.clock
            && l in s'.links && s'.links == s.links[l := s'.links[l]]
            && SweptOk(s.links[l], s'.links[l], s.sweeper.now)
  {
    SweptExact(Next(cfg, s, SweepRead(l)), draws(l).0, draws(l).1);
  }

  function Unswept(todo: set<LinkId>, order: seq<LinkId>): set<LinkId> { todo - set l | l in order }

  predicate AllSwept(before: map<LinkId, Link>, after: map<LinkId, Link>, order: seq<LinkId>, now: int) {
    && after.Keys == before.Keys
    && (forall l | l in before && l in order :: SweptOk(before[l], after[l], now))
    && (forall l | l in before && l !in order :: after[l] == before[l])
  }

  lemma OneMoreSwept(before: map<LinkId, Link>, mid: map<LinkId, Link>, after: map<LinkId, Link>,
                     order: seq<LinkId>, l: LinkId, now: int)
    requires AllSwept(before, mid, order, now) && l in before && l !in order
    requires l in after && after == mid[l := after[l]] && SweptOk(mid[l], after[l], now)
    ensures AllSwept(before, after, order + [l], now)
  {
  }

  /** The sweep under way in s has dealt with these links, and only with them. */
  predicate SweptBy(s: State, s': State, order: seq<LinkId>) {
    && s.sweeper.Sweeping? && s'.sweeper == Sweeping(s.sweeper.now, Unswept(s.sweeper.todo, order))
    && s'.clock == s.clock && AllSwept(s.links, s'.links, order, s.sweeper.now)
  }

  /** An uninterrupted sweep, in any order over its snapshot, closes exactly the expired links, leaves every link
      that is due with a fresh challenge, and touches nothing else. */
  lemma {:induction false} SweepExact(cfg: Config, s: State, order: seq<LinkId>, draws: Draws)
    requires s.sweeper.Sweeping? && s.sweeper.now <= s.clock
    requires forall i | 0 <= i < |order| :: order[i] in s.sweeper.todo && order[i] in s.links
    requires forall i, j | 0 <= i < j < |order| :: order[i] != order[j]
    ensures SweptBy(s, SweepAll(cfg, s, order, draws), order)
  {
    if order == [] {
      assert Unswept(s.sweeper.todo, order) == s.sweeper.todo;
    } else {
      var n := |order| - 1;
      var init, l := order[..n], order[n];
      SweepExact(cfg, s, init, draws);
      assert l !in init && order == init + [l];
      var mid := SweepAll(cfg, s, init, draws);
      SweepSnoc(cfg, s, mid, init, l, draws);
      assert SweptBy(s, SweepOne(cfg, mid, l, draws), order);
    }
  }

  lemma SweepSnoc(cfg: Config, s: State, mid: State, init: seq<LinkId>, l: LinkId, draws: Draws)
    requires SweptBy(s, mid, init) && s.sweeper.now <= s.clock && l in s.sweeper.todo && l in s.links && l !in init
    ensures SweptBy(s, SweepOne(cfg, mid, l, draws), init + [l])
  {
    SweepOneExact(cfg, mid, l, draws);
    OneMoreSwept(s.links, mid.links, SweepOne(cfg, mid, l, draws).links, init, l, s.sweeper.now);
    assert Unswept(s.sweeper.todo, init) - {l} == Unswept(s.sweeper.todo, init + [l]);
  }

  /** A whole sweep from its tick to its end, if nobody interrupts it: it deals so with every registered link, whatever
      order it takes them in, and with no other. */
  lemma SweepWhole(cfg: Config, s: State, order: seq<LinkId>, draws: Draws)
    requires cfg.require && s.sweeper.Asleep? && s.take.None? && Registry(s)
    requires forall i, j | 0 <= i < j < |order| :: order[i] != order[j]
    requires forall l :: l in order <==> exists k :: k in s.clients && s.clients[k] == l
    ensures var t := SweepAll(cfg, Next(cfg, Next(cfg, s, SweepStart), Snapshot), order, draws);
            AllSwept(s.links, t.links, order, s.clock) && Next(cfg, t, SweepEnd).sweeper == Asleep
  {
    var u := Next(cfg, Next(cfg, s, SweepStart), Snapshot);
    SnapshotTakes(cfg, s);
    forall i | 0 <= i < |order| ensures order[i] in u.sweeper.todo && order[i] in u.links {
      assert order[i] in order;
      var k :| k in s.clients && s.clients[k] == order[i];
      assert ClientOk(s, k);
    }
    SweepExact(cfg, u, order, draws);
    assert Unswept(u.sweeper.todo, order) == {};
    SweepEnds(cfg, SweepAll(cfg, u, order, draws));
  }

  lemma SnapshotTakes(cfg: Config, s: State)
    requires cfg.require && s.sweeper.Asleep? && s.take.None?
    ensures var u := Next(cfg, Next(cfg, s, SweepStart), Snapshot);
            && u.sweeper.Sweeping? && u.sweeper.now == s.clock && u.clock == s.clock && u.links == s.links
            && forall l :: l in u.sweeper.todo <==> exists k :: k in s.clients && s.clients[k] == l
  {
    assert Next(cfg, s, SweepStart) == s.(sweeper := Woken(s.clock));
  }

  lemma SweepEnds(cfg: Config, t: State)
    requires t.sweeper.Sweeping? && t.sweeper.todo == {}
    ensures Next(cfg, t, SweepEnd).sweeper == Asleep
  {
  }
}
