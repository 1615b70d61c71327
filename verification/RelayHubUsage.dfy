/** Usage accounting in the relay hub: which counter a link credits, and where every credited byte goes. */
module RelayHubUsage {
  import opened Collections
  import opened DerpFrames
  import opened RelayHub
  import opened RelayHubInvariants
  import DerpAuth

  // ------------------------------------------------------------- registry

  /** A registered link holds its key, and its counter is the map's counter for that key. */
  predicate ClientOk(s: State, k: Key)
    requires k in s.clients
  {
    var l := s.clients[k];
    l in s.links && s.links[l].key == k && k in s.usage && s.links[l].counter == Some(s.usage[k])
  }

  predicate UsageOk(s: State, k: Key)
    requires k in s.usage
  {
    s.usage[k] in s.counters && s.counters[s.usage[k]].key == k
  }

  predicate LinkCounterOk(s: State, l: LinkId)
    requires l in s.links
  {
    s.links[l].counter.Some? ==>
      s.links[l].counter.value in s.counters && s.counters[s.links[l].counter.value].key == s.links[l].key
  }

  /** The key TakeUsage is visiting is in the map, and it is not visited again. */
  predicate TakeOk(s: State) {
    s.take.Some? ==>
      && s.take.value.todo <= s.usage.Keys
      && (s.take.value.visit.Some? ==>
            var v := s.take.value.visit.value;
            v.key in s.usage && s.usage[v.key] == v.counter && v.key !in s.take.value.todo)
  }

  ghost predicate Registry(s: State) {
    && (forall k | k in s.clients :: ClientOk(s, k))
    && (forall k | k in s.usage :: UsageOk(s, k))
    && (forall l | l in s.links :: LinkCounterOk(s, l))
    && (forall c | c in s.counters :: c < s.nextCounter)
    && TakeOk(s)
  }

  // --------------------------------------------------------- conservation

  function ReportedIn(r: seq<Delta>, c: CounterId): nat {
    if r == [] then 0
    else ReportedIn(r[..|r| - 1], c) + if r[|r| - 1].counter == c then r[|r| - 1].inn else 0
  }

  function ReportedOut(r: seq<Delta>, c: CounterId): nat {
    if r == [] then 0
    else ReportedOut(r[..|r| - 1], c) + if r[|r| - 1].counter == c then r[|r| - 1].out else 0
  }

  /** Bytes drained from a counter by the TakeUsage under way and not yet in a report. */
  function DrainedIn(t: Option<Take>, c: CounterId): nat {
    if t.Some? && t.value.visit.Some? && t.value.visit.value.counter == c then t.value.visit.value.inn else 0
  }

  function DrainedOut(t: Option<Take>, c: CounterId): nat {
    if t.Some? && t.value.visit.Some? && t.value.visit.value.counter == c && t.value.visit.value.out.Some?
    then t.value.visit.value.out.value else 0
  }

  predicate Balanced(s: State, c: CounterId)
    requires c in s.counters
  {
    && s.counters[c].creditedIn == ReportedIn(s.reports, c) + s.counters[c].inn + DrainedIn(s.take, c)
    && s.counters[c].creditedOut == ReportedOut(s.reports, c) + s.counters[c].out + DrainedOut(s.take, c)
  }

  ghost predicate Conserved(s: State) {
    && (forall c | c in s.counters :: Balanced(s, c))
    && (forall i | 0 <= i < |s.reports| :: s.reports[i].counter in s.counters)
  }

  ghost predicate UsageInv(s: State) { Registry(s) && Conserved(s) }

  // ---------------------------------------------------------------- frames

  predicate SameLedger(s: State, s': State) {
    s'.usage == s.usage && s'.counters == s.counters && s'.nextCounter == s.nextCounter
    && s'.reports == s.reports && s'.take == s.take
  }

  /** Links keep their key and counter; new ones have no counter. */
  predicate SameOwners(s: State, s': State) {
    && (forall l | l in s.links ::
          l in s'.links && s'.links[l].key == s.links[l].key && s'.links[l].counter == s.links[l].counter)
    && (forall l | l in s'.links && l !in s.links :: s'.links[l].counter.None?)
  }

  lemma UsageFrame(s: State, s': State)
    requires UsageInv(s) && SameLedger(s, s') && SameOwners(s, s')
    requires forall k | k in s'.clients :: k in s.clients && s'.clients[k] == s.clients[k]
    ensures UsageInv(s')
  {
    forall k | k in s'.clients ensures ClientOk(s', k) {
      assert ClientOk(s, k);
    }
    forall k | k in s'.usage ensures UsageOk(s', k) {
      assert UsageOk(s, k);
    }
    forall l | l in s'.links ensures LinkCounterOk(s', l) {
      if l in s.links {
        assert LinkCounterOk(s, l);
      }
    }
    forall c | c in s'.counters ensures Balanced(s', c) {
      assert Balanced(s, c);
    }
  }

  /** Same links, registry and map; some counter's content changed. */
  lemma CounterFrame(s: State, s': State, c: CounterId)
    requires UsageInv(s) && c in s.counters
    requires s'.links == s.links && s'.clients == s.clients && s'.usage == s.usage && s'.nextCounter == s.nextCounter
    requires s'.counters.Keys == s.counters.Keys && s'.counters[c].key == s.counters[c].key
    requires forall d | d in s.counters && d != c ::
               s'.counters[d] == s.counters[d] && (Balanced(s, d) ==> Balanced(s', d))
    requires Balanced(s', c) && TakeOk(s')
    requires forall i | 0 <= i < |s'.reports| :: s'.reports[i].counter in s'.counters
    ensures UsageInv(s')
  {
    forall k | k in s'.clients ensures ClientOk(s', k) {
      assert ClientOk(s, k);
    }
    forall k | k in s'.usage ensures UsageOk(s', k) {
      assert UsageOk(s, k);
    }
    forall l | l in s'.links ensures LinkCounterOk(s', l) {
      assert LinkCounterOk(s, l);
    }
    forall d | d in s'.counters ensures Balanced(s', d) {
      assert Balanced(s, d);
    }
  }

  lemma CreditKeeps(s: State, c: CounterId, inn: nat, out: nat)
    requires UsageInv(s)
    ensures UsageInv(Credit(s, c, inn, out))
  {
    if c in s.counters {
      assert Balanced(s, c);
      CounterFrame(s, Credit(s, c, inn, out), c);
    }
  }

  lemma TakeInKeeps(cfg: Config, s: State, k: Key)
    requires UsageInv(s) && Enabled(cfg, s, TakeIn(k))
    ensures UsageInv(Next(cfg, s, TakeIn(k)))
  {
    var c := s.usage[k];
    assert UsageOk(s, k) && Balanced(s, c);
    CounterFrame(s, Next(cfg, s, TakeIn(k)), c);
  }

  lemma TakeOutKeeps(cfg: Config, s: State)
    requires UsageInv(s) && Enabled(cfg, s, TakeOut)
    ensures UsageInv(Next(cfg, s, TakeOut))
  {
    var c := s.take.value.visit.value.counter;
    assert Balanced(s, c);
    CounterFrame(s, Next(cfg, s, TakeOut), c);
  }

  lemma ReportSnoc(r: seq<Delta>, d: Delta, c: CounterId)
    ensures ReportedIn(r + [d], c) == ReportedIn(r, c) + if d.counter == c then d.inn else 0
    ensures ReportedOut(r + [d], c) == ReportedOut(r, c) + if d.counter == c then d.out else 0
  {
    assert (r + [d])[..|r|] == r;
  }

  lemma DecideBalances(s: State, c: CounterId)
    requires UsageInv(s) && c in s.counters
    requires s.take.Some? && s.take.value.visit.Some? && s.take.value.visit.value.out.Some?
    requires s.take.value.visit.value.counter in s.counters
    ensures c in Decided(s).counters && Balanced(Decided(s), c)
  {
    assert Balanced(s, c);
    var v := s.take.value.visit.value;
    ReportSnoc(s.reports, Delta(v.counter, v.key, s.counters[v.counter].meshnet, v.inn, v.out.value), c);
  }

  lemma DecideRegistry(s: State)
    requires Registry(s)
    requires s.take.Some? && s.take.value.visit.Some? && s.take.value.visit.value.out.Some?
    requires s.take.value.visit.value.counter in s.counters
    ensures Registry(Decided(s))
  {
    var s' := Decided(s);
    assert s'.links == s.links && s'.clients == s.clients && s'.counters == s.counters;
    assert forall k | k in s'.usage :: k in s.usage && s'.usage[k] == s.usage[k];
    forall k | k in s'.clients ensures ClientOk(s', k) {
      assert ClientOk(s, k);
    }
    forall k | k in s'.usage ensures UsageOk(s', k) {
      assert UsageOk(s, k);
    }
    forall l | l in s'.links ensures LinkCounterOk(s', l) {
      assert LinkCounterOk(s, l);
    }
  }

  lemma DecideKeeps(s: State)
    requires UsageInv(s)
    requires s.take.Some? && s.take.value.visit.Some? && s.take.value.visit.value.out.Some?
    requires s.take.value.visit.value.counter in s.counters
    ensures UsageInv(Decided(s))
  {
    DecideRegistry(s);
    var s' := Decided(s);
    forall c | c in s'.counters ensures Balanced(s', c) {
      DecideBalances(s, c);
    }
    forall i | 0 <= i < |s'.reports| ensures s'.reports[i].counter in s'.counters {
      assert i < |s.reports| ==> s'.reports[i] == s.reports[i];
    }
  }

  lemma {:induction false} NothingReported(r: seq<Delta>, c: CounterId)
    requires forall i | 0 <= i < |r| :: r[i].counter != c
    ensures ReportedIn(r, c) == 0 && ReportedOut(r, c) == 0
  {
    if r != [] {
      NothingReported(r[..|r| - 1], c);
    }
  }

  lemma RegisterBalances(s: State, l: LinkId, c: CounterId)
    requires UsageInv(s) && l in s.links && s.take.None? && c in Registered(s, l).counters
    ensures Balanced(Registered(s, l), c)
  {
    if c in s.counters {
      assert Balanced(s, c);
      assert c != s.nextCounter;
      assert s.links[l].key in s.usage ==> UsageOk(s, s.links[l].key);
    } else {
      assert c == s.nextCounter;
      forall i | 0 <= i < |s.reports| ensures s.reports[i].counter != c {
        assert s.reports[i].counter in s.counters;
      }
      NothingReported(s.reports, c);
    }
  }

  lemma RegisterClients(s: State, l: LinkId)
    requires Registry(s) && l in s.links && s.take.None?
    ensures var s' := Registered(s, l);
            && (forall k | k in s'.clients :: ClientOk(s', k))
            && (forall k | k in s'.usage :: UsageOk(s', k))
  {
    var s', key := Registered(s, l), s.links[l].key;
    forall k | k in s'.usage ensures UsageOk(s', k) {
      if k in s.usage {
        assert UsageOk(s, k);
        assert s.usage[k] < s.nextCounter;
      }
    }
    forall k | k in s'.clients ensures ClientOk(s', k) {
      if k != key {
        assert ClientOk(s, k);
      }
    }
  }

  lemma RegisterKeeps(s: State, l: LinkId)
    requires UsageInv(s) && l in s.links && s.take.None? && s.links[l].counter.None?
    ensures UsageInv(Registered(s, l))
  {
    var s' := Registered(s, l);
    RegisterClients(s, l);
    forall c | c in s'.counters ensures Balanced(s', c) {
      RegisterBalances(s, l, c);
    }
    RegisterCounters(s, l);
  }

  lemma RegisterCounters(s: State, l: LinkId)
    requires Registry(s) && l in s.links && UsageOk(Registered(s, l), s.links[l].key)
    ensures var s' := Registered(s, l);
            && (forall m | m in s'.links :: LinkCounterOk(s', m))
            && (forall c | c in s'.counters :: c < s'.nextCounter)
  {
    var s' := Registered(s, l);
    forall m | m in s'.links && m != l ensures LinkCounterOk(s', m) {
      assert LinkCounterOk(s, m);
    }
    assert s.links[l].key in s.usage ==> UsageOk(s, s.links[l].key);
  }

  lemma MirrorKeeps(cfg: Config, s: State, l: LinkId)
    requires UsageInv(s) && Enabled(cfg, s, MirrorMeshnet(l))
    ensures UsageInv(Next(cfg, s, MirrorMeshnet(l)))
  {
    var c := s.links[l].counter.value;
    assert LinkCounterOk(s, l);
    var m := s.(counters := s.counters[c := s.counters[c].(meshnet := s.links[l].phase.meshnet)]);
    assert Balanced(s, c);
    CounterFrame(s, m, c);
    UsageFrame(m, Next(cfg, s, MirrorMeshnet(l)));
  }

  lemma PhaseUsage(s: State, l: LinkId, phase: Phase)
    requires UsageInv(s) && l in s.links
    ensures UsageInv(WithPhase(s, l, phase))
  {
    UsageFrame(s, WithPhase(s, l, phase));
  }

  lemma UnregisterKeeps(cfg: Config, s: State, l: LinkId)
    requires UsageInv(s) && Enabled(cfg, s, Unregister(l))
    ensures UsageInv(Next(cfg, s, Unregister(l)))
  {
    PhaseUsage(s, l, Gone);
    UsageFrame(WithPhase(s, l, Gone), Next(cfg, s, Unregister(l)));
  }

  lemma ChallengedUsage(s: State, l: LinkId, ch: DerpAuth.Challenge, eph: Key, phase: Phase)
    requires UsageInv(s) && l in s.links
    ensures UsageInv(Challenged(s, l, ch, eph, phase))
  {
    UsageFrame(s, Challenged(s, l, ch, eph, phase));
  }

  lemma SweptUsage(s: State, ch: DerpAuth.Challenge, eph: Key)
    requires UsageInv(s) && s.sweeper.Acting? && s.sweeper.l in s.links
    ensures UsageInv(Swept(s, ch, eph))
  {
    var a, s' := s.sweeper, Swept(s, ch, eph);
    match Judge(a.now, a.expiry, a.pending)
    case LeaveAlone => UsageFrame(s, s');
    case CloseLink => UsageFrame(s, s');
    case Rechallenge =>
      ChallengedUsage(s, a.l, ch, eph, s.links[a.l].phase);
      UsageFrame(Challenged(s, a.l, ch, eph, s.links[a.l].phase), s');
  }

  /** Steps that open, move or sweep links without touching the books. */
  lemma QuietUsage(cfg: Config, s: State, e: Step)
    requires UsageInv(s) && Enabled(cfg, s, e)
    requires e.Tick? || e.Accept? || e.SweepStart? || e.Snapshot? || e.SweepRead? || e.SweepEnd? || e.Commit?
    ensures UsageInv(Next(cfg, s, e))
  {
    UsageFrame(s, Next(cfg, s, e));
  }

  /** Every step keeps the registry and the books. */
  lemma StepUsage(cfg: Config, s: State, e: Step)
    requires UsageInv(s) && AuthInv(cfg, s)
    ensures UsageInv(Next(cfg, s, e))
  {
    if Enabled(cfg, s, e) {
      if TakeStep(e) {
        TakeKeeps(cfg, s, e);
      } else if CreditStep(e) {
        CreditStepKeeps(cfg, s, e);
      } else {
        LinkUsage(cfg, s, e);
      }
    }
  }

  predicate CreditStep(e: Step) { e.Register? || e.MirrorMeshnet? || e.Receive? || e.Delivered? }

  lemma CreditStepKeeps(cfg: Config, s: State, e: Step)
    requires UsageInv(s) && AuthInv(cfg, s) && Enabled(cfg, s, e) && CreditStep(e)
    ensures UsageInv(Next(cfg, s, e))
  {
    match e
    case Register(l) => RegisterStep(cfg, s, l);
    case MirrorMeshnet(l) => MirrorKeeps(cfg, s, l);
    case Receive(l, n) => CreditKeeps(s, s.links[l].counter.value, n, 0);
    case Delivered(l, n) => CreditKeeps(s, s.links[l].counter.value, 0, n);
  }

  predicate TakeStep(e: Step) { e.TakeStart? || e.TakeIn? || e.TakeOut? || e.TakeDecide? || e.TakeEnd? }

  lemma TakeKeeps(cfg: Config, s: State, e: Step)
    requires UsageInv(s) && Enabled(cfg, s, e) && TakeStep(e)
    ensures UsageInv(Next(cfg, s, e))
  {
    match e
    case TakeIn(k) => TakeInKeeps(cfg, s, k);
    case TakeOut => TakeOutKeeps(cfg, s);
    case TakeDecide => DecideKeeps(s);
    case TakeStart => TakeEdgeKeeps(s, Next(cfg, s, e));
    case TakeEnd => TakeEdgeKeeps(s, Next(cfg, s, e));
  }

  lemma RegisterStep(cfg: Config, s: State, l: LinkId)
    requires UsageInv(s) && AuthInv(cfg, s) && Enabled(cfg, s, Register(l))
    ensures UsageInv(Next(cfg, s, Register(l)))
  {
    assert LinkAuth(cfg, s, l);
    RegisterKeeps(s, l);
  }

  lemma LinkUsage(cfg: Config, s: State, e: Step)
    requires UsageInv(s) && Enabled(cfg, s, e)
    requires !TakeStep(e) && !CreditStep(e)
    ensures UsageInv(Next(cfg, s, e))
  {
    match e
    case FirstChallenge(l, ch, eph) => ChallengedUsage(s, l, ch, eph, Handshake);
    case ReadPending(l, payload) =>
      if s.links[l].pending.Some? {
        PhaseUsage(s, l, Opening(s.links[l].pending.value, payload));
      }
    case OpenAndCheck(l) => PhaseUsage(s, l, Opened(cfg, s, l));
    case Quit(l) => PhaseUsage(s, l, Failing(s.links[l]));
    case Unregister(l) => UnregisterKeeps(cfg, s, l);
    case SweepAct(ch, eph) => SweptUsage(s, ch, eph);
    case _ => QuietUsage(cfg, s, e);
  }

  /** Taking or releasing the hub lock around TakeUsage moves no byte. */
  lemma TakeEdgeKeeps(s: State, s': State)
    requires UsageInv(s) && s' == s.(take := s'.take) && TakeOk(s')
    requires (s.take.Some? ==> s.take.value.visit.None?) && (s'.take.Some? ==> s'.take.value.visit.None?)
    ensures UsageInv(s')
  {
    forall k | k in s'.clients ensures ClientOk(s', k) {
      assert ClientOk(s, k);
    }
    forall k | k in s'.usage ensures UsageOk(s', k) {
      assert UsageOk(s, k);
    }
    forall l | l in s'.links ensures LinkCounterOk(s', l) {
      assert LinkCounterOk(s, l);
    }
    forall c | c in s'.counters ensures Balanced(s', c) {
      assert Balanced(s, c);
    }
  }
}
