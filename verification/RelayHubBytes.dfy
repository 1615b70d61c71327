/** Where every relayed byte goes: the credits a run made, against what was reported and what is left, over every
    interleaving. */
module RelayHubBytes {
  import opened Collections
  import opened DerpFrames
  import opened RelayHub
  import opened RelayHubInvariants
  import opened RelayHubUsage
  import opened RelayHubSafety
  import opened RelayHubRuns

  // ------------------------------------------------------------ told by the run

  predicate ReceivesOn(cfg: Config, s: State, e: Step, c: CounterId) {
    e.Receive? && Enabled(cfg, s, e) && s.links[e.l].counter == Some(c)
  }

  predicate DeliversOn(cfg: Config, s: State, e: Step, c: CounterId) {
    e.Delivered? && Enabled(cfg, s, e) && s.links[e.l].counter == Some(c)
  }

  /** Ciphertext bytes read from links that held counter c when they were read. */
  function ReceivedOn(cfg: Config, es: seq<Step>, c: CounterId): nat {
    if es == [] then 0
    else
      var before, e := es[..|es| - 1], es[|es| - 1];
      ReceivedOn(cfg, before, c) + if ReceivesOn(cfg, Run(cfg, before), e, c) then e.n else 0
  }

  /** Ciphertext bytes written to links that hold counter c. */
  function DeliveredOn(cfg: Config, es: seq<Step>, c: CounterId): nat {
    if es == [] then 0
    else
      var before, e := es[..|es| - 1], es[|es| - 1];
      DeliveredOn(cfg, before, c) + if DeliversOn(cfg, Run(cfg, before), e, c) then e.n else 0
  }

  /** Both, over all links of the run. */
  function RelayedBytes(cfg: Config, es: seq<Step>): nat {
    if es == [] then 0
    else
      var before, e := es[..|es| - 1], es[|es| - 1];
      RelayedBytes(cfg, before) + if (e.Receive? || e.Delivered?) && Enabled(cfg, Run(cfg, before), e) then e.n else 0
  }

  // ------------------------------------------------------- credits are those

  predicate CreditsOk(cfg: Config, es: seq<Step>, c: CounterId) {
    var s := Run(cfg, es);
    && ReceivedOn(cfg, es, c) == (if c in s.counters then s.counters[c].creditedIn else 0)
    && DeliveredOn(cfg, es, c) == (if c in s.counters then s.counters[c].creditedOut else 0)
  }

  function CreditedIn(s: State, c: CounterId): nat { if c in s.counters then s.counters[c].creditedIn else 0 }

  function CreditedOut(s: State, c: CounterId): nat { if c in s.counters then s.counters[c].creditedOut else 0 }

  /** A step credits a counter what it relayed on it, in its direction, and nothing else. */
  ghost predicate CreditsBy(cfg: Config, s: State, e: Step, c: CounterId) {
    var s' := Next(cfg, s, e);
    && CreditedIn(s', c) == CreditedIn(s, c) + (if ReceivesOn(cfg, s, e, c) then e.n else 0)
    && CreditedOut(s', c) == CreditedOut(s, c) + (if DeliversOn(cfg, s, e, c) then e.n else 0)
  }

  lemma RelayCredits(cfg: Config, s: State, e: Step, c: CounterId)
    requires Registry(s) && (e.Receive? || e.Delivered?)
    ensures CreditsBy(cfg, s, e, c)
  {
    if Enabled(cfg, s, e) {
      assert LinkCounterOk(s, e.l);
    }
  }

  lemma TakeCredits(cfg: Config, s: State, e: Step, c: CounterId)
    requires TakeStep(e)
    ensures CreditsBy(cfg, s, e, c)
  {
  }

  lemma RegisterCredits(cfg: Config, s: State, l: LinkId, c: CounterId)
    requires Registry(s)
    ensures CreditsBy(cfg, s, Register(l), c)
  {
    if Enabled(cfg, s, Register(l)) {
      assert s.links[l].key in s.usage ==> UsageOk(s, s.links[l].key);
    }
  }

  lemma PhaseCredits(cfg: Config, s: State, e: Step, c: CounterId)
    requires PhaseOnly(e)
    ensures CreditsBy(cfg, s, e, c)
  {
  }

  lemma StepCredits(cfg: Config, s: State, e: Step, c: CounterId)
    requires Registry(s)
    ensures CreditsBy(cfg, s, e, c)
  {
    if e.Receive? || e.Delivered? {
      RelayCredits(cfg, s, e, c);
    } else if TakeStep(e) {
      TakeCredits(cfg, s, e, c);
    } else if e.Register? {
      RegisterCredits(cfg, s, e.l, c);
    } else if PhaseOnly(e) {
      PhaseCredits(cfg, s, e, c);
    }
  }

  lemma {:induction false} AlwaysCredits(cfg: Config, es: seq<Step>, c: CounterId)
    ensures CreditsOk(cfg, es, c)
  {
    if es != [] {
      AlwaysCredits(cfg, es[..|es| - 1], c);
      Reachable(cfg, es[..|es| - 1]);
      StepCredits(cfg, Run(cfg, es[..|es| - 1]), es[|es| - 1], c);
    }
  }

  /** Per counter and direction: the bytes relayed on it are in reports, drained by the TakeUsage under way, or still
      on it. */
  lemma UsageConserved(cfg: Config, es: seq<Step>, c: CounterId)
    requires c in Run(cfg, es).counters
    ensures var s := Run(cfg, es);
            && ReceivedOn(cfg, es, c) == ReportedIn(s.reports, c) + s.counters[c].inn + DrainedIn(s.take, c)
            && DeliveredOn(cfg, es, c) == ReportedOut(s.reports, c) + s.counters[c].out + DrainedOut(s.take, c)
  {
    Reachable(cfg, es);
    AlwaysCredits(cfg, es, c);
    assert Balanced(Run(cfg, es), c);
  }

  // ------------------------------------------------------------------ totals

  // Per counter, over both directions: bytes credited, bytes taken, bytes still on it.

  ghost function Credited(s: State): map<CounterId, int> {
    map c | c in s.counters :: s.counters[c].creditedIn + s.counters[c].creditedOut
  }

  ghost function Taken(counters: set<CounterId>, r: seq<Delta>, t: Option<Take>): map<CounterId, int> {
    map c | c in counters :: ReportedIn(r, c) + ReportedOut(r, c) + DrainedIn(t, c) + DrainedOut(t, c)
  }

  ghost function Remaining(s: State): map<CounterId, int> {
    map c | c in s.counters :: s.counters[c].inn + s.counters[c].out
  }

  predicate InMap(s: State, c: CounterId) { exists k :: k in s.usage && s.usage[k] == c }

  ghost function LiveCounters(s: State): set<CounterId> { set c | c in s.counters && InMap(s, c) }

  ghost function OnMapTotal(s: State): int { Total(Within(Remaining(s), LiveCounters(s))) }

  ghost function DroppedTotal(s: State): int { Total(Without(Remaining(s), LiveCounters(s))) }

  /** Bytes in the reports handed out. */
  function ReportBytes(r: seq<Delta>): nat {
    if r == [] then 0 else ReportBytes(r[..|r| - 1]) + r[|r| - 1].inn + r[|r| - 1].out
  }

  /** Bytes the TakeUsage under way has drained and not yet reported. */
  function HeldBytes(t: Option<Take>): nat {
    if t.Some? && t.value.visit.Some? then
      t.value.visit.value.inn + if t.value.visit.value.out.Some? then t.value.visit.value.out.value else 0
    else 0
  }

  lemma {:induction false} TotalZero(m: map<CounterId, int>)
    requires forall c | c in m :: m[c] == 0
    ensures Total(m) == 0
    decreases |m|
  {
    if m != map[] {
      var c :| c in m;
      TotalRemove(m, c);
      assert (m - {c}).Keys == m.Keys - {c} && |m - {c}| < |m|;
      TotalZero(m - {c});
    }
  }

  lemma HeldTotal(counters: set<CounterId>, t: Option<Take>)
    requires t.Some? && t.value.visit.Some? ==> t.value.visit.value.counter in counters
    ensures Total(Taken(counters, [], t)) == HeldBytes(t)
  {
    var none := map c | c in counters :: 0;
    TotalZero(none);
    if t.Some? && t.value.visit.Some? {
      var c := t.value.visit.value.counter;
      TotalUpdate(none, c, HeldBytes(t));
      assert Taken(counters, [], t) == none[c := HeldBytes(t)];
    } else {
      assert Taken(counters, [], t) == none;
    }
  }

  /** Bytes taken, counter by counter, are the bytes in the reports and in hand. */
  lemma {:induction false} TakenTotal(counters: set<CounterId>, r: seq<Delta>, t: Option<Take>)
    requires forall i | 0 <= i < |r| :: r[i].counter in counters
    requires t.Some? && t.value.visit.Some? ==> t.value.visit.value.counter in counters
    ensures Total(Taken(counters, r, t)) == ReportBytes(r) + HeldBytes(t)
  {
    if r == [] {
      HeldTotal(counters, t);
    } else {
      var init, d := r[..|r| - 1], r[|r| - 1];
      TakenTotal(counters, init, t);
      var m: map<CounterId, int> := Taken(counters, init, t);
      assert r == init + [d];
      assert d.counter in counters;
      forall c | c in counters ensures Taken(counters, r, t)[c] == m[c] + if c == d.counter then d.inn + d.out else 0 {
        ReportSnoc(init, d, c);
      }
      var more: map<CounterId, int> := m[d.counter := m[d.counter] + d.inn + d.out];
      TotalUpdate(m, d.counter, m[d.counter] + d.inn + d.out);
      var all: map<CounterId, int> := Taken(counters, r, t);
      assert all == more by {
        assert all.Keys == more.Keys;
      }
      assert Total(all) == Total(m) + d.inn + d.out;
      assert ReportBytes(r) == ReportBytes(init) + d.inn + d.out;
      assert Total(m) == ReportBytes(init) + HeldBytes(t);
    }
  }

  /** A step that relays nothing leaves every credit; one that does adds to one counter. */
  lemma StepTotal(cfg: Config, s: State, e: Step)
    requires Registry(s)
    ensures Total(Credited(Next(cfg, s, e))) ==
            Total(Credited(s)) + if (e.Receive? || e.Delivered?) && Enabled(cfg, s, e) then e.n else 0
  {
    if (e.Receive? || e.Delivered?) && Enabled(cfg, s, e) {
      var c := s.links[e.l].counter.value;
      assert LinkCounterOk(s, e.l);
      RelayTotal(cfg, s, e, c);
    } else if e.Register? && Enabled(cfg, s, e) {
      RegisterTotal(s, e.l);
    } else {
      SameCredits(cfg, s, e);
    }
  }

  lemma RelayTotal(cfg: Config, s: State, e: Step, c: CounterId)
    requires (e.Receive? || e.Delivered?) && Enabled(cfg, s, e) && s.links[e.l].counter == Some(c) && c in s.counters
    ensures Total(Credited(Next(cfg, s, e))) == Total(Credited(s)) + e.n
  {
    TotalUpdate(Credited(s), c, Credited(s)[c] + e.n);
    assert Credited(Next(cfg, s, e)) == Credited(s)[c := Credited(s)[c] + e.n];
  }

  lemma RegisterTotal(s: State, l: LinkId)
    requires Registry(s) && l in s.links
    ensures Total(Credited(Registered(s, l))) == Total(Credited(s))
  {
    var s', key := Registered(s, l), s.links[l].key;
    if key in s.usage {
      assert UsageOk(s, key);
      KnownCredits(s, l);
    } else {
      assert s.nextCounter !in s.counters;
      TotalUpdate(Credited(s), s.nextCounter, 0);
      NewCredits(s, l);
    }
  }

  lemma KnownCredits(s: State, l: LinkId)
    requires l in s.links && s.links[l].key in s.usage && UsageOk(s, s.links[l].key)
    ensures Credited(Registered(s, l)) == Credited(s)
  {
    assert Registered(s, l).counters.Keys == s.counters.Keys;
  }

  lemma NewCredits(s: State, l: LinkId)
    requires l in s.links && s.links[l].key !in s.usage && s.nextCounter !in s.counters
    ensures Credited(Registered(s, l)) == Credited(s)[s.nextCounter := 0]
  {
    assert Registered(s, l).counters.Keys == s.counters.Keys + {s.nextCounter};
  }

  lemma SameCredits(cfg: Config, s: State, e: Step)
    requires Registry(s) && (!e.Register? || !Enabled(cfg, s, e))
    requires !((e.Receive? || e.Delivered?) && Enabled(cfg, s, e))
    ensures Credited(Next(cfg, s, e)) == Credited(s)
  {
    CountersKept(cfg, s, e);
    var s' := Next(cfg, s, e);
    forall c | c in s.counters ensures Credited(s')[c] == Credited(s)[c] {
      StepCredits(cfg, s, e, c);
    }
  }

  lemma CountersKept(cfg: Config, s: State, e: Step)
    requires !e.Register? || !Enabled(cfg, s, e)
    ensures Next(cfg, s, e).counters.Keys == s.counters.Keys
  {
    if LinksSame(e) {
      LinksSameCounters(cfg, s, e);
    } else if PhaseOnly(e) {
      PhaseCounters(cfg, s, e);
    }
  }

  lemma LinksSameCounters(cfg: Config, s: State, e: Step)
    requires LinksSame(e)
    ensures Next(cfg, s, e).counters.Keys == s.counters.Keys
  {
  }

  lemma PhaseCounters(cfg: Config, s: State, e: Step)
    requires PhaseOnly(e)
    ensures Next(cfg, s, e).counters.Keys == s.counters.Keys
  {
  }

  lemma {:induction false} RelayedIsCredited(cfg: Config, es: seq<Step>)
    ensures Total(Credited(Run(cfg, es))) == RelayedBytes(cfg, es)
  {
    if es != [] {
      RelayedIsCredited(cfg, es[..|es| - 1]);
      Reachable(cfg, es[..|es| - 1]);
      StepTotal(cfg, Run(cfg, es[..|es| - 1]), es[|es| - 1]);
    }
  }

  /** Bytes relayed in the run = bytes in reports + bytes drained and about to be reported + bytes still in the map +
      bytes on counters that were dropped. */
  lemma TotalsConserved(cfg: Config, es: seq<Step>)
    ensures var s := Run(cfg, es);
            RelayedBytes(cfg, es) == ReportBytes(s.reports) + HeldBytes(s.take) + OnMapTotal(s) + DroppedTotal(s)
  {
    Reachable(cfg, es);
    RelayedIsCredited(cfg, es);
    TotalsBalance(Run(cfg, es));
  }

  lemma TotalsBalance(s: State)
    requires UsageInv(s)
    ensures Total(Credited(s)) == ReportBytes(s.reports) + HeldBytes(s.take) + OnMapTotal(s) + DroppedTotal(s)
  {
    var taken := Taken(s.counters.Keys, s.reports, s.take);
    forall c | c in s.counters ensures Credited(s)[c] == taken[c] + Remaining(s)[c] {
      assert Balanced(s, c);
    }
    TotalAdd(taken, Remaining(s), Credited(s));
    TotalSplit(Remaining(s), LiveCounters(s));
    if s.take.Some? && s.take.value.visit.Some? {
      assert UsageOk(s, s.take.value.visit.value.key);
    }
    TakenTotal(s.counters.Keys, s.reports, s.take);
  }

  // ------------------------------------------------------------------ one bill

  /** The relay reads n bytes from a registered link and writes m to it, and its usage is taken. */
  function BillSteps(w: World, n: nat, m: nat): seq<Step> {
    [Receive(w.n.l, n), Delivered(w.n.l, m)] + ([TakeStart, TakeIn(NodeKey(w.cfg, w.n))] + [TakeOut, TakeDecide])
  }

  /** From a fresh hub, for every such node: one report, for that node and its grant's meshnet, with the bytes read from
      it in and the bytes written to it out. */
  lemma BilledRun(w: World, n: nat, m: nat)
    requires Plausible(w) && n + m > 0
    ensures var es := AdmitSteps(w.cfg, w.coord, w.n, w.g, w.d0) + [Register(w.n.l)] + BillSteps(w, n, m);
            Run(w.cfg, es).reports == [Delta(0, NodeKey(w.cfg, w.n), w.g.meshnet, n, m)]
  {
    var enter := AdmitSteps(w.cfg, w.coord, w.n, w.g, w.d0) + [Register(w.n.l)];
    Enters(w);
    var s := Follow(w.cfg, Initial, enter);
    Bills(w.cfg, s, w.n.l, NodeKey(w.cfg, w.n), n, m);
    FollowConcat(w.cfg, Initial, enter, BillSteps(w, n, m));
    RunFollows(w.cfg, enter + BillSteps(w, n, m));
  }

  lemma Bills(cfg: Config, s: State, l: LinkId, k: Key, n: nat, m: nat)
    requires l in s.links && s.links[l].phase.Live? && s.links[l].counter == Some(0) && s.take.None? && n + m > 0
    requires s.usage == map[k := 0] && 0 in s.counters && s.counters[0].inn == 0 && s.counters[0].out == 0
    ensures Follow(cfg, s, [Receive(l, n), Delivered(l, m)]
                           + ([TakeStart, TakeIn(k)] + [TakeOut, TakeDecide])).reports
            == s.reports + [Delta(0, k, s.counters[0].meshnet, n, m)]
  {
    Relays(cfg, s, l, n, m);
    var t := Follow(cfg, s, [Receive(l, n), Delivered(l, m)]);
    Takes(cfg, t, k);
    FollowConcat(cfg, s, [Receive(l, n), Delivered(l, m)], [TakeStart, TakeIn(k)] + [TakeOut, TakeDecide]);
  }

  lemma Relays(cfg: Config, s: State, l: LinkId, n: nat, m: nat)
    requires l in s.links && s.links[l].phase.Live? && s.links[l].counter == Some(0)
    requires 0 in s.counters && s.counters[0].inn == 0 && s.counters[0].out == 0
    ensures var t := Follow(cfg, s, [Receive(l, n), Delivered(l, m)]);
            && t.usage == s.usage && t.take == s.take && t.reports == s.reports && 0 in t.counters
            && t.counters[0].inn == n && t.counters[0].out == m && t.counters[0].meshnet == s.counters[0].meshnet
  {
    FollowTwo(cfg, s, Receive(l, n), Delivered(l, m));
  }

  lemma Takes(cfg: Config, t: State, k: Key)
    requires t.take.None? && t.usage == map[k := 0] && 0 in t.counters && t.counters[0].inn + t.counters[0].out > 0
    ensures Follow(cfg, t, [TakeStart, TakeIn(k)] + [TakeOut, TakeDecide]).reports
            == t.reports + [Delta(0, k, t.counters[0].meshnet, t.counters[0].inn, t.counters[0].out)]
  {
    FollowTwo(cfg, t, TakeStart, TakeIn(k));
    FollowConcat(cfg, t, [TakeStart, TakeIn(k)], [TakeOut, TakeDecide]);
    TakesIn(cfg, t, k);
    var u := Follow(cfg, t, [TakeStart, TakeIn(k)]);
    FollowTwo(cfg, u, TakeOut, TakeDecide);
    TakesOut(cfg, u, k, t.counters[0].inn);
  }

  lemma TakesIn(cfg: Config, t: State, k: Key)
    requires t.take.None? && t.usage == map[k := 0] && 0 in t.counters
    ensures var u, n := Next(cfg, Next(cfg, t, TakeStart), TakeIn(k)), t.counters[0];
            && u.take.Some? && u.take.value.visit == Some(Visit(k, 0, n.inn, None))
            && u.reports == t.reports && 0 in u.counters && u.counters[0] == n.(inn := 0)
  {
    var s := Next(cfg, t, TakeStart);
    assert t.usage.Keys == {k};
    assert s == t.(take := Some(Take({k}, None)));
    assert Enabled(cfg, s, TakeIn(k));
  }

  lemma TakesOut(cfg: Config, u: State, k: Key, inn: nat)
    requires u.take.Some? && u.take.value.visit == Some(Visit(k, 0, inn, None)) && 0 in u.counters
    requires inn + u.counters[0].out > 0
    ensures Next(cfg, Next(cfg, u, TakeOut), TakeDecide).reports
            == u.reports + [Delta(0, k, u.counters[0].meshnet, inn, u.counters[0].out)]
  {
    var v := Next(cfg, u, TakeOut);
    assert v.take.value.visit == Some(Visit(k, 0, inn, Some(u.counters[0].out))) && v.reports == u.reports;
    assert Next(cfg, v, TakeDecide) == Decided(v);
  }
}
