/** How an acceptance came about: the steps of the run behind it, in order. */
module RelayHubHistory {
  import opened Collections
  import opened Wire
  import opened DerpFrames
  import opened RelayHub
  import opened RelayHubInvariants
  import opened RelayHubSafety
  import DerpAuth

  // ------------------------------------------------------------ what happened

  /** Step i: the link's goroutine read a payload while p was outstanding. */
  predicate ReadAt(cfg: Config, es: seq<Step>, i: int, l: LinkId, p: Pending, payload: seq<Byte>) {
    && 0 <= i < |es| && es[i] == ReadPending(l, payload)
    && Enabled(cfg, Run(cfg, es[..i]), es[i]) && Run(cfg, es[..i]).links[l].pending == Some(p)
  }

  /** Step j: that payload opened for that challenge, and its grant passed every check. */
  predicate CheckedAt(cfg: Config, es: seq<Step>, j: int, l: LinkId, ev: Evidence) {
    && 0 <= j < |es| && es[j] == OpenAndCheck(l)
    && var s := Run(cfg, es[..j]);
    && l in s.links && s.links[l].phase == Opening(ev.p, ev.payload) && Opened(cfg, s, l) == Checked(ev)
  }

  /** Step c: the proof was accepted. */
  predicate CommittedAt(cfg: Config, es: seq<Step>, c: int, l: LinkId, ev: Evidence) {
    && 0 <= c < |es| && es[c] == Commit(l)
    && var s := Run(cfg, es[..c]);
    && l in s.links && s.links[l].phase == Checked(ev)
  }

  /** The sweep replaces the challenge outstanding on the link. */
  predicate Rechallenges(cfg: Config, s: State, e: Step, l: LinkId) {
    && e.SweepAct? && Enabled(cfg, s, e) && s.sweeper.l == l
    && Judge(s.sweeper.now, s.sweeper.expiry, s.sweeper.pending) == Rechallenge
  }

  predicate ReplacedAt(cfg: Config, es: seq<Step>, j: int, l: LinkId) {
    0 <= j < |es| && Rechallenges(cfg, Run(cfg, es[..j]), es[j], l)
  }

  ghost predicate ReplacedAfter(cfg: Config, es: seq<Step>, i: int, l: LinkId) {
    exists j :: i < j && ReplacedAt(cfg, es, j, l)
  }

  predicate Outstanding(k: Link, p: Pending) { k.pending.Some? && k.pending.value.id == p.id }

  /** A link that is checking a proof read it at step i; the challenge it answers is still the outstanding one
      exactly if the sweep did not replace it since. */
  ghost predicate Reading(cfg: Config, es: seq<Step>, i: int, l: LinkId, p: Pending, payload: seq<Byte>) {
    && ReadAt(cfg, es, i, l, p, payload)
    && l in Run(cfg, es).links
    && (ReplacedAfter(cfg, es, i, l) <==> !Outstanding(Run(cfg, es).links[l], p))
  }

  /** The whole handshake behind an accepted proof, in order. */
  ghost predicate Proved(cfg: Config, es: seq<Step>, i: int, j: int, c: int, l: LinkId, ev: Evidence) {
    && i < j < c && ReadAt(cfg, es, i, l, ev.p, ev.payload)
    && CheckedAt(cfg, es, j, l, ev) && CommittedAt(cfg, es, c, l, ev)
  }

  ghost predicate WasProved(cfg: Config, es: seq<Step>, l: LinkId, ev: Evidence) {
    exists i, j, c :: Proved(cfg, es, i, j, c, l, ev)
  }

  ghost predicate OpeningPast(cfg: Config, es: seq<Step>, l: LinkId, p: Pending, payload: seq<Byte>) {
    exists i :: Reading(cfg, es, i, l, p, payload)
  }

  ghost predicate CheckedPast(cfg: Config, es: seq<Step>, l: LinkId, ev: Evidence) {
    exists i, j :: i < j && Reading(cfg, es, i, l, ev.p, ev.payload) && CheckedAt(cfg, es, j, l, ev)
  }

  ghost predicate LinkPast(cfg: Config, es: seq<Step>, l: LinkId)
    requires l in Run(cfg, es).links
  {
    var k := Run(cfg, es).links[l];
    && (k.phase.Opening? ==> OpeningPast(cfg, es, l, k.phase.p, k.phase.payload))
    && (k.phase.Checked? ==> CheckedPast(cfg, es, l, k.phase.ev))
    && (k.proof.Some? ==> WasProved(cfg, es, l, k.proof.value))
  }

  ghost predicate AcceptedPast(cfg: Config, es: seq<Step>, id: ChallengeId) {
    exists l, ev :: WasProved(cfg, es, l, ev) && ev.p.id == id
  }

  ghost predicate Past(cfg: Config, es: seq<Step>) {
    && (forall l | l in Run(cfg, es).links :: LinkPast(cfg, es, l))
    && (forall id | id in Run(cfg, es).accepted :: AcceptedPast(cfg, es, id))
  }

  // ------------------------------------------------------------- it stays so

  lemma Earlier(es: seq<Step>, e: Step, i: int)
    requires 0 <= i < |es|
    ensures (es + [e])[..i] == es[..i] && (es + [e])[i] == es[i]
  {
  }

  lemma ReadStays(cfg: Config, es: seq<Step>, e: Step, i: int, l: LinkId, p: Pending, payload: seq<Byte>)
    requires ReadAt(cfg, es, i, l, p, payload)
    ensures ReadAt(cfg, es + [e], i, l, p, payload)
  {
    Earlier(es, e, i);
  }

  lemma CheckedStays(cfg: Config, es: seq<Step>, e: Step, j: int, l: LinkId, ev: Evidence)
    requires CheckedAt(cfg, es, j, l, ev)
    ensures CheckedAt(cfg, es + [e], j, l, ev)
  {
    Earlier(es, e, j);
  }

  lemma ProvedStays(cfg: Config, es: seq<Step>, e: Step, l: LinkId, ev: Evidence)
    requires WasProved(cfg, es, l, ev)
    ensures WasProved(cfg, es + [e], l, ev)
  {
    var i, j, c :| Proved(cfg, es, i, j, c, l, ev);
    ReadStays(cfg, es, e, i, l, ev.p, ev.payload);
    CheckedStays(cfg, es, e, j, l, ev);
    Earlier(es, e, c);
    assert Proved(cfg, es + [e], i, j, c, l, ev);
  }

  /** One more step replaces the challenge now, or leaves the past as it was. */
  lemma ReplacedSnoc(cfg: Config, es: seq<Step>, e: Step, i: int, l: LinkId)
    requires i < |es|
    ensures ReplacedAfter(cfg, es + [e], i, l) <==>
            ReplacedAfter(cfg, es, i, l) || Rechallenges(cfg, Run(cfg, es), e, l)
  {
    RunSnoc(cfg, es, e);
    var all := es + [e];
    if ReplacedAfter(cfg, es, i, l) {
      var j :| i < j && ReplacedAt(cfg, es, j, l);
      Earlier(es, e, j);
      assert ReplacedAt(cfg, all, j, l);
    }
    if Rechallenges(cfg, Run(cfg, es), e, l) {
      assert ReplacedAt(cfg, all, |es|, l);
    }
    if ReplacedAfter(cfg, all, i, l) {
      var j :| i < j && ReplacedAt(cfg, all, j, l);
      if j < |es| {
        Earlier(es, e, j);
        assert ReplacedAt(cfg, es, j, l);
      }
    }
  }

  predicate Holding(k: Link) { k.phase.Opening? || k.phase.Checked? }

  /** The link's own three steps of accepting a proof. */
  predicate Accepting(e: Step, l: LinkId) {
    (e.ReadPending? && e.l == l) || e == OpenAndCheck(l) || e == Commit(l)
  }

  /** No other step touches a proof, or starts, moves or ends the checking of one; and of those only the sweep's
      re-challenge touches the challenge outstanding meanwhile. */
  ghost predicate Untouched(cfg: Config, s: State, e: Step, k: Link, k': Link, l: LinkId) {
    && k'.proof == k.proof
    && (Holding(k') ==>
          && k'.phase == k.phase
          && (!Rechallenges(cfg, s, e, l) ==> k'.pending == k.pending)
          && (Rechallenges(cfg, s, e, l) ==> k'.pending.Some? && k'.pending.value.id == s.nextChallenge))
  }

  lemma ChallengedUntouched(cfg: Config, s: State, e: Step, ch: DerpAuth.Challenge, eph: Key, l: LinkId)
    requires Enabled(cfg, s, e) && e == SweepAct(ch, eph) && l in s.links
    ensures l in Swept(s, ch, eph).links && Untouched(cfg, s, e, s.links[l], Swept(s, ch, eph).links[l], l)
  {
    var a := s.sweeper;
    match Judge(a.now, a.expiry, a.pending)
    case LeaveAlone => assert Swept(s, ch, eph).links == s.links;
    case CloseLink => assert Swept(s, ch, eph).links == s.links[a.l := s.links[a.l].(open := false)];
    case Rechallenge =>
  }

  lemma PhaseUntouched(cfg: Config, s: State, e: Step, l: LinkId)
    requires Enabled(cfg, s, e) && PhaseOnly(e) && l in s.links && !Accepting(e, l)
    ensures l in Next(cfg, s, e).links && Untouched(cfg, s, e, s.links[l], Next(cfg, s, e).links[l], l)
  {
    PhaseEffect(cfg, s, e);
  }

  lemma RegisterUntouched(cfg: Config, s: State, m: LinkId, l: LinkId)
    requires m in s.links && l in s.links
    ensures l in Registered(s, m).links && Untouched(cfg, s, Register(m), s.links[l], Registered(s, m).links[l], l)
  {
  }

  lemma OtherUntouched(cfg: Config, s: State, e: Step, l: LinkId)
    requires Enabled(cfg, s, e) && l in s.links && !Accepting(e, l)
    ensures l in Next(cfg, s, e).links && Untouched(cfg, s, e, s.links[l], Next(cfg, s, e).links[l], l)
  {
    if LinksSame(e) {
      LinksSameEffect(cfg, s, e);
    } else if PhaseOnly(e) {
      PhaseUntouched(cfg, s, e, l);
    } else {
      match e
      case Accept(_, _, _) =>
      case FirstChallenge(_, _, _) =>
      case Commit(_) =>
      case Register(m) => RegisterUntouched(cfg, s, m, l);
      case SweepAct(ch, eph) => ChallengedUntouched(cfg, s, e, ch, eph, l);
    }
  }

  /** Checking goes on: a re-challenge has a fresh identity, so it is seen in what is outstanding. */
  lemma ReadingStays(cfg: Config, es: seq<Step>, e: Step, i: int, l: LinkId, p: Pending, payload: seq<Byte>)
    requires Reading(cfg, es, i, l, p, payload) && Inv(cfg, Run(cfg, es))
    requires var s := Run(cfg, es); Held(s.links[l]) == Some(p)
    requires var s, s' := Run(cfg, es), Next(cfg, Run(cfg, es), e);
             && l in s'.links && Held(s'.links[l]) == Some(p)
             && (!Rechallenges(cfg, s, e, l) ==> s'.links[l].pending == s.links[l].pending)
             && (Rechallenges(cfg, s, e, l) ==>
                   s'.links[l].pending.Some? && s'.links[l].pending.value.id == s.nextChallenge)
    ensures Reading(cfg, es + [e], i, l, p, payload)
  {
    ReadStays(cfg, es, e, i, l, p, payload);
    ReplacedSnoc(cfg, es, e, i, l);
    RunSnoc(cfg, es, e);
    var s := Run(cfg, es);
    assert LinkAuth(cfg, s, l);
    assert p.id != s.nextChallenge;
  }

  lemma OtherPast(cfg: Config, es: seq<Step>, e: Step, l: LinkId)
    requires Inv(cfg, Run(cfg, es)) && l in Run(cfg, es).links && LinkPast(cfg, es, l)
    requires var s := Run(cfg, es);
             l in Next(cfg, s, e).links && Untouched(cfg, s, e, s.links[l], Next(cfg, s, e).links[l], l)
    ensures l in Run(cfg, es + [e]).links && LinkPast(cfg, es + [e], l)
  {
    RunSnoc(cfg, es, e);
    var k := Run(cfg, es + [e]).links[l];
    if k.phase.Opening? {
      var i :| Reading(cfg, es, i, l, k.phase.p, k.phase.payload);
      ReadingStays(cfg, es, e, i, l, k.phase.p, k.phase.payload);
    }
    if k.phase.Checked? {
      var ev := k.phase.ev;
      var i, j :| i < j && Reading(cfg, es, i, l, ev.p, ev.payload) && CheckedAt(cfg, es, j, l, ev);
      ReadingStays(cfg, es, e, i, l, ev.p, ev.payload);
      CheckedStays(cfg, es, e, j, l, ev);
    }
    if k.proof.Some? {
      ProvedStays(cfg, es, e, l, k.proof.value);
    }
  }

  lemma ReadPast(cfg: Config, es: seq<Step>, l: LinkId, payload: seq<Byte>)
    requires Inv(cfg, Run(cfg, es)) && l in Run(cfg, es).links && LinkPast(cfg, es, l)
    requires Enabled(cfg, Run(cfg, es), ReadPending(l, payload))
    ensures var all := es + [ReadPending(l, payload)]; l in Run(cfg, all).links && LinkPast(cfg, all, l)
  {
    var e, s := ReadPending(l, payload), Run(cfg, es);
    RunSnoc(cfg, es, e);
    if s.links[l].proof.Some? {
      ProvedStays(cfg, es, e, l, s.links[l].proof.value);
    }
    if s.links[l].pending.Some? {
      var p := s.links[l].pending.value;
      assert ReadAt(cfg, es + [e], |es|, l, p, payload);
      assert Reading(cfg, es + [e], |es|, l, p, payload);
    }
  }

  lemma CheckPast(cfg: Config, es: seq<Step>, l: LinkId)
    requires Inv(cfg, Run(cfg, es)) && l in Run(cfg, es).links && LinkPast(cfg, es, l)
    requires Enabled(cfg, Run(cfg, es), OpenAndCheck(l))
    ensures var all := es + [OpenAndCheck(l)]; l in Run(cfg, all).links && LinkPast(cfg, all, l)
  {
    var e, s := OpenAndCheck(l), Run(cfg, es);
    RunSnoc(cfg, es, e);
    OpenedLeads(cfg, s, l);
    if s.links[l].proof.Some? {
      ProvedStays(cfg, es, e, l, s.links[l].proof.value);
    }
    if Opened(cfg, s, l).Checked? {
      assert OpeningPast(cfg, es, l, s.links[l].phase.p, s.links[l].phase.payload);
      VerdictPast(cfg, es, l);
    }
  }

  lemma VerdictPast(cfg: Config, es: seq<Step>, l: LinkId)
    requires Inv(cfg, Run(cfg, es)) && Enabled(cfg, Run(cfg, es), OpenAndCheck(l))
    requires var k := Run(cfg, es).links[l]; OpeningPast(cfg, es, l, k.phase.p, k.phase.payload)
    requires Opened(cfg, Run(cfg, es), l).Checked?
    ensures CheckedPast(cfg, es + [OpenAndCheck(l)], l, Opened(cfg, Run(cfg, es), l).ev)
  {
    var e, s := OpenAndCheck(l), Run(cfg, es);
    var p, payload, ev := s.links[l].phase.p, s.links[l].phase.payload, Opened(cfg, s, l).ev;
    RunSnoc(cfg, es, e);
    var i :| Reading(cfg, es, i, l, p, payload);
    ReadingStays(cfg, es, e, i, l, p, payload);
    assert CheckedAt(cfg, es + [e], |es|, l, ev);
  }

  lemma CommitPast(cfg: Config, es: seq<Step>, l: LinkId)
    requires l in Run(cfg, es).links && LinkPast(cfg, es, l)
    requires Enabled(cfg, Run(cfg, es), Commit(l))
    ensures var all := es + [Commit(l)];
            && l in Run(cfg, all).links && LinkPast(cfg, all, l)
            && WasProved(cfg, all, l, Run(cfg, es).links[l].phase.ev)
  {
    var e, ev := Commit(l), Run(cfg, es).links[l].phase.ev;
    RunSnoc(cfg, es, e);
    var i, j :| i < j && Reading(cfg, es, i, l, ev.p, ev.payload) && CheckedAt(cfg, es, j, l, ev);
    ReadStays(cfg, es, e, i, l, ev.p, ev.payload);
    CheckedStays(cfg, es, e, j, l, ev);
    assert CommittedAt(cfg, es + [e], |es|, l, ev);
    assert Proved(cfg, es + [e], i, j, |es|, l, ev);
  }

  lemma LinkPastStep(cfg: Config, es: seq<Step>, e: Step, l: LinkId)
    requires Past(cfg, es) && Inv(cfg, Run(cfg, es)) && l in Run(cfg, es + [e]).links
    ensures LinkPast(cfg, es + [e], l)
  {
    RunSnoc(cfg, es, e);
    var s := Run(cfg, es);
    if l in s.links {
      assert LinkPast(cfg, es, l);
      if !Enabled(cfg, s, e) {
        OtherPast(cfg, es, e, l);
      } else if e.ReadPending? && e.l == l {
        ReadPast(cfg, es, l, e.payload);
      } else if e == OpenAndCheck(l) {
        CheckPast(cfg, es, l);
      } else if e == Commit(l) {
        CommitPast(cfg, es, l);
      } else {
        OtherUntouched(cfg, s, e, l);
        OtherPast(cfg, es, e, l);
      }
    } else {
      NewLink(cfg, s, e, l);
    }
  }

  lemma AcceptedGrows(cfg: Config, s: State, e: Step)
    ensures Next(cfg, s, e).accepted ==
            if e.Commit? && Enabled(cfg, s, e) then s.accepted + multiset{s.links[e.l].phase.ev.p.id} else s.accepted
  {
    if LinksSame(e) {
      LinksSameEffect(cfg, s, e);
    } else if PhaseOnly(e) && Enabled(cfg, s, e) {
      PhaseEffect(cfg, s, e);
    }
  }

  lemma AcceptedPastStep(cfg: Config, es: seq<Step>, e: Step, id: ChallengeId)
    requires Past(cfg, es) && id in Run(cfg, es + [e]).accepted
    ensures AcceptedPast(cfg, es + [e], id)
  {
    RunSnoc(cfg, es, e);
    var s := Run(cfg, es);
    AcceptedGrows(cfg, s, e);
    if id in s.accepted {
      assert AcceptedPast(cfg, es, id);
      var l, ev :| WasProved(cfg, es, l, ev) && ev.p.id == id;
      ProvedStays(cfg, es, e, l, ev);
    } else {
      assert LinkPast(cfg, es, e.l);
      CommitPast(cfg, es, e.l);
    }
  }

  lemma {:induction false} AlwaysPast(cfg: Config, es: seq<Step>)
    ensures Past(cfg, es)
  {
    if es != [] {
      var before, e := es[..|es| - 1], es[|es| - 1];
      assert before + [e] == es;
      AlwaysPast(cfg, before);
      Reachable(cfg, before);
      forall l | l in Run(cfg, es).links ensures LinkPast(cfg, es, l) {
        LinkPastStep(cfg, before, e, l);
      }
      forall id | id in Run(cfg, es).accepted ensures AcceptedPast(cfg, es, id) {
        AcceptedPastStep(cfg, before, e, id);
      }
    }
  }

  // ---------------------------------------------------------------- promises

  /** Every acceptance, in every run, has its handshake: the payload was read on that link while that very challenge
      was outstanding on it, then opened and checked, then committed. A proof read with none outstanding counts for
      nothing, ever. */
  lemma AcceptanceWasAsked(cfg: Config, es: seq<Step>, id: ChallengeId)
    requires id in Run(cfg, es).accepted
    ensures exists l, ev :: WasProved(cfg, es, l, ev) && ev.p.id == id
  {
    AlwaysPast(cfg, es);
    assert AcceptedPast(cfg, es, id);
  }

  /** With authentication required, so does every registered link, for the evidence on its record. */
  lemma RegistrationWasAsked(cfg: Config, es: seq<Step>, k: Key)
    requires cfg.require && k in Run(cfg, es).clients
    ensures var s := Run(cfg, es);
            && s.clients[k] in s.links && s.links[s.clients[k]].proof.Some?
            && WasProved(cfg, es, s.clients[k], s.links[s.clients[k]].proof.value)
  {
    RegisteredIsAdmitted(cfg, es, k);
    AlwaysPast(cfg, es);
    assert LinkPast(cfg, es, Run(cfg, es).clients[k]);
  }

  /** A proof about to be accepted was read at some step i, and answers the newest challenge of its link if and only
      if the sweep re-challenged the link at no step after that one. */
  lemma NewestUnlessReplaced(cfg: Config, es: seq<Step>, l: LinkId) returns (i: int)
    requires Enabled(cfg, Run(cfg, es), Commit(l))
    ensures var k := Run(cfg, es).links[l];
            && ReadAt(cfg, es, i, l, k.phase.ev.p, k.phase.ev.payload)
            && (k.newest == Some(k.phase.ev.p.id) <==> !ReplacedAfter(cfg, es, i, l))
  {
    AlwaysPast(cfg, es);
    assert LinkPast(cfg, es, l);
    i := CheckedRead(cfg, es, l);
    Reachable(cfg, es);
    NewestIsOutstanding(Run(cfg, es), l);
  }

  lemma CheckedRead(cfg: Config, es: seq<Step>, l: LinkId) returns (i: int)
    requires l in Run(cfg, es).links && LinkPast(cfg, es, l) && Run(cfg, es).links[l].phase.Checked?
    ensures var ev := Run(cfg, es).links[l].phase.ev; Reading(cfg, es, i, l, ev.p, ev.payload)
  {
    var ev := Run(cfg, es).links[l].phase.ev;
    assert CheckedPast(cfg, es, l, ev);
    var x, j :| x < j && Reading(cfg, es, x, l, ev.p, ev.payload) && CheckedAt(cfg, es, j, l, ev);
    i := x;
  }

  lemma NewestIsOutstanding(s: State, l: LinkId)
    requires ChallengeInv(s) && l in s.links && Held(s.links[l]).Some?
    ensures s.links[l].newest == Some(Held(s.links[l]).value.id) <==> Outstanding(s.links[l], Held(s.links[l]).value)
  {
    assert ChallengeOk(s, s.links[l]);
  }
}
