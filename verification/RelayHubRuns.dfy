/** Answers to challenges, timely and late, and runs of the hub built from an honest node's own messages. */
module RelayHubRuns {
  import opened Collections
  import opened Wire
  import opened DerpFrames
  import opened RelayHub
  import opened RelayHubInvariants
  import opened RelayHubSafety
  import DerpAuth
  import RelayGrants

  // ---------------------------------------------------------------- answers

  /** What acceptProof does with a payload up to its second locked section. */
  function Judged(cfg: Config, s: State, l: LinkId, payload: seq<Byte>): State {
    Next(cfg, Next(cfg, s, ReadPending(l, payload)), OpenAndCheck(l))
  }

  lemma JudgedExact(cfg: Config, s: State, l: LinkId, payload: seq<Byte>)
    requires Enabled(cfg, s, ReadPending(l, payload))
    ensures s.links[l].pending.None? ==> Judged(cfg, s, l, payload) == s
    ensures s.links[l].pending.Some? ==>
              var k := s.links[l];
              var open := WithPhase(s, l, Opening(k.pending.value, payload));
              Judged(cfg, s, l, payload) == WithPhase(s, l, Opened(cfg, open, l))
  {
    var k := s.links[l];
    if k.pending.Some? {
      var open := WithPhase(s, l, Opening(k.pending.value, payload));
      var phase := Opened(cfg, open, l);
      assert open.links[l := open.links[l].(phase := phase)] == s.links[l := k.(phase := phase)];
    }
  }

  /** A proof sealed to one challenge opens for no challenge with another key. */
  lemma OpensOnlyItsOwn(cfg: Config, binding: Option<Key>, p: Pending, key: Key, payload: seq<Byte>,
                        made: DerpAuth.Purpose, was: DerpAuth.Challenge, self: Key, priv: Key, grant: seq<Byte>)
    requires DerpAuth.Lawful(cfg.box) && DerpAuth.ForRelay(made)
    requires DerpAuth.SealRelay(cfg.box, made, was, self, priv, grant) == Some(payload)
    ensures OpenProof(cfg, binding, p, key, payload).Grant? ==>
              p.ch.ephPub == was.ephPub && key == self && made == Demanded(binding)
  {
    DerpAuth.SealedFits(cfg.box, made, was, self, priv, grant);
    if OpenProof(cfg, binding, p, key, payload).Grant? {
      DerpAuth.GrantMeansOpened(cfg.box, Demanded(binding), p.ch, p.ephPriv, key, payload);
      DerpAuth.NoStandIn(cfg.box, made, self, was.ephPub, was.nonce, was.ephPub, priv,
                         Demanded(binding), p.ch, p.ephPriv, key, payload);
    }
  }

  /** A late answer: sealed, for any transport, to a challenge that is not the outstanding one. It is ignored if and
      only if no challenge is outstanding when it is read; if another one is, it ends the link. */
  lemma LateAnswerExact(cfg: Config, s: State, l: LinkId, payload: seq<Byte>,
                        made: DerpAuth.Purpose, was: DerpAuth.Challenge, self: Key, priv: Key, grant: seq<Byte>)
    requires DerpAuth.Lawful(cfg.box) && DerpAuth.ForRelay(made)
    requires DerpAuth.SealRelay(cfg.box, made, was, self, priv, grant) == Some(payload)
    requires Enabled(cfg, s, ReadPending(l, payload))
    requires s.links[l].pending.Some? ==> s.links[l].pending.value.ch.ephPub != was.ephPub
    ensures Judged(cfg, s, l, payload) == s <==> s.links[l].pending.None?
    ensures s.links[l].pending.Some? ==> Judged(cfg, s, l, payload) == WithPhase(s, l, Failing(s.links[l]))
  {
    JudgedExact(cfg, s, l, payload);
    var k := s.links[l];
    if k.pending.Some? {
      OpensOnlyItsOwn(cfg, k.binding, k.pending.value, k.key, payload, made, was, self, priv, grant);
      assert WithPhase(s, l, Failing(k)).links[l].phase != k.phase;
    }
  }

  /** With authentication required: whatever payload some key sealed, for whatever purpose, got a link registered, it
      was sealed for that node and for that link's transport: on TLS bound to the certificate the link presented, on
      plaintext the legacy proof. */
  lemma RegisteredInItsFormat(cfg: Config, es: seq<Step>, k: Key, made: DerpAuth.Purpose, was: DerpAuth.Challenge,
                              self: Key, priv: Key, grant: seq<Byte>)
    requires cfg.require && DerpAuth.Lawful(cfg.box) && DerpAuth.ForRelay(made) && k in Run(cfg, es).clients
    requires var s := Run(cfg, es);
             var l := s.clients[k];
             l in s.links && s.links[l].proof.Some?
             && DerpAuth.SealRelay(cfg.box, made, was, self, priv, grant) == Some(s.links[l].proof.value.payload)
    ensures var s := Run(cfg, es);
            var link := s.links[s.clients[k]];
            && self == k && was.ephPub == link.proof.value.p.ch.ephPub
            && (link.binding.Some? ==> made == DerpAuth.BoundRelay(link.binding.value))
            && (link.binding.None? ==> made == DerpAuth.Relay)
  {
    RegisteredIsAdmitted(cfg, es, k);
    var link := Run(cfg, es).links[Run(cfg, es).clients[k]];
    var ev := link.proof.value;
    OpensOnlyItsOwn(cfg, link.binding, ev.p, k, ev.payload, made, was, self, priv, grant);
  }

  // ---------------------------------------------------------- an honest node

  /** A connection of the node that holds priv; and what a relay draws for a challenge. */
  datatype Node = Node(l: LinkId, binding: Option<Key>, priv: Key)
  datatype Draw = Draw(nonce: seq<Byte>, eph: Key)

  function NodeKey(cfg: Config, n: Node): Key { cfg.box.publicOf(n.priv) }

  function ChallengeOf(cfg: Config, d: Draw): DerpAuth.Challenge {
    DerpAuth.Challenge(cfg.box.publicOf(d.eph), d.nonce)
  }

  /** The coordinator signs g for this node, and this relay's configuration admits it. */
  ghost predicate Entitled(cfg: Config, coord: seq<Byte>, n: Node, g: RelayGrants.Grant) {
    && cfg.require && DerpAuth.Lawful(cfg.box) && RelayGrants.KeyPair(cfg.ed25519, coord, cfg.coordPub)
    && g.node == NodeKey(cfg, n) && g.node != RelayGrants.ZERO_KEY
    && (g.scope == 1 || (g.scope == 2 && cfg.kind == RelayGrants.SelfHosted))
    && (cfg.meshnet != 0 ==> g.meshnet == cfg.meshnet)
    && RelayGrants.Encodable(g) && g.expiry % 1_000_000_000 == 0
  }

  function Blob(cfg: Config, coord: seq<Byte>, g: RelayGrants.Grant): seq<Byte> {
    RelayGrants.SignedBytes(g) + cfg.ed25519.sign(coord, RelayGrants.SignedBytes(g))
  }

  /** The node's proof: bound to the certificate it was shown on a TLS link, the legacy one on a plaintext link. */
  function Answer(cfg: Config, n: Node, d: Draw, blob: seq<Byte>): seq<Byte> {
    var ch, key := ChallengeOf(cfg, d), NodeKey(cfg, n);
    var r := match n.binding
      case Some(b) => DerpAuth.SealRelay(cfg.box, DerpAuth.BoundRelay(b), ch, key, n.priv, blob)
      case None => DerpAuth.SealRelay(cfg.box, DerpAuth.Relay, ch, key, n.priv, blob);
    if r.Some? then r.value else []
  }

  lemma BlobChecks(cfg: Config, coord: seq<Byte>, n: Node, g: RelayGrants.Grant, now: int)
    requires Entitled(cfg, coord, n, g) && now <= g.expiry
    ensures CheckGrant(cfg, NodeKey(cfg, n), Blob(cfg, coord, g), now) == Some(g)
    ensures |Blob(cfg, coord, g)| == RelayGrants.GRANT_LEN
  {
    RelayGrants.SignVerify(cfg.ed25519, coord, cfg.coordPub, g, now);
    assert RelayGrants.WholeSeconds(g) == g;
  }

  /** The link's goroutine may read an answer to the challenge drawn as d, which is outstanding as p. */
  predicate Asked(cfg: Config, s: State, n: Node, d: Draw, p: Pending) {
    && n.l in s.links && Reads(cfg, s.links[n.l])
    && s.links[n.l].key == NodeKey(cfg, n) && s.links[n.l].binding == n.binding && s.links[n.l].pending == Some(p)
    && p.ch == ChallengeOf(cfg, d) && p.ephPriv == d.eph
  }

  function EvidenceOf(cfg: Config, coord: seq<Byte>, n: Node, g: RelayGrants.Grant, d: Draw, p: Pending, at: int)
    : Evidence
  {
    Evidence(p, Answer(cfg, n, d, Blob(cfg, coord, g)), Blob(cfg, coord, g), g, at)
  }

  /** A timely answer with a grant that still runs passes every check, on either transport. */
  lemma TimelyAnswer(cfg: Config, coord: seq<Byte>, n: Node, g: RelayGrants.Grant, s: State, d: Draw, p: Pending)
    requires Entitled(cfg, coord, n, g) && Asked(cfg, s, n, d, p) && s.clock <= g.expiry
    ensures Judged(cfg, s, n.l, Answer(cfg, n, d, Blob(cfg, coord, g)))
            == WithPhase(s, n.l, Checked(EvidenceOf(cfg, coord, n, g, d, p, s.clock)))
  {
    var blob := Blob(cfg, coord, g);
    BlobChecks(cfg, coord, n, g, s.clock);
    DerpAuth.SealOpen(cfg.box, Demanded(n.binding), d.nonce, d.eph, n.priv, blob);
    JudgedExact(cfg, s, n.l, Answer(cfg, n, d, blob));
  }

  // ------------------------------------------------------------------- runs

  function Follow(cfg: Config, s: State, es: seq<Step>): State {
    if es == [] then s else Next(cfg, Follow(cfg, s, es[..|es| - 1]), es[|es| - 1])
  }

  lemma {:induction false} RunFollows(cfg: Config, es: seq<Step>)
    ensures Run(cfg, es) == Follow(cfg, Initial, es)
  {
    if es != [] {
      RunFollows(cfg, es[..|es| - 1]);
    }
  }

  lemma {:induction false} FollowConcat(cfg: Config, s: State, a: seq<Step>, b: seq<Step>)
    ensures Follow(cfg, s, a + b) == Follow(cfg, Follow(cfg, s, a), b)
  {
    if b == [] {
      assert a + b == a;
    } else {
      var n := |b| - 1;
      FollowConcat(cfg, s, a, b[..n]);
      assert (a + b)[..|a + b| - 1] == a + b[..n] && (a + b)[|a + b| - 1] == b[n];
    }
  }

  lemma FollowOne(cfg: Config, s: State, a: Step)
    ensures Follow(cfg, s, [a]) == Next(cfg, s, a)
  {
    assert [a][..0] == [];
  }

  lemma FollowTwo(cfg: Config, s: State, a: Step, b: Step)
    ensures Follow(cfg, s, [a, b]) == Next(cfg, Next(cfg, s, a), b)
  {
    FollowOne(cfg, s, a);
    assert [a, b][..1] == [a];
  }

  /** The node connects, is challenged and answers. */
  function AdmitSteps(cfg: Config, coord: seq<Byte>, n: Node, g: RelayGrants.Grant, d: Draw): seq<Step> {
    [Accept(n.l, NodeKey(cfg, n), n.binding), FirstChallenge(n.l, ChallengeOf(cfg, d), d.eph)]
    + (AnswerSteps(cfg, coord, n, g, d) + [Commit(n.l)])
  }

  function AnswerSteps(cfg: Config, coord: seq<Byte>, n: Node, g: RelayGrants.Grant, d: Draw): seq<Step> {
    [ReadPending(n.l, Answer(cfg, n, d, Blob(cfg, coord, g))), OpenAndCheck(n.l)]
  }

  lemma AnswerFollows(cfg: Config, coord: seq<Byte>, n: Node, g: RelayGrants.Grant, s: State, d: Draw, p: Pending)
    requires Entitled(cfg, coord, n, g) && Asked(cfg, s, n, d, p) && s.clock <= g.expiry
    ensures Follow(cfg, s, AnswerSteps(cfg, coord, n, g, d))
            == WithPhase(s, n.l, Checked(EvidenceOf(cfg, coord, n, g, d, p, s.clock)))
  {
    TimelyAnswer(cfg, coord, n, g, s, d, p);
    FollowTwo(cfg, s, ReadPending(n.l, Answer(cfg, n, d, Blob(cfg, coord, g))), OpenAndCheck(n.l));
  }

  lemma AnswerCommits(cfg: Config, coord: seq<Byte>, n: Node, g: RelayGrants.Grant, s: State, d: Draw, p: Pending)
    requires Entitled(cfg, coord, n, g) && Asked(cfg, s, n, d, p) && s.clock <= g.expiry
    ensures Follow(cfg, s, AnswerSteps(cfg, coord, n, g, d) + [Commit(n.l)])
            == Committed(WithPhase(s, n.l, Checked(EvidenceOf(cfg, coord, n, g, d, p, s.clock))), n.l)
  {
    AnswerFollows(cfg, coord, n, g, s, d, p);
    FollowConcat(cfg, s, AnswerSteps(cfg, coord, n, g, d), [Commit(n.l)]);
    var t := Follow(cfg, s, AnswerSteps(cfg, coord, n, g, d));
    FollowOne(cfg, t, Commit(n.l));
  }

  /** The link a fresh connection has become once its proof is accepted. */
  function AdmittedLink(cfg: Config, coord: seq<Byte>, n: Node, g: RelayGrants.Grant, d: Draw, p: Pending, at: int)
    : Link
  {
    Link(NodeKey(cfg, n), n.binding, true, Authenticated, None, g.expiry, g.meshnet, None,
         Some(EvidenceOf(cfg, coord, n, g, d, p, at)), Some(p.id))
  }

  /** All but links and challenges. */
  predicate SameRest(s: State, s': State) {
    && s'.clients == s.clients && s'.usage == s.usage && s'.counters == s.counters && s'.nextCounter == s.nextCounter
    && s'.reports == s.reports && s'.take == s.take && s'.sweeper == s.sweeper && s'.clock == s.clock
  }

  lemma Connects(cfg: Config, n: Node, d: Draw, s: State)
    requires cfg.require && n.l !in s.links
    ensures var s' := Follow(cfg, s, [Accept(n.l, NodeKey(cfg, n), n.binding),
                                      FirstChallenge(n.l, ChallengeOf(cfg, d), d.eph)]);
            var p := Pending(s.nextChallenge, ChallengeOf(cfg, d), d.eph, s.clock);
            && s'.links == s.links[n.l := Link(NodeKey(cfg, n), n.binding, true, Handshake, None, ZERO_TIME, 0, Some(p),
                                               None, Some(p.id))]
            && SameRest(s, s') && s'.nextChallenge == s.nextChallenge + 1 && Asked(cfg, s', n, d, p)
  {
    var a, b := Accept(n.l, NodeKey(cfg, n), n.binding), FirstChallenge(n.l, ChallengeOf(cfg, d), d.eph);
    FollowTwo(cfg, s, a, b);
    var s1 := Next(cfg, s, a);
    assert s1.links[n.l].phase.Connected?;
    assert Next(cfg, s1, b) == Challenged(s1, n.l, ChallengeOf(cfg, d), d.eph, Handshake);
  }

  lemma Admits(cfg: Config, coord: seq<Byte>, n: Node, g: RelayGrants.Grant, d: Draw, s: State)
    requires Entitled(cfg, coord, n, g) && n.l !in s.links && s.clock <= g.expiry
    ensures var s' := Follow(cfg, s, AdmitSteps(cfg, coord, n, g, d));
            var p := Pending(s.nextChallenge, ChallengeOf(cfg, d), d.eph, s.clock);
            && s'.links == s.links[n.l := AdmittedLink(cfg, coord, n, g, d, p, s.clock)]
            && SameRest(s, s') && s'.nextChallenge == s.nextChallenge + 1
  {
    var hello := [Accept(n.l, NodeKey(cfg, n), n.binding), FirstChallenge(n.l, ChallengeOf(cfg, d), d.eph)];
    var p := Pending(s.nextChallenge, ChallengeOf(cfg, d), d.eph, s.clock);
    Connects(cfg, n, d, s);
    AnswerCommits(cfg, coord, n, g, Follow(cfg, s, hello), d, p);
    FollowConcat(cfg, s, hello, AnswerSteps(cfg, coord, n, g, d) + [Commit(n.l)]);
  }

  // --------------------------------------------------- one link and the sweep

  /** The relay serves one link, and nothing else is going on. */
  predicate Alone(s: State, n: Node, k: Link) {
    s.links == map[n.l := k] && s.clients == map[k.key := n.l] && s.take.None? && s.sweeper.Asleep?
  }

  function SweepTo(l: LinkId): seq<Step> { [SweepStart, Snapshot] + [SweepRead(l)] }

  lemma Snapshots(cfg: Config, s: State, n: Node, k: Link)
    requires cfg.require && Alone(s, n, k)
    ensures Next(cfg, Next(cfg, s, SweepStart), Snapshot) == s.(sweeper := Sweeping(s.clock, {n.l}))
  {
    var s1 := Next(cfg, s, SweepStart);
    assert s1 == s.(sweeper := Woken(s.clock));
    assert (set x | x in s1.clients :: s1.clients[x]) == {n.l} by { assert k.key in s1.clients; }
  }

  lemma SweepReaches(cfg: Config, s: State, n: Node, k: Link)
    requires cfg.require && Alone(s, n, k)
    ensures Follow(cfg, s, SweepTo(n.l)) == s.(sweeper := Acting(s.clock, {}, n.l, k.expiry, k.pending))
  {
    FollowTwo(cfg, s, SweepStart, Snapshot);
    Snapshots(cfg, s, n, k);
    var s2 := s.(sweeper := Sweeping(s.clock, {n.l}));
    FollowConcat(cfg, s, [SweepStart, Snapshot], [SweepRead(n.l)]);
    FollowOne(cfg, s2, SweepRead(n.l));
    assert {n.l} - {n.l} == {};
  }

  function SweepSteps(cfg: Config, l: LinkId, d: Draw): seq<Step> {
    SweepTo(l) + [SweepAct(ChallengeOf(cfg, d), d.eph), SweepEnd]
  }

  lemma SweepActs(cfg: Config, s: State, l: LinkId, ch: DerpAuth.Challenge, eph: Key)
    requires l in s.links && s.sweeper.Acting? && s.sweeper.l == l && s.sweeper.todo == {}
    requires Judge(s.sweeper.now, s.sweeper.expiry, s.sweeper.pending).Rechallenge?
    ensures Next(cfg, Next(cfg, s, SweepAct(ch, eph)), SweepEnd)
            == Challenged(s, l, ch, eph, s.links[l].phase).(sweeper := Asleep)
  {
    var s' := Next(cfg, s, SweepAct(ch, eph));
    assert s' == Challenged(s, l, ch, eph, s.links[l].phase).(sweeper := Sweeping(s.sweeper.now, {}));
  }

  lemma SweepChallenges(cfg: Config, s: State, n: Node, k: Link, d: Draw)
    requires cfg.require && Alone(s, n, k) && Judge(s.clock, k.expiry, k.pending).Rechallenge?
    ensures Follow(cfg, s, SweepSteps(cfg, n.l, d)) == Challenged(s, n.l, ChallengeOf(cfg, d), d.eph, k.phase)
  {
    SweepReaches(cfg, s, n, k);
    var s3, act := Follow(cfg, s, SweepTo(n.l)), SweepAct(ChallengeOf(cfg, d), d.eph);
    FollowConcat(cfg, s, SweepTo(n.l), [act, SweepEnd]);
    FollowTwo(cfg, s3, act, SweepEnd);
    SweepActs(cfg, s3, n.l, ChallengeOf(cfg, d), d.eph);
  }

  // -------------------------------------------------- the superseded challenge

  /** A relay, a coordinator, a node with a grant that runs out in one to ten minutes, and three challenges. */
  datatype World = World(cfg: Config, coord: seq<Byte>, n: Node, g: RelayGrants.Grant, d0: Draw, d1: Draw, d2: Draw)

  ghost predicate Plausible(w: World) {
    Entitled(w.cfg, w.coord, w.n, w.g) && REAUTH_TICK <= w.g.expiry < REAUTH_LEAD
  }

  /** Nothing here contradicts itself: with boxes that append a tag and signatures that are one, any key but zero, any
      two other keys and any nonces make such a world. */
  lemma SomeWorld(tag: seq<Byte>, sig: seq<Byte>, pub: seq<Byte>, key: Key, e1: Key, e2: Key, nonce: seq<Byte>)
    returns (w: World)
    requires |tag| == DerpAuth.OVERHEAD && |sig| == 64 && |pub| == 32 && key != RelayGrants.ZERO_KEY && e1 != e2
    ensures Plausible(w) && ChallengeOf(w.cfg, w.d1).ephPub != ChallengeOf(w.cfg, w.d2).ephPub
  {
    var box := TagBox(tag);
    LawfulBox(tag);
    var ed := RelayGrants.Ed25519((priv, m) => sig, (pub, m, sig) => true);
    var g := RelayGrants.Grant(key, 7, RelayGrants.SCOPE_ALL, 2 * REAUTH_TICK);
    var cfg := Config(true, pub, RelayGrants.Platform, 0, ed, box);
    w := World(cfg, sig, Node(0, None, key), g, Draw(nonce, e1), Draw(nonce, e1), Draw(nonce, e2));
    assert RelayGrants.KeyPair(ed, sig, pub);
    assert g.expiry == 120 * RelayGrants.SECOND;
  }

  function TagBox(tag: seq<Byte>): DerpAuth.Box {
    DerpAuth.Box((m, n, pub, priv) => m + tag,
                 (b, n, pub, priv) => if |b| < |tag| then None else Some(b[..|b| - |tag|]),
                 k => k)
  }

  lemma LawfulBox(tag: seq<Byte>)
    requires |tag| == DerpAuth.OVERHEAD
    ensures DerpAuth.Lawful(TagBox(tag))
  {
    forall m: seq<Byte> ensures (m + tag)[..|m|] == m {
    }
  }

  /** The node connects and registers; the sweep challenges it; a minute passes. */
  function WaitSteps(w: World): seq<Step> {
    AdmitSteps(w.cfg, w.coord, w.n, w.g, w.d0) + [Register(w.n.l)]
    + SweepSteps(w.cfg, w.n.l, w.d1) + [Tick(REAUTH_TICK)]
  }

  /** The second challenge, unanswered. */
  function Second(w: World): Pending { Pending(1, ChallengeOf(w.cfg, w.d1), w.d1.eph, 0) }

  function LinkOf(w: World): Link {
    var p := Pending(0, ChallengeOf(w.cfg, w.d0), w.d0.eph, 0);
    AdmittedLink(w.cfg, w.coord, w.n, w.g, w.d0, p, 0).(phase := Live, counter := Some(0))
  }

  function WaitingLink(w: World): Link { LinkOf(w).(pending := Some(Second(w)), newest := Some(1)) }

  lemma Enters(w: World)
    requires Plausible(w)
    ensures var s := Follow(w.cfg, Initial, AdmitSteps(w.cfg, w.coord, w.n, w.g, w.d0) + [Register(w.n.l)]);
            && Alone(s, w.n, LinkOf(w)) && s.clock == 0 && s.nextChallenge == 1
            && s.usage == map[NodeKey(w.cfg, w.n) := 0] && s.nextCounter == 1 && s.reports == []
            && s.counters == map[0 := Counter(NodeKey(w.cfg, w.n), 0, 0, w.g.meshnet, 0, 0)]
  {
    var steps := AdmitSteps(w.cfg, w.coord, w.n, w.g, w.d0);
    Admits(w.cfg, w.coord, w.n, w.g, w.d0, Initial);
    var s := Follow(w.cfg, Initial, steps);
    FollowConcat(w.cfg, Initial, steps, [Register(w.n.l)]);
    FollowOne(w.cfg, s, Register(w.n.l));
    assert Next(w.cfg, s, Register(w.n.l)) == Registered(s, w.n.l);
    FirstRegistered(s, w.n.l);
  }

  lemma FirstRegistered(s: State, l: LinkId)
    requires s.links.Keys == {l} && s.clients == map[] && s.usage == map[] && s.counters == map[] && s.nextCounter == 0
    ensures var s', k := Registered(s, l), s.links[l];
            && s'.links == map[l := k.(phase := Live, counter := Some(0))] && s'.clients == map[k.key := l]
            && s'.usage == map[k.key := 0] && s'.nextCounter == 1
            && s'.counters == map[0 := Counter(k.key, 0, 0, k.meshnet, 0, 0)]
  {
  }

  lemma Rechallenged(w: World)
    requires Plausible(w)
    ensures var s := Follow(w.cfg, Initial, AdmitSteps(w.cfg, w.coord, w.n, w.g, w.d0) + [Register(w.n.l)]
                                            + SweepSteps(w.cfg, w.n.l, w.d1));
            Alone(s, w.n, WaitingLink(w)) && s.clock == 0 && s.nextChallenge == 2
  {
    var enter := AdmitSteps(w.cfg, w.coord, w.n, w.g, w.d0) + [Register(w.n.l)];
    Enters(w);
    var s := Follow(w.cfg, Initial, enter);
    SweepChallenges(w.cfg, s, w.n, LinkOf(w), w.d1);
    FollowConcat(w.cfg, Initial, enter, SweepSteps(w.cfg, w.n.l, w.d1));
  }

  lemma Waits(w: World)
    requires Plausible(w)
    ensures var s := Follow(w.cfg, Initial, WaitSteps(w));
            Alone(s, w.n, WaitingLink(w)) && s.clock == REAUTH_TICK && s.nextChallenge == 2
  {
    var asked := AdmitSteps(w.cfg, w.coord, w.n, w.g, w.d0) + [Register(w.n.l)] + SweepSteps(w.cfg, w.n.l, w.d1);
    Rechallenged(w);
    FollowConcat(w.cfg, Initial, asked, [Tick(REAUTH_TICK)]);
    FollowOne(w.cfg, Follow(w.cfg, Initial, asked), Tick(REAUTH_TICK));
  }

  /** The node's answer to the second challenge is opened while the sweep comes round again. */
  function RaceSteps(w: World): seq<Step> {
    WaitSteps(w) + AnswerSteps(w.cfg, w.coord, w.n, w.g, w.d1) + SweepTo(w.n.l)
  }

  lemma RaceReached(w: World)
    requires Plausible(w)
    ensures var s := Run(w.cfg, RaceSteps(w));
            && w.n.l in s.links && s.links[w.n.l].phase.Checked? && s.links[w.n.l].phase.ev.p == Second(w)
            && s.sweeper.Acting? && s.sweeper.l == w.n.l && s.nextChallenge == 2
            && Judge(s.sweeper.now, s.sweeper.expiry, s.sweeper.pending) == Rechallenge
  {
    var cfg, l := w.cfg, w.n.l;
    Waits(w);
    var s := Follow(cfg, Initial, WaitSteps(w));
    var answer := AnswerSteps(cfg, w.coord, w.n, w.g, w.d1);
    AnswerFollows(cfg, w.coord, w.n, w.g, s, w.d1, Second(w));
    FollowConcat(cfg, Initial, WaitSteps(w), answer);
    var t := Follow(cfg, Initial, WaitSteps(w) + answer);
    SweepReaches(cfg, t, w.n, t.links[l]);
    FollowConcat(cfg, Initial, WaitSteps(w) + answer, SweepTo(l));
    RunFollows(cfg, RaceSteps(w));
  }

  /** A challenge that is not the newest is accepted, and the newest is discarded unanswered: in this run, for every
      such relay, coordinator, node and grant. */
  lemma SupersededRun(w: World)
    requires Plausible(w)
    ensures var es := RaceSteps(w);
            var mid := Run(w.cfg, es + [SweepAct(ChallengeOf(w.cfg, w.d2), w.d2.eph)]);
            var end := Run(w.cfg, es + [SweepAct(ChallengeOf(w.cfg, w.d2), w.d2.eph)] + [Commit(w.n.l)]);
            && w.n.l in mid.links && mid.links[w.n.l].newest == Some(2) && mid.accepted[1] == 0
            && w.n.l in end.links && end.accepted[1] == 1 && end.accepted[2] == 0 && end.links[w.n.l].pending.None?
  {
    var es, cfg, l := RaceSteps(w), w.cfg, w.n.l;
    var act := SweepAct(ChallengeOf(cfg, w.d2), w.d2.eph);
    RaceReached(w);
    SupersededYetAccepted(cfg, es, l, ChallengeOf(cfg, w.d2), w.d2.eph);
    RunSnoc(cfg, es, act);
    RunSnoc(cfg, es + [act], Commit(l));
    AcceptedOnce(cfg, es + [act] + [Commit(l)], 1);
    ReplacedThenCommitted(cfg, Run(cfg, es), l, ChallengeOf(cfg, w.d2), w.d2.eph);
    SweepAccepts(cfg, Run(cfg, es), ChallengeOf(cfg, w.d2), w.d2.eph);
  }

  lemma SweepAccepts(cfg: Config, s: State, ch: DerpAuth.Challenge, eph: Key)
    ensures Next(cfg, s, SweepAct(ch, eph)).accepted == s.accepted
  {
  }

  /** The node's answer to the second challenge arrives after the sweep sent a third. */
  function LateSteps(w: World): seq<Step> {
    WaitSteps(w) + SweepSteps(w.cfg, w.n.l, w.d2) + AnswerSteps(w.cfg, w.coord, w.n, w.g, w.d1)
  }

  /** A slow answer ends the link: the node holds a good grant, answers every challenge it reads in the format the
      relay demands, and is shown out for answering the older of two. */
  lemma LateAnswerRun(w: World)
    requires Plausible(w) && ChallengeOf(w.cfg, w.d1).ephPub != ChallengeOf(w.cfg, w.d2).ephPub
    ensures var s := Run(w.cfg, LateSteps(w)); w.n.l in s.links && s.links[w.n.l].phase == Leaving
  {
    var cfg, l := w.cfg, w.n.l;
    Waits(w);
    var s, k := Follow(cfg, Initial, WaitSteps(w)), WaitingLink(w);
    SweepChallenges(cfg, s, w.n, k, w.d2);
    FollowConcat(cfg, Initial, WaitSteps(w), SweepSteps(cfg, l, w.d2));
    var t := Follow(cfg, Initial, WaitSteps(w) + SweepSteps(cfg, l, w.d2));
    FollowConcat(cfg, Initial, WaitSteps(w) + SweepSteps(cfg, l, w.d2), AnswerSteps(cfg, w.coord, w.n, w.g, w.d1));
    var blob := Blob(cfg, w.coord, w.g);
    BlobChecks(cfg, w.coord, w.n, w.g, 0);
    var payload := Answer(cfg, w.n, w.d1, blob);
    FollowTwo(cfg, t, ReadPending(l, payload), OpenAndCheck(l));
    LateAnswerExact(cfg, t, l, payload, Demanded(w.n.binding), ChallengeOf(cfg, w.d1), NodeKey(cfg, w.n), w.n.priv,
                    blob);
    RunFollows(cfg, LateSteps(w));
  }
}
