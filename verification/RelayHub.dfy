/** The relay hub as a step system: admission, the registry of links, usage counters and the sweep.

    Every locked section, atomic operation and pure decision of the link goroutines, the queue writers, the
    sweeper and the usage reporter is one step, and steps are taken in any order. A step that is not possible in
    a state leaves it as it is. Challenges are fresh: each has an identity of its own. */
module RelayHub {
  import opened Collections
  import opened Wire
  import opened DerpFrames
  import RelayGrants
  import DerpAuth

  type LinkId = nat
  type CounterId = nat
  type ChallengeId = nat

  const REAUTH_LEAD := 600_000_000_000  // ten minutes, in nanoseconds
  const REAUTH_TICK := 60_000_000_000   // one minute
  const ZERO_TIME := -62_135_596_800_000_000_000  // time.Time{}: the first instant of year 1

  datatype Config = Config(
    require: bool, coordPub: seq<Byte>, kind: RelayGrants.RelayKind, meshnet: int,
    ed25519: RelayGrants.Ed25519, box: DerpAuth.Box)

  // ------------------------------------------------------------- decisions

  /** The proof a transport demands: on a TLS link one bound to the certificate it presented, otherwise the legacy
      one. */
  function Demanded(binding: Option<Key>): (p: DerpAuth.Purpose)
    ensures DerpAuth.ForRelay(p)
  {
    if binding.Some? then DerpAuth.BoundRelay(binding.value) else DerpAuth.Relay
  }

  /** openProof: nothing but the demanded format is tried. */
  function OpenProof(cfg: Config, binding: Option<Key>, p: Pending, key: Key, payload: seq<Byte>): DerpAuth.Opened {
    DerpAuth.OpenRelay(cfg.box, Demanded(binding), p.ch, p.ephPriv, key, payload)
  }

  /** checkGrant; None is a refusal. */
  function CheckGrant(cfg: Config, claimed: Key, blob: seq<Byte>, now: int): Option<RelayGrants.Grant> {
    if |cfg.coordPub| != 32 then None
    else
      var v := RelayGrants.Verify(cfg.ed25519, cfg.coordPub, blob, now);
      if !v.Valid? then None
      else if v.grant.node != claimed then None
      else if cfg.meshnet != 0 && v.grant.meshnet != cfg.meshnet then None
      else if !RelayGrants.Permits(v.grant.scope, cfg.kind) then None
      else Some(v.grant)
  }

  // ------------------------------------------------------------------ state

  datatype Pending = Pending(id: ChallengeId, ch: DerpAuth.Challenge, ephPriv: Key, sentAt: int)

  /** A proof that was accepted: the challenge it answered, what it carried, and when it was checked. */
  datatype Evidence = Evidence(p: Pending, payload: seq<Byte>, blob: seq<Byte>, grant: RelayGrants.Grant, at: int)

  /** Where a link's own goroutine is. Opening and Checked are acceptProof between its two locked sections. */
  datatype Phase =
    | Connected
    | Handshake
    | Opening(p: Pending, payload: seq<Byte>)
    | Checked(ev: Evidence)
    | Mirror(meshnet: int)
    | Authenticated
    | Live
    | Leaving
    | Gone

  datatype Link = Link(
    key: Key, binding: Option<Key>, open: bool, phase: Phase, counter: Option<CounterId>,
    expiry: int, meshnet: int, pending: Option<Pending>,
    proof: Option<Evidence>, newest: Option<ChallengeId>)

  datatype Counter = Counter(key: Key, inn: nat, out: nat, meshnet: int, creditedIn: nat, creditedOut: nat)

  /** A usage report; the counter it was drained from is kept for the accounting. */
  datatype Delta = Delta(counter: CounterId, key: Key, meshnet: int, inn: nat, out: nat)

  /** TakeUsage under way: the keys still to visit, and the one being visited with what was drained from it. */
  datatype Visit = Visit(key: Key, counter: CounterId, inn: nat, out: Option<nat>)
  datatype Take = Take(todo: set<Key>, visit: Option<Visit>)

  datatype Sweeper =
    | Asleep
    | Woken(now: int)
    | Sweeping(now: int, todo: set<LinkId>)
    | Acting(now: int, todo: set<LinkId>, l: LinkId, expiry: int, pending: Option<Pending>)

  datatype State = State(
    links: map<LinkId, Link>, clients: map<Key, LinkId>,
    usage: map<Key, CounterId>, counters: map<CounterId, Counter>, nextCounter: CounterId,
    reports: seq<Delta>, take: Option<Take>,
    sweeper: Sweeper, clock: int,
    nextChallenge: ChallengeId, issued: map<ChallengeId, LinkId>, accepted: multiset<ChallengeId>,
    grants: set<RelayGrants.Grant>)  // every grant a proof was accepted with

  const Initial := State(map[], map[], map[], map[], 0, [], None, Asleep, 0, 0, map[], multiset{}, {})

  datatype Step =
    | Tick(now: int)
    | Accept(l: LinkId, key: Key, binding: Option<Key>)               // ClientInfo was read
    | FirstChallenge(l: LinkId, ch: DerpAuth.Challenge, eph: Key)     // authenticate
    | ReadPending(l: LinkId, payload: seq<Byte>)                      // acceptProof, first locked section
    | OpenAndCheck(l: LinkId)                                         // openProof and checkGrant
    | Commit(l: LinkId)                                               // acceptProof, second locked section
    | MirrorMeshnet(l: LinkId)                                        // usage.meshnet.Store
    | Register(l: LinkId)                                             // Hub.add
    | Receive(l: LinkId, n: nat)                                      // usage.in.Add
    | Delivered(l: LinkId, n: nat)                                    // usage.out.Add, by the queue's writer
    | Quit(l: LinkId)                                                 // the read loop or the handshake ends
    | Unregister(l: LinkId)                                           // Hub.remove
    | SweepStart                                                      // sweep reads the clock
    | Snapshot                                                        // snapshot, under h.mu
    | SweepRead(l: LinkId)                                            // one link's locked section in sweep
    | SweepAct(ch: DerpAuth.Challenge, eph: Key)                      // close, challenge or leave alone
    | SweepEnd
    | TakeStart                                                       // TakeUsage takes h.mu
    | TakeIn(key: Key)                                                // in.Swap(0)
    | TakeOut                                                         // out.Swap(0)
    | TakeDecide                                                      // report, drop or keep the counter
    | TakeEnd                                                         // TakeUsage releases h.mu

  /** Whether the link's goroutine may read a proof now: in the handshake, or live with authentication on. */
  predicate Reads(cfg: Config, k: Link) { cfg.require && (k.phase.Handshake? || k.phase.Live?) }

  predicate Enabled(cfg: Config, s: State, e: Step) {
    match e
    case Tick(now) => now >= s.clock
    case Accept(l, _, _) => l !in s.links
    case FirstChallenge(l, _, _) => cfg.require && l in s.links && s.links[l].phase.Connected?
    case ReadPending(l, _) => l in s.links && Reads(cfg, s.links[l])
    case OpenAndCheck(l) => l in s.links && s.links[l].phase.Opening?
    case Commit(l) => l in s.links && s.links[l].phase.Checked?
    case MirrorMeshnet(l) => l in s.links && s.links[l].phase.Mirror? && s.links[l].counter.Some?
    case Register(l) =>
      && l in s.links && s.take.None?
      && (if cfg.require then s.links[l].phase.Authenticated? else s.links[l].phase.Connected?)
    case Receive(l, _) => l in s.links && s.links[l].phase.Live? && s.links[l].counter.Some?
    case Delivered(l, _) => l in s.links && s.links[l].counter.Some?
    case Quit(l) =>
      l in s.links && (s.links[l].phase.Live? || s.links[l].phase.Connected? || s.links[l].phase.Handshake?)
    case Unregister(l) => l in s.links && s.links[l].phase.Leaving? && s.take.None?
    case SweepStart => cfg.require && s.sweeper.Asleep?
    case Snapshot => s.sweeper.Woken? && s.take.None?
    case SweepRead(l) => s.sweeper.Sweeping? && l in s.sweeper.todo && l in s.links
    case SweepAct(_, _) => s.sweeper.Acting? && s.sweeper.l in s.links
    case SweepEnd => s.sweeper.Sweeping? && s.sweeper.todo == {}
    case TakeStart => s.take.None?
    case TakeIn(k) =>
      s.take.Some? && s.take.value.visit.None? && k in s.take.value.todo && k in s.usage && s.usage[k] in s.counters
    case TakeOut =>
      s.take.Some? && s.take.value.visit.Some? && s.take.value.visit.value.out.None?
      && s.take.value.visit.value.counter in s.counters
    case TakeDecide =>
      s.take.Some? && s.take.value.visit.Some? && s.take.value.visit.value.out.Some?
      && s.take.value.visit.value.counter in s.counters
    case TakeEnd => s.take.Some? && s.take.value.visit.None? && s.take.value.todo == {}
  }

  // ------------------------------------------------------------- transitions

  /** challenge: the newest challenge supersedes whatever was outstanding. */
  function Challenged(s: State, l: LinkId, ch: DerpAuth.Challenge, eph: Key, phase: Phase): State
    requires l in s.links
  {
    var id := s.nextChallenge;
    var p := Pending(id, ch, eph, s.clock);
    s.(links := s.links[l := s.links[l].(pending := Some(p), newest := Some(id), phase := phase)],
       nextChallenge := id + 1, issued := s.issued[id := l])
  }

  /** A link whose proof or loop failed: one that never registered is dropped, the others unregister first. */
  function Failing(k: Link): Phase { if k.counter.Some? then Leaving else Gone }

  function Opened(cfg: Config, s: State, l: LinkId): Phase
    requires l in s.links && s.links[l].phase.Opening?
  {
    var k := s.links[l];
    var o := OpenProof(cfg, k.binding, k.phase.p, k.key, k.phase.payload);
    if !o.Grant? then Failing(k)
    else
      var g := CheckGrant(cfg, k.key, o.blob, s.clock);
      if g.None? then Failing(k) else Checked(Evidence(k.phase.p, k.phase.payload, o.blob, g.value, s.clock))
  }

  function Committed(s: State, l: LinkId): State
    requires l in s.links && s.links[l].phase.Checked?
  {
    var k, ev := s.links[l], s.links[l].phase.ev;
    s.(links := s.links[l := k.(expiry := ev.grant.expiry, meshnet := ev.grant.meshnet,
                                pending := None, proof := Some(ev),
                                phase := if k.counter.Some? then Mirror(ev.grant.meshnet) else Authenticated)],
       accepted := s.accepted + multiset{ev.p.id}, grants := s.grants + {ev.grant})
  }

  /** Hub.add: evicts the link that holds the key, takes its place, and attaches the key's counter. */
  function Registered(s: State, l: LinkId): State
    requires l in s.links
  {
    var k := s.links[l];
    var c := if k.key in s.usage then s.usage[k.key] else s.nextCounter;
    var counters := if k.key in s.usage then s.counters else s.counters[c := Counter(k.key, 0, 0, 0, 0, 0)];
    s.(links := Evict(s, l)[l := k.(phase := Live, counter := Some(c))],
       clients := s.clients[k.key := l],
       usage := s.usage[k.key := c],
       counters := if k.meshnet != 0 && c in counters then counters[c := counters[c].(meshnet := k.meshnet)]
                   else counters,
       nextCounter := if k.key in s.usage then s.nextCounter else s.nextCounter + 1)
  }

  function Evict(s: State, l: LinkId): map<LinkId, Link>
    requires l in s.links
  {
    var k := s.links[l].key;
    if k in s.clients && s.clients[k] != l && s.clients[k] in s.links then
      s.links[s.clients[k] := s.links[s.clients[k]].(open := false)]
    else s.links
  }

  function WithPhase(s: State, l: LinkId, phase: Phase): State
    requires l in s.links
  {
    s.(links := s.links[l := s.links[l].(phase := phase)])
  }

  /** What the sweep does with a link, from the expiry and challenge it read. */
  datatype Verdict = LeaveAlone | CloseLink | Rechallenge

  function Judge(now: int, expiry: int, pending: Option<Pending>): Verdict {
    if expiry == ZERO_TIME then LeaveAlone
    else if now > expiry then CloseLink
    else if !(now > expiry - REAUTH_LEAD) then LeaveAlone
    else if pending.Some? && now - pending.value.sentAt < REAUTH_TICK then LeaveAlone
    else Rechallenge
  }

  function Swept(s: State, ch: DerpAuth.Challenge, eph: Key): State
    requires s.sweeper.Acting? && s.sweeper.l in s.links
  {
    var a := s.sweeper;
    var s' := match Judge(a.now, a.expiry, a.pending)
      case LeaveAlone => s
      case CloseLink => s.(links := s.links[a.l := s.links[a.l].(open := false)])
      case Rechallenge => Challenged(s, a.l, ch, eph, s.links[a.l].phase);
    s'.(sweeper := Sweeping(a.now, a.todo))
  }

  function Credit(s: State, c: CounterId, inn: nat, out: nat): State {
    if c !in s.counters then s
    else
      var k := s.counters[c];
      s.(counters := s.counters[c := k.(inn := k.inn + inn, out := k.out + out,
                                        creditedIn := k.creditedIn + inn, creditedOut := k.creditedOut + out)])
  }

  function Decided(s: State): State
    requires s.take.Some? && s.take.value.visit.Some? && s.take.value.visit.value.out.Some?
    requires s.take.value.visit.value.counter in s.counters
  {
    var t, v := s.take.value, s.take.value.visit.value;
    var s' := s.(take := Some(t.(visit := None)));
    if v.inn != 0 || v.out.value != 0 then
      s'.(reports := s.reports + [Delta(v.counter, v.key, s.counters[v.counter].meshnet, v.inn, v.out.value)])
    else if v.key !in s.clients then s'.(usage := s.usage - {v.key})
    else s'
  }

  function Next(cfg: Config, s: State, e: Step): State {
    if !Enabled(cfg, s, e) then s
    else match e
      case Tick(now) => s.(clock := now)
      case Accept(l, key, binding) =>
        s.(links := s.links[l := Link(key, binding, true, Connected, None, ZERO_TIME, 0, None, None, None)])
      case FirstChallenge(l, ch, eph) => Challenged(s, l, ch, eph, Handshake)
      case ReadPending(l, payload) =>
        if s.links[l].pending.None? then s else WithPhase(s, l, Opening(s.links[l].pending.value, payload))
      case OpenAndCheck(l) => WithPhase(s, l, Opened(cfg, s, l))
      case Commit(l) => Committed(s, l)
      case MirrorMeshnet(l) =>
        var c := s.links[l].counter.value;
        var s' := WithPhase(s, l, Live);
        if c !in s.counters then s'
        else s'.(counters := s.counters[c := s.counters[c].(meshnet := s.links[l].phase.meshnet)])
      case Register(l) => Registered(s, l)
      case Receive(l, n) => Credit(s, s.links[l].counter.value, n, 0)
      case Delivered(l, n) => Credit(s, s.links[l].counter.value, 0, n)
      case Quit(l) => WithPhase(s, l, Failing(s.links[l]))
      case Unregister(l) =>
        var s' := WithPhase(s, l, Gone);
        var key := s.links[l].key;
        if key in s.clients && s.clients[key] == l then s'.(clients := s.clients - {key}) else s'
      case SweepStart => s.(sweeper := Woken(s.clock))
      case Snapshot => s.(sweeper := Sweeping(s.sweeper.now, set k | k in s.clients :: s.clients[k]))
      case SweepRead(l) =>
        s.(sweeper := Acting(s.sweeper.now, s.sweeper.todo - {l}, l, s.links[l].expiry, s.links[l].pending))
      case SweepAct(ch, eph) => Swept(s, ch, eph)
      case SweepEnd => s.(sweeper := Asleep)
      case TakeStart => s.(take := Some(Take(s.usage.Keys, None)))
      case TakeIn(k) =>
        var c, t := s.usage[k], s.take.value;
        s.(take := Some(Take(t.todo - {k}, Some(Visit(k, c, s.counters[c].inn, None)))),
           counters := s.counters[c := s.counters[c].(inn := 0)])
      case TakeOut =>
        var v, t := s.take.value.visit.value, s.take.value;
        s.(take := Some(t.(visit := Some(v.(out := Some(s.counters[v.counter].out))))),
           counters := s.counters[v.counter := s.counters[v.counter].(out := 0)])
      case TakeDecide => Decided(s)
      case TakeEnd => s.(take := None)
  }

  function Run(cfg: Config, es: seq<Step>): State {
    if es == [] then Initial else Next(cfg, Run(cfg, es[..|es| - 1]), es[|es| - 1])
  }
}
