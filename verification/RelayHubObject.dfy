/** The hub as the object its goroutines share. Each method is a section the source runs under h.mu, or the sweep,
    taken without interruption; the interleavings are RelayHub's. */
module RelayHubObjects {
  import opened Collections
  import opened DerpFrames
  import opened RelayHub
  import opened RelayHubUsage
  import opened RelayHubSafety
  import RelayGrants

  // ------------------------------------------------------- draining the usage

  predicate Busy(s: State, k: Key) {
    k in s.usage && s.usage[k] in s.counters && (s.counters[s.usage[k]].inn != 0 || s.counters[s.usage[k]].out != 0)
  }

  function DeltaFor(s: State, k: Key): Delta
    requires k in s.usage && s.usage[k] in s.counters
  {
    var c := s.counters[s.usage[k]];
    Delta(s.usage[k], k, c.meshnet, c.inn, c.out)
  }

  /** One turn of TakeUsage's loop. */
  function DrainOne(s: State, k: Key): State
    requires k in s.usage && s.usage[k] in s.counters
  {
    var c := s.usage[k];
    var s' := s.(counters := s.counters[c := s.counters[c].(inn := 0, out := 0)]);
    if Busy(s, k) then s'.(reports := s.reports + [DeltaFor(s, k)])
    else if k !in s.clients then s'.(usage := s.usage - {k})
    else s'
  }

  /** A turn of the loop is the three steps of a visit. */
  lemma DrainSteps(cfg: Config, s: State, todo: set<Key>, k: Key)
    requires k in todo && k in s.usage && s.usage[k] in s.counters
    ensures var t := s.(take := Some(Take(todo, None)));
            && Enabled(cfg, t, TakeIn(k))
            && Enabled(cfg, Next(cfg, t, TakeIn(k)), TakeOut)
            && Enabled(cfg, Next(cfg, Next(cfg, t, TakeIn(k)), TakeOut), TakeDecide)
            && Next(cfg, Next(cfg, Next(cfg, t, TakeIn(k)), TakeOut), TakeDecide)
               == DrainOne(s, k).(take := Some(Take(todo - {k}, None)))
  {
    SwapBoth(cfg, s.(take := Some(Take(todo, None))), todo, k);
    DecideDrained(cfg, s, todo, k);
  }

  lemma DecideDrained(cfg: Config, s: State, todo: set<Key>, k: Key)
    requires k in todo && k in s.usage && s.usage[k] in s.counters
    ensures var c, n := s.usage[k], s.counters[s.usage[k]];
            var b := s.(take := Some(Take(todo - {k}, Some(Visit(k, c, n.inn, Some(n.out))))),
                        counters := s.counters[c := n.(inn := 0, out := 0)]);
            && Enabled(cfg, b, TakeDecide)
            && Next(cfg, b, TakeDecide) == DrainOne(s, k).(take := Some(Take(todo - {k}, None)))
  {
  }

  /** in.Swap(0) and then out.Swap(0). */
  lemma SwapBoth(cfg: Config, t: State, todo: set<Key>, k: Key)
    requires t.take == Some(Take(todo, None)) && k in todo && k in t.usage && t.usage[k] in t.counters
    ensures var c, n := t.usage[k], t.counters[t.usage[k]];
            var a := Next(cfg, t, TakeIn(k));
            && Enabled(cfg, t, TakeIn(k)) && Enabled(cfg, a, TakeOut)
            && Next(cfg, a, TakeOut) ==
               t.(take := Some(Take(todo - {k}, Some(Visit(k, c, n.inn, Some(n.out))))),
                  counters := t.counters[c := n.(inn := 0, out := 0)])
  {
    var c, n := t.usage[k], t.counters[t.usage[k]];
    var a := Next(cfg, t, TakeIn(k));
    assert a == t.(take := Some(Take(todo - {k}, Some(Visit(k, c, n.inn, None)))),
                   counters := t.counters[c := n.(inn := 0)]);
    assert a.counters[c := a.counters[c].(out := 0)] == t.counters[c := n.(inn := 0, out := 0)];
  }

  lemma DrainKeeps(cfg: Config, s: State, todo: set<Key>, k: Key)
    requires UsageInv(s.(take := Some(Take(todo, None)))) && k in todo
    ensures k in s.usage && s.usage[k] in s.counters
    ensures UsageInv(DrainOne(s, k).(take := Some(Take(todo - {k}, None))))
  {
    var t := s.(take := Some(Take(todo, None)));
    assert UsageOk(t, k);
    DrainSteps(cfg, s, todo, k);
    TakeInKeeps(cfg, t, k);
    TakeOutKeeps(cfg, Next(cfg, t, TakeIn(k)));
    DecideKeeps(Next(cfg, Next(cfg, t, TakeIn(k)), TakeOut));
  }

  /** What TakeUsage has done once only the keys in todo are left. */
  ghost predicate Drained(s: State, s': State, todo: set<Key>, out: seq<Delta>) {
    && s' == s.(usage := s'.usage, counters := s'.counters, reports := s.reports + out)
    && s'.counters.Keys == s.counters.Keys
    && (forall c | c in s.counters :: s'.counters[c] ==
          if Visited(s, todo, c) then s.counters[c].(inn := 0, out := 0) else s.counters[c])
    && s'.usage.Keys <= s.usage.Keys
    && (forall k | k in s.usage :: (k in s'.usage <==> k in todo || Busy(s, k) || k in s.clients)
                                   && (k in s'.usage ==> s'.usage[k] == s.usage[k]))
    && ReportsFor(s, todo, out)
  }

  predicate Visited(s: State, todo: set<Key>, c: CounterId)
    requires c in s.counters
  {
    var k := s.counters[c].key; k in s.usage && s.usage[k] == c && k !in todo
  }

  /** One report for each visited key with traffic, and no other. */
  ghost predicate ReportsFor(s: State, todo: set<Key>, out: seq<Delta>) {
    && (forall i | 0 <= i < |out| :: Busy(s, out[i].key) && out[i].key !in todo && out[i] == DeltaFor(s, out[i].key))
    && (forall k | Busy(s, k) && k !in todo :: DeltaFor(s, k) in out)
    && (forall i, j | 0 <= i < j < |out| :: out[i].key != out[j].key)
  }

  lemma ReportsGrow(s: State, todo: set<Key>, out: seq<Delta>, k: Key)
    requires ReportsFor(s, todo, out) && k in todo && k in s.usage && s.usage[k] in s.counters
    ensures ReportsFor(s, todo - {k}, if Busy(s, k) then out + [DeltaFor(s, k)] else out)
  {
    var more := if Busy(s, k) then out + [DeltaFor(s, k)] else out;
    forall x | Busy(s, x) && x !in todo - {k} ensures DeltaFor(s, x) in more {
      if x != k {
        assert DeltaFor(s, x) in out;
      }
    }
  }

  lemma DrainedMore(s: State, s': State, todo: set<Key>, out: seq<Delta>, k: Key)
    requires Registry(s) && Drained(s, s', todo, out) && k in todo && k in s.usage
    ensures k in s'.usage && s'.usage[k] in s'.counters
    ensures Drained(s, DrainOne(s', k), todo - {k}, if Busy(s, k) then out + [DeltaFor(s, k)] else out)
  {
    assert UsageOk(s, k);
    var c := s.usage[k];
    assert s'.counters[c] == s.counters[c] && Busy(s', k) == Busy(s, k);
    ReportsGrow(s, todo, out, k);
    assert s.reports + (out + [DeltaFor(s, k)]) == s.reports + out + [DeltaFor(s, k)];
    DrainedCounters(s, s', todo, out, k);
  }

  lemma DrainedCounters(s: State, s': State, todo: set<Key>, out: seq<Delta>, k: Key)
    requires Drained(s, s', todo, out) && k in todo && k in s.usage && UsageOk(s, k)
    requires k in s'.usage && s'.usage[k] == s.usage[k]
    ensures var after := DrainOne(s', k).counters;
            && after.Keys == s.counters.Keys
            && (forall c | c in s.counters :: after[c] ==
                  if Visited(s, todo - {k}, c) then s.counters[c].(inn := 0, out := 0) else s.counters[c])
  {
  }

  class Hub {
    const cfg: Config
    var links: map<LinkId, Link>
    var clients: map<Key, LinkId>
    var usage: map<Key, CounterId>
    var counters: map<CounterId, Counter>
    var nextCounter: CounterId
    var clock: int
    var nextChallenge: ChallengeId
    ghost var reports: seq<Delta>
    ghost var issued: map<ChallengeId, LinkId>
    ghost var accepted: multiset<ChallengeId>
    ghost var grants: set<RelayGrants.Grant>

    ghost function View(): State
      reads this
    {
      State(links, clients, usage, counters, nextCounter, reports, None, Asleep, clock, nextChallenge, issued,
            accepted, grants)
    }

    /** The node's counter, created on first use. */
    method CounterFor(key: Key) returns (c: CounterId)
      modifies `usage, `counters, `nextCounter
      ensures c == if key in old(usage) then old(usage)[key] else old(nextCounter)
      ensures usage == old(usage)[key := c]
      ensures counters == if key in old(usage) then old(counters) else old(counters)[c := Counter(key, 0, 0, 0, 0, 0)]
      ensures nextCounter == old(nextCounter) + if key in old(usage) then 0 else 1
    {
      if key in usage {
        assert usage[key := usage[key]] == usage;
        return usage[key];
      }
      c := nextCounter;
      counters := counters[c := Counter(key, 0, 0, 0, 0, 0)];
      usage := usage[key := c];
      nextCounter := nextCounter + 1;
    }

    /** Registers a link under its key, evicting the one that holds it; the counter outlives both. */
    method Add(l: LinkId)
      requires l in links
      modifies this
      ensures View() == Registered(old(View()), l)
    {
      var k := links[l];
      CloseHolder(l);
      clients := clients[k.key := l];
      var c := CounterFor(k.key);
      if k.meshnet != 0 && c in counters {
        counters := counters[c := counters[c].(meshnet := k.meshnet)];
      }
      links := links[l := k.(phase := Live, counter := Some(c))];
    }

    /** A node reconnecting evicts its stale link. */
    method CloseHolder(l: LinkId)
      requires l in links
      modifies `links
      ensures links == Evict(old(View()), l)
    {
      var key := links[l].key;
      if key in clients && clients[key] != l && clients[key] in links {
        links := links[clients[key] := links[clients[key]].(open := false)];
      }
    }

    /** Takes a link out of the registry, unless another one holds its key by now. */
    method Remove(l: LinkId)
      requires l in links && links[l].phase.Leaving?
      modifies this
      ensures View() == Next(cfg, old(View()), Unregister(l))
    {
      var key := links[l].key;
      if key in clients && clients[key] == l {
        clients := clients - {key};
      }
      links := links[l := links[l].(phase := Gone)];
    }

    /** With no other goroutine in between: one report for every node with traffic, sorted, every counter in the
        map back to zero, and only idle nodes without a link forgotten. */
    method TakeUsage(leq: (Delta, Delta) -> bool) returns (out: seq<Delta>)
      requires UsageInv(View()) && TotalPreorder(leq)
      modifies `usage, `counters, `reports
      ensures SortedBy(out, leq)
      ensures exists visited :: multiset(visited) == multiset(out) && Drained(old(View()), View(), {}, visited)
      ensures UsageInv(View())
    {
      var todo := usage.Keys;
      var visited: seq<Delta> := [];
      ghost var start := View();
      TakeEdgeKeeps(start, start.(take := Some(Take(todo, None))));
      DrainStarts(start);
      while todo != {}
        invariant todo <= start.usage.Keys
        invariant Drained(start, View(), todo, visited)
        invariant UsageInv(View().(take := Some(Take(todo, None))))
        decreases todo
      {
        var key := Pick(todo);
        ghost var before := View();
        DrainKeeps(cfg, before, todo, key);
        DrainedMore(start, before, todo, visited, key);
        DrainedBusy(start, before, todo, visited, key);
        todo := todo - {key};
        var d := Drain(key);
        if d.Some? {
          visited := visited + [d.value];
        }
      }
      TakeEdgeKeeps(View().(take := Some(Take(todo, None))), View());
      out := SortBy(visited, leq);
      SortSorts(visited, leq);
      SortSame(visited, leq);
    }

    /** The loop body of TakeUsage: drain one counter, then report it, forget it or keep it. */
    method Drain(key: Key) returns (d: Option<Delta>)
      requires key in usage && usage[key] in counters
      modifies `usage, `counters, `reports
      ensures View() == DrainOne(old(View()), key)
      ensures d == if Busy(old(View()), key) then Some(DeltaFor(old(View()), key)) else None
    {
      var c := usage[key];
      var n := counters[c];
      counters := counters[c := n.(inn := 0, out := 0)];
      if n.inn != 0 || n.out != 0 {
        d := Some(Delta(c, key, n.meshnet, n.inn, n.out));
        reports := reports + [d.value];
        return;
      }
      if key !in clients {
        usage := usage - {key};
      }
      d := None;
    }

    /** The periodic sweep over the registered links, with no other goroutine in between. */
    method Sweep(draws: Draws)
      requires forall k | k in clients :: clients[k] in links
      modifies `links, `nextChallenge, `issued
      ensures links.Keys == old(links).Keys
      ensures forall l | l in links ::
                if l in SnapshotOf(clients) then SweptOk(old(links)[l], links[l], clock) else links[l] == old(links)[l]
    {
      var now := clock;
      var todo := SnapshotOf(clients);
      ghost var order: seq<LinkId> := [];
      while todo != {}
        invariant forall l | l in todo :: l in links && l !in order
        invariant forall l :: l in SnapshotOf(clients) <==> l in todo || l in order
        invariant AllSwept(old(links), links, order, now)
        decreases todo
      {
        var l := Pick(todo);
        ghost var before := links;
        assert links[l := links[l]] == links;
        todo := todo - {l};
        SweepLink(now, l, draws);
        OneMoreSwept(old(links), before, links, order, l, now);
        order := order + [l];
      }
    }

    method SweepLink(now: int, l: LinkId, draws: Draws)
      requires l in links && now <= clock
      modifies `links, `nextChallenge, `issued
      ensures l in links && links == old(links)[l := links[l]] && SweptOk(old(links)[l], links[l], now)
    {
      var k := links[l];
      assert links[l := k] == links;
      if k.expiry == ZERO_TIME {
        return;
      }
      if now > k.expiry {
        links := links[l := k.(open := false)];
        return;
      }
      if !(now > k.expiry - REAUTH_LEAD) {
        return;
      }
      if k.pending.Some? && now - k.pending.value.sentAt < REAUTH_TICK {
        return;
      }
      var (ch, eph) := draws(l);
      var p := Pending(nextChallenge, ch, eph, clock);
      links := links[l := k.(pending := Some(p), newest := Some(nextChallenge))];
      issued := issued[nextChallenge := l];
      nextChallenge := nextChallenge + 1;
    }
  }

  function SnapshotOf(clients: map<Key, LinkId>): set<LinkId> { set k | k in clients :: clients[k] }

  lemma DrainStarts(s: State)
    requires Registry(s)
    ensures Drained(s, s, s.usage.Keys, [])
  {
    assert s.reports + [] == s.reports;
    forall k | k in s.usage ensures UsageOk(s, k) {
    }
  }

  lemma DrainedBusy(s: State, s': State, todo: set<Key>, out: seq<Delta>, k: Key)
    requires Registry(s) && Drained(s, s', todo, out) && k in todo && k in s.usage
    ensures k in s'.usage && s'.usage[k] in s'.counters
    ensures Busy(s', k) == Busy(s, k) && (Busy(s, k) ==> DeltaFor(s', k) == DeltaFor(s, k))
  {
    assert UsageOk(s, k);
  }
}
