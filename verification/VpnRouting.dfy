/** vpnRouting: the datapath's one-at-a-time routing calls turned into "apply everything at once".

    JSON and prefix text are injective renderings, so settings are compared as values. The platform's answers
    (a descriptor or a refusal) and the outcomes of opening and swapping a device are inputs of each call. */
module VpnRoutings {
  import opened Collections
  import opened Prefixes
  import opened PrefixSubtraction

  const MeshOverlay: Prefix := Net([100, 64, 0, 0], 10)
  const AllV4: Prefix := Net([0, 0, 0, 0], 0)

  /** What the platform applies in one go. */
  datatype Settings = Settings(address: Prefix, routes: seq<Prefix>, mtu: int)

  /** What the datapath has asked for so far. */
  datatype Desired = Desired(overlay: Option<Addr>, subnets: set<Prefix>, exit: bool, lanKeep: seq<Prefix>)

  /** The desired state, the settings last applied (None before the first time), the descriptor behind the
      device, and the settings the platform itself last accepted. */
  datatype State = State(want: Desired, applied: Option<Settings>, fd: int, platform: Option<Settings>)

  const Initial := State(Desired(None, {}, false, []), None, -1, None)

  // ------------------------------------------------------------ route order

  predicate LexLeq(a: seq<bv8>, b: seq<bv8>) {
    a == [] || (b != [] && (a[0] < b[0] || (a[0] == b[0] && LexLeq(a[1..], b[1..]))))
  }

  /** The comparison settingsLocked sorts by: address (shorter families first), then length. */
  predicate PrefixLeq(p: Prefix, q: Prefix) {
    if p.Invalid? || q.Invalid? then p.Invalid?
    else if |p.addr| != |q.addr| then |p.addr| < |q.addr|
    else if p.addr != q.addr then LexLeq(p.addr, q.addr)
    else p.bits <= q.bits
  }

  lemma {:induction false} LexTotal(a: seq<bv8>, b: seq<bv8>)
    ensures LexLeq(a, b) || LexLeq(b, a)
    ensures LexLeq(a, b) && LexLeq(b, a) ==> a == b
  {
    if a != [] && b != [] {
      LexTotal(a[1..], b[1..]);
      assert a == [a[0]] + a[1..] && b == [b[0]] + b[1..];
    }
  }

  lemma {:induction false} LexTransitive(a: seq<bv8>, b: seq<bv8>, c: seq<bv8>)
    requires LexLeq(a, b) && LexLeq(b, c)
    ensures LexLeq(a, c)
  {
    if a != [] && a[0] == b[0] && b[0] == c[0] {
      LexTransitive(a[1..], b[1..], c[1..]);
    }
  }

  lemma RouteOrder()
    ensures TotalPreorder(PrefixLeq)
  {
    forall p: Prefix, q: Prefix ensures PrefixLeq(p, q) || PrefixLeq(q, p) {
      if p.Net? && q.Net? {
        LexTotal(p.addr, q.addr);
      }
    }
    forall p: Prefix, q: Prefix, r: Prefix | PrefixLeq(p, q) && PrefixLeq(q, r) ensures PrefixLeq(p, r) {
      RouteTransitive(p, q, r);
    }
  }

  lemma RouteTransitive(p: Prefix, q: Prefix, r: Prefix)
    requires PrefixLeq(p, q) && PrefixLeq(q, r)
    ensures PrefixLeq(p, r)
  {
    if p.Net? && q.Net? && r.Net? && |p.addr| == |q.addr| == |r.addr| {
      LexTotal(p.addr, q.addr);
      if LexLeq(p.addr, q.addr) && LexLeq(q.addr, r.addr) {
        LexTransitive(p.addr, q.addr, r.addr);
      }
    }
  }

  lemma RouteTies(p: Prefix, q: Prefix)
    requires PrefixLeq(p, q) && PrefixLeq(q, p)
    ensures p == q
  {
    if p.Net? && q.Net? {
      LexTotal(p.addr, q.addr);
    }
  }

  function SortRoutes(s: seq<Prefix>): seq<Prefix> { SortBy(s, PrefixLeq) }

  lemma SortRoutesAgree(s: seq<Prefix>, t: seq<Prefix>)
    requires multiset(s) == multiset(t)
    ensures SortRoutes(s) == SortRoutes(t)
  {
    RouteOrder();
    SortSorts(s, PrefixLeq);
    SortSorts(t, PrefixLeq);
    forall p: Prefix, q: Prefix | PrefixLeq(p, q) && PrefixLeq(q, p) ensures p == q {
      RouteTies(p, q);
    }
    SortUnique(SortRoutes(s), SortRoutes(t), PrefixLeq);
  }

  // -------------------------------------------------------------- rendering

  function ExitRoutes(w: Desired): seq<Prefix> { if w.exit then Subtract(AllV4, w.lanKeep) else [] }

  /** The rendering, for some order of the subnet map. */
  function RoutesInOrder(w: Desired, order: seq<Prefix>): seq<Prefix> {
    SortRoutes([MeshOverlay] + order + ExitRoutes(w))
  }

  ghost function Rendering(mtu: int, w: Desired): Settings
    requires w.overlay.Some?
  {
    Settings(Net(w.overlay.value, 8 * |w.overlay.value|), RoutesInOrder(w, Enumerate(w.subnets)), mtu)
  }

  /** The order in which the subnet map is visited does not show in the rendering. */
  lemma OrderIrrelevant(w: Desired, order: seq<Prefix>)
    requires multiset(order) == multiset(w.subnets)
    ensures RoutesInOrder(w, order) == RoutesInOrder(w, Enumerate(w.subnets))
  {
    SortRoutesAgree([MeshOverlay] + order + ExitRoutes(w), [MeshOverlay] + Enumerate(w.subnets) + ExitRoutes(w));
  }

  lemma CoversMembers(s: seq<Prefix>, t: seq<Prefix>, a: Addr)
    requires forall p :: p in s <==> p in t
    ensures Covers(s, a) <==> Covers(t, a)
  {
    if Covers(s, a) {
      var i :| 0 <= i < |s| && Contains(s[i], a);
      assert s[i] in t;
    }
    if Covers(t, a) {
      var i :| 0 <= i < |t| && Contains(t[i], a);
      assert t[i] in s;
    }
  }

  /** The routes send into the VPN exactly the overlay range, the subnets and, with an exit, all of IPv4 but
      what is kept on the LAN. */
  lemma RoutesExact(mtu: int, w: Desired, a: Addr)
    requires w.overlay.Some?
    ensures Covers(Rendering(mtu, w).routes, a) <==>
            || Contains(MeshOverlay, a)
            || (exists p :: p in w.subnets && Contains(p, a))
            || (w.exit && |a| == 4 && !Covers(w.lanKeep, a))
  {
    var order := Enumerate(w.subnets);
    var all := [MeshOverlay] + order + ExitRoutes(w);
    RouteOrder();
    SortSame(all, PrefixLeq);
    CoversMembers(SortRoutes(all), all, a);
    CoversConcat([MeshOverlay] + order, ExitRoutes(w), a);
    CoversConcat([MeshOverlay], order, a);
    assert Covers([MeshOverlay], a) <==> Contains(MeshOverlay, a) by { assert [MeshOverlay][0] == MeshOverlay; }
    if Covers(order, a) {
      var i :| 0 <= i < |order| && Contains(order[i], a);
      assert order[i] in w.subnets;
    }
    if p :| p in w.subnets && Contains(p, a) {
      assert p in order;
    }
    Exact(AllV4, w.lanKeep, a);
    assert Path(AllV4) == [];
  }

  // -------------------------------------------------------------- the calls

  /** The environment's part of one call: the platform's descriptor (None is a refusal), and whether opening
      and swapping in a new device succeed. */
  datatype Outcome = Outcome(fd: Option<int>, opens: bool, swaps: bool)

  datatype Call =
    | ConfigureLink(overlay: Option<Addr>)
    | AddSubnetRoutes(routes: seq<Prefix>)
    | DelSubnetRoutes(routes: seq<Prefix>)
    | EnableExitRoutes(lanKeep: seq<Prefix>)
    | UndoExitRoutes

  function MaskedSet(routes: seq<Prefix>): set<Prefix> { set p | p in routes :: Masked(p) }

  /** The desired state a call asks for. */
  function Request(w: Desired, call: Call): Desired {
    match call
    case ConfigureLink(a) => w.(overlay := a)
    case AddSubnetRoutes(r) => w.(subnets := w.subnets + MaskedSet(r))
    case DelSubnetRoutes(r) => w.(subnets := w.subnets - MaskedSet(r))
    case EnableExitRoutes(k) => w.(exit := true, lanKeep := k)
    case UndoExitRoutes => w.(exit := false, lanKeep := [])
  }

  /** applyLocked once there is an overlay and the settings are rendered. */
  function Tell(st: State, s: Settings, env: Outcome): (State, bool) {
    if st.applied == Some(s) then (st, true)
    else if env.fd.None? then (st, false)
    else if env.fd.value != st.fd && !(env.opens && env.swaps) then (st.(platform := Some(s)), false)
    else (st.(platform := Some(s), fd := env.fd.value, applied := Some(s)), true)
  }

  /** applyLocked. */
  ghost function Apply(mtu: int, st: State, env: Outcome): (State, bool) {
    if st.want.overlay.None? then (st, true) else Tell(st, Rendering(mtu, st.want), env)
  }

  /** A whole call; only enabling an exit takes its request back when it fails. */
  ghost function Perform(mtu: int, st: State, call: Call, env: Outcome): (State, bool) {
    var r := Apply(mtu, st.(want := Request(st.want, call)), env);
    if call.EnableExitRoutes? && !r.1 then (r.0.(want := r.0.want.(exit := false, lanKeep := [])), false) else r
  }

  ghost function Run(mtu: int, calls: seq<(Call, Outcome)>): State {
    if calls == [] then Initial
    else Perform(mtu, Run(mtu, calls[..|calls| - 1]), calls[|calls| - 1].0, calls[|calls| - 1].1).0
  }

  /** The settings a call would tell the platform; with no overlay, or nothing new to tell, it tells it nothing. */
  ghost predicate HasNews(mtu: int, st: State, call: Call) {
    var w := Request(st.want, call);
    w.overlay.Some? && st.applied != Some(Rendering(mtu, w))
  }

  /** The platform takes what the call tells it. */
  ghost predicate Tells(mtu: int, st: State, call: Call, env: Outcome) { HasNews(mtu, st, call) && env.fd.Some? }

  /** The device behind the platform's descriptor is in place: it was already, or it opens and swaps in. */
  predicate Installs(st: State, env: Outcome) { env.fd == Some(st.fd) || (env.opens && env.swaps) }

  /** The last call the platform took something from got its device in place; so it is before the first. */
  ghost predicate LastTellInstalled(mtu: int, calls: seq<(Call, Outcome)>) {
    calls == []
    || var before := calls[..|calls| - 1];
       var (call, env) := calls[|calls| - 1];
       if Tells(mtu, Run(mtu, before), call, env) then Installs(Run(mtu, before), env)
       else LastTellInstalled(mtu, before)
  }

  /** What one call does to the settings on record and the settings the platform holds. */
  lemma PerformExact(mtu: int, st: State, call: Call, env: Outcome)
    ensures var (after, ok) := Perform(mtu, st, call, env);
            var w := Request(st.want, call);
            && (!Tells(mtu, st, call, env) ==> after.platform == st.platform && after.applied == st.applied)
            && (Tells(mtu, st, call, env) ==>
                  && after.platform == Some(Rendering(mtu, w))
                  && after.applied == (if Installs(st, env) then after.platform else st.applied))
            && (ok && w.overlay.Some? ==> after.want == w && after.applied == Some(Rendering(mtu, w)))
            && (ok <==> w.overlay.None? || !HasNews(mtu, st, call) || (env.fd.Some? && Installs(st, env)))
  {
    var asked := st.(want := Request(st.want, call));
    if asked.want.overlay.Some? {
      TellExact(asked, Rendering(mtu, asked.want), env);
    }
  }

  lemma TellExact(st: State, s: Settings, env: Outcome)
    ensures var (after, ok) := Tell(st, s, env);
            && after.want == st.want
            && (st.applied == Some(s) || env.fd.None? ==> after == st)
            && (st.applied != Some(s) && env.fd.Some? ==>
                  && after.platform == Some(s)
                  && after.applied == (if Installs(st, env) then Some(s) else st.applied))
            && (ok <==> st.applied == Some(s) || (env.fd.Some? && Installs(st, env)))
  {
  }

  /** Over every run, whatever the platform refuses and whatever devices fail: the platform holds the settings on
      record if and only if the device of the last settings it took is in place. */
  lemma {:induction false} InStepExact(mtu: int, calls: seq<(Call, Outcome)>)
    ensures Run(mtu, calls).platform == Run(mtu, calls).applied <==> LastTellInstalled(mtu, calls)
  {
    if calls != [] {
      InStepExact(mtu, calls[..|calls| - 1]);
      var (call, env) := calls[|calls| - 1];
      PerformExact(mtu, Run(mtu, calls[..|calls| - 1]), call, env);
    }
  }

  /** Over every run: a call with an overlay that succeeds leaves the platform with the rendering of the state if
      and only if, before the call, the last device was in place or the settings on record were others. */
  lemma RunExact(mtu: int, calls: seq<(Call, Outcome)>, call: Call, env: Outcome)
    ensures Run(mtu, calls + [(call, env)]) == Perform(mtu, Run(mtu, calls), call, env).0
    ensures var st, after := Run(mtu, calls), Run(mtu, calls + [(call, env)]);
            Perform(mtu, st, call, env).1 && after.want.overlay.Some? ==>
              && after.applied == Some(Rendering(mtu, after.want))
              && (after.platform == Some(Rendering(mtu, after.want)) <==>
                  LastTellInstalled(mtu, calls) || HasNews(mtu, st, call))
  {
    RunSnoc(mtu, calls, call, env);
    InStepExact(mtu, calls);
    PerformExact(mtu, Run(mtu, calls), call, env);
  }

  predicate NeverFails(calls: seq<(Call, Outcome)>) {
    forall i | 0 <= i < |calls| :: calls[i].1.opens && calls[i].1.swaps
  }

  /** In particular where opening and swapping never fail, refusals included. */
  lemma {:induction false} NeverFailsInstalls(mtu: int, calls: seq<(Call, Outcome)>)
    requires NeverFails(calls)
    ensures LastTellInstalled(mtu, calls)
  {
    if calls != [] {
      NeverFailsInstalls(mtu, calls[..|calls| - 1]);
    }
  }

  /** Where a device fails to open the promise breaks: adding a subnet fails after the platform took it, and
      withdrawing it then succeeds without telling the platform, which keeps routing the subnet. */
  lemma FailedOpenLeavesRoute(mtu: int, st: State, p: Prefix, fd: int, env: Outcome)
    requires st.want.overlay.Some? && st.applied == Some(Rendering(mtu, st.want)) && st.platform == st.applied
    requires Masked(p) !in st.want.subnets && fd != st.fd
    ensures var more := Request(st.want, AddSubnetRoutes([p]));
            var told := st.(want := more, platform := Some(Rendering(mtu, more)));
            && Perform(mtu, st, AddSubnetRoutes([p]), Outcome(Some(fd), false, true)) == (told, false)
            && Perform(mtu, told, DelSubnetRoutes([p]), env) == (told.(want := st.want), true)
            && told.platform != Some(Rendering(mtu, st.want))
  {
    var more := Request(st.want, AddSubnetRoutes([p]));
    var s, t := Rendering(mtu, st.want), Rendering(mtu, more);
    assert s != t by {
      assert MaskedSet([p]) == {Masked(p)};
      RenderingsDiffer(mtu, st.want, more, Masked(p));
    }
    Drift(st, more, s, t, fd, env);
    PerformTells(mtu, st, AddSubnetRoutes([p]), Outcome(Some(fd), false, true), more);
    BackToOld(st.want, p);
    PerformTells(mtu, st.(want := more, platform := Some(t)), DelSubnetRoutes([p]), env, st.want);
  }

  lemma RunSnoc(mtu: int, calls: seq<(Call, Outcome)>, call: Call, env: Outcome)
    ensures Run(mtu, calls + [(call, env)]) == Perform(mtu, Run(mtu, calls), call, env).0
  {
    var all := calls + [(call, env)];
    assert all[..|all| - 1] == calls;
  }

  /** After any run that ends with the rendering applied and its device in place, two more calls, the second of
      which succeeds, leave the platform routing a subnet nobody asks for any more. */
  lemma FailedOpenRun(mtu: int, calls: seq<(Call, Outcome)>, p: Prefix, fd: int, env: Outcome)
    requires var st := Run(mtu, calls);
             && st.want.overlay.Some? && st.applied == Some(Rendering(mtu, st.want)) && LastTellInstalled(mtu, calls)
             && Masked(p) !in st.want.subnets && fd != st.fd
    ensures var st := Run(mtu, calls);
            var down := calls + [(AddSubnetRoutes([p]), Outcome(Some(fd), false, true))];
            var after := Run(mtu, down + [(DelSubnetRoutes([p]), env)]);
            && Perform(mtu, Run(mtu, down), DelSubnetRoutes([p]), env).1
            && after.want == st.want && after.platform != Some(Rendering(mtu, st.want))
            && after.platform == Some(Rendering(mtu, Request(st.want, AddSubnetRoutes([p]))))
  {
    var add := (AddSubnetRoutes([p]), Outcome(Some(fd), false, true));
    InStepExact(mtu, calls);
    FailedOpenLeavesRoute(mtu, Run(mtu, calls), p, fd, env);
    RunSnoc(mtu, calls, add.0, add.1);
    RunSnoc(mtu, calls + [add], DelSubnetRoutes([p]), env);
  }

  /** Such a run exists: one successful call on a fresh object, for every address and descriptor. */
  lemma FirstCallInstalls(mtu: int, a: Addr, fd: int, up: seq<(Call, Outcome)>)
    requires up == [(ConfigureLink(Some(a)), Outcome(Some(fd), true, true))]
    ensures var w := Desired(Some(a), {}, false, []);
            var s := Some(Rendering(mtu, w));
            Run(mtu, up) == State(w, s, fd, s)
    ensures LastTellInstalled(mtu, up)
  {
    FirstCall(mtu, a, fd);
    RunOne(mtu, up);
    InStepExact(mtu, up);
  }

  lemma RunOne(mtu: int, up: seq<(Call, Outcome)>)
    requires |up| == 1
    ensures Run(mtu, up) == Perform(mtu, Initial, up[0].0, up[0].1).0
  {
    assert up[..0] == [];
  }

  lemma FirstCall(mtu: int, a: Addr, fd: int)
    ensures var w := Desired(Some(a), {}, false, []);
            var s := Some(Rendering(mtu, w));
            Perform(mtu, Initial, ConfigureLink(Some(a)), Outcome(Some(fd), true, true)) == (State(w, s, fd, s), true)
  {
    var w := Desired(Some(a), {}, false, []);
    PerformTells(mtu, Initial, ConfigureLink(Some(a)), Outcome(Some(fd), true, true), w);
  }

  /** A call that fails leaves what was asked for on record, to go out with the next call; only a failed exit is
      taken back, whole, and it never was applied. */
  lemma FailureExact(mtu: int, st: State, call: Call, env: Outcome)
    requires !Perform(mtu, st, call, env).1
    ensures var after := Perform(mtu, st, call, env).0;
            && after.want == Request(st.want, if call.EnableExitRoutes? then UndoExitRoutes else call)
            && after.applied == st.applied && after.fd == st.fd
            && (env.fd.None? ==> after.platform == st.platform)
  {
    var asked := st.(want := Request(st.want, call));
    ApplyFails(mtu, asked, env);
  }

  lemma ApplyFails(mtu: int, st: State, env: Outcome)
    requires !Apply(mtu, st, env).1
    ensures var after := Apply(mtu, st, env).0;
            after.want == st.want && after.applied == st.applied && after.fd == st.fd
            && (env.fd.None? ==> after.platform == st.platform)
  {
    TellFails(st, Rendering(mtu, st.want), env);
  }

  lemma TellFails(st: State, s: Settings, env: Outcome)
    ensures var (after, ok) := Tell(st, s, env);
            !ok ==> after == st.(platform := after.platform) && (env.fd.None? ==> after == st)
  {
  }

  /** What one call undoes: an exit and its undo, a subnet and its withdrawal. */
  lemma CallsUndo(w: Desired, keep: seq<Prefix>, p: Prefix)
    ensures !w.exit && w.lanKeep == [] ==> Request(Request(w, EnableExitRoutes(keep)), UndoExitRoutes) == w
    ensures Masked(p) !in w.subnets ==> Request(Request(w, AddSubnetRoutes([p])), DelSubnetRoutes([p])) == w
    ensures Masked(p) in w.subnets ==> Request(Request(w, DelSubnetRoutes([p])), AddSubnetRoutes([p])) == w
  {
    assert MaskedSet([p]) == {Masked(p)};
    if Masked(p) in w.subnets {
      assert (w.subnets - {Masked(p)}) + {Masked(p)} == w.subnets;
    } else {
      BackToOld(w, p);
    }
  }

  lemma PerformTells(mtu: int, st: State, call: Call, env: Outcome, w: Desired)
    requires Request(st.want, call) == w && w.overlay.Some? && !call.EnableExitRoutes?
    ensures Perform(mtu, st, call, env) == Tell(st.(want := w), Rendering(mtu, w), env)
  {
  }

  lemma BackToOld(w: Desired, p: Prefix)
    requires Masked(p) !in w.subnets
    ensures Request(Request(w, AddSubnetRoutes([p])), DelSubnetRoutes([p])) == w
  {
    assert MaskedSet([p]) == {Masked(p)};
    assert (w.subnets + {Masked(p)}) - {Masked(p)} == w.subnets;
  }

  lemma Drift(st: State, more: Desired, s: Settings, t: Settings, fd: int, env: Outcome)
    requires st.applied == Some(s) && st.platform == Some(s) && s != t && fd != st.fd
    ensures var told := st.(want := more, platform := Some(t));
            && Tell(st.(want := more), t, Outcome(Some(fd), false, true)) == (told, false)
            && Tell(told.(want := st.want), s, env) == (told.(want := st.want), true)
  {
  }

  lemma RenderingsDiffer(mtu: int, w: Desired, more: Desired, p: Prefix)
    requires w.overlay.Some? && p !in w.subnets && more == w.(subnets := w.subnets + {p})
    ensures Rendering(mtu, w) != Rendering(mtu, more)
  {
    RenderingSize(mtu, w);
    RenderingSize(mtu, more);
    assert ExitRoutes(w) == ExitRoutes(more);
  }

  lemma RenderingSize(mtu: int, w: Desired)
    requires w.overlay.Some?
    ensures |Rendering(mtu, w).routes| == 1 + |w.subnets| + |ExitRoutes(w)|
  {
    var order := Enumerate(w.subnets);
    assert |order| == |multiset(order)| == |w.subnets|;
    RouteOrder();
    SortSame([MeshOverlay] + order + ExitRoutes(w), PrefixLeq);
  }

  class VpnRouting {
    const mtu: int
    var overlay: Option<Addr>
    var subnets: set<Prefix>
    var exit: bool
    var lanKeep: seq<Prefix>
    var applied: Option<Settings>
    var fd: int
    /** What the platform last accepted; kept by the platform, not by the routing. */
    var platform: Option<Settings>

    function View(): State
      reads this
    {
      State(Desired(overlay, subnets, exit, lanKeep), applied, fd, platform)
    }

    constructor (mtu: int)
      ensures View() == Initial && this.mtu == mtu
    {
      this.mtu := mtu;
      overlay, subnets, exit, lanKeep, applied, fd, platform := None, {}, false, [], None, -1, None;
    }

    method SettingsLocked() returns (s: Settings)
      requires overlay.Some?
      ensures s == Rendering(mtu, View().want)
    {
      var order: seq<Prefix> := [];
      var todo := subnets;
      while todo != {}
        invariant todo <= subnets
        invariant multiset(order) == multiset(subnets - todo)
        decreases todo
      {
        var p := Pick(todo);
        assert subnets - (todo - {p}) == (subnets - todo) + {p};
        order, todo := order + [p], todo - {p};
      }
      assert subnets - todo == subnets;
      var routes := [MeshOverlay] + order;
      if exit {
        var left := SubtractPrefixes(AllV4, lanKeep);
        routes := routes + left;
      } else {
        assert routes + [] == routes;
      }
      OrderIrrelevant(View().want, order);
      s := Settings(Net(overlay.value, 8 * |overlay.value|), SortRoutes(routes), mtu);
    }

    method ApplyLocked(env: Outcome) returns (ok: bool)
      modifies this
      ensures (View(), ok) == Apply(mtu, old(View()), env)
    {
      if overlay.None? {
        return true;
      }
      var settings := SettingsLocked();
      if applied == Some(settings) {
        return true;
      }
      if env.fd.None? {
        return false;
      }
      platform := Some(settings);
      if env.fd.value != fd {
        if !env.opens {
          return false;
        }
        if !env.swaps {
          return false;
        }
        fd := env.fd.value;
      }
      applied := Some(settings);
      return true;
    }

    method ConfigureLink(a: Option<Addr>, env: Outcome) returns (ok: bool)
      modifies this
      ensures (View(), ok) == Perform(mtu, old(View()), Call.ConfigureLink(a), env)
    {
      overlay := a;
      ok := ApplyLocked(env);
    }

    method AddSubnetRoutes(routes: seq<Prefix>, env: Outcome) returns (ok: bool)
      modifies this
      ensures (View(), ok) == Perform(mtu, old(View()), Call.AddSubnetRoutes(routes), env)
    {
      for i := 0 to |routes|
        invariant View() == old(View()).(want := old(View()).want.(subnets := old(subnets) + MaskedSet(routes[..i])))
      {
        MaskedSetGrows(routes, i);
        subnets := subnets + {Masked(routes[i])};
      }
      assert routes[..|routes|] == routes;
      ok := ApplyLocked(env);
    }

    method DelSubnetRoutes(routes: seq<Prefix>, env: Outcome) returns (ok: bool)
      modifies this
      ensures (View(), ok) == Perform(mtu, old(View()), Call.DelSubnetRoutes(routes), env)
    {
      for i := 0 to |routes|
        invariant View() == old(View()).(want := old(View()).want.(subnets := old(subnets) - MaskedSet(routes[..i])))
      {
        MaskedSetGrows(routes, i);
        subnets := subnets - {Masked(routes[i])};
      }
      assert routes[..|routes|] == routes;
      ok := ApplyLocked(env);
    }

    method EnableExitRoutes(keep: seq<Prefix>, env: Outcome) returns (ok: bool)
      modifies this
      ensures (View(), ok) == Perform(mtu, old(View()), Call.EnableExitRoutes(keep), env)
    {
      exit, lanKeep := true, keep;
      ok := ApplyLocked(env);
      if !ok {
        exit, lanKeep := false, [];
      }
    }

    /** The closure EnableExitRoutes returns; it discards the error. */
    method UndoExitRoutes(env: Outcome) returns (ok: bool)
      modifies this
      ensures (View(), ok) == Perform(mtu, old(View()), Call.UndoExitRoutes, env)
    {
      exit, lanKeep := false, [];
      ok := ApplyLocked(env);
    }
  }

  lemma MaskedSetGrows(routes: seq<Prefix>, i: nat)
    requires i < |routes|
    ensures MaskedSet(routes[..i + 1]) == MaskedSet(routes[..i]) + {Masked(routes[i])}
  {
    assert routes[..i + 1] == routes[..i] + [routes[i]];
  }
}
