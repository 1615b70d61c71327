/** What the platform is told, in terms of the calls the datapath made. */
module VpnRoutingRuns {
  import opened Collections
  import opened Prefixes
  import opened VpnRoutings

  /** The address of the last ConfigureLink. */
  function LinkSet(calls: seq<(Call, Outcome)>): Option<Addr> {
    if calls == [] then None
    else
      var call := calls[|calls| - 1].0;
      if call.ConfigureLink? then call.overlay else LinkSet(calls[..|calls| - 1])
  }

  predicate Mentions(routes: seq<Prefix>, q: Prefix) { exists i | 0 <= i < |routes| :: Masked(routes[i]) == q }

  /** Whether the last call that names the subnet, masked, adds it (true) or withdraws it (false). */
  function LastMention(calls: seq<(Call, Outcome)>, q: Prefix): Option<bool> {
    if calls == [] then None
    else
      var call := calls[|calls| - 1].0;
      if call.AddSubnetRoutes? && Mentions(call.routes, q) then Some(true)
      else if call.DelSubnetRoutes? && Mentions(call.routes, q) then Some(false)
      else LastMention(calls[..|calls| - 1], q)
  }

  /** What the last exit call keeps on the LAN, if it is an EnableExitRoutes that succeeded and was not undone. */
  ghost function ExitKeep(mtu: int, calls: seq<(Call, Outcome)>): Option<seq<Prefix>> {
    if calls == [] then None
    else
      var before := calls[..|calls| - 1];
      var (call, env) := calls[|calls| - 1];
      if call.EnableExitRoutes? then
        if Perform(mtu, Run(mtu, before), call, env).1 then Some(call.lanKeep) else None
      else if call.UndoExitRoutes? then None
      else ExitKeep(mtu, before)
  }

  ghost predicate WantedBy(w: Desired, mtu: int, calls: seq<(Call, Outcome)>) {
    && w.overlay == LinkSet(calls)
    && (forall q :: q in w.subnets <==> LastMention(calls, q) == Some(true))
    && (w.exit <==> ExitKeep(mtu, calls).Some?)
    && w.lanKeep == (if ExitKeep(mtu, calls).Some? then ExitKeep(mtu, calls).value else [])
  }

  lemma MentionsMasked(routes: seq<Prefix>, q: Prefix)
    ensures Mentions(routes, q) <==> q in MaskedSet(routes)
  {
    if Mentions(routes, q) {
      var i :| 0 <= i < |routes| && Masked(routes[i]) == q;
      assert routes[i] in routes;
    }
    if q in MaskedSet(routes) {
      var p :| p in routes && Masked(p) == q;
      var i :| 0 <= i < |routes| && routes[i] == p;
    }
  }

  /** A call leaves on record what it asks for; only an exit that fails is taken back. */
  lemma WantAfter(mtu: int, st: State, call: Call, env: Outcome)
    ensures var (after, ok) := Perform(mtu, st, call, env);
            after.want == if call.EnableExitRoutes? && !ok then st.want.(exit := false, lanKeep := [])
                          else Request(st.want, call)
  {
    var asked := st.(want := Request(st.want, call));
    if asked.want.overlay.Some? {
      TellExact(asked, Rendering(mtu, asked.want), env);
    }
  }

  lemma RequestWanted(w: Desired, call: Call, q: Prefix)
    ensures q in Request(w, call).subnets <==>
            if call.AddSubnetRoutes? && Mentions(call.routes, q) then true
            else if call.DelSubnetRoutes? && Mentions(call.routes, q) then false
            else q in w.subnets
  {
    if call.AddSubnetRoutes? || call.DelSubnetRoutes? {
      MentionsMasked(call.routes, q);
    }
  }

  /** The desired state is what the calls of the run say, last word first. */
  lemma {:induction false} WantExact(mtu: int, calls: seq<(Call, Outcome)>)
    ensures WantedBy(Run(mtu, calls).want, mtu, calls)
  {
    if calls != [] {
      var before := calls[..|calls| - 1];
      var (call, env) := calls[|calls| - 1];
      WantExact(mtu, before);
      var st := Run(mtu, before);
      WantAfter(mtu, st, call, env);
      forall q ensures q in Run(mtu, calls).want.subnets <==> LastMention(calls, q) == Some(true) {
        RequestWanted(st.want, call, q);
      }
    }
  }

  /** 100.64.0.0/10, as bytes. */
  predicate InMeshRange(a: Addr) { |a| == 4 && a[0] == 100 && a[1] & 0xC0 == 0x40 }

  lemma MeshRange(a: Addr)
    ensures Contains(MeshOverlay, a) <==> InMeshRange(a)
  {
    if |a| == 4 {
      ContainsMasked(MeshOverlay, a);
      var m, o := MaskAddr(a, 10), MaskAddr(MeshOverlay.addr, 10);
      assert m[0] == a[0] & 0xFF && m[1] == a[1] & 0xC0 && m[2] == a[2] & 0x00 && m[3] == a[3] & 0x00;
      assert o[0] == 100 && o[1] == 64 && o[2] == 0 && o[3] == 0;
      assert a[0] & 0xFF == a[0] && a[2] & 0x00 == 0 && a[3] & 0x00 == 0;
      assert m == o <==> m[0] == o[0] && m[1] == o[1];
    }
  }

  /** After any run, a call that succeeds and leaves the node an address has these settings on record: that address as
      a host prefix, this MTU, and routes for exactly the mesh range, the subnets last added, and all of IPv4 but what
      stays on the LAN while the last exit call is one that succeeded and was not undone. */
  lemma AppliedByCalls(mtu: int, calls: seq<(Call, Outcome)>, call: Call, env: Outcome, a: Addr)
    requires Perform(mtu, Run(mtu, calls), call, env).1 && LinkSet(calls + [(call, env)]).Some?
    ensures var all := calls + [(call, env)];
            var st, me, keep := Run(mtu, all), LinkSet(all).value, ExitKeep(mtu, all);
            && st.applied.Some? && st.applied.value.address == Net(me, 8 * |me|) && st.applied.value.mtu == mtu
            && (Covers(st.applied.value.routes, a) <==>
                || InMeshRange(a)
                || (exists q :: LastMention(all, q) == Some(true) && Contains(q, a))
                || (keep.Some? && |a| == 4 && !Covers(keep.value, a)))
  {
    var all := calls + [(call, env)];
    RunExact(mtu, calls, call, env);
    WantExact(mtu, all);
    var w := Run(mtu, all).want;
    RoutesExact(mtu, w, a);
    MeshRange(a);
    Subnets(w, mtu, all, a);
  }

  lemma Subnets(w: Desired, mtu: int, calls: seq<(Call, Outcome)>, a: Addr)
    requires WantedBy(w, mtu, calls)
    ensures (exists p :: p in w.subnets && Contains(p, a)) <==>
            (exists q :: LastMention(calls, q) == Some(true) && Contains(q, a))
  {
    if p :| p in w.subnets && Contains(p, a) {
      assert LastMention(calls, p) == Some(true);
    }
  }

  /** Routes are listed IPv4 before IPv6, by address from the first byte on, then shorter prefix first. */
  predicate Ascends(p: Prefix, q: Prefix) {
    || p.Invalid?
    || (p.Net? && q.Net? && |p.addr| < |q.addr|)
    || (p.Net? && q.Net? && p.addr == q.addr && p.bits <= q.bits)
    || (p.Net? && q.Net? && |p.addr| == |q.addr|
        && exists i | 0 <= i < |p.addr| :: p.addr[..i] == q.addr[..i] && p.addr[i] < q.addr[i])
  }

  /** Where two byte strings in order first differ. */
  lemma {:induction false} LexAscends(a: seq<bv8>, b: seq<bv8>) returns (i: nat)
    requires |a| == |b| && LexLeq(a, b) && a != b
    ensures i < |a| && a[..i] == b[..i] && a[i] < b[i]
  {
    i := 0;
    if a[0] == b[0] {
      assert a == [a[0]] + a[1..] && b == [b[0]] + b[1..];
      var j := LexAscends(a[1..], b[1..]);
      i := j + 1;
      OneLonger(a, b, j);
    }
  }

  lemma OneLonger(a: seq<bv8>, b: seq<bv8>, j: nat)
    requires |a| == |b| && j + 1 < |a| && a[0] == b[0] && a[1..][..j] == b[1..][..j]
    ensures a[..j + 1] == b[..j + 1]
  {
    assert a[..j + 1] == [a[0]] + a[1..][..j] && b[..j + 1] == [b[0]] + b[1..][..j];
  }

  lemma RoutesAscend(mtu: int, w: Desired, i: nat, j: nat)
    requires w.overlay.Some? && i < j < |Rendering(mtu, w).routes|
    ensures Ascends(Rendering(mtu, w).routes[i], Rendering(mtu, w).routes[j])
  {
    var all := [MeshOverlay] + Enumerate(w.subnets) + ExitRoutes(w);
    RouteOrder();
    SortSorts(all, PrefixLeq);
    var p, q := SortRoutes(all)[i], SortRoutes(all)[j];
    assert PrefixLeq(p, q);
    if p.Net? && q.Net? && |p.addr| == |q.addr| && p.addr != q.addr {
      var k := LexAscends(p.addr, q.addr);
    }
  }
}
