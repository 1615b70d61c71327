/** swapTUN: a stable front for a tun device that is replaced underneath its readers and writers.

    Each locked section and each call into a device is one step; any number of goroutines take steps in any
    order. A step that is not possible in a state leaves it as it is. */
module SwapTun {
  import opened Collections

  type Device = nat
  type Thread = nat
  type Channel = nat

  /** Where a Read or Write call is. Failed remembers whether the front had closed the device by then. */
  datatype Call =
    | Ready
    | Waiting(changed: Channel)
    | InDevice(dev: Device, gen: nat)
    | Failed(dev: Device, gen: nat, closedByFront: bool)
    | Done(result: Result)

  datatype Result = Success | Dropped | ErrClosed | DeviceError(dev: Device, closedByFront: bool)

  datatype State = State(
    dev: Option<Device>, gen: nat, closed: bool, changed: Channel,
    calls: map<Thread, Call>,         // calls in progress or returned
    writes: set<Thread>,              // the goroutines whose call is a Write
    closing: map<Thread, Device>,     // goroutines past the lock, about to close a device
    offered: set<Device>,             // every device ever handed to Swap
    born: map<Device, nat>,           // the generation each installed device got
    closes: multiset<Device>,         // the front's Close calls on devices
    shut: set<Channel>)               // closed changed channels

  const Initial := State(None, 0, false, 0, map[], {}, map[], {}, map[], multiset{}, {})

  datatype Step =
    | SwapLocked(t: Thread, d: Device)   // Swap's locked section
    | CloseLocked(t: Thread)             // Close's locked section
    | CloseDevice(t: Thread)             // the device Close after either
    | Begin(t: Thread, write: bool)      // a new Read or Write call
    | Current(t: Thread)                 // current(), at the top of the retry loop
    | Wake(t: Thread)                    // <-changed
    | Finish(t: Thread)                  // the device call succeeds
    | Fail(t: Thread)                    // the device call fails
    | Check(t: Thread)                   // swappedSince

  /** Swap hands the front a device it never had before; a goroutine does one thing at a time. */
  predicate Enabled(s: State, e: Step) {
    match e
    case SwapLocked(t, d) => t !in s.closing && d !in s.offered
    case CloseLocked(t) => t !in s.closing
    case CloseDevice(t) => t in s.closing
    case Begin(t, _) => t !in s.calls || s.calls[t].Done?
    case Current(t) => t in s.calls && s.calls[t].Ready?
    case Wake(t) => t in s.calls && s.calls[t].Waiting? && s.calls[t].changed in s.shut
    case Finish(t) => t in s.calls && s.calls[t].InDevice?
    case Fail(t) => t in s.calls && s.calls[t].InDevice?
    case Check(t) => t in s.calls && s.calls[t].Failed?
  }

  function WillClose(s: State, t: Thread, d: Option<Device>): map<Thread, Device> {
    if d.Some? then s.closing[t := d.value] else s.closing
  }

  function Swapped(s: State, t: Thread, d: Device): State {
    if s.closed then s.(closing := s.closing[t := d], offered := s.offered + {d})
    else s.(dev := Some(d), gen := s.gen + 1, shut := s.shut + {s.changed}, changed := s.changed + 1,
            closing := WillClose(s, t, s.dev), offered := s.offered + {d}, born := s.born[d := s.gen + 1])
  }

  function Closed(s: State, t: Thread): State {
    if s.closed then s
    else s.(closed := true, dev := None, shut := s.shut + {s.changed}, closing := WillClose(s, t, s.dev))
  }

  function CurrentCall(s: State, write: bool): Call {
    if s.closed then Done(ErrClosed)
    else if s.dev.None? then if write then Done(Dropped) else Waiting(s.changed)
    else InDevice(s.dev.value, s.gen)
  }

  function CheckedCall(s: State, c: Call): Call
    requires c.Failed?
  {
    if s.closed || s.gen != c.gen then Ready else Done(DeviceError(c.dev, c.closedByFront))
  }

  function Next(s: State, e: Step): State {
    if !Enabled(s, e) then s
    else match e
      case SwapLocked(t, d) => Swapped(s, t, d)
      case CloseLocked(t) => Closed(s, t)
      case CloseDevice(t) => s.(closes := s.closes + multiset{s.closing[t]}, closing := s.closing - {t})
      case Begin(t, write) =>
        s.(calls := s.calls[t := Ready], writes := if write then s.writes + {t} else s.writes - {t})
      case Current(t) => s.(calls := s.calls[t := CurrentCall(s, t in s.writes)])
      case Wake(t) => s.(calls := s.calls[t := Ready])
      case Finish(t) => s.(calls := s.calls[t := Done(Success)])
      case Fail(t) =>
        var c := s.calls[t];
        s.(calls := s.calls[t := Failed(c.dev, c.gen, c.dev in s.closes)])
      case Check(t) => s.(calls := s.calls[t := CheckedCall(s, s.calls[t])])
  }

  function Run(es: seq<Step>): State {
    if es == [] then Initial else Next(Run(es[..|es| - 1]), es[|es| - 1])
  }

  // ------------------------------------------------------------- invariant

  predicate IsCurrent(s: State, d: Device) { s.dev == Some(d) }

  predicate BeingClosed(s: State, d: Device) { exists t :: t in s.closing && s.closing[t] == d }

  /** An offered device is in exactly one place: current, with one goroutine about to close it, or closed once. */
  predicate InOnePlace(s: State, d: Device) {
    if IsCurrent(s, d) then !BeingClosed(s, d) && s.closes[d] == 0
    else if BeingClosed(s, d) then s.closes[d] == 0
    else s.closes[d] == 1
  }

  predicate OneEach(s: State) {
    forall t, u | t in s.closing && u in s.closing && t != u :: s.closing[t] != s.closing[u]
  }

  ghost predicate Devices(s: State) {
    && OneEach(s)
    && (forall d | d in s.offered :: InOnePlace(s, d))
    && (forall t | t in s.closing :: s.closing[t] in s.offered)
    && (forall d | d in s.closes :: d in s.offered)
    && (s.dev.Some? ==> s.dev.value in s.offered)
  }

  /** The device is no longer the one calls are directed to, and swappedSince says so for its generation. */
  predicate Retired(s: State, d: Device) { s.closed || (d in s.born && s.born[d] < s.gen) }

  ghost predicate Generations(s: State) {
    && (s.dev.Some? ==> !s.closed && s.dev.value in s.born && s.born[s.dev.value] == s.gen)
    && (s.dev.None? ==> s.closed || s.gen == 0)
    && (forall d | d in s.born :: d in s.offered && 1 <= s.born[d] <= s.gen)
    && (forall d, e | d in s.born && e in s.born && d != e :: s.born[d] != s.born[e])
    && (forall t | t in s.closing :: Retired(s, s.closing[t]))
    && (forall d | d in s.closes :: Retired(s, d))
  }

  /** The current channel is open exactly while the front is, so no channel is ever closed twice. */
  predicate Channels(s: State) {
    && (s.changed in s.shut <==> s.closed)
    && (forall c | c in s.shut :: c <= s.changed)
  }

  predicate CallOk(s: State, c: Call) {
    match c
    case Waiting(ch) => ch in s.shut || (ch == s.changed && s.dev.None? && !s.closed)
    case InDevice(d, g) => d in s.born && s.born[d] == g
    case Failed(d, g, byFront) => d in s.born && s.born[d] == g && (byFront ==> s.closed || g < s.gen)
    case Done(DeviceError(_, byFront)) => !byFront
    case _ => true
  }

  ghost predicate Calls(s: State) { forall t | t in s.calls :: CallOk(s, s.calls[t]) }

  ghost predicate Inv(s: State) { Devices(s) && Generations(s) && Channels(s) && Calls(s) }

  /** A device d that was never offered is in nobody's hands. */
  predicate Unknown(s: State, d: Device) { !BeingClosed(s, d) && s.closes[d] == 0 && !IsCurrent(s, d) }

  /** Handing goroutine t the device x (or none) to close moves x out of wherever it was, and nothing else. */
  lemma HandOver(s: State, s': State, t: Thread, x: Option<Device>)
    requires t !in s.closing && s'.closing == WillClose(s, t, x) && s'.closes == s.closes
    requires OneEach(s) && (x.Some? ==> !BeingClosed(s, x.value))
    ensures forall d: Device :: BeingClosed(s', d) <==> BeingClosed(s, d) || x == Some(d)
    ensures OneEach(s')
  {
    forall d: Device ensures BeingClosed(s', d) <==> BeingClosed(s, d) || x == Some(d) {
      if BeingClosed(s, d) {
        var u :| u in s.closing && s.closing[u] == d;
        assert u in s'.closing && s'.closing[u] == d;
      }
      if x == Some(d) {
        assert s'.closing[t] == d;
      }
      if BeingClosed(s', d) {
        var u :| u in s'.closing && s'.closing[u] == d;
        assert u != t ==> u in s.closing && s.closing[u] == d;
      }
    }
  }

  lemma SwapDevices(s: State, t: Thread, d: Device)
    requires Inv(s) && Enabled(s, SwapLocked(t, d))
    ensures Devices(Swapped(s, t, d))
  {
    var s' := Swapped(s, t, d);
    assert Unknown(s, d);
    HandOver(s, s', t, if s.closed then Some(d) else s.dev);
    forall x | x in s'.offered ensures InOnePlace(s', x) {
      assert x != d ==> InOnePlace(s, x);
    }
  }

  lemma SwapGenerations(s: State, t: Thread, d: Device)
    requires Generations(s) && d !in s.offered
    ensures Generations(Swapped(s, t, d))
  {
    assert d !in s.born;
    var s' := Swapped(s, t, d);
    forall u | u in s'.closing ensures Retired(s', s'.closing[u]) {
      if u != t {
        assert Retired(s, s.closing[u]);
      }
    }
    forall x | x in s'.closes ensures Retired(s', x) {
      assert Retired(s, x);
    }
  }

  lemma SwapCalls(s: State, t: Thread, d: Device)
    requires Generations(s) && Calls(s) && d !in s.offered
    ensures Calls(Swapped(s, t, d))
  {
    var s' := Swapped(s, t, d);
    assert d !in s.born;
    forall u | u in s'.calls ensures CallOk(s', s'.calls[u]) {
      assert CallOk(s, s.calls[u]);
    }
  }

  lemma SwapKeeps(s: State, t: Thread, d: Device)
    requires Inv(s) && Enabled(s, SwapLocked(t, d))
    ensures Inv(Swapped(s, t, d))
  {
    SwapDevices(s, t, d);
    SwapGenerations(s, t, d);
    SwapCalls(s, t, d);
    assert Channels(Swapped(s, t, d));
  }

  lemma CloseDevices(s: State, t: Thread)
    requires Inv(s) && Enabled(s, CloseLocked(t))
    ensures Devices(Closed(s, t))
  {
    var s' := Closed(s, t);
    HandOver(s, s', t, if s.closed then None else s.dev);
    forall x | x in s'.offered ensures InOnePlace(s', x) {
      assert InOnePlace(s, x);
    }
  }

  lemma CloseKeeps(s: State, t: Thread)
    requires Inv(s) && Enabled(s, CloseLocked(t))
    ensures Inv(Closed(s, t))
  {
    CloseDevices(s, t);
    var s' := Closed(s, t);
    forall u | u in s'.calls ensures CallOk(s', s'.calls[u]) {
      assert CallOk(s, s.calls[u]);
    }
  }

  lemma CloseDevicePlaces(s: State, t: Thread)
    requires Devices(s) && Enabled(s, CloseDevice(t))
    ensures Devices(Next(s, CloseDevice(t)))
  {
    var d := s.closing[t];
    var s' := Next(s, CloseDevice(t));
    assert BeingClosed(s, d) && InOnePlace(s, d);
    forall x | x in s'.offered ensures InOnePlace(s', x) {
      assert InOnePlace(s, x);
      if BeingClosed(s, x) && x != d {
        var u :| u in s.closing && s.closing[u] == x;
        assert u in s'.closing && s'.closing[u] == x;
      }
      if BeingClosed(s', x) {
        var u :| u in s'.closing && s'.closing[u] == x;
        assert u in s.closing && s.closing[u] == x && u != t;
      }
    }
  }

  lemma CloseDeviceGenerations(s: State, t: Thread)
    requires Generations(s) && Enabled(s, CloseDevice(t))
    ensures Generations(Next(s, CloseDevice(t)))
  {
    var s' := Next(s, CloseDevice(t));
    assert Retired(s, s.closing[t]);
    forall d | d in s'.closes ensures Retired(s', d) {
      assert d == s.closing[t] || d in s.closes;
    }
  }

  lemma CloseDeviceKeeps(s: State, t: Thread)
    requires Inv(s) && Enabled(s, CloseDevice(t))
    ensures Inv(Next(s, CloseDevice(t)))
  {
    CloseDevicePlaces(s, t);
    CloseDeviceGenerations(s, t);
    var s' := Next(s, CloseDevice(t));
    forall u | u in s'.calls ensures CallOk(s', s'.calls[u]) {
      assert CallOk(s, s.calls[u]);
    }
  }

  lemma OnlyCalls(s: State, s': State)
    requires Devices(s) && Generations(s) && s' == s.(calls := s'.calls, writes := s'.writes)
    ensures Devices(s') && Generations(s')
  {
    forall d | d in s'.offered ensures InOnePlace(s', d) {
      assert InOnePlace(s, d);
      assert BeingClosed(s', d) == BeingClosed(s, d);
    }
    forall d ensures Retired(s', d) == Retired(s, d) {
    }
  }

  lemma NewCall(s: State, e: Step)
    requires Generations(s) && Calls(s) && Enabled(s, e) && !e.SwapLocked? && !e.CloseLocked? && !e.CloseDevice?
    ensures Next(s, e) == s.(calls := Next(s, e).calls, writes := Next(s, e).writes)
    ensures Calls(Next(s, e))
  {
    var s' := Next(s, e);
    forall u | u in s'.calls ensures CallOk(s', s'.calls[u]) {
      if u in s.calls {
        assert CallOk(s, s.calls[u]);
      }
    }
  }

  lemma CallKeeps(s: State, e: Step)
    requires Inv(s) && Enabled(s, e) && !e.SwapLocked? && !e.CloseLocked? && !e.CloseDevice?
    ensures Inv(Next(s, e))
  {
    NewCall(s, e);
    OnlyCalls(s, Next(s, e));
  }

  /** Every reachable state, under every interleaving. */
  lemma {:induction false} Reachable(es: seq<Step>)
    ensures Inv(Run(es))
  {
    if es != [] {
      Reachable(es[..|es| - 1]);
      var s, e := Run(es[..|es| - 1]), es[|es| - 1];
      if Enabled(s, e) {
        match e
        case SwapLocked(t, d) => SwapKeeps(s, t, d);
        case CloseLocked(t) => CloseKeeps(s, t);
        case CloseDevice(t) => CloseDeviceKeeps(s, t);
        case _ => CallKeeps(s, e);
      }
    }
  }

  // -------------------------------------------------------------- promises

  /** No device is ever closed twice by the front; and once the front is closed and the goroutines past its lock
      are through, every device it was ever given has been closed, exactly once. */
  lemma ClosedExactlyOnce(es: seq<Step>, d: Device)
    ensures var s := Run(es);
            && s.closes[d] <= 1
            && (s.closed && s.closing == map[] && d in s.offered ==> s.closes[d] == 1)
            && (s.dev == Some(d) ==> s.closes[d] == 0)
  {
    Reachable(es);
    var s := Run(es);
    if d in s.offered {
      assert InOnePlace(s, d);
    }
  }

  /** The front closes a device only after the generation moved past it, or after the front itself was closed. */
  lemma ClosedOnlyAfterMoving(es: seq<Step>, t: Thread)
    requires Enabled(Run(es), CloseDevice(t))
    ensures Retired(Run(es), Run(es).closing[t])
  {
    Reachable(es);
  }

  /** A call whose device was closed by the front is retried or told the front is closed: an error it reports as
      the device's own comes from a device the front had not closed when it failed. */
  lemma NeverTheFrontsFault(es: seq<Step>, t: Thread)
    requires var s := Run(es); t in s.calls && s.calls[t].Done? && s.calls[t].result.DeviceError?
    ensures !Run(es).calls[t].result.closedByFront
  {
    Reachable(es);
    assert CallOk(Run(es), Run(es).calls[t]);
  }

  /** After a failure the front caused, the very next check sends the call round the loop. */
  lemma FrontFailureRetries(es: seq<Step>, t: Thread)
    requires var s := Run(es); t in s.calls && s.calls[t].Failed? && s.calls[t].closedByFront
    ensures Next(Run(es), Check(t)).calls[t] == Ready
  {
    Reachable(es);
    assert CallOk(Run(es), Run(es).calls[t]);
  }

  /** No wake-up is lost: a reader that is still asleep has an open front with no device, and the next Swap or
      Close, by anyone, lets every sleeping reader go on; after that it finds a device or the closed front. */
  lemma SleepersWake(es: seq<Step>, e: Step, t: Thread)
    requires var s := Run(es); t in s.calls && s.calls[t].Waiting?
    requires e.SwapLocked? || e.CloseLocked?
    ensures !Enabled(Run(es), Wake(t)) ==> Run(es).dev == None && !Run(es).closed
    ensures Enabled(Run(es), e) ==> Enabled(Next(Run(es), e), Wake(t))
    ensures Enabled(Run(es), e) ==> !CurrentCall(Next(Run(es), e), false).Waiting?
  {
    Reachable(es);
    var s := Run(es);
    assert CallOk(s, s.calls[t]);
    if Enabled(s, e) {
      var s' := Next(s, e);
      assert s'.calls == s.calls;
      assert s.calls[t].changed in s'.shut;
    }
  }

  /** Neither Swap nor Close ever closes a channel that is already closed. */
  lemma ChannelClosedOnce(es: seq<Step>)
    ensures !Run(es).closed ==> Run(es).changed !in Run(es).shut
  {
    Reachable(es);
  }

  /** A device failure is reported exactly if the device that failed is still the current one when the call checks:
      the front is open and its generation has not moved. Otherwise the call goes round the loop. */
  lemma ReportedExact(es: seq<Step>, t: Thread)
    requires var s := Run(es); t in s.calls && s.calls[t].Failed?
    ensures var s := Run(es);
            var c := s.calls[t];
            && (s.dev == Some(c.dev) <==> !s.closed && s.gen == c.gen)
            && Next(s, Check(t)).calls[t] ==
               if s.dev == Some(c.dev) then Done(DeviceError(c.dev, c.closedByFront)) else Ready
  {
    Reachable(es);
    assert CallOk(Run(es), Run(es).calls[t]);
  }

  /** What a call meets at the top of its loop: the closed front ends it; a device is tried, under the generation that
      device was installed as; without one a Write is dropped and a Read sleeps. */
  lemma LooksExact(es: seq<Step>, t: Thread)
    requires var s := Run(es); t in s.calls && s.calls[t].Ready?
    ensures var s := Run(es);
            var next := Next(s, Current(t)).calls[t];
            && (next == Done(ErrClosed) <==> s.closed)
            && (next.InDevice? <==> s.dev.Some?)
            && (next.InDevice? ==> s.dev == Some(next.dev) && next.dev in s.born && s.born[next.dev] == next.gen)
            && (next == Done(Dropped) <==> !s.closed && s.dev == None && t in s.writes)
            && (next.Waiting? <==> !s.closed && s.dev == None && t !in s.writes)
  {
    Reachable(es);
  }

  /** Only a Write is ever told its packets were dropped, and only a Read ever sleeps. */
  ghost predicate Kinds(s: State) {
    forall t | t in s.calls ::
      (s.calls[t] == Done(Dropped) ==> t in s.writes) && (s.calls[t].Waiting? ==> t !in s.writes)
  }

  lemma {:induction false} KindsKept(es: seq<Step>)
    ensures Kinds(Run(es))
  {
    if es != [] {
      KindsKept(es[..|es| - 1]);
      KindsStep(Run(es[..|es| - 1]), es[|es| - 1]);
    }
  }

  lemma KindsStep(s: State, e: Step)
    requires Kinds(s)
    ensures Kinds(Next(s, e))
  {
  }
}
