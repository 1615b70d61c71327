/** A destination link of the relay: its bounded queue, the goroutine that drains it, and the control frames
    other goroutines write to the same connection.

    Each channel operation, lock operation and stretch of bytes accepted by the connection is one step, taken in
    any order. A connection that failed a write takes no more bytes. A step that is not possible in a state
    leaves it as it is. */
module SendQueue {
  import opened Collections
  import opened Wire
  import opened DerpFrames

  const DEPTH := 512
  const MAX_DELAY := 500_000_000  // 500 ms in nanoseconds

  type Thread = nat

  /** A frame offered to the queue: when, and the ciphertext bytes to bill once it is written. */
  datatype Item = Item(frame: Frame, at: int, credit: nat)

  /** A dequeued item and the clock reading it was checked against. */
  datatype Checked = Checked(item: Item, now: int)

  predicate InTime(c: Checked) { c.now - c.item.at <= MAX_DELAY }

  datatype Writer =
    | Idle
    | Holding(item: Item)            // dequeued in time, waiting for wmu
    | Writing(item: Item, n: nat)    // holds wmu; n bytes are out
    | Billing(item: Item)            // written and unlocked, usage not yet credited
    | Stopped(failed: Option<Item>)

  datatype Control = Pending(frame: Frame) | Sending(frame: Frame, n: nat)

  datatype Owner = Data | Ctl(t: Thread)

  datatype State = State(
    queue: seq<Item>, dropped: nat, writer: Writer, out: nat,
    controls: map<Thread, Control>, wmu: Option<Owner>,
    wire: seq<Byte>, lost: Option<(Frame, nat)>,   // the bytes out; the first write that failed, and how far it got
    offered: nat, full: nat,        // frames offered, and those the full queue turned away
    accepted: seq<Item>,            // everything the queue took, in order
    taken: seq<Checked>,            // everything dequeued, in order
    written: seq<Item>,             // data frames written in full, in order
    whole: seq<Frame>)              // all frames written in full, in order

  const Initial := State([], 0, Idle, 0, map[], None, [], None, 0, 0, [], [], [], [])

  datatype Step =
    | Enqueue(item: Item)
    | Dequeue(now: int)
    | LockData
    | DataBytes(k: nat)
    | DataDone
    | DataFails
    | Credit
    | Stop
    | ControlStart(t: Thread, frame: Frame)
    | LockControl(t: Thread)
    | ControlBytes(t: Thread, k: nat)
    | ControlDone(t: Thread)
    | ControlFails(t: Thread)

  function Bytes(f: Frame): seq<Byte> { if Fits(f) then Encode(f).value else [] }

  predicate Sends(s: State, t: Thread) { t in s.controls && s.controls[t].Sending? }

  predicate Enabled(s: State, e: Step) {
    match e
    case Enqueue(item) => Fits(item.frame)
    case Dequeue(_) => s.writer.Idle? && s.queue != []
    case LockData => s.writer.Holding? && s.wmu.None?
    case DataBytes(k) => s.writer.Writing? && s.lost.None? && s.writer.n + k <= |Bytes(s.writer.item.frame)|
    case DataDone => s.writer.Writing? && s.writer.n == |Bytes(s.writer.item.frame)|
    case DataFails => s.writer.Writing?
    case Credit => s.writer.Billing?
    case Stop => s.writer.Idle?
    case ControlStart(t, f) => t !in s.controls && Fits(f)
    case LockControl(t) => t in s.controls && s.controls[t].Pending? && s.wmu.None?
    case ControlBytes(t, k) => Sends(s, t) && s.lost.None? && s.controls[t].n + k <= |Bytes(s.controls[t].frame)|
    case ControlDone(t) => Sends(s, t) && s.controls[t].n == |Bytes(s.controls[t].frame)|
    case ControlFails(t) => Sends(s, t)
  }

  function Enqueued(s: State, item: Item): State {
    if |s.queue| < DEPTH then
      s.(queue := s.queue + [item], accepted := s.accepted + [item], offered := s.offered + 1)
    else
      s.(dropped := s.dropped + 1, full := s.full + 1, offered := s.offered + 1)
  }

  function Dequeued(s: State, now: int): State
    requires s.queue != []
  {
    var c := Checked(s.queue[0], now);
    var s' := s.(queue := s.queue[1..], taken := s.taken + [c]);
    if InTime(c) then s'.(writer := Holding(c.item)) else s'.(dropped := s'.dropped + 1)
  }

  /** The first failed write is the one that counts. */
  function Lose(lost: Option<(Frame, nat)>, f: Frame, n: nat): Option<(Frame, nat)> {
    if lost.Some? then lost else Some((f, n))
  }

  function Next(s: State, e: Step): State {
    if !Enabled(s, e) then s
    else match e
      case Enqueue(item) => Enqueued(s, item)
      case Dequeue(now) => Dequeued(s, now)
      case LockData => s.(writer := Writing(s.writer.item, 0), wmu := Some(Data))
      case DataBytes(k) =>
        var w := s.writer;
        s.(wire := s.wire + Bytes(w.item.frame)[w.n..w.n + k], writer := Writing(w.item, w.n + k))
      case DataDone =>
        var it := s.writer.item;
        s.(writer := Billing(it), wmu := None, written := s.written + [it], whole := s.whole + [it.frame])
      case DataFails =>
        s.(writer := Stopped(Some(s.writer.item)), wmu := None, lost := Lose(s.lost, s.writer.item.frame, s.writer.n))
      case Credit => s.(out := s.out + s.writer.item.credit, writer := Idle)
      case Stop => s.(writer := Stopped(None))
      case ControlStart(t, f) => s.(controls := s.controls[t := Pending(f)])
      case LockControl(t) => s.(controls := s.controls[t := Sending(s.controls[t].frame, 0)], wmu := Some(Ctl(t)))
      case ControlBytes(t, k) =>
        var c := s.controls[t];
        s.(wire := s.wire + Bytes(c.frame)[c.n..c.n + k], controls := s.controls[t := Sending(c.frame, c.n + k)])
      case ControlDone(t) =>
        s.(controls := s.controls - {t}, wmu := None, whole := s.whole + [s.controls[t].frame])
      case ControlFails(t) =>
        s.(controls := s.controls - {t}, wmu := None, lost := Lose(s.lost, s.controls[t].frame, s.controls[t].n))
  }

  function Run(es: seq<Step>): State {
    if es == [] then Initial else Next(Run(es[..|es| - 1]), es[|es| - 1])
  }

  // -------------------------------------------------------------- the queue

  function Items(s: seq<Checked>): seq<Item> {
    if s == [] then [] else Items(s[..|s| - 1]) + [s[|s| - 1].item]
  }

  /** The dequeued items that were not too old. */
  function Kept(s: seq<Checked>): seq<Item> {
    if s == [] then []
    else Kept(s[..|s| - 1]) + if InTime(s[|s| - 1]) then [s[|s| - 1].item] else []
  }

  lemma Snoc(s: seq<Checked>, c: Checked)
    ensures Items(s + [c]) == Items(s) + [c.item]
    ensures Kept(s + [c]) == Kept(s) + if InTime(c) then [c.item] else []
  {
    assert (s + [c])[..|s|] == s;
  }

  function Credits(s: seq<Item>): nat { if s == [] then 0 else Credits(s[..|s| - 1]) + s[|s| - 1].credit }

  lemma CreditsSnoc(s: seq<Item>, i: Item)
    ensures Credits(s + [i]) == Credits(s) + i.credit
  {
    assert (s + [i])[..|s|] == s;
  }

  /** The frame between the queue and the wire, or the one a failed write lost. */
  function InFlight(w: Writer): seq<Item> {
    match w
    case Holding(i) => [i]
    case Writing(i, _) => [i]
    case Stopped(Some(i)) => [i]
    case _ => []
  }

  predicate QueueInv(s: State) {
    && |s.queue| <= DEPTH
    && s.offered == |s.accepted| + s.full
    && s.accepted == Items(s.taken) + s.queue
    && Kept(s.taken) == s.written + InFlight(s.writer)
    && s.dropped == s.full + |s.taken| - |Kept(s.taken)|
    && s.out == Credits(s.written) - (if s.writer.Billing? then s.writer.item.credit else 0)
    && (forall i | 0 <= i < |s.accepted| :: Fits(s.accepted[i].frame))
  }

  lemma {:induction false} ItemsCount(s: seq<Checked>)
    ensures |Items(s)| == |s|
  {
    if s != [] {
      ItemsCount(s[..|s| - 1]);
    }
  }

  lemma DequeueKeeps(s: State, now: int)
    requires QueueInv(s) && s.writer.Idle? && s.queue != []
    ensures QueueInv(Dequeued(s, now))
  {
    var c := Checked(s.queue[0], now);
    Snoc(s.taken, c);
    assert s.queue == [s.queue[0]] + s.queue[1..];
    assert Items(s.taken) + s.queue == Items(s.taken + [c]) + s.queue[1..];
    assert s.written + [] == s.written;
    assert Kept(s.taken) + [] == Kept(s.taken);
  }

  lemma EnqueueKeeps(s: State, item: Item)
    requires QueueInv(s) && Fits(item.frame)
    ensures QueueInv(Enqueued(s, item))
  {
    if |s.queue| < DEPTH {
      assert s.accepted + [item] == Items(s.taken) + (s.queue + [item]);
    }
  }

  lemma DoneKeeps(s: State)
    requires QueueInv(s) && Enabled(s, DataDone)
    ensures QueueInv(Next(s, DataDone))
  {
    var it := s.writer.item;
    CreditsSnoc(s.written, it);
    assert s.written + [it] + [] == s.written + [it];
  }

  lemma WriteKeeps(s: State, e: Step)
    requires QueueInv(s) && Enabled(s, e) && !e.Enqueue? && !e.Dequeue? && !e.DataDone?
    ensures QueueInv(Next(s, e))
  {
    var s' := Next(s, e);
    assert s'.written == s.written && s'.taken == s.taken && InFlight(s'.writer) == InFlight(s.writer);
  }

  lemma QueueKeeps(s: State, e: Step)
    requires QueueInv(s)
    ensures QueueInv(Next(s, e))
  {
    if Enabled(s, e) {
      match e
      case Enqueue(item) => EnqueueKeeps(s, item);
      case Dequeue(now) => DequeueKeeps(s, now);
      case DataDone => DoneKeeps(s);
      case _ => WriteKeeps(s, e);
    }
  }

  /** Every frame offered is written, dropped, still queued, or the one in flight or lost to a failed write. */
  lemma Conservation(s: State)
    requires QueueInv(s)
    ensures s.offered == |s.written| + s.dropped + |s.queue| + |InFlight(s.writer)|
    ensures |InFlight(s.writer)| <= 1 && |s.queue| <= DEPTH
  {
    ItemsCount(s.taken);
  }

  /** b can be had by deleting elements of a. */
  predicate Subsequence(b: seq<Item>, a: seq<Item>) {
    if b == [] then true
    else if a == [] then false
    else
      var i, j := |b| - 1, |a| - 1;
      (b[i] == a[j] && Subsequence(b[..i], a[..j])) || Subsequence(b, a[..j])
  }

  lemma {:induction false} KeptInOrder(s: seq<Checked>)
    ensures Subsequence(Kept(s), Items(s))
    ensures forall i | 0 <= i < |Kept(s)| :: exists c :: c in s && c.item == Kept(s)[i] && InTime(c)
  {
    if s != [] {
      var n := |s| - 1;
      KeptInOrder(s[..n]);
      assert Items(s)[..n] == Items(s[..n]) by { ItemsCount(s[..n]); }
      ItemsCount(s);
      var k := Kept(s);
      if InTime(s[n]) {
        assert k[..|k| - 1] == Kept(s[..n]);
      } else {
        assert k == Kept(s[..n]);
      }
      forall i | 0 <= i < |k| ensures exists c :: c in s && c.item == k[i] && InTime(c) {
        if i < |Kept(s[..n])| {
          var c :| c in s[..n] && c.item == Kept(s[..n])[i] && InTime(c);
          assert c in s;
        } else {
          assert s[n] in s;
        }
      }
    }
  }

  lemma {:induction false} SubsequenceInit(b: seq<Item>, x: Item, a: seq<Item>)
    requires Subsequence(b + [x], a)
    ensures Subsequence(b, a)
  {
    var j := |a| - 1;
    assert (b + [x])[..|b|] == b;
    if !Subsequence(b, a[..j]) {
      SubsequenceInit(b, x, a[..j]);
    }
  }

  lemma {:induction false} SubsequenceOfMore(b: seq<Item>, a: seq<Item>, rest: seq<Item>)
    requires Subsequence(b, a)
    ensures Subsequence(b, a + rest)
  {
    if rest == [] {
      assert a + rest == a;
    } else {
      SubsequenceOfMore(b, a, rest[..|rest| - 1]);
      assert (a + rest)[..|a + rest| - 1] == a + rest[..|rest| - 1];
    }
  }

  // ---------------------------------------------------------------- the wire

  /** The frame being written by whoever holds wmu, and how many of its bytes are out. */
  function Progress(s: State): Option<(Frame, nat)> {
    if s.wmu.None? then None
    else if s.wmu.value.Data? then if s.writer.Writing? then Some((s.writer.item.frame, s.writer.n)) else None
    else if Sends(s, s.wmu.value.t) then Some((s.controls[s.wmu.value.t].frame, s.controls[s.wmu.value.t].n))
    else None
  }

  function Part(p: Option<(Frame, nat)>): seq<Byte> {
    if p.Some? && p.value.1 <= |Bytes(p.value.0)| then Bytes(p.value.0)[..p.value.1] else []
  }

  predicate Sound(p: Option<(Frame, nat)>) { p.Some? ==> Fits(p.value.0) && p.value.1 <= |Bytes(p.value.0)| }

  /** wmu is held exactly by the goroutine that is writing. */
  ghost predicate LockInv(s: State) {
    && (s.writer.Writing? <==> s.wmu == Some(Data))
    && (forall t {:trigger Sends(s, t)} :: Sends(s, t) <==> s.wmu == Some(Ctl(t)))
  }

  predicate FitInv(s: State) {
    && (s.writer.Holding? ==> Fits(s.writer.item.frame))
    && (forall t | t in s.controls :: Fits(s.controls[t].frame))
  }

  /** The bytes out are the whole frames, then part of one: the frame in progress, or the one a write lost. */
  predicate Layout(wire: seq<Byte>, whole: seq<Frame>, p: Option<(Frame, nat)>, lost: Option<(Frame, nat)>) {
    && (forall i | 0 <= i < |whole| :: Fits(whole[i]))
    && Sound(p) && Sound(lost)
    && (lost.None? ==> wire == Concat(whole) + Part(p))
    && (lost.Some? ==> wire == Concat(whole) + Part(lost) && Part(p) == [])
  }

  ghost predicate WireInv(s: State) {
    LockInv(s) && FitInv(s) && Layout(s.wire, s.whole, Progress(s), s.lost)
  }

  lemma {:induction false} ConcatSnoc(fs: seq<Frame>, f: Frame)
    requires forall i | 0 <= i < |fs| :: Fits(fs[i])
    requires Fits(f)
    ensures Concat(fs + [f]) == Concat(fs) + Encode(f).value
  {
    if fs == [] {
      assert [f][1..] == [];
      assert fs + [f] == [f];
    } else {
      var rest, all := fs[1..], fs + [f];
      ConcatSnoc(rest, f);
      assert all[0] == fs[0] && all[1..] == rest + [f];
      Associative(Encode(fs[0]).value, Concat(rest), Encode(f).value);
    }
  }

  lemma Associative(a: seq<Byte>, b: seq<Byte>, c: seq<Byte>)
    ensures a + (b + c) == (a + b) + c
  {
  }

  lemma MoreBytes(whole: seq<Byte>, b: seq<Byte>, n: nat, k: nat)
    requires n + k <= |b|
    ensures (whole + b[..n]) + b[n..n + k] == whole + b[..n + k]
  {
  }

  lemma LayoutMore(wire: seq<Byte>, whole: seq<Frame>, f: Frame, n: nat, k: nat)
    requires Layout(wire, whole, Some((f, n)), None) && n + k <= |Bytes(f)|
    ensures Layout(wire + Bytes(f)[n..n + k], whole, Some((f, n + k)), None)
  {
    MoreBytes(Concat(whole), Bytes(f), n, k);
  }

  lemma LayoutDone(wire: seq<Byte>, whole: seq<Frame>, f: Frame, lost: Option<(Frame, nat)>)
    requires Layout(wire, whole, Some((f, |Bytes(f)|)), lost)
    ensures Layout(wire, whole + [f], None, lost)
  {
    assert |Bytes(f)| >= 5;
    assert Bytes(f)[..|Bytes(f)|] == Bytes(f);
    ConcatSnoc(whole, f);
    assert Concat(whole + [f]) + [] == Concat(whole + [f]);
  }

  /** Starting a frame, and giving one up, move no byte. */
  lemma LayoutEnds(wire: seq<Byte>, whole: seq<Frame>, f: Frame, n: nat, lost: Option<(Frame, nat)>)
    ensures Layout(wire, whole, None, lost) && Fits(f) ==> Layout(wire, whole, Some((f, 0)), lost)
    ensures Layout(wire, whole, Some((f, n)), lost) ==> Layout(wire, whole, None, Lose(lost, f, n))
  {
    assert Part(None) == [] && Part(Some((f, 0))) == [];
  }

  /** Steps that neither take nor release wmu nor write. */
  lemma QuietKeepsWire(s: State, e: Step)
    requires WireInv(s) && Enabled(s, e) && (s.queue != [] ==> Fits(s.queue[0].frame))
    requires e.Enqueue? || e.Dequeue? || e.Credit? || e.Stop?
    ensures WireInv(Next(s, e))
  {
    var s' := Next(s, e);
    SameLock(s, s');
  }

  lemma SameLock(s: State, s': State)
    requires LockInv(s) && s'.wmu == s.wmu && s'.controls == s.controls
    requires s'.writer == s.writer || (!s.writer.Writing? && !s'.writer.Writing?)
    ensures LockInv(s') && Progress(s') == Progress(s)
  {
    forall t ensures Sends(s', t) == Sends(s, t) {
    }
  }

  lemma StartKeepsWire(s: State, t: Thread, f: Frame)
    requires WireInv(s) && Enabled(s, ControlStart(t, f))
    ensures WireInv(Next(s, ControlStart(t, f)))
  {
    var s' := Next(s, ControlStart(t, f));
    forall u ensures Sends(s', u) == Sends(s, u) {
    }
    assert Progress(s') == Progress(s);
  }

  lemma QueuedFit(s: State)
    requires QueueInv(s)
    ensures s.queue != [] ==> Fits(s.queue[0].frame)
  {
    if s.queue != [] {
      assert s.accepted[|Items(s.taken)|] == s.queue[0];
    }
  }

  lemma DataLock(s: State, s': State)
    requires LockInv(s) && (s.wmu.None? || s.writer.Writing?)
    requires s'.controls == s.controls && s'.wmu == (if s'.writer.Writing? then Some(Data) else None)
    ensures LockInv(s')
  {
    forall t ensures !Sends(s', t) {
      assert Sends(s, t) <==> s.wmu == Some(Ctl(t));
    }
  }

  // The writer's own steps: lock, write, finish or fail.

  lemma DataLocks(s: State)
    requires WireInv(s) && Enabled(s, LockData)
    ensures WireInv(Next(s, LockData))
  {
    DataLock(s, Next(s, LockData));
    LayoutEnds(s.wire, s.whole, s.writer.item.frame, 0, s.lost);
  }

  lemma DataWrites(s: State, k: nat)
    requires WireInv(s) && Enabled(s, DataBytes(k))
    ensures WireInv(Next(s, DataBytes(k)))
  {
    var s' := Next(s, DataBytes(k));
    DataLock(s, s');
    assert Progress(s') == Some((s.writer.item.frame, s.writer.n + k));
    LayoutMore(s.wire, s.whole, s.writer.item.frame, s.writer.n, k);
  }

  lemma DataReleases(s: State, e: Step)
    requires WireInv(s) && Enabled(s, e) && (e.DataDone? || e.DataFails?)
    ensures WireInv(Next(s, e))
  {
    var s', f := Next(s, e), s.writer.item.frame;
    DataLock(s, s');
    if e.DataDone? {
      LayoutDone(s.wire, s.whole, f, s.lost);
    } else {
      LayoutEnds(s.wire, s.whole, f, s.writer.n, s.lost);
    }
  }

  /** After a step of control sender t, wmu is with t or free. */
  lemma ControlLock(s: State, s': State, t: Thread, held: bool)
    requires LockInv(s) && (s.wmu.None? || Sends(s, t))
    requires s'.writer == s.writer && s'.wmu == (if held then Some(Ctl(t)) else None) && Sends(s', t) == held
    requires forall u | u != t :: Sends(s', u) == Sends(s, u)
    ensures LockInv(s')
  {
    forall u ensures Sends(s', u) <==> s'.wmu == Some(Ctl(u)) {
      assert Sends(s, u) <==> s.wmu == Some(Ctl(u));
    }
  }

  lemma ControlLocks(s: State, t: Thread)
    requires WireInv(s) && Enabled(s, LockControl(t))
    ensures WireInv(Next(s, LockControl(t)))
  {
    ControlLock(s, Next(s, LockControl(t)), t, true);
    LayoutEnds(s.wire, s.whole, s.controls[t].frame, 0, s.lost);
  }

  lemma ControlHolds(s: State, t: Thread, k: nat)
    requires LockInv(s) && FitInv(s) && Enabled(s, ControlBytes(t, k))
    ensures var s', c := Next(s, ControlBytes(t, k)), s.controls[t];
            && LockInv(s') && FitInv(s')
            && Progress(s) == Some((c.frame, c.n)) && Progress(s') == Some((c.frame, c.n + k))
  {
    ControlLock(s, Next(s, ControlBytes(t, k)), t, true);
  }

  lemma ControlWrites(s: State, t: Thread, k: nat)
    requires WireInv(s) && Enabled(s, ControlBytes(t, k))
    ensures WireInv(Next(s, ControlBytes(t, k)))
  {
    var c := s.controls[t];
    ControlHolds(s, t, k);
    LayoutMore(s.wire, s.whole, c.frame, c.n, k);
  }

  lemma ControlReleases(s: State, t: Thread, e: Step)
    requires WireInv(s) && Enabled(s, e) && (e == ControlDone(t) || e == ControlFails(t))
    ensures WireInv(Next(s, e))
  {
    var s', c := Next(s, e), s.controls[t];
    ControlLock(s, s', t, false);
    if e.ControlDone? {
      LayoutDone(s.wire, s.whole, c.frame, s.lost);
    } else {
      LayoutEnds(s.wire, s.whole, c.frame, c.n, s.lost);
    }
  }

  lemma StepKeepsWire(s: State, e: Step)
    requires QueueInv(s) && WireInv(s) && Enabled(s, e)
    ensures WireInv(Next(s, e))
  {
    QueuedFit(s);
    match e
    case LockData => DataLocks(s);
    case DataBytes(k) => DataWrites(s, k);
    case DataDone => DataReleases(s, e);
    case DataFails => DataReleases(s, e);
    case ControlStart(t, f) => StartKeepsWire(s, t, f);
    case LockControl(t) => ControlLocks(s, t);
    case ControlBytes(t, k) => ControlWrites(s, t, k);
    case ControlDone(t) => ControlReleases(s, t, e);
    case ControlFails(t) => ControlReleases(s, t, e);
    case _ => QuietKeepsWire(s, e);
  }

  lemma {:induction false} Reachable(es: seq<Step>)
    ensures QueueInv(Run(es)) && WireInv(Run(es))
  {
    if es == [] {
      assert Concat([]) + Part(None) == [];
    } else {
      Reachable(es[..|es| - 1]);
      var s, e := Run(es[..|es| - 1]), es[|es| - 1];
      QueueKeeps(s, e);
      if Enabled(s, e) {
        StepKeepsWire(s, e);
      }
    }
  }

  // ------------------------------------------------------------ told by the run

  /** Frames offered so far. */
  function Offers(es: seq<Step>): nat {
    if es == [] then 0
    else
      var before, e := es[..|es| - 1], es[|es| - 1];
      Offers(before) + if e.Enqueue? && Enabled(Run(before), e) then 1 else 0
  }

  /** Those that met a queue of 512, in number. */
  function TurnedAway(es: seq<Step>): nat {
    if es == [] then 0
    else
      var before, e := es[..|es| - 1], es[|es| - 1];
      var s := Run(before);
      TurnedAway(before) + if e.Enqueue? && Enabled(s, e) && |s.queue| == 512 then 1 else 0
  }

  /** The others, in order. */
  function LetIn(es: seq<Step>): seq<Item> {
    if es == [] then []
    else
      var before, e := es[..|es| - 1], es[|es| - 1];
      var s := Run(before);
      LetIn(before) + if e.Enqueue? && Enabled(s, e) && |s.queue| != 512 then [e.item] else []
  }

  /** What the writer took from the head of the queue, and the clock it read then. */
  function TakenOut(es: seq<Step>): seq<Checked> {
    if es == [] then []
    else
      var before, e := es[..|es| - 1], es[|es| - 1];
      var s := Run(before);
      TakenOut(before) + if e.Dequeue? && Enabled(s, e) then [Checked(s.queue[0], e.now)] else []
  }

  /** Of those, the ones at most 500 ms old by that clock. */
  function OnTime(cs: seq<Checked>): seq<Item> {
    if cs == [] then []
    else
      var n := |cs| - 1;
      OnTime(cs[..n]) + if cs[n].now - cs[n].item.at <= 500_000_000 then [cs[n].item] else []
  }

  /** The control frame goroutine t set out to send last. */
  function Wanted(es: seq<Step>, t: Thread): Option<Frame> {
    if es == [] then None
    else
      var before, e := es[..|es| - 1], es[|es| - 1];
      if e.ControlStart? && e.t == t && Enabled(Run(before), e) then Some(e.frame) else Wanted(before, t)
  }

  /** The frames whose last byte went out: the writer's, as it took them, and the control frames, as wanted. */
  function Completed(es: seq<Step>): seq<Frame> {
    if es == [] then []
    else
      var before, e := es[..|es| - 1], es[|es| - 1];
      var s := Run(before);
      Completed(before)
      + if !Enabled(s, e) then []
        else if e.DataDone? && s.taken != [] then [s.taken[|s.taken| - 1].item.frame]
        else if e.ControlDone? && Wanted(before, e.t).Some? then [Wanted(before, e.t).value]
        else []
  }

  /** The records the state keeps are these. */
  predicate Told(es: seq<Step>) {
    var s := Run(es);
    s.offered == Offers(es) && s.full == TurnedAway(es) && s.accepted == LetIn(es) && s.taken == TakenOut(es)
  }

  lemma {:induction false} AlwaysTold(es: seq<Step>)
    ensures Told(es)
  {
    if es != [] {
      var before, e := es[..|es| - 1], es[|es| - 1];
      AlwaysTold(before);
      Reachable(before);
      TellStep(Run(before), e);
    }
  }

  lemma TellStep(s: State, e: Step)
    requires QueueInv(s)
    ensures var s' := Next(s, e);
            && s'.offered == s.offered + (if e.Enqueue? && Enabled(s, e) then 1 else 0)
            && s'.full == s.full + (if e.Enqueue? && Enabled(s, e) && |s.queue| == 512 then 1 else 0)
            && s'.accepted == s.accepted + (if e.Enqueue? && Enabled(s, e) && |s.queue| != 512 then [e.item] else [])
            && s'.taken == s.taken + (if e.Dequeue? && Enabled(s, e) then [Checked(s.queue[0], e.now)] else [])
  {
    assert s.accepted + [] == s.accepted && s.taken + [] == s.taken;
  }

  lemma {:induction false} KeptOnTime(cs: seq<Checked>)
    ensures Kept(cs) == OnTime(cs)
  {
    if cs != [] {
      KeptOnTime(cs[..|cs| - 1]);
    }
  }

  /** The item the writer has in hand is the one it took last. */
  predicate InHand(s: State) {
    (s.writer.Holding? || s.writer.Writing?) ==> s.taken != [] && s.taken[|s.taken| - 1].item == s.writer.item
  }

  predicate ControlsWanted(es: seq<Step>) {
    forall t | t in Run(es).controls :: Wanted(es, t) == Some(Run(es).controls[t].frame)
  }

  lemma InHandStep(s: State, e: Step)
    requires InHand(s)
    ensures InHand(Next(s, e))
  {
  }

  lemma WantedStep(es: seq<Step>, e: Step)
    requires ControlsWanted(es)
    ensures ControlsWanted(es + [e])
  {
    assert (es + [e])[..|es|] == es;
    var s, s' := Run(es), Run(es + [e]);
    forall t | t in s'.controls ensures Wanted(es + [e], t) == Some(s'.controls[t].frame) {
      assert Wanted(es + [e], t) ==
             if e.ControlStart? && e.t == t && Enabled(s, e) then Some(e.frame) else Wanted(es, t);
      FramesKept(s, e, t);
    }
  }

  lemma FramesKept(s: State, e: Step, t: Thread)
    requires t in Next(s, e).controls
    ensures if e.ControlStart? && e.t == t && Enabled(s, e) then Next(s, e).controls[t].frame == e.frame
            else t in s.controls && Next(s, e).controls[t].frame == s.controls[t].frame
  {
  }

  lemma WholeStep(s: State, e: Step)
    requires InHand(s)
    ensures Next(s, e).whole ==
            s.whole + if !Enabled(s, e) then []
                      else if e.DataDone? && s.taken != [] then [s.taken[|s.taken| - 1].item.frame]
                      else if e.ControlDone? then [s.controls[e.t].frame]
                      else []
  {
    assert s.whole + [] == s.whole;
  }

  lemma {:induction false} AlwaysCompleted(es: seq<Step>)
    ensures InHand(Run(es)) && ControlsWanted(es) && Run(es).whole == Completed(es)
  {
    if es != [] {
      var before, e := es[..|es| - 1], es[|es| - 1];
      assert before + [e] == es;
      AlwaysCompleted(before);
      InHandStep(Run(before), e);
      WantedStep(before, e);
      WholeStep(Run(before), e);
    }
  }

  // ---------------------------------------------------------------- promises

  /** In every run: nothing offered is unaccounted for; the queue holds at most 512 and is first in, first out; what
      is dropped is exactly what met a queue of 512 or was over 500 ms old when taken out; all else taken out is
      written, but for the one in flight or lost, so the data frames written are a subsequence of those let in; and
      usage is what they add up to. */
  lemma QueuePromises(es: seq<Step>)
    ensures var s := Run(es);
            && Offers(es) == |s.written| + s.dropped + |s.queue| + |InFlight(s.writer)|
            && |InFlight(s.writer)| <= 1 && |s.queue| <= 512
            && LetIn(es) == Items(TakenOut(es)) + s.queue
            && OnTime(TakenOut(es)) == s.written + InFlight(s.writer)
            && s.dropped == TurnedAway(es) + (|TakenOut(es)| - |OnTime(TakenOut(es))|)
            && Subsequence(s.written, LetIn(es))
            && s.out + (if s.writer.Billing? then s.writer.item.credit else 0) == Credits(s.written)
  {
    Reachable(es);
    AlwaysTold(es);
    var s := Run(es);
    KeptOnTime(s.taken);
    Conservation(s);
    WrittenInOrder(s);
  }

  lemma WrittenInOrder(s: State)
    requires QueueInv(s)
    ensures Subsequence(s.written, s.accepted)
    ensures forall i | 0 <= i < |s.written| :: exists c :: c in s.taken && c.item == s.written[i] && InTime(c)
  {
    KeptInOrder(s.taken);
    var flying := InFlight(s.writer);
    if flying != [] {
      assert flying == [flying[0]];
      SubsequenceInit(s.written, flying[0], Items(s.taken));
    } else {
      assert s.written + [] == s.written;
    }
    SubsequenceOfMore(s.written, Items(s.taken), s.queue);
    forall i | 0 <= i < |s.written| ensures exists c :: c in s.taken && c.item == s.written[i] && InTime(c) {
      assert Kept(s.taken)[i] == s.written[i];
    }
  }

  /** Whoever reads the link, at any moment, reads exactly the frames completed, in order: the data frames as they
      were queued and the control frames as they were wanted; and then at most the one whose last byte is out. Control
      and data frames never interleave. */
  lemma LinkReads(es: seq<Step>)
    ensures var s, done := Run(es), Completed(es);
            var (got, stop) := ReadAll(s.wire);
            && (got == done || (Progress(s).Some? && got == done + [Progress(s).value.0])
                || (s.lost.Some? && got == done + [s.lost.value.0]))
            && !stop.TooLarge?
  {
    Reachable(es);
    AlwaysCompleted(es);
    var s := Run(es);
    var p := if s.lost.Some? then s.lost else Progress(s);
    assert s.wire == Concat(s.whole) + Part(p);
    ReadPart(p);
    ReadWhole(s.whole, Part(p));
  }

  lemma {:induction false} ReadWhole(fs: seq<Frame>, rest: seq<Byte>)
    requires forall i | 0 <= i < |fs| :: Fits(fs[i])
    ensures ReadAll(Concat(fs) + rest) == (fs + ReadAll(rest).0, ReadAll(rest).1)
  {
    if fs == [] {
      assert Concat(fs) + rest == rest;
      assert fs + ReadAll(rest).0 == ReadAll(rest).0;
    } else {
      var f, more := fs[0], fs[1..];
      ReadWhole(more, rest);
      ReadStep(f, Concat(more) + rest, more, ReadAll(rest).0, ReadAll(rest).1);
      Associative(Encode(f).value, Concat(more), rest);
      assert fs == [f] + more;
    }
  }

  lemma ReadStep(f: Frame, tail: seq<Byte>, more: seq<Frame>, last: seq<Frame>, stop: ReadResult)
    requires Fits(f) && ReadAll(tail) == (more + last, stop)
    ensures ReadAll(Encode(f).value + tail) == ([f] + more + last, stop)
  {
    ReadOneMore(f, tail);
    assert [f] + (more + last) == [f] + more + last;
  }

  lemma ReadPart(p: Option<(Frame, nat)>)
    requires Sound(p)
    ensures var (got, stop) := ReadAll(Part(p));
            (got == [] || (p.Some? && got == [p.value.0])) && !stop.TooLarge?
  {
    if p.Some? && p.value.1 > 0 {
      var (f, n) := p.value;
      if n < |Bytes(f)| {
        CutHead(f, n);
      } else {
        assert Part(p) == Encode(f).value + [];
        ReadOneMore(f, []);
      }
    }
  }
}
