/** The preview buffer protocol.

  Gralloc buffers travel between the kernel, the HAL and the display.  The mm-interface
  thread runs the synchronous callback, which skips a frame or hands it to the display; the
  stream thread runs the asynchronous callback, which takes skipped frames back, and returns
  to the kernel the buffers that the display gives up.  The two share one skip flag per
  buffer and the counter mEnqueuedBuffers, and every lock region and every call into the
  display or the kernel is one atomic step here.
*/
module PreviewProtocol {

  // mEnqueuedBuffers is a uint8_t
  const COUNTER_RANGE := 256
  // CAMERA_INITIAL_MAPPABLE_PREVIEW_BUFFERS
  const INITIAL_MAPPABLE := 5

  /** What is fixed while the stream runs: the buffer count, the number of buffers the window
      always keeps, and whether the synchronous callback is registered. */
  datatype Config = Config(count: nat, minUndequeued: nat, syncCb: bool)

  /** Program counter of the mm-interface thread, which handles one frame at a time. */
  datatype SyncThread =
    | SyncIdle
    | Received(b: nat)   // in synchronous_stream_cb_routine, nothing decided
    | Enqueued(b: nat)   // given to the display, counter not updated yet
    | Leaving(b: nat)    // callback over, frame about to be queued for the stream thread

  /** Program counter of the stream thread in preview_stream_cb_routine. */
  datatype AsyncThread =
    | AsyncIdle
    | Taken(b: nat)      // frame taken from the queue, nothing decided
    | Discarding(b: nat) // discardFrame is set, bufDone is due
    | Showing(b: nat)    // no synchronous callback: enqueueBuffer is due
    | Shown(b: nat)      // enqueued, counter not updated yet
    | Reading            // dequeueCnt is about to be read
    | Looping(i: nat, bound: nat, numMapped: nat)
    | Dequeued(i: nat, bound: nat, numMapped: nat, d: nat) // counter not updated yet
    | Counted(i: nat, bound: nat, numMapped: nat, d: nat)  // mapping a new buffer is due
    | Mapped(i: nat, bound: nat, d: nat)                   // bufDone is due

  datatype State = State(
    kernel: set<nat>,
    display: set<nat>,
    skipped: set<nat>,        // buffers with STATUS_SKIPPED
    enqueued: nat,            // mEnqueuedBuffers
    pending: seq<nat>,        // frames queued for the stream thread
    sync: SyncThread,
    async: AsyncThread,
    mappable: nat,            // mMappableBuffers
    mapped: set<nat>,         // buffers the backend has mapped
    delivered: multiset<nat>, // frames the kernel handed out so far
    returned: multiset<nat>)  // bufDone calls so far

  datatype Action =
    | Deliver(b: nat)
    | SyncSkip
    | SyncEnqueue
    | SyncCount
    | SyncLeave
    | AsyncTake
    | AsyncCheck(need: bool)
    | AsyncDiscard
    | AsyncShow
    | AsyncCount
    | AsyncRead
    | AsyncDequeue(d: nat)
    | AsyncDequeueFail
    | AsyncUncount
    | AsyncMap
    | AsyncReturn
    | AsyncFinish

  function Min(a: nat, b: nat): nat { if a < b then a else b }

  function Range(lo: nat, hi: nat): (r: set<nat>)
    ensures forall i: nat :: i in r <==> lo <= i < hi
    ensures lo <= hi ==> |r| == hi - lo
    decreases hi - lo
  {
    if lo >= hi then {} else Range(lo, hi - 1) + {hi - 1}
  }

  /** A buffer count is a uint8_t, and the window keeps only buffers it was given back. */
  predicate ValidConfig(c: Config) {
    1 <= c.count <= 255 && c.minUndequeued <= Min(c.count, INITIAL_MAPPABLE)
  }

  /** Buffers the window owns before the first frame: those cancelled back to it and those not
      dequeued from it yet. */
  predicate StartsOnDisplay(c: Config, b: nat) {
    b < c.minUndequeued || Min(c.count, INITIAL_MAPPABLE) <= b < c.count
  }

  function InitialDisplay(c: Config): set<nat> {
    Range(0, c.minUndequeued) + Range(Min(c.count, INITIAL_MAPPABLE), c.count)
  }

  function Initial(c: Config): State {
    State(
      Range(c.minUndequeued, Min(c.count, INITIAL_MAPPABLE)),
      InitialDisplay(c),
      {},
      if c.count > INITIAL_MAPPABLE then c.count - INITIAL_MAPPABLE else 0,
      [], SyncIdle, AsyncIdle,
      Min(c.count, INITIAL_MAPPABLE),
      Range(0, Min(c.count, INITIAL_MAPPABLE)),
      multiset{}, multiset{})
  }

  /** When a step can happen.  A buffer is delivered only out of the kernel; dequeueBuffer finds
      a displayed buffer it knows, or places an unknown one at the next free index. */
  predicate Enabled(c: Config, s: State, a: Action) {
    match a
    case Deliver(b) => s.sync.SyncIdle? && b in s.kernel
    case SyncSkip => s.sync.Received?
    case SyncEnqueue => s.sync.Received?
    case SyncCount => s.sync.Enqueued?
    case SyncLeave => s.sync.Leaving?
    case AsyncTake => s.async.AsyncIdle? && s.pending != []
    case AsyncCheck(_) => s.async.Taken?
    case AsyncDiscard => s.async.Discarding?
    case AsyncShow => s.async.Showing?
    case AsyncCount => s.async.Shown?
    case AsyncRead => s.async.Reading?
    case AsyncDequeue(d) =>
      s.async.Looping? && s.async.i < s.async.bound && d in s.display && d <= s.mappable && d < c.count
    case AsyncDequeueFail => s.async.Looping? && s.async.i < s.async.bound
    case AsyncUncount => s.async.Dequeued?
    case AsyncMap => s.async.Counted?
    case AsyncReturn => s.async.Mapped?
    case AsyncFinish => s.async.Looping? && s.async.i >= s.async.bound
  }

  function Increment(n: nat): nat { (n + 1) % COUNTER_RANGE }

  function Decrement(n: nat): nat { (n + COUNTER_RANGE - 1) % COUNTER_RANGE }

  /** bufDone: the buffer goes back to the kernel. */
  function BufDone(s: State, b: nat): State {
    s.(kernel := s.kernel + {b}, returned := s.returned + multiset{b})
  }

  function Apply(c: Config, s: State, a: Action): State
    requires Enabled(c, s, a)
  {
    match a
    case Deliver(b) =>
      s.(kernel := s.kernel - {b}, delivered := s.delivered + multiset{b},
         sync := if c.syncCb then Received(b) else Leaving(b))
    case SyncSkip => s.(skipped := s.skipped + {s.sync.b}, sync := Leaving(s.sync.b))
    case SyncEnqueue => s.(display := s.display + {s.sync.b}, sync := Enqueued(s.sync.b))
    case SyncCount => s.(enqueued := Increment(s.enqueued), sync := Leaving(s.sync.b))
    case SyncLeave => s.(pending := s.pending + [s.sync.b], sync := SyncIdle)
    case AsyncTake => s.(pending := s.pending[1..], async := Taken(s.pending[0]))
    case AsyncCheck(need) =>
      var b := s.async.b;
      if c.syncCb then
        if b in s.skipped then s.(skipped := s.skipped - {b}, async := Discarding(b)) else s.(async := Reading)
      else
        s.(async := if need then Showing(b) else Discarding(b))
    case AsyncDiscard => BufDone(s, s.async.b).(async := Reading)
    case AsyncShow => s.(display := s.display + {s.async.b}, async := Shown(s.async.b))
    case AsyncCount =>
      s.(enqueued := Increment(s.enqueued), async := Looping(0, Increment(s.enqueued), s.mappable))
    case AsyncRead => s.(async := Looping(0, s.enqueued, s.mappable))
    case AsyncDequeue(d) =>
      s.(display := s.display - {d}, mappable := if d == s.mappable then s.mappable + 1 else s.mappable,
         async := Dequeued(s.async.i, s.async.bound, s.async.numMapped, d))
    case AsyncDequeueFail => s.(async := AsyncIdle)
    case AsyncUncount =>
      s.(enqueued := Decrement(s.enqueued),
         async := Counted(s.async.i, s.async.bound, s.async.numMapped, s.async.d))
    case AsyncMap =>
      s.(mapped := if s.async.d >= s.async.numMapped then s.mapped + {s.async.d} else s.mapped,
         async := Mapped(s.async.i, s.async.bound, s.async.d))
    case AsyncReturn => BufDone(s, s.async.d).(async := Looping(s.async.i + 1, s.async.bound, s.mappable))
    case AsyncFinish => s.(async := AsyncIdle)
  }

  ghost predicate Step(c: Config, s: State, t: State) {
    exists a :: Enabled(c, s, a) && t == Apply(c, s, a)
  }

  ghost predicate Linked(c: Config, r: seq<State>, i: nat)
    requires i + 1 < |r|
  {
    Step(c, r[i], r[i + 1])
  }

  /** A run: any interleaving of the steps of the two threads, the kernel and the display. */
  ghost predicate IsRun(c: Config, r: seq<State>) {
    && |r| > 0
    && r[0] == Initial(c)
    && forall i: nat :: i + 1 < |r| ==> Linked(c, r, i)
  }

  // ---------- who has a buffer ----------

  function Bit(p: bool): nat { if p then 1 else 0 }

  /** The synchronous callback holds a frame until it skips it or enqueues it.  Without that
      callback the frame is on its way to the stream thread. */
  predicate SyncHolds(c: Config, s: State, b: nat) {
    s.sync == Received(b) || (!c.syncCb && s.sync == Leaving(b))
  }

  predicate AsyncHolds(c: Config, s: State, b: nat) {
    match s.async
    case Taken(x) => !c.syncCb && x == b
    case Discarding(x) => x == b
    case Showing(x) => x == b
    case Dequeued(_, _, _, d) => d == b
    case Counted(_, _, _, d) => d == b
    case Mapped(_, _, d) => d == b
    case _ => false
  }

  /** How many holds the HAL has on a buffer, read off its flags, its queue and the program
      counters of its threads. */
  function HalHolds(c: Config, s: State, b: nat): nat {
    Bit(b in s.skipped) + Bit(SyncHolds(c, s, b)) + Bit(AsyncHolds(c, s, b)) +
    (if c.syncCb then 0 else multiset(s.pending)[b])
  }

  function Holders(c: Config, s: State, b: nat): nat {
    Bit(b in s.kernel) + Bit(b in s.display) + HalHolds(c, s, b)
  }

  // ---------- the invariant ----------

  predicate Fresh(s: State, d: nat) {
    (s.async.Dequeued? || s.async.Counted?) && s.async.d == d && d >= s.async.numMapped
  }

  ghost predicate InRange(c: Config, s: State) {
    && (forall b :: b in s.kernel ==> b < c.count)
    && (forall b :: b in s.display ==> b < c.count)
    && (forall b :: b in s.skipped ==> b < c.count)
    && (forall i :: 0 <= i < |s.pending| ==> s.pending[i] < c.count)
    && (!s.sync.SyncIdle? ==> s.sync.b < c.count)
    && (s.async.Taken? || s.async.Discarding? || s.async.Showing? || s.async.Shown? ==> s.async.b < c.count)
    && (s.async.Dequeued? || s.async.Counted? || s.async.Mapped? ==> s.async.d < c.count)
    && s.mappable <= c.count
    && (c.syncCb ==> !s.async.Showing? && !s.async.Shown?)
    && (!c.syncCb ==> s.skipped == {} && !s.sync.Received? && !s.sync.Enqueued?)
  }

  ghost predicate OneHolder(c: Config, s: State) {
    forall b: nat :: b < c.count ==> Holders(c, s, b) == 1
  }

  /** mEnqueuedBuffers counts the buffers on display that the window can give back, except for
      enqueues and dequeues whose update is still due. */
  ghost predicate CounterExact(c: Config, s: State) {
    s.enqueued + c.minUndequeued + Bit(s.sync.Enqueued?) + Bit(s.async.Shown?)
    == |s.display| + Bit(s.async.Dequeued?)
  }

  /** The loop bound is a stale copy of the counter, yet it never exceeds what is left of it. */
  ghost predicate BoundCovered(s: State) {
    match s.async
    case Looping(i, bound, _) => i <= bound <= s.enqueued + i
    case Dequeued(i, bound, _, _) => i < bound <= s.enqueued + i
    case Counted(i, bound, _, _) => i < bound <= s.enqueued + i + 1
    case Mapped(i, bound, _) => i < bound <= s.enqueued + i + 1
    case _ => true
  }

  /** A skip flag that is set will still be looked at. */
  ghost predicate SkipsAwaited(c: Config, s: State) {
    forall b :: b in s.skipped ==> b in s.pending || s.async == Taken(b) || s.sync == Leaving(b)
  }

  ghost predicate MappedInOrder(c: Config, s: State) {
    && (forall b :: s.mappable <= b < c.count ==> b in s.display)
    && (forall b: nat :: b in s.mapped <==> b < s.mappable && !Fresh(s, b))
    && (s.async.Looping? ==> s.async.numMapped == s.mappable)
    && (s.async.Dequeued? || s.async.Counted? ==>
          && (s.async.d < s.async.numMapped ==> s.mappable == s.async.numMapped)
          && (s.async.d >= s.async.numMapped ==> s.async.d == s.async.numMapped == s.mappable - 1))
  }

  ghost predicate DeliveriesMatched(c: Config, s: State) {
    forall b: nat :: b < c.count ==>
      s.delivered[b] + Bit(StartsOnDisplay(c, b)) == s.returned[b] + (1 - Bit(b in s.kernel))
  }

  ghost predicate Inv(c: Config, s: State) {
    && InRange(c, s)
    && OneHolder(c, s)
    && CounterExact(c, s)
    && BoundCovered(s)
    && SkipsAwaited(c, s)
    && MappedInOrder(c, s)
    && DeliveriesMatched(c, s)
  }

  lemma SubsetSize(a: set<nat>, b: set<nat>)
    requires a <= b
    ensures |a| <= |b|
  {
    assert b == a + (b - a);
  }

  lemma InitialDisplaySize(c: Config)
    requires ValidConfig(c)
    ensures |InitialDisplay(c)| == c.minUndequeued + (c.count - Min(c.count, INITIAL_MAPPABLE))
  {
    assert Range(0, c.minUndequeued) !! Range(Min(c.count, INITIAL_MAPPABLE), c.count);
  }

  /** A state in which every buffer starts where the configuration puts it and nothing happened. */
  ghost predicate Untouched(c: Config, s: State) {
    && (forall b: nat :: b in s.kernel <==> b < c.count && !StartsOnDisplay(c, b))
    && (forall b: nat :: b in s.display <==> StartsOnDisplay(c, b))
    && (forall b: nat :: b in s.mapped <==> b < s.mappable)
    && s.mappable == Min(c.count, INITIAL_MAPPABLE)
    && s.skipped == {} && s.pending == [] && s.sync == SyncIdle && s.async == AsyncIdle
    && s.delivered == multiset{} && s.returned == multiset{}
  }

  lemma UntouchedInv(c: Config, s: State)
    requires ValidConfig(c) && Untouched(c, s) && CounterExact(c, s)
    ensures Inv(c, s)
  {
    forall b: nat | b < c.count ensures Holders(c, s, b) == 1 {
    }
  }

  lemma InitialUntouched(c: Config)
    requires ValidConfig(c)
    ensures Untouched(c, Initial(c))
  {
    var s, m := Initial(c), Min(c.count, INITIAL_MAPPABLE);
    var cancelled, unknown := Range(0, c.minUndequeued), Range(m, c.count);
    assert s.display == cancelled + unknown;
    assert forall b: nat :: b in s.display <==> b in cancelled || b in unknown;
    assert forall b: nat :: b in s.display <==> StartsOnDisplay(c, b);
  }

  /** At the start the display has what the window keeps and the buffers past the first five, the
      counter those past the first five, and the kernel all others. */
  lemma InitialFields(c: Config)
    requires ValidConfig(c)
    ensures var s := Initial(c);
            && s.enqueued == (if c.count > 5 then c.count - 5 else 0)
            && s.mappable == (if c.count < 5 then c.count else 5)
            && s.skipped == {} && s.pending == [] && s.sync.SyncIdle? && s.async.AsyncIdle?
    ensures forall b: nat :: b in Initial(c).mapped <==> b < c.count && b < 5
    ensures forall b: nat :: b in Initial(c).display <==> b < c.minUndequeued || 5 <= b < c.count
    ensures forall b: nat :: b in Initial(c).kernel <==> c.minUndequeued <= b < c.count && b < 5
  {
    InitialUntouched(c);
    hide InitialDisplay;
  }

  lemma InitialCounter(c: Config)
    requires ValidConfig(c)
    ensures CounterExact(c, Initial(c))
  {
    InitialDisplaySize(c);
  }

  lemma InitialInv(c: Config)
    requires ValidConfig(c)
    ensures Inv(c, Initial(c))
  {
    InitialUntouched(c);
    InitialCounter(c);
    UntouchedInv(c, Initial(c));
  }

  lemma DisplaySize(c: Config, s: State)
    requires InRange(c, s) && OneHolder(c, s)
    ensures |s.display| + Bit(s.async.Dequeued?) <= c.count
  {
    var all := Range(0, c.count);
    if s.async.Dequeued? {
      assert Holders(c, s, s.async.d) == 1;
      SubsetSize(s.display + {s.async.d}, all);
    } else {
      SubsetSize(s.display, all);
    }
  }

  /** The counter is at most the number of buffers, so the uint8_t neither wraps up on an
      increment nor down on a decrement. */
  lemma CounterFits(c: Config, s: State)
    requires ValidConfig(c) && InRange(c, s) && OneHolder(c, s) && CounterExact(c, s) && BoundCovered(s)
    ensures s.enqueued <= c.count
    ensures s.sync.Enqueued? || s.async.Shown? ==> Increment(s.enqueued) == s.enqueued + 1
    ensures s.async.Dequeued? ==> Decrement(s.enqueued) == s.enqueued - 1
  {
    DisplaySize(c, s);
  }

  lemma StepKeepsRange(c: Config, s: State, a: Action)
    requires InRange(c, s) && Enabled(c, s, a)
    ensures InRange(c, Apply(c, s, a))
  {
  }

  lemma TakeFirst(q: seq<nat>, b: nat)
    requires q != []
    ensures multiset(q)[b] == Bit(q[0] == b) + multiset(q[1..])[b]
  {
    assert q == [q[0]] + q[1..];
  }

  predicate OfSyncThread(a: Action) {
    a.Deliver? || a.SyncSkip? || a.SyncEnqueue? || a.SyncCount? || a.SyncLeave?
  }

  lemma SyncKeepsOneHolder(c: Config, s: State, a: Action, b: nat)
    requires InRange(c, s) && Enabled(c, s, a) && OfSyncThread(a)
    requires Holders(c, s, b) == 1
    ensures Holders(c, Apply(c, s, a), b) == 1
  {
    match a
    case Deliver(x) =>
    case SyncSkip =>
    case SyncEnqueue =>
    case SyncCount =>
    case SyncLeave =>
  }

  predicate OfDequeueLoop(a: Action) {
    a.AsyncDequeue? || a.AsyncDequeueFail? || a.AsyncUncount? || a.AsyncMap? || a.AsyncReturn? || a.AsyncFinish?
  }

  lemma AsyncKeepsOneHolder(c: Config, s: State, a: Action, b: nat)
    requires InRange(c, s) && Enabled(c, s, a) && !OfSyncThread(a) && !OfDequeueLoop(a)
    requires Holders(c, s, b) == 1
    ensures Holders(c, Apply(c, s, a), b) == 1
  {
    match a
    case AsyncTake => TakeFirst(s.pending, b);
    case AsyncCheck(_) =>
    case AsyncDiscard =>
    case AsyncShow =>
    case AsyncCount =>
    case AsyncRead =>
  }

  lemma LoopKeepsOneHolder(c: Config, s: State, a: Action, b: nat)
    requires InRange(c, s) && Enabled(c, s, a) && OfDequeueLoop(a)
    requires Holders(c, s, b) == 1
    ensures Holders(c, Apply(c, s, a), b) == 1
  {
    match a
    case AsyncDequeue(d) =>
    case AsyncDequeueFail =>
    case AsyncUncount =>
    case AsyncMap =>
    case AsyncReturn =>
    case AsyncFinish =>
  }

  lemma StepKeepsHolder(c: Config, s: State, a: Action)
    requires InRange(c, s) && OneHolder(c, s) && Enabled(c, s, a)
    ensures OneHolder(c, Apply(c, s, a))
  {
    var t := Apply(c, s, a);
    forall b: nat | b < c.count ensures Holders(c, t, b) == 1 {
      if OfSyncThread(a) {
        SyncKeepsOneHolder(c, s, a, b);
      } else if OfDequeueLoop(a) {
        LoopKeepsOneHolder(c, s, a, b);
      } else {
        AsyncKeepsOneHolder(c, s, a, b);
      }
    }
  }

  /** What the counting argument needs of a state. */
  ghost predicate Counts(c: Config, s: State) {
    ValidConfig(c) && InRange(c, s) && OneHolder(c, s) && CounterExact(c, s) && BoundCovered(s)
  }

  lemma SyncKeepsCounter(c: Config, s: State, a: Action)
    requires Counts(c, s) && Enabled(c, s, a) && OfSyncThread(a)
    ensures CounterExact(c, Apply(c, s, a)) && BoundCovered(Apply(c, s, a))
  {
    CounterFits(c, s);
    if a.SyncEnqueue? {
      assert Holders(c, s, s.sync.b) == 1;
    }
  }

  lemma AsyncKeepsCounter(c: Config, s: State, a: Action)
    requires Counts(c, s) && Enabled(c, s, a) && !OfSyncThread(a) && !OfDequeueLoop(a)
    ensures CounterExact(c, Apply(c, s, a)) && BoundCovered(Apply(c, s, a))
  {
    CounterFits(c, s);
    if a.AsyncShow? {
      assert Holders(c, s, s.async.b) == 1;
    }
  }

  lemma LoopKeepsCounter(c: Config, s: State, a: Action)
    requires Counts(c, s) && Enabled(c, s, a) && OfDequeueLoop(a)
    ensures CounterExact(c, Apply(c, s, a)) && BoundCovered(Apply(c, s, a))
  {
    CounterFits(c, s);
  }

  lemma StepKeepsCounter(c: Config, s: State, a: Action)
    requires Counts(c, s) && Enabled(c, s, a)
    ensures CounterExact(c, Apply(c, s, a)) && BoundCovered(Apply(c, s, a))
  {
    hide Counts, CounterExact, BoundCovered, Apply;
    if OfSyncThread(a) {
      SyncKeepsCounter(c, s, a);
    } else if OfDequeueLoop(a) {
      LoopKeepsCounter(c, s, a);
    } else {
      AsyncKeepsCounter(c, s, a);
    }
  }

  lemma StepKeepsSkips(c: Config, s: State, a: Action)
    requires InRange(c, s) && SkipsAwaited(c, s) && Enabled(c, s, a)
    ensures SkipsAwaited(c, Apply(c, s, a))
  {
    var t := Apply(c, s, a);
    forall b | b in t.skipped ensures b in t.pending || t.async == Taken(b) || t.sync == Leaving(b) {
      if a.AsyncTake? {
        assert s.pending == [s.pending[0]] + s.pending[1..];
      }
    }
  }

  lemma StepKeepsMapping(c: Config, s: State, a: Action)
    requires InRange(c, s) && OneHolder(c, s) && MappedInOrder(c, s) && Enabled(c, s, a)
    ensures MappedInOrder(c, Apply(c, s, a))
  {
    if a.AsyncDequeue? {
    }
  }

  lemma StepKeepsDeliveries(c: Config, s: State, a: Action)
    requires InRange(c, s) && OneHolder(c, s) && DeliveriesMatched(c, s) && Enabled(c, s, a)
    ensures DeliveriesMatched(c, Apply(c, s, a))
  {
    var t := Apply(c, s, a);
    forall b: nat | b < c.count
      ensures t.delivered[b] + Bit(StartsOnDisplay(c, b)) == t.returned[b] + (1 - Bit(b in t.kernel))
    {
      assert Holders(c, s, b) == 1;
    }
  }

  lemma StepKeepsInv(c: Config, s: State, t: State)
    requires ValidConfig(c) && Inv(c, s) && Step(c, s, t)
    ensures Inv(c, t)
  {
    var a :| Enabled(c, s, a) && t == Apply(c, s, a);
    StepKeepsRange(c, s, a);
    StepKeepsHolder(c, s, a);
    StepKeepsCounter(c, s, a);
    StepKeepsSkips(c, s, a);
    StepKeepsMapping(c, s, a);
    StepKeepsDeliveries(c, s, a);
  }

  lemma RunStarts(c: Config, r: seq<State>)
    requires IsRun(c, r)
    ensures r[0] == Initial(c)
  {
  }

  lemma RunSteps(c: Config, r: seq<State>, k: nat)
    requires IsRun(c, r) && k + 1 < |r|
    ensures Step(c, r[k], r[k + 1])
  {
    hide Step;
    assert Linked(c, r, k);
  }

  lemma {:induction false} RunKeepsInv(c: Config, r: seq<State>, k: nat)
    requires ValidConfig(c) && IsRun(c, r) && k < |r|
    ensures Inv(c, r[k])
  {
    hide IsRun, Inv, Step, Initial;
    if k == 0 {
      RunStarts(c, r);
      InitialInv(c);
    } else {
      RunKeepsInv(c, r, k - 1);
      RunSteps(c, r, k - 1);
      StepKeepsInv(c, r[k - 1], r[k]);
    }
  }

  // ---------- what every run guarantees ----------

  /** Each buffer is with exactly one of the kernel, the display and the HAL, and the HAL never
      holds it twice. */
  lemma EveryBufferHasOneHolder(c: Config, r: seq<State>, k: nat, b: nat)
    requires ValidConfig(c) && IsRun(c, r) && k < |r| && b < c.count
    ensures b in r[k].kernel ==> b !in r[k].display && HalHolds(c, r[k], b) == 0
    ensures b in r[k].display ==> b !in r[k].kernel && HalHolds(c, r[k], b) == 0
    ensures b !in r[k].kernel && b !in r[k].display ==> HalHolds(c, r[k], b) == 1
  {
    RunKeepsInv(c, r, k);
    assert Holders(c, r[k], b) == 1;
  }

  /** Every frame the kernel delivered was given back by exactly one bufDone, except the one
      delivery still outstanding while the buffer is out of the kernel.  A buffer that starts on
      the display has one bufDone more, the one that first gave it to the kernel. */
  lemma EveryDeliveryReturnedOnce(c: Config, r: seq<State>, k: nat, b: nat)
    requires ValidConfig(c) && IsRun(c, r) && k < |r| && b < c.count
    ensures !StartsOnDisplay(c, b) ==>
              r[k].delivered[b] == r[k].returned[b] + (if b in r[k].kernel then 0 else 1)
    ensures StartsOnDisplay(c, b) ==>
              r[k].returned[b] == r[k].delivered[b] + (if b in r[k].kernel then 1 else 0)
  {
    RunKeepsInv(c, r, k);
  }

  /** mEnqueuedBuffers is the number of buffers on display above the window's own reserve, less
      the enqueues and plus the dequeues that are not counted yet. */
  lemma CounterTracksDisplay(c: Config, r: seq<State>, k: nat)
    requires ValidConfig(c) && IsRun(c, r) && k < |r|
    ensures r[k].enqueued + c.minUndequeued
            == |r[k].display| - Bit(r[k].sync.Enqueued?) - Bit(r[k].async.Shown?) + Bit(r[k].async.Dequeued?)
  {
    RunKeepsInv(c, r, k);
  }

  /** In any state of a run the counter is the number of buffers on display, but for the updates that
      are due, if and only if the window keeps no reserve. */
  lemma CounterIsDisplayIff(c: Config, r: seq<State>, k: nat)
    requires ValidConfig(c) && IsRun(c, r) && k < |r|
    ensures r[k].enqueued == |r[k].display| - Bit(r[k].sync.Enqueued?) - Bit(r[k].async.Shown?) + Bit(r[k].async.Dequeued?)
            <==> c.minUndequeued == 0
  {
    CounterTracksDisplay(c, r, k);
  }

  /** With a reserve the counter is wrong from the start. */
  lemma ReserveIsNotCounted(c: Config)
    requires ValidConfig(c) && c.minUndequeued > 0
    ensures IsRun(c, [Initial(c)]) && Initial(c).enqueued != |Initial(c).display|
  {
    InitialCounter(c);
  }

  lemma CounterStep(c: Config, s: State, t: State)
    requires ValidConfig(c) && InRange(c, s) && OneHolder(c, s) && CounterExact(c, s) && BoundCovered(s)
    requires Step(c, s, t)
    ensures -1 <= t.enqueued - s.enqueued <= 1
    ensures t.enqueued == s.enqueued - 1 ==> s.enqueued > 0 && s.async.Dequeued?
  {
    CounterFits(c, s);
  }

  /** The 8-bit counter never wraps: each step leaves it, adds one or takes one away. */
  lemma CounterNeverWraps(c: Config, r: seq<State>, k: nat)
    requires ValidConfig(c) && IsRun(c, r) && k + 1 < |r|
    ensures -1 <= r[k + 1].enqueued - r[k].enqueued <= 1
    ensures r[k + 1].enqueued == r[k].enqueued - 1 ==> r[k].enqueued > 0 && r[k].async.Dequeued?
  {
    RunKeepsInv(c, r, k);
    assert Linked(c, r, k);
    CounterStep(c, r[k], r[k + 1]);
  }

  /** A buffer the kernel may fill has been mapped in the backend. */
  lemma KernelBuffersAreMapped(c: Config, r: seq<State>, k: nat)
    requires ValidConfig(c) && IsRun(c, r) && k < |r|
    ensures r[k].kernel <= r[k].mapped
  {
    RunKeepsInv(c, r, k);
    var s := r[k];
    forall b | b in s.kernel ensures b in s.mapped {
      assert Holders(c, s, b) == 1;
    }
  }

  /** When bufDone is due for a dequeued buffer, the backend has mapped it. */
  lemma MappedBeforeReturn(c: Config, r: seq<State>, k: nat)
    requires ValidConfig(c) && IsRun(c, r) && k < |r| && r[k].async.Mapped?
    ensures r[k].async.d in r[k].mapped
  {
    RunKeepsInv(c, r, k);
    assert Holders(c, r[k], r[k].async.d) == 1;
  }

  /** When both threads are idle and no frame is queued, no buffer is stuck in the HAL. */
  lemma NothingStranded(c: Config, r: seq<State>, k: nat)
    requires ValidConfig(c) && IsRun(c, r) && k < |r|
    requires r[k].sync.SyncIdle? && r[k].async.AsyncIdle? && r[k].pending == []
    ensures r[k].skipped == {}
    ensures forall b: nat :: b < c.count ==> b in r[k].kernel || b in r[k].display
  {
    RunKeepsInv(c, r, k);
    IdleHoldsNothing(c, r[k]);
  }

  lemma IdleHoldsNothing(c: Config, s: State)
    requires OneHolder(c, s) && SkipsAwaited(c, s)
    requires s.sync.SyncIdle? && s.async.AsyncIdle? && s.pending == []
    ensures s.skipped == {}
    ensures forall b: nat :: b < c.count ==> b in s.kernel || b in s.display
  {
    assert s.skipped == {};
    forall b: nat | b < c.count ensures b in s.kernel || b in s.display {
      assert Holders(c, s, b) == 1;
    }
  }

  /** A run written down step by step. */
  ghost predicate Recorded(c: Config, r: seq<State>) {
    |r| > 0 && if |r| == 1 then r[0] == Initial(c) else Recorded(c, r[..|r| - 1]) && Step(c, r[|r| - 2], r[|r| - 1])
  }

  lemma {:induction false} RecordedIsRun(c: Config, r: seq<State>)
    requires Recorded(c, r)
    ensures IsRun(c, r)
  {
    hide Step, Initial;
    if |r| > 1 {
      RecordedIsRun(c, r[..|r| - 1]);
      RunSnoc(c, r[..|r| - 1], r[|r| - 1]);
      assert r == r[..|r| - 1] + [r[|r| - 1]];
    }
  }

  lemma RunSnoc(c: Config, r: seq<State>, t: State)
    requires IsRun(c, r) && Step(c, r[|r| - 1], t)
    ensures IsRun(c, r + [t])
  {
    hide Step, Initial;
    forall i: nat | i + 1 < |r + [t]|
      ensures Linked(c, r + [t], i)
    {
      assert i + 1 < |r| ==> Linked(c, r, i);
    }
  }

  /** Step k of r is this action, taken by the stream thread from this point. */
  ghost predicate StepAt(c: Config, r: seq<State>, k: nat, from: AsyncThread, a: Action)
    requires k + 1 < |r|
  {
    r[k].async == from && Enabled(c, r[k], a) && r[k + 1] == Apply(c, r[k], a)
  }

  /** Some step from the given place on is this action. */
  ghost predicate Happened(c: Config, r: seq<State>, start: nat, from: AsyncThread, a: Action) {
    exists k: nat :: start <= k + 1 < |r| && StepAt(c, r, k, from, a)
  }

  ghost predicate LastStep(c: Config, r: seq<State>, from: AsyncThread, a: Action) {
    |r| >= 2 && StepAt(c, r, |r| - 2, from, a)
  }

  lemma HappenedStays(c: Config, r: seq<State>, t: seq<State>, start: nat, from: AsyncThread, a: Action)
    requires Happened(c, r, start, from, a) && r <= t
    ensures Happened(c, t, start, from, a)
  {
    var k: nat :| start <= k + 1 < |r| && StepAt(c, r, k, from, a);
    hide Enabled, Apply;
    assert r[k] == t[k] && r[k + 1] == t[k + 1];
    assert StepAt(c, t, k, from, a);
  }

  lemma HappenedEarlier(c: Config, r: seq<State>, start: nat, later: nat, from: AsyncThread, a: Action)
    requires Happened(c, r, later, from, a) && start <= later
    ensures Happened(c, r, start, from, a)
  {
  }

  lemma FailEnabled(c: Config, s: State, i: nat, bound: nat, numMapped: nat)
    requires s.async == Looping(i, bound, numMapped) && i < bound
    ensures Enabled(c, s, AsyncDequeueFail)
  {
  }

  lemma FinishEnabled(c: Config, s: State, bound: nat, numMapped: nat)
    requires s.async == Looping(bound, bound, numMapped)
    ensures Enabled(c, s, AsyncFinish)
  {
  }

  lemma LastHappened(c: Config, r: seq<State>, s: State, t: State, from: AsyncThread, a: Action)
    requires |r| > 0 && r[|r| - 1] == s && s.async == from && Enabled(c, s, a) && t == Apply(c, s, a)
    ensures LastStep(c, r + [t], from, a) && Happened(c, r + [t], |r|, from, a)
  {
    hide Enabled, Apply;
    assert StepAt(c, r + [t], |r| - 1, from, a);
  }

  /** The 8-bit counter has room for the enqueue and something left for the dequeue that is due. */
  lemma CounterMoves(c: Config, s: State)
    requires ValidConfig(c) && Inv(c, s)
    ensures s.sync.Enqueued? || s.async.Shown? ==> Increment(s.enqueued) == s.enqueued + 1
    ensures s.async.Dequeued? ==> s.enqueued > 0 && Decrement(s.enqueued) == s.enqueued - 1
  {
    CounterFits(c, s);
  }

  lemma RecordStep(c: Config, r: seq<State>, a: Action)
    requires ValidConfig(c) && Recorded(c, r) && Enabled(c, r[|r| - 1], a)
    ensures var t := r + [Apply(c, r[|r| - 1], a)];
            Recorded(c, t) && Inv(c, t[|t| - 1])
  {
    var t := r + [Apply(c, r[|r| - 1], a)];
    assert Step(c, r[|r| - 1], t[|t| - 1]);
    hide Apply, Enabled, Inv, Step;
    assert t[..|t| - 1] == r;
    RecordedIsRun(c, t);
    hide IsRun;
    RunKeepsInv(c, t, |t| - 1);
  }

  /** The two callbacks as they are written, over the shared fields.  Each region is one step of
      the machine above, and all that ever happened to the object is a run of it. */
  class PreviewHal {
    const c: Config
    var mEnqueuedBuffers: nat
    var mMappableBuffers: nat
    var skipped: set<nat>
    var kernel: set<nat>
    var display: set<nat>
    var pending: seq<nat>
    var mapped: set<nat>
    ghost var delivered: multiset<nat>
    ghost var returned: multiset<nat>
    var sync: SyncThread
    ghost var async: AsyncThread
    ghost var trace: seq<State>

    ghost function View(): State
      reads this
    {
      State(kernel, display, skipped, mEnqueuedBuffers, pending, sync, async,
            mMappableBuffers, mapped, delivered, returned)
    }

    ghost predicate Valid()
      reads this
    {
      ValidConfig(c) && |trace| > 0 && Recorded(c, trace) && trace[|trace| - 1] == View() && Inv(c, View())
    }

    /** A region has just taken this step. */
    ghost method Record(before: State, a: Action)
      requires ValidConfig(c) && Recorded(c, trace) && trace[|trace| - 1] == before
      requires Enabled(c, before, a) && View() == Apply(c, before, a)
      modifies this`trace
      ensures Valid() && trace == old(trace) + [View()]
    {
      hide Recorded, Apply, Inv, Enabled;
      RecordStep(c, trace, a);
      trace := trace + [View()];
    }

    constructor (config: Config)
      requires ValidConfig(config)
      ensures Valid() && c == config && View() == Initial(config) && trace == [View()]
      ensures mEnqueuedBuffers == (if c.count > 5 then c.count - 5 else 0) && skipped == {} && pending == []
      ensures mMappableBuffers == (if c.count < 5 then c.count else 5) && sync.SyncIdle? && async.AsyncIdle?
      ensures forall b: nat :: b in mapped <==> b < c.count && b < 5
      ensures forall b: nat :: b in display <==> b < c.minUndequeued || 5 <= b < c.count
      ensures forall b: nat :: b in kernel <==> c.minUndequeued <= b < c.count && b < 5
    {
      c := config;
      var s := Initial(config);
      InitialInv(config);
      InitialFields(config);
      hide Inv, Initial;
      mEnqueuedBuffers, mMappableBuffers, skipped := s.enqueued, s.mappable, s.skipped;
      kernel, display, pending, mapped := s.kernel, s.display, s.pending, s.mapped;
      delivered, returned := s.delivered, s.returned;
      sync, async := s.sync, s.async;
      trace := [s];
      new;
      assert View() == s;
    }

    // ----- synchronous_stream_cb_routine, region by region -----

    method FrameArrives(b: nat)
      requires Valid() && sync.SyncIdle? && b in kernel
      modifies this`kernel, this`sync, this`delivered, this`trace
      ensures Valid() && View() == Apply(c, old(View()), Deliver(b))
      ensures kernel == old(kernel) - {b} && sync == if c.syncCb then Received(b) else Leaving(b)
      ensures trace == old(trace) + [View()]
    {
      hide Recorded, Inv;
      kernel, delivered := kernel - {b}, delivered + multiset{b};
      sync := if c.syncCb then Received(b) else Leaving(b);
      Record(old(View()), Deliver(b));
    }

    method SkipFrame()
      requires Valid() && sync.Received?
      modifies this`skipped, this`sync, this`trace
      ensures Valid() && View() == Apply(c, old(View()), SyncSkip)
      ensures skipped == old(skipped) + {old(sync).b} && sync == Leaving(old(sync).b)
      ensures trace == old(trace) + [View()]
    {
      hide Recorded, Inv;
      skipped, sync := skipped + {sync.b}, Leaving(sync.b);
      Record(old(View()), SyncSkip);
    }

    method EnqueueFrame()
      requires Valid() && sync.Received?
      modifies this`display, this`sync, this`trace
      ensures Valid() && View() == Apply(c, old(View()), SyncEnqueue)
      ensures display == old(display) + {old(sync).b} && sync == Enqueued(old(sync).b)
      ensures trace == old(trace) + [View()]
    {
      hide Recorded, Inv;
      display, sync := display + {sync.b}, Enqueued(sync.b);
      Record(old(View()), SyncEnqueue);
    }

    method CountFrame()
      requires Valid() && sync.Enqueued?
      modifies this`mEnqueuedBuffers, this`sync, this`trace
      ensures Valid() && View() == Apply(c, old(View()), SyncCount)
      ensures mEnqueuedBuffers == old(mEnqueuedBuffers) + 1 && sync == Leaving(old(sync).b)
      ensures trace == old(trace) + [View()]
    {
      hide Recorded, Inv, Increment, Decrement;
      CounterMoves(c, View());
      mEnqueuedBuffers, sync := Increment(mEnqueuedBuffers), Leaving(sync.b);
      Record(old(View()), SyncCount);
    }

    method QueueFrame()
      requires Valid() && sync.Leaving?
      modifies this`pending, this`sync, this`trace
      ensures Valid() && View() == Apply(c, old(View()), SyncLeave) && pending == old(pending) + [old(sync).b]
      ensures trace == old(trace) + [View()]
    {
      hide Recorded, Inv;
      pending, sync := pending + [sync.b], SyncIdle;
      Record(old(View()), SyncLeave);
    }

    /** The decision of synchronous_stream_cb_routine: a frame that is needed goes to the display, one
        that is not needed is marked skipped and left to the stream thread. */
    method ShowOrSkip(needProcessPreviewFrame: bool)
      requires Valid() && sync.Received?
      modifies this`display, this`skipped, this`sync, this`trace
      ensures Valid() && trace == old(trace) + [View()]
      ensures needProcessPreviewFrame ==>
                display == old(display) + {old(sync).b} && skipped == old(skipped) && sync == Enqueued(old(sync).b)
      ensures !needProcessPreviewFrame ==>
                skipped == old(skipped) + {old(sync).b} && display == old(display) && sync == Leaving(old(sync).b)
    {
      hide Recorded, Inv, Apply, Enabled;
      if !needProcessPreviewFrame {
        SkipFrame();
      } else {
        EnqueueFrame();
      }
    }

    /** Whatever the kernel and the mm-interface thread do while the stream thread is between
        two of its steps. */
    method Interfere()
      requires Valid()
      modifies this`kernel, this`display, this`skipped, this`mEnqueuedBuffers, this`pending,
               this`sync, this`delivered, this`trace
      ensures Valid() && old(pending) <= pending && old(trace) <= trace
    {
      hide Recorded, Inv;
      var steps: nat := *;
      while steps > 0
        invariant Valid() && old(pending) <= pending && old(trace) <= trace
      {
        match sync {
          case SyncIdle =>
            if kernel != {} {
              var b :| b in kernel;
              FrameArrives(b);
            }
          case Received(_) =>
            var needProcessPreviewFrame: bool := *;
            ShowOrSkip(needProcessPreviewFrame);
          case Enqueued(_) => CountFrame();
          case Leaving(_) => QueueFrame();
        }
        steps := steps - 1;
      }
    }

    // ----- preview_stream_cb_routine, region by region -----

    method TakeFrame() returns (b: nat)
      requires Valid() && async.AsyncIdle? && pending != []
      modifies this`pending, this`async, this`trace
      ensures Valid() && View() == Apply(c, old(View()), AsyncTake) && async == Taken(b) && b == old(pending)[0]
      ensures trace == old(trace) + [View()]
    {
      hide Recorded, Inv;
      b := pending[0];
      pending, async := pending[1..], Taken(b);
      Record(old(View()), AsyncTake);
    }

    /** Decide whether the frame is discarded.  Without a synchronous callback it is exactly when it is not
        needed; with one, exactly when it was skipped, and then its skip flag is cleared. */
    method CheckDiscard(b: nat, needProcessPreviewFrame: bool) returns (discardFrame: bool)
      requires Valid() && async == Taken(b)
      modifies this`skipped, this`async, this`trace
      ensures Valid() && View() == Apply(c, old(View()), AsyncCheck(needProcessPreviewFrame))
      ensures trace == old(trace) + [View()]
      ensures async == if discardFrame then Discarding(b) else if c.syncCb then Reading else Showing(b)
      ensures !c.syncCb ==> discardFrame == !needProcessPreviewFrame && skipped == old(skipped)
      ensures c.syncCb ==> discardFrame == (b in old(skipped)) && skipped == old(skipped) - {b}
    {
      hide Recorded, Inv;
      discardFrame := false;
      if !c.syncCb && !needProcessPreviewFrame {
        discardFrame := true;
      } else if c.syncCb && b in skipped {
        discardFrame := true;
        skipped := skipped - {b};
      }
      async := if discardFrame then Discarding(b) else if c.syncCb then Reading else Showing(b);
      Record(old(View()), AsyncCheck(needProcessPreviewFrame));
    }

    method DiscardFrame(b: nat)
      requires Valid() && async == Discarding(b)
      modifies this`kernel, this`returned, this`async, this`trace
      ensures Valid() && Enabled(c, old(View()), AsyncDiscard)
      ensures View() == Apply(c, old(View()), AsyncDiscard) && async == Reading
      ensures kernel == old(kernel) + {b} && returned == old(returned) + multiset{b}
      ensures trace == old(trace) + [View()]
    {
      hide Recorded, Inv;
      kernel, returned, async := kernel + {b}, returned + multiset{b}, Reading;
      Record(old(View()), AsyncDiscard);
    }

    method ShowFrame(b: nat)
      requires Valid() && async == Showing(b)
      modifies this`display, this`async, this`trace
      ensures Valid() && Enabled(c, old(View()), AsyncShow)
      ensures View() == Apply(c, old(View()), AsyncShow) && async == Shown(b) && display == old(display) + {b}
      ensures trace == old(trace) + [View()]
    {
      hide Recorded, Inv;
      display, async := display + {b}, Shown(b);
      Record(old(View()), AsyncShow);
    }

    method CountShown() returns (dequeueCnt: nat)
      requires Valid() && async.Shown?
      modifies this`mEnqueuedBuffers, this`async, this`trace
      ensures Valid() && View() == Apply(c, old(View()), AsyncCount)
      ensures trace == old(trace) + [View()]
      ensures async == Looping(0, dequeueCnt, mMappableBuffers) && dequeueCnt == mEnqueuedBuffers
      ensures mEnqueuedBuffers == old(mEnqueuedBuffers) + 1
    {
      hide Recorded, Inv, Increment, Decrement;
      CounterMoves(c, View());
      mEnqueuedBuffers := Increment(mEnqueuedBuffers);
      dequeueCnt := mEnqueuedBuffers;
      async := Looping(0, dequeueCnt, mMappableBuffers);
      Record(old(View()), AsyncCount);
    }

    method ReadCount() returns (dequeueCnt: nat)
      requires Valid() && async.Reading?
      modifies this`async, this`trace
      ensures Valid() && View() == Apply(c, old(View()), AsyncRead)
      ensures trace == old(trace) + [View()]
      ensures async == Looping(0, dequeueCnt, mMappableBuffers) && dequeueCnt == mEnqueuedBuffers
    {
      hide Recorded, Inv;
      dequeueCnt := mEnqueuedBuffers;
      async := Looping(0, dequeueCnt, mMappableBuffers);
      Record(old(View()), AsyncRead);
    }

    /** dequeueBuffer: a displayed buffer found in the table, an unknown one placed at the next
        free index, or a negative index. */
    method DequeueBuffer(ghost i: nat, ghost bound: nat, ghost numMapped: nat) returns (d: int)
      requires Valid() && async == Looping(i, bound, numMapped) && i < bound
      modifies this`display, this`mMappableBuffers, this`async, this`trace
      ensures Valid() && trace == old(trace) + [View()]
      ensures async == if d < 0 then AsyncIdle else Dequeued(i, bound, numMapped, d)
      ensures d < 0 ==> display == old(display) && mMappableBuffers == old(mMappableBuffers)
      ensures d < 0 ==> View() == Apply(c, old(View()), AsyncDequeueFail)
      ensures d >= 0 ==> Enabled(c, old(View()), AsyncDequeue(d)) && View() == Apply(c, old(View()), AsyncDequeue(d))
      ensures d >= 0 ==> d in old(display) && display == old(display) - {d} && d < c.count && d <= old(mMappableBuffers)
      ensures d >= 0 ==>
                mMappableBuffers == if d == old(mMappableBuffers) then old(mMappableBuffers) + 1 else old(mMappableBuffers)
    {
      hide Recorded, Inv;
      var candidates := set b | b in display && b <= mMappableBuffers && b < c.count;
      var found: bool := *;
      if !found || candidates == {} {
        FailDequeue();
        return -1;
      }
      d :| d in candidates;
      PlaceDequeued(d);
    }

    method FailDequeue()
      requires Valid() && async.Looping? && async.i < async.bound
      modifies this`async, this`trace
      ensures Valid() && View() == Apply(c, old(View()), AsyncDequeueFail)
      ensures trace == old(trace) + [View()]
    {
      hide Recorded, Inv;
      async := AsyncIdle;
      Record(old(View()), AsyncDequeueFail);
    }

    method PlaceDequeued(d: nat)
      requires Valid() && Enabled(c, View(), AsyncDequeue(d))
      modifies this`display, this`mMappableBuffers, this`async, this`trace
      ensures Valid() && View() == Apply(c, old(View()), AsyncDequeue(d))
      ensures d in old(display) && display == old(display) - {d} && d < c.count && d <= old(mMappableBuffers)
      ensures mMappableBuffers == if d == old(mMappableBuffers) then old(mMappableBuffers) + 1 else old(mMappableBuffers)
      ensures async == Dequeued(old(async).i, old(async).bound, old(async).numMapped, d)
      ensures trace == old(trace) + [View()]
    {
      hide Recorded, Inv;
      display := display - {d};
      if d == mMappableBuffers {
        mMappableBuffers := mMappableBuffers + 1;
      }
      async := Dequeued(async.i, async.bound, async.numMapped, d);
      Record(old(View()), AsyncDequeue(d));
    }

    method CountDequeued()
      requires Valid() && async.Dequeued?
      modifies this`mEnqueuedBuffers, this`async, this`trace
      ensures Valid() && View() == Apply(c, old(View()), AsyncUncount)
      ensures trace == old(trace) + [View()]
      ensures async == Counted(old(async).i, old(async).bound, old(async).numMapped, old(async).d)
      ensures mEnqueuedBuffers == old(mEnqueuedBuffers) - 1
    {
      hide Recorded, Inv, Increment, Decrement;
      CounterMoves(c, View());
      mEnqueuedBuffers := Decrement(mEnqueuedBuffers);
      async := Counted(async.i, async.bound, async.numMapped, async.d);
      Record(old(View()), AsyncUncount);
    }

    /** mapNewBuffer for a buffer that is new to the backend. */
    method MapDequeued(d: nat, numMapped: nat)
      requires Valid() && async.Counted? && async.d == d && async.numMapped == numMapped
      modifies this`mapped, this`async, this`trace
      ensures Valid() && View() == Apply(c, old(View()), AsyncMap)
      ensures async == Mapped(old(async).i, old(async).bound, d)
      ensures mapped == if d >= numMapped then old(mapped) + {d} else old(mapped)
      ensures trace == old(trace) + [View()]
    {
      hide Recorded, Inv;
      if d >= numMapped {
        mapped := mapped + {d};
      }
      async := Mapped(async.i, async.bound, d);
      Record(old(View()), AsyncMap);
    }

    /** bufDone for the buffer dequeued. */
    method ReturnBuffer(d: nat)
      requires Valid() && async.Mapped? && async.d == d
      modifies this`kernel, this`returned, this`async, this`trace
      ensures Valid() && View() == Apply(c, old(View()), AsyncReturn)
      ensures async == Looping(old(async).i + 1, old(async).bound, mMappableBuffers)
      ensures kernel == old(kernel) + {d} && returned == old(returned) + multiset{d}
      ensures trace == old(trace) + [View()]
    {
      hide Recorded, Inv;
      kernel, returned := kernel + {d}, returned + multiset{d};
      async := Looping(async.i + 1, async.bound, mMappableBuffers);
      Record(old(View()), AsyncReturn);
    }

    method LeaveLoop()
      requires Valid() && async.Looping? && async.i >= async.bound
      modifies this`async, this`trace
      ensures Valid() && View() == Apply(c, old(View()), AsyncFinish) && async.AsyncIdle?
      ensures trace == old(trace) + [View()]
    {
      hide Recorded, Inv;
      async := AsyncIdle;
      Record(old(View()), AsyncFinish);
    }

    /** preview_stream_cb_routine for the frame at the head of the stream thread's queue, with
        the other thread free to move between any two of its regions: the run goes on from where
        it was, with this frame taken first, and ends with the stream thread idle.  In step `at` the
        frame was decided on: without a synchronous callback it is discarded exactly when it was not
        needed, with one exactly when it was marked skipped.  Either all of `dequeueCnt` buffers were
        given back, or the display had none after `count` of them. */
    method PreviewStreamCb()
      returns (discardFrame: bool, needed: bool, ghost at: nat, dequeueCnt: nat, count: nat)
      requires Valid() && async.AsyncIdle? && pending != []
      modifies this
      ensures Valid() && async.AsyncIdle?
      ensures old(trace) <= trace && |trace| > |old(trace)|
      ensures trace[|old(trace)|] == Apply(c, old(View()), AsyncTake)
      ensures |old(trace)| <= at && at + 1 < |trace| && trace[at].async == Taken(old(pending)[0])
      ensures discardFrame == if c.syncCb then old(pending)[0] in trace[at].skipped else !needed
      ensures discardFrame ==> Happened(c, trace, |old(trace)|, Discarding(old(pending)[0]), AsyncDiscard)
      ensures !discardFrame && !c.syncCb ==> Happened(c, trace, |old(trace)|, Showing(old(pending)[0]), AsyncShow)
      ensures LoopEnded(dequeueCnt, count)
    {
      hide Recorded, Inv, Apply, Enabled, LoopEnded, Happened;
      var b := TakeFrame();
      discardFrame, needed, at, dequeueCnt, count := HandleFrame(b, |old(trace)|);
    }

    /** The callback after the frame is taken. */
    method HandleFrame(b: nat, ghost start: nat)
      returns (discardFrame: bool, needed: bool, ghost at: nat, dequeueCnt: nat, count: nat)
      requires Valid() && async == Taken(b) && start <= |trace|
      modifies this
      ensures Valid() && old(trace) <= trace && async.AsyncIdle?
      ensures |old(trace)| - 1 <= at && at + 1 < |trace| && trace[at].async == Taken(b)
      ensures discardFrame == if c.syncCb then b in trace[at].skipped else !needed
      ensures discardFrame ==> Happened(c, trace, start, Discarding(b), AsyncDiscard)
      ensures !discardFrame && !c.syncCb ==> Happened(c, trace, start, Showing(b), AsyncShow)
      ensures LoopEnded(dequeueCnt, count)
    {
      hide Recorded, Inv, Apply, Enabled, LoopEnded, Happened;
      ghost var now := |trace|;
      dequeueCnt, discardFrame, needed, at := PlaceFrame(b);
      ghost var placed := trace;
      count := DequeueLoop(dequeueCnt);
      if discardFrame {
        HappenedStays(c, placed, trace, now, Discarding(b), AsyncDiscard);
        HappenedEarlier(c, trace, start, now, Discarding(b), AsyncDiscard);
      } else if !c.syncCb {
        HappenedStays(c, placed, trace, now, Showing(b), AsyncShow);
        HappenedEarlier(c, trace, start, now, Showing(b), AsyncShow);
      }
    }

    /** How the dequeue loop came to its end, read off the last step. */
    ghost predicate LoopEnded(dequeueCnt: nat, count: nat)
      reads this`trace
    {
      && count <= dequeueCnt
      && exists numMapped ::
           if count == dequeueCnt then LastStep(c, trace, Looping(count, dequeueCnt, numMapped), AsyncFinish)
           else LastStep(c, trace, Looping(count, dequeueCnt, numMapped), AsyncDequeueFail)
    }

    /** The part of the callback before its loop.  A discarded frame is returned at once; without a
        synchronous callback a frame kept goes to the display, and with one it is there already.
        The bound of the loop is the counter as it is read last. */
    method PlaceFrame(b: nat) returns (dequeueCnt: nat, discardFrame: bool, needed: bool, ghost at: nat)
      requires Valid() && async == Taken(b)
      modifies this
      ensures Valid() && old(trace) <= trace && async == Looping(0, dequeueCnt, mMappableBuffers)
      ensures dequeueCnt == mEnqueuedBuffers
      ensures |old(trace)| - 1 <= at && at + 1 < |trace| && trace[at].async == Taken(b)
      ensures discardFrame == if c.syncCb then b in trace[at].skipped else !needed
      ensures discardFrame ==> Happened(c, trace, |old(trace)|, Discarding(b), AsyncDiscard)
      ensures !discardFrame && !c.syncCb ==> Happened(c, trace, |old(trace)|, Showing(b), AsyncShow)
    {
      hide Recorded, Inv, Apply, Enabled, Happened;
      ghost var start := |trace|;
      discardFrame, needed, at := DecideFrame(b);
      ghost var decided := trace;
      if !c.syncCb && !discardFrame {
        dequeueCnt := ShowAndCount(b, start);
      } else {
        dequeueCnt := ReadCount();
        if discardFrame {
          HappenedStays(c, decided, trace, start, Discarding(b), AsyncDiscard);
        }
      }
    }

    /** Give the frame to the display and count it. */
    method ShowAndCount(b: nat, ghost start: nat) returns (dequeueCnt: nat)
      requires Valid() && async == Showing(b) && start <= |trace|
      modifies this
      ensures Valid() && old(trace) <= trace && async == Looping(0, dequeueCnt, mMappableBuffers)
      ensures dequeueCnt == mEnqueuedBuffers
      ensures Happened(c, trace, start, Showing(b), AsyncShow)
    {
      hide Recorded, Inv, Apply, Enabled, Happened;
      ghost var before, s := trace, View();
      ShowFrame(b);
      LastHappened(c, before, s, View(), Showing(b), AsyncShow);
      HappenedEarlier(c, trace, start, |before|, Showing(b), AsyncShow);
      ghost var shown := trace;
      Interfere();
      dequeueCnt := CountShown();
      HappenedStays(c, shown, trace, start, Showing(b), AsyncShow);
    }

    /** Decide on the frame, and return it at once when it is discarded. */
    method DecideFrame(b: nat) returns (discardFrame: bool, needed: bool, ghost at: nat)
      requires Valid() && async == Taken(b)
      modifies this
      ensures Valid() && old(trace) <= trace
      ensures async == if discardFrame || c.syncCb then Reading else Showing(b)
      ensures |old(trace)| - 1 <= at && at + 1 < |trace| && trace[at].async == Taken(b)
      ensures discardFrame == if c.syncCb then b in trace[at].skipped else !needed
      ensures discardFrame ==> Happened(c, trace, |old(trace)|, Discarding(b), AsyncDiscard)
    {
      hide Recorded, Inv, Apply, Enabled, Happened;
      ghost var start := |trace|;
      Interfere();
      var needProcessPreviewFrame: bool := *;
      needed, at := needProcessPreviewFrame, |trace| - 1;
      discardFrame := CheckDiscard(b, needProcessPreviewFrame);
      Interfere();
      if discardFrame {
        ReturnDiscarded(b, start);
      }
    }

    method ReturnDiscarded(b: nat, ghost start: nat)
      requires Valid() && async == Discarding(b) && start <= |trace|
      modifies this
      ensures Valid() && old(trace) <= trace && async == Reading
      ensures Happened(c, trace, start, Discarding(b), AsyncDiscard)
    {
      hide Recorded, Inv, Apply, Enabled, Happened;
      ghost var before, s := trace, View();
      DiscardFrame(b);
      LastHappened(c, before, s, View(), Discarding(b), AsyncDiscard);
      HappenedEarlier(c, trace, start, |before|, Discarding(b), AsyncDiscard);
      ghost var returnedOnce := trace;
      Interfere();
      HappenedStays(c, returnedOnce, trace, start, Discarding(b), AsyncDiscard);
    }

    /** One turn of the dequeue loop; false when the display gives nothing. */
    method DequeueOne(ghost i: nat, ghost dequeueCnt: nat, numMapped: nat) returns (found: bool)
      requires Valid() && async == Looping(i, dequeueCnt, numMapped) && i < dequeueCnt
      modifies this
      ensures Valid() && old(trace) <= trace
      ensures async == if found then Looping(i + 1, dequeueCnt, mMappableBuffers) else AsyncIdle
      ensures !found ==> LastStep(c, trace, Looping(i, dequeueCnt, numMapped), AsyncDequeueFail)
    {
      hide Recorded, Inv, Apply, Enabled, LastStep;
      Interfere();
      ghost var before, s := trace, View();
      var d := DequeueBuffer(i, dequeueCnt, numMapped);
      if d < 0 {
        FailEnabled(c, s, i, dequeueCnt, numMapped);
        LastHappened(c, before, s, View(), Looping(i, dequeueCnt, numMapped), AsyncDequeueFail);
        return false;
      }
      Interfere();
      GiveBack(i, dequeueCnt, numMapped, d);
      return true;
    }

    method GiveBack(ghost i: nat, ghost dequeueCnt: nat, numMapped: nat, d: nat)
      requires Valid() && async == Dequeued(i, dequeueCnt, numMapped, d)
      modifies this
      ensures Valid() && old(trace) <= trace && async == Looping(i + 1, dequeueCnt, mMappableBuffers)
    {
      hide Recorded, Inv, Apply, Enabled;
      CountDequeued();
      Interfere();
      MapDequeued(d, numMapped);
      Interfere();
      ReturnBuffer(d);
    }

    /** The dequeue loop, bounded by the copy of the counter taken before it; `count` buffers are
        given back. */
    method DequeueLoop(dequeueCnt: nat) returns (count: nat)
      requires Valid() && async == Looping(0, dequeueCnt, mMappableBuffers)
      modifies this
      ensures Valid() && old(trace) <= trace && async.AsyncIdle?
      ensures LoopEnded(dequeueCnt, count)
    {
      hide Recorded, Inv, Apply, Enabled, LastStep;
      count := 0;
      while count < dequeueCnt
        invariant Valid() && old(trace) <= trace && async == Looping(count, dequeueCnt, mMappableBuffers)
        invariant count <= dequeueCnt
      {
        var found := DequeueOne(count, dequeueCnt, mMappableBuffers);
        if !found {
          return;
        }
        count := count + 1;
      }
      LeaveWhenDone(dequeueCnt);
    }

    method LeaveWhenDone(ghost dequeueCnt: nat)
      requires Valid() && async == Looping(dequeueCnt, dequeueCnt, mMappableBuffers)
      modifies this`async, this`trace
      ensures Valid() && old(trace) <= trace && async.AsyncIdle?
      ensures LastStep(c, trace, Looping(dequeueCnt, dequeueCnt, mMappableBuffers), AsyncFinish)
    {
      hide Recorded, Inv, Apply, Enabled, LastStep;
      ghost var before, s := trace, View();
      FinishEnabled(c, s, dequeueCnt, mMappableBuffers);
      LeaveLoop();
      LastHappened(c, before, s, View(), Looping(dequeueCnt, dequeueCnt, mMappableBuffers), AsyncFinish);
    }
  }
}
