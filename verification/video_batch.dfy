/** Video batching: frames are collected in the native handles of three metadata slots, handed to
    the consumer n at a time, and returned to the camera when the consumer releases the slot.

  The stream thread stores frames while another thread releases slots, and no lock is shared.
  The search for a slot and the storing of a frame are one step each; a release is three: the
  listed buffers go back, the owner flag is cleared, the count is cleared.
*/
module VideoBatch {

  const SLOTS: nat := 3
  const MAX_BATCH: nat := 16

  type BufIndex = i: nat | i < 256

  /** A frame as it arrives; `id` is its place among all arrivals. */
  datatype Frame = Frame(id: nat, bufIdx: BufIndex, fd: int, size: nat, usage: int, format: int, ts: int)

  /** What the upper layer did with a complete batch. */
  datatype Verdict = HandedOver | Disabled | Refused

  // ---------- batches ----------

  /** One metadata slot: `frames` is the batch in it, `count` the number in numBuffers.  A stuck
      slot was released while its count was zero, and keeps its owner flag. */
  datatype Slot =
    | Free(count: nat)
    | Filling(frames: seq<Frame>, count: nat)
    | Closed(frames: seq<Frame>, count: nat, verdict: Verdict)
    | Releasing(count: nat)
    | Stuck(frames: seq<Frame>, count: nat)

  datatype Batch = Batch(slot: nat, frames: seq<Frame>, verdict: Verdict)

  /** The stream thread waits for a frame, or has found a slot for one. */
  datatype Callback = Waiting | Storing(frame: Frame)

  /** The releasing thread is idle, has returned the buffers of a slot, or has cleared its owner
      flag and not its count. */
  datatype Release = NoRelease | Returned(slot: nat) | Unflagged(slot: nat)

  /** The slots, the one being filled (or -1) and the two threads; then the history: frames accepted
      into a slot, batches closed, and what became of the frames that arrived.  Frames are dropped
      at once, returned by a release, or lost by one; some are also returned early, and a stray
      release returns a buffer that is none of its batch. */
  datatype State = State(
    n: nat,
    slots: seq<Slot>,
    open: int,
    cb: Callback,
    release: Release,
    arrivals: nat,
    accepted: seq<Frame>,
    batches: seq<Batch>,
    arrived: multiset<Frame>,
    dropped: multiset<Frame>,
    released: multiset<Frame>,
    lost: multiset<Frame>,
    early: multiset<Frame>,
    strays: nat)

  function Initial(n: nat): State {
    State(n, [Free(0), Free(0), Free(0)], -1, Waiting, NoRelease, 0, [], [],
          multiset{}, multiset{}, multiset{}, multiset{}, multiset{}, 0)
  }

  /** The slot holds a batch. */
  predicate HasBatch(slot: Slot) { slot.Filling? || slot.Closed? || slot.Stuck? }

  function FramesOf(slot: Slot): seq<Frame> { if HasBatch(slot) then slot.frames else [] }

  /** consumerOwned */
  predicate Owned(slot: Slot) { slot.Closed? || slot.Releasing? || slot.Stuck? || (slot.Filling? && slot.frames != []) }

  function OpenFrames(s: State): seq<Frame> {
    if 0 <= s.open < |s.slots| then FramesOf(s.slots[s.open]) else []
  }

  /** The first slot from i on that the consumer does not own, or the number of slots. */
  function FirstFree(slots: seq<Slot>, i: nat): (k: nat)
    requires i <= |slots|
    ensures i <= k <= |slots|
    ensures k < |slots| ==> !Owned(slots[k])
    ensures forall j :: i <= j < k ==> Owned(slots[j])
    decreases |slots| - i
  {
    if i == |slots| || !Owned(slots[i]) then i else FirstFree(slots, i + 1)
  }

  function Take(fs: seq<Frame>, count: nat): seq<Frame> { if count <= |fs| then fs[..count] else fs }

  function Skip(fs: seq<Frame>, count: nat): seq<Frame> { if count <= |fs| then fs[count..] else [] }

  // ---------- steps ----------

  datatype Event =
    | Arrive(frame: Frame, memory: bool)   // memory: metadata memory is there for a slot newly opened
    | Store(verdict: Verdict)              // the verdict counts when the frame completes its batch
    | ReturnListed(slot: nat)
    | ClearOwner
    | ClearCount

  /** Frames arrive one at a time, each new.  The consumer releases what it was handed, once, and
      one thread does all releases. */
  predicate Enabled(s: State, e: Event) {
    match e
    case Arrive(f, _) => s.cb.Waiting? && f.id == s.arrivals
    case Store(_) => s.cb.Storing? && 0 <= s.open < |s.slots| && s.slots[s.open].Filling?
    case ReturnListed(i) =>
      s.release.NoRelease? && i < |s.slots| && s.slots[i].Closed? && s.slots[i].verdict.HandedOver?
    case ClearOwner => s.release.Returned? && s.release.slot < |s.slots|
    case ClearCount => s.release.Unflagged? && s.release.slot < |s.slots|
  }

  function Drop(s: State, f: Frame): State {
    s.(arrivals := s.arrivals + 1, arrived := s.arrived + multiset{f}, dropped := s.dropped + multiset{f})
  }

  /** The head of the callback: with no batch open a slot is searched, and its count reset. */
  function FindSlot(s: State, f: Frame, memory: bool): State {
    var t := s.(arrivals := s.arrivals + 1, arrived := s.arrived + multiset{f}, cb := Storing(f));
    if s.open >= 0 then t
    else
      var i := FirstFree(s.slots, 0);
      if i == |s.slots| then Drop(s, f)
      else if !memory then Drop(s.(slots := s.slots[i := Free(0)]), f)
      else t.(slots := s.slots[i := Filling([], 0)], open := i)
  }

  function Append(s: State): State
    requires Enabled(s, Store(Disabled))
  {
    var slot := s.slots[s.open];
    s.(slots := s.slots[s.open := Filling(slot.frames + [s.cb.frame], slot.count + 1)],
       accepted := s.accepted + [s.cb.frame],
       cb := Waiting)
  }

  /** A complete batch goes to the upper layer; when the notifier refuses it, only the buffer that
      completed it goes back to the camera. */
  function Close(s: State, v: Verdict): State
    requires 0 <= s.open < |s.slots| && s.slots[s.open].Filling? && s.slots[s.open].frames != []
  {
    var slot := s.slots[s.open];
    var fs := slot.frames;
    s.(slots := s.slots[s.open := Closed(fs, slot.count, v)],
       open := -1,
       batches := s.batches + [Batch(s.open, fs, v)],
       early := if v.Refused? then s.early + multiset{fs[|fs| - 1]} else s.early)
  }

  function StoreFrame(s: State, v: Verdict): State
    requires Enabled(s, Store(v))
  {
    var t := Append(s);
    if |OpenFrames(t)| == s.n then Close(t, v) else t
  }

  /** The loop of the release returns what the count covers.  With a count of zero it returns
      instead the buffer that has the slot's own number, and ends. */
  function ReturnBuffers(s: State, i: nat): State
    requires i < |s.slots| && s.slots[i].Closed?
  {
    var fs, count := s.slots[i].frames, s.slots[i].count;
    if count == 0 then s.(slots := s.slots[i := Stuck(fs, 0)], strays := s.strays + 1)
    else
      s.(slots := s.slots[i := Releasing(count)],
         release := Returned(i),
         released := s.released + multiset(Take(fs, count)),
         lost := s.lost + multiset(Skip(fs, count)))
  }

  function Apply(s: State, e: Event): State
    requires Enabled(s, e)
  {
    match e
    case Arrive(f, memory) => FindSlot(s, f, memory)
    case Store(v) => StoreFrame(s, v)
    case ReturnListed(i) => ReturnBuffers(s, i)
    case ClearOwner =>
      var i := s.release.slot;
      s.(slots := s.slots[i := Free(s.slots[i].count)], release := Unflagged(i))
    case ClearCount =>
      var i := s.release.slot;
      s.(slots := s.slots[i := s.slots[i].(count := 0)], release := NoRelease)
  }

  predicate Takes(s: State, e: Event, t: State) {
    Enabled(s, e) && t == Apply(s, e)
  }

  /** A run: any interleaving of the two threads. */
  ghost predicate IsRun(n: nat, events: seq<Event>, states: seq<State>) {
    && |states| == |events| + 1
    && states[0] == Initial(n)
    && forall i: nat :: i < |events| ==> Linked(events, states, i)
  }

  ghost predicate Linked(events: seq<Event>, states: seq<State>, i: nat)
    requires i < |events| && i + 1 < |states|
  {
    Takes(states[i], events[i], states[i + 1])
  }

  // ---------- the invariant ----------

  predicate SlotFits(s: State, i: nat)
    requires i < |s.slots|
  {
    match s.slots[i]
    case Free(_) => i != s.open && s.release != Returned(i)
    case Filling(fs, count) =>
      i == s.open && |fs| < s.n && count <= |fs| && (fs == [] ==> s.cb.Storing?) && s.release != Returned(i)
    case Closed(fs, count, _) => i != s.open && |fs| == s.n && count <= |fs| && s.release != Returned(i)
    case Releasing(_) => i != s.open && s.release == Returned(i)
    case Stuck(fs, count) =>
      i != s.open && |fs| == s.n && count == 0 && s.release != Returned(i) && s.release != Unflagged(i)
  }

  ghost predicate Shape(s: State) {
    && |s.slots| == SLOTS && 0 < s.n && -1 <= s.open < SLOTS
    && (forall i: nat :: i < SLOTS ==> SlotFits(s, i))
    && (s.open >= 0 ==> s.slots[s.open].Filling?)
    && (s.cb.Storing? ==> s.open >= 0)
    && (!s.release.NoRelease? ==> s.release.slot < SLOTS)
    && (s.release.Returned? ==> s.slots[s.release.slot].Releasing?)
  }

  function Flatten(bs: seq<Batch>): seq<Frame> {
    if bs == [] then [] else Flatten(bs[..|bs| - 1]) + bs[|bs| - 1].frames
  }

  predicate InOrder(s: State) {
    && s.accepted == Flatten(s.batches) + OpenFrames(s)
    && forall k :: 0 <= k < |s.batches| ==> |s.batches[k].frames| == s.n
  }

  /** How often a frame stands in a batch kept in some slot. */
  function Held(slots: seq<Slot>, f: Frame): nat
    requires |slots| == SLOTS
  {
    multiset(FramesOf(slots[0]))[f] + multiset(FramesOf(slots[1]))[f] + multiset(FramesOf(slots[2]))[f]
  }

  function Bit(b: bool): nat { if b then 1 else 0 }

  /** A frame that arrived is dropped, returned by a release, lost by one, kept in a slot, or in the
      stream thread's hand. */
  ghost predicate Parted(s: State)
    requires |s.slots| == SLOTS
  {
    forall f :: s.arrived[f] ==
      s.dropped[f] + s.released[f] + s.lost[f] + Held(s.slots, f) + Bit(s.cb == Storing(f))
  }

  ghost predicate ArrivedOnce(s: State) {
    forall f :: s.arrived[f] <= 1 && (f in s.arrived ==> f.id < s.arrivals)
  }

  predicate RefusedIn(slots: seq<Slot>, i: nat, f: Frame) {
    i < |slots| && slots[i].Closed? && slots[i].verdict.Refused? && f in slots[i].frames
  }

  /** A frame returned early is still in the slot of its refused batch. */
  ghost predicate EarlyKept(s: State) {
    forall f :: f in s.early ==> exists i: nat :: RefusedIn(s.slots, i, f)
  }

  ghost predicate Inv(s: State) {
    Shape(s) && InOrder(s) && Parted(s) && ArrivedOnce(s) && EarlyKept(s)
  }

  // ---------- the shape of the slots ----------

  lemma ArriveKeepsShape(s: State, f: Frame, memory: bool)
    requires Shape(s) && Enabled(s, Arrive(f, memory))
    ensures Shape(Apply(s, Arrive(f, memory)))
  {
    var t := Apply(s, Arrive(f, memory));
    forall i: nat | i < SLOTS
      ensures SlotFits(t, i)
    {
      assert SlotFits(s, i);
    }
  }

  lemma StoreKeepsShape(s: State, v: Verdict)
    requires Shape(s) && Enabled(s, Store(v))
    ensures Shape(Apply(s, Store(v)))
  {
    var t := Apply(s, Store(v));
    assert SlotFits(s, s.open);
    forall i: nat | i < SLOTS
      ensures SlotFits(t, i)
    {
      assert SlotFits(s, i);
    }
  }

  lemma ReleaseKeepsShape(s: State, e: Event)
    requires Shape(s) && Enabled(s, e) && !e.Arrive? && !e.Store?
    ensures Shape(Apply(s, e))
  {
    var t := Apply(s, e);
    forall i: nat | i < SLOTS
      ensures SlotFits(t, i)
    {
      assert SlotFits(s, i);
    }
  }

  // ---------- the order of the frames ----------

  lemma StoreKeepsOrder(s: State, v: Verdict)
    requires Shape(s) && InOrder(s) && Enabled(s, Store(v))
    ensures InOrder(Apply(s, Store(v)))
  {
    hide Flatten;
    var t := Append(s);
    assert SlotFits(s, s.open);
    assert OpenFrames(t) == OpenFrames(s) + [s.cb.frame];
    if |OpenFrames(t)| == s.n {
      var u := Close(t, v);
      FlattenSnoc(t.batches, Batch(t.open, OpenFrames(t), v));
    }
  }

  lemma FlattenSnoc(bs: seq<Batch>, b: Batch)
    ensures Flatten(bs + [b]) == Flatten(bs) + b.frames
  {
    assert (bs + [b])[..|bs|] == bs;
  }

  lemma OthersKeepOrder(s: State, e: Event)
    requires Shape(s) && InOrder(s) && Enabled(s, e) && !e.Store?
    ensures InOrder(Apply(s, e))
  {
    hide Flatten;
    if s.open >= 0 {
      assert SlotFits(s, s.open);
    }
    if e.ReturnListed? {
      assert SlotFits(s, e.slot);
    }
    if e.ClearOwner? {
      assert SlotFits(s, s.release.slot);
    }
  }

  // ---------- the account of the frames ----------

  /** Changing one slot changes what is held by the difference. */
  lemma HeldUpdate(slots: seq<Slot>, i: nat, slot: Slot, f: Frame)
    requires i < |slots| == SLOTS
    ensures Held(slots[i := slot], f) + multiset(FramesOf(slots[i]))[f] == Held(slots, f) + multiset(FramesOf(slot))[f]
  {
  }

  lemma CountSnoc(fs: seq<Frame>, x: Frame, f: Frame)
    ensures multiset(fs + [x])[f] == multiset(fs)[f] + Bit(x == f)
  {
  }

  lemma CountSplit(fs: seq<Frame>, count: nat, f: Frame)
    ensures multiset(fs)[f] == multiset(Take(fs, count))[f] + multiset(Skip(fs, count))[f]
  {
    assert fs == Take(fs, count) + Skip(fs, count);
  }

  lemma ArriveKeepsParted(s: State, f: Frame, memory: bool)
    requires Shape(s) && Parted(s) && Enabled(s, Arrive(f, memory))
    ensures Parted(Apply(s, Arrive(f, memory)))
  {
    hide Held;
    var t, i := Apply(s, Arrive(f, memory)), FirstFree(s.slots, 0);
    forall x
      ensures t.arrived[x] == t.dropped[x] + t.released[x] + t.lost[x] + Held(t.slots, x) + Bit(t.cb == Storing(x))
    {
      if s.open == -1 && i < SLOTS {
        assert SlotFits(s, i);
        HeldUpdate(s.slots, i, t.slots[i], x);
      }
    }
  }

  lemma StoreKeepsParted(s: State, v: Verdict)
    requires Shape(s) && Parted(s) && Enabled(s, Store(v))
    ensures Parted(Apply(s, Store(v)))
  {
    hide Held;
    var t := Apply(s, Store(v));
    var f, fs := s.cb.frame, s.slots[s.open].frames;
    assert FramesOf(t.slots[s.open]) == fs + [f] && t.slots == s.slots[s.open := t.slots[s.open]];
    forall x
      ensures t.arrived[x] == t.dropped[x] + t.released[x] + t.lost[x] + Held(t.slots, x) + Bit(t.cb == Storing(x))
    {
      HeldUpdate(s.slots, s.open, t.slots[s.open], x);
      CountSnoc(fs, f, x);
    }
  }

  lemma ReturnKeepsParted(s: State, i: nat)
    requires Shape(s) && Parted(s) && Enabled(s, ReturnListed(i))
    ensures Parted(ReturnBuffers(s, i))
  {
    hide Held, Take, Skip;
    var t, slot := ReturnBuffers(s, i), s.slots[i];
    assert FramesOf(slot) == slot.frames && t.slots == s.slots[i := t.slots[i]];
    forall x
      ensures t.arrived[x] == t.dropped[x] + t.released[x] + t.lost[x] + Held(t.slots, x) + Bit(t.cb == Storing(x))
    {
      HeldUpdate(s.slots, i, t.slots[i], x);
      CountSplit(slot.frames, slot.count, x);
    }
  }

  lemma ClearKeepsParted(s: State, e: Event)
    requires Shape(s) && Parted(s) && Enabled(s, e) && (e.ClearOwner? || e.ClearCount?)
    ensures Parted(Apply(s, e))
  {
    hide Held;
    var t, i := Apply(s, e), s.release.slot;
    assert SlotFits(s, i) && FramesOf(t.slots[i]) == FramesOf(s.slots[i]);
    forall x
      ensures Held(t.slots, x) == Held(s.slots, x)
    {
      HeldUpdate(s.slots, i, t.slots[i], x);
    }
  }

  lemma StepKeepsArrivedOnce(s: State, e: Event)
    requires ArrivedOnce(s) && Enabled(s, e)
    ensures ArrivedOnce(Apply(s, e))
  {
    hide Take, Skip, FirstFree;
    if e.Arrive? {
      assert e.frame !in s.arrived;
    }
  }

  /** A slot with a refused batch keeps it. */
  lemma RefusedStays(s: State, e: Event, i: nat, f: Frame)
    requires Shape(s) && Enabled(s, e) && RefusedIn(s.slots, i, f)
    ensures RefusedIn(Apply(s, e).slots, i, f)
  {
    hide Take, Skip, StoreFrame, FindSlot;
    assert SlotFits(s, i);
    match e
    case Arrive(frame, memory) => SearchKeepsClosed(s, frame, memory, i);
    case Store(v) => StoreKeepsClosed(s, v, i);
    case _ =>
  }

  /** Neither the search for a slot nor the storing of a frame touches a slot that is closed. */
  lemma SearchKeepsClosed(s: State, f: Frame, memory: bool, i: nat)
    requires |s.slots| == SLOTS && i < SLOTS && s.slots[i].Closed?
    ensures |FindSlot(s, f, memory).slots| == SLOTS && FindSlot(s, f, memory).slots[i] == s.slots[i]
  {
    var k := FirstFree(s.slots, 0);
    assert k < SLOTS ==> k != i;
  }

  lemma StoreKeepsClosed(s: State, v: Verdict, i: nat)
    requires i < |s.slots| && s.slots[i].Closed? && Enabled(s, Store(v))
    ensures |StoreFrame(s, v).slots| == |s.slots| && StoreFrame(s, v).slots[i] == s.slots[i]
  {
  }

  lemma NewlyEarly(s: State, e: Event, f: Frame)
    requires Shape(s) && Enabled(s, e) && f in Apply(s, e).early && f !in s.early
    ensures s.open >= 0 && RefusedIn(Apply(s, e).slots, s.open, f)
  {
    hide Take, Skip;
  }

  lemma StepKeepsEarlyKept(s: State, e: Event)
    requires Shape(s) && EarlyKept(s) && Enabled(s, e)
    ensures EarlyKept(Apply(s, e))
  {
    hide Shape, Apply, Enabled, RefusedIn;
    forall f | f in Apply(s, e).early
      ensures exists i: nat :: RefusedIn(Apply(s, e).slots, i, f)
    {
      if f in s.early {
        var i: nat :| RefusedIn(s.slots, i, f);
        RefusedStays(s, e, i, f);
      } else {
        NewlyEarly(s, e, f);
      }
    }
  }

  lemma StepKeepsInv(s: State, e: Event, t: State)
    requires Inv(s) && Takes(s, e, t)
    ensures Inv(t) && t.n == s.n
  {
    StepKeepsSize(s, e);
    hide Shape, InOrder, Parted, ArrivedOnce, EarlyKept, Apply, Enabled;
    StepKeepsArrivedOnce(s, e);
    StepKeepsEarlyKept(s, e);
    match e
    case Arrive(f, memory) =>
      ArriveKeepsShape(s, f, memory);
      OthersKeepOrder(s, e);
      ArriveKeepsParted(s, f, memory);
    case Store(v) =>
      StoreKeepsShape(s, v);
      StoreKeepsOrder(s, v);
      StoreKeepsParted(s, v);
    case ReturnListed(i) =>
      ReleaseKeepsShape(s, e);
      OthersKeepOrder(s, e);
      ReturnKeepsParted(s, i);
      ReturnIs(s, i);
    case _ =>
      ReleaseKeepsShape(s, e);
      OthersKeepOrder(s, e);
      ClearKeepsParted(s, e);
  }

  lemma ReturnIs(s: State, i: nat)
    requires Enabled(s, ReturnListed(i))
    ensures Apply(s, ReturnListed(i)) == ReturnBuffers(s, i)
  {
  }

  lemma StepKeepsSize(s: State, e: Event)
    requires Enabled(s, e)
    ensures Apply(s, e).n == s.n && |Apply(s, e).slots| == |s.slots|
  {
    hide Take, Skip;
  }

  lemma RunTakes(n: nat, events: seq<Event>, states: seq<State>, i: nat)
    requires IsRun(n, events, states) && i + 1 < |states|
    ensures i < |events| && Takes(states[i], events[i], states[i + 1])
  {
    hide Takes;
    assert Linked(events, states, i);
  }

  lemma InitialInv(n: nat)
    requires 0 < n
    ensures Inv(Initial(n))
  {
  }

  lemma RunStarts(n: nat, events: seq<Event>, states: seq<State>)
    requires IsRun(n, events, states)
    ensures |states| == |events| + 1 && states[0] == Initial(n)
  {
  }

  lemma {:induction false} RunKeepsInv(n: nat, events: seq<Event>, states: seq<State>, k: nat)
    requires 0 < n && IsRun(n, events, states) && k < |states|
    ensures Inv(states[k]) && states[k].n == n
  {
    hide IsRun, Inv, Takes;
    RunStarts(n, events, states);
    if k == 0 {
      InitialInv(n);
    } else {
      RunKeepsInv(n, events, states, k - 1);
      RunTakes(n, events, states, k - 1);
      StepKeepsInv(states[k - 1], events[k - 1], states[k]);
    }
  }

  // ---------- what every run guarantees ----------

  /** The accepted frames are the closed batches in order, n frames each, and then the open one. */
  lemma BatchesPartitionFrames(n: nat, events: seq<Event>, states: seq<State>, k: nat)
    requires 0 < n && IsRun(n, events, states) && k < |states|
    ensures states[k].accepted == Flatten(states[k].batches) + OpenFrames(states[k])
    ensures forall b :: 0 <= b < |states[k].batches| ==> |states[k].batches[b].frames| == n
    ensures |OpenFrames(states[k])| < n
  {
    hide IsRun;
    RunKeepsInv(n, events, states, k);
    assert states[k].open >= 0 ==> SlotFits(states[k], states[k].open);
  }

  // ----- when every frame is accounted for -----

  /** The count of the slot covers its whole batch. */
  predicate Exact(slot: Slot) { HasBatch(slot) ==> slot.count == |slot.frames| }

  /** How often the slots list a frame: each lists as many of its frames as its count says. */
  function Listed(slots: seq<Slot>, f: Frame): nat
    requires |slots| == SLOTS
  {
    ListedBy(slots[0], f) + ListedBy(slots[1], f) + ListedBy(slots[2], f)
  }

  function ListedBy(slot: Slot, f: Frame): nat {
    if HasBatch(slot) then multiset(Take(slot.frames, slot.count))[f] else 0
  }

  /** How often a frame went back to the camera. */
  function TimesReturned(s: State, f: Frame): nat { s.dropped[f] + s.released[f] + s.early[f] }

  /** Nothing is amiss: every slot lists the whole of its batch, and every frame that arrived went
      back once, or is listed once, or is just being stored. */
  ghost predicate Accounted(s: State)
    requires |s.slots| == SLOTS
  {
    && (forall i :: 0 <= i < SLOTS ==> Exact(s.slots[i]))
    && (forall f :: s.arrived[f] == TimesReturned(s, f) + Listed(s.slots, f) + Bit(s.cb == Storing(f)))
  }

  /** Event a stores a frame in slot i. */
  predicate StoredInto(events: seq<Event>, states: seq<State>, a: nat, i: nat) {
    a < |events| && a < |states| && events[a].Store? && states[a].open == i
  }

  predicate NoFlagCleared(events: seq<Event>, a: nat, j: nat) {
    forall m: nat :: a < m < j && m < |events| ==> !events[m].ClearOwner?
  }

  /** Event j clears the count of a slot in which a frame has been stored since the same release
      cleared its owner flag. */
  ghost predicate LateClear(events: seq<Event>, states: seq<State>, j: nat) {
    && j < |events| && j < |states| && events[j].ClearCount? && states[j].release.Unflagged?
    && StoredSince(events, states, j, states[j].release.slot)
  }

  ghost predicate StoredSince(events: seq<Event>, states: seq<State>, j: nat, i: nat) {
    exists a: nat :: a < j && StoredInto(events, states, a, i) && NoFlagCleared(events, a, j)
  }

  lemma StoredSinceStep(events: seq<Event>, states: seq<State>, j: nat, i: nat)
    requires j < |events| && j < |states|
    ensures StoredSince(events, states, j + 1, i)
            <==> (!events[j].ClearOwner? && StoredSince(events, states, j, i)) || StoredInto(events, states, j, i)
  {
    if StoredSince(events, states, j + 1, i) {
      var a: nat :| a < j + 1 && StoredInto(events, states, a, i) && NoFlagCleared(events, a, j + 1);
      if a < j {
        assert NoFlagCleared(events, a, j);
      }
    }
    if !events[j].ClearOwner? && StoredSince(events, states, j, i) {
      var a: nat :| a < j && StoredInto(events, states, a, i) && NoFlagCleared(events, a, j);
      assert NoFlagCleared(events, a, j + 1);
    }
    if StoredInto(events, states, j, i) {
      assert NoFlagCleared(events, j, j + 1);
    }
  }

  /** What one step does to the slot whose owner flag was cleared. */
  lemma UnflaggedStep(s: State, e: Event, t: State, i: nat)
    requires Inv(s) && Takes(s, e, t) && t.release == Unflagged(i)
    ensures i < |t.slots| && (e.ClearOwner? ==> FramesOf(t.slots[i]) == [])
    ensures !e.ClearOwner? ==> s.release == Unflagged(i) && i < |s.slots|
    ensures !e.ClearOwner? ==>
              (FramesOf(t.slots[i]) != [] <==> FramesOf(s.slots[i]) != [] || (e.Store? && s.open == i))
  {
    hide InOrder, Parted, ArrivedOnce, EarlyKept, Take, Skip;
    assert i < SLOTS ==> SlotFits(s, i);
  }

  /** Between the two stores of a release, the slot holds frames exactly when some were stored then. */
  lemma {:induction false} UnflaggedHoldsIff(n: nat, events: seq<Event>, states: seq<State>, j: nat, i: nat)
    requires 0 < n && IsRun(n, events, states) && j < |states| && states[j].release == Unflagged(i)
    ensures i < |states[j].slots|
    ensures FramesOf(states[j].slots[i]) != [] <==> StoredSince(events, states, j, i)
  {
    hide IsRun, Inv, Takes, StoredSince, FramesOf;
    RunStarts(n, events, states);
    RunTakes(n, events, states, j - 1);
    RunKeepsInv(n, events, states, j - 1);
    UnflaggedStep(states[j - 1], events[j - 1], states[j], i);
    StoredSinceStep(events, states, j - 1, i);
    if !events[j - 1].ClearOwner? {
      UnflaggedHoldsIff(n, events, states, j - 1, i);
    }
  }

  /** A count cleared late is a count cleared while its slot holds frames. */
  lemma LateClearIff(n: nat, events: seq<Event>, states: seq<State>, j: nat)
    requires 0 < n && IsRun(n, events, states) && j < |events| && events[j].ClearCount?
    ensures j < |states| && states[j].release.Unflagged? && states[j].release.slot < |states[j].slots|
    ensures LateClear(events, states, j) <==> FramesOf(states[j].slots[states[j].release.slot]) != []
  {
    RunStarts(n, events, states);
    RunTakes(n, events, states, j);
    UnflaggedHoldsIff(n, events, states, j, states[j].release.slot);
  }

  /** No frame is lost and no batch is longer than its count. */
  predicate Sound(s: State) {
    s.lost == multiset{} && forall i :: 0 <= i < |s.slots| ==> Exact(s.slots[i])
  }

  /** The step clears the count of a slot that holds frames. */
  predicate ClearsLate(s: State, e: Event) {
    e.ClearCount? && s.release.Unflagged? && s.release.slot < |s.slots| && FramesOf(s.slots[s.release.slot]) != []
  }

  lemma SumEmpty(m: multiset<Frame>, n: multiset<Frame>)
    ensures m + n == multiset{} <==> m == multiset{} && n == multiset{}
  {
    if m + n == multiset{} {
      forall f
        ensures m[f] == 0 && n[f] == 0
      {
        assert (m + n)[f] == 0;
      }
    }
  }

  lemma ReturnKeepsSound(s: State, i: nat)
    requires Inv(s) && Enabled(s, ReturnListed(i))
    ensures Sound(ReturnBuffers(s, i)) <==> Sound(s)
  {
    hide InOrder, Parted, ArrivedOnce, EarlyKept;
    assert SlotFits(s, i);
    var t, fs, count := ReturnBuffers(s, i), s.slots[i].frames, s.slots[i].count;
    if count == 0 {
      assert !Exact(s.slots[i]) && !Exact(t.slots[i]);
    } else {
      SumEmpty(s.lost, multiset(Skip(fs, count)));
      assert Skip(fs, count) == [] <==> count == |fs|;
      assert multiset(Skip(fs, count)) == multiset{} <==> Skip(fs, count) == [] by {
        if Skip(fs, count) != [] {
          assert Skip(fs, count)[0] in multiset(Skip(fs, count));
        }
      }
      assert forall j :: 0 <= j < |s.slots| && j != i ==> t.slots[j] == s.slots[j];
    }
  }

  /** A step that touches one slot, exact before, is judged by that slot. */
  lemma OneSlotSound(s: State, t: State, i: nat)
    requires i < |s.slots| == |t.slots| && t.lost == s.lost && Exact(s.slots[i])
    requires forall j :: 0 <= j < |s.slots| && j != i ==> t.slots[j] == s.slots[j]
    ensures Sound(t) <==> Sound(s) && Exact(t.slots[i])
  {
    hide Exact;
  }

  lemma ArriveKeepsSound(s: State, f: Frame, memory: bool)
    requires Inv(s) && Enabled(s, Arrive(f, memory))
    ensures Sound(FindSlot(s, f, memory)) <==> Sound(s)
  {
    hide InOrder, Parted, ArrivedOnce, EarlyKept, Take, Skip, Sound;
    var i, t := FirstFree(s.slots, 0), FindSlot(s, f, memory);
    if s.open >= 0 || i >= SLOTS {
      SameSound(s, t);
    } else {
      assert SlotFits(s, i);
      OneSlotSound(s, t, i);
    }
  }

  lemma SameSound(s: State, t: State)
    requires t.slots == s.slots && t.lost == s.lost
    ensures Sound(t) <==> Sound(s)
  {
  }

  lemma StoreKeepsSound(s: State, v: Verdict)
    requires Inv(s) && Enabled(s, Store(v))
    ensures Sound(StoreFrame(s, v)) <==> Sound(s)
  {
    hide InOrder, Parted, ArrivedOnce, EarlyKept, Take, Skip;
    var t := StoreFrame(s, v);
    assert forall j :: 0 <= j < |s.slots| && j != s.open ==> t.slots[j] == s.slots[j];
    assert Exact(t.slots[s.open]) <==> Exact(s.slots[s.open]);
  }

  lemma ClearOwnerKeepsSound(s: State, t: State)
    requires Inv(s) && Takes(s, ClearOwner, t)
    ensures Sound(t) <==> Sound(s)
  {
    hide InOrder, Parted, ArrivedOnce, EarlyKept, Take, Skip, Sound;
    assert SlotFits(s, s.release.slot);
    OneSlotSound(s, t, s.release.slot);
  }

  lemma ClearCountKeepsSound(s: State, t: State)
    requires Inv(s) && Takes(s, ClearCount, t)
    ensures Sound(t) <==> Sound(s) && !ClearsLate(s, ClearCount)
  {
    hide InOrder, Parted, ArrivedOnce, EarlyKept, Take, Skip;
    var i := s.release.slot;
    assert forall j :: 0 <= j < |s.slots| && j != i ==> t.slots[j] == s.slots[j];
    assert Exact(t.slots[i]) <==> !ClearsLate(s, ClearCount);
    assert SlotFits(s, i);
  }

  lemma StepKeepsSound(s: State, e: Event, t: State)
    requires Inv(s) && Takes(s, e, t)
    ensures Sound(t) <==> Sound(s) && !ClearsLate(s, e)
  {
    hide Inv, Sound, FindSlot, StoreFrame, ReturnBuffers;
    match e
    case ReturnListed(i) => ReturnKeepsSound(s, i);
    case Arrive(f, memory) => ArriveKeepsSound(s, f, memory);
    case Store(v) => StoreKeepsSound(s, v);
    case ClearOwner => ClearOwnerKeepsSound(s, t);
    case ClearCount => ClearCountKeepsSound(s, t);
  }

  ghost predicate NothingClearedLate(events: seq<Event>, states: seq<State>, k: nat) {
    forall j: nat :: j < k ==> !LateClear(events, states, j)
  }

  lemma {:induction false} SoundIff(n: nat, events: seq<Event>, states: seq<State>, k: nat)
    requires 0 < n && IsRun(n, events, states) && k < |states|
    ensures Sound(states[k]) <==> NothingClearedLate(events, states, k)
  {
    hide IsRun, Inv, Takes, Sound, LateClear, ClearsLate, NothingClearedLate, Initial;
    RunStarts(n, events, states);
    if k == 0 {
      InitialSound(n, events, states);
    } else {
      SoundIff(n, events, states, k - 1);
      RunKeepsInv(n, events, states, k - 1);
      RunTakes(n, events, states, k - 1);
      StepKeepsSound(states[k - 1], events[k - 1], states[k]);
      LateIsClearsLate(n, events, states, k - 1);
      NothingLateSnoc(events, states, k - 1);
    }
  }

  lemma InitialSound(n: nat, events: seq<Event>, states: seq<State>)
    ensures Sound(Initial(n)) && NothingClearedLate(events, states, 0)
  {
  }

  lemma NothingLateSnoc(events: seq<Event>, states: seq<State>, k: nat)
    ensures NothingClearedLate(events, states, k + 1)
            <==> NothingClearedLate(events, states, k) && !LateClear(events, states, k)
  {
    hide LateClear;
  }

  lemma LateIsClearsLate(n: nat, events: seq<Event>, states: seq<State>, j: nat)
    requires 0 < n && IsRun(n, events, states) && j < |events| && j < |states|
    ensures LateClear(events, states, j) <==> ClearsLate(states[j], events[j])
  {
    if events[j].ClearCount? {
      LateClearIff(n, events, states, j);
    }
  }

  predicate NoneRefused(bs: seq<Batch>) {
    forall j :: 0 <= j < |bs| ==> !bs[j].verdict.Refused?
  }

  predicate EarlyExact(s: State) {
    s.early == multiset{} <==> NoneRefused(s.batches)
  }

  lemma StepKeepsEarlyExact(s: State, e: Event, t: State)
    requires Takes(s, e, t) && EarlyExact(s)
    ensures EarlyExact(t)
  {
    hide Take, Skip, FirstFree;
    if e.Store? && |t.batches| > |s.batches| {
      assert t.batches == s.batches + [t.batches[|s.batches|]];
      assert forall j :: 0 <= j < |s.batches| ==> t.batches[j] == s.batches[j];
      if e.verdict.Refused? {
        var fs := t.batches[|s.batches|].frames;
        assert fs[|fs| - 1] in t.early;
      }
    }
  }

  lemma {:induction false} RunKeepsEarlyExact(n: nat, events: seq<Event>, states: seq<State>, k: nat)
    requires IsRun(n, events, states) && k < |states|
    ensures EarlyExact(states[k])
  {
    RunStarts(n, events, states);
    if k == 0 {
      assert EarlyExact(Initial(n));
    }
    hide IsRun, EarlyExact, Takes;
    if k > 0 {
      RunKeepsEarlyExact(n, events, states, k - 1);
      RunTakes(n, events, states, k - 1);
      StepKeepsEarlyExact(states[k - 1], events[k - 1], states[k]);
    }
  }

  /** Slots whose counts cover their batches list what they hold. */
  lemma ExactListsHeld(slots: seq<Slot>, f: Frame)
    requires |slots| == SLOTS && forall i :: 0 <= i < SLOTS ==> Exact(slots[i])
    ensures Listed(slots, f) == Held(slots, f)
  {
    ExactListedBy(slots[0], f);
    ExactListedBy(slots[1], f);
    ExactListedBy(slots[2], f);
  }

  lemma ExactListedBy(slot: Slot, f: Frame)
    requires Exact(slot)
    ensures ListedBy(slot, f) == multiset(FramesOf(slot))[f]
  {
    if HasBatch(slot) {
      assert slot.frames[..slot.count] == slot.frames;
    }
  }

  lemma HeldAtLeast(slots: seq<Slot>, i: nat, f: Frame)
    requires |slots| == SLOTS && i < SLOTS && f in FramesOf(slots[i])
    ensures Held(slots, f) >= 1
  {
  }

  lemma AccountedWhen(s: State)
    requires Inv(s)
    ensures Accounted(s) <==> s.early == multiset{} && Sound(s)
  {
    hide InOrder, Shape, Held, Listed, Exact;
    assert |s.slots| == SLOTS by { ShapeHasSlots(s); }
    if forall i :: 0 <= i < SLOTS ==> Exact(s.slots[i]) {
      forall f
        ensures Listed(s.slots, f) == Held(s.slots, f)
        ensures f in s.early ==> Held(s.slots, f) >= 1
      {
        ExactListsHeld(s.slots, f);
        if f in s.early {
          var i: nat :| RefusedIn(s.slots, i, f);
          HeldAtLeast(s.slots, i, f);
        }
      }
      if Accounted(s) {
        forall f
          ensures s.early[f] == 0 && s.lost[f] == 0
        {
          assert s.arrived[f] == TimesReturned(s, f) + Listed(s.slots, f) + Bit(s.cb == Storing(f));
        }
      }
    }
  }

  lemma ShapeHasSlots(s: State)
    requires Shape(s)
    ensures |s.slots| == SLOTS
  {
  }

  /** Every slot lists its whole batch and every frame that arrived went back once or is listed once,
      if and only if the notifier refused no batch so far and no release cleared a count after a
      frame had been stored in the slot it had just given up. */
  lemma BuffersAccountedIff(n: nat, events: seq<Event>, states: seq<State>, k: nat)
    requires 0 < n && IsRun(n, events, states) && k < |states|
    ensures |states[k].slots| == SLOTS
    ensures Accounted(states[k])
            <==> && (forall j :: 0 <= j < |states[k].batches| ==> !states[k].batches[j].verdict.Refused?)
                 && (forall j: nat :: j < k ==> !LateClear(events, states, j))
  {
    RunKeepsInv(n, events, states, k);
    RunKeepsEarlyExact(n, events, states, k);
    SoundIff(n, events, states, k);
    AccountedWhen(states[k]);
    hide IsRun, Accounted, Sound, LateClear;
  }

  /** In any case: a frame that arrived was dropped, returned by a release, lost by one, is kept in a
      slot, or is being stored, exactly one of these. */
  lemma EveryFrameIsSomewhere(n: nat, events: seq<Event>, states: seq<State>, k: nat, f: Frame)
    requires 0 < n && IsRun(n, events, states) && k < |states|
    ensures var s := states[k];
            && |s.slots| == SLOTS
            && s.arrived[f] == s.dropped[f] + s.released[f] + s.lost[f] + Held(s.slots, f) + Bit(s.cb == Storing(f)) <= 1
  {
    RunKeepsInv(n, events, states, k);
  }

  // ----- when a count is right -----

  /** Event m opens slot i. */
  predicate Opens(states: seq<State>, m: nat, i: nat) {
    m + 1 < |states| && states[m].open != i && states[m + 1].open == i
  }

  predicate NotOpened(states: seq<State>, j: nat, k: nat, i: nat) {
    forall m: nat :: j < m < k ==> !Opens(states, m, i)
  }

  /** Among the first k events, the count of slot i was cleared late since the slot was opened. */
  ghost predicate ClearedSinceOpened(events: seq<Event>, states: seq<State>, k: nat, i: nat) {
    exists j: nat :: j < k && LateClear(events, states, j) && states[j].release == Unflagged(i) && NotOpened(states, j, k, i)
  }

  lemma ClearedStep(events: seq<Event>, states: seq<State>, k: nat, i: nat)
    requires k + 1 < |states|
    ensures ClearedSinceOpened(events, states, k + 1, i)
            <==> || (ClearedSinceOpened(events, states, k, i) && !Opens(states, k, i))
                 || (LateClear(events, states, k) && states[k].release == Unflagged(i))
  {
    hide LateClear, Opens;
    if ClearedSinceOpened(events, states, k + 1, i) {
      var j: nat :| j < k + 1 && LateClear(events, states, j) && states[j].release == Unflagged(i)
                    && NotOpened(states, j, k + 1, i);
      if j < k {
        assert NotOpened(states, j, k, i);
        assert !Opens(states, k, i);
      }
    }
    if ClearedSinceOpened(events, states, k, i) && !Opens(states, k, i) {
      var j: nat :| j < k && LateClear(events, states, j) && states[j].release == Unflagged(i)
                    && NotOpened(states, j, k, i);
      assert NotOpened(states, j, k + 1, i);
    }
    if LateClear(events, states, k) && states[k].release == Unflagged(i) {
      assert NotOpened(states, k, k + 1, i);
    }
  }

  /** What one step does to the count of a slot. */
  lemma CountStep(s: State, e: Event, t: State, i: nat)
    requires Inv(s) && Takes(s, e, t) && i < |t.slots| && HasBatch(t.slots[i])
    ensures i < |s.slots|
    ensures if s.open != i && t.open == i then Exact(t.slots[i]) && !ClearsLate(s, e)
            else (HasBatch(s.slots[i])
              && (Exact(t.slots[i]) <==> Exact(s.slots[i]) && !(ClearsLate(s, e) && s.release == Unflagged(i))))
  {
    hide InOrder, Parted, ArrivedOnce, EarlyKept, Take, Skip;
    StepKeepsSize(s, e);
    assert SlotFits(s, i);
    if s.open == -1 && e.Arrive? {
      var j := FirstFree(s.slots, 0);
      assert j < SLOTS ==> SlotFits(s, j);
    }
  }

  /** The count of a slot covers its whole batch exactly when it was not cleared late since the
      batch began. */
  lemma {:induction false} CountExactIff(n: nat, events: seq<Event>, states: seq<State>, k: nat, i: nat)
    requires 0 < n && IsRun(n, events, states) && k < |states| && i < |states[k].slots| && HasBatch(states[k].slots[i])
    ensures states[k].slots[i].count == |states[k].slots[i].frames| <==> !ClearedSinceOpened(events, states, k, i)
  {
    RunStarts(n, events, states);
    assert HasBatch(states[k].slots[i]) && !HasBatch(Free(0));
    hide IsRun, Inv, Takes, LateClear, ClearsLate, ClearedSinceOpened, HasBatch;
    RunTakes(n, events, states, k - 1);
    RunKeepsInv(n, events, states, k - 1);
    CountStep(states[k - 1], events[k - 1], states[k], i);
    ClearedStep(events, states, k - 1, i);
    LateIsClearsLate(n, events, states, k - 1);
    ExactMeans(states[k].slots[i]);
    if !Opens(states, k - 1, i) {
      CountExactIff(n, events, states, k - 1, i);
      ExactMeans(states[k - 1].slots[i]);
    } else {
      assert !LateClear(events, states, k - 1);
    }
  }

  lemma ExactMeans(slot: Slot)
    requires HasBatch(slot)
    ensures Exact(slot) <==> slot.count == |slot.frames|
  {
  }

  // ----- when frames are accepted -----

  /** A slot that no step can free: stuck, or closed and not handed over, or closed with a count that
      is zero or about to be cleared, so that its release will leave it stuck. */
  predicate Dead(s: State, i: nat) {
    i < |s.slots| &&
    (s.slots[i].Stuck? ||
     (s.slots[i].Closed? && (!s.slots[i].verdict.HandedOver? || s.slots[i].count == 0 || s.release == Unflagged(i))))
  }

  lemma DeadStep(s: State, e: Event, t: State, i: nat)
    requires Inv(s) && Takes(s, e, t) && Dead(s, i)
    ensures Dead(t, i) && FramesOf(t.slots[i]) == FramesOf(s.slots[i])
  {
    hide InOrder, Parted, ArrivedOnce, EarlyKept, Take, Skip;
    StepKeepsSize(s, e);
    assert SlotFits(s, i);
    if s.open == -1 && e.Arrive? {
      assert FirstFree(s.slots, 0) < SLOTS ==> FirstFree(s.slots, 0) != i;
    }
  }

  /** Such a slot, also one whose batch was not handed over, keeps its frames for the rest of the run. */
  lemma {:induction false} DeadForever(n: nat, events: seq<Event>, states: seq<State>, k: nat, j: nat, i: nat)
    requires 0 < n && IsRun(n, events, states) && k <= j < |states| && Dead(states[k], i)
    ensures Dead(states[j], i) && FramesOf(states[j].slots[i]) == FramesOf(states[k].slots[i])
    decreases j - k
  {
    hide IsRun, Inv, Takes;
    if k < j {
      RunStarts(n, events, states);
      DeadForever(n, events, states, k, j - 1, i);
      RunKeepsInv(n, events, states, j - 1);
      RunTakes(n, events, states, j - 1);
      DeadStep(states[j - 1], events[j - 1], states[j], i);
    }
  }

  ghost predicate AllDead(s: State) {
    |s.slots| == SLOTS && forall i: nat :: i < SLOTS ==> Dead(s, i)
  }

  lemma DeadIsBusy(s: State, i: nat)
    requires Inv(s) && Dead(s, i)
    ensures |s.slots| == SLOTS && s.open != i && s.open >= -1 && Owned(s.slots[i])
  {
    hide InOrder, Parted, ArrivedOnce, EarlyKept;
    assert SlotFits(s, i);
  }

  lemma BusyStep(s: State, e: Event, t: State)
    requires Takes(s, e, t) && |s.slots| == SLOTS && s.open == -1
    requires forall i: nat :: i < SLOTS ==> Owned(s.slots[i])
    ensures t.accepted == s.accepted && (e.Arrive? ==> e.frame in t.dropped)
  {
    hide Take, Skip, Owned;
  }

  lemma AllDeadStep(s: State, e: Event, t: State)
    requires Inv(s) && Takes(s, e, t) && AllDead(s)
    ensures AllDead(t) && t.accepted == s.accepted && (e.Arrive? ==> e.frame in t.dropped)
  {
    assert |t.slots| == SLOTS by { StepKeepsSize(s, e); }
    hide Inv, Takes, Dead, Owned;
    forall i: nat | i < SLOTS
      ensures Dead(t, i) && s.open != i && s.open >= -1 && Owned(s.slots[i])
    {
      assert Dead(s, i);
      DeadIsBusy(s, i);
      DeadStep(s, e, t, i);
    }
    assert s.open == -1 by {
      OpenInRange(s);
      assert s.open != 0 && s.open != 1 && s.open != 2;
    }
    BusyStep(s, e, t);
  }

  lemma OpenInRange(s: State)
    requires Inv(s)
    ensures -1 <= s.open < SLOTS
  {
  }

  /** Once every slot is dead, no frame is accepted again: each that arrives is dropped. */
  lemma {:induction false} AllDeadDropsEverything(n: nat, events: seq<Event>, states: seq<State>, k: nat, j: nat)
    requires 0 < n && IsRun(n, events, states) && k <= j < |states| && AllDead(states[k])
    ensures AllDead(states[j]) && states[j].accepted == states[k].accepted
    decreases j - k
  {
    hide IsRun, Inv, Takes, AllDead;
    if k < j {
      RunStarts(n, events, states);
      AllDeadDropsEverything(n, events, states, k, j - 1);
      RunKeepsInv(n, events, states, j - 1);
      RunTakes(n, events, states, j - 1);
      AllDeadStep(states[j - 1], events[j - 1], states[j]);
    }
  }

  // ---------- continuing a run ----------

  /** The longer run goes on from where the shorter one ends. */
  ghost predicate GoesOn(n: nat, events: seq<Event>, states: seq<State>, es: seq<Event>, ss: seq<State>) {
    IsRun(n, es, ss) && events <= es && states <= ss && states != []
  }

  function Last(states: seq<State>): State
    requires states != []
  {
    states[|states| - 1]
  }

  lemma RunExtends(n: nat, events: seq<Event>, states: seq<State>, e: Event)
    requires IsRun(n, events, states) && Enabled(states[|events|], e)
    ensures IsRun(n, events + [e], states + [Apply(states[|events|], e)])
  {
    hide Apply, Enabled;
    var es, ss := events + [e], states + [Apply(states[|events|], e)];
    forall i: nat | i < |es|
      ensures Linked(es, ss, i)
    {
      if i < |events| {
        assert Linked(events, states, i);
      } else {
        assert Takes(ss[i], es[i], ss[i + 1]);
      }
    }
  }

  lemma GoesOnNonempty(n: nat, e0: seq<Event>, s0: seq<State>, events: seq<Event>, states: seq<State>)
    requires GoesOn(n, e0, s0, events, states)
    ensures |states| == |events| + 1
  {
  }

  /** One more step. */
  lemma OneMore(n: nat, e0: seq<Event>, s0: seq<State>, events: seq<Event>, states: seq<State>, e: Event, t: State)
    returns (es: seq<Event>, ss: seq<State>)
    requires GoesOn(n, e0, s0, events, states) && states != []
    requires Enabled(Last(states), e) && t == Apply(Last(states), e)
    ensures GoesOn(n, e0, s0, es, ss) && ss != [] && Last(ss) == t
  {
    GoesOnNonempty(n, e0, s0, events, states);
    hide IsRun, Apply, Enabled;
    RunExtends(n, events, states, e);
    es, ss := events + [e], states + [t];
  }

  lemma LastInv(n: nat, e0: seq<Event>, s0: seq<State>, events: seq<Event>, states: seq<State>)
    requires 0 < n && GoesOn(n, e0, s0, events, states) && states != []
    ensures Inv(Last(states)) && Last(states).n == n
  {
    RunKeepsInv(n, events, states, |states| - 1);
  }

  /** The releasing thread finishes what it has begun. */
  lemma FinishRelease(n: nat, e0: seq<Event>, s0: seq<State>, events: seq<Event>, states: seq<State>)
    returns (es: seq<Event>, ss: seq<State>)
    requires 0 < n && GoesOn(n, e0, s0, events, states) && states != [] && !AllDead(Last(states))
    ensures GoesOn(n, e0, s0, es, ss) && ss != []
    ensures var s, t := Last(states), Last(ss);
            !AllDead(t) && t.release.NoRelease? && t.cb == s.cb && t.open == s.open && t.accepted == s.accepted
  {
    es, ss := events, states;
    if Last(ss).release.Returned? {
      LastInv(n, e0, s0, es, ss);
      var s := Last(ss);
      ClearOwnerSpares(s);
      hide GoesOn, Inv, AllDead, Apply;
      es, ss := OneMore(n, e0, s0, es, ss, ClearOwner, Apply(s, ClearOwner));
    }
    if Last(ss).release.Unflagged? {
      LastInv(n, e0, s0, es, ss);
      var s := Last(ss);
      ClearCountSpares(s);
      hide GoesOn, Inv, AllDead, Apply;
      es, ss := OneMore(n, e0, s0, es, ss, ClearCount, Apply(s, ClearCount));
    }
  }

  lemma ClearOwnerSpares(s: State)
    requires Inv(s) && s.release.Returned? && !AllDead(s)
    ensures Enabled(s, ClearOwner)
    ensures var t := Apply(s, ClearOwner);
            !AllDead(t) && t.release.Unflagged? && t.cb == s.cb && t.open == s.open && t.accepted == s.accepted
  {
    var t := Apply(s, ClearOwner);
    assert !Dead(t, s.release.slot);
  }

  lemma ClearCountSpares(s: State)
    requires Inv(s) && s.release.Unflagged? && !AllDead(s)
    ensures Enabled(s, ClearCount)
    ensures var t := Apply(s, ClearCount);
            !AllDead(t) && t.release.NoRelease? && t.cb == s.cb && t.open == s.open && t.accepted == s.accepted
  {
    var t := Apply(s, ClearCount);
    var i: nat :| i < SLOTS && !Dead(s, i);
    assert SlotFits(s, i);
    assert !Dead(t, i);
  }

  /** With no batch open, the consumer releases a slot it was handed, unless one is free already. */
  lemma FreeASlot(n: nat, e0: seq<Event>, s0: seq<State>, events: seq<Event>, states: seq<State>)
    returns (es: seq<Event>, ss: seq<State>)
    requires 0 < n && GoesOn(n, e0, s0, events, states) && states != [] && !AllDead(Last(states))
    requires Last(states).release.NoRelease? && Last(states).open == -1 && Last(states).cb.Waiting?
    ensures GoesOn(n, e0, s0, es, ss) && ss != []
    ensures var t := Last(ss);
            && t.open == -1 && t.cb.Waiting? && t.accepted == Last(states).accepted
            && FirstFree(t.slots, 0) < |t.slots|
  {
    es, ss := events, states;
    var s := Last(states);
    LastInv(n, e0, s0, es, ss);
    if FirstFree(s.slots, 0) == |s.slots| {
      var i := Releasable(s);
      ReleaseFrees(s, i);
      hide GoesOn, Inv, AllDead, Apply, Enabled, FirstFree;
      var t := Apply(s, ReturnListed(i));
      es, ss := OneMore(n, e0, s0, es, ss, ReturnListed(i), t);
      es, ss := OneMore(n, e0, s0, es, ss, ClearOwner, Apply(t, ClearOwner));
    }
  }

  lemma ReleaseFrees(s: State, i: nat)
    requires i < SLOTS == |s.slots| && Enabled(s, ReturnListed(i)) && s.slots[i].count > 0
    ensures var t := Apply(s, ReturnListed(i));
            Enabled(t, ClearOwner) && var u := Apply(t, ClearOwner);
            && u.open == s.open && u.cb == s.cb && u.accepted == s.accepted
            && FirstFree(u.slots, 0) < |u.slots|
  {
    var t := ReturnBuffers(s, i);
    var u := Apply(t, ClearOwner);
    assert !Owned(u.slots[i]);
  }

  lemma Releasable(s: State) returns (i: nat)
    requires Inv(s) && !AllDead(s) && s.release.NoRelease? && s.open == -1 && FirstFree(s.slots, 0) == |s.slots|
    ensures i < SLOTS == |s.slots| && Enabled(s, ReturnListed(i)) && s.slots[i].count > 0
  {
    i :| i < SLOTS && !Dead(s, i);
    assert SlotFits(s, i) && Owned(s.slots[i]);
  }

  /** The frame that is being stored is stored. */
  lemma StoreNow(n: nat, e0: seq<Event>, s0: seq<State>, events: seq<Event>, states: seq<State>)
    returns (es: seq<Event>, ss: seq<State>)
    requires 0 < n && GoesOn(n, e0, s0, events, states) && states != [] && Last(states).cb.Storing?
    ensures GoesOn(n, e0, s0, es, ss) && ss != []
    ensures var s, t := Last(states), Last(ss);
            && t.accepted == s.accepted + [s.cb.frame] && t.cb.Waiting? && t.release == s.release
            && (s.release.NoRelease? ==> !AllDead(t))
  {
    LastInv(n, e0, s0, events, states);
    var s := Last(states);
    StoreSpares(s);
    hide GoesOn, Inv, AllDead, Apply;
    es, ss := OneMore(n, e0, s0, events, states, Store(HandedOver), Apply(s, Store(HandedOver)));
  }

  lemma StoreSpares(s: State)
    requires Inv(s) && s.cb.Storing?
    ensures Enabled(s, Store(HandedOver))
    ensures var t := Apply(s, Store(HandedOver));
            && t.accepted == s.accepted + [s.cb.frame] && t.cb.Waiting? && t.release == s.release
            && (s.release.NoRelease? ==> !AllDead(t))
  {
    var t := Apply(s, Store(HandedOver));
    assert s.release.NoRelease? ==> !Dead(t, s.open);
  }

  /** A frame arrives and a slot is there for it. */
  lemma ArriveNow(n: nat, e0: seq<Event>, s0: seq<State>, events: seq<Event>, states: seq<State>, f: Frame)
    returns (es: seq<Event>, ss: seq<State>)
    requires GoesOn(n, e0, s0, events, states) && states != [] && Last(states).cb.Waiting?
    requires Last(states).open >= 0 || FirstFree(Last(states).slots, 0) < |Last(states).slots|
    ensures GoesOn(n, e0, s0, es, ss) && ss != []
    ensures Last(ss).accepted == Last(states).accepted && Last(ss).cb == Storing(f.(id := Last(states).arrivals))
  {
    var s := Last(states);
    var e := Arrive(f.(id := s.arrivals), true);
    hide GoesOn, FirstFree;
    es, ss := OneMore(n, e0, s0, events, states, e, Apply(s, e));
  }

  /** As long as one slot is not dead, any frame can still be accepted as it next arrives. */
  lemma AcceptsAgain(n: nat, events: seq<Event>, states: seq<State>, f: Frame)
    returns (es: seq<Event>, ss: seq<State>)
    requires 0 < n && IsRun(n, events, states) && states != [] && !AllDead(Last(states))
    ensures GoesOn(n, events, states, es, ss) && ss != []
    ensures var before, after := Last(states).accepted, Last(ss).accepted;
            |after| > |before| && after[|after| - 1].(id := f.id) == f
  {
    es, ss := FinishRelease(n, events, states, events, states);
    hide IsRun, GoesOn, AllDead, FirstFree;
    if Last(ss).cb.Storing? {
      es, ss := StoreNow(n, events, states, es, ss);
    }
    LastInv(n, events, states, es, ss);
    OpenOrNot(Last(ss));
    if Last(ss).open == -1 {
      es, ss := FreeASlot(n, events, states, es, ss);
    }
    es, ss := ArriveNow(n, events, states, es, ss, f);
    es, ss := StoreNow(n, events, states, es, ss);
  }

  lemma OpenOrNot(s: State)
    requires Inv(s)
    ensures s.open >= -1
  {
  }

  /** From any state of a run a frame can still be accepted if and only if not every slot is dead. */
  lemma AcceptsAgainIff(n: nat, events: seq<Event>, states: seq<State>)
    requires 0 < n && IsRun(n, events, states) && states != []
    ensures (exists es, ss :: GoesOn(n, events, states, es, ss) && ss != [] && |Last(ss).accepted| > |Last(states).accepted|)
            <==> !AllDead(Last(states))
  {
    if AllDead(Last(states)) {
      forall es, ss | GoesOn(n, events, states, es, ss) && ss != []
        ensures Last(ss).accepted == Last(states).accepted
      {
        AllDeadDropsEverything(n, es, ss, |states| - 1, |ss| - 1);
      }
    } else {
      var f := Frame(0, 0, 0, 0, 0, 0, 0);
      var es, ss := AcceptsAgain(n, events, states, f);
    }
  }

  // ---------- runs that fail ----------

  /** The stream thread is about to store a frame in slot i, behind k others of which the slot
      counts c. */
  predicate Ready(s: State, i: nat, k: nat, c: nat) {
    && i < |s.slots| && s.open == i && s.cb.Storing? && s.slots[i].Filling?
    && |s.slots[i].frames| == k < s.n && s.slots[i].count == c
  }

  /** What has not changed since s but slot i: the other slots, the releasing thread, what is lost. */
  predicate SameBut(s: State, t: State, i: nat) {
    && |t.slots| == |s.slots| && t.n == s.n && t.release == s.release && t.lost == s.lost && t.strays == s.strays
    && t.released == s.released
    && (forall j :: 0 <= j < |s.slots| && j != i ==> t.slots[j] == s.slots[j])
  }

  lemma SameButTrans(s: State, t: State, u: State, i: nat)
    requires SameBut(s, t, i) && SameBut(t, u, i)
    ensures SameBut(s, u, i)
  {
  }

  /** The batch in slot i is complete, with this count and verdict. */
  predicate Complete(s: State, i: nat, c: nat, v: Verdict) {
    && i < |s.slots| && s.open == -1 && s.cb.Waiting? && s.slots[i].Closed?
    && |s.slots[i].frames| == s.n && s.slots[i].count == c && s.slots[i].verdict == v
    && s.batches != [] && s.batches[|s.batches| - 1] == Batch(i, s.slots[i].frames, v)
  }

  /** The next frame, in a buffer of its own as long as there are any. */
  function NextFrame(s: State): Frame {
    Frame(s.arrivals, if s.arrivals < 256 then s.arrivals else 0, 0, 0, 0, 0, 0)
  }

  lemma BeginState(s: State, i: nat)
    requires s.open == -1 && s.cb.Waiting? && i == FirstFree(s.slots, 0) < |s.slots| && 0 < s.n
    ensures Enabled(s, Arrive(NextFrame(s), true))
    ensures var t := Apply(s, Arrive(NextFrame(s), true));
            Ready(t, i, 0, 0) && SameBut(s, t, i) && t.batches == s.batches
  {
  }

  /** With no batch open a frame comes for the first free slot. */
  lemma Begin(n: nat, e0: seq<Event>, s0: seq<State>, events: seq<Event>, states: seq<State>, i: nat)
    returns (es: seq<Event>, ss: seq<State>)
    requires GoesOn(n, e0, s0, events, states) && states != [] && 0 < Last(states).n
    requires Last(states).open == -1 && Last(states).cb.Waiting?
    requires i == FirstFree(Last(states).slots, 0) < |Last(states).slots|
    ensures GoesOn(n, e0, s0, es, ss) && ss != []
    ensures Ready(Last(ss), i, 0, 0) && SameBut(Last(states), Last(ss), i) && Last(ss).batches == Last(states).batches
  {
    var s := Last(states);
    var e := Arrive(NextFrame(s), true);
    BeginState(s, i);
    hide GoesOn, FirstFree, Apply, Ready, SameBut;
    es, ss := OneMore(n, e0, s0, events, states, e, Apply(s, e));
  }

  /** From s to t a frame was stored behind k others of which slot i counts c. */
  predicate Stored(s: State, t: State, i: nat, k: nat, c: nat, v: Verdict) {
    && SameBut(s, t, i) && |s.batches| <= |t.batches| && t.batches[..|s.batches|] == s.batches
    && (k + 1 == s.n ==> Complete(t, i, c + 1, v) && |t.batches| == |s.batches| + 1)
    && (k + 1 != s.n ==>
          && i < |t.slots| && t.open == i && t.cb.Waiting? && t.slots[i].Filling?
          && |t.slots[i].frames| == k + 1 && t.slots[i].count == c + 1 && t.batches == s.batches)
  }

  lemma StoreState(s: State, i: nat, k: nat, c: nat, v: Verdict)
    requires Ready(s, i, k, c)
    ensures Enabled(s, Store(v)) && Stored(s, Apply(s, Store(v)), i, k, c, v)
  {
  }

  /** The frame is stored, and the batch goes on or is complete. */
  lemma StoreIt(n: nat, e0: seq<Event>, s0: seq<State>, events: seq<Event>, states: seq<State>,
                i: nat, k: nat, c: nat, v: Verdict)
    returns (es: seq<Event>, ss: seq<State>)
    requires GoesOn(n, e0, s0, events, states) && states != [] && Ready(Last(states), i, k, c)
    ensures GoesOn(n, e0, s0, es, ss) && ss != [] && Stored(Last(states), Last(ss), i, k, c, v)
  {
    var s := Last(states);
    StoreState(s, i, k, c, v);
    hide GoesOn, Apply, Enabled, Ready, Stored;
    es, ss := OneMore(n, e0, s0, events, states, Store(v), Apply(s, Store(v)));
  }

  lemma ArriveState(s: State, i: nat)
    requires i < |s.slots| && s.open == i && s.cb.Waiting? && s.slots[i].Filling? && |s.slots[i].frames| < s.n
    ensures Enabled(s, Arrive(NextFrame(s), true))
    ensures var t := Apply(s, Arrive(NextFrame(s), true));
            Ready(t, i, |s.slots[i].frames|, s.slots[i].count) && SameBut(s, t, i) && t.batches == s.batches
  {
  }

  /** One more frame comes for the open batch. */
  lemma ArriveIt(n: nat, e0: seq<Event>, s0: seq<State>, events: seq<Event>, states: seq<State>, i: nat)
    returns (es: seq<Event>, ss: seq<State>)
    requires GoesOn(n, e0, s0, events, states) && states != []
    requires var s := Last(states);
             i < |s.slots| && s.open == i && s.cb.Waiting? && s.slots[i].Filling? && |s.slots[i].frames| < s.n
    ensures GoesOn(n, e0, s0, es, ss) && ss != []
    ensures var s, t := Last(states), Last(ss);
            Ready(t, i, |s.slots[i].frames|, s.slots[i].count) && SameBut(s, t, i) && t.batches == s.batches
  {
    var s := Last(states);
    var e := Arrive(NextFrame(s), true);
    ArriveState(s, i);
    hide GoesOn, Apply, Enabled, Ready, SameBut;
    es, ss := OneMore(n, e0, s0, events, states, e, Apply(s, e));
  }

  /** The batch is filled up and closed with a verdict; its count stays short by what it was. */
  lemma {:induction false} Finish(n: nat, e0: seq<Event>, s0: seq<State>, events: seq<Event>, states: seq<State>,
                                  i: nat, k: nat, c: nat, v: Verdict)
    returns (es: seq<Event>, ss: seq<State>)
    requires GoesOn(n, e0, s0, events, states) && states != []
    requires Last(states).n == n && Ready(Last(states), i, k, c) && c <= k
    ensures GoesOn(n, e0, s0, es, ss) && ss != []
    ensures var s, t := Last(states), Last(ss);
            && SameBut(s, t, i) && Complete(t, i, n - k + c, v)
            && |t.batches| == |s.batches| + 1 && t.batches[..|s.batches|] == s.batches
    decreases n - k
  {
    var s := Last(states);
    ReadyFits(s, i, k, c);
    es, ss := StoreIt(n, e0, s0, events, states, i, k, c, v);
    if k + 1 < n {
      var t := Last(ss);
      SameButSize(s, t, i);
      hide GoesOn, Ready, SameBut, Complete;
      es, ss := ArriveIt(n, e0, s0, es, ss, i);
      var u := Last(ss);
      SameButTrans(s, t, u, i);
      SameButSize(s, u, i);
      es, ss := Finish(n, e0, s0, es, ss, i, k + 1, c + 1, v);
      SameButTrans(s, u, Last(ss), i);
    }
  }

  lemma ReadyFits(s: State, i: nat, k: nat, c: nat)
    requires Ready(s, i, k, c)
    ensures k < s.n
  {
  }

  lemma SameButSize(s: State, t: State, i: nat)
    requires SameBut(s, t, i)
    ensures t.n == s.n && |t.slots| == |s.slots|
  {
  }

  /** A whole batch, from the first free slot. */
  lemma WholeBatch(n: nat, e0: seq<Event>, s0: seq<State>, events: seq<Event>, states: seq<State>, i: nat, v: Verdict)
    returns (es: seq<Event>, ss: seq<State>)
    requires 0 < n && GoesOn(n, e0, s0, events, states) && states != [] && Last(states).n == n
    requires Last(states).open == -1 && Last(states).cb.Waiting?
    requires i == FirstFree(Last(states).slots, 0) < |Last(states).slots|
    ensures GoesOn(n, e0, s0, es, ss) && ss != []
    ensures var s, t := Last(states), Last(ss);
            && SameBut(s, t, i) && Complete(t, i, n, v)
            && |t.batches| == |s.batches| + 1 && t.batches[..|s.batches|] == s.batches
  {
    hide GoesOn, Ready, SameBut, Complete, FirstFree;
    es, ss := Begin(n, e0, s0, events, states, i);
    var t := Last(ss);
    SameButSize(Last(states), t, i);
    es, ss := Finish(n, e0, s0, es, ss, i, 0, 0, v);
    SameButTrans(Last(states), t, Last(ss), i);
  }

  lemma Start(n: nat)
    ensures GoesOn(n, [], [Initial(n)], [], [Initial(n)]) && Last([Initial(n)]) == Initial(n)
    ensures FirstFree(Initial(n).slots, 0) == 0
  {
  }

  lemma FirstFreeIs(slots: seq<Slot>, i: nat)
    requires i <= |slots| && (i < |slots| ==> !Owned(slots[i]))
    requires forall j: nat :: j < i ==> Owned(slots[j])
    ensures FirstFree(slots, 0) == i
  {
  }

  /** For every batch size a run miscounts a buffer: its first batch is refused. */
  lemma RefusalMiscounts(n: nat) returns (events: seq<Event>, states: seq<State>)
    requires 0 < n
    ensures IsRun(n, events, states) && states != [] && |Last(states).slots| == SLOTS
    ensures !Accounted(Last(states)) && Sound(Last(states))
  {
    Start(n);
    events, states := WholeBatch(n, [], [Initial(n)], [], [Initial(n)], 0, Refused);
    var t, k := Last(states), |states| - 1;
    assert t.batches[0].verdict.Refused?;
    hide IsRun, Accounted, LateClear;
    BuffersAccountedIff(n, events, states, k);
    assert Sound(t) by {
      SoundAfter(Initial(n), t, 0);
    }
  }

  lemma SoundAfter(s: State, t: State, i: nat)
    requires Sound(s) && SameBut(s, t, i) && i < |t.slots| && Exact(t.slots[i])
    ensures Sound(t)
  {
  }

  /** For every batch size every slot of a run dies: three batches while the callback is disabled. */
  lemma AllSlotsDie(n: nat) returns (events: seq<Event>, states: seq<State>)
    requires 0 < n
    ensures IsRun(n, events, states) && states != [] && AllDead(Last(states))
  {
    var e0, s0 := [], [Initial(n)];
    Start(n);
    events, states := WholeBatch(n, e0, s0, e0, s0, 0, Disabled);
    var t := Last(states);
    FirstFreeIs(t.slots, 1);
    events, states := WholeBatch(n, e0, s0, events, states, 1, Disabled);
    var u := Last(states);
    FirstFreeIs(u.slots, 2);
    events, states := WholeBatch(n, e0, s0, events, states, 2, Disabled);
    var w := Last(states);
    assert Dead(w, 0) && Dead(w, 1) && Dead(w, 2);
  }

  /** The consumer releases slot i: its listed buffers are back and its owner flag is cleared. */
  predicate GivenUp(s: State, t: State, i: nat) {
    && i < |s.slots| == |t.slots| && t.n == s.n && t.open == -1 && t.cb.Waiting? && t.release == Unflagged(i)
    && t.slots[i].Free? && t.batches == s.batches && t.strays == s.strays
    && (forall j :: 0 <= j < |s.slots| && j != i ==> t.slots[j] == s.slots[j])
    && (s.slots[i].Closed? ==> t.lost == s.lost + multiset(Skip(s.slots[i].frames, s.slots[i].count)))
  }

  lemma GiveUp(n: nat, e0: seq<Event>, s0: seq<State>, events: seq<Event>, states: seq<State>, i: nat, c: nat)
    returns (es: seq<Event>, ss: seq<State>)
    requires GoesOn(n, e0, s0, events, states) && states != []
    requires Complete(Last(states), i, c, HandedOver) && c > 0 && Last(states).release.NoRelease?
    ensures GoesOn(n, e0, s0, es, ss) && ss != [] && GivenUp(Last(states), Last(ss), i)
  {
    hide GoesOn;
    var s := Last(states);
    var t := ReturnBuffers(s, i);
    es, ss := OneMore(n, e0, s0, events, states, ReturnListed(i), t);
    var u := t.(slots := t.slots[i := Free(c)], release := Unflagged(i));
    es, ss := OneMore(n, e0, s0, es, ss, ClearOwner, u);
  }

  /** Nothing is refused, and slot 0 has a complete batch, was released, and has lost its owner flag
      but not its count. */
  lemma RunToGivenUp(n: nat) returns (es: seq<Event>, ss: seq<State>)
    requires 0 < n
    ensures GoesOn(n, [], [Initial(n)], es, ss) && ss != []
    ensures var t := Last(ss);
            && t.n == n && t.open == -1 && t.cb.Waiting? && t.release == Unflagged(0) && |t.slots| == SLOTS
            && FirstFree(t.slots, 0) == 0 && t.lost == multiset{} && t.strays == 0
            && |t.batches| == 1 && NoneRefused(t.batches)
  {
    Start(n);
    es, ss := WholeBatch(n, [], [Initial(n)], [], [Initial(n)], 0, HandedOver);
    var s := Last(ss);
    assert s.batches == [s.batches[0]];
    es, ss := GiveUp(n, [], [Initial(n)], es, ss, 0, n);
    FirstFreeIs(Last(ss).slots, 0);
    assert Skip(s.slots[0].frames, n) == [];
  }

  /** A lost frame: it arrived, and it neither went back nor is it listed anywhere. */
  predicate Gone(s: State, f: Frame) {
    && |s.slots| == SLOTS && s.arrived[f] == 1 && TimesReturned(s, f) == 0 && Listed(s.slots, f) == 0
    && s.cb != Storing(f)
  }

  lemma LostIsGone(s: State, f: Frame)
    requires Inv(s) && f in s.lost
    ensures Gone(s, f)
  {
    hide InOrder, Listed, Held;
    assert s.arrived[f] <= 1;
    assert s.arrived[f] == s.dropped[f] + s.released[f] + s.lost[f] + Held(s.slots, f) + Bit(s.cb == Storing(f));
    ListedAtMostHeld(s.slots, f);
    if f in s.early {
      var i: nat :| RefusedIn(s.slots, i, f);
      HeldAtLeast(s.slots, i, f);
      assert false;
    }
  }

  lemma ListedAtMostHeld(slots: seq<Slot>, f: Frame)
    requires |slots| == SLOTS
    ensures Listed(slots, f) <= Held(slots, f)
  {
    forall i | 0 <= i < SLOTS
      ensures ListedBy(slots[i], f) <= multiset(FramesOf(slots[i]))[f]
    {
      if HasBatch(slots[i]) {
        CountSplit(slots[i].frames, slots[i].count, f);
      }
    }
  }

  /** Slot 0 has been taken again for one frame when the release clears its count, and the batch is
      completed nevertheless. */
  lemma RunToShortCount(n: nat) returns (es: seq<Event>, ss: seq<State>)
    requires 2 <= n
    ensures GoesOn(n, [], [Initial(n)], es, ss) && ss != []
    ensures var t := Last(ss);
            Complete(t, 0, n - 1, HandedOver) && t.n == n && t.release.NoRelease? && NoneRefused(t.batches)
  {
    var e0, s0 := [], [Initial(n)];
    es, ss := RunToGivenUp(n);
    hide GoesOn, FirstFree;
    var s := Last(ss);
    es, ss := Begin(n, e0, s0, es, ss, 0);
    es, ss := StoreIt(n, e0, s0, es, ss, 0, 0, 0, HandedOver);
    var u := Last(ss);
    assert u.batches == s.batches && u.release == Unflagged(0);
    var w := u.(slots := u.slots[0 := Filling(u.slots[0].frames, 0)], release := NoRelease);
    es, ss := OneMore(n, e0, s0, es, ss, ClearCount, w);
    es, ss := ArriveIt(n, e0, s0, es, ss, 0);
    var x := Last(ss);
    es, ss := Finish(n, e0, s0, es, ss, 0, 1, 0, HandedOver);
    var t := Last(ss);
    assert t.batches == x.batches + [t.batches[|x.batches|]];
  }

  /** For every batch size from 2 on, with nothing refused, a run loses a frame for good. */
  lemma LateClearLosesFrame(n: nat) returns (events: seq<Event>, states: seq<State>, f: Frame)
    requires 2 <= n
    ensures IsRun(n, events, states) && states != []
    ensures NoneRefused(Last(states).batches) && Gone(Last(states), f)
  {
    events, states := RunToShortCount(n);
    var s := Last(states);
    f := s.slots[0].frames[n - 1];
    var t := ReturnBuffers(s, 0);
    assert f == Skip(s.slots[0].frames, n - 1)[0];
    assert f in t.lost;
    hide GoesOn, Complete;
    events, states := OneMore(n, [], [Initial(n)], events, states, ReturnListed(0), t);
    LastInv(n, [], [Initial(n)], events, states);
    LostIsGone(t, f);
    assert IsRun(n, events, states) by {
      GoesOnIsRun(n, [], [Initial(n)], events, states);
    }
  }

  lemma GoesOnIsRun(n: nat, e0: seq<Event>, s0: seq<State>, events: seq<Event>, states: seq<State>)
    requires GoesOn(n, e0, s0, events, states)
    ensures IsRun(n, events, states)
  {
  }

  /** For every batch size, with nothing refused, a run leaves a slot stuck: the count is cleared
      only when the next batch is complete, and the release of that batch returns a stray buffer. */
  lemma LateClearSticksSlot(n: nat) returns (events: seq<Event>, states: seq<State>)
    requires 0 < n
    ensures IsRun(n, events, states) && states != []
    ensures var s := Last(states); NoneRefused(s.batches) && |s.slots| == SLOTS && s.slots[0].Stuck? && s.strays == 1
  {
    var e0, s0 := [], [Initial(n)];
    events, states := RunToGivenUp(n);
    var s := Last(states);
    events, states := WholeBatch(n, e0, s0, events, states, 0, HandedOver);
    hide GoesOn, FirstFree;
    var t := Last(states);
    assert t.batches == s.batches + [t.batches[|s.batches|]];
    var u := t.(slots := t.slots[0 := Closed(t.slots[0].frames, 0, HandedOver)], release := NoRelease);
    events, states := OneMore(n, e0, s0, events, states, ClearCount, u);
    events, states := OneMore(n, e0, s0, events, states, ReturnListed(0), ReturnBuffers(u, 0));
    GoesOnIsRun(n, e0, s0, events, states);
  }

  // ---------- the native handle ----------

  /** Conversion to a 32-bit int. */
  function Int32(x: int): int {
    (x + 0x8000_0000) % 0x1_0000_0000 - 0x8000_0000
  }

  /** A value that does not fit keeps its low 32 bits. */
  lemma Int32Wraps(x: int)
    ensures -0x8000_0000 <= Int32(x) <= 0x7fff_ffff && (Int32(x) - x) % 0x1_0000_0000 == 0
  {
  }

  predicate FitsInt32(x: int) { -0x8000_0000 <= x < 0x8000_0000 }

  /** The j-th of the six values kept for a frame. */
  function FieldOf(f: Frame, j: nat, first: int): int {
    if j == 0 then f.fd
    else if j == 1 then 0
    else if j == 2 then Int32(f.size)
    else if j == 3 then f.usage
    else if j == 4 then Int32(f.ts - first)
    else f.format
  }

  /** Where value j of frame k stands: the fields are interleaved by n. */
  function Place(n: nat, j: nat, k: nat): nat { k + n * j }

  lemma PlacesAreApart(n: nat, j: nat, k: nat, j': nat, k': nat)
    requires j < 6 && k < n && j' < 6 && k' < n
    ensures Place(n, j, k) < 6 * n
    ensures Place(n, j, k) == Place(n, j', k') ==> j == j' && k == k'
  {
    if j < j' {
      assert n * j' >= n * (j + 1);
    } else if j' < j {
      assert n * j >= n * (j' + 1);
    }
    assert n * j <= n * 5;
  }

  /** The row holds the six values of every frame. */
  predicate Encodes(row: seq<int>, n: nat, frames: seq<Frame>, first: int) {
    && |row| == 6 * n + 1 && |frames| <= n
    && forall j: nat, k: nat :: j < 6 && k < |frames| ==>
         Place(n, j, k) < |row| && row[Place(n, j, k)] == FieldOf(frames[k], j, first)
  }

  datatype Decoded = Decoded(fd: int, offset: int, size: int, usage: int, ts: int, format: int)

  /** The reading a consumer makes of frame k: the six values, with the time counted from `first`. */
  function Decode(row: seq<int>, n: nat, k: nat, first: int): Decoded
    requires k < n && |row| == 6 * n + 1
  {
    Decoded(row[k], row[k + n], row[k + 2 * n], row[k + 3 * n], first + row[k + 4 * n], row[k + 5 * n])
  }

  function Described(f: Frame): Decoded { Decoded(f.fd, 0, f.size, f.usage, f.ts, f.format) }

  /** Decoding gives every frame back exactly when its size and its distance from the first frame fit 32 bits. */
  lemma DecodeGivesFrame(row: seq<int>, n: nat, frames: seq<Frame>, first: int, k: nat)
    requires Encodes(row, n, frames, first) && k < |frames|
    ensures var d := Decode(row, n, k, first);
            && d.(ts := frames[k].ts, size := frames[k].size) == Described(frames[k])
            && (d.ts == frames[k].ts <==> FitsInt32(frames[k].ts - first))
            && (d.size == frames[k].size <==> FitsInt32(frames[k].size))
    ensures var f := frames[k];
            && row[k] == f.fd && row[k + n] == 0 && row[k + 3 * n] == f.usage && row[k + 5 * n] == f.format
            && (row[k + 2 * n] == f.size <==> -0x8000_0000 <= f.size <= 0x7fff_ffff)
            && (row[k + 4 * n] == f.ts - first <==> -0x8000_0000 <= f.ts - first <= 0x7fff_ffff)
  {
    var f := frames[k];
    assert row[Place(n, 0, k)] == f.fd;
    assert row[Place(n, 1, k)] == 0;
    assert row[Place(n, 2, k)] == Int32(f.size);
    assert row[Place(n, 3, k)] == f.usage;
    assert row[Place(n, 4, k)] == Int32(f.ts - first);
    assert row[Place(n, 5, k)] == f.format;
  }

  /** A row after the six writes for frame k. */
  function Written(row: seq<int>, n: nat, k: nat, f: Frame, first: int): seq<int>
    requires k < n && |row| == 6 * n + 1
  {
    row[k := FieldOf(f, 0, first)][k + n := FieldOf(f, 1, first)][k + 2 * n := FieldOf(f, 2, first)]
       [k + 3 * n := FieldOf(f, 3, first)][k + 4 * n := FieldOf(f, 4, first)][k + 5 * n := FieldOf(f, 5, first)]
  }

  /** The writes for one more frame disturb no frame before it, nor the slot number at the end. */
  lemma WriteEncodes(row: seq<int>, n: nat, frames: seq<Frame>, f: Frame, first: int)
    requires Encodes(row, n, frames, first) && |frames| < n
    ensures Encodes(Written(row, n, |frames|, f, first), n, frames + [f], first)
    ensures Written(row, n, |frames|, f, first)[6 * n] == row[6 * n]
  {
    var w := Written(row, n, |frames|, f, first);
    forall j: nat, k: nat | j < 6 && k < |frames| + 1
      ensures Place(n, j, k) < |w| && w[Place(n, j, k)] == FieldOf((frames + [f])[k], j, first)
    {
      PlacesAreApart(n, j, k, j, k);
      if k < |frames| {
        assert row[Place(n, j, k)] == FieldOf(frames[k], j, first);
        UntouchedPlace(row, n, |frames|, f, first, j, k);
      } else {
        WrittenPlace(row, n, |frames|, f, first, j);
      }
    }
  }

  lemma UntouchedPlace(row: seq<int>, n: nat, k: nat, f: Frame, first: int, j: nat, k': nat)
    requires k' < n && k < n && k' != k && |row| == 6 * n + 1 && j < 6
    ensures Place(n, j, k') < |row| && Written(row, n, k, f, first)[Place(n, j, k')] == row[Place(n, j, k')]
  {
    hide FieldOf;
    assert j == 0 || j == 1 || j == 2 || j == 3 || j == 4 || j == 5;
  }

  lemma WrittenPlace(row: seq<int>, n: nat, k: nat, f: Frame, first: int, j: nat)
    requires k < n && |row| == 6 * n + 1 && j < 6
    ensures Place(n, j, k) < |row| && Written(row, n, k, f, first)[Place(n, j, k)] == FieldOf(f, j, first)
  {
    hide FieldOf;
    assert j == 0 || j == 1 || j == 2 || j == 3 || j == 4 || j == 5;
  }

  // ---------- frames the camera batched itself ----------

  datatype Option<T> = None | Some(value: T)

  /** The row after the planes before i, where present, have been written in their places. */
  function AllWritten(row: seq<int>, planes: seq<Option<Frame>>, i: nat, ts: int): (w: seq<int>)
    requires |row| == 6 * |planes| + 1 && i <= |planes|
    ensures |w| == |row|
  {
    if i == 0 then row
    else
      var w := AllWritten(row, planes, i - 1, ts);
      if planes[i - 1].Some? then Written(w, |planes|, i - 1, planes[i - 1].value, ts) else w
  }

  lemma {:induction false} AllWrittenAt(row: seq<int>, planes: seq<Option<Frame>>, i: nat, ts: int, j: nat, k: nat)
    requires |row| == 6 * |planes| + 1 && i <= |planes| && j < 6 && k < |planes|
    ensures Place(|planes|, j, k) < |row|
    ensures AllWritten(row, planes, i, ts)[Place(|planes|, j, k)]
         == if k < i && planes[k].Some? then FieldOf(planes[k].value, j, ts) else row[Place(|planes|, j, k)]
  {
    hide Written, FieldOf;
    PlacesAreApart(|planes|, j, k, j, k);
    if i > 0 {
      AllWrittenAt(row, planes, i - 1, ts, j, k);
      var w := AllWritten(row, planes, i - 1, ts);
      if planes[i - 1].Some? {
        var f := planes[i - 1].value;
        if k == i - 1 {
          WrittenPlace(w, |planes|, k, f, ts, j);
        } else {
          UntouchedPlace(w, |planes|, i - 1, f, ts, j, k);
        }
      }
    }
  }

  /** The same layout serves a batch made by the camera: each plane present decodes to its own six
      values, and the places of an absent plane are left alone. */
  lemma UserBatchIsReadable(row: seq<int>, planes: seq<Option<Frame>>, ts: int, k: nat)
    requires |row| == 6 * |planes| + 1 && k < |planes|
    ensures var w := AllWritten(row, planes, |planes|, ts);
            var d := Decode(w, |planes|, k, ts);
            if planes[k].Some? then
              var f := planes[k].value;
              && d.(ts := f.ts, size := f.size) == Described(f)
              && (d.ts == f.ts <==> FitsInt32(f.ts - ts)) && (d.size == f.size <==> FitsInt32(f.size))
            else d == Decode(row, |planes|, k, ts)
    ensures var n, w := |planes|, AllWritten(row, planes, |planes|, ts);
            planes[k].Some? ==>
              var f := planes[k].value;
              && w[k] == f.fd && w[k + n] == 0 && w[k + 3 * n] == f.usage && w[k + 5 * n] == f.format
              && (w[k + 2 * n] == f.size <==> -0x8000_0000 <= f.size <= 0x7fff_ffff)
              && (w[k + 4 * n] == f.ts - ts <==> -0x8000_0000 <= f.ts - ts <= 0x7fff_ffff)
  {
    hide Written;
    AllWrittenAt(row, planes, |planes|, ts, 0, k);
    AllWrittenAt(row, planes, |planes|, ts, 1, k);
    AllWrittenAt(row, planes, |planes|, ts, 2, k);
    AllWrittenAt(row, planes, |planes|, ts, 3, k);
    AllWrittenAt(row, planes, |planes|, ts, 4, k);
    AllWrittenAt(row, planes, |planes|, ts, 5, k);
  }

  /** The plane loop of video_stream_cb_routine; an index below zero marks an absent plane. */
  method PackUserBuffer(data: array<int>, planes: seq<Option<Frame>>, ts: int)
    requires data.Length == 6 * |planes| + 1
    modifies data
    ensures data[..] == AllWritten(old(data[..]), planes, |planes|, ts)
  {
    var n, i := |planes|, 0;
    while i < n
      invariant 0 <= i <= n
      invariant data[..] == AllWritten(old(data[..]), planes, i, ts)
    {
      if planes[i].Some? {
        var f := planes[i].value;
        ghost var w := data[..];
        data[i] := f.fd;
        data[n + i] := 0;
        data[2 * n + i] := Int32(f.size);
        data[3 * n + i] := f.usage;
        data[4 * n + i] := Int32(f.ts - ts);
        data[5 * n + i] := f.format;
        assert data[..] == Written(w, n, i, f, ts);
      }
      i := i + 1;
    }
  }

  // ---------- the stream object ----------

  /** The arrays of one slot (ownership flag, count, buffer list, native handle) say what it holds. */
  ghost predicate Describes(owned: bool, count: nat, listed: seq<BufIndex>, row: seq<int>, n: nat, i: nat, slot: Slot)
  {
    var fs := FramesOf(slot);
    && owned == Owned(slot)
    && count == slot.count
    && |fs| <= n <= MAX_BATCH == |listed|
    && (forall k :: 0 <= k < |fs| ==> listed[k] == fs[k].bufIdx)
    && Encodes(row, n, fs, if fs == [] then 0 else fs[0].ts)
    && row[6 * n] == i
  }

  lemma DescribesOneMore(owned: bool, count: nat, listed: seq<BufIndex>, row: seq<int>, n: nat,
                         i: nat, fs: seq<Frame>, f: Frame, first: int)
    requires Describes(owned, count, listed, row, n, i, Filling(fs, count)) && |fs| < n
    requires first == if fs == [] then f.ts else fs[0].ts
    ensures Describes(true, count + 1, listed[|fs| := f.bufIdx], Written(row, n, |fs|, f, first), n,
                      i, Filling(fs + [f], count + 1))
  {
    hide Written, FieldOf;
    WriteEncodes(row, n, fs, f, first);
  }

  /** A slot whose frames are gone, or not there yet, is described by its flag and its count. */
  lemma DescribesEmpty(owned: bool, count: nat, listed: seq<BufIndex>, row: seq<int>, n: nat, i: nat,
                       slot: Slot, other: Slot)
    requires Describes(owned, count, listed, row, n, i, slot) && FramesOf(other) == []
    ensures Describes(Owned(other), other.count, listed, row, n, i, other)
  {
  }

  /** A slot that keeps its frames and its flag, with another count or another standing. */
  lemma DescribesKept(owned: bool, count: nat, listed: seq<BufIndex>, row: seq<int>, n: nat, i: nat,
                      slot: Slot, other: Slot)
    requires Describes(owned, count, listed, row, n, i, slot)
    requires FramesOf(other) == FramesOf(slot) && Owned(other) == Owned(slot)
    ensures Describes(owned, other.count, listed, row, n, i, other)
  {
  }

  /** These are the slots the consumer has been handed. */
  ghost predicate AreHanded(handed: set<nat>, slots: seq<Slot>) {
    && (forall i :: i in handed ==> i < |slots|)
    && (forall i: nat :: i < |slots| ==> (i in handed <==> slots[i].Closed? && slots[i].verdict.HandedOver?))
  }

  /** A run written down step by step. */
  ghost predicate Recorded(n: nat, events: seq<Event>, states: seq<State>) {
    && |states| == |events| + 1
    && if events == [] then states[0] == Initial(n)
       else
         var k := |events| - 1;
         Recorded(n, events[..k], states[..k + 1]) && Takes(states[k], events[k], states[k + 1])
  }

  lemma {:induction false} RecordedIsRun(n: nat, events: seq<Event>, states: seq<State>)
    requires Recorded(n, events, states)
    ensures IsRun(n, events, states)
  {
    hide Takes, Initial;
    if events != [] {
      var k := |events| - 1;
      var es, ss := events[..k], states[..k + 1];
      RecordedIsRun(n, es, ss);
      forall i: nat | i < |events|
        ensures Linked(events, states, i)
      {
        assert i < k ==> Linked(es, ss, i);
      }
    }
  }

  lemma RecordStep(n: nat, events: seq<Event>, states: seq<State>, e: Event, t: State)
    requires 0 < n && Recorded(n, events, states) && Takes(states[|states| - 1], e, t)
    ensures Recorded(n, events + [e], states + [t]) && Inv(t)
  {
    var es, ss := events + [e], states + [t];
    hide Takes, Inv;
    assert es[..|events|] == events && ss[..|events| + 1] == states;
    RecordedIsRun(n, es, ss);
    hide IsRun, Recorded;
    RunKeepsInv(n, es, ss, |ss| - 1);
  }

  /** The batching fields of a video stream, with the native handle of each slot as one row, the
      points its two threads have reached, and the slots the consumer has been handed. */
  class VideoStream {
    const n: nat
    const consumerOwned: array<bool>
    const numBuffers: array<nat>
    const bufIndex: array2<BufIndex>
    const data: array2<int>
    var mCurMetaMemory: bool     // whether the pointer is set
    var mCurBufIndex: int
    var mCurMetaIndex: int
    var mFirstTimeStamp: int
    var arrivals: nat
    var cb: Callback
    var release: Release
    var atConsumer: set<nat>
    ghost var state: State
    ghost var events: seq<Event>
    ghost var states: seq<State>

    ghost function Row(i: nat): seq<int>
      requires i < data.Length0
      reads data
    {
      seq(data.Length1, j requires 0 <= j < data.Length1 reads data => data[i, j])
    }

    ghost function ListOf(i: nat): seq<BufIndex>
      requires i < bufIndex.Length0
      reads bufIndex
    {
      seq(bufIndex.Length1, j requires 0 <= j < bufIndex.Length1 reads bufIndex => bufIndex[i, j])
    }

    /** The arrays describe slot i. */
    ghost predicate SlotMatches(slots: seq<Slot>, i: nat)
      requires Sized() && i < |slots| == SLOTS
      reads consumerOwned, numBuffers, bufIndex, data
    {
      Describes(consumerOwned[i], numBuffers[i], ListOf(i), Row(i), n, i, slots[i])
    }

    ghost predicate ArraysMatch(slots: seq<Slot>)
      requires Sized()
      reads consumerOwned, numBuffers, bufIndex, data
    {
      |slots| == SLOTS && forall i: nat :: i < SLOTS ==> SlotMatches(slots, i)
    }

    ghost predicate Sized() {
      && SLOTS == consumerOwned.Length == numBuffers.Length == bufIndex.Length0 == data.Length0
      && bufIndex.Length1 == MAX_BATCH && data.Length1 == 6 * n + 1 && 0 < n <= MAX_BATCH
    }

    /** The fields outside the arrays agree with the state. */
    ghost predicate FieldsMatch()
      reads this`mCurMetaMemory, this`mCurBufIndex, this`mCurMetaIndex, this`mFirstTimeStamp, this`arrivals, this`cb,
            this`release, this`atConsumer, this`state
    {
      && state.n == n && |state.slots| == SLOTS && -1 <= state.open < SLOTS
      && arrivals == state.arrivals && cb == state.cb && release == state.release
      && AreHanded(atConsumer, state.slots)
      && (mCurMetaMemory <==> state.open >= 0)
      && (if state.open >= 0
          then
            && mCurMetaIndex == state.open && state.slots[state.open].Filling?
            && mCurBufIndex == |OpenFrames(state)|
            && (mCurBufIndex > 0 ==> mFirstTimeStamp == OpenFrames(state)[0].ts)
          else mCurBufIndex == -1)
    }

    /** The arrays and fields show the state, and the state is the end of a run. */
    ghost predicate Valid()
      reads this, consumerOwned, numBuffers, bufIndex, data
    {
      Shows() && OnRun()
    }

    ghost predicate Shows()
      reads this`mCurMetaMemory, this`mCurBufIndex, this`mCurMetaIndex, this`mFirstTimeStamp, this`arrivals, this`cb,
            this`release, this`atConsumer, this`state,
            consumerOwned, numBuffers, bufIndex, data
    {
      Sized() && ArraysMatch(state.slots) && FieldsMatch()
    }

    ghost predicate OnRun()
      reads this`state, this`events, this`states
    {
      states != [] && Recorded(n, events, states) && Last(states) == state && Inv(state)
    }

    /** A region has just taken this step. */
    ghost method Record(e: Event, before: State)
      requires 0 < n && states != [] && Recorded(n, events, states) && Last(states) == before && Takes(before, e, state)
      modifies this`events, this`states
      ensures OnRun() && events == old(events) + [e] && states == old(states) + [state]
    {
      hide Recorded, Takes, Inv;
      RecordStep(n, events, states, e, state);
      events, states := events + [e], states + [state];
    }

    /** While a batch is open, the count in its slot is the number of frames stored so far if and only
        if no release cleared it late since the slot was opened. */
    lemma OpenBatchCountIff()
      requires Valid() && state.open >= 0
      ensures mCurBufIndex == |OpenFrames(state)|
      ensures numBuffers[state.open] == mCurBufIndex
              <==> !ClearedSinceOpened(events, states, |events|, state.open)
    {
      assert SlotMatches(state.slots, state.open);
      RecordedIsRun(n, events, states);
      hide IsRun, Recorded, Inv, ClearedSinceOpened;
      RunStarts(n, events, states);
      CountExactIff(n, events, states, |events|, state.open);
    }

    /** What the consumer reads from the handle of a complete batch: the frames in arrival order,
        and the number of the slot to release. */
    lemma BatchIsReadable(i: nat, k: nat)
      requires Valid() && i < SLOTS && state.slots[i].Closed? && k < n
      ensures Row(i)[6 * n] == i && |FramesOf(state.slots[i])| == n
      ensures var fs := FramesOf(state.slots[i]);
              var d := Decode(Row(i), n, k, fs[0].ts);
              && d.(ts := fs[k].ts, size := fs[k].size) == Described(fs[k])
              && (d.ts == fs[k].ts <==> FitsInt32(fs[k].ts - fs[0].ts))
              && (d.size == fs[k].size <==> FitsInt32(fs[k].size))
      ensures var f, first, row := FramesOf(state.slots[i])[k], FramesOf(state.slots[i])[0], Row(i);
              && row[k] == f.fd && row[k + n] == 0 && row[k + 3 * n] == f.usage && row[k + 5 * n] == f.format
              && (row[k + 2 * n] == f.size <==> -0x8000_0000 <= f.size <= 0x7fff_ffff)
              && (row[k + 4 * n] == f.ts - first.ts <==> -0x8000_0000 <= f.ts - first.ts <= 0x7fff_ffff)
    {
      hide Recorded;
      assert SlotMatches(state.slots, i) && SlotFits(state, i);
      hide Decode, Int32, FieldOf;
      DecodeGivesFrame(Row(i), n, FramesOf(state.slots[i]), FramesOf(state.slots[i])[0].ts, k);
    }

    /** A stream just started. */
    constructor (n: nat)
      requires 0 < n <= MAX_BATCH
      ensures Valid() && state == Initial(n) && this.n == n && events == [] && mCurBufIndex == -1 && !mCurMetaMemory
      ensures consumerOwned.Length == 3 && numBuffers.Length == 3 && bufIndex.Length1 == 16
      ensures !consumerOwned[0] && !consumerOwned[1] && !consumerOwned[2]
      ensures fresh(consumerOwned) && fresh(numBuffers) && fresh(bufIndex) && fresh(data)
    {
      this.n := n;
      consumerOwned := new bool[SLOTS](_ => false);
      numBuffers := new nat[SLOTS](_ => 0);
      bufIndex := new BufIndex[SLOTS, MAX_BATCH]((_, _) => 0);
      data := new int[SLOTS, 6 * n + 1]((i, _) => i);
      mCurMetaMemory, mCurBufIndex, mCurMetaIndex, mFirstTimeStamp := false, -1, -1, 0;
      arrivals, cb, release, atConsumer := 0, Waiting, NoRelease, {};
      state, events, states := Initial(n), [], [Initial(n)];
      new;
      InitialInv(n);
      hide Inv, FieldOf;
      forall i: nat | i < SLOTS
        ensures SlotMatches(state.slots, i)
      {
        assert state.slots[i] == Free(0) && Row(i)[6 * n] == i;
      }
    }

    // ----- the callback, region by region -----

    /** The scan for a slot the consumer does not own. */
    method FindFree() returns (i: nat)
      requires Shows()
      ensures i == FirstFree(state.slots, 0) <= SLOTS
      ensures (i < SLOTS ==> !consumerOwned[i]) && forall j: nat :: j < i ==> consumerOwned[j]
    {
      hide FieldsMatch;
      i := 0;
      while i < SLOTS && consumerOwned[i]
        invariant i <= SLOTS
        invariant forall j: nat :: j < i ==> consumerOwned[j]
        invariant forall j: nat :: j < i ==> Owned(state.slots[j])
      {
        assert SlotMatches(state.slots, i);
        i := i + 1;
      }
      assert i < SLOTS ==> SlotMatches(state.slots, i);
      FirstFreeIs(state.slots, i);
    }

    /** A slot is opened for a batch, or stays free when there is no memory for it. */
    method ResetSlot(i: nat, memory: bool)
      requires Sized() && ArraysMatch(state.slots) && i < SLOTS && !Owned(state.slots[i]) && FramesOf(state.slots[i]) == []
      modifies this`mCurMetaMemory, this`mCurBufIndex, this`mCurMetaIndex, numBuffers
      ensures mCurMetaMemory == memory && mCurBufIndex == 0 && mCurMetaIndex == i && numBuffers[i] == 0
      ensures ArraysMatch(state.slots[i := if memory then Filling([], 0) else Free(0)])
    {
      ghost var slot := if memory then Filling([], 0) else Free(0);
      ghost var slots := state.slots[i := slot];
      assert SlotMatches(state.slots, i);
      DescribesEmpty(consumerOwned[i], numBuffers[i], ListOf(i), Row(i), n, i, state.slots[i], slot);
      assert consumerOwned[i] == Owned(slot);
      hide Describes;
      mCurMetaMemory, mCurBufIndex, mCurMetaIndex := memory, 0, i;
      numBuffers[i] := 0;
      forall j: nat | j < SLOTS
        ensures SlotMatches(slots, j)
      {
        assert old(SlotMatches(state.slots, j));
      }
    }

    /** The arrays and fields at the head of the callback; the state follows. */
    method SearchSlot(frame: Frame, memory: bool) returns (ready: bool)
      requires Shows() && cb.Waiting? && Enabled(state, Arrive(frame, memory))
      requires forall i: nat :: i < SLOTS && !Owned(state.slots[i]) && state.open == -1 ==> state.slots[i].Free?
      modifies this`mCurMetaMemory, this`mCurBufIndex, this`mCurMetaIndex, this`arrivals, this`cb, this`state, numBuffers
      ensures Shows() && state == FindSlot(old(state), frame, memory)
      ensures cb == (if ready then Storing(frame) else Waiting) && ready == old(CanStore(memory)) == mCurMetaMemory
      ensures ready ==> mCurBufIndex == if old(mCurMetaMemory) then old(mCurBufIndex) else 0
    {
      hide ArraysMatch, FirstFree, Owned, AreHanded, FindSlot;
      ready := OpenOrGoOn(frame, memory);
      arrivals := arrivals + 1;
      FindSlotFields(state, frame, memory, atConsumer);
      state := FindSlot(state, frame, memory);
    }

    /** Unless a batch is open, look for a slot to open one. */
    method OpenOrGoOn(frame: Frame, memory: bool) returns (ready: bool)
      requires Shows() && cb.Waiting?
      requires forall i: nat :: i < SLOTS && !Owned(state.slots[i]) && state.open == -1 ==> state.slots[i].Free?
      modifies this`mCurMetaMemory, this`mCurBufIndex, this`mCurMetaIndex, this`cb, numBuffers
      ensures ready == old(CanStore(memory)) == mCurMetaMemory && cb == (if ready then Storing(frame) else Waiting)
      ensures mCurBufIndex == if !ready then -1 else if old(mCurMetaMemory) then old(mCurBufIndex) else 0
      ensures state.open == -1 ==> ready == (FirstFree(state.slots, 0) < SLOTS && memory)
      ensures ready ==> mCurMetaIndex == if state.open == -1 then FirstFree(state.slots, 0) else state.open
      ensures ArraysMatch(FindSlot(state, frame, memory).slots)
    {
      hide ArraysMatch, FirstFree, Owned, AreHanded;
      ready := true;
      if !mCurMetaMemory || mCurBufIndex == -1 {
        ready := TryOpen(frame, memory);
        cb := if ready then Storing(frame) else Waiting;
      } else {
        cb := Storing(frame);
      }
    }

    /** A frame can be stored: a batch is open, or there is memory and a slot the consumer does not own. */
    predicate CanStore(memory: bool)
      requires consumerOwned.Length == SLOTS
      reads this`mCurMetaMemory, consumerOwned
    {
      mCurMetaMemory || (memory && (!consumerOwned[0] || !consumerOwned[1] || !consumerOwned[2]))
    }

    /** With no batch open, the first slot the consumer does not own is opened if there is memory. */
    method TryOpen(frame: Frame, memory: bool) returns (ready: bool)
      requires Shows() && state.open == -1
      requires forall i: nat :: i < SLOTS && !Owned(state.slots[i]) ==> state.slots[i].Free?
      modifies this`mCurMetaMemory, this`mCurBufIndex, this`mCurMetaIndex, numBuffers
      ensures ready == (FirstFree(state.slots, 0) < SLOTS && memory) == mCurMetaMemory
      ensures mCurBufIndex == (if ready then 0 else -1) && (ready ==> mCurMetaIndex == FirstFree(state.slots, 0))
      ensures ArraysMatch(FindSlot(state, frame, memory).slots)
      ensures ready == old(CanStore(memory))
      ensures ready ==>
                && 0 <= mCurMetaIndex < SLOTS && numBuffers[mCurMetaIndex] == 0 && !consumerOwned[mCurMetaIndex]
                && forall j :: 0 <= j < mCurMetaIndex ==> consumerOwned[j]
    {
      hide ArraysMatch, FirstFree;
      var i := FindFree();
      ready := i < SLOTS && memory;
      if i < SLOTS {
        ResetSlot(i, memory);
      }
      if !ready {
        mCurBufIndex := -1;
      }
    }

    /** The head of the callback.  `ready` tells whether a slot is there for the frame; without one
        the frame goes straight back. */
    method ArriveFrame(frame: Frame, memory: bool) returns (ready: bool)
      requires Valid() && cb.Waiting? && frame.id == arrivals
      modifies this`mCurMetaMemory, this`mCurBufIndex, this`mCurMetaIndex, this`arrivals, this`cb,
               this`state, this`events, this`states, numBuffers
      ensures Valid() && Takes(old(state), Arrive(frame, memory), state)
      ensures events == old(events) + [Arrive(frame, memory)] && states == old(states) + [state]
      ensures cb == (if ready then Storing(frame) else Waiting) && ready == old(CanStore(memory)) == mCurMetaMemory
      ensures ready ==> mCurBufIndex == if old(mCurMetaMemory) then old(mCurBufIndex) else 0
    {
      hide Recorded, Inv, Shows;
      ghost var before := state;
      ArriveReady(frame, memory);
      ready := SearchSlot(frame, memory);
      hide FindSlot;
      Record(Arrive(frame, memory), before);
    }

    lemma ArriveReady(frame: Frame, memory: bool)
      requires Valid() && cb.Waiting? && frame.id == arrivals
      ensures 0 < n && |state.slots| == SLOTS && Enabled(state, Arrive(frame, memory))
      ensures forall i: nat :: i < SLOTS && !Owned(state.slots[i]) && state.open == -1 ==> state.slots[i].Free?
    {
      hide Recorded;
      UnownedIsFree(state);
    }

    method WriteFields(m: nat, k: nat, f: Frame, first: int)
      requires Sized() && k < n && m < SLOTS
      modifies data
      ensures Row(m) == Written(old(Row(m)), n, k, f, first)
      ensures forall i: nat :: i < SLOTS && i != m ==> Row(i) == old(Row(i))
    {
      data[m, k] := f.fd;
      data[m, k + n] := 0;
      data[m, k + n * 2] := Int32(f.size);
      data[m, k + n * 3] := f.usage;
      data[m, k + n * 4] := Int32(f.ts - first);
      data[m, k + n * 5] := f.format;
    }

    /** Note the buffer in slot m, count it, and claim the slot. */
    method ListBuffer(m: nat, k: nat, b: BufIndex)
      requires Sized() && m < SLOTS && k < MAX_BATCH
      modifies consumerOwned, numBuffers, bufIndex
      ensures consumerOwned[m] && numBuffers[m] == old(numBuffers[m]) + 1
      ensures ListOf(m) == old(ListOf(m))[k := b]
      ensures forall i: nat :: i < SLOTS && i != m ==>
                consumerOwned[i] == old(consumerOwned[i]) && numBuffers[i] == old(numBuffers[i]) && ListOf(i) == old(ListOf(i))
    {
      bufIndex[m, k] := b;
      numBuffers[m] := numBuffers[m] + 1;
      consumerOwned[m] := true;
    }

    /** The arrays take in the frame. */
    method PutArrays(m: nat, index: nat, frame: Frame, first: int)
      requires Sized() && ArraysMatch(state.slots) && m < SLOTS && index < n && state.slots[m].Filling?
      requires index == |state.slots[m].frames|
      requires first == if index == 0 then frame.ts else state.slots[m].frames[0].ts
      modifies consumerOwned, numBuffers, bufIndex, data
      ensures ArraysMatch(state.slots[m := Filling(state.slots[m].frames + [frame], state.slots[m].count + 1)])
    {
      ghost var fs, slot := state.slots[m].frames, Filling(state.slots[m].frames + [frame], state.slots[m].count + 1);
      ghost var slots := state.slots[m := slot];
      assert SlotMatches(state.slots, m);
      assert state.slots[m] == Filling(fs, numBuffers[m]);
      DescribesOneMore(consumerOwned[m], numBuffers[m], ListOf(m), Row(m), n, m, fs, frame, first);
      hide Describes, Written;
      ListBuffer(m, index, frame.bufIdx);
      WriteFields(m, index, frame, first);
      forall i: nat | i < SLOTS
        ensures SlotMatches(slots, i)
      {
        assert old(SlotMatches(state.slots, i));
      }
    }

    /** The arrays and the first time stamp take in the frame; the state follows. */
    method PutFrame()
      requires Shows()
      requires Enabled(state, Store(Disabled)) && mCurBufIndex < n
      modifies this`mCurBufIndex, this`mFirstTimeStamp, this`cb, this`state, consumerOwned, numBuffers, bufIndex, data
      ensures Shows()
      ensures state == Append(old(state)) && mCurBufIndex == old(mCurBufIndex) + 1
    {
      hide ArraysMatch;
      if mCurBufIndex == 0 {
        mFirstTimeStamp := cb.frame.ts;
      }
      PutArrays(mCurMetaIndex, mCurBufIndex, cb.frame, mFirstTimeStamp);
      mCurBufIndex, cb := mCurBufIndex + 1, Waiting;
      state := Append(state);
    }

    /** Let go of a complete batch, and hand it over or not. */
    method LetGo(v: Verdict)
      requires Shows()
      requires state.open >= 0 && mCurBufIndex == n
      modifies this`mCurMetaMemory, this`mCurBufIndex, this`mCurMetaIndex, this`atConsumer, this`state
      ensures Shows()
      ensures state == Close(old(state), v)
      ensures atConsumer == if v.HandedOver? then old(atConsumer) + {old(mCurMetaIndex)} else old(atConsumer) - {old(mCurMetaIndex)}
    {
      hide ArraysMatch;
      var m := mCurMetaIndex;
      KeepSlot(m, Closed(OpenFrames(state), state.slots[m].count, v));
      mCurBufIndex, mCurMetaIndex, mCurMetaMemory := -1, -1, false;
      if v.HandedOver? {
        atConsumer := atConsumer + {m};
      } else {
        atConsumer := atConsumer - {m};
      }
      state := Close(state, v);
    }

    /** The arrays also show a slot that differs in what they do not keep. */
    lemma KeepSlot(i: nat, slot: Slot)
      requires Sized() && ArraysMatch(state.slots) && i < SLOTS
      requires FramesOf(slot) == FramesOf(state.slots[i]) && Owned(slot) == Owned(state.slots[i])
      requires slot.count == state.slots[i].count
      ensures ArraysMatch(state.slots[i := slot])
    {
      var slots := state.slots[i := slot];
      assert SlotMatches(state.slots, i);
      DescribesKept(consumerOwned[i], numBuffers[i], ListOf(i), Row(i), n, i, state.slots[i], slot);
      assert numBuffers[i] == slot.count;
      hide Describes;
      forall j: nat | j < SLOTS
        ensures SlotMatches(slots, j)
      {
        assert SlotMatches(state.slots, j);
      }
    }

    lemma EmptySlot(i: nat, slot: Slot)
      requires Sized() && ArraysMatch(state.slots) && i < SLOTS
      requires FramesOf(slot) == [] && Owned(slot) == Owned(state.slots[i]) && slot.count == state.slots[i].count
      ensures ArraysMatch(state.slots[i := slot])
    {
      var slots := state.slots[i := slot];
      assert SlotMatches(state.slots, i);
      DescribesEmpty(consumerOwned[i], numBuffers[i], ListOf(i), Row(i), n, i, state.slots[i], slot);
      assert numBuffers[i] == slot.count && consumerOwned[i] == Owned(slot);
      hide Describes;
      forall j: nat | j < SLOTS
        ensures SlotMatches(slots, j)
      {
        assert SlotMatches(state.slots, j);
      }
    }

    /** Store the frame and let go of a complete batch. */
    method PutAndLetGo(v: Verdict) returns (closed: bool)
      requires Shows() && Enabled(state, Store(v)) && mCurBufIndex < n
      modifies this`mCurMetaMemory, this`mCurBufIndex, this`mCurMetaIndex, this`mFirstTimeStamp, this`cb,
               this`atConsumer, this`state, consumerOwned, numBuffers, bufIndex, data
      ensures Shows() && state == StoreFrame(old(state), v) && cb.Waiting?
      ensures closed == (old(mCurBufIndex) + 1 == n) == !mCurMetaMemory
      ensures mCurBufIndex == if closed then -1 else old(mCurBufIndex) + 1
      ensures closed ==>
                atConsumer == if v.HandedOver? then old(atConsumer) + {old(mCurMetaIndex)} else old(atConsumer) - {old(mCurMetaIndex)}
      ensures !closed ==> atConsumer == old(atConsumer)
    {
      hide ArraysMatch;
      PutFrame();
      closed := mCurBufIndex == n;
      if closed {
        LetGo(v);
      }
    }

    /** The rest of the callback: the frame is stored, and a complete batch is let go.  The buffer of
        a frame whose batch the notifier refuses goes straight back. */
    method StoreIntoSlot(v: Verdict) returns (returned: seq<BufIndex>)
      requires Valid() && cb.Storing?
      modifies this`mCurMetaMemory, this`mCurBufIndex, this`mCurMetaIndex, this`mFirstTimeStamp, this`cb,
               this`atConsumer, this`state, this`events, this`states, consumerOwned, numBuffers, bufIndex, data
      ensures Valid() && Takes(old(state), Store(v), state) && cb.Waiting?
      ensures events == old(events) + [Store(v)] && states == old(states) + [state]
      ensures mCurMetaMemory == (old(mCurBufIndex) + 1 < n)
      ensures mCurBufIndex == if mCurMetaMemory then old(mCurBufIndex) + 1 else -1
      ensures returned == if v.Refused? && old(mCurBufIndex) + 1 == n then [old(cb).frame.bufIdx] else []
      ensures old(mCurBufIndex) + 1 == n ==>
                atConsumer == if v.HandedOver? then old(atConsumer) + {old(mCurMetaIndex)} else old(atConsumer) - {old(mCurMetaIndex)}
      ensures old(mCurBufIndex) + 1 != n ==> atConsumer == old(atConsumer)
    {
      hide Recorded, Inv, Shows;
      ghost var before := state;
      var frame := cb.frame;
      StoreReady(v);
      var closed := PutAndLetGo(v);
      returned := if closed && v.Refused? then [frame.bufIdx] else [];
      hide StoreFrame;
      Record(Store(v), before);
    }

    lemma StoreReady(v: Verdict)
      requires Valid() && cb.Storing?
      ensures 0 < n && Enabled(state, Store(v)) && mCurBufIndex < n
    {
      hide Recorded;
      StorableState(state);
    }

    // ----- the release, statement by statement -----

    /** The loop over the buffers the count covers. */
    method ListedBuffers(i: nat) returns (listed: seq<BufIndex>)
      requires Shows() && i < SLOTS && state.slots[i].Closed? && state.slots[i].count <= |state.slots[i].frames|
      ensures |listed| == numBuffers[i] == state.slots[i].count <= |state.slots[i].frames|
      ensures forall k :: 0 <= k < |listed| ==> listed[k] == state.slots[i].frames[k].bufIdx
    {
      hide FieldsMatch, Encodes;
      assert SlotMatches(state.slots, i);
      listed := [];
      var k := 0;
      while k < numBuffers[i]
        invariant 0 <= k <= numBuffers[i] && |listed| == k
        invariant forall j :: 0 <= j < k ==> listed[j] == state.slots[i].frames[j].bufIdx
      {
        assert ListOf(i)[k] == state.slots[i].frames[k].bufIdx;
        listed := listed + [bufIndex[i, k]];
        k := k + 1;
      }
    }

    /** What the release of a slot gives back: the frames its count covers, or without any the buffer
        that has the slot's own number. */
    ghost predicate GivesBack(slot: Slot, i: nat, returned: seq<BufIndex>) {
      && slot.Closed? && slot.count <= |slot.frames|
      && (slot.count == 0 ==> returned == [i])
      && (slot.count > 0 ==>
            |returned| == slot.count && forall k :: 0 <= k < |returned| ==> returned[k] == slot.frames[k].bufIdx)
    }

    method ReturnAndMark(i: nat) returns (returned: seq<BufIndex>)
      requires Shows() && i < SLOTS && Enabled(state, ReturnListed(i)) && state.slots[i].count <= |state.slots[i].frames|
      modifies this`release, this`atConsumer, this`state
      ensures Shows() && state == ReturnBuffers(old(state), i)
      ensures release == if old(state).slots[i].count > 0 then Returned(i) else NoRelease
      ensures GivesBack(old(state).slots[i], i, returned)
    {
      hide Take, Skip;
      returned := ListedBuffers(i);
      ghost var slot := state.slots[i];
      if numBuffers[i] > 0 {
        release := Returned(i);
        EmptySlot(i, Releasing(slot.count));
      } else {
        returned := [i];
        KeepSlot(i, Stuck(slot.frames, 0));
      }
      hide ArraysMatch;
      atConsumer := atConsumer - {i};
      state := ReturnBuffers(state, i);
    }

    /** The first part of a release: the buffers listed go back, in order.  With a count of zero the
        release is over then, and the slot is stuck. */
    method ReturnBuffersOf(i: nat) returns (returned: seq<BufIndex>)
      requires Valid() && release.NoRelease? && i in atConsumer
      modifies this`release, this`atConsumer, this`state, this`events, this`states
      ensures Valid() && Takes(old(state), ReturnListed(i), state)
      ensures events == old(events) + [ReturnListed(i)] && states == old(states) + [state]
      ensures i < SLOTS && |old(state).slots| == SLOTS && GivesBack(old(state).slots[i], i, returned)
      ensures release == if old(state).slots[i].count > 0 then Returned(i) else NoRelease
    {
      hide Recorded, Inv, Shows, GivesBack;
      ghost var before := state;
      ReturnReady(i);
      returned := ReturnAndMark(i);
      hide ReturnBuffers;
      Record(ReturnListed(i), before);
    }

    lemma ReturnReady(i: nat)
      requires Valid() && release.NoRelease? && i in atConsumer
      ensures 0 < n && i < SLOTS == |state.slots| && Enabled(state, ReturnListed(i))
      ensures state.slots[i].count <= |state.slots[i].frames|
    {
      hide Recorded;
      assert SlotFits(state, i);
    }

    /** consumerOwned = FALSE */
    method ClearOwnerFlag()
      requires Valid() && release.Returned?
      modifies this`release, this`state, this`events, this`states, consumerOwned
      ensures Valid() && Takes(old(state), ClearOwner, state) && release == Unflagged(old(release).slot)
      ensures release.slot < consumerOwned.Length && !consumerOwned[release.slot]
      ensures events == old(events) + [ClearOwner] && states == old(states) + [state]
    {
      hide Recorded, Inv, Shows;
      ghost var before := state;
      ReleaseReady();
      Unown(release.slot);
      Record(ClearOwner, before);
    }

    lemma ReleaseReady()
      requires Valid() && !release.NoRelease?
      ensures 0 < n && release == state.release && release.slot < SLOTS == |state.slots| && Sized()
      ensures release.Returned? ==> state.slots[release.slot].Releasing?
      ensures release.Unflagged? ==> Enabled(state, ClearCount)
    {
      hide Recorded;
      ReleaseState(state);
    }

    method ClearFlag(i: nat)
      requires Sized() && ArraysMatch(state.slots) && i < SLOTS && state.slots[i].Releasing?
      modifies consumerOwned
      ensures !consumerOwned[i] && ArraysMatch(state.slots[i := Free(state.slots[i].count)])
    {
      ghost var free := Free(state.slots[i].count);
      ghost var slots := state.slots[i := free];
      assert SlotMatches(state.slots, i);
      DescribesEmpty(consumerOwned[i], numBuffers[i], ListOf(i), Row(i), n, i, state.slots[i], free);
      assert numBuffers[i] == free.count;
      hide Describes;
      consumerOwned[i] := false;
      forall j: nat | j < SLOTS
        ensures SlotMatches(slots, j)
      {
        assert old(SlotMatches(state.slots, j));
      }
    }

    method Unown(i: nat)
      requires Shows() && release == Returned(i) && i < SLOTS && state.slots[i].Releasing?
      modifies this`release, this`state, consumerOwned
      ensures Shows() && release == Unflagged(i) && !consumerOwned[i]
      ensures state == old(state).(slots := old(state).slots[i := Free(old(state).slots[i].count)], release := Unflagged(i))
    {
      hide ArraysMatch;
      ClearFlag(i);
      release := Unflagged(i);
      state := state.(slots := state.slots[i := Free(state.slots[i].count)], release := Unflagged(i));
    }

    /** numBuffers = 0 */
    method ClearNumBuffers()
      requires Valid() && release.Unflagged?
      modifies this`release, this`state, this`events, this`states, numBuffers
      ensures Valid() && Takes(old(state), ClearCount, state) && release.NoRelease?
      ensures old(release).slot < numBuffers.Length && numBuffers[old(release).slot] == 0
      ensures events == old(events) + [ClearCount] && states == old(states) + [state]
    {
      hide Recorded, Inv, Shows;
      ghost var before := state;
      ReleaseReady();
      Uncount(release.slot);
      Record(ClearCount, before);
    }

    method ClearCounter(i: nat)
      requires Sized() && ArraysMatch(state.slots) && i < SLOTS
      modifies numBuffers
      ensures numBuffers[i] == 0 && ArraysMatch(state.slots[i := state.slots[i].(count := 0)])
    {
      ghost var slot := state.slots[i].(count := 0);
      ghost var slots := state.slots[i := slot];
      assert SlotMatches(state.slots, i);
      DescribesKept(consumerOwned[i], numBuffers[i], ListOf(i), Row(i), n, i, state.slots[i], slot);
      hide Describes;
      numBuffers[i] := 0;
      forall j: nat | j < SLOTS
        ensures SlotMatches(slots, j)
      {
        assert old(SlotMatches(state.slots, j));
      }
    }

    method Uncount(i: nat)
      requires Shows() && release == Unflagged(i) && i < SLOTS
      modifies this`release, this`state, numBuffers
      ensures Shows() && release.NoRelease? && numBuffers[i] == 0
      ensures state == old(state).(slots := old(state).slots[i := old(state).slots[i].(count := 0)], release := NoRelease)
    {
      hide ArraysMatch;
      ClearCounter(i);
      release := NoRelease;
      state := state.(slots := state.slots[i := state.slots[i].(count := 0)], release := NoRelease);
    }

    // ----- the two threads -----

    /** The run has gone on since it was as given. */
    ghost predicate Later(events0: seq<Event>, states0: seq<State>)
      reads this`events, this`states
    {
      events0 <= events && states0 <= states
    }

    /** A step of the releasing thread, if it has one to take. */
    method ReleaserStep(i: nat)
      requires Valid()
      modifies this`release, this`atConsumer, this`state, this`events, this`states, consumerOwned, numBuffers
      ensures Valid() && Later(old(events), old(states)) && SameFrames(old(state), state)
    {
      hide OnRun, Shows, Apply, Enabled;
      ghost var before := state;
      match release {
        case NoRelease =>
          if i in atConsumer {
            var _ := ReturnBuffersOf(i);
            ReleaseSameFrames(before, ReturnListed(i), state);
          }
        case Returned(_) =>
          ClearOwnerFlag();
          ReleaseSameFrames(before, ClearOwner, state);
        case Unflagged(_) =>
          ClearNumBuffers();
          ReleaseSameFrames(before, ClearCount, state);
      }
    }

    /** A step of the stream thread. */
    method CallbackStep(frame: Frame, memory: bool, v: Verdict)
      requires Valid()
      modifies this`mCurMetaMemory, this`mCurBufIndex, this`mCurMetaIndex, this`mFirstTimeStamp, this`cb, this`arrivals,
               this`atConsumer, this`state, this`events, this`states, consumerOwned, numBuffers, bufIndex, data
      ensures Valid() && Later(old(events), old(states))
    {
      hide OnRun, Shows, Apply, Enabled;
      match cb {
        case Waiting => var _ := ArriveFrame(frame.(id := arrivals), memory);
        case Storing(_) => var _ := StoreIntoSlot(v);
      }
    }

    method ReleaserMoves()
      requires Valid()
      modifies this`release, this`atConsumer, this`state, this`events, this`states, consumerOwned, numBuffers
      ensures Valid() && Later(old(events), old(states)) && SameFrames(old(state), state)
    {
      hide OnRun, Shows;
      var steps: nat := *;
      while steps > 0
        invariant Valid() && Later(old(events), old(states)) && SameFrames(old(state), state)
      {
        var i: nat := *;
        ReleaserStep(i);
        steps := steps - 1;
      }
    }

    method CallbackMoves()
      requires Valid()
      modifies this`mCurMetaMemory, this`mCurBufIndex, this`mCurMetaIndex, this`mFirstTimeStamp, this`cb, this`arrivals,
               this`atConsumer, this`state, this`events, this`states, consumerOwned, numBuffers, bufIndex, data
      ensures Valid() && Later(old(events), old(states))
    {
      hide OnRun, Shows;
      var steps: nat := *;
      while steps > 0
        invariant Valid() && Later(old(events), old(states))
      {
        var frame: Frame, memory: bool, v: Verdict := *, *, *;
        CallbackStep(frame, memory, v);
        steps := steps - 1;
      }
    }

    /** The batch part of video_stream_cb_routine, with the releasing thread moving between its two
        regions.  A frame is dropped when no batch is open and no slot or no memory is there; its buffer
        goes straight back.  Of a stored frame nothing goes back, unless it completes a batch that the
        notifier refuses. */
    method VideoStreamCb(frame: Frame, memory: bool, v: Verdict) returns (returned: seq<BufIndex>)
      requires Valid() && cb.Waiting? && frame.id == arrivals
      modifies this, consumerOwned, numBuffers, bufIndex, data
      ensures Valid() && Later(old(events), old(states)) && cb.Waiting? && |events| > |old(events)|
      ensures events[|old(events)|] == Arrive(frame, memory)
      ensures if old(CanStore(memory)) then events[|events| - 1] == Store(v) else |events| == |old(events)| + 1
      ensures old(CanStore(memory)) ==>
                mCurMetaMemory == ((if old(mCurMetaMemory) then old(mCurBufIndex) else 0) + 1 < n)
      ensures old(CanStore(memory)) ==>
                && returned == (if !mCurMetaMemory && v.Refused? then [frame.bufIdx] else [])
                && state.accepted == old(state).accepted + [frame] && state.dropped == old(state).dropped
                && state.early == old(state).early + (if !mCurMetaMemory && v.Refused? then multiset{frame} else multiset{})
      ensures !old(CanStore(memory)) ==>
                && !mCurMetaMemory && returned == [frame.bufIdx] && state.accepted == old(state).accepted
                && state.dropped == old(state).dropped + multiset{frame} && state.early == old(state).early
      ensures !mCurMetaMemory ==> mCurBufIndex == -1
    {
      hide OnRun, Shows, Apply, Enabled;
      ghost var s0 := state;
      var ready := ArriveFrame(frame, memory);
      ArriveHistory(s0, frame, memory, state);
      CbShown();
      returned := [frame.bufIdx];
      if ready {
        ReleaserMoves();
        ghost var s1 := state;
        StoreReadyFields();
        returned := StoreIntoSlot(v);
        StoreHistory(s1, v, state);
      }
      NoBatchMeans();
    }

    /** What the fields say of a frame about to be stored. */
    lemma StoreReadyFields()
      requires Valid() && cb.Storing?
      ensures state.cb == cb && 0 <= state.open < |state.slots| && state.slots[state.open].Filling?
      ensures mCurBufIndex == |OpenFrames(state)| < n == state.n
    {
      hide Recorded;
      StorableState(state);
    }

    lemma CbShown()
      requires Valid()
      ensures state.cb == cb
    {
    }

    lemma NoBatchMeans()
      requires Valid()
      ensures mCurMetaMemory || mCurBufIndex == -1
    {
    }

    /** bufDone for a metadata buffer, with the stream thread moving between its statements: every
        buffer that the count of the slot covered goes back, in order. */
    method ReleaseBatch(i: nat) returns (returned: seq<BufIndex>)
      requires Valid() && release.NoRelease? && i in atConsumer
      modifies this, consumerOwned, numBuffers, bufIndex, data
      ensures Valid() && Later(old(events), old(states)) && release.NoRelease? && |events| > |old(events)|
      ensures events[|old(events)|] == ReturnListed(i)
      ensures i < SLOTS && |old(state).slots| == SLOTS && GivesBack(old(state).slots[i], i, returned)
      ensures old(state).slots[i].count > 0 ==> events[|events| - 1] == ClearCount
    {
      hide OnRun, Shows, Apply, Enabled;
      returned := ReturnBuffersOf(i);
      if release.Returned? {
        CallbackMoves();
        ClearOwnerFlag();
        CallbackMoves();
        ClearNumBuffers();
      }
    }
  }

  lemma FindSlotFields(s: State, f: Frame, memory: bool, handed: set<nat>)
    requires |s.slots| == SLOTS && -1 <= s.open < SLOTS && (s.open >= 0 ==> s.slots[s.open].Filling?) && s.cb.Waiting?
    requires forall i: nat :: i < SLOTS && !Owned(s.slots[i]) && s.open == -1 ==> s.slots[i].Free?
    requires AreHanded(handed, s.slots)
    ensures var t, i := FindSlot(s, f, memory), FirstFree(s.slots, 0);
            && t.n == s.n && |t.slots| == SLOTS && t.arrivals == s.arrivals + 1 && t.release == s.release
            && t.open == (if s.open == -1 && i < SLOTS && memory then i else s.open)
            && t.cb == (if t.open >= 0 then Storing(f) else Waiting)
            && OpenFrames(t) == OpenFrames(s) && (t.open >= 0 ==> t.slots[t.open].Filling?)
            && (s.open >= 0 ==> t.slots == s.slots)
            && AreHanded(handed, t.slots)
  {
    hide Owned;
  }

  /** A release neither accepts, drops, nor returns early any frame, and leaves the open batch alone. */
  ghost predicate SameFrames(s: State, t: State) {
    && t.accepted == s.accepted && t.dropped == s.dropped && t.early == s.early && t.cb == s.cb && t.open == s.open
  }

  lemma ReleaseSameFrames(s: State, e: Event, t: State)
    requires Takes(s, e, t) && (e.ReturnListed? || e.ClearOwner? || e.ClearCount?)
    ensures SameFrames(s, t)
  {
    hide Take, Skip;
  }

  /** What an arrival writes into the history: a frame without a slot is dropped. */
  lemma ArriveHistory(s: State, f: Frame, memory: bool, t: State)
    requires Takes(s, Arrive(f, memory), t)
    ensures t.accepted == s.accepted && t.early == s.early
    ensures t.dropped == if t.cb == Storing(f) then s.dropped else s.dropped + multiset{f}
  {
    hide FirstFree;
  }

  /** What the storing of a frame writes into the history: the frame is accepted, and returned early
      when it completes a refused batch. */
  lemma StoreHistory(s: State, v: Verdict, t: State)
    requires Takes(s, Store(v), t)
    ensures t.accepted == s.accepted + [s.cb.frame] && t.dropped == s.dropped
    ensures t.early == if |OpenFrames(s)| + 1 == s.n && v.Refused? then s.early + multiset{s.cb.frame} else s.early
  {
  }

  lemma UnownedIsFree(s: State)
    requires Inv(s)
    ensures |s.slots| == SLOTS
    ensures forall i: nat :: i < SLOTS && !Owned(s.slots[i]) && s.open == -1 ==> s.slots[i].Free?
  {
    forall i: nat | i < SLOTS && !Owned(s.slots[i]) && s.open == -1
      ensures s.slots[i].Free?
    {
      assert SlotFits(s, i);
    }
  }

  lemma StorableState(s: State)
    requires Inv(s) && s.cb.Storing?
    ensures Enabled(s, Store(Disabled)) && |OpenFrames(s)| < s.n
  {
    assert SlotFits(s, s.open);
  }

  lemma ReleaseState(s: State)
    requires Inv(s) && !s.release.NoRelease?
    ensures s.release.slot < SLOTS == |s.slots|
    ensures s.release.Returned? ==> s.slots[s.release.slot].Releasing?
    ensures s.release.Unflagged? ==> !s.slots[s.release.slot].Releasing? && !s.slots[s.release.slot].Stuck?
  {
    assert SlotFits(s, s.release.slot);
  }
}
