/** Offline reprocessing: the buffers mapped into the backend for it, their indices, and their
    unmapping when the channel stops. */
module ReprocessChannel {

  datatype MappingType = OfflineMetaBuf | OfflineInputBuf

  datatype OfflineBuffer = OfflineBuffer(stream: nat, kind: MappingType, index: nat)

  datatype Option<T> = None | Some(value: T)

  datatype Status = NoError | InvalidOperation | MappingFailed | Backend(code: int)

  /** What a reprocess request names: its stream and the indices of its input and metadata buffers. */
  datatype Request = Request(stream: nat, bufIndex: nat, metaIndex: nat)

  /** The list kept by the channel, the mappings alive in the backend, those among them whose
      unmapping failed, and every request sent. */
  datatype State = State(
    list: seq<OfflineBuffer>,
    mapped: multiset<OfflineBuffer>,
    stuck: multiset<OfflineBuffer>)

  datatype Action =
    | Reprocess(stream: nat, metaMaps: bool, inputMaps: bool)   // arguments accepted, stream found
    | Stop(failing: set<nat>)                                   // places whose unmapping fails

  function Initial(): State { State([], multiset{}, multiset{}) }

  function MapOne(s: State, b: OfflineBuffer): State {
    s.(list := s.list + [b], mapped := s.mapped + multiset{b})
  }

  /** The buffers at the failing places of the list. */
  function Failing(list: seq<OfflineBuffer>, failing: set<nat>): (m: multiset<OfflineBuffer>)
    ensures forall b :: m[b] <= multiset(list)[b]
  {
    if list == [] then multiset{}
    else
      var n := |list| - 1;
      assert list == list[..n] + [list[n]];
      Failing(list[..n], failing) + if n in failing then multiset{list[n]} else multiset{}
  }

  /** With the places numbered, a buffer is among them exactly when its place is. */
  lemma {:induction false} FailingAt(list: seq<OfflineBuffer>, failing: set<nat>, k: nat)
    requires forall j :: 0 <= j < |list| ==> list[j].index == j
    requires k < |list|
    ensures Failing(list, failing)[list[k]] == if k in failing then 1 else 0
  {
    hide Failing;
    var n := |list| - 1;
    var front, x := list[..n], list[k];
    assert list == front + [list[n]];
    FailingSnoc(front, list[n], failing, x);
    if k < n {
      FailingAt(front, failing, k);
      assert front[k] == x;
    } else {
      assert x !in front;
      assert multiset(front)[x] == 0;
    }
  }

  lemma FailingSnoc(front: seq<OfflineBuffer>, last: OfflineBuffer, failing: set<nat>, x: OfflineBuffer)
    ensures Failing(front + [last], failing)[x]
         == Failing(front, failing)[x] + if |front| in failing && x == last then 1 else 0
  {
    assert (front + [last])[..|front|] == front;
  }

  function Apply(s: State, a: Action): State {
    match a
    case Reprocess(stream, metaMaps, inputMaps) =>
      if !metaMaps then s
      else
        var t := MapOne(s, OfflineBuffer(stream, OfflineMetaBuf, |s.list|));
        if inputMaps then MapOne(t, OfflineBuffer(stream, OfflineInputBuf, |t.list|)) else t
    case Stop(failing) =>
      var left := Failing(s.list, failing);
      State([], s.mapped - (multiset(s.list) - left), s.stuck + left)
  }

  function Run(actions: seq<Action>): State {
    if actions == [] then Initial() else Apply(Run(actions[..|actions| - 1]), actions[|actions| - 1])
  }

  /** The list numbers its buffers from 0 in order, and with the stuck ones it is what the backend
      has mapped. */
  ghost predicate Inv(s: State) {
    && (forall k :: 0 <= k < |s.list| ==> s.list[k].index == k)
    && (forall b :: s.mapped[b] == multiset(s.list)[b] + s.stuck[b])
  }

  lemma MapOneKeeps(s: State, b: OfflineBuffer)
    requires Inv(s) && b.index == |s.list|
    ensures Inv(MapOne(s, b))
  {
    forall x
      ensures multiset(s.list + [b])[x] == multiset(s.list)[x] + multiset{b}[x]
    {
    }
  }

  lemma StepKeepsInv(s: State, a: Action)
    requires Inv(s)
    ensures Inv(Apply(s, a))
  {
    match a
    case Reprocess(stream, metaMaps, inputMaps) =>
      if metaMaps {
        hide Inv;
        var b := OfflineBuffer(stream, OfflineMetaBuf, |s.list|);
        MapOneKeeps(s, b);
        if inputMaps {
          MapOneKeeps(MapOne(s, b), OfflineBuffer(stream, OfflineInputBuf, |s.list| + 1));
        }
      }
    case Stop(failing) =>
      hide Failing;
  }

  lemma {:induction false} RunKeepsInv(actions: seq<Action>)
    ensures Inv(Run(actions))
  {
    if actions != [] {
      RunKeepsInv(actions[..|actions| - 1]);
      StepKeepsInv(Run(actions[..|actions| - 1]), actions[|actions| - 1]);
    }
  }

  lemma StopIs(s: State, failing: set<nat>)
    ensures var left := Failing(s.list, failing);
            Apply(s, Stop(failing)) == State([], s.mapped - (multiset(s.list) - left), s.stuck + left)
  {
  }

  /** A stop leaves mapped of each listed buffer what was stuck before, and one more where its unmapping
      fails. */
  lemma StopMeans(s: State, failing: set<nat>)
    requires Inv(s)
    ensures var t := Apply(s, Stop(failing));
            forall k :: 0 <= k < |s.list| ==>
              t.mapped[s.list[k]] == s.stuck[s.list[k]] + if k in failing then 1 else 0
  {
    var t := Apply(s, Stop(failing));
    hide Failing;
    forall k: nat | k < |s.list|
      ensures t.mapped[s.list[k]] == s.stuck[s.list[k]] + if k in failing then 1 else 0
    {
      FailingAt(s.list, failing, k);
    }
  }

  // ---------- what every run guarantees ----------

  /** In every reachable state the indices are exactly 0 to n-1 in list order, also after an input
      buffer failed to map. */
  lemma {:induction false} IndicesAreDense(actions: seq<Action>, k: nat)
    requires k < |Run(actions).list|
    ensures Run(actions).list[k].index == k
  {
    RunKeepsInv(actions);
  }

  /** No two listed buffers are the same mapping. */
  lemma ListedOnce(actions: seq<Action>, j: nat, k: nat)
    requires j < |Run(actions).list| && k < |Run(actions).list| && Run(actions).list[j] == Run(actions).list[k]
    ensures j == k
  {
    RunKeepsInv(actions);
  }

  lemma {:induction false} NothingFails(list: seq<OfflineBuffer>, failing: set<nat>)
    ensures (forall k: nat :: k < |list| ==> k !in failing) <==> Failing(list, failing) == multiset{}
  {
    if list != [] {
      NothingFails(list[..|list| - 1], failing);
    }
  }

  /** If action i is a stop, every buffer listed then is unmapped. */
  ghost predicate UnmapsAll(actions: seq<Action>, i: nat)
    requires i < |actions|
  {
    actions[i].Stop? ==> forall k: nat :: k < |Run(actions[..i]).list| ==> k !in actions[i].failing
  }

  ghost predicate EveryUnmapSucceeds(actions: seq<Action>) {
    forall i: nat :: i < |actions| ==> UnmapsAll(actions, i)
  }

  lemma SucceedsSnoc(actions: seq<Action>)
    requires actions != []
    ensures EveryUnmapSucceeds(actions)
            <==> EveryUnmapSucceeds(actions[..|actions| - 1]) && UnmapsAll(actions, |actions| - 1)
  {
    var front := actions[..|actions| - 1];
    forall i: nat | i < |front|
      ensures UnmapsAll(front, i) == UnmapsAll(actions, i)
    {
      assert front[..i] == actions[..i];
    }
  }

  /** A mapping is stuck exactly when some stop met a buffer that did not unmap. */
  lemma {:induction false} NothingStuckIff(actions: seq<Action>)
    ensures Run(actions).stuck == multiset{} <==> EveryUnmapSucceeds(actions)
  {
    if actions != [] {
      var front, a := actions[..|actions| - 1], actions[|actions| - 1];
      NothingStuckIff(front);
      SucceedsSnoc(actions);
      if a.Stop? {
        var s := Run(front);
        NothingFails(s.list, a.failing);
        assert Run(actions).stuck == s.stuck + Failing(s.list, a.failing);
        SumIsEmpty(s.stuck, Failing(s.list, a.failing));
      }
    }
  }

  lemma SumIsEmpty(m: multiset<OfflineBuffer>, n: multiset<OfflineBuffer>)
    ensures m + n == multiset{} <==> m == multiset{} && n == multiset{}
  {
    if m + n == multiset{} {
      forall b
        ensures m[b] == 0 && n[b] == 0
      {
        assert (m + n)[b] == 0;
      }
    }
  }

  /** The list is exactly what the backend has mapped if and only if every stop so far unmapped all
      it found listed. */
  lemma ListIsMappedIff(actions: seq<Action>)
    ensures Run(actions).mapped == multiset(Run(actions).list) <==> EveryUnmapSucceeds(actions)
  {
    RunKeepsInv(actions);
    NothingStuckIff(actions);
    var s := Run(actions);
    if s.stuck != multiset{} {
      var b :| b in s.stuck;
      assert s.mapped[b] > multiset(s.list)[b];
    }
  }

  lemma {:induction false} CountedOnce(list: seq<OfflineBuffer>, b: OfflineBuffer)
    requires forall j, k :: 0 <= j < k < |list| ==> list[j] != list[k]
    ensures multiset(list)[b] <= 1
  {
    if list != [] {
      var n := |list| - 1;
      assert list == list[..n] + [list[n]];
      CountedOnce(list[..n], b);
    }
  }

  /** As long as every unmapping succeeds, the backend never holds a mapping twice. */
  lemma MappedAtMostOnce(actions: seq<Action>, b: OfflineBuffer)
    requires EveryUnmapSucceeds(actions)
    ensures Run(actions).mapped[b] <= 1
  {
    RunKeepsInv(actions);
    NothingStuckIff(actions);
    CountedOnce(Run(actions).list, b);
  }

  lemma RunSnoc(actions: seq<Action>, a: Action)
    ensures Run(actions + [a]) == Apply(Run(actions), a)
  {
    assert (actions + [a])[..|actions|] == actions;
  }

  lemma RunOfOne(a: Action)
    ensures Run([a]) == Apply(Initial(), a)
  {
    assert [a][..0] == [];
  }

  /** One buffer mapped, and its unmapping fails: it stays mapped and nobody knows it. */
  lemma ForgottenMapping(stream: nat)
    ensures var s := Run([Reprocess(stream, true, false), Stop({0})]);
            && s.list == [] && s.mapped == multiset{OfflineBuffer(stream, OfflineMetaBuf, 0)}
  {
    var a, b := Reprocess(stream, true, false), Stop({0});
    var x := OfflineBuffer(stream, OfflineMetaBuf, 0);
    RunOfOne(a);
    assert Run([a]) == State([x], multiset{x}, multiset{});
    assert [a, b][..1] == [a];
    assert [x][..0] == [];
    assert Failing([x], {0}) == multiset{x};
  }

  /** The next request reuses its index, and the backend holds the same mapping twice. */
  lemma ForgottenMappingIsMappedAgain(stream: nat)
    ensures var s := Run([Reprocess(stream, true, false), Stop({0}), Reprocess(stream, true, false)]);
            s.mapped[OfflineBuffer(stream, OfflineMetaBuf, 0)] == 2
  {
    var a, b := Reprocess(stream, true, false), Stop({0});
    hide Run, Failing;
    ForgottenMapping(stream);
    RunSnoc([a, b], a);
    assert [a, b] + [a] == [a, b, a];
  }

  /** stop leaves mapped exactly what was stuck before and what failed to unmap now; it leaves
      nothing if and only if every stop so far, this one included, unmaps all it finds listed. */
  lemma StopLeaves(actions: seq<Action>, failing: set<nat>)
    ensures var s := Run(actions);
            var t := Apply(s, Stop(failing));
            && t.list == [] && (forall b :: t.mapped[b] == s.stuck[b] + Failing(s.list, failing)[b])
            && (t.mapped == multiset{} <==>
                EveryUnmapSucceeds(actions) && forall k: nat :: k < |s.list| ==> k !in failing)
  {
    var s := Run(actions);
    RunKeepsInv(actions);
    NothingFails(s.list, failing);
    NothingStuckIff(actions);
    var t := Apply(s, Stop(failing));
    hide Failing, EveryUnmapSucceeds;
    forall b
      ensures t.mapped[b] == s.stuck[b] + Failing(s.list, failing)[b]
    {
      assert s.mapped[b] == multiset(s.list)[b] + s.stuck[b];
    }
    if t.mapped == multiset{} {
      forall b
        ensures s.stuck[b] == 0 && Failing(s.list, failing)[b] == 0
      {
        assert t.mapped[b] == 0;
      }
    }
  }

  // ---------- the channel object ----------

  datatype Frame = Frame(streamId: nat)

  class QCameraReprocessChannel {
    const mStreams: seq<nat>
    const mSrcStreamHandles: seq<nat>
    var mOfflineBuffers: seq<OfflineBuffer>
    ghost var mapped: multiset<OfflineBuffer>
    ghost var stuck: multiset<OfflineBuffer>

    ghost function View(): State
      reads this
    {
      State(mOfflineBuffers, mapped, stuck)
    }

    ghost predicate Valid()
      reads this
    {
      |mStreams| <= |mSrcStreamHandles| && Inv(View())
    }

    constructor (streams: seq<nat>, sources: seq<nat>)
      requires |streams| <= |sources|
      ensures Valid() && View() == Initial() && mStreams == streams && mSrcStreamHandles == sources
    {
      mStreams, mSrcStreamHandles := streams, sources;
      mOfflineBuffers, mapped, stuck := [], multiset{}, multiset{};
    }

    /** getStreamBySrouceHandle: the first stream made for this source. */
    method GetStreamBySourceHandle(srcHandle: nat) returns (pStream: Option<nat>)
      requires Valid()
      ensures pStream.None? <==> srcHandle !in mSrcStreamHandles[..|mStreams|]
      ensures pStream.Some? ==>
                exists i :: 0 <= i < |mStreams| && mSrcStreamHandles[i] == srcHandle && pStream.value == mStreams[i]
                            && srcHandle !in mSrcStreamHandles[..i]
    {
      var i := 0;
      while i < |mStreams|
        invariant 0 <= i <= |mStreams| && srcHandle !in mSrcStreamHandles[..i]
      {
        if mSrcStreamHandles[i] == srcHandle {
          assert srcHandle in mSrcStreamHandles[..|mStreams|] by {
            assert mSrcStreamHandles[..|mStreams|][i] == srcHandle;
          }
          return Some(mStreams[i]);
        }
        i := i + 1;
      }
      return None;
    }

    /** The search for the next free index: one more than the largest in the list. */
    method NextIndex() returns (bufIndex: nat)
      requires Valid()
      ensures bufIndex == |mOfflineBuffers|
    {
      bufIndex := 0;
      if mOfflineBuffers != [] {
        var it := 0;
        while it < |mOfflineBuffers|
          invariant 0 <= it <= |mOfflineBuffers|
          invariant bufIndex == if it == 0 then 0 else it - 1
        {
          bufIndex := if bufIndex < mOfflineBuffers[it].index then mOfflineBuffers[it].index else bufIndex;
          it := it + 1;
        }
        bufIndex := bufIndex + 1;
      }
    }

    /** The validation at the head of doReprocessOffline: the stream to use, or none. */
    method TargetStream(frame: Option<Frame>, metaGiven: bool, given: Option<nat>) returns (target: Option<nat>)
      requires Valid()
      ensures target.None? <==> frame.None? || !metaGiven
                                || (given.None? && frame.value.streamId !in mSrcStreamHandles[..|mStreams|])
      ensures target.Some? && given.Some? ==> target == given
      ensures target.Some? && given.None? ==>
                exists i :: 0 <= i < |mStreams| && mSrcStreamHandles[i] == frame.value.streamId && target.value == mStreams[i]
                            && frame.value.streamId !in mSrcStreamHandles[..i]
    {
      if frame.None? || !metaGiven {
        return None;
      }
      target := given;
      if target.None? {
        target := GetStreamBySourceHandle(frame.value.streamId);
      }
    }

    /** mapBuf of one buffer, kept in the list when the backend takes it. */
    method MapBuf(b: OfflineBuffer, maps: bool)
      requires Inv(View()) && b.index == |mOfflineBuffers|
      modifies this
      ensures View() == (if maps then MapOne(old(View()), b) else old(View())) && Inv(View())
      ensures mOfflineBuffers == if maps then old(mOfflineBuffers) + [b] else old(mOfflineBuffers)
    {
      if maps {
        MapOneKeeps(View(), b);
        mOfflineBuffers := mOfflineBuffers + [b];
        mapped := mapped + multiset{b};
      }
    }

    /** doReprocessOffline.  `metaMaps` and `inputMaps` tell whether the backend maps the two
        buffers, `target` which stream was used.  A request goes out only when both are mapped, and
        names exactly those two. */
    method DoReprocessOffline(frame: Option<Frame>, metaGiven: bool, given: Option<nat>,
                              metaMaps: bool, inputMaps: bool, setParameter: Status)
      returns (rc: Status, request: Option<Request>, target: Option<nat>)
      requires Valid()
      modifies this
      ensures Valid()
      ensures target.None? <==> frame.None? || !metaGiven
                                || (given.None? && frame.value.streamId !in mSrcStreamHandles[..|mStreams|])
      ensures target.Some? && given.Some? ==> target == given
      ensures target.Some? && given.None? ==>
                exists i :: 0 <= i < |mStreams| && mSrcStreamHandles[i] == frame.value.streamId && target.value == mStreams[i]
                            && frame.value.streamId !in mSrcStreamHandles[..i]
      ensures target.None? ==> rc == InvalidOperation && request.None? && View() == old(View())
      ensures mOfflineBuffers == old(mOfflineBuffers) +
                                 if target.None? || !metaMaps then []
                                 else if !inputMaps
                                 then [OfflineBuffer(target.value, OfflineMetaBuf, |old(mOfflineBuffers)|)]
                                 else [OfflineBuffer(target.value, OfflineMetaBuf, |old(mOfflineBuffers)|),
                                       OfflineBuffer(target.value, OfflineInputBuf, |old(mOfflineBuffers)| + 1)]
      ensures target.Some? ==>
                && View() == Apply(old(View()), Reprocess(target.value, metaMaps, inputMaps))
                && rc == (if metaMaps && inputMaps then setParameter else MappingFailed)
                && request == (if metaMaps && inputMaps
                               then Some(Request(target.value, |old(mOfflineBuffers)| + 1, |old(mOfflineBuffers)|)) else None)
      ensures request.Some? ==>
                var r := request.value;
                && r.bufIndex < |mOfflineBuffers| && mOfflineBuffers[r.bufIndex] == OfflineBuffer(r.stream, OfflineInputBuf, r.bufIndex)
                && r.metaIndex < |mOfflineBuffers| && mOfflineBuffers[r.metaIndex] == OfflineBuffer(r.stream, OfflineMetaBuf, r.metaIndex)
    {
      hide Inv, Apply;
      target := TargetStream(frame, metaGiven, given);
      if target.None? {
        return InvalidOperation, None, target;
      }
      request := MapRequest(target.value, metaMaps, inputMaps);
      rc := if request.Some? then setParameter else MappingFailed;
    }

    /** Map the metadata buffer, then the input buffer, at the next two indices; without either of them
        there is no request. */
    method MapRequest(stream: nat, metaMaps: bool, inputMaps: bool) returns (request: Option<Request>)
      requires Valid()
      modifies this
      ensures Valid() && View() == Apply(old(View()), Reprocess(stream, metaMaps, inputMaps))
      ensures mOfflineBuffers == old(mOfflineBuffers) +
                                 if !metaMaps then []
                                 else if !inputMaps then [OfflineBuffer(stream, OfflineMetaBuf, |old(mOfflineBuffers)|)]
                                 else [OfflineBuffer(stream, OfflineMetaBuf, |old(mOfflineBuffers)|),
                                       OfflineBuffer(stream, OfflineInputBuf, |old(mOfflineBuffers)| + 1)]
      ensures request == if metaMaps && inputMaps
                         then Some(Request(stream, |old(mOfflineBuffers)| + 1, |old(mOfflineBuffers)|)) else None
    {
      var bufIndex := NextIndex();
      hide Inv;
      var metaIndex := bufIndex;
      MapBuf(OfflineBuffer(stream, OfflineMetaBuf, metaIndex), metaMaps);
      if !metaMaps {
        return None;
      }
      bufIndex := bufIndex + 1;
      MapBuf(OfflineBuffer(stream, OfflineInputBuf, bufIndex), inputMaps);
      if !inputMaps {
        return None;
      }
      return Some(Request(stream, bufIndex, metaIndex));
    }

    /** The loop of stop: unmapBuf once for each listed buffer, in order; a failure is only logged. */
    method UnmapAll(failing: set<nat>) returns (unmapped: seq<OfflineBuffer>, ghost left: multiset<OfflineBuffer>)
      ensures unmapped == mOfflineBuffers && left == Failing(mOfflineBuffers, failing)
    {
      unmapped := [];
      left := multiset{};
      var it := 0;
      while it < |mOfflineBuffers|
        invariant 0 <= it <= |mOfflineBuffers|
        invariant unmapped == mOfflineBuffers[..it] && left == Failing(mOfflineBuffers[..it], failing)
      {
        assert mOfflineBuffers[..it + 1][..it] == mOfflineBuffers[..it];
        unmapped := unmapped + [mOfflineBuffers[it]];
        if it in failing {
          left := left + multiset{mOfflineBuffers[it]};
        }
        it := it + 1;
      }
      assert mOfflineBuffers[..it] == mOfflineBuffers;
    }

    /** The part of stop after the channel itself stopped: everything listed is unmapped, and the
        list is cleared whatever the backend answers. */
    method StopOffline(failing: set<nat>) returns (unmapped: seq<OfflineBuffer>)
      requires Valid()
      modifies this
      ensures Valid() && View() == Apply(old(View()), Stop(failing)) && mOfflineBuffers == []
      ensures unmapped == old(mOfflineBuffers)
      ensures forall k :: 0 <= k < |unmapped| ==>
                mapped[unmapped[k]] == old(stuck)[unmapped[k]] + if k in failing then 1 else 0
    {
      hide Inv, Failing, Apply;
      StepKeepsInv(View(), Stop(failing));
      StopIs(View(), failing);
      StopMeans(View(), failing);
      ghost var left;
      unmapped, left := UnmapAll(failing);
      mapped := mapped - (multiset(mOfflineBuffers) - left);
      stuck := stuck + left;
      mOfflineBuffers := [];
    }
  }
}
