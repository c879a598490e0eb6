/** The streams of a camera channel, the buffers of a super buffer that go back through them, and
    linking and stopping. */
module CameraChannel {

  const MAX_STREAM_NUM_IN_BUNDLE: nat := 8

  /** A stream, with the handle of the channel that owns it. */
  datatype Stream = Stream(handle: nat, channelHandle: nat)

  datatype Buffer = NoBuffer | Buffer(streamId: nat, bufIdx: nat)

  datatype Status = NoError | NoInit | BadValue | InvalidOperation | Backend(code: int)

  // ---------- buffers going back ----------

  predicate Knows(streams: seq<Stream>, id: nat) {
    exists i :: 0 <= i < |streams| && streams[i].handle == id
  }

  /** What goes back and what stays, counted: of each buffer either all or none. */
  lemma {:induction false} ReturnableCounts(streams: seq<Stream>, bufs: seq<Buffer>, b: Buffer)
    ensures multiset(Returnable(streams, bufs))[b]
         == if b.Buffer? && (exists i :: 0 <= i < |streams| && streams[i].handle == b.streamId) then multiset(bufs)[b] else 0
  {
    hide Returnable;
    ReturnableTurn(streams, [], NoBuffer);
    if bufs != [] {
      var front, last := bufs[..|bufs| - 1], bufs[|bufs| - 1];
      ReturnableCounts(streams, front, b);
      assert bufs == front + [last];
      ReturnableTurn(streams, front, last);
      CountSnoc(front, last, b);
      CountSnoc(Returnable(streams, front), last, b);
    }
  }

  lemma AllReturnableCounts(streams: seq<Stream>, bufs: seq<Buffer>)
    ensures forall b :: multiset(Returnable(streams, bufs))[b] ==
                        if b.Buffer? && (exists i :: 0 <= i < |streams| && streams[i].handle == b.streamId)
                        then multiset(bufs)[b] else 0
  {
    forall b
      ensures multiset(Returnable(streams, bufs))[b] ==
              if b.Buffer? && (exists i :: 0 <= i < |streams| && streams[i].handle == b.streamId)
              then multiset(bufs)[b] else 0
    {
      ReturnableCounts(streams, bufs, b);
    }
  }

  lemma {:induction false} FilterCounts(bufs: seq<Buffer>, id: nat, b: Buffer)
    ensures multiset(Removed(bufs, id))[b] == if b.Buffer? && b.streamId == id then multiset(bufs)[b] else 0
    ensures multiset(Remaining(bufs, id))[b] == if b.Buffer? && b.streamId == id then 0 else multiset(bufs)[b]
  {
    if bufs != [] {
      var front, last := bufs[..|bufs| - 1], bufs[|bufs| - 1];
      FilterCounts(front, id, b);
      assert bufs == front + [last];
      FilterTurn(bufs, front, bufs, |front|, id);
      assert bufs[..|front| + 1] == bufs && bufs[..|front|] == front;
      hide Removed, Remaining;
      CountSnoc(front, last, b);
      CountSnoc(Removed(front, id), last, b);
      CountSnoc(Remaining(front, id), last, b);
    }
  }

  predicate OfStream(b: Buffer, id: nat) { b.Buffer? && b.streamId == id }

  /** The buffers of one stream, in order. */
  function Removed(bufs: seq<Buffer>, id: nat): (r: seq<Buffer>) {
    if bufs == [] then []
    else
      var last := bufs[|bufs| - 1];
      Removed(bufs[..|bufs| - 1], id) + if OfStream(last, id) then [last] else []
  }

  /** The places of all other entries. */
  function OtherPlaces(bufs: seq<Buffer>, id: nat): (places: seq<nat>)
    ensures |places| <= |bufs|
    ensures forall k :: 0 <= k < |places| ==> places[k] < |bufs| && !OfStream(bufs[places[k]], id)
    ensures forall j, k :: 0 <= j < k < |places| ==> places[j] < places[k]
    ensures forall p: nat :: p < |bufs| && !OfStream(bufs[p], id) ==> p in places
  {
    if bufs == [] then []
    else
      var front := bufs[..|bufs| - 1];
      OtherPlaces(front, id) + if OfStream(bufs[|bufs| - 1], id) then [] else [|bufs| - 1]
  }

  /** All other entries, in order. */
  function Remaining(bufs: seq<Buffer>, id: nat): (r: seq<Buffer>)
    ensures |r| <= |bufs|
  {
    if bufs == [] then []
    else
      var last := bufs[|bufs| - 1];
      Remaining(bufs[..|bufs| - 1], id) + if OfStream(last, id) then [] else [last]
  }

  /** What remains is a stable filter: the entries at exactly the other places, in rising order. */
  lemma {:induction false} RemainingIsStable(bufs: seq<Buffer>, id: nat)
    ensures |Remaining(bufs, id)| == |OtherPlaces(bufs, id)|
    ensures forall k :: 0 <= k < |OtherPlaces(bufs, id)| ==> Remaining(bufs, id)[k] == bufs[OtherPlaces(bufs, id)[k]]
  {
    if bufs != [] {
      var front := bufs[..|bufs| - 1];
      RemainingIsStable(front, id);
      forall k | 0 <= k < |OtherPlaces(bufs, id)|
        ensures Remaining(bufs, id)[k] == bufs[OtherPlaces(bufs, id)[k]]
      {
        if k < |OtherPlaces(front, id)| {
          assert front[OtherPlaces(front, id)[k]] == bufs[OtherPlaces(front, id)[k]];
        }
      }
    }
  }

  /** The buffers whose stream the channel knows, in order. */
  function Returnable(streams: seq<Stream>, bufs: seq<Buffer>): (r: seq<Buffer>) {
    if bufs == [] then []
    else
      var last := bufs[|bufs| - 1];
      Returnable(streams, bufs[..|bufs| - 1]) + if last.Buffer? && Knows(streams, last.streamId) then [last] else []
  }

  /** Returning the buffers of one stream first and the rest later gives back exactly what
      returning the whole super buffer gives back, each buffer equally often. */
  lemma {:induction false} ReturnedInTwoSteps(streams: seq<Stream>, bufs: seq<Buffer>, id: nat, b: Buffer)
    requires Knows(streams, id)
    ensures multiset(Returnable(streams, bufs))[b]
         == multiset(Removed(bufs, id))[b] + multiset(Returnable(streams, Remaining(bufs, id)))[b]
  {
    hide Knows, OfStream, Removed, Remaining, Returnable;
    if bufs == [] {
      FilterNothing(bufs, id);
      ReturnableTurn(streams, bufs, NoBuffer);
    } else {
      var front, last := bufs[..|bufs| - 1], bufs[|bufs| - 1];
      assert bufs == front + [last];
      ReturnedInTwoSteps(streams, front, id, b);
      FilterTurn(bufs, front, bufs, |front|, id);
      ReturnableTurn(streams, front, last);
      ReturnableTurn(streams, Remaining(front, id), last);
      CountSnoc(Returnable(streams, front), last, b);
      CountSnoc(Removed(front, id), last, b);
      CountSnoc(Returnable(streams, Remaining(front, id)), last, b);
      if OfStream(last, id) {
        OfStreamIsKnown(streams, last, id);
      }
      assert bufs[..|front| + 1] == bufs;
    }
  }

  lemma CountSnoc<T>(s: seq<T>, x: T, y: T)
    ensures multiset(s + [x])[y] == multiset(s)[y] + if x == y then 1 else 0
  {
  }

  lemma OfStreamIsKnown(streams: seq<Stream>, b: Buffer, id: nat)
    requires Knows(streams, id) && OfStream(b, id)
    ensures b.Buffer? && Knows(streams, b.streamId)
  {
  }

  lemma ReturnableTurn(streams: seq<Stream>, bufs: seq<Buffer>, last: Buffer)
    ensures Returnable(streams, []) == []
    ensures Returnable(streams, bufs + [last])
         == if last.Buffer? && Knows(streams, last.streamId) then Returnable(streams, bufs) + [last] else Returnable(streams, bufs)
  {
    assert (bufs + [last])[..|bufs|] == bufs;
  }

  /** A super buffer: the first numBufs entries of a fixed array. */
  class SuperBuffer {
    const bufs: array<Buffer>
    var numBufs: nat

    ghost predicate Valid()
      reads this
    {
      numBufs <= bufs.Length
    }

    ghost function Contents(): seq<Buffer>
      requires Valid()
      reads this, bufs
    {
      bufs[..numBufs]
    }

    constructor (contents: seq<Buffer>)
      ensures Valid() && Contents() == contents && fresh(bufs)
    {
      bufs := new Buffer[|contents|](i requires 0 <= i < |contents| => contents[i]);
      numBufs := |contents|;
    }

    /** Close the gap at `index` by moving every later entry one place down. */
    method Shift(index: nat)
      requires Valid() && index < numBufs
      modifies this, bufs
      ensures Valid() && Contents() == old(Contents())[..index] + old(Contents())[index + 1..]
    {
      var j := index;
      while j < numBufs - 1
        invariant index <= j <= numBufs - 1 && numBufs == old(numBufs)
        invariant forall k :: 0 <= k < index || j < k < numBufs ==> bufs[k] == old(bufs[k])
        invariant forall k :: index <= k < j ==> bufs[k] == old(bufs[k + 1])
      {
        bufs[j] := bufs[j + 1];
        j := j + 1;
      }
      numBufs := numBufs - 1;
    }
  }

  // ---------- linking and stopping ----------

  /** The streams that belong to the channel, in order. */
  function Own(streams: seq<Stream>, handle: nat): (own: seq<Stream>)
    ensures |own| <= |streams|
    ensures forall s :: s in own <==> s in streams && s.channelHandle == handle
  {
    if streams == [] then []
    else
      var last := streams[|streams| - 1];
      Own(streams[..|streams| - 1], handle) + if last.channelHandle == handle then [last] else []
  }

  lemma {:induction false} OwnConcat(s: seq<Stream>, t: seq<Stream>, handle: nat)
    ensures Own(s + t, handle) == Own(s, handle) + Own(t, handle)
  {
    if t == [] {
      assert s + t == s;
    } else {
      assert (s + t)[..|s + t| - 1] == s + t[..|t| - 1];
      OwnConcat(s, t[..|t| - 1], handle);
    }
  }

  lemma OwnOfOne(x: Stream, handle: nat)
    ensures Own([x], handle) == if x.channelHandle == handle then [x] else []
  {
    assert [x][..0] == [];
  }

  lemma {:induction false} OwnIsIdempotent(s: seq<Stream>, handle: nat)
    requires forall x :: x in s ==> x.channelHandle == handle
    ensures Own(s, handle) == s
  {
    if s != [] {
      assert s[|s| - 1] in s;
      OwnIsIdempotent(s[..|s| - 1], handle);
    }
  }

  /** A channel with its history: the streams it created, and those of them linked to it again. */
  datatype Channel = Channel(
    handle: nat,
    active: bool,
    streams: seq<Stream>,
    added: seq<Stream>,
    linkedOwn: seq<Stream>)

  datatype Operation =
    | Add(id: nat)             // a stream the backend gave this handle
    | Link(stream: Stream)     // a stream the backend agreed to link
    | Start
    | Stop

  /** The backend gives every stream its own handle, and a stream names this channel as its owner
      only when this channel created it. */
  predicate Enabled(c: Channel, op: Operation) {
    match op
    case Add(id) => |c.streams| < MAX_STREAM_NUM_IN_BUNDLE && Stream(id, c.handle) !in c.added
    case Link(s) => s.channelHandle == c.handle ==> s in c.added
    case Start => true
    case Stop => c.active
  }

  function Apply(c: Channel, op: Operation): Channel
    requires Enabled(c, op)
  {
    match op
    case Add(id) => c.(streams := c.streams + [Stream(id, c.handle)], added := c.added + [Stream(id, c.handle)])
    case Link(s) => c.(streams := c.streams + [s], linkedOwn := c.linkedOwn + Own([s], c.handle))
    case Start => c.(active := true)
    case Stop => c.(streams := Own(c.streams, c.handle), active := false)
  }

  ghost predicate IsRun(ops: seq<Operation>, states: seq<Channel>, handle: nat) {
    && |states| == |ops| + 1
    && states[0] == Channel(handle, false, [], [], [])
    && forall i: nat :: i < |ops| ==> Linked(ops, states, i)
  }

  ghost predicate Linked(ops: seq<Operation>, states: seq<Channel>, i: nat)
    requires i < |ops| && i + 1 < |states|
  {
    Enabled(states[i], ops[i]) && states[i + 1] == Apply(states[i], ops[i])
  }

  ghost predicate Inv(c: Channel) {
    && (forall s :: s in c.added ==> s.channelHandle == c.handle && multiset(c.added)[s] == 1)
    && (forall s :: s in c.linkedOwn ==> s in c.added)
    && (forall s :: multiset(Own(c.streams, c.handle))[s] == multiset(c.added)[s] + multiset(c.linkedOwn)[s])
    && (c.linkedOwn == [] ==> Own(c.streams, c.handle) == c.added)
  }

  lemma AddKeepsInv(c: Channel, id: nat)
    requires Inv(c) && Enabled(c, Add(id))
    ensures Inv(Apply(c, Add(id)))
  {
    hide Own;
    var x := Stream(id, c.handle);
    var d := Apply(c, Add(id));
    OwnConcat(c.streams, [x], c.handle);
    OwnIsIdempotent([x], c.handle);
    forall s
      ensures multiset(d.added)[s] == multiset(c.added)[s] + if x == s then 1 else 0
      ensures multiset(Own(d.streams, d.handle))[s] == multiset(Own(c.streams, c.handle))[s] + if x == s then 1 else 0
    {
      CountSnoc(c.added, x, s);
      CountSnoc(Own(c.streams, c.handle), x, s);
    }
    assert multiset(c.added)[x] == 0;
  }

  lemma LinkKeepsInv(c: Channel, x: Stream)
    requires Inv(c) && Enabled(c, Link(x))
    ensures Inv(Apply(c, Link(x)))
  {
    hide Own;
    var d := Apply(c, Link(x));
    OwnConcat(c.streams, [x], c.handle);
    if x.channelHandle == c.handle {
      OwnIsIdempotent([x], c.handle);
      forall s
        ensures multiset(d.linkedOwn)[s] == multiset(c.linkedOwn)[s] + if x == s then 1 else 0
        ensures multiset(Own(d.streams, d.handle))[s] == multiset(Own(c.streams, c.handle))[s] + if x == s then 1 else 0
      {
        CountSnoc(c.linkedOwn, x, s);
        CountSnoc(Own(c.streams, c.handle), x, s);
      }
    } else {
      OwnOfOne(x, c.handle);
    }
  }

  lemma StepKeepsInv(c: Channel, op: Operation)
    requires Inv(c) && Enabled(c, op)
    ensures Inv(Apply(c, op))
  {
    match op
    case Add(id) => AddKeepsInv(c, id);
    case Link(s) => LinkKeepsInv(c, s);
    case Start =>
    case Stop => OwnIsIdempotent(Own(c.streams, c.handle), c.handle);
  }

  lemma {:induction false} RunKeepsInv(ops: seq<Operation>, states: seq<Channel>, handle: nat, k: nat)
    requires IsRun(ops, states, handle) && k < |states|
    ensures Inv(states[k]) && states[k].handle == handle
  {
    if k > 0 {
      RunKeepsInv(ops, states, handle, k - 1);
      assert Linked(ops, states, k - 1);
      StepKeepsInv(states[k - 1], ops[k - 1]);
    }
  }

  /** One of the first k operations linked this stream. */
  ghost predicate WasLinked(ops: seq<Operation>, k: nat, s: Stream) {
    exists i: nat :: i < k && i < |ops| && ops[i] == Link(s)
  }

  lemma {:induction false} LinkedOwnIff(ops: seq<Operation>, states: seq<Channel>, handle: nat, k: nat, s: Stream)
    requires IsRun(ops, states, handle) && k < |states|
    ensures s in states[k].linkedOwn <==> s.channelHandle == handle && WasLinked(ops, k, s)
  {
    if k > 0 {
      LinkedOwnIff(ops, states, handle, k - 1, s);
      RunKeepsInv(ops, states, handle, k - 1);
      assert Linked(ops, states, k - 1);
      hide Inv, Own;
      assert WasLinked(ops, k, s) <==> WasLinked(ops, k - 1, s) || ops[k - 1] == Link(s);
      if ops[k - 1].Link? {
        OwnOfOne(ops[k - 1].stream, handle);
      }
    }
  }

  /** In every run, stop stops a stream this channel created exactly once if and only if no
      operation linked the stream to the channel itself; it never stops a linked one. */
  lemma StopsOnceIff(ops: seq<Operation>, states: seq<Channel>, handle: nat, k: nat, s: Stream)
    requires IsRun(ops, states, handle) && k < |states|
    ensures var stopped := Own(states[k].streams, handle);
            && (s in states[k].added ==> (multiset(stopped)[s] == 1 <==> !WasLinked(ops, k, s)))
            && (s !in states[k].added ==> s !in stopped)
            && (s.channelHandle != handle ==> s !in stopped)
  {
    RunKeepsInv(ops, states, handle, k);
    LinkedOwnIff(ops, states, handle, k, s);
    assert multiset(Own(states[k].streams, handle))[s]
        == multiset(states[k].added)[s] + multiset(states[k].linkedOwn)[s];
  }

  /** As long as no operation linked a stream to its own channel, stop leaves exactly the streams
      the channel created, in the order of their creation. */
  lemma StopLeavesAdded(ops: seq<Operation>, states: seq<Channel>, handle: nat, k: nat)
    requires IsRun(ops, states, handle) && k < |ops| && ops[k].Stop?
    requires forall i: nat :: i < k && ops[i].Link? ==> ops[i].stream.channelHandle != handle
    ensures states[k + 1].streams == states[k].added
  {
    RunKeepsInv(ops, states, handle, k);
    assert Linked(ops, states, k);
    if states[k].linkedOwn != [] {
      LinkedOwnIff(ops, states, handle, k, states[k].linkedOwn[0]);
      assert false;
    }
  }

  /** Linking a stream to the channel that created it makes stop stop it once more. */
  lemma OwnLinkAddsAStop(c: Channel, s: Stream)
    requires Inv(c) && s in c.added
    ensures Enabled(c, Link(s))
    ensures var stops := multiset(Own(Apply(c, Link(s)).streams, c.handle))[s];
            stops == multiset(Own(c.streams, c.handle))[s] + 1 && stops >= 2
  {
    OwnConcat(c.streams, [s], c.handle);
    OwnIsIdempotent([s], c.handle);
    CountSnoc(Own(c.streams, c.handle), s, s);
  }

  lemma RunOfThree(handle: nat, a: Operation, b: Operation, d: Operation, states: seq<Channel>)
    requires |states| == 4 && states[0] == Channel(handle, false, [], [], [])
    requires Enabled(states[0], a) && states[1] == Apply(states[0], a)
    requires Enabled(states[1], b) && states[2] == Apply(states[1], b)
    requires Enabled(states[2], d) && states[3] == Apply(states[2], d)
    ensures IsRun([a, b, d], states, handle)
  {
    hide Apply, Enabled;
    forall i: nat | i < 3
      ensures Linked([a, b, d], states, i)
    {
      assert i == 0 || i == 1 || i == 2;
    }
  }

  /** A channel with one stream of its own. */
  lemma OneStream(handle: nat, id: nat) returns (c: Channel)
    ensures Enabled(Channel(handle, false, [], [], []), Add(id))
    ensures c == Apply(Channel(handle, false, [], [], []), Add(id))
    ensures Inv(c) && c.handle == handle && Stream(id, handle) in c.added
    ensures multiset(Own(c.streams, handle))[Stream(id, handle)] == 1
  {
    AddKeepsInv(Channel(handle, false, [], [], []), id);
    c := Apply(Channel(handle, false, [], [], []), Add(id));
    OwnOfOne(Stream(id, handle), handle);
    assert c.streams == [Stream(id, handle)];
  }

  /** Its stream linked to the channel itself, and the channel started. */
  lemma OwnLinkAndStart(c1: Channel, s: Stream) returns (c2: Channel, c3: Channel)
    requires Inv(c1) && s in c1.added && multiset(Own(c1.streams, c1.handle))[s] == 1
    ensures Enabled(c1, Link(s)) && c2 == Apply(c1, Link(s))
    ensures Enabled(c2, Start) && c3 == Apply(c2, Start)
    ensures Enabled(c3, Stop) && multiset(Own(c3.streams, c1.handle))[s] == 2
  {
    OwnLinkAddsAStop(c1, s);
    hide Own, Inv;
    c2 := Apply(c1, Link(s));
    c3 := Apply(c2, Start);
  }

  /** Such a run exists: a stream is created, linked to its own channel, and stopped twice. */
  lemma OwnLinkStopsTwice(handle: nat, id: nat) returns (states: seq<Channel>)
    ensures IsRun([Add(id), Link(Stream(id, handle)), Start], states, handle) && |states| == 4
    ensures Enabled(states[3], Stop) && multiset(Own(states[3].streams, handle))[Stream(id, handle)] == 2
  {
    hide Apply, Enabled, Inv, Own, IsRun;
    var c1 := OneStream(handle, id);
    var c2, c3 := OwnLinkAndStart(c1, Stream(id, handle));
    states := [Channel(handle, false, [], [], []), c1, c2, c3];
    RunOfThree(handle, Add(id), Link(Stream(id, handle)), Start, states);
  }

  class QCameraChannel {
    const m_handle: nat
    var m_bIsActive: bool
    var mStreams: seq<Stream>
    ghost var added: seq<Stream>
    ghost var linkedOwn: seq<Stream>

    ghost function View(): Channel
      reads this
    {
      Channel(m_handle, m_bIsActive, mStreams, added, linkedOwn)
    }

    constructor (handle: nat)
      ensures View() == Channel(handle, false, [], [], []) && Inv(View())
    {
      m_handle, m_bIsActive, mStreams, added, linkedOwn := handle, false, [], [], [];
    }

    /** addStream.  `rc` is what initialising the new stream gave, `id` its handle. */
    method AddStream(id: nat, init: Status) returns (rc: Status)
      requires Inv(View()) && Stream(id, m_handle) !in added
      modifies this
      ensures Inv(View())
      ensures rc == if |old(mStreams)| >= 8 then BadValue else init
      ensures mStreams == if rc.NoError? then old(mStreams) + [Stream(id, m_handle)] else old(mStreams)
      ensures View() == if |old(mStreams)| < MAX_STREAM_NUM_IN_BUNDLE && init.NoError?
                        then Apply(old(View()), Add(id)) else old(View())
    {
      if |mStreams| >= MAX_STREAM_NUM_IN_BUNDLE {
        return BadValue;
      }
      if init.NoError? {
        hide Inv, Own;
        StepKeepsInv(View(), Add(id));
        mStreams := mStreams + [Stream(id, m_handle)];
        added := added + [Stream(id, m_handle)];
      }
      return init;
    }

    /** linkStream.  `linkHandle` is the backend's answer; 0 means failure.  The limit on the number
        of streams is not checked here. */
    method LinkStream(channelGiven: bool, streamGiven: bool, stream: Stream, linkHandle: nat) returns (rc: Status)
      requires Inv(View()) && Enabled(View(), Link(stream))
      modifies this
      ensures Inv(View())
      ensures rc == if m_handle == 0 || !channelGiven || !streamGiven then NoInit
                    else if linkHandle == 0 then InvalidOperation else NoError
      ensures View() == if rc.NoError? then Apply(old(View()), Link(stream)) else old(View())
      ensures mStreams == if rc.NoError? then old(mStreams) + [stream] else old(mStreams)
    {
      if m_handle == 0 || !channelGiven || !streamGiven {
        return NoInit;
      }
      if linkHandle == 0 {
        return InvalidOperation;
      }
      StepKeepsInv(View(), Link(stream));
      mStreams := mStreams + [stream];
      linkedOwn := linkedOwn + Own([stream], m_handle);
      return NoError;
    }

    /** stop: the streams of the channel are stopped in order, linked ones leave the list. */
    method StopChannel(backend: Status) returns (rc: Status, stopped: seq<Stream>)
      requires Inv(View())
      modifies this
      ensures Inv(View())
      ensures rc == if old(m_bIsActive) then backend else NoInit
      ensures View() == if old(m_bIsActive) then Apply(old(View()), Stop) else old(View())
      ensures stopped == if old(m_bIsActive) then Own(old(mStreams), m_handle) else []
      ensures !m_bIsActive && (old(m_bIsActive) ==> mStreams == stopped)
      ensures old(m_bIsActive) ==> forall x :: x in stopped <==> x in old(mStreams) && x.channelHandle == m_handle
      ensures !old(m_bIsActive) ==> mStreams == old(mStreams)
    {
      stopped := [];
      if !m_bIsActive {
        return NoInit, stopped;
      }
      StepKeepsInv(View(), Stop);
      stopped := StopOwnStreams();
      m_bIsActive := false;
      return backend, stopped;
    }

    /** The loop of stop, which removes entries from the list it walks. */
    method StopOwnStreams() returns (stopped: seq<Stream>)
      modifies this`mStreams
      ensures mStreams == Own(old(mStreams), m_handle) && stopped == mStreams
    {
      hide Own;
      ghost var s, pos := mStreams, 0;
      OwnPrefix(s, 0, m_handle);
      stopped := [];
      var i := 0;
      while i < |mStreams|
        invariant pos <= |s| && i == |stopped|
        invariant stopped == Own(s[..pos], m_handle) && mStreams == stopped + s[pos..]
        decreases |s| - pos
      {
        OwnPrefix(s, pos, m_handle);
        assert mStreams[i] == s[pos];
        if m_handle == mStreams[i].channelHandle {
          stopped := stopped + [mStreams[i]];
          i := i + 1;
        } else {
          mStreams := mStreams[..i] + mStreams[i + 1..];
        }
        pos := pos + 1;
      }
      assert s[..pos] == s;
    }

    /** bufDone on a stream, through the first stream of the channel with this handle. */
    method FindStream(id: nat) returns (found: bool)
      ensures found == Knows(mStreams, id)
      ensures found <==> exists i :: 0 <= i < |mStreams| && mStreams[i].handle == id
    {
      var j := 0;
      while j < |mStreams|
        invariant 0 <= j <= |mStreams|
        invariant forall k :: 0 <= k < j ==> mStreams[k].handle != id
      {
        if mStreams[j].handle == id {
          return true;
        }
        j := j + 1;
      }
      return false;
    }

    /** bufDone of a super buffer: every buffer whose stream is known goes back, in order. */
    method BufDone(frame: SuperBuffer) returns (returned: seq<Buffer>)
      requires frame.Valid()
      ensures returned == Returnable(mStreams, frame.Contents())
      ensures forall b :: multiset(returned)[b] ==
                          if b.Buffer? && (exists i :: 0 <= i < |mStreams| && mStreams[i].handle == b.streamId)
                          then multiset(frame.Contents())[b] else 0
    {
      hide Returnable, Knows;
      AllReturnableCounts(mStreams, frame.Contents());
      ReturnableTurn(mStreams, [], NoBuffer);
      assert frame.bufs[..0] == [];
      returned := [];
      var i := 0;
      while i < frame.numBufs
        invariant 0 <= i <= frame.numBufs
        invariant returned == Returnable(mStreams, frame.bufs[..i])
      {
        var b := frame.bufs[i];
        ReturnableTurn(mStreams, frame.bufs[..i], b);
        assert frame.bufs[..i + 1] == frame.bufs[..i] + [b];
        if b.Buffer? {
          var found := FindStream(b.streamId);
          if found {
            returned := returned + [b];
          }
        }
        i := i + 1;
      }
    }

    /** bufDone for one stream: its buffers go back in order and leave the super buffer, which
        keeps the rest in order; a stream the channel does not know changes nothing. */
    method BufDoneStream(frame: SuperBuffer, streamId: nat) returns (returned: seq<Buffer>)
      requires frame.Valid()
      modifies frame, frame.bufs
      ensures frame.Valid()
      ensures if Knows(mStreams, streamId)
              then returned == Removed(old(frame.Contents()), streamId)
                && frame.Contents() == Remaining(old(frame.Contents()), streamId)
              else returned == [] && frame.Contents() == old(frame.Contents())
      ensures (exists i :: 0 <= i < |mStreams| && mStreams[i].handle == streamId) ==>
                forall b: Buffer :: if b.Buffer? && b.streamId == streamId
                            then multiset(returned)[b] == multiset(old(frame.Contents()))[b] && b !in frame.Contents()
                            else b !in returned && multiset(frame.Contents())[b] == multiset(old(frame.Contents()))[b]
    {
      ghost var all := frame.Contents();
      forall b: Buffer
        ensures if b.Buffer? && b.streamId == streamId
                then multiset(Removed(all, streamId))[b] == multiset(all)[b] && b !in multiset(Remaining(all, streamId))
                else b !in multiset(Removed(all, streamId)) && multiset(Remaining(all, streamId))[b] == multiset(all)[b]
      {
        FilterCounts(all, streamId, b);
      }
      returned := ReturnStream(frame, streamId);
    }

    /** The loops of bufDone for one stream, which close each gap in place. */
    method ReturnStream(frame: SuperBuffer, streamId: nat) returns (returned: seq<Buffer>)
      requires frame.Valid()
      modifies frame, frame.bufs
      ensures frame.Valid()
      ensures if Knows(mStreams, streamId)
              then returned == Removed(old(frame.Contents()), streamId)
                && frame.Contents() == Remaining(old(frame.Contents()), streamId)
              else returned == [] && frame.Contents() == old(frame.Contents())
    {
      hide Removed, Remaining, Knows;
      ghost var s, pos := frame.Contents(), 0;
      ghost var known := Knows(mStreams, streamId);
      ghost var front := [];
      FilterNothing(s[..0], streamId);
      assert s[0..] == s;
      returned := [];
      var i := 0;
      while i < frame.numBufs
        invariant frame.Valid() && pos <= |s| && i == |front|
        invariant frame.Contents() == front + s[pos..]
        invariant if known then front == Remaining(s[..pos], streamId) && returned == Removed(s[..pos], streamId)
                  else front == s[..pos] && returned == []
        decreases |s| - pos
      {
        FilterTurn(frame.Contents(), front, s, pos, streamId);
        var b := frame.bufs[i];
        assert frame.Contents()[i] == b;
        var gone := false;
        if OfStream(b, streamId) {
          gone := FindStream(streamId);
        }
        if gone {
          returned := returned + [b];
          frame.Shift(i);
        } else {
          front := front + [b];
          i := i + 1;
        }
        pos := pos + 1;
      }
      assert s[..pos] == s && s[pos..] == [];
    }
  }

  lemma OwnPrefix(s: seq<Stream>, pos: nat, handle: nat)
    requires pos <= |s|
    ensures Own(s[..0], handle) == []
    ensures pos < |s| ==> s[pos..] == [s[pos]] + s[pos + 1..]
    ensures pos < |s| ==>
              Own(s[..pos + 1], handle)
              == if s[pos].channelHandle == handle then Own(s[..pos], handle) + [s[pos]] else Own(s[..pos], handle)
  {
    if pos < |s| {
      assert s[..pos + 1][..pos] == s[..pos];
    }
  }

  lemma FilterNothing(s: seq<Buffer>, id: nat)
    requires s == []
    ensures Remaining(s, id) == [] == Removed(s, id)
  {
  }

  /** One turn of the outer loop of bufDone, at position pos of the original contents s. */
  lemma FilterTurn(now: seq<Buffer>, front: seq<Buffer>, s: seq<Buffer>, pos: nat, id: nat)
    requires pos < |s| && now == front + s[pos..]
    ensures |now| > |front| && now[|front|] == s[pos]
    ensures now[..|front|] + now[|front| + 1..] == front + s[pos + 1..]
    ensures now == front + [s[pos]] + s[pos + 1..]
    ensures s[..pos + 1] == s[..pos] + [s[pos]]
    ensures Remaining(s[..pos + 1], id) == if OfStream(s[pos], id) then Remaining(s[..pos], id) else Remaining(s[..pos], id) + [s[pos]]
    ensures Removed(s[..pos + 1], id) == if OfStream(s[pos], id) then Removed(s[..pos], id) + [s[pos]] else Removed(s[..pos], id)
  {
    assert s[pos..] == [s[pos]] + s[pos + 1..];
    assert s[..pos + 1][..pos] == s[..pos];
  }
}
