/** The list of API results: a singly linked heap list to which the state machine appends results
    and from which each waiting API call takes the first result of its own event. */
module ApiResultList {

  datatype ApiResult = ApiResult(requestApi: int, status: int, resultType: int)

  datatype Option<T> = None | Some(value: T)

  // ---------- the list as a sequence ----------

  /** Index of the first result for this event, or the length. */
  function FirstFor(s: seq<ApiResult>, evt: int): (i: nat)
    ensures i <= |s| && (i < |s| ==> s[i].requestApi == evt)
    ensures forall k :: 0 <= k < i ==> s[k].requestApi != evt
  {
    if s == [] || s[0].requestApi == evt then 0 else 1 + FirstFor(s[1..], evt)
  }

  lemma FirstForIs(s: seq<ApiResult>, evt: int, i: nat)
    requires i <= |s| && (i < |s| ==> s[i].requestApi == evt)
    requires forall k :: 0 <= k < i ==> s[k].requestApi != evt
    ensures FirstFor(s, evt) == i
  {
  }

  function Without<T>(s: seq<T>, i: nat): seq<T>
    requires i <= |s|
  {
    if i == |s| then s else s[..i] + s[i + 1..]
  }

  lemma WithoutIs<T>(s: seq<T>, i: nat)
    requires i < |s|
    ensures Without(s, i) == s[..i] + s[i + 1..]
  {
  }

  lemma WithoutEnd<T>(s: seq<T>)
    ensures Without(s, |s|) == s
  {
  }

  datatype Operation = Signal(result: ApiResult) | Claim(evt: int)

  /** Contents of the list with everything ever signalled and everything ever claimed. */
  datatype History = History(contents: seq<ApiResult>, signalled: seq<ApiResult>, claimed: seq<ApiResult>)

  function Perform(h: History, op: Operation): History {
    match op
    case Signal(r) => History(h.contents + [r], h.signalled + [r], h.claimed)
    case Claim(evt) =>
      var i := FirstFor(h.contents, evt);
      if i == |h.contents| then h
      else History(Without(h.contents, i), h.signalled, h.claimed + [h.contents[i]])
  }

  function PerformAll(ops: seq<Operation>): History {
    if ops == [] then History([], [], []) else Perform(PerformAll(ops[..|ops| - 1]), ops[|ops| - 1])
  }

  lemma PerformSnoc(ops: seq<Operation>, op: Operation)
    ensures PerformAll(ops + [op]) == Perform(PerformAll(ops), op)
  {
    assert (ops + [op])[..|ops|] == ops;
  }

  lemma ClaimStep(h: History, evt: int)
    ensures var i := FirstFor(h.contents, evt);
            var t := Perform(h, Claim(evt));
            && t.contents == Without(h.contents, i)
            && t.claimed == h.claimed + if i == |h.contents| then [] else [h.contents[i]]
  {
  }

  /** A claim takes out the first result for its event, and nothing when there is none. */
  lemma ClaimMeans(s: seq<ApiResult>, evt: int)
    ensures var i := FirstFor(s, evt);
            (forall k :: 0 <= k < |s| ==> s[k].requestApi != evt) ==> i == |s| && Without(s, i) == s
    ensures var i := FirstFor(s, evt);
            !(forall k :: 0 <= k < |s| ==> s[k].requestApi != evt) ==>
              && i < |s| && s[i].requestApi == evt && (forall k :: 0 <= k < i ==> s[k].requestApi != evt)
              && Without(s, i) == s[..i] + s[i + 1..]
  {
  }

  /** The results for one event, in order. */
  function Only(s: seq<ApiResult>, evt: int): seq<ApiResult> {
    if s == [] then []
    else if s[0].requestApi == evt then [s[0]] + Only(s[1..], evt)
    else Only(s[1..], evt)
  }

  lemma OnlyCons(r: ApiResult, s: seq<ApiResult>, evt: int)
    ensures Only([r] + s, evt) == if r.requestApi == evt then [r] + Only(s, evt) else Only(s, evt)
  {
    assert ([r] + s)[1..] == s;
  }

  lemma {:induction false} OnlyConcat(s: seq<ApiResult>, t: seq<ApiResult>, evt: int)
    ensures Only(s + t, evt) == Only(s, evt) + Only(t, evt)
  {
    if s == [] {
      assert s + t == t;
    } else {
      hide Only;
      var rest := s[1..];
      OnlyConcat(rest, t, evt);
      OnlyCons(s[0], rest, evt);
      OnlyCons(s[0], rest + t, evt);
      assert s == [s[0]] + rest && s + t == [s[0]] + (rest + t);
    }
  }

  lemma {:induction false} OnlyNone(s: seq<ApiResult>, evt: int)
    requires forall k :: 0 <= k < |s| ==> s[k].requestApi != evt
    ensures Only(s, evt) == []
  {
    if s != [] {
      OnlyNone(s[1..], evt);
    }
  }

  lemma OnlyWithout(s: seq<ApiResult>, i: nat, evt: int)
    requires i < |s| && i == FirstFor(s, s[i].requestApi)
    ensures Only(s, evt) ==
            if s[i].requestApi == evt then [s[i]] + Only(Without(s, i), evt) else Only(Without(s, i), evt)
  {
    var front, back := s[..i], s[i + 1..];
    assert s == front + ([s[i]] + back);
    OnlyConcat(front, [s[i]] + back, evt);
    OnlyConcat([s[i]], back, evt);
    OnlyConcat(front, back, evt);
    assert Only([s[i]], evt) == if s[i].requestApi == evt then [s[i]] else [] by {
      assert [s[i]][1..] == [];
    }
    if s[i].requestApi == evt {
      OnlyNone(front, evt);
    }
  }

  /** Over any run, the results claimed for an event, followed by those still listed for it, are
      the results signalled for it, in order: nothing is claimed twice, nothing is lost, and waits
      for the same event are served in signalling order. */
  lemma {:induction false} ClaimsInSignallingOrder(ops: seq<Operation>, evt: int)
    ensures var h := PerformAll(ops);
            Only(h.signalled, evt) == Only(h.claimed, evt) + Only(h.contents, evt)
  {
    if ops != [] {
      var h, op := PerformAll(ops[..|ops| - 1]), ops[|ops| - 1];
      ClaimsInSignallingOrder(ops[..|ops| - 1], evt);
      match op
      case Signal(r) =>
        OnlyConcat(h.signalled, [r], evt);
        OnlyConcat(h.contents, [r], evt);
      case Claim(e) =>
        var i := FirstFor(h.contents, e);
        if i < |h.contents| {
          var r := h.contents[i];
          OnlyWithout(h.contents, i, evt);
          OnlyConcat(h.claimed, [r], evt);
          assert Only([r], evt) == if r.requestApi == evt then [r] else [] by {
            assert [r][1..] == [];
          }
        }
    }
  }

  // ---------- the heap list ----------

  /** A result is written when its node is made and never changed; only the links are. */
  class Node {
    const result: ApiResult
    var next: Node?

    constructor (r: ApiResult)
      ensures result == r && next == null
    {
      result, next := r, null;
    }
  }

  /** The node behind position i of a spine. */
  ghost function NodeAt(spine: seq<Node>, i: int): Node? {
    if 0 <= i < |spine| then spine[i] else null
  }

  /** The results stored in a sequence of nodes. */
  ghost function Results(nodes: seq<Node>): (s: seq<ApiResult>)
    ensures |s| == |nodes| && forall i :: 0 <= i < |nodes| ==> s[i] == nodes[i].result
  {
    seq(|nodes|, i requires 0 <= i < |nodes| => nodes[i].result)
  }

  lemma ResultsWithout(nodes: seq<Node>, i: nat)
    requires i < |nodes|
    ensures Results(nodes[..i] + nodes[i + 1..]) == Without(Results(nodes), i)
  {
    hide Results;
  }

  lemma ResultsSnoc(nodes: seq<Node>, n: Node)
    ensures Results(nodes + [n]) == Results(nodes) + [n.result]
  {
    hide Results;
  }

  class ResultList {
    var m_apiResultList: Node?
    ghost var spine: seq<Node>      // the nodes of the list, head first
    ghost var ops: seq<Operation>   // all that ever happened to the list

    /** The list is well formed, and holds what its history leaves in it. */
    ghost predicate Valid()
      reads this, spine
    {
      Chained() && Contents() == PerformAll(ops).contents
    }

    /** The head and the next fields chain exactly the nodes of the spine, without a cycle. */
    ghost predicate Chained()
      reads this`m_apiResultList, this`spine, spine
    {
      && m_apiResultList == NodeAt(spine, 0)
      && (forall i :: 0 <= i < |spine| ==> spine[i].next == NodeAt(spine, i + 1))
      && (forall i, j :: 0 <= i < j < |spine| ==> spine[i] != spine[j])
    }

    ghost function Contents(): seq<ApiResult>
      reads this`spine
    {
      Results(spine)
    }

    constructor ()
      ensures Valid() && spine == [] && Contents() == [] && ops == []
    {
      m_apiResultList, spine, ops := null, [], [];
    }

    /** The walk to the end of the list. */
    method FindLast() returns (last: Node)
      requires Chained() && m_apiResultList != null
      ensures |spine| > 0 && last == spine[|spine| - 1]
    {
      last := m_apiResultList;
      ghost var i := 0;
      while last.next != null
        invariant 0 <= i < |spine| && last == spine[i]
        decreases |spine| - i
      {
        assert spine[i].next == NodeAt(spine, i + 1);
        last := last.next;
        i := i + 1;
      }
      assert spine[i].next == NodeAt(spine, i + 1);
    }

    /** The relinking of signalAPIResult: a new node at the end; the others keep their place. */
    method Append(result: ApiResult)
      requires Chained()
      modifies this`m_apiResultList, this`spine, spine
      ensures Chained() && Contents() == old(Contents()) + [result]
      ensures |spine| == |old(spine)| + 1 && spine[..|old(spine)|] == old(spine) && fresh(spine[|old(spine)|])
    {
      hide Results;
      var apiResult := new Node(result);
      ResultsSnoc(spine, apiResult);
      if m_apiResultList == null {
        m_apiResultList := apiResult;
      } else {
        var last := FindLast();
        last.next := apiResult;
      }
      spine := spine + [apiResult];
    }

    /** signalAPIResult */
    method SignalAPIResult(result: ApiResult)
      requires Valid()
      modifies this, spine
      ensures Valid() && ops == old(ops) + [Signal(result)]
      ensures Contents() == old(Contents()) + [result]
      ensures |spine| == |old(spine)| + 1 && spine[..|old(spine)|] == old(spine) && fresh(spine[|old(spine)|])
    {
      hide Chained, Results;
      PerformSnoc(ops, Signal(result));
      Append(result);
      ops := ops + [Signal(result)];
    }

    /** Take the node at position i out of the chain; its predecessor, if any, now points past it. */
    method Unlink(ghost i: nat, previous: Node, apiResult: Node)
      requires Chained() && i < |spine| && apiResult == spine[i]
      requires previous == spine[if i == 0 then 0 else i - 1]
      modifies this`m_apiResultList, this`spine, previous`next
      ensures Chained() && spine == old(spine)[..i] + old(spine)[i + 1..]
    {
      assert apiResult.next == NodeAt(spine, i + 1);
      previous.next := apiResult.next;
      if apiResult == m_apiResultList {
        m_apiResultList := apiResult.next;
      }
      spine := spine[..i] + spine[i + 1..];
      assert forall k :: 0 <= k < |spine| ==> spine[k] == old(spine)[if k < i then k else k + 1];
    }

    /** The loop of waitAPIResult: the first node for this event, if any, and the one before it. */
    method FindFirst(evt: int) returns (apiResult: Node?, previous: Node?, ghost i: nat)
      requires Chained()
      ensures i == FirstFor(Contents(), evt) <= |spine|
      ensures apiResult == NodeAt(spine, i)
      ensures i < |spine| ==> previous == NodeAt(spine, if i == 0 then 0 else i - 1)
    {
      hide FirstFor, Results;
      apiResult, previous := m_apiResultList, m_apiResultList;
      i := 0;
      while apiResult != null && apiResult.result.requestApi != evt
        invariant 0 <= i <= |spine| && apiResult == NodeAt(spine, i)
        invariant previous == NodeAt(spine, if i == 0 then 0 else i - 1)
        invariant forall k :: 0 <= k < i ==> Contents()[k].requestApi != evt
        decreases |spine| - i
      {
        assert apiResult == spine[i] && apiResult.next == NodeAt(spine, i + 1);
        previous := apiResult;
        apiResult := apiResult.next;
        i := i + 1;
      }
      FirstForIs(Contents(), evt, i);
    }

    /** The relinking of waitAPIResult: unlink the first node for this event and hand out its
        result; without one, change nothing. */
    method RemoveFirst(evt: int) returns (claimed: Option<ApiResult>)
      requires Chained()
      modifies this`m_apiResultList, this`spine, spine
      ensures Chained()
      ensures var i := FirstFor(old(Contents()), evt);
              && Contents() == Without(old(Contents()), i)
              && spine == Without(old(spine), i)
              && claimed == if i == |old(spine)| then None else Some(old(Contents())[i])
    {
      hide FirstFor, Results, Without;
      var apiResult, previous, i := FindFirst(evt);
      if apiResult == null {
        WithoutEnd(spine);
        WithoutEnd(Contents());
        return None;
      }
      claimed := Some(apiResult.result);
      ResultsWithout(spine, i);
      WithoutIs(spine, i);
      Unlink(i, previous, apiResult);
    }

    /** The search inside waitAPIResult, as a step of the history: what is handed out is the next
        result claimed in it, and nothing is claimed when the list has none for this event. */
    method ClaimAPIResult(evt: int) returns (claimed: Option<ApiResult>)
      requires Valid()
      modifies this, spine
      ensures Valid() && ops == old(ops) + [Claim(evt)]
      ensures var i := FirstFor(old(Contents()), evt);
              && Contents() == Without(old(Contents()), i)
              && spine == Without(old(spine), i)
              && claimed == if i == |old(spine)| then None else Some(old(Contents())[i])
      ensures (forall k :: 0 <= k < |old(Contents())| ==> old(Contents())[k].requestApi != evt) ==>
                claimed.None? && Contents() == old(Contents())
      ensures !(forall k :: 0 <= k < |old(Contents())| ==> old(Contents())[k].requestApi != evt) ==>
                exists i: nat :: i < |old(Contents())| && claimed == Some(old(Contents())[i])
                                 && old(Contents())[i].requestApi == evt
                                 && (forall k :: 0 <= k < i ==> old(Contents())[k].requestApi != evt)
                                 && Contents() == old(Contents())[..i] + old(Contents())[i + 1..]
      ensures PerformAll(ops).claimed
           == PerformAll(old(ops)).claimed + match claimed case None => [] case Some(r) => [r]
    {
      hide Chained, Results, Without, PerformAll, FirstFor;
      PerformSnoc(ops, Claim(evt));
      ClaimStep(PerformAll(ops), evt);
      ClaimMeans(Contents(), evt);
      claimed := RemoveFirst(evt);
      ops := ops + [Claim(evt)];
    }
  }
}
