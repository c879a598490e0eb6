/** The deferred-work scheduler.

  Jobs go into a FIFO queue and into one of 25 slots of a status table.  One worker runs them
  in order.  A job that ends well frees its slot; a failed job keeps its slot, with its error,
  for good.  The worker's status variable lives across jobs: apart from generic jobs, a job that
  ends well leaves in it whatever the job before left there.
*/
module DeferredWork {

  const MAX_ONGOING_JOBS := 25

  const NO_ERROR: int := 0
  const BAD_VALUE: int := -22
  const UNKNOWN_ERROR: int := -0x8000_0000

  /** One entry of mDefOngoingJobs; id 0 marks a free slot. */
  datatype Slot = Slot(id: nat, status: int)

  datatype Command =
    | AllocateBuff | PprocStart | PprocInit | MetadataAlloc
    | CreateJpegSession | ParamAlloc | ParamInit | Generic

  datatype Work = Work(cmd: Command, id: nat)

  /** How the work of a job itself turned out.  AllocationFailed is the metadata allocation that
      returns an error nobody records. */
  datatype Body = Fine | Failed(code: int) | AllocationFailed

  datatype Option<T> = None | Some(value: T)

  /** `final` is history: the status every finished job was recorded with. */
  datatype State = State(
    slots: seq<Slot>,
    queue: seq<Work>,
    running: Option<Work>,
    nextId: nat,          // sNextJobId
    jobStatus: int,       // job_status of the worker
    final: map<nat, int>)

  // ---------- the table ----------

  /** Index of the first slot with this id, or the length of the table. */
  function Find(slots: seq<Slot>, id: nat): (i: nat)
    ensures i <= |slots|
    ensures i < |slots| ==> slots[i].id == id
    ensures forall j :: 0 <= j < i ==> slots[j].id != id
  {
    if slots == [] then 0 else if slots[0].id == id then 0 else 1 + Find(slots[1..], id)
  }

  /** Slot i is the first one with this id. */
  predicate FirstWith(slots: seq<Slot>, id: nat, i: nat)
    requires i < |slots|
  {
    slots[i].id == id && forall j :: 0 <= j < i ==> slots[j].id != id
  }

  /** getDefJobStatus: the status found, or no error. */
  function StatusOf(slots: seq<Slot>, id: nat): int {
    var i := Find(slots, id);
    if i < |slots| then slots[i].status else NO_ERROR
  }

  /** checkDeferredWork: the job has a slot and no error. */
  predicate InProgress(slots: seq<Slot>, id: nat) {
    var i := Find(slots, id);
    i < |slots| && slots[i].status == NO_ERROR
  }

  datatype Kind = Free | Busy | Lost

  function KindOf(slot: Slot): Kind {
    if slot.id == 0 then Free else if slot.status == NO_ERROR then Busy else Lost
  }

  function Count(slots: seq<Slot>, k: Kind): nat {
    if slots == [] then 0 else (if KindOf(slots[0]) == k then 1 else 0) + Count(slots[1..], k)
  }

  // ---------- steps ----------

  datatype Action =
    | Queue(cmd: Command)
    | Take
    | Finish(prerequisite: nat, body: Body)

  function Initial(): State {
    State(seq(MAX_ONGOING_JOBS, _ => Slot(0, NO_ERROR)), [], None, 1, NO_ERROR, map[])
  }

  function QueueWork(s: State, cmd: Command): State {
    var i := Find(s.slots, 0);
    if i == |s.slots| then s
    else s.(slots := s.slots[i := Slot(s.nextId, NO_ERROR)],
            queue := s.queue + [Work(cmd, s.nextId)],
            nextId := s.nextId + 1)
  }

  predicate NeedsPrerequisite(cmd: Command) {
    cmd.PprocStart? || cmd.MetadataAlloc? || cmd.CreateJpegSession? || cmd.ParamInit?
  }

  /** The worker's status after a job, given the status before it, the recorded status of the
      job it depends on, and its own outcome. */
  function JobStatus(cmd: Command, before: int, prerequisite: int, body: Body): int {
    if NeedsPrerequisite(cmd) && prerequisite != NO_ERROR then prerequisite
    else match cmd
      case Generic => if body.Failed? then body.code else NO_ERROR
      case PprocStart => if body.Failed? then BAD_VALUE else before
      case MetadataAlloc => if body.Failed? then BAD_VALUE else before
      case CreateJpegSession => if body.Failed? then UNKNOWN_ERROR else before
      case PprocInit => if body.Failed? then UNKNOWN_ERROR else before
      case _ => if body.Failed? then body.code else before
  }

  /** dequeueDeferredWork: free the slot of a job that ended well, keep the error otherwise. */
  function Record(slots: seq<Slot>, id: nat, status: int): seq<Slot> {
    var i := Find(slots, id);
    if i == |slots| then slots
    else slots[i := if status != NO_ERROR then Slot(id, status) else Slot(0, NO_ERROR)]
  }

  function FinishWork(s: State, prerequisite: nat, body: Body): State
    requires s.running.Some?
  {
    var dw := s.running.value;
    var status := JobStatus(dw.cmd, s.jobStatus, StatusOf(s.slots, prerequisite), body);
    s.(slots := Record(s.slots, dw.id, status), running := None, jobStatus := status,
       final := s.final[dw.id := status])
  }

  /** A failed body reports a nonzero code; only a metadata allocation can fail unnoticed. */
  predicate Enabled(s: State, a: Action) {
    match a
    case Queue(_) => true
    case Take => s.running.None? && s.queue != []
    case Finish(_, body) =>
      && s.running.Some?
      && (body.Failed? ==> body.code != NO_ERROR)
      && (body.AllocationFailed? ==> s.running.value.cmd.MetadataAlloc?)
  }

  function Apply(s: State, a: Action): State
    requires Enabled(s, a)
  {
    match a
    case Queue(cmd) => QueueWork(s, cmd)
    case Take => s.(running := Some(s.queue[0]), queue := s.queue[1..])
    case Finish(prerequisite, body) => FinishWork(s, prerequisite, body)
  }

  ghost predicate Step(s: State, t: State) {
    exists a :: Enabled(s, a) && t == Apply(s, a)
  }

  ghost predicate Linked(r: seq<State>, i: nat)
    requires i + 1 < |r|
  {
    Step(r[i], r[i + 1])
  }

  ghost predicate IsRun(r: seq<State>) {
    && |r| > 0
    && r[0] == Initial()
    && forall i: nat :: i + 1 < |r| ==> Linked(r, i)
  }

  // ---------- the invariant ----------

  /** Jobs not finished, in the order they will finish: the running one, then the queue. */
  function Unfinished(s: State): seq<Work> {
    if s.running.Some? then [s.running.value] + s.queue else s.queue
  }

  predicate Pending(s: State, id: nat) {
    exists i :: 0 <= i < |Unfinished(s)| && Unfinished(s)[i].id == id
  }

  /** Ids rise along the unfinished jobs: first queued, first run. */
  predicate InOrder(s: State) {
    && (forall i :: 0 <= i < |Unfinished(s)| ==> 1 <= Unfinished(s)[i].id < s.nextId)
    && (forall i, j :: 0 <= i < j < |Unfinished(s)| ==> Unfinished(s)[i].id < Unfinished(s)[j].id)
  }

  /** Issued jobs are unfinished or finished, never both. */
  ghost predicate FinalExact(s: State) {
    forall id: nat :: id in s.final <==> 1 <= id < s.nextId && !Pending(s, id)
  }

  ghost predicate TableShape(s: State) {
    && |s.slots| == MAX_ONGOING_JOBS && s.nextId >= 1
    && (forall i :: 0 <= i < |s.slots| ==> s.slots[i].id < s.nextId)
    && (forall i :: 0 <= i < |s.slots| && s.slots[i].id == 0 ==> s.slots[i].status == NO_ERROR)
    && (forall i, j :: 0 <= i < j < |s.slots| && s.slots[i].id != 0 ==> s.slots[i].id != s.slots[j].id)
  }

  ghost predicate HasSlot(s: State, id: nat, status: int) {
    var i := Find(s.slots, id);
    i < |s.slots| && s.slots[i] == Slot(id, status)
  }

  /** The table tells exactly what became of each issued job: no error while it is unfinished,
      its error when it failed, no slot at all when it ended well. */
  ghost predicate TableExact(s: State) {
    forall id: nat :: 1 <= id < s.nextId ==>
      && (Pending(s, id) ==> HasSlot(s, id, NO_ERROR))
      && (id in s.final && s.final[id] != NO_ERROR ==> HasSlot(s, id, s.final[id]))
      && (id in s.final && s.final[id] == NO_ERROR ==> Find(s.slots, id) == |s.slots|)
  }

  ghost predicate BusyCounted(s: State) {
    Count(s.slots, Busy) == |Unfinished(s)|
  }

  ghost predicate Inv(s: State) {
    InOrder(s) && FinalExact(s) && TableShape(s) && TableExact(s) && BusyCounted(s)
  }

  // ---------- table lemmas ----------

  lemma {:induction false} FindUnique(slots: seq<Slot>, id: nat, i: nat)
    requires i < |slots| && slots[i].id == id
    requires forall j :: 0 <= j < |slots| && j != i ==> slots[j].id != id
    ensures Find(slots, id) == i
  {
  }

  lemma {:induction false} CountUpdate(slots: seq<Slot>, i: nat, x: Slot, k: Kind)
    requires i < |slots|
    ensures Count(slots[i := x], k) + (if KindOf(slots[i]) == k then 1 else 0)
         == Count(slots, k) + (if KindOf(x) == k then 1 else 0)
  {
    if i == 0 {
      assert slots[0 := x][1..] == slots[1..];
    } else {
      CountUpdate(slots[1..], i - 1, x, k);
      assert slots[i := x][1..] == slots[1..][i - 1 := x];
    }
  }

  /** Every slot is free, busy or lost. */
  lemma {:induction false} SlotsConserved(slots: seq<Slot>)
    ensures Count(slots, Free) + Count(slots, Busy) + Count(slots, Lost) == |slots|
  {
    if slots != [] {
      SlotsConserved(slots[1..]);
    }
  }

  lemma {:induction false} FreeCountedIff(slots: seq<Slot>)
    ensures Count(slots, Free) == 0 <==> Find(slots, 0) == |slots|
  {
    if slots != [] {
      FreeCountedIff(slots[1..]);
    }
  }

  lemma {:induction false} CountFree(n: nat, k: Kind)
    ensures Count(seq(n, _ => Slot(0, NO_ERROR)), k) == if k == Free then n else 0
  {
    if n > 0 {
      CountFree(n - 1, k);
      assert seq(n, _ => Slot(0, NO_ERROR))[1..] == seq(n - 1, _ => Slot(0, NO_ERROR));
    }
  }

  /** Writing a slot changes the lookup of the ids written and overwritten and of no other. */
  lemma FindAfterUpdate(slots: seq<Slot>, i: nat, x: Slot, id: nat)
    requires i < |slots| && id != slots[i].id && id != x.id
    ensures Find(slots[i := x], id) == Find(slots, id)
  {
    var j, k := Find(slots, id), Find(slots[i := x], id);
    assert j < |slots| ==> slots[i := x][j].id == id;
    assert k < |slots| ==> slots[k].id == id;
  }

  // ---------- steps keep the invariant ----------

  lemma InitialInv()
    ensures Inv(Initial())
  {
    CountFree(MAX_ONGOING_JOBS, Busy);
  }

  lemma QueueKeepsOrder(s: State, cmd: Command)
    requires InOrder(s) && FinalExact(s) && s.nextId >= 1
    ensures var t := QueueWork(s, cmd);
            InOrder(t) && FinalExact(t) && |Unfinished(t)| == |Unfinished(s)| + (t.nextId - s.nextId)
    ensures forall id: nat :: Pending(QueueWork(s, cmd), id)
              <==> Pending(s, id) || (QueueWork(s, cmd).nextId > s.nextId && id == s.nextId)
  {
    var t := QueueWork(s, cmd);
    if t != s {
      assert Unfinished(t) == Unfinished(s) + [Work(cmd, s.nextId)];
      assert t.nextId == s.nextId + 1 && t.final == s.final;
      hide Unfinished, QueueWork;
      assert Unfinished(t)[|Unfinished(s)|].id == s.nextId;
      forall id: nat ensures Pending(t, id) <==> Pending(s, id) || id == s.nextId {
        if Pending(s, id) {
          var i :| 0 <= i < |Unfinished(s)| && Unfinished(s)[i].id == id;
          assert Unfinished(t)[i].id == id;
        }
      }
    }
  }

  lemma QueueKeepsTable(s: State, cmd: Command)
    requires InOrder(s) && FinalExact(s) && TableShape(s) && TableExact(s)
    ensures TableShape(QueueWork(s, cmd)) && TableExact(QueueWork(s, cmd))
  {
    var t, i := QueueWork(s, cmd), Find(s.slots, 0);
    if i < |s.slots| {
      QueueKeepsOrder(s, cmd);
      FindUnique(t.slots, s.nextId, i);
      forall id: nat | 1 <= id < s.nextId ensures Find(t.slots, id) == Find(s.slots, id) {
        FindAfterUpdate(s.slots, i, Slot(s.nextId, NO_ERROR), id);
      }
    }
  }

  lemma QueueKeepsInv(s: State, cmd: Command)
    requires Inv(s)
    ensures Inv(QueueWork(s, cmd))
  {
    QueueKeepsOrder(s, cmd);
    QueueKeepsTable(s, cmd);
    var i := Find(s.slots, 0);
    if i < |s.slots| {
      CountUpdate(s.slots, i, Slot(s.nextId, NO_ERROR), Busy);
    }
  }

  lemma TakeKeepsUnfinished(s: State)
    requires Enabled(s, Take)
    ensures Unfinished(Apply(s, Take)) == Unfinished(s)
  {
  }

  lemma HeadIsQueued(s: State, id: nat)
    requires s.running.None? && Pending(s, id)
    ensures s.queue != []
  {
    assert Unfinished(s) == s.queue;
  }

  lemma TakeKeepsInv(s: State)
    requires Inv(s) && Enabled(s, Take)
    ensures Inv(Apply(s, Take))
  {
    TakeKeepsUnfinished(s);
  }

  /** The job that finishes is the oldest unfinished one; the others move up. */
  lemma FinishShifts(s: State, t: State)
    requires s.running.Some? && t.running == None && t.queue == s.queue
    ensures |Unfinished(s)| == |Unfinished(t)| + 1 && Unfinished(s)[0] == s.running.value
    ensures forall i :: 0 <= i < |Unfinished(t)| ==> Unfinished(t)[i] == Unfinished(s)[i + 1]
  {
  }

  lemma FinishDropsHead(s: State, t: State)
    requires InOrder(s) && s.running.Some? && t.running == None && t.queue == s.queue
    ensures forall id: nat :: Pending(t, id) <==> Pending(s, id) && id != s.running.value.id
  {
    FinishShifts(s, t);
    hide Unfinished;
    var u, v := Unfinished(s), Unfinished(t);
    forall id: nat ensures Pending(t, id) <==> Pending(s, id) && id != u[0].id {
      if Pending(s, id) && id != u[0].id {
        var i :| 0 <= i < |u| && u[i].id == id;
        assert v[i - 1].id == id;
      }
      if Pending(t, id) {
        var i :| 0 <= i < |v| && v[i].id == id;
        assert u[i + 1].id == id;
      }
    }
  }

  lemma FinishKeepsOrder(s: State, t: State, status: int)
    requires InOrder(s) && FinalExact(s) && s.running.Some?
    requires t.running == None && t.queue == s.queue && t.nextId == s.nextId
    requires t.final == s.final[s.running.value.id := status]
    ensures InOrder(t) && FinalExact(t) && |Unfinished(t)| == |Unfinished(s)| - 1
    ensures forall id: nat :: Pending(t, id) <==> Pending(s, id) && id != s.running.value.id
  {
    FinishDropsHead(s, t);
    FinishShifts(s, t);
    hide Unfinished;
    assert Pending(s, Unfinished(s)[0].id);
    hide Pending;
  }

  /** dequeueDeferredWork always finds its slot, and it is the slot of the running job. */
  lemma RunningHasSlot(s: State)
    requires InOrder(s) && TableExact(s) && s.running.Some?
    ensures HasSlot(s, s.running.value.id, NO_ERROR)
  {
    assert Unfinished(s)[0] == s.running.value;
    assert Pending(s, s.running.value.id);
  }

  lemma FinishKeepsTable(s: State, t: State, status: int)
    requires InOrder(s) && FinalExact(s) && TableShape(s) && TableExact(s) && s.running.Some?
    requires t.running == None && t.queue == s.queue && t.nextId == s.nextId
    requires t.final == s.final[s.running.value.id := status]
    requires t.slots == Record(s.slots, s.running.value.id, status)
    ensures TableShape(t) && TableExact(t)
  {
    var id0 := s.running.value.id;
    var i := Find(s.slots, id0);
    RunningHasSlot(s);
    FinishKeepsOrder(s, t, status);
    assert Unfinished(s)[0].id == id0;
    var x := if status != NO_ERROR then Slot(id0, status) else Slot(0, NO_ERROR);
    forall id: nat | 1 <= id < t.nextId
      ensures Pending(t, id) ==> HasSlot(t, id, NO_ERROR)
      ensures id in t.final && t.final[id] != NO_ERROR ==> HasSlot(t, id, t.final[id])
      ensures id in t.final && t.final[id] == NO_ERROR ==> Find(t.slots, id) == |t.slots|
    {
      if id != id0 {
        FindAfterUpdate(s.slots, i, x, id);
      } else if status != NO_ERROR {
        FindUnique(t.slots, id0, i);
      }
    }
  }

  lemma FinishKeepsInv(s: State, prerequisite: nat, body: Body)
    requires Inv(s) && s.running.Some?
    ensures Inv(FinishWork(s, prerequisite, body))
  {
    var t := FinishWork(s, prerequisite, body);
    var status := t.jobStatus;
    FinishKeepsOrder(s, t, status);
    FinishKeepsTable(s, t, status);
    RunningHasSlot(s);
    assert Unfinished(s)[0].id == s.running.value.id;
    var x := if status != NO_ERROR then Slot(s.running.value.id, status) else Slot(0, NO_ERROR);
    CountUpdate(s.slots, Find(s.slots, s.running.value.id), x, Busy);
  }

  lemma StepKeepsInv(s: State, t: State)
    requires Inv(s) && Step(s, t)
    ensures Inv(t)
  {
    var a :| Enabled(s, a) && t == Apply(s, a);
    match a
    case Queue(cmd) => QueueKeepsInv(s, cmd);
    case Take => TakeKeepsInv(s);
    case Finish(prerequisite, body) => FinishKeepsInv(s, prerequisite, body);
  }

  lemma {:induction false} RunKeepsInv(r: seq<State>, k: nat)
    requires IsRun(r) && k < |r|
    ensures Inv(r[k])
  {
    if k == 0 {
      InitialInv();
    } else {
      RunKeepsInv(r, k - 1);
      assert Linked(r, k - 1);
      StepKeepsInv(r[k - 1], r[k]);
    }
  }

  // ---------- what every run guarantees ----------

  /** Pending and lost jobs fill the table together with the free slots, so a job is refused
      exactly when the pending and the failed jobs number 25. */
  lemma RefusedIff(r: seq<State>, k: nat, cmd: Command)
    requires IsRun(r) && k < |r|
    ensures var s := r[k];
            && Count(s.slots, Free) + |Unfinished(s)| + Count(s.slots, Lost) == MAX_ONGOING_JOBS
            && (QueueWork(s, cmd) == s <==> |Unfinished(s)| + Count(s.slots, Lost) == MAX_ONGOING_JOBS)
  {
    RunKeepsInv(r, k);
    SlotsConserved(r[k].slots);
    FreeCountedIff(r[k].slots);
  }

  lemma LostStays(s: State, t: State, i: nat)
    requires Inv(s) && Step(s, t) && i < |s.slots| && KindOf(s.slots[i]) == Lost
    ensures i < |t.slots| && t.slots[i] == s.slots[i]
  {
    if s.running.Some? {
      RunningHasSlot(s);
    }
  }

  /** A failed job keeps its slot and its error for the rest of the run. */
  lemma {:induction false} LostForever(r: seq<State>, k: nat, l: nat, i: nat)
    requires IsRun(r) && k <= l < |r| && i < |r[k].slots| && KindOf(r[k].slots[i]) == Lost
    ensures i < |r[l].slots| && r[l].slots[i] == r[k].slots[i]
    decreases l - k
  {
    if k < l {
      LostForever(r, k, l - 1, i);
      RunKeepsInv(r, l - 1);
      assert Linked(r, l - 1);
      LostStays(r[l - 1], r[l], i);
    }
  }

  lemma {:induction false} AllLost(slots: seq<Slot>, i: nat)
    requires Count(slots, Lost) == |slots| && i < |slots|
    ensures KindOf(slots[i]) == Lost
  {
    SlotsConserved(slots[1..]);
    if i > 0 {
      AllLost(slots[1..], i - 1);
    }
  }

  /** After 25 failures the scheduler never accepts a job again. */
  lemma ExhaustedForever(r: seq<State>, k: nat, l: nat, cmd: Command)
    requires IsRun(r) && k <= l < |r| && Count(r[k].slots, Lost) == MAX_ONGOING_JOBS
    ensures r[l].slots == r[k].slots && QueueWork(r[l], cmd) == r[l]
  {
    RunKeepsInv(r, k);
    RunKeepsInv(r, l);
    forall i: nat | i < |r[k].slots| ensures r[l].slots[i] == r[k].slots[i] {
      AllLost(r[k].slots, i);
      LostForever(r, k, l, i);
    }
    assert r[l].slots == r[k].slots;
    RefusedIff(r, l, cmd);
  }

  /** The table after k failures, the oldest first. */
  function FailedTable(k: nat): seq<Slot> {
    seq(MAX_ONGOING_JOBS, i requires 0 <= i => if i < k then Slot(i + 1, -12) else Slot(0, NO_ERROR))
  }

  predicate AfterFailures(s: State, k: nat) {
    s.slots == FailedTable(k) && s.queue == [] && s.running.None? && s.nextId == k + 1
  }

  /** A generic job is queued, taken, and fails. */
  lemma FailOnce(s: State, k: nat)
    requires AfterFailures(s, k) && k < MAX_ONGOING_JOBS
    ensures var t := QueueWork(s, Generic);
            && Enabled(t, Take) && Enabled(Apply(t, Take), Finish(0, Failed(-12)))
            && AfterFailures(Apply(Apply(t, Take), Finish(0, Failed(-12))), k + 1)
  {
    FindFrom(s.slots, 0, k);
    var t := QueueWork(s, Generic);
    var u := Apply(t, Take);
    assert t.queue == [Work(Generic, k + 1)] && u.queue == [];
    FindFrom(u.slots, k + 1, k);
    assert Apply(u, Finish(0, Failed(-12))).slots == FailedTable(k + 1);
  }

  lemma RunSnoc(r: seq<State>, a: Action)
    requires IsRun(r) && Enabled(r[|r| - 1], a)
    ensures IsRun(r + [Apply(r[|r| - 1], a)])
  {
    var t := Apply(r[|r| - 1], a);
    assert Step(r[|r| - 1], t);
    hide Step, Initial;
    forall i: nat | i + 1 < |r + [t]|
      ensures Linked(r + [t], i)
    {
      assert i + 1 < |r| ==> Linked(r, i);
    }
  }

  lemma {:induction false} RunWithFailures(k: nat) returns (r: seq<State>)
    requires k <= MAX_ONGOING_JOBS
    ensures IsRun(r) && AfterFailures(r[|r| - 1], k)
  {
    if k == 0 {
      r := [Initial()];
    } else {
      r := RunWithFailures(k - 1);
      r := OneMoreFailure(r, k - 1);
    }
  }

  lemma OneMoreFailure(q: seq<State>, k: nat) returns (r: seq<State>)
    requires IsRun(q) && AfterFailures(q[|q| - 1], k) && k < MAX_ONGOING_JOBS
    ensures IsRun(r) && AfterFailures(r[|r| - 1], k + 1)
  {
    var s := q[|q| - 1];
    FailOnce(s, k);
    var t := QueueWork(s, Generic);
    var u := Apply(t, Take);
    RunIsNotEmpty(q);
    hide IsRun, AfterFailures;
    assert Apply(s, Queue(Generic)) == t;
    RunSnoc(q, Queue(Generic));
    RunSnoc(q + [t], Take);
    RunSnoc(q + [t] + [u], Finish(0, Failed(-12)));
    r := q + [t] + [u] + [Apply(u, Finish(0, Failed(-12)))];
  }

  lemma RunIsNotEmpty(r: seq<State>)
    requires IsRun(r)
    ensures |r| > 0
  {
  }

  lemma {:induction false} CountAllLost(slots: seq<Slot>)
    requires forall i :: 0 <= i < |slots| ==> KindOf(slots[i]) == Lost
    ensures Count(slots, Lost) == |slots|
  {
    if slots != [] {
      CountAllLost(slots[1..]);
    }
  }

  /** Such a run exists: 25 jobs fail, and from then on the scheduler refuses every job. */
  lemma TableGetsExhausted(cmd: Command) returns (r: seq<State>)
    ensures IsRun(r)
    ensures var s := r[|r| - 1]; Count(s.slots, Lost) == MAX_ONGOING_JOBS && QueueWork(s, cmd) == s
  {
    r := RunWithFailures(MAX_ONGOING_JOBS);
    CountAllLost(r[|r| - 1].slots);
    ExhaustedForever(r, |r| - 1, |r| - 1, cmd);
  }

  /** When a job runs, every job queued before it is final, and the table still knows how it
      ended: its error if it failed, no error if it did not. */
  lemma EarlierJobsAreFinal(s: State, p: nat)
    requires Inv(s) && s.running.Some? && 1 <= p < s.running.value.id
    ensures p in s.final && StatusOf(s.slots, p) == s.final[p]
  {
    var u := Unfinished(s);
    assert u[0] == s.running.value;
    assert forall i :: 0 < i < |u| ==> u[0].id < u[i].id;
    assert 1 <= p < s.nextId;
  }

  /** Dependency safety: starting the post-processor, allocating the metadata, creating the JPEG session and
      initialising the parameters are recorded with the failure of the earlier job they depend on,
      whatever becomes of their own work. */
  lemma FailedPrerequisiteFailsJob(s: State, p: nat, body: Body)
    requires Inv(s) && Enabled(s, Finish(p, body))
    requires s.running.value.cmd in {PprocStart, MetadataAlloc, CreateJpegSession, ParamInit} && 1 <= p < s.running.value.id
    ensures p in s.final
    ensures s.final[p] != NO_ERROR ==> FinishWork(s, p, body).final[s.running.value.id] == s.final[p]
  {
    EarlierJobsAreFinal(s, p);
  }

  /** The other four commands depend on no job. */
  lemma OthersDependOnNothing(s: State, p: nat, q: nat, body: Body)
    requires Enabled(s, Finish(p, body))
    requires s.running.value.cmd in {AllocateBuff, PprocInit, ParamAlloc, Generic}
    ensures FinishWork(s, p, body) == FinishWork(s, q, body)
  {
    hide Record, StatusOf;
  }

  /** The error a job is recorded with when its own work fails: always -22 for starting the
      post-processor and allocating the metadata, always -0x80000000 for creating the JPEG session and
      initialising the post-processor, and otherwise the error its work came back with. */
  lemma OwnFailureCode(s: State, p: nat, code: int)
    requires Enabled(s, Finish(p, Failed(code)))
    requires s.running.value.cmd in {PprocStart, MetadataAlloc, CreateJpegSession, ParamInit} ==> StatusOf(s.slots, p) == 0
    ensures var dw, t := s.running.value, FinishWork(s, p, Failed(code));
            dw.id in t.final && t.final[dw.id] == t.jobStatus ==
              if dw.cmd in {PprocStart, MetadataAlloc} then -22
              else if dw.cmd in {CreateJpegSession, PprocInit} then -0x8000_0000
              else code
  {
    hide Record, StatusOf;
  }

  /** A job is recorded as good exactly when its prerequisite is, its own work did not fail, and,
      unless it is generic, the worker's status was clear before it. */
  lemma RecordedGoodIff(s: State, p: nat, body: Body)
    requires Inv(s) && Enabled(s, Finish(p, body))
    ensures var dw := s.running.value;
            FinishWork(s, p, body).final[dw.id] == NO_ERROR
            <==>
            && (dw.cmd in {PprocStart, MetadataAlloc, CreateJpegSession, ParamInit} ==> StatusOf(s.slots, p) == NO_ERROR)
            && !body.Failed?
            && (dw.cmd.Generic? || s.jobStatus == NO_ERROR)
  {
    hide Inv, Record, StatusOf;
  }

  /** The job before the first unfinished one: the one finished last, or 0. */
  function LastFinished(s: State): int {
    if Unfinished(s) == [] then s.nextId - 1 else Unfinished(s)[0].id - 1
  }

  /** The worker's status is the recorded status of the job finished last. */
  ghost predicate StatusKept(s: State) {
    var last := LastFinished(s);
    && (forall p :: p in s.final ==> p <= last)
    && s.jobStatus == if last >= 0 && last in s.final then s.final[last] else NO_ERROR
  }

  lemma QueueKeepsStatus(s: State, cmd: Command)
    requires Inv(s) && StatusKept(s)
    ensures StatusKept(QueueWork(s, cmd))
  {
    var t := QueueWork(s, cmd);
    if t != s {
      assert Unfinished(t) == Unfinished(s) + [Work(cmd, s.nextId)];
      assert LastFinished(t) == LastFinished(s);
    }
  }

  lemma TakeKeepsStatus(s: State)
    requires StatusKept(s) && Enabled(s, Take)
    ensures StatusKept(Apply(s, Take))
  {
    TakeKeepsUnfinished(s);
    hide Unfinished;
  }

  lemma LastIsNotPending(t: State)
    requires InOrder(t) && LastFinished(t) >= 0
    ensures !Pending(t, LastFinished(t))
  {
    hide Unfinished;
  }

  /** No id is left out between the job that finishes and the next one. */
  lemma FinishIsLast(s: State, t: State)
    requires Inv(s) && StatusKept(s) && Inv(t) && s.running.Some?
    requires t.running == None && t.queue == s.queue && t.nextId == s.nextId
    requires forall p :: p in t.final <==> p in s.final || p == s.running.value.id
    ensures LastFinished(t) == s.running.value.id
  {
    var id, q := s.running.value.id, LastFinished(t);
    FinishShifts(s, t);
    hide Unfinished, TableShape, TableExact, BusyCounted;
    assert id == Unfinished(s)[0].id && q >= id >= 1;
    LastIsNotPending(t);
    assert q in t.final;
  }

  lemma FinishKeepsStatus(s: State, prerequisite: nat, body: Body)
    requires Inv(s) && StatusKept(s) && s.running.Some?
    ensures StatusKept(FinishWork(s, prerequisite, body))
  {
    var t := FinishWork(s, prerequisite, body);
    FinishKeepsInv(s, prerequisite, body);
    FinishIsLast(s, t);
    assert LastFinished(s) == s.running.value.id - 1;
  }

  lemma StepKeepsStatus(s: State, t: State)
    requires Inv(s) && StatusKept(s) && Step(s, t)
    ensures StatusKept(t)
  {
    var a :| Enabled(s, a) && t == Apply(s, a);
    hide Inv, StatusKept;
    match a
    case Queue(cmd) => QueueKeepsStatus(s, cmd);
    case Take => TakeKeepsStatus(s);
    case Finish(prerequisite, body) => FinishKeepsStatus(s, prerequisite, body);
  }

  lemma {:induction false} RunKeepsStatus(r: seq<State>, k: nat)
    requires IsRun(r) && k < |r|
    ensures StatusKept(r[k])
  {
    if k == 0 {
      assert StatusKept(Initial());
    } else {
      RunKeepsStatus(r, k - 1);
      RunKeepsInv(r, k - 1);
      assert Linked(r, k - 1);
      hide Inv, StatusKept, Step;
      StepKeepsStatus(r[k - 1], r[k]);
    }
  }

  /** Over any run: a job is recorded as good exactly when its prerequisite is, its own work did not
      fail, and it is generic, or the first of all, or the job before it was recorded as good. */
  lemma RecordedGoodInRunIff(r: seq<State>, k: nat, p: nat, body: Body)
    requires IsRun(r) && k < |r| && Enabled(r[k], Finish(p, body))
    ensures var s, dw := r[k], r[k].running.value;
            && (dw.id > 1 ==> dw.id - 1 in s.final) && dw.id >= 1
            && (FinishWork(s, p, body).final[dw.id] == NO_ERROR
                <==>
                && (dw.cmd in {PprocStart, MetadataAlloc, CreateJpegSession, ParamInit} ==> StatusOf(s.slots, p) == NO_ERROR)
                && !body.Failed?
                && (dw.cmd.Generic? || dw.id == 1 || s.final[dw.id - 1] == NO_ERROR))
  {
    RunKeepsInv(r, k);
    RunKeepsStatus(r, k);
    StatusIsLast(r[k]);
    RecordedGoodIff(r[k], p, body);
  }

  /** With a job running, the worker's status is that recorded for the job before it. */
  lemma StatusIsLast(s: State)
    requires Inv(s) && StatusKept(s) && s.running.Some?
    ensures var id := s.running.value.id;
            if id == 1 then s.jobStatus == NO_ERROR else id > 1 && id - 1 in s.final && s.jobStatus == s.final[id - 1]
  {
    var id := s.running.value.id;
    assert Unfinished(s)[0] == s.running.value && LastFinished(s) == id - 1;
    if id > 1 {
      EarlierJobsAreFinal(s, id - 1);
    }
  }

  /** Two jobs are queued, and the first one fails with -12 before the second is taken. */
  lemma FirstOfTwoFails() returns (r: seq<State>)
    ensures |r| == 5 && r[0] == Initial() && forall i: nat :: i + 1 < |r| ==> Linked(r, i)
    ensures r[4].jobStatus == -12 && r[4].running == None && r[4].queue == [Work(PprocInit, 2)]
    ensures |r[4].slots| == MAX_ONGOING_JOBS && r[4].slots[0] == Slot(1, -12) && r[4].slots[1] == Slot(2, NO_ERROR)
  {
    var s0 := Initial();
    assert Find(s0.slots, 0) == 0;
    var s1 := Apply(s0, Queue(ParamAlloc));
    assert s1.slots[0] == Slot(1, NO_ERROR) && s1.slots[1] == Slot(0, NO_ERROR);
    assert Find(s1.slots, 0) == 1;
    var s2 := Apply(s1, Queue(PprocInit));
    var s3 := Apply(s2, Take);
    assert Find(s3.slots, 1) == 0;
    var s4 := Apply(s3, Finish(0, Failed(-12)));
    r := [s0, s1, s2, s3, s4];
    assert Step(s0, s1) && Step(s1, s2) && Step(s2, s3) && Step(s3, s4);
    forall i: nat | i + 1 < |r| ensures Linked(r, i) {
    }
  }

  /** The status left by a failed job really does fail a later job whose own work went well. */
  lemma StaleStatusFailsGoodJob() returns (r: seq<State>)
    ensures IsRun(r) && |r| == 7
    ensures r[5].running == Some(Work(PprocInit, 2))
    ensures r[6] == FinishWork(r[5], 0, Fine) && 2 in r[6].final && r[6].final[2] == -12
  {
    var q := FirstOfTwoFails();
    var s5 := Apply(q[4], Take);
    var s6 := Apply(s5, Finish(0, Fine));
    r := q + [s5, s6];
    assert Step(q[4], s5) && Step(s5, s6);
    RunKeepsInv(q, 4);
    forall i: nat | i + 1 < |r| ensures Linked(r, i) {
      assert i < 4 ==> Linked(q, i);
    }
    StatusOfZero(s5);
  }

  /** Its work queued and taken, the first job of all is in the first slot. */
  lemma FirstJobTaken(cmd: Command) returns (r: seq<State>)
    ensures IsRun(r) && r[|r| - 1].running == Some(Work(cmd, 1)) && r[|r| - 1].jobStatus == NO_ERROR
  {
    var s := Initial();
    FindFrom(s.slots, 0, 0);
    var t := QueueWork(s, cmd);
    var u := Apply(t, Take);
    assert u.running == Some(Work(cmd, 1)) && u.jobStatus == NO_ERROR;
    r := [s];
    assert IsRun(r);
    assert Apply(s, Queue(cmd)) == t;
    hide IsRun;
    RunSnoc(r, Queue(cmd));
    RunSnoc(r + [t], Take);
    r := r + [t] + [u];
  }

  /** A metadata allocation that fails is recorded as good. */
  lemma FailedAllocationPasses() returns (r: seq<State>, s: State)
    ensures IsRun(r) && s == r[|r| - 1] && s.running == Some(Work(MetadataAlloc, 1))
    ensures Enabled(s, Finish(0, AllocationFailed)) && FinishWork(s, 0, AllocationFailed).final[1] == NO_ERROR
  {
    r := FirstJobTaken(MetadataAlloc);
    s := r[|r| - 1];
    RunKeepsInv(r, |r| - 1);
    StatusOfZero(s);
    RecordedGoodIff(s, 0, AllocationFailed);
  }

  /** Looking up id 0 meets a free slot or none: no error either way. */
  lemma StatusOfZero(s: State)
    requires TableShape(s)
    ensures StatusOf(s.slots, 0) == NO_ERROR
  {
  }

  lemma StickyStep(s: State, t: State)
    requires Inv(s) && Step(s, t) && s.jobStatus != NO_ERROR
    requires s.running.Some? ==> !s.running.value.cmd.Generic?
    ensures t.jobStatus != NO_ERROR
    ensures forall id :: id in t.final && id !in s.final ==> t.final[id] != NO_ERROR
  {
  }

  lemma FinishKeepsFinal(s: State, prerequisite: nat, body: Body)
    requires Inv(s) && s.running.Some?
    ensures forall id :: id in s.final ==>
              id in FinishWork(s, prerequisite, body).final && FinishWork(s, prerequisite, body).final[id] == s.final[id]
  {
    assert Unfinished(s)[0] == s.running.value;
    assert Pending(s, s.running.value.id);
  }

  lemma FinalStays(s: State, t: State)
    requires Inv(s) && Step(s, t)
    ensures forall id :: id in s.final ==> id in t.final && t.final[id] == s.final[id]
  {
    var a :| Enabled(s, a) && t == Apply(s, a);
    if a.Finish? {
      FinishKeepsFinal(s, a.prerequisite, a.body);
    }
  }

  /** A recorded status never changes. */
  lemma {:induction false} FinalIsStable(r: seq<State>, k: nat, l: nat, id: nat)
    requires IsRun(r) && k <= l < |r| && id in r[k].final
    ensures id in r[l].final && r[l].final[id] == r[k].final[id]
    decreases l - k
  {
    if k < l {
      FinalIsStable(r, k, l - 1, id);
      RunKeepsInv(r, l - 1);
      assert Linked(r, l - 1);
      FinalStays(r[l - 1], r[l]);
    }
  }

  /** After a failure every further job fails too, until a generic job runs. */
  lemma {:induction false} FailureIsSticky(r: seq<State>, k: nat, l: nat)
    requires IsRun(r) && k <= l < |r| && r[k].jobStatus != NO_ERROR
    requires forall i :: k <= i < l && r[i].running.Some? ==> !r[i].running.value.cmd.Generic?
    ensures r[l].jobStatus != NO_ERROR
    ensures forall id :: id in r[l].final && id !in r[k].final ==> r[l].final[id] != NO_ERROR
    decreases l - k
  {
    if k < l {
      FailureIsSticky(r, k, l - 1);
      RunKeepsInv(r, l - 1);
      assert Linked(r, l - 1);
      StickyStep(r[l - 1], r[l]);
      FinalStays(r[l - 1], r[l]);
    }
  }

  /** What waitDeferredWork reads: an issued job is in progress exactly while it is unfinished,
      and afterwards its status is the recorded one, which is no error exactly when its slot was
      freed. */
  lemma WaitSeesTheTruth(s: State, id: nat)
    requires Inv(s) && 1 <= id < s.nextId
    ensures InProgress(s.slots, id) <==> Pending(s, id)
    ensures !Pending(s, id) ==>
              && id in s.final
              && StatusOf(s.slots, id) == s.final[id]
              && (s.final[id] == NO_ERROR <==> Find(s.slots, id) == |s.slots|)
  {
  }

  // ---------- the code ----------

  lemma {:induction false} FindFrom(slots: seq<Slot>, id: nat, i: nat)
    requires i <= |slots| && forall j :: 0 <= j < i ==> slots[j].id != id
    requires i < |slots| ==> slots[i].id == id
    ensures Find(slots, id) == i
  {
    var f := Find(slots, id);
    assert f == |slots| || slots[f].id == id;
  }

  /** How many unfinished jobs stand at or before this one in the queue. */
  function Ahead(s: State, id: nat): nat {
    CountUpTo(Unfinished(s), id)
  }

  function CountUpTo(ws: seq<Work>, id: nat): nat {
    if ws == [] then 0 else (if ws[0].id <= id then 1 else 0) + CountUpTo(ws[1..], id)
  }

  lemma {:induction false} CountUpToAppend(ws: seq<Work>, w: Work, id: nat)
    ensures CountUpTo(ws + [w], id) == CountUpTo(ws, id) + (if w.id <= id then 1 else 0)
  {
    if ws == [] {
      assert ws + [w] == [w];
    } else {
      assert (ws + [w])[1..] == ws[1..] + [w];
      CountUpToAppend(ws[1..], w, id);
    }
  }

  lemma QueueKeepsAhead(s: State, cmd: Command, id: nat)
    requires id < s.nextId
    ensures Ahead(QueueWork(s, cmd), id) == Ahead(s, id)
  {
    if QueueWork(s, cmd) != s {
      CountUpToAppend(Unfinished(s), Work(cmd, s.nextId), id);
      assert Unfinished(QueueWork(s, cmd)) == Unfinished(s) + [Work(cmd, s.nextId)];
    }
  }

  /** Each job that finishes brings every waiting job one place nearer. */
  lemma FinishBringsNearer(s: State, prerequisite: nat, body: Body, id: nat)
    requires Inv(s) && s.running.Some? && Pending(s, id)
    ensures Ahead(FinishWork(s, prerequisite, body), id) == Ahead(s, id) - 1
  {
    var u := Unfinished(s);
    var i :| 0 <= i < |u| && u[i].id == id;
    assert u[0] == s.running.value && u[0].id <= u[i].id;
    assert u[1..] == s.queue == Unfinished(FinishWork(s, prerequisite, body));
  }

  lemma IdsArePositive(s: State)
    requires Inv(s)
    ensures s.nextId >= 1
  {
  }

  lemma QueueKeepsWait(s: State, cmd: Command, id: nat)
    requires Inv(s) && Pending(s, id) && id < s.nextId
    ensures var t := QueueWork(s, cmd);
            Pending(t, id) && Ahead(t, id) == Ahead(s, id) && t.nextId >= s.nextId && t.final == s.final
  {
    QueueKeepsAhead(s, cmd, id);
    QueueKeepsOrder(s, cmd);
  }

  lemma FinishFacts(s: State, p: nat, body: Body)
    requires Inv(s) && s.running.Some?
    ensures Inv(FinishWork(s, p, body)) && Find(s.slots, s.running.value.id) < |s.slots|
    ensures 1 <= p < s.running.value.id ==> p in s.final && StatusOf(s.slots, p) == s.final[p]
  {
    FinishKeepsInv(s, p, body);
    RunningHasSlot(s);
    if 1 <= p < s.running.value.id {
      EarlierJobsAreFinal(s, p);
    }
  }

  class DeferredScheduler {
    const mDefOngoingJobs: array<Slot>
    var mCmdQueue: seq<Work>
    var sNextJobId: nat
    var jobStatus: int
    var running: Option<Work>
    ghost var final: map<nat, int>
    // how often a wait may still time out before the job at the head is done
    var idleWakeups: nat

    ghost function View(): State
      reads this, mDefOngoingJobs
    {
      State(mDefOngoingJobs[..], mCmdQueue, running, sNextJobId, jobStatus, final)
    }

    ghost predicate Valid()
      reads this, mDefOngoingJobs
    {
      Inv(View())
    }

    constructor ()
      ensures Valid() && View() == Initial() && fresh(mDefOngoingJobs)
      ensures mDefOngoingJobs.Length == 25 && forall i :: 0 <= i < 25 ==> mDefOngoingJobs[i] == Slot(0, 0)
      ensures mCmdQueue == [] && sNextJobId == 1 && jobStatus == 0 && running.None?
    {
      mDefOngoingJobs := new Slot[MAX_ONGOING_JOBS](_ => Slot(0, NO_ERROR));
      mCmdQueue, sNextJobId, jobStatus, running, final := [], 1, NO_ERROR, None, map[];
      new;
      assert mDefOngoingJobs[..] == Initial().slots;
      InitialInv();
    }

    /** Put the job in the first free slot and in the queue; 0 when the table is full. */
    method QueueDeferredWork(cmd: Command) returns (id: nat)
      requires Valid()
      modifies this`mCmdQueue, this`sNextJobId, mDefOngoingJobs
      ensures Valid() && View() == QueueWork(old(View()), cmd)
      ensures id == if View() == old(View()) then 0 else old(sNextJobId)
      ensures id == 0 <==> forall i :: 0 <= i < mDefOngoingJobs.Length ==> old(mDefOngoingJobs[..])[i].id != 0
      ensures id == 0 ==>
                && mCmdQueue == old(mCmdQueue) && sNextJobId == old(sNextJobId)
                && mDefOngoingJobs[..] == old(mDefOngoingJobs[..])
      ensures id != 0 ==>
                && id == old(sNextJobId) && sNextJobId == id + 1 && mCmdQueue == old(mCmdQueue) + [Work(cmd, id)]
                && exists i: nat :: i < mDefOngoingJobs.Length && FirstWith(old(mDefOngoingJobs[..]), 0, i)
                                    && mDefOngoingJobs[..] == old(mDefOngoingJobs[..])[i := Slot(id, 0)]
    {
      hide Inv;
      QueueKeepsInv(View(), cmd);
      IdsArePositive(View());
      var i := 0;
      while i < mDefOngoingJobs.Length
        invariant 0 <= i <= mDefOngoingJobs.Length
        invariant forall j :: 0 <= j < i ==> mDefOngoingJobs[j].id != 0
      {
        if mDefOngoingJobs[i].id == 0 {
          FindFrom(mDefOngoingJobs[..], 0, i);
          ghost var was := mDefOngoingJobs[..];
          assert FirstWith(was, 0, i);
          mCmdQueue := mCmdQueue + [Work(cmd, sNextJobId)];
          mDefOngoingJobs[i] := Slot(sNextJobId, NO_ERROR);
          sNextJobId := sNextJobId + 1;
          assert mDefOngoingJobs[..] == was[i := Slot(sNextJobId - 1, 0)];
          return mDefOngoingJobs[i].id;
        }
        i := i + 1;
      }
      FindFrom(mDefOngoingJobs[..], 0, i);
      return 0;
    }

    /** Free the slot of a job that ended well, keep the error of one that failed. */
    method DequeueDeferredWork(dw: Work, status: int) returns (found: bool)
      modifies mDefOngoingJobs
      ensures mDefOngoingJobs[..] == Record(old(mDefOngoingJobs[..]), dw.id, status)
      ensures found <==> Find(old(mDefOngoingJobs[..]), dw.id) < mDefOngoingJobs.Length
      ensures !found ==> mDefOngoingJobs[..] == old(mDefOngoingJobs[..])
      ensures found ==>
                exists i: nat :: i < mDefOngoingJobs.Length && FirstWith(old(mDefOngoingJobs[..]), dw.id, i)
                                 && mDefOngoingJobs[..] ==
                                    old(mDefOngoingJobs[..])[i := if status != 0 then Slot(dw.id, status) else Slot(0, 0)]
    {
      var i := 0;
      while i < mDefOngoingJobs.Length
        invariant 0 <= i <= mDefOngoingJobs.Length
        invariant forall j :: 0 <= j < i ==> mDefOngoingJobs[j].id != dw.id
        invariant mDefOngoingJobs[..] == old(mDefOngoingJobs[..])
      {
        if mDefOngoingJobs[i].id == dw.id {
          FindFrom(mDefOngoingJobs[..], dw.id, i);
          assert FirstWith(old(mDefOngoingJobs[..]), dw.id, i);
          if status != NO_ERROR {
            mDefOngoingJobs[i] := mDefOngoingJobs[i].(status := status);
          } else {
            mDefOngoingJobs[i] := Slot(0, NO_ERROR);
          }
          return true;
        }
        i := i + 1;
      }
      FindFrom(mDefOngoingJobs[..], dw.id, i);
      return false;
    }

    method GetDefJobStatus(id: nat) returns (status: int)
      ensures status == StatusOf(mDefOngoingJobs[..], id)
      ensures forall i: nat :: i < mDefOngoingJobs.Length && FirstWith(mDefOngoingJobs[..], id, i) ==>
                status == mDefOngoingJobs[i].status
      ensures (forall i :: 0 <= i < mDefOngoingJobs.Length ==> mDefOngoingJobs[i].id != id) ==> status == 0
    {
      var i := 0;
      while i < mDefOngoingJobs.Length
        invariant 0 <= i <= mDefOngoingJobs.Length
        invariant forall j :: 0 <= j < i ==> mDefOngoingJobs[j].id != id
      {
        if mDefOngoingJobs[i].id == id {
          FindFrom(mDefOngoingJobs[..], id, i);
          return mDefOngoingJobs[i].status;
        }
        i := i + 1;
      }
      FindFrom(mDefOngoingJobs[..], id, i);
      return NO_ERROR;
    }

    method CheckDeferredWork(id: nat) returns (busy: bool)
      ensures busy == InProgress(mDefOngoingJobs[..], id)
      ensures forall i: nat :: i < mDefOngoingJobs.Length && FirstWith(mDefOngoingJobs[..], id, i) ==>
                busy == (mDefOngoingJobs[i].status == 0)
      ensures (forall i :: 0 <= i < mDefOngoingJobs.Length ==> mDefOngoingJobs[i].id != id) ==> !busy
    {
      var i := 0;
      while i < mDefOngoingJobs.Length
        invariant 0 <= i <= mDefOngoingJobs.Length
        invariant forall j :: 0 <= j < i ==> mDefOngoingJobs[j].id != id
      {
        if mDefOngoingJobs[i].id == id {
          FindFrom(mDefOngoingJobs[..], id, i);
          return mDefOngoingJobs[i].status == NO_ERROR;
        }
        i := i + 1;
      }
      FindFrom(mDefOngoingJobs[..], id, i);
      return false;
    }

    // ----- deferredWorkRoutine -----

    method TakeJob()
      requires Valid() && running.None? && mCmdQueue != []
      modifies this`mCmdQueue, this`running
      ensures Valid() && View() == Apply(old(View()), Take)
      ensures running == Some(old(mCmdQueue)[0]) && mCmdQueue == old(mCmdQueue)[1..]
    {
      TakeKeepsInv(View());
      running, mCmdQueue := Some(mCmdQueue[0]), mCmdQueue[1..];
    }

    /** The switch over the command: what the job leaves in job_status, and whether its own work is
        begun at all. */
    method RunJob(cmd: Command, prerequisite: nat, body: Body) returns (begun: bool)
      modifies this`jobStatus
      ensures jobStatus == JobStatus(cmd, old(jobStatus), StatusOf(mDefOngoingJobs[..], prerequisite), body)
      ensures begun <==> (cmd in {PprocStart, MetadataAlloc, CreateJpegSession, ParamInit} ==>
                            StatusOf(mDefOngoingJobs[..], prerequisite) == 0)
      ensures !begun ==> jobStatus == StatusOf(mDefOngoingJobs[..], prerequisite)
      ensures begun && !body.Failed? ==> jobStatus == if cmd == Generic then 0 else old(jobStatus)
      ensures begun && body.Failed? ==>
                jobStatus ==
                if cmd in {PprocStart, MetadataAlloc} then -22
                else if cmd in {CreateJpegSession, PprocInit} then -0x8000_0000
                else body.code
    {
      begun := false;
      if NeedsPrerequisite(cmd) {
        var ret := GetDefJobStatus(prerequisite);
        if ret != NO_ERROR {
          jobStatus := ret;
          return;
        }
      }
      begun := true;
      match cmd
      case Generic =>
        jobStatus := if body.Failed? then body.code else NO_ERROR;
      case PprocStart =>
        if body.Failed? { jobStatus := BAD_VALUE; }
      case MetadataAlloc =>
        if body.Failed? { jobStatus := BAD_VALUE; }
      case CreateJpegSession =>
        if body.Failed? { jobStatus := UNKNOWN_ERROR; }
      case PprocInit =>
        if body.Failed? { jobStatus := UNKNOWN_ERROR; }
      case _ =>
        if body.Failed? { jobStatus := body.code; }
    }

    /** Run the job taken from the queue and record it; its slot is always found.  A job that depends
        on a failed earlier one is not begun, and fails like that one. */
    method FinishJob(prerequisite: nat, body: Body) returns (found: bool, begun: bool)
      requires Valid() && running.Some? && Enabled(View(), Finish(prerequisite, body))
      modifies this`running, this`jobStatus, this`final, mDefOngoingJobs
      ensures Valid() && View() == FinishWork(old(View()), prerequisite, body) && found
      ensures running.None? && final == old(final)[old(running).value.id := jobStatus]
      ensures old(running).value.cmd in {PprocStart, MetadataAlloc, CreateJpegSession, ParamInit} && 1 <= prerequisite < old(running).value.id ==>
                && prerequisite in old(final) && begun == (old(final)[prerequisite] == 0)
                && (!begun ==> jobStatus == old(final)[prerequisite])
      ensures old(running).value.cmd !in {PprocStart, MetadataAlloc, CreateJpegSession, ParamInit} ==> begun
      ensures begun && !body.Failed? ==> jobStatus == if old(running).value.cmd == Generic then 0 else old(jobStatus)
      ensures begun && body.Failed? ==>
                jobStatus ==
                if old(running).value.cmd in {PprocStart, MetadataAlloc} then -22
                else if old(running).value.cmd in {CreateJpegSession, PprocInit} then -0x8000_0000
                else body.code
    {
      hide Inv, StatusOf, JobStatus, FirstWith;
      FinishFacts(View(), prerequisite, body);
      var dw := running.value;
      begun := RunJob(dw.cmd, prerequisite, body);
      found := DequeueDeferredWork(dw, jobStatus);
      running, final := None, final[dw.id := jobStatus];
    }

    // ----- waitDeferredWork -----

    /** What can happen during one wait on the condition: other threads queue jobs, and either the
        wait times out, which happens only finitely often per job, or the worker finishes a job. */
    method WaitRelative(ghost id: nat)
      requires Valid() && Pending(View(), id) && id < sNextJobId
      modifies this, mDefOngoingJobs
      ensures Valid() && old(sNextJobId) <= sNextJobId
      ensures forall x :: x in old(final) ==> x in final && final[x] == old(final)[x]
      ensures Pending(View(), id) ==>
                || Ahead(View(), id) < Ahead(old(View()), id)
                || (Ahead(View(), id) == Ahead(old(View()), id) && idleWakeups < old(idleWakeups))
    {
      hide Inv, QueueWork, Ahead, Pending, FirstWith;
      var more: nat := *;
      while more > 0
        invariant Valid() && Pending(View(), id) && id < sNextJobId && old(sNextJobId) <= sNextJobId
        invariant Ahead(View(), id) == Ahead(old(View()), id)
        invariant idleWakeups == old(idleWakeups) && final == old(final)
      {
        var cmd: Command := *;
        QueueKeepsWait(View(), cmd, id);
        var _ := QueueDeferredWork(cmd);
        more := more - 1;
      }
      WorkerMoves(id);
    }

    method WorkerMoves(ghost id: nat)
      requires Valid() && Pending(View(), id)
      modifies this, mDefOngoingJobs
      ensures Valid() && sNextJobId == old(sNextJobId)
      ensures forall x :: x in old(final) ==> x in final && final[x] == old(final)[x]
      ensures || Ahead(View(), id) < Ahead(old(View()), id)
              || (Ahead(View(), id) == Ahead(old(View()), id) && idleWakeups < old(idleWakeups))
    {
      var timedOut: bool := *;
      if timedOut && idleWakeups > 0 {
        idleWakeups := idleWakeups - 1;
        return;
      }
      TakeIfIdle(id);
      WorkerFinishes(id);
      idleWakeups := *;
    }

    method TakeIfIdle(ghost id: nat)
      requires Valid() && Pending(View(), id)
      modifies this`mCmdQueue, this`running
      ensures Valid() && running.Some? && Pending(View(), id)
      ensures Ahead(View(), id) == Ahead(old(View()), id)
    {
      if running.None? {
        HeadIsQueued(View(), id);
        TakeKeepsUnfinished(View());
        TakeJob();
      }
    }

    method WorkerFinishes(ghost id: nat)
      requires Valid() && Pending(View(), id) && running.Some?
      modifies this`running, this`jobStatus, this`final, mDefOngoingJobs
      ensures Valid() && Ahead(View(), id) == Ahead(old(View()), id) - 1
      ensures forall x :: x in old(final) ==> x in final && final[x] == old(final)[x]
    {
      var prerequisite: nat := *;
      var body: Body := *;
      if (body.Failed? && body.code == NO_ERROR) || (body.AllocationFailed? && !running.value.cmd.MetadataAlloc?) {
        body := Fine;
      }
      FinishBringsNearer(View(), prerequisite, body, id);
      FinishKeepsFinal(View(), prerequisite, body);
      var _, _ := FinishJob(prerequisite, body);
    }

    /** waitDeferredWork ends, and for an issued job it returns the status the job was recorded
        with, which no later step changes; id 0 and ids never issued return no error at once. */
    method WaitDeferredWork(id: nat) returns (rc: int)
      requires Valid()
      modifies this, mDefOngoingJobs
      ensures Valid() && old(sNextJobId) <= sNextJobId
      ensures 1 <= id < old(sNextJobId) ==> id in final && rc == final[id]
      ensures 1 <= id < old(sNextJobId) ==> (rc == NO_ERROR <==> Find(mDefOngoingJobs[..], id) == mDefOngoingJobs.Length)
      ensures id == 0 || id >= old(sNextJobId) ==> rc == NO_ERROR
      ensures forall x :: x in old(final) ==> x in final && final[x] == old(final)[x]
    {
      if id == 0 {
        return NO_ERROR;
      }
      var busy := CheckDeferredWork(id);
      while busy
        invariant Valid() && old(sNextJobId) <= sNextJobId
        invariant busy == InProgress(mDefOngoingJobs[..], id)
        invariant busy ==> id < old(sNextJobId)
        invariant id >= old(sNextJobId) ==> View() == old(View())
        invariant forall x :: x in old(final) ==> x in final && final[x] == old(final)[x]
        decreases if busy then Ahead(View(), id) else 0, idleWakeups, busy
      {
        WaitSeesTheTruth(View(), id);
        WaitRelative(id);
        WaitSeesTheTruth(View(), id);
        busy := CheckDeferredWork(id);
      }
      rc := GetDefJobStatus(id);
      if id < old(sNextJobId) {
        WaitSeesTheTruth(View(), id);
      }
    }
  }
}
