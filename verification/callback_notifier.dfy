/** The callback notifier.

  Any thread queues notifications and sends one DO_NEXT_JOB command for each; one notifier
  thread takes the commands, START, STOP and EXIT jump the command queue, and three filters
  flush the data queue from outside.  The data queue and the command queue are independent, so
  which notification a command meets depends on the interleaving.
*/
module CallbackNotifier {

  datatype Kind = Notify | Data | DataTimestamp | DataSnapshot | UnknownKind

  datatype Message = PreviewFrame | VideoFrame | OtherMessage(code: int)

  /** A queued qcamera_callback_argm_t; `id` tells apart notifications with equal content. */
  datatype Notification = Notification(id: nat, kind: Kind, msg: Message, hasRelease: bool)

  datatype Command = StartData | StopData | DoNextJob | Exit

  datatype Status = NoError | BadValue | InvalidOperation | FailedTransaction

  /** What became of a notification: its release callback ran, it had none, its ownership went
      to the JPEG callback, or it was deleted with nothing called. */
  datatype Outcome = Released(status: Status) | NothingToRelease | HandedToJpeg | Dropped

  datatype Consumer = Waiting | Holding(cmd: Command) | Delivering(n: Notification) | Stopped

  datatype Filter = PreviewOnly | VideoOnly | SnapshotOnly | Everything

  // numOfSnapshotRcvd is a uint32_t
  const WRAP := 0x1_0000_0000

  /** History since the last START command: what it asked for, how many snapshots were delivered
      while active, and how often SNAPSHOT_DONE was raised. */
  datatype Epoch = Epoch(expected: nat, longshot: bool, delivered: nat, done: nat)

  datatype State = State(
    active: bool,             // mActive
    open: bool,               // the data queue accepts and gives out nodes
    dataQ: seq<Notification>,
    commands: seq<Command>,
    checked: nat,             // producers past the mActive test, not enqueued yet
    sending: nat,             // producers that enqueued and have not sent the command yet
    consumer: Consumer,
    snapshotActive: bool,
    longshot: bool,
    expected: nat,
    received: nat,
    nextId: nat,
    accepted: multiset<Notification>,
    settled: multiset<Notification>,
    outcome: map<Notification, Outcome>,
    epoch: Epoch)

  datatype Action =
    | Check
    | Enqueue(kind: Kind, msg: Message, hasRelease: bool)
    | Send
    | SendStart
    | SendStop
    | Deactivate
    | SendExit
    | Flush(filter: Filter)
    | Take
    | Start(numExpected: nat, longshotEnabled: bool)
    | Stop
    | Quit
    | Dequeue
    | Deliver(enabled: bool, dataCb: bool, jpegCb: bool)

  function Initial(): State {
    State(true, true, [], [], 0, 0, Waiting, false, false, 0, 0, 0,
          multiset{}, multiset{}, map[], Epoch(0, false, 0, 0))
  }

  // ---------- the data queue ----------

  predicate Matches(f: Filter, n: Notification) {
    match f
    case PreviewOnly => n.kind.Data? && n.msg.PreviewFrame?
    case VideoOnly => n.kind.DataTimestamp? && n.msg.VideoFrame?
    case SnapshotOnly => n.kind.DataSnapshot?
    case Everything => true
  }

  function Matched(q: seq<Notification>, f: Filter): seq<Notification> {
    if q == [] then []
    else if Matches(f, q[0]) then [q[0]] + Matched(q[1..], f)
    else Matched(q[1..], f)
  }

  function Kept(q: seq<Notification>, f: Filter): seq<Notification> {
    if q == [] then []
    else if Matches(f, q[0]) then Kept(q[1..], f)
    else [q[0]] + Kept(q[1..], f)
  }

  function ReleaseOutcome(n: Notification, status: Status): Outcome {
    if n.hasRelease then Released(status) else NothingToRelease
  }

  function Settle(s: State, n: Notification, o: Outcome): State {
    s.(settled := s.settled + multiset{n}, outcome := s.outcome[n := o])
  }

  function FlushOutcomes(ns: seq<Notification>): map<Notification, Outcome> {
    map n | n in ns :: ReleaseOutcome(n, FailedTransaction)
  }

  /** flushNodes: matching nodes leave the queue and releaseNotifications runs on each. */
  function FlushNodes(s: State, f: Filter): State {
    if s.open then
      s.(dataQ := Kept(s.dataQ, f),
         settled := s.settled + multiset(Matched(s.dataQ, f)),
         outcome := s.outcome + FlushOutcomes(Matched(s.dataQ, f)))
    else s
  }

  // ---------- steps ----------

  predicate Enabled(s: State, a: Action) {
    match a
    case Check => s.active
    case Enqueue(_, _, _) => s.checked > 0
    case Send => s.sending > 0
    case SendExit => !s.active
    case Flush(f) => f.PreviewOnly? || f.VideoOnly?
    case Take => s.consumer.Waiting? && s.commands != []
    case Start(n, _) => s.consumer == Holding(StartData) && n < 256
    case Stop => s.consumer == Holding(StopData)
    case Quit => s.consumer == Holding(Exit)
    case Dequeue => s.consumer == Holding(DoNextJob)
    case Deliver(_, _, _) => s.consumer.Delivering?
    case _ => true
  }

  /** uint32_t increment */
  function NextCount(n: nat): nat { if n == WRAP - 1 then 0 else n + 1 }

  /** Count a snapshot delivered in snapshot mode, and raise SNAPSHOT_DONE when the count meets
      the expected number. */
  function CountSnapshot(s: State): State {
    var counted := NextCount(s.received);
    if s.longshot then
      s.(epoch := s.epoch.(delivered := s.epoch.delivered + 1))
    else
      s.(received := counted,
         epoch := s.epoch.(
           delivered := s.epoch.delivered + 1,
           done := if s.expected > 0 && s.expected == counted then s.epoch.done + 1 else s.epoch.done))
  }

  /** What becomes of the notification in hand, by its kind and the state of the callbacks. */
  function DeliveryOutcome(s: State, n: Notification, enabled: bool, dataCb: bool, jpegCb: bool): Outcome {
    if !enabled then ReleaseOutcome(n, InvalidOperation)
    else if n.kind.UnknownKind? then ReleaseOutcome(n, BadValue)
    else if !n.kind.DataSnapshot? then ReleaseOutcome(n, NoError)
    else if !(s.snapshotActive && dataCb) then Dropped
    else if jpegCb then HandedToJpeg
    else ReleaseOutcome(n, NoError)
  }

  /** A delivery counts as a snapshot only in snapshot mode with a data callback set. */
  predicate CountsSnapshot(s: State, n: Notification, enabled: bool, dataCb: bool) {
    enabled && n.kind.DataSnapshot? && s.snapshotActive && dataCb
  }

  function DeliverTo(s: State, n: Notification, enabled: bool, dataCb: bool, jpegCb: bool): State {
    var o := DeliveryOutcome(s, n, enabled, dataCb, jpegCb);
    Settle(if CountsSnapshot(s, n, enabled, dataCb) then CountSnapshot(s) else s, n, o)
  }

  function EnqueueNode(s: State, n: Notification): State
    requires s.checked > 0
  {
    if s.open then
      s.(checked := s.checked - 1, sending := s.sending + 1, dataQ := s.dataQ + [n],
         accepted := s.accepted + multiset{n}, nextId := s.nextId + 1)
    else
      s.(checked := s.checked - 1)
  }

  function BeginSnapshots(s: State, numExpected: nat, longshotEnabled: bool): State {
    s.(consumer := Waiting, snapshotActive := true, expected := numExpected, longshot := longshotEnabled,
       received := 0, epoch := Epoch(numExpected, longshotEnabled, 0, 0))
  }

  function EndSnapshots(s: State): State {
    FlushNodes(s, SnapshotOnly).(consumer := Waiting, snapshotActive := false, expected := 0, received := 0)
  }

  function QuitThread(s: State): State {
    FlushNodes(s, Everything).(consumer := Stopped, open := false)
  }

  function DequeueNode(s: State): State {
    if s.open && s.dataQ != [] then s.(consumer := Delivering(s.dataQ[0]), dataQ := s.dataQ[1..])
    else s.(consumer := Waiting)
  }

  function Apply(s: State, a: Action): State
    requires Enabled(s, a)
  {
    match a
    case Check => s.(checked := s.checked + 1)
    case Enqueue(kind, msg, hasRelease) => EnqueueNode(s, Notification(s.nextId, kind, msg, hasRelease))
    case Send => s.(sending := s.sending - 1, commands := s.commands + [DoNextJob])
    case SendStart => s.(commands := [StartData] + s.commands)
    case SendStop => s.(commands := [StopData] + s.commands)
    case Deactivate => s.(active := false)
    case SendExit => s.(commands := [Exit] + s.commands)
    case Flush(f) => FlushNodes(s, f)
    case Take => s.(consumer := Holding(s.commands[0]), commands := s.commands[1..])
    case Start(n, longshotEnabled) => BeginSnapshots(s, n, longshotEnabled)
    case Stop => EndSnapshots(s)
    case Quit => QuitThread(s)
    case Dequeue => DequeueNode(s)
    case Deliver(enabled, dataCb, jpegCb) =>
      DeliverTo(s, s.consumer.n, enabled, dataCb, jpegCb).(consumer := Waiting)
  }

  ghost predicate Step(s: State, t: State) {
    exists a :: Enabled(s, a) && t == Apply(s, a)
  }

  ghost predicate Linked(r: seq<State>, i: nat)
    requires i + 1 < |r|
  {
    Step(r[i], r[i + 1])
  }

  /** A run: any interleaving of producers, flushes and the notifier thread. */
  ghost predicate IsRun(r: seq<State>) {
    && |r| > 0
    && r[0] == Initial()
    && forall i: nat :: i + 1 < |r| ==> Linked(r, i)
  }

  // ---------- the invariant ----------

  /** Where a notification is: queued, in the notifier thread's hand, or settled. */
  function Places(s: State, n: Notification): nat {
    multiset(s.dataQ)[n] + (if s.consumer == Delivering(n) then 1 else 0) + s.settled[n]
  }

  ghost predicate Conserved(s: State) {
    forall n :: s.accepted[n] == Places(s, n)
  }

  ghost predicate AcceptedOnce(s: State) {
    forall n :: n in s.accepted ==> s.accepted[n] == 1 && n.id < s.nextId
  }

  predicate OutcomeFits(n: Notification, o: Outcome) {
    if !n.hasRelease then !o.Released?
    else if n.kind.DataSnapshot? then !o.NothingToRelease?
    else o.Released?
  }

  ghost predicate OutcomesFit(outcome: map<Notification, Outcome>, settled: multiset<Notification>) {
    && (forall n :: n in outcome <==> n in settled)
    && (forall n :: n in outcome ==> OutcomeFits(n, outcome[n]))
  }

  function Jobs(cs: seq<Command>): nat {
    if cs == [] then 0 else (if cs[0] == DoNextJob then 1 else 0) + Jobs(cs[1..])
  }

  /** Wake-ups still to come for the data queue. */
  function Wakeups(s: State): nat {
    Jobs(s.commands) + s.sending + (if s.consumer == Holding(DoNextJob) then 1 else 0)
  }

  ghost predicate NoneStranded(s: State) {
    && Wakeups(s) >= |s.dataQ|
    && (s.open <==> !s.consumer.Stopped?)
    && (!s.open ==> s.dataQ == [])
  }

  /** How often SNAPSHOT_DONE must have been raised, from the history alone: never in longshot
      mode or when none is expected, otherwise once per count that meets the expected number. */
  function DoneCount(e: Epoch): nat
    requires e.expected < WRAP
  {
    if e.longshot || e.expected == 0 then 0 else (e.delivered + WRAP - e.expected) / WRAP
  }

  ghost predicate SnapshotsCounted(s: State) {
    && s.epoch.expected < 256
    && s.epoch.done == DoneCount(s.epoch)
    && (s.snapshotActive ==>
          && s.expected == s.epoch.expected
          && s.longshot == s.epoch.longshot
          && s.received == if s.longshot then 0 else s.epoch.delivered % WRAP)
  }

  ghost predicate Inv(s: State) {
    Conserved(s) && AcceptedOnce(s) && OutcomesFit(s.outcome, s.settled) && NoneStranded(s) && SnapshotsCounted(s)
  }

  // ---------- queue lemmas ----------

  /** A flush splits the queue: nothing is lost and nothing is made up. */
  lemma {:induction false} FlushSplits(q: seq<Notification>, f: Filter)
    ensures multiset(q) == multiset(Matched(q, f)) + multiset(Kept(q, f))
    ensures |Kept(q, f)| <= |q|
  {
    if q != [] {
      FlushSplits(q[1..], f);
      assert q == [q[0]] + q[1..];
    }
  }

  /** All and only what matches is released. */
  lemma {:induction false} FlushMembers(q: seq<Notification>, f: Filter)
    ensures forall n :: n in Kept(q, f) <==> n in q && !Matches(f, n)
    ensures forall n :: n in Matched(q, f) <==> n in q && Matches(f, n)
  {
    if q != [] {
      FlushMembers(q[1..], f);
      assert q == [q[0]] + q[1..];
    }
  }

  /** The order among what stays, and among what is released, is the queue's order. */
  lemma {:induction false} FlushIsFilter(p: seq<Notification>, q: seq<Notification>, f: Filter)
    ensures Kept(p + q, f) == Kept(p, f) + Kept(q, f)
    ensures Matched(p + q, f) == Matched(p, f) + Matched(q, f)
  {
    if p == [] {
      assert p + q == q;
    } else {
      assert (p + q)[1..] == p[1..] + q;
      FlushIsFilter(p[1..], q, f);
    }
  }

  lemma {:induction false} FlushEverything(q: seq<Notification>)
    ensures Kept(q, Everything) == [] && Matched(q, Everything) == q
  {
    if q != [] {
      FlushEverything(q[1..]);
    }
  }

  lemma {:induction false} JobsAppend(cs: seq<Command>, c: Command)
    ensures Jobs(cs + [c]) == Jobs(cs) + Jobs([c])
  {
    if cs == [] {
      assert cs + [c] == [c];
    } else {
      assert (cs + [c])[1..] == cs[1..] + [c];
      JobsAppend(cs[1..], c);
    }
  }

  lemma JobsPrepend(c: Command, cs: seq<Command>)
    ensures Jobs([c] + cs) == Jobs([c]) + Jobs(cs)
  {
    assert ([c] + cs)[1..] == cs;
  }

  // ---------- steps keep the invariant ----------

  lemma FlushKeepsPlaces(s: State, f: Filter, n: Notification)
    ensures Places(FlushNodes(s, f), n) == Places(s, n)
  {
    FlushSplits(s.dataQ, f);
  }

  lemma DequeueKeepsPlaces(s: State, n: Notification)
    requires s.consumer == Holding(DoNextJob)
    ensures Places(DequeueNode(s), n) == Places(s, n)
  {
    if s.open && s.dataQ != [] {
      assert s.dataQ == [s.dataQ[0]] + s.dataQ[1..];
    }
  }

  lemma DeliverKeepsPlaces(s: State, enabled: bool, dataCb: bool, jpegCb: bool, n: Notification)
    requires s.consumer.Delivering?
    ensures var t := Apply(s, Deliver(enabled, dataCb, jpegCb));
            t.accepted[n] - Places(t, n) == s.accepted[n] - Places(s, n)
  {
    DeliverSettles(s, enabled, dataCb, jpegCb);
    hide Apply;
  }

  lemma DeliverSettles(s: State, enabled: bool, dataCb: bool, jpegCb: bool)
    requires s.consumer.Delivering?
    ensures var t := Apply(s, Deliver(enabled, dataCb, jpegCb));
            && t.accepted == s.accepted && t.dataQ == s.dataQ && t.consumer.Waiting?
            && t.settled == s.settled + multiset{s.consumer.n}
  {
    hide DeliveryOutcome;
  }

  lemma StepKeepsPlaces(s: State, a: Action, n: Notification)
    requires Enabled(s, a)
    ensures var t := Apply(s, a); t.accepted[n] - Places(t, n) == s.accepted[n] - Places(s, n)
  {
    hide DeliverTo, Kept, Matched, FlushOutcomes;
    match a
    case Flush(f) => FlushKeepsPlaces(s, f, n);
    case Stop => FlushKeepsPlaces(s, SnapshotOnly, n);
    case Quit => FlushKeepsPlaces(s, Everything, n);
    case Deliver(enabled, dataCb, jpegCb) => DeliverKeepsPlaces(s, enabled, dataCb, jpegCb, n);
    case Dequeue => DequeueKeepsPlaces(s, n);
    case _ =>
  }

  lemma StepKeepsConserved(s: State, a: Action)
    requires Conserved(s) && Enabled(s, a)
    ensures Conserved(Apply(s, a))
  {
    forall n ensures Apply(s, a).accepted[n] == Places(Apply(s, a), n) {
      StepKeepsPlaces(s, a, n);
    }
  }

  lemma FlushKeepsFits(outcome: map<Notification, Outcome>, settled: multiset<Notification>, ns: seq<Notification>)
    requires OutcomesFit(outcome, settled)
    ensures OutcomesFit(outcome + FlushOutcomes(ns), settled + multiset(ns))
  {
    var o, t := outcome + FlushOutcomes(ns), settled + multiset(ns);
    forall n ensures n in o <==> n in t {
      assert n in multiset(ns) <==> n in ns;
    }
  }

  lemma SettleKeepsFits(outcome: map<Notification, Outcome>, settled: multiset<Notification>, n: Notification, o: Outcome)
    requires OutcomesFit(outcome, settled) && OutcomeFits(n, o)
    ensures OutcomesFit(outcome[n := o], settled + multiset{n})
  {
  }

  lemma StepKeepsFits(s: State, a: Action)
    requires OutcomesFit(s.outcome, s.settled) && Enabled(s, a)
    ensures OutcomesFit(Apply(s, a).outcome, Apply(s, a).settled)
  {
    if a.Flush? || a.Stop? || a.Quit? {
      var f := if a.Flush? then a.filter else if a.Stop? then SnapshotOnly else Everything;
      FlushKeepsFits(s.outcome, s.settled, Matched(s.dataQ, f));
    } else if a.Deliver? {
      var n := s.consumer.n;
      SettleKeepsFits(s.outcome, s.settled, n, DeliveryOutcome(s, n, a.enabled, a.dataCb, a.jpegCb));
    }
  }

  lemma StepKeepsAccepted(s: State, a: Action)
    requires AcceptedOnce(s) && Enabled(s, a)
    ensures AcceptedOnce(Apply(s, a))
  {
  }

  lemma StepKeepsNoneStranded(s: State, a: Action)
    requires NoneStranded(s) && Enabled(s, a)
    ensures NoneStranded(Apply(s, a))
  {
    match a
    case Send => JobsAppend(s.commands, DoNextJob);
    case SendStart => JobsPrepend(StartData, s.commands);
    case SendStop => JobsPrepend(StopData, s.commands);
    case SendExit => JobsPrepend(Exit, s.commands);
    case Flush(f) => FlushSplits(s.dataQ, f);
    case Stop => FlushSplits(s.dataQ, SnapshotOnly);
    case Quit => FlushEverything(s.dataQ);
    case _ =>
  }

  lemma DoneCountStep(e: Epoch)
    requires e.expected < WRAP && !e.longshot
    ensures DoneCount(e.(delivered := e.delivered + 1)) - DoneCount(e)
            == if e.expected > 0 && (e.delivered + 1) % WRAP == e.expected then 1 else 0
  {
  }

  lemma CountKeeps(s: State)
    requires SnapshotsCounted(s) && s.snapshotActive
    ensures SnapshotsCounted(CountSnapshot(s))
  {
    var e, t := s.epoch, CountSnapshot(s);
    if !s.longshot {
      DoneCountStep(e);
      assert t.received == (e.delivered + 1) % WRAP;
    }
  }

  lemma StepKeepsSnapshots(s: State, a: Action)
    requires SnapshotsCounted(s) && Enabled(s, a)
    ensures SnapshotsCounted(Apply(s, a))
  {
    if a.Deliver? {
      if CountsSnapshot(s, s.consumer.n, a.enabled, a.dataCb) {
        CountKeeps(s);
      }
    }
  }

  lemma StepKeepsInv(s: State, t: State)
    requires Inv(s) && Step(s, t)
    ensures Inv(t)
  {
    var a :| Enabled(s, a) && t == Apply(s, a);
    StepKeepsConserved(s, a);
    StepKeepsFits(s, a);
    StepKeepsAccepted(s, a);
    StepKeepsNoneStranded(s, a);
    StepKeepsSnapshots(s, a);
  }

  lemma InitialInv(r: seq<State>)
    requires IsRun(r)
    ensures Inv(r[0])
  {
    hide Linked;
  }

  lemma {:induction false} RunKeepsInv(r: seq<State>, k: nat)
    requires IsRun(r) && k < |r|
    ensures Inv(r[k])
  {
    hide IsRun, Inv, Step;
    if k == 0 {
      InitialInv(r);
    } else {
      RunKeepsInv(r, k - 1);
      RunSteps(r, k - 1);
      StepKeepsInv(r[k - 1], r[k]);
    }
  }

  lemma RunSteps(r: seq<State>, k: nat)
    requires IsRun(r) && k + 1 < |r|
    ensures Step(r[k], r[k + 1])
  {
    hide Step;
    assert Linked(r, k);
  }

  // ---------- what every run guarantees ----------

  /** An accepted notification is in exactly one place, exactly once. */
  lemma AcceptedIsInOnePlace(r: seq<State>, k: nat, n: Notification)
    requires IsRun(r) && k < |r| && n in r[k].accepted
    ensures Places(r[k], n) == 1
  {
    RunKeepsInv(r, k);
  }

  /** t still records n as settled, with the outcome s recorded. */
  ghost predicate KeepsOutcome(s: State, t: State, n: Notification) {
    n in t.settled && (n in s.outcome ==> n in t.outcome && t.outcome[n] == s.outcome[n])
  }

  lemma FlushKeepsOutcome(s: State, f: Filter, n: Notification)
    requires Inv(s) && n in s.settled
    ensures KeepsOutcome(s, FlushNodes(s, f), n)
  {
    assert Places(s, n) == 1;
    FlushSplits(s.dataQ, f);
    assert multiset(Matched(s.dataQ, f))[n] == 0;
    assert n !in FlushOutcomes(Matched(s.dataQ, f));
  }

  lemma DeliverKeepsOutcome(s: State, n: Notification, enabled: bool, dataCb: bool, jpegCb: bool)
    requires Inv(s) && n in s.settled && s.consumer.Delivering?
    ensures KeepsOutcome(s, DeliverTo(s, s.consumer.n, enabled, dataCb, jpegCb), n)
  {
    hide DeliveryOutcome;
    assert Places(s, n) == 1;
  }

  lemma OutcomeIsFinalAction(s: State, a: Action, n: Notification)
    requires Inv(s) && Enabled(s, a) && n in s.settled
    ensures KeepsOutcome(s, Apply(s, a), n)
  {
    hide Inv, FlushNodes, DeliverTo;
    match a
    case Deliver(enabled, dataCb, jpegCb) => DeliverKeepsOutcome(s, n, enabled, dataCb, jpegCb);
    case Flush(f) => FlushKeepsOutcome(s, f, n);
    case Stop => FlushKeepsOutcome(s, SnapshotOnly, n);
    case Quit => FlushKeepsOutcome(s, Everything, n);
    case _ =>
  }

  lemma OutcomeIsFinalStep(s: State, t: State, n: Notification)
    requires Inv(s) && Step(s, t) && n in s.settled
    ensures n in s.outcome && n in t.settled && n in t.outcome && t.outcome[n] == s.outcome[n]
  {
    var a :| Enabled(s, a) && t == Apply(s, a);
    assert n in s.outcome;
    hide Inv, Apply;
    OutcomeIsFinalAction(s, a, n);
  }

  lemma SettledIsFinal(r: seq<State>, j: nat, n: Notification)
    requires IsRun(r) && j + 1 < |r| && n in r[j].settled
    ensures n in r[j].outcome && n in r[j + 1].settled && n in r[j + 1].outcome
    ensures r[j + 1].outcome[n] == r[j].outcome[n]
  {
    RunKeepsInv(r, j);
    assert Linked(r, j);
    OutcomeIsFinalStep(r[j], r[j + 1], n);
  }

  lemma SettledInRun(r: seq<State>, j: nat, n: Notification)
    requires IsRun(r) && j < |r| && n in r[j].settled
    ensures r[j].settled[n] == 1 && n in r[j].outcome
  {
    RunKeepsInv(r, j);
    assert r[j].accepted[n] == Places(r[j], n);
  }

  /** Once settled, a notification is never settled again and its outcome never changes: its
      release callback cannot run twice. */
  lemma {:induction false} OutcomeIsFinal(r: seq<State>, i: nat, j: nat, n: Notification)
    requires IsRun(r) && i <= j < |r| && n in r[i].settled
    ensures r[j].settled[n] == 1
    ensures n in r[i].outcome && n in r[j].outcome && r[j].outcome[n] == r[i].outcome[n]
    decreases j - i
  {
    if i < j {
      OutcomeIsFinal(r, i, j - 1, n);
      SettledIsFinal(r, j - 1, n);
    }
    SettledInRun(r, j, n);
  }

  /** After the notifier thread quit, every accepted notification is settled exactly once: the
      release callback of a notify, data or timestamp notification has run, and that of a
      snapshot has run, or was handed on, or was dropped with it. */
  lemma ExitSettlesEverything(r: seq<State>, k: nat, n: Notification)
    requires IsRun(r) && k < |r| && r[k].consumer.Stopped? && n in r[k].accepted
    ensures r[k].settled[n] == 1 && n in r[k].outcome
    ensures n.hasRelease && !n.kind.DataSnapshot? ==> r[k].outcome[n].Released?
    ensures r[k].outcome[n].HandedToJpeg? || r[k].outcome[n].Dropped? ==> n.kind.DataSnapshot? || !n.hasRelease
  {
    RunKeepsInv(r, k);
    assert Places(r[k], n) == 1;
    assert multiset(r[k].dataQ)[n] == 0;
  }

  /** A snapshot loses its release callback exactly when snapshot mode or the data callback is
      off at delivery. */
  lemma DroppedIff(s: State, enabled: bool, dataCb: bool, jpegCb: bool)
    requires s.consumer.Delivering?
    ensures var n := s.consumer.n;
            Apply(s, Deliver(enabled, dataCb, jpegCb)).outcome[n].Dropped?
            <==> enabled && n.kind.DataSnapshot? && !(s.snapshotActive && dataCb)
  {
  }

  /** No notification is stranded: whenever no wake-up is left anywhere, the queue is empty. */
  lemma NoWakeupsMeansEmpty(r: seq<State>, k: nat)
    requires IsRun(r) && k < |r|
    ensures |r[k].dataQ| <= Wakeups(r[k])
    ensures r[k].commands == [] && r[k].sending == 0 && r[k].consumer.Waiting? ==> r[k].dataQ == []
  {
    RunKeepsInv(r, k);
  }

  /** Between two START commands SNAPSHOT_DONE is raised at most once exactly as long as the
      32-bit count has not come round, and then precisely from the expected-th snapshot on. */
  lemma SnapshotDoneOnce(r: seq<State>, k: nat)
    requires IsRun(r) && k < |r|
    ensures var e := r[k].epoch;
            e.done <= 1 <==> e.longshot || e.expected == 0 || e.delivered < WRAP + e.expected
    ensures var e := r[k].epoch;
            e.delivered < WRAP ==> e.done == if !e.longshot && 0 < e.expected <= e.delivered then 1 else 0
    ensures r[k].epoch.longshot ==> r[k].epoch.done == 0
  {
    RunKeepsInv(r, k);
  }

  /** Ids rise along the queue, after the notification in hand and below the next id. */
  predicate Rising(q: seq<Notification>, low: int, high: nat) {
    && (forall i :: 0 <= i < |q| ==> low < q[i].id < high)
    && (forall i, j :: 0 <= i < j < |q| ==> q[i].id < q[j].id)
  }

  /** What is in hand is n or later than id, and what is queued is later still; n has this id, or id
      is -1 and all is later. */
  predicate After(s: State, id: int, n: Notification) {
    && id < s.nextId
    && (s.consumer.Delivering? ==>
          ((s.consumer.n == n && n.id == id) || id < s.consumer.n.id) && s.consumer.n.id < s.nextId)
    && Rising(s.dataQ, if s.consumer.Delivering? then s.consumer.n.id else id, s.nextId)
  }

  lemma {:induction false} KeptRises(q: seq<Notification>, f: Filter, low: int, high: nat)
    requires Rising(q, low, high)
    ensures Rising(Kept(q, f), low, high)
  {
    if q != [] {
      KeptRises(q[1..], f, q[0].id, high);
    }
  }

  lemma FlushKeepsAfter(s: State, f: Filter, id: int, n: Notification)
    requires After(s, id, n)
    ensures After(FlushNodes(s, f), id, n) && FlushNodes(s, f).consumer == s.consumer
  {
    hide Kept, Matched, FlushOutcomes;
    KeptRises(s.dataQ, f, if s.consumer.Delivering? then s.consumer.n.id else id, s.nextId);
  }

  /** After a delivery what comes next is later still; before it, the notification in hand counts too. */
  lemma DeliverKeepsAfter(s: State, enabled: bool, dataCb: bool, jpegCb: bool, id: int, n: Notification)
    requires After(s, id, n) && s.consumer.Delivering?
    ensures After(Apply(s, Deliver(enabled, dataCb, jpegCb)), id, n)
  {
    hide DeliveryOutcome, CountSnapshot, CountsSnapshot;
    CountKeepsQueue(s);
  }

  lemma CountKeepsQueue(s: State)
    ensures CountSnapshot(s).dataQ == s.dataQ && CountSnapshot(s).nextId == s.nextId && CountSnapshot(s).consumer == s.consumer
  {
  }

  lemma EnqueueKeepsAfter(s: State, x: Notification, id: int, n: Notification)
    requires After(s, id, n) && s.checked > 0 && x.id == s.nextId
    ensures After(EnqueueNode(s, x), id, n)
  {
  }

  lemma DequeueKeepsAfter(s: State, id: int, n: Notification)
    requires After(s, id, n) && !s.consumer.Delivering?
    ensures After(DequeueNode(s), id, n)
  {
  }

  lemma OthersKeepAfter(s: State, a: Action, id: int, n: Notification)
    requires After(s, id, n) && Enabled(s, a)
    requires !a.Enqueue? && !a.Flush? && !a.Stop? && !a.Quit? && !a.Dequeue? && !a.Deliver?
    ensures After(Apply(s, a), id, n)
  {
    hide Rising;
  }

  lemma ActionKeepsAfter(s: State, a: Action, id: int, n: Notification)
    requires After(s, id, n) && Enabled(s, a)
    ensures After(Apply(s, a), id, n)
  {
    hide Rising, FlushNodes, DeliverTo, EnqueueNode, DequeueNode;
    match a
    case Deliver(enabled, dataCb, jpegCb) => DeliverKeepsAfter(s, enabled, dataCb, jpegCb, id, n);
    case Flush(f) => FlushKeepsAfter(s, f, id, n);
    case Stop =>
      FlushKeepsAfter(s, SnapshotOnly, id, n);
    case Quit =>
      FlushKeepsAfter(s, Everything, id, n);
    case Enqueue(kind, msg, hasRelease) =>
      EnqueueKeepsAfter(s, Notification(s.nextId, kind, msg, hasRelease), id, n);
    case Dequeue => DequeueKeepsAfter(s, id, n);
    case _ => OthersKeepAfter(s, a, id, n);
  }

  lemma StepKeepsAfter(s: State, t: State, id: int, n: Notification)
    requires After(s, id, n) && Step(s, t)
    ensures After(t, id, n)
  {
    var a :| Enabled(s, a) && t == Apply(s, a);
    hide After, Apply;
    ActionKeepsAfter(s, a, id, n);
  }

  lemma {:induction false} RunKeepsAfter(r: seq<State>, j: nat, k: nat, id: int, n: Notification)
    requires IsRun(r) && j <= k < |r| && After(r[j], id, n)
    ensures After(r[k], id, n)
    decreases k - j
  {
    hide IsRun, After, Step;
    if j < k {
      RunKeepsAfter(r, j, k - 1, id, n);
      RunSteps(r, k - 1);
      StepKeepsAfter(r[k - 1], r[k], id, n);
    }
  }

  /** Ids rise from one delivery to the next. */
  lemma DeliveredIdsRise(r: seq<State>, j: nat, k: nat)
    requires IsRun(r) && j <= k < |r| && r[j].consumer.Delivering? && r[k].consumer.Delivering?
    ensures r[j].consumer.n != r[k].consumer.n ==> r[j].consumer.n.id < r[k].consumer.n.id
  {
    var n := r[j].consumer.n;
    assert After(r[0], -1, n);
    RunKeepsAfter(r, 0, j, -1, n);
    assert After(r[j], n.id, n);
    RunKeepsAfter(r, j, k, n.id, n);
  }

  lemma AcceptedAction(s: State, a: Action, n: Notification)
    requires Enabled(s, a)
    ensures Apply(s, a).nextId >= s.nextId
    ensures n in s.accepted ==> n in Apply(s, a).accepted
    ensures n in Apply(s, a).accepted && n !in s.accepted ==> n.id == s.nextId
  {
    hide FlushNodes, DeliverTo, EnqueueNode;
    match a
    case Deliver(enabled, dataCb, jpegCb) => DeliverKeepsAccepted(s, enabled, dataCb, jpegCb);
    case Flush(f) => FlushKeepsAccepted(s, f);
    case Stop => FlushKeepsAccepted(s, SnapshotOnly);
    case Quit => FlushKeepsAccepted(s, Everything);
    case Enqueue(kind, msg, hasRelease) => EnqueueAccepts(s, Notification(s.nextId, kind, msg, hasRelease));
    case _ =>
  }

  lemma DeliverKeepsAccepted(s: State, enabled: bool, dataCb: bool, jpegCb: bool)
    requires s.consumer.Delivering?
    ensures var t := DeliverTo(s, s.consumer.n, enabled, dataCb, jpegCb); t.accepted == s.accepted && t.nextId == s.nextId
  {
    hide DeliveryOutcome;
  }

  lemma FlushKeepsAccepted(s: State, f: Filter)
    ensures FlushNodes(s, f).accepted == s.accepted && FlushNodes(s, f).nextId == s.nextId
  {
    hide Kept, Matched, FlushOutcomes;
  }

  lemma EnqueueAccepts(s: State, n: Notification)
    requires s.checked > 0
    ensures var t := EnqueueNode(s, n);
            if s.open then t.accepted == s.accepted + multiset{n} && t.nextId == s.nextId + 1
            else t.accepted == s.accepted && t.nextId == s.nextId
  {
  }

  lemma AcceptedStep(s: State, t: State, n: Notification)
    requires Step(s, t)
    ensures t.nextId >= s.nextId
    ensures n in s.accepted ==> n in t.accepted
    ensures n in t.accepted && n !in s.accepted ==> n.id == s.nextId
  {
    var a :| Enabled(s, a) && t == Apply(s, a);
    hide Apply;
    AcceptedAction(s, a, n);
  }

  /** What is accepted stays accepted, and what is accepted later has a later id. */
  lemma {:induction false} AcceptedInOrder(r: seq<State>, j: nat, k: nat, n: Notification)
    requires IsRun(r) && j <= k < |r|
    ensures r[k].nextId >= r[j].nextId
    ensures n in r[j].accepted ==> n in r[k].accepted
    ensures n in r[k].accepted && n !in r[j].accepted ==> n.id >= r[j].nextId
    decreases k - j
  {
    hide IsRun, Step;
    if j < k {
      AcceptedInOrder(r, j, k - 1, n);
      RunSteps(r, k - 1);
      AcceptedStep(r[k - 1], r[k], n);
    }
  }

  lemma InHandIsAccepted(r: seq<State>, k: nat)
    requires IsRun(r) && k < |r| && r[k].consumer.Delivering?
    ensures r[k].consumer.n in r[k].accepted
  {
    RunKeepsInv(r, k);
    assert r[k].accepted[r[k].consumer.n] == Places(r[k], r[k].consumer.n);
  }

  lemma AcceptedHasId(r: seq<State>, k: nat, n: Notification)
    requires IsRun(r) && k < |r| && n in r[k].accepted
    ensures n.id < r[k].nextId
  {
    RunKeepsInv(r, k);
  }

  /** Notifications reach delivery in the order they were accepted, whatever is flushed in between: if
      n was accepted when m was not yet, and both are delivered, n is delivered first. */
  lemma DeliveredInOrder(r: seq<State>, i: nat, n: Notification, m: Notification, j: nat, k: nat)
    requires IsRun(r) && i < |r| && n in r[i].accepted && m !in r[i].accepted
    requires j < |r| && r[j].consumer == Delivering(n) && k < |r| && r[k].consumer == Delivering(m)
    ensures j < k
  {
    hide IsRun;
    InHandIsAccepted(r, k);
    AcceptedHasId(r, i, n);
    if k < i {
      AcceptedInOrder(r, k, i, m);
    }
    AcceptedInOrder(r, i, k, m);
    if k <= j {
      DeliveredIdsRise(r, k, j);
    }
  }

  lemma QuietAction(s: State, a: Action)
    requires Enabled(s, a) && !s.snapshotActive && s.consumer != Holding(StartData)
    ensures !Apply(s, a).snapshotActive && Apply(s, a).epoch == s.epoch
  {
    hide Kept, Matched, FlushOutcomes, DeliveryOutcome, CountSnapshot;
    match a
    case Deliver(enabled, dataCb, _) => assert !CountsSnapshot(s, s.consumer.n, enabled, dataCb);
    case _ =>
  }

  lemma QuietStep(s: State, t: State)
    requires Step(s, t) && !s.snapshotActive && s.consumer != Holding(StartData)
    ensures !t.snapshotActive && t.epoch == s.epoch
  {
    hide Apply;
    var a :| Enabled(s, a) && t == Apply(s, a);
    QuietAction(s, a);
  }

  /** From a STOP until the next START is processed, nothing counts and SNAPSHOT_DONE is not raised. */
  lemma {:induction false} QuietAfterStop(r: seq<State>, i: nat, j: nat)
    requires IsRun(r) && i <= j < |r| && !r[i].snapshotActive
    requires forall k :: i <= k < j ==> r[k].consumer != Holding(StartData)
    ensures !r[j].snapshotActive && r[j].epoch == r[i].epoch
    decreases j - i
  {
    if i < j {
      QuietAfterStop(r, i, j - 1);
      assert Linked(r, j - 1);
      QuietStep(r[j - 1], r[j]);
    }
  }

  /** A run written down step by step. */
  ghost predicate Recorded(r: seq<State>) {
    |r| > 0 && if |r| == 1 then r[0] == Initial() else Recorded(r[..|r| - 1]) && Step(r[|r| - 2], r[|r| - 1])
  }

  lemma RunSnoc(r: seq<State>, t: State)
    requires IsRun(r) && Step(r[|r| - 1], t)
    ensures IsRun(r + [t])
  {
    hide Step, Initial;
    forall i: nat | i + 1 < |r + [t]|
      ensures Linked(r + [t], i)
    {
      assert i + 1 < |r| ==> Linked(r, i);
    }
  }

  lemma {:induction false} RecordedIsRun(r: seq<State>)
    requires Recorded(r)
    ensures IsRun(r)
  {
    hide Step, Initial;
    if |r| > 1 {
      RecordedIsRun(r[..|r| - 1]);
      RunSnoc(r[..|r| - 1], r[|r| - 1]);
      assert r == r[..|r| - 1] + [r[|r| - 1]];
    }
  }

  lemma RecordedInv(r: seq<State>)
    requires Recorded(r)
    ensures Inv(r[|r| - 1])
  {
    RecordedIsRun(r);
    RunKeepsInv(r, |r| - 1);
  }

  lemma NextIsFresh(r: seq<State>, n: Notification)
    requires Recorded(r) && n.id == r[|r| - 1].nextId
    ensures n !in r[|r| - 1].accepted
  {
    RecordedInv(r);
  }

  lemma RecordStep(r: seq<State>, a: Action)
    requires Recorded(r) && Enabled(r[|r| - 1], a)
    ensures Recorded(r + [Apply(r[|r| - 1], a)])
  {
    var t := r + [Apply(r[|r| - 1], a)];
    assert Step(r[|r| - 1], t[|t| - 1]);
    hide Apply, Enabled, Step;
    assert t[..|t| - 1] == r;
  }

  // ---------- runs that reach these states ----------

  /** Nothing is under way, and snapshots are taken one at a time. */
  predicate Idle(s: State) {
    && s.active && s.open && s.dataQ == [] && s.commands == [] && s.checked == 0 && s.sending == 0
    && s.consumer.Waiting? && s.snapshotActive && s.expected == 1 && !s.longshot
    && s.epoch.expected == 1 && !s.epoch.longshot
  }

  lemma RecordAction(r: seq<State>, a: Action, t: State) returns (q: seq<State>)
    requires Recorded(r) && Enabled(r[|r| - 1], a) && t == Apply(r[|r| - 1], a)
    ensures Recorded(q) && q[|q| - 1] == t
  {
    hide Recorded, Apply, Enabled;
    RecordStep(r, a);
    q := r + [t];
  }

  /** START is sent and processed before anything else. */
  lemma RunToIdle() returns (r: seq<State>)
    ensures Recorded(r) && Idle(r[|r| - 1]) && r[|r| - 1].epoch.delivered == 0
  {
    var s := Initial();
    var t := s.(commands := [StartData]);
    var u := s.(consumer := Holding(StartData));
    assert t.commands == [StartData] && t.commands[1..] == [];
    r := [s];
    r := RecordAction(r, SendStart, t);
    r := RecordAction(r, Take, u);
    r := RecordAction(r, Start(1, false), BeginSnapshots(u, 1, false));
  }

  /** A snapshot is queued. */
  lemma SnapshotQueued(r: seq<State>) returns (q: seq<State>, n: Notification)
    requires Recorded(r) && Idle(r[|r| - 1])
    ensures n.kind.DataSnapshot? && n.hasRelease
    ensures var s := r[|r| - 1];
            Recorded(q) && q[|q| - 1] == s.(accepted := s.accepted + multiset{n}, nextId := s.nextId + 1,
                                            dataQ := [n], sending := 1)
  {
    var s := r[|r| - 1];
    n := Notification(s.nextId, DataSnapshot, OtherMessage(0), true);
    hide Recorded, FlushNodes, DeliverTo, BeginSnapshots, EndSnapshots, QuitThread;
    q := RecordAction(r, Check, s.(checked := 1));
    q := RecordAction(q, Enqueue(DataSnapshot, OtherMessage(0), true),
                      s.(accepted := s.accepted + multiset{n}, nextId := s.nextId + 1, dataQ := [n], sending := 1));
  }

  /** A snapshot is queued, its wake-up sent and taken, and the thread has it in hand. */
  lemma SnapshotInHand(r: seq<State>) returns (q: seq<State>, n: Notification)
    requires Recorded(r) && Idle(r[|r| - 1])
    ensures n.kind.DataSnapshot? && n.hasRelease
    ensures var s := r[|r| - 1];
            Recorded(q) && q[|q| - 1] == s.(consumer := Delivering(n), accepted := s.accepted + multiset{n},
                                            nextId := s.nextId + 1)
  {
    var s := r[|r| - 1];
    q, n := SnapshotQueued(r);
    var t := q[|q| - 1];
    hide Recorded, FlushNodes, EnqueueNode, DeliverTo, BeginSnapshots, EndSnapshots, QuitThread;
    q := RecordAction(q, Send, t.(sending := 0, commands := [DoNextJob]));
    q := RecordAction(q, Take, t.(sending := 0, consumer := Holding(DoNextJob)));
    q := RecordAction(q, Dequeue, t.(sending := 0, dataQ := [], consumer := Delivering(n)));
  }

  lemma DeliverCounts(s: State, n: Notification, t: State)
    requires Idle(s)
    requires n.kind.DataSnapshot?
    requires t == s.(consumer := Delivering(n), accepted := s.accepted + multiset{n}, nextId := s.nextId + 1)
    ensures var u := Apply(t, Deliver(true, true, false));
            Idle(u) && u.epoch.delivered == s.epoch.delivered + 1
  {
  }

  lemma {:induction false} RunWithSnapshots(delivered: nat) returns (r: seq<State>)
    ensures Recorded(r) && Idle(r[|r| - 1]) && r[|r| - 1].epoch.delivered == delivered
  {
    if delivered == 0 {
      r := RunToIdle();
    } else {
      r := RunWithSnapshots(delivered - 1);
      r := OneMoreSnapshot(r);
    }
  }

  lemma OneMoreSnapshot(r: seq<State>) returns (q: seq<State>)
    requires Recorded(r) && Idle(r[|r| - 1])
    ensures Recorded(q) && Idle(q[|q| - 1]) && q[|q| - 1].epoch.delivered == r[|r| - 1].epoch.delivered + 1
  {
    var n;
    q, n := SnapshotInHand(r);
    var t := q[|q| - 1];
    DeliverCounts(r[|r| - 1], n, t);
    hide Recorded, Idle, Apply;
    q := RecordAction(q, Deliver(true, true, false), Apply(t, Deliver(true, true, false)));
  }

  /** Such a run exists: after 2^32 + 1 snapshots SNAPSHOT_DONE was raised again for one START. */
  lemma SnapshotDoneAgain() returns (r: seq<State>)
    ensures IsRun(r) && r[|r| - 1].epoch.done > 1
  {
    r := RunWithSnapshots(WRAP + 1);
    RecordedIsRun(r);
    SnapshotDoneOnce(r, |r| - 1);
  }

  /** Such a run exists: a snapshot with a release callback is dropped, as no data callback is set. */
  lemma SnapshotDropped() returns (r: seq<State>, n: Notification)
    ensures IsRun(r) && n in r[|r| - 1].accepted && n.hasRelease
    ensures n in r[|r| - 1].outcome && r[|r| - 1].outcome[n].Dropped?
  {
    r := RunToIdle();
    r, n := SnapshotInHand(r);
    var t := r[|r| - 1];
    DroppedIff(t, true, false, false);
    r := RecordAction(r, Deliver(true, false, false), Apply(t, Deliver(true, false, false)));
    RecordedIsRun(r);
  }

  /** QCameraCbNotifier with its data queue and command queue.  Each method is one atomic region
      of the code and takes the step of the machine above that its contract names. */
  class QCameraCbNotifier {
    var mActive: bool
    var queueActive: bool
    var mDataQ: seq<Notification>
    var commands: seq<Command>
    var isSnapshotActive: bool
    var longShotEnabled: bool
    var numOfSnapshotExpected: nat
    var numOfSnapshotRcvd: nat
    var nextId: nat
    var checked: nat             // producers past the first test of notifyCallback
    var sending: nat             // producers between enqueue and sendCmd
    var consumer: Consumer       // where the notifier thread is
    ghost var accepted: multiset<Notification>
    ghost var settled: multiset<Notification>
    ghost var outcome: map<Notification, Outcome>
    ghost var epoch: Epoch
    ghost var trace: seq<State>
    ghost var mine: multiset<Notification>   // accepted for the producer whose calls are followed below
    var mineChecked: nat         // how often that producer is past its first test and has not enqueued yet
    var mineSending: nat         // how many wake-ups it still owes for what it enqueued

    /** All that ever happened to the object is a run of the machine. */
    ghost predicate Valid()
      reads this
    {
      OnRun() && OwnCounted()
    }

    ghost predicate OnRun()
      reads this`mActive, this`queueActive, this`mDataQ, this`commands, this`checked, this`sending, this`consumer,
            this`isSnapshotActive, this`longShotEnabled, this`numOfSnapshotExpected, this`numOfSnapshotRcvd, this`nextId,
            this`accepted, this`settled, this`outcome, this`epoch, this`trace
    {
      Recorded(trace) && trace[|trace| - 1] == View()
    }

    /** The followed producer is one of those between their regions. */
    predicate OwnCounted()
      reads this`checked, this`sending, this`mineChecked, this`mineSending
    {
      mineChecked <= checked && mineSending <= sending
    }

    /** No region of the followed producer ran meanwhile. */
    twostate predicate NotOwn()
      reads this
    {
      mine == old(mine) && mineChecked == old(mineChecked) && mineSending == old(mineSending)
    }

    /** The run has gone on since it was as given, and nothing accepted was forgotten. */
    ghost predicate Later(accepted0: multiset<Notification>, trace0: seq<State>)
      reads this
    {
      trace0 <= trace && forall n :: n in accepted0 ==> n in accepted
    }

    /** A region has just taken this step. */
    ghost method Record(a: Action)
      requires Recorded(trace) && Enabled(trace[|trace| - 1], a) && View() == Apply(trace[|trace| - 1], a)
      requires OwnCounted()
      modifies this`trace
      ensures Valid() && trace == old(trace) + [View()]
    {
      hide Recorded, Apply, Enabled;
      RecordStep(trace, a);
      trace := trace + [View()];
    }

    ghost function View(): State
      reads this`mActive, this`queueActive, this`mDataQ, this`commands, this`checked, this`sending, this`consumer,
            this`isSnapshotActive, this`longShotEnabled, this`numOfSnapshotExpected, this`numOfSnapshotRcvd, this`nextId,
            this`accepted, this`settled, this`outcome, this`epoch
    {
      State(mActive, queueActive, mDataQ, commands, checked, sending, consumer, isSnapshotActive,
            longShotEnabled, numOfSnapshotExpected, numOfSnapshotRcvd, nextId,
            accepted, settled, outcome, epoch)
    }

    /** setCallbacks: the notifier becomes active and its thread waits for commands. */
    constructor ()
      ensures View() == Initial() && Valid() && trace == [View()] && mine == multiset{}
      ensures mActive && queueActive && mDataQ == [] && commands == [] && consumer.Waiting? && !isSnapshotActive
      ensures checked == sending == mineChecked == mineSending == nextId == 0
    {
      mActive, queueActive, mDataQ, commands := true, true, [], [];
      isSnapshotActive, longShotEnabled, numOfSnapshotExpected, numOfSnapshotRcvd := false, false, 0, 0;
      nextId, checked, sending, consumer := 0, 0, 0, Waiting;
      accepted, settled, outcome := multiset{}, multiset{}, map[];
      epoch := Epoch(0, false, 0, 0);
      trace, mine, mineChecked, mineSending := [Initial()], multiset{}, 0, 0;
    }

    /** The first test of notifyCallback. */
    method NotifyCheck() returns (proceed: bool)
      modifies this`checked
      ensures proceed == mActive
      ensures View() == if proceed then old(View()).(checked := old(checked) + 1) else old(View())
      ensures checked == if mActive then old(checked) + 1 else old(checked)
    {
      proceed := mActive;
      if proceed {
        checked := checked + 1;
      }
    }

    /** QCameraQueue::enqueue: an inactive queue refuses the node. */
    method QueueEnqueue(n: Notification) returns (rc: bool)
      modifies this`mDataQ, this`accepted
      ensures rc == queueActive
      ensures mDataQ == if rc then old(mDataQ) + [n] else old(mDataQ)
      ensures accepted == if rc then old(accepted) + multiset{n} else old(accepted)
    {
      rc := queueActive;
      if rc {
        mDataQ, accepted := mDataQ + [n], accepted + multiset{n};
      }
    }

    /** The enqueue of notifyCallback; false when the queue was flushed for good meanwhile. */
    method EnqueueNotification(kind: Kind, msg: Message, hasRelease: bool) returns (taken: bool)
      requires checked > 0
      modifies this`checked, this`mDataQ, this`nextId, this`sending, this`accepted
      ensures taken == queueActive
      ensures View() == EnqueueNode(old(View()), Notification(old(nextId), kind, msg, hasRelease))
      ensures checked == old(checked) - 1 && sending == (if taken then old(sending) + 1 else old(sending))
      ensures mDataQ == if taken then old(mDataQ) + [Notification(old(nextId), kind, msg, hasRelease)] else old(mDataQ)
    {
      var n := Notification(nextId, kind, msg, hasRelease);
      taken := QueueEnqueue(n);
      checked := checked - 1;
      if taken {
        nextId, sending := nextId + 1, sending + 1;
      }
    }

    /** sendCmd: ordinary commands go to the tail, priority commands to the head. */
    method SendCmd(cmd: Command, priority: bool)
      modifies this`commands
      ensures commands == if priority then [cmd] + old(commands) else old(commands) + [cmd]
    {
      if priority {
        commands := [cmd] + commands;
      } else {
        commands := commands + [cmd];
      }
    }

    method SendNextJob()
      requires sending > 0
      modifies this`commands, this`sending
      ensures View() == Apply(old(View()), Send)
      ensures commands == old(commands) + [DoNextJob] && sending == old(sending) - 1
    {
      SendCmd(DoNextJob, false);
      sending := sending - 1;
    }

    method StartSnapshots()
      modifies this`commands
      ensures View() == Apply(old(View()), SendStart) && commands == [StartData] + old(commands)
    {
      SendCmd(StartData, true);
    }

    method StopSnapshots()
      modifies this`commands
      ensures View() == Apply(old(View()), SendStop) && commands == [StopData] + old(commands)
    {
      SendCmd(StopData, true);
    }

    /** Walk the queue from its head, unlink the nodes that match and release each of them. */
    method FlushMatching(filter: Filter)
      modifies this`mDataQ, this`settled, this`outcome
      ensures View() == FlushNodes(old(View()), filter)
    {
      if queueActive {
        var released := UnlinkMatching(filter);
        settled := settled + multiset(released);
        outcome := outcome + FlushOutcomes(released);
      }
    }

    /** The loop of flushNodes: unlink in place, and call the release function on each match. */
    method UnlinkMatching(filter: Filter) returns (released: seq<Notification>)
      modifies this`mDataQ
      ensures mDataQ == Kept(old(mDataQ), filter) && released == Matched(old(mDataQ), filter)
    {
      hide Kept, Matched, Matches;
      ghost var q, pos := mDataQ, 0;
      ghost var front := [];
      var i := 0;
      released := [];
      FlushNothing(q[..0], filter);
      assert q[0..] == q;
      while i < |mDataQ|
        invariant pos <= |q| && i == |front| && mDataQ == front + q[pos..]
        invariant front == Kept(q[..pos], filter) && released == Matched(q[..pos], filter)
        decreases |q| - pos
      {
        FlushTurn(mDataQ, front, q, pos, filter);
        var node := mDataQ[i];
        if Matches(filter, node) {
          mDataQ := mDataQ[..i] + mDataQ[i + 1..];
          released := released + [node];
        } else {
          i := i + 1;
          front := front + [node];
        }
        pos := pos + 1;
      }
      assert q[..pos] == q && q[pos..] == [];
    }

    /** flushPreviewNotifications */
    method FlushPreviewNotifications() returns (done: bool)
      modifies this`mDataQ, this`settled, this`outcome
      ensures done == mActive
      ensures View() == if done then FlushNodes(old(View()), PreviewOnly) else old(View())
      ensures !mActive || !queueActive ==> mDataQ == old(mDataQ) && settled == old(settled) && outcome == old(outcome)
      ensures mActive && queueActive ==>
                forall n :: n in mDataQ <==> n in old(mDataQ) && !(n.kind == Data && n.msg == PreviewFrame)
      ensures mActive && queueActive ==>
                forall n :: n in old(mDataQ) && n.kind == Data && n.msg == PreviewFrame ==>
                  && settled[n] == old(settled)[n] + multiset(old(mDataQ))[n] && n in outcome
                  && outcome[n] == if n.hasRelease then Released(FailedTransaction) else NothingToRelease
    {
      done := mActive;
      if done {
        FlushReleases(View(), PreviewOnly);
        FlushMatching(PreviewOnly);
      }
    }

    /** flushVideoNotifications */
    method FlushVideoNotifications() returns (done: bool)
      modifies this`mDataQ, this`settled, this`outcome
      ensures done == mActive
      ensures View() == if done then FlushNodes(old(View()), VideoOnly) else old(View())
      ensures !mActive || !queueActive ==> mDataQ == old(mDataQ) && settled == old(settled) && outcome == old(outcome)
      ensures mActive && queueActive ==>
                forall n :: n in mDataQ <==> n in old(mDataQ) && !(n.kind == DataTimestamp && n.msg == VideoFrame)
      ensures mActive && queueActive ==>
                forall n :: n in old(mDataQ) && n.kind == DataTimestamp && n.msg == VideoFrame ==>
                  && settled[n] == old(settled)[n] + multiset(old(mDataQ))[n] && n in outcome
                  && outcome[n] == if n.hasRelease then Released(FailedTransaction) else NothingToRelease
    {
      done := mActive;
      if done {
        FlushReleases(View(), VideoOnly);
        FlushMatching(VideoOnly);
      }
    }

    // ----- cbNotifyRoutine -----

    method GetCmd() returns (cmd: Command)
      requires consumer.Waiting? && commands != []
      modifies this`commands, this`consumer
      ensures View() == Apply(old(View()), Take) && cmd == old(commands)[0] && consumer == Holding(cmd)
      ensures commands == old(commands)[1..]
    {
      cmd := commands[0];
      commands := commands[1..];
      consumer := Holding(cmd);
    }

    method ProcessStart(snapshots: nat, longshot: bool)
      requires consumer == Holding(StartData) && snapshots < 256
      modifies this`isSnapshotActive, this`numOfSnapshotExpected, this`longShotEnabled,
               this`numOfSnapshotRcvd, this`consumer, this`epoch
      ensures View() == BeginSnapshots(old(View()), snapshots, longshot)
      ensures isSnapshotActive && numOfSnapshotExpected == snapshots && longShotEnabled == longshot
      ensures numOfSnapshotRcvd == 0 && consumer.Waiting? && epoch == Epoch(snapshots, longshot, 0, 0)
    {
      ghost var after := BeginSnapshots(View(), snapshots, longshot);
      isSnapshotActive, numOfSnapshotExpected := true, snapshots;
      longShotEnabled, numOfSnapshotRcvd := longshot, 0;
      consumer, epoch := Waiting, Epoch(snapshots, longshot, 0, 0);
      assert View() == after;
    }

    /** STOP_DATA_PROC, first part: the snapshots leave the data queue. */
    method FlushSnapshots()
      modifies this`mDataQ, this`settled, this`outcome
      ensures View() == FlushNodes(old(View()), SnapshotOnly)
      ensures queueActive ==> forall n :: n in mDataQ <==> n in old(mDataQ) && n.kind != DataSnapshot
      ensures queueActive ==>
                forall n :: n in old(mDataQ) && n.kind == DataSnapshot ==>
                  && settled[n] == old(settled)[n] + multiset(old(mDataQ))[n] && n in outcome
                  && outcome[n] == if n.hasRelease then Released(FailedTransaction) else NothingToRelease
    {
      FlushReleases(View(), SnapshotOnly);
      FlushMatching(SnapshotOnly);
    }

    method ProcessStop()
      requires consumer == Holding(StopData)
      modifies this`mDataQ, this`settled, this`outcome, this`isSnapshotActive, this`numOfSnapshotExpected, this`numOfSnapshotRcvd, this`consumer
      ensures View() == EndSnapshots(old(View()))
      ensures !isSnapshotActive && numOfSnapshotExpected == 0 && numOfSnapshotRcvd == 0 && consumer.Waiting?
      ensures queueActive ==> forall n :: n in mDataQ <==> n in old(mDataQ) && n.kind != DataSnapshot
      ensures queueActive ==>
                forall n :: n in old(mDataQ) && n.kind == DataSnapshot ==>
                  && settled[n] == old(settled)[n] + multiset(old(mDataQ))[n] && n in outcome
                  && outcome[n] == if n.hasRelease then Released(FailedTransaction) else NothingToRelease
    {
      hide FlushNodes;
      FlushSnapshots();
      isSnapshotActive := false;
      numOfSnapshotExpected := 0;
      numOfSnapshotRcvd := 0;
      consumer := Waiting;
    }

    method ProcessExit()
      requires consumer == Holding(Exit)
      modifies this`mDataQ, this`settled, this`outcome, this`queueActive, this`consumer
      ensures View() == QuitThread(old(View()))
      ensures consumer.Stopped? && !queueActive && (old(queueActive) ==> mDataQ == [])
      ensures old(queueActive) ==>
                && settled == old(settled) + multiset(old(mDataQ))
                && forall n :: n in old(mDataQ) ==>
                     && n in outcome
                     && outcome[n] == if n.hasRelease then Released(FailedTransaction) else NothingToRelease
    {
      FlushReleases(View(), Everything);
      FlushEverything(mDataQ);
      FlushMatching(Everything);
      queueActive := false;
      consumer := Stopped;
    }

    method DequeueNotification() returns (found: bool)
      requires consumer == Holding(DoNextJob)
      modifies this`mDataQ, this`consumer
      ensures View() == DequeueNode(old(View())) && found == (queueActive && old(mDataQ) != [])
      ensures consumer == if found then Delivering(old(mDataQ)[0]) else Waiting
      ensures mDataQ == if found then old(mDataQ)[1..] else old(mDataQ)
    {
      found := queueActive && mDataQ != [];
      if found {
        consumer := Delivering(mDataQ[0]);
        mDataQ := mDataQ[1..];
      } else {
        consumer := Waiting;
      }
    }

    /** Count a snapshot delivered in snapshot mode.  `raised` tells whether SNAPSHOT_DONE went
        to the HWI. */
    method CountDelivered() returns (raised: bool)
      modifies this`epoch, this`numOfSnapshotRcvd
      ensures View() == CountSnapshot(old(View()))
      ensures epoch.done == (if raised then old(epoch).done + 1 else old(epoch).done) && epoch.delivered == old(epoch).delivered + 1
      ensures old(numOfSnapshotRcvd) < 0x1_0000_0000 ==>
                numOfSnapshotRcvd == if longShotEnabled then old(numOfSnapshotRcvd) else (old(numOfSnapshotRcvd) + 1) % 0x1_0000_0000
      ensures raised <==> !longShotEnabled && 0 < numOfSnapshotExpected == numOfSnapshotRcvd
    {
      raised := false;
      epoch := epoch.(delivered := epoch.delivered + 1);
      if !longShotEnabled {
        numOfSnapshotRcvd := NextCount(numOfSnapshotRcvd);
        if numOfSnapshotExpected > 0 && numOfSnapshotExpected == numOfSnapshotRcvd {
          raised := true;
          epoch := epoch.(done := epoch.done + 1);
        }
      }
    }

    /** The nested switch of DO_NEXT_JOB: which callback takes the notification and what happens
        to its release callback. */
    method CallUpperLayer(cb: Notification, enabled: bool, dataCb: bool, jpegCb: bool) returns (ghost o: Outcome)
      modifies this`epoch, this`numOfSnapshotRcvd
      ensures o == DeliveryOutcome(old(View()), cb, enabled, dataCb, jpegCb)
      ensures View() == if CountsSnapshot(old(View()), cb, enabled, dataCb) then CountSnapshot(old(View())) else old(View())
      ensures !enabled ==> o == if cb.hasRelease then Released(InvalidOperation) else NothingToRelease
      ensures enabled && cb.kind == UnknownKind ==> o == if cb.hasRelease then Released(BadValue) else NothingToRelease
      ensures enabled && (cb.kind == Notify || cb.kind == Data || cb.kind == DataTimestamp) ==>
                o == if cb.hasRelease then Released(NoError) else NothingToRelease
      ensures enabled && cb.kind == DataSnapshot ==>
                o ==
                if !isSnapshotActive || !dataCb then Dropped
                else if jpegCb then HandedToJpeg
                else if cb.hasRelease then Released(NoError)
                else NothingToRelease
      ensures epoch.delivered ==
              if enabled && cb.kind == DataSnapshot && isSnapshotActive && dataCb then old(epoch).delivered + 1
              else old(epoch).delivered
    {
      if !enabled {
        return ReleaseOutcome(cb, InvalidOperation);
      }
      match cb.kind {
        case UnknownKind => o := ReleaseOutcome(cb, BadValue);
        case DataSnapshot =>
          if isSnapshotActive && dataCb {
            var _ := CountDelivered();
            o := if jpegCb then HandedToJpeg else ReleaseOutcome(cb, NoError);
          } else {
            o := Dropped;
          }
        case _ => o := ReleaseOutcome(cb, NoError);
      }
    }

    /** The body of DO_NEXT_JOB once a notification is in hand. */
    method DeliverNotification(cb: Notification, enabled: bool, dataCb: bool, jpegCb: bool) returns (ghost o: Outcome)
      requires consumer == Delivering(cb)
      modifies this`settled, this`outcome, this`epoch, this`numOfSnapshotRcvd, this`consumer
      ensures View() == DeliverTo(old(View()), cb, enabled, dataCb, jpegCb).(consumer := Waiting)
      ensures settled == old(settled) + multiset{cb} && outcome == old(outcome)[cb := o]
      ensures !enabled ==> o == if cb.hasRelease then Released(InvalidOperation) else NothingToRelease
      ensures enabled && cb.kind == UnknownKind ==>
                o == if cb.hasRelease then Released(BadValue) else NothingToRelease
      ensures enabled && (cb.kind == Notify || cb.kind == Data || cb.kind == DataTimestamp) ==>
                o == if cb.hasRelease then Released(NoError) else NothingToRelease
      ensures enabled && cb.kind == DataSnapshot ==>
                o ==
                if !isSnapshotActive || !dataCb then Dropped
                else if jpegCb then HandedToJpeg
                else if cb.hasRelease then Released(NoError)
                else NothingToRelease
      ensures epoch.delivered ==
              if enabled && cb.kind == DataSnapshot && isSnapshotActive && dataCb then old(epoch).delivered + 1
              else old(epoch).delivered
    {
      hide DeliveryOutcome, CountSnapshot, CountsSnapshot;
      ghost var before := View();
      o := CallUpperLayer(cb, enabled, dataCb, jpegCb);
      ghost var called := View();
      assert DeliverTo(before, cb, enabled, dataCb, jpegCb) == Settle(called, cb, o);
      hide DeliverTo, Settle;
      DeleteInHand(cb, o);
    }

    /** The end of DO_NEXT_JOB: what became of the notification is on record, and the thread waits. */
    method DeleteInHand(cb: Notification, ghost o: Outcome)
      modifies this`settled, this`outcome, this`consumer
      ensures View() == Settle(old(View()), cb, o).(consumer := Waiting)
      ensures settled == old(settled) + multiset{cb} && outcome == old(outcome)[cb := o]
    {
      settled, outcome := settled + multiset{cb}, outcome[cb := o];
      consumer := Waiting;
    }

    // ----- the threads, with everybody else moving between their regions -----

    /** exit, first part */
    method Deactivate()
      modifies this`mActive
      ensures View() == Apply(old(View()), Action.Deactivate) && !mActive
    {
      mActive := false;
    }

    /** exit, second part: the thread is told to end, ahead of all other commands. */
    method SendExit()
      requires !mActive
      modifies this`commands
      ensures View() == Apply(old(View()), Action.SendExit) && commands == [Exit] + old(commands)
    {
      SendCmd(Exit, true);
    }

    /** The first test of notifyCallback, recorded. */
    method PassCheck() returns (proceed: bool)
      requires Valid()
      modifies this`checked, this`trace
      ensures Valid() && checked == (if proceed then old(checked) + 1 else old(checked)) && proceed == mActive
      ensures trace == if proceed then old(trace) + [View()] else old(trace)
    {
      hide Recorded, FlushNodes, EnqueueNode, DeliverTo, BeginSnapshots, EndSnapshots, QuitThread, DequeueNode;
      proceed := NotifyCheck();
      if proceed {
        Record(Check);
      }
    }

    /** The same for the producer whose calls are followed. */
    method PassCheckOwn() returns (proceed: bool)
      requires Valid()
      modifies this`checked, this`mineChecked, this`trace
      ensures Valid() && proceed == mActive && checked == if proceed then old(checked) + 1 else old(checked)
      ensures mineChecked == if proceed then old(mineChecked) + 1 else old(mineChecked)
      ensures trace == if proceed then old(trace) + [View()] else old(trace)
    {
      hide OnRun, View;
      proceed := PassCheck();
      if proceed {
        mineChecked := mineChecked + 1;
      }
    }

    /** The enqueue of notifyCallback, recorded: a notification accepted was never accepted before,
        and nothing else is accepted with it. */
    method Accept(kind: Kind, msg: Message, hasRelease: bool) returns (taken: bool, id: nat)
      requires Valid() && checked > mineChecked
      modifies this`checked, this`mDataQ, this`nextId, this`sending, this`accepted, this`trace
      ensures Valid() && old(trace) <= trace && checked == old(checked) - 1 && taken == queueActive
      ensures mDataQ == if taken then old(mDataQ) + [Notification(id, kind, msg, hasRelease)] else old(mDataQ)
      ensures sending == if taken then old(sending) + 1 else old(sending)
      ensures var n := Notification(id, kind, msg, hasRelease);
              && (taken ==> n !in old(accepted))
              && accepted == (if taken then old(accepted) + multiset{n} else old(accepted))
    {
      hide Recorded, FlushNodes, DeliverTo, BeginSnapshots, EndSnapshots, QuitThread, DequeueNode;
      id := nextId;
      NextIsFresh(trace, Notification(id, kind, msg, hasRelease));
      taken := EnqueueNotification(kind, msg, hasRelease);
      Record(Enqueue(kind, msg, hasRelease));
    }

    /** The same for the producer whose calls are followed. */
    method AcceptOwn(kind: Kind, msg: Message, hasRelease: bool) returns (taken: bool, id: nat)
      requires Valid() && mineChecked > 0
      modifies this`checked, this`mDataQ, this`nextId, this`sending, this`accepted, this`trace, this`mine,
               this`mineChecked, this`mineSending
      ensures Valid() && Later(old(accepted), old(trace)) && taken == queueActive
      ensures mineChecked == old(mineChecked) - 1
      ensures mineSending == if taken then old(mineSending) + 1 else old(mineSending)
      ensures var n := Notification(id, kind, msg, hasRelease);
              && (taken ==> n in accepted && n !in old(accepted))
              && mine == (if taken then old(mine) + multiset{n} else old(mine))
    {
      hide OnRun, View;
      mineChecked := mineChecked - 1;
      taken, id := Accept(kind, msg, hasRelease);
      if taken {
        mineSending := mineSending + 1;
        mine := mine + multiset{Notification(id, kind, msg, hasRelease)};
      }
    }

    /** The sendCmd of notifyCallback, recorded. */
    method Wake()
      requires Valid() && sending > mineSending
      modifies this`commands, this`sending, this`trace
      ensures Valid() && trace == old(trace) + [View()] && sending == old(sending) - 1
      ensures commands == old(commands) + [DoNextJob]
    {
      hide Recorded, FlushNodes, EnqueueNode, DeliverTo, BeginSnapshots, EndSnapshots, QuitThread, DequeueNode;
      SendNextJob();
      Record(Send);
    }

    /** The same for the producer whose calls are followed: it owes one wake-up less. */
    method WakeOwn()
      requires Valid() && mineSending > 0
      modifies this`commands, this`sending, this`mineSending, this`trace
      ensures Valid() && trace == old(trace) + [View()] && mineSending == old(mineSending) - 1
      ensures commands == old(commands) + [DoNextJob]
    {
      hide OnRun, View;
      mineSending := mineSending - 1;
      Wake();
    }

    /** A step of another producer. */
    method ProducerMoves(choice: int)
      requires Valid()
      modifies this
      ensures Valid() && Later(old(accepted), old(trace)) && NotOwn() && consumer == old(consumer)
      ensures isSnapshotActive == old(isSnapshotActive)
    {
      hide Recorded;
      if choice == 0 {
        var _ := PassCheck();
      } else if choice == 1 && checked > mineChecked {
        var kind: Kind, msg: Message, hasRelease: bool := *, *, *;
        var _, _ := Accept(kind, msg, hasRelease);
      } else if sending > mineSending {
        Wake();
      }
    }

    method FlushMoves(preview: bool)
      requires Valid()
      modifies this`mDataQ, this`settled, this`outcome, this`trace
      ensures Valid() && old(trace) <= trace
    {
      hide Recorded, FlushNodes, EnqueueNode, DeliverTo, BeginSnapshots, EndSnapshots, QuitThread, DequeueNode;
      var done;
      if preview {
        done := FlushPreviewNotifications();
      } else {
        done := FlushVideoNotifications();
      }
      if done {
        Record(Flush(if preview then PreviewOnly else VideoOnly));
      }
    }

    /** A start, stop or end of the notifier. */
    method CommandMoves(choice: int)
      requires Valid()
      modifies this`commands, this`mActive, this`trace
      ensures Valid() && old(trace) <= trace
    {
      hide Recorded, FlushNodes, EnqueueNode, DeliverTo, BeginSnapshots, EndSnapshots, QuitThread, DequeueNode;
      if choice == 0 {
        StartSnapshots();
        Record(SendStart);
      } else if choice == 1 {
        StopSnapshots();
        Record(SendStop);
      } else if mActive {
        Deactivate();
        Record(Action.Deactivate);
      } else {
        SendExit();
        Record(Action.SendExit);
      }
    }

    /** Whatever all threads but the notifier thread and the followed producer do. */
    method OthersMove()
      requires Valid()
      modifies this
      ensures Valid() && Later(old(accepted), old(trace)) && NotOwn() && consumer == old(consumer)
      ensures isSnapshotActive == old(isSnapshotActive)
    {
      hide Recorded;
      var steps: nat := *;
      while steps > 0
        invariant Valid() && Later(old(accepted), old(trace)) && NotOwn() && consumer == old(consumer)
        invariant isSnapshotActive == old(isSnapshotActive)
      {
        var kind: int, choice: int := *, *;
        if kind == 0 {
          FlushMoves(choice == 0);
        } else if kind == 1 {
          CommandMoves(choice);
        } else {
          ProducerMoves(choice);
        }
        steps := steps - 1;
      }
    }

    method OnStart()
      requires Valid() && consumer == Holding(StartData)
      modifies this
      ensures Valid() && Later(old(accepted), old(trace)) && NotOwn() && consumer.Waiting? && isSnapshotActive
    {
      hide Recorded, FlushNodes, EnqueueNode, DeliverTo, EndSnapshots, QuitThread, DequeueNode;
      var numOfSnapshots: nat, longshot: bool := *, *;
      if numOfSnapshots >= 256 {
        numOfSnapshots := 0;
      }
      ProcessStart(numOfSnapshots, longshot);
      Record(Start(numOfSnapshots, longshot));
    }

    method OnStop()
      requires Valid() && consumer == Holding(StopData)
      modifies this
      ensures Valid() && Later(old(accepted), old(trace)) && NotOwn() && consumer.Waiting? && !isSnapshotActive
    {
      hide Recorded, FlushNodes, EnqueueNode, DeliverTo, BeginSnapshots, QuitThread, DequeueNode;
      ProcessStop();
      Record(Stop);
    }

    method OnNextJob()
      requires Valid() && consumer == Holding(DoNextJob)
      modifies this
      ensures Valid() && Later(old(accepted), old(trace)) && NotOwn()
      ensures consumer == if queueActive && old(mDataQ) != [] then Delivering(old(mDataQ)[0]) else Waiting
    {
      hide Recorded, FlushNodes, EnqueueNode, DeliverTo, BeginSnapshots, EndSnapshots, QuitThread;
      var _ := DequeueNotification();
      Record(Dequeue);
    }

    method OnExit()
      requires Valid() && consumer == Holding(Exit)
      modifies this
      ensures Valid() && Later(old(accepted), old(trace)) && NotOwn() && consumer.Stopped? && !queueActive
    {
      hide Recorded, FlushNodes, EnqueueNode, DeliverTo, BeginSnapshots, EndSnapshots, DequeueNode;
      ProcessExit();
      Record(Quit);
    }

    /** The switch of cbNotifyRoutine on a command in hand; true while the thread goes on.  A
        notification taken from the queue is left in hand. */
    method ProcessCommand(cmd: Command) returns (running: bool)
      requires Valid() && consumer == Holding(cmd)
      modifies this
      ensures Valid() && Later(old(accepted), old(trace)) && NotOwn() && running == !cmd.Exit?
      ensures match cmd
              case DoNextJob =>
                consumer == if queueActive && old(mDataQ) != [] then Delivering(old(mDataQ)[0]) else Waiting
              case Exit => consumer.Stopped? && !queueActive
              case StartData => consumer.Waiting? && isSnapshotActive
              case StopData => consumer.Waiting? && !isSnapshotActive
    {
      running := true;
      match cmd {
        case StartData => OnStart();
        case StopData => OnStop();
        case DoNextJob => OnNextJob();
        case Exit =>
          OnExit();
          running := false;
      }
    }

    /** The body of DO_NEXT_JOB after the dequeue: the callbacks may be set or not. */
    method HandOver()
      requires Valid() && consumer.Delivering?
      modifies this
      ensures Valid() && Later(old(accepted), old(trace)) && NotOwn() && consumer.Waiting?
      ensures old(consumer).n in settled && isSnapshotActive == old(isSnapshotActive)
    {
      hide Recorded, DeliverTo;
      var enabled: bool, dataCb: bool, jpegCb: bool := *, *, *;
      ghost var _ := DeliverNotification(consumer.n, enabled, dataCb, jpegCb);
      Record(Deliver(enabled, dataCb, jpegCb));
    }

    method TakeCommand() returns (cmd: Command)
      requires Valid() && consumer.Waiting? && commands != []
      modifies this`commands, this`consumer, this`trace
      ensures Valid() && View() == Apply(old(View()), Take) && trace == old(trace) + [View()]
      ensures cmd == old(commands)[0] && consumer == Holding(cmd)
    {
      hide Recorded, Apply;
      cmd := GetCmd();
      Record(Take);
    }

    method FinishCommand(cmd: Command) returns (running: bool)
      requires Valid() && consumer == Holding(cmd)
      modifies this
      ensures Valid() && Later(old(accepted), old(trace)) && NotOwn() && running == !cmd.Exit?
      ensures if running then consumer.Waiting? else consumer.Stopped?
      ensures cmd.StartData? ==> isSnapshotActive
      ensures cmd.StopData? ==> !isSnapshotActive
    {
      hide Recorded;
      OthersMove();
      running := ProcessCommand(cmd);
      if consumer.Delivering? {
        OthersMove();
        HandOver();
      }
    }

    /** One turn of the loop of cbNotifyRoutine, with everybody else moving between its regions:
        the command at the head is processed, and the thread waits again or has ended. */
    method CbNotifyTurn() returns (running: bool)
      requires Valid() && consumer.Waiting? && commands != []
      modifies this
      ensures Valid() && Later(old(accepted), old(trace)) && NotOwn()
      ensures |trace| > |old(trace)| && trace[|old(trace)|] == Apply(old(View()), Take)
      ensures running == !old(commands)[0].Exit?
      ensures if running then consumer.Waiting? else consumer.Stopped?
      ensures old(commands)[0].StartData? ==> isSnapshotActive
      ensures old(commands)[0].StopData? ==> !isSnapshotActive
    {
      hide Recorded, Apply;
      var cmd := TakeCommand();
      running := FinishCommand(cmd);
    }

    /** A step of the notifier thread, if it has one to take. */
    method NotifierMoves()
      requires Valid()
      modifies this
      ensures Valid() && Later(old(accepted), old(trace)) && NotOwn()
    {
      hide Recorded, Apply;
      match consumer {
        case Waiting =>
          if commands != [] {
            var _ := TakeCommand();
          }
        case Holding(cmd) => var _ := ProcessCommand(cmd);
        case Delivering(_) => HandOver();
        case Stopped =>
      }
    }

    /** Whatever all other threads do while a producer is between its regions. */
    method EverybodyMoves()
      requires Valid()
      modifies this
      ensures Valid() && Later(old(accepted), old(trace)) && NotOwn()
    {
      hide Recorded;
      var steps: nat := *;
      while steps > 0
        invariant Valid() && Later(old(accepted), old(trace)) && NotOwn()
      {
        OthersMove();
        NotifierMoves();
        steps := steps - 1;
      }
    }

    /** The enqueue of notifyCallback and its wake-up, with everybody moving in between: the wake-up is
        the last thing the call does, and afterwards the producer owes none for it. */
    method EnqueueAndWake(kind: Kind, msg: Message, hasRelease: bool) returns (rc: bool, id: nat)
      requires Valid() && mineChecked > 0
      modifies this
      ensures Valid() && Later(old(accepted), old(trace)) && (!rc ==> !queueActive)
      ensures mineChecked == old(mineChecked) - 1 && mineSending == old(mineSending)
      ensures var n := Notification(id, kind, msg, hasRelease);
              && (rc ==> n in accepted && n !in old(accepted) && WokeFor(n, old(trace)))
              && mine == (if rc then old(mine) + multiset{n} else old(mine))
    {
      hide Recorded;
      rc, id := AcceptOwn(kind, msg, hasRelease);
      if rc {
        EverybodyMoves();
        WakeOwn();
      }
    }

    /** The run has gone on, and its last step sent a DO_NEXT_JOB command after n was accepted. */
    ghost predicate WokeFor(n: Notification, trace0: seq<State>)
      reads this
    {
      && 1 < |trace| && |trace0| < |trace| && n in trace[|trace| - 2].accepted
      && trace[|trace| - 1].commands == trace[|trace| - 2].commands + [DoNextJob]
    }

    /** notifyCallback, with everybody else moving between its regions: true means that exactly the
        notification with the identity returned was accepted for this call and its wake-up sent,
        false that nothing was accepted for it.  It is refused exactly when the notifier was not
        active at the call, or the data queue was closed when the enqueue came. */
    method NotifyCallback(kind: Kind, msg: Message, hasRelease: bool) returns (rc: bool, id: nat)
      requires Valid()
      modifies this
      ensures Valid() && Later(old(accepted), old(trace))
      ensures mineChecked == old(mineChecked) && mineSending == old(mineSending)
      ensures !old(mActive) ==> !rc && trace == old(trace)
      ensures old(mActive) && !rc ==> !queueActive
      ensures var n := Notification(id, kind, msg, hasRelease);
              && (rc ==> n in accepted && n !in old(accepted) && WokeFor(n, old(trace)))
              && mine == (if rc then old(mine) + multiset{n} else old(mine))
    {
      hide Recorded;
      rc, id := false, 0;
      var proceed := PassCheckOwn();
      if proceed {
        EverybodyMoves();
        rc, id := EnqueueAndWake(kind, msg, hasRelease);
      }
    }
  }

  /** flushNodes takes what matches from an open queue, all of it and nothing else, and releases each
      with FAILED_TRANSACTION. */
  lemma FlushReleases(s: State, f: Filter)
    ensures var t := FlushNodes(s, f);
            && (!s.open ==> t == s)
            && (s.open ==> forall n :: n in t.dataQ <==> n in s.dataQ && !Matches(f, n))
            && (s.open ==> forall n :: n in s.dataQ && Matches(f, n) ==>
                  && t.settled[n] == s.settled[n] + multiset(s.dataQ)[n] && n in t.outcome
                  && t.outcome[n] == if n.hasRelease then Released(FailedTransaction) else NothingToRelease)
  {
    FlushMembers(s.dataQ, f);
    FlushSplits(s.dataQ, f);
    forall n | n in s.dataQ && Matches(f, n)
      ensures multiset(Matched(s.dataQ, f))[n] == multiset(s.dataQ)[n]
    {
      assert n !in multiset(Kept(s.dataQ, f));
    }
  }

  lemma FlushNothing(q: seq<Notification>, f: Filter)
    requires q == []
    ensures Kept(q, f) == [] && Matched(q, f) == []
  {
  }

  /** One turn of the loop of flushNodes, at position pos of the original queue q. */
  lemma FlushTurn(queue: seq<Notification>, front: seq<Notification>, q: seq<Notification>, pos: nat, f: Filter)
    requires pos < |q| && queue == front + q[pos..]
    ensures |queue| > |front| && queue[|front|] == q[pos]
    ensures Matches(f, q[pos]) ==>
              && queue[..|front|] + queue[|front| + 1..] == front + q[pos + 1..]
              && Kept(q[..pos + 1], f) == Kept(q[..pos], f)
              && Matched(q[..pos + 1], f) == Matched(q[..pos], f) + [q[pos]]
    ensures !Matches(f, q[pos]) ==>
              && queue == (front + [q[pos]]) + q[pos + 1..]
              && Kept(q[..pos + 1], f) == Kept(q[..pos], f) + [q[pos]]
              && Matched(q[..pos + 1], f) == Matched(q[..pos], f)
  {
    assert q[pos..] == [q[pos]] + q[pos + 1..];
    assert q[..pos + 1] == q[..pos] + [q[pos]];
    FlushIsFilter(q[..pos], [q[pos]], f);
  }
}
