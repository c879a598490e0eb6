/** Auto-focus requests of the application, and the events of the focus engine that answer them. */
module AutoFocus {

  datatype FocusMode = Off | Auto | Infinity | Macro | Fixed | Edof | ContinuousVideo | ContinuousPicture | Manual

  datatype FocusState =
    Inactive | PassiveScan | PassiveFocused | ActiveScan | FocusedLocked | NotFocusedLocked | PassiveUnfocused

  /** What the focus engine reports: its state, its own mode, and whether depth data made it. */
  datatype FocusData = FocusData(state: FocusState, mode: FocusMode, isDepth: bool)

  datatype Message = Focus(success: bool) | FocusMove(scanning: bool)

  predicate IsSingle(m: FocusMode) { m.Auto? || m.Macro? }
  predicate IsContinuous(m: FocusMode) { m.ContinuousVideo? || m.ContinuousPicture? }
  predicate IsLocked(s: FocusState) { s.FocusedLocked? || s.NotFocusedLocked? }
  predicate IsPassive(s: FocusState) { s.PassiveScan? || s.PassiveFocused? || s.PassiveUnfocused? }

  /** The engine switched to infinity focus on its own. */
  predicate WentToInfinity(d: FocusData) { d.mode.Infinity? && d.state.Inactive? }

  /** How the requests armed so far ended: answered by a FOCUS message, cancelled, superseded by a
      later call, dropped when preview stopped, or ended by an event without any message.
      `singleSent` counts the FOCUS messages sent for events in single-shot mode. */
  datatype State = State(
    active: bool,
    armed: nat,
    answered: nat,
    cancelled: nat,
    superseded: nat,
    stopped: nat,
    silent: nat,
    singleSent: nat)

  datatype Action =
    | RequestFocus(mode: FocusMode, accepted: bool)    // accepted: the call behind it returned no error
    | CancelFocus(mode: FocusMode)
    | EventArrives(secondary: bool, mode: FocusMode, data: FocusData, depthCallbacks: bool)
    | PreviewStops

  function Initial(): State { State(false, 0, 0, 0, 0, 0, 0, 0) }

  function Bit(b: bool): nat { if b then 1 else 0 }

  // ---------- what an event means ----------

  /** The messages one event brings to the application, in order. */
  function Messages(active: bool, secondary: bool, mode: FocusMode, d: FocusData, depthCallbacks: bool): seq<Message> {
    if secondary then []
    else if IsSingle(mode) then
      if active && (WentToInfinity(d) || IsLocked(d.state))
      then [Focus(WentToInfinity(d) || d.state.FocusedLocked?)] else []
    else if IsContinuous(mode) then
      if WentToInfinity(d) then [Focus(false)]
      else if IsPassive(d.state) && active then []
      else if d.state.PassiveScan? && d.isDepth && !depthCallbacks then []
      else (if IsLocked(d.state) || d.state.PassiveFocused? || d.state.PassiveUnfocused?
            then [Focus(d.state.FocusedLocked? || d.state.PassiveFocused?)] else [])
           + [FocusMove(d.state.PassiveScan?)]
    else []
  }

  /** The event ends a pending request. */
  predicate Ends(secondary: bool, mode: FocusMode, d: FocusData) {
    !secondary && (IsLocked(d.state) || (WentToInfinity(d) && (IsSingle(mode) || IsContinuous(mode))))
  }

  predicate SendsFocus(messages: seq<Message>) { messages != [] && messages[0].Focus? }

  function Apply(s: State, a: Action): State {
    match a
    case RequestFocus(mode, accepted) =>
      if IsSingle(mode) || IsContinuous(mode) then
        s.(active := accepted, armed := s.armed + Bit(accepted), superseded := s.superseded + Bit(s.active))
      else
        s.(active := s.active && accepted, superseded := s.superseded + Bit(s.active && !accepted))
    case CancelFocus(mode) =>
      if IsSingle(mode) || IsContinuous(mode)
      then s.(active := false, cancelled := s.cancelled + Bit(s.active)) else s
    case EventArrives(secondary, mode, d, depthCallbacks) =>
      var sends := SendsFocus(Messages(s.active, secondary, mode, d, depthCallbacks));
      var ends := s.active && Ends(secondary, mode, d);
      s.(active := s.active && !ends,
         answered := s.answered + Bit(ends && sends),
         silent := s.silent + Bit(ends && !sends),
         singleSent := s.singleSent + Bit(IsSingle(mode) && sends))
    case PreviewStops => s.(active := false, stopped := s.stopped + Bit(s.active))
  }

  function Run(actions: seq<Action>): State {
    if actions == [] then Initial() else Apply(Run(actions[..|actions| - 1]), actions[|actions| - 1])
  }

  // ---------- single events ----------

  /** What the application hears of an event in single-shot mode: with a request pending, success when the
      engine locks in focus or goes to infinity on its own, failure when it locks out of focus. */
  lemma SingleShotTable(active: bool, mode: FocusMode, d: FocusData, depthCallbacks: bool)
    requires mode in {Auto, Macro}
    ensures var ms := Messages(active, false, mode, d, depthCallbacks);
            var infinity := d.mode == Infinity && d.state == Inactive;
            && (active && (infinity || d.state == FocusedLocked) ==> ms == [Focus(true)])
            && (active && d.state == NotFocusedLocked ==> ms == [Focus(false)])
            && (!active || (!infinity && d.state !in {FocusedLocked, NotFocusedLocked}) ==> ms == [])
  {
  }

  /** In continuous mode: failure when the engine goes to infinity; else nothing of a passive event with a
      request pending, nor of a scan that only depth data made unless these are asked for; else whether it
      is in focus, if it says so, and whether it moves. */
  lemma ContinuousTable(active: bool, mode: FocusMode, d: FocusData, depthCallbacks: bool)
    requires mode in {ContinuousVideo, ContinuousPicture}
    ensures Messages(active, false, mode, d, depthCallbacks) ==
            match d.state
            case Inactive => if d.mode == Infinity then [Focus(false)] else [FocusMove(false)]
            case ActiveScan => [FocusMove(false)]
            case PassiveScan => if active || (d.isDepth && !depthCallbacks) then [] else [FocusMove(true)]
            case PassiveFocused => if active then [] else [Focus(true), FocusMove(false)]
            case PassiveUnfocused => if active then [] else [Focus(false), FocusMove(false)]
            case FocusedLocked => [Focus(true), FocusMove(false)]
            case NotFocusedLocked => [Focus(false), FocusMove(false)]
  {
  }

  /** A secondary camera, and any other mode, brings no message. */
  lemma SilentTable(active: bool, secondary: bool, mode: FocusMode, d: FocusData, depthCallbacks: bool)
    requires secondary || mode !in {Auto, Macro, ContinuousVideo, ContinuousPicture}
    ensures Messages(active, secondary, mode, d, depthCallbacks) == []
  {
  }

  /** In single-shot mode an event sends FOCUS only for a pending request, and then ends it. */
  lemma SingleEventAnswers(active: bool, secondary: bool, mode: FocusMode, d: FocusData, depthCallbacks: bool)
    requires IsSingle(mode)
    ensures var ms := Messages(active, secondary, mode, d, depthCallbacks);
            && (SendsFocus(ms) <==> active && Ends(secondary, mode, d))
            && |ms| == Bit(SendsFocus(ms))
  {
  }

  /** A pending request in continuous mode hides every passive event from the application, and is
      answered by exactly the event that ends it. */
  lemma ContinuousEventAnswers(secondary: bool, mode: FocusMode, d: FocusData, depthCallbacks: bool)
    requires IsContinuous(mode)
    ensures var ms := Messages(true, secondary, mode, d, depthCallbacks);
            && (SendsFocus(ms) <==> Ends(secondary, mode, d))
            && (IsPassive(d.state) ==> ms == [])
  {
  }

  /** A request ends without any answer exactly when the focus mode was meanwhile changed to one
      without auto-focus and the engine then reports a lock. */
  lemma EndsSilentlyIff(s: State, secondary: bool, mode: FocusMode, d: FocusData, depthCallbacks: bool)
    ensures Apply(s, EventArrives(secondary, mode, d, depthCallbacks)).silent == s.silent + 1
            <==> s.active && !secondary && IsLocked(d.state) && !IsSingle(mode) && !IsContinuous(mode)
  {
  }

  // ---------- what every run guarantees ----------

  lemma StepConserves(s: State, a: Action)
    requires s.armed == s.answered + s.cancelled + s.superseded + s.stopped + s.silent + Bit(s.active)
    requires s.singleSent <= s.answered
    ensures var t := Apply(s, a);
            && t.armed == t.answered + t.cancelled + t.superseded + t.stopped + t.silent + Bit(t.active)
            && t.singleSent <= t.answered
  {
    if a.EventArrives? && IsSingle(a.mode) {
      SingleEventAnswers(s.active, a.secondary, a.mode, a.data, a.depthCallbacks);
    }
  }

  predicate Arms(a: Action) {
    a.RequestFocus? && a.accepted && (IsSingle(a.mode) || IsContinuous(a.mode))
  }

  /** How many of the calls armed a request. */
  function ArmsIn(actions: seq<Action>): nat {
    if actions == [] then 0 else ArmsIn(actions[..|actions| - 1]) + Bit(Arms(actions[|actions| - 1]))
  }

  function FocusIn(messages: seq<Message>): nat {
    if messages == [] then 0 else Bit(messages[0].Focus?) + FocusIn(messages[1..])
  }

  /** The messages an action brings to the application when it comes with a request pending or not. */
  function EventMessages(active: bool, a: Action): seq<Message> {
    match a
    case EventArrives(secondary, mode, d, depthCallbacks) => Messages(active, secondary, mode, d, depthCallbacks)
    case _ => []
  }

  /** How many FOCUS messages events brought, in any mode, while a request was pending. */
  function FocusWhilePending(actions: seq<Action>): nat {
    if actions == [] then 0
    else
      var front, a := actions[..|actions| - 1], actions[|actions| - 1];
      FocusWhilePending(front) + if Run(front).active then FocusIn(EventMessages(true, a)) else 0
  }

  /** An event brings at most one FOCUS message, at the front, and with a request pending only the
      event that ends it brings one. */
  lemma OneFocusAtMost(active: bool, secondary: bool, mode: FocusMode, d: FocusData, depthCallbacks: bool)
    ensures var ms := Messages(active, secondary, mode, d, depthCallbacks);
            && FocusIn(ms) == Bit(SendsFocus(ms))
            && (active && SendsFocus(ms) ==> Ends(secondary, mode, d))
  {
    var ms := Messages(active, secondary, mode, d, depthCallbacks);
    if |ms| == 2 {
      FocusInPair(ms[0], ms[1]);
      assert ms == [ms[0], ms[1]];
    } else if |ms| == 1 {
      assert ms[1..] == [];
    }
  }

  lemma FocusInPair(m: Message, n: Message)
    ensures FocusIn([m, n]) == Bit(m.Focus?) + Bit(n.Focus?)
  {
    var ms := [m, n];
    var rest := ms[1..];
    assert rest == [n] && rest[1..] == [];
    assert FocusIn(ms) == Bit(m.Focus?) + FocusIn(rest);
  }

  lemma RunSnoc(actions: seq<Action>, a: Action)
    ensures Run(actions + [a]) == Apply(Run(actions), a)
  {
    assert (actions + [a])[..|actions|] == actions;
  }

  lemma AnsweredStep(s: State, a: Action)
    ensures Apply(s, a).answered == s.answered + if s.active then FocusIn(EventMessages(true, a)) else 0
    ensures Apply(s, a).armed == s.armed + Bit(Arms(a))
  {
    hide Messages, Ends;
    if a.EventArrives? {
      OneFocusAtMost(s.active, a.secondary, a.mode, a.data, a.depthCallbacks);
    }
  }

  /** Every request armed by a call has exactly one fate, and one more is pending exactly while the
      flag is set.  The answered ones are the FOCUS messages that events of any mode brought while a
      request was pending, so these never outnumber the calls whose requests are over. */
  lemma {:induction false} RequestsConserved(actions: seq<Action>)
    ensures var s := Run(actions);
            && FocusWhilePending(actions) == s.answered && ArmsIn(actions) == s.armed
            && s.armed == s.answered + s.cancelled + s.superseded + s.stopped + s.silent + Bit(s.active)
            && s.singleSent <= FocusWhilePending(actions)
            && FocusWhilePending(actions) + Bit(s.active) <= ArmsIn(actions)
  {
    if actions != [] {
      var front, a := actions[..|actions| - 1], actions[|actions| - 1];
      RequestsConserved(front);
      StepConserves(Run(front), a);
      AnsweredStep(Run(front), a);
    }
  }

  /** Between the end of one request (by answer, cancel or stopped preview) and the next accepted
      call, single-shot events send nothing. */
  lemma {:induction false} QuietUntilArmed(before: seq<Action>, after: seq<Action>)
    requires !Run(before).active && forall i :: 0 <= i < |after| ==> !Arms(after[i])
    ensures !Run(before + after).active && Run(before + after).singleSent == Run(before).singleSent
  {
    if after == [] {
      assert before + after == before;
    } else {
      var front := after[..|after| - 1];
      assert (before + after)[..|before + after| - 1] == before + front;
      QuietUntilArmed(before, front);
    }
  }

  /** Between two accepted calls single-shot events answer at most once. */
  lemma {:induction false} AnsweredAtMostOnce(before: seq<Action>, after: seq<Action>)
    requires forall i :: 0 <= i < |after| ==> !Arms(after[i])
    ensures Run(before + after).singleSent + Bit(Run(before + after).active)
         <= Run(before).singleSent + Bit(Run(before).active)
  {
    if after == [] {
      assert before + after == before;
    } else {
      var front := after[..|after| - 1];
      assert (before + after)[..|before + after| - 1] == before + front;
      AnsweredAtMostOnce(before, front);
    }
  }

  /** Such runs exist: a request, a change to a mode without auto-focus, and then a lock. */
  lemma RequestEndsSilently(mode: FocusMode, later: FocusMode, d: FocusData, depthCallbacks: bool)
    requires IsSingle(mode) || IsContinuous(mode)
    requires !IsSingle(later) && !IsContinuous(later) && IsLocked(d.state)
    ensures Run([RequestFocus(mode, true), EventArrives(false, later, d, depthCallbacks)]).silent == 1
  {
    hide Run, Messages;
    var request, locked := RequestFocus(mode, true), EventArrives(false, later, d, depthCallbacks);
    RunOfNone();
    RunSnoc([], request);
    RunSnoc([request], locked);
    assert [] + [request] == [request] && [request] + [locked] == [request, locked];
    EndsSilentlyIff(Run([request]), false, later, d, depthCallbacks);
  }

  lemma RunOfNone()
    ensures Run([]) == Initial()
  {
  }

  // ---------- the hardware interface ----------

  class HardwareInterface {
    var mActiveAF: bool
    var bDepthAFCallbacks: bool
    var sent: seq<Message>       // messages given to sendEvtNotify, oldest first
    ghost var s: State

    ghost predicate Valid()
      reads this
    {
      mActiveAF == s.active
    }

    constructor (depthCallbacks: bool)
      ensures Valid() && s == Initial() && sent == [] && bDepthAFCallbacks == depthCallbacks
    {
      mActiveAF, bDepthAFCallbacks, sent, s := false, depthCallbacks, [], Initial();
    }

    /** sendEvtNotify */
    method SendEvtNotify(m: Message)
      modifies this`sent
      ensures sent == old(sent) + [m]
    {
      sent := sent + [m];
    }

    /** autoFocus.  `accepted` is whether do_auto_focus, or the notification sent in its place,
        returned no error. */
    method AutoFocus(focusMode: FocusMode, accepted: bool) returns (rc: bool)
      requires Valid()
      modifies this`mActiveAF, this`sent, this`s
      ensures Valid() && rc == accepted && s == Apply(old(s), RequestFocus(focusMode, accepted))
      ensures focusMode in {Auto, Macro, ContinuousVideo, ContinuousPicture} ==>
                sent == old(sent) && mActiveAF == accepted
      ensures focusMode !in {Auto, Macro, ContinuousVideo, ContinuousPicture} ==>
                sent == old(sent) + [Focus(true)] && mActiveAF == (old(mActiveAF) && accepted)
    {
      match focusMode {
        case Auto | Macro | ContinuousVideo | ContinuousPicture =>
          mActiveAF := true;
        case _ =>
          SendEvtNotify(Focus(true));
      }
      rc := accepted;
      if !rc {
        mActiveAF := false;
      }
      s := Apply(s, RequestFocus(focusMode, accepted));
    }

    /** cancelAutoFocus */
    method CancelAutoFocus(focusMode: FocusMode)
      requires Valid()
      modifies this`mActiveAF, this`s
      ensures Valid() && s == Apply(old(s), CancelFocus(focusMode))
      ensures mActiveAF == (old(mActiveAF) && focusMode !in {Auto, Macro, ContinuousVideo, ContinuousPicture})
    {
      match focusMode {
        case Auto | Macro | ContinuousVideo | ContinuousPicture =>
          mActiveAF := false;
        case _ =>
      }
      s := Apply(s, CancelFocus(focusMode));
    }

    /** The reset in stopPreview. */
    method StopPreview()
      requires Valid()
      modifies this`mActiveAF, this`s
      ensures Valid() && s == Apply(old(s), PreviewStops) && !mActiveAF
    {
      mActiveAF := false;
      s := Apply(s, PreviewStops);
    }

    /** The branch of processAutoFocusEvent for AUTO and MACRO. */
    method SingleShotEvent(focusData: FocusData)
      modifies this`mActiveAF, this`sent
      ensures sent == old(sent) + Messages(old(mActiveAF), false, Auto, focusData, bDepthAFCallbacks)
      ensures mActiveAF == (old(mActiveAF) && !(focusData.mode == Infinity && focusData.state == Inactive))
    {
      if !mActiveAF {
        return;
      }
      if focusData.mode == Infinity && focusData.state == Inactive {
        SendEvtNotify(Focus(true));
        mActiveAF := false;
        return;
      }
      if focusData.state == PassiveScan || focusData.state == PassiveFocused || focusData.state == PassiveUnfocused {
        return;
      }
      if focusData.state == ActiveScan || focusData.state == Inactive {
        return;
      }
      SendEvtNotify(Focus(focusData.state == FocusedLocked));
    }

    /** The branch for the continuous modes. */
    method ContinuousEvent(focusData: FocusData)
      modifies this`mActiveAF, this`sent
      ensures sent == old(sent) + Messages(old(mActiveAF), false, ContinuousVideo, focusData, bDepthAFCallbacks)
      ensures mActiveAF == (old(mActiveAF) && !(focusData.mode == Infinity && focusData.state == Inactive))
    {
      if focusData.mode == Infinity && focusData.state == Inactive {
        SendEvtNotify(Focus(false));
        mActiveAF := false;
        return;
      }
      if (focusData.state == PassiveFocused || focusData.state == PassiveUnfocused || focusData.state == PassiveScan)
         && mActiveAF {
        return;
      }
      if !bDepthAFCallbacks && focusData.isDepth && focusData.state == PassiveScan {
        return;
      }
      if focusData.state == PassiveFocused || focusData.state == PassiveUnfocused ||
         focusData.state == FocusedLocked || focusData.state == NotFocusedLocked {
        SendEvtNotify(Focus(focusData.state == PassiveFocused || focusData.state == FocusedLocked));
      }
      SendEvtNotify(FocusMove(focusData.state == PassiveScan));
    }

    /** The switch of processAutoFocusEvent. */
    method FocusEvent(focusMode: FocusMode, focusData: FocusData)
      modifies this`mActiveAF, this`sent
      ensures sent == old(sent) + Messages(old(mActiveAF), false, focusMode, focusData, bDepthAFCallbacks)
      ensures mActiveAF == (old(mActiveAF) && !(focusMode in {Auto, Macro, ContinuousVideo, ContinuousPicture}
                                                && focusData.mode == Infinity && focusData.state == Inactive))
    {
      match focusMode {
        case Auto | Macro => SingleShotEvent(focusData);
        case ContinuousVideo | ContinuousPicture => ContinuousEvent(focusData);
        case _ =>
      }
    }

    /** processAutoFocusEvent */
    method ProcessAutoFocusEvent(secondary: bool, focusMode: FocusMode, focusData: FocusData)
      requires Valid()
      modifies this`mActiveAF, this`sent, this`s
      ensures Valid() && s == Apply(old(s), EventArrives(secondary, focusMode, focusData, bDepthAFCallbacks))
      ensures sent == old(sent) + Messages(old(mActiveAF), secondary, focusMode, focusData, bDepthAFCallbacks)
      ensures secondary ==> sent == old(sent) && mActiveAF == old(mActiveAF)
      ensures !secondary && focusData.state in {FocusedLocked, NotFocusedLocked} ==> !mActiveAF
      ensures !secondary && focusData.state !in {FocusedLocked, NotFocusedLocked} ==>
                mActiveAF == (old(mActiveAF) && !(focusMode in {Auto, Macro, ContinuousVideo, ContinuousPicture}
                                                  && focusData.mode == Infinity && focusData.state == Inactive))
    {
      hide Messages;
      if secondary {
        SilentTable(mActiveAF, secondary, focusMode, focusData, bDepthAFCallbacks);
      } else {
        FocusEvent(focusMode, focusData);
        if focusData.state == FocusedLocked || focusData.state == NotFocusedLocked {
          mActiveAF := false;
        }
      }
      s := Apply(s, EventArrives(secondary, focusMode, focusData, bDepthAFCallbacks));
    }
  }
}
