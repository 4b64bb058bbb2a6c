/** Autofocus in the camera HAL: the focus-done messages sent to the application for the focus
    events of the sensor. */
module AutoFocus {
  datatype Mode = Auto | Macro | ContinuousVideo | ContinuousPicture | Infinity | Fixed | Edof | OtherMode

  datatype FocusState =
    Inactive | PassiveScan | PassiveFocused | ActiveScan | FocusedLocked | NotFocusedLocked | PassiveUnfocused

  /** A focus event: the sensor's state, and whether its own focus mode is infinity. */
  datatype FocusData = FocusData(state: FocusState, infinity: bool)

  datatype Msg = Focus(ok: bool) | FocusMove(start: bool)

  /** The application's calls and the sensor's events, with the focus mode set at the time. */
  datatype Event =
    | StartFocus(mode: Mode, accepted: bool)
    | CancelFocus(mode: Mode)
    | StopPreview
    | Sensor(mode: Mode, secondary: bool, data: FocusData)

  predicate Continuous(m: Mode) {
    m == ContinuousVideo || m == ContinuousPicture
  }

  predicate Adjustable(m: Mode) {
    m == Auto || m == Macro || Continuous(m)
  }

  predicate Locked(s: FocusState) {
    s == FocusedLocked || s == NotFocusedLocked
  }

  predicate Passive(s: FocusState) {
    s == PassiveScan || s == PassiveFocused || s == PassiveUnfocused
  }

  predicate AtInfinity(d: FocusData) {
    d.infinity && d.state == Inactive
  }

  /** What a sensor event sends in auto and macro mode. */
  function SentWhenTriggered(active: bool, d: FocusData): seq<Msg> {
    if !active then []
    else if AtInfinity(d) then [Focus(true)]
    else if Locked(d.state) then [Focus(d.state == FocusedLocked)]
    else []
  }

  /** What it sends in the continuous modes. */
  function SentWhenContinuous(active: bool, d: FocusData): seq<Msg> {
    if AtInfinity(d) then [Focus(false)]
    else if Passive(d.state) && active then []
    else
      (if Locked(d.state) || d.state == PassiveFocused || d.state == PassiveUnfocused
       then [Focus(d.state == PassiveFocused || d.state == FocusedLocked)] else [])
      + [FocusMove(d.state == PassiveScan)]
  }

  function SentBy(active: bool, m: Mode, d: FocusData): seq<Msg> {
    if m == Auto || m == Macro then SentWhenTriggered(active, d)
    else if Continuous(m) then SentWhenContinuous(active, d)
    else []
  }

  function ActiveAfter(active: bool, m: Mode, d: FocusData): bool {
    active && !Locked(d.state) && !(Adjustable(m) && AtInfinity(d))
  }

  class Camera {
    var activeAF: bool
    var sent: seq<Msg>

    constructor ()
      ensures !activeAF && sent == []
    {
      activeAF, sent := false, [];
    }

    /** `accepted` is whether the sensor, or in the modes without autofocus the notifier, took it. */
    method StartFocus(mode: Mode, accepted: bool)
      modifies this
      ensures activeAF == (accepted && (Adjustable(mode) || old(activeAF)))
      ensures sent == old(sent) + if !Adjustable(mode) && accepted then [Focus(true)] else []
    {
      if Adjustable(mode) {
        activeAF := true;
      } else if accepted {
        sent := sent + [Focus(true)];
      }
      if !accepted {
        activeAF := false;
      }
    }

    method CancelFocus(mode: Mode)
      modifies this`activeAF
      ensures activeAF == (old(activeAF) && !Adjustable(mode))
    {
      if Adjustable(mode) {
        activeAF := false;
      }
    }

    method Triggered(d: FocusData)
      modifies this
      ensures sent == old(sent) + SentWhenTriggered(old(activeAF), d)
      ensures activeAF == (old(activeAF) && !AtInfinity(d))
    {
      if !activeAF {
        return;
      }
      if d.infinity && d.state == Inactive {
        sent := sent + [Focus(true)];
        activeAF := false;
        return;
      }
      if d.state == PassiveScan || d.state == PassiveFocused || d.state == PassiveUnfocused {
        return;
      }
      if d.state == ActiveScan || d.state == Inactive {
        return;
      }
      sent := sent + [Focus(d.state == FocusedLocked)];
    }

    method ContinuousFocus(d: FocusData)
      modifies this
      ensures sent == old(sent) + SentWhenContinuous(old(activeAF), d)
      ensures activeAF == (old(activeAF) && !AtInfinity(d))
    {
      if d.infinity && d.state == Inactive {
        sent := sent + [Focus(false)];
        activeAF := false;
        return;
      }
      if (d.state == PassiveFocused || d.state == PassiveUnfocused || d.state == PassiveScan) && activeAF {
        return;
      }
      if d.state == PassiveFocused || d.state == PassiveUnfocused
         || d.state == FocusedLocked || d.state == NotFocusedLocked {
        sent := sent + [Focus(d.state == PassiveFocused || d.state == FocusedLocked)];
      }
      sent := sent + [FocusMove(d.state == PassiveScan)];
    }

    method ProcessEvent(mode: Mode, secondary: bool, d: FocusData)
      modifies this
      ensures secondary ==> activeAF == old(activeAF) && sent == old(sent)
      ensures !secondary ==> activeAF == ActiveAfter(old(activeAF), mode, d)
                             && sent == old(sent) + SentBy(old(activeAF), mode, d)
    {
      if secondary {
        return;
      }
      match mode {
        case Auto => Triggered(d);
        case Macro => Triggered(d);
        case ContinuousVideo => ContinuousFocus(d);
        case ContinuousPicture => ContinuousFocus(d);
        case _ =>
      }
      if d.state == FocusedLocked || d.state == NotFocusedLocked {
        activeAF := false;
      }
    }
  }

  // ---------------------------------------------------------------- runs

  /** `since` holds the messages sensor events sent since the last autofocus call. */
  datatype State = State(active: bool, since: seq<Msg>)

  function Apply(s: State, e: Event): State {
    match e
    case StartFocus(m, accepted) => State(accepted && (Adjustable(m) || s.active), [])
    case CancelFocus(m) => s.(active := s.active && !Adjustable(m))
    case StopPreview => s.(active := false)
    case Sensor(m, secondary, d) =>
      if secondary then s else State(ActiveAfter(s.active, m, d), s.since + SentBy(s.active, m, d))
  }

  function Run(es: seq<Event>): State {
    if es == [] then State(false, []) else Apply(Run(es[..|es| - 1]), es[|es| - 1])
  }

  predicate InMode(e: Event, m: Mode) {
    e.StopPreview? || e.mode == m
  }

  ghost predicate TriggeredOnly(es: seq<Event>) {
    forall i :: 0 <= i < |es| ==> InMode(es[i], Auto) || InMode(es[i], Macro)
  }

  /** A sensor event that settles an autofocus request in auto or macro mode. */
  predicate Settles(e: Event) {
    e.Sensor? && !e.secondary && (AtInfinity(e.data) || Locked(e.data.state))
  }

  /** What happened to the last autofocus call: it was answered, it is pending, or it is over
      without an answer: refused, cancelled, or stopped with the preview. */
  datatype Answer = Over | Pending | Answered(ok: bool)

  /** The answer is the first settling event after the call, unless a cancel came before it. */
  function AnswerTo(es: seq<Event>): Answer {
    if es == [] then Over
    else
      var e, before := es[|es| - 1], es[..|es| - 1];
      if e.StartFocus? then if e.accepted then Pending else Over
      else if AnswerTo(before) != Pending then AnswerTo(before)
      else if e.CancelFocus? || e.StopPreview? then Over
      else if Settles(e) then Answered(!Locked(e.data.state) || e.data.state == FocusedLocked)
      else Pending
  }

  /** In auto and macro mode, every run: the messages sensor events have sent since the last
      autofocus call are its one answer, or none; so at most one is sent between two calls, and
      none after a cancel. */
  lemma {:induction false} OneAnswerPerCall(es: seq<Event>)
    requires TriggeredOnly(es)
    ensures Run(es).since == (if AnswerTo(es).Answered? then [Focus(AnswerTo(es).ok)] else [])
    ensures Run(es).active <==> AnswerTo(es) == Pending
  {
    if es != [] {
      OneAnswerPerCall(es[..|es| - 1]);
      assert InMode(es[|es| - 1], Auto) || InMode(es[|es| - 1], Macro);
    }
  }

  lemma RunSnoc(es: seq<Event>, e: Event)
    ensures Run(es + [e]) == Apply(Run(es), e)
  {
    assert (es + [e])[..|es|] == es;
  }

  predicate Quiet(e: Event) {
    !e.StartFocus?
  }

  /** After a cancel nothing is sent until the next call. */
  lemma {:induction false} SilentAfterCancel(es: seq<Event>, m: Mode, more: seq<Event>)
    requires TriggeredOnly(es + [CancelFocus(m)] + more) && forall i :: 0 <= i < |more| ==> Quiet(more[i])
    ensures Run(es + [CancelFocus(m)] + more) == State(false, Run(es).since)
  {
    var cancelled := es + [CancelFocus(m)];
    if more == [] {
      assert InMode((cancelled + more)[|es|], Auto) || InMode((cancelled + more)[|es|], Macro);
      RunSnoc(es, CancelFocus(m));
      assert cancelled + more == cancelled;
    } else {
      var last := |more| - 1;
      assert cancelled + more == (cancelled + more[..last]) + [more[last]];
      forall i | 0 <= i < |cancelled + more[..last]|
        ensures InMode((cancelled + more[..last])[i], Auto) || InMode((cancelled + more[..last])[i], Macro)
      {
        assert (cancelled + more[..last])[i] == (cancelled + more)[i];
      }
      SilentAfterCancel(es, m, more[..last]);
      RunSnoc(cancelled + more[..last], more[last]);
      assert InMode((cancelled + more)[|cancelled| + last], Auto)
          || InMode((cancelled + more)[|cancelled| + last], Macro);
      assert Quiet(more[last]);
    }
  }

  // ---------------------------------------------------------------- what the messages say

  lemma ContinuousSends(active: bool, d: FocusData)
    ensures SentWhenContinuous(active, d) ==
      if d.infinity && d.state == Inactive then [Focus(false)]
      else
        match d.state
        case PassiveScan => if active then [] else [FocusMove(true)]
        case PassiveFocused => if active then [] else [Focus(true), FocusMove(false)]
        case PassiveUnfocused => if active then [] else [Focus(false), FocusMove(false)]
        case FocusedLocked => [Focus(true), FocusMove(false)]
        case NotFocusedLocked => [Focus(false), FocusMove(false)]
        case Inactive | ActiveScan => [FocusMove(false)]
  {
    var move := FocusMove(d.state == PassiveScan);
    assert [] + [move] == [move];
    assert [Focus(true)] + [move] == [Focus(true), move];
    assert [Focus(false)] + [move] == [Focus(false), move];
  }

  /** In the continuous modes, every run: an event of a primary camera ends with a move message that
      says whether the lens is scanning, and before it a focus message that says whether the sensor
      is focused, when it has settled; a lens at infinity only sends one that says it is not; and
      while a call is pending passive events are ignored. */
  lemma ContinuousTells(es: seq<Event>, m: Mode, d: FocusData)
    requires m == ContinuousVideo || m == ContinuousPicture
    ensures var s, t := Run(es), Run(es + [Sensor(m, false, d)]);
      t.since == s.since +
        if d.infinity && d.state == Inactive then [Focus(false)]
        else
          match d.state
          case PassiveScan => if s.active then [] else [FocusMove(true)]
          case PassiveFocused => if s.active then [] else [Focus(true), FocusMove(false)]
          case PassiveUnfocused => if s.active then [] else [Focus(false), FocusMove(false)]
          case FocusedLocked => [Focus(true), FocusMove(false)]
          case NotFocusedLocked => [Focus(false), FocusMove(false)]
          case Inactive | ActiveScan => [FocusMove(false)]
  {
    RunSnoc(es, Sensor(m, false, d));
    ContinuousSends(Run(es).active, d);
  }

  /** A call is pending after an event exactly when it was, the sensor has not locked, and it is not
      at infinity in a mode that adjusts the focus. */
  lemma PendingAfter(es: seq<Event>, m: Mode, d: FocusData)
    ensures Run(es + [Sensor(m, false, d)]).active
       <==> Run(es).active && d.state != FocusedLocked && d.state != NotFocusedLocked
            && !(d.infinity && d.state == Inactive && m in {Auto, Macro, ContinuousVideo, ContinuousPicture})
    ensures Run(es + [Sensor(m, true, d)]) == Run(es)
  {
    RunSnoc(es, Sensor(m, false, d));
    RunSnoc(es, Sensor(m, true, d));
  }

  // ---------------------------------------------------------------- which modes promise it

  function FocusCount(ms: seq<Msg>): nat {
    if ms == [] then 0 else FocusCount(ms[..|ms| - 1]) + if ms[|ms| - 1].Focus? then 1 else 0
  }

  ghost predicate AllInMode(es: seq<Event>, m: Mode) {
    forall i :: 0 <= i < |es| ==> InMode(es[i], m)
  }

  lemma {:induction false} NothingSent(es: seq<Event>, m: Mode)
    requires AllInMode(es, m) && !Adjustable(m)
    ensures Run(es).since == []
  {
    if es != [] {
      NothingSent(es[..|es| - 1], m);
      assert InMode(es[|es| - 1], m);
    }
  }

  lemma CountOne(ok: bool)
    ensures FocusCount([]) == 0 && FocusCount([Focus(ok)]) == 1
  {
    assert [Focus(ok)][..0] == [];
  }

  lemma RunFour(a: Event, b: Event, c: Event, d: Event)
    ensures Run([a, b, c, d]) == Apply(Apply(Apply(Apply(State(false, []), a), b), c), d)
  {
    assert [a, b, c, d][..3] == [a, b, c] && [a, b, c][..2] == [a, b] && [a, b][..1] == [a];
    assert Run([a]) == Apply(State(false, []), a);
    assert Run([a, b]) == Apply(Run([a]), b);
    assert Run([a, b, c]) == Apply(Run([a, b]), c);
  }

  lemma CountTwo(a: Msg, b: Msg, c: Msg)
    requires a.Focus? && b.FocusMove? && c.Focus?
    ensures FocusCount([a, b, c, b]) == 2
  {
    assert [a, b, c, b][..3] == [a, b, c] && [a, b, c][..2] == [a, b] && [a, b][..1] == [a];
    assert FocusCount([a]) == 1 by { CountOne(a.ok); }
    assert FocusCount([a, b]) == 1;
    assert FocusCount([a, b, c]) == 2;
  }

  /** Two passive events in a continuous mode send two messages after one call, even a cancelled one. */
  function TwoMessages(m: Mode): seq<Event> {
    [StartFocus(m, true), CancelFocus(m), Sensor(m, false, FocusData(PassiveFocused, false)),
     Sensor(m, false, FocusData(PassiveUnfocused, false))]
  }

  lemma TwoMessagesSent(m: Mode)
    requires Continuous(m)
    ensures Run(TwoMessages(m)).since == [Focus(true), FocusMove(false), Focus(false), FocusMove(false)]
  {
    var es, move := TwoMessages(m), FocusMove(false);
    RunFour(es[0], es[1], es[2], es[3]);
    ContinuousSends(false, es[2].data);
    ContinuousSends(false, es[3].data);
    assert [] + [Focus(true), move] == [Focus(true), move];
    assert [Focus(true), move] + [Focus(false), move] == [Focus(true), move, Focus(false), move];
  }

  lemma ContinuousSendsTwo(m: Mode)
    requires Continuous(m)
    ensures AllInMode(TwoMessages(m), m) && FocusCount(Run(TwoMessages(m)).since) == 2
  {
    TwoMessagesSent(m);
    CountTwo(Focus(true), FocusMove(false), Focus(false));
  }

  /** A focus mode, kept throughout, promises at most one focus message between two autofocus calls
      if and only if it is not a continuous one. */
  lemma AtMostOneIffNotContinuous(m: Mode)
    ensures (forall es :: AllInMode(es, m) ==> FocusCount(Run(es).since) <= 1) <==> !Continuous(m)
  {
    if Continuous(m) {
      ContinuousSendsTwo(m);
    } else {
      forall es | AllInMode(es, m) ensures FocusCount(Run(es).since) <= 1 {
        if Adjustable(m) {
          forall i | 0 <= i < |es| ensures InMode(es[i], Auto) || InMode(es[i], Macro) {
            assert InMode(es[i], m);
          }
          OneAnswerPerCall(es);
        } else {
          NothingSent(es, m);
        }
        CountOne(true);
        CountOne(false);
      }
    }
  }
}
