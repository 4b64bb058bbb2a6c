/** What the client that asked for a role switch is told, over every run of the USB protocol. */
module UsbAnswer {
  import opened UsbProtocol

  predicate By(n: Note, t: nat) {
    !n.PartnerAdded? && n.thread == t
  }

  /** What thread t did since its latest switchRole got the role-switch lock. */
  function CallNotes(log: seq<Note>, t: nat): seq<Note> {
    if log == [] then []
    else
      var before, n := log[..|log| - 1], log[|log| - 1];
      if !By(n, t) then CallNotes(before, t)
      else if n.Began? then [n]
      else CallNotes(before, t) + [n]
  }

  /** A switch of the port type so far as switchMode holds it: file not opened, role not written, or
      written. */
  predicate Tried(call: seq<Note>, t: nat) {
    || call == [Began(t, true)]
    || call == [Began(t, true), Cleared(t)]
    || call == [Began(t, true), Cleared(t), WroteType(t)]
  }

  /** All that a call can have done when it asks for the callback lock with this answer. */
  predicate Answerable(call: seq<Note>, t: nat, ok: bool) {
    || (call == [Began(t, false)] && !ok)
    || call == [Began(t, false), WroteOther(t, ok)]
    || (call == [Began(t, true), Cleared(t), WroteType(t), Returned(t, true)] && ok)
    || (|call| >= 2 && Tried(call[..|call| - 2], t) && call[|call| - 2..] == [CalledDrp(t), Returned(t, false)] && !ok)
  }

  /** A call that has been answered, or that had no callback to answer. */
  ghost predicate Answered(call: seq<Note>, t: nat) {
    exists ok :: Answerable(call, t, ok) || (call != [] && call[|call| - 1] == Notified(t, ok)
                                             && Answerable(call[..|call| - 1], t, ok))
  }

  /** What thread t has done when it is at a place. */
  ghost predicate Expected(pc: Pc, call: seq<Note>, t: nat) {
    match pc
    case HasRole(mode) => call == [Began(t, mode)]
    case WantPartner => call == [Began(t, true)]
    case MustWrite => call == [Began(t, true), Cleared(t)]
    case CvWait | WantPartnerAgain(_) => call == [Began(t, true), Cleared(t), WroteType(t)]
    case LeavePartner(ok) => Tried(call, t) && (ok ==> |call| == 3)
    case WriteDual => Tried(call, t)
    case WantCb(ok) => Answerable(call, t, ok)
    case HasCb(ok) => Answerable(call, t, ok)
    case LeaveRole => Answered(call, t)
    case _ => true
  }

  lemma CallNotesSnoc(log: seq<Note>, n: Note, t: nat)
    ensures CallNotes(log + [n], t)
         == if !By(n, t) then CallNotes(log, t) else if n.Began? then [n] else CallNotes(log, t) + [n]
  {
    assert (log + [n])[..|log|] == log;
  }

  lemma CallNotesAppend(log: seq<Note>, notes: seq<Note>, t: nat)
    requires |notes| <= 2 && forall k :: 0 <= k < |notes| ==> By(notes[k], t) && !notes[k].Began?
    ensures CallNotes(log + notes, t) == CallNotes(log, t) + notes
  {
    if |notes| == 0 {
      assert log + notes == log;
    } else if |notes| == 1 {
      CallNotesSnoc(log, notes[0], t);
      assert notes == [notes[0]];
    } else {
      CallNotesSnoc(log, notes[0], t);
      CallNotesSnoc(log + [notes[0]], notes[1], t);
      assert notes == [notes[0]] + [notes[1]];
      assert log + notes == log + [notes[0]] + [notes[1]];
    }
  }

  lemma CallNotesOther(log: seq<Note>, notes: seq<Note>, t: nat)
    requires |notes| <= 2 && forall k :: 0 <= k < |notes| ==> !By(notes[k], t)
    ensures CallNotes(log + notes, t) == CallNotes(log, t)
  {
    if |notes| == 0 {
      assert log + notes == log;
    } else if |notes| == 1 {
      CallNotesSnoc(log, notes[0], t);
      assert notes == [notes[0]];
    } else {
      CallNotesSnoc(log, notes[0], t);
      CallNotesSnoc(log + [notes[0]], notes[1], t);
      assert notes == [notes[0]] + [notes[1]];
      assert log + notes == log + [notes[0]] + [notes[1]];
    }
  }

  lemma NotesBy(s: State, pc: Pc, t: nat, c: Choice)
    ensures var notes := Notes(s, pc, t, OpOf(s, pc, c), c);
      && |notes| <= 2
      && (forall k :: 0 <= k < |notes| ==> notes[k] == PartnerAdded || By(notes[k], t))
      && (!pc.WantRole? ==> forall k :: 0 <= k < |notes| ==> !notes[k].Began?)
      && (pc != WorkWantPartner ==> PartnerAdded !in notes)
  {}

  // ---------------------------------------------------------------- a thread's own steps

  lemma RoleStep(s: State, mode: bool, t: nat, c: Choice)
    ensures var op := SwitchOp(s, HasRole(mode), c);
      Expected(Target(HasRole(mode), op), [Began(t, mode)] + Notes(s, HasRole(mode), t, op, c), t)
  {
    if mode {
      assert [Began(t, true)] + [] == [Began(t, true)];
    } else if c == Fail {
      assert [Began(t, false)] + [] == [Began(t, false)];
    } else {
      assert [Began(t, false)] + [WroteOther(t, c != Mismatch)] == [Began(t, false), WroteOther(t, c != Mismatch)];
    }
  }

  lemma AnswerStep(call: seq<Note>, t: nat, ok: bool, callback: bool)
    requires Answerable(call, t, ok)
    ensures Answered(call + if callback then [Notified(t, ok)] else [], t)
  {
    if callback {
      assert (call + [Notified(t, ok)])[..|call|] == call;
    } else {
      assert call + [] == call;
    }
  }

  lemma SwitchStep(s: State, pc: Pc, t: nat, c: Choice, call: seq<Note>)
    requires PartOf(pc) == Switch && !pc.WantRole? && Expected(pc, call, t)
    ensures var op := SwitchOp(s, pc, c);
      Expected(Target(pc, op), call + Notes(s, pc, t, op, c), t)
  {
    match pc
    case HasRole(mode) => RoleStep(s, mode, t, c);
    case WantCb(ok) => assert call + [] == call;
    case HasCb(ok) => AnswerStep(call, t, ok, s.callback);
    case LeaveRole =>
  }

  lemma DrpAnswers(call: seq<Note>, t: nat)
    requires Tried(call, t)
    ensures Answerable(call + [CalledDrp(t), Returned(t, false)], t, false)
  {
    var all := call + [CalledDrp(t), Returned(t, false)];
    assert all[..|all| - 2] == call;
  }

  /** From the lock of the partner mutex to the wait. */
  lemma WriteStep(s: State, pc: Pc, t: nat, c: Choice, call: seq<Note>)
    requires (pc == WantPartner || pc == MustWrite) && Expected(pc, call, t)
    ensures var op := ModeOp(s, pc, c);
      Expected(Target(pc, op), call + Notes(s, pc, t, op, c), t)
  {
    assert call + [] == call;
    assert [Began(t, true)] + [Cleared(t)] == [Began(t, true), Cleared(t)];
    assert [Began(t, true), Cleared(t)] + [WroteType(t)] == [Began(t, true), Cleared(t), WroteType(t)];
  }

  lemma WaitStep(s: State, pc: Pc, t: nat, c: Choice, call: seq<Note>)
    requires (pc == CvWait || pc.WantPartnerAgain?) && Expected(pc, call, t)
    ensures var op := ModeOp(s, pc, c);
      Expected(Target(pc, op), call + Notes(s, pc, t, op, c), t)
  {
    assert call + [] == call;
  }

  lemma ReturnStep(s: State, pc: Pc, t: nat, c: Choice, call: seq<Note>)
    requires (pc.LeavePartner? || pc == WriteDual) && Expected(pc, call, t)
    ensures var op := ModeOp(s, pc, c);
      Expected(Target(pc, op), call + Notes(s, pc, t, op, c), t)
  {
    assert call + [] == call;
    if pc == WriteDual {
      DrpAnswers(call, t);
    } else if pc.ok {
      assert call + [Returned(t, true)] == [Began(t, true), Cleared(t), WroteType(t), Returned(t, true)];
    }
  }

  lemma ModeStep(s: State, pc: Pc, t: nat, c: Choice, call: seq<Note>)
    requires PartOf(pc) == Mode && Expected(pc, call, t)
    ensures var op := ModeOp(s, pc, c);
      Expected(Target(pc, op), call + Notes(s, pc, t, op, c), t)
  {
    if pc == WantPartner || pc == MustWrite {
      WriteStep(s, pc, t, c, call);
    } else if pc == CvWait || pc.WantPartnerAgain? {
      WaitStep(s, pc, t, c, call);
    } else {
      ReturnStep(s, pc, t, c, call);
    }
  }

  lemma OutsideStep(s: State, pc: Pc, c: Choice, call: seq<Note>, t: nat)
    requires PartOf(pc) != Switch && PartOf(pc) != Mode
    ensures Expected(Target(pc, OpOf(s, pc, c)), call, t)
  {}

  lemma OwnStep(s: State, t: nat, c: Choice)
    requires Expected(PcOf(s, t), CallNotes(s.log, t), t)
    ensures Expected(PcOf(StepOf(s, t, c), t), CallNotes(StepOf(s, t, c).log, t), t)
  {
    var pc := PcOf(s, t);
    var notes := Notes(s, pc, t, OpOf(s, pc, c), c);
    StepPlaces(s, t, c, t);
    NotesBy(s, pc, t, c);
    if pc.WantRole? {
      if notes != [] {
        CallNotesSnoc(s.log, Began(t, pc.mode), t);
      } else {
        assert s.log + notes == s.log;
      }
    } else if PartOf(pc) == Switch || PartOf(pc) == Mode {
      CallNotesAppend(s.log, notes, t);
      if PartOf(pc) == Switch {
        SwitchStep(s, pc, t, c, CallNotes(s.log, t));
      } else {
        ModeStep(s, pc, t, c, CallNotes(s.log, t));
      }
    } else {
      OutsideStep(s, pc, c, CallNotes(s.log + notes, t), t);
    }
  }

  lemma OtherStep(s: State, t: nat, c: Choice, u: nat)
    requires Expected(PcOf(s, u), CallNotes(s.log, u), u) && u != t
    ensures Expected(PcOf(StepOf(s, t, c), u), CallNotes(StepOf(s, t, c).log, u), u)
  {
    var notes := Notes(s, PcOf(s, t), t, OpOf(s, PcOf(s, t), c), c);
    StepPlaces(s, t, c, u);
    NotesBy(s, PcOf(s, t), t, c);
    CallNotesOther(s.log, notes, u);
  }

  lemma CallStarts(s: State, e: Event, u: nat)
    requires Expected(PcOf(s, u), CallNotes(s.log, u), u) && !e.Step?
    ensures Expected(PcOf(Apply(s, e), u), CallNotes(Apply(s, e).log, u), u)
  {
    CallPlace(s, e, u);
    assert Apply(s, e).log == s.log;
  }

  /** In every run every thread has done what its place says. */
  lemma {:induction false} PlacesTell(es: seq<Event>, t: nat)
    ensures Expected(PcOf(Run(es), t), CallNotes(Run(es).log, t), t)
  {
    if es != [] {
      var s, e := Run(es[..|es| - 1]), es[|es| - 1];
      PlacesTell(es[..|es| - 1], t);
      if !e.Step? {
        CallStarts(s, e, t);
      } else if e.thread == t {
        OwnStep(s, t, e.choice);
      } else {
        OtherStep(s, e.thread, e.choice, t);
      }
    }
  }

  // ---------------------------------------------------------------- what the client is told

  /** A notification comes from a call that had done one of four things. */
  ghost predicate Honest(log: seq<Note>, i: int)
    requires 0 <= i < |log|
  {
    log[i].Notified? ==> Answerable(CallNotes(log[..i], log[i].thread), log[i].thread, log[i].ok)
  }

  lemma NotifiesAt(s: State, pc: Pc, t: nat, c: Choice, k: int)
    requires 0 <= k < |Notes(s, pc, t, OpOf(s, pc, c), c)| && Notes(s, pc, t, OpOf(s, pc, c), c)[k].Notified?
    ensures pc.HasCb? && s.callback && k == 0 && Notes(s, pc, t, OpOf(s, pc, c), c) == [Notified(t, pc.ok)]
  {}

  lemma {:induction false} NotificationsHonest(es: seq<Event>, i: int)
    requires 0 <= i < |Run(es).log|
    ensures Honest(Run(es).log, i)
  {
    var s, e := Run(es[..|es| - 1]), es[|es| - 1];
    if !e.Step? {
      assert Run(es).log == s.log;
      NotificationsHonest(es[..|es| - 1], i);
    } else {
      var pc := PcOf(s, e.thread);
      var notes := Notes(s, pc, e.thread, OpOf(s, pc, e.choice), e.choice);
      assert Run(es).log == s.log + notes;
      if i < |s.log| {
        NotificationsHonest(es[..|es| - 1], i);
        assert (s.log + notes)[..i] == s.log[..i];
      } else if notes[i - |s.log|].Notified? {
        NotifiesAt(s, pc, e.thread, e.choice, i - |s.log|);
        PlacesTell(es[..|es| - 1], e.thread);
        assert (s.log + notes)[..i] == s.log;
      }
    }
  }

  /** The result of a call, read off what it did. */
  ghost predicate Succeeded(call: seq<Note>, t: nat) {
    call != [] && call[0].Began?
    && if call[0].mode then call[|call| - 1] == Returned(t, true) else WroteOther(t, true) in call
  }

  lemma AnswerableSays(call: seq<Note>, t: nat, ok: bool)
    requires Answerable(call, t, ok)
    ensures call != [] && call[0].Began? && (ok <==> Succeeded(call, t))
    ensures forall k :: 0 < k < |call| ==> !call[k].Began? && !call[k].Notified?
    ensures call[0].mode ==>
      call[|call| - 1] == Returned(t, ok) && forall k :: 0 <= k < |call| - 1 ==> !call[k].Returned?
  {
    if |call| >= 2 && Tried(call[..|call| - 2], t) && call[|call| - 2..] == [CalledDrp(t), Returned(t, false)] {
      assert call == call[..|call| - 2] + call[|call| - 2..];
    }
  }

  /** What the client is told is what happened in the call: after a switch of the port type, what
      switchMode returned, which is the last thing before; after another switch, success exactly when
      the role was written and read back as requested. */
  lemma ClientIsToldTheResult(es: seq<Event>, i: int, t: nat, ok: bool)
    requires 0 <= i < |Run(es).log| && Run(es).log[i] == Notified(t, ok)
    ensures var call := CallNotes(Run(es).log[..i], t);
      && call != [] && call[0].Began? && (forall k :: 0 < k < |call| ==> !call[k].Began? && !call[k].Notified?)
      && (call[0].mode ==> call[|call| - 1] == Returned(t, ok)
                           && forall k :: 0 <= k < |call| - 1 ==> !call[k].Returned?)
      && (!call[0].mode ==> (ok <==> WroteOther(t, true) in call))
  {
    NotificationsHonest(es, i);
    AnswerableSays(CallNotes(Run(es).log[..i], t), t, ok);
  }

  lemma NotesInCb(s: State, ok: bool, t: nat, c: Choice)
    ensures Notes(s, HasCb(ok), t, OpOf(s, HasCb(ok), c), c) == if s.callback then [Notified(t, ok)] else []
    ensures Target(HasCb(ok), OpOf(s, HasCb(ok), c)) == LeaveRole
  {}

  lemma EndsAt(s: State, pc: Pc, t: nat, c: Choice, k: int, u: nat)
    requires 0 <= k < |Notes(s, pc, t, OpOf(s, pc, c), c)| && Notes(s, pc, t, OpOf(s, pc, c), c)[k] == Ended(u)
    ensures pc == LeaveRole && k == 0 && t == u
  {}

  /** Every call is answered, unless no callback is set when it holds the callback lock: the step
      that lets go of that lock tells the client the call's result. */
  lemma AnsweredIffCallback(es: seq<Event>, t: nat, c: Choice)
    requires PcOf(Run(es), t).HasCb?
    ensures var s, s' := Run(es), Run(es + [Step(t, c)]);
      var call := CallNotes(s.log, t);
      && call != [] && call[0].Began? && PcOf(s', t) == LeaveRole
      && s'.log == s.log + if s.callback then [Notified(t, Succeeded(call, t))] else []
  {
    var pc := PcOf(Run(es), t);
    PlacesTell(es, t);
    RunSnoc(es, Step(t, c));
    StepPlaces(Run(es), t, c, t);
    AnswerableSays(CallNotes(Run(es).log, t), t, pc.ok);
    NotesInCb(Run(es), pc.ok, t, c);
  }

  /** A call is answered at most once, after its result; and it is not over before. */
  lemma {:induction false} EndedIsAnswered(es: seq<Event>, i: int, t: nat)
    requires 0 <= i < |Run(es).log| && Run(es).log[i] == Ended(t)
    ensures Answered(CallNotes(Run(es).log[..i], t), t)
  {
    var s, e := Run(es[..|es| - 1]), es[|es| - 1];
    if !e.Step? {
      assert Run(es).log == s.log;
      EndedIsAnswered(es[..|es| - 1], i, t);
    } else {
      var pc := PcOf(s, e.thread);
      var notes := Notes(s, pc, e.thread, OpOf(s, pc, e.choice), e.choice);
      assert Run(es).log == s.log + notes;
      if i < |s.log| {
        EndedIsAnswered(es[..|es| - 1], i, t);
        assert (s.log + notes)[..i] == s.log[..i];
      } else {
        EndsAt(s, pc, e.thread, e.choice, i - |s.log|, t);
        PlacesTell(es[..|es| - 1], t);
        assert (s.log + notes)[..i] == s.log;
      }
    }
  }
}
