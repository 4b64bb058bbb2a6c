/** What every run of the USB protocol keeps about role switches: who may write the port, and what
    a successful switchMode has seen. */
module UsbSwitch {
  import opened UsbProtocol

  predicate IsWrite(n: Note) {
    n.WroteType? || n.WroteOther? || n.CalledDrp?
  }

  /** Thread t's switchRole began at b and has not ended before i. */
  ghost predicate Within(log: seq<Note>, b: int, i: int, t: nat) {
    0 <= b < i <= |log| && log[b].Began? && log[b].thread == t && forall k :: b < k < i ==> log[k] != Ended(t)
  }

  ghost predicate WritesExclusive(log: seq<Note>) {
    forall b, i, t: nat :: Within(log, b, i, t) && i < |log| && IsWrite(log[i]) ==> log[i].thread == t
  }

  /** A section that is still open belongs to the thread that holds the role-switch lock. */
  ghost predicate OpenSections(s: State) {
    forall b, t: nat :: Within(s.log, b, |s.log|, t)
      ==> HeldAt(PcOf(s, t)).role && PartOf(PcOf(s, t)) in {Switch, Mode}
  }

  predicate AfterWrite(pc: Pc) {
    pc == CvWait || pc.WantPartnerAgain? || pc == LeavePartner(true)
  }

  /** Since its write, thread t's call has seen nothing but partner-add events, and mPartnerUp tells
      whether there was one. */
  ghost predicate OnlyAddsSince(log: seq<Note>, wrote: nat, t: nat, up: bool) {
    && wrote < |log| && log[wrote] == WroteType(t)
    && (forall k :: wrote < k < |log| ==> log[k] == PartnerAdded)
    && (up <==> wrote + 1 < |log|)
  }

  ghost predicate WaitInv(s: State, t: nat) {
    && (PcOf(s, t) == MustWrite ==> !s.partnerUp)
    && (AfterWrite(PcOf(s, t)) ==> OnlyAddsSince(s.log, s.wrote, t, s.partnerUp))
    && (PcOf(s, t) == LeavePartner(true) ==> s.partnerUp)
  }

  /** switchMode returned true at i: its own write of the role is followed by partner-add events
      only, at least one, up to the return. */
  ghost predicate SawPartner(log: seq<Note>, i: nat, t: nat)
    requires i <= |log|
  {
    exists w :: 0 <= w < i - 1 && log[w] == WroteType(t) && forall k :: w < k < i ==> log[k] == PartnerAdded
  }

  /** A note that switchMode returned is preceded by what the result needs. */
  ghost predicate Justified(log: seq<Note>, i: int)
    requires 0 <= i < |log|
  {
    log[i].Returned? ==>
      if log[i].ok then SawPartner(log, i, log[i].thread)
      else i > 0 && log[i - 1] == CalledDrp(log[i].thread)
  }

  ghost predicate ReturnsJustified(log: seq<Note>) {
    forall i :: 0 <= i < |log| ==> Justified(log, i)
  }

  ghost predicate Inv(s: State) {
    && LockInv(s)
    && WritesExclusive(s.log)
    && OpenSections(s)
    && ReturnsJustified(s.log)
    && forall t: nat :: WaitInv(s, t)
  }

  // ---------------------------------------------------------------- every step keeps it

  /** Two threads are never both between lock and unlock of the same mutex. */
  lemma OneHolder(s: State, t: nat, u: nat, l: Lock)
    requires LockInv(s) && Has(HeldAt(PcOf(s, t)), l) && Has(HeldAt(PcOf(s, u)), l)
    ensures t == u
  {
    assert HeldAt(At(s.pc, t)) == HeldBy(s.held, t);
    assert HeldAt(At(s.pc, u)) == HeldBy(s.held, u);
  }

  lemma FreeMeansUnheld(s: State, t: nat, l: Lock)
    requires LockInv(s) && l !in s.held
    ensures !Has(HeldAt(PcOf(s, t)), l)
  {
    assert HeldAt(At(s.pc, t)) == HeldBy(s.held, t);
  }

  /** Of the notes, all but Began and PartnerAdded are made by a thread that holds the role-switch
      lock, and Began by one that just takes it. */
  lemma NotesNeedRole(s: State, t: nat, c: Choice)
    ensures var pc := PcOf(s, t);
      var notes := Notes(s, pc, t, OpOf(s, pc, c), c);
      && |notes| <= 2
      && (forall k :: 0 <= k < |notes| ==>
            || notes == [PartnerAdded]
            || (pc.WantRole? && notes == [Began(t, pc.mode)] && RoleSwitch !in s.held)
            || (HeldAt(pc).role && !notes[k].PartnerAdded? && !notes[k].Began? && notes[k].thread == t))
  {
    match PcOf(s, t)
    case WantRole(_) => assert PartOf(PcOf(s, t)) == Switch;
    case HasRole(_) =>
    case WantPartner =>
    case MustWrite =>
    case LeavePartner(_) =>
    case WriteDual =>
      var notes := Notes(s, WriteDual, t, OpOf(s, WriteDual, c), c);
      assert notes[0] == CalledDrp(t) && notes[1] == Returned(t, false);
    case HasCb(_) =>
    case LeaveRole =>
    case WorkWantPartner =>
    case WorkHasRole =>
    case _ =>
  }

  lemma WithinPrefix(log: seq<Note>, more: seq<Note>, b: int, i: int, t: nat)
    requires Within(log + more, b, i, t) && b < |log|
    ensures Within(log, b, if i <= |log| then i else |log|, t)
  {
    forall k | b < k < (if i <= |log| then i else |log|) ensures log[k] != Ended(t) {
      assert (log + more)[k] == log[k];
    }
  }

  lemma WritesStayExclusive(s: State, t: nat, c: Choice)
    requires LockInv(s) && WritesExclusive(s.log) && OpenSections(s)
    ensures WritesExclusive(StepOf(s, t, c).log)
  {
    var notes := Notes(s, PcOf(s, t), t, OpOf(s, PcOf(s, t), c), c);
    var log := s.log + notes;
    NotesNeedRole(s, t, c);
    forall b, i, u: nat | Within(log, b, i, u) && i < |log| && IsWrite(log[i]) ensures log[i].thread == u {
      if b < |s.log| {
        WithinPrefix(s.log, notes, b, i, u);
        if i >= |s.log| {
          OneHolder(s, t, u, RoleSwitch);
        }
      }
    }
  }

  lemma StaysInside(s: State, t: nat, c: Choice, pc: Pc)
    requires HeldAt(pc).role && PartOf(pc) in {Switch, Mode}
    ensures var to := Target(pc, OpOf(s, pc, c));
      (HeldAt(to).role && PartOf(to) in {Switch, Mode}) || Notes(s, pc, t, OpOf(s, pc, c), c) == [Ended(t)]
  {}

  lemma EndedCloses(log: seq<Note>, b: int, t: nat)
    ensures b < |log| ==> !Within(log + [Ended(t)], b, |log| + 1, t)
  {
    assert (log + [Ended(t)])[|log|] == Ended(t);
  }

  lemma SectionStaysOpen(s: State, t: nat, c: Choice, b: int, u: nat)
    requires LockInv(s) && OpenSections(s)
    requires var log := s.log + Notes(s, PcOf(s, t), t, OpOf(s, PcOf(s, t), c), c); Within(log, b, |log|, u)
    ensures var pc := PcOf(StepOf(s, t, c), u); HeldAt(pc).role && PartOf(pc) in {Switch, Mode}
  {
    var pc := PcOf(s, t);
    var notes := Notes(s, pc, t, OpOf(s, pc, c), c);
    NotesNeedRole(s, t, c);
    StepPlaces(s, t, c, u);
    if b < |s.log| {
      WithinPrefix(s.log, notes, b, |s.log + notes|, u);
      if u == t {
        StaysInside(s, t, c, pc);
        EndedCloses(s.log, b, t);
      }
    } else {
      assert pc.WantRole? && notes == [Began(t, pc.mode)] && u == t;
    }
  }

  lemma SectionsStayOpen(s: State, t: nat, c: Choice)
    requires LockInv(s) && OpenSections(s)
    ensures OpenSections(StepOf(s, t, c))
  {
    var s', pc := StepOf(s, t, c), PcOf(s, t);
    var notes := Notes(s, pc, t, OpOf(s, pc, c), c);
    forall b, u: nat | Within(s.log + notes, b, |s.log + notes|, u)
      ensures HeldAt(PcOf(s', u)).role && PartOf(PcOf(s', u)) in {Switch, Mode}
    {
      SectionStaysOpen(s, t, c, b, u);
    }
  }

  lemma JustifiedExtends(log: seq<Note>, more: seq<Note>, i: int)
    requires 0 <= i < |log| && Justified(log, i)
    ensures Justified(log + more, i)
  {
    if log[i].Returned? && log[i].ok {
      var w :| 0 <= w < i - 1 && log[w] == WroteType(log[i].thread) && forall k :: w < k < i ==> log[k] == PartnerAdded;
      assert (log + more)[w] == WroteType(log[i].thread);
    }
  }

  lemma ReturnsStayJustified(s: State, t: nat, c: Choice)
    requires ReturnsJustified(s.log) && WaitInv(s, t)
    ensures ReturnsJustified(StepOf(s, t, c).log)
  {
    var pc := PcOf(s, t);
    var notes := Notes(s, pc, t, OpOf(s, pc, c), c);
    var log := s.log + notes;
    forall i | 0 <= i < |log| ensures Justified(log, i) {
      if i < |s.log| {
        assert Justified(s.log, i);
        JustifiedExtends(s.log, notes, i);
      } else if pc == LeavePartner(true) {
        assert log[s.wrote] == WroteType(t);
      } else if pc == WriteDual {
        assert log[|s.log|] == CalledDrp(t);
      } else {
        assert !notes[i - |s.log|].Returned?;
      }
    }
  }

  /** Only switchMode has places where WaitInv says something, and it is left only from them. */
  lemma OutsideMode(s: State, pc: Pc, c: Choice)
    requires PartOf(pc) != Mode
    ensures var to := Target(pc, OpOf(s, pc, c)); to != MustWrite && to != LeavePartner(true) && !AfterWrite(to)
  {}

  lemma InMode(s: State, t: nat, c: Choice, pc: Pc)
    requires PartOf(pc) == Mode
    ensures var op := ModeOp(s, pc, c);
      var to, up := Target(pc, op), PartnerUpAfter(s, pc, op);
      && (to == MustWrite ==> pc == MustWrite || !up)
      && (to == LeavePartner(true) ==> up)
      && (AfterWrite(to) ==>
            || (AfterWrite(pc) && Notes(s, pc, t, op, c) == [] && up == s.partnerUp)
            || (pc == MustWrite && c != Fail && Notes(s, pc, t, op, c) == [WroteType(t)] && up == s.partnerUp))
  {}

  /** The step that leads thread t to a place where WaitInv says something. */
  lemma OwnWaitTable(s: State, t: nat, c: Choice, pc: Pc)
    ensures var op := OpOf(s, pc, c);
      var to, up := Target(pc, op), PartnerUpAfter(s, pc, op);
      && (to == MustWrite ==> pc == MustWrite || !up)
      && (to == LeavePartner(true) ==> up)
      && (AfterWrite(to) ==>
            || (AfterWrite(pc) && Notes(s, pc, t, op, c) == [] && up == s.partnerUp)
            || (pc == MustWrite && c != Fail && Notes(s, pc, t, op, c) == [WroteType(t)] && up == s.partnerUp))
  {
    if PartOf(pc) == Mode { InMode(s, t, c, pc); } else { OutsideMode(s, pc, c); }
  }

  lemma OwnWaitKept(s: State, t: nat, c: Choice)
    requires WaitInv(s, t)
    ensures WaitInv(StepOf(s, t, c), t)
  {
    StepPlaces(s, t, c, t);
    var pc := PcOf(s, t);
    OwnWaitTable(s, t, c, pc);
  }

  lemma OtherWaitKept(s: State, t: nat, c: Choice, u: nat)
    requires LockInv(s) && WaitInv(s, u) && u != t
    ensures WaitInv(StepOf(s, t, c), u)
  {
    StepPlaces(s, t, c, u);
    NotesNeedRole(s, t, c);
    if HeldAt(PcOf(s, u)).role && HeldAt(PcOf(s, t)).role {
      OneHolder(s, t, u, RoleSwitch);
    }
    if PcOf(s, u) == MustWrite && Partner !in s.held {
      FreeMeansUnheld(s, u, Partner);
    }
    if HeldAt(PcOf(s, u)).role && RoleSwitch !in s.held {
      FreeMeansUnheld(s, u, RoleSwitch);
    }
  }

  lemma StepKeeps(s: State, t: nat, c: Choice)
    requires Inv(s)
    ensures Inv(StepOf(s, t, c))
  {
    StepKeepsLocks(s, t, c);
    WritesStayExclusive(s, t, c);
    SectionsStayOpen(s, t, c);
    ReturnsStayJustified(s, t, c);
    forall u: nat ensures WaitInv(StepOf(s, t, c), u) {
      if u == t { OwnWaitKept(s, t, c); } else { OtherWaitKept(s, t, c, u); }
    }
  }

  lemma CallKeepsRest(s: State, e: Event)
    requires !e.Step?
    ensures var s' := Apply(s, e);
      s'.log == s.log && s'.partnerUp == s.partnerUp && s'.wrote == s.wrote
  {}

  lemma CallKeepsWait(s: State, e: Event, u: nat)
    requires !e.Step? && WaitInv(s, u)
    ensures WaitInv(Apply(s, e), u)
  {
    CallKeepsRest(s, e);
    CallPlace(s, e, u);
  }

  lemma CallKeepsSections(s: State, e: Event)
    requires !e.Step? && OpenSections(s)
    ensures OpenSections(Apply(s, e))
  {
    var s' := Apply(s, e);
    CallKeepsRest(s, e);
    forall b, t: nat | Within(s'.log, b, |s'.log|, t)
      ensures HeldAt(PcOf(s', t)).role && PartOf(PcOf(s', t)) in {Switch, Mode}
    {
      assert Within(s.log, b, |s.log|, t);
      CallPlace(s, e, t);
    }
  }

  lemma CallKeeps(s: State, e: Event)
    requires Inv(s) && !e.Step? && LockInv(Apply(s, e))
    ensures Inv(Apply(s, e))
  {
    CallKeepsRest(s, e);
    CallKeepsSections(s, e);
    forall u: nat ensures WaitInv(Apply(s, e), u) {
      CallKeepsWait(s, e, u);
    }
  }

  lemma {:induction false} RunKeeps(es: seq<Event>)
    ensures Inv(Run(es))
  {
    if es != [] {
      var s, e := Run(es[..|es| - 1]), es[|es| - 1];
      RunKeeps(es[..|es| - 1]);
      LocksExcludeEachOther(es);
      if e.Step? {
        StepKeeps(s, e.thread, e.choice);
      } else {
        CallKeeps(s, e);
      }
    }
  }

  // ---------------------------------------------------------------- what it gives

  /** Between the moment a switchRole got the role-switch lock and the moment it lets go, nobody
      else writes a role or "dual": the worker's reset never lands inside a role switch. */
  lemma RoleSwitchIsUndisturbed(es: seq<Event>, b: int, i: int, t: nat)
    requires i < |Run(es).log| && Within(Run(es).log, b, i, t) && IsWrite(Run(es).log[i])
    ensures Run(es).log[i].thread == t
  {
    RunKeeps(es);
  }

  /** switchMode returns true only if, after its own write of the role, a partner-add event was
      processed; and from that write to the return nothing else happened to the port. It returns
      false only right after writing "dual". */
  lemma SwitchModeReturnIsJustified(es: seq<Event>, i: nat)
    requires i < |Run(es).log| && Run(es).log[i].Returned?
    ensures var log := Run(es).log;
      if log[i].ok then SawPartner(log, i, log[i].thread)
      else i > 0 && log[i - 1] == CalledDrp(log[i].thread)
  {
    RunKeeps(es);
    assert Justified(Run(es).log, i);
  }

  /** Whenever the waiting thread gets the partner lock back, it leaves the wait with success
      exactly when it did not time out and a partner-add event came after its write; it leaves
      with failure exactly when it timed out; otherwise it waits again. So an event that arrives
      before the wake-up is never missed unless the wait has timed out. */
  lemma WakeUpOutcome(es: seq<Event>, t: nat, c: Choice)
    requires PcOf(Run(es), t).WantPartnerAgain? && Partner !in Run(es).held
    ensures var s, timedOut := Run(es), PcOf(Run(es), t).timedOut;
      var after := PcOf(StepOf(s, t, c), t);
      && s.wrote < |s.log| && s.log[s.wrote] == WroteType(t)
      && (after == LeavePartner(true) <==> !timedOut && exists k :: s.wrote < k < |s.log| && s.log[k] == PartnerAdded)
      && (after == LeavePartner(false) <==> timedOut)
      && (after.LeavePartner? || after == CvWait)
  {
    RunKeeps(es);
    var s := Run(es);
    assert WaitInv(s, t);
    if s.partnerUp {
      assert s.log[s.wrote + 1] == PartnerAdded;
    }
  }

  // ---------------------------------------------------------------- no wake-up is lost

  /** Whether thread t, waiting on the condition variable, has been signalled since it last began to
      wait: the worker signals in the section in which it sets mPartnerUp. */
  ghost function Signalled(es: seq<Event>, t: nat): bool {
    if es == [] then false
    else
      var s, s' := Run(es[..|es| - 1]), Run(es);
      PcOf(s, t) == CvWait && PcOf(s', t) == CvWait
      && (Signalled(es[..|es| - 1], t) || s'.log == s.log + [PartnerAdded])
  }

  /** A thread is sent to wait only while no partner is up, and one that stays there learns of
      every addition. */
  lemma WaitStep(s: State, e: Event, t: nat)
    requires WaitInv(s, t) && PcOf(Apply(s, e), t) == CvWait && Apply(s, e).partnerUp
    ensures PcOf(s, t) == CvWait && (s.partnerUp || Apply(s, e).log == s.log + [PartnerAdded])
  {
    if e.Step? {
      StepPlaces(s, e.thread, e.choice, t);
      StepPlaces(s, e.thread, e.choice, e.thread);
    }
  }

  lemma {:induction false} UpMeansSignalled(es: seq<Event>, t: nat)
    requires PcOf(Run(es), t) == CvWait && Run(es).partnerUp
    ensures Signalled(es, t)
  {
    if es != [] {
      var before := es[..|es| - 1];
      RunKeeps(before);
      assert WaitInv(Run(before), t);
      WaitStep(Run(before), es[|es| - 1], t);
      if Run(before).partnerUp {
        UpMeansSignalled(before, t);
      }
    }
  }

  /** What a worker that holds the role-switch lock does to a port: it resets the ports without a
      partner, as many as there are, and lets go of the lock. */
  lemma WorkerResets(es: seq<Event>, w: nat, c: Choice)
    requires PcOf(Run(es), w) == WorkHasRole
    ensures var s, t := Run(es), Run(es + [Step(w, c)]);
      && t.log == s.log + (if c == WritePort then [CalledDrp(w)] else [])
      && PcOf(t, w) == (if c == WritePort then WorkHasRole else WorkIdle)
      && (RoleSwitch in t.held <==> c == WritePort)
  {
    RunSnoc(es, Step(w, c));
    LocksExcludeEachOther(es);
    assert HeldAt(At(Run(es).pc, w)) == HeldBy(Run(es).held, w);
    StepPlaces(Run(es), w, c, w);
  }

  /** No wake-up is lost: whenever a partner-add event has been processed since a waiting thread's
      write, that thread has been signalled. */
  lemma {:induction false} NoLostWakeup(es: seq<Event>, t: nat)
    requires PcOf(Run(es), t) == CvWait
    ensures var s := Run(es);
      && s.wrote < |s.log| && s.log[s.wrote] == WroteType(t)
      && ((exists k :: s.wrote < k < |s.log| && s.log[k] == PartnerAdded) ==> Signalled(es, t))
  {
    RunKeeps(es);
    var s := Run(es);
    assert WaitInv(s, t);
    if s.partnerUp {
      UpMeansSignalled(es, t);
    }
  }

  // ---------------------------------------------------------------- a time-out that wins

  lemma SwitchCalled(s: State, t: nat)
    requires PcOf(s, t) == Idle
    ensures Apply(s, CallSwitchRole(t, true)) == s.(pc := s.pc[t := WantRole(true)])
  {}

  lemma GotRole(s: State, t: nat)
    requires PcOf(s, t) == WantRole(true) && RoleSwitch !in s.held
    ensures StepOf(s, t, Plain) ==
      s.(pc := s.pc[t := HasRole(true)], held := s.held[RoleSwitch := t], log := s.log + [Began(t, true)])
  {}

  lemma SwitchStarts(es: seq<Event>, t: nat) returns (fs: seq<Event>)
    requires PcOf(Run(es), t) == Idle && RoleSwitch !in Run(es).held
    ensures var s, s' := Run(es), Run(fs);
      && s'.pc == s.pc[t := HasRole(true)] && s'.held == s.held[RoleSwitch := t] && s'.log == s.log + [Began(t, true)]
  {
    RunSnoc(es, CallSwitchRole(t, true));
    SwitchCalled(Run(es), t);
    fs := es + [CallSwitchRole(t, true)];
    RunSnoc(fs, Step(t, Plain));
    GotRole(Run(fs), t);
    fs := fs + [Step(t, Plain)];
    assert Run(es).pc[t := WantRole(true)][t := HasRole(true)] == Run(es).pc[t := HasRole(true)];
  }

  lemma SwitchClears(es: seq<Event>, t: nat) returns (fs: seq<Event>)
    requires PcOf(Run(es), t) == HasRole(true) && Partner !in Run(es).held
    ensures var s, s' := Run(es), Run(fs);
      && s'.pc == s.pc[t := MustWrite] && s'.held == s.held[Partner := t] && s'.log == s.log + [Cleared(t)]
  {
    RunSnoc(es, Step(t, Plain));
    fs := es + [Step(t, Plain)];
    assert PcOf(Run(fs), t) == WantPartner && Run(fs).held == Run(es).held;
    RunSnoc(fs, Step(t, Plain));
    fs := fs + [Step(t, Plain)];
    assert Run(es).pc[t := WantPartner][t := MustWrite] == Run(es).pc[t := MustWrite];
  }

  lemma SwitchWritesAndTimesOut(es: seq<Event>, t: nat) returns (fs: seq<Event>)
    requires PcOf(Run(es), t) == MustWrite
    ensures var s, s' := Run(es), Run(fs);
      && s'.pc == s.pc[t := WantPartnerAgain(true)] && s'.held == s.held - {Partner} && s'.log == s.log + [WroteType(t)]
  {
    RunSnoc(es, Step(t, Plain));
    fs := es + [Step(t, Plain)];
    RunSnoc(fs, Step(t, TimeOut));
    fs := fs + [Step(t, TimeOut)];
    assert Run(es).pc[t := CvWait][t := WantPartnerAgain(true)] == Run(es).pc[t := WantPartnerAgain(true)];
  }

  lemma GotMessage(s: State, w: nat)
    requires PcOf(s, w) == WorkIdle
    ensures StepOf(s, w, PartnerMsg) == s.(pc := s.pc[w := WorkWantPartner])
  {}

  lemma AddsPartner(s: State, w: nat)
    requires PcOf(s, w) == WorkWantPartner && Partner !in s.held
    ensures StepOf(s, w, Plain) == s.(pc := s.pc[w := WorkHasPartner], held := s.held[Partner := w],
                                      partnerUp := true, log := s.log + [PartnerAdded])
  {}

  lemma WorkerAdds(es: seq<Event>, w: nat) returns (fs: seq<Event>)
    requires PcOf(Run(es), w) == WorkIdle && Partner !in Run(es).held
    ensures var s, s' := Run(es), Run(fs);
      && s'.pc == s.pc[w := WorkHasPartner] && s'.held == s.held[Partner := w] && s'.partnerUp
      && s'.log == s.log + [PartnerAdded]
  {
    RunSnoc(es, Step(w, PartnerMsg));
    GotMessage(Run(es), w);
    fs := es + [Step(w, PartnerMsg)];
    RunSnoc(fs, Step(w, Plain));
    AddsPartner(Run(fs), w);
    fs := fs + [Step(w, Plain)];
    assert Run(es).pc[w := WorkWantPartner][w := WorkHasPartner] == Run(es).pc[w := WorkHasPartner];
  }

  lemma WorkerLeaves(es: seq<Event>, w: nat) returns (fs: seq<Event>)
    requires PcOf(Run(es), w) == WorkHasPartner
    ensures var s, s' := Run(es), Run(fs);
      && s'.pc == s.pc[w := WorkIdle] && s'.held == s.held - {Partner} && s'.partnerUp == s.partnerUp && s'.log == s.log
  {
    RunSnoc(es, Step(w, Plain));
    fs := es + [Step(w, Plain)];
  }

  lemma SwitchGivesUp(es: seq<Event>, t: nat) returns (fs: seq<Event>)
    requires PcOf(Run(es), t) == WantPartnerAgain(true) && Partner !in Run(es).held
    ensures var s, s' := Run(es), Run(fs);
      PcOf(s', t) == WriteDual && s'.partnerUp == s.partnerUp && s'.log == s.log
  {
    RunSnoc(es, Step(t, Plain));
    fs := es + [Step(t, Plain)];
    assert PcOf(Run(fs), t) == LeavePartner(false);
    RunSnoc(fs, Step(t, Plain));
    fs := fs + [Step(t, Plain)];
  }

  lemma WorkerThere() returns (es: seq<Event>)
    ensures var s := Run(es);
      && PcOf(s, 1) == Idle && PcOf(s, 3) == WorkIdle && s.held == map[] && s.log == []
  {
    es := CallCreates([], 2, 3);
  }

  lemma AboutToWrite() returns (es: seq<Event>)
    ensures var s := Run(es);
      && PcOf(s, 1) == MustWrite && PcOf(s, 3) == WorkIdle && s.log == [Began(1, true), Cleared(1)]
  {
    es := WorkerThere();
    es := SwitchStarts(es, 1);
    es := SwitchClears(es, 1);
  }

  lemma TimedOutUnnoticed() returns (es: seq<Event>)
    ensures var s := Run(es);
      && PcOf(s, 1) == WantPartnerAgain(true) && PcOf(s, 3) == WorkIdle && Partner !in s.held
      && s.log == [Began(1, true), Cleared(1), WroteType(1)]
  {
    es := AboutToWrite();
    es := SwitchWritesAndTimesOut(es, 1);
  }

  /** A time-out can win over an event that came before it was reported: the partner is up, it was
      added after the role was written, and switchMode still writes "dual" and returns false. */
  lemma TimeOutLosesPartner() returns (es: seq<Event>)
    ensures var s := Run(es);
      && s.log == [Began(1, true), Cleared(1), WroteType(1), PartnerAdded, CalledDrp(1), Returned(1, false)]
      && s.partnerUp
  {
    es := TimedOutUnnoticed();
    es := WorkerAdds(es, 3);
    es := WorkerLeaves(es, 3);
    es := SwitchGivesUp(es, 1);
    RunSnoc(es, Step(1, Plain));
    es := es + [Step(1, Plain)];
  }
}
