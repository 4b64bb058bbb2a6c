/** The life of the USB HAL's worker thread across setCallback calls, which let go of the callback
    lock before they stop and join the worker. */
module UsbCallback {
  import opened UsbProtocol

  ghost predicate Kills(s: State, t: nat) {
    PcOf(s, t) == SetKill
  }

  ghost predicate Joins(s: State, t: nat, w: nat) {
    PcOf(s, t) == SetJoin(w)
  }

  ghost predicate SomeJoin(s: State, w: nat) {
    exists t: nat :: Joins(s, t, w)
  }

  /** Some thread will still stop or replace the current worker. */
  ghost predicate PollPending(s: State) {
    s.callback || exists t: nat :: Kills(s, t)
  }

  /** As long as no worker replaced one that was about to be stopped: at most one call is about to
      stop the worker, none while a callback is set; the unjoined workers are the current one, while
      a callback is set or a call is about to stop it, and those being joined. */
  ghost predicate Orderly(s: State) {
    && (forall t: nat, u: nat :: Kills(s, t) && Kills(s, u) ==> t == u)
    && (forall t: nat :: Kills(s, t) ==> !s.callback)
    && (forall w :: w in s.unjoined <==> (w == s.poll && PollPending(s)) || SomeJoin(s, w))
    && (PollPending(s) ==> !SomeJoin(s, s.poll))
    && (forall t: nat, u: nat, w :: Joins(s, t, w) && Joins(s, u, w) ==> t == u)
  }

  /** A worker nobody will ever join: unjoined, not being joined, and no longer the current one. */
  ghost predicate LostWorker(s: State, w: nat) {
    w in s.unjoined && w != s.poll && !SomeJoin(s, w)
  }

  ghost predicate Known(s: State) {
    forall w :: w in s.unjoined ==> w in s.pc
  }

  // ---------------------------------------------------------------- steps

  predicate Tears(pc: Pc) {
    pc.SetHasCb? || pc == SetKill || pc.SetJoin?
  }

  predicate SamePlace(before: Pc, after: Pc) {
    after == before || (before == Idle && after == WorkIdle)
  }

  lemma OtherPlace(s: State, t: nat, c: Choice, u: nat)
    requires u != t
    ensures SamePlace(PcOf(s, u), PcOf(StepOf(s, t, c), u))
  {
    StepPlaces(s, t, c, u);
  }

  lemma TeardownElsewhere(s: State, s': State, t: nat)
    requires forall u: nat :: u != t ==> SamePlace(PcOf(s, u), PcOf(s', u))
    ensures forall u: nat :: u != t ==> (Kills(s', u) <==> Kills(s, u))
    ensures forall u: nat, w :: u != t ==> (Joins(s', u, w) <==> Joins(s, u, w))
  {}

  /** Other threads' stops and joins are unaffected by a step of t. */
  lemma OthersTeardown(s: State, t: nat, c: Choice)
    ensures forall u: nat :: u != t ==> (Kills(StepOf(s, t, c), u) <==> Kills(s, u))
    ensures forall u: nat, w :: u != t ==> (Joins(StepOf(s, t, c), u, w) <==> Joins(s, u, w))
  {
    forall u: nat | u != t ensures SamePlace(PcOf(s, u), PcOf(StepOf(s, t, c), u)) {
      OtherPlace(s, t, c, u);
    }
    TeardownElsewhere(s, StepOf(s, t, c), t);
  }

  lemma OwnTeardown(s: State, pc: Pc, c: Choice)
    requires !Tears(pc)
    ensures !Tears(Target(pc, OpOf(s, pc, c))) || Target(pc, OpOf(s, pc, c)).SetHasCb?
    ensures Registration(s, pc, c) == s
  {}

  /** A step that neither stops, joins nor registers keeps the picture as it is. */
  lemma SamePicture(s: State, s': State)
    requires Orderly(s)
    requires forall u: nat :: Kills(s', u) <==> Kills(s, u)
    requires forall u: nat, w :: Joins(s', u, w) <==> Joins(s, u, w)
    requires s'.callback == s.callback && s'.poll == s.poll && s'.unjoined == s.unjoined
    ensures Orderly(s')
  {
    forall w ensures SomeJoin(s', w) <==> SomeJoin(s, w) {
      if t: nat :| Joins(s, t, w) { assert Joins(s', t, w); }
      if t: nat :| Joins(s', t, w) { assert Joins(s, t, w); }
    }
    if t: nat :| Kills(s, t) { assert Kills(s', t); }
    if t: nat :| Kills(s', t) { assert Kills(s, t); }
  }

  lemma SameLost(s: State, s': State, t: nat, w: nat)
    requires LostWorker(s, w) && w in s'.unjoined && w != s'.poll
    requires forall u: nat :: u != t ==> (Joins(s', u, w) <==> Joins(s, u, w))
    requires !Joins(s', t, w)
    ensures LostWorker(s', w)
  {
    forall u: nat ensures !Joins(s', u, w) {
      assert !Joins(s, u, w);
    }
  }

  lemma UnregisterKeeps(s: State, t: nat, c: Choice)
    requires Orderly(s) && PcOf(s, t) == SetHasCb(false) && s.callback
    ensures Orderly(StepOf(s, t, c))
  {
    var s' := StepOf(s, t, c);
    StepPlaces(s, t, c, t);
    StepFields(s, t, c);
    OthersTeardown(s, t, c);
    assert Kills(s', t);
    assert PollPending(s) && PollPending(s');
    forall w ensures SomeJoin(s', w) <==> SomeJoin(s, w) {
      if u: nat :| Joins(s, u, w) { assert Joins(s', u, w); }
      if u: nat :| Joins(s', u, w) { assert Joins(s, u, w); }
    }
  }

  lemma CreateKeeps(s: State, t: nat, c: Choice)
    requires Orderly(s) && Known(s) && Creates(s, PcOf(s, t), c) && !PollPending(s)
    ensures Orderly(StepOf(s, t, c))
  {
    var s' := StepOf(s, t, c);
    StepPlaces(s, t, c, t);
    StepFields(s, t, c);
    OthersTeardown(s, t, c);
    forall w ensures SomeJoin(s', w) <==> SomeJoin(s, w) {
      if u: nat :| Joins(s, u, w) { assert Joins(s', u, w); }
      if u: nat :| Joins(s', u, w) { assert Joins(s, u, w); }
    }
    assert c.worker !in s.unjoined;
    forall u: nat ensures !Kills(s', u) {
      assert !Kills(s, u);
    }
  }

  lemma KillKeeps(s: State, t: nat, c: Choice)
    requires Orderly(s) && Kills(s, t)
    ensures Orderly(StepOf(s, t, c))
  {
    var s' := StepOf(s, t, c);
    assert PollPending(s);
    StepPlaces(s, t, c, t);
    StepFields(s, t, c);
    OthersTeardown(s, t, c);
    assert Joins(s', t, s.poll);
    forall w ensures SomeJoin(s', w) <==> w == s.poll || SomeJoin(s, w) {
      if u: nat :| Joins(s, u, w) { assert Joins(s', u, w); }
      if u: nat :| Joins(s', u, w) { assert u == t || Joins(s, u, w); }
    }
    forall u: nat ensures !Kills(s', u) {
      assert u != t ==> !Kills(s, u);
    }
    forall u: nat, w | u != t && Joins(s', u, w) ensures w != s.poll {
      assert Joins(s, u, w);
    }
  }

  lemma JoinedFields(s: State, c: Choice, w: nat)
    requires PcOf(s, w) == WorkExited
    ensures Registration(s, SetJoin(w), c) == s.(unjoined := s.unjoined - {w})
    ensures OpOf(s, SetJoin(w), c) == Go(Idle)
  {}

  lemma JoinKeeps(s: State, t: nat, c: Choice, w: nat)
    requires Orderly(s) && Joins(s, t, w) && PcOf(s, w) == WorkExited
    ensures Orderly(StepOf(s, t, c))
  {
    var s' := StepOf(s, t, c);
    JoinedFields(s, c, w);
    StepPlaces(s, t, c, t);
    StepFields(s, t, c);
    OthersTeardown(s, t, c);
    assert SomeJoin(s, w);
    forall x ensures SomeJoin(s', x) <==> x != w && SomeJoin(s, x) {
      if u: nat :| Joins(s', u, x) { assert Joins(s, u, x); }
      if u: nat :| Joins(s, u, x) && x != w { assert Joins(s', u, x); }
    }
    if u: nat :| Kills(s, u) { assert Kills(s', u); }
    if u: nat :| Kills(s', u) { assert Kills(s, u); }
  }

  lemma QuietStepKeeps(s: State, t: nat, c: Choice)
    requires Orderly(s)
    requires var pc := PcOf(s, t);
      && !Creates(s, pc, c) && !(pc == SetHasCb(false) && s.callback) && pc != SetKill
      && !(pc.SetJoin? && PcOf(s, pc.worker) == WorkExited)
    ensures Orderly(StepOf(s, t, c))
  {
    var pc := PcOf(s, t);
    StepPlaces(s, t, c, t);
    StepFields(s, t, c);
    OthersTeardown(s, t, c);
    if !Tears(pc) { OwnTeardown(s, pc, c); }
    SamePicture(s, StepOf(s, t, c));
  }

  lemma StepKeepsOrder(s: State, t: nat, c: Choice)
    requires Orderly(s) && Known(s) && !StepOf(s, t, c).replaced
    ensures Orderly(StepOf(s, t, c))
  {
    var pc := PcOf(s, t);
    if Creates(s, pc, c) {
      StepFields(s, t, c);
      forall u: nat ensures !Kills(s, u) {}
      CreateKeeps(s, t, c);
    } else if pc == SetHasCb(false) && s.callback {
      UnregisterKeeps(s, t, c);
    } else if pc == SetKill {
      KillKeeps(s, t, c);
    } else if pc.SetJoin? && PcOf(s, pc.worker) == WorkExited {
      JoinKeeps(s, t, c, pc.worker);
    } else {
      QuietStepKeeps(s, t, c);
    }
  }

  lemma CreatedFields(s: State, pc: Pc, c: Choice)
    requires Creates(s, pc, c)
    ensures var r := Registration(s, pc, c); r.unjoined == s.unjoined + {c.worker} && r.poll == c.worker
  {}

  /** Creating a worker while another call is about to stop the current one loses the latter. */
  lemma ReplacedLosesWorker(s: State, t: nat, c: Choice)
    requires Orderly(s) && Known(s) && Creates(s, PcOf(s, t), c) && SomeoneKills(s)
    ensures LostWorker(StepOf(s, t, c), s.poll)
  {
    var s' := StepOf(s, t, c);
    assert s.poll in s.unjoined && !SomeJoin(s, s.poll) by {
      var k :| k in s.pc && s.pc[k] == SetKill;
      assert Kills(s, k);
    }
    CreatedFields(s, PcOf(s, t), c);
    StepFields(s, t, c);
    OthersTeardown(s, t, c);
    StepPlaces(s, t, c, t);
    forall u: nat ensures !Joins(s', u, s.poll) {
      assert !Joins(s, u, s.poll);
    }
  }

  lemma RegistrationKeepsLost(s: State, pc: Pc, c: Choice, w: nat)
    requires w in s.unjoined && w != s.poll && w in s.pc && pc != SetJoin(w)
    ensures w in Registration(s, pc, c).unjoined && w != Registration(s, pc, c).poll
  {}

  lemma JoinTarget(s: State, pc: Pc, c: Choice, w: nat)
    requires w != s.poll && pc != SetJoin(w)
    ensures Target(pc, OpOf(s, pc, c)) != SetJoin(w)
  {}

  lemma LostStaysLost(s: State, t: nat, c: Choice, w: nat)
    requires LostWorker(s, w) && Known(s)
    ensures LostWorker(StepOf(s, t, c), w)
  {
    var pc := PcOf(s, t);
    assert !Joins(s, t, w);
    RegistrationKeepsLost(s, pc, c, w);
    JoinTarget(s, pc, c, w);
    StepPlaces(s, t, c, t);
    StepFields(s, t, c);
    OthersTeardown(s, t, c);
    SameLost(s, StepOf(s, t, c), t, w);
  }

  lemma StepKeepsKnown(s: State, t: nat, c: Choice)
    requires Known(s)
    ensures Known(StepOf(s, t, c))
  {
    StepFields(s, t, c);
    RegistrationUnjoined(s, PcOf(s, t), c);
  }

  // ---------------------------------------------------------------- runs

  ghost predicate Inv(s: State) {
    Known(s) && if s.replaced then exists w :: LostWorker(s, w) else Orderly(s)
  }

  lemma LostStepKeeps(s: State, t: nat, c: Choice)
    requires Known(s) && s.replaced && exists w :: LostWorker(s, w)
    ensures StepOf(s, t, c).replaced && exists w :: LostWorker(StepOf(s, t, c), w)
  {
    var w :| LostWorker(s, w);
    assert StepOf(s, t, c).replaced by { StepFields(s, t, c); }
    LostStaysLost(s, t, c, w);
  }

  lemma RegistrationReplaced(s: State, pc: Pc, c: Choice)
    requires !s.replaced && Registration(s, pc, c).replaced
    ensures Creates(s, pc, c) && SomeoneKills(s)
  {}

  lemma ReplacedWhen(s: State, t: nat, c: Choice)
    requires !s.replaced && StepOf(s, t, c).replaced
    ensures Creates(s, PcOf(s, t), c) && SomeoneKills(s)
  {
    assert Registration(s, PcOf(s, t), c).replaced by { StepFields(s, t, c); }
    RegistrationReplaced(s, PcOf(s, t), c);
  }

  lemma OrderlyStepKeeps(s: State, t: nat, c: Choice)
    requires Known(s) && !s.replaced && Orderly(s)
    ensures var s' := StepOf(s, t, c);
      if s'.replaced then exists w :: LostWorker(s', w) else Orderly(s')
  {
    if StepOf(s, t, c).replaced {
      ReplacedWhen(s, t, c);
      ReplacedLosesWorker(s, t, c);
    } else {
      StepKeepsOrder(s, t, c);
    }
  }

  lemma StepKeeps(s: State, t: nat, c: Choice)
    requires Inv(s)
    ensures Inv(StepOf(s, t, c))
  {
    assert Known(StepOf(s, t, c)) by { StepKeepsKnown(s, t, c); }
    if s.replaced {
      LostStepKeeps(s, t, c);
    } else {
      OrderlyStepKeeps(s, t, c);
    }
  }

  lemma CallTeardown(s: State, e: Event)
    requires !e.Step?
    ensures forall u: nat :: Kills(Apply(s, e), u) <==> Kills(s, u)
    ensures forall u: nat, w :: Joins(Apply(s, e), u, w) <==> Joins(s, u, w)
  {
    var s' := Apply(s, e);
    forall u: nat ensures Kills(s', u) <==> Kills(s, u) { CallPlace(s, e, u); }
    forall u: nat, w ensures Joins(s', u, w) <==> Joins(s, u, w) { CallPlace(s, e, u); }
  }

  lemma CallKeepsKnown(s: State, e: Event)
    requires Known(s) && !e.Step?
    ensures Known(Apply(s, e))
  {}

  lemma CallKeeps(s: State, e: Event)
    requires Inv(s) && !e.Step?
    ensures Inv(Apply(s, e))
  {
    CallKeepsKnown(s, e);
    CallFields(s, e);
    CallTeardown(s, e);
    if s.replaced {
      var w :| LostWorker(s, w);
      SameLost(s, Apply(s, e), e.thread, w);
    } else {
      SamePicture(s, Apply(s, e));
    }
  }

  lemma {:induction false} RunKeeps(es: seq<Event>)
    ensures Inv(Run(es))
  {
    if es != [] {
      RunKeeps(es[..|es| - 1]);
      var s, e := Run(es[..|es| - 1]), es[|es| - 1];
      if e.Step? { StepKeeps(s, e.thread, e.choice); } else { CallKeeps(s, e); }
    }
  }

  /** Whenever no setCallback is stopping or joining a worker, there is one worker created and not
      joined, the current one, if a callback is set and none otherwise - if and only if no worker
      was ever created between another call's unlock and its pthread_kill. */
  lemma OneWorkerIffNeverReplaced(es: seq<Event>)
    requires forall t: nat :: PcOf(Run(es), t) != SetKill && !PcOf(Run(es), t).SetJoin?
    ensures var s := Run(es);
      s.unjoined == (if s.callback then {s.poll} else {}) <==> !s.replaced
  {
    RunKeeps(es);
    var s := Run(es);
    if !s.replaced {
      forall t: nat ensures !Kills(s, t) {}
      forall w ensures !SomeJoin(s, w) {}
      assert s.unjoined == if s.callback then {s.poll} else {};
    }
  }

  // ---------------------------------------------------------------- the stop flag

  /** Every worker that a call waits for, and that has not exited, has been told to stop. */
  ghost predicate ToldToStop(s: State) {
    forall t: nat, w :: Joins(s, t, w) && PcOf(s, w) != WorkExited ==> s.destroy
  }

  lemma ExitedStays(s: State, t: nat, c: Choice, w: nat)
    requires PcOf(s, w) == WorkExited
    ensures PcOf(StepOf(s, t, c), w) == WorkExited
  {
    StepPlaces(s, t, c, w);
  }

  lemma StopFlag(s: State, pc: Pc, c: Choice)
    requires !Registration(s, pc, c).destroy && !Registration(s, pc, c).revived
    ensures pc == SetKill ==> s.poll !in s.unjoined
    ensures !s.destroy || (pc == SetHasCb(true) && !SomeoneJoins(s))
    ensures !s.revived
  {}

  lemma JoinedBefore(s: State, t: nat, c: Choice, u: nat, w: nat)
    requires Joins(StepOf(s, t, c), u, w) && (PcOf(s, t) == SetKill ==> s.poll !in s.unjoined)
    ensures Joins(s, u, w)
  {
    OthersTeardown(s, t, c);
    StepPlaces(s, t, c, t);
    if u == t && !Tears(PcOf(s, t)) { OwnTeardown(s, PcOf(s, t), c); }
  }

  lemma StepKeepsStop(s: State, t: nat, c: Choice)
    requires ToldToStop(s)
    ensures StepOf(s, t, c).revived || ToldToStop(StepOf(s, t, c))
  {
    var s' := StepOf(s, t, c);
    StepFields(s, t, c);
    if !s'.revived && !s'.destroy {
      StopFlag(s, PcOf(s, t), c);
      forall u: nat, w | Joins(s', u, w) ensures PcOf(s', w) == WorkExited {
        JoinedBefore(s, t, c, u, w);
        ExitedStays(s, t, c, w);
      }
    }
  }

  lemma CallKeepsRunning(s: State, e: Event, w: nat)
    requires !e.Step?
    ensures PcOf(s, w) == WorkExited <==> PcOf(Apply(s, e), w) == WorkExited
  {
    CallPlace(s, e, w);
  }

  lemma CallKeepsFlags(s: State, e: Event)
    requires !e.Step?
    ensures Apply(s, e).destroy == s.destroy && Apply(s, e).revived == s.revived
  {}

  lemma CallKeepsStop(s: State, e: Event)
    requires ToldToStop(s) && !e.Step?
    ensures ToldToStop(Apply(s, e))
  {
    var s' := Apply(s, e);
    CallTeardown(s, e);
    CallKeepsFlags(s, e);
    forall u: nat, w | Joins(s', u, w) && PcOf(s', w) != WorkExited ensures s'.destroy {
      CallKeepsRunning(s, e, w);
      assert Joins(s, u, w);
    }
  }

  lemma RevivedWhen(s: State, pc: Pc, c: Choice)
    requires !s.revived && Registration(s, pc, c).revived
    ensures pc == SetHasCb(true) && SomeoneJoins(s) && !Registration(s, pc, c).destroy
  {}

  lemma StillRunning(s: State, t: nat, c: Choice, w: nat)
    requires PcOf(s, t) == SetHasCb(true) && PcOf(s, w) != WorkExited
    ensures PcOf(StepOf(s, t, c), w) != WorkExited
  {
    if w != t {
      OtherPlace(s, t, c, w);
    }
  }

  /** The step that resets the stop flag while a call waits leaves that call waiting for a worker
      that has not been told to stop. */
  lemma RevivedStep(s: State, t: nat, c: Choice)
    requires !s.revived && StepOf(s, t, c).revived
    ensures !ToldToStop(StepOf(s, t, c))
  {
    var s' := StepOf(s, t, c);
    StepFields(s, t, c);
    RevivedWhen(s, PcOf(s, t), c);
    var u :| u in s.pc && s.pc[u].SetJoin? && PcOf(s, s.pc[u].worker) != WorkExited;
    var w := s.pc[u].worker;
    OtherPlace(s, t, c, u);
    StillRunning(s, t, c, w);
    assert Joins(s', u, w);
  }

  lemma RevivedStays(s: State, e: Event)
    requires s.revived
    ensures Apply(s, e).revived
  {
    if e.Step? { StepFields(s, e.thread, e.choice); }
  }

  /** After the run, and after everything that led to it, all joined workers were told to stop. */
  ghost predicate AlwaysTold(es: seq<Event>) {
    ToldToStop(Run(es)) && (es != [] ==> AlwaysTold(es[..|es| - 1]))
  }

  lemma ApplyToldUnlessRevived(s: State, e: Event)
    requires !s.revived && ToldToStop(s)
    ensures ToldToStop(Apply(s, e)) <==> !Apply(s, e).revived
  {
    if e.Step? {
      StepKeepsStop(s, e.thread, e.choice);
      if Apply(s, e).revived { RevivedStep(s, e.thread, e.choice); }
    } else {
      CallKeepsFlags(s, e);
      CallKeepsStop(s, e);
    }
  }

  /** Every worker a call waits for has been told to stop at every moment of a run if and only if
      the stop flag was never reset for a new worker while some call waited for an old one. */
  lemma {:induction false} JoinedWorkerToldToStop(es: seq<Event>)
    ensures AlwaysTold(es) <==> !Run(es).revived
  {
    if es != [] {
      var s := Run(es[..|es| - 1]);
      JoinedWorkerToldToStop(es[..|es| - 1]);
      if s.revived {
        RevivedStays(s, es[|es| - 1]);
      } else {
        ApplyToldUnlessRevived(s, es[|es| - 1]);
      }
    }
  }

  // ---------------------------------------------------------------- the worker's end

  lemma IdleTarget(s: State)
    ensures Target(WorkIdle, OpOf(s, WorkIdle, Plain)) == if s.destroy then WorkExited else WorkIdle
  {}

  /** An idle worker leaves its loop, the epoll call not failing and no event being there, if and only
      if it has been told to stop. */
  lemma IdleLeavesIffTold(es: seq<Event>, w: nat)
    requires PcOf(Run(es), w) == WorkIdle
    ensures PcOf(Run(es + [Step(w, Plain)]), w) == if Run(es).destroy then WorkExited else WorkIdle
  {
    RunSnoc(es, Step(w, Plain));
    IdleTarget(Run(es));
    StepPlaces(Run(es), w, Plain, w);
  }

  lemma JoinEnds(es: seq<Event>, t: nat, w: nat)
    requires PcOf(Run(es), t) == SetJoin(w) && PcOf(Run(es), w) == WorkExited
    ensures var s := Run(es + [Step(t, Plain)]);
      PcOf(s, t) == Idle && s.unjoined == Run(es).unjoined - {w}
  {
    RunSnoc(es, Step(t, Plain));
    JoinedFields(Run(es), Plain, w);
    StepPlaces(Run(es), t, Plain, t);
    StepFields(Run(es), t, Plain);
  }

  /** Once told, an idle worker and the call that waits for it are one step each from the end. */
  lemma ToldWorkerIsJoined(es: seq<Event>, t: nat, w: nat)
    requires PcOf(Run(es), t) == SetJoin(w) && PcOf(Run(es), w) == WorkIdle && Run(es).destroy
    ensures var s := Run(es + [Step(w, Plain)] + [Step(t, Plain)]);
      PcOf(s, t) == Idle && PcOf(s, w) == WorkExited && w !in s.unjoined
  {
    var told := es + [Step(w, Plain)];
    IdleLeavesIffTold(es, w);
    RunSnoc(es, Step(w, Plain));
    StepPlaces(Run(es), w, Plain, t);
    JoinEnds(told, t, w);
    RunSnoc(told, Step(t, Plain));
    StepPlaces(Run(told), t, Plain, w);
  }

  /** How many steps a worker is from its end at most, once told to stop. */
  function StepsLeft(pc: Pc): nat {
    match pc
    case WorkIdle => 1
    case WorkHasPartner => 2
    case WorkHasRole => 2
    case WorkWantPartner => 3
    case WorkTryRole => 3
    case WorkHasCb => 4
    case WorkWantCb => 5
    case _ => 0
  }

  lemma WindsDown(s: State, pc: Pc)
    requires s.destroy && PartOf(pc) == Work && pc != WorkExited
    requires pc == WorkWantPartner ==> Partner !in s.held
    requires pc == WorkWantCb ==> Callback !in s.held
    ensures var to := Target(pc, OpOf(s, pc, Plain)); PartOf(to) == Work && StepsLeft(to) < StepsLeft(pc)
    ensures Registration(s, pc, Plain) == s
  {}

  lemma WorkerHolds(s: State, w: nat, l: Lock)
    requires LockInv(s) && (forall l :: l in s.held ==> s.held[l] == w) && !Has(HeldAt(PcOf(s, w)), l)
    ensures l !in s.held
  {
    assert HeldAt(At(s.pc, w)) == HeldBy(s.held, w);
  }

  lemma HeldAfter(s: State, w: nat, op: Op)
    requires (forall l :: l in s.held ==> s.held[l] == w)
    ensures forall l :: l in Moved(s, w, op).held ==> Moved(s, w, op).held[l] == w
  {}

  /** A call waits for a worker told to stop, and no other thread holds a mutex. */
  ghost predicate Stopping(s: State, t: nat, w: nat) {
    && PcOf(s, t) == SetJoin(w) && PartOf(PcOf(s, w)) == Work && s.destroy
    && forall l :: l in s.held ==> s.held[l] == w
  }

  lemma StepHeld(s: State, w: nat, c: Choice)
    ensures StepOf(s, w, c).held == Moved(Registration(s, PcOf(s, w), c), w, OpOf(s, PcOf(s, w), c)).held
  {}

  lemma OneStepDown(s: State, t: nat, w: nat)
    requires Stopping(s, t, w) && LockInv(s) && PcOf(s, w) != WorkExited
    ensures Stopping(StepOf(s, w, Plain), t, w)
    ensures StepsLeft(PcOf(StepOf(s, w, Plain), w)) < StepsLeft(PcOf(s, w))
  {
    var pc := PcOf(s, w);
    if pc == WorkWantPartner { WorkerHolds(s, w, Partner); }
    if pc == WorkWantCb { WorkerHolds(s, w, Callback); }
    WindsDown(s, pc);
    StepPlaces(s, w, Plain, w);
    StepPlaces(s, w, Plain, t);
    StepFields(s, w, Plain);
    StepHeld(s, w, Plain);
    HeldAfter(s, w, OpOf(s, pc, Plain));
  }

  lemma NextDown(es: seq<Event>, t: nat, w: nat)
    requires Stopping(Run(es), t, w) && PcOf(Run(es), w) != WorkExited
    ensures Stopping(Run(es + [Step(w, Plain)]), t, w)
    ensures StepsLeft(PcOf(Run(es + [Step(w, Plain)]), w)) < StepsLeft(PcOf(Run(es), w))
  {
    LocksExcludeEachOther(es);
    OneStepDown(Run(es), t, w);
    RunSnoc(es, Step(w, Plain));
  }

  ghost predicate StepsOf(fs: seq<Event>, w: nat) {
    forall k :: 0 <= k < |fs| ==> fs[k] == Step(w, Plain)
  }

  ghost predicate WoundUp(es: seq<Event>, t: nat, w: nat) {
    Stopping(Run(es), t, w) && PcOf(Run(es), w) == WorkExited
  }

  /** A worker told to stop is at its end after some number of its own steps, at most five. */
  lemma {:induction false} WindsUp(es: seq<Event>, t: nat, w: nat) returns (fs: seq<Event>)
    requires Stopping(Run(es), t, w)
    ensures |fs| <= StepsLeft(PcOf(Run(es), w)) && StepsOf(fs, w)
    ensures WoundUp(es + fs, t, w)
    decreases StepsLeft(PcOf(Run(es), w))
  {
    if PcOf(Run(es), w) == WorkExited {
      fs := [];
      assert es + fs == es;
    } else {
      var next := es + [Step(w, Plain)];
      NextDown(es, t, w);
      var rest := WindsUp(next, t, w);
      fs := [Step(w, Plain)] + rest;
      assert es + fs == next + rest;
    }
  }

  /** A stop comes to its end: with no other thread holding a mutex, steps of the worker alone, at
      most five, and one of the call complete the join of a worker told to stop, wherever it is. */
  lemma StopEnds(es: seq<Event>, t: nat, w: nat) returns (fs: seq<Event>)
    requires Stopping(Run(es), t, w)
    ensures |fs| <= StepsLeft(PcOf(Run(es), w)) && StepsOf(fs, w)
    ensures var s := Run(es + fs + [Step(t, Plain)]); PcOf(s, t) == Idle && w !in s.unjoined
  {
    fs := WindsUp(es, t, w);
    JoinEnds(es + fs, t, w);
  }

  // ---------------------------------------------------------------- one call at a time

  predicate Setting(pc: Pc) {
    pc.SetWantCb? || pc.SetHasCb? || pc == SetKill || pc.SetJoin?
  }

  ghost predicate OneSetter(s: State) {
    forall t: nat, u: nat :: Setting(PcOf(s, t)) && Setting(PcOf(s, u)) ==> t == u
  }

  /** At every moment of a run at most one thread is in setCallback, as when the service has only one
      thread for its calls. */
  ghost predicate Serial(es: seq<Event>) {
    OneSetter(Run(es)) && (es != [] ==> Serial(es[..|es| - 1]))
  }

  lemma OneSetterKeepsFlags(s: State, e: Event)
    requires OneSetter(s) && !s.replaced && !s.revived
    ensures !Apply(s, e).replaced && !Apply(s, e).revived
  {
    if e.Step? {
      var t, c := e.thread, e.choice;
      StepFields(s, t, c);
      if StepOf(s, t, c).replaced {
        ReplacedWhen(s, t, c);
        var u :| u in s.pc && s.pc[u] == SetKill;
        assert Setting(PcOf(s, u)) && Setting(PcOf(s, t));
      }
      if StepOf(s, t, c).revived {
        RevivedWhen(s, PcOf(s, t), c);
        var u :| u in s.pc && s.pc[u].SetJoin? && PcOf(s, s.pc[u].worker) != WorkExited;
        assert Setting(PcOf(s, u)) && Setting(PcOf(s, t));
      }
    } else {
      CallFields(s, e);
      CallKeepsFlags(s, e);
    }
  }

  lemma {:induction false} SerialFlags(es: seq<Event>)
    requires Serial(es)
    ensures !Run(es).replaced && !Run(es).revived
  {
    if es != [] {
      SerialFlags(es[..|es| - 1]);
      OneSetterKeepsFlags(Run(es[..|es| - 1]), es[|es| - 1]);
    }
  }

  ghost predicate JoinsUnregistered(s: State) {
    forall t: nat, w :: Joins(s, t, w) ==> !s.callback
  }

  lemma CallbackAfter(s: State, pc: Pc, c: Choice)
    requires !s.callback && Registration(s, pc, c).callback
    ensures pc == SetHasCb(true)
  {}

  lemma JoinAfter(s: State, pc: Pc, c: Choice, w: nat)
    requires Target(pc, OpOf(s, pc, c)) == SetJoin(w)
    ensures pc == SetKill || pc == SetJoin(w)
    ensures Registration(s, pc, c).callback == s.callback
  {}

  lemma StepKeepsUnregistered(s: State, t: nat, c: Choice)
    requires JoinsUnregistered(s) && OneSetter(s) && Orderly(s)
    ensures JoinsUnregistered(StepOf(s, t, c))
  {
    var s' := StepOf(s, t, c);
    StepFields(s, t, c);
    OthersTeardown(s, t, c);
    StepPlaces(s, t, c, t);
    forall u: nat, w | Joins(s', u, w) ensures !s'.callback {
      if u == t {
        JoinAfter(s, PcOf(s, t), c, w);
        assert Kills(s, t) || Joins(s, t, w);
      } else {
        assert Joins(s, u, w) && Setting(PcOf(s, u));
        if s'.callback {
          CallbackAfter(s, PcOf(s, t), c);
        }
      }
    }
  }

  lemma {:induction false} SerialUnregistered(es: seq<Event>)
    requires Serial(es)
    ensures JoinsUnregistered(Run(es))
  {
    if es != [] {
      var s, e := Run(es[..|es| - 1]), es[|es| - 1];
      SerialUnregistered(es[..|es| - 1]);
      SerialFlags(es[..|es| - 1]);
      RunKeeps(es[..|es| - 1]);
      if e.Step? {
        StepKeepsUnregistered(s, e.thread, e.choice);
      } else {
        CallFields(s, e);
        CallTeardown(s, e);
      }
    }
  }

  /** While a call joins a worker nothing else is pending. */
  lemma OnlyJoin(s: State, t: nat, v: nat, w: nat)
    requires Orderly(s) && OneSetter(s) && JoinsUnregistered(s) && Joins(s, t, v) && w in s.unjoined
    ensures v == w
  {
    assert Setting(PcOf(s, t));
    assert SomeJoin(s, v);
    if SomeJoin(s, w) {
      var u: nat :| Joins(s, u, w);
      assert Setting(PcOf(s, u));
    } else {
      var u: nat :| Kills(s, u);
      assert Setting(PcOf(s, u));
    }
  }

  /** What a stop or a join under way leaves: the worker it is for and no other. */
  lemma OneWorkerAtMost(s: State, v: nat, w: nat)
    requires Orderly(s) && OneSetter(s) && JoinsUnregistered(s) && v in s.unjoined && w in s.unjoined
    ensures v == w
  {
    if SomeJoin(s, v) {
      var t: nat :| Joins(s, t, v);
      OnlyJoin(s, t, v, w);
    } else if SomeJoin(s, w) {
      var t: nat :| Joins(s, t, w);
      OnlyJoin(s, t, w, v);
    }
  }

  /** Calls of setCallback one at a time: whatever they are and whatever else runs, at most one worker
      is created and not joined; outside a stop or join it is the current one if a callback is set and
      there is none otherwise; and every worker a call waits for has been told to stop. */
  lemma SerialCallsKeepOneWorker(es: seq<Event>)
    requires Serial(es)
    ensures var s := Run(es);
      && (forall v, w :: v in s.unjoined && w in s.unjoined ==> v == w)
      && ((forall t: nat :: PcOf(s, t) != SetKill && !PcOf(s, t).SetJoin?) ==>
            s.unjoined == if s.callback then {s.poll} else {})
    ensures AlwaysTold(es)
  {
    SerialFlags(es);
    SerialUnregistered(es);
    RunKeeps(es);
    JoinedWorkerToldToStop(es);
    var s := Run(es);
    forall v, w | v in s.unjoined && w in s.unjoined ensures v == w {
      OneWorkerAtMost(s, v, w);
    }
    if forall t: nat :: PcOf(s, t) != SetKill && !PcOf(s, t).SetJoin? {
      OneWorkerIffNeverReplaced(es);
    }
  }

  // ---------------------------------------------------------------- two overlapping calls

  // Runs that a service with a second thread for its calls could take, and this one cannot.

  lemma UnregisterStep(s: State, t: nat)
    requires PcOf(s, t) == SetHasCb(false) && s.callback
    ensures StepOf(s, t, Plain) == s.(pc := s.pc[t := SetKill], held := s.held - {Callback}, callback := false)
  {}

  /** An unregistering call as far as its unlock. */
  lemma CallUnregisters(es: seq<Event>, t: nat) returns (fs: seq<Event>)
    requires PcOf(Run(es), t) == Idle && Callback !in Run(es).held && Run(es).callback
    ensures var s := Run(es);
      Run(fs) == s.(pc := s.pc[t := SetKill], callback := false)
  {
    var s := Run(es);
    fs := CallTakesLock(es, t, false);
    RunSnoc(fs, Step(t, Plain));
    assert PcOf(Run(fs), t) == SetHasCb(false);
    UnregisterStep(Run(fs), t);
    fs := fs + [Step(t, Plain)];
    assert s.held[Callback := t] - {Callback} == s.held;
    assert s.pc[t := SetHasCb(false)][t := SetKill] == s.pc[t := SetKill];
  }

  lemma CallKills(es: seq<Event>, t: nat) returns (fs: seq<Event>)
    requires PcOf(Run(es), t) == SetKill && Run(es).poll in Run(es).unjoined
    ensures var s := Run(es);
      Run(fs) == s.(pc := s.pc[t := SetJoin(s.poll)], destroy := true)
  {
    RunSnoc(es, Step(t, Plain));
    fs := es + [Step(t, Plain)];
  }

  lemma WorkerExits(es: seq<Event>, w: nat) returns (fs: seq<Event>)
    requires PcOf(Run(es), w) == WorkIdle && Run(es).destroy
    ensures Run(fs) == Run(es).(pc := Run(es).pc[w := WorkExited])
  {
    RunSnoc(es, Step(w, Plain));
    fs := es + [Step(w, Plain)];
  }

  lemma CallJoins(es: seq<Event>, t: nat, w: nat) returns (fs: seq<Event>)
    requires PcOf(Run(es), t) == SetJoin(w) && PcOf(Run(es), w) == WorkExited
    ensures var s := Run(es);
      Run(fs) == s.(pc := s.pc[t := Idle], unjoined := s.unjoined - {w})
  {
    RunSnoc(es, Step(t, Plain));
    fs := es + [Step(t, Plain)];
  }

  /** Thread 1 registers a callback, with worker 3, then unregisters it as far as the unlock. */
  lemma UnregisterUnderWay() returns (es: seq<Event>)
    ensures var s := Run(es);
      && s.pc == map[1 := SetKill, 3 := WorkIdle] && s.held == map[] && !s.callback
      && s.poll == 3 && s.unjoined == {3}
  {
    es := CallCreates([], 1, 3);
    es := CallUnregisters(es, 1);
  }

  /** A second call registers before the first one's pthread_kill. */
  lemma RegisterBeforeKill() returns (es: seq<Event>)
    ensures var s := Run(es);
      && s.pc == map[1 := SetKill, 2 := Idle, 3 := WorkIdle, 4 := WorkIdle] && s.callback
      && s.poll == 4 && s.unjoined == {3, 4}
  {
    es := UnregisterUnderWay();
    es := CallCreates(es, 2, 4);
  }

  /** The first call then stops the new worker. */
  lemma KillsNewWorker() returns (es: seq<Event>)
    ensures var s := Run(es);
      && s.pc == map[1 := SetJoin(4), 2 := Idle, 3 := WorkIdle, 4 := WorkExited] && s.callback
      && s.poll == 4 && s.unjoined == {3, 4}
  {
    es := RegisterBeforeKill();
    es := CallKills(es, 1);
    es := WorkerExits(es, 4);
  }

  /** If a second call registers before the first one's pthread_kill, the first stops and joins the
      new worker: a callback is set, the old worker is never joined, the new one is gone. */
  lemma OverlapStopsNewWorker() returns (es: seq<Event>)
    ensures var s := Run(es);
      && s.callback && s.poll == 4 && PcOf(s, 4) == WorkExited && s.unjoined == {3}
      && PcOf(s, 1) == PcOf(s, 2) == Idle
  {
    es := KillsNewWorker();
    es := CallJoins(es, 1, 4);
  }

  /** If it registers between the first one's pthread_kill and the old worker's look at the stop
      flag, the flag is reset and the first call waits for a worker that nothing tells to stop. */
  lemma OverlapRevivesOldWorker() returns (es: seq<Event>)
    ensures var s := Run(es);
      PcOf(s, 1) == SetJoin(3) && PcOf(s, 3) == WorkIdle && !s.destroy && s.poll == 4
  {
    es := UnregisterUnderWay();
    es := CallKills(es, 1);
    es := CallCreates(es, 2, 4);
  }
}
