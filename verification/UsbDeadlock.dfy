/** The USB HAL's mutexes and the join of its worker admit no wait cycle: every blocked thread is
    at most two waits away from one that can take a step. */
module UsbDeadlock {
  import opened UsbProtocol

  datatype Need = Nothing | Mutex(lock: Lock) | Exit(worker: nat)

  /** What a thread needs before it can go on. */
  function NeedOf(pc: Pc): Need {
    match pc
    case WantRole(_) => Mutex(RoleSwitch)
    case WantPartner | WantPartnerAgain(_) | WorkWantPartner => Mutex(Partner)
    case WantCb(_) | WorkWantCb | QueryWantCb | SetWantCb(_) => Mutex(Callback)
    case SetJoin(w) => Exit(w)
    case _ => Nothing
  }

  ghost predicate WaitsFor(s: State, t: nat, u: nat) {
    match NeedOf(PcOf(s, t))
    case Nothing => false
    case Mutex(l) => l in s.held && s.held[l] == u
    case Exit(w) => u == w && PcOf(s, w) != WorkExited
  }

  ghost predicate CanStep(s: State, t: nat) {
    exists c :: OpOf(s, PcOf(s, t), c) != Stay
  }

  /** How many waits may follow one another from a place. */
  function Depth(pc: Pc): nat {
    match NeedOf(pc)
    case Nothing => 0
    case Mutex(l) => if l == RoleSwitch then 2 else 1
    case Exit(_) => 2
  }

  /** The lock order: a holder of the role-switch lock waits for the other two at most, a holder of
      one of those for nothing, and the worker never blocks on the role-switch lock. */
  lemma LockOrder(pc: Pc)
    ensures HeldAt(pc).role ==> Depth(pc) <= 1
    ensures HeldAt(pc).partner || HeldAt(pc).cb ==> Depth(pc) == 0
    ensures PartOf(pc) == Work ==> Depth(pc) <= 1
  {}

  // ---------------------------------------------------------------- joined threads are workers

  ghost predicate WorkerInv(s: State) {
    && (forall w :: w in s.unjoined ==> PartOf(PcOf(s, w)) == Work)
    && (forall t: nat :: PcOf(s, t).SetJoin? ==> PartOf(PcOf(s, PcOf(s, t).worker)) == Work)
  }

  lemma WorkersStayWorkers(s: State, pc: Pc, c: Choice)
    ensures (PartOf(Target(pc, OpOf(s, pc, c))) == Work) <==> (PartOf(pc) == Work)
    ensures Target(pc, OpOf(s, pc, c)).SetJoin? ==>
      || Target(pc, OpOf(s, pc, c)) == pc
      || (Target(pc, OpOf(s, pc, c)) == SetJoin(s.poll) && s.poll in s.unjoined)
  {}

  lemma UnjoinedAfter(s: State, t: nat, c: Choice, w: nat)
    requires w in StepOf(s, t, c).unjoined
    ensures w in s.unjoined || (Creates(s, PcOf(s, t), c) && w == c.worker)
  {
    StepFields(s, t, c);
    RegistrationUnjoined(s, PcOf(s, t), c);
  }

  lemma StepKeepsPart(s: State, t: nat, c: Choice, w: nat)
    requires PartOf(PcOf(s, w)) == Work
    ensures PartOf(PcOf(StepOf(s, t, c), w)) == Work
  {
    StepPlaces(s, t, c, w);
    WorkersStayWorkers(s, PcOf(s, t), c);
  }

  lemma StepKeepsWorkers(s: State, t: nat, c: Choice)
    requires WorkerInv(s)
    ensures WorkerInv(StepOf(s, t, c))
  {
    var s' := StepOf(s, t, c);
    forall w | w in s'.unjoined ensures PartOf(PcOf(s', w)) == Work {
      UnjoinedAfter(s, t, c, w);
      StepPlaces(s, t, c, w);
      if w in s.unjoined { StepKeepsPart(s, t, c, w); }
    }
    forall u: nat | PcOf(s', u).SetJoin? ensures PartOf(PcOf(s', PcOf(s', u).worker)) == Work {
      StepPlaces(s, t, c, u);
      WorkersStayWorkers(s, PcOf(s, t), c);
      StepKeepsPart(s, t, c, PcOf(s', u).worker);
    }
  }

  lemma CallKeepsWorkers(s: State, e: Event)
    requires WorkerInv(s) && !e.Step?
    ensures WorkerInv(Apply(s, e))
  {
    var s' := Apply(s, e);
    CallFields(s, e);
    forall w | w in s'.unjoined ensures PartOf(PcOf(s', w)) == Work {
      CallPlace(s, e, w);
    }
    forall u: nat | PcOf(s', u).SetJoin? ensures PartOf(PcOf(s', PcOf(s', u).worker)) == Work {
      CallPlace(s, e, u);
      CallPlace(s, e, PcOf(s', u).worker);
    }
  }

  lemma {:induction false} RunKeeps(es: seq<Event>)
    ensures WorkerInv(Run(es))
  {
    if es != [] {
      RunKeeps(es[..|es| - 1]);
      var s, e := Run(es[..|es| - 1]), es[|es| - 1];
      if e.Step? { StepKeepsWorkers(s, e.thread, e.choice); } else { CallKeepsWorkers(s, e); }
    }
  }

  // ---------------------------------------------------------------- no wait cycle

  /** Whoever holds the mutex a thread waits for has less to wait for. */
  lemma HolderDescends(pc: Pc, l: Lock, holder: Pc)
    requires NeedOf(pc) == Mutex(l) && Has(HeldAt(holder), l)
    ensures Depth(holder) < Depth(pc) && holder !in {Idle, WorkExited}
  {
    LockOrder(holder);
  }

  lemma JoinedDescends(pc: Pc, w: nat, joined: Pc)
    requires NeedOf(pc) == Exit(w) && PartOf(joined) == Work && joined != WorkExited
    ensures Depth(joined) < Depth(pc) && joined !in {Idle, WorkExited}
  {
    LockOrder(joined);
  }

  /** Along a wait the depth decreases, and whoever is waited for is in flight. */
  lemma WaitDescends(es: seq<Event>, t: nat, u: nat)
    requires WaitsFor(Run(es), t, u)
    ensures Depth(PcOf(Run(es), u)) < Depth(PcOf(Run(es), t))
    ensures PcOf(Run(es), u) !in {Idle, WorkExited}
  {
    var s := Run(es);
    match NeedOf(PcOf(s, t))
    case Nothing =>
    case Mutex(l) =>
      LocksExcludeEachOther(es);
      assert HeldAt(At(s.pc, u)) == HeldBy(s.held, u);
      HolderDescends(PcOf(s, t), l, PcOf(s, u));
    case Exit(w) =>
      RunKeeps(es);
      JoinedDescends(PcOf(s, t), w, PcOf(s, u));
  }

  ghost predicate WaitPath(s: State, path: seq<nat>) {
    forall i :: 0 <= i < |path| - 1 ==> WaitsFor(s, path[i], path[i + 1])
  }

  lemma {:induction false} PathDescends(es: seq<Event>, path: seq<nat>)
    requires |path| >= 1 && WaitPath(Run(es), path)
    ensures Depth(PcOf(Run(es), path[0])) >= Depth(PcOf(Run(es), path[|path| - 1])) + |path| - 1
  {
    if |path| > 1 {
      var p := path[1..];
      forall i | 0 <= i < |p| - 1 ensures WaitsFor(Run(es), p[i], p[i + 1]) {
        assert WaitsFor(Run(es), path[i + 1], path[i + 2]);
      }
      PathDescends(es, p);
      WaitDescends(es, path[0], path[1]);
    }
  }

  /** In no reachable state do threads wait for one another in a cycle, and no chain of waits is
      longer than two. */
  lemma NoWaitCycle(es: seq<Event>, path: seq<nat>)
    requires |path| >= 2 && WaitPath(Run(es), path)
    ensures path[0] != path[|path| - 1] && |path| <= 3
  {
    PathDescends(es, path);
  }

  lemma FreeCanStep(s: State, pc: Pc)
    requires pc !in {Idle, WorkExited}
    requires NeedOf(pc).Mutex? ==> NeedOf(pc).lock !in s.held
    requires pc.SetJoin? ==> PcOf(s, pc.worker) == WorkExited
    ensures OpOf(s, pc, if pc == WorkIdle then PartnerMsg else if pc.SetHasCb? then Fail else Plain) != Stay
  {}

  lemma NotWaitingCanStep(s: State, t: nat)
    requires PcOf(s, t) !in {Idle, WorkExited} && forall u: nat :: !WaitsFor(s, t, u)
    ensures CanStep(s, t)
  {
    var pc := PcOf(s, t);
    if NeedOf(pc).Mutex? && NeedOf(pc).lock in s.held {
      assert WaitsFor(s, t, s.held[NeedOf(pc).lock]);
    }
    if pc.SetJoin? {
      assert !WaitsFor(s, t, pc.worker);
    }
    FreeCanStep(s, pc);
    var c := if pc == WorkIdle then PartnerMsg else if pc.SetHasCb? then Fail else Plain;
    assert OpOf(s, pc, c) != Stay;
  }

  /** Every thread that is in a call, and every worker that has not exited, can take a step or waits,
      directly or through one other thread, for a thread that can. */
  lemma SomeoneCanStep(es: seq<Event>, t: nat) returns (r: nat)
    requires PcOf(Run(es), t) !in {Idle, WorkExited}
    ensures CanStep(Run(es), r)
    ensures r == t || WaitsFor(Run(es), t, r)
         || exists m: nat :: WaitsFor(Run(es), t, m) && WaitsFor(Run(es), m, r)
  {
    var s := Run(es);
    r := t;
    if u: nat :| WaitsFor(s, t, u) {
      WaitDescends(es, t, u);
      r := u;
      if v: nat :| WaitsFor(s, u, v) {
        WaitDescends(es, u, v);
        r := v;
      }
    }
    forall x: nat ensures !WaitsFor(s, r, x) {
      if WaitsFor(s, r, x) {
        WaitDescends(es, r, x);
      }
    }
    NotWaitingCanStep(s, r);
  }
}
