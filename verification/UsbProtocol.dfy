/** The USB HAL's threads as a state machine: callers of switchRole, queryPortStatus and
    setCallback, and the worker threads that read uevents. They share three mutexes, one condition
    variable with a timeout, and the pthread id of the current worker. A run is any sequence of
    events; a disabled event changes nothing. */
module UsbProtocol {
  datatype Lock = RoleSwitch | Partner | Callback

  /** Where a thread is. Names starting with Want are blocked on a mutex. */
  datatype Pc =
    | Idle
    // switchRole; `mode` tells a port-type switch from a data or power role switch
    | WantRole(mode: bool) | HasRole(mode: bool)
    | WantPartner | MustWrite | CvWait | WantPartnerAgain(timedOut: bool) | LeavePartner(ok: bool)
    | WriteDual
    | WantCb(ok: bool) | HasCb(ok: bool) | LeaveRole
    // the worker
    | WorkIdle | WorkWantPartner | WorkHasPartner | WorkWantCb | WorkHasCb | WorkTryRole | WorkHasRole
    | WorkExited
    // queryPortStatus
    | QueryWantCb | QueryHasCb
    // setCallback; `register` tells a callback object from NULL
    | SetWantCb(register: bool) | SetHasCb(register: bool) | SetKill | SetJoin(worker: nat)

  /** What the environment decides for a step. */
  datatype Choice = Plain | Fail | Mismatch | TimeOut | PartnerMsg | TypecMsg | WritePort | Create(worker: nat)

  datatype Event =
    | CallSwitchRole(thread: nat, mode: bool)
    | CallQuery(thread: nat)
    | CallSetCallback(thread: nat, register: bool)
    | Step(thread: nat, choice: Choice)

  /** The visible actions, in the order they happened. */
  datatype Note =
    | Began(thread: nat, mode: bool) // switchRole got the role-switch lock
    | Cleared(thread: nat)           // mPartnerUp := false
    | WroteType(thread: nat)         // the requested role, into port_type
    | WroteOther(thread: nat, kept: bool) // the requested role, into data_role or power_role, and
                                          // whether it was read back as requested
    | CalledDrp(thread: nat)         // switchToDrp: "dual" into port_type, if its node can be written
    | PartnerAdded                   // the worker processed a partner-add uevent
    | Returned(thread: nat, ok: bool) // switchMode returned
    | Notified(thread: nat, ok: bool) // notifyRoleSwitchStatus, success or error
    | Ended(thread: nat)             // switchRole let go of the role-switch lock

  datatype State = State(
    pc: map<nat, Pc>, held: map<Lock, nat>,
    partnerUp: bool, callback: bool, poll: nat, destroy: bool,
    // history: workers created and not joined yet, the notes, the index of the latest WroteType,
    // whether a worker was ever created while another call was about to stop the old one, and
    // whether the stop flag was ever reset while another call waited for a worker to exit
    unjoined: set<nat>, log: seq<Note>, wrote: nat, replaced: bool, revived: bool)

  const INIT := State(map[], map[], false, false, 0, false, {}, [], 0, false, false)

  function At(pc: map<nat, Pc>, t: nat): Pc {
    if t in pc then pc[t] else Idle
  }

  function PcOf(s: State, t: nat): Pc {
    At(s.pc, t)
  }

  // ---------------------------------------------------------------- where a step leads

  /** A step moves a thread to another place; on the way it may take or drop one mutex. */
  datatype Op = Stay | Go(to: Pc) | Take(lock: Lock, to: Pc) | Drop(lock: Lock, to: Pc)

  function Want(s: State, l: Lock, to: Pc): Op {
    if l in s.held then Stay else Take(l, to)
  }

  /** switchRole around its call of switchMode. */
  function SwitchOp(s: State, pc: Pc, c: Choice): Op {
    match pc
    case WantRole(mode) => Want(s, RoleSwitch, HasRole(mode))
    case HasRole(mode) =>
      if !mode then Go(WantCb(c != Fail && c != Mismatch)) else if c == Fail then Go(WriteDual) else Go(WantPartner)
    case WantCb(ok) => Want(s, Callback, HasCb(ok))
    case HasCb(_) => Drop(Callback, LeaveRole)
    case LeaveRole => Drop(RoleSwitch, Idle)
    case _ => Stay
  }

  /** switchMode once the port_type node is open. Waking up on the condition variable means
      locking again; finding the partner not up without a timeout means waiting again. */
  function ModeOp(s: State, pc: Pc, c: Choice): Op {
    match pc
    case WantPartner => Want(s, Partner, MustWrite)
    case MustWrite => if c == Fail then Go(LeavePartner(false)) else Drop(Partner, CvWait)
    case CvWait => Go(WantPartnerAgain(c == TimeOut))
    case WantPartnerAgain(timedOut) =>
      if Partner in s.held then Stay
      else if timedOut then Take(Partner, LeavePartner(false))
      else if !s.partnerUp then Go(CvWait)
      else Take(Partner, LeavePartner(true))
    case LeavePartner(ok) => Drop(Partner, if ok then WantCb(true) else WriteDual)
    case WriteDual => Go(WantCb(false))
    case _ => Stay
  }

  /** The worker: its event loop, uevent_event, and the trylock before it resets the port. */
  function WorkOp(s: State, pc: Pc, c: Choice): Op {
    match pc
    case WorkIdle =>
      if c == PartnerMsg then Go(WorkWantPartner)
      else if c == TypecMsg then Go(WorkWantCb)
      else if s.destroy || c == Fail then Go(WorkExited)
      else Stay
    case WorkWantPartner => Want(s, Partner, WorkHasPartner)
    case WorkHasPartner => Drop(Partner, WorkIdle)
    case WorkWantCb => Want(s, Callback, WorkHasCb)
    case WorkHasCb => Drop(Callback, WorkTryRole)
    case WorkTryRole => if RoleSwitch in s.held then Go(WorkIdle) else Take(RoleSwitch, WorkHasRole)
    case WorkHasRole => if c == WritePort then Stay else Drop(RoleSwitch, WorkIdle)
    case _ => Stay
  }

  predicate Creates(s: State, pc: Pc, c: Choice) {
    pc == SetHasCb(true) && !s.callback && c.Create? && c.worker !in s.pc
  }

  /** queryPortStatus and setCallback. */
  function CallbackOp(s: State, pc: Pc, c: Choice): Op {
    match pc
    case QueryWantCb => Want(s, Callback, QueryHasCb)
    case QueryHasCb => Drop(Callback, Idle)
    case SetWantCb(register) => Want(s, Callback, SetHasCb(register))
    case SetHasCb(register) =>
      if register == s.callback || (register && c == Fail) then Drop(Callback, Idle)
      else if !register then Drop(Callback, SetKill)
      else if Creates(s, pc, c) then Drop(Callback, Idle)
      else Stay
    case SetKill => if s.poll in s.unjoined then Go(SetJoin(s.poll)) else Go(Idle)
    case SetJoin(w) => if PcOf(s, w) == WorkExited then Go(Idle) else Stay
    case _ => Stay
  }

  datatype Part = Switch | Mode | Work | Other

  /** The routine a place belongs to. */
  function PartOf(pc: Pc): Part {
    match pc
    case WantRole(_) | HasRole(_) | WantCb(_) | HasCb(_) | LeaveRole => Switch
    case WantPartner | MustWrite | CvWait | WantPartnerAgain(_) | LeavePartner(_) | WriteDual => Mode
    case WorkIdle | WorkWantPartner | WorkHasPartner | WorkWantCb | WorkHasCb
    | WorkTryRole | WorkHasRole | WorkExited => Work
    case _ => Other
  }

  function OpOf(s: State, pc: Pc, c: Choice): Op {
    match PartOf(pc)
    case Switch => SwitchOp(s, pc, c)
    case Mode => ModeOp(s, pc, c)
    case Work => WorkOp(s, pc, c)
    case Other => CallbackOp(s, pc, c)
  }

  // ---------------------------------------------------------------- what else a step does

  function Notes(s: State, pc: Pc, t: nat, op: Op, c: Choice): seq<Note> {
    match pc
    case WantRole(mode) => if op.Take? then [Began(t, mode)] else []
    case HasRole(mode) => if !mode && c != Fail then [WroteOther(t, c != Mismatch)] else []
    case WantPartner => if op.Take? then [Cleared(t)] else []
    case MustWrite => if c != Fail then [WroteType(t)] else []
    case LeavePartner(ok) => if ok then [Returned(t, true)] else []
    case WriteDual => [CalledDrp(t), Returned(t, false)]
    case HasCb(ok) => if s.callback then [Notified(t, ok)] else []
    case LeaveRole => [Ended(t)]
    case WorkWantPartner => if op.Take? then [PartnerAdded] else []
    case WorkHasRole => if c == WritePort then [CalledDrp(t)] else []
    case _ => []
  }

  function PartnerUpAfter(s: State, pc: Pc, op: Op): bool {
    if pc == WantPartner && op.Take? then false
    else if pc == WorkWantPartner && op.Take? then true
    else s.partnerUp
  }

  function Moved(s: State, t: nat, op: Op): State {
    match op
    case Stay => s
    case Go(to) => s.(pc := s.pc[t := to])
    case Take(l, to) => s.(pc := s.pc[t := to], held := s.held[l := t])
    case Drop(l, to) => s.(pc := s.pc[t := to], held := s.held - {l})
  }

  predicate SomeoneKills(s: State) {
    exists u :: u in s.pc && s.pc[u] == SetKill
  }

  predicate SomeoneJoins(s: State) {
    exists u :: u in s.pc && s.pc[u].SetJoin? && PcOf(s, s.pc[u].worker) != WorkExited
  }

  /** What the setCallback steps do to the callback, the worker id and the stop flag. */
  function Registration(s: State, pc: Pc, c: Choice): State {
    match pc
    case SetHasCb(register) =>
      if register == s.callback then s
      else if !register then s.(callback := false)
      else if c == Fail then s.(destroy := false, revived := s.revived || SomeoneJoins(s))
      else if Creates(s, pc, c) then
        s.(pc := s.pc[c.worker := WorkIdle], callback := true, destroy := false, poll := c.worker,
           unjoined := s.unjoined + {c.worker},
           replaced := s.replaced || SomeoneKills(s), revived := s.revived || SomeoneJoins(s))
      else s
    case SetKill => if s.poll in s.unjoined then s.(destroy := true) else s
    case SetJoin(w) => if PcOf(s, w) == WorkExited then s.(unjoined := s.unjoined - {w}) else s
    case _ => s
  }

  function StepOf(s: State, t: nat, c: Choice): State {
    var pc := PcOf(s, t);
    var op := OpOf(s, pc, c);
    Moved(Registration(s, pc, c), t, op)
      .(partnerUp := PartnerUpAfter(s, pc, op),
        log := s.log + Notes(s, pc, t, op, c),
        wrote := if pc == MustWrite && c != Fail then |s.log| else s.wrote)
  }

  function Apply(s: State, e: Event): State {
    match e
    case CallSwitchRole(t, mode) => if PcOf(s, t) != Idle then s else Moved(s, t, Go(WantRole(mode)))
    case CallQuery(t) => if PcOf(s, t) != Idle then s else Moved(s, t, Go(QueryWantCb))
    case CallSetCallback(t, register) => if PcOf(s, t) != Idle then s else Moved(s, t, Go(SetWantCb(register)))
    case Step(t, c) => StepOf(s, t, c)
  }

  function Run(es: seq<Event>): State {
    if es == [] then INIT else Apply(Run(es[..|es| - 1]), es[|es| - 1])
  }

  // ---------------------------------------------------------------- mutual exclusion

  datatype Held = Held(role: bool, partner: bool, cb: bool)

  /** The mutexes a thread holds, read off the lock and unlock calls around its place. */
  function HeldAt(pc: Pc): Held {
    match pc
    case HasRole(_) | WantPartner | CvWait | WantPartnerAgain(_) | WriteDual | WantCb(_) | LeaveRole | WorkHasRole =>
      Held(true, false, false)
    case MustWrite | LeavePartner(_) => Held(true, true, false)
    case HasCb(_) => Held(true, false, true)
    case WorkHasPartner => Held(false, true, false)
    case WorkHasCb | QueryHasCb | SetHasCb(_) => Held(false, false, true)
    case _ => Held(false, false, false)
  }

  function With(h: Held, l: Lock, v: bool): Held {
    match l
    case RoleSwitch => h.(role := v)
    case Partner => h.(partner := v)
    case Callback => h.(cb := v)
  }

  function Has(h: Held, l: Lock): bool {
    match l
    case RoleSwitch => h.role
    case Partner => h.partner
    case Callback => h.cb
  }

  function HeldBy(held: map<Lock, nat>, t: nat): Held {
    Held(RoleSwitch in held && held[RoleSwitch] == t,
         Partner in held && held[Partner] == t,
         Callback in held && held[Callback] == t)
  }

  /** A mutex is recorded as held by t exactly while t is between its lock and unlock calls. */
  ghost predicate Exclusive(pc: map<nat, Pc>, held: map<Lock, nat>) {
    forall t: nat :: HeldAt(At(pc, t)) == HeldBy(held, t)
  }

  ghost predicate LockInv(s: State) {
    Exclusive(s.pc, s.held)
  }

  /** The place an operation leads to is one where the thread holds what the operation leaves it. */
  predicate Lawful(s: State, pc: Pc, op: Op) {
    match op
    case Stay => true
    case Go(to) => HeldAt(to) == HeldAt(pc)
    case Take(l, to) => l !in s.held && HeldAt(to) == With(HeldAt(pc), l, true)
    case Drop(l, to) => Has(HeldAt(pc), l) && HeldAt(to) == With(HeldAt(pc), l, false)
  }

  lemma SwitchOpIsLawful(s: State, pc: Pc, c: Choice)
    ensures Lawful(s, pc, SwitchOp(s, pc, c))
  {}

  lemma ModeOpIsLawful(s: State, pc: Pc, c: Choice)
    ensures Lawful(s, pc, ModeOp(s, pc, c))
  {}

  lemma WorkOpIsLawful(s: State, pc: Pc, c: Choice)
    ensures Lawful(s, pc, WorkOp(s, pc, c))
  {}

  lemma CallbackOpIsLawful(s: State, pc: Pc, c: Choice)
    ensures Lawful(s, pc, CallbackOp(s, pc, c))
  {}

  lemma OpsAreLawful(s: State, pc: Pc, c: Choice)
    ensures Lawful(s, pc, OpOf(s, pc, c))
  {
    SwitchOpIsLawful(s, pc, c);
    ModeOpIsLawful(s, pc, c);
    WorkOpIsLawful(s, pc, c);
    CallbackOpIsLawful(s, pc, c);
  }

  lemma TakeChangesHeld(held: map<Lock, nat>, l: Lock, t: nat, u: nat)
    requires l !in held
    ensures HeldBy(held[l := t], u) == if u == t then With(HeldBy(held, u), l, true) else HeldBy(held, u)
  {}

  lemma DropChangesHeld(held: map<Lock, nat>, l: Lock, t: nat, u: nat)
    requires Has(HeldBy(held, t), l)
    ensures HeldBy(held - {l}, u) == if u == t then With(HeldBy(held, u), l, false) else HeldBy(held, u)
  {}

  lemma MoveKeepsLocksOf(s: State, t: nat, op: Op, u: nat)
    requires Lawful(s, PcOf(s, t), op)
    requires HeldAt(At(s.pc, t)) == HeldBy(s.held, t) && HeldAt(At(s.pc, u)) == HeldBy(s.held, u)
    ensures HeldAt(At(Moved(s, t, op).pc, u)) == HeldBy(Moved(s, t, op).held, u)
  {
    match op
    case Stay =>
    case Go(to) =>
    case Take(l, to) => TakeChangesHeld(s.held, l, t, u);
    case Drop(l, to) => DropChangesHeld(s.held, l, t, u);
  }

  lemma MoveKeepsLocks(s: State, t: nat, op: Op)
    requires LockInv(s) && Lawful(s, PcOf(s, t), op)
    ensures LockInv(Moved(s, t, op))
  {
    forall u: nat ensures HeldAt(At(Moved(s, t, op).pc, u)) == HeldBy(Moved(s, t, op).held, u) {
      MoveKeepsLocksOf(s, t, op, u);
    }
  }

  lemma RegistrationKeepsLocks(s: State, pc: Pc, c: Choice)
    requires LockInv(s)
    ensures LockInv(Registration(s, pc, c))
    ensures Registration(s, pc, c).held == s.held
  {
    if Creates(s, pc, c) {
      MoveKeepsLocks(s, c.worker, Go(WorkIdle));
    }
  }

  lemma StepKeepsLocks(s: State, t: nat, c: Choice)
    requires LockInv(s)
    ensures LockInv(StepOf(s, t, c))
  {
    var pc := PcOf(s, t);
    OpsAreLawful(s, pc, c);
    RegistrationKeepsLocks(s, pc, c);
    var r := Registration(s, pc, c);
    assert PcOf(r, t) == pc;
    MoveKeepsLocks(r, t, OpOf(s, pc, c));
  }

  lemma {:induction false} LocksExcludeEachOther(es: seq<Event>)
    ensures LockInv(Run(es))
  {
    if es != [] {
      var s, e := Run(es[..|es| - 1]), es[|es| - 1];
      LocksExcludeEachOther(es[..|es| - 1]);
      match e
      case CallSwitchRole(t, mode) => if PcOf(s, t) == Idle { MoveKeepsLocks(s, t, Go(WantRole(mode))); }
      case CallQuery(t) => if PcOf(s, t) == Idle { MoveKeepsLocks(s, t, Go(QueryWantCb)); }
      case CallSetCallback(t, register) => if PcOf(s, t) == Idle { MoveKeepsLocks(s, t, Go(SetWantCb(register))); }
      case Step(t, c) => StepKeepsLocks(s, t, c);
    }
  }

  function Target(pc: Pc, op: Op): Pc {
    if op.Stay? then pc else op.to
  }

  lemma MovedPlaces(s: State, t: nat, op: Op, u: nat)
    ensures PcOf(Moved(s, t, op), u) == if u == t then Target(PcOf(s, t), op) else PcOf(s, u)
  {}

  lemma RegistrationPlaces(s: State, pc: Pc, c: Choice, u: nat)
    ensures PcOf(Registration(s, pc, c), u) == if Creates(s, pc, c) && u == c.worker then WorkIdle else PcOf(s, u)
  {}

  /** A step changes the place of its own thread and, when it creates a worker, of that worker. */
  lemma StepPlaces(s: State, t: nat, c: Choice, u: nat)
    ensures var pc := PcOf(s, t);
      PcOf(StepOf(s, t, c), u) ==
        if u == t then Target(pc, OpOf(s, pc, c))
        else if Creates(s, pc, c) && u == c.worker then WorkIdle
        else PcOf(s, u)
  {
    var pc := PcOf(s, t);
    RegistrationPlaces(s, pc, c, t);
    RegistrationPlaces(s, pc, c, u);
    var r, op := Registration(s, pc, c), OpOf(s, pc, c);
    MovedPlaces(r, t, op, u);
    assert StepOf(s, t, c).pc == Moved(r, t, op).pc;
    assert PcOf(r, t) == pc;
  }

  lemma MovedFields(s: State, t: nat, op: Op)
    ensures var s' := Moved(s, t, op);
      && s'.callback == s.callback && s'.poll == s.poll && s'.destroy == s.destroy
      && s'.unjoined == s.unjoined && s'.replaced == s.replaced && s'.revived == s.revived
      && s.pc.Keys <= s'.pc.Keys
  {}

  lemma RegistrationKeys(s: State, pc: Pc, c: Choice)
    ensures var r := Registration(s, pc, c);
      && s.pc.Keys <= r.pc.Keys && (Creates(s, pc, c) ==> c.worker in r.pc)
  {}

  lemma RegistrationUnjoined(s: State, pc: Pc, c: Choice)
    ensures Registration(s, pc, c).unjoined <= s.unjoined + if Creates(s, pc, c) then {c.worker} else {}
  {}

  /** Beyond places and mutexes a step changes what Registration says, and no place is forgotten. */
  lemma StepFields(s: State, t: nat, c: Choice)
    ensures var s', r := StepOf(s, t, c), Registration(s, PcOf(s, t), c);
      && s'.callback == r.callback && s'.poll == r.poll && s'.destroy == r.destroy
      && s'.unjoined == r.unjoined && s'.replaced == r.replaced && s'.revived == r.revived
      && s.pc.Keys <= s'.pc.Keys && (Creates(s, PcOf(s, t), c) ==> c.worker in s'.pc)
  {
    var pc := PcOf(s, t);
    RegistrationKeys(s, pc, c);
    MovedFields(Registration(s, pc, c), t, OpOf(s, pc, c));
  }

  lemma RunSnoc(es: seq<Event>, e: Event)
    ensures Run(es + [e]) == Apply(Run(es), e)
  {
    assert (es + [e])[..|es|] == es;
  }

  /** A call only puts an idle thread at the start of a routine. */
  lemma CallPlace(s: State, e: Event, u: nat)
    requires !e.Step?
    ensures var before, after := PcOf(s, u), PcOf(Apply(s, e), u);
      after == before || (before == Idle && (after.WantRole? || after.QueryWantCb? || after.SetWantCb?))
  {
    if PcOf(s, e.thread) == Idle {
      match e
      case CallSwitchRole(t, mode) => MovedPlaces(s, t, Go(WantRole(mode)), u);
      case CallQuery(t) => MovedPlaces(s, t, Go(QueryWantCb), u);
      case CallSetCallback(t, register) => MovedPlaces(s, t, Go(SetWantCb(register)), u);
    }
  }

  lemma CallFields(s: State, e: Event)
    requires !e.Step?
    ensures var s' := Apply(s, e);
      s'.callback == s.callback && s'.poll == s.poll && s'.unjoined == s.unjoined && s'.replaced == s.replaced
  {}

  // ---------------------------------------------------------------- a call that registers a callback

  lemma CallStep(s: State, t: nat, register: bool)
    requires PcOf(s, t) == Idle
    ensures Apply(s, CallSetCallback(t, register)) == s.(pc := s.pc[t := SetWantCb(register)])
  {}

  lemma CallAsks(es: seq<Event>, t: nat, register: bool) returns (fs: seq<Event>)
    requires PcOf(Run(es), t) == Idle
    ensures Run(fs) == Run(es).(pc := Run(es).pc[t := SetWantCb(register)])
  {
    fs := es + [CallSetCallback(t, register)];
    assert Run(fs) == Apply(Run(es), CallSetCallback(t, register)) by { RunSnoc(es, CallSetCallback(t, register)); }
    CallStep(Run(es), t, register);
  }

  lemma LockStep(s: State, t: nat, register: bool)
    requires PcOf(s, t) == SetWantCb(register) && Callback !in s.held
    ensures StepOf(s, t, Plain) == s.(pc := s.pc[t := SetHasCb(register)], held := s.held[Callback := t])
  {}

  /** A call of setCallback up to the callback lock. */
  lemma CallTakesLock(es: seq<Event>, t: nat, register: bool) returns (fs: seq<Event>)
    requires PcOf(Run(es), t) == Idle && Callback !in Run(es).held
    ensures var s := Run(es);
      Run(fs) == s.(pc := s.pc[t := SetHasCb(register)], held := s.held[Callback := t])
  {
    fs := CallAsks(es, t, register);
    assert PcOf(Run(fs), t) == SetWantCb(register);
    LockStep(Run(fs), t, register);
    RunSnoc(fs, Step(t, Plain));
    fs := fs + [Step(t, Plain)];
    assert Run(es).pc[t := SetWantCb(register)][t := SetHasCb(register)] == Run(es).pc[t := SetHasCb(register)];
  }

  lemma CreateStep(s: State, t: nat, w: nat)
    requires PcOf(s, t) == SetHasCb(true) && Creates(s, SetHasCb(true), Create(w)) && t != w
    ensures var s' := StepOf(s, t, Create(w));
      && s'.pc == s.pc[w := WorkIdle][t := Idle] && s'.held == s.held - {Callback}
      && s'.callback && s'.poll == w && s'.unjoined == s.unjoined + {w} && !s'.destroy && s'.log == s.log
  {}

  /** The step that ends a registering call, seen from before the call. */
  lemma CreateFrom(s: State, t: nat, w: nat)
    requires PcOf(s, t) == Idle && Callback !in s.held && t != w && w !in s.pc && !s.callback
    ensures var taken := s.(pc := s.pc[t := SetHasCb(true)], held := s.held[Callback := t]);
      var s' := StepOf(taken, t, Create(w));
      && s'.pc == s.pc[t := Idle][w := WorkIdle] && s'.held == s.held
      && s'.callback && s'.poll == w && s'.unjoined == s.unjoined + {w} && !s'.destroy && s'.log == s.log
  {
    var taken := s.(pc := s.pc[t := SetHasCb(true)], held := s.held[Callback := t]);
    CreateStep(taken, t, w);
    assert s.held[Callback := t] - {Callback} == s.held;
    assert taken.pc[w := WorkIdle][t := Idle] == s.pc[t := Idle][w := WorkIdle];
  }

  /** A registering call to its end, with a new worker w. */
  lemma CallCreates(es: seq<Event>, t: nat, w: nat) returns (fs: seq<Event>)
    requires PcOf(Run(es), t) == Idle && Callback !in Run(es).held
    requires t != w && w !in Run(es).pc && !Run(es).callback
    ensures var s, s' := Run(es), Run(fs);
      && s'.pc == s.pc[t := Idle][w := WorkIdle] && s'.held == s.held
      && s'.callback && s'.poll == w && s'.unjoined == s.unjoined + {w} && !s'.destroy && s'.log == s.log
  {
    fs := CallTakesLock(es, t, true);
    RunSnoc(fs, Step(t, Create(w)));
    CreateFrom(Run(es), t, w);
    fs := fs + [Step(t, Create(w))];
  }
}
