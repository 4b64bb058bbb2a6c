/** The deferred-work protocol as a state machine: producers that queue jobs in three steps under
    the deferred-work lock, the single worker that takes, executes and records them, and waiters
    that look at the slot table. A run is any sequence of events; an event that is not enabled
    changes nothing. */
module DeferredRuns {
  import opened DeferredWork

  datatype Cmd =
    | AllocateBuff | PprocStart | MetadataAlloc | CreateJpegSession
    | PprocInit | ParamAlloc | ParamInit | Generic

  datatype Job = Job(id: nat, cmd: Cmd)

  /** A job the worker executed: `code` is what its body assigned to the worker's status
      variable, 0 standing for no assignment unless the command is Generic. */
  datatype Ran = Ran(cmd: Cmd, dep: nat, code: int)

  datatype Phase = Idle | Running(job: Job) | Done(id: nat)

  /** How far the producer that holds the lock has come, if any does. */
  datatype Producer = Absent | Enqueued(slot: nat) | Written(slot: nat)

  datatype State = State(
    slots: seq<Slot>, nextId: nat, queue: seq<Job>, tokens: nat,
    phase: Phase, jobStatus: int, producer: Producer,
    // history: jobs issued, executed and recorded, and commands that never reached the worker
    issued: seq<Cmd>, ran: seq<Ran>, recorded: seq<int>, lost: nat)

  datatype Event =
    | Enqueue(cmd: Cmd) | WriteSlot | SendCmd(sent: bool)
    | Take | Exec(dep: nat, code: int) | Record

  function EmptyTable(n: nat): (slots: seq<Slot>)
    ensures |slots| == n && forall i :: 0 <= i < n ==> slots[i] == FREE
  {
    if n == 0 then [] else [FREE] + EmptyTable(n - 1)
  }

  function Init(): State {
    State(EmptyTable(MAX_ONGOING_JOBS), 1, [], 0, Idle, NO_ERROR, Absent, [], [], [], 0)
  }

  /** Commands whose body first asks for the status of an earlier job. */
  predicate Dependent(cmd: Cmd) {
    cmd in {PprocStart, MetadataAlloc, CreateJpegSession, ParamInit}
  }

  function Assigned(slots: seq<Slot>, cmd: Cmd, dep: nat, code: int): int {
    if Dependent(cmd) && StatusOf(slots, dep) != NO_ERROR then StatusOf(slots, dep) else code
  }

  predicate Reports(r: Ran) {
    r.cmd == Generic || r.code != NO_ERROR
  }

  function Apply(s: State, e: Event): State {
    match e
    case Enqueue(cmd) =>
      if s.producer != Absent || Full(s.slots) then s
      else s.(queue := s.queue + [Job(s.nextId, cmd)], issued := s.issued + [cmd],
              producer := Enqueued(FirstIdx(s.slots, 0)))
    case WriteSlot =>
      if !s.producer.Enqueued? || s.producer.slot >= |s.slots| || !(1 <= s.nextId <= UINT32_MAX) then s
      else s.(slots := s.slots[s.producer.slot := Slot(s.nextId, NO_ERROR)],
              nextId := NextId(s.nextId), producer := Written(s.producer.slot))
    case SendCmd(sent) =>
      if !s.producer.Written? then s
      else if sent then s.(tokens := s.tokens + 1, producer := Absent)
      else s.(lost := s.lost + 1, producer := Absent)
    case Take =>
      if s.phase != Idle || s.tokens == 0 then s
      else if s.queue == [] then s.(tokens := s.tokens - 1)
      else s.(tokens := s.tokens - 1, queue := s.queue[1..], phase := Running(s.queue[0]))
    case Exec(dep, code) =>
      if !s.phase.Running? then s
      else
        var ran := Ran(s.phase.job.cmd, dep, Assigned(s.slots, s.phase.job.cmd, dep, code));
        s.(jobStatus := if Reports(ran) then ran.code else s.jobStatus,
           ran := s.ran + [ran], phase := Done(s.phase.job.id))
    case Record =>
      if !s.phase.Done? || s.producer != Absent then s
      else s.(slots := Recorded(s.slots, s.phase.id, s.jobStatus),
              recorded := s.recorded + [s.jobStatus], phase := Idle)
  }

  function Run(es: seq<Event>): State {
    if es == [] then Init() else Apply(Run(es[..|es| - 1]), es[|es| - 1])
  }

  datatype Answer = Waiting | Returns(status: int)

  /** What waitDeferredWork does when it looks at the table in state s. */
  function Wait(s: State, id: nat): Answer {
    if id == 0 then Returns(NO_ERROR)
    else if s.producer != Absent || InProgress(s.slots, id) then Waiting
    else Returns(StatusOf(s.slots, id))
  }

  /** Number of job ids whose slot has been written. */
  function WrittenCount(s: State): int {
    |s.issued| - if s.producer.Enqueued? then 1 else 0
  }

  function TakenCount(s: State): nat {
    |s.recorded| + if s.phase == Idle then 0 else 1
  }

  // ---------------------------------------------------------------- slot accounting

  datatype Kind = IsFree | IsUnfinished | IsFailed

  function KindOf(s: Slot): Kind {
    if s.id == 0 then IsFree else if s.status == NO_ERROR then IsUnfinished else IsFailed
  }

  function Count(slots: seq<Slot>, k: Kind): nat {
    if slots == [] then 0
    else (if KindOf(slots[0]) == k then 1 else 0) + Count(slots[1..], k)
  }

  function Failures(recorded: seq<int>): nat {
    if recorded == [] then 0
    else Failures(recorded[..|recorded| - 1]) + if recorded[|recorded| - 1] != NO_ERROR then 1 else 0
  }

  lemma {:induction false} CountUpdate(slots: seq<Slot>, i: nat, x: Slot, k: Kind)
    requires i < |slots|
    ensures Count(slots[i := x], k) + (if KindOf(slots[i]) == k then 1 else 0)
         == Count(slots, k) + (if KindOf(x) == k then 1 else 0)
  {
    if i == 0 {
      assert slots[i := x][1..] == slots[1..];
    } else {
      CountUpdate(slots[1..], i - 1, x, k);
      assert slots[i := x][1..] == slots[1..][i - 1 := x];
    }
  }

  lemma {:induction false} CountTotal(slots: seq<Slot>)
    ensures Count(slots, IsFree) + Count(slots, IsUnfinished) + Count(slots, IsFailed) == |slots|
  {
    if slots != [] {
      CountTotal(slots[1..]);
    }
  }

  lemma {:induction false} CountSome(slots: seq<Slot>, k: Kind)
    ensures Count(slots, k) == 0 <==> forall i :: 0 <= i < |slots| ==> KindOf(slots[i]) != k
  {
    if slots != [] {
      CountSome(slots[1..], k);
      assert slots == [slots[0]] + slots[1..];
    }
  }

  // ---------------------------------------------------------------- the invariant

  /** A job id whose slot must still be in the table. */
  predicate Live(id: nat, recorded: seq<int>) {
    id > |recorded| || (1 <= id && recorded[id - 1] != NO_ERROR)
  }

  ghost predicate HasSlot(slots: seq<Slot>, id: nat) {
    exists i :: 0 <= i < |slots| && slots[i].id == id
  }

  predicate SlotOk(x: Slot, written: int, recorded: seq<int>) {
    x == FREE ||
    (&& 1 <= x.id <= written && Live(x.id, recorded)
     && x.status == if x.id <= |recorded| then recorded[x.id - 1] else NO_ERROR)
  }

  /** Job ids 1..written were given out and the first |recorded| of them are recorded: each of the
      others has one unfinished slot, each failed one keeps a slot with its status, and there is
      no other slot in use. */
  ghost predicate TableInv(slots: seq<Slot>, written: int, recorded: seq<int>) {
    && |slots| == MAX_ONGOING_JOBS
    && |recorded| <= written
    && (forall i :: 0 <= i < |slots| ==> SlotOk(slots[i], written, recorded))
    && (forall i, j :: 0 <= i < j < |slots| && slots[i].id == slots[j].id ==> slots[i].id == 0)
    && (forall id :: 1 <= id <= written && Live(id, recorded) ==> HasSlot(slots, id))
  }

  ghost predicate CountInv(slots: seq<Slot>, written: int, recorded: seq<int>) {
    && Count(slots, IsFailed) == Failures(recorded)
    && Count(slots, IsUnfinished) + |recorded| == written
  }

  ghost predicate QueueInv(s: State) {
    && |s.issued| == TakenCount(s) + |s.queue|
    && (forall k :: 0 <= k < |s.queue| ==> s.queue[k] == Job(TakenCount(s) + k + 1, s.issued[TakenCount(s) + k]))
    && (s.phase.Running? ==> s.phase.job == Job(|s.recorded| + 1, s.issued[|s.recorded|]))
    && (s.phase.Done? ==> s.phase.id == |s.recorded| + 1)
    && s.tokens + s.lost + (if s.producer == Absent then 0 else 1) == |s.queue|
    && (s.producer.Enqueued? ==> s.producer.slot < |s.slots| && s.slots[s.producer.slot] == FREE)
  }

  /** The worker's status variable after its first k jobs. */
  function StatusAfter(ran: seq<Ran>, k: nat): int
    requires k <= |ran|
  {
    if k == 0 then NO_ERROR
    else if Reports(ran[k - 1]) then ran[k - 1].code
    else StatusAfter(ran, k - 1)
  }

  ghost predicate StatusInv(ran: seq<Ran>, recorded: seq<int>, jobStatus: int) {
    && |recorded| <= |ran| <= |recorded| + 1
    && jobStatus == StatusAfter(ran, |ran|)
    && (forall k :: 0 <= k < |recorded| ==> recorded[k] == StatusAfter(ran, k + 1))
  }

  /** The executed jobs are the issued ones in order, and one that asked for the status of a
      failed job ends with that job's status. */
  ghost predicate RanInv(ran: seq<Ran>, issued: seq<Cmd>, recorded: seq<int>) {
    && |recorded| <= |ran| <= |issued|
    && |ran| <= |recorded| + 1
    && (forall k :: 0 <= k < |ran| ==> ran[k].cmd == issued[k])
    && (forall k :: 0 <= k < |ran| && Dependent(ran[k].cmd) && 1 <= ran[k].dep <= k
          && recorded[ran[k].dep - 1] != NO_ERROR
          ==> ran[k].code == recorded[ran[k].dep - 1])
  }

  /** All but the id counter. */
  ghost predicate Core(s: State) {
    && TableInv(s.slots, WrittenCount(s), s.recorded)
    && CountInv(s.slots, WrittenCount(s), s.recorded)
    && QueueInv(s)
    && StatusInv(s.ran, s.recorded, s.jobStatus)
    && RanInv(s.ran, s.issued, s.recorded)
    && |s.ran| == |s.recorded| + (if s.phase.Done? then 1 else 0)
  }

  ghost predicate Inv(s: State) {
    Core(s) && s.nextId == if WrittenCount(s) == UINT32_MAX then 1 else WrittenCount(s) + 1
  }

  // ---------------------------------------------------------------- every event keeps it

  lemma TableStatus(slots: seq<Slot>, written: int, recorded: seq<int>, id: nat)
    requires TableInv(slots, written, recorded) && 1 <= id <= written
    ensures StatusOf(slots, id) == if id <= |recorded| then recorded[id - 1] else NO_ERROR
    ensures InProgress(slots, id) <==> id > |recorded|
  {
    var i := FirstIdx(slots, id);
    if i < |slots| {
      assert SlotOk(slots[i], written, recorded);
    } else {
      assert !HasSlot(slots, id);
    }
  }

  lemma TableWrite(slots: seq<Slot>, written: int, recorded: seq<int>, i: nat)
    requires TableInv(slots, written, recorded) && i < |slots| && slots[i] == FREE
    ensures TableInv(slots[i := Slot(written + 1, NO_ERROR)], written + 1, recorded)
  {
    var slots' := slots[i := Slot(written + 1, NO_ERROR)];
    forall j | 0 <= j < |slots'| ensures SlotOk(slots'[j], written + 1, recorded) {
      assert SlotOk(slots[j], written, recorded);
    }
    forall id | 1 <= id <= written + 1 && Live(id, recorded) ensures HasSlot(slots', id) {
      if id == written + 1 {
        assert slots'[i].id == id;
      } else {
        assert HasSlot(slots, id);
        var j :| 0 <= j < |slots| && slots[j].id == id;
        assert slots'[j].id == id;
      }
    }
  }

  lemma CountWrite(slots: seq<Slot>, written: int, recorded: seq<int>, i: nat)
    requires CountInv(slots, written, recorded) && i < |slots| && slots[i] == FREE && 0 <= written
    ensures CountInv(slots[i := Slot(written + 1, NO_ERROR)], written + 1, recorded)
  {
    CountUpdate(slots, i, Slot(written + 1, NO_ERROR), IsFailed);
    CountUpdate(slots, i, Slot(written + 1, NO_ERROR), IsUnfinished);
  }

  lemma RecordedPlace(slots: seq<Slot>, written: int, recorded: seq<int>, status: int)
    requires TableInv(slots, written, recorded) && |recorded| < written
    ensures var i, id := FirstIdx(slots, |recorded| + 1), |recorded| + 1;
      && i < |slots| && slots[i].id == id
      && Recorded(slots, id, status) == slots[i := if status != NO_ERROR then Slot(id, status) else FREE]
  {
    assert HasSlot(slots, |recorded| + 1);
  }

  lemma RecordSlot(slots: seq<Slot>, written: int, recorded: seq<int>, status: int, i: nat)
    requires TableInv(slots, written, recorded) && |recorded| < written && i < |slots| && slots[i].id == |recorded| + 1
    ensures var x := if status != NO_ERROR then Slot(|recorded| + 1, status) else FREE;
      TableInv(slots[i := x], written, recorded + [status])
  {
    var x := if status != NO_ERROR then Slot(|recorded| + 1, status) else FREE;
    var slots', recorded' := slots[i := x], recorded + [status];
    forall j | 0 <= j < |slots'| ensures SlotOk(slots'[j], written, recorded') {
      assert SlotOk(slots[j], written, recorded);
    }
    forall id | 1 <= id <= written && Live(id, recorded') ensures HasSlot(slots', id) {
      assert HasSlot(slots, id);
      var j :| 0 <= j < |slots| && slots[j].id == id;
      assert slots'[j].id == id;
    }
  }

  lemma TableRecord(slots: seq<Slot>, written: int, recorded: seq<int>, status: int)
    requires TableInv(slots, written, recorded) && |recorded| < written
    ensures TableInv(Recorded(slots, |recorded| + 1, status), written, recorded + [status])
  {
    RecordedPlace(slots, written, recorded, status);
    RecordSlot(slots, written, recorded, status, FirstIdx(slots, |recorded| + 1));
  }

  lemma CountRecord(slots: seq<Slot>, written: int, recorded: seq<int>, status: int)
    requires TableInv(slots, written, recorded) && |recorded| < written
    requires CountInv(slots, written, recorded)
    ensures CountInv(Recorded(slots, |recorded| + 1, status), written, recorded + [status])
  {
    RecordedPlace(slots, written, recorded, status);
    var id := |recorded| + 1;
    var i, x := FirstIdx(slots, id), if status != NO_ERROR then Slot(id, status) else FREE;
    assert SlotOk(slots[i], written, recorded);
    CountUpdate(slots, i, x, IsFailed);
    CountUpdate(slots, i, x, IsUnfinished);
    assert (recorded + [status])[..|recorded|] == recorded;
  }

  lemma {:induction false} StatusAfterExtended(ran: seq<Ran>, x: Ran, k: nat)
    requires k <= |ran|
    ensures StatusAfter(ran + [x], k) == StatusAfter(ran, k)
  {
    if k > 0 {
      StatusAfterExtended(ran, x, k - 1);
    }
  }

  lemma StatusExec(ran: seq<Ran>, recorded: seq<int>, jobStatus: int, x: Ran)
    requires StatusInv(ran, recorded, jobStatus) && |ran| == |recorded|
    ensures StatusInv(ran + [x], recorded, if Reports(x) then x.code else jobStatus)
  {
    forall k | 0 <= k <= |ran| ensures StatusAfter(ran + [x], k) == StatusAfter(ran, k) {
      StatusAfterExtended(ran, x, k);
    }
  }

  lemma RanExec(slots: seq<Slot>, written: int, recorded: seq<int>, ran: seq<Ran>, issued: seq<Cmd>, x: Ran, code: int)
    requires TableInv(slots, written, recorded) && RanInv(ran, issued, recorded)
    requires |ran| == |recorded| < |issued| && x.cmd == issued[|ran|] && x.code == Assigned(slots, x.cmd, x.dep, code)
    ensures RanInv(ran + [x], issued, recorded)
  {
    if 1 <= x.dep <= |ran| {
      TableStatus(slots, written, recorded, x.dep);
    }
  }

  lemma ExecFields(s: State, dep: nat, code: int)
    requires s.phase.Running?
    ensures var x := Ran(s.phase.job.cmd, dep, Assigned(s.slots, s.phase.job.cmd, dep, code));
      Apply(s, Exec(dep, code))
      == s.(jobStatus := if Reports(x) then x.code else s.jobStatus, ran := s.ran + [x],
            phase := Done(s.phase.job.id))
  {}

  lemma ExecKeeps(s: State, dep: nat, code: int)
    requires Core(s) && s.phase.Running?
    ensures Core(Apply(s, Exec(dep, code)))
  {
    var x := Ran(s.phase.job.cmd, dep, Assigned(s.slots, s.phase.job.cmd, dep, code));
    ExecFields(s, dep, code);
    StatusExec(s.ran, s.recorded, s.jobStatus, x);
    RanExec(s.slots, WrittenCount(s), s.recorded, s.ran, s.issued, x, code);
  }

  lemma RanIssue(ran: seq<Ran>, issued: seq<Cmd>, cmd: Cmd, recorded: seq<int>)
    requires RanInv(ran, issued, recorded)
    ensures RanInv(ran, issued + [cmd], recorded)
  {}

  lemma EnqueueKeepsQueue(s: State, cmd: Cmd)
    requires QueueInv(s) && s.producer == Absent && !Full(s.slots) && s.nextId == |s.issued| + 1
    requires s.slots[FirstIdx(s.slots, 0)] == FREE
    ensures QueueInv(Apply(s, Enqueue(cmd)))
  {}

  lemma EnqueueFields(s: State, cmd: Cmd)
    requires s.producer == Absent && !Full(s.slots)
    ensures var t := Apply(s, Enqueue(cmd));
      && t.slots == s.slots && WrittenCount(t) == WrittenCount(s) && t.nextId == s.nextId && t.phase == s.phase
      && t.recorded == s.recorded && t.ran == s.ran && t.jobStatus == s.jobStatus && t.issued == s.issued + [cmd]
  {}

  lemma EnqueueKeeps(s: State, cmd: Cmd)
    requires Core(s) && s.producer == Absent && !Full(s.slots) && s.nextId == |s.issued| + 1
    ensures Core(Apply(s, Enqueue(cmd)))
  {
    assert SlotOk(s.slots[FirstIdx(s.slots, 0)], WrittenCount(s), s.recorded);
    EnqueueKeepsQueue(s, cmd);
    EnqueueFields(s, cmd);
    RanIssue(s.ran, s.issued, cmd, s.recorded);
  }

  /** The state after a producer wrote its slot, with the counter moved on to `next`. */
  function Wrote(s: State, next: nat): State
    requires s.producer.Enqueued? && s.producer.slot < |s.slots|
  {
    s.(slots := s.slots[s.producer.slot := Slot(s.nextId, NO_ERROR)], nextId := next,
       producer := Written(s.producer.slot))
  }

  lemma WriteSlotKeepsTable(slots: seq<Slot>, written: int, recorded: seq<int>, i: nat, slots': seq<Slot>)
    requires TableInv(slots, written, recorded) && CountInv(slots, written, recorded) && 0 <= written
    requires i < |slots| && slots[i] == FREE && slots' == slots[i := Slot(written + 1, NO_ERROR)]
    ensures TableInv(slots', written + 1, recorded) && CountInv(slots', written + 1, recorded)
  {
    TableWrite(slots, written, recorded, i);
    CountWrite(slots, written, recorded, i);
  }

  lemma WriteSlotKeeps(s: State, next: nat)
    requires Core(s) && s.producer.Enqueued? && s.nextId == WrittenCount(s) + 1
    ensures Core(Wrote(s, next))
  {
    WriteSlotKeepsTable(s.slots, WrittenCount(s), s.recorded, s.producer.slot, Wrote(s, next).slots);
  }

  lemma TakeKeepsQueue(s: State)
    requires QueueInv(s)
    ensures QueueInv(Apply(s, Take))
  {}

  lemma TakeKeeps(s: State)
    requires Core(s)
    ensures Core(Apply(s, Take))
  {
    TakeKeepsQueue(s);
  }

  lemma RecordKeepsQueue(s: State)
    requires QueueInv(s) && s.phase.Done? && s.producer == Absent
    ensures QueueInv(Apply(s, Record))
  {}

  lemma StatusRecord(ran: seq<Ran>, recorded: seq<int>, jobStatus: int)
    requires StatusInv(ran, recorded, jobStatus) && |ran| == |recorded| + 1
    ensures StatusInv(ran, recorded + [jobStatus], jobStatus)
  {}

  lemma RanRecord(ran: seq<Ran>, issued: seq<Cmd>, recorded: seq<int>, status: int)
    requires RanInv(ran, issued, recorded) && |ran| == |recorded| + 1
    ensures RanInv(ran, issued, recorded + [status])
  {}

  lemma RecordFields(s: State)
    requires s.phase.Done? && s.producer == Absent
    ensures var t := Apply(s, Record);
      && t.slots == Recorded(s.slots, s.phase.id, s.jobStatus) && t.recorded == s.recorded + [s.jobStatus]
      && t.ran == s.ran && t.issued == s.issued && t.jobStatus == s.jobStatus && t.phase == Idle
      && WrittenCount(t) == WrittenCount(s)
  {}

  lemma RecordKeeps(s: State)
    requires Core(s) && s.phase.Done? && s.producer == Absent
    ensures Core(Apply(s, Record))
  {
    RecordKeepsQueue(s);
    RecordFields(s);
    TableRecord(s.slots, WrittenCount(s), s.recorded, s.jobStatus);
    CountRecord(s.slots, WrittenCount(s), s.recorded, s.jobStatus);
    StatusRecord(s.ran, s.recorded, s.jobStatus);
    RanRecord(s.ran, s.issued, s.recorded, s.jobStatus);
  }

  lemma SendKeeps(s: State, sent: bool)
    requires Core(s)
    ensures Core(Apply(s, SendCmd(sent)))
  {}

  /** Every event but the producer's own two keeps all but the counter, and leaves that alone. */
  lemma OthersKeepCore(s: State, e: Event)
    requires Core(s) && !e.Enqueue? && e != WriteSlot
    ensures Core(Apply(s, e))
    ensures Apply(s, e).nextId == s.nextId && WrittenCount(Apply(s, e)) == WrittenCount(s)
  {
    match e
    case SendCmd(sent) => SendKeeps(s, sent);
    case Take => TakeKeeps(s);
    case Exec(dep, code) => if s.phase.Running? { ExecKeeps(s, dep, code); }
    case Record => if s.phase.Done? && s.producer == Absent { RecordKeeps(s); }
  }

  lemma ApplyKeeps(s: State, e: Event)
    requires Inv(s) && |Apply(s, e).issued| <= UINT32_MAX
    ensures Inv(Apply(s, e))
  {
    match e
    case Enqueue(cmd) =>
      if s.producer == Absent && !Full(s.slots) {
        EnqueueFields(s, cmd);
        EnqueueKeeps(s, cmd);
      }
    case WriteSlot =>
      if s.producer.Enqueued? {
        WriteSlotKeeps(s, NextId(s.nextId));
      }
    case _ => OthersKeepCore(s, e);
  }

  predicate WorkerEvents(es: seq<Event>) {
    forall k :: 0 <= k < |es| ==> es[k].Take? || es[k].Exec? || es[k].Record?
  }

  function ApplyAll(s: State, es: seq<Event>): State
    decreases |es|
  {
    if es == [] then s else ApplyAll(Apply(s, es[0]), es[1..])
  }

  /** While a producer holds the lock the worker leaves the table alone. */
  lemma {:induction false} WorkerLeavesTable(s: State, es: seq<Event>)
    requires WorkerEvents(es) && s.producer != Absent
    ensures var t := ApplyAll(s, es); t.slots == s.slots && t.nextId == s.nextId && t.producer == s.producer
    decreases |es|
  {
    if es != [] {
      assert es[0].Take? || es[0].Exec? || es[0].Record?;
      WorkerLeavesTable(Apply(s, es[0]), es[1..]);
    }
  }

  /** The three steps of a producer, whatever the worker does in between, amount to what
      JobTable.QueueDeferredWork does to the table in one call. */
  lemma ProducerStepsClaimASlot(s: State, cmd: Cmd, first: seq<Event>, second: seq<Event>, sent: bool)
    requires s.producer == Absent && !Full(s.slots) && 1 <= s.nextId <= UINT32_MAX
    requires WorkerEvents(first) && WorkerEvents(second)
    ensures var written := Apply(ApplyAll(Apply(s, Enqueue(cmd)), first), WriteSlot);
      var t := Apply(ApplyAll(written, second), SendCmd(sent));
      t.slots == Claimed(s.slots, s.nextId) && t.nextId == NextId(s.nextId) && t.producer == Absent
  {
    var queued := Apply(s, Enqueue(cmd));
    WorkerLeavesTable(queued, first);
    WorkerLeavesTable(Apply(ApplyAll(queued, first), WriteSlot), second);
  }

  // ---------------------------------------------------------------- all runs

  lemma RunSnoc(es: seq<Event>, e: Event)
    ensures Run(es + [e]) == Apply(Run(es), e)
  {
    assert (es + [e])[..|es|] == es;
  }

  lemma {:induction false} EmptyCounts(n: nat)
    ensures Count(EmptyTable(n), IsFailed) == Count(EmptyTable(n), IsUnfinished) == 0
  {
    CountSome(EmptyTable(n), IsFailed);
    CountSome(EmptyTable(n), IsUnfinished);
  }

  lemma ApplyGrows(s: State, e: Event)
    ensures s.recorded <= Apply(s, e).recorded
    ensures s.issued <= Apply(s, e).issued
  {}

  lemma {:induction false} RunKeeps(es: seq<Event>)
    requires |Run(es).issued| <= UINT32_MAX
    ensures Inv(Run(es))
  {
    if es == [] {
      EmptyCounts(MAX_ONGOING_JOBS);
    } else {
      ApplyGrows(Run(es[..|es| - 1]), es[|es| - 1]);
      RunKeeps(es[..|es| - 1]);
      ApplyKeeps(Run(es[..|es| - 1]), es[|es| - 1]);
    }
  }

  lemma {:induction false} FailuresGrow(a: seq<int>, b: seq<int>)
    requires a <= b
    ensures Failures(a) <= Failures(b)
  {
    if |a| < |b| {
      FailuresGrow(a, b[..|b| - 1]);
    } else {
      assert a == b;
    }
  }

  lemma {:induction false} RunGrows(es: seq<Event>, more: seq<Event>)
    ensures Run(es).recorded <= Run(es + more).recorded
    ensures Run(es).issued <= Run(es + more).issued
  {
    if more == [] {
      assert es + more == es;
    } else {
      var init, last := more[..|more| - 1], more[|more| - 1];
      RunGrows(es, init);
      assert es + more == (es + init) + [last];
      RunSnoc(es + init, last);
      ApplyGrows(Run(es + init), last);
    }
  }

  /** What has been recorded stays recorded, and the number of failed slots never decreases. */
  lemma HistoryGrows(es: seq<Event>, more: seq<Event>)
    ensures Run(es).recorded <= Run(es + more).recorded
    ensures Run(es).issued <= Run(es + more).issued
    ensures Failures(Run(es).recorded) <= Failures(Run(es + more).recorded)
  {
    RunGrows(es, more);
    FailuresGrow(Run(es).recorded, Run(es + more).recorded);
  }

  function OutstandingIds(s: State): set<nat> {
    (if s.phase.Running? then {s.phase.job.id} else if s.phase.Done? then {s.phase.id} else {})
    + (set j | j in s.queue :: j.id)
  }

  lemma OutstandingAre(s: State, id: nat)
    requires QueueInv(s)
    ensures id in OutstandingIds(s) <==> |s.recorded| < id <= |s.issued|
  {
    if TakenCount(s) < id <= |s.issued| {
      assert s.queue[id - TakenCount(s) - 1].id == id;
    }
  }

  lemma UnfinishedIsOutstanding(s: State, x: Slot)
    requires QueueInv(s) && TableInv(s.slots, WrittenCount(s), s.recorded)
    requires x in s.slots && KindOf(x) == IsUnfinished
    ensures x.id in OutstandingIds(s)
  {
    var i :| 0 <= i < |s.slots| && s.slots[i] == x;
    assert SlotOk(s.slots[i], WrittenCount(s), s.recorded);
    OutstandingAre(s, x.id);
  }

  /** Until the id counter wraps, live ids are distinct, and the unfinished slots are exactly
      those of the jobs that are queued or with the worker, bar the one a producer holding the
      lock has queued but not written yet. */
  lemma UnfinishedSlotsMatchJobs(es: seq<Event>)
    requires |Run(es).issued| <= UINT32_MAX
    ensures var s := Run(es);
      && (forall i, j :: 0 <= i < j < |s.slots| && s.slots[i].id == s.slots[j].id ==> s.slots[i].id == 0)
      && (forall id: nat :: id in OutstandingIds(s) <==> |s.recorded| < id <= |s.issued|)
      && (forall id: nat :: 1 <= id <= WrittenCount(s) ==> (InProgress(s.slots, id) <==> id in OutstandingIds(s)))
      && (forall x :: x in s.slots && KindOf(x) == IsUnfinished ==> x.id in OutstandingIds(s))
  {
    RunKeeps(es);
    var s := Run(es);
    forall id: nat ensures id in OutstandingIds(s) <==> |s.recorded| < id <= |s.issued| {
      OutstandingAre(s, id);
    }
    forall id: nat | 1 <= id <= WrittenCount(s) ensures InProgress(s.slots, id) <==> id in OutstandingIds(s) {
      TableStatus(s.slots, WrittenCount(s), s.recorded, id);
    }
    forall x | x in s.slots && KindOf(x) == IsUnfinished ensures x.id in OutstandingIds(s) {
      UnfinishedIsOutstanding(s, x);
    }
  }

  /** A wait on an id that queueDeferredWork returned comes back only when that job is recorded,
      then always, and with the recorded status. */
  lemma WaitReturnsRecordedStatus(es: seq<Event>, id: nat)
    requires |Run(es).issued| <= UINT32_MAX
    requires 1 <= id <= |Run(es).issued| - if Run(es).producer == Absent then 0 else 1
    ensures var s := Run(es);
      && (Wait(s, id).Returns? ==> id <= |s.recorded|)
      && (id <= |s.recorded| && s.producer == Absent ==> Wait(s, id) == Returns(s.recorded[id - 1]))
  {
    RunKeeps(es);
    TableStatus(Run(es).slots, WrittenCount(Run(es)), Run(es).recorded, id);
  }

  /** A lost command is never made up for: the queue is always that much longer than the commands for
      it. So when worker and producers have nothing left to do, the jobs that wait are the latest
      ones, as many as commands were lost. */
  lemma WaitingJobsAreLostCommands(es: seq<Event>)
    requires |Run(es).issued| <= UINT32_MAX
    ensures var s := Run(es);
      && |s.queue| == s.tokens + s.lost + (if s.producer == Absent then 0 else 1) <= |s.issued|
      && (s.phase == Idle && s.producer == Absent && s.tokens == 0 ==>
            forall id: nat :: 1 <= id <= |s.issued| ==> (Wait(s, id) == Waiting <==> |s.issued| - s.lost < id))
  {
    RunKeeps(es);
    var s := Run(es);
    if s.phase == Idle && s.producer == Absent && s.tokens == 0 {
      forall id: nat | 1 <= id <= |s.issued| ensures Wait(s, id) == Waiting <==> |s.issued| - s.lost < id {
        TableStatus(s.slots, WrittenCount(s), s.recorded, id);
      }
    }
  }

  /** When a job runs, every job issued before it has been recorded. */
  lemma JobsRunInOrder(es: seq<Event>, id: nat)
    requires |Run(es).issued| <= UINT32_MAX
    requires Run(es).phase.Running? && 1 <= id < Run(es).phase.job.id
    ensures id <= |Run(es).recorded|
    ensures Run(es).producer == Absent ==> Wait(Run(es), id) == Returns(Run(es).recorded[id - 1])
  {
    RunKeeps(es);
    TableStatus(Run(es).slots, WrittenCount(Run(es)), Run(es).recorded, id);
  }

  /** `status` is the code of the latest of the first k jobs that reported one, or 0 if none did. */
  ghost predicate LatestReport(ran: seq<Ran>, k: nat, status: int)
    requires k <= |ran|
  {
    || (status == NO_ERROR && forall j :: 0 <= j < k ==> !Reports(ran[j]))
    || (exists j :: 0 <= j < k && Reports(ran[j]) && status == ran[j].code
                    && forall m :: j < m < k ==> !Reports(ran[m]))
  }

  lemma {:induction false} StatusAfterIsLatestReport(ran: seq<Ran>, k: nat)
    requires k <= |ran|
    ensures LatestReport(ran, k, StatusAfter(ran, k))
  {
    if k > 0 {
      StatusAfterIsLatestReport(ran, k - 1);
      if Reports(ran[k - 1]) {
        assert StatusAfter(ran, k) == ran[k - 1].code;
      } else if !(forall j :: 0 <= j < k - 1 ==> !Reports(ran[j])) {
        var j :| 0 <= j < k - 1 && Reports(ran[j]) && StatusAfter(ran, k - 1) == ran[j].code
                    && forall m :: j < m < k - 1 ==> !Reports(ran[m]);
        assert Reports(ran[j]) && forall m :: j < m < k ==> !Reports(ran[m]);
      }
    }
  }

  lemma RecordedAt(es: seq<Event>, k: nat)
    requires |Run(es).issued| <= UINT32_MAX && k < |Run(es).recorded|
    ensures k < |Run(es).ran| && k < |Run(es).issued|
    ensures Run(es).ran[k].cmd == Run(es).issued[k]
    ensures Run(es).recorded[k] == StatusAfter(Run(es).ran, k + 1)
  {
    RunKeeps(es);
  }

  /** The worker's status variable is not reset between jobs: the status recorded for a job is
      that of the latest job so far that assigned one. */
  lemma RecordedStatusIsLatestReport(es: seq<Event>, k: nat)
    requires |Run(es).issued| <= UINT32_MAX && k < |Run(es).recorded|
    ensures k < |Run(es).ran| && k < |Run(es).issued|
    ensures Run(es).ran[k].cmd == Run(es).issued[k]
    ensures LatestReport(Run(es).ran, k + 1, Run(es).recorded[k])
  {
    RecordedAt(es, k);
    StatusAfterIsLatestReport(Run(es).ran, k + 1);
  }

  /** The Exec events of a run that executed a job, in order. */
  function Execs(es: seq<Event>): seq<Event> {
    if es == [] then []
    else
      var before, e := es[..|es| - 1], es[|es| - 1];
      Execs(before) + if e.Exec? && Run(before).phase.Running? then [e] else []
  }

  /** What each executed job found and assigned: an earlier job of the four that ask for one passes
      its failure on, and otherwise the status is what the event says. */
  ghost predicate CodesFrom(execs: seq<Event>, ran: seq<Ran>, recorded: seq<int>) {
    && |execs| == |ran| <= |recorded| + 1
    && forall k :: 0 <= k < |ran| ==>
         && execs[k].Exec? && ran[k].dep == execs[k].dep
         && ran[k].code ==
            if ran[k].cmd in {PprocStart, MetadataAlloc, CreateJpegSession, ParamInit}
               && 1 <= ran[k].dep <= k && recorded[ran[k].dep - 1] != NO_ERROR
            then recorded[ran[k].dep - 1] else execs[k].code
  }

  lemma AssignedIs(slots: seq<Slot>, written: int, recorded: seq<int>, cmd: Cmd, dep: nat, code: int)
    requires TableInv(slots, written, recorded)
    ensures Assigned(slots, cmd, dep, code) ==
      if cmd in {PprocStart, MetadataAlloc, CreateJpegSession, ParamInit}
         && 1 <= dep <= |recorded| && recorded[dep - 1] != NO_ERROR
      then recorded[dep - 1] else code
  {
    var i := FirstIdx(slots, dep);
    if i < |slots| {
      assert SlotOk(slots[i], written, recorded);
    } else if 1 <= dep <= written {
      TableStatus(slots, written, recorded, dep);
    }
  }

  lemma OneMoreCode(execs: seq<Event>, ran: seq<Ran>, recorded: seq<int>, e: Event, x: Ran)
    requires CodesFrom(execs, ran, recorded) && |ran| == |recorded| && e.Exec? && x.dep == e.dep
    requires x.code == if x.cmd in {PprocStart, MetadataAlloc, CreateJpegSession, ParamInit}
                          && 1 <= x.dep <= |recorded| && recorded[x.dep - 1] != NO_ERROR
                       then recorded[x.dep - 1] else e.code
    ensures CodesFrom(execs + [e], ran + [x], recorded)
  {}

  lemma SameCodes(execs: seq<Event>, ran: seq<Ran>, recorded: seq<int>, recorded': seq<int>)
    requires CodesFrom(execs, ran, recorded) && recorded <= recorded'
    ensures CodesFrom(execs, ran, recorded')
  {}

  lemma OthersKeepRan(s: State, e: Event)
    requires !(e.Exec? && s.phase.Running?)
    ensures Apply(s, e).ran == s.ran && s.recorded <= Apply(s, e).recorded
  {}

  lemma {:induction false} RunCodes(es: seq<Event>)
    requires |Run(es).issued| <= UINT32_MAX
    ensures CodesFrom(Execs(es), Run(es).ran, Run(es).recorded)
  {
    if es != [] {
      var before, e := es[..|es| - 1], es[|es| - 1];
      var s := Run(before);
      ApplyGrows(s, e);
      RunKeeps(before);
      RunCodes(before);
      if e.Exec? && s.phase.Running? {
        var x := Ran(s.phase.job.cmd, e.dep, Assigned(s.slots, s.phase.job.cmd, e.dep, e.code));
        ExecFields(s, e.dep, e.code);
        AssignedIs(s.slots, WrittenCount(s), s.recorded, s.phase.job.cmd, e.dep, e.code);
        OneMoreCode(Execs(before), s.ran, s.recorded, e, x);
      } else {
        OthersKeepRan(s, e);
        SameCodes(Execs(before), s.ran, s.recorded, Apply(s, e).recorded);
      }
    }
  }

  lemma StatusAfterStep(ran: seq<Ran>, recorded: seq<int>, k: nat)
    requires k < |ran| && k < |recorded| && recorded[k] == StatusAfter(ran, k + 1)
    requires k > 0 ==> recorded[k - 1] == StatusAfter(ran, k)
    ensures recorded[k] == if ran[k].cmd == Generic || ran[k].code != 0 then ran[k].code
                           else if k == 0 then 0 else recorded[k - 1]
  {}

  lemma RecordedIn(s: State, k: nat)
    requires Core(s) && k < |s.recorded|
    ensures k < |s.ran| && k < |s.issued| && s.ran[k].cmd == s.issued[k]
    ensures s.recorded[k] == if s.ran[k].cmd == Generic || s.ran[k].code != 0 then s.ran[k].code
                             else if k == 0 then 0 else s.recorded[k - 1]
  {
    StatusAfterStep(s.ran, s.recorded, k);
  }

  lemma RecordedFrom(es: seq<Event>, k: nat)
    requires |Run(es).issued| <= UINT32_MAX && k < |Run(es).recorded|
    ensures var s := Run(es);
      && k < |s.ran| && k < |s.issued| && s.ran[k].cmd == s.issued[k]
      && s.recorded[k] == if s.ran[k].cmd == Generic || s.ran[k].code != 0 then s.ran[k].code
                          else if k == 0 then 0 else s.recorded[k - 1]
  {
    RunKeeps(es);
    RecordedIn(Run(es), k);
  }

  lemma CodeFrom(es: seq<Event>, k: nat)
    requires |Run(es).issued| <= UINT32_MAX && k < |Run(es).ran| && k <= |Run(es).recorded|
    ensures k < |Execs(es)| && Execs(es)[k].Exec?
    ensures var recorded, x, exec := Run(es).recorded, Run(es).ran[k], Execs(es)[k];
      && x.dep == exec.dep
      && x.code == if x.cmd in {PprocStart, MetadataAlloc, CreateJpegSession, ParamInit}
                      && 1 <= x.dep <= k && recorded[x.dep - 1] != 0
                   then recorded[x.dep - 1] else exec.code
  {
    RunCodes(es);
  }

  /** What a job's recorded status comes from, step by step: the code the job assigned, if it was
      generic or assigned an error, and otherwise the status of the job before it, 0 for the first.
      And the code is what executing the job gave, unless it was one of the four that ask for an
      earlier job's status and that one had failed. */
  lemma RecordedStatusIs(es: seq<Event>, k: nat)
    requires |Run(es).issued| <= UINT32_MAX && k < |Run(es).recorded|
    ensures k < |Run(es).ran| && k < |Run(es).issued| && k < |Execs(es)| && Execs(es)[k].Exec?
    ensures var recorded, x, exec := Run(es).recorded, Run(es).ran[k], Execs(es)[k];
      && x.cmd == Run(es).issued[k] && x.dep == exec.dep
      && recorded[k] == (if x.cmd == Generic || x.code != 0 then x.code else if k == 0 then 0 else recorded[k - 1])
      && x.code == (if x.cmd in {PprocStart, MetadataAlloc, CreateJpegSession, ParamInit}
                       && 1 <= x.dep <= k && recorded[x.dep - 1] != 0
                    then recorded[x.dep - 1] else exec.code)
  {
    RecordedFrom(es, k);
    CodeFrom(es, k);
  }

  /** Hence one failure makes every later job count as failed until a Generic job runs. */
  lemma {:induction false} FailureSticks(es: seq<Event>, j: nat, k: nat)
    requires |Run(es).issued| <= UINT32_MAX
    requires j <= k < |Run(es).recorded| && Run(es).recorded[j] != NO_ERROR
    requires forall m :: j < m <= k && m < |Run(es).issued| ==> Run(es).issued[m] != Generic
    ensures Run(es).recorded[k] != NO_ERROR
  {
    if j < k {
      FailureSticks(es, j, k - 1);
      RecordedAt(es, k);
      RecordedAt(es, k - 1);
    }
  }

  /** A job that depends on a failed one fails with the same status. */
  lemma DependencyFailurePropagates(es: seq<Event>, k: nat)
    requires |Run(es).issued| <= UINT32_MAX && k < |Run(es).recorded| && k < |Run(es).ran|
    requires Dependent(Run(es).ran[k].cmd) && 1 <= Run(es).ran[k].dep <= k
    requires Run(es).recorded[Run(es).ran[k].dep - 1] != NO_ERROR
    ensures Run(es).recorded[k] == Run(es).recorded[Run(es).ran[k].dep - 1]
  {
    RunKeeps(es);
  }

  /** Every slot is free, unfinished or failed; the failed ones are counted by the history; and a
      new job is refused exactly when no slot is free. */
  lemma SlotAccounting(es: seq<Event>)
    requires |Run(es).issued| <= UINT32_MAX
    ensures var s := Run(es);
      && Count(s.slots, IsFree) + Count(s.slots, IsUnfinished) + Count(s.slots, IsFailed) == 25
      && Count(s.slots, IsFailed) == Failures(s.recorded)
      && Count(s.slots, IsUnfinished) == WrittenCount(s) - |s.recorded|
      && (Full(s.slots) <==> Count(s.slots, IsFree) == 0)
  {
    RunKeeps(es);
    CountTotal(Run(es).slots);
    CountSome(Run(es).slots, IsFree);
  }

  lemma ExhaustedIsFull(es: seq<Event>)
    requires |Run(es).issued| <= UINT32_MAX && Failures(Run(es).recorded) >= MAX_ONGOING_JOBS
    ensures Full(Run(es).slots)
  {
    SlotAccounting(es);
  }

  lemma FullRefuses(s: State, e: Event)
    requires Full(s.slots)
    ensures Apply(s, e).issued == s.issued
  {}

  lemma OneMoreRefused(es: seq<Event>, e: Event)
    requires |Run(es).issued| <= UINT32_MAX && Failures(Run(es).recorded) >= 25
    ensures Run(es + [e]).issued == Run(es).issued
  {
    ExhaustedIsFull(es);
    FullRefuses(Run(es), e);
    RunSnoc(es, e);
  }

  /** After 25 failures no job is ever accepted again. */
  lemma {:induction false} FailuresExhaustTheTable(es: seq<Event>, more: seq<Event>)
    requires |Run(es).issued| <= UINT32_MAX && Failures(Run(es).recorded) >= 25
    ensures Run(es + more).issued == Run(es).issued
  {
    if more == [] {
      assert es + more == es;
    } else {
      var last := |more| - 1;
      FailuresExhaustTheTable(es, more[..last]);
      HistoryGrows(es, more[..last]);
      OneMoreRefused(es + more[..last], more[last]);
      assert es + more == (es + more[..last]) + [more[last]];
    }
  }

  // ---------------------------------------------------------------- distinct ids, at any time

  ghost predicate DistinctIds(slots: seq<Slot>) {
    forall i, j :: 0 <= i < j < |slots| && slots[i].id == slots[j].id ==> slots[i].id == 0
  }

  /** A producer writes an id that is still in another slot. */
  ghost predicate Clashes(s: State, e: Event) {
    && e == WriteSlot && s.producer.Enqueued? && s.producer.slot < |s.slots| && 1 <= s.nextId <= UINT32_MAX
    && exists j :: 0 <= j < |s.slots| && j != s.producer.slot && s.slots[j].id == s.nextId
  }

  lemma WriteDistinct(slots: seq<Slot>, i: nat, id: nat)
    requires DistinctIds(slots) && i < |slots| && id > 0
    ensures DistinctIds(slots[i := Slot(id, NO_ERROR)])
       <==> forall j :: 0 <= j < |slots| && j != i ==> slots[j].id != id
  {
    var slots' := slots[i := Slot(id, NO_ERROR)];
    if j :| 0 <= j < |slots| && j != i && slots[j].id == id {
      assert slots'[j].id == slots'[i].id == id;
    }
  }

  lemma RecordDistinct(slots: seq<Slot>, id: nat, status: int)
    requires DistinctIds(slots)
    ensures DistinctIds(Recorded(slots, id, status))
  {}

  lemma StepDistinct(s: State, e: Event)
    requires DistinctIds(s.slots)
    ensures DistinctIds(Apply(s, e).slots) <==> !Clashes(s, e)
  {
    match e
    case WriteSlot =>
      if s.producer.Enqueued? && s.producer.slot < |s.slots| && 1 <= s.nextId <= UINT32_MAX {
        WriteDistinct(s.slots, s.producer.slot, s.nextId);
      }
    case Record => if s.phase.Done? { RecordDistinct(s.slots, s.phase.id, s.jobStatus); }
    case _ =>
  }

  /** Live ids are distinct now and were at every earlier moment. */
  ghost predicate AlwaysDistinct(es: seq<Event>) {
    DistinctIds(Run(es).slots) && (es != [] ==> AlwaysDistinct(es[..|es| - 1]))
  }

  ghost predicate NeverClashes(es: seq<Event>) {
    es != [] ==> NeverClashes(es[..|es| - 1]) && !Clashes(Run(es[..|es| - 1]), es[|es| - 1])
  }

  /** With or without a wrap: live ids are distinct throughout a run if and only if no id was ever
      given out while it still stood in the table. */
  lemma {:induction false} DistinctIffNoClash(es: seq<Event>)
    ensures AlwaysDistinct(es) <==> NeverClashes(es)
  {
    if es == [] {
      RunKeeps(es);
    } else {
      DistinctIffNoClash(es[..|es| - 1]);
      if AlwaysDistinct(es[..|es| - 1]) {
        StepDistinct(Run(es[..|es| - 1]), es[|es| - 1]);
      }
    }
  }

  // ---------------------------------------------------------------- past the wrap

  const CODE := -1

  function OneFailed(): seq<Slot> {
    [Slot(1, CODE)] + EmptyTable(MAX_ONGOING_JOBS - 1)
  }

  /** Nothing is queued, running or being issued. */
  predicate AtRest(s: State) {
    s.queue == [] && s.tokens == 0 && s.phase == Idle && s.producer == Absent
  }

  ghost predicate Quiet(s: State, issued: nat) {
    && s.slots == OneFailed() && AtRest(s) && |s.issued| == issued
    && s.nextId == if issued == UINT32_MAX then 1 else issued + 1
  }

  lemma JobIssued(s: State)
    requires AtRest(s) && !Full(s.slots) && 1 <= s.nextId <= UINT32_MAX
    ensures var t := Apply(Apply(Apply(s, Enqueue(Generic)), WriteSlot), SendCmd(true));
      && t.slots == Claimed(s.slots, s.nextId) && t.nextId == NextId(s.nextId) && t.tokens == 1
      && t.queue == [Job(s.nextId, Generic)] && t.phase == Idle && t.producer == Absent
      && |t.issued| == |s.issued| + 1
  {}

  lemma JobDone(s: State, id: nat, code: int)
    requires s.queue == [Job(id, Generic)] && s.tokens == 1 && s.phase == Idle && s.producer == Absent
    ensures var t := Apply(Apply(Apply(s, Take), Exec(0, code)), Record);
      && t.slots == Recorded(s.slots, id, code) && t.nextId == s.nextId && AtRest(t) && t.issued == s.issued
  {}

  lemma RunThree(es: seq<Event>, a: Event, b: Event, c: Event)
    ensures Run(es + [a] + [b] + [c]) == Apply(Apply(Apply(Run(es), a), b), c)
  {
    RunSnoc(es, a);
    RunSnoc(es + [a], b);
    RunSnoc(es + [a] + [b], c);
  }

  lemma GenericRound(es: seq<Event>, slots: seq<Slot>, code: int) returns (fs: seq<Event>)
    requires AtRest(Run(es)) && Run(es).slots == slots && !Full(slots) && 1 <= Run(es).nextId <= UINT32_MAX
    ensures var s, t := Run(es), Run(fs);
      && t.slots == Recorded(Claimed(slots, s.nextId), s.nextId, code) && t.nextId == NextId(s.nextId)
      && AtRest(t) && |t.issued| == |s.issued| + 1
  {
    var issued := es + [Enqueue(Generic)] + [WriteSlot] + [SendCmd(true)];
    RunThree(es, Enqueue(Generic), WriteSlot, SendCmd(true));
    JobIssued(Run(es));
    fs := issued + [Take] + [Exec(0, code)] + [Record];
    RunThree(issued, Take, Exec(0, code), Record);
    JobDone(Run(issued), Run(es).nextId, code);
  }

  lemma FirstFails()
    ensures !Full(EmptyTable(MAX_ONGOING_JOBS))
    ensures Recorded(Claimed(EmptyTable(MAX_ONGOING_JOBS), 1), 1, CODE) == OneFailed()
  {
    FirstIdxUnique(EmptyTable(MAX_ONGOING_JOBS), 0, 0);
    FirstIdxUnique(Claimed(EmptyTable(MAX_ONGOING_JOBS), 1), 1, 0);
  }

  /** A job that succeeds next to the failed one leaves the table as it was. */
  lemma OneMore(n: nat)
    requires n > 1
    ensures FirstIdx(OneFailed(), 0) == 1 && !Full(OneFailed())
    ensures Recorded(Claimed(OneFailed(), n), n, NO_ERROR) == OneFailed()
  {
    FirstIdxUnique(OneFailed(), 0, 1);
    FirstIdxUnique(Claimed(OneFailed(), n), n, 1);
  }

  lemma QuietStart() returns (es: seq<Event>)
    ensures Quiet(Run(es), 1)
  {
    FirstFails();
    es := GenericRound([], EmptyTable(MAX_ONGOING_JOBS), CODE);
  }

  lemma QuietStep(es: seq<Event>, n: nat) returns (fs: seq<Event>)
    requires 1 < n <= UINT32_MAX && Quiet(Run(es), n - 1)
    ensures Quiet(Run(fs), n)
  {
    OneMore(n);
    fs := GenericRound(es, OneFailed(), NO_ERROR);
  }

  lemma {:induction false} QuietRun(n: nat) returns (es: seq<Event>)
    requires 1 <= n <= UINT32_MAX
    ensures Quiet(Run(es), n)
  {
    if n == 1 {
      es := QuietStart();
    } else {
      es := QuietRun(n - 1);
      es := QuietStep(es, n);
    }
  }

  lemma PastTheWrap(s: State)
    requires Quiet(s, UINT32_MAX)
    ensures var t := Apply(Apply(Apply(s, Enqueue(Generic)), WriteSlot), SendCmd(true));
      && |t.issued| == 0x1_0000_0000 && |t.slots| == 25
      && t.slots[0].id == t.slots[1].id == 1 && t.queue == [Job(1, Generic)]
      && Wait(t, 1) == Returns(CODE)
  {
    FirstIdxUnique(OneFailed(), 0, 1);
    JobIssued(s);
  }

  /** The bound is needed: with one failed job kept in the table, the job issued right after the
      wrap shares its id, and a wait on the new job returns the old job's status at once. */
  lemma WrapBreaksDistinctIds() returns (es: seq<Event>)
    ensures var s := Run(es);
      && |s.issued| == 0x1_0000_0000 && |s.slots| == 25
      && s.slots[0].id == s.slots[1].id == 1 && s.queue == [Job(1, Generic)]
      && Wait(s, 1) == Returns(CODE)
  {
    var before := QuietRun(UINT32_MAX);
    PastTheWrap(Run(before));
    RunThree(before, Enqueue(Generic), WriteSlot, SendCmd(true));
    es := before + [Enqueue(Generic)] + [WriteSlot] + [SendCmd(true)];
  }
}
