/** Deferred work past the wrap of the 32-bit job id. A run is compared with the same run of a
    scheduler whose ids are the numbers of the jobs, without bound: as long as no id is given out to
    a job while an earlier job with that id still stands in the table, the two go hand in hand. */
module DeferredWrap {
  import opened DeferredWork
  import opened DeferredRuns

  /** The id of the n-th job. */
  function IdOf(n: nat): (id: nat)
    ensures id <= UINT32_MAX && (id == 0 <==> n == 0)
  {
    if n == 0 then 0 else (n - 1) % UINT32_MAX + 1
  }

  predicate Congruent(m: nat, n: nat) {
    (n - m) % UINT32_MAX == 0
  }

  lemma SameId(m: nat, n: nat)
    requires 1 <= m && 1 <= n
    ensures IdOf(m) == IdOf(n) <==> Congruent(m, n)
  {}

  lemma NextIdOf(n: nat)
    requires 1 <= n
    ensures NextId(IdOf(n)) == IdOf(n + 1)
  {}

  // ---------------------------------------------------------------- the unbounded scheduler

  /** The number of the job whose id stands in the table, given the table with numbers. */
  function NumberOf(slots: seq<Slot>, numbers: seq<Slot>, id: nat): nat {
    var i := FirstIdx(slots, id);
    if i < |slots| && i < |numbers| then numbers[i].id else 0
  }

  /** The event with the number of the job it names in place of its id. */
  function Numbered(s: State, t: State, e: Event): Event {
    match e
    case Exec(dep, code) => Exec(NumberOf(s.slots, t.slots, dep), code)
    case _ => e
  }

  function Step(t: State, e: Event): State {
    if e != WriteSlot then Apply(t, e)
    else if t.producer.Enqueued? && t.producer.slot < |t.slots| then Wrote(t, t.nextId + 1)
    else t
  }

  function Unbounded(es: seq<Event>): State {
    if es == [] then Init()
    else
      var before, e := es[..|es| - 1], es[|es| - 1];
      Step(Unbounded(before), Numbered(Run(before), Unbounded(before), e))
  }

  ghost predicate UnboundedInv(t: State) {
    Core(t) && t.nextId == WrittenCount(t) + 1
  }

  lemma StepKeeps(t: State, e: Event)
    requires UnboundedInv(t)
    ensures UnboundedInv(Step(t, e))
  {
    match e
    case Enqueue(cmd) =>
      if t.producer == Absent && !Full(t.slots) {
        EnqueueFields(t, cmd);
        EnqueueKeeps(t, cmd);
      }
    case WriteSlot => if t.producer.Enqueued? { WriteSlotKeeps(t, t.nextId + 1); }
    case _ => OthersKeepCore(t, e);
  }

  lemma {:induction false} UnboundedKeeps(es: seq<Event>)
    ensures UnboundedInv(Unbounded(es))
  {
    if es == [] {
      EmptyCounts(MAX_ONGOING_JOBS);
    } else {
      var before := es[..|es| - 1];
      UnboundedKeeps(before);
      StepKeeps(Unbounded(before), Numbered(Run(before), Unbounded(before), es[|es| - 1]));
    }
  }

  // ---------------------------------------------------------------- hand in hand

  ghost predicate SameSlots(ss: seq<Slot>, ts: seq<Slot>) {
    |ss| == |ts| && forall i :: 0 <= i < |ss| ==> ss[i] == Slot(IdOf(ts[i].id), ts[i].status)
  }

  function JobOf(j: Job): Job {
    Job(IdOf(j.id), j.cmd)
  }

  function PhaseOf(p: Phase): Phase {
    match p
    case Idle => Idle
    case Running(job) => Running(JobOf(job))
    case Done(id) => Done(IdOf(id))
  }

  /** The state of the scheduler and that of the unbounded one, but for the jobs executed, whose
      `dep` is an id in one and a number in the other. */
  ghost predicate Matches(s: State, t: State) {
    && SameSlots(s.slots, t.slots) && s.nextId == IdOf(t.nextId)
    && |s.queue| == |t.queue| && (forall k :: 0 <= k < |s.queue| ==> s.queue[k] == JobOf(t.queue[k]))
    && s.phase == PhaseOf(t.phase) && s.producer == t.producer
    && s.tokens == t.tokens && s.lost == t.lost && s.jobStatus == t.jobStatus
    && s.issued == t.issued && s.recorded == t.recorded
  }

  lemma SameFree(ss: seq<Slot>, ts: seq<Slot>)
    requires SameSlots(ss, ts)
    ensures FirstIdx(ss, 0) == FirstIdx(ts, 0)
  {
    FirstIdxUnique(ss, 0, FirstIdx(ts, 0));
  }

  /** A number in the table is found where its id is. */
  lemma SamePlace(ss: seq<Slot>, ts: seq<Slot>, n: nat)
    requires SameSlots(ss, ts) && DistinctIds(ss) && 1 <= n && HasSlot(ts, n)
    ensures FirstIdx(ss, IdOf(n)) == FirstIdx(ts, n) < |ts|
  {
    var i := FirstIdx(ts, n);
    assert ss[i].id == IdOf(n);
    FirstIdxUnique(ss, IdOf(n), i);
  }

  lemma SameStatus(ss: seq<Slot>, ts: seq<Slot>, dep: nat)
    requires SameSlots(ss, ts) && DistinctIds(ts)
    requires forall i :: 0 <= i < |ts| && ts[i].id == 0 ==> ts[i].status == NO_ERROR
    ensures StatusOf(ts, NumberOf(ss, ts, dep)) == StatusOf(ss, dep)
  {
    var i := FirstIdx(ss, dep);
    if i < |ss| && ts[i].id > 0 {
      FirstIdxUnique(ts, ts[i].id, i);
    }
  }

  lemma EnqueueMatches(s: State, t: State, cmd: Cmd)
    requires Matches(s, t) && UnboundedInv(t)
    ensures Matches(Apply(s, Enqueue(cmd)), Apply(t, Enqueue(cmd)))
  {
    SameFree(s.slots, t.slots);
  }

  lemma WriteMatches(s: State, t: State)
    requires Matches(s, t) && UnboundedInv(t)
    ensures Matches(Apply(s, WriteSlot), Step(t, WriteSlot))
  {
    NextIdOf(t.nextId);
  }

  lemma TakeMatches(s: State, t: State)
    requires Matches(s, t)
    ensures Matches(Apply(s, Take), Apply(t, Take))
  {}

  lemma ExecMatches(s: State, t: State, dep: nat, code: int)
    requires Matches(s, t) && UnboundedInv(t)
    ensures Matches(Apply(s, Exec(dep, code)), Apply(t, Exec(NumberOf(s.slots, t.slots, dep), code)))
  {
    forall i | 0 <= i < |t.slots| && t.slots[i].id == 0 ensures t.slots[i].status == NO_ERROR {
      assert SlotOk(t.slots[i], WrittenCount(t), t.recorded);
    }
    SameStatus(s.slots, t.slots, dep);
    if t.phase.Running? {
      ExecFields(s, dep, code);
      ExecFields(t, NumberOf(s.slots, t.slots, dep), code);
    }
  }

  lemma RecordMatches(s: State, t: State)
    requires Matches(s, t) && UnboundedInv(t) && DistinctIds(s.slots)
    ensures Matches(Apply(s, Record), Apply(t, Record))
  {
    if t.phase.Done? && t.producer == Absent {
      assert Live(t.phase.id, t.recorded);
      assert HasSlot(t.slots, t.phase.id);
      SamePlace(s.slots, t.slots, t.phase.id);
    }
  }

  lemma StepMatches(s: State, t: State, e: Event)
    requires Matches(s, t) && UnboundedInv(t) && DistinctIds(s.slots)
    ensures Matches(Apply(s, e), Step(t, Numbered(s, t, e)))
  {
    match e
    case Enqueue(cmd) => EnqueueMatches(s, t, cmd);
    case WriteSlot => WriteMatches(s, t);
    case SendCmd(sent) =>
    case Take => TakeMatches(s, t);
    case Exec(dep, code) => ExecMatches(s, t, dep, code);
    case Record => RecordMatches(s, t);
  }

  /** As long as live ids have been distinct the scheduler does what the unbounded one does. */
  lemma {:induction false} UnboundedMatches(es: seq<Event>)
    requires AlwaysDistinct(es)
    ensures Matches(Run(es), Unbounded(es))
  {
    if es != [] {
      var before := es[..|es| - 1];
      UnboundedMatches(before);
      UnboundedKeeps(before);
      StepMatches(Run(before), Unbounded(before), es[|es| - 1]);
    }
  }

  // ---------------------------------------------------------------- when ids are reused

  /** The job whose slot is written gets the id of an earlier one that is not recorded or failed. */
  ghost predicate Reuses(s: State, e: Event) {
    && e == WriteSlot && s.producer.Enqueued?
    && exists n: nat :: 1 <= n <= WrittenCount(s) && Live(n, s.recorded) && Congruent(n, WrittenCount(s) + 1)
  }

  /** No two jobs of a run have congruent numbers of which the earlier was not recorded, or had
      failed, when the later got its slot. */
  ghost predicate NeverReuses(es: seq<Event>) {
    es != [] ==> NeverReuses(es[..|es| - 1]) && !Reuses(Run(es[..|es| - 1]), es[|es| - 1])
  }

  lemma ReusesClashes(s: State, t: State, n: nat)
    requires Matches(s, t) && UnboundedInv(t) && s.producer.Enqueued?
    requires 1 <= n <= WrittenCount(s) && Live(n, s.recorded) && Congruent(n, WrittenCount(s) + 1)
    ensures Clashes(s, WriteSlot)
  {
    assert HasSlot(t.slots, n);
    var j :| 0 <= j < |t.slots| && t.slots[j].id == n;
    SameId(n, t.nextId);
    assert s.slots[j].id == s.nextId;
  }

  lemma ClashReuses(s: State, t: State, e: Event)
    requires Matches(s, t) && UnboundedInv(t)
    ensures Clashes(s, e) <==> Reuses(s, e)
  {
    if Clashes(s, e) {
      var j :| 0 <= j < |s.slots| && j != s.producer.slot && s.slots[j].id == s.nextId;
      assert SlotOk(t.slots[j], WrittenCount(t), t.recorded);
      SameId(t.slots[j].id, t.nextId);
      assert Live(t.slots[j].id, s.recorded) && Congruent(t.slots[j].id, WrittenCount(s) + 1);
    }
    if Reuses(s, e) {
      var n: nat :| 1 <= n <= WrittenCount(s) && Live(n, s.recorded) && Congruent(n, WrittenCount(s) + 1);
      ReusesClashes(s, t, n);
    }
  }

  /** Live ids are distinct throughout a run if and only if none is reused: a condition on the jobs
      issued and the statuses recorded alone. */
  lemma {:induction false} DistinctIffNeverReused(es: seq<Event>)
    ensures AlwaysDistinct(es) <==> NeverReuses(es)
  {
    DistinctIffNoClash(es);
    if es != [] {
      var before := es[..|es| - 1];
      DistinctIffNeverReused(before);
      DistinctIffNoClash(before);
      if AlwaysDistinct(before) {
        UnboundedMatches(before);
        UnboundedKeeps(before);
        ClashReuses(Run(before), Unbounded(before), es[|es| - 1]);
      }
    }
  }

  lemma NearNotCongruent(s: State, e: Event)
    requires |s.issued| <= UINT32_MAX
    ensures !Reuses(s, e)
  {
    forall n: nat | 1 <= n <= WrittenCount(s) && s.producer.Enqueued? && Live(n, s.recorded)
      ensures !Congruent(n, WrittenCount(s) + 1)
    {
      assert 0 < WrittenCount(s) + 1 - n < UINT32_MAX;
    }
  }

  /** Until the counter wraps no id is reused. */
  lemma {:induction false} NoneReusedBeforeWrap(es: seq<Event>)
    requires |Run(es).issued| <= UINT32_MAX
    ensures NeverReuses(es)
  {
    if es != [] {
      ApplyGrows(Run(es[..|es| - 1]), es[|es| - 1]);
      NoneReusedBeforeWrap(es[..|es| - 1]);
      NearNotCongruent(Run(es[..|es| - 1]), es[|es| - 1]);
    }
  }

  // ---------------------------------------------------------------- waits, wrap or no wrap

  /** Of two jobs with the same id the earlier was recorded as done, for good. */
  ghost predicate EarlierDone(s: State) {
    forall m: nat, n: nat :: 1 <= m < n <= WrittenCount(s) && Congruent(m, n) ==> !Live(m, s.recorded)
  }

  lemma EarlierStaysDone(s: State, e: Event)
    requires EarlierDone(s) && !Reuses(s, e) && WrittenCount(s) >= 0
    ensures EarlierDone(Apply(s, e))
  {
    var t := Apply(s, e);
    ApplyGrows(s, e);
    forall m: nat, n: nat | 1 <= m < n <= WrittenCount(t) && Congruent(m, n) ensures !Live(m, t.recorded) {
      assert !Live(m, s.recorded);
    }
  }

  lemma {:induction false} EarlierAlwaysDone(es: seq<Event>)
    requires NeverReuses(es)
    ensures EarlierDone(Run(es)) && WrittenCount(Run(es)) >= 0
  {
    if es != [] {
      EarlierAlwaysDone(es[..|es| - 1]);
      EarlierStaysDone(Run(es[..|es| - 1]), es[|es| - 1]);
    }
  }

  lemma GoneFromTable(s: State, t: State, n: nat)
    requires Matches(s, t) && UnboundedInv(t) && EarlierDone(s)
    requires 1 <= n <= WrittenCount(s) && !Live(n, s.recorded)
    requires forall m :: n < m <= WrittenCount(s) ==> !Congruent(n, m)
    ensures FirstIdx(s.slots, IdOf(n)) == |s.slots|
  {
    forall j | 0 <= j < |s.slots| ensures s.slots[j].id != IdOf(n) {
      var m := t.slots[j].id;
      assert SlotOk(t.slots[j], WrittenCount(t), t.recorded);
      if m > 0 && IdOf(m) == IdOf(n) {
        SameId(m, n);
        SameId(n, m);
      }
    }
  }

  /** However many jobs were issued: a wait on a job's id, as long as no later job has it, comes back
      only when that job is recorded, then always, and with the recorded status. */
  lemma WaitReturnsLatestStatus(es: seq<Event>, n: nat)
    requires NeverReuses(es)
    requires 1 <= n <= |Run(es).issued| - if Run(es).producer == Absent then 0 else 1
    requires forall m :: n < m <= WrittenCount(Run(es)) ==> !Congruent(n, m)
    ensures var s := Run(es);
      && (Wait(s, IdOf(n)).Returns? ==> n <= |s.recorded|)
      && (n <= |s.recorded| && s.producer == Absent ==> Wait(s, IdOf(n)) == Returns(s.recorded[n - 1]))
  {
    var s, t := Run(es), Unbounded(es);
    DistinctIffNeverReused(es);
    UnboundedMatches(es);
    UnboundedKeeps(es);
    EarlierAlwaysDone(es);
    if Live(n, s.recorded) {
      assert HasSlot(t.slots, n);
      SamePlace(s.slots, t.slots, n);
      assert SlotOk(t.slots[FirstIdx(t.slots, n)], WrittenCount(t), t.recorded);
    } else {
      GoneFromTable(s, t, n);
    }
  }
}
