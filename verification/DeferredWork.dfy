/** The camera HAL's table of deferred jobs: a fixed array of slots, scanned and updated in
    place under the deferred-work lock, and the functions on its contents that the protocol in
    DeferredRuns reasons with. */
module DeferredWork {
  import opened Sequences

  const MAX_ONGOING_JOBS := 25
  const UINT32_MAX := 0xFFFF_FFFF
  const NO_ERROR := 0
  const UNKNOWN_ERROR := 0x8000_0000

  /** A slot is free when its id is 0, unfinished when its id is live and its status is 0, and
      failed when its id is live and its status is an error code. */
  datatype Slot = Slot(id: nat, status: int)

  const FREE := Slot(0, NO_ERROR)

  /** The 32-bit counter with its wrap past zero. */
  function NextId(id: nat): (r: nat)
    requires 1 <= id <= UINT32_MAX
    ensures 1 <= r <= UINT32_MAX
    ensures id < UINT32_MAX ==> r == id + 1
  {
    if id == UINT32_MAX then 1 else id + 1
  }

  /** Index of the first slot holding an id, or the length of the table. */
  function FirstIdx(slots: seq<Slot>, id: nat): (i: nat)
    ensures i <= |slots|
    ensures i < |slots| ==> slots[i].id == id
    ensures forall j :: 0 <= j < i ==> slots[j].id != id
  {
    First(slots, (x: Slot) => x.id == id)
  }

  predicate Full(slots: seq<Slot>) {
    FirstIdx(slots, 0) == |slots|
  }

  /** The table after a new job took the first free slot. */
  function Claimed(slots: seq<Slot>, id: nat): seq<Slot>
    requires !Full(slots)
  {
    slots[FirstIdx(slots, 0) := Slot(id, NO_ERROR)]
  }

  /** The table after a job's status was recorded: success frees the slot, failure keeps it. */
  function Recorded(slots: seq<Slot>, id: nat, status: int): seq<Slot> {
    var i := FirstIdx(slots, id);
    if i == |slots| then slots
    else if status != NO_ERROR then slots[i := Slot(id, status)]
    else slots[i := FREE]
  }

  function StatusOf(slots: seq<Slot>, id: nat): int {
    var i := FirstIdx(slots, id);
    if i == |slots| then NO_ERROR else slots[i].status
  }

  predicate InProgress(slots: seq<Slot>, id: nat) {
    var i := FirstIdx(slots, id);
    i < |slots| && slots[i].status == NO_ERROR
  }

  /** The first index with a given id is determined by what it says of the slots. */
  lemma FirstIdxUnique(slots: seq<Slot>, id: nat, i: nat)
    requires i <= |slots|
    requires i < |slots| ==> slots[i].id == id
    requires forall j :: 0 <= j < i ==> slots[j].id != id
    ensures FirstIdx(slots, id) == i
  {}

  class JobTable {
    const jobs: array<Slot>
    var nextJobId: nat
    var cmdQueue: seq<nat>

    ghost predicate Valid()
      reads this, jobs
    {
      && jobs.Length == MAX_ONGOING_JOBS
      && 1 <= nextJobId <= UINT32_MAX
    }

    constructor ()
      ensures Valid() && fresh(jobs)
      ensures nextJobId == 1 && cmdQueue == []
      ensures forall i :: 0 <= i < jobs.Length ==> jobs[i] == FREE
    {
      jobs := new Slot[MAX_ONGOING_JOBS](_ => FREE);
      nextJobId := 1;
      cmdQueue := [];
    }

    /** Takes the first free slot for a new job. `hasMemory` is whether the job object could be
        allocated, `accepted` whether the command queue took it. */
    method QueueDeferredWork(hasMemory: bool, accepted: bool) returns (id: nat)
      requires Valid()
      modifies this, jobs
      ensures Valid()
      ensures Full(old(jobs[..])) || !hasMemory || !accepted
              ==> id == 0 && jobs[..] == old(jobs[..]) && nextJobId == old(nextJobId)
                  && cmdQueue == old(cmdQueue)
      ensures !Full(old(jobs[..])) && hasMemory && accepted
              ==> && id == old(nextJobId) && nextJobId == NextId(id)
                  && cmdQueue == old(cmdQueue) + [id]
                  && jobs[..] == Claimed(old(jobs[..]), id)
    {
      for i := 0 to MAX_ONGOING_JOBS
        invariant jobs[..] == old(jobs[..]) && nextJobId == old(nextJobId) && cmdQueue == old(cmdQueue)
        invariant forall j :: 0 <= j < i ==> jobs[..][j].id != 0
      {
        if jobs[i].id == 0 {
          FirstIdxUnique(jobs[..], 0, i);
          if !hasMemory || !accepted {
            return 0;
          }
          cmdQueue := cmdQueue + [nextJobId];
          jobs[i] := Slot(nextJobId, NO_ERROR);
          nextJobId := if nextJobId == UINT32_MAX then 0 else nextJobId + 1;
          if nextJobId == 0 {
            nextJobId := 1;
          }
          return jobs[i].id;
        }
      }
      FirstIdxUnique(jobs[..], 0, MAX_ONGOING_JOBS);
      return 0;
    }

    /** Records the status the worker computed for job `id`. */
    method DequeueDeferredWork(id: nat, jobStatus: int) returns (rc: int)
      requires Valid()
      modifies jobs
      ensures Valid()
      ensures jobs[..] == Recorded(old(jobs[..]), id, jobStatus)
      ensures rc == if exists s :: s in old(jobs[..]) && s.id == id then 0 else 0x8000_0000
    {
      for i := 0 to MAX_ONGOING_JOBS
        invariant jobs[..] == old(jobs[..])
        invariant forall j :: 0 <= j < i ==> jobs[..][j].id != id
      {
        if jobs[i].id == id {
          FirstIdxUnique(jobs[..], id, i);
          assert jobs[..][i] in jobs[..];
          if jobStatus != NO_ERROR {
            jobs[i] := jobs[i].(status := jobStatus);
          } else {
            jobs[i] := Slot(0, NO_ERROR);
          }
          return NO_ERROR;
        }
      }
      FirstIdxUnique(jobs[..], id, MAX_ONGOING_JOBS);
      return UNKNOWN_ERROR;
    }

    method GetDefJobStatus(id: nat) returns (status: int)
      requires Valid()
      ensures status == StatusOf(jobs[..], id)
    {
      for i := 0 to MAX_ONGOING_JOBS
        invariant forall j :: 0 <= j < i ==> jobs[..][j].id != id
      {
        if jobs[i].id == id {
          FirstIdxUnique(jobs[..], id, i);
          return jobs[i].status;
        }
      }
      FirstIdxUnique(jobs[..], id, MAX_ONGOING_JOBS);
      return NO_ERROR;
    }

    method CheckDeferredWork(id: nat) returns (busy: bool)
      requires Valid()
      ensures busy == InProgress(jobs[..], id)
    {
      for i := 0 to MAX_ONGOING_JOBS
        invariant forall j :: 0 <= j < i ==> jobs[..][j].id != id
      {
        if jobs[i].id == id {
          FirstIdxUnique(jobs[..], id, i);
          return jobs[i].status == NO_ERROR;
        }
      }
      FirstIdxUnique(jobs[..], id, MAX_ONGOING_JOBS);
      return false;
    }
  }
}
