/** The health HAL's trigger for cycle-count backups: one for every twenty percent charged. */
module Health {
  import opened CycleCounts

  const BACKUP_TRIGGER := 20

  datatype Charge = Charge(first: bool, savedSoc: int, socInc: int)

  function Gained(c: Charge, level: int): int {
    c.socInc + if level > c.savedSoc then level - c.savedSoc else 0
  }

  predicate Triggers(c: Charge, level: int) {
    !c.first && Gained(c, level) >= BACKUP_TRIGGER
  }

  function AfterLevel(c: Charge, level: int): Charge {
    if c.first then Charge(false, level, c.socInc)
    else Charge(false, level, if Triggers(c, level) then 0 else Gained(c, level))
  }

  class Monitor {
    var savedSoc: int
    var socInc: int
    var isFirst: bool
    const cycles: CycleCountBackupRestore

    ghost function Abs(): Charge
      reads this
    {
      Charge(isFirst, savedSoc, socInc)
    }

    constructor (cycles: CycleCountBackupRestore)
      ensures this.cycles == cycles && Abs() == Charge(true, 0, 0)
    {
      savedSoc, socInc, isFirst := 0, 0, true;
      this.cycles := cycles;
    }

    method CycleCountBackup(level: int, io: Io)
      requires cycles.Valid()
      modifies this, cycles, cycles.swBins, cycles.hwBins
      ensures Abs() == AfterLevel(old(Abs()), level)
      ensures cycles.Abs() == if Triggers(old(Abs()), level) then BackedUp(old(cycles.Abs()), io) else old(cycles.Abs())
    {
      if isFirst {
        isFirst := false;
        savedSoc := level;
        return;
      }
      if level > savedSoc {
        socInc := socInc + (level - savedSoc);
      }
      savedSoc := level;
      if socInc >= BACKUP_TRIGGER {
        cycles.Backup(io);
        socInc := 0;
      }
    }
  }

  function Run(levels: seq<int>): Charge {
    if levels == [] then Charge(true, 0, 0) else AfterLevel(Run(levels[..|levels| - 1]), levels[|levels| - 1])
  }

  /** Whether the n-th reported level triggered a backup. */
  predicate BacksUpAt(levels: seq<int>, n: nat)
    requires n < |levels|
  {
    Triggers(Run(levels[..n]), levels[n])
  }

  /** The charge gained over a stretch of levels, drops not counted. */
  function Rise(levels: seq<int>, start: nat, end: nat): int
    requires start <= end < |levels|
    decreases end
  {
    if start == end then 0
    else Rise(levels, start, end - 1) + if levels[end] > levels[end - 1] then levels[end] - levels[end - 1] else 0
  }

  /** No backup was triggered after level `start` and before level `end`. */
  ghost predicate NoBackupBetween(levels: seq<int>, start: nat, end: nat)
    requires end <= |levels|
  {
    forall k :: start < k < end ==> !BacksUpAt(levels, k)
  }

  lemma {:induction false} GainedIsRise(levels: seq<int>, start: nat, end: nat)
    requires start <= end < |levels| && (start == 0 || BacksUpAt(levels, start))
    requires NoBackupBetween(levels, start, end + 1)
    ensures Run(levels[..end + 1]) == Charge(false, levels[end], Rise(levels, start, end))
    decreases end
  {
    assert levels[..end + 1][..end] == levels[..end];
    if start == end {
      if start > 0 {
        assert BacksUpAt(levels, start);
      } else {
        assert levels[..0] == [];
      }
    } else {
      GainedIsRise(levels, start, end - 1);
      assert !BacksUpAt(levels, end);
    }
  }

  /** After the first level or a backup, the next backup comes with the first level at which twenty
      percent have been charged since, and not before. */
  lemma BackupIffTwentyCharged(levels: seq<int>, start: nat, end: nat)
    requires start < end < |levels| && (start == 0 || BacksUpAt(levels, start)) && NoBackupBetween(levels, start, end)
    ensures BacksUpAt(levels, end) <==> Rise(levels, start, end) >= 20
  {
    GainedIsRise(levels, start, end - 1);
  }

  lemma {:induction false} RiseCoversClimb(levels: seq<int>, start: nat, i: nat, j: nat)
    requires start <= i <= j < |levels|
    ensures Rise(levels, start, j) >= levels[j] - levels[i] && Rise(levels, start, j) >= 0
    decreases j
  {
    if i < j {
      RiseCoversClimb(levels, start, i, j - 1);
    } else if start < j {
      RiseCoversClimb(levels, start, j - 1, j - 1);
    }
  }

  /** So while no backup is triggered the level never climbs twenty percent above any level since. */
  lemma NoClimbWithoutBackup(levels: seq<int>, start: nat, i: nat, j: nat)
    requires start <= i <= j < |levels| && (start == 0 || BacksUpAt(levels, start))
    requires NoBackupBetween(levels, start, j + 1)
    ensures levels[j] - levels[i] < 20
  {
    RiseCoversClimb(levels, start, i, j);
    if start < j {
      BackupIffTwentyCharged(levels, start, j);
      assert !BacksUpAt(levels, j);
    }
  }
}
