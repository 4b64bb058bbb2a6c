/** Interaction boosts: a hint is passed on unless the boost already running covers it, judged in
    microseconds from two nanosecond clocks. */
module BoostWindow {
  import opened Arithmetic

  const USINSEC := 1_000_000
  const NSINUS := 1000
  const NSINSEC := 1_000_000_000

  datatype Timespec = Timespec(sec: int, nsec: int)

  datatype Option<T> = None | Some(value: T)

  /** A hint: whether the governor could be read, whether a mode flag is set, the duration asked
      for, and the clock. */
  datatype Hint = Hint(readable: bool, moded: bool, data: Option<int>, now: Timespec)

  datatype Boost = Boost(at: Timespec, duration: int)

  function Timespan(start: Timespec, end: Timespec): int {
    (end.sec - start.sec) * USINSEC + Quotient(end.nsec - start.nsec, NSINUS)
  }

  function Duration(data: Option<int>): int {
    if data.Some? && data.value + 750 > 1500 then
      if data.value + 750 > 5750 then 5750 else data.value + 750
    else 1500
  }

  predicate Checked(h: Hint) {
    h.readable && !h.moded
  }

  predicate Covered(b: Boost, h: Hint) {
    b.duration * 1000 > Timespan(b.at, h.now) + Duration(h.data) * 1000
  }

  function After(b: Boost, h: Hint): Boost {
    if Checked(h) && !Covered(b, h) then Boost(h.now, Duration(h.data)) else b
  }

  class BoostState {
    var previousBoost: Timespec
    var previousDuration: int

    ghost function Abs(): Boost
      reads this
    {
      Boost(previousBoost, previousDuration)
    }

    constructor ()
      ensures Abs() == Boost(Timespec(0, 0), 0)
    {
      previousBoost, previousDuration := Timespec(0, 0), 0;
    }

    /** `requested` is the duration of the boost asked of the perf-lock library, if any. */
    method Interaction(h: Hint) returns (requested: Option<int>)
      modifies this
      ensures Abs() == After(old(Abs()), h)
      ensures requested == if Checked(h) && !Covered(old(Abs()), h) then Some(Duration(h.data)) else None
    {
      if !h.readable || h.moded {
        return None;
      }
      var duration := 1500;
      if h.data.Some? {
        var input := h.data.value + 750;
        if input > duration {
          duration := if input > 5750 then 5750 else input;
        }
      }
      var elapsed := Timespan(previousBoost, h.now);
      if previousDuration * 1000 > elapsed + duration * 1000 {
        return None;
      }
      previousBoost, previousDuration := h.now, duration;
      return Some(duration);
    }
  }

  function Run(hints: seq<Hint>): Boost {
    if hints == [] then Boost(Timespec(0, 0), 0) else After(Run(hints[..|hints| - 1]), hints[|hints| - 1])
  }

  // ---------------------------------------------------------------- deadlines, in nanoseconds

  function Ns(t: Timespec): int {
    t.sec * NSINSEC + t.nsec
  }

  function Deadline(at: Timespec, duration: int): int {
    Ns(at) + duration * 1_000_000
  }

  function Stored(b: Boost): int {
    Deadline(b.at, b.duration)
  }

  function Wanted(h: Hint): int {
    Deadline(h.now, Duration(h.data))
  }

  function Max(a: int, b: int): int {
    if a < b then b else a
  }

  /** The latest deadline of all hints that reached the check, passed on or not. */
  function Latest(hints: seq<Hint>): int {
    if hints == [] then 0
    else
      var h := hints[|hints| - 1];
      var m := Latest(hints[..|hints| - 1]);
      if Checked(h) then Max(m, Wanted(h)) else m
  }

  lemma {:induction false} LatestBounds(hints: seq<Hint>, i: nat)
    requires i < |hints| && Checked(hints[i])
    ensures Wanted(hints[i]) <= Latest(hints)
  {
    if i < |hints| - 1 { LatestBounds(hints[..|hints| - 1], i); }
  }

  lemma {:induction false} LatestReached(hints: seq<Hint>)
    ensures Latest(hints) == 0 || exists i :: 0 <= i < |hints| && Checked(hints[i]) && Latest(hints) == Wanted(hints[i])
  {
    if hints != [] {
      LatestReached(hints[..|hints| - 1]);
      var h := hints[|hints| - 1];
      if !(Checked(h) && Latest(hints) == Wanted(h)) && Latest(hints) != 0 {
        var i :| 0 <= i < |hints| - 1 && Checked(hints[..|hints| - 1][i])
                 && Latest(hints) == Wanted(hints[..|hints| - 1][i]);
        assert hints[i] == hints[..|hints| - 1][i];
      }
    }
  }

  /** How many hints were passed on. */
  function Accepted(hints: seq<Hint>): nat {
    if hints == [] then 0
    else
      var h, b := hints[|hints| - 1], Run(hints[..|hints| - 1]);
      Accepted(hints[..|hints| - 1]) + if Checked(h) && !Covered(b, h) then 1 else 0
  }

  lemma TimespanError(start: Timespec, end: Timespec)
    ensures -NSINUS < Ns(end) - Ns(start) - NSINUS * Timespan(start, end) < NSINUS
    ensures (end.nsec - start.nsec) % NSINUS == 0 ==> Ns(end) - Ns(start) == NSINUS * Timespan(start, end)
  {
    var d := end.nsec - start.nsec;
    assert Ns(end) - Ns(start) - NSINUS * Timespan(start, end) == d - NSINUS * Quotient(d, NSINUS);
  }

  /** What the truncating division drops: the nanoseconds past the last whole microsecond, counted
      towards zero, so negative when the clock's nanosecond field did not go down. */
  function Dropped(at: Timespec, now: Timespec): int {
    var d := now.nsec - at.nsec;
    if d < 0 then (0 - d) % NSINUS else 0 - d % NSINUS
  }

  lemma TimespanExactly(start: Timespec, end: Timespec)
    ensures NSINUS * Timespan(start, end) == Ns(end) - Ns(start) + Dropped(start, end)
    ensures -NSINUS < Dropped(start, end) < NSINUS
    ensures Dropped(start, end) > 0 <==> end.nsec < start.nsec && (start.nsec - end.nsec) % NSINUS != 0
  {
    var d := end.nsec - start.nsec;
    assert NSINUS * Quotient(d, NSINUS) == d + Dropped(start, end);
  }

  /** A hint is covered exactly when the running boost outlasts it by more than what was dropped. */
  lemma CoveredExactly(b: Boost, h: Hint)
    ensures Covered(b, h) <==> Dropped(b.at, h.now) < Stored(b) - Wanted(h)
  {
    TimespanExactly(b.at, h.now);
  }

  /** A hint passed on moves the deadline back exactly when it falls short of it by no more than what
      was dropped; so only when the nanosecond field of the clock went down. */
  lemma MovesBackIff(b: Boost, h: Hint)
    ensures !Covered(b, h) && Wanted(h) < Stored(b) <==> 0 < Stored(b) - Wanted(h) <= Dropped(b.at, h.now)
    ensures !Covered(b, h) && Wanted(h) < Stored(b) ==> h.now.nsec < b.at.nsec
  {
    CoveredExactly(b, h);
    TimespanExactly(b.at, h.now);
  }

  /** A hint judged covered ends before the boost that covers it; one passed on moves the deadline
      back by less than a microsecond, and not at all when the clocks are whole microseconds apart. */
  lemma CoveredEndsEarlier(b: Boost, h: Hint)
    ensures Covered(b, h) ==> Wanted(h) < Stored(b)
    ensures !Covered(b, h) ==> Stored(b) - Wanted(h) < NSINUS
    ensures !Covered(b, h) && (h.now.nsec - b.at.nsec) % NSINUS == 0 ==> Stored(b) <= Wanted(h)
  {
    TimespanError(b.at, h.now);
  }

  predicate WholeMicros(hints: seq<Hint>) {
    forall i :: 0 <= i < |hints| ==> hints[i].now.nsec % NSINUS == 0
  }

  lemma {:induction false} StoredIsWhole(hints: seq<Hint>)
    requires WholeMicros(hints)
    ensures Run(hints).at.nsec % NSINUS == 0
  {
    if hints != [] { StoredIsWhole(hints[..|hints| - 1]); }
  }

  lemma WholeDifference(a: int, b: int)
    requires a % NSINUS == 0 && b % NSINUS == 0
    ensures (a - b) % NSINUS == 0
  {
    assert a - b == NSINUS * (a / NSINUS - b / NSINUS);
  }

  lemma WholeStep(b: Boost, h: Hint)
    requires h.now.nsec % NSINUS == 0 && b.at.nsec % NSINUS == 0
    ensures Stored(After(b, h)) == if Checked(h) then Max(Stored(b), Wanted(h)) else Stored(b)
  {
    WholeDifference(h.now.nsec, b.at.nsec);
    CoveredEndsEarlier(b, h);
  }

  /** With clocks in whole microseconds the deadline kept is the latest of all hints that reached
      the check, whatever their order and whichever were suppressed. */
  lemma {:induction false} StoredIsLatest(hints: seq<Hint>)
    requires WholeMicros(hints)
    ensures Stored(Run(hints)) == Latest(hints)
  {
    if hints != [] {
      var b, h := Run(hints[..|hints| - 1]), hints[|hints| - 1];
      StoredIsLatest(hints[..|hints| - 1]);
      StoredIsWhole(hints[..|hints| - 1]);
      WholeStep(b, h);
    }
  }

  /** With nanosecond clocks the deadline kept never exceeds the latest, and falls behind it by less
      than a microsecond for every hint passed on. */
  lemma {:induction false} StoredNearLatest(hints: seq<Hint>)
    ensures Latest(hints) - (NSINUS - 1) * Accepted(hints) <= Stored(Run(hints)) <= Latest(hints)
  {
    if hints != [] {
      StoredNearLatest(hints[..|hints| - 1]);
      CoveredEndsEarlier(Run(hints[..|hints| - 1]), hints[|hints| - 1]);
    }
  }

  /** And it can fall behind: a hint half a microsecond short of the running boost is passed on. */
  lemma DeadlineCanMoveBack()
    ensures var a, b := Hint(true, false, Some(5000), Timespec(0, 500)), Hint(true, false, Some(4000), Timespec(1, 0));
      Stored(Run([a, b])) == Stored(Run([a])) - 500
  {
    var a, b := Hint(true, false, Some(5000), Timespec(0, 500)), Hint(true, false, Some(4000), Timespec(1, 0));
    assert [a][..0] == [] && [a, b][..1] == [a];
    assert Run([a]) == Boost(Timespec(0, 500), 5750);
  }

  /** A boost runs at least 1500 and at most 5750 milliseconds: 750 more than asked for in between. */
  lemma DurationClamped(data: Option<int>)
    ensures 1500 <= Duration(data) <= 5750
    ensures data == None ==> Duration(data) == 1500
    ensures data.Some? && 750 <= data.value <= 5000 ==> Duration(data) == data.value + 750
    ensures data.Some? && data.value < 750 ==> Duration(data) == 1500
    ensures data.Some? && 5000 < data.value ==> Duration(data) == 5750
  {}

  /** A hint without a governor, or while a mode is set, changes nothing; any other becomes the boost
      that later hints are judged by, unless the running one outlasts it by more than what the
      division dropped. */
  lemma HintTakesOver(b: Boost, h: Hint)
    ensures !h.readable || h.moded ==> After(b, h) == b
    ensures h.readable && !h.moded ==>
      After(b, h) == if Dropped(b.at, h.now) < Stored(b) - Wanted(h) then b else Boost(h.now, Duration(h.data))
  {
    CoveredExactly(b, h);
  }
}
