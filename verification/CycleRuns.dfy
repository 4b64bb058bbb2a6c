/** The life of the cycle counters over growth, gauge resets, reboots and backups, with files that
    can be read and written. */
module CycleRuns {
  import opened CycleCounts

  /** The gauge's counters may become anything: they grow, or a reset loses them. */
  datatype Event = Boot | Backup | Gauge(bins: seq<int>)

  datatype History = History(s: State, booted: bool)

  ghost predicate IsBins(bins: seq<int>) {
    |bins| == BINS && InRange(bins)
  }

  /** The bins a storage file holds; none yet counts as zeros. */
  function Stored(f: File): (bins: seq<int>)
    ensures |bins| == BINS
  {
    if f.Text? then Loaded(ZEROS, f.text) else ZEROS
  }

  /** There is no file yet, or one this code wrote. */
  ghost predicate WellFormed(f: File) {
    IsBins(Stored(f)) && (f.Text? ==> f.text == Join(Stored(f)))
  }

  ghost predicate Shaped(s: State) {
    |s.sw| == |s.hw| == BINS
  }

  ghost function Apply(h: History, e: Event): History
    requires Shaped(h.s)
  {
    match e
    case Boot => History(Restored(h.s.(sw := ZEROS, hw := ZEROS), GOOD), true)
    case Backup => if h.booted then h.(s := BackedUp(h.s, GOOD)) else h
    case Gauge(bins) => if IsBins(bins) then h.(s := h.s.(gauge := bins)) else h
  }

  /** What there was before the run: no file yet, or one this code wrote; and the gauge. */
  datatype Start = NoFile(gauge: seq<int>) | Wrote(bins: seq<int>, gauge: seq<int>)

  ghost predicate Starts(start: Start) {
    IsBins(start.gauge) && (start.Wrote? ==> IsBins(start.bins))
  }

  function FileOf(start: Start): File {
    if start.Wrote? then Text(Join(start.bins)) else Missing
  }

  ghost function Run(start: Start, es: seq<Event>): (h: History)
    ensures Shaped(h.s)
  {
    if es == [] then History(State(ZEROS, ZEROS, FileOf(start), start.gauge, 0, 0), false)
    else Apply(Run(start, es[..|es| - 1]), es[|es| - 1])
  }

  ghost predicate Inv(h: History) {
    IsBins(h.s.gauge) && WellFormed(h.s.storage) && (h.booted ==> h.s.sw == Stored(h.s.storage))
  }

  // ---------------------------------------------------------------- one merge

  lemma MaxInRange(a: seq<int>, b: seq<int>)
    requires IsBins(a) && IsBins(b)
    ensures IsBins(Max(a, b))
  {}

  lemma MaxIdle(a: seq<int>, b: seq<int>)
    requires |a| == |b|
    ensures !SomeLess(a, b) <==> Max(a, b) == a
    ensures !SomeLess(b, a) <==> Max(a, b) == b
  {
    forall i | 0 <= i < |a| && a[i] < b[i] ensures Max(a, b)[i] != a[i] {}
    forall i | 0 <= i < |a| && b[i] < a[i] ensures Max(a, b)[i] != b[i] {}
  }

  /** The pointwise maximum of what the two stores hold. */
  ghost function Maximum(s: State): seq<int> {
    if |s.gauge| == BINS then Max(Stored(s.storage), s.gauge) else []
  }

  /** Both stores hold the maximum of what they held, and each was written exactly when that is not
      what it held. */
  ghost predicate Merged(s: State, t: State) {
    var m := Maximum(s);
    && t.sw == m && t.gauge == m && Stored(t.storage) == m && WellFormed(t.storage)
    && t.storageWrites == s.storageWrites + (if m == Stored(s.storage) then 0 else 1)
    && t.gaugeWrites == s.gaugeWrites + (if m == s.gauge then 0 else 1)
    && (m == Stored(s.storage) ==> t.storage == s.storage)
  }

  lemma LoadedJoined(bins: seq<int>, over: seq<int>)
    requires IsBins(bins) && |over| == BINS
    ensures Loaded(over, Fitted(Join(bins), BUFF_SIZE)) == bins && Fitted(Join(bins), BUFF_SIZE) == Join(bins)
    ensures Loaded(over, Trim(Join(bins) + ['\n'])) == bins
  {
    TextRoundTrip(bins);
    JoinLength(bins);
  }

  /** Merging bins that agree with the stores leaves both stores, and the memory, at the maximum. */
  lemma SavedIsMaximum(s: State)
    requires Shaped(s) && IsBins(s.gauge) && WellFormed(s.storage) && s.sw == Stored(s.storage) && s.hw == s.gauge
    ensures Merged(s, Saved(s, GOOD))
  {
    MaxInRange(s.sw, s.hw);
    MaxIdle(s.sw, s.hw);
    LoadedJoined(Max(s.sw, s.hw), ZEROS);
  }

  lemma BackedUpIsMaximum(s: State)
    requires Shaped(s) && IsBins(s.gauge) && WellFormed(s.storage) && s.sw == Stored(s.storage)
    ensures Merged(s, BackedUp(s, GOOD))
  {
    LoadedJoined(s.gauge, s.hw);
    SavedIsMaximum(GaugeRead(s, GOOD));
  }

  lemma RestoredIsMaximum(s: State)
    requires IsBins(s.gauge) && WellFormed(s.storage)
    ensures Merged(s, Restored(s.(sw := ZEROS, hw := ZEROS), GOOD))
  {
    BackedUpIsMaximum(StorageRead(s.(sw := ZEROS, hw := ZEROS), GOOD));
  }

  lemma MergeKeeps(s: State, t: State)
    requires IsBins(s.gauge) && WellFormed(s.storage) && Merged(s, t)
    ensures IsBins(t.gauge) && WellFormed(t.storage) && t.sw == Stored(t.storage)
  {
    MaxInRange(Stored(s.storage), s.gauge);
  }

  predicate Merges(h: History, e: Event) {
    e == Boot || (e == Backup && h.booted)
  }

  lemma StepKeeps(h: History, e: Event)
    requires Shaped(h.s) && Inv(h)
    ensures Inv(Apply(h, e))
    ensures Merges(h, e) ==> Merged(h.s, Apply(h, e).s)
    ensures !Merges(h, e) ==> Apply(h, e).s == h.s.(gauge := Apply(h, e).s.gauge)
  {
    if Merges(h, e) {
      if e == Boot { RestoredIsMaximum(h.s); } else { BackedUpIsMaximum(h.s); }
      MergeKeeps(h.s, Apply(h, e).s);
    }
  }

  lemma FileOfStored(start: Start)
    requires Starts(start)
    ensures WellFormed(FileOf(start)) && Stored(FileOf(start)) == if start.Wrote? then start.bins else ZEROS
  {
    if start.Wrote? { LoadedJoined(start.bins, ZEROS); }
  }

  lemma {:induction false} RunKeeps(start: Start, es: seq<Event>)
    requires Starts(start)
    ensures Inv(Run(start, es))
  {
    if es == [] {
      FileOfStored(start);
    } else {
      RunKeeps(start, es[..|es| - 1]);
      StepKeeps(Run(start, es[..|es| - 1]), es[|es| - 1]);
    }
  }

  // ---------------------------------------------------------------- what it gives

  /** After every Restore at boot and every Backup, the gauge and the storage file both hold the
      pointwise maximum of what the two held before. */
  lemma MergedToMaximum(start: Start, es: seq<Event>, e: Event)
    requires Starts(start) && !e.Gauge?
    ensures var h, t := Run(start, es), Apply(Run(start, es), e);
      && |h.s.gauge| == |t.s.gauge| == BINS
      && (e == Boot || h.booted ==> forall i :: 0 <= i < BINS ==>
            t.s.gauge[i] == Stored(t.s.storage)[i] == Larger(Stored(h.s.storage)[i], h.s.gauge[i]))
  {
    RunKeeps(start, es);
    StepKeeps(Run(start, es), e);
  }

  lemma StepNeverDecreases(h: History, e: Event, i: nat)
    requires Shaped(h.s) && Inv(h) && i < BINS
    ensures Stored(h.s.storage)[i] <= Stored(Apply(h, e).s.storage)[i]
  {
    StepKeeps(h, e);
  }

  /** What a run goes through: the bins persisted before its first event and after each. */
  ghost function Persisted(start: Start, es: seq<Event>): (p: seq<seq<int>>)
    ensures |p| == |es| + 1 && p[|es|] == Stored(Run(start, es).s.storage)
    ensures forall n :: 0 <= n < |p| ==> |p[n]| == BINS
  {
    (if es == [] then [] else Persisted(start, es[..|es| - 1])) + [Stored(Run(start, es).s.storage)]
  }

  lemma NextNeverDecreases(start: Start, es: seq<Event>, i: nat)
    requires Starts(start) && i < BINS && es != []
    ensures Stored(Run(start, es[..|es| - 1]).s.storage)[i] <= Stored(Run(start, es).s.storage)[i]
  {
    RunKeeps(start, es[..|es| - 1]);
    StepNeverDecreases(Run(start, es[..|es| - 1]), es[|es| - 1], i);
  }

  /** Persisted bins never decrease. */
  lemma {:induction false} NeverDecreases(start: Start, es: seq<Event>, a: nat, b: nat, i: nat)
    requires Starts(start) && a <= b <= |es| && i < BINS
    ensures Persisted(start, es)[a][i] <= Persisted(start, es)[b][i]
  {
    if a < b {
      var before := es[..|es| - 1];
      assert Persisted(start, es)[..|es|] == Persisted(start, before);
      if b < |es| {
        NeverDecreases(start, before, a, b, i);
      } else {
        NeverDecreases(start, before, a, |before|, i);
        NextNeverDecreases(start, es, i);
      }
    }
  }

  /** In every run each store is written exactly when its bins change: by a restore or a backup, and
      once. */
  lemma WrittenIffChanged(start: Start, es: seq<Event>, e: Event)
    requires Starts(start)
    ensures var s, t := Run(start, es).s, Apply(Run(start, es), e).s;
      && t.storageWrites == s.storageWrites + (if Stored(t.storage) == Stored(s.storage) then 0 else 1)
      && (!e.Gauge? ==> t.gaugeWrites == s.gaugeWrites + if t.gauge == s.gauge then 0 else 1)
      && (e.Gauge? ==> t.gaugeWrites == s.gaugeWrites)
  {
    RunKeeps(start, es);
    StepKeeps(Run(start, es), e);
  }

  // ---------------------------------------------------------------- files that fail

  /** Backups with these readings of the gauge, one after the other. */
  function Backups(s: State, gauges: seq<seq<int>>): (t: State)
    requires |s.sw| == |s.hw| == BINS
    ensures |t.sw| == |t.hw| == BINS
  {
    if gauges == [] then s else BackedUp(Backups(s, gauges[..|gauges| - 1]).(gauge := gauges[|gauges| - 1]), GOOD)
  }

  ghost predicate AllBins(gauges: seq<seq<int>>) {
    forall k :: 0 <= k < |gauges| ==> IsBins(gauges[k])
  }

  ghost predicate SomeExceeds(bins: seq<int>, gauges: seq<seq<int>>) {
    exists k :: 0 <= k < |gauges| && SomeLess(bins, gauges[k])
  }

  lemma ExceedsSnoc(bins: seq<int>, gauges: seq<seq<int>>)
    requires gauges != []
    ensures SomeExceeds(bins, gauges)
       <==> SomeExceeds(bins, gauges[..|gauges| - 1]) || SomeLess(bins, gauges[|gauges| - 1])
  {
    var before := gauges[..|gauges| - 1];
    if SomeExceeds(bins, before) {
      var k :| 0 <= k < |before| && SomeLess(bins, before[k]);
      assert SomeLess(bins, gauges[k]);
    }
    if SomeExceeds(bins, gauges) {
      var k :| 0 <= k < |gauges| && SomeLess(bins, gauges[k]);
      assert k < |before| ==> SomeLess(bins, before[k]);
    }
  }

  /** From s to t the storage file was written if and only if the bins had grown; if not, neither it
      nor the bins in memory changed. */
  ghost predicate WrittenIff(s: State, t: State, grown: bool) {
    && s.storageWrites <= t.storageWrites
    && (s.storageWrites < t.storageWrites <==> grown)
    && (!grown ==> t.sw == s.sw && t.storage == s.storage)
  }

  lemma OneBackup(s: State, gauge: seq<int>)
    requires Shaped(s) && IsBins(gauge)
    ensures WrittenIff(s, BackedUp(s.(gauge := gauge), GOOD), SomeLess(s.sw, gauge))
  {
    LoadedJoined(gauge, s.hw);
    MaxIdle(s.sw, gauge);
  }

  lemma Chain(s: State, t: State, u: State, first: bool, second: bool)
    requires WrittenIff(s, t, first) && WrittenIff(t, u, second)
    ensures WrittenIff(s, u, first || second)
  {}

  /** Backups write the storage file if and only if some reading exceeds, in some bin, the bins in
      memory at the start - whatever the file itself holds. */
  lemma {:induction false} WrittenIffGrown(s: State, gauges: seq<seq<int>>)
    requires Shaped(s) && AllBins(gauges)
    ensures WrittenIff(s, Backups(s, gauges), SomeExceeds(s.sw, gauges))
  {
    if gauges != [] {
      var before, last := gauges[..|gauges| - 1], gauges[|gauges| - 1];
      var t := Backups(s, before);
      WrittenIffGrown(s, before);
      OneBackup(t, last);
      ExceedsSnoc(s.sw, gauges);
      Chain(s, t, Backups(s, gauges), SomeExceeds(s.sw, before), SomeLess(t.sw, last));
    }
  }

  lemma FailedWrite(s: State)
    requires Shaped(s) && IsBins(s.gauge) && s.sw == Stored(s.storage) && SomeLess(s.sw, s.gauge)
    ensures var failed := BackedUp(s, GOOD.(storageWritable := false));
      failed.storage == s.storage && failed.sw == Max(s.sw, s.gauge) != Stored(failed.storage)
  {
    LoadedJoined(s.gauge, s.hw);
    MaxIdle(s.sw, s.gauge);
  }

  /** A backup whose storage write fails leaves the file behind the bins in memory, and later backups
      leave it so if and only if no bin ever grows beyond those. */
  lemma FailedWriteNotRetried(s: State, gauges: seq<seq<int>>)
    requires Shaped(s) && IsBins(s.gauge) && s.sw == Stored(s.storage) && SomeLess(s.sw, s.gauge) && AllBins(gauges)
    ensures var failed := BackedUp(s, GOOD.(storageWritable := false));
      && failed.sw == Max(s.sw, s.gauge) != Stored(failed.storage)
      && failed.storage == s.storage
      && WrittenIff(failed, Backups(failed, gauges), SomeExceeds(failed.sw, gauges))
  {
    FailedWrite(s);
    WrittenIffGrown(BackedUp(s, GOOD.(storageWritable := false)), gauges);
  }

  predicate SomePositive(bins: seq<int>) {
    exists i :: 0 <= i < |bins| && 0 < bins[i]
  }

  lemma ZerosLess(bins: seq<int>)
    requires |bins| == BINS
    ensures SomeLess(ZEROS, bins) <==> SomePositive(bins)
    ensures forall i :: 0 <= i < BINS ==> Max(ZEROS, bins)[i] == Larger(0, bins[i])
  {
    forall i | 0 <= i < BINS ensures ZEROS[i] == 0 {}
    if SomePositive(bins) {
      var i :| 0 <= i < |bins| && 0 < bins[i];
      assert ZEROS[i] < bins[i];
    }
  }

  lemma SavedUnread(s: State, io: Io)
    requires s.sw == ZEROS && s.hw == s.gauge && IsBins(s.gauge) && io.storageWritable
    ensures Stored(Saved(s, io).storage) == if SomeLess(ZEROS, s.gauge) then Max(ZEROS, s.gauge) else Stored(s.storage)
  {
    assert IsBins(Max(ZEROS, s.gauge)) by { MaxInRange(ZEROS, s.gauge); }
    LoadedJoined(Max(ZEROS, s.gauge), ZEROS);
  }

  lemma UnreadableResult(storage: File, gauge: seq<int>)
    requires IsBins(gauge) && WellFormed(storage)
    ensures var t := Restored(State(ZEROS, ZEROS, storage, gauge, 0, 0), GOOD.(storageReadable := false));
      Stored(t.storage) == if SomeLess(ZEROS, gauge) then Max(ZEROS, gauge) else Stored(storage)
  {
    var io, s := GOOD.(storageReadable := false), State(ZEROS, ZEROS, storage, gauge, 0, 0);
    assert StorageRead(s, io) == s;
    assert GaugeRead(s, io) == s.(hw := gauge) by { LoadedJoined(gauge, ZEROS); }
    SavedUnread(s.(hw := gauge), io);
  }

  /** When the storage file cannot be read at boot, its bins are kept if and only if the gauge has
      nothing to save, or has at least as much in every bin; otherwise they are overwritten. */
  lemma UnreadableStorage(bins: seq<int>, gauge: seq<int>)
    requires IsBins(bins) && IsBins(gauge)
    ensures var t := Restored(State(ZEROS, ZEROS, Text(Join(bins)), gauge, 0, 0), GOOD.(storageReadable := false));
      (forall i :: 0 <= i < BINS ==> bins[i] <= Stored(t.storage)[i])
      <==> !SomePositive(gauge) || (forall i :: 0 <= i < BINS ==> bins[i] <= Larger(0, gauge[i]))
  {
    FileOfStored(Wrote(bins, gauge));
    UnreadableResult(Text(Join(bins)), gauge);
    ZerosLess(gauge);
  }
}
