/** Backup and restore of the battery's charge-cycle counters: the gauge's bins and the persisted
    bins are brought to their pointwise maximum through a text of eight integers. */
module CycleCounts {
  import opened Decimal

  const BINS := 8
  const BUFF_SIZE := 256

  const ZEROS := [0, 0, 0, 0, 0, 0, 0, 0]

  /** Bins hold 32-bit integers. */
  ghost predicate InRange(bins: seq<int>) {
    forall i :: 0 <= i < |bins| ==> -INT32_MAX - 1 <= bins[i] <= INT32_MAX
  }

  datatype File = Missing | Text(text: string)

  /** Which files can be read and written at the moment. */
  datatype Io = Io(storageReadable: bool, gaugeReadable: bool, storageWritable: bool, gaugeWritable: bool)

  const GOOD := Io(true, true, true, true)

  // ---------------------------------------------------------------- the text

  function Join(bins: seq<int>): string {
    if bins == [] then [] else if |bins| == 1 then Print(bins[0]) else Print(bins[0]) + [' '] + Join(bins[1..])
  }

  /** Up to k conversions, as far as they match. */
  function ScanBins(s: string, k: nat): (r: seq<int>)
    ensures |r| <= k
    decreases k
  {
    if k == 0 then []
    else
      match ScanInt(s)
      case Mismatch => []
      case Match(v, rest) => [v] + ScanBins(rest, k - 1)
  }

  /** snprintf keeps what fits before the final zero. */
  function Fitted(s: string, size: nat): (r: string)
    requires size >= 1
    ensures r <= s && |r| < size
    ensures |s| < size ==> r == s
    ensures |s| >= size ==> |r| == size - 1
  {
    if |s| < size then s else s[..size - 1]
  }

  function TrimEnd(s: string): string {
    if s != [] && IsSpace(s[|s| - 1]) then TrimEnd(s[..|s| - 1]) else s
  }

  function Trim(s: string): string {
    TrimEnd(SkipSpace(s))
  }

  lemma ScanSkipsSpace(s: string, k: nat)
    ensures ScanBins([' '] + s, k) == ScanBins(s, k)
  {
    assert ([' '] + s)[1..] == s;
    assert SkipSpace([' '] + s) == SkipSpace(s);
  }

  lemma ScanOne(n: int, s: string, k: nat)
    ensures ScanBins(Print(n) + ([' '] + s), k + 1) == [n] + ScanBins(s, k)
  {
    ScanPrinted(n, [' '] + s);
    ScanSkipsSpace(s, k);
  }

  lemma ScanLast(n: int)
    ensures ScanBins(Print(n), 1) == [n]
  {
    ScanPrinted(n, []);
    assert Print(n) + [] == Print(n);
  }

  lemma JoinCons(n: int, rest: seq<int>)
    requires rest != []
    ensures Join([n] + rest) == Print(n) + ([' '] + Join(rest))
  {
    assert ([n] + rest)[1..] == rest;
    assert Print(n) + [' '] + Join(rest) == Print(n) + ([' '] + Join(rest));
  }

  lemma {:induction false} ScanJoined(bins: seq<int>)
    requires bins != []
    ensures ScanBins(Join(bins), |bins|) == bins
  {
    var n, rest := bins[0], bins[1..];
    assert bins == [n] + rest;
    if rest == [] {
      ScanLast(n);
    } else {
      JoinCons(n, rest);
      ScanOne(n, Join(rest), |rest|);
      ScanJoined(rest);
    }
  }

  lemma {:induction false} JoinLength(bins: seq<int>)
    requires bins != [] && InRange(bins)
    ensures 1 <= |Join(bins)| <= 12 * |bins| - 1
  {
    PrintLength(bins[0]);
    if |bins| > 1 {
      JoinLength(bins[1..]);
    }
  }

  lemma {:induction false} JoinEnds(bins: seq<int>)
    requires bins != []
    ensures var s := Join(bins); |s| >= 1 && !IsSpace(s[0]) && !IsSpace(s[|s| - 1])
  {
    if |bins| > 1 {
      JoinEnds(bins[1..]);
    }
  }

  /** The text the gauge gives back, with its line end, trims to the bins printed. */
  lemma TrimJoined(bins: seq<int>)
    requires bins != []
    ensures Trim(Join(bins) + ['\n']) == Join(bins)
  {
    JoinEnds(bins);
    var j := Join(bins);
    var s := j + ['\n'];
    assert s[0] == j[0] && s[|s| - 1] == '\n' && s[..|s| - 1] == j;
    assert SkipSpace(s) == s;
    assert TrimEnd(j) == j;
    assert TrimEnd(s) == TrimEnd(j);
  }

  /** Eight 32-bit bins written to a file and read back are the same eight bins. */
  lemma TextRoundTrip(bins: seq<int>)
    requires |bins| == BINS && InRange(bins)
    ensures ScanBins(Fitted(Join(bins), BUFF_SIZE), BINS) == bins
    ensures ScanBins(Trim(Join(bins) + ['\n']), BINS) == bins
  {
    JoinLength(bins);
    ScanJoined(bins);
    TrimJoined(bins);
  }

  // ---------------------------------------------------------------- the object

  /** The bins in memory, the storage file, the gauge's own counters, and how often each of the two
      was written. */
  datatype State = State(sw: seq<int>, hw: seq<int>, storage: File, gauge: seq<int>,
                         storageWrites: nat, gaugeWrites: nat)

  /** sscanf overwrites the bins it converts and leaves the others. */
  function Loaded(bins: seq<int>, text: string): (r: seq<int>)
    requires |bins| == BINS
    ensures |r| == BINS
  {
    var v := ScanBins(text, BINS);
    v + bins[|v|..]
  }

  function Larger(a: int, b: int): int {
    if a < b then b else a
  }

  function Max(a: seq<int>, b: seq<int>): (m: seq<int>)
    requires |a| == |b|
    ensures |m| == |a| && forall i :: 0 <= i < |a| ==> m[i] == Larger(a[i], b[i])
  {
    if a == [] then [] else [Larger(a[0], b[0])] + Max(a[1..], b[1..])
  }

  predicate SomeLess(a: seq<int>, b: seq<int>) {
    exists i :: 0 <= i < |a| && i < |b| && a[i] < b[i]
  }

  function StorageRead(s: State, io: Io): State
    requires |s.sw| == BINS
  {
    if io.storageReadable && s.storage.Text? then s.(sw := Loaded(s.sw, s.storage.text)) else s
  }

  function GaugeRead(s: State, io: Io): State
    requires |s.hw| == BINS
  {
    if io.gaugeReadable then s.(hw := Loaded(s.hw, Trim(Join(s.gauge) + ['\n']))) else s
  }

  function Saved(s: State, io: Io): State
    requires |s.sw| == |s.hw| == BINS
  {
    var m := Max(s.sw, s.hw);
    var text := Fitted(Join(m), BUFF_SIZE);
    var save, restore := SomeLess(s.sw, s.hw) && io.storageWritable, SomeLess(s.hw, s.sw) && io.gaugeWritable;
    State(m, m,
          if save then Text(text) else s.storage,
          if restore then Loaded(ZEROS, text) else s.gauge,
          s.storageWrites + if save then 1 else 0,
          s.gaugeWrites + if restore then 1 else 0)
  }

  function BackedUp(s: State, io: Io): State
    requires |s.sw| == |s.hw| == BINS
  {
    Saved(GaugeRead(s, io), io)
  }

  function Restored(s: State, io: Io): State
    requires |s.sw| == |s.hw| == BINS
  {
    BackedUp(StorageRead(s, io), io)
  }

  class CycleCountBackupRestore {
    const swBins: array<int>
    const hwBins: array<int>
    var storage: File
    var gauge: seq<int>
    ghost var storageWrites: nat
    ghost var gaugeWrites: nat

    ghost predicate Valid()
      reads this
    {
      swBins.Length == hwBins.Length == BINS && swBins != hwBins
    }

    ghost function Abs(): State
      reads this, swBins, hwBins
    {
      State(swBins[..], hwBins[..], storage, gauge, storageWrites, gaugeWrites)
    }

    /** The object is static, so its bins start at zero. */
    constructor (storage: File, gauge: seq<int>)
      ensures Valid() && fresh(swBins) && fresh(hwBins)
      ensures Abs() == State(ZEROS, ZEROS, storage, gauge, 0, 0)
    {
      swBins := new int[BINS](_ => 0);
      hwBins := new int[BINS](_ => 0);
      this.storage, this.gauge := storage, gauge;
      storageWrites, gaugeWrites := 0, 0;
    }

    method Overwrite(bins: array<int>, v: seq<int>)
      requires |v| <= bins.Length
      modifies bins
      ensures bins[..] == v + old(bins[..])[|v|..]
    {
      for i := 0 to |v|
        invariant forall k :: 0 <= k < i ==> bins[k] == v[k]
        invariant forall k :: i <= k < bins.Length ==> bins[k] == old(bins[k])
      {
        bins[i] := v[i];
      }
    }

    method Scan(bins: array<int>, text: string)
      requires bins.Length == BINS
      modifies bins
      ensures bins[..] == Loaded(old(bins[..]), text)
    {
      var v := ScanBins(text, BINS);
      Overwrite(bins, v);
    }

    method ReadFromStorage(io: Io)
      requires Valid()
      modifies swBins
      ensures Abs() == StorageRead(old(Abs()), io)
    {
      if !io.storageReadable || storage == Missing {
        return;
      }
      Scan(swBins, storage.text);
    }

    method ReadFromGauge(io: Io)
      requires Valid()
      modifies hwBins
      ensures Abs() == GaugeRead(old(Abs()), io)
    {
      if !io.gaugeReadable {
        return;
      }
      var buffer := Trim(Join(gauge) + ['\n']);
      Scan(hwBins, buffer);
    }

    method SaveToStorage(io: Io)
      requires Valid()
      modifies this`storage, this`storageWrites
      ensures storageWrites == old(storageWrites) + if io.storageWritable then 1 else 0
      ensures storage == if io.storageWritable then Text(Fitted(Join(swBins[..]), BUFF_SIZE)) else old(storage)
    {
      var data := Fitted(Join(swBins[..]), BUFF_SIZE);
      if io.storageWritable {
        storage := Text(data);
        storageWrites := storageWrites + 1;
      }
    }

    method SaveToGauge(io: Io)
      requires Valid()
      modifies this`gauge, this`gaugeWrites
      ensures gaugeWrites == old(gaugeWrites) + if io.gaugeWritable then 1 else 0
      ensures gauge == if io.gaugeWritable then Loaded(ZEROS, Fitted(Join(hwBins[..]), BUFF_SIZE)) else old(gauge)
    {
      var data := Fitted(Join(hwBins[..]), BUFF_SIZE);
      if io.gaugeWritable {
        gauge := Loaded(ZEROS, data);
        gaugeWrites := gaugeWrites + 1;
      }
    }

    method Merge() returns (backup: bool, restore: bool)
      requires Valid()
      modifies swBins, hwBins
      ensures swBins[..] == hwBins[..] == Max(old(swBins[..]), old(hwBins[..]))
      ensures backup == SomeLess(old(swBins[..]), old(hwBins[..]))
      ensures restore == SomeLess(old(hwBins[..]), old(swBins[..]))
    {
      ghost var sw, hw := swBins[..], hwBins[..];
      backup, restore := false, false;
      for i := 0 to BINS
        invariant forall k :: 0 <= k < i ==> swBins[k] == hwBins[k] == Larger(sw[k], hw[k])
        invariant forall k :: i <= k < BINS ==> swBins[k] == sw[k] && hwBins[k] == hw[k]
        invariant backup == exists k :: 0 <= k < i && sw[k] < hw[k]
        invariant restore == exists k :: 0 <= k < i && hw[k] < sw[k]
      {
        if hwBins[i] < swBins[i] {
          hwBins[i] := swBins[i];
          restore := true;
        } else if hwBins[i] > swBins[i] {
          swBins[i] := hwBins[i];
          backup := true;
        }
      }
    }

    method UpdateAndSave(io: Io)
      requires Valid()
      modifies this, swBins, hwBins
      ensures Abs() == Saved(old(Abs()), io)
    {
      ghost var s := Abs();
      var backup, restore := Merge();
      assert Abs() == s.(sw := Max(s.sw, s.hw), hw := Max(s.sw, s.hw));
      if restore {
        SaveToGauge(io);
      }
      assert gauge == Saved(s, io).gauge && gaugeWrites == Saved(s, io).gaugeWrites;
      if backup {
        SaveToStorage(io);
      }
    }

    method Restore(io: Io)
      requires Valid()
      modifies this, swBins, hwBins
      ensures Abs() == Restored(old(Abs()), io)
    {
      ReadFromStorage(io);
      ReadFromGauge(io);
      UpdateAndSave(io);
    }

    method Backup(io: Io)
      requires Valid()
      modifies this, swBins, hwBins
      ensures Abs() == BackedUp(old(Abs()), io)
    {
      ReadFromGauge(io);
      UpdateAndSave(io);
    }
  }
}
