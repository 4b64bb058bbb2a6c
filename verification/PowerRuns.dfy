/** Runs of mode and launch hints: acquires may fail, the launch boost may time out, and other
    clients take and release locks of their own in between. A disabled event changes nothing. */
module PowerRuns {
  import opened PerfLock
  import opened PowerModes

  datatype Event =
    | Sustained(on: bool, fails: bool)
    | Vr(on: bool, fails: bool)
    | Launch(on: bool, governor: Governor, fails: bool)
    | LaunchExpires
    | OtherAcquires(request: seq<int>)
    | OtherReleases(handle: int)

  datatype History = History(
    s: State,
    others: map<int, seq<int>>,  // locks of other clients
    boosted: bool,               // the launch lock is still held
    failed: bool,                // the latest acquire of a mode lock failed
    lost: seq<int>)              // mode locks still held whose handle a failed acquire overwrote

  /** Whether a hint makes the mode machine acquire a lock, and on which handle. */
  function Target(s: State, e: Event): int {
    match e
    case Sustained(on, _) =>
      if on && !s.sustained then s.sustainedHandle else if s.sustained && s.vr then s.vrHandle else 0
    case Vr(on, _) => if on && !s.vr then s.vrHandle else if s.vr && s.sustained then s.sustainedHandle else 0
    case _ => 0
  }

  predicate Acquires(s: State, e: Event) {
    match e
    case Sustained(on, _) => (on && !s.sustained) || (s.sustained && s.vr)
    case Vr(on, _) => (on && !s.vr) || (s.vr && s.sustained)
    case _ => false
  }

  function Moded(h: History, e: Event, s': State, fails: bool): History {
    h.(s := s', boosted := h.boosted && s'.launch,
       failed := if Acquires(h.s, e) then fails else h.failed,
       lost := if Acquires(h.s, e) && fails && Target(h.s, e) in h.s.lib.live then h.lost + [Target(h.s, e)]
               else h.lost)
  }

  function Apply(h: History, e: Event): History {
    match e
    case Sustained(on, fails) => Moded(h, e, OnSustained(h.s, on, fails), fails)
    case Vr(on, fails) => Moded(h, e, OnVr(h.s, on, fails), fails)
    case Launch(on, g, fails) =>
      var s' := OnLaunch(h.s, on, g, fails);
      h.(s := s', boosted := s'.launch && (h.boosted || !h.s.launch))
    case LaunchExpires =>
      if !h.s.launch then h
      else h.(s := h.s.(lib := Release(h.s.lib, h.s.launchHandle)), boosted := false)
    case OtherAcquires(r) =>
      var (lib, handle) := Acquire(h.s.lib, 0, r, false);
      h.(s := h.s.(lib := lib), others := h.others[handle := r])
    case OtherReleases(x) =>
      if x !in h.others then h
      else h.(s := h.s.(lib := Release(h.s.lib, x)), others := h.others - {x})
  }

  const INIT := History(State(Lib(1, map[]), false, false, false, 0, 0, -1), map[], false, false, [])

  function Run(es: seq<Event>): History {
    if es == [] then INIT else Apply(Run(es[..|es| - 1]), es[|es| - 1])
  }

  // ---------------------------------------------------------------- the invariant

  /** Handles given out are positive and distinct, and those of other clients are none of ours. */
  ghost predicate HandlesInv(s: State, others: map<int, seq<int>>, lost: seq<int>) {
    && 1 <= s.lib.fresh_
    && s.sustainedHandle < s.lib.fresh_ && s.vrHandle < s.lib.fresh_ && s.launchHandle < s.lib.fresh_
    && (s.sustainedHandle > 0 ==> s.sustainedHandle != s.vrHandle && s.sustainedHandle != s.launchHandle)
    && (s.vrHandle > 0 ==> s.vrHandle != s.launchHandle)
    && (forall x :: x in others ==> x != s.sustainedHandle && x != s.vrHandle && x != s.launchHandle)
    && (forall k :: 0 <= k < |lost| ==>
          lost[k] != s.sustainedHandle && lost[k] != s.vrHandle && lost[k] != s.launchHandle && lost[k] !in others)
  }

  ghost predicate LiveInv(s: State, others: map<int, seq<int>>, lost: seq<int>) {
    && (forall x :: x in s.lib.live ==> 1 <= x < s.lib.fresh_)
    && (forall x :: x in s.lib.live ==>
          x in others || x in lost || x == s.sustainedHandle || x == s.vrHandle || x == s.launchHandle)
    && (forall k :: 0 <= k < |lost| ==> lost[k] in s.lib.live)
    && (forall x :: x in others ==> x in s.lib.live && s.lib.live[x] == others[x])
  }

  predicate Fits(request: seq<int>, sustained: bool, vr: bool) {
    if sustained then
      if vr then request == BOTH else request == SUSTAINED_ONLY || request == BACK_TO_SUSTAINED
    else vr && (request == VR_ONLY || request == BACK_TO_VR)
  }

  /** A mode lock is held exactly while a flag is set, unless its acquire failed: by the one handle
      whose mode was switched last, and it asks for what the two flags call for. */
  ghost predicate ModeInv(s: State, failed: bool) {
    && (!s.sustained && !s.vr ==> s.sustainedHandle !in s.lib.live && s.vrHandle !in s.lib.live)
    && (s.sustained && !s.vr ==> s.vrHandle !in s.lib.live && (s.sustainedHandle in s.lib.live <==> !failed))
    && (s.vr && !s.sustained ==> s.sustainedHandle !in s.lib.live && (s.vrHandle in s.lib.live <==> !failed))
    && (s.vr && s.sustained ==>
        && !(s.sustainedHandle in s.lib.live && s.vrHandle in s.lib.live)
        && (s.sustainedHandle in s.lib.live || s.vrHandle in s.lib.live <==> !failed))
    && (s.sustainedHandle in s.lib.live ==> Fits(s.lib.live[s.sustainedHandle], s.sustained, s.vr))
    && (s.vrHandle in s.lib.live ==> Fits(s.lib.live[s.vrHandle], s.sustained, s.vr))
  }

  ghost predicate LaunchInv(s: State, boosted: bool) {
    && (s.launch ==> s.launchHandle > 0 && !s.sustained && !s.vr)
    && (s.launchHandle in s.lib.live <==> boosted)
    && (boosted ==> s.launch)
  }

  ghost predicate Inv(h: History) {
    && HandlesInv(h.s, h.others, h.lost)
    && LiveInv(h.s, h.others, h.lost)
    && ModeInv(h.s, h.failed)
    && LaunchInv(h.s, h.boosted)
  }

  lemma SustainedOnKeeps(h: History, fails: bool)
    requires Inv(h) && !h.s.sustained
    ensures Inv(Apply(h, Sustained(true, fails)))
  {}

  lemma SustainedOffKeeps(h: History, on: bool, fails: bool)
    requires Inv(h) && h.s.sustained
    ensures Inv(Apply(h, Sustained(on, fails)))
  {}

  lemma VrOnKeeps(h: History, fails: bool)
    requires Inv(h) && !h.s.vr
    ensures Inv(Apply(h, Vr(true, fails)))
  {}

  lemma VrOffKeeps(h: History, on: bool, fails: bool)
    requires Inv(h) && h.s.vr
    ensures Inv(Apply(h, Vr(on, fails)))
  {}

  lemma LaunchKeeps(h: History, on: bool, g: Governor, fails: bool)
    requires Inv(h)
    ensures Inv(Apply(h, Launch(on, g, fails)))
  {}

  lemma OthersKeep(h: History, e: Event)
    requires Inv(h) && (e.LaunchExpires? || e.OtherAcquires? || e.OtherReleases?)
    ensures Inv(Apply(h, e))
  {}

  lemma StepKeeps(h: History, e: Event)
    requires Inv(h)
    ensures Inv(Apply(h, e))
  {
    match e
    case Sustained(on, fails) =>
      if h.s.sustained { SustainedOffKeeps(h, on, fails); }
      else if on { SustainedOnKeeps(h, fails); }
      else { assert Apply(h, e) == h; }
    case Vr(on, fails) =>
      if h.s.vr { VrOffKeeps(h, on, fails); }
      else if on { VrOnKeeps(h, fails); }
      else { assert Apply(h, e) == h; }
    case Launch(on, g, fails) => LaunchKeeps(h, on, g, fails);
    case _ => OthersKeep(h, e);
  }

  lemma {:induction false} RunKeeps(es: seq<Event>)
    ensures Inv(Run(es))
  {
    if es != [] {
      RunKeeps(es[..|es| - 1]);
      StepKeeps(Run(es[..|es| - 1]), es[|es| - 1]);
    }
  }

  // ---------------------------------------------------------------- which locks are held

  /** The handle that carries the mode lock. */
  function ModeLock(s: State): int {
    if s.sustainedHandle in s.lib.live then s.sustainedHandle else s.vrHandle
  }

  /** In every run the locks held are the other clients', unchanged, those lost to a failed
      acquire, one mode lock exactly while a flag is set and its acquire succeeded, and the launch
      boost until it ends or times out; and no launch boost is on while a mode flag is set. */
  lemma LocksHeld(es: seq<Event>)
    ensures var h := Run(es);
      && (forall x :: x in h.s.lib.live <==>
            || x in h.others || x in h.lost
            || ((h.s.sustained || h.s.vr) && !h.failed && x == ModeLock(h.s))
            || (h.boosted && x == h.s.launchHandle))
      && (forall x :: x in h.others ==> x in h.s.lib.live && h.s.lib.live[x] == h.others[x])
      && ModeLock(h.s) !in h.others && ModeLock(h.s) !in h.lost && (h.boosted ==> ModeLock(h.s) != h.s.launchHandle)
      && (h.s.launch ==> !h.s.sustained && !h.s.vr)
  {
    RunKeeps(es);
  }

  lemma OnlyLostLeft(s: State, others: map<int, seq<int>>, lost: seq<int>)
    requires HandlesInv(s, others, lost) && LiveInv(s, others, lost)
    requires s.sustainedHandle !in s.lib.live && s.vrHandle !in s.lib.live && s.launchHandle !in s.lib.live
    ensures (forall x :: x in s.lib.live ==> x in others) <==> lost == []
  {
    if lost != [] {
      assert lost[0] in s.lib.live && lost[0] !in others;
    }
  }

  /** With both flags off and no boost, the only locks left of ours are the lost ones; so all mode
      locks have been given back if and only if none was lost. */
  lemma AllGivenBackIffNoneLost(es: seq<Event>)
    requires var h := Run(es); !h.s.sustained && !h.s.vr && !h.boosted
    ensures var h := Run(es); (forall x :: x in h.s.lib.live ==> x in h.others) <==> h.lost == []
  {
    RunKeeps(es);
    OnlyLostLeft(Run(es).s, Run(es).others, Run(es).lost);
  }

  /** A lock is lost exactly when switching one mode off while the other stays on, the acquire for
      the other fails and the other was the one switched on later. */
  lemma LostWhen(es: seq<Event>, e: Event)
    ensures var h := Run(es);
      Apply(h, e).lost != h.lost <==>
        || (e.Sustained? && e.fails && h.s.sustained && h.s.vr && h.s.vrHandle in h.s.lib.live)
        || (e.Vr? && e.fails && h.s.sustained && h.s.vr && h.s.sustainedHandle in h.s.lib.live)
  {
    RunKeeps(es);
  }

  lemma StepFresh(h: History, e: Event, x: int)
    requires Inv(h)
    ensures h.s.lib.fresh_ <= Apply(h, e).s.lib.fresh_
    ensures x in Apply(h, e).s.lib.live ==> x in h.s.lib.live || h.s.lib.fresh_ <= x
  {}

  lemma {:induction false} FreshGrows(es: seq<Event>, n: nat)
    requires n <= |es|
    ensures Run(es[..n]).s.lib.fresh_ <= Run(es).s.lib.fresh_
  {
    if n < |es| {
      var before := es[..|es| - 1];
      assert before[..n] == es[..n];
      FreshGrows(before, n);
      RunKeeps(before);
      StepFresh(Run(before), es[|es| - 1], 0);
    } else {
      assert es[..n] == es;
    }
  }

  /** A handle that becomes live was never live before in the run, whoever held it. */
  lemma HandlesNeverReused(es: seq<Event>, e: Event, n: nat, x: int)
    requires n <= |es| && x in Apply(Run(es), e).s.lib.live && x !in Run(es).s.lib.live
    ensures x !in Run(es[..n]).s.lib.live
  {
    RunKeeps(es);
    StepFresh(Run(es), e, x);
    FreshGrows(es, n);
    RunKeeps(es[..n]);
  }

  // ---------------------------------------------------------------- what the mode lock asks for

  /** The value a request, read from position i on, gives for an opcode, or -1. */
  function Value(request: seq<int>, opcode: int, i: nat := 0): int
    decreases |request| - i
  {
    if i + 1 >= |request| then -1 else if request[i] == opcode then request[i + 1] else Value(request, opcode, i + 2)
  }

  lemma {:induction false} ValueAt(request: seq<int>, opcode: int, at: nat, i: nat := 0)
    requires i <= at < |request| - 1 && (at - i) % 2 == 0 && request[at] == opcode
    requires forall k :: i <= k < at && (at - k) % 2 == 0 ==> request[k] != opcode
    ensures Value(request, opcode, i) == request[at + 1]
    decreases at - i
  {
    if i < at { ValueAt(request, opcode, at, i + 2); }
  }

  function CpuCap(sustained: bool): int {
    if sustained then 1209 else 1440
  }

  function GpuCap(sustained: bool): int {
    if sustained then 315 else 510
  }

  function GpuFloor(sustained: bool, vr: bool): int {
    if sustained && !vr then 133 else GpuCap(sustained)
  }

  ghost predicate Capped(request: seq<int>, sustained: bool, vr: bool) {
    && Value(request, CPU0_MAX) == Value(request, CPU2_MAX) == CpuCap(sustained)
    && Value(request, GPU_MAX) == GpuCap(sustained) && Value(request, GPU_MIN) == GpuFloor(sustained, vr)
  }

  /** No opcode is given twice. */
  ghost predicate Once(r: seq<int>) {
    forall i, j :: 0 <= i < j < |r| && i % 2 == j % 2 == 0 ==> r[i] != r[j]
  }

  lemma ValueOnce(r: seq<int>, opcode: int, at: nat)
    requires Once(r) && at % 2 == 0 && at + 1 < |r| && r[at] == opcode
    ensures Value(r, opcode) == r[at + 1]
  {
    ValueAt(r, opcode, at);
  }

  /** Where a request's caps stand. */
  lemma CappedAt(r: seq<int>, sustained: bool, vr: bool, cpu: nat, gpuMax: nat, gpuMin: nat)
    requires cpu % 2 == gpuMax % 2 == gpuMin % 2 == 0 && cpu + 3 < |r| && gpuMax + 1 < |r| && gpuMin + 1 < |r|
    requires r[cpu] == CPU0_MAX && r[cpu + 2] == CPU2_MAX && r[gpuMax] == GPU_MAX && r[gpuMin] == GPU_MIN
    requires r[cpu + 1] == r[cpu + 3] == CpuCap(sustained) && r[gpuMax + 1] == GpuCap(sustained)
    requires r[gpuMin + 1] == GpuFloor(sustained, vr) && Once(r)
    ensures Capped(r, sustained, vr)
  {
    ValueOnce(r, CPU0_MAX, cpu);
    ValueOnce(r, CPU2_MAX, cpu + 2);
    ValueOnce(r, GPU_MAX, gpuMax);
    ValueOnce(r, GPU_MIN, gpuMin);
  }

  lemma SustainedCapped()
    ensures Capped(SUSTAINED_ONLY, true, false) && Capped(BACK_TO_SUSTAINED, true, false)
  {
    CappedAt(SUSTAINED_ONLY, true, false, 0, 6, 4);
    CappedAt(BACK_TO_SUSTAINED, true, false, 4, 10, 8);
  }

  lemma VrCapped()
    ensures Capped(BOTH, true, true) && Capped(VR_ONLY, false, true) && Capped(BACK_TO_VR, false, true)
  {
    CappedAt(BOTH, true, true, 4, 10, 8);
    CappedAt(VR_ONLY, false, true, 4, 8, 10);
    CappedAt(BACK_TO_VR, false, true, 0, 8, 10);
  }

  /** Whatever path led there, the caps of the mode lock are a function of the two flags. */
  lemma CapsFollowFlags(es: seq<Event>)
    ensures var h := Run(es);
      (h.s.sustained || h.s.vr) && !h.failed
      ==> ModeLock(h.s) in h.s.lib.live && Capped(h.s.lib.live[ModeLock(h.s)], h.s.sustained, h.s.vr)
  {
    RunKeeps(es);
    SustainedCapped();
    VrCapped();
  }

  /** The latest switch of a mode was VR going off while sustained mode was on. */
  predicate BackFromVr(es: seq<Event>) {
    es != [] &&
    var s, s' := Run(es[..|es| - 1]).s, Run(es).s;
    if s.sustained == s'.sustained && s.vr == s'.vr then BackFromVr(es[..|es| - 1])
    else s.sustained && s.vr && !s'.vr
  }

  function SustainedRequest(back: bool): seq<int> {
    if back then BACK_TO_SUSTAINED else SUSTAINED_ONLY
  }

  predicate SustainedOnly(s: State) {
    s.sustained && !s.vr
  }

  ghost predicate RequestInv(h: History, back: bool) {
    SustainedOnly(h.s) && !h.failed
    ==> h.s.sustainedHandle in h.s.lib.live && h.s.lib.live[h.s.sustainedHandle] == SustainedRequest(back)
  }

  lemma SwitchSetsRequest(h: History, e: Event)
    requires Inv(h) && (e.Sustained? || e.Vr?)
    requires h.s.sustained != Apply(h, e).s.sustained || h.s.vr != Apply(h, e).s.vr
    ensures RequestInv(Apply(h, e), h.s.sustained && h.s.vr && !Apply(h, e).s.vr)
  {}

  lemma OthersKeepRequest(h: History, e: Event, back: bool)
    requires Inv(h) && RequestInv(h, back)
    requires h.s.sustained == Apply(h, e).s.sustained && h.s.vr == Apply(h, e).s.vr
    ensures RequestInv(Apply(h, e), back)
  {}

  lemma OnlyHintsSwitch(h: History, e: Event)
    requires !e.Sustained? && !e.Vr?
    ensures h.s.sustained == Apply(h, e).s.sustained && h.s.vr == Apply(h, e).s.vr
  {}

  lemma {:induction false} RequestFollowsSwitch(es: seq<Event>)
    ensures RequestInv(Run(es), BackFromVr(es))
  {
    if es != [] {
      var h, e := Run(es[..|es| - 1]), es[|es| - 1];
      RequestFollowsSwitch(es[..|es| - 1]);
      RunKeeps(es[..|es| - 1]);
      if h.s.sustained == Apply(h, e).s.sustained && h.s.vr == Apply(h, e).s.vr {
        OthersKeepRequest(h, e, BackFromVr(es[..|es| - 1]));
      } else {
        if !e.Sustained? && !e.Vr? { OnlyHintsSwitch(h, e); }
        SwitchSetsRequest(h, e);
      }
    }
  }

  lemma Floors()
    ensures Value(SUSTAINED_ONLY, BUS_MIN) == Value(BOTH, BUS_MIN) == 7759
    ensures Value(VR_ONLY, BUS_MIN) == Value(BACK_TO_VR, BUS_MIN) == 7759
    ensures Value(BACK_TO_SUSTAINED, BUS_MIN) == 0
  {
    ValueAt(SUSTAINED_ONLY, BUS_MIN, 8);
    ValueAt(BOTH, BUS_MIN, 12);
    ValueAt(VR_ONLY, BUS_MIN, 12);
    ValueAt(BACK_TO_VR, BUS_MIN, 12);
    ValueAt(BACK_TO_SUSTAINED, BUS_MIN, 12);
  }

  lemma FloorOf(request: seq<int>, sustained: bool, vr: bool, back: bool)
    requires Fits(request, sustained, vr) && (sustained && !vr ==> request == SustainedRequest(back))
    ensures Value(request, BUS_MIN) == if sustained && !vr && back then 0 else 7759
  {
    Floors();
  }

  /** The bus floor is not: it is gone exactly when sustained mode alone is left over from VR mode
      going off, and 7759 otherwise. */
  lemma BusFloorFollowsSwitch(es: seq<Event>)
    requires var h := Run(es); (h.s.sustained || h.s.vr) && !h.failed
    ensures var h := Run(es);
      && ModeLock(h.s) in h.s.lib.live
      && Value(h.s.lib.live[ModeLock(h.s)], BUS_MIN) == if SustainedOnly(h.s) && BackFromVr(es) then 0 else 7759
  {
    RunKeeps(es);
    RequestFollowsSwitch(es);
    var h := Run(es);
    FloorOf(h.s.lib.live[ModeLock(h.s)], h.s.sustained, h.s.vr, BackFromVr(es));
  }

  lemma RunThree(a: Event, b: Event, c: Event)
    ensures Run([a]) == Apply(INIT, a) && Run([a, b]) == Apply(Run([a]), b) && Run([a, b, c]) == Apply(Run([a, b]), c)
  {
    assert [a][..0] == [] && [a, b][..1] == [a] && [a, b, c][..2] == [a, b];
  }

  /** So two runs can end in the same mode with different floors. */
  lemma BusFloorDependsOnPath()
    ensures var direct := Run([Sustained(true, false)]);
      var back := Run([Sustained(true, false), Vr(true, false), Vr(false, false)]);
      && SustainedOnly(direct.s) && SustainedOnly(back.s) && !direct.failed && !back.failed
      && !BackFromVr([Sustained(true, false)])
      && BackFromVr([Sustained(true, false), Vr(true, false), Vr(false, false)])
  {
    RunThree(Sustained(true, false), Vr(true, false), Vr(false, false));
    assert [Sustained(true, false)][..0] == [];
    assert [Sustained(true, false), Vr(true, false), Vr(false, false)][..2]
        == [Sustained(true, false), Vr(true, false)];
  }

  /** A failed acquire can lose a lock for good: sustained, then VR, then sustained off failing to
      take back the VR lock, then VR off. */
  lemma FailedAcquireLosesLock()
    ensures var h := Run([Sustained(true, false), Vr(true, false), Sustained(false, true), Vr(false, false)]);
      && !h.s.sustained && !h.s.vr && h.lost == [2]
      && 2 in h.s.lib.live && h.s.lib.live[2] == BOTH && h.s.sustainedHandle != 2 && h.s.vrHandle != 2
  {
    var a, b, c, d := Sustained(true, false), Vr(true, false), Sustained(false, true), Vr(false, false);
    RunThree(a, b, c);
    assert [a, b, c, d][..3] == [a, b, c];
    var h := Run([a, b]);
    assert h.s.vrHandle == 2 && h.s.sustainedHandle == 1 && h.s.lib.live == map[2 := BOTH];
    var t := Apply(h, c);
    assert t.s.vrHandle == -1 && t.lost == [2];
    assert Run([a, b, c, d]) == Apply(t, d);
  }

  /** An ON hint while the mode is on switches it off. */
  lemma RepeatedOnSwitchesOff(s: State, fails: bool)
    ensures OnSustained(s, true, fails).sustained == !s.sustained && OnVr(s, true, fails).vr == !s.vr
    ensures !OnSustained(s, false, fails).sustained && !OnVr(s, false, fails).vr
  {}
}
