/** What the power modes and the launch boost ask the perf-lock library for, resource by resource, and
    what each hint does to the mode flags. */
module PowerSettings {
  import opened PerfLock
  import opened PowerModes
  import opened PowerRuns

  // ---------------------------------------------------------------- the mode flags

  /** A sustained hint toggles its flag when it says on, and clears it when it says off. */
  lemma SustainedFlag(s: State, on: bool, fails: bool)
    ensures var t := OnSustained(s, on, fails);
      && t.sustained == (on && !s.sustained) && t.vr == s.vr
      && t.launch == (s.launch && !(on && !s.sustained && !s.vr))
  {}

  lemma VrFlag(s: State, on: bool, fails: bool)
    ensures var t := OnVr(s, on, fails);
      && t.vr == (on && !s.vr) && t.sustained == s.sustained
      && t.launch == (s.launch && !(on && !s.vr && !s.sustained))
  {}

  /** A launch hint turns the boost on when none is on, no mode is set and the boost could be taken;
      one that says off turns it off. */
  lemma LaunchFlag(s: State, on: bool, g: Governor, fails: bool)
    requires 1 <= s.lib.fresh_ && (s.launchHandle in s.lib.live ==> s.launchHandle > 0)
    ensures var t := OnLaunch(s, on, g, fails);
      && t.sustained == s.sustained && t.vr == s.vr
      && t.launch == if s.sustained || s.vr then s.launch
                     else on && (s.launch || (!fails && (g == Sched || g == Interactive)))
  {}

  // ---------------------------------------------------------------- the requests

  /** Every opcode is one of the seven the modes set. */
  ghost predicate ModeOpcodes(r: seq<int>) {
    forall i :: 0 <= i < |r| && i % 2 == 0 ==>
      r[i] in {0x40800000, 0x40800100, 0x40804000, 0x40804100, 0x42C20000, 0x42C24000, 0x42C28000}
  }

  /** A request that sets both clusters' frequencies between `floor` and `cap`, the GPU's between
      `gpuFloor` and `gpuCap`, and the bus floor; -1 stands for a resource not asked for. */
  ghost predicate Sets(r: seq<int>, floor: int, cap: int, gpuFloor: int, gpuCap: int, bus: int) {
    && Value(r, 0x40800000) == Value(r, 0x40800100) == floor
    && Value(r, 0x40804000) == Value(r, 0x40804100) == cap
    && Value(r, 0x42C24000) == gpuFloor && Value(r, 0x42C20000) == gpuCap
    && Value(r, 0x42C28000) == bus
    && ModeOpcodes(r)
  }

  lemma {:induction false} ValueAbsent(r: seq<int>, opcode: int, i: nat := 0)
    requires forall k :: i <= k < |r| && (k - i) % 2 == 0 ==> r[k] != opcode
    ensures Value(r, opcode, i) == -1
    decreases |r| - i
  {
    if i + 1 < |r| { ValueAbsent(r, opcode, i + 2); }
  }

  lemma SetsAt(r: seq<int>, floor: nat, cap: nat, gpuFloor: nat, gpuCap: nat, bus: nat)
    requires Once(r) && ModeOpcodes(r)
    requires floor % 2 == cap % 2 == gpuFloor % 2 == gpuCap % 2 == bus % 2 == 0
    requires floor + 3 < |r| && cap + 3 < |r| && gpuFloor + 1 < |r| && gpuCap + 1 < |r| && bus + 1 < |r|
    requires r[floor] == 0x40800000 && r[floor + 2] == 0x40800100 && r[floor + 1] == r[floor + 3]
    requires r[cap] == 0x40804000 && r[cap + 2] == 0x40804100 && r[cap + 1] == r[cap + 3]
    requires r[gpuFloor] == 0x42C24000 && r[gpuCap] == 0x42C20000 && r[bus] == 0x42C28000
    ensures Sets(r, r[floor + 1], r[cap + 1], r[gpuFloor + 1], r[gpuCap + 1], r[bus + 1])
  {
    ValueOnce(r, 0x40800000, floor);
    ValueOnce(r, 0x40800100, floor + 2);
    ValueOnce(r, 0x40804000, cap);
    ValueOnce(r, 0x40804100, cap + 2);
    ValueOnce(r, 0x42C24000, gpuFloor);
    ValueOnce(r, 0x42C20000, gpuCap);
    ValueOnce(r, 0x42C28000, bus);
  }

  lemma BothSets()
    ensures Sets(BOTH, 1209, 1209, 315, 315, 7759)
  {
    SetsAt(BOTH, 0, 4, 8, 10, 12);
  }

  lemma VrOnlySets()
    ensures Sets(VR_ONLY, 1440, 1440, 510, 510, 7759)
  {
    SetsAt(VR_ONLY, 0, 4, 10, 8, 12);
  }

  lemma BackToVrSets()
    ensures Sets(BACK_TO_VR, 1440, 1440, 510, 510, 7759)
  {
    SetsAt(BACK_TO_VR, 4, 0, 10, 8, 12);
  }

  lemma BackToSustainedSets()
    ensures Sets(BACK_TO_SUSTAINED, 0, 1209, 133, 315, 0)
  {
    SetsAt(BACK_TO_SUSTAINED, 0, 4, 8, 10, 12);
  }

  lemma SustainedOnlySets()
    ensures Sets(SUSTAINED_ONLY, -1, 1209, 133, 315, 7759)
  {
    ValueAbsent(SUSTAINED_ONLY, 0x40800000);
    ValueAbsent(SUSTAINED_ONLY, 0x40800100);
    ValueOnce(SUSTAINED_ONLY, 0x40804000, 0);
    ValueOnce(SUSTAINED_ONLY, 0x40804100, 2);
    ValueOnce(SUSTAINED_ONLY, 0x42C24000, 4);
    ValueOnce(SUSTAINED_ONLY, 0x42C20000, 6);
    ValueOnce(SUSTAINED_ONLY, 0x42C28000, 8);
  }

  /** In every run the mode lock asks for what the modes promise. With VR mode the CPUs are locked, at
      1.2 GHz when sustained mode is on too and at 1.4 GHz otherwise, and so is the GPU, at 315 or
      510 MHz. Sustained mode alone caps both, and asks for no CPU floor, or for none any more, and no
      bus floor, when it is left over from VR mode. */
  lemma ModeLockSets(es: seq<Event>)
    requires var h := Run(es); (h.s.sustained || h.s.vr) && !h.failed
    ensures var s, back := Run(es).s, BackFromVr(es);
      && ModeLock(s) in s.lib.live
      && var r := s.lib.live[ModeLock(s)];
         if s.vr then
           if s.sustained then Sets(r, 1209, 1209, 315, 315, 7759) else Sets(r, 1440, 1440, 510, 510, 7759)
         else if back then Sets(r, 0, 1209, 133, 315, 0) else Sets(r, -1, 1209, 133, 315, 7759)
  {
    RunKeeps(es);
    RequestFollowsSwitch(es);
    BothSets();
    VrOnlySets();
    BackToVrSets();
    BackToSustainedSets();
    SustainedOnlySets();
  }

  /** What the boost asks for: the caps and floors of both clusters lifted, and on another governor
      one more setting before them. */
  lemma LaunchRequestSets(g: Governor)
    ensures LaunchRequest(g) ==
      (if g == Sched then [] else [0x40C00000, 1])
      + [0x40804000, 4095, 0x40804100, 4095, 0x40800000, 4095, 0x40800100, 4095, 0x41800000, 140, 0x40400000, 1]
  {
    assert [] + LAUNCH == LAUNCH;
  }

  /** Without a known governor, or when the acquire fails, no lock is taken and no handle kept. */
  lemma LaunchTakes(s: State, g: Governor, fails: bool)
    requires !s.sustained && !s.vr && !s.launch
    requires 1 <= s.lib.fresh_ && s.launchHandle !in s.lib.live
    ensures var t := OnLaunch(s, true, g, fails);
      if fails || g == Unreadable || g == Unsupported then !t.launch && t.lib == s.lib && t.launchHandle == -1
      else t.launch && t.launchHandle in t.lib.live && t.lib.live[t.launchHandle] == LaunchRequest(g)
  {}

  /** In every run a launch hint while no mode and no boost is on leaves the boost's lock held, asking
      for just that, unless the governor is unknown or the acquire fails. */
  lemma LaunchBoostSets(es: seq<Event>, g: Governor, fails: bool)
    requires var s := Run(es).s; !s.sustained && !s.vr && !s.launch
    ensures var s, t := Run(es).s, Run(es + [Launch(true, g, fails)]).s;
      if fails || g == Unreadable || g == Unsupported then !t.launch && t.lib == s.lib && t.launchHandle == -1
      else t.launch && t.launchHandle in t.lib.live && t.lib.live[t.launchHandle] == LaunchRequest(g)
  {
    RunKeeps(es);
    assert (es + [Launch(true, g, fails)])[..|es|] == es;
    LaunchTakes(Run(es).s, g, fails);
  }
}
