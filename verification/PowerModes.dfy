/** The power HAL's sustained-performance, VR and launch modes over the handles of the perf-lock
    library. */
module PowerModes {
  import opened PerfLock

  const CPU0_MIN := 0x40800000
  const CPU2_MIN := 0x40800100
  const CPU0_MAX := 0x40804000
  const CPU2_MAX := 0x40804100
  const GPU_MAX := 0x42C20000
  const GPU_MIN := 0x42C24000
  const BUS_MIN := 0x42C28000

  const SUSTAINED_ONLY := [CPU0_MAX, 1209, CPU2_MAX, 1209, GPU_MIN, 133, GPU_MAX, 315, BUS_MIN, 7759]
  const BOTH := [CPU0_MIN, 1209, CPU2_MIN, 1209, CPU0_MAX, 1209, CPU2_MAX, 1209,
                 GPU_MIN, 315, GPU_MAX, 315, BUS_MIN, 7759]
  const VR_ONLY := [CPU0_MIN, 1440, CPU2_MIN, 1440, CPU0_MAX, 1440, CPU2_MAX, 1440,
                    GPU_MAX, 510, GPU_MIN, 510, BUS_MIN, 7759]
  const BACK_TO_VR := [CPU0_MAX, 1440, CPU2_MAX, 1440, CPU0_MIN, 1440, CPU2_MIN, 1440,
                       GPU_MAX, 510, GPU_MIN, 510, BUS_MIN, 7759]
  const BACK_TO_SUSTAINED := [CPU0_MIN, 0, CPU2_MIN, 0, CPU0_MAX, 1209, CPU2_MAX, 1209,
                              GPU_MIN, 133, GPU_MAX, 315, BUS_MIN, 0]
  const LAUNCH := [CPU0_MAX, 0xFFF, CPU2_MAX, 0xFFF, CPU0_MIN, 0xFFF, CPU2_MIN, 0xFFF, 0x41800000, 140, 0x40400000, 0x1]

  /** What reading the scaling governor gave. */
  datatype Governor = Unreadable | Sched | Interactive | Unsupported

  function LaunchRequest(g: Governor): seq<int> {
    if g == Sched then LAUNCH else [0x40C00000, 0x1] + LAUNCH
  }

  predicate Boosts(g: Governor) {
    g == Sched || g == Interactive
  }

  datatype State = State(lib: Lib, sustained: bool, vr: bool, launch: bool,
                         sustainedHandle: int, vrHandle: int, launchHandle: int)

  /** A mode lock is taken only once a launch boost has been given up. */
  function LaunchEnded(s: State): State {
    if s.launch then s.(lib := Release(s.lib, s.launchHandle), launch := false) else s
  }

  function AcquireSustained(s: State, request: seq<int>, fails: bool): State {
    var (lib, h) := Acquire(s.lib, s.sustainedHandle, request, fails);
    s.(lib := lib, sustainedHandle := h)
  }

  function AcquireVr(s: State, request: seq<int>, fails: bool): State {
    var (lib, h) := Acquire(s.lib, s.vrHandle, request, fails);
    s.(lib := lib, vrHandle := h)
  }

  function OnSustained(s: State, on: bool, fails: bool): State {
    if on && !s.sustained then
      var t := if !s.vr then AcquireSustained(LaunchEnded(s), SUSTAINED_ONLY, fails)
               else AcquireSustained(s.(lib := Release(s.lib, s.vrHandle)), BOTH, fails);
      t.(sustained := true)
    else if s.sustained then
      var t := s.(lib := Release(s.lib, s.sustainedHandle));
      (if s.vr then AcquireVr(t, BACK_TO_VR, fails) else t).(sustained := false)
    else s
  }

  function OnVr(s: State, on: bool, fails: bool): State {
    if on && !s.vr then
      var t := if !s.sustained then AcquireVr(LaunchEnded(s), VR_ONLY, fails)
               else AcquireVr(s.(lib := Release(s.lib, s.sustainedHandle)), BOTH, fails);
      t.(vr := true)
    else if s.vr then
      var t := s.(lib := Release(s.lib, s.vrHandle));
      (if s.sustained then AcquireSustained(t, BACK_TO_SUSTAINED, fails) else t).(vr := false)
    else s
  }

  function OnLaunch(s: State, on: bool, g: Governor, fails: bool): State {
    if s.sustained || s.vr then s
    else if on && !s.launch then
      var (lib, h) := if Boosts(g) then Acquire(s.lib, s.launchHandle, LaunchRequest(g), fails) else (s.lib, -1);
      s.(lib := lib, launchHandle := h, launch := h > 0)
    else if !on && s.launch then LaunchEnded(s)
    else s
  }

  class PowerHal {
    var lib: Lib
    var sustainedPerformanceMode: int
    var vrMode: int
    var launchMode: int
    var sustainedModeHandle: int
    var vrModeHandle: int
    var launchHandle: int

    ghost predicate Valid()
      reads this
    {
      0 <= sustainedPerformanceMode <= 1 && 0 <= vrMode <= 1 && 0 <= launchMode <= 1
    }

    ghost function Abs(): State
      reads this
    {
      State(lib, sustainedPerformanceMode == 1, vrMode == 1, launchMode == 1,
            sustainedModeHandle, vrModeHandle, launchHandle)
    }

    constructor (lib: Lib)
      ensures Valid() && Abs() == State(lib, false, false, false, 0, 0, -1)
    {
      this.lib := lib;
      sustainedPerformanceMode, vrMode, launchMode := 0, 0, 0;
      sustainedModeHandle, vrModeHandle, launchHandle := 0, 0, -1;
    }

    method InteractionWithHandle(handle: int, request: seq<int>, fails: bool) returns (h: int)
      modifies this`lib
      ensures (lib, h) == Acquire(old(lib), handle, request, fails)
    {
      var (l, r) := Acquire(lib, handle, request, fails);
      lib := l;
      return r;
    }

    method ReleaseRequest(handle: int)
      modifies this`lib
      ensures lib == Release(old(lib), handle)
    {
      lib := Release(lib, handle);
    }

    method EndLaunch()
      requires Valid()
      modifies this`lib, this`launchMode
      ensures Valid() && Abs() == LaunchEnded(old(Abs()))
    {
      if launchMode == 1 {
        ReleaseRequest(launchHandle);
        launchMode := 0;
      }
    }

    method SustainedHint(on: bool, fails: bool)
      requires Valid()
      modifies this
      ensures Valid() && Abs() == OnSustained(old(Abs()), on, fails)
    {
      if on && sustainedPerformanceMode == 0 {
        if vrMode == 0 {
          EndLaunch();
          sustainedModeHandle := InteractionWithHandle(sustainedModeHandle, SUSTAINED_ONLY, fails);
        } else if vrMode == 1 {
          ReleaseRequest(vrModeHandle);
          sustainedModeHandle := InteractionWithHandle(sustainedModeHandle, BOTH, fails);
        }
        sustainedPerformanceMode := 1;
      } else if sustainedPerformanceMode == 1 {
        ReleaseRequest(sustainedModeHandle);
        if vrMode == 1 {
          vrModeHandle := InteractionWithHandle(vrModeHandle, BACK_TO_VR, fails);
        }
        sustainedPerformanceMode := 0;
      }
    }

    method VrHint(on: bool, fails: bool)
      requires Valid()
      modifies this
      ensures Valid() && Abs() == OnVr(old(Abs()), on, fails)
    {
      if on && vrMode == 0 {
        if sustainedPerformanceMode == 0 {
          EndLaunch();
          vrModeHandle := InteractionWithHandle(vrModeHandle, VR_ONLY, fails);
        } else if sustainedPerformanceMode == 1 {
          ReleaseRequest(sustainedModeHandle);
          vrModeHandle := InteractionWithHandle(vrModeHandle, BOTH, fails);
        }
        vrMode := 1;
      } else if vrMode == 1 {
        ReleaseRequest(vrModeHandle);
        if sustainedPerformanceMode == 1 {
          sustainedModeHandle := InteractionWithHandle(sustainedModeHandle, BACK_TO_SUSTAINED, fails);
        }
        vrMode := 0;
      }
    }

    method ProcessBoost(handle: int, g: Governor, fails: bool) returns (h: int)
      modifies this`lib
      ensures (lib, h) == if Boosts(g) then Acquire(old(lib), handle, LaunchRequest(g), fails) else (old(lib), -1)
    {
      var resources;
      match g {
        case Unreadable => return -1;
        case Sched => resources := LAUNCH;
        case Interactive => resources := [0x40C00000, 0x1] + LAUNCH;
        case Unsupported => return -1;
      }
      h := InteractionWithHandle(handle, resources, fails);
    }

    method LaunchHint(on: bool, g: Governor, fails: bool) returns (handled: bool)
      requires Valid()
      modifies this
      ensures Valid() && Abs() == OnLaunch(old(Abs()), on, g, fails)
      ensures handled == (old(Abs().sustained || Abs().vr) || launchMode != old(launchMode))
    {
      if sustainedPerformanceMode != 0 || vrMode != 0 {
        return true;
      }
      if on && launchMode == 0 {
        launchHandle := ProcessBoost(launchHandle, g, fails);
        if launchHandle > 0 {
          launchMode := 1;
          return true;
        }
        return false;
      } else if !on && launchMode == 1 {
        EndLaunch();
        return true;
      }
      return false;
    }
  }
}
