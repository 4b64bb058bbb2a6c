/** The camera's callback notifier: a queue of pending callbacks, a command queue in which control
    commands overtake, and the thread that runs one command at a time. */
module CbNotifier {
  const UINT32 := 0x1_0000_0000

  type uint32 = x: int | 0 <= x < UINT32

  const NO_ERROR := 0
  const BAD_VALUE := -22
  const INVALID_OPERATION := -38
  const FAILED_TRANSACTION := -2147483646

  datatype Kind = Notify | Data | Timestamp | Snapshot | Unknown
  datatype Msg = PreviewFrame | VideoFrame | OtherMsg

  /** A queued callback. `hasRelease` is whether it carries a function that releases its data. */
  datatype Entry = Entry(id: nat, kind: Kind, msg: Msg, hasRelease: bool)

  datatype Match = MatchPreview | MatchVideo | MatchSnapshot | MatchAll

  datatype Cmd = DoNextJob | Start | Stop | Exit

  /** What is done to the outside: by the thread, an application callback, data handed to the JPEG
      muxer (which releases it), a release with its status, the snapshot-done event; and by a poster
      that was told its post failed, the release of its own data. */
  datatype Call =
    Called(id: nat) | Handed(id: nat) | Released(id: nat, status: int) | SnapshotDone | PosterReleased(id: nat)

  /** What the thread finds when it runs a command: which callbacks are set, whether the message
      type is enabled, how many snapshots are expected, whether longshot is on. */
  datatype Env = Env(notifyCb: bool, dataCb: bool, timestampCb: bool, jpegCb: bool, enabled: bool,
                     expected: uint32, longshot: bool)

  datatype Snap = Snap(active: bool, longshot: bool, expected: uint32, rcvd: uint32)

  datatype State = State(active: bool, running: bool, queueActive: bool, queue: seq<Entry>, cmds: seq<Cmd>,
                         snap: Snap, calls: seq<Call>)

  predicate Matches(m: Match, e: Entry) {
    match m
    case MatchPreview => e.kind == Data && e.msg == PreviewFrame
    case MatchVideo => e.kind == Timestamp && e.msg == VideoFrame
    case MatchSnapshot => e.kind == Snapshot
    case MatchAll => true
  }

  /** The entries a flush leaves, in order. */
  function Kept(q: seq<Entry>, m: Match): seq<Entry> {
    if q == [] then []
    else Kept(q[..|q| - 1], m) + if Matches(m, q[|q| - 1]) then [] else [q[|q| - 1]]
  }

  function ReleaseCall(e: Entry, status: int): seq<Call> {
    if e.hasRelease then [Released(e.id, status)] else []
  }

  /** The release calls of the entries a flush takes out, in order. */
  function FlushCalls(q: seq<Entry>, m: Match): seq<Call> {
    if q == [] then []
    else FlushCalls(q[..|q| - 1], m)
         + if Matches(m, q[|q| - 1]) then ReleaseCall(q[|q| - 1], FAILED_TRANSACTION) else []
  }

  function Flushed(s: State, m: Match): State {
    if s.queueActive then s.(queue := Kept(s.queue, m), calls := s.calls + FlushCalls(s.queue, m)) else s
  }

  function Deliver(set_: bool, e: Entry): seq<Call> {
    if set_ then [Called(e.id)] else []
  }

  predicate TakesSnapshot(e: Entry, snap: Snap, env: Env) {
    env.enabled && e.kind == Snapshot && snap.active && env.dataCb
  }

  function SnapAfter(e: Entry, snap: Snap, env: Env): Snap {
    if TakesSnapshot(e, snap, env) && !snap.longshot then snap.(rcvd := (snap.rcvd + 1) % UINT32) else snap
  }

  predicate Completes(e: Entry, snap: Snap, env: Env) {
    && TakesSnapshot(e, snap, env) && !snap.longshot
    && snap.expected > 0 && snap.expected == SnapAfter(e, snap, env).rcvd
  }

  function SnapshotCalls(e: Entry, snap: Snap, env: Env): seq<Call> {
    if !TakesSnapshot(e, snap, env) then []
    else
      (if Completes(e, snap, env) then [SnapshotDone] else [])
      + (if env.jpegCb then [Handed(e.id)] else [Called(e.id)] + ReleaseCall(e, NO_ERROR))
  }

  function JobCalls(e: Entry, snap: Snap, env: Env): seq<Call> {
    if !env.enabled then ReleaseCall(e, INVALID_OPERATION)
    else
      match e.kind
      case Notify => Deliver(env.notifyCb, e) + ReleaseCall(e, NO_ERROR)
      case Data => Deliver(env.dataCb, e) + ReleaseCall(e, NO_ERROR)
      case Timestamp => Deliver(env.timestampCb, e) + ReleaseCall(e, NO_ERROR)
      case Snapshot => SnapshotCalls(e, snap, env)
      case Unknown => ReleaseCall(e, BAD_VALUE)
  }

  function AfterCmd(s: State, cmd: Cmd, env: Env): State {
    match cmd
    case Start => s.(snap := Snap(true, env.longshot, env.expected, 0))
    case Stop => Flushed(s, MatchSnapshot).(snap := Snap(false, s.snap.longshot, 0, 0))
    case Exit => Flushed(s, MatchAll).(running := false, queueActive := false)
    case DoNextJob =>
      if !s.queueActive || s.queue == [] then s
      else
        var e := s.queue[0];
        s.(queue := s.queue[1..], snap := SnapAfter(e, s.snap, env), calls := s.calls + JobCalls(e, s.snap, env))
  }

  function AfterRound(s: State, env: Env): State {
    if s.cmds == [] then s else AfterCmd(s.(cmds := s.cmds[1..]), s.cmds[0], env)
  }

  class Notifier {
    var active: bool
    var running: bool
    var queueActive: bool
    var queue: seq<Entry>
    var cmds: seq<Cmd>
    var isSnapshotActive: bool
    var longShotEnabled: bool
    var numOfSnapshotExpected: uint32
    var numOfSnapshotRcvd: uint32
    var calls: seq<Call>

    ghost function Abs(): State
      reads this
    {
      State(active, running, queueActive, queue, cmds,
            Snap(isSnapshotActive, longShotEnabled, numOfSnapshotExpected, numOfSnapshotRcvd), calls)
    }

    constructor ()
      ensures Abs() == State(true, true, true, [], [], Snap(false, false, 0, 0), [])
    {
      active, running, queueActive, queue, cmds := true, true, true, [], [];
      isSnapshotActive, longShotEnabled, numOfSnapshotExpected, numOfSnapshotRcvd := false, false, 0, 0;
      calls := [];
    }

    /** The first half of a notification: the entry joins the queue. */
    method Enqueue(e: Entry, hasMemory: bool) returns (ok: bool)
      modifies this
      ensures ok == (old(active) && hasMemory && old(queueActive))
      ensures Abs() == if ok then old(Abs()).(queue := old(queue) + [e]) else old(Abs())
    {
      if !active || !hasMemory || !queueActive {
        return false;
      }
      queue := queue + [e];
      return true;
    }

    /** Control commands go to the head of the command queue, jobs to its tail. */
    method SendCmd(cmd: Cmd, priority: bool)
      modifies this
      ensures Abs() == old(Abs()).(cmds := if priority then [cmd] + old(cmds) else old(cmds) + [cmd])
    {
      if priority {
        cmds := [cmd] + cmds;
      } else {
        cmds := cmds + [cmd];
      }
    }

    method Release(e: Entry, status: int)
      modifies this`calls
      ensures calls == old(calls) + ReleaseCall(e, status)
    {
      if e.hasRelease {
        calls := calls + [Released(e.id, status)];
      }
    }

    /** Takes every matching entry out of the queue and releases it. */
    method FlushNodes(m: Match)
      modifies this`queue, this`calls
      ensures Abs() == Flushed(old(Abs()), m)
    {
      if queueActive {
        ghost var was, before := queue, calls;
        var pos, rest := 0, queue;
        queue := [];
        while pos < |rest|
          invariant pos <= |rest| && rest == was
          invariant queue == Kept(was[..pos], m) && calls == before + FlushCalls(was[..pos], m)
        {
          var e := rest[pos];
          if Matches(m, e) {
            Release(e, FAILED_TRANSACTION);
          } else {
            queue := queue + [e];
          }
          pos := pos + 1;
          assert was[..pos][..pos - 1] == was[..pos - 1];
        }
        assert was[..pos] == was;
      }
    }

    method CountSnapshot()
      modifies this`calls, this`numOfSnapshotRcvd
      ensures numOfSnapshotRcvd == if longShotEnabled then old(numOfSnapshotRcvd)
                                   else (old(numOfSnapshotRcvd) + 1) % UINT32
      ensures calls == old(calls) + if !longShotEnabled && numOfSnapshotExpected > 0
                                       && numOfSnapshotExpected == numOfSnapshotRcvd
                                    then [SnapshotDone] else []
    {
      if !longShotEnabled {
        numOfSnapshotRcvd := (numOfSnapshotRcvd + 1) % UINT32;
        if numOfSnapshotExpected > 0 && numOfSnapshotExpected == numOfSnapshotRcvd {
          calls := calls + [SnapshotDone];
        }
      }
    }

    method NextSnapshot(cb: Entry, env: Env)
      requires cb.kind == Snapshot && env.enabled
      modifies this`calls, this`numOfSnapshotRcvd
      ensures Abs() == old(Abs()).(snap := SnapAfter(cb, old(Abs()).snap, env),
                                   calls := old(calls) + SnapshotCalls(cb, old(Abs()).snap, env))
    {
      if isSnapshotActive && env.dataCb {
        ghost var before, snap := calls, Abs().snap;
        CountSnapshot();
        ghost var done := if Completes(cb, snap, env) then [SnapshotDone] else [];
        assert calls == before + done;
        if env.jpegCb {
          calls := calls + [Handed(cb.id)];
          assert calls == before + (done + [Handed(cb.id)]);
        } else if env.dataCb {
          calls := calls + [Called(cb.id)];
          Release(cb, NO_ERROR);
          assert calls == before + (done + ([Called(cb.id)] + ReleaseCall(cb, NO_ERROR)));
        }
      }
    }

    /** One job of the thread: dispatch the oldest entry. */
    method NextJob(env: Env)
      modifies this
      ensures Abs() == AfterCmd(old(Abs()), DoNextJob, env)
    {
      if !queueActive || queue == [] {
        return;
      }
      var cb := queue[0];
      queue := queue[1..];
      if env.enabled {
        match cb.kind {
          case Notify =>
            if env.notifyCb { calls := calls + [Called(cb.id)]; }
            Release(cb, NO_ERROR);
          case Data =>
            if env.dataCb { calls := calls + [Called(cb.id)]; }
            Release(cb, NO_ERROR);
          case Timestamp =>
            if env.timestampCb { calls := calls + [Called(cb.id)]; }
            Release(cb, NO_ERROR);
          case Snapshot =>
            NextSnapshot(cb, env);
          case Unknown =>
            Release(cb, BAD_VALUE);
        }
      } else {
        Release(cb, INVALID_OPERATION);
      }
    }

    /** One round of the thread's loop. */
    method Round(env: Env)
      modifies this
      ensures Abs() == AfterRound(old(Abs()), env)
    {
      if cmds == [] {
        return;
      }
      var cmd := cmds[0];
      cmds := cmds[1..];
      match cmd {
        case Start =>
          isSnapshotActive, longShotEnabled, numOfSnapshotExpected := true, env.longshot, env.expected;
          numOfSnapshotRcvd := 0;
        case Stop =>
          FlushNodes(MatchSnapshot);
          isSnapshotActive, numOfSnapshotExpected, numOfSnapshotRcvd := false, 0, 0;
        case DoNextJob =>
          NextJob(env);
        case Exit =>
          running := false;
          FlushNodes(MatchAll);
          queueActive := false;
      }
    }
  }
}
