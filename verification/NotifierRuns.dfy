/** Runs of the callback notifier: clients post, flush, start and stop snapshots, each post being an
    enqueue and later a command, and the notifier thread runs commands in between. A disabled event
    changes nothing. */
module NotifierRuns {
  import opened CbNotifier

  /** How sending a command ended: it was queued, it was lost but reported as sent, or there was no
      memory and the sender was told. */
  datatype Sending = Sent | Lost | Failed

  datatype Event =
    | Post(kind: Kind, msg: Msg, hasRelease: bool, hasMemory: bool)
    | FinishPost(id: nat, how: Sending)
    | Flush(m: Match)
    | StartSnapshots
    | StopSnapshots
    | Quit
    | Work(env: Env)

  datatype History = History(
    n: State,
    posted: seq<Entry>,   // every entry that joined the queue; its id is its position
    sending: set<nat>,    // posts whose command is still to be sent
    lost: nat,            // posts whose command never reached the queue
    dropped: set<nat>,    // snapshots taken out while snapshots were off or no callback was set
    taken: nat,           // snapshots taken since the last START or STOP ran
    mark: nat)            // where the calls since then begin

  function Drops(s: State, env: Env): set<nat>
    requires s.queue != []
  {
    var e := s.queue[0];
    if env.enabled && e.kind == Snapshot && !TakesSnapshot(e, s.snap, env) then {e.id} else {}
  }

  predicate RunsJob(s: State) {
    s.cmds != [] && s.cmds[0] == DoNextJob && s.queueActive && s.queue != []
  }

  function Worked(h: History, env: Env): History {
    var n' := AfterRound(h.n, env);
    if h.n.cmds != [] && (h.n.cmds[0] == Start || h.n.cmds[0] == Stop) then
      h.(n := n', taken := 0, mark := |n'.calls|)
    else if RunsJob(h.n) then
      h.(n := n', dropped := h.dropped + Drops(h.n, env),
         taken := h.taken + if TakesSnapshot(h.n.queue[0], h.n.snap, env) then 1 else 0)
    else h.(n := n')
  }

  /** Told that its post failed, the poster releases the data itself. */
  function PosterCalls(posted: seq<Entry>, id: nat): seq<Call> {
    if id < |posted| && posted[id].hasRelease then [PosterReleased(id)] else []
  }

  function Apply(h: History, e: Event): History {
    match e
    case Post(kind, msg, rel, hasMemory) =>
      var x := Entry(|h.posted|, kind, msg, rel);
      if !h.n.active || !hasMemory || !h.n.queueActive then h
      else h.(n := h.n.(queue := h.n.queue + [x]), posted := h.posted + [x], sending := h.sending + {x.id})
    case FinishPost(id, how) =>
      if id !in h.sending then h
      else
        var t := h.(sending := h.sending - {id});
        (match how
         case Sent => t.(n := h.n.(cmds := h.n.cmds + [DoNextJob]))
         case Lost => t.(lost := h.lost + 1)
         case Failed => t.(lost := h.lost + 1, n := h.n.(calls := h.n.calls + PosterCalls(h.posted, id))))
    case Flush(m) =>
      if !h.n.active || (m != MatchPreview && m != MatchVideo) then h else h.(n := Flushed(h.n, m))
    case StartSnapshots => h.(n := h.n.(cmds := [Start] + h.n.cmds))
    case StopSnapshots => h.(n := h.n.(cmds := [Stop] + h.n.cmds))
    case Quit => h.(n := h.n.(active := false, cmds := [Exit] + h.n.cmds))
    case Work(env) => if h.n.running then Worked(h, env) else h
  }

  const INIT := History(State(true, true, true, [], [], Snap(false, false, 0, 0), []), [], {}, 0, {}, 0, 0)

  function Run(es: seq<Event>): History {
    if es == [] then INIT else Apply(Run(es[..|es| - 1]), es[|es| - 1])
  }

  // ---------------------------------------------------------------- counting calls

  datatype Tally = CallsOf(id: nat) | HandsOf(id: nat) | ReleasesOf(id: nat) | PosterReleasesOf(id: nat) | Dones

  predicate Counts(t: Tally, c: Call) {
    match t
    case CallsOf(id) => c == Called(id)
    case HandsOf(id) => c == Handed(id)
    case ReleasesOf(id) => c.Released? && c.id == id
    case PosterReleasesOf(id) => c == PosterReleased(id)
    case Dones => c == SnapshotDone
  }

  function Count(cs: seq<Call>, t: Tally): nat {
    if cs == [] then 0 else Count(cs[..|cs| - 1], t) + if Counts(t, cs[|cs| - 1]) then 1 else 0
  }

  lemma {:induction false} CountAppend(a: seq<Call>, b: seq<Call>, t: Tally)
    ensures Count(a + b, t) == Count(a, t) + Count(b, t)
  {
    if b == [] {
      assert a + b == a;
    } else {
      CountAppend(a, b[..|b| - 1], t);
      assert (a + b)[..|a + b| - 1] == a + b[..|b| - 1];
    }
  }

  lemma CountOne(c: Call, t: Tally)
    ensures Count([c], t) == if Counts(t, c) then 1 else 0
  {
    assert Count([c][..0], t) == 0;
  }

  lemma CountRelease(e: Entry, status: int, t: Tally)
    ensures Count(ReleaseCall(e, status), t) == if e.hasRelease && t == ReleasesOf(e.id) then 1 else 0
  {
    if e.hasRelease { CountOne(Released(e.id, status), t); }
  }

  lemma CountDeliver(set_: bool, e: Entry, t: Tally)
    ensures Count(Deliver(set_, e), t) == if set_ && t == CallsOf(e.id) then 1 else 0
  {
    if set_ { CountOne(Called(e.id), t); }
  }

  lemma CountPoster(calls: seq<Call>, posted: seq<Entry>, id: nat, t: Tally)
    ensures Count(calls + PosterCalls(posted, id), t)
         == Count(calls, t) + if t == PosterReleasesOf(id) && PosterCalls(posted, id) != [] then 1 else 0
  {
    CountAppend(calls, PosterCalls(posted, id), t);
    CountOne(PosterReleased(id), t);
  }

  // ---------------------------------------------------------------- what one job calls

  /** Whether a job's entry is released by the notifier, and whether it is handed to the muxer. */
  predicate ReleasedBy(e: Entry, snap: Snap, env: Env) {
    e.hasRelease && (e.kind != Snapshot || !env.enabled || (snap.active && env.dataCb && !env.jpegCb))
  }

  predicate HandedBy(e: Entry, snap: Snap, env: Env) {
    env.enabled && e.kind == Snapshot && snap.active && env.dataCb && env.jpegCb
  }

  predicate DeliveredBy(e: Entry, snap: Snap, env: Env) {
    env.enabled && match e.kind
                   case Notify => env.notifyCb
                   case Data => env.dataCb
                   case Timestamp => env.timestampCb
                   case Snapshot => snap.active && env.dataCb && !env.jpegCb
                   case Unknown => false
  }

  lemma SnapshotCounts(e: Entry, snap: Snap, env: Env, t: Tally)
    requires TakesSnapshot(e, snap, env)
    ensures Count(SnapshotCalls(e, snap, env), t) ==
      match t
      case CallsOf(id) => if id == e.id && !env.jpegCb then 1 else 0
      case HandsOf(id) => if id == e.id && env.jpegCb then 1 else 0
      case ReleasesOf(id) => if id == e.id && e.hasRelease && !env.jpegCb then 1 else 0
      case PosterReleasesOf(_) => 0
      case Dones => if Completes(e, snap, env) then 1 else 0
  {
    var done := if Completes(e, snap, env) then [SnapshotDone] else [];
    var last := if env.jpegCb then [Handed(e.id)] else [Called(e.id)] + ReleaseCall(e, NO_ERROR);
    CountAppend(done, last, t);
    CountOne(SnapshotDone, t);
    CountOne(Handed(e.id), t);
    CountOne(Called(e.id), t);
    CountRelease(e, NO_ERROR, t);
    CountAppend([Called(e.id)], ReleaseCall(e, NO_ERROR), t);
  }

  lemma CallbackCounts(set_: bool, e: Entry, t: Tally)
    ensures Count(Deliver(set_, e) + ReleaseCall(e, NO_ERROR), t) ==
      match t
      case CallsOf(id) => if id == e.id && set_ then 1 else 0
      case ReleasesOf(id) => if id == e.id && e.hasRelease then 1 else 0
      case _ => 0
  {
    CountDeliver(set_, e, t);
    CountRelease(e, NO_ERROR, t);
    CountAppend(Deliver(set_, e), ReleaseCall(e, NO_ERROR), t);
  }

  /** How often a job makes the calls a tally counts. */
  function Due(e: Entry, snap: Snap, env: Env, t: Tally): nat {
    match t
    case CallsOf(id) => if id == e.id && DeliveredBy(e, snap, env) then 1 else 0
    case HandsOf(id) => if id == e.id && HandedBy(e, snap, env) then 1 else 0
    case ReleasesOf(id) => if id == e.id && ReleasedBy(e, snap, env) then 1 else 0
    case PosterReleasesOf(_) => 0
    case Dones =>
      if env.enabled && e.kind == Snapshot && snap.active && env.dataCb && !snap.longshot
         && snap.expected > 0 && (snap.rcvd + 1) % UINT32 == snap.expected then 1 else 0
  }

  /** What is due for a snapshot that is taken, and for one that is not. */
  lemma SnapshotDue(e: Entry, snap: Snap, env: Env, t: Tally)
    requires env.enabled && e.kind == Snapshot
    ensures Due(e, snap, env, t) ==
      if !TakesSnapshot(e, snap, env) then 0
      else
        match t
        case CallsOf(id) => if id == e.id && !env.jpegCb then 1 else 0
        case HandsOf(id) => if id == e.id && env.jpegCb then 1 else 0
        case ReleasesOf(id) => if id == e.id && e.hasRelease && !env.jpegCb then 1 else 0
        case PosterReleasesOf(_) => 0
        case Dones => if Completes(e, snap, env) then 1 else 0
  {}

  lemma SnapshotJobCounts(e: Entry, snap: Snap, env: Env, t: Tally)
    requires env.enabled && e.kind == Snapshot
    ensures Count(JobCalls(e, snap, env), t) == Due(e, snap, env, t)
  {
    SnapshotDue(e, snap, env, t);
    if TakesSnapshot(e, snap, env) {
      SnapshotCounts(e, snap, env, t);
    } else {
      assert JobCalls(e, snap, env) == [];
    }
  }

  /** What is due for an entry that is no snapshot: a delivery, if its callback is set, and a release. */
  lemma PlainDue(e: Entry, snap: Snap, env: Env, t: Tally)
    requires env.enabled && e.kind != Snapshot
    ensures Due(e, snap, env, t) ==
      match t
      case CallsOf(id) => if id == e.id && DeliveredBy(e, snap, env) then 1 else 0
      case ReleasesOf(id) => if id == e.id && e.hasRelease then 1 else 0
      case _ => 0
  {}

  lemma PlainJobCounts(e: Entry, snap: Snap, env: Env, t: Tally)
    requires env.enabled && e.kind != Snapshot
    ensures Count(JobCalls(e, snap, env), t) == Due(e, snap, env, t)
  {
    PlainDue(e, snap, env, t);
    if e.kind == Unknown {
      CountRelease(e, BAD_VALUE, t);
    } else {
      CallbackCounts(DeliveredBy(e, snap, env), e, t);
      assert JobCalls(e, snap, env) == Deliver(DeliveredBy(e, snap, env), e) + ReleaseCall(e, NO_ERROR);
    }
  }

  lemma JobCounts(e: Entry, snap: Snap, env: Env, t: Tally)
    ensures Count(JobCalls(e, snap, env), t) == Due(e, snap, env, t)
  {
    if !env.enabled {
      CountRelease(e, INVALID_OPERATION, t);
    } else if e.kind == Snapshot {
      SnapshotJobCounts(e, snap, env, t);
    } else {
      PlainJobCounts(e, snap, env, t);
    }
  }

  // ---------------------------------------------------------------- the queue

  ghost predicate Increasing(q: seq<Entry>) {
    forall i, j :: 0 <= i < j < |q| ==> q[i].id < q[j].id
  }

  /** The queue holds posted entries, oldest first. */
  ghost predicate QueueInv(q: seq<Entry>, posted: seq<Entry>) {
    && Increasing(q)
    && (forall i :: 0 <= i < |q| ==> q[i].id < |posted| && posted[q[i].id] == q[i])
    && (forall k :: 0 <= k < |posted| ==> posted[k].id == k)
  }

  lemma {:induction false} KeptMembers(q: seq<Entry>, m: Match, e: Entry)
    ensures e in Kept(q, m) <==> e in q && !Matches(m, e)
    ensures |Kept(q, m)| <= |q|
  {
    if q != [] {
      KeptMembers(q[..|q| - 1], m, e);
      assert q == q[..|q| - 1] + [q[|q| - 1]];
    }
  }

  lemma {:induction false} KeptIncreasing(q: seq<Entry>, m: Match)
    requires Increasing(q)
    ensures Increasing(Kept(q, m))
  {
    if q != [] {
      var init := q[..|q| - 1];
      KeptIncreasing(init, m);
      forall i | 0 <= i < |Kept(init, m)| ensures Kept(init, m)[i].id < q[|q| - 1].id {
        KeptMembers(init, m, Kept(init, m)[i]);
      }
    }
  }

  lemma FlushKeepsQueue(q: seq<Entry>, posted: seq<Entry>, m: Match)
    requires QueueInv(q, posted)
    ensures QueueInv(Kept(q, m), posted)
  {
    KeptIncreasing(q, m);
    forall i | 0 <= i < |Kept(q, m)| ensures Kept(q, m)[i] in q {
      KeptMembers(q, m, Kept(q, m)[i]);
    }
  }

  lemma {:induction false} FlushOnlyReleases(q: seq<Entry>, m: Match, t: Tally)
    requires t.ReleasesOf? ==> forall i :: 0 <= i < |q| ==> q[i].id != t.id
    ensures Count(FlushCalls(q, m), t) == 0
  {
    if q != [] {
      var init, last := q[..|q| - 1], q[|q| - 1];
      FlushOnlyReleases(init, m, t);
      CountAppend(FlushCalls(init, m), if Matches(m, last) then ReleaseCall(last, FAILED_TRANSACTION) else [], t);
      CountRelease(last, FAILED_TRANSACTION, t);
    }
  }

  lemma {:induction false} FlushReleases(q: seq<Entry>, m: Match, i: nat)
    requires Increasing(q) && i < |q|
    ensures Count(FlushCalls(q, m), ReleasesOf(q[i].id)) == if Matches(m, q[i]) && q[i].hasRelease then 1 else 0
  {
    var init, last, t := q[..|q| - 1], q[|q| - 1], ReleasesOf(q[i].id);
    if i < |init| {
      FlushReleases(init, m, i);
    } else {
      FlushOnlyReleases(init, m, t);
    }
    CountAppend(FlushCalls(init, m), if Matches(m, last) then ReleaseCall(last, FAILED_TRANSACTION) else [], t);
    CountRelease(last, FAILED_TRANSACTION, t);
  }

  // ---------------------------------------------------------------- what became of an entry

  /** A pending entry has had no call; one that left was delivered at most once, and released once
      by the notifier or handed over, unless it is a snapshot that was dropped. */
  ghost predicate Fate(e: Entry, pending: bool, calls: seq<Call>, dropped: bool) {
    var c, d, r := Count(calls, CallsOf(e.id)), Count(calls, HandsOf(e.id)), Count(calls, ReleasesOf(e.id));
    if pending then c == 0 && d == 0 && r == 0 && !dropped
    else
      && c + d <= 1
      && r == (if e.hasRelease && !dropped && d == 0 then 1 else 0)
      && (dropped ==> e.kind == Snapshot && c == 0 && d == 0)
      && (d == 1 ==> e.kind == Snapshot)
  }

  ghost predicate NoCalls(calls: seq<Call>, k: nat) {
    Count(calls, CallsOf(k)) == 0 && Count(calls, HandsOf(k)) == 0 && Count(calls, ReleasesOf(k)) == 0
  }

  ghost predicate FateInv(n: State, posted: seq<Entry>, dropped: set<nat>) {
    && (forall k: nat :: k < |posted| ==> Fate(posted[k], posted[k] in n.queue, n.calls, k in dropped))
    && (forall k :: k in dropped ==> k < |posted|)
    && (forall k: nat :: |posted| <= k ==> NoCalls(n.calls, k))
  }

  lemma JobFate(e: Entry, x: Entry, calls: seq<Call>, snap: Snap, env: Env, pending: bool, dropped: bool)
    requires Fate(x, pending || x == e, calls, dropped) && (x.id == e.id ==> x == e)
    requires x == e ==> !pending
    ensures Fate(x, pending, calls + JobCalls(e, snap, env),
                 dropped || (x == e && env.enabled && e.kind == Snapshot && !TakesSnapshot(e, snap, env)))
  {
    JobCounts(e, snap, env, CallsOf(x.id));
    JobCounts(e, snap, env, HandsOf(x.id));
    JobCounts(e, snap, env, ReleasesOf(x.id));
    CountAppend(calls, JobCalls(e, snap, env), CallsOf(x.id));
    CountAppend(calls, JobCalls(e, snap, env), HandsOf(x.id));
    CountAppend(calls, JobCalls(e, snap, env), ReleasesOf(x.id));
  }

  lemma JobNoCalls(e: Entry, calls: seq<Call>, snap: Snap, env: Env, k: nat)
    requires NoCalls(calls, k) && k != e.id
    ensures NoCalls(calls + JobCalls(e, snap, env), k)
  {
    JobFate(e, Entry(k, Notify, OtherMsg, false), calls, snap, env, true, false);
  }

  lemma DequeueKeepsQueue(q: seq<Entry>, posted: seq<Entry>)
    requires QueueInv(q, posted) && q != []
    ensures QueueInv(q[1..], posted) && q[0] !in q[1..]
    ensures forall x :: x in q <==> x in q[1..] || x == q[0]
    ensures forall k :: 0 <= k < |posted| && k == q[0].id ==> posted[k] == q[0]
  {
    var rest := q[1..];
    assert q == [q[0]] + rest;
  }

  lemma DequeueFate(n: State, posted: seq<Entry>, dropped: set<nat>, env: Env, k: nat)
    requires QueueInv(n.queue, posted) && FateInv(n, posted, dropped) && n.queue != [] && k < |posted|
    ensures var calls := JobCalls(n.queue[0], n.snap, env);
      Fate(posted[k], posted[k] in n.queue[1..], n.calls + calls, k in dropped + Drops(n, env))
  {
    DequeueKeepsQueue(n.queue, posted);
    assert Fate(posted[k], posted[k] in n.queue, n.calls, k in dropped);
    JobFate(n.queue[0], posted[k], n.calls, n.snap, env, posted[k] in n.queue[1..], k in dropped);
  }

  lemma JobKeepsFate(n: State, posted: seq<Entry>, dropped: set<nat>, env: Env)
    requires QueueInv(n.queue, posted) && FateInv(n, posted, dropped) && n.queue != []
    ensures var e := n.queue[0];
      && QueueInv(n.queue[1..], posted)
      && FateInv(n.(queue := n.queue[1..], calls := n.calls + JobCalls(e, n.snap, env)), posted,
                 dropped + Drops(n, env))
  {
    var e, rest := n.queue[0], n.queue[1..];
    var calls' := n.calls + JobCalls(e, n.snap, env);
    DequeueKeepsQueue(n.queue, posted);
    forall k: nat | k < |posted| ensures Fate(posted[k], posted[k] in rest, calls', k in dropped + Drops(n, env)) {
      DequeueFate(n, posted, dropped, env, k);
    }
    forall k: nat | |posted| <= k ensures NoCalls(calls', k) {
      JobNoCalls(e, n.calls, n.snap, env, k);
    }
  }

  lemma FlushFate(q: seq<Entry>, posted: seq<Entry>, m: Match, x: Entry, calls: seq<Call>, dropped: bool)
    requires QueueInv(q, posted) && x.id < |posted| && posted[x.id] == x
    requires Fate(x, x in q, calls, dropped)
    ensures Fate(x, x in Kept(q, m), calls + FlushCalls(q, m), dropped)
  {
    KeptMembers(q, m, x);
    FlushOnlyReleases(q, m, CallsOf(x.id));
    FlushOnlyReleases(q, m, HandsOf(x.id));
    CountAppend(calls, FlushCalls(q, m), CallsOf(x.id));
    CountAppend(calls, FlushCalls(q, m), HandsOf(x.id));
    CountAppend(calls, FlushCalls(q, m), ReleasesOf(x.id));
    if x in q {
      var i :| 0 <= i < |q| && q[i] == x;
      FlushReleases(q, m, i);
    } else {
      FlushOnlyReleases(q, m, ReleasesOf(x.id));
    }
  }

  lemma FlushNoCalls(q: seq<Entry>, posted: seq<Entry>, m: Match, calls: seq<Call>, k: nat)
    requires QueueInv(q, posted) && NoCalls(calls, k) && |posted| <= k
    ensures NoCalls(calls + FlushCalls(q, m), k)
  {
    FlushOnlyReleases(q, m, CallsOf(k));
    FlushOnlyReleases(q, m, HandsOf(k));
    FlushOnlyReleases(q, m, ReleasesOf(k));
    CountAppend(calls, FlushCalls(q, m), CallsOf(k));
    CountAppend(calls, FlushCalls(q, m), HandsOf(k));
    CountAppend(calls, FlushCalls(q, m), ReleasesOf(k));
  }

  lemma FlushKeepsFate(n: State, posted: seq<Entry>, dropped: set<nat>, m: Match)
    requires QueueInv(n.queue, posted) && FateInv(n, posted, dropped)
    ensures QueueInv(Flushed(n, m).queue, posted) && FateInv(Flushed(n, m), posted, dropped)
  {
    if n.queueActive {
      FlushKeepsQueue(n.queue, posted, m);
      forall k: nat | k < |posted|
        ensures Fate(posted[k], posted[k] in Kept(n.queue, m), n.calls + FlushCalls(n.queue, m), k in dropped)
      {
        FlushFate(n.queue, posted, m, posted[k], n.calls, k in dropped);
      }
      forall k: nat | |posted| <= k ensures NoCalls(n.calls + FlushCalls(n.queue, m), k) {
        FlushNoCalls(n.queue, posted, m, n.calls, k);
      }
    }
  }

  lemma PostKeepsFate(n: State, posted: seq<Entry>, dropped: set<nat>, x: Entry)
    requires QueueInv(n.queue, posted) && FateInv(n, posted, dropped) && x.id == |posted|
    ensures QueueInv(n.queue + [x], posted + [x]) && FateInv(n.(queue := n.queue + [x]), posted + [x], dropped)
  {
    var q', posted' := n.queue + [x], posted + [x];
    assert NoCalls(n.calls, |posted|);
    forall k: nat | k < |posted'| ensures Fate(posted'[k], posted'[k] in q', n.calls, k in dropped) {
      if k < |posted| {
        assert Fate(posted[k], posted[k] in n.queue, n.calls, k in dropped);
      }
    }
  }

  lemma PosterKeepsFate(n: State, posted: seq<Entry>, dropped: set<nat>, id: nat)
    requires QueueInv(n.queue, posted) && FateInv(n, posted, dropped)
    ensures FateInv(n.(calls := n.calls + PosterCalls(posted, id)), posted, dropped)
  {
    var calls' := n.calls + PosterCalls(posted, id);
    forall k: nat ensures Count(calls', CallsOf(k)) == Count(n.calls, CallsOf(k))
      && Count(calls', HandsOf(k)) == Count(n.calls, HandsOf(k))
      && Count(calls', ReleasesOf(k)) == Count(n.calls, ReleasesOf(k))
    {
      CountPoster(n.calls, posted, id, CallsOf(k));
      CountPoster(n.calls, posted, id, HandsOf(k));
      CountPoster(n.calls, posted, id, ReleasesOf(k));
    }
    forall k: nat | k < |posted| ensures Fate(posted[k], posted[k] in n.queue, calls', k in dropped) {
      assert Fate(posted[k], posted[k] in n.queue, n.calls, k in dropped);
    }
    forall k: nat | |posted| <= k ensures NoCalls(calls', k) {
      assert NoCalls(n.calls, k);
    }
  }

  ghost predicate EntriesInv(h: History) {
    QueueInv(h.n.queue, h.posted) && FateInv(h.n, h.posted, h.dropped)
  }

  /** The invariant reads the queue, the calls and the histories, nothing else. */
  lemma SameEntries(h: History, n: State, h': History)
    requires QueueInv(n.queue, h.posted) && FateInv(n, h.posted, h'.dropped)
    requires h'.n.queue == n.queue && h'.n.calls == n.calls && h'.posted == h.posted
    ensures EntriesInv(h')
  {}

  lemma WorkKeepsEntries(h: History, env: Env)
    requires EntriesInv(h)
    ensures EntriesInv(Worked(h, env))
  {
    var h', n := Worked(h, env), h.n;
    if h.n.cmds != [] {
      match h.n.cmds[0]
      case DoNextJob =>
        if RunsJob(h.n) {
          JobKeepsFate(h.n, h.posted, h.dropped, env);
          n := n.(queue := n.queue[1..], calls := n.calls + JobCalls(n.queue[0], n.snap, env));
        }
      case Start =>
      case Stop =>
        FlushKeepsFate(h.n, h.posted, h.dropped, MatchSnapshot);
        n := Flushed(n, MatchSnapshot);
      case Exit =>
        FlushKeepsFate(h.n, h.posted, h.dropped, MatchAll);
        n := Flushed(n, MatchAll);
    }
    SameEntries(h, n, h');
  }

  lemma {:induction false} RunKeepsEntries(es: seq<Event>)
    ensures EntriesInv(Run(es))
  {
    if es != [] {
      var h, e := Run(es[..|es| - 1]), es[|es| - 1];
      RunKeepsEntries(es[..|es| - 1]);
      match e
      case Post(kind, msg, rel, hasMemory) =>
        PostKeepsFate(h.n, h.posted, h.dropped, Entry(|h.posted|, kind, msg, rel));
      case FinishPost(id, how) => PosterKeepsFate(h.n, h.posted, h.dropped, id);
      case Flush(m) => FlushKeepsFate(h.n, h.posted, h.dropped, m);
      case Work(env) => WorkKeepsEntries(h, env);
      case _ =>
    }
  }
}
