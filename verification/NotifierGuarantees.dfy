/** What holds of every run of the callback notifier. */
module NotifierGuarantees {
  import opened Arithmetic
  import opened CbNotifier
  import opened NotifierRuns

  // ---------------------------------------------------------------- delivered, flushed or pending

  /** An entry still in the queue has had no call. One that left it was delivered at most once, and
      unless it is a snapshot its release function ran exactly once; a snapshot's ran once, or it
      was handed to the muxer, or neither, and neither exactly when it was dropped. */
  lemma EveryEntryAccountedFor(es: seq<Event>, id: nat)
    requires id < |Run(es).posted|
    ensures var h := Run(es);
      var e := h.posted[id];
      var c, d, r := Count(h.n.calls, CallsOf(id)), Count(h.n.calls, HandsOf(id)), Count(h.n.calls, ReleasesOf(id));
      && e.id == id
      && (e in h.n.queue ==> c == d == r == 0)
      && (e !in h.n.queue ==> c + d <= 1)
      && (e !in h.n.queue && e.kind != Snapshot ==> d == 0 && r == if e.hasRelease then 1 else 0)
      && (e !in h.n.queue && e.kind == Snapshot && e.hasRelease ==> r + d <= 1 && (r + d == 0 <==> id in h.dropped))
  {
    RunKeepsEntries(es);
    var h := Run(es);
    assert Fate(h.posted[id], h.posted[id] in h.n.queue, h.n.calls, id in h.dropped);
  }

  /** The queue keeps the posting order. */
  lemma QueueInPostingOrder(es: seq<Event>, i: nat, j: nat)
    requires i < j < |Run(es).n.queue|
    ensures var h := Run(es);
      && h.n.queue[i].id < h.n.queue[j].id < |h.posted|
      && h.posted[h.n.queue[i].id] == h.n.queue[i]
  {
    RunKeepsEntries(es);
  }

  // ---------------------------------------------------------------- no entry without a command

  function Jobs(cmds: seq<Cmd>): nat {
    if cmds == [] then 0 else (if cmds[0] == DoNextJob then 1 else 0) + Jobs(cmds[1..])
  }

  lemma {:induction false} JobsSnoc(cmds: seq<Cmd>)
    ensures Jobs(cmds + [DoNextJob]) == Jobs(cmds) + 1
  {
    if cmds == [] {
      assert ([] + [DoNextJob])[1..] == [];
    } else {
      JobsSnoc(cmds[1..]);
      assert (cmds + [DoNextJob])[1..] == cmds[1..] + [DoNextJob];
    }
  }

  lemma JobsCons(c: Cmd, cmds: seq<Cmd>)
    ensures Jobs([c] + cmds) == (if c == DoNextJob then 1 else 0) + Jobs(cmds)
  {
    assert ([c] + cmds)[1..] == cmds;
  }

  ghost predicate CommandInv(queue: seq<Entry>, cmds: seq<Cmd>, queueActive: bool,
                             sending: set<nat>, lost: nat, posts: nat) {
    && (queueActive ==> |queue| <= Jobs(cmds) + |sending| + lost)
    && (!queueActive ==> queue == [])
    && forall id :: id in sending ==> id < posts
  }

  ghost predicate Commanded(h: History) {
    CommandInv(h.n.queue, h.n.cmds, h.n.queueActive, h.sending, h.lost, |h.posted|)
  }

  lemma {:induction false} KeptNoLonger(q: seq<Entry>, m: Match)
    ensures |Kept(q, m)| <= |q| && (m == MatchAll ==> Kept(q, m) == [])
  {
    if q != [] { KeptNoLonger(q[..|q| - 1], m); }
  }

  lemma RoundKeepsCommanded(h: History, env: Env)
    requires Commanded(h)
    ensures Commanded(Worked(h, env))
  {
    var n := AfterRound(h.n, env);
    KeptNoLonger(h.n.queue, MatchSnapshot);
    KeptNoLonger(h.n.queue, MatchAll);
    assert CommandInv(n.queue, n.cmds, n.queueActive, h.sending, h.lost, |h.posted|);
  }

  lemma StepKeepsCommanded(h: History, e: Event)
    requires Commanded(h)
    ensures Commanded(Apply(h, e))
  {
    match e
    case Post(kind, msg, rel, hasMemory) => assert |h.sending + {|h.posted|}| == |h.sending| + 1;
    case FinishPost(id, how) =>
      JobsSnoc(h.n.cmds);
      if id in h.sending { assert |h.sending - {id}| == |h.sending| - 1; }
    case Flush(m) => KeptNoLonger(h.n.queue, m);
    case StartSnapshots => JobsCons(Start, h.n.cmds);
    case StopSnapshots => JobsCons(Stop, h.n.cmds);
    case Quit => JobsCons(Exit, h.n.cmds);
    case Work(env) => RoundKeepsCommanded(h, env);
  }

  lemma {:induction false} RunCommanded(es: seq<Event>)
    ensures Commanded(Run(es))
  {
    if es != [] {
      RunCommanded(es[..|es| - 1]);
      StepKeepsCommanded(Run(es[..|es| - 1]), es[|es| - 1]);
    }
  }

  /** Entries never outnumber the job commands queued, being sent or lost. So when no command was
      lost and none is on its way, a queue without job commands means nothing is pending. */
  lemma NothingForgotten(es: seq<Event>)
    ensures var h := Run(es);
      && (h.n.queueActive ==> |h.n.queue| <= Jobs(h.n.cmds) + |h.sending| + h.lost)
      && (h.lost == 0 && h.sending == {} && Jobs(h.n.cmds) == 0 ==> h.n.queue == [])
  {
    RunCommanded(es);
  }

  // ---------------------------------------------------------------- released by both sides

  /** How the command of post `id` was sent, once it has been. */
  datatype Outcome = Unsent | Ended(how: Sending)

  function OutcomeOf(es: seq<Event>, id: nat): Outcome {
    if es == [] then Unsent
    else
      var before, e := es[..|es| - 1], es[|es| - 1];
      if OutcomeOf(before, id).Ended? then OutcomeOf(before, id)
      else if e.FinishPost? && e.id == id && id in Run(before).sending then Ended(e.how)
      else Unsent
  }

  lemma FinishedStays(h: History, e: Event, id: nat)
    requires id < |h.posted| && id !in h.sending
    ensures id < |Apply(h, e).posted| && id !in Apply(h, e).sending
  {}

  lemma Finishes(h: History, id: nat, how: Sending)
    ensures Apply(h, FinishPost(id, how)).posted == h.posted && id !in Apply(h, FinishPost(id, how)).sending
  {}

  lemma {:induction false} EndedIsPosted(es: seq<Event>, id: nat)
    requires OutcomeOf(es, id).Ended?
    ensures id < |Run(es).posted| && id !in Run(es).sending
  {
    var before, e := es[..|es| - 1], es[|es| - 1];
    if OutcomeOf(before, id).Ended? {
      EndedIsPosted(before, id);
      FinishedStays(Run(before), e, id);
    } else {
      RunCommanded(before);
      Finishes(Run(before), id, e.how);
    }
  }

  lemma PostedStay(h: History, e: Event)
    ensures h.posted <= Apply(h, e).posted
  {}

  /** How many poster's releases of `id` there should be. */
  function PosterDue(es: seq<Event>, id: nat): nat {
    var posted := Run(es).posted;
    if OutcomeOf(es, id) == Ended(Failed) && id < |posted| && posted[id].hasRelease then 1 else 0
  }

  lemma FlushAddsNoPoster(n: State, m: Match, id: nat)
    ensures Count(Flushed(n, m).calls, PosterReleasesOf(id)) == Count(n.calls, PosterReleasesOf(id))
  {
    FlushOnlyReleases(n.queue, m, PosterReleasesOf(id));
    CountAppend(n.calls, FlushCalls(n.queue, m), PosterReleasesOf(id));
  }

  lemma JobAddsNoPoster(calls: seq<Call>, e: Entry, snap: Snap, env: Env, id: nat)
    ensures Count(calls + JobCalls(e, snap, env), PosterReleasesOf(id)) == Count(calls, PosterReleasesOf(id))
  {
    JobCounts(e, snap, env, PosterReleasesOf(id));
    CountAppend(calls, JobCalls(e, snap, env), PosterReleasesOf(id));
  }

  lemma CmdAddsNoPoster(n: State, cmd: Cmd, env: Env, id: nat)
    ensures Count(AfterCmd(n, cmd, env).calls, PosterReleasesOf(id)) == Count(n.calls, PosterReleasesOf(id))
  {
    match cmd
    case Start =>
    case Stop => FlushAddsNoPoster(n, MatchSnapshot, id);
    case Exit => FlushAddsNoPoster(n, MatchAll, id);
    case DoNextJob => if n.queueActive && n.queue != [] { JobAddsNoPoster(n.calls, n.queue[0], n.snap, env, id); }
  }

  lemma RoundAddsNoPoster(h: History, env: Env, id: nat)
    ensures Count(Worked(h, env).n.calls, PosterReleasesOf(id)) == Count(h.n.calls, PosterReleasesOf(id))
  {
    assert Worked(h, env).n == AfterRound(h.n, env);
    if h.n.cmds != [] {
      CmdAddsNoPoster(h.n.(cmds := h.n.cmds[1..]), h.n.cmds[0], env, id);
    }
  }

  lemma StepPosterCount(h: History, e: Event, id: nat)
    ensures Count(Apply(h, e).n.calls, PosterReleasesOf(id))
         == Count(h.n.calls, PosterReleasesOf(id))
            + if e == FinishPost(id, Failed) && id in h.sending && PosterCalls(h.posted, id) != [] then 1 else 0
  {
    match e
    case FinishPost(k, how) => CountPoster(h.n.calls, h.posted, k, PosterReleasesOf(id));
    case Flush(m) => FlushAddsNoPoster(h.n, m, id);
    case Work(env) => RoundAddsNoPoster(h, env, id);
    case _ =>
  }

  lemma {:induction false} PosterCount(es: seq<Event>, id: nat)
    ensures Count(Run(es).n.calls, PosterReleasesOf(id)) == PosterDue(es, id)
  {
    if es != [] {
      var before, e := es[..|es| - 1], es[|es| - 1];
      PosterCount(before, id);
      StepPosterCount(Run(before), e, id);
      PostedStay(Run(before), e);
      RunCommanded(before);
      if OutcomeOf(before, id).Ended? { EndedIsPosted(before, id); }
    }
  }

  /** Data whose entry has left the queue was given up once by the notifier, unless it was a dropped
      snapshot, and once more by its poster if the post's command found no memory. So data that is
      not a snapshot's is released exactly once if and only if the command could be sent. */
  lemma ReleasedOnceIffCommandSent(es: seq<Event>, id: nat)
    requires var h := Run(es); id < |h.posted| && h.posted[id] !in h.n.queue && h.posted[id].hasRelease
    ensures var h := Run(es);
      var total := Count(h.n.calls, HandsOf(id)) + Count(h.n.calls, ReleasesOf(id))
                   + Count(h.n.calls, PosterReleasesOf(id));
      && total == (if id in h.dropped then 0 else 1) + (if OutcomeOf(es, id) == Ended(Failed) then 1 else 0)
      && (h.posted[id].kind != Snapshot ==> (total == 1 <==> OutcomeOf(es, id) != Ended(Failed)))
  {
    RunKeepsEntries(es);
    PosterCount(es, id);
    var h := Run(es);
    assert Fate(h.posted[id], h.posted[id] in h.n.queue, h.n.calls, id in h.dropped);
  }

  lemma RunSnoc(es: seq<Event>, e: Event)
    ensures Run(es + [e]) == Apply(Run(es), e)
  {
    assert (es + [e])[..|es + [e]| - 1] == es;
  }

  lemma RunFour(es: seq<Event>, a: Event, b: Event, c: Event, d: Event)
    ensures Run(es + [a] + [b] + [c] + [d]) == Apply(Apply(Apply(Apply(Run(es), a), b), c), d)
  {
    RunSnoc(es, a);
    RunSnoc(es + [a], b);
    RunSnoc(es + [a] + [b], c);
    RunSnoc(es + [a] + [b] + [c], d);
  }

  lemma PostStep(h: History, e: Entry)
    requires h.n.active && h.n.queueActive && e.id == |h.posted|
    ensures var t := Apply(h, Post(e.kind, e.msg, e.hasRelease, true));
      t.n == h.n.(queue := h.n.queue + [e]) && t.posted == h.posted + [e] && e.id in t.sending
  {}

  lemma FailStep(h: History, id: nat)
    requires id in h.sending && id < |h.posted| && h.posted[id].hasRelease
    ensures var t := Apply(h, FinishPost(id, Failed));
      t.n == h.n.(calls := h.n.calls + [PosterReleased(id)]) && t.posted == h.posted
  {}

  lemma SendStep(h: History, id: nat)
    requires id in h.sending
    ensures Apply(h, FinishPost(id, Sent)).n == h.n.(cmds := h.n.cmds + [DoNextJob])
  {}

  /** Two posts, the first without memory for its command. */
  lemma TwoPosts(e: Entry, f: Entry) returns (es: seq<Event>)
    requires e == Entry(0, Data, PreviewFrame, true) && f == Entry(1, Data, PreviewFrame, true)
    ensures Run(es).n == State(true, true, true, [e, f], [DoNextJob], Snap(false, false, 0, 0), [PosterReleased(0)])
  {
    var post := Post(Data, PreviewFrame, true, true);
    es := [] + [post] + [FinishPost(0, Failed)] + [post] + [FinishPost(1, Sent)];
    RunFour([], post, FinishPost(0, Failed), post, FinishPost(1, Sent));
    var h := Apply(INIT, post);
    PostStep(INIT, e);
    assert h.posted == [e] && h.n.queue == [e];
    var t := Apply(h, FinishPost(0, Failed));
    FailStep(h, 0);
    PostStep(t, f);
    assert [e] + [f] == [e, f];
    SendStep(Apply(t, post), 1);
  }

  /** A run in which a preview frame is released by its poster and then delivered and released by
      the notifier: its command found no memory, the next post's command takes it out. */
  lemma ReleasedTwice() returns (es: seq<Event>)
    ensures Run(es).n.calls == [PosterReleased(0), Called(0), Released(0, NO_ERROR)]
  {
    var e, f := Entry(0, Data, PreviewFrame, true), Entry(1, Data, PreviewFrame, true);
    var env := Env(true, true, true, false, true, 0, false);
    es := TwoPosts(e, f);
    RunSnoc(es, Work(env));
    assert JobCalls(e, Run(es).n.snap, env) == [Called(0), Released(0, NO_ERROR)];
    es := es + [Work(env)];
  }

  // ---------------------------------------------------------------- snapshot done

  /** How often the event is due after `taken` snapshots: at the expected-th, and again every time
      the 32-bit counter comes round to it. */
  function DonesDue(expected: nat, taken: nat): nat {
    if expected == 0 || taken < expected then 0 else 1 + (taken - expected) / UINT32
  }

  lemma DueStep(expected: uint32, taken: nat)
    ensures DonesDue(expected, taken + 1)
         == DonesDue(expected, taken) + if expected > 0 && expected == (taken % UINT32 + 1) % UINT32 then 1 else 0
  {
    var q, r := taken / UINT32, taken % UINT32;
    assert taken == q * UINT32 + r;
    if expected > 0 && taken >= expected {
      if r >= expected {
        assert (taken - expected) / UINT32 == q;
      } else {
        assert (taken - expected) / UINT32 == q - 1;
      }
    }
  }

  ghost predicate SnapInv(snap: Snap, calls: seq<Call>, mark: nat, taken: nat) {
    && mark <= |calls|
    && Count(calls[mark..], Dones) == (if snap.active && !snap.longshot then DonesDue(snap.expected, taken) else 0)
    && (snap.active && !snap.longshot ==> snap.rcvd == taken % UINT32)
  }

  ghost predicate Snapped(h: History) {
    SnapInv(h.n.snap, h.n.calls, h.mark, h.taken)
  }

  lemma CallsSince(calls: seq<Call>, more: seq<Call>, mark: nat)
    requires mark <= |calls|
    ensures Count((calls + more)[mark..], Dones) == Count(calls[mark..], Dones) + Count(more, Dones)
  {
    assert (calls + more)[mark..] == calls[mark..] + more;
    CountAppend(calls[mark..], more, Dones);
  }

  lemma FreshMark(calls: seq<Call>)
    ensures Count(calls[|calls|..], Dones) == 0
  {}

  lemma FlushKeepsSnapped(n: State, m: Match, mark: nat, taken: nat)
    requires SnapInv(n.snap, n.calls, mark, taken)
    ensures SnapInv(Flushed(n, m).snap, Flushed(n, m).calls, mark, taken)
  {
    FlushOnlyReleases(n.queue, m, Dones);
    CallsSince(n.calls, FlushCalls(n.queue, m), mark);
  }

  lemma JobDones(e: Entry, snap: Snap, env: Env, calls: seq<Call>, mark: nat)
    requires mark <= |calls|
    ensures mark <= |calls + JobCalls(e, snap, env)|
    ensures Count((calls + JobCalls(e, snap, env))[mark..], Dones)
         == Count(calls[mark..], Dones) + if Completes(e, snap, env) then 1 else 0
  {
    JobCounts(e, snap, env, Dones);
    CallsSince(calls, JobCalls(e, snap, env), mark);
  }

  lemma NextCount(taken: nat)
    ensures (taken % UINT32 + 1) % UINT32 == (taken + 1) % UINT32
  {
    DivUnique(taken, UINT32, taken / UINT32, taken % UINT32);
  }

  lemma TakenSteps(e: Entry, snap: Snap, env: Env, taken: nat)
    requires TakesSnapshot(e, snap, env) && !snap.longshot && snap.rcvd == taken % UINT32
    ensures SnapAfter(e, snap, env).rcvd == (taken + 1) % UINT32
    ensures DonesDue(snap.expected, taken + 1)
         == DonesDue(snap.expected, taken) + if Completes(e, snap, env) then 1 else 0
  {
    DueStep(snap.expected, taken);
    NextCount(taken);
  }

  lemma JobKeepsSnapped(e: Entry, snap: Snap, env: Env, calls: seq<Call>, mark: nat, taken: nat)
    requires SnapInv(snap, calls, mark, taken)
    ensures SnapInv(SnapAfter(e, snap, env), calls + JobCalls(e, snap, env), mark,
                    taken + if TakesSnapshot(e, snap, env) then 1 else 0)
  {
    JobDones(e, snap, env, calls, mark);
    if TakesSnapshot(e, snap, env) && !snap.longshot {
      TakenSteps(e, snap, env, taken);
    }
  }

  lemma StopKeepsSnapped(h: History, env: Env)
    requires h.n.cmds != [] && (h.n.cmds[0] == Start || h.n.cmds[0] == Stop)
    ensures Snapped(Worked(h, env))
  {
    FreshMark(Worked(h, env).n.calls);
  }

  lemma NextJobFields(h: History, env: Env)
    requires RunsJob(h.n)
    ensures var e, t := h.n.queue[0], Worked(h, env);
      && t.n.snap == SnapAfter(e, h.n.snap, env) && t.n.calls == h.n.calls + JobCalls(e, h.n.snap, env)
      && t.n.queue == h.n.queue[1..] && t.posted == h.posted && t.mark == h.mark
      && t.taken == h.taken + if TakesSnapshot(e, h.n.snap, env) then 1 else 0
  {}

  lemma NextJobKeepsSnapped(h: History, env: Env)
    requires Snapped(h) && RunsJob(h.n)
    ensures Snapped(Worked(h, env))
  {
    var e, t := h.n.queue[0], Worked(h, env);
    JobKeepsSnapped(e, h.n.snap, env, h.n.calls, h.mark, h.taken);
    assert t.n.snap == SnapAfter(e, h.n.snap, env) && t.n.calls == h.n.calls + JobCalls(e, h.n.snap, env)
        && t.mark == h.mark && t.taken == h.taken + if TakesSnapshot(e, h.n.snap, env) then 1 else 0 by {
      NextJobFields(h, env);
    }
  }

  lemma RoundKeepsSnapped(h: History, env: Env)
    requires Snapped(h)
    ensures Snapped(Worked(h, env))
  {
    if h.n.cmds != [] {
      if h.n.cmds[0] == Start || h.n.cmds[0] == Stop {
        StopKeepsSnapped(h, env);
      } else if RunsJob(h.n) {
        NextJobKeepsSnapped(h, env);
      } else {
        FlushKeepsSnapped(h.n, MatchAll, h.mark, h.taken);
      }
    }
  }

  lemma PosterKeepsSnapped(h: History, id: nat)
    requires Snapped(h)
    ensures SnapInv(h.n.snap, h.n.calls + PosterCalls(h.posted, id), h.mark, h.taken)
  {
    CallsSince(h.n.calls, PosterCalls(h.posted, id), h.mark);
    CountPoster([], h.posted, id, Dones);
    assert [] + PosterCalls(h.posted, id) == PosterCalls(h.posted, id);
  }

  lemma {:induction false} RunSnapped(es: seq<Event>)
    ensures Snapped(Run(es))
  {
    if es != [] {
      var h, e := Run(es[..|es| - 1]), es[|es| - 1];
      RunSnapped(es[..|es| - 1]);
      match e
      case FinishPost(id, how) => PosterKeepsSnapped(h, id);
      case Flush(m) => FlushKeepsSnapped(h.n, m, h.mark, h.taken);
      case Work(env) => RoundKeepsSnapped(h, env);
      case _ =>
    }
  }

  /** Since the last START or STOP ran: with longshot off, the snapshot-done event was raised once
      the expected number of snapshots had been taken and not before, and at most once if and only
      if fewer than 2^32 more were taken; with longshot on, after a STOP, or when none was expected,
      never. */
  lemma SnapshotDoneOnce(es: seq<Event>)
    ensures var h := Run(es);
      var snap, dones := h.n.snap, if h.mark <= |h.n.calls| then Count(h.n.calls[h.mark..], Dones) else 0;
      && h.mark <= |h.n.calls|
      && (dones > 0 <==> snap.active && !snap.longshot && 0 < snap.expected <= h.taken)
      && (dones > 1 <==> snap.active && !snap.longshot && 0 < snap.expected <= h.taken - 0x1_0000_0000)
  {
    RunSnapped(es);
  }

  // ---------------------------------------------------------------- the order of deliveries

  /** The ids of the entries given to a callback or to the muxer, in order. */
  function Deliveries(cs: seq<Call>): seq<nat> {
    if cs == [] then []
    else
      var c := cs[|cs| - 1];
      Deliveries(cs[..|cs| - 1]) + if c.Called? || c.Handed? then [c.id] else []
  }

  lemma {:induction false} DeliveriesAppend(a: seq<Call>, b: seq<Call>)
    ensures Deliveries(a + b) == Deliveries(a) + Deliveries(b)
  {
    if b == [] {
      assert a + b == a;
    } else {
      DeliveriesAppend(a, b[..|b| - 1]);
      assert (a + b)[..|a + b| - 1] == a + b[..|b| - 1];
    }
  }

  lemma DeliveriesRelease(e: Entry, status: int)
    ensures Deliveries(ReleaseCall(e, status)) == []
  {
    assert Deliveries([Released(e.id, status)][..0]) == [];
  }

  lemma DeliveriesOne(c: Call)
    ensures Deliveries([c]) == if c.Called? || c.Handed? then [c.id] else []
  {
    assert Deliveries([c][..0]) == [];
  }

  lemma {:induction false} FlushDeliversNothing(q: seq<Entry>, m: Match)
    ensures Deliveries(FlushCalls(q, m)) == []
  {
    if q != [] {
      var init, last := q[..|q| - 1], q[|q| - 1];
      FlushDeliversNothing(init, m);
      DeliveriesAppend(FlushCalls(init, m), if Matches(m, last) then ReleaseCall(last, FAILED_TRANSACTION) else []);
      DeliveriesRelease(last, FAILED_TRANSACTION);
    }
  }

  lemma SnapshotDeliversOne(e: Entry, snap: Snap, env: Env)
    ensures Deliveries(SnapshotCalls(e, snap, env)) == [] || Deliveries(SnapshotCalls(e, snap, env)) == [e.id]
  {
    if TakesSnapshot(e, snap, env) {
      var done := if Completes(e, snap, env) then [SnapshotDone] else [];
      var last := if env.jpegCb then [Handed(e.id)] else [Called(e.id)] + ReleaseCall(e, NO_ERROR);
      DeliveriesAppend(done, last);
      DeliveriesAppend([Called(e.id)], ReleaseCall(e, NO_ERROR));
      DeliveriesOne(SnapshotDone);
      DeliveriesOne(Handed(e.id));
      DeliveriesOne(Called(e.id));
      DeliveriesRelease(e, NO_ERROR);
    }
  }

  lemma DeliverThenRelease(set_: bool, e: Entry, status: int)
    ensures Deliveries(Deliver(set_, e) + ReleaseCall(e, status)) == if set_ then [e.id] else []
  {
    DeliveriesAppend(Deliver(set_, e), ReleaseCall(e, status));
    DeliveriesOne(Called(e.id));
    DeliveriesRelease(e, status);
  }

  /** A call sequence that delivers nothing, or just this entry. */
  predicate AtMost(ids: seq<nat>, id: nat) {
    ids == [] || ids == [id]
  }

  lemma PlainDeliversOne(e: Entry, snap: Snap, env: Env)
    requires env.enabled && (e.kind == Notify || e.kind == Data || e.kind == Timestamp)
    ensures AtMost(Deliveries(JobCalls(e, snap, env)), e.id)
  {
    var set_ := match e.kind case Notify => env.notifyCb case Data => env.dataCb case _ => env.timestampCb;
    DeliverThenRelease(set_, e, NO_ERROR);
  }

  lemma JobDeliversOne(e: Entry, snap: Snap, env: Env)
    ensures AtMost(Deliveries(JobCalls(e, snap, env)), e.id)
  {
    if !env.enabled {
      DeliveriesRelease(e, INVALID_OPERATION);
    } else if e.kind == Snapshot {
      SnapshotDeliversOne(e, snap, env);
    } else if e.kind == Unknown {
      DeliveriesRelease(e, BAD_VALUE);
    } else {
      PlainDeliversOne(e, snap, env);
    }
  }

  ghost predicate Ascending(ids: seq<nat>) {
    forall i, j :: 0 <= i < j < |ids| ==> ids[i] < ids[j]
  }

  /** What was delivered ascends, and precedes all that is pending. */
  ghost predicate OrderInv(done: seq<nat>, queue: seq<Entry>, posts: nat) {
    && Ascending(done)
    && (forall i :: 0 <= i < |done| ==> done[i] < posts)
    && (forall i, k :: 0 <= i < |done| && 0 <= k < |queue| ==> done[i] < queue[k].id)
  }

  ghost predicate Ordered(h: History) {
    OrderInv(Deliveries(h.n.calls), h.n.queue, |h.posted|)
  }

  lemma FlushKeepsOrder(n: State, m: Match, posts: nat)
    requires OrderInv(Deliveries(n.calls), n.queue, posts)
    ensures OrderInv(Deliveries(Flushed(n, m).calls), Flushed(n, m).queue, posts)
  {
    FlushDeliversNothing(n.queue, m);
    DeliveriesAppend(n.calls, FlushCalls(n.queue, m));
    forall k | 0 <= k < |Kept(n.queue, m)| ensures Kept(n.queue, m)[k] in n.queue {
      KeptMembers(n.queue, m, Kept(n.queue, m)[k]);
    }
  }

  lemma PostKeepsOrder(done: seq<nat>, queue: seq<Entry>, x: Entry)
    requires OrderInv(done, queue, x.id)
    ensures OrderInv(done, queue + [x], x.id + 1)
  {
    forall i, k | 0 <= i < |done| && 0 <= k < |queue + [x]| ensures done[i] < (queue + [x])[k].id {
      if k < |queue| { assert done[i] < queue[k].id; }
    }
  }

  lemma DequeueKeepsOrder(done: seq<nat>, more: seq<nat>, queue: seq<Entry>, posts: nat)
    requires OrderInv(done, queue, posts) && Increasing(queue) && queue != [] && queue[0].id < posts
    requires more == [] || more == [queue[0].id]
    ensures OrderInv(done + more, queue[1..], posts)
  {
    var all, rest := done + more, queue[1..];
    forall i, k | 0 <= i < |all| && 0 <= k < |rest| ensures all[i] < rest[k].id {
      assert rest[k] == queue[k + 1];
    }
  }

  lemma JobKeepsOrder(queue: seq<Entry>, calls: seq<Call>, snap: Snap, env: Env, posts: nat)
    requires OrderInv(Deliveries(calls), queue, posts) && Increasing(queue) && queue != [] && queue[0].id < posts
    ensures OrderInv(Deliveries(calls + JobCalls(queue[0], snap, env)), queue[1..], posts)
  {
    JobDeliversOne(queue[0], snap, env);
    DeliveriesAppend(calls, JobCalls(queue[0], snap, env));
    DequeueKeepsOrder(Deliveries(calls), Deliveries(JobCalls(queue[0], snap, env)), queue, posts);
  }

  lemma NextJobKeepsOrder(h: History, env: Env)
    requires Ordered(h) && QueueInv(h.n.queue, h.posted) && RunsJob(h.n)
    ensures Ordered(Worked(h, env))
  {
    NextJobFields(h, env);
    JobKeepsOrder(h.n.queue, h.n.calls, h.n.snap, env, |h.posted|);
  }

  lemma RoundKeepsOrder(h: History, env: Env)
    requires Ordered(h) && QueueInv(h.n.queue, h.posted)
    ensures Ordered(Worked(h, env))
  {
    if h.n.cmds != [] {
      match h.n.cmds[0]
      case DoNextJob => if RunsJob(h.n) { NextJobKeepsOrder(h, env); }
      case Start =>
      case Stop => FlushKeepsOrder(h.n, MatchSnapshot, |h.posted|);
      case Exit => FlushKeepsOrder(h.n, MatchAll, |h.posted|);
    }
  }

  lemma FinishKeepsOrder(h: History, id: nat, how: Sending)
    requires Ordered(h)
    ensures Ordered(Apply(h, FinishPost(id, how)))
  {
    DeliveriesAppend(h.n.calls, PosterCalls(h.posted, id));
    DeliveriesOne(PosterReleased(id));
  }

  lemma SameOrder(h: History, h': History)
    requires Ordered(h) && h'.n.calls == h.n.calls && h'.n.queue == h.n.queue && |h'.posted| == |h.posted|
    ensures Ordered(h')
  {}

  lemma StepKeepsOrder(h: History, e: Event)
    requires Ordered(h) && QueueInv(h.n.queue, h.posted)
    ensures Ordered(Apply(h, e))
  {
    match e
    case Post(kind, msg, rel, hasMemory) =>
      PostKeepsOrder(Deliveries(h.n.calls), h.n.queue, Entry(|h.posted|, kind, msg, rel));
    case FinishPost(id, how) => FinishKeepsOrder(h, id, how);
    case Flush(m) => FlushKeepsOrder(h.n, m, |h.posted|);
    case Work(env) => RoundKeepsOrder(h, env);
    case _ => SameOrder(h, Apply(h, e));
  }

  lemma {:induction false} RunOrdered(es: seq<Event>)
    ensures Ordered(Run(es))
  {
    if es != [] {
      RunOrdered(es[..|es| - 1]);
      RunKeepsEntries(es[..|es| - 1]);
      StepKeepsOrder(Run(es[..|es| - 1]), es[|es| - 1]);
    }
  }

  /** Callbacks reach the application in the order they were posted. */
  lemma DeliveredInPostingOrder(es: seq<Event>, i: nat, j: nat)
    requires i < j < |Deliveries(Run(es).n.calls)|
    ensures var ids := Deliveries(Run(es).n.calls); ids[i] < ids[j] < |Run(es).posted|
  {
    RunOrdered(es);
  }

  // ---------------------------------------------------------------- control commands overtake

  lemma WorkFront(h: History, c: Cmd, cmds: seq<Cmd>, env: Env)
    requires h.n.running && h.n.cmds == [c] + cmds && (c == Start || c == Stop)
    ensures var t := Apply(h, Work(env)).n;
      && t.running && t.cmds == cmds
      && t.snap == if c == Start then Snap(true, env.longshot, env.expected, 0)
                   else Snap(false, h.n.snap.longshot, 0, 0)
  {
    assert ([c] + cmds)[1..] == cmds;
  }

  /** Commands with priority are run last in, first out: a START and then a STOP, sent before the
      thread runs either, leave snapshots on; sent with a round in between they leave them off. */
  lemma StopBeforeStart(es: seq<Event>, a: Env, b: Env)
    requires Run(es).n.running
    ensures Run(es + [StartSnapshots] + [StopSnapshots] + [Work(a)] + [Work(b)]).n.snap
         == Snap(true, b.longshot, b.expected, 0)
    ensures Run(es + [StartSnapshots] + [Work(a)] + [StopSnapshots] + [Work(b)]).n.snap == Snap(false, a.longshot, 0, 0)
  {
    RunFour(es, StartSnapshots, StopSnapshots, Work(a), Work(b));
    RunFour(es, StartSnapshots, Work(a), StopSnapshots, Work(b));
    var started := Apply(Run(es), StartSnapshots);
    var both := Apply(started, StopSnapshots);
    WorkFront(both, Stop, started.n.cmds, a);
    WorkFront(Apply(both, Work(a)), Start, Run(es).n.cmds, b);
    WorkFront(started, Start, Run(es).n.cmds, a);
    WorkFront(Apply(Apply(started, Work(a)), StopSnapshots), Stop, Run(es).n.cmds, b);
  }
}
