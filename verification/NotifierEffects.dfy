/** What single events do to the entries of the callback notifier, over every run: which entries a
    flush takes out, whose data it releases, and in which order and with which status one entry's
    calls are made. */
module NotifierEffects {
  import opened CbNotifier
  import opened NotifierRuns

  // ---------------------------------------------------------------- what a flush takes out

  /** The calls made since are releases with the status of a flush. */
  ghost predicate OnlyFlushed(before: seq<Call>, after: seq<Call>) {
    && |before| <= |after| && after[..|before|] == before
    && forall k :: |before| <= k < |after| ==> after[k].Released? && after[k].status == -2147483646
  }

  /** From `before` to `after` exactly the entries of the set `gone` left the queue, each released
      once if it carries a release function, with no other call made. */
  ghost predicate TookOut(before: State, after: State, gone: Entry -> bool) {
    && (forall e :: e in after.queue <==> e in before.queue && !gone(e))
    && (forall e :: e in before.queue ==>
          Count(after.calls, ReleasesOf(e.id))
          == Count(before.calls, ReleasesOf(e.id)) + if gone(e) && e.hasRelease then 1 else 0)
    && (forall id: nat :: (forall e :: e in before.queue ==> e.id != id) ==>
          Count(after.calls, ReleasesOf(id)) == Count(before.calls, ReleasesOf(id)))
    && OnlyFlushed(before.calls, after.calls)
  }

  lemma {:induction false} FlushStatus(q: seq<Entry>, m: Match)
    ensures forall k :: 0 <= k < |FlushCalls(q, m)| ==>
      FlushCalls(q, m)[k].Released? && FlushCalls(q, m)[k].status == -2147483646
  {
    if q != [] {
      FlushStatus(q[..|q| - 1], m);
    }
  }

  lemma FlushReleasesOne(n: State, m: Match, e: Entry)
    requires Increasing(n.queue) && n.queueActive && e in n.queue
    ensures Count(Flushed(n, m).calls, ReleasesOf(e.id))
         == Count(n.calls, ReleasesOf(e.id)) + if Matches(m, e) && e.hasRelease then 1 else 0
  {
    var i :| 0 <= i < |n.queue| && n.queue[i] == e;
    FlushReleases(n.queue, m, i);
    CountAppend(n.calls, FlushCalls(n.queue, m), ReleasesOf(e.id));
  }

  lemma FlushReleasesNoOther(n: State, m: Match, id: nat)
    requires n.queueActive && forall e :: e in n.queue ==> e.id != id
    ensures Count(Flushed(n, m).calls, ReleasesOf(id)) == Count(n.calls, ReleasesOf(id))
  {
    FlushOnlyReleases(n.queue, m, ReleasesOf(id));
    CountAppend(n.calls, FlushCalls(n.queue, m), ReleasesOf(id));
  }

  lemma FlushTakesOut(n: State, m: Match, gone: Entry -> bool)
    requires Increasing(n.queue) && n.queueActive && forall e :: gone(e) <==> Matches(m, e)
    ensures TookOut(n, Flushed(n, m), gone)
  {
    forall e ensures e in Kept(n.queue, m) <==> e in n.queue && !gone(e) {
      KeptMembers(n.queue, m, e);
    }
    forall e | e in n.queue
      ensures Count(Flushed(n, m).calls, ReleasesOf(e.id))
           == Count(n.calls, ReleasesOf(e.id)) + if gone(e) && e.hasRelease then 1 else 0
    {
      FlushReleasesOne(n, m, e);
    }
    forall id: nat | forall e :: e in n.queue ==> e.id != id
      ensures Count(Flushed(n, m).calls, ReleasesOf(id)) == Count(n.calls, ReleasesOf(id))
    {
      FlushReleasesNoOther(n, m, id);
    }
    FlushStatus(n.queue, m);
  }

  /** A preview flush takes out the data callbacks for preview frames and nothing else. */
  lemma PreviewFlush(es: seq<Event>)
    requires Run(es).n.active && Run(es).n.queueActive
    ensures TookOut(Run(es).n, Run(es + [Flush(MatchPreview)]).n, (e: Entry) => e.kind == Data && e.msg == PreviewFrame)
  {
    RunKeepsEntries(es);
    assert (es + [Flush(MatchPreview)])[..|es|] == es;
    FlushTakesOut(Run(es).n, MatchPreview, (e: Entry) => e.kind == Data && e.msg == PreviewFrame);
  }

  /** A video flush takes out the timestamp callbacks for video frames and nothing else. */
  lemma VideoFlush(es: seq<Event>)
    requires Run(es).n.active && Run(es).n.queueActive
    ensures TookOut(Run(es).n, Run(es + [Flush(MatchVideo)]).n,
                    (e: Entry) => e.kind == Timestamp && e.msg == VideoFrame)
  {
    RunKeepsEntries(es);
    assert (es + [Flush(MatchVideo)])[..|es|] == es;
    FlushTakesOut(Run(es).n, MatchVideo, (e: Entry) => e.kind == Timestamp && e.msg == VideoFrame);
  }

  lemma TookOutSame(n: State, n': State, after: State, after': State, gone: Entry -> bool)
    requires TookOut(n, after, gone) && n'.queue == n.queue && n'.calls == n.calls
    requires after'.queue == after.queue && after'.calls == after.calls
    ensures TookOut(n', after', gone)
  {}

  lemma WorkIs(es: seq<Event>, env: Env)
    requires Run(es).n.running && Run(es).n.cmds != []
    ensures var n := Run(es).n;
      Run(es + [Work(env)]).n == AfterCmd(n.(cmds := n.cmds[1..]), n.cmds[0], env)
  {
    assert (es + [Work(env)])[..|es|] == es;
  }

  /** A round that runs STOP takes out the snapshots and nothing else. */
  lemma StopFlush(es: seq<Event>, env: Env)
    requires var n := Run(es).n; n.running && n.queueActive && n.cmds != [] && n.cmds[0] == Stop
    ensures TookOut(Run(es).n, Run(es + [Work(env)]).n, (e: Entry) => e.kind == Snapshot)
  {
    var n := Run(es).n;
    var n' := n.(cmds := n.cmds[1..]);
    RunKeepsEntries(es);
    WorkIs(es, env);
    FlushTakesOut(n', MatchSnapshot, (e: Entry) => e.kind == Snapshot);
    TookOutSame(n', n, Flushed(n', MatchSnapshot), Run(es + [Work(env)]).n, (e: Entry) => e.kind == Snapshot);
  }

  lemma {:induction false} NoneKept(q: seq<Entry>)
    ensures Kept(q, MatchAll) == []
  {
    if q != [] {
      NoneKept(q[..|q| - 1]);
    }
  }

  /** A round that runs EXIT takes out everything and ends the thread and the queue. */
  lemma ExitFlush(es: seq<Event>, env: Env)
    requires var n := Run(es).n; n.running && n.queueActive && n.cmds != [] && n.cmds[0] == Exit
    ensures TookOut(Run(es).n, Run(es + [Work(env)]).n, (e: Entry) => true)
    ensures var n := Run(es + [Work(env)]).n; n.queue == [] && !n.running && !n.queueActive
  {
    var n := Run(es).n;
    var n' := n.(cmds := n.cmds[1..]);
    RunKeepsEntries(es);
    WorkIs(es, env);
    FlushTakesOut(n', MatchAll, (e: Entry) => true);
    TookOutSame(n', n, Flushed(n', MatchAll), Run(es + [Work(env)]).n, (e: Entry) => true);
    NoneKept(n.queue);
  }

  // ---------------------------------------------------------------- order and status of an entry's calls

  /** The calls of one job are about its entry, a release coming last, with a status that says
      whether the message was disabled or the entry of no known kind. */
  lemma JobCallsAre(e: Entry, snap: Snap, env: Env, k: nat)
    requires k < |JobCalls(e, snap, env)|
    ensures var calls := JobCalls(e, snap, env);
      match calls[k]
      case Called(id) => id == e.id && forall j :: 0 <= j < k ==> !calls[j].Released?
      case Handed(id) => id == e.id && forall j :: 0 <= j < |calls| ==> !calls[j].Released?
      case Released(id, status) =>
        id == e.id && k == |calls| - 1 && status == if !env.enabled then -38 else if e.kind == Unknown then -22 else 0
      case SnapshotDone => k == 0
      case PosterReleased(_) => false
  {}

  predicate Uses(c: Call, id: nat) {
    c == Called(id) || c == Handed(id)
  }

  /** No data is used after the notifier released it. */
  ghost predicate NoUseAfterRelease(calls: seq<Call>) {
    forall i, j :: 0 <= i < |calls| && 0 <= j < |calls| && calls[i].Released? && Uses(calls[j], calls[i].id) ==> j < i
  }

  lemma {:induction false} NoneCounted(calls: seq<Call>, t: Tally, k: nat)
    requires Count(calls, t) == 0 && k < |calls|
    ensures !Counts(t, calls[k])
  {
    if k < |calls| - 1 {
      NoneCounted(calls[..|calls| - 1], t, k);
    }
  }

  lemma JobKeepsUse(calls: seq<Call>, e: Entry, snap: Snap, env: Env)
    requires NoUseAfterRelease(calls) && NoCalls(calls, e.id)
    ensures NoUseAfterRelease(calls + JobCalls(e, snap, env))
  {
    var job := JobCalls(e, snap, env);
    var all := calls + job;
    forall i, j | 0 <= i < |all| && 0 <= j < |all| && all[i].Released? && Uses(all[j], all[i].id) ensures j < i {
      if i >= |calls| { JobCallsAre(e, snap, env, i - |calls|); }
      if j >= |calls| { JobCallsAre(e, snap, env, j - |calls|); }
      if i < |calls| <= j { NoneCounted(calls, ReleasesOf(e.id), i); }
    }
  }

  lemma PostersKeepUse(calls: seq<Call>, more: seq<Call>)
    requires NoUseAfterRelease(calls) && forall k :: 0 <= k < |more| ==> more[k].PosterReleased?
    ensures NoUseAfterRelease(calls + more)
  {}

  lemma FlushKeepsUse(calls: seq<Call>, more: seq<Call>)
    requires NoUseAfterRelease(calls) && forall k :: 0 <= k < |more| ==> more[k].Released?
    ensures NoUseAfterRelease(calls + more)
  {}

  lemma FlushedKeepsUse(n: State, m: Match)
    requires NoUseAfterRelease(n.calls)
    ensures NoUseAfterRelease(Flushed(n, m).calls)
  {
    FlushStatus(n.queue, m);
    FlushKeepsUse(n.calls, FlushCalls(n.queue, m));
  }

  lemma RoundKeepsUse(h: History, env: Env)
    requires EntriesInv(h) && NoUseAfterRelease(h.n.calls) && h.n.cmds != []
    ensures NoUseAfterRelease(AfterCmd(h.n.(cmds := h.n.cmds[1..]), h.n.cmds[0], env).calls)
  {
    var n := h.n.(cmds := h.n.cmds[1..]);
    match h.n.cmds[0]
    case Start =>
    case Stop => FlushedKeepsUse(n, MatchSnapshot);
    case Exit => FlushedKeepsUse(n, MatchAll);
    case DoNextJob =>
      if n.queueActive && n.queue != [] {
        var e := n.queue[0];
        assert Fate(h.posted[e.id], h.posted[e.id] in h.n.queue, h.n.calls, e.id in h.dropped);
        JobKeepsUse(n.calls, e, n.snap, env);
      }
  }

  lemma WorkedIs(h: History, env: Env)
    ensures Worked(h, env).n == AfterRound(h.n, env)
  {}

  /** In every run no data is passed to the application or the muxer after the notifier released it. */
  lemma {:induction false} NeverUsedAfterRelease(es: seq<Event>)
    ensures NoUseAfterRelease(Run(es).n.calls)
  {
    if es != [] {
      var h, e := Run(es[..|es| - 1]), es[|es| - 1];
      NeverUsedAfterRelease(es[..|es| - 1]);
      RunKeepsEntries(es[..|es| - 1]);
      match e
      case FinishPost(id, how) => PostersKeepUse(h.n.calls, PosterCalls(h.posted, id));
      case Flush(m) => FlushedKeepsUse(h.n, m);
      case Work(env) =>
        WorkedIs(h, env);
        if h.n.cmds != [] { RoundKeepsUse(h, env); }
      case _ =>
    }
  }
}
