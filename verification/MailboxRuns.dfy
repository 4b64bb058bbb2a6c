/** The API lock, its condition variable and the mailbox as a state machine: callers that lock,
    send one request and wait for its result, and the state-machine thread that signals each
    request once. A run is any sequence of events; a disabled event changes nothing. */
module MailboxRuns {
  import opened ApiMailbox
  import opened Sequences

  /** A thread inside pthread_cond_wait; `notified` once a broadcast has reached it. */
  datatype Waiter = Waiter(api: nat, notified: bool)

  datatype Owner = Nobody | Sender(thread: nat, api: nat)

  datatype State = State(
    owner: Owner, waiters: map<nat, Waiter>, outstanding: multiset<nat>, results: seq<ApiResult>,
    // history: results posted to the list, results lost for want of memory, results claimed
    posted: seq<ApiResult>, lost: seq<ApiResult>, claimed: seq<ApiResult>)

  datatype Event =
    | Send(thread: nat, api: nat)              // lockAPI, then processAPI accepts the request
    | Block                                    // waitAPIResult enters pthread_cond_wait
    | Signal(result: ApiResult, hasMemory: bool)
    | Wake(thread: nat)                        // by a broadcast or spuriously

  const INIT := State(Nobody, map[], multiset{}, [], [], [], [])

  function Broadcast(waiters: map<nat, Waiter>): map<nat, Waiter> {
    map t | t in waiters :: Waiter(waiters[t].api, true)
  }

  function Apply(s: State, e: Event): State {
    match e
    case Send(t, api) =>
      if s.owner != Nobody || t in s.waiters then s
      else s.(owner := Sender(t, api), outstanding := s.outstanding + multiset{api})
    case Block =>
      if s.owner == Nobody then s
      else s.(owner := Nobody, waiters := s.waiters[s.owner.thread := Waiter(s.owner.api, false)])
    case Signal(r, hasMemory) =>
      if s.owner != Nobody || r.api !in s.outstanding then s
      else
        var t := s.(outstanding := s.outstanding - multiset{r.api}, waiters := Broadcast(s.waiters));
        if hasMemory then t.(results := s.results + [r], posted := s.posted + [r])
        else t.(lost := s.lost + [r])
    case Wake(t) =>
      if s.owner != Nobody || t !in s.waiters then s
      else
        var i := FirstFor(s.results, s.waiters[t].api);
        if i < |s.results| then
          s.(results := Without(s.results, i), waiters := s.waiters - {t}, claimed := s.claimed + [s.results[i]])
        else s.(waiters := s.waiters[t := Waiter(s.waiters[t].api, false)])
  }

  function Run(es: seq<Event>): State {
    if es == [] then INIT else Apply(Run(es[..|es| - 1]), es[|es| - 1])
  }

  // ---------------------------------------------------------------- counting by API

  /** The results for one API, in order. */
  function For(rs: seq<ApiResult>, api: nat): seq<ApiResult> {
    if rs == [] then []
    else For(rs[..|rs| - 1], api) + if rs[|rs| - 1].api == api then [rs[|rs| - 1]] else []
  }

  function WaitersFor(waiters: map<nat, Waiter>, api: nat): set<nat> {
    set t | t in waiters && waiters[t].api == api
  }

  function NotifiedFor(waiters: map<nat, Waiter>, api: nat): set<nat> {
    set t | t in waiters && waiters[t].api == api && waiters[t].notified
  }

  function Sending(owner: Owner, api: nat): nat {
    if owner.Sender? && owner.api == api then 1 else 0
  }

  lemma ForSnoc(rs: seq<ApiResult>, r: ApiResult, api: nat)
    ensures For(rs + [r], api) == For(rs, api) + if r.api == api then [r] else []
  {
    assert (rs + [r])[..|rs|] == rs;
  }

  lemma {:induction false} ForAppend(a: seq<ApiResult>, b: seq<ApiResult>, api: nat)
    ensures For(a + b, api) == For(a, api) + For(b, api)
  {
    if b == [] {
      assert a + b == a;
    } else {
      var init, last := b[..|b| - 1], b[|b| - 1];
      ForAppend(a, init, api);
      assert a + b == (a + init) + [last];
      ForSnoc(a + init, last, api);
    }
  }

  lemma {:induction false} ForNone(rs: seq<ApiResult>, api: nat)
    ensures For(rs, api) == [] <==> forall j :: 0 <= j < |rs| ==> rs[j].api != api
  {
    if rs != [] {
      ForNone(rs[..|rs| - 1], api);
    }
  }

  lemma ForMiddle(before: seq<ApiResult>, r: ApiResult, after: seq<ApiResult>, api: nat)
    ensures For(before + [r] + after, api)
         == For(before, api) + (if r.api == api then [r] else []) + For(after, api)
  {
    ForAppend(before + [r], after, api);
    ForSnoc(before, r, api);
  }

  /** Taking out the first result for one API takes the head of that API's results and leaves the
      results of every other API alone. */
  lemma ForWithout(rs: seq<ApiResult>, mine: nat, api: nat)
    requires FirstFor(rs, mine) < |rs|
    ensures var i := FirstFor(rs, mine);
      For(rs, api) == (if api == mine then [rs[i]] else []) + For(Without(rs, i), api)
  {
    var i := FirstFor(rs, mine);
    var before, r, after := rs[..i], rs[i], rs[i + 1..];
    assert rs == before + [r] + after;
    ForMiddle(before, r, after, api);
    assert Without(rs, i) == before + after;
    ForAppend(before, after, api);
    if api == mine { ForNone(before, mine); }
  }

  // ---------------------------------------------------------------- the invariant

  /** For one API, every caller is accounted for by a request still outstanding, a result not yet
      claimed or a result lost. */
  ghost predicate Balanced(s: State, api: nat) {
    |WaitersFor(s.waiters, api)| + Sending(s.owner, api)
    == s.outstanding[api] + |For(s.results, api)| + |For(s.lost, api)|
  }

  /** There are never more unclaimed results than notified waiters. */
  ghost predicate Covered(waiters: map<nat, Waiter>, results: seq<ApiResult>, api: nat) {
    |For(results, api)| <= |NotifiedFor(waiters, api)|
  }

  /** Results are claimed in the order they were posted. */
  ghost predicate InOrder(claimed: seq<ApiResult>, results: seq<ApiResult>, posted: seq<ApiResult>, api: nat) {
    For(claimed, api) + For(results, api) == For(posted, api)
  }

  ghost predicate ApiInv(s: State, api: nat) {
    && Balanced(s, api)
    && Covered(s.waiters, s.results, api)
    && InOrder(s.claimed, s.results, s.posted, api)
  }

  lemma WaiterEnters(w: map<nat, Waiter>, thread: nat, mine: nat, api: nat)
    requires thread !in w
    ensures var w' := w[thread := Waiter(mine, false)];
      && |WaitersFor(w', api)| == |WaitersFor(w, api)| + (if mine == api then 1 else 0)
      && NotifiedFor(w', api) == NotifiedFor(w, api)
  {
    var w' := w[thread := Waiter(mine, false)];
    assert WaitersFor(w', api) == WaitersFor(w, api) + if mine == api then {thread} else {};
  }

  lemma WaiterLeaves(w: map<nat, Waiter>, thread: nat, api: nat)
    requires thread in w
    ensures var w', mine := w - {thread}, w[thread].api == api;
      && |WaitersFor(w', api)| == |WaitersFor(w, api)| - (if mine then 1 else 0)
      && |NotifiedFor(w', api)| == |NotifiedFor(w, api)| - (if mine && w[thread].notified then 1 else 0)
  {
    var w', gone := w - {thread}, if w[thread].api == api then {thread} else {};
    assert WaitersFor(w', api) == WaitersFor(w, api) - gone;
    assert NotifiedFor(w', api) == NotifiedFor(w, api) - gone;
  }

  lemma WaiterWaitsAgain(w: map<nat, Waiter>, thread: nat, api: nat)
    requires thread in w
    ensures var w' := w[thread := Waiter(w[thread].api, false)];
      && WaitersFor(w', api) == WaitersFor(w, api)
      && (w[thread].api != api ==> NotifiedFor(w', api) == NotifiedFor(w, api))
  {}

  lemma BlockKeeps(s: State, api: nat)
    requires ApiInv(s, api) && s.owner.Sender? && s.owner.thread !in s.waiters
    ensures ApiInv(Apply(s, Block), api)
  {
    WaiterEnters(s.waiters, s.owner.thread, s.owner.api, api);
  }

  lemma SignalNotifiesAll(w: map<nat, Waiter>, api: nat)
    ensures WaitersFor(Broadcast(w), api) == NotifiedFor(Broadcast(w), api) == WaitersFor(w, api)
  {}

  lemma PostKeepsOrder(claimed: seq<ApiResult>, results: seq<ApiResult>, posted: seq<ApiResult>, r: ApiResult, api: nat)
    requires InOrder(claimed, results, posted, api)
    ensures InOrder(claimed, results + [r], posted + [r], api)
  {
    ForSnoc(results, r, api);
    ForSnoc(posted, r, api);
  }

  lemma SignalFields(s: State, r: ApiResult, hasMemory: bool)
    requires s.owner == Nobody && r.api in s.outstanding
    ensures var t := Apply(s, Signal(r, hasMemory));
      && t.outstanding == s.outstanding - multiset{r.api} && t.waiters == Broadcast(s.waiters) && t.owner == Nobody
      && t.results == (if hasMemory then s.results + [r] else s.results) && t.claimed == s.claimed
      && t.posted == (if hasMemory then s.posted + [r] else s.posted)
      && t.lost == if hasMemory then s.lost else s.lost + [r]
  {}

  lemma SignalKeeps(s: State, r: ApiResult, hasMemory: bool, api: nat)
    requires ApiInv(s, api) && s.owner == Nobody && r.api in s.outstanding
    ensures ApiInv(Apply(s, Signal(r, hasMemory)), api)
  {
    var t := Apply(s, Signal(r, hasMemory));
    SignalFields(s, r, hasMemory);
    SignalNotifiesAll(s.waiters, api);
    if hasMemory {
      ForSnoc(s.results, r, api);
      PostKeepsOrder(s.claimed, s.results, s.posted, r, api);
    } else {
      ForSnoc(s.lost, r, api);
    }
    assert t.outstanding[api] == s.outstanding[api] - if r.api == api then 1 else 0;
  }

  lemma ClaimKeepsOrder(claimed: seq<ApiResult>, results: seq<ApiResult>, posted: seq<ApiResult>, mine: nat, api: nat)
    requires InOrder(claimed, results, posted, api) && FirstFor(results, mine) < |results|
    ensures var i := FirstFor(results, mine);
      InOrder(claimed + [results[i]], Without(results, i), posted, api)
  {
    ForWithout(results, mine, api);
    ForSnoc(claimed, results[FirstFor(results, mine)], api);
  }

  lemma WakeKeeps(s: State, thread: nat, api: nat)
    requires ApiInv(s, api) && s.owner == Nobody && thread in s.waiters
    ensures ApiInv(Apply(s, Wake(thread)), api)
  {
    var mine := s.waiters[thread].api;
    if FirstFor(s.results, mine) < |s.results| {
      WaiterLeaves(s.waiters, thread, api);
      ForWithout(s.results, mine, api);
      ClaimKeepsOrder(s.claimed, s.results, s.posted, mine, api);
    } else {
      WaiterWaitsAgain(s.waiters, thread, api);
      ForNone(s.results, mine);
    }
  }

  lemma {:induction false} RunKeeps(es: seq<Event>, api: nat)
    ensures ApiInv(Run(es), api)
    ensures Run(es).owner.Sender? ==> Run(es).owner.thread !in Run(es).waiters
  {
    if es == [] {
      assert WaitersFor(INIT.waiters, api) == {};
    } else {
      var s, e := Run(es[..|es| - 1]), es[|es| - 1];
      RunKeeps(es[..|es| - 1], api);
      match e
      case Send(t, a) =>
      case Block => if s.owner.Sender? { BlockKeeps(s, api); }
      case Signal(r, m) => if s.owner == Nobody && r.api in s.outstanding { SignalKeeps(s, r, m, api); }
      case Wake(t) => if s.owner == Nobody && t in s.waiters { WakeKeeps(s, t, api); }
    }
  }

  // ---------------------------------------------------------------- what it gives

  /** No wakeup is lost: while a result for an API is unclaimed, some thread waiting for that API
      has been notified, and whenever it runs it finds a result. */
  lemma UnclaimedResultHasNotifiedWaiter(es: seq<Event>, r: ApiResult) returns (thread: nat)
    requires r in Run(es).results
    ensures var s := Run(es);
      && thread in s.waiters && s.waiters[thread] == Waiter(r.api, true)
      && (s.owner == Nobody ==> thread !in Apply(s, Wake(thread)).waiters)
  {
    var s := Run(es);
    RunKeeps(es, r.api);
    ForNone(s.results, r.api);
    var i :| 0 <= i < |s.results| && s.results[i] == r;
    assert NotifiedFor(s.waiters, r.api) != {};
    thread :| thread in NotifiedFor(s.waiters, r.api);
  }

  /** When nothing is left to happen - no request outstanding, nobody holding the lock, no waiter
      notified - the threads still waiting for an API are exactly as many as the results lost for
      want of memory. So nobody waits for ever if and only if no result was lost. */
  lemma StuckWaitersAreLostResults(es: seq<Event>, api: nat)
    requires var s := Run(es);
      s.outstanding[api] == 0 && s.owner == Nobody && NotifiedFor(s.waiters, api) == {}
    ensures |WaitersFor(Run(es).waiters, api)| == |For(Run(es).lost, api)|
    ensures For(Run(es).claimed, api) == For(Run(es).posted, api)
  {
    RunKeeps(es, api);
  }

  /** In every state waiters equal outstanding requests plus unclaimed and lost results, and the
      results claimed so far are a prefix of those posted, API by API. */
  lemma WaitersAreAccountedFor(es: seq<Event>, api: nat)
    ensures var s := Run(es);
      && |WaitersFor(s.waiters, api)| + Sending(s.owner, api)
         == s.outstanding[api] + |For(s.results, api)| + |For(s.lost, api)|
      && |For(s.results, api)| <= |NotifiedFor(s.waiters, api)|
      && For(s.claimed, api) <= For(s.posted, api)
  {
    RunKeeps(es, api);
  }
}
