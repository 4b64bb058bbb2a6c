/** Runs of the active-hint list: hints performed and undone, with acquires and allocations that may
    fail, while other clients take and release locks of their own. */
module HintRuns {
  import opened HintList
  import opened PerfLock
  import opened Sequences

  datatype Event =
    | Perform(id: int, request: seq<int>, trouble: Trouble)
    | Undo(id: int)
    | OtherAcquires(request: seq<int>)
    | OtherReleases(handle: int)

  datatype History = History(
    s: State,
    others: map<int, seq<int>>,  // locks of other clients
    orphans: seq<int>)           // locks taken for a hint that was then not recorded

  /** The lock is taken but there is no memory to remember it and no way to give it back. */
  predicate Orphans(s: State, e: Event, l: Library) {
    && e.Perform? && l.loaded && l.acq && !l.rel && !Active(s.hints, e.id)
    && !e.trouble.acquire && (e.trouble.hintMemory || e.trouble.nodeMemory)
  }

  function Apply(h: History, e: Event, l: Library): History {
    match e
    case Perform(id, r, t) =>
      h.(s := Performed(h.s, id, r, t, l),
         orphans := if Orphans(h.s, e, l) then h.orphans + [Acquire(h.s.lib, 0, r, false).1] else h.orphans)
    case Undo(id) => h.(s := Undone(h.s, id, l))
    case OtherAcquires(r) =>
      var (lib, handle) := Acquire(h.s.lib, 0, r, false);
      h.(s := h.s.(lib := lib), others := h.others[handle := r])
    case OtherReleases(x) =>
      if x !in h.others then h
      else h.(s := h.s.(lib := Release(h.s.lib, x)), others := h.others - {x})
  }

  function Run(es: seq<Event>, l: Library): History {
    if es == [] then History(State(Lib(1, map[]), []), map[], [])
    else Apply(Run(es[..|es| - 1], l), es[|es| - 1], l)
  }

  /** What the list says of a hint id. */
  function Lookup(hints: seq<Hint>, id: int): int {
    if Active(hints, id) then hints[Find(hints, id)].handle else 0
  }

  ghost predicate Listed(hints: seq<Hint>, x: int) {
    exists i :: 0 <= i < |hints| && hints[i].handle == x
  }

  // ---------------------------------------------------------------- the invariant

  ghost predicate ListInv(hints: seq<Hint>) {
    && (forall i, j :: 0 <= i < j < |hints| ==> hints[i].id != hints[j].id)
    && (forall i, j :: 0 <= i < j < |hints| ==> hints[i].handle != hints[j].handle)
  }

  ghost predicate HeldInv(lib: Lib, hints: seq<Hint>, others: map<int, seq<int>>, orphans: seq<int>) {
    && lib.fresh_ >= 1
    && (forall x :: x in lib.live ==> 1 <= x < lib.fresh_ && (x in others || Listed(hints, x) || x in orphans))
    && (forall x :: x in others ==> x in lib.live)
    && (forall i :: 0 <= i < |hints| ==> hints[i].handle in lib.live && hints[i].handle !in others)
    && (forall k :: 0 <= k < |orphans| ==>
          orphans[k] in lib.live && orphans[k] !in others
          && forall i :: 0 <= i < |hints| ==> hints[i].handle != orphans[k])
  }

  ghost predicate Inv(h: History) {
    ListInv(h.s.hints) && HeldInv(h.s.lib, h.s.hints, h.others, h.orphans)
  }

  lemma ListedFront(hints: seq<Hint>, hint: Hint, x: int)
    ensures Listed([hint] + hints, x) <==> x == hint.handle || Listed(hints, x)
  {
    if x == hint.handle {
      assert ([hint] + hints)[0].handle == x;
    }
    if Listed(hints, x) {
      var i :| 0 <= i < |hints| && hints[i].handle == x;
      assert ([hint] + hints)[i + 1].handle == x;
    }
  }

  lemma ListedWithout(hints: seq<Hint>, at: nat, x: int)
    requires ListInv(hints) && at < |hints|
    ensures Listed(Without(hints, at), x) <==> Listed(hints, x) && x != hints[at].handle
  {
    var rest := Without(hints, at);
    if Listed(rest, x) {
      var k :| 0 <= k < |rest| && rest[k].handle == x;
      assert rest[k] == hints[if k < at then k else k + 1];
    }
    if Listed(hints, x) && x != hints[at].handle {
      var i :| 0 <= i < |hints| && hints[i].handle == x;
      assert rest[if i < at then i else i - 1] == hints[i];
    }
  }

  lemma AddKeeps(h: History, id: int, request: seq<int>)
    requires Inv(h) && !Active(h.s.hints, id)
    ensures var (lib, handle) := Acquire(h.s.lib, 0, request, false);
      Inv(h.(s := HintList.State(lib, [Hint(id, handle)] + h.s.hints)))
  {
    var (lib, handle) := Acquire(h.s.lib, 0, request, false);
    forall x | x in lib.live
      ensures 1 <= x < lib.fresh_ && (x in h.others || Listed([Hint(id, handle)] + h.s.hints, x) || x in h.orphans)
    {
      ListedFront(h.s.hints, Hint(id, handle), x);
    }
  }

  lemma TakeAndGiveBackKeeps(h: History, request: seq<int>)
    requires Inv(h)
    ensures var (lib, handle) := Acquire(h.s.lib, 0, request, false);
      Inv(h.(s := h.s.(lib := Release(lib, handle)))) && Inv(h.(s := h.s.(lib := lib), orphans := h.orphans + [handle]))
  {}

  lemma RemoveKeeps(h: History, at: nat)
    requires Inv(h) && at < |h.s.hints|
    ensures Inv(h.(s := HintList.State(Release(h.s.lib, h.s.hints[at].handle), Without(h.s.hints, at))))
  {
    var hints := h.s.hints;
    forall x | x in h.s.lib.live && x != hints[at].handle
      ensures x in h.others || Listed(Without(hints, at), x) || x in h.orphans
    {
      ListedWithout(hints, at, x);
    }
  }

  lemma OthersKeep(h: History, e: Event, l: Library)
    requires Inv(h) && (e.OtherAcquires? || e.OtherReleases?)
    ensures Inv(Apply(h, e, l))
  {}

  lemma PerformKeeps(h: History, id: int, r: seq<int>, t: Trouble, l: Library)
    requires Inv(h)
    ensures Inv(Apply(h, Perform(id, r, t), l))
  {
    if l.loaded && l.acq && !Active(h.s.hints, id) && !t.acquire {
      if t.hintMemory || t.nodeMemory {
        TakeAndGiveBackKeeps(h, r);
      } else {
        AddKeeps(h, id, r);
      }
    }
  }

  lemma {:induction false} RunKeeps(es: seq<Event>, l: Library)
    ensures Inv(Run(es, l)) && (l.rel || !l.loaded || !l.acq ==> Run(es, l).orphans == [])
  {
    if es != [] {
      var h := Run(es[..|es| - 1], l);
      RunKeeps(es[..|es| - 1], l);
      match es[|es| - 1]
      case Perform(id, r, t) => PerformKeeps(h, id, r, t, l);
      case Undo(id) => if Active(h.s.hints, id) { RemoveKeeps(h, Find(h.s.hints, id)); }
      case _ => OthersKeep(h, es[|es| - 1], l);
    }
  }

  // ---------------------------------------------------------------- what it gives

  /** In every run no id and no handle is listed twice, and the locks held are the other clients',
      the listed ones and the orphans, of which there are none when locks can be released. */
  lemma LocksAreListed(es: seq<Event>, l: Library)
    ensures var h := Run(es, l);
      && ListInv(h.s.hints)
      && (forall x :: x in h.s.lib.live <==> x in h.others || Listed(h.s.hints, x) || x in h.orphans)
      && (forall x :: x in h.others ==> !Listed(h.s.hints, x))
      && (l.rel ==> h.orphans == [])
  {
    RunKeeps(es, l);
    var h := Run(es, l);
    forall x | x in h.orphans ensures x in h.s.lib.live {
      var k :| 0 <= k < |h.orphans| && h.orphans[k] == x;
    }
  }

  /** The list refines a map from hint ids to handles: performing an absent hint adds it, ... */
  lemma PerformUpdatesLookup(s: State, id: int, request: seq<int>, t: Trouble, l: Library, other: int)
    requires l.loaded && l.acq && !Active(s.hints, id) && s.lib.fresh_ >= 1 && 0 !in s.lib.live
    ensures var s' := Performed(s, id, request, t, l);
      var recorded := !t.acquire && !t.hintMemory && !t.nodeMemory;
      && (Active(s'.hints, other) <==> Active(s.hints, other) || (recorded && other == id))
      && Lookup(s'.hints, other) == if recorded && other == id then s.lib.fresh_ else Lookup(s.hints, other)
  {
    var handle := Acquire(s.lib, 0, request, t.acquire).1;
    assert ([Hint(id, handle)] + s.hints)[1..] == s.hints;
  }

  lemma FindWithout(hints: seq<Hint>, at: nat, id: int)
    requires at < |hints| && hints[at].id != id
    ensures Active(Without(hints, at), id) <==> Active(hints, id)
    ensures Lookup(Without(hints, at), id) == Lookup(hints, id)
  {
    var i, rest := Find(hints, id), Without(hints, at);
    FindUnique(rest, id, if i < at then i else i - 1);
  }

  /** ... and undoing removes that hint and no other. */
  lemma UndoUpdatesLookup(es: seq<Event>, l: Library, id: int, other: int)
    requires l.loaded && l.rel
    ensures var hints := Run(es, l).s.hints;
      var hints' := Undone(Run(es, l).s, id, l).hints;
      && (Active(hints', other) <==> Active(hints, other) && other != id)
      && Lookup(hints', other) == if other == id then 0 else Lookup(hints, other)
  {
    RunKeeps(es, l);
    var hints := Run(es, l).s.hints;
    if Active(hints, id) {
      var at := Find(hints, id);
      if other == id {
        var rest := Without(hints, at);
        forall k | 0 <= k < |rest| ensures rest[k].id != id {
          assert rest[k] == hints[if k < at then k else k + 1];
        }
      } else {
        FindWithout(hints, at, other);
      }
    }
  }

  lemma PerformedHint(s: State, id: int, request: seq<int>, l: Library)
    requires l == Library(true, true, true) && !Active(s.hints, id) && 0 !in s.lib.live && s.lib.fresh_ >= 1
    ensures Performed(s, id, request, Trouble(false, false, false), l)
         == HintList.State(Lib(s.lib.fresh_ + 1, s.lib.live[s.lib.fresh_ := request]),
                           [Hint(id, s.lib.fresh_)] + s.hints)
  {}

  lemma UndoneFront(lib: Lib, hint: Hint, hints: seq<Hint>, l: Library)
    requires l.loaded && l.rel
    ensures Undone(HintList.State(lib, [hint] + hints), hint.id, l) == HintList.State(Release(lib, hint.handle), hints)
  {
    assert Find([hint] + hints, hint.id) == 0;
    assert Without([hint] + hints, 0) == hints;
  }

  /** Performing an absent hint and undoing it restores the list and the locks held. */
  lemma UndoRestores(es: seq<Event>, l: Library, id: int, request: seq<int>)
    requires l == Library(true, true, true) && !Active(Run(es, l).s.hints, id)
    ensures var s := Run(es, l).s;
      var t := Undone(Performed(s, id, request, Trouble(false, false, false), l), id, l);
      && t.hints == s.hints
      && (forall x :: x in t.lib.live <==> x in s.lib.live)
      && (forall x :: x in s.lib.live ==> t.lib.live[x] == s.lib.live[x])
  {
    RunKeeps(es, l);
    var s := Run(es, l).s;
    PerformedHint(s, id, request, l);
    UndoneFront(Lib(s.lib.fresh_ + 1, s.lib.live[s.lib.fresh_ := request]), Hint(id, s.lib.fresh_), s.hints, l);
  }

  /** A hint performed twice is still ended by one undo. */
  lemma NoNesting(es: seq<Event>, l: Library, id: int, r: seq<int>, t: Trouble)
    requires l.loaded && l.rel && Active(Run(es, l).s.hints, id)
    ensures !Active(Undone(Performed(Run(es, l).s, id, r, t, l), id, l).hints, id)
  {
    UndoUpdatesLookup(es, l, id, id);
  }

  /** Without a release function a lock can be taken and forgotten. */
  lemma OrphanedLock()
    ensures var l := Library(true, true, false);
      var h := Run([Perform(7, [1, 2], Trouble(false, true, false))], l);
      h.s.hints == [] && h.orphans == [1] && 1 in h.s.lib.live && h.s.lib.live[1] == [1, 2]
  {
    var e := Perform(7, [1, 2], Trouble(false, true, false));
    assert [e][..0] == [];
  }
}
