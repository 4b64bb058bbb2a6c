/** The power HAL's list of active hints: a singly linked list behind a head node, one node for
    every perf lock taken on behalf of a hint. */
module HintList {
  import opened PerfLock
  import opened Sequences

  datatype Hint = Hint(id: int, handle: int)

  /** What fails while a hint is performed. */
  datatype Trouble = Trouble(acquire: bool, hintMemory: bool, nodeMemory: bool)

  /** Which of the perf-lock library's entry points could be found. */
  datatype Library = Library(loaded: bool, acq: bool, rel: bool)

  datatype State = State(lib: Lib, hints: seq<Hint>)

  function Find(hints: seq<Hint>, id: int): (i: nat)
    ensures i <= |hints|
    ensures i < |hints| ==> hints[i].id == id
    ensures forall j :: 0 <= j < i ==> hints[j].id != id
  {
    First(hints, (h: Hint) => h.id == id)
  }

  lemma FindUnique(hints: seq<Hint>, id: int, i: nat)
    requires i <= |hints| && (i < |hints| ==> hints[i].id == id)
    requires forall j :: 0 <= j < i ==> hints[j].id != id
    ensures Find(hints, id) == i
  {}

  predicate Active(hints: seq<Hint>, id: int) {
    Find(hints, id) < |hints|
  }

  function Performed(s: State, id: int, request: seq<int>, t: Trouble, l: Library): State {
    if !l.loaded || Active(s.hints, id) || !l.acq then s
    else
      var (lib, handle) := Acquire(s.lib, 0, request, t.acquire);
      if handle == -1 then s.(lib := lib)
      else if t.hintMemory || t.nodeMemory then s.(lib := if l.rel then Release(lib, handle) else lib)
      else State(lib, [Hint(id, handle)] + s.hints)
  }

  function Undone(s: State, id: int, l: Library): State {
    if !l.loaded || !l.rel || !Active(s.hints, id) then s
    else State(Release(s.lib, s.hints[Find(s.hints, id)].handle), Without(s.hints, Find(s.hints, id)))
  }

  class ListNode {
    var data: Hint
    var next: ListNode?
    var compares: bool

    constructor (data: Hint, next: ListNode?, compares: bool)
      ensures this.data == data && this.next == next && this.compares == compares
    {
      this.data, this.next, this.compares := data, next, compares;
    }
  }

  /** The i-th node of a list, null past its end. */
  ghost function NodeAt(nodes: seq<ListNode>, i: nat): ListNode? {
    if i < |nodes| then nodes[i] else null
  }

  lemma NodeAtWithout(nodes: seq<ListNode>, i: nat, k: nat)
    requires i < |nodes|
    ensures NodeAt(Without(nodes, i), k) == NodeAt(nodes, if k < i then k else k + 1)
  {}

  class ActiveHints {
    const library: Library
    const head: ListNode
    var lib: Lib
    ghost var nodes: seq<ListNode>
    ghost var hints: seq<Hint>

    ghost function Abs(): State
      reads this
    {
      State(lib, hints)
    }

    /** Behind the head come the distinct nodes of `nodes`, each linked to the next, the last to
        null. */
    ghost predicate Valid()
      reads this, head, nodes
    {
      && head !in nodes && Distinct(nodes)
      && head.next == NodeAt(nodes, 0)
      && |hints| == |nodes|
      && forall i :: 0 <= i < |nodes| ==> nodes[i].next == NodeAt(nodes, i + 1) && nodes[i].data == hints[i]
    }

    /** Every node has the comparison function; a node gets the head's when it is added. */
    ghost predicate Comparing()
      reads this, head, nodes
    {
      (nodes != [] ==> head.compares) && forall i :: 0 <= i < |nodes| ==> nodes[i].compares
    }

    constructor (library: Library, lib: Lib)
      ensures Valid() && Comparing() && fresh(head) && this.library == library && Abs() == State(lib, [])
    {
      this.library, this.lib := library, lib;
      head := new ListNode(Hint(0, 0), null, false);
      nodes, hints := [], [];
    }

    /** A node without the comparison function is passed over. */
    method FindNode(id: int) returns (node: ListNode?)
      requires Valid()
      ensures node == null ==> forall i :: 0 <= i < |nodes| ==> !nodes[i].compares || hints[i].id != id
      ensures node != null ==> node in nodes && node.compares && node.data.id == id
      ensures Comparing() ==> node == NodeAt(nodes, Find(hints, id))
    {
      var current := head.next;
      ghost var i := 0;
      while current != null
        invariant 0 <= i <= |nodes| && current == NodeAt(nodes, i)
        invariant forall j :: 0 <= j < i ==> !nodes[j].compares || hints[j].id != id
        decreases |nodes| - i
      {
        if current.compares && current.data.id == id {
          if Comparing() { FindUnique(hints, id, i); }
          return current;
        }
        current := current.next;
        i := i + 1;
      }
      if Comparing() { FindUnique(hints, id, i); }
      return null;
    }

    method AddListNode(data: Hint, hasMemory: bool) returns (added: bool)
      requires Valid()
      modifies this`nodes, this`hints, head
      ensures Valid() && added == hasMemory && head.compares == old(head.compares)
      ensures added ==> hints == [data] + old(hints) && |nodes| > 0 && fresh(nodes[0]) && nodes[1..] == old(nodes)
      ensures added ==> nodes[0].compares == head.compares
      ensures old(Comparing()) && (added ==> head.compares) ==> Comparing()
      ensures !added ==> hints == old(hints) && nodes == old(nodes)
    {
      if !hasMemory {
        return false;
      }
      var node := new ListNode(data, head.next, head.compares);
      head.next := node;
      nodes, hints := [node] + nodes, [data] + hints;
      return true;
    }

    method Unlink(saved: ListNode, current: ListNode, ghost i: nat)
      requires Valid() && i < |nodes| && current == nodes[i]
      requires saved == if i == 0 then head else nodes[i - 1]
      modifies this`nodes, this`hints, saved`next
      ensures Valid() && nodes == Without(old(nodes), i) && hints == Without(old(hints), i)
    {
      ghost var was := nodes;
      DistinctWithout(was, i);
      saved.next := current.next;
      nodes, hints := Without(was, i), Without(hints, i);
      forall k | 0 <= k < |nodes|
        ensures nodes[k].next == NodeAt(nodes, k + 1) && nodes[k].data == hints[k]
      {
        NodeAtWithout(was, i, k);
        NodeAtWithout(was, i, k + 1);
      }
    }

    /** Unlinks a node, wherever it stands. */
    method RemoveListNode(del: ListNode) returns (rc: int)
      requires Valid()
      modifies this`nodes, this`hints, head, nodes
      ensures Valid() && rc == (if del in old(nodes) then 0 else -1)
      ensures old(Comparing()) ==> Comparing()
      ensures del !in old(nodes) ==> hints == old(hints) && nodes == old(nodes)
      ensures del in old(nodes) ==> exists i: nat :: (i < |old(nodes)| && old(nodes)[i] == del
                                            && nodes == Without(old(nodes), i) && hints == Without(old(hints), i))
    {
      if head.next == null {
        return -1;
      }
      var current, saved := head.next, head;
      ghost var i := 0;
      while current != null && current != del
        invariant Valid() && 0 <= i <= |nodes| && current == NodeAt(nodes, i)
        invariant saved == if i == 0 then head else nodes[i - 1]
        invariant forall j :: 0 <= j < i ==> nodes[j] != del
        decreases |nodes| - i
      {
        saved := current;
        current := current.next;
        i := i + 1;
      }
      if current == null {
        return -1;
      }
      ghost var was := nodes;
      Unlink(saved, current, i);
      forall k | 0 <= k < |nodes| ensures nodes[k] in was {
        assert nodes[k] == was[if k < i then k else k + 1];
      }
      return 0;
    }

    method ReleaseLock(handle: int)
      modifies this`lib
      ensures lib == Release(old(lib), handle)
    {
      lib := Release(lib, handle);
    }

    method AcquireLock(request: seq<int>, fails: bool) returns (handle: int)
      modifies this`lib
      ensures (lib, handle) == Acquire(old(lib), 0, request, fails)
    {
      var (l, h) := Acquire(lib, 0, request, fails);
      lib := l;
      return h;
    }

    /** Adds a handle just taken to the list; without memory it is given back, if it can be. */
    method RecordHint(hint: Hint, t: Trouble)
      requires Valid() && Comparing()
      modifies this`lib, this`nodes, this`hints, head
      ensures Valid() && Comparing()
      ensures hints == if t.hintMemory || t.nodeMemory then old(hints) else [hint] + old(hints)
      ensures lib == if (t.hintMemory || t.nodeMemory) && library.rel then Release(old(lib), hint.handle) else old(lib)
      ensures nodes == old(nodes) || (|nodes| > 0 && fresh(nodes[0]) && nodes[1..] == old(nodes))
    {
      var added := false;
      if !t.hintMemory {
        head.compares := true;
        added := AddListNode(hint, !t.nodeMemory);
      }
      if !added && library.rel {
        ReleaseLock(hint.handle);
      }
    }

    method PerformHintAction(id: int, request: seq<int>, t: Trouble)
      requires Valid() && Comparing()
      modifies this, head
      ensures Valid() && Comparing() && Abs() == Performed(old(Abs()), id, request, t, library)
      ensures nodes == old(nodes) || (|nodes| > 0 && fresh(nodes[0]) && nodes[1..] == old(nodes))
    {
      if !library.loaded {
        return;
      }
      var found := FindNode(id);
      if found != null {
        return;
      }
      if library.acq {
        var handle := AcquireLock(request, t.acquire);
        if handle != -1 {
          RecordHint(Hint(id, handle), t);
        }
      }
    }

    method UndoHintAction(id: int)
      requires Valid() && Comparing()
      modifies this, head, nodes
      ensures Valid() && Comparing() && Abs() == Undone(old(Abs()), id, library)
      ensures forall n :: n in nodes ==> n in old(nodes)
    {
      if library.loaded && library.rel {
        var found := FindNode(id);
        if found != null {
          ReleaseLock(found.data.handle);
          var rc := RemoveListNode(found);
        }
      }
    }
  }
}
