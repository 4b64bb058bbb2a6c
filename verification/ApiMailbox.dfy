/** The mailbox through which the camera state machine hands API results to the callers that wait
    for them: a singly linked list, appended at the tail and searched from the head. */
module ApiMailbox {
  import opened Sequences

  datatype ApiResult = ApiResult(api: nat, status: int)

  /** Index of the first result for an API, or the length. */
  function FirstFor(rs: seq<ApiResult>, api: nat): (i: nat)
    ensures i <= |rs|
    ensures i < |rs| ==> rs[i].api == api
    ensures forall j :: 0 <= j < i ==> rs[j].api != api
  {
    First(rs, (r: ApiResult) => r.api == api)
  }

  class ResultNode {
    var result: ApiResult
    var next: ResultNode?

    constructor (result: ApiResult)
      ensures this.result == result && next == null
    {
      this.result := result;
      next := null;
    }
  }

  /** The i-th node of a list, null past its end. */
  ghost function NodeAt(nodes: seq<ResultNode>, i: nat): ResultNode? {
    if i < |nodes| then nodes[i] else null
  }

  lemma NodeAtWithout(nodes: seq<ResultNode>, i: nat, k: nat)
    requires i < |nodes|
    ensures NodeAt(Without(nodes, i), k) == NodeAt(nodes, if k < i then k else k + 1)
  {}

  class Mailbox {
    var head: ResultNode?
    ghost var nodes: seq<ResultNode>
    ghost var results: seq<ApiResult>

    /** The list from the head on is `nodes`: distinct nodes, each linked to the one after it, the
        last to null. */
    ghost predicate Valid()
      reads this, nodes
    {
      && head == NodeAt(nodes, 0)
      && (forall i :: 0 <= i < |nodes| ==> nodes[i].next == NodeAt(nodes, i + 1))
      && Distinct(nodes)
      && |results| == |nodes|
      && (forall i :: 0 <= i < |nodes| ==> nodes[i].result == results[i])
    }

    constructor ()
      ensures Valid() && results == []
    {
      head := null;
      nodes, results := [], [];
    }

    /** Appends a result. Without memory for a node it is lost. */
    method Post(result: ApiResult, hasMemory: bool)
      requires Valid()
      modifies this, nodes
      ensures Valid() && fresh(set n | n in nodes && n !in old(nodes))
      ensures results == if hasMemory then old(results) + [result] else old(results)
    {
      if !hasMemory {
        return;
      }
      var node := new ResultNode(result);
      if head == null {
        head := node;
      } else {
        var current := head;
        ghost var i := 0;
        while current.next != null
          invariant Valid() && unchanged(this) && unchanged(nodes)
          invariant 0 <= i < |nodes| && current == nodes[i]
          decreases |nodes| - i
        {
          current := current.next;
          i := i + 1;
        }
        current.next := node;
      }
      nodes, results := nodes + [node], results + [result];
    }

    method Unlink(previous: ResultNode, current: ResultNode, ghost i: nat)
      requires Valid() && i < |nodes| && current == nodes[i]
      requires previous == nodes[if i == 0 then 0 else i - 1]
      modifies this, nodes
      ensures Valid()
      ensures nodes == Without(old(nodes), i) && results == Without(old(results), i)
    {
      ghost var was := nodes;
      DistinctWithout(was, i);
      previous.next := current.next;
      if current == head {
        head := current.next;
      }
      nodes, results := Without(was, i), Without(results, i);
      forall k | 0 <= k < |nodes|
        ensures nodes[k].next == NodeAt(nodes, k + 1) && nodes[k].result == results[k]
      {
        NodeAtWithout(was, i, k);
        NodeAtWithout(was, i, k + 1);
        if k < i {
          assert nodes[k] == was[k];
        } else {
          assert nodes[k] == was[k + 1] && was[k + 1] != previous;
        }
      }
    }

    /** One look of a waiter through the list: takes out the first result for its API, if any,
        and leaves the others in order. */
    method Take(api: nat) returns (found: bool, result: ApiResult)
      requires Valid()
      modifies this, nodes
      ensures Valid() && (forall n :: n in nodes ==> n in old(nodes))
      ensures found == (FirstFor(old(results), api) < |old(results)|)
      ensures found ==> && result == old(results)[FirstFor(old(results), api)]
                        && results == Without(old(results), FirstFor(old(results), api))
      ensures !found ==> results == old(results)
    {
      found, result := false, ApiResult(api, 0);
      var current, previous := head, head;
      ghost var i := 0;
      while current != null
        invariant 0 <= i <= |nodes| && current == NodeAt(nodes, i)
        invariant previous == NodeAt(nodes, if i == 0 then 0 else i - 1)
        invariant forall j :: 0 <= j < i ==> nodes[j].result.api != api
        decreases |nodes| - i
      {
        if current.result.api == api {
          found, result := true, current.result;
          Unlink(previous, current, i);
          return;
        }
        previous := current;
        current := current.next;
        i := i + 1;
      }
    }
  }
}
