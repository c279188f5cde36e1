/// The FIFO of one band: a singly linked list through the queued tasks themselves.
module IntrusiveFifos {
  import opened ReadySpec

  class ReadyLinkedInvoker {
    const task: Task
    var readyNext: ReadyLinkedInvoker?
    var readyIsExternal: bool

    constructor (task: Task)
      ensures this.task == task
    {
      this.task := task;
      readyNext, readyIsExternal := null, false;
    }
  }

  /// Node i points to the next one.
  ghost predicate LinkAt(nodes: seq<ReadyLinkedInvoker>, i: nat)
    requires i < |nodes|
    reads nodes
  {
    nodes[i].readyNext == if i + 1 < |nodes| then nodes[i + 1] else null
  }

  ghost predicate Apart(nodes: seq<ReadyLinkedInvoker>) {
    forall i, j | 0 <= i < j < |nodes| :: nodes[i] != nodes[j]
  }

  lemma TailApart(nodes: seq<ReadyLinkedInvoker>)
    requires Apart(nodes) && nodes != []
    ensures Apart(nodes[1..]) && nodes[0] !in nodes[1..] && [nodes[0]] + nodes[1..] == nodes
  {
  }

  class IntrusiveFifo {
    var head: ReadyLinkedInvoker?
    var tail: ReadyLinkedInvoker?
    var count: nat
    ghost var nodes: seq<ReadyLinkedInvoker>

    ghost predicate Valid()
      reads this, nodes
    {
      && count == |nodes|
      && Apart(nodes)
      && (if nodes == [] then head == null && tail == null
          else head == nodes[0] && tail == nodes[|nodes| - 1])
      && forall i | 0 <= i < |nodes| :: LinkAt(nodes, i)
    }

    /// What is queued, oldest first.
    ghost function Contents(): (s: seq<Queued>)
      reads this, nodes
      ensures |s| == |nodes|
    {
      var ns := nodes;
      seq(|ns|, i requires 0 <= i < |ns| reads ns => Queued(ns[i].task, ns[i].readyIsExternal))
    }

    constructor ()
      ensures Valid() && Contents() == [] && nodes == []
    {
      head, tail, count, nodes := null, null, 0, [];
    }

    method PushBack(node: ReadyLinkedInvoker, external: bool)
      requires Valid() && node !in nodes
      modifies this, nodes, node
      ensures Valid() && nodes == old(nodes) + [node]
      ensures Contents() == old(Contents()) + [Queued(node.task, external)]
    {
      node.readyNext := null;
      node.readyIsExternal := external;
      if tail == null {
        head, tail := node, node;
      } else {
        assert tail == nodes[|nodes| - 1] && LinkAt(nodes, |nodes| - 1);
        tail.readyNext := node;
        tail := node;
      }
      count := count + 1;
      ghost var before := nodes;
      nodes := nodes + [node];
      forall i | 0 <= i < |nodes|
        ensures LinkAt(nodes, i)
      {
        assert i < |before| ==> old(LinkAt(before, i));
      }
    }

    /// Unlinks the oldest task; the node leaves with its link and its mark cleared.
    method PopFront() returns (node: ReadyLinkedInvoker?, external: bool)
      requires Valid()
      modifies this, nodes
      ensures Valid()
      ensures node == null <==> old(Contents()) == []
      ensures node == null ==> nodes == old(nodes) && Contents() == []
      ensures node != null ==> [node] + nodes == old(nodes) && node !in nodes
      ensures node != null ==> Queued(node.task, external) == old(Contents()[0]) && Contents() == old(Contents()[1..])
      ensures node != null ==> node.readyNext == null && !node.readyIsExternal
    {
      hide Apart;
      if head == null {
        return null, false;
      }
      node := head;
      assert LinkAt(nodes, 0);
      TailApart(nodes);
      ghost var before := nodes;
      head := node.readyNext;
      if head == null {
        tail := null;
      }
      node.readyNext := null;
      count := count - 1;
      external := node.readyIsExternal;
      node.readyIsExternal := false;
      nodes := nodes[1..];
      forall i | 0 <= i < |nodes|
        ensures LinkAt(nodes, i)
      {
        assert old(LinkAt(before, i + 1)) && nodes[i] in nodes;
      }
      assert forall i | 0 <= i < |nodes| :: nodes[i] in nodes && nodes[i] == before[i + 1];
      assert Contents() == old(Contents()[1..]);
    }

    method AnyResume() returns (any: bool)
      requires Valid()
      ensures any <==> exists i :: 0 <= i < |Contents()| && Contents()[i].task.resume
    {
      var node := head;
      ghost var i := 0;
      while node != null
        invariant i <= |nodes| && node == if i < |nodes| then nodes[i] else null
        invariant forall k | 0 <= k < i :: !Contents()[k].task.resume
        decreases |nodes| - i
      {
        assert Contents()[i].task == node.task && LinkAt(nodes, i);
        if node.task.resume {
          return true;
        }
        node := node.readyNext;
        i := i + 1;
      }
      return false;
    }
  }
}
