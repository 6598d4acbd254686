/** The linked queue serves any batch of tasks in stable priority order, its bitmask choosing the lane. */
module QueueOrder {
  import opened PriorityLanes
  import opened PriorityQueue

  /** The nodes with the priorities they carry. */
  ghost function JobsOf(nodes: seq<Node>): (jobs: seq<Job<Node>>)
    reads nodes
    ensures |jobs| == |nodes| && forall i :: 0 <= i < |nodes| ==> jobs[i] == (nodes[i].priority, nodes[i])
  {
    seq(|nodes|, i requires 0 <= i < |nodes| reads nodes => (nodes[i].priority, nodes[i]))
  }

  function NodesOf(jobs: seq<Job<Node>>): (nodes: seq<Node>)
    ensures |nodes| == |jobs| && forall i :: 0 <= i < |jobs| ==> nodes[i] == jobs[i].1
  {
    seq(|jobs|, i requires 0 <= i < |jobs| => jobs[i].1)
  }

  /** The lanes without the priorities. */
  function LanesOf(q: Lanes<Job<Node>>): Lanes<Node>
  {
    [NodesOf(q[LOW]), NodesOf(q[MEDIUM]), NodesOf(q[HIGH])]
  }

  lemma LanesOfPush(q: Lanes<Job<Node>>, x: Job<Node>)
    ensures LanesOf(Push(q, x.0, x)) == Push(LanesOf(q), x.0, x.1)
  {
    assert NodesOf(q[x.0] + [x]) == NodesOf(q[x.0]) + [x.1];
  }

  lemma OrderOfLanes(q: Lanes<Job<Node>>)
    ensures Order(LanesOf(q)) == NodesOf(Order(q))
  {
  }

  ghost predicate Drawn(lanes: Lanes<Node>, nodes: seq<Node>)
  {
    forall p, k :: 0 <= p < NUM_PRIORITIES && 0 <= k < |lanes[p]| ==> lanes[p][k] in nodes
  }

  ghost predicate Distinct(nodes: seq<Node>)
  {
    forall i, j :: 0 <= i < j < |nodes| ==> nodes[i] != nodes[j]
  }

  lemma NotDrawnYet(lanes: Lanes<Node>, nodes: seq<Node>, i: nat, p: Priority)
    requires i < |nodes| && Distinct(nodes) && Drawn(lanes, nodes[..i])
    ensures forall m :: i <= m < |nodes| ==> nodes[m] !in lanes[p]
    ensures Drawn(Push(lanes, p, nodes[i]), nodes[..i + 1])
  {
  }

  /** Push one node; nodes that are not queued keep their priorities. */
  method InsertFresh(q: Queue, node: Node, ghost later: seq<Node>)
    requires q.Valid() && node !in q.lanes[node.priority]
    requires forall k :: 0 <= k < |later| ==> later[k] != node && later[k] !in q.lanes[node.priority]
    modifies q`readyMask, q`size, q`depth, q`lanes, q.heads, q.tails, q.lanes[node.priority], node
    ensures q.Valid() && q.lanes == Push(old(q.lanes), old(node.priority), node)
    ensures forall k :: 0 <= k < |later| ==> later[k].priority == old(later[k].priority)
  {
    q.Insert(node);
  }

  lemma PushesNext(nodes: seq<Node>, jobs: seq<Job<Node>>, i: nat)
    requires |jobs| == |nodes| && i < |nodes| && jobs[i].1 == nodes[i]
    ensures LanesOf(PushAll(jobs[..i + 1])) == Push(LanesOf(PushAll(jobs[..i])), jobs[i].0, nodes[i])
  {
    assert jobs[..i + 1][..i] == jobs[..i];
    LanesOfPush(PushAll(jobs[..i]), jobs[i]);
  }

  /** Push node i, the nodes before it being queued already. */
  method InsertNext(q: Queue, nodes: seq<Node>, ghost jobs: seq<Job<Node>>, i: nat)
    requires |jobs| == |nodes| && i < |nodes| && Distinct(nodes)
    requires q.Valid() && Drawn(q.lanes, nodes[..i]) && q.lanes == LanesOf(PushAll(jobs[..i]))
    requires forall k :: i <= k < |nodes| ==> jobs[k] == (nodes[k].priority, nodes[k])
    modifies q`readyMask, q`size, q`depth, q`lanes, q.heads, q.tails, nodes
    ensures q.Valid() && Drawn(q.lanes, nodes[..i + 1]) && q.lanes == LanesOf(PushAll(jobs[..i + 1]))
    ensures forall k :: i < k < |nodes| ==> jobs[k] == (nodes[k].priority, nodes[k])
  {
    PushesNext(nodes, jobs, i);
    NotDrawnYet(q.lanes, nodes, i, nodes[i].priority);
    ghost var later := nodes[i + 1..];
    assert forall k :: i < k < |nodes| ==> nodes[k] == later[k - i - 1];
    InsertFresh(q, nodes[i], later);
  }

  /** Push distinct nodes, from number i on, one after the other. */
  method InsertAll(q: Queue, nodes: seq<Node>, ghost jobs: seq<Job<Node>>, i: nat)
    requires |jobs| == |nodes| && i <= |nodes| && Distinct(nodes)
    requires q.Valid() && Drawn(q.lanes, nodes[..i]) && q.lanes == LanesOf(PushAll(jobs[..i]))
    requires forall k :: i <= k < |nodes| ==> jobs[k] == (nodes[k].priority, nodes[k])
    modifies q`readyMask, q`size, q`depth, q`lanes, q.heads, q.tails, nodes
    ensures q.Valid() && Drawn(q.lanes, nodes) && q.lanes == LanesOf(PushAll(jobs))
    decreases |nodes| - i
  {
    if i < |nodes| {
      InsertNext(q, nodes, jobs, i);
      InsertAll(q, nodes, jobs, i + 1);
    } else {
      assert nodes[..i] == nodes && jobs[..i] == jobs;
    }
  }

  lemma RestDrawn(lanes: Lanes<Node>, nodes: seq<Node>)
    requires Size(lanes) > 0 && Drawn(lanes, nodes)
    ensures Drawn(Rest(lanes), nodes)
  {
  }

  method Next(q: Queue, ghost nodes: seq<Node>) returns (node: Node?)
    requires q.Valid() && Drawn(q.lanes, nodes)
    modifies q`readyMask, q`size, q`depth, q`lanes, q.heads, q.tails, nodes
    ensures q.Valid() && Drawn(q.lanes, nodes)
    ensures node == null ==> Size(old(q.lanes)) == 0 && q.lanes == old(q.lanes)
    ensures node != null ==> Order(old(q.lanes)) == [node] + Order(q.lanes) && Size(q.lanes) < Size(old(q.lanes))
  {
    if Size(q.lanes) > 0 {
      PopServesInOrder(q.lanes);
      RestDrawn(q.lanes, nodes);
    }
    node := q.PopNonblock();
  }

  /** Pop until the queue returns null. */
  method PopAll(q: Queue, ghost nodes: seq<Node>) returns (served: seq<Node>)
    requires q.Valid() && Drawn(q.lanes, nodes)
    modifies q`readyMask, q`size, q`depth, q`lanes, q.heads, q.tails, nodes
    ensures q.Valid() && Size(q.lanes) == 0 && served == Order(old(q.lanes))
    decreases Size(q.lanes)
  {
    var node := Next(q, nodes);
    if node == null {
      return [];
    }
    var rest := PopAll(q, nodes);
    served := [node] + rest;
  }

  /** A batch of nodes leaves the queue as the stable sort of the batch by descending priority. */
  method ServeBatch(q: Queue, nodes: seq<Node>) returns (served: seq<Node>)
    requires q.Valid() && q.lanes == Empty()
    requires Distinct(nodes)
    modifies q`readyMask, q`size, q`depth, q`lanes, q.heads, q.tails, nodes
    ensures q.Valid() && Size(q.lanes) == 0
    ensures served == NodesOf(StableSort(old(JobsOf(nodes))))
  {
    ghost var jobs := JobsOf(nodes);
    InsertAll(q, nodes, jobs, 0);
    served := PopAll(q, nodes);
    OrderOfLanes(PushAll(jobs));
    DrainIsOrder(PushAll(jobs));
    StableOrder(jobs);
  }
}
