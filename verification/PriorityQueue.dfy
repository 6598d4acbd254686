/**
 * The intrusive linked-list queue: three FIFO lanes with head and tail pointers, a ready mask, a
 * size and its lock-free mirror.  Each method is one region executed under the queue's mutex.
 */
module PriorityQueue {
  import opened Deadline
  import opened PriorityLanes
  import opened Aging
  import opened Bitmask

  /** A task node; its id and submit time are fixed before it is pushed. */
  class Node {
    const task: Task
    var priority: Priority
    var next: Node?

    constructor (task: Task, priority: Priority)
      ensures this.task == task && this.priority == priority && next == null
    {
      this.task := task;
      this.priority := priority;
      next := null;
    }
  }

  function Tasks(s: seq<Node>): (r: seq<Task>)
    ensures |r| == |s| && forall i :: 0 <= i < |s| ==> r[i] == s[i].task
  {
    seq(|s|, i requires 0 <= i < |s| => s[i].task)
  }

  /** The k-th node of s, or `end` behind the last one. */
  function NodeAt(s: seq<Node>, k: nat, end: Node?): Node?
  {
    if k < |s| then s[k] else end
  }

  /** The nodes of s are linked in order, the last one to `end`. */
  ghost predicate Linked(s: seq<Node>, end: Node?)
    reads s
  {
    forall i :: 0 <= i < |s| ==> s[i].next == NodeAt(s, i + 1, end)
  }

  /** A lane: linked in order from head to tail, without repetition, every node tagged with the lane. */
  ghost predicate LaneValid(s: seq<Node>, p: Priority, head: Node?, tail: Node?)
    reads s
  {
    && Linked(s, null)
    && (forall i :: 0 <= i < |s| ==> s[i].priority == p)
    && (forall i, j :: 0 <= i < j < |s| ==> s[i] != s[j])
    && head == (if s == [] then null else s[0])
    && tail == (if s == [] then null else s[|s| - 1])
  }

  /** Link a node behind the tail of a lane. */
  method LinkLast(ghost s: seq<Node>, ghost p: Priority, head: Node?, tail: Node?, node: Node)
    returns (head': Node, tail': Node)
    requires LaneValid(s, p, head, tail) && node !in s && node.priority == p
    modifies node`next, (if tail == null then {} else {tail})`next
    ensures LaneValid(s + [node], p, head', tail')
  {
    node.next := null;
    if tail == null {
      head', tail' := node, node;
    } else {
      tail.next := node;
      head', tail' := head, node;
    }
  }

  /** Unlink the head of a lane. */
  method UnlinkFirst(ghost s: seq<Node>, ghost p: Priority, head: Node, tail: Node?)
    returns (head': Node?, tail': Node?)
    requires LaneValid(s, p, head, tail)
    modifies head`next
    ensures LaneValid(s[1..], p, head', tail') && head.next == null && head !in s[1..]
  {
    ghost var r := s[1..];
    assert forall i :: 0 <= i < |r| ==> r[i] == s[i + 1] && r[i] != s[0];
    assert Linked(r, null);
    head' := head.next;
    tail' := if head' == null then null else tail;
    head.next := null;
  }

  /** Walk from the head of a lane while the next task is eligible: `prefix_tail` of the source. */
  method FindPrefixTail(ghost s: seq<Node>, head: Node, now: Timespec, ms: int) returns (tail: Node, ghost n: nat)
    requires Linked(s, null) && s != [] && head == s[0] && Eligible(head.task, now, ms)
    ensures 1 <= n <= |s| && tail == s[n - 1] && n == EligiblePrefix(Tasks(s), now, ms)
  {
    tail, n := head, 1;
    while tail.next != null && Eligible(tail.next.task, now, ms)
      invariant 1 <= n <= |s| && tail == s[n - 1]
      invariant forall i :: 0 <= i < n ==> Eligible(s[i].task, now, ms)
      decreases |s| - n
    {
      tail, n := tail.next, n + 1;
    }
    EligibleFront(Tasks(s), now, ms, n - 1);
  }

  /** Tag the nodes from head to tail with the lane they move to. */
  method Retag(ghost s: seq<Node>, ghost src: Priority, head: Node, tail: Node, dst: Priority)
    requires Segment(s, src, head, tail)
    modifies s`priority
    ensures Segment(s, dst, head, tail)
  {
    var node := head;
    ghost var k := 0;
    while true
      invariant k < |s| && node == s[k]
      invariant forall i :: 0 <= i < k ==> s[i].priority == dst
      decreases |s| - k
    {
      node.priority := dst;
      if node == tail {
        break;
      }
      node, k := node.next, k + 1;
    }
  }

  /** Nodes linked in order from head to tail and tagged p, wherever the tail points. */
  ghost predicate Segment(s: seq<Node>, p: Priority, head: Node, tail: Node)
    reads s
  {
    Chain(s, head, tail) && forall i :: 0 <= i < |s| ==> s[i].priority == p
  }

  ghost predicate Chain(s: seq<Node>, head: Node, tail: Node)
    reads s`next
  {
    && s != [] && head == s[0] && tail == s[|s| - 1]
    && (forall i, j :: 0 <= i < j < |s| ==> s[i] != s[j])
    && (forall i :: 0 <= i < |s| - 1 ==> s[i].next == NodeAt(s, i + 1, null))
  }

  ghost predicate Apart(a: seq<Node>, b: seq<Node>)
  {
    forall i, j :: 0 <= i < |a| && 0 <= j < |b| ==> a[i] != b[j]
  }

  lemma JoinLinked(s: seq<Node>, d: seq<Node>)
    requires s != [] && Linked(d, null)
    requires forall i :: 0 <= i < |s| - 1 ==> s[i].next == NodeAt(s, i + 1, null)
    requires s[|s| - 1].next == NodeAt(d, 0, null)
    ensures Linked(s + d, null)
  {
    var r := s + d;
    forall i | 0 <= i < |r| ensures r[i].next == NodeAt(r, i + 1, null) {
      if i >= |s| {
        assert r[i] == d[i - |s|];
      } else {
        assert r[i] == s[i];
      }
    }
  }

  lemma JoinDistinct(s: seq<Node>, d: seq<Node>)
    requires forall i, j :: 0 <= i < j < |s| ==> s[i] != s[j]
    requires forall i, j :: 0 <= i < j < |d| ==> d[i] != d[j]
    requires Apart(s, d)
    ensures forall i, j :: 0 <= i < j < |s + d| ==> (s + d)[i] != (s + d)[j]
  {
    var r := s + d;
    forall i, j | 0 <= i < j < |r| ensures r[i] != r[j] {
      if j >= |s| {
        assert r[j] == d[j - |s|];
      }
      if i >= |s| {
        assert r[i] == d[i - |s|];
      } else {
        assert r[i] == s[i];
      }
    }
  }

  /** Link a segment in front of a lane of the same priority. */
  method LinkFirst(ghost s: seq<Node>, ghost d: seq<Node>, ghost p: Priority, head: Node, tail: Node,
                   dstHead: Node?, dstTail: Node?) returns (dstTail': Node)
    requires Segment(s, p, head, tail) && LaneValid(d, p, dstHead, dstTail)
    requires Apart(s, d)
    modifies tail`next
    ensures LaneValid(s + d, p, head, dstTail')
  {
    tail.next := dstHead;
    dstTail' := if dstTail == null then tail else dstTail;
    JoinLinked(s, d);
    JoinDistinct(s, d);
  }

  lemma SplitLane(s: seq<Node>, n: nat, p: Priority, head: Node, tail: Node?)
    requires LaneValid(s, p, head, tail) && 1 <= n <= |s|
    ensures Segment(s[..n], p, head, s[n - 1])
    ensures LaneValid(s[n..], p, s[n - 1].next, if n == |s| then null else tail)
    ensures Apart(s[..n], s[n..])
  {
    var moved, kept := s[..n], s[n..];
    assert forall i :: 0 <= i < |kept| ==> kept[i] == s[n + i];
    assert forall i :: 0 <= i < n ==> moved[i] == s[i];
    assert s[n - 1].next == NodeAt(s, n, null);
  }

  /** Move the segment from head to tail off lane src and in front of lane src + 1. */
  method Splice(ghost moved: seq<Node>, ghost kept: seq<Node>, ghost d: seq<Node>, src: Priority,
                head: Node, tail: Node, srcTail: Node?, dstHead: Node?, dstTail: Node?)
    returns (srcHead': Node?, srcTail': Node?, dstTail': Node)
    requires src < HIGH && Segment(moved, src, head, tail)
    requires LaneValid(kept, src, tail.next, if kept == [] then null else srcTail)
    requires LaneValid(d, src + 1, dstHead, dstTail)
    requires Apart(moved, kept)
    modifies moved
    ensures LaneValid(kept, src, srcHead', srcTail')
    ensures LaneValid(moved + d, src + 1, head, dstTail')
  {
    assert Apart(moved, d);
    srcHead' := tail.next;
    srcTail' := if srcHead' == null then null else srcTail;
    assert LaneValid(kept, src, srcHead', srcTail');
    Retag(moved, src, head, tail, src + 1);
    assert LaneValid(kept, src, srcHead', srcTail') && LaneValid(d, src + 1, dstHead, dstTail);
    dstTail' := LinkFirst(moved, d, src + 1, head, tail, dstHead, dstTail);
  }

  /** A lane of another priority is left alone. */
  method SpliceBeside(ghost moved: seq<Node>, ghost kept: seq<Node>, ghost d: seq<Node>, ghost rest: seq<Node>,
                      src: Priority, ghost p: Priority, head: Node, tail: Node, srcTail: Node?, dstHead: Node?,
                      dstTail: Node?, ghost restHead: Node?, ghost restTail: Node?)
    returns (srcHead': Node?, srcTail': Node?, dstTail': Node)
    requires src < HIGH && p != src && Segment(moved, src, head, tail) && Apart(moved, kept)
    requires LaneValid(kept, src, tail.next, if kept == [] then null else srcTail)
    requires LaneValid(d, src + 1, dstHead, dstTail) && LaneValid(rest, p, restHead, restTail)
    modifies moved
    ensures LaneValid(kept, src, srcHead', srcTail') && LaneValid(rest, p, restHead, restTail)
    ensures LaneValid(moved + d, src + 1, head, dstTail')
  {
    assert Apart(moved, rest);
    srcHead', srcTail', dstTail' := Splice(moved, kept, d, src, head, tail, srcTail, dstHead, dstTail);
  }

  /** Bit p of the mask is set exactly when lane p is not empty. */
  ghost predicate MaskValid(mask: bv32, lanes: Lanes<Node>)
  {
    && mask < 8
    && (HasBit(mask, LOW) <==> lanes[LOW] != [])
    && (HasBit(mask, MEDIUM) <==> lanes[MEDIUM] != [])
    && (HasBit(mask, HIGH) <==> lanes[HIGH] != [])
  }

  lemma SetKeepsMask(mask: bv32, lanes: Lanes<Node>, p: Priority, s: seq<Node>)
    requires MaskValid(mask, lanes) && s != []
    ensures MaskValid(SetBit(mask, p), lanes[p := s])
  {
    SetBitSetsOne(mask, p, LOW);
    SetBitSetsOne(mask, p, MEDIUM);
    SetBitSetsOne(mask, p, HIGH);
  }

  lemma ClearKeepsMask(mask: bv32, lanes: Lanes<Node>, p: Priority)
    requires MaskValid(mask, lanes)
    ensures MaskValid(ClearBit(mask, p), lanes[p := []])
  {
    ClearBitClearsOne(mask, p, LOW);
    ClearBitClearsOne(mask, p, MEDIUM);
    ClearBitClearsOne(mask, p, HIGH);
  }

  function ViewOf(lanes: Lanes<Node>): Lanes<Task>
  {
    [Tasks(lanes[LOW]), Tasks(lanes[MEDIUM]), Tasks(lanes[HIGH])]
  }

  lemma ViewOfPush(lanes: Lanes<Node>, p: Priority, node: Node)
    ensures ViewOf(Push(lanes, p, node)) == Push(ViewOf(lanes), p, node.task)
  {
    assert Tasks(lanes[p] + [node]) == Tasks(lanes[p]) + [node.task];
  }

  lemma ViewOfRest(lanes: Lanes<Node>)
    requires Size(lanes) > 0
    ensures Size(ViewOf(lanes)) == Size(lanes) && Top(ViewOf(lanes)) == Top(lanes)
    ensures ViewOf(Rest(lanes)) == Rest(ViewOf(lanes)) && Head(lanes).task == Head(ViewOf(lanes))
  {
    assert Tasks(lanes[Top(lanes)][1..]) == Tasks(lanes[Top(lanes)])[1..];
  }

  lemma ViewOfPromote(lanes: Lanes<Node>, src: Priority, n: nat)
    requires src < HIGH && n <= |lanes[src]|
    ensures ViewOf(Promote(lanes, src, n)) == Promote(ViewOf(lanes), src, n)
  {
    var s, d := lanes[src], lanes[src + 1];
    assert Tasks(s[..n] + d) == Tasks(s)[..n] + Tasks(d);
    assert Tasks(s[n..]) == Tasks(s)[n..];
  }

  /** The lane the mask selects is the highest non-empty one. */
  lemma MaskFindsTop(mask: bv32, lanes: Lanes<Node>)
    requires MaskValid(mask, lanes)
    ensures mask == 0 <==> Size(lanes) == 0
    ensures mask != 0 ==> HighestPriority(mask) == Top(lanes)
  {
    ZeroMask(mask);
    if mask != 0 {
      HighestPriorityIsTopBit(mask);
      HighestPriorityIsLane(mask);
    }
  }

  class Queue {
    var heads: array<Node?>
    var tails: array<Node?>
    var readyMask: bv32
    var size: nat
    var depth: nat
    var maxTasks: nat
    ghost var lanes: Lanes<Node>

    /** Every lane other than the excepted one is linked as the ghost lanes say. */
    ghost predicate LanesValid(except: set<Priority>)
      reads this, heads, tails, lanes[LOW], lanes[MEDIUM], lanes[HIGH]
    {
      && heads != tails && heads.Length == tails.Length == NUM_PRIORITIES
      && (forall p {:trigger lanes[p]} :: 0 <= p < NUM_PRIORITIES && p !in except ==>
            LaneValid(lanes[p], p, heads[p], tails[p]))
    }

    ghost predicate Valid()
      reads this, heads, tails, lanes[LOW], lanes[MEDIUM], lanes[HIGH]
    {
      LanesValid({}) && MaskValid(readyMask, lanes) && size == depth == Size(lanes)
    }

    /** The abstract queue. */
    ghost function View(): Lanes<Task>
      reads this
    {
      ViewOf(lanes)
    }

    constructor ()
      ensures Valid() && View() == Empty() && maxTasks == 0
      ensures fresh(heads) && fresh(tails)
    {
      heads := new Node?[NUM_PRIORITIES](_ => null);
      tails := new Node?[NUM_PRIORITIES](_ => null);
      readyMask, size, depth, maxTasks := 0, 0, 0, 0;
      lanes := Empty();
      new;
      ZeroMask(0);
    }

    /** Write the head and tail pointers of lane p and the mask; `todo` are the lanes in transit. */
    method Rewire(p: Priority, ghost todo: set<Priority>, ghost s: seq<Node>, head: Node?, tail: Node?, mask: bv32)
      requires LanesValid(todo) && p in todo && LaneValid(s, p, head, tail) && MaskValid(mask, lanes[p := s])
      modifies `readyMask, `lanes, heads, tails
      ensures LanesValid(todo - {p}) && MaskValid(readyMask, lanes) && lanes == old(lanes)[p := s]
      ensures forall r: Priority :: r != p ==> heads[r] == old(heads[r]) && tails[r] == old(tails[r])
    {
      heads[p], tails[p] := head, tail;
      readyMask, lanes := mask, lanes[p := s];
      forall r: Priority | r !in todo - {p} ensures LaneValid(lanes[r], r, heads[r], tails[r]) {
        if r != p {
          assert heads[r] == old(heads[r]) && tails[r] == old(tails[r]) && lanes[r] == old(lanes)[r];
        }
      }
    }

    /** Append a node to the lane of its priority. */
    method Insert(node: Node)
      requires Valid() && node !in lanes[node.priority]
      modifies `readyMask, `size, `depth, `lanes, heads, tails, lanes[node.priority], node
      ensures Valid()
      ensures node.priority == old(node.priority)
      ensures lanes == Push(old(lanes), node.priority, node)
      ensures View() == Push(old(View()), node.priority, node.task)
    {
      var p := node.priority;
      var head, tail := LinkTail(p, node);
      InsertLinked(p, node, head, tail);
    }

    /** The other lanes hold neither the node nor the tail. */
    method LinkTail(p: Priority, node: Node) returns (head: Node, tail: Node)
      requires LanesValid({}) && node.priority == p && node !in lanes[p]
      modifies lanes[p]`next, node`next
      ensures LanesValid({p}) && LaneValid(lanes[p] + [node], p, head, tail)
    {
      assert LaneValid(lanes[p], p, heads[p], tails[p]);
      head, tail := LinkLast(lanes[p], p, heads[p], tails[p], node);
    }

    method InsertLinked(p: Priority, node: Node, head: Node, tail: Node)
      requires LanesValid({p}) && LaneValid(lanes[p] + [node], p, head, tail)
      requires MaskValid(readyMask, lanes) && size == depth == Size(lanes)
      modifies `readyMask, `size, `depth, `lanes, heads, tails
      ensures Valid()
      ensures lanes == Push(old(lanes), p, node)
      ensures View() == Push(old(View()), p, node.task)
    {
      SetKeepsMask(readyMask, lanes, p, lanes[p] + [node]);
      ViewOfPush(lanes, p, node);
      Rewire(p, {p}, lanes[p] + [node], head, tail, SetBit(readyMask, p));
      size := size + 1;
      depth := depth + 1;
    }

    /** Take the head of a non-empty lane. */
    method PopLocked(p: Priority) returns (node: Node)
      requires Valid() && lanes[p] != []
      modifies `readyMask, `size, `depth, `lanes, heads, tails, lanes[p]
      ensures Valid()
      ensures node == old(lanes)[p][0] && node.next == null && node.priority == p && node !in lanes[p]
      ensures lanes == old(lanes)[p := old(lanes)[p][1..]]
    {
      node := heads[p];
      var head, tail := UnlinkFirst(lanes[p], p, node, tails[p]);
      PopUnlinked(p, head, tail);
    }

    method PopUnlinked(p: Priority, head: Node?, tail: Node?)
      requires LanesValid({p}) && lanes[p] != [] && LaneValid(lanes[p][1..], p, head, tail)
      requires MaskValid(readyMask, lanes) && size == depth == Size(lanes)
      modifies `readyMask, `size, `depth, `lanes, heads, tails
      ensures Valid()
      ensures lanes == old(lanes)[p := old(lanes)[p][1..]]
    {
      DropFirst(p, head, tail);
      size := size - 1;
      depth := depth - 1;
    }

    method DropFirst(p: Priority, head: Node?, tail: Node?)
      requires LanesValid({p}) && lanes[p] != [] && LaneValid(lanes[p][1..], p, head, tail)
      requires MaskValid(readyMask, lanes)
      modifies `readyMask, `lanes, heads, tails
      ensures LanesValid({}) && MaskValid(readyMask, lanes) && lanes == old(lanes)[p := old(lanes)[p][1..]]
    {
      var mask := readyMask;
      if head == null {
        ClearKeepsMask(readyMask, lanes, p);
        mask := ClearBit(readyMask, p);
      }
      Rewire(p, {p}, lanes[p][1..], head, tail, mask);
    }

    /** Bounded push: refused exactly when a cap is set and reached. */
    method TryPush(node: Node) returns (ok: bool)
      requires Valid() && node !in lanes[node.priority]
      modifies `readyMask, `size, `depth, `lanes, heads, tails, lanes[node.priority], node
      ensures Valid()
      ensures ok <==> maxTasks == 0 || Size(old(View())) < maxTasks
      ensures node.priority == old(node.priority)
      ensures View() == if ok then Push(old(View()), node.priority, node.task) else old(View())
      ensures lanes == if ok then Push(old(lanes), node.priority, node) else old(lanes)
    {
      if maxTasks != 0 && size >= maxTasks {
        return false;
      }
      Insert(node);
      return true;
    }

    method SetMaxTasks(max: nat)
      requires Valid()
      modifies this`maxTasks
      ensures Valid() && maxTasks == max && View() == old(View())
    {
      maxTasks := max;
    }

    /** The lock-free pre-check reads the mirror and agrees with the authoritative check. */
    method IsFullApprox() returns (full: bool)
      requires Valid()
      ensures full <==> maxTasks != 0 && Size(View()) >= maxTasks
    {
      full := maxTasks != 0 && depth >= maxTasks;
    }

    method IsEmpty() returns (empty: bool)
      requires Valid()
      ensures empty <==> Order(View()) == []
    {
      MaskFindsTop(readyMask, lanes);
      empty := readyMask == 0;
    }

    /** Take the head of the lane that the mask selects. */
    method PopNonblock() returns (node: Node?)
      requires Valid()
      modifies `readyMask, `size, `depth, `lanes, heads, tails, lanes[LOW], lanes[MEDIUM], lanes[HIGH]
      ensures Valid()
      ensures node == null <==> Size(old(View())) == 0
      ensures node == null ==> lanes == old(lanes)
      ensures node != null ==> node.next == null && node == Head(old(lanes)) && node.task == Head(old(View()))
      ensures node != null ==> lanes == Rest(old(lanes)) && View() == Rest(old(View()))
    {
      MaskFindsTop(readyMask, lanes);
      if readyMask == 0 {
        return null;
      }
      ViewOfRest(lanes);
      node := PopLocked(HighestPriority(readyMask));
    }

    lemma NothingDue(src: Priority, now: Timespec, ms: int)
      requires Valid() && src < HIGH && (heads[src] == null || !Eligible(heads[src].task, now, ms))
      ensures EligiblePrefix(View()[src], now, ms) == 0
      ensures lanes == Promote(lanes, src, 0) && View() == Promote(View(), src, 0)
    {
      PromoteNothing(lanes, src);
      PromoteNothing(View(), src);
    }

    /** Promote the eligible prefix of lane src; `shutdown` is the flag as read before locking. */
    method PromotePrefix(src: Priority, now: Timespec, ms: int, shutdown: bool) returns (moved: bool)
      requires Valid() && src < HIGH
      modifies `readyMask, `size, `depth, `lanes, heads, tails, lanes[src]
      ensures Valid()
      ensures shutdown ==> !moved && lanes == old(lanes)
      ensures !shutdown ==>
                var n := EligiblePrefix(old(View())[src], now, ms);
                && (moved <==> n > 0)
                && lanes == Promote(old(lanes), src, n)
                && View() == Promote(old(View()), src, n)
    {
      if shutdown {
        return false;
      }
      var head := heads[src];
      if head == null || !Eligible(head.task, now, ms) {
        NothingDue(src, now, ms);
        return false;
      }
      PromoteHead(src, head, now, ms);
      return true;
    }

    method PromoteHead(src: Priority, head: Node, now: Timespec, ms: int)
      requires Valid() && src < HIGH && lanes[src] != [] && head == lanes[src][0] && Eligible(head.task, now, ms)
      modifies `readyMask, `lanes, heads, tails, lanes[src]
      ensures Valid()
      ensures var n := EligiblePrefix(old(View())[src], now, ms);
              n > 0 && lanes == Promote(old(lanes), src, n) && View() == Promote(old(View()), src, n)
    {
      var tail: Node;
      ghost var n: nat;
      tail, n := FindPrefixTail(lanes[src], head, now, ms);
      ViewOfPromote(lanes, src, n);
      MovePrefix(src, n, head, tail);
    }

    method MovePrefix(src: Priority, ghost n: nat, head: Node, tail: Node)
      requires Valid() && src < HIGH && 1 <= n <= |lanes[src]|
      requires head == lanes[src][0] && tail == lanes[src][n - 1]
      modifies `readyMask, `lanes, heads, tails, lanes[src]
      ensures Valid() && lanes == Promote(old(lanes), src, n)
    {
      ghost var moved, kept := lanes[src][..n], lanes[src][n..];
      SplitLane(lanes[src], n, src, head, tails[src]);
      MoveSegment(src, moved, kept, head, tail);
    }

    method MoveSegment(src: Priority, ghost moved: seq<Node>, ghost kept: seq<Node>, head: Node, tail: Node)
      requires Valid() && src < HIGH && lanes[src] == moved + kept && Apart(moved, kept)
      requires Segment(moved, src, head, tail)
      requires LaneValid(kept, src, tail.next, if kept == [] then null else tails[src])
      modifies `readyMask, `lanes, heads, tails, moved
      ensures Valid() && lanes == Promote(old(lanes), src, |moved|)
    {
      var srcHead, srcTail, dstTail := SpliceLanes(src, moved, kept, head, tail);
      FinishMove(src, moved, kept, head, srcHead, srcTail, dstTail);
    }

    /** The third lane shares no node with the segment. */
    method SpliceLanes(src: Priority, ghost moved: seq<Node>, ghost kept: seq<Node>, head: Node, tail: Node)
      returns (srcHead: Node?, srcTail: Node?, dstTail: Node)
      requires LanesValid({}) && src < HIGH && Apart(moved, kept) && Segment(moved, src, head, tail)
      requires LaneValid(kept, src, tail.next, if kept == [] then null else tails[src])
      modifies moved
      ensures LanesValid({src, src + 1}) && LaneValid(kept, src, srcHead, srcTail)
      ensures LaneValid(moved + lanes[src + 1], src + 1, head, dstTail)
    {
      ghost var third: Priority := if src == LOW then HIGH else LOW;
      ghost var rest := lanes[third];
      assert LaneValid(rest, third, heads[third], tails[third]);
      assert LaneValid(lanes[src + 1], src + 1, heads[src + 1], tails[src + 1]);
      srcHead, srcTail, dstTail := SpliceBeside(moved, kept, lanes[src + 1], rest, src, third, head, tail,
                                                tails[src], heads[src + 1], tails[src + 1], heads[third], tails[third]);
    }

    method FinishMove(src: Priority, ghost moved: seq<Node>, ghost kept: seq<Node>, dstHead: Node,
                      srcHead: Node?, srcTail: Node?, dstTail: Node)
      requires src < HIGH && lanes[src] == moved + kept && moved != [] && LanesValid({src, src + 1})
      requires LaneValid(kept, src, srcHead, srcTail)
      requires LaneValid(moved + lanes[src + 1], src + 1, dstHead, dstTail)
      requires MaskValid(readyMask, lanes) && size == depth == Size(lanes)
      modifies `readyMask, `lanes, heads, tails
      ensures Valid() && lanes == Promote(old(lanes), src, |moved|)
    {
      PromoteByLanes(lanes, src, moved, kept);
      Relane(src, kept, moved + lanes[src + 1], dstHead, srcHead, srcTail, dstTail);
    }

    /** Both lanes get their new heads and tails. */
    method Relane(src: Priority, ghost kept: seq<Node>, ghost over: seq<Node>, dstHead: Node,
                  srcHead: Node?, srcTail: Node?, dstTail: Node)
      requires src < HIGH && LanesValid({src, src + 1}) && MaskValid(readyMask, lanes)
      requires LaneValid(kept, src, srcHead, srcTail) && (kept != [] ==> lanes[src] != [])
      requires LaneValid(over, src + 1, dstHead, dstTail) && over != []
      modifies `readyMask, `lanes, heads, tails
      ensures LanesValid({}) && MaskValid(readyMask, lanes) && lanes == old(lanes)[src := kept][src + 1 := over]
    {
      DropPrefix(src, kept, srcHead, srcTail);
      PutFront(src + 1, over, dstHead, dstTail);
    }

    method PutFront(dst: Priority, ghost over: seq<Node>, head: Node, tail: Node)
      requires LanesValid({dst}) && LaneValid(over, dst, head, tail) && over != [] && MaskValid(readyMask, lanes)
      modifies `readyMask, `lanes, heads, tails
      ensures LanesValid({}) && MaskValid(readyMask, lanes) && lanes == old(lanes)[dst := over]
    {
      SetKeepsMask(readyMask, lanes, dst, over);
      Rewire(dst, {dst}, over, head, tail, SetBit(readyMask, dst));
    }

    method DropPrefix(src: Priority, ghost kept: seq<Node>, head: Node?, tail: Node?)
      requires src < HIGH && LanesValid({src, src + 1})
      requires LaneValid(kept, src, head, tail) && (kept != [] ==> lanes[src] != [])
      requires MaskValid(readyMask, lanes)
      modifies `readyMask, `lanes, heads, tails
      ensures LanesValid({src + 1}) && MaskValid(readyMask, lanes) && lanes == old(lanes)[src := kept]
    {
      var mask := readyMask;
      if head == null {
        ClearKeepsMask(readyMask, lanes, src);
        mask := ClearBit(readyMask, src);
      }
      Rewire(src, {src, src + 1}, kept, head, tail, mask);
    }

    /**
     * One aging pass: MEDIUM to HIGH, then LOW to MEDIUM.  The clock is read once per half, and the
     * shutdown flag before each half and in between.
     */
    method AgingPass(ms: int, now1: Timespec, now2: Timespec, stop1: bool, stop2: bool, stop3: bool)
      requires Valid()
      modifies `readyMask, `size, `depth, `lanes, heads, tails, lanes[LOW], lanes[MEDIUM], lanes[HIGH]
      ensures Valid()
      ensures View() == PassOver(old(View()), now1, now2, ms, stop1, stop2, stop3)
    {
      var _ := PromotePrefix(MEDIUM, now1, ms, stop1);
      if stop2 {
        return;
      }
      var _ := PromotePrefix(LOW, now2, ms, stop3);
    }

    /** Empty the queue, releasing every node exactly once, lane by lane from LOW to HIGH. */
    method Destroy() returns (freed: seq<Node>)
      requires Valid()
      modifies `readyMask, `size, `depth, `lanes, heads, tails
      ensures Valid() && View() == Empty()
      ensures freed == old(lanes)[LOW] + old(lanes)[MEDIUM] + old(lanes)[HIGH]
    {
      freed := [];
      var low := Walk(lanes[LOW], heads[LOW]);
      var medium := Walk(lanes[MEDIUM], heads[MEDIUM]);
      var high := Walk(lanes[HIGH], heads[HIGH]);
      freed := low + medium + high;
      Reset();
    }

    method Reset()
      requires heads != tails && heads.Length == tails.Length == NUM_PRIORITIES
      modifies `readyMask, `size, `depth, `lanes, heads, tails
      ensures Valid() && View() == Empty()
    {
      for p := 0 to NUM_PRIORITIES
        invariant forall r :: 0 <= r < p ==> heads[r] == null && tails[r] == null
      {
        heads[p], tails[p] := null, null;
      }
      readyMask, size, depth, lanes := 0, 0, 0, Empty();
      ZeroMask(0);
    }
  }

  /** The nodes met by following `next` from the head of a lane. */
  method Walk(ghost s: seq<Node>, head: Node?) returns (met: seq<Node>)
    requires Linked(s, null) && head == NodeAt(s, 0, null)
    ensures met == s
  {
    var curr := head;
    met := [];
    while curr != null
      invariant |met| <= |s| && met == s[..|met|] && curr == NodeAt(s, |met|, null)
      decreases |s| - |met|
    {
      var next := curr.next;
      met := met + [curr];
      curr := next;
    }
  }
}
