/** The busy count of the workers and the queue-depth estimate built on it. */
module WorkerCount {
  import opened PriorityLanes
  import opened Counting
  import opened ThreadPool
  import opened PoolAccounts

  const UINT16 := 0x1_0000

  predicate IsBusy(b: bool)
  {
    b
  }

  /** worker_capacity_busy: a 16-bit counter over the first n workers, n itself being 16 bits wide. */
  method CapacityBusy(busy: array<bool>, n: nat) returns (count: nat)
    requires n <= busy.Length && n < UINT16
    ensures count == Count(IsBusy, busy[..n])
  {
    count := 0;
    for i := 0 to n
      invariant count == Count(IsBusy, busy[..i])
    {
      assert busy[..i + 1] == busy[..i] + [busy[i]];
      CountConcat(IsBusy, busy[..i], [busy[i]]);
      if busy[i] {
        count := (count + 1) % UINT16;
      }
    }
  }

  /** thread_pool_queue_depth, from one reading of the total and one busy count. */
  function QueueDepth(total: int, busyCount: nat): nat
  {
    if total <= busyCount then 0 else total - busyCount
  }

  /** The workers counted when the pool's 32-bit worker number is passed as 16 bits. */
  function CountedBusy(s: Pool): nat
    requires |s.busy| == |s.workers|
  {
    Count(IsBusy, s.busy[..|s.workers| % UINT16])
  }

  /** The busy flag is up exactly while the worker's task runs or has just run. */
  ghost predicate BusyExact(s: Pool)
  {
    && |s.busy| == |s.workers|
    && forall w :: 0 <= w < |s.workers| ==> (s.busy[w] <==> s.workers[w].Running? || s.workers[w].ClearBusy?)
  }

  lemma WorkKeepsBusy(s: Pool, w: nat, wake: nat)
    requires BusyExact(s) && w < |s.workers|
    ensures BusyExact(WorkStep(s, w, wake))
  {
  }

  lemma SubmitKeepsBusy(s: Pool, i: nat, p: Priority, wake: nat)
    requires BusyExact(s) && i < |s.submitters|
    ensures BusyExact(SubmitStep(s, i, p, wake))
  {
  }

  lemma DestroyKeepsBusy(s: Pool)
    requires BusyExact(s)
    ensures BusyExact(DestroyStep(s))
  {
  }

  lemma CallerKeepsBusy(s: Pool, a: Action)
    requires BusyExact(s) && (a.Control? || a.Wait?)
    ensures BusyExact(Step(s, a))
  {
  }

  lemma AgeKeepsBusy(s: Pool, n: nat)
    requires BusyExact(s)
    ensures BusyExact(AgeStep(s, n))
  {
    assert AgeStep(s, n).busy == s.busy;
  }

  lemma EventKeepsBusy(s: Pool, e: Event)
    requires BusyExact(s)
    ensures BusyExact(EventStep(s, e))
  {
  }

  lemma StepKeepsBusy(s: Pool, a: Action)
    requires BusyExact(s)
    ensures BusyExact(Step(s, a))
  {
    match a
    case Submit(i, p, wake) => if i < |s.submitters| { SubmitKeepsBusy(s, i, p, wake); }
    case Work(w, wake) => if w < |s.workers| { WorkKeepsBusy(s, w, wake); }
    case Control(_, _) => CallerKeepsBusy(s, a);
    case Wait(_) => CallerKeepsBusy(s, a);
    case Age(n) => AgeKeepsBusy(s, n);
    case Destroy => DestroyKeepsBusy(s);
    case Happen(e) => EventKeepsBusy(s, e);
  }

  /** A worker whose busy flag is up. */
  predicate Working(w: Worker)
  {
    w.Running? || w.ClearBusy?
  }

  /** A worker that holds a task with its flag down. */
  predicate Idling(w: Worker)
  {
    w.SetBusy? || w.Finish?
  }

  lemma {:induction false} BusyIsWorking(busy: seq<bool>, ws: seq<Worker>)
    requires |busy| == |ws| && forall w :: 0 <= w < |ws| ==> (busy[w] <==> Working(ws[w]))
    ensures Count(IsBusy, busy) == Count(Working, ws)
  {
    if ws != [] {
      assert forall w :: 0 <= w < |ws[1..]| ==> ws[1..][w] == ws[1 + w] && busy[1..][w] == busy[1 + w];
      BusyIsWorking(busy[1..], ws[1..]);
    }
  }

  lemma {:induction false} HoldersSplit(ws: seq<Worker>)
    ensures Count(HoldsTask, ws) == Count(Working, ws) + Count(Idling, ws)
  {
    if ws != [] {
      HoldersSplit(ws[1..]);
    }
  }

  lemma Truncated(n: nat)
    ensures 0 <= n % UINT16 <= n && (n < UINT16 ==> n % UINT16 == n)
  {
  }

  /** The workers that worker_capacity_busy looks at. */
  function Counted(ws: seq<Worker>): seq<Worker>
  {
    Truncated(|ws|);
    ws[..|ws| % UINT16]
  }

  /** The busy count is the number of workers whose task runs or has just run. */
  lemma BusyCountExact(s: Pool)
    requires BusyExact(s)
    ensures CountedBusy(s) == Count(Working, Counted(s.workers)) <= Count(HoldsTask, s.workers)
  {
    var n := |s.workers| % UINT16;
    Truncated(|s.workers|);
    BusyIsWorking(s.busy[..n], s.workers[..n]);
    assert s.workers == s.workers[..n] + s.workers[n..];
    CountConcat(Working, s.workers[..n], s.workers[n..]);
    HoldersSplit(s.workers);
  }

  /**
   * Read at one instant, the estimate is exactly the queued tasks, plus the submits between increment and
   * push, plus the tasks in hand less the busy workers counted.  Below 65536 workers the latter are the
   * tasks popped but not started, or run but not yet taken off the total.
   */
  lemma DepthExact(s: Pool)
    requires AccountInv(s) && BusyExact(s)
    ensures QueueDepth(s.total, CountedBusy(s)) == Size(s.lanes) + Count(Entered, s.submitters) +
                                                   Count(HoldsTask, s.workers) - Count(Working, Counted(s.workers))
    ensures |s.workers| < UINT16 ==>
              QueueDepth(s.total, CountedBusy(s)) ==
              Size(s.lanes) + Count(Entered, s.submitters) + Count(Idling, s.workers)
  {
    BusyCountExact(s);
    HoldersSplit(s.workers);
    Truncated(|s.workers|);
    if |s.workers| < UINT16 {
      assert Counted(s.workers) == s.workers;
    }
  }

  /** So it is at least the queued tasks and at most those plus what is in flight. */
  lemma DepthEstimate(s: Pool)
    requires AccountInv(s) && BusyExact(s)
    ensures var depth := QueueDepth(s.total, CountedBusy(s));
            Size(s.lanes) <= depth <= Size(s.lanes) + |s.workers| + Count(Entered, s.submitters)
  {
    DepthExact(s);
    BusyCountExact(s);
  }
}
