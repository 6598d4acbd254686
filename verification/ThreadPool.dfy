/**
 * The thread pool as one state machine.  Submitters, workers, pausers, waiters, the aging thread and
 * one destroyer interleave; a step is one access to shared state, or one mutex region whose only
 * access outside the data guarded by that mutex is a single atomic.  Condition variables release the
 * mutex and sleep in one step, a signal wakes some sleeper if there is one, and any sleeper may wake
 * for no reason.
 */
module ThreadPool {
  import opened PriorityLanes

  datatype Option<T> = None | Some(value: T)

  /** thread_pool_submit */
  datatype Submitter =
    | Idle                            // in_flight_submits++
    | CheckShutdown(p: Priority)      // shutdown?
    | ReadCap(p: Priority)            // pq_is_full_approx: max_tasks
    | CompareDepth(p: Priority, cap: nat) // pq_is_full_approx: depth >= max
    | Create(p: Priority)             // task_create: fresh id
    | Enter(p: Priority, id: nat)     // total_task_in_system++
    | CheckAging(p: Priority, id: nat) // aging_enable?
    | Stamp(p: Priority, id: nat)     // clock_gettime for submit_time
    | TryPush(p: Priority, id: nat)   // pq_try_push, under the queue mutex
    | Signal(id: nat)                 // signal not_empty
    | Rollback                        // total_task_in_system--
    | Leave(result: Option<nat>)      // in_flight_submits--, return

  /** worker_func with pq_pop_until_shutdown */
  datatype Worker =
    | Gate                            // paused?
    | PauseLock                       // lock pause_mutex
    | PauseCheck                      // holding pause_mutex: paused?
    | PauseSleep                      // holding pause_mutex: cond_wait
    | PauseAsleep                     // sleeping on pause_cond
    | PopLock                         // lock the queue mutex; pop if a lane is ready
    | PopShutdown                     // holding the queue mutex: shutdown?
    | PopSleep                        // holding the queue mutex: cond_wait
    | PopAsleep                       // sleeping on not_empty
    | SetBusy(id: nat)                // busy = true
    | Running(id: nat)                // func(arg)
    | ClearBusy                       // busy = false
    | Finish                          // total_task_in_system--
    | DrainSignal                     // lock drain_mutex, signal drain_cond, unlock
    | Exited

  /** thread_pool_pause and thread_pool_resume */
  datatype Pauser =
    | Ready
    | WakeQueue                       // paused stored: pq_wake_all
    | WakePaused                      // paused cleared: broadcast pause_cond

  /** thread_pool_wait; `promise` are the ids returned to callers before the wait began */
  datatype Waiter =
    | Out
    | WaitPaused(promise: set<nat>)   // paused?
    | WaitResume(promise: set<nat>)   // paused = false
    | WaitWake(promise: set<nat>)     // broadcast pause_cond
    | WaitLock(promise: set<nat>)     // lock drain_mutex
    | WaitCheck(promise: set<nat>)    // holding drain_mutex: total > 0?
    | WaitSleep(promise: set<nat>)    // holding drain_mutex: cond_wait
    | WaitAsleep(promise: set<nat>)   // sleeping on drain_cond
    | WaitUnlock(promise: set<nat>)   // unlock, return

  /** aging_worker with pq_aging */
  datatype Ager =
    | AgeOff
    | AgeTop                          // shutdown?
    | AgeCheck                        // aging_enable?
    | AgeClock(src: Priority)         // pq_aging_promote_prefix: clock_gettime
    | AgeRead(src: Priority, due: nat) // shutdown?
    | AgeMove(src: Priority, due: nat) // promote, under the queue mutex
    | AgeCast(src: Priority)          // broadcast not_empty
    | AgeBetween                      // shutdown?

  /** thread_pool_destroy */
  datatype Destroyer =
    | NotCalled                       // shutdown = true
    | ClearPause                      // paused = false
    | Spin                            // in_flight_submits > 0?
    | WakeQueueAll                    // pq_wake_all
    | WakePausedAll                   // broadcast pause_cond
    | StopAging                       // aging_enable?
    | ClearAging                      // aging_enable = false
    | WakeAging                       // broadcast pause_cond once more
    | JoinAging                       // join the aging thread
    | DrainLock                       // lock drain_mutex
    | DrainCheck                      // holding drain_mutex: total > 0?
    | DrainSleep                      // holding drain_mutex: cond_wait
    | DrainAsleep                     // sleeping on drain_cond
    | DrainUnlock                     // unlock
    | Join(k: nat)                    // join worker k
    | Free                            // pq_destroy
    | Gone

  datatype Pool = Pool(
    lanes: Lanes<nat>,
    cap: nat,
    shutdown: bool,
    paused: bool,
    agingEnabled: bool,
    inFlight: int,
    total: int,
    busy: seq<bool>,
    submitters: seq<Submitter>,
    workers: seq<Worker>,
    pausers: seq<Pauser>,
    waiters: seq<Waiter>,
    ager: Ager,
    destroyer: Destroyer,
    nextId: nat,
    // ids in the order of their stamps, and how many of them the last pass found old enough
    stamped: seq<nat>,
    aged: nat,
    // history: ids inserted into the queue, ids whose function has run, ids returned to callers
    pushed: seq<nat>,
    executed: seq<nat>,
    returned: set<nat>)

  function Init(submitters: nat, workers: nat, pausers: nat, waiters: nat): Pool
  {
    Pool(Empty(), 0, false, false, false, 0, 0,
         seq(workers, _ => false),
         seq(submitters, _ => Idle), seq(workers, _ => Gate), seq(pausers, _ => Ready), seq(waiters, _ => Out),
         AgeOff, NotCalled, 0, [], 0, [], [], {})
  }

  // ---------- mutexes ----------

  predicate HoldsQueue(w: Worker)
  {
    w.PopShutdown? || w.PopSleep?
  }

  predicate HoldsPause(w: Worker)
  {
    w.PauseCheck? || w.PauseSleep?
  }

  predicate HoldsDrain(w: Waiter)
  {
    w.WaitCheck? || w.WaitSleep? || w.WaitUnlock?
  }

  predicate QueueFree(s: Pool)
  {
    forall w :: 0 <= w < |s.workers| ==> !HoldsQueue(s.workers[w])
  }

  predicate PauseFree(s: Pool)
  {
    forall w :: 0 <= w < |s.workers| ==> !HoldsPause(s.workers[w])
  }

  predicate DrainFree(s: Pool)
  {
    && (forall k :: 0 <= k < |s.waiters| ==> !HoldsDrain(s.waiters[k]))
    && !s.destroyer.DrainCheck? && !s.destroyer.DrainSleep? && !s.destroyer.DrainUnlock?
  }

  // ---------- condition variables ----------

  function WakeFromQueue(w: Worker): Worker
  {
    if w.PopAsleep? then PopLock else w
  }

  function WakeFromPause(w: Worker): Worker
  {
    if w.PauseAsleep? then PauseLock else w
  }

  function BroadcastQueue(ws: seq<Worker>): (r: seq<Worker>)
    ensures |r| == |ws| && forall w :: 0 <= w < |ws| ==> r[w] == WakeFromQueue(ws[w])
  {
    seq(|ws|, w requires 0 <= w < |ws| => WakeFromQueue(ws[w]))
  }

  function BroadcastPause(ws: seq<Worker>): (r: seq<Worker>)
    ensures |r| == |ws| && forall w :: 0 <= w < |ws| ==> r[w] == WakeFromPause(ws[w])
  {
    seq(|ws|, w requires 0 <= w < |ws| => WakeFromPause(ws[w]))
  }

  predicate AsleepOnQueue(ws: seq<Worker>)
  {
    exists w :: 0 <= w < |ws| && ws[w].PopAsleep?
  }

  predicate Sleeps(ws: seq<Worker>, w: nat)
  {
    w < |ws| && ws[w].PopAsleep?
  }

  predicate AsleepOnDrain(s: Pool)
  {
    s.destroyer.DrainAsleep? || exists k :: 0 <= k < |s.waiters| && s.waiters[k].WaitAsleep?
  }

  predicate WakesWaiter(s: Pool, wake: nat)
  {
    wake < |s.waiters| && s.waiters[wake].WaitAsleep?
  }

  /** A signal of drain_cond wakes the waiter that `wake` names, or else the destroyer. */
  function WakeWaiter(s: Pool, wake: nat): (r: seq<Waiter>)
    ensures |r| == |s.waiters|
  {
    if WakesWaiter(s, wake) then s.waiters[wake := WaitLock(s.waiters[wake].promise)] else s.waiters
  }

  function WakeDestroyer(s: Pool, wake: nat): Destroyer
  {
    if !WakesWaiter(s, wake) && s.destroyer.DrainAsleep? then DrainLock else s.destroyer
  }

  /** The choice of a sleeper is legal: it names one whenever there is one. */
  predicate LegalDrainWake(s: Pool, wake: nat)
  {
    AsleepOnDrain(s) ==> WakesWaiter(s, wake) || s.destroyer.DrainAsleep?
  }

  // ---------- steps ----------

  /** A step leaves the thread tables as long as they were. */
  predicate SameShape(s: Pool, s': Pool)
  {
    && |s'.busy| == |s.busy| && |s'.workers| == |s.workers| && |s'.submitters| == |s.submitters|
    && |s'.pausers| == |s.pausers| && |s'.waiters| == |s.waiters|
  }

  /** Where submitter i goes; p is the priority of a call that starts, `wake` the sleeper a signal would wake. */
  function SubmitNext(s: Pool, i: nat, p: Priority, wake: nat): Submitter
    requires i < |s.submitters|
  {
    match s.submitters[i]
    case Idle => CheckShutdown(p)
    case CheckShutdown(q) => if s.shutdown then Leave(None) else ReadCap(q)
    case ReadCap(q) => if s.cap == 0 then Create(q) else CompareDepth(q, s.cap)
    case CompareDepth(q, cap) => if Size(s.lanes) >= cap then Leave(None) else Create(q)
    case Create(q) => Enter(q, s.nextId)
    case Enter(q, id) => CheckAging(q, id)
    case CheckAging(q, id) => if s.agingEnabled then Stamp(q, id) else TryPush(q, id)
    case Stamp(q, id) => TryPush(q, id)
    case TryPush(q, id) =>
      if !QueueFree(s) then TryPush(q, id) else if s.cap != 0 && Size(s.lanes) >= s.cap then Rollback else Signal(id)
    case Signal(id) => if AsleepOnQueue(s.workers) && !Sleeps(s.workers, wake) then Signal(id) else Leave(Some(id))
    case Rollback => Leave(None)
    case Leave(_) => Idle
  }

  /** The next step of submitter i; a call that starts submits with priority p. */
  function SubmitStep(s: Pool, i: nat, p: Priority, wake: nat): (s': Pool)
    requires i < |s.submitters|
    ensures SameShape(s, s')
  {
    var x := s.submitters[i];
    var x' := SubmitNext(s, i, p, wake);
    s.(submitters := s.submitters[i := x'],
       inFlight := s.inFlight + (if x.Idle? then 1 else if x.Leave? then -1 else 0),
       nextId := if x.Create? then s.nextId + 1 else s.nextId,
       total := s.total + (if x.Enter? then 1 else if x.Rollback? then -1 else 0),
       lanes := if x.TryPush? && x'.Signal? then Push(s.lanes, x.p, x.id) else s.lanes,
       stamped := if x.Stamp? then s.stamped + [x.id] else s.stamped,
       pushed := if x.TryPush? && x'.Signal? then s.pushed + [x.id] else s.pushed,
       workers := if x.Signal? && Sleeps(s.workers, wake) then s.workers[wake := PopLock] else s.workers,
       returned := if x.Leave? && x.result.Some? then s.returned + {x.result.value} else s.returned)
  }

  /** Where worker w goes; `wake` picks the sleeper of drain_cond. */
  function WorkNext(s: Pool, w: nat, wake: nat): Worker
    requires w < |s.workers|
  {
    match s.workers[w]
    case Gate => if s.paused then PauseLock else PopLock
    case PauseLock => if PauseFree(s) then PauseCheck else PauseLock
    case PauseCheck => if s.paused then PauseSleep else PopLock
    case PauseSleep => PauseAsleep
    case PauseAsleep => PauseAsleep
    case PopLock =>
      if !QueueFree(s) then PopLock else if Size(s.lanes) == 0 then PopShutdown else SetBusy(Head(s.lanes))
    case PopShutdown => if s.shutdown then Exited else PopSleep
    case PopSleep => PopAsleep
    case PopAsleep => PopAsleep
    case SetBusy(id) => Running(id)
    case Running(id) => ClearBusy
    case ClearBusy => Finish
    case Finish => if s.total - 1 == 0 then DrainSignal else Gate
    case DrainSignal => if DrainFree(s) && LegalDrainWake(s, wake) then Gate else DrainSignal
    case Exited => Exited
  }

  function WorkStep(s: Pool, w: nat, wake: nat): (s': Pool)
    requires w < |s.workers| == |s.busy|
    ensures SameShape(s, s')
  {
    var x := s.workers[w];
    var x' := WorkNext(s, w, wake);
    var signals := x.DrainSignal? && x'.Gate?;
    s.(workers := s.workers[w := x'],
       lanes := if x'.SetBusy? then Rest(s.lanes) else s.lanes,
       busy := if x.SetBusy? then s.busy[w := true] else if x.ClearBusy? then s.busy[w := false] else s.busy,
       executed := if x.Running? then s.executed + [x.id] else s.executed,
       total := if x.Finish? then s.total - 1 else s.total,
       waiters := if signals then WakeWaiter(s, wake) else s.waiters,
       destroyer := if signals then WakeDestroyer(s, wake) else s.destroyer)
  }

  datatype Command = Pause | Resume

  /** A pauser that is ready starts the command, except a pause once destroy was called. */
  function PauseNext(s: Pool, k: nat, command: Command): Pauser
    requires k < |s.pausers|
  {
    match s.pausers[k]
    case Ready => if command.Resume? then WakePaused else if s.destroyer.NotCalled? then WakeQueue else Ready
    case WakeQueue => if QueueFree(s) then Ready else WakeQueue
    case WakePaused => if PauseFree(s) then Ready else WakePaused
  }

  function PauseStep(s: Pool, k: nat, command: Command): (s': Pool)
    requires k < |s.pausers|
    ensures SameShape(s, s')
  {
    var x := s.pausers[k];
    var x' := PauseNext(s, k, command);
    s.(pausers := s.pausers[k := x'],
       paused := if x.Ready? && x'.WakeQueue? then true else if x.Ready? && x'.WakePaused? then false else s.paused,
       workers := if x.WakeQueue? && x'.Ready? then BroadcastQueue(s.workers)
                  else if x.WakePaused? && x'.Ready? then BroadcastPause(s.workers)
                  else s.workers)
  }

  function WaitNext(s: Pool, k: nat): Waiter
    requires k < |s.waiters|
  {
    match s.waiters[k]
    case Out => WaitPaused(s.returned)
    case WaitPaused(m) => if s.paused then WaitResume(m) else WaitLock(m)
    case WaitResume(m) => WaitWake(m)
    case WaitWake(m) => if PauseFree(s) then WaitLock(m) else WaitWake(m)
    case WaitLock(m) => if DrainFree(s) then WaitCheck(m) else WaitLock(m)
    case WaitCheck(m) => if s.total > 0 then WaitSleep(m) else WaitUnlock(m)
    case WaitSleep(m) => WaitAsleep(m)
    case WaitAsleep(m) => WaitAsleep(m)
    case WaitUnlock(m) => Out
  }

  function WaitStep(s: Pool, k: nat): (s': Pool)
    requires k < |s.waiters|
    ensures SameShape(s, s')
  {
    var x := s.waiters[k];
    var x' := WaitNext(s, k);
    s.(waiters := s.waiters[k := x'],
       paused := if x.WaitResume? then false else s.paused,
       workers := if x.WaitWake? && x'.WaitLock? then BroadcastPause(s.workers) else s.workers)
  }

  function AfterLane(src: Priority): Ager
  {
    if src == MEDIUM then AgeBetween else AgeTop
  }

  /**
   * The tasks a pass finds old enough are those stamped no later than its reading of the clock less
   * the threshold, so they are the first ones in the order of the stamps, and more with every pass
   * as long as the threshold stays.  The clock itself is n, cut to what is possible.
   */
  function Cutoff(s: Pool, n: nat): nat
  {
    if n > |s.stamped| then |s.stamped| else if n < s.aged then s.aged else n
  }

  function DueIds(s: Pool, due: nat): seq<nat>
  {
    if due <= |s.stamped| then s.stamped[..due] else s.stamped
  }

  /** Length of the longest prefix of a lane whose tasks are all due. */
  function DuePrefix(lane: seq<nat>, due: seq<nat>): (n: nat)
    ensures n <= |lane| && forall k :: 0 <= k < n ==> lane[k] in due
    ensures n < |lane| ==> lane[n] !in due
  {
    if lane == [] || lane[0] !in due then 0 else 1 + DuePrefix(lane[1..], due)
  }

  /** How many tasks the aging thread promotes. */
  function Promotable(s: Pool): (n: nat)
    requires s.ager.AgeMove?
    ensures n <= |s.lanes[s.ager.src]|
  {
    DuePrefix(s.lanes[s.ager.src], DueIds(s, s.ager.due))
  }

  /** Where the aging thread goes; n is what the clock says. */
  function AgeNext(s: Pool, n: nat): Ager
  {
    match s.ager
    case AgeOff => AgeOff
    case AgeTop => if s.shutdown then AgeOff else AgeCheck
    case AgeCheck => if s.agingEnabled then AgeClock(MEDIUM) else AgeOff
    case AgeClock(src) => AgeRead(src, Cutoff(s, n))
    case AgeRead(src, due) => if s.shutdown then AfterLane(src) else AgeMove(src, due)
    case AgeMove(src, due) =>
      if !QueueFree(s) then AgeMove(src, due)
      else if src == HIGH || Promotable(s) == 0 then AfterLane(src)
      else AgeCast(src)
    case AgeCast(src) => AfterLane(src)
    case AgeBetween => if s.shutdown then AgeTop else AgeClock(LOW)
  }

  function AgeStep(s: Pool, n: nat): (s': Pool)
    ensures SameShape(s, s')
  {
    var x' := AgeNext(s, n);
    s.(ager := x',
       aged := if s.ager.AgeClock? then Cutoff(s, n) else s.aged,
       lanes := if s.ager.AgeMove? && x'.AgeCast? then Promote(s.lanes, s.ager.src, Promotable(s)) else s.lanes,
       workers := if s.ager.AgeCast? then BroadcastQueue(s.workers) else s.workers)
  }

  function DestroyNext(s: Pool): Destroyer
  {
    match s.destroyer
    case NotCalled => ClearPause
    case ClearPause => Spin
    case Spin => if s.inFlight > 0 then Spin else WakeQueueAll
    case WakeQueueAll => if QueueFree(s) then WakePausedAll else WakeQueueAll
    case WakePausedAll => if PauseFree(s) then StopAging else WakePausedAll
    case StopAging => if s.agingEnabled then ClearAging else DrainLock
    case ClearAging => WakeAging
    case WakeAging => if PauseFree(s) then JoinAging else WakeAging
    case JoinAging => if s.ager.AgeOff? then DrainLock else JoinAging
    case DrainLock => if DrainFree(s) then DrainCheck else DrainLock
    case DrainCheck => if s.total > 0 then DrainSleep else DrainUnlock
    case DrainSleep => DrainAsleep
    case DrainAsleep => DrainAsleep
    case DrainUnlock => Join(0)
    case Join(k) =>
      if k >= |s.workers| then Free else if s.workers[k].Exited? then Join(k + 1) else Join(k)
    case Free => Gone
    case Gone => Gone
  }

  function DestroyStep(s: Pool): (s': Pool)
    ensures SameShape(s, s')
  {
    var x := s.destroyer;
    var x' := DestroyNext(s);
    s.(destroyer := x',
       shutdown := if x.NotCalled? then true else s.shutdown,
       paused := if x.ClearPause? then false else s.paused,
       agingEnabled := if x.ClearAging? then false else s.agingEnabled,
       lanes := if x.Free? then Empty() else s.lanes,
       workers := if x.WakeQueueAll? && x'.WakePausedAll? then BroadcastQueue(s.workers)
                  else if (x.WakePausedAll? && x'.StopAging?) || (x.WakeAging? && x'.JoinAging?)
                  then BroadcastPause(s.workers)
                  else s.workers)
  }

  /**
   * Calls that change one setting, the broadcast of pause_cond that ends a call of disable_aging, and
   * wakeups without a signal.
   */
  datatype Event =
    | SetCap(cap: nat)
    | EnableAging
    | DisableAging
    | WakeGate
    | SpuriousWorker(w: nat)
    | SpuriousWaiter(k: nat)
    | SpuriousDestroyer

  function EventWorkers(s: Pool, e: Event): (ws: seq<Worker>)
    ensures |ws| == |s.workers|
  {
    if e.WakeGate? && PauseFree(s) then BroadcastPause(s.workers)
    else if e.SpuriousWorker? && e.w < |s.workers|
    then s.workers[e.w := WakeFromQueue(WakeFromPause(s.workers[e.w]))]
    else s.workers
  }

  function EventWaiters(s: Pool, e: Event): (xs: seq<Waiter>)
    ensures |xs| == |s.waiters|
  {
    if e.SpuriousWaiter? && e.k < |s.waiters| && s.waiters[e.k].WaitAsleep?
    then s.waiters[e.k := WaitLock(s.waiters[e.k].promise)]
    else s.waiters
  }

  function EventStep(s: Pool, e: Event): (s': Pool)
    ensures SameShape(s, s')
  {
    var starts := e.EnableAging? && s.destroyer.NotCalled? && s.ager.AgeOff?;
    s.(cap := if e.SetCap? then e.cap else s.cap,
       agingEnabled := starts || (s.agingEnabled && !e.DisableAging?),
       aged := if starts then 0 else s.aged,
       ager := if starts then AgeTop else s.ager,
       workers := EventWorkers(s, e),
       waiters := EventWaiters(s, e),
       destroyer := if e.SpuriousDestroyer? && s.destroyer.DrainAsleep? then DrainLock else s.destroyer)
  }

  datatype Action =
    | Submit(i: nat, p: Priority, wake: nat)
    | Work(w: nat, wake: nat)
    | Control(k: nat, command: Command)
    | Wait(k: nat)
    | Age(n: nat)
    | Destroy
    | Happen(event: Event)

  /** A wakeup without a signal. */
  predicate Spurious(a: Action)
  {
    a.Happen? && (a.event.SpuriousWorker? || a.event.SpuriousWaiter? || a.event.SpuriousDestroyer?)
  }

  predicate NoSpurious(actions: seq<Action>)
  {
    forall m :: 0 <= m < |actions| ==> !Spurious(actions[m])
  }

  /** One step of the pool.  An action that is not possible in s leaves s as it is. */
  function Step(s: Pool, a: Action): (s': Pool)
    requires |s.workers| == |s.busy|
    ensures SameShape(s, s')
  {
    match a
    case Submit(i, p, wake) => if i < |s.submitters| then SubmitStep(s, i, p, wake) else s
    case Work(w, wake) => if w < |s.workers| then WorkStep(s, w, wake) else s
    case Control(k, command) => if k < |s.pausers| then PauseStep(s, k, command) else s
    case Wait(k) => if k < |s.waiters| then WaitStep(s, k) else s
    case Age(n) => AgeStep(s, n)
    case Destroy => DestroyStep(s)
    case Happen(e) => EventStep(s, e)
  }

  /** The state after a sequence of actions. */
  function Run(s: Pool, actions: seq<Action>): (s': Pool)
    requires |s.workers| == |s.busy|
    ensures SameShape(s, s')
  {
    if actions == [] then s
    else
      var last := |actions| - 1;
      Step(Run(s, actions[..last]), actions[last])
  }

  lemma {:induction false} RunConcat(s: Pool, a: seq<Action>, b: seq<Action>)
    requires |s.workers| == |s.busy|
    ensures Run(s, a + b) == Run(Run(s, a), b)
  {
    if b == [] {
      assert a + b == a;
    } else {
      var last := |b| - 1;
      assert (a + b)[..|a + b| - 1] == a + b[..last];
      RunConcat(s, a, b[..last]);
    }
  }

  lemma RunAppend(s: Pool, a: Action, rest: seq<Action>)
    requires |s.workers| == |s.busy|
    ensures Run(s, [a] + rest) == Run(Step(s, a), rest)
  {
    assert [a][..0] == [];
    assert Run(s, [a]) == Step(s, a);
    RunConcat(s, [a], rest);
  }
}
