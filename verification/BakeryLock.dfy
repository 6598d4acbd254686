/**
 * The N-thread bakery lock: every shared read or write is one step, including the two reads of a
 * label in `max_label` and the two in `check_k_i`.  A thread's own label is written by that thread
 * only, so reading it belongs to the step that reads the other label.  `ticket` is the array `label`.
 */
module BakeryLock {
  import opened CriticalSection

  datatype Queueing =
    | SetFlag                     // flag[id] = true
    | MaxTest(k: nat, max: int)   // max_label: label[k] > max
    | MaxRead(k: nat, max: int)   // max_label: max = label[k]
    | SetLabel(max: int)          // label[id] = max + 1
    | WaitFlag(k: nat)            // check_waiting: about to read flag[k]
    | WaitLess(k: nat)            // check_k_i: label[k] < label[id]
    | WaitEqual(k: nat)           // check_k_i: label[k] == label[id] && k < id

  type Pc = Phase<Queueing>

  datatype State = State(flag: seq<bool>, ticket: seq<int>, pcs: seq<Pc>, tally: Tally)

  predicate GoodPc(n: nat, pc: Pc)
  {
    pc.Try? ==>
      match pc.at
      case SetFlag | SetLabel(_) => true
      case MaxTest(k, _) => k <= n
      case WaitFlag(k) => k <= n
      case MaxRead(k, _) => k < n
      case WaitLess(k) => k < n
      case WaitEqual(k) => k < n
  }

  predicate WellFormed(s: State)
  {
    && |s.flag| == |s.ticket| == |s.pcs|
    && forall t :: 0 <= t < |s.pcs| ==> GoodPc(|s.pcs|, s.pcs[t])
  }

  function Init(n: nat): (s: State)
    ensures WellFormed(s)
  {
    State(seq(n, _ => false), seq(n, _ => 0), seq(n, _ => Try(SetFlag)), NoTally)
  }

  /** Where a thread of the entry protocol goes, given the shared arrays it reads. */
  function Advance(s: State, t: nat): Pc
    requires WellFormed(s) && t < |s.pcs| && s.pcs[t].Try?
  {
    var n := |s.pcs|;
    match s.pcs[t].at
    case SetFlag => Try(MaxTest(0, -1))
    case MaxTest(k, max) =>
      if k == n then Try(SetLabel(max))
      else if s.ticket[k] > max then Try(MaxRead(k, max))
      else Try(MaxTest(k + 1, max))
    case MaxRead(k, max) => Try(MaxTest(k + 1, s.ticket[k]))
    case SetLabel(max) => Try(WaitFlag(0))
    case WaitFlag(k) =>
      if k == n then Do(ReadCount)
      else if k != t && s.flag[k] then Try(WaitLess(k))
      else Try(WaitFlag(k + 1))
    case WaitLess(k) => Try(if s.ticket[k] < s.ticket[t] then WaitFlag(0) else WaitEqual(k))
    case WaitEqual(k) => Try(if s.ticket[k] == s.ticket[t] && k < t then WaitFlag(0) else WaitFlag(k + 1))
  }

  function TryStep(s: State, t: nat): State
    requires WellFormed(s) && t < |s.pcs| && s.pcs[t].Try?
  {
    var at := s.pcs[t].at;
    s.(flag := if at.SetFlag? then s.flag[t := true] else s.flag,
       ticket := if at.SetLabel? then s.ticket[t := at.max + 1] else s.ticket,
       pcs := s.pcs[t := Advance(s, t)])
  }

  function DoStep(s: State, iter: nat, t: nat): State
    requires WellFormed(s) && t < |s.pcs| && s.pcs[t].Do?
  {
    var (pc, tally) := BodyStep(s.pcs[t].body, s.tally, iter, Try(SetFlag));
    s.(flag := if s.pcs[t].body.Unlock? then s.flag[t := false] else s.flag,
       pcs := s.pcs[t := pc],
       tally := tally)
  }

  /** Thread t performs its next shared access; numbers that name no thread do nothing. */
  function Step(s: State, iter: nat, t: nat): (s': State)
    requires WellFormed(s)
    ensures WellFormed(s') && |s'.pcs| == |s.pcs|
  {
    if t >= |s.pcs| then s
    else if s.pcs[t].Try? then TryStep(s, t)
    else DoStep(s, iter, t)
  }

  function Run(s: State, iter: nat, schedule: seq<nat>): (s': State)
    requires WellFormed(s)
    ensures WellFormed(s') && |s'.pcs| == |s.pcs|
  {
    if schedule == [] then s
    else
      var last := |schedule| - 1;
      Step(Run(s, iter, schedule[..last]), iter, schedule[last])
  }

  // ---------- the invariant ----------

  /** The thread has not started its doorway, or has left the critical section. */
  predicate Away(pc: Pc)
  {
    if pc.Try? then pc.at.SetFlag? else !Owns(pc)
  }

  /** The thread has written its label and has not yet released the lock. */
  predicate Ticketed(pc: Pc)
  {
    if pc.Try? then pc.at.WaitFlag? || pc.at.WaitLess? || pc.at.WaitEqual? else Owns(pc)
  }

  /** Lexicographic order of (label, thread number). */
  predicate Less(s: State, i: nat, k: nat)
    requires WellFormed(s) && i < |s.pcs| && k < |s.pcs|
  {
    s.ticket[i] < s.ticket[k] || (s.ticket[i] == s.ticket[k] && i < k)
  }

  /** The label that k is about to take will exceed a label m at position i. */
  predicate WillExceed(pc: Pc, i: nat, m: int)
  {
    pc.Try? &&
    match pc.at
    case MaxTest(k, max) => k > i ==> max >= m
    case MaxRead(k, max) => k > i ==> max >= m
    case SetLabel(max) => max >= m
    case _ => false
  }

  /** Once i is ticketed: k is away, or behind i already, or in a doorway that will put it behind i. */
  predicate Precedes(s: State, i: nat, k: nat)
    requires WellFormed(s) && i < |s.pcs| && k < |s.pcs|
  {
    Less(s, i, k) || Away(s.pcs[k]) || WillExceed(s.pcs[k], i, s.ticket[i])
  }

  /** How far the waiting scan of a ticketed thread has come. */
  function Cleared(n: nat, pc: Pc): nat
    requires Ticketed(pc)
  {
    if pc.Do? then n else pc.at.k
  }

  /** A thread's own part of the invariant: its flag, its half-finished scans, its growing label. */
  ghost predicate ThreadSound(s: State, t: nat)
    requires WellFormed(s) && t < |s.pcs|
  {
    var pc := s.pcs[t];
    && (s.flag[t] <==> !Away(pc))
    && (pc.Try? && (pc.at.MaxTest? || pc.at.MaxRead? || pc.at.SetLabel?) ==> WillExceed(pc, t, s.ticket[t]))
    && (pc.Try? && pc.at.MaxRead? ==> s.ticket[pc.at.k] > pc.at.max)
    && (pc.Try? && pc.at.WaitEqual? ==> s.ticket[pc.at.k] >= s.ticket[t])
  }

  /** Every thread that i's waiting scan went past is behind i. */
  ghost predicate PairSound(s: State, i: nat, k: nat)
    requires WellFormed(s) && i < |s.pcs| && k < |s.pcs|
  {
    i != k && Ticketed(s.pcs[i]) && k < Cleared(|s.pcs|, s.pcs[i]) ==> Precedes(s, i, k)
  }

  ghost predicate Inv(s: State, iter: nat)
  {
    && WellFormed(s)
    && (forall t: nat :: t < |s.pcs| ==> ThreadSound(s, t))
    && (forall i: nat, k: nat :: i < |s.pcs| && k < |s.pcs| ==> PairSound(s, i, k))
    && TallyInv(s.pcs, s.tally, iter)
  }

  /** Labels never shrink. */
  lemma LabelsGrow(s: State, iter: nat, x: nat, t: nat)
    requires WellFormed(s) && t < |s.pcs| && ThreadSound(s, t)
    ensures Step(s, iter, x).ticket[t] >= s.ticket[t]
    ensures x == t && s.pcs[t].Try? && s.pcs[t].at.SetLabel? ==> Step(s, iter, x).ticket[t] > s.ticket[t]
  {
  }

  lemma OwnStepKeepsThread(s: State, iter: nat, t: nat)
    requires WellFormed(s) && t < |s.pcs| && ThreadSound(s, t)
    ensures ThreadSound(Step(s, iter, t), t)
  {
  }

  lemma OtherStepKeepsThread(s: State, iter: nat, x: nat, t: nat)
    requires WellFormed(s) && t < |s.pcs| && x != t && ThreadSound(s, t)
    requires forall u: nat :: u < |s.pcs| ==> Step(s, iter, x).ticket[u] >= s.ticket[u]
    ensures ThreadSound(Step(s, iter, x), t)
  {
    var s' := Step(s, iter, x);
    assert s'.pcs[t] == s.pcs[t] && s'.flag[t] == s.flag[t] && s'.ticket[t] == s.ticket[t];
  }

  /** While i keeps its ticket, a thread behind i stays behind i. */
  lemma StepKeepsPrecedes(s: State, iter: nat, x: nat, i: nat, k: nat)
    requires WellFormed(s) && i < |s.pcs| && k < |s.pcs| && i != k
    requires ThreadSound(s, i) && ThreadSound(s, k)
    requires Ticketed(s.pcs[i]) && Precedes(s, i, k)
    ensures Precedes(Step(s, iter, x), i, k)
  {
    LabelsGrow(s, iter, x, k);
  }

  lemma StepKeepsPair(s: State, iter: nat, x: nat, i: nat, k: nat)
    requires WellFormed(s) && i < |s.pcs| && k < |s.pcs|
    requires ThreadSound(s, i) && ThreadSound(s, k) && PairSound(s, i, k)
    ensures PairSound(Step(s, iter, x), i, k)
  {
    if i != k && Ticketed(s.pcs[i]) && Precedes(s, i, k) {
      StepKeepsPrecedes(s, iter, x, i, k);
    }
  }

  lemma OwnersExclusive(s: State, iter: nat)
    requires Inv(s, iter)
    ensures Exclusive(s.pcs)
  {
    forall i: nat, k: nat | i < |s.pcs| && k < |s.pcs| && Owns(s.pcs[i]) && Owns(s.pcs[k])
      ensures i == k
    {
      assert PairSound(s, i, k) && PairSound(s, k, i);
    }
  }

  lemma StepKeepsTally(s: State, iter: nat, x: nat)
    requires Inv(s, iter)
    ensures var s' := Step(s, iter, x); TallyInv(s'.pcs, s'.tally, iter)
  {
    if x < |s.pcs| {
      if s.pcs[x].Try? {
        TryKeepsTally(s.pcs, s.tally, iter, x, Advance(s, x));
      } else {
        OwnersExclusive(s, iter);
        BodyKeepsTally(s.pcs, s.tally, iter, x, Try(SetFlag));
      }
    }
  }

  lemma StepKeepsInv(s: State, iter: nat, x: nat)
    requires Inv(s, iter)
    ensures Inv(Step(s, iter, x), iter)
  {
    var s' := Step(s, iter, x);
    forall t: nat | t < |s.pcs| ensures s'.ticket[t] >= s.ticket[t] {
      LabelsGrow(s, iter, x, t);
    }
    forall t: nat | t < |s.pcs| ensures ThreadSound(s', t) {
      if x == t { OwnStepKeepsThread(s, iter, t); } else { OtherStepKeepsThread(s, iter, x, t); }
    }
    forall i: nat, k: nat | i < |s'.pcs| && k < |s'.pcs| ensures PairSound(s', i, k) {
      StepKeepsPair(s, iter, x, i, k);
    }
    StepKeepsTally(s, iter, x);
  }

  lemma {:induction false} RunKeepsInv(s: State, iter: nat, schedule: seq<nat>)
    requires Inv(s, iter)
    ensures Inv(Run(s, iter, schedule), iter)
  {
    if schedule != [] {
      var last := |schedule| - 1;
      RunKeepsInv(s, iter, schedule[..last]);
      StepKeepsInv(Run(s, iter, schedule[..last]), iter, schedule[last]);
    }
  }

  lemma InitInv(n: nat, iter: nat)
    ensures Inv(Init(n), iter)
  {
  }

  // ---------- every run ----------

  /** No two threads own the lock, whatever the schedule. */
  lemma MutualExclusion(n: nat, iter: nat, schedule: seq<nat>)
    ensures Exclusive(Run(Init(n), iter, schedule).pcs)
  {
    InitInv(n, iter);
    RunKeepsInv(Init(n), iter, schedule);
    OwnersExclusive(Run(Init(n), iter, schedule), iter);
  }

  /** The split read and write of `count` loses no update, and the final value is within N of ITER. */
  lemma CounterExact(n: nat, iter: nat, schedule: seq<nat>)
    requires n > 0
    ensures var s := Run(Init(n), iter, schedule);
            && s.tally.count == s.tally.done
            && ((forall t :: 0 <= t < n ==> s.pcs[t] == Do(Stopped)) ==> iter + 1 <= s.tally.count <= iter + n)
  {
    InitInv(n, iter);
    RunKeepsInv(Init(n), iter, schedule);
    var s := Run(Init(n), iter, schedule);
    if forall t :: 0 <= t < n ==> s.pcs[t] == Do(Stopped) {
      FinalCount(s.pcs, s.tally, iter);
    }
  }

  // ---------- labels are tight ----------

  /** The thread is scanning for the maximum, or about to write its label. */
  predicate Scanning(pc: Pc)
  {
    pc.Try? && (pc.at.MaxTest? || pc.at.MaxRead? || pc.at.SetLabel?)
  }

  /** Labels are natural, and the maximum that a scan has found so far is no more than some label. */
  ghost predicate LabelsFound(s: State)
    requires WellFormed(s)
  {
    && (forall t :: 0 <= t < |s.pcs| ==> s.ticket[t] >= 0)
    && (forall t :: 0 <= t < |s.pcs| && Scanning(s.pcs[t]) ==> Found(s, s.pcs[t].at.max))
  }

  ghost predicate Found(s: State, max: int)
    requires WellFormed(s)
  {
    exists k :: 0 <= k < |s.pcs| && max <= s.ticket[k]
  }

  lemma FoundStays(s: State, s': State, max: int)
    requires WellFormed(s) && WellFormed(s') && |s'.pcs| == |s.pcs| && Found(s, max)
    requires forall k :: 0 <= k < |s.pcs| ==> s'.ticket[k] >= s.ticket[k]
    ensures Found(s', max)
  {
    var k :| 0 <= k < |s.pcs| && max <= s.ticket[k];
    assert max <= s'.ticket[k];
  }

  lemma StepKeepsFound(s: State, iter: nat, x: nat)
    requires Inv(s, iter) && LabelsFound(s)
    ensures LabelsFound(Step(s, iter, x))
  {
    var s' := Step(s, iter, x);
    forall t: nat | t < |s.pcs| ensures s'.ticket[t] >= s.ticket[t] {
      LabelsGrow(s, iter, x, t);
    }
    forall t | 0 <= t < |s.pcs| && Scanning(s'.pcs[t]) ensures Found(s', s'.pcs[t].at.max) {
      if t == x && s.pcs[t].Try? && s.pcs[t].at.MaxRead? {
        assert s'.pcs[t].at.max <= s'.ticket[s.pcs[t].at.k];
      } else if t == x && !Scanning(s.pcs[t]) {
        assert s'.pcs[t].at.max <= s'.ticket[t];
      } else {
        FoundStays(s, s', s.pcs[t].at.max);
      }
    }
  }

  lemma {:induction false} RunKeepsFound(n: nat, iter: nat, schedule: seq<nat>)
    ensures LabelsFound(Run(Init(n), iter, schedule))
  {
    if schedule != [] {
      var last := |schedule| - 1;
      RunKeepsFound(n, iter, schedule[..last]);
      InitInv(n, iter);
      RunKeepsInv(Init(n), iter, schedule[..last]);
      StepKeepsFound(Run(Init(n), iter, schedule[..last]), iter, schedule[last]);
    }
  }

  /** In every run, a label that is written is at most one more than some label present at that time. */
  lemma LabelIsNext(n: nat, iter: nat, schedule: seq<nat>, t: nat)
    requires t < n && Run(Init(n), iter, schedule).pcs[t].Try? && Run(Init(n), iter, schedule).pcs[t].at.SetLabel?
    ensures var s := Run(Init(n), iter, schedule);
            exists k :: 0 <= k < n && Step(s, iter, t).ticket[t] <= s.ticket[k] + 1
  {
    RunKeepsFound(n, iter, schedule);
    var s := Run(Init(n), iter, schedule);
    var k :| 0 <= k < n && s.pcs[t].at.max <= s.ticket[k];
    assert Step(s, iter, t).ticket[t] <= s.ticket[k] + 1;
  }

  /** The number of labels written in a run. */
  function LabelsWritten(s: State, iter: nat, schedule: seq<nat>): nat
    requires WellFormed(s)
  {
    if schedule == [] then 0
    else
      var last := |schedule| - 1;
      var mid, t := Run(s, iter, schedule[..last]), schedule[last];
      LabelsWritten(s, iter, schedule[..last]) +
      if t < |s.pcs| && mid.pcs[t].Try? && mid.pcs[t].at.SetLabel? then 1 else 0
  }

  /** No label exceeds the number of labels written so far. */
  lemma {:induction false} LabelsBounded(n: nat, iter: nat, schedule: seq<nat>, t: nat)
    requires t < n
    ensures 0 <= Run(Init(n), iter, schedule).ticket[t] <= LabelsWritten(Init(n), iter, schedule)
  {
    RunKeepsFound(n, iter, schedule);
    if schedule != [] {
      var last := |schedule| - 1;
      var mid := Run(Init(n), iter, schedule[..last]);
      LabelsBounded(n, iter, schedule[..last], t);
      if schedule[last] == t && mid.pcs[t].Try? && mid.pcs[t].at.SetLabel? {
        RunKeepsFound(n, iter, schedule[..last]);
        var k: nat :| k < n && mid.pcs[t].at.max <= mid.ticket[k];
        LabelsBounded(n, iter, schedule[..last], k);
      }
    }
  }

  // ---------- every entry follows a clean scan ----------

  /** The test that t is about to finish tells it to wait. */
  predicate MustWait(s: State, t: nat)
    requires WellFormed(s) && t < |s.pcs|
  {
    s.pcs[t].Try? &&
    match s.pcs[t].at
    case WaitLess(k) => s.ticket[k] < s.ticket[t]
    case WaitEqual(k) => s.ticket[k] == s.ticket[t] && k < t
    case _ => false
  }

  /** In the run from s, the scan of thread t comes to thread k. */
  ghost predicate LooksAt(s: State, iter: nat, schedule: seq<nat>, t: nat, k: nat)
    requires WellFormed(s) && t < |s.pcs|
  {
    exists m: nat :: m < |schedule| && schedule[m] == t && Run(s, iter, schedule[..m]).pcs[t] == Try(WaitFlag(k))
  }

  /** Thread t holds its ticket all along the run. */
  ghost predicate KeepsTicket(s: State, iter: nat, schedule: seq<nat>, t: nat)
    requires WellFormed(s) && t < |s.pcs|
  {
    forall m: nat :: m <= |schedule| ==> Ticketed(Run(s, iter, schedule[..m]).pcs[t])
  }

  /** How many threads a scan has looked at. */
  function Scanned(n: nat, pc: Pc): nat
    requires Ticketed(pc)
  {
    if pc.Do? then n else if pc.at.WaitFlag? then pc.at.k else pc.at.k + 1
  }

  lemma LooksExtends(s: State, iter: nat, schedule: seq<nat>, x: nat, t: nat, k: nat)
    requires WellFormed(s) && t < |s.pcs| && LooksAt(s, iter, schedule, t, k)
    ensures LooksAt(s, iter, schedule + [x], t, k)
  {
    var m: nat :| m < |schedule| && schedule[m] == t && Run(s, iter, schedule[..m]).pcs[t] == Try(WaitFlag(k));
    assert (schedule + [x])[..m] == schedule[..m] && (schedule + [x])[m] == t;
  }

  lemma LooksNow(s: State, iter: nat, schedule: seq<nat>, t: nat, k: nat)
    requires WellFormed(s) && t < |s.pcs| && Run(s, iter, schedule).pcs[t] == Try(WaitFlag(k))
    ensures LooksAt(s, iter, schedule + [t], t, k)
  {
    var m := |schedule|;
    assert (schedule + [t])[..m] == schedule && (schedule + [t])[m] == t;
  }

  lemma ScanStep(s: State, iter: nat, x: nat, t: nat)
    requires WellFormed(s) && t < |s.pcs| && Ticketed(s.pcs[t]) && Ticketed(Step(s, iter, x).pcs[t])
    ensures var n, pc, pc' := |s.pcs|, s.pcs[t], Step(s, iter, x).pcs[t];
            Scanned(n, pc') <= Scanned(n, pc) ||
            (x == t && pc == Try(WaitFlag(Scanned(n, pc))) && Scanned(n, pc') == Scanned(n, pc) + 1)
  {
  }

  lemma {:induction false} ScanLooks(s: State, iter: nat, schedule: seq<nat>, t: nat, k: nat)
    requires WellFormed(s) && t < |s.pcs| && s.pcs[t] == Try(WaitFlag(0)) && KeepsTicket(s, iter, schedule, t)
    requires Ticketed(Run(s, iter, schedule).pcs[t]) && k < Scanned(|s.pcs|, Run(s, iter, schedule).pcs[t])
    ensures LooksAt(s, iter, schedule, t, k)
  {
    if schedule != [] {
      var last := |schedule| - 1;
      var before, x := schedule[..last], schedule[last];
      var mid := Run(s, iter, before);
      assert schedule == before + [x];
      assert Ticketed(mid.pcs[t]);
      ScanStep(mid, iter, x, t);
      if k < Scanned(|s.pcs|, mid.pcs[t]) {
        forall m: nat | m <= |before| ensures Ticketed(Run(s, iter, before[..m]).pcs[t]) {
          assert before[..m] == schedule[..m];
        }
        ScanLooks(s, iter, before, t, k);
        LooksExtends(s, iter, before, x, t, k);
      } else {
        LooksNow(s, iter, before, t, k);
      }
    }
  }

  /**
   * A thread that was told to wait scans from the beginning: before it owns the lock its scan comes to
   * every thread again.
   */
  lemma EntersAfterCleanScan(s: State, iter: nat, schedule: seq<nat>, t: nat, k: nat)
    requires WellFormed(s) && t < |s.pcs| && k < |s.pcs| && MustWait(s, t)
    requires KeepsTicket(Step(s, iter, t), iter, schedule, t)
    ensures Owns(Run(Step(s, iter, t), iter, schedule).pcs[t]) ==> LooksAt(Step(s, iter, t), iter, schedule, t, k)
  {
    if Owns(Run(Step(s, iter, t), iter, schedule).pcs[t]) {
      ScanLooks(Step(s, iter, t), iter, schedule, t, k);
    }
  }

  /** Thread i executes its releasing write somewhere in the schedule that starts at s. */
  ghost predicate Releases(s: State, iter: nat, schedule: seq<nat>, i: nat)
    requires WellFormed(s) && i < |s.pcs|
  {
    exists m :: 0 <= m < |schedule| && schedule[m] == i && Run(s, iter, schedule[..m]).pcs[i] == Do(Unlock)
  }

  lemma ReleasesExtends(s: State, iter: nat, schedule: seq<nat>, i: nat)
    requires WellFormed(s) && i < |s.pcs| && schedule != []
    ensures var last := |schedule| - 1;
            Releases(s, iter, schedule[..last], i) ==> Releases(s, iter, schedule, i)
  {
    var early := schedule[..|schedule| - 1];
    if Releases(s, iter, early, i) {
      var m :| 0 <= m < |early| && early[m] == i && Run(s, iter, early[..m]).pcs[i] == Do(Unlock);
      assert schedule[..m] == early[..m];
    }
  }

  /** A ticket is given up only by the releasing write of its owner. */
  lemma StepKeepsTicket(s: State, iter: nat, x: nat, i: nat)
    requires WellFormed(s) && i < |s.pcs| && Ticketed(s.pcs[i])
    requires x == i ==> s.pcs[i] != Do(Unlock)
    ensures Ticketed(Step(s, iter, x).pcs[i])
  {
  }

  lemma {:induction false} OrderHolds(s: State, iter: nat, schedule: seq<nat>, i: nat, k: nat)
    requires Inv(s, iter) && i < |s.pcs| && k < |s.pcs| && i != k
    requires Ticketed(s.pcs[i]) && Precedes(s, i, k)
    requires !Releases(s, iter, schedule, i)
    ensures var s' := Run(s, iter, schedule); Ticketed(s'.pcs[i]) && Precedes(s', i, k)
  {
    if schedule != [] {
      var last := |schedule| - 1;
      var early := schedule[..last];
      ReleasesExtends(s, iter, schedule, i);
      OrderHolds(s, iter, early, i, k);
      var mid := Run(s, iter, early);
      RunKeepsInv(s, iter, early);
      StepKeepsTicket(mid, iter, schedule[last], i);
      StepKeepsPrecedes(mid, iter, schedule[last], i, k);
    }
  }

  /**
   * First come, first served.  Take any reachable state in which i has finished its doorway and k
   * has not started one.  However the run continues, k owns the lock only after i has released it.
   */
  lemma FirstComeFirstServed(n: nat, iter: nat, before: seq<nat>, after: seq<nat>, i: nat, k: nat)
    requires i < n && k < n
    requires var s := Run(Init(n), iter, before); Ticketed(s.pcs[i]) && Away(s.pcs[k])
    ensures var s := Run(Init(n), iter, before);
            Owns(Run(s, iter, after).pcs[k]) ==> Releases(s, iter, after, i)
  {
    var s := Run(Init(n), iter, before);
    InitInv(n, iter);
    RunKeepsInv(Init(n), iter, before);
    if !Releases(s, iter, after, i) {
      OrderHolds(s, iter, after, i, k);
      RunKeepsInv(s, iter, after);
      assert PairSound(Run(s, iter, after), k, i);
    }
  }

  /** How often thread k releases the lock in the schedule that starts at s. */
  ghost function ReleaseCount(s: State, iter: nat, schedule: seq<nat>, k: nat): nat
    requires WellFormed(s) && k < |s.pcs|
  {
    if schedule == [] then 0
    else
      var last := |schedule| - 1;
      ReleaseCount(s, iter, schedule[..last], k) +
      if schedule[last] == k && Run(s, iter, schedule[..last]).pcs[k] == Do(Unlock) then 1 else 0
  }

  lemma {:induction false} ReleasedIsBehind(s: State, iter: nat, schedule: seq<nat>, i: nat, k: nat)
    requires Inv(s, iter) && i < |s.pcs| && k < |s.pcs| && i != k && Ticketed(s.pcs[i])
    requires !Releases(s, iter, schedule, i)
    ensures var s' := Run(s, iter, schedule);
            && Ticketed(s'.pcs[i]) && ReleaseCount(s, iter, schedule, k) <= 1
            && (ReleaseCount(s, iter, schedule, k) == 1 ==> Precedes(s', i, k))
  {
    if schedule != [] {
      var last := |schedule| - 1;
      var early := schedule[..last];
      var mid := Run(s, iter, early);
      ReleasesExtends(s, iter, schedule, i);
      ReleasedIsBehind(s, iter, early, i, k);
      RunKeepsInv(s, iter, early);
      StepKeepsTicket(mid, iter, schedule[last], i);
      if ReleaseCount(s, iter, early, k) == 1 {
        StepKeepsPrecedes(mid, iter, schedule[last], i, k);
        assert PairSound(mid, k, i);
      }
    }
  }

  /**
   * Bounded overtaking.  Once i has finished its doorway, each other thread leaves the critical section
   * at most once before i does.
   */
  lemma BoundedOvertaking(n: nat, iter: nat, before: seq<nat>, after: seq<nat>, i: nat, k: nat)
    requires i < n && k < n && i != k && Ticketed(Run(Init(n), iter, before).pcs[i])
    requires !Releases(Run(Init(n), iter, before), iter, after, i)
    ensures ReleaseCount(Run(Init(n), iter, before), iter, after, k) <= 1
  {
    InitInv(n, iter);
    RunKeepsInv(Init(n), iter, before);
    ReleasedIsBehind(Run(Init(n), iter, before), iter, after, i, k);
  }
}
