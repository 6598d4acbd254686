/** The stamps of submitted tasks, and which of them an aging pass finds old enough. */
module PoolStamps {
  import opened PriorityLanes
  import opened Counting
  import opened Deadline
  import opened ThreadPool
  import opened PoolTasks

  /** A task that has not been stamped yet. */
  predicate Unready(x: Submitter)
  {
    x.Enter? || x.CheckAging? || x.Stamp?
  }

  ghost predicate StampSound(s: Pool)
  {
    && s.aged <= |s.stamped|
    && (s.ager.AgeRead? || s.ager.AgeMove? ==> s.ager.due <= |s.stamped|)
    && (forall k :: 0 <= k < |s.stamped| ==> s.stamped[k] < s.nextId)
    && (forall i :: 0 <= i < |s.submitters| && Unready(s.submitters[i]) ==> s.submitters[i].id !in s.stamped)
  }

  lemma TwoCarriers(s: Pool, i: nat, j: nat)
    requires i < j < |s.submitters| && Unready(s.submitters[i]) && Unready(s.submitters[j])
    requires IdUnique(s, s.submitters[i].id)
    ensures s.submitters[i].id != s.submitters[j].id
  {
    var id := s.submitters[i].id;
    if s.submitters[j].id == id {
      CountTwo(Carries(id), s.submitters, i, j);
    }
  }

  lemma SubmitKeepsStamps(s: Pool, i: nat, p: Priority, wake: nat)
    requires i < |s.submitters| && StampSound(s) && forall id: nat :: IdUnique(s, id)
    ensures StampSound(SubmitStep(s, i, p, wake))
  {
    var s' := SubmitStep(s, i, p, wake);
    forall j | 0 <= j < |s.submitters| && Unready(s'.submitters[j]) ensures s'.submitters[j].id !in s'.stamped {
      if j != i && s.submitters[i].Stamp? {
        assert IdUnique(s, s.submitters[i].id) && IdUnique(s, s.submitters[j].id);
        TwoCarriers(s, if i < j then i else j, if i < j then j else i);
      } else if j == i && s.submitters[i].Create? {
        assert s'.submitters[i].id == s.nextId;
      }
    }
    if s.submitters[i].Stamp? {
      assert IdUnique(s, s.submitters[i].id);
      CountPositive(Carries(s.submitters[i].id), s.submitters, i);
    }
  }

  lemma AgeKeepsStamps(s: Pool, n: nat)
    requires StampSound(s)
    ensures StampSound(AgeStep(s, n))
  {
    assert AgeStep(s, n).submitters == s.submitters && AgeStep(s, n).stamped == s.stamped;
  }

  lemma OtherKeepsAger(s: Pool, a: Action)
    requires |s.workers| == |s.busy| && !a.Submit? && !a.Work? && !a.Age?
    ensures Step(s, a).ager == s.ager || Step(s, a).ager == AgeTop
    ensures Step(s, a).aged <= s.aged
  {
  }

  lemma StepKeepsStamps(s: Pool, a: Action)
    requires |s.workers| == |s.busy| && StampSound(s) && forall id: nat :: IdUnique(s, id)
    ensures StampSound(Step(s, a))
  {
    match a
    case Submit(i, p, wake) => if i < |s.submitters| { SubmitKeepsStamps(s, i, p, wake); }
    case Work(w, wake) => if w < |s.workers| { assert WorkStep(s, w, wake).submitters == s.submitters; }
    case Age(n) => AgeKeepsStamps(s, n);
    case _ =>
      OtherHistory(s, a);
      OtherKeepsAger(s, a);
  }

  // ---------- the clock ----------

  /** Readings of a monotone clock, none of them zero. */
  ghost predicate ClockReadings(times: seq<Timespec>)
  {
    && (forall k :: 0 <= k < |times| ==> Normalised(times[k]) && !Unstamped(times[k]))
    && (forall j, k :: 0 <= j < k < |times| ==> !Before(times[k], times[j]))
  }

  /** The number of stamps, from the first on, that are at least ms old at time `now`. */
  function OldEnough(times: seq<Timespec>, now: Timespec, ms: int): (due: nat)
    ensures due <= |times| && forall k :: 0 <= k < due ==> HasPassedMs(times[k], now, ms)
    ensures due < |times| ==> !HasPassedMs(times[due], now, ms)
  {
    if times == [] || !HasPassedMs(times[0], now, ms) then 0 else 1 + OldEnough(times[1..], now, ms)
  }

  /** Under a monotone clock the stamps that are old enough are exactly the first ones. */
  lemma DueIsFirstStamps(times: seq<Timespec>, now: Timespec, ms: int, k: nat)
    requires ClockReadings(times) && Normalised(now) && k < |times|
    ensures k < OldEnough(times, now, ms) <==> HasPassedMs(times[k], now, ms)
  {
    var due := OldEnough(times, now, ms);
    if due < k && HasPassedMs(times[k], now, ms) {
      BeforeIsInstantOrder(now, now);
      PassedMonotone(times[k], times[due], now, now, ms);
    }
  }

  /** A later pass finds at least as many, also when more tasks have been stamped. */
  lemma DueGrows(times: seq<Timespec>, more: seq<Timespec>, now: Timespec, now': Timespec, ms: int)
    requires ClockReadings(times + more) && Normalised(now) && Normalised(now') && !Before(now', now)
    ensures OldEnough(times, now, ms) <= OldEnough(times + more, now', ms)
  {
    var due, due' := OldEnough(times, now, ms), OldEnough(times + more, now', ms);
    if due' < due {
      var stamp := (times + more)[due'];
      assert stamp == times[due'];
      BeforeIsInstantOrder(stamp, stamp);
      PassedMonotone(stamp, stamp, now, now', ms);
    }
  }

  /** A task stamped after the reading of the clock is not due in that pass. */
  lemma LaterStampIsNotDue(stamp: Timespec, now: Timespec, ms: int)
    requires Normalised(stamp) && Normalised(now) && !Before(stamp, now) && ms > 0
    ensures !HasPassedMs(stamp, now, ms)
  {
    PassedIffDeadlineReached(stamp, now, ms);
    PlusMsExact(stamp, ms);
    BeforeIsInstantOrder(now, PlusMs(stamp, ms));
    BeforeIsInstantOrder(stamp, now);
  }
}
