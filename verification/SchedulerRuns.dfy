/** Mutual exclusion of syncs and the end of stopped loops, over whole runs of the scheduler. */
module SchedulerRuns {
  import opened Scheduler
  import opened SchedulerSafety

  // ---- Mutual exclusion ----

  ghost predicate NobodyUsesLock(s: Sched, source: string) {
    forall w :: 0 <= w < |s.workers| && s.workers[w].source == source ==> !UsesLock(s.workers[w])
  }

  /** Every goroutine of the source that uses a lock uses the one in the table. */
  ghost predicate TableLockOnly(s: Sched, source: string) {
    forall w :: 0 <= w < |s.workers| && s.workers[w].source == source && UsesLock(s.workers[w]) ==>
      source in s.locks && s.workers[w].stage.lock == s.locks[source]
  }

  lemma LockStepsKeepTable(s: Sched, step: Step, source: string)
    requires Enabled(s, step) && IsLockStep(step) && TableLockOnly(s, source)
    ensures TableLockOnly(Apply(s, step), source)
  {
    hide FetchLockStep, TryLockStep, UnlockStep, TableLockOnly;
    match step
    case FetchLock(w) => FetchKeepsTable(s, w, source);
    case TryLock(w) => TryKeepsTable(s, w, source);
    case Unlock(w) => UnlockKeepsTable(s, w, source);
  }

  lemma FetchKeepsTable(s: Sched, w: nat, source: string)
    requires w < |s.workers| && s.workers[w].stage.Starting? && TableLockOnly(s, source)
    ensures TableLockOnly(FetchLockStep(s, w), source)
  {
  }

  lemma TryKeepsTable(s: Sched, w: nat, source: string)
    requires Enabled(s, TryLock(w)) && TableLockOnly(s, source)
    ensures TableLockOnly(TryLockStep(s, w), source)
  {
  }

  lemma UnlockKeepsTable(s: Sched, w: nat, source: string)
    requires Enabled(s, Unlock(w)) && TableLockOnly(s, source)
    ensures TableLockOnly(UnlockStep(s, w), source)
  {
  }

  /** The step is a RemoveJob that takes the source's lock out of the table. */
  predicate DropsLock(s: Sched, step: Step, source: string) {
    step == Step.RemoveJob(source) && source in s.jobs && source in s.locks
  }

  lemma StepKeepsTable(s: Sched, step: Step, source: string)
    requires JobsExact(s) && Enabled(s, step) && TableLockOnly(s, source)
    requires DropsLock(s, step, source) ==> NobodyUsesLock(s, source)
    ensures TableLockOnly(Apply(s, step), source)
  {
    hide Register, StopExisting, RemoveJobStep, CloseJobs, JobsExact, FetchLockStep, TryLockStep, UnlockStep;
    match step
    case RemoveJob(src) => RemoveLocks(s, src);
    case FetchLock(w) => LockStepsKeepTable(s, step, source);
    case TryLock(w) => LockStepsKeepTable(s, step, source);
    case Unlock(w) => LockStepsKeepTable(s, step, source);
    case _ => OtherStepsAreAlike(s, step);
  }

  /** No lock of the source is dropped while one of its goroutines is between fetching and releasing a lock. */
  ghost predicate RemovedWhenIdle(states: seq<Sched>, steps: seq<Step>, source: string)
    requires |states| == |steps| + 1
  {
    forall k :: 0 <= k < |steps| && DropsLock(states[k], steps[k], source) ==> NobodyUsesLock(states[k], source)
  }

  lemma {:induction false} TableLockAlways(states: seq<Sched>, steps: seq<Step>, n: nat, source: string)
    requires Path(states, steps) && Invariant(states[0]) && TableLockOnly(states[0], source)
    requires RemovedWhenIdle(states, steps, source) && n < |states|
    ensures Invariant(states[n]) && TableLockOnly(states[n], source)
  {
    hide Invariant, Apply, Enabled, TableLockOnly, JobsExact, DropsLock;
    if n > 0 {
      TableLockAlways(states, steps, n - 1, source);
      JobsOf(states[n - 1]);
      StepKeepsTable(states[n - 1], steps[n - 1], source);
      StepKeepsInvariant(states[n - 1], steps[n - 1]);
    }
  }

  lemma NoWorkersNoLocks(s: Sched, source: string)
    requires s.workers == []
    ensures TableLockOnly(s, source)
  {
  }

  lemma JobsOf(s: Sched)
    requires Invariant(s)
    ensures JobsExact(s)
  {
  }

  /** A goroutine that syncs with the table's lock is the only one. */
  lemma AtMostOneInside(s: Sched, source: string)
    requires Invariant(s) && TableLockOnly(s, source)
    ensures |Inside(s, source)| <= 1
  {
    hide JobsExact, LoopsExact, LocksCounted;
    forall w, w' | w in Inside(s, source) && w' in Inside(s, source)
      ensures w == w'
    {
      assert UsesLock(s.workers[w]) && UsesLock(s.workers[w']);
      assert s.mutexes[s.locks[source]].holder == HeldBy(w);
    }
    InjectiveCount(s, Inside(s, source), if source in s.locks then {s.locks[source]} else {});
  }

  /** Mutual exclusion: while no lock of the source is dropped in the middle of its use, at most one sync of the source
      runs at a time. */
  lemma OneSyncAtATime(states: seq<Sched>, steps: seq<Step>, n: nat, source: string)
    requires History(states, steps) && RemovedWhenIdle(states, steps, source) && n < |states|
    ensures |Inside(states[n], source)| <= 1
  {
    hide Invariant, TableLockOnly, RemovedWhenIdle, Path;
    InitiallyGood();
    NoWorkersNoLocks(INITIAL, source);
    TableLockAlways(states, steps, n, source);
    AtMostOneInside(states[n], source);
  }

  // ---- When exclusion is lost ----

  ghost predicate NoDrop(states: seq<Sched>, steps: seq<Step>, source: string)
    requires |states| == |steps| + 1
  {
    forall k :: 0 <= k < |steps| ==> !DropsLock(states[k], steps[k], source)
  }

  /** From `s`, and without another lock of the source being dropped, the steps lead to two syncs of it at once. */
  ghost predicate Overlaps(s: Sched, source: string, states: seq<Sched>, steps: seq<Step>) {
    Path(states, steps) && states[0] == s && NoDrop(states, steps, source) && |Inside(states[|steps|], source)| >= 2
  }

  ghost predicate CanOverlap(s: Sched, source: string) {
    exists states, steps :: Overlaps(s, source, states, steps)
  }

  lemma OverlapsNow(s: Sched, source: string, v: nat, w: nat)
    requires v != w && v in Inside(s, source) && w in Inside(s, source)
    ensures CanOverlap(s, source)
  {
    hide Inside;
    assert |{v, w}| == 2 && {v, w} <= Inside(s, source);
    Smaller({v, w}, Inside(s, source));
    assert Overlaps(s, source, [s], []);
  }

  lemma {:induction false} Smaller(a: set<nat>, b: set<nat>)
    requires a <= b
    ensures |a| <= |b|
  {
    assert b == a + (b - a);
  }

  lemma OverlapsLater(s: Sched, step: Step, source: string)
    requires Enabled(s, step) && !DropsLock(s, step, source) && CanOverlap(Apply(s, step), source)
    ensures CanOverlap(s, source)
  {
    hide Enabled, Apply, DropsLock, Inside;
    var states, steps :| Overlaps(Apply(s, step), source, states, steps);
    var states', steps' := [s] + states, [step] + steps;
    forall k | 0 <= k < |steps'|
      ensures Enabled(states'[k], steps'[k]) && states'[k + 1] == Apply(states'[k], steps'[k])
      ensures !DropsLock(states'[k], steps'[k], source)
    {
      if k > 0 {
        assert steps'[k] == steps[k - 1] && states'[k] == states[k - 1] && states'[k + 1] == states[k];
      }
    }
    assert Overlaps(s, source, states', steps');
  }

  /** The goroutine uses a lock of the source that is not the one in the table. */
  predicate UsesOldLock(s: Sched, source: string, w: nat) {
    && w < |s.workers| && s.workers[w].source == source && UsesLock(s.workers[w])
    && (source !in s.locks || s.locks[source] != s.workers[w].stage.lock)
  }

  /** A goroutine that fetches the table's lock while that is free gets into its sync. */
  lemma NewcomerComesIn(s: Sched, source: string, w: nat)
    requires Invariant(s) && UsesOldLock(s, source, w) && s.workers[w].stage.Syncing?
    requires source in s.locks ==> s.mutexes[s.locks[source]].holder.Free?
    ensures CanOverlap(s, source)
  {
    var n := |s.workers|;
    var s1 := Apply(s, TriggerSync(source));
    var s2 := Apply(s1, FetchLock(n));
    Newcomer(s, source, w);
    var s3 := Apply(s2, TryLock(n));
    hide Apply, Enabled, Invariant;
    OverlapsNow(s3, source, w, n);
    OverlapsLater(s2, TryLock(n), source);
    OverlapsLater(s1, FetchLock(n), source);
    OverlapsLater(s, TriggerSync(source), source);
  }

  lemma Newcomer(s: Sched, source: string, w: nat)
    requires Invariant(s) && UsesOldLock(s, source, w) && s.workers[w].stage.Syncing?
    requires source in s.locks ==> s.mutexes[s.locks[source]].holder.Free?
    ensures
      var n, s1 := |s.workers|, Apply(s, TriggerSync(source));
      && Enabled(s1, FetchLock(n))
      && var s2 := Apply(s1, FetchLock(n));
         && Enabled(s2, TryLock(n))
         && var s3 := Apply(s2, TryLock(n));
            w in Inside(s3, source) && n in Inside(s3, source)
  {
    hide JobsExact, LoopsExact, HoldersExact, LocksCounted;
  }

  lemma SyncingIsEnough(s: Sched, source: string, w: nat)
    requires Invariant(s) && UsesOldLock(s, source, w) && s.workers[w].stage.Syncing?
    ensures CanOverlap(s, source)
  {
    if source in s.locks && s.mutexes[s.locks[source]].holder.HeldBy? {
      OverlapsNow(s, source, s.mutexes[s.locks[source]].holder.worker, w);
    } else {
      hide Invariant;
      NewcomerComesIn(s, source, w);
    }
  }

  lemma FetchedIsEnough(s: Sched, source: string, w: nat)
    requires Invariant(s) && UsesOldLock(s, source, w) && s.workers[w].stage.Fetched?
    ensures CanOverlap(s, source)
  {
    var l := s.workers[w].stage.lock;
    match s.mutexes[l].holder
    case Free =>
      StepKeepsInvariant(s, TryLock(w));
      SyncingIsEnough(Apply(s, TryLock(w)), source, w);
      OverlapsLater(s, TryLock(w), source);
    case HeldBy(v) => SyncingIsEnough(s, source, v);
  }

  lemma OldLockUser(s: Sched, source: string) returns (w: nat)
    requires !TableLockOnly(s, source)
    ensures UsesOldLock(s, source, w)
  {
    w :| w < |s.workers| && s.workers[w].source == source && UsesLock(s.workers[w])
         && !(source in s.locks && s.workers[w].stage.lock == s.locks[source]);
  }

  /** From any reachable state, and without another lock being dropped, two syncs of the source can come to run at once
      if and only if some goroutine uses a lock of the source that is not the one in the table. */
  lemma OverlapIff(s: Sched, source: string)
    requires Invariant(s)
    ensures CanOverlap(s, source) <==> !TableLockOnly(s, source)
  {
    hide Invariant, CanOverlap, Overlaps;
    if TableLockOnly(s, source) {
      NoOverlap(s, source);
    } else {
      var w := OldLockUser(s, source);
      if s.workers[w].stage.Syncing? {
        SyncingIsEnough(s, source, w);
      } else {
        FetchedIsEnough(s, source, w);
      }
    }
  }

  lemma NoOverlap(s: Sched, source: string)
    requires Invariant(s) && TableLockOnly(s, source)
    ensures !CanOverlap(s, source)
  {
    hide Invariant, TableLockOnly, Apply, Enabled;
    forall states, steps
      ensures !Overlaps(s, source, states, steps)
    {
      if Path(states, steps) && states[0] == s && NoDrop(states, steps, source) {
        TableLockAlways(states, steps, |steps|, source);
        AtMostOneInside(states[|steps|], source);
      }
    }
  }

  /** RemoveJob on a registered source opens the way to two syncs at once if and only if one of its goroutines is
      between fetching and releasing a lock. */
  lemma RemovalOpensOverlapIff(s: Sched, source: string)
    requires Invariant(s) && source in s.jobs
    ensures CanOverlap(Apply(s, Step.RemoveJob(source)), source) <==> !NobodyUsesLock(s, source)
  {
    hide RemoveJobStep, CanOverlap;
    StepKeepsInvariant(s, Step.RemoveJob(source));
    RemoveLocks(s, source);
    hide Invariant;
    OverlapIff(Apply(s, Step.RemoveJob(source)), source);
  }

  // ---- Stopped loops end ----

  function Owed(stage: Stage): nat {
    if stage.Delayed? || stage.Starting? then 1 else 0
  }

  /** How many more calls of executeSync a loop can start: the first one if it is still to come, and one for a tick that
      is waiting. */
  function StartsLeft(s: Sched, w: nat): nat
    requires w < |s.workers|
  {
    Owed(s.workers[w].stage)
    + (if s.workers[w].Loop? && s.workers[w].job < |s.arena| && s.arena[s.workers[w].job].pending then 1 else 0)
  }

  /** The loop of a job that has been told to stop. */
  ghost predicate Told(s: Sched, w: nat) {
    w < |s.workers| && s.workers[w].Loop? && s.workers[w].job < |s.arena| && !s.arena[s.workers[w].job].open
  }

  function Starts(steps: seq<Step>, w: nat, m: nat, n: nat): nat
    requires m <= n <= |steps|
  {
    if m == n then 0 else Starts(steps, w, m, n - 1) + if steps[n - 1] == FetchLock(w) then 1 else 0
  }

  lemma RegisteringLeavesTold(s: Sched, source: string, w: nat)
    requires JobsExact(s) && Told(s, w)
    ensures
      var s' := Register(StopExisting(s, source), source);
      Told(s', w) && StartsLeft(s', w) == StartsLeft(s, w)
  {
    hide JobsExact;
    StoppingKeepsTicks(s, source);
  }

  lemma StoppingKeepsTicks(s: Sched, source: string)
    ensures
      var s' := StopExisting(s, source);
      && |s'.arena| == |s.arena| && s'.workers == s.workers
      && forall j :: 0 <= j < |s.arena| ==>
              s'.arena[j].pending == s.arena[j].pending && (!s.arena[j].open ==> !s'.arena[j].open)
  {
  }

  lemma JobStepsLeaveTold(s: Sched, step: Step, w: nat)
    requires JobsExact(s) && Enabled(s, step) && Told(s, w)
    requires step.AddJob? || step.RemoveJob? || step.UpdateInterval? || step.CloseAll?
    ensures Told(Apply(s, step), w) && StartsLeft(Apply(s, step), w) <= StartsLeft(s, w)
  {
    hide Register, StopExisting, JobsExact;
    match step
    case AddJob(source, _) => RegisteringLeavesTold(s, source, w);
    case UpdateInterval(source) => RegisteringLeavesTold(s, source, w);
    case RemoveJob(source) => StoppingKeepsTicks(s, source);
    case CloseAll =>
  }

  /** One goroutine moves on, and nothing else changes for the loops. */
  lemma MovingLeavesTold(s: Sched, s': Sched, v: nat, stage: Stage, w: nat, started: nat)
    requires Told(s, w) && v < |s.workers|
    requires s'.arena == s.arena && s'.workers == s.workers[v := s.workers[v].(stage := stage)]
    requires if v == w then Owed(stage) + started <= Owed(s.workers[v].stage) else started == 0
    ensures Told(s', w) && StartsLeft(s', w) + started <= StartsLeft(s, w)
  {
  }

  lemma LockStepsLeaveTold(s: Sched, step: Step, w: nat)
    requires Enabled(s, step) && Told(s, w) && IsLockStep(step)
    ensures Told(Apply(s, step), w)
    ensures StartsLeft(Apply(s, step), w) + (if step == FetchLock(w) then 1 else 0) <= StartsLeft(s, w)
  {
    hide FetchLockStep, TryLockStep, UnlockStep, StartsLeft, Told;
    LockStepsMove(s, step);
    LockStepsOwe(s, step);
    var s', v := Apply(s, step), step.worker;
    MovingLeavesTold(s, s', v, s'.workers[v].stage, w, if step == FetchLock(w) then 1 else 0);
  }

  lemma LockStepsOwe(s: Sched, step: Step)
    requires Enabled(s, step) && IsLockStep(step)
    ensures
      var s', w := Apply(s, step), step.worker;
      w < |s.workers| && w < |s'.workers|
      && Owed(s'.workers[w].stage) + (if step.FetchLock? then 1 else 0) == Owed(s.workers[w].stage)
  {
  }

  lemma OtherStepsLeaveTold(s: Sched, step: Step, w: nat)
    requires JobsExact(s) && Enabled(s, step) && Told(s, w)
    requires !step.AddJob? && !step.RemoveJob? && !step.UpdateInterval? && !step.CloseAll?
    requires !IsLockStep(step)
    ensures Told(Apply(s, step), w) && StartsLeft(Apply(s, step), w) <= StartsLeft(s, w)
  {
  }

  /** Once told to stop, a loop starts at most as many more syncs as its measure says, whatever else happens. */
  lemma {:induction false} StoppedLoopRunsOut(states: seq<Sched>, steps: seq<Step>, m: nat, n: nat, w: nat)
    requires History(states, steps) && m <= n < |states| && Told(states[m], w)
    ensures Told(states[n], w)
    ensures Starts(steps, w, m, n) + StartsLeft(states[n], w) <= StartsLeft(states[m], w)
    decreases n
  {
    hide Invariant, Apply, Enabled, JobsExact, StartsLeft, Told;
    if m < n {
      StoppedLoopRunsOut(states, steps, m, n - 1, w);
      AlwaysGood(states, steps, n - 1);
      JobsOf(states[n - 1]);
      var step := steps[n - 1];
      if step.AddJob? || step.RemoveJob? || step.UpdateInterval? || step.CloseAll? {
        JobStepsLeaveTold(states[n - 1], step, w);
      } else if IsLockStep(step) {
        LockStepsLeaveTold(states[n - 1], step, w);
      } else {
        OtherStepsLeaveTold(states[n - 1], step, w);
      }
    }
  }

  predicate StepOf(step: Step, w: nat) {
    step in {DelayOver(w), TakeTick(w), Exit(w), FetchLock(w), TryLock(w), Unlock(w)}
  }

  /** A loop that was told to stop starts at most two more syncs, at most one if it is past its first one, and when its
      measure is used up and it is back in its select, it can do nothing but exit. */
  lemma StoppedLoopEnds(states: seq<Sched>, steps: seq<Step>, m: nat, n: nat, w: nat)
    requires History(states, steps) && m <= n < |states| && Told(states[m], w)
    ensures Told(states[n], w) && Starts(steps, w, m, n) <= 2
    ensures !states[m].workers[w].stage.Delayed? && !states[m].workers[w].stage.Starting? ==>
      Starts(steps, w, m, n) <= 1
    ensures StartsLeft(states[n], w) == 0 && states[n].workers[w].stage.Selecting? ==>
      MayExit(states[n], w) && forall step :: StepOf(step, w) && Enabled(states[n], step) ==> step == Exit(w)
  {
    hide History;
    StoppedLoopRunsOut(states, steps, m, n, w);
  }
}
