/** What the scheduler does, as opposed to what it avoids: jobs have loops, loops sync, ticks lead to syncs. */
module SchedulerProgress {
  import opened Scheduler
  import opened SchedulerSafety
  import opened SchedulerRuns

  // ---- What one step does to one goroutine ----

  /** A step of nobody or of another goroutine leaves it as it is. */
  lemma OthersLeaveWorker(s: Sched, step: Step, w: nat)
    requires JobsExact(s) && Enabled(s, step) && w < |s.workers| && !StepOf(step, w)
    ensures w < |Apply(s, step).workers| && Apply(s, step).workers[w] == s.workers[w]
  {
    hide Register, StopExisting, RemoveJobStep, CloseJobs, JobsExact, FetchLockStep, TryLockStep, UnlockStep;
    match step
    case AddJob(source, _) => RegisterShape(s, source);
    case UpdateInterval(source) => RegisterShape(s, source);
    case RemoveJob(source) => RemoveShape(s, source);
    case CloseAll => CloseAllShape(s);
    case FetchLock(_) => LockStepsMove(s, step);
    case TryLock(_) => LockStepsMove(s, step);
    case Unlock(_) => LockStepsMove(s, step);
    case _ =>
  }

  /** The goroutine's own steps, stage by stage. */
  ghost predicate Moves(worker: Worker, step: Step, w: nat, stage: Stage) {
    match step
    case DelayOver(_) => worker.stage.Delayed? && stage.Starting?
    case TakeTick(_) => worker.Loop? && worker.stage.Selecting? && stage.Starting?
    case Exit(_) => worker.Loop? && (worker.stage.Delayed? || worker.stage.Selecting?) && stage.Gone?
    case FetchLock(_) => worker.stage.Starting? && stage.Fetched?
    case TryLock(_) =>
      && worker.stage.Fetched?
      && (stage == Syncing(worker.stage.lock) || stage == (if worker.Loop? then Selecting else Gone))
    case Unlock(_) => worker.stage.Syncing? && stage == (if worker.Loop? then Selecting else Gone)
    case _ => false
  }

  lemma OwnStepMoves(s: Sched, step: Step, w: nat)
    requires Enabled(s, step) && w < |s.workers| && StepOf(step, w)
    ensures
      var s' := Apply(s, step);
      && w < |s'.workers| && s'.workers[w] == s.workers[w].(stage := s'.workers[w].stage)
      && Moves(s.workers[w], step, w, s'.workers[w].stage)
  {
    match step
    case FetchLock(_) => OwnFetch(s, w);
    case TryLock(_) => OwnTry(s, w);
    case Unlock(_) => OwnUnlock(s, w);
    case DelayOver(_) =>
    case TakeTick(_) =>
    case Exit(_) =>
  }

  lemma OwnFetch(s: Sched, w: nat)
    requires w < |s.workers| && s.workers[w].stage.Starting?
    ensures
      var s' := FetchLockStep(s, w);
      w < |s'.workers| && s'.workers[w].stage.Fetched? && s'.workers[w] == s.workers[w].(stage := s'.workers[w].stage)
  {
  }

  lemma OwnTry(s: Sched, w: nat)
    requires Enabled(s, TryLock(w))
    ensures
      var s', l := TryLockStep(s, w), s.workers[w].stage.lock;
      && w < |s'.workers| && s'.workers[w] == s.workers[w].(stage := s'.workers[w].stage)
      && s'.workers[w].stage
         == if s.mutexes[l].holder.Free? then Syncing(l) else if s.workers[w].Loop? then Selecting else Gone
  {
  }

  lemma OwnUnlock(s: Sched, w: nat)
    requires Enabled(s, Unlock(w))
    ensures
      var s' := UnlockStep(s, w);
      && w < |s'.workers| && s'.workers[w] == s.workers[w].(stage := s'.workers[w].stage)
      && s'.workers[w].stage == if s.workers[w].Loop? then Selecting else Gone
  {
  }

  /** A goroutine keeps its identity; only its own exit makes a loop leave; a one-off goroutine never waits. */
  lemma WorkerSteps(s: Sched, step: Step, w: nat)
    requires JobsExact(s) && Enabled(s, step) && w < |s.workers|
    ensures
      var s' := Apply(s, step);
      && w < |s'.workers| && s'.workers[w] == s.workers[w].(stage := s'.workers[w].stage)
      && (s.workers[w].Loop? && !s.workers[w].stage.Gone? && step != Exit(w) ==> !s'.workers[w].stage.Gone?)
      && (IsOneOff(s.workers[w]) ==> IsOneOff(s'.workers[w]))
      && Owed(s'.workers[w].stage) + (if step == FetchLock(w) then 1 else 0) + Forgone(s, step, w)
         == Owed(s.workers[w].stage) + (if step == TakeTick(w) then 1 else 0)
  {
    hide Apply, Enabled, JobsExact;
    if StepOf(step, w) {
      OwnStepMoves(s, step, w);
    } else {
      OthersLeaveWorker(s, step, w);
    }
  }

  predicate IsOneOff(worker: Worker) {
    worker.Manual? && !worker.stage.Delayed? && !worker.stage.Selecting?
  }

  /** A loop that leaves during its initial delay forgoes its first sync. */
  function Forgone(s: Sched, step: Step, w: nat): nat
    requires w < |s.workers|
  {
    if step == Exit(w) && s.workers[w].stage.Delayed? then 1 else 0
  }

  // ---- What one step does to the jobs ----

  lemma JobStepsOnJobs(s: Sched, step: Step, j: nat)
    requires JobsExact(s) && Enabled(s, step) && j < |s.arena|
    requires step.AddJob? || step.RemoveJob? || step.UpdateInterval? || step.CloseAll?
    ensures
      var s' := Apply(s, step);
      && j < |s'.arena| && (s'.arena[j].open ==> s.arena[j].open) && s'.arena[j].pending == s.arena[j].pending
  {
    hide StopExisting, JobsExact;
    match step
    case AddJob(source, _) => StoppingKeepsTicks(s, source);
    case UpdateInterval(source) => StoppingKeepsTicks(s, source);
    case RemoveJob(source) => StoppingKeepsTicks(s, source);
    case CloseAll =>
  }

  /** A channel that is closed stays closed; a tick is waiting only if it was or has just come; a taken tick is gone. */
  lemma StepOnJob(s: Sched, step: Step, j: nat)
    requires JobsExact(s) && Enabled(s, step) && j < |s.arena|
    ensures
      var s' := Apply(s, step);
      && j < |s'.arena| && (s'.arena[j].open ==> s.arena[j].open)
      && s'.arena[j].pending
         == if step == Tick(j) then true else if TakesFrom(s, step, j) then false else s.arena[j].pending
    ensures TakesFrom(s, step, j) ==> s.arena[j].pending
  {
    hide Register, StopExisting, RemoveJobStep, CloseJobs, JobsExact, FetchLockStep, TryLockStep, UnlockStep;
    match step
    case AddJob(_, _) => JobStepsOnJobs(s, step, j);
    case RemoveJob(_) => JobStepsOnJobs(s, step, j);
    case UpdateInterval(_) => JobStepsOnJobs(s, step, j);
    case CloseAll => JobStepsOnJobs(s, step, j);
    case FetchLock(_) => LockStepsMove(s, step);
    case TryLock(_) => LockStepsMove(s, step);
    case Unlock(_) => LockStepsMove(s, step);
    case _ =>
  }

  /** The step takes a tick of the job. */
  predicate TakesFrom(s: Sched, step: Step, j: nat) {
    step.TakeTick? && step.worker < |s.workers| && s.workers[step.worker].Loop? && s.workers[step.worker].job == j
  }

  /** New jobs and jobs waiting for their loop: AddJob starts the loop with the job, UpdateInterval leaves it to a later
      Spawn, which is the only step to take a job off the waiting list. */
  lemma StepOnWaiting(s: Sched, step: Step)
    requires JobsExact(s) && Enabled(s, step)
    ensures
      var s' := Apply(s, step);
      && |s.arena| <= |s'.arena| <= |s.arena| + 1
      && (|s'.arena| > |s.arena| ==> step.AddJob? || step.UpdateInterval?)
      && (|s'.arena| > |s.arena| ==>
            s'.arena[|s.arena|] == Job(step.source, true, true, false) && s'.jobs == s.jobs[step.source := |s.arena|])
      && s'.unspawned == (if step.Spawn? then s.unspawned - {step.job}
                          else if |s'.arena| > |s.arena| && step.UpdateInterval? then s.unspawned + {|s.arena|}
                          else s.unspawned)
      && (s.cancelled ==> s'.cancelled)
  {
    hide Register, StopExisting, RemoveJobStep, CloseJobs, JobsExact, FetchLockStep, TryLockStep, UnlockStep;
    match step
    case AddJob(source, _) => Registers(s, source);
    case UpdateInterval(source) => Registers(s, source);
    case RemoveJob(source) => Removes(s, source);
    case CloseAll => Closes(s);
    case FetchLock(_) => LocksLeave(s, step);
    case TryLock(_) => LocksLeave(s, step);
    case Unlock(_) => LocksLeave(s, step);
    case _ =>
  }

  lemma Registers(s: Sched, source: string)
    ensures
      var s' := Register(StopExisting(s, source), source);
      && |s'.arena| == |s.arena| + 1 && s'.arena[|s.arena|] == Job(source, true, true, false)
      && s'.jobs == s.jobs[source := |s.arena|] && s'.unspawned == s.unspawned && s'.cancelled == s.cancelled
      && s'.workers == s.workers
  {
  }

  lemma Removes(s: Sched, source: string)
    ensures
      var s' := RemoveJobStep(s, source);
      |s'.arena| == |s.arena| && s'.unspawned == s.unspawned && s'.cancelled == s.cancelled
  {
  }

  lemma Closes(s: Sched)
    ensures
      var s' := CloseJobs(s, s.jobs.Keys);
      |s'.arena| == |s.arena| && s'.unspawned == s.unspawned && s'.cancelled == s.cancelled
  {
  }

  lemma LocksLeave(s: Sched, step: Step)
    requires Enabled(s, step) && IsLockStep(step)
    ensures
      var s' := Apply(s, step);
      s'.arena == s.arena && s'.unspawned == s.unspawned && s'.cancelled == s.cancelled
  {
  }

  /** Which steps start a goroutine, and how. */
  lemma NewWorkers(s: Sched, step: Step)
    requires JobsExact(s) && Enabled(s, step)
    ensures
      var s', n := Apply(s, step), |s.workers|;
      && |s'.workers| == (if step.AddJob? || step.Spawn? || step.TriggerSync? then n + 1 else n)
      && (step.AddJob? ==>
            s'.workers[n] == Loop(|s.arena|, step.source, if step.delayed then Delayed else Starting))
      && (step.Spawn? ==> s'.workers[n] == Loop(step.job, s.arena[step.job].source, Selecting))
      && (step.TriggerSync? ==> s'.workers[n] == Manual(step.source, Starting))
  {
    hide Register, StopExisting, RemoveJobStep, CloseJobs, JobsExact, FetchLockStep, TryLockStep, UnlockStep;
    match step
    case AddJob(source, _) => Registers(s, source);
    case UpdateInterval(source) => Registers(s, source);
    case RemoveJob(source) => RemoveShape(s, source);
    case CloseAll => CloseAllShape(s);
    case FetchLock(_) => LockStepsMove(s, step);
    case TryLock(_) => LockStepsMove(s, step);
    case Unlock(_) => LockStepsMove(s, step);
    case _ =>
  }

  // ---- Every job is served ----

  ghost predicate HasLoop(s: Sched, j: nat) {
    exists w :: 0 <= w < |s.workers| && LoopOf(s, w, j) && !s.workers[w].stage.Gone?
  }

  /** Until the scheduler is cancelled, every job with an open stop channel waits for its loop to be spawned or has a
      loop that has not left. */
  ghost predicate JobsServed(s: Sched) {
    !s.cancelled ==> forall j :: 0 <= j < |s.arena| && s.arena[j].open ==> j in s.unspawned || HasLoop(s, j)
  }

  lemma LoopStays(s: Sched, step: Step, j: nat)
    requires JobsExact(s) && Enabled(s, step) && j < |s.arena| && s.arena[j].open && !s.cancelled && HasLoop(s, j)
    ensures HasLoop(Apply(s, step), j)
  {
    hide Apply, JobsExact;
    var w: nat :| w < |s.workers| && LoopOf(s, w, j) && !s.workers[w].stage.Gone?;
    WorkerSteps(s, step, w);
    assert LoopOf(Apply(s, step), w, j);
  }

  lemma StepKeepsServed(s: Sched, step: Step)
    requires JobsExact(s) && Enabled(s, step) && JobsServed(s)
    ensures JobsServed(Apply(s, step))
  {
    hide Apply, Enabled, JobsExact, HasLoop;
    var s' := Apply(s, step);
    StepOnWaiting(s, step);
    NewWorkers(s, step);
    if !s'.cancelled {
      forall j | 0 <= j < |s'.arena| && s'.arena[j].open
        ensures j in s'.unspawned || HasLoop(s', j)
      {
        if j == |s.arena| {
          if step.AddJob? {
            IsLoop(s', |s.workers|, j);
          }
        } else {
          StepOnJob(s, step, j);
          if step == Spawn(j) {
            IsLoop(s', |s.workers|, j);
          } else if HasLoop(s, j) {
            LoopStays(s, step, j);
          }
        }
      }
    }
  }

  lemma IsLoop(s: Sched, w: nat, j: nat)
    requires w < |s.workers| && LoopOf(s, w, j) && !s.workers[w].stage.Gone?
    ensures HasLoop(s, j)
  {
  }

  lemma {:induction false} JobsAreServed(states: seq<Sched>, steps: seq<Step>, n: nat)
    requires History(states, steps) && n < |states|
    ensures JobsServed(states[n])
  {
    hide Apply, Enabled, JobsServed, Invariant;
    if n == 0 {
      NoJobs(states[0]);
    } else {
      JobsAreServed(states, steps, n - 1);
      AlwaysGood(states, steps, n - 1);
      JobsOf(states[n - 1]);
      StepKeepsServed(states[n - 1], steps[n - 1]);
    }
  }

  lemma NoJobs(s: Sched)
    requires s.arena == []
    ensures JobsServed(s)
  {
  }

  // ---- Every tick and every start leads to a sync ----

  /** Step `c` starts goroutine `w`. */
  ghost predicate Born(states: seq<Sched>, steps: seq<Step>, c: nat, w: nat)
    requires |states| == |steps| + 1
  {
    c < |steps| && |states[c].workers| == w && |states[c + 1].workers| == w + 1
  }

  function Takes(steps: seq<Step>, w: nat, m: nat, n: nat): nat
    requires m <= n <= |steps|
  {
    if m == n then 0 else Takes(steps, w, m, n - 1) + if steps[n - 1] == TakeTick(w) then 1 else 0
  }

  function Forgoes(states: seq<Sched>, steps: seq<Step>, w: nat, m: nat, n: nat): nat
    requires m <= n <= |steps| && |states| == |steps| + 1
  {
    if m == n then 0
    else
      Forgoes(states, steps, w, m, n - 1)
      + if w < |states[n - 1].workers| then Forgone(states[n - 1], steps[n - 1], w) else 0
  }

  /** The syncs a goroutine has started, and the one it still owes or has forgone by leaving during its delay, are as
      many as the ticks it took, and one more if it was started by AddJob or TriggerSync and not for UpdateInterval. */
  lemma {:induction false} StartsAreOwed(states: seq<Sched>, steps: seq<Step>, c: nat, w: nat, n: nat)
    requires History(states, steps) && Born(states, steps, c, w) && c < n < |states|
    ensures w < |states[n].workers|
    ensures Starts(steps, w, c + 1, n) + Owed(states[n].workers[w].stage) + Forgoes(states, steps, w, c + 1, n)
         == Takes(steps, w, c + 1, n) + if steps[c].Spawn? then 0 else 1
    ensures steps[c].TriggerSync? ==> IsOneOff(states[n].workers[w])
    decreases n
  {
    hide Apply, Enabled, Invariant, JobsExact, IsOneOff, Owed;
    AlwaysGood(states, steps, n - 1);
    JobsOf(states[n - 1]);
    if n == c + 1 {
      NewWorkers(states[c], steps[c]);
      NewOwe(states[c + 1].workers[w], steps[c]);
    } else {
      StartsAreOwed(states, steps, c, w, n - 1);
      WorkerSteps(states[n - 1], steps[n - 1], w);
    }
  }

  lemma NewOwe(worker: Worker, step: Step)
    requires step.AddJob? || step.Spawn? || step.TriggerSync?
    requires step.AddJob? ==> worker.stage == if step.delayed then Delayed else Starting
    requires step.Spawn? ==> worker.stage == Selecting
    requires step.TriggerSync? ==> worker == Manual(step.source, Starting)
    ensures Owed(worker.stage) == if step.Spawn? then 0 else 1
    ensures step.TriggerSync? ==> IsOneOff(worker)
  {
  }

  function TicksOf(steps: seq<Step>, j: nat, n: nat): nat
    requires n <= |steps|
  {
    if n == 0 then 0 else TicksOf(steps, j, n - 1) + if steps[n - 1] == Tick(j) then 1 else 0
  }

  function TakesOf(states: seq<Sched>, steps: seq<Step>, j: nat, n: nat): nat
    requires n <= |steps| && |states| == |steps| + 1
  {
    if n == 0 then 0
    else TakesOf(states, steps, j, n - 1) + if TakesFrom(states[n - 1], steps[n - 1], j) then 1 else 0
  }

  /** No tick is taken twice or out of thin air. */
  lemma {:induction false} TakesAreTicks(states: seq<Sched>, steps: seq<Step>, j: nat, n: nat)
    requires History(states, steps) && n < |states|
    ensures if j < |states[n].arena|
            then TakesOf(states, steps, j, n) + (if states[n].arena[j].pending then 1 else 0) <= TicksOf(steps, j, n)
            else TakesOf(states, steps, j, n) == 0
  {
    hide Apply, Invariant, JobsExact;
    if n > 0 {
      TakesAreTicks(states, steps, j, n - 1);
      AlwaysGood(states, steps, n - 1);
      JobsOf(states[n - 1]);
      StepOnWaiting(states[n - 1], steps[n - 1]);
      if j < |states[n - 1].arena| {
        StepOnJob(states[n - 1], steps[n - 1], j);
      }
    }
  }

  // ---- The way to a sync ----

  datatype Outcome = Reached(state: Sched) | Stuck

  /** Where the steps lead, if each is enabled in its turn. */
  function Follow(s: Sched, steps: seq<Step>): Outcome
    decreases |steps|
  {
    if steps == [] then Reached(s)
    else if Enabled(s, steps[0]) then Follow(Apply(s, steps[0]), steps[1..])
    else Stuck
  }

  lemma FollowNext(s: Sched, step: Step, rest: seq<Step>)
    requires Enabled(s, step)
    ensures Follow(s, [step] + rest) == Follow(Apply(s, step), rest)
  {
    assert ([step] + rest)[1..] == rest;
  }

  ghost predicate LockIsFree(s: Sched, source: string) {
    source in s.locks ==> s.locks[source] < |s.mutexes| && s.mutexes[s.locks[source]].holder.Free?
  }

  ghost predicate Arrives(s: Sched, steps: seq<Step>, w: nat) {
    && Follow(s, steps).Reached? && w < |Follow(s, steps).state.workers|
    && Follow(s, steps).state.workers[w].stage.Syncing?
  }

  lemma StartingArrives(s: Sched, w: nat)
    requires w < |s.workers| && s.workers[w].stage.Starting? && LockIsFree(s, s.workers[w].source)
    ensures Arrives(s, [FetchLock(w), TryLock(w)], w)
  {
    var s1 := Apply(s, FetchLock(w));
    FetchedFree(s, w);
    OwnTry(s1, w);
    hide Enabled, Apply, Follow;
    FollowNext(s, FetchLock(w), [TryLock(w)]);
    FollowNext(s1, TryLock(w), []);
    FollowNone(Apply(s1, TryLock(w)));
    assert [FetchLock(w)] + [TryLock(w)] == [FetchLock(w), TryLock(w)] && [TryLock(w)] + [] == [TryLock(w)];
    TryApplied(s1, w);
  }

  lemma TryApplied(s: Sched, w: nat)
    requires Enabled(s, TryLock(w))
    ensures Apply(s, TryLock(w)) == TryLockStep(s, w)
  {
  }

  lemma FollowNone(s: Sched)
    ensures Follow(s, []) == Reached(s)
  {
  }

  lemma FetchedFree(s: Sched, w: nat)
    requires w < |s.workers| && s.workers[w].stage.Starting? && LockIsFree(s, s.workers[w].source)
    ensures
      var s' := Apply(s, FetchLock(w));
      Enabled(s', TryLock(w)) && s'.mutexes[s'.workers[w].stage.lock].holder.Free?
  {
  }

  /** A new loop, its delay over if it has one, gets into its sync by its own steps when the lock is free. */
  lemma NewLoopArrives(s: Sched, w: nat)
    requires w < |s.workers| && (s.workers[w].stage.Delayed? || s.workers[w].stage.Starting?)
    requires LockIsFree(s, s.workers[w].source)
    ensures s.workers[w].stage.Starting? ==> Arrives(s, [FetchLock(w), TryLock(w)], w)
    ensures s.workers[w].stage.Delayed? ==> Arrives(s, [DelayOver(w), FetchLock(w), TryLock(w)], w)
  {
    if s.workers[w].stage.Starting? {
      StartingArrives(s, w);
    } else {
      StartingArrives(Apply(s, DelayOver(w)), w);
      FollowNext(s, DelayOver(w), [FetchLock(w), TryLock(w)]);
      assert [DelayOver(w)] + [FetchLock(w), TryLock(w)] == [DelayOver(w), FetchLock(w), TryLock(w)];
    }
  }

  /** So does a loop in its select with a tick waiting; and a registered job's tick is always possible. */
  lemma TickArrives(s: Sched, w: nat)
    requires JobsExact(s) && w < |s.workers| && s.workers[w].Loop? && s.workers[w].stage.Selecting?
    requires s.workers[w].job < |s.arena| && LockIsFree(s, s.workers[w].source)
    ensures s.arena[s.workers[w].job].pending ==> Arrives(s, [TakeTick(w), FetchLock(w), TryLock(w)], w)
    ensures s.arena[s.workers[w].job].open ==>
      Arrives(s, [Tick(s.workers[w].job), TakeTick(w), FetchLock(w), TryLock(w)], w)
  {
    var j := s.workers[w].job;
    if s.arena[j].pending {
      WaitingTickArrives(s, w);
    }
    if s.arena[j].open {
      WaitingTickArrives(Apply(s, Tick(j)), w);
      FollowNext(s, Tick(j), [TakeTick(w), FetchLock(w), TryLock(w)]);
      assert [Tick(j)] + [TakeTick(w), FetchLock(w), TryLock(w)] == [Tick(j), TakeTick(w), FetchLock(w), TryLock(w)];
    }
  }

  lemma WaitingTickArrives(s: Sched, w: nat)
    requires w < |s.workers| && s.workers[w].Loop? && s.workers[w].stage.Selecting?
    requires s.workers[w].job < |s.arena| && s.arena[s.workers[w].job].pending && LockIsFree(s, s.workers[w].source)
    ensures Arrives(s, [TakeTick(w), FetchLock(w), TryLock(w)], w)
  {
    StartingArrives(Apply(s, TakeTick(w)), w);
    FollowNext(s, TakeTick(w), [FetchLock(w), TryLock(w)]);
    assert [TakeTick(w)] + [FetchLock(w), TryLock(w)] == [TakeTick(w), FetchLock(w), TryLock(w)];
  }

  /** A goroutine that finds the lock held skips its sync; a loop is then back in its select. */
  lemma BusyIsSkipped(s: Sched, w: nat)
    requires Enabled(s, TryLock(w)) && s.mutexes[s.workers[w].stage.lock].holder.HeldBy?
    ensures Apply(s, TryLock(w)).workers[w].stage == if s.workers[w].Loop? then Selecting else Gone
    ensures Apply(s, TryLock(w)).mutexes == s.mutexes
  {
    OwnTry(s, w);
  }

  // ---- Removing, replacing and stopping ----

  /** After RemoveJob the source has no job, no lock if it had a job, and no open channel; the other sources' jobs are
      untouched. */
  lemma RemovedIsStopped(s: Sched, source: string)
    requires JobsExact(s)
    ensures
      var s' := Apply(s, Step.RemoveJob(source));
      && source !in s'.jobs && (source in s.jobs ==> source !in s'.locks)
      && |s'.arena| == |s.arena|
      && forall j :: 0 <= j < |s.arena| ==>
           if s.arena[j].source == source then !s'.arena[j].open && !s'.arena[j].ticking else s'.arena[j] == s.arena[j]
  {
    OthersKeepJobs(s, source);
  }

  lemma OthersKeepJobs(s: Sched, source: string)
    requires JobsExact(s)
    ensures
      var s' := StopExisting(s, source);
      && |s'.arena| == |s.arena|
      && forall j :: 0 <= j < |s.arena| ==>
           if s.arena[j].source == source then !s'.arena[j].open && !s'.arena[j].ticking else s'.arena[j] == s.arena[j]
  {
  }

  /** AddJob, and UpdateInterval on a registered source, stop the old job and put a new one in its place, ticking and
      with no tick waiting. */
  lemma ReplacedIsStopped(s: Sched, step: Step)
    requires JobsExact(s) && (step.AddJob? || (step.UpdateInterval? && step.source in s.jobs))
    ensures
      var s' := Apply(s, step);
      && s'.jobs == s.jobs[step.source := |s.arena|] && |s'.arena| == |s.arena| + 1
      && s'.arena[|s.arena|] == Job(step.source, true, true, false) && s'.locks == s.locks
      && forall j :: 0 <= j < |s.arena| ==>
           if s.arena[j].source == step.source then !s'.arena[j].open && !s'.arena[j].ticking
           else s'.arena[j] == s.arena[j]
  {
    OthersKeepJobs(s, step.source);
  }

  /** Once the scheduler is cancelled and has closed its jobs, no job is registered or ticks, and every loop in its
      delay or its select can leave. */
  lemma StopTellsEveryone(s: Sched, w: nat)
    requires Invariant(s) && w < |s.workers| && s.workers[w].Loop?
    ensures
      var s' := Apply(Apply(s, Cancel), CloseAll);
      && s'.jobs == map[] && (forall j :: 0 <= j < |s'.arena| ==> !s'.arena[j].open && !s'.arena[j].ticking)
      && w < |s'.workers| && s'.workers[w] == s.workers[w]
      && (s.workers[w].stage.Delayed? || s.workers[w].stage.Selecting? ==> Enabled(s', Exit(w)))
  {
    hide LocksExact, HoldersExact, LocksCounted, JobsExact;
    JobsOf(s);
    SameJobs(s, Apply(s, Cancel));
    CloseAllKeepsJobs(Apply(s, Cancel));
    CloseAllShape(Apply(s, Cancel));
    NothingOpen(Apply(Apply(s, Cancel), CloseAll));
  }

  lemma NothingOpen(s: Sched)
    requires JobsExact(s) && s.jobs == map[]
    ensures forall j :: 0 <= j < |s.arena| ==> !s.arena[j].open && !s.arena[j].ticking
  {
  }
}
