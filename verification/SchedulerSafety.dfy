/** What holds in every reachable state of the scheduler. */
module SchedulerSafety {
  import opened Scheduler

  // ---- Jobs ----

  /** The jobs with an open stop channel are exactly those registered, each under its own source; they and only they
      tick; and no channel was ever closed twice. */
  ghost predicate JobsExact(s: Sched) {
    && !s.panicked
    && (forall src :: src in s.jobs ==>
            s.jobs[src] < |s.arena| && s.arena[s.jobs[src]].source == src && s.arena[s.jobs[src]].open)
    && (forall j :: 0 <= j < |s.arena| && s.arena[j].open ==>
            s.arena[j].source in s.jobs && s.jobs[s.arena[j].source] == j)
    && (forall j :: 0 <= j < |s.arena| ==> s.arena[j].ticking == s.arena[j].open)
  }

  ghost predicate LoopOf(s: Sched, w: nat, j: nat)
    requires w < |s.workers|
  {
    s.workers[w].Loop? && s.workers[w].job == j
  }

  /** Every job has at most one loop, and none before it is spawned. */
  ghost predicate LoopsExact(s: Sched) {
    && (forall w :: 0 <= w < |s.workers| && s.workers[w].Loop? ==>
          s.workers[w].job < |s.arena| && s.arena[s.workers[w].job].source == s.workers[w].source)
    && (forall w, j :: 0 <= w < |s.workers| && j in s.unspawned ==> !LoopOf(s, w, j))
    && (forall w, w', j :: 0 <= w < |s.workers| && 0 <= w' < |s.workers| && LoopOf(s, w, j) && LoopOf(s, w', j) ==>
            w == w')
    && (forall j :: j in s.unspawned ==> j < |s.arena|)
  }

  // ---- Locks ----

  predicate UsesLock(worker: Worker) {
    worker.stage.Fetched? || worker.stage.Syncing?
  }

  ghost predicate LocksExact(s: Sched) {
    && (forall src :: src in s.locks ==> s.locks[src] < |s.mutexes| && s.mutexes[s.locks[src]].source == src)
    && (forall w :: 0 <= w < |s.workers| && UsesLock(s.workers[w]) ==>
          s.workers[w].stage.lock < |s.mutexes| && s.mutexes[s.workers[w].stage.lock].source == s.workers[w].source)
  }

  /** A lock is held exactly by the goroutine that syncs with it. */
  ghost predicate HoldersExact(s: Sched) {
    && (forall w :: 0 <= w < |s.workers| && s.workers[w].stage.Syncing? && s.workers[w].stage.lock < |s.mutexes| ==>
          s.mutexes[s.workers[w].stage.lock].holder == HeldBy(w))
    && (forall l :: 0 <= l < |s.mutexes| && s.mutexes[l].holder.HeldBy? ==>
          s.mutexes[l].holder.worker < |s.workers| && s.workers[s.mutexes[l].holder.worker].stage == Syncing(l))
  }

  function LocksOf(s: Sched, source: string): set<nat> {
    set l: nat | l < |s.mutexes| && s.mutexes[l].source == source
  }

  /** Per source, one lock was made for the present entry and one for each entry that RemoveJob dropped. */
  ghost predicate LocksCounted(s: Sched) {
    forall src :: |LocksOf(s, src)| == s.dropped[src] + if src in s.locks then 1 else 0
  }

  ghost predicate Invariant(s: Sched) {
    JobsExact(s) && LoopsExact(s) && LocksExact(s) && HoldersExact(s) && LocksCounted(s)
  }

  lemma InitiallyGood()
    ensures Invariant(INITIAL)
  {
    assert forall src: string :: LocksOf(INITIAL, src) == {};
  }

  // ---- Preservation ----

  predicate TouchesJobs(step: Step) {
    step.AddJob? || step.RemoveJob? || step.UpdateInterval? || step.CloseAll? || step.Tick? || step.TakeTick?
  }

  lemma OtherStepsLeaveJobs(s: Sched, step: Step)
    requires Enabled(s, step) && !TouchesJobs(step)
    ensures
      var s' := Apply(s, step);
      s'.jobs == s.jobs && s'.arena == s.arena && s'.panicked == s.panicked
  {
  }

  lemma StopKeepsOthers(s: Sched, source: string)
    requires JobsExact(s)
    ensures
      var s' := StopExisting(s, source);
      && !s'.panicked && |s'.arena| == |s.arena| && s' == s.(arena := s'.arena)
      && (forall j :: 0 <= j < |s.arena| ==> s'.arena[j].source == s.arena[j].source)
      && (forall j :: 0 <= j < |s.arena| ==> s'.arena[j].open == (s.arena[j].open && s.arena[j].source != source))
      && (forall j :: 0 <= j < |s.arena| ==> s'.arena[j].ticking == s'.arena[j].open)
  {
  }

  lemma RegisterKeepsJobs(s: Sched, source: string)
    requires JobsExact(s)
    ensures
      var s' := Register(StopExisting(s, source), source);
      JobsExact(s')
  {
    hide StopExisting;
    StopKeepsOthers(s, source);
  }

  lemma RemoveKeepsJobs(s: Sched, source: string)
    requires JobsExact(s)
    ensures JobsExact(RemoveJobStep(s, source))
  {
    hide StopExisting;
    StopKeepsOthers(s, source);
  }

  lemma CloseAllKeepsJobs(s: Sched)
    requires JobsExact(s)
    ensures JobsExact(CloseJobs(s, s.jobs.Keys).(jobs := map[]))
  {
    var s' := CloseJobs(s, s.jobs.Keys);
    forall j | 0 <= j < |s.arena|
      ensures !s'.arena[j].open && !s'.arena[j].ticking
    {
      if s.arena[j].open {
        assert s.arena[j].source in s.jobs;
      }
    }
  }

  lemma StepKeepsJobs(s: Sched, step: Step)
    requires JobsExact(s) && Enabled(s, step)
    ensures JobsExact(Apply(s, step))
  {
    hide Register, StopExisting, RemoveJobStep, CloseJobs, JobsExact, FetchLockStep, TryLockStep, UnlockStep;
    match step
    case AddJob(source, _) =>
      RegisterKeepsJobs(s, source);
      SameJobs(Register(StopExisting(s, source), source), Apply(s, step));
    case UpdateInterval(source) =>
      if source in s.jobs {
        RegisterKeepsJobs(s, source);
        SameJobs(Register(StopExisting(s, source), source), Apply(s, step));
      }
    case RemoveJob(source) => RemoveKeepsJobs(s, source);
    case CloseAll => CloseAllKeepsJobs(s);
    case Tick(j) => TickKeepsJobs(s, j, true);
    case TakeTick(w) =>
      TickKeepsJobs(s, s.workers[w].job, false);
      SameJobs(s.(arena := s.arena[s.workers[w].job := s.arena[s.workers[w].job].(pending := false)]), Apply(s, step));
    case _ =>
      OtherStepsLeaveJobs(s, step);
      SameJobs(s, Apply(s, step));
  }

  lemma SameJobs(s: Sched, s': Sched)
    requires s'.jobs == s.jobs && s'.arena == s.arena && s'.panicked == s.panicked && JobsExact(s)
    ensures JobsExact(s')
  {
  }

  lemma TickKeepsJobs(s: Sched, j: nat, pending: bool)
    requires JobsExact(s) && j < |s.arena|
    ensures JobsExact(s.(arena := s.arena[j := s.arena[j].(pending := pending)]))
  {
  }

  // ---- Loops ----

  /** The two states have the same goroutines, stages apart, and the same job sources. */
  ghost predicate SameShape(s: Sched, s': Sched) {
    && |s'.workers| == |s.workers| && |s.arena| <= |s'.arena|
    && (forall w :: 0 <= w < |s.workers| ==>
          s'.workers[w].Loop? == s.workers[w].Loop? && s'.workers[w].source == s.workers[w].source
          && (s.workers[w].Loop? ==> s'.workers[w].job == s.workers[w].job))
    && (forall j :: 0 <= j < |s.arena| ==> s'.arena[j].source == s.arena[j].source)
  }

  lemma SameShapeKeepsLoops(s: Sched, s': Sched)
    requires LoopsExact(s) && SameShape(s, s') && s'.unspawned == s.unspawned
    ensures LoopsExact(s')
  {
    forall w, j | 0 <= w < |s.workers|
      ensures LoopOf(s', w, j) <==> LoopOf(s, w, j)
    {
    }
  }

  lemma NewLoopKeepsLoops(s: Sched, worker: Worker)
    requires LoopsExact(s)
    requires worker.Loop? ==>
      worker.job < |s.arena| && s.arena[worker.job].source == worker.source && worker.job !in s.unspawned
    requires worker.Loop? ==> forall w :: 0 <= w < |s.workers| ==> !LoopOf(s, w, worker.job)
    ensures LoopsExact(AddWorker(s, worker))
  {
    var s' := AddWorker(s, worker);
    forall w, j | 0 <= w < |s.workers|
      ensures LoopOf(s', w, j) <==> LoopOf(s, w, j)
    {
    }
  }

  lemma RegisterShape(s: Sched, source: string)
    requires JobsExact(s)
    ensures
      var s' := Register(StopExisting(s, source), source);
      SameShape(s, s') && s'.jobs[source] == |s.arena| && |s'.arena| == |s.arena| + 1
      && s'.arena[|s.arena|].source == source
      && s'.unspawned == s.unspawned && s'.workers == s.workers && s'.locks == s.locks && s'.mutexes == s.mutexes
      && s'.dropped == s.dropped
  {
    hide StopExisting;
    StopKeepsOthers(s, source);
  }

  lemma RemoveShape(s: Sched, source: string)
    requires JobsExact(s)
    ensures
      var s' := RemoveJobStep(s, source);
      SameShape(s, s') && s'.unspawned == s.unspawned && s'.workers == s.workers && s'.mutexes == s.mutexes
  {
    hide StopExisting;
    StopKeepsOthers(s, source);
  }

  predicate OnlyMoves(step: Step) {
    step.DelayOver? || step.TakeTick? || step.Exit? || step.Tick? || step.BeginStop? || step.Cancel?
  }

  lemma MovesKeepShape(s: Sched, step: Step)
    requires Enabled(s, step) && OnlyMoves(step)
    ensures SameShape(s, Apply(s, step)) && Apply(s, step).unspawned == s.unspawned
  {
  }

  /** One goroutine moves on; jobs, channels and counts stay. */
  ghost predicate OnlyMoved(s: Sched, s': Sched, w: nat) {
    && w < |s.workers| && |s'.workers| == |s.workers|
    && s'.workers == s.workers[w := s.workers[w].(stage := s'.workers[w].stage)]
    && s'.jobs == s.jobs && s'.arena == s.arena && s'.unspawned == s.unspawned && s'.dropped == s.dropped
    && s'.panicked == s.panicked
  }

  predicate IsLockStep(step: Step) {
    step.FetchLock? || step.TryLock? || step.Unlock?
  }

  lemma FetchMoves(s: Sched, w: nat)
    requires w < |s.workers|
    ensures OnlyMoved(s, FetchLockStep(s, w), w)
  {
  }

  lemma TryMoves(s: Sched, w: nat)
    requires Enabled(s, TryLock(w))
    ensures OnlyMoved(s, TryLockStep(s, w), w)
  {
  }

  lemma UnlockMoves(s: Sched, w: nat)
    requires Enabled(s, Unlock(w))
    ensures OnlyMoved(s, UnlockStep(s, w), w)
  {
  }

  lemma LockStepsMove(s: Sched, step: Step)
    requires Enabled(s, step) && IsLockStep(step)
    ensures OnlyMoved(s, Apply(s, step), step.worker)
  {
    hide FetchLockStep, TryLockStep, UnlockStep, OnlyMoved;
    match step
    case FetchLock(w) => FetchMoves(s, w);
    case TryLock(w) => TryMoves(s, w);
    case Unlock(w) => UnlockMoves(s, w);
  }

  lemma MovedKeepsShape(s: Sched, s': Sched, w: nat)
    requires OnlyMoved(s, s', w)
    ensures SameShape(s, s')
  {
  }

  lemma CloseAllShape(s: Sched)
    ensures
      var s' := Apply(s, CloseAll);
      SameShape(s, s') && s' == s.(arena := s'.arena, panicked := s'.panicked, jobs := map[])
  {
  }

  lemma StepKeepsLoops(s: Sched, step: Step)
    requires JobsExact(s) && LoopsExact(s) && Enabled(s, step)
    ensures LoopsExact(Apply(s, step))
  {
    hide Register, StopExisting, RemoveJobStep, CloseJobs, JobsExact, LoopsExact, FetchLockStep, TryLockStep,
         UnlockStep, SameShape;
    match step
    case AddJob(source, delayed) =>
      RegisterShape(s, source);
      var s1 := Register(StopExisting(s, source), source);
      SameShapeKeepsLoops(s, s1);
      FreshJobHasNoLoop(s, s1);
      NewLoopKeepsLoops(s1, Loop(|s.arena|, source, if delayed then Delayed else Starting));
    case UpdateInterval(source) =>
      if source in s.jobs {
        RegisterShape(s, source);
        var s1 := Register(StopExisting(s, source), source);
        SameShapeKeepsLoops(s, s1);
        FreshJobHasNoLoop(s, s1);
        UnspawnedKeepsLoops(s1, |s.arena|);
      }
    case RemoveJob(source) =>
      RemoveShape(s, source);
      SameShapeKeepsLoops(s, Apply(s, step));
    case Spawn(j) =>
      UnspawnedHasNoLoop(s, j);
      NewLoopKeepsLoops(s.(unspawned := s.unspawned - {j}), Loop(j, s.arena[j].source, Selecting));
    case TriggerSync(source) => NewLoopKeepsLoops(s, Manual(source, Starting));
    case CloseAll =>
      CloseAllShape(s);
      SameShapeKeepsLoops(s, Apply(s, step));
    case FetchLock(_) => LockStepsKeepLoops(s, step);
    case TryLock(_) => LockStepsKeepLoops(s, step);
    case Unlock(_) => LockStepsKeepLoops(s, step);
    case _ =>
      MovesKeepShape(s, step);
      SameShapeKeepsLoops(s, Apply(s, step));
  }

  lemma LockStepsKeepLoops(s: Sched, step: Step)
    requires LoopsExact(s) && Enabled(s, step) && IsLockStep(step)
    ensures LoopsExact(Apply(s, step))
  {
    hide Apply, LoopsExact;
    LockStepsMove(s, step);
    MovedKeepsShape(s, Apply(s, step), step.worker);
    SameShapeKeepsLoops(s, Apply(s, step));
  }

  lemma FreshJobHasNoLoop(s: Sched, s1: Sched)
    requires LoopsExact(s) && s1.workers == s.workers && s1.unspawned == s.unspawned
    ensures forall w :: 0 <= w < |s1.workers| ==> !LoopOf(s1, w, |s.arena|)
    ensures |s.arena| !in s1.unspawned
  {
  }

  lemma UnspawnedKeepsLoops(s: Sched, j: nat)
    requires LoopsExact(s) && j < |s.arena| && forall w :: 0 <= w < |s.workers| ==> !LoopOf(s, w, j)
    ensures LoopsExact(s.(unspawned := s.unspawned + {j}))
  {
    var s' := s.(unspawned := s.unspawned + {j});
    assert forall w, i :: 0 <= w < |s.workers| ==> LoopOf(s', w, i) == LoopOf(s, w, i);
  }

  lemma UnspawnedHasNoLoop(s: Sched, j: nat)
    requires LoopsExact(s) && j in s.unspawned
    ensures
      var s' := s.(unspawned := s.unspawned - {j});
      LoopsExact(s') && forall w :: 0 <= w < |s'.workers| ==> !LoopOf(s', w, j)
  {
    var s' := s.(unspawned := s.unspawned - {j});
    assert forall w, i :: 0 <= w < |s.workers| ==> LoopOf(s', w, i) == LoopOf(s, w, i);
  }

  // ---- Locks ----

  predicate TouchesLocks(step: Step) {
    step.RemoveJob? || step.FetchLock? || step.TryLock? || step.Unlock?
  }

  /** The other steps change no lock, and leave every goroutine that uses a lock where it is. */
  ghost predicate LocksAlike(s: Sched, s': Sched) {
    && s'.locks == s.locks && s'.mutexes == s.mutexes && s'.dropped == s.dropped && |s.workers| <= |s'.workers|
    && (forall w :: 0 <= w < |s.workers| ==>
            s'.workers[w] == s.workers[w] || (!UsesLock(s.workers[w]) && !UsesLock(s'.workers[w])))
    && (forall w :: |s.workers| <= w < |s'.workers| ==> !UsesLock(s'.workers[w]))
  }

  lemma AddingIsAlike(s: Sched, worker: Worker)
    requires !UsesLock(worker)
    ensures LocksAlike(s, AddWorker(s, worker))
  {
  }

  lemma OtherStepsAreAlike(s: Sched, step: Step)
    requires JobsExact(s) && Enabled(s, step) && !TouchesLocks(step)
    ensures LocksAlike(s, Apply(s, step))
  {
    hide Register, StopExisting, RemoveJobStep, CloseJobs, JobsExact, SameShape, FetchLockStep, TryLockStep, UnlockStep;
    match step
    case AddJob(source, delayed) =>
      RegisterShape(s, source);
      AddingIsAlike(Register(StopExisting(s, source), source), Loop(|s.arena|, source,
        if delayed then Delayed else Starting));
    case UpdateInterval(source) =>
      if source in s.jobs {
        RegisterShape(s, source);
      }
    case CloseAll => CloseAllShape(s);
    case _ =>
  }

  lemma AlikeKeepsLocks(s: Sched, s': Sched)
    requires LocksExact(s) && HoldersExact(s) && LocksCounted(s) && LocksAlike(s, s')
    ensures LocksExact(s') && HoldersExact(s') && LocksCounted(s')
  {
    assert forall src :: LocksOf(s', src) == LocksOf(s, src);
  }

  lemma RemoveLocks(s: Sched, source: string)
    requires JobsExact(s)
    ensures
      var s' := RemoveJobStep(s, source);
      && s'.mutexes == s.mutexes && s'.workers == s.workers
      && (if source in s.jobs then s'.locks == s.locks - {source} else s'.locks == s.locks)
      && s'.dropped == (if source in s.jobs && source in s.locks then s.dropped + multiset{source} else s.dropped)
  {
    hide StopExisting;
    StopKeepsOthers(s, source);
  }

  lemma RemoveKeepsLocks(s: Sched, source: string)
    requires JobsExact(s) && LocksExact(s) && HoldersExact(s) && LocksCounted(s)
    ensures
      var s' := RemoveJobStep(s, source);
      LocksExact(s') && HoldersExact(s') && LocksCounted(s')
  {
    hide RemoveJobStep, JobsExact;
    RemoveLocks(s, source);
    assert forall src :: LocksOf(RemoveJobStep(s, source), src) == LocksOf(s, src);
  }

  /** One goroutine moves, one lock changes hands. */
  ghost predicate LockStep(s: Sched, s': Sched, w: nat, stage: Stage, l: nat, holder: Holder)
  {
    && w < |s.workers| && l < |s.mutexes| && s.mutexes[l].source == s.workers[w].source
    && (stage.Fetched? || stage.Syncing? ==> stage.lock == l)
    && s'.workers == s.workers[w := s.workers[w].(stage := stage)]
    && s'.mutexes == s.mutexes[l := s.mutexes[l].(holder := holder)]
    && s'.locks == s.locks && s'.dropped == s.dropped
  }

  lemma LockStepKeepsLocks(s: Sched, s': Sched, w: nat, stage: Stage, l: nat, holder: Holder)
    requires LocksExact(s) && LockStep(s, s', w, stage, l, holder)
    ensures LocksExact(s')
  {
    forall v | 0 <= v < |s'.workers| && UsesLock(s'.workers[v])
      ensures s'.workers[v].stage.lock < |s'.mutexes|
      ensures s'.mutexes[s'.workers[v].stage.lock].source == s'.workers[v].source
    {
      if v != w {
        assert s'.workers[v] == s.workers[v];
      }
    }
  }

  lemma LockStepKeepsCount(s: Sched, s': Sched, w: nat, stage: Stage, l: nat, holder: Holder)
    requires LocksCounted(s) && LockStep(s, s', w, stage, l, holder)
    ensures LocksCounted(s')
  {
    hide UsesLock;
    forall src
      ensures |LocksOf(s', src)| == s'.dropped[src] + if src in s'.locks then 1 else 0
    {
      assert LocksOf(s', src) == LocksOf(s, src);
    }
  }

  lemma AcquireKeepsHolders(s: Sched, s': Sched, w: nat, l: nat)
    requires HoldersExact(s) && LockStep(s, s', w, Syncing(l), l, HeldBy(w))
    requires s.mutexes[l].holder.Free? && !s.workers[w].stage.Syncing?
    ensures HoldersExact(s')
  {
    forall v | 0 <= v < |s'.workers| && s'.workers[v].stage.Syncing? && s'.workers[v].stage.lock < |s'.mutexes|
      ensures s'.mutexes[s'.workers[v].stage.lock].holder == HeldBy(v)
    {
      if v != w {
        assert s'.workers[v] == s.workers[v];
      }
    }
    forall k | 0 <= k < |s'.mutexes| && s'.mutexes[k].holder.HeldBy?
      ensures s'.mutexes[k].holder.worker < |s'.workers| && s'.workers[s'.mutexes[k].holder.worker].stage == Syncing(k)
    {
      if k != l {
        assert s'.mutexes[k] == s.mutexes[k];
      }
    }
  }

  lemma ReleaseKeepsHolders(s: Sched, s': Sched, w: nat, stage: Stage, l: nat)
    requires HoldersExact(s) && LockStep(s, s', w, stage, l, Free) && !stage.Syncing?
    requires s.workers[w].stage == Syncing(l)
    ensures HoldersExact(s')
  {
    forall v | 0 <= v < |s'.workers| && s'.workers[v].stage.Syncing? && s'.workers[v].stage.lock < |s'.mutexes|
      ensures s'.mutexes[s'.workers[v].stage.lock].holder == HeldBy(v)
    {
      assert v != w && s'.workers[v] == s.workers[v];
      assert s.mutexes[l].holder == HeldBy(w);
    }
    forall k | 0 <= k < |s'.mutexes| && s'.mutexes[k].holder.HeldBy?
      ensures s'.mutexes[k].holder.worker < |s'.workers| && s'.workers[s'.mutexes[k].holder.worker].stage == Syncing(k)
    {
      assert k != l && s'.mutexes[k] == s.mutexes[k];
    }
  }

  /** A goroutine that holds no lock moves on without taking one. */
  lemma PassKeepsHolders(s: Sched, s': Sched, w: nat, stage: Stage)
    requires HoldersExact(s) && w < |s.workers| && !s.workers[w].stage.Syncing? && !stage.Syncing?
    requires s'.workers == s.workers[w := s.workers[w].(stage := stage)]
    requires s'.mutexes == s.mutexes || exists src :: s'.mutexes == s.mutexes + [Mutex(src, Free)]
    requires LocksExact(s)
    ensures HoldersExact(s')
  {
    forall v | 0 <= v < |s'.workers| && s'.workers[v].stage.Syncing? && s'.workers[v].stage.lock < |s'.mutexes|
      ensures s'.mutexes[s'.workers[v].stage.lock].holder == HeldBy(v)
    {
      assert v != w && s'.workers[v] == s.workers[v] && UsesLock(s.workers[v]);
    }
    forall k | 0 <= k < |s'.mutexes| && s'.mutexes[k].holder.HeldBy?
      ensures s'.mutexes[k].holder.worker < |s'.workers| && s'.workers[s'.mutexes[k].holder.worker].stage == Syncing(k)
    {
      assert k < |s.mutexes| && s'.mutexes[k] == s.mutexes[k];
    }
  }

  lemma FetchKnown(s: Sched, w: nat)
    requires LocksExact(s) && HoldersExact(s) && LocksCounted(s) && Enabled(s, FetchLock(w))
    requires s.workers[w].source in s.locks
    ensures
      var s' := FetchLockStep(s, w);
      LocksExact(s') && HoldersExact(s') && LocksCounted(s')
  {
    hide LocksCounted, HoldersExact;
    var s', l := FetchLockStep(s, w), s.locks[s.workers[w].source];
    assert s.mutexes == s.mutexes[l := s.mutexes[l].(holder := s.mutexes[l].holder)];
    LockStepKeepsLocks(s, s', w, Fetched(l), l, s.mutexes[l].holder);
    LockStepKeepsCount(s, s', w, Fetched(l), l, s.mutexes[l].holder);
    PassKeepsHolders(s, s', w, Fetched(l));
  }

  lemma NewLockKeepsLocks(s: Sched, s': Sched, w: nat, source: string)
    requires LocksExact(s) && w < |s.workers| && s.workers[w].source == source
    requires s'.locks == s.locks[source := |s.mutexes|] && s'.mutexes == s.mutexes + [Mutex(source, Free)]
    requires s'.workers == s.workers[w := s.workers[w].(stage := Fetched(|s.mutexes|))]
    ensures LocksExact(s')
  {
    forall v | 0 <= v < |s'.workers| && UsesLock(s'.workers[v])
      ensures s'.workers[v].stage.lock < |s'.mutexes|
      ensures s'.mutexes[s'.workers[v].stage.lock].source == s'.workers[v].source
    {
      if v != w {
        assert s'.workers[v] == s.workers[v];
      }
    }
  }

  lemma NewLockKeepsCount(s: Sched, s': Sched, source: string)
    requires LocksCounted(s) && source !in s.locks && s'.dropped == s.dropped
    requires s'.locks == s.locks[source := |s.mutexes|] && s'.mutexes == s.mutexes + [Mutex(source, Free)]
    ensures LocksCounted(s')
  {
    forall src
      ensures |LocksOf(s', src)| == s'.dropped[src] + if src in s'.locks then 1 else 0
    {
      if src == source {
        assert LocksOf(s', src) == LocksOf(s, src) + {|s.mutexes|};
      } else {
        assert LocksOf(s', src) == LocksOf(s, src);
      }
    }
  }

  lemma FetchNew(s: Sched, w: nat)
    requires LocksExact(s) && HoldersExact(s) && LocksCounted(s) && Enabled(s, FetchLock(w))
    requires s.workers[w].source !in s.locks
    ensures
      var s' := FetchLockStep(s, w);
      LocksExact(s') && HoldersExact(s') && LocksCounted(s')
  {
    hide LocksCounted, HoldersExact, LocksExact;
    var s', source := FetchLockStep(s, w), s.workers[w].source;
    NewLockKeepsLocks(s, s', w, source);
    NewLockKeepsCount(s, s', source);
    PassKeepsHolders(s, s', w, Fetched(|s.mutexes|));
  }

  lemma TryKeepsLocks(s: Sched, w: nat)
    requires LocksExact(s) && HoldersExact(s) && LocksCounted(s) && Enabled(s, TryLock(w))
    ensures
      var s' := TryLockStep(s, w);
      LocksExact(s') && HoldersExact(s') && LocksCounted(s')
  {
    var s', l := TryLockStep(s, w), s.workers[w].stage.lock;
    assert s.mutexes[l].source == s.workers[w].source;
    hide LocksCounted, HoldersExact, LocksExact;
    var stage := s'.workers[w].stage;
    assert s.mutexes == s.mutexes[l := s.mutexes[l].(holder := s.mutexes[l].holder)];
    LockStepKeepsLocks(s, s', w, stage, l, s'.mutexes[l].holder);
    LockStepKeepsCount(s, s', w, stage, l, s'.mutexes[l].holder);
    if s.mutexes[l].holder.Free? {
      AcquireKeepsHolders(s, s', w, l);
    } else {
      PassKeepsHolders(s, s', w, stage);
    }
  }

  lemma UnlockKeepsLocks(s: Sched, w: nat)
    requires LocksExact(s) && HoldersExact(s) && LocksCounted(s) && Enabled(s, Unlock(w))
    ensures
      var s' := UnlockStep(s, w);
      LocksExact(s') && HoldersExact(s') && LocksCounted(s')
  {
    var s', l := UnlockStep(s, w), s.workers[w].stage.lock;
    assert s.mutexes[l].source == s.workers[w].source;
    hide LocksCounted, HoldersExact, LocksExact;
    var stage := s'.workers[w].stage;
    LockStepKeepsLocks(s, s', w, stage, l, Free);
    LockStepKeepsCount(s, s', w, stage, l, Free);
    ReleaseKeepsHolders(s, s', w, stage, l);
  }

  lemma StepKeepsLocks(s: Sched, step: Step)
    requires Invariant(s) && Enabled(s, step)
    ensures LocksExact(Apply(s, step)) && HoldersExact(Apply(s, step)) && LocksCounted(Apply(s, step))
  {
    hide Register, StopExisting, RemoveJobStep, CloseJobs, JobsExact, LoopsExact, LocksExact, HoldersExact,
         LocksCounted,
         LocksAlike, FetchLockStep, TryLockStep, UnlockStep;
    match step
    case RemoveJob(source) => RemoveKeepsLocks(s, source);
    case FetchLock(w) =>
      if s.workers[w].source in s.locks {
        FetchKnown(s, w);
      } else {
        FetchNew(s, w);
      }
    case TryLock(w) => TryKeepsLocks(s, w);
    case Unlock(w) => UnlockKeepsLocks(s, w);
    case _ =>
      OtherStepsAreAlike(s, step);
      AlikeKeepsLocks(s, Apply(s, step));
  }

  lemma StepKeepsInvariant(s: Sched, step: Step)
    requires Invariant(s) && Enabled(s, step)
    ensures Invariant(Apply(s, step))
  {
    hide Apply, JobsExact, LoopsExact, LocksExact, HoldersExact, LocksCounted;
    StepKeepsJobs(s, step);
    StepKeepsLoops(s, step);
    StepKeepsLocks(s, step);
  }

  /** Every reachable state is good. */
  lemma {:induction false} AlwaysGood(states: seq<Sched>, steps: seq<Step>, n: nat)
    requires History(states, steps) && n < |states|
    ensures Invariant(states[n])
  {
    hide Invariant, Apply, Enabled;
    if n == 0 {
      InitiallyGood();
    } else {
      AlwaysGood(states, steps, n - 1);
      StepKeepsInvariant(states[n - 1], steps[n - 1]);
    }
  }

  // ---- Theorems ----

  /** In every reachable state no channel was closed twice; the open channels are exactly the registered jobs'; so each
      source has at most one live job, and at most one loop runs per job, which is registered or told to stop. */
  lemma JobsAreExact(states: seq<Sched>, steps: seq<Step>, n: nat, w: nat, w': nat)
    requires History(states, steps) && n < |states| && w < |states[n].workers| && w' < |states[n].workers|
    ensures !states[n].panicked
    ensures forall j :: 0 <= j < |states[n].arena| ==> states[n].arena[j].ticking == states[n].arena[j].open
    ensures forall j :: 0 <= j < |states[n].arena| ==>
      (states[n].arena[j].open <==> exists src :: src in states[n].jobs && states[n].jobs[src] == j)
    ensures forall src, src' ::
      src in states[n].jobs && src' in states[n].jobs && states[n].jobs[src] == states[n].jobs[src'] ==> src == src'
    ensures
      var s := states[n];
      s.workers[w].Loop? ==>
        && s.workers[w].job < |s.arena|
        && (!s.arena[s.workers[w].job].open
            || (s.workers[w].source in s.jobs && s.jobs[s.workers[w].source] == s.workers[w].job))
        && (w != w' && s.workers[w'].Loop? ==> s.workers[w'].job != s.workers[w].job)
  {
    hide History, LocksExact, HoldersExact, LocksCounted;
    AlwaysGood(states, steps, n);
    var s := states[n];
    forall j | 0 <= j < |s.arena|
      ensures s.arena[j].open <==> exists src :: src in s.jobs && s.jobs[src] == j
    {
      if s.arena[j].open {
        assert s.arena[j].source in s.jobs && s.jobs[s.arena[j].source] == j;
      }
    }
    if s.workers[w].Loop? {
      assert LoopOf(s, w, s.workers[w].job);
      if s.workers[w'].Loop? {
        assert LoopOf(s, w', s.workers[w'].job);
      }
    }
  }

  /** The goroutines inside a sync of the source. */
  function Inside(s: Sched, source: string): set<nat> {
    set w: nat | w < |s.workers| && s.workers[w].source == source && s.workers[w].stage.Syncing?
  }

  lemma {:induction false} InjectiveCount(s: Sched, ws: set<nat>, ls: set<nat>)
    requires forall w :: w in ws ==> w < |s.workers| && s.workers[w].stage.Syncing? && s.workers[w].stage.lock in ls
    requires forall w, w' :: w in ws && w' in ws && s.workers[w].stage == s.workers[w'].stage ==> w == w'
    ensures |ws| <= |ls|
    decreases |ws|
  {
    if ws != {} {
      var w :| w in ws;
      var l := s.workers[w].stage.lock;
      InjectiveCount(s, ws - {w}, ls - {l});
    }
  }

  /** The number of goroutines inside a sync of one source never exceeds one plus the number of times RemoveJob dropped
      that source's lock. */
  lemma SyncsAreBounded(states: seq<Sched>, steps: seq<Step>, n: nat, source: string)
    requires History(states, steps) && n < |states|
    ensures |Inside(states[n], source)| <= 1 + states[n].dropped[source]
  {
    hide History, JobsExact, LoopsExact;
    AlwaysGood(states, steps, n);
    InjectiveCount(states[n], Inside(states[n], source), LocksOf(states[n], source));
  }

  /** `dropped` counts the RemoveJob steps that found a lock to drop. */
  lemma DroppedCounts(s: Sched, step: Step, source: string)
    requires Invariant(s) && Enabled(s, step)
    ensures
      Apply(s, step).dropped[source]
      == s.dropped[source] + if step == Step.RemoveJob(source) && source in s.jobs && source in s.locks then 1 else 0
  {
    hide Register, StopExisting, RemoveJobStep, CloseJobs, JobsExact, LoopsExact, LocksExact, HoldersExact,
         LocksCounted,
         FetchLockStep, TryLockStep, UnlockStep;
    match step
    case RemoveJob(src) => RemoveLocks(s, src);
    case FetchLock(_) => LockStepsMove(s, step);
    case TryLock(_) => LockStepsMove(s, step);
    case Unlock(_) => LockStepsMove(s, step);
    case _ => OtherStepsAreAlike(s, step);
  }
}
