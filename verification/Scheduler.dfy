/** The job scheduler (internal/scheduler/scheduler.go) as a step system. One step is one critical section under the
    scheduler's mutex, one operation on a sync lock, one choice of a select, or one tick. */
module Scheduler {
  import Notifier

  /** A job: its stop channel is open until the job is told to stop; its ticker channel holds at most one tick. */
  datatype Job = Job(source: string, open: bool, ticking: bool, pending: bool)

  datatype Holder = Free | HeldBy(worker: nat)

  /** A per-source sync lock. */
  datatype Mutex = Mutex(source: string, holder: Holder)

  /** Where a goroutine is: in its initial delay, about to call executeSync, with a lock fetched but not yet tried,
      inside a sync, in its select, or gone. */
  datatype Stage = Delayed | Starting | Fetched(lock: nat) | Syncing(lock: nat) | Selecting | Gone

  /** A job loop, or the one-off goroutine of a manual trigger. */
  datatype Worker = Loop(job: nat, source: string, stage: Stage) | Manual(source: string, stage: Stage)

  datatype Sched = Sched(
    jobs: map<string, nat>,
    arena: seq<Job>,
    locks: map<string, nat>,
    mutexes: seq<Mutex>,
    workers: seq<Worker>,
    unspawned: set<nat>,
    dropped: multiset<string>,
    started: bool,
    cancelled: bool,
    panicked: bool)

  const INITIAL := Sched(map[], [], map[], [], [], {}, multiset{}, true, false, false)

  datatype Step =
    | AddJob(source: string, delayed: bool)
    | RemoveJob(source: string)
    | UpdateInterval(source: string)
    | Spawn(job: nat)
    | TriggerSync(source: string)
    | BeginStop
    | Cancel
    | CloseAll
    | Tick(job: nat)
    | DelayOver(worker: nat)
    | TakeTick(worker: nat)
    | Exit(worker: nat)
    | FetchLock(worker: nat)
    | TryLock(worker: nat)
    | Unlock(worker: nat)

  /** close(stopCh), which panics on a channel that is closed already, and ticker.Stop(). */
  function StopJob(s: Sched, j: nat): Sched
    requires j < |s.arena|
  {
    s.(arena := s.arena[j := s.arena[j].(open := false, ticking := false)], panicked := s.panicked || !s.arena[j].open)
  }

  function StopExisting(s: Sched, source: string): Sched {
    if source in s.jobs && s.jobs[source] < |s.arena| then StopJob(s, s.jobs[source]) else s
  }

  function Register(s: Sched, source: string): Sched {
    s.(arena := s.arena + [Job(source, true, true, false)], jobs := s.jobs[source := |s.arena|])
  }

  function AddWorker(s: Sched, worker: Worker): Sched {
    s.(workers := s.workers + [worker])
  }

  function Move(s: Sched, w: nat, stage: Stage): Sched
    requires w < |s.workers|
  {
    s.(workers := s.workers[w := s.workers[w].(stage := stage)])
  }

  /** Leaving executeSync: a job loop goes on to its select, a manual trigger is done. */
  function Leave(s: Sched, w: nat): Sched
    requires w < |s.workers|
  {
    Move(s, w, if s.workers[w].Loop? then Selecting else Gone)
  }

  function CloseJobs(s: Sched, sources: set<string>): Sched {
    var stopped := set src | src in sources && src in s.jobs :: s.jobs[src];
    s.(arena := seq(|s.arena|, j requires 0 <= j < |s.arena| =>
         if j in stopped then s.arena[j].(open := false, ticking := false) else s.arena[j]),
       panicked := s.panicked || exists src ::
         src in sources && src in s.jobs && s.jobs[src] < |s.arena| && !s.arena[s.jobs[src]].open)
  }

  /** Told to stop: the context is cancelled or the job's stop channel is closed. */
  predicate MayExit(s: Sched, w: nat) {
    && w < |s.workers| && s.workers[w].Loop? && s.workers[w].job < |s.arena|
    && (s.workers[w].stage.Delayed? || s.workers[w].stage.Selecting?)
    && (s.cancelled || !s.arena[s.workers[w].job].open)
  }

  predicate Enabled(s: Sched, step: Step) {
    match step
    case AddJob(_, _) => true
    case RemoveJob(_) => true
    case UpdateInterval(_) => true
    case Spawn(j) => j in s.unspawned && j < |s.arena|
    case TriggerSync(_) => true
    case BeginStop => s.started
    case Cancel => true
    case CloseAll => true
    case Tick(j) => j < |s.arena| && s.arena[j].ticking
    case DelayOver(w) => w < |s.workers| && s.workers[w].stage.Delayed?
    case TakeTick(w) =>
      && w < |s.workers| && s.workers[w].Loop? && s.workers[w].stage.Selecting?
      && s.workers[w].job < |s.arena| && s.arena[s.workers[w].job].pending
    case Exit(w) => MayExit(s, w)
    case FetchLock(w) => w < |s.workers| && s.workers[w].stage.Starting?
    case TryLock(w) => w < |s.workers| && s.workers[w].stage.Fetched? && s.workers[w].stage.lock < |s.mutexes|
    case Unlock(w) => w < |s.workers| && s.workers[w].stage.Syncing? && s.workers[w].stage.lock < |s.mutexes|
  }

  function RemoveJobStep(s: Sched, source: string): Sched {
    if source in s.jobs then
      var s' := StopExisting(s, source);
      s'.(jobs := s'.jobs - {source}, locks := s'.locks - {source},
          dropped := if source in s'.locks then s'.dropped + multiset{source} else s'.dropped)
    else s
  }

  function FetchLockStep(s: Sched, w: nat): Sched
    requires w < |s.workers|
  {
    var source := s.workers[w].source;
    if source in s.locks then Move(s, w, Fetched(s.locks[source]))
    else
      var l := |s.mutexes|;
      Move(s.(locks := s.locks[source := l], mutexes := s.mutexes + [Mutex(source, Free)]), w, Fetched(l))
  }

  function TryLockStep(s: Sched, w: nat): Sched
    requires Enabled(s, TryLock(w))
  {
    var l := s.workers[w].stage.lock;
    if s.mutexes[l].holder.Free?
    then Move(s.(mutexes := s.mutexes[l := s.mutexes[l].(holder := HeldBy(w))]), w, Syncing(l))
    else Leave(s, w)
  }

  function UnlockStep(s: Sched, w: nat): Sched
    requires Enabled(s, Unlock(w))
  {
    var l := s.workers[w].stage.lock;
    Leave(s.(mutexes := s.mutexes[l := s.mutexes[l].(holder := Free)]), w)
  }

  function Apply(s: Sched, step: Step): Sched
    requires Enabled(s, step)
  {
    match step
    case AddJob(source, delayed) =>
      var s' := Register(StopExisting(s, source), source);
      AddWorker(s', Loop(s'.jobs[source], source, if delayed then Delayed else Starting))
    case RemoveJob(source) => RemoveJobStep(s, source)
    case UpdateInterval(source) =>
      if source in s.jobs then
        var s' := Register(StopExisting(s, source), source);
        s'.(unspawned := s'.unspawned + {s'.jobs[source]})
      else s
    case Spawn(j) => AddWorker(s.(unspawned := s.unspawned - {j}), Loop(j, s.arena[j].source, Selecting))
    case TriggerSync(source) => AddWorker(s, Manual(source, Starting))
    case BeginStop => s.(started := false)
    case Cancel => s.(cancelled := true)
    case CloseAll => CloseJobs(s, s.jobs.Keys).(jobs := map[])
    case Tick(j) => s.(arena := s.arena[j := s.arena[j].(pending := true)])
    case DelayOver(w) => Move(s, w, Starting)
    case TakeTick(w) =>
      var j := s.workers[w].job;
      Move(s.(arena := s.arena[j := s.arena[j].(pending := false)]), w, Starting)
    case Exit(w) => Move(s, w, Gone)
    case FetchLock(w) => FetchLockStep(s, w)
    case TryLock(w) => TryLockStep(s, w)
    case Unlock(w) => UnlockStep(s, w)
  }

  /** Each next state results from an enabled step. */
  ghost predicate Path(states: seq<Sched>, steps: seq<Step>) {
    && |states| == |steps| + 1
    && forall k :: 0 <= k < |steps| ==> Enabled(states[k], steps[k]) && states[k + 1] == Apply(states[k], steps[k])
  }

  /** `states` is a history: a path from the empty state. */
  ghost predicate History(states: seq<Sched>, steps: seq<Step>) {
    Path(states, steps) && states[0] == INITIAL
  }

  /** The scheduler as the code has it: each method is one critical section. */
  class JobScheduler {
    var jobs: map<string, nat>
    var arena: seq<Job>
    var syncLocks: map<string, nat>
    var mutexes: seq<Mutex>
    var workers: seq<Worker>
    var unspawned: set<nat>
    ghost var dropped: multiset<string>
    var started: bool
    var cancelled: bool
    var panicked: bool
    const notifier: Notifier.AlertSender?

    ghost function Abs(): Sched
      reads this
    {
      Sched(jobs, arena, syncLocks, mutexes, workers, unspawned, dropped, started, cancelled, panicked)
    }

    /** Registered jobs exist. */
    ghost predicate Valid()
      reads this
    {
      forall src :: src in jobs ==> jobs[src] < |arena|
    }

    constructor (notifier: Notifier.AlertSender?)
      ensures Abs() == INITIAL && Valid() && this.notifier == notifier
    {
      this.notifier := notifier;
      jobs, arena, syncLocks, mutexes, workers := map[], [], map[], [], [];
      unspawned, dropped := {}, multiset{};
      started, cancelled, panicked := true, false, false;
    }

    method StopOne(j: nat)
      requires j < |arena|
      modifies this`arena, this`panicked
      ensures Abs() == StopJob(old(Abs()), j)
    {
      if !arena[j].open {
        panicked := true;
      }
      arena := arena[j := arena[j].(open := false, ticking := false)];
    }

    method AddJobWithDelay(source: string, initialDelay: int)
      requires Valid()
      modifies this
      ensures Valid() && Abs() == Apply(old(Abs()), Step.AddJob(source, initialDelay > 0))
    {
      if source in jobs {
        StopOne(jobs[source]);
      }
      var j := |arena|;
      arena := arena + [Job(source, true, true, false)];
      jobs := jobs[source := j];
      workers := workers + [Loop(j, source, if initialDelay > 0 then Delayed else Starting)];
    }

    method AddJob(source: string)
      requires Valid()
      modifies this
      ensures Valid() && Abs() == Apply(old(Abs()), Step.AddJob(source, false))
    {
      AddJobWithDelay(source, 0);
    }

    method TriggerSync(source: string)
      requires Valid()
      modifies this
      ensures Valid() && Abs() == Apply(old(Abs()), Step.TriggerSync(source))
    {
      workers := workers + [Manual(source, Starting)];
    }

    /** The notifier, if there is one, forgets the source whether or not it had a job. */
    method RemoveJob(source: string)
      requires Valid()
      modifies this, if notifier == null then {} else {notifier}
      ensures Valid() && Abs() == Apply(old(Abs()), Step.RemoveJob(source))
      ensures notifier != null ==> notifier.Abs() == Notifier.After(old(notifier.Abs()), Notifier.Clear(source))
    {
      if source in jobs {
        StopOne(jobs[source]);
        jobs := jobs - {source};
        dropped := if source in syncLocks then dropped + multiset{source} else dropped;
        syncLocks := syncLocks - {source};
      }
      if notifier != null {
        notifier.ClearStaleState(source);
      }
    }

    method UpdateJobInterval(source: string)
      requires Valid()
      modifies this
      ensures Valid() && Abs() == Apply(old(Abs()), UpdateInterval(source))
    {
      hide StopJob, StopExisting;
      if source !in jobs {
        return;
      }
      StopJobKeepsShape(Abs(), jobs[source]);
      ExistingIsStopped(Abs(), source);
      StopOne(jobs[source]);
      jobs := jobs - {source};
      var j := |arena|;
      arena := arena + [Job(source, true, true, false)];
      jobs := jobs[source := j];
      unspawned := unspawned + {j};
    }

    method GetSyncLock(w: nat) returns (lock: nat)
      requires w < |workers| && workers[w].stage.Starting? && Valid()
      modifies this
      ensures Valid() && Abs() == Apply(old(Abs()), FetchLock(w)) && workers[w].stage == Fetched(lock)
    {
      var source := workers[w].source;
      if source in syncLocks {
        lock := syncLocks[source];
      } else {
        lock := |mutexes|;
        mutexes := mutexes + [Mutex(source, Free)];
        syncLocks := syncLocks[source := lock];
      }
      workers := workers[w := workers[w].(stage := Fetched(lock))];
    }

    /** The start of executeSync: a goroutine that finds the lock taken skips its sync. */
    method TryToSync(w: nat) returns (entered: bool)
      requires Valid() && w < |workers| && workers[w].stage.Fetched? && workers[w].stage.lock < |mutexes|
      modifies this`mutexes, this`workers
      ensures Valid() && Abs() == Apply(old(Abs()), TryLock(w))
      ensures entered <==> old(mutexes[workers[w].stage.lock].holder.Free?)
      ensures entered <==> workers[w].stage.Syncing?
    {
      var lock := workers[w].stage.lock;
      entered := mutexes[lock].holder.Free?;
      if entered {
        mutexes := mutexes[lock := mutexes[lock].(holder := HeldBy(w))];
        workers := workers[w := workers[w].(stage := Syncing(lock))];
      } else {
        workers := workers[w := workers[w].(stage := if workers[w].Loop? then Selecting else Gone)];
      }
    }

    /** The deferred unlock at the end of executeSync. */
    method EndSync(w: nat)
      requires Valid() && w < |workers| && workers[w].stage.Syncing? && workers[w].stage.lock < |mutexes|
      modifies this`mutexes, this`workers
      ensures Valid() && Abs() == Apply(old(Abs()), Unlock(w))
    {
      var lock := workers[w].stage.lock;
      mutexes := mutexes[lock := mutexes[lock].(holder := Free)];
      workers := workers[w := workers[w].(stage := if workers[w].Loop? then Selecting else Gone)];
    }

    /** The closing section of Stop: a loop over the jobs in any order. */
    method CloseAllJobs()
      requires Valid() && (forall src, src' :: src in jobs && src' in jobs && jobs[src] == jobs[src'] ==> src == src')
      modifies this
      ensures Valid() && Abs() == Apply(old(Abs()), CloseAll)
    {
      CloseChannels();
      jobs := map[];
    }

    method CloseChannels()
      requires Valid() && (forall src, src' :: src in jobs && src' in jobs && jobs[src] == jobs[src'] ==> src == src')
      modifies this`arena, this`panicked
      ensures Abs() == CloseJobs(old(Abs()), jobs.Keys)
    {
      hide CloseJobs, StopJob;
      ghost var start := Abs();
      var todo := jobs.Keys;
      CloseNone(start);
      assert jobs.Keys - todo == {};
      while todo != {}
        invariant todo <= jobs.Keys && jobs == start.jobs
        invariant Abs() == CloseJobs(start, jobs.Keys - todo)
        decreases |todo|
      {
        var source :| source in todo;
        ghost var done := jobs.Keys - todo;
        CloseOneMore(start, done, source);
        StopOne(jobs[source]);
        todo := todo - {source};
        assert jobs.Keys - todo == done + {source};
      }
      assert jobs.Keys - todo == jobs.Keys;
    }
  }

  lemma ExistingIsStopped(s: Sched, source: string)
    requires source in s.jobs && s.jobs[source] < |s.arena|
    ensures StopExisting(s, source) == StopJob(s, s.jobs[source])
  {
  }

  lemma StopJobKeepsShape(s: Sched, j: nat)
    requires j < |s.arena|
    ensures |StopJob(s, j).arena| == |s.arena| && StopJob(s, j).jobs == s.jobs
  {
  }

  lemma CloseNone(s: Sched)
    ensures CloseJobs(s, {}) == s
  {
    assert CloseJobs(s, {}).arena == s.arena;
  }

  /** Closing goes job by job. */
  lemma CloseOneMore(s: Sched, done: set<string>, source: string)
    requires done <= s.jobs.Keys && source in s.jobs && source !in done
    requires forall src :: src in s.jobs ==> s.jobs[src] < |s.arena|
    requires forall src, src' :: src in s.jobs && src' in s.jobs && s.jobs[src] == s.jobs[src'] ==> src == src'
    ensures s.jobs[source] < |CloseJobs(s, done).arena|
    ensures CloseJobs(s, done + {source}) == StopJob(CloseJobs(s, done), s.jobs[source])
  {
    var a, b := CloseJobs(s, done + {source}), StopJob(CloseJobs(s, done), s.jobs[source]);
    assert s.jobs[source] !in (set src | src in done && src in s.jobs :: s.jobs[src]);
    assert a.arena == b.arena;
    assert a.panicked == b.panicked;
  }
}
