/** Histories: any sequence of runs, under any configurations, answers and listings, mixed with any edits of the two
    calendars by their users. */
module History {
  import opened CalendarData
  import opened Reconcile
  import RunFacts

  datatype Step = Sync(run: Run) | Edit(source: Store, dest: Store)

  function Next(s: State, step: Step): State {
    match step
    case Sync(run) => After(run, s)
    case Edit(source, dest) => State(source, dest, s.records)
  }

  /** The state before step `n`. */
  function StateAt(s0: State, steps: seq<Step>, n: nat): State
    requires n <= |steps|
  {
    if n == 0 then s0 else Next(StateAt(s0, steps, n - 1), steps[n - 1])
  }

  /** Step `m` is a run that vouched for the UID and stamped its record with the given time. */
  ghost predicate StampedAt(s0: State, steps: seq<Step>, m: nat, uid: string, time: int)
    requires m < |steps|
  {
    && steps[m].Sync? && RunFacts.Vouched(steps[m].run, StateAt(s0, steps, m), uid)
    && steps[m].run.answers.stamp(uid) == time
  }

  /** Every record stems from an earlier run that vouched for its UID. */
  lemma {:induction false} RecordsHaveAnOrigin(s0: State, steps: seq<Step>, n: nat, uid: string) returns (m: nat)
    requires s0.records == map[] && n <= |steps| && uid in StateAt(s0, steps, n).records
    ensures m < n && StampedAt(s0, steps, m, uid, StateAt(s0, steps, n).records[uid])
  {
    hide After, RunFacts.Vouched;
    var s := StateAt(s0, steps, n - 1);
    match steps[n - 1]
    case Edit(_, _) =>
      m := RecordsHaveAnOrigin(s0, steps, n - 1, uid);
    case Sync(run) =>
      RunFacts.RecordsFate(run, s, uid);
      if uid in s.records && After(run, s).records[uid] == s.records[uid] {
        m := RecordsHaveAnOrigin(s0, steps, n - 1, uid);
      } else {
        m := n - 1;
      }
  }

  /** Provenance of deletions. In every history that starts without records, a run that makes a path disappear from the
      source runs in two-way mode, shows the event on the source and some other UID but not this one on the destination,
      and follows an earlier run that saw the event on the source and either got its put accepted or found equal tags,
      and whose stamp is at least one sync interval older than the clock reading of the deleting run. */
  lemma SourceDeletionHasAnOrigin(s0: State, steps: seq<Step>, n: nat, path: string) returns (uid: string, m: nat)
    requires s0.records == map[] && n < |steps| && steps[n].Sync?
    requires RunFacts.ShowsOnly(steps[n].run.seen.source, StateAt(s0, steps, n).source)
    requires path in StateAt(s0, steps, n).source && path !in StateAt(s0, steps, n + 1).source
    ensures steps[n].run.cfg.direction.TwoWay?
    ensures exists e :: e in steps[n].run.seen.source && e.uid == uid && e.path == path
    ensures exists d :: d in steps[n].run.seen.dest && d.uid != ""
    ensures forall d :: d in steps[n].run.seen.dest ==> d.uid != uid
    ensures m < n && steps[m].Sync? && RunFacts.Vouched(steps[m].run, StateAt(s0, steps, m), uid)
    ensures steps[m].run.answers.stamp(uid) + steps[n].run.cfg.interval <= steps[n].run.seen.now
  {
    hide After, RunFacts.ShowsOnly, RunFacts.Vouched;
    var r, s := steps[n].run, StateAt(s0, steps, n);
    uid := RunFacts.SourceDeletionIsGuarded(r, s, path);
    m := RecordsHaveAnOrigin(s0, steps, n, uid);
  }

  /** A run whose destination listing failed or showed no UID deletes nothing on the source, and neither does a
      one-way run. */
  lemma NothingListedNothingDeleted(r: Run, s: State)
    requires RunFacts.ShowsOnly(r.seen.source, s.source)
    requires r.cfg.direction.OneWay? || forall d :: d in r.seen.dest ==> d.uid == ""
    ensures s.source.Keys <= After(r, s).source.Keys
  {
    hide After, RunFacts.ShowsOnly;
    if path :| path in s.source && path !in After(r, s).source {
      var uid := RunFacts.SourceDeletionIsGuarded(r, s, path);
    }
  }
}
