/** One synchronisation of a source (`SyncSource`, internal/caldav/sync.go): which calendars it visits, in which
    direction, and what it adds up and reports. */
module SourceSync {
  import opened CalendarData
  import opened ActivityLog
  import PushPhase
  import Reconcile

  datatype Calendar = Calendar(path: string, name: string)

  /** A selected calendar; without a direction of its own it follows the source. */
  datatype CalendarConfig = CalendarConfig(path: string, direction: Option<Reconcile.Direction>)

  /** What syncing one calendar reports. */
  datatype Outcome = Outcome(progress: Progress, duplicatesRemoved: nat, errors: seq<string>, warnings: seq<string>)

  const NO_OUTCOME := Outcome(Progress(0, 0, 0, 0, 0), 0, [], [])

  /** The first selected calendar with the path. */
  ghost predicate IsFirst(configs: seq<CalendarConfig>, path: string, i: nat) {
    i < |configs| && configs[i].path == path && forall j :: 0 <= j < i ==> configs[j].path != path
  }

  method GetSyncDirectionForCalendar(configs: seq<CalendarConfig>, default: Reconcile.Direction, path: string)
    returns (direction: Reconcile.Direction)
    ensures (forall c :: c in configs ==> c.path != path) ==> direction == default
    ensures forall i: nat :: IsFirst(configs, path, i) ==>
      direction == if configs[i].direction.None? then default else configs[i].direction.value
  {
    for i := 0 to |configs|
      invariant forall j :: 0 <= j < i ==> configs[j].path != path
    {
      if configs[i].path == path {
        assert forall k: nat :: IsFirst(configs, path, k) ==> !(k < i) && !(i < k);
        return if configs[i].direction.None? then default else configs[i].direction.value;
      }
    }
    return default;
  }

  function Chosen(discovered: seq<Calendar>, paths: set<string>): seq<Calendar> {
    if discovered == [] then []
    else
      var before, last := Chosen(discovered[..|discovered| - 1], paths), discovered[|discovered| - 1];
      if last.path in paths then before + [last] else before
  }

  /** Nothing selected means everything. */
  function Visited(discovered: seq<Calendar>, configs: seq<CalendarConfig>): seq<Calendar> {
    if configs == [] then discovered else Chosen(discovered, set c | c in configs :: c.path)
  }

  lemma {:induction false} ChosenAreSelected(discovered: seq<Calendar>, paths: set<string>)
    ensures forall c :: c in Chosen(discovered, paths) <==> c in discovered && c.path in paths
  {
    if discovered != [] {
      var before, last := discovered[..|discovered| - 1], discovered[|discovered| - 1];
      assert discovered == before + [last];
      ChosenAreSelected(before, paths);
    }
  }

  /** A discovered calendar is visited if and only if nothing is selected or it is selected. */
  lemma VisitedIff(discovered: seq<Calendar>, configs: seq<CalendarConfig>, c: Calendar)
    ensures c in Visited(discovered, configs)
      <==> c in discovered && (configs == [] || exists config :: config in configs && config.path == c.path)
  {
    ChosenAreSelected(discovered, set config | config in configs :: config.path);
  }

  /** The calendars are judged one by one, and keep their order. */
  lemma {:induction false} ChosenAppends(a: seq<Calendar>, b: seq<Calendar>, paths: set<string>)
    ensures Chosen(a + b, paths) == Chosen(a, paths) + Chosen(b, paths)
    ensures |b| == 1 ==> Chosen(b, paths) == if b[0].path in paths then b else []
  {
    if b == [] {
      assert a + b == a;
    } else {
      assert (a + b)[..|a + b| - 1] == a + b[..|b| - 1];
      ChosenAppends(a, b[..|b| - 1], paths);
    }
  }

  method SelectCalendars(discovered: seq<Calendar>, configs: seq<CalendarConfig>) returns (calendars: seq<Calendar>)
    ensures calendars == Visited(discovered, configs)
  {
    calendars := discovered;
    if |configs| > 0 {
      var paths: set<string> := {};
      for i := 0 to |configs|
        invariant paths == set c | c in configs[..i] :: c.path
      {
        assert configs[..i + 1] == configs[..i] + [configs[i]];
        paths := paths + {configs[i].path};
      }
      assert configs[..|configs|] == configs;
      calendars := [];
      for i := 0 to |discovered|
        invariant calendars == Chosen(discovered[..i], paths)
      {
        assert discovered[..i + 1][..i] == discovered[..i];
        if discovered[i].path in paths {
          calendars := calendars + [discovered[i]];
        }
      }
      assert discovered[..|discovered|] == discovered;
    }
  }

  /** The sums over the first `n` calendars; removed duplicates are not added up. */
  function Total(outcomes: nat -> Outcome, n: nat): Outcome {
    if n == 0 then NO_OUTCOME
    else
      var sum, last := Total(outcomes, n - 1), outcomes(n - 1);
      Outcome(sum.progress.Plus(last.progress), 0, sum.errors + last.errors, sum.warnings + last.warnings)
  }

  /** A source's sync succeeds exactly when no calendar reported an error. */
  lemma {:induction false} NoErrorsInTotal(outcomes: nat -> Outcome, n: nat)
    ensures Total(outcomes, n).errors == [] <==> forall k: nat :: k < n ==> outcomes(k).errors == []
  {
    if n > 0 {
      NoErrorsInTotal(outcomes, n - 1);
    }
  }

  // ---- The outcomes are those of full synchronisations ----

  /** A calendar's part in the sync: its run, if its events could be listed, and the state that run started from. */
  datatype CalendarRun = CalendarRun(run: Option<Reconcile.Run>, start: Reconcile.State)

  const NO_PROGRESS := Progress(0, 0, 0, 0, 0)

  /** The outcome is what the run reports; a calendar that cannot be listed reports one error and nothing done. */
  ghost predicate Reports(o: Outcome, c: CalendarRun) {
    match c.run
    case None => o.progress == NO_PROGRESS && |o.errors| == 1
    case Some(r) =>
      var res := Reconcile.Finish(r, c.start).result;
      && o.progress == Progress(res.created, res.updated, res.deleted, res.skipped, res.processed)
      && |o.errors| == res.errors && |o.warnings| == res.warnings && o.duplicatesRemoved == res.duplicatesRemoved
  }

  /** How many of a calendar's source events have a UID. */
  function Named(c: CalendarRun): nat {
    if c.run.None? then 0 else PushPhase.CountWithUid(c.run.value.seen.source)
  }

  /** How many of a calendar's source events meet with the given kind in the push loop. */
  function Met(c: CalendarRun, kind: Reconcile.PushKind): nat {
    match c.run
    case None => 0
    case Some(r) =>
      PushPhase.Count(Reconcile.AfterDeletion(r, c.start), r.seen.source, r.seen.destCalendar, r.answers.push,
                      |r.seen.source|, kind)
  }

  function AllNamed(calendars: nat -> CalendarRun, n: nat): nat {
    if n == 0 then 0 else AllNamed(calendars, n - 1) + Named(calendars(n - 1))
  }

  function Updates(c: CalendarRun): nat {
    if c.run.None? then 0 else Reconcile.Finish(c.run.value, c.start).result.updated
  }

  function Deletions(c: CalendarRun): nat {
    if c.run.None? then 0 else Reconcile.Finish(c.run.value, c.start).result.deleted
  }

  function AllUpdates(calendars: nat -> CalendarRun, n: nat): nat {
    if n == 0 then 0 else AllUpdates(calendars, n - 1) + Updates(calendars(n - 1))
  }

  function AllDeletions(calendars: nat -> CalendarRun, n: nat): nat {
    if n == 0 then 0 else AllDeletions(calendars, n - 1) + Deletions(calendars(n - 1))
  }

  function AllWarnings(outcomes: nat -> Outcome, n: nat): nat {
    if n == 0 then 0 else AllWarnings(outcomes, n - 1) + |outcomes(n - 1).warnings|
  }

  /** How many calendars could not be listed. */
  function Unlisted(calendars: nat -> CalendarRun, n: nat): nat {
    if n == 0 then 0 else Unlisted(calendars, n - 1) + if calendars(n - 1).run.None? then 1 else 0
  }

  function AllMet(calendars: nat -> CalendarRun, n: nat, kind: Reconcile.PushKind): nat {
    if n == 0 then 0 else AllMet(calendars, n - 1, kind) + Met(calendars(n - 1), kind)
  }

  lemma OneCalendar(o: Outcome, c: CalendarRun)
    requires Reports(o, c)
    ensures o.progress.processed == Named(c) && |o.errors| == (if c.run.Some? then 0 else 1)
    ensures o.progress.updated == Updates(c) && o.progress.deleted == Deletions(c)
    ensures o.progress.created == Met(c, Reconcile.Created) && o.progress.skipped == Met(c, Reconcile.Skipped)
    ensures Named(c) == Met(c, Reconcile.Created) + Met(c, Reconcile.Skipped) + Met(c, Reconcile.Updated)
                        + Met(c, Reconcile.Unchanged) + Met(c, Reconcile.CreateFailed) + Met(c, Reconcile.UpdateFailed)
  {
    hide Reconcile.Finish, PushPhase.Count, PushPhase.CountWithUid;
    if c.run.Some? {
      PushPhase.RunAccounts(c.run.value, c.start);
    }
  }

  /** Over the visited calendars the source's totals are sums over its events: processed are the source events with a
      UID, each of them created, skipped, updated, unchanged or failed; and the sync succeeds exactly when every
      calendar could be listed. */
  lemma {:induction false} TotalsCountEvents(outcomes: nat -> Outcome, calendars: nat -> CalendarRun, n: nat)
    requires forall k: nat :: k < n ==> Reports(outcomes(k), calendars(k))
    ensures
      var total := Total(outcomes, n).progress;
      && total.processed == AllNamed(calendars, n)
      && total.created == AllMet(calendars, n, Reconcile.Created)
      && total.skipped == AllMet(calendars, n, Reconcile.Skipped)
      && total.processed == AllMet(calendars, n, Reconcile.Created) + AllMet(calendars, n, Reconcile.Skipped)
                            + AllMet(calendars, n, Reconcile.Updated) + AllMet(calendars, n, Reconcile.Unchanged)
                            + AllMet(calendars, n, Reconcile.CreateFailed)
                            + AllMet(calendars, n, Reconcile.UpdateFailed)
    ensures
      var total := Total(outcomes, n);
      && total.progress.updated == AllUpdates(calendars, n) && total.progress.deleted == AllDeletions(calendars, n)
      && |total.warnings| == AllWarnings(outcomes, n) && |total.errors| == Unlisted(calendars, n)
      && total.duplicatesRemoved == 0
    ensures Total(outcomes, n).errors == [] <==> forall k: nat :: k < n ==> calendars(k).run.Some?
  {
    hide Reports, Met, Named, Updates, Deletions;
    if n > 0 {
      TotalsCountEvents(outcomes, calendars, n - 1);
      OneCalendar(outcomes(n - 1), calendars(n - 1));
    }
  }

  /** The tracker's entry once `n` calendars are done. */
  function EntryAfter(started: Entry, calendars: seq<Calendar>, outcomes: nat -> Outcome, n: nat): Entry
    requires n <= |calendars|
  {
    if n == 0 then started
    else started.(calendar := calendars[n - 1].name, calendarsSynced := n, progress := Total(outcomes, n).progress)
  }

  /** `setupError` is what goes wrong before the calendars are known, and `outcomes` what each calendar's sync
      reports. */
  method SyncSource(tracker: Tracker, id: string, name: string, setupError: Option<string>, discovered: seq<Calendar>,
                    configs: seq<CalendarConfig>, outcomes: nat -> Outcome, message: string, startedAt: int, now: int)
    returns (success: bool, result: Outcome)
    requires tracker.Valid()
    modifies tracker, tracker.Objects()
    ensures tracker.Valid()
    ensures setupError.Some? ==>
      && !success && result == NO_OUTCOME.(errors := [setupError.value])
      && tracker.FullLog() == After(old(tracker.FullLog()), FinishSync(id, false, message, [setupError.value], now))
    ensures setupError.None? ==>
      var calendars := Visited(discovered, configs);
      && result == Total(outcomes, |calendars|) && success == (result.errors == [])
      && tracker.FullLog() == Log(old(tracker.FullLog()).active - {id},
           [FinishedEntry(EntryAfter(StartedEntry(id, name, |calendars|, startedAt), calendars, outcomes, |calendars|),
                          success, message, result.errors, now)] + old(tracker.FullLog()).finished)
    ensures setupError.None? ==>
      var e := tracker.FullLog().finished[0];
      && e.status == (if success then Completed else Error) && e.completedAt == Some(now) && e.message == message
      && e.errors == result.errors && e.sourceId == id && e.sourceName == name && e.startedAt == startedAt
      && e.totalCalendars == |Visited(discovered, configs)|
      && (|Visited(discovered, configs)| > 0 ==>
            e.progress == result.progress && e.calendarsSynced == |Visited(discovered, configs)|)
  {
    hide Tracker.Valid, Tracker.FullLog, EntryAfter, Total, Visited, StartedEntry, FinishedEntry;
    ghost var before := tracker.FullLog().active;
    result := NO_OUTCOME;
    if setupError.Some? {
      result := result.(errors := [setupError.value]);
      tracker.FinishSync(id, false, message, result.errors, now);
      return false, result;
    }
    var calendars := SelectCalendars(discovered, configs);
    tracker.StartSync(id, name, |calendars|, startedAt);
    result := SyncCalendars(tracker, id, calendars, outcomes);
    success := result.errors == [];
    ghost var entry := EntryAfter(StartedEntry(id, name, |calendars|, startedAt), calendars, outcomes, |calendars|);
    assert tracker.FullLog().active == before[id := entry];
    assert before[id := entry] - {id} == before - {id};
    tracker.FinishSync(id, success, message, result.errors, now);
    EntryIs(StartedEntry(id, name, |calendars|, startedAt), id, name, calendars, outcomes, startedAt, success, message,
            result.errors, now);
  }

  lemma EntryIs(started: Entry, id: string, name: string, calendars: seq<Calendar>, outcomes: nat -> Outcome,
                startedAt: int, success: bool, message: string, errors: seq<string>, now: int)
    requires started == StartedEntry(id, name, |calendars|, startedAt) && success == (errors == [])
    ensures
      var e := FinishedEntry(EntryAfter(started, calendars, outcomes, |calendars|), success, message, errors, now);
      && e.status == (if success then Completed else Error) && e.completedAt == Some(now) && e.message == message
      && e.errors == errors && e.sourceId == id && e.sourceName == name && e.startedAt == startedAt
      && e.totalCalendars == |calendars|
      && (|calendars| > 0 ==>
            e.progress == Total(outcomes, |calendars|).progress && e.calendarsSynced == |calendars|)
  {
  }

  /** The loop over the calendars, which keeps the tracker's entry up to date. */
  method SyncCalendars(tracker: Tracker, id: string, calendars: seq<Calendar>, outcomes: nat -> Outcome)
    returns (result: Outcome)
    requires tracker.Valid() && id in tracker.active
    modifies tracker.active[id]
    ensures tracker.Valid() && result == Total(outcomes, |calendars|)
    ensures
      var log := old(tracker.FullLog());
      tracker.FullLog()
        == Log(log.active[id := EntryAfter(log.active[id], calendars, outcomes, |calendars|)], log.finished)
  {
    hide Tracker.Valid, Tracker.FullLog;
    result := NO_OUTCOME;
    ghost var log := tracker.FullLog();
    LogHas(tracker, id);
    for i := 0 to |calendars|
      invariant tracker.Valid() && result == Total(outcomes, i)
      invariant tracker.FullLog()
        == Log(log.active[id := EntryAfter(log.active[id], calendars, outcomes, i)], log.finished)
    {
      tracker.UpdateCalendar(id, calendars[i].name, i + 1);
      var one := outcomes(i);
      result := Outcome(result.progress.Plus(one.progress), 0,
          result.errors + one.errors, result.warnings + one.warnings);
      tracker.UpdateProgress(id, result.progress);
    }
  }

  lemma LogHas(tracker: Tracker, id: string)
    requires tracker.Valid() && id in tracker.active
    ensures id in tracker.FullLog().active
    ensures tracker.FullLog()
      == Log(tracker.FullLog().active[id := tracker.FullLog().active[id]], tracker.FullLog().finished)
  {
  }
}
