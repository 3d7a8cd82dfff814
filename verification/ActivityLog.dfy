/** The activity tracker (internal/activity/activity.go): running syncs and the last twenty that finished. */
module ActivityLog {
  import opened CalendarData

  datatype Status = Running | Completed | Partial | Error

  datatype Progress = Progress(created: int, updated: int, deleted: int, skipped: int, processed: int) {
    function Plus(more: Progress): Progress {
      Progress(created + more.created, updated + more.updated, deleted + more.deleted,
                   skipped + more.skipped, processed + more.processed)
    }
  }

  /** What a SyncActivity says at one moment. */
  datatype Entry = Entry(sourceId: string, sourceName: string, status: Status, calendar: string, totalCalendars: int,
                         calendarsSynced: int, progress: Progress, startedAt: int, completedAt: Option<int>,
                         message: string, errors: seq<string>)

  const MAX_RECENT := 20

  // ---- The unbounded log ----

  /** The running syncs, and every sync that ever finished, newest first. */
  datatype Log = Log(active: map<string, Entry>, finished: seq<Entry>)

  const EMPTY := Log(map[], [])

  datatype Call =
    | StartSync(source: string, name: string, totalCalendars: int, now: int)
    | UpdateCalendar(source: string, calendar: string, index: int)
    | UpdateProgress(source: string, progress: Progress)
    | IncrementProgress(source: string, progress: Progress)
    | FinishSync(source: string, success: bool, message: string, errors: seq<string>, now: int)

  function StartedEntry(source: string, name: string, totalCalendars: int, now: int): Entry {
    Entry(source, name, Running, "", totalCalendars, 0, Progress(0, 0, 0, 0, 0), now, None, "", [])
  }

  function FinalStatus(success: bool, errors: seq<string>): Status {
    if !success then Error else if |errors| > 0 then Partial else Completed
  }

  function FinishedEntry(e: Entry, success: bool, message: string, errors: seq<string>, now: int): Entry {
    e.(completedAt := Some(now), message := message, errors := errors,
         calendar := "", status := FinalStatus(success, errors))
  }

  lemma StartedEntryIs(source: string, name: string, totalCalendars: int, now: int)
    ensures StartedEntry(source, name, totalCalendars, now)
         == Entry(source, name, Running, "", totalCalendars, 0, Progress(0, 0, 0, 0, 0), now, None, "", [])
  {
  }

  lemma FinishedEntryIs(e: Entry, success: bool, message: string, errors: seq<string>, now: int)
    ensures FinishedEntry(e, success, message, errors, now)
         == e.(completedAt := Some(now), message := message, errors := errors, calendar := "",
               status := if !success then Error else if errors != [] then Partial else Completed)
  {
  }

  function After(log: Log, call: Call): Log {
    match call
    case StartSync(source, name, total, now) =>
      log.(active := log.active[source := StartedEntry(source, name, total, now)])
    case UpdateCalendar(source, calendar, index) =>
      if source in log.active
      then log.(active := log.active[source := log.active[source].(calendar := calendar, calendarsSynced := index)])
      else log
    case UpdateProgress(source, progress) =>
      if source in log.active then log.(active := log.active[source := log.active[source].(progress := progress)])
      else log
    case IncrementProgress(source, more) =>
      if source in log.active
      then log.(active := log.active[source := log.active[source].(progress := log.active[source].progress.Plus(more))])
      else log
    case FinishSync(source, success, message, errors, now) =>
      if source in log.active
      then Log(log.active - {source}, [FinishedEntry(log.active[source], success, message, errors, now)] + log.finished)
      else log
  }

  /** The newest entries, as many as the tracker keeps. */
  function Newest(finished: seq<Entry>): seq<Entry> {
    if |finished| <= MAX_RECENT then finished else finished[..MAX_RECENT]
  }

  lemma NewestGrows(recent: seq<Entry>, e: Entry, finished: seq<Entry>)
    requires recent == Newest(finished)
    ensures Newest([e] + recent) == Newest([e] + finished)
  {
  }

  lemma NewestIsPrefix(entries: seq<Entry>)
    ensures Newest(entries) == entries[..if |entries| <= MAX_RECENT then |entries| else MAX_RECENT]
  {
  }

  // ---- The tracker ----

  class SyncActivity {
    const sourceId: string
    const sourceName: string
    var status: Status
    var calendar: string
    const totalCalendars: int
    var calendarsSynced: int
    var progress: Progress
    const startedAt: int
    var completedAt: Option<int>
    var message: string
    var errors: seq<string>

    ghost function Snapshot(): Entry
      reads this
    {
      Entry(sourceId, sourceName, status, calendar, totalCalendars, calendarsSynced, progress,
            startedAt, completedAt, message, errors)
    }

    constructor (source: string, name: string, totalCalendars: int, now: int)
      ensures Snapshot() == StartedEntry(source, name, totalCalendars, now)
    {
      sourceId, sourceName, status, calendar := source, name, Running, "";
      this.totalCalendars, calendarsSynced, progress := totalCalendars, 0, Progress(0, 0, 0, 0, 0);
      startedAt, completedAt, message, errors := now, None, "", [];
    }

    /** What the end of a sync writes into its entry. */
    method Complete(success: bool, message: string, errors: seq<string>, now: int)
      modifies this
      ensures Snapshot() == FinishedEntry(old(Snapshot()), success, message, errors, now)
    {
      completedAt := Some(now);
      this.message := message;
      this.errors := errors;
      calendar := "";
      if success {
        if |errors| > 0 {
          status := Partial;
        } else {
          status := Completed;
        }
      } else {
        status := Error;
      }
    }

    constructor Copy(a: SyncActivity)
      ensures Snapshot() == a.Snapshot()
    {
      sourceId, sourceName, status, calendar := a.sourceId, a.sourceName, a.status, a.calendar;
      totalCalendars, calendarsSynced, progress := a.totalCalendars, a.calendarsSynced, a.progress;
      startedAt, completedAt, message, errors := a.startedAt, a.completedAt, a.message, a.errors;
    }
  }

  class Tracker {
    var active: map<string, SyncActivity>
    var recent: seq<SyncActivity>
    ghost var finished: seq<Entry>

    ghost function Objects(): set<SyncActivity>
      reads this
    {
      (set s | s in active :: active[s]) + (set a | a in recent)
    }

    /** No object is shared, and the recent list is the front of the full log. */
    ghost predicate Valid()
      reads this, Objects()
    {
      && (forall s, s' :: s in active && s' in active && active[s] == active[s'] ==> s == s')
      && (forall s :: s in active ==> active[s] !in recent)
      && (forall i, j :: 0 <= i < j < |recent| ==> recent[i] != recent[j])
      && RecentEntries() == Newest(finished)
    }

    ghost function RecentEntries(): seq<Entry>
      reads this, Objects()
    {
      seq(|recent|, i requires 0 <= i < |recent| reads this, Objects() => recent[i].Snapshot())
    }

    ghost function FullLog(): Log
      reads this, Objects()
    {
      Log(map s | s in active :: active[s].Snapshot(), finished)
    }

    constructor ()
      ensures Valid() && FullLog() == EMPTY
    {
      active, recent, finished := map[], [], [];
    }

    method StartSync(source: string, name: string, totalCalendars: int, now: int)
      requires Valid()
      modifies this
      ensures Valid() && FullLog() == After(old(FullLog()), Call.StartSync(source, name, totalCalendars, now))
      ensures source in active && fresh(active[source]) && active == old(active)[source := active[source]]
      ensures active[source].Snapshot()
           == Entry(source, name, Running, "", totalCalendars, 0, Progress(0, 0, 0, 0, 0), now, None, "", [])
      ensures recent == old(recent)
    {
      hide Newest, StartedEntry, SyncActivity.Snapshot;
      StartedEntryIs(source, name, totalCalendars, now);
      var activity := new SyncActivity(source, name, totalCalendars, now);
      assert RecentEntries() == old(RecentEntries());
      active := active[source := activity];
    }

    method UpdateCalendar(source: string, calendar: string, index: int)
      requires Valid()
      modifies if source in active then {active[source]} else {}
      ensures Valid() && FullLog() == After(old(FullLog()), Call.UpdateCalendar(source, calendar, index))
      ensures source in active ==>
        active[source].Snapshot() == old(active[source].Snapshot()).(calendar := calendar, calendarsSynced := index)
    {
      if source in active {
        var activity := active[source];
        activity.calendar := calendar;
        activity.calendarsSynced := index;
      }
    }

    method UpdateProgress(source: string, progress: Progress)
      requires Valid()
      modifies if source in active then {active[source]} else {}
      ensures Valid() && FullLog() == After(old(FullLog()), Call.UpdateProgress(source, progress))
      ensures source in active ==> active[source].Snapshot() == old(active[source].Snapshot()).(progress := progress)
    {
      if source in active {
        active[source].progress := progress;
      }
    }

    method IncrementProgress(source: string, more: Progress)
      requires Valid()
      modifies if source in active then {active[source]} else {}
      ensures Valid() && FullLog() == After(old(FullLog()), Call.IncrementProgress(source, more))
      ensures source in active ==>
        var was, progress := old(active[source].Snapshot()), active[source].progress;
        && active[source].Snapshot() == was.(progress := progress)
        && progress.created == was.progress.created + more.created
        && progress.updated == was.progress.updated + more.updated
        && progress.deleted == was.progress.deleted + more.deleted
        && progress.skipped == was.progress.skipped + more.skipped
        && progress.processed == was.progress.processed + more.processed
    {
      if source in active {
        var activity := active[source];
        activity.progress := activity.progress.Plus(more);
      }
    }

    method FinishSync(source: string, success: bool, message: string, errors: seq<string>, now: int)
      requires Valid()
      modifies this, if source in active then {active[source]} else {}
      ensures Valid() && FullLog() == After(old(FullLog()), Call.FinishSync(source, success, message, errors, now))
      ensures source !in old(active) ==> active == old(active) && recent == old(recent)
      ensures source in old(active) ==>
        var was, all := old(active[source].Snapshot()), [old(active[source])] + old(recent);
        && active == old(active) - {source} && recent == (if |all| > 20 then all[..20] else all)
        && recent[0].Snapshot() == was.(completedAt := Some(now), message := message, errors := errors, calendar := "",
             status := if !success then Error else if errors != [] then Partial else Completed)
    {
      if source !in active {
        return;
      }
      hide Newest, FinishedEntry, SyncActivity.Snapshot;
      var activity := active[source];
      FinishedEntryIs(activity.Snapshot(), success, message, errors, now);
      activity.Complete(success, message, errors, now);
      assert RecentEntries() == old(RecentEntries());
      assert FullLog().active - {source} == old(FullLog()).active - {source};
      Retire(source);
    }

    /** Moves the source's entry from the running ones to the front of the recent ones. */
    method Retire(source: string)
      requires Valid() && source in active
      modifies this
      ensures Valid()
      ensures FullLog() == Log(old(FullLog()).active - {source}, [old(active[source].Snapshot())] + old(finished))
      ensures active == old(active) - {source}
      ensures var all := [old(active[source])] + old(recent); recent == if |all| > 20 then all[..20] else all
    {
      hide Newest, SyncActivity.Snapshot;
      var activity := active[source];
      ghost var entries := RecentEntries();
      recent := [activity] + recent;
      if |recent| > MAX_RECENT {
        recent := recent[..MAX_RECENT];
      }
      active := active - {source};
      finished := [activity.Snapshot()] + finished;
      NewestGrows(entries, activity.Snapshot(), old(finished));
      NewestIsPrefix([activity.Snapshot()] + entries);
      assert RecentEntries() == Newest([activity.Snapshot()] + entries);
    }

    /** Copies, so that the caller cannot change the tracker's own entries. */
    method GetRecent() returns (copies: seq<SyncActivity>)
      requires Valid()
      ensures |copies| == |recent| && forall i :: 0 <= i < |copies| ==>
        fresh(copies[i]) && copies[i].Snapshot() == RecentEntries()[i]
    {
      copies := [];
      for i := 0 to |recent|
        invariant |copies| == i && forall k :: 0 <= k < i ==>
          fresh(copies[k]) && copies[k].Snapshot() == RecentEntries()[k]
      {
        var copy := new SyncActivity.Copy(recent[i]);
        copies := copies + [copy];
      }
    }
  }

  // ---- Whole runs ----

  function Replay(calls: seq<Call>, n: nat): Log
    requires n <= |calls|
  {
    if n == 0 then EMPTY else After(Replay(calls, n - 1), calls[n - 1])
  }

  /** `k` is the latest start of a sync of the source, and it has not finished since. */
  ghost predicate RunningSince(calls: seq<Call>, n: nat, source: string, k: nat) {
    && k < n <= |calls| && calls[k].StartSync? && calls[k].source == source
    && forall i :: k < i < n ==> !((calls[i].StartSync? || calls[i].FinishSync?) && calls[i].source == source)
  }

  /** A source is active exactly while a started sync has not finished; its entry is then running, and carries the name,
      the size and the time of that start. */
  lemma {:induction false} ActiveIsRunning(calls: seq<Call>, n: nat, source: string)
    requires n <= |calls|
    ensures source in Replay(calls, n).active <==> exists k: nat :: RunningSince(calls, n, source, k)
    ensures forall k: nat :: RunningSince(calls, n, source, k) ==>
      var e := Replay(calls, n).active[source];
      && e.status.Running? && e.completedAt.None? && e.errors == [] && e.message == "" && e.sourceId == source
      && e.sourceName == calls[k].name && e.totalCalendars == calls[k].totalCalendars && e.startedAt == calls[k].now
  {
    if n > 0 {
      ActiveIsRunning(calls, n - 1, source);
      forall k: nat | RunningSince(calls, n, source, k)
        ensures k == n - 1 || RunningSince(calls, n - 1, source, k)
      {
      }
      if calls[n - 1].StartSync? && calls[n - 1].source == source {
        assert RunningSince(calls, n, source, n - 1);
      } else if source in Replay(calls, n).active {
        var k: nat :| RunningSince(calls, n - 1, source, k);
        assert RunningSince(calls, n, source, k);
      }
    }
  }

  /** The log only grows at its new end: whatever is called later, old entries stay as they are. */
  lemma {:induction false} FinishedStays(calls: seq<Call>, m: nat, n: nat)
    requires m <= n <= |calls|
    ensures
      var before, after := Replay(calls, m).finished, Replay(calls, n).finished;
      |before| <= |after| && after[|after| - |before|..] == before
    decreases n
  {
    if m < n {
      FinishedStays(calls, m, n - 1);
    }
  }

  /** An entry of the recent list is found unchanged later, moved back by the number of syncs finished since, until
      twenty newer ones have pushed it out. */
  lemma RecentStays(calls: seq<Call>, m: nat, n: nat, i: nat)
    requires m <= n <= |calls| && i < |Newest(Replay(calls, m).finished)|
    ensures
      var before, after := Replay(calls, m).finished, Replay(calls, n).finished;
      var j := i + |after| - |before|;
      if 0 <= j < MAX_RECENT then j < |Newest(after)| && Newest(after)[j] == Newest(before)[i] else j >= |Newest(after)|
  {
    FinishedStays(calls, m, n);
    var before, after := Replay(calls, m).finished, Replay(calls, n).finished;
    assert after[|after| - |before|..][i] == before[i];
  }
}
