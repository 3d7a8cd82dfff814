/** What the counters of a run count, in terms of what happened to the calendars (internal/caldav/sync.go). */
module RunCounters {
  import opened CalendarData
  import opened Reconcile
  import PushPhase
  import RecordKeeping
  import RunFacts
  import TwoWayContents

  // ---- Paths that leave a store ----

  ghost predicate OwnPaths(m: EventMap) {
    forall u, v :: u in m && v in m && m[u].path == m[v].path ==> u == v
  }

  lemma {:induction false} OnePathEach(uids: set<string>, m: EventMap)
    requires OwnPaths(m) && uids <= m.Keys
    ensures |PathsOf(uids, m)| == |uids|
    decreases |uids|
  {
    if uids == {} {
      assert PathsOf({}, m) == {};
    } else {
      var u :| u in uids;
      OnePathEach(uids - {u}, m);
      assert PathsOf(uids, m) == PathsOf(uids - {u}, m) + {m[u].path};
    }
  }

  lemma TakenAway(store: Store, uids: set<string>, m: EventMap)
    requires OwnPaths(m) && uids <= m.Keys && forall u :: u in m ==> m[u].path in store
    ensures |store - PathsOf(uids, m)| + |uids| == |store|
  {
    var paths := PathsOf(uids, m);
    OnePathEach(uids, m);
    assert (store - paths).Keys == store.Keys - paths && paths <= store.Keys;
    assert |(store - paths).Keys| + |paths| == |store.Keys|;
  }

  lemma MapOwnsPaths(events: seq<Event>, store: Store)
    requires RunFacts.ShowsOnly(events, store)
    ensures OwnPaths(ByUid(events)) && forall u :: u in ByUid(events) ==> ByUid(events)[u].path in store
  {
    hide ByUid;
    RunFacts.ByUidShows(events);
    var m := ByUid(events);
    forall u, v | u in m && v in m && m[u].path == m[v].path
      ensures u == v
    {
      assert store[m[u].path] == m[u] && store[m[v].path] == m[v];
    }
  }

  // ---- Deletion phase ----

  /** The run asks the destination to delete the event, which is gone from the source. */
  ghost predicate AsksDest(r: Run, s: State, uid: string) {
    && RecordKeeping.LooksAtRecords(r) && uid in s.records
    && !RecordKeeping.ShownIn(r.seen.source, uid) && RecordKeeping.ShownIn(r.seen.dest, uid)
  }

  /** The run asks the source to delete the event, which is gone from the destination and has an old record. */
  ghost predicate AsksSource(r: Run, s: State, uid: string) {
    && RecordKeeping.LooksAtRecords(r) && uid in s.records && RecordKeeping.IsOld(r, s, uid)
    && RecordKeeping.ShownIn(r.seen.source, uid) && !RecordKeeping.ShownIn(r.seen.dest, uid)
  }

  ghost function FailedDestDeletes(r: Run, s: State): set<string> {
    set u | u in s.records && AsksDest(r, s, u) && u in r.answers.destDeleteFails
  }

  ghost function FailedSourceDeletes(r: Run, s: State): set<string> {
    set u | u in s.records && AsksSource(r, s, u) && u in r.answers.sourceDeleteFails
  }

  lemma AskedAre(r: Run, s: State)
    ensures
      var w, prev := Begin(r, s), Previous(r, s);
      if DeletionEnabled(r, prev, w.destMap) then
        && WithVerdict(w, prev, Threshold(r), prev.Keys, DropFromDest) * r.answers.destDeleteFails
           == FailedDestDeletes(r, s)
        && WithVerdict(w, prev, Threshold(r), prev.Keys, DropFromSource) * r.answers.sourceDeleteFails
           == FailedSourceDeletes(r, s)
      else FailedDestDeletes(r, s) == FailedSourceDeletes(r, s) == {}
  {
    hide ByUid, KeysOf, RecordKeeping.LooksAtRecords, RecordKeeping.ShownIn;
    forall u
      ensures RecordKeeping.ShownIn(r.seen.source, u) <==> u in ByUid(r.seen.source)
      ensures RecordKeeping.ShownIn(r.seen.dest, u) <==> u in ByUid(r.seen.dest)
    {
      RecordKeeping.ShownIsMapped(r.seen.source, u);
      RecordKeeping.ShownIsMapped(r.seen.dest, u);
    }
    if s.records != map[] {
      RecordKeeping.LooksIffEnabled(r, s);
    }
  }

  lemma AppliedIsCounted(w: Work, a: Answers, onDest: set<string>, onSource: set<string>, stale: set<string>)
    requires OwnPaths(w.sourceMap) && onSource <= w.sourceMap.Keys
    requires forall u :: u in w.sourceMap ==> w.sourceMap[u].path in w.source
    requires OwnPaths(w.destMap) && onDest <= w.destMap.Keys
    requires forall u :: u in w.destMap ==> w.destMap[u].path in w.dest
    ensures
      var w' := Apply(w, a, onDest, onSource, stale);
      && w'.result.deleted + |w'.source| + |w'.dest| == w.result.deleted + |w.source| + |w.dest|
      && w'.result.warnings
         == w.result.warnings + |onDest * a.destDeleteFails| + |onSource * a.sourceDeleteFails|
  {
    hide PathsOf, OwnPaths;
    TakenAway(w.dest, onDest - a.destDeleteFails, w.destMap);
    TakenAway(w.source, onSource - a.sourceDeleteFails, w.sourceMap);
  }

  /** The deletion phase counts as deleted exactly the resources that left the two calendars, and warns once for every
      delete it asked for and did not get. */
  lemma DeletionIsCounted(r: Run, s: State)
    requires RunFacts.ShowsOnly(r.seen.source, s.source) && RunFacts.ShowsOnly(r.seen.dest, s.dest)
    ensures
      var w := AfterDeletion(r, s);
      && w.result.deleted + |w.source| + |w.dest| == |s.source| + |s.dest|
      && w.result.warnings == |FailedDestDeletes(r, s)| + |FailedSourceDeletes(r, s)|
  {
    hide ByUid, KeysOf, FailedDestDeletes, FailedSourceDeletes, RunFacts.ShowsOnly, Apply, OwnPaths, WithVerdict;
    AskedAre(r, s);
    MapOwnsPaths(r.seen.source, s.source);
    MapOwnsPaths(r.seen.dest, s.dest);
    var w, prev := Begin(r, s), Previous(r, s);
    if DeletionEnabled(r, prev, w.destMap) {
      var onDest := WithVerdict(w, prev, Threshold(r), prev.Keys, DropFromDest);
      var onSource := WithVerdict(w, prev, Threshold(r), prev.Keys, DropFromSource);
      AppliedIsCounted(w, r.answers, onDest, onSource, WithVerdict(w, prev, Threshold(r), prev.Keys, ForgetRecord));
    }
  }

  // ---- Push-back ----

  /** The destination event is written back to the source. */
  predicate GoesBack(w: Work, cfg: Config, d: Event) {
    cfg.strategy.DestWins? && d.uid != "" && d.uid in w.sourceMap && d.etag != w.sourceMap[d.uid].etag
  }

  function WrittenBack(w: Work, cfg: Config, events: seq<Event>, replies: nat -> PutReply, n: nat): nat
    requires n <= |events|
  {
    if n == 0 then 0
    else WrittenBack(w, cfg, events, replies, n - 1)
         + if GoesBack(w, cfg, events[n - 1]) && (events[n - 1].data == "" || replies(n - 1).Stored?) then 1 else 0
  }

  /** Only refusals and unreadable data are warnings; what exists already or is read-only is passed over. */
  function RefusedBack(w: Work, cfg: Config, events: seq<Event>, replies: nat -> PutReply, n: nat): nat
    requires n <= |events|
  {
    if n == 0 then 0
    else RefusedBack(w, cfg, events, replies, n - 1)
         + if GoesBack(w, cfg, events[n - 1]) && events[n - 1].data != ""
              && (replies(n - 1).Refused? || replies(n - 1).Unparsable?) then 1 else 0
  }

  lemma {:induction false} PushBackIsCounted(w: Work, cfg: Config, events: seq<Event>, replies: nat -> PutReply, n: nat)
    requires n <= |events|
    ensures
      var res, res' := w.result, PushBack(w, cfg, events, replies, n).result;
      res' == res.(updated := res.updated + WrittenBack(w, cfg, events, replies, n),
                   warnings := res.warnings + RefusedBack(w, cfg, events, replies, n))
  {
    hide PutInto, OutcomeOf;
    if n > 0 {
      PushBackIsCounted(w, cfg, events, replies, n - 1);
      RunFacts.PushBackKeepsRecords(w, cfg, events, replies, n - 1);
      var d := events[n - 1];
      if GoesBack(w, cfg, d) {
        RunFacts.OutcomeMeans(cfg.calendar, d.(path := w.sourceMap[d.uid].path), replies(n - 1));
      }
    }
  }

  // ---- Orphans and clean-up ----

  lemma {:induction false} LeftoversShrink(r: Run, s: State, n: nat)
    requires n <= |r.seen.source|
    ensures RunFacts.SubMap(PushUpTo(r, s, n).destMap, ByUid(r.seen.dest))
  {
    hide AfterDeletion, PushOne, ByUid;
    if n == 0 {
      RunFacts.DeletionShrinksMaps(r, s);
    } else {
      LeftoversShrink(r, s, n - 1);
      RunFacts.PushStep(PushUpTo(r, s, n - 1), r.seen.source[n - 1], r.seen.destCalendar, r.answers.push(n - 1));
    }
  }

  /** The orphan loop counts as deleted exactly the resources that left the destination, and warns for the others. */
  lemma OrphansAreCounted(r: Run, s: State)
    requires RunFacts.ShowsOnly(r.seen.dest, s.dest)
    ensures
      var w, w' := AfterPushBack(r, s), AfterOrphans(r, s);
      && w'.result.deleted + |w'.dest| == w.result.deleted + |w.dest|
      && w'.result == w.result.(deleted := w'.result.deleted, warnings := w'.result.warnings)
      && w'.result.warnings == w.result.warnings
                               + if OrphansEnabled(r.cfg) then |w.destMap.Keys * r.answers.orphanFails| else 0
  {
    hide Push, PushBack, ByUid, KeysOf, PathsOf, RunFacts.ShowsOnly;
    var w, a := AfterPushBack(r, s), r.answers;
    if OrphansEnabled(r.cfg) {
      LeftoversShrink(r, s, |r.seen.source|);
      MapOwnsPaths(r.seen.dest, s.dest);
      TwoWayContents.PushKeepsPaths(AfterDeletion(r, s), r.seen.source, r.seen.destCalendar, a.push, |r.seen.source|);
      assert w.destMap.Keys * w.destMap.Keys == w.destMap.Keys;
      TakenAway(w.dest, w.destMap.Keys - a.orphanFails, w.destMap);
    }
  }

  /** The clean-up counts exactly the resources that left the destination. */
  lemma CleanupIsCounted(r: Run, s: State)
    requires r.seen.recheck.Some? ==> RunFacts.ShowsOnly(r.seen.recheck.value, AfterOrphans(r, s).dest)
    ensures
      var w, w' := AfterOrphans(r, s), Finish(r, s);
      && w'.result.duplicatesRemoved + |w'.dest| == w.result.duplicatesRemoved + |w.dest|
      && w'.result == w.result.(duplicatesRemoved := w'.result.duplicatesRemoved)
  {
    hide AfterOrphans, KeysOf, IsDoomed, Stamp;
    var w := AfterOrphans(r, s);
    match r.seen.recheck
    case None =>
    case Some(events) =>
      var doomed := Doomed(events, w.sourceMap.Keys, KeysOf(events)) - r.answers.cleanupFails;
      assert doomed <= w.dest.Keys && (w.dest - doomed).Keys == w.dest.Keys - doomed;
      assert |(w.dest - doomed).Keys| + |doomed| == |w.dest.Keys|;
  }

  // ---- The whole run ----

  /** The counters of a run with truthful listings. Deleted and duplicates removed are the resources that left the
      two calendars; updated are the stored or empty updates of the push and of the push-back; warnings are the
      deletes, puts, write-backs and orphan deletes that failed. */
  lemma RunIsCounted(r: Run, s: State)
    requires RunFacts.ShowsOnly(r.seen.source, s.source) && RunFacts.ShowsOnly(r.seen.dest, s.dest)
    requires r.seen.recheck.Some? ==> RunFacts.ShowsOnly(r.seen.recheck.value, AfterOrphans(r, s).dest)
    ensures
      var a, d, p, b, o := r.answers, AfterDeletion(r, s), AfterPush(r, s), AfterPushBack(r, s), AfterOrphans(r, s);
      var res, count := Finish(r, s).result, (k: PushKind) => PushPhase.Count(d, r.seen.source, r.seen.destCalendar,
                                                                               a.push, |r.seen.source|, k);
      var twoWay := r.cfg.direction.TwoWay?;
      && res.deleted == (|s.source| - |d.source|) + (|s.dest| - |d.dest|) + (|b.dest| - |o.dest|)
      && res.duplicatesRemoved == |o.dest| - |Finish(r, s).dest|
      && res.updated == count(Updated)
                        + (if twoWay then WrittenBack(p, r.cfg, r.seen.dest, a.pushBack, |r.seen.dest|) else 0)
      && res.warnings == |FailedDestDeletes(r, s)| + |FailedSourceDeletes(r, s)|
                         + count(CreateFailed) + count(UpdateFailed)
                         + (if twoWay then RefusedBack(p, r.cfg, r.seen.dest, a.pushBack, |r.seen.dest|) else 0)
                         + (if OrphansEnabled(r.cfg) then |b.destMap.Keys * a.orphanFails| else 0)
      && res.errors == 0
  {
    hide AfterDeletion, Push, PushBack, AfterOrphans, Finish, FailedDestDeletes, FailedSourceDeletes, WrittenBack,
         RefusedBack,
         PushPhase.Count, RunFacts.ShowsOnly;
    DeletionIsCounted(r, s);
    PushPhase.DeletionCounts(r, s);
    PushPhase.PushAccounts(AfterDeletion(r, s), r.seen.source, r.seen.destCalendar, r.answers.push, |r.seen.source|);
    PushBackIsCounted(AfterPush(r, s), r.cfg, r.seen.dest, r.answers.pushBack, |r.seen.dest|);
    OrphansAreCounted(r, s);
    CleanupIsCounted(r, s);
  }
}
