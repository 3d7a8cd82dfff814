/** `fullSync` and `cleanupDuplicates` (internal/caldav/sync.go) as they run: loops over slices and maps that update the
    two servers, the record table and the maps of the run in place. Every phase is proved equal to its function in
    module Reconcile, although the map loops pick their next key freely. */
module FullSync {
  import opened CalendarData
  import opened Reconcile
  import opened RecordTable
  import DeletionPhase
  import DuplicateCleanup
  import EventWindow
  import RunFacts

  /** How one listing call turns out. */
  datatype ListingAnswer = ListingAnswer(fails: bool, hidden: set<string>)

  /** Cutoffs of the date window, with the clock readings each filtering makes; absent when no window is configured. */
  datatype DateWindow = DateWindow(sourceCutoff: int, destCutoff: int, sourceClock: nat -> int, destClock: nat -> int,
                                   parse: EventWindow.Parser)
  {
    ghost predicate Valid() {
      (forall i :: sourceClock(i) >= sourceCutoff) && (forall i :: destClock(i) >= destCutoff)
    }
  }

  /** `seen` is a complete listing of the collection, but for the events dropped on the way and those before the
      cutoff. */
  ghost predicate Shows(seen: seq<Event>, store: Store, answer: ListingAnswer, cutoff: Option<int>,
                        window: Option<DateWindow>)
    requires cutoff.Some? ==> window.Some?
  {
    exists raw :: Lists(raw, Hide(store, answer.hidden))
               && seen == if cutoff.None? then raw else EventWindow.Window(raw, cutoff.value, window.value.parse)
  }

  class SyncRun {
    const source: CalendarClient
    const dest: CalendarClient
    const db: SyncedEvents
    var sourceMap: EventMap
    var destMap: EventMap
    var keys: set<string>
    var tracked: set<string>
    var result: Result

    constructor (source: CalendarClient, dest: CalendarClient, db: SyncedEvents)
      ensures this.source == source && this.dest == dest && this.db == db
    {
      this.source, this.dest, this.db := source, dest, db;
      sourceMap, destMap, keys, tracked, result := map[], map[], {}, {}, NO_RESULT;
    }

    ghost function Progress(): Work
      reads this, source, dest, db
    {
      Work(source.store, dest.store, db.rows, sourceMap, destMap, keys, tracked, result)
    }

    ghost function Persistent(): State
      reads source, dest, db
    {
      State(source.store, dest.store, db.rows)
    }

    method BuildMap(events: seq<Event>) returns (byUid: EventMap)
      ensures byUid == ByUid(events)
    {
      byUid := map[];
      for i := 0 to |events|
        invariant byUid == ByUid(events[..i])
      {
        assert events[..i + 1][..i] == events[..i];
        if events[i].uid != "" {
          byUid := byUid[events[i].uid := events[i]];
        }
      }
      assert events[..|events|] == events;
    }

    method BuildKeys(events: seq<Event>) returns (found: set<string>)
      ensures found == KeysOf(events)
    {
      found := {};
      for i := 0 to |events|
        invariant found == KeysOf(events[..i])
      {
        var key := events[i].DedupeKey();
        assert events[..i + 1] == events[..i] + [events[i]];
        if key != BLANK_KEY {
          found := found + {key};
        }
      }
      assert events[..|events|] == events;
    }

    method HandleDeletions(a: Answers, prev: Records, threshold: int)
      requires source != dest
      modifies this, source, dest, db
      ensures Progress() == DeletionTable(old(Progress()), a, prev, threshold, prev.Keys)
    {
      hide DeletionTable, DeleteInOrder, DeleteOne;
      var todo := prev.Keys;
      ghost var order: seq<string> := [];
      ghost var start := Progress();
      DeletionPhase.VisitNone(start, a, prev, threshold);
      while todo != {}
        invariant todo <= prev.Keys && DeletionPhase.NoRepeats(order)
        invariant forall u :: u in order ==> u in prev
        invariant DeletionPhase.Members(order) == prev.Keys - todo
        invariant Progress() == DeleteInOrder(start, a, prev, threshold, order)
        decreases |todo|
      {
        var uid :| uid in todo;
        VisitRecord(a, prev, threshold, uid);
        assert uid !in DeletionPhase.Members(order);
        DeletionPhase.VisitOneMore(start, a, prev, threshold, order, uid);
        order := order + [uid];
        todo := todo - {uid};
      }
      assert prev.Keys - todo == prev.Keys;
      DeletionPhase.AnyOrderGivesTheTable(start, a, prev, threshold, order);
    }

    method VisitRecord(a: Answers, prev: Records, threshold: int, uid: string)
      requires source != dest && uid in prev
      modifies this, source, dest, db
      ensures Progress() == DeleteOne(old(Progress()), a, prev, threshold, uid)
    {
      var onSource, onDest := uid in sourceMap, uid in destMap;
      if !onSource && onDest {
        var ok := dest.DeleteEvent(destMap[uid].path, uid in a.destDeleteFails);
        CountDelete(ok);
        db.DeleteSyncedEvent(uid, uid in a.forgetFails);
        destMap := destMap - {uid};
      } else if onSource && !onDest {
        if prev[uid] > threshold {
          return;
        }
        var ok := source.DeleteEvent(sourceMap[uid].path, uid in a.sourceDeleteFails);
        CountDelete(ok);
        db.DeleteSyncedEvent(uid, uid in a.forgetFails);
        sourceMap := sourceMap - {uid};
      } else if !onSource && !onDest {
        db.DeleteSyncedEvent(uid, uid in a.forgetFails);
      }
    }

    method CountDelete(ok: bool)
      modifies this`result
      ensures result == if ok then old(result).(deleted := old(result).deleted + 1)
                        else old(result).(warnings := old(result).warnings + 1)
    {
      if ok {
        result := result.(deleted := result.deleted + 1);
      } else {
        result := result.(warnings := result.warnings + 1);
      }
    }

    method PushEvents(events: seq<Event>, calendar: string, replies: nat -> PutReply)
      requires source != dest
      modifies this, dest
      ensures Progress() == Push(old(Progress()), events, calendar, replies, |events|)
    {
      for i := 0 to |events|
        invariant Progress() == Push(old(Progress()), events, calendar, replies, i)
      {
        ghost var before := Progress();
        PushEvent(events[i], calendar, replies(i));
        assert Progress() == PushOne(before, events[i], calendar, replies(i));
      }
    }

    method PushEvent(event: Event, calendar: string, reply: PutReply)
      requires source != dest
      modifies this, dest
      ensures Progress() == PushOne(old(Progress()), event, calendar, reply)
    {
      hide PutInto, OutcomeOf, PushOne;
      if event.uid == "" {
        PushesNothing(Progress(), event, calendar, reply);
        return;
      }
      if event.uid !in destMap {
        PushNewEvent(event, calendar, reply);
      } else {
        PushListedEvent(event, calendar, reply);
      }
    }

    /** The branch for an event whose UID the destination does not show. */
    method PushNewEvent(event: Event, calendar: string, reply: PutReply)
      requires source != dest && event.uid != "" && event.uid !in destMap
      modifies this, dest
      ensures Progress() == PushOne(old(Progress()), event, calendar, reply)
    {
      hide PutInto, OutcomeOf;
      var key := event.DedupeKey();
      if key != BLANK_KEY && key in keys {
        result := result.(skipped := result.skipped + 1, processed := result.processed + 1);
        return;
      }
      CreateEvent(event, calendar, reply);
      result := result.(processed := result.processed + 1);
      destMap := destMap - {event.uid};
    }

    /** The branches for an event whose UID the destination shows. */
    method PushListedEvent(event: Event, calendar: string, reply: PutReply)
      requires source != dest && event.uid != "" && event.uid in destMap
      modifies this, dest
      ensures Progress() == PushOne(old(Progress()), event, calendar, reply)
    {
      hide PutInto, OutcomeOf;
      if event.etag != destMap[event.uid].etag {
        UpdateEvent(event, calendar, reply);
      } else {
        tracked := tracked + {event.uid};
      }
      result := result.(processed := result.processed + 1);
      destMap := destMap - {event.uid};
    }

    method CreateEvent(event: Event, calendar: string, reply: PutReply)
      requires source != dest
      modifies this`result, this`keys, this`tracked, dest
      ensures
        var was, done := old(Progress()), OutcomeOf(calendar, event, "", reply).Done?;
        Progress() ==
          if done then
            was.(dest := PutInto(was.dest, calendar, event, "", reply),
                 keys := if event.DedupeKey() != BLANK_KEY then was.keys + {event.DedupeKey()} else was.keys,
                 tracked := was.tracked + {event.uid},
                 result := was.result.(created := was.result.created + 1))
          else was.Warn()
    {
      hide PutInto, OutcomeOf;
      FailedPutChangesNothing(dest.store, calendar, event, "", reply);
      var outcome := dest.PutEvent(calendar, event, "", reply);
      if !outcome.Done? {
        result := result.(warnings := result.warnings + 1);
      } else {
        result := result.(created := result.created + 1);
        if event.DedupeKey() != BLANK_KEY {
          keys := keys + {event.DedupeKey()};
        }
        tracked := tracked + {event.uid};
      }
    }

    method UpdateEvent(event: Event, calendar: string, reply: PutReply)
      requires source != dest && event.uid in destMap
      modifies this`result, this`tracked, dest
      ensures
        var was, moved := old(Progress()), event.(path := destMap[event.uid].path);
        Progress() ==
          if OutcomeOf(calendar, moved, "", reply).Done? then
            was.(dest := PutInto(was.dest, calendar, moved, "", reply),
                 tracked := was.tracked + {event.uid},
                 result := was.result.(updated := was.result.updated + 1))
          else was.Warn()
    {
      hide PutInto, OutcomeOf;
      var moved := event.(path := destMap[event.uid].path);
      FailedPutChangesNothing(dest.store, calendar, moved, "", reply);
      var outcome := dest.PutEvent(calendar, moved, "", reply);
      if !outcome.Done? {
        result := result.(warnings := result.warnings + 1);
      } else {
        result := result.(updated := result.updated + 1);
        tracked := tracked + {event.uid};
      }
    }

    method PushEventsBack(cfg: Config, events: seq<Event>, replies: nat -> PutReply)
      requires source != dest
      modifies this, source
      ensures Progress() == PushBack(old(Progress()), cfg, events, replies, |events|)
    {
      for i := 0 to |events|
        invariant Progress() == PushBack(old(Progress()), cfg, events, replies, i)
      {
        var event := events[i];
        if event.uid == "" || event.uid !in sourceMap {
          continue;
        }
        if event.etag != sourceMap[event.uid].etag && cfg.strategy.DestWins? {
          var outcome := source.PutEvent(cfg.calendar, event.(path := sourceMap[event.uid].path), "", replies(i));
          match outcome {
            case Done => result := result.(updated := result.updated + 1);
            case OtherError => result := result.(warnings := result.warnings + 1);
            case _ =>
          }
        }
      }
    }

    method DeleteOrphans(a: Answers)
      requires source != dest
      modifies this`result, dest
      ensures Progress() == DropOrphans(old(Progress()), a, destMap.Keys)
    {
      hide DropOrphans, OrphanOne;
      var todo := destMap.Keys;
      ghost var start := Progress();
      DeletionPhase.NoOrphans(start, a);
      assert destMap.Keys - todo == {};
      while todo != {}
        invariant todo <= destMap.Keys
        invariant Progress() == DropOrphans(start, a, destMap.Keys - todo)
        decreases |todo|
      {
        var uid :| uid in todo;
        ghost var done := destMap.Keys - todo;
        DeletionPhase.OrphansGrowByOne(start, a, done, uid);
        DeleteOrphan(a, uid);
        todo := todo - {uid};
        assert destMap.Keys - todo == done + {uid};
      }
      assert destMap.Keys - todo == destMap.Keys;
    }

    method DeleteOrphan(a: Answers, uid: string)
      requires source != dest && uid in destMap
      modifies this`result, dest
      ensures Progress() == OrphanOne(old(Progress()), a, uid)
    {
      var ok := dest.DeleteEvent(destMap[uid].path, uid in a.orphanFails);
      CountDelete(ok);
    }

    /** Sorts a listing into its dedupe groups. */
    method GroupByKey(events: seq<Event>) returns (groups: map<string, seq<Event>>)
      ensures groups.Keys == KeysOf(events)
      ensures forall key :: key in groups ==> groups[key] == Group(events, key) && groups[key] != []
    {
      groups := map[];
      for i := 0 to |events|
        invariant groups.Keys == KeysOf(events[..i])
        invariant forall key :: key in groups ==> groups[key] == Group(events[..i], key) && groups[key] != []
      {
        var key := events[i].DedupeKey();
        assert events[..i + 1] == events[..i] + [events[i]];
        assert events[..i + 1][..i] == events[..i];
        ghost var was := groups;
        if key != BLANK_KEY {
          if key !in groups {
            NoGroupYet(events[..i], key);
            groups := groups[key := []];
          }
          groups := groups[key := groups[key] + [events[i]]];
        }
        forall k | k in groups
          ensures groups[k] == Group(events[..i + 1], k) && groups[k] != []
        {
          if k != key {
            assert k in was;
            assert Group(events[..i + 1], k) == Group(events[..i], k) + [];
          }
        }
      }
      assert events[..|events|] == events;
    }

    lemma NoGroupYet(events: seq<Event>, key: string)
      requires key != BLANK_KEY && key !in KeysOf(events)
      ensures Group(events, key) == []
    {
      assert forall e :: e in events ==> e.DedupeKey() != key;
      assert forall e :: e !in Group(events, key);
    }

    method RemoveDuplicates(a: Answers, events: seq<Event>)
      requires source != dest && DistinctPaths(events)
      modifies this`result, dest
      ensures Progress() == Cleanup(old(Progress()), a, events, KeysOf(events))
    {
      hide RemoveAll, Doomed, Group;
      var groups := GroupByKey(events);
      var todo := groups.Keys;
      ghost var start := Progress();
      DuplicateCleanup.NoneDoomed(events, sourceMap.Keys);
      assert groups.Keys - todo == {};
      DeletionPhase.NoRemovals(start, a);
      while todo != {}
        invariant todo <= groups.Keys
        invariant Progress() == Cleanup(start, a, events, groups.Keys - todo)
        decreases |todo|
      {
        var key :| key in todo;
        ghost var done := groups.Keys - todo;
        RemoveGroup(a, events, groups[key], start, done, key);
        todo := todo - {key};
        assert groups.Keys - todo == done + {key};
      }
      assert groups.Keys - todo == groups.Keys;
    }

    method RemoveGroup(a: Answers, ghost events: seq<Event>, group: seq<Event>, ghost start: Work,
                       ghost done: set<string>, ghost key: string)
      requires source != dest && DistinctPaths(events)
      requires key !in done && group == Group(events, key) && group != []
      requires start.sourceMap == sourceMap && Progress() == Cleanup(start, a, events, done)
      modifies this`result, dest
      ensures Progress() == Cleanup(start, a, events, done + {key})
    {
      hide RemoveAll, RemoveOne, Doomed, Group, KeepIndex;
      ghost var doomed := Doomed(events, sourceMap.Keys, done);
      DuplicateCleanup.DoomedGrows(events, sourceMap.Keys, done, key);
      DuplicateCleanup.GroupHasDistinctPaths(events, key);
      ghost var rest := DuplicateCleanup.Others(group, KeepIndex(group, sourceMap.Keys), |group|);
      if |group| <= 1 {
        assert rest == {};
        assert doomed + rest == doomed;
        return;
      }
      var keep := ChooseKeeper(group);
      assert doomed + DuplicateCleanup.Others(group, keep, 0) == doomed;
      for i := 0 to |group|
        invariant Progress() == RemoveAll(start, a, doomed + DuplicateCleanup.Others(group, keep, i))
      {
        ghost var gone := doomed + DuplicateCleanup.Others(group, keep, i);
        DuplicateCleanup.OthersGrow(group, keep, i, doomed);
        if i == keep {
          continue;
        }
        assert group[i] in group;
        DeletionPhase.RemovalsGrowByOne(start, a, gone, group[i].path);
        RemoveDuplicate(a, group[i].path);
      }
    }

    method RemoveDuplicate(a: Answers, path: string)
      requires source != dest
      modifies this`result, dest
      ensures Progress() == RemoveOne(old(Progress()), a, path)
    {
      var ok := dest.DeleteEvent(path, path in a.cleanupFails);
      if ok {
        result := result.(duplicatesRemoved := result.duplicatesRemoved + 1);
      }
    }

    method ChooseKeeper(group: seq<Event>) returns (keep: nat)
      requires group != []
      ensures keep == KeepIndex(group, sourceMap.Keys)
    {
      keep := 0;
      for i := 0 to |group|
        invariant keep == 0
        invariant forall j :: 0 <= j < i ==> group[j].uid !in sourceMap
      {
        if group[i].uid in sourceMap {
          keep := i;
          return;
        }
      }
    }

    method UpdateRecords(a: Answers)
      modifies db
      ensures db.rows == Stamp(old(db.rows), a, tracked)
    {
      var todo := tracked;
      assert tracked - todo == {};
      DeletionPhase.NoStamps(db.rows, a);
      while todo != {}
        invariant todo <= tracked
        invariant db.rows == Stamp(old(db.rows), a, tracked - todo)
        decreases |todo|
      {
        var uid :| uid in todo;
        ghost var done := tracked - todo;
        DeletionPhase.StampsGrowByOne(old(db.rows), a, done, uid);
        db.UpsertSyncedEvent(uid, a.stamp(uid), uid in a.stampFails);
        todo := todo - {uid};
        assert tracked - todo == done + {uid};
      }
      assert tracked - todo == tracked;
    }

    /** The phases between fetching and the clean-up. */
    method Reconcile(cfg: Config, a: Answers, prev: Records, sourceEvents: seq<Event>, destEvents: seq<Event>,
                     destCalendar: string, now: int, ghost run: Run, ghost start: State)
      requires source != dest
      requires run.cfg == cfg && run.answers == a && run.seen == Seen(sourceEvents, destEvents, None, destCalendar, now)
      requires Progress() == Begin(run, start) && prev == Previous(run, start)
      modifies this, source, dest, db
      ensures Progress() == AfterOrphans(run, start)
    {
      hide DeletionTable, Push, PushBack, DropOrphans, Begin;
      var skipTwoWayDeletion := cfg.direction.TwoWay? && destMap == map[] && prev != map[];
      if cfg.direction.TwoWay? && !skipTwoWayDeletion {
        HandleDeletions(a, prev, now - cfg.interval);
      }
      assert Progress() == AfterDeletion(run, start);
      PushEvents(sourceEvents, destCalendar, a.push);
      assert Progress() == AfterPush(run, start);
      if cfg.direction.TwoWay? {
        PushEventsBack(cfg, destEvents, a.pushBack);
      }
      assert Progress() == AfterPushBack(run, start);
      if cfg.direction.OneWay? && cfg.strategy.SourceWins? {
        DeleteOrphans(a);
      }
    }

    /** Fetches one side's events and cuts them down to the date window. */
    method Fetch(client: CalendarClient, answer: ListingAnswer, window: Option<DateWindow>, onSource: bool)
      returns (events: Option<seq<Event>>)
      requires ValidStore(client.store)
      requires window.Some? ==> window.value.Valid()
      ensures events.None? <==> answer.fails
      ensures events.Some? ==>
        var cutoff := if window.None? then None
                      else Some(if onSource then window.value.sourceCutoff else window.value.destCutoff);
        Shows(events.value, client.store, answer, cutoff, window)
    {
      events := client.GetEvents(answer.hidden, answer.fails);
      if events.Some? && window.Some? {
        ghost var raw := events.value;
        var w := window.value;
        var visible;
        if onSource {
          visible := EventWindow.FilterEventsByDate(events.value, w.sourceCutoff, w.sourceClock, w.parse);
        } else {
          visible := EventWindow.FilterEventsByDate(events.value, w.destCutoff, w.destClock, w.parse);
        }
        events := Some(visible);
        assert Lists(raw, Hide(client.store, answer.hidden));
      }
    }

    /** Fills the maps of the run. */
    method SetUp(sourceEvents: seq<Event>, destEvents: seq<Event>)
      modifies this
      ensures sourceMap == ByUid(sourceEvents) && destMap == ByUid(destEvents) && keys == KeysOf(destEvents)
      ensures tracked == {} && result == NO_RESULT
    {
      sourceMap := BuildMap(sourceEvents);
      destMap := BuildMap(destEvents);
      keys := BuildKeys(destEvents);
      tracked, result := {}, NO_RESULT;
    }

    /** The end of the run: the destination is listed again and cleaned of duplicates, and the records are updated. */
    method CleanUp(a: Answers, listing: ListingAnswer, ghost run: Run, ghost start: State) returns (ghost whole: Run)
      requires source != dest && ValidStore(dest.store) && run.answers == a
      requires Progress() == AfterOrphans(run, start)
      modifies this`result, dest, db
      ensures whole == run.(seen := run.seen.(recheck := whole.seen.recheck)) && Progress() == Finish(whole, start)
      ensures
        if listing.fails then whole.seen.recheck.None?
        else whole.seen.recheck.Some? && Lists(whole.seen.recheck.value, Hide(old(dest.store), listing.hidden))
    {
      hide AfterOrphans, Cleanup, Stamp, KeysOf, Lists;
      var recheck := dest.GetEvents(listing.hidden, listing.fails);
      whole := run.(seen := run.seen.(recheck := recheck));
      RunFacts.RecheckComesLast(run, recheck, start);
      if recheck.Some? {
        ListedPathsDiffer(recheck.value, Hide(dest.store, listing.hidden));
        RemoveDuplicates(a, recheck.value);
      }
      assert Progress() == AfterCleanup(whole, start);
      UpdateRecords(a);
    }

    /** One full synchronisation. `r` reports what the run saw; the listings in it are those of the collections at the
        time they were fetched, cut down to the date window. */
    method Synchronise(cfg: Config, a: Answers, window: Option<DateWindow>, now: int, destCalendar: string,
                       sourceListing: ListingAnswer, destListing: ListingAnswer, recheckListing: ListingAnswer)
      returns (ghost r: Option<Run>)
      requires source != dest && ValidStore(source.store) && ValidStore(dest.store)
      requires window.Some? ==> window.value.Valid()
      modifies this, source, dest, db
      ensures r.None? <==> sourceListing.fails
      ensures r.None? ==> Persistent() == old(Persistent()) && result == NO_RESULT.(errors := 1)
      ensures r.Some? ==>
        Progress() == Finish(r.value, old(Persistent())) && Persistent() == After(r.value, old(Persistent()))
      ensures r.Some? ==>
        r.value.cfg == cfg && r.value.answers == a
        && r.value.seen.now == now && r.value.seen.destCalendar == destCalendar
      ensures r.Some? ==>
        var cutoff := if window.None? then None else Some(window.value.sourceCutoff);
        Shows(r.value.seen.source, old(source.store), sourceListing, cutoff, window)
      ensures r.Some? ==>
        if destListing.fails then r.value.seen.dest == []
        else
          var cutoff := if window.None? then None else Some(window.value.destCutoff);
          Shows(r.value.seen.dest, old(dest.store), destListing, cutoff, window)
      ensures r.Some? ==>
        if recheckListing.fails then r.value.seen.recheck.None?
        else
          var left := AfterOrphans(r.value, old(Persistent())).dest;
          r.value.seen.recheck.Some? && Shows(r.value.seen.recheck.value, left, recheckListing, None, window)
    {
      hide Begin, AfterOrphans, Finish, Lists, Shows, ByUid, KeysOf;
      ghost var start := Persistent();
      var fetched := Fetch(source, sourceListing, window, true);
      if fetched.None? {
        result := NO_RESULT.(errors := 1);
        return None;
      }
      var destFetched := Fetch(dest, destListing, window, false);
      var destEvents := if destFetched.None? then [] else destFetched.value;
      var rows := db.GetSyncedEvents(a.recordsUnread);
      var prev: Records := if rows.None? then map[] else rows.value;
      SetUp(fetched.value, destEvents);
      ghost var run := Run.Run(cfg, a, Seen(fetched.value, destEvents, None, destCalendar, now));
      BeginsThere(run, start, Progress());
      Reconcile(cfg, a, prev, fetched.value, destEvents, destCalendar, now, run, start);
      RunFacts.StoresStayValid(run, start);
      ghost var whole := CleanUp(a, recheckListing, run, start);
      RunFacts.RecheckComesLast(run, whole.seen.recheck, start);
      if whole.seen.recheck.Some? {
        RawShows(whole.seen.recheck.value, AfterOrphans(whole, start).dest, recheckListing, window);
      }
      r := Some(whole);
    }
  }

  lemma PushesNothing(w: Work, e: Event, calendar: string, reply: PutReply)
    requires e.uid == ""
    ensures PushOne(w, e, calendar, reply) == w
  {
  }

  lemma ListedPathsDiffer(events: seq<Event>, store: Store)
    requires Lists(events, store)
    ensures DistinctPaths(events)
  {
  }

  lemma BeginsThere(run: Run, start: State, w: Work)
    requires w.source == start.source && w.dest == start.dest && w.records == start.records
    requires w.sourceMap == ByUid(run.seen.source) && w.destMap == ByUid(run.seen.dest)
    requires w.keys == KeysOf(run.seen.dest)
    requires w.tracked == {} && w.result == NO_RESULT
    ensures w == Begin(run, start)
  {
  }

  lemma RawShows(events: seq<Event>, store: Store, answer: ListingAnswer, window: Option<DateWindow>)
    requires Lists(events, Hide(store, answer.hidden))
    ensures Shows(events, store, answer, None, window)
  {
  }
}
