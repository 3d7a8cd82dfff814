/** When a run drops a record, and what that is for (internal/caldav/sync.go). */
module RecordKeeping {
  import opened CalendarData
  import opened Reconcile
  import DeletionPhase
  import RunFacts

  /** Some listed event has the UID. */
  ghost predicate ShownIn(events: seq<Event>, uid: string) {
    uid != "" && exists e :: e in events && e.uid == uid
  }

  /** The deletion phase looks at records: two-way mode, records read, and some UID listed on the destination. */
  ghost predicate LooksAtRecords(r: Run) {
    r.cfg.direction.TwoWay? && !r.answers.recordsUnread && exists d :: d in r.seen.dest && d.uid != ""
  }

  ghost predicate IsOld(r: Run, s: State, uid: string)
    requires uid in s.records
  {
    s.records[uid] <= r.seen.now - r.cfg.interval
  }

  lemma ShownIsMapped(events: seq<Event>, uid: string)
    ensures ShownIn(events, uid) <==> uid in ByUid(events)
  {
    hide ByUid;
    RunFacts.ByUidShows(events);
    if uid in ByUid(events) {
      assert ByUid(events)[uid] in events;
    }
  }

  /** Of several listed events with one UID the map has the last. */
  lemma {:induction false} MapHasTheLast(events: seq<Event>, i: nat)
    requires i < |events| && events[i].uid != "" && forall j :: i < j < |events| ==> events[j].uid != events[i].uid
    ensures events[i].uid in ByUid(events) && ByUid(events)[events[i].uid] == events[i]
  {
    if i < |events| - 1 {
      MapHasTheLast(events[..|events| - 1], i);
    }
  }

  lemma LooksIffEnabled(r: Run, s: State)
    requires s.records != map[]
    ensures LooksAtRecords(r) ==> DeletionEnabled(r, Previous(r, s), ByUid(r.seen.dest)) && Previous(r, s) == s.records
    ensures !LooksAtRecords(r) ==>
      Previous(r, s) == map[] || !DeletionEnabled(r, Previous(r, s), ByUid(r.seen.dest))
  {
    hide ByUid;
    RunFacts.ByUidShows(r.seen.dest);
    if ByUid(r.seen.dest) != map[] {
      var u :| u in ByUid(r.seen.dest);
      assert ByUid(r.seen.dest)[u] in r.seen.dest;
    }
  }

  /** The decision table on one record. */
  lemma TableOnRecord(w: Work, a: Answers, prev: Records, threshold: int, uid: string)
    requires uid in w.records && uid in prev
    ensures
      var after := DeletionTable(w, a, prev, threshold, prev.Keys).records;
      && (uid !in after <==>
            uid !in a.forgetFails
            && (uid !in w.sourceMap || (uid !in w.destMap && prev[uid] <= threshold)))
      && (uid in after ==> after[uid] == w.records[uid])
  {
    hide PathsOf;
  }

  /** The deletion phase drops a record if and only if it looks at records, the row can be deleted, and the event is
      not on the source, or not on the destination and the record is old; whether or not the server deletes succeed.
      A record that stays keeps its time. */
  lemma RecordIsDroppedIff(r: Run, s: State, uid: string)
    requires uid in s.records
    ensures uid !in AfterDeletion(r, s).records
      <==> && LooksAtRecords(r) && uid !in r.answers.forgetFails
           && (!ShownIn(r.seen.source, uid) || (!ShownIn(r.seen.dest, uid) && IsOld(r, s, uid)))
    ensures uid in AfterDeletion(r, s).records ==> AfterDeletion(r, s).records[uid] == s.records[uid]
  {
    hide ByUid, KeysOf, DeletionTable, DeletionEnabled, LooksAtRecords, ShownIn;
    LooksIffEnabled(r, s);
    ShownIsMapped(r.seen.source, uid);
    ShownIsMapped(r.seen.dest, uid);
    if LooksAtRecords(r) {
      TableOnRecord(Begin(r, s), r.answers, s.records, Threshold(r), uid);
    } else if Previous(r, s) == map[] {
      assert Previous(r, s).Keys == {};
      DeletionPhase.EmptyTable(Begin(r, s), r.answers, Previous(r, s), Threshold(r));
    }
  }

  /** A record that was dropped is not there after the run either, unless the run vouches for the UID anew. */
  lemma DroppedStaysDropped(r: Run, s: State, uid: string)
    requires uid !in AfterDeletion(r, s).records && !RunFacts.Vouched(r, s, uid)
    ensures uid !in After(r, s).records
  {
    hide AfterDeletion, Push, PushBack, After, Stamp, RunFacts.VouchedAt;
    RunFacts.PushLeavesSource(AfterDeletion(r, s), r.seen.source, r.seen.destCalendar, r.answers.push, |r.seen.source|);
    RunFacts.RecordsAtEnd(r, s);
    RunFacts.TrackedIsVouched(r, s, |r.seen.source|);
    NotStamped(AfterPush(r, s).records, r.answers, AfterPush(r, s).tracked, uid);
  }

  lemma NotStamped(records: Records, a: Answers, uids: set<string>, uid: string)
    requires uid !in records && uid !in uids
    ensures uid !in Stamp(records, a, uids)
  {
  }

  /** Without a record no run deletes the event from the source. */
  lemma NoRecordNoDeletion(r: Run, s: State, path: string)
    requires RunFacts.ShowsOnly(r.seen.source, s.source) && path in s.source && s.source[path].uid !in s.records
    ensures path in After(r, s).source
  {
    hide After;
    if path !in After(r, s).source {
      var uid := RunFacts.SourceDeletionIsGuarded(r, s, path);
    }
  }

  /** An event that is gone from both sides loses its record, so that when the user later puts it back on the source,
      the next run does not take it for one that was deleted on the destination. */
  lemma RestoredEventIsKept(r1: Run, s: State, uid: string, restored: Store, dest: Store, r2: Run, path: string)
    requires LooksAtRecords(r1) && uid !in r1.answers.forgetFails
    requires !ShownIn(r1.seen.source, uid) && !ShownIn(r1.seen.dest, uid) && uid != ""
    requires path in restored && restored[path].uid == uid && RunFacts.ShowsOnly(r2.seen.source, restored)
    ensures uid !in After(r1, s).records
    ensures path in After(r2, State(restored, dest, After(r1, s).records)).source
  {
    hide After, AfterDeletion, LooksAtRecords;
    if uid in s.records {
      RecordIsDroppedIff(r1, s, uid);
    } else {
      RunFacts.DeletionShrinksRecords(r1, s);
    }
    NotListedNotVouched(r1, s, uid);
    DroppedStaysDropped(r1, s, uid);
    NoRecordNoDeletion(r2, State(restored, dest, After(r1, s).records), path);
  }

  lemma NotListedNotVouched(r: Run, s: State, uid: string)
    requires !ShownIn(r.seen.source, uid) && uid != ""
    ensures !RunFacts.Vouched(r, s, uid)
  {
    hide PushUpTo, KindOf;
    forall i | 0 <= i < |r.seen.source|
      ensures r.seen.source[i].uid != uid
    {
      assert r.seen.source[i] in r.seen.source;
    }
  }
}
