/** Two-way synchronisation carries a removal over: an event the user deletes on either side is gone from both calendars
    after at most two runs, and no later run brings it back. */
module TwoWayRemoval {
  import opened CalendarData
  import opened Reconcile
  import RunFacts

  ghost predicate Absent(store: Store, uid: string) {
    forall p :: p in store ==> store[p].uid != uid
  }

  ghost predicate Gone(s: State, uid: string) {
    Absent(s.source, uid) && Absent(s.dest, uid)
  }

  /** At most one path holds the UID. */
  ghost predicate Single(store: Store, uid: string) {
    forall p, q :: p in store && q in store && store[p].uid == uid && store[q].uid == uid ==> p == q
  }

  ghost predicate Honest(r: Run, s: State) {
    RunFacts.ShowsOnly(r.seen.source, s.source) && RunFacts.ShowsOnly(r.seen.dest, s.dest)
  }

  ghost predicate Unlisted(events: seq<Event>, uid: string) {
    forall e :: e in events ==> e.uid != uid
  }

  // ---- What one put may bring ----

  lemma PutBringsItsUid(store: Store, calendar: string, e: Event, reply: PutReply, uid: string)
    requires Absent(store, uid) && e.uid != uid && e.uid != ""
    ensures Absent(PutInto(store, calendar, e, "", reply), uid)
  {
  }

  lemma PutBringsOnce(store: Store, calendar: string, e: Event, reply: PutReply, uid: string)
    requires Absent(store, uid) && e.uid != ""
    ensures Single(PutInto(store, calendar, e, "", reply), uid)
  {
  }

  lemma PutStaysSingle(store: Store, calendar: string, e: Event, reply: PutReply, uid: string)
    requires Single(store, uid) && e.uid != uid && e.uid != ""
    ensures Single(PutInto(store, calendar, e, "", reply), uid)
  {
  }

  lemma {:induction false} PushBringsNothing(w: Work, events: seq<Event>, calendar: string, replies: nat -> PutReply,
                                             n: nat, uid: string)
    requires n <= |events| && Absent(w.dest, uid) && Unlisted(events[..n], uid)
    ensures Absent(Push(w, events, calendar, replies, n).dest, uid)
  {
    hide PushOne, KindOf, PutInto, Absent;
    if n > 0 {
      assert events[..n - 1] == events[..n][..n - 1];
      assert Unlisted(events[..n - 1], uid) && events[n - 1] in events[..n];
      PushBringsNothing(w, events, calendar, replies, n - 1, uid);
      var b, e := Push(w, events, calendar, replies, n - 1), events[n - 1];
      RunFacts.PushStep(b, e, calendar, replies(n - 1));
      if e.uid != "" {
        PutBringsItsUid(b.dest, calendar, e, replies(n - 1), uid);
        if e.uid in b.destMap {
          PutBringsItsUid(b.dest, calendar, e.(path := b.destMap[e.uid].path), replies(n - 1), uid);
        }
      } else {
        NoUidNoChange(b, e, calendar, replies(n - 1));
      }
    }
  }

  lemma NoUidNoChange(w: Work, e: Event, calendar: string, reply: PutReply)
    requires e.uid == ""
    ensures PushOne(w, e, calendar, reply) == w
  {
  }

  lemma {:induction false} PushBackBringsNothing(w: Work, cfg: Config, events: seq<Event>, replies: nat -> PutReply,
                                                 n: nat, uid: string)
    requires n <= |events| && Absent(w.source, uid) && uid !in w.sourceMap
    ensures
      var w' := PushBack(w, cfg, events, replies, n);
      Absent(w'.source, uid) && w'.sourceMap == w.sourceMap
  {
    hide PutInto, OutcomeOf, Absent;
    if n > 0 {
      PushBackBringsNothing(w, cfg, events, replies, n - 1, uid);
      var b, d := PushBack(w, cfg, events, replies, n - 1), events[n - 1];
      if d.uid != "" && d.uid in b.sourceMap {
        PutBringsItsUid(b.source, cfg.calendar, d.(path := b.sourceMap[d.uid].path), replies(n - 1), uid);
      }
    }
  }

  // ---- The phases after the push only take away from the destination ----

  lemma DestOnlyShrinks(r: Run, s: State)
    ensures
      var d, d' := AfterPush(r, s).dest, After(r, s).dest;
      forall p :: p in d' ==> p in d && d'[p] == d[p]
  {
    hide AfterPush, PushBack, PathsOf, Doomed, KeysOf, Stamp, ByUid;
    RunFacts.PushBackKeepsRecords(AfterPush(r, s), r.cfg, r.seen.dest, r.answers.pushBack, |r.seen.dest|);
    assert AfterPushBack(r, s).dest == AfterPush(r, s).dest;
    assert forall p :: p in AfterOrphans(r, s).dest ==>
      p in AfterPushBack(r, s).dest && AfterOrphans(r, s).dest[p] == AfterPushBack(r, s).dest[p];
  }

  lemma SourceStaysFree(r: Run, s: State, uid: string)
    requires Absent(AfterDeletion(r, s).source, uid) && uid !in AfterDeletion(r, s).sourceMap
    ensures Absent(After(r, s).source, uid)
  {
    hide After, AfterDeletion, Push, PushBack, Absent;
    RunFacts.PushLeavesSource(AfterDeletion(r, s), r.seen.source, r.seen.destCalendar, r.answers.push, |r.seen.source|);
    PushBackBringsNothing(AfterPush(r, s), r.cfg, r.seen.dest, r.answers.pushBack, |r.seen.dest|, uid);
    RunFacts.NothingAfterPushBack(r, s);
  }

  lemma AbsentIsUnlisted(events: seq<Event>, store: Store, uid: string)
    requires RunFacts.ShowsOnly(events, store) && Absent(store, uid)
    ensures Unlisted(events, uid) && uid !in ByUid(events)
  {
    hide ByUid;
    RunFacts.ByUidShows(events);
  }

  lemma DeletionTakesAway(r: Run, s: State)
    ensures
      var w := AfterDeletion(r, s);
      && (forall p :: p in w.source ==> p in s.source && w.source[p] == s.source[p])
      && (forall p :: p in w.dest ==> p in s.dest && w.dest[p] == s.dest[p])
  {
    hide WithVerdict, PathsOf, ByUid, KeysOf;
  }

  lemma Prefix(events: seq<Event>)
    ensures events[..|events|] == events
  {
  }

  /** Whatever the configuration and whatever fails, a run brings no UID back that is absent from both calendars. */
  lemma RunKeepsGone(r: Run, s: State, uid: string)
    requires Honest(r, s) && Gone(s, uid)
    ensures Gone(After(r, s), uid)
  {
    hide After, AfterDeletion, Push, ByUid;
    DeletionTakesAway(r, s);
    AbsentIsUnlisted(r.seen.source, s.source, uid);
    RunFacts.DeletionShrinksMaps(r, s);
    Prefix(r.seen.source);
    PushBringsNothing(AfterDeletion(r, s), r.seen.source, r.seen.destCalendar, r.answers.push, |r.seen.source|, uid);
    DestOnlyShrinks(r, s);
    SourceStaysFree(r, s, uid);
  }

  // ---- Removal on the source ----

  /** The run can see whether the destination holds the UID, and its calls about it go through. */
  ghost predicate Attends(r: Run, s: State, uid: string) {
    && r.cfg.direction.TwoWay? && Honest(r, s) && !r.answers.recordsUnread
    && uid !in r.answers.destDeleteFails && uid !in r.answers.sourceDeleteFails && uid !in r.answers.stampFails
    && (forall p :: p in s.source && s.source[p].uid == uid ==> s.source[p] in r.seen.source)
    && (forall p :: p in s.dest && s.dest[p].uid == uid ==> s.dest[p] in r.seen.dest)
  }

  lemma DroppedFromDest(r: Run, s: State, uid: string)
    requires uid != "" && Attends(r, s, uid) && uid in s.records && Absent(s.source, uid) && Single(s.dest, uid)
    ensures Absent(AfterDeletion(r, s).dest, uid)
  {
    hide ByUid, KeysOf, Attends;
    if path :| path in s.dest && s.dest[path].uid == uid {
      DestShowsIt(r, s, uid, path);
      AbsentIsUnlisted(r.seen.source, s.source, uid);
      var w, prev := Begin(r, s), Previous(r, s);
      var gone := WithVerdict(w, prev, Threshold(r), prev.Keys, DropFromDest) - r.answers.destDeleteFails;
      assert uid in gone && w.destMap[uid].path in PathsOf(gone, w.destMap);
    } else {
      DeletionTakesAway(r, s);
    }
  }

  lemma DestShowsIt(r: Run, s: State, uid: string, path: string)
    requires uid != "" && Attends(r, s, uid) && Single(s.dest, uid) && path in s.dest && s.dest[path].uid == uid
    ensures uid in ByUid(r.seen.dest) && ByUid(r.seen.dest)[uid].path == path
    ensures !r.answers.recordsUnread && r.cfg.direction.TwoWay? && uid !in r.answers.destDeleteFails && Honest(r, s)
  {
    hide ByUid;
    RunFacts.ByUidShows(r.seen.dest);
    var d := ByUid(r.seen.dest)[uid];
    assert s.dest[d.path] == d;
  }

  /** A tracked event the user removed from the source is gone from both sides after one run. */
  lemma RemovedOnSource(r: Run, s: State, uid: string)
    requires uid != "" && Attends(r, s, uid) && uid in s.records
    requires Absent(s.source, uid) && Single(s.dest, uid)
    ensures Gone(After(r, s), uid)
  {
    hide After, AfterDeletion, Push, ByUid;
    DroppedFromDest(r, s, uid);
    DeletionTakesAway(r, s);
    AbsentIsUnlisted(r.seen.source, s.source, uid);
    RunFacts.DeletionShrinksMaps(r, s);
    Prefix(r.seen.source);
    PushBringsNothing(AfterDeletion(r, s), r.seen.source, r.seen.destCalendar, r.answers.push, |r.seen.source|, uid);
    DestOnlyShrinks(r, s);
    SourceStaysFree(r, s, uid);
  }

  // ---- Removal on the destination ----

  ghost predicate OldEnough(r: Run, s: State, uid: string) {
    uid in s.records && s.records[uid] <= r.seen.now - r.cfg.interval
  }

  lemma DroppedFromSource(r: Run, s: State, uid: string)
    requires uid != "" && Attends(r, s, uid) && OldEnough(r, s, uid) && Single(s.source, uid) && Absent(s.dest, uid)
    requires exists d :: d in r.seen.dest && d.uid != ""
    ensures Absent(AfterDeletion(r, s).source, uid) && uid !in AfterDeletion(r, s).sourceMap
  {
    hide ByUid, KeysOf;
    AbsentIsUnlisted(r.seen.dest, s.dest, uid);
    RunFacts.ByUidShows(r.seen.dest);
    RunFacts.ByUidShows(r.seen.source);
    var w, prev := Begin(r, s), Previous(r, s);
    assert DeletionEnabled(r, prev, w.destMap);
    if uid in w.sourceMap {
      var e := w.sourceMap[uid];
      var gone := WithVerdict(w, prev, Threshold(r), prev.Keys, DropFromSource) - r.answers.sourceDeleteFails;
      assert uid in gone && e.path in PathsOf(gone, w.sourceMap);
      assert s.source[e.path] == e;
    }
  }

  ghost predicate Once(events: seq<Event>, uid: string) {
    forall i, j :: 0 <= i < j < |events| ==> events[i].uid != uid || events[j].uid != uid
  }

  lemma ListedOnce(events: seq<Event>, store: Store, uid: string)
    requires DistinctPaths(events) && RunFacts.ShowsOnly(events, store) && Single(store, uid)
    ensures Once(events, uid)
  {
    forall i, j | 0 <= i < j < |events|
      ensures events[i].uid != uid || events[j].uid != uid
    {
      assert events[i] in events && events[j] in events && events[i].path != events[j].path;
    }
  }

  ghost predicate BackAtMostOnce(w: Work, uid: string) {
    Absent(w.dest, uid) || (Single(w.dest, uid) && uid in w.tracked)
  }

  lemma OwnPush(w: Work, e: Event, calendar: string, reply: PutReply)
    requires e.uid != "" && Absent(w.dest, e.uid) && e.uid !in w.destMap
    ensures BackAtMostOnce(PushOne(w, e, calendar, reply), e.uid)
  {
    hide PushOne, PutInto, OutcomeOf, Absent, Single;
    RunFacts.PushStep(w, e, calendar, reply);
    PutBringsOnce(w.dest, calendar, e, reply, e.uid);
  }

  lemma OtherPush(w: Work, e: Event, calendar: string, reply: PutReply, uid: string)
    requires e.uid != uid && BackAtMostOnce(w, uid)
    ensures BackAtMostOnce(PushOne(w, e, calendar, reply), uid)
    ensures Absent(w.dest, uid) ==> Absent(PushOne(w, e, calendar, reply).dest, uid)
  {
    hide PushOne, KindOf, PutInto, Absent, Single;
    if e.uid == "" {
      NoUidNoChange(w, e, calendar, reply);
      return;
    }
    RunFacts.PushStep(w, e, calendar, reply);
    var moved := if e.uid in w.destMap then e.(path := w.destMap[e.uid].path) else e;
    if Absent(w.dest, uid) {
      PutBringsItsUid(w.dest, calendar, e, reply, uid);
      PutBringsItsUid(w.dest, calendar, moved, reply, uid);
    } else {
      PutStaysSingle(w.dest, calendar, e, reply, uid);
      PutStaysSingle(w.dest, calendar, moved, reply, uid);
    }
  }

  /** An event that was just deleted from the source is pushed once more; if that puts it back, the run tracks it. */
  lemma {:induction false} PushedBackOnce(w: Work, events: seq<Event>, calendar: string, replies: nat -> PutReply,
                                          n: nat, uid: string)
    requires n <= |events| && uid != "" && Once(events, uid) && Absent(w.dest, uid) && uid !in w.destMap
    ensures
      var w' := Push(w, events, calendar, replies, n);
      && BackAtMostOnce(w', uid) && uid !in w'.destMap
      && (Unlisted(events[..n], uid) ==> Absent(w'.dest, uid))
  {
    hide PushOne, KindOf, PutInto, Absent, BackAtMostOnce;
    if n == 0 {
      AbsentIsAtMostOnce(w, uid);
    } else {
      PushedBackOnce(w, events, calendar, replies, n - 1, uid);
      var b, e := Push(w, events, calendar, replies, n - 1), events[n - 1];
      RunFacts.PushStep(b, e, calendar, replies(n - 1));
      if e.uid == uid {
        assert e in events[..n];
        OwnPush(b, e, calendar, replies(n - 1));
      } else {
        assert events[..n - 1] == events[..n][..n - 1];
        OtherPush(b, e, calendar, replies(n - 1), uid);
      }
    }
  }

  lemma AbsentIsAtMostOnce(w: Work, uid: string)
    requires Absent(w.dest, uid)
    ensures BackAtMostOnce(w, uid)
  {
  }

  lemma TrackedGetsStamped(r: Run, s: State, uid: string)
    requires uid in AfterPush(r, s).tracked && uid !in r.answers.stampFails
    ensures uid in After(r, s).records
  {
    hide After, AfterPush;
    RunFacts.RecordsAtEnd(r, s);
  }

  /** First run after the user removed a tracked event from the destination: the source loses it; the destination may
      get it back once more, but then with a record. */
  lemma FirstRunAfterDestRemoval(r: Run, s: State, uid: string)
    requires uid != "" && Attends(r, s, uid) && OldEnough(r, s, uid) && DistinctPaths(r.seen.source)
    requires Single(s.source, uid) && Absent(s.dest, uid) && exists d :: d in r.seen.dest && d.uid != ""
    ensures
      var s' := After(r, s);
      Absent(s'.source, uid) && Single(s'.dest, uid) && (Absent(s'.dest, uid) || uid in s'.records)
  {
    hide After, AfterDeletion, Push, ByUid, OldEnough;
    DroppedFromSource(r, s, uid);
    DeletionTakesAway(r, s);
    AbsentIsUnlisted(r.seen.dest, s.dest, uid);
    RunFacts.DeletionShrinksMaps(r, s);
    ListedOnce(r.seen.source, s.source, uid);
    PushedBackOnce(AfterDeletion(r, s), r.seen.source, r.seen.destCalendar, r.answers.push, |r.seen.source|, uid);
    DestOnlyShrinks(r, s);
    SourceStaysFree(r, s, uid);
    if uid in AfterPush(r, s).tracked {
      TrackedGetsStamped(r, s, uid);
    }
  }

  /** A tracked event the user removed from the destination, with a record at least one interval old and some other UID
      still listed there, is gone from both sides after two runs. */
  lemma RemovedOnDest(r1: Run, r2: Run, s: State, uid: string)
    requires uid != "" && Attends(r1, s, uid) && OldEnough(r1, s, uid) && DistinctPaths(r1.seen.source)
    requires Single(s.source, uid) && Absent(s.dest, uid) && exists d :: d in r1.seen.dest && d.uid != ""
    requires Attends(r2, After(r1, s), uid)
    ensures Gone(After(r2, After(r1, s)), uid)
  {
    hide After, Absent, Single, OldEnough;
    FirstRunAfterDestRemoval(r1, s, uid);
    var s' := After(r1, s);
    if Absent(s'.dest, uid) {
      RunKeepsGone(r2, s', uid);
    } else {
      RemovedOnSource(r2, s', uid);
    }
  }

  // ---- For good ----

  /** Whatever runs follow, in any mode and with any failures, the event never reappears. */
  lemma {:induction false} NeverReappears(s0: State, runs: seq<Run>, n: nat, uid: string)
    requires n <= |runs| && Gone(s0, uid)
    requires forall k :: 0 <= k < n ==> Honest(runs[k], StateBefore(s0, runs, k))
    ensures Gone(StateBefore(s0, runs, n), uid)
  {
    hide After, Gone, Honest;
    if n > 0 {
      NeverReappears(s0, runs, n - 1, uid);
      RunKeepsGone(runs[n - 1], StateBefore(s0, runs, n - 1), uid);
    }
  }
}
