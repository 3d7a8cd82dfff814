/** One-way synchronisation with source_wins converges: from any destination, two undisturbed runs bring it in step with
    the source, and every later run creates, deletes and de-duplicates nothing. */
module Convergence {
  import opened CalendarData
  import opened Reconcile
  import RunFacts
  import PushPhase
  import DuplicateCleanup

  // ---- Assumptions ----

  /** UIDs name events: no two paths hold the same non-empty UID (section 4.1 of RFC 4791). */
  ghost predicate UniqueUids(store: Store) {
    forall p, q :: p in store && q in store && store[p].uid == store[q].uid && store[p].uid != "" ==> p == q
  }

  ghost predicate GoodSource(source: Store) {
    && ValidStore(source) && UniqueUids(source)
    && forall q :: q in source && source[q].uid != "" ==> source[q].data != ""
  }

  /** The resources of the destination lie under the calendar path and all carry a UID. */
  ghost predicate GoodDest(dest: Store, calendar: string) {
    && ValidStore(dest) && UniqueUids(dest)
    && forall p :: p in dest ==> dest[p].uid != "" && p != "" && calendar <= p
  }

  function Target(calendar: string, e: Event): string
    requires e.uid != ""
  {
    PutTarget(calendar, e.path, e.uid, "").value
  }

  /** Equal tags of events with the same UID mean equal content. */
  ghost predicate TagsAgree(source: Store, dest: Store) {
    forall q, p :: q in source && p in dest && source[q].uid == dest[p].uid && source[q].etag == dest[p].etag
      ==> source[q].Content() == dest[p].Content()
  }

  ghost predicate Smooth(a: Answers) {
    && a.destDeleteFails == {} && a.sourceDeleteFails == {} && a.forgetFails == {} && a.orphanFails == {}
    && a.cleanupFails == {} && a.stampFails == {} && !a.recordsUnread
    && (forall i :: a.push(i).Stored?) && (forall i :: a.pushBack(i).Stored?)
  }

  ghost predicate SeesAll(r: Run, s: State) {
    && Lists(r.seen.source, s.source) && Lists(r.seen.dest, s.dest)
    && r.seen.recheck.Some? && Lists(r.seen.recheck.value, AfterOrphans(r, s).dest)
  }

  /** An undisturbed one-way run: every call succeeds, every listing is complete, in whatever order, and the server
      stores no put over a resource with another UID. */
  ghost predicate Undisturbed(r: Run, s: State, calendar: string) {
    && r.cfg.direction.OneWay? && r.cfg.strategy.SourceWins? && r.seen.destCalendar == calendar
    && Smooth(r.answers) && SeesAll(r, s) && RunFacts.ServerObeys(r, s)
  }

  // ---- Goals ----

  ghost predicate CopyOf(e: Event, source: Store) {
    exists q :: q in source && source[q].uid != "" && source[q].Content() == e.Content()
  }

  ghost predicate Present(dest: Store, e: Event) {
    exists p :: p in dest && dest[p].Content() == e.Content()
  }

  ghost predicate KeyPresent(dest: Store, key: string) {
    exists p :: p in dest && dest[p].DedupeKey() == key
  }

  /** Every destination event is a copy of a source event, no two share a non-blank key, and no source event with a
      blank key is missing. */
  ghost predicate Mirrored(source: Store, dest: Store) {
    && (forall p :: p in dest ==> CopyOf(dest[p], source))
    && (forall p, p' :: p in dest && p' in dest && dest[p].DedupeKey() == dest[p'].DedupeKey() != BLANK_KEY ==> p == p')
    && (forall q :: q in source && source[q].uid != "" && source[q].DedupeKey() == BLANK_KEY ==>
            Present(dest, source[q]))
  }

  /** In step: moreover every key of a source event is there, hence exactly once if it is not blank. */
  ghost predicate InStep(source: Store, dest: Store) {
    Mirrored(source, dest)
    && forall q :: q in source && source[q].uid != "" ==> KeyPresent(dest, source[q].DedupeKey())
  }

  // ---- The push loop, undisturbed ----

  ghost predicate Seen(events: seq<Event>, n: nat, uid: string)
    requires n <= |events|
  {
    exists i :: 0 <= i < n && events[i].uid == uid
  }

  /** Leftovers are exactly the destination events whose UID has not come up yet, still untouched. */
  ghost predicate LeftoversExact(w: Work, events: seq<Event>, n: nat, dest0: Store)
    requires n <= |events|
  {
    && (forall u :: u in w.destMap ==>
          var d := w.destMap[u];
          !Seen(events, n, u) && d.uid == u && d.path in dest0 && dest0[d.path] == d
          && d.path in w.dest && w.dest[d.path] == d)
    && (forall p :: p in w.dest && !Seen(events, n, w.dest[p].uid) ==>
            w.dest[p].uid in w.destMap && w.destMap[w.dest[p].uid].path == p)
  }

  /** What has come up is copied. */
  ghost predicate CopiesMade(w: Work, events: seq<Event>, n: nat, source: Store)
    requires n <= |events|
  {
    && (forall p :: p in w.dest && Seen(events, n, w.dest[p].uid) ==> CopyOf(w.dest[p], source))
    && (forall i :: 0 <= i < n && events[i].uid != "" ==>
          Present(w.dest, events[i]) || (events[i].DedupeKey() != BLANK_KEY && events[i].DedupeKey() in w.keys))
  }

  /** Keys stem from the first listing or from an event that is now present. */
  ghost predicate KeysExplained(w: Work, dest0: Store) {
    forall k :: k in w.keys ==> KeyPresent(dest0, k) || KeyPresent(w.dest, k)
  }

  ghost predicate Placed(w: Work, w': Work, e: Event, calendar: string, h: string) {
    && h in w'.dest && w'.dest == w.dest[h := w'.dest[h]]
    && w'.dest[h].Content() == e.Content() && w'.dest[h].path == h && h != "" && calendar <= h
    && (if h in w.dest then w.dest[h].uid == e.uid else e.uid != "" && h == Target(calendar, e))
    && (forall p :: p in w.dest && w.dest[p].uid == e.uid ==> p == h)
  }

  lemma TargetIsUnder(calendar: string, e: Event)
    requires e.uid != ""
    ensures Target(calendar, e) != "" && calendar <= Target(calendar, e)
  {
  }

  lemma PutPlaces(store: Store, calendar: string, e: Event, reply: PutReply)
    requires e.uid != "" && e.data != "" && reply.Stored?
    ensures PutInto(store, calendar, e, "", reply)
         == store[Target(calendar, e) := e.(path := Target(calendar, e), etag := reply.etag)]
  {
  }

  lemma TargetIsFree(w: Work, e: Event, calendar: string, reply: PutReply)
    requires RunFacts.Obeys(w, e, calendar, reply) && reply.Stored? && e.data != ""
    requires e.uid != "" && e.uid !in w.destMap && !KindOf(w, e, calendar, reply).Skipped?
    ensures Target(calendar, e) in w.dest ==> w.dest[Target(calendar, e)].uid == e.uid
  {
    assert RunFacts.PutFor(w, e) == Some(e);
    assert RunFacts.WritesTo(calendar, e, reply, Target(calendar, e));
  }

  /** A push that does not skip its event leaves exactly one copy of it, at one place. */
  lemma StepPlaces(w: Work, events: seq<Event>, n: nat, source: Store, dest0: Store, calendar: string, reply: PutReply)
    returns (h: string)
    requires n < |events| && Lists(events, source) && GoodSource(source) && TagsAgree(source, dest0)
    requires GoodDest(w.dest, calendar) && LeftoversExact(w, events, n, dest0)
    requires RunFacts.Obeys(w, events[n], calendar, reply)
    requires events[n].uid != "" && reply.Stored? && !KindOf(w, events[n], calendar, reply).Skipped?
    ensures Placed(w, PushOne(w, events[n], calendar, reply), events[n], calendar, h)
  {
    hide PutInto, PushOne, OutcomeOf, PutTarget, RunFacts.Obeys;
    var e := events[n];
    NotSeenBefore(events, n, source);
    RunFacts.PushStep(w, e, calendar, reply);
    RunFacts.DoneMeansStored(calendar, e, reply);
    assert source[e.path] == e;
    if e.uid in w.destMap {
      var moved := e.(path := w.destMap[e.uid].path);
      RunFacts.DoneMeansStored(calendar, moved, reply);
      h := moved.path;
      StaysPut(calendar, moved);
      PutPlaces(w.dest, calendar, moved, reply);
      assert w.dest == w.dest[h := w.dest[h]];
    } else {
      h := Target(calendar, e);
      TargetIsUnder(calendar, e);
      TargetIsFree(w, e, calendar, reply);
      PutPlaces(w.dest, calendar, e, reply);
    }
  }

  lemma StaysPut(calendar: string, e: Event)
    requires e.uid != "" && e.path != "" && calendar <= e.path
    ensures Target(calendar, e) == e.path
  {
  }

  lemma NotSeenBefore(events: seq<Event>, n: nat, source: Store)
    requires n < |events| && Lists(events, source) && UniqueUids(source) && events[n].uid != ""
    ensures !Seen(events, n, events[n].uid)
  {
    forall i | 0 <= i < n
      ensures events[i].uid != events[n].uid
    {
      assert source[events[i].path] == events[i] && source[events[n].path] == events[n];
    }
  }

  lemma SeenNextAt(events: seq<Event>, n: nat, u: string)
    requires n < |events|
    ensures Seen(events, n + 1, u) <==> Seen(events, n, u) || events[n].uid == u
  {
    if Seen(events, n, u) {
      var i :| 0 <= i < n && events[i].uid == u;
      assert 0 <= i < n + 1 && events[i].uid == u;
    }
    if events[n].uid == u {
      assert 0 <= n < n + 1 && events[n].uid == u;
    }
  }

  lemma SeenNext(events: seq<Event>, n: nat)
    requires n < |events|
    ensures forall u {:trigger Seen(events, n, u)} ::
      Seen(events, n + 1, u) <==> Seen(events, n, u) || events[n].uid == u
  {
    forall u {:trigger Seen(events, n, u)}
      ensures Seen(events, n + 1, u) <==> Seen(events, n, u) || events[n].uid == u
    {
      SeenNextAt(events, n, u);
    }
  }

  /** Everything the push loop maintains in an undisturbed run. */
  ghost predicate PushInvariant(w: Work, events: seq<Event>, n: nat, source: Store, dest0: Store, calendar: string)
    requires n <= |events|
  {
    && GoodDest(w.dest, calendar)
    && LeftoversExact(w, events, n, dest0) && CopiesMade(w, events, n, source) && KeysExplained(w, dest0)
  }

  lemma PlacingKeepsDest(w: Work, w': Work, e: Event, calendar: string, h: string)
    requires Placed(w, w', e, calendar, h) && e.uid != "" && GoodDest(w.dest, calendar)
    ensures GoodDest(w'.dest, calendar)
  {
    hide PutTarget, Target;
    assert w'.dest[h].Content().uid == e.Content().uid;
  }

  lemma PlacingKeepsLeftovers(w: Work, w': Work, events: seq<Event>, n: nat, source: Store, dest0: Store,
                              calendar: string, h: string)
    requires n < |events| && Placed(w, w', events[n], calendar, h) && w'.destMap == w.destMap - {events[n].uid}
    requires LeftoversExact(w, events, n, dest0)
    ensures LeftoversExact(w', events, n + 1, dest0)
  {
    hide Seen, Target;
    SeenNext(events, n);
    var e := events[n];
    assert w'.dest[h].Content().uid == e.Content().uid;
    assert w'.dest[h].uid == e.uid;
    forall u | u in w'.destMap
      ensures
        var d := w'.destMap[u];
        !Seen(events, n + 1, u) && d.uid == u && d.path in dest0 && dest0[d.path] == d
        && d.path in w'.dest && w'.dest[d.path] == d
    {
      assert w'.destMap[u] == w.destMap[u] && u != e.uid;
      assert w.destMap[u].path != h;
    }
    forall p | p in w'.dest && !Seen(events, n + 1, w'.dest[p].uid)
      ensures w'.dest[p].uid in w'.destMap && w'.destMap[w'.dest[p].uid].path == p
    {
      SeenNextAt(events, n, w'.dest[p].uid);
      assert p != h;
      assert w'.dest[p] == w.dest[p];
    }
  }

  lemma PlacingKeepsCopies(w: Work, w': Work, events: seq<Event>, n: nat, source: Store, calendar: string, h: string)
    requires n < |events| && Placed(w, w', events[n], calendar, h) && w.keys <= w'.keys
    requires Lists(events, source) && UniqueUids(source) && events[n].uid != ""
    requires CopiesMade(w, events, n, source)
    ensures CopiesMade(w', events, n + 1, source)
  {
    hide Seen, Target;
    SeenNext(events, n);
    var e := events[n];
    assert w'.dest[h].Content().uid == e.Content().uid;
    assert CopyOf(w'.dest[h], source) by {
      assert e.path in source && source[e.path] == e && source[e.path].Content() == w'.dest[h].Content();
    }
    assert Present(w'.dest, e);
    NotSeenBefore(events, n, source);
    forall i | 0 <= i < n && events[i].uid != "" && Present(w.dest, events[i])
      ensures Present(w'.dest, events[i])
    {
      var p :| p in w.dest && w.dest[p].Content() == events[i].Content();
      assert w.dest[p].Content().uid == events[i].Content().uid;
      assert Seen(events, n, events[i].uid) by { SeenHere(events, n, i); }
      assert p != h && w'.dest[p] == w.dest[p];
    }
  }

  lemma SeenHere(events: seq<Event>, n: nat, i: nat)
    requires i < n <= |events|
    ensures Seen(events, n, events[i].uid)
  {
  }

  lemma PlacingKeepsKeys(w: Work, w': Work, e: Event, dest0: Store, calendar: string, h: string)
    requires Placed(w, w', e, calendar, h) && w'.keys <= w.keys + {e.DedupeKey()}
    requires KeysExplained(w, dest0)
    requires forall p :: p in w.dest && w.dest[p].uid == e.uid ==> KeyPresent(dest0, w.dest[p].DedupeKey())
    ensures KeysExplained(w', dest0)
  {
    hide Target;
    assert w'.dest[h].Content() == e.Content();
    assert KeyPresent(w'.dest, e.DedupeKey());
    forall k | k in w'.keys && !KeyPresent(dest0, k) && k != e.DedupeKey()
      ensures KeyPresent(w'.dest, k)
    {
      var p :| p in w.dest && w.dest[p].DedupeKey() == k;
      assert w.dest[p].uid != e.uid;
      assert p != h && w'.dest[p] == w.dest[p];
    }
  }

  lemma SkippingKeepsAll(w: Work, w': Work, events: seq<Event>, n: nat, source: Store, dest0: Store, calendar: string)
    requires n < |events| && PushInvariant(w, events, n, source, dest0, calendar) && Lists(events, source)
    requires UniqueUids(source)
    requires w'.dest == w.dest && w'.destMap == w.destMap && w'.keys == w.keys
    requires events[n].uid != "" ==>
      events[n].uid !in w.destMap && events[n].DedupeKey() != BLANK_KEY && events[n].DedupeKey() in w.keys
    ensures PushInvariant(w', events, n + 1, source, dest0, calendar)
  {
    hide Seen, Target, Lists;
    SeenNext(events, n);
    if events[n].uid != "" {
      NotSeenBefore(events, n, source);
    }
  }

  lemma PushStepKeepsInvariant(w: Work, events: seq<Event>, n: nat, source: Store, dest0: Store, calendar: string,
                               reply: PutReply)
    requires n < |events| && Lists(events, source) && GoodSource(source) && TagsAgree(source, dest0)
    requires PushInvariant(w, events, n, source, dest0, calendar) && reply.Stored?
    requires RunFacts.Obeys(w, events[n], calendar, reply)
    ensures PushInvariant(PushOne(w, events[n], calendar, reply), events, n + 1, source, dest0, calendar)
  {
    hide PutInto, PushOne, OutcomeOf, LeftoversExact, CopiesMade, KeysExplained, GoodDest, TagsAgree, Lists, Placed,
         Target,
         RunFacts.Obeys;
    var e := events[n];
    var w' := PushOne(w, e, calendar, reply);
    RunFacts.PushStep(w, e, calendar, reply);
    if e.uid == "" || KindOf(w, e, calendar, reply).Skipped? {
      if e.uid != "" {
        assert w.destMap - {e.uid} == w.destMap;
      }
      SkippingKeepsAll(w, w', events, n, source, dest0, calendar);
    } else {
      var h := StepPlaces(w, events, n, source, dest0, calendar, reply);
      ListedAt(events, source, n);
      PlacingKeepsDest(w, w', e, calendar, h);
      PlacingKeepsLeftovers(w, w', events, n, source, dest0, calendar, h);
      PlacingKeepsCopies(w, w', events, n, source, calendar, h);
      OwnKeysAreOld(w, events, n, source, dest0);
      PlacingKeepsKeys(w, w', e, dest0, calendar, h);
    }
  }

  lemma ListedAt(events: seq<Event>, store: Store, n: nat)
    requires n < |events| && Lists(events, store)
    ensures events[n].path in store && store[events[n].path] == events[n]
  {
  }

  lemma OwnKeysAreOld(w: Work, events: seq<Event>, n: nat, source: Store, dest0: Store)
    requires n < |events| && Lists(events, source) && GoodSource(source) && events[n].uid != ""
    requires LeftoversExact(w, events, n, dest0)
    ensures forall p :: p in w.dest && w.dest[p].uid == events[n].uid ==> KeyPresent(dest0, w.dest[p].DedupeKey())
  {
    hide Seen;
    NotSeenBefore(events, n, source);
    forall p | p in w.dest && w.dest[p].uid == events[n].uid
      ensures KeyPresent(dest0, w.dest[p].DedupeKey())
    {
      var d := w.destMap[w.dest[p].uid];
      assert d.path == p && dest0[p] == w.dest[p];
    }
  }

  // ---- One undisturbed run ----

  /** What every theorem below assumes of the two calendars before a run. */
  ghost predicate Fit(s: State, calendar: string) {
    GoodSource(s.source) && GoodDest(s.dest, calendar)
  }

  lemma LeftoversAtStart(events: seq<Event>, destEvents: seq<Event>, dest: Store, calendar: string, w: Work)
    requires GoodDest(dest, calendar) && Lists(destEvents, dest)
    requires w.dest == dest && w.destMap == ByUid(destEvents) && w.keys == KeysOf(destEvents)
    ensures LeftoversExact(w, events, 0, dest) && KeysExplained(w, dest)
  {
    hide ByUid;
    RunFacts.ByUidShows(destEvents);
    forall p | p in dest
      ensures dest[p].uid in w.destMap && w.destMap[dest[p].uid].path == p
    {
      assert dest[p] in destEvents;
      var d := w.destMap[dest[p].uid];
      assert dest[d.path] == d;
    }
    forall k | k in w.keys
      ensures KeyPresent(dest, k)
    {
      var e :| e in destEvents && e.DedupeKey() == k;
      assert e.path in dest && dest[e.path] == e;
    }
  }

  lemma OneWayStarts(r: Run, s: State)
    requires r.cfg.direction.OneWay?
    ensures AfterDeletion(r, s) == Begin(r, s)
  {
  }

  lemma {:induction false} PushHolds(r: Run, s: State, calendar: string, n: nat)
    requires Undisturbed(r, s, calendar) && Fit(s, calendar) && TagsAgree(s.source, s.dest)
    requires n <= |r.seen.source|
    ensures PushInvariant(PushUpTo(r, s, n), r.seen.source, n, s.source, s.dest, calendar)
  {
    hide RunFacts.ServerObeys, RunFacts.Obeys, AfterDeletion, PushOne, LeftoversExact, KeysExplained, GoodDest,
         GoodSource, TagsAgree, Lists, ByUid, KeysOf;
    if n == 0 {
      OneWayStarts(r, s);
      LeftoversAtStart(r.seen.source, r.seen.dest, s.dest, calendar, Begin(r, s));
    } else {
      PushHolds(r, s, calendar, n - 1);
      RunFacts.ServerObeysAt(r, s, n - 1);
      PushStepKeepsInvariant(PushUpTo(r, s, n - 1), r.seen.source, n - 1, s.source, s.dest, calendar,
        r.answers.push(n - 1));
    }
  }

  /** The destination just before the clean-up. */
  function Swept(w: Work): Store {
    w.dest - PathsOf(w.destMap.Keys, w.destMap)
  }

  /** Without failures the orphan loop deletes all leftovers. */
  lemma OrphansAreSwept(r: Run, s: State, calendar: string)
    requires Undisturbed(r, s, calendar)
    ensures
      var w := AfterPush(r, s);
      AfterOrphans(r, s) == w.(dest := Swept(w), result := w.result.(deleted := w.result.deleted + |w.destMap.Keys|))
  {
    hide AfterPush, PathsOf, SeesAll, RunFacts.ServerObeys;
    var w, a := AfterPush(r, s), r.answers;
    assert AfterPushBack(r, s) == w;
    assert w.destMap.Keys * w.destMap.Keys - a.orphanFails == w.destMap.Keys;
    assert w.destMap.Keys * w.destMap.Keys * a.orphanFails == {};
  }

  /** Without failures the clean-up removes all it means to remove, and counts it. */
  lemma DuplicatesAreCleaned(r: Run, s: State, calendar: string)
    requires Undisturbed(r, s, calendar)
    ensures
      var w, events := AfterOrphans(r, s), r.seen.recheck.value;
      var doomed := Doomed(events, w.sourceMap.Keys, KeysOf(events));
      && Finish(r, s).dest == DuplicateCleanup.Cleaned(events, w.sourceMap.Keys, {}, w.dest)
      && Finish(r, s).source == w.source
      && Finish(r, s).result == w.result.(duplicatesRemoved := w.result.duplicatesRemoved + |doomed|)
  {
    hide AfterOrphans, Doomed, KeysOf, Stamp, Lists, RunFacts.ServerObeys;
    var w, events := AfterOrphans(r, s), r.seen.recheck.value;
    assert Doomed(events, w.sourceMap.Keys, KeysOf(events)) - {} == Doomed(events, w.sourceMap.Keys, KeysOf(events));
  }

  lemma SweptIs(r: Run, s: State, calendar: string)
    requires Undisturbed(r, s, calendar)
    ensures
      var w := AfterPush(r, s);
      && AfterOrphans(r, s).dest == Swept(w)
      && AfterOrphans(r, s).result == w.result.(deleted := w.result.deleted + |w.destMap.Keys|)
      && After(r, s).source == s.source
      && After(r, s).dest
         == DuplicateCleanup.Cleaned(r.seen.recheck.value, AfterOrphans(r, s).sourceMap.Keys, {}, Swept(w))
      && Finish(r, s).result == AfterOrphans(r, s).result.(
           duplicatesRemoved := AfterOrphans(r, s).result.duplicatesRemoved
             + |Doomed(r.seen.recheck.value, AfterOrphans(r, s).sourceMap.Keys, KeysOf(r.seen.recheck.value))|)
  {
    hide AfterPush, AfterOrphans, Finish, Swept, Doomed, KeysOf, DuplicateCleanup.Cleaned, Smooth, SeesAll,
         RunFacts.ServerObeys;
    OrphansAreSwept(r, s, calendar);
    DuplicatesAreCleaned(r, s, calendar);
    OneWaySource(r, s);
  }

  lemma OneWaySource(r: Run, s: State)
    requires r.cfg.direction.OneWay?
    ensures AfterPush(r, s).source == s.source
  {
    hide Push, ByUid, KeysOf;
    OneWayStarts(r, s);
    RunFacts.PushLeavesSource(AfterDeletion(r, s), r.seen.source, r.seen.destCalendar, r.answers.push, |r.seen.source|);
  }

  lemma SweptOnlyUnseen(w: Work, events: seq<Event>, dest0: Store, p: string)
    requires LeftoversExact(w, events, |events|, dest0) && p in w.dest
    ensures p in Swept(w) <==> Seen(events, |events|, w.dest[p].uid)
    ensures p in Swept(w) ==> Swept(w)[p] == w.dest[p]
  {
    hide Seen;
    if p in PathsOf(w.destMap.Keys, w.destMap) {
      var u :| u in w.destMap && w.destMap[u].path == p;
      assert w.dest[p] == w.destMap[u];
    }
  }

  lemma SweptKeepsCopies(w: Work, events: seq<Event>, source: Store, dest0: Store, q: string)
    requires LeftoversExact(w, events, |events|, dest0) && Lists(events, source)
    requires q in source && Present(w.dest, source[q])
    ensures Present(Swept(w), source[q])
  {
    hide Seen, Swept, LeftoversExact;
    var p :| p in w.dest && w.dest[p].Content() == source[q].Content();
    SameKey(w.dest[p], source[q]);
    var i := ListPosition(events, source, q);
    SeenHere(events, |events|, i);
    SweptOnlyUnseen(w, events, dest0, p);
    assert Swept(w)[p] == w.dest[p];
  }

  /** Sweeping the orphans away leaves copies only, and all of them. */
  lemma SweptAreCopies(w: Work, events: seq<Event>, source: Store, dest0: Store, calendar: string)
    requires PushInvariant(w, events, |events|, source, dest0, calendar) && Lists(events, source)
    ensures GoodDest(Swept(w), calendar)
    ensures forall p :: p in Swept(w) ==> CopyOf(Swept(w)[p], source)
    ensures forall q :: q in source && source[q].uid != "" ==>
      Present(Swept(w), source[q]) || (source[q].DedupeKey() != BLANK_KEY && source[q].DedupeKey() in w.keys)
  {
    hide Target, Seen, LeftoversExact, Lists, Present, CopyOf;
    forall p | p in Swept(w)
      ensures CopyOf(Swept(w)[p], source)
    {
      SweptOnlyUnseen(w, events, dest0, p);
    }
    forall q | q in source && source[q].uid != ""
      ensures Present(Swept(w), source[q]) || (source[q].DedupeKey() != BLANK_KEY && source[q].DedupeKey() in w.keys)
    {
      var i := ListPosition(events, source, q);
      if Present(w.dest, source[q]) {
        SweptKeepsCopies(w, events, source, dest0, q);
      }
    }
  }

  lemma ListPosition(events: seq<Event>, store: Store, p: string) returns (i: nat)
    requires Lists(events, store) && p in store
    ensures i < |events| && events[i] == store[p]
  {
    i :| 0 <= i < |events| && events[i] == store[p];
  }

  /** The clean-up of a collection of copies. */
  lemma CleanedIsMirrored(events: seq<Event>, uids: set<string>, swept: Store, source: Store, calendar: string)
    requires Lists(events, swept) && GoodDest(swept, calendar)
    requires forall p :: p in swept ==> CopyOf(swept[p], source)
    requires forall q :: q in source && source[q].uid != "" && source[q].DedupeKey() == BLANK_KEY ==>
      Present(swept, source[q])
    ensures
      var left := DuplicateCleanup.Cleaned(events, uids, {}, swept);
      && GoodDest(left, calendar) && Mirrored(source, left)
      && forall k :: KeyPresent(swept, k) ==> KeyPresent(left, k)
  {
    hide Lists, CopyOf, Target, Doomed, KeysOf, Keeper, Group;
    var left := DuplicateCleanup.Cleaned(events, uids, {}, swept);
    forall p, p' | p in left && p' in left && left[p].DedupeKey() == left[p'].DedupeKey() != BLANK_KEY
      ensures p == p'
    {
      DuplicateCleanup.OneSurvivorPerKey(events, uids, swept, p);
    }
    forall q | q in source && source[q].uid != "" && source[q].DedupeKey() == BLANK_KEY
      ensures Present(left, source[q])
    {
      var p :| p in swept && swept[p].Content() == source[q].Content();
      SameKey(swept[p], source[q]);
      DuplicateCleanup.BlankKeysStay(events, uids, {}, swept, p);
      assert left[p] == swept[p];
    }
    forall k | KeyPresent(swept, k)
      ensures KeyPresent(left, k)
    {
      var p :| p in swept && swept[p].DedupeKey() == k;
      if k == BLANK_KEY {
        DuplicateCleanup.BlankKeysStay(events, uids, {}, swept, p);
        assert left[p] == swept[p];
      } else {
        DuplicateCleanup.OneSurvivorPerKey(events, uids, swept, p);
        var kp := Keeper(events, uids, k).path;
        assert kp in left && left[kp].DedupeKey() == k;
      }
    }
  }

  lemma SameKey(d: Event, e: Event)
    requires d.Content() == e.Content()
    ensures d.DedupeKey() == e.DedupeKey() && d.uid == e.uid
  {
  }

  /** From any destination, one run leaves copies of source events only, at most one per non-blank key, and none with a
      blank key missing. */
  lemma FirstRun(r: Run, s: State, calendar: string)
    requires Undisturbed(r, s, calendar) && Fit(s, calendar) && TagsAgree(s.source, s.dest)
    ensures After(r, s).source == s.source && Fit(After(r, s), calendar) && Mirrored(s.source, After(r, s).dest)
  {
    hide RunFacts.ServerObeys, After, AfterPush, AfterOrphans, Swept, GoodSource, GoodDest, TagsAgree, CopyOf,
         Present, Mirrored, Lists, PushInvariant;
    PushHolds(r, s, calendar, |r.seen.source|);
    assert AfterPush(r, s) == PushUpTo(r, s, |r.seen.source|) by { AllPushed(r, s); }
    SweptIs(r, s, calendar);
    var w := AfterPush(r, s);
    SweptAreCopies(w, r.seen.source, s.source, s.dest, calendar);
    CleanedIsMirrored(r.seen.recheck.value, AfterOrphans(r, s).sourceMap.Keys, Swept(w), s.source, calendar);
  }

  lemma AllPushed(r: Run, s: State)
    ensures AfterPush(r, s) == PushUpTo(r, s, |r.seen.source|)
  {
  }

  // ---- Runs that start from copies ----

  lemma MirroredTagsAgree(source: Store, dest: Store)
    requires GoodSource(source) && (forall p :: p in dest ==> CopyOf(dest[p], source))
    ensures TagsAgree(source, dest)
  {
    forall q, p | q in source && p in dest && source[q].uid == dest[p].uid
      ensures source[q].Content() == dest[p].Content()
    {
      var q' :| q' in source && source[q'].uid != "" && source[q'].Content() == dest[p].Content();
      SameKey(source[q'], dest[p]);
    }
  }

  /** Pushing onto copies changes no content. */
  ghost predicate Stable(w: Work, dest0: Store) {
    forall p :: p in dest0 ==> p in w.dest && w.dest[p].Content() == dest0[p].Content()
  }

  lemma PlacingIsStable(w: Work, w': Work, e: Event, source: Store, dest0: Store, calendar: string, h: string)
    requires Placed(w, w', e, calendar, h) && Stable(w, dest0) && GoodSource(source)
    requires e.path in source && source[e.path] == e && (forall p :: p in dest0 ==> CopyOf(dest0[p], source))
    ensures Stable(w', dest0)
  {
    hide Target;
    if h in dest0 {
      SameKey(w.dest[h], dest0[h]);
      var q :| q in source && source[q].uid != "" && source[q].Content() == dest0[h].Content();
      SameKey(source[q], dest0[h]);
      assert q == e.path;
    }
  }

  lemma PushStepIsStable(w: Work, events: seq<Event>, n: nat, source: Store, dest0: Store, calendar: string,
                         reply: PutReply)
    requires n < |events| && Lists(events, source) && GoodSource(source) && reply.Stored?
    requires forall p :: p in dest0 ==> CopyOf(dest0[p], source)
    requires PushInvariant(w, events, n, source, dest0, calendar) && Stable(w, dest0)
    requires RunFacts.Obeys(w, events[n], calendar, reply)
    ensures Stable(PushOne(w, events[n], calendar, reply), dest0)
  {
    hide RunFacts.Obeys, PushOne, KindOf, LeftoversExact, CopiesMade, KeysExplained, GoodDest, GoodSource, TagsAgree,
         Lists, Placed, CopyOf, Stable;
    var e := events[n];
    if e.uid != "" && !KindOf(w, e, calendar, reply).Skipped? {
      MirroredTagsAgree(source, dest0);
      var h := StepPlaces(w, events, n, source, dest0, calendar, reply);
      ListedAt(events, source, n);
      PlacingIsStable(w, PushOne(w, e, calendar, reply), e, source, dest0, calendar, h);
    } else {
      SkipsWriteNothing(w, e, calendar, reply);
      StableAsWell(w, PushOne(w, e, calendar, reply), dest0);
    }
  }

  lemma StableAsWell(w: Work, w': Work, dest0: Store)
    requires Stable(w, dest0) && w'.dest == w.dest
    ensures Stable(w', dest0)
  {
  }

  lemma {:induction false} PushIsStable(r: Run, s: State, calendar: string, n: nat)
    requires Undisturbed(r, s, calendar) && Fit(s, calendar) && Mirrored(s.source, s.dest)
    requires n <= |r.seen.source|
    ensures Stable(PushUpTo(r, s, n), s.dest)
  {
    hide RunFacts.ServerObeys, RunFacts.Obeys, AfterDeletion, PushOne, Mirrored, PushInvariant, GoodDest, GoodSource,
         TagsAgree, Lists, ByUid, KeysOf, CopyOf;
    if n == 0 {
      OneWayStarts(r, s);
    } else {
      hide Stable;
      PushIsStable(r, s, calendar, n - 1);
      MirroredAreCopies(s.source, s.dest);
      MirroredTagsAgree(s.source, s.dest);
      PushHolds(r, s, calendar, n - 1);
      RunFacts.ServerObeysAt(r, s, n - 1);
      PushStepIsStable(PushUpTo(r, s, n - 1), r.seen.source, n - 1, s.source, s.dest, calendar, r.answers.push(n - 1));
    }
  }

  lemma SkipsWriteNothing(w: Work, e: Event, calendar: string, reply: PutReply)
    requires e.uid == "" || KindOf(w, e, calendar, reply).Skipped?
    ensures PushOne(w, e, calendar, reply).dest == w.dest
  {
    hide PutInto, OutcomeOf;
  }

  /** Nothing is an orphan when the destination holds copies only. */
  lemma NoOrphansLeft(w: Work, events: seq<Event>, source: Store, dest0: Store)
    requires LeftoversExact(w, events, |events|, dest0) && Lists(events, source)
    requires forall p :: p in dest0 ==> CopyOf(dest0[p], source)
    ensures w.destMap == map[] && Swept(w) == w.dest
  {
    hide Seen;
    forall u | u in w.destMap
      ensures false
    {
      var d := w.destMap[u];
      var q :| q in source && source[q].uid != "" && source[q].Content() == dest0[d.path].Content();
      SameKey(source[q], dest0[d.path]);
      var i := ListPosition(events, source, q);
      SeenHere(events, |events|, i);
    }
    assert w.destMap.Keys == {};
    assert PathsOf({}, w.destMap) == {};
    assert w.dest - {} == w.dest;
  }

  lemma StableKeys(w: Work, dest0: Store, k: string)
    requires Stable(w, dest0) && KeyPresent(dest0, k)
    ensures KeyPresent(w.dest, k)
  {
    var p :| p in dest0 && dest0[p].DedupeKey() == k;
    SameKey(w.dest[p], dest0[p]);
  }

  lemma PresentHasKey(dest: Store, e: Event)
    requires Present(dest, e)
    ensures KeyPresent(dest, e.DedupeKey())
  {
    var p :| p in dest && dest[p].Content() == e.Content();
    SameKey(dest[p], e);
  }

  /** A run that starts from copies ends in step with the source. */
  lemma SecondRun(r: Run, s: State, calendar: string)
    requires Undisturbed(r, s, calendar) && Fit(s, calendar) && Mirrored(s.source, s.dest)
    ensures After(r, s).source == s.source && Fit(After(r, s), calendar) && InStep(s.source, After(r, s).dest)
  {
    hide RunFacts.ServerObeys, After, AfterPush, AfterOrphans, Swept, GoodSource, GoodDest, TagsAgree, CopyOf,
         Present, KeyPresent, Lists, LeftoversExact, CopiesMade, Mirrored;
    MirroredAreCopies(s.source, s.dest);
    MirroredTagsAgree(s.source, s.dest);
    FirstRun(r, s, calendar);
    var n := |r.seen.source|;
    PushHolds(r, s, calendar, n);
    PushIsStable(r, s, calendar, n);
    AllPushed(r, s);
    SweptIs(r, s, calendar);
    var w := AfterPush(r, s);
    NoOrphansLeft(w, r.seen.source, s.source, s.dest);
    SweptAreCopies(w, r.seen.source, s.source, s.dest, calendar);
    CleanedIsMirrored(r.seen.recheck.value, AfterOrphans(r, s).sourceMap.Keys, Swept(w), s.source, calendar);
    forall q | q in s.source && s.source[q].uid != ""
      ensures KeyPresent(After(r, s).dest, s.source[q].DedupeKey())
    {
      var k := s.source[q].DedupeKey();
      if Present(w.dest, s.source[q]) {
        PresentHasKey(w.dest, s.source[q]);
      } else if KeyPresent(s.dest, k) {
        StableKeys(w, s.dest, k);
      }
    }
  }

  lemma MirroredAreCopies(source: Store, dest: Store)
    requires Mirrored(source, dest)
    ensures forall p :: p in dest ==> CopyOf(dest[p], source)
  {
  }

  // ---- Runs that start in step ----

  lemma InStepParts(source: Store, dest: Store, q: string)
    requires InStep(source, dest) && q in source && source[q].uid != ""
    ensures KeyPresent(dest, source[q].DedupeKey())
    ensures source[q].DedupeKey() == BLANK_KEY ==> Present(dest, source[q])
  {
  }

  lemma ListedKeys(events: seq<Event>, dest: Store, k: string)
    requires Lists(events, dest) && KeyPresent(dest, k) && k != BLANK_KEY
    ensures k in KeysOf(events)
  {
    var p :| p in dest && dest[p].DedupeKey() == k;
    assert dest[p] in events;
  }

  lemma LeftoverIfPresent(w: Work, events: seq<Event>, n: nat, dest0: Store, e: Event)
    requires n <= |events| && LeftoversExact(w, events, n, dest0) && Stable(w, dest0)
    requires Present(dest0, e) && !Seen(events, n, e.uid)
    ensures e.uid in w.destMap
  {
    hide Seen;
    var p :| p in dest0 && dest0[p].Content() == e.Content();
    SameKey(dest0[p], e);
    SameKey(w.dest[p], dest0[p]);
  }

  /** In step, the push loop never creates. */
  lemma NothingToCreate(r: Run, s: State, calendar: string, n: nat)
    requires Undisturbed(r, s, calendar) && Fit(s, calendar) && InStep(s.source, s.dest) && n < |r.seen.source|
    ensures !KindOf(PushUpTo(r, s, n), r.seen.source[n], calendar, r.answers.push(n)).Created?
  {
    hide RunFacts.ServerObeys, RunFacts.Obeys, AfterDeletion, PushOne, Push, PushUpTo, Mirrored, InStep, CopiesMade,
         KeysExplained, GoodDest, GoodSource, TagsAgree, ByUid, KeysOf, CopyOf, OutcomeOf;
    var w, e := PushUpTo(r, s, n), r.seen.source[n];
    if e.uid != "" && e.uid !in w.destMap {
      InStepIsMirrored(s.source, s.dest);
      MirroredAreCopies(s.source, s.dest);
      MirroredTagsAgree(s.source, s.dest);
      PushHolds(r, s, calendar, n);
      PushIsStable(r, s, calendar, n);
      NotSeenIn(r, s, n);
      ListedAt(r.seen.source, s.source, n);
      InStepParts(s.source, s.dest, e.path);
      if e.DedupeKey() == BLANK_KEY {
        LeftoverIfPresent(w, r.seen.source, n, s.dest, e);
      } else {
        ListedKeys(r.seen.dest, s.dest, e.DedupeKey());
        StartKeysStay(r, s, n);
      }
    }
  }

  lemma InStepIsMirrored(source: Store, dest: Store)
    requires InStep(source, dest)
    ensures Mirrored(source, dest)
  {
  }

  lemma NotSeenIn(r: Run, s: State, n: nat)
    requires n < |r.seen.source| && Lists(r.seen.source, s.source) && GoodSource(s.source) && r.seen.source[n].uid != ""
    ensures !Seen(r.seen.source, n, r.seen.source[n].uid)
  {
    hide Seen;
    NotSeenBefore(r.seen.source, n, s.source);
  }

  lemma StartKeysStay(r: Run, s: State, n: nat)
    requires n <= |r.seen.source|
    ensures KeysOf(r.seen.dest) <= PushUpTo(r, s, n).keys
  {
    hide RunFacts.ServerObeys, RunFacts.Obeys, AfterDeletion, PushOne, KeysOf;
    RunFacts.DeletionShrinksMaps(r, s);
    PushPhase.KeysGrow(AfterDeletion(r, s), r.seen.source, r.seen.destCalendar, r.answers.push, 0, n);
  }

  lemma NonCreatingStep(w: Work, events: seq<Event>, n: nat, source: Store, dest0: Store, calendar: string,
                        reply: PutReply)
    requires n < |events| && GoodDest(w.dest, calendar) && LeftoversExact(w, events, n, dest0) && reply.Stored?
    requires Lists(events, source) && GoodSource(source)
    requires !KindOf(w, events[n], calendar, reply).Created?
    ensures PushOne(w, events[n], calendar, reply).dest.Keys == w.dest.Keys
  {
    hide PutInto, PushOne, OutcomeOf, Seen, PutTarget;
    var e := events[n];
    RunFacts.PushStep(w, e, calendar, reply);
    if KindOf(w, e, calendar, reply).Updated? {
      ListedAt(events, source, n);
      var moved := e.(path := w.destMap[e.uid].path);
      StaysPut(calendar, moved);
      PutPlaces(w.dest, calendar, moved, reply);
    }
  }

  ghost predicate Idle(w: Work, paths: set<string>) {
    w.dest.Keys == paths && w.result.created == 0 && w.result.deleted == 0 && w.result.duplicatesRemoved == 0
  }

  lemma IdleStep(w: Work, events: seq<Event>, n: nat, source: Store, dest0: Store, calendar: string, reply: PutReply)
    requires n < |events| && PushInvariant(w, events, n, source, dest0, calendar) && reply.Stored?
    requires Lists(events, source) && GoodSource(source) && Idle(w, dest0.Keys)
    requires !KindOf(w, events[n], calendar, reply).Created?
    ensures Idle(PushOne(w, events[n], calendar, reply), dest0.Keys)
  {
    hide PushOne, KindOf, CopiesMade, KeysExplained, LeftoversExact, GoodDest, GoodSource, Lists;
    NonCreatingStep(w, events, n, source, dest0, calendar, reply);
    PushPhase.StepCounts(w, events[n], calendar, reply);
  }

  lemma {:induction false} PushKeepsPaths(r: Run, s: State, calendar: string, n: nat)
    requires Undisturbed(r, s, calendar) && Fit(s, calendar) && InStep(s.source, s.dest) && n <= |r.seen.source|
    ensures Idle(PushUpTo(r, s, n), s.dest.Keys)
  {
    hide RunFacts.ServerObeys, RunFacts.Obeys, AfterDeletion, PushOne, KindOf, InStep, PushInvariant, GoodDest,
         GoodSource, TagsAgree, CopyOf, Lists, ByUid, KeysOf;
    if n == 0 {
      OneWayStarts(r, s);
    } else {
      hide Idle;
      PushKeepsPaths(r, s, calendar, n - 1);
      InStepIsMirrored(s.source, s.dest);
      MirroredAreCopies(s.source, s.dest);
      MirroredTagsAgree(s.source, s.dest);
      PushHolds(r, s, calendar, n - 1);
      NothingToCreate(r, s, calendar, n - 1);
      IdleStep(PushUpTo(r, s, n - 1), r.seen.source, n - 1, s.source, s.dest, calendar, r.answers.push(n - 1));
    }
  }

  lemma NoDuplicatesLeft(events: seq<Event>, uids: set<string>, store: Store)
    requires Lists(events, store)
    requires forall p, p' :: p in store && p' in store && store[p].DedupeKey() == store[p'].DedupeKey() != BLANK_KEY ==>
      p == p'
    ensures Doomed(events, uids, KeysOf(events)) == {}
  {
    hide Doomed, KeysOf, Keeper, Group;
    forall path | path in Doomed(events, uids, KeysOf(events))
      ensures false
    {
      var e := DuplicateCleanup.DoomedWitness(events, uids, KeysOf(events), path);
      DuplicateCleanup.KeyIsNotBlank(events, e.DedupeKey());
      var k := DuplicateCleanup.KeeperOf(events, uids, e);
    }
  }

  lemma StableCopies(w: Work, source: Store, dest0: Store)
    requires Stable(w, dest0) && w.dest.Keys == dest0.Keys && Mirrored(source, dest0)
    ensures forall p :: p in w.dest ==> CopyOf(w.dest[p], source) && w.dest[p].DedupeKey() == dest0[p].DedupeKey()
  {
    forall p | p in w.dest
      ensures CopyOf(w.dest[p], source) && w.dest[p].DedupeKey() == dest0[p].DedupeKey()
    {
      SameKey(w.dest[p], dest0[p]);
      assert CopyOf(dest0[p], source);
    }
  }

  lemma StableIsMirrored(w: Work, source: Store, dest0: Store)
    requires Stable(w, dest0) && w.dest.Keys == dest0.Keys && InStep(source, dest0)
    ensures InStep(source, w.dest)
  {
    StableCopies(w, source, dest0);
    forall q | q in source && source[q].uid != ""
      ensures KeyPresent(w.dest, source[q].DedupeKey())
      ensures Present(dest0, source[q]) ==> Present(w.dest, source[q])
    {
      StableKeys(w, dest0, source[q].DedupeKey());
      if Present(dest0, source[q]) {
        var p :| p in dest0 && dest0[p].Content() == source[q].Content();
        assert w.dest[p].Content() == source[q].Content();
      }
    }
  }

  lemma MirroredKeys(source: Store, dest: Store)
    requires Mirrored(source, dest)
    ensures forall p, p' :: p in dest && p' in dest && dest[p].DedupeKey() == dest[p'].DedupeKey() != BLANK_KEY ==>
      p == p'
  {
  }

  /** A run that starts in step creates, deletes and de-duplicates nothing, keeps every resource with its content, and
      ends in step. */
  lemma LaterRun(r: Run, s: State, calendar: string)
    requires Undisturbed(r, s, calendar) && Fit(s, calendar) && InStep(s.source, s.dest)
    ensures After(r, s).source == s.source && Fit(After(r, s), calendar) && InStep(s.source, After(r, s).dest)
    ensures After(r, s).dest.Keys == s.dest.Keys
    ensures forall p :: p in s.dest ==> After(r, s).dest[p].Content() == s.dest[p].Content()
    ensures
      var res := Finish(r, s).result;
      res.created == 0 && res.deleted == 0 && res.duplicatesRemoved == 0
  {
    hide RunFacts.ServerObeys, After, Finish, AfterPush, AfterOrphans, Swept, GoodSource, GoodDest, TagsAgree, CopyOf,
         Lists, LeftoversExact, CopiesMade, KeysExplained, Mirrored, InStep, Doomed;
    InStepIsMirrored(s.source, s.dest);
    MirroredAreCopies(s.source, s.dest);
    MirroredTagsAgree(s.source, s.dest);
    SecondRun(r, s, calendar);
    var n := |r.seen.source|;
    PushHolds(r, s, calendar, n);
    PushIsStable(r, s, calendar, n);
    PushKeepsPaths(r, s, calendar, n);
    AllPushed(r, s);
    SweptIs(r, s, calendar);
    var w := AfterPush(r, s);
    NoOrphansLeft(w, r.seen.source, s.source, s.dest);
    StableIsMirrored(w, s.source, s.dest);
    InStepIsMirrored(s.source, w.dest);
    MirroredKeys(s.source, w.dest);
    NoDuplicatesLeft(r.seen.recheck.value, AfterOrphans(r, s).sourceMap.Keys, w.dest);
    assert After(r, s).dest == w.dest - {};
    assert w.dest - {} == w.dest;
  }

  // ---- Any number of runs ----

  ghost predicate AllUndisturbed(s0: State, runs: seq<Run>, calendar: string) {
    forall k :: 0 <= k < |runs| ==> Undisturbed(runs[k], StateBefore(s0, runs, k), calendar)
  }

  /** Convergence. From any fitting state, after two or more undisturbed runs the destination is in step with the
      unchanged source. */
  lemma {:induction false} TwoRunsSuffice(s0: State, runs: seq<Run>, calendar: string, n: nat)
    requires Fit(s0, calendar) && TagsAgree(s0.source, s0.dest) && AllUndisturbed(s0, runs, calendar)
    requires 1 <= n <= |runs|
    ensures
      var s := StateBefore(s0, runs, n);
      && s.source == s0.source && Fit(s, calendar) && Mirrored(s.source, s.dest)
      && (n >= 2 ==> InStep(s.source, s.dest))
  {
    hide Undisturbed, Fit, Mirrored, InStep, TagsAgree, After;
    assert Undisturbed(runs[n - 1], StateBefore(s0, runs, n - 1), calendar);
    if n == 1 {
      FirstRun(runs[0], s0, calendar);
    } else {
      TwoRunsSuffice(s0, runs, calendar, n - 1);
      SecondRun(runs[n - 1], StateBefore(s0, runs, n - 1), calendar);
      InStepIsMirrored(s0.source, StateBefore(s0, runs, n).dest);
    }
  }

  /** Every run from the third on is idle. */
  lemma LaterRunsAreIdle(s0: State, runs: seq<Run>, calendar: string, n: nat)
    requires Fit(s0, calendar) && TagsAgree(s0.source, s0.dest) && AllUndisturbed(s0, runs, calendar)
    requires 2 <= n < |runs|
    ensures
      var s, s', res := StateBefore(s0, runs, n), StateBefore(s0, runs, n + 1),
        Finish(runs[n], StateBefore(s0, runs, n)).result;
      && res.created == 0 && res.deleted == 0 && res.duplicatesRemoved == 0
      && s'.dest.Keys == s.dest.Keys && forall p :: p in s.dest ==> s'.dest[p].Content() == s.dest[p].Content()
  {
    hide Undisturbed, Fit, Mirrored, InStep, TagsAgree, After, Finish;
    TwoRunsSuffice(s0, runs, calendar, n);
    LaterRun(runs[n], StateBefore(s0, runs, n), calendar);
  }
}
