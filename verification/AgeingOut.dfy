/** What the sliding date window does to the deletion phase (internal/caldav/sync.go). */
module AgeingOut {
  import opened CalendarData
  import opened Reconcile
  import opened EventWindow
  import RunFacts
  import TwoWayRemoval

  /** What the run sees of the collection is a complete listing, cut down to the window. */
  ghost predicate ShowsWindow(seen: seq<Event>, store: Store, cutoff: int, parse: Parser) {
    exists raw :: Lists(raw, store) && seen == Window(raw, cutoff, parse)
  }

  lemma WindowShowsOnly(seen: seq<Event>, store: Store, cutoff: int, parse: Parser)
    requires ShowsWindow(seen, store, cutoff, parse)
    ensures RunFacts.ShowsOnly(seen, store)
  {
    hide Visible;
  }

  /** An event whose UID is its own is in the map of the run exactly when it is visible. */
  lemma WindowMap(seen: seq<Event>, store: Store, cutoff: int, parse: Parser, p: string)
    requires ShowsWindow(seen, store, cutoff, parse) && p in store && store[p].uid != ""
    requires TwoWayRemoval.Single(store, store[p].uid)
    ensures store[p].uid in ByUid(seen) <==> Visible(store[p], cutoff, parse)
    ensures store[p].uid in ByUid(seen) ==> ByUid(seen)[store[p].uid] == store[p]
  {
    hide ByUid, Visible;
    RunFacts.ByUidShows(seen);
    WindowShowsOnly(seen, store, cutoff, parse);
    var raw :| Lists(raw, store) && seen == Window(raw, cutoff, parse);
    assert store[p] in raw;
  }

  lemma DeletedPathIsOwn(uids: set<string>, events: EventMap, store: Store, p: string)
    requires p in store && store[p].uid != "" && TwoWayRemoval.Single(store, store[p].uid)
    requires forall u :: u in events ==>
      events[u].uid == u && events[u].path in store && store[events[u].path] == events[u]
    ensures p in PathsOf(uids, events) <==> store[p].uid in uids && store[p].uid in events
  {
    if store[p].uid in uids && store[p].uid in events {
      assert events[store[p].uid].path == p;
    }
  }

  /** Both sides hold the UID once, with the same start. */
  ghost predicate Paired(s: State, q: string, p: string, uid: string) {
    && uid != "" && TwoWayRemoval.Single(s.source, uid) && TwoWayRemoval.Single(s.dest, uid)
    && q in s.source && s.source[q].uid == uid && p in s.dest && s.dest[p].uid == uid
    && s.source[q].start == s.dest[p].start
  }

  /** Ageing. For an event on both sides, where the source cutoff was computed first, the deletion phase never deletes
      from the destination, and deletes from the source if and only if it is enabled, the record is old, the delete
      succeeds, and the start lies after the source cutoff but not after the destination cutoff. With equal cutoffs no
      start does, so nothing leaves either side. */
  lemma AgeingDeletesOnlyBetweenCutoffs(r: Run, s: State, q: string, p: string, uid: string,
                                        sourceCutoff: int, destCutoff: int, parse: Parser)
    requires ShowsWindow(r.seen.source, s.source, sourceCutoff, parse)
    requires ShowsWindow(r.seen.dest, s.dest, destCutoff, parse)
    requires Paired(s, q, p, uid) && sourceCutoff <= destCutoff
    ensures
      var w, prev, start := AfterDeletion(r, s), Previous(r, s), StartOf(s.source[q], parse);
      && p in w.dest && w.dest[p] == s.dest[p]
      && (q !in w.source <==>
            && DeletionEnabled(r, prev, ByUid(r.seen.dest)) && uid in prev && uid !in r.answers.sourceDeleteFails
            && prev[uid] <= Threshold(r) && start.Some? && sourceCutoff < start.value <= destCutoff)
      && (sourceCutoff == destCutoff ==> q in w.source && w.source[q] == s.source[q])
  {
    hide ByUid, KeysOf, StartOf, ShowsWindow;
    WindowMap(r.seen.source, s.source, sourceCutoff, parse, q);
    WindowMap(r.seen.dest, s.dest, destCutoff, parse, p);
    MapsShow(r, s, sourceCutoff, destCutoff, parse);
    SameStart(s.source[q], s.dest[p], parse);
    var w, prev := Begin(r, s), Previous(r, s);
    if DeletionEnabled(r, prev, w.destMap) {
      var onDest := WithVerdict(w, prev, Threshold(r), prev.Keys, DropFromDest);
      var onSource := WithVerdict(w, prev, Threshold(r), prev.Keys, DropFromSource);
      DeletedPathIsOwn(onDest - r.answers.destDeleteFails, w.destMap, s.dest, p);
      DeletedPathIsOwn(onSource - r.answers.sourceDeleteFails, w.sourceMap, s.source, q);
    }
  }

  lemma SameStart(e: Event, d: Event, parse: Parser)
    requires e.start == d.start
    ensures StartOf(e, parse) == StartOf(d, parse)
  {
  }

  lemma MapsShow(r: Run, s: State, sourceCutoff: int, destCutoff: int, parse: Parser)
    requires ShowsWindow(r.seen.source, s.source, sourceCutoff, parse)
    requires ShowsWindow(r.seen.dest, s.dest, destCutoff, parse)
    ensures
      var m := ByUid(r.seen.source);
      forall u :: u in m ==> m[u].uid == u && m[u].path in s.source && s.source[m[u].path] == m[u]
    ensures
      var m := ByUid(r.seen.dest);
      forall u :: u in m ==> m[u].uid == u && m[u].path in s.dest && s.dest[m[u].path] == m[u]
  {
    hide ByUid, ShowsWindow;
    WindowShowsOnly(r.seen.source, s.source, sourceCutoff, parse);
    WindowShowsOnly(r.seen.dest, s.dest, destCutoff, parse);
    RunFacts.ByUidShows(r.seen.source);
    RunFacts.ByUidShows(r.seen.dest);
  }
}
