/** Several source calendars share one destination: a two-way run of one of them leaves the others' events alone. */
module Isolation {
  import opened CalendarData
  import opened Reconcile
  import RunFacts
  import DuplicateCleanup

  lemma DeletionMissesPath(r: Run, s: State, path: string)
    requires path in s.dest && s.dest[path].uid !in s.records
    requires RunFacts.ShowsOnly(r.seen.dest, s.dest)
    ensures path in AfterDeletion(r, s).dest && AfterDeletion(r, s).dest[path] == s.dest[path]
  {
    hide ByUid, KeysOf;
    RunFacts.ByUidShows(r.seen.dest);
    var w, prev := Begin(r, s), Previous(r, s);
    if DeletionEnabled(r, prev, w.destMap) {
      var gone := WithVerdict(w, prev, Threshold(r), prev.Keys, DropFromDest) - r.answers.destDeleteFails;
      forall u | u in gone && u in w.destMap
        ensures w.destMap[u].path != path
      {
        assert u in s.records && s.dest[w.destMap[u].path] == w.destMap[u];
      }
    }
  }

  /** A stranger: an event of the destination whose UID this source calendar neither shows nor has a record for. */
  ghost predicate Stranger(r: Run, s: State, path: string) {
    && path in s.dest && s.dest[path].uid !in s.records
    && (forall e :: e in r.seen.source ==> e.uid == "" || e.uid != s.dest[path].uid)
  }

  /** The push loop puts the source event at position `i` at the path, and the put is stored. */
  predicate LandsAt(r: Run, s: State, i: nat, path: string)
    requires i < |r.seen.source|
  {
    var put := RunFacts.PutFor(PushUpTo(r, s, i), r.seen.source[i]);
    put.Some? && RunFacts.WritesTo(r.seen.destCalendar, put.value, r.answers.push(i), path)
  }

  /** After `n` iterations the path holds its event if none of them landed there, and otherwise an event of this
      calendar. */
  lemma {:induction false} PushAtStranger(r: Run, s: State, path: string, n: nat)
    requires RunFacts.ShowsOnly(r.seen.dest, s.dest) && Stranger(r, s, path) && n <= |r.seen.source|
    ensures
      var dest := PushUpTo(r, s, n).dest;
      && path in dest
      && (if forall i :: 0 <= i < n ==> !LandsAt(r, s, i, path) then dest[path] == s.dest[path]
          else dest[path].uid != s.dest[path].uid)
  {
    hide AfterDeletion, PushOne, RunFacts.PutFor, RunFacts.WritesTo;
    if n == 0 {
      DeletionMissesPath(r, s, path);
    } else {
      PushAtStranger(r, s, path, n - 1);
      var w, e, reply := PushUpTo(r, s, n - 1), r.seen.source[n - 1], r.answers.push(n - 1);
      RunFacts.PushStepAt(w, e, r.seen.destCalendar, reply, path);
      assert PushUpTo(r, s, n) == PushOne(w, e, r.seen.destCalendar, reply);
      if LandsAt(r, s, n - 1, path) {
        OnlyNamedArePut(w, e);
        SameUid(PushUpTo(r, s, n).dest[path], e);
      }
    }
  }

  lemma OnlyNamedArePut(w: Work, e: Event)
    ensures RunFacts.PutFor(w, e).Some? ==> e.uid != ""
  {
  }

  /** Whatever the server answers, a stranger keeps its path and its data through deletion, push, push-back and orphan
      phase of a two-way run if and only if no put of the run is stored at its path. */
  lemma StrangerReachesCleanupIff(r: Run, s: State, path: string)
    requires r.cfg.direction.TwoWay? && RunFacts.ShowsOnly(r.seen.dest, s.dest) && Stranger(r, s, path)
    ensures (path in AfterOrphans(r, s).dest && AfterOrphans(r, s).dest[path] == s.dest[path])
      <==> forall i :: 0 <= i < |r.seen.source| ==> !LandsAt(r, s, i, path)
  {
    hide PushUpTo, PushBack, Stranger, LandsAt, RunFacts.ShowsOnly;
    PushAtStranger(r, s, path, |r.seen.source|);
    RunFacts.PushBackKeepsRecords(AfterPush(r, s), r.cfg, r.seen.dest, r.answers.pushBack, |r.seen.dest|);
  }

  /** A server that stores no put over a resource with another UID therefore lets every stranger through. */
  lemma {:induction false} NothingLands(r: Run, s: State, path: string, n: nat)
    requires RunFacts.ShowsOnly(r.seen.dest, s.dest) && Stranger(r, s, path) && RunFacts.ServerObeys(r, s)
    requires n <= |r.seen.source|
    ensures forall i :: 0 <= i < n ==> !LandsAt(r, s, i, path)
  {
    hide PushUpTo, RunFacts.ServerObeys, RunFacts.PutFor, RunFacts.WritesTo;
    if n > 0 {
      NothingLands(r, s, path, n - 1);
      PushAtStranger(r, s, path, n - 1);
      RunFacts.ServerObeysAt(r, s, n - 1);
      OnlyNamedArePut(PushUpTo(r, s, n - 1), r.seen.source[n - 1]);
    }
  }

  lemma StrangerReachesCleanup(r: Run, s: State, path: string)
    requires r.cfg.direction.TwoWay? && RunFacts.ShowsOnly(r.seen.dest, s.dest) && Stranger(r, s, path)
    requires RunFacts.ServerObeys(r, s)
    ensures path in AfterOrphans(r, s).dest && AfterOrphans(r, s).dest[path] == s.dest[path]
  {
    hide AfterOrphans, Stranger, LandsAt, RunFacts.ShowsOnly, RunFacts.ServerObeys;
    NothingLands(r, s, path, |r.seen.source|);
    StrangerReachesCleanupIff(r, s, path);
  }

  /** Calendar isolation. After a two-way run a stranger is where it was, unchanged, unless the clean-up found it
      next to another event with the same non-blank key and kept that one. */
  lemma StrangersSurvive(r: Run, s: State, path: string)
    requires r.cfg.direction.TwoWay? && RunFacts.ShowsOnly(r.seen.dest, s.dest) && Stranger(r, s, path)
    requires RunFacts.ServerObeys(r, s)
    requires r.seen.recheck.Some? ==>
      DistinctPaths(r.seen.recheck.value) && RunFacts.ShowsOnly(r.seen.recheck.value, AfterOrphans(r, s).dest)
    ensures
      || (path in After(r, s).dest && After(r, s).dest[path] == s.dest[path])
      || (&& r.seen.recheck.Some? && s.dest[path].DedupeKey() != BLANK_KEY
          && s.dest[path] in r.seen.recheck.value
          && exists k :: k in r.seen.recheck.value && k != s.dest[path] && k.DedupeKey() == s.dest[path].DedupeKey()
                         && k == Keeper(r.seen.recheck.value, AfterOrphans(r, s).sourceMap.Keys, k.DedupeKey()))
  {
    hide AfterOrphans, RunFacts.ServerObeys, Group, Doomed, KeysOf, Keeper;
    StrangerReachesCleanup(r, s, path);
    var w := AfterOrphans(r, s);
    match r.seen.recheck
    case None =>
    case Some(events) =>
      if path in Doomed(events, w.sourceMap.Keys, KeysOf(events)) {
        var e := DuplicateCleanup.DoomedWitness(events, w.sourceMap.Keys, KeysOf(events), path);
        assert e == s.dest[path];
        var k := DuplicateCleanup.KeeperOf(events, w.sourceMap.Keys, e);
        DuplicateCleanup.KeyIsNotBlank(events, e.DedupeKey());
      }
  }
}
