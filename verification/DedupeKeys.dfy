/** Which events share a dedupe key, and what that means for the push and for the clean-up (internal/caldav/client.go,
    internal/caldav/sync.go). */
module DedupeKeys {
  import opened CalendarData
  import opened Reconcile
  import DuplicateCleanup
  import PushPhase
  import RunFacts

  predicate SameOccurrence(e: Event, d: Event) {
    e.summary == d.summary && e.start == d.start
  }

  predicate PlainStart(e: Event) {
    '|' !in e.start
  }

  /** Events whose starts contain no bar share a key if and only if both summary and start are the same; the
      summaries may contain bars. */
  lemma SharedKeyIff(e: Event, d: Event)
    requires PlainStart(e) && PlainStart(d)
    ensures e.DedupeKey() == d.DedupeKey() <==> SameOccurrence(e, d)
  {
    var k, l := e.DedupeKey(), d.DedupeKey();
    if k == l {
      BarIsLast(e, d, k);
      BarIsLast(d, e, k);
      assert e.summary == k[..|e.summary|] && d.summary == l[..|d.summary|];
      assert e.start == k[|e.summary| + 1..] && d.start == l[|d.summary| + 1..];
    }
  }

  /** The bar between summary and start is the last one in the key. */
  lemma BarIsLast(e: Event, d: Event, key: string)
    requires key == e.DedupeKey() == d.DedupeKey() && PlainStart(e)
    ensures |d.summary| <= |e.summary|
  {
    assert key[|d.summary|] == '|';
    assert forall i :: |e.summary| < i < |key| ==> key[i] == e.start[i - |e.summary| - 1];
  }

  /** A bar in a start is the only way for different events to share a key. */
  lemma KeysCanCollide()
    ensures
      var e, d := Event("", "", "", "", "a", "b|c"), Event("", "", "", "", "a|b", "c");
      e.DedupeKey() == d.DedupeKey() && !SameOccurrence(e, d)
  {
  }

  /** The key is blank if and only if the event has neither summary nor start. */
  lemma BlankKeyIff(e: Event)
    ensures e.DedupeKey() == BLANK_KEY <==> e.summary == "" && e.start == ""
  {
    assert |e.DedupeKey()| == |e.summary| + 1 + |e.start|;
    if e.summary == "" && e.start == "" {
      assert e.DedupeKey() == "|";
    }
  }

  // ---- Clean-up ----

  /** An event whose summary and start no other listed event has is never removed, whatever fails. */
  lemma UniqueIsNeverRemoved(events: seq<Event>, sourceUids: set<string>, fails: set<string>, store: Store,
                             path: string)
    requires DistinctPaths(events) && RunFacts.ShowsOnly(events, store) && path in store
    requires forall d :: d in events ==> PlainStart(d)
    requires forall d :: d in events && store[path] in events && SameOccurrence(d, store[path]) ==> d == store[path]
    ensures path in DuplicateCleanup.Cleaned(events, sourceUids, fails, store)
  {
    hide Doomed, KeysOf, DistinctPaths;
    if path in Doomed(events, sourceUids, KeysOf(events)) {
      var e := DuplicateCleanup.DoomedWitness(events, sourceUids, KeysOf(events), path);
      var k := DuplicateCleanup.KeeperOf(events, sourceUids, e);
      SharedKeyIff(k, e);
    }
  }

  /** Without failures two listed events with the same summary and start, not both empty, do not both stay. */
  lemma RepeatedIsRemoved(events: seq<Event>, sourceUids: set<string>, store: Store, e: Event, d: Event)
    requires Lists(events, store) && e in events && d in events && e != d && SameOccurrence(e, d)
    requires e.summary != "" || e.start != ""
    ensures var left := DuplicateCleanup.Cleaned(events, sourceUids, {}, store); !(e.path in left && d.path in left)
  {
    hide Doomed, KeysOf, Keeper, Group, DistinctPaths;
    BlankKeyIff(e);
    DuplicateCleanup.OneSurvivorPerKey(events, sourceUids, store, e.path);
  }

  /** In a run, such an event is still on the destination after the clean-up. */
  lemma UniqueSurvivesRun(r: Run, s: State, path: string)
    requires path in AfterOrphans(r, s).dest
    requires r.seen.recheck.Some? ==>
      var events, e := r.seen.recheck.value, AfterOrphans(r, s).dest[path];
      && DistinctPaths(events) && RunFacts.ShowsOnly(events, AfterOrphans(r, s).dest)
      && (forall d :: d in events ==> PlainStart(d))
      && (forall d :: d in events && e in events && SameOccurrence(d, e) ==> d == e)
    ensures path in After(r, s).dest && After(r, s).dest[path] == AfterOrphans(r, s).dest[path]
  {
    hide AfterOrphans, Doomed, KeysOf, Stamp, DistinctPaths;
    match r.seen.recheck
    case None =>
    case Some(events) =>
      var w := AfterOrphans(r, s);
      UniqueIsNeverRemoved(events, w.sourceMap.Keys, r.answers.cleanupFails, w.dest, path);
  }

  // ---- Push ----

  /** The keys the push loop knows: those of the destination listing and those of the events created so far. */
  lemma {:induction false} KnownKeys(r: Run, s: State, n: nat, key: string)
    requires n <= |r.seen.source|
    ensures key in PushUpTo(r, s, n).keys
      <==> key in KeysOf(r.seen.dest)
           || (key != BLANK_KEY
               && exists j :: 0 <= j < n && PushPhase.CreatesAt(r, s, j) && r.seen.source[j].DedupeKey() == key)
  {
    hide AfterDeletion, PushOne, KindOf, KeysOf;
    RunFacts.DeletionShrinksMaps(r, s);
    if n > 0 {
      KnownKeys(r, s, n - 1, key);
      var w, e := PushUpTo(r, s, n - 1), r.seen.source[n - 1];
      RunFacts.PushStep(w, e, r.seen.destCalendar, r.answers.push(n - 1));
      assert PushUpTo(r, s, n) == PushOne(w, e, r.seen.destCalendar, r.answers.push(n - 1));
      assert PushPhase.CreatesAt(r, s, n - 1) <==> KindOf(w, e, r.seen.destCalendar, r.answers.push(n - 1)).Created?;
    }
  }

  ghost predicate ListedAlready(r: Run, e: Event) {
    exists d :: d in r.seen.dest && SameOccurrence(d, e)
  }

  ghost predicate CreatedBefore(r: Run, s: State, i: nat)
    requires i < |r.seen.source|
  {
    exists j :: 0 <= j < i && PushPhase.CreatesAt(r, s, j) && SameOccurrence(r.seen.source[j], r.seen.source[i])
  }

  /** The push loop skips a source event if and only if its UID is not left on the destination, it has a summary or a
      start, and a listed destination event or a source event created earlier in the loop has the same ones. */
  lemma SkippedIff(r: Run, s: State, i: nat)
    requires i < |r.seen.source|
    requires forall e :: e in r.seen.source || e in r.seen.dest ==> PlainStart(e)
    ensures
      var w, e := PushUpTo(r, s, i), r.seen.source[i];
      KindOf(w, e, r.seen.destCalendar, r.answers.push(i)).Skipped? == (
        && e.uid != "" && e.uid !in w.destMap && (e.summary != "" || e.start != "")
        && (ListedAlready(r, e) || CreatedBefore(r, s, i)))
  {
    hide PushUpTo, OutcomeOf, PushPhase.CreatesAt, PlainStart, SameOccurrence;
    var e := r.seen.source[i];
    BlankKeyIff(e);
    KnownKeys(r, s, i, e.DedupeKey());
    forall d | d in r.seen.dest || d in r.seen.source
      ensures d.DedupeKey() == e.DedupeKey() <==> SameOccurrence(d, e)
    {
      SharedKeyIff(d, e);
    }
  }
}
