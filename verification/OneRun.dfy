/** When a single undisturbed one-way run already brings the destination in step with the source. */
module OneRun {
  import opened CalendarData
  import opened Reconcile
  import opened Convergence
  import RunFacts
  import TwoWayRemoval

  ghost predicate HasUid(dest: Store, uid: string) {
    exists p :: p in dest && dest[p].uid == uid
  }

  /** Look-alikes on the destination have the key, but no source event with the key is there under its own UID. */
  ghost predicate Shadowed(source: Store, dest: Store, key: string) {
    && KeyPresent(dest, key)
    && forall q :: q in source && source[q].uid != "" && source[q].DedupeKey() == key ==> !HasUid(dest, source[q].uid)
  }

  ghost predicate NothingShadowed(source: Store, dest: Store) {
    forall q :: q in source && source[q].uid != "" && source[q].DedupeKey() != BLANK_KEY ==>
      !Shadowed(source, dest, source[q].DedupeKey())
  }

  // ---- Not shadowed: the key arrives ----

  /** Source events that the destination had under their UID are found in the map when they come up, and are there
      afterwards. */
  ghost predicate OwnCopiesHold(w: Work, events: seq<Event>, n: nat, dest0: Store)
    requires n <= |events|
  {
    && (forall p :: p in dest0 && dest0[p].uid != "" && !Convergence.Seen(events, n, dest0[p].uid) ==>
            dest0[p].uid in w.destMap)
    && (forall i :: 0 <= i < n && events[i].uid != "" && HasUid(dest0, events[i].uid) ==> Present(w.dest, events[i]))
  }

  lemma PlacingKeepsPresence(w: Work, w': Work, events: seq<Event>, n: nat, source: Store, calendar: string,
                             h: string, i: nat)
    requires i < n < |events| && Placed(w, w', events[n], calendar, h)
    requires Lists(events, source) && UniqueUids(source) && events[n].uid != "" && Present(w.dest, events[i])
    ensures Present(w'.dest, events[i])
  {
    hide Target;
    NotSeenBefore(events, n, source);
    SeenHere(events, n, i);
    var p :| p in w.dest && w.dest[p].Content() == events[i].Content();
    SameKey(w.dest[p], events[i]);
    SameKey(w'.dest[h], events[n]);
    assert p != h && w'.dest[p] == w.dest[p];
  }

  lemma MapLosesOnlySeen(w: Work, w': Work, events: seq<Event>, n: nat, dest0: Store)
    requires n < |events| && w'.destMap == (if events[n].uid == "" then w.destMap else w.destMap - {events[n].uid})
    requires forall p :: p in dest0 && dest0[p].uid != "" && !Convergence.Seen(events, n, dest0[p].uid) ==>
      dest0[p].uid in w.destMap
    ensures forall p :: p in dest0 && dest0[p].uid != "" && !Convergence.Seen(events, n + 1, dest0[p].uid) ==>
      dest0[p].uid in w'.destMap
  {
    hide Convergence.Seen;
    forall p | p in dest0 && dest0[p].uid != "" && !Convergence.Seen(events, n + 1, dest0[p].uid)
      ensures dest0[p].uid in w'.destMap
    {
      SeenNextAt(events, n, dest0[p].uid);
    }
  }

  lemma PushStepHolds(w: Work, events: seq<Event>, n: nat, source: Store, dest0: Store, calendar: string,
                      reply: PutReply)
    requires n < |events| && Lists(events, source) && GoodSource(source) && TagsAgree(source, dest0)
    requires PushInvariant(w, events, n, source, dest0, calendar) && reply.Stored? && OwnCopiesHold(w, events, n, dest0)
    requires RunFacts.Obeys(w, events[n], calendar, reply)
    ensures OwnCopiesHold(PushOne(w, events[n], calendar, reply), events, n + 1, dest0)
  {
    hide RunFacts.Obeys, PushOne, KindOf, LeftoversExact, CopiesMade, KeysExplained, GoodDest, TagsAgree, Lists,
         Placed, Convergence.Seen, Present;
    var e, w' := events[n], PushOne(w, events[n], calendar, reply);
    RunFacts.PushStep(w, e, calendar, reply);
    MapLosesOnlySeen(w, w', events, n, dest0);
    if e.uid == "" || KindOf(w, e, calendar, reply).Skipped? {
      SkipsWriteNothing(w, e, calendar, reply);
      if e.uid != "" {
        SkippedIsNotThere(w, events, n, source, dest0, calendar, reply);
      }
    } else {
      var h := StepPlaces(w, events, n, source, dest0, calendar, reply);
      PlacedIsPresent(w, w', e, calendar, h);
      forall i | 0 <= i < n && events[i].uid != "" && HasUid(dest0, events[i].uid)
        ensures Present(w'.dest, events[i])
      {
        PlacingKeepsPresence(w, w', events, n, source, calendar, h, i);
      }
    }
  }

  lemma PlacedIsPresent(w: Work, w': Work, e: Event, calendar: string, h: string)
    requires Placed(w, w', e, calendar, h)
    ensures Present(w'.dest, e)
  {
    assert w'.dest[h].Content() == e.Content();
  }

  lemma SkippedIsNotThere(w: Work, events: seq<Event>, n: nat, source: Store, dest0: Store, calendar: string,
                          reply: PutReply)
    requires n < |events| && Lists(events, source) && GoodSource(source) && events[n].uid != ""
    requires OwnCopiesHold(w, events, n, dest0) && KindOf(w, events[n], calendar, reply).Skipped?
    ensures !HasUid(dest0, events[n].uid)
  {
    hide Convergence.Seen, Present;
    NotSeenBefore(events, n, source);
  }

  lemma {:induction false} PushHoldsOwn(r: Run, s: State, calendar: string, n: nat)
    requires Undisturbed(r, s, calendar) && Fit(s, calendar) && TagsAgree(s.source, s.dest) && n <= |r.seen.source|
    ensures OwnCopiesHold(PushUpTo(r, s, n), r.seen.source, n, s.dest)
  {
    hide RunFacts.ServerObeys, RunFacts.Obeys, AfterDeletion, PushOne, PushInvariant, OwnCopiesHold, GoodDest,
         GoodSource, TagsAgree, Lists, ByUid, KeysOf;
    if n == 0 {
      OneWayStarts(r, s);
      AllInMap(r, s, calendar);
    } else {
      PushHoldsOwn(r, s, calendar, n - 1);
      PushHolds(r, s, calendar, n - 1);
      RunFacts.ServerObeysAt(r, s, n - 1);
      PushStepHolds(PushUpTo(r, s, n - 1), r.seen.source, n - 1, s.source, s.dest, calendar, r.answers.push(n - 1));
    }
  }

  lemma AllInMap(r: Run, s: State, calendar: string)
    requires Lists(r.seen.dest, s.dest)
    ensures OwnCopiesHold(Begin(r, s), r.seen.source, 0, s.dest)
  {
    hide ByUid, KeysOf;
    RunFacts.ByUidShows(r.seen.dest);
    forall p | p in s.dest && s.dest[p].uid != ""
      ensures s.dest[p].uid in Begin(r, s).destMap
    {
      assert s.dest[p] in r.seen.dest;
    }
  }

  lemma UnseenIsOld(w: Work, events: seq<Event>, dest0: Store, p: string)
    requires LeftoversExact(w, events, |events|, dest0) && p in w.dest
    ensures !Convergence.Seen(events, |events|, w.dest[p].uid) ==> KeyPresent(dest0, w.dest[p].DedupeKey())
  {
    hide Convergence.Seen;
    if !Convergence.Seen(events, |events|, w.dest[p].uid) {
      assert dest0[p] == w.dest[p];
    }
  }

  lemma NewKeyIsSwept(w: Work, events: seq<Event>, source: Store, dest0: Store, calendar: string, key: string)
    requires PushInvariant(w, events, |events|, source, dest0, calendar) && key in w.keys && !KeyPresent(dest0, key)
    ensures KeyPresent(Swept(w), key)
  {
    hide Convergence.Seen, GoodDest, CopiesMade, Swept;
    var p :| p in w.dest && w.dest[p].DedupeKey() == key;
    SweptOnlyUnseen(w, events, dest0, p);
    UnseenIsOld(w, events, dest0, p);
    assert Swept(w)[p].DedupeKey() == key;
  }

  /** A key that is not shadowed is on the destination just before the clean-up. */
  lemma KeyArrives(r: Run, s: State, calendar: string, q: string)
    requires Undisturbed(r, s, calendar) && Fit(s, calendar) && TagsAgree(s.source, s.dest)
    requires q in s.source && s.source[q].uid != "" && !Shadowed(s.source, s.dest, s.source[q].DedupeKey())
    ensures KeyPresent(Swept(AfterPush(r, s)), s.source[q].DedupeKey())
  {
    hide RunFacts.ServerObeys, AfterPush, PushUpTo, Swept, GoodSource, GoodDest, TagsAgree, Present, KeyPresent,
         HasUid, LeftoversExact, CopiesMade,
         KeysExplained, Lists;
    var w, key, n := AfterPush(r, s), s.source[q].DedupeKey(), |r.seen.source|;
    AllPushed(r, s);
    PushHolds(r, s, calendar, n);
    if KeyPresent(s.dest, key) {
      var q' :| q' in s.source && s.source[q'].uid != "" && s.source[q'].DedupeKey() == key
        && HasUid(s.dest, s.source[q'].uid);
      PushHoldsOwn(r, s, calendar, n);
      var i := ListPosition(r.seen.source, s.source, q');
      SweptKeepsCopies(w, r.seen.source, s.source, s.dest, q');
      PresentHasKey(Swept(w), s.source[q']);
    } else {
      SweptAreCopies(w, r.seen.source, s.source, s.dest, calendar);
      if Present(Swept(w), s.source[q]) {
        PresentHasKey(Swept(w), s.source[q]);
      } else {
        NewKeyIsSwept(w, r.seen.source, s.source, s.dest, calendar, key);
      }
    }
  }

  // ---- Shadowed: the key is lost ----

  /** No resource has the UID of a source event with the key. */
  ghost predicate NoneOf(source: Store, dest: Store, key: string) {
    forall p, q :: p in dest && q in source && source[q].uid != "" && source[q].DedupeKey() == key ==>
      dest[p].uid != source[q].uid
  }

  lemma PushStepAddsNone(w: Work, events: seq<Event>, n: nat, source: Store, dest0: Store, calendar: string,
                         reply: PutReply, key: string)
    requires n < |events| && Lists(events, source) && GoodSource(source) && TagsAgree(source, dest0)
    requires PushInvariant(w, events, n, source, dest0, calendar) && reply.Stored?
    requires RunFacts.Obeys(w, events[n], calendar, reply)
    requires key != BLANK_KEY && key in w.keys && NoneOf(source, w.dest, key)
    ensures NoneOf(source, PushOne(w, events[n], calendar, reply).dest, key)
  {
    hide RunFacts.Obeys, PushOne, CopiesMade, KeysExplained, GoodDest, TagsAgree, Lists, Convergence.Seen, OutcomeOf,
         Target;
    var e, w' := events[n], PushOne(w, events[n], calendar, reply);
    ListedAt(events, source, n);
    if e.uid == "" || KindOf(w, e, calendar, reply).Skipped? {
      SkipsWriteNothing(w, e, calendar, reply);
    } else {
      var h := StepPlaces(w, events, n, source, dest0, calendar, reply);
      SameKey(w'.dest[h], e);
      assert e.DedupeKey() != key by {
        if e.uid in w.destMap {
          assert w.dest[w.destMap[e.uid].path].uid == e.uid;
        }
      }
    }
  }

  lemma {:induction false} PushAddsNone(r: Run, s: State, calendar: string, n: nat, key: string)
    requires Undisturbed(r, s, calendar) && Fit(s, calendar) && TagsAgree(s.source, s.dest) && n <= |r.seen.source|
    requires key != BLANK_KEY && Shadowed(s.source, s.dest, key)
    ensures NoneOf(s.source, PushUpTo(r, s, n).dest, key)
  {
    hide RunFacts.ServerObeys, RunFacts.Obeys, AfterDeletion, PushOne, PushInvariant, GoodDest, GoodSource, TagsAgree,
         Lists, ByUid, KeysOf, KeyPresent;
    if n == 0 {
      OneWayStarts(r, s);
    } else {
      hide NoneOf, Shadowed;
      PushAddsNone(r, s, calendar, n - 1, key);
      PushHolds(r, s, calendar, n - 1);
      ShadowIsListed(r, s, key);
      StartKeysStay(r, s, n - 1);
      RunFacts.ServerObeysAt(r, s, n - 1);
      PushStepAddsNone(PushUpTo(r, s, n - 1), r.seen.source, n - 1, s.source, s.dest, calendar, r.answers.push(n - 1),
        key);
    }
  }

  lemma ShadowIsListed(r: Run, s: State, key: string)
    requires Lists(r.seen.dest, s.dest) && key != BLANK_KEY && Shadowed(s.source, s.dest, key)
    ensures key in KeysOf(r.seen.dest)
  {
    ListedKeys(r.seen.dest, s.dest, key);
  }

  lemma ShadowedIsLost(r: Run, s: State, calendar: string, key: string)
    requires Undisturbed(r, s, calendar) && Fit(s, calendar) && TagsAgree(s.source, s.dest)
    requires key != BLANK_KEY && Shadowed(s.source, s.dest, key)
    ensures !KeyPresent(After(r, s).dest, key)
  {
    hide RunFacts.ServerObeys, After, AfterPush, PushUpTo, GoodSource, GoodDest, TagsAgree, Lists, Shadowed, Present,
         PushOne;
    FirstRun(r, s, calendar);
    AllPushed(r, s);
    PushAddsNone(r, s, calendar, |r.seen.source|, key);
    TwoWayRemoval.DestOnlyShrinks(r, s);
    var left := After(r, s).dest;
    forall p | p in left
      ensures left[p].DedupeKey() != key
    {
      assert CopyOf(left[p], s.source);
      var q :| q in s.source && s.source[q].uid != "" && s.source[q].Content() == left[p].Content();
      SameKey(s.source[q], left[p]);
    }
  }

  /** One undisturbed run is enough if and only if no key of a source event is shadowed. */
  lemma OneRunSufficesIff(r: Run, s: State, calendar: string)
    requires Undisturbed(r, s, calendar) && Fit(s, calendar) && TagsAgree(s.source, s.dest)
    ensures InStep(s.source, After(r, s).dest) <==> NothingShadowed(s.source, s.dest)
  {
    hide RunFacts.ServerObeys, After, AfterPush, AfterOrphans, Swept, GoodSource, GoodDest, TagsAgree, Present,
         KeyPresent, CopyOf, Lists, Mirrored, Shadowed;
    FirstRun(r, s, calendar);
    forall q | q in s.source && s.source[q].uid != ""
      ensures s.source[q].DedupeKey() == BLANK_KEY || !Shadowed(s.source, s.dest, s.source[q].DedupeKey())
          <==> KeyPresent(After(r, s).dest, s.source[q].DedupeKey())
    {
      OneKey(r, s, calendar, q);
    }
  }

  lemma OneKey(r: Run, s: State, calendar: string, q: string)
    requires Undisturbed(r, s, calendar) && Fit(s, calendar) && TagsAgree(s.source, s.dest)
    requires q in s.source && s.source[q].uid != ""
    ensures s.source[q].DedupeKey() == BLANK_KEY || !Shadowed(s.source, s.dest, s.source[q].DedupeKey())
        <==> KeyPresent(After(r, s).dest, s.source[q].DedupeKey())
  {
    hide RunFacts.ServerObeys, After, AfterPush, AfterOrphans, PushUpTo, Swept, GoodSource, GoodDest, TagsAgree,
         CopyOf, Present, KeyPresent, Lists,
         LeftoversExact, CopiesMade, KeysExplained, Shadowed;
    var key, w := s.source[q].DedupeKey(), AfterPush(r, s);
    FirstRun(r, s, calendar);
    if key == BLANK_KEY {
      PresentHasKey(After(r, s).dest, s.source[q]);
    } else if Shadowed(s.source, s.dest, key) {
      ShadowedIsLost(r, s, calendar, key);
    } else {
      AllPushed(r, s);
      PushHolds(r, s, calendar, |r.seen.source|);
      KeyArrives(r, s, calendar, q);
      SweptIs(r, s, calendar);
      SweptAreCopies(w, r.seen.source, s.source, s.dest, calendar);
      CleanedIsMirrored(r.seen.recheck.value, AfterOrphans(r, s).sourceMap.Keys, Swept(w), s.source, calendar);
    }
  }
}
