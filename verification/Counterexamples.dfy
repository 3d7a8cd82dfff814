/** Inputs on which plausible stronger statements fail. */
module Counterexamples {
  import opened CalendarData
  import opened Reconcile
  import Convergence
  import RunFacts
  import TwoWayRemoval

  lemma ByUidOne(e: Event)
    requires e.uid != ""
    ensures ByUid([e]) == map[e.uid := e] && KeysOf([e]) == if e.DedupeKey() == BLANK_KEY then {} else {e.DedupeKey()}
  {
    assert [e][..0] == [];
    assert forall x :: x in [e] <==> x == e;
  }

  // ---- One-way, one run ----

  lemma RecheckIsComplete(r: Run, s: State, calendar: string)
    requires Convergence.Undisturbed(r, s, calendar)
    ensures r.seen.recheck.Some? && Lists(r.seen.recheck.value, AfterOrphans(r, s).dest)
  {
  }

  lemma SkippedHere(w: Work, e: Event, calendar: string, reply: PutReply)
    requires e.uid != "" && e.uid !in w.destMap && e.DedupeKey() != BLANK_KEY && e.DedupeKey() in w.keys
    ensures KindOf(w, e, calendar, reply).Skipped?
  {
  }

  lemma LookAlikeIsSkipped(r: Run, s: State, e: Event, x: Event, calendar: string)
    requires s.source == map[e.path := e] && s.dest == map[x.path := x] && Convergence.Undisturbed(r, s, calendar)
    requires r.seen.source == [e] && r.seen.dest == [x]
    requires e.uid != "" && x.uid != "" && e.uid != x.uid && e.DedupeKey() == x.DedupeKey() != BLANK_KEY
    ensures AfterPush(r, s).dest == s.dest && AfterPush(r, s).destMap == map[x.uid := x]
  {
    hide PutInto, OutcomeOf, PushOne, KindOf, Lists, AfterOrphans, RunFacts.ServerObeys;
    ByUidOne(x);
    var w, reply := Begin(r, s), r.answers.push(0);
    Convergence.OneWayStarts(r, s);
    SkippedHere(w, e, calendar, reply);
    RunFacts.PushStep(w, e, calendar, reply);
    assert Push(w, [e], calendar, r.answers.push, 1) == PushOne(w, e, calendar, reply);
  }

  /** One undisturbed run is not enough: a look-alike on the destination makes the run skip the source event, and is
      then deleted as an orphan, so that the destination ends up empty. */
  lemma LookAlikeEmptiesTheDestination(r: Run, s: State, e: Event, x: Event, calendar: string)
    requires s.source == map[e.path := e] && s.dest == map[x.path := x] && Convergence.Undisturbed(r, s, calendar)
    requires r.seen.source == [e] && r.seen.dest == [x]
    requires e.uid != "" && x.uid != "" && e.uid != x.uid && e.DedupeKey() == x.DedupeKey() != BLANK_KEY
    ensures After(r, s).dest == map[] && !Convergence.InStep(s.source, After(r, s).dest)
  {
    hide After, AfterPush, AfterOrphans, Finish, Doomed, KeysOf, Lists, Convergence.Undisturbed,
         Convergence.Swept, RunFacts.ServerObeys;
    RecheckIsComplete(r, s, calendar);
    LookAlikeIsSkipped(r, s, e, x, calendar);
    Convergence.SweptIs(r, s, calendar);
    OneIsSwept(AfterPush(r, s), x);
    assert After(r, s).dest == map[];
    assert e.path in s.source && s.source[e.path].uid != "" && !Convergence.KeyPresent(After(r, s).dest, e.DedupeKey());
  }

  lemma OneIsSwept(w: Work, x: Event)
    requires w.dest == map[x.path := x] && w.destMap == map[x.uid := x]
    ensures Convergence.Swept(w) == map[]
  {
    assert PathsOf({x.uid}, map[x.uid := x]) == {x.path};
  }

  // ---- One-way, resource names ----

  /** The path holds another event than the one with `uid`, which is nowhere on the destination. */
  ghost predicate Taken(dest: Store, uid: string, path: string) {
    path in dest && dest[path].uid != uid && TwoWayRemoval.Absent(dest, uid)
  }

  /** A one-way run with truthful listings against a server that stores no put over a resource with another UID, in
      which the event with `uid` would be created at `path`. Anything may fail. */
  ghost predicate WouldNameIt(r: Run, s: State, uid: string, path: string) {
    && r.cfg.direction.OneWay? && RunFacts.ShowsOnly(r.seen.dest, s.dest) && RunFacts.ServerObeys(r, s)
    && forall e :: e in r.seen.source && e.uid == uid ==>
         PutTarget(r.seen.destCalendar, e.path, e.uid, "") == Some(path)
  }

  lemma PushStepLeavesTaken(w: Work, e: Event, calendar: string, reply: PutReply, uid: string, path: string)
    requires Taken(w.dest, uid, path) && uid !in w.destMap && RunFacts.Obeys(w, e, calendar, reply)
    requires e.uid == uid ==> PutTarget(calendar, e.path, e.uid, "") == Some(path)
    ensures Taken(PushOne(w, e, calendar, reply).dest, uid, path)
    ensures uid !in PushOne(w, e, calendar, reply).destMap
  {
    hide PushOne, PutTarget;
    RunFacts.PushStep(w, e, calendar, reply);
    var dest := PushOne(w, e, calendar, reply).dest;
    RunFacts.PushStepAt(w, e, calendar, reply, path);
    forall p | p in dest
      ensures dest[p].uid != uid
    {
      RunFacts.PushStepAt(w, e, calendar, reply, p);
      SameUid(dest[p], e);
    }
  }

  lemma {:induction false} PushLeavesTaken(r: Run, s: State, uid: string, path: string, n: nat)
    requires uid != "" && Taken(s.dest, uid, path) && WouldNameIt(r, s, uid, path) && n <= |r.seen.source|
    ensures Taken(PushUpTo(r, s, n).dest, uid, path) && uid !in PushUpTo(r, s, n).destMap
  {
    hide PushOne, Taken, RunFacts.ServerObeys, RunFacts.Obeys, ByUid, KeysOf, PutTarget;
    if n == 0 {
      Convergence.OneWayStarts(r, s);
      TakenIsUnlisted(r, s, uid, path);
    } else {
      PushLeavesTaken(r, s, uid, path, n - 1);
      RunFacts.ServerObeysAt(r, s, n - 1);
      var w, e := PushUpTo(r, s, n - 1), r.seen.source[n - 1];
      PushStepLeavesTaken(w, e, r.seen.destCalendar, r.answers.push(n - 1), uid, path);
    }
  }

  lemma TakenIsUnlisted(r: Run, s: State, uid: string, path: string)
    requires Taken(s.dest, uid, path) && RunFacts.ShowsOnly(r.seen.dest, s.dest)
    ensures uid !in ByUid(r.seen.dest)
  {
    hide ByUid;
    RunFacts.ByUidShows(r.seen.dest);
  }

  /** An event whose resource name is taken does not arrive: as long as the resource stays, it stays what it is, and the
      event is still missing. */
  lemma TakenNameBlocks(r: Run, s: State, uid: string, path: string)
    requires uid != "" && Taken(s.dest, uid, path) && WouldNameIt(r, s, uid, path) && path in After(r, s).dest
    ensures Taken(After(r, s).dest, uid, path)
  {
    hide After, AfterPush, PushUpTo, WouldNameIt;
    PushLeavesTaken(r, s, uid, path, |r.seen.source|);
    Convergence.AllPushed(r, s);
    TwoWayRemoval.DestOnlyShrinks(r, s);
  }

  /** Run `k` would name the event's resource like that, and the resource outlives it. */
  ghost predicate FindsItTaken(s0: State, runs: seq<Run>, k: nat, uid: string, path: string)
    requires k < |runs|
  {
    && WouldNameIt(runs[k], StateBefore(s0, runs, k), uid, path)
    && RunFacts.ShowsOnly(runs[k].seen.source, StateBefore(s0, runs, k).source)
    && path in StateBefore(s0, runs, k + 1).dest
  }

  /** So success of every put cannot be dropped from the convergence theorem: over any number of runs that find the name
      taken, the event stays missing, and if it has a blank key the destination never mirrors the source. */
  lemma {:induction false} TakenNameBlocksForever(s0: State, runs: seq<Run>, q: string, path: string, n: nat)
    requires n <= |runs| && q in s0.source && s0.source[q].uid != "" && Taken(s0.dest, s0.source[q].uid, path)
    requires forall k :: 0 <= k < n ==> FindsItTaken(s0, runs, k, s0.source[q].uid, path)
    ensures
      var s := StateBefore(s0, runs, n);
      && s.source == s0.source && Taken(s.dest, s0.source[q].uid, path)
      && (s0.source[q].DedupeKey() == BLANK_KEY ==> !Convergence.Mirrored(s.source, s.dest))
  {
    hide After, WouldNameIt;
    var uid := s0.source[q].uid;
    if n > 0 {
      TakenNameBlocksForever(s0, runs, q, path, n - 1);
      var r, s := runs[n - 1], StateBefore(s0, runs, n - 1);
      assert FindsItTaken(s0, runs, n - 1, uid, path);
      TakenNameBlocks(r, s, uid, path);
      assert r.cfg.direction.OneWay? by { NamesInOneWay(r, s, uid, path); }
      RunFacts.SourceFate(r, s);
    }
    AbsentIsNotPresent(StateBefore(s0, runs, n).dest, s0.source[q]);
  }

  lemma NamesInOneWay(r: Run, s: State, uid: string, path: string)
    requires WouldNameIt(r, s, uid, path)
    ensures r.cfg.direction.OneWay?
  {
  }

  lemma AbsentIsNotPresent(dest: Store, e: Event)
    requires TwoWayRemoval.Absent(dest, e.uid)
    ensures !Convergence.Present(dest, e)
  {
    forall p | p in dest
      ensures dest[p].Content() != e.Content()
    {
      SameUid(dest[p], e);
    }
  }
}
