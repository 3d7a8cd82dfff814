/** Which contents a two-way run leaves for an event that both calendars hold, under each conflict strategy. */
module TwoWayContents {
  import opened CalendarData
  import opened Reconcile
  import RunFacts
  import TwoWayRemoval

  /** Every resource lies under the path of its collection. */
  ghost predicate UnderPath(store: Store, calendar: string) {
    forall p :: p in store ==> store[p].path == p && p != "" && calendar <= p
  }

  /** Both calendars hold the UID, once each and with data: at `q` on the source and at `p` on the destination. */
  ghost predicate Shared(s: State, q: string, p: string, uid: string) {
    && uid != "" && TwoWayRemoval.Single(s.source, uid) && TwoWayRemoval.Single(s.dest, uid)
    && q in s.source && s.source[q].uid == uid && s.source[q].data != ""
    && p in s.dest && s.dest[p].uid == uid && s.dest[p].data != ""
  }

  /** A two-way run with complete listings whose puts of this UID succeed; whatever else fails, the server stores no put
      over a resource with another UID. */
  ghost predicate Serves(r: Run, s: State, uid: string) {
    && r.cfg.direction.TwoWay? && Lists(r.seen.source, s.source) && Lists(r.seen.dest, s.dest)
    && UnderPath(s.source, r.cfg.calendar) && UnderPath(s.dest, r.seen.destCalendar) && RunFacts.ServerObeys(r, s)
    && (forall i :: 0 <= i < |r.seen.source| && r.seen.source[i].uid == uid ==> r.answers.push(i).Stored?)
    && (forall i :: 0 <= i < |r.seen.dest| && r.seen.dest[i].uid == uid ==> r.answers.pushBack(i).Stored?)
  }

  /** The event with the UID comes up before position `n`. */
  ghost predicate Past(events: seq<Event>, n: nat, uid: string)
    requires n <= |events|
  {
    exists i :: 0 <= i < n && events[i].uid == uid
  }

  lemma PastNext(events: seq<Event>, n: nat, uid: string)
    requires n < |events|
    ensures Past(events, n + 1, uid) <==> Past(events, n, uid) || events[n].uid == uid
  {
    if Past(events, n, uid) {
      var i :| 0 <= i < n && events[i].uid == uid;
      assert 0 <= i < n + 1;
    }
  }

  /** In a complete listing the UID belongs to the one event that holds it, and comes up once. */
  lemma ListedOnce(events: seq<Event>, store: Store, p: string, uid: string, n: nat)
    requires Lists(events, store) && TwoWayRemoval.Single(store, uid) && p in store && store[p].uid == uid
    requires n < |events| && events[n].uid == uid
    ensures events[n] == store[p] && !Past(events, n, uid)
  {
    assert events[n] in events && events[n].path == p;
    forall i | 0 <= i < n
      ensures events[i].uid != uid
    {
      assert events[i] in events && events[i].path != events[n].path;
    }
  }

  lemma MapHolds(events: seq<Event>, store: Store, p: string, uid: string)
    requires Lists(events, store) && TwoWayRemoval.Single(store, uid) && p in store && store[p].uid == uid != ""
    ensures uid in ByUid(events) && ByUid(events)[uid] == store[p]
  {
    hide ByUid;
    RunFacts.ByUidShows(events);
    assert store[p] in events;
  }

  lemma AllPast(events: seq<Event>, store: Store, p: string)
    requires Lists(events, store) && p in store
    ensures Past(events, |events|, store[p].uid)
  {
    var i :| 0 <= i < |events| && events[i] == store[p];
  }

  // ---- Deletion phase ----

  lemma DeletionKeepsShared(r: Run, s: State, q: string, p: string, uid: string)
    requires Serves(r, s, uid) && Shared(s, q, p, uid)
    ensures
      var w := AfterDeletion(r, s);
      && q in w.source && w.source[q] == s.source[q] && p in w.dest && w.dest[p] == s.dest[p]
      && uid in w.sourceMap && w.sourceMap[uid] == s.source[q] && uid in w.destMap && w.destMap[uid] == s.dest[p]
  {
    hide ByUid, KeysOf, RunFacts.ServerObeys;
    MapHolds(r.seen.source, s.source, q, uid);
    MapHolds(r.seen.dest, s.dest, p, uid);
    RunFacts.ByUidShows(r.seen.source);
    RunFacts.ByUidShows(r.seen.dest);
    var w, prev := Begin(r, s), Previous(r, s);
    if DeletionEnabled(r, prev, w.destMap) {
      var onDest := WithVerdict(w, prev, Threshold(r), prev.Keys, DropFromDest);
      var onSource := WithVerdict(w, prev, Threshold(r), prev.Keys, DropFromSource);
      assert uid !in onDest && uid !in onSource;
      assert p !in PathsOf(onDest - r.answers.destDeleteFails, w.destMap);
      assert q !in PathsOf(onSource - r.answers.sourceDeleteFails, w.sourceMap);
    }
  }

  // ---- Push ----

  /** What the destination holds at `p`: still its own event, or afterwards the source's when the tags differ. */
  ghost predicate PushedSoFar(w: Work, past: bool, p: string, e: Event, d: Event) {
    && p in w.dest && w.dest[p].uid == e.uid
    && (!past ==> w.dest[p] == d && e.uid in w.destMap && w.destMap[e.uid] == d)
    && (past ==> w.dest[p].Content() == (if e.etag != d.etag then e else d).Content())
  }

  lemma OwnPush(w: Work, calendar: string, reply: PutReply, p: string, e: Event, d: Event)
    requires PushedSoFar(w, false, p, e, d) && reply.Stored? && e.data != "" && e.uid != "" && d.path == p
    requires p != "" && calendar <= p
    ensures PushedSoFar(PushOne(w, e, calendar, reply), true, p, e, d)
  {
    hide PushOne;
    RunFacts.PushStepAt(w, e, calendar, reply, p);
    var x := e.(path := p);
    assert e.etag != d.etag ==> RunFacts.PutFor(w, e) == Some(x) && RunFacts.WritesTo(calendar, x, reply, p);
    SameUid(PushOne(w, e, calendar, reply).dest[p], if e.etag != d.etag then e else d);
  }

  lemma OtherPush(w: Work, x: Event, calendar: string, reply: PutReply, past: bool, p: string, e: Event, d: Event)
    requires PushedSoFar(w, past, p, e, d) && x.uid != e.uid && RunFacts.Obeys(w, x, calendar, reply)
    ensures PushedSoFar(PushOne(w, x, calendar, reply), past, p, e, d)
  {
    hide PushOne;
    RunFacts.PushStepAt(w, x, calendar, reply, p);
    RunFacts.PushStep(w, x, calendar, reply);
  }

  lemma {:induction false} PushSettles(r: Run, s: State, q: string, p: string, uid: string, n: nat)
    requires Serves(r, s, uid) && Shared(s, q, p, uid) && n <= |r.seen.source|
    ensures PushedSoFar(PushUpTo(r, s, n), Past(r.seen.source, n, uid), p, s.source[q], s.dest[p])
  {
    hide AfterDeletion, PushOne, PushedSoFar, RunFacts.ServerObeys, RunFacts.Obeys, Lists, Past;
    if n == 0 {
      DeletionKeepsShared(r, s, q, p, uid);
      NothingPast(r.seen.source, uid);
      NotYetPushed(AfterDeletion(r, s), p, s.source[q], s.dest[p]);
    } else {
      PushSettles(r, s, q, p, uid, n - 1);
      PastNext(r.seen.source, n - 1, uid);
      RunFacts.ServerObeysAt(r, s, n - 1);
      var w, x, reply := PushUpTo(r, s, n - 1), r.seen.source[n - 1], r.answers.push(n - 1);
      if x.uid == uid {
        ListedOnce(r.seen.source, s.source, q, uid, n - 1);
        OwnPush(w, r.seen.destCalendar, reply, p, s.source[q], s.dest[p]);
      } else {
        OtherPush(w, x, r.seen.destCalendar, reply, Past(r.seen.source, n - 1, uid), p, s.source[q], s.dest[p]);
      }
    }
  }

  lemma NothingPast(events: seq<Event>, uid: string)
    ensures !Past(events, 0, uid)
  {
  }

  lemma NotYetPushed(w: Work, p: string, e: Event, d: Event)
    requires p in w.dest && w.dest[p] == d && e.uid in w.destMap && w.destMap[e.uid] == d && e.uid == d.uid
    ensures PushedSoFar(w, false, p, e, d)
  {
  }

  // ---- Push-back ----

  /** What the source holds at `q`: its own event, or under `dest_wins`, when the tags differ, the destination's. */
  ghost predicate PushedBackSoFar(w: Work, past: bool, cfg: Config, q: string, e: Event, d: Event) {
    && q in w.source && e.uid in w.sourceMap && w.sourceMap[e.uid] == e
    && w.source[q].Content() == (if past && cfg.strategy.DestWins? && e.etag != d.etag then d else e).Content()
  }

  lemma OwnPushBack(w: Work, cfg: Config, reply: PutReply, q: string, e: Event, d: Event)
    requires PushedBackSoFar(w, false, cfg, q, e, d) && reply.Stored? && d.uid == e.uid != "" && d.data != ""
    requires e.path == q && q != "" && cfg.calendar <= q
    ensures PushedBackSoFar(PushBackOne(w, cfg, d, reply), true, cfg, q, e, d)
  {
  }

  lemma OtherPushBack(w: Work, cfg: Config, x: Event, reply: PutReply, past: bool, q: string, e: Event, d: Event)
    requires PushedBackSoFar(w, past, cfg, q, e, d)
    requires x.uid in w.sourceMap ==>
      w.sourceMap[x.uid].path != q && w.sourceMap[x.uid].path != "" && cfg.calendar <= w.sourceMap[x.uid].path
    ensures PushedBackSoFar(PushBackOne(w, cfg, x, reply), past, cfg, q, e, d)
  {
  }

  lemma {:induction false} PushBackSettles(r: Run, s: State, q: string, p: string, uid: string, n: nat)
    requires Serves(r, s, uid) && Shared(s, q, p, uid) && n <= |r.seen.dest|
    ensures
      var w := PushBack(AfterPush(r, s), r.cfg, r.seen.dest, r.answers.pushBack, n);
      PushedBackSoFar(w, Past(r.seen.dest, n, uid), r.cfg, q, s.source[q], s.dest[p])
  {
    hide AfterDeletion, AfterPush, PushBackOne, PushedBackSoFar, RunFacts.ServerObeys, Lists, Past;
    if n == 0 {
      NothingPast(r.seen.dest, uid);
      NotYetPushedBack(r, s, q, p, uid);
    } else {
      PushBackSettles(r, s, q, p, uid, n - 1);
      PastNext(r.seen.dest, n - 1, uid);
      var w := PushBack(AfterPush(r, s), r.cfg, r.seen.dest, r.answers.pushBack, n - 1);
      var x, reply := r.seen.dest[n - 1], r.answers.pushBack(n - 1);
      if x.uid == uid {
        ListedOnce(r.seen.dest, s.dest, p, uid, n - 1);
        OwnPushBack(w, r.cfg, reply, q, s.source[q], s.dest[p]);
      } else {
        RunFacts.PushBackKeepsRecords(AfterPush(r, s), r.cfg, r.seen.dest, r.answers.pushBack, n - 1);
        OthersLieElsewhere(r, s, q, uid, x.uid);
        OtherPushBack(w, r.cfg, x, reply, Past(r.seen.dest, n - 1, uid), q, s.source[q], s.dest[p]);
      }
    }
  }

  lemma NotYetPushedBack(r: Run, s: State, q: string, p: string, uid: string)
    requires Serves(r, s, uid) && Shared(s, q, p, uid)
    ensures PushedBackSoFar(AfterPush(r, s), false, r.cfg, q, s.source[q], s.dest[p])
  {
    hide AfterDeletion, Push, RunFacts.ServerObeys, Lists;
    DeletionKeepsShared(r, s, q, p, uid);
    RunFacts.PushLeavesSource(AfterDeletion(r, s), r.seen.source, r.seen.destCalendar, r.answers.push, |r.seen.source|);
  }

  lemma OthersLieElsewhere(r: Run, s: State, q: string, uid: string, other: string)
    requires Lists(r.seen.source, s.source) && UnderPath(s.source, r.cfg.calendar)
    requires q in s.source && s.source[q].uid == uid != other
    ensures
      var sourceMap := AfterPush(r, s).sourceMap;
      other in sourceMap ==>
        sourceMap[other].path != q && sourceMap[other].path != "" && r.cfg.calendar <= sourceMap[other].path
  {
    hide AfterDeletion, Push, ByUid, KeysOf;
    RunFacts.PushLeavesSource(AfterDeletion(r, s), r.seen.source, r.seen.destCalendar, r.answers.push, |r.seen.source|);
    RunFacts.DeletionShrinksMaps(r, s);
    RunFacts.ByUidShows(r.seen.source);
  }

  // ---- The outcome ----

  /** After a two-way run, and before the clean-up, the destination holds the source's content when the tags differed;
      the source keeps its own, except that under `dest_wins` it then gets the destination's: the two are exchanged. */
  lemma ContentsAfterRun(r: Run, s: State, q: string, p: string, uid: string)
    requires Serves(r, s, uid) && Shared(s, q, p, uid)
    ensures
      var w, e, d := AfterOrphans(r, s), s.source[q], s.dest[p];
      && q in w.source && p in w.dest
      && w.source[q].Content() == (if r.cfg.strategy.DestWins? && e.etag != d.etag then d else e).Content()
      && w.dest[p].Content() == (if e.etag != d.etag then e else d).Content()
  {
    hide AfterPush, PushUpTo, PushBack, Lists, Past, RunFacts.ServerObeys;
    PushSettles(r, s, q, p, uid, |r.seen.source|);
    assert AfterPush(r, s) == PushUpTo(r, s, |r.seen.source|) by { EverythingPushed(r, s); }
    AllPast(r.seen.source, s.source, q);
    PushBackSettles(r, s, q, p, uid, |r.seen.dest|);
    AllPast(r.seen.dest, s.dest, p);
    RunFacts.PushBackKeepsRecords(AfterPush(r, s), r.cfg, r.seen.dest, r.answers.pushBack, |r.seen.dest|);
  }

  lemma EverythingPushed(r: Run, s: State)
    ensures AfterPush(r, s) == PushUpTo(r, s, |r.seen.source|)
  {
  }

  /** The two contents agree afterwards if and only if they did before, or the tags differed and the strategy is not
      `dest_wins`. */
  lemma ContentsAgreeIff(r: Run, s: State, q: string, p: string, uid: string)
    requires Serves(r, s, uid) && Shared(s, q, p, uid)
    ensures
      var w, e, d := AfterOrphans(r, s), s.source[q], s.dest[p];
      && q in w.source && p in w.dest
      && (w.source[q].Content() == w.dest[p].Content()
          <==> e.Content() == d.Content() || (e.etag != d.etag && !r.cfg.strategy.DestWins?))
  {
    hide AfterOrphans, Serves, Shared;
    ContentsAfterRun(r, s, q, p, uid);
  }

  // ---- latest_wins ----

  function WithStrategy(r: Run, strategy: Strategy): Run {
    r.(cfg := r.cfg.(strategy := strategy))
  }

  lemma {:induction false} NothingPushedBack(w: Work, cfg: Config, events: seq<Event>, replies: nat -> PutReply, n: nat)
    requires n <= |events| && !cfg.strategy.DestWins?
    ensures PushBack(w, cfg, events, replies, n) == w
  {
    if n > 0 {
      NothingPushedBack(w, cfg, events, replies, n - 1);
    }
  }

  /** In two-way mode `latest_wins` does exactly what `source_wins` does. */
  lemma LatestWinsIsSourceWins(r: Run, s: State)
    requires r.cfg.direction.TwoWay? && r.cfg.strategy.LatestWins?
    ensures Finish(r, s) == Finish(WithStrategy(r, SourceWins), s)
  {
    hide DeletionTable, Push, PushBack, Cleanup, KeysOf, ByUid, Stamp;
    var r' := WithStrategy(r, SourceWins);
    assert AfterDeletion(r', s) == AfterDeletion(r, s);
    assert AfterPush(r', s) == AfterPush(r, s);
    NothingPushedBack(AfterPush(r, s), r.cfg, r.seen.dest, r.answers.pushBack, |r.seen.dest|);
    NothingPushedBack(AfterPush(r, s), r'.cfg, r.seen.dest, r.answers.pushBack, |r.seen.dest|);
  }

  lemma {:induction false} PushKeepsPaths(w: Work, events: seq<Event>, calendar: string, replies: nat -> PutReply,
                                          n: nat)
    requires n <= |events|
    ensures w.dest.Keys <= Push(w, events, calendar, replies, n).dest.Keys
  {
    hide PushOne;
    if n > 0 {
      PushKeepsPaths(w, events, calendar, replies, n - 1);
      forall path | path in w.dest
        ensures path in Push(w, events, calendar, replies, n).dest
      {
        RunFacts.PushStepAt(Push(w, events, calendar, replies, n - 1), events[n - 1], calendar, replies(n - 1), path);
      }
    }
  }

  /** In one-way mode only `source_wins` deletes orphans: under the other strategies no path leaves the destination
      before the clean-up. */
  lemma OnlySourceWinsSweeps(r: Run, s: State)
    requires r.cfg.direction.OneWay? && !r.cfg.strategy.SourceWins?
    ensures s.dest.Keys <= AfterOrphans(r, s).dest.Keys
  {
    hide Push, ByUid, KeysOf;
    PushKeepsPaths(AfterDeletion(r, s), r.seen.source, r.seen.destCalendar, r.answers.push, |r.seen.source|);
  }
}
