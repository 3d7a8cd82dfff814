/** Facts about every single run, whatever the listings and whatever fails. */
module RunFacts {
  import opened CalendarData
  import opened Reconcile

  ghost predicate ValidWork(w: Work) {
    ValidStore(w.source) && ValidStore(w.dest)
  }

  /** One push step, field by field. */
  lemma PushStep(w: Work, e: Event, calendar: string, reply: PutReply)
    ensures
      var w', kind := PushOne(w, e, calendar, reply), KindOf(w, e, calendar, reply);
      && w'.source == w.source && w'.sourceMap == w.sourceMap && w'.records == w.records
      && w'.destMap == (if e.uid == "" then w.destMap else w.destMap - {e.uid})
      && w'.tracked == (if kind.Created? || kind.Updated? || kind.Unchanged? then w.tracked + {e.uid} else w.tracked)
      && w'.keys == (if kind.Created? && e.DedupeKey() != BLANK_KEY then w.keys + {e.DedupeKey()} else w.keys)
      && (kind.Created? ==> e.uid !in w.destMap) && (kind.Updated? ==> e.uid in w.destMap)
      && w'.dest == (if kind.Created? then PutInto(w.dest, calendar, e, "", reply)
                     else if kind.Updated? then PutInto(w.dest, calendar, e.(path := w.destMap[e.uid].path), "", reply)
                     else w.dest)
  {
    hide PutInto, OutcomeOf;
    if e.uid !in w.destMap {
      assert w.destMap - {e.uid} == w.destMap;
    }
  }

  // ---- The puts of the push loop ----

  /** The event that the push loop puts for `e`, if it puts one: `e` itself to create it, or `e` at the path of the
      listed resource to update that. */
  function PutFor(w: Work, e: Event): Option<Event> {
    if e.uid == "" then None
    else if e.uid !in w.destMap then
      if e.DedupeKey() != BLANK_KEY && e.DedupeKey() in w.keys then None else Some(e)
    else if e.etag != w.destMap[e.uid].etag then Some(e.(path := w.destMap[e.uid].path))
    else None
  }

  lemma PushStepPuts(w: Work, e: Event, calendar: string, reply: PutReply)
    ensures PushOne(w, e, calendar, reply).dest
         == match PutFor(w, e)
            case None => w.dest
            case Some(x) => PutInto(w.dest, calendar, x, "", reply)
    ensures PutFor(w, e).Some? ==> PutFor(w, e).value.Content() == e.Content()
  {
    hide PutInto, OutcomeOf;
    match PutFor(w, e)
    case None =>
    case Some(x) => FailedPutChangesNothing(w.dest, calendar, x, "", reply);
  }

  /** The put is answered as stored, with something to write, at `path`. */
  predicate WritesTo(calendar: string, x: Event, reply: PutReply, path: string) {
    x.data != "" && reply.Stored? && PutTarget(calendar, x.path, x.uid, "") == Some(path)
  }

  /** The answer obeys the no-uid-conflict precondition (section 5.3.2.1 of RFC 4791): a put is not stored over a
      resource that has another UID. */
  ghost predicate Obeys(w: Work, e: Event, calendar: string, reply: PutReply) {
    forall path :: PutFor(w, e).Some? && WritesTo(calendar, PutFor(w, e).value, reply, path) && path in w.dest ==>
      w.dest[path].uid == e.uid
  }

  /** Every answer to the push loop of the run does. */
  ghost predicate ServerObeys(r: Run, s: State) {
    forall i :: 0 <= i < |r.seen.source| ==>
      Obeys(PushUpTo(r, s, i), r.seen.source[i], r.seen.destCalendar, r.answers.push(i))
  }

  lemma ServerObeysAt(r: Run, s: State, i: nat)
    requires ServerObeys(r, s) && i < |r.seen.source|
    ensures Obeys(PushUpTo(r, s, i), r.seen.source[i], r.seen.destCalendar, r.answers.push(i))
  {
    hide Obeys;
  }

  /** One push step at one path. */
  lemma PushStepAt(w: Work, e: Event, calendar: string, reply: PutReply, path: string)
    ensures
      var dest := PushOne(w, e, calendar, reply).dest;
      if PutFor(w, e).Some? && WritesTo(calendar, PutFor(w, e).value, reply, path) then
        path in dest && dest[path].Content() == e.Content() && dest[path].path == path && dest[path].etag == reply.etag
      else (path in dest <==> path in w.dest) && (path in w.dest ==> dest[path] == w.dest[path])
  {
    hide PushOne, PutTarget;
    PushStepPuts(w, e, calendar, reply);
  }

  lemma PutStaysValid(store: Store, calendar: string, e: Event, embedded: string, reply: PutReply)
    requires ValidStore(store)
    ensures ValidStore(PutInto(store, calendar, e, embedded, reply))
  {
  }

  lemma {:induction false} PushStaysValid(w: Work, events: seq<Event>, calendar: string, replies: nat -> PutReply,
                                          n: nat)
    requires n <= |events| && ValidWork(w)
    ensures ValidWork(Push(w, events, calendar, replies, n))
  {
    hide PutInto, PushOne, KindOf;
    if n > 0 {
      PushStaysValid(w, events, calendar, replies, n - 1);
      PushStep(Push(w, events, calendar, replies, n - 1), events[n - 1], calendar, replies(n - 1));
      var before, e := Push(w, events, calendar, replies, n - 1), events[n - 1];
      var target := if e.uid in before.destMap then e.(path := before.destMap[e.uid].path) else e;
      PutStaysValid(before.dest, calendar, target, "", replies(n - 1));
    }
  }

  lemma {:induction false} PushBackStaysValid(w: Work, cfg: Config, events: seq<Event>, replies: nat -> PutReply,
                                              n: nat)
    requires n <= |events| && ValidWork(w)
    ensures ValidWork(PushBack(w, cfg, events, replies, n))
  {
    if n > 0 {
      PushBackStaysValid(w, cfg, events, replies, n - 1);
    }
  }

  /** Every event stays filed under its own path. */
  lemma StoresStayValid(r: Run, s: State)
    requires ValidStore(s.source) && ValidStore(s.dest)
    ensures ValidWork(AfterOrphans(r, s)) && ValidWork(Finish(r, s))
  {
    var w := AfterDeletion(r, s);
    PushStaysValid(w, r.seen.source, r.seen.destCalendar, r.answers.push, |r.seen.source|);
    w := AfterPush(r, s);
    PushBackStaysValid(w, r.cfg, r.seen.dest, r.answers.pushBack, |r.seen.dest|);
  }

  /** Nothing before the clean-up depends on what the second destination listing will show. */
  lemma RecheckComesLast(r: Run, recheck: Option<seq<Event>>, s: State)
    ensures AfterOrphans(r.(seen := r.seen.(recheck := recheck)), s) == AfterOrphans(r, s)
  {
    hide DeletionTable, Push, PushBack, DropOrphans;
    var r' := r.(seen := r.seen.(recheck := recheck));
    assert AfterDeletion(r', s) == AfterDeletion(r, s);
    assert AfterPush(r', s) == AfterPush(r, s);
    assert AfterPushBack(r', s) == AfterPushBack(r, s);
  }

  // ---- Where map entries and tracked UIDs come from ----

  lemma {:induction false} ByUidShows(events: seq<Event>)
    ensures forall u :: u in ByUid(events) ==> u != "" && ByUid(events)[u] in events && ByUid(events)[u].uid == u
    ensures forall e :: e in events && e.uid != "" ==> e.uid in ByUid(events)
  {
    if events != [] {
      var before, last := events[..|events| - 1], events[|events| - 1];
      ByUidShows(before);
      assert events == before + [last];
    }
  }

  ghost predicate SubMap(m: EventMap, n: EventMap) {
    forall u :: u in m ==> u in n && m[u] == n[u]
  }

  lemma DeletionShrinksMaps(r: Run, s: State)
    ensures SubMap(AfterDeletion(r, s).destMap, ByUid(r.seen.dest))
    ensures SubMap(AfterDeletion(r, s).sourceMap, ByUid(r.seen.source))
    ensures AfterDeletion(r, s).tracked == {} && AfterDeletion(r, s).keys == KeysOf(r.seen.dest)
  {
  }

  /** The run vouches for a UID: it saw the event on the source, and put it with success or found equal tags. */
  ghost predicate Vouched(r: Run, s: State, uid: string) {
    exists i :: 0 <= i < |r.seen.source| && VouchedAt(r, s, uid, i)
  }

  ghost predicate VouchedAt(r: Run, s: State, uid: string, i: nat)
    requires i < |r.seen.source|
  {
    var kind := KindOf(PushUpTo(r, s, i), r.seen.source[i], r.seen.destCalendar, r.answers.push(i));
    r.seen.source[i].uid == uid && (kind.Created? || kind.Updated? || kind.Unchanged?)
  }

  /** For an event with a UID, a put is reported done just when there is nothing to write or the server stores it. */
  lemma DoneMeansStored(calendar: string, e: Event, reply: PutReply)
    requires e.uid != ""
    ensures OutcomeOf(calendar, e, "", reply).Done? <==> e.data == "" || reply.Stored?
  {
  }

  /** What the caller learns of a put of an event with a UID. */
  lemma OutcomeMeans(calendar: string, e: Event, reply: PutReply)
    requires e.uid != ""
    ensures OutcomeOf(calendar, e, "", reply)
         == if e.data == "" || reply.Stored? then Done
            else if reply.AlreadyExists? then ExistsError
            else if reply.Forbidden? then ForbiddenError
            else OtherError
  {
  }

  /** Vouching in terms of the calls: the event was put and the put was stored or had nothing to write, or it was not
      put because the listed resource with its UID has the same tag. */
  lemma VouchedAtIff(r: Run, s: State, uid: string, i: nat)
    requires i < |r.seen.source|
    ensures
      var w, e := PushUpTo(r, s, i), r.seen.source[i];
      VouchedAt(r, s, uid, i) == (
        && e.uid == uid != ""
        && (if PutFor(w, e).Some? then e.data == "" || r.answers.push(i).Stored?
            else uid in w.destMap && w.destMap[uid].etag == e.etag))
  {
    hide PushUpTo, OutcomeOf;
    var w, e, reply := PushUpTo(r, s, i), r.seen.source[i], r.answers.push(i);
    if e.uid != "" {
      DoneMeansStored(r.seen.destCalendar, e, reply);
      if e.uid in w.destMap {
        DoneMeansStored(r.seen.destCalendar, e.(path := w.destMap[e.uid].path), reply);
      }
    }
  }

  /** The UIDs tracked for the record table are exactly those the run vouches for. */
  lemma {:induction false} TrackedIsVouched(r: Run, s: State, n: nat)
    requires n <= |r.seen.source|
    ensures forall u :: u in PushUpTo(r, s, n).tracked <==> exists i :: 0 <= i < n && VouchedAt(r, s, u, i)
  {
    hide AfterDeletion, OutcomeOf, ByUid, PushOne, KindOf;
    DeletionShrinksMaps(r, s);
    if n > 0 {
      TrackedIsVouched(r, s, n - 1);
      var w, e := PushUpTo(r, s, n - 1), r.seen.source[n - 1];
      PushStep(w, e, r.seen.destCalendar, r.answers.push(n - 1));
      assert PushUpTo(r, s, n) == PushOne(w, e, r.seen.destCalendar, r.answers.push(n - 1));
      hide PushUpTo;
      forall u
        ensures u in PushUpTo(r, s, n).tracked <==> exists i :: 0 <= i < n && VouchedAt(r, s, u, i)
      {
        assert u in PushUpTo(r, s, n).tracked <==> u in w.tracked || VouchedAt(r, s, u, n - 1);
      }
    }
  }

  // ---- The source side ----

  /** UIDs whose source event the deletion phase asked to delete, with success. */
  function SourceDeletions(r: Run, s: State): set<string> {
    var w, prev := Begin(r, s), Previous(r, s);
    if DeletionEnabled(r, prev, w.destMap)
    then WithVerdict(w, prev, Threshold(r), prev.Keys, DropFromSource) - r.answers.sourceDeleteFails
    else {}
  }

  lemma {:induction false} PushLeavesSource(w: Work, events: seq<Event>, calendar: string, replies: nat -> PutReply,
                                            n: nat)
    requires n <= |events|
    ensures Push(w, events, calendar, replies, n).source == w.source
    ensures Push(w, events, calendar, replies, n).sourceMap == w.sourceMap
    ensures Push(w, events, calendar, replies, n).records == w.records
  {
    hide PushOne;
    if n > 0 {
      PushLeavesSource(w, events, calendar, replies, n - 1);
      PushStep(Push(w, events, calendar, replies, n - 1), events[n - 1], calendar, replies(n - 1));
    }
  }

  ghost predicate UidsWithin(store: Store, uids: set<string>) {
    forall p :: p in store ==> store[p].uid in uids
  }

  /** Pushing back keeps every path, writes only UIDs of the source map, and touches nothing but the source. */
  lemma {:induction false} PushBackOverwrites(w: Work, cfg: Config, events: seq<Event>, replies: nat -> PutReply,
                                              n: nat,
                                              uids: set<string>)
    requires n <= |events| && w.sourceMap.Keys <= uids && UidsWithin(w.source, uids)
    ensures
      var w' := PushBack(w, cfg, events, replies, n);
      && UidsWithin(w'.source, uids) && w.source.Keys <= w'.source.Keys
      && (!cfg.strategy.DestWins? ==> w'.source == w.source)
      && w' == w.(source := w'.source, result := w'.result)
  {
    hide OutcomeOf;
    if n > 0 {
      PushBackOverwrites(w, cfg, events, replies, n - 1, uids);
    }
  }

  function UidsOf(store: Store): set<string> {
    set p | p in store :: store[p].uid
  }

  ghost predicate ShowsOnly(events: seq<Event>, store: Store) {
    forall e :: e in events ==> e.path in store && store[e.path] == e
  }

  lemma UidsAreWithin(store: Store, uids: set<string>)
    requires UidsWithin(store, uids)
    ensures UidsOf(store) <= uids
  {
  }

  lemma KeptUids(store: Store, gone: set<string>)
    ensures UidsWithin(store - gone, UidsOf(store))
  {
  }

  lemma ListedUids(events: seq<Event>, store: Store)
    requires ShowsOnly(events, store)
    ensures ByUid(events).Keys <= UidsOf(store)
  {
    ByUidShows(events);
    forall u | u in ByUid(events)
      ensures u in UidsOf(store)
    {
      assert store[ByUid(events)[u].path].uid == u;
    }
  }

  lemma OnlyDestChanges(w: Work, a: Answers, among: set<string>, events: seq<Event>, keys: set<string>)
    ensures DropOrphans(w, a, among)
      == w.(dest := DropOrphans(w, a, among).dest, result := DropOrphans(w, a, among).result)
    ensures Cleanup(w, a, events, keys)
      == w.(dest := Cleanup(w, a, events, keys).dest, result := Cleanup(w, a, events, keys).result)
  {
    hide PathsOf, Doomed;
  }

  lemma NothingAfterPushBack(r: Run, s: State)
    ensures AfterOrphans(r, s).sourceMap == AfterPushBack(r, s).sourceMap
    ensures After(r, s).source == AfterPushBack(r, s).source
    ensures After(r, s).records == Stamp(AfterPushBack(r, s).records, r.answers, AfterPushBack(r, s).tracked)
  {
    hide AfterPushBack, DropOrphans, Cleanup, KeysOf, Stamp;
    var w := AfterPushBack(r, s);
    OnlyDestChanges(w, r.answers, w.destMap.Keys, [], {});
    match r.seen.recheck
    case None =>
    case Some(events) => OnlyDestChanges(AfterOrphans(r, s), r.answers, {}, events, KeysOf(events));
  }

  lemma SourceAfterPush(r: Run, s: State)
    ensures AfterPush(r, s).source == s.source - PathsOf(SourceDeletions(r, s), ByUid(r.seen.source))
    ensures AfterPush(r, s).sourceMap.Keys <= ByUid(r.seen.source).Keys
  {
    hide Push, ByUid, KeysOf;
    PushLeavesSource(AfterDeletion(r, s), r.seen.source, r.seen.destCalendar, r.answers.push, |r.seen.source|);
    assert s.source - {} == s.source;
    assert PathsOf({}, ByUid(r.seen.source)) == {};
  }

  /** What a run may do to the source calendar: a one-way run leaves it alone, no run brings in a UID, and a path goes
      away only when the deletion phase deletes it. */
  lemma SourceFate(r: Run, s: State)
    requires ShowsOnly(r.seen.source, s.source)
    ensures r.cfg.direction.OneWay? ==> After(r, s).source == s.source
    ensures UidsOf(After(r, s).source) <= UidsOf(s.source)
    ensures s.source.Keys - PathsOf(SourceDeletions(r, s), ByUid(r.seen.source)) <= After(r, s).source.Keys
  {
    hide After, AfterPush, SourceDeletions, PushBack, PathsOf, ByUid, UidsOf;
    SourceAfterPush(r, s);
    NothingAfterPushBack(r, s);
    ByUidShows(r.seen.source);
    var w := AfterPush(r, s);
    var uids := UidsOf(s.source);
    ListedUids(r.seen.source, s.source);
    assert UidsWithin(w.source, uids) by {
      KeptUids(s.source, PathsOf(SourceDeletions(r, s), ByUid(r.seen.source)));
    }
    PushBackOverwrites(w, r.cfg, r.seen.dest, r.answers.pushBack, |r.seen.dest|, uids);
    UidsAreWithin(AfterPushBack(r, s).source, uids);
    if r.cfg.direction.OneWay? {
      NoSourceDeletions(r, s);
    }
  }

  lemma NoSourceDeletions(r: Run, s: State)
    requires r.cfg.direction.OneWay?
    ensures s.source - PathsOf(SourceDeletions(r, s), ByUid(r.seen.source)) == s.source
  {
  }

  /** When a path disappears from the source: in two-way mode only, while the destination shows some UID but not this
      one, and for a record that is at least one sync interval old. */
  lemma SourceDeletionIsGuarded(r: Run, s: State, path: string) returns (uid: string)
    requires ShowsOnly(r.seen.source, s.source)
    requires path in s.source && path !in After(r, s).source
    ensures r.cfg.direction.TwoWay?
    ensures uid in s.records && s.records[uid] <= r.seen.now - r.cfg.interval && !r.answers.recordsUnread
    ensures exists e :: e in r.seen.source && e.uid == uid && e.path == path
    ensures exists d :: d in r.seen.dest && d.uid != ""
    ensures forall d :: d in r.seen.dest ==> d.uid != uid
  {
    hide Finish, ByUid, KeysOf;
    SourceFate(r, s);
    ByUidShows(r.seen.source);
    ByUidShows(r.seen.dest);
    assert path in PathsOf(SourceDeletions(r, s), ByUid(r.seen.source));
    uid :| uid in SourceDeletions(r, s) && uid in ByUid(r.seen.source) && ByUid(r.seen.source)[uid].path == path;
    assert Previous(r, s) != map[];
    var other :| other in ByUid(r.seen.dest);
  }

  // ---- Records ----

  lemma RecordsAtEnd(r: Run, s: State)
    ensures After(r, s).records == Stamp(AfterPush(r, s).records, r.answers, AfterPush(r, s).tracked)
    ensures SubRecords(AfterPush(r, s).records, s.records)
  {
    hide After, AfterDeletion, Push, PushBack, Stamp;
    NothingAfterPushBack(r, s);
    PushLeavesSource(AfterDeletion(r, s), r.seen.source, r.seen.destCalendar, r.answers.push, |r.seen.source|);
    DeletionShrinksRecords(r, s);
    PushBackKeepsRecords(AfterPush(r, s), r.cfg, r.seen.dest, r.answers.pushBack, |r.seen.dest|);
  }

  ghost predicate SubRecords(m: Records, n: Records) {
    forall u :: u in m ==> u in n && m[u] == n[u]
  }

  lemma DeletionShrinksRecords(r: Run, s: State)
    ensures SubRecords(AfterDeletion(r, s).records, s.records)
  {
    hide WithVerdict, PathsOf, ByUid, KeysOf;
  }

  lemma {:induction false} PushBackKeepsRecords(w: Work, cfg: Config, events: seq<Event>, replies: nat -> PutReply,
                                                n: nat)
    requires n <= |events|
    ensures
      var w' := PushBack(w, cfg, events, replies, n);
      w'.records == w.records && w'.tracked == w.tracked && w'.dest == w.dest
      && w'.destMap == w.destMap && w'.sourceMap == w.sourceMap
  {
    hide OutcomeOf, PutInto;
    if n > 0 {
      PushBackKeepsRecords(w, cfg, events, replies, n - 1);
    }
  }

  /** A record after a run is an old one, or one stamped in this run for a UID the run vouches for; and every UID it
      vouches for is stamped unless that write fails. */
  lemma RecordsFate(r: Run, s: State, uid: string)
    ensures uid in After(r, s).records && !(Vouched(r, s, uid) && uid !in r.answers.stampFails) ==>
      uid in s.records && After(r, s).records[uid] == s.records[uid]
    ensures Vouched(r, s, uid) && uid !in r.answers.stampFails ==>
      uid in After(r, s).records && After(r, s).records[uid] == r.answers.stamp(uid)
  {
    hide After, PushUpTo, VouchedAt;
    RecordsAtEnd(r, s);
    TrackedIsVouched(r, s, |r.seen.source|);
  }
}
