/** What the push loop creates and counts, for any source list, any answers, and from any state of the maps. */
module PushPhase {
  import opened CalendarData
  import opened Reconcile
  import RunFacts

  /** What happens to the event at position `i`. */
  function KindAt(w: Work, events: seq<Event>, calendar: string, replies: nat -> PutReply, i: nat): PushKind
    requires i < |events|
  {
    KindOf(Push(w, events, calendar, replies, i), events[i], calendar, replies(i))
  }

  /** How many of the first `n` events meet with the given kind. */
  function Count(w: Work, events: seq<Event>, calendar: string, replies: nat -> PutReply, n: nat, kind: PushKind): nat
    requires n <= |events|
  {
    if n == 0 then 0
    else Count(w, events, calendar, replies, n - 1, kind)
         + if KindAt(w, events, calendar, replies, n - 1) == kind then 1 else 0
  }

  function CountWithUid(events: seq<Event>): nat {
    if events == [] then 0
    else CountWithUid(events[..|events| - 1]) + if events[|events| - 1].uid != "" then 1 else 0
  }

  /** The kinds in terms of the call: what is put is created or updated when the put is stored or has nothing to
      write. */
  lemma KindIs(w: Work, e: Event, calendar: string, reply: PutReply)
    ensures
      var ok := e.data == "" || reply.Stored?;
      KindOf(w, e, calendar, reply)
      == if e.uid == "" then NoUid
         else if e.uid in w.destMap then
           (if e.etag == w.destMap[e.uid].etag then Unchanged else if ok then Updated else UpdateFailed)
         else if e.DedupeKey() != BLANK_KEY && e.DedupeKey() in w.keys then Skipped
         else if ok then Created else CreateFailed
  {
    hide OutcomeOf;
    if e.uid != "" {
      RunFacts.DoneMeansStored(calendar, e, reply);
      if e.uid in w.destMap {
        RunFacts.DoneMeansStored(calendar, e.(path := w.destMap[e.uid].path), reply);
      }
    }
  }

  lemma StepCounts(w: Work, e: Event, calendar: string, reply: PutReply)
    ensures
      var kind, res, res' := KindOf(w, e, calendar, reply), w.result, PushOne(w, e, calendar, reply).result;
      && res' == res.(created := res'.created, skipped := res'.skipped, updated := res'.updated,
                      warnings := res'.warnings, processed := res'.processed)
      && res'.created == res.created + (if kind.Created? then 1 else 0)
      && res'.skipped == res.skipped + (if kind.Skipped? then 1 else 0)
      && res'.updated == res.updated + (if kind.Updated? then 1 else 0)
      && res'.warnings == res.warnings + (if kind.CreateFailed? || kind.UpdateFailed? then 1 else 0)
      && res'.processed == res.processed + (if kind.NoUid? then 0 else 1)
      && (kind.NoUid? <==> e.uid == "")
  {
    hide PutInto, OutcomeOf;
  }

  /** Every event with a UID is processed once, and each counter counts its kind. */
  lemma {:induction false} PushAccounts(w: Work, events: seq<Event>, calendar: string, replies: nat -> PutReply, n: nat)
    requires n <= |events|
    ensures
      var res, res' := w.result, Push(w, events, calendar, replies, n).result;
      var count := (k: PushKind) => Count(w, events, calendar, replies, n, k);
      && res'.created == res.created + count(Created)
      && res'.skipped == res.skipped + count(Skipped)
      && res'.updated == res.updated + count(Updated)
      && res'.warnings == res.warnings + count(CreateFailed) + count(UpdateFailed)
      && res'.processed == res.processed + CountWithUid(events[..n])
      && res'.deleted == res.deleted && res'.duplicatesRemoved == res.duplicatesRemoved && res'.errors == res.errors
  {
    hide PushOne, KindOf;
    if n > 0 {
      PushAccounts(w, events, calendar, replies, n - 1);
      StepCounts(Push(w, events, calendar, replies, n - 1), events[n - 1], calendar, replies(n - 1));
      assert events[..n][..n - 1] == events[..n - 1];
    }
  }

  /** Every event with a UID meets with exactly one of the six kinds. */
  lemma {:induction false} KindsAddUp(w: Work, events: seq<Event>, calendar: string, replies: nat -> PutReply, n: nat)
    requires n <= |events|
    ensures
      var count := (k: PushKind) => Count(w, events, calendar, replies, n, k);
      CountWithUid(events[..n]) == count(Created) + count(Skipped) + count(Updated) + count(Unchanged)
                                   + count(CreateFailed) + count(UpdateFailed)
  {
    hide Push, KindOf;
    if n > 0 {
      KindsAddUp(w, events, calendar, replies, n - 1);
      StepCounts(Push(w, events, calendar, replies, n - 1), events[n - 1], calendar, replies(n - 1));
      assert events[..n][..n - 1] == events[..n - 1];
    }
  }

  lemma DeletionCounts(r: Run, s: State)
    ensures
      var res := AfterDeletion(r, s).result;
      res == NO_RESULT.(deleted := res.deleted, warnings := res.warnings)
  {
    hide WithVerdict, PathsOf, ByUid, KeysOf;
  }

  lemma {:induction false} PushBackCounts(w: Work, cfg: Config, events: seq<Event>, replies: nat -> PutReply, n: nat)
    requires n <= |events|
    ensures
      var res, res' := w.result, PushBack(w, cfg, events, replies, n).result;
      res' == res.(updated := res'.updated, warnings := res'.warnings)
  {
    hide OutcomeOf, PutInto;
    if n > 0 {
      PushBackCounts(w, cfg, events, replies, n - 1);
    }
  }

  lemma LatePhasesCount(r: Run, s: State)
    ensures
      var res, res' := AfterPushBack(r, s).result, Finish(r, s).result;
      res' == res.(deleted := res'.deleted, warnings := res'.warnings, duplicatesRemoved := res'.duplicatesRemoved)
  {
    hide AfterPushBack, PathsOf, Doomed, KeysOf, Stamp;
  }

  /** The counters of a whole run: every source event with a UID is processed, and is exactly one of created, skipped,
      updated, unchanged or failed. */
  lemma RunAccounts(r: Run, s: State)
    ensures
      var res := Finish(r, s).result;
      var count := (k: PushKind) => Count(AfterDeletion(r, s), r.seen.source, r.seen.destCalendar, r.answers.push,
        |r.seen.source|, k);
      && res.processed == CountWithUid(r.seen.source)
      && res.created == count(Created) && res.skipped == count(Skipped)
      && res.processed == res.created + res.skipped + count(Updated) + count(Unchanged)
                          + (count(CreateFailed) + count(UpdateFailed))
      && res.updated >= count(Updated) && res.errors == 0
  {
    hide Finish, AfterDeletion, Push, PushBack, Count;
    DeletionCounts(r, s);
    PushAccounts(AfterDeletion(r, s), r.seen.source, r.seen.destCalendar, r.answers.push, |r.seen.source|);
    KindsAddUp(AfterDeletion(r, s), r.seen.source, r.seen.destCalendar, r.answers.push, |r.seen.source|);
    assert r.seen.source[..|r.seen.source|] == r.seen.source;
    PushBackCounts(AfterPush(r, s), r.cfg, r.seen.dest, r.answers.pushBack, |r.seen.dest|);
    PushBackAdds(AfterPush(r, s), r.cfg, r.seen.dest, r.answers.pushBack, |r.seen.dest|);
    LatePhasesCount(r, s);
  }

  lemma {:induction false} PushBackAdds(w: Work, cfg: Config, events: seq<Event>, replies: nat -> PutReply, n: nat)
    requires n <= |events|
    ensures PushBack(w, cfg, events, replies, n).result.updated >= w.result.updated
  {
    hide OutcomeOf, PutInto;
    if n > 0 {
      PushBackAdds(w, cfg, events, replies, n - 1);
    }
  }

  lemma {:induction false} KeysGrow(w: Work, events: seq<Event>, calendar: string, replies: nat -> PutReply, m: nat,
                                    n: nat)
    requires m <= n <= |events|
    ensures Push(w, events, calendar, replies, m).keys <= Push(w, events, calendar, replies, n).keys
    decreases n
  {
    hide PushOne, KindOf;
    if m < n {
      KeysGrow(w, events, calendar, replies, m, n - 1);
      RunFacts.PushStep(Push(w, events, calendar, replies, n - 1), events[n - 1], calendar, replies(n - 1));
    }
  }

  /** The run creates, or reports to have created, the source event at position `i`. */
  ghost predicate CreatesAt(r: Run, s: State, i: nat)
    requires i < |r.seen.source|
  {
    KindAt(AfterDeletion(r, s), r.seen.source, r.seen.destCalendar, r.answers.push, i).Created?
  }

  /** Whatever fails, the events a run creates have pairwise different non-blank keys, none of them a key of the
      destination listing. */
  lemma CreationsAreDistinct(r: Run, s: State, i: nat, j: nat)
    requires i <= j < |r.seen.source|
    requires CreatesAt(r, s, i) && CreatesAt(r, s, j)
    requires r.seen.source[i].DedupeKey() != BLANK_KEY
    ensures r.seen.source[i].DedupeKey() !in KeysOf(r.seen.dest)
    ensures i < j ==> r.seen.source[i].DedupeKey() != r.seen.source[j].DedupeKey()
  {
    hide PushOne, AfterDeletion, KeysOf, OutcomeOf;
    var w, src, cal, replies := AfterDeletion(r, s), r.seen.source, r.seen.destCalendar, r.answers.push;
    RunFacts.DeletionShrinksMaps(r, s);
    KeysGrow(w, src, cal, replies, 0, i);
    if i < j {
      RunFacts.PushStep(Push(w, src, cal, replies, i), src[i], cal, replies(i));
      KeysGrow(w, src, cal, replies, i + 1, j);
    }
  }
}
