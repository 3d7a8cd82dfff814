/** What one full synchronisation of one calendar does (`fullSync`, internal/caldav/sync.go), phase by phase, as
    functions of the two collections, the record table, and everything the environment decides. */
module Reconcile {
  import opened CalendarData

  datatype Direction = OneWay | TwoWay

  datatype Strategy = SourceWins | DestWins | LatestWins

  datatype Config = Config(direction: Direction, strategy: Strategy, interval: int, calendar: string)

  /** The synced_events rows of one source calendar: UID to updated_at. */
  type Records = map<string, int>

  type EventMap = map<string, Event>

  datatype Result = Result(created: nat, updated: nat, deleted: nat, skipped: nat, duplicatesRemoved: nat,
                           processed: nat, warnings: nat, errors: nat)

  const NO_RESULT := Result(0, 0, 0, 0, 0, 0, 0, 0)

  /** Answers to the calls of one run. Each call of a map-range loop is named by the UID (or, in the duplicate clean-up,
      the path) it is made for, each call of a slice loop by its index. */
  datatype Answers = Answers(
    recordsUnread: bool,
    destDeleteFails: set<string>,
    sourceDeleteFails: set<string>,
    forgetFails: set<string>,
    push: nat -> PutReply,
    pushBack: nat -> PutReply,
    orphanFails: set<string>,
    cleanupFails: set<string>,
    stampFails: set<string>,
    stamp: string -> int)

  /** What the run gets to see: the listings after the date window, and the clock reading behind the safety threshold.
      */
  datatype Seen = Seen(source: seq<Event>, dest: seq<Event>, recheck: Option<seq<Event>>,
    destCalendar: string, now: int)

  datatype Run = Run(cfg: Config, answers: Answers, seen: Seen)

  /** What outlives a run. */
  datatype State = State(source: Store, dest: Store, records: Records)

  /** A run in progress: the persistent state and the run's own maps. */
  datatype Work = Work(
    source: Store,
    dest: Store,
    records: Records,
    sourceMap: EventMap,
    destMap: EventMap,
    keys: set<string>,
    tracked: set<string>,
    result: Result)
  {
    function Warn(): Work {
      this.(result := result.(warnings := result.warnings + 1))
    }
  }

  // ---- Set-up ----

  /** Events by UID; a later event with the same UID replaces an earlier one. */
  function ByUid(events: seq<Event>): EventMap {
    if events == [] then map[]
    else
      var last := events[|events| - 1];
      var before := ByUid(events[..|events| - 1]);
      if last.uid == "" then before else before[last.uid := last]
  }

  function KeysOf(events: seq<Event>): set<string> {
    set e | e in events && e.DedupeKey() != BLANK_KEY :: e.DedupeKey()
  }

  function Previous(r: Run, s: State): Records {
    if r.answers.recordsUnread then map[] else s.records
  }

  function Begin(r: Run, s: State): Work {
    Work(s.source, s.dest, s.records, ByUid(r.seen.source), ByUid(r.seen.dest), KeysOf(r.seen.dest), {}, NO_RESULT)
  }

  function Threshold(r: Run): int {
    r.seen.now - r.cfg.interval
  }

  // ---- Phase 1: deletions (two-way) ----

  datatype Verdict = DropFromDest | DropFromSource | WaitForSafety | ForgetRecord | KeepBoth

  function Decide(onSource: bool, onDest: bool, recent: bool): Verdict {
    if !onSource && onDest then DropFromDest
    else if onSource && !onDest then (if recent then WaitForSafety else DropFromSource)
    else if !onSource && !onDest then ForgetRecord
    else KeepBoth
  }

  /** Deletions are looked for in two-way mode, unless the destination shows no UID at all while records exist. */
  predicate DeletionEnabled(r: Run, prev: Records, destMap: EventMap) {
    r.cfg.direction.TwoWay? && !(destMap == map[] && prev != map[])
  }

  function Forget(records: Records, a: Answers, uid: string): Records {
    if uid in a.forgetFails then records else records - {uid}
  }

  /** The body of the deletion loop for one record. */
  function DeleteOne(w: Work, a: Answers, prev: Records, threshold: int, uid: string): Work
    requires uid in prev
  {
    match Decide(uid in w.sourceMap, uid in w.destMap, prev[uid] > threshold)
    case DropFromDest =>
      var w' := w.(records := Forget(w.records, a, uid), destMap := w.destMap - {uid});
      if uid in a.destDeleteFails then w'.Warn()
      else w'.(dest := w.dest - {w.destMap[uid].path}, result := w.result.(deleted := w.result.deleted + 1))
    case DropFromSource =>
      var w' := w.(records := Forget(w.records, a, uid), sourceMap := w.sourceMap - {uid});
      if uid in a.sourceDeleteFails then w'.Warn()
      else w'.(source := w.source - {w.sourceMap[uid].path}, result := w.result.(deleted := w.result.deleted + 1))
    case WaitForSafety => w
    case ForgetRecord => w.(records := Forget(w.records, a, uid))
    case KeepBoth => w
  }

  /** The deletion loop when it visits the records in the given order. */
  function DeleteInOrder(w: Work, a: Answers, prev: Records, threshold: int, order: seq<string>): Work
    requires forall u :: u in order ==> u in prev
  {
    if order == [] then w
    else
      DeleteOne(DeleteInOrder(w, a, prev, threshold, order[..|order| - 1]), a, prev, threshold, order[|order| - 1])
  }

  function VerdictOn(w: Work, prev: Records, threshold: int, uid: string): Verdict
    requires uid in prev
  {
    Decide(uid in w.sourceMap, uid in w.destMap, prev[uid] > threshold)
  }

  function WithVerdict(w: Work, prev: Records, threshold: int, among: set<string>, v: Verdict): (r: set<string>)
    ensures v.DropFromDest? ==> forall u :: u in r ==> u in w.destMap && u !in w.sourceMap
    ensures v.DropFromSource? ==> forall u :: u in r ==> u in w.sourceMap && u !in w.destMap
  {
    set u | u in among && u in prev && VerdictOn(w, prev, threshold, u) == v
  }

  function PathsOf(uids: set<string>, events: EventMap): set<string> {
    set u | u in uids && u in events :: events[u].path
  }

  /** The three kinds of deletion applied to whole sets of records at once. */
  function Apply(w: Work, a: Answers, onDest: set<string>, onSource: set<string>, stale: set<string>): Work {
    w.(dest := w.dest - PathsOf(onDest - a.destDeleteFails, w.destMap),
       source := w.source - PathsOf(onSource - a.sourceDeleteFails, w.sourceMap),
       records := w.records - (onDest + onSource + stale - a.forgetFails),
       destMap := w.destMap - onDest,
       sourceMap := w.sourceMap - onSource,
       result := w.result.(
         deleted := w.result.deleted + |onDest - a.destDeleteFails| + |onSource - a.sourceDeleteFails|,
         warnings := w.result.warnings + |onDest * a.destDeleteFails| + |onSource * a.sourceDeleteFails|))
  }

  /** The deletion phase as a decision table: what happens to a record depends on that record alone. */
  function DeletionTable(w: Work, a: Answers, prev: Records, threshold: int, among: set<string>): Work {
    Apply(w, a,
          WithVerdict(w, prev, threshold, among, DropFromDest),
          WithVerdict(w, prev, threshold, among, DropFromSource),
          WithVerdict(w, prev, threshold, among, ForgetRecord))
  }

  function AfterDeletion(r: Run, s: State): Work {
    var w, prev := Begin(r, s), Previous(r, s);
    if DeletionEnabled(r, prev, w.destMap) then DeletionTable(w, r.answers, prev, Threshold(r), prev.Keys) else w
  }

  // ---- Phase 2: push source events to the destination ----

  datatype PushKind = NoUid | Skipped | Created | CreateFailed | Updated | UpdateFailed | Unchanged

  function KindOf(w: Work, e: Event, calendar: string, reply: PutReply): PushKind {
    if e.uid == "" then NoUid
    else if e.uid !in w.destMap then
      if e.DedupeKey() != BLANK_KEY && e.DedupeKey() in w.keys then Skipped
      else if OutcomeOf(calendar, e, "", reply).Done? then Created else CreateFailed
    else if e.etag != w.destMap[e.uid].etag then
      if OutcomeOf(calendar, e.(path := w.destMap[e.uid].path), "", reply).Done? then Updated else UpdateFailed
    else Unchanged
  }

  /** The body of the push loop for one source event. */
  function PushOne(w: Work, e: Event, calendar: string, reply: PutReply): Work {
    var res := w.result.(processed := w.result.processed + 1);
    match KindOf(w, e, calendar, reply)
    case NoUid => w
    case Skipped => w.(result := res.(skipped := res.skipped + 1))
    case Created =>
      w.(dest := PutInto(w.dest, calendar, e, "", reply),
         keys := if e.DedupeKey() != BLANK_KEY then w.keys + {e.DedupeKey()} else w.keys,
         tracked := w.tracked + {e.uid},
         destMap := w.destMap - {e.uid},
         result := res.(created := res.created + 1))
    case CreateFailed => w.(destMap := w.destMap - {e.uid}, result := res.(warnings := res.warnings + 1))
    case Updated =>
      w.(dest := PutInto(w.dest, calendar, e.(path := w.destMap[e.uid].path), "", reply),
         tracked := w.tracked + {e.uid},
         destMap := w.destMap - {e.uid},
         result := res.(updated := res.updated + 1))
    case UpdateFailed => w.(destMap := w.destMap - {e.uid}, result := res.(warnings := res.warnings + 1))
    case Unchanged => w.(tracked := w.tracked + {e.uid}, destMap := w.destMap - {e.uid}, result := res)
  }

  /** The push loop after its first `n` iterations. */
  function Push(w: Work, events: seq<Event>, calendar: string, replies: nat -> PutReply, n: nat): Work
    requires n <= |events|
  {
    if n == 0 then w else PushOne(Push(w, events, calendar, replies, n - 1), events[n - 1], calendar, replies(n - 1))
  }

  function PushUpTo(r: Run, s: State, n: nat): Work
    requires n <= |r.seen.source|
  {
    Push(AfterDeletion(r, s), r.seen.source, r.seen.destCalendar, r.answers.push, n)
  }

  function AfterPush(r: Run, s: State): Work {
    PushUpTo(r, s, |r.seen.source|)
  }

  // ---- Phase 3: push destination events back (two-way) ----

  function PushBackOne(w: Work, cfg: Config, d: Event, reply: PutReply): Work {
    if d.uid == "" || d.uid !in w.sourceMap || d.etag == w.sourceMap[d.uid].etag || !cfg.strategy.DestWins? then w
    else
      var e := d.(path := w.sourceMap[d.uid].path);
      match OutcomeOf(cfg.calendar, e, "", reply)
      case Done =>
        w.(source := PutInto(w.source, cfg.calendar, e, "", reply),
           result := w.result.(updated := w.result.updated + 1))
      case OtherError => w.Warn()
      case _ => w
  }

  function PushBack(w: Work, cfg: Config, events: seq<Event>, replies: nat -> PutReply, n: nat): Work
    requires n <= |events|
  {
    if n == 0 then w else PushBackOne(PushBack(w, cfg, events, replies, n - 1), cfg, events[n - 1], replies(n - 1))
  }

  function AfterPushBack(r: Run, s: State): Work {
    var w := AfterPush(r, s);
    if r.cfg.direction.TwoWay? then PushBack(w, r.cfg, r.seen.dest, r.answers.pushBack, |r.seen.dest|) else w
  }

  // ---- Phase 4: orphans on the destination (one-way, source wins) ----

  predicate OrphansEnabled(cfg: Config) {
    cfg.direction.OneWay? && cfg.strategy.SourceWins?
  }

  /** The body of the orphan loop for one leftover destination event. */
  function OrphanOne(w: Work, a: Answers, uid: string): Work
    requires uid in w.destMap
  {
    if uid in a.orphanFails then w.Warn()
    else w.(dest := w.dest - {w.destMap[uid].path}, result := w.result.(deleted := w.result.deleted + 1))
  }

  function DropOrphans(w: Work, a: Answers, among: set<string>): Work {
    var doomed := w.destMap.Keys * among;
    w.(dest := w.dest - PathsOf(doomed - a.orphanFails, w.destMap),
       result := w.result.(deleted := w.result.deleted + |doomed - a.orphanFails|,
                           warnings := w.result.warnings + |doomed * a.orphanFails|))
  }

  function AfterOrphans(r: Run, s: State): Work {
    var w := AfterPushBack(r, s);
    if OrphansEnabled(r.cfg) then DropOrphans(w, r.answers, w.destMap.Keys) else w
  }

  // ---- Phase 5: duplicate clean-up on the destination ----

  function Group(events: seq<Event>, key: string): (g: seq<Event>)
    ensures forall e :: e in g <==> e in events && e.DedupeKey() == key
  {
    if events == [] then []
    else
      var last := events[|events| - 1];
      assert events == events[..|events| - 1] + [last];
      Group(events[..|events| - 1], key) + if last.DedupeKey() == key then [last] else []
  }

  /** Position in a group of the event to keep: the first that is on the source, otherwise the first. */
  function KeepIndex(group: seq<Event>, sourceUids: set<string>): (i: nat)
    requires group != []
    ensures i < |group|
    ensures forall j :: 0 <= j < i ==> group[j].uid !in sourceUids
    ensures group[i].uid in sourceUids || (i == 0 && forall j :: 0 <= j < |group| ==> group[j].uid !in sourceUids)
  {
    FirstOnSource(group, sourceUids, 0)
  }

  function FirstOnSource(group: seq<Event>, sourceUids: set<string>, from: nat): (i: nat)
    requires from <= |group| && group != []
    requires forall j :: 0 <= j < from ==> group[j].uid !in sourceUids
    ensures i < |group|
    ensures forall j :: 0 <= j < i ==> group[j].uid !in sourceUids
    ensures group[i].uid in sourceUids || (i == 0 && forall j :: 0 <= j < |group| ==> group[j].uid !in sourceUids)
    decreases |group| - from
  {
    if from == |group| then 0
    else if group[from].uid in sourceUids then from
    else FirstOnSource(group, sourceUids, from + 1)
  }

  function Keeper(events: seq<Event>, sourceUids: set<string>, key: string): Event
    requires Group(events, key) != []
  {
    var g := Group(events, key);
    g[KeepIndex(g, sourceUids)]
  }

  predicate IsDoomed(events: seq<Event>, sourceUids: set<string>, e: Event)
    requires e in events
  {
    assert e in Group(events, e.DedupeKey());
    e.path != Keeper(events, sourceUids, e.DedupeKey()).path
  }

  /** The paths the clean-up tries to delete in the groups with the given keys. */
  function Doomed(events: seq<Event>, sourceUids: set<string>, keys: set<string>): set<string> {
    set e | e in events && e.DedupeKey() in keys && IsDoomed(events, sourceUids, e) :: e.path
  }

  /** The effect of asking for the deletion of one duplicate. */
  function RemoveOne(w: Work, a: Answers, path: string): Work {
    if path in a.cleanupFails then w
    else w.(dest := w.dest - {path}, result := w.result.(duplicatesRemoved := w.result.duplicatesRemoved + 1))
  }

  function RemoveAll(w: Work, a: Answers, paths: set<string>): Work {
    w.(dest := w.dest - (paths - a.cleanupFails),
       result := w.result.(duplicatesRemoved := w.result.duplicatesRemoved + |paths - a.cleanupFails|))
  }

  function Cleanup(w: Work, a: Answers, events: seq<Event>, keys: set<string>): Work {
    RemoveAll(w, a, Doomed(events, w.sourceMap.Keys, keys))
  }

  function AfterCleanup(r: Run, s: State): Work {
    var w := AfterOrphans(r, s);
    match r.seen.recheck
    case None => w
    case Some(events) => Cleanup(w, r.answers, events, KeysOf(events))
  }

  // ---- Records ----

  function Stamp(records: Records, a: Answers, uids: set<string>): Records {
    records + map u | u in uids - a.stampFails :: a.stamp(u)
  }

  function Finish(r: Run, s: State): Work {
    var w := AfterCleanup(r, s);
    w.(records := Stamp(w.records, r.answers, w.tracked))
  }

  function After(r: Run, s: State): State {
    var w := Finish(r, s);
    State(w.source, w.dest, w.records)
  }

  /** The state before run `n` of a series of runs. */
  function StateBefore(s0: State, runs: seq<Run>, n: nat): State
    requires n <= |runs|
  {
    if n == 0 then s0 else After(runs[n - 1], StateBefore(s0, runs, n - 1))
  }
}
