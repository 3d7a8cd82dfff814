/** The WebDAV-Sync path: classifying a sync-collection response (internal/caldav/webdavsync.go) and applying it to the
    destination (`syncCalendar`, internal/caldav/sync.go). */
module DeltaSync {
  import opened CalendarData

  datatype PropStat = PropStat(status: string, etag: string, data: string)

  /** One decoded response element of the multistatus. */
  datatype Response = Response(href: string, status: string, propstat: Option<PropStat>)

  datatype SyncItem = SyncItem(path: string, etag: string, data: string) {
    function AsEvent(): Event {
      Event(path, etag, data, "", "", "")
    }
  }

  datatype SyncReply = SyncReply(token: string, changed: seq<SyncItem>, deleted: seq<string>)

  predicate OccursAt(s: string, part: string, i: int) {
    0 <= i <= |s| - |part| && s[i..i + |part|] == part
  }

  predicate Contains(s: string, part: string) {
    exists i :: 0 <= i <= |s| && OccursAt(s, part, i)
  }

  predicate SaysGone(r: Response) {
    Contains(r.status, "404")
  }

  predicate SaysPresent(r: Response) {
    !SaysGone(r) && r.propstat.Some? && Contains(r.propstat.value.status, "200")
  }

  function ChangedIn(responses: seq<Response>): seq<SyncItem> {
    if responses == [] then []
    else
      var before, r := ChangedIn(responses[..|responses| - 1]), responses[|responses| - 1];
      if SaysPresent(r) then before + [SyncItem(r.href, r.propstat.value.etag, r.propstat.value.data)] else before
  }

  function DeletedIn(responses: seq<Response>): seq<string> {
    if responses == [] then []
    else
      var before, r := DeletedIn(responses[..|responses| - 1]), responses[|responses| - 1];
      if SaysGone(r) then before + [r.href] else before
  }

  lemma ContainsIff(s: string, part: string)
    ensures Contains(s, part) <==> exists before, after :: s == before + part + after
  {
    if Contains(s, part) {
      var i :| 0 <= i <= |s| && OccursAt(s, part, i);
      assert s == s[..i] + part + s[i + |part|..];
    }
    forall before, after | s == before + part + after
      ensures Contains(s, part)
    {
      assert s[|before|..|before| + |part|] == part;
      assert OccursAt(s, part, |before|);
    }
  }

  /** Every response is judged by itself, in order: gone if its status has a 404, changed if it has none and its
      propstat has a 200, otherwise passed over. */
  lemma {:induction false} ResponsesAreJudged(a: seq<Response>, b: seq<Response>)
    ensures ChangedIn(a + b) == ChangedIn(a) + ChangedIn(b) && DeletedIn(a + b) == DeletedIn(a) + DeletedIn(b)
    ensures |b| == 1 ==>
      var r := b[0];
      if Contains(r.status, "404") then ChangedIn(b) == [] && DeletedIn(b) == [r.href]
      else if r.propstat.Some? && Contains(r.propstat.value.status, "200") then
        ChangedIn(b) == [SyncItem(r.href, r.propstat.value.etag, r.propstat.value.data)] && DeletedIn(b) == []
      else ChangedIn(b) == [] && DeletedIn(b) == []
  {
    hide Contains;
    if b == [] {
      assert a + b == a;
    } else {
      assert (a + b)[..|a + b| - 1] == a + b[..|b| - 1];
      ResponsesAreJudged(a, b[..|b| - 1]);
    }
  }

  method ParseSyncResponse(token: string, responses: seq<Response>) returns (reply: SyncReply)
    ensures reply == SyncReply(token, ChangedIn(responses), DeletedIn(responses))
  {
    var changed: seq<SyncItem>, deleted: seq<string> := [], [];
    for i := 0 to |responses|
      invariant changed == ChangedIn(responses[..i]) && deleted == DeletedIn(responses[..i])
    {
      assert responses[..i + 1][..i] == responses[..i];
      var r := responses[i];
      if Contains(r.status, "404") {
        deleted := deleted + [r.href];
        continue;
      }
      if r.propstat.Some? && Contains(r.propstat.value.status, "200") {
        changed := changed + [SyncItem(r.href, r.propstat.value.etag, r.propstat.value.data)];
      }
    }
    assert responses[..|responses|] == responses;
    reply := SyncReply(token, changed, deleted);
  }

  // ---- Applying a reply ----

  /** Answers to the calls of one round, by position in the lists. */
  datatype Answers = Answers(put: nat -> PutReply, embedded: nat -> string, deleteFails: nat -> bool, tokenLost: bool)

  function AfterChanged(store: Store, calendar: string, changed: seq<SyncItem>, a: Answers, n: nat): Store
    requires n <= |changed|
  {
    if n == 0 then store
    else PutInto(AfterChanged(store, calendar, changed, a, n - 1), calendar,
        changed[n - 1].AsEvent(), a.embedded(n - 1), a.put(n - 1))
  }

  function AfterDeleted(store: Store, deleted: seq<string>, a: Answers, n: nat): Store
    requires n <= |deleted|
  {
    if n == 0 then store
    else
      var before := AfterDeleted(store, deleted, a, n - 1);
      if a.deleteFails(n - 1) then before else before - {deleted[n - 1]}
  }

  /** Changes first, deletions second. */
  function AfterDelta(store: Store, calendar: string, reply: SyncReply, a: Answers): Store {
    AfterDeleted(AfterChanged(store, calendar, reply.changed, a, |reply.changed|), reply.deleted, a, |reply.deleted|)
  }

  /** How many of the first `n` items have data, and how many of those puts are reported as done. */
  function NonEmpty(changed: seq<SyncItem>, n: nat): nat
    requires n <= |changed|
  {
    if n == 0 then 0 else NonEmpty(changed, n - 1) + if changed[n - 1].data != "" then 1 else 0
  }

  predicate PutIsDone(calendar: string, item: SyncItem, a: Answers, i: nat) {
    item.data != "" && OutcomeOf(calendar, item.AsEvent(), a.embedded(i), a.put(i)).Done?
  }

  function PutsDone(calendar: string, changed: seq<SyncItem>, a: Answers, n: nat): nat
    requires n <= |changed|
  {
    if n == 0 then 0
    else PutsDone(calendar, changed, a, n - 1) + if PutIsDone(calendar, changed[n - 1], a, n - 1) then 1 else 0
  }

  function Removals(a: Answers, n: nat): nat {
    if n == 0 then 0 else Removals(a, n - 1) + if a.deleteFails(n - 1) then 0 else 1
  }

  function ItemsWithData(changed: seq<SyncItem>, n: nat): set<nat>
    requires n <= |changed|
  {
    set i: nat | i < n && changed[i].data != ""
  }

  /** The put succeeds: of readable data, and either stored or without a UID to name the resource. */
  predicate Succeeds(calendar: string, item: SyncItem, a: Answers, i: nat) {
    && item.data != "" && !a.put(i).Unparsable?
    && (a.put(i).Stored? || (a.embedded(i) == "" && (item.path == "" || !(calendar <= item.path))))
  }

  lemma DoneIffSucceeds(calendar: string, item: SyncItem, a: Answers, i: nat)
    ensures PutIsDone(calendar, item, a, i) <==> Succeeds(calendar, item, a, i)
  {
  }

  function ItemsDone(calendar: string, changed: seq<SyncItem>, a: Answers, n: nat): set<nat>
    requires n <= |changed|
  {
    set i: nat | i < n && Succeeds(calendar, changed[i], a, i)
  }

  function PathsDeleted(a: Answers, n: nat): set<nat> {
    set i: nat | i < n && !a.deleteFails(i)
  }

  lemma {:induction false} ItemsAreCounted(changed: seq<SyncItem>, n: nat)
    requires n <= |changed|
    ensures NonEmpty(changed, n) == |ItemsWithData(changed, n)|
  {
    if n > 0 {
      ItemsAreCounted(changed, n - 1);
      var k := {n - 1};
      assert ItemsWithData(changed, n) == ItemsWithData(changed, n - 1) + (if changed[n - 1].data != "" then k else {});
    }
  }

  lemma {:induction false} PutsAreCounted(calendar: string, changed: seq<SyncItem>, a: Answers, n: nat)
    requires n <= |changed|
    ensures PutsDone(calendar, changed, a, n) == |ItemsDone(calendar, changed, a, n)|
  {
    hide ItemsDone, PutIsDone;
    if n == 0 {
      NothingDone(calendar, changed, a);
    } else {
      PutsAreCounted(calendar, changed, a, n - 1);
      DoneIffSucceeds(calendar, changed[n - 1], a, n - 1);
      ItemsDoneGrow(calendar, changed, a, n - 1);
    }
  }

  lemma NothingDone(calendar: string, changed: seq<SyncItem>, a: Answers)
    ensures ItemsDone(calendar, changed, a, 0) == {}
  {
  }

  lemma ItemsDoneGrow(calendar: string, changed: seq<SyncItem>, a: Answers, n: nat)
    requires n < |changed|
    ensures |ItemsDone(calendar, changed, a, n + 1)|
         == |ItemsDone(calendar, changed, a, n)| + if Succeeds(calendar, changed[n], a, n) then 1 else 0
  {
    hide Succeeds;
    var before, after := ItemsDone(calendar, changed, a, n), ItemsDone(calendar, changed, a, n + 1);
    if Succeeds(calendar, changed[n], a, n) {
      assert after == before + {n};
    } else {
      assert after == before;
    }
  }

  lemma {:induction false} RemovalsAreCounted(a: Answers, n: nat)
    ensures Removals(a, n) == |PathsDeleted(a, n)|
  {
    if n > 0 {
      RemovalsAreCounted(a, n - 1);
      assert PathsDeleted(a, n) == PathsDeleted(a, n - 1) + (if a.deleteFails(n - 1) then {} else {n - 1});
    }
  }

  class DeltaRun {
    const dest: CalendarClient
    var token: string
    var updated: nat
    var deletions: nat
    var warnings: nat

    constructor (dest: CalendarClient, token: string)
      ensures this.dest == dest && this.token == token && updated == deletions == warnings == 0
    {
      this.dest, this.token := dest, token;
      updated, deletions, warnings := 0, 0, 0;
    }

    /** The reply is applied and its token kept, whatever became of the single puts and deletes; every item with data is
        counted as an update or as a warning. */
    method Apply(calendar: string, reply: SyncReply, a: Answers)
      modifies this, dest
      ensures dest.store == AfterDelta(old(dest.store), calendar, reply, a)
      ensures token == if a.tokenLost then old(token) else reply.token
      ensures updated == old(updated) + PutsDone(calendar, reply.changed, a, |reply.changed|)
      ensures updated + warnings == old(updated + warnings) + NonEmpty(reply.changed, |reply.changed|)
      ensures deletions == old(deletions) + Removals(a, |reply.deleted|)
    {
      PutChanged(calendar, reply.changed, a);
      DeleteGone(reply.deleted, a);
      if !a.tokenLost {
        token := reply.token;
      }
    }

    method PutChanged(calendar: string, changed: seq<SyncItem>, a: Answers)
      modifies this`updated, this`warnings, dest
      ensures dest.store == AfterChanged(old(dest.store), calendar, changed, a, |changed|)
      ensures updated == old(updated) + PutsDone(calendar, changed, a, |changed|)
      ensures updated + warnings == old(updated + warnings) + NonEmpty(changed, |changed|)
    {
      hide OutcomeOf;
      for i := 0 to |changed|
        invariant dest.store == AfterChanged(old(dest.store), calendar, changed, a, i)
        invariant updated == old(updated) + PutsDone(calendar, changed, a, i)
        invariant updated + warnings == old(updated + warnings) + NonEmpty(changed, i)
      {
        var item := changed[i];
        if item.data != "" {
          var outcome := dest.PutEvent(calendar, item.AsEvent(), a.embedded(i), a.put(i));
          if outcome.Done? {
            updated := updated + 1;
          } else {
            warnings := warnings + 1;
          }
        }
      }
    }

    method DeleteGone(deleted: seq<string>, a: Answers)
      modifies this`deletions, dest
      ensures dest.store == AfterDeleted(old(dest.store), deleted, a, |deleted|)
      ensures deletions == old(deletions) + Removals(a, |deleted|)
    {
      for i := 0 to |deleted|
        invariant dest.store == AfterDeleted(old(dest.store), deleted, a, i)
        invariant deletions == old(deletions) + Removals(a, i)
      {
        var ok := dest.DeleteEvent(deleted[i], a.deleteFails(i));
        if ok {
          deletions := deletions + 1;
        }
      }
    }
  }

  // ---- What a conforming server sends ----

  /** The members of a collection: path to calendar data. */
  type Contents = map<string, string>

  /** What a server says about one member, per sections 3.4 and 3.5 of RFC 6578. */
  datatype Report = Present(href: string, etag: string, data: string, reason: string)
    | Gone(href: string, reason: string) {
    function Encode(): Response {
      match this
      case Present(_, _, _, _) => Response(href, "", Some(PropStat("HTTP/1.1 200 " + reason, etag, data)))
      case Gone(_, _) => Response(href, "HTTP/1.1 404 " + reason, None)
    }
  }

  function Encoded(reports: seq<Report>): seq<Response> {
    seq(|reports|, i requires 0 <= i < |reports| => reports[i].Encode())
  }

  lemma ContainsAt(s: string, part: string, i: nat)
    requires i + |part| <= |s| && s[i..i + |part|] == part
    ensures Contains(s, part)
  {
    assert OccursAt(s, part, i);
  }

  lemma EncodingIsClassified(r: Report)
    ensures SaysPresent(r.Encode()) <==> r.Present?
    ensures SaysGone(r.Encode()) <==> r.Gone?
  {
    match r
    case Present(_, _, _, reason) => ContainsAt("HTTP/1.1 200 " + reason, "200", 9);
    case Gone(_, reason) => ContainsAt("HTTP/1.1 404 " + reason, "404", 9);
  }

  /** The parsed reply has exactly the members reported present and those reported gone. */
  lemma {:induction false} ParsingRecoversReports(reports: seq<Report>)
    ensures forall item :: item in ChangedIn(Encoded(reports)) <==>
      exists r :: r in reports && r.Present? && item == SyncItem(r.href, r.etag, r.data)
    ensures forall p :: p in DeletedIn(Encoded(reports)) <==> exists r :: r in reports && r.Gone? && r.href == p
  {
    if reports != [] {
      var before, last := reports[..|reports| - 1], reports[|reports| - 1];
      assert Encoded(reports)[..|reports| - 1] == Encoded(before);
      assert reports == before + [last];
      ParsingRecoversReports(before);
      EncodingIsClassified(last);
      forall item
        ensures item in ChangedIn(Encoded(reports)) <==>
          item in ChangedIn(Encoded(before)) || (last.Present? && item == SyncItem(last.href, last.etag, last.data))
      {
      }
      forall p
        ensures p in DeletedIn(Encoded(reports)) <==> p in DeletedIn(Encoded(before)) || (last.Gone? && p == last.href)
      {
      }
    }
  }

  predicate SameAt(x: Contents, y: Contents, p: string) {
    (p in x <==> p in y) && (p in x ==> x[p] == y[p])
  }

  predicate ChangesBetween(sources: seq<Contents>, k: nat, p: string)
    requires k + 1 < |sources|
  {
    !SameAt(sources[k], sources[k + 1], p)
  }

  /** The reports are true of the newest state and cover every member that changed since the state the token names. */
  ghost predicate Conforming(reports: seq<Report>, sources: seq<Contents>, since: nat, now: nat)
    requires since <= now < |sources|
  {
    && (forall r :: r in reports ==>
            if r.Present? then r.href in sources[now] && sources[now][r.href] == r.data else r.href !in sources[now])
    && (forall p, k :: since <= k < now && ChangesBetween(sources, k, p) ==> exists r :: r in reports && r.href == p)
  }

  // ---- Rounds ----

  datatype Round = Round(reports: seq<Report>, token: string, answers: Answers) {
    function Reply(): SyncReply {
      SyncReply(token, ChangedIn(Encoded(reports)), DeletedIn(Encoded(reports)))
    }
  }

  /** The source state that the token stored before round `n` names. */
  function Since(rounds: seq<Round>, n: nat): (since: nat)
    requires n <= |rounds|
    ensures since <= n
  {
    if n == 0 then 0 else if rounds[n - 1].answers.tokenLost then Since(rounds, n - 1) else n
  }

  /** Round k takes the source from sources[k] to sources[k + 1] and the destination from dests[k] to dests[k + 1]. */
  ghost predicate History(calendar: string, rounds: seq<Round>, sources: seq<Contents>, dests: seq<Store>) {
    && |sources| == |dests| == |rounds| + 1
    && forall k :: 0 <= k < |rounds| ==>
         && Conforming(rounds[k].reports, sources, Since(rounds, k), k + 1)
         && dests[k + 1] == AfterDelta(dests[k], calendar, rounds[k].Reply(), rounds[k].answers)
  }

  predicate MirrorAt(store: Store, contents: Contents, p: string) {
    (p in store <==> p in contents) && (p in store ==> store[p].data == contents[p])
  }

  function Target(calendar: string, changed: seq<SyncItem>, a: Answers, i: nat): Option<string>
    requires i < |changed|
  {
    PutTarget(calendar, changed[i].path, "", a.embedded(i))
  }

  predicate WritesTo(calendar: string, changed: seq<SyncItem>, a: Answers, i: nat, p: string)
    requires i < |changed|
  {
    changed[i].data != "" && a.put(i).Stored? && Target(calendar, changed, a, i) == Some(p)
  }

  /** What is written to `p` is what was reported for `p`. */
  ghost predicate OwnPutsOnly(calendar: string, changed: seq<SyncItem>, a: Answers, p: string) {
    forall i :: 0 <= i < |changed| && WritesTo(calendar, changed, a, i, p) ==> changed[i].path == p
  }

  /** Every call made for `p` succeeds with something to write, and nothing else is written there. */
  ghost predicate SmoothAt(calendar: string, round: Round, p: string) {
    var reply, a := round.Reply(), round.answers;
    && OwnPutsOnly(calendar, reply.changed, a, p)
    && (forall i :: 0 <= i < |reply.changed| && reply.changed[i].path == p ==>
            WritesTo(calendar, reply.changed, a, i, p))
    && (forall i :: 0 <= i < |reply.deleted| && reply.deleted[i] == p ==> !a.deleteFails(i))
  }

  /** What the puts do to one path. */
  lemma {:induction false} ChangesAt(store: Store, calendar: string, changed: seq<SyncItem>, a: Answers, n: nat,
                                     p: string, data: string)
    requires n <= |changed|
    requires forall i :: 0 <= i < |changed| && WritesTo(calendar, changed, a, i, p) ==> changed[i].data == data
    ensures
      var after := AfterChanged(store, calendar, changed, a, n);
      if exists i :: 0 <= i < n && WritesTo(calendar, changed, a, i, p) then p in after && after[p].data == data
      else (p in after <==> p in store) && (p in store ==> after[p] == store[p])
  {
    if n > 0 {
      ChangesAt(store, calendar, changed, a, n - 1, p, data);
      OnePutAt(AfterChanged(store, calendar, changed, a, n - 1), calendar, changed, a, n - 1, p);
    }
  }

  lemma OnePutAt(store: Store, calendar: string, changed: seq<SyncItem>, a: Answers, i: nat, p: string)
    requires i < |changed|
    ensures
      var after := PutInto(store, calendar, changed[i].AsEvent(), a.embedded(i), a.put(i));
      if WritesTo(calendar, changed, a, i, p) then p in after && after[p].data == changed[i].data
      else (p in after <==> p in store) && (p in store ==> after[p] == store[p])
  {
    hide PutTarget;
  }

  lemma {:induction false} DeletionsAt(store: Store, deleted: seq<string>, a: Answers, n: nat, p: string)
    requires n <= |deleted|
    ensures
      var after := AfterDeleted(store, deleted, a, n);
      if exists i :: 0 <= i < n && deleted[i] == p && !a.deleteFails(i) then p !in after
      else (p in after <==> p in store) && (p in store ==> after[p] == store[p])
  {
    if n > 0 {
      DeletionsAt(store, deleted, a, n - 1, p);
    }
  }

  /** Of several puts to one path the last that is stored counts, whatever the server sent. */
  lemma {:induction false} LastPutCounts(store: Store, calendar: string, changed: seq<SyncItem>, a: Answers, n: nat,
                                         p: string, i: nat)
    requires i < n <= |changed| && WritesTo(calendar, changed, a, i, p)
    requires forall j :: i < j < n ==> !WritesTo(calendar, changed, a, j, p)
    ensures
      var after := AfterChanged(store, calendar, changed, a, n);
      p in after && after[p].data == changed[i].data
  {
    hide PutInto, WritesTo;
    OnePutAt(AfterChanged(store, calendar, changed, a, n - 1), calendar, changed, a, n - 1, p);
    if i < n - 1 {
      LastPutCounts(store, calendar, changed, a, n - 1, p, i);
    }
  }

  /** Deletions come after the changes: a path whose deletion succeeds is gone after the round, even if it was also sent
      as changed; any other path is as the puts left it. */
  lemma DeletionsComeLast(store: Store, calendar: string, reply: SyncReply, a: Answers, p: string)
    ensures
      var after := AfterDelta(store, calendar, reply, a);
      var put := AfterChanged(store, calendar, reply.changed, a, |reply.changed|);
      if exists i :: 0 <= i < |reply.deleted| && reply.deleted[i] == p && !a.deleteFails(i) then p !in after
      else (p in after <==> p in put) && (p in put ==> after[p] == put[p])
  {
    hide AfterChanged;
    DeletionsAt(AfterChanged(store, calendar, reply.changed, a, |reply.changed|), reply.deleted, a, |reply.deleted|, p);
  }

  /** A member whose own calls succeed is right after the round if it was reported, and as it was if not. */
  lemma RoundAt(calendar: string, round: Round, sources: seq<Contents>, since: nat, now: nat, store: Store, p: string)
    requires since <= now < |sources| && Conforming(round.reports, sources, since, now) && SmoothAt(calendar, round, p)
    ensures
      var after := AfterDelta(store, calendar, round.Reply(), round.answers);
      if exists r :: r in round.reports && r.href == p then MirrorAt(after, sources[now], p)
      else (p in after <==> p in store) && (p in store ==> after[p] == store[p])
  {
    hide Conforming, AfterChanged, AfterDeleted, PutInto, ChangedIn, DeletedIn, Encoded, WritesTo;
    var reply, a := round.Reply(), round.answers;
    var data := if p in sources[now] then sources[now][p] else "";
    ReportsAreTrue(round, sources, since, now, p);
    forall i | 0 <= i < |reply.changed| && WritesTo(calendar, reply.changed, a, i, p)
      ensures reply.changed[i].data == data
    {
      assert reply.changed[i] in reply.changed;
    }
    ChangesAt(store, calendar, reply.changed, a, |reply.changed|, p, data);
    DeletionsAt(AfterChanged(store, calendar, reply.changed, a, |reply.changed|), reply.deleted, a, |reply.deleted|, p);
    if exists r :: r in round.reports && r.href == p {
      if p in reply.deleted {
        var i :| 0 <= i < |reply.deleted| && reply.deleted[i] == p;
      } else {
        var item :| item in reply.changed && item.path == p;
        var i :| 0 <= i < |reply.changed| && reply.changed[i] == item;
        assert WritesTo(calendar, reply.changed, a, i, p);
      }
    }
  }

  lemma ReportsAreTrue(round: Round, sources: seq<Contents>, since: nat, now: nat, p: string)
    requires since <= now < |sources| && Conforming(round.reports, sources, since, now)
    ensures forall item :: item in round.Reply().changed && item.path == p ==>
      p in sources[now] && item.data == sources[now][p]
    ensures p in round.Reply().deleted ==> p !in sources[now]
    ensures (exists r :: r in round.reports && r.href == p) <==>
      p in round.Reply().deleted || exists item :: item in round.Reply().changed && item.path == p
  {
    hide ChangedIn, DeletedIn, Encoded;
    ParsingRecoversReports(round.reports);
    if r :| r in round.reports && r.href == p {
      if r.Present? {
        var item := SyncItem(r.href, r.etag, r.data);
        assert item in round.Reply().changed;
      }
    }
  }

  /** A member stays mirrored over any number of rounds in which its own calls succeed, whatever happens to the others
      and however often the token is not stored. */
  lemma {:induction false} MemberStaysMirrored(calendar: string, rounds: seq<Round>, sources: seq<Contents>,
                                               dests: seq<Store>, n: nat, p: string)
    requires History(calendar, rounds, sources, dests) && n <= |rounds| && MirrorAt(dests[0], sources[0], p)
    requires forall k :: 0 <= k < n ==> SmoothAt(calendar, rounds[k], p)
    ensures MirrorAt(dests[n], sources[n], p)
  {
    hide SmoothAt, AfterDelta, Conforming;
    if n > 0 {
      MemberStaysMirrored(calendar, rounds, sources, dests, n - 1, p);
      var k := n - 1;
      RoundAt(calendar, rounds[k], sources, Since(rounds, k), n, dests[k], p);
      if !exists r :: r in rounds[k].reports && r.href == p {
        UnreportedIsSame(rounds[k].reports, sources, Since(rounds, k), n, p);
      }
    }
  }

  lemma UnreportedIsSame(reports: seq<Report>, sources: seq<Contents>, since: nat, now: nat, p: string)
    requires since < now < |sources| && Conforming(reports, sources, since, now)
    requires !exists r :: r in reports && r.href == p
    ensures SameAt(sources[now - 1], sources[now], p)
  {
    assert !ChangesBetween(sources, now - 1, p);
  }

  function DataOf(store: Store): Contents {
    map p | p in store :: store[p].data
  }

  /** Every call succeeds, all members lie under the destination calendar, and no reported data is empty. */
  ghost predicate Smooth(calendar: string, round: Round) {
    && (forall r :: r in round.reports ==> r.href != "" && calendar <= r.href && (r.Present? ==> r.data != ""))
    && (forall i :: round.answers.put(i).Stored?)
    && (forall i :: !round.answers.deleteFails(i))
  }

  lemma HomePathIsUnder(calendar: string, uid: string)
    ensures calendar <= HomePath(calendar, uid) && HomePath(calendar, uid) != ""
  {
    var path := HomePath(calendar, uid);
    if TrimSlash(calendar) != calendar {
      assert path[..|calendar|] == calendar;
    }
  }

  lemma SmoothIsSmoothAt(calendar: string, round: Round, p: string)
    requires Smooth(calendar, round)
    ensures SmoothAt(calendar, round, p)
  {
    hide ChangedIn, DeletedIn, Encoded;
    ParsingRecoversReports(round.reports);
    var changed := round.Reply().changed;
    forall i | 0 <= i < |changed|
      ensures WritesTo(calendar, changed, round.answers, i, changed[i].path)
    {
      assert changed[i] in changed;
      var r :| r in round.reports && r.Present? && changed[i] == SyncItem(r.href, r.etag, r.data);
    }
  }

  /** Then the destination is a mirror of the source after every round, from an empty start as from any mirror. */
  lemma MirrorIsKept(calendar: string, rounds: seq<Round>, sources: seq<Contents>, dests: seq<Store>, n: nat)
    requires History(calendar, rounds, sources, dests) && n <= |rounds| && DataOf(dests[0]) == sources[0]
    requires forall k :: 0 <= k < n ==> Smooth(calendar, rounds[k])
    ensures DataOf(dests[n]) == sources[n]
  {
    hide Smooth, SmoothAt, Conforming, AfterDelta;
    forall p
      ensures MirrorAt(dests[n], sources[n], p)
    {
      assert MirrorAt(dests[0], sources[0], p) by {
        assert p in DataOf(dests[0]) <==> p in dests[0];
      }
      forall k | 0 <= k < n
        ensures SmoothAt(calendar, rounds[k], p)
      {
        SmoothIsSmoothAt(calendar, rounds[k], p);
      }
      MemberStaysMirrored(calendar, rounds, sources, dests, n, p);
    }
    forall p
      ensures p in DataOf(dests[n]) <==> p in sources[n]
      ensures p in sources[n] ==> DataOf(dests[n])[p] == sources[n][p]
    {
      assert MirrorAt(dests[n], sources[n], p);
    }
  }

  // ---- Where the mirror fails ----

  /** A member that changed, and that nothing else is written to, is right after the round exactly when its data is not
      empty, its put was stored, and its href lies under the destination calendar. */
  lemma MirroredIffWritten(calendar: string, round: Round, sources: seq<Contents>, since: nat, now: nat, store: Store,
                           p: string, i: nat)
    requires since <= now < |sources| && Conforming(round.reports, sources, since, now)
    requires !MirrorAt(store, sources[now], p) && OwnPutsOnly(calendar, round.Reply().changed, round.answers, p)
    requires i < |round.Reply().changed| && round.Reply().changed[i].path == p
    requires forall j :: 0 <= j < |round.Reply().changed| && round.Reply().changed[j].path == p ==> j == i
    ensures MirrorAt(AfterDelta(store, calendar, round.Reply(), round.answers), sources[now], p)
      <==> round.Reply().changed[i].data != "" && round.answers.put(i).Stored? && p != "" && calendar <= p
  {
    hide Conforming, AfterChanged, AfterDeleted, PutInto, ChangedIn, DeletedIn, Encoded;
    var reply, a := round.Reply(), round.answers;
    ReportsAreTrue(round, sources, since, now, p);
    assert reply.changed[i] in reply.changed;
    forall j | 0 <= j < |reply.changed| && WritesTo(calendar, reply.changed, a, j, p)
      ensures j == i
    {
      assert reply.changed[j].path == p;
    }
    ChangesAt(store, calendar, reply.changed, a, |reply.changed|, p, sources[now][p]);
    DeletionsAt(AfterChanged(store, calendar, reply.changed, a, |reply.changed|), reply.deleted, a, |reply.deleted|, p);
    HomePathIsUnder(calendar, a.embedded(i));
    assert WritesTo(calendar, reply.changed, a, i, p)
      <==> reply.changed[i].data != "" && a.put(i).Stored? && p != "" && calendar <= p;
  }

  /** Nothing is said about `p` and nothing is written to it. */
  ghost predicate Silent(calendar: string, round: Round, p: string) {
    && (forall r :: r in round.reports ==> r.href != p)
    && OwnPutsOnly(calendar, round.Reply().changed, round.answers, p)
  }

  /** The token moves on past a failed put, so a member once lost stays lost until it changes on the source again. */
  lemma {:induction false} LostStaysLost(calendar: string, rounds: seq<Round>, sources: seq<Contents>,
                                         dests: seq<Store>, m: nat, n: nat, p: string)
    requires History(calendar, rounds, sources, dests) && m <= n <= |rounds| && !MirrorAt(dests[m], sources[m], p)
    requires forall k :: m <= k < n ==> Silent(calendar, rounds[k], p)
    ensures !MirrorAt(dests[n], sources[n], p)
    decreases n
  {
    hide Conforming, AfterDelta, Silent;
    if m < n {
      LostStaysLost(calendar, rounds, sources, dests, m, n - 1, p);
      var k := n - 1;
      SilentRound(calendar, rounds[k], sources, Since(rounds, k), n, dests[k], p);
    }
  }

  lemma SilentRound(calendar: string, round: Round, sources: seq<Contents>, since: nat, now: nat, store: Store,
                    p: string)
    requires since < now < |sources| && Conforming(round.reports, sources, since, now) && Silent(calendar, round, p)
    ensures SameAt(sources[now - 1], sources[now], p)
    ensures
      var after := AfterDelta(store, calendar, round.Reply(), round.answers);
      (p in after <==> p in store) && (p in store ==> after[p] == store[p])
  {
    UnreportedIsSame(round.reports, sources, since, now, p);
    hide AfterDelta, AfterChanged, ChangedIn, DeletedIn, Encoded;
    ReportsAreTrue(round, sources, since, now, p);
    var changed := round.Reply().changed;
    forall i | 0 <= i < |changed|
      ensures changed[i].path != p
    {
      assert changed[i] in changed;
    }
    RoundAt(calendar, round, sources, since, now, store, p);
  }
}
