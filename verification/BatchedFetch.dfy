/** Fetching the events behind a list of paths: MULTIGET in batches with single GETs as the fallback
    (internal/caldav/client.go). */
module BatchedFetch {
  import opened CalendarData

  datatype MalformedInfo = MalformedInfo(path: string, message: string)

  const EMPTY_MESSAGE := "empty iCalendar data - event may be corrupted or deleted"
  const BATCH_SIZE := 50

  /** What a GET of one path gives. */
  datatype GetReply = Fetched(event: Event) | Malformed(message: string) | Failed

  /** The server: what a GET gives for each path, and what the MULTIGET of the batch starting at each position gives. */
  datatype Server = Server(get: string -> GetReply, multiGet: nat -> Option<seq<Event>>)

  /** What a fetch brings in: events, counts of what was skipped, and the entries for the collector. */
  datatype Haul = Haul(events: seq<Event>, malformed: nat, empty: nat, collected: seq<MalformedInfo>) {
    function Plus(more: Haul): Haul {
      Haul(events + more.events, malformed + more.malformed, empty + more.empty, collected + more.collected)
    }
  }

  const NOTHING := Haul([], 0, 0, [])

  class MalformedEventCollector {
    var events: seq<MalformedInfo>

    constructor ()
      ensures events == []
    {
      events := [];
    }

    method Add(path: string, message: string)
      modifies this
      ensures events == old(events) + [MalformedInfo(path, message)]
    {
      events := events + [MalformedInfo(path, message)];
    }

    method Count() returns (n: nat)
      ensures n == |events|
    {
      n := |events|;
    }
  }

  function OfEvent(path: string, event: Event): Haul {
    if event.data == "" then Haul([], 0, 1, [MalformedInfo(path, EMPTY_MESSAGE)]) else Haul([event], 0, 0, [])
  }

  function OfReply(path: string, reply: GetReply): Haul {
    match reply
    case Fetched(event) => OfEvent(path, event)
    case Malformed(message) => Haul([], 1, 0, [MalformedInfo(path, message)])
    case Failed => NOTHING
  }

  /** Fetching each path in order. */
  function OneByOne(server: Server, paths: seq<string>): Haul {
    if paths == [] then NOTHING
    else
      var last := paths[|paths| - 1];
      OneByOne(server, paths[..|paths| - 1]).Plus(OfReply(last, server.get(last)))
  }

  function OfObjects(objects: seq<Event>): Haul {
    if objects == [] then NOTHING
    else
      var last := objects[|objects| - 1];
      OfObjects(objects[..|objects| - 1]).Plus(OfEvent(last.path, last))
  }

  function OfBatch(server: Server, start: nat, paths: seq<string>): Haul {
    match server.multiGet(start)
    case Some(objects) => OfObjects(objects)
    case None => OneByOne(server, paths)
  }

  /** Where the batch that holds position `n - 1` starts. */
  function LastStart(n: nat): (start: nat)
    requires n > 0
    ensures start < n <= start + BATCH_SIZE && start % BATCH_SIZE == 0
  {
    (n - 1) / BATCH_SIZE * BATCH_SIZE
  }

  /** The first `n` items, cut into batches. */
  function BatchesOf<T>(items: seq<T>, n: nat): (batches: seq<seq<T>>)
    requires n <= |items|
    ensures |batches| == (n + BATCH_SIZE - 1) / BATCH_SIZE
  {
    if n == 0 then [] else BatchesOf(items, LastStart(n)) + [items[LastStart(n)..n]]
  }

  /** The haul of the batches, the one at position `k` starting at path `k * BATCH_SIZE`. */
  function OfBatches(server: Server, batches: seq<seq<string>>): Haul {
    if batches == [] then NOTHING
    else
      var k := |batches| - 1;
      OfBatches(server, batches[..k]).Plus(OfBatch(server, k * BATCH_SIZE, batches[k]))
  }

  function InBatches(server: Server, paths: seq<string>, n: nat): Haul
    requires n <= |paths|
  {
    OfBatches(server, BatchesOf(paths, n))
  }

  class FetchClient {
    const server: Server

    constructor (server: Server)
      ensures this.server == server
    {
      this.server := server;
    }

    method GetEventsIndividually(paths: seq<string>, collector: MalformedEventCollector?)
      returns (events: seq<Event>, skippedMalformed: nat, skippedEmpty: nat)
      modifies if collector == null then {} else {collector}
      ensures
        var haul := OneByOne(server, paths);
        && events == haul.events && skippedMalformed == haul.malformed && skippedEmpty == haul.empty
        && (collector != null ==> collector.events == old(collector.events) + haul.collected)
    {
      hide OneByOne;
      Nothing(server);
      events, skippedMalformed, skippedEmpty := [], 0, 0;
      for i := 0 to |paths|
        invariant
          var haul := OneByOne(server, paths[..i]);
          && events == haul.events && skippedMalformed == haul.malformed && skippedEmpty == haul.empty
          && (collector != null ==> collector.events == old(collector.events) + haul.collected)
      {
        var path := paths[i];
        assert paths[..i + 1] == paths[..i] + [path];
        OneMore(server, paths[..i], path);
        ghost var haul := OneByOne(server, paths[..i]);
        match server.get(path) {
          case Malformed(message) =>
            if collector != null {
              collector.Add(path, message);
            }
            skippedMalformed := skippedMalformed + 1;
          case Failed =>
          case Fetched(event) =>
            if event.data == "" {
              if collector != null {
                collector.Add(path, EMPTY_MESSAGE);
              }
              skippedEmpty := skippedEmpty + 1;
            } else {
              events := events + [event];
            }
        }
      }
      assert paths[..|paths|] == paths;
    }

    method GetEventsBatch(start: nat, collector: MalformedEventCollector?)
      returns (ok: bool, events: seq<Event>, skippedMalformed: nat, skippedEmpty: nat)
      modifies if collector == null then {} else {collector}
      ensures ok <==> server.multiGet(start).Some?
      ensures ok ==>
        var haul := OfObjects(server.multiGet(start).value);
        && events == haul.events && skippedMalformed == haul.malformed && skippedEmpty == haul.empty
        && (collector != null ==> collector.events == old(collector.events) + haul.collected)
      ensures !ok && collector != null ==> collector.events == old(collector.events)
    {
      ok, events, skippedMalformed, skippedEmpty := false, [], 0, 0;
      match server.multiGet(start)
      case None => return;
      case Some(objects) =>
        for i := 0 to |objects|
          invariant
            var haul := OfObjects(objects[..i]);
            && events == haul.events && skippedMalformed == haul.malformed && skippedEmpty == haul.empty
            && (collector != null ==> collector.events == old(collector.events) + haul.collected)
        {
          assert objects[..i + 1][..i] == objects[..i];
          var event := objects[i];
          if event.data == "" {
            if collector != null {
              collector.Add(event.path, EMPTY_MESSAGE);
            }
            skippedEmpty := skippedEmpty + 1;
          } else {
            events := events + [event];
          }
        }
        assert objects[..|objects|] == objects;
        ok := true;
    }

    /** One turn of the batch loop: MULTIGET, or single GETs when it fails. */
    method GetBatchOrFallBack(start: nat, paths: seq<string>, collector: MalformedEventCollector?)
      returns (events: seq<Event>, skippedMalformed: nat, skippedEmpty: nat)
      modifies if collector == null then {} else {collector}
      ensures
        var haul := OfBatch(server, start, paths);
        && events == haul.events && skippedMalformed == haul.malformed && skippedEmpty == haul.empty
        && (collector != null ==> collector.events == old(collector.events) + haul.collected)
    {
      hide OneByOne, OfObjects;
      var ok;
      ok, events, skippedMalformed, skippedEmpty := GetEventsBatch(start, collector);
      if !ok {
        events, skippedMalformed, skippedEmpty := GetEventsIndividually(paths, collector);
      }
    }

    method GetEventsViaList(paths: seq<string>, collector: MalformedEventCollector?)
      returns (events: seq<Event>, skippedMalformed: nat, skippedEmpty: nat)
      modifies if collector == null then {} else {collector}
      ensures
        var haul := InBatches(server, paths, |paths|);
        && events == haul.events && skippedMalformed == haul.malformed && skippedEmpty == haul.empty
        && (collector != null ==> collector.events == old(collector.events) + haul.collected)
    {
      hide InBatches, OfBatch;
      events, skippedMalformed, skippedEmpty := [], 0, 0;
      NoBatch(server, paths);
      var batchStart := 0;
      while batchStart < |paths|
        invariant batchStart % BATCH_SIZE == 0
        invariant
          var haul := InBatches(server, paths, if batchStart < |paths| then batchStart else |paths|);
          && events == haul.events && skippedMalformed == haul.malformed && skippedEmpty == haul.empty
          && (collector != null ==> collector.events == old(collector.events) + haul.collected)
      {
        var batchEnd := batchStart + BATCH_SIZE;
        if batchEnd > |paths| {
          batchEnd := |paths|;
        }
        var batchEvents, malformed, empty := GetBatchOrFallBack(batchStart, paths[batchStart..batchEnd], collector);
        NextBatch(server, paths, batchStart, batchEnd);
        events := events + batchEvents;
        skippedMalformed := skippedMalformed + malformed;
        skippedEmpty := skippedEmpty + empty;
        batchStart := batchStart + BATCH_SIZE;
      }
    }
  }

  lemma NoBatch(server: Server, paths: seq<string>)
    ensures InBatches(server, paths, 0) == NOTHING
  {
  }

  lemma BatchStarts(start: nat, end: nat)
    requires start < end <= start + BATCH_SIZE && start % BATCH_SIZE == 0
    ensures LastStart(end) == start && (start + BATCH_SIZE - 1) / BATCH_SIZE * BATCH_SIZE == start
  {
  }

  lemma BatchesGrow<T>(items: seq<T>, start: nat, end: nat)
    requires start < end <= |items| && end <= start + BATCH_SIZE && start % BATCH_SIZE == 0
    ensures BatchesOf(items, end) == BatchesOf(items, start) + [items[start..end]]
    ensures |BatchesOf(items, start)| * BATCH_SIZE == start
  {
    BatchStarts(start, end);
    hide LastStart;
  }

  lemma OneMoreBatch(server: Server, batches: seq<seq<string>>, batch: seq<string>)
    ensures OfBatches(server, batches + [batch])
         == OfBatches(server, batches).Plus(OfBatch(server, |batches| * BATCH_SIZE, batch))
  {
    hide OfBatch, Haul.Plus;
    assert (batches + [batch])[..|batches|] == batches;
  }

  lemma NextBatch(server: Server, paths: seq<string>, start: nat, end: nat)
    requires start < end <= |paths| && end <= start + BATCH_SIZE && start % BATCH_SIZE == 0
    ensures InBatches(server, paths, end)
         == InBatches(server, paths, start).Plus(OfBatch(server, start, paths[start..end]))
  {
    hide OfBatch, OfBatches, BatchesOf, Haul.Plus;
    BatchesGrow(paths, start, end);
    OneMoreBatch(server, BatchesOf(paths, start), paths[start..end]);
  }

  // ---- Transparency ----

  function Flatten<T>(batches: seq<seq<T>>): seq<T> {
    if batches == [] then [] else Flatten(batches[..|batches| - 1]) + batches[|batches| - 1]
  }

  /** The batches are the whole list cut in order, none longer than the batch size and none empty. */
  lemma {:induction false} BatchesCover<T>(items: seq<T>, n: nat)
    requires n <= |items|
    ensures Flatten(BatchesOf(items, n)) == items[..n]
    ensures forall b :: b in BatchesOf(items, n) ==> 0 < |b| <= 50
  {
    if n > 0 {
      BatchesCover(items, LastStart(n));
      assert items[..LastStart(n)] + items[LastStart(n)..n] == items[..n];
    }
  }

  lemma PlusAssociates(a: Haul, b: Haul, c: Haul)
    ensures a.Plus(b).Plus(c) == a.Plus(b.Plus(c))
  {
  }

  lemma PlusNothing(a: Haul)
    ensures a.Plus(NOTHING) == a
  {
  }

  lemma OneMore(server: Server, paths: seq<string>, path: string)
    ensures OneByOne(server, paths + [path]) == OneByOne(server, paths).Plus(OfReply(path, server.get(path)))
  {
    hide Haul.Plus, OfReply;
    assert (paths + [path])[..|paths|] == paths;
  }

  lemma {:induction false} OneByOneAppends(server: Server, a: seq<string>, b: seq<string>)
    ensures OneByOne(server, a + b) == OneByOne(server, a).Plus(OneByOne(server, b))
  {
    hide Haul.Plus, OfReply, OneByOne;
    if b == [] {
      assert a + b == a;
      Nothing(server);
      PlusNothing(OneByOne(server, a));
    } else {
      var before, last := b[..|b| - 1], b[|b| - 1];
      OneByOneAppends(server, a, before);
      assert b == before + [last] && a + b == a + before + [last];
      OneMore(server, before, last);
      OneMore(server, a + before, last);
      PlusAssociates(OneByOne(server, a), OneByOne(server, before), OfReply(last, server.get(last)));
    }
  }

  /** The objects GETs of the paths would give, in order. */
  function Objects(server: Server, paths: seq<string>): seq<Event> {
    if paths == [] then []
    else
      var before, last := Objects(server, paths[..|paths| - 1]), paths[|paths| - 1];
      if server.get(last).Fetched? then before + [server.get(last).event] else before
  }

  /** A MULTIGET that answers agrees with single GETs: it gives the same objects, stored where they were asked for, and
      does not answer at all when one of them is malformed. */
  ghost predicate Agrees(server: Server, start: nat, paths: seq<string>) {
    server.multiGet(start).Some? ==>
      && server.multiGet(start).value == Objects(server, paths)
      && forall p :: p in paths ==>
              !server.get(p).Malformed? && (server.get(p).Fetched? ==> server.get(p).event.path == p)
  }

  lemma {:induction false} ObjectsHaul(server: Server, paths: seq<string>)
    requires forall p :: p in paths ==>
      !server.get(p).Malformed? && (server.get(p).Fetched? ==> server.get(p).event.path == p)
    ensures OfObjects(Objects(server, paths)) == OneByOne(server, paths)
  {
    hide Haul.Plus, OneByOne, OfEvent;
    if paths == [] {
      Nothing(server);
    }
    if paths != [] {
      var before, last := paths[..|paths| - 1], paths[|paths| - 1];
      ObjectsHaul(server, before);
      assert paths == before + [last];
      OneMore(server, before, last);
      var objects := Objects(server, before);
      if server.get(last).Fetched? {
        assert (objects + [server.get(last).event])[..|objects|] == objects;
      } else {
        PlusNothing(OneByOne(server, before));
      }
    }
  }

  predicate IsBatch(paths: seq<string>, start: int, end: int) {
    && 0 <= start < end <= |paths| && end <= start + BATCH_SIZE && start % BATCH_SIZE == 0
    && (end == |paths| || end == start + BATCH_SIZE)
  }

  ghost predicate AllAgree(server: Server, paths: seq<string>) {
    forall start, end :: IsBatch(paths, start, end) ==> Agrees(server, start, paths[start..end])
  }

  /** The batched fetch brings in exactly what fetching each path in order would, whichever batches fall back. */
  lemma {:induction false} BatchingIsTransparent(server: Server, paths: seq<string>, n: nat)
    requires n <= |paths| && AllAgree(server, paths) && (n == |paths| || n % BATCH_SIZE == 0)
    ensures InBatches(server, paths, n) == OneByOne(server, paths[..n])
  {
    hide OneByOne, OfObjects, Objects, InBatches, Haul.Plus, OfEvent;
    if n == 0 {
      Nothing(server);
      NoBatch(server, paths);
    } else {
      var start := LastStart(n);
      BatchingIsTransparent(server, paths, start);
      NextBatch(server, paths, start, n);
      var batch := paths[start..n];
      assert IsBatch(paths, start, n);
      if server.multiGet(start).Some? {
        ObjectsHaul(server, batch);
      }
      OneByOneAppends(server, paths[..start], batch);
      assert paths[..start] + batch == paths[..n];
    }
  }

  lemma Nothing(server: Server)
    ensures OneByOne(server, []) == NOTHING
  {
  }

  // ---- Accounting ----

  lemma {:induction false} ObjectsAreCollected(objects: seq<Event>)
    ensures |OfObjects(objects).collected| == OfObjects(objects).malformed + OfObjects(objects).empty
    ensures |OfObjects(objects).events| + OfObjects(objects).empty == |objects|
    ensures OfObjects(objects).malformed == 0
    ensures forall e :: e in OfObjects(objects).events <==> e in objects && e.data != ""
    ensures forall info :: info in OfObjects(objects).collected <==>
      info.message == EMPTY_MESSAGE && exists e :: e in objects && e.data == "" && e.path == info.path
  {
    if objects != [] {
      var before, last := objects[..|objects| - 1], objects[|objects| - 1];
      assert objects == before + [last];
      ObjectsAreCollected(before);
      hide EMPTY_MESSAGE;
      forall info
        ensures info in OfObjects(objects).collected
          <==> info in OfObjects(before).collected || info in OfEvent(last.path, last).collected
      {
      }
    }
  }

  /** Of single GETs: how many were malformed and how many empty. */
  function Malformeds(server: Server, paths: seq<string>): nat {
    if paths == [] then 0
    else Malformeds(server, paths[..|paths| - 1]) + if server.get(paths[|paths| - 1]).Malformed? then 1 else 0
  }

  predicate IsEmpty(reply: GetReply) {
    reply.Fetched? && reply.event.data == ""
  }

  function Empties(server: Server, paths: seq<string>): nat {
    if paths == [] then 0
    else Empties(server, paths[..|paths| - 1]) + if IsEmpty(server.get(paths[|paths| - 1])) then 1 else 0
  }

  ghost predicate Brings(server: Server, paths: seq<string>, e: Event) {
    e.data != "" && exists p :: p in paths && server.get(p) == Fetched(e)
  }

  ghost predicate Collects(server: Server, paths: seq<string>, info: MalformedInfo) {
    && info.path in paths
    && (server.get(info.path) == Malformed(info.message)
        || (IsEmpty(server.get(info.path)) && info.message == EMPTY_MESSAGE))
  }

  /** Single GETs bring in exactly the fetched events with data; each malformed and each empty one is counted as
      such, and collected under its path with its message. */
  lemma {:induction false} OneByOneIsExact(server: Server, paths: seq<string>)
    ensures
      var haul := OneByOne(server, paths);
      && haul.malformed == Malformeds(server, paths) && haul.empty == Empties(server, paths)
      && (forall e :: e in haul.events <==> Brings(server, paths, e))
      && (forall info :: info in haul.collected <==> Collects(server, paths, info))
  {
    hide EMPTY_MESSAGE;
    if paths != [] {
      var before, last := paths[..|paths| - 1], paths[|paths| - 1];
      assert paths == before + [last];
      OneByOneIsExact(server, before);
      var haul, was := OneByOne(server, paths), OneByOne(server, before);
      forall e
        ensures e in haul.events <==> e in was.events || (server.get(last) == Fetched(e) && e.data != "")
      {
      }
      forall info
        ensures info in haul.collected <==> info in was.collected || Collects(server, [last], info)
      {
      }
    }
  }

  /** GETs that failed for a reason other than malformed content. */
  function Dropped(server: Server, paths: seq<string>): nat {
    if paths == [] then 0
    else Dropped(server, paths[..|paths| - 1]) + if server.get(paths[|paths| - 1]).Failed? then 1 else 0
  }

  /** Every path becomes an event, a malformed entry, an empty entry, or is dropped. */
  lemma {:induction false} PathsAreAccounted(server: Server, paths: seq<string>)
    ensures
      var haul := OneByOne(server, paths);
      && |haul.events| + haul.malformed + haul.empty + Dropped(server, paths) == |paths|
      && |haul.collected| == haul.malformed + haul.empty
  {
    if paths != [] {
      PathsAreAccounted(server, paths[..|paths| - 1]);
    }
  }

  /** The collector grows by exactly what was skipped, whichever batches fall back and whatever the MULTIGETs answer. */
  lemma {:induction false} SkippedIsCollected(server: Server, paths: seq<string>, n: nat)
    requires n <= |paths|
    ensures
      var haul := InBatches(server, paths, n);
      |haul.collected| == haul.malformed + haul.empty
  {
    hide OneByOne, OfObjects, InBatches;
    if n == 0 {
      NoBatch(server, paths);
    } else {
      var start := LastStart(n);
      SkippedIsCollected(server, paths, start);
      NextBatch(server, paths, start, n);
      match server.multiGet(start)
      case Some(objects) => ObjectsAreCollected(objects);
      case None => PathsAreAccounted(server, paths[start..n]);
    }
  }
}
