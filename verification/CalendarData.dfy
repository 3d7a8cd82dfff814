/** Events, calendar stores and the pure parts of the CalDAV client (internal/caldav/client.go). */
module CalendarData {

  datatype Option<+T> = None | Some(value: T)

  /** What an event says, as opposed to where it is stored and under which version tag. */
  datatype EventContent = EventContent(data: string, uid: string, summary: string, start: string)

  datatype Event = Event(path: string, etag: string, data: string, uid: string, summary: string, start: string) {
    function DedupeKey(): string {
      summary + "|" + start
    }

    function Content(): EventContent {
      EventContent(data, uid, summary, start)
    }
  }

  lemma SameUid(d: Event, e: Event)
    ensures d.Content() == e.Content() ==> d.uid == e.uid
  {
  }

  /** The key of an event that has neither a summary nor a start time. */
  const BLANK_KEY := "|"

  /** A calendar collection on a server: resource path to stored event. */
  type Store = map<string, Event>

  ghost predicate ValidStore(store: Store) {
    forall p :: p in store ==> store[p].path == p
  }

  /** `listing` shows every event of `store` exactly once, in some order. */
  ghost predicate Lists(listing: seq<Event>, store: Store) {
    && DistinctPaths(listing)
    && (forall e :: e in listing ==> e.path in store && store[e.path] == e)
    && (forall p :: p in store ==> store[p] in listing && store[p].path == p)
  }

  ghost predicate DistinctPaths(listing: seq<Event>) {
    forall i, j :: 0 <= i < j < |listing| ==> listing[i].path != listing[j].path
  }

  lemma ListsOneMore(listing: seq<Event>, store: Store, e: Event)
    requires Lists(listing, store) && e.path !in store
    ensures Lists(listing + [e], store[e.path := e])
  {
    var longer, larger := listing + [e], store[e.path := e];
    forall i, j | 0 <= i < j < |longer|
      ensures longer[i].path != longer[j].path
    {
      if j == |listing| {
        assert listing[i] in listing;
      }
    }
    forall p | p in larger
      ensures larger[p] in longer && larger[p].path == p
    {
      if p == e.path {
        assert longer[|listing|] == e;
      }
    }
  }

  function TrimSlash(path: string): string {
    if |path| > 0 && path[|path| - 1] == '/' then path[..|path| - 1] else path
  }

  lemma TrimmedFolder(calendar: string)
    ensures TrimSlash(calendar) + "/"
         == if |calendar| > 0 && calendar[|calendar| - 1] == '/' then calendar else calendar + "/"
  {
  }

  function HomePath(calendar: string, uid: string): string {
    TrimSlash(calendar) + "/" + uid + ".ics"
  }

  /** Where a put lands: the event's own path when it lies under the calendar, otherwise a path built from the UID
      (the one in the event or else the one embedded in its data); nowhere when there is no UID either. */
  function PutTarget(calendar: string, path: string, uid: string, embedded: string): Option<string> {
    if path != "" && calendar <= path then Some(path)
    else
      var name := if uid == "" then embedded else uid;
      if name == "" then None else Some(HomePath(calendar, name))
  }

  /** How the iCalendar parser and the server answer one put. */
  datatype PutReply = Stored(etag: string) | AlreadyExists | Forbidden | Refused | Unparsable

  /** What the caller of a put learns. */
  datatype PutOutcome = Done | ExistsError | ForbiddenError | OtherError

  function OutcomeOf(calendar: string, e: Event, embedded: string, reply: PutReply): PutOutcome {
    if e.data == "" then Done
    else if reply.Unparsable? then OtherError
    else if PutTarget(calendar, e.path, e.uid, embedded).None? then Done
    else match reply
      case Stored(_) => Done
      case AlreadyExists => ExistsError
      case Forbidden => ForbiddenError
      case _ => OtherError
  }

  /** The collection after a put: an empty event and an event with no usable UID are reported as done but not written.
      */
  function PutInto(store: Store, calendar: string, e: Event, embedded: string, reply: PutReply): Store {
    var target := PutTarget(calendar, e.path, e.uid, embedded);
    if e.data == "" || !reply.Stored? || target.None? then store
    else
      var uid := if e.uid == "" then embedded else e.uid;
      store[target.value := e.(path := target.value, etag := reply.etag, uid := uid)]
  }

  lemma FailedPutChangesNothing(store: Store, calendar: string, e: Event, embedded: string, reply: PutReply)
    ensures !OutcomeOf(calendar, e, embedded, reply).Done? ==> PutInto(store, calendar, e, embedded, reply) == store
  {
  }

  function Hide(store: Store, hidden: set<string>): Store {
    store - hidden
  }

  /** One CalDAV endpoint. What the server answers is chosen by the environment and passed in. */
  class CalendarClient {
    var store: Store

    constructor (store: Store)
      requires ValidStore(store)
      ensures this.store == store
    {
      this.store := store;
    }

    method PutEvent(calendar: string, event: Event, embedded: string, reply: PutReply) returns (outcome: PutOutcome)
      modifies this
      ensures store == PutInto(old(store), calendar, event, embedded, reply)
      ensures
        var name := if event.uid == "" then embedded else event.uid;
        var inPlace := event.path != "" && calendar <= event.path;
        var folder := if |calendar| > 0 && calendar[|calendar| - 1] == '/' then calendar else calendar + "/";
        var path := if inPlace then event.path else folder + name + ".ics";
        store ==
          if event.data == "" || !reply.Stored? || (!inPlace && name == "") then old(store)
          else old(store)[path := Event(path, reply.etag, event.data, name, event.summary, event.start)]
      ensures outcome == OutcomeOf(calendar, event, embedded, reply)
    {
      if event.data == "" {
        return Done;
      }
      if reply.Unparsable? {
        return OtherError;
      }
      var path, uid := event.path, event.uid;
      if uid == "" {
        uid := embedded;
      }
      if path == "" || !(calendar <= path) {
        if uid != "" {
          TrimmedFolder(calendar);
          path := TrimSlash(calendar) + "/" + uid + ".ics";
        } else {
          return Done;
        }
      }
      match reply {
        case Stored(etag) =>
          store := store[path := event.(path := path, etag := etag, uid := uid)];
          outcome := Done;
        case AlreadyExists => outcome := ExistsError;
        case Forbidden => outcome := ForbiddenError;
        case Refused => outcome := OtherError;
      }
    }

    method DeleteEvent(path: string, fails: bool) returns (ok: bool)
      modifies this
      ensures ok == !fails
      ensures store == if fails then old(store) else old(store) - {path}
    {
      if !fails {
        store := store - {path};
      }
      ok := !fails;
    }

    /** A listing in whatever order the server likes; events at `hidden` paths are dropped on the way. */
    method GetEvents(hidden: set<string>, fails: bool) returns (listing: Option<seq<Event>>)
      requires ValidStore(store)
      ensures listing.None? <==> fails
      ensures listing.Some? ==> Lists(listing.value, Hide(store, hidden))
    {
      if fails {
        return None;
      }
      var events: seq<Event> := [];
      var todo := store.Keys - hidden;
      ghost var shown: Store := map[];
      assert Lists(events, shown);
      hide Lists;
      while todo != {}
        invariant todo <= store.Keys - hidden
        invariant shown.Keys == store.Keys - hidden - todo
        invariant forall q :: q in shown ==> shown[q] == store[q]
        invariant Lists(events, shown)
        decreases |todo|
      {
        var p :| p in todo;
        ListsOneMore(events, shown, store[p]);
        events, shown := events + [store[p]], shown[p := store[p]];
        todo := todo - {p};
      }
      assert shown == Hide(store, hidden);
      listing := Some(events);
    }
  }
}
