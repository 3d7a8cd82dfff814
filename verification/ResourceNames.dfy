/** The path that a put builds for an event from elsewhere (internal/caldav/client.go). */
module ResourceNames {
  import opened CalendarData

  /** The calendar's path with exactly one slash added or kept at its end. */
  function Folder(calendar: string): string {
    if |calendar| > 0 && calendar[|calendar| - 1] == '/' then calendar else calendar + "/"
  }

  /** The UID in a path of the form <calendar>/<uid>.ics. */
  function UidIn(calendar: string, path: string): Option<string> {
    var n := |Folder(calendar)|;
    if n + 4 <= |path| && Folder(calendar) <= path && path[|path| - 4..] == ".ics" then Some(path[n..|path| - 4])
    else None
  }

  /** The built path lies in the calendar's folder, and the UID can be read back from it. */
  lemma UidIsReadBack(calendar: string, uid: string)
    ensures Folder(calendar) <= HomePath(calendar, uid)
    ensures UidIn(calendar, HomePath(calendar, uid)) == Some(uid)
    ensures HomePath(calendar, uid) == Folder(calendar) + uid + ".ics"
  {
    var path := HomePath(calendar, uid);
    if |calendar| > 0 && calendar[|calendar| - 1] == '/' {
      assert calendar == calendar[..|calendar| - 1] + "/";
    }
    assert path == Folder(calendar) + uid + ".ics";
    assert path[..|Folder(calendar)|] == Folder(calendar);
    assert path[|path| - 4..] == ".ics";
    assert path[|Folder(calendar)|..|path| - 4] == uid;
  }

  lemma DifferentUidsDifferentPaths(calendar: string, uid: string, other: string)
    requires uid != other
    ensures HomePath(calendar, uid) != HomePath(calendar, other)
  {
    hide HomePath, UidIn;
    UidIsReadBack(calendar, uid);
    UidIsReadBack(calendar, other);
  }

  /** The UID that names an event's resource: its own, or else the one in its data. */
  function NameOf(e: Event, embedded: string): string {
    if e.uid == "" then embedded else e.uid
  }

  predicate FromElsewhere(calendar: string, e: Event) {
    e.path == "" || !(calendar <= e.path)
  }

  /** A stored put of an event from elsewhere lands in the folder of the calendar, under its UID. */
  lemma PutLandsInFolder(store: Store, calendar: string, e: Event, embedded: string, reply: PutReply)
    requires FromElsewhere(calendar, e) && e.data != "" && reply.Stored? && NameOf(e, embedded) != ""
    ensures
      var path := Folder(calendar) + NameOf(e, embedded) + ".ics";
      PutInto(store, calendar, e, embedded, reply)
      == store[path := Event(path, reply.etag, e.data, NameOf(e, embedded), e.summary, e.start)]
  {
    UidIsReadBack(calendar, NameOf(e, embedded));
  }

  /** Two events with different UIDs that come from elsewhere end up side by side, each under its own path. */
  lemma TwoPutsStand(store: Store, calendar: string, e: Event, d: Event, embeddedE: string, embeddedD: string,
                     replyE: PutReply, replyD: PutReply)
    requires FromElsewhere(calendar, e) && e.data != "" && replyE.Stored? && NameOf(e, embeddedE) != ""
    requires FromElsewhere(calendar, d) && d.data != "" && replyD.Stored? && NameOf(d, embeddedD) != ""
    requires NameOf(e, embeddedE) != NameOf(d, embeddedD)
    ensures
      var pathE := Folder(calendar) + NameOf(e, embeddedE) + ".ics";
      var pathD := Folder(calendar) + NameOf(d, embeddedD) + ".ics";
      var after := PutInto(PutInto(store, calendar, e, embeddedE, replyE), calendar, d, embeddedD, replyD);
      && pathE != pathD && pathE in after && pathD in after
      && after[pathE].data == e.data && after[pathE].uid == NameOf(e, embeddedE)
      && after[pathD].data == d.data && after[pathD].uid == NameOf(d, embeddedD)
  {
    hide PutInto, HomePath;
    PutLandsInFolder(store, calendar, e, embeddedE, replyE);
    PutLandsInFolder(PutInto(store, calendar, e, embeddedE, replyE), calendar, d, embeddedD, replyD);
    DifferentUidsDifferentPaths(calendar, NameOf(e, embeddedE), NameOf(d, embeddedD));
    UidIsReadBack(calendar, NameOf(e, embeddedE));
    UidIsReadBack(calendar, NameOf(d, embeddedD));
  }

  /** A UID found in the data names the resource just as the same UID in the event does. */
  lemma EmbeddedNamesAlike(store: Store, calendar: string, e: Event, uid: string, embedded: string, reply: PutReply)
    requires uid != ""
    ensures PutInto(store, calendar, e.(uid := ""), uid, reply)
         == PutInto(store, calendar, e.(uid := uid), embedded, reply)
    ensures PutTarget(calendar, e.path, "", uid) == PutTarget(calendar, e.path, uid, embedded)
  {
  }

  /** An event that is in the calendar already stays where it is. */
  lemma PutStaysInPlace(store: Store, calendar: string, e: Event, embedded: string, reply: PutReply)
    requires !FromElsewhere(calendar, e) && e.data != "" && reply.Stored?
    ensures
      PutInto(store, calendar, e, embedded, reply)
      == store[e.path := Event(e.path, reply.etag, e.data, NameOf(e, embedded), e.summary, e.start)]
  {
  }
}
