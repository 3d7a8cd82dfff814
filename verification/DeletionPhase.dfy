/** The deletion loop visits the records in no particular order; the outcome is a decision table all the same. */
module DeletionPhase {
  import opened CalendarData
  import opened Reconcile

  ghost predicate NoRepeats(order: seq<string>) {
    forall i, j :: 0 <= i < j < |order| ==> order[i] != order[j]
  }

  ghost function Members(order: seq<string>): set<string> {
    set u | u in order
  }

  lemma OneMore(uids: set<string>, uid: string, fails: set<string>)
    requires uid !in uids
    ensures uid in fails ==> uids + {uid} - fails == uids - fails && |(uids + {uid}) * fails| == |uids * fails| + 1
    ensures uid !in fails ==> |uids + {uid} - fails| == |uids - fails| + 1 && (uids + {uid}) * fails == uids * fails
  {
    if uid in fails {
      assert (uids + {uid}) * fails == uids * fails + {uid};
    } else {
      assert uids + {uid} - fails == (uids - fails) + {uid};
    }
  }

  lemma OneMorePath(uids: set<string>, uid: string, fails: set<string>, events: EventMap)
    requires uid !in uids && uid !in fails && uid in events
    ensures PathsOf(uids + {uid} - fails, events) == PathsOf(uids - fails, events) + {events[uid].path}
  {
  }

  lemma MinusOneMore<V>(m: map<string, V>, keys: set<string>, key: string)
    ensures m - (keys + {key}) == m - keys - {key}
  {
  }

  lemma OneMoreOnDest(w: Work, a: Answers, onDest: set<string>, onSource: set<string>, stale: set<string>, uid: string)
    requires uid !in onDest + onSource + stale && uid in w.destMap
    ensures
      var t := Apply(w, a, onDest, onSource, stale);
      var t' := t.(records := Forget(t.records, a, uid), destMap := t.destMap - {uid});
      Apply(w, a, onDest + {uid}, onSource, stale)
      == if uid in a.destDeleteFails then t'.Warn()
         else t'.(dest := t.dest - {w.destMap[uid].path}, result := t.result.(deleted := t.result.deleted + 1))
  {
    hide PathsOf, Forget;
    OneMore(onDest, uid, a.destDeleteFails);
    if uid !in a.destDeleteFails {
      OneMorePath(onDest, uid, a.destDeleteFails, w.destMap);
      MinusOneMore(w.dest, PathsOf(onDest - a.destDeleteFails, w.destMap), w.destMap[uid].path);
    }
    RecordsGrow(w.records, a, onDest + onSource + stale, uid);
    MinusOneMore(w.destMap, onDest, uid);
    assert onDest + {uid} + onSource + stale == onDest + onSource + stale + {uid};
  }

  lemma OneMoreOnSource(w: Work, a: Answers, onDest: set<string>, onSource: set<string>, stale: set<string>,
                        uid: string)
    requires uid !in onDest + onSource + stale && uid in w.sourceMap
    ensures
      var t := Apply(w, a, onDest, onSource, stale);
      var t' := t.(records := Forget(t.records, a, uid), sourceMap := t.sourceMap - {uid});
      Apply(w, a, onDest, onSource + {uid}, stale)
      == if uid in a.sourceDeleteFails then t'.Warn()
         else t'.(source := t.source - {w.sourceMap[uid].path}, result := t.result.(deleted := t.result.deleted + 1))
  {
    hide PathsOf, Forget;
    OneMore(onSource, uid, a.sourceDeleteFails);
    if uid !in a.sourceDeleteFails {
      OneMorePath(onSource, uid, a.sourceDeleteFails, w.sourceMap);
      MinusOneMore(w.source, PathsOf(onSource - a.sourceDeleteFails, w.sourceMap), w.sourceMap[uid].path);
    }
    RecordsGrow(w.records, a, onDest + onSource + stale, uid);
    MinusOneMore(w.sourceMap, onSource, uid);
    assert onDest + (onSource + {uid}) + stale == onDest + onSource + stale + {uid};
  }

  lemma RecordsGrow(records: Records, a: Answers, gone: set<string>, uid: string)
    ensures records - (gone + {uid} - a.forgetFails) == Forget(records - (gone - a.forgetFails), a, uid)
  {
  }

  lemma TableGrowsByOne(w: Work, a: Answers, prev: Records, threshold: int, among: set<string>, uid: string)
    requires uid in prev && uid !in among
    ensures DeletionTable(w, a, prev, threshold, among + {uid})
         == DeleteOne(DeletionTable(w, a, prev, threshold, among), a, prev, threshold, uid)
  {
    var v := VerdictOn(w, prev, threshold, uid);
    var onDest := WithVerdict(w, prev, threshold, among, DropFromDest);
    var onSource := WithVerdict(w, prev, threshold, among, DropFromSource);
    var stale := WithVerdict(w, prev, threshold, among, ForgetRecord);
    VerdictsGrow(w, prev, threshold, among, uid, DropFromDest);
    VerdictsGrow(w, prev, threshold, among, uid, DropFromSource);
    VerdictsGrow(w, prev, threshold, among, uid, ForgetRecord);
    var t := Apply(w, a, onDest, onSource, stale);
    SameVerdict(w, a, onDest, onSource, stale, prev, threshold, uid);
    match v
    case DropFromDest => OneMoreOnDest(w, a, onDest, onSource, stale, uid);
    case DropFromSource => OneMoreOnSource(w, a, onDest, onSource, stale, uid);
    case ForgetRecord => OneMoreForgotten(w, a, onDest, onSource, stale, uid);
    case WaitForSafety =>
    case KeepBoth =>
  }

  lemma SameVerdict(w: Work, a: Answers, onDest: set<string>, onSource: set<string>, stale: set<string>,
                    prev: Records, threshold: int, uid: string)
    requires uid in prev && uid !in onDest + onSource
    ensures
      var t := Apply(w, a, onDest, onSource, stale);
      && VerdictOn(t, prev, threshold, uid) == VerdictOn(w, prev, threshold, uid)
      && (uid in w.destMap ==> t.destMap[uid] == w.destMap[uid])
      && (uid in w.sourceMap ==> t.sourceMap[uid] == w.sourceMap[uid])
  {
  }

  lemma OneMoreForgotten(w: Work, a: Answers, onDest: set<string>, onSource: set<string>, stale: set<string>,
                         uid: string)
    ensures
      var t := Apply(w, a, onDest, onSource, stale);
      Apply(w, a, onDest, onSource, stale + {uid}) == t.(records := Forget(t.records, a, uid))
  {
    RecordsGrow(w.records, a, onDest + onSource + stale, uid);
    assert onDest + onSource + (stale + {uid}) == onDest + onSource + stale + {uid};
  }

  lemma VerdictsGrow(w: Work, prev: Records, threshold: int, among: set<string>, uid: string, v: Verdict)
    requires uid in prev && uid !in among
    ensures VerdictOn(w, prev, threshold, uid) == v
        ==> WithVerdict(w, prev, threshold, among + {uid}, v) == WithVerdict(w, prev, threshold, among, v) + {uid}
    ensures VerdictOn(w, prev, threshold, uid) != v
        ==> WithVerdict(w, prev, threshold, among + {uid}, v) == WithVerdict(w, prev, threshold, among, v)
  {
  }

  lemma VisitNone(w: Work, a: Answers, prev: Records, threshold: int)
    ensures DeleteInOrder(w, a, prev, threshold, []) == w && Members([]) == {}
  {
  }

  lemma VisitOneMore(w: Work, a: Answers, prev: Records, threshold: int, order: seq<string>, uid: string)
    requires NoRepeats(order) && uid !in Members(order) && uid in prev && forall u :: u in order ==> u in prev
    ensures NoRepeats(order + [uid]) && Members(order + [uid]) == Members(order) + {uid}
    ensures DeleteInOrder(w, a, prev, threshold, order + [uid])
         == DeleteOne(DeleteInOrder(w, a, prev, threshold, order), a, prev, threshold, uid)
  {
    assert (order + [uid])[..|order|] == order;
    forall i | 0 <= i < |order|
      ensures order[i] != uid
    {
      assert order[i] in Members(order);
    }
  }

  lemma EmptyTable(w: Work, a: Answers, prev: Records, threshold: int)
    ensures DeletionTable(w, a, prev, threshold, {}) == w
  {
    assert forall v: Verdict :: WithVerdict(w, prev, threshold, {}, v) == {};
    assert Apply(w, a, {}, {}, {}) == w by {
      assert w.dest - {} == w.dest && w.source - {} == w.source && w.records - {} == w.records;
    }
  }

  /** Whatever the order in which the loop visits distinct records, both collections, the records, the maps and the
      counters end up as the table says. */
  lemma {:induction false} AnyOrderGivesTheTable(w: Work, a: Answers, prev: Records, threshold: int, order: seq<string>)
    requires NoRepeats(order) && forall u :: u in order ==> u in prev
    ensures DeleteInOrder(w, a, prev, threshold, order) == DeletionTable(w, a, prev, threshold, Members(order))
  {
    hide DeleteOne, DeletionTable;
    if order == [] {
      assert Members(order) == {};
      EmptyTable(w, a, prev, threshold);
    } else {
      var before, uid := order[..|order| - 1], order[|order| - 1];
      AnyOrderGivesTheTable(w, a, prev, threshold, before);
      TableGrowsByOne(w, a, prev, threshold, Members(before), uid);
      assert Members(order) == Members(before) + {uid};
    }
  }

  /** The orphan loop, too, may take the leftover events in any order. */
  lemma OrphansGrowByOne(w: Work, a: Answers, among: set<string>, uid: string)
    requires uid in w.destMap && uid !in among
    ensures DropOrphans(w, a, among + {uid}) == OrphanOne(DropOrphans(w, a, among), a, uid)
  {
    hide PathsOf;
    var doomed := w.destMap.Keys * among;
    assert w.destMap.Keys * (among + {uid}) == doomed + {uid};
    OneMore(doomed, uid, a.orphanFails);
    if uid !in a.orphanFails {
      OneMorePath(doomed, uid, a.orphanFails, w.destMap);
      MinusOneMore(w.dest, PathsOf(doomed - a.orphanFails, w.destMap), w.destMap[uid].path);
    }
  }

  lemma NoOrphans(w: Work, a: Answers)
    ensures DropOrphans(w, a, {}) == w
  {
    assert w.destMap.Keys * {} == {};
    assert w.dest - PathsOf({}, w.destMap) == w.dest;
  }

  lemma RemovalsGrowByOne(w: Work, a: Answers, paths: set<string>, path: string)
    requires path !in paths
    ensures RemoveAll(w, a, paths + {path}) == RemoveOne(RemoveAll(w, a, paths), a, path)
  {
    OneMore(paths, path, a.cleanupFails);
    if path !in a.cleanupFails {
      MinusOneMore(w.dest, paths - a.cleanupFails, path);
      assert paths + {path} - a.cleanupFails == paths - a.cleanupFails + {path};
    }
  }

  lemma NoRemovals(w: Work, a: Answers)
    ensures RemoveAll(w, a, {}) == w
  {
    assert w.dest - ({} - a.cleanupFails) == w.dest;
  }

  lemma StampsGrowByOne(records: Records, a: Answers, uids: set<string>, uid: string)
    ensures Stamp(records, a, uids + {uid})
         == if uid in a.stampFails then Stamp(records, a, uids) else Stamp(records, a, uids)[uid := a.stamp(uid)]
  {
  }

  lemma NoStamps(records: Records, a: Answers)
    ensures Stamp(records, a, {}) == records
  {
  }
}
