/** What the duplicate clean-up leaves behind (`cleanupDuplicates`, internal/caldav/sync.go). */
module DuplicateCleanup {
  import opened CalendarData
  import opened Reconcile

  lemma {:induction false} GroupHasDistinctPaths(events: seq<Event>, key: string)
    requires DistinctPaths(events)
    ensures DistinctPaths(Group(events, key))
  {
    if events != [] {
      var before, last := events[..|events| - 1], events[|events| - 1];
      GroupHasDistinctPaths(before, key);
      var g := Group(before, key);
      forall j | 0 <= j < |g|
        ensures g[j].path != last.path
      {
        assert g[j] in before;
      }
    }
  }

  lemma SamePathSameEvent(events: seq<Event>, e: Event, f: Event)
    requires DistinctPaths(events) && e in events && f in events && e.path == f.path
    ensures e == f
  {
  }

  /** The paths of the first `n` events of a group, the kept one apart. */
  function Others(group: seq<Event>, keep: nat, n: nat): set<string>
    requires n <= |group|
  {
    set j | 0 <= j < n && j != keep :: group[j].path
  }

  ghost predicate DoomedAt(events: seq<Event>, sourceUids: set<string>, keys: set<string>, e: Event, path: string) {
    e in events && e.DedupeKey() in keys && IsDoomed(events, sourceUids, e) && e.path == path
  }

  lemma DoomedWitness(events: seq<Event>, sourceUids: set<string>, keys: set<string>, path: string) returns (e: Event)
    requires path in Doomed(events, sourceUids, keys)
    ensures DoomedAt(events, sourceUids, keys, e, path)
  {
    e :| e in events && e.DedupeKey() in keys && IsDoomed(events, sourceUids, e) && e.path == path;
  }

  lemma GroupPosition(events: seq<Event>, key: string, e: Event) returns (j: nat)
    requires e in events && e.DedupeKey() == key
    ensures j < |Group(events, key)| && Group(events, key)[j] == e
  {
    assert e in Group(events, key);
    j :| 0 <= j < |Group(events, key)| && Group(events, key)[j] == e;
  }

  lemma OtherIsDoomed(events: seq<Event>, sourceUids: set<string>, key: string, j: nat)
    requires DistinctPaths(events) && j < |Group(events, key)| && j != KeepIndex(Group(events, key), sourceUids)
    ensures Group(events, key)[j] in events && IsDoomed(events, sourceUids, Group(events, key)[j])
  {
    var g := Group(events, key);
    GroupHasDistinctPaths(events, key);
    assert g[j] in g;
  }

  lemma NewGroupIsDoomed(events: seq<Event>, sourceUids: set<string>, keys: set<string>, key: string)
    requires DistinctPaths(events) && key !in keys && Group(events, key) != []
    ensures
      var g := Group(events, key);
      Doomed(events, sourceUids, keys + {key})
      <= Doomed(events, sourceUids, keys) + Others(g, KeepIndex(g, sourceUids), |g|)
  {
    var g := Group(events, key);
    var keep := KeepIndex(g, sourceUids);
    forall p | p in Doomed(events, sourceUids, keys + {key})
      ensures p in Doomed(events, sourceUids, keys) + Others(g, keep, |g|)
    {
      var e := DoomedWitness(events, sourceUids, keys + {key}, p);
      if e.DedupeKey() == key {
        var j := GroupPosition(events, key, e);
        assert j != keep;
        assert g[j].path in Others(g, keep, |g|);
      } else {
        assert e.DedupeKey() in keys;
      }
    }
  }

  lemma OldAndNewAreDoomed(events: seq<Event>, sourceUids: set<string>, keys: set<string>, key: string)
    requires DistinctPaths(events) && key !in keys && Group(events, key) != []
    ensures
      var g := Group(events, key);
      Doomed(events, sourceUids, keys) + Others(g, KeepIndex(g, sourceUids), |g|)
      <= Doomed(events, sourceUids, keys + {key})
  {
    var g := Group(events, key);
    var keep := KeepIndex(g, sourceUids);
    forall p | p in Doomed(events, sourceUids, keys) + Others(g, keep, |g|)
      ensures p in Doomed(events, sourceUids, keys + {key})
    {
      if p in Doomed(events, sourceUids, keys) {
        var e := DoomedWitness(events, sourceUids, keys, p);
      } else {
        var j :| 0 <= j < |g| && j != keep && g[j].path == p;
        OtherIsDoomed(events, sourceUids, key, j);
        assert g[j] in g;
      }
    }
  }

  lemma OthersGrow(group: seq<Event>, keep: nat, i: nat, already: set<string>)
    requires i < |group| && DistinctPaths(group)
    requires forall e :: e in group ==> e.path !in already
    ensures i == keep ==> already + Others(group, keep, i + 1) == already + Others(group, keep, i)
    ensures i != keep ==> already + Others(group, keep, i + 1) == already + Others(group, keep, i) + {group[i].path}
    ensures group[i].path !in already + Others(group, keep, i)
  {
    assert group[i] in group;
  }

  /** Handling one more group dooms exactly its events but the keeper. */
  lemma DoomedGrows(events: seq<Event>, sourceUids: set<string>, keys: set<string>, key: string)
    requires DistinctPaths(events) && key !in keys && Group(events, key) != []
    ensures
      var g := Group(events, key);
      && Doomed(events, sourceUids, keys + {key})
         == Doomed(events, sourceUids, keys) + Others(g, KeepIndex(g, sourceUids), |g|)
      && forall e :: e in g ==> e.path !in Doomed(events, sourceUids, keys)
  {
    var g := Group(events, key);
    NewGroupIsDoomed(events, sourceUids, keys, key);
    OldAndNewAreDoomed(events, sourceUids, keys, key);
    forall e | e in g
      ensures e.path !in Doomed(events, sourceUids, keys)
    {
      if e.path in Doomed(events, sourceUids, keys) {
        var f := DoomedWitness(events, sourceUids, keys, e.path);
        SamePathSameEvent(events, e, f);
      }
    }
  }

  lemma NoneDoomed(events: seq<Event>, sourceUids: set<string>)
    ensures Doomed(events, sourceUids, {}) == {}
  {
  }

  lemma KeyIsNotBlank(events: seq<Event>, key: string)
    requires key in KeysOf(events)
    ensures key != BLANK_KEY
  {
  }

  /** The event kept in the group of `e`. */
  lemma KeeperOf(events: seq<Event>, sourceUids: set<string>, e: Event) returns (k: Event)
    requires e in events
    ensures Group(events, e.DedupeKey()) != [] && k == Keeper(events, sourceUids, e.DedupeKey())
    ensures k in events && k.DedupeKey() == e.DedupeKey()
    ensures IsDoomed(events, sourceUids, e) <==> e.path != k.path
  {
    var g := Group(events, e.DedupeKey());
    assert e in g;
    k := Keeper(events, sourceUids, e.DedupeKey());
    assert g[KeepIndex(g, sourceUids)] in g;
  }

  // ---- What is left ----

  /** The collection after a clean-up that sees all of it. */
  function Cleaned(events: seq<Event>, sourceUids: set<string>, fails: set<string>, store: Store): Store {
    store - (Doomed(events, sourceUids, KeysOf(events)) - fails)
  }

  lemma KeepersAreSafe(events: seq<Event>, sourceUids: set<string>, fails: set<string>, store: Store, e: Event)
    requires Lists(events, store) && e in events
    ensures
      var k := Keeper(events, sourceUids, e.DedupeKey());
      Group(events, e.DedupeKey()) != [] && k.path in Cleaned(events, sourceUids, fails, store)
      && k.DedupeKey() == e.DedupeKey() && store[k.path] == k
  {
    hide Group, Keeper, Doomed, KeysOf;
    var k := KeeperOf(events, sourceUids, e);
    if k.path in Doomed(events, sourceUids, KeysOf(events)) {
      var f := DoomedWitness(events, sourceUids, KeysOf(events), k.path);
      SamePathSameEvent(events, f, k);
      var k' := KeeperOf(events, sourceUids, f);
    }
  }

  /** An event with a blank key is never removed. */
  lemma BlankKeysStay(events: seq<Event>, sourceUids: set<string>, fails: set<string>, store: Store, path: string)
    requires Lists(events, store) && path in store && store[path].DedupeKey() == BLANK_KEY
    ensures path in Cleaned(events, sourceUids, fails, store)
  {
    hide Group, Keeper, KeysOf;
    if path in Doomed(events, sourceUids, KeysOf(events)) {
      var e := DoomedWitness(events, sourceUids, KeysOf(events), path);
      KeyIsNotBlank(events, e.DedupeKey());
    }
  }

  /** With successful deletes, exactly one event of every non-blank key is left, and it is the keeper of its group. */
  lemma OneSurvivorPerKey(events: seq<Event>, sourceUids: set<string>, store: Store, path: string)
    requires Lists(events, store) && path in store && store[path].DedupeKey() != BLANK_KEY
    ensures
      var key, left := store[path].DedupeKey(), Cleaned(events, sourceUids, {}, store);
      && Group(events, key) != []
      && forall p :: p in left && left[p].DedupeKey() == key <==> p == Keeper(events, sourceUids, key).path
  {
    hide Group, Keeper, Doomed;
    var e := store[path];
    var key, left := e.DedupeKey(), Cleaned(events, sourceUids, {}, store);
    KeepersAreSafe(events, sourceUids, {}, store, e);
    forall p | p in left && left[p].DedupeKey() == key
      ensures p == Keeper(events, sourceUids, key).path
    {
      if p != Keeper(events, sourceUids, key).path {
        var k := KeeperOf(events, sourceUids, store[p]);
        OthersAreDoomed(events, sourceUids, store[p]);
      }
    }
  }

  lemma OthersAreDoomed(events: seq<Event>, sourceUids: set<string>, e: Event)
    requires DistinctPaths(events) && e in events && e.DedupeKey() != BLANK_KEY && IsDoomed(events, sourceUids, e)
    ensures e.path in Doomed(events, sourceUids, KeysOf(events))
  {
    hide Group, Keeper;
    assert e.DedupeKey() in KeysOf(events);
  }

  /** A group keeps the order of the listing. */
  lemma {:induction false} GroupInOrder(events: seq<Event>, key: string, t: nat) returns (i: nat)
    requires t < |Group(events, key)|
    ensures i < |events| && events[i] == Group(events, key)[t] && Group(events[..i], key) == Group(events, key)[..t]
  {
    var n := |events| - 1;
    var g := Group(events[..n], key);
    if t < |g| {
      i := GroupInOrder(events[..n], key, t);
      assert events[..n][..i] == events[..i];
    } else {
      i := n;
    }
  }

  /** The survivor of a group is the first listed event of that key whose UID is on the source, if there is one, and
      otherwise the first listed event of that key. */
  lemma KeeperIsFirst(events: seq<Event>, sourceUids: set<string>, key: string) returns (i: nat)
    requires Group(events, key) != []
    ensures i < |events| && events[i] == Keeper(events, sourceUids, key) && events[i].DedupeKey() == key
    ensures events[i].uid in sourceUids
         || forall e :: e in events && e.DedupeKey() == key ==> e.uid !in sourceUids
    ensures forall j :: 0 <= j < i && events[j].DedupeKey() == key ==>
      events[i].uid in sourceUids && events[j].uid !in sourceUids
  {
    var g := Group(events, key);
    var t := KeepIndex(g, sourceUids);
    i := GroupInOrder(events, key, t);
    assert g[t] in g;
    forall j | 0 <= j < i && events[j].DedupeKey() == key
      ensures events[i].uid in sourceUids && events[j].uid !in sourceUids
    {
      assert events[j] in events[..i];
      assert events[j] in g[..t];
    }
  }

  /** A second clean-up finds nothing to remove. */
  lemma SecondPassIsIdle(events: seq<Event>, sourceUids: set<string>, store: Store, again: seq<Event>,
                         sourceUids': set<string>)
    requires Lists(events, store) && Lists(again, Cleaned(events, sourceUids, {}, store))
    ensures Doomed(again, sourceUids', KeysOf(again)) == {}
  {
    hide Group, Keeper, Doomed, KeysOf;
    forall path | path in Doomed(again, sourceUids', KeysOf(again))
      ensures false
    {
      var e := DoomedWitness(again, sourceUids', KeysOf(again), path);
      KeyIsNotBlank(again, e.DedupeKey());
      var k := KeeperOf(again, sourceUids', e);
      OneSurvivorPerKey(events, sourceUids, store, path);
    }
  }

  /** Counting with failures: what was removed and what remains add up to what was there. */
  lemma RemovedPlusRemaining(events: seq<Event>, sourceUids: set<string>, fails: set<string>, store: Store)
    requires Lists(events, store)
    ensures |Cleaned(events, sourceUids, fails, store)| + |Doomed(events, sourceUids, KeysOf(events)) - fails|
      == |store|
  {
    hide Doomed, KeysOf, Lists;
    var removed := Doomed(events, sourceUids, KeysOf(events)) - fails;
    DoomedAreStored(events, sourceUids, KeysOf(events), store);
    TakeAway(store, removed);
  }

  lemma DoomedAreStored(events: seq<Event>, sourceUids: set<string>, keys: set<string>, store: Store)
    requires Lists(events, store)
    ensures Doomed(events, sourceUids, keys) <= store.Keys
  {
    hide Keeper, Group;
  }

  lemma TakeAway(store: Store, paths: set<string>)
    requires paths <= store.Keys
    ensures |store - paths| + |paths| == |store|
  {
    var rest := store.Keys - paths;
    assert (store - paths).Keys == rest;
    assert store.Keys == rest + paths;
  }

  /** How many of the events have one of the keys: the sizes of the groups, added up. */
  function Keyed(events: seq<Event>, keys: set<string>): nat {
    if events == [] then 0
    else Keyed(events[..|events| - 1], keys) + if events[|events| - 1].DedupeKey() in keys then 1 else 0
  }

  lemma {:induction false} KeyedSplits(events: seq<Event>, keys: set<string>, key: string)
    requires key !in keys
    ensures Keyed(events, keys + {key}) == Keyed(events, keys) + |Group(events, key)|
    ensures Keyed(events, {}) == 0
  {
    if events != [] {
      KeyedSplits(events[..|events| - 1], keys, key);
    }
  }

  lemma {:induction false} OthersCount(group: seq<Event>, keep: nat, n: nat)
    requires n <= |group| && DistinctPaths(group)
    ensures |Others(group, keep, n)| == if keep < n then n - 1 else n
  {
    if n > 0 {
      OthersCount(group, keep, n - 1);
      if n - 1 == keep {
        assert Others(group, keep, n) == Others(group, keep, n - 1);
      } else {
        assert Others(group, keep, n) == Others(group, keep, n - 1) + {group[n - 1].path};
      }
    } else {
      assert Others(group, keep, 0) == {};
    }
  }

  lemma OthersAreNew(events: seq<Event>, sourceUids: set<string>, keys: set<string>, key: string)
    requires DistinctPaths(events) && key !in keys && Group(events, key) != []
    ensures
      var g := Group(events, key);
      Doomed(events, sourceUids, keys) !! Others(g, KeepIndex(g, sourceUids), |g|)
  {
    hide Doomed, Group, KeepIndex;
    DoomedGrows(events, sourceUids, keys, key);
    var g := Group(events, key);
    var keep := KeepIndex(g, sourceUids);
    forall p | p in Others(g, keep, |g|)
      ensures p !in Doomed(events, sourceUids, keys)
    {
      var j :| 0 <= j < |g| && j != keep && g[j].path == p;
      assert g[j] in g;
    }
  }

  /** The number of doomed events is the sum, over the groups, of the size minus one. */
  lemma {:induction false} RemovedIsExcess(events: seq<Event>, sourceUids: set<string>, keys: set<string>)
    requires DistinctPaths(events) && keys <= KeysOf(events)
    ensures |Doomed(events, sourceUids, keys)| == Keyed(events, keys) - |keys|
  {
    hide Doomed, Group, KeepIndex, Others, DistinctPaths;
    if keys == {} {
      NoneDoomed(events, sourceUids);
      KeyedSplits(events, {}, "");
    } else {
      var key :| key in keys;
      var rest := keys - {key};
      RemovedIsExcess(events, sourceUids, rest);
      var e :| e in events && e.DedupeKey() == key;
      GroupHas(events, key, e);
      DoomedGrows(events, sourceUids, rest, key);
      GroupHasDistinctPaths(events, key);
      var g := Group(events, key);
      OthersCount(g, KeepIndex(g, sourceUids), |g|);
      OthersAreNew(events, sourceUids, rest, key);
      KeyedSplits(events, rest, key);
      assert rest + {key} == keys;
    }
  }

  lemma GroupHas(events: seq<Event>, key: string, e: Event)
    requires e in events && e.DedupeKey() == key
    ensures e in Group(events, key)
  {
  }
}
