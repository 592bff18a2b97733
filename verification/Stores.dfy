/**
 The idempotency and dedupe stores of the workers. The in-memory idempotency store
 keeps everything; the "file" store evicts a quarter of its settled keys, whichever
 the hash map yields first, before a start that finds it full.
 */
module Stores {
  import opened Options

  datatype KeyStatus = InProgress | Completed | Failed(error: string) {
    predicate Settled() {
      !InProgress?
    }
  }

  type Store = map<string, KeyStatus>

  function SettledKeys(store: Store): set<string> {
    set k | k in store && store[k].Settled()
  }

  function ActiveKeys(store: Store): set<string> {
    set k | k in store && !store[k].Settled()
  }

  predicate CanStart(store: Store, key: string) {
    key !in store || store[key].Failed?
  }

  /** `start` on the store that never forgets. */
  function Start(store: Store, key: string): (Store, bool) {
    if CanStart(store, key) then (store[key := InProgress], true) else (store, false)
  }

  /** What one eviction may remove: `take(len / 4)` of the settled keys, in any order, when full. */
  predicate Evictable(store: Store, maxSize: nat, gone: set<string>) {
    if |store| >= maxSize then
      && gone <= SettledKeys(store)
      && |gone| == (if |SettledKeys(store)| <= |store| / 4 then |SettledKeys(store)| else |store| / 4)
    else gone == {}
  }

  function EvictingStart(store: Store, key: string, gone: set<string>): (Store, bool) {
    Start(store - gone, key)
  }

  datatype StoreAction =
    | StartKey(key: string, gone: set<string>)
    | Complete(key: string)
    | Fail(key: string, error: string)

  function StoreStep(store: Store, a: StoreAction): Store {
    match a
    case StartKey(key, gone) => EvictingStart(store, key, gone).0
    case Complete(key) => store[key := Completed]
    case Fail(key, error) => store[key := Failed(error)]
  }

  function StoreRun(store: Store, actions: seq<StoreAction>): Store {
    if actions == [] then store
    else StoreStep(StoreRun(store, actions[..|actions| - 1]), actions[|actions| - 1])
  }

  /** Evictions only ever remove settled keys; with `gone == {}` this is the in-memory store. */
  predicate EvictsOnlySettled(store: Store, actions: seq<StoreAction>) {
    forall i :: 0 <= i < |actions| && actions[i].StartKey? ==>
      actions[i].gone <= SettledKeys(StoreRun(store, actions[..i]))
  }

  predicate Settles(a: StoreAction, key: string) {
    (a.Complete? || a.Fail?) && a.key == key
  }

  /**
   Mutual exclusion: from the moment a key is InProgress until somebody completes or
   fails it, it stays InProgress and no start on it succeeds, whatever is evicted.
   */
  lemma {:induction false} NoSecondStart(store: Store, actions: seq<StoreAction>, key: string)
    requires key in store && store[key].InProgress?
    requires EvictsOnlySettled(store, actions)
    requires forall i :: 0 <= i < |actions| ==> !Settles(actions[i], key)
    ensures key in StoreRun(store, actions) && StoreRun(store, actions)[key].InProgress?
    ensures forall gone :: gone <= SettledKeys(StoreRun(store, actions)) ==>
              !EvictingStart(StoreRun(store, actions), key, gone).1
  {
    if actions != [] {
      var n := |actions| - 1;
      var init := actions[..n];
      assert EvictsOnlySettled(store, init) by {
        forall i | 0 <= i < n && init[i].StartKey?
          ensures init[i].gone <= SettledKeys(StoreRun(store, init[..i]))
        {
          assert init[..i] == actions[..i] && actions[i].StartKey?;
        }
      }
      NoSecondStart(store, init, key);
      assert actions[n].StartKey? ==> key !in actions[n].gone;
    }
  }

  // -------------------------------------------------------- what a key remembers

  /** The status a key got last, or None if it was never touched or evicted since. */
  function LastStatus(store: Store, actions: seq<StoreAction>, key: string): Option<KeyStatus> {
    if actions == [] then (if key in store then Some(store[key]) else None)
    else
      var a := actions[|actions| - 1];
      var before := LastStatus(store, actions[..|actions| - 1], key);
      match a
      case StartKey(k, gone) =>
        var kept := if key in gone then None else before;
        if k == key && (kept.None? || kept.value.Failed?) then Some(InProgress) else kept
      case Complete(k) => if k == key then Some(Completed) else before
      case Fail(k, error) => if k == key then Some(Failed(error)) else before
  }

  /**
   Keys do not interfere: over every run the store shows for each key what its own
   history says, and a start succeeds iff the key is unknown, evicted or failed.
   */
  lemma {:induction false} StoreShowsLastStatus(store: Store, actions: seq<StoreAction>, key: string, gone: set<string>)
    ensures var store' := StoreRun(store, actions);
            var last := LastStatus(store, actions, key);
            && last == (if key in store' then Some(store'[key]) else None)
            && (EvictingStart(store', key, gone).1 <==> key in gone || last.None? || last.value.Failed?)
  {
    if actions != [] {
      StoreShowsLastStatus(store, actions[..|actions| - 1], key, {});
    }
  }

  // -------------------------------------------------------------------- size

  function Max(a: nat, b: nat): nat {
    if a >= b then a else b
  }

  /** The largest number of keys that were InProgress at the same time. */
  function PeakActive(actions: seq<StoreAction>): nat {
    var now := |ActiveKeys(StoreRun(map[], actions))|;
    if actions == [] then now else Max(now, PeakActive(actions[..|actions| - 1]))
  }

  /** Every eviction follows the rule, and only keys that are present are completed or failed. */
  predicate WellUsed(actions: seq<StoreAction>, maxSize: nat) {
    actions == [] ||
    (var n := |actions| - 1;
     var store := StoreRun(map[], actions[..n]);
     && WellUsed(actions[..n], maxSize)
     && match actions[n]
        case StartKey(_, gone) => Evictable(store, maxSize, gone)
        case Complete(key) => key in store
        case Fail(key, _) => key in store)
  }

  lemma KeysSplit(store: Store)
    ensures |store| == |SettledKeys(store)| + |ActiveKeys(store)|
  {
    assert store.Keys == SettledKeys(store) + ActiveKeys(store);
    assert |store| == |store.Keys|;
  }

  lemma InsertSize(store: Store, key: string, v: KeyStatus)
    ensures |store[key := v]| == |store| + (if key in store then 0 else 1)
  {
    assert store[key := v].Keys == store.Keys + {key};
  }

  lemma EvictSize(store: Store, gone: set<string>)
    requires gone <= store.Keys
    ensures |store - gone| == |store| - |gone|
  {
    assert (store - gone).Keys == store.Keys - gone;
  }

  lemma StartSize(store: Store, maxSize: nat, key: string, gone: set<string>)
    requires Evictable(store, maxSize, gone)
    ensures var store' := EvictingStart(store, key, gone).0;
            |store'| <= Max(|store|, Max(maxSize, Max(4, |ActiveKeys(store')|)))
  {
    var kept := store - gone;
    var store' := EvictingStart(store, key, gone).0;
    EvictSize(store, gone);
    InsertSize(kept, key, InProgress);
    KeysSplit(store);
    KeysSplit(store');
    if gone == {} && |store| >= maxSize && |store| >= 4 {
      assert SettledKeys(store) == {};
      assert forall k :: k in store' ==> store'[k].InProgress?;
      assert SettledKeys(store') == {};
    }
  }

  /**
   The store never outgrows its limit by more than the keys that are in use at once:
   its size is at most the largest of max_size, 4 and the peak number of active keys.
   */
  lemma {:induction false} StoreSizeBounded(actions: seq<StoreAction>, maxSize: nat)
    requires WellUsed(actions, maxSize)
    ensures |StoreRun(map[], actions)| <= Max(maxSize, Max(4, PeakActive(actions)))
  {
    if actions != [] {
      var n := |actions| - 1;
      StoreSizeBounded(actions[..n], maxSize);
      var store := StoreRun(map[], actions[..n]);
      match actions[n]
      case StartKey(key, gone) => StartSize(store, maxSize, key, gone);
      case Complete(key) => InsertSize(store, key, Completed);
      case Fail(key, e) => InsertSize(store, key, Failed(e));
    }
  }

  // ------------------------------------------------------------------- dedupe

  predicate DedupeEvictable(seen: set<string>, maxSize: nat, gone: set<string>) {
    gone <= seen && |gone| == if |seen| >= maxSize then |seen| / 4 else 0
  }

  datatype Mark = Mark(id: string, gone: set<string>)

  function MarkRun(marks: seq<Mark>): set<string> {
    if marks == [] then {}
    else (MarkRun(marks[..|marks| - 1]) - marks[|marks| - 1].gone) + {marks[|marks| - 1].id}
  }

  predicate MarksWellUsed(marks: seq<Mark>, maxSize: nat) {
    marks == [] ||
    (var n := |marks| - 1;
     MarksWellUsed(marks[..n], maxSize) && DedupeEvictable(MarkRun(marks[..n]), maxSize, marks[n].gone))
  }

  /** The dedupe set holds at most max(max_size, 4) ids, and always the one marked last. */
  lemma {:induction false} DedupeSizeBounded(marks: seq<Mark>, maxSize: nat)
    requires MarksWellUsed(marks, maxSize)
    ensures |MarkRun(marks)| <= Max(maxSize, 4)
    ensures marks != [] ==> marks[|marks| - 1].id in MarkRun(marks)
  {
    if marks != [] {
      var n := |marks| - 1;
      DedupeSizeBounded(marks[..n], maxSize);
      var seen := MarkRun(marks[..n]);
      assert |seen - marks[n].gone| == |seen| - |marks[n].gone|;
      assert |(seen - marks[n].gone) + {marks[n].id}| <= |seen - marks[n].gone| + 1;
    }
  }

  // ------------------------------------------------------------------ the stores

  class FileIdempotencyStore {
    var store: Store
    const maxSize: nat

    constructor (maxSize: nat)
      ensures store == map[] && this.maxSize == maxSize
    {
      store := map[];
      this.maxSize := maxSize;
    }

    /** Collects up to len / 4 settled keys in the order the map happens to yield them, and removes them. */
    method EvictIfNeeded() returns (gone: set<string>)
      modifies this
      ensures Evictable(old(store), maxSize, gone)
      ensures store == old(store) - gone
    {
      gone := {};
      if |store| >= maxSize {
        var rest := SettledKeys(store);
        while rest != {} && |gone| < |store| / 4
          invariant gone !! rest && gone + rest == SettledKeys(store)
          invariant |gone| <= |store| / 4
          decreases rest
        {
          var k :| k in rest;
          gone, rest := gone + {k}, rest - {k};
        }
        assert |SettledKeys(store)| == |gone| + |rest| by {
          assert gone + rest == SettledKeys(store);
        }
        store := store - gone;
      }
    }

    method StartKey(key: string) returns (started: bool, gone: set<string>)
      modifies this
      ensures Evictable(old(store), maxSize, gone)
      ensures (store, started) == EvictingStart(old(store), key, gone)
    {
      gone := EvictIfNeeded();
      if key in store && (store[key].InProgress? || store[key].Completed?) {
        started := false;
      } else {
        store := store[key := InProgress];
        started := true;
      }
    }

    method Complete(key: string)
      modifies this
      ensures store == old(store)[key := Completed]
    {
      store := store[key := Completed];
    }

    method Fail(key: string, error: string)
      modifies this
      ensures store == old(store)[key := Failed(error)]
    {
      store := store[key := Failed(error)];
    }
  }

  class FileDedupeStore {
    var seen: set<string>
    const maxSize: nat

    constructor (maxSize: nat)
      ensures seen == {} && this.maxSize == maxSize
    {
      seen := {};
      this.maxSize := maxSize;
    }

    method MarkProcessed(id: string) returns (inserted: bool, gone: set<string>)
      modifies this
      ensures DedupeEvictable(old(seen), maxSize, gone)
      ensures seen == (old(seen) - gone) + {id}
      ensures inserted <==> id !in old(seen) || id in gone
    {
      gone := {};
      if |seen| >= maxSize {
        var rest := seen;
        while |gone| < |seen| / 4
          invariant gone !! rest && gone + rest == seen
          invariant |gone| <= |seen| / 4
          decreases rest
        {
          assert |gone + rest| == |gone| + |rest|;
          var k :| k in rest;
          gone, rest := gone + {k}, rest - {k};
        }
        seen := seen - gone;
      }
      inserted := id !in seen;
      seen := seen + {id};
    }
  }
}
