/**
 What one relay cycle does, row by row, and what holds between cycles.
 */
module RelayGuarantees {
  import opened Options
  import opened Stores
  import opened Relay

  predicate Distinct(entries: seq<Entry>) {
    forall i, j :: 0 <= i < j < |entries| ==> entries[i].id != entries[j].id
  }

  // ------------------------------------------------------------- the filter loop

  /** What the filter loop knows about the store it has been working on. */
  ghost predicate Admitted(store: Store, store': Store, admitted: seq<Entry>) {
    && (forall i :: 0 <= i < |admitted| ==> admitted[i].id in store' && store'[admitted[i].id].InProgress?)
    && Distinct(admitted)
    && (forall id :: id in store' && store'[id].InProgress? ==>
          (id in store && store[id].InProgress?) || exists i :: 0 <= i < |admitted| && admitted[i].id == id)
    && (forall id :: id in store' && store'[id].Completed? ==> id in store && store[id].Completed?)
  }

  /**
   Mutual exclusion in a cycle: even if the poll repeats ids and whatever the store
   evicts, the list handed to the publisher has no duplicates and is exactly what
   became InProgress.
   */
  lemma {:induction false} AdmitIsExclusive(store: Store, entries: seq<Entry>, gone: nat -> set<string>)
    ensures Admitted(store, Admit(store, entries, gone).0, Admit(store, entries, gone).1)
  {
    if entries != [] {
      var n := |entries| - 1;
      AdmitIsExclusive(store, entries[..n], gone);
      var (store', admitted) := Admit(store, entries[..n], gone);
      var e := entries[n];
      if !(e.id in store' && store'[e.id].Completed?) {
        AdmitOne(store, store', admitted, e, gone(n));
      }
    }
  }

  lemma AdmitOne(store: Store, store': Store, admitted: seq<Entry>, e: Entry, gone: set<string>)
    requires Admitted(store, store', admitted)
    ensures var (store'', started) := Start(Evict(store', gone), e.id);
            Admitted(store, store'', if started then admitted + [e] else admitted)
  {
    var kept := Evict(store', gone);
    assert Admitted(store, kept, admitted) by {
      assert forall id :: id in store' && store'[id].InProgress? ==> id in kept && kept[id] == store'[id];
      assert forall id :: id in kept ==> id in store' && kept[id] == store'[id];
    }
    if Start(kept, e.id).1 {
      StartAdmits(store, kept, admitted, e);
    }
  }

  lemma StartAdmits(store: Store, kept: Store, admitted: seq<Entry>, e: Entry)
    requires Admitted(store, kept, admitted) && CanStart(kept, e.id)
    ensures Admitted(store, kept[e.id := InProgress], admitted + [e])
  {
    var store'', admitted' := kept[e.id := InProgress], admitted + [e];
    forall id | id in store'' && store''[id].InProgress?
      ensures (id in store && store[id].InProgress?) || exists i :: 0 <= i < |admitted'| && admitted'[i].id == id
    {
      if id == e.id {
        assert admitted'[|admitted|].id == id;
      } else if !(id in store && store[id].InProgress?) {
        var i :| 0 <= i < |admitted| && admitted[i].id == id;
        assert admitted'[i].id == id;
      }
    }
  }

  /** A store that never evicts never lets a completed id through again. */
  lemma {:induction false} CompletedNeverReadmitted(store: Store, entries: seq<Entry>, gone: nat -> set<string>,
                                                    id: string)
    requires id in store && store[id].Completed? && forall n :: gone(n) == {}
    ensures var (store', admitted) := Admit(store, entries, gone);
            && id in store' && store'[id].Completed?
            && forall i :: 0 <= i < |admitted| ==> admitted[i].id != id
  {
    if entries != [] {
      CompletedNeverReadmitted(store, entries[..|entries| - 1], gone, id);
    }
  }

  // ----------------------------------------------------------------- list helpers

  lemma {:induction false} SelectMeaning(ids: seq<string>, wanted: set<string>, id: string)
    ensures id in Select(ids, wanted) <==> id in ids && id in wanted
    ensures id in Reject(ids, wanted) <==> id in ids && id !in wanted
  {
    if ids != [] {
      SelectMeaning(ids[..|ids| - 1], wanted, id);
      assert ids == ids[..|ids| - 1] + [ids[|ids| - 1]];
    }
  }

  predicate NoRepeats(ids: seq<string>) {
    forall i, j :: 0 <= i < j < |ids| ==> ids[i] != ids[j]
  }

  lemma {:induction false} SelectNoRepeats(ids: seq<string>, wanted: set<string>)
    requires NoRepeats(ids)
    ensures NoRepeats(Select(ids, wanted))
  {
    if ids != [] {
      var n := |ids| - 1;
      SelectNoRepeats(ids[..n], wanted);
      SelectMeaning(ids[..n], wanted, ids[n]);
    }
  }

  lemma {:induction false} SetAllMeaning(store: Store, ids: seq<string>, v: KeyStatus, id: string)
    ensures id in SetAll(store, ids, v) <==> id in store || id in ids
    ensures id in SetAll(store, ids, v) ==> SetAll(store, ids, v)[id] == if id in ids then v else store[id]
  {
    if ids != [] {
      SetAllMeaning(store, ids[..|ids| - 1], v, id);
      assert ids == ids[..|ids| - 1] + [ids[|ids| - 1]];
    }
  }

  lemma {:induction false} PendingMeaning(rows: seq<Entry>, since: nat, e: Entry)
    ensures e in Pending(rows, since) <==> e in rows && !e.published && e.sequence > since
  {
    if rows != [] {
      PendingMeaning(rows[..|rows| - 1], since, e);
      assert rows == rows[..|rows| - 1] + [rows[|rows| - 1]];
    }
  }

  predicate Ascending(entries: seq<Entry>) {
    forall i, j :: 0 <= i < j < |entries| ==> entries[i].sequence < entries[j].sequence
  }

  lemma {:induction false} PendingAscending(rows: seq<Entry>, since: nat)
    requires Ascending(rows)
    ensures Ascending(Pending(rows, since))
  {
    if rows != [] {
      var n := |rows| - 1;
      PendingAscending(rows[..n], since);
      forall i | 0 <= i < |Pending(rows[..n], since)|
        ensures Pending(rows[..n], since)[i].sequence < rows[n].sequence
      {
        var e := Pending(rows[..n], since)[i];
        PendingMeaning(rows[..n], since, e);
        var k :| 0 <= k < n && rows[..n][k] == e;
      }
    }
  }

  lemma {:induction false} NothingDropped(entries: seq<Entry>, dedupe: set<string>)
    requires forall i :: 0 <= i < |entries| ==> entries[i].id !in dedupe
    ensures DropDuplicates(entries, dedupe) == entries
  {
    if entries != [] {
      NothingDropped(entries[..|entries| - 1], dedupe);
    }
  }

  /** An id that could start and was not admitted yet can still start, whatever is evicted. */
  lemma StillStartable(store: Store, store': Store, admitted: seq<Entry>, id: string, gone: set<string>)
    requires Admitted(store, store', admitted) && CanStart(store, id)
    requires forall i :: 0 <= i < |admitted| ==> admitted[i].id != id
    ensures CanStart(store', id) && CanStart(Evict(store', gone), id)
  {
    assert !(id in store' && store'[id].InProgress?);
    assert !(id in store' && store'[id].Completed?);
  }

  lemma {:induction false} AllAdmitted(store: Store, entries: seq<Entry>, gone: nat -> set<string>)
    requires Distinct(entries)
    requires forall i :: 0 <= i < |entries| ==> CanStart(store, entries[i].id)
    ensures Admit(store, entries, gone).1 == entries
  {
    if entries != [] {
      var n := |entries| - 1;
      var init := entries[..n];
      AllAdmitted(store, init, gone);
      AdmitIsExclusive(store, init, gone);
      var store' := Admit(store, init, gone).0;
      assert CanStart(store', entries[n].id) && CanStart(Evict(store', gone(n)), entries[n].id) by {
        assert CanStart(store, entries[n].id);
        StillStartable(store, store', init, entries[n].id, gone(n));
      }
      assert entries == init + [entries[n]];
    }
  }

  /** The i-th entry is one of the completed. */
  predicate CompletedAt(entries: seq<Entry>, completed: seq<string>, i: nat) {
    i < |entries| && entries[i].id in completed
  }

  /** The checkpoint ends at a completed entry, above all completed ones, or stays where it was. */
  lemma {:induction false} AcknowledgeMeaning(checkpoint: nat, entries: seq<Entry>, completed: seq<string>, acks: bool)
    requires Ascending(entries) && forall i :: 0 <= i < |entries| ==> entries[i].sequence > 0
    ensures var moved := Acknowledge(checkpoint, entries, completed, acks);
            && (forall i: nat :: CompletedAt(entries, completed, i) ==>
                  entries[i].sequence <= OrElse(moved, checkpoint) && (acks || moved.Some?))
            && (moved.Some? ==>
                  exists i: nat :: CompletedAt(entries, completed, i) && entries[i].sequence == moved.value)
            && (acks || (forall i :: 0 <= i < |entries| ==> entries[i].sequence > checkpoint) ==>
                  checkpoint <= OrElse(moved, checkpoint))
  {
    if entries != [] {
      var n := |entries| - 1;
      var init := entries[..n];
      AcknowledgeMeaning(checkpoint, init, completed, acks);
      forall i: nat | i < n
        ensures CompletedAt(init, completed, i) <==> CompletedAt(entries, completed, i)
      {
      }
      if Acknowledge(checkpoint, entries, completed, acks) == Some(entries[n].sequence)
         && entries[n].id in completed {
        assert CompletedAt(entries, completed, n);
      }
    }
  }

  // ------------------------------------------------------------------- a cycle

  lemma PendingIsStartable(s: State, since: nat, e: Entry)
    requires Inv(s) && e in Pending(s.rows, since)
    ensures e in s.rows && !e.published && e.sequence > since
    ensures e.id !in s.dedupe && CanStart(s.store, e.id)
  {
    PendingMeaning(s.rows, since, e);
    UnpublishedId(s.rows, e);
  }

  /** What a poll looks at: unpublished rows, each id once, in sequence order. */
  lemma FetchFacts(s: State, w: Weather)
    requires Inv(s)
    ensures var f := Fetched(s, w);
            && Ascending(f) && Distinct(f)
            && forall i :: 0 <= i < |f| ==>
                 && f[i] in s.rows && !f[i].published && f[i].sequence > 0
                 && (w.polls ==> f[i].sequence > s.checkpoint)
                 && f[i].id !in s.dedupe && CanStart(s.store, f[i].id)
  {
    var f := Fetched(s, w);
    var since := Since(s, w);
    PendingAscending(s.rows, since);
    forall i | 0 <= i < |f|
      ensures f[i] in s.rows && !f[i].published && f[i].sequence > since
      ensures f[i].id !in s.dedupe && CanStart(s.store, f[i].id)
    {
      PendingIsStartable(s, since, f[i]);
    }
    forall i, j | 0 <= i < j < |f|
      ensures f[i].id != f[j].id
    {
      SameIdSameRow(s.rows, f[i], f[j]);
    }
  }

  /** Between cycles a poll finds exactly the oldest unpublished rows, and all of them are started. */
  lemma PollIsFetch(s: State, w: Weather)
    requires Inv(s)
    ensures var f := Fetched(s, w);
            && Poll(s, w) == f && Admit(s.store, f, w.gone).1 == f
            && Distinct(f) && Ascending(f)
            && forall i :: 0 <= i < |f| ==> f[i] in s.rows && !f[i].published && f[i].sequence > 0
  {
    var f := Fetched(s, w);
    FetchFacts(s, w);
    NothingDropped(f, s.dedupe);
    AllAdmitted(s.store, f, w.gone);
  }

  lemma SameIdSameRow(rows: seq<Entry>, a: Entry, b: Entry)
    requires Ordered(rows) && a in rows && b in rows
    ensures a.id == b.id ==> a == b
  {
    var i :| 0 <= i < |rows| && rows[i] == a;
    var j :| 0 <= j < |rows| && rows[j] == b;
    assert i < j ==> rows[i].id != rows[j].id;
    assert j < i ==> rows[j].id != rows[i].id;
  }

  lemma UnpublishedId(rows: seq<Entry>, e: Entry)
    requires Ordered(rows) && e in rows && !e.published
    ensures !IsPublished(rows, e.id)
  {
    forall i | 0 <= i < |rows| && rows[i].id == e.id
      ensures rows[i] == e
    {
      SameIdSameRow(rows, rows[i], e);
    }
  }

  /** What a cycle completes: the fetched ids whose publish succeeded, if the database update did. */
  function Completions(s: State, w: Weather): seq<string> {
    if w.marks then Select(Ids(Fetched(s, w)), w.Delivers()) else []
  }

  function Moved(s: State, w: Weather): Option<nat> {
    if w.writes.Refused? then None else Acknowledge(s.checkpoint, Fetched(s, w), Completions(s, w), w.acks)
  }

  function SettledStore(s: State, w: Weather): Store {
    var f := Fetched(s, w);
    var store := Admit(s.store, f, w.gone).0;
    SetAll(
      SetAll(store, Select(Ids(f), w.Delivers()), if w.marks then Completed else Failed("mark_published failed")),
      Reject(Ids(f), w.Delivers()), Failed("publish failed"))
  }

  /** Between cycles, a cycle in terms of what it fetches. */
  lemma CycleEffects(s: State, w: Weather)
    requires Inv(s)
    ensures Cycle(s, w) ==
            State(MarkPublished(s.rows, Completions(s, w)),
                  OrElse(Moved(s, w), s.checkpoint),
                  if w.writes.Kept? then OrElse(Moved(s, w), s.saved) else s.saved,
                  s.dedupe + (set id | id in Completions(s, w)),
                  SettledStore(s, w),
                  s.bus + Select(Ids(Fetched(s, w)), w.reaches))
  {
    PollIsFetch(s, w);
  }

  // ------------------------------------------------------------------ row by row

  predicate IsFetched(s: State, w: Weather, k: nat) {
    k < |s.rows| && s.rows[k] in Fetched(s, w)
  }

  /** Row k is fetched, delivered and marked. */
  predicate Completes(s: State, w: Weather, k: nat) {
    w.marks && IsFetched(s, w, k) && s.rows[k].id in w.Delivers()
  }

  lemma FetchedRow(s: State, w: Weather, k: nat)
    requires Ordered(s.rows) && IsFetched(s, w, k)
    ensures !s.rows[k].published && s.rows[k].sequence > Since(s, w)
  {
    PendingMeaning(s.rows, Since(s, w), s.rows[k]);
  }

  lemma FetchedIndex(s: State, w: Weather, i: nat) returns (k: nat)
    requires Ordered(s.rows) && i < |Fetched(s, w)|
    ensures IsFetched(s, w, k) && s.rows[k] == Fetched(s, w)[i]
  {
    var e := Fetched(s, w)[i];
    PendingMeaning(s.rows, Since(s, w), e);
    k :| 0 <= k < |s.rows| && s.rows[k] == e;
  }

  lemma CompletionIff(s: State, w: Weather, k: nat)
    requires Ordered(s.rows) && k < |s.rows|
    ensures s.rows[k].id in Completions(s, w) <==> Completes(s, w, k)
  {
    var f, id := Fetched(s, w), s.rows[k].id;
    SelectMeaning(Ids(f), w.Delivers(), id);
    if id in Ids(f) {
      var i :| 0 <= i < |Ids(f)| && Ids(f)[i] == id;
      var j := FetchedIndex(s, w, i);
      assert s.rows[j].id == id;
    }
    if s.rows[k] in f {
      var i :| 0 <= i < |f| && f[i] == s.rows[k];
      assert Ids(f)[i] == id;
    }
  }

  lemma CompletedRow(s: State, w: Weather, id: string) returns (k: nat)
    requires Ordered(s.rows) && id in Completions(s, w)
    ensures Completes(s, w, k) && s.rows[k].id == id
  {
    var f := Fetched(s, w);
    SelectMeaning(Ids(f), w.Delivers(), id);
    var i :| 0 <= i < |Ids(f)| && Ids(f)[i] == id;
    k := FetchedIndex(s, w, i);
  }

  /** A cycle publishes exactly the rows it completes. */
  ghost predicate MarksRows(s: State, w: Weather, s': State) {
    && |s'.rows| == |s.rows|
    && forall k: nat :: k < |s.rows| ==>
         s'.rows[k] == s.rows[k].(published := s.rows[k].published || Completes(s, w, k))
  }

  /**
   Where a cycle leaves the checkpoint: nowhere below a completed row unless the write is
   refused, at a completed row if it moves at all, and at one for certain if it could not
   be read. It moves back only if it could be read neither before nor after.
   */
  ghost predicate MovesCheckpoint(s: State, w: Weather, s': State) {
    && (forall k: nat :: Completes(s, w, k) && !w.writes.Refused? ==> s.rows[k].sequence <= s'.checkpoint)
    && (s'.checkpoint != s.checkpoint ==>
          !w.writes.Refused? && exists k: nat :: Completes(s, w, k) && s.rows[k].sequence == s'.checkpoint)
    && (forall k: nat :: Completes(s, w, k) && !w.writes.Refused? && !w.acks ==>
          exists j: nat :: Completes(s, w, j) && s.rows[j].sequence == s'.checkpoint)
    && (w.polls || w.acks ==> s.checkpoint <= s'.checkpoint)
    && (s'.saved == s.saved || s'.saved == s'.checkpoint)
    && (w.writes.Kept? && s'.checkpoint != s.checkpoint ==> s'.saved == s'.checkpoint)
  }

  lemma CycleMarksRows(s: State, w: Weather)
    requires Inv(s)
    ensures MarksRows(s, w, Cycle(s, w))
  {
    CycleEffects(s, w);
    forall k: nat | k < |s.rows|
      ensures s.rows[k].id in Completions(s, w) <==> Completes(s, w, k)
    {
      CompletionIff(s, w, k);
    }
  }

  /** The completed rows are the completed entries of the fetch. */
  lemma RowOfCompleted(s: State, w: Weather, i: nat) returns (k: nat)
    requires Ordered(s.rows) && CompletedAt(Fetched(s, w), Completions(s, w), i)
    ensures Completes(s, w, k) && s.rows[k] == Fetched(s, w)[i]
  {
    k := FetchedIndex(s, w, i);
    CompletionIff(s, w, k);
  }

  lemma EntryOfCompleted(s: State, w: Weather, k: nat) returns (i: nat)
    requires Ordered(s.rows) && Completes(s, w, k)
    ensures CompletedAt(Fetched(s, w), Completions(s, w), i) && Fetched(s, w)[i] == s.rows[k]
  {
    i :| 0 <= i < |Fetched(s, w)| && Fetched(s, w)[i] == s.rows[k];
    CompletionIff(s, w, k);
  }

  /** Where the acknowledgement moves the checkpoint, in terms of rows. */
  lemma MovedByRows(s: State, w: Weather)
    requires Inv(s) && !w.writes.Refused?
    ensures forall k: nat :: Completes(s, w, k) ==>
              s.rows[k].sequence <= OrElse(Moved(s, w), s.checkpoint) && (w.acks || Moved(s, w).Some?)
    ensures Moved(s, w).Some? ==> exists k: nat :: Completes(s, w, k) && s.rows[k].sequence == Moved(s, w).value
    ensures w.polls || w.acks ==> s.checkpoint <= OrElse(Moved(s, w), s.checkpoint)
  {
    var f, completed := Fetched(s, w), Completions(s, w);
    FetchFacts(s, w);
    AcknowledgeMeaning(s.checkpoint, f, completed, w.acks);
    forall k: nat | Completes(s, w, k)
      ensures s.rows[k].sequence <= OrElse(Moved(s, w), s.checkpoint) && (w.acks || Moved(s, w).Some?)
    {
      var i := EntryOfCompleted(s, w, k);
    }
    if Moved(s, w).Some? {
      var i: nat :| CompletedAt(f, completed, i) && f[i].sequence == Moved(s, w).value;
      var k := RowOfCompleted(s, w, i);
    }
  }

  lemma CycleMovesCheckpoint(s: State, w: Weather)
    requires Inv(s)
    ensures MovesCheckpoint(s, w, Cycle(s, w))
  {
    CycleEffects(s, w);
    if !w.writes.Refused? {
      MovedByRows(s, w);
    }
  }

  // ------------------------------------------------------------------- invariant

  /** An id the loop does not look at keeps its status, unless the store evicts it. */
  lemma {:induction false} AdmitLeavesOthersAlone(store: Store, entries: seq<Entry>, gone: nat -> set<string>,
                                                  id: string)
    requires id !in Ids(entries)
    ensures var store' := Admit(store, entries, gone).0;
            && (id in store' ==> id in store && store'[id] == store[id])
            && (id in store && id !in store' ==> exists n :: id in gone(n))
  {
    if entries != [] {
      var n := |entries| - 1;
      var init := Admit(store, entries[..n], gone).0;
      assert forall i :: 0 <= i < n ==> Ids(entries)[i] == Ids(entries[..n])[i];
      AdmitLeavesOthersAlone(store, entries[..n], gone, id);
      assert entries[n].id == Ids(entries)[n];
      assert id in init && id !in Evict(init, gone(n)) ==> id in gone(n);
    }
  }

  /** What a cycle leaves in the store about a fetched id: completed iff marked, and otherwise why it failed. */
  predicate SettledAs(store: Store, w: Weather, id: string) {
    && id in store && store[id].Settled()
    && (store[id].Completed? <==> w.marks && id in w.Delivers())
    && (store[id] == Failed("publish failed") <==> id !in w.Delivers())
    && (store[id] == Failed("mark_published failed") <==> !w.marks && id in w.Delivers())
  }

  /**
   After a cycle a fetched id is Completed, and remembered as a duplicate, if and only if it
   was delivered and marked, and Failed otherwise; any other id has the status it had,
   unless it was evicted.
   */
  lemma StoreAfterCycle(s: State, w: Weather, id: string)
    requires Inv(s)
    ensures id in Ids(Fetched(s, w)) ==> SettledAs(Cycle(s, w).store, w, id)
    ensures id !in Ids(Fetched(s, w)) && id in Cycle(s, w).store ==>
              id in s.store && Cycle(s, w).store[id] == s.store[id]
    ensures id !in Ids(Fetched(s, w)) && id in s.store && id !in Cycle(s, w).store ==> exists n :: id in w.gone(n)
    ensures id in Cycle(s, w).dedupe <==>
            id in s.dedupe || (id in Ids(Fetched(s, w)) && w.marks && id in w.Delivers())
  {
    var f := Fetched(s, w);
    CycleEffects(s, w);
    SelectMeaning(Ids(f), w.Delivers(), id);
    if id !in Ids(f) {
      AdmitLeavesOthersAlone(s.store, f, w.gone, id);
    }
    SettleMeaning(Admit(s.store, f, w.gone).0, f, w, id);
  }

  /** The settling calls. */
  lemma SettleMeaning(store: Store, f: seq<Entry>, w: Weather, id: string)
    ensures var v := if w.marks then Completed else Failed("mark_published failed");
            var settled := SetAll(SetAll(store, Select(Ids(f), w.Delivers()), v), Reject(Ids(f), w.Delivers()),
                                  Failed("publish failed"));
            && (id in Ids(f) ==> SettledAs(settled, w, id))
            && (id !in Ids(f) ==> (id in settled <==> id in store) && (id in store ==> settled[id] == store[id]))
  {
    var v := if w.marks then Completed else Failed("mark_published failed");
    var once := SetAll(store, Select(Ids(f), w.Delivers()), v);
    SelectMeaning(Ids(f), w.Delivers(), id);
    SetAllMeaning(store, Select(Ids(f), w.Delivers()), v, id);
    SetAllMeaning(once, Reject(Ids(f), w.Delivers()), Failed("publish failed"), id);
  }

  /** A cycle publishes what it completes and nothing else. */
  lemma PublishedAfter(s: State, w: Weather, id: string)
    requires Inv(s)
    ensures IsPublished(Cycle(s, w).rows, id) <==> IsPublished(s.rows, id) || id in Completions(s, w)
  {
    CycleMarksRows(s, w);
    PublishedByRows(s, w, Cycle(s, w), id);
  }

  lemma PublishedByRows(s: State, w: Weather, s': State, id: string)
    requires Ordered(s.rows) && MarksRows(s, w, s')
    ensures IsPublished(s'.rows, id) <==> IsPublished(s.rows, id) || id in Completions(s, w)
  {
    if IsPublished(s.rows, id) {
      var k :| 0 <= k < |s.rows| && s.rows[k].id == id && s.rows[k].published;
      assert s'.rows[k].id == id && s'.rows[k].published;
    } else if id in Completions(s, w) {
      var k := CompletedRow(s, w, id);
      assert s'.rows[k].id == id && s'.rows[k].published;
    } else if IsPublished(s'.rows, id) {
      var k :| 0 <= k < |s'.rows| && s'.rows[k].id == id && s'.rows[k].published;
      CompletionIff(s, w, k);
    }
  }

  lemma CycleKeepsInv(s: State, w: Weather)
    requires Inv(s)
    ensures Inv(Cycle(s, w))
  {
    var s' := Cycle(s, w);
    CycleEffects(s, w);
    forall id | id in s'.store
      ensures s'.store[id].Settled() && (s'.store[id].Completed? ==> IsPublished(s'.rows, id))
    {
      StoreAfterCycle(s, w, id);
      SelectMeaning(Ids(Fetched(s, w)), w.Delivers(), id);
      PublishedAfter(s, w, id);
    }
    forall id | id in s'.dedupe
      ensures IsPublished(s'.rows, id)
    {
      PublishedAfter(s, w, id);
    }
  }

  lemma AppendKeepsInv(s: State, id: string, gap: nat)
    requires Inv(s)
    ensures Inv(Step(s, Append(id, gap)))
  {
    var s' := Step(s, Append(id, gap));
    forall x | IsPublished(s.rows, x)
      ensures IsPublished(s'.rows, x)
    {
      var k :| 0 <= k < |s.rows| && s.rows[k].id == x && s.rows[k].published;
      assert s'.rows[k] == s.rows[k];
    }
  }

  lemma StepKeepsInv(s: State, a: Action)
    requires Inv(s)
    ensures Inv(Step(s, a))
  {
    match a
    case Append(id, gap) => AppendKeepsInv(s, id, gap);
    case RunCycle(w) => CycleKeepsInv(s, w);
    case ForgetDedupe(_) =>
    case Restart(_) =>
  }

  lemma {:induction false} RunKeepsInv(actions: seq<Action>)
    ensures Inv(Run(actions))
  {
    if actions != [] {
      RunKeepsInv(actions[..|actions| - 1]);
      StepKeepsInv(Run(actions[..|actions| - 1]), actions[|actions| - 1]);
    }
  }

  // --------------------------------------------------------------------- the bus

  function PublishedIds(rows: seq<Entry>): set<string> {
    set k | 0 <= k < |rows| && rows[k].published :: rows[k].id
  }

  /** The bus holds exactly these ids, each once. */
  ghost predicate Once(bus: seq<string>, ids: set<string>) {
    NoRepeats(bus) && forall id :: id in bus <==> id in ids
  }

  lemma NoRepeatsParts(a: seq<string>, b: seq<string>)
    requires NoRepeats(a + b)
    ensures NoRepeats(a) && forall id :: id in a ==> id !in b
  {
    var all := a + b;
    forall i, j | 0 <= i < j < |a| ensures a[i] != a[j] { assert all[i] == a[i] && all[j] == a[j]; }
    forall i, j | 0 <= i < |a| && 0 <= j < |b| ensures a[i] != b[j] { assert all[i] == a[i] && all[|a| + j] == b[j]; }
  }

  lemma NoRepeatsConcat(a: seq<string>, b: seq<string>)
    requires NoRepeats(a) && NoRepeats(b) && forall id :: id in a ==> id !in b
    ensures NoRepeats(a + b)
  {
    forall i, j | 0 <= i < j < |a + b|
      ensures (a + b)[i] != (a + b)[j]
    {
      if i < |a| <= j {
        assert a[i] in a && b[j - |a|] in b;
      }
    }
  }

  /**
   Sending new ids and publishing some of them keeps the bus exact if and only if it was
   exact and all of them were published: what is on the bus and not published, or there
   twice, can never be put right.
   */
  lemma OnceStep(bus: seq<string>, ids: set<string>, sent: seq<string>, done: set<string>)
    requires NoRepeats(sent) && forall id :: id in sent ==> id !in ids
    requires (forall id :: id in done ==> id in sent) && forall id :: id in ids ==> id in bus
    ensures Once(bus + sent, ids + done) <==> Once(bus, ids) && forall id :: id in sent ==> id in done
  {
    assert forall id :: id in bus + sent <==> id in bus || id in sent;
    if Once(bus, ids) {
      NoRepeatsConcat(bus, sent);
    }
    if Once(bus + sent, ids + done) {
      NoRepeatsParts(bus, sent);
      forall id | id in bus
        ensures id in ids
      {
        assert id in bus + sent;
      }
      forall id | id in sent
        ensures id in done
      {
        assert id in bus + sent;
      }
    }
  }
}
