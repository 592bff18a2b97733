/** The relay's poll cycle as its worker runs it, proved to be the cycle of module Relay. */
module RelayWorker {
  import opened Options
  import opened Stores
  import opened Relay

  function Dedupes(entries: seq<Entry>, completed: seq<string>): set<string> {
    if entries == [] then {}
    else
      var e := entries[|entries| - 1];
      Dedupes(entries[..|entries| - 1], completed) + (if e.id in completed then {e.id} else {})
  }

  lemma {:induction false} DedupesMeaning(entries: seq<Entry>, completed: seq<string>, id: string)
    ensures id in Dedupes(entries, completed) <==> id in completed && id in Ids(entries)
  {
    if entries != [] {
      var n := |entries| - 1;
      DedupesMeaning(entries[..n], completed, id);
      assert Ids(entries) == Ids(entries[..n]) + [entries[n].id];
    }
  }

  lemma {:induction false} AdmitsFromInput(store: Store, entries: seq<Entry>, gone: nat -> set<string>, id: string)
    requires id in Ids(Admit(store, entries, gone).1)
    ensures id in Ids(entries)
  {
    var n := |entries| - 1;
    var before := Admit(store, entries[..n], gone).1;
    assert Ids(entries) == Ids(entries[..n]) + [entries[n].id];
    assert Ids(before + [entries[n]]) == Ids(before) + [entries[n].id];
    if id != entries[n].id {
      AdmitsFromInput(store, entries[..n], gone, id);
    }
  }

  lemma {:induction false} SelectSubset(ids: seq<string>, wanted: set<string>, id: string)
    requires id in Select(ids, wanted)
    ensures id in ids
  {
    if id != ids[|ids| - 1] {
      SelectSubset(ids[..|ids| - 1], wanted, id);
    }
  }

  /** Everything completed was polled, so the dedupe marks are exactly the completed ids. */
  lemma DedupesAreCompleted(store: Store, entries: seq<Entry>, w: Weather, completed: seq<string>)
    requires forall id :: id in completed ==> id in Select(Ids(Admit(store, entries, w.gone).1), w.Delivers())
    ensures Dedupes(entries, completed) == set id | id in completed
  {
    forall id
      ensures id in Dedupes(entries, completed) <==> id in completed
    {
      DedupesMeaning(entries, completed, id);
      if id in completed {
        SelectSubset(Ids(Admit(store, entries, w.gone).1), w.Delivers(), id);
        AdmitsFromInput(store, entries, w.gone, id);
      }
    }
  }

  class OutboxRelay {
    var rows: seq<Entry>
    var checkpoint: nat
    var saved: nat
    var dedupe: set<string>
    var store: Store
    var bus: seq<string>

    function Contents(): State
      reads this
    {
      State(rows, checkpoint, saved, dedupe, store, bus)
    }

    constructor ()
      ensures Contents() == INITIAL
    {
      rows, checkpoint, saved, dedupe, store, bus := [], 0, 0, {}, map[], [];
    }

    method PollCycle(w: Weather) returns (entries: seq<Entry>)
      ensures entries == Poll(Contents(), w)
    {
      var since := if w.polls then checkpoint else 0;
      var fetched := FetchPending(rows, since, w.limit);
      entries := [];
      for i := 0 to |fetched|
        invariant entries == DropDuplicates(fetched[..i], dedupe)
      {
        assert fetched[..i + 1][..i] == fetched[..i];
        if fetched[i].id !in dedupe {
          entries := entries + [fetched[i]];
        }
      }
      assert fetched[..|fetched|] == fetched;
    }

    /** Starts the ids that are neither completed nor in progress; `gone(i)` is what the i-th start evicts. */
    method FilterStarted(entries: seq<Entry>, gone: nat -> set<string>) returns (toPublish: seq<Entry>)
      modifies this`store
      ensures (store, toPublish) == Admit(old(store), entries, gone)
    {
      toPublish := [];
      for i := 0 to |entries|
        invariant (store, toPublish) == Admit(old(store), entries[..i], gone)
      {
        assert entries[..i + 1][..i] == entries[..i];
        var e := entries[i];
        if e.id in store && store[e.id].Completed? {
          continue;
        }
        var (store', started) := Start(Evict(store, gone(i)), e.id);
        store := store';
        if started {
          toPublish := toPublish + [e];
        }
      }
      assert entries[..|entries|] == entries;
    }

    /** The bus first, the mirror second; a failing mirror does not take the event back. */
    method Publish(id: string, w: Weather) returns (ok: bool)
      modifies this`bus
      ensures ok <==> id in w.Delivers()
      ensures bus == old(bus) + (if id in w.reaches then [id] else [])
    {
      if id !in w.reaches {
        return false;
      }
      bus := bus + [id];
      return id in w.mirrored;
    }

    method PublishBatch(entries: seq<Entry>, w: Weather) returns (successes: seq<string>, failures: seq<string>)
      modifies this`bus
      ensures successes == Select(Ids(entries), w.Delivers()) && failures == Reject(Ids(entries), w.Delivers())
      ensures bus == old(bus) + Select(Ids(entries), w.reaches)
    {
      successes, failures := [], [];
      var ids := Ids(entries);
      for i := 0 to |entries|
        invariant successes == Select(ids[..i], w.Delivers()) && failures == Reject(ids[..i], w.Delivers())
        invariant bus == old(bus) + Select(ids[..i], w.reaches)
      {
        assert ids[..i + 1][..i] == ids[..i];
        var id := entries[i].id;
        var ok := Publish(id, w);
        if ok {
          successes := successes + [id];
        } else {
          failures := failures + [id];
        }
      }
      assert ids[..|ids|] == ids;
    }

    method SettleAll(ids: seq<string>, v: KeyStatus)
      modifies this`store
      ensures store == SetAll(old(store), ids, v)
    {
      for i := 0 to |ids|
        invariant store == SetAll(old(store), ids[..i], v)
      {
        assert ids[..i + 1][..i] == ids[..i];
        store := store[ids[i] := v];
      }
      assert ids[..|ids|] == ids;
    }

    /** `advance`: the file store moves in memory and then persists, the database store does both or nothing. */
    method Advance(sequence: nat, writes: Write)
      modifies this`checkpoint, this`saved
      ensures checkpoint == if writes.Refused? then old(checkpoint) else sequence
      ensures saved == if writes.Kept? then sequence else old(saved)
    {
      if !writes.Refused? {
        checkpoint := sequence;
      }
      if writes.Kept? {
        saved := sequence;
      }
    }

    method MarkProcessedById(entries: seq<Entry>, completed: seq<string>, acks: bool, writes: Write)
      modifies this`dedupe, this`checkpoint, this`saved
      ensures var moved := if writes.Refused? then None else Acknowledge(old(checkpoint), entries, completed, acks);
              && checkpoint == OrElse(moved, old(checkpoint))
              && saved == if writes.Kept? then OrElse(moved, old(saved)) else old(saved)
      ensures dedupe == old(dedupe) + Dedupes(entries, completed)
    {
      ghost var moved: Option<nat> := None;
      for i := 0 to |entries|
        invariant moved == if writes.Refused? then None
                           else Acknowledge(old(checkpoint), entries[..i], completed, acks)
        invariant checkpoint == OrElse(moved, old(checkpoint))
        invariant saved == if writes.Kept? then OrElse(moved, old(saved)) else old(saved)
        invariant dedupe == old(dedupe) + Dedupes(entries[..i], completed)
      {
        assert entries[..i + 1][..i] == entries[..i];
        var e := entries[i];
        if e.id in completed {
          dedupe := dedupe + {e.id};
          var current := if acks then checkpoint else 0;
          if e.sequence > current {
            Advance(e.sequence, writes);
            moved := if writes.Refused? then None else Some(e.sequence);
          }
        }
      }
      assert entries[..|entries|] == entries;
    }

    /** One turn of the worker's loop; a database error leaves the outbox rows as they were. */
    method RunCycle(w: Weather)
      modifies this
      ensures Contents() == Cycle(old(Contents()), w)
    {
      var entries := PollCycle(w);
      var toPublish := FilterStarted(entries, w.gone);
      var successes, failures := PublishBatch(toPublish, w);
      var completed := [];
      if w.marks {
        rows := MarkPublished(rows, successes);
        SettleAll(successes, Completed);
        completed := successes;
      } else {
        SettleAll(successes, Failed("mark_published failed"));
      }
      SettleAll(failures, Failed("publish failed"));
      MarkProcessedById(entries, completed, w.acks, w.writes);
      DedupesAreCompleted(old(store), entries, w, completed);
      assert MarkPublished(old(rows), []) == old(rows);
    }
  }
}
