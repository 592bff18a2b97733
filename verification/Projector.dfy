/**
 The projector: a last-writer-wins upsert per counter, an ordered and bounded read
 of the outbox, and the batched replay loop with its checkpoint.
 */
module Projector {
  import opened CounterDomain
  import opened EventLog

  datatype ProjectionRow = ProjectionRow(value: int, version: int, operation: Operation)

  /** Primary key (tenant_id, counter_key). */
  type Table = map<(string, string), ProjectionRow>

  /** One event through the consumers; only counter events reach the read model. */
  function Upsert(table: Table, e: AppEvent): Table {
    match e
    case Foreign => table
    case CounterEvent(c) => table[(c.tenantId, c.counterKey) := ProjectionRow(c.newValue, c.version, c.operation)]
  }

  function Project(table: Table, rows: seq<Row>): Table {
    if rows == [] then table
    else Upsert(Project(table, rows[..|rows| - 1]), rows[|rows| - 1].event)
  }

  function RowsAfter(log: seq<Row>, since: nat): seq<Row> {
    if log == [] then []
    else if log[0].sequence > since then [log[0]] + RowsAfter(log[1..], since)
    else RowsAfter(log[1..], since)
  }

  /** SELECT ... WHERE sequence > since ORDER BY sequence LIMIT limit, on a log in sequence order. */
  function FetchSince(log: seq<Row>, since: nat, limit: nat): seq<Row> {
    var rows := RowsAfter(log, since);
    if |rows| <= limit then rows else rows[..limit]
  }

  /** The number of rows whose sequence is at most `since`. */
  function PositionAfter(log: seq<Row>, since: nat): (p: nat)
    ensures p <= |log|
  {
    if log == [] then 0
    else if log[0].sequence > since then 0
    else 1 + PositionAfter(log[1..], since)
  }

  lemma {:induction false} PositionSplitsLog(log: seq<Row>, since: nat)
    requires Increasing(log)
    ensures var p := PositionAfter(log, since);
            && (forall i :: 0 <= i < p ==> log[i].sequence <= since)
            && (forall i :: p <= i < |log| ==> log[i].sequence > since)
  {
    if log != [] {
      var p := PositionAfter(log, since);
      if log[0].sequence <= since {
        IncreasingTail(log);
        PositionSplitsLog(log[1..], since);
      }
      forall i | 0 <= i < |log|
        ensures (i < p ==> log[i].sequence <= since) && (p <= i ==> log[i].sequence > since)
      {
        IncreasingPair(log, 0, i + 1);
        assert i > 0 ==> log[i] == log[1..][i - 1];
      }
    }
  }

  /** The position after the sequence of a row is the next row. */
  lemma PositionAfterRow(log: seq<Row>, r: nat)
    requires Increasing(log) && 0 < r <= |log|
    ensures PositionAfter(log, log[r - 1].sequence) == r
  {
    var p := PositionAfter(log, log[r - 1].sequence);
    PositionSplitsLog(log, log[r - 1].sequence);
    if r < p {
      IncreasingPair(log, r - 1, p);
    }
  }

  lemma {:induction false} RowsAfterIsSuffix(log: seq<Row>, since: nat)
    requires Increasing(log)
    ensures RowsAfter(log, since) == log[PositionAfter(log, since)..]
  {
    if log != [] {
      IncreasingTail(log);
      RowsAfterIsSuffix(log[1..], since);
      if log[0].sequence > since && |log| > 1 {
        IncreasingPair(log, 0, 2);
        assert PositionAfter(log[1..], since) == 0;
      }
    }
  }

  /** Where a fetch at position p stops. */
  function BatchEnd(log: seq<Row>, p: nat, limit: nat): (q: nat)
    requires p <= |log|
    ensures p <= q <= |log|
    ensures q == p <==> p == |log| || limit == 0
  {
    if |log| - p <= limit then |log| else p + limit
  }

  /** A fetch returns the next rows of the log, all of them or as many as the limit allows. */
  lemma FetchIsASlice(log: seq<Row>, since: nat, limit: nat)
    requires Increasing(log)
    ensures var p := PositionAfter(log, since);
            FetchSince(log, since, limit) == log[p..BatchEnd(log, p, limit)]
  {
    RowsAfterIsSuffix(log, since);
  }

  function Later(a: nat, b: nat): nat {
    if b > a then b else a
  }

  lemma ProjectAppend(table: Table, rows: seq<Row>, row: Row)
    ensures Project(table, rows + [row]) == Upsert(Project(table, rows), row.event)
  {
    assert (rows + [row])[..|rows|] == rows;
  }

  /** Reapplying the row that was applied last changes nothing. */
  lemma UpsertTwice(table: Table, rows: seq<Row>)
    requires rows != []
    ensures Upsert(Project(table, rows), rows[|rows| - 1].event) == Project(table, rows)
  {
  }

  /** The projection of a well-formed log is its replay: row by row, and nothing else. */
  lemma {:induction false} ProjectionIsReplay(log: seq<Row>, id: CounterId)
    requires WellFormed(log)
    ensures var table := Project(map[], log);
            var c := StateAfter(log, id);
            && ((id, id) in table <==> c.version >= 1)
            && ((id, id) in table ==> table[(id, id)].value == c.value && table[(id, id)].version == c.version)
            && (forall k :: k in table ==> k.0 == k.1)
  {
    if log != [] {
      var n := |log| - 1;
      WellFormedPrefix(log, n);
      ProjectionIsReplay(log[..n], id);
      assert Faithful(log, n);
      ValueBoundedByVersion(log[..n], id);
    }
  }

  /** The operation shown for a counter is the one of its last event. */
  lemma {:induction false} ProjectionShowsLastOperation(log: seq<Row>, i: nat)
    requires WellFormed(log) && i < |log| && log[i].event.CounterEvent?
    requires forall j :: i < j < |log| ==> !Concerns(log[j], log[i].event.changed.tenantId)
    ensures var e := log[i].event.changed;
            var k := (e.tenantId, e.tenantId);
            k in Project(map[], log) && Project(map[], log)[k] == ProjectionRow(e.newValue, e.version, e.operation)
    decreases |log|
  {
    var n := |log| - 1;
    assert Faithful(log, i);
    if i < n {
      WellFormedPrefix(log, n);
      assert Faithful(log, n);
      ProjectionShowsLastOperation(log[..n], i);
    }
  }

  /** How many rows are counter events; the others are passed over. */
  function CounterEvents(rows: seq<Row>): nat {
    if rows == [] then 0
    else CounterEvents(rows[..|rows| - 1]) + (if rows[|rows| - 1].event.CounterEvent? then 1 else 0)
  }

  class ProjectorWorker {
    var table: Table
    var checkpoint: nat
    ghost var processed: seq<Row>

    constructor (initial: nat)
      ensures table == map[] && checkpoint == initial && processed == []
    {
      table, checkpoint, processed := map[], initial, [];
    }

    method ProcessEvent(row: Row) returns (projected: nat)
      modifies this`table, this`processed
      ensures table == Upsert(old(table), row.event)
      ensures processed == old(processed) + [row]
      ensures projected == if row.event.CounterEvent? then 1 else 0
    {
      projected := 0;
      if row.event.CounterEvent? {
        var c := row.event.changed;
        table := table[(c.tenantId, c.counterKey) := ProjectionRow(c.newValue, c.version, c.operation)];
        projected := projected + 1;
      }
      processed := processed + [row];
    }

    /** A checkpoint is only ever moved forward. */
    method Acknowledge(sequence: nat)
      modifies this`checkpoint
      ensures checkpoint == if sequence > old(checkpoint) then sequence else old(checkpoint)
    {
      if sequence > checkpoint {
        checkpoint := sequence;
      }
    }

    method ProcessBatch(events: seq<Row>) returns (projected: nat)
      requires Increasing(events)
      modifies this
      ensures table == Project(old(table), events)
      ensures processed == old(processed) + events
      ensures checkpoint == Later(old(checkpoint), LastSequence(events))
      ensures projected == CounterEvents(events)
    {
      projected := 0;
      var i := 0;
      while i < |events|
        invariant 0 <= i <= |events|
        invariant table == Project(old(table), events[..i])
        invariant processed == old(processed) + events[..i]
        invariant checkpoint == Later(old(checkpoint), LastSequence(events[..i]))
        invariant projected == CounterEvents(events[..i])
      {
        BatchStep(old(table), old(checkpoint), events, i);
        var n := ProcessEvent(events[i]);
        projected := projected + n;
        Acknowledge(events[i].sequence);
        i := i + 1;
      }
      assert events[..i] == events;
    }

    /** What a replay from position p has done once it has come to `since`. */
    ghost predicate Replayed(rows: seq<Row>, table0: Table, checkpoint0: nat, processed0: seq<Row>)
      reads this
    {
      Reached(rows, table0, checkpoint0, table, checkpoint) && processed == processed0 + rows
    }

    /** One turn of the replay loop: the next batch after `since`, if there is one. */
    method ReplayBatch(log: seq<Row>, ghost p: nat, since: nat, batchSize: nat,
                       ghost table0: Table, ghost checkpoint0: nat, ghost processed0: seq<Row>)
      returns (more: bool, next: nat)
      requires Increasing(log) && p <= PositionAfter(log, since)
      requires Replayed(log[p..PositionAfter(log, since)], table0, checkpoint0, processed0)
      modifies this
      ensures more <==> FetchSince(log, since, batchSize) != []
      ensures if more then PositionAfter(log, since) < PositionAfter(log, next) && batchSize > 0 else next == since
      ensures p <= PositionAfter(log, next)
      ensures Replayed(log[p..PositionAfter(log, next)], table0, checkpoint0, processed0)
    {
      var events := FetchSince(log, since, batchSize);
      if events == [] {
        return false, since;
      }
      FetchedSlice(log, since, batchSize);
      next := events[|events| - 1].sequence;
      ReachedJoin(log, p, PositionAfter(log, since), PositionAfter(log, next), table0, checkpoint0, table, checkpoint);
      SliceJoin(log, p, PositionAfter(log, since), PositionAfter(log, next));
      var _ := ProcessBatch(events);
      more := true;
    }

    /**
     Replay to the end of the log. Every row after `start` is processed once, in
     order, however the reads are batched; a batch size of 0 fetches nothing.
     */
    method ReplayOutbox(log: seq<Row>, start: nat, batchSize: nat)
      requires Increasing(log)
      modifies this
      ensures var rows := if batchSize == 0 then [] else log[PositionAfter(log, start)..];
              && table == Project(old(table), rows)
              && processed == old(processed) + rows
              && checkpoint == Later(old(checkpoint), LastSequence(rows))
    {
      var since, more := start, true;
      ghost var p := PositionAfter(log, start);
      assert log[p..p] == [];
      while more
        invariant p <= PositionAfter(log, since) && (batchSize == 0 ==> since == start)
        invariant Replayed(log[p..PositionAfter(log, since)], old(table), old(checkpoint), old(processed))
        invariant !more ==> FetchSince(log, since, batchSize) == []
        decreases |log| - PositionAfter(log, since), more
      {
        more, since := ReplayBatch(log, p, since, batchSize, old(table), old(checkpoint), old(processed));
      }
      NothingLeft(log, p, since, batchSize);
    }
  }

  /** Table and checkpoint after some rows. */
  predicate Reached(rows: seq<Row>, table0: Table, checkpoint0: nat, table: Table, checkpoint: nat) {
    table == Project(table0, rows) && checkpoint == Later(checkpoint0, LastSequence(rows))
  }

  /** One more row of a batch. */
  lemma BatchStep(table: Table, checkpoint: nat, events: seq<Row>, i: nat)
    requires Increasing(events) && i < |events|
    ensures events[..i + 1] == events[..i] + [events[i]]
    ensures Project(table, events[..i + 1]) == Upsert(Project(table, events[..i]), events[i].event)
    ensures Later(Later(checkpoint, LastSequence(events[..i])), events[i].sequence)
            == Later(checkpoint, LastSequence(events[..i + 1]))
  {
    assert events[..i + 1] == events[..i] + [events[i]];
    ProjectAppend(table, events[..i], events[i]);
    IncreasingPair(events, if i == 0 then 0 else i - 1, i + 1);
  }

  /** An empty fetch means that the replay has reached the end, or that it may not fetch at all. */
  lemma NothingLeft(log: seq<Row>, p: nat, since: nat, batchSize: nat)
    requires Increasing(log) && p <= PositionAfter(log, since) && FetchSince(log, since, batchSize) == []
    requires batchSize == 0 ==> PositionAfter(log, since) == p
    ensures log[p..PositionAfter(log, since)] == if batchSize == 0 then [] else log[p..]
  {
    FetchIsASlice(log, since, batchSize);
  }

  lemma LastOfSlice(log: seq<Row>, p: nat, q: nat)
    requires p <= q <= |log|
    ensures LastSequence(log[p..q]) == if p < q then log[q - 1].sequence else 0
  {
  }

  /** What a fetch that finds something returns, and where it ends. */
  lemma FetchedSlice(log: seq<Row>, since: nat, batchSize: nat)
    requires Increasing(log) && FetchSince(log, since, batchSize) != []
    ensures var q, events := PositionAfter(log, since), FetchSince(log, since, batchSize);
            var r := PositionAfter(log, events[|events| - 1].sequence);
            q < r <= |log| && batchSize > 0 && events == log[q..r] && Increasing(events)
  {
    var q := PositionAfter(log, since);
    var r := BatchEnd(log, q, batchSize);
    FetchIsASlice(log, since, batchSize);
    IncreasingSlice(log, q, r);
    PositionAfterRow(log, r);
  }

  /** One more batch of a replay that began at position p. */
  lemma ReachedJoin(log: seq<Row>, p: nat, q: nat, r: nat,
                    table0: Table, checkpoint0: nat, table: Table, checkpoint: nat)
    requires Increasing(log) && p <= q < r <= |log| && Reached(log[p..q], table0, checkpoint0, table, checkpoint)
    ensures Reached(log[p..r], table0, checkpoint0,
                    Project(table, log[q..r]), Later(checkpoint, LastSequence(log[q..r])))
  {
    SliceJoin(log, p, q, r);
    ProjectSplit(table0, log[p..q], log[q..r]);
    LastOfSlice(log, p, q);
    LastOfSlice(log, q, r);
    LastOfSlice(log, p, r);
    if p < q {
      IncreasingPair(log, q - 1, r);
    }
  }

  lemma SliceJoin<T>(s: seq<T>, p: nat, q: nat, r: nat)
    requires p <= q <= r <= |s|
    ensures s[p..r] == s[p..q] + s[q..r]
  {
  }

  lemma {:induction false} ProjectSplit(table: Table, a: seq<Row>, b: seq<Row>)
    ensures Project(table, a + b) == Project(Project(table, a), b)
  {
    if b == [] {
      assert a + b == a;
    } else {
      var n := |b| - 1;
      ProjectSplit(table, a, b[..n]);
      assert a + b == (a + b[..n]) + [b[n]];
      ProjectAppend(table, a + b[..n], b[n]);
    }
  }
}
