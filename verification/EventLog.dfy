/**
 The unified outbox as an append-only log, and the meaning of a log prefix:
 the counter obtained by replaying the operations of its events in order.
 */
module EventLog {
  import opened CounterDomain

  datatype CounterChanged = CounterChanged(
    tenantId: CounterId, counterKey: string, operation: Operation,
    newValue: int, delta: int, version: int)

  /** The outbox is shared: rows of other services are `Foreign`. */
  datatype AppEvent = CounterEvent(changed: CounterChanged) | Foreign

  datatype Row = Row(sequence: nat, event: AppEvent)

  predicate Concerns(row: Row, id: CounterId) {
    row.event.CounterEvent? && row.event.changed.tenantId == id
  }

  /** Sequential replay of a log on one counter. */
  function StateAfter(log: seq<Row>, id: CounterId): Counter {
    if log == [] then NEW_COUNTER
    else
      var before := StateAfter(log[..|log| - 1], id);
      var row := log[|log| - 1];
      if Concerns(row, id) then before.Apply(row.event.changed.operation) else before
  }

  /** The number of events of one counter. */
  function CountOf(log: seq<Row>, id: CounterId): nat {
    if log == [] then 0
    else CountOf(log[..|log| - 1], id) + (if Concerns(log[|log| - 1], id) then 1 else 0)
  }

  /** The sum of the deltas announced for one counter. */
  function DeltaSum(log: seq<Row>, id: CounterId): int {
    if log == [] then 0
    else
      var row := log[|log| - 1];
      DeltaSum(log[..|log| - 1], id) + (if Concerns(row, id) then row.event.changed.delta else 0)
  }

  /** What the event of one operation on `before` has to announce. */
  predicate Announces(e: CounterChanged, before: Counter) {
    var after := before.Apply(e.operation);
    && e.counterKey == e.tenantId
    && e.newValue == after.value
    && e.version == after.version
    && e.delta == after.value - before.value
  }

  predicate Faithful(log: seq<Row>, i: nat)
    requires i < |log|
  {
    log[i].event.CounterEvent? ==>
      Announces(log[i].event.changed, StateAfter(log[..i], log[i].event.changed.tenantId))
  }

  ghost predicate WellFormed(log: seq<Row>) {
    forall i :: 0 <= i < |log| ==> Faithful(log, i)
  }

  function LastSequence(log: seq<Row>): nat {
    if log == [] then 0 else log[|log| - 1].sequence
  }

  /** AUTOINCREMENT: sequences are positive and strictly ascending, possibly with gaps. */
  predicate Increasing(log: seq<Row>) {
    log == [] ||
    (var init := log[..|log| - 1]; Increasing(init) && LastSequence(init) < log[|log| - 1].sequence)
  }

  lemma {:induction false} IncreasingPair(log: seq<Row>, i: nat, j: nat)
    requires Increasing(log) && i < j <= |log|
    ensures 0 < log[i].sequence <= log[j - 1].sequence
    ensures i < j - 1 ==> log[i].sequence < log[j - 1].sequence
    decreases |log|
  {
    var n := |log| - 1;
    if j <= n {
      IncreasingPair(log[..n], i, j);
    } else if i < n {
      IncreasingPair(log[..n], i, n);
    }
  }

  lemma {:induction false} IncreasingSlice(log: seq<Row>, p: nat, q: nat)
    requires Increasing(log) && p <= q <= |log|
    ensures Increasing(log[p..q])
    decreases |log|, q
  {
    var n := |log| - 1;
    if q < |log| {
      IncreasingSlice(log[..n], p, q);
      assert log[..n][p..q] == log[p..q];
    } else if p < q {
      IncreasingSlice(log, p, n);
      assert log[p..q][..n - p] == log[p..n];
      if p < n {
        IncreasingPair(log, n - 1, q);
      } else {
        IncreasingPair(log, n, q);
      }
    }
  }

  lemma IncreasingTail(log: seq<Row>)
    requires Increasing(log) && log != []
    ensures Increasing(log[1..])
  {
    IncreasingSlice(log, 1, |log|);
    assert log[1..|log|] == log[1..];
  }

  lemma IncreasingAppend(log: seq<Row>, row: Row)
    requires Increasing(log) && LastSequence(log) < row.sequence
    ensures Increasing(log + [row])
  {
    assert (log + [row])[..|log|] == log;
  }

  lemma StateAfterAppend(log: seq<Row>, row: Row, id: CounterId)
    ensures StateAfter(log + [row], id) ==
            if Concerns(row, id) then StateAfter(log, id).Apply(row.event.changed.operation)
            else StateAfter(log, id)
  {
    assert (log + [row])[..|log|] == log;
  }

  /** The state one row further on. */
  lemma StateAfterNext(log: seq<Row>, id: CounterId, j: nat)
    requires j < |log|
    ensures var before, after := StateAfter(log[..j], id), StateAfter(log[..j + 1], id);
            if Concerns(log[j], id) then after.version == before.version + 1 else after == before
  {
    assert log[..j + 1] == log[..j] + [log[j]];
    StateAfterAppend(log[..j], log[j], id);
  }

  /** Appending a faithful event keeps the log well formed. */
  lemma WellFormedAppend(log: seq<Row>, row: Row)
    requires WellFormed(log)
    requires row.event.CounterEvent? ==>
               Announces(row.event.changed, StateAfter(log, row.event.changed.tenantId))
    ensures WellFormed(log + [row])
  {
    var longer := log + [row];
    forall i | 0 <= i < |longer|
      ensures Faithful(longer, i)
    {
      if i < |log| {
        assert Faithful(log, i);
        assert longer[..i] == log[..i];
      } else {
        assert longer[..i] == log;
      }
    }
  }

  lemma WellFormedPrefix(log: seq<Row>, n: nat)
    requires WellFormed(log) && n <= |log|
    ensures WellFormed(log[..n])
  {
    forall i | 0 <= i < n
      ensures Faithful(log[..n], i)
    {
      assert Faithful(log, i);
      assert log[..n][..i] == log[..i];
    }
  }

  /**
   Versions never fall along the log, and a version that has not moved pins the
   whole state: between two prefixes with equal versions nothing touched the counter.
   */
  lemma {:induction false} VersionPinsState(log: seq<Row>, id: CounterId, i: nat, j: nat)
    requires i <= j <= |log|
    ensures StateAfter(log[..i], id).version <= StateAfter(log[..j], id).version
    ensures StateAfter(log[..i], id).version == StateAfter(log[..j], id).version
            <==> (forall k :: i <= k < j ==> !Concerns(log[k], id))
    ensures StateAfter(log[..i], id).version == StateAfter(log[..j], id).version
            ==> StateAfter(log[..i], id) == StateAfter(log[..j], id)
    decreases j - i
  {
    if i < j {
      VersionPinsState(log, id, i, j - 1);
      StateAfterNext(log, id, j - 1);
    }
  }

  /** The version is the number of events, so the events carry the versions 1, 2, ..., n. */
  lemma {:induction false} VersionIsCount(log: seq<Row>, id: CounterId)
    ensures StateAfter(log, id).version == CountOf(log, id)
  {
    if log != [] {
      VersionIsCount(log[..|log| - 1], id);
    }
  }

  lemma EventCarriesItsOrdinal(log: seq<Row>, i: nat)
    requires WellFormed(log) && i < |log| && log[i].event.CounterEvent?
    ensures log[i].event.changed.version == CountOf(log[..i + 1], log[i].event.changed.tenantId)
  {
    var id := log[i].event.changed.tenantId;
    assert Faithful(log, i);
    assert log[..i + 1][..i] == log[..i];
    VersionIsCount(log[..i + 1], id);
  }

  /** A well-formed log announces deltas that add up to the value. */
  lemma {:induction false} DeltasSumToValue(log: seq<Row>, id: CounterId)
    requires WellFormed(log)
    ensures DeltaSum(log, id) == StateAfter(log, id).value
  {
    if log != [] {
      var n := |log| - 1;
      WellFormedPrefix(log, n);
      DeltasSumToValue(log[..n], id);
      assert Faithful(log, n);
    }
  }

  predicate Tells(row: Row, id: CounterId, op: Operation) {
    Concerns(row, id) && row.event.changed.operation == op
  }

  /** How often an operation was done on one counter. */
  function Times(log: seq<Row>, id: CounterId, op: Operation): nat {
    if log == [] then 0
    else Times(log[..|log| - 1], id, op) + (if Tells(log[|log| - 1], id, op) then 1 else 0)
  }

  /** The value is the number of increments minus the number of decrements since the last reset. */
  lemma {:induction false} ValueSinceReset(log: seq<Row>, id: CounterId, p: nat)
    requires p <= |log| && (p == 0 || Tells(log[p - 1], id, Reset))
    requires forall k :: p <= k < |log| ==> !Tells(log[k], id, Reset)
    ensures StateAfter(log, id).value == Times(log[p..], id, Increment) - Times(log[p..], id, Decrement)
    decreases |log|
  {
    if p == |log| {
      assert log[p..] == [];
    } else {
      var n := |log| - 1;
      ValueSinceReset(log[..n], id, p);
      assert log[p..][..n - p] == log[..n][p..] && log[p..][n - p] == log[n];
      assert !Tells(log[n], id, Reset);
    }
  }

  /** The value cannot run ahead of the number of mutations. */
  lemma {:induction false} ValueBoundedByVersion(log: seq<Row>, id: CounterId)
    ensures -StateAfter(log, id).version <= StateAfter(log, id).value <= StateAfter(log, id).version
    ensures 0 <= StateAfter(log, id).version <= |log|
  {
    if log != [] {
      ValueBoundedByVersion(log[..|log| - 1], id);
    }
  }
}
