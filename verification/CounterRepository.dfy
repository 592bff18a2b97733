/**
 The libSQL counter repository: three tables, and a commit that runs as one
 transaction. The class changes its tables statement by statement and restores
 them on rollback; the functions beside it give the same effects on values, so
 that the interleaving model can use every database access as one atomic step.
 */
module CounterRepository {
  import opened Options
  import opened CounterDomain
  import opened EventLog

  datatype KeyStatus = InProgress | Completed

  /** A row of `counter_idempotency`; the digest and timestamps are never read back. */
  datatype KeyRow = KeyRow(
    requestHash: string, status: KeyStatus,
    resultValue: Option<int>, resultVersion: Option<int>)

  type Key = (CounterId, string)

  datatype Tables = Tables(
    counters: map<CounterId, Counter>, keys: map<Key, KeyRow>, outbox: seq<Row>)

  const EMPTY_TABLES := Tables(map[], map[], [])

  datatype Mutation = Mutation(
    id: CounterId, operation: Operation, newValue: int, newVersion: int, event: CounterChanged)

  datatype Outcome =
    | Committed(newValue: int, newVersion: int)
    | IdempotentReplay(value: int, version: int)
    | IdempotencyConflict
    | CasConflict

  datatype Result<+T> = Ok(value: T) | KeyStillInProgress

  function OperationName(op: Operation): string {
    match op
    case Increment => "increment"
    case Decrement => "decrement"
    case Reset => "reset"
  }

  /**
   SHA-256 is taken to be injective, so the digest is represented by the text it
   is computed from.
   */
  function RequestHash(id: CounterId, op: Operation): string {
    "counter-service:v1:" + id + ":" + "counter" + ":" + OperationName(op)
  }

  /** A fingerprint determines both the tenant and the operation it was taken from. */
  lemma RequestHashInjective(id: CounterId, op: Operation, id': CounterId, op': Operation)
    ensures RequestHash(id, op) == RequestHash(id', op') <==> id == id' && op == op'
  {
    RequestHashShape(id, op);
    RequestHashShape(id', op');
  }

  lemma RequestHashShape(id: CounterId, op: Operation)
    ensures var h := RequestHash(id, op);
            var n := |h| - |OperationName(op)| - |":counter:"|;
            && n >= |"counter-service:v1:"| && h[|"counter-service:v1:"|..n] == id
            && |h| >= 9
            && h[|h| - 5] == (if op.Reset? then 'r' else 'e')
            && h[|h| - 9] == (match op case Increment => 'i' case Decrement => 'd' case Reset => 't')
  {
  }

  /** The service's command: event and new state are computed from a snapshot read earlier. */
  function BuildMutation(id: CounterId, op: Operation, snapshot: Counter): (m: Mutation)
    ensures m.id == id && m.operation == op && Announces(m.event, snapshot)
    ensures m.newValue == m.event.newValue && m.newVersion == m.event.version
  {
    var newValue := match op
      case Increment => snapshot.value + 1
      case Decrement => snapshot.value - 1
      case Reset => 0;
    var newVersion := snapshot.version + 1;
    var delta := newValue - snapshot.value;
    Mutation(id, op, newValue, newVersion, CounterChanged(id, id, op, newValue, delta, newVersion))
  }

  function LoadCounter(t: Tables, id: CounterId): Option<Counter> {
    if id in t.counters then Some(t.counters[id]) else None
  }

  function LoadOutcome(keys: map<Key, KeyRow>, key: Key, hash: string): Option<Outcome> {
    if key !in keys then None
    else
      var row := keys[key];
      if row.requestHash != hash then Some(IdempotencyConflict)
      else if row.status.Completed? && row.resultValue.Some? && row.resultVersion.Some? then
        Some(IdempotentReplay(row.resultValue.value, row.resultVersion.value))
      else None
  }

  /** The compare-and-swap statement: the new counter table, or None when no row was affected. */
  function CasStatement(counters: map<CounterId, Counter>, m: Mutation): Option<map<CounterId, Counter>> {
    var expected := m.newVersion - 1;
    if expected == 0 then
      if m.id in counters then None
      else
        var inserted := match m.operation
          case Increment => 1
          case Decrement => -1
          case Reset => 0;
        Some(counters[m.id := Counter(inserted, 1)])
    else if m.id in counters && counters[m.id].version == expected then
      var row := counters[m.id];
      var value := match m.operation
        case Increment => row.value + 1
        case Decrement => row.value - 1
        case Reset => 0;
      Some(counters[m.id := Counter(value, row.version + 1)])
    else None
  }

  datatype TxOutcome = TxCommitted | TxKeyTaken | TxCasFailed

  function NextRow(outbox: seq<Row>, e: CounterChanged): Row {
    Row(LastSequence(outbox) + 1, CounterEvent(e))
  }

  /** The serialised transaction: key reservation, CAS, outbox insert, key completion. */
  function Transaction(t: Tables, m: Mutation, key: Option<string>): (Tables, TxOutcome) {
    if key.Some? && (m.id, key.value) in t.keys then (t, TxKeyTaken)
    else
      match CasStatement(t.counters, m)
      case None => (t, TxCasFailed)
      case Some(counters) =>
        var keys := if key.None? then t.keys else
          t.keys[(m.id, key.value) :=
            KeyRow(RequestHash(m.id, m.operation), Completed, Some(m.newValue), Some(m.newVersion))];
        (Tables(counters, keys, t.outbox + [NextRow(t.outbox, m.event)]), TxCommitted)
  }

  /** One whole `commit_mutation` call with nothing running in between. */
  function CommitAtomically(t: Tables, m: Mutation, key: Option<string>): (Tables, Result<Outcome>) {
    var hash := RequestHash(m.id, m.operation);
    var replay := if key.None? then None else LoadOutcome(t.keys, (m.id, key.value), hash);
    if replay.Some? then (t, Ok(replay.value))
    else
      var (t', tx) := Transaction(t, m, key);
      match tx
      case TxCommitted => (t', Ok(Committed(m.newValue, m.newVersion)))
      case TxCasFailed => (t', Ok(CasConflict))
      case TxKeyTaken => (t', OrStillInProgress(LoadOutcome(t'.keys, (m.id, key.value), hash)))
  }

  /** How the second look at a key that was taken is turned into an answer. */
  function OrStillInProgress(o: Option<Outcome>): Result<Outcome> {
    match o
    case Some(outcome) => Ok(outcome)
    case None => KeyStillInProgress
  }

  /** Counter rows are exactly the replay of the outbox: no row means no event. */
  ghost predicate RowsMatchLog(t: Tables) {
    forall id: CounterId :: RowMatchesLog(t, id)
  }

  predicate RowMatchesLog(t: Tables, id: CounterId) {
    var c := StateAfter(t.outbox, id);
    if id in t.counters then c == t.counters[id] && c.version >= 1 else c == NEW_COUNTER
  }

  /** No reservation is ever visible outside its transaction. */
  predicate AllKeysCompleted(t: Tables) {
    forall k :: k in t.keys ==>
      && t.keys[k].status.Completed?
      && t.keys[k].resultValue.Some? && t.keys[k].resultVersion.Some?
  }

  ghost predicate Consistent(t: Tables) {
    && WellFormed(t.outbox)
    && Increasing(t.outbox)
    && RowsMatchLog(t)
    && AllKeysCompleted(t)
  }

  /** The command was built from the state of the counter at log position `at`. */
  predicate BuiltAt(t: Tables, m: Mutation, at: nat) {
    at <= |t.outbox| && m == BuildMutation(m.id, m.operation, StateAfter(t.outbox[..at], m.id))
  }

  /**
   The CAS statement takes effect exactly when nothing touched the counter since
   the snapshot, and then the row it computes in SQL is the one the event announces.
   */
  lemma CasMeaning(t: Tables, m: Mutation, at: nat)
    requires Consistent(t) && BuiltAt(t, m, at)
    ensures CasStatement(t.counters, m).Some? <==>
            (forall k :: at <= k < |t.outbox| ==> !Concerns(t.outbox[k], m.id))
    ensures CasStatement(t.counters, m).Some? ==>
              && CasStatement(t.counters, m).value
                 == t.counters[m.id := StateAfter(t.outbox, m.id).Apply(m.operation)]
              && Announces(m.event, StateAfter(t.outbox, m.id))
  {
    assert RowMatchesLog(t, m.id);
    VersionPinsState(t.outbox, m.id, at, |t.outbox|);
    assert t.outbox[..|t.outbox|] == t.outbox;
    ValueBoundedByVersion(t.outbox[..at], m.id);
  }

  /** A transaction either leaves every table alone or performs one faithful mutation. */
  lemma TransactionKeepsConsistent(t: Tables, m: Mutation, key: Option<string>, at: nat)
    requires Consistent(t) && BuiltAt(t, m, at)
    ensures var (t', tx) := Transaction(t, m, key);
            && Consistent(t')
            && (!tx.TxCommitted? ==> t' == t)
            && (tx.TxCommitted? ==>
                  && t'.outbox == t.outbox + [NextRow(t.outbox, m.event)]
                  && Announces(m.event, StateAfter(t.outbox, m.id))
                  && t'.counters == t.counters[m.id := StateAfter(t.outbox, m.id).Apply(m.operation)])
  {
    var (t', tx) := Transaction(t, m, key);
    if tx.TxCommitted? {
      CasMeaning(t, m, at);
      var row := NextRow(t.outbox, m.event);
      WellFormedAppend(t.outbox, row);
      IncreasingAppend(t.outbox, row);
      forall id: CounterId
        ensures RowMatchesLog(t', id)
      {
        assert RowMatchesLog(t, id);
        StateAfterAppend(t.outbox, row, id);
        ValueBoundedByVersion(t.outbox, id);
      }
    }
  }

  /** In consistent tables the "still in progress" error of a commit cannot occur. */
  lemma CommitNeverStuck(t: Tables, m: Mutation, key: Option<string>, at: nat)
    requires Consistent(t) && BuiltAt(t, m, at)
    ensures CommitAtomically(t, m, key).1.Ok?
    ensures Consistent(CommitAtomically(t, m, key).0)
  {
    TransactionKeepsConsistent(t, m, key, at);
  }

  class LibSqlCounterRepository {
    var counters: map<CounterId, Counter>
    var keys: map<Key, KeyRow>
    var outbox: seq<Row>

    ghost function Contents(): Tables
      reads this
    {
      Tables(counters, keys, outbox)
    }

    constructor ()
      ensures Contents() == EMPTY_TABLES
    {
      counters, keys, outbox := map[], map[], [];
    }

    method Load(id: CounterId) returns (c: Option<Counter>)
      ensures c == LoadCounter(Contents(), id)
    {
      if id in counters {
        c := Some(counters[id]);
      } else {
        c := None;
      }
    }

    method LoadIdempotencyOutcome(id: CounterId, key: string, hash: string) returns (r: Option<Outcome>)
      ensures r == LoadOutcome(keys, (id, key), hash)
    {
      if (id, key) !in keys {
        return None;
      }
      var row := keys[(id, key)];
      if row.requestHash != hash {
        return Some(IdempotencyConflict);
      }
      if row.status.Completed? && row.resultValue.Some? && row.resultVersion.Some? {
        return Some(IdempotentReplay(row.resultValue.value, row.resultVersion.value));
      }
      return None;
    }

    /** The CAS statement inside the transaction; returns the number of affected rows. */
    method ExecuteCas(m: Mutation) returns (affected: nat)
      modifies this`counters
      ensures affected == if CasStatement(old(counters), m).Some? then 1 else 0
      ensures counters == if affected == 1 then CasStatement(old(counters), m).value else old(counters)
    {
      affected := 0;
      if m.newVersion - 1 == 0 {
        if m.id !in counters {
          var inserted := match m.operation
            case Increment => 1
            case Decrement => -1
            case Reset => 0;
          counters := counters[m.id := Counter(inserted, 1)];
          affected := 1;
        }
      } else if m.id in counters && counters[m.id].version == m.newVersion - 1 {
        var row := counters[m.id];
        var value := match m.operation
          case Increment => row.value + 1
          case Decrement => row.value - 1
          case Reset => 0;
        counters := counters[m.id := Counter(value, row.version + 1)];
        affected := 1;
      }
    }

    /** BEGIN IMMEDIATE ... COMMIT; the saved tables are what a rollback restores. */
    method RunTransaction(m: Mutation, key: Option<string>) returns (tx: TxOutcome)
      modifies this
      ensures (Contents(), tx) == Transaction(old(Contents()), m, key)
    {
      var hash := RequestHash(m.id, m.operation);
      var savedCounters, savedKeys, savedOutbox := counters, keys, outbox;
      if key.Some? {
        if (m.id, key.value) in keys {
          counters, keys, outbox := savedCounters, savedKeys, savedOutbox;
          return TxKeyTaken;
        }
        keys := keys[(m.id, key.value) := KeyRow(hash, InProgress, None, None)];
      }
      var affected := ExecuteCas(m);
      if affected == 0 {
        counters, keys, outbox := savedCounters, savedKeys, savedOutbox;
        return TxCasFailed;
      }
      outbox := outbox + [NextRow(outbox, m.event)];
      if key.Some? && (m.id, key.value) in keys && keys[(m.id, key.value)].requestHash == hash {
        keys := keys[(m.id, key.value) := KeyRow(hash, Completed, Some(m.newValue), Some(m.newVersion))];
      }
      assert keys == Transaction(old(Contents()), m, key).0.keys;
      return TxCommitted;
    }

    method CommitMutation(m: Mutation, key: Option<string>) returns (r: Result<Outcome>)
      modifies this
      ensures (Contents(), r) == CommitAtomically(old(Contents()), m, key)
    {
      var hash := RequestHash(m.id, m.operation);
      if key.Some? {
        var replay := LoadIdempotencyOutcome(m.id, key.value, hash);
        if replay.Some? {
          return Ok(replay.value);
        }
      }
      var tx := RunTransaction(m, key);
      match tx
      case TxCommitted => r := Ok(Committed(m.newValue, m.newVersion));
      case TxCasFailed => r := Ok(CasConflict);
      case TxKeyTaken =>
        var again := LoadIdempotencyOutcome(m.id, key.value, hash);
        r := OrStillInProgress(again);
    }
  }
}
