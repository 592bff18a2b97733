/**
 The SurrealDB counter repository. Its tables have no unique index: a select takes
 the first match, an update rewrites every match, a create appends. Run atomically
 it is interchangeable with the libSQL repository.
 */
module SurrealRepository {
  import opened Options
  import opened CounterDomain
  import opened EventLog
  import opened CounterRepository

  datatype STables = STables(counters: seq<(CounterId, Counter)>, keys: seq<(Key, KeyRow)>, outbox: seq<Row>)

  const EMPTY_STABLES := STables([], [], [])

  /** SELECT ... WHERE key LIMIT 1 */
  function First<K(==), V>(rows: seq<(K, V)>, k: K): Option<V> {
    if rows == [] then None
    else if rows[0].0 == k then Some(rows[0].1)
    else First(rows[1..], k)
  }

  /** UPDATE ... WHERE key: every matching row. */
  function UpdateAll<K(==), V>(rows: seq<(K, V)>, k: K, v: V): (r: seq<(K, V)>)
    ensures |r| == |rows|
  {
    if rows == [] then []
    else [if rows[0].0 == k then (k, v) else rows[0]] + UpdateAll(rows[1..], k, v)
  }

  lemma {:induction false} FirstAfterUpdate<K, V>(rows: seq<(K, V)>, k: K, v: V, x: K)
    ensures First(UpdateAll(rows, k, v), x) == if x == k && First(rows, k).Some? then Some(v) else First(rows, x)
  {
    if rows != [] {
      FirstAfterUpdate(rows[1..], k, v, x);
      assert UpdateAll(rows, k, v)[1..] == UpdateAll(rows[1..], k, v);
    }
  }

  lemma {:induction false} FirstAfterCreate<K, V>(rows: seq<(K, V)>, k: K, v: V, x: K)
    ensures First(rows + [(k, v)], x) == if First(rows, x).Some? || x != k then First(rows, x) else Some(v)
  {
    if rows != [] {
      FirstAfterCreate(rows[1..], k, v, x);
      assert (rows + [(k, v)])[1..] == rows[1..] + [(k, v)];
    }
  }

  /** `load_idempotency_outcome` */
  function SLoadOutcome(s: STables, key: Key, hash: string): Option<Outcome> {
    match First(s.keys, key)
    case None => None
    case Some(row) =>
      if row.requestHash != hash then Some(IdempotencyConflict)
      else if row.status.Completed? && row.resultValue.Some? && row.resultVersion.Some? then
        Some(IdempotentReplay(row.resultValue.value, row.resultVersion.value))
      else None
  }

  /** The reads of a commit: replayed key, version check, or None to go on and write. */
  function CheckPhase(s: STables, m: Mutation, key: Option<string>): Option<Outcome> {
    var replay := if key.None? then None else SLoadOutcome(s, (m.id, key.value), RequestHash(m.id, m.operation));
    if replay.Some? then replay
    else if OrNew(First(s.counters, m.id)).version != m.newVersion - 1 then Some(CasConflict)
    else None
  }

  /** `upsert`, which looks at the table again before it writes. */
  function UpsertCounter(s: STables, id: CounterId, c: Counter): STables {
    if First(s.counters, id).Some? then s.(counters := UpdateAll(s.counters, id, c))
    else s.(counters := s.counters + [(id, c)])
  }

  /** The writes of a commit: counter, outbox, key. */
  function WritePhase(s: STables, m: Mutation, key: Option<string>): STables {
    var s1 := UpsertCounter(s, m.id, Counter(m.newValue, m.newVersion));
    var s2 := s1.(outbox := s1.outbox + [NextRow(s1.outbox, m.event)]);
    if key.None? then s2
    else
      var row := KeyRow(RequestHash(m.id, m.operation), Completed, Some(m.newValue), Some(m.newVersion));
      s2.(keys := s2.keys + [((m.id, key.value), row)])
  }

  function SCommit(s: STables, m: Mutation, key: Option<string>): (STables, Outcome) {
    match CheckPhase(s, m, key)
    case Some(outcome) => (s, outcome)
    case None => (WritePhase(s, m, key), Committed(m.newValue, m.newVersion))
  }

  class SurrealDbCounterRepository {
    var counters: seq<(CounterId, Counter)>
    var keys: seq<(Key, KeyRow)>
    var outbox: seq<Row>

    ghost function Contents(): STables
      reads this
    {
      STables(counters, keys, outbox)
    }

    constructor ()
      ensures Contents() == EMPTY_STABLES
    {
      counters, keys, outbox := [], [], [];
    }

    method Load(id: CounterId) returns (c: Option<Counter>)
      ensures c == First(counters, id)
    {
      c := First(counters, id);
    }

    method Upsert(id: CounterId, c: Counter)
      modifies this`counters
      ensures Contents() == UpsertCounter(old(Contents()), id, c)
    {
      var present := Load(id);
      if present.Some? {
        counters := UpdateAll(counters, id, c);
        return;
      }
      counters := counters + [(id, c)];
    }

    method CommitMutation(m: Mutation, key: Option<string>) returns (r: Outcome)
      modifies this
      ensures (Contents(), r) == SCommit(old(Contents()), m, key)
    {
      var hash := RequestHash(m.id, m.operation);
      if key.Some? {
        var row := First(keys, (m.id, key.value));
        if row.Some? {
          if row.value.requestHash != hash {
            return IdempotencyConflict;
          }
          if row.value.status.Completed? && row.value.resultValue.Some? && row.value.resultVersion.Some? {
            return IdempotentReplay(row.value.resultValue.value, row.value.resultVersion.value);
          }
        }
      }
      var current := Load(m.id);
      if OrNew(current).version != m.newVersion - 1 {
        return CasConflict;
      }
      if current.Some? {
        counters := UpdateAll(counters, m.id, Counter(m.newValue, m.newVersion));
      } else {
        Upsert(m.id, Counter(m.newValue, m.newVersion));
      }
      outbox := outbox + [NextRow(outbox, m.event)];
      if key.Some? {
        keys := keys + [((m.id, key.value), KeyRow(hash, Completed, Some(m.newValue), Some(m.newVersion)))];
      }
      r := Committed(m.newValue, m.newVersion);
    }
  }

  // ------------------------------------------------------------------ refinement

  predicate SameCounter(t: Tables, s: STables, id: CounterId) {
    First(s.counters, id) == LoadCounter(t, id)
  }

  predicate SameKey(t: Tables, s: STables, k: Key) {
    First(s.keys, k) == if k in t.keys then Some(t.keys[k]) else None
  }

  /** Both repositories answer every read alike and hold the same outbox. */
  ghost predicate Corresponds(t: Tables, s: STables) {
    && (forall id: CounterId :: SameCounter(t, s, id))
    && (forall k: Key :: SameKey(t, s, k))
    && t.outbox == s.outbox
  }

  lemma CheckAgrees(t: Tables, s: STables, m: Mutation, key: Option<string>, at: nat)
    requires Consistent(t) && BuiltAt(t, m, at) && Corresponds(t, s)
    ensures CommitAtomically(t, m, key).1 == Ok(SCommit(s, m, key).1)
  {
    assert SameCounter(t, s, m.id) && RowMatchesLog(t, m.id);
    if key.Some? {
      assert SameKey(t, s, (m.id, key.value));
    }
    ValueBoundedByVersion(t.outbox[..at], m.id);
  }

  lemma WritesKeepCounters(t: Tables, s: STables, m: Mutation, key: Option<string>, t': Tables)
    requires Corresponds(t, s) && t'.counters == t.counters[m.id := Counter(m.newValue, m.newVersion)]
    ensures forall id: CounterId :: SameCounter(t', WritePhase(s, m, key), id)
  {
    forall id: CounterId
      ensures SameCounter(t', WritePhase(s, m, key), id)
    {
      var c := Counter(m.newValue, m.newVersion);
      assert SameCounter(t, s, id) && SameCounter(t, s, m.id);
      FirstAfterUpdate(s.counters, m.id, c, id);
      FirstAfterCreate(s.counters, m.id, c, id);
    }
  }

  lemma WritesKeepKeys(t: Tables, s: STables, m: Mutation, key: Option<string>)
    requires Corresponds(t, s) && Transaction(t, m, key).1.TxCommitted?
    ensures forall k: Key :: SameKey(Transaction(t, m, key).0, WritePhase(s, m, key), k)
  {
    forall k: Key
      ensures SameKey(Transaction(t, m, key).0, WritePhase(s, m, key), k)
    {
      assert SameKey(t, s, k);
      if key.Some? {
        FirstAfterCreate(s.keys, (m.id, key.value),
          KeyRow(RequestHash(m.id, m.operation), Completed, Some(m.newValue), Some(m.newVersion)), k);
      }
    }
  }

  /** One commit: same outcome, and the tables stay in correspondence. */
  lemma CommitAgrees(t: Tables, s: STables, m: Mutation, key: Option<string>, at: nat)
    requires Consistent(t) && BuiltAt(t, m, at) && Corresponds(t, s)
    ensures var (t', r) := CommitAtomically(t, m, key);
            var (s', r') := SCommit(s, m, key);
            r == Ok(r') && Consistent(t') && Corresponds(t', s') && t.outbox <= t'.outbox
  {
    CheckAgrees(t, s, m, key, at);
    TransactionKeepsConsistent(t, m, key, at);
    if SCommit(s, m, key).1.Committed? {
      var t' := Transaction(t, m, key).0;
      WritesKeepCounters(t, s, m, key, t');
      WritesKeepKeys(t, s, m, key);
    }
  }

  /** A command whose snapshot was read in an earlier state, `readAt`, of its own repository. */
  datatype Command = Command(id: CounterId, operation: Operation, key: Option<string>, readAt: nat)

  function Clamp(readAt: nat, n: nat): nat
    requires n > 0
  {
    if readAt < n then readAt else n - 1
  }

  function LibMutation(states: seq<Tables>, c: Command): Mutation
    requires states != []
  {
    BuildMutation(c.id, c.operation, OrNew(LoadCounter(states[Clamp(c.readAt, |states|)], c.id)))
  }

  function SurMutation(states: seq<STables>, c: Command): Mutation
    requires states != []
  {
    BuildMutation(c.id, c.operation, OrNew(First(states[Clamp(c.readAt, |states|)].counters, c.id)))
  }

  /** All states the libSQL repository goes through, and the outcomes it gives. */
  function LibRun(commands: seq<Command>): (r: (seq<Tables>, seq<Result<Outcome>>))
    ensures |r.0| == |commands| + 1 && |r.1| == |commands|
  {
    if commands == [] then ([EMPTY_TABLES], [])
    else
      var n := |commands| - 1;
      var (states, outcomes) := LibRun(commands[..n]);
      var (t, outcome) := CommitAtomically(states[n], LibMutation(states, commands[n]), commands[n].key);
      (states + [t], outcomes + [outcome])
  }

  function SurRun(commands: seq<Command>): (r: (seq<STables>, seq<Outcome>))
    ensures |r.0| == |commands| + 1 && |r.1| == |commands|
  {
    if commands == [] then ([EMPTY_STABLES], [])
    else
      var n := |commands| - 1;
      var (states, outcomes) := SurRun(commands[..n]);
      var (s, outcome) := SCommit(states[n], SurMutation(states, commands[n]), commands[n].key);
      (states + [s], outcomes + [outcome])
  }

  /** State by state, the two runs cannot be told apart. */
  ghost predicate Indistinguishable(ts: seq<Tables>, ss: seq<STables>) {
    && |ts| == |ss| > 0
    && (forall k :: 0 <= k < |ts| ==> Corresponds(ts[k], ss[k]))
    && (forall k :: 0 <= k < |ts| ==> Consistent(ts[k]) && ts[k].outbox <= ts[|ts| - 1].outbox)
  }

  lemma ExtendRuns(ts: seq<Tables>, ss: seq<STables>, t: Tables, s: STables)
    requires Indistinguishable(ts, ss) && Corresponds(t, s) && Consistent(t) && ts[|ts| - 1].outbox <= t.outbox
    ensures Indistinguishable(ts + [t], ss + [s])
  {
    forall k | 0 <= k < |ts + [t]|
      ensures Corresponds((ts + [t])[k], (ss + [s])[k])
      ensures Consistent((ts + [t])[k]) && (ts + [t])[k].outbox <= t.outbox
    {
      if k < |ts| {
        assert Corresponds(ts[k], ss[k]) && Consistent(ts[k]) && ts[k].outbox <= ts[|ts| - 1].outbox;
      }
    }
  }

  /** Both repositories build the same mutation, and it was built at some point of the log. */
  lemma SameMutation(ts: seq<Tables>, ss: seq<STables>, c: Command)
    requires Indistinguishable(ts, ss)
    ensures LibMutation(ts, c) == SurMutation(ss, c)
    ensures BuiltAt(ts[|ts| - 1], LibMutation(ts, c), |ts[Clamp(c.readAt, |ts|)].outbox|)
  {
    var k := Clamp(c.readAt, |ts|);
    assert Corresponds(ts[k], ss[k]) && SameCounter(ts[k], ss[k], c.id);
    assert Consistent(ts[k]) && RowMatchesLog(ts[k], c.id);
    assert ts[|ts| - 1].outbox[..|ts[k].outbox|] == ts[k].outbox;
  }

  lemma CommandAgrees(ts: seq<Tables>, ss: seq<STables>, c: Command)
    requires Indistinguishable(ts, ss)
    ensures LibMutation(ts, c) == SurMutation(ss, c)
    ensures var m := LibMutation(ts, c);
            var (t, r) := CommitAtomically(ts[|ts| - 1], m, c.key);
            var (s, r') := SCommit(ss[|ss| - 1], m, c.key);
            r == Ok(r') && Indistinguishable(ts + [t], ss + [s])
  {
    var n, m := |ts| - 1, LibMutation(ts, c);
    SameMutation(ts, ss, c);
    CommitAgrees(ts[n], ss[n], m, c.key, |ts[Clamp(c.readAt, |ts|)].outbox|);
    ExtendRuns(ts, ss, CommitAtomically(ts[n], m, c.key).0, SCommit(ss[n], m, c.key).0);
  }

  /**
   With atomic commits the two repositories cannot be told apart: for every sequence
   of commands, however stale their snapshots, they give the same outcomes and hold
   the same counters, keys and outbox at every point.
   */
  lemma {:induction false} RepositoriesAgree(commands: seq<Command>)
    ensures Indistinguishable(LibRun(commands).0, SurRun(commands).0)
    ensures forall k :: 0 <= k < |commands| ==> LibRun(commands).1[k] == Ok(SurRun(commands).1[k])
  {
    if commands != [] {
      var n := |commands| - 1;
      RepositoriesAgree(commands[..n]);
      CommandAgrees(LibRun(commands[..n]).0, SurRun(commands[..n]).0, commands[n]);
    }
  }
}
