/**
 Clients, the shared outbox and the projector worker in one system. The worker
 fetches a batch, applies a row, and only then moves the checkpoint; it may crash
 between any two of these steps and restarts from the stored checkpoint.

 `acked`, `seen`, `processed` and `restarts` are bookkeeping that no step reads.
 */
module Pipeline {
  import opened CounterDomain
  import opened EventLog
  import opened CounterRepository
  import opened Projector
  import P = CounterProtocol

  /** Catch-up replay keeps its own cursor; afterwards the worker polls from the checkpoint. */
  datatype Mode = Replaying(since: nat) | Polling

  datatype Worker =
    | Down
    | Fetching(mode: Mode)
    | Applying(mode: Mode, batch: seq<Row>, i: nat)
    | Acking(mode: Mode, batch: seq<Row>, i: nat)

  datatype Projection = Projection(
    table: Table, checkpoint: nat, worker: Worker,
    acked: nat, seen: nat, processed: seq<Row>, restarts: nat)

  datatype State = State(counter: P.State, projection: Projection)

  const INITIAL := State(P.INITIAL, Projection(map[], 0, Down, 0, 0, [], 0))

  datatype Action = ClientAction(action: P.Action) | Start | Work | Crash

  function Cursor(p: Projection, mode: Mode): nat {
    match mode
    case Replaying(since) => since
    case Polling => p.checkpoint
  }

  function FetchStep(p: Projection, log: seq<Row>, batchSize: nat): Projection
    requires p.worker.Fetching?
  {
    var events := FetchSince(log, Cursor(p, p.worker.mode), batchSize);
    if events == [] then p.(worker := Fetching(Polling))
    else p.(worker := Applying(p.worker.mode, events, 0))
  }

  function ApplyStep(p: Projection): Projection
    requires p.worker.Applying?
  {
    var w := p.worker;
    if w.i < |w.batch| then
      var first := p.processed == [] || p.processed[|p.processed| - 1] != w.batch[w.i];
      p.(table := Upsert(p.table, w.batch[w.i].event),
         worker := Acking(w.mode, w.batch, w.i),
         processed := p.processed + [w.batch[w.i]],
         seen := if first then p.seen + 1 else p.seen)
    else p.(worker := Fetching(w.mode))
  }

  function AckStep(p: Projection): Projection
    requires p.worker.Acking?
  {
    var w := p.worker;
    if w.i < |w.batch| then
      var sequence := w.batch[w.i].sequence;
      var mode := if w.mode.Replaying? then Replaying(sequence) else Polling;
      p.(checkpoint := if sequence > p.checkpoint then sequence else p.checkpoint,
         worker := if w.i + 1 < |w.batch| then Applying(mode, w.batch, w.i + 1) else Fetching(mode),
         acked := p.acked + 1)
    else p.(worker := Fetching(w.mode))
  }

  function WorkStep(p: Projection, log: seq<Row>, batchSize: nat): Projection {
    match p.worker
    case Down => p
    case Fetching(_) => FetchStep(p, log, batchSize)
    case Applying(_, _, _) => ApplyStep(p)
    case Acking(_, _, _) => AckStep(p)
  }

  function Step(s: State, a: Action, batchSize: nat): State {
    var p := s.projection;
    match a
    case ClientAction(b) => s.(counter := P.Step(s.counter, b))
    case Start => if p.worker.Down? then s.(projection := p.(worker := Fetching(Replaying(p.checkpoint)))) else s
    case Work => s.(projection := WorkStep(p, s.counter.tables.outbox, batchSize))
    case Crash => if p.worker.Down? then s else s.(projection := p.(worker := Down, restarts := p.restarts + 1))
  }

  function Run(actions: seq<Action>, batchSize: nat): State {
    if actions == [] then INITIAL
    else Step(Run(actions[..|actions| - 1], batchSize), actions[|actions| - 1], batchSize)
  }

  /** The processed rows with adjacent repetitions collapsed. */
  function Collapse(rows: seq<Row>): seq<Row> {
    if rows == [] then []
    else
      var n := |rows| - 1;
      if n > 0 && rows[n] == rows[n - 1] then Collapse(rows[..n])
      else Collapse(rows[..n]) + [rows[n]]
  }

  lemma CollapseAppend(rows: seq<Row>, row: Row)
    ensures Collapse(rows + [row]) ==
            if rows != [] && rows[|rows| - 1] == row then Collapse(rows) else Collapse(rows) + [row]
  {
    assert (rows + [row])[..|rows|] == rows;
  }

  lemma {:induction false} CollapseKeepsLast(rows: seq<Row>)
    requires rows != []
    ensures Collapse(rows) != [] && Collapse(rows)[|Collapse(rows)| - 1] == rows[|rows| - 1]
  {
    var n := |rows| - 1;
    if n > 0 && rows[n] == rows[n - 1] {
      CollapseKeepsLast(rows[..n]);
    }
  }

  function SequenceAt(log: seq<Row>, n: nat): nat
    requires n <= |log|
  {
    if n == 0 then 0 else log[n - 1].sequence
  }

  /** The rest of the batch in hand is what the log holds after the acknowledged rows. */
  predicate BatchInv(log: seq<Row>, p: Projection, mode: Mode, batch: seq<Row>, i: nat) {
    && Cursor(p, mode) == p.checkpoint
    && i < |batch| && p.acked + |batch| - i <= |log|
    && forall k :: i <= k < |batch| ==> batch[k] == log[p.acked + k - i]
  }

  ghost predicate WorkerInv(log: seq<Row>, p: Projection) {
    match p.worker
    case Down => true
    case Fetching(mode) => Cursor(p, mode) == p.checkpoint
    case Applying(mode, batch, i) => BatchInv(log, p, mode, batch, i)
    case Acking(mode, batch, i) => BatchInv(log, p, mode, batch, i) && p.seen == p.acked + 1
  }

  /** One row may have been applied but not acknowledged: it will be applied once more. */
  function Owed(p: Projection): nat {
    if p.seen == p.acked + 1 && !p.worker.Acking? then 1 else 0
  }

  /** The table is the projection of the first rows of the log. */
  predicate Shows(log: seq<Row>, seen: nat, table: Table)
    requires seen <= |log|
  {
    table == Project(map[], log[..seen])
  }

  /** The processed rows are the first rows of the log, with adjacent repetitions. */
  predicate Traces(log: seq<Row>, seen: nat, processed: seq<Row>)
    requires seen <= |log|
  {
    Collapse(processed) == log[..seen]
  }

  ghost predicate ProjectionInv(log: seq<Row>, p: Projection) {
    && p.acked <= p.seen <= p.acked + 1 && p.seen <= |log|
    && p.checkpoint == SequenceAt(log, p.acked)
    && Shows(log, p.seen, p.table) && Traces(log, p.seen, p.processed)
    && |p.processed| + Owed(p) <= p.seen + p.restarts
    && WorkerInv(log, p)
  }

  ghost predicate Inv(s: State) {
    P.Inv(s.counter) && ProjectionInv(s.counter.tables.outbox, s.projection)
  }

  // ------------------------------------------------------------ preservation

  lemma LogOnlyGrows(s: P.State, a: P.Action)
    ensures s.tables.outbox <= P.Step(s, a).tables.outbox
  {
  }

  lemma GrowthKeepsProjection(log: seq<Row>, log': seq<Row>, p: Projection)
    requires ProjectionInv(log, p) && log <= log'
    ensures ProjectionInv(log', p)
  {
    assert log'[..p.seen] == log[..p.seen];
  }

  lemma CheckpointPosition(log: seq<Row>, p: Projection)
    requires Increasing(log) && ProjectionInv(log, p)
    ensures PositionAfter(log, p.checkpoint) == p.acked
  {
    if p.acked > 0 {
      PositionAfterRow(log, p.acked);
    } else if log != [] {
      IncreasingPair(log, 0, 1);
    }
  }

  lemma FetchKeepsProjection(log: seq<Row>, p: Projection, batchSize: nat)
    requires Increasing(log) && ProjectionInv(log, p) && p.worker.Fetching?
    ensures ProjectionInv(log, FetchStep(p, log, batchSize))
  {
    var events := FetchSince(log, p.checkpoint, batchSize);
    CheckpointPosition(log, p);
    FetchIsASlice(log, p.checkpoint, batchSize);
    if events != [] {
      SliceIsBatch(log, p, p.worker.mode, events, BatchEnd(log, p.acked, batchSize));
    }
  }

  lemma SliceIsBatch(log: seq<Row>, p: Projection, mode: Mode, batch: seq<Row>, end: nat)
    requires p.acked < end <= |log| && batch == log[p.acked..end] && Cursor(p, mode) == p.checkpoint
    ensures BatchInv(log, p, mode, batch, 0)
  {
  }

  lemma NextRowShows(log: seq<Row>, seen: nat, table: Table)
    requires seen < |log| && Shows(log, seen, table)
    ensures Shows(log, seen + 1, Upsert(table, log[seen].event))
  {
    assert log[..seen + 1] == log[..seen] + [log[seen]];
    ProjectAppend(map[], log[..seen], log[seen]);
  }

  lemma LastTraced(log: seq<Row>, seen: nat, processed: seq<Row>)
    requires seen <= |log| && Traces(log, seen, processed)
    ensures processed == [] <==> seen == 0
    ensures seen > 0 ==> processed[|processed| - 1] == log[seen - 1]
  {
    if processed != [] {
      CollapseKeepsLast(processed);
      assert log[..seen][seen - 1] == log[seen - 1];
    }
  }

  lemma NextRowTraces(log: seq<Row>, seen: nat, processed: seq<Row>)
    requires seen < |log| && Traces(log, seen, processed)
    requires seen > 0 ==> log[seen - 1].sequence < log[seen].sequence
    ensures Traces(log, seen + 1, processed + [log[seen]])
    ensures processed == [] || processed[|processed| - 1] != log[seen]
  {
    LastTraced(log, seen, processed);
    CollapseAppend(processed, log[seen]);
    assert log[..seen + 1] == log[..seen] + [log[seen]];
  }

  /** Processing the last row once more changes nothing but the history. */
  lemma LastRowRepeats(log: seq<Row>, seen: nat, table: Table, processed: seq<Row>)
    requires 0 < seen <= |log| && Shows(log, seen, table) && Traces(log, seen, processed)
    ensures Shows(log, seen, Upsert(table, log[seen - 1].event)) && Traces(log, seen, processed + [log[seen - 1]])
    ensures processed != [] && processed[|processed| - 1] == log[seen - 1]
  {
    UpsertTwice(map[], log[..seen]);
    LastTraced(log, seen, processed);
    CollapseAppend(processed, log[seen - 1]);
  }

  lemma FreshApplyKeepsProjection(log: seq<Row>, p: Projection, p': Projection, row: Row)
    requires ProjectionInv(log, p) && p.worker.Applying? && p.seen == p.acked && row == log[p.acked]
    requires p' == p.(table := Upsert(p.table, row.event), processed := p.processed + [row], seen := p.seen + 1,
                      worker := Acking(p.worker.mode, p.worker.batch, p.worker.i))
    requires Shows(log, p'.seen, p'.table) && Traces(log, p'.seen, p'.processed)
    ensures ProjectionInv(log, p')
  {
  }

  lemma RepeatedApplyKeepsProjection(log: seq<Row>, p: Projection, p': Projection, row: Row)
    requires ProjectionInv(log, p) && p.worker.Applying? && p.seen == p.acked + 1 && row == log[p.acked]
    requires p' == p.(table := Upsert(p.table, row.event), processed := p.processed + [row],
                      worker := Acking(p.worker.mode, p.worker.batch, p.worker.i))
    requires Shows(log, p'.seen, p'.table) && Traces(log, p'.seen, p'.processed)
    ensures ProjectionInv(log, p')
  {
  }

  lemma ApplyKeepsProjection(log: seq<Row>, p: Projection)
    requires Increasing(log) && ProjectionInv(log, p) && p.worker.Applying?
    ensures ProjectionInv(log, ApplyStep(p))
  {
    var row := p.worker.batch[p.worker.i];
    assert row == log[p.acked];
    if p.seen == p.acked {
      if p.seen > 0 {
        IncreasingPair(log, p.seen - 1, p.seen + 1);
      }
      NextRowShows(log, p.seen, p.table);
      NextRowTraces(log, p.seen, p.processed);
      FreshApplyKeepsProjection(log, p, ApplyStep(p), row);
    } else {
      LastRowRepeats(log, p.seen, p.table, p.processed);
      RepeatedApplyKeepsProjection(log, p, ApplyStep(p), row);
    }
  }

  lemma AckKeepsProjection(log: seq<Row>, p: Projection)
    requires Increasing(log) && ProjectionInv(log, p) && p.worker.Acking?
    ensures ProjectionInv(log, AckStep(p))
    ensures p.checkpoint < AckStep(p).checkpoint
  {
    var w := p.worker;
    assert w.batch[w.i] == log[p.acked];
    IncreasingPair(log, if p.acked > 0 then p.acked - 1 else 0, p.acked + 1);
  }

  lemma StepKeepsInv(s: State, a: Action, batchSize: nat)
    requires Inv(s)
    ensures Inv(Step(s, a, batchSize))
    ensures s.projection.checkpoint <= Step(s, a, batchSize).projection.checkpoint
  {
    var log, p := s.counter.tables.outbox, s.projection;
    match a
    case ClientAction(b) =>
      P.StepKeepsInv(s.counter, b);
      LogOnlyGrows(s.counter, b);
      GrowthKeepsProjection(log, P.Step(s.counter, b).tables.outbox, p);
    case Start =>
    case Crash =>
    case Work =>
      match p.worker
      case Down =>
      case Fetching(_) => FetchKeepsProjection(log, p, batchSize);
      case Applying(_, _, _) => ApplyKeepsProjection(log, p);
      case Acking(_, _, _) => AckKeepsProjection(log, p);
  }

  lemma {:induction false} RunKeepsInv(actions: seq<Action>, batchSize: nat)
    ensures Inv(Run(actions, batchSize))
  {
    if actions == [] {
      P.RunKeepsInv([]);
    } else {
      RunKeepsInv(actions[..|actions| - 1], batchSize);
      StepKeepsInv(Run(actions[..|actions| - 1], batchSize), actions[|actions| - 1], batchSize);
    }
  }

  // -------------------------------------------------------------- guarantees

  /** The checkpoint never moves back, however runs, crashes and restarts are arranged. */
  lemma {:induction false} CheckpointNeverFalls(actions: seq<Action>, batchSize: nat, n: nat)
    requires n <= |actions|
    ensures Run(actions[..n], batchSize).projection.checkpoint <= Run(actions, batchSize).projection.checkpoint
    decreases |actions|
  {
    if n < |actions| {
      var init := actions[..|actions| - 1];
      CheckpointNeverFalls(init, batchSize, n);
      assert init[..n] == actions[..n];
      RunKeepsInv(init, batchSize);
      StepKeepsInv(Run(init, batchSize), actions[|actions| - 1], batchSize);
    } else {
      assert actions[..n] == actions;
    }
  }

  /**
   Rows are processed in log order without gaps; the only repetitions are adjacent
   and there is at most one per crash of a running worker. Everything at or below the
   checkpoint has been processed, and at most one row beyond it.
   */
  lemma ProcessedIsAPrefixWithRepeats(actions: seq<Action>, batchSize: nat)
    ensures var s := Run(actions, batchSize);
            var p, log := s.projection, s.counter.tables.outbox;
            && Collapse(p.processed) <= log
            && |p.processed| <= |Collapse(p.processed)| + p.restarts
            && PositionAfter(log, p.checkpoint) <= |Collapse(p.processed)| <= PositionAfter(log, p.checkpoint) + 1
  {
    RunKeepsInv(actions, batchSize);
    var s := Run(actions, batchSize);
    CheckpointPosition(s.counter.tables.outbox, s.projection);
  }

  /** The row of a counter, or its absence, shows this state. */
  predicate ShowsCounter(table: Table, id: CounterId, c: Counter) {
    if (id, id) in table then c.version >= 1 && c == Counter(table[(id, id)].value, table[(id, id)].version)
    else c.version < 1
  }

  /** The projection shows the counters exactly as the processed prefix of the log left them. */
  lemma ProjectionShowsAPrefix(actions: seq<Action>, batchSize: nat, id: CounterId)
    ensures var p := Run(actions, batchSize).projection;
            ShowsCounter(p.table, id, StateAfter(Collapse(p.processed), id))
  {
    RunKeepsInv(actions, batchSize);
    var s := Run(actions, batchSize);
    WellFormedPrefix(s.counter.tables.outbox, s.projection.seen);
    ProjectionIsReplay(s.counter.tables.outbox[..s.projection.seen], id);
  }

  /** Row i is the last event of a counter. */
  predicate LastEvent(log: seq<Row>, id: CounterId, i: nat) {
    i < |log| && Concerns(log[i], id) && forall j :: i < j < |log| ==> !Concerns(log[j], id)
  }

  /**
   End to end: when the checkpoint has reached the end of the outbox, the projection holds
   one row per counter, with the value and version of the table and the operation of the
   last event, and nothing else.
   */
  lemma CaughtUpProjectionEqualsTable(actions: seq<Action>, batchSize: nat, id: CounterId)
    requires var s := Run(actions, batchSize);
             PositionAfter(s.counter.tables.outbox, s.projection.checkpoint) == |s.counter.tables.outbox|
    ensures var s := Run(actions, batchSize);
            var table, log, row := s.projection.table, s.counter.tables.outbox, LoadCounter(s.counter.tables, id);
            && ((id, id) in table <==> row.Some?)
            && (row.Some? ==> table[(id, id)].value == row.value.value && table[(id, id)].version == row.value.version)
            && (forall i: nat :: LastEvent(log, id, i) ==>
                  (id, id) in table && table[(id, id)].operation == log[i].event.changed.operation)
            && (forall k :: k in table ==> k.0 == k.1)
  {
    RunKeepsInv(actions, batchSize);
    var s := Run(actions, batchSize);
    var log := s.counter.tables.outbox;
    CheckpointPosition(log, s.projection);
    assert log[..s.projection.seen] == log;
    ProjectionIsReplay(log, id);
    assert RowMatchesLog(s.counter.tables, id);
    forall i: nat | LastEvent(log, id, i)
      ensures (id, id) in s.projection.table
      ensures s.projection.table[(id, id)].operation == log[i].event.changed.operation
    {
      ProjectionShowsLastOperation(log, i);
    }
  }

  // ----------------------------------------------------------------- catching up

  /** Worker steps that remain until every row of the log is acknowledged. */
  function WorkLeft(log: seq<Row>, p: Projection): int {
    3 * (|log| - p.acked) -
    (match p.worker case Applying(_, _, _) => 1 case Acking(_, _, _) => 2 case _ => 0)
  }

  lemma WorkShrinks(log: seq<Row>, p: Projection, batchSize: nat)
    requires Increasing(log) && ProjectionInv(log, p) && !p.worker.Down? && batchSize > 0
    ensures ProjectionInv(log, WorkStep(p, log, batchSize)) && !WorkStep(p, log, batchSize).worker.Down?
    ensures WorkLeft(log, p) >= 0
    ensures if WorkLeft(log, p) == 0 then WorkLeft(log, WorkStep(p, log, batchSize)) == 0
            else WorkLeft(log, WorkStep(p, log, batchSize)) < WorkLeft(log, p)
  {
    match p.worker
    case Fetching(_) =>
      FetchKeepsProjection(log, p, batchSize);
      CheckpointPosition(log, p);
      FetchIsASlice(log, p.checkpoint, batchSize);
    case Applying(_, _, _) => ApplyKeepsProjection(log, p);
    case Acking(_, _, _) => AckKeepsProjection(log, p);
  }

  function Log(s: State): seq<Row> {
    s.counter.tables.outbox
  }

  /** The state after some more actions. */
  function After(s: State, actions: seq<Action>, batchSize: nat): State
    decreases |actions|
  {
    if actions == [] then s else After(Step(s, actions[0], batchSize), actions[1..], batchSize)
  }

  /** The number of worker steps taken while rows were waiting. */
  function BusySteps(s: State, actions: seq<Action>, batchSize: nat): nat
    decreases |actions|
  {
    if actions == [] then 0
    else
      (if actions[0].Work? && WorkLeft(Log(s), s.projection) > 0 then 1 else 0) +
      BusySteps(Step(s, actions[0], batchSize), actions[1..], batchSize)
  }

  lemma StepUsesWork(s: State, a: Action, batchSize: nat)
    requires Inv(s) && !s.projection.worker.Down? && batchSize > 0 && !a.Crash?
    ensures var s' := Step(s, a, batchSize);
            && !s'.projection.worker.Down? && Log(s) <= Log(s')
            && (if a.Work? && WorkLeft(Log(s), s.projection) > 0 then 1 else 0) + WorkLeft(Log(s'), s'.projection)
               <= WorkLeft(Log(s), s.projection) + 3 * (|Log(s')| - |Log(s)|)
  {
    match a
    case ClientAction(b) => LogOnlyGrows(s.counter, b);
    case Start =>
    case Work => WorkShrinks(Log(s), s.projection, batchSize);
  }

  lemma NoWorkMeansCaughtUp(s: State)
    requires Inv(s) && WorkLeft(Log(s), s.projection) == 0
    ensures s.projection.checkpoint == LastSequence(Log(s)) && s.projection.table == Project(map[], Log(s))
  {
    assert Log(s)[..s.projection.seen] == Log(s);
  }

  /**
   A worker that stays up keeps pace with the clients: whatever they append meanwhile, it
   takes at most three steps per row that was waiting or has arrived, and when none is
   left the checkpoint is at the end of the outbox and the projection shows all of it.
   */
  lemma {:induction false} WorkerCatchesUp(s: State, actions: seq<Action>, batchSize: nat)
    requires Inv(s) && !s.projection.worker.Down? && batchSize > 0
    requires forall i :: 0 <= i < |actions| ==> !actions[i].Crash?
    ensures var s' := After(s, actions, batchSize);
            && Inv(s') && |Log(s)| <= |Log(s')|
            && BusySteps(s, actions, batchSize) + WorkLeft(Log(s'), s'.projection)
               <= WorkLeft(Log(s), s.projection) + 3 * (|Log(s')| - |Log(s)|)
            && (WorkLeft(Log(s'), s'.projection) == 0 ==>
                  && s'.projection.checkpoint == LastSequence(Log(s'))
                  && s'.projection.table == Project(map[], Log(s')))
    decreases |actions|
  {
    if actions == [] {
      if WorkLeft(Log(s), s.projection) == 0 {
        NoWorkMeansCaughtUp(s);
      }
    } else {
      StepUsesWork(s, actions[0], batchSize);
      StepKeepsInv(s, actions[0], batchSize);
      WorkerCatchesUp(Step(s, actions[0], batchSize), actions[1..], batchSize);
    }
  }
}
