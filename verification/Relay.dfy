/**
 The outbox relay: poll unpublished rows after the checkpoint, start their ids in the
 idempotency store, publish, mark, settle, and advance the checkpoint. Which publishes
 succeed and whether the database update succeeds are inputs of a cycle.
 */
module Relay {
  import opened Options
  import opened Stores

  /** Nothing in the relay ever raises retry_count, so the filter on it never applies. */
  datatype Entry = Entry(sequence: nat, id: string, published: bool)

  /** `saved` is the checkpoint a restart finds; `bus` is the history of what reached the event bus. */
  datatype State = State(
    rows: seq<Entry>, checkpoint: nat, saved: nat, dedupe: set<string>, store: Store, bus: seq<string>)

  const INITIAL := State([], 0, 0, {}, map[], [])

  /**
   What happens when the checkpoint is advanced: it is stored, or it moves in memory but
   does not reach the disk (the file store), or it does not move (the database store).
   */
  datatype Write = Kept | Unsaved | Refused

  /**
   The outcome of the outside world in one cycle. A publish goes to the event bus and
   then to the pubsub mirror: `reaches` are the ids the bus takes, `mirrored` those the
   mirror takes, and a publish succeeds only if both do. `polls` and `acks` say whether
   the checkpoint can be read before and after publishing, `marks` whether the database
   update succeeds, `writes` what becomes of checkpoint advances, and `gone(n)` is what
   the n-th start evicts.
   */
  datatype Weather = Weather(
    limit: nat, polls: bool, reaches: set<string>, mirrored: set<string>, marks: bool, acks: bool, writes: Write,
    gone: nat -> set<string>)
  {
    function Delivers(): set<string> {
      reaches * mirrored
    }
  }

  // ----------------------------------------------------------------- one cycle

  function Pending(rows: seq<Entry>, since: nat): seq<Entry> {
    if rows == [] then []
    else
      var e := rows[|rows| - 1];
      Pending(rows[..|rows| - 1], since) + (if !e.published && e.sequence > since then [e] else [])
  }

  function FetchPending(rows: seq<Entry>, since: nat, limit: nat): seq<Entry> {
    var pending := Pending(rows, since);
    if |pending| <= limit then pending else pending[..limit]
  }

  function DropDuplicates(entries: seq<Entry>, dedupe: set<string>): seq<Entry> {
    if entries == [] then []
    else
      var e := entries[|entries| - 1];
      DropDuplicates(entries[..|entries| - 1], dedupe) + (if e.id in dedupe then [] else [e])
  }

  /** A checkpoint that cannot be read counts as 0. */
  function Since(s: State, w: Weather): nat {
    if w.polls then s.checkpoint else 0
  }

  function Fetched(s: State, w: Weather): seq<Entry> {
    FetchPending(s.rows, Since(s, w), w.limit)
  }

  function Poll(s: State, w: Weather): seq<Entry> {
    DropDuplicates(Fetched(s, w), s.dedupe)
  }

  /** Only settled keys can be evicted. */
  function Evict(store: Store, gone: set<string>): Store {
    store - (gone * SettledKeys(store))
  }

  /** The filter loop: skip completed ids, start the others. */
  function Admit(store: Store, entries: seq<Entry>, gone: nat -> set<string>): (r: (Store, seq<Entry>))
    ensures |r.1| <= |entries|
  {
    if entries == [] then (store, [])
    else
      var n := |entries| - 1;
      var (store', admitted) := Admit(store, entries[..n], gone);
      var e := entries[n];
      if e.id in store' && store'[e.id].Completed? then (store', admitted)
      else
        var (store'', started) := Start(Evict(store', gone(n)), e.id);
        (store'', if started then admitted + [e] else admitted)
  }

  function Ids(entries: seq<Entry>): seq<string> {
    seq(|entries|, i requires 0 <= i < |entries| => entries[i].id)
  }

  function Select(ids: seq<string>, wanted: set<string>): seq<string> {
    if ids == [] then []
    else
      var id := ids[|ids| - 1];
      Select(ids[..|ids| - 1], wanted) + (if id in wanted then [id] else [])
  }

  function Reject(ids: seq<string>, unwanted: set<string>): seq<string> {
    if ids == [] then []
    else
      var id := ids[|ids| - 1];
      Reject(ids[..|ids| - 1], unwanted) + (if id in unwanted then [] else [id])
  }

  function SetAll(store: Store, ids: seq<string>, v: KeyStatus): Store {
    if ids == [] then store else SetAll(store, ids[..|ids| - 1], v)[ids[|ids| - 1] := v]
  }

  function MarkPublished(rows: seq<Entry>, ids: seq<string>): (r: seq<Entry>)
    ensures |r| == |rows|
    ensures forall i :: 0 <= i < |rows| ==> r[i] == rows[i].(published := rows[i].published || rows[i].id in ids)
  {
    seq(|rows|, i requires 0 <= i < |rows| => rows[i].(published := rows[i].published || rows[i].id in ids))
  }

  function OrElse(moved: Option<nat>, checkpoint: nat): nat {
    match moved
    case Some(c) => c
    case None => checkpoint
  }

  /**
   `mark_processed_by_id`: the checkpoint is advanced to each completed entry above what
   is read of it. The last advance, or None if there was none.
   */
  function Acknowledge(checkpoint: nat, entries: seq<Entry>, completed: seq<string>, acks: bool): Option<nat> {
    if entries == [] then None
    else
      var e := entries[|entries| - 1];
      var before := Acknowledge(checkpoint, entries[..|entries| - 1], completed, acks);
      if e.id in completed && e.sequence > (if acks then OrElse(before, checkpoint) else 0) then Some(e.sequence)
      else before
  }

  function Cycle(s: State, w: Weather): State {
    var entries := Poll(s, w);
    var (store, admitted) := Admit(s.store, entries, w.gone);
    var successes := Select(Ids(admitted), w.Delivers());
    var failures := Reject(Ids(admitted), w.Delivers());
    var completed := if w.marks then successes else [];
    var settled := SetAll(store, successes, if w.marks then Completed else Failed("mark_published failed"));
    var moved := if w.writes.Refused? then None else Acknowledge(s.checkpoint, entries, completed, w.acks);
    State(
      MarkPublished(s.rows, completed),
      OrElse(moved, s.checkpoint),
      if w.writes.Kept? then OrElse(moved, s.saved) else s.saved,
      s.dedupe + (set id | id in completed),
      SetAll(settled, failures, Failed("publish failed")),
      s.bus + Select(Ids(admitted), w.reaches))
  }

  // ---------------------------------------------------------------- whole runs

  datatype Action =
    | Append(id: string, gap: nat)
    | RunCycle(weather: Weather)
    | ForgetDedupe(ids: set<string>)
    | Restart(keeps: bool)

  function LastSequence(rows: seq<Entry>): nat {
    if rows == [] then 0 else rows[|rows| - 1].sequence
  }

  predicate Known(rows: seq<Entry>, id: string) {
    exists i :: 0 <= i < |rows| && rows[i].id == id
  }

  /**
   event_id is UNIQUE, so a second insert of an id is refused. A restart reads the saved
   checkpoint; in-memory stores come back empty, those in a shared database are kept.
   */
  function Step(s: State, a: Action): State {
    match a
    case Append(id, gap) =>
      if Known(s.rows, id) then s
      else s.(rows := s.rows + [Entry(LastSequence(s.rows) + 1 + gap, id, false)])
    case RunCycle(w) => Cycle(s, w)
    case ForgetDedupe(ids) => s.(dedupe := s.dedupe - ids)
    case Restart(keeps) =>
      s.(checkpoint := s.saved,
         dedupe := if keeps then s.dedupe else {}, store := if keeps then s.store else map[])
  }

  function Run(actions: seq<Action>): State {
    if actions == [] then INITIAL else Step(Run(actions[..|actions| - 1]), actions[|actions| - 1])
  }

  predicate IsPublished(rows: seq<Entry>, id: string) {
    exists i :: 0 <= i < |rows| && rows[i].id == id && rows[i].published
  }

  predicate Ordered(rows: seq<Entry>) {
    && (forall i :: 0 <= i < |rows| ==> 0 < rows[i].sequence <= LastSequence(rows))
    && (forall i, j :: 0 <= i < j < |rows| ==> rows[i].sequence < rows[j].sequence && rows[i].id != rows[j].id)
  }

  /** Between cycles: nothing is in progress, and what is remembered as done is published. */
  ghost predicate Inv(s: State) {
    && Ordered(s.rows)
    && (forall id :: id in s.store ==> s.store[id].Settled())
    && (forall id :: id in s.store && s.store[id].Completed? ==> IsPublished(s.rows, id))
    && (forall id :: id in s.dedupe ==> IsPublished(s.rows, id))
  }
}
