/**
 The relay on a store that survives the process. Every statement of a cycle may fail or
 never be reached because the worker is cut off, so a cycle is given by what takes
 effect. An id that was started and not settled stays in progress; later cycles skip it,
 but the poll, which is ordered and bounded, still returns it, and enough such rows in
 front keep everything behind them from being polled at all.

 Ids in the dedupe store belong to published rows, which no poll returns, so the dedupe
 store plays no part here.
 */
module RelayCrashes {
  import opened Options
  import opened Stores
  import opened Relay
  import opened RelayGuarantees

  /**
   What takes effect in a cycle. `polls`: the poll can read the checkpoint. `refuses`:
   starts that fail or are not reached; `silent`: starts that take effect though the
   answer is lost. `settles`: settling calls that take effect. `ackReads`, `writes`:
   checkpoint polls and advances that succeed after publishing.
   */
  datatype Plan = Plan(
    polls: bool, refuses: set<string>, silent: set<string>, reaches: set<string>, mirrored: set<string>,
    marks: bool, settles: set<string>, ackReads: set<string>, writes: set<string>)

  datatype System = System(rows: seq<Entry>, checkpoint: nat, store: Store, bus: seq<string>)

  const START := System([], 0, map[], [])

  /** `LoseStore` is what a restart does to a store in memory; a store in a shared database is kept. */
  datatype Move = Insert(id: string, gap: nat) | Attempt(plan: Plan) | LoseStore

  function From(s: System, plan: Plan): nat {
    if plan.polls then s.checkpoint else 0
  }

  function Batch(s: System, limit: nat, plan: Plan): seq<Entry> {
    FetchPending(s.rows, From(s, plan), limit)
  }

  /** The ids that become InProgress. */
  function Opened(s: System, f: seq<Entry>, plan: Plan): set<string> {
    set e | e in f && CanStart(s.store, e.id) && e.id !in plan.refuses :: e.id
  }

  /** The ids the worker goes on with. */
  function Held(s: System, f: seq<Entry>, plan: Plan): seq<string> {
    Select(Ids(f), Opened(s, f, plan) - plan.silent)
  }

  /** The ids that are published and marked. */
  function Done(s: System, f: seq<Entry>, plan: Plan): seq<string> {
    if plan.marks then Select(Held(s, f, plan), plan.reaches * plan.mirrored) else []
  }

  function Sent(s: System, f: seq<Entry>, plan: Plan): seq<string> {
    Select(Held(s, f, plan), plan.reaches)
  }

  function Settled(s: System, f: seq<Entry>, plan: Plan): Store {
    var begun := SetAll(s.store, Select(Ids(f), Opened(s, f, plan)), InProgress);
    var finished := Select(Held(s, f, plan), plan.settles);
    var done := set id | id in Done(s, f, plan);
    SetAll(SetAll(begun, Select(finished, done), Completed), Reject(finished, done), Failed(""))
  }

  function Advanced(checkpoint: nat, entries: seq<Entry>, done: seq<string>, plan: Plan): nat {
    if entries == [] then checkpoint
    else
      var e := entries[|entries| - 1];
      var before := Advanced(checkpoint, entries[..|entries| - 1], done, plan);
      if e.id in done && e.id in plan.writes && e.sequence > (if e.id in plan.ackReads then before else 0)
      then e.sequence else before
  }

  function Attempted(s: System, limit: nat, plan: Plan): System {
    var f := Batch(s, limit, plan);
    System(MarkPublished(s.rows, Done(s, f, plan)), Advanced(s.checkpoint, f, Done(s, f, plan), plan),
           Settled(s, f, plan), s.bus + Sent(s, f, plan))
  }

  function Next(s: System, limit: nat, a: Move): System {
    match a
    case Insert(id, gap) =>
      if Known(s.rows, id) then s
      else s.(rows := s.rows + [Entry(LastSequence(s.rows) + 1 + gap, id, false)])
    case Attempt(plan) => Attempted(s, limit, plan)
    case LoseStore => s.(store := map[])
  }

  function RunAll(moves: seq<Move>, limit: nat): System {
    if moves == [] then START else Next(RunAll(moves[..|moves| - 1], limit), limit, moves[|moves| - 1])
  }

  // ------------------------------------------------------------------ row by row

  predicate InUse(store: Store, id: string) {
    id in store && store[id].InProgress?
  }

  predicate Polled(s: System, limit: nat, plan: Plan, k: nat) {
    k < |s.rows| && s.rows[k] in Batch(s, limit, plan)
  }

  /** Row k is polled, started, delivered and marked. */
  predicate Completes(s: System, limit: nat, plan: Plan, k: nat) {
    && Polled(s, limit, plan, k) && CanStart(s.store, s.rows[k].id)
    && s.rows[k].id !in plan.refuses + plan.silent && s.rows[k].id in plan.reaches * plan.mirrored && plan.marks
  }

  ghost predicate Sound(s: System) {
    Ordered(s.rows) && forall id :: id in s.store && s.store[id].Completed? ==> id in PublishedIds(s.rows)
  }

  lemma BatchRow(s: System, limit: nat, plan: Plan, e: Entry) returns (k: nat)
    requires e in Batch(s, limit, plan)
    ensures Polled(s, limit, plan, k) && s.rows[k] == e && !e.published && e.sequence > From(s, plan)
  {
    PendingMeaning(s.rows, From(s, plan), e);
    k :| 0 <= k < |s.rows| && s.rows[k] == e;
  }

  lemma HeldMeaning(s: System, f: seq<Entry>, plan: Plan, id: string)
    ensures id in Held(s, f, plan) <==> id in Opened(s, f, plan) && id !in plan.silent
    ensures id in Opened(s, f, plan) ==> id in Ids(f)
    ensures id in Sent(s, f, plan) <==> id in Held(s, f, plan) && id in plan.reaches
    ensures id in Done(s, f, plan) <==> id in Sent(s, f, plan) && id in plan.mirrored && plan.marks
  {
    SelectMeaning(Ids(f), Opened(s, f, plan) - plan.silent, id);
    SelectMeaning(Held(s, f, plan), plan.reaches, id);
    SelectMeaning(Held(s, f, plan), plan.reaches * plan.mirrored, id);
    if id in Opened(s, f, plan) {
      var e :| e in f && e.id == id;
      var i :| 0 <= i < |f| && f[i] == e;
      assert Ids(f)[i] == id;
    }
  }

  lemma DoneIff(s: System, limit: nat, plan: Plan, k: nat)
    requires Ordered(s.rows) && k < |s.rows|
    ensures s.rows[k].id in Done(s, Batch(s, limit, plan), plan) <==> Completes(s, limit, plan, k)
  {
    var f, id := Batch(s, limit, plan), s.rows[k].id;
    HeldMeaning(s, f, plan, id);
    if id in Opened(s, f, plan) {
      var e :| e in f && e.id == id && CanStart(s.store, e.id) && e.id !in plan.refuses;
      var j := BatchRow(s, limit, plan, e);
    }
  }

  lemma DoneRow(s: System, limit: nat, plan: Plan, id: string) returns (k: nat)
    requires Ordered(s.rows) && id in Done(s, Batch(s, limit, plan), plan)
    ensures Completes(s, limit, plan, k) && s.rows[k].id == id
  {
    var f := Batch(s, limit, plan);
    HeldMeaning(s, f, plan, id);
    var e :| e in f && e.id == id && CanStart(s.store, e.id) && e.id !in plan.refuses;
    k := BatchRow(s, limit, plan, e);
    DoneIff(s, limit, plan, k);
  }

  /** What an attempt does to rows, checkpoint and store. */
  ghost predicate Effect(s: System, limit: nat, plan: Plan, s': System) {
    && |s'.rows| == |s.rows|
    && (forall k: nat :: k < |s.rows| ==>
          s'.rows[k] == s.rows[k].(published := s.rows[k].published || Completes(s, limit, plan, k)))
    && (s'.checkpoint == s.checkpoint ||
        exists k: nat :: Completes(s, limit, plan, k) && s.rows[k].sequence == s'.checkpoint)
    && (forall id :: InUse(s'.store, id) <==>
          || InUse(s.store, id)
          || (id in Opened(s, Batch(s, limit, plan), plan) && (id in plan.silent || id !in plan.settles)))
  }

  lemma AttemptRows(s: System, limit: nat, plan: Plan)
    requires Ordered(s.rows)
    ensures var s' := Attempted(s, limit, plan);
            |s'.rows| == |s.rows| &&
            forall k: nat :: k < |s.rows| ==>
              s'.rows[k] == s.rows[k].(published := s.rows[k].published || Completes(s, limit, plan, k))
  {
    forall k: nat | k < |s.rows|
      ensures s.rows[k].id in Done(s, Batch(s, limit, plan), plan) <==> Completes(s, limit, plan, k)
    {
      DoneIff(s, limit, plan, k);
    }
  }

  lemma {:induction false} AdvancedMeaning(checkpoint: nat, entries: seq<Entry>, done: seq<string>, plan: Plan)
    ensures var c := Advanced(checkpoint, entries, done, plan);
            c == checkpoint || exists i: nat :: CompletedAt(entries, done, i) && entries[i].sequence == c
  {
    if entries != [] {
      var n := |entries| - 1;
      var init, c := entries[..n], Advanced(checkpoint, entries, done, plan);
      AdvancedMeaning(checkpoint, init, done, plan);
      if c == Advanced(checkpoint, init, done, plan) && c != checkpoint {
        var i: nat :| CompletedAt(init, done, i) && init[i].sequence == c;
        assert CompletedAt(entries, done, i);
      } else if c != checkpoint {
        assert CompletedAt(entries, done, n);
      }
    }
  }

  lemma AttemptCheckpoint(s: System, limit: nat, plan: Plan)
    requires Ordered(s.rows)
    ensures var c := Attempted(s, limit, plan).checkpoint;
            c == s.checkpoint || exists k: nat :: Completes(s, limit, plan, k) && s.rows[k].sequence == c
  {
    var f, c := Batch(s, limit, plan), Attempted(s, limit, plan).checkpoint;
    AdvancedMeaning(s.checkpoint, f, Done(s, f, plan), plan);
    if c != s.checkpoint {
      var i: nat :| CompletedAt(f, Done(s, f, plan), i) && f[i].sequence == c;
      var k := BatchRow(s, limit, plan, f[i]);
      DoneIff(s, limit, plan, k);
    }
  }

  lemma SettledMeaning(s: System, f: seq<Entry>, plan: Plan, id: string)
    ensures InUse(Settled(s, f, plan), id) <==>
            InUse(s.store, id) || (id in Opened(s, f, plan) && (id in plan.silent || id !in plan.settles))
    ensures id in Settled(s, f, plan) && Settled(s, f, plan)[id].Completed? ==>
            (id in s.store && s.store[id].Completed?) || id in Done(s, f, plan)
    ensures id in Done(s, f, plan) && id in plan.settles ==>
            id in Settled(s, f, plan) && Settled(s, f, plan)[id].Completed?
  {
    var begun := SetAll(s.store, Select(Ids(f), Opened(s, f, plan)), InProgress);
    var finished := Select(Held(s, f, plan), plan.settles);
    var done := set x | x in Done(s, f, plan);
    var once := SetAll(begun, Select(finished, done), Completed);
    HeldMeaning(s, f, plan, id);
    SelectMeaning(Ids(f), Opened(s, f, plan), id);
    SelectMeaning(Held(s, f, plan), plan.settles, id);
    SelectMeaning(finished, done, id);
    SetAllMeaning(s.store, Select(Ids(f), Opened(s, f, plan)), InProgress, id);
    SetAllMeaning(begun, Select(finished, done), Completed, id);
    SetAllMeaning(once, Reject(finished, done), Failed(""), id);
  }

  lemma AttemptHasEffect(s: System, limit: nat, plan: Plan)
    requires Ordered(s.rows)
    ensures Effect(s, limit, plan, Attempted(s, limit, plan))
  {
    AttemptRows(s, limit, plan);
    AttemptCheckpoint(s, limit, plan);
    forall id { SettledMeaning(s, Batch(s, limit, plan), plan, id); }
  }

  // ------------------------------------------------------------------- invariant

  lemma AttemptPublishes(s: System, limit: nat, plan: Plan)
    requires Ordered(s.rows)
    ensures PublishedIds(Attempted(s, limit, plan).rows) ==
            PublishedIds(s.rows) + (set id | id in Done(s, Batch(s, limit, plan), plan))
  {
    var s' := Attempted(s, limit, plan);
    AttemptRows(s, limit, plan);
    forall id
      ensures id in PublishedIds(s'.rows) <==>
              id in PublishedIds(s.rows) || id in Done(s, Batch(s, limit, plan), plan)
    {
      if id in PublishedIds(s.rows) {
        var k :| 0 <= k < |s.rows| && s.rows[k].published && s.rows[k].id == id;
        assert s'.rows[k].published && s'.rows[k].id == id;
      } else if id in Done(s, Batch(s, limit, plan), plan) {
        var k := DoneRow(s, limit, plan, id);
        assert s'.rows[k].published && s'.rows[k].id == id;
      }
    }
  }

  lemma OrderedStays(rows: seq<Entry>, rows': seq<Entry>)
    requires Ordered(rows) && |rows'| == |rows|
    requires forall k: nat :: k < |rows| ==> rows'[k].sequence == rows[k].sequence && rows'[k].id == rows[k].id
    ensures Ordered(rows')
  {
  }

  lemma AttemptKeepsSound(s: System, limit: nat, plan: Plan)
    requires Sound(s)
    ensures Sound(Attempted(s, limit, plan))
  {
    var s' := Attempted(s, limit, plan);
    AttemptRows(s, limit, plan);
    OrderedStays(s.rows, s'.rows);
    AttemptPublishes(s, limit, plan);
    forall id | id in s'.store && s'.store[id].Completed?
      ensures id in PublishedIds(s'.rows)
    {
      SettledMeaning(s, Batch(s, limit, plan), plan, id);
    }
  }

  lemma InsertPublishes(s: System, limit: nat, id: string, gap: nat)
    ensures PublishedIds(Next(s, limit, Insert(id, gap)).rows) == PublishedIds(s.rows)
  {
    var s' := Next(s, limit, Insert(id, gap));
    assert forall k :: 0 <= k < |s.rows| ==> s'.rows[k] == s.rows[k];
  }

  lemma NextKeepsSound(s: System, limit: nat, a: Move)
    requires Sound(s)
    ensures Sound(Next(s, limit, a))
  {
    match a
    case Insert(id, gap) => InsertPublishes(s, limit, id, gap);
    case Attempt(plan) => AttemptKeepsSound(s, limit, plan);
    case LoseStore =>
  }

  lemma {:induction false} RunKeepsSound(moves: seq<Move>, limit: nat)
    ensures Sound(RunAll(moves, limit))
  {
    if moves != [] {
      RunKeepsSound(moves[..|moves| - 1], limit);
      NextKeepsSound(RunAll(moves[..|moves| - 1], limit), limit, moves[|moves| - 1]);
    }
  }

  // ------------------------------------------------------------------ what is polled

  /** The number of unpublished rows from i up to j. */
  function Waiting(rows: seq<Entry>, i: nat, j: nat): nat
    requires j <= |rows|
  {
    if j <= i then 0 else Waiting(rows, i, j - 1) + (if rows[j - 1].published then 0 else 1)
  }

  lemma {:induction false} WaitingGrows(rows: seq<Entry>, i: nat, j: nat, k: nat)
    requires j <= k <= |rows|
    ensures Waiting(rows, i, j) <= Waiting(rows, i, k)
  {
    if j < k {
      WaitingGrows(rows, i, j, k - 1);
    }
  }

  lemma PendingNext(rows: seq<Entry>, since: nat, k: nat)
    requires k < |rows|
    ensures Pending(rows[..k + 1], since) == Pending(rows[..k], since) +
            (if !rows[k].published && rows[k].sequence > since then [rows[k]] else [])
  {
    assert rows[..k + 1][..k] == rows[..k];
  }

  lemma {:induction false} PendingPrefix(rows: seq<Entry>, since: nat, j: nat, k: nat)
    requires j <= k <= |rows|
    ensures Pending(rows[..j], since) <= Pending(rows[..k], since)
  {
    if j < k {
      PendingPrefix(rows, since, j, k - 1);
      PendingNext(rows, since, k - 1);
    }
  }

  /** A row is polled if and only if it is pending and fewer than `limit` pending rows come before it. */
  lemma FetchIff(rows: seq<Entry>, since: nat, limit: nat, k: nat)
    requires Ordered(rows) && k < |rows|
    ensures rows[k] in FetchPending(rows, since, limit) <==>
            !rows[k].published && rows[k].sequence > since && |Pending(rows[..k], since)| < limit
  {
    var pending, n := Pending(rows, since), |Pending(rows[..k], since)|;
    assert rows[..|rows|] == rows;
    PendingMeaning(rows, since, rows[k]);
    if !rows[k].published && rows[k].sequence > since {
      PendingNext(rows, since, k);
      PendingPrefix(rows, since, k + 1, |rows|);
      assert pending[n] == rows[k];
      PendingAscending(rows, since);
      assert forall m :: 0 <= m < |pending| && pending[m] == rows[k] ==> m == n;
      if n < limit {
        assert FetchPending(rows, since, limit)[n] == rows[k];
      }
    }
  }

  /** Unpublished rows above `since` are pending, and if nothing else is, they are all. */
  lemma {:induction false} PendingCounts(rows: seq<Entry>, since: nat, i: nat, k: nat)
    requires i <= k <= |rows| && forall m :: i <= m < k ==> rows[m].sequence > since
    ensures |Pending(rows[..k], since)| >= Waiting(rows, i, k)
    ensures (forall m :: 0 <= m < i ==> rows[m].sequence <= since) ==>
              |Pending(rows[..k], since)| == Waiting(rows, i, k)
  {
    if i < k {
      PendingCounts(rows, since, i, k - 1);
      PendingNext(rows, since, k - 1);
    } else if forall m :: 0 <= m < i ==> rows[m].sequence <= since {
      NothingPending(rows, since, i);
    }
  }

  lemma {:induction false} NothingPending(rows: seq<Entry>, since: nat, i: nat)
    requires i <= |rows| && forall m :: 0 <= m < i ==> rows[m].sequence <= since
    ensures Pending(rows[..i], since) == []
  {
    if i > 0 {
      NothingPending(rows, since, i - 1);
      PendingNext(rows, since, i - 1);
    }
  }

  // ----------------------------------------------------------------------- walls

  /** At least `limit` unpublished rows from i up to j, all of them in progress for good. */
  predicate Wall(s: System, limit: nat, i: nat, j: nat) {
    && i <= j <= |s.rows| && Waiting(s.rows, i, j) >= limit
    && forall m :: i <= m < j ==> s.rows[m].published || InUse(s.store, s.rows[m].id)
  }

  /**
   Row t lies behind a wall, and the checkpoint is before the wall or past the row: from
   where a poll can start, the rows of the wall fill the batch.
   */
  predicate Blocked(s: System, limit: nat, t: nat) {
    t < |s.rows| && exists i, j :: 0 <= i <= j <= t && BlockedBy(s, limit, t, i, j)
  }

  predicate BlockedBy(s: System, limit: nat, t: nat, i: nat, j: nat)
    requires i <= j <= t < |s.rows|
  {
    Wall(s, limit, i, j) && (s.checkpoint < s.rows[i].sequence || s.rows[t].sequence <= s.checkpoint)
  }

  predicate Stuck(s: System, limit: nat, t: nat) {
    t < |s.rows| && !s.rows[t].published && (InUse(s.store, s.rows[t].id) || Blocked(s, limit, t))
  }

  /** A poll that starts before a wall does not get past it. */
  lemma WallHolds(s: System, limit: nat, since: nat, i: nat, j: nat, x: nat)
    requires Ordered(s.rows) && Wall(s, limit, i, j) && j <= x < |s.rows| && since < s.rows[i].sequence
    ensures s.rows[x] !in FetchPending(s.rows, since, limit)
  {
    forall m | i <= m < x
      ensures s.rows[m].sequence > since
    {
      assert i < m ==> s.rows[i].sequence < s.rows[m].sequence;
    }
    PendingCounts(s.rows, since, i, x);
    WaitingGrows(s.rows, i, j, x);
    FetchIff(s.rows, since, limit, x);
  }

  lemma BlockedIsNotPolled(s: System, limit: nat, plan: Plan, t: nat, i: nat, j: nat)
    requires Ordered(s.rows) && i <= j <= t < |s.rows| && BlockedBy(s, limit, t, i, j)
    ensures !Polled(s, limit, plan, t)
  {
    if From(s, plan) < s.rows[i].sequence {
      WallHolds(s, limit, From(s, plan), i, j, t);
    } else {
      FetchIff(s.rows, From(s, plan), limit, t);
    }
  }

  /** What an attempt completes lies before the wall or, polled from beyond it, past the row. */
  lemma CompletedAround(s: System, limit: nat, plan: Plan, t: nat, i: nat, j: nat, x: nat)
    requires Ordered(s.rows) && i <= j <= t < |s.rows| && BlockedBy(s, limit, t, i, j) && Completes(s, limit, plan, x)
    ensures x < i || t < x
  {
    FetchIff(s.rows, From(s, plan), limit, x);
    if From(s, plan) < s.rows[i].sequence {
      if j <= x {
        WallHolds(s, limit, From(s, plan), i, j, x);
      }
    }
  }

  lemma {:induction false} WaitingSame(rows: seq<Entry>, rows': seq<Entry>, i: nat, j: nat)
    requires j <= |rows| && j <= |rows'| && forall m :: i <= m < j ==> rows'[m].published == rows[m].published
    ensures Waiting(rows', i, j) == Waiting(rows, i, j)
  {
    if i < j {
      WaitingSame(rows, rows', i, j - 1);
    }
  }

  lemma WallStays(s: System, limit: nat, s': System, i: nat, j: nat)
    requires Wall(s, limit, i, j) && j <= |s'.rows|
    requires forall m :: i <= m < j ==> s'.rows[m] == s.rows[m]
    requires forall m :: i <= m < j && InUse(s.store, s.rows[m].id) ==> InUse(s'.store, s.rows[m].id)
    ensures Wall(s', limit, i, j)
  {
    WaitingSame(s.rows, s'.rows, i, j);
  }

  lemma AttemptKeepsBlocked(s: System, limit: nat, plan: Plan, s': System, t: nat)
    requires Ordered(s.rows) && Effect(s, limit, plan, s') && Blocked(s, limit, t)
    ensures Blocked(s', limit, t) && s'.rows[t] == s.rows[t]
  {
    var i, j :| 0 <= i <= j <= t && BlockedBy(s, limit, t, i, j);
    BlockedIsNotPolled(s, limit, plan, t, i, j);
    WallStays(s, limit, s', i, j);
    if s'.checkpoint != s.checkpoint {
      var x: nat :| Completes(s, limit, plan, x) && s.rows[x].sequence == s'.checkpoint;
      CompletedAround(s, limit, plan, t, i, j, x);
    }
    assert BlockedBy(s', limit, t, i, j);
  }

  lemma InsertKeepsBlocked(s: System, limit: nat, id: string, gap: nat, t: nat)
    requires Blocked(s, limit, t)
    ensures Blocked(Next(s, limit, Insert(id, gap)), limit, t)
  {
    var s' := Next(s, limit, Insert(id, gap));
    var i, j :| 0 <= i <= j <= t && BlockedBy(s, limit, t, i, j);
    WallStays(s, limit, s', i, j);
    assert BlockedBy(s', limit, t, i, j);
  }

  /** As long as the store is kept, what is stuck stays stuck. */
  lemma NextKeepsStuck(s: System, limit: nat, a: Move, t: nat)
    requires Sound(s) && Stuck(s, limit, t) && !a.LoseStore?
    ensures Stuck(Next(s, limit, a), limit, t)
  {
    match a
    case Insert(id, gap) =>
      if Blocked(s, limit, t) {
        InsertKeepsBlocked(s, limit, id, gap, t);
      }
    case Attempt(plan) =>
      AttemptHasEffect(s, limit, plan);
      if !InUse(s.store, s.rows[t].id) {
        AttemptKeepsBlocked(s, limit, plan, Attempted(s, limit, plan), t);
      }
  }

  // -------------------------------------------------------- a way to get published

  /** A cycle that starts, delivers, marks and settles row x alone, and writes its checkpoint. */
  function Solo(s: System, limit: nat, polls: bool, x: nat): Plan
    requires x < |s.rows|
  {
    var id := s.rows[x].id;
    var others := (set e | e in FetchPending(s.rows, if polls then s.checkpoint else 0, limit) :: e.id) - {id};
    Plan(polls, others, {}, {id}, {id}, true, {id}, {}, {id})
  }

  lemma {:induction false} AdvancedToOnly(checkpoint: nat, entries: seq<Entry>, done: seq<string>, plan: Plan, x: nat)
    requires x < |entries| && entries[x].id in done && entries[x].id in plan.writes && plan.ackReads == {}
    requires entries[x].sequence > 0 && forall i :: 0 <= i < |entries| && i != x ==> entries[i].id !in done
    ensures Advanced(checkpoint, entries, done, plan) == entries[x].sequence
  {
    if x < |entries| - 1 {
      AdvancedToOnly(checkpoint, entries[..|entries| - 1], done, plan, x);
    }
  }

  lemma SoloCheckpoint(s: System, limit: nat, plan: Plan, x: nat)
    requires Ordered(s.rows) && Completes(s, limit, plan, x) && plan.ackReads == {} && s.rows[x].id in plan.writes
    requires forall k: nat :: Completes(s, limit, plan, k) ==> k == x
    ensures Attempted(s, limit, plan).checkpoint == s.rows[x].sequence
  {
    var f := Batch(s, limit, plan);
    var i :| 0 <= i < |f| && f[i] == s.rows[x];
    DoneIff(s, limit, plan, x);
    PendingAscending(s.rows, From(s, plan));
    forall m | 0 <= m < |f| && m != i
      ensures f[m].id !in Done(s, f, plan)
    {
      var k := BatchRow(s, limit, plan, f[m]);
      DoneIff(s, limit, plan, k);
      assert f[m].sequence != f[i].sequence;
    }
    AdvancedToOnly(s.checkpoint, f, Done(s, f, plan), plan, i);
  }

  /** After that cycle row x is published, the checkpoint is at it, and nothing else has changed. */
  ghost predicate SoloEffect(s: System, x: nat, s': System)
    requires x < |s.rows|
  {
    && |s'.rows| == |s.rows| && s'.rows[x].published && s'.checkpoint == s.rows[x].sequence
    && (forall k: nat :: k < |s.rows| && k != x ==> s'.rows[k] == s.rows[k])
    && s'.rows[x].sequence == s.rows[x].sequence && s'.rows[x].id == s.rows[x].id
    && forall id :: InUse(s'.store, id) <==> InUse(s.store, id)
  }

  lemma SoloCycle(s: System, limit: nat, polls: bool, x: nat)
    requires Ordered(s.rows) && x < |s.rows| && CanStart(s.store, s.rows[x].id)
    requires s.rows[x] in FetchPending(s.rows, if polls then s.checkpoint else 0, limit)
    ensures SoloEffect(s, x, Attempted(s, limit, Solo(s, limit, polls, x)))
  {
    var plan := Solo(s, limit, polls, x);
    AttemptHasEffect(s, limit, plan);
    assert Completes(s, limit, plan, x);
    forall k: nat | Completes(s, limit, plan, k)
      ensures k == x
    {
      assert s.rows[k] in Batch(s, limit, plan);
    }
    SoloCheckpoint(s, limit, plan, x);
  }

  /** Published, or in progress, or free to start. */
  lemma FreeToStart(s: System, k: nat)
    requires Sound(s) && k < |s.rows| && !s.rows[k].published && !InUse(s.store, s.rows[k].id)
    ensures CanStart(s.store, s.rows[k].id)
  {
    UnpublishedId(s.rows, s.rows[k]);
  }

  /** The first row above `since`. */
  lemma FirstAbove(rows: seq<Entry>, since: nat, t: nat) returns (i: nat)
    requires Ordered(rows) && t < |rows| && rows[t].sequence > since
    ensures i <= t && rows[i].sequence > since && forall m :: 0 <= m < i ==> rows[m].sequence <= since
  {
    i := t;
    while i > 0 && rows[i - 1].sequence > since
      invariant i <= t && rows[i].sequence > since
    {
      i := i - 1;
    }
    forall m | 0 <= m < i
      ensures rows[m].sequence <= since
    {
      assert m < i - 1 ==> rows[m].sequence < rows[i - 1].sequence;
    }
  }

  /** Where the batch ends that starts above `since`, if it ends before t. */
  lemma BatchEnd(rows: seq<Entry>, since: nat, limit: nat, t: nat) returns (j: nat)
    requires t <= |rows| && |Pending(rows[..t], since)| >= limit
    ensures j <= t && |Pending(rows[..j], since)| == limit
  {
    j := t;
    while |Pending(rows[..j], since)| > limit
      invariant j <= t && |Pending(rows[..j], since)| >= limit
      decreases j
    {
      PendingNext(rows, since, j - 1);
      j := j - 1;
    }
  }

  /** The rows of a batch that ends before t are all in progress, or one of them can be published. */
  lemma BatchHasFreeRow(s: System, limit: nat, since: nat, t: nat) returns (x: nat)
    requires Sound(s) && t < |s.rows| && since < s.rows[t].sequence && |Pending(s.rows[..t], since)| >= limit
    requires forall i, j :: 0 <= i <= j <= t && since < s.rows[i].sequence ==> !Wall(s, limit, i, j)
    ensures x < t && s.rows[x] in FetchPending(s.rows, since, limit) && !InUse(s.store, s.rows[x].id)
  {
    var i := FirstAbove(s.rows, since, t);
    var j := BatchEnd(s.rows, since, limit, t);
    EmptyWall(s, limit, t);
    if j < i {
      NothingPending(s.rows, since, j);
    }
    x := FreeRowBetween(s, limit, since, i, j);
  }

  lemma EmptyWall(s: System, limit: nat, t: nat)
    requires t <= |s.rows|
    ensures limit == 0 ==> Wall(s, limit, t, t)
  {
  }

  lemma GapInWall(s: System, limit: nat, i: nat, j: nat) returns (x: nat)
    requires i <= j <= |s.rows| && Waiting(s.rows, i, j) >= limit && !Wall(s, limit, i, j)
    ensures i <= x < j && !s.rows[x].published && !InUse(s.store, s.rows[x].id)
  {
    x :| i <= x < j && !(s.rows[x].published || InUse(s.store, s.rows[x].id));
  }

  /** A row before the end of a full batch is in the batch. */
  lemma InBatch(rows: seq<Entry>, since: nat, limit: nat, j: nat, x: nat)
    requires Ordered(rows) && x < j <= |rows| && |Pending(rows[..j], since)| == limit
    requires !rows[x].published && rows[x].sequence > since
    ensures rows[x] in FetchPending(rows, since, limit)
  {
    PendingCountNext(rows, since, x);
    PendingPrefix(rows, since, x + 1, j);
    FetchIff(rows, since, limit, x);
  }

  /** A full batch from i to j that is no wall holds a row that can be published. */
  lemma FreeRowBetween(s: System, limit: nat, since: nat, i: nat, j: nat) returns (x: nat)
    requires Ordered(s.rows) && i <= j <= |s.rows| && |Pending(s.rows[..j], since)| == limit && !Wall(s, limit, i, j)
    requires forall m :: i <= m < j ==> s.rows[m].sequence > since
    requires forall m :: 0 <= m < i ==> s.rows[m].sequence <= since
    ensures x < j && s.rows[x] in FetchPending(s.rows, since, limit) && !InUse(s.store, s.rows[x].id)
  {
    PendingCounts(s.rows, since, i, j);
    x := GapInWall(s, limit, i, j);
    InBatch(s.rows, since, limit, j, x);
  }

  /** Publishing row x and moving up to it neither blocks row t nor brings new rows before it. */
  lemma SoloKeepsFree(s: System, limit: nat, t: nat, x: nat, s': System)
    requires Ordered(s.rows) && x < t < |s.rows| && SoloEffect(s, x, s') && !Blocked(s, limit, t)
    requires s.checkpoint < s.rows[x].sequence || s.rows[t].sequence <= s.checkpoint
    ensures !Blocked(s', limit, t)
  {
    forall i, j | 0 <= i <= j <= t
      ensures !BlockedBy(s', limit, t, i, j)
    {
      if BlockedBy(s', limit, t, i, j) {
        assert s.rows[x].sequence < s.rows[t].sequence;
        assert i <= x ==> s.rows[i].sequence <= s.rows[x].sequence;
        WallStays(s', limit, s, i, j);
        assert x < i ==> s.rows[x].sequence < s.rows[i].sequence;
        assert BlockedBy(s, limit, t, i, j);
      }
    }
  }

  function Counts(e: Entry, since: nat): nat {
    if !e.published && e.sequence > since then 1 else 0
  }

  lemma PendingCountNext(rows: seq<Entry>, since: nat, k: nat)
    requires k < |rows|
    ensures |Pending(rows[..k + 1], since)| == |Pending(rows[..k], since)| + Counts(rows[k], since)
  {
    PendingNext(rows, since, k);
  }

  /** Fewer rows are pending when row x is published and polls start at it. */
  lemma {:induction false} FewerPending(s: System, s': System, t: nat, x: nat)
    requires Ordered(s.rows) && x < |s.rows| && t <= |s.rows| && SoloEffect(s, x, s')
    requires !s.rows[x].published && s.checkpoint < s.rows[x].sequence
    ensures |Pending(s'.rows[..t], s'.checkpoint)| <= |Pending(s.rows[..t], s.checkpoint)|
    ensures x < t ==> |Pending(s'.rows[..t], s'.checkpoint)| < |Pending(s.rows[..t], s.checkpoint)|
  {
    if t > 0 {
      FewerPending(s, s', t - 1, x);
      PendingCountNext(s.rows, s.checkpoint, t - 1);
      PendingCountNext(s'.rows, s'.checkpoint, t - 1);
      assert Counts(s'.rows[t - 1], s'.checkpoint) <= Counts(s.rows[t - 1], s.checkpoint);
    }
  }

  /** The state after some more moves. */
  function After(s: System, limit: nat, moves: seq<Move>): System
    decreases |moves|
  {
    if moves == [] then s else After(Next(s, limit, moves[0]), limit, moves[1..])
  }

  lemma AfterFirst(s: System, limit: nat, a: Move, rest: seq<Move>)
    ensures After(s, limit, [a] + rest) == After(Next(s, limit, a), limit, rest)
  {
    assert ([a] + rest)[1..] == rest;
  }

  predicate Durable(moves: seq<Move>) {
    forall i :: 0 <= i < |moves| ==> !moves[i].LoseStore?
  }

  /** A row that is in reach of the checkpoint and not stuck gets published, one row at a time up to it. */
  lemma {:induction false} ReachRow(s: System, limit: nat, t: nat) returns (more: seq<Move>)
    requires Free(s, limit, t) && s.checkpoint < s.rows[t].sequence
    ensures Durable(more) && IsDone(After(s, limit, more), t)
    decreases |Pending(s.rows[..t], s.checkpoint)|
  {
    if |Pending(s.rows[..t], s.checkpoint)| < limit {
      FetchIff(s.rows, s.checkpoint, limit, t);
      FreeToStart(s, t);
      SoloCycle(s, limit, true, t);
      more := [Attempt(Solo(s, limit, true, t))];
      assert more == more + [];
      AfterFirst(s, limit, more[0], []);
    } else {
      forall i, j | 0 <= i <= j <= t && s.checkpoint < s.rows[i].sequence
        ensures !Wall(s, limit, i, j)
      {
        assert !BlockedBy(s, limit, t, i, j);
      }
      var x := BatchHasFreeRow(s, limit, s.checkpoint, t);
      more := StepTo(s, limit, true, x, t);
    }
  }

  /** Row t is unpublished and neither in progress nor blocked. */
  ghost predicate Free(s: System, limit: nat, t: nat) {
    Sound(s) && t < |s.rows| && !s.rows[t].published && !InUse(s.store, s.rows[t].id) && !Blocked(s, limit, t)
  }

  /** After publishing x, which was polled before t, row t is still free and in reach of the checkpoint. */
  lemma SoloProgress(s: System, limit: nat, polls: bool, x: nat, t: nat)
    requires Free(s, limit, t) && x < t && !InUse(s.store, s.rows[x].id)
    requires s.rows[x] in FetchPending(s.rows, if polls then s.checkpoint else 0, limit)
    requires if polls then s.checkpoint < s.rows[t].sequence else s.rows[t].sequence <= s.checkpoint
    ensures var s' := Attempted(s, limit, Solo(s, limit, polls, x));
            && Free(s', limit, t) && SoloEffect(s, x, s') && s'.checkpoint < s'.rows[t].sequence
            && !s.rows[x].published && (polls ==> s.checkpoint < s.rows[x].sequence)
  {
    FetchIff(s.rows, if polls then s.checkpoint else 0, limit, x);
    FreeToStart(s, x);
    SoloCycle(s, limit, polls, x);
    AttemptKeepsSound(s, limit, Solo(s, limit, polls, x));
    SoloKeepsFree(s, limit, t, x, Attempted(s, limit, Solo(s, limit, polls, x)));
  }

  /** One row nearer: publish x, then go on from there. */
  lemma {:induction false} StepTo(s: System, limit: nat, polls: bool, x: nat, t: nat) returns (more: seq<Move>)
    requires Free(s, limit, t) && x < t && !InUse(s.store, s.rows[x].id)
    requires s.rows[x] in FetchPending(s.rows, if polls then s.checkpoint else 0, limit)
    requires if polls then s.checkpoint < s.rows[t].sequence else s.rows[t].sequence <= s.checkpoint
    ensures Durable(more) && IsDone(After(s, limit, more), t)
    decreases if polls then |Pending(s.rows[..t], s.checkpoint)| else |s.rows| + 1, 0
  {
    var a := Attempt(Solo(s, limit, polls, x));
    var s' := Next(s, limit, a);
    SoloProgress(s, limit, polls, x, t);
    if polls {
      FewerPending(s, s', t, x);
    } else {
      PendingBound(s'.rows, s'.checkpoint, t);
    }
    var rest := ReachRow(s', limit, t);
    more := [a] + rest;
    AfterFirst(s, limit, a, rest);
  }

  lemma {:induction false} PendingBound(rows: seq<Entry>, since: nat, t: nat)
    requires t <= |rows|
    ensures |Pending(rows[..t], since)| <= t
  {
    if t > 0 {
      PendingBound(rows, since, t - 1);
      PendingNext(rows, since, t - 1);
    }
  }

  /** A row that the checkpoint has passed is reached by polls from the start. */
  lemma ReachLostRow(s: System, limit: nat, t: nat) returns (more: seq<Move>)
    requires Free(s, limit, t) && s.rows[t].sequence <= s.checkpoint
    ensures Durable(more) && IsDone(After(s, limit, more), t)
  {
    if |Pending(s.rows[..t], 0)| < limit {
      FetchIff(s.rows, 0, limit, t);
      FreeToStart(s, t);
      SoloCycle(s, limit, false, t);
      more := [Attempt(Solo(s, limit, false, t))];
      assert more == more + [];
      AfterFirst(s, limit, more[0], []);
    } else {
      forall i, j | 0 <= i <= j <= t && 0 < s.rows[i].sequence
        ensures !Wall(s, limit, i, j)
      {
        assert !BlockedBy(s, limit, t, i, j);
      }
      var x := BatchHasFreeRow(s, limit, 0, t);
      more := StepTo(s, limit, false, x, t);
    }
  }

  // --------------------------------------------------------------------- theorems

  lemma RunNext(moves: seq<Move>, limit: nat, a: Move)
    ensures RunAll(moves + [a], limit) == Next(RunAll(moves, limit), limit, a)
  {
    assert (moves + [a])[..|moves|] == moves;
  }

  lemma {:induction false} AfterRun(moves: seq<Move>, more: seq<Move>, limit: nat)
    ensures RunAll(moves + more, limit) == After(RunAll(moves, limit), limit, more)
    decreases |more|
  {
    if more == [] {
      assert moves + more == moves;
    } else {
      var a, rest := more[0], more[1..];
      assert more == [a] + rest && moves + more == moves + [a] + rest;
      RunNext(moves, limit, a);
      AfterRun(moves + [a], rest, limit);
    }
  }

  lemma {:induction false} AfterStaysStuck(s: System, limit: nat, more: seq<Move>, t: nat)
    requires Sound(s) && Stuck(s, limit, t) && Durable(more)
    ensures Stuck(After(s, limit, more), limit, t)
    decreases |more|
  {
    if more != [] {
      NextKeepsStuck(s, limit, more[0], t);
      NextKeepsSound(s, limit, more[0]);
      AfterStaysStuck(Next(s, limit, more[0]), limit, more[1..], t);
    }
  }

  lemma StuckForGood(moves: seq<Move>, more: seq<Move>, limit: nat, t: nat)
    requires Stuck(RunAll(moves, limit), limit, t) && Durable(more)
    ensures !IsDone(RunAll(moves + more, limit), t)
  {
    RunKeepsSound(moves, limit);
    AfterRun(moves, more, limit);
    AfterStaysStuck(RunAll(moves, limit), limit, more, t);
  }

  predicate IsDone(s: System, t: nat) {
    t < |s.rows| && s.rows[t].published
  }

  /**
   With a store that survives crashes, a row is published in no continuation of the run if
   and only if it is unpublished and either in progress itself, or behind `limit` rows in
   progress that fill every batch from where a poll can start.
   */
  lemma NeverPublishedIff(moves: seq<Move>, limit: nat, t: nat)
    requires t < |RunAll(moves, limit).rows|
    ensures (forall more :: Durable(more) ==> !IsDone(RunAll(moves + more, limit), t)) <==>
            Stuck(RunAll(moves, limit), limit, t)
  {
    var s := RunAll(moves, limit);
    RunKeepsSound(moves, limit);
    if Stuck(s, limit, t) {
      forall more | Durable(more)
        ensures !IsDone(RunAll(moves + more, limit), t)
      {
        StuckForGood(moves, more, limit, t);
      }
    } else if s.rows[t].published {
      assert moves + [] == moves && Durable([]);
    } else {
      var more;
      if s.checkpoint < s.rows[t].sequence {
        more := ReachRow(s, limit, t);
      } else {
        more := ReachLostRow(s, limit, t);
      }
      AfterRun(moves, more, limit);
      assert Durable(more) && IsDone(RunAll(moves + more, limit), t);
    }
  }

  /** The attempt that leaves an id in progress: it was started, and not both published and settled. */
  predicate Leaves(s: System, limit: nat, a: Move, id: string) {
    a.Attempt? && id in Opened(s, Batch(s, limit, a.plan), a.plan) && (id in a.plan.silent || id !in a.plan.settles)
  }

  predicate Abandoned(moves: seq<Move>, limit: nat, id: string) {
    moves != [] &&
    (var n := |moves| - 1;
     || (Abandoned(moves[..n], limit, id) && !moves[n].LoseStore?)
     || Leaves(RunAll(moves[..n], limit), limit, moves[n], id))
  }

  /** An id is in progress between cycles if and only if some attempt left it so and the store was kept since. */
  lemma {:induction false} InUseIffAbandoned(moves: seq<Move>, limit: nat, id: string)
    ensures InUse(RunAll(moves, limit).store, id) <==> Abandoned(moves, limit, id)
  {
    if moves != [] {
      var n := |moves| - 1;
      var s := RunAll(moves[..n], limit);
      InUseIffAbandoned(moves[..n], limit, id);
      if moves[n].Attempt? {
        SettledMeaning(s, Batch(s, limit, moves[n].plan), moves[n].plan, id);
      }
    }
  }

  // -------------------------------------------------------------------- exactly once

  ghost predicate ExactlyOnce(s: System) {
    Once(s.bus, PublishedIds(s.rows))
  }

  ghost predicate AtLeastOnce(s: System) {
    forall id :: id in PublishedIds(s.rows) ==> id in s.bus
  }

  /** Everything the bus took in this step was mirrored and marked before the worker was cut off. */
  predicate Clean(s: System, limit: nat, a: Move) {
    a.Attempt? ==>
      forall id :: id in Sent(s, Batch(s, limit, a.plan), a.plan) ==> a.plan.marks && id in a.plan.mirrored
  }

  lemma SentIsNew(s: System, limit: nat, plan: Plan)
    requires Ordered(s.rows)
    ensures NoRepeats(Sent(s, Batch(s, limit, plan), plan))
    ensures forall id :: id in Sent(s, Batch(s, limit, plan), plan) ==> id !in PublishedIds(s.rows)
  {
    var f := Batch(s, limit, plan);
    PendingAscending(s.rows, From(s, plan));
    forall i, j | 0 <= i < j < |f|
      ensures f[i].id != f[j].id
    {
      var a := BatchRow(s, limit, plan, f[i]);
      var b := BatchRow(s, limit, plan, f[j]);
    }
    SelectNoRepeats(Ids(f), Opened(s, f, plan) - plan.silent);
    SelectNoRepeats(Held(s, f, plan), plan.reaches);
    forall id | id in Sent(s, f, plan)
      ensures id !in PublishedIds(s.rows)
    {
      HeldMeaning(s, f, plan, id);
      var e :| e in f && e.id == id;
      var k := BatchRow(s, limit, plan, e);
      UnpublishedId(s.rows, e);
    }
  }

  lemma NextSends(s: System, limit: nat, a: Move)
    requires Ordered(s.rows) && AtLeastOnce(s)
    ensures AtLeastOnce(Next(s, limit, a))
    ensures ExactlyOnce(Next(s, limit, a)) <==> ExactlyOnce(s) && Clean(s, limit, a)
  {
    match a
    case Insert(id, gap) => InsertPublishes(s, limit, id, gap);
    case LoseStore =>
    case Attempt(plan) =>
      var f := Batch(s, limit, plan);
      var done := set id | id in Done(s, f, plan);
      SentIsNew(s, limit, plan);
      AttemptPublishes(s, limit, plan);
      forall id
        ensures id in done <==> id in Sent(s, f, plan) && id in plan.mirrored && plan.marks
      {
        HeldMeaning(s, f, plan, id);
      }
      OnceStep(s.bus, PublishedIds(s.rows), Sent(s, f, plan), done);
  }

  predicate CleanRun(moves: seq<Move>, limit: nat) {
    moves == [] ||
    (var n := |moves| - 1; CleanRun(moves[..n], limit) && Clean(RunAll(moves[..n], limit), limit, moves[n]))
  }

  /**
   Over every run with cut-offs: every published row went out, and the bus holds exactly
   the published ids, each once, if and only if no attempt was cut off or failed between
   sending an id and marking it.
   */
  lemma {:induction false} SentExactlyOnceIff(moves: seq<Move>, limit: nat)
    ensures AtLeastOnce(RunAll(moves, limit))
    ensures ExactlyOnce(RunAll(moves, limit)) <==> CleanRun(moves, limit)
  {
    if moves != [] {
      var n := |moves| - 1;
      SentExactlyOnceIff(moves[..n], limit);
      RunKeepsSound(moves[..n], limit);
      NextSends(RunAll(moves[..n], limit), limit, moves[n]);
    }
  }

  // ------------------------------------------------------- a cycle that is not cut off

  lemma {:induction false} SelectAll(ids: seq<string>, wanted: set<string>)
    requires forall id :: id in ids ==> id in wanted
    ensures Select(ids, wanted) == ids
  {
    if ids != [] {
      SelectAll(ids[..|ids| - 1], wanted);
    }
  }

  /** What takes effect in an undisturbed cycle in this weather. */
  function Undisturbed(s: State, w: Weather): Plan {
    var ids := set e | e in Fetched(s, w) :: e.id;
    Plan(w.polls, {}, {}, w.reaches, w.mirrored, w.marks, ids, if w.acks then ids else {},
         if w.writes.Refused? then {} else ids)
  }

  lemma {:induction false} AdvancedIsAcknowledged(checkpoint: nat, entries: seq<Entry>, done: seq<string>,
                                                  plan: Plan, acks: bool, refused: bool)
    requires forall i :: 0 <= i < |entries| ==> (entries[i].id in plan.ackReads <==> acks)
    requires forall i :: 0 <= i < |entries| ==> (entries[i].id in plan.writes <==> !refused)
    ensures Advanced(checkpoint, entries, done, plan) ==
            OrElse(if refused then None else Acknowledge(checkpoint, entries, done, acks), checkpoint)
  {
    if entries != [] {
      AdvancedIsAcknowledged(checkpoint, entries[..|entries| - 1], done, plan, acks, refused);
    }
  }

  lemma AllHeld(s: State, w: Weather, t: System)
    requires Relay.Inv(s) && t == System(s.rows, s.checkpoint, s.store, s.bus)
    ensures Held(t, Fetched(s, w), Undisturbed(s, w)) == Ids(Fetched(s, w))
  {
    var f := Fetched(s, w);
    FetchFacts(s, w);
    forall id | id in Ids(f)
      ensures id in Opened(t, f, Undisturbed(s, w))
    {
      var i :| 0 <= i < |Ids(f)| && Ids(f)[i] == id;
      assert f[i] in f && f[i].id == id;
    }
    SelectAll(Ids(f), Opened(t, f, Undisturbed(s, w)) - {});
  }

  /** An attempt in which nothing is cut off is the relay cycle: same rows, same checkpoint, same bus. */
  lemma UndisturbedIsCycle(s: State, w: Weather)
    requires Relay.Inv(s)
    ensures var t := Attempted(System(s.rows, s.checkpoint, s.store, s.bus), w.limit, Undisturbed(s, w));
            t.rows == Cycle(s, w).rows && t.checkpoint == Cycle(s, w).checkpoint && t.bus == Cycle(s, w).bus
  {
    var t, plan, f := System(s.rows, s.checkpoint, s.store, s.bus), Undisturbed(s, w), Fetched(s, w);
    AllHeld(s, w, t);
    CycleEffects(s, w);
    assert Batch(t, w.limit, plan) == f && Done(t, f, plan) == Completions(s, w);
    AdvancedIsAcknowledged(s.checkpoint, f, Completions(s, w), plan, w.acks, w.writes.Refused?);
  }

  // -------------------------------------------------------------------- example

  /** A cycle that is cut off when it has started its batch. */
  function CutOff(): Plan {
    Plan(true, {}, {}, {}, {}, false, {}, {}, {})
  }

  /** Without a mark neither rows nor checkpoint change. */
  lemma UnmarkedChangesNothing(s: System, limit: nat, plan: Plan, s': System)
    requires Effect(s, limit, plan, s') && !plan.marks
    ensures s'.rows == s.rows && s'.checkpoint == s.checkpoint
  {
  }

  lemma FirstRowIsPolled(s: System, limit: nat, e: Entry)
    requires s.rows == [e] && !e.published && s.checkpoint < e.sequence && limit >= 1
    ensures e in Batch(s, limit, CutOff())
  {
    assert s.rows[..0] == [] && s.rows[0] == e;
    FetchIff(s.rows, s.checkpoint, limit, 0);
  }

  lemma StartedAndLeft(s: System, limit: nat, plan: Plan, s': System, e: Entry)
    requires Effect(s, limit, plan, s') && e in Batch(s, limit, plan) && CanStart(s.store, e.id)
    requires e.id !in plan.refuses && e.id !in plan.settles
    ensures InUse(s'.store, e.id)
  {
    assert e.id in Opened(s, Batch(s, limit, plan), plan);
  }

  lemma CutOffLeaves(s: System, limit: nat, s': System)
    requires s == START.(rows := [Entry(1, "a", false)]) && limit >= 1 && Effect(s, limit, CutOff(), s')
    ensures s'.rows == s.rows && s'.checkpoint == 0 && InUse(s'.store, "a")
  {
    UnmarkedChangesNothing(s, limit, CutOff(), s');
    FirstRowIsPolled(s, limit, Entry(1, "a", false));
    StartedAndLeft(s, limit, CutOff(), s', Entry(1, "a", false));
  }

  /** An event, and a cycle that is cut off when it has started it. */
  function Crashed(): seq<Move> {
    [Insert("a", 0)] + [Attempt(CutOff())]
  }

  lemma AfterInsert(limit: nat)
    ensures RunAll([Insert("a", 0)], limit) == START.(rows := [Entry(1, "a", false)])
  {
    RunNext([], limit, Insert("a", 0));
    assert [] + [Insert("a", 0)] == [Insert("a", 0)];
  }

  lemma AfterCrash(limit: nat)
    requires limit >= 1
    ensures var s := RunAll(Crashed(), limit);
            s.rows == [Entry(1, "a", false)] && s.checkpoint == 0 && InUse(s.store, "a") && !InUse(s.store, "b")
  {
    var s := START.(rows := [Entry(1, "a", false)]);
    AfterInsert(limit);
    RunNext([Insert("a", 0)], limit, Attempt(CutOff()));
    AttemptHasEffect(s, limit, CutOff());
    CutOffLeaves(s, limit, Attempted(s, limit, CutOff()));
    OnlyAIsInUse(s, limit, Attempted(s, limit, CutOff()));
  }

  /** One crash between start and settle, and the event is never sent again. */
  lemma CrashStrands(limit: nat, more: seq<Move>)
    requires limit >= 1 && Durable(more)
    ensures !IsDone(RunAll(Crashed() + more, limit), 0)
  {
    AfterCrash(limit);
    assert Stuck(RunAll(Crashed(), limit), limit, 0);
    StuckForGood(Crashed(), more, limit, 0);
  }

  lemma BehindOne(s: System)
    requires s.rows == [Entry(1, "a", false), Entry(2, "b", false)] && s.checkpoint == 0 && InUse(s.store, "a")
    ensures Stuck(s, 1, 1)
  {
    assert Waiting(s.rows, 0, 0) == 0 && Waiting(s.rows, 0, 1) == 1;
    assert Wall(s, 1, 0, 1);
    assert BlockedBy(s, 1, 1, 0, 1);
  }

  /**
   With batches of one, the same crash stops the relay for good: the event that comes
   next is never published although nothing ever happened to it.
   */
  lemma CrashBlocks(more: seq<Move>)
    requires Durable(more)
    ensures !IsDone(RunAll(Crashed() + [Insert("b", 0)] + more, 1), 1)
    ensures !Abandoned(Crashed() + [Insert("b", 0)], 1, "b")
  {
    AfterCrash(1);
    RunNext(Crashed(), 1, Insert("b", 0));
    var moves := Crashed() + [Insert("b", 0)];
    assert RunAll(moves, 1).rows == [Entry(1, "a", false), Entry(2, "b", false)];
    BehindOne(RunAll(moves, 1));
    StuckForGood(moves, more, 1, 1);
    InUseIffAbandoned(moves, 1, "b");
  }

  lemma OnlyAIsInUse(s: System, limit: nat, s': System)
    requires s == START.(rows := [Entry(1, "a", false)]) && Effect(s, limit, CutOff(), s')
    ensures !InUse(s'.store, "b")
  {
    forall e | e in Batch(s, limit, CutOff())
      ensures e.id == "a"
    {
      var k := BatchRow(s, limit, CutOff(), e);
    }
  }
}
