/**
 Any number of SurrealDB commits interleaved statement by statement. No transaction
 holds the statements of a commit together, so between its version check and its
 write another commit may write the same counter.

 `written` lists the counters in the order they were written, and `at` in a stage is its
 length when the commit read the version; no step reads them.
 */
module SurrealInterleaving {
  import opened Options
  import opened MapSums
  import opened CounterDomain
  import opened EventLog
  import opened CounterRepository
  import opened SurrealRepository

  /** The statement a commit executes next. `Rereading` and `Creating` are those of `upsert`. */
  datatype Stage =
    | LookingUp
    | Loading
    | Updating(at: nat)
    | Rereading(at: nat)
    | Creating(at: nat)
    | Appending
    | Completing
    | Returned(outcome: Outcome)

  datatype Commit = Commit(mutation: Mutation, key: Option<string>, stage: Stage)

  datatype State = State(tables: STables, commits: map<nat, Commit>, written: seq<CounterId>)

  const INITIAL := State(EMPTY_STABLES, map[], [])

  /** A commit is begun with any snapshot, however stale. */
  datatype Action =
    | Begin(c: nat, id: CounterId, operation: Operation, snapshot: Counter, key: Option<string>)
    | Advance(c: nat)

  function CurrentVersion(s: State, id: CounterId): int {
    OrNew(First(s.tables.counters, id)).version
  }

  function SetStage(s: State, c: nat, stage: Stage): State
    requires c in s.commits
  {
    s.(commits := s.commits[c := s.commits[c].(stage := stage)])
  }

  function LookUpStep(s: State, c: nat): State
    requires c in s.commits
  {
    var m, key := s.commits[c].mutation, s.commits[c].key;
    var replay := if key.None? then None
                  else SLoadOutcome(s.tables, (m.id, key.value), RequestHash(m.id, m.operation));
    SetStage(s, c, if replay.Some? then Returned(replay.value) else Loading)
  }

  /** The version check; an absent row counts as version 0 and leads to `upsert`. */
  function LoadStep(s: State, c: nat): State
    requires c in s.commits
  {
    var m := s.commits[c].mutation;
    SetStage(s, c,
             if CurrentVersion(s, m.id) != m.newVersion - 1 then Returned(CasConflict)
             else if First(s.tables.counters, m.id).Some? then Updating(|s.written|)
             else Rereading(|s.written|))
  }

  function UpdateStep(s: State, c: nat): State
    requires c in s.commits
  {
    var m := s.commits[c].mutation;
    SetStage(s, c, Appending)
      .(tables := s.tables.(counters := UpdateAll(s.tables.counters, m.id, Counter(m.newValue, m.newVersion))),
        written := s.written + [m.id])
  }

  function CreateStep(s: State, c: nat): State
    requires c in s.commits
  {
    var m := s.commits[c].mutation;
    SetStage(s, c, Appending)
      .(tables := s.tables.(counters := s.tables.counters + [(m.id, Counter(m.newValue, m.newVersion))]),
        written := s.written + [m.id])
  }

  function AppendStep(s: State, c: nat): State
    requires c in s.commits
  {
    var m, key := s.commits[c].mutation, s.commits[c].key;
    SetStage(s, c, if key.Some? then Completing else Returned(Committed(m.newValue, m.newVersion)))
      .(tables := s.tables.(outbox := s.tables.outbox + [NextRow(s.tables.outbox, m.event)]))
  }

  function CompleteStep(s: State, c: nat): State
    requires c in s.commits
  {
    var m, key := s.commits[c].mutation, s.commits[c].key;
    var row := KeyRow(RequestHash(m.id, m.operation), Completed, Some(m.newValue), Some(m.newVersion));
    SetStage(s, c, Returned(Committed(m.newValue, m.newVersion)))
      .(tables := if key.None? then s.tables else s.tables.(keys := s.tables.keys + [((m.id, key.value), row)]))
  }

  function Step(s: State, a: Action): State {
    match a
    case Begin(c, id, op, snapshot, key) =>
      if c in s.commits then s
      else s.(commits := s.commits[c := Commit(BuildMutation(id, op, snapshot), key, LookingUp)])
    case Advance(c) =>
      if c !in s.commits then s
      else
        match s.commits[c].stage
        case LookingUp => LookUpStep(s, c)
        case Loading => LoadStep(s, c)
        case Updating(_) => UpdateStep(s, c)
        case Rereading(at) =>
          var found := First(s.tables.counters, s.commits[c].mutation.id).Some?;
          SetStage(s, c, if found then Updating(at) else Creating(at))
        case Creating(_) => CreateStep(s, c)
        case Appending => AppendStep(s, c)
        case Completing => CompleteStep(s, c)
        case Returned(_) => s
  }

  function Run(actions: seq<Action>): State {
    if actions == [] then INITIAL else Step(Run(actions[..|actions| - 1]), actions[|actions| - 1])
  }

  // --------------------------------------------------------------------- overlap

  function WritesTo(written: seq<CounterId>, id: CounterId): nat {
    if written == [] then 0
    else WritesTo(written[..|written| - 1], id) + (if written[|written| - 1] == id then 1 else 0)
  }

  /** This step writes counter id although another write came after the version check. */
  predicate WritesOver(s: State, a: Action, id: CounterId) {
    && a.Advance? && a.c in s.commits && s.commits[a.c].mutation.id == id
    && (s.commits[a.c].stage.Updating? || s.commits[a.c].stage.Creating?)
    && s.commits[a.c].stage.at <= |s.written| && id in s.written[s.commits[a.c].stage.at..]
  }

  predicate Overlapped(actions: seq<Action>, id: CounterId) {
    actions != [] &&
    (var n := |actions| - 1;
     Overlapped(actions[..n], id) || WritesOver(Run(actions[..n]), actions[n], id))
  }

  lemma WritesToAppend(written: seq<CounterId>, x: CounterId, id: CounterId)
    ensures WritesTo(written + [x], id) == WritesTo(written, id) + (if x == id then 1 else 0)
  {
    assert (written + [x])[..|written|] == written;
  }

  lemma {:induction false} WritesSince(written: seq<CounterId>, id: CounterId, at: nat)
    requires at <= |written|
    ensures WritesTo(written[..at], id) <= WritesTo(written, id)
    ensures WritesTo(written[..at], id) == WritesTo(written, id) <==> id !in written[at..]
  {
    if at < |written| {
      var n := |written| - 1;
      WritesSince(written[..n], id, at);
      assert written[..n][..at] == written[..at];
      assert written[at..] == written[..n][at..] + [written[n]];
    } else {
      assert written[..at] == written;
    }
  }

  // ------------------------------------------------------------------- invariant

  /** What a commit between its version check and its write knows. */
  ghost predicate CheckedInv(s: State, m: Mutation, at: nat) {
    && at <= |s.written|
    && m.newVersion - 1 <= WritesTo(s.written[..at], m.id)
    && (m.id !in s.written[at..] ==> CurrentVersion(s, m.id) == m.newVersion - 1)
  }

  predicate HasRow(s: State, id: CounterId) {
    First(s.tables.counters, id).Some?
  }

  ghost predicate CommitInv(s: State, c: nat)
    requires c in s.commits
  {
    var m := s.commits[c].mutation;
    && m.event.tenantId == m.id
    && match s.commits[c].stage
       case Updating(at) => CheckedInv(s, m, at) && HasRow(s, m.id)
       case Rereading(at) => CheckedInv(s, m, at) && (m.id !in s.written[at..] ==> !HasRow(s, m.id))
       case Creating(at) => CheckedInv(s, m, at) && (m.id !in s.written[at..] ==> !HasRow(s, m.id))
       case _ => true
  }

  /** The number of writes of counter id whose event has not been appended yet. */
  function Unannounced(id: CounterId): Commit -> nat {
    (c: Commit) => if c.mutation.id == id && c.stage.Appending? then 1 else 0
  }

  ghost predicate CounterInv(s: State, id: CounterId) {
    && CurrentVersion(s, id) <= WritesTo(s.written, id)
    && WritesTo(s.written, id) == CountOf(s.tables.outbox, id) + Sum(s.commits, Unannounced(id))
  }

  ghost predicate Inv(s: State) {
    && (forall c :: c in s.commits ==> CommitInv(s, c))
    && (forall id: CounterId :: CounterInv(s, id))
  }

  // ------------------------------------------------- steps that write no counter

  /** A step that leaves counters, outbox and unannounced writes alone concerns only its own commit. */
  lemma QuietStepKeepsInv(s: State, s': State, c: nat)
    requires Inv(s) && c in s'.commits && s'.commits == s.commits[c := s'.commits[c]]
    requires s'.tables.counters == s.tables.counters && s'.tables.outbox == s.tables.outbox && s'.written == s.written
    requires CommitInv(s', c) && !s'.commits[c].stage.Appending?
    requires c in s.commits ==> !s.commits[c].stage.Appending?
    ensures Inv(s')
  {
    forall d | d in s'.commits
      ensures CommitInv(s', d)
    {
      assert d != c ==> CommitInv(s, d);
    }
    forall id: CounterId
      ensures CounterInv(s', id)
    {
      assert CounterInv(s, id);
      SumInsert(s.commits, c, s'.commits[c], Unannounced(id));
    }
  }

  lemma LoadKeepsInv(s: State, c: nat)
    requires Inv(s) && c in s.commits && s.commits[c].stage.Loading?
    ensures Inv(LoadStep(s, c))
  {
    var m := s.commits[c].mutation;
    assert CommitInv(s, c) && CounterInv(s, m.id);
    assert s.written[..|s.written|] == s.written && s.written[|s.written|..] == [];
    QuietStepKeepsInv(s, LoadStep(s, c), c);
  }

  lemma AppendKeepsInv(s: State, c: nat)
    requires Inv(s) && c in s.commits && s.commits[c].stage.Appending?
    ensures Inv(AppendStep(s, c))
  {
    var s', m := AppendStep(s, c), s.commits[c].mutation;
    assert CommitInv(s, c);
    forall d | d in s'.commits
      ensures CommitInv(s', d)
    {
      assert CommitInv(s, d);
    }
    forall id: CounterId
      ensures CounterInv(s', id)
    {
      assert CounterInv(s, id);
      SumInsert(s.commits, c, s'.commits[c], Unannounced(id));
      assert s'.tables.outbox[..|s.tables.outbox|] == s.tables.outbox;
    }
  }

  // -------------------------------------------------------------------- the write

  /** What a write does to the rows as a reader sees them. */
  lemma WriteShows(s: State, c: nat, id: CounterId)
    requires c in s.commits && CommitInv(s, c)
    requires s.commits[c].stage.Updating? || s.commits[c].stage.Creating?
    ensures var m := s.commits[c].mutation;
            var s' := Step(s, Advance(c));
            && (id != m.id ==> First(s'.tables.counters, id) == First(s.tables.counters, id))
            && HasRow(s', m.id)
            && (CurrentVersion(s', m.id) == m.newVersion ||
                (HasRow(s, m.id) && CurrentVersion(s', m.id) == CurrentVersion(s, m.id)
                 && s.commits[c].stage.Creating?))
            && (s.commits[c].stage.Updating? || !HasRow(s, m.id) ==> CurrentVersion(s', m.id) == m.newVersion)
  {
    var m := s.commits[c].mutation;
    FirstAfterUpdate(s.tables.counters, m.id, Counter(m.newValue, m.newVersion), id);
    FirstAfterUpdate(s.tables.counters, m.id, Counter(m.newValue, m.newVersion), m.id);
    FirstAfterCreate(s.tables.counters, m.id, Counter(m.newValue, m.newVersion), id);
    FirstAfterCreate(s.tables.counters, m.id, Counter(m.newValue, m.newVersion), m.id);
  }

  /** The heart of it: a write over another one leaves the version behind, any other write keeps the distance. */
  lemma WriteMovesVersion(s: State, c: nat)
    requires c in s.commits && CommitInv(s, c) && CounterInv(s, s.commits[c].mutation.id)
    requires s.commits[c].stage.Updating? || s.commits[c].stage.Creating?
    ensures var id := s.commits[c].mutation.id;
            var s' := Step(s, Advance(c));
            && WritesTo(s'.written, id) == WritesTo(s.written, id) + 1
            && if WritesOver(s, Advance(c), id) then CurrentVersion(s', id) <= WritesTo(s.written, id)
               else CurrentVersion(s', id) == CurrentVersion(s, id) + 1
  {
    var m, at := s.commits[c].mutation, s.commits[c].stage.at;
    WritesToAppend(s.written, m.id, m.id);
    WritesSince(s.written, m.id, at);
    WriteShows(s, c, m.id);
  }

  lemma OthersSurviveWrite(s: State, c: nat, d: nat)
    requires c in s.commits && d in s.commits && d != c && CommitInv(s, c) && CommitInv(s, d)
    requires s.commits[c].stage.Updating? || s.commits[c].stage.Creating?
    ensures CommitInv(Step(s, Advance(c)), d)
  {
    var s' := Step(s, Advance(c));
    var x, m := s.commits[c].mutation.id, s.commits[d].mutation;
    WriteShows(s, c, m.id);
    var stage := s.commits[d].stage;
    if stage.Updating? || stage.Rereading? || stage.Creating? {
      assert s'.written[..stage.at] == s.written[..stage.at];
      assert s'.written[stage.at..] == s.written[stage.at..] + [x];
    }
  }

  lemma WriteKeepsInv(s: State, c: nat)
    requires Inv(s) && c in s.commits && (s.commits[c].stage.Updating? || s.commits[c].stage.Creating?)
    ensures Inv(Step(s, Advance(c)))
  {
    var s', m := Step(s, Advance(c)), s.commits[c].mutation;
    assert CommitInv(s, c);
    forall d | d in s'.commits
      ensures CommitInv(s', d)
    {
      if d != c {
        assert CommitInv(s, d);
        OthersSurviveWrite(s, c, d);
      }
    }
    forall id: CounterId
      ensures CounterInv(s', id)
    {
      assert CounterInv(s, id) && CounterInv(s, m.id);
      WriteMovesVersion(s, c);
      WriteShows(s, c, id);
      WritesToAppend(s.written, m.id, id);
      SumInsert(s.commits, c, s'.commits[c], Unannounced(id));
    }
  }

  lemma StepKeepsInv(s: State, a: Action)
    requires Inv(s)
    ensures Inv(Step(s, a))
  {
    match a
    case Begin(c, _, _, _, _) => if c !in s.commits { QuietStepKeepsInv(s, Step(s, a), c); }
    case Advance(c) =>
      if c in s.commits {
        assert CommitInv(s, c);
        match s.commits[c].stage
        case LookingUp => QuietStepKeepsInv(s, Step(s, a), c);
        case Loading => LoadKeepsInv(s, c);
        case Updating(_) => WriteKeepsInv(s, c);
        case Rereading(_) => QuietStepKeepsInv(s, Step(s, a), c);
        case Creating(_) => WriteKeepsInv(s, c);
        case Appending => AppendKeepsInv(s, c);
        case Completing => QuietStepKeepsInv(s, Step(s, a), c);
        case Returned(_) =>
      }
  }

  lemma {:induction false} RunKeepsInv(actions: seq<Action>)
    ensures Inv(Run(actions))
  {
    if actions == [] {
      forall id: CounterId ensures CounterInv(INITIAL, id) { }
    } else {
      RunKeepsInv(actions[..|actions| - 1]);
      StepKeepsInv(Run(actions[..|actions| - 1]), actions[|actions| - 1]);
    }
  }

  // ------------------------------------------------------------------- the result

  /** The distance between writes and version changes only by a write over another one, and never closes. */
  lemma StepMovesVersion(s: State, a: Action, id: CounterId)
    requires Inv(s)
    ensures var s' := Step(s, a);
            CurrentVersion(s', id) == WritesTo(s'.written, id) <==>
            CurrentVersion(s, id) == WritesTo(s.written, id) && !WritesOver(s, a, id)
  {
    assert CounterInv(s, id);
    if a.Advance? && a.c in s.commits && (s.commits[a.c].stage.Updating? || s.commits[a.c].stage.Creating?) {
      var x := s.commits[a.c].mutation.id;
      assert CommitInv(s, a.c) && CounterInv(s, x);
      WriteMovesVersion(s, a.c);
      WriteShows(s, a.c, id);
      WritesToAppend(s.written, x, id);
    }
  }

  lemma {:induction false} VersionCountsWritesIff(actions: seq<Action>, id: CounterId)
    ensures CurrentVersion(Run(actions), id) == WritesTo(Run(actions).written, id) <==> !Overlapped(actions, id)
  {
    if actions != [] {
      var n := |actions| - 1;
      VersionCountsWritesIff(actions[..n], id);
      RunKeepsInv(actions[..n]);
      StepMovesVersion(Run(actions[..n]), actions[n], id);
    }
  }

  /**
   Over every interleaving of commits, wherever each of them stands or stopped: the stored
   version equals the number of events announced or still to be announced if and only if
   no commit ever wrote the counter between the version check and the write of another.
   Otherwise it stays behind for good.
   */
  lemma VersionIsEventCountIff(actions: seq<Action>, id: CounterId)
    ensures var s := Run(actions);
            var events := CountOf(s.tables.outbox, id) + Sum(s.commits, Unannounced(id));
            CurrentVersion(s, id) <= events && (CurrentVersion(s, id) == events <==> !Overlapped(actions, id))
    ensures (forall c :: c in Run(actions).commits ==> Unannounced(id)(Run(actions).commits[c]) == 0) ==>
              (CurrentVersion(Run(actions), id) == CountOf(Run(actions).tables.outbox, id)
               <==> !Overlapped(actions, id))
  {
    RunKeepsInv(actions);
    assert CounterInv(Run(actions), id);
    VersionCountsWritesIff(actions, id);
    if forall c :: c in Run(actions).commits ==> Unannounced(id)(Run(actions).commits[c]) == 0 {
      SumZero(Run(actions).commits, Unannounced(id));
    }
  }

  // -------------------------------------------------------- one commit undisturbed

  function Rank(stage: Stage): nat {
    match stage
    case LookingUp => 6
    case Loading => 5
    case Rereading(_) => 4
    case Updating(_) => 3
    case Creating(_) => 3
    case Appending => 2
    case Completing => 1
    case Returned(_) => 0
  }

  /** The remaining statements of one commit, with nothing in between. */
  function Finish(s: State, c: nat): (s': State)
    requires c in s.commits
    ensures c in s'.commits && s'.commits[c].stage.Returned?
    decreases Rank(s.commits[c].stage)
  {
    if s.commits[c].stage.Returned? then s else Finish(Step(s, Advance(c)), c)
  }

  /** Tables and outcome when the commit has finished. */
  function ResultOf(s: State, c: nat): (STables, Outcome)
    requires c in s.commits
  {
    (Finish(s, c).tables, Finish(s, c).commits[c].stage.outcome)
  }

  function WithKey(t: STables, m: Mutation, key: Option<string>): STables {
    if key.None? then t
    else t.(keys := t.keys + [((m.id, key.value),
              KeyRow(RequestHash(m.id, m.operation), Completed, Some(m.newValue), Some(m.newVersion)))])
  }

  lemma AppendingEnds(s: State, c: nat)
    requires c in s.commits && s.commits[c].stage.Appending?
    ensures var m := s.commits[c].mutation;
            ResultOf(s, c) ==
            (WithKey(s.tables.(outbox := s.tables.outbox + [NextRow(s.tables.outbox, m.event)]), m, s.commits[c].key),
             Committed(m.newValue, m.newVersion))
  {
    var s1 := AppendStep(s, c);
    assert Finish(s, c) == Finish(s1, c);
    if s1.commits[c].stage.Completing? {
      assert Finish(s1, c) == Finish(CompleteStep(s1, c), c);
    }
  }

  lemma CheckedEnds(s: State, c: nat)
    requires c in s.commits
    requires s.commits[c].stage.Rereading? || (s.commits[c].stage.Updating? && HasRow(s, s.commits[c].mutation.id))
    ensures var m := s.commits[c].mutation;
            ResultOf(s, c) == (WritePhase(s.tables, m, s.commits[c].key), Committed(m.newValue, m.newVersion))
    decreases Rank(s.commits[c].stage)
  {
    var m := s.commits[c].mutation;
    var s1 := Step(s, Advance(c));
    assert Finish(s, c) == Finish(s1, c);
    if s1.commits[c].stage.Creating? {
      assert Finish(s1, c) == Finish(CreateStep(s1, c), c);
      AppendingEnds(CreateStep(s1, c), c);
    } else if s1.commits[c].stage.Updating? {
      CheckedEnds(s1, c);
    } else {
      AppendingEnds(s1, c);
    }
  }

  /** A commit whose statements nothing interrupts is the atomic commit. */
  lemma UndisturbedIsAtomic(s: State, c: nat)
    requires c in s.commits && s.commits[c].stage.LookingUp?
    ensures ResultOf(s, c) == SCommit(s.tables, s.commits[c].mutation, s.commits[c].key)
  {
    var s1 := LookUpStep(s, c);
    assert Finish(s, c) == Finish(s1, c);
    if s1.commits[c].stage.Loading? {
      var s2 := LoadStep(s1, c);
      assert Finish(s1, c) == Finish(s2, c);
      if !s2.commits[c].stage.Returned? {
        CheckedEnds(s2, c);
      }
    }
  }

  // ----------------------------------------------------------------------- example

  /** Commits 0 and 1 of the same mutation at the same stage. */
  function Both(t: STables, m: Mutation, stage: Stage, written: seq<CounterId>): State {
    State(t, map[0 := Commit(m, None, stage), 1 := Commit(m, None, stage)], written)
  }

  lemma RunAppend(actions: seq<Action>, a: Action)
    ensures Run(actions + [a]) == Step(Run(actions), a)
  {
    assert (actions + [a])[..|actions|] == actions;
  }

  lemma BothAdvance(actions: seq<Action>)
    ensures Run(actions + [Advance(0)] + [Advance(1)]) == Step(Step(Run(actions), Advance(0)), Advance(1))
  {
    RunAppend(actions, Advance(0));
    RunAppend(actions + [Advance(0)], Advance(1));
  }

  lemma BothCheck(id: CounterId) returns (actions: seq<Action>)
    ensures Run(actions) == Both(EMPTY_STABLES, BuildMutation(id, Increment, NEW_COUNTER), Rereading(0), [])
  {
    var b0, b1 := Begin(0, id, Increment, NEW_COUNTER, None), Begin(1, id, Increment, NEW_COUNTER, None);
    var m := BuildMutation(id, Increment, NEW_COUNTER);
    RunAppend([], b0);
    RunAppend([] + [b0], b1);
    actions := [] + [b0] + [b1];
    assert Run(actions) == Both(EMPTY_STABLES, m, LookingUp, []);
    BothAdvance(actions);
    actions := actions + [Advance(0)] + [Advance(1)];
    assert Run(actions) == Both(EMPTY_STABLES, m, Loading, []);
    BothAdvance(actions);
    actions := actions + [Advance(0)] + [Advance(1)];
  }

  /** Two overlapping increments of a new counter both succeed: two events, one of them lost from the row. */
  lemma OverlapHappens(id: CounterId) returns (actions: seq<Action>)
    ensures var s := Run(actions);
            && s.commits.Keys == {0, 1}
            && s.commits[0].stage == Returned(Committed(1, 1)) && s.commits[1].stage == Returned(Committed(1, 1))
            && First(s.tables.counters, id) == Some(Counter(1, 1))
            && |s.tables.outbox| == 2
  {
    var m := BuildMutation(id, Increment, NEW_COUNTER);
    actions := BothCheck(id);
    BothAdvance(actions);
    actions := actions + [Advance(0)] + [Advance(1)];
    assert Run(actions) == Both(EMPTY_STABLES, m, Creating(0), []);
    BothAdvance(actions);
    actions := actions + [Advance(0)] + [Advance(1)];
    var rows := [(id, Counter(1, 1)), (id, Counter(1, 1))];
    assert Run(actions) == Both(STables(rows, [], []), m, Appending, [id, id]);
    BothAdvance(actions);
    actions := actions + [Advance(0)] + [Advance(1)];
  }
}
