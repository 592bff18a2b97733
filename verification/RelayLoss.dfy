/**
 When the relay loses an event: the checkpoint passes a row that is not published, and
 polls start behind it. The proofs speak of rows and never unfold a cycle.
 */
module RelayLoss {
  import opened Options
  import opened Relay
  import opened RelayGuarantees

  /** Row k is behind the checkpoint and not published: polls that read the checkpoint do not see it. */
  predicate Lost(s: State, k: nat) {
    k < |s.rows| && s.rows[k].sequence <= s.checkpoint && !s.rows[k].published
  }

  predicate NoLoss(s: State) {
    forall k: nat :: !(k < |s.rows| && Lost(s, k))
  }

  // ------------------------------------------------------------------- one cycle

  /** A later row is completed and the checkpoint written. */
  predicate Overtakes(s: State, w: Weather, k: nat) {
    !w.writes.Refused? && exists j: nat :: k < j < |s.rows| && Completes(s, w, j)
  }

  /** The checkpoint cannot be read when it is written, and every completed row comes before k. */
  predicate Rewinds(s: State, w: Weather, k: nat) {
    && !w.writes.Refused? && !w.acks
    && (exists j: nat :: j < |s.rows| && Completes(s, w, j))
    && (forall j: nat :: j < |s.rows| && Completes(s, w, j) ==> j < k)
  }

  /** Loss in terms of the rows a cycle completes, whatever fails in it. */
  lemma LostByRows(s: State, w: Weather, s': State, k: nat)
    requires Ordered(s.rows) && MarksRows(s, w, s') && MovesCheckpoint(s, w, s') && k < |s.rows|
    ensures Lost(s', k) <==>
            !s.rows[k].published && !Completes(s, w, k) && (Overtakes(s, w, k) || (Lost(s, k) && !Rewinds(s, w, k)))
  {
    if !s.rows[k].published && !Completes(s, w, k) {
      if Overtakes(s, w, k) {
        var j: nat :| k < j < |s.rows| && Completes(s, w, j);
        assert s.rows[k].sequence < s.rows[j].sequence;
      } else if Rewinds(s, w, k) {
        var i: nat :| i < |s.rows| && Completes(s, w, i);
        var j: nat :| Completes(s, w, j) && s.rows[j].sequence == s'.checkpoint;
        assert s.rows[j].sequence < s.rows[k].sequence;
      } else if s'.checkpoint != s.checkpoint {
        var j: nat :| Completes(s, w, j) && s.rows[j].sequence == s'.checkpoint;
        assert j < k && s.rows[j].sequence < s.rows[k].sequence;
        assert w.acks;
      }
    }
  }

  /**
   A lost row is in reach again after a cycle if and only if the cycle published it, or
   could not read the checkpoint when it wrote it and completed only rows before it.
   */
  lemma FoundAgainIff(s: State, w: Weather, k: nat)
    requires Inv(s) && Lost(s, k)
    ensures !Lost(Cycle(s, w), k) <==> Completes(s, w, k) || Rewinds(s, w, k)
    ensures w.polls ==> Lost(Cycle(s, w), k)
  {
    CycleMarksRows(s, w);
    CycleMovesCheckpoint(s, w);
    LostByRows(s, w, Cycle(s, w), k);
    if w.polls && Completes(s, w, k) {
      FetchedRow(s, w, k);
    }
  }

  /** A row whose publish failed does not come before a delivered one. */
  ghost predicate SuccessesFirst(s: State, w: Weather) {
    forall i: nat, j: nat ::
      i < j && IsFetched(s, w, i) && IsFetched(s, w, j) && s.rows[j].id in w.Delivers() ==> s.rows[i].id in w.Delivers()
  }

  /** Nothing is completed behind a failure, or the cycle does not move the checkpoint at all. */
  ghost predicate OrderlyCycle(s: State, w: Weather) {
    !w.marks || w.writes.Refused? || SuccessesFirst(s, w)
  }

  /** The fetch takes the oldest rows in reach. */
  lemma FetchTakesOldest(s: State, w: Weather, i: nat, j: nat)
    requires Ordered(s.rows) && i < j && IsFetched(s, w, j)
    requires !s.rows[i].published && Since(s, w) < s.rows[i].sequence
    ensures IsFetched(s, w, i)
  {
    var pending := Pending(s.rows, Since(s, w));
    PendingAscending(s.rows, Since(s, w));
    PendingMeaning(s.rows, Since(s, w), s.rows[i]);
    var b :| 0 <= b < |Fetched(s, w)| && Fetched(s, w)[b] == s.rows[j];
    var a :| 0 <= a < |pending| && pending[a] == s.rows[i];
    assert s.rows[i].sequence < s.rows[j].sequence && pending[b] == s.rows[j];
    assert a < b;
    assert Fetched(s, w)[a] == s.rows[i];
  }

  /** With nothing lost, a cycle overtakes an unpublished row exactly when it is disorderly. */
  lemma OvertakesIfDisorderly(s: State, w: Weather) returns (k: nat)
    requires Ordered(s.rows) && !OrderlyCycle(s, w)
    ensures k < |s.rows| && !s.rows[k].published && !Completes(s, w, k) && Overtakes(s, w, k)
  {
    var i: nat, j: nat :|
      && i < j && IsFetched(s, w, i) && IsFetched(s, w, j)
      && s.rows[j].id in w.Delivers() && s.rows[i].id !in w.Delivers();
    FetchedRow(s, w, i);
    assert Completes(s, w, j);
    k := i;
  }

  lemma OrderlyOvertakesNothing(s: State, w: Weather, k: nat)
    requires Ordered(s.rows) && NoLoss(s) && OrderlyCycle(s, w) && k < |s.rows| && !s.rows[k].published
    ensures Overtakes(s, w, k) ==> Completes(s, w, k)
  {
    if Overtakes(s, w, k) {
      var j: nat :| k < j < |s.rows| && Completes(s, w, j);
      assert !Lost(s, k);
      FetchTakesOldest(s, w, k, j);
    }
  }

  /**
   From a state without loss, a cycle keeps every row in reach if and only if it marks
   nothing, or its checkpoint write is refused, or no failed row comes before a delivered one.
   */
  lemma CycleLosesNothingIff(s: State, w: Weather)
    requires Inv(s) && NoLoss(s)
    ensures NoLoss(Cycle(s, w)) <==> OrderlyCycle(s, w)
  {
    var s' := Cycle(s, w);
    CycleMarksRows(s, w);
    CycleMovesCheckpoint(s, w);
    if OrderlyCycle(s, w) {
      forall k: nat | k < |s'.rows|
        ensures !Lost(s', k)
      {
        assert !Lost(s, k);
        LostByRows(s, w, s', k);
        if !s.rows[k].published {
          OrderlyOvertakesNothing(s, w, k);
        }
      }
    } else {
      var k := OvertakesIfDisorderly(s, w);
      LostByRows(s, w, s', k);
    }
  }

  // -------------------------------------------------------------------- one step

  /** Neither the checkpoint nor what is saved of it runs ahead of the log. */
  predicate InLog(s: State) {
    s.checkpoint <= LastSequence(s.rows) && s.saved <= LastSequence(s.rows)
  }

  lemma SameLastSequence(rows: seq<Entry>, rows': seq<Entry>)
    requires |rows'| == |rows| && forall k: nat :: k < |rows| ==> rows'[k].sequence == rows[k].sequence
    ensures LastSequence(rows') == LastSequence(rows)
  {
  }

  lemma CycleKeepsInLog(s: State, w: Weather)
    requires Inv(s) && InLog(s)
    ensures InLog(Cycle(s, w))
  {
    CycleMarksRows(s, w);
    CycleMovesCheckpoint(s, w);
    SameLastSequence(s.rows, Cycle(s, w).rows);
  }

  lemma StepKeepsInLog(s: State, a: Action)
    requires Inv(s) && InLog(s)
    ensures InLog(Step(s, a))
  {
    if a.RunCycle? {
      CycleKeepsInLog(s, a.weather);
    }
  }

  lemma {:induction false} RunKeepsInLog(actions: seq<Action>)
    ensures InLog(Run(actions))
  {
    if actions != [] {
      RunKeepsInLog(actions[..|actions| - 1]);
      RunKeepsInv(actions[..|actions| - 1]);
      StepKeepsInLog(Run(actions[..|actions| - 1]), actions[|actions| - 1]);
    }
  }

  /** The step puts the unpublished row k behind the checkpoint, or keeps it there. */
  predicate Overtaken(s: State, a: Action, k: nat) {
    k < |s.rows| && !s.rows[k].published &&
    match a
    case RunCycle(w) => !Completes(s, w, k) && Overtakes(s, w, k)
    case Restart(_) => s.rows[k].sequence <= s.saved
    case _ => false
  }

  /** The step publishes row k or puts the checkpoint before it. */
  predicate Freed(s: State, a: Action, k: nat) {
    k < |s.rows| &&
    match a
    case RunCycle(w) => Completes(s, w, k) || Rewinds(s, w, k)
    case Restart(_) => s.saved < s.rows[k].sequence
    case _ => false
  }

  lemma StepLostIff(s: State, a: Action, k: nat)
    requires Inv(s) && k < |s.rows|
    ensures Lost(Step(s, a), k) <==> Overtaken(s, a, k) || (Lost(s, k) && !Freed(s, a, k))
  {
    if a.RunCycle? {
      CycleMarksRows(s, a.weather);
      CycleMovesCheckpoint(s, a.weather);
      LostByRows(s, a.weather, Cycle(s, a.weather), k);
    }
  }

  lemma NewRowIsInReach(s: State, a: Action, k: nat)
    requires InLog(s) && k >= |s.rows|
    ensures !Lost(Step(s, a), k)
  {
  }

  lemma RowsStay(s: State, a: Action)
    ensures |s.rows| <= |Step(s, a).rows|
  {
  }

  // ------------------------------------------------------------------ whole runs

  predicate OvertakenAt(actions: seq<Action>, i: nat, k: nat) {
    i < |actions| && Overtaken(Run(actions[..i]), actions[i], k)
  }

  predicate FreedAt(actions: seq<Action>, i: nat, k: nat) {
    i < |actions| && Freed(Run(actions[..i]), actions[i], k)
  }

  /** Some step overtook row k and no later one freed it. */
  predicate LeftBehind(actions: seq<Action>, k: nat) {
    exists i: nat :: i < |actions| && OvertakenAt(actions, i, k) &&
      forall j: nat :: i < j < |actions| ==> !FreedAt(actions, j, k)
  }

  lemma SameInPrefix(actions: seq<Action>, i: nat, k: nat)
    requires i < |actions| - 1
    ensures var init := actions[..|actions| - 1];
            && (OvertakenAt(init, i, k) <==> OvertakenAt(actions, i, k))
            && (FreedAt(init, i, k) <==> FreedAt(actions, i, k))
  {
    assert actions[..|actions| - 1][..i] == actions[..i];
  }

  lemma LeftBehindEarlier(actions: seq<Action>, k: nat)
    requires actions != [] && LeftBehind(actions, k) && !OvertakenAt(actions, |actions| - 1, k)
    ensures LeftBehind(actions[..|actions| - 1], k) && !FreedAt(actions, |actions| - 1, k)
  {
    var n := |actions| - 1;
    var init := actions[..n];
    var i: nat :| i < |actions| && OvertakenAt(actions, i, k) &&
      forall j: nat :: i < j < |actions| ==> !FreedAt(actions, j, k);
    SameInPrefix(actions, i, k);
    forall j: nat | i < j < n
      ensures !FreedAt(init, j, k)
    {
      SameInPrefix(actions, j, k);
    }
    assert i < |init| && OvertakenAt(init, i, k);
  }

  lemma LeftBehindStill(actions: seq<Action>, k: nat)
    requires actions != [] && LeftBehind(actions[..|actions| - 1], k) && !FreedAt(actions, |actions| - 1, k)
    ensures LeftBehind(actions, k)
  {
    var n := |actions| - 1;
    var init := actions[..n];
    var i: nat :| i < |init| && OvertakenAt(init, i, k) && forall j: nat :: i < j < |init| ==> !FreedAt(init, j, k);
    SameInPrefix(actions, i, k);
    forall j: nat | i < j < |actions|
      ensures !FreedAt(actions, j, k)
    {
      if j < n {
        SameInPrefix(actions, j, k);
      }
    }
    assert OvertakenAt(actions, i, k);
  }

  lemma LeftBehindStep(actions: seq<Action>, k: nat)
    requires actions != []
    ensures var n := |actions| - 1;
            LeftBehind(actions, k) <==>
            OvertakenAt(actions, n, k) || (LeftBehind(actions[..n], k) && !FreedAt(actions, n, k))
  {
    var n := |actions| - 1;
    if LeftBehind(actions, k) && !OvertakenAt(actions, n, k) {
      LeftBehindEarlier(actions, k);
    }
    if LeftBehind(actions[..n], k) && !FreedAt(actions, n, k) {
      LeftBehindStill(actions, k);
    }
  }

  lemma {:induction false} NoRowNoHistory(actions: seq<Action>, k: nat)
    requires k >= |Run(actions).rows|
    ensures !LeftBehind(actions, k)
  {
    if actions != [] {
      var n := |actions| - 1;
      RowsStay(Run(actions[..n]), actions[n]);
      NoRowNoHistory(actions[..n], k);
      LeftBehindStep(actions, k);
    }
  }

  /**
   The exact condition for every row over every run, whatever reads and writes fail: a row
   is lost if and only if some step overtook it and no later step published it, wrote a
   checkpoint before it, or restarted from one.
   */
  lemma {:induction false} LostIff(actions: seq<Action>, k: nat)
    ensures Lost(Run(actions), k) <==> LeftBehind(actions, k)
  {
    if actions != [] {
      var n := |actions| - 1;
      var s := Run(actions[..n]);
      LostIff(actions[..n], k);
      LeftBehindStep(actions, k);
      RunKeepsInv(actions[..n]);
      if k < |s.rows| {
        StepLostIff(s, actions[n], k);
      } else {
        RunKeepsInLog(actions[..n]);
        NewRowIsInReach(s, actions[n], k);
        NoRowNoHistory(actions[..n], k);
      }
    }
  }

  // ----------------------------------------------------------------- runs without loss

  /** Nothing is lost, and nothing would be after a restart. */
  predicate Safe(s: State) {
    NoLoss(s) && NoLoss(s.(checkpoint := s.saved))
  }

  ghost predicate Orderly(s: State, a: Action) {
    a.RunCycle? ==> OrderlyCycle(s, a.weather)
  }

  ghost predicate OrderlyRun(actions: seq<Action>) {
    actions == [] ||
    (var n := |actions| - 1; OrderlyRun(actions[..n]) && Orderly(Run(actions[..n]), actions[n]))
  }

  lemma CycleKeepsSafe(s: State, w: Weather)
    requires Inv(s) && Safe(s) && OrderlyCycle(s, w)
    ensures Safe(Cycle(s, w))
  {
    var s' := Cycle(s, w);
    CycleLosesNothingIff(s, w);
    CycleMarksRows(s, w);
    CycleMovesCheckpoint(s, w);
    forall k: nat | k < |s'.rows|
      ensures !Lost(s'.(checkpoint := s'.saved), k)
    {
      assert !Lost(s', k) && !Lost(s.(checkpoint := s.saved), k);
    }
  }

  lemma AppendKeepsSafe(s: State, id: string, gap: nat)
    requires Safe(s) && InLog(s)
    ensures Safe(Step(s, Append(id, gap)))
  {
    var s' := Step(s, Append(id, gap));
    forall k: nat | k < |s'.rows|
      ensures !Lost(s', k) && !Lost(s'.(checkpoint := s'.saved), k)
    {
      if k < |s.rows| {
        assert !Lost(s, k) && !Lost(s.(checkpoint := s.saved), k);
      }
    }
  }

  lemma RestartKeepsSafe(s: State, keeps: bool)
    requires Safe(s)
    ensures Safe(Step(s, Restart(keeps)))
  {
    var s' := Step(s, Restart(keeps));
    forall k: nat | k < |s'.rows|
      ensures !Lost(s', k) && !Lost(s'.(checkpoint := s'.saved), k)
    {
      assert !Lost(s.(checkpoint := s.saved), k);
    }
  }

  lemma ForgetKeepsSafe(s: State, ids: set<string>)
    requires Safe(s)
    ensures Safe(Step(s, ForgetDedupe(ids)))
  {
    var s' := Step(s, ForgetDedupe(ids));
    forall k: nat | k < |s'.rows|
      ensures !Lost(s', k) && !Lost(s'.(checkpoint := s'.saved), k)
    {
      assert !Lost(s, k) && !Lost(s.(checkpoint := s.saved), k);
    }
  }

  lemma StepKeepsSafe(s: State, a: Action)
    requires Inv(s) && InLog(s) && Safe(s) && Orderly(s, a)
    ensures Safe(Step(s, a))
  {
    match a
    case Append(id, gap) => AppendKeepsSafe(s, id, gap);
    case RunCycle(w) => CycleKeepsSafe(s, w);
    case ForgetDedupe(ids) => ForgetKeepsSafe(s, ids);
    case Restart(keeps) => RestartKeepsSafe(s, keeps);
  }

  /** As long as cycles are orderly no row is ever lost, whatever reads, writes and restarts do. */
  lemma {:induction false} OrderlyRunsLoseNothing(actions: seq<Action>)
    requires OrderlyRun(actions)
    ensures Safe(Run(actions))
  {
    if actions != [] {
      var n := |actions| - 1;
      OrderlyRunsLoseNothing(actions[..n]);
      RunKeepsInv(actions[..n]);
      RunKeepsInLog(actions[..n]);
      StepKeepsSafe(Run(actions[..n]), actions[n]);
    }
  }

  // ---------------------------------------------------------------------- for good

  predicate Polls(a: Action) {
    a.RunCycle? ==> a.weather.polls
  }

  predicate AllPoll(actions: seq<Action>) {
    forall i :: 0 <= i < |actions| ==> Polls(actions[i])
  }

  /** Behind the checkpoint in use and behind the one a restart would read. */
  predicate LostForGood(s: State, k: nat) {
    Lost(s, k) && s.rows[k].sequence <= s.saved
  }

  lemma StepKeepsLost(s: State, a: Action, k: nat)
    requires Inv(s) && LostForGood(s, k) && Polls(a)
    ensures LostForGood(Step(s, a), k)
  {
    if a.RunCycle? {
      CycleMarksRows(s, a.weather);
      CycleMovesCheckpoint(s, a.weather);
      FoundAgainIff(s, a.weather, k);
    }
  }

  lemma RunAppend(actions: seq<Action>, a: Action)
    ensures Run(actions + [a]) == Step(Run(actions), a)
  {
    assert (actions + [a])[..|actions|] == actions;
  }

  lemma {:induction false} ContinuationKeepsLost(actions: seq<Action>, more: seq<Action>, k: nat)
    requires LostForGood(Run(actions), k) && AllPoll(more)
    ensures LostForGood(Run(actions + more), k)
  {
    if more == [] {
      assert actions + more == actions;
    } else {
      var n := |more| - 1;
      var before := actions + more[..n];
      ContinuationKeepsLost(actions, more[..n], k);
      assert actions + more == before + [more[n]];
      RunAppend(before, more[n]);
      RunKeepsInv(before);
      StepKeepsLost(Run(before), more[n], k);
    }
  }

  /**
   A row is lost in every continuation in which polls can read the checkpoint if and only
   if it is lost now and the saved checkpoint is past it too.
   */
  lemma LostForGoodIff(actions: seq<Action>, k: nat)
    ensures (forall more :: AllPoll(more) ==> Lost(Run(actions + more), k)) <==> LostForGood(Run(actions), k)
  {
    if LostForGood(Run(actions), k) {
      forall more | AllPoll(more)
        ensures Lost(Run(actions + more), k)
      {
        ContinuationKeepsLost(actions, more, k);
      }
    } else if Lost(Run(actions), k) {
      RunAppend(actions, Restart(true));
      assert AllPoll([Restart(true)]) && !Lost(Run(actions + [Restart(true)]), k);
    } else {
      assert actions + [] == actions && AllPoll([]);
    }
  }

  /** The checkpoint can be read when polling and what is written of it is kept or refused. */
  predicate Steady(a: Action) {
    a.RunCycle? ==> a.weather.polls && !a.weather.writes.Unsaved?
  }

  lemma StepKeepsSaved(s: State, a: Action)
    requires Inv(s) && s.saved == s.checkpoint && Steady(a)
    ensures Step(s, a).saved == Step(s, a).checkpoint
  {
    if a.RunCycle? {
      CycleMovesCheckpoint(s, a.weather);
    }
  }

  lemma StepLosesNothingIff(s: State, a: Action)
    requires Inv(s) && InLog(s) && s.saved == s.checkpoint && Steady(a)
    ensures NoLoss(Step(s, a)) <==> NoLoss(s) && Orderly(s, a)
  {
    if !NoLoss(s) {
      var k: nat :| k < |s.rows| && Lost(s, k);
      StepKeepsLost(s, a, k);
    } else {
      assert Safe(s) by { assert s.(checkpoint := s.saved) == s; }
      if Orderly(s, a) {
        StepKeepsSafe(s, a);
      } else {
        CycleLosesNothingIff(s, a.weather);
      }
    }
  }

  /** In steady runs loss is permanent, so nothing is lost if and only if every cycle was orderly. */
  lemma {:induction false} RunLosesNothingIff(actions: seq<Action>)
    requires forall i :: 0 <= i < |actions| ==> Steady(actions[i])
    ensures Run(actions).saved == Run(actions).checkpoint
    ensures NoLoss(Run(actions)) <==> OrderlyRun(actions)
  {
    if actions != [] {
      var n := |actions| - 1;
      RunLosesNothingIff(actions[..n]);
      RunKeepsInv(actions[..n]);
      RunKeepsInLog(actions[..n]);
      StepKeepsSaved(Run(actions[..n]), actions[n]);
      StepLosesNothingIff(Run(actions[..n]), actions[n]);
    }
  }
}
