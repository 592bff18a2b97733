/**
 What reaches the event bus, and how fast the backlog is worked off. A publish whose
 mirror fails has already reached the bus and is repeated later.
 */
module RelayDelivery {
  import opened Stores
  import opened Relay
  import opened RelayGuarantees
  import opened RelayLoss

  /** What a cycle hands to the bus. */
  function Sent(s: State, w: Weather): seq<string> {
    Select(Ids(Fetched(s, w)), w.reaches)
  }

  lemma CycleSends(s: State, w: Weather)
    requires Inv(s)
    ensures Cycle(s, w).bus == s.bus + Sent(s, w)
  {
    CycleEffects(s, w);
  }

  lemma SentIsNew(s: State, w: Weather, id: string)
    requires Inv(s) && id in Sent(s, w)
    ensures !IsPublished(s.rows, id)
    ensures id in Completions(s, w) <==> w.marks && id in w.mirrored
  {
    var f := Fetched(s, w);
    PollIsFetch(s, w);
    SelectMeaning(Ids(f), w.reaches, id);
    SelectMeaning(Ids(f), w.Delivers(), id);
    var k :| 0 <= k < |Ids(f)| && Ids(f)[k] == id;
    UnpublishedId(s.rows, f[k]);
  }

  lemma SentHasNoRepeats(s: State, w: Weather)
    requires Inv(s)
    ensures NoRepeats(Sent(s, w))
  {
    PollIsFetch(s, w);
    SelectNoRepeats(Ids(Fetched(s, w)), w.reaches);
  }

  /** The ids are those of entries in ascending order of sequence. */
  ghost predicate InSequence(entries: seq<Entry>, ids: seq<string>) {
    forall i, j, a, b | 0 <= i < j < |ids| && 0 <= a < |entries| && 0 <= b < |entries| ::
      entries[a].id == ids[i] && entries[b].id == ids[j] ==> entries[a].sequence < entries[b].sequence
  }

  lemma {:induction false} SelectInSequence(f: seq<Entry>, wanted: set<string>)
    requires Distinct(f) && Ascending(f)
    ensures InSequence(f, Select(Ids(f), wanted))
  {
    if f != [] {
      var n := |f| - 1;
      var init, ids := Select(Ids(f[..n]), wanted), Select(Ids(f), wanted);
      SelectInSequence(f[..n], wanted);
      assert Ids(f)[..n] == Ids(f[..n]);
      forall i, j, a, b | 0 <= i < j < |ids| && 0 <= a < |f| && 0 <= b < |f| && f[a].id == ids[i] && f[b].id == ids[j]
        ensures f[a].sequence < f[b].sequence
      {
        SelectMeaning(Ids(f[..n]), wanted, ids[i]);
        assert ids[i] == init[i] && a < n;
        if j < |init| {
          SelectMeaning(Ids(f[..n]), wanted, ids[j]);
          assert f[..n][a].id == init[i] && f[..n][b].id == init[j];
        }
      }
    }
  }

  /** Within a cycle the bus gets the events in the order of their sequence. */
  lemma SentInSequence(s: State, w: Weather)
    requires Inv(s)
    ensures Cycle(s, w).bus[..|s.bus|] == s.bus && InSequence(Fetched(s, w), Cycle(s, w).bus[|s.bus|..])
  {
    CycleSends(s, w);
    PollIsFetch(s, w);
    SelectInSequence(Fetched(s, w), w.reaches);
  }

  lemma CompletedWasSent(s: State, w: Weather, id: string)
    requires id in Completions(s, w)
    ensures id in Sent(s, w)
  {
    SelectMeaning(Ids(Fetched(s, w)), w.reaches, id);
    SelectMeaning(Ids(Fetched(s, w)), w.Delivers(), id);
  }

  lemma CyclePublishes(s: State, w: Weather)
    requires Inv(s)
    ensures PublishedIds(Cycle(s, w).rows) == PublishedIds(s.rows) + (set id | id in Completions(s, w))
  {
    forall id
      ensures id in PublishedIds(Cycle(s, w).rows) <==> id in PublishedIds(s.rows) || id in Completions(s, w)
    {
      PublishedAfter(s, w, id);
    }
  }

  /** What reaches the bus and what is published in one step. */
  lemma StepSends(s: State, a: Action)
    requires !a.RunCycle?
    ensures Step(s, a).bus == s.bus && PublishedIds(Step(s, a).rows) == PublishedIds(s.rows)
  {
    if a.Append? {
      var s' := Step(s, a);
      assert forall k :: 0 <= k < |s.rows| ==> s'.rows[k] == s.rows[k];
    }
  }

  // ------------------------------------------------------------- at least once

  ghost predicate AtLeastOnce(s: State) {
    forall id :: id in PublishedIds(s.rows) ==> id in s.bus
  }

  lemma StepAtLeastOnce(s: State, a: Action)
    requires Inv(s) && AtLeastOnce(s)
    ensures AtLeastOnce(Step(s, a))
  {
    if a.RunCycle? {
      CycleSends(s, a.weather);
      CyclePublishes(s, a.weather);
      forall id | id in Completions(s, a.weather)
        ensures id in Sent(s, a.weather)
      {
        CompletedWasSent(s, a.weather, id);
      }
    } else {
      StepSends(s, a);
    }
  }

  /** Every row that is marked published went out on the bus. */
  lemma {:induction false} RunAtLeastOnce(actions: seq<Action>)
    ensures AtLeastOnce(Run(actions))
  {
    if actions != [] {
      RunAtLeastOnce(actions[..|actions| - 1]);
      RunKeepsInv(actions[..|actions| - 1]);
      StepAtLeastOnce(Run(actions[..|actions| - 1]), actions[|actions| - 1]);
    }
  }

  // -------------------------------------------------------------- exactly once

  /** The bus holds the published ids, each once, and nothing else. */
  ghost predicate ExactlyOnce(s: State) {
    Once(s.bus, PublishedIds(s.rows))
  }

  /** Everything the bus took was mirrored and marked. */
  predicate Clean(s: State, a: Action) {
    a.RunCycle? ==> forall id :: id in Sent(s, a.weather) ==> a.weather.marks && id in a.weather.mirrored
  }

  lemma StepExactlyOnceIff(s: State, a: Action)
    requires Inv(s) && AtLeastOnce(s)
    ensures ExactlyOnce(Step(s, a)) <==> ExactlyOnce(s) && Clean(s, a)
  {
    if a.RunCycle? {
      var w := a.weather;
      var sent, done := Sent(s, w), set id | id in Completions(s, w);
      CycleSends(s, w);
      CyclePublishes(s, w);
      SentHasNoRepeats(s, w);
      forall id | id in sent
        ensures id !in PublishedIds(s.rows) && (id in done <==> w.marks && id in w.mirrored)
      {
        SentIsNew(s, w, id);
      }
      forall id | id in done
        ensures id in sent
      {
        CompletedWasSent(s, w, id);
      }
      OnceStep(s.bus, PublishedIds(s.rows), sent, done);
    } else {
      StepSends(s, a);
    }
  }

  /** Every cycle of the run was clean. */
  predicate CleanRun(actions: seq<Action>) {
    actions == [] ||
    (var n := |actions| - 1; CleanRun(actions[..n]) && Clean(Run(actions[..n]), actions[n]))
  }

  /**
   Exactly once, over every run: the bus holds the published ids and each once if and
   only if everything the bus ever took was mirrored and marked in the same cycle. One
   failing mirror or mark after a send is enough to break it for good.
   */
  lemma {:induction false} ExactlyOnceIff(actions: seq<Action>)
    ensures ExactlyOnce(Run(actions)) <==> CleanRun(actions)
  {
    if actions != [] {
      var n := |actions| - 1;
      ExactlyOnceIff(actions[..n]);
      RunKeepsInv(actions[..n]);
      RunAtLeastOnce(actions[..n]);
      StepExactlyOnceIff(Run(actions[..n]), actions[n]);
    }
  }

  // ------------------------------------------------------------------- examples

  lemma OneRowFetched(s: State, w: Weather, e: Entry)
    requires s.rows == [e] && !e.published && Since(s, w) < e.sequence && w.limit >= 1
    ensures IsFetched(s, w, 0) && Sent(s, w) == (if e.id in w.reaches then [e.id] else [])
  {
    assert Pending([e], Since(s, w)) == [e] by { assert [e][..0] == []; }
    assert Fetched(s, w) == [e] && Ids([e]) == [e.id];
    assert Select([e.id][..0], w.reaches) == [];
  }

  /** A cycle on a single unpublished row. */
  lemma OneRowCycle(s: State, w: Weather, e: Entry)
    requires Inv(s) && s.rows == [e] && !e.published && Since(s, w) < e.sequence && w.limit >= 1
    ensures Cycle(s, w).rows == [e.(published := w.marks && e.id in w.Delivers())]
    ensures Cycle(s, w).bus == s.bus + (if e.id in w.reaches then [e.id] else [])
    ensures !w.marks || e.id !in w.Delivers() ==> Cycle(s, w).checkpoint == s.checkpoint
  {
    OneRowFetched(s, w, e);
    CycleMarksRows(s, w);
    CycleMovesCheckpoint(s, w);
    CycleSends(s, w);
    OneRowByRows(s, w, Cycle(s, w), e);
  }

  lemma OneRowByRows(s: State, w: Weather, s': State, e: Entry)
    requires s.rows == [e] && !e.published && IsFetched(s, w, 0) && MarksRows(s, w, s') && MovesCheckpoint(s, w, s')
    ensures s'.rows == [e.(published := w.marks && e.id in w.Delivers())]
    ensures !w.marks || e.id !in w.Delivers() ==> s'.checkpoint == s.checkpoint
  {
    assert Completes(s, w, 0) <==> w.marks && e.id in w.Delivers();
    assert forall k: nat :: Completes(s, w, k) ==> k == 0;
  }

  lemma TwoRowsFetched(s: State, w: Weather, a: Entry, b: Entry)
    requires s.rows == [a, b] && !a.published && !b.published && w.limit >= 2
    requires Since(s, w) < a.sequence && Since(s, w) < b.sequence
    ensures IsFetched(s, w, 0) && IsFetched(s, w, 1)
  {
    assert Pending([a], Since(s, w)) == [a] by { assert [a][..0] == []; }
    assert Pending([a, b], Since(s, w)) == [a, b] by { assert [a, b][..1] == [a]; }
    assert Fetched(s, w) == [a, b];
  }

  /** A cycle that delivers only the second of two rows leaves the first behind, also for a restart. */
  lemma TwoRowCycle(s: State, w: Weather, a: Entry, b: Entry)
    requires Inv(s) && s.rows == [a, b] && !a.published && !b.published && w.limit >= 2
    requires Since(s, w) < a.sequence < b.sequence && s.checkpoint < a.sequence
    requires w.marks && w.writes.Kept? && a.id !in w.Delivers() && b.id in w.Delivers()
    ensures LostForGood(Cycle(s, w), 0)
  {
    TwoRowsFetched(s, w, a, b);
    CycleMarksRows(s, w);
    CycleMovesCheckpoint(s, w);
    assert Completes(s, w, 1);
    LostByRows(s, w, Cycle(s, w), 0);
  }

  function AllFine(reaches: set<string>, mirrored: set<string>): Weather {
    Weather(10, true, reaches, mirrored, true, true, Kept, (n: nat) => {})
  }

  lemma OneAppend()
    ensures Run([Append("a", 0)]) == INITIAL.(rows := [Entry(1, "a", false)])
  {
    RunAppend([], Append("a", 0));
    assert [] + [Append("a", 0)] == [Append("a", 0)];
  }

  lemma TwoAppends()
    ensures Run([Append("a", 0), Append("b", 0)])
            == INITIAL.(rows := [Entry(1, "a", false), Entry(2, "b", false)])
  {
    OneAppend();
    RunAppend([Append("a", 0)], Append("b", 0));
    assert [Append("a", 0)] + [Append("b", 0)] == [Append("a", 0), Append("b", 0)];
    assert !Known([Entry(1, "a", false)], "b");
  }

  /**
   Two events and a cycle that delivers only the second: the first is behind the
   checkpoint and stays there in every continuation in which polls can read it.
   */
  lemma LossHappens(more: seq<Action>)
    requires AllPoll(more)
    ensures Lost(Run([Append("a", 0), Append("b", 0)] + [RunCycle(AllFine({"b"}, {"b"}))] + more), 0)
  {
    var before := [Append("a", 0), Append("b", 0)];
    var w := AllFine({"b"}, {"b"});
    TwoAppends();
    RunKeepsInv(before);
    TwoRowCycle(Run(before), w, Entry(1, "a", false), Entry(2, "b", false));
    RunAppend(before, RunCycle(w));
    ContinuationKeepsLost(before + [RunCycle(w)], more, 0);
  }

  /** Append an event and fail its mirror: the bus has it, the row is still pending. */
  function FailedMirror(): seq<Action> {
    [Append("a", 0)] + [RunCycle(AllFine({"a"}, {}))]
  }

  lemma AfterFailedMirror()
    ensures var s := Run(FailedMirror());
            Inv(s) && s.rows == [Entry(1, "a", false)] && s.bus == ["a"] && s.checkpoint == 0
  {
    var one := [Append("a", 0)];
    OneAppend();
    RunKeepsInv(one);
    OneRowCycle(Run(one), AllFine({"a"}, {}), Entry(1, "a", false));
    RunAppend(one, RunCycle(AllFine({"a"}, {})));
    RunKeepsInv(FailedMirror());
  }

  /** A state with one pending row that was sent before: the next good cycle sends it again. */
  lemma SendsAgain(s: State, w: Weather)
    requires Inv(s) && s.rows == [Entry(1, "a", false)] && s.bus == ["a"] && s.checkpoint == 0
    requires w == AllFine({"a"}, {"a"})
    ensures Cycle(s, w).bus == ["a", "a"] && Cycle(s, w).rows == [Entry(1, "a", true)]
  {
    OneRowCycle(s, w, Entry(1, "a", false));
  }

  /** One event whose mirror fails once: no database mark fails, and yet the bus gets it twice. */
  lemma RepeatHappens()
    ensures var s := Run(FailedMirror() + [RunCycle(AllFine({"a"}, {"a"}))]);
            s.bus == ["a", "a"] && s.rows == [Entry(1, "a", true)]
  {
    AfterFailedMirror();
    SendsAgain(Run(FailedMirror()), AllFine({"a"}, {"a"}));
    RunAppend(FailedMirror(), RunCycle(AllFine({"a"}, {"a"})));
  }

  // ----------------------------------------------------------------- draining

  function Unpublished(rows: seq<Entry>): nat {
    if rows == [] then 0
    else Unpublished(rows[..|rows| - 1]) + (if rows[|rows| - 1].published then 0 else 1)
  }

  lemma {:induction false} MarkingShrinks(rows: seq<Entry>, rows': seq<Entry>, k: nat)
    requires |rows| == |rows'| && (forall i :: 0 <= i < |rows| && rows[i].published ==> rows'[i].published)
    ensures Unpublished(rows') <= Unpublished(rows)
    ensures k < |rows| && !rows[k].published && rows'[k].published ==> Unpublished(rows') < Unpublished(rows)
  {
    if rows != [] {
      MarkingShrinks(rows[..|rows| - 1], rows'[..|rows| - 1], k);
    }
  }

  lemma {:induction false} AnyUnpublished(rows: seq<Entry>) returns (k: nat)
    requires Unpublished(rows) > 0
    ensures k < |rows| && !rows[k].published
  {
    if rows[|rows| - 1].published {
      k := AnyUnpublished(rows[..|rows| - 1]);
    } else {
      k := |rows| - 1;
    }
  }

  /** Everything fetched is delivered and marked. */
  predicate FairWeather(s: State, w: Weather) {
    w.limit >= 1 && w.marks && forall i :: 0 <= i < |s.rows| ==> s.rows[i].id in w.Delivers()
  }

  lemma SomethingFetched(s: State, w: Weather) returns (k: nat)
    requires Ordered(s.rows) && NoLoss(s) && w.limit >= 1 && Unpublished(s.rows) > 0
    ensures IsFetched(s, w, k)
  {
    var u := AnyUnpublished(s.rows);
    assert !Lost(s, u);
    PendingMeaning(s.rows, Since(s, w), s.rows[u]);
    k := FetchedIndex(s, w, 0);
  }

  lemma FairIsOrderly(s: State, w: Weather)
    requires FairWeather(s, w)
    ensures OrderlyCycle(s, w)
  {
  }

  /** With nothing lost, a good cycle publishes some of the backlog. */
  lemma GoodCycleProgresses(s: State, w: Weather)
    requires Inv(s) && NoLoss(s) && FairWeather(s, w)
    ensures Unpublished(Cycle(s, w).rows) <= Unpublished(s.rows)
    ensures Unpublished(s.rows) > 0 ==> Unpublished(Cycle(s, w).rows) < Unpublished(s.rows)
  {
    CycleMarksRows(s, w);
    if Unpublished(s.rows) > 0 {
      var k := SomethingFetched(s, w);
      FetchedRow(s, w, k);
      assert Completes(s, w, k);
      MarkingShrinks(s.rows, Cycle(s, w).rows, k);
    } else {
      MarkingShrinks(s.rows, Cycle(s, w).rows, 0);
    }
  }

  function Appends(actions: seq<Action>): nat {
    if actions == [] then 0 else (if actions[0].Append? then 1 else 0) + Appends(actions[1..])
  }

  /** The state after some more actions. */
  function After(s: State, actions: seq<Action>): State
    decreases |actions|
  {
    if actions == [] then s else After(Step(s, actions[0]), actions[1..])
  }

  /** The number of cycles that find a backlog. */
  function BusyCycles(s: State, actions: seq<Action>): nat
    decreases |actions|
  {
    if actions == [] then 0
    else
      (if actions[0].RunCycle? && Unpublished(s.rows) > 0 then 1 else 0) +
      BusyCycles(Step(s, actions[0]), actions[1..])
  }

  /** Every cycle is a good one. */
  predicate FairRun(s: State, actions: seq<Action>)
    decreases |actions|
  {
    actions == [] ||
    ((actions[0].RunCycle? ==> FairWeather(s, actions[0].weather)) && FairRun(Step(s, actions[0]), actions[1..]))
  }

  lemma AppendCounts(s: State, id: string, gap: nat)
    ensures Unpublished(Step(s, Append(id, gap)).rows) <= Unpublished(s.rows) + 1
  {
    var s' := Step(s, Append(id, gap));
    if s'.rows != s.rows {
      assert s'.rows[..|s.rows|] == s.rows;
    }
  }

  lemma StepDrains(s: State, a: Action)
    requires Inv(s) && NoLoss(s) && (a.RunCycle? ==> FairWeather(s, a.weather))
    ensures (if a.RunCycle? && Unpublished(s.rows) > 0 then 1 else 0) + Unpublished(Step(s, a).rows)
            <= Unpublished(s.rows) + (if a.Append? then 1 else 0)
  {
    match a
    case Append(id, gap) => AppendCounts(s, id, gap);
    case RunCycle(w) => GoodCycleProgresses(s, w);
    case ForgetDedupe(_) =>
    case Restart(_) =>
  }

  /**
   From a state without loss, with good cycles and any appends and restarts in between,
   each cycle that finds a backlog works some of it off: there are at most as many of them
   as rows were waiting or have been appended, and what they leave is the rest.
   */
  lemma {:induction false} RelayDrains(s: State, actions: seq<Action>)
    requires Inv(s) && Safe(s) && InLog(s) && FairRun(s, actions)
    ensures Safe(After(s, actions))
    ensures BusyCycles(s, actions) + Unpublished(After(s, actions).rows) <= Unpublished(s.rows) + Appends(actions)
    decreases |actions|
  {
    if actions != [] {
      var a := actions[0];
      if a.RunCycle? {
        FairIsOrderly(s, a.weather);
      }
      StepDrains(s, a);
      StepKeepsInv(s, a);
      StepKeepsInLog(s, a);
      StepKeepsSafe(s, a);
      RelayDrains(Step(s, a), actions[1..]);
    }
  }
}
