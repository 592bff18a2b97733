/**
 What a caller may rely on, for every run of the counter protocol: linearisability
 of the commits, exactly-once effects per idempotency key, a bound on the retry
 loop, and arithmetic that stays inside 64 bits.
 */
module CounterGuarantees {
  import opened Options
  import opened CounterDomain
  import opened EventLog
  import opened CounterRepository
  import opened CounterProtocol

  /**
   The outbox is the exact history of every counter: its events carry versions
   1..n and announce what sequential replay yields, and the stored row is the
   last announcement, absent when there is none.
   */
  lemma OutboxIsTheHistory(actions: seq<Action>, id: CounterId)
    ensures var t := Run(actions).tables;
            var n := CountOf(t.outbox, id);
            && LoadCounter(t, id) == (if n == 0 then None else Some(Counter(DeltaSum(t.outbox, id), n)))
            && OrNew(LoadCounter(t, id)) == StateAfter(t.outbox, id)
            && forall i :: 0 <= i < |t.outbox| && Concerns(t.outbox[i], id) ==>
                 && Announces(t.outbox[i].event.changed, StateAfter(t.outbox[..i], id))
                 && t.outbox[i].event.changed.version == CountOf(t.outbox[..i + 1], id)
  {
    RunKeepsInv(actions);
    var t := Run(actions).tables;
    assert RowMatchesLog(t, id);
    VersionIsCount(t.outbox, id);
    DeltasSumToValue(t.outbox, id);
    forall i | 0 <= i < |t.outbox| && Concerns(t.outbox[i], id)
      ensures && Announces(t.outbox[i].event.changed, StateAfter(t.outbox[..i], id))
              && t.outbox[i].event.changed.version == CountOf(t.outbox[..i + 1], id)
    {
      assert Faithful(t.outbox, i);
      EventCarriesItsOrdinal(t.outbox, i);
    }
  }

  /** Row i is the one effect of call f. */
  predicate EffectOf(s: State, f: Finished, i: nat) {
    CommittedFor(s.history, i, f.client, f.call.ticket)
  }

  /**
   A successful call reports the counter as replay leaves it right after one row
   of the log. Without a key that row is the call's only effect, and it was
   written while the call was running.
   */
  lemma SuccessIsOneLogEntry(actions: seq<Action>, f: Finished) returns (i: nat)
    requires f in Run(actions).finished && f.answer.Success?
    ensures var s := Run(actions);
            && i < f.end && i < |s.tables.outbox| && Concerns(s.tables.outbox[i], f.call.id)
            && s.tables.outbox[i].event.changed.operation == f.call.operation
            && StateAfter(s.tables.outbox[..i + 1], f.call.id) == Counter(f.answer.value, f.answer.version)
            && f.answer.delta == (if EffectOf(s, f, i) then s.tables.outbox[i].event.changed.delta else 0)
            && (f.call.key.None? ==>
                  && f.call.start <= i && EffectOf(s, f, i)
                  && forall j: nat :: EffectOf(s, f, j) ==> j == i)
  {
    RunKeepsInv(actions);
    var s := Run(actions);
    i :| i < f.end && Reported(s.tables, s.history, f.client, f.call, f.answer, i);
    assert Faithful(s.tables.outbox, i);
    assert s.tables.outbox[..i + 1][..i] == s.tables.outbox[..i];
  }

  /** A call that returns an error has changed nothing. */
  lemma ErrorMeansNoEffect(actions: seq<Action>, f: Finished, i: nat)
    requires f in Run(actions).finished && !f.answer.Success?
    ensures !EffectOf(Run(actions), f, i)
  {
    RunKeepsInv(actions);
  }

  /** Real-time order: a call that returned before another began took effect before it. */
  lemma EffectsFollowRealTime(actions: seq<Action>, f: Finished, g: Finished, i: nat, j: nat)
    requires f in Run(actions).finished && g in Run(actions).finished && f.end <= g.call.start
    requires EffectOf(Run(actions), f, i) && EffectOf(Run(actions), g, j)
    ensures i < j
  {
    RunKeepsInv(actions);
  }

  /** Whatever clients retry or race, one key of one counter commits at most one mutation. */
  lemma OneCommitPerKey(actions: seq<Action>, k: Key, i: nat, j: nat)
    requires Keyed(Run(actions).history, i, k) && Keyed(Run(actions).history, j, k)
    ensures i == j
  {
    RunKeepsInv(actions);
  }

  /** Two successes under one key are the same operation with the same answer. */
  lemma KeyedSuccessesAgree(actions: seq<Action>, f: Finished, g: Finished)
    requires f in Run(actions).finished && g in Run(actions).finished
    requires f.call.id == g.call.id && f.call.key == g.call.key && f.call.key.Some?
    requires f.answer.Success? && g.answer.Success?
    ensures f.call.operation == g.call.operation
    ensures f.answer.value == g.answer.value && f.answer.version == g.answer.version
  {
    RunKeepsInv(actions);
    var s := Run(actions);
    var k := (f.call.id, f.call.key.value);
    var i: nat :| i < f.end && Reported(s.tables, s.history, f.client, f.call, f.answer, i);
    var j: nat :| j < g.end && Reported(s.tables, s.history, g.client, g.call, g.answer, j);
    assert Attributed(s.tables.outbox, s.history, i) && Attributed(s.tables.outbox, s.history, j);
    assert Keyed(s.history, i, k) && Keyed(s.history, j, k);
  }

  /** IdempotencyConflict is returned exactly because another operation owns the key. */
  lemma ConflictMeansKeyOwnedByOther(actions: seq<Action>, f: Finished) returns (i: nat)
    requires f in Run(actions).finished && f.answer.ErrIdempotencyConflict?
    ensures f.call.key.Some? && Keyed(Run(actions).history, i, (f.call.id, f.call.key.value))
    ensures Run(actions).history[i].value.call.operation != f.call.operation
  {
    RunKeepsInv(actions);
    i :| Keyed(Run(actions).history, i, (f.call.id, f.call.key.value))
         && Run(actions).history[i].value.call.operation != f.call.operation;
  }

  lemma LastWindowEndsInCall(actions: seq<Action>, f: Finished)
    requires f in Run(actions).finished
    ensures f.answer.ErrCasConflict? ==> |f.failed| == 4 && f.call.start < f.failed[3].fail
  {
    RunKeepsInv(actions);
    if f.answer.ErrCasConflict? {
      assert Contested(Run(actions).history, f.failed[3], f.client, f.call.id);
    }
  }

  /**
   A call whose key was committed by another operation is refused: with a conflict, or,
   only if the key was taken after its last attempt, because it ran out of retries.
   */
  lemma OtherOperationNeverSucceeds(actions: seq<Action>, f: Finished, i: nat)
    requires f in Run(actions).finished && f.call.key.Some?
    requires Keyed(Run(actions).history, i, (f.call.id, f.call.key.value))
    requires Run(actions).history[i].value.call.operation != f.call.operation
    ensures f.answer.ErrIdempotencyConflict? ||
            (f.answer.ErrCasConflict? && |f.failed| == 4 && f.failed[3].fail <= i)
    ensures i < f.call.start ==> f.answer.ErrIdempotencyConflict?
  {
    RunKeepsInv(actions);
    var s := Run(actions);
    if f.answer.Success? {
      var j: nat :| j < f.end && Reported(s.tables, s.history, f.client, f.call, f.answer, j);
      assert Attributed(s.tables.outbox, s.history, j);
      assert Keyed(s.history, j, (f.call.id, f.call.key.value));
    }
    LastWindowEndsInCall(actions, f);
  }

  /** A call begun after its key was committed by its own operation succeeds with the stored result. */
  lemma RepeatedCallSucceeds(actions: seq<Action>, f: Finished, i: nat)
    requires f in Run(actions).finished && f.call.key.Some?
    requires Keyed(Run(actions).history, i, (f.call.id, f.call.key.value)) && i < f.call.start
    requires Run(actions).history[i].value.call.operation == f.call.operation
    ensures var s := Run(actions);
            && f.answer.Success?
            && i < |s.tables.outbox| && s.tables.outbox[i].event.CounterEvent?
            && f.answer.value == s.tables.outbox[i].event.changed.newValue
            && f.answer.version == s.tables.outbox[i].event.changed.version
            && forall j: nat :: !EffectOf(s, f, j)
  {
    RunKeepsInv(actions);
    var s := Run(actions);
    assert Attributed(s.tables.outbox, s.history, i);
    LastWindowEndsInCall(actions, f);
    if f.answer.Success? {
      var j: nat :| j < f.end && Reported(s.tables, s.history, f.client, f.call, f.answer, j);
      assert Attributed(s.tables.outbox, s.history, j);
      assert Keyed(s.history, j, (f.call.id, f.call.key.value));
    }
    forall j: nat | EffectOf(s, f, j)
      ensures Keyed(s.history, j, (f.call.id, f.call.key.value)) && i < j
    {
    }
  }

  /** No reader ever sees a half-done key, so the "still in progress" error is dead code. */
  lemma NeverStillInProgress(actions: seq<Action>, f: Finished)
    requires f in Run(actions).finished
    ensures !f.answer.ErrStillInProgress?
    ensures AllKeysCompleted(Run(actions).tables)
  {
    RunKeepsInv(actions);
  }

  /** CasConflict is returned only after four disjoint windows of the call that each hold a rival's commit. */
  lemma CasConflictNeedsFourRivals(actions: seq<Action>, f: Finished)
    returns (rivals: seq<nat>)
    requires f in Run(actions).finished && f.answer.ErrCasConflict?
    ensures |rivals| == 4 == |f.failed|
    ensures forall k :: 0 <= k < 4 ==>
              && f.call.start <= f.failed[k].load <= rivals[k] < f.failed[k].fail
              && RivalCommit(Run(actions).history, rivals[k], f.client, f.call.id)
    ensures forall k, l :: 0 <= k < l < 4 ==> rivals[k] < rivals[l]
  {
    RunKeepsInv(actions);
    rivals := RivalsOf(Run(actions).history, f.client, f.call.id, f.failed, |Run(actions).history|);
  }

  lemma {:induction false} RivalsOf(history: seq<Option<Commit>>, c: ClientId, id: CounterId,
                                    failed: seq<Window>, end: nat)
    returns (rivals: seq<nat>)
    requires WindowsInv(history, c, id, failed, end)
    ensures |rivals| == |failed|
    ensures forall k :: 0 <= k < |failed| ==>
              failed[k].load <= rivals[k] < failed[k].fail && RivalCommit(history, rivals[k], c, id)
    ensures forall k, l :: 0 <= k < l < |failed| ==> rivals[k] < rivals[l]
  {
    rivals := [];
    for n := 0 to |failed|
      invariant |rivals| == n
      invariant forall k :: 0 <= k < n ==>
                  failed[k].load <= rivals[k] < failed[k].fail && RivalCommit(history, rivals[k], c, id)
    {
      assert Contested(history, failed[n], c, id);
      var j: nat :| failed[n].load <= j < failed[n].fail && RivalCommit(history, j, c, id);
      rivals := rivals + [j];
    }
  }

  // ------------------------------------------------------------- termination

  /** An upper bound on the steps a client still has to take in its call. */
  function StepsLeft(cl: Client): int {
    var attempts := MAX_RETRIES + 1 - |cl.failed|;
    match cl.phase
    case Idle => 0
    case Loading => 3 * attempts + 2
    case Loaded(_, _) => 3 * attempts + 1
    case Checked(_, _) => 3 * attempts
    case KeyTaken(_, _) => 2
    case Answered(_) => 1
  }

  function StepsOf(actions: seq<Action>, c: ClientId): nat {
    if actions == [] then 0
    else StepsOf(actions[..|actions| - 1], c) + (if actions[|actions| - 1] == Advance(c) then 1 else 0)
  }

  predicate Returned(s: State, c: ClientId, call: Call) {
    exists f :: f in s.finished && f.client == c && f.call == call
  }

  /** Nobody else's action moves a client that is inside a call. */
  lemma OthersLeaveCallAlone(s: State, a: Action, c: ClientId)
    requires !ClientOf(s, c).phase.Idle? && a != Advance(c)
    ensures ClientOf(Step(s, a), c) == ClientOf(s, c)
    ensures s.finished <= Step(s, a).finished
  {
  }

  lemma OwnStepShrinksCall(s: State, c: ClientId)
    requires !ClientOf(s, c).phase.Idle?
    requires ClientOf(s, c).phase.InFlight() ==> |ClientOf(s, c).failed| <= MAX_RETRIES
    ensures var cl, cl' := ClientOf(s, c), ClientOf(Step(s, Advance(c)), c);
            && cl'.call == cl.call
            && 0 <= StepsLeft(cl') < StepsLeft(cl)
            && (cl'.phase.Idle? ==> Returned(Step(s, Advance(c)), c, cl.call))
  {
    var s' := Step(s, Advance(c));
    if ClientOf(s', c).phase.Idle? {
      var f := s'.finished[|s'.finished| - 1];
      assert f in s'.finished && f.client == c && f.call == ClientOf(s, c).call;
    }
  }

  /**
   The retry loop is bounded under every schedule: once a client has taken as many
   steps as its call has left, the call has returned, whatever the others did.
   */
  lemma {:induction false} CallReturns(s: State, c: ClientId, actions: seq<Action>)
    requires Inv(s) && !ClientOf(s, c).phase.Idle?
    ensures var s' := RunFrom(s, actions);
            var call := ClientOf(s, c).call;
            || Returned(s', c, call)
            || (&& !ClientOf(s', c).phase.Idle? && ClientOf(s', c).call == call
                && StepsLeft(ClientOf(s', c)) + StepsOf(actions, c) <= StepsLeft(ClientOf(s, c)))
  {
    if actions != [] {
      var init := actions[..|actions| - 1];
      var call := ClientOf(s, c).call;
      CallReturns(s, c, init);
      RunFromKeepsInv(s, init);
      var mid := RunFrom(s, init);
      var s' := RunFrom(s, actions);
      assert s' == Step(mid, actions[|actions| - 1]);
      if Returned(mid, c, call) {
        var f :| f in mid.finished && f.client == c && f.call == call;
        FinishedOnlyGrows(mid, actions[|actions| - 1]);
        assert f in s'.finished;
      } else {
        assert ClientInv(mid.tables, mid.history, c, ClientOf(mid, c));
        if actions[|actions| - 1] == Advance(c) {
          OwnStepShrinksCall(mid, c);
        } else {
          OthersLeaveCallAlone(mid, actions[|actions| - 1], c);
        }
      }
    }
  }

  lemma FinishedOnlyGrows(s: State, a: Action)
    ensures s.finished <= Step(s, a).finished
  {
  }

  /** Fourteen steps of its own always bring a call home. */
  lemma CallReturnsWithinFourteenSteps(before: seq<Action>, c: ClientId, id: CounterId, key: Option<string>,
                                       op: Operation, after: seq<Action>)
    requires ClientOf(Run(before), c).phase.Idle?
    requires StepsOf(after, c) >= 14
    ensures var s := Step(Run(before), Begin(c, id, key, op));
            Returned(RunFrom(s, after), c, ClientOf(s, c).call)
  {
    RunKeepsInv(before);
    StepKeepsInv(Run(before), Begin(c, id, key, op));
    var s := Step(Run(before), Begin(c, id, key, op));
    CallReturns(s, c, after);
    RunFromKeepsInv(s, after);
    assert ClientInv(RunFrom(s, after).tables, RunFrom(s, after).history, c, ClientOf(RunFrom(s, after), c));
  }

  // -------------------------------------------------------------- arithmetic

  /** Until a counter has seen 2^63 - 1 mutations, nothing the service computes overflows an i64. */
  lemma ArithmeticFits(actions: seq<Action>, c: ClientId)
    requires var cl := ClientOf(Run(actions), c);
             cl.phase.Checked? && cl.phase.snapshot.version < I64_MAX
    ensures var cl := ClientOf(Run(actions), c);
            var m := MutationOf(cl);
            FitsI64(m.newValue) && FitsI64(m.newVersion) && FitsI64(m.event.delta)
  {
    RunKeepsInv(actions);
    var s := Run(actions);
    var cl := ClientOf(s, c);
    assert ClientInv(s.tables, s.history, c, cl);
    ValueBoundedByVersion(s.tables.outbox[..cl.phase.at], cl.call.id);
  }
}
