/**
 Guarded execution: the BFF guard, the bot dispatcher and the AI invocation all
 reserve quota, do their work, and settle the reservation. The order of the port
 calls differs: the BFF commits and then meters, the AI path meters and then commits.

 Any number of calls run interleaved; each port call is one step, it may fail, and a
 call may be dropped at any point. The call number doubles as its reservation id.
 */
module Guards {
  import opened Options
  import opened MapSums
  import opened Quota

  datatype Caller = Bff | Bot | Ai

  datatype Phase =
    | Rejected
    | Working
    | Committing
    | Recording
    | Releasing
    | Finished(succeeded: bool)
    | Unmetered
    | Leaked

  /** `tokens` is what an AI call will meter; the BFF meters one unit, the bot nothing. */
  datatype GuardedCall = GuardedCall(
    caller: Caller, owner: Pair, quantity: nat, tokens: nat, worked: bool, phase: Phase)
  {
    /** The call still owns an unsettled reservation. */
    predicate Holding() {
      || phase.Working? || phase.Committing? || phase.Releasing?
      || (phase.Recording? && caller.Ai?)
    }

    /** The status its reservation must have; Released stands for none when the call was rejected. */
    function Expected(): Status {
      match phase
      case Rejected => Released
      case Working => Reserved
      case Committing => Reserved
      case Releasing => Reserved
      case Recording => if caller.Ai? then Reserved else Committed
      case Finished(ok) => if ok then Committed else Released
      case Unmetered => Committed
      case Leaked => Reserved
    }

    function Metered(): nat {
      if caller.Bff? then 1 else tokens
    }
  }

  datatype UsageEvent = UsageEvent(call: nat, owner: Pair, quantity: nat)

  datatype State = State(ledger: Ledger, usage: seq<UsageEvent>, calls: map<nat, GuardedCall>)

  datatype Action =
    | Configure(owner: Pair, limit: nat)
    | Begin(n: nat, caller: Caller, owner: Pair, quantity: nat, up: bool)
    | WorkDone(n: nat, ok: bool, tokens: nat)
    | PortCall(n: nat, ok: bool)
    | Drop(n: nat)

  function SetPhase(s: State, n: nat, phase: Phase): State
    requires n in s.calls
  {
    s.(calls := s.calls[n := s.calls[n].(phase := phase)])
  }

  /** Reserve; the BFF always asks for one unit. A reserve call that fails has reserved nothing. */
  ghost function BeginStep(s: State, n: nat, caller: Caller, owner: Pair, quantity: nat, up: bool): State {
    var q := if caller.Bff? then 1 else quantity;
    var (ledger, reply) := MemStep(s.ledger, Reserve(owner.0, owner.1, q, n));
    if up && reply.Accepted? then State(ledger, s.usage, s.calls[n := GuardedCall(caller, owner, q, 0, false, Working)])
    else s.(calls := s.calls[n := GuardedCall(caller, owner, q, 0, false, Rejected)])
  }

  function WorkStep(s: State, n: nat, ok: bool, tokens: nat): State
    requires n in s.calls
  {
    var call := s.calls[n];
    var next := if !ok then Releasing else if call.caller.Ai? then Recording else Committing;
    s.(calls := s.calls[n := call.(worked := ok, tokens := tokens, phase := next)])
  }

  /** The next quota or usage call of n, which succeeds or fails. */
  ghost function PortStep(s: State, n: nat, ok: bool): State
    requires n in s.calls
  {
    var call := s.calls[n];
    match call.phase
    case Committing =>
      if !ok then SetPhase(s, n, Leaked)
      else
        SetPhase(s, n, if call.caller.Bff? then Recording else Finished(true))
          .(ledger := MemStep(s.ledger, Commit(n)).0)
    case Recording =>
      if !ok then SetPhase(s, n, if call.caller.Ai? then Leaked else Unmetered)
      else
        SetPhase(s, n, if call.caller.Ai? then Committing else Finished(true))
          .(usage := s.usage + [UsageEvent(n, call.owner, call.Metered())])
    case Releasing =>
      if !ok then SetPhase(s, n, Leaked)
      else SetPhase(s, n, Finished(false)).(ledger := MemStep(s.ledger, Release(n)).0)
    case _ => s
  }

  /** The future is dropped: nothing else of the call runs. */
  function DropStep(s: State, n: nat): State
    requires n in s.calls
  {
    if s.calls[n].Holding() then SetPhase(s, n, Leaked)
    else if s.calls[n].phase.Recording? then SetPhase(s, n, Unmetered)
    else s
  }

  ghost function Step(s: State, a: Action): State {
    match a
    case Configure(owner, limit) => s.(ledger := MemStep(s.ledger, SetLimit(owner.0, owner.1, limit)).0)
    case Begin(n, caller, owner, quantity, up) =>
      if n in s.calls then s else BeginStep(s, n, caller, owner, quantity, up)
    case WorkDone(n, ok, tokens) =>
      if n in s.calls && s.calls[n].phase.Working? then WorkStep(s, n, ok, tokens) else s
    case PortCall(n, ok) => if n in s.calls then PortStep(s, n, ok) else s
    case Drop(n) => if n in s.calls then DropStep(s, n) else s
  }

  const INITIAL := State(EMPTY_LEDGER, [], map[])

  ghost function Run(actions: seq<Action>): State {
    if actions == [] then INITIAL
    else Step(Run(actions[..|actions| - 1]), actions[|actions| - 1])
  }

  // ----------------------------------------------------------------- settlement

  predicate CallInv(s: State, n: nat)
    requires n in s.calls
  {
    var call := s.calls[n];
    && (n in s.ledger.reservations <==> !call.phase.Rejected?)
    && (n in s.ledger.reservations ==>
          s.ledger.reservations[n] == Reservation(call.owner.0, call.owner.1, call.quantity, call.Expected()))
    && (call.phase.Committing? || call.phase.Recording? || call.phase.Unmetered? ==> call.worked)
    && (call.phase.Releasing? ==> !call.worked)
    && (call.phase.Finished? ==> call.phase.succeeded == call.worked)
    && (call.phase.Recording? || call.phase.Unmetered? ==> !call.caller.Bot?)
    && (call.phase.Unmetered? ==> call.caller.Bff?)
  }

  ghost predicate Inv(s: State) {
    && (forall n :: n in s.calls ==> CallInv(s, n))
    && (forall n :: n in s.ledger.reservations ==> n in s.calls)
  }

  /** A step that changes only call n and its reservation needs to be checked only there. */
  lemma LocalStepKeepsInv(s: State, s': State, n: nat)
    requires Inv(s)
    requires n in s'.calls && s'.calls == s.calls[n := s'.calls[n]]
    requires s'.ledger.reservations - {n} == s.ledger.reservations - {n}
    requires CallInv(s', n)
    ensures Inv(s')
  {
    forall m | m in s'.calls
      ensures CallInv(s', m)
    {
      if m != n {
        assert CallInv(s, m);
        assert m in s'.ledger.reservations <==> m in s'.ledger.reservations - {n};
        assert m in s.ledger.reservations <==> m in s.ledger.reservations - {n};
        assert m in s.ledger.reservations ==>
                 s.ledger.reservations[m] == (s.ledger.reservations - {n})[m] == s'.ledger.reservations[m];
      }
    }
    forall m | m in s'.ledger.reservations
      ensures m in s'.calls
    {
      assert m != n ==> m in s'.ledger.reservations - {n};
    }
  }

  lemma BeginKeepsInv(s: State, n: nat, caller: Caller, owner: Pair, quantity: nat, up: bool)
    requires Inv(s) && n !in s.calls
    ensures Inv(BeginStep(s, n, caller, owner, quantity, up))
  {
    LocalStepKeepsInv(s, BeginStep(s, n, caller, owner, quantity, up), n);
  }

  lemma WorkKeepsInv(s: State, n: nat, ok: bool, tokens: nat)
    requires Inv(s) && n in s.calls && s.calls[n].phase.Working?
    ensures Inv(WorkStep(s, n, ok, tokens))
  {
    assert CallInv(s, n);
    LocalStepKeepsInv(s, WorkStep(s, n, ok, tokens), n);
  }

  lemma PortKeepsInv(s: State, n: nat, ok: bool)
    requires Inv(s) && n in s.calls
    ensures Inv(PortStep(s, n, ok))
  {
    assert CallInv(s, n);
    LocalStepKeepsInv(s, PortStep(s, n, ok), n);
  }

  lemma DropKeepsInv(s: State, n: nat)
    requires Inv(s) && n in s.calls
    ensures Inv(DropStep(s, n))
  {
    assert CallInv(s, n);
    LocalStepKeepsInv(s, DropStep(s, n), n);
  }

  lemma StepKeepsInv(s: State, a: Action)
    requires Inv(s)
    ensures Inv(Step(s, a))
  {
    match a
    case Configure(_, _) =>
      forall n | n in s.calls ensures CallInv(Step(s, a), n) { assert CallInv(s, n); }
    case Begin(n, caller, owner, quantity, up) =>
      if n !in s.calls { BeginKeepsInv(s, n, caller, owner, quantity, up); }
    case WorkDone(n, ok, tokens) =>
      if n in s.calls && s.calls[n].phase.Working? { WorkKeepsInv(s, n, ok, tokens); }
    case PortCall(n, ok) => if n in s.calls { PortKeepsInv(s, n, ok); }
    case Drop(n) => if n in s.calls { DropKeepsInv(s, n); }
  }

  lemma {:induction false} RunKeepsInv(actions: seq<Action>)
    ensures Inv(Run(actions))
  {
    if actions != [] {
      RunKeepsInv(actions[..|actions| - 1]);
      StepKeepsInv(Run(actions[..|actions| - 1]), actions[|actions| - 1]);
    }
  }

  /**
   Open reservations are exactly those of calls that have not settled yet or that
   lost their settlement; a finished call has committed if its work succeeded and
   released otherwise.
   */
  lemma ReservationsFollowCalls(actions: seq<Action>, n: nat)
    ensures var s := Run(actions);
            && (n in s.ledger.reservations && s.ledger.reservations[n].status.Reserved?
                <==> n in s.calls && (s.calls[n].Holding() || s.calls[n].phase.Leaked?))
            && (n in s.calls && s.calls[n].phase.Finished? ==>
                  && n in s.ledger.reservations
                  && s.ledger.reservations[n].status == (if s.calls[n].worked then Committed else Released))
  {
    RunKeepsInv(actions);
    assert n in Run(actions).calls ==> CallInv(Run(actions), n);
  }

  predicate IsSettled(s: State, n: nat) {
    n in s.ledger.reservations && !s.ledger.reservations[n].status.Reserved?
  }

  lemma StepKeepsSettled(s: State, a: Action, n: nat)
    requires Inv(s) && IsSettled(s, n)
    ensures IsSettled(Step(s, a), n) && Step(s, a).ledger.reservations[n] == s.ledger.reservations[n]
  {
    assert CallInv(s, n);
  }

  /** A reservation is settled once: in no continuation of the run does its row change again. */
  lemma {:induction false} SettledIsFinal(actions: seq<Action>, more: seq<Action>, n: nat)
    requires IsSettled(Run(actions), n)
    ensures IsSettled(Run(actions + more), n)
    ensures Run(actions + more).ledger.reservations[n] == Run(actions).ledger.reservations[n]
  {
    if more == [] {
      assert actions + more == actions;
    } else {
      var k := |more| - 1;
      var before := actions + more[..k];
      SettledIsFinal(actions, more[..k], n);
      assert (actions + more)[..|actions + more| - 1] == before;
      RunKeepsInv(before);
      StepKeepsSettled(Run(before), more[k], n);
    }
  }

  // ---------------------------------------------------------------------- leaks

  /** The action that costs call n its settlement: dropped while holding, or its quota or meter call failed. */
  predicate LosesSettlement(s: State, a: Action, n: nat) {
    && n in s.calls && s.calls[n].Holding()
    && (a == Drop(n) || (a == PortCall(n, false) && !s.calls[n].phase.Working?))
  }

  ghost predicate Lost(actions: seq<Action>, n: nat) {
    actions != [] &&
    (var k := |actions| - 1;
     Lost(actions[..k], n) || LosesSettlement(Run(actions[..k]), actions[k], n))
  }

  predicate IsLeaked(s: State, n: nat) {
    n in s.calls && s.calls[n].phase.Leaked?
  }

  lemma StepLeaks(s: State, a: Action, n: nat)
    ensures IsLeaked(Step(s, a), n) <==> IsLeaked(s, n) || LosesSettlement(s, a, n)
  {
  }

  lemma {:induction false} LeakedIffLost(actions: seq<Action>, n: nat)
    ensures IsLeaked(Run(actions), n) <==> Lost(actions, n)
  {
    if actions != [] {
      var k := |actions| - 1;
      LeakedIffLost(actions[..k], n);
      StepLeaks(Run(actions[..k]), actions[k], n);
    }
  }

  predicate IsOpen(s: State, n: nat) {
    n in s.ledger.reservations && s.ledger.reservations[n].status.Reserved?
  }

  lemma RunAppend(actions: seq<Action>, a: Action)
    ensures Run(actions + [a]) == Step(Run(actions), a)
  {
    assert (actions + [a])[..|actions|] == actions;
  }

  lemma {:induction false} LostStaysLost(actions: seq<Action>, more: seq<Action>, n: nat)
    requires Lost(actions, n)
    ensures Lost(actions + more, n)
  {
    if more == [] {
      assert actions + more == actions;
    } else {
      LostStaysLost(actions, more[..|more| - 1], n);
      assert (actions + more)[..|actions + more| - 1] == actions + more[..|more| - 1];
    }
  }

  /** What settles a call that still holds its reservation: the rest of its own steps, with ports up. */
  function RestOf(call: GuardedCall, n: nat): seq<Action> {
    match call.phase
    case Working => [WorkDone(n, false, 0)] + [PortCall(n, true)]
    case Recording => [PortCall(n, true)] + [PortCall(n, true)]
    case _ => [PortCall(n, true)]
  }

  lemma FirstMove(actions: seq<Action>, n: nat)
    requires n in Run(actions).calls && Run(actions).calls[n].Holding()
    requires Run(actions).calls[n].phase.Working? || Run(actions).calls[n].phase.Recording?
    ensures var s := Run(actions + [RestOf(Run(actions).calls[n], n)[0]]);
            n in s.calls && (s.calls[n].phase.Releasing? || s.calls[n].phase.Committing?)
  {
    RunAppend(actions, RestOf(Run(actions).calls[n], n)[0]);
  }

  lemma LastMove(actions: seq<Action>, n: nat)
    requires n in Run(actions).calls
    requires Run(actions).calls[n].phase.Releasing? || Run(actions).calls[n].phase.Committing?
    ensures !IsOpen(Run(actions + [PortCall(n, true)]), n)
  {
    RunKeepsInv(actions);
    assert CallInv(Run(actions), n);
    RunAppend(actions, PortCall(n, true));
  }

  /** As long as a call holds its reservation, finishing it settles the reservation. */
  lemma HoldingCanSettle(actions: seq<Action>, n: nat)
    requires n in Run(actions).calls && Run(actions).calls[n].Holding()
    ensures !IsOpen(Run(actions + RestOf(Run(actions).calls[n], n)), n)
  {
    var rest := RestOf(Run(actions).calls[n], n);
    if |rest| == 1 {
      LastMove(actions, n);
    } else {
      FirstMove(actions, n);
      LastMove(actions + [rest[0]], n);
      assert actions + rest == actions + [rest[0]] + [PortCall(n, true)];
    }
  }

  /**
   A reservation stays open in every continuation of the run if and only if its call
   was dropped, or a quota or meter call of it failed, before it was settled.
   */
  lemma OpenForeverIffLost(actions: seq<Action>, n: nat)
    ensures (forall more :: IsOpen(Run(actions + more), n)) <==> Lost(actions, n)
  {
    if Lost(actions, n) {
      forall more
        ensures IsOpen(Run(actions + more), n)
      {
        LostStaysLost(actions, more, n);
        LeakedIffLost(actions + more, n);
        ReservationsFollowCalls(actions + more, n);
      }
    } else {
      ReservationsFollowCalls(actions, n);
      LeakedIffLost(actions, n);
      if IsOpen(Run(actions), n) {
        HoldingCanSettle(actions, n);
      } else {
        assert actions + [] == actions;
      }
    }
  }

  /** A call that is begun and dropped holds its unit for ever. */
  lemma DropLeaks(more: seq<Action>)
    ensures IsOpen(Run([Begin(0, Bff, ("t", "c"), 1, true)] + [Drop(0)] + more), 0)
  {
    var one := [Begin(0, Bff, ("t", "c"), 1, true)];
    RunAppend([], one[0]);
    assert [] + [one[0]] == one;
    assert (one + [Drop(0)])[..1] == one;
    assert Lost(one + [Drop(0)], 0);
    OpenForeverIffLost(one + [Drop(0)], 0);
  }

  /** No failing port, no dropped call. */
  predicate Smooth(actions: seq<Action>) {
    forall i :: 0 <= i < |actions| ==> !actions[i].Drop? && (actions[i].PortCall? ==> actions[i].ok)
  }

  lemma SmoothRunsSettleEverything(actions: seq<Action>, n: nat)
    requires Smooth(actions)
    ensures var s := Run(actions);
            n in s.ledger.reservations && s.ledger.reservations[n].status.Reserved?
            <==> n in s.calls && s.calls[n].Holding()
  {
    ReservationsFollowCalls(actions, n);
    LeakedIffLost(actions, n);
    SmoothLosesNothing(actions, n);
  }

  lemma {:induction false} SmoothLosesNothing(actions: seq<Action>, n: nat)
    requires Smooth(actions)
    ensures !Lost(actions, n)
  {
    if actions != [] {
      SmoothLosesNothing(actions[..|actions| - 1], n);
    }
  }

  // ------------------------------------------------------------------- metering

  function UsageOf(usage: seq<UsageEvent>, p: Pair): nat {
    if usage == [] then 0
    else
      var e := usage[|usage| - 1];
      UsageOf(usage[..|usage| - 1], p) + (if e.owner == p then e.quantity else 0)
  }

  /** Committed by the BFF on pair p but not metered yet, or never. */
  function Unrecorded(p: Pair): GuardedCall -> nat {
    (c: GuardedCall) =>
      if c.owner == p && ((c.phase.Recording? && c.caller.Bff?) || c.phase.Unmetered?) then 1 else 0
  }

  /** Only the BFF works on pair p. */
  predicate BffOnly(s: State, p: Pair) {
    forall n :: n in s.calls ==> BffCall(s.calls[n], p)
  }

  ghost predicate MeterInv(s: State, p: Pair) {
    Sum(s.ledger.reservations, CommittedFor(p)) == UsageOf(s.usage, p) + Sum(s.calls, Unrecorded(p))
  }

  lemma UsageAppend(usage: seq<UsageEvent>, e: UsageEvent, p: Pair)
    ensures UsageOf(usage + [e], p) == UsageOf(usage, p) + (if e.owner == p then e.quantity else 0)
  {
    assert (usage + [e])[..|usage|] == usage;
  }

  /** What call n contributes to committed quota, and to what is not recorded yet. */
  function CommittedBy(rs: map<ReservationId, Reservation>, n: nat, p: Pair): nat {
    if n in rs then CommittedFor(p)(rs[n]) else 0
  }

  function UnrecordedBy(calls: map<nat, GuardedCall>, n: nat, p: Pair): nat {
    if n in calls then Unrecorded(p)(calls[n]) else 0
  }

  /** A step of call n keeps the balance if its own contributions do. */
  lemma MeterShift(s: State, s': State, n: nat, p: Pair)
    requires MeterInv(s, p) && n in s'.calls && s'.calls == s.calls[n := s'.calls[n]]
    requires var rs, rs' := s.ledger.reservations, s'.ledger.reservations;
             rs' == rs || (n in rs' && rs' == rs[n := rs'[n]])
    requires CommittedBy(s'.ledger.reservations, n, p) + UsageOf(s.usage, p) + UnrecordedBy(s.calls, n, p) ==
             CommittedBy(s.ledger.reservations, n, p) + UsageOf(s'.usage, p) + UnrecordedBy(s'.calls, n, p)
    ensures MeterInv(s', p)
  {
    SumInsert(s.calls, n, s'.calls[n], Unrecorded(p));
    if n in s'.ledger.reservations {
      SumInsert(s.ledger.reservations, n, s'.ledger.reservations[n], CommittedFor(p));
    }
  }

  lemma BeginKeepsMeter(s: State, n: nat, caller: Caller, owner: Pair, quantity: nat, up: bool, p: Pair)
    requires MeterInv(s, p) && n !in s.calls && n !in s.ledger.reservations
    ensures MeterInv(BeginStep(s, n, caller, owner, quantity, up), p)
  {
    MeterShift(s, BeginStep(s, n, caller, owner, quantity, up), n, p);
  }

  lemma WorkKeepsMeter(s: State, n: nat, ok: bool, tokens: nat, p: Pair)
    requires MeterInv(s, p) && n in s.calls && s.calls[n].phase.Working?
    requires s.calls[n].owner == p ==> s.calls[n].caller.Bff?
    ensures MeterInv(WorkStep(s, n, ok, tokens), p)
  {
    MeterShift(s, WorkStep(s, n, ok, tokens), n, p);
  }

  lemma DropKeepsMeter(s: State, n: nat, p: Pair)
    requires MeterInv(s, p) && n in s.calls && CallInv(s, n)
    ensures MeterInv(DropStep(s, n), p)
  {
    assert DropStep(s, n).calls == s.calls[n := DropStep(s, n).calls[n]];
    MeterShift(s, DropStep(s, n), n, p);
  }

  /** The BFF works alone on p, with one unit per call. */
  predicate BffCall(call: GuardedCall, p: Pair) {
    call.owner == p ==> call.caller.Bff? && call.quantity == 1
  }

  lemma CommitKeepsMeter(s: State, n: nat, p: Pair)
    requires MeterInv(s, p) && n in s.calls && CallInv(s, n) && BffCall(s.calls[n], p) && s.calls[n].phase.Committing?
    ensures MeterInv(PortStep(s, n, true), p)
  {
    MeterShift(s, PortStep(s, n, true), n, p);
  }

  lemma RecordKeepsMeter(s: State, n: nat, p: Pair)
    requires MeterInv(s, p) && n in s.calls && BffCall(s.calls[n], p) && s.calls[n].phase.Recording?
    ensures MeterInv(PortStep(s, n, true), p)
  {
    UsageAppend(s.usage, UsageEvent(n, s.calls[n].owner, s.calls[n].Metered()), p);
    MeterShift(s, PortStep(s, n, true), n, p);
  }

  lemma ReleaseKeepsMeter(s: State, n: nat, p: Pair)
    requires MeterInv(s, p) && n in s.calls && CallInv(s, n) && s.calls[n].phase.Releasing?
    ensures MeterInv(PortStep(s, n, true), p)
  {
    MeterShift(s, PortStep(s, n, true), n, p);
  }

  lemma FailureKeepsMeter(s: State, n: nat, p: Pair)
    requires MeterInv(s, p) && n in s.calls && CallInv(s, n)
    ensures MeterInv(PortStep(s, n, false), p)
  {
    assert PortStep(s, n, false).calls == s.calls[n := PortStep(s, n, false).calls[n]];
    MeterShift(s, PortStep(s, n, false), n, p);
  }

  lemma PortKeepsMeter(s: State, n: nat, ok: bool, p: Pair)
    requires MeterInv(s, p) && n in s.calls && CallInv(s, n) && BffCall(s.calls[n], p)
    ensures MeterInv(PortStep(s, n, ok), p)
  {
    if !ok {
      FailureKeepsMeter(s, n, p);
    } else {
      match s.calls[n].phase
      case Committing => CommitKeepsMeter(s, n, p);
      case Recording => RecordKeepsMeter(s, n, p);
      case Releasing => ReleaseKeepsMeter(s, n, p);
      case _ =>
    }
  }

  lemma StepKeepsMeter(s: State, a: Action, p: Pair)
    requires Inv(s) && BffOnly(s, p) && MeterInv(s, p)
    ensures MeterInv(Step(s, a), p)
  {
    match a
    case Configure(_, _) =>
    case Begin(n, caller, owner, quantity, up) =>
      if n !in s.calls { BeginKeepsMeter(s, n, caller, owner, quantity, up, p); }
    case WorkDone(n, ok, tokens) =>
      if n in s.calls && s.calls[n].phase.Working? { WorkKeepsMeter(s, n, ok, tokens, p); }
    case Drop(n) => if n in s.calls { DropKeepsMeter(s, n, p); }
    case PortCall(n, ok) => if n in s.calls { PortKeepsMeter(s, n, ok, p); }
  }

  lemma BffOnlyBefore(s: State, a: Action, p: Pair)
    requires BffOnly(Step(s, a), p)
    ensures BffOnly(s, p)
  {
    forall n | n in s.calls
      ensures BffCall(s.calls[n], p)
    {
      assert n in Step(s, a).calls && BffCall(Step(s, a).calls[n], p);
    }
  }

  /** On a pair only the BFF uses, committed quota is metered usage plus what is between commit and meter. */
  lemma {:induction false} CommittedIsMeteredPlusPending(actions: seq<Action>, p: Pair)
    requires BffOnly(Run(actions), p)
    ensures MeterInv(Run(actions), p)
  {
    if actions != [] {
      var n := |actions| - 1;
      BffOnlyBefore(Run(actions[..n]), actions[n], p);
      CommittedIsMeteredPlusPending(actions[..n], p);
      RunKeepsInv(actions[..n]);
      StepKeepsMeter(Run(actions[..n]), actions[n], p);
    }
  }

  /** With no commit in progress and no failed meter, usage and committed quota are equal. */
  lemma UsageEqualsCommittedAtRest(actions: seq<Action>, p: Pair)
    requires BffOnly(Run(actions), p)
    requires forall n :: n in Run(actions).calls && Run(actions).calls[n].owner == p ==>
               !Run(actions).calls[n].phase.Recording? && !Run(actions).calls[n].phase.Unmetered?
    ensures Sum(Run(actions).ledger.reservations, CommittedFor(p)) == UsageOf(Run(actions).usage, p)
  {
    CommittedIsMeteredPlusPending(actions, p);
    SumZero(Run(actions).calls, Unrecorded(p));
  }

  // ------------------------------------------------- the callers, one at a time

  /** A state with no other call in it. */
  ghost function Alone(ledger: Ledger, usage: seq<UsageEvent>): State {
    State(ledger, usage, map[])
  }

  /** An AI call after its reserve and the work of the provider. */
  ghost function Begun(ledger: Ledger, usage: seq<UsageEvent>, n: nat, owner: Pair, maxTokens: nat, reserveUp: bool,
                       completes: bool, totalTokens: nat): State {
    Step(Step(Alone(ledger, usage), Begin(n, Ai, owner, maxTokens, reserveUp)), WorkDone(n, completes, totalTokens))
  }

  /**
   The three callers as they are written, with the outcome of the guarded work and of
   each port as parameters. Their effects are those of the steps above in a row.
   */
  class CommercialStack {
    const quota: InMemoryQuotaLedger
    var usage: seq<UsageEvent>

    constructor (quota: InMemoryQuotaLedger)
      ensures this.quota == quota && usage == []
    {
      this.quota, usage := quota, [];
    }

    /** BFF: one unit per write, whatever is written; commit or release come later, from the guard. */
    method ReserveCounterWrite(n: nat, owner: Pair, reserveUp: bool) returns (phase: Phase)
      modifies quota
      ensures forall quantity ::
                var s := Step(Alone(old(quota.Contents()), usage), Begin(n, Bff, owner, quantity, reserveUp));
                quota.Contents() == s.ledger && usage == s.usage && phase == s.calls[n].phase
    {
      if !reserveUp {
        return Rejected;
      }
      var decision := quota.ReserveQuota(owner.0, owner.1, 1, n);
      return if decision.Denied? then Rejected else Working;
    }

    /** Bot: execute, then commit or release. */
    method Dispatch(n: nat, owner: Pair, quantity: nat, reserveUp: bool, executes: bool, quotaUp: bool)
      returns (phase: Phase)
      modifies quota
      ensures var s := Step(Alone(old(quota.Contents()), usage), Begin(n, Bot, owner, quantity, reserveUp));
              var s' := Step(Step(s, WorkDone(n, executes, 0)), PortCall(n, quotaUp));
              quota.Contents() == s'.ledger && usage == s'.usage && phase == s'.calls[n].phase
    {
      if !reserveUp {
        return Rejected;
      }
      var decision := quota.ReserveQuota(owner.0, owner.1, quantity, n);
      if decision.Denied? {
        return Rejected;
      }
      if !quotaUp {
        return Leaked;
      }
      if executes {
        var _ := quota.CommitReservation(n);
      } else {
        var _ := quota.ReleaseReservation(n);
      }
      return Finished(executes);
    }

    /** AI: complete, then meter and commit, or release. */
    method Invoke(n: nat, owner: Pair, maxTokens: nat, reserveUp: bool, completes: bool, totalTokens: nat,
                  first: bool, second: bool)
      returns (phase: Phase)
      modifies this`usage, quota
      ensures var s := Begun(old(quota.Contents()), old(usage), n, owner, maxTokens, reserveUp, completes, totalTokens);
              var s' := Step(Step(s, PortCall(n, first)), PortCall(n, second));
              quota.Contents() == s'.ledger && usage == s'.usage && n in s'.calls && phase == s'.calls[n].phase
    {
      ghost var s := Begun(quota.Contents(), usage, n, owner, maxTokens, reserveUp, completes, totalTokens);
      if !reserveUp {
        return Rejected;
      }
      var decision := quota.ReserveQuota(owner.0, owner.1, maxTokens, n);
      if decision.Denied? {
        return Rejected;
      }
      assert s.ledger == quota.Contents() && s.usage == usage;
      assert s.calls == map[n := GuardedCall(Ai, owner, maxTokens, totalTokens, completes,
                                             if completes then Recording else Releasing)];
      if !first {
        return Leaked;
      }
      if !completes {
        var _ := quota.ReleaseReservation(n);
        return Finished(false);
      }
      usage := usage + [UsageEvent(n, owner, totalTokens)];
      if !second {
        return Leaked;
      }
      var _ := quota.CommitReservation(n);
      return Finished(true);
    }
  }

  /** The BFF guard owns its reservation until commit or release takes it. */
  class CounterWriteGuard {
    const stack: CommercialStack
    const owner: Pair
    var reservation: Option<nat>

    constructor (stack: CommercialStack, owner: Pair, n: nat)
      ensures this.stack == stack && this.owner == owner && reservation == Some(n)
    {
      this.stack, this.owner, reservation := stack, owner, Some(n);
    }

    /** The state of a run in which only this guard's call exists, with its work just done. */
    ghost function Settling(n: nat, worked: bool): State
      reads this, stack, stack.quota
    {
      var phase := if worked then Committing else Releasing;
      State(stack.quota.Contents(), stack.usage, map[n := GuardedCall(Bff, owner, 1, 0, worked, phase)])
    }

    method Commit(quotaUp: bool, meterUp: bool) returns (ok: bool)
      modifies this`reservation, stack`usage, stack.quota
      ensures reservation == None
      ensures old(reservation).None? ==>
                ok && stack.quota.Contents() == old(stack.quota.Contents()) && stack.usage == old(stack.usage)
      ensures old(reservation).Some? ==>
                var n := old(reservation).value;
                var s := Step(Step(old(Settling(n, true)), PortCall(n, quotaUp)), PortCall(n, meterUp));
                && stack.quota.Contents() == s.ledger && stack.usage == s.usage
                && (ok <==> s.calls[n].phase == Finished(true))
    {
      if reservation.None? {
        return true;
      }
      var n := reservation.value;
      reservation := None;
      if !quotaUp {
        return false;
      }
      var _ := stack.quota.CommitReservation(n);
      if !meterUp {
        return false;
      }
      stack.usage := stack.usage + [UsageEvent(n, owner, 1)];
      return true;
    }

    method Release(quotaUp: bool)
      modifies this`reservation, stack.quota
      ensures reservation == None
      ensures old(reservation).None? ==> stack.quota.Contents() == old(stack.quota.Contents())
      ensures old(reservation).Some? ==>
                var n := old(reservation).value;
                stack.quota.Contents() == Step(old(Settling(n, false)), PortCall(n, quotaUp)).ledger
    {
      if reservation.Some? {
        var n := reservation.value;
        reservation := None;
        if quotaUp {
          var _ := stack.quota.ReleaseReservation(n);
        }
      }
    }
  }
}
