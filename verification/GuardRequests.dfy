/**
 Guarded calls against what their callers asked for: over every run, each call reserves
 and meters what the action that began it and the work it did say, and it is rejected
 exactly when the requested units do not fit.
 */
module GuardRequests {
  import opened Options
  import opened MapSums
  import Quota
  import opened Guards

  // -------------------------------------------------------------- what was asked

  /** The i-th action is the one that begins its call; later ones with the same number are ignored. */
  predicate FirstBegin(actions: seq<Action>, i: nat) {
    && i < |actions| && actions[i].Begin?
    && forall j :: 0 <= j < i && actions[j].Begin? ==> actions[j].n != actions[i].n
  }

  /** The BFF asks for one unit per write, the bot for what its route says, the AI for its token limit. */
  predicate AsksFor(a: Action, units: nat)
    requires a.Begin?
  {
    match a.caller
    case Bff => units == 1
    case Bot => units == a.quantity
    case Ai => units == a.quantity
  }

  predicate AsAsked(call: GuardedCall, a: Action)
    requires a.Begin?
  {
    call.caller == a.caller && call.owner == a.owner && AsksFor(a, call.quantity)
  }

  /** No step changes who a call belongs to or what it asked for, and only Begin makes a call. */
  lemma StepKeepsRequests(s: State, a: Action, n: nat)
    ensures n in Step(s, a).calls <==> n in s.calls || (a.Begin? && a.n == n)
    ensures n in s.calls ==>
              var call, call' := s.calls[n], Step(s, a).calls[n];
              call'.caller == call.caller && call'.owner == call.owner && call'.quantity == call.quantity
    ensures n !in s.calls && a.Begin? && a.n == n ==> AsAsked(Step(s, a).calls[n], a)
  {
  }

  lemma FirstBeginInInit(actions: seq<Action>, i: nat)
    requires i < |actions| - 1
    ensures FirstBegin(actions[..|actions| - 1], i) <==> FirstBegin(actions, i)
  {
    var init := actions[..|actions| - 1];
    assert forall j :: 0 <= j <= i ==> init[j] == actions[j];
  }

  /** A call exists iff some action began it. */
  lemma {:induction false} CallsWereBegun(actions: seq<Action>, n: nat)
    ensures n in Run(actions).calls <==> exists i: nat :: FirstBegin(actions, i) && actions[i].n == n
  {
    if actions != [] {
      var k := |actions| - 1;
      var init := actions[..k];
      CallsWereBegun(init, n);
      StepKeepsRequests(Run(init), actions[k], n);
      if i: nat :| FirstBegin(init, i) && init[i].n == n {
        FirstBeginInInit(actions, i);
        assert FirstBegin(actions, i) && actions[i].n == n;
      } else if actions[k].Begin? && actions[k].n == n {
        NotBegunBefore(init, n);
        assert FirstBegin(actions, k);
      }
      if i: nat :| FirstBegin(actions, i) && actions[i].n == n {
        if i < k {
          FirstBeginInInit(actions, i);
          assert FirstBegin(init, i) && init[i].n == n;
        }
      }
    }
  }

  /** If no action is the first to begin n, none begins it. */
  lemma {:induction false} NotBegunBefore(actions: seq<Action>, n: nat)
    requires forall i: nat :: FirstBegin(actions, i) ==> actions[i].n != n
    ensures forall i :: 0 <= i < |actions| && actions[i].Begin? ==> actions[i].n != n
  {
    if actions != [] {
      var k := |actions| - 1;
      forall i: nat | FirstBegin(actions[..k], i)
        ensures actions[..k][i].n != n
      {
        FirstBeginInInit(actions, i);
      }
      NotBegunBefore(actions[..k], n);
      assert forall i :: 0 <= i < k ==> actions[..k][i] == actions[i];
      if actions[k].Begin? && actions[k].n == n {
        assert FirstBegin(actions, k);
      }
    }
  }

  /** A call that no action begins first does not exist. */
  lemma NewBeforeFirst(actions: seq<Action>, i: nat)
    requires FirstBegin(actions, i)
    ensures actions[i].n !in Run(actions[..i]).calls
  {
    CallsWereBegun(actions[..i], actions[i].n);
  }

  lemma {:induction false} CallIsAsAsked(actions: seq<Action>, i: nat)
    requires FirstBegin(actions, i)
    ensures actions[i].n in Run(actions).calls && AsAsked(Run(actions).calls[actions[i].n], actions[i])
  {
    var k := |actions| - 1;
    StepKeepsRequests(Run(actions[..k]), actions[k], actions[i].n);
    if i == k {
      NewBeforeFirst(actions, i);
    } else {
      FirstBeginInInit(actions, i);
      CallIsAsAsked(actions[..k], i);
    }
  }

  /**
   Over every run: the ledger holds reservations of begun calls only, each for the pair its
   caller named and for exactly the units it asked for.
   */
  lemma ReservationsAreAsAsked(actions: seq<Action>, n: nat)
    requires n in Run(actions).ledger.reservations
    ensures exists i: nat ::
              && FirstBegin(actions, i) && actions[i].n == n
              && Run(actions).ledger.reservations[n].Owner() == actions[i].owner
              && AsksFor(actions[i], Run(actions).ledger.reservations[n].quantity)
  {
    RunKeepsInv(actions);
    assert CallInv(Run(actions), n);
    CallsWereBegun(actions, n);
    var i: nat :| FirstBegin(actions, i) && actions[i].n == n;
    CallIsAsAsked(actions, i);
  }

  // ----------------------------------------------------------------- rejections

  /** The limit set last under a key. */
  function LimitSet(actions: seq<Action>, key: string): Option<nat> {
    if actions == [] then None
    else
      var a := actions[|actions| - 1];
      if a.Configure? && Quota.LimitKey(a.owner) == key then Some(a.limit)
      else LimitSet(actions[..|actions| - 1], key)
  }

  lemma StepKeepsLimits(s: State, a: Action, key: string)
    requires !(a.Configure? && Quota.LimitKey(a.owner) == key)
    ensures key in Step(s, a).ledger.limits <==> key in s.ledger.limits
    ensures key in s.ledger.limits ==> Step(s, a).ledger.limits[key] == s.ledger.limits[key]
  {
  }

  lemma {:induction false} LimitIsLastSet(actions: seq<Action>, key: string)
    ensures var limits := Run(actions).ledger.limits;
            LimitSet(actions, key) == if key in limits then Some(limits[key]) else None
  {
    if actions != [] {
      var k := |actions| - 1;
      var a := actions[k];
      if !(a.Configure? && Quota.LimitKey(a.owner) == key) {
        LimitIsLastSet(actions[..k], key);
        StepKeepsLimits(Run(actions[..k]), a, key);
      }
    }
  }

  /** The running total of every key is what was committed under it, modulo 2^64. */
  ghost predicate TotalsRight(l: Quota.Ledger) {
    Quota.LedgerInv(l, Sum(l.reservations, Quota.Quantity()))
  }

  lemma CommandKeepsTotals(l: Quota.Ledger, c: Quota.Command)
    requires TotalsRight(l) && (c.Reserve? ==> c.id !in l.reservations)
    ensures TotalsRight(Quota.MemStep(l, c).0)
  {
    Quota.StepKeepsInv(l, c, Sum(l.reservations, Quota.Quantity()));
    var l' := Quota.MemStep(l, c).0;
    forall key ensures Quota.UsedIsCongruent(l', key) { }
  }

  /** The quota command behind an action, if it has one. */
  function CommandOf(s: State, a: Action): Option<Quota.Command> {
    match a
    case Configure(owner, limit) => Some(Quota.SetLimit(owner.0, owner.1, limit))
    case Begin(n, caller, owner, quantity, up) =>
      if n in s.calls || !up then None
      else Some(Quota.Reserve(owner.0, owner.1, if caller.Bff? then 1 else quantity, n))
    case WorkDone(_, _, _) => None
    case PortCall(n, ok) =>
      if n !in s.calls || !ok then None
      else if s.calls[n].phase.Committing? then Some(Quota.Commit(n))
      else if s.calls[n].phase.Releasing? then Some(Quota.Release(n))
      else None
    case Drop(_) => None
  }

  lemma StepIsCommand(s: State, a: Action)
    ensures Step(s, a).ledger ==
            if CommandOf(s, a).Some? then Quota.MemStep(s.ledger, CommandOf(s, a).value).0 else s.ledger
  {
  }

  lemma {:induction false} RunKeepsTotals(actions: seq<Action>)
    ensures TotalsRight(Run(actions).ledger)
  {
    if actions == [] {
      forall key ensures Quota.UsedIsCongruent(Quota.EMPTY_LEDGER, key) { }
    } else {
      var k := |actions| - 1;
      var s := Run(actions[..k]);
      RunKeepsTotals(actions[..k]);
      RunKeepsInv(actions[..k]);
      StepIsCommand(s, actions[k]);
      if CommandOf(s, actions[k]).Some? {
        CommandKeepsTotals(s.ledger, CommandOf(s, actions[k]).value);
      }
    }
  }

  /** What is committed under the key of the pair, what the pair has reserved, and the new units pass the limit. */
  ghost predicate OverLimit(actions: seq<Action>, owner: Quota.Pair, units: nat) {
    var limit := LimitSet(actions, Quota.LimitKey(owner));
    limit.Some? && Quota.Wrap(Quota.Demand(Run(actions).ledger, owner, units)) > limit.value
  }

  lemma BeginDecides(s: State, a: Action, units: nat)
    requires a.Begin? && a.n !in s.calls && AsksFor(a, units) && TotalsRight(s.ledger)
    ensures var key := Quota.LimitKey(a.owner);
            Step(s, a).calls[a.n].phase.Rejected? <==>
            !a.up || (key in s.ledger.limits
                      && Quota.Wrap(Quota.Demand(s.ledger, a.owner, units)) > s.ledger.limits[key])
  {
    Quota.ReserveWraps(s.ledger, a.owner, units, a.n, Sum(s.ledger.reservations, Quota.Quantity()));
  }

  lemma StepKeepsRejected(s: State, a: Action, n: nat)
    requires n in s.calls
    ensures n in Step(s, a).calls && (Step(s, a).calls[n].phase.Rejected? <==> s.calls[n].phase.Rejected?)
  {
  }

  /**
   Over every run: a call is rejected, at once and for good, if and only if the quota port
   was down or the units it asked for passed the limit in force when it began.
   */
  lemma {:induction false} RejectedIff(actions: seq<Action>, i: nat, units: nat)
    requires FirstBegin(actions, i) && AsksFor(actions[i], units)
    ensures actions[i].n in Run(actions).calls
    ensures Run(actions).calls[actions[i].n].phase.Rejected? <==>
            !actions[i].up || OverLimit(actions[..i], actions[i].owner, units)
  {
    var k := |actions| - 1;
    if i == k {
      NewBeforeFirst(actions, i);
      RunKeepsTotals(actions[..k]);
      LimitIsLastSet(actions[..k], Quota.LimitKey(actions[k].owner));
      BeginDecides(Run(actions[..k]), actions[k], units);
    } else {
      FirstBeginInInit(actions, i);
      RejectedIff(actions[..k], i, units);
      assert actions[..k][..i] == actions[..i];
      StepKeepsRejected(Run(actions[..k]), actions[k], actions[i].n);
    }
  }

  /** As long as the sum does not wrap around to within the limit, the true sum decides. */
  lemma OverLimitIff(actions: seq<Action>, owner: Quota.Pair, units: nat)
    requires Quota.WrapsSafely(Run(actions).ledger, owner, units)
    ensures var limit := LimitSet(actions, Quota.LimitKey(owner));
            OverLimit(actions, owner, units) <==>
            limit.Some? && Quota.Demand(Run(actions).ledger, owner, units) > limit.value
  {
    LimitIsLastSet(actions, Quota.LimitKey(owner));
    Quota.WrapSmall(Quota.Demand(Run(actions).ledger, owner, units));
  }

  // -------------------------------------------------------------------- metering

  /** The j-th action ends the work of its call. */
  ghost predicate EndsWork(actions: seq<Action>, j: nat) {
    && j < |actions| && actions[j].WorkDone?
    && actions[j].n in Run(actions[..j]).calls && Run(actions[..j]).calls[actions[j].n].phase.Working?
  }

  /** Only the end of its work changes what a call knows about it. */
  lemma StepKeepsWork(s: State, a: Action, n: nat)
    requires n in s.calls
    ensures var call, call' := s.calls[n], Step(s, a).calls[n];
            if a.WorkDone? && a.n == n && call.phase.Working?
            then call'.worked == a.ok && call'.tokens == a.tokens && !call'.phase.Working?
            else call'.worked == call.worked && call'.tokens == call.tokens
                 && (call'.phase.Working? ==> call.phase.Working?)
  {
  }

  lemma BegunCallHasNotWorked(s: State, a: Action, n: nat)
    requires n !in s.calls && n in Step(s, a).calls
    ensures !Step(s, a).calls[n].worked
  {
  }

  /** A call whose work succeeded was told so, with the tokens it will meter. */
  lemma {:induction false} WorkIsAsTold(actions: seq<Action>, n: nat)
    requires n in Run(actions).calls && Run(actions).calls[n].worked
    ensures exists j: nat ::
              && EndsWork(actions, j) && actions[j].n == n
              && actions[j].ok && actions[j].tokens == Run(actions).calls[n].tokens
  {
    var k := |actions| - 1;
    var s, a := Run(actions[..k]), actions[k];
    if n !in s.calls {
      BegunCallHasNotWorked(s, a, n);
    } else {
      StepKeepsWork(s, a, n);
      if a.WorkDone? && a.n == n && s.calls[n].phase.Working? {
        assert EndsWork(actions, k);
      } else {
        WorkIsAsTold(actions[..k], n);
        var j: nat :| EndsWork(actions[..k], j) && actions[..k][j].n == n
          && actions[..k][j].ok && actions[..k][j].tokens == s.calls[n].tokens;
        assert actions[..k][..j] == actions[..j];
        assert EndsWork(actions, j);
      }
    }
  }

  lemma {:induction false} WorkIsRemembered(actions: seq<Action>, j: nat)
    requires EndsWork(actions, j)
    ensures actions[j].n in Run(actions).calls
    ensures var call := Run(actions).calls[actions[j].n];
            call.worked == actions[j].ok && call.tokens == actions[j].tokens && !call.phase.Working?
  {
    var k := |actions| - 1;
    StepKeepsRequests(Run(actions[..k]), actions[k], actions[j].n);
    if j < k {
      assert actions[..k][..j] == actions[..j];
      WorkIsRemembered(actions[..k], j);
    }
    StepKeepsWork(Run(actions[..k]), actions[k], actions[j].n);
  }

  /** Over every run: a finished call has committed iff its work was reported as done, and released otherwise. */
  lemma SettledAsReported(actions: seq<Action>, j: nat)
    requires EndsWork(actions, j)
    ensures var s, n := Run(actions), actions[j].n;
            n in s.calls &&
            (s.calls[n].phase.Finished? ==>
               && n in s.ledger.reservations
               && s.ledger.reservations[n].status == (if actions[j].ok then Quota.Committed else Quota.Released))
  {
    WorkIsRemembered(actions, j);
    ReservationsFollowCalls(actions, actions[j].n);
  }

  /** How often call n was metered. */
  function TimesMetered(usage: seq<UsageEvent>, n: nat): nat {
    if usage == [] then 0
    else TimesMetered(usage[..|usage| - 1], n) + (if usage[|usage| - 1].call == n then 1 else 0)
  }

  lemma TimesAppend(usage: seq<UsageEvent>, e: UsageEvent, n: nat)
    ensures TimesMetered(usage + [e], n) == TimesMetered(usage, n) + (if e.call == n then 1 else 0)
  {
    assert (usage + [e])[..|usage|] == usage;
  }

  /** The BFF meters last and the AI meters before it commits; a bot call is not metered at all. */
  predicate MeteredBy(call: GuardedCall) {
    match call.caller
    case Bff => call.phase == Finished(true)
    case Bot => false
    case Ai => call.phase.Committing? || call.phase == Finished(true)
  }

  /** Only an AI call that is lost between meter and commit may have been metered without showing it. */
  predicate CountInv(call: GuardedCall, times: nat) {
    if call.phase.Leaked? && call.caller.Ai? then times <= 1 else times == (if MeteredBy(call) then 1 else 0)
  }

  predicate EventInv(s: State, e: UsageEvent) {
    && e.call in s.calls
    && var call := s.calls[e.call];
       && call.worked && e.owner == call.owner && !call.phase.Working?
       && (call.caller.Bff? ==> e.quantity == 1)
       && (call.caller.Ai? ==> e.quantity == call.tokens)
       && !call.caller.Bot?
  }

  ghost predicate MeteringInv(s: State) {
    && (forall n :: n in s.calls ==> CountInv(s.calls[n], TimesMetered(s.usage, n)))
    && (forall k :: 0 <= k < |s.usage| ==> EventInv(s, s.usage[k]))
  }

  /** The one action that meters: the usage port call of a call that records. */
  predicate Meters(s: State, a: Action) {
    a.PortCall? && a.ok && a.n in s.calls && s.calls[a.n].phase.Recording?
  }

  lemma StepMeters(s: State, a: Action)
    ensures !Meters(s, a) ==> Step(s, a).usage == s.usage
    ensures Meters(s, a) ==>
              var call := s.calls[a.n];
              Step(s, a).usage == s.usage + [UsageEvent(a.n, call.owner, if call.caller.Bff? then 1 else call.tokens)]
  {
  }

  lemma MeterStepCounts(s: State, a: Action, n: nat, times: nat)
    requires Meters(s, a) && n in s.calls && CallInv(s, n) && CountInv(s.calls[n], times)
    ensures CountInv(Step(s, a).calls[n], times + (if a.n == n then 1 else 0))
  {
  }

  lemma QuietPortKeepsCount(s: State, n: nat, ok: bool, times: nat)
    requires n in s.calls && CallInv(s, n) && CountInv(s.calls[n], times) && !Meters(s, PortCall(n, ok))
    ensures CountInv(PortStep(s, n, ok).calls[n], times)
  {
  }

  lemma QuietStepKeepsCount(s: State, a: Action, n: nat, times: nat)
    requires !Meters(s, a) && n in s.calls && CallInv(s, n) && CountInv(s.calls[n], times)
    ensures CountInv(Step(s, a).calls[n], times)
  {
    if a.PortCall? && a.n == n {
      QuietPortKeepsCount(s, n, a.ok, times);
    }
  }

  lemma StepKeepsCount(s: State, a: Action, n: nat)
    requires n in s.calls && CallInv(s, n) && CountInv(s.calls[n], TimesMetered(s.usage, n))
    ensures n in Step(s, a).calls && CountInv(Step(s, a).calls[n], TimesMetered(Step(s, a).usage, n))
  {
    StepMeters(s, a);
    StepKeepsRequests(s, a, n);
    if Meters(s, a) {
      MeterStepCounts(s, a, n, TimesMetered(s.usage, n));
      TimesAppend(s.usage, Step(s, a).usage[|s.usage|], n);
    } else {
      QuietStepKeepsCount(s, a, n, TimesMetered(s.usage, n));
    }
  }

  lemma {:induction false} UnknownCallNotMetered(usage: seq<UsageEvent>, n: nat)
    requires forall k :: 0 <= k < |usage| ==> usage[k].call != n
    ensures TimesMetered(usage, n) == 0
  {
    if usage != [] {
      UnknownCallNotMetered(usage[..|usage| - 1], n);
    }
  }

  lemma NewCallNotMetered(s: State, a: Action, n: nat)
    requires MeteringInv(s) && n !in s.calls && n in Step(s, a).calls
    ensures CountInv(Step(s, a).calls[n], TimesMetered(Step(s, a).usage, n))
  {
    StepMeters(s, a);
    UnknownCallNotMetered(s.usage, n);
  }

  lemma StepKeepsEvent(s: State, a: Action, e: UsageEvent)
    requires EventInv(s, e)
    ensures EventInv(Step(s, a), e)
  {
    StepKeepsRequests(s, a, e.call);
    StepKeepsWork(s, a, e.call);
  }

  lemma NewEventIsRight(s: State, a: Action)
    requires Meters(s, a) && CallInv(s, a.n)
    ensures EventInv(Step(s, a), Step(s, a).usage[|s.usage|])
  {
    StepMeters(s, a);
  }

  lemma StepKeepsMetering(s: State, a: Action)
    requires Inv(s) && MeteringInv(s)
    ensures MeteringInv(Step(s, a))
  {
    var s' := Step(s, a);
    forall n | n in s'.calls
      ensures CountInv(s'.calls[n], TimesMetered(s'.usage, n))
    {
      if n in s.calls {
        StepKeepsCount(s, a, n);
      } else {
        NewCallNotMetered(s, a, n);
      }
    }
    StepMeters(s, a);
    forall k | 0 <= k < |s'.usage|
      ensures EventInv(s', s'.usage[k])
    {
      if k < |s.usage| {
        StepKeepsEvent(s, a, s.usage[k]);
      } else {
        NewEventIsRight(s, a);
      }
    }
  }

  lemma {:induction false} RunKeepsMetering(actions: seq<Action>)
    ensures MeteringInv(Run(actions))
  {
    if actions != [] {
      var k := |actions| - 1;
      RunKeepsMetering(actions[..k]);
      RunKeepsInv(actions[..k]);
      StepKeepsMetering(Run(actions[..k]), actions[k]);
    }
  }

  /**
   Over every run: a usage event belongs to a call of the BFF or the AI whose work was
   reported as done, it is charged to the pair the caller named, and it counts one unit
   for the BFF and the tokens reported for the AI.
   */
  lemma UsageIsAsReported(actions: seq<Action>, k: nat)
    requires k < |Run(actions).usage|
    ensures var e := Run(actions).usage[k];
            exists i: nat, j: nat ::
              && FirstBegin(actions, i) && actions[i].n == e.call && e.owner == actions[i].owner
              && EndsWork(actions, j) && actions[j].n == e.call && actions[j].ok
              && ((actions[i].caller.Bff? && e.quantity == 1)
                  || (actions[i].caller.Ai? && e.quantity == actions[j].tokens))
  {
    var e := Run(actions).usage[k];
    RunKeepsMetering(actions);
    assert EventInv(Run(actions), e);
    CallsWereBegun(actions, e.call);
    var i: nat :| FirstBegin(actions, i) && actions[i].n == e.call;
    CallIsAsAsked(actions, i);
    WorkIsAsTold(actions, e.call);
    var j: nat :| EndsWork(actions, j) && actions[j].n == e.call && actions[j].ok
      && actions[j].tokens == Run(actions).calls[e.call].tokens;
  }

  /**
   Over every run: no call is metered twice; a BFF call is metered iff it finished well, an
   AI call that is not lost iff it got past its meter, a bot call never.
   */
  lemma MeteredOnceIff(actions: seq<Action>, n: nat)
    requires n in Run(actions).calls
    ensures var call := Run(actions).calls[n];
            var times := TimesMetered(Run(actions).usage, n);
            && times <= 1
            && (call.caller.Bot? ==> times == 0)
            && (call.caller.Bff? ==> (times == 1 <==> call.phase == Finished(true)))
            && (call.caller.Ai? && !call.phase.Leaked? ==>
                  (times == 1 <==> call.phase.Committing? || call.phase == Finished(true)))
  {
    RunKeepsMetering(actions);
    assert CountInv(Run(actions).calls[n], TimesMetered(Run(actions).usage, n));
  }
}
