/**
 The SQL quota ledger: one statement per operation, limits keyed by the pair itself,
 and usage recomputed from the reservation rows each time. It makes the same
 decisions as the in-memory ledger exactly as long as limit keys are unambiguous.
 */
module SqlQuota {
  import opened MapSums
  import opened Quota

  datatype SqlLedger = SqlLedger(limits: map<Pair, nat>, reservations: map<ReservationId, Reservation>)

  const EMPTY_SQL := SqlLedger(map[], map[])

  const I64_MAX: nat := 0x7fff_ffff_ffff_ffff

  ghost function SqlStep(l: SqlLedger, c: Command): (SqlLedger, Reply) {
    match c
    case SetLimit(t, cap, limit) => (l.(limits := l.limits[(t, cap) := limit]), Done)
    case Reserve(t, cap, q, id) =>
      var limit := if (t, cap) in l.limits then l.limits[(t, cap)] else I64_MAX;
      if Held(l.reservations, (t, cap)) + q <= limit
      then (l.(reservations := l.reservations[id := Reservation(t, cap, q, Reserved)]), Accepted)
      else (l, Denied)
    case Commit(id) =>
      if id in l.reservations && l.reservations[id].status.Reserved?
      then (l.(reservations := l.reservations[id := l.reservations[id].(status := Committed)]), Done)
      else (l, InvalidTransition)
    case Release(id) =>
      if id in l.reservations && l.reservations[id].status.Reserved?
      then (l.(reservations := l.reservations[id := l.reservations[id].(status := Released)]), Done)
      else (l, InvalidTransition)
  }

  ghost function SqlRun(commands: seq<Command>): SqlLedger {
    if commands == [] then EMPTY_SQL
    else SqlStep(SqlRun(commands[..|commands| - 1]), commands[|commands| - 1]).0
  }

  class LibSqlQuotaLedger {
    var limits: map<Pair, nat>
    var reservations: map<ReservationId, Reservation>

    ghost function Contents(): SqlLedger
      reads this
    {
      SqlLedger(limits, reservations)
    }

    constructor ()
      ensures Contents() == EMPTY_SQL
    {
      limits, reservations := map[], map[];
    }

    method SetLimitOf(tenant: string, capability: string, limit: nat)
      modifies this`limits
      ensures Contents() == SqlStep(old(Contents()), SetLimit(tenant, capability, limit)).0
    {
      limits := limits[(tenant, capability) := limit];
    }

    method CommittedUsage(tenant: string, capability: string) returns (n: nat)
      ensures n == Sum(reservations, CommittedFor((tenant, capability)))
    {
      n := SumValues(reservations, CommittedFor((tenant, capability)));
    }

    /** INSERT ... SELECT ... WHERE SUM(..) + quantity <= COALESCE(limit, i64::MAX) */
    method ReserveQuota(tenant: string, capability: string, quantity: nat, id: ReservationId) returns (reply: Reply)
      modifies this`reservations
      ensures (Contents(), reply) == SqlStep(old(Contents()), Reserve(tenant, capability, quantity, id))
    {
      var held := SumValues(reservations, HeldFor((tenant, capability)));
      var limit := if (tenant, capability) in limits then limits[(tenant, capability)] else I64_MAX;
      var changed := 0;
      if held + quantity <= limit {
        reservations := reservations[id := Reservation(tenant, capability, quantity, Reserved)];
        changed := 1;
      }
      if changed == 0 {
        return Denied;
      }
      return Accepted;
    }

    /** UPDATE ... SET status WHERE id AND status = 'reserved' */
    method Settle(id: ReservationId, status: Status) returns (reply: Reply)
      requires status == Committed || status == Released
      modifies this`reservations
      ensures (Contents(), reply) ==
              SqlStep(old(Contents()), if status == Committed then Commit(id) else Release(id))
    {
      var changed := 0;
      if id in reservations && reservations[id].status.Reserved? {
        reservations := reservations[id := reservations[id].(status := status)];
        changed := 1;
      }
      if changed == 0 {
        return InvalidTransition;
      }
      return Done;
    }
  }

  // ------------------------------------------------------------------ agreement

  /** A missing id is NotFound in memory and InvalidTransition in SQL; otherwise replies are equal. */
  predicate SameDecision(mem: Reply, sql: Reply) {
    mem == sql || (mem.NotFound? && sql.InvalidTransition?)
  }

  ghost predicate SameDecisionAt(commands: seq<Command>, i: nat)
    requires i < |commands|
  {
    SameDecision(MemStep(MemRun(commands[..i]), commands[i]).1, SqlStep(SqlRun(commands[..i]), commands[i]).1)
  }

  /** Limit and quantity fit an i64, and so does what a pair without a limit would hold. */
  ghost predicate Fits(s: SqlLedger, c: Command) {
    match c
    case SetLimit(_, _, limit) => limit <= I64_MAX
    case Reserve(t, cap, q, _) =>
      q <= I64_MAX && ((t, cap) !in s.limits ==> Held(s.reservations, (t, cap)) + q <= I64_MAX)
    case _ => true
  }

  /** Every pair that is named belongs to `pairs`, and every command fits. */
  ghost predicate Admissible(commands: seq<Command>, pairs: set<Pair>) {
    && FreshIds(commands)
    && (forall i :: 0 <= i < |commands| && (commands[i].SetLimit? || commands[i].Reserve?) ==>
          (commands[i].tenant, commands[i].capability) in pairs)
    && (forall i :: 0 <= i < |commands| ==> Fits(SqlRun(commands[..i]), commands[i]))
  }

  predicate Unambiguous(pairs: set<Pair>) {
    forall p, q :: p in pairs && q in pairs && LimitKey(p) == LimitKey(q) ==> p == q
  }

  lemma AdmissiblePrefix(commands: seq<Command>, pairs: set<Pair>, n: nat)
    requires Admissible(commands, pairs) && n <= |commands|
    ensures Admissible(commands[..n], pairs)
  {
    var init := commands[..n];
    forall i | 0 <= i < n
      ensures Fits(SqlRun(init[..i]), init[i])
    {
      assert init[..i] == commands[..i] && Fits(SqlRun(commands[..i]), commands[i]);
    }
  }

  predicate SameLimit(l: Ledger, s: SqlLedger, p: Pair) {
    && (LimitKey(p) in l.limits <==> p in s.limits)
    && (p in s.limits ==> l.limits[LimitKey(p)] == s.limits[p] <= I64_MAX)
  }

  ghost predicate Linked(l: Ledger, s: SqlLedger, pairs: set<Pair>) {
    && l.reservations == s.reservations
    && (forall p :: p in pairs ==> SameLimit(l, s, p))
    && (forall p :: p in pairs ==> Held(l.reservations, p) <= I64_MAX)
    && (forall id :: id in l.reservations ==> l.reservations[id].Owner() in pairs)
  }

  /** Among unambiguous pairs, what is committed under the key of p is committed by p. */
  lemma KeyTotalIsPairTotal(rs: map<ReservationId, Reservation>, pairs: set<Pair>, p: Pair)
    requires Unambiguous(pairs) && p in pairs
    requires forall id :: id in rs ==> rs[id].Owner() in pairs
    ensures Sum(rs, CommittedUnder(LimitKey(p))) == Sum(rs, CommittedFor(p))
  {
    SumLe(rs, CommittedUnder(LimitKey(p)), CommittedFor(p));
    SumLe(rs, CommittedFor(p), CommittedUnder(LimitKey(p)));
  }

  /** On unambiguous pairs the demand is what the pair holds plus the request, and it does not wrap. */
  lemma DemandIsHeld(l: Ledger, pairs: set<Pair>, p: Pair, q: nat)
    requires Unambiguous(pairs) && p in pairs && q <= I64_MAX && Held(l.reservations, p) <= I64_MAX
    requires forall id :: id in l.reservations ==> l.reservations[id].Owner() in pairs
    ensures Wrap(Demand(l, p, q)) == Demand(l, p, q) == Held(l.reservations, p) + q
  {
    KeyTotalIsPairTotal(l.reservations, pairs, p);
    HeldSplits(l.reservations, p);
  }

  lemma ReserveAgrees(l: Ledger, s: SqlLedger, pairs: set<Pair>, p: Pair, q: nat, id: ReservationId, requested: nat)
    requires Unambiguous(pairs) && p in pairs && Linked(l, s, pairs) && LedgerInv(l, requested)
    requires Fits(s, Reserve(p.0, p.1, q, id))
    ensures MemStep(l, Reserve(p.0, p.1, q, id)).1 == SqlStep(s, Reserve(p.0, p.1, q, id)).1
    ensures MemStep(l, Reserve(p.0, p.1, q, id)).1.Accepted? ==> Held(l.reservations, p) + q <= I64_MAX
  {
    assert SameLimit(l, s, p);
    ReserveWraps(l, p, q, id, requested);
    DemandIsHeld(l, pairs, p, q);
  }

  /** Settling a reservation never raises what a pair holds. */
  lemma SettlingHolds(rs: map<ReservationId, Reservation>, id: ReservationId, status: Status, p: Pair)
    requires id in rs && rs[id].status.Reserved?
    ensures Held(rs[id := rs[id].(status := status)], p) <= Held(rs, p)
  {
    SumInsert(rs, id, rs[id].(status := status), HeldFor(p));
  }

  lemma ReserveKeepsLinked(l: Ledger, s: SqlLedger, pairs: set<Pair>, p: Pair, q: nat, id: ReservationId,
                           requested: nat)
    requires Unambiguous(pairs) && p in pairs && Linked(l, s, pairs) && LedgerInv(l, requested)
    requires Fits(s, Reserve(p.0, p.1, q, id)) && id !in l.reservations
    ensures var c := Reserve(p.0, p.1, q, id); Linked(MemStep(l, c).0, SqlStep(s, c).0, pairs)
  {
    var c := Reserve(p.0, p.1, q, id);
    ReserveAgrees(l, s, pairs, p, q, id, requested);
    var l', s' := MemStep(l, c).0, SqlStep(s, c).0;
    forall x | x in pairs
      ensures SameLimit(l', s', x) && Held(l'.reservations, x) <= I64_MAX
    {
      assert SameLimit(l, s, x);
      SumInsert(l.reservations, id, Reservation(p.0, p.1, q, Reserved), HeldFor(x));
    }
  }

  lemma SetLimitKeepsLinked(l: Ledger, s: SqlLedger, pairs: set<Pair>, p: Pair, limit: nat)
    requires Unambiguous(pairs) && p in pairs && Linked(l, s, pairs) && limit <= I64_MAX
    ensures var c := SetLimit(p.0, p.1, limit); Linked(MemStep(l, c).0, SqlStep(s, c).0, pairs)
  {
    var c := SetLimit(p.0, p.1, limit);
    forall x | x in pairs
      ensures SameLimit(MemStep(l, c).0, SqlStep(s, c).0, x)
    {
      assert SameLimit(l, s, x);
    }
  }

  lemma SettleAgrees(l: Ledger, s: SqlLedger, pairs: set<Pair>, id: ReservationId, c: Command)
    requires Linked(l, s, pairs) && (c == Commit(id) || c == Release(id))
    ensures SameDecision(MemStep(l, c).1, SqlStep(s, c).1)
    ensures Linked(MemStep(l, c).0, SqlStep(s, c).0, pairs)
  {
    if id in l.reservations && l.reservations[id].status.Reserved? {
      forall x | x in pairs
        ensures SameLimit(MemStep(l, c).0, SqlStep(s, c).0, x) && Held(MemStep(l, c).0.reservations, x) <= I64_MAX
      {
        assert SameLimit(l, s, x);
        SettlingHolds(l.reservations, id, if c.Commit? then Committed else Released, x);
      }
    }
  }

  lemma StepAgrees(l: Ledger, s: SqlLedger, pairs: set<Pair>, c: Command, requested: nat)
    requires Unambiguous(pairs) && Linked(l, s, pairs) && LedgerInv(l, requested) && Fits(s, c)
    requires c.SetLimit? || c.Reserve? ==> (c.tenant, c.capability) in pairs
    requires c.Reserve? ==> c.id !in l.reservations
    ensures SameDecision(MemStep(l, c).1, SqlStep(s, c).1)
    ensures Linked(MemStep(l, c).0, SqlStep(s, c).0, pairs)
  {
    match c
    case SetLimit(t, cap, limit) => SetLimitKeepsLinked(l, s, pairs, (t, cap), limit);
    case Reserve(t, cap, q, id) =>
      ReserveAgrees(l, s, pairs, (t, cap), q, id, requested);
      ReserveKeepsLinked(l, s, pairs, (t, cap), q, id, requested);
    case Commit(id) => SettleAgrees(l, s, pairs, id, c);
    case Release(id) => SettleAgrees(l, s, pairs, id, c);
  }

  lemma {:induction false} RunLinked(commands: seq<Command>, pairs: set<Pair>)
    requires Unambiguous(pairs) && Admissible(commands, pairs)
    ensures Linked(MemRun(commands), SqlRun(commands), pairs)
    ensures commands != [] ==> SameDecisionAt(commands, |commands| - 1)
  {
    if commands == [] {
      forall p ensures Held(EMPTY_LEDGER.reservations, p) == 0 { }
    } else {
      var n := |commands| - 1;
      AdmissiblePrefix(commands, pairs, n);
      RunLinked(commands[..n], pairs);
      RunKeepsInv(commands[..n]);
      if commands[n].Reserve? {
        NextIdIsFresh(commands);
      }
      StepAgrees(MemRun(commands[..n]), SqlRun(commands[..n]), pairs, commands[n], Requested(commands[..n]));
    }
  }

  /** On unambiguous pairs the two ledgers take the same decision on every command of every run that fits. */
  lemma RunsAgree(commands: seq<Command>, pairs: set<Pair>, i: nat)
    requires Unambiguous(pairs) && Admissible(commands, pairs) && i < |commands|
    ensures SameDecisionAt(commands, i)
    ensures MemRun(commands).reservations == SqlRun(commands).reservations
  {
    AdmissiblePrefix(commands, pairs, i + 1);
    RunLinked(commands[..i + 1], pairs);
    assert commands[..i + 1][..i] == commands[..i];
    RunLinked(commands, pairs);
  }

  /** Two pairs under one key are told apart by SQL and mixed up in memory. */
  lemma SharedKeySeparatesLedgers(p: Pair, q: Pair)
    requires p != q && LimitKey(p) == LimitKey(q)
    ensures var commands := [SetLimit(p.0, p.1, 0), Reserve(q.0, q.1, 1, 0)];
            Admissible(commands, {p, q}) && !SameDecisionAt(commands, 1)
  {
    var c1 := [SetLimit(p.0, p.1, 0)];
    var commands := [SetLimit(p.0, p.1, 0), Reserve(q.0, q.1, 1, 0)];
    assert commands[..1] == c1 && c1[..0] == [];
    assert commands[..0] == [];
    var empty: map<ReservationId, Reservation> := map[];
    assert Sum(empty, ReservedFor(q)) == 0 && Held(empty, q) == 0;
    assert MemRun(c1) == MemStep(EMPTY_LEDGER, c1[0]).0;
    assert SqlRun(c1) == SqlStep(EMPTY_SQL, c1[0]).0;
  }

  /**
   The two ledgers take the same decision on every command of every admissible
   sequence over a set of pairs, if and only if no two of the pairs share a limit key.
   */
  lemma LedgersAgreeIffUnambiguous(pairs: set<Pair>)
    ensures Unambiguous(pairs) <==>
            (forall commands, i :: Admissible(commands, pairs) && 0 <= i < |commands| ==> SameDecisionAt(commands, i))
  {
    if Unambiguous(pairs) {
      forall commands, i | Admissible(commands, pairs) && 0 <= i < |commands|
        ensures SameDecisionAt(commands, i)
      {
        RunsAgree(commands, pairs, i);
      }
    } else {
      var p, q :| p in pairs && q in pairs && LimitKey(p) == LimitKey(q) && p != q;
      SharedKeySeparatesLedgers(p, q);
      var commands := [SetLimit(p.0, p.1, 0), Reserve(q.0, q.1, 1, 0)];
      assert Admissible(commands, pairs) && !SameDecisionAt(commands, 1);
    }
  }

  /** Tenants without a colon are always safe. */
  lemma PlainTenantsAreUnambiguous(pairs: set<Pair>)
    requires forall p :: p in pairs ==> ':' !in p.0
    ensures Unambiguous(pairs)
  {
    forall p, q | p in pairs && q in pairs && LimitKey(p) == LimitKey(q)
      ensures p == q
    {
      KeysOfPlainTenantsDiffer(p, q);
    }
  }
}
