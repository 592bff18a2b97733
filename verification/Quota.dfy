/**
 The in-memory quota ledger: limits and a running `used` total keyed by the text
 "tenant:capability", and reservations that go from Reserved to Committed or
 Released. Counters are u64; a release build wraps around.
 */
module Quota {
  import opened MapSums
  import opened Options

  /** UUIDs are only compared, so a number stands for one. */
  type ReservationId = nat

  type Pair = (string, string)

  datatype Status = Reserved | Committed | Released

  datatype Reservation = Reservation(tenant: string, capability: string, quantity: nat, status: Status) {
    function Owner(): Pair {
      (tenant, capability)
    }
  }

  datatype Ledger = Ledger(
    limits: map<string, nat>, used: map<string, nat>, reservations: map<ReservationId, Reservation>)

  const EMPTY_LEDGER := Ledger(map[], map[], map[])

  datatype Command =
    | SetLimit(tenant: string, capability: string, limit: nat)
    | Reserve(tenant: string, capability: string, quantity: nat, id: ReservationId)
    | Commit(id: ReservationId)
    | Release(id: ReservationId)

  datatype Reply = Done | Accepted | Denied | NotFound | InvalidTransition

  const U64: nat := 0x1_0000_0000_0000_0000

  function Wrap(n: nat): nat {
    n % U64
  }

  function LimitKey(p: Pair): string {
    p.0 + ":" + p.1
  }

  function UsedUnder(l: Ledger, key: string): nat {
    if key in l.used then l.used[key] else 0
  }

  // Quantities that are summed over the reservations.

  function ReservedFor(p: Pair): Reservation -> nat {
    (r: Reservation) => if r.Owner() == p && r.status.Reserved? then r.quantity else 0
  }

  function CommittedFor(p: Pair): Reservation -> nat {
    (r: Reservation) => if r.Owner() == p && r.status.Committed? then r.quantity else 0
  }

  function HeldFor(p: Pair): Reservation -> nat {
    (r: Reservation) => if r.Owner() == p && !r.status.Released? then r.quantity else 0
  }

  /** Committed by any pair whose limit key is `key`. */
  function CommittedUnder(key: string): Reservation -> nat {
    (r: Reservation) => if LimitKey(r.Owner()) == key && r.status.Committed? then r.quantity else 0
  }

  function Quantity(): Reservation -> nat {
    (r: Reservation) => r.quantity
  }

  ghost function Held(rs: map<ReservationId, Reservation>, p: Pair): nat {
    Sum(rs, HeldFor(p))
  }

  /** One locked operation of the ledger. */
  ghost function MemStep(l: Ledger, c: Command): (Ledger, Reply) {
    match c
    case SetLimit(t, cap, limit) => (l.(limits := l.limits[LimitKey((t, cap)) := limit]), Done)
    case Reserve(t, cap, q, id) =>
      var key := LimitKey((t, cap));
      if key in l.limits
         && Wrap(UsedUnder(l, key) + Wrap(Sum(l.reservations, ReservedFor((t, cap)))) + q) > l.limits[key]
      then (l, Denied)
      else (l.(reservations := l.reservations[id := Reservation(t, cap, q, Reserved)]), Accepted)
    case Commit(id) =>
      if id !in l.reservations then (l, NotFound)
      else if !l.reservations[id].status.Reserved? then (l, InvalidTransition)
      else
        var r := l.reservations[id];
        var key := LimitKey(r.Owner());
        (l.(reservations := l.reservations[id := r.(status := Committed)],
            used := l.used[key := Wrap(UsedUnder(l, key) + r.quantity)]), Done)
    case Release(id) =>
      if id !in l.reservations then (l, NotFound)
      else if !l.reservations[id].status.Reserved? then (l, InvalidTransition)
      else (l.(reservations := l.reservations[id := l.reservations[id].(status := Released)]), Done)
  }

  ghost function MemRun(commands: seq<Command>): Ledger {
    if commands == [] then EMPTY_LEDGER
    else MemStep(MemRun(commands[..|commands| - 1]), commands[|commands| - 1]).0
  }

  class InMemoryQuotaLedger {
    var limits: map<string, nat>
    var used: map<string, nat>
    var reservations: map<ReservationId, Reservation>

    ghost function Contents(): Ledger
      reads this
    {
      Ledger(limits, used, reservations)
    }

    constructor ()
      ensures Contents() == EMPTY_LEDGER
    {
      limits, used, reservations := map[], map[], map[];
    }

    method SetLimitOf(tenant: string, capability: string, limit: nat)
      modifies this`limits
      ensures Contents() == MemStep(old(Contents()), SetLimit(tenant, capability, limit)).0
    {
      limits := limits[LimitKey((tenant, capability)) := limit];
    }

    method CommittedUsage(tenant: string, capability: string) returns (n: nat)
      ensures n == UsedUnder(Contents(), LimitKey((tenant, capability)))
    {
      var key := LimitKey((tenant, capability));
      n := if key in used then used[key] else 0;
    }

    method ReserveQuota(tenant: string, capability: string, quantity: nat, id: ReservationId) returns (reply: Reply)
      modifies this`reservations
      ensures (Contents(), reply) == MemStep(old(Contents()), Reserve(tenant, capability, quantity, id))
    {
      var key := LimitKey((tenant, capability));
      if key in limits {
        var committed := CommittedUsage(tenant, capability);
        var reserved := SumValues(reservations, ReservedFor((tenant, capability)));
        if Wrap(committed + Wrap(reserved) + quantity) > limits[key] {
          return Denied;
        }
      }
      reservations := reservations[id := Reservation(tenant, capability, quantity, Reserved)];
      return Accepted;
    }

    method CommitReservation(id: ReservationId) returns (reply: Reply)
      modifies this
      ensures (Contents(), reply) == MemStep(old(Contents()), Commit(id))
    {
      if id !in reservations {
        return NotFound;
      }
      var r := reservations[id];
      if !r.status.Reserved? {
        return InvalidTransition;
      }
      reservations := reservations[id := r.(status := Committed)];
      var key := LimitKey(r.Owner());
      if key !in used {
        used := used[key := 0];
      }
      used := used[key := Wrap(used[key] + r.quantity)];
      assert used == MemStep(old(Contents()), Commit(id)).0.used;
      return Done;
    }

    method ReleaseReservation(id: ReservationId) returns (reply: Reply)
      modifies this`reservations
      ensures (Contents(), reply) == MemStep(old(Contents()), Release(id))
    {
      if id !in reservations {
        return NotFound;
      }
      if !reservations[id].status.Reserved? {
        return InvalidTransition;
      }
      reservations := reservations[id := reservations[id].(status := Released)];
      return Done;
    }
  }

  // ------------------------------------------------------------- limit keys

  /**
   The text key is ambiguous: a pair shares its key with some other pair exactly when
   a colon occurs in its tenant or in its capability.
   */
  lemma LimitKeySharedIff(p: Pair)
    ensures (exists q: Pair :: q != p && LimitKey(q) == LimitKey(p)) <==> ':' in p.0 || ':' in p.1
  {
    var (t, c) := p;
    if ':' in t {
      var i :| 0 <= i < |t| && t[i] == ':';
      var q: Pair := (t[..i], t[i + 1..] + ":" + c);
      assert t == t[..i] + ":" + t[i + 1..];
      assert LimitKey(q) == LimitKey(p) && q.0 != t;
    } else if ':' in c {
      var i :| 0 <= i < |c| && c[i] == ':';
      var q: Pair := (t + ":" + c[..i], c[i + 1..]);
      assert c == c[..i] + ":" + c[i + 1..];
      assert LimitKey(q) == LimitKey(p) && q.0 != t;
    } else {
      forall q: Pair | LimitKey(q) == LimitKey(p)
        ensures q == p
      {
        SameKeySameSplit(p, q);
      }
    }
  }

  /** A key with a single colon can only be read one way. */
  lemma SameKeySameSplit(p: Pair, q: Pair)
    requires LimitKey(q) == LimitKey(p) && ':' !in p.0 && ':' !in p.1
    ensures q == p
  {
    var k := LimitKey(p);
    var n := |q.0|;
    assert k[n] == ':';
    assert n == |p.0|;
    assert k[..n] == q.0 && k[..n] == p.0;
    assert k[n + 1..] == q.1 && k[n + 1..] == p.1;
  }

  /** Colons in capabilities do no harm as long as tenants have none. */
  lemma KeysOfPlainTenantsDiffer(p: Pair, q: Pair)
    requires ':' !in p.0 && ':' !in q.0
    ensures LimitKey(p) == LimitKey(q) <==> p == q
  {
    if LimitKey(p) == LimitKey(q) {
      var k := LimitKey(p);
      assert k[|p.0|] == ':' && k[|q.0|] == ':';
      assert |p.0| == |q.0|;
      assert k[..|p.0|] == p.0 && k[..|q.0|] == q.0;
      assert k[|p.0| + 1..] == p.1 && k[|q.0| + 1..] == q.1;
    }
  }

  // ------------------------------------------------------------- whole runs

  function Requested(commands: seq<Command>): nat {
    if commands == [] then 0
    else
      var c := commands[|commands| - 1];
      Requested(commands[..|commands| - 1]) + (if c.Reserve? then c.quantity else 0)
  }

  /** Reservation ids are never reused. */
  ghost predicate FreshIds(commands: seq<Command>) {
    forall i, j :: 0 <= i < j < |commands| && commands[i].Reserve? && commands[j].Reserve? ==>
      commands[i].id != commands[j].id
  }

  lemma {:induction false} IdsComeFromReserves(commands: seq<Command>, id: ReservationId)
    requires id in MemRun(commands).reservations
    ensures exists i :: 0 <= i < |commands| && commands[i].Reserve? && commands[i].id == id
  {
    if commands != [] {
      var n := |commands| - 1;
      if id in MemRun(commands[..n]).reservations {
        IdsComeFromReserves(commands[..n], id);
        var i :| 0 <= i < n && commands[..n][i].Reserve? && commands[..n][i].id == id;
        assert commands[i].Reserve?;
      }
    }
  }

  lemma NextIdIsFresh(commands: seq<Command>)
    requires FreshIds(commands) && commands != [] && commands[|commands| - 1].Reserve?
    ensures commands[|commands| - 1].id !in MemRun(commands[..|commands| - 1]).reservations
  {
    var n := |commands| - 1;
    if commands[n].id in MemRun(commands[..n]).reservations {
      IdsComeFromReserves(commands[..n], commands[n].id);
    }
  }

  /** The running total is the committed quantity modulo 2^64. */
  ghost predicate UsedIsCongruent(l: Ledger, key: string) {
    UsedUnder(l, key) == Wrap(Sum(l.reservations, CommittedUnder(key)))
  }

  ghost predicate LedgerInv(l: Ledger, requested: nat) {
    && (forall key :: UsedIsCongruent(l, key))
    && Sum(l.reservations, Quantity()) <= requested
  }

  lemma WrapOnce(a: nat, b: nat)
    ensures Wrap(Wrap(a) + b) == Wrap(a + b)
  {
    assert a + b == U64 * (a / U64) + (Wrap(a) + b);
  }

  lemma WrapSmall(n: nat)
    ensures n < U64 ==> Wrap(n) == n
  {
  }

  lemma CommitKeepsTotal(l: Ledger, id: ReservationId, key: string)
    requires UsedIsCongruent(l, key)
    requires id in l.reservations && l.reservations[id].status.Reserved?
    ensures UsedIsCongruent(MemStep(l, Commit(id)).0, key)
  {
    var r := l.reservations[id];
    SumInsert(l.reservations, id, r.(status := Committed), CommittedUnder(key));
    WrapOnce(Sum(l.reservations, CommittedUnder(key)), r.quantity);
  }

  /** Committing moves a quantity into the running total of its key and of no other. */
  lemma CommitKeepsInv(l: Ledger, id: ReservationId, requested: nat)
    requires LedgerInv(l, requested)
    requires id in l.reservations && l.reservations[id].status.Reserved?
    ensures LedgerInv(MemStep(l, Commit(id)).0, requested)
  {
    SumInsert(l.reservations, id, l.reservations[id].(status := Committed), Quantity());
    forall key
      ensures UsedIsCongruent(MemStep(l, Commit(id)).0, key)
    {
      assert UsedIsCongruent(l, key);
      CommitKeepsTotal(l, id, key);
    }
  }

  /** Writing a row that is not committed, over none or over one that was not, moves no total. */
  lemma UncommittedRowKeepsTotals(l: Ledger, id: ReservationId, r: Reservation, l': Ledger)
    requires forall key :: UsedIsCongruent(l, key)
    requires !r.status.Committed? && (id in l.reservations ==> !l.reservations[id].status.Committed?)
    requires l'.used == l.used && l'.reservations == l.reservations[id := r]
    ensures forall key :: UsedIsCongruent(l', key)
  {
    forall key
      ensures UsedIsCongruent(l', key)
    {
      assert UsedIsCongruent(l, key);
      SumInsert(l.reservations, id, r, CommittedUnder(key));
    }
  }

  lemma ReserveKeepsInv(l: Ledger, t: string, cap: string, q: nat, id: ReservationId, requested: nat)
    requires LedgerInv(l, requested) && id !in l.reservations
    ensures LedgerInv(MemStep(l, Reserve(t, cap, q, id)).0, requested + q)
  {
    var r := Reservation(t, cap, q, Reserved);
    var (l', reply) := MemStep(l, Reserve(t, cap, q, id));
    if reply.Accepted? {
      SumInsert(l.reservations, id, r, Quantity());
      UncommittedRowKeepsTotals(l, id, r, l');
    }
  }

  lemma ReleaseKeepsInv(l: Ledger, id: ReservationId, requested: nat)
    requires LedgerInv(l, requested) && id in l.reservations && l.reservations[id].status.Reserved?
    ensures LedgerInv(MemStep(l, Release(id)).0, requested)
  {
    var r := l.reservations[id].(status := Released);
    SumInsert(l.reservations, id, r, Quantity());
    UncommittedRowKeepsTotals(l, id, r, MemStep(l, Release(id)).0);
  }

  lemma SetLimitKeepsInv(l: Ledger, t: string, cap: string, limit: nat, requested: nat)
    requires LedgerInv(l, requested)
    ensures LedgerInv(MemStep(l, SetLimit(t, cap, limit)).0, requested)
  {
    forall key ensures UsedIsCongruent(MemStep(l, SetLimit(t, cap, limit)).0, key) { assert UsedIsCongruent(l, key); }
  }

  lemma StepKeepsInv(l: Ledger, c: Command, requested: nat)
    requires LedgerInv(l, requested)
    requires c.Reserve? ==> c.id !in l.reservations
    ensures LedgerInv(MemStep(l, c).0, requested + (if c.Reserve? then c.quantity else 0))
  {
    match c
    case SetLimit(t, cap, limit) => SetLimitKeepsInv(l, t, cap, limit, requested);
    case Reserve(t, cap, q, id) => ReserveKeepsInv(l, t, cap, q, id, requested);
    case Commit(id) =>
      if id in l.reservations && l.reservations[id].status.Reserved? { CommitKeepsInv(l, id, requested); }
    case Release(id) =>
      if id in l.reservations && l.reservations[id].status.Reserved? { ReleaseKeepsInv(l, id, requested); }
  }

  lemma {:induction false} RunKeepsInv(commands: seq<Command>)
    requires FreshIds(commands)
    ensures LedgerInv(MemRun(commands), Requested(commands))
  {
    if commands == [] {
      forall key ensures UsedIsCongruent(EMPTY_LEDGER, key) { }
    } else {
      var n := |commands| - 1;
      RunKeepsInv(commands[..n]);
      if commands[n].Reserve? {
        NextIdIsFresh(commands);
      }
      StepKeepsInv(MemRun(commands[..n]), commands[n], Requested(commands[..n]));
    }
  }

  /** The running total equals the sum of the committed reservations, modulo 2^64 and exactly while in range. */
  lemma UsedEqualsCommitted(commands: seq<Command>, key: string)
    requires FreshIds(commands)
    ensures var l := MemRun(commands);
            && UsedUnder(l, key) == Wrap(Sum(l.reservations, CommittedUnder(key)))
            && (Requested(commands) < U64 ==> UsedUnder(l, key) == Sum(l.reservations, CommittedUnder(key)))
  {
    RunKeepsInv(commands);
    var l := MemRun(commands);
    assert UsedIsCongruent(l, key);
    SumLe(l.reservations, CommittedUnder(key), Quantity());
    WrapSmall(Sum(l.reservations, CommittedUnder(key)));
  }

  // -------------------------------------------------------------- settlement

  predicate Settles(c: Command, id: ReservationId) {
    (c.Commit? || c.Release?) && c.id == id
  }

  /**
   The i-th command made the reservation `id`: it is the reserve with that id, and it was
   accepted.
   */
  ghost predicate Made(commands: seq<Command>, i: nat, id: ReservationId) {
    && i < |commands| && commands[i].Reserve? && commands[i].id == id
    && MemStep(MemRun(commands[..i]), commands[i]).1 == Accepted
  }

  /** The status the first settlement after position i gives, or Reserved if there is none. */
  function FirstSettlement(commands: seq<Command>, i: nat, id: ReservationId): Status
    decreases |commands|
  {
    if |commands| <= i + 1 then Reserved
    else
      var n := |commands| - 1;
      var before := FirstSettlement(commands[..n], i, id);
      if before.Reserved? && Settles(commands[n], id) then (if commands[n].Commit? then Committed else Released)
      else before
  }

  /** A command on an accepted reservation settles it once; every other command leaves it alone. */
  lemma StepOnReservation(l: Ledger, c: Command, id: ReservationId)
    requires id in l.reservations && !(c.Reserve? && c.id == id)
    ensures var r := l.reservations[id];
            id in MemStep(l, c).0.reservations &&
            MemStep(l, c).0.reservations[id] ==
              if r.status.Reserved? && Settles(c, id)
              then r.(status := if c.Commit? then Committed else Released) else r
  {
  }

  /**
   Over every run: an accepted reservation keeps the tenant, capability and quantity it
   was asked for, and its status is the one its first settlement gave it.
   */
  lemma {:induction false} ReservationIsAsAsked(commands: seq<Command>, i: nat, id: ReservationId)
    requires FreshIds(commands) && Made(commands, i, id)
    ensures var c := commands[i];
            id in MemRun(commands).reservations &&
            MemRun(commands).reservations[id] ==
              Reservation(c.tenant, c.capability, c.quantity, FirstSettlement(commands, i, id))
    decreases |commands|
  {
    var n := |commands| - 1;
    if i < n {
      assert commands[..n][..i] == commands[..i];
      assert Made(commands[..n], i, id);
      ReservationIsAsAsked(commands[..n], i, id);
      StepOnReservation(MemRun(commands[..n]), commands[n], id);
    }
  }

  lemma {:induction false} ReservationsWereMade(commands: seq<Command>, id: ReservationId)
    requires id in MemRun(commands).reservations
    ensures exists i: nat :: Made(commands, i, id)
  {
    var n := |commands| - 1;
    if id in MemRun(commands[..n]).reservations {
      ReservationsWereMade(commands[..n], id);
      var i: nat :| Made(commands[..n], i, id);
      assert commands[..n][..i] == commands[..i];
      assert Made(commands, i, id);
    } else {
      assert Made(commands, n, id);
    }
  }

  /**
   Over every run: a settlement is done iff the reservation was made and not settled yet,
   it is an invalid transition iff it was settled, and not found iff it was never made.
   */
  lemma SettlementReply(commands: seq<Command>, c: Command, id: ReservationId)
    requires FreshIds(commands) && Settles(c, id)
    ensures var reply := MemStep(MemRun(commands), c).1;
            && (reply.NotFound? <==> !exists i: nat :: Made(commands, i, id))
            && (reply.Done? <==> exists i: nat :: Made(commands, i, id) && FirstSettlement(commands, i, id).Reserved?)
            && (reply.InvalidTransition? <==>
                exists i: nat :: Made(commands, i, id) && !FirstSettlement(commands, i, id).Reserved?)
  {
    forall i: nat | Made(commands, i, id)
      ensures id in MemRun(commands).reservations
      ensures MemRun(commands).reservations[id].status == FirstSettlement(commands, i, id)
    {
      ReservationIsAsAsked(commands, i, id);
    }
    if id in MemRun(commands).reservations {
      ReservationsWereMade(commands, id);
    }
  }

  // ------------------------------------------------------------------ limits

  predicate SetsLimit(c: Command, key: string) {
    c.SetLimit? && LimitKey((c.tenant, c.capability)) == key
  }

  ghost predicate Limited(commands: seq<Command>, key: string) {
    exists i :: 0 <= i < |commands| && SetsLimit(commands[i], key)
  }

  /** The largest limit that was ever set under a key. */
  function PeakLimit(commands: seq<Command>, key: string): nat {
    if commands == [] then 0
    else
      var c := commands[|commands| - 1];
      var before := PeakLimit(commands[..|commands| - 1], key);
      if SetsLimit(c, key) && c.limit > before then c.limit else before
  }

  predicate Reserves(c: Command, p: Pair) {
    c.Reserve? && (c.tenant, c.capability) == p
  }

  /** No reservation of the pair comes before the first limit under its key. */
  ghost predicate LimitedFirst(commands: seq<Command>, p: Pair) {
    forall i :: 0 <= i < |commands| && Reserves(commands[i], p) ==>
      Limited(commands[..i], LimitKey(p))
  }

  /** The limit that was set last under a key. */
  function LastLimit(commands: seq<Command>, key: string): Option<nat> {
    if commands == [] then None
    else
      var c := commands[|commands| - 1];
      if SetsLimit(c, key) then Some(c.limit) else LastLimit(commands[..|commands| - 1], key)
  }

  lemma OtherCommandKeepsLimit(l: Ledger, c: Command, key: string)
    requires !SetsLimit(c, key)
    ensures key in MemStep(l, c).0.limits <==> key in l.limits
    ensures key in l.limits ==> MemStep(l, c).0.limits[key] == l.limits[key]
  {
  }

  /** The limit in force under a key is the one set last, and there is none iff none was ever set. */
  lemma {:induction false} LimitInForce(commands: seq<Command>, key: string)
    ensures var limits := MemRun(commands).limits;
            LastLimit(commands, key) == if key in limits then Some(limits[key]) else None
    ensures LastLimit(commands, key).Some? <==> Limited(commands, key)
    ensures LastLimit(commands, key).Some? ==> LastLimit(commands, key).value <= PeakLimit(commands, key)
  {
    if commands != [] {
      var n := |commands| - 1;
      LimitInForce(commands[..n], key);
      LimitedInInit(commands, key);
      if !SetsLimit(commands[n], key) {
        OtherCommandKeepsLimit(MemRun(commands[..n]), commands[n], key);
      }
    }
  }

  lemma LimitedInInit(commands: seq<Command>, key: string)
    requires commands != []
    ensures Limited(commands, key) <==>
            Limited(commands[..|commands| - 1], key) || SetsLimit(commands[|commands| - 1], key)
  {
    var n := |commands| - 1;
    if Limited(commands[..n], key) {
      var i :| 0 <= i < n && SetsLimit(commands[..n][i], key);
      assert SetsLimit(commands[i], key);
    }
    if Limited(commands, key) {
      var i :| 0 <= i < |commands| && SetsLimit(commands[i], key);
      assert i < n ==> SetsLimit(commands[..n][i], key);
    }
  }

  /** What a reserve of q units would bring a pair to, as true numbers. */
  ghost function Demand(l: Ledger, p: Pair, q: nat): nat {
    Sum(l.reservations, CommittedUnder(LimitKey(p))) + Sum(l.reservations, ReservedFor(p)) + q
  }

  lemma ReserveWraps(l: Ledger, p: Pair, q: nat, id: ReservationId, requested: nat)
    requires LedgerInv(l, requested)
    ensures MemStep(l, Reserve(p.0, p.1, q, id)).1 ==
            if LimitKey(p) in l.limits && Wrap(Demand(l, p, q)) > l.limits[LimitKey(p)] then Denied else Accepted
  {
    var key := LimitKey(p);
    assert UsedIsCongruent(l, key);
    var c, r := Sum(l.reservations, CommittedUnder(key)), Sum(l.reservations, ReservedFor(p));
    WrapOnce(c, Wrap(r) + q);
    WrapOnce(r, c + q);
  }

  /** The demand fits a u64 or, wrapped, still passes the limit in force. */
  ghost predicate WrapsSafely(l: Ledger, p: Pair, q: nat) {
    LimitKey(p) in l.limits ==> Demand(l, p, q) < U64 || Demand(l, p, q) % U64 > l.limits[LimitKey(p)]
  }

  /**
   Over every run, in range or not: a limited reserve is decided rightly if and only if
   the demand fits a u64 or, wrapped, still passes the limit.
   */
  lemma DecisionRightIff(commands: seq<Command>, p: Pair, q: nat, id: ReservationId)
    requires FreshIds(commands) && LimitKey(p) in MemRun(commands).limits
    requires MemRun(commands).limits[LimitKey(p)] < U64
    ensures var l := MemRun(commands);
            (MemStep(l, Reserve(p.0, p.1, q, id)).1.Denied? <==> Demand(l, p, q) > l.limits[LimitKey(p)])
            <==> WrapsSafely(l, p, q)
  {
    RunKeepsInv(commands);
    ReserveWraps(MemRun(commands), p, q, id, Requested(commands));
  }

  lemma HeldSplits(rs: map<ReservationId, Reservation>, p: Pair)
    ensures Held(rs, p) == Sum(rs, CommittedFor(p)) + Sum(rs, ReservedFor(p))
    ensures Sum(rs, CommittedFor(p)) <= Sum(rs, CommittedUnder(LimitKey(p)))
  {
    SumAdd(rs, CommittedFor(p), ReservedFor(p), HeldFor(p));
    SumLe(rs, CommittedFor(p), CommittedUnder(LimitKey(p)));
  }

  /** No reserve of the pair wraps around to a total within its limit. */
  ghost predicate NeverFooled(commands: seq<Command>, p: Pair) {
    forall i :: 0 <= i < |commands| && Reserves(commands[i], p) ==>
      WrapsSafely(MemRun(commands[..i]), p, commands[i].quantity)
  }

  /** A reserve of a pair that already holds no more than the peak limit keeps it so. */
  lemma ReserveKeepsPeak(l: Ledger, p: Pair, q: nat, id: ReservationId, requested: nat, peak: nat)
    requires LedgerInv(l, requested) && id !in l.reservations && WrapsSafely(l, p, q)
    requires LimitKey(p) in l.limits && l.limits[LimitKey(p)] <= peak && Held(l.reservations, p) <= peak
    ensures Held(MemStep(l, Reserve(p.0, p.1, q, id)).0.reservations, p) <= peak
  {
    ReserveWraps(l, p, q, id, requested);
    WrapSmall(Demand(l, p, q));
    HeldSplits(l.reservations, p);
    if MemStep(l, Reserve(p.0, p.1, q, id)).1.Accepted? {
      assert Demand(l, p, q) <= peak;
      SumInsert(l.reservations, id, Reservation(p.0, p.1, q, Reserved), HeldFor(p));
    }
  }

  lemma PrefixConditions(commands: seq<Command>, p: Pair, n: nat)
    requires n <= |commands| && FreshIds(commands) && LimitedFirst(commands, p) && NeverFooled(commands, p)
    ensures FreshIds(commands[..n]) && LimitedFirst(commands[..n], p) && NeverFooled(commands[..n], p)
  {
    forall i | 0 <= i < n && Reserves(commands[i], p)
      ensures Limited(commands[..n][..i], LimitKey(p))
      ensures WrapsSafely(MemRun(commands[..n][..i]), p, commands[..n][i].quantity)
    {
      assert commands[..n][..i] == commands[..i];
    }
  }

  /**
   A pair that is limited before its first reservation never holds more, reserved and
   committed together, than the largest limit set so far, as long as no reserve of its
   own wraps around. This holds even for pairs that share a key.
   */
  lemma {:induction false} HeldNeverPassesPeakLimit(commands: seq<Command>, p: Pair)
    requires FreshIds(commands) && LimitedFirst(commands, p) && NeverFooled(commands, p)
    ensures Held(MemRun(commands).reservations, p) <= PeakLimit(commands, LimitKey(p))
  {
    if commands != [] {
      var n := |commands| - 1;
      var init, c := commands[..n], commands[n];
      PrefixConditions(commands, p, n);
      HeldNeverPassesPeakLimit(init, p);
      var l := MemRun(init);
      match c
      case SetLimit(_, _, _) =>
      case Commit(id) =>
        if id in l.reservations {
          SumInsert(l.reservations, id, l.reservations[id].(status := Committed), HeldFor(p));
        }
      case Release(id) =>
        if id in l.reservations {
          SumInsert(l.reservations, id, l.reservations[id].(status := Released), HeldFor(p));
        }
      case Reserve(t, cap, q, id) =>
        NextIdIsFresh(commands);
        if (t, cap) == p {
          RunKeepsInv(init);
          LimitInForce(init, LimitKey(p));
          ReserveKeepsPeak(l, p, q, id, Requested(init), PeakLimit(init, LimitKey(p)));
        } else {
          SumInsert(l.reservations, id, Reservation(t, cap, q, Reserved), HeldFor(p));
        }
    }
  }

  /** Nobody else reserves under the key of the pair. */
  ghost predicate OwnKey(commands: seq<Command>, p: Pair) {
    forall i, q :: 0 <= i < |commands| && Reserves(commands[i], q) && LimitKey(q) == LimitKey(p) ==> q == p
  }

  ghost predicate LimitsFit(commands: seq<Command>) {
    forall i :: 0 <= i < |commands| && commands[i].SetLimit? ==> commands[i].limit < U64
  }

  /** Every reservation under the key of p belongs to p. */
  ghost predicate KeyIsOwn(l: Ledger, p: Pair) {
    forall id :: id in l.reservations && LimitKey(l.reservations[id].Owner()) == LimitKey(p) ==>
      l.reservations[id].Owner() == p
  }

  lemma {:induction false} RunKeepsOwnKey(commands: seq<Command>, p: Pair)
    requires OwnKey(commands, p)
    ensures KeyIsOwn(MemRun(commands), p)
  {
    if commands != [] {
      RunKeepsOwnKey(commands[..|commands| - 1], p);
    }
  }

  lemma {:induction false} PeakFits(commands: seq<Command>, key: string)
    requires LimitsFit(commands)
    ensures PeakLimit(commands, key) < U64
  {
    if commands != [] {
      PeakFits(commands[..|commands| - 1], key);
    }
  }

  lemma OwnDemand(l: Ledger, p: Pair, q: nat)
    requires KeyIsOwn(l, p)
    ensures Demand(l, p, q) == Held(l.reservations, p) + q
  {
    SumLe(l.reservations, CommittedUnder(LimitKey(p)), CommittedFor(p));
    HeldSplits(l.reservations, p);
  }

  /** A reserve that wraps to within the limit is accepted and brings the pair to 2^64 or more. */
  lemma FooledReserveOverfills(l: Ledger, p: Pair, q: nat, id: ReservationId, requested: nat)
    requires LedgerInv(l, requested) && KeyIsOwn(l, p) && id !in l.reservations && !WrapsSafely(l, p, q)
    ensures Held(MemStep(l, Reserve(p.0, p.1, q, id)).0.reservations, p) >= U64
  {
    ReserveWraps(l, p, q, id, requested);
    OwnDemand(l, p, q);
    SumInsert(l.reservations, id, Reservation(p.0, p.1, q, Reserved), HeldFor(p));
  }

  /** The pair is within the largest limit so far at every point of the run. */
  ghost predicate AlwaysWithinPeak(commands: seq<Command>, p: Pair) {
    forall n :: 0 <= n <= |commands| ==>
      Held(MemRun(commands[..n]).reservations, p) <= PeakLimit(commands[..n], LimitKey(p))
  }

  lemma FooledBreaksPeak(commands: seq<Command>, p: Pair, i: nat)
    requires FreshIds(commands) && OwnKey(commands, p) && LimitsFit(commands) && i < |commands|
    requires Reserves(commands[i], p)
    requires !WrapsSafely(MemRun(commands[..i]), p, commands[i].quantity)
    ensures !AlwaysWithinPeak(commands, p)
  {
    var now := commands[..i + 1];
    assert now[..i] == commands[..i];
    RunKeepsInv(commands[..i]);
    RunKeepsOwnKey(commands[..i], p);
    NextIdIsFresh(now);
    FooledReserveOverfills(MemRun(commands[..i]), p, commands[i].quantity, commands[i].id, Requested(commands[..i]));
    PeakFits(now, LimitKey(p));
    assert Held(MemRun(commands[..i + 1]).reservations, p) > PeakLimit(commands[..i + 1], LimitKey(p));
  }

  /**
   For a pair with a key of its own that is limited before its first reservation: it stays
   within the largest limit set so far, at every point of the run, if and only if none of
   its reserves wraps around to within the limit in force.
   */
  lemma WithinPeakIff(commands: seq<Command>, p: Pair)
    requires FreshIds(commands) && LimitedFirst(commands, p) && OwnKey(commands, p) && LimitsFit(commands)
    ensures AlwaysWithinPeak(commands, p) <==> NeverFooled(commands, p)
  {
    if NeverFooled(commands, p) {
      forall n | 0 <= n <= |commands|
        ensures Held(MemRun(commands[..n]).reservations, p) <= PeakLimit(commands[..n], LimitKey(p))
      {
        PrefixConditions(commands, p, n);
        HeldNeverPassesPeakLimit(commands[..n], p);
      }
    } else {
      var i :| 0 <= i < |commands| && Reserves(commands[i], p)
        && !WrapsSafely(MemRun(commands[..i]), p, commands[i].quantity);
      FooledBreaksPeak(commands, p, i);
    }
  }

  /** Out of range the check can be fooled: the sum wraps to zero and 2^64 - 1 units pass a limit of one. */
  lemma WrapAroundAdmits()
    ensures var commands := [SetLimit("t", "c", 1), Reserve("t", "c", 1, 0)];
            MemStep(MemRun(commands), Reserve("t", "c", U64 - 1, 1)).1 == Accepted
  {
    var commands := [SetLimit("t", "c", 1), Reserve("t", "c", 1, 0)];
    var c1 := [SetLimit("t", "c", 1)];
    assert commands[..1] == c1 && c1[..0] == [];
    var p: Pair := ("t", "c");
    assert MemRun(c1) == MemStep(EMPTY_LEDGER, c1[0]).0;
    assert MemRun(commands) == MemStep(MemRun(c1), commands[1]).0;
    assert Sum(EMPTY_LEDGER.reservations, ReservedFor(p)) == 0;
    SumInsert(EMPTY_LEDGER.reservations, 0, Reservation("t", "c", 1, Reserved), ReservedFor(p));
  }
}
