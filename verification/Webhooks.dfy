/**
 Billing webhooks: each delivery claims its event id in the ledger, projects a grant or
 revoke onto the entitlements, and records the result in the ledger row. Signature,
 decoding and the success of each database statement are inputs of a delivery.
 */
module Webhooks {
  import opened Options

  /** The key of an entitlement; the provider is always "creem". */
  datatype Subject = Subject(tenant: string, subject: string, capability: string)

  datatype Event = Event(
    id: string, eventType: string, metadata: Option<Subject>, customer: Option<string>, subscription: Option<string>)

  datatype Status = Received | Processed | Failed

  datatype Row = Row(eventType: string, status: Status, attempts: nat)

  datatype Entitlement = Entitlement(customer: string, subscription: string, active: bool)

  type Entitlements = map<Subject, Entitlement>

  datatype State = State(ledger: map<string, Row>, entitlements: Entitlements)

  datatype Outcome = Done | Duplicate | Unauthorized | BadRequest | Dependency

  const INITIAL := State(map[], map[])

  // ------------------------------------------------------------- the projection

  predicate Granting(eventType: string) {
    eventType == "checkout.completed" || eventType == "subscription.active" || eventType == "subscription.paid"
  }

  predicate Revoking(eventType: string) {
    eventType == "subscription.canceled" || eventType == "subscription.expired" || eventType == "refund.created"
  }

  predicate Grants(e: Event, k: Subject) {
    e.metadata == Some(k) && Granting(e.eventType)
  }

  predicate Revokes(e: Event, k: Subject) {
    e.metadata == Some(k) && Revoking(e.eventType)
  }

  /** Only grants and revokes with metadata reach the database. */
  predicate Projects(e: Event) {
    e.metadata.Some? && (Granting(e.eventType) || Revoking(e.eventType))
  }

  function OrEmpty(s: Option<string>): string {
    if s.Some? then s.value else ""
  }

  /** A grant inserts or overwrites the row; a revoke updates the row if there is one. */
  function Project(t: Entitlements, e: Event): Entitlements {
    if !Projects(e) then t
    else
      var k := e.metadata.value;
      if Granting(e.eventType) then t[k := Entitlement(OrEmpty(e.customer), OrEmpty(e.subscription), true)]
      else if k in t then t[k := t[k].(active := false)]
      else t
  }

  function Replay(events: seq<Event>): Entitlements {
    if events == [] then map[] else Project(Replay(events[..|events| - 1]), events[|events| - 1])
  }

  /** The i-th event is the last word on k. */
  predicate LastWord(events: seq<Event>, k: Subject, i: nat) {
    && i < |events|
    && (Grants(events[i], k) || Revokes(events[i], k))
    && forall j :: i < j < |events| ==> !Grants(events[j], k) && !Revokes(events[j], k)
  }

  predicate Active(t: Entitlements, k: Subject) {
    k in t && t[k].active
  }

  /** An entitlement is active if and only if the last grant or revoke for it was a grant. */
  lemma {:induction false} ActiveIffLastWasGrant(events: seq<Event>, k: Subject)
    ensures Active(Replay(events), k) <==> exists i: nat :: LastWord(events, k, i) && Grants(events[i], k)
    ensures forall i: nat :: LastWord(events, k, i) && Grants(events[i], k) ==>
              Replay(events)[k] == Entitlement(OrEmpty(events[i].customer), OrEmpty(events[i].subscription), true)
  {
    if events != [] {
      var n := |events| - 1;
      var init, e := events[..n], events[n];
      ActiveIffLastWasGrant(init, k);
      if Grants(e, k) || Revokes(e, k) {
        assert LastWord(events, k, n);
      } else {
        forall i | 0 <= i < n
          ensures LastWord(events, k, i) <==> LastWord(init, k, i)
        {
          assert LastWord(init, k, i) ==> forall j :: i < j < n ==> events[j] == init[j];
          assert LastWord(events, k, i) ==> forall j :: i < j < n ==> init[j] == events[j];
        }
        assert k in Replay(events) <==> k in Replay(init);
        if i: nat :| LastWord(init, k, i) && Grants(init[i], k) {
          assert LastWord(events, k, i) && Grants(events[i], k);
        }
      }
    }
  }

  predicate LastGrant(events: seq<Event>, k: Subject, i: nat) {
    i < |events| && Grants(events[i], k) && forall j :: i < j < |events| ==> !Grants(events[j], k)
  }

  /** There is a row for k iff k was ever granted, and it names the last grant, revoked or not. */
  lemma {:induction false} RowNamesLastGrant(events: seq<Event>, k: Subject)
    ensures k in Replay(events) <==> exists i: nat :: LastGrant(events, k, i)
    ensures forall i: nat :: LastGrant(events, k, i) && k in Replay(events) ==>
              && Replay(events)[k].customer == OrEmpty(events[i].customer)
              && Replay(events)[k].subscription == OrEmpty(events[i].subscription)
  {
    if events != [] {
      var n := |events| - 1;
      var init := events[..n];
      RowNamesLastGrant(init, k);
      if Grants(events[n], k) {
        assert LastGrant(events, k, n);
      } else {
        forall i: nat
          ensures LastGrant(events, k, i) <==> LastGrant(init, k, i)
        {
          assert forall j :: 0 <= j < n ==> init[j] == events[j];
        }
      }
    }
  }

  // ---------------------------------------------------------------- one delivery

  /** `inserts`, `projects` and `marks`: whether the three database statements succeed. */
  datatype Delivery = Delivery(signed: bool, event: Option<Event>, inserts: bool, projects: bool, marks: bool)

  predicate Accepted(d: Delivery) {
    d.signed && d.event.Some? && d.inserts
  }

  predicate Succeeds(d: Delivery)
    requires d.event.Some?
  {
    d.projects || !Projects(d.event.value)
  }

  /** The ledger row a first delivery leaves behind. */
  function RowAfter(d: Delivery): Row
    requires d.event.Some?
  {
    var e := d.event.value;
    if !d.marks then Row(e.eventType, Received, 0)
    else Row(e.eventType, if Succeeds(d) then Processed else Failed, 1)
  }

  function Handle(s: State, d: Delivery): (State, Outcome) {
    if !d.signed then (s, Unauthorized)
    else if d.event.None? then (s, BadRequest)
    else if !d.inserts then (s, Dependency)
    else
      var e := d.event.value;
      if e.id in s.ledger then (s, Duplicate)
      else
        (State(s.ledger[e.id := RowAfter(d)], if Succeeds(d) then Project(s.entitlements, e) else s.entitlements),
         if d.marks && Succeeds(d) then Done else Dependency)
  }

  // ------------------------------------------------------- sequences of deliveries

  function Run(ds: seq<Delivery>): State {
    if ds == [] then INITIAL else Handle(Run(ds[..|ds| - 1]), ds[|ds| - 1]).0
  }

  /** The i-th delivery is the first accepted one of its event id. */
  predicate First(ds: seq<Delivery>, i: nat) {
    && i < |ds| && Accepted(ds[i])
    && forall j :: 0 <= j < i && Accepted(ds[j]) ==> ds[j].event.value.id != ds[i].event.value.id
  }

  function Firsts(ds: seq<Delivery>): seq<Delivery> {
    if ds == [] then []
    else if First(ds, |ds| - 1) then Firsts(ds[..|ds| - 1]) + [ds[|ds| - 1]]
    else Firsts(ds[..|ds| - 1])
  }

  /** The first deliveries whose projection succeeded. */
  function Applied(ds: seq<Delivery>): seq<Delivery> {
    if ds == [] then []
    else if First(ds, |ds| - 1) && Succeeds(ds[|ds| - 1]) then Applied(ds[..|ds| - 1]) + [ds[|ds| - 1]]
    else Applied(ds[..|ds| - 1])
  }

  function EventsOf(ds: seq<Delivery>): seq<Event> {
    if ds == [] then []
    else if ds[|ds| - 1].event.Some? then EventsOf(ds[..|ds| - 1]) + [ds[|ds| - 1].event.value]
    else EventsOf(ds[..|ds| - 1])
  }

  predicate Seen(ds: seq<Delivery>, id: string) {
    exists i :: 0 <= i < |ds| && Accepted(ds[i]) && ds[i].event.value.id == id
  }

  lemma {:induction false} LedgerIsSeen(ds: seq<Delivery>, id: string)
    ensures id in Run(ds).ledger <==> Seen(ds, id)
  {
    if ds != [] {
      var n := |ds| - 1;
      var init := ds[..n];
      LedgerIsSeen(init, id);
      if Seen(init, id) {
        var i :| 0 <= i < n && Accepted(init[i]) && init[i].event.value.id == id;
        assert Accepted(ds[i]) && ds[i].event.value.id == id;
      }
      if i :| 0 <= i < |ds| && Accepted(ds[i]) && ds[i].event.value.id == id && i < n {
        assert Accepted(init[i]);
      }
    }
  }

  lemma FirstIffNew(ds: seq<Delivery>, n: nat)
    requires n < |ds| && Accepted(ds[n])
    ensures First(ds, n) <==> ds[n].event.value.id !in Run(ds[..n]).ledger
  {
    LedgerIsSeen(ds[..n], ds[n].event.value.id);
    if !First(ds, n) {
      var j :| 0 <= j < n && Accepted(ds[j]) && ds[j].event.value.id == ds[n].event.value.id;
      assert Accepted(ds[..n][j]);
    }
  }

  /** A delivery that is not the first of its id changes nothing; it is answered Duplicate or rejected. */
  lemma OutcomeIff(ds: seq<Delivery>, n: nat)
    requires n < |ds|
    ensures var (s', o) := Handle(Run(ds[..n]), ds[n]);
            && (!First(ds, n) ==> s' == Run(ds[..n]))
            && (o == Duplicate <==> Accepted(ds[n]) && !First(ds, n))
            && (o == Done <==> First(ds, n) && Succeeds(ds[n]) && ds[n].marks)
            && (o == Unauthorized <==> !ds[n].signed)
            && (o == BadRequest <==> ds[n].signed && ds[n].event.None?)
  {
    if Accepted(ds[n]) {
      FirstIffNew(ds, n);
    }
  }

  lemma RunAppend(ds: seq<Delivery>, d: Delivery)
    ensures Run(ds + [d]) == Handle(Run(ds), d).0
  {
    assert (ds + [d])[..|ds|] == ds;
  }

  /** Processing with repeats leaves exactly the state of processing first occurrences only. */
  lemma {:induction false} RepeatsChangeNothing(ds: seq<Delivery>)
    ensures Run(ds) == Run(Firsts(ds))
  {
    if ds != [] {
      var n := |ds| - 1;
      RepeatsChangeNothing(ds[..n]);
      OutcomeIff(ds, n);
      if First(ds, n) {
        RunAppend(Firsts(ds[..n]), ds[n]);
      }
    }
  }

  lemma ReplayAppend(ds: seq<Delivery>, d: Delivery)
    requires d.event.Some?
    ensures Replay(EventsOf(ds + [d])) == Project(Replay(EventsOf(ds)), d.event.value)
  {
    assert (ds + [d])[..|ds|] == ds;
    var events := EventsOf(ds) + [d.event.value];
    assert events[..|events| - 1] == EventsOf(ds);
  }

  /** Each event is applied at most once, in the order of first deliveries. */
  lemma {:induction false} EntitlementsAreReplay(ds: seq<Delivery>)
    ensures Run(ds).entitlements == Replay(EventsOf(Applied(ds)))
  {
    if ds != [] {
      var n := |ds| - 1;
      EntitlementsAreReplay(ds[..n]);
      OutcomeIff(ds, n);
      if First(ds, n) {
        FirstIffNew(ds, n);
        ReplayAppend(Applied(ds[..n]), ds[n]);
      }
    }
  }

  lemma EventsAppend(ds: seq<Delivery>, d: Delivery)
    requires d.event.Some?
    ensures EventsOf(ds + [d]) == EventsOf(ds) + [d.event.value]
  {
    assert (ds + [d])[..|ds|] == ds;
  }

  /** The applied events are those of the first deliveries whose projection succeeded. */
  lemma {:induction false} AppliedEvents(ds: seq<Delivery>, e: Event)
    ensures e in EventsOf(Applied(ds)) <==>
            exists j: nat :: First(ds, j) && Succeeds(ds[j]) && ds[j].event == Some(e)
  {
    if ds != [] {
      var n := |ds| - 1;
      var init := ds[..n];
      AppliedEvents(init, e);
      if j: nat :| First(init, j) && Succeeds(init[j]) && init[j].event == Some(e) {
        FirstInInit(ds, j);
        assert First(ds, j) && Succeeds(ds[j]) && ds[j].event == Some(e);
      }
      if j: nat :| First(ds, j) && Succeeds(ds[j]) && ds[j].event == Some(e) && j < n {
        FirstInInit(ds, j);
        assert First(init, j) && Succeeds(init[j]) && init[j].event == Some(e);
      }
      if First(ds, n) && Succeeds(ds[n]) {
        EventsAppend(Applied(init), ds[n]);
      }
    }
  }

  lemma AppliedIff(ds: seq<Delivery>, i: nat)
    requires First(ds, i)
    ensures ds[i].event.value in EventsOf(Applied(ds)) <==> Succeeds(ds[i])
  {
    var e := ds[i].event.value;
    AppliedEvents(ds, e);
    if j: nat :| First(ds, j) && Succeeds(ds[j]) && ds[j].event == Some(e) {
      assert j == i;
    }
  }

  lemma {:induction false} RowIsTheFirst(ds: seq<Delivery>, i: nat)
    requires First(ds, i)
    ensures var id := ds[i].event.value.id;
            id in Run(ds).ledger && Run(ds).ledger[id] == RowAfter(ds[i])
  {
    var n := |ds| - 1;
    OutcomeIff(ds, n);
    if i == n {
      FirstIffNew(ds, n);
    } else {
      FirstInInit(ds, i);
      RowIsTheFirst(ds[..n], i);
    }
  }

  /**
   For good, the ledger row of an event tells how its first delivery went: it has the type
   of the event, it is processed iff the mark succeeded and the event was applied, failed
   iff it succeeded and the event was not, and untouched since its insert iff it failed.
   */
  lemma RowTellsFirstDelivery(ds: seq<Delivery>, i: nat)
    requires First(ds, i)
    ensures ds[i].event.value.id in Run(ds).ledger
    ensures var e := ds[i].event.value;
            var row := Run(ds).ledger[e.id];
            var applied := e in EventsOf(Applied(ds));
            && row.eventType == e.eventType
            && (row.status.Processed? <==> ds[i].marks && applied)
            && (row.status.Failed? <==> ds[i].marks && !applied)
            && (row.status.Received? <==> !ds[i].marks)
            && row.attempts == (if ds[i].marks then 1 else 0)
  {
    RowIsTheFirst(ds, i);
    AppliedIff(ds, i);
  }

  // -------------------------------------------------------- failed projections

  lemma FirstInInit(ds: seq<Delivery>, i: nat)
    requires i < |ds| - 1
    ensures First(ds[..|ds| - 1], i) <==> First(ds, i)
  {
    var init := ds[..|ds| - 1];
    assert forall j :: 0 <= j <= i ==> init[j] == ds[j];
  }

  /** Delivery i is the first of its event, and the event is a grant or revoke for k. */
  predicate Word(ds: seq<Delivery>, k: Subject, i: nat) {
    First(ds, i) && (Grants(ds[i].event.value, k) || Revokes(ds[i].event.value, k))
  }

  /** The last thing the provider said about k. */
  predicate LastSaid(ds: seq<Delivery>, k: Subject, i: nat) {
    Word(ds, k, i) && forall j :: i < j < |ds| ==> !Word(ds, k, j)
  }

  /** The last thing about k that was projected. */
  predicate LastHeard(ds: seq<Delivery>, k: Subject, i: nat) {
    Word(ds, k, i) && Succeeds(ds[i]) && forall j :: i < j < |ds| && Word(ds, k, j) ==> !Succeeds(ds[j])
  }

  ghost predicate HeardGrant(ds: seq<Delivery>, k: Subject) {
    exists i: nat :: LastHeard(ds, k, i) && Grants(ds[i].event.value, k)
  }

  lemma WordInInit(ds: seq<Delivery>, k: Subject, i: nat)
    requires i < |ds| - 1
    ensures Word(ds[..|ds| - 1], k, i) <==> Word(ds, k, i)
  {
    FirstInInit(ds, i);
  }

  /** A last delivery that is not heard about k changes nothing about what was heard last. */
  lemma LastHeardInInit(ds: seq<Delivery>, k: Subject, i: nat)
    requires ds != [] && !(Word(ds, k, |ds| - 1) && Succeeds(ds[|ds| - 1])) && i < |ds| - 1
    ensures LastHeard(ds[..|ds| - 1], k, i) <==> LastHeard(ds, k, i)
  {
    var init := ds[..|ds| - 1];
    forall j: nat | j < |init|
      ensures Word(init, k, j) <==> Word(ds, k, j)
    {
      WordInInit(ds, k, j);
    }
  }

  lemma HeardInInit(ds: seq<Delivery>, k: Subject)
    requires ds != [] && !(Word(ds, k, |ds| - 1) && Succeeds(ds[|ds| - 1]))
    ensures HeardGrant(ds, k) <==> HeardGrant(ds[..|ds| - 1], k)
  {
    var init := ds[..|ds| - 1];
    if HeardGrant(init, k) {
      var i: nat :| LastHeard(init, k, i) && Grants(init[i].event.value, k);
      LastHeardInInit(ds, k, i);
    }
    if HeardGrant(ds, k) {
      var i: nat :| LastHeard(ds, k, i) && Grants(ds[i].event.value, k);
      LastHeardInInit(ds, k, i);
    }
  }

  /** For every sequence of deliveries: k is active if and only if the last thing heard about it was a grant. */
  lemma {:induction false} ActiveIffHeardGrant(ds: seq<Delivery>, k: Subject)
    ensures Active(Run(ds).entitlements, k) <==> HeardGrant(ds, k)
  {
    if ds != [] {
      var n := |ds| - 1;
      ActiveIffHeardGrant(ds[..n], k);
      OutcomeIff(ds, n);
      if First(ds, n) {
        FirstIffNew(ds, n);
      }
      if Word(ds, k, n) && Succeeds(ds[n]) {
        assert LastHeard(ds, k, n);
      } else {
        HeardInInit(ds, k);
      }
    }
  }

  /** The same deliveries with no projection failing. */
  function AllProjected(ds: seq<Delivery>): (r: seq<Delivery>)
    ensures |r| == |ds| && forall i :: 0 <= i < |ds| ==> r[i] == ds[i].(projects := true)
  {
    seq(|ds|, i requires 0 <= i < |ds| => ds[i].(projects := true))
  }

  lemma SaidIsHeardIfAllProjected(ds: seq<Delivery>, k: Subject)
    ensures HeardGrant(AllProjected(ds), k) <==> exists i: nat :: LastSaid(ds, k, i) && Grants(ds[i].event.value, k)
  {
    var all := AllProjected(ds);
    forall i: nat | i < |ds|
      ensures First(all, i) <==> First(ds, i)
    {
      assert forall j :: 0 <= j <= i ==> (Accepted(all[j]) <==> Accepted(ds[j]));
    }
    assert forall i: nat :: i < |ds| ==> (Word(all, k, i) <==> Word(ds, k, i));
    if i: nat :| LastSaid(ds, k, i) && Grants(ds[i].event.value, k) {
      assert LastHeard(all, k, i);
    }
    if i: nat :| LastHeard(all, k, i) && Grants(all[i].event.value, k) {
      assert LastSaid(ds, k, i);
    }
  }

  /**
   When failed projections show: whether k is active differs from what it would be had
   every projection succeeded, if and only if the last thing said about k failed to
   project and asked for the opposite of the last thing heard. A later success hides
   every earlier failure.
   */
  lemma LossShowsIff(ds: seq<Delivery>, k: Subject)
    ensures (Active(Run(ds).entitlements, k) <==> !Active(Run(AllProjected(ds)).entitlements, k)) <==>
            exists i: nat ::
              && LastSaid(ds, k, i) && !Succeeds(ds[i])
              && (Grants(ds[i].event.value, k) <==> !HeardGrant(ds, k))
  {
    ActiveIffHeardGrant(ds, k);
    ActiveIffHeardGrant(AllProjected(ds), k);
    SaidIsHeardIfAllProjected(ds, k);
    if i: nat :| LastSaid(ds, k, i) {
      OneLastSaid(ds, k, i);
    } else {
      SilenceIsInactive(ds, k);
    }
  }

  lemma OneLastSaid(ds: seq<Delivery>, k: Subject, i: nat)
    requires LastSaid(ds, k, i)
    ensures forall j: nat :: LastSaid(ds, k, j) ==> j == i
    ensures Succeeds(ds[i]) ==> (HeardGrant(ds, k) <==> Grants(ds[i].event.value, k))
  {
    forall j: nat | LastSaid(ds, k, j)
      ensures j == i
    {
      assert j < i ==> !Word(ds, k, i);
      assert i < j ==> !Word(ds, k, j);
    }
    if Succeeds(ds[i]) {
      assert LastHeard(ds, k, i);
      forall j: nat | LastHeard(ds, k, j)
        ensures j == i
      {
        assert i < j ==> !Word(ds, k, j);
      }
    }
  }

  lemma SilenceIsInactive(ds: seq<Delivery>, k: Subject)
    requires forall i: nat :: !LastSaid(ds, k, i)
    ensures !HeardGrant(ds, k)
  {
    forall i: nat
      ensures !Word(ds, k, i)
    {
      NoWordAfter(ds, k, i);
    }
  }

  /** If nothing is the last word on k, there is no word from i on. */
  lemma {:induction false} NoWordAfter(ds: seq<Delivery>, k: Subject, i: nat)
    requires forall j: nat :: !LastSaid(ds, k, j)
    ensures forall j :: i <= j < |ds| ==> !Word(ds, k, j)
    decreases |ds| - i
  {
    if i < |ds| {
      NoWordAfter(ds, k, i + 1);
      assert !LastSaid(ds, k, i);
    }
  }

  function Without(ds: seq<Delivery>, id: string): seq<Delivery> {
    if ds == [] then []
    else
      var d := ds[|ds| - 1];
      if About(d, id) then Without(ds[..|ds| - 1], id)
      else Without(ds[..|ds| - 1], id) + [d]
  }

  lemma RemoveAndInsert(m: map<string, Row>, id: string, k: string, v: Row)
    ensures m[k := v] - {id} == if k == id then m - {id} else (m - {id})[k := v]
  {
  }

  /** Deleting an id from the deliveries deletes it from the ledger and touches no other row. */
  lemma {:induction false} WithoutLedger(ds: seq<Delivery>, id: string)
    ensures Run(Without(ds, id)).ledger == Run(ds).ledger - {id}
  {
    if ds != [] {
      var n := |ds| - 1;
      WithoutLedger(ds[..n], id);
      RunAppend(Without(ds[..n], id), ds[n]);
      if Accepted(ds[n]) {
        RemoveAndInsert(Run(ds[..n]).ledger, id, ds[n].event.value.id, RowAfter(ds[n]));
      }
    }
  }

  predicate About(d: Delivery, id: string) {
    d.event.Some? && d.event.value.id == id
  }

  /** A delivery about another event has the same effect whether or not id is in the ledger. */
  lemma OtherDeliverySame(s: State, t: State, d: Delivery, id: string)
    requires t.ledger == s.ledger - {id} && t.entitlements == s.entitlements && !About(d, id)
    ensures Handle(t, d).0.entitlements == Handle(s, d).0.entitlements
  {
  }

  /** A delivery after which its id is still not in the ledger did nothing. */
  lemma RefusedDeliveryDoesNothing(s: State, d: Delivery, id: string)
    requires About(d, id) && id !in Handle(s, d).0.ledger
    ensures Handle(s, d).0 == s
  {
  }

  lemma LedgerGrows(s: State, d: Delivery, id: string)
    ensures id in s.ledger ==> id in Handle(s, d).0.ledger
  {
  }

  lemma {:induction false} UnseenLeavesNoTrace(ds: seq<Delivery>, id: string)
    requires id !in Run(ds).ledger
    ensures Run(ds).entitlements == Run(Without(ds, id)).entitlements
  {
    if ds != [] {
      var n := |ds| - 1;
      LedgerGrows(Run(ds[..n]), ds[n], id);
      UnseenLeavesNoTrace(ds[..n], id);
      if About(ds[n], id) {
        RefusedDeliveryDoesNothing(Run(ds[..n]), ds[n], id);
      } else {
        WithoutLedger(ds[..n], id);
        RunAppend(Without(ds[..n], id), ds[n]);
        OtherDeliverySame(Run(ds[..n]), Run(Without(ds[..n], id)), ds[n], id);
      }
    }
  }

  /**
   A failed projection is never made up for: redeliveries of the event are answered
   Duplicate, and the entitlements are those of a history in which it never arrived.
   */
  lemma {:induction false} FailedEventLeavesNoTrace(ds: seq<Delivery>, i: nat)
    requires First(ds, i) && !Succeeds(ds[i])
    ensures Run(ds).entitlements == Run(Without(ds, ds[i].event.value.id)).entitlements
  {
    var n, id := |ds| - 1, ds[i].event.value.id;
    OutcomeIff(ds, n);
    if i == n {
      FirstIffNew(ds, n);
      UnseenLeavesNoTrace(ds[..n], id);
    } else {
      FirstInInit(ds, i);
      FailedEventLeavesNoTrace(ds[..n], i);
      if !About(ds[n], id) {
        WithoutLedger(ds[..n], id);
        RunAppend(Without(ds[..n], id), ds[n]);
        OtherDeliverySame(Run(ds[..n]), Run(Without(ds[..n], id)), ds[n], id);
      }
    }
  }

  /** A grant whose projection fails, delivered again: the customer stays without access. */
  lemma FailedGrantIsLost(e: Event, k: Subject)
    requires Grants(e, k)
    ensures var ds := [Delivery(true, Some(e), true, false, true), Delivery(true, Some(e), true, true, true)];
            && Run(ds) == State(map[e.id := Row(e.eventType, Failed, 1)], map[])
            && Handle(Run(ds[..1]), ds[1]).1 == Duplicate
            && Active(Run(AllProjected(ds)).entitlements, k)
  {
    var ds := [Delivery(true, Some(e), true, false, true), Delivery(true, Some(e), true, true, true)];
    var good := AllProjected(ds);
    assert ds[..1][..0] == [] && ds[..2][..1] == ds[..1] && ds[..2] == ds;
    assert good[..1][..0] == [] && good[..2] == good && good[..2][..1] == good[..1];
    assert Run(ds[..1]) == Handle(INITIAL, ds[0]).0;
    assert Run(good[..1]) == Handle(INITIAL, good[0]).0;
  }
}
