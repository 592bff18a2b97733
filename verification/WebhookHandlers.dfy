/**
 The webhook handler as the server runs it, and any number of handlers interleaved at
 their three database statements, each of which may be cut off between any two of them.
 */
module WebhookHandlers {
  import opened Options
  import opened Webhooks

  class CreemBillingProvider {
    var ledger: map<string, Row>
    var entitlements: Entitlements

    function Contents(): State
      reads this
    {
      State(ledger, entitlements)
    }

    constructor ()
      ensures Contents() == INITIAL
    {
      ledger, entitlements := map[], map[];
    }

    /** Events without metadata and of other types succeed without touching the database. */
    method ApplyEvent(e: Event, projects: bool) returns (ok: bool)
      modifies this`entitlements
      ensures ok <==> projects || !Projects(e)
      ensures entitlements == if ok then Project(old(entitlements), e) else old(entitlements)
    {
      ok := true;
      if e.metadata.Some? {
        var k := e.metadata.value;
        if Granting(e.eventType) {
          ok := projects;
          if projects {
            entitlements := entitlements[k := Entitlement(OrEmpty(e.customer), OrEmpty(e.subscription), true)];
          }
        } else if Revoking(e.eventType) {
          ok := projects;
          if projects && k in entitlements {
            entitlements := entitlements[k := entitlements[k].(active := false)];
          }
        }
      }
    }

    method MarkRow(id: string, status: Status, marks: bool)
      requires id in ledger
      modifies this`ledger
      ensures ledger == if marks
                        then old(ledger)[id := Row(old(ledger)[id].eventType, status, old(ledger)[id].attempts + 1)]
                        else old(ledger)
    {
      if marks {
        ledger := ledger[id := ledger[id].(status := status, attempts := ledger[id].attempts + 1)];
      }
    }

    method HandleWebhook(d: Delivery) returns (o: Outcome)
      modifies this
      ensures (Contents(), o) == Handle(old(Contents()), d)
    {
      if !d.signed {
        return Unauthorized;
      }
      if d.event.None? {
        return BadRequest;
      }
      var e := d.event.value;
      if !d.inserts {
        return Dependency;
      }
      if e.id in ledger {
        return Duplicate;
      }
      ledger := ledger[e.id := Row(e.eventType, Received, 0)];
      var ok := ApplyEvent(e, d.projects);
      MarkRow(e.id, if ok then Processed else Failed, d.marks);
      assert ledger == old(ledger)[e.id := RowAfter(d)];
      o := if d.marks && ok then Done else Dependency;
    }
  }

  // -------------------------------------------------------- interleaved handlers

  datatype Handler = Idle | Claimed(event: Event) | Tried(event: Event, ok: bool)

  /** `log` is the history of applied events. */
  datatype System = System(
    ledger: map<string, Row>, entitlements: Entitlements, handlers: map<nat, Handler>, log: seq<Event>)

  datatype Action =
    | Insert(h: nat, event: Event)
    | Apply(h: nat, projects: bool)
    | Finish(h: nat, marks: bool)
    | Stop(h: nat)

  const START := System(map[], map[], map[], [])

  function HandlerOf(s: System, h: nat): Handler {
    if h in s.handlers then s.handlers[h] else Idle
  }

  function Step(s: System, a: Action): System {
    var handler := HandlerOf(s, a.h);
    match a
    case Insert(h, e) =>
      if !handler.Idle? || e.id in s.ledger then s
      else s.(ledger := s.ledger[e.id := Row(e.eventType, Received, 0)], handlers := s.handlers[h := Claimed(e)])
    case Apply(h, projects) =>
      if !handler.Claimed? then s
      else if !projects && Projects(handler.event) then s.(handlers := s.handlers[h := Tried(handler.event, false)])
      else s.(entitlements := Project(s.entitlements, handler.event),
              handlers := s.handlers[h := Tried(handler.event, true)],
              log := s.log + [handler.event])
    case Finish(h, marks) =>
      if !handler.Tried? then s
      else s.(ledger := if marks && handler.event.id in s.ledger
                        then s.ledger[handler.event.id := Row(s.ledger[handler.event.id].eventType,
                                                              if handler.ok then Processed else Failed,
                                                              s.ledger[handler.event.id].attempts + 1)]
                        else s.ledger,
              handlers := s.handlers[h := Idle])
    case Stop(h) => s.(handlers := s.handlers[h := Idle])
  }

  function RunAll(actions: seq<Action>): System {
    if actions == [] then START else Step(RunAll(actions[..|actions| - 1]), actions[|actions| - 1])
  }

  /** One handler alone: its three statements in a row leave the ledger and entitlements of the whole handler. */
  lemma StepsAreHandle(s: System, h: nat, d: Delivery)
    requires HandlerOf(s, h).Idle? && Accepted(d)
    ensures var s1 := Step(s, Insert(h, d.event.value));
            var s' := Step(Step(s1, Apply(h, d.projects)), Finish(h, d.marks));
            && State(s'.ledger, s'.entitlements) == Handle(State(s.ledger, s.entitlements), d).0
            && HandlerOf(s', h).Idle?
            && forall g: nat :: g != h ==> HandlerOf(s', g) == HandlerOf(s, g)
  {
    var e := d.event.value;
    if e.id !in s.ledger {
      var s1 := Step(s, Insert(h, e));
      var s2 := Step(s1, Apply(h, d.projects));
      assert HandlerOf(s1, h) == Claimed(e) && HandlerOf(s2, h) == Tried(e, Succeeds(d));
      assert s2.ledger[e.id] == Row(e.eventType, Received, 0);
      assert Step(s2, Finish(h, d.marks)).ledger == s.ledger[e.id := RowAfter(d)];
    }
  }

  predicate Logged(log: seq<Event>, id: string) {
    exists i :: 0 <= i < |log| && log[i].id == id
  }

  predicate NoRepeats(log: seq<Event>) {
    forall i, j :: 0 <= i < j < |log| ==> log[i].id != log[j].id
  }

  /** What holds of a handler in flight: it owns a ledger row that is still being worked on. */
  predicate OwnsRow(s: System, h: nat) {
    var handler := HandlerOf(s, h);
    handler.Idle? ||
    (&& handler.event.id in s.ledger
     && s.ledger[handler.event.id].status == Received && s.ledger[handler.event.id].attempts == 0
     && (Logged(s.log, handler.event.id) <==> handler.Tried? && handler.ok))
  }

  ghost predicate Exclusive(s: System) {
    forall h: nat, g: nat ::
      h != g && !HandlerOf(s, h).Idle? && !HandlerOf(s, g).Idle? ==>
        HandlerOf(s, h).event.id != HandlerOf(s, g).event.id
  }

  /** A finished row tells the truth: processed rows were applied, failed rows were not. */
  predicate HonestRow(s: System, id: string) {
    id in s.ledger ==>
      && (s.ledger[id].status == Processed ==> Logged(s.log, id))
      && (s.ledger[id].status == Failed ==> !Logged(s.log, id))
      && s.ledger[id].attempts == (if s.ledger[id].status == Received then 0 else 1)
  }

  ghost predicate Inv(s: System) {
    && s.entitlements == Replay(s.log)
    && NoRepeats(s.log)
    && (forall i :: 0 <= i < |s.log| ==> s.log[i].id in s.ledger)
    && (forall h: nat :: OwnsRow(s, h))
    && Exclusive(s)
    && (forall id :: HonestRow(s, id))
  }

  lemma LoggedAppend(log: seq<Event>, e: Event, id: string)
    ensures Logged(log + [e], id) <==> Logged(log, id) || id == e.id
  {
    var log' := log + [e];
    if i :| 0 <= i < |log| && log[i].id == id {
      assert log'[i].id == id;
    }
    assert log'[|log|].id == e.id;
  }

  lemma InsertKeepsInv(s: System, h: nat, e: Event)
    requires Inv(s)
    ensures Inv(Step(s, Insert(h, e)))
  {
    var s' := Step(s, Insert(h, e));
    assert forall g: nat :: g != h ==> HandlerOf(s', g) == HandlerOf(s, g);
    assert !Logged(s.log, e.id) || e.id in s.ledger;
    forall g: nat ensures OwnsRow(s', g) {
      assert OwnsRow(s, g);
    }
    forall a: nat, b: nat | a != b && !HandlerOf(s', a).Idle? && !HandlerOf(s', b).Idle?
      ensures HandlerOf(s', a).event.id != HandlerOf(s', b).event.id
    {
      assert OwnsRow(s, a) && OwnsRow(s, b);
    }
    forall id ensures HonestRow(s', id) {
      assert HonestRow(s, id);
    }
  }

  lemma FailedApplyKeepsInv(s: System, h: nat, s': System)
    requires Inv(s) && HandlerOf(s, h).Claimed?
    requires s' == s.(handlers := s.handlers[h := Tried(HandlerOf(s, h).event, false)])
    ensures Inv(s')
  {
    assert OwnsRow(s, h);
    assert forall g: nat :: g != h ==> HandlerOf(s', g) == HandlerOf(s, g);
    forall g: nat ensures OwnsRow(s', g) {
      assert OwnsRow(s, g);
    }
    forall id ensures HonestRow(s', id) {
      assert HonestRow(s, id);
    }
  }

  /** Appending an event that is not in the log yet. */
  lemma LogGrows(log: seq<Event>, e: Event)
    requires NoRepeats(log) && !Logged(log, e.id)
    ensures NoRepeats(log + [e]) && Replay(log + [e]) == Project(Replay(log), e)
    ensures forall id :: Logged(log + [e], id) <==> Logged(log, id) || id == e.id
  {
    assert (log + [e])[..|log|] == log;
    forall id ensures Logged(log + [e], id) <==> Logged(log, id) || id == e.id {
      LoggedAppend(log, e, id);
    }
    forall i | 0 <= i < |log|
      ensures log[i].id != e.id
    {
      assert !Logged(log, e.id);
    }
  }

  /** The handler that applied an event, and the others, still own their rows. */
  lemma ApplyKeepsOwner(s: System, h: nat, s': System, g: nat)
    requires Inv(s) && HandlerOf(s, h).Claimed? && OwnsRow(s, g)
    requires var e := HandlerOf(s, h).event;
             && s'.ledger == s.ledger && s'.handlers == s.handlers[h := Tried(e, true)]
             && forall id :: Logged(s'.log, id) <==> Logged(s.log, id) || id == e.id
    ensures OwnsRow(s', g)
  {
    if g != h {
      assert HandlerOf(s', g) == HandlerOf(s, g);
    }
  }

  lemma GoodApplyKeepsInv(s: System, h: nat, s': System)
    requires Inv(s) && HandlerOf(s, h).Claimed?
    requires var e := HandlerOf(s, h).event;
             s' == s.(entitlements := Project(s.entitlements, e), handlers := s.handlers[h := Tried(e, true)],
                      log := s.log + [e])
    ensures Inv(s')
  {
    var e := HandlerOf(s, h).event;
    assert OwnsRow(s, h);
    LogGrows(s.log, e);
    forall g: nat ensures OwnsRow(s', g) {
      assert OwnsRow(s, g);
      ApplyKeepsOwner(s, h, s', g);
    }
    SameEventsExclusive(s, s', h, Tried(e, true));
    forall id ensures HonestRow(s', id) {
      assert HonestRow(s, id) && OwnsRow(s, h);
    }
  }

  /** A handler that goes on with its event stays the only one. */
  lemma SameEventsExclusive(s: System, s': System, h: nat, next: Handler)
    requires Exclusive(s) && !HandlerOf(s, h).Idle? && !next.Idle? && next.event == HandlerOf(s, h).event
    requires s'.handlers == s.handlers[h := next]
    ensures Exclusive(s')
  {
    forall a: nat, b: nat | a != b && !HandlerOf(s', a).Idle? && !HandlerOf(s', b).Idle?
      ensures HandlerOf(s', a).event.id != HandlerOf(s', b).event.id
    {
      assert HandlerOf(s, a).event.id != HandlerOf(s, b).event.id;
    }
  }

  lemma ApplyKeepsInv(s: System, h: nat, projects: bool)
    requires Inv(s)
    ensures Inv(Step(s, Apply(h, projects)))
  {
    if HandlerOf(s, h).Claimed? {
      if !projects && Projects(HandlerOf(s, h).event) {
        FailedApplyKeepsInv(s, h, Step(s, Apply(h, projects)));
      } else {
        GoodApplyKeepsInv(s, h, Step(s, Apply(h, projects)));
      }
    }
  }

  lemma FinishKeepsInv(s: System, h: nat, marks: bool)
    requires Inv(s)
    ensures Inv(Step(s, Finish(h, marks)))
  {
    var s' := Step(s, Finish(h, marks));
    assert OwnsRow(s, h);
    assert forall g: nat :: g != h ==> HandlerOf(s', g) == HandlerOf(s, g);
    forall g: nat ensures OwnsRow(s', g) {
      assert OwnsRow(s, g);
    }
    forall id ensures HonestRow(s', id) {
      assert HonestRow(s, id);
    }
  }

  lemma StopKeepsInv(s: System, h: nat)
    requires Inv(s)
    ensures Inv(Step(s, Stop(h)))
  {
    var s' := Step(s, Stop(h));
    assert forall g: nat :: g != h ==> HandlerOf(s', g) == HandlerOf(s, g);
    forall g: nat ensures OwnsRow(s', g) {
      assert OwnsRow(s, g);
    }
    forall id ensures HonestRow(s', id) {
      assert HonestRow(s, id);
    }
  }

  lemma {:induction false} RunKeepsInv(actions: seq<Action>)
    ensures Inv(RunAll(actions))
  {
    if actions != [] {
      var s := RunAll(actions[..|actions| - 1]);
      RunKeepsInv(actions[..|actions| - 1]);
      match actions[|actions| - 1]
      case Insert(h, e) => InsertKeepsInv(s, h, e);
      case Apply(h, projects) => ApplyKeepsInv(s, h, projects);
      case Finish(h, marks) => FinishKeepsInv(s, h, marks);
      case Stop(h) => StopKeepsInv(s, h);
    }
  }

  // ----------------------------------------------------------- sequential meaning

  /** One undisturbed delivery per event. */
  function Deliveries(log: seq<Event>): (ds: seq<Delivery>)
    ensures |ds| == |log|
    ensures forall i :: 0 <= i < |log| ==> ds[i] == Delivery(true, Some(log[i]), true, true, true)
  {
    seq(|log|, i requires 0 <= i < |log| => Delivery(true, Some(log[i]), true, true, true))
  }

  lemma {:induction false} DeliveriesReplay(log: seq<Event>)
    requires NoRepeats(log)
    ensures Run(Deliveries(log)).entitlements == Replay(log)
  {
    if log != [] {
      var n := |log| - 1;
      DeliveriesReplay(log[..n]);
      var ds := Deliveries(log);
      assert ds[..n] == Deliveries(log[..n]);
      assert First(ds, n);
      FirstIffNew(ds, n);
    }
  }

  /**
   However handlers interleave and wherever they stop, no event is applied twice, the
   entitlements are those of handling the applied events one after another, and every
   finished ledger row says truthfully whether its event was applied.
   */
  lemma InterleavedIsSequential(actions: seq<Action>)
    ensures var s := RunAll(actions);
            && NoRepeats(s.log)
            && s.entitlements == Run(Deliveries(s.log)).entitlements
            && forall id :: id in s.ledger && s.ledger[id].status != Received ==>
                 (s.ledger[id].status == Processed <==> Logged(s.log, id))
  {
    RunKeepsInv(actions);
    var s := RunAll(actions);
    DeliveriesReplay(s.log);
    forall id | id in s.ledger && s.ledger[id].status != Received
      ensures s.ledger[id].status == Processed <==> Logged(s.log, id)
    {
      assert HonestRow(s, id);
    }
  }

  // ------------------------------------------------------------------------ loss

  predicate Claims(s: System, h: nat, id: string) {
    HandlerOf(s, h).Claimed? && HandlerOf(s, h).event.id == id
  }

  /** The step that costs an event its projection: its handler is cut off first, or the projection fails. */
  predicate LosesEvent(s: System, a: Action, id: string) {
    && Claims(s, a.h, id)
    && (a.Stop? || (a.Apply? && !a.projects && Projects(HandlerOf(s, a.h).event)))
  }

  predicate Lost(actions: seq<Action>, id: string) {
    actions != [] &&
    (var n := |actions| - 1;
     Lost(actions[..n], id) || LosesEvent(RunAll(actions[..n]), actions[n], id))
  }

  /** The id is taken, its event is not applied, and no handler is about to apply it. */
  ghost predicate Orphaned(s: System, id: string) {
    id in s.ledger && !Logged(s.log, id) && forall h: nat :: !Claims(s, h, id)
  }

  /** A step that applies nothing changes the claims on an id only by losing it. */
  lemma SameClaims(s: System, a: Action, id: string)
    requires id in s.ledger && Step(s, a).log == s.log
    ensures Claims(Step(s, a), a.h, id) <==> Claims(s, a.h, id) && !LosesEvent(s, a, id)
  {
  }

  lemma OtherClaims(s: System, a: Action, id: string, g: nat)
    requires Inv(s) && g != a.h
    ensures Claims(Step(s, a), g, id) <==> Claims(s, g, id)
    ensures Claims(s, a.h, id) ==> !Claims(s, g, id)
  {
  }

  lemma LoggedGrows(s: System, a: Action, id: string)
    ensures Logged(s.log, id) ==> Logged(Step(s, a).log, id)
    ensures Logged(Step(s, a).log, id) ==> Logged(s.log, id) || Claims(s, a.h, id)
  {
    if Step(s, a).log != s.log {
      LoggedAppend(s.log, HandlerOf(s, a.h).event, id);
    }
  }

  lemma StepOrphans(s: System, a: Action, id: string)
    requires Inv(s)
    ensures Orphaned(Step(s, a), id) <==> Orphaned(s, id) || LosesEvent(s, a, id)
  {
    var s' := Step(s, a);
    assert OwnsRow(s, a.h);
    LoggedGrows(s, a, id);
    forall g: nat | g != a.h
      ensures Claims(s', g, id) <==> Claims(s, g, id)
      ensures Claims(s, a.h, id) ==> !Claims(s, g, id)
    {
      OtherClaims(s, a, id, g);
    }
    if id !in s.ledger {
      assert id in s'.ledger ==> Claims(s', a.h, id);
    } else if s'.log == s.log {
      SameClaims(s, a, id);
    } else {
      LoggedAppend(s.log, HandlerOf(s, a.h).event, id);
      assert !Claims(s', a.h, id);
    }
  }

  lemma {:induction false} OrphanedIffLost(actions: seq<Action>, id: string)
    ensures Orphaned(RunAll(actions), id) <==> Lost(actions, id)
  {
    if actions != [] {
      var n := |actions| - 1;
      OrphanedIffLost(actions[..n], id);
      RunKeepsInv(actions[..n]);
      StepOrphans(RunAll(actions[..n]), actions[n], id);
    }
  }

  lemma RunAppend(actions: seq<Action>, a: Action)
    ensures RunAll(actions + [a]) == Step(RunAll(actions), a)
  {
    assert (actions + [a])[..|actions|] == actions;
  }

  lemma {:induction false} LostStaysLost(actions: seq<Action>, more: seq<Action>, id: string)
    requires Lost(actions, id)
    ensures Lost(actions + more, id)
  {
    if more == [] {
      assert actions + more == actions;
    } else {
      LostStaysLost(actions, more[..|more| - 1], id);
      assert (actions + more)[..|actions + more| - 1] == actions + more[..|more| - 1];
    }
  }

  /** A handler number that was never used. */
  lemma UnusedHandler(handlers: set<nat>) returns (h: nat)
    ensures forall g :: g in handlers ==> g < h
  {
    if handlers == {} {
      h := 0;
    } else {
      var g :| g in handlers;
      var h' := UnusedHandler(handlers - {g});
      h := if g < h' then h' else g + 1;
      assert forall x :: x in handlers ==> x == g || x in handlers - {g};
    }
  }

  /** The event that first took an id. */
  function Owner(actions: seq<Action>, id: string): Option<Event> {
    if actions == [] then None
    else
      var n := |actions| - 1;
      var before, a := Owner(actions[..n], id), actions[n];
      if before.Some? then before
      else if a.Insert? && a.event.id == id && HandlerOf(RunAll(actions[..n]), a.h).Idle? then Some(a.event)
      else None
  }

  /** Whoever works on an id, and whatever was applied under it, is its owner's event. */
  ghost predicate OwnedBy(s: System, id: string, owner: Option<Event>) {
    && (id in s.ledger <==> owner.Some?)
    && (forall h: nat :: !HandlerOf(s, h).Idle? && HandlerOf(s, h).event.id == id ==>
          owner == Some(HandlerOf(s, h).event))
    && (forall i :: 0 <= i < |s.log| && s.log[i].id == id ==> owner == Some(s.log[i]))
  }

  lemma {:induction false} OwnerKnows(actions: seq<Action>, id: string)
    ensures OwnedBy(RunAll(actions), id, Owner(actions, id))
  {
    if actions != [] {
      var n := |actions| - 1;
      var s, a := RunAll(actions[..n]), actions[n];
      OwnerKnows(actions[..n], id);
      RunKeepsInv(actions[..n]);
      assert OwnsRow(s, a.h);
      assert forall h: nat :: h != a.h ==> HandlerOf(Step(s, a), h) == HandlerOf(s, h);
    }
  }

  lemma {:induction false} OwnerStays(actions: seq<Action>, more: seq<Action>, id: string)
    requires Owner(actions, id).Some?
    ensures Owner(actions + more, id) == Owner(actions, id)
  {
    if more == [] {
      assert actions + more == actions;
    } else {
      OwnerStays(actions, more[..|more| - 1], id);
      assert (actions + more)[..|actions + more| - 1] == actions + more[..|more| - 1];
    }
  }

  lemma ClaimCanApply(actions: seq<Action>, h: nat, e: Event)
    requires HandlerOf(RunAll(actions), h) == Claimed(e)
    ensures e in RunAll(actions + [Apply(h, true)]).log
  {
    RunAppend(actions, Apply(h, true));
  }

  /** An event whose id nobody has taken can still be delivered and applied. */
  lemma NewEventCanApply(actions: seq<Action>, e: Event) returns (more: seq<Action>)
    requires e.id !in RunAll(actions).ledger
    ensures e in RunAll(actions + more).log
  {
    var h := UnusedHandler(RunAll(actions).handlers.Keys);
    RunAppend(actions, Insert(h, e));
    ClaimCanApply(actions + [Insert(h, e)], h, e);
    more := [Insert(h, e)] + [Apply(h, true)];
    assert actions + more == actions + [Insert(h, e)] + [Apply(h, true)];
  }

  lemma LostIsNeverLogged(actions: seq<Action>, more: seq<Action>, id: string)
    requires Lost(actions, id)
    ensures !Logged(RunAll(actions + more).log, id)
  {
    LostStaysLost(actions, more, id);
    OrphanedIffLost(actions + more, id);
  }

  lemma OtherIsNeverApplied(actions: seq<Action>, more: seq<Action>, e: Event)
    requires Owner(actions, e.id).Some? && Owner(actions, e.id) != Some(e)
    ensures e !in RunAll(actions + more).log
  {
    OwnerStays(actions, more, e.id);
    OwnerKnows(actions + more, e.id);
  }

  /** The owner of an id that was not lost is applied, or about to be. */
  lemma OwnerCanApply(actions: seq<Action>, e: Event) returns (more: seq<Action>)
    requires Owner(actions, e.id) == Some(e) && !Lost(actions, e.id)
    ensures e in RunAll(actions + more).log
  {
    var s := RunAll(actions);
    OwnerKnows(actions, e.id);
    OrphanedIffLost(actions, e.id);
    if Logged(s.log, e.id) {
      var i :| 0 <= i < |s.log| && s.log[i].id == e.id;
      more := [];
      assert actions + more == actions && s.log[i] == e;
    } else {
      var h: nat :| Claims(s, h, e.id);
      ClaimCanApply(actions, h, e);
      more := [Apply(h, true)];
    }
  }

  /**
   An event is applied in no continuation of the run, redeliveries included, if and only
   if a different event took its id first, or its handler was cut off between inserting
   and projecting, or its projection failed.
   */
  lemma NeverAppliedIff(actions: seq<Action>, e: Event)
    ensures (forall more :: e !in RunAll(actions + more).log) <==>
            Lost(actions, e.id) || (Owner(actions, e.id).Some? && Owner(actions, e.id) != Some(e))
  {
    if Lost(actions, e.id) {
      forall more
        ensures e !in RunAll(actions + more).log
      {
        LostIsNeverLogged(actions, more, e.id);
      }
    } else if Owner(actions, e.id).None? {
      OwnerKnows(actions, e.id);
      var more := NewEventCanApply(actions, e);
    } else if Owner(actions, e.id) == Some(e) {
      var more := OwnerCanApply(actions, e);
    } else {
      forall more
        ensures e !in RunAll(actions + more).log
      {
        OtherIsNeverApplied(actions, more, e);
      }
    }
  }

  /** A handler cut off after its insert loses the event though no projection failed. */
  lemma CutOffLoses(e: Event, more: seq<Action>)
    ensures !Logged(RunAll([Insert(0, e)] + [Stop(0)] + more).log, e.id)
  {
    var one := [Insert(0, e)];
    RunAppend([], Insert(0, e));
    assert [] + [Insert(0, e)] == one;
    assert (one + [Stop(0)])[..1] == one;
    assert Lost(one + [Stop(0)], e.id);
    LostIsNeverLogged(one + [Stop(0)], more, e.id);
  }
}
