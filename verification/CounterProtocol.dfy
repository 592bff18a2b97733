/**
 Any number of clients running the load / build / commit loop against the shared
 tables. Every database access (load, key pre-check, transaction, second key
 look-up) is one atomic step; between two steps of a client anything may happen.
 A run is a sequence of actions, so a claim about `Run(actions)` is a claim about
 every interleaving.

 `history`, `finished` and the windows in `failed` are bookkeeping: no step reads
 them. `history[i]` names the call that committed outbox row i.
 */
module CounterProtocol {
  import opened Options
  import opened CounterDomain
  import opened EventLog
  import opened CounterRepository

  type ClientId = nat

  /** `ticket` numbers the calls of one client; `start` is the log length when the call began. */
  datatype Call = Call(ticket: nat, start: nat, id: CounterId, key: Option<string>, operation: Operation)

  datatype Commit = Commit(client: ClientId, call: Call)

  /** The log positions at which a failed attempt read its snapshot and lost its CAS. */
  datatype Window = Window(load: nat, fail: nat)

  datatype Answer =
    | Success(value: int, version: int, delta: int)
    | ErrIdempotencyConflict
    | ErrCasConflict
    | ErrStillInProgress

  datatype Phase =
    | Idle
    | Loading
    | Loaded(snapshot: Counter, at: nat)
    | Checked(snapshot: Counter, at: nat)
    | KeyTaken(snapshot: Counter, at: nat)
    | Answered(answer: Answer)
  {
    predicate InFlight() {
      !Idle? && !Answered?
    }
  }

  datatype Client = Client(call: Call, failed: seq<Window>, phase: Phase)

  /** `end` is the log length when the call returned. */
  datatype Finished = Finished(client: ClientId, call: Call, failed: seq<Window>, answer: Answer, end: nat)

  datatype State = State(
    tables: Tables, history: seq<Option<Commit>>,
    clients: map<ClientId, Client>, finished: seq<Finished>)

  const INITIAL := State(EMPTY_TABLES, [], map[], [])

  const NEW_CLIENT := Client(Call(0, 0, "", None, Increment), [], Idle)

  const MAX_RETRIES := 3

  datatype Action =
    | Begin(client: ClientId, id: CounterId, key: Option<string>, operation: Operation)
    | Advance(client: ClientId)
    | ForeignAppend(gap: nat)

  function ClientOf(s: State, c: ClientId): Client {
    if c in s.clients then s.clients[c] else NEW_CLIENT
  }

  function SetClient(s: State, c: ClientId, cl: Client): State {
    s.(clients := s.clients[c := cl])
  }

  function AnswerOf(o: Outcome, delta: int): Answer {
    match o
    case Committed(value, version) => Success(value, version, delta)
    case IdempotentReplay(value, version) => Success(value, version, 0)
    case IdempotencyConflict => ErrIdempotencyConflict
    case CasConflict => ErrCasConflict
  }

  function LookUpKey(s: State, call: Call): Option<Outcome> {
    if call.key.None? then None
    else LoadOutcome(s.tables.keys, (call.id, call.key.value), RequestHash(call.id, call.operation))
  }

  function LoadStep(s: State, c: ClientId, cl: Client): State {
    SetClient(s, c, cl.(phase := Loaded(OrNew(LoadCounter(s.tables, cl.call.id)), |s.tables.outbox|)))
  }

  function CheckStep(s: State, c: ClientId, cl: Client): State
    requires cl.phase.Loaded?
  {
    match LookUpKey(s, cl.call)
    case None => SetClient(s, c, cl.(phase := Checked(cl.phase.snapshot, cl.phase.at)))
    case Some(outcome) => SetClient(s, c, cl.(phase := Answered(AnswerOf(outcome, 0))))
  }

  /** The command that the client is about to commit, built from its snapshot. */
  function MutationOf(cl: Client): Mutation
    requires cl.phase.Checked?
  {
    BuildMutation(cl.call.id, cl.call.operation, cl.phase.snapshot)
  }

  function CommitStep(s: State, c: ClientId, cl: Client): State
    requires cl.phase.Checked?
  {
    var m := MutationOf(cl);
    var (tables, tx) := Transaction(s.tables, m, cl.call.key);
    match tx
    case TxCommitted =>
      SetClient(s, c, cl.(phase := Answered(Success(m.newValue, m.newVersion, m.event.delta))))
        .(tables := tables, history := s.history + [Some(Commit(c, cl.call))])
    case TxCasFailed =>
      var failed := cl.failed + [Window(cl.phase.at, |s.tables.outbox|)];
      SetClient(s, c, Client(cl.call, failed,
        if |cl.failed| < MAX_RETRIES then Loading else Answered(ErrCasConflict)))
    case TxKeyTaken =>
      SetClient(s, c, cl.(phase := KeyTaken(cl.phase.snapshot, cl.phase.at)))
  }

  function RecheckStep(s: State, c: ClientId, cl: Client): State {
    match LookUpKey(s, cl.call)
    case None => SetClient(s, c, cl.(phase := Answered(ErrStillInProgress)))
    case Some(outcome) => SetClient(s, c, cl.(phase := Answered(AnswerOf(outcome, 0))))
  }

  function FinishStep(s: State, c: ClientId, cl: Client): State
    requires cl.phase.Answered?
  {
    SetClient(s, c, cl.(phase := Idle))
      .(finished := s.finished + [Finished(c, cl.call, cl.failed, cl.phase.answer, |s.history|)])
  }

  function AdvanceStep(s: State, c: ClientId): State {
    var cl := ClientOf(s, c);
    match cl.phase
    case Idle => s
    case Loading => LoadStep(s, c, cl)
    case Loaded(_, _) => CheckStep(s, c, cl)
    case Checked(_, _) => CommitStep(s, c, cl)
    case KeyTaken(_, _) => RecheckStep(s, c, cl)
    case Answered(_) => FinishStep(s, c, cl)
  }

  function Step(s: State, a: Action): State {
    match a
    case Begin(c, id, key, op) =>
      var cl := ClientOf(s, c);
      if cl.phase.Idle? then
        SetClient(s, c, Client(Call(cl.call.ticket + 1, |s.history|, id, key, op), [], Loading))
      else s
    case Advance(c) => AdvanceStep(s, c)
    case ForeignAppend(gap) =>
      var row := Row(LastSequence(s.tables.outbox) + 1 + gap, Foreign);
      s.(tables := s.tables.(outbox := s.tables.outbox + [row]), history := s.history + [None])
  }

  function RunFrom(s: State, actions: seq<Action>): State {
    if actions == [] then s
    else Step(RunFrom(s, actions[..|actions| - 1]), actions[|actions| - 1])
  }

  function Run(actions: seq<Action>): State {
    RunFrom(INITIAL, actions)
  }

  // ----------------------------------------------------------------- invariant

  predicate CommittedBy(history: seq<Option<Commit>>, i: nat, c: ClientId) {
    i < |history| && history[i].Some? && history[i].value.client == c
  }

  predicate CommittedFor(history: seq<Option<Commit>>, i: nat, c: ClientId, ticket: nat) {
    CommittedBy(history, i, c) && history[i].value.call.ticket == ticket
  }

  predicate Keyed(history: seq<Option<Commit>>, i: nat, k: Key) {
    && i < |history| && history[i].Some?
    && history[i].value.call.id == k.0 && history[i].value.call.key == Some(k.1)
  }

  /** Row i was written for the call that history names. */
  predicate Attributed(log: seq<Row>, history: seq<Option<Commit>>, i: nat)
    requires i < |log| == |history|
  {
    && (history[i].Some? <==> log[i].event.CounterEvent?)
    && (history[i].Some? ==>
          && log[i].event.changed.tenantId == history[i].value.call.id
          && log[i].event.changed.operation == history[i].value.call.operation)
  }

  ghost predicate HistoryInv(log: seq<Row>, history: seq<Option<Commit>>) {
    && |log| == |history|
    && (forall i :: 0 <= i < |log| ==> Attributed(log, history, i))
    && (forall i: nat, j: nat, c, n :: CommittedFor(history, i, c, n) && CommittedFor(history, j, c, n) ==> i == j)
  }

  /** The stored result of key k is the effect of the call that committed row i. */
  predicate KeyBacked(t: Tables, history: seq<Option<Commit>>, k: Key, i: nat) {
    && k in t.keys && Keyed(history, i, k)
    && i < |t.outbox| && t.outbox[i].event.CounterEvent?
    && t.keys[k].requestHash == RequestHash(k.0, history[i].value.call.operation)
    && t.keys[k].resultValue == Some(t.outbox[i].event.changed.newValue)
    && t.keys[k].resultVersion == Some(t.outbox[i].event.changed.version)
  }

  ghost predicate KeysInv(t: Tables, history: seq<Option<Commit>>) {
    && (forall i: nat, k: Key :: Keyed(history, i, k) ==> k in t.keys)
    && (forall i: nat, j: nat, k: Key :: Keyed(history, i, k) && Keyed(history, j, k) ==> i == j)
    && (forall k :: k in t.keys ==> exists i: nat :: KeyBacked(t, history, k, i))
  }

  /** Commit j was made by somebody else on the same counter. */
  predicate RivalCommit(history: seq<Option<Commit>>, j: nat, c: ClientId, id: CounterId) {
    && j < |history| && history[j].Some?
    && history[j].value.client != c && history[j].value.call.id == id
  }

  ghost predicate Contested(history: seq<Option<Commit>>, w: Window, c: ClientId, id: CounterId) {
    exists j: nat :: w.load <= j < w.fail && RivalCommit(history, j, c, id)
  }

  /** Failed attempts occupy disjoint stretches of the log, each holding a rival's commit. */
  ghost predicate WindowsInv(history: seq<Option<Commit>>, c: ClientId, id: CounterId, failed: seq<Window>, end: nat) {
    && (forall k :: 0 <= k < |failed| ==> failed[k].fail <= end && Contested(history, failed[k], c, id))
    && (forall k, l :: 0 <= k < l < |failed| ==> failed[k].fail <= failed[l].load)
  }

  /** Every failed attempt read its snapshot after the call began. */
  predicate WithinCall(failed: seq<Window>, start: nat) {
    forall k :: 0 <= k < |failed| ==> start <= failed[k].load
  }

  /** Row i is the effect this answer reports. */
  predicate Reported(t: Tables, history: seq<Option<Commit>>, c: ClientId, call: Call, a: Answer, i: nat)
    requires a.Success?
  {
    && i < |t.outbox| == |history| && t.outbox[i].event.CounterEvent? && history[i].Some?
    && t.outbox[i].event.changed.tenantId == call.id
    && t.outbox[i].event.changed.operation == call.operation
    && t.outbox[i].event.changed.newValue == a.value
    && t.outbox[i].event.changed.version == a.version
    && a.delta == (if history[i] == Some(Commit(c, call)) then t.outbox[i].event.changed.delta else 0)
    && (|| (history[i] == Some(Commit(c, call)) && call.start <= i)
        || (call.key.Some? && Keyed(history, i, (call.id, call.key.value))))
  }

  ghost predicate Justified(t: Tables, history: seq<Option<Commit>>, f: Finished) {
    && WindowsInv(history, f.client, f.call.id, f.failed, |history|)
    && WithinCall(f.failed, f.call.start)
    && EffectsInside(history, f)
    && match f.answer
       case Success(_, _, _) => exists i: nat :: i < f.end && Reported(t, history, f.client, f.call, f.answer, i)
       case ErrIdempotencyConflict =>
         && NoEffect(history, f)
         && f.call.key.Some?
         && exists i: nat ::
              && Keyed(history, i, (f.call.id, f.call.key.value))
              && history[i].value.call.operation != f.call.operation
       case ErrCasConflict =>
         && NoEffect(history, f) && |f.failed| == MAX_RETRIES + 1
         && f.failed[MAX_RETRIES].fail <= |history|
         && (f.call.key.Some? ==> KeyUntaken(history, (f.call.id, f.call.key.value), f.failed[MAX_RETRIES].fail))
       case ErrStillInProgress => false
  }

  /** No commit under key k lies before log position n. */
  ghost predicate KeyUntaken(history: seq<Option<Commit>>, k: Key, n: nat) {
    forall i: nat :: Keyed(history, i, k) ==> n <= i
  }

  /** Whatever a call commits, it commits between its beginning and its return. */
  ghost predicate EffectsInside(history: seq<Option<Commit>>, f: Finished) {
    forall i: nat :: CommittedFor(history, i, f.client, f.call.ticket) ==>
      f.call.start <= i < f.end && history[i].value.call == f.call
  }

  ghost predicate NoEffect(history: seq<Option<Commit>>, f: Finished) {
    forall i: nat :: !CommittedFor(history, i, f.client, f.call.ticket)
  }

  /** Every commit of client c belongs to a call before `ticket`. */
  ghost predicate CommitsBefore(history: seq<Option<Commit>>, c: ClientId, ticket: nat) {
    forall i: nat :: CommittedBy(history, i, c) ==> history[i].value.call.ticket < ticket
  }

  ghost predicate SnapshotInv(t: Tables, history: seq<Option<Commit>>, c: ClientId, cl: Client)
    requires cl.phase.Loaded? || cl.phase.Checked? || cl.phase.KeyTaken?
  {
    var at := cl.phase.at;
    && cl.call.start <= at <= |t.outbox| == |history|
    && cl.phase.snapshot == StateAfter(t.outbox[..at], cl.call.id)
    && WindowsInv(history, c, cl.call.id, cl.failed, at)
    && (forall i: nat :: CommittedBy(history, i, c) ==> i < at)
  }

  ghost predicate ClientInv(t: Tables, history: seq<Option<Commit>>, c: ClientId, cl: Client) {
    && CommitsBefore(history, c, if cl.phase.InFlight() then cl.call.ticket else cl.call.ticket + 1)
    && (cl.phase.InFlight() ==>
          && |cl.failed| <= MAX_RETRIES && cl.call.start <= |history|
          && WithinCall(cl.failed, cl.call.start))
    && match cl.phase
       case Idle => true
       case Loading => WindowsInv(history, c, cl.call.id, cl.failed, |history|)
       case Loaded(_, _) => SnapshotInv(t, history, c, cl)
       case Checked(_, _) => SnapshotInv(t, history, c, cl)
       case KeyTaken(_, _) =>
         SnapshotInv(t, history, c, cl) && cl.call.key.Some? && (cl.call.id, cl.call.key.value) in t.keys
       case Answered(a) => Justified(t, history, Finished(c, cl.call, cl.failed, a, |history|))
  }

  /** A finished call is older than the call its client is running now. */
  predicate InThePast(s: State, f: Finished) {
    var cl := ClientOf(s, f.client);
    f.call.ticket < (if cl.phase.Idle? then cl.call.ticket + 1 else cl.call.ticket)
  }

  ghost predicate Inv(s: State) {
    && Consistent(s.tables)
    && HistoryInv(s.tables.outbox, s.history)
    && KeysInv(s.tables, s.history)
    && (forall c: ClientId :: ClientInv(s.tables, s.history, c, ClientOf(s, c)))
    && (forall f :: f in s.finished ==> Justified(s.tables, s.history, f) && InThePast(s, f))
  }

  // ------------------------------------------------------- growing the log

  /** One row is appended; keys are only added. */
  ghost predicate Grows(t: Tables, history: seq<Option<Commit>>, t': Tables, history': seq<Option<Commit>>) {
    && |t.outbox| == |history|
    && (exists row :: t'.outbox == t.outbox + [row])
    && (exists h :: history' == history + [h])
    && (forall k :: k in t.keys ==> k in t'.keys && t'.keys[k] == t.keys[k])
  }

  lemma WindowsGrow(history: seq<Option<Commit>>, history': seq<Option<Commit>>,
                    c: ClientId, id: CounterId, failed: seq<Window>, end: nat, end': nat)
    requires WindowsInv(history, c, id, failed, end) && history <= history' && end <= end'
    ensures WindowsInv(history', c, id, failed, end')
  {
    forall k | 0 <= k < |failed|
      ensures failed[k].fail <= end' && Contested(history', failed[k], c, id)
    {
      var j: nat :| failed[k].load <= j < failed[k].fail && RivalCommit(history, j, c, id);
      assert RivalCommit(history', j, c, id);
    }
  }

  lemma JustifiedGrows(t: Tables, history: seq<Option<Commit>>, t': Tables, history': seq<Option<Commit>>, f: Finished)
    requires Grows(t, history, t', history') && Justified(t, history, f)
    requires !CommittedFor(history', |history|, f.client, f.call.ticket)
    ensures Justified(t', history', f)
  {
    WindowsGrow(history, history', f.client, f.call.id, f.failed, |history|, |history'|);
    assert history <= history';
    forall i: nat | CommittedFor(history', i, f.client, f.call.ticket)
      ensures CommittedFor(history, i, f.client, f.call.ticket)
    {
    }
    match f.answer
    case Success(_, _, _) =>
      var i: nat :| i < f.end && Reported(t, history, f.client, f.call, f.answer, i);
      assert Reported(t', history', f.client, f.call, f.answer, i);
    case ErrIdempotencyConflict =>
      var k := (f.call.id, f.call.key.value);
      var i: nat :| Keyed(history, i, k) && history[i].value.call.operation != f.call.operation;
      assert Keyed(history', i, k) && history'[i] == history[i];
    case ErrCasConflict =>
      if f.call.key.Some? {
        forall i: nat | Keyed(history', i, (f.call.id, f.call.key.value))
          ensures f.failed[MAX_RETRIES].fail <= i
        {
          assert i < |history| ==> Keyed(history, i, (f.call.id, f.call.key.value));
        }
      }
    case ErrStillInProgress =>
  }

  /** Whatever others append, the invariant of a client that did not commit survives. */
  lemma ClientGrows(t: Tables, history: seq<Option<Commit>>, t': Tables, history': seq<Option<Commit>>,
                    c: ClientId, cl: Client)
    requires Grows(t, history, t', history') && ClientInv(t, history, c, cl)
    requires !CommittedBy(history', |history|, c)
    ensures ClientInv(t', history', c, cl)
  {
    assert history <= history';
    forall i: nat | CommittedBy(history', i, c)
      ensures CommittedBy(history, i, c) && history[i] == history'[i]
    {
    }
    match cl.phase
    case Idle =>
    case Loading =>
      WindowsGrow(history, history', c, cl.call.id, cl.failed, |history|, |history'|);
    case Answered(a) =>
      JustifiedGrows(t, history, t', history', Finished(c, cl.call, cl.failed, a, |history|));
    case _ =>
      var at := cl.phase.at;
      WindowsGrow(history, history', c, cl.call.id, cl.failed, at, at);
      assert t'.outbox[..at] == t.outbox[..at];
  }

  // ------------------------------------------------------------ preservation

  lemma LoadKeepsInv(s: State, c: ClientId)
    requires Inv(s) && ClientOf(s, c).phase.Loading?
    ensures Inv(AdvanceStep(s, c))
  {
    var cl := ClientOf(s, c);
    var s' := AdvanceStep(s, c);
    var t := s.tables;
    assert ClientInv(t, s.history, c, cl);
    assert RowMatchesLog(t, cl.call.id);
    assert t.outbox[..|t.outbox|] == t.outbox;
    assert ClientInv(t, s.history, c, ClientOf(s', c));
    OthersKeepInv(s, s', c);
  }

  /** A step that only moves client c, within its call, touches nobody else's invariant. */
  lemma OthersKeepInv(s: State, s': State, c: ClientId)
    requires Inv(s)
    requires exists cl :: s' == SetClient(s, c, cl)
    requires ClientInv(s.tables, s.history, c, ClientOf(s', c))
    requires ClientOf(s, c).call.ticket <= ClientOf(s', c).call.ticket
    requires ClientOf(s, c).phase.Idle? ==> ClientOf(s, c).call.ticket < ClientOf(s', c).call.ticket
    ensures Inv(s')
  {
    forall d: ClientId
      ensures ClientInv(s'.tables, s'.history, d, ClientOf(s', d))
    {
      assert ClientInv(s.tables, s.history, d, ClientOf(s, d));
    }
  }

  /** What a key look-up that answers says is true. */
  lemma LookUpJustified(s: State, c: ClientId, cl: Client)
    requires Inv(s) && cl == ClientOf(s, c) && (cl.phase.Loaded? || cl.phase.KeyTaken?)
    requires LookUpKey(s, cl.call).Some?
    ensures Justified(s.tables, s.history,
                      Finished(c, cl.call, cl.failed, AnswerOf(LookUpKey(s, cl.call).value, 0), |s.history|))
  {
    var call := cl.call;
    var k := (call.id, call.key.value);
    var f := Finished(c, call, cl.failed, AnswerOf(LookUpKey(s, call).value, 0), |s.history|);
    assert ClientInv(s.tables, s.history, c, cl);
    WindowsGrow(s.history, s.history, c, call.id, cl.failed, cl.phase.at, |s.history|);
    var i: nat :| KeyBacked(s.tables, s.history, k, i);
    assert Attributed(s.tables.outbox, s.history, i);
    RequestHashInjective(call.id, call.operation, call.id, s.history[i].value.call.operation);
    forall j: nat
      ensures !CommittedFor(s.history, j, c, call.ticket)
    {
      assert CommittedBy(s.history, j, c) ==> s.history[j].value.call.ticket < call.ticket;
    }
    if f.answer.Success? {
      assert !CommittedFor(s.history, i, c, call.ticket);
      assert Reported(s.tables, s.history, c, call, f.answer, i);
    } else {
      assert Keyed(s.history, i, k);
    }
  }

  lemma LookUpKeepsInv(s: State, c: ClientId)
    requires Inv(s) && (ClientOf(s, c).phase.Loaded? || ClientOf(s, c).phase.KeyTaken?)
    ensures Inv(AdvanceStep(s, c))
  {
    var cl := ClientOf(s, c);
    var s' := AdvanceStep(s, c);
    assert ClientInv(s.tables, s.history, c, cl);
    if LookUpKey(s, cl.call).Some? {
      LookUpJustified(s, c, cl);
    }
    assert ClientInv(s.tables, s.history, c, ClientOf(s', c));
    OthersKeepInv(s, s', c);
  }

  lemma ChecksAreBuilt(s: State, c: ClientId)
    requires Inv(s) && ClientOf(s, c).phase.Checked?
    ensures var cl := ClientOf(s, c);
            BuiltAt(s.tables, MutationOf(cl), cl.phase.at)
  {
    assert ClientInv(s.tables, s.history, c, ClientOf(s, c));
  }

  /** A lost CAS has a rival's commit between the snapshot and the attempt. */
  lemma LostCasIsContested(s: State, c: ClientId)
    requires Inv(s) && ClientOf(s, c).phase.Checked?
    requires var cl := ClientOf(s, c);
             CasStatement(s.tables.counters, MutationOf(cl)).None?
    ensures var cl := ClientOf(s, c);
            Contested(s.history, Window(cl.phase.at, |s.history|), c, cl.call.id)
  {
    var cl := ClientOf(s, c);
    assert ClientInv(s.tables, s.history, c, cl);
    var m := MutationOf(cl);
    ChecksAreBuilt(s, c);
    CasMeaning(s.tables, m, cl.phase.at);
    var j :| cl.phase.at <= j < |s.tables.outbox| && Concerns(s.tables.outbox[j], cl.call.id);
    assert Attributed(s.tables.outbox, s.history, j);
    assert !CommittedBy(s.history, j, c);
    assert RivalCommit(s.history, j, c, cl.call.id);
  }

  lemma RefusedCommitKeepsInv(s: State, c: ClientId)
    requires Inv(s) && ClientOf(s, c).phase.Checked?
    requires var cl := ClientOf(s, c);
             !Transaction(s.tables, MutationOf(cl), cl.call.key).1.TxCommitted?
    ensures Inv(AdvanceStep(s, c))
  {
    var cl := ClientOf(s, c);
    var s' := AdvanceStep(s, c);
    assert ClientInv(s.tables, s.history, c, cl);
    var m := MutationOf(cl);
    var (_, tx) := Transaction(s.tables, m, cl.call.key);
    if tx.TxCasFailed? {
      LostCasIsContested(s, c);
      assert WindowsInv(s.history, c, cl.call.id, ClientOf(s', c).failed, |s.history|) by {
        WindowsGrow(s.history, s.history, c, cl.call.id, cl.failed, cl.phase.at, |s.history|);
      }
      forall j: nat
        ensures !CommittedFor(s.history, j, c, cl.call.ticket)
      {
        assert CommittedBy(s.history, j, c) ==> s.history[j].value.call.ticket < cl.call.ticket;
      }
    }
    assert ClientInv(s.tables, s.history, c, ClientOf(s', c));
    OthersKeepInv(s, s', c);
  }

  lemma HistoryGrows(s: State, row: Row, h: Option<Commit>)
    requires HistoryInv(s.tables.outbox, s.history)
    requires h.Some? <==> row.event.CounterEvent?
    requires h.Some? ==>
               && row.event.changed.tenantId == h.value.call.id
               && row.event.changed.operation == h.value.call.operation
               && CommitsBefore(s.history, h.value.client, h.value.call.ticket)
    ensures HistoryInv(s.tables.outbox + [row], s.history + [h])
  {
    var history := s.history + [h];
    forall i | 0 <= i < |history|
      ensures Attributed(s.tables.outbox + [row], history, i)
    {
      assert i < |s.history| ==> Attributed(s.tables.outbox, s.history, i);
    }
    forall i: nat, j: nat, c, n | CommittedFor(history, i, c, n) && CommittedFor(history, j, c, n)
      ensures i == j
    {
      assert i < |s.history| ==> CommittedFor(s.history, i, c, n) && CommittedBy(s.history, i, c);
      assert j < |s.history| ==> CommittedFor(s.history, j, c, n) && CommittedBy(s.history, j, c);
    }
  }

  /** Completing a key along with its row keeps keys and commits in one-to-one correspondence. */
  lemma KeysGrow(t: Tables, history: seq<Option<Commit>>, t': Tables, h: Option<Commit>)
    requires KeysInv(t, history) && Grows(t, history, t', history + [h])
    requires h.None? || h.value.call.key.None? ==> t'.keys == t.keys
    requires h.Some? && h.value.call.key.Some? ==>
               var k := (h.value.call.id, h.value.call.key.value);
               && k !in t.keys && t'.keys.Keys == t.keys.Keys + {k}
               && KeyBacked(t', history + [h], k, |history|)
    ensures KeysInv(t', history + [h])
  {
    var history' := history + [h];
    forall i: nat, k: Key | Keyed(history', i, k)
      ensures k in t'.keys && (i < |history| <==> k in t.keys)
    {
      assert i < |history| ==> Keyed(history, i, k);
    }
    forall i: nat, j: nat, k: Key | Keyed(history', i, k) && Keyed(history', j, k)
      ensures i == j
    {
      assert i < |history| ==> Keyed(history, i, k);
      assert j < |history| ==> Keyed(history, j, k);
    }
    forall k | k in t'.keys
      ensures exists i: nat :: KeyBacked(t', history', k, i)
    {
      if k in t.keys {
        var i: nat :| KeyBacked(t, history, k, i);
        assert KeyBacked(t', history', k, i);
      } else {
        assert KeyBacked(t', history', k, |history|);
      }
    }
  }

  /** A committing transaction adds one row, one history entry and, with a key, one completed key. */
  lemma CommitKeepsRecords(s: State, c: ClientId)
    requires Inv(s) && ClientOf(s, c).phase.Checked?
    requires var cl := ClientOf(s, c);
             Transaction(s.tables, MutationOf(cl), cl.call.key).1.TxCommitted?
    ensures var cl, s' := ClientOf(s, c), AdvanceStep(s, c);
            var m := MutationOf(cl);
            && s'.history == s.history + [Some(Commit(c, cl.call))]
            && s'.tables.outbox == s.tables.outbox + [NextRow(s.tables.outbox, m.event)]
            && Consistent(s'.tables) && HistoryInv(s'.tables.outbox, s'.history) && KeysInv(s'.tables, s'.history)
            && Grows(s.tables, s.history, s'.tables, s'.history)
  {
    var cl := ClientOf(s, c);
    var s' := AdvanceStep(s, c);
    assert ClientInv(s.tables, s.history, c, cl);
    var m := MutationOf(cl);
    ChecksAreBuilt(s, c);
    TransactionKeepsConsistent(s.tables, m, cl.call.key, cl.phase.at);
    var h, row, n := Some(Commit(c, cl.call)), NextRow(s.tables.outbox, m.event), |s.history|;
    assert s'.tables.outbox == s.tables.outbox + [row] && s'.history == s.history + [h];
    HistoryGrows(s, row, h);
    if cl.call.key.Some? {
      assert KeyBacked(s'.tables, s'.history, (cl.call.id, cl.call.key.value), n);
    }
    KeysGrow(s.tables, s.history, s'.tables, h);
  }

  lemma CommitKeepsInv(s: State, c: ClientId)
    requires Inv(s) && ClientOf(s, c).phase.Checked?
    requires var cl := ClientOf(s, c);
             Transaction(s.tables, MutationOf(cl), cl.call.key).1.TxCommitted?
    ensures Inv(AdvanceStep(s, c))
  {
    var cl := ClientOf(s, c);
    var s' := AdvanceStep(s, c);
    CommitKeepsRecords(s, c);
    CommitterKeepsInv(s, s', c, MutationOf(cl));
    RestKeepsInv(s, s', {c});
  }

  /** Clients and finished calls other than the committer's survive the growth of the log. */
  lemma RestKeepsInv(s: State, s': State, moved: set<ClientId>)
    requires Inv(s) && Grows(s.tables, s.history, s'.tables, s'.history) && s'.finished == s.finished
    requires Consistent(s'.tables) && HistoryInv(s'.tables.outbox, s'.history) && KeysInv(s'.tables, s'.history)
    requires forall d :: d in moved ==> ClientInv(s'.tables, s'.history, d, ClientOf(s', d))
    requires forall d :: d in moved ==>
               && ClientOf(s', d).call == ClientOf(s, d).call
               && ClientOf(s, d).phase.InFlight() && ClientOf(s', d).phase.Answered?
               && s'.history[|s.history|] == Some(Commit(d, ClientOf(s, d).call))
    requires forall d: ClientId :: d !in moved ==>
               ClientOf(s', d) == ClientOf(s, d) && !CommittedBy(s'.history, |s.history|, d)
    ensures Inv(s')
  {
    forall d: ClientId | d !in moved
      ensures ClientInv(s'.tables, s'.history, d, ClientOf(s', d))
    {
      assert ClientInv(s.tables, s.history, d, ClientOf(s, d));
      ClientGrows(s.tables, s.history, s'.tables, s'.history, d, ClientOf(s, d));
    }
    forall f | f in s'.finished
      ensures Justified(s'.tables, s'.history, f) && InThePast(s', f)
    {
      assert InThePast(s, f);
      JustifiedGrows(s.tables, s.history, s'.tables, s'.history, f);
    }
  }

  lemma CommitterKeepsInv(s: State, s': State, c: ClientId, m: Mutation)
    requires Inv(s) && ClientOf(s, c).phase.Checked?
    requires var cl := ClientOf(s, c);
             && s'.history == s.history + [Some(Commit(c, cl.call))]
             && s'.tables.outbox == s.tables.outbox + [NextRow(s.tables.outbox, m.event)]
             && m == MutationOf(cl)
             && ClientOf(s', c) == cl.(phase := Answered(Success(m.newValue, m.newVersion, m.event.delta)))
    ensures ClientInv(s'.tables, s'.history, c, ClientOf(s', c))
  {
    var cl := ClientOf(s, c);
    assert ClientInv(s.tables, s.history, c, cl);
    WindowsGrow(s.history, s'.history, c, cl.call.id, cl.failed, cl.phase.at, |s'.history|);
    assert Reported(s'.tables, s'.history, c, cl.call, ClientOf(s', c).phase.answer, |s.history|);
    forall i: nat | CommittedBy(s'.history, i, c)
      ensures s'.history[i].value.call.ticket < cl.call.ticket + 1
    {
      assert i < |s.history| ==> CommittedBy(s.history, i, c);
    }
  }

  lemma FinishKeepsInv(s: State, c: ClientId)
    requires Inv(s) && ClientOf(s, c).phase.Answered?
    ensures Inv(AdvanceStep(s, c))
  {
    var s' := AdvanceStep(s, c);
    forall d: ClientId
      ensures ClientInv(s'.tables, s'.history, d, ClientOf(s', d))
    {
      assert ClientInv(s.tables, s.history, d, ClientOf(s, d));
    }
    forall f | f in s'.finished
      ensures Justified(s'.tables, s'.history, f) && InThePast(s', f)
    {
      assert f in s.finished ==> InThePast(s, f);
    }
  }

  lemma ForeignKeepsConsistent(t: Tables, row: Row)
    requires Consistent(t) && row.event.Foreign? && LastSequence(t.outbox) < row.sequence
    ensures Consistent(t.(outbox := t.outbox + [row]))
  {
    var t' := t.(outbox := t.outbox + [row]);
    WellFormedAppend(t.outbox, row);
    IncreasingAppend(t.outbox, row);
    forall id: CounterId
      ensures RowMatchesLog(t', id)
    {
      assert RowMatchesLog(t, id);
      StateAfterAppend(t.outbox, row, id);
    }
  }

  lemma ForeignKeepsRecords(s: State, gap: nat)
    requires Inv(s)
    ensures var s' := Step(s, ForeignAppend(gap));
            && Consistent(s'.tables) && HistoryInv(s'.tables.outbox, s'.history) && KeysInv(s'.tables, s'.history)
            && Grows(s.tables, s.history, s'.tables, s'.history)
  {
    var row := Row(LastSequence(s.tables.outbox) + 1 + gap, Foreign);
    ForeignKeepsConsistent(s.tables, row);
    HistoryGrows(s, row, None);
    KeysGrow(s.tables, s.history, Step(s, ForeignAppend(gap)).tables, None);
  }

  lemma ForeignKeepsInv(s: State, gap: nat)
    requires Inv(s)
    ensures Inv(Step(s, ForeignAppend(gap)))
  {
    ForeignKeepsRecords(s, gap);
    RestKeepsInv(s, Step(s, ForeignAppend(gap)), {});
  }

  lemma StepKeepsInv(s: State, a: Action)
    requires Inv(s)
    ensures Inv(Step(s, a))
  {
    match a
    case Begin(c, id, key, op) =>
      assert ClientInv(s.tables, s.history, c, ClientOf(s, c));
      if ClientOf(s, c).phase.Idle? {
        OthersKeepInv(s, Step(s, a), c);
      }
    case ForeignAppend(gap) => ForeignKeepsInv(s, gap);
    case Advance(c) =>
      match ClientOf(s, c).phase
      case Idle =>
      case Loading => LoadKeepsInv(s, c);
      case Loaded(_, _) => LookUpKeepsInv(s, c);
      case KeyTaken(_, _) => LookUpKeepsInv(s, c);
      case Answered(_) => FinishKeepsInv(s, c);
      case Checked(_, _) =>
        var cl := ClientOf(s, c);
        var (_, tx) := Transaction(s.tables, MutationOf(cl), cl.call.key);
        if tx.TxCommitted? {
          CommitKeepsInv(s, c);
        } else {
          RefusedCommitKeepsInv(s, c);
        }
  }

  lemma {:induction false} RunFromKeepsInv(s: State, actions: seq<Action>)
    requires Inv(s)
    ensures Inv(RunFrom(s, actions))
  {
    if actions != [] {
      RunFromKeepsInv(s, actions[..|actions| - 1]);
      StepKeepsInv(RunFrom(s, actions[..|actions| - 1]), actions[|actions| - 1]);
    }
  }

  /** The invariant holds in every state of every run. */
  lemma RunKeepsInv(actions: seq<Action>)
    ensures Inv(Run(actions))
  {
    RunFromKeepsInv(INITIAL, actions);
  }
}
