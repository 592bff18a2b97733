/**
 The retry loop of the service, run against the repository class. Other writers are
 a parameter: `others(n)` commits between the load and the commit of attempt n.
 */
module CounterService {
  import opened Options
  import opened CounterDomain
  import opened EventLog
  import opened CounterRepository
  import P = CounterProtocol

  /** A rival command built from a snapshot that is `stale` rows old. */
  datatype Intrusion = Intrusion(id: CounterId, operation: Operation, key: Option<string>, stale: nat)

  /** Some event of the counter lies in the window. */
  predicate Touched(log: seq<Row>, w: P.Window, id: CounterId) {
    exists j :: w.load <= j < w.fail && j < |log| && Concerns(log[j], id)
  }

  /** One row was appended: this operation on the counter, with the value, version and delta it announces. */
  predicate Wrote(seen: Tables, now: Tables, id: CounterId, op: Operation, value: int, version: int, delta: int) {
    && |now.outbox| == |seen.outbox| + 1 && now.outbox[..|seen.outbox|] == seen.outbox
    && now.outbox[|seen.outbox|].event == CounterEvent(CounterChanged(id, id, op, value, delta, version))
    && StateAfter(now.outbox, id) == Counter(value, version)
    && delta == value - StateAfter(seen.outbox, id).value
  }

  /** The key holds this result of this operation. */
  predicate Stored(t: Tables, id: CounterId, key: string, op: Operation, value: int, version: int) {
    && (id, key) in t.keys
    && t.keys[(id, key)] == KeyRow(RequestHash(id, op), Completed, Some(value), Some(version))
  }

  /** The key, if there is one, holds the result from now on; all other keys are as they were. */
  predicate Remembers(seen: Tables, now: Tables, id: CounterId, key: Option<string>, op: Operation,
                      value: int, version: int) {
    match key
    case None => now.keys == seen.keys
    case Some(k) => Stored(now, id, k, op, value, version) && now.keys - {(id, k)} == seen.keys
  }

  predicate Taken(t: Tables, id: CounterId, key: Option<string>) {
    key.Some? && (id, key.value) in t.keys
  }

  /**
   What an answer means for the tables the last attempt found, `seen`, and those it left,
   `now`: a taken key is replayed or refused and nothing changes, a free one is written or
   the attempt is lost to a rival.
   */
  predicate Means(seen: Tables, now: Tables, id: CounterId, key: Option<string>, op: Operation, answer: P.Answer) {
    match answer
    case Success(value, version, delta) =>
      if Taken(seen, id, key) then now == seen && delta == 0 && Stored(seen, id, key.value, op, value, version)
      else Wrote(seen, now, id, op, value, version, delta) && Remembers(seen, now, id, key, op, value, version)
    case ErrIdempotencyConflict =>
      now == seen && Taken(seen, id, key) && seen.keys[(id, key.value)].requestHash != RequestHash(id, op)
    case ErrCasConflict => now == seen && !Taken(seen, id, key)
    case ErrStillInProgress => false
  }

  lemma TouchedGrows(log: seq<Row>, log': seq<Row>, w: P.Window, id: CounterId)
    requires Touched(log, w, id) && log <= log'
    ensures Touched(log', w, id)
  {
    var j :| w.load <= j < w.fail && j < |log| && Concerns(log[j], id);
    assert log'[j] == log[j];
  }

  /** Failed attempts occupy disjoint windows of the log, each with an event of the counter in it. */
  ghost predicate Lost(log: seq<Row>, failed: seq<P.Window>, id: CounterId) {
    && (forall k :: 0 <= k < |failed| ==> failed[k].fail <= |log| && Touched(log, failed[k], id))
    && (forall k, l :: 0 <= k < l < |failed| ==> failed[k].fail <= failed[l].load)
  }

  lemma LostGrows(log: seq<Row>, log': seq<Row>, failed: seq<P.Window>, id: CounterId)
    requires Lost(log, failed, id) && log <= log'
    ensures Lost(log', failed, id)
    ensures Touched(log', P.Window(|log|, |log'|), id) ==>
              Lost(log', failed + [P.Window(|log|, |log'|)], id)
  {
    forall k | 0 <= k < |failed|
      ensures Touched(log', failed[k], id)
    {
      TouchedGrows(log, log', failed[k], id);
    }
  }

  lemma LostMeansTouched(t: Tables, m: Mutation, at: nat)
    requires Consistent(t) && BuiltAt(t, m, at)
    ensures CasStatement(t.counters, m).None? ==>
              at < |t.outbox| && Touched(t.outbox, P.Window(at, |t.outbox|), m.id)
  {
    CasMeaning(t, m, at);
  }

  lemma CommitRemembers(t: Tables, t': Tables, m: Mutation, key: Option<string>)
    requires Transaction(t, m, key) == (t', TxCommitted)
    ensures !Taken(t, m.id, key) && Remembers(t, t', m.id, key, m.operation, m.newValue, m.newVersion)
  {
  }

  lemma CommitWrites(t: Tables, t': Tables, m: Mutation, key: Option<string>, at: nat)
    requires Consistent(t) && BuiltAt(t, m, at) && Transaction(t, m, key) == (t', TxCommitted)
    ensures Wrote(t, t', m.id, m.operation, m.newValue, m.newVersion, m.event.delta)
  {
    CasMeaning(t, m, at);
    StateAfterAppend(t.outbox, NextRow(t.outbox, m.event), m.id);
  }

  /** What each outcome of a commit says about the tables it leaves behind. */
  lemma CommitMeaning(t: Tables, m: Mutation, key: Option<string>, at: nat)
    requires Consistent(t) && BuiltAt(t, m, at)
    ensures CommitAtomically(t, m, key).1.Ok?
    ensures var (t', r) := CommitAtomically(t, m, key);
            && Consistent(t') && t.outbox <= t'.outbox
            && Means(t, t', m.id, key, m.operation, P.AnswerOf(r.value, m.event.delta))
            && (r.value.CasConflict? ==> at < |t.outbox| && Touched(t.outbox, P.Window(at, |t.outbox|), m.id))
  {
    CommitNeverStuck(t, m, key, at);
    TransactionKeepsConsistent(t, m, key, at);
    LostMeansTouched(t, m, at);
    var t' := CommitAtomically(t, m, key).0;
    if CommitAtomically(t, m, key).1.value.Committed? {
      CommitRemembers(t, t', m, key);
      CommitWrites(t, t', m, key, at);
    }
  }

  // ------------------------------------------------------------------ the rivals

  function RivalCommand(t: Tables, o: Intrusion): Mutation {
    var at := if o.stale <= |t.outbox| then |t.outbox| - o.stale else 0;
    BuildMutation(o.id, o.operation, StateAfter(t.outbox[..at], o.id))
  }

  /** The tables after the rivals of one attempt. */
  function Rivals(t: Tables, others: seq<Intrusion>): Tables {
    if others == [] then t
    else
      var before := Rivals(t, others[..|others| - 1]);
      var o := others[|others| - 1];
      CommitAtomically(before, RivalCommand(before, o), o.key).0
  }

  /** The tables after the rivals of the first n attempts, with nothing else happening. */
  function RivalsThrough(t: Tables, others: nat -> seq<Intrusion>, n: nat): Tables {
    if n == 0 then t else Rivals(RivalsThrough(t, others, n - 1), others(n - 1))
  }

  lemma RivalCommandIsBuilt(t: Tables, o: Intrusion)
    ensures exists at :: BuiltAt(t, RivalCommand(t, o), at)
  {
    var at := if o.stale <= |t.outbox| then |t.outbox| - o.stale else 0;
    assert BuiltAt(t, RivalCommand(t, o), at);
  }

  lemma {:induction false} RivalsKeepConsistent(t: Tables, others: seq<Intrusion>)
    requires Consistent(t)
    ensures Consistent(Rivals(t, others)) && t.outbox <= Rivals(t, others).outbox
  {
    if others != [] {
      var n := |others| - 1;
      RivalsKeepConsistent(t, others[..n]);
      var before := Rivals(t, others[..n]);
      RivalCommandIsBuilt(before, others[n]);
      var at :| BuiltAt(before, RivalCommand(before, others[n]), at);
      CommitMeaning(before, RivalCommand(before, others[n]), others[n].key, at);
    }
  }

  /** The answer after the failed attempts: a fourth lost CAS, or what the last attempt made of what it saw. */
  predicate Answered(t: Tables, others: nat -> seq<Intrusion>, failed: seq<P.Window>, now: Tables,
                     id: CounterId, key: Option<string>, op: Operation, answer: P.Answer) {
    && (answer.ErrCasConflict? <==> |failed| == P.MAX_RETRIES + 1)
    && var attempts := if answer.ErrCasConflict? then |failed| else |failed| + 1;
       Means(RivalsThrough(t, others, attempts), now, id, key, op, answer)
  }

  /** One more attempt: it answers the call, or is lost and leaves only what the rivals did. */
  ghost predicate TurnDone(t: Tables, others: nat -> seq<Intrusion>, failed: seq<P.Window>, failed': seq<P.Window>,
                           now: Tables, id: CounterId, key: Option<string>, op: Operation, answer: P.Answer) {
    && Lost(now.outbox, failed', id)
    && (if answer.ErrCasConflict?
        then |failed'| == |failed| + 1 && now == RivalsThrough(t, others, |failed'|) else failed' == failed)
    && (!answer.ErrCasConflict? || |failed| == P.MAX_RETRIES ==>
          Answered(t, others, failed', now, id, key, op, answer))
  }

  lemma TurnAnswers(t: Tables, others: nat -> seq<Intrusion>, failed: seq<P.Window>, now: Tables,
                    id: CounterId, key: Option<string>, op: Operation, answer: P.Answer, w: P.Window)
    requires |failed| <= P.MAX_RETRIES
    requires Means(Rivals(RivalsThrough(t, others, |failed|), others(|failed|)), now, id, key, op, answer)
    ensures !answer.ErrCasConflict? ==> Answered(t, others, failed, now, id, key, op, answer)
    ensures answer.ErrCasConflict? ==> now == RivalsThrough(t, others, |failed| + 1)
    ensures answer.ErrCasConflict? && |failed| == P.MAX_RETRIES ==>
              Answered(t, others, failed + [w], now, id, key, op, answer)
  {
    assert RivalsThrough(t, others, |failed| + 1) == Rivals(RivalsThrough(t, others, |failed|), others(|failed|));
  }

  lemma TurnMeaning(t: Tables, others: nat -> seq<Intrusion>, failed: seq<P.Window>, log: seq<Row>, now: Tables,
                    id: CounterId, key: Option<string>, op: Operation, answer: P.Answer)
    requires |failed| <= P.MAX_RETRIES && Lost(log, failed, id) && log <= now.outbox
    requires Means(Rivals(RivalsThrough(t, others, |failed|), others(|failed|)), now, id, key, op, answer)
    requires answer.ErrCasConflict? ==> Touched(now.outbox, P.Window(|log|, |now.outbox|), id)
    ensures var w := P.Window(|log|, |now.outbox|);
            TurnDone(t, others, failed, if answer.ErrCasConflict? then failed + [w] else failed,
                     now, id, key, op, answer)
  {
    LostGrows(log, now.outbox, failed, id);
    TurnAnswers(t, others, failed, now, id, key, op, answer, P.Window(|log|, |now.outbox|));
  }

  /** Without a key there is no conflict; without rivals either, the call succeeds with one row of its own. */
  lemma KeylessAnswers(t: Tables, others: nat -> seq<Intrusion>, failed: seq<P.Window>, now: Tables,
                       id: CounterId, key: Option<string>, op: Operation, answer: P.Answer)
    requires Answered(t, others, failed, now, id, key, op, answer)
    ensures key.None? ==> answer.Success? || answer.ErrCasConflict?
    ensures key.None? && others(0) == [] && failed == [] ==> answer.Success? && |now.outbox| == |t.outbox| + 1
  {
    if failed == [] {
      assert RivalsThrough(t, others, 1) == Rivals(RivalsThrough(t, others, 0), others(0));
    }
  }

  class Service {
    const repo: LibSqlCounterRepository

    constructor (repo: LibSqlCounterRepository)
      ensures this.repo == repo
    {
      this.repo := repo;
    }

    method Interfere(others: seq<Intrusion>)
      requires Consistent(repo.Contents())
      modifies repo
      ensures repo.Contents() == Rivals(old(repo.Contents()), others)
    {
      for i := 0 to |others|
        invariant repo.Contents() == Rivals(old(repo.Contents()), others[..i])
      {
        assert others[..i + 1][..i] == others[..i];
        var o, n := others[i], |repo.outbox|;
        var at := if o.stale <= n then n - o.stale else 0;
        var m := BuildMutation(o.id, o.operation, StateAfter(repo.outbox[..at], o.id));
        var _ := repo.CommitMutation(m, o.key);
      }
      assert others[..|others|] == others;
    }

    /** One pass through the loop body: load, build, let the others in, commit. */
    method Attempt(id: CounterId, key: Option<string>, op: Operation, others: seq<Intrusion>)
      returns (outcome: Outcome, delta: int, at: nat)
      requires Consistent(repo.Contents())
      modifies repo
      ensures Consistent(repo.Contents()) && old(repo.outbox) <= repo.outbox
      ensures at == |old(repo.outbox)|
      ensures Means(Rivals(old(repo.Contents()), others), repo.Contents(), id, key, op, P.AnswerOf(outcome, delta))
      ensures outcome.CasConflict? ==> others != [] && Touched(repo.outbox, P.Window(at, |repo.outbox|), id)
    {
      var loaded := repo.Load(id);
      at := |repo.outbox|;
      var m := BuildMutation(id, op, OrNew(loaded));
      delta := m.event.delta;
      assert RowMatchesLog(repo.Contents(), id);
      assert repo.outbox[..at] == repo.outbox;

      RivalsKeepConsistent(repo.Contents(), others);
      Interfere(others);
      assert repo.outbox[..at] == old(repo.outbox);
      CommitMeaning(repo.Contents(), m, key, at);
      var r := repo.CommitMutation(m, key);
      outcome := r.value;
    }

    /** A replay reports no change; a lost CAS becomes an answer only when the retries are used up. */
    method Reply(outcome: Outcome, delta: int) returns (answer: P.Answer)
      ensures answer == P.AnswerOf(outcome, delta)
    {
      match outcome
      case Committed(value, version) => answer := P.Success(value, version, delta);
      case IdempotentReplay(value, version) => answer := P.Success(value, version, 0);
      case IdempotencyConflict => answer := P.ErrIdempotencyConflict;
      case CasConflict => answer := P.ErrCasConflict;
    }

    /** One turn of the loop: what the outcome of an attempt answers, or one more failed window. */
    method Turn(id: CounterId, key: Option<string>, op: Operation, others: nat -> seq<Intrusion>,
                failed: seq<P.Window>, ghost t: Tables)
      returns (answer: P.Answer, failed': seq<P.Window>)
      requires Consistent(repo.Contents()) && |failed| <= P.MAX_RETRIES && Lost(repo.outbox, failed, id)
      requires repo.Contents() == RivalsThrough(t, others, |failed|)
      modifies repo
      ensures Consistent(repo.Contents()) && old(repo.outbox) <= repo.outbox
      ensures TurnDone(t, others, failed, failed', repo.Contents(), id, key, op, answer)
      ensures answer.ErrCasConflict? ==> others(|failed|) != []
    {
      ghost var log := repo.outbox;
      var outcome, delta, at := Attempt(id, key, op, others(|failed|));
      answer := Reply(outcome, delta);
      TurnMeaning(t, others, failed, log, repo.Contents(), id, key, op, answer);
      failed' := if answer.ErrCasConflict? then failed + [P.Window(at, |repo.outbox|)] else failed;
    }

    /**
     One call. Besides the answer it returns the windows of its failed attempts; each
     found only what the rivals had done, and the fourth lost CAS, and only that, makes it
     give up. Any other answer means what it says of the tables the last attempt found.
     */
    method RunAtomicMutation(id: CounterId, key: Option<string>, op: Operation, others: nat -> seq<Intrusion>)
      returns (answer: P.Answer, failed: seq<P.Window>)
      requires Consistent(repo.Contents())
      modifies repo
      ensures Consistent(repo.Contents()) && old(repo.outbox) <= repo.outbox
      ensures |failed| <= P.MAX_RETRIES + 1 && Lost(repo.outbox, failed, id)
      ensures Answered(old(repo.Contents()), others, failed, repo.Contents(), id, key, op, answer)
      ensures key.None? ==> answer.Success? || answer.ErrCasConflict?
      ensures others(0) == [] ==> failed == []
      ensures others(0) == [] && key.None? ==> answer.Success? && |repo.outbox| == |old(repo.outbox)| + 1
    {
      failed := [];
      answer, failed := Turn(id, key, op, others, failed, repo.Contents());
      while answer.ErrCasConflict? && |failed| <= P.MAX_RETRIES
        invariant Consistent(repo.Contents()) && old(repo.outbox) <= repo.outbox
        invariant |failed| <= P.MAX_RETRIES + 1 && Lost(repo.outbox, failed, id)
        invariant answer.ErrCasConflict? ==>
                    failed != [] && repo.Contents() == RivalsThrough(old(repo.Contents()), others, |failed|)
        invariant !answer.ErrCasConflict? || |failed| > P.MAX_RETRIES ==>
                    Answered(old(repo.Contents()), others, failed, repo.Contents(), id, key, op, answer)
        invariant others(0) == [] ==> failed == []
        decreases P.MAX_RETRIES + 1 - |failed|, answer.ErrCasConflict?
      {
        answer, failed := Turn(id, key, op, others, failed, old(repo.Contents()));
      }
      KeylessAnswers(old(repo.Contents()), others, failed, repo.Contents(), id, key, op, answer);
    }
  }
}
