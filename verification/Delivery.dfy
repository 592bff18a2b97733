/**
 The delivery outbox and its worker: jobs are claimed oldest first, attempted, and
 end Delivered, Failed with a retry time, or DeadLettered. What the transport
 answers, and when, is an input; so is a round that is cut off in an attempt.
 */
module Delivery {
  import opened Options
  import opened MapSums
  import opened Retry

  type JobId = nat
  type Time = int

  datatype Status = Pending | InProgress | Delivered | Failed | DeadLettered

  /** Tenant, target, payload and headers play no part in scheduling. */
  datatype Job = Job(
    status: Status, attempts: nat, maxAttempts: nat,
    availableAt: Time, createdAt: Time, lastError: Option<string>)

  type Jobs = map<JobId, Job>

  function NewJob(maxAttempts: nat, now: Time): Job {
    Job(Pending, 0, maxAttempts, now, now, None)
  }

  predicate Due(j: Job, now: Time) {
    (j.status.Pending? || j.status.Failed?) && j.availableAt <= now
  }

  /** The last instant the calendar knows, in nanoseconds since 1970: the end of the year 262142. */
  const TIME_MAX: Time := 8_210_266_876_799_999_999_999

  /** `Cut`: the round is dropped while the transport is at work, and no mark follows. */
  datatype Verdict = Ok | Refused(error: string) | Cut

  datatype Response = Response(verdict: Verdict, startedAt: Time, finishedAt: Time)

  /** The next retry cannot be scheduled: the delay does not convert, or it leads past the end of the calendar. */
  predicate Unschedulable(p: RetryPolicy, attempts: nat, now: Time) {
    p.NextDelay(attempts) > CALENDAR_MAX || now + p.NextDelay(attempts) > TIME_MAX
  }

  /** The round ends here and the job keeps the status it got from `record_attempt`. */
  predicate Strands(p: RetryPolicy, j: Job, r: Response) {
    || r.verdict.Cut?
    || (&& r.verdict.Refused? && p.ShouldRetryAfter(j.attempts + 1)
        && Unschedulable(p, j.attempts + 1, r.finishedAt))
  }

  /** One attempt on a job, from `record_attempt` to the mark. */
  function AfterAttempt(p: RetryPolicy, j: Job, r: Response): Job {
    var n := j.attempts + 1;
    match r.verdict
    case Ok => j.(status := Delivered, attempts := n, lastError := None)
    case Cut => j.(status := InProgress, attempts := n)
    case Refused(error) =>
      if Strands(p, j, r) then j.(status := InProgress, attempts := n)
      else if p.ShouldRetryAfter(n) then
        j.(status := Failed, attempts := n, lastError := Some(error), availableAt := r.finishedAt + p.NextDelay(n))
      else j.(status := DeadLettered, attempts := n, lastError := Some(error))
  }

  datatype Attempt = Attempt(job: JobId, number: nat, verdict: Verdict, startedAt: Time, finishedAt: Time)

  /** The jobs, and the history of all attempts. */
  datatype Outbox = Outbox(jobs: Jobs, log: seq<Attempt>)

  const EMPTY_OUTBOX := Outbox(map[], [])

  function DeliverOne(o: Outbox, p: RetryPolicy, id: JobId, r: Response): (o': Outbox)
    requires id in o.jobs
    ensures o'.jobs.Keys == o.jobs.Keys
  {
    var j := o.jobs[id];
    Outbox(o.jobs[id := AfterAttempt(p, j, r)],
           o.log + [Attempt(id, j.attempts + 1, r.verdict, r.startedAt, r.finishedAt)])
  }

  /** The loop of `deliver_due` over the claimed jobs. */
  function DeliverBatch(o: Outbox, p: RetryPolicy, batch: seq<JobId>, rs: seq<Response>): Outbox
    requires |batch| <= |rs| && forall id :: id in batch ==> id in o.jobs
    decreases |batch|
  {
    if batch == [] then o
    else
      var o' := DeliverOne(o, p, batch[0], rs[0]);
      if Strands(p, o.jobs[batch[0]], rs[0]) then o'
      else DeliverBatch(o', p, batch[1..], rs[1..])
  }

  /**
   What a claim may return: due jobs, oldest first, at most `limit`; a due job is left
   out only if the batch is full of jobs that are at least as old. Jobs of equal age
   come in any order, as the hash map yields them.
   */
  ghost predicate Claims(jobs: Jobs, limit: nat, now: Time, batch: seq<JobId>) {
    && |batch| <= limit
    && Ready(jobs, now, batch)
    && (forall i, j :: 0 <= i < j < |batch| ==> jobs[batch[i]].createdAt <= jobs[batch[j]].createdAt)
    && (forall x :: x in jobs && Due(jobs[x], now) && x !in batch ==>
          |batch| == limit && forall i :: 0 <= i < |batch| ==> jobs[batch[i]].createdAt <= jobs[x].createdAt)
  }

  ghost predicate Ready(jobs: Jobs, now: Time, batch: seq<JobId>) {
    && (forall i :: 0 <= i < |batch| ==> batch[i] in jobs && Due(jobs[batch[i]], now))
    && (forall i, j :: 0 <= i < j < |batch| ==> batch[i] != batch[j])
  }

  predicate Timely(now: Time, rs: seq<Response>) {
    forall i :: 0 <= i < |rs| ==> now <= rs[i].startedAt <= rs[i].finishedAt
  }

  datatype Action =
    | Enqueue(id: JobId, maxAttempts: nat, createdAt: Time)
    | Round(limit: nat, now: Time, batch: seq<JobId>, responses: seq<Response>)

  ghost predicate Happens(o: Outbox, a: Action) {
    match a
    case Enqueue(id, _, _) => id !in o.jobs
    case Round(limit, now, batch, rs) => Claims(o.jobs, limit, now, batch) && |batch| <= |rs| && Timely(now, rs)
  }

  ghost function Step(o: Outbox, p: RetryPolicy, a: Action): Outbox {
    if !Happens(o, a) then o
    else
      match a
      case Enqueue(id, maxAttempts, createdAt) => o.(jobs := o.jobs[id := NewJob(maxAttempts, createdAt)])
      case Round(_, _, batch, rs) => DeliverBatch(o, p, batch, rs)
  }

  ghost function RunFrom(o: Outbox, p: RetryPolicy, actions: seq<Action>): Outbox {
    if actions == [] then o
    else Step(RunFrom(o, p, actions[..|actions| - 1]), p, actions[|actions| - 1])
  }

  ghost function Run(p: RetryPolicy, actions: seq<Action>): Outbox {
    RunFrom(EMPTY_OUTBOX, p, actions)
  }

  // ------------------------------------------------------------------ invariant

  predicate JobInv(p: RetryPolicy, j: Job) {
    match j.status
    case Pending => j.attempts == 0
    case Failed => 1 <= j.attempts < p.maxAttempts
    case DeadLettered => j.attempts == p.maxAttempts
    case Delivered => 1 <= j.attempts <= p.maxAttempts
    case InProgress => 1 <= j.attempts <= p.maxAttempts
  }

  /** A logged attempt is in the past of its job, and a waiting job still respects its delay. */
  predicate LogEntryInv(p: RetryPolicy, jobs: Jobs, e: Attempt) {
    && e.job in jobs && 1 <= e.number <= jobs[e.job].attempts
    && (jobs[e.job].status.Failed? ==> e.finishedAt + p.NextDelay(e.number) <= jobs[e.job].availableAt)
  }

  /** The later of two attempts on one job has the higher number and kept its distance. */
  predicate Spaced(p: RetryPolicy, e: Attempt, f: Attempt) {
    e.job == f.job ==> e.number < f.number && e.finishedAt + p.NextDelay(e.number) <= f.startedAt
  }

  ghost predicate Inv(p: RetryPolicy, o: Outbox) {
    && (forall id :: id in o.jobs ==> JobInv(p, o.jobs[id]))
    && (forall i :: 0 <= i < |o.log| ==> LogEntryInv(p, o.jobs, o.log[i]))
    && (forall i, j :: 0 <= i < j < |o.log| ==> Spaced(p, o.log[i], o.log[j]))
  }

  lemma AttemptKeepsJobInv(p: RetryPolicy, j: Job, r: Response, now: Time)
    requires p.Valid() && JobInv(p, j) && Due(j, now)
    ensures JobInv(p, AfterAttempt(p, j, r))
  {
  }

  /** The new entry: a job that waits was claimed after its delay, a pending one has no history. */
  lemma AttemptKeepsSpacing(p: RetryPolicy, o: Outbox, id: JobId, r: Response, now: Time, i: nat)
    requires p.Valid() && Inv(p, o) && id in o.jobs && Due(o.jobs[id], now)
    requires now <= r.startedAt <= r.finishedAt && i < |o.log|
    ensures var o' := DeliverOne(o, p, id, r);
            LogEntryInv(p, o'.jobs, o.log[i]) && Spaced(p, o.log[i], o'.log[|o.log|])
  {
    var e := o.log[i];
    assert LogEntryInv(p, o.jobs, e) && JobInv(p, o.jobs[id]);
  }

  lemma DeliverOneKeepsInv(p: RetryPolicy, o: Outbox, id: JobId, r: Response, now: Time)
    requires p.Valid() && Inv(p, o) && id in o.jobs && Due(o.jobs[id], now)
    requires now <= r.startedAt <= r.finishedAt
    ensures Inv(p, DeliverOne(o, p, id, r))
  {
    var o' := DeliverOne(o, p, id, r);
    AttemptKeepsJobInv(p, o.jobs[id], r, now);
    forall i | 0 <= i < |o.log|
      ensures LogEntryInv(p, o'.jobs, o.log[i]) && Spaced(p, o.log[i], o'.log[|o.log|])
    {
      AttemptKeepsSpacing(p, o, id, r, now, i);
    }
    forall i, j | 0 <= i < j < |o'.log|
      ensures Spaced(p, o'.log[i], o'.log[j])
    {
      assert j < |o.log| ==> Spaced(p, o.log[i], o.log[j]);
    }
  }

  lemma ReadyTail(p: RetryPolicy, o: Outbox, now: Time, batch: seq<JobId>, r: Response)
    requires batch != [] && Ready(o.jobs, now, batch)
    ensures Ready(DeliverOne(o, p, batch[0], r).jobs, now, batch[1..])
  {
  }

  lemma {:induction false} DeliverBatchKeepsInv(p: RetryPolicy, o: Outbox, batch: seq<JobId>, rs: seq<Response>,
                                                now: Time)
    requires p.Valid() && Inv(p, o) && Ready(o.jobs, now, batch) && |batch| <= |rs| && Timely(now, rs)
    ensures Inv(p, DeliverBatch(o, p, batch, rs))
    decreases |batch|
  {
    if batch != [] {
      DeliverOneKeepsInv(p, o, batch[0], rs[0], now);
      ReadyTail(p, o, now, batch, rs[0]);
      if !Strands(p, o.jobs[batch[0]], rs[0]) {
        DeliverBatchKeepsInv(p, DeliverOne(o, p, batch[0], rs[0]), batch[1..], rs[1..], now);
      }
    }
  }

  lemma StepKeepsInv(p: RetryPolicy, o: Outbox, a: Action)
    requires p.Valid() && Inv(p, o)
    ensures Inv(p, Step(o, p, a))
  {
    if Happens(o, a) {
      match a
      case Enqueue(id, _, _) =>
        forall i | 0 <= i < |o.log|
          ensures LogEntryInv(p, Step(o, p, a).jobs, o.log[i])
        {
          assert LogEntryInv(p, o.jobs, o.log[i]);
        }
      case Round(_, now, batch, rs) => DeliverBatchKeepsInv(p, o, batch, rs, now);
    }
  }

  lemma {:induction false} RunFromKeepsInv(p: RetryPolicy, o: Outbox, actions: seq<Action>)
    requires p.Valid() && Inv(p, o)
    ensures Inv(p, RunFrom(o, p, actions))
  {
    if actions != [] {
      RunFromKeepsInv(p, o, actions[..|actions| - 1]);
      StepKeepsInv(p, RunFrom(o, p, actions[..|actions| - 1]), actions[|actions| - 1]);
    }
  }

  // ----------------------------------------------------------------- guarantees

  /** Between rounds the status of a job tells how often it was tried. */
  lemma StatusTellsAttempts(p: RetryPolicy, actions: seq<Action>, id: JobId)
    requires p.Valid() && id in Run(p, actions).jobs
    ensures JobInv(p, Run(p, actions).jobs[id])
  {
    RunFromKeepsInv(p, EMPTY_OUTBOX, actions);
  }

  /** Attempt k + 1 never starts before the delay after the failure of attempt k has passed. */
  lemma AttemptsAreSpaced(p: RetryPolicy, actions: seq<Action>, i: nat, j: nat)
    requires p.Valid() && i < j < |Run(p, actions).log|
    requires Run(p, actions).log[i].job == Run(p, actions).log[j].job
    ensures var e, f := Run(p, actions).log[i], Run(p, actions).log[j];
            e.number < f.number && f.startedAt >= e.finishedAt + p.NextDelay(e.number)
  {
    RunFromKeepsInv(p, EMPTY_OUTBOX, actions);
    assert Spaced(p, Run(p, actions).log[i], Run(p, actions).log[j]);
  }

  lemma {:induction false} BatchLeavesOthersAlone(p: RetryPolicy, o: Outbox, batch: seq<JobId>, rs: seq<Response>,
                                                  id: JobId)
    requires |batch| <= |rs| && (forall x :: x in batch ==> x in o.jobs) && id in o.jobs && id !in batch
    ensures id in DeliverBatch(o, p, batch, rs).jobs && DeliverBatch(o, p, batch, rs).jobs[id] == o.jobs[id]
    decreases |batch|
  {
    if batch != [] && !Strands(p, o.jobs[batch[0]], rs[0]) {
      BatchLeavesOthersAlone(p, DeliverOne(o, p, batch[0], rs[0]), batch[1..], rs[1..], id);
    }
  }

  predicate IsFinal(o: Outbox, id: JobId) {
    id in o.jobs && !o.jobs[id].status.Pending? && !o.jobs[id].status.Failed?
  }

  lemma StepLeavesFinal(p: RetryPolicy, o: Outbox, a: Action, id: JobId)
    requires IsFinal(o, id)
    ensures IsFinal(Step(o, p, a), id) && Step(o, p, a).jobs[id] == o.jobs[id]
  {
    if Happens(o, a) && a.Round? {
      assert id !in a.batch;
      BatchLeavesOthersAlone(p, o, a.batch, a.responses, id);
    }
  }

  // ------------------------------------------------------- what the transport said

  function LastOf(log: seq<Attempt>, id: JobId): Option<Attempt> {
    if log == [] then None
    else if log[|log| - 1].job == id then Some(log[|log| - 1])
    else LastOf(log[..|log| - 1], id)
  }

  function TimesTried(log: seq<Attempt>, id: JobId): nat {
    if log == [] then 0 else TimesTried(log[..|log| - 1], id) + (if log[|log| - 1].job == id then 1 else 0)
  }

  /**
   A job shows what the transport answered to its last attempt: delivered iff it was
   accepted, dead-lettered iff it was refused and was the last one allowed, failed iff it
   was refused before that and the retry has a time, and otherwise in progress. The error
   shown is that of the refusal, and a retry is due exactly one delay after it.
   */
  predicate ShowsLast(p: RetryPolicy, j: Job, last: Option<Attempt>) {
    match last
    case None => j.status.Pending? && j.attempts == 0 && j.lastError.None? && j.availableAt == j.createdAt
    case Some(a) =>
      && a.number == j.attempts
      && (j.status.Delivered? <==> a.verdict.Ok?)
      && (j.status.DeadLettered? <==> a.verdict.Refused? && a.number >= p.maxAttempts)
      && (j.status.Failed? <==>
            a.verdict.Refused? && a.number < p.maxAttempts && !Unschedulable(p, a.number, a.finishedAt))
      && !j.status.Pending?
      && (j.status.Delivered? ==> j.lastError.None?)
      && (j.status.DeadLettered? || j.status.Failed? ==> j.lastError == Some(a.verdict.error))
      && (j.status.Failed? ==> j.availableAt == a.finishedAt + p.NextDelay(a.number))
  }

  ghost predicate ShowsLog(p: RetryPolicy, o: Outbox) {
    && (forall id :: id in o.jobs ==>
          ShowsLast(p, o.jobs[id], LastOf(o.log, id)) && TimesTried(o.log, id) == o.jobs[id].attempts)
    && (forall i :: 0 <= i < |o.log| ==> o.log[i].job in o.jobs)
  }

  lemma LogAppend(log: seq<Attempt>, a: Attempt, id: JobId)
    ensures LastOf(log + [a], id) == if a.job == id then Some(a) else LastOf(log, id)
    ensures TimesTried(log + [a], id) == TimesTried(log, id) + (if a.job == id then 1 else 0)
  {
    assert (log + [a])[..|log|] == log;
  }

  lemma {:induction false} UnknownJobHasNoLog(log: seq<Attempt>, id: JobId)
    requires forall i :: 0 <= i < |log| ==> log[i].job != id
    ensures LastOf(log, id).None? && TimesTried(log, id) == 0
  {
    if log != [] {
      UnknownJobHasNoLog(log[..|log| - 1], id);
    }
  }

  lemma AttemptShows(p: RetryPolicy, j: Job, id: JobId, r: Response)
    ensures ShowsLast(p, AfterAttempt(p, j, r),
                      Some(Attempt(id, j.attempts + 1, r.verdict, r.startedAt, r.finishedAt)))
  {
  }

  lemma DeliverOneShowsLog(p: RetryPolicy, o: Outbox, id: JobId, r: Response)
    requires ShowsLog(p, o) && id in o.jobs
    ensures ShowsLog(p, DeliverOne(o, p, id, r))
  {
    var o' := DeliverOne(o, p, id, r);
    AttemptShows(p, o.jobs[id], id, r);
    forall x | x in o'.jobs
      ensures ShowsLast(p, o'.jobs[x], LastOf(o'.log, x)) && TimesTried(o'.log, x) == o'.jobs[x].attempts
    {
      LogAppend(o.log, o'.log[|o.log|], x);
    }
  }

  lemma {:induction false} BatchShowsLog(p: RetryPolicy, o: Outbox, batch: seq<JobId>, rs: seq<Response>)
    requires ShowsLog(p, o) && |batch| <= |rs| && forall id :: id in batch ==> id in o.jobs
    ensures ShowsLog(p, DeliverBatch(o, p, batch, rs))
    decreases |batch|
  {
    if batch != [] {
      DeliverOneShowsLog(p, o, batch[0], rs[0]);
      if !Strands(p, o.jobs[batch[0]], rs[0]) {
        BatchShowsLog(p, DeliverOne(o, p, batch[0], rs[0]), batch[1..], rs[1..]);
      }
    }
  }

  lemma StepShowsLog(p: RetryPolicy, o: Outbox, a: Action)
    requires ShowsLog(p, o)
    ensures ShowsLog(p, Step(o, p, a))
  {
    if Happens(o, a) {
      match a
      case Enqueue(id, _, _) => UnknownJobHasNoLog(o.log, id);
      case Round(_, _, batch, rs) => BatchShowsLog(p, o, batch, rs);
    }
  }

  /** Over every run: each job shows its last attempt, and was attempted as often as it says. */
  lemma {:induction false} JobsShowTheirLastAttempt(p: RetryPolicy, actions: seq<Action>)
    ensures ShowsLog(p, Run(p, actions))
  {
    if actions != [] {
      JobsShowTheirLastAttempt(p, actions[..|actions| - 1]);
      StepShowsLog(p, Run(p, actions[..|actions| - 1]), actions[|actions| - 1]);
    }
  }

  /** With a policy as it is built, the refusal that buries a job is exactly the one number `maxAttempts`. */
  lemma DeadLetteredIff(p: RetryPolicy, actions: seq<Action>, id: JobId)
    requires p.Valid() && id in Run(p, actions).jobs
    ensures var last := LastOf(Run(p, actions).log, id);
            Run(p, actions).jobs[id].status.DeadLettered? <==>
            last.Some? && last.value.verdict.Refused? && last.value.number == p.maxAttempts
  {
    JobsShowTheirLastAttempt(p, actions);
    StatusTellsAttempts(p, actions, id);
  }

  // -------------------------------------------------------------- a round, job by job

  /** How many jobs of a batch are attempted: all, or those up to the first that strands. */
  function Attempted(o: Outbox, p: RetryPolicy, batch: seq<JobId>, rs: seq<Response>): (n: nat)
    requires |batch| <= |rs| && forall id :: id in batch ==> id in o.jobs
    ensures n <= |batch|
    ensures forall i :: 0 <= i < n - 1 ==> !Strands(p, o.jobs[batch[i]], rs[i])
    ensures n < |batch| ==> n > 0 && Strands(p, o.jobs[batch[n - 1]], rs[n - 1])
  {
    if batch == [] then 0
    else if Strands(p, o.jobs[batch[0]], rs[0]) then 1
    else 1 + Attempted(o, p, batch[1..], rs[1..])
  }

  lemma {:induction false} SameAttempted(o: Outbox, o': Outbox, p: RetryPolicy, batch: seq<JobId>, rs: seq<Response>)
    requires |batch| <= |rs| && forall id :: id in batch ==> id in o.jobs && id in o'.jobs && o'.jobs[id] == o.jobs[id]
    ensures Attempted(o', p, batch, rs) == Attempted(o, p, batch, rs)
  {
    if batch != [] {
      SameAttempted(o, o', p, batch[1..], rs[1..]);
    }
  }

  /** The attempt that the log keeps of a response. */
  function Entry(o: Outbox, id: JobId, r: Response): Attempt
    requires id in o.jobs
  {
    Attempt(id, o.jobs[id].attempts + 1, r.verdict, r.startedAt, r.finishedAt)
  }

  /** The rest of a batch finds its jobs as they were. */
  lemma RestUntouched(p: RetryPolicy, o: Outbox, batch: seq<JobId>, rs: seq<Response>, now: Time)
    requires Ready(o.jobs, now, batch) && 0 < |batch| <= |rs|
    ensures var o1 := DeliverOne(o, p, batch[0], rs[0]);
            && Ready(o1.jobs, now, batch[1..]) && batch[0] !in batch[1..]
            && (forall id :: id in batch[1..] ==> o1.jobs[id] == o.jobs[id])
            && Attempted(o1, p, batch[1..], rs[1..]) == Attempted(o, p, batch[1..], rs[1..])
  {
    ReadyTail(p, o, now, batch, rs[0]);
    SameAttempted(o, DeliverOne(o, p, batch[0], rs[0]), p, batch[1..], rs[1..]);
  }

  /** A round adds one entry to the log for each job it attempts. */
  lemma {:induction false} RoundGrowsLog(p: RetryPolicy, o: Outbox, batch: seq<JobId>, rs: seq<Response>, now: Time)
    requires Ready(o.jobs, now, batch) && |batch| <= |rs|
    ensures var log := DeliverBatch(o, p, batch, rs).log;
            |log| == |o.log| + Attempted(o, p, batch, rs) && log[..|o.log|] == o.log
    decreases |batch|
  {
    if batch != [] {
      RestUntouched(p, o, batch, rs, now);
      if !Strands(p, o.jobs[batch[0]], rs[0]) {
        var o1 := DeliverOne(o, p, batch[0], rs[0]);
        var log := DeliverBatch(o1, p, batch[1..], rs[1..]).log;
        RoundGrowsLog(p, o1, batch[1..], rs[1..], now);
        assert log[..|o.log|] == log[..|o1.log|][..|o.log|];
      }
    }
  }

  /** No claimed job before the i-th ends the round. */
  predicate Reached(p: RetryPolicy, o: Outbox, batch: seq<JobId>, rs: seq<Response>, i: nat)
    requires i <= |batch| <= |rs| && forall id :: id in batch ==> id in o.jobs
  {
    forall k :: 0 <= k < i ==> !Strands(p, o.jobs[batch[k]], rs[k])
  }

  /** What a round makes of its i-th claim: one attempt if the round gets there, and nothing otherwise. */
  predicate OutcomeAt(p: RetryPolicy, o: Outbox, batch: seq<JobId>, rs: seq<Response>, i: nat)
    requires i < |batch| <= |rs| && forall id :: id in batch ==> id in o.jobs
  {
    var o' := DeliverBatch(o, p, batch, rs);
    var at := |o.log| + i;
    && batch[i] in o'.jobs
    && (Reached(p, o, batch, rs, i) ==>
          && at < |o'.log| && o'.log[at] == Entry(o, batch[i], rs[i])
          && o'.jobs[batch[i]] == AfterAttempt(p, o.jobs[batch[i]], rs[i]))
    && (!Reached(p, o, batch, rs, i) ==> o'.jobs[batch[i]] == o.jobs[batch[i]])
  }

  lemma FirstOfRound(p: RetryPolicy, o: Outbox, batch: seq<JobId>, rs: seq<Response>, now: Time)
    requires Ready(o.jobs, now, batch) && 0 < |batch| <= |rs|
    ensures OutcomeAt(p, o, batch, rs, 0)
  {
    if !Strands(p, o.jobs[batch[0]], rs[0]) {
      var o1 := DeliverOne(o, p, batch[0], rs[0]);
      var log := DeliverBatch(o1, p, batch[1..], rs[1..]).log;
      RestUntouched(p, o, batch, rs, now);
      RoundGrowsLog(p, o1, batch[1..], rs[1..], now);
      BatchLeavesOthersAlone(p, o1, batch[1..], rs[1..], batch[0]);
      assert log[|o.log|] == log[..|o1.log|][|o.log|];
    }
  }

  lemma ReachedInRest(p: RetryPolicy, o: Outbox, batch: seq<JobId>, rs: seq<Response>, now: Time, i: nat)
    requires Ready(o.jobs, now, batch) && 0 < i < |batch| <= |rs| && !Strands(p, o.jobs[batch[0]], rs[0])
    ensures Reached(p, o, batch, rs, i) <==> Reached(p, DeliverOne(o, p, batch[0], rs[0]), batch[1..], rs[1..], i - 1)
  {
    var o1 := DeliverOne(o, p, batch[0], rs[0]);
    assert forall k :: 0 < k < |batch| ==> o1.jobs[batch[1..][k - 1]] == o.jobs[batch[k]] && rs[1..][k - 1] == rs[k];
    if Reached(p, o1, batch[1..], rs[1..], i - 1) {
      forall k | 0 <= k < i
        ensures !Strands(p, o.jobs[batch[k]], rs[k])
      {
        assert k > 0 ==> !Strands(p, o1.jobs[batch[1..][k - 1]], rs[1..][k - 1]);
      }
    }
  }

  /** Nothing after a job that strands is attempted. */
  lemma StrandedFirst(p: RetryPolicy, o: Outbox, batch: seq<JobId>, rs: seq<Response>, now: Time, i: nat)
    requires Ready(o.jobs, now, batch) && 0 < i < |batch| <= |rs| && Strands(p, o.jobs[batch[0]], rs[0])
    ensures OutcomeAt(p, o, batch, rs, i)
  {
    assert batch[i] != batch[0];
    assert !Reached(p, o, batch, rs, i);
  }

  /** What the rest of a round makes of a job is what the round makes of it. */
  lemma RestOfRound(p: RetryPolicy, o: Outbox, o1: Outbox, batch: seq<JobId>, rs: seq<Response>, now: Time, i: nat)
    requires Ready(o.jobs, now, batch) && 0 < i < |batch| <= |rs| && !Strands(p, o.jobs[batch[0]], rs[0])
    requires o1 == DeliverOne(o, p, batch[0], rs[0]) && Ready(o1.jobs, now, batch[1..])
    requires OutcomeAt(p, o1, batch[1..], rs[1..], i - 1)
    ensures OutcomeAt(p, o, batch, rs, i)
  {
    assert batch[i] != batch[0];
    ReachedInRest(p, o, batch, rs, now, i);
  }

  /**
   A round attempts exactly the claimed jobs up to the first that strands, and all of them
   if none does, each once and in order: the i-th entry it logs and the i-th job it
   changes are those of its i-th claim, by the i-th response.
   */
  lemma {:induction false} RoundAttempts(p: RetryPolicy, o: Outbox, batch: seq<JobId>, rs: seq<Response>, now: Time,
                                         i: nat)
    requires Ready(o.jobs, now, batch) && i < |batch| <= |rs|
    ensures OutcomeAt(p, o, batch, rs, i)
    decreases |batch|
  {
    if i == 0 {
      FirstOfRound(p, o, batch, rs, now);
    } else if Strands(p, o.jobs[batch[0]], rs[0]) {
      StrandedFirst(p, o, batch, rs, now, i);
    } else {
      var o1 := DeliverOne(o, p, batch[0], rs[0]);
      RestUntouched(p, o, batch, rs, now);
      RoundAttempts(p, o1, batch[1..], rs[1..], now, i - 1);
      RestOfRound(p, o, o1, batch, rs, now, i);
    }
  }

  /** Delivered and dead-lettered jobs, and stranded ones, are never touched again. */
  lemma {:induction false} FinalJobsStay(p: RetryPolicy, o: Outbox, actions: seq<Action>, id: JobId)
    requires IsFinal(o, id)
    ensures IsFinal(RunFrom(o, p, actions), id) && RunFrom(o, p, actions).jobs[id] == o.jobs[id]
  {
    if actions != [] {
      FinalJobsStay(p, o, actions[..|actions| - 1], id);
      StepLeavesFinal(p, RunFrom(o, p, actions[..|actions| - 1]), actions[|actions| - 1], id);
    }
  }

  // ------------------------------------------------------------------ draining

  /** Attempts left to a live job, counting only jobs created up to the bound. */
  function Backlog(p: RetryPolicy, upTo: Option<Time>): Job -> nat {
    (j: Job) =>
      if (j.status.Pending? || j.status.Failed?) && j.attempts < p.maxAttempts
         && (upTo.None? || j.createdAt <= upTo.value)
      then p.maxAttempts - j.attempts else 0
  }

  ghost function Left(p: RetryPolicy, jobs: Jobs, upTo: Option<Time>): nat {
    Sum(jobs, Backlog(p, upTo))
  }

  lemma AttemptUsesOneUp(p: RetryPolicy, o: Outbox, id: JobId, r: Response, now: Time, upTo: Option<Time>)
    requires p.Valid() && id in o.jobs && JobInv(p, o.jobs[id]) && Due(o.jobs[id], now)
    ensures Left(p, DeliverOne(o, p, id, r).jobs, upTo) <= Left(p, o.jobs, upTo)
    ensures upTo.None? || o.jobs[id].createdAt <= upTo.value ==>
              Left(p, DeliverOne(o, p, id, r).jobs, upTo) < Left(p, o.jobs, upTo)
  {
    SumInsert(o.jobs, id, AfterAttempt(p, o.jobs[id], r), Backlog(p, upTo));
  }

  lemma {:induction false} BatchUsesUp(p: RetryPolicy, o: Outbox, batch: seq<JobId>, rs: seq<Response>,
                                       now: Time, upTo: Option<Time>)
    requires p.Valid() && Inv(p, o) && Ready(o.jobs, now, batch) && |batch| <= |rs| && Timely(now, rs)
    ensures Left(p, DeliverBatch(o, p, batch, rs).jobs, upTo) <= Left(p, o.jobs, upTo)
    ensures batch != [] && (upTo.None? || o.jobs[batch[0]].createdAt <= upTo.value) ==>
              Left(p, DeliverBatch(o, p, batch, rs).jobs, upTo) < Left(p, o.jobs, upTo)
    decreases |batch|
  {
    if batch != [] {
      AttemptUsesOneUp(p, o, batch[0], rs[0], now, upTo);
      if !Strands(p, o.jobs[batch[0]], rs[0]) {
        DeliverOneKeepsInv(p, o, batch[0], rs[0], now);
        ReadyTail(p, o, now, batch, rs[0]);
        BatchUsesUp(p, DeliverOne(o, p, batch[0], rs[0]), batch[1..], rs[1..], now, upTo);
      }
    }
  }

  /** The number of rounds that claimed something. */
  ghost function BusyRounds(p: RetryPolicy, actions: seq<Action>): nat {
    if actions == [] then 0
    else
      var n := |actions| - 1;
      var a := actions[n];
      BusyRounds(p, actions[..n]) + (if a.Round? && Happens(Run(p, actions[..n]), a) && a.batch != [] then 1 else 0)
  }

  /** The attempts that newly enqueued jobs bring along, counting only jobs created up to the bound. */
  function NewWork(p: RetryPolicy, actions: seq<Action>, upTo: Option<Time>): nat {
    if actions == [] then 0
    else
      var a := actions[|actions| - 1];
      NewWork(p, actions[..|actions| - 1], upTo) +
      (if a.Enqueue? && (upTo.None? || a.createdAt <= upTo.value) then p.maxAttempts else 0)
  }

  /** An attempt is used up by every round that claims something, and only an enqueue brings new ones. */
  lemma StepUsesWork(p: RetryPolicy, o: Outbox, a: Action)
    requires p.Valid() && Inv(p, o)
    ensures (if a.Round? && Happens(o, a) && a.batch != [] then 1 else 0) + Left(p, Step(o, p, a).jobs, None)
            <= Left(p, o.jobs, None) + (if a.Enqueue? then p.maxAttempts else 0)
  {
    if Happens(o, a) {
      match a
      case Enqueue(id, m, t) => SumInsert(o.jobs, id, NewJob(m, t), Backlog(p, None));
      case Round(_, now, batch, rs) => BatchUsesUp(p, o, batch, rs, now, None);
    }
  }

  /**
   Draining terminates for any transport: every round that claims a job uses up an
   attempt, so there are at most as many busy rounds as enqueued jobs bring attempts.
   */
  lemma {:induction false} DrainingTerminates(p: RetryPolicy, actions: seq<Action>)
    requires p.Valid()
    ensures BusyRounds(p, actions) + Left(p, Run(p, actions).jobs, None) <= NewWork(p, actions, None)
  {
    if actions != [] {
      var n := |actions| - 1;
      DrainingTerminates(p, actions[..n]);
      RunFromKeepsInv(p, EMPTY_OUTBOX, actions[..n]);
      StepUsesWork(p, Run(p, actions[..n]), actions[n]);
    }
  }

  // ----------------------------------------------------------------- starvation

  /** A round in which x was due and was not attempted, whether it was claimed or not. */
  ghost predicate PassesOver(p: RetryPolicy, o: Outbox, a: Action, x: JobId) {
    && a.Round? && Happens(o, a) && a.limit >= 1 && x in o.jobs && Due(o.jobs[x], a.now)
    && x in Step(o, p, a).jobs && Step(o, p, a).jobs[x] == o.jobs[x]
  }

  /** Such a round took up a job that is no younger. */
  lemma ElderGoesFirst(p: RetryPolicy, o: Outbox, a: Action, x: JobId)
    requires PassesOver(p, o, a, x)
    ensures a.batch != [] && o.jobs[a.batch[0]].createdAt <= o.jobs[x].createdAt
  {
    if x in a.batch {
      var j :| 0 <= j < |a.batch| && a.batch[j] == x;
    }
  }

  ghost function TimesPassedOver(p: RetryPolicy, o: Outbox, actions: seq<Action>, x: JobId): nat {
    if actions == [] then 0
    else
      var n := |actions| - 1;
      TimesPassedOver(p, o, actions[..n], x) +
      (if PassesOver(p, RunFrom(o, p, actions[..n]), actions[n], x) then 1 else 0)
  }

  /** Ids stay, and so does the creation time of a job. */
  lemma {:induction false} BatchKeepsAges(p: RetryPolicy, o: Outbox, batch: seq<JobId>, rs: seq<Response>, x: JobId)
    requires |batch| <= |rs| && (forall id :: id in batch ==> id in o.jobs) && x in o.jobs
    ensures x in DeliverBatch(o, p, batch, rs).jobs
    ensures DeliverBatch(o, p, batch, rs).jobs[x].createdAt == o.jobs[x].createdAt
    decreases |batch|
  {
    if batch != [] && !Strands(p, o.jobs[batch[0]], rs[0]) {
      BatchKeepsAges(p, DeliverOne(o, p, batch[0], rs[0]), batch[1..], rs[1..], x);
    }
  }

  lemma StepKeepsAge(p: RetryPolicy, o: Outbox, a: Action, x: JobId)
    requires x in o.jobs
    ensures x in Step(o, p, a).jobs && Step(o, p, a).jobs[x].createdAt == o.jobs[x].createdAt
  {
    if Happens(o, a) && a.Round? {
      BatchKeepsAges(p, o, a.batch, a.responses, x);
    }
  }

  lemma StepUsesBacklog(p: RetryPolicy, o: Outbox, a: Action, x: JobId, born: Time)
    requires p.Valid() && Inv(p, o) && x in o.jobs && o.jobs[x].createdAt == born
    ensures (if PassesOver(p, o, a, x) then 1 else 0) + Left(p, Step(o, p, a).jobs, Some(born))
            <= Left(p, o.jobs, Some(born)) + (if a.Enqueue? && a.createdAt <= born then p.maxAttempts else 0)
  {
    if PassesOver(p, o, a, x) {
      ElderGoesFirst(p, o, a, x);
    }
    if Happens(o, a) {
      match a
      case Enqueue(id, m, t) => SumInsert(o.jobs, id, NewJob(m, t), Backlog(p, Some(born)));
      case Round(_, now, batch, rs) => BatchUsesUp(p, o, batch, rs, now, Some(born));
    }
  }

  /**
   No job starves: with a limit of at least one, a due job goes unattempted in at most
   as many rounds as there are attempts left to jobs created no later than it. Jobs
   that are enqueued meanwhile count only if they are no younger.
   */
  lemma {:induction false} PassedOverAtMostBacklog(p: RetryPolicy, o: Outbox, actions: seq<Action>, x: JobId)
    requires p.Valid() && Inv(p, o) && x in o.jobs
    ensures var o' := RunFrom(o, p, actions);
            var born := o.jobs[x].createdAt;
            && x in o'.jobs && o'.jobs[x].createdAt == born
            && TimesPassedOver(p, o, actions, x) + Left(p, o'.jobs, Some(born))
               <= Left(p, o.jobs, Some(born)) + NewWork(p, actions, Some(born))
  {
    if actions != [] {
      var n := |actions| - 1;
      PassedOverAtMostBacklog(p, o, actions[..n], x);
      RunFromKeepsInv(p, o, actions[..n]);
      StepKeepsAge(p, RunFrom(o, p, actions[..n]), actions[n], x);
      StepUsesBacklog(p, RunFrom(o, p, actions[..n]), actions[n], x, o.jobs[x].createdAt);
    }
  }

  // ------------------------------------------------------------------ stranding

  /** The delays before attempt n + 1, added up. */
  function Elapsed(p: RetryPolicy, n: nat): nat {
    if n == 0 then 0 else Elapsed(p, n - 1) + p.NextDelay(n)
  }

  /** Everything happens between `first` and `last`, and rounds are cut off only if `cuts`. */
  predicate Within(a: Action, first: Time, last: Time, cuts: bool) {
    match a
    case Enqueue(_, _, createdAt) => first <= createdAt
    case Round(_, _, _, rs) =>
      forall i :: 0 <= i < |rs| ==> rs[i].finishedAt <= last && (rs[i].verdict.Cut? ==> cuts)
  }

  predicate AllWithin(actions: seq<Action>, first: Time, last: Time, cuts: bool) {
    forall i :: 0 <= i < |actions| ==> Within(actions[i], first, last, cuts)
  }

  /**
   Rounds can be cut off, or some retry, reached after k failures that each waited their
   delay, cannot be scheduled at the end of the period.
   */
  predicate CanStrand(p: RetryPolicy, first: Time, last: Time, cuts: bool) {
    || (cuts && first <= last)
    || exists k :: 0 <= k < p.maxAttempts - 1 && first + Elapsed(p, k) <= last && Unschedulable(p, k + 1, last)
  }

  /** A live job has waited out the delays of its attempts, and a stranded one shows that stranding is possible. */
  predicate ClockInv(p: RetryPolicy, j: Job, first: Time, last: Time, cuts: bool) {
    && (j.status.Pending? || j.status.Failed? ==> j.availableAt >= first + Elapsed(p, j.attempts))
    && (j.status.InProgress? ==> CanStrand(p, first, last, cuts))
  }

  lemma UnschedulableShows(p: RetryPolicy, k: nat, at: Time, first: Time, last: Time, cuts: bool)
    requires k + 1 < p.maxAttempts && first + Elapsed(p, k) <= at <= last && Unschedulable(p, k + 1, at)
    ensures CanStrand(p, first, last, cuts)
  {
    assert Unschedulable(p, k + 1, last);
  }

  lemma AttemptKeepsClock(p: RetryPolicy, j: Job, r: Response, now: Time, first: Time, last: Time, cuts: bool)
    requires p.Valid() && JobInv(p, j) && ClockInv(p, j, first, last, cuts) && Due(j, now)
    requires now <= r.startedAt <= r.finishedAt <= last && (r.verdict.Cut? ==> cuts)
    ensures ClockInv(p, AfterAttempt(p, j, r), first, last, cuts)
  {
    var k := j.attempts;
    assert first + Elapsed(p, k) <= r.finishedAt;
    if r.verdict.Refused? && Strands(p, j, r) {
      UnschedulableShows(p, k, r.finishedAt, first, last, cuts);
    } else {
      assert Elapsed(p, k + 1) == Elapsed(p, k) + p.NextDelay(k + 1);
    }
  }

  ghost predicate AllClocked(p: RetryPolicy, jobs: Jobs, first: Time, last: Time, cuts: bool) {
    forall id :: id in jobs ==> ClockInv(p, jobs[id], first, last, cuts)
  }

  lemma {:induction false} BatchKeepsClock(p: RetryPolicy, o: Outbox, batch: seq<JobId>, rs: seq<Response>, now: Time,
                                           first: Time, last: Time, cuts: bool)
    requires p.Valid() && Inv(p, o) && Ready(o.jobs, now, batch) && |batch| <= |rs| && Timely(now, rs)
    requires forall i :: 0 <= i < |rs| ==> rs[i].finishedAt <= last && (rs[i].verdict.Cut? ==> cuts)
    requires AllClocked(p, o.jobs, first, last, cuts)
    ensures AllClocked(p, DeliverBatch(o, p, batch, rs).jobs, first, last, cuts)
    decreases |batch|
  {
    if batch != [] {
      AttemptKeepsClock(p, o.jobs[batch[0]], rs[0], now, first, last, cuts);
      if !Strands(p, o.jobs[batch[0]], rs[0]) {
        DeliverOneKeepsInv(p, o, batch[0], rs[0], now);
        ReadyTail(p, o, now, batch, rs[0]);
        BatchKeepsClock(p, DeliverOne(o, p, batch[0], rs[0]), batch[1..], rs[1..], now, first, last, cuts);
      }
    }
  }

  lemma {:induction false} RunKeepsClock(p: RetryPolicy, actions: seq<Action>, first: Time, last: Time, cuts: bool)
    requires p.Valid() && AllWithin(actions, first, last, cuts)
    ensures AllClocked(p, Run(p, actions).jobs, first, last, cuts)
  {
    if actions != [] {
      var n := |actions| - 1;
      var o, a := Run(p, actions[..n]), actions[n];
      RunKeepsClock(p, actions[..n], first, last, cuts);
      RunFromKeepsInv(p, EMPTY_OUTBOX, actions[..n]);
      assert Within(a, first, last, cuts);
      if Happens(o, a) && a.Round? {
        BatchKeepsClock(p, o, a.batch, a.responses, a.now, first, last, cuts);
      }
    }
  }

  /** A round on the only job there is. */
  lemma OneJobRound(p: RetryPolicy, actions: seq<Action>, now: Time, verdict: Verdict)
    requires Run(p, actions).jobs.Keys == {0} && Due(Run(p, actions).jobs[0], now)
    ensures var r := Response(verdict, now, now);
            var o := Run(p, actions + [Round(1, now, [0], [r])]);
            o.jobs.Keys == {0} && o.jobs[0] == AfterAttempt(p, Run(p, actions).jobs[0], r)
  {
    var o := Run(p, actions);
    var a := Round(1, now, [0], [Response(verdict, now, now)]);
    assert (actions + [a])[..|actions|] == actions;
    assert Happens(o, a);
    var o' := DeliverOne(o, p, 0, a.responses[0]);
    assert a.batch[1..] == [] && a.responses[1..] == [];
    assert DeliverBatch(o', p, [], []) == o';
  }

  /** One job that fails k times, as early as it can; it waits for its next attempt unless it was stranded. */
  lemma {:induction false} FailingRun(p: RetryPolicy, k: nat, first: Time, last: Time, cuts: bool)
    returns (actions: seq<Action>)
    requires p.Valid() && k < p.maxAttempts && first + Elapsed(p, k) <= last
    ensures AllWithin(actions, first, last, cuts)
    ensures var jobs := Run(p, actions).jobs;
            && jobs.Keys == {0}
            && (jobs[0].status.InProgress? ||
                (&& jobs[0].attempts == k && (jobs[0].status.Pending? || jobs[0].status.Failed?)
                 && jobs[0].availableAt == first + Elapsed(p, k)))
  {
    if k == 0 {
      actions := [Enqueue(0, p.maxAttempts, first)];
      assert actions[..0] == [] && RunFrom(EMPTY_OUTBOX, p, []) == EMPTY_OUTBOX;
      assert Run(p, actions) == Step(EMPTY_OUTBOX, p, actions[0]);
    } else {
      actions := FailingRun(p, k - 1, first, last, cuts);
      if !Run(p, actions).jobs[0].status.InProgress? {
        var now := first + Elapsed(p, k - 1);
        OneJobRound(p, actions, now, Refused(""));
        actions := actions + [Round(1, now, [0], [Response(Refused(""), now, now)])];
      }
    }
  }

  lemma StrandingRun(p: RetryPolicy, first: Time, last: Time, cuts: bool) returns (actions: seq<Action>)
    requires p.Valid() && CanStrand(p, first, last, cuts)
    ensures AllWithin(actions, first, last, cuts)
    ensures Run(p, actions).jobs.Keys == {0} && Run(p, actions).jobs[0].status.InProgress?
  {
    var k, verdict := 0, Cut;
    if !(cuts && first <= last) {
      k :| 0 <= k < p.maxAttempts - 1 && first + Elapsed(p, k) <= last && Unschedulable(p, k + 1, last);
      verdict := Refused("");
    }
    actions := FailingRun(p, k, first, last, cuts);
    if !Run(p, actions).jobs[0].status.InProgress? {
      OneJobRound(p, actions, last, verdict);
      actions := actions + [Round(1, last, [0], [Response(verdict, last, last)])];
    }
  }

  /**
   A job can be left InProgress, never to be claimed again, in some run between `first`
   and `last` if and only if rounds can be cut off there, or the policy has a retry that
   falls into the period and whose time cannot be expressed.
   */
  lemma StrandedIff(p: RetryPolicy, first: Time, last: Time, cuts: bool)
    requires p.Valid()
    ensures CanStrand(p, first, last, cuts) <==>
            exists actions, id ::
              && AllWithin(actions, first, last, cuts)
              && id in Run(p, actions).jobs && Run(p, actions).jobs[id].status.InProgress?
  {
    if CanStrand(p, first, last, cuts) {
      var actions := StrandingRun(p, first, last, cuts);
      assert 0 in Run(p, actions).jobs && Run(p, actions).jobs[0].status.InProgress?;
    }
    forall actions, id |
      && AllWithin(actions, first, last, cuts)
      && id in Run(p, actions).jobs && Run(p, actions).jobs[id].status.InProgress?
      ensures CanStrand(p, first, last, cuts)
    {
      RunKeepsClock(p, actions, first, last, cuts);
      assert ClockInv(p, Run(p, actions).jobs[id], first, last, cuts);
    }
  }
}
