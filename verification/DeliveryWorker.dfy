/** The in-memory delivery outbox and the worker's round, as they are executed. */
module DeliveryWorker {
  import opened Options
  import opened Retry
  import opened Delivery

  ghost predicate SortedByAge(jobs: Jobs, ids: seq<JobId>) {
    && (forall i :: 0 <= i < |ids| ==> ids[i] in jobs)
    && (forall i, j :: 0 <= i < j < |ids| ==> ids[i] != ids[j] && jobs[ids[i]].createdAt <= jobs[ids[j]].createdAt)
  }

  /** Where to insert a job so that an ordered list stays ordered. */
  method InsertionPoint(jobs: Jobs, ids: seq<JobId>, id: JobId) returns (k: nat)
    requires SortedByAge(jobs, ids) && id in jobs
    ensures k <= |ids|
    ensures forall i :: 0 <= i < k ==> jobs[ids[i]].createdAt <= jobs[id].createdAt
    ensures forall i :: k <= i < |ids| ==> jobs[id].createdAt <= jobs[ids[i]].createdAt
  {
    k := |ids|;
    while k > 0 && jobs[id].createdAt < jobs[ids[k - 1]].createdAt
      invariant k <= |ids|
      invariant forall i :: k <= i < |ids| ==> jobs[id].createdAt <= jobs[ids[i]].createdAt
    {
      k := k - 1;
    }
    if k > 0 {
      assert forall i :: 0 <= i < k ==> jobs[ids[i]].createdAt <= jobs[ids[k - 1]].createdAt;
    }
  }

  function Inserted(ids: seq<JobId>, x: JobId, k: nat): (r: seq<JobId>)
    requires k <= |ids|
    ensures |r| == |ids| + 1 && r[k] == x
    ensures forall i :: 0 <= i < k ==> r[i] == ids[i]
    ensures forall i :: k < i < |r| ==> r[i] == ids[i - 1]
  {
    ids[..k] + [x] + ids[k..]
  }

  lemma InsertKeepsOrder(jobs: Jobs, ids: seq<JobId>, x: JobId, k: nat)
    requires SortedByAge(jobs, ids) && x in jobs && x !in ids && k <= |ids|
    requires forall i :: 0 <= i < k ==> jobs[ids[i]].createdAt <= jobs[x].createdAt
    requires forall i :: k <= i < |ids| ==> jobs[x].createdAt <= jobs[ids[i]].createdAt
    ensures SortedByAge(jobs, Inserted(ids, x, k))
  {
    var r := Inserted(ids, x, k);
    forall i, j | 0 <= i < j < |r|
      ensures r[i] in jobs && r[j] in jobs && r[i] != r[j] && jobs[r[i]].createdAt <= jobs[r[j]].createdAt
    {
      assert i < k ==> r[i] == ids[i];
      assert j > k ==> r[j] == ids[j - 1];
      assert i > k ==> r[i] == ids[i - 1];
      assert j < k ==> r[j] == ids[j];
    }
  }

  lemma InsertAdds(ids: seq<JobId>, x: JobId, k: nat, y: JobId)
    requires k <= |ids|
    ensures y in Inserted(ids, x, k) <==> y in ids || y == x
  {
    assert ids == ids[..k] + ids[k..];
  }

  class InMemoryDeliveryOutbox {
    var jobs: Jobs

    constructor ()
      ensures jobs == map[]
    {
      jobs := map[];
    }

    method Enqueue(id: JobId, job: Job)
      modifies this
      ensures jobs == old(jobs)[id := job]
    {
      jobs := jobs[id := job];
    }

    /** All due jobs, oldest first. */
    method DueByAge(now: Time) returns (due: seq<JobId>)
      ensures SortedByAge(jobs, due)
      ensures forall x :: x in due <==> x in jobs && Due(jobs[x], now)
    {
      due := [];
      var rest := jobs.Keys;
      while rest != {}
        invariant rest <= jobs.Keys
        invariant SortedByAge(jobs, due)
        invariant forall x :: x in due <==> x in jobs && x !in rest && Due(jobs[x], now)
        decreases rest
      {
        var x :| x in rest;
        rest := rest - {x};
        if Due(jobs[x], now) {
          var k := InsertionPoint(jobs, due, x);
          InsertKeepsOrder(jobs, due, x, k);
          forall y { InsertAdds(due, x, k, y); }
          due := Inserted(due, x, k);
        }
      }
    }

    method ClaimDue(limit: nat, now: Time) returns (batch: seq<JobId>)
      ensures Claims(jobs, limit, now, batch)
    {
      var due := DueByAge(now);
      batch := if |due| <= limit then due else due[..limit];
      forall x | x in jobs && Due(jobs[x], now) && x !in batch
        ensures |batch| == limit && forall i :: 0 <= i < |batch| ==> jobs[batch[i]].createdAt <= jobs[x].createdAt
      {
        var j :| 0 <= j < |due| && due[j] == x;
      }
    }

    /** None stands for the NotFound error. */
    method RecordAttempt(id: JobId) returns (job: Option<Job>)
      modifies this
      ensures id !in old(jobs) ==> job == None && jobs == old(jobs)
      ensures id in old(jobs) ==>
                && job == Some(old(jobs)[id].(status := InProgress, attempts := old(jobs)[id].attempts + 1))
                && jobs == old(jobs)[id := job.value]
    {
      if id !in jobs {
        return None;
      }
      jobs := jobs[id := jobs[id].(status := InProgress, attempts := jobs[id].attempts + 1)];
      return Some(jobs[id]);
    }

    method MarkDelivered(id: JobId) returns (found: bool)
      modifies this
      ensures found == (id in old(jobs))
      ensures jobs == if found
                      then old(jobs)[id := old(jobs)[id].(status := Delivered, lastError := None)]
                      else old(jobs)
    {
      found := id in jobs;
      if found {
        jobs := jobs[id := jobs[id].(status := Delivered, lastError := None)];
      }
    }

    method MarkRetry(id: JobId, error: string, next: Time) returns (found: bool)
      modifies this
      ensures found == (id in old(jobs))
      ensures jobs == if found
                      then old(jobs)[id := old(jobs)[id].(status := Failed, lastError := Some(error),
                                                          availableAt := next)]
                      else old(jobs)
    {
      found := id in jobs;
      if found {
        jobs := jobs[id := jobs[id].(status := Failed, lastError := Some(error), availableAt := next)];
      }
    }

    method MarkDeadLettered(id: JobId, error: string) returns (found: bool)
      modifies this
      ensures found == (id in old(jobs))
      ensures jobs == if found
                      then old(jobs)[id := old(jobs)[id].(status := DeadLettered, lastError := Some(error))]
                      else old(jobs)
    {
      found := id in jobs;
      if found {
        jobs := jobs[id := jobs[id].(status := DeadLettered, lastError := Some(error))];
      }
    }
  }

  /** Why a round ends early: an error, a panic, or the caller dropping it. */
  datatype Cause = DelayTooLong | TimeOverflow | CutOff

  datatype RoundResult = DeliveredCount(delivered: nat) | Stopped(cause: Cause)

  function CauseOf(p: RetryPolicy, j: Job, r: Response): Cause {
    if r.verdict.Cut? then CutOff
    else if p.NextDelay(j.attempts + 1) > CALENDAR_MAX then DelayTooLong
    else TimeOverflow
  }

  /** What a round over `batch` returns when `delivered` jobs were delivered before. */
  function BatchResult(o: Outbox, p: RetryPolicy, batch: seq<JobId>, rs: seq<Response>, delivered: nat): RoundResult
    requires |batch| <= |rs| && forall id :: id in batch ==> id in o.jobs
    decreases |batch|
  {
    if batch == [] then DeliveredCount(delivered)
    else if Strands(p, o.jobs[batch[0]], rs[0]) then Stopped(CauseOf(p, o.jobs[batch[0]], rs[0]))
    else
      BatchResult(DeliverOne(o, p, batch[0], rs[0]), p, batch[1..], rs[1..],
                  if rs[0].verdict.Ok? then delivered + 1 else delivered)
  }

  function Successes(rs: seq<Response>): nat {
    if rs == [] then 0 else (if rs[0].verdict.Ok? then 1 else 0) + Successes(rs[1..])
  }

  /** Which job ended the round, and that otherwise the successful responses were counted. */
  lemma {:induction false} ResultOfResponses(o: Outbox, p: RetryPolicy, batch: seq<JobId>, rs: seq<Response>,
                                             delivered: nat, now: Time)
    requires |batch| <= |rs| && Ready(o.jobs, now, batch)
    ensures var result := BatchResult(o, p, batch, rs, delivered);
            var n := Attempted(o, p, batch, rs);
            if n > 0 && Strands(p, o.jobs[batch[n - 1]], rs[n - 1])
            then result == Stopped(CauseOf(p, o.jobs[batch[n - 1]], rs[n - 1]))
            else result == DeliveredCount(delivered + Successes(rs[..|batch|]))
    decreases |batch|
  {
    if batch != [] && !Strands(p, o.jobs[batch[0]], rs[0]) {
      var o1 := DeliverOne(o, p, batch[0], rs[0]);
      RestUntouched(p, o, batch, rs, now);
      ResultOfResponses(o1, p, batch[1..], rs[1..], if rs[0].verdict.Ok? then delivered + 1 else delivered, now);
      assert rs[..|batch|][1..] == rs[1..][..|batch| - 1];
    }
  }

  function DeliveredAmong(jobs: Jobs, ids: seq<JobId>): nat {
    if ids == [] then 0
    else (if ids[0] in jobs && jobs[ids[0]].status.Delivered? then 1 else 0) + DeliveredAmong(jobs, ids[1..])
  }

  lemma {:induction false} SuccessesAreDelivered(jobs: Jobs, ids: seq<JobId>, rs: seq<Response>)
    requires |ids| == |rs|
    requires forall i :: 0 <= i < |ids| ==> ids[i] in jobs && (jobs[ids[i]].status.Delivered? <==> rs[i].verdict.Ok?)
    ensures Successes(rs) == DeliveredAmong(jobs, ids)
  {
    if ids != [] {
      SuccessesAreDelivered(jobs, ids[1..], rs[1..]);
    }
  }

  /** A round that attempts every claim leaves as many of them delivered as responses were good. */
  lemma FullRoundDelivers(o: Outbox, p: RetryPolicy, batch: seq<JobId>, rs: seq<Response>, now: Time)
    requires |batch| <= |rs| && Ready(o.jobs, now, batch) && Reached(p, o, batch, rs, |batch|)
    ensures DeliveredAmong(DeliverBatch(o, p, batch, rs).jobs, batch) == Successes(rs[..|batch|])
  {
    var jobs := DeliverBatch(o, p, batch, rs).jobs;
    forall i | 0 <= i < |batch|
      ensures batch[i] in jobs && (jobs[batch[i]].status.Delivered? <==> rs[..|batch|][i].verdict.Ok?)
    {
      RoundAttempts(p, o, batch, rs, now, i);
    }
    SuccessesAreDelivered(jobs, batch, rs[..|batch|]);
  }

  /** The i-th claim is the first that strands, and its response tells why. */
  predicate EndsRound(o: Outbox, p: RetryPolicy, batch: seq<JobId>, rs: seq<Response>, i: nat, cause: Cause)
    requires |batch| <= |rs| && forall id :: id in batch ==> id in o.jobs
  {
    && i < |batch| && Reached(p, o, batch, rs, i) && Strands(p, o.jobs[batch[i]], rs[i])
    && (cause.CutOff? <==> rs[i].verdict.Cut?)
    && (cause.DelayTooLong? <==> rs[i].verdict.Refused? && p.NextDelay(o.jobs[batch[i]].attempts + 1) > CALENDAR_MAX)
  }

  /**
   A round ends early exactly when a claimed job strands, for the reason of the first that
   does; otherwise it reports how many of the claimed jobs it leaves delivered.
   */
  lemma RoundResultMeaning(o: Outbox, p: RetryPolicy, batch: seq<JobId>, rs: seq<Response>, now: Time)
    requires |batch| <= |rs| && Ready(o.jobs, now, batch)
    ensures var result := BatchResult(o, p, batch, rs, 0);
            && (result.DeliveredCount? <==> Reached(p, o, batch, rs, |batch|))
            && (result.DeliveredCount? ==>
                  result.delivered == DeliveredAmong(DeliverBatch(o, p, batch, rs).jobs, batch))
            && (result.Stopped? ==> exists i: nat :: EndsRound(o, p, batch, rs, i, result.cause))
  {
    ResultOfResponses(o, p, batch, rs, 0, now);
    var n := Attempted(o, p, batch, rs);
    if n > 0 && Strands(p, o.jobs[batch[n - 1]], rs[n - 1]) {
      assert EndsRound(o, p, batch, rs, n - 1, BatchResult(o, p, batch, rs, 0).cause);
    } else {
      FullRoundDelivers(o, p, batch, rs, now);
    }
  }

  class Worker {
    const outbox: InMemoryDeliveryOutbox
    const policy: RetryPolicy

    constructor (outbox: InMemoryDeliveryOutbox, policy: RetryPolicy)
      ensures this.outbox == outbox && this.policy == policy
    {
      this.outbox, this.policy := outbox, policy;
    }

    /** One claimed job: attempt, then mark, unless the round ends in between. */
    method DeliverJob(id: JobId, r: Response) returns (stop: Option<Cause>)
      requires id in outbox.jobs
      modifies outbox
      ensures outbox.jobs == old(outbox.jobs)[id := AfterAttempt(policy, old(outbox.jobs)[id], r)]
      ensures stop == if Strands(policy, old(outbox.jobs)[id], r)
                      then Some(CauseOf(policy, old(outbox.jobs)[id], r)) else None
    {
      var attempted := outbox.RecordAttempt(id);
      var n := attempted.value.attempts;
      stop := None;
      match r.verdict
      case Cut => stop := Some(CutOff);
      case Ok => var _ := outbox.MarkDelivered(id);
      case Refused(error) =>
        if policy.ShouldRetryAfter(n) {
          var delay := policy.NextDelay(n);
          if delay > CALENDAR_MAX {
            stop := Some(DelayTooLong);
          } else if r.finishedAt + delay > TIME_MAX {
            stop := Some(TimeOverflow);
          } else {
            var _ := outbox.MarkRetry(id, error, r.finishedAt + delay);
          }
        } else {
          var _ := outbox.MarkDeadLettered(id, error);
        }
      assert outbox.jobs == old(outbox.jobs)[id := AfterAttempt(policy, old(outbox.jobs)[id], r)];
    }

    /** One round: claim, then deliver job by job until one of them ends the round. */
    method DeliverDue(limit: nat, now: Time, responses: seq<Response>) returns (batch: seq<JobId>, result: RoundResult)
      requires limit <= |responses|
      modifies outbox
      ensures Claims(old(outbox.jobs), limit, now, batch)
      ensures outbox.jobs == DeliverBatch(Outbox(old(outbox.jobs), []), policy, batch, responses).jobs
      ensures result == BatchResult(Outbox(old(outbox.jobs), []), policy, batch, responses, 0)
      ensures result.DeliveredCount? ==> result.delivered == DeliveredAmong(outbox.jobs, batch)
    {
      batch := outbox.ClaimDue(limit, now);
      RoundResultMeaning(Outbox(outbox.jobs, []), policy, batch, responses, now);
      ghost var log: seq<Attempt> := [];
      ghost var final := DeliverBatch(Outbox(outbox.jobs, []), policy, batch, responses);
      ghost var expected := BatchResult(Outbox(outbox.jobs, []), policy, batch, responses, 0);
      var i, delivered := 0, 0;
      while i < |batch|
        invariant 0 <= i <= |batch|
        invariant forall id :: id in batch ==> id in outbox.jobs
        invariant DeliverBatch(Outbox(outbox.jobs, log), policy, batch[i..], responses[i..]) == final
        invariant BatchResult(Outbox(outbox.jobs, log), policy, batch[i..], responses[i..], delivered) == expected
      {
        var job, r := batch[i], responses[i];
        ghost var before := Outbox(outbox.jobs, log);
        assert batch[i..][1..] == batch[i + 1..] && responses[i..][1..] == responses[i + 1..];
        var stop := DeliverJob(job, r);
        log := DeliverOne(before, policy, job, r).log;
        if stop.Some? {
          return batch, Stopped(stop.value);
        }
        if r.verdict.Ok? {
          delivered := delivered + 1;
        }
        i := i + 1;
      }
      result := DeliveredCount(delivered);
    }
  }
}
