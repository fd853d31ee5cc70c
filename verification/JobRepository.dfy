/**
 * The queue's repository over a mutable job table, statement by statement. Each method is one
 * transaction: it is proved to take exactly the steps of Jobs, so the theorems over runs hold of it.
 */
module JobRepository {
  import opened Wrappers
  import opened Jobs
  import JobRuns

  class Repository {
    const settings: Settings
    var jobs: map<JobId, Job>
    var index: map<(nat, nat), JobId>
    var clock: Time
    var issued: set<Token>

    function Snapshot(): Queue
      reads this
    {
      Queue(jobs, index, clock, issued, Free)
    }

    ghost predicate Valid()
      reads this
    {
      settings.Valid() && JobRuns.Inv(Snapshot(), settings)
    }

    constructor (settings: Settings)
      requires settings.Valid()
      ensures Valid() && this.settings == settings && Snapshot() == EMPTY
    {
      this.settings, jobs, index, clock, issued := settings, map[], map[], 0.0, {};
      new;
      JobRuns.EmptyInv(settings);
    }

    /** Insert-or-select on the owner's idempotency key, within capacity; `newId` is the row id a new job would get. */
    method Enqueue(owner: nat, key: nat, payload: Payload, newId: JobId) returns (r: Result<JobId, JobError>)
      requires Valid() && newId !in jobs
      modifies this
      ensures Valid()
      ensures match Admit(old(Snapshot()), owner, key, payload, settings)
              case Failure(e) => r == Failure(e) && Snapshot() == old(Snapshot())
              case Success(Some(id)) => r == Success(id) && Snapshot() == old(Snapshot())
              case Success(None) =>
                r == Success(newId) && Snapshot()
                    == Insert(BeginEnqueue(old(Snapshot()), owner, key, payload, settings), newId, settings)
    {
      ghost var q := Snapshot();
      if (owner, key) in index && index[(owner, key)] in jobs {
        var id := index[(owner, key)];
        if jobs[id].fingerprint != payload { return Failure(IdempotencyConflict); }
        return Success(id);
      }
      var full := CheckCapacity(jobs, owner, settings);
      if full.Some? { return Failure(full.value); }
      JobRuns.AdmissionKeepsInv(q, owner, key, payload, settings);
      JobRuns.InsertKeepsInv(BeginEnqueue(q, owner, key, payload, settings), newId, settings);
      var job := Job(owner, key, Some(payload), payload, Queued, 0, settings.maxAttempts, 0, clock, clock, None, None,
          None, None, None);
      jobs := jobs[newId := job];
      index := index[(owner, key) := newId];
      return Success(newId);
    }

    /** The first bulk update: expired leases whose attempts are used up are dead-lettered. */
    method DeadLetterExhausted(at: Time)
      modifies this`jobs
      ensures jobs.Keys == old(jobs).Keys
      ensures forall id :: id in jobs ==>
                jobs[id] == if old(jobs)[id].attempts >= old(jobs)[id].maxAttempts then Recovered(old(jobs)[id], at, at)
                    else old(jobs)[id]
    {
      var todo := jobs.Keys;
      while todo != {}
        invariant todo <= jobs.Keys == old(jobs).Keys
        invariant forall id :: id in jobs ==>
                    jobs[id] ==
                      if id !in todo && old(jobs)[id].attempts >= old(jobs)[id].maxAttempts
                          then Recovered(old(jobs)[id], at, at)
                      else old(jobs)[id]
        decreases |todo|
      {
        var id :| id in todo;
        var j := jobs[id];
        if Expired(j, at) && j.attempts >= j.maxAttempts {
          jobs := jobs[id := j.(status := DeadLetter, error := Some("LEASE_EXPIRED"),
                                leaseToken := None, leaseExpires := None, completedAt := Some(at))];
        }
        todo := todo - {id};
      }
    }

    /** The second bulk update: the other expired leases wait for a retry. */
    method RetryExpired(at: Time, retryAt: JobId -> Time)
      modifies this`jobs
      ensures jobs.Keys == old(jobs).Keys
      ensures forall id :: id in jobs ==>
                jobs[id] ==
                  if old(jobs)[id].attempts < old(jobs)[id].maxAttempts then Recovered(old(jobs)[id], at, retryAt(id))
                  else old(jobs)[id]
    {
      var todo := jobs.Keys;
      while todo != {}
        invariant todo <= jobs.Keys == old(jobs).Keys
        invariant forall id :: id in jobs ==>
                    jobs[id] ==
                      if id !in todo && old(jobs)[id].attempts < old(jobs)[id].maxAttempts
                          then Recovered(old(jobs)[id], at, retryAt(id))
                      else old(jobs)[id]
        decreases |todo|
      {
        var id :| id in todo;
        var j := jobs[id];
        if Expired(j, at) && j.attempts < j.maxAttempts {
          jobs := jobs[id := j.(status := RetryWait, error := Some("LEASE_EXPIRED"),
                                leaseToken := None, leaseExpires := None, availableAt := retryAt(id))];
        }
        todo := todo - {id};
      }
    }

    /** The first ready job that no other transaction has locked. */
    method SelectReady(at: Time, locked: set<JobId>) returns (choice: Option<JobId>)
      ensures match choice
              case None => Claimable(jobs, at, locked) == {}
              case Some(id) => First(jobs, Claimable(jobs, at, locked), id)
    {
      choice := None;
      var todo := jobs.Keys;
      ghost var seen: set<JobId> := {};
      while todo != {}
        invariant seen + todo == jobs.Keys && seen !! todo
        invariant choice.None? ==> forall i :: i in seen ==> i in locked || !Ready(jobs[i], at)
        invariant choice.Some? ==> choice.value in seen && choice.value in Claimable(jobs, at, locked)
        invariant choice.Some? ==>
                    forall i :: i in seen && i !in locked && Ready(jobs[i], at) && i != choice.value ==>
                        Earlier(jobs, choice.value, i)
        decreases |todo|
      {
        var id :| id in todo;
        if id !in locked && Ready(jobs[id], at) && (choice.None? || Earlier(jobs, id, choice.value)) {
          choice := Some(id);
        }
        todo, seen := todo - {id}, seen + {id};
      }
    }

    /** Ends every expired lease. */
    method RecoverExpired(retryAt: JobId -> Time)
      modifies this`jobs
      ensures Snapshot() == old(Snapshot()).(jobs := Recover(old(jobs), clock, retryAt))
    {
      DeadLetterExhausted(clock);
      RetryExpired(clock, retryAt);
      assert jobs == Recover(old(jobs), clock, retryAt);
    }

    /** Leases the first ready job under a fresh token. */
    method LeaseFirst(locked: set<JobId>, token: Token) returns (lease: Option<JobId>)
      modifies this
      ensures match lease
              case None => Claimable(old(jobs), clock, locked) == {} && Snapshot() == old(Snapshot())
              case Some(id) =>
                First(old(jobs), Claimable(old(jobs), clock, locked), id)
                && Snapshot() == old(Snapshot()).(
                     jobs := old(jobs)[id := Leased(old(jobs)[id], clock, token, settings)],
                     issued := old(issued) + {token})
    {
      lease := SelectReady(clock, locked);
      if lease.Some? {
        var id := lease.value;
        jobs := jobs[id := jobs[id].(status := Running, attempts := jobs[id].attempts + 1)];
        jobs := jobs[id := jobs[id].(leaseToken := Some(token),
            leaseExpires := Some(clock + settings.leaseSeconds as real))];
        jobs := jobs[id := jobs[id].(completedAt := None)];
        issued := issued + {token};
      }
    }

    /** Recovery, the count of running jobs, and the lease of the first ready job. */
    method Claim(retryAt: JobId -> Time, locked: set<JobId>, token: Token) returns (lease: Option<JobId>)
      requires Valid() && token !in issued
      modifies this
      ensures Valid()
      ensures var q := BeginClaim(old(Snapshot()), retryAt, settings);
              if q.hold == Free then lease == None && Snapshot() == q
              else Choice(q, retryAt, locked, lease) && Snapshot() == Take(q, retryAt, locked, lease, token, settings)
    {
      ghost var q := Snapshot();
      ghost var held := BeginClaim(q, retryAt, settings);
      JobRuns.BeginClaimKeepsInv(q, retryAt, settings);
      JobRuns.RecoverKeeps(q, clock, retryAt, settings);
      RecoverExpired(retryAt);
      if |RunningIds(jobs)| >= settings.concurrency {
        assert Snapshot() == held;
        return None;
      }
      lease := LeaseFirst(locked, token);
      JobRuns.TakeKeepsInv(held, retryAt, locked, lease, token, settings);
      assert Snapshot() == Take(held, retryAt, locked, lease, token, settings);
    }

    /** Completes, retries or dead-letters the job, if the lease is still its own and unexpired. */
    method Finish(owner: nat, id: JobId, token: Token, report: Report, delay: real) returns (completed: bool)
      requires Valid()
      modifies this
      ensures Valid()
      ensures completed == Holds(old(Snapshot()), owner, id, token)
      ensures Snapshot() == Jobs.Finish(old(Snapshot()), owner, id, token, report, delay)
    {
      JobRuns.FinishKeepsInv(Snapshot(), owner, id, token, report, delay, settings);
      if !Holds(Snapshot(), owner, id, token) { return false; }
      var job := jobs[id].(leaseToken := None, leaseExpires := None, error := report.error);
      if report.result.Some? {
        job := job.(status := Succeeded, result := report.result, completedAt := Some(clock));
        job := job.(payload := None);
      } else if report.retryable && job.attempts < job.maxAttempts {
        job := job.(status := RetryWait, availableAt := clock + delay);
      } else {
        job := job.(status := DeadLetter, completedAt := Some(clock));
      }
      jobs := jobs[id := job];
      assert Snapshot() == Jobs.Finish(old(Snapshot()), owner, id, token, report, delay);
      return true;
    }

    /** Puts a dead-lettered job back in the queue, with its attempts reset, at most three times. */
    method ReviewRetry(owner: nat, id: JobId) returns (error: Option<JobError>)
      requires Valid()
      modifies this
      ensures Valid()
      ensures error == Retryable(old(Snapshot()), owner, id, settings)
      ensures Snapshot() == if error.Some? then old(Snapshot())
                else Requeue(BeginRetry(old(Snapshot()), owner, id, settings))
    {
      if !Visible(Snapshot(), owner, id) { return Some(JobNotFound); }
      if jobs[id].status != DeadLetter || jobs[id].reviewRetries >= REVIEW_RETRIES { return Some(NotRetryable); }
      error := CheckCapacity(jobs, owner, settings);
      if error.Some? { return; }
      JobRuns.RetryKeepsInv(Snapshot(), owner, id, settings);
      var job := jobs[id].(status := Queued, attempts := 0);
      job := job.(reviewRetries := job.reviewRetries + 1, availableAt := clock);
      jobs := jobs[id := job.(completedAt := None, error := None)];
      assert job.(completedAt := None, error := None) == Requeued(old(jobs)[id], clock);
    }

    /** Cancels a job that is not running; cancelling again answers the same. */
    method Cancel(owner: nat, id: JobId) returns (error: Option<JobError>)
      requires Valid()
      modifies this
      ensures Valid()
      ensures error == Cancellable(old(Snapshot()), owner, id)
      ensures Snapshot() == Jobs.Cancel(old(Snapshot()), owner, id)
    {
      JobRuns.CancelKeepsInv(Snapshot(), owner, id, settings);
      if !Visible(Snapshot(), owner, id) { return Some(JobNotFound); }
      if jobs[id].status == Cancelled { return None; }
      if jobs[id].status != Queued && jobs[id].status != RetryWait { return Some(CannotCancel); }
      jobs := jobs[id := jobs[id].(status := Cancelled, completedAt := Some(clock))];
      jobs := jobs[id := jobs[id].(payload := None)];
      assert Snapshot() == Jobs.Cancel(old(Snapshot()), owner, id);
      return None;
    }
  }
}
