/**
 * What each transaction of the queue commits, row by row, and exactly when; and over runs, which jobs are
 * given up.
 */
module JobOutcomes {
  import opened Wrappers
  import opened Jobs
  import opened JobRuns
  import JobHistory

  // ---------------------------------------------------------------- finish

  /** The job is the owner's, running under this lease, and the lease has not expired. */
  predicate Held(q: Queue, owner: nat, id: JobId, token: Token)
  {
    && id in q.jobs && q.jobs[id].owner == owner && q.jobs[id].status == Running
    && q.jobs[id].leaseToken == Some(token)
    && q.jobs[id].leaseExpires.Some? && q.clock < q.jobs[id].leaseExpires.value
  }

  /**
   * A finish under a held lease writes that row alone: the job succeeded with the result; or it waits for the
   * delay, exactly if the failure was retryable and attempts are left; or it is dead-lettered.
   */
  lemma FinishCommits(q: Queue, owner: nat, id: JobId, token: Token, report: Report, delay: real)
    ensures !Held(q, owner, id, token) ==> Finish(q, owner, id, token, report, delay) == q
    ensures Held(q, owner, id, token) ==>
              var q', j := Finish(q, owner, id, token, report, delay), q.jobs[id];
              && id in q'.jobs && q' == q.(jobs := q.jobs[id := q'.jobs[id]])
              && var released := j.(leaseToken := None, leaseExpires := None, error := report.error);
                 q'.jobs[id] ==
                   if report.result.Some? then
                     released.(status := Succeeded, result := report.result, completedAt := Some(q.clock),
                       payload := None)
                   else if report.retryable && j.attempts < j.maxAttempts then
                     released.(status := RetryWait, availableAt := q.clock + delay)
                   else released.(status := DeadLetter, completedAt := Some(q.clock))
  {
  }

  // ---------------------------------------------------------------- claims

  /** The job waits to be claimed, its time has come, and it has attempts left. */
  predicate Waits(j: Job, at: Time)
  {
    (j.status == Queued || j.status == RetryWait) && j.availableAt <= at && j.attempts < j.maxAttempts
  }

  /** By availability, then age, then id. */
  predicate ComesBefore(j: Job, i: JobId, j': Job, i': JobId)
  {
    || j.availableAt < j'.availableAt
    || (j.availableAt == j'.availableAt && j.createdAt < j'.createdAt)
    || (j.availableAt == j'.availableAt && j.createdAt == j'.createdAt && i < i')
  }

  /**
   * A claim leases the unlocked waiting job that comes before every other one, or none when there is none; of
   * the rest only expired leases change, as the recovery leaves them.
   */
  lemma ClaimCommits(q: Queue, retryAt: JobId -> Time, locked: set<JobId>, choice: Option<JobId>, token: Token,
          st: Settings)
    requires q.hold.Taking? && token !in q.issued && Choice(q, retryAt, locked, choice)
    ensures var q', at := Take(q, retryAt, locked, choice, token, st), q.hold.at;
            && q'.jobs.Keys == q.jobs.Keys && q'.hold == Free && q'.clock == q.clock && q'.index == q.index
            && (forall i :: i in q'.jobs && Some(i) != choice && i !in locked && Waits(q'.jobs[i], at) ==>
                  choice.Some? && choice.value in q'.jobs
                      && ComesBefore(q'.jobs[choice.value], choice.value, q'.jobs[i], i))
            && (forall i :: i in q.jobs && Some(i) != choice ==> q'.jobs[i] == Recover(q.jobs, at, retryAt)[i])
    ensures choice.None? ==> Take(q, retryAt, locked, choice, token, st).issued == q.issued
    ensures choice.Some? ==>
              var q', at, id := Take(q, retryAt, locked, choice, token, st), q.hold.at, choice.value;
              && q'.issued == q.issued + {token}
              && id in q.jobs && id !in locked && id in q'.jobs
              && q'.jobs[id].availableAt <= at && q'.jobs[id].attempts <= q'.jobs[id].maxAttempts
              && (q.jobs[id].status == Running ==>
                    && q.jobs[id].leaseExpires.Some? && q.jobs[id].leaseExpires.value <= at && retryAt(id) <= at
                    && q'.jobs[id].leaseToken == Some(token) && q'.jobs[id].attempts == q.jobs[id].attempts + 1)
              && (q.jobs[id].status != Running ==>
                    && Waits(q.jobs[id], at)
                    && q'.jobs[id] == q.jobs[id].(status := Running, attempts := q.jobs[id].attempts + 1,
                         leaseToken := Some(token), leaseExpires := Some(at + st.leaseSeconds as real),
                         completedAt := None))
  {
    var q', at := Take(q, retryAt, locked, choice, token, st), q.hold.at;
    var jobs := Recover(q.jobs, at, retryAt);
    forall i | i in q'.jobs && Some(i) != choice && i !in locked && Waits(q'.jobs[i], at)
      ensures choice.Some? && choice.value in q'.jobs
      ensures ComesBefore(q'.jobs[choice.value], choice.value, q'.jobs[i], i)
    {
      assert q'.jobs[i] == jobs[i];
      assert i in Claimable(jobs, at, locked);
      assert Earlier(jobs, choice.value, i);
    }
  }

  lemma {:induction false} FirstExists(jobs: map<JobId, Job>, ids: set<JobId>) returns (id: JobId)
    requires ids != {} && forall i :: i in ids ==> i in jobs
    ensures First(jobs, ids, id)
    decreases |ids|
  {
    var one :| one in ids;
    id := one;
    if ids != {one} {
      var other := FirstExists(jobs, ids - {one});
      if Earlier(jobs, other, one) { id := other; }
      forall i | i in ids && i != id ensures Earlier(jobs, id, i) {
        if i != one && i != other { assert i in ids - {one} && Earlier(jobs, other, i); }
      }
    }
  }

  /** There is always exactly one such choice. */
  lemma OneChoice(q: Queue, retryAt: JobId -> Time, locked: set<JobId>) returns (choice: Option<JobId>)
    requires q.hold.Taking?
    ensures Choice(q, retryAt, locked, choice)
    ensures forall other :: Choice(q, retryAt, locked, other) ==> other == choice
  {
    var jobs := Recover(q.jobs, q.hold.at, retryAt);
    var ids := Claimable(jobs, q.hold.at, locked);
    if ids == {} {
      choice := None;
    } else {
      var id := FirstExists(jobs, ids);
      choice := Some(id);
    }
  }

  /** With every slot held by an unexpired lease a claim ends with its recovery; otherwise it goes on to choose. */
  lemma BeginClaimCommits(q: Queue, retryAt: JobId -> Time, st: Settings)
    requires q.hold == Free
    ensures var held := set id | id in q.jobs && q.jobs[id].status == Running
                && !(q.jobs[id].leaseExpires.Some? && q.jobs[id].leaseExpires.value <= q.clock);
            BeginClaim(q, retryAt, st) ==
              if |held| < st.concurrency then q.(hold := Taking(q.clock))
              else q.(jobs := Recover(q.jobs, q.clock, retryAt))
  {
    assert (set id | id in q.jobs && q.jobs[id].status == Running
                && !(q.jobs[id].leaseExpires.Some? && q.jobs[id].leaseExpires.value <= q.clock))
        == StillRunning(q.jobs, q.clock);
  }

  /** A claim's recovery ends expired leases alone: those without attempts left are given up, the others wait. */
  lemma RecoverCommits(jobs: map<JobId, Job>, at: Time, retryAt: JobId -> Time, id: JobId)
    requires id in jobs
    ensures Recover(jobs, at, retryAt).Keys == jobs.Keys
    ensures var j, j' := jobs[id], Recover(jobs, at, retryAt)[id];
            if j.status == Running && j.leaseExpires.Some? && j.leaseExpires.value <= at then
              && j'.error == Some("LEASE_EXPIRED") && j'.leaseToken == None && j'.leaseExpires == None
              && j'.attempts == j.attempts && j'.payload == j.payload
              && (j.attempts < j.maxAttempts ==>
                    j'.status == RetryWait && j'.availableAt == retryAt(id) && j'.completedAt == j.completedAt)
              && (j.attempts >= j.maxAttempts ==>
                    j'.status == DeadLetter && j'.completedAt == Some(at) && j'.availableAt == j.availableAt)
            else j' == j
  {
  }

  /** The ceilings of the backoff: the base doubled with every attempt, up to the maximum. */
  lemma Ceilings(st: Settings)
    requires st.Valid()
    ensures Ceiling(1, st) == Least(st.maxBackoff, st.backoff)
    ensures Ceiling(2, st) == Least(st.maxBackoff, 2.0 * st.backoff)
    ensures Ceiling(3, st) == Least(st.maxBackoff, 4.0 * st.backoff)
    ensures Ceiling(4, st) == Least(st.maxBackoff, 8.0 * st.backoff)
    ensures Ceiling(5, st) == Least(st.maxBackoff, 16.0 * st.backoff)
  {
    assert Power2(0) == 1 && Power2(1) == 2 && Power2(2) == 4 && Power2(3) == 8;
    assert Power2(4) == 16;
  }

  // ---------------------------------------------------------------- enqueue, review retry and cancel

  /** Both limits leave room for one more job. */
  predicate HasRoom(q: Queue, owner: nat, st: Settings)
  {
    && |set id | id in q.jobs && q.jobs[id].status in {Queued, Running, RetryWait}| < st.maxPending
    && |set id | id in q.jobs && q.jobs[id].status in {Queued, Running, RetryWait} && q.jobs[id].owner == owner|
         < st.maxPendingPerOwner
  }

  lemma RoomIff(q: Queue, owner: nat, st: Settings)
    ensures HasRoom(q, owner, st) <==> CheckCapacity(q.jobs, owner, st) == None
  {
    assert (set id | id in q.jobs && q.jobs[id].status in {Queued, Running, RetryWait}) == ActiveIds(q.jobs);
    assert (set id | id in q.jobs && q.jobs[id].status in {Queued, Running, RetryWait} && q.jobs[id].owner == owner)
        == OwnedActiveIds(q.jobs, owner);
  }

  predicate HasKey(q: Queue, id: JobId, owner: nat, key: nat)
  {
    id in q.jobs && q.jobs[id].owner == owner && q.jobs[id].key == key
  }

  /** An enqueue answers with the key's job, refuses the key for another payload, or inserts within the limits. */
  lemma AdmitIff(q: Queue, owner: nat, key: nat, payload: Payload, st: Settings)
    requires Inv(q, st)
    ensures forall id ::
              Admit(q, owner, key, payload, st) == Success(Some(id)) <==>
                HasKey(q, id, owner, key) && q.jobs[id].fingerprint == payload
    ensures Admit(q, owner, key, payload, st) == Failure(IdempotencyConflict) <==>
              exists id :: HasKey(q, id, owner, key) && q.jobs[id].fingerprint != payload
    ensures Admit(q, owner, key, payload, st) == Success(None) <==>
              (forall id :: !HasKey(q, id, owner, key)) && HasRoom(q, owner, st)
  {
    RoomIff(q, owner, st);
    assert Keyed(q, (owner, key));
    if (owner, key) in q.index { assert HasKey(q, q.index[(owner, key)], owner, key); }
    forall id | HasKey(q, id, owner, key) ensures (owner, key) in q.index && q.index[(owner, key)] == id {
      assert Indexed(q, id);
    }
  }

  /** The row an admitted enqueue inserts. */
  lemma InsertCommits(q: Queue, id: JobId, st: Settings)
    requires q.hold.Inserting? && id !in q.jobs
    ensures var q', h := Insert(q, id, st), q.hold;
            q' == q.(jobs := q'.jobs, index := q.index[(h.owner, h.key) := id], hold := Free)
            && q'.jobs == q.jobs[id := Job(h.owner, h.key, Some(h.payload), h.payload, Queued, 0, st.maxAttempts, 0,
                 q.clock, q.clock, None, None, None, None, None)]
  {
  }

  /** Review requeues its owner's dead-lettered jobs three times at most, within the limits, with all attempts back. */
  lemma RetryIff(q: Queue, owner: nat, id: JobId, st: Settings)
    requires q.hold == Free
    ensures BeginRetry(q, owner, id, st) == (if
                && id in q.jobs && q.jobs[id].owner == owner && q.jobs[id].status == DeadLetter
                && q.jobs[id].reviewRetries < 3 && HasRoom(q, owner, st)
              then q.(hold := Requeueing(id)) else q)
    ensures id in q.jobs ==>
              Requeue(q.(hold := Requeueing(id))) == q.(jobs := q.jobs[id :=
                q.jobs[id].(status := Queued, attempts := 0, reviewRetries := q.jobs[id].reviewRetries + 1,
                  availableAt := q.clock, completedAt := None, error := None)])
  {
    RoomIff(q, owner, st);
  }

  /** Cancelling takes its owner's job while nobody runs it. */
  lemma CancelCommits(q: Queue, owner: nat, id: JobId)
    requires q.hold != Requeueing(id)
    ensures Cancellable(q, owner, id) == None <==>
              id in q.jobs && q.jobs[id].owner == owner && q.jobs[id].status in {Queued, RetryWait, Cancelled}
    ensures Cancel(q, owner, id) == (if
                id in q.jobs && q.jobs[id].owner == owner && q.jobs[id].status in {Queued, RetryWait}
              then q.(jobs := q.jobs[id :=
                     q.jobs[id].(status := Cancelled, completedAt := Some(q.clock), payload := None)])
              else q)
  {
  }

  // ---------------------------------------------------------------- giving up

  /** The worker of job `id` reports a failure that no retry can help. */
  predicate GivesUp(s: Step, id: JobId)
  {
    s.FinishStep? && s.id == id && s.report.result.None? && !s.report.retryable
  }

  predicate UsedUp(j: Job) { j.status == DeadLetter ==> j.attempts >= j.maxAttempts }

  lemma StepUsesUp(q: Queue, s: Step, st: Settings, id: JobId)
    requires HoldOk(q, st) && id in q.jobs && UsedUp(q.jobs[id]) && !GivesUp(s, id)
    ensures id in Next(q, s, st).jobs && UsedUp(Next(q, s, st).jobs[id])
  {
    match s {
      case TakeStep(retryAt, locked, choice, token) =>
        if q.hold.Taking? && Choice(q, retryAt, locked, choice) && token !in q.issued {
          ClaimCommits(q, retryAt, locked, choice, token, st);
          RecoverCommits(q.jobs, q.hold.at, retryAt, id);
        }
      case BeginClaimStep(retryAt) => RecoverCommits(q.jobs, q.clock, retryAt, id);
      case FinishStep(owner, i, token, report, delay) => FinishCommits(q, owner, i, token, report, delay);
      case CancelStep(owner, i) => if q.hold != Requeueing(i) { CancelCommits(q, owner, i); }
      case _ =>
    }
  }

  /** Without a final failure no run ever dead-letters a job with attempts left. */
  lemma {:induction false} OnlyUsedUpJobsAreGivenUp(q: Queue, steps: seq<Step>, st: Settings, id: JobId)
    requires Inv(q, st) && st.Valid() && id in q.jobs
    requires q.jobs[id].status == DeadLetter ==> q.jobs[id].attempts >= q.jobs[id].maxAttempts
    requires forall i :: 0 <= i < |steps| ==> !GivesUp(steps[i], id)
    ensures id in Run(q, steps, st).jobs
    ensures Run(q, steps, st).jobs[id].status == DeadLetter ==>
              Run(q, steps, st).jobs[id].attempts >= Run(q, steps, st).jobs[id].maxAttempts
    decreases |steps|
  {
    if steps != [] {
      assert forall i :: 0 <= i < |steps[1..]| ==> steps[1..][i] == steps[i + 1];
      StepUsesUp(q, steps[0], st, id);
      NextKeepsInv(q, steps[0], st);
      OnlyUsedUpJobsAreGivenUp(Next(q, steps[0], st), steps[1..], st, id);
    }
  }
}
