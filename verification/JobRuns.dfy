/**
 * What every interleaving of the queue's transactions keeps: the row constraints, the bounds on running
 * and active jobs, fencing, one job per idempotency key, and a measure that every change of a job lowers.
 */
module JobRuns {
  import opened Wrappers
  import opened Jobs
  import Sums

  // ---------------------------------------------------------------- the invariant

  predicate JobOk(j: Job, issued: set<Token>)
  {
    && j.attempts <= j.maxAttempts && 1 <= j.maxAttempts <= 5 && j.reviewRetries <= REVIEW_RETRIES
    && (j.status == Running <==> j.leaseToken.Some?)
    && (j.status == Running <==> j.leaseExpires.Some?)
    && (j.leaseToken.Some? ==> j.leaseToken.value in issued)
    && (j.status == Running ==> 1 <= j.attempts)
    && (j.status == Queued || j.status == RetryWait ==> j.attempts < j.maxAttempts)
    && (j.result.Some? <==> j.status == Succeeded)
    && (j.completedAt.Some? <==> !Active(j.status))
    && (j.payload.None? <==> j.status == Succeeded || j.status == Cancelled)
    && (j.payload.Some? ==> j.payload.value == j.fingerprint)
  }

  ghost predicate JobsOk(q: Queue) { forall id :: id in q.jobs ==> JobOk(q.jobs[id], q.issued) }

  ghost predicate TokensUnique(q: Queue)
  {
    forall i, j ::
      i in q.jobs && j in q.jobs && q.jobs[i].leaseToken.Some? && q.jobs[i].leaseToken == q.jobs[j].leaseToken ==>
        i == j
  }

  /** The index and the jobs agree both ways, so a key has one job. */
  predicate Indexed(q: Queue, id: JobId)
  {
    id in q.jobs ==> var k := (q.jobs[id].owner, q.jobs[id].key); k in q.index && q.index[k] == id
  }

  predicate Keyed(q: Queue, k: (nat, nat))
  {
    k in q.index ==> q.index[k] in q.jobs && (q.jobs[q.index[k]].owner, q.jobs[q.index[k]].key) == k
  }

  ghost predicate IndexOk(q: Queue) { (forall id :: Indexed(q, id)) && (forall k :: Keyed(q, k)) }

  predicate OwnerBounded(q: Queue, owner: nat, st: Settings) {
    |OwnedActiveIds(q.jobs, owner)| <= st.maxPendingPerOwner
  }

  ghost predicate Bounded(q: Queue, st: Settings)
  {
    && |RunningIds(q.jobs)| <= st.concurrency
    && |ActiveIds(q.jobs)| <= st.maxPending
    && forall owner :: OwnerBounded(q, owner, st)
  }

  /** What the holder of the admission lock has checked is still true, whatever slipped in since. */
  predicate HoldOk(q: Queue, st: Settings)
  {
    match q.hold
    case Free => true
    case Inserting(owner, key, _) => (owner, key) !in q.index && CheckCapacity(q.jobs, owner, st) == None
    case Requeueing(id) =>
      && id in q.jobs && q.jobs[id].status == DeadLetter && q.jobs[id].reviewRetries < REVIEW_RETRIES
      && CheckCapacity(q.jobs, q.jobs[id].owner, st) == None
    case Taking(at) => at <= q.clock && |StillRunning(q.jobs, at)| < st.concurrency
  }

  ghost predicate Inv(q: Queue, st: Settings)
  {
    JobsOk(q) && TokensUnique(q) && IndexOk(q) && Bounded(q, st) && HoldOk(q, st)
  }

  lemma EmptyInv(st: Settings)
    requires st.Valid()
    ensures Inv(EMPTY, st)
  {
    assert ActiveIds(EMPTY.jobs) == {} && RunningIds(EMPTY.jobs) == {};
    forall owner ensures OwnerBounded(EMPTY, owner, st) { assert OwnedActiveIds(EMPTY.jobs, owner) == {}; }
  }

  // ---------------------------------------------------------------- sizes

  /** Counting jobs only ever grows by admission: with no new active job, no count grows. */
  ghost predicate NoneActivated(jobs: map<JobId, Job>, jobs': map<JobId, Job>)
  {
    forall id :: id in jobs' && Active(jobs'[id].status) ==>
        id in jobs && Active(jobs[id].status) && jobs[id].owner == jobs'[id].owner
  }

  lemma ActiveShrinks(jobs: map<JobId, Job>, jobs': map<JobId, Job>, st: Settings)
    requires NoneActivated(jobs, jobs')
    ensures |ActiveIds(jobs')| <= |ActiveIds(jobs)|
    ensures forall owner :: |OwnedActiveIds(jobs', owner)| <= |OwnedActiveIds(jobs, owner)|
    ensures forall owner :: CheckCapacity(jobs, owner, st) == None ==> CheckCapacity(jobs', owner, st) == None
  {
    Sums.SubsetSize(ActiveIds(jobs'), ActiveIds(jobs));
    forall owner ensures |OwnedActiveIds(jobs', owner)| <= |OwnedActiveIds(jobs, owner)| {
      Sums.SubsetSize(OwnedActiveIds(jobs', owner), OwnedActiveIds(jobs, owner));
    }
  }

  /** A job became active within capacity. */
  lemma ActivatedWithinBounds(q: Queue, q': Queue, id: JobId, st: Settings)
    requires Bounded(q, st) && id in q'.jobs && CheckCapacity(q.jobs, q'.jobs[id].owner, st) == None
    requires q'.jobs == q.jobs[id := q'.jobs[id]] && q'.jobs[id].status == Queued
    requires id in q.jobs ==> q.jobs[id].owner == q'.jobs[id].owner
    ensures Bounded(q', st)
  {
    var j := q'.jobs[id];
    Sums.SubsetSize(ActiveIds(q'.jobs), ActiveIds(q.jobs) + {id});
    Sums.SubsetSize(RunningIds(q'.jobs), RunningIds(q.jobs));
    forall owner ensures OwnerBounded(q', owner, st) {
      assert OwnerBounded(q, owner, st);
      if owner == j.owner {
        Sums.SubsetSize(OwnedActiveIds(q'.jobs, owner), OwnedActiveIds(q.jobs, owner) + {id});
      } else {
        Sums.SubsetSize(OwnedActiveIds(q'.jobs, owner), OwnedActiveIds(q.jobs, owner));
      }
    }
  }

  // ---------------------------------------------------------------- changes of one job

  /** Only job `id` changed, and it kept what identifies it. */
  ghost predicate OnlyJob(q: Queue, q': Queue, id: JobId)
  {
    && id in q.jobs && id in q'.jobs && q'.jobs == q.jobs[id := q'.jobs[id]] && SameIdentity(q.jobs[id], q'.jobs[id])
    && q'.index == q.index
  }

  predicate SameIdentity(j: Job, j': Job)
  {
    j'.owner == j.owner && j'.key == j.key && j'.fingerprint == j.fingerprint && j'.maxAttempts == j.maxAttempts
        && j'.createdAt == j.createdAt
  }

  lemma IndexStays(q: Queue, q': Queue)
    requires IndexOk(q) && q'.index == q.index && q'.jobs.Keys == q.jobs.Keys
    requires forall id :: id in q.jobs ==> SameIdentity(q.jobs[id], q'.jobs[id])
    ensures IndexOk(q')
  {
    forall id ensures Indexed(q', id) { assert Indexed(q, id); }
    forall k ensures Keyed(q', k) { assert Keyed(q, k); }
  }

  lemma ReleaseKeepsHold(q: Queue, q': Queue, id: JobId, st: Settings)
    requires HoldOk(q, st) && OnlyJob(q, q', id) && q'.clock == q.clock && q'.hold == q.hold
    requires q'.jobs[id].status != Running && Active(q.jobs[id].status)
    ensures HoldOk(q', st)
  {
    ActiveShrinks(q.jobs, q'.jobs, st);
    match q.hold {
      case Taking(at) => Sums.SubsetSize(StillRunning(q'.jobs, at), StillRunning(q.jobs, at));
      case _ =>
    }
  }

  lemma ReleaseKeepsBounds(q: Queue, q': Queue, id: JobId, st: Settings)
    requires Bounded(q, st) && OnlyJob(q, q', id) && q'.jobs[id].status != Running && Active(q.jobs[id].status)
    ensures Bounded(q', st)
  {
    ActiveShrinks(q.jobs, q'.jobs, st);
    Sums.SubsetSize(RunningIds(q'.jobs), RunningIds(q.jobs));
    forall owner ensures OwnerBounded(q', owner, st) { assert OwnerBounded(q, owner, st); }
  }

  lemma ReleaseKeepsRows(q: Queue, q': Queue, id: JobId)
    requires JobsOk(q) && TokensUnique(q) && OnlyJob(q, q', id) && q'.issued == q.issued
    requires JobOk(q'.jobs[id], q.issued) && q'.jobs[id].status != Running
    ensures JobsOk(q') && TokensUnique(q')
  {
  }

  /** Finish and cancel: the job leaves RUNNING or the active set, whoever holds the admission lock. */
  lemma ReleaseKeepsInv(q: Queue, q': Queue, id: JobId, st: Settings)
    requires Inv(q, st) && OnlyJob(q, q', id) && q'.clock == q.clock && q'.issued == q.issued && q'.hold == q.hold
    requires JobOk(q'.jobs[id], q.issued) && q'.jobs[id].status != Running && Active(q.jobs[id].status)
    ensures Inv(q', st)
  {
    ReleaseKeepsRows(q, q', id);
    IndexStays(q, q');
    ReleaseKeepsBounds(q, q', id, st);
    ReleaseKeepsHold(q, q', id, st);
  }

  lemma FinishKeepsInv(q: Queue, owner: nat, id: JobId, token: Token, report: Report, delay: real, st: Settings)
    requires Inv(q, st)
    ensures Inv(Finish(q, owner, id, token, report, delay), st)
  {
    if Holds(q, owner, id, token) {
      assert JobOk(q.jobs[id], q.issued);
      ReleaseKeepsInv(q, Finish(q, owner, id, token, report, delay), id, st);
    }
  }

  lemma CancelKeepsInv(q: Queue, owner: nat, id: JobId, st: Settings)
    requires Inv(q, st)
    ensures Inv(Cancel(q, owner, id), st)
  {
    if Cancel(q, owner, id) != q {
      assert JobOk(q.jobs[id], q.issued);
      ReleaseKeepsInv(q, Cancel(q, owner, id), id, st);
    }
  }

  lemma InsertKeepsInv(q: Queue, id: JobId, st: Settings)
    requires Inv(q, st) && st.Valid()
    ensures Inv(Insert(q, id, st), st)
  {
    if q.hold.Inserting? && id !in q.jobs {
      var q' := Insert(q, id, st);
      ActivatedWithinBounds(q, q', id, st);
      forall i ensures Indexed(q', i) { assert Indexed(q, i); }
      forall k ensures Keyed(q', k) { assert Keyed(q, k); }
    }
  }

  lemma RequeueKeepsInv(q: Queue, st: Settings)
    requires Inv(q, st)
    ensures Inv(Requeue(q), st)
  {
    if q.hold.Requeueing? {
      var id, q' := q.hold.id, Requeue(q);
      assert JobOk(q.jobs[id], q.issued);
      RequeuedRow(q.jobs[id], q.clock, q.issued);
      forall i | i in q'.jobs ensures JobOk(q'.jobs[i], q'.issued) { assert JobOk(q.jobs[i], q.issued); }
      ActivatedWithinBounds(q, q', id, st);
      IndexStays(q, q');
    }
  }

  lemma RequeuedRow(j: Job, now: Time, issued: set<Token>)
    requires JobOk(j, issued) && j.status == DeadLetter && j.reviewRetries < REVIEW_RETRIES
    ensures JobOk(Requeued(j, now), issued) && SameIdentity(j, Requeued(j, now))
  {
  }

  // ---------------------------------------------------------------- claims

  lemma RecoveredRow(j: Job, at: Time, retryAt: Time, issued: set<Token>)
    requires JobOk(j, issued)
    ensures var j' := Recovered(j, at, retryAt);
            && JobOk(j', issued) && SameIdentity(j, j') && (Active(j'.status) ==> Active(j.status))
            && (j'.status == Running <==> j.status == Running && !Expired(j, at))
            && (j'.leaseToken.Some? ==> j'.leaseToken == j.leaseToken)
            && (Ready(j, at) ==> j' == j)
  {
  }

  /** Every row of `jobs'` is the row of `jobs` after a recovery. */
  ghost predicate RowsRecovered(jobs: map<JobId, Job>, jobs': map<JobId, Job>, at: Time, retryAt: JobId -> Time)
  {
    jobs'.Keys == jobs.Keys && forall id :: id in jobs ==> jobs'[id] == Recovered(jobs[id], at, retryAt(id))
  }

  lemma RecoverKeeps(q: Queue, at: Time, retryAt: JobId -> Time, st: Settings)
    requires Inv(q, st)
    ensures var q' := q.(jobs := Recover(q.jobs, at, retryAt), hold := Free);
            && Inv(q', st) && RunningIds(q'.jobs) == StillRunning(q.jobs, at)
  {
    var q' := q.(jobs := Recover(q.jobs, at, retryAt), hold := Free);
    assert RowsRecovered(q.jobs, q'.jobs, at, retryAt);
    RecoveredKeepsInv(q, q', at, retryAt, st);
  }

  lemma RecoveredKeepsInv(q: Queue, q': Queue, at: Time, retryAt: JobId -> Time, st: Settings)
    requires Inv(q, st) && RowsRecovered(q.jobs, q'.jobs, at, retryAt) && q' == q.(jobs := q'.jobs, hold := Free)
    ensures Inv(q', st) && RunningIds(q'.jobs) == StillRunning(q.jobs, at)
  {
    forall id | id in q.jobs
      ensures JobOk(q'.jobs[id], q.issued) && SameIdentity(q.jobs[id], q'.jobs[id])
      ensures Active(q'.jobs[id].status) ==> Active(q.jobs[id].status)
      ensures q'.jobs[id].status == Running <==> q.jobs[id].status == Running && !Expired(q.jobs[id], at)
      ensures q'.jobs[id].leaseToken.Some? ==> q'.jobs[id].leaseToken == q.jobs[id].leaseToken
    {
      assert JobOk(q.jobs[id], q.issued);
      RecoveredRow(q.jobs[id], at, retryAt(id), q.issued);
    }
    IndexStays(q, q');
    ActiveShrinks(q.jobs, q'.jobs, st);
    Sums.SubsetSize(RunningIds(q'.jobs), RunningIds(q.jobs));
    forall owner ensures OwnerBounded(q', owner, st) { assert OwnerBounded(q, owner, st); }
    assert TokensUnique(q');
  }

  lemma TakeKeepsInv(q: Queue, retryAt: JobId -> Time, locked: set<JobId>, choice: Option<JobId>, token: Token,
          st: Settings)
    requires Inv(q, st)
    ensures Inv(Take(q, retryAt, locked, choice, token, st), st)
  {
    if q.hold.Taking? && Choice(q, retryAt, locked, choice) && token !in q.issued {
      var recovered := q.(jobs := Recover(q.jobs, q.hold.at, retryAt), hold := Free);
      RecoverKeeps(q, q.hold.at, retryAt, st);
      if choice.Some? {
        LeaseKeepsInv(recovered, choice.value, q.hold.at, token, st);
      }
    }
  }

  lemma LeaseKeepsInv(q: Queue, id: JobId, at: Time, token: Token, st: Settings)
    requires Inv(q, st) && q.hold == Free && |RunningIds(q.jobs)| < st.concurrency
    requires id in q.jobs && Ready(q.jobs[id], at) && token !in q.issued
    ensures Inv(q.(jobs := q.jobs[id := Leased(q.jobs[id], at, token, st)], issued := q.issued + {token}), st)
  {
    var q' := q.(jobs := q.jobs[id := Leased(q.jobs[id], at, token, st)], issued := q.issued + {token});
    forall i | i in q'.jobs ensures JobOk(q'.jobs[i], q'.issued) { assert JobOk(q.jobs[i], q.issued); }
    FreshTokenIsUnique(q, q', id, token);
    IndexStays(q, q');
    LeaseKeepsBounds(q, q', id, st);
  }

  lemma FreshTokenIsUnique(q: Queue, q': Queue, id: JobId, token: Token)
    requires JobsOk(q) && TokensUnique(q) && OnlyJob(q, q', id) && token !in q.issued
    requires q'.jobs[id].leaseToken == Some(token)
    ensures TokensUnique(q')
  {
    forall i, j | i in q'.jobs && j in q'.jobs && q'.jobs[i].leaseToken.Some?
        && q'.jobs[i].leaseToken == q'.jobs[j].leaseToken
      ensures i == j
    {
      assert JobOk(q.jobs[i], q.issued) && JobOk(q.jobs[j], q.issued);
    }
  }

  lemma LeaseKeepsBounds(q: Queue, q': Queue, id: JobId, st: Settings)
    requires Bounded(q, st) && OnlyJob(q, q', id) && Active(q.jobs[id].status) && |RunningIds(q.jobs)| < st.concurrency
    ensures Bounded(q', st)
  {
    ActiveShrinks(q.jobs, q'.jobs, st);
    Sums.SubsetSize(RunningIds(q'.jobs), RunningIds(q.jobs) + {id});
    forall owner ensures OwnerBounded(q', owner, st) { assert OwnerBounded(q, owner, st); }
  }

  lemma BeginClaimKeepsInv(q: Queue, retryAt: JobId -> Time, st: Settings)
    requires Inv(q, st)
    ensures Inv(BeginClaim(q, retryAt, st), st)
  {
    if q.hold == Free {
      RecoverKeeps(q, q.clock, retryAt, st);
      if |StillRunning(q.jobs, q.clock)| < st.concurrency { HoldKeepsInv(q, BeginClaim(q, retryAt, st), st); }
    }
  }

  // ---------------------------------------------------------------- runs

  lemma NextKeepsInv(q: Queue, s: Step, st: Settings)
    requires Inv(q, st) && st.Valid()
    ensures Inv(Next(q, s, st), st)
  {
    if Admits(s) { AdmissionStepKeepsInv(q, s, st); return; }
    match s {
      case Tick(elapsed) => if 0.0 <= elapsed { TickKeepsInv(q, elapsed, st); }
      case BeginClaimStep(retryAt) => BeginClaimKeepsInv(q, retryAt, st);
      case TakeStep(retryAt, locked, choice, token) => TakeKeepsInv(q, retryAt, locked, choice, token, st);
      case AbortStep => HoldKeepsInv(q, q.(hold := Free), st);
      case FinishStep(owner, id, token, report, delay) => FinishKeepsInv(q, owner, id, token, report, delay, st);
      case CancelStep(owner, id) => CancelKeepsInv(q, owner, id, st);
    }
  }

  /** The transactions that admit a job, one way or the other. */
  predicate Admits(s: Step) { s.BeginEnqueueStep? || s.InsertStep? || s.BeginRetryStep? || s.RequeueStep? }

  lemma AdmissionStepKeepsInv(q: Queue, s: Step, st: Settings)
    requires Inv(q, st) && st.Valid() && Admits(s)
    ensures Inv(Next(q, s, st), st)
  {
    match s {
      case BeginEnqueueStep(owner, key, payload) => AdmissionKeepsInv(q, owner, key, payload, st);
      case InsertStep(id) => InsertKeepsInv(q, id, st);
      case BeginRetryStep(owner, id) => BeginRetryKeepsInv(q, owner, id, st);
      case RequeueStep => RequeueKeepsInv(q, st);
    }
  }

  lemma BeginRetryKeepsInv(q: Queue, owner: nat, id: JobId, st: Settings)
    requires Inv(q, st)
    ensures Inv(BeginRetry(q, owner, id, st), st)
  {
    HoldKeepsInv(q, BeginRetry(q, owner, id, st), st);
  }

  lemma AdmissionKeepsInv(q: Queue, owner: nat, key: nat, payload: Payload, st: Settings)
    requires Inv(q, st)
    ensures Inv(BeginEnqueue(q, owner, key, payload, st), st)
  {
    assert Keyed(q, (owner, key));
    HoldKeepsInv(q, BeginEnqueue(q, owner, key, payload, st), st);
  }

  lemma TickKeepsInv(q: Queue, elapsed: real, st: Settings)
    requires Inv(q, st) && 0.0 <= elapsed
    ensures Inv(q.(clock := q.clock + elapsed), st)
  {
    var q' := q.(clock := q.clock + elapsed);
    IndexStays(q, q');
    forall owner ensures OwnerBounded(q', owner, st) { assert OwnerBounded(q, owner, st); }
  }

  /** Both transactions of a review retry, one after the other. */
  lemma RetryKeepsInv(q: Queue, owner: nat, id: JobId, st: Settings)
    requires Inv(q, st) && q.hold == Free && Retryable(q, owner, id, st).None?
    ensures var q' := q.(jobs := q.jobs[id := Requeued(q.jobs[id], q.clock)]);
            Inv(q', st) && q' == Requeue(BeginRetry(q, owner, id, st))
  {
    var held := BeginRetry(q, owner, id, st);
    HoldKeepsInv(q, held, st);
    RequeueKeepsInv(held, st);
    assert Requeue(held) == q.(jobs := q.jobs[id := Requeued(q.jobs[id], q.clock)]);
  }

  lemma HoldKeepsInv(q: Queue, q': Queue, st: Settings)
    requires Inv(q, st) && q' == q.(hold := q'.hold) && HoldOk(q', st)
    ensures Inv(q', st)
  {
    IndexStays(q, q');
    forall owner ensures OwnerBounded(q', owner, st) { assert OwnerBounded(q, owner, st); }
  }

  lemma {:induction false} RunKeepsInv(q: Queue, steps: seq<Step>, st: Settings)
    requires Inv(q, st) && st.Valid()
    ensures Inv(Run(q, steps, st), st)
    decreases |steps|
  {
    if steps != [] {
      NextKeepsInv(q, steps[0], st);
      RunKeepsInv(Next(q, steps[0], st), steps[1..], st);
    }
  }
}
