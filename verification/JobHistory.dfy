/** Theorems about whole histories of the queue: fencing, finality, idempotency, and how often a job can run. */
module JobHistory {
  import opened Wrappers
  import opened Jobs
  import opened JobRuns

  // ---------------------------------------------------------------- fencing

  /** The token was issued and no lease with it can be finished any more: it was released, or it has expired. */
  ghost predicate Spent(q: Queue, token: Token)
  {
    token in q.issued && forall id :: id in q.jobs ==> !LiveOn(q.jobs[id], token, q.clock)
  }

  predicate LiveOn(j: Job, token: Token, now: Time)
  {
    j.leaseToken == Some(token) && j.leaseExpires.Some? && j.leaseExpires.value > now
  }

  lemma RecoverNeverRevives(q: Queue, at: Time, retryAt: JobId -> Time, token: Token)
    requires Spent(q, token)
    ensures Spent(q.(jobs := Recover(q.jobs, at, retryAt), hold := Free), token)
  {
    var jobs := Recover(q.jobs, at, retryAt);
    forall id | id in jobs ensures !LiveOn(jobs[id], token, q.clock) { assert !LiveOn(q.jobs[id], token, q.clock); }
  }

  lemma SpentStays(q: Queue, s: Step, st: Settings, token: Token)
    requires Spent(q, token)
    ensures Spent(Next(q, s, st), token)
  {
    var q' := Next(q, s, st);
    match s {
      case BeginClaimStep(retryAt) => RecoverNeverRevives(q, q.clock, retryAt, token);
      case TakeStep(retryAt, _, _, _) => if q.hold.Taking? { RecoverNeverRevives(q, q.hold.at, retryAt, token); }
      case _ =>
        forall id | id in q'.jobs ensures !LiveOn(q'.jobs[id], token, q'.clock) {
          if id in q.jobs { assert !LiveOn(q.jobs[id], token, q.clock); }
        }
    }
  }

  lemma {:induction false} SpentForever(q: Queue, steps: seq<Step>, st: Settings, token: Token)
    requires Spent(q, token)
    ensures Spent(Run(q, steps, st), token)
    decreases |steps|
  {
    if steps != [] {
      SpentStays(q, steps[0], st, token);
      SpentForever(Next(q, steps[0], st), steps[1..], st, token);
    }
  }

  /**
   * Fencing: once a lease has been finished, recovered or has expired, a finish with its token changes
   * nothing in any later state, whatever job and report it names.
   */
  lemma StaleFinishChangesNothing(q: Queue, steps: seq<Step>, st: Settings, token: Token, owner: nat, id: JobId,
          report: Report, delay: real)
    requires Spent(q, token)
    ensures var q' := Run(q, steps, st); Finish(q', owner, id, token, report, delay) == q'
  {
    SpentForever(q, steps, st, token);
    var q' := Run(q, steps, st);
    if id in q'.jobs { assert !LiveOn(q'.jobs[id], token, q'.clock); }
  }

  /** Each way a lease ends spends its token: a successful finish, a recovery, or the clock. */
  lemma LeaseEndSpendsToken(q: Queue, owner: nat, id: JobId, token: Token, report: Report, delay: real, st: Settings)
    requires Inv(q, st) && id in q.jobs && q.jobs[id].leaseToken == Some(token)
    ensures Holds(q, owner, id, token) ==> Spent(Finish(q, owner, id, token, report, delay), token)
    ensures q.jobs[id].leaseExpires.Some? && q.jobs[id].leaseExpires.value <= q.clock ==> Spent(q, token)
  {
    assert JobOk(q.jobs[id], q.issued);
    var q' := Finish(q, owner, id, token, report, delay);
    forall i | i in q.jobs && i != id ensures q.jobs[i].leaseToken != Some(token) {
      assert JobOk(q.jobs[i], q.issued);
    }
  }

  /** The step finishes a lease with the token, and the lease holds. */
  predicate Completes(q: Queue, s: Step, token: Token) {
    s.FinishStep? && s.token == token && Holds(q, s.owner, s.id, token)
  }

  /** How many finishes with the token go through. */
  function Completions(q: Queue, steps: seq<Step>, st: Settings, token: Token): nat
    decreases |steps|
  {
    if steps == [] then 0
    else (if Completes(q, steps[0], token) then 1 else 0) + Completions(Next(q, steps[0], st), steps[1..], st, token)
  }

  lemma {:induction false} SpentNeverCompletes(q: Queue, steps: seq<Step>, st: Settings, token: Token)
    requires Spent(q, token)
    ensures Completions(q, steps, st, token) == 0
    decreases |steps|
  {
    if steps != [] {
      if Completes(q, steps[0], token) { assert LiveOn(q.jobs[steps[0].id], token, q.clock); }
      SpentStays(q, steps[0], st, token);
      SpentNeverCompletes(Next(q, steps[0], st), steps[1..], st, token);
    }
  }

  /** Over any run at most one finish with a given token goes through, whatever jobs, owners and reports they name. */
  lemma {:induction false} TokenCompletesOnce(q: Queue, steps: seq<Step>, st: Settings, token: Token)
    requires Inv(q, st) && st.Valid()
    ensures Completions(q, steps, st, token) <= 1
    decreases |steps|
  {
    if steps != [] {
      var s, q' := steps[0], Next(q, steps[0], st);
      if Completes(q, s, token) {
        LeaseEndSpendsToken(q, s.owner, s.id, token, s.report, s.delay, st);
        SpentNeverCompletes(q', steps[1..], st, token);
      } else {
        NextKeepsInv(q, s, st);
        TokenCompletesOnce(q', steps[1..], st, token);
      }
    }
  }

  /** A fresh lease is live on exactly one job, and its owner can finish it until it expires. */
  lemma LeaseIsExclusive(q: Queue, retryAt: JobId -> Time, locked: set<JobId>, id: JobId, token: Token, st: Settings)
    requires Inv(q, st) && st.Valid() && q.hold.Taking? && token !in q.issued && Choice(q, retryAt, locked, Some(id))
    ensures var q' := Take(q, retryAt, locked, Some(id), token, st);
            && id in q'.jobs && id !in locked
            && q'.jobs[id].leaseToken == Some(token)
            && (forall i :: i in q'.jobs && i != id ==> q'.jobs[i].leaseToken != Some(token))
            && (Holds(q', q'.jobs[id].owner, id, token) <==> q.clock < q.hold.at + st.leaseSeconds as real)
  {
    TakeKeepsInv(q, retryAt, locked, Some(id), token, st);
  }

  // ---------------------------------------------------------------- the measure of a job

  function Rank(s: Status): nat { match s case Running => 2 case Queued => 1 case RetryWait => 1 case _ => 0 }

  /** The triple (review retries left, attempts left, status rank) is lexicographically lower. */
  predicate Lower(j: Job, j': Job)
  {
    || j'.reviewRetries > j.reviewRetries
    || (j'.reviewRetries == j.reviewRetries
        && (j'.attempts > j.attempts || (j'.attempts == j.attempts && Rank(j'.status) < Rank(j.status))))
  }

  predicate Moves(j: Job, j': Job) { SameIdentity(j, j') && (j' == j || Lower(j, j')) }

  lemma RecoveredMoves(j: Job, at: Time, retryAt: Time)
    ensures Moves(j, Recovered(j, at, retryAt))
    ensures Recovered(j, at, retryAt).attempts == j.attempts
    ensures Recovered(j, at, retryAt).reviewRetries == j.reviewRetries
  {
  }

  lemma LeasedMoves(j: Job, at: Time, retryAt: Time, token: Token, st: Settings)
    ensures Moves(j, Leased(Recovered(j, at, retryAt), at, token, st))
  {
  }

  lemma RowMoves(j: Job, report: Report, now: Time, delay: real)
    ensures j.status == Running ==> Moves(j, Finished(j, report, now, delay))
    ensures Moves(j, Requeued(j, now))
    ensures j.status == Queued || j.status == RetryWait ==>
              Moves(j, j.(status := Cancelled, completedAt := Some(now), payload := None))
  {
  }

  lemma TakeMoves(q: Queue, retryAt: JobId -> Time, locked: set<JobId>, choice: Option<JobId>, token: Token,
          st: Settings, id: JobId)
    requires id in q.jobs
    ensures id in Take(q, retryAt, locked, choice, token, st).jobs
    ensures Moves(q.jobs[id], Take(q, retryAt, locked, choice, token, st).jobs[id])
    ensures var j, j' := q.jobs[id], Take(q, retryAt, locked, choice, token, st).jobs[id];
            j'.reviewRetries == j.reviewRetries && (j'.attempts == j.attempts || j'.attempts == j.attempts + 1)
  {
    if q.hold.Taking? && Choice(q, retryAt, locked, choice) && token !in q.issued {
      var at := q.hold.at;
      RecoveredMoves(q.jobs[id], at, retryAt(id));
      LeasedMoves(q.jobs[id], at, retryAt(id), token, st);
      var j' := Take(q, retryAt, locked, choice, token, st).jobs[id];
      assert j' ==
        if choice == Some(id) then Leased(Recovered(q.jobs[id], at, retryAt(id)), at, token, st)
        else Recovered(q.jobs[id], at, retryAt(id));
    }
  }

  /** Every transaction leaves a job alone or lowers its measure, and no job is ever removed. */
  lemma EveryChangeLowers(q: Queue, s: Step, st: Settings, id: JobId)
    requires id in q.jobs
    ensures id in Next(q, s, st).jobs && Moves(q.jobs[id], Next(q, s, st).jobs[id])
  {
    match s {
      case BeginClaimStep(retryAt) => RecoveredMoves(q.jobs[id], q.clock, retryAt(id));
      case TakeStep(retryAt, locked, choice, token) => TakeMoves(q, retryAt, locked, choice, token, st, id);
      case FinishStep(_, _, _, report, delay) => RowMoves(q.jobs[id], report, q.clock, delay);
      case CancelStep(_, _) => RowMoves(q.jobs[id], Report(None, None, false), q.clock, 0.0);
      case RequeueStep => RowMoves(q.jobs[id], Report(None, None, false), q.clock, 0.0);
      case _ =>
    }
  }

  function Weight(j: Job): int {
    ((REVIEW_RETRIES - j.reviewRetries) * 6 + (j.maxAttempts - j.attempts)) * 3 + Rank(j.status)
  }

  lemma LowerWeighsLess(j: Job, j': Job, issued: set<Token>)
    requires JobOk(j, issued) && JobOk(j', issued) && SameIdentity(j, j') && Lower(j, j')
    ensures 0 <= Weight(j') < Weight(j) <= 71
  {
  }

  /** How many of the transactions change job `id`. */
  function Changes(q: Queue, steps: seq<Step>, st: Settings, id: JobId): nat
    decreases |steps|
  {
    if steps == [] then 0
    else
      var q' := Next(q, steps[0], st);
      (if id in q.jobs && id in q'.jobs && q'.jobs[id] != q.jobs[id] then 1 else 0) + Changes(q', steps[1..], st, id)
  }

  /** So however long the queue runs, one job changes at most 71 times. */
  lemma {:induction false} ChangesAreBounded(q: Queue, steps: seq<Step>, st: Settings, id: JobId)
    requires Inv(q, st) && st.Valid() && id in q.jobs
    ensures id in Run(q, steps, st).jobs
    ensures Changes(q, steps, st, id) <= Weight(q.jobs[id]) - Weight(Run(q, steps, st).jobs[id])
    ensures Changes(q, steps, st, id) <= 71
    decreases |steps|
  {
    assert JobOk(q.jobs[id], q.issued);
    if steps != [] {
      var q' := Next(q, steps[0], st);
      NextKeepsInv(q, steps[0], st);
      EveryChangeLowers(q, steps[0], st, id);
      assert JobOk(q'.jobs[id], q'.issued);
      ChangesAreBounded(q', steps[1..], st, id);
      if q'.jobs[id] != q.jobs[id] { LowerWeighsLess(q.jobs[id], q'.jobs[id], q.issued + q'.issued); }
    }
    RunKeepsInv(q, steps, st);
    assert JobOk(Run(q, steps, st).jobs[id], Run(q, steps, st).issued);
  }

  // ---------------------------------------------------------------- claims of a job

  predicate Grants(q: Queue, s: Step, st: Settings, id: JobId)
  {
    s.TakeStep? && s.token !in q.issued && id in Next(q, s, st).jobs
        && Next(q, s, st).jobs[id].leaseToken == Some(s.token)
  }

  function Claims(q: Queue, steps: seq<Step>, st: Settings, id: JobId): nat
    decreases |steps|
  {
    if steps == [] then 0
    else (if Grants(q, steps[0], st, id) then 1 else 0) + Claims(Next(q, steps[0], st), steps[1..], st, id)
  }

  /** What a job has used of its attempts, over all its review retries. */
  function UsedBy(j: Job): int { j.maxAttempts * j.reviewRetries + j.attempts }

  function Used(q: Queue, id: JobId): int { if id in q.jobs then UsedBy(q.jobs[id]) else 0 }

  /** A change of a job that is not a lease uses nothing; a review retry gives back no attempt already used. */
  predicate Uses(j: Job, j': Job, leases: nat)
  {
    && j'.maxAttempts == j.maxAttempts
    && if j'.reviewRetries == j.reviewRetries then j'.attempts == j.attempts + leases
       else j'.reviewRetries == j.reviewRetries + 1 && j.attempts <= j.maxAttempts && leases == 0
  }

  lemma UsesMore(j: Job, j': Job, leases: nat)
    requires Uses(j, j', leases)
    ensures UsedBy(j') >= UsedBy(j) + leases
  {
    assert j.maxAttempts * (j.reviewRetries + 1) == j.maxAttempts * j.reviewRetries + j.maxAttempts;
  }

  lemma TakeUses(q: Queue, retryAt: JobId -> Time, locked: set<JobId>, choice: Option<JobId>, token: Token,
          st: Settings, id: JobId)
    requires Inv(q, st) && id in q.jobs
    ensures var s := TakeStep(retryAt, locked, choice, token);
            Uses(q.jobs[id], Next(q, s, st).jobs[id], if Grants(q, s, st, id) then 1 else 0)
  {
    var s, j, j' := TakeStep(retryAt, locked, choice, token), q.jobs[id],
        Take(q, retryAt, locked, choice, token, st).jobs[id];
    assert JobOk(j, q.issued);
    TakeMoves(q, retryAt, locked, choice, token, st, id);
    if Grants(q, s, st, id) {
      GrantedRow(q, retryAt, locked, choice, token, st, id);
    } else if q.hold.Taking? && Choice(q, retryAt, locked, choice) && token !in q.issued {
      RecoveredMoves(j, q.hold.at, retryAt(id));
      assert choice != Some(id);
    } else {
      assert j' == j;
    }
  }

  lemma OtherStepUses(q: Queue, s: Step, st: Settings, id: JobId)
    requires Inv(q, st) && id in q.jobs && !s.TakeStep?
    ensures id in Next(q, s, st).jobs && Uses(q.jobs[id], Next(q, s, st).jobs[id], 0)
  {
    assert JobOk(q.jobs[id], q.issued);
    match s {
      case BeginClaimStep(retryAt) => RecoveredMoves(q.jobs[id], q.clock, retryAt(id));
      case FinishStep(owner, i, token, report, delay) => FinishUsesNothing(q, owner, i, token, report, delay, id);
      case CancelStep(owner, i) => CancelUsesNothing(q, owner, i, id);
      case RequeueStep => RequeueUsesNothing(q, id);
      case _ =>
    }
  }

  lemma FinishUsesNothing(q: Queue, owner: nat, i: JobId, token: Token, report: Report, delay: real, id: JobId)
    requires id in q.jobs
    ensures var q' := Finish(q, owner, i, token, report, delay); id in q'.jobs && Uses(q.jobs[id], q'.jobs[id], 0)
  {
  }

  lemma CancelUsesNothing(q: Queue, owner: nat, i: JobId, id: JobId)
    requires id in q.jobs
    ensures id in Cancel(q, owner, i).jobs && Uses(q.jobs[id], Cancel(q, owner, i).jobs[id], 0)
  {
  }

  lemma RequeueUsesNothing(q: Queue, id: JobId)
    requires id in q.jobs && q.jobs[id].attempts <= q.jobs[id].maxAttempts
    ensures id in Requeue(q).jobs && Uses(q.jobs[id], Requeue(q).jobs[id], 0)
  {
  }

  lemma GrantsUse(q: Queue, s: Step, st: Settings, id: JobId)
    requires Inv(q, st)
    ensures Used(Next(q, s, st), id) >= Used(q, id) + if Grants(q, s, st, id) then 1 else 0
  {
    if id in q.jobs {
      EveryChangeLowers(q, s, st, id);
      if s.TakeStep? {
        TakeUses(q, s.retryAt, s.locked, s.choice, s.token, st, id);
      } else {
        OtherStepUses(q, s, st, id);
      }
      UsesMore(q.jobs[id], Next(q, s, st).jobs[id], if Grants(q, s, st, id) then 1 else 0);
    } else {
      assert !s.TakeStep? || id !in Next(q, s, st).jobs;
    }
  }

  lemma GrantedRow(q: Queue, retryAt: JobId -> Time, locked: set<JobId>, choice: Option<JobId>, token: Token,
          st: Settings, id: JobId)
    requires Inv(q, st) && id in q.jobs && Grants(q, TakeStep(retryAt, locked, choice, token), st, id)
    ensures Take(q, retryAt, locked, choice, token, st).jobs[id].attempts == q.jobs[id].attempts + 1
  {
    assert JobOk(q.jobs[id], q.issued);
    if q.hold.Taking? { RecoveredMoves(q.jobs[id], q.hold.at, retryAt(id)); }
  }

  lemma {:induction false} ClaimsUse(q: Queue, steps: seq<Step>, st: Settings, id: JobId)
    requires Inv(q, st) && st.Valid()
    ensures Used(q, id) + Claims(q, steps, st, id) <= Used(Run(q, steps, st), id)
    decreases |steps|
  {
    if steps != [] {
      GrantsUse(q, steps[0], st, id);
      NextKeepsInv(q, steps[0], st);
      ClaimsUse(Next(q, steps[0], st), steps[1..], st, id);
    }
  }

  /** A job is leased at most max_attempts times, once more for every review retry, and at most 20 times ever. */
  lemma ClaimsAreBounded(steps: seq<Step>, st: Settings, id: JobId)
    requires st.Valid()
    ensures var q := Run(EMPTY, steps, st);
            && (id in q.jobs ==>
                  Claims(EMPTY, steps, st, id) <= q.jobs[id].maxAttempts * (1 + q.jobs[id].reviewRetries) <= 20)
            && (id !in q.jobs ==> Claims(EMPTY, steps, st, id) == 0)
  {
    EmptyInv(st);
    RunKeepsInv(EMPTY, steps, st);
    ClaimsUse(EMPTY, steps, st, id);
    var q := Run(EMPTY, steps, st);
    if id in q.jobs {
      assert JobOk(q.jobs[id], q.issued);
      UsedIsBounded(q.jobs[id], q.issued);
    }
  }

  lemma UsedIsBounded(j: Job, issued: set<Token>)
    requires JobOk(j, issued)
    ensures UsedBy(j) <= j.maxAttempts * (1 + j.reviewRetries) <= 20
  {
    assert j.maxAttempts * (1 + j.reviewRetries) == j.maxAttempts * j.reviewRetries + j.maxAttempts;
    assert j.maxAttempts * (1 + j.reviewRetries) <= 5 * (1 + j.reviewRetries) <= 20;
  }

  // ---------------------------------------------------------------- bounds, finality and idempotency over all runs

  lemma QueueStaysBounded(steps: seq<Step>, st: Settings, owner: nat)
    requires st.Valid()
    ensures var q := Run(EMPTY, steps, st);
            && |RunningIds(q.jobs)| <= st.concurrency
            && |ActiveIds(q.jobs)| <= st.maxPending
            && |OwnedActiveIds(q.jobs, owner)| <= st.maxPendingPerOwner
  {
    EmptyInv(st);
    RunKeepsInv(EMPTY, steps, st);
    assert OwnerBounded(Run(EMPTY, steps, st), owner, st);
  }

  predicate Final(j: Job) { j.status == Succeeded || j.status == Cancelled }

  lemma FinalStays(q: Queue, s: Step, st: Settings, id: JobId)
    requires HoldOk(q, st) && id in q.jobs && Final(q.jobs[id])
    ensures id in Next(q, s, st).jobs && Next(q, s, st).jobs[id] == q.jobs[id]
  {
    match s {
      case TakeStep(retryAt, locked, choice, token) => TakeSkipsFinal(q, retryAt, locked, choice, token, st, id);
      case BeginClaimStep(retryAt) => assert Recovered(q.jobs[id], q.clock, retryAt(id)) == q.jobs[id];
      case FinishStep(owner, i, token, report, delay) =>
          assert Finish(q, owner, i, token, report, delay).jobs[id] == q.jobs[id];
      case CancelStep(owner, i) => assert Cancel(q, owner, i).jobs[id] == q.jobs[id];
      case RequeueStep => assert Requeue(q).jobs[id] == q.jobs[id];
      case _ =>
    }
  }

  lemma TakeSkipsFinal(q: Queue, retryAt: JobId -> Time, locked: set<JobId>, choice: Option<JobId>, token: Token,
          st: Settings, id: JobId)
    requires id in q.jobs && Final(q.jobs[id])
    ensures id in Take(q, retryAt, locked, choice, token, st).jobs
    ensures Take(q, retryAt, locked, choice, token, st).jobs[id] == q.jobs[id]
  {
    if q.hold.Taking? { assert Recovered(q.jobs[id], q.hold.at, retryAt(id)) == q.jobs[id]; }
  }

  /** A succeeded or cancelled job never changes again. */
  lemma {:induction false} FinalForever(q: Queue, steps: seq<Step>, st: Settings, id: JobId)
    requires Inv(q, st) && st.Valid() && id in q.jobs && Final(q.jobs[id])
    ensures id in Run(q, steps, st).jobs && Run(q, steps, st).jobs[id] == q.jobs[id]
    decreases |steps|
  {
    if steps != [] {
      NextKeepsInv(q, steps[0], st);
      FinalStays(q, steps[0], st, id);
      FinalForever(Next(q, steps[0], st), steps[1..], st, id);
    }
  }

  lemma KeyStaysOnce(q: Queue, s: Step, st: Settings, k: (nat, nat))
    requires HoldOk(q, st) && k in q.index
    ensures k in Next(q, s, st).index && Next(q, s, st).index[k] == q.index[k]
  {
  }

  lemma {:induction false} KeyStays(q: Queue, steps: seq<Step>, st: Settings, k: (nat, nat))
    requires Inv(q, st) && st.Valid() && k in q.index
    ensures k in Run(q, steps, st).index && Run(q, steps, st).index[k] == q.index[k]
    decreases |steps|
  {
    if steps != [] {
      NextKeepsInv(q, steps[0], st);
      KeyStaysOnce(q, steps[0], st, k);
      KeyStays(Next(q, steps[0], st), steps[1..], st, k);
    }
  }

  /**
   * An owner's idempotency key names one job forever: after any run, enqueueing it again answers with
   * that job when the payload is the same and with a conflict when it is not, and no other job has the key.
   */
  lemma KeyNamesOneJob(q: Queue, steps: seq<Step>, st: Settings, id: JobId, payload: Payload)
    requires Inv(q, st) && st.Valid() && id in q.jobs
    ensures var q', j := Run(q, steps, st), q.jobs[id];
            && Admit(q', j.owner, j.key, payload, st)
                == (if payload == j.fingerprint then Success(Some(id)) else Failure(IdempotencyConflict))
            && BeginEnqueue(q', j.owner, j.key, payload, st) == q'
            && forall i :: i in q'.jobs && q'.jobs[i].owner == j.owner && q'.jobs[i].key == j.key ==> i == id
  {
    var q', k := Run(q, steps, st), (q.jobs[id].owner, q.jobs[id].key);
    assert Indexed(q, id);
    KeyStays(q, steps, st, k);
    RunKeepsInv(q, steps, st);
    ChangesAreBounded(q, steps, st, id);
    IdentityStays(q, steps, st, id);
    assert Indexed(q', id);
    forall i | i in q'.jobs && (q'.jobs[i].owner, q'.jobs[i].key) == k ensures i == id { assert Indexed(q', i); }
  }

  lemma {:induction false} IdentityStays(q: Queue, steps: seq<Step>, st: Settings, id: JobId)
    requires Inv(q, st) && st.Valid() && id in q.jobs
    ensures id in Run(q, steps, st).jobs && SameIdentity(q.jobs[id], Run(q, steps, st).jobs[id])
    decreases |steps|
  {
    if steps != [] {
      NextKeepsInv(q, steps[0], st);
      EveryChangeLowers(q, steps[0], st, id);
      IdentityStays(Next(q, steps[0], st), steps[1..], st, id);
    }
  }

  // ---------------------------------------------------------------- no job is stuck

  /**
   * Every queued or waiting job has attempts left. Once its time has come it is claimable, and the claim
   * that finds it first, unlocked and with a free slot, leases it.
   */
  lemma WaitingJobsAreClaimable(q: Queue, id: JobId, retryAt: JobId -> Time, locked: set<JobId>, token: Token,
          st: Settings)
    requires Inv(q, st) && st.Valid() && q.hold == Free && token !in q.issued
    requires id in q.jobs && (q.jobs[id].status == Queued || q.jobs[id].status == RetryWait)
    requires q.jobs[id].availableAt <= q.clock
    requires |StillRunning(q.jobs, q.clock)| < st.concurrency && id !in locked
    requires forall i ::
               i in q.jobs && i != id && i !in locked && Ready(Recovered(q.jobs[i], q.clock, retryAt(i)), q.clock) ==>
                 Earlier(Recover(q.jobs, q.clock, retryAt), id, i)
    ensures var q' := Take(BeginClaim(q, retryAt, st), retryAt, locked, Some(id), token, st);
            id in q'.jobs && q'.jobs[id].status == Running && q'.jobs[id].leaseToken == Some(token)
              && q'.jobs[id].attempts == q.jobs[id].attempts + 1
  {
    assert JobOk(q.jobs[id], q.issued);
    var jobs := Recover(q.jobs, q.clock, retryAt);
    assert jobs[id] == q.jobs[id];
    var ids := Claimable(jobs, q.clock, locked);
    forall i | i in ids && i != id ensures Earlier(jobs, id, i) {
      assert Ready(Recovered(q.jobs[i], q.clock, retryAt(i)), q.clock);
    }
    assert First(jobs, ids, id);
  }

  // ---------------------------------------------------------------- backoff

  /** The worker's delay before a retry; its exponent is capped where the database's is not. */
  function RetryDelay(attempt: nat, st: Settings, jitter: real): (d: real)
    requires st.Valid() && attempt >= 1
  {
    Jittered(Least(st.maxBackoff, st.backoff * (Power2(if attempt - 1 < 10 then attempt - 1 else 10) as real)), jitter)
  }

  /**
   * For every attempt a job can make, worker and database back off alike: at least half the ceiling, less than
   * the maximum.
   */
  lemma BackoffsAgree(j: Job, issued: set<Token>, st: Settings, jitter: real)
    requires JobOk(j, issued) && st.Valid() && 1 <= j.attempts && 0.0 <= jitter < 1.0
    ensures RetryDelay(j.attempts, st, jitter) == Jittered(Ceiling(j.attempts, st), jitter)
    ensures st.backoff / 2.0 <= RetryDelay(j.attempts, st, jitter) < st.maxBackoff
  {
  }

  /**
   * A recovered job with attempts left waits at least half the backoff and less than the maximum from when
   * its retry time was drawn, so the claim that recovers it never leases it.
   */
  lemma RecoveredJobWaits(j: Job, issued: set<Token>, at: Time, now: Time, jitter: real, st: Settings)
    requires JobOk(j, issued) && st.Valid() && Expired(j, at) && j.attempts < j.maxAttempts && at <= now
    requires 0.0 <= jitter < 1.0
    ensures var j' := Recovered(j, at, now + Jittered(Ceiling(j.attempts, st), jitter));
            && j'.status == RetryWait && j'.error == Some("LEASE_EXPIRED")
            && now + st.backoff / 2.0 <= j'.availableAt < now + st.maxBackoff
            && !Ready(j', at)
  {
    assert st.backoff / 2.0 <= Ceiling(j.attempts, st) / 2.0;
  }
}
