/**
 * The durable job queue: every row change of its transactions, with the admission lock held across the
 * check and the change of enqueue, claim and review retry while finish and cancel slip in between.
 */
module Jobs {
  import opened Wrappers

  type JobId = nat
  type Token = nat
  type Time = real  // seconds

  datatype Status = Queued | Running | RetryWait | Succeeded | DeadLetter | Cancelled

  /** The note to extract; its fingerprint is taken as injective, so it is the note itself. */
  datatype Payload = Payload(note: string, at: int, labels: seq<string>)

  datatype Job = Job(
    owner: nat,
    key: nat,
    payload: Option<Payload>,
    fingerprint: Payload,
    status: Status,
    attempts: nat,
    maxAttempts: nat,
    reviewRetries: nat,
    availableAt: Time,
    createdAt: Time,
    leaseToken: Option<Token>,
    leaseExpires: Option<Time>,
    completedAt: Option<Time>,
    error: Option<string>,
    result: Option<nat>)

  datatype Settings = Settings(
    concurrency: nat,
    maxPending: nat,
    maxPendingPerOwner: nat,
    maxAttempts: nat,
    leaseSeconds: nat,
    timeoutSeconds: nat,
    backoff: real,
    maxBackoff: real)
  {
    predicate Valid()
    {
      && 1 <= concurrency <= 16
      && 1 <= maxPending <= 10000
      && 1 <= maxPendingPerOwner <= 1000
      && 1 <= maxAttempts <= 5
      && 10 <= leaseSeconds <= 1800
      && 1 <= timeoutSeconds <= 1200
      && timeoutSeconds + 5 < leaseSeconds
      && 0.1 <= backoff <= 60.0
      && 1.0 <= maxBackoff <= 3600.0
      && backoff <= maxBackoff
    }
  }

  const REVIEW_RETRIES := 3

  /** What the transaction that holds the admission lock has read so far. */
  datatype Hold =
    | Free
    | Inserting(owner: nat, key: nat, payload: Payload)
    | Requeueing(id: JobId)
    | Taking(at: Time)

  /** `index` is the unique constraint on owner and idempotency key, `issued` every lease token so far. */
  datatype Queue = Queue(
    jobs: map<JobId, Job>,
    index: map<(nat, nat), JobId>,
    clock: Time,
    issued: set<Token>,
    hold: Hold)

  const EMPTY := Queue(map[], map[], 0.0, {}, Free)

  datatype JobError = QueueFull | OwnerLimit | IdempotencyConflict | JobNotFound | NotRetryable | CannotCancel

  // ---------------------------------------------------------------- admission

  predicate Active(s: Status) { s == Queued || s == Running || s == RetryWait }

  function ActiveIds(jobs: map<JobId, Job>): set<JobId> { set id | id in jobs && Active(jobs[id].status) }

  function OwnedActiveIds(jobs: map<JobId, Job>, owner: nat): set<JobId>
  {
    set id | id in jobs && Active(jobs[id].status) && jobs[id].owner == owner
  }

  function RunningIds(jobs: map<JobId, Job>): set<JobId> { set id | id in jobs && jobs[id].status == Running }

  function CheckCapacity(jobs: map<JobId, Job>, owner: nat, st: Settings): Option<JobError>
  {
    if |ActiveIds(jobs)| >= st.maxPending then Some(QueueFull)
    else if |OwnedActiveIds(jobs, owner)| >= st.maxPendingPerOwner then Some(OwnerLimit)
    else None
  }

  /** The existing job of the key, nothing when a new one may be inserted, or a refusal. */
  function Admit(q: Queue, owner: nat, key: nat, payload: Payload, st: Settings): Result<Option<JobId>, JobError>
  {
    if (owner, key) in q.index && q.index[(owner, key)] in q.jobs then
      var id := q.index[(owner, key)];
      if q.jobs[id].fingerprint != payload then Failure(IdempotencyConflict) else Success(Some(id))
    else
      match CheckCapacity(q.jobs, owner, st) case Some(e) => Failure(e) case None => Success(None)
  }

  function NewJob(q: Queue, owner: nat, key: nat, payload: Payload, st: Settings): Job
  {
    Job(owner, key, Some(payload), payload, Queued, 0, st.maxAttempts, 0, q.clock, q.clock, None, None, None, None,
        None)
  }

  function BeginEnqueue(q: Queue, owner: nat, key: nat, payload: Payload, st: Settings): Queue
  {
    if q.hold == Free && Admit(q, owner, key, payload, st) == Success(None)
        then q.(hold := Inserting(owner, key, payload)) else q
  }

  function Insert(q: Queue, id: JobId, st: Settings): Queue
  {
    if !q.hold.Inserting? || id in q.jobs then q
    else q.(
      jobs := q.jobs[id := NewJob(q, q.hold.owner, q.hold.key, q.hold.payload, st)],
      index := q.index[(q.hold.owner, q.hold.key) := id],
      hold := Free)
  }

  function Visible(q: Queue, owner: nat, id: JobId): bool { id in q.jobs && q.jobs[id].owner == owner }

  function Retryable(q: Queue, owner: nat, id: JobId, st: Settings): Option<JobError>
  {
    if !Visible(q, owner, id) then Some(JobNotFound)
    else if q.jobs[id].status != DeadLetter || q.jobs[id].reviewRetries >= REVIEW_RETRIES then Some(NotRetryable)
    else CheckCapacity(q.jobs, owner, st)
  }

  function BeginRetry(q: Queue, owner: nat, id: JobId, st: Settings): Queue
  {
    if q.hold == Free && Retryable(q, owner, id, st) == None then q.(hold := Requeueing(id)) else q
  }

  function Requeued(j: Job, now: Time): Job
  {
    j.(status := Queued, attempts := 0, reviewRetries := j.reviewRetries + 1, availableAt := now, completedAt := None,
        error := None)
  }

  function Requeue(q: Queue): Queue
  {
    if !q.hold.Requeueing? || q.hold.id !in q.jobs then q
    else q.(jobs := q.jobs[q.hold.id := Requeued(q.jobs[q.hold.id], q.clock)], hold := Free)
  }

  // ---------------------------------------------------------------- claims

  function Power2(n: nat): (p: nat)
    ensures p >= 1
  {
    if n == 0 then 1 else 2 * Power2(n - 1)
  }

  function Least(a: real, b: real): real { if a <= b then a else b }

  /** The database's backoff ceiling after `attempts` attempts, before jitter. */
  function Ceiling(attempts: nat, st: Settings): (c: real)
    requires st.Valid() && attempts >= 1
    ensures 0.0 < c <= st.maxBackoff
    ensures st.backoff <= c
  {
    var p := Power2(attempts - 1) as real;
    assert st.backoff * p >= st.backoff * 1.0;
    Least(st.maxBackoff, st.backoff * p)
  }

  /** Equal jitter: half the ceiling is kept, the other half is drawn. */
  function Jittered(ceiling: real, jitter: real): (d: real)
    ensures 0.0 < ceiling && 0.0 <= jitter < 1.0 ==> ceiling / 2.0 <= d < ceiling
  {
    assert 0.0 < ceiling && 0.0 <= jitter < 1.0 ==> 0.0 <= ceiling * jitter < ceiling;
    ceiling * 0.5 + ceiling * jitter * 0.5
  }

  predicate Expired(j: Job, at: Time) { j.status == Running && j.leaseExpires.Some? && j.leaseExpires.value <= at }

  /** Both recovery updates: an expired lease is dead-lettered when its attempts are used up, else it waits. */
  function Recovered(j: Job, at: Time, retryAt: Time): Job
  {
    if !Expired(j, at) then j
    else
      var released := j.(error := Some("LEASE_EXPIRED"), leaseToken := None, leaseExpires := None);
      if j.attempts >= j.maxAttempts then released.(status := DeadLetter, completedAt := Some(at))
      else released.(status := RetryWait, availableAt := retryAt)
  }

  function Recover(jobs: map<JobId, Job>, at: Time, retryAt: JobId -> Time): map<JobId, Job>
  {
    map id | id in jobs :: Recovered(jobs[id], at, retryAt(id))
  }

  predicate Ready(j: Job, at: Time) {
    (j.status == Queued || j.status == RetryWait) && j.availableAt <= at && j.attempts < j.maxAttempts
  }

  /** The order in which ready jobs are claimed. */
  predicate Earlier(jobs: map<JobId, Job>, i: JobId, j: JobId)
    requires i in jobs && j in jobs
  {
    || jobs[i].availableAt < jobs[j].availableAt
    || (jobs[i].availableAt == jobs[j].availableAt
        && (jobs[i].createdAt < jobs[j].createdAt || (jobs[i].createdAt == jobs[j].createdAt && i < j)))
  }

  function Claimable(jobs: map<JobId, Job>, at: Time, locked: set<JobId>): set<JobId>
  {
    set id | id in jobs && id !in locked && Ready(jobs[id], at)
  }

  predicate First(jobs: map<JobId, Job>, ids: set<JobId>, id: JobId)
    requires forall i :: i in ids ==> i in jobs
  {
    id in ids && forall i :: i in ids && i != id ==> Earlier(jobs, id, i)
  }

  function StillRunning(jobs: map<JobId, Job>, at: Time): set<JobId>
  {
    set id | id in jobs && jobs[id].status == Running && !Expired(jobs[id], at)
  }

  /** Recovery and the count: with every slot taken, the claim commits the recovery alone. */
  function BeginClaim(q: Queue, retryAt: JobId -> Time, st: Settings): Queue
  {
    if q.hold != Free then q
    else if |StillRunning(q.jobs, q.clock)| >= st.concurrency then q.(jobs := Recover(q.jobs, q.clock, retryAt))
    else q.(hold := Taking(q.clock))
  }

  function Leased(j: Job, at: Time, token: Token, st: Settings): Job
  {
    j.(
      status := Running,
      attempts := j.attempts + 1,
      leaseToken := Some(token),
      leaseExpires := Some(at + st.leaseSeconds as real),
      completedAt := None)
  }

  /** The claim's choice: the first job that is ready and not locked by another transaction, if any. */
  predicate Choice(q: Queue, retryAt: JobId -> Time, locked: set<JobId>, choice: Option<JobId>)
    requires q.hold.Taking?
  {
    var jobs := Recover(q.jobs, q.hold.at, retryAt);
    var ids := Claimable(jobs, q.hold.at, locked);
    match choice case None => ids == {} case Some(id) => First(jobs, ids, id)
  }

  function Take(q: Queue, retryAt: JobId -> Time, locked: set<JobId>, choice: Option<JobId>, token: Token,
          st: Settings): Queue
  {
    if !q.hold.Taking? || !Choice(q, retryAt, locked, choice) || token in q.issued then q
    else
      var jobs := Recover(q.jobs, q.hold.at, retryAt);
      match choice
      case None => q.(jobs := jobs, hold := Free)
      case Some(id) => q.(jobs := jobs[id := Leased(jobs[id], q.hold.at, token, st)], issued := q.issued + {token},
          hold := Free)
  }

  // ---------------------------------------------------------------- finish and cancel, without the admission lock

  datatype Report = Report(result: Option<nat>, error: Option<string>, retryable: bool)

  /** The fence: the lease must still be the job's own, and unexpired. */
  predicate Holds(q: Queue, owner: nat, id: JobId, token: Token)
  {
    && Visible(q, owner, id)
    && q.jobs[id].status == Running
    && q.jobs[id].leaseToken == Some(token)
    && q.jobs[id].leaseExpires.Some? && q.jobs[id].leaseExpires.value > q.clock
  }

  function Finished(j: Job, report: Report, now: Time, delay: real): Job
  {
    var released := j.(leaseToken := None, leaseExpires := None, error := report.error);
    if report.result.Some?
        then released.(status := Succeeded, result := report.result, completedAt := Some(now), payload := None)
    else if report.retryable && j.attempts < j.maxAttempts
        then released.(status := RetryWait, availableAt := now + delay)
    else released.(status := DeadLetter, completedAt := Some(now))
  }

  function Finish(q: Queue, owner: nat, id: JobId, token: Token, report: Report, delay: real): Queue
  {
    if !Holds(q, owner, id, token) then q else q.(jobs := q.jobs[id := Finished(q.jobs[id], report, q.clock, delay)])
  }

  function Cancellable(q: Queue, owner: nat, id: JobId): Option<JobError>
  {
    if !Visible(q, owner, id) then Some(JobNotFound)
    else if q.jobs[id].status == Cancelled || q.jobs[id].status == Queued || q.jobs[id].status == RetryWait then None
    else Some(CannotCancel)
  }

  /** A job that review is requeueing is row-locked, so cancelling it waits. */
  function Cancel(q: Queue, owner: nat, id: JobId): Queue
  {
    if q.hold == Requeueing(id) || Cancellable(q, owner, id) != None || q.jobs[id].status == Cancelled then q
    else q.(jobs := q.jobs[id := q.jobs[id].(status := Cancelled, completedAt := Some(q.clock), payload := None)])
  }

  // ---------------------------------------------------------------- runs

  /** Every row change, with everything that clients, workers, clocks and lock contention choose. */
  datatype Step =
    | Tick(elapsed: real)
    | BeginEnqueueStep(owner: nat, key: nat, payload: Payload)
    | InsertStep(id: JobId)
    | BeginRetryStep(owner: nat, id: JobId)
    | RequeueStep
    | BeginClaimStep(retryAt: JobId -> Time)
    | TakeStep(retryAt: JobId -> Time, locked: set<JobId>, choice: Option<JobId>, token: Token)
    | AbortStep
    | FinishStep(owner: nat, id: JobId, token: Token, report: Report, delay: real)
    | CancelStep(owner: nat, id: JobId)

  function Next(q: Queue, s: Step, st: Settings): Queue
  {
    match s
    case Tick(elapsed) => if elapsed < 0.0 then q else q.(clock := q.clock + elapsed)
    case BeginEnqueueStep(owner, key, payload) => BeginEnqueue(q, owner, key, payload, st)
    case InsertStep(id) => Insert(q, id, st)
    case BeginRetryStep(owner, id) => BeginRetry(q, owner, id, st)
    case RequeueStep => Requeue(q)
    case BeginClaimStep(retryAt) => BeginClaim(q, retryAt, st)
    case TakeStep(retryAt, locked, choice, token) => Take(q, retryAt, locked, choice, token, st)
    case AbortStep => q.(hold := Free)
    case FinishStep(owner, id, token, report, delay) => Finish(q, owner, id, token, report, delay)
    case CancelStep(owner, id) => Cancel(q, owner, id)
  }

  function Run(q: Queue, steps: seq<Step>, st: Settings): Queue
    decreases |steps|
  {
    if steps == [] then q else Run(Next(q, steps[0], st), steps[1..], st)
  }
}
