/**
 * The job worker over the queue and the ledger: leases, crashes, stale workers that carry on, any model
 * output, and everybody else's transactions, interleaved one committed transaction at a time.
 */
module Worker {
  import opened Wrappers
  import opened Domain
  import opened Candidates
  import J = Jobs
  import JobRuns
  import L = Ledger
  import Lockstep
  import ManualNotes
  import R = Rows

  /** `names` writes a job's id as text; distinct jobs have distinct names. */
  datatype Env = Env(settings: J.Settings, config: Config, rules: ManualNotes.Rules, names: J.JobId -> string)
  {
    ghost predicate Valid()
    {
      settings.Valid() && config.policy.Valid() && forall i, j :: names(i) == names(j) ==> i == j
    }
  }

  /** What one lease's worker carries between its transactions. */
  datatype Work = Work(id: J.JobId, owner: nat, payload: J.Payload, result: Option<nat>,
      failure: Option<(string, bool)>)

  datatype System = System(queue: J.Queue, tables: R.Tables, works: map<J.Token, Work>)

  const EMPTY := System(J.EMPTY, R.EMPTY, map[])

  // ---------------------------------------------------------------- the worker's transactions

  function NoteConnection(owner: nat): R.Connection {
    R.Connection(owner, ManualNotes.CONNECTOR, ManualNotes.CONNECTION_KEY)
  }

  /** The one raw event that deliveries of a job's note go to. */
  function NoteKey(owner: nat, id: J.JobId, env: Env): R.RawKey
  {
    R.RawKey(NoteConnection(owner), R.External("manual:" + env.names(id)))
  }

  function NoteEnvelope(p: J.Payload, id: J.JobId, env: Env): Option<R.Envelope>
  {
    ManualNotes.Envelope(p.note, p.at, env.names(id), p.labels, env.rules)
  }

  function Claim(sys: System, retryAt: J.JobId -> J.Time, locked: set<J.JobId>, choice: Option<J.JobId>,
          token: J.Token, env: Env): System
  {
    var q := J.Take(sys.queue, retryAt, locked, choice, token, env.settings);
    if choice.Some? && token !in sys.queue.issued && token in q.issued && choice.value in q.jobs
        && q.jobs[choice.value].payload.Some? then
      var j := q.jobs[choice.value];
      sys.(queue := q, works := sys.works[token := Work(choice.value, j.owner, j.payload.value, None, None)])
    else sys.(queue := q)
  }

  const NEEDS_REVIEW := ("EXTRACTION_REVIEW_REQUIRED", false)

  function StoreNote(sys: System, token: J.Token, env: Env): System
    requires token in sys.works
  {
    var w := sys.works[token];
    match NoteEnvelope(w.payload, w.id, env)
    case None => sys.(works := sys.works[token := w.(failure := Some(NEEDS_REVIEW))])
    case Some(e) =>
      match L.StoreRaw(sys.tables, NoteConnection(w.owner), e)
      case Success(t) => sys.(tables := t)
      case Failure(_) => sys.(works := sys.works[token := w.(failure := Some(NEEDS_REVIEW))])
  }

  /** Re-reading the proposal of an earlier attempt. */
  function ReuseProposal(sys: System, token: J.Token, env: Env): System
    requires token in sys.works
  {
    var w := sys.works[token];
    var r := NoteKey(w.owner, w.id, env);
    if r !in sys.tables.proposals then sys
    else sys.(works := sys.works[token := w.(result := Some(sys.tables.proposals[r].id))])
  }

  function CommitExtraction(sys: System, token: J.Token, e: Event, env: Env): System
    requires token in sys.works
  {
    var w := sys.works[token];
    var r := NoteKey(w.owner, w.id, env);
    match L.Extract(sys.tables, r, e)
    case Success(t) => sys.(tables := t, works := sys.works[token := w.(result := Some(t.proposals[r].id))])
    case Failure(_) => sys.(works := sys.works[token := w.(failure := Some(NEEDS_REVIEW))])
  }

  /** An error of the attempt; the model's own errors are also recorded on the source. */
  function FailWork(sys: System, token: J.Token, code: string, retryable: bool, recorded: Option<string>,
          env: Env): System
    requires token in sys.works && env.config.policy.Valid()
  {
    var w := sys.works[token];
    var tables :=
      if recorded.None? then sys.tables
      else L.Next(sys.tables, L.ExtractionFailedStep(NoteKey(w.owner, w.id, env), recorded.value), env.config);
    System(sys.queue, tables, sys.works[token := w.(failure := Some((code, retryable)))])
  }

  /** A result wins over an error; without either the worker is not done. */
  function Complete(sys: System, token: J.Token, delay: real): System
    requires token in sys.works
  {
    var w := sys.works[token];
    if w.result.Some? then
      sys.(queue := J.Finish(sys.queue, w.owner, w.id, token, J.Report(w.result, None, false), delay))
    else if w.failure.Some? then
      sys.(queue := J.Finish(sys.queue, w.owner, w.id, token,
          J.Report(None, Some(w.failure.value.0), w.failure.value.1), delay))
    else sys
  }

  // ---------------------------------------------------------------- runs

  datatype Act =
    | StoreAct
    | ProcessAct(scan: Scan)
    | ReuseAct
    | ExtractAct(event: Event)
    | FailAct(code: string, retryable: bool, recorded: Option<string>)
    | CompleteAct(delay: real)

  datatype Step =
    | QueueStep(step: J.Step)
    | ClaimStep(retryAt: J.JobId -> J.Time, locked: set<J.JobId>, choice: Option<J.JobId>, token: J.Token)
    | LedgerStep(change: L.Step)
    | WorkStep(token: J.Token, act: Act)

  /** Everyone else delivers under other identities: a job's id is nobody else's request id. */
  ghost predicate Foreign(s: L.Step, env: Env)
  {
    s.StoreStep? ==> forall owner, id :: R.RawKey(s.connection, L.IdentityOf(s.envelope)) != NoteKey(owner, id, env)
  }

  function ActOn(sys: System, token: J.Token, act: Act, env: Env): (sys': System)
    requires token in sys.works && env.config.policy.Valid()
    ensures token in sys'.works
  {
    match act
    case StoreAct => StoreNote(sys, token, env)
    case ProcessAct(scan) =>
      sys.(tables := L.Next(sys.tables, L.ProcessStep(NoteKey(sys.works[token].owner, sys.works[token].id, env), scan),
          env.config))
    case ReuseAct => ReuseProposal(sys, token, env)
    case ExtractAct(event) => CommitExtraction(sys, token, event, env)
    case FailAct(code, retryable, recorded) => FailWork(sys, token, code, retryable, recorded, env)
    case CompleteAct(delay) => Complete(sys, token, delay)
  }

  /** Only workers claim and finish; a step that is not possible changes nothing. */
  ghost function Next(sys: System, s: Step, env: Env): System
    requires env.config.policy.Valid()
  {
    match s
    case QueueStep(step) =>
        if step.TakeStep? || step.FinishStep? then sys else sys.(queue := J.Next(sys.queue, step, env.settings))
    case ClaimStep(retryAt, locked, choice, token) => Claim(sys, retryAt, locked, choice, token, env)
    case LedgerStep(change) =>
        if Foreign(change, env) then sys.(tables := L.Next(sys.tables, change, env.config)) else sys
    case WorkStep(token, act) => if token in sys.works then ActOn(sys, token, act, env) else sys
  }

  ghost function Run(sys: System, steps: seq<Step>, env: Env): System
    requires env.config.policy.Valid()
    decreases |steps|
  {
    if steps == [] then sys else Run(Next(sys, steps[0], env), steps[1..], env)
  }
}
