/**
 * One attempt of the worker, over the mutable ledger and queue: store and process the note, reuse or
 * extract its proposal, classify what went wrong, and finish under the lease's fence.
 */
module JobWorker {
  import opened Wrappers
  import opened Domain
  import opened Candidates
  import opened Worker
  import J = Jobs
  import JobRepository
  import JobRuns
  import L = Ledger
  import LedgerService
  import R = Rows
  import WorkerRuns

  /** How the extraction of an attempt can end. */
  datatype Extraction =
    | Extracted(event: Event)
    | ProviderError(code: string)
    | OutputError(code: string)
    | TimedOut
    | DatabaseError

  const DISABLED := "AI_PROVIDER_DISABLED"

  function FailureOf(x: Extraction): Act
    requires !x.Extracted?
  {
    match x
    case ProviderError(code) =>
      if code == DISABLED then FailAct(DISABLED, false, Some(code))
          else FailAct("PROVIDER_UNAVAILABLE", true, Some(code))
    case OutputError(code) => FailAct("EXTRACTION_REVIEW_REQUIRED", false, Some(code))
    case TimedOut => FailAct("JOB_TIMEOUT", true, None)
    case DatabaseError => FailAct("JOB_DATABASE_ERROR", true, None)
  }

  /** The act that gives an attempt its result or its failure, once the note is stored and processed. */
  function LastAct(sys: System, token: J.Token, x: Extraction, env: Env): Act
    requires token in sys.works
  {
    if NoteKey(sys.works[token].owner, sys.works[token].id, env) in sys.tables.proposals then ReuseAct
    else if x.Extracted? then ExtractAct(x.event)
    else FailureOf(x)
  }

  /** The acts of one uninterrupted attempt before it finishes. */
  function SubmitActs(sys: System, token: J.Token, scan: Scan, x: Extraction, env: Env): seq<Act>
    requires token in sys.works && env.config.policy.Valid()
  {
    var stored := ActOn(sys, token, StoreAct, env);
    if stored.works[token].failure.Some? then [StoreAct]
    else [StoreAct, ProcessAct(scan), LastAct(ActOn(stored, token, ProcessAct(scan), env), token, x, env)]
  }

  function Submitted(sys: System, token: J.Token, scan: Scan, x: Extraction, env: Env): (sys': System)
    requires token in sys.works && env.config.policy.Valid()
    ensures token in sys'.works
  {
    var stored := ActOn(sys, token, StoreAct, env);
    if stored.works[token].failure.Some? then stored
    else
      var processed := ActOn(stored, token, ProcessAct(scan), env);
      ActOn(processed, token, LastAct(processed, token, x, env), env)
  }

  function Attempt(sys: System, token: J.Token, scan: Scan, x: Extraction, delay: real, env: Env): System
    requires token in sys.works && env.config.policy.Valid()
  {
    Complete(Submitted(sys, token, scan, x, env), token, delay)
  }

  function StepsOf(token: J.Token, acts: seq<Act>): (steps: seq<Step>)
    ensures |steps| == |acts| && forall i :: 0 <= i < |acts| ==> steps[i] == WorkStep(token, acts[i])
  {
    seq(|acts|, i requires 0 <= i < |acts| => WorkStep(token, acts[i]))
  }

  /** One act after the other. */
  function ActAll(sys: System, token: J.Token, acts: seq<Act>, env: Env): System
    requires token in sys.works && env.config.policy.Valid()
    decreases |acts|
  {
    if acts == [] then sys else ActAll(ActOn(sys, token, acts[0], env), token, acts[1..], env)
  }

  lemma {:induction false} RunIsActs(sys: System, token: J.Token, acts: seq<Act>, env: Env)
    requires token in sys.works && env.config.policy.Valid()
    ensures Run(sys, StepsOf(token, acts), env) == ActAll(sys, token, acts, env)
    decreases |acts|
  {
    if acts != [] {
      assert StepsOf(token, acts)[1..] == StepsOf(token, acts[1..]);
      NextIsAct(sys, token, acts[0], env);
      RunIsActs(ActOn(sys, token, acts[0], env), token, acts[1..], env);
    }
  }

  lemma NextIsAct(sys: System, token: J.Token, act: Act, env: Env)
    requires token in sys.works && env.config.policy.Valid()
    ensures Next(sys, WorkStep(token, act), env) == ActOn(sys, token, act, env)
  {
  }

  lemma ActThen(sys: System, token: J.Token, act: Act, acts: seq<Act>, env: Env)
    requires token in sys.works && env.config.policy.Valid()
    ensures ActAll(sys, token, [act] + acts, env) == ActAll(ActOn(sys, token, act, env), token, acts, env)
  {
    assert ([act] + acts)[1..] == acts;
  }

  lemma ActThenComplete(sys: System, token: J.Token, act: Act, delay: real, env: Env)
    requires token in sys.works && env.config.policy.Valid()
    ensures ActAll(sys, token, [act] + [CompleteAct(delay)], env) == Complete(ActOn(sys, token, act, env), token, delay)
  {
    ActThen(sys, token, act, [CompleteAct(delay)], env);
    ActThen(ActOn(sys, token, act, env), token, CompleteAct(delay), [], env);
    assert [CompleteAct(delay)] + [] == [CompleteAct(delay)];
  }

  /** An attempt is a run of the system, so everything proved about runs holds of it. */
  lemma AttemptIsRun(sys: System, token: J.Token, scan: Scan, x: Extraction, delay: real, env: Env)
    requires token in sys.works && env.config.policy.Valid()
    ensures Attempt(sys, token, scan, x, delay, env)
         == Run(sys, StepsOf(token, SubmitActs(sys, token, scan, x, env) + [CompleteAct(delay)]), env)
  {
    RunIsActs(sys, token, SubmitActs(sys, token, scan, x, env) + [CompleteAct(delay)], env);
    var stored := ActOn(sys, token, StoreAct, env);
    if stored.works[token].failure.Some? {
      ActThenComplete(sys, token, StoreAct, delay, env);
    } else {
      var processed := ActOn(stored, token, ProcessAct(scan), env);
      var last := LastAct(processed, token, x, env);
      ActThen(sys, token, StoreAct, [ProcessAct(scan)] + ([last] + [CompleteAct(delay)]), env);
      ActThen(stored, token, ProcessAct(scan), [last] + [CompleteAct(delay)], env);
      ActThenComplete(processed, token, last, delay, env);
      assert [StoreAct, ProcessAct(scan), last] + [CompleteAct(delay)]
          == [StoreAct] + ([ProcessAct(scan)] + ([last] + [CompleteAct(delay)]));
    }
  }

  lemma OneWork(token: J.Token, work: Work, done: Work)
    ensures map[token := work][token := done] == map[token := done]
  {
  }

  class Runner {
    const store: LedgerService.Store
    const queue: JobRepository.Repository
    const env: Env

    constructor (store: LedgerService.Store, queue: JobRepository.Repository, env: Env)
      ensures this.store == store && this.queue == queue && this.env == env
    {
      this.store, this.queue, this.env := store, queue, env;
    }

    /** The system as one lease sees it. */
    ghost function View(token: J.Token, work: Work): System
      reads store, queue
    {
      System(queue.Snapshot(), store.Snapshot(), map[token := work])
    }

    /** The lease's work with a result or a failure to report. */
    static predicate Done(work: Work, done: Work)
    {
      done.id == work.id && done.owner == work.owner && (done.result.Some? || done.failure.Some?)
    }

    method Deliver(token: J.Token, work: Work) returns (failure: Option<(string, bool)>)
      requires env.config.policy.Valid() && work.failure.None?
      modifies store
      ensures View(token, work.(failure := failure)) == ActOn(old(View(token, work)), token, StoreAct, env)
    {
      var envelope := NoteEnvelope(work.payload, work.id, env);
      if envelope.None? { return Some(NEEDS_REVIEW); }
      var error := store.StoreRawEvent(NoteConnection(work.owner), envelope.value);
      return if error.Some? then Some(NEEDS_REVIEW) else None;
    }

    method Process(token: J.Token, work: Work, scan: Scan)
      requires env.config.policy.Valid()
      modifies store
      ensures View(token, work) == ActOn(old(View(token, work)), token, ProcessAct(scan), env)
    {
      var _ := store.ProcessEvent(NoteKey(work.owner, work.id, env), scan, env.config);
    }

    /** The proposal of an earlier attempt, or one extracted now, or why there is none. */
    method ExtractRawEvent(token: J.Token, work: Work, x: Extraction) returns (done: Work)
      requires env.config.policy.Valid()
      modifies store
      ensures Done(work, done)
      ensures View(token, done)
                == ActOn(old(View(token, work)), token, LastAct(old(View(token, work)), token, x, env), env)
    {
      var r := NoteKey(work.owner, work.id, env);
      if r in store.proposals { return work.(result := Some(store.proposals[r].id)); }
      if x.Extracted? {
        done := Extract(token, work, x.event);
      } else {
        done := Fail(token, work, FailureOf(x));
      }
    }

    method Extract(token: J.Token, work: Work, e: Event) returns (done: Work)
      requires env.config.policy.Valid()
      modifies store
      ensures Done(work, done)
      ensures View(token, done) == CommitExtraction(old(View(token, work)), token, e, env)
    {
      var r := NoteKey(work.owner, work.id, env);
      var error := store.ExtractRawEvent(r, e);
      done :=
        if error.None? then work.(result := Some(store.proposals[r].id)) else work.(failure := Some(NEEDS_REVIEW));
      OneWork(token, work, done);
    }

    method Fail(token: J.Token, work: Work, act: Act) returns (done: Work)
      requires env.config.policy.Valid() && act.FailAct?
      modifies store
      ensures Done(work, done)
      ensures View(token, done) == FailWork(old(View(token, work)), token, act.code, act.retryable, act.recorded, env)
    {
      if act.recorded.Some? {
        var _ := store.RecordExtractionFailure(NoteKey(work.owner, work.id, env), act.recorded.value);
      }
      done := work.(failure := Some((act.code, act.retryable)));
      OneWork(token, work, done);
    }

    method SubmitManualNote(token: J.Token, work: Work, scan: Scan, x: Extraction) returns (done: Work)
      requires env.config.policy.Valid() && work.failure.None?
      modifies store
      ensures Done(work, done)
      ensures View(token, done) == Submitted(old(View(token, work)), token, scan, x, env)
    {
      var failure := Deliver(token, work);
      if failure.Some? { return work.(failure := failure); }
      Process(token, work, scan);
      done := ExtractRawEvent(token, work, x);
    }

    method Finish(token: J.Token, work: Work, delay: real) returns (completed: bool)
      requires queue.Valid() && (work.result.Some? || work.failure.Some?)
      modifies queue
      ensures queue.Valid() && View(token, work) == Complete(old(View(token, work)), token, delay)
      ensures completed == J.Holds(old(queue.Snapshot()), work.owner, work.id, token)
    {
      var report :=
        if work.result.Some? then J.Report(work.result, None, false)
        else J.Report(None, Some(work.failure.value.0), work.failure.value.1);
      completed := queue.Finish(work.owner, work.id, token, report, delay);
    }

    /** One claimed lease, from submission to the fenced finish. */
    method Execute(token: J.Token, work: Work, scan: Scan, x: Extraction, delay: real)
      returns (completed: bool, done: Work)
      requires env.config.policy.Valid() && queue.Valid() && work.result.None? && work.failure.None?
      modifies store, queue
      ensures queue.Valid() && View(token, done) == Attempt(old(View(token, work)), token, scan, x, delay, env)
      ensures completed == J.Holds(old(queue.Snapshot()), work.owner, work.id, token)
    {
      ghost var sys := View(token, work);
      done := SubmitManualNote(token, work, scan, x);
      ghost var submitted := View(token, done);
      completed := Finish(token, done, delay);
      assert View(token, done) == Complete(submitted, token, delay);
    }
  }
}
