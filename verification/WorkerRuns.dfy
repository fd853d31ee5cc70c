/**
 * End-to-end idempotence of a job: over any number of leases, crashes, replays and differing model
 * outputs, one job adds at most one raw event and one proposal, and its result is that proposal.
 */
module WorkerRuns {
  import opened Wrappers
  import opened Domain
  import opened Candidates
  import opened Worker
  import J = Jobs
  import JobRuns
  import JobHistory
  import L = Ledger
  import Lockstep
  import R = Rows
  import SourceHistory

  // ---------------------------------------------------------------- the invariant

  predicate ProposalIs(t: R.Tables, r: R.RawKey, id: nat) { r in t.proposals && t.proposals[r].id == id }

  /** A lease's work belongs to a job and carries the payload that was enqueued. */
  predicate WorkOk(sys: System, env: Env, token: J.Token)
  {
    token in sys.works ==>
      var w := sys.works[token];
      && w.id in sys.queue.jobs && sys.queue.jobs[w.id].owner == w.owner
          && sys.queue.jobs[w.id].fingerprint == w.payload
      && (w.result.Some? ==> ProposalIs(sys.tables, NoteKey(w.owner, w.id, env), w.result.value))
  }

  /** What is stored under a job's identity is that job's own note. */
  predicate NoteOk(sys: System, env: Env, owner: nat, id: J.JobId)
  {
    NoteKey(owner, id, env) in sys.tables.raws ==>
      && id in sys.queue.jobs && sys.queue.jobs[id].owner == owner
      && NoteEnvelope(sys.queue.jobs[id].fingerprint, id, env).Some?
      && sys.tables.raws[NoteKey(owner, id, env)] == NoteEnvelope(sys.queue.jobs[id].fingerprint, id, env).value.content
  }

  predicate ProposalHasRaw(sys: System, r: R.RawKey) { r in sys.tables.proposals ==> r in sys.tables.raws }

  predicate ResultOk(sys: System, env: Env, id: J.JobId)
  {
    id in sys.queue.jobs && sys.queue.jobs[id].status == J.Succeeded ==>
      && sys.queue.jobs[id].result.Some?
      && ProposalIs(sys.tables, NoteKey(sys.queue.jobs[id].owner, id, env), sys.queue.jobs[id].result.value)
  }

  ghost predicate ProposalsDistinct(t: R.Tables)
  {
    && (forall r :: r in t.proposals ==> t.proposals[r].id < t.nextProposal)
    && (forall r, r' :: r in t.proposals && r' in t.proposals && t.proposals[r].id == t.proposals[r'].id ==> r == r')
  }

  ghost predicate Linked(sys: System, env: Env)
  {
    && (forall token :: WorkOk(sys, env, token))
    && (forall owner, id :: NoteOk(sys, env, owner, id))
    && (forall r :: ProposalHasRaw(sys, r))
    && (forall id :: ResultOk(sys, env, id))
    && ProposalsDistinct(sys.tables)
  }

  ghost predicate Inv(sys: System, env: Env)
  {
    JobRuns.Inv(sys.queue, env.settings) && Lockstep.Inv(sys.tables) && Linked(sys, env)
  }

  lemma EmptyInv(env: Env)
    requires env.Valid()
    ensures Inv(EMPTY, env)
  {
    JobRuns.EmptyInv(env.settings);
    Lockstep.EmptyInv();
  }

  // ---------------------------------------------------------------- queue steps

  /** No job disappears or changes what identifies it, and no new job succeeds outright. */
  ghost predicate QueueMoves(q: J.Queue, q': J.Queue)
  {
    && (forall id :: id in q.jobs ==> id in q'.jobs && JobHistory.Moves(q.jobs[id], q'.jobs[id]))
    && (forall id :: id in q'.jobs && q'.jobs[id].status == J.Succeeded ==> id in q.jobs && q.jobs[id] == q'.jobs[id])
  }

  lemma QueueStepMoves(q: J.Queue, s: J.Step, st: J.Settings)
    requires !s.FinishStep?
    ensures QueueMoves(q, J.Next(q, s, st))
  {
    var q' := J.Next(q, s, st);
    forall id | id in q.jobs ensures id in q'.jobs && JobHistory.Moves(q.jobs[id], q'.jobs[id]) {
      JobHistory.EveryChangeLowers(q, s, st, id);
    }
    forall id | id in q'.jobs && q'.jobs[id].status == J.Succeeded ensures id in q.jobs && q.jobs[id] == q'.jobs[id] {
      if id in q.jobs { OnlyFinishSucceeds(q, s, st, id); }
    }
  }

  lemma OnlyFinishSucceeds(q: J.Queue, s: J.Step, st: J.Settings, id: J.JobId)
    requires !s.FinishStep? && id in q.jobs && id in J.Next(q, s, st).jobs
    requires J.Next(q, s, st).jobs[id].status == J.Succeeded
    ensures J.Next(q, s, st).jobs[id] == q.jobs[id]
  {
    match s {
      case TakeStep(retryAt, locked, choice, token) =>
        if q.hold.Taking? {
          JobHistory.RecoveredMoves(q.jobs[id], q.hold.at, retryAt(id));
          var recovered := J.Recovered(q.jobs[id], q.hold.at, retryAt(id));
          assert recovered.status == J.Succeeded ==> recovered == q.jobs[id];
        }
      case _ =>
    }
  }

  lemma QueueKeepsLinked(sys: System, sys': System, env: Env)
    requires Linked(sys, env) && QueueMoves(sys.queue, sys'.queue) && sys' == sys.(queue := sys'.queue)
    ensures Linked(sys', env)
  {
    forall token ensures WorkOk(sys', env, token) { assert WorkOk(sys, env, token); }
    forall owner, id ensures NoteOk(sys', env, owner, id) { assert NoteOk(sys, env, owner, id); }
    forall r ensures ProposalHasRaw(sys', r) { assert ProposalHasRaw(sys, r); }
    forall id ensures ResultOk(sys', env, id) { assert ResultOk(sys, env, id); }
  }

  lemma QueueKeepsInv(sys: System, s: J.Step, env: Env)
    requires Inv(sys, env) && env.Valid() && !s.FinishStep?
    ensures Inv(sys.(queue := J.Next(sys.queue, s, env.settings)), env)
  {
    JobRuns.NextKeepsInv(sys.queue, s, env.settings);
    QueueStepMoves(sys.queue, s, env.settings);
    QueueKeepsLinked(sys, sys.(queue := J.Next(sys.queue, s, env.settings)), env);
  }

  lemma ClaimKeepsInv(sys: System, retryAt: J.JobId -> J.Time, locked: set<J.JobId>, choice: Option<J.JobId>,
          token: J.Token, env: Env)
    requires Inv(sys, env) && env.Valid()
    ensures Inv(Claim(sys, retryAt, locked, choice, token, env), env)
  {
    var s := J.TakeStep(retryAt, locked, choice, token);
    var mid := sys.(queue := J.Next(sys.queue, s, env.settings));
    QueueKeepsInv(sys, s, env);
    var sys' := Claim(sys, retryAt, locked, choice, token, env);
    if sys' != mid {
      assert JobRuns.JobOk(mid.queue.jobs[choice.value], mid.queue.issued);
      WorksKeepLinked(mid, sys', token, env);
    }
  }

  /** Only the work of one token changed, and it is in order. */
  lemma WorksKeepLinked(sys: System, sys': System, token: J.Token, env: Env)
    requires Linked(sys, env) && sys' == sys.(works := sys'.works) && WorkOk(sys', env, token)
    requires forall other :: other != token ==>
               (other in sys'.works <==> other in sys.works)
                   && (other in sys.works ==> sys'.works[other] == sys.works[other])
    ensures Linked(sys', env)
  {
    forall other ensures WorkOk(sys', env, other) { assert WorkOk(sys, env, other); }
    forall owner, id ensures NoteOk(sys', env, owner, id) { assert NoteOk(sys, env, owner, id); }
    forall r ensures ProposalHasRaw(sys', r) { assert ProposalHasRaw(sys, r); }
    forall id ensures ResultOk(sys', env, id) { assert ResultOk(sys, env, id); }
  }

  // ---------------------------------------------------------------- ledger steps

  /** A ledger step other than one that stores under a job's identity. */
  lemma LedgerKeepsInv(sys: System, s: L.Step, env: Env)
    requires Inv(sys, env) && env.Valid() && Foreign(s, env)
    ensures Inv(sys.(tables := L.Next(sys.tables, s, env.config)), env)
  {
    var sys' := sys.(tables := L.Next(sys.tables, s, env.config));
    Lockstep.NextKeepsInv(sys.tables, s, env.config);
    SourceHistory.NextGrowsSources(sys.tables, s, env.config);
    NewProposalHasRaw(sys.tables, s, env.config);
    forall owner, id ensures NoteOk(sys', env, owner, id) { assert NoteOk(sys, env, owner, id); }
    GrownKeepsLinked(sys, sys', s, env);
  }

  lemma NewProposalHasRaw(t: R.Tables, s: L.Step, config: Config)
    requires config.policy.Valid()
    ensures forall r :: r in L.Next(t, s, config).proposals ==> r in t.proposals || r in t.raws
  {
    SourceHistory.NextGrowsSources(t, s, config);
  }

  /** Raw events and proposals accumulated by one ledger step, with the notes still in order. */
  lemma GrownKeepsLinked(sys: System, sys': System, s: L.Step, env: Env)
    requires Linked(sys, env) && sys' == sys.(tables := sys'.tables)
    requires SourceHistory.SourcesGrow(sys.tables, sys'.tables, s)
    requires forall r :: r in sys'.tables.proposals ==> r in sys.tables.proposals || r in sys.tables.raws
    requires forall owner, id :: NoteOk(sys', env, owner, id)
    ensures Linked(sys', env)
  {
    forall token ensures WorkOk(sys', env, token) { assert WorkOk(sys, env, token); }
    forall id ensures ResultOk(sys', env, id) { assert ResultOk(sys, env, id); }
    forall r ensures ProposalHasRaw(sys', r) { assert ProposalHasRaw(sys, r); }
  }

  // ---------------------------------------------------------------- the worker's steps

  /** A replay delivers what is already stored, so it never meets other content under its identity. */
  lemma ReplayNeverConflicts(sys: System, token: J.Token, env: Env)
    requires Linked(sys, env) && token in sys.works
    ensures var w := sys.works[token];
            match NoteEnvelope(w.payload, w.id, env)
            case None => true
            case Some(e) => L.StoreRaw(sys.tables, NoteConnection(w.owner), e) != Failure(R.ContentMismatch)
  {
    var w := sys.works[token];
    assert WorkOk(sys, env, token) && NoteOk(sys, env, w.owner, w.id);
  }

  lemma StoreKeepsInv(sys: System, token: J.Token, env: Env)
    requires Inv(sys, env) && env.Valid() && token in sys.works
    ensures Inv(StoreNote(sys, token, env), env)
  {
    var w, sys' := sys.works[token], StoreNote(sys, token, env);
    var envelope := NoteEnvelope(w.payload, w.id, env);
    assert WorkOk(sys, env, token);
    if envelope.Some? && L.StoreRaw(sys.tables, NoteConnection(w.owner), envelope.value).Success? {
      var s := L.StoreStep(NoteConnection(w.owner), envelope.value);
      Lockstep.NextKeepsInv(sys.tables, s, env.config);
      SourceHistory.NextGrowsSources(sys.tables, s, env.config);
      NewProposalHasRaw(sys.tables, s, env.config);
      forall owner, id ensures NoteOk(sys', env, owner, id) {
        assert NoteOk(sys, env, owner, id);
        SameKey(owner, id, w.owner, w.id, env);
      }
      GrownKeepsLinked(sys, sys', s, env);
    } else {
      WorksKeepLinked(sys, sys', token, env);
    }
  }

  lemma SameKey(owner: nat, id: J.JobId, owner': nat, id': J.JobId, env: Env)
    requires env.Valid()
    ensures NoteKey(owner, id, env) == NoteKey(owner', id', env) ==> owner == owner' && id == id'
  {
    if NoteKey(owner, id, env) == NoteKey(owner', id', env) {
      assert ("manual:" + env.names(id))[7..] == env.names(id) && ("manual:" + env.names(id'))[7..] == env.names(id');
    }
  }

  lemma ExtractKeepsInv(sys: System, token: J.Token, e: Event, env: Env)
    requires Inv(sys, env) && env.Valid() && token in sys.works
    ensures Inv(CommitExtraction(sys, token, e, env), env)
  {
    var w, sys' := sys.works[token], CommitExtraction(sys, token, e, env);
    var s := L.ExtractStep(NoteKey(w.owner, w.id, env), e);
    assert WorkOk(sys, env, token);
    var mid := sys.(tables := L.Next(sys.tables, s, env.config));
    LedgerKeepsInv(sys, s, env);
    assert WorkOk(mid, env, token);
    WorksKeepLinked(mid, sys', token, env);
  }

  lemma CompleteKeepsInv(sys: System, token: J.Token, delay: real, env: Env)
    requires Inv(sys, env) && env.Valid() && token in sys.works
    ensures Inv(Complete(sys, token, delay), env)
  {
    var w := sys.works[token];
    if w.result.Some? {
      ReportKeepsInv(sys, token, J.Report(w.result, None, false), delay, env);
    } else if w.failure.Some? {
      ReportKeepsInv(sys, token, J.Report(None, Some(w.failure.value.0), w.failure.value.1), delay, env);
    }
  }

  lemma ReportKeepsInv(sys: System, token: J.Token, report: J.Report, delay: real, env: Env)
    requires Inv(sys, env) && env.Valid() && token in sys.works
    requires report.result.Some? ==> report.result == sys.works[token].result
    ensures Inv(sys.(queue := J.Finish(sys.queue, sys.works[token].owner, sys.works[token].id, token, report, delay)),
              env)
  {
    JobRuns.FinishKeepsInv(sys.queue, sys.works[token].owner, sys.works[token].id, token, report, delay, env.settings);
    FinishKeepsLinked(sys, token, report, delay, env);
  }

  lemma FinishKeepsLinked(sys: System, token: J.Token, report: J.Report, delay: real, env: Env)
    requires Linked(sys, env) && token in sys.works
    requires report.result.Some? ==> report.result == sys.works[token].result
    ensures Linked(sys.(queue := J.Finish(sys.queue, sys.works[token].owner, sys.works[token].id, token, report,
              delay)), env)
  {
    var w := sys.works[token];
    var sys' := sys.(queue := J.Finish(sys.queue, w.owner, w.id, token, report, delay));
    assert WorkOk(sys, env, token);
    forall other ensures WorkOk(sys', env, other) { assert WorkOk(sys, env, other); }
    forall owner, id ensures NoteOk(sys', env, owner, id) { assert NoteOk(sys, env, owner, id); }
    forall r ensures ProposalHasRaw(sys', r) { assert ProposalHasRaw(sys, r); }
    forall id ensures ResultOk(sys', env, id) { assert ResultOk(sys, env, id); }
  }

  lemma FailKeepsInv(sys: System, token: J.Token, code: string, retryable: bool, recorded: Option<string>, env: Env)
    requires Inv(sys, env) && env.Valid() && token in sys.works
    ensures Inv(FailWork(sys, token, code, retryable, recorded, env), env)
  {
    var mid := sys;
    if recorded.Some? {
      var s := L.ExtractionFailedStep(NoteKey(sys.works[token].owner, sys.works[token].id, env), recorded.value);
      mid := sys.(tables := L.Next(sys.tables, s, env.config));
      LedgerKeepsInv(sys, s, env);
    }
    assert WorkOk(mid, env, token);
    WorksKeepLinked(mid, FailWork(sys, token, code, retryable, recorded, env), token, env);
  }

  lemma ReuseKeepsInv(sys: System, token: J.Token, env: Env)
    requires Inv(sys, env) && token in sys.works
    ensures Inv(ReuseProposal(sys, token, env), env)
  {
    assert WorkOk(sys, env, token);
    WorksKeepLinked(sys, ReuseProposal(sys, token, env), token, env);
  }

  lemma ActKeepsInv(sys: System, token: J.Token, act: Act, env: Env)
    requires Inv(sys, env) && env.Valid() && token in sys.works
    ensures Inv(ActOn(sys, token, act, env), env)
  {
    var w := sys.works[token];
    var r := NoteKey(w.owner, w.id, env);
    match act {
      case StoreAct => StoreKeepsInv(sys, token, env);
      case ProcessAct(scan) => LedgerKeepsInv(sys, L.ProcessStep(r, scan), env);
      case ReuseAct => ReuseKeepsInv(sys, token, env);
      case ExtractAct(event) => ExtractKeepsInv(sys, token, event, env);
      case FailAct(code, retryable, recorded) => FailKeepsInv(sys, token, code, retryable, recorded, env);
      case CompleteAct(delay) => CompleteKeepsInv(sys, token, delay, env);
    }
  }

  lemma NextKeepsInv(sys: System, s: Step, env: Env)
    requires Inv(sys, env) && env.Valid()
    ensures Inv(Next(sys, s, env), env)
  {
    match s {
      case QueueStep(step) => if !step.TakeStep? && !step.FinishStep? { QueueKeepsInv(sys, step, env); }
      case ClaimStep(retryAt, locked, choice, token) => ClaimKeepsInv(sys, retryAt, locked, choice, token, env);
      case LedgerStep(change) => if Foreign(change, env) { LedgerKeepsInv(sys, change, env); }
      case WorkStep(token, act) => if token in sys.works { ActKeepsInv(sys, token, act, env); }
    }
  }

  lemma {:induction false} RunKeepsInv(sys: System, steps: seq<Step>, env: Env)
    requires Inv(sys, env) && env.Valid()
    ensures Inv(Run(sys, steps, env), env)
    decreases |steps|
  {
    if steps != [] {
      NextKeepsInv(sys, steps[0], env);
      RunKeepsInv(Next(sys, steps[0], env), steps[1..], env);
    }
  }

  // ---------------------------------------------------------------- one job, one raw event, one proposal

  /** The step is by a worker of job `id`. */
  predicate ByWorkerOf(sys: System, s: Step, id: J.JobId)
  {
    s.WorkStep? && s.token in sys.works && sys.works[s.token].id == id
  }

  function Count(b: bool): nat { if b then 1 else 0 }

  /** How many steps of job `id`'s workers change the stored raw events, whatever the key. */
  ghost function RawEventsAdded(sys: System, steps: seq<Step>, env: Env, id: J.JobId): nat
    requires env.config.policy.Valid()
    decreases |steps|
  {
    if steps == [] then 0
    else
      var sys' := Next(sys, steps[0], env);
      Count(ByWorkerOf(sys, steps[0], id) && sys'.tables.raws != sys.tables.raws)
          + RawEventsAdded(sys', steps[1..], env, id)
  }

  /** How many steps of job `id`'s workers create a proposal. */
  ghost function ProposalsAdded(sys: System, steps: seq<Step>, env: Env, id: J.JobId): nat
    requires env.config.policy.Valid()
    decreases |steps|
  {
    if steps == [] then 0
    else
      var sys' := Next(sys, steps[0], env);
      Count(ByWorkerOf(sys, steps[0], id) && sys'.tables.proposals.Keys != sys.tables.proposals.Keys)
        + ProposalsAdded(sys', steps[1..], env, id)
  }

  predicate Stored(sys: System, env: Env, id: J.JobId)
  {
    id in sys.queue.jobs && NoteKey(sys.queue.jobs[id].owner, id, env) in sys.tables.raws
  }

  predicate Proposed(sys: System, env: Env, id: J.JobId)
  {
    id in sys.queue.jobs && NoteKey(sys.queue.jobs[id].owner, id, env) in sys.tables.proposals
  }

  /** Jobs keep their owner, raw events and proposals stay: what a job has added it has added for good. */
  ghost predicate Accumulates(sys: System, sys': System)
  {
    && (forall id :: id in sys.queue.jobs ==>
        id in sys'.queue.jobs && sys'.queue.jobs[id].owner == sys.queue.jobs[id].owner)
    && (forall r :: r in sys.tables.raws ==> r in sys'.tables.raws)
    && (forall r :: r in sys.tables.proposals ==>
        r in sys'.tables.proposals && sys'.tables.proposals[r].id == sys.tables.proposals[r].id)
  }

  lemma LedgerAccumulates(sys: System, s: L.Step, env: Env)
    requires env.config.policy.Valid()
    ensures Accumulates(sys, sys.(tables := L.Next(sys.tables, s, env.config)))
  {
    SourceHistory.NextGrowsSources(sys.tables, s, env.config);
  }

  /** A step of job `id`'s workers adds its raw event or its proposal only when there is none yet. */
  ghost predicate Adds(sys: System, sys': System, env: Env, id: J.JobId)
  {
    && Accumulates(sys, sys')
    && (sys'.tables.raws != sys.tables.raws ==> !Stored(sys, env, id) && Stored(sys', env, id))
    && (sys'.tables.proposals.Keys != sys.tables.proposals.Keys ==> !Proposed(sys, env, id) && Proposed(sys', env, id))
  }

  lemma StoreAdds(sys: System, token: J.Token, env: Env)
    requires Linked(sys, env) && token in sys.works
    ensures Adds(sys, StoreNote(sys, token, env), env, sys.works[token].id)
  {
    var w := sys.works[token];
    assert WorkOk(sys, env, token) && NoteOk(sys, env, w.owner, w.id);
  }

  lemma ExtractAdds(sys: System, token: J.Token, e: Event, env: Env)
    requires Linked(sys, env) && env.Valid() && token in sys.works
    ensures Adds(sys, CommitExtraction(sys, token, e, env), env, sys.works[token].id)
  {
    var w := sys.works[token];
    assert WorkOk(sys, env, token);
    SourceHistory.NextGrowsSources(sys.tables, L.ExtractStep(NoteKey(w.owner, w.id, env), e), env.config);
  }

  /** A ledger step by a worker that neither stores nor extracts. */
  lemma OtherActAdds(sys: System, token: J.Token, s: L.Step, env: Env)
    requires env.Valid() && token in sys.works && (s.ProcessStep? || s.ExtractionFailedStep?)
    ensures Adds(sys, sys.(tables := L.Next(sys.tables, s, env.config)), env, sys.works[token].id)
  {
    SourceHistory.NextGrowsSources(sys.tables, s, env.config);
  }

  lemma FinishAccumulates(sys: System, token: J.Token, delay: real)
    requires token in sys.works
    ensures Accumulates(sys, Complete(sys, token, delay)) && Complete(sys, token, delay).tables == sys.tables
  {
  }

  lemma ActAdds(sys: System, token: J.Token, act: Act, env: Env)
    requires Linked(sys, env) && env.Valid() && token in sys.works
    ensures Adds(sys, ActOn(sys, token, act, env), env, sys.works[token].id)
  {
    var r := NoteKey(sys.works[token].owner, sys.works[token].id, env);
    match act {
      case StoreAct => StoreAdds(sys, token, env);
      case ProcessAct(scan) => OtherActAdds(sys, token, L.ProcessStep(r, scan), env);
      case ReuseAct => assert ReuseProposal(sys, token, env).tables == sys.tables
          && ReuseProposal(sys, token, env).queue == sys.queue;
      case ExtractAct(event) => ExtractAdds(sys, token, event, env);
      case FailAct(_, _, recorded) => if recorded.Some? {
        OtherActAdds(sys, token, L.ExtractionFailedStep(r, recorded.value), env);
      }
      case CompleteAct(delay) => FinishAccumulates(sys, token, delay);
    }
  }

  lemma QueueAccumulates(sys: System, s: J.Step, sys': System, env: Env)
    requires !s.FinishStep? && sys'.queue == J.Next(sys.queue, s, env.settings) && sys'.tables == sys.tables
    ensures Accumulates(sys, sys')
  {
    QueueStepMoves(sys.queue, s, env.settings);
  }

  lemma NextAccumulates(sys: System, s: Step, env: Env)
    requires Linked(sys, env) && env.Valid()
    ensures Accumulates(sys, Next(sys, s, env))
  {
    match s {
      case QueueStep(step) => if !step.TakeStep? && !step.FinishStep? {
        QueueAccumulates(sys, step, Next(sys, s, env), env);
      }
      case ClaimStep(retryAt, locked, choice, token) =>
        QueueAccumulates(sys, J.TakeStep(retryAt, locked, choice, token),
            Claim(sys, retryAt, locked, choice, token, env), env);
      case LedgerStep(change) => if Foreign(change, env) { LedgerAccumulates(sys, change, env); }
      case WorkStep(token, act) => if token in sys.works { ActAdds(sys, token, act, env); }
    }
  }

  lemma {:induction false} JobAddsOnce(sys: System, steps: seq<Step>, env: Env, id: J.JobId)
    requires Inv(sys, env) && env.Valid()
    ensures RawEventsAdded(sys, steps, env, id) + Count(Stored(sys, env, id)) <= 1
    ensures ProposalsAdded(sys, steps, env, id) + Count(Proposed(sys, env, id)) <= 1
    decreases |steps|
  {
    if steps != [] {
      NextKeepsInv(sys, steps[0], env);
      StepAdds(sys, steps[0], env, id);
      JobAddsOnce(Next(sys, steps[0], env), steps[1..], env, id);
    }
  }

  lemma StepAdds(sys: System, s: Step, env: Env, id: J.JobId)
    requires Linked(sys, env) && env.Valid()
    ensures var sys' := Next(sys, s, env);
            && Count(Stored(sys, env, id))
                + Count(ByWorkerOf(sys, s, id) && sys'.tables.raws != sys.tables.raws) <= Count(Stored(sys', env, id))
            && Count(Proposed(sys, env, id))
                + Count(ByWorkerOf(sys, s, id) && sys'.tables.proposals.Keys != sys.tables.proposals.Keys)
                 <= Count(Proposed(sys', env, id))
  {
    NextAccumulates(sys, s, env);
    if ByWorkerOf(sys, s, id) { ActAdds(sys, s.token, s.act, env); }
  }

  /**
   * Over every run from the empty system, a job's workers add at most one raw event and at most one
   * proposal. If the job succeeded, its stored result is the proposal of its own raw event, and it names
   * the same proposal as every other attempt at the job that got as far as a result.
   */
  lemma JobIsIdempotent(steps: seq<Step>, env: Env, id: J.JobId)
    requires env.Valid()
    ensures RawEventsAdded(EMPTY, steps, env, id) <= 1 && ProposalsAdded(EMPTY, steps, env, id) <= 1
    ensures var sys := Run(EMPTY, steps, env);
            id in sys.queue.jobs && sys.queue.jobs[id].status == J.Succeeded ==>
              && sys.queue.jobs[id].result.Some?
              && ProposalIs(sys.tables, NoteKey(sys.queue.jobs[id].owner, id, env), sys.queue.jobs[id].result.value)
              && forall token :: token in sys.works && sys.works[token].id == id && sys.works[token].result.Some?
                   ==> sys.works[token].result == sys.queue.jobs[id].result
  {
    EmptyInv(env);
    JobAddsOnce(EMPTY, steps, env, id);
    RunKeepsInv(EMPTY, steps, env);
    var sys := Run(EMPTY, steps, env);
    assert ResultOk(sys, env, id);
    forall token |
      && token in sys.works && sys.works[token].id == id && sys.works[token].result.Some?
      && id in sys.queue.jobs && sys.queue.jobs[id].status == J.Succeeded
      ensures sys.works[token].result == sys.queue.jobs[id].result
    {
      assert WorkOk(sys, env, token);
    }
  }

  /** Two jobs never succeed with the same proposal. */
  lemma ResultsAreDistinct(steps: seq<Step>, env: Env, i: J.JobId, j: J.JobId)
    requires env.Valid() && i != j
    ensures var jobs := Run(EMPTY, steps, env).queue.jobs;
            i in jobs && j in jobs && jobs[i].status == J.Succeeded && jobs[j].status == J.Succeeded ==>
                jobs[i].result != jobs[j].result
  {
    EmptyInv(env);
    RunKeepsInv(EMPTY, steps, env);
    var sys := Run(EMPTY, steps, env);
    assert ResultOk(sys, env, i) && ResultOk(sys, env, j);
    if i in sys.queue.jobs && j in sys.queue.jobs {
      SameKey(sys.queue.jobs[i].owner, i, sys.queue.jobs[j].owner, j, env);
    }
  }

  /** A worker's lease that is over completes nothing: neither the queue nor the ledger changes. */
  lemma StaleWorkerCompletesNothing(sys: System, token: J.Token, delay: real)
    requires token in sys.works && JobHistory.Spent(sys.queue, token)
    ensures Complete(sys, token, delay) == sys
  {
    var w := sys.works[token];
    if w.id in sys.queue.jobs { assert !JobHistory.LiveOn(sys.queue.jobs[w.id], token, sys.queue.clock); }
  }
}
