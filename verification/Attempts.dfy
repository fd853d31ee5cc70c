/**
 * What one attempt of the worker leaves in the ledger and in the queue, said of their tables: how it ends, what
 * it stored and extracted, and what becomes of the job.
 */
module Attempts {
  import opened Wrappers
  import opened Domain
  import opened Candidates
  import opened Worker
  import opened JobWorker
  import J = Jobs
  import JobHistory
  import JobOutcomes
  import JobRuns
  import L = Ledger
  import Lockstep
  import ManualNotes
  import R = Rows
  import Effects
  import Delivery
  import WorkerRuns

  // ---------------------------------------------------------------- the note

  /** The raw event of a job's note. */
  function KeyOf(w: Work, env: Env): R.RawKey
  {
    R.RawKey(R.Connection(w.owner, "manual_note", "default"), R.External("manual:" + env.names(w.id)))
  }

  /** The note as it was submitted can be stored. */
  predicate Sound(w: Work, env: Env)
  {
    var e := NoteEnvelope(w.payload, w.id, env);
    e.Some? && e.value.storable
  }

  /** The envelope is the note's display text, its time and its labels, under the job's identity. */
  lemma EnvelopeIs(w: Work, env: Env)
    ensures var text := env.rules.display(w.payload.note);
            && (NoteEnvelope(w.payload, w.id, env).Some? <==>
                  1 <= |text| <= 8000 && ManualNotes.Minimized(w.payload.labels, {}, [], env.rules).Some?)
            && (NoteEnvelope(w.payload, w.id, env).Some? ==>
                  var e := NoteEnvelope(w.payload, w.id, env).value;
                  && e.content == R.Note(text, Some(w.payload.at),
                       ManualNotes.Minimized(w.payload.labels, {}, [], env.rules).value)
                  && R.RawKey(NoteConnection(w.owner), L.IdentityOf(e)) == KeyOf(w, env))
  {
  }

  // ---------------------------------------------------------------- store and process

  /** The note is stored as submitted and waits for review, or its proposal is already decided. */
  predicate NoteDone(t: R.Tables, w: Work, env: Env)
  {
    var r, e := KeyOf(w, env), NoteEnvelope(w.payload, w.id, env);
    && e.Some? && r in t.raws && t.raws[r] == e.value.content
    && r in t.processing && (t.processing[r].state == R.NeedsReview || t.processing[r].state == R.Processed)
  }

  /** The tables after the note was stored, and whether it was. */
  lemma NoteStored(sys: System, token: J.Token, env: Env)
    requires WorkerRuns.Inv(sys, env) && env.Valid() && token in sys.works && sys.works[token].failure.None?
    ensures var w, stored := sys.works[token], ActOn(sys, token, StoreAct, env);
            && (stored.works[token].failure.None? <==> Sound(w, env))
            && (Sound(w, env) ==>
                  && stored.works[token] == w && stored.queue == sys.queue
                  && KeyOf(w, env) in stored.tables.raws
                  && stored.tables.raws[KeyOf(w, env)] == NoteEnvelope(w.payload, w.id, env).value.content
                  && stored.tables.proposals == sys.tables.proposals
                  && stored.tables.nextProposal == sys.tables.nextProposal)
            && (!Sound(w, env) ==>
                  stored ==
                    sys.(works := sys.works[token := w.(failure := Some(("EXTRACTION_REVIEW_REQUIRED", false)))]))
  {
    var w := sys.works[token];
    assert WorkerRuns.WorkOk(sys, env, token) && WorkerRuns.NoteOk(sys, env, w.owner, w.id);
    if NoteEnvelope(w.payload, w.id, env).Some? {
      Effects.StoreCommits(sys.tables, NoteConnection(w.owner), NoteEnvelope(w.payload, w.id, env).value);
    }
  }

  /** Processing a stored note leaves it in review, or done if it was. */
  lemma NoteProcessed(t: R.Tables, r: R.RawKey, scan: Scan, config: Config)
    requires Lockstep.Inv(t) && config.policy.Valid() && r in t.raws && t.raws[r].Note?
    ensures var t' := L.Next(t, L.ProcessStep(r, scan), config);
            && t'.raws == t.raws && t'.proposals == t.proposals && t'.nextProposal == t.nextProposal
            && r in t'.processing && (t'.processing[r].state == R.NeedsReview || t'.processing[r].state == R.Processed)
  {
    assert Lockstep.InStep(Lockstep.View(t, r));
    if t.processing[r].state == R.NeedsReview || t.processing[r].state == R.Processed {
      Effects.ProcessedIsDone(t, r, scan, config);
    } else {
      Effects.ProcessCommits(t, r, L.Normalize(t.raws[r]).value, scan, config);
    }
  }

  /** Stored and processed, and no proposal touched. */
  lemma NoteReady(sys: System, token: J.Token, scan: Scan, env: Env) returns (ready: System)
    requires WorkerRuns.Inv(sys, env) && env.Valid() && token in sys.works && sys.works[token].failure.None?
    requires Sound(sys.works[token], env)
    ensures ready == ActOn(ActOn(sys, token, StoreAct, env), token, ProcessAct(scan), env)
    ensures WorkerRuns.Inv(ready, env)
    ensures ready.works[token] == sys.works[token] && ready.queue == sys.queue
    ensures NoteDone(ready.tables, sys.works[token], env)
    ensures ready.tables.proposals == sys.tables.proposals && ready.tables.nextProposal == sys.tables.nextProposal
  {
    var stored := ActOn(sys, token, StoreAct, env);
    NoteStored(sys, token, env);
    WorkerRuns.ActKeepsInv(sys, token, StoreAct, env);
    NoteProcessed(stored.tables, KeyOf(sys.works[token], env), scan, env.config);
    WorkerRuns.ActKeepsInv(stored, token, ProcessAct(scan), env);
    ready := ActOn(stored, token, ProcessAct(scan), env);
  }

  // ---------------------------------------------------------------- how an attempt ends

  /** The lease has neither a result nor a failure yet. */
  predicate Fresh(sys: System, token: J.Token)
  {
    token in sys.works && sys.works[token].result.None? && sys.works[token].failure.None?
  }

  /** Not all of the note is white space. */
  predicate HasText(w: Work, env: Env)
  {
    exists c :: c in env.rules.display(w.payload.note) && c !in {' ', '\t', '\n', '\r'}
  }

  /** There is a proposal to answer with: an earlier attempt's, or the one this extraction yields. */
  predicate Answers(sys: System, w: Work, x: Extraction, env: Env)
  {
    Sound(w, env) && (KeyOf(w, env) in sys.tables.proposals || (x.Extracted? && HasText(w, env)))
  }

  /** Otherwise the attempt reports one of these, and whether it is worth another try. */
  function Reported(w: Work, x: Extraction, env: Env): (string, bool)
  {
    if !Sound(w, env) then ("EXTRACTION_REVIEW_REQUIRED", false)
    else
      match x
      case Extracted(_) => ("EXTRACTION_REVIEW_REQUIRED", false)
      case ProviderError(code) =>
        if code == "AI_PROVIDER_DISABLED" then ("AI_PROVIDER_DISABLED", false) else ("PROVIDER_UNAVAILABLE", true)
      case OutputError(_) => ("EXTRACTION_REVIEW_REQUIRED", false)
      case TimedOut => ("JOB_TIMEOUT", true)
      case DatabaseError => ("JOB_DATABASE_ERROR", true)
  }

  /** The proposal under the note's key after an attempt that answers: the earlier one, or a new one for review. */
  predicate Proposed(t: R.Tables, t': R.Tables, r: R.RawKey, x: Extraction)
  {
    && r in t'.proposals
    && (r in t.proposals ==> t'.proposals == t.proposals)
    && (r !in t.proposals ==>
          && x.Extracted?
          && t'.proposals == t.proposals[r := R.Proposal(t.nextProposal, x.event, R.AwaitingReview, R.NoTarget)])
  }

  lemma ReuseEnds(ready: System, token: J.Token, x: Extraction, env: Env)
    requires token in ready.works && KeyOf(ready.works[token], env) in ready.tables.proposals
    ensures var w, done := ready.works[token], ActOn(ready, token, ReuseAct, env);
            && LastAct(ready, token, x, env) == ReuseAct
            && done.tables == ready.tables && done.queue == ready.queue
            && done.works[token] == w.(result := Some(ready.tables.proposals[KeyOf(w, env)].id))
    requires env.config.policy.Valid()
  {
  }

  lemma ExtractEnds(ready: System, token: J.Token, e: Event, env: Env)
    requires WorkerRuns.Inv(ready, env) && env.Valid() && token in ready.works
    requires NoteDone(ready.tables, ready.works[token], env)
    requires KeyOf(ready.works[token], env) !in ready.tables.proposals
    ensures var w, r := ready.works[token], KeyOf(ready.works[token], env);
            var done := ActOn(ready, token, ExtractAct(e), env);
            && LastAct(ready, token, Extracted(e), env) == ExtractAct(e)
            && done.queue == ready.queue
            && (HasText(w, env) ==>
                  && done.works[token] == w.(result := Some(ready.tables.nextProposal))
                  && NoteDone(done.tables, w, env)
                  && done.tables.processing[r].state == ready.tables.processing[r].state
                  && var added := R.Proposal(ready.tables.nextProposal, e, R.AwaitingReview, R.NoTarget);
                     done.tables.proposals == ready.tables.proposals[r := added])
            && (!HasText(w, env) ==>
                  && done.tables == ready.tables
                  && done.works[token] == w.(failure := Some(("EXTRACTION_REVIEW_REQUIRED", false))))
  {
    var w := ready.works[token];
    EnvelopeIs(w, env);
    Effects.ExtractCommits(ready.tables, KeyOf(w, env), e);
  }

  lemma FailureEnds(ready: System, token: J.Token, x: Extraction, env: Env)
    requires WorkerRuns.Inv(ready, env) && env.Valid() && token in ready.works && !x.Extracted?
    requires NoteDone(ready.tables, ready.works[token], env) && Sound(ready.works[token], env)
    requires KeyOf(ready.works[token], env) !in ready.tables.proposals
    ensures var w, r := ready.works[token], KeyOf(ready.works[token], env);
            var done := ActOn(ready, token, FailureOf(x), env);
            && LastAct(ready, token, x, env) == FailureOf(x)
            && done.queue == ready.queue && done.works[token] == w.(failure := Some(Reported(w, x, env)))
            && NoteDone(done.tables, w, env) && done.tables.proposals == ready.tables.proposals
            && (x.ProviderError? || x.OutputError? ==> done.tables.processing[r].error == x.code)
  {
    var w := ready.works[token];
    match x {
      case ProviderError(code) =>
        if code == DISABLED { FailActEnds(ready, token, DISABLED, false, Some(code), env); }
        else { FailActEnds(ready, token, "PROVIDER_UNAVAILABLE", true, Some(code), env); }
      case OutputError(code) => FailActEnds(ready, token, "EXTRACTION_REVIEW_REQUIRED", false, Some(code), env);
      case TimedOut => FailActEnds(ready, token, "JOB_TIMEOUT", true, None, env);
      case DatabaseError => FailActEnds(ready, token, "JOB_DATABASE_ERROR", true, None, env);
    }
  }

  lemma FailActEnds(ready: System, token: J.Token, code: string, retryable: bool, recorded: Option<string>, env: Env)
    requires WorkerRuns.Inv(ready, env) && env.Valid() && token in ready.works
    requires NoteDone(ready.tables, ready.works[token], env)
    ensures var w, r := ready.works[token], KeyOf(ready.works[token], env);
            var done := ActOn(ready, token, FailAct(code, retryable, recorded), env);
            && done.queue == ready.queue && done.works[token] == w.(failure := Some((code, retryable)))
            && NoteDone(done.tables, w, env) && done.tables.proposals == ready.tables.proposals
            && (recorded.Some? ==> done.tables.processing[r].error == recorded.value)
  {
    if recorded.Some? {
      Effects.ExtractionFailedCommits(ready.tables, KeyOf(ready.works[token], env), recorded.value);
    }
  }

  /** Where the submission of a note ends when there is a proposal to answer with. */
  lemma SubmittedAnswers(sys: System, token: J.Token, scan: Scan, x: Extraction, env: Env)
    requires WorkerRuns.Inv(sys, env) && env.Valid() && Fresh(sys, token) && Answers(sys, sys.works[token], x, env)
    ensures var w, r, sys' := sys.works[token], KeyOf(sys.works[token], env), Submitted(sys, token, scan, x, env);
            && NoteDone(sys'.tables, w, env) && Proposed(sys.tables, sys'.tables, r, x) && sys'.queue == sys.queue
            && sys'.works[token] == w.(result := Some(sys'.tables.proposals[r].id))
  {
    var ready := NoteReady(sys, token, scan, env);
    SubmittedIsLast(sys, token, scan, x, env);
    if KeyOf(sys.works[token], env) in sys.tables.proposals {
      ReuseEnds(ready, token, x, env);
    } else {
      ExtractEnds(ready, token, x.event, env);
    }
  }

  /** And where it ends when there is none: with the failure, and without a proposal. */
  lemma SubmittedFails(sys: System, token: J.Token, scan: Scan, x: Extraction, env: Env)
    requires WorkerRuns.Inv(sys, env) && env.Valid() && Fresh(sys, token) && !Answers(sys, sys.works[token], x, env)
    ensures var w, r, sys' := sys.works[token], KeyOf(sys.works[token], env), Submitted(sys, token, scan, x, env);
            && sys'.works[token] == w.(failure := Some(Reported(w, x, env))) && sys'.queue == sys.queue
            && sys'.tables.proposals == sys.tables.proposals
            && (Sound(w, env) ==> NoteDone(sys'.tables, w, env))
            && (Sound(w, env) && (x.ProviderError? || x.OutputError?) ==> sys'.tables.processing[r].error == x.code)
            && (!Sound(w, env) ==> sys'.tables == sys.tables)
  {
    NoteStored(sys, token, env);
    if Sound(sys.works[token], env) {
      var ready := NoteReady(sys, token, scan, env);
      SubmittedIsLast(sys, token, scan, x, env);
      if x.Extracted? { ExtractEnds(ready, token, x.event, env); } else { FailureEnds(ready, token, x, env); }
    }
  }

  lemma SubmittedIsLast(sys: System, token: J.Token, scan: Scan, x: Extraction, env: Env)
    requires WorkerRuns.Inv(sys, env) && env.Valid() && Fresh(sys, token) && Sound(sys.works[token], env)
    ensures var ready := ActOn(ActOn(sys, token, StoreAct, env), token, ProcessAct(scan), env);
            Submitted(sys, token, scan, x, env) == ActOn(ready, token, LastAct(ready, token, x, env), env)
  {
    NoteStored(sys, token, env);
  }

  // ---------------------------------------------------------------- the job

  /**
   * An attempt at a note that can be stored, with an earlier proposal or one extracted now, leaves the note stored
   * as submitted and in review or done, and exactly one proposal under its key; and if the lease held, the job has
   * succeeded with that proposal.
   */
  lemma AttemptSucceeds(sys: System, token: J.Token, scan: Scan, x: Extraction, delay: real, env: Env)
    requires WorkerRuns.Inv(sys, env) && env.Valid() && Fresh(sys, token) && Answers(sys, sys.works[token], x, env)
    ensures var w, r, sys' := sys.works[token], KeyOf(sys.works[token], env), Attempt(sys, token, scan, x, delay, env);
            && NoteDone(sys'.tables, w, env) && Proposed(sys.tables, sys'.tables, r, x)
            && sys'.works[token].result == Some(sys'.tables.proposals[r].id)
            && (!JobOutcomes.Held(sys.queue, w.owner, w.id, token) ==> sys'.queue == sys.queue)
            && (JobOutcomes.Held(sys.queue, w.owner, w.id, token) ==>
                  && w.id in sys'.queue.jobs
                  && sys'.queue == sys.queue.(jobs := sys.queue.jobs[w.id := sys'.queue.jobs[w.id]])
                  && sys'.queue.jobs[w.id] == sys.queue.jobs[w.id].(status := J.Succeeded,
                       result := Some(sys'.tables.proposals[r].id), error := None, completedAt := Some(sys.queue.clock),
                       payload := None, leaseToken := None, leaseExpires := None))
  {
    var w, submitted := sys.works[token], Submitted(sys, token, scan, x, env);
    SubmittedAnswers(sys, token, scan, x, env);
    var report := J.Report(submitted.works[token].result, None, false);
    JobOutcomes.FinishCommits(sys.queue, w.owner, w.id, token, report, delay);
  }

  /**
   * Any other attempt adds no proposal and reports one failure; and if the lease held, the job waits for another
   * try exactly if the failure is worth one and attempts are left, and is given up otherwise.
   */
  lemma AttemptFails(sys: System, token: J.Token, scan: Scan, x: Extraction, delay: real, env: Env)
    requires WorkerRuns.Inv(sys, env) && env.Valid() && Fresh(sys, token) && !Answers(sys, sys.works[token], x, env)
    ensures var w, r, sys' := sys.works[token], KeyOf(sys.works[token], env), Attempt(sys, token, scan, x, delay, env);
            var (code, retryable) := Reported(w, x, env);
            && sys'.works[token].result == None && sys'.works[token].failure == Some((code, retryable))
            && sys'.tables.proposals == sys.tables.proposals
            && (Sound(w, env) ==> NoteDone(sys'.tables, w, env))
            && (Sound(w, env) && (x.ProviderError? || x.OutputError?) ==> sys'.tables.processing[r].error == x.code)
            && (!Sound(w, env) ==> sys'.tables == sys.tables)
            && (!JobOutcomes.Held(sys.queue, w.owner, w.id, token) ==> sys'.queue == sys.queue)
            && (JobOutcomes.Held(sys.queue, w.owner, w.id, token) ==>
                  && w.id in sys'.queue.jobs
                  && sys'.queue == sys.queue.(jobs := sys.queue.jobs[w.id := sys'.queue.jobs[w.id]])
                  && var j, released := sys.queue.jobs[w.id],
                       sys.queue.jobs[w.id].(leaseToken := None, leaseExpires := None, error := Some(code));
                     sys'.queue.jobs[w.id] ==
                       if retryable && j.attempts < j.maxAttempts then
                         released.(status := J.RetryWait, availableAt := sys.queue.clock + delay)
                       else released.(status := J.DeadLetter, completedAt := Some(sys.queue.clock)))
  {
    var w := sys.works[token];
    var (code, retryable) := Reported(w, x, env);
    SubmittedFails(sys, token, scan, x, env);
    JobOutcomes.FinishCommits(sys.queue, w.owner, w.id, token, J.Report(None, Some(code), retryable), delay);
  }

  /** The proposal that an attempt extracts is one that its owner can approve at once, if the ledger takes it. */
  lemma FreshProposalIsApprovable(sys: System, token: J.Token, scan: Scan, e: Event, delay: real, env: Env, later: Scan,
          other: Option<nat>)
    requires WorkerRuns.Inv(sys, env) && env.Valid() && Fresh(sys, token) && Effects.Postable(e)
    requires var w := sys.works[token];
             Sound(w, env) && HasText(w, env) && KeyOf(w, env) !in sys.tables.proposals
    ensures var w, sys' := sys.works[token], Attempt(sys, token, scan, Extracted(e), delay, env);
            L.Approve(sys'.tables, w.owner, KeyOf(w, env), later, other, env.config).Success?
  {
    var sys', r := Attempt(sys, token, scan, Extracted(e), delay, env), KeyOf(sys.works[token], env);
    AttemptSucceeds(sys, token, scan, Extracted(e), delay, env);
    AttemptIsRun(sys, token, scan, Extracted(e), delay, env);
    var acts := SubmitActs(sys, token, scan, Extracted(e), env) + [CompleteAct(delay)];
    WorkerRuns.RunKeepsInv(sys, StepsOf(token, acts), env);
    assert Lockstep.InStep(Lockstep.View(sys'.tables, r));
    Effects.ApproveSucceedsIff(sys'.tables, sys.works[token].owner, r, later, other, env.config);
  }

  /** A lease starts with its job's own note and nothing reported, and it holds until it expires. */
  lemma LeaseIsFresh(sys: System, retryAt: J.JobId -> J.Time, locked: set<J.JobId>, id: J.JobId, token: J.Token,
          env: Env)
    requires WorkerRuns.Inv(sys, env) && env.Valid() && sys.queue.hold.Taking? && token !in sys.queue.issued
    requires J.Choice(sys.queue, retryAt, locked, Some(id))
    ensures var sys' := Claim(sys, retryAt, locked, Some(id), token, env);
            && id in sys.queue.jobs && id in sys'.queue.jobs
            && Fresh(sys', token) && sys'.tables == sys.tables
            && sys'.works[token].id == id && sys'.works[token].owner == sys.queue.jobs[id].owner
            && sys'.works[token].payload == sys.queue.jobs[id].fingerprint
            && (sys.queue.clock < sys.queue.hold.at + env.settings.leaseSeconds as real ==>
                  JobOutcomes.Held(sys'.queue, sys.queue.jobs[id].owner, id, token))
  {
    JobHistory.LeaseIsExclusive(sys.queue, retryAt, locked, id, token, env.settings);
    assert JobRuns.JobOk(sys.queue.jobs[id], sys.queue.issued);
  }
}
