/**
 * The services as one object over mutable tables, statement by statement. Every public method is one
 * database transaction: it is proved to commit exactly its specification in Ledger, or to leave every
 * table as it was, so the run theorems of Lockstep and Provenance are theorems about this object.
 */
module LedgerService {
  import opened Wrappers
  import opened Domain
  import opened Rows
  import opened Candidates
  import L = Ledger
  import Lockstep
  import Scoring

  class Store {
    var raws: map<RawKey, Payload>
    var processing: map<RawKey, Processing>
    var attempts: map<RawKey, nat>
    var norms: map<NormKey, Event>
    var evidence: map<NormKey, TxId>
    var cases: map<NormKey, Case>
    var proposals: map<RawKey, Proposal>
    var txs: map<TxId, Transaction>
    var nextTx: TxId
    var nextProposal: nat

    function Snapshot(): Tables
      reads this
    {
      Tables(raws, processing, attempts, norms, evidence, cases, proposals, txs, nextTx, nextProposal)
    }

    ghost predicate Valid()
      reads this
    {
      Lockstep.Inv(Snapshot())
    }

    constructor ()
      ensures Snapshot() == EMPTY && Valid()
    {
      raws, processing, attempts, norms := map[], map[], map[], map[];
      evidence, cases, proposals, txs, nextTx, nextProposal := map[], map[], map[], map[], 0, 0;
      new;
      Lockstep.EmptyInv();
    }

    method Rollback(t: Tables)
      modifies this
      ensures Snapshot() == t
    {
      raws, processing, attempts, norms := t.raws, t.processing, t.attempts, t.norms;
      evidence, cases, proposals := t.evidence, t.cases, t.proposals;
      txs, nextTx, nextProposal := t.txs, t.nextTx, t.nextProposal;
    }

    /** Inside a transaction: an error says what the specification says, and success reaches its tables. */
    predicate Reaches(spec: Result<Tables, Error>, error: Option<Error>)
      reads this
    {
      match spec case Success(t) => error.None? && Snapshot() == t case Failure(e) => error == Some(e)
    }

    /** At the end of a transaction: an error has also rolled every table back. */
    predicate Commits(before: Tables, spec: Result<Tables, Error>, error: Option<Error>)
      reads this
    {
      Snapshot() == L.Committed(before, spec) && error == match spec case Success(_) => None case Failure(e) => Some(e)
    }

    // -------------------------------------------------------------- statements

    method SetState(r: RawKey, state: RawState, error: string)
      modifies this`processing
      ensures Snapshot() == Rows.SetState(old(Snapshot()), r, state, error)
    {
      processing := processing[r := Processing(state, error)];
    }

    /** Checks the state machine's edge, then moves along it. */
    method Transition(r: RawKey, state: RawState, code: string) returns (error: Option<Error>)
      requires r in processing
      modifies this`processing
      ensures Reaches(
        if CanTransition(old(processing)[r].state, state) then Success(Rows.SetState(old(Snapshot()), r, state, code))
        else Failure(InvalidStateTransition), error)
    {
      if !CanTransition(processing[r].state, state) { return Some(InvalidStateTransition); }
      processing := processing[r := processing[r].(state := state)];
      processing := processing[r := processing[r].(error := code)];
      return None;
    }

    method CreateTransaction(tx: Transaction) returns (x: TxId)
      modifies this`txs, this`nextTx
      ensures x == old(nextTx) && Snapshot() == Rows.CreateTransaction(old(Snapshot()), tx)
    {
      x := nextTx;
      txs := txs[x := tx];
      nextTx := nextTx + 1;
    }

    method AddEvidence(k: NormKey, x: TxId) returns (error: Option<Error>)
      modifies this`evidence
      ensures Reaches(Rows.AddEvidence(old(Snapshot()), k, x), error)
    {
      if k in evidence || k !in norms || !Owned(Snapshot(), k.Owner(), x) { return Some(ConstraintViolation); }
      evidence := evidence[k := x];
      return None;
    }

    method CreateCase(k: NormKey, outcome: Scoring.Outcome, status: CaseStatus, resulting: Option<TxId>,
            action: ActionKind)
      returns (error: Option<Error>)
      modifies this`cases
      ensures Reaches(Rows.CreateCase(old(Snapshot()), k, outcome, status, resulting, action), error)
    {
      var c := Case(outcome.candidate, resulting, outcome.decision, status, [Action(action, None, resulting)]);
      if k in cases || k !in norms || !OwnedIfAny(Snapshot(), k.Owner(), c.candidate)
         || !OwnedIfAny(Snapshot(), k.Owner(), resulting) || !CaseChecks(c)
      {
        return Some(ConstraintViolation);
      }
      cases := cases[k := c];
      return None;
    }

    /** Assigns a case's columns one by one; the check constraints apply when the row is flushed. */
    method DecideCase(k: NormKey, status: CaseStatus, resulting: TxId, action: Action) returns (error: Option<Error>)
      requires k in cases
      modifies this`cases
      ensures Reaches(Rows.UpdateCase(old(Snapshot()), k, status, resulting, action), error)
    {
      cases := cases[k := cases[k].(status := status)];
      cases := cases[k := cases[k].(resulting := Some(resulting))];
      cases := cases[k := cases[k].(actions := cases[k].actions + [action])];
      if !CaseChecks(cases[k]) || !Owned(Snapshot(), k.Owner(), resulting) { return Some(ConstraintViolation); }
      return None;
    }

    method AttachEvidence(k: NormKey, x: TxId, outcome: Scoring.Outcome, status: CaseStatus, action: ActionKind)
      returns (error: Option<Error>)
      modifies this
      ensures Reaches(L.Attach(old(Snapshot()), k, x, outcome, status, action), error)
    {
      error := AddEvidence(k, x);
      if error.Some? { return; }
      error := CreateCase(k, outcome, status, Some(x), action);
    }

    // -------------------------------------------------------------- the coordinator

    method ReconcileTransaction(k: NormKey, tx: Transaction, scan: Scan, config: Config)
      returns (error: Option<Error>, target: Option<TxId>)
      requires k in norms && config.policy.Valid()
      modifies this
      ensures match L.Reconcile(old(Snapshot()), k, tx, scan, config)
              case Success((t, x)) => error.None? && target == x && Snapshot() == t
              case Failure(e) => error == Some(e)
    {
      target := None;
      var outcome := Outcome(Snapshot(), k.Owner(), norms[k], scan, config);
      if outcome.decision == Merge {
        if outcome.candidate.None? { return Some(CandidateRequired), None; }
        var candidate := outcome.candidate.value;
        if !Owned(Snapshot(), k.Owner(), candidate) { return Some(NotFound), None; }
        if !CandidateStillValid(txs[candidate], norms[k]) { return Some(CandidateChanged), None; }
        error := AttachEvidence(k, candidate, outcome, Merged, AutoMerged);
        target := Some(candidate);
      } else if outcome.decision == PossibleDuplicate {
        error := CreateCase(k, outcome, PendingReview, None, CandidateFlagged);
      } else {
        var x := CreateTransaction(tx);
        error := AttachEvidence(k, x, outcome, KeptSeparate, CreatedNew);
        target := Some(x);
      }
    }

    // -------------------------------------------------------------- ingestion

    method StoreRawEvent(connection: Connection, e: Envelope) returns (error: Option<Error>)
      modifies this
      ensures Commits(old(Snapshot()), L.StoreRaw(old(Snapshot()), connection, e), error)
    {
      var r := RawKey(connection, L.IdentityOf(e));
      if !e.storable { return Some(InvalidSourcePayload); }
      if r in raws && raws[r] != e.content { return Some(ContentMismatch); }
      if Known(Snapshot(), r) { return None; }
      raws := raws[r := e.content];
      processing := processing[r := Processing(Received, "")];
      attempts := attempts[r := 0];
      return None;
    }

    method MarkFailed(r: RawKey, code: string) returns (error: Option<Error>)
      modifies this
      ensures Reaches(L.MarkFailed(old(Snapshot()), r, code), error)
    {
      if !Known(Snapshot(), r) { return Some(NotFound); }
      if Terminal(processing[r].state) { return None; }
      error := Transition(r, RawState.Failed, code);
      if error.Some? { return; }
      attempts := attempts[r := attempts[r] + 1];
    }

    method PostOrQueueReview(k: NormKey, scan: Scan, config: Config) returns (error: Option<Error>)
      requires k in norms && k.raw in processing && config.policy.Valid()
      modifies this
      ensures Reaches(L.PostOrQueue(old(Snapshot()), k, scan, config), error)
    {
      var e := norms[k];
      if !e.kind.TransactionEvent? || e.amount.None? || e.currency.None? || e.occurredAt.None? {
        error := Transition(k.raw, NeedsReview, "REVIEW_REQUIRED");
        return;
      }
      var command := ParseTransaction(k.Owner(), e);
      if command.None? {
        error := Transition(k.raw, NeedsReview, "LEDGER_VALIDATION_REVIEW");
        return;
      }
      var target;
      error, target := ReconcileTransaction(k, command.value, scan, config);
      if error.Some? { return; }
      if target.None? {
        error := Transition(k.raw, NeedsReview, "POSSIBLE_DUPLICATE");
      } else {
        error := Transition(k.raw, Processed, "");
      }
    }

    method ProcessNormalized(r: RawKey, e: Event, scan: Scan, config: Config) returns (error: Option<Error>)
      requires config.policy.Valid()
      modifies this
      ensures Reaches(L.ProcessNormalized(old(Snapshot()), r, e, scan, config), error)
    {
      if !Known(Snapshot(), r) { return Some(NotFound); }
      if Terminal(processing[r].state) { return None; }
      error := StoreNormalized(r, e);
      if error.Some? { return; }
      error := PostOrQueueReview(NormKey(r, Connector), scan, config);
    }

    /** Counts the attempt, stores the normalized event and moves the locked row to NORMALIZED. */
    method StoreNormalized(r: RawKey, e: Event) returns (error: Option<Error>)
      requires Known(Snapshot(), r)
      modifies this
      ensures Reaches(
        if old(processing)[r].state != Normalized && !CanTransition(old(processing)[r].state, Normalized)
            then Failure(InvalidStateTransition)
        else Success(Lockstep.Prepared(old(Snapshot()), r, e)), error)
    {
      attempts := attempts[r := attempts[r] + 1];
      var k := NormKey(r, Connector);
      if k !in norms { norms := norms[k := e]; }
      if processing[r].state != Normalized {
        error := Transition(r, Normalized, "");
        if error.Some? { return; }
      }
      SetState(r, processing[r].state, "");
      return None;
    }

    /** What a delivery commits after its event is stored. */
    method ProcessEvent(r: RawKey, scan: Scan, config: Config) returns (error: Option<Error>)
      requires config.policy.Valid()
      modifies this
      ensures Commits(old(Snapshot()), L.Process(old(Snapshot()), r, scan, config), error)
    {
      var before := Snapshot();
      if !Known(before, r) { return Some(NotFound); }
      var normalized := L.Normalize(raws[r]);
      if normalized.None? {
        error := MarkFailed(r, "INVALID_NORMALIZED_EVENT");
      } else {
        error := ProcessNormalized(r, normalized.value, scan, config);
      }
      if error.Some? { Rollback(before); }
    }

    // -------------------------------------------------------------- proposals

    method ExtractRawEvent(r: RawKey, e: Event) returns (error: Option<Error>)
      modifies this
      ensures Commits(old(Snapshot()), L.Extract(old(Snapshot()), r, e), error)
    {
      if !Known(Snapshot(), r) { return Some(NotFound); }
      if !raws[r].Note? || L.Blank(raws[r].text) { return Some(TextNotAvailable); }
      if r !in proposals {
        proposals := proposals[r := Proposal(nextProposal, e, AwaitingReview, NoTarget)];
        nextProposal := nextProposal + 1;
      }
      SetState(r, processing[r].state, "");
      return None;
    }

    method RecordExtractionFailure(r: RawKey, code: string) returns (error: Option<Error>)
      modifies this
      ensures Commits(old(Snapshot()), L.ExtractionFailed(old(Snapshot()), r, code), error)
    {
      if !Known(Snapshot(), r) { return Some(NotFound); }
      SetState(r, processing[r].state, code);
      return None;
    }

    method SetProposal(r: RawKey, status: ProposalStatus, target: Target)
      requires r in proposals
      modifies this`proposals
      ensures Snapshot() == Rows.SetProposal(old(Snapshot()), r, status, target)
    {
      proposals := proposals[r := proposals[r].(target := target)];
      proposals := proposals[r := proposals[r].(status := status)];
    }

    method Reject(user: nat, r: RawKey) returns (error: Option<Error>)
      modifies this
      ensures Commits(old(Snapshot()), L.Reject(old(Snapshot()), user, r), error)
    {
      if !L.Reviewable(Snapshot(), user, r) || !Known(Snapshot(), r) { return Some(NotFound); }
      if proposals[r].status != AwaitingReview { return Some(AlreadyReviewed); }
      SetProposal(r, ProposalStatus.Rejected, NoTarget);
      SetState(r, processing[r].state, "USER_REJECTED");
      return None;
    }

    method FinishApproval(r: RawKey, target: Target) returns (error: Option<Error>)
      requires r in proposals && r in processing
      modifies this
      ensures Reaches(L.FinishApproval(old(Snapshot()), r, target), error)
    {
      error := Transition(r, Processed, "");
      if error.Some? { return; }
      SetProposal(r, ProposalStatus.Approved, target);
    }

    method ApproveTransaction(r: RawKey, e: Event, scan: Scan, config: Config)
      returns (error: Option<Error>, target: Option<TxId>)
      requires NormKey(r, Prompt) in norms && config.policy.Valid()
      modifies this
      ensures match L.ApproveTransaction(old(Snapshot()), r, e, scan, config)
              case Success((t, x)) => error.None? && target == x && Snapshot() == t
              case Failure(f) => error == Some(f)
    {
      if e.amount.None? || e.currency.None? || e.occurredAt.None? { return Some(FieldsRequired), None; }
      var command := ParseTransaction(r.Owner(), e);
      if command.None? { return Some(InvalidCommand), None; }
      error, target := ReconcileTransaction(NormKey(r, Prompt), command.value, scan, config);
    }

    method ApproveAndPost(r: RawKey, e: Event, scan: Scan, config: Config) returns (error: Option<Error>)
      requires r in proposals && r in processing && NormKey(r, Prompt) in norms && config.policy.Valid()
      modifies this
      ensures Reaches(
        (match L.ApproveTransaction(old(Snapshot()), r, e, scan, config)
         case Failure(f) => Failure(f)
         case Success((t, None)) =>
           Success(Rows.SetState(Rows.SetProposal(t, r, AwaitingReconciliation, NoTarget), r, t.processing[r].state,
               "POSSIBLE_DUPLICATE"))
         case Success((t, Some(x))) => L.FinishApproval(t, r, TransactionTarget(x))), error)
    {
      var target;
      error, target := ApproveTransaction(r, e, scan, config);
      if error.Some? { return; }
      if target.Some? {
        error := FinishApproval(r, TransactionTarget(target.value));
      } else {
        SetProposal(r, AwaitingReconciliation, NoTarget);
        SetState(r, processing[r].state, "POSSIBLE_DUPLICATE");
      }
    }

    method ApproveLocked(user: nat, r: RawKey, scan: Scan, other: Option<nat>, config: Config)
            returns (error: Option<Error>)
      requires config.policy.Valid()
      modifies this
      ensures Reaches(L.Approve(old(Snapshot()), user, r, scan, other, config), error)
    {
      if !L.Reviewable(Snapshot(), user, r) || !Known(Snapshot(), r) { return Some(NotFound); }
      if proposals[r].status != AwaitingReview { return Some(AlreadyReviewed); }
      var e := proposals[r].event;
      var k := NormKey(r, Prompt);
      if k !in norms { norms := norms[k := e.(identifiers := [])]; }
      match e.kind {
        case TransactionEvent(_) => error := ApproveAndPost(r, e, scan, config);
        case UnknownEvent => error := Some(KindNotApprovable);
        case _ =>
          if other.None? { return Some(ObligationRejected); }
          error := FinishApproval(r, OtherTarget(other.value));
      }
    }

    method Approve(user: nat, r: RawKey, scan: Scan, other: Option<nat>, config: Config) returns (error: Option<Error>)
      requires config.policy.Valid()
      modifies this
      ensures Commits(old(Snapshot()), L.Approve(old(Snapshot()), user, r, scan, other, config), error)
    {
      var before := Snapshot();
      error := ApproveLocked(user, r, scan, other, config);
      if error.Some? { Rollback(before); }
    }

    // -------------------------------------------------------------- the owner's review

    method CompleteSource(k: NormKey, x: TxId) returns (error: Option<Error>)
      modifies this
      ensures Reaches(L.CompleteSource(old(Snapshot()), k, x), error)
    {
      var r := k.raw;
      if !Known(Snapshot(), r) { return Some(NotFound); }
      if processing[r].state != NeedsReview { return Some(SourceNotReviewable); }
      error := Transition(r, Processed, "");
      if L.ProposalInReconciliation(Snapshot(), r) {
        if proposals[r].status != AwaitingReconciliation { return Some(ProposalNotReviewable); }
        SetProposal(r, ProposalStatus.Approved, TransactionTarget(x));
      }
    }

    method ResolveCase(k: NormKey, x: TxId, status: CaseStatus, action: ActionKind) returns (error: Option<Error>)
      requires k in cases
      modifies this
      ensures Reaches(L.Resolve(old(Snapshot()), k, x, status, action), error)
    {
      error := AddEvidence(k, x);
      if error.Some? { return; }
      error := DecideCase(k, status, x, Action(action, None, Some(x)));
      if error.Some? { return; }
      error := CompleteSource(k, x);
    }

    method MergeCase(user: nat, k: NormKey) returns (error: Option<Error>)
      modifies this
      ensures Commits(old(Snapshot()), L.MergeCase(old(Snapshot()), user, k), error)
    {
      var before := Snapshot();
      if !L.CaseVisible(before, user, k) { return Some(NotFound); }
      if cases[k].status != PendingReview { return Some(CaseAlreadyResolved); }
      if cases[k].candidate.None? { return Some(CandidateRequired); }
      var candidate := cases[k].candidate.value;
      if k !in norms || !Owned(before, user, candidate) { return Some(NotFound); }
      if !CandidateStillValid(txs[candidate], norms[k]) { return Some(CandidateChanged); }
      if k in evidence { return Some(EvidenceAlreadyLinked); }
      error := ResolveCase(k, candidate, Merged, UserMerged);
      if error.Some? { Rollback(before); }
    }

    method KeepSeparate(user: nat, k: NormKey) returns (error: Option<Error>)
      modifies this
      ensures Commits(old(Snapshot()), L.KeepSeparate(old(Snapshot()), user, k), error)
    {
      var before := Snapshot();
      if !L.CaseVisible(before, user, k) { return Some(NotFound); }
      if cases[k].status != PendingReview { return Some(CaseAlreadyResolved); }
      if k in evidence { return Some(EvidenceAlreadyLinked); }
      if k !in norms { return Some(NotFound); }
      var command := ParseTransaction(user, norms[k]);
      if command.None? { return Some(InvalidCommand); }
      var x := CreateTransaction(command.value);
      error := ResolveCase(k, x, KeptSeparate, UserKeptSeparate);
      if error.Some? { Rollback(before); }
    }

    method Unmerge(user: nat, k: NormKey) returns (error: Option<Error>)
      modifies this
      ensures Commits(old(Snapshot()), L.Unmerge(old(Snapshot()), user, k), error)
    {
      var before := Snapshot();
      if !L.CaseVisible(before, user, k) { return Some(NotFound); }
      if cases[k].status != Merged { return Some(CaseNotMerged); }
      if k !in evidence || cases[k].resulting != Some(evidence[k]) { return Some(EvidenceMismatch); }
      if k !in norms { return Some(NotFound); }
      var command := ParseTransaction(user, norms[k]);
      if command.None? { return Some(InvalidCommand); }
      var x := CreateTransaction(command.value);
      var previous := evidence[k];
      evidence := evidence[k := x];
      error := DecideCase(k, Unmerged, x, Action(UserUnmerged, Some(previous), Some(x)));
      if error.None? && L.ProposalInReconciliation(Snapshot(), k.raw) {
        if proposals[k.raw].status != ProposalStatus.Approved || proposals[k.raw].target.OtherTarget? {
          error := Some(ConstraintViolation);
        } else {
          SetProposal(k.raw, ProposalStatus.Approved, TransactionTarget(x));
        }
      }
      if error.Some? { Rollback(before); }
    }

    method RecordManual(tx: Transaction) returns (error: Option<Error>)
      modifies this
      ensures Commits(old(Snapshot()), L.RecordManual(old(Snapshot()), tx), error)
    {
      if tx.amount <= 0 || tx.source != Manual { return Some(InvalidCommand); }
      var _ := CreateTransaction(tx);
      return None;
    }

    // -------------------------------------------------------------- runs

    /**
     * Any sequence of calls, with whatever their callers choose, keeps the invariant and is a run of the
     * specification.
     */
    method Execute(steps: seq<L.Step>, config: Config)
      requires Valid() && config.policy.Valid()
      modifies this
      ensures Valid() && Snapshot() == L.Run(old(Snapshot()), steps, config)
      decreases |steps|
    {
      if steps == [] { return; }
      ghost var t := Snapshot();
      Lockstep.NextKeepsInv(t, steps[0], config);
      Call(steps[0], config);
      Execute(steps[1..], config);
    }

    /** Takes one step of the specification; an error has changed nothing. */
    method Call(step: L.Step, config: Config)
      requires config.policy.Valid()
      modifies this
      ensures Snapshot() == L.Next(old(Snapshot()), step, config)
    {
      if step.MergeStep? || step.KeepSeparateStep? || step.UnmergeStep? || step.ManualStep? {
        Review(step, config);
      } else {
        Deliver(step, config);
      }
    }

    method Review(step: L.Step, config: Config)
      requires config.policy.Valid()
      requires step.MergeStep? || step.KeepSeparateStep? || step.UnmergeStep? || step.ManualStep?
      modifies this
      ensures Snapshot() == L.Next(old(Snapshot()), step, config)
    {
      if step.ManualStep? {
        var _ := RecordManual(step.tx);
      } else if step.UnmergeStep? {
        var _ := Unmerge(step.user, step.key);
      } else if step.MergeStep? {
        var _ := MergeCase(step.user, step.key);
      } else {
        var _ := KeepSeparate(step.user, step.key);
      }
    }

    method Deliver(step: L.Step, config: Config)
      requires config.policy.Valid()
      requires !(step.MergeStep? || step.KeepSeparateStep? || step.UnmergeStep? || step.ManualStep?)
      modifies this
      ensures Snapshot() == L.Next(old(Snapshot()), step, config)
    {
      var error;
      match step {
        case StoreStep(connection, envelope) => error := StoreRawEvent(connection, envelope);
        case ProcessStep(raw, scan) => error := ProcessEvent(raw, scan, config);
        case ExtractStep(raw, event) => error := ExtractRawEvent(raw, event);
        case ExtractionFailedStep(raw, code) => error := RecordExtractionFailure(raw, code);
        case ApproveStep(user, raw, scan, other) => error := Approve(user, raw, scan, other, config);
        case RejectStep(user, raw) => error := Reject(user, raw);
      }
    }
  }
}
