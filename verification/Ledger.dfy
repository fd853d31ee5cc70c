/**
 * Every database transaction of ingestion, proposal review and reconciliation, as a function from the
 * tables before to the tables after. A Failure is a raised error: the transaction rolls back.
 */
module Ledger {
  import opened Wrappers
  import opened Domain
  import opened Rows
  import opened Candidates
  import Scoring

  // ---------------------------------------------------------------- raw events

  function IdentityOf(e: Envelope): Identity
  {
    if e.externalId.Some? then External(e.externalId.value) else ContentHash(e.content)
  }

  function Normalize(content: Payload): Option<Event>
  {
    match content
    case Note(text, at, _) =>
        Some(Event(UnknownEvent, None, None, at, if |text| <= 200 then text else text[..200], None, []))
    case Record(event) => event
  }

  /** Insert-or-select on the delivery identity; a redelivery with other content is refused. */
  function StoreRaw(t: Tables, connection: Connection, e: Envelope): Result<Tables, Error>
  {
    var r := RawKey(connection, IdentityOf(e));
    if !e.storable then Failure(InvalidSourcePayload)
    else if r in t.raws && t.raws[r] != e.content then Failure(ContentMismatch)
    else if Known(t, r) then Success(t)
    else Success(t.(
      raws := t.raws[r := e.content],
      processing := t.processing[r := Processing(Received, "")],
      attempts := t.attempts[r := 0]))
  }

  function MarkFailed(t: Tables, r: RawKey, error: string): Result<Tables, Error>
  {
    if !Known(t, r) then Failure(NotFound)
    else if Terminal(t.processing[r].state) then Success(t)
    else if !CanTransition(t.processing[r].state, RawState.Failed) then Failure(InvalidStateTransition)
    else Success(SetState(t, r, RawState.Failed, error).(attempts := t.attempts[r := t.attempts[r] + 1]))
  }

  // ---------------------------------------------------------------- the reconciliation handoff

  /** The tables that belong to sources rather than to the books. */
  predicate SameSources(t: Tables, t': Tables)
  {
    && t'.raws == t.raws && t'.processing == t.processing && t'.attempts == t.attempts
    && t'.norms == t.norms && t'.proposals == t.proposals && t'.nextProposal == t.nextProposal
  }

  /** Evidence first, then the case that explains it. */
  function Attach(t: Tables, k: NormKey, x: TxId, outcome: Scoring.Outcome, status: CaseStatus, action: ActionKind)
    : (r: Result<Tables, Error>)
    ensures r.Success? ==> SameSources(t, r.value)
  {
    match AddEvidence(t, k, x)
    case Failure(e) => Failure(e)
    case Success(t1) => CreateCase(t1, k, outcome, status, Some(x), action)
  }

  /** Merge, queue for review or create, with evidence and audit. Yields the target, or None for review. */
  function Handoff(t: Tables, k: NormKey, tx: Transaction, outcome: Scoring.Outcome)
    : (r: Result<(Tables, Option<TxId>), Error>)
    requires k in t.norms
    ensures r.Success? ==> SameSources(t, r.value.0)
  {
    match outcome.decision
    case Merge =>
      if outcome.candidate.None? then Failure(CandidateRequired)
      else
        var x := outcome.candidate.value;
        if !Owned(t, k.Owner(), x) then Failure(NotFound)
        else if !CandidateStillValid(t.txs[x], t.norms[k]) then Failure(CandidateChanged)
        else
          (match Attach(t, k, x, outcome, Merged, AutoMerged)
           case Failure(e) => Failure(e)
           case Success(t') => Success((t', Some(x))))
    case PossibleDuplicate =>
      (match CreateCase(t, k, outcome, PendingReview, None, CandidateFlagged)
       case Failure(e) => Failure(e)
       case Success(t') => Success((t', None)))
    case NewTransaction =>
      match Attach(CreateTransaction(t, tx), k, t.nextTx, outcome, KeptSeparate, CreatedNew)
      case Failure(e) => Failure(e)
      case Success(t') => Success((t', Some(t.nextTx)))
  }

  /** The handoff of the ledger's own best candidate. */
  function Reconcile(t: Tables, k: NormKey, tx: Transaction, scan: Scan, config: Config)
    : (r: Result<(Tables, Option<TxId>), Error>)
    requires k in t.norms && config.policy.Valid()
    ensures r.Success? ==> SameSources(t, r.value.0)
  {
    Handoff(t, k, tx, Outcome(t, k.Owner(), t.norms[k], scan, config))
  }

  // ---------------------------------------------------------------- processing a delivery

  function QueueForReview(t: Tables, r: RawKey, code: string): Result<Tables, Error>
    requires r in t.processing
  {
    if !CanTransition(t.processing[r].state, NeedsReview) then Failure(InvalidStateTransition)
    else Success(SetState(t, r, NeedsReview, code))
  }

  /** Closes the source when the handoff found a target, and leaves it to review otherwise. */
  function Conclude(r: RawKey, handoff: Result<(Tables, Option<TxId>), Error>): Result<Tables, Error>
    requires handoff.Success? ==> r in handoff.value.0.processing
  {
    match handoff
    case Failure(error) => Failure(error)
    case Success((t, None)) => QueueForReview(t, r, "POSSIBLE_DUPLICATE")
    case Success((t, Some(_))) =>
      if !CanTransition(t.processing[r].state, Processed) then Failure(InvalidStateTransition)
      else Success(SetState(t, r, Processed, ""))
  }

  /** Posts a normalized event, or leaves it to review. */
  function PostOrQueue(t: Tables, k: NormKey, scan: Scan, config: Config): Result<Tables, Error>
    requires k in t.norms && k.raw in t.processing && config.policy.Valid()
  {
    var e := t.norms[k];
    if !e.kind.TransactionEvent? || e.amount.None? || e.currency.None? || e.occurredAt.None?
    then QueueForReview(t, k.raw, "REVIEW_REQUIRED")
    else
      match ParseTransaction(k.Owner(), e)
      case None => QueueForReview(t, k.raw, "LEDGER_VALIDATION_REVIEW")
      case Some(tx) => Conclude(k.raw, Reconcile(t, k, tx, scan, config))
  }

  /** The block under the processing row's lock, with its second terminal check. */
  function ProcessNormalized(t: Tables, r: RawKey, e: Event, scan: Scan, config: Config): Result<Tables, Error>
    requires config.policy.Valid()
  {
    if !Known(t, r) then Failure(NotFound)
    else if Terminal(t.processing[r].state) then Success(t)
    else
      var k := NormKey(r, Connector);
      var t1 := StoreNormalized(t.(attempts := t.attempts[r := t.attempts[r] + 1]), k, e);
      if t.processing[r].state != Normalized && !CanTransition(t.processing[r].state, Normalized)
          then Failure(InvalidStateTransition)
      else PostOrQueue(SetState(t1, r, Normalized, ""), k, scan, config)
  }

  /** One delivery's last transaction: normalize the content, then mark it failed or process it. */
  function Process(t: Tables, r: RawKey, scan: Scan, config: Config): Result<Tables, Error>
    requires config.policy.Valid()
  {
    if !Known(t, r) then Failure(NotFound)
    else
      match Normalize(t.raws[r])
      case None => MarkFailed(t, r, "INVALID_NORMALIZED_EVENT")
      case Some(e) => ProcessNormalized(t, r, e, scan, config)
  }

  // ---------------------------------------------------------------- proposals

  const WHITESPACE: set<char> := {' ', '\t', '\n', '\r'}

  predicate Blank(text: string) { forall c :: c in text ==> c in WHITESPACE }

  /** Insert-or-select on the proposal's unique key: the first extraction to commit is the one kept. */
  function CreateOrGet(t: Tables, r: RawKey, e: Event): Tables
  {
    if r in t.proposals then t
    else t.(proposals := t.proposals[r := Proposal(t.nextProposal, e, AwaitingReview, NoTarget)],
        nextProposal := t.nextProposal + 1)
  }

  /** Commits an extraction; `e` is whatever the model extracted this time. */
  function Extract(t: Tables, r: RawKey, e: Event): Result<Tables, Error>
  {
    if !Known(t, r) then Failure(NotFound)
    else if !t.raws[r].Note? || Blank(t.raws[r].text) then Failure(TextNotAvailable)
    else Success(SetState(CreateOrGet(t, r, e), r, t.processing[r].state, ""))
  }

  function ExtractionFailed(t: Tables, r: RawKey, code: string): Result<Tables, Error>
  {
    if !Known(t, r) then Failure(NotFound)
    else Success(SetState(t, r, t.processing[r].state, code))
  }

  predicate Reviewable(t: Tables, user: nat, r: RawKey)
  {
    r in t.proposals && r.Owner() == user
  }

  function Reject(t: Tables, user: nat, r: RawKey): Result<Tables, Error>
  {
    if !Reviewable(t, user, r) || !Known(t, r) then Failure(NotFound)
    else if t.proposals[r].status != AwaitingReview then Failure(AlreadyReviewed)
    else Success(SetState(SetProposal(t, r, ProposalStatus.Rejected, NoTarget), r, t.processing[r].state,
        "USER_REJECTED"))
  }

  function ApproveTransaction(t: Tables, r: RawKey, e: Event, scan: Scan, config: Config)
    : (res: Result<(Tables, Option<TxId>), Error>)
    requires NormKey(r, Prompt) in t.norms && config.policy.Valid()
    ensures res.Success? ==> SameSources(t, res.value.0)
  {
    if e.amount.None? || e.currency.None? || e.occurredAt.None? then Failure(FieldsRequired)
    else
      match ParseTransaction(r.Owner(), e)
      case None => Failure(InvalidCommand)
      case Some(tx) => Reconcile(t, NormKey(r, Prompt), tx, scan, config)
  }

  /**
   * `other` is the id of the receivable, payable or recurring payment that the obligation and recurring
   * repositories create for such an event, or None when they refuse it.
   */
  function Approve(t: Tables, user: nat, r: RawKey, scan: Scan, other: Option<nat>, config: Config)
    : Result<Tables, Error>
    requires config.policy.Valid()
  {
    if !Reviewable(t, user, r) || !Known(t, r) then Failure(NotFound)
    else if t.proposals[r].status != AwaitingReview then Failure(AlreadyReviewed)
    else
      var e := t.proposals[r].event;
      var t1 := StoreNormalized(t, NormKey(r, Prompt), e.(identifiers := []));
      match e.kind
      case TransactionEvent(_) =>
        (match ApproveTransaction(t1, r, e, scan, config)
         case Failure(error) => Failure(error)
         case Success((t2, None)) =>
           Success(SetState(SetProposal(t2, r, AwaitingReconciliation, NoTarget), r, t.processing[r].state,
               "POSSIBLE_DUPLICATE"))
         case Success((t2, Some(x))) => FinishApproval(t2, r, TransactionTarget(x)))
      case UnknownEvent => Failure(KindNotApprovable)
      case _ =>
        if other.None? then Failure(ObligationRejected)
        else FinishApproval(t1, r, OtherTarget(other.value))
  }

  function FinishApproval(t: Tables, r: RawKey, target: Target): Result<Tables, Error>
    requires r in t.proposals && r in t.processing
  {
    if !CanTransition(t.processing[r].state, Processed) then Failure(InvalidStateTransition)
    else Success(SetProposal(SetState(t, r, Processed, ""), r, ProposalStatus.Approved, target))
  }

  // ---------------------------------------------------------------- the owner's review of a case

  predicate CaseVisible(t: Tables, user: nat, k: NormKey) { k in t.cases && k.Owner() == user }

  /** Closes the source of a resolved case and approves the proposal that waited for it. */
  function CompleteSource(t: Tables, k: NormKey, x: TxId): Result<Tables, Error>
  {
    var r := k.raw;
    if !Known(t, r) then Failure(NotFound)
    else if t.processing[r].state != NeedsReview then Failure(SourceNotReviewable)
    else
      var t1 := SetState(t, r, Processed, "");
      if !ProposalInReconciliation(t, r) then Success(t1)
      else if t.proposals[r].status != AwaitingReconciliation then Failure(ProposalNotReviewable)
      else Success(SetProposal(t1, r, ProposalStatus.Approved, TransactionTarget(x)))
  }

  /** The proposal query of the repository sees only these two statuses. */
  predicate ProposalInReconciliation(t: Tables, r: RawKey)
  {
    && r in t.proposals
    && (t.proposals[r].status == AwaitingReconciliation || t.proposals[r].status == ProposalStatus.Approved)
  }

  function MergeCase(t: Tables, user: nat, k: NormKey): Result<Tables, Error>
  {
    if !CaseVisible(t, user, k) then Failure(NotFound)
    else if t.cases[k].status != PendingReview then Failure(CaseAlreadyResolved)
    else if t.cases[k].candidate.None? then Failure(CandidateRequired)
    else
      var x := t.cases[k].candidate.value;
      if k !in t.norms || !Owned(t, user, x) then Failure(NotFound)
      else if !CandidateStillValid(t.txs[x], t.norms[k]) then Failure(CandidateChanged)
      else if k in t.evidence then Failure(EvidenceAlreadyLinked)
      else Resolve(t, k, x, Merged, UserMerged)
  }

  function Resolve(t: Tables, k: NormKey, x: TxId, status: CaseStatus, action: ActionKind): Result<Tables, Error>
    requires k in t.cases
  {
    match AddEvidence(t, k, x)
    case Failure(e) => Failure(e)
    case Success(t1) =>
      match UpdateCase(t1, k, status, x, Action(action, None, Some(x)))
      case Failure(e) => Failure(e)
      case Success(t2) => CompleteSource(t2, k, x)
  }

  function KeepSeparate(t: Tables, user: nat, k: NormKey): Result<Tables, Error>
  {
    if !CaseVisible(t, user, k) then Failure(NotFound)
    else if t.cases[k].status != PendingReview then Failure(CaseAlreadyResolved)
    else if k in t.evidence then Failure(EvidenceAlreadyLinked)
    else if k !in t.norms then Failure(NotFound)
    else
      match ParseTransaction(user, t.norms[k])
      case None => Failure(InvalidCommand)
      case Some(tx) => Resolve(CreateTransaction(t, tx), k, t.nextTx, KeptSeparate, UserKeptSeparate)
  }

  function Unmerge(t: Tables, user: nat, k: NormKey): Result<Tables, Error>
  {
    if !CaseVisible(t, user, k) then Failure(NotFound)
    else if t.cases[k].status != Merged then Failure(CaseNotMerged)
    else if k !in t.evidence || t.cases[k].resulting != Some(t.evidence[k]) then Failure(EvidenceMismatch)
    else if k !in t.norms then Failure(NotFound)
    else
      match ParseTransaction(user, t.norms[k])
      case None => Failure(InvalidCommand)
      case Some(tx) =>
        var x := t.nextTx;
        var t1 := CreateTransaction(t, tx);
        match UpdateCase(t1.(evidence := t1.evidence[k := x]), k, Unmerged, x,
            Action(UserUnmerged, Some(t.evidence[k]), Some(x)))
        case Failure(e) => Failure(e)
        case Success(t2) =>
          if !ProposalInReconciliation(t2, k.raw) then Success(t2)
          else if t2.proposals[k.raw].status != ProposalStatus.Approved || t2.proposals[k.raw].target.OtherTarget?
          then Failure(ConstraintViolation)
          else Success(SetProposal(t2, k.raw, ProposalStatus.Approved, TransactionTarget(x)))
  }

  /** A transaction the owner enters directly. */
  function RecordManual(t: Tables, tx: Transaction): Result<Tables, Error>
  {
    if tx.amount <= 0 || tx.source != Manual then Failure(InvalidCommand) else Success(CreateTransaction(t, tx))
  }

  // ---------------------------------------------------------------- runs

  /** Every database transaction that the services can commit, with everything its caller chooses. */
  datatype Step =
    | StoreStep(connection: Connection, envelope: Envelope)
    | ProcessStep(raw: RawKey, scan: Scan)
    | ExtractStep(raw: RawKey, event: Event)
    | ExtractionFailedStep(raw: RawKey, code: string)
    | ApproveStep(user: nat, raw: RawKey, scan: Scan, other: Option<nat>)
    | RejectStep(user: nat, raw: RawKey)
    | MergeStep(user: nat, key: NormKey)
    | KeepSeparateStep(user: nat, key: NormKey)
    | UnmergeStep(user: nat, key: NormKey)
    | ManualStep(tx: Transaction)

  function Apply(t: Tables, s: Step, config: Config): Result<Tables, Error>
    requires config.policy.Valid()
  {
    match s
    case StoreStep(connection, envelope) => StoreRaw(t, connection, envelope)
    case ProcessStep(raw, scan) => Process(t, raw, scan, config)
    case ExtractStep(raw, event) => Extract(t, raw, event)
    case ExtractionFailedStep(raw, code) => ExtractionFailed(t, raw, code)
    case ApproveStep(user, raw, scan, other) => Approve(t, user, raw, scan, other, config)
    case RejectStep(user, raw) => Reject(t, user, raw)
    case MergeStep(user, key) => MergeCase(t, user, key)
    case KeepSeparateStep(user, key) => KeepSeparate(t, user, key)
    case UnmergeStep(user, key) => Unmerge(t, user, key)
    case ManualStep(tx) => RecordManual(t, tx)
  }

  /** A rolled-back transaction leaves the tables as they were. */
  function Committed(t: Tables, res: Result<Tables, Error>): Tables
  {
    match res case Success(t') => t' case Failure(_) => t
  }

  function Next(t: Tables, s: Step, config: Config): Tables
    requires config.policy.Valid()
  {
    Committed(t, Apply(t, s, config))
  }

  function Run(t: Tables, steps: seq<Step>, config: Config): Tables
    requires config.policy.Valid()
    decreases |steps|
  {
    if steps == [] then t else Run(Next(t, steps[0], config), steps[1..], config)
  }
}
