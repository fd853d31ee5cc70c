/**
 * The tables that ingestion, proposals and reconciliation share, and the statements that insert or
 * update one row. A Failure is a raised error: the transaction around the statement rolls back.
 */
module Rows {
  import opened Wrappers
  import opened Domain
  import Scoring

  // ---------------------------------------------------------------- rows and their unique keys

  /** A source connection, by its unique constraint. */
  datatype Connection = Connection(owner: nat, connector: string, key: string)

  /**
   * What a source delivers. A note carries extraction text and every connector that supplies such text
   * normalizes it to an unknown event; a record is normalized to an event or rejected.
   */
  datatype Payload = Note(text: string, at: Option<int>, labels: seq<string>) | Record(event: Option<Event>)

  /** `storable` says whether the payload is a JSON object within the size limit. */
  datatype Envelope = Envelope(externalId: Option<string>, content: Payload, storable: bool)

  /** Delivery identity: the provider's id, else the content itself (the hash is taken as injective). */
  datatype Identity = External(id: string) | ContentHash(content: Payload)

  datatype RawKey = RawKey(connection: Connection, identity: Identity)
  {
    function Owner(): nat { connection.owner }
  }

  // A connector and the one extraction prompt each contribute at most one normalized event to a raw event.
  datatype Origin = Connector | Prompt
  datatype NormKey = NormKey(raw: RawKey, origin: Origin)
  {
    function Owner(): nat { raw.Owner() }
  }

  datatype RawState = Received | Normalized | Processed | NeedsReview | Failed
  datatype Processing = Processing(state: RawState, error: string)

  datatype TxStatus = Pending | Posted | Voided
  datatype Source = Manual | Ingestion
  datatype Transaction = Transaction(
    owner: nat,
    amount: Money,
    currency: string,
    kind: TransactionType,
    date: int,
    description: string,
    merchant: Option<string>,
    status: TxStatus,
    source: Source)

  datatype CaseStatus = PendingReview | Merged | KeptSeparate | Unmerged
  datatype ActionKind = CandidateFlagged | AutoMerged | CreatedNew | UserMerged | UserKeptSeparate | UserUnmerged
  datatype Action = Action(kind: ActionKind, from: Option<TxId>, to: Option<TxId>)

  /** A reconciliation case together with its append-only audit actions, oldest first. */
  datatype Case = Case(
    candidate: Option<TxId>,
    resulting: Option<TxId>,
    decision: Decision,
    status: CaseStatus,
    actions: seq<Action>)

  datatype ProposalStatus = AwaitingReview | AwaitingReconciliation | Approved | Rejected
  datatype Target = NoTarget | TransactionTarget(tx: TxId) | OtherTarget(id: nat)
  datatype Proposal = Proposal(id: nat, event: Event, status: ProposalStatus, target: Target)

  datatype Tables = Tables(
    raws: map<RawKey, Payload>,
    processing: map<RawKey, Processing>,
    attempts: map<RawKey, nat>,
    norms: map<NormKey, Event>,
    evidence: map<NormKey, TxId>,
    cases: map<NormKey, Case>,
    proposals: map<RawKey, Proposal>,
    txs: map<TxId, Transaction>,
    nextTx: TxId,
    nextProposal: nat)

  const EMPTY := Tables(map[], map[], map[], map[], map[], map[], map[], map[], 0, 0)

  datatype Error =
    | NotFound
    | InvalidSourcePayload
    | ContentMismatch
    | InvalidStateTransition
    | TextNotAvailable
    | AlreadyReviewed
    | FieldsRequired
    | InvalidCommand
    | KindNotApprovable
    | ObligationRejected
    | CandidateRequired
    | CandidateChanged
    | CaseAlreadyResolved
    | CaseNotMerged
    | EvidenceAlreadyLinked
    | EvidenceMismatch
    | SourceNotReviewable
    | ProposalNotReviewable
    | ConstraintViolation  // a unique, foreign-key or check constraint refused the row

  // ---------------------------------------------------------------- processing states and proposals

  predicate Terminal(s: RawState) { s == Processed || s == NeedsReview }

  /** The declared edges of the processing state machine. */
  predicate CanTransition(from: RawState, to: RawState)
  {
    match from
    case Received => to == Normalized || to == Failed
    case Normalized => to == Processed || to == NeedsReview || to == Failed
    case Failed => to == Normalized || to == Failed
    case NeedsReview => to == Processed
    case Processed => false
  }

  function SetState(t: Tables, r: RawKey, s: RawState, error: string): Tables
  {
    t.(processing := t.processing[r := Processing(s, error)])
  }

  predicate Known(t: Tables, r: RawKey) { r in t.raws && r in t.processing && r in t.attempts }

  /** Insert-or-select on the normalized event's contract key. */
  function StoreNormalized(t: Tables, k: NormKey, e: Event): Tables
  {
    if k in t.norms then t else t.(norms := t.norms[k := e])
  }

  function SetProposal(t: Tables, r: RawKey, status: ProposalStatus, target: Target): Tables
    requires r in t.proposals
  {
    t.(proposals := t.proposals[r := t.proposals[r].(status := status, target := target)])
  }

  // ---------------------------------------------------------------- transactions, evidence, cases

  /** The validated command for a transaction event: its posted ledger row, or a rejection. */
  function ParseTransaction(owner: nat, e: Event): Option<Transaction>
  {
    if e.kind.TransactionEvent? && e.amount.Some? && e.currency.Some? && e.occurredAt.Some?
       && 0 < e.amount.value < MONEY_LIMIT && e.currency.value in SUPPORTED_CURRENCIES
       && 1 <= |e.description| <= 500 && (e.merchant.Some? ==> 1 <= |e.merchant.value| <= 160)
    then Some(Transaction(owner, e.amount.value, e.currency.value, e.kind.kind, e.occurredAt.value,
                          e.description, e.merchant, Posted, Ingestion))
    else None
  }

  function CreateTransaction(t: Tables, tx: Transaction): Tables
  {
    t.(txs := t.txs[t.nextTx := tx], nextTx := t.nextTx + 1)
  }

  predicate Owned(t: Tables, owner: nat, x: TxId) { x in t.txs && t.txs[x].owner == owner }

  predicate OwnedIfAny(t: Tables, owner: nat, x: Option<TxId>) { x.Some? ==> Owned(t, owner, x.value) }

  /** One evidence row per normalized event, pointing at a transaction of the same owner. */
  function AddEvidence(t: Tables, k: NormKey, x: TxId): Result<Tables, Error>
  {
    if k in t.evidence || k !in t.norms || !Owned(t, k.Owner(), x) then Failure(ConstraintViolation)
    else Success(t.(evidence := t.evidence[k := x]))
  }

  /** The check constraints of the case table. */
  predicate CaseChecks(c: Case)
  {
    && (match c.status
        case PendingReview => c.decision == PossibleDuplicate && c.candidate.Some? && c.resulting.None?
        case Merged => c.candidate.Some? && c.resulting == c.candidate
        case KeptSeparate => c.resulting.Some? && c.resulting != c.candidate
        case Unmerged => c.candidate.Some? && c.resulting.Some? && c.resulting != c.candidate)
    && (match c.decision
        case Merge => c.status == Merged || c.status == Unmerged
        case PossibleDuplicate => true
        case NewTransaction => c.status == KeptSeparate)
  }

  function CreateCase(t: Tables, k: NormKey, outcome: Scoring.Outcome, status: CaseStatus,
                      resulting: Option<TxId>, action: ActionKind): Result<Tables, Error>
  {
    var c := Case(outcome.candidate, resulting, outcome.decision, status, [Action(action, None, resulting)]);
    if k in t.cases || k !in t.norms || !OwnedIfAny(t, k.Owner(), c.candidate) || !OwnedIfAny(t, k.Owner(), resulting)
       || !CaseChecks(c)
    then Failure(ConstraintViolation)
    else Success(t.(cases := t.cases[k := c]))
  }

  function UpdateCase(t: Tables, k: NormKey, status: CaseStatus, resulting: TxId, action: Action): Result<Tables, Error>
    requires k in t.cases
  {
    var c := t.cases[k].(status := status, resulting := Some(resulting), actions := t.cases[k].actions + [action]);
    if !CaseChecks(c) || !Owned(t, k.Owner(), resulting) then Failure(ConstraintViolation)
    else Success(t.(cases := t.cases[k := c]))
  }

  /** The guard before evidence is attached to an existing transaction. */
  predicate CandidateStillValid(tx: Transaction, e: Event)
  {
    && tx.status == Posted
    && e.amount == Some(tx.amount)
    && e.currency == Some(tx.currency)
    && e.kind == TransactionEvent(tx.kind)
  }
}
