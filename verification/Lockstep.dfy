/**
 * The lockstep of a raw event's processing state, its proposal and its cases, and the proof that every
 * committed transaction keeps it together with the books.
 */
module Lockstep {
  import opened Wrappers
  import opened Domain
  import opened Rows
  import opened Candidates
  import opened Ledger
  import opened Books

  function Lookup<K, V>(m: map<K, V>, k: K): Option<V> { if k in m then Some(m[k]) else None }

  /** Everything the tables say about one raw event. */
  datatype SourceView = SourceView(
    raw: Option<Payload>,
    state: Option<RawState>,
    counted: bool,
    connectorNorm: Option<Event>,
    connectorCase: Option<Case>,
    promptNorm: Option<Event>,
    promptCase: Option<Case>,
    proposal: Option<Proposal>)

  function View(t: Tables, r: RawKey): SourceView
  {
    SourceView(
      Lookup(t.raws, r),
      if r in t.processing then Some(t.processing[r].state) else None,
      r in t.attempts,
      Lookup(t.norms, NormKey(r, Connector)),
      Lookup(t.cases, NormKey(r, Connector)),
      Lookup(t.norms, NormKey(r, Prompt)),
      Lookup(t.cases, NormKey(r, Prompt)),
      Lookup(t.proposals, r))
  }

  predicate Resolved(c: Case) { c.status != PendingReview }

  predicate Absent(v: SourceView)
  {
    v == SourceView(None, None, false, None, None, None, None, None)
  }

  /** A record reaches the ledger through its connector's case alone. */
  predicate RecordInStep(v: SourceView, event: Option<Event>, state: RawState)
  {
    && v.proposal.None? && v.promptNorm.None? && v.promptCase.None?
    && (v.connectorNorm.Some? ==> v.connectorNorm == event)
    && (state == RawState.Failed ==> event.None?)
    && (state == NeedsReview || state == Processed ==> v.connectorNorm.Some?)
    && match v.connectorCase
       case None => state != Processed
       case Some(c) => state == if Resolved(c) then Processed else NeedsReview
  }

  /** A note reaches the ledger only through its proposal, whose status moves with the prompt's case. */
  predicate NoteInStep(v: SourceView, note: Option<Event>, state: RawState)
  {
    && v.connectorCase.None?
    && (v.connectorNorm.Some? ==> v.connectorNorm == note)
    && state != RawState.Failed
    && (state == NeedsReview || state == Processed ==> v.connectorNorm.Some?)
    && match v.proposal
       case None => v.promptNorm.None? && v.promptCase.None? && state != Processed
       case Some(p) =>
         && (v.promptNorm.Some? ==> v.promptNorm == Some(p.event.(identifiers := [])))
         && (state == Processed <==> p.status == ProposalStatus.Approved)
         && match p.status
            case AwaitingReview => v.promptCase.None? && p.target.NoTarget?
            case Rejected => v.promptCase.None? && p.target.NoTarget?
            case AwaitingReconciliation => v.promptCase.Some? && !Resolved(v.promptCase.value) && p.target.NoTarget?
            case Approved =>
              match p.target
              case NoTarget => false
              case OtherTarget(_) => v.promptCase.None?
              case TransactionTarget(x) =>
                v.promptCase.Some? && Resolved(v.promptCase.value) && v.promptCase.value.resulting == Some(x)
  }

  predicate InStep(v: SourceView)
  {
    if v.raw.None? then Absent(v)
    else
      && v.state.Some? && v.counted && v.state != Some(Normalized)
      && match v.raw.value
         case Record(event) => RecordInStep(v, event, v.state.value)
         case Note(_, _, _) => NoteInStep(v, Normalize(v.raw.value), v.state.value)
  }

  ghost predicate Inv(t: Tables)
  {
    BooksOk(t) && forall r :: InStep(View(t, r))
  }

  /** The tables outside raw event `r` look the same. */
  ghost predicate OnlySource(t: Tables, t': Tables, r: RawKey)
  {
    forall s :: s != r ==> View(t', s) == View(t, s)
  }

  lemma StillInv(t: Tables, t': Tables, r: RawKey)
    requires Inv(t) && BooksOk(t') && OnlySource(t, t', r) && InStep(View(t', r))
    ensures Inv(t')
  {
    forall s ensures InStep(View(t', s)) { if s != r { assert InStep(View(t, s)); } }
  }

  // ---------------------------------------------------------------- what single statements do to the view

  /** The statement changed only raw event `r`'s view, to `v`, and kept the books. */
  ghost predicate Moves(t: Tables, t': Tables, r: RawKey, v: SourceView)
  {
    BooksOk(t') && OnlySource(t, t', r) && View(t', r) == v
  }

  lemma SetStateMoves(t: Tables, r: RawKey, s: RawState, error: string)
    requires BooksOk(t)
    ensures Moves(t, SetState(t, r, s, error), r, View(t, r).(state := Some(s)))
  {
    SourcesKeepBooks(t, SetState(t, r, s, error));
  }

  lemma CountMoves(t: Tables, r: RawKey, n: nat)
    requires BooksOk(t)
    ensures Moves(t, t.(attempts := t.attempts[r := n]), r, View(t, r).(counted := true))
  {
    SourcesKeepBooks(t, t.(attempts := t.attempts[r := n]));
  }

  lemma StorePromptMoves(t: Tables, r: RawKey, e: Event)
    requires BooksOk(t) && (NormKey(r, Prompt) in t.norms ==> t.norms[NormKey(r, Prompt)] == e)
    ensures Moves(t, StoreNormalized(t, NormKey(r, Prompt), e), r, View(t, r).(promptNorm := Some(e)))
  {
    SourcesKeepBooks(t, StoreNormalized(t, NormKey(r, Prompt), e));
  }

  lemma SetProposalMoves(t: Tables, r: RawKey, status: ProposalStatus, target: Target)
    requires BooksOk(t) && r in t.proposals
    ensures Moves(t, SetProposal(t, r, status, target), r,
                  View(t, r).(proposal := Some(t.proposals[r].(status := status, target := target))))
  {
    SourcesKeepBooks(t, SetProposal(t, r, status, target));
  }

  function WithCase(v: SourceView, origin: Origin, c: Case): SourceView
  {
    if origin == Connector then v.(connectorCase := Some(c)) else v.(promptCase := Some(c))
  }

  lemma HandedOffMoves(t: Tables, t': Tables, k: NormKey, target: Option<TxId>)
    requires BooksOk(t') && SameSources(t, t') && HandedOff(t, t', k, target)
    ensures Moves(t, t', k.raw, WithCase(View(t, k.raw), k.origin, t'.cases[k]))
  {
    forall s | s != k.raw ensures View(t', s) == View(t, s) {
      assert NormKey(s, Connector) != k && NormKey(s, Prompt) != k;
    }
  }

  // ---------------------------------------------------------------- deliveries

  lemma StoreKeepsInv(t: Tables, connection: Connection, e: Envelope)
    requires Inv(t)
    ensures StoreRaw(t, connection, e).Success? ==> Inv(StoreRaw(t, connection, e).value)
  {
    var r := RawKey(connection, IdentityOf(e));
    assert InStep(View(t, r));
    if StoreRaw(t, connection, e).Success? && r !in t.raws {
      var t' := StoreRaw(t, connection, e).value;
      SourcesKeepBooks(t, t');
      assert View(t', r) == View(t, r).(raw := Some(e.content), state := Some(Received), counted := true);
      StillInv(t, t', r);
    }
  }

  lemma FailedKeepsInv(t: Tables, r: RawKey, code: string)
    requires Inv(t) && Known(t, r) && Normalize(t.raws[r]).None?
    ensures MarkFailed(t, r, code).Success? && Inv(MarkFailed(t, r, code).value)
  {
    assert InStep(View(t, r));
    SetStateMoves(t, r, RawState.Failed, code);
    CountMoves(SetState(t, r, RawState.Failed, code), r, t.attempts[r] + 1);
    StillInv(t, MarkFailed(t, r, code).value, r);
  }

  /** What processing works on: the locked row moved to NORMALIZED, with the event stored. */
  function Prepared(t: Tables, r: RawKey, e: Event): Tables
    requires r in t.attempts
  {
    SetState(StoreNormalized(t.(attempts := t.attempts[r := t.attempts[r] + 1]), NormKey(r, Connector), e), r,
        Normalized, "")
  }

  lemma PreparedMoves(t: Tables, r: RawKey, e: Event)
    requires Inv(t) && Known(t, r) && !Terminal(t.processing[r].state) && Normalize(t.raws[r]) == Some(e)
    ensures Moves(t, Prepared(t, r, e), r, View(t, r).(state := Some(Normalized), connectorNorm := Some(e)))
    ensures NormKey(r, Connector) in Prepared(t, r, e).norms && Prepared(t, r, e).norms[NormKey(r, Connector)] == e
    ensures NormKey(r, Connector) !in t.cases
  {
    NoCaseYet(t, r, e);
    PreparingMoves(t, r, e);
  }

  lemma PreparingMoves(t: Tables, r: RawKey, e: Event)
    requires BooksOk(t) && r in t.attempts && (NormKey(r, Connector) in t.norms ==> t.norms[NormKey(r, Connector)] == e)
    ensures Moves(t, Prepared(t, r, e), r, View(t, r).(connectorNorm := Some(e), state := Some(Normalized)))
  {
    Preparing(t, r, e);
    PreparedViews(t, Prepared(t, r, e), r, e);
    SourcesKeepBooks(t, Prepared(t, r, e));
  }

  /** The three columns that preparing writes, and nothing else. */
  ghost predicate OnlyPrepared(t: Tables, t': Tables, r: RawKey, e: Event)
  {
    && t'.raws == t.raws && t'.evidence == t.evidence && t'.cases == t.cases && t'.proposals == t.proposals
    && t'.txs == t.txs && t'.nextTx == t.nextTx
    && t'.attempts.Keys == t.attempts.Keys
    && t'.processing == t.processing[r := Processing(Normalized, "")]
    && t'.norms == if NormKey(r, Connector) in t.norms then t.norms else t.norms[NormKey(r, Connector) := e]
  }

  lemma Preparing(t: Tables, r: RawKey, e: Event)
    requires r in t.attempts
    ensures OnlyPrepared(t, Prepared(t, r, e), r, e)
  {
    assert t.attempts[r := t.attempts[r] + 1].Keys == t.attempts.Keys;
  }

  lemma PreparedViews(t: Tables, t': Tables, r: RawKey, e: Event)
    requires OnlyPrepared(t, t', r, e) && (NormKey(r, Connector) in t.norms ==> t.norms[NormKey(r, Connector)] == e)
    ensures OnlySource(t, t', r)
    ensures View(t', r) == View(t, r).(connectorNorm := Some(e), state := Some(Normalized))
  {
    forall s ensures s in t'.attempts <==> s in t.attempts {
      assert s in t'.attempts.Keys <==> s in t.attempts.Keys;
    }
    forall s | s != r ensures View(t', s) == View(t, s) {
      assert NormKey(s, Connector) != NormKey(r, Connector) && NormKey(s, Prompt) != NormKey(r, Connector);
    }
  }

  /** An event that is not terminal has no case, and whatever is stored of it is this event. */
  lemma NoCaseYet(t: Tables, r: RawKey, e: Event)
    requires Inv(t) && Known(t, r) && !Terminal(t.processing[r].state) && Normalize(t.raws[r]) == Some(e)
    ensures NormKey(r, Connector) !in t.cases
    ensures NormKey(r, Connector) in t.norms ==> t.norms[NormKey(r, Connector)] == e
    ensures View(t, r).counted
  {
    assert InStep(View(t, r));
  }

  lemma QueuedKeepsInv(t: Tables, r: RawKey, e: Event, code: string)
    requires Inv(t) && Known(t, r) && !Terminal(t.processing[r].state) && Normalize(t.raws[r]) == Some(e)
    ensures Inv(SetState(Prepared(t, r, e), r, NeedsReview, code))
  {
    assert InStep(View(t, r));
    PreparedMoves(t, r, e);
    SetStateMoves(Prepared(t, r, e), r, NeedsReview, code);
    StillInv(t, SetState(Prepared(t, r, e), r, NeedsReview, code), r);
  }

  lemma HandedOffKeepsInv(t: Tables, r: RawKey, e: Event, t2: Tables, target: Option<TxId>, code: string)
    requires Inv(t) && Known(t, r) && !Terminal(t.processing[r].state) && Normalize(t.raws[r]) == Some(e)
    requires e.kind.TransactionEvent?
    requires BooksOk(t2) && SameSources(Prepared(t, r, e), t2)
    requires HandedOff(Prepared(t, r, e), t2, NormKey(r, Connector), target)
    ensures Inv(SetState(t2, r, if target.Some? then Processed else NeedsReview, code))
  {
    assert InStep(View(t, r));
    PreparedMoves(t, r, e);
    HandedOffMoves(Prepared(t, r, e), t2, NormKey(r, Connector), target);
    var s := if target.Some? then Processed else NeedsReview;
    SetStateMoves(t2, r, s, code);
    StillInv(t, SetState(t2, r, s, code), r);
  }

  /** Processing a known raw event always commits. */
  lemma ProcessKeepsInv(t: Tables, r: RawKey, scan: Scan, config: Config)
    requires Inv(t) && Known(t, r) && config.policy.Valid()
    ensures Process(t, r, scan, config).Success? && Inv(Process(t, r, scan, config).value)
  {
    match Normalize(t.raws[r]) {
      case None => FailedKeepsInv(t, r, "INVALID_NORMALIZED_EVENT");
      case Some(e) => if !Terminal(t.processing[r].state) { ProcessNormalizedKeepsInv(t, r, e, scan, config); }
    }
  }

  function ReviewCode(e: Event): string
  {
    if !e.kind.TransactionEvent? || e.amount.None? || e.currency.None? || e.occurredAt.None?
    then "REVIEW_REQUIRED" else "LEDGER_VALIDATION_REVIEW"
  }

  /** Where processing an event for the first time leads: to review, or to the books and on. */
  lemma ProcessShape(t: Tables, r: RawKey, e: Event, scan: Scan, config: Config)
    requires Inv(t) && Known(t, r) && config.policy.Valid()
    requires Normalize(t.raws[r]) == Some(e) && !Terminal(t.processing[r].state)
    ensures NormKey(r, Connector) in Prepared(t, r, e).norms
    ensures match ParseTransaction(r.Owner(), e)
            case None => ProcessNormalized(t, r, e, scan, config)
                == Success(SetState(Prepared(t, r, e), r, NeedsReview, ReviewCode(e)))
            case Some(tx) =>
              var handoff := Reconcile(Prepared(t, r, e), NormKey(r, Connector), tx, scan, config);
              && handoff.Success? && BooksOk(handoff.value.0)
              && HandedOff(Prepared(t, r, e), handoff.value.0, NormKey(r, Connector), handoff.value.1)
              && ProcessNormalized(t, r, e, scan, config) ==
                   Success(if handoff.value.1.Some? then SetState(handoff.value.0, r, Processed, "")
                           else SetState(handoff.value.0, r, NeedsReview, "POSSIBLE_DUPLICATE"))
  {
    assert InStep(View(t, r));
    var t1, k := Prepared(t, r, e), NormKey(r, Connector);
    PreparedMoves(t, r, e);
    assert ProcessNormalized(t, r, e, scan, config) == PostOrQueue(t1, k, scan, config);
    if ParseTransaction(r.Owner(), e).Some? {
      ReconcileKeepsBooks(t1, k, ParseTransaction(r.Owner(), e).value, scan, config);
    }
  }

  lemma ProcessNormalizedKeepsInv(t: Tables, r: RawKey, e: Event, scan: Scan, config: Config)
    requires Inv(t) && Known(t, r) && config.policy.Valid()
    requires Normalize(t.raws[r]) == Some(e) && !Terminal(t.processing[r].state)
    ensures ProcessNormalized(t, r, e, scan, config).Success? && Inv(ProcessNormalized(t, r, e, scan, config).value)
  {
    ProcessShape(t, r, e, scan, config);
    match ParseTransaction(r.Owner(), e) {
      case None => QueuedKeepsInv(t, r, e, ReviewCode(e));
      case Some(tx) =>
        var (t2, target) := Reconcile(Prepared(t, r, e), NormKey(r, Connector), tx, scan, config).value;
        HandedOffKeepsInv(t, r, e, t2, target, if target.Some? then "" else "POSSIBLE_DUPLICATE");
    }
  }

  // ---------------------------------------------------------------- proposals

  lemma CreateOrGetMoves(t: Tables, r: RawKey, e: Event)
    requires BooksOk(t)
    ensures Moves(t, CreateOrGet(t, r, e), r, View(t, r).(proposal :=
              Some(if r in t.proposals then t.proposals[r] else Proposal(t.nextProposal, e, AwaitingReview, NoTarget))))
  {
    if r in t.proposals {
      assert Moves(t, t, r, View(t, r).(proposal := Some(t.proposals[r])));
    } else {
      var t' := CreateOrGet(t, r, e);
      SourcesKeepBooks(t, t');
      assert OnlySource(t, t', r);
    }
  }

  lemma ExtractKeepsInv(t: Tables, r: RawKey, e: Event)
    requires Inv(t)
    ensures Extract(t, r, e).Success? ==> Inv(Extract(t, r, e).value)
  {
    if Extract(t, r, e).Success? {
      assert InStep(View(t, r));
      CreateOrGetMoves(t, r, e);
      SetStateMoves(CreateOrGet(t, r, e), r, t.processing[r].state, "");
      StillInv(t, Extract(t, r, e).value, r);
    }
  }

  lemma ExtractionFailedKeepsInv(t: Tables, r: RawKey, code: string)
    requires Inv(t) && Known(t, r)
    ensures Inv(ExtractionFailed(t, r, code).value)
  {
    assert InStep(View(t, r));
    SetStateMoves(t, r, t.processing[r].state, code);
    StillInv(t, ExtractionFailed(t, r, code).value, r);
  }

  lemma RejectKeepsInv(t: Tables, user: nat, r: RawKey)
    requires Inv(t)
    ensures Reject(t, user, r).Success? ==> Inv(Reject(t, user, r).value)
  {
    if Reject(t, user, r).Success? {
      assert InStep(View(t, r));
      SetProposalMoves(t, r, ProposalStatus.Rejected, NoTarget);
      SetStateMoves(SetProposal(t, r, ProposalStatus.Rejected, NoTarget), r, t.processing[r].state, "USER_REJECTED");
      StillInv(t, Reject(t, user, r).value, r);
    }
  }

  /** The event a proposal contributes to its raw event. */
  function Contract(t: Tables, r: RawKey): Event
    requires r in t.proposals
  {
    t.proposals[r].event.(identifiers := [])
  }

  function Contracted(t: Tables, r: RawKey): Tables
    requires r in t.proposals
  {
    StoreNormalized(t, NormKey(r, Prompt), Contract(t, r))
  }

  lemma ContractedMoves(t: Tables, r: RawKey)
    requires Inv(t) && r in t.proposals
    ensures Moves(t, Contracted(t, r), r, View(t, r).(promptNorm := Some(Contract(t, r))))
    ensures NormKey(r, Prompt) in Contracted(t, r).norms && Contracted(t, r).norms[NormKey(r, Prompt)] == Contract(t, r)
  {
    assert InStep(View(t, r));
    StorePromptMoves(t, r, Contract(t, r));
  }

  lemma FinishedMoves(t: Tables, r: RawKey, target: Target)
    requires BooksOk(t) && r in t.proposals
    ensures Moves(t, SetProposal(SetState(t, r, Processed, ""), r, ProposalStatus.Approved, target), r,
                  View(t, r).(state := Some(Processed),
                      proposal := Some(t.proposals[r].(status := ProposalStatus.Approved, target := target))))
  {
    SetStateMoves(t, r, Processed, "");
    SetProposalMoves(SetState(t, r, Processed, ""), r, ProposalStatus.Approved, target);
  }

  lemma ApproveOtherKeepsInv(t: Tables, r: RawKey, id: nat)
    requires Inv(t) && Known(t, r) && r in t.proposals && t.proposals[r].status == AwaitingReview
    ensures FinishApproval(Contracted(t, r), r, OtherTarget(id)).Success? ==>
              Inv(FinishApproval(Contracted(t, r), r, OtherTarget(id)).value)
  {
    assert InStep(View(t, r));
    ContractedMoves(t, r);
    FinishedMoves(Contracted(t, r), r, OtherTarget(id));
    if FinishApproval(Contracted(t, r), r, OtherTarget(id)).Success? {
      StillInv(t, FinishApproval(Contracted(t, r), r, OtherTarget(id)).value, r);
    }
  }

  lemma ApprovedPendingKeepsInv(t: Tables, r: RawKey, t2: Tables, code: string)
    requires Inv(t) && Known(t, r) && r in t.proposals && t.proposals[r].status == AwaitingReview
    requires BooksOk(t2) && SameSources(Contracted(t, r), t2)
    requires HandedOff(Contracted(t, r), t2, NormKey(r, Prompt), None)
    ensures Inv(SetState(SetProposal(t2, r, AwaitingReconciliation, NoTarget), r, t.processing[r].state, code))
  {
    assert InStep(View(t, r));
    ContractedMoves(t, r);
    HandedOffMoves(Contracted(t, r), t2, NormKey(r, Prompt), None);
    var t3 := SetProposal(t2, r, AwaitingReconciliation, NoTarget);
    SetProposalMoves(t2, r, AwaitingReconciliation, NoTarget);
    SetStateMoves(t3, r, t.processing[r].state, code);
    StillInv(t, SetState(t3, r, t.processing[r].state, code), r);
  }

  lemma ApprovedTargetKeepsInv(t: Tables, r: RawKey, t2: Tables, x: TxId)
    requires Inv(t) && Known(t, r) && r in t.proposals && t.proposals[r].status == AwaitingReview
    requires BooksOk(t2) && SameSources(Contracted(t, r), t2)
    requires HandedOff(Contracted(t, r), t2, NormKey(r, Prompt), Some(x))
    ensures FinishApproval(t2, r, TransactionTarget(x)).Success? ==>
              Inv(FinishApproval(t2, r, TransactionTarget(x)).value)
  {
    assert InStep(View(t, r));
    ContractedMoves(t, r);
    HandedOffMoves(Contracted(t, r), t2, NormKey(r, Prompt), Some(x));
    FinishedMoves(t2, r, TransactionTarget(x));
    if FinishApproval(t2, r, TransactionTarget(x)).Success? {
      StillInv(t, FinishApproval(t2, r, TransactionTarget(x)).value, r);
    }
  }

  /** An approval finds no case of its own yet, so its handoff succeeds. */
  lemma ApprovalHandoff(t: Tables, r: RawKey, scan: Scan, config: Config)
    requires Inv(t) && config.policy.Valid() && Known(t, r) && r in t.proposals
    requires t.proposals[r].status == AwaitingReview
    requires ParseTransaction(r.Owner(), t.proposals[r].event).Some?
    ensures NormKey(r, Prompt) in Contracted(t, r).norms
    ensures var res := ApproveTransaction(Contracted(t, r), r, t.proposals[r].event, scan, config);
            res.Success? && BooksOk(res.value.0)
                && HandedOff(Contracted(t, r), res.value.0, NormKey(r, Prompt), res.value.1)
  {
    assert InStep(View(t, r));
    ContractedMoves(t, r);
    ReconcileKeepsBooks(Contracted(t, r), NormKey(r, Prompt), ParseTransaction(r.Owner(), t.proposals[r].event).value,
        scan, config);
  }

  lemma ApproveKeepsInv(t: Tables, user: nat, r: RawKey, scan: Scan, other: Option<nat>, config: Config)
    requires Inv(t) && config.policy.Valid()
    ensures Approve(t, user, r, scan, other, config).Success? ==> Inv(Approve(t, user, r, scan, other, config).value)
  {
    if Approve(t, user, r, scan, other, config).Success? {
      if t.proposals[r].event.kind.TransactionEvent? {
        ApprovalHandoff(t, r, scan, config);
        var (t2, target) := ApproveTransaction(Contracted(t, r), r, t.proposals[r].event, scan, config).value;
        match target {
          case None => ApprovedPendingKeepsInv(t, r, t2, "POSSIBLE_DUPLICATE");
          case Some(x) => ApprovedTargetKeepsInv(t, r, t2, x);
        }
      } else {
        ApproveOtherKeepsInv(t, r, other.value);
      }
    }
  }

  // ---------------------------------------------------------------- the owner's decisions

  lemma CompletedKeepsInv(t: Tables, k: NormKey, t2: Tables, x: TxId)
    requires Inv(t) && BooksOk(t2) && k in t.cases && t.cases[k].status == PendingReview
    requires SameSources(t, t2) && HandedOff(t, t2, k, Some(x))
    ensures Known(t, k.raw)
    ensures CompleteSource(t2, k, x).Success? <==> t.processing[k.raw].state == NeedsReview
    ensures CompleteSource(t2, k, x).Success? ==> Inv(CompleteSource(t2, k, x).value)
  {
    var r := k.raw;
    assert InStep(View(t, r));
    assert k == NormKey(r, k.origin);
    HandedOffMoves(t, t2, k, Some(x));
    SetStateMoves(t2, r, Processed, "");
    if CompleteSource(t2, k, x).Success? {
      if ProposalInReconciliation(t2, r) {
        SetProposalMoves(SetState(t2, r, Processed, ""), r, ProposalStatus.Approved, TransactionTarget(x));
      }
      StillInv(t, CompleteSource(t2, k, x).value, r);
    }
  }

  lemma MergeKeepsInv(t: Tables, user: nat, k: NormKey)
    requires Inv(t)
    ensures MergeCase(t, user, k).Success? ==> Inv(MergeCase(t, user, k).value)
  {
    if MergeCase(t, user, k).Success? {
      MergeKeepsBooks(t, k);
      var x := t.cases[k].candidate.value;
      CompletedKeepsInv(t, k, Settled(t, k, Merged, x, Action(UserMerged, None, Some(x))), x);
    }
  }

  lemma KeepSeparateKeepsInv(t: Tables, user: nat, k: NormKey)
    requires Inv(t)
    ensures KeepSeparate(t, user, k).Success? ==> Inv(KeepSeparate(t, user, k).value)
  {
    if KeepSeparate(t, user, k).Success? {
      KeepSeparateKeepsBooks(t, k);
      var tx := ParseTransaction(k.Owner(), t.norms[k]).value;
      var kept := Action(UserKeptSeparate, None, Some(t.nextTx));
      CompletedKeepsInv(t, k, Settled(CreateTransaction(t, tx), k, KeptSeparate, t.nextTx, kept), t.nextTx);
    }
  }

  /** Unmerging a merged case of the caller always commits. */
  lemma UnmergeKeepsInv(t: Tables, user: nat, k: NormKey)
    requires Inv(t) && CaseVisible(t, user, k) && t.cases[k].status == Merged
    ensures Unmerge(t, user, k).Success? && Inv(Unmerge(t, user, k).value)
  {
    var r := k.raw;
    UnmergeKeepsBooks(t, k);
    assert InStep(View(t, r));
    assert k == NormKey(r, k.origin);
    var tx := ParseTransaction(k.Owner(), t.norms[k]).value;
    var t2 := Settled(CreateTransaction(t, tx), k, Unmerged, t.nextTx,
        Action(UserUnmerged, Some(t.evidence[k]), Some(t.nextTx)));
    HandedOffMoves(t, t2, k, Some(t.nextTx));
    if ProposalInReconciliation(t2, r) {
      SetProposalMoves(t2, r, ProposalStatus.Approved, TransactionTarget(t.nextTx));
    }
    StillInv(t, Unmerge(t, user, k).value, r);
  }

  // ---------------------------------------------------------------- runs

  lemma ManualKeepsInv(t: Tables, tx: Transaction)
    requires Inv(t)
    ensures RecordManual(t, tx).Success? ==> Inv(RecordManual(t, tx).value)
  {
    if RecordManual(t, tx).Success? {
      ManualKeepsBooks(t, tx);
      forall r ensures InStep(View(CreateTransaction(t, tx), r)) {
        assert InStep(View(t, r)) && View(CreateTransaction(t, tx), r) == View(t, r);
      }
    }
  }

  lemma NextKeepsInv(t: Tables, s: Step, config: Config)
    requires Inv(t) && config.policy.Valid()
    ensures Inv(Next(t, s, config))
  {
    match s
    case StoreStep(connection, envelope) => StoreKeepsInv(t, connection, envelope);
    case ProcessStep(raw, scan) => if Known(t, raw) { ProcessKeepsInv(t, raw, scan, config); }
    case ExtractStep(raw, event) => ExtractKeepsInv(t, raw, event);
    case ExtractionFailedStep(raw, code) => if Known(t, raw) { ExtractionFailedKeepsInv(t, raw, code); }
    case ApproveStep(user, raw, scan, other) => ApproveKeepsInv(t, user, raw, scan, other, config);
    case RejectStep(user, raw) => RejectKeepsInv(t, user, raw);
    case MergeStep(user, key) => MergeKeepsInv(t, user, key);
    case KeepSeparateStep(user, key) => KeepSeparateKeepsInv(t, user, key);
    case UnmergeStep(user, key) =>
      if CaseVisible(t, user, key) && t.cases[key].status == Merged { UnmergeKeepsInv(t, user, key); }
    case ManualStep(tx) => ManualKeepsInv(t, tx);
  }

  /** Every reachable state, whatever the interleaving of deliveries, reviews and decisions. */
  lemma {:induction false} RunKeepsInv(t: Tables, steps: seq<Step>, config: Config)
    requires Inv(t) && config.policy.Valid()
    ensures Inv(Run(t, steps, config))
    decreases |steps|
  {
    if steps != [] {
      NextKeepsInv(t, steps[0], config);
      RunKeepsInv(Next(t, steps[0], config), steps[1..], config);
    }
  }

  lemma EmptyInv()
    ensures Inv(EMPTY)
  {
  }
}
