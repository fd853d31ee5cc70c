/**
 * What each transaction of the services commits, column by column, and exactly when it commits: stated over
 * the tables before and after, for every state that satisfies the invariant.
 */
module Effects {
  import opened Wrappers
  import opened Domain
  import opened Rows
  import opened Candidates
  import opened Ledger
  import opened Books
  import opened Lockstep
  import Provenance
  import Scoring

  // ---------------------------------------------------------------- events

  /** Everything a transaction needs is there. */
  predicate Complete(e: Event) { e.kind.TransactionEvent? && e.amount.Some? && e.currency.Some? && e.occurredAt.Some? }

  /** And the ledger takes it. */
  predicate Postable(e: Event)
  {
    && Complete(e)
    && 0 < e.amount.value < MONEY_LIMIT && e.currency.value in SUPPORTED_CURRENCIES
    && 1 <= |e.description| <= 500
    && (e.merchant.Some? ==> 1 <= |e.merchant.value| <= 160)
  }

  lemma ParsesIff(owner: nat, e: Event)
    ensures ParseTransaction(owner, e).Some? <==> Postable(e)
    ensures Postable(e) ==> Mirrors(ParseTransaction(owner, e).value, owner, e)
  {
  }

  // ---------------------------------------------------------------- deliveries

  /**
   * Two deliveries on one connection are the same event exactly if they share the provider's id or, without one,
   * the content.
   */
  lemma SameIdentityIff(e: Envelope, f: Envelope)
    ensures IdentityOf(e) == IdentityOf(f) <==>
              e.externalId == f.externalId && (e.externalId.None? ==> e.content == f.content)
  {
  }

  /**
   * Storing succeeds exactly for storable content that does not contradict what is stored, and only the first time
   * changes anything.
   */
  lemma StoreCommits(t: Tables, connection: Connection, e: Envelope)
    requires Inv(t)
    ensures var r, res := RawKey(connection, IdentityOf(e)), StoreRaw(t, connection, e);
            && (res.Success? <==> e.storable && (r in t.raws ==> t.raws[r] == e.content))
            && (r in t.raws && res.Success? ==> res == Success(t))
            && (r !in t.raws && res.Success? ==>
                  res.value == t.(
                    raws := t.raws[r := e.content],
                    processing := t.processing[r := Processing(Received, "")],
                    attempts := t.attempts[r := 0]))
  {
    assert InStep(View(t, RawKey(connection, IdentityOf(e))));
  }

  // ---------------------------------------------------------------- the handoff

  /** What scoring decides for the event depends on the books alone. */
  lemma OutcomeIgnoresSources(t: Tables, t1: Tables, owner: nat, e: Event, scan: Scan, config: Config)
    requires Inv(t) && config.policy.Valid() && Grows(t, t1) && t1.txs == t.txs && t1.evidence == t.evidence
    ensures Outcome(t1, owner, e, scan, config) == Outcome(t, owner, e, scan, config)
  {
    var policy := config.policy;
    forall x ensures EvidenceIdentifiers(t1, x) == EvidenceIdentifiers(t, x) { Provenance.SameIdentifiers(t, t1, x); }
    SameFilter(
      (x: TxId) => Eligible(t1, owner, e, x) && SharesEvidence(t1, e, x),
      (x: TxId) => Eligible(t, owner, e, x) && SharesEvidence(t, e, x),
      scan.exact);
    SameFilter(
      (x: TxId) => Eligible(t1, owner, e, x) && InWindow(t1, e, x, policy),
      (x: TxId) => Eligible(t, owner, e, x) && InWindow(t, e, x, policy),
      scan.temporal);
    assert ExactIds(t1, owner, e, scan, policy) == ExactIds(t, owner, e, scan, policy);
    assert TemporalIds(t1, owner, e, scan, policy) == TemporalIds(t, owner, e, scan, policy);
    var ids := FindCandidates(t, owner, e, scan, policy);
    assert CandidateViews(t1, ids) == CandidateViews(t, ids);
  }

  lemma {:induction false} SameFilter<T(!new)>(p: T -> bool, q: T -> bool, s: seq<T>)
    requires forall x :: p(x) == q(x)
    ensures Filter(p, s) == Filter(q, s)
  {
    if s != [] { SameFilter(p, q, s[1..]); }
  }

  /** What the handoff of an event did to the books, for each decision: the case, its evidence, its transaction. */
  ghost predicate HandsOff(t: Tables, t': Tables, k: NormKey, owner: nat, e: Event, o: Scoring.Outcome)
  {
    && k in t'.cases && t'.cases == t.cases[k := t'.cases[k]]
    && match o.decision
       case Merge =>
         && o.candidate.Some? && t'.txs == t.txs && t'.evidence == t.evidence[k := o.candidate.value]
         && t'.cases[k] == Case(o.candidate, o.candidate, Merge, Merged, [Action(AutoMerged, None, o.candidate)])
       case PossibleDuplicate =>
         && t'.txs == t.txs && t'.evidence == t.evidence
         && t'.cases[k] ==
              Case(o.candidate, None, PossibleDuplicate, PendingReview, [Action(CandidateFlagged, None, None)])
       case NewTransaction =>
         && t.nextTx in t'.txs && t'.txs == t.txs[t.nextTx := t'.txs[t.nextTx]] && Mirrors(t'.txs[t.nextTx], owner, e)
         && t'.evidence == t.evidence[k := t.nextTx]
         && t'.cases[k] == Case(o.candidate, Some(t.nextTx), NewTransaction, KeptSeparate,
                                [Action(CreatedNew, None, Some(t.nextTx))])
  }

  /** The handoff went through and did that. */
  ghost predicate WellHandedOff(t: Tables, res: Result<(Tables, Option<TxId>), Error>, k: NormKey, o: Scoring.Outcome)
    requires k in t.norms
  {
    && res.Success? && HandsOff(t, res.value.0, k, k.raw.connection.owner, t.norms[k], o)
    && res.value.1 == res.value.0.cases[k].resulting
  }

  lemma MergeHandsOff(t: Tables, k: NormKey, tx: Transaction, o: Scoring.Outcome)
    requires BooksOk(t) && k in t.norms && k !in t.cases && ParseTransaction(k.Owner(), t.norms[k]) == Some(tx)
    requires GoodOutcome(t, k, o) && o.decision == Merge
    ensures WellHandedOff(t, Handoff(t, k, tx, o), k, o)
  {
    MergeHandoff(t, k, tx, o);
  }

  lemma ReviewHandsOff(t: Tables, k: NormKey, tx: Transaction, o: Scoring.Outcome)
    requires BooksOk(t) && k in t.norms && k !in t.cases && ParseTransaction(k.Owner(), t.norms[k]) == Some(tx)
    requires GoodOutcome(t, k, o) && o.decision == PossibleDuplicate
    ensures WellHandedOff(t, Handoff(t, k, tx, o), k, o)
  {
    ReviewHandoff(t, k, tx, o);
  }

  lemma NewHandsOff(t: Tables, k: NormKey, tx: Transaction, o: Scoring.Outcome)
    requires BooksOk(t) && k in t.norms && k !in t.cases && ParseTransaction(k.Owner(), t.norms[k]) == Some(tx)
    requires GoodOutcome(t, k, o) && o.decision == NewTransaction
    ensures WellHandedOff(t, Handoff(t, k, tx, o), k, o)
  {
    NewHandoff(t, k, tx, o);
    ParsesIff(k.Owner(), t.norms[k]);
  }

  lemma ReconcileHandsOff(t: Tables, k: NormKey, tx: Transaction, scan: Scan, config: Config)
    requires BooksOk(t) && k in t.norms && k !in t.cases && config.policy.Valid()
    requires ParseTransaction(k.Owner(), t.norms[k]) == Some(tx)
    ensures WellHandedOff(t, Reconcile(t, k, tx, scan, config), k, Outcome(t, k.Owner(), t.norms[k], scan, config))
  {
    var o := Outcome(t, k.Owner(), t.norms[k], scan, config);
    FlaggedIsEligible(t, k.Owner(), t.norms[k], scan, config);
    match o.decision {
      case Merge => MergeHandsOff(t, k, tx, o);
      case PossibleDuplicate => ReviewHandsOff(t, k, tx, o);
      case NewTransaction => NewHandsOff(t, k, tx, o);
    }
  }

  /** Statements before and after the handoff that leave the books alone do not matter. */
  lemma HandsOffBetween(t: Tables, t1: Tables, t2: Tables, t': Tables, k: NormKey, owner: nat, e: Event,
          o: Scoring.Outcome)
    requires SameLedger(t, t1) && t1.nextTx == t.nextTx && HandsOff(t1, t2, k, owner, e, o) && SameLedger(t2, t')
    ensures HandsOff(t, t', k, owner, e, o)
  {
  }

  // ---------------------------------------------------------------- processing

  /** A possible duplicate waits for its owner; everything else is done. */
  function HandedOffState(o: Scoring.Outcome): Processing
  {
    if o.decision == PossibleDuplicate then Processing(NeedsReview, "POSSIBLE_DUPLICATE") else Processing(Processed, "")
  }

  /** The tables around the books after an event was processed: stored, counted once, and in this state. */
  ghost predicate Stored(t: Tables, t': Tables, r: RawKey, e: Event, p: Processing)
    requires r in t.attempts
  {
    && t'.raws == t.raws && t'.proposals == t.proposals && t'.nextProposal == t.nextProposal
    && t'.norms == t.norms[NormKey(r, Connector) := e]
    && t'.attempts == t.attempts[r := t.attempts[r] + 1]
    && t'.processing == t.processing[r := p]
  }

  predicate SameLedger(t: Tables, t': Tables) { t'.cases == t.cases && t'.evidence == t.evidence && t'.txs == t.txs }

  /**
   * The first processing of acceptable content always commits. An event that lacks a field, or is no
   * transaction, waits for review with that code; one that the ledger would refuse waits with the other code;
   * every other event is handed off as scoring decides.
   */
  lemma ProcessCommits(t: Tables, r: RawKey, e: Event, scan: Scan, config: Config)
    requires Inv(t) && config.policy.Valid() && Known(t, r) && Normalize(t.raws[r]) == Some(e)
    requires t.processing[r].state != Processed && t.processing[r].state != NeedsReview
    ensures Process(t, r, scan, config).Success?
    ensures var t', o := Process(t, r, scan, config).value, Outcome(t, r.connection.owner, e, scan, config);
            if !Complete(e) then SameLedger(t, t') && Stored(t, t', r, e, Processing(NeedsReview, "REVIEW_REQUIRED"))
            else if !Postable(e) then
              SameLedger(t, t') && Stored(t, t', r, e, Processing(NeedsReview, "LEDGER_VALIDATION_REVIEW"))
            else
              && HandsOff(t, t', NormKey(r, Connector), r.connection.owner, e, o)
              && Stored(t, t', r, e, HandedOffState(o))
  {
    ParsesIff(r.Owner(), e);
    ProcessShape(t, r, e, scan, config);
    PreparedIs(t, r, e);
    if Postable(e) { HandedOffCommits(t, r, e, scan, config); }
  }

  /** A note is stored under its text, cut to 200 characters, and its own time, and always waits for its owner. */
  lemma NoteIsNeverPosted(t: Tables, r: RawKey, scan: Scan, config: Config)
    requires Inv(t) && config.policy.Valid() && Known(t, r) && t.raws[r].Note?
    requires t.processing[r].state != Processed && t.processing[r].state != NeedsReview
    ensures Process(t, r, scan, config).Success?
    ensures var t', k := Process(t, r, scan, config).value, NormKey(r, Connector);
            && SameLedger(t, t') && k in t'.norms
            && Stored(t, t', r, t'.norms[k], Processing(NeedsReview, "REVIEW_REQUIRED"))
            && t'.norms[k].occurredAt == t.raws[r].at && t'.norms[k].identifiers == []
            && t'.norms[k].description <= t.raws[r].text
            && |t'.norms[k].description| == (if |t.raws[r].text| < 200 then |t.raws[r].text| else 200)
  {
    var e := Normalize(t.raws[r]).value;
    ProcessCommits(t, r, e, scan, config);
    assert t.norms[NormKey(r, Connector) := e][NormKey(r, Connector)] == e;
  }

  /** A transaction its owner enters is added as it is, and nothing else. */
  lemma ManualCommits(t: Tables, tx: Transaction)
    requires Inv(t)
    ensures RecordManual(t, tx).Success? <==> 0 < tx.amount && tx.source == Manual
    ensures RecordManual(t, tx).Success? ==>
              && RecordManual(t, tx).value == t.(txs := t.txs[t.nextTx := tx], nextTx := t.nextTx + 1)
              && t.nextTx !in t.txs
  {
    NextIsFresh(t);
  }

  /** Processing what is in review or done changes nothing. */
  lemma ProcessedIsDone(t: Tables, r: RawKey, scan: Scan, config: Config)
    requires Inv(t) && config.policy.Valid() && Known(t, r)
    requires t.processing[r].state == Processed || t.processing[r].state == NeedsReview
    ensures Process(t, r, scan, config) == Success(t)
  {
    assert InStep(View(t, r));
  }

  /** Content that its connector rejects is marked failed, each try is counted, and nothing else happens. */
  lemma RejectedCommits(t: Tables, r: RawKey, scan: Scan, config: Config)
    requires Inv(t) && config.policy.Valid() && Known(t, r) && Normalize(t.raws[r]) == None
    ensures Process(t, r, scan, config) == Success(t.(
              processing := t.processing[r := Processing(RawState.Failed, "INVALID_NORMALIZED_EVENT")],
              attempts := t.attempts[r := t.attempts[r] + 1]))
  {
    assert InStep(View(t, r));
  }

  lemma PreparedIs(t: Tables, r: RawKey, e: Event)
    requires Inv(t) && Known(t, r) && Normalize(t.raws[r]) == Some(e) && !Terminal(t.processing[r].state)
    ensures var t1 := Prepared(t, r, e);
            && SameLedger(t, t1) && t1.nextTx == t.nextTx && Grows(t, t1) && BooksOk(t1)
            && Stored(t, t1, r, e, Processing(Normalized, ""))
            && NormKey(r, Connector) !in t.cases
  {
    NoCaseYet(t, r, e);
    PreparedMoves(t, r, e);
    Provenance.PreparedGrows(t, r, e);
    var k, norms := NormKey(r, Connector), Prepared(t, r, e).norms;
    assert norms == t.norms[k := e];
  }

  lemma HandedOffCommits(t: Tables, r: RawKey, e: Event, scan: Scan, config: Config)
    requires Inv(t) && config.policy.Valid() && Known(t, r)
    requires Normalize(t.raws[r]) == Some(e) && !Terminal(t.processing[r].state) && Postable(e)
    ensures ProcessNormalized(t, r, e, scan, config).Success?
    ensures var t' := ProcessNormalized(t, r, e, scan, config).value;
            var o := Outcome(t, r.connection.owner, e, scan, config);
            && HandsOff(t, t', NormKey(r, Connector), r.connection.owner, e, o)
            && Stored(t, t', r, e, HandedOffState(o))
  {
    var k, t1, tx := NormKey(r, Connector), Prepared(t, r, e), ParseTransaction(r.Owner(), e).value;
    var o := Outcome(t, r.connection.owner, e, scan, config);
    var t2 := HandedOffTables(t, r, e, scan, config);
    PreparedIs(t, r, e);
    ConcludedStored(t, t1, t2, r, e);
    HandsOffBetween(t, t1, t2, ProcessNormalized(t, r, e, scan, config).value, k, r.connection.owner, e, o);
  }

  lemma HandedOffTables(t: Tables, r: RawKey, e: Event, scan: Scan, config: Config) returns (t2: Tables)
    requires Inv(t) && config.policy.Valid() && Known(t, r)
    requires Normalize(t.raws[r]) == Some(e) && !Terminal(t.processing[r].state) && Postable(e)
    ensures var p := HandedOffState(Outcome(t, r.connection.owner, e, scan, config));
            ProcessNormalized(t, r, e, scan, config) == Success(SetState(t2, r, p.state, p.error))
    ensures SameSources(Prepared(t, r, e), t2)
    ensures HandsOff(Prepared(t, r, e), t2, NormKey(r, Connector), r.connection.owner, e,
              Outcome(t, r.connection.owner, e, scan, config))
  {
    var k, t1, tx := NormKey(r, Connector), Prepared(t, r, e), ParseTransaction(r.Owner(), e).value;
    ParsesIff(r.Owner(), e);
    ProcessShape(t, r, e, scan, config);
    PreparedIs(t, r, e);
    ReconcileHandsOff(t1, k, tx, scan, config);
    OutcomeIgnoresSources(t, t1, r.Owner(), e, scan, config);
    t2 := Reconcile(t1, k, tx, scan, config).value.0;
  }

  /** Handing off touches no source, so only the last state counts. */
  lemma ConcludedStored(t: Tables, t1: Tables, t2: Tables, r: RawKey, e: Event)
    requires r in t.attempts && Stored(t, t1, r, e, Processing(Normalized, "")) && SameSources(t1, t2)
    ensures forall s, code :: Stored(t, SetState(t2, r, s, code), r, e, Processing(s, code))
  {
    forall s, code ensures Stored(t, SetState(t2, r, s, code), r, e, Processing(s, code)) {
      assert t2.processing[r := Processing(s, code)] == t.processing[r := Processing(s, code)];
    }
  }

  // ---------------------------------------------------------------- proposals

  /** Another user's proposals and cases are not there at all. */
  lemma StrangersAreRefused(t: Tables, user: nat, k: NormKey, scan: Scan, other: Option<nat>, config: Config)
    requires config.policy.Valid() && k.raw.connection.owner != user
    ensures Approve(t, user, k.raw, scan, other, config) == Reject(t, user, k.raw) == Failure(NotFound)
    ensures MergeCase(t, user, k) == KeepSeparate(t, user, k) == Unmerge(t, user, k) == Failure(NotFound)
  {
  }

  /** The first extraction of a note's text is kept as its proposal, and every extraction clears the error. */
  lemma ExtractCommits(t: Tables, r: RawKey, e: Event)
    requires Inv(t)
    ensures Extract(t, r, e).Success? <==>
              r in t.raws && t.raws[r].Note? && exists c :: c in t.raws[r].text && c !in {' ', '\t', '\n', '\r'}
    ensures Extract(t, r, e).Success? ==>
              && r in t.processing
              && var t' := Extract(t, r, e).value;
                 && t' == t.(processing := t'.processing, proposals := t'.proposals, nextProposal := t'.nextProposal)
                 && t'.processing == t.processing[r := Processing(t.processing[r].state, "")]
                 && (r in t.proposals ==> t'.proposals == t.proposals && t'.nextProposal == t.nextProposal)
                 && (r !in t.proposals ==>
                       && t'.proposals == t.proposals[r := Proposal(t.nextProposal, e, AwaitingReview, NoTarget)]
                       && t'.nextProposal == t.nextProposal + 1)
  {
    assert InStep(View(t, r));
  }

  /** A failed extraction leaves its code on the source and nothing else. */
  lemma ExtractionFailedCommits(t: Tables, r: RawKey, code: string)
    requires Inv(t) && r in t.raws
    ensures r in t.processing
    ensures ExtractionFailed(t, r, code) ==
            Success(t.(processing := t.processing[r := Processing(t.processing[r].state, code)]))
  {
    assert InStep(View(t, r));
  }

  /** The row of a proposal that its owner can still decide on. */
  predicate Open(t: Tables, user: nat, r: RawKey)
  {
    r in t.proposals && r.connection.owner == user && t.proposals[r].status == AwaitingReview
  }

  /** A rejection takes a proposal that waits for its owner, and closes that proposal alone. */
  lemma RejectSucceedsIff(t: Tables, user: nat, r: RawKey)
    requires Inv(t)
    ensures Reject(t, user, r).Success? <==>
              r in t.proposals && r.connection.owner == user && t.proposals[r].status == AwaitingReview
    ensures Reject(t, user, r).Success? ==>
              && r in t.processing
              && Reject(t, user, r).value == t.(
                   proposals :=
                     t.proposals[r := t.proposals[r].(status := ProposalStatus.Rejected, target := NoTarget)],
                   processing := t.processing[r := Processing(t.processing[r].state, "USER_REJECTED")])
  {
    assert InStep(View(t, r));
  }

  /** What the handoff of the event in a proposal would decide. */
  function ProposedOutcome(t: Tables, r: RawKey, scan: Scan, config: Config): Scoring.Outcome
    requires r in t.proposals && config.policy.Valid()
  {
    Outcome(t, r.connection.owner, t.proposals[r].event.(identifiers := []), scan, config)
  }

  /**
   * An approval takes a proposal that waits for its owner. A transaction must be one that the ledger takes, and
   * its source must wait for review unless it turns out to be a possible duplicate; obligations must be accepted
   * where they are created; what the model could not classify is never approved.
   */
  lemma ApproveSucceedsIff(t: Tables, user: nat, r: RawKey, scan: Scan, other: Option<nat>, config: Config)
    requires Inv(t) && config.policy.Valid()
    ensures Approve(t, user, r, scan, other, config).Success? <==>
              && r in t.proposals && r.connection.owner == user && t.proposals[r].status == AwaitingReview
              && r in t.processing
              && match t.proposals[r].event.kind
                 case UnknownEvent => false
                 case TransactionEvent(_) =>
                   && Postable(t.proposals[r].event)
                   && (t.processing[r].state == NeedsReview
                       || ProposedOutcome(t, r, scan, config).decision == PossibleDuplicate)
                 case _ => other.Some? && t.processing[r].state == NeedsReview
  {
    if Open(t, user, r) && Known(t, r) {
      if t.proposals[r].event.kind.TransactionEvent? {
        ApproveTransactionIff(t, user, r, scan, other, config);
      } else {
        ApproveOtherIff(t, user, r, scan, other, config);
      }
    } else {
      assert InStep(View(t, r));
    }
  }

  lemma ApproveOtherIff(t: Tables, user: nat, r: RawKey, scan: Scan, other: Option<nat>, config: Config)
    requires Inv(t) && config.policy.Valid() && Known(t, r) && Open(t, user, r)
    requires !t.proposals[r].event.kind.TransactionEvent?
    ensures Approve(t, user, r, scan, other, config).Success? <==>
              !t.proposals[r].event.kind.UnknownEvent? && other.Some? && t.processing[r].state == NeedsReview
  {
    assert InStep(View(t, r));
  }

  lemma ApproveTransactionIff(t: Tables, user: nat, r: RawKey, scan: Scan, other: Option<nat>, config: Config)
    requires Inv(t) && config.policy.Valid() && Known(t, r) && Open(t, user, r)
    requires t.proposals[r].event.kind.TransactionEvent?
    ensures Approve(t, user, r, scan, other, config).Success? <==>
              && Postable(t.proposals[r].event)
              && (t.processing[r].state == NeedsReview
                  || ProposedOutcome(t, r, scan, config).decision == PossibleDuplicate)
  {
    if Postable(t.proposals[r].event) {
      var t2 := ProposedApproval(t, user, r, scan, other, config);
      ReceivedOrInReview(t, user, r);
    } else {
      ParsesIff(r.Owner(), t.proposals[r].event);
      ApproveUnfolds(t, user, r, scan, other, config);
    }
  }

  /** The source of a proposal that waits for its owner. */
  lemma ReceivedOrInReview(t: Tables, user: nat, r: RawKey)
    requires Inv(t) && Known(t, r) && Open(t, user, r)
    ensures t.processing[r].state == Received || t.processing[r].state == NeedsReview
  {
    assert InStep(View(t, r));
  }

  lemma ApproveUnfolds(t: Tables, user: nat, r: RawKey, scan: Scan, other: Option<nat>, config: Config)
    requires config.policy.Valid() && Known(t, r) && Open(t, user, r) && t.proposals[r].event.kind.TransactionEvent?
    ensures NormKey(r, Prompt) in Contracted(t, r).norms
    ensures Approve(t, user, r, scan, other, config) ==
            match ApproveTransaction(Contracted(t, r), r, t.proposals[r].event, scan, config)
            case Failure(error) => Failure(error)
            case Success((t2, None)) =>
              Success(SetState(SetProposal(t2, r, AwaitingReconciliation, NoTarget), r, t.processing[r].state,
                "POSSIBLE_DUPLICATE"))
            case Success((t2, Some(x))) => FinishApproval(t2, r, TransactionTarget(x))
  {
  }

  lemma HandsOffTarget(t: Tables, t': Tables, k: NormKey, owner: nat, e: Event, o: Scoring.Outcome)
    requires HandsOff(t, t', k, owner, e, o)
    ensures t'.cases[k].resulting.None? <==> o.decision == PossibleDuplicate
    ensures k in t'.evidence && o.decision != PossibleDuplicate ==> t'.cases[k].resulting == Some(t'.evidence[k])
    ensures o.decision != PossibleDuplicate ==> k in t'.evidence
  {
  }

  /** The handoff's own success leaves the approval to the state of the source. */
  lemma ProposedApproval(t: Tables, user: nat, r: RawKey, scan: Scan, other: Option<nat>, config: Config)
    returns (t2: Tables)
    requires Inv(t) && config.policy.Valid() && Known(t, r) && Open(t, user, r) && Postable(t.proposals[r].event)
    ensures SameSources(Contracted(t, r), t2)
    ensures HandsOff(Contracted(t, r), t2, NormKey(r, Prompt), r.connection.owner, t.proposals[r].event,
              ProposedOutcome(t, r, scan, config))
    ensures var target := t2.cases[NormKey(r, Prompt)].resulting;
            && (target.None? <==> ProposedOutcome(t, r, scan, config).decision == PossibleDuplicate)
            && Approve(t, user, r, scan, other, config) ==
                 match target
                 case None =>
                   Success(SetState(SetProposal(t2, r, AwaitingReconciliation, NoTarget), r, t.processing[r].state,
                     "POSSIBLE_DUPLICATE"))
                 case Some(x) => FinishApproval(t2, r, TransactionTarget(x))
  {
    ApproveUnfolds(t, user, r, scan, other, config);
    t2 := ProposedHandsOff(t, r, scan, config);
    HandsOffTarget(Contracted(t, r), t2, NormKey(r, Prompt), r.connection.owner, t.proposals[r].event,
      ProposedOutcome(t, r, scan, config));
  }

  lemma ProposedHandsOff(t: Tables, r: RawKey, scan: Scan, config: Config) returns (t2: Tables)
    requires Inv(t) && config.policy.Valid() && r in t.proposals
    requires t.proposals[r].status == AwaitingReview && Postable(t.proposals[r].event)
    ensures NormKey(r, Prompt) in Contracted(t, r).norms && SameSources(Contracted(t, r), t2)
    ensures HandsOff(Contracted(t, r), t2, NormKey(r, Prompt), r.connection.owner, t.proposals[r].event,
              ProposedOutcome(t, r, scan, config))
    ensures ApproveTransaction(Contracted(t, r), r, t.proposals[r].event, scan, config)
         == Success((t2, t2.cases[NormKey(r, Prompt)].resulting))
  {
    var t1, tx := Contracted(t, r), ParseTransaction(r.Owner(), t.proposals[r].event).value;
    ContractedIs(t, r);
    OutcomeIgnoresSources(t, t1, r.Owner(), Contract(t, r), scan, config);
    ReconcileHandsOff(t1, NormKey(r, Prompt), tx, scan, config);
    t2 := Reconcile(t1, NormKey(r, Prompt), tx, scan, config).value.0;
    IdentifiersDoNotMatter(t1, t2, NormKey(r, Prompt), r.connection.owner, t.proposals[r].event,
      ProposedOutcome(t, r, scan, config));
  }

  lemma ContractedIs(t: Tables, r: RawKey)
    requires Inv(t) && r in t.proposals && t.proposals[r].status == AwaitingReview && Postable(t.proposals[r].event)
    ensures var t1, k := Contracted(t, r), NormKey(r, Prompt);
            && BooksOk(t1) && Grows(t, t1) && t1.txs == t.txs && t1.evidence == t.evidence && k !in t1.cases
            && k in t1.norms && t1.norms[k] == t.proposals[r].event.(identifiers := [])
    ensures var e := t.proposals[r].event;
            && ParseTransaction(r.Owner(), e).Some?
            && ParseTransaction(r.Owner(), e.(identifiers := [])) == ParseTransaction(r.Owner(), e)
  {
    ParsesIff(r.Owner(), t.proposals[r].event);
    Provenance.ContractedGrows(t, r);
    ContractedMoves(t, r);
  }

  /** A proposal's identifiers are the model's, so they never become evidence. */
  lemma IdentifiersDoNotMatter(t: Tables, t': Tables, k: NormKey, owner: nat, e: Event, o: Scoring.Outcome)
    requires HandsOff(t, t', k, owner, e.(identifiers := []), o)
    ensures HandsOff(t, t', k, owner, e, o)
  {
  }

  /** The tables around the books after an approval: the event stored as agreed, and these two rows. */
  ghost predicate Reviewed(t: Tables, t': Tables, r: RawKey, status: ProposalStatus, target: Target, p: Processing)
    requires r in t.proposals
  {
    && t'.raws == t.raws && t'.attempts == t.attempts && t'.nextProposal == t.nextProposal
    && t'.norms == t.norms[NormKey(r, Prompt) := t.proposals[r].event.(identifiers := [])]
    && t'.proposals == t.proposals[r := Proposal(t.proposals[r].id, t.proposals[r].event, status, target)]
    && t'.processing == t.processing[r := p]
  }

  lemma ContractedStored(t: Tables, r: RawKey, t2: Tables)
    requires Inv(t) && r in t.proposals && SameSources(Contracted(t, r), t2) && r in t.processing
    ensures forall s, code, status, target ::
              Reviewed(t, SetState(SetProposal(t2, r, status, target), r, s, code), r, status, target,
                Processing(s, code))
    ensures forall s, code, status, target ::
              Reviewed(t, SetProposal(SetState(t2, r, s, code), r, status, target), r, status, target,
                Processing(s, code))
  {
    ContractedMoves(t, r);
    var norms := Contracted(t, r).norms;
    assert norms == t.norms[NormKey(r, Prompt) := t.proposals[r].event.(identifiers := [])] by {
      assert InStep(View(t, r));
    }
  }

  /** What an approval commits: an obligation's id, or what the handoff of the event decided. */
  lemma ApproveCommits(t: Tables, user: nat, r: RawKey, scan: Scan, other: Option<nat>, config: Config)
    requires Inv(t) && config.policy.Valid() && Approve(t, user, r, scan, other, config).Success?
    ensures r in t.proposals && r in t.processing
    ensures var t', k, e := Approve(t, user, r, scan, other, config).value, NormKey(r, Prompt), t.proposals[r].event;
            if e.kind.TransactionEvent? then
              var o := ProposedOutcome(t, r, scan, config);
              && HandsOff(t, t', k, r.connection.owner, e, o)
              && if o.decision == PossibleDuplicate then
                   Reviewed(t, t', r, AwaitingReconciliation, NoTarget,
                     Processing(t.processing[r].state, "POSSIBLE_DUPLICATE"))
                 else
                   && k in t'.evidence
                   && Reviewed(t, t', r, ProposalStatus.Approved, TransactionTarget(t'.evidence[k]),
                        Processing(Processed, ""))
            else
              && other.Some? && SameLedger(t, t')
              && Reviewed(t, t', r, ProposalStatus.Approved, OtherTarget(other.value), Processing(Processed, ""))
  {
    assert InStep(View(t, r));
    ApproveSucceedsIff(t, user, r, scan, other, config);
    if t.proposals[r].event.kind.TransactionEvent? {
      ProposedCommits(t, user, r, scan, other, config);
    } else {
      ContractedStored(t, r, Contracted(t, r));
    }
  }

  lemma ProposedCommits(t: Tables, user: nat, r: RawKey, scan: Scan, other: Option<nat>, config: Config)
    requires Inv(t) && config.policy.Valid() && Approve(t, user, r, scan, other, config).Success?
    requires t.proposals[r].event.kind.TransactionEvent? && Postable(t.proposals[r].event)
    ensures var t', k, e := Approve(t, user, r, scan, other, config).value, NormKey(r, Prompt), t.proposals[r].event;
            var o := ProposedOutcome(t, r, scan, config);
            && HandsOff(t, t', k, r.connection.owner, e, o)
            && if o.decision == PossibleDuplicate then
                 Reviewed(t, t', r, AwaitingReconciliation, NoTarget,
                   Processing(t.processing[r].state, "POSSIBLE_DUPLICATE"))
               else
                 && k in t'.evidence
                 && Reviewed(t, t', r, ProposalStatus.Approved, TransactionTarget(t'.evidence[k]),
                      Processing(Processed, ""))
  {
    var t2 := ProposedApproval(t, user, r, scan, other, config);
    ContractedStored(t, r, t2);
    HandsOffBetween(t, Contracted(t, r), t2, Approve(t, user, r, scan, other, config).value, NormKey(r, Prompt),
      r.connection.owner, t.proposals[r].event, ProposedOutcome(t, r, scan, config));
  }

  // ---------------------------------------------------------------- the owner's decisions

  /** A decision writes its status, target and action to the case, and points the evidence and the proposal there. */
  ghost predicate Decides(t: Tables, t': Tables, k: NormKey, status: CaseStatus, x: TxId, a: Action)
    requires k in t.cases
  {
    && t'.raws == t.raws && t'.attempts == t.attempts && t'.norms == t.norms && t'.nextProposal == t.nextProposal
    && t'.evidence == t.evidence[k := x]
    && t'.cases == t.cases[k :=
         Case(t.cases[k].candidate, Some(x), t.cases[k].decision, status, t.cases[k].actions + [a])]
    && (k.origin == Connector ==> t'.proposals == t.proposals)
    && (k.origin == Prompt ==>
          && k.raw in t.proposals
          && var p := t.proposals[k.raw];
             t'.proposals ==
               t.proposals[k.raw := Proposal(p.id, p.event, ProposalStatus.Approved, TransactionTarget(x))])
  }

  /** A new transaction, the event's in every column. */
  ghost predicate Creates(t: Tables, t': Tables, k: NormKey)
    requires k in t.norms
  {
    && t.nextTx in t'.txs && t'.txs == t.txs[t.nextTx := t'.txs[t.nextTx]]
    && Mirrors(t'.txs[t.nextTx], k.raw.connection.owner, t.norms[k])
  }

  /** Merging puts the evidence on the candidate and closes the source. */
  lemma MergeCommits(t: Tables, user: nat, k: NormKey)
    requires Inv(t) && MergeCase(t, user, k).Success?
    ensures k in t.cases && t.cases[k].candidate.Some?
    ensures var t', x := MergeCase(t, user, k).value, t.cases[k].candidate.value;
            && Decides(t, t', k, Merged, x, Action(UserMerged, None, Some(x))) && t'.txs == t.txs
            && t'.processing == t.processing[k.raw := Processing(Processed, "")]
  {
    MergeKeepsBooks(t, k);
    var x := t.cases[k].candidate.value;
    CompletedDecides(t, k, Settled(t, k, Merged, x, Action(UserMerged, None, Some(x))), Merged, x,
      Action(UserMerged, None, Some(x)));
  }

  lemma CompletedDecides(t: Tables, k: NormKey, t2: Tables, status: CaseStatus, x: TxId, a: Action)
    requires Inv(t) && k in t.cases && t.cases[k].status == PendingReview && SameSources(t, t2)
    requires t2.evidence == t.evidence[k := x] && t2.cases == t.cases[k := Decided(t.cases[k], status, x, a)]
    requires CompleteSource(t2, k, x).Success?
    ensures var t' := CompleteSource(t2, k, x).value;
            && Decides(t, t', k, status, x, a) && t'.txs == t2.txs
            && t'.processing == t.processing[k.raw := Processing(Processed, "")]
  {
    assert InStep(View(t, k.raw));
    assert k == NormKey(k.raw, k.origin);
  }

  /** Keeping a case separate creates the event's own transaction and closes the source. */
  lemma KeepSeparateCommits(t: Tables, user: nat, k: NormKey)
    requires Inv(t) && KeepSeparate(t, user, k).Success?
    ensures k in t.cases && k in t.norms
    ensures var t' := KeepSeparate(t, user, k).value;
            && Decides(t, t', k, KeptSeparate, t.nextTx, Action(UserKeptSeparate, None, Some(t.nextTx)))
            && Creates(t, t', k) && t'.processing == t.processing[k.raw := Processing(Processed, "")]
  {
    KeepSeparateKeepsBooks(t, k);
    var tx, a := ParseTransaction(k.Owner(), t.norms[k]).value, Action(UserKeptSeparate, None, Some(t.nextTx));
    ParsesIff(k.Owner(), t.norms[k]);
    CompletedDecides(t, k, Settled(CreateTransaction(t, tx), k, KeptSeparate, t.nextTx, a), KeptSeparate, t.nextTx, a);
  }

  /** Unmerging creates the event's own transaction, moves the evidence there and leaves the source processed. */
  lemma UnmergeCommits(t: Tables, user: nat, k: NormKey)
    requires Inv(t) && Unmerge(t, user, k).Success?
    ensures k in t.cases && k in t.norms && k in t.evidence
    ensures var t' := Unmerge(t, user, k).value;
            && Decides(t, t', k, Unmerged, t.nextTx, Action(UserUnmerged, Some(t.evidence[k]), Some(t.nextTx)))
            && Creates(t, t', k) && t'.processing == t.processing
  {
    UnmergeKeepsBooks(t, k);
    var tx := ParseTransaction(k.Owner(), t.norms[k]).value;
    var a := Action(UserUnmerged, Some(t.evidence[k]), Some(t.nextTx));
    ParsesIff(k.Owner(), t.norms[k]);
    assert InStep(View(t, k.raw));
    assert k == NormKey(k.raw, k.origin);
    var t2 := Settled(CreateTransaction(t, tx), k, Unmerged, t.nextTx, a);
    assert Unmerge(t, user, k).value.cases == t2.cases && Unmerge(t, user, k).value.evidence == t2.evidence;
  }
}
