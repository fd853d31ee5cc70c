/**
 * What holds of the ledger in every reachable state and over every run: provenance, conservation of
 * money, the audit log, exactly-once delivery, and which requests are refused.
 */
module Provenance {
  import opened Wrappers
  import opened Domain
  import opened Rows
  import opened Candidates
  import opened Ledger
  import opened Books
  import opened Lockstep
  import Scoring
  import Sums

  // ---------------------------------------------------------------- lockstep, spelled out

  /** The lockstep of case, evidence and transaction, for every case of every reachable state. */
  lemma CaseLockstep(steps: seq<Step>, config: Config, k: NormKey)
    requires config.policy.Valid()
    requires k in Run(EMPTY, steps, config).cases
    ensures var t := Run(EMPTY, steps, config);
            var c := t.cases[k];
            && (c.status == PendingReview ==>
                  c.decision == PossibleDuplicate && c.candidate.Some? && c.resulting.None?)
            && (c.status == Merged ==>
                  c.decision != NewTransaction && c.candidate.Some? && c.resulting == c.candidate)
            && (c.status == KeptSeparate ==>
                  c.decision != Merge && c.resulting.Some? && c.resulting != c.candidate)
            && (c.status == Unmerged ==>
                  c.decision != NewTransaction && c.candidate.Some? && c.resulting.Some? && c.resulting != c.candidate)
            && (k in t.evidence <==> c.status != PendingReview)
            && (k in t.evidence ==>
                  && c.resulting == Some(t.evidence[k])
                  && k in t.norms && t.evidence[k] in t.txs
                  && var tx, e := t.txs[t.evidence[k]], t.norms[k];
                     tx.owner == k.raw.connection.owner
                     && Some(tx.amount) == e.amount && Some(tx.currency) == e.currency
                     && TransactionEvent(tx.kind) == e.kind && tx.status == Posted)
  {
    EmptyInv();
    RunKeepsInv(EMPTY, steps, config);
    assert CaseOk(Run(EMPTY, steps, config), k);
  }

  /** The lockstep of processing state, proposal and cases, for every raw event of every reachable state. */
  lemma SourceLockstep(steps: seq<Step>, config: Config, r: RawKey)
    requires config.policy.Valid()
    requires r in Run(EMPTY, steps, config).raws
    ensures var t := Run(EMPTY, steps, config);
            var connector, prompt := NormKey(r, Connector), NormKey(r, Prompt);
            && Known(t, r)
            && t.processing[r].state != Normalized
            && !(connector in t.cases && prompt in t.cases)
            && (t.processing[r].state == Processed <==>
                  || (connector in t.evidence) || (prompt in t.evidence)
                  || (r in t.proposals && t.proposals[r].target.OtherTarget?))
            && (r in t.proposals ==>
                  var p := t.proposals[r];
                  && (p.status == AwaitingReconciliation <==>
                      prompt in t.cases && t.cases[prompt].status == PendingReview)
                  && (p.target.TransactionTarget? <==> prompt in t.evidence)
                  && (prompt in t.evidence ==> p.target == TransactionTarget(t.evidence[prompt]))
                  && (p.status == ProposalStatus.Approved <==> p.target != NoTarget))
  {
    EmptyInv();
    RunKeepsInv(EMPTY, steps, config);
    var t := Run(EMPTY, steps, config);
    assert InStep(View(t, r));
    assert CaseOk(t, NormKey(r, Connector)) && CaseOk(t, NormKey(r, Prompt));
  }

  // ---------------------------------------------------------------- what requests are refused

  /** In a reachable state the review operations succeed exactly for the cases they are meant for. */
  lemma MergeSucceedsIff(t: Tables, user: nat, k: NormKey)
    requires Inv(t)
    ensures MergeCase(t, user, k).Success? <==>
              && k in t.cases && k.raw.connection.owner == user && t.cases[k].status == PendingReview
              && k.raw in t.processing && t.processing[k.raw].state == NeedsReview
    ensures KeepSeparate(t, user, k).Success? <==> MergeCase(t, user, k).Success?
    ensures Unmerge(t, user, k).Success? <==>
              k in t.cases && k.raw.connection.owner == user && t.cases[k].status == Merged
  {
    if CaseVisible(t, user, k) {
      if t.cases[k].status == PendingReview {
        MergeKeepsBooks(t, k);
        var x := t.cases[k].candidate.value;
        CompletedKeepsInv(t, k, Settled(t, k, Merged, x, Action(UserMerged, None, Some(x))), x);
        KeepSeparateKeepsBooks(t, k);
        var tx := ParseTransaction(k.Owner(), t.norms[k]).value;
        var kept := Action(UserKeptSeparate, None, Some(t.nextTx));
        CompletedKeepsInv(t, k, Settled(CreateTransaction(t, tx), k, KeptSeparate, t.nextTx, kept), t.nextTx);
      } else if t.cases[k].status == Merged {
        UnmergeKeepsInv(t, user, k);
      }
    }
  }

  /**
   * The source of a pending case waits for review, or it is a note whose proposal was approved before the
   * note itself was processed.
   */
  lemma PendingSource(t: Tables, k: NormKey)
    requires Inv(t) && k in t.cases && t.cases[k].status == PendingReview
    ensures Known(t, k.raw)
    ensures t.processing[k.raw].state == NeedsReview
         || (k.origin == Prompt && t.raws[k.raw].Note? && t.processing[k.raw].state == Received)
  {
    assert InStep(View(t, k.raw));
    assert k == NormKey(k.raw, k.origin) && (k.origin == Connector || k.origin == Prompt);
  }

  /** Until then its owner's request is refused for that reason, whichever it is. */
  lemma UnprocessedIsRefused(t: Tables, k: NormKey)
    requires Inv(t) && k in t.cases && t.cases[k].status == PendingReview && k.raw in t.processing
    requires t.processing[k.raw].state != NeedsReview
    ensures MergeCase(t, k.Owner(), k) == KeepSeparate(t, k.Owner(), k) == Failure(SourceNotReviewable)
  {
    PendingSource(t, k);
    MergeKeepsBooks(t, k);
    KeepSeparateKeepsBooks(t, k);
  }

  /** Processing the source makes any pending case resolvable, either way, and leaves the case as it is. */
  lemma ProcessingMakesResolvable(t: Tables, k: NormKey, scan: Scan, config: Config)
    requires Inv(t) && config.policy.Valid() && k in t.cases && t.cases[k].status == PendingReview
    ensures var t' := Next(t, ProcessStep(k.raw, scan), config);
            && t'.cases == t.cases && t'.txs == t.txs
            && MergeCase(t', k.Owner(), k).Success? && KeepSeparate(t', k.Owner(), k).Success?
  {
    PendingSource(t, k);
    var t' := Next(t, ProcessStep(k.raw, scan), config);
    ProcessKeepsInv(t, k.raw, scan, config);
    if t.processing[k.raw].state == Received {
      NoteWaits(t, k.raw, scan, config);
    } else {
      ReviewedAgain(t, k.raw, scan, config);
    }
    MergeSucceedsIff(t', k.Owner(), k);
  }

  /** A note that is processed waits for its review. */
  lemma NoteWaits(t: Tables, r: RawKey, scan: Scan, config: Config)
    requires Inv(t) && config.policy.Valid() && Known(t, r) && t.raws[r].Note? && t.processing[r].state == Received
    ensures Process(t, r, scan, config).Success?
    ensures var t' := Process(t, r, scan, config).value;
            t'.cases == t.cases && t'.txs == t.txs && Known(t', r) && t'.processing[r].state == NeedsReview
  {
    ProcessShape(t, r, Normalize(t.raws[r]).value, scan, config);
    PreparedGrows(t, r, Normalize(t.raws[r]).value);
  }

  lemma ReviewedAgain(t: Tables, r: RawKey, scan: Scan, config: Config)
    requires Inv(t) && config.policy.Valid() && Known(t, r) && t.processing[r].state == NeedsReview
    ensures Process(t, r, scan, config) == Success(t)
  {
    assert InStep(View(t, r));
  }

  /** No reachable state ever lets a unique, foreign-key or check constraint refuse a transaction. */
  lemma ConstraintsNeverRefuse(t: Tables, s: Step, config: Config)
    requires Inv(t) && config.policy.Valid()
    ensures Apply(t, s, config) != Failure(ConstraintViolation)
  {
    match s
    case StoreStep(_, _) =>
    case ProcessStep(raw, scan) => if Known(t, raw) { ProcessKeepsInv(t, raw, scan, config); }
    case ExtractStep(_, _) =>
    case ExtractionFailedStep(_, _) =>
    case ApproveStep(user, raw, scan, other) => ApproveNeverRefused(t, user, raw, scan, other, config);
    case RejectStep(_, _) =>
    case MergeStep(user, key) => ResolveNeverRefused(t, user, key);
    case KeepSeparateStep(user, key) => ResolveNeverRefused(t, user, key);
    case UnmergeStep(user, key) => MergeSucceedsIff(t, user, key);
    case ManualStep(_) =>
  }

  lemma ApproveNeverRefused(t: Tables, user: nat, r: RawKey, scan: Scan, other: Option<nat>, config: Config)
    requires Inv(t) && config.policy.Valid()
    ensures Approve(t, user, r, scan, other, config) != Failure(ConstraintViolation)
  {
    if Reviewable(t, user, r) && Known(t, r) && t.proposals[r].status == AwaitingReview
       && ParseTransaction(r.Owner(), t.proposals[r].event).Some?
    {
      ApprovalHandoff(t, r, scan, config);
    }
  }

  lemma ResolveNeverRefused(t: Tables, user: nat, k: NormKey)
    requires Inv(t)
    ensures MergeCase(t, user, k) != Failure(ConstraintViolation)
    ensures KeepSeparate(t, user, k) != Failure(ConstraintViolation)
  {
    if CaseVisible(t, user, k) && t.cases[k].status == PendingReview {
      MergeKeepsBooks(t, k);
      KeepSeparateKeepsBooks(t, k);
    }
  }

  // ---------------------------------------------------------------- evolution of the books

  /** Nothing written to the books is lost: rows stay, audit logs only grow, creators are final. */
  ghost predicate Evolves(t: Tables, t': Tables)
  {
    && Grows(t, t')
    && (forall k :: k in t.cases ==> CaseEvolves(t, t', k))
  }

  ghost predicate CaseEvolves(t: Tables, t': Tables, k: NormKey)
    requires k in t.cases
  {
    && k in t'.cases
    && t.cases[k].actions <= t'.cases[k].actions
    && t'.cases[k].decision == t.cases[k].decision && t'.cases[k].candidate == t.cases[k].candidate
    && (Creator(t.cases[k]) ==> t'.cases[k] == t.cases[k])
  }

  /** A later statement of the same transaction that leaves the books alone. */
  predicate SameBooks(t: Tables, t': Tables)
  {
    t'.cases == t.cases && t'.evidence == t.evidence && t'.norms == t.norms && t'.txs == t.txs
  }

  lemma HandoffEvolves(t: Tables, t1: Tables, t2: Tables, k: NormKey, target: Option<TxId>, t': Tables)
    requires Grows(t, t1) && t1.cases == t.cases && k !in t.cases
    requires HandedOff(t1, t2, k, target) && SameBooks(t2, t')
    ensures Evolves(t, t')
  {
  }

  lemma DecisionEvolves(t: Tables, t2: Tables, k: NormKey, status: CaseStatus, x: TxId, a: Action, t': Tables)
    requires k in t.cases && !Creator(t.cases[k]) && Grows(t, t2) && OnlyCase(t, t2, k)
    requires t2.cases[k] == Decided(t.cases[k], status, x, a) && SameBooks(t2, t')
    ensures Evolves(t, t')
  {
  }

  lemma ProcessEvolves(t: Tables, r: RawKey, scan: Scan, config: Config)
    requires Inv(t) && config.policy.Valid() && Known(t, r)
    ensures Process(t, r, scan, config).Success? && Evolves(t, Process(t, r, scan, config).value)
  {
    ProcessKeepsInv(t, r, scan, config);
    match Normalize(t.raws[r])
    case None =>
    case Some(e) => if !Terminal(t.processing[r].state) { ProcessNormalizedEvolves(t, r, e, scan, config); }
  }

  lemma PreparedGrows(t: Tables, r: RawKey, e: Event)
    requires Inv(t) && Known(t, r) && Normalize(t.raws[r]) == Some(e) && !Terminal(t.processing[r].state)
    ensures var t1 := Prepared(t, r, e);
            Grows(t, t1) && t1.cases == t.cases && t1.evidence == t.evidence && t1.txs == t.txs
                && NormKey(r, Connector) !in t.cases
  {
    NoCaseYet(t, r, e);
    Preparing(t, r, e);
  }

  lemma ProcessNormalizedEvolves(t: Tables, r: RawKey, e: Event, scan: Scan, config: Config)
    requires Inv(t) && config.policy.Valid() && Known(t, r) && Normalize(t.raws[r]) == Some(e)
    requires !Terminal(t.processing[r].state)
    ensures ProcessNormalized(t, r, e, scan, config).Success?
    ensures Evolves(t, ProcessNormalized(t, r, e, scan, config).value)
  {
    ProcessShape(t, r, e, scan, config);
    PreparedGrows(t, r, e);
    match ParseTransaction(r.Owner(), e) {
      case None => GrownEvolves(t, Prepared(t, r, e), ProcessNormalized(t, r, e, scan, config).value);
      case Some(tx) =>
        var (t2, target) := Reconcile(Prepared(t, r, e), NormKey(r, Connector), tx, scan, config).value;
        HandoffEvolves(t, Prepared(t, r, e), t2, NormKey(r, Connector), target,
            ProcessNormalized(t, r, e, scan, config).value);
    }
  }

  lemma GrownEvolves(t: Tables, t1: Tables, t': Tables)
    requires Grows(t, t1) && t1.cases == t.cases && SameBooks(t1, t')
    ensures Evolves(t, t')
  {
  }

  lemma ContractedGrows(t: Tables, r: RawKey)
    requires Inv(t) && r in t.proposals && t.proposals[r].status == AwaitingReview
    ensures Grows(t, Contracted(t, r)) && Contracted(t, r).cases == t.cases && NormKey(r, Prompt) !in t.cases
  {
    assert InStep(View(t, r));
  }

  /** The books of an approved transaction are those its handoff left. */
  lemma ApprovedBooks(t: Tables, user: nat, r: RawKey, scan: Scan, other: Option<nat>, config: Config, t': Tables)
    requires config.policy.Valid() && Approve(t, user, r, scan, other, config) == Success(t')
    requires t.proposals[r].event.kind.TransactionEvent?
    ensures NormKey(r, Prompt) in Contracted(t, r).norms
    ensures var res := ApproveTransaction(Contracted(t, r), r, t.proposals[r].event, scan, config);
            res.Success? && SameBooks(res.value.0, t')
  {
    var (t2, target) := ApproveTransaction(Contracted(t, r), r, t.proposals[r].event, scan, config).value;
    if target.Some? {
      assert FinishApproval(t2, r, TransactionTarget(target.value)) == Success(t');
    } else {
      assert t' == SetState(SetProposal(t2, r, AwaitingReconciliation, NoTarget), r, t.processing[r].state,
          "POSSIBLE_DUPLICATE");
    }
  }

  lemma ApproveTransactionEvolves(t: Tables, user: nat, r: RawKey, scan: Scan, other: Option<nat>, config: Config,
          t': Tables)
    requires Inv(t) && config.policy.Valid() && Approve(t, user, r, scan, other, config) == Success(t')
    requires t.proposals[r].event.kind.TransactionEvent?
    ensures Evolves(t, t')
  {
    ApprovalHandoff(t, r, scan, config);
    ContractedGrows(t, r);
    ApprovedBooks(t, user, r, scan, other, config, t');
    var (t2, target) := ApproveTransaction(Contracted(t, r), r, t.proposals[r].event, scan, config).value;
    HandoffEvolves(t, Contracted(t, r), t2, NormKey(r, Prompt), target, t');
  }

  lemma ApproveEvolves(t: Tables, user: nat, r: RawKey, scan: Scan, other: Option<nat>, config: Config)
    requires Inv(t) && config.policy.Valid() && Approve(t, user, r, scan, other, config).Success?
    ensures Evolves(t, Approve(t, user, r, scan, other, config).value)
  {
    var t' := Approve(t, user, r, scan, other, config).value;
    if t.proposals[r].event.kind.TransactionEvent? {
      ApproveTransactionEvolves(t, user, r, scan, other, config, t');
    } else {
      assert FinishApproval(Contracted(t, r), r, OtherTarget(other.value)) == Success(t');
      assert Evolves(t, t');
    }
  }

  lemma MergeEvolves(t: Tables, user: nat, k: NormKey)
    requires Inv(t) && MergeCase(t, user, k).Success?
    ensures Evolves(t, MergeCase(t, user, k).value)
  {
    MergeKeepsBooks(t, k);
    var x := t.cases[k].candidate.value;
    var a := Action(UserMerged, None, Some(x));
    DecisionEvolves(t, Settled(t, k, Merged, x, a), k, Merged, x, a, MergeCase(t, user, k).value);
  }

  lemma KeepSeparateEvolves(t: Tables, user: nat, k: NormKey)
    requires Inv(t) && KeepSeparate(t, user, k).Success?
    ensures Evolves(t, KeepSeparate(t, user, k).value)
  {
    KeepSeparateKeepsBooks(t, k);
    var tx := ParseTransaction(k.Owner(), t.norms[k]).value;
    var a := Action(UserKeptSeparate, None, Some(t.nextTx));
    var t2 := Settled(CreateTransaction(t, tx), k, KeptSeparate, t.nextTx, a);
    DecisionEvolves(t, t2, k, KeptSeparate, t.nextTx, a, KeepSeparate(t, user, k).value);
  }

  lemma UnmergeEvolves(t: Tables, user: nat, k: NormKey)
    requires Inv(t) && Unmerge(t, user, k).Success?
    ensures Evolves(t, Unmerge(t, user, k).value)
  {
    UnmergeKeepsBooks(t, k);
    var tx := ParseTransaction(k.Owner(), t.norms[k]).value;
    var a := Action(UserUnmerged, Some(t.evidence[k]), Some(t.nextTx));
    var t2 := Settled(CreateTransaction(t, tx), k, Unmerged, t.nextTx, a);
    DecisionEvolves(t, t2, k, Unmerged, t.nextTx, a, Unmerge(t, user, k).value);
  }

  /** The books are left alone, and so are the ids of later transactions. */
  predicate QuietBooks(t: Tables, t': Tables) { SameBooks(t, t') && t'.nextTx == t.nextTx }

  lemma QuietEvolves(t: Tables, t': Tables)
    requires QuietBooks(t, t')
    ensures Evolves(t, t')
  {
  }

  predicate SourceStep(s: Step) { s.StoreStep? || s.ExtractStep? || s.ExtractionFailedStep? || s.RejectStep? }

  lemma StoreIsQuiet(t: Tables, connection: Connection, e: Envelope)
    ensures StoreRaw(t, connection, e).Success? ==> QuietBooks(t, StoreRaw(t, connection, e).value)
  {
  }

  lemma ExtractIsQuiet(t: Tables, r: RawKey, e: Event)
    ensures Extract(t, r, e).Success? ==> QuietBooks(t, Extract(t, r, e).value)
  {
  }

  lemma ExtractionFailedIsQuiet(t: Tables, r: RawKey, code: string)
    ensures ExtractionFailed(t, r, code).Success? ==> QuietBooks(t, ExtractionFailed(t, r, code).value)
  {
  }

  lemma RejectIsQuiet(t: Tables, user: nat, r: RawKey)
    ensures Reject(t, user, r).Success? ==> QuietBooks(t, Reject(t, user, r).value)
  {
  }

  lemma SourceStepEvolves(t: Tables, s: Step, config: Config)
    requires config.policy.Valid() && SourceStep(s) && Apply(t, s, config).Success?
    ensures Evolves(t, Apply(t, s, config).value)
  {
    match s {
      case StoreStep(connection, e) => StoreIsQuiet(t, connection, e);
      case ExtractStep(r, e) => ExtractIsQuiet(t, r, e);
      case ExtractionFailedStep(r, code) => ExtractionFailedIsQuiet(t, r, code);
      case RejectStep(user, r) => RejectIsQuiet(t, user, r);
    }
    QuietEvolves(t, Apply(t, s, config).value);
  }

  /** A transaction that rolls back changes nothing. */
  lemma CommittedEvolves(t: Tables, s: Step, config: Config)
    requires config.policy.Valid()
    requires Apply(t, s, config).Success? ==> Evolves(t, Apply(t, s, config).value)
    ensures Evolves(t, Next(t, s, config))
  {
  }

  lemma NextEvolves(t: Tables, s: Step, config: Config)
    requires Inv(t) && config.policy.Valid()
    ensures Evolves(t, Next(t, s, config))
  {
    if Apply(t, s, config).Success? {
      if SourceStep(s) { SourceStepEvolves(t, s, config); } else { BookStepEvolves(t, s, config); }
    }
    CommittedEvolves(t, s, config);
  }

  lemma BookStepEvolves(t: Tables, s: Step, config: Config)
    requires Inv(t) && config.policy.Valid() && !SourceStep(s) && Apply(t, s, config).Success?
    ensures Evolves(t, Apply(t, s, config).value)
  {
    match s
    case MergeStep(user, key) => MergeEvolves(t, user, key);
    case KeepSeparateStep(user, key) => KeepSeparateEvolves(t, user, key);
    case UnmergeStep(user, key) => UnmergeEvolves(t, user, key);
    case ProcessStep(raw, scan) => ProcessEvolves(t, raw, scan, config);
    case ApproveStep(user, raw, scan, other) => ApproveEvolves(t, user, raw, scan, other, config);
    case ManualStep(_) => NextIsFresh(t);
  }

  lemma {:induction false} RunEvolves(t: Tables, steps: seq<Step>, config: Config)
    requires Inv(t) && config.policy.Valid()
    ensures Evolves(t, Run(t, steps, config))
    decreases |steps|
  {
    if steps != [] {
      NextEvolves(t, steps[0], config);
      NextKeepsInv(t, steps[0], config);
      RunEvolves(Next(t, steps[0], config), steps[1..], config);
    }
  }

  // ---------------------------------------------------------------- provenance

  /** Every ingested transaction was created by exactly one case, whose evidence points at it. */
  lemma OneCreator(t: Tables, x: TxId) returns (k: NormKey)
    requires Inv(t) && x in t.txs && t.txs[x].source == Ingestion
    ensures CreatedBy(t, x, k) && k in t.evidence && t.evidence[k] == x
    ensures forall l :: CreatedBy(t, x, l) ==> l == k
  {
    assert Ingested(t, x);
    k :| CreatedBy(t, x, k);
    assert CaseOk(t, k);
  }

  /** What a case created is the event's own money, date, description and merchant, in every reachable state. */
  lemma CreatedMirrorsEvent(t: Tables, x: TxId, k: NormKey)
    requires Inv(t) && CreatedBy(t, x, k)
    ensures x in t.txs && k in t.norms
    ensures var tx, e := t.txs[x], t.norms[k];
            && tx.owner == k.raw.connection.owner && tx.status == Posted && tx.source == Ingestion
            && e.amount == Some(tx.amount) && e.currency == Some(tx.currency) && e.kind == TransactionEvent(tx.kind)
            && e.occurredAt == Some(tx.date) && e.description == tx.description && e.merchant == tx.merchant
  {
    assert CaseOk(t, k);
  }

  /** That case keeps its status and its evidence keeps pointing there over every later run: no unmerge orphans it. */
  lemma CreatorIsFinal(t: Tables, steps: seq<Step>, config: Config, x: TxId, k: NormKey)
    requires Inv(t) && config.policy.Valid() && CreatedBy(t, x, k)
    ensures var t' := Run(t, steps, config);
            && CreatedBy(t', x, k) && t'.cases[k] == t.cases[k]
            && k in t'.evidence && t'.evidence[k] == x
            && x in t.txs && x in t'.txs && t'.txs[x] == t.txs[x] && t'.txs[x].source == Ingestion
  {
    RunEvolves(t, steps, config);
    RunKeepsInv(t, steps, config);
    assert CaseEvolves(t, Run(t, steps, config), k);
    assert CaseOk(t, k) && CaseOk(Run(t, steps, config), k);
  }

  // ---------------------------------------------------------------- conservation of money

  ghost function IngestedIn(t: Tables, currency: string): set<TxId>
  {
    set x | x in t.txs && t.txs[x].source == Ingestion && t.txs[x].currency == currency
  }

  ghost function CreatorsIn(t: Tables, currency: string): set<NormKey>
  {
    set k | k in t.cases && Creator(t.cases[k]) && k in t.norms && t.norms[k].currency == Some(currency)
  }

  ghost function EventAmount(t: Tables, k: NormKey): Money
  {
    if k in t.norms && t.norms[k].amount.Some? then t.norms[k].amount.value else 0
  }

  ghost function TransactionAmount(t: Tables, x: TxId): Money
  {
    if x in t.txs then t.txs[x].amount else 0
  }

  ghost function EvidenceTarget(t: Tables, k: NormKey): TxId
  {
    if k in t.evidence then t.evidence[k] else 0
  }

  /**
   * Per currency, the ingested total is the sum of the event amounts over exactly the cases that were kept
   * separate or unmerged: merging adds nothing and unmerging adds the event's own amount, once.
   */
  lemma IngestedTotalIsConserved(t: Tables, currency: string)
    requires Inv(t)
    ensures Sums.SetSum(IngestedIn(t, currency), x => TransactionAmount(t, x))
         == Sums.SetSum(CreatorsIn(t, currency), k => EventAmount(t, k))
  {
    var keys, image := CreatorsIn(t, currency), IngestedIn(t, currency);
    forall k | k in keys
      ensures EvidenceTarget(t, k) in image && EventAmount(t, k) == TransactionAmount(t, EvidenceTarget(t, k))
      ensures CreatedBy(t, EvidenceTarget(t, k), k)
    {
      assert CaseOk(t, k);
    }
    forall x | x in image ensures exists k :: k in keys && EvidenceTarget(t, k) == x {
      var k := OneCreator(t, x);
      assert CaseOk(t, k);
      assert k in keys && EvidenceTarget(t, k) == x;
    }
    Sums.SetSumBijection(keys, image, k => EvidenceTarget(t, k), k => EventAmount(t, k), x => TransactionAmount(t, x));
  }

  // ---------------------------------------------------------------- the audit log

  /**
   * A log that replays is a chain: it opens from nothing, each action starts where the last one ended, and it
   * has at most three.
   */
  lemma {:induction false} ReplayIsChain(actions: seq<Action>)
    requires Replay(actions).Some?
    ensures actions != [] ==> actions[0].from == None
    ensures forall i :: 0 < i < |actions| ==> actions[i].from == actions[i - 1].to
    ensures actions == [] ==> Replay(actions) == Some(Start)
    ensures actions != [] ==> Replay(actions).value.At? && Replay(actions).value.target == actions[|actions| - 1].to
    ensures actions != [] ==> |actions| == Depth(Replay(actions).value) || |actions| == Depth(Replay(actions).value) + 1
  {
    if actions != [] {
      ReplayIsChain(actions[..|actions| - 1]);
    }
  }

  function Depth(p: Phase): nat
  {
    match p
    case Start => 0
    case At(PendingReview, _) => 1
    case At(Merged, _) => 1
    case At(KeptSeparate, _) => 1
    case At(Unmerged, _) => 2
  }

  /** Folding a case's log gives its status and target, and the log of the past is a prefix of today's. */
  lemma AuditRefinesState(t: Tables, steps: seq<Step>, config: Config, k: NormKey)
    requires Inv(t) && config.policy.Valid() && k in t.cases
    ensures var t' := Run(t, steps, config);
            && k in t'.cases
            && t.cases[k].actions <= t'.cases[k].actions
            && Replay(t'.cases[k].actions) == Some(At(t'.cases[k].status, t'.cases[k].resulting))
            && t'.cases[k].actions != [] && t'.cases[k].actions[0].kind == OpeningAction(t'.cases[k].decision)
            && |t'.cases[k].actions| <= 3
            && forall i :: 0 < i < |t'.cases[k].actions| ==>
                t'.cases[k].actions[i].from == t'.cases[k].actions[i - 1].to
  {
    RunEvolves(t, steps, config);
    RunKeepsInv(t, steps, config);
    var t' := Run(t, steps, config);
    assert CaseEvolves(t, t', k);
    assert CaseOk(t', k);
    ReplayIsChain(t'.cases[k].actions);
  }

  // ---------------------------------------------------------------- exactly-once delivery

  predicate Delivery(s: Step, connection: Connection, e: Envelope)
  {
    match s
    case StoreStep(c, e') => c == connection && e' == e
    case ProcessStep(raw, _) => raw == RawKey(connection, IdentityOf(e))
    case _ => false
  }

  /** A raw event leads to at most one transaction of its own, whatever has been delivered or decided. */
  lemma OneTransactionPerRawEvent(t: Tables, r: RawKey, k: NormKey, l: NormKey, x: TxId, y: TxId)
    requires Inv(t) && k.raw == r && l.raw == r && CreatedBy(t, x, k) && CreatedBy(t, y, l)
    ensures k == l && x == y
  {
    OneCasePerRawEvent(t, r);
    assert k == NormKey(r, k.origin) && l == NormKey(r, l.origin);
    assert k.origin == Connector || k.origin == Prompt;
    assert l.origin == Connector || l.origin == Prompt;
  }

  /** One row of evidence and one case at most, and never both origins. */
  lemma OneCasePerRawEvent(t: Tables, r: RawKey)
    requires Inv(t)
    ensures !(NormKey(r, Connector) in t.cases && NormKey(r, Prompt) in t.cases)
    ensures !(NormKey(r, Connector) in t.evidence && NormKey(r, Prompt) in t.evidence)
  {
    assert InStep(View(t, r));
  }

  /** Once a delivery of acceptable content has been processed, redeliveries change nothing, however they interleave. */
  lemma {:induction false} RedeliveriesChangeNothing(t: Tables, steps: seq<Step>, config: Config,
          connection: Connection, e: Envelope)
    requires Inv(t) && config.policy.Valid() && Normalize(e.content).Some?
    requires var r := RawKey(connection, IdentityOf(e));
              Known(t, r) && t.raws[r] == e.content && Terminal(t.processing[r].state)
    requires forall i :: 0 <= i < |steps| ==> Delivery(steps[i], connection, e)
    ensures Run(t, steps, config) == t
    decreases |steps|
  {
    if steps != [] {
      assert Delivery(steps[0], connection, e);
      assert Next(t, steps[0], config) == t;
      assert forall i :: 0 <= i < |steps[1..]| ==> steps[1..][i] == steps[i + 1];
      RedeliveriesChangeNothing(t, steps[1..], config, connection, e);
    }
  }

  /** Storing and then processing acceptable content always ends in a terminal state. */
  lemma DeliveryTerminates(t: Tables, connection: Connection, e: Envelope, scan: Scan, config: Config)
    requires Inv(t) && config.policy.Valid() && StoreRaw(t, connection, e).Success? && Normalize(e.content).Some?
    ensures var r := RawKey(connection, IdentityOf(e));
            var t' := Next(Next(t, StoreStep(connection, e), config), ProcessStep(r, scan), config);
            && Inv(t') && Known(t', r) && t'.raws[r] == e.content && Terminal(t'.processing[r].state)
  {
    var r := RawKey(connection, IdentityOf(e));
    var t1 := StoreRaw(t, connection, e).value;
    assert InStep(View(t, r));
    StoreKeepsInv(t, connection, e);
    ProcessedIsTerminal(t1, r, scan, config);
  }

  lemma ProcessedIsTerminal(t: Tables, r: RawKey, scan: Scan, config: Config)
    requires Inv(t) && Known(t, r) && config.policy.Valid() && Normalize(t.raws[r]).Some?
    ensures var res := Process(t, r, scan, config);
            res.Success? && Inv(res.value) && Known(res.value, r) && res.value.raws == t.raws
                && Terminal(res.value.processing[r].state)
  {
    ProcessKeepsInv(t, r, scan, config);
    if !Terminal(t.processing[r].state) { NormalizedIsTerminal(t, r, Normalize(t.raws[r]).value, scan, config); }
  }

  lemma NormalizedIsTerminal(t: Tables, r: RawKey, e: Event, scan: Scan, config: Config)
    requires Inv(t) && Known(t, r) && config.policy.Valid() && Normalize(t.raws[r]) == Some(e)
    requires !Terminal(t.processing[r].state)
    ensures ProcessNormalized(t, r, e, scan, config).Success?
    ensures var t' := ProcessNormalized(t, r, e, scan, config).value;
            Known(t', r) && t'.raws == t.raws && Terminal(t'.processing[r].state)
  {
    ProcessShape(t, r, e, scan, config);
    if ParseTransaction(r.Owner(), e).Some? {
      var handoff := Reconcile(Prepared(t, r, e), NormKey(r, Connector), ParseTransaction(r.Owner(), e).value, scan,
          config);
      assert SameSources(Prepared(t, r, e), handoff.value.0);
    }
  }

  /** How many of the transactions process a stored event. */
  function Processings(steps: seq<Step>): nat
    decreases |steps|
  {
    if steps == [] then 0 else (if steps[0].ProcessStep? then 1 else 0) + Processings(steps[1..])
  }

  /** The stored event, rejected so many times. */
  function Rejected(t: Tables, r: RawKey, n: nat): Tables
    requires r in t.attempts
  {
    if n == 0 then t
    else SetState(t, r, RawState.Failed, "INVALID_NORMALIZED_EVENT").(attempts := t.attempts[r := t.attempts[r] + n])
  }

  lemma RejectedAdds(t: Tables, r: RawKey, m: nat, n: nat)
    requires r in t.attempts
    ensures r in Rejected(t, r, m).attempts
    ensures Rejected(Rejected(t, r, m), r, n) == Rejected(t, r, m + n)
  {
    if m > 0 && n > 0 {
      var t1, t2 := Rejected(t, r, m), Rejected(Rejected(t, r, m), r, n);
      assert t2.processing == t1.processing;
      assert t2.attempts == t.attempts[r := t.attempts[r] + (m + n)];
    }
  }

  /** The content is stored and its connector rejects it. */
  ghost predicate Rejectable(t: Tables, r: RawKey) { Inv(t) && Known(t, r) && Normalize(t.raws[r]).None? }

  lemma RejectedOnce(t: Tables, r: RawKey, scan: Scan, config: Config)
    requires Rejectable(t, r) && config.policy.Valid()
    ensures Process(t, r, scan, config) == Success(Rejected(t, r, 1))
    ensures Rejectable(Rejected(t, r, 1), r) && Rejected(t, r, 1).raws == t.raws
  {
    assert InStep(View(t, r));
    FailedKeepsInv(t, r, "INVALID_NORMALIZED_EVENT");
  }

  lemma RejectedStep(t: Tables, s: Step, config: Config, connection: Connection, e: Envelope)
    requires Rejectable(t, RawKey(connection, IdentityOf(e))) && t.raws[RawKey(connection, IdentityOf(e))] == e.content
    requires config.policy.Valid() && Delivery(s, connection, e)
    ensures Next(t, s, config) == Rejected(t, RawKey(connection, IdentityOf(e)), if s.ProcessStep? then 1 else 0)
  {
    if s.ProcessStep? { RejectedOnce(t, s.raw, s.scan, config); }
  }

  /** Delivering rejected content again and again only marks it failed and counts the attempts. */
  lemma {:induction false} RejectedAgain(t: Tables, steps: seq<Step>, config: Config, connection: Connection,
          e: Envelope)
    requires Rejectable(t, RawKey(connection, IdentityOf(e))) && t.raws[RawKey(connection, IdentityOf(e))] == e.content
    requires config.policy.Valid() && forall i :: 0 <= i < |steps| ==> Delivery(steps[i], connection, e)
    ensures Run(t, steps, config) == Rejected(t, RawKey(connection, IdentityOf(e)), Processings(steps))
    decreases |steps|
  {
    var r := RawKey(connection, IdentityOf(e));
    if steps != [] {
      var s := steps[0];
      assert Delivery(s, connection, e);
      assert forall i :: 0 <= i < |steps[1..]| ==> steps[1..][i] == steps[i + 1];
      RejectedStep(t, s, config, connection, e);
      if s.ProcessStep? { RejectedOnce(t, r, s.scan, config); }
      RejectedAgain(Next(t, s, config), steps[1..], config, connection, e);
      RejectedAdds(t, r, if s.ProcessStep? then 1 else 0, Processings(steps[1..]));
    }
  }

  /**
   * So any interleaving of deliveries after the first complete one equals that one delivery; only the
   * attempts of rejected content are counted on.
   */
  lemma ExactlyOnce(t: Tables, connection: Connection, e: Envelope, scan: Scan, more: seq<Step>, config: Config)
    requires Inv(t) && config.policy.Valid() && StoreRaw(t, connection, e).Success?
    requires forall i :: 0 <= i < |more| ==> Delivery(more[i], connection, e)
    ensures var first := [StoreStep(connection, e), ProcessStep(RawKey(connection, IdentityOf(e)), scan)];
            CountedOn(Run(t, first, config), Run(t, first + more, config), RawKey(connection, IdentityOf(e)), e,
                Processings(more))
  {
    var s1, s2 := StoreStep(connection, e), ProcessStep(RawKey(connection, IdentityOf(e)), scan);
    RunTwoThen(t, s1, s2, more, config);
    RunTwoThen(t, s1, s2, [], config);
    assert [s1, s2] + [] == [s1, s2];
    if Normalize(e.content).Some? {
      AcceptedThenMore(t, connection, e, scan, more, config);
    } else {
      RejectedThenMore(t, connection, e, scan, more, config);
    }
  }

  /** The same tables; only the attempts of rejected content are counted on. */
  predicate CountedOn(once: Tables, again: Tables, r: RawKey, e: Envelope, n: nat)
  {
    if Normalize(e.content).Some? then again == once
    else r in once.attempts && again == once.(attempts := once.attempts[r := once.attempts[r] + n])
  }

  lemma AcceptedThenMore(t: Tables, connection: Connection, e: Envelope, scan: Scan, more: seq<Step>, config: Config)
    requires Inv(t) && config.policy.Valid() && StoreRaw(t, connection, e).Success? && Normalize(e.content).Some?
    requires forall i :: 0 <= i < |more| ==> Delivery(more[i], connection, e)
    ensures var r := RawKey(connection, IdentityOf(e));
            var once := Next(Next(t, StoreStep(connection, e), config), ProcessStep(r, scan), config);
            CountedOn(once, Run(once, more, config), r, e, Processings(more))
  {
    var r := RawKey(connection, IdentityOf(e));
    DeliveryTerminates(t, connection, e, scan, config);
    RedeliveriesChangeNothing(Next(Next(t, StoreStep(connection, e), config), ProcessStep(r, scan), config), more,
        config, connection, e);
  }

  lemma RejectedThenMore(t: Tables, connection: Connection, e: Envelope, scan: Scan, more: seq<Step>, config: Config)
    requires Inv(t) && config.policy.Valid() && StoreRaw(t, connection, e).Success? && Normalize(e.content).None?
    requires forall i :: 0 <= i < |more| ==> Delivery(more[i], connection, e)
    ensures var r := RawKey(connection, IdentityOf(e));
            var once := Next(Next(t, StoreStep(connection, e), config), ProcessStep(r, scan), config);
            CountedOn(once, Run(once, more, config), r, e, Processings(more))
  {
    var r, t1 := RawKey(connection, IdentityOf(e)), StoreRaw(t, connection, e).value;
    StoredIsRejectable(t, connection, e);
    RejectedOnce(t1, r, scan, config);
    RejectedAgain(Rejected(t1, r, 1), more, config, connection, e);
    CountsOn(t1, r, e, Processings(more));
  }

  lemma StoredIsRejectable(t: Tables, connection: Connection, e: Envelope)
    requires Inv(t) && StoreRaw(t, connection, e).Success? && Normalize(e.content).None?
    ensures var r, t1 := RawKey(connection, IdentityOf(e)), StoreRaw(t, connection, e).value;
            Rejectable(t1, r) && t1.raws[r] == e.content
  {
    StoreKeepsInv(t, connection, e);
  }

  lemma CountsOn(t: Tables, r: RawKey, e: Envelope, n: nat)
    requires r in t.attempts && Normalize(e.content).None?
    ensures r in Rejected(t, r, 1).attempts
    ensures CountedOn(Rejected(t, r, 1), Rejected(Rejected(t, r, 1), r, n), r, e, n)
  {
    var once := Rejected(t, r, 1);
    RejectedAdds(t, r, 1, n);
    assert once.attempts[r := once.attempts[r] + n] == t.attempts[r := t.attempts[r] + (1 + n)];
  }

  lemma RunTwoThen(t: Tables, a: Step, b: Step, more: seq<Step>, config: Config)
    requires config.policy.Valid()
    ensures Run(t, [a, b] + more, config) == Run(Next(Next(t, a, config), b, config), more, config)
  {
    assert ([a, b] + more)[1..] == [b] + more && ([b] + more)[1..] == more;
    assert Run(Next(t, a, config), [b] + more, config) == Run(Next(Next(t, a, config), b, config), more, config);
  }

  /** `t` is what the delivery left that processed the stored event first. */
  predicate ProcessedBy(stored: Tables, s: Step, r: RawKey, config: Config, t: Tables)
    requires config.policy.Valid()
  {
    s.ProcessStep? && Process(stored, r, s.scan, config) == Success(t)
  }

  ghost predicate ProcessedByOne(stored: Tables, steps: seq<Step>, r: RawKey, config: Config, t: Tables)
    requires config.policy.Valid()
  {
    exists i :: 0 <= i < |steps| && ProcessedBy(stored, steps[i], r, config, t)
  }

  lemma {:induction false} InterleavedAfterStore(stored: Tables, steps: seq<Step>, config: Config,
          connection: Connection, e: Envelope)
    requires Inv(stored) && config.policy.Valid() && Normalize(e.content).Some?
    requires StoreRaw(stored, connection, e) == Success(stored)
    requires forall i :: 0 <= i < |steps| ==> Delivery(steps[i], connection, e)
    ensures var t := Run(stored, steps, config);
            t == stored || ProcessedByOne(stored, steps, RawKey(connection, IdentityOf(e)), config, t)
    decreases |steps|
  {
    var r := RawKey(connection, IdentityOf(e));
    assert InStep(View(stored, r));
    if steps != [] {
      var s := steps[0];
      assert Delivery(s, connection, e);
      assert forall i :: 0 <= i < |steps[1..]| ==> steps[1..][i] == steps[i + 1];
      if s.ProcessStep? {
        ProcessedIsTerminal(stored, r, s.scan, config);
        RedeliveriesChangeNothing(Next(stored, s, config), steps[1..], config, connection, e);
        assert ProcessedBy(stored, steps[0], r, config, Run(stored, steps, config));
      } else {
        InterleavedAfterStore(stored, steps[1..], config, connection, e);
      }
    }
  }

  /** What one complete delivery of acceptable content leaves, or so many complete rejections. */
  ghost predicate DeliveredAlone(stored: Tables, steps: seq<Step>, r: RawKey, config: Config, t: Tables)
    requires config.policy.Valid() && Known(stored, r)
  {
    if Normalize(stored.raws[r]).Some? then ProcessedByOne(stored, steps, r, config, t)
    else exists n :: 0 < n <= Processings(steps) && t == Rejected(stored, r, n)
  }

  /**
   * However the transactions of any number of concurrent deliveries of one event interleave, what they
   * leave is what one delivery leaves: nothing yet, the stored event, or the stored event processed once.
   * Content that its connector rejects is stored once and marked failed, as often as it is tried.
   */
  lemma {:induction false} ConcurrentDeliveriesAreOne(t: Tables, steps: seq<Step>, config: Config,
          connection: Connection, e: Envelope)
    requires Inv(t) && config.policy.Valid() && RawKey(connection, IdentityOf(e)) !in t.raws
    requires forall i :: 0 <= i < |steps| ==> Delivery(steps[i], connection, e)
    ensures var store, t' := StoreRaw(t, connection, e), Run(t, steps, config);
            t' == t || (store.Success? && (t' == store.value ||
                        DeliveredAlone(store.value, steps, RawKey(connection, IdentityOf(e)), config, t')))
    decreases |steps|
  {
    var r, store := RawKey(connection, IdentityOf(e)), StoreRaw(t, connection, e);
    if steps != [] {
      var s := steps[0];
      assert Delivery(s, connection, e);
      assert forall i :: 0 <= i < |steps[1..]| ==> steps[1..][i] == steps[i + 1];
      if s.StoreStep? && store.Success? {
        if Normalize(e.content).Some? {
          StoreKeepsInv(t, connection, e);
          InterleavedAfterStore(store.value, steps[1..], config, connection, e);
          LaterStep(store.value, steps, r, config, Run(store.value, steps[1..], config));
        } else {
          StoredIsRejectable(t, connection, e);
          RejectedAgain(store.value, steps[1..], config, connection, e);
          assert Run(t, steps, config) == Rejected(store.value, r, Processings(steps));
        }
      } else {
        assert Next(t, s, config) == t;
        ConcurrentDeliveriesAreOne(t, steps[1..], config, connection, e);
        if store.Success? { LaterStep(store.value, steps, r, config, Run(t, steps[1..], config)); }
      }
    }
  }

  lemma LaterStep(stored: Tables, steps: seq<Step>, r: RawKey, config: Config, t: Tables)
    requires steps != [] && config.policy.Valid()
    ensures ProcessedByOne(stored, steps[1..], r, config, t) ==> ProcessedByOne(stored, steps, r, config, t)
  {
    if ProcessedByOne(stored, steps[1..], r, config, t) {
      var i :| 0 <= i < |steps[1..]| && ProcessedBy(stored, steps[1..][i], r, config, t);
      assert ProcessedBy(stored, steps[i + 1], r, config, t);
    }
  }

  /**
   * A delivery with a payment identifier that earlier evidence attached to a transaction of the same owner, money
   * and type adds evidence but never a transaction.
   */
  lemma SharedIdentifierAddsNoTransaction(t: Tables, r: RawKey, scan: Scan, config: Config, l: NormKey, i: nat, j: nat)
    requires Inv(t) && config.Valid() && Known(t, r) && Normalize(t.raws[r]).Some?
    requires l in t.evidence && l in t.norms && t.evidence[l] in t.txs && t.evidence[l] in scan.exact
    requires var e := Normalize(t.raws[r]).value;
             && i < |e.identifiers| && j < |t.norms[l].identifiers| && e.identifiers[i] == t.norms[l].identifiers[j]
    requires var e, tx := Normalize(t.raws[r]).value, t.txs[t.evidence[l]];
             && tx.owner == r.connection.owner && tx.status == Posted && e.occurredAt.Some?
             && e.amount == Some(tx.amount) && e.currency == Some(tx.currency) && e.kind == TransactionEvent(tx.kind)
    ensures Process(t, r, scan, config).Success? && Process(t, r, scan, config).value.txs == t.txs
  {
    var e, x := Normalize(t.raws[r]).value, t.evidence[l];
    assert t.norms[l].identifiers[j] in EvidenceIdentifiers(t, x);
    ProcessKeepsInv(t, r, scan, config);
    if !Terminal(t.processing[r].state) { IdentifierMerges(t, r, e, scan, config, x); }
  }

  lemma IdentifierMerges(t: Tables, r: RawKey, e: Event, scan: Scan, config: Config, x: TxId)
    requires Inv(t) && config.Valid() && Known(t, r) && Normalize(t.raws[r]) == Some(e)
    requires !Terminal(t.processing[r].state)
    requires Eligible(t, r.Owner(), e, x) && SharesEvidence(t, e, x) && x in scan.exact
    ensures Process(t, r, scan, config).Success? && Process(t, r, scan, config).value.txs == t.txs
  {
    ProcessShape(t, r, e, scan, config);
    PreparedGrows(t, r, e);
    PreparedMoves(t, r, e);
    if ParseTransaction(r.Owner(), e).Some? {
      SameIdentifiers(t, Prepared(t, r, e), x);
      IdentifierAlwaysMerges(Prepared(t, r, e), r.Owner(), e, scan, config, x);
      FlaggedIsEligible(Prepared(t, r, e), r.Owner(), e, scan, config);
      MergeHandoff(Prepared(t, r, e), NormKey(r, Connector), ParseTransaction(r.Owner(), e).value,
                   Outcome(Prepared(t, r, e), r.Owner(), e, scan, config));
    }
  }

  lemma SameIdentifiers(t: Tables, t1: Tables, x: TxId)
    requires Inv(t) && Grows(t, t1) && t1.evidence == t.evidence
    ensures EvidenceIdentifiers(t1, x) == EvidenceIdentifiers(t, x)
  {
    forall k | k in t.evidence ensures k in t.norms && t1.norms[k] == t.norms[k] { assert CaseOk(t, k); }
  }
}
