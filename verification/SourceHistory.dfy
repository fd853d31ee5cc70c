/**
 * What no transaction ever does to the sources: a stored raw event keeps its content, a proposal keeps its
 * id and its extracted event, and only storing and extracting add either.
 */
module SourceHistory {
  import opened Wrappers
  import opened Domain
  import opened Rows
  import opened Candidates
  import opened Ledger
  import opened Lockstep

  /** The same raw events and the same proposals, but for review statuses and targets. */
  ghost predicate SameDeliveries(t: Tables, t': Tables)
  {
    && t'.raws == t.raws && t'.nextProposal == t.nextProposal
    && t'.proposals.Keys == t.proposals.Keys
    && forall r :: r in t.proposals ==> SameProposal(t.proposals[r], t'.proposals[r])
  }

  predicate SameProposal(p: Proposal, p': Proposal) { p'.id == p.id && p'.event == p.event }

  lemma ReconcileKeepsDeliveries(t: Tables, k: NormKey, tx: Transaction, scan: Scan, config: Config)
    requires k in t.norms && config.policy.Valid()
    ensures Reconcile(t, k, tx, scan, config).Success? ==> SameDeliveries(t, Reconcile(t, k, tx, scan, config).value.0)
  {
  }

  lemma QueueKeepsDeliveries(t: Tables, r: RawKey, code: string)
    requires r in t.processing
    ensures QueueForReview(t, r, code).Success? ==> SameDeliveries(t, QueueForReview(t, r, code).value)
  {
  }

  lemma ConcludeKeepsDeliveries(t: Tables, r: RawKey, handoff: Result<(Tables, Option<TxId>), Error>)
    requires handoff.Success? ==> r in handoff.value.0.processing && SameDeliveries(t, handoff.value.0)
    ensures Conclude(r, handoff).Success? ==> SameDeliveries(t, Conclude(r, handoff).value)
  {
  }

  lemma PostKeepsDeliveries(t: Tables, k: NormKey, scan: Scan, config: Config)
    requires k in t.norms && k.raw in t.processing && config.policy.Valid()
    ensures PostOrQueue(t, k, scan, config).Success? ==> SameDeliveries(t, PostOrQueue(t, k, scan, config).value)
  {
    var command := ParseTransaction(k.Owner(), t.norms[k]);
    if command.Some? {
      ReconcileKeepsDeliveries(t, k, command.value, scan, config);
      ConcludeKeepsDeliveries(t, k.raw, Reconcile(t, k, command.value, scan, config));
    } else {
      QueueKeepsDeliveries(t, k.raw, "REVIEW_REQUIRED");
      QueueKeepsDeliveries(t, k.raw, "LEDGER_VALIDATION_REVIEW");
    }
  }

  /** A first processing is PostOrQueue on the prepared tables, unless the state machine refuses it. */
  lemma ProcessIsPost(t: Tables, r: RawKey, e: Event, scan: Scan, config: Config)
    requires Known(t, r) && Normalize(t.raws[r]) == Some(e) && !Terminal(t.processing[r].state) && config.policy.Valid()
    ensures NormKey(r, Connector) in Prepared(t, r, e).norms && r in Prepared(t, r, e).processing
    ensures Process(t, r, scan, config) == PostOrQueue(Prepared(t, r, e), NormKey(r, Connector), scan, config)
  {
    assert t.processing[r].state == Normalized || CanTransition(t.processing[r].state, Normalized);
    assert Process(t, r, scan, config) == ProcessNormalized(t, r, e, scan, config);
  }

  lemma FirstProcessKeepsDeliveries(t: Tables, r: RawKey, e: Event, scan: Scan, config: Config)
    requires config.policy.Valid() && Known(t, r) && Normalize(t.raws[r]) == Some(e) && !Terminal(t.processing[r].state)
    ensures Process(t, r, scan, config).Success? ==> SameDeliveries(t, Process(t, r, scan, config).value)
  {
    ProcessIsPost(t, r, e, scan, config);
    PostKeepsDeliveries(Prepared(t, r, e), NormKey(r, Connector), scan, config);
  }

  lemma FailedKeepsDeliveries(t: Tables, r: RawKey, code: string)
    ensures MarkFailed(t, r, code).Success? ==> SameDeliveries(t, MarkFailed(t, r, code).value)
  {
  }

  lemma ProcessKeepsDeliveries(t: Tables, r: RawKey, scan: Scan, config: Config)
    requires config.policy.Valid()
    ensures Process(t, r, scan, config).Success? ==> SameDeliveries(t, Process(t, r, scan, config).value)
  {
    if Known(t, r) {
      match Normalize(t.raws[r]) {
        case None => FailedKeepsDeliveries(t, r, "INVALID_NORMALIZED_EVENT");
        case Some(e) =>
          if Terminal(t.processing[r].state) {
            assert Process(t, r, scan, config) == Success(t);
          } else {
            FirstProcessKeepsDeliveries(t, r, e, scan, config);
          }
      }
    }
  }

  lemma FinishApprovalKeepsDeliveries(t: Tables, t1: Tables, r: RawKey, target: Target)
    requires SameDeliveries(t, t1) && r in t1.proposals && r in t1.processing
    ensures FinishApproval(t1, r, target).Success? ==> SameDeliveries(t, FinishApproval(t1, r, target).value)
  {
    if FinishApproval(t1, r, target).Success? {
      var t2 := SetState(t1, r, Processed, "");
      assert SameDeliveries(t, t2);
      assert SameProposal(t1.proposals[r], SetProposal(t2, r, ProposalStatus.Approved, target).proposals[r]);
    }
  }

  lemma AwaitingKeepsDeliveries(t: Tables, t1: Tables, r: RawKey, state: RawState)
    requires SameDeliveries(t, t1) && r in t1.proposals
    ensures SameDeliveries(t,
              SetState(SetProposal(t1, r, AwaitingReconciliation, NoTarget), r, state, "POSSIBLE_DUPLICATE"))
  {
  }

  lemma ApproveTransactionKeepsDeliveries(t: Tables, r: RawKey, e: Event, scan: Scan, config: Config)
    requires NormKey(r, Prompt) in t.norms && config.policy.Valid()
    ensures ApproveTransaction(t, r, e, scan, config).Success? ==>
              SameDeliveries(t, ApproveTransaction(t, r, e, scan, config).value.0)
  {
  }

  lemma ApproveKeepsDeliveries(t: Tables, user: nat, r: RawKey, scan: Scan, other: Option<nat>, config: Config)
    requires config.policy.Valid() && Approve(t, user, r, scan, other, config).Success?
    ensures SameDeliveries(t, Approve(t, user, r, scan, other, config).value)
  {
    var e := t.proposals[r].event;
    var t1 := StoreNormalized(t, NormKey(r, Prompt), e.(identifiers := []));
    if e.kind.TransactionEvent? {
      ApproveTransactionKeepsDeliveries(t1, r, e, scan, config);
      var (t2, target) := ApproveTransaction(t1, r, e, scan, config).value;
      if target.Some? {
        FinishApprovalKeepsDeliveries(t, t2, r, TransactionTarget(target.value));
      } else {
        AwaitingKeepsDeliveries(t, t2, r, t.processing[r].state);
      }
    } else {
      FinishApprovalKeepsDeliveries(t, t1, r, OtherTarget(other.value));
    }
  }

  lemma ResolveKeepsDeliveries(t: Tables, t1: Tables, k: NormKey, x: TxId, status: CaseStatus, action: ActionKind)
    requires k in t1.cases && SameDeliveries(t, t1) && Resolve(t1, k, x, status, action).Success?
    ensures SameDeliveries(t, Resolve(t1, k, x, status, action).value)
  {
  }

  lemma ReviewKeepsDeliveries(t: Tables, user: nat, k: NormKey)
    ensures MergeCase(t, user, k).Success? ==> SameDeliveries(t, MergeCase(t, user, k).value)
    ensures KeepSeparate(t, user, k).Success? ==> SameDeliveries(t, KeepSeparate(t, user, k).value)
  {
    if MergeCase(t, user, k).Success? {
      ResolveKeepsDeliveries(t, t, k, t.cases[k].candidate.value, Merged, UserMerged);
    }
    if KeepSeparate(t, user, k).Success? {
      var tx := ParseTransaction(user, t.norms[k]).value;
      ResolveKeepsDeliveries(t, CreateTransaction(t, tx), k, t.nextTx, KeptSeparate, UserKeptSeparate);
    }
  }

  lemma UnmergeKeepsDeliveries(t: Tables, user: nat, k: NormKey)
    ensures Unmerge(t, user, k).Success? ==> SameDeliveries(t, Unmerge(t, user, k).value)
  {
  }

  /** Raw events and proposals only accumulate, one at a time, through these two steps. */
  ghost predicate SourcesGrow(t: Tables, t': Tables, s: Step)
  {
    match s
    case StoreStep(connection, e) =>
      var r := RawKey(connection, IdentityOf(e));
      && t'.proposals == t.proposals && t'.nextProposal == t.nextProposal
      && (t'.raws == t.raws || (r in t'.raws && t'.raws == t.raws[r := e.content]
          && (r in t.raws ==> t.raws[r] == e.content)))
    case ExtractStep(r, e) =>
      && t'.raws == t.raws
      && (SameDeliveries(t, t')
          || (r !in t.proposals && t'.nextProposal == t.nextProposal + 1
              && t'.proposals == t.proposals[r := Proposal(t.nextProposal, e, AwaitingReview, NoTarget)]))
    case _ => SameDeliveries(t, t')
  }

  lemma NextGrowsSources(t: Tables, s: Step, config: Config)
    requires config.policy.Valid()
    ensures SourcesGrow(t, Next(t, s, config), s)
  {
    match s {
      case ProcessStep(raw, scan) => ProcessKeepsDeliveries(t, raw, scan, config);
      case ApproveStep(user, raw, scan, other) =>
        if Approve(t, user, raw, scan, other, config).Success? {
          ApproveKeepsDeliveries(t, user, raw, scan, other, config);
        }
      case MergeStep(user, key) => ReviewKeepsDeliveries(t, user, key);
      case KeepSeparateStep(user, key) => ReviewKeepsDeliveries(t, user, key);
      case UnmergeStep(user, key) => UnmergeKeepsDeliveries(t, user, key);
      case _ => SourceStepGrows(t, s, config);
    }
  }

  lemma SourceStepGrows(t: Tables, s: Step, config: Config)
    requires config.policy.Valid()
    requires s.StoreStep? || s.ExtractStep? || s.ExtractionFailedStep? || s.RejectStep? || s.ManualStep?
    ensures SourcesGrow(t, Next(t, s, config), s)
  {
    match s {
      case StoreStep(connection, e) => StoreGrows(t, connection, e);
      case ExtractStep(r, e) => ExtractGrows(t, r, e);
      case ExtractionFailedStep(r, code) => ExtractionFailedKeepsDeliveries(t, r, code);
      case RejectStep(user, r) => RejectKeepsDeliveries(t, user, r);
      case ManualStep(tx) => ManualKeepsDeliveries(t, tx);
    }
  }

  lemma StoreGrows(t: Tables, connection: Connection, e: Envelope)
    ensures StoreRaw(t, connection, e).Success? ==>
              SourcesGrow(t, StoreRaw(t, connection, e).value, StoreStep(connection, e))
  {
  }

  lemma ExtractGrows(t: Tables, r: RawKey, e: Event)
    ensures Extract(t, r, e).Success? ==> SourcesGrow(t, Extract(t, r, e).value, ExtractStep(r, e))
  {
  }

  lemma ExtractionFailedKeepsDeliveries(t: Tables, r: RawKey, code: string)
    ensures ExtractionFailed(t, r, code).Success? ==> SameDeliveries(t, ExtractionFailed(t, r, code).value)
  {
  }

  lemma RejectKeepsDeliveries(t: Tables, user: nat, r: RawKey)
    ensures Reject(t, user, r).Success? ==> SameDeliveries(t, Reject(t, user, r).value)
  {
  }

  lemma ManualKeepsDeliveries(t: Tables, tx: Transaction)
    ensures RecordManual(t, tx).Success? ==> SameDeliveries(t, RecordManual(t, tx).value)
  {
  }
}
