/** Which way processing states and proposals move over a run: only forward. */
module Progress {
  import opened Wrappers
  import opened Domain
  import opened Rows
  import opened Candidates
  import opened Ledger
  import opened Lockstep
  import Effects
  import Provenance

  /** A received event can go anywhere; one in review can only be processed; failed and processed are final. */
  predicate StateOnward(s: RawState, s': RawState)
  {
    s' == s || s == Received || (s == NeedsReview && s' == Processed)
  }

  /** A proposal is decided once, and only reconciliation stands between some approvals and their target. */
  predicate StatusOnward(s: ProposalStatus, s': ProposalStatus)
  {
    s' == s || s == AwaitingReview || (s == AwaitingReconciliation && s' == ProposalStatus.Approved)
  }

  ghost predicate StatesOnward(t: Tables, t': Tables)
  {
    forall r :: r in t.processing ==>
        r in t'.processing && StateOnward(t.processing[r].state, t'.processing[r].state)
  }

  ghost predicate ProposalsOnward(t: Tables, t': Tables)
  {
    forall r :: r in t.proposals ==>
        r in t'.proposals && StatusOnward(t.proposals[r].status, t'.proposals[r].status)
  }

  ghost predicate Onward(t: Tables, t': Tables) { StatesOnward(t, t') && ProposalsOnward(t, t') }

  /** At most the rows of one raw event change, and those move onward. */
  lemma RowsOnward(t: Tables, t': Tables, r: RawKey)
    requires r in t'.processing && t'.processing == t.processing[r := t'.processing[r]]
    requires r in t.processing ==> StateOnward(t.processing[r].state, t'.processing[r].state)
    requires || t'.proposals == t.proposals
             || (r in t'.proposals && t'.proposals == t.proposals[r := t'.proposals[r]])
    requires r in t.proposals ==> r in t'.proposals && StatusOnward(t.proposals[r].status, t'.proposals[r].status)
    ensures Onward(t, t')
  {
  }

  lemma ProcessOnward(t: Tables, r: RawKey, scan: Scan, config: Config)
    requires Inv(t) && config.policy.Valid() && Known(t, r)
    ensures Process(t, r, scan, config).Success? && Onward(t, Process(t, r, scan, config).value)
  {
    var outcome := Process(t, r, scan, config);
    if t.processing[r].state == Processed || t.processing[r].state == NeedsReview {
      assert Normalize(t.raws[r]).Some? by { assert InStep(View(t, r)); }
      Effects.ProcessedIsDone(t, r, scan, config);
    } else if Normalize(t.raws[r]).None? {
      Effects.RejectedCommits(t, r, scan, config);
      assert t.processing[r].state == Received || t.processing[r].state == RawState.Failed by {
        assert InStep(View(t, r));
      }
      RowsOnward(t, outcome.value, r);
    } else {
      Effects.ProcessCommits(t, r, Normalize(t.raws[r]).value, scan, config);
      assert t.processing[r].state == Received by { assert InStep(View(t, r)); }
      RowsOnward(t, outcome.value, r);
    }
  }

  lemma ApproveOnward(t: Tables, user: nat, r: RawKey, scan: Scan, other: Option<nat>, config: Config)
    requires Inv(t) && config.policy.Valid() && Approve(t, user, r, scan, other, config).Success?
    ensures Onward(t, Approve(t, user, r, scan, other, config).value)
  {
    Effects.ApproveSucceedsIff(t, user, r, scan, other, config);
    Effects.ApproveCommits(t, user, r, scan, other, config);
    assert t.processing[r].state == Received || t.processing[r].state == NeedsReview by { assert InStep(View(t, r)); }
    RowsOnward(t, Approve(t, user, r, scan, other, config).value, r);
  }

  lemma DecisionOnward(t: Tables, t': Tables, k: NormKey, status: CaseStatus, x: TxId, a: Action)
    requires Inv(t) && k in t.cases && Effects.Decides(t, t', k, status, x, a)
    requires t.cases[k].status == PendingReview || t.cases[k].status == Merged
    requires || t'.processing == t.processing
             || (k.raw in t.processing && t.processing[k.raw].state == NeedsReview
                 && t'.processing == t.processing[k.raw := Processing(Processed, "")])
    ensures Onward(t, t')
  {
    assert InStep(View(t, k.raw));
  }

  lemma StoreOnward(t: Tables, connection: Connection, envelope: Envelope)
    requires Inv(t) && StoreRaw(t, connection, envelope).Success?
    ensures Onward(t, StoreRaw(t, connection, envelope).value)
  {
    var r := RawKey(connection, IdentityOf(envelope));
    Effects.StoreCommits(t, connection, envelope);
    if r !in t.raws {
      assert r !in t.processing by { assert InStep(View(t, r)); }
      RowsOnward(t, StoreRaw(t, connection, envelope).value, r);
    }
  }

  lemma SourceStepOnward(t: Tables, s: Step, config: Config)
    requires Inv(t) && config.policy.Valid() && Provenance.SourceStep(s) && Apply(t, s, config).Success?
    ensures Onward(t, Apply(t, s, config).value)
  {
    match s
    case StoreStep(connection, envelope) => StoreOnward(t, connection, envelope);
    case ExtractStep(r, e) =>
      Effects.ExtractCommits(t, r, e);
      RowsOnward(t, Extract(t, r, e).value, r);
    case ExtractionFailedStep(_, _) =>
    case RejectStep(user, r) =>
      Effects.RejectSucceedsIff(t, user, r);
      RowsOnward(t, Reject(t, user, r).value, r);
  }

  lemma DecisionStepOnward(t: Tables, s: Step, config: Config)
    requires Inv(t) && config.policy.Valid() && (s.MergeStep? || s.KeepSeparateStep? || s.UnmergeStep?)
    requires Apply(t, s, config).Success?
    ensures Onward(t, Apply(t, s, config).value)
  {
    var k, t' := s.key, Apply(t, s, config).value;
    Provenance.MergeSucceedsIff(t, s.user, k);
    match s {
      case MergeStep(user, _) =>
        Effects.MergeCommits(t, user, k);
        var x := t.cases[k].candidate.value;
        DecisionOnward(t, t', k, Merged, x, Action(UserMerged, None, Some(x)));
      case KeepSeparateStep(user, _) =>
        Effects.KeepSeparateCommits(t, user, k);
        DecisionOnward(t, t', k, KeptSeparate, t.nextTx, Action(UserKeptSeparate, None, Some(t.nextTx)));
      case UnmergeStep(user, _) =>
        Effects.UnmergeCommits(t, user, k);
        var a := Action(UserUnmerged, Some(t.evidence[k]), Some(t.nextTx));
        DecisionOnward(t, t', k, Unmerged, t.nextTx, a);
    }
  }

  lemma NextOnward(t: Tables, s: Step, config: Config)
    requires Inv(t) && config.policy.Valid()
    ensures Onward(t, Next(t, s, config))
  {
    if Apply(t, s, config).Success? {
      match s {
        case ProcessStep(r, scan) => ProcessOnward(t, r, scan, config);
        case ApproveStep(user, r, scan, other) => ApproveOnward(t, user, r, scan, other, config);
        case ManualStep(_) =>
        case _ =>
          if Provenance.SourceStep(s) { SourceStepOnward(t, s, config); } else { DecisionStepOnward(t, s, config); }
      }
    }
  }

  lemma OnwardTransitive(t: Tables, t1: Tables, t': Tables)
    requires Onward(t, t1) && Onward(t1, t')
    ensures Onward(t, t')
  {
  }

  /**
   * Over any run: a processed event stays processed, a rejected one failed, one in review is at most processed;
   * a rejected proposal stays rejected, an approved one approved, and nothing returns to its owner's list.
   */
  lemma {:induction false} RunMovesForward(t: Tables, steps: seq<Step>, config: Config)
    requires Inv(t) && config.policy.Valid()
    ensures Onward(t, Run(t, steps, config))
    decreases |steps|
  {
    if steps != [] {
      var t1 := Next(t, steps[0], config);
      NextOnward(t, steps[0], config);
      NextKeepsInv(t, steps[0], config);
      RunMovesForward(t1, steps[1..], config);
      OnwardTransitive(t, t1, Run(t1, steps[1..], config));
    }
  }
}
