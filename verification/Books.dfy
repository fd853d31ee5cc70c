/**
 * The invariant of the books: what cases, evidence, audit actions and transactions say about each other
 * after every committed transaction.
 */
module Books {
  import opened Wrappers
  import opened Domain
  import opened Rows
  import opened Candidates
  import opened Ledger
  import Scoring

  // ---------------------------------------------------------------- the audit log

  datatype Phase = Start | At(status: CaseStatus, target: Option<TxId>)

  function TargetOf(p: Phase): Option<TxId> { if p.Start? then None else p.target }

  /** The case lifecycle as an automaton over audit actions: each action leaves the target it names. */
  function Advance(p: Option<Phase>, a: Action): Option<Phase>
  {
    if p.None? || a.from != TargetOf(p.value) then None
    else
      match (p.value, a.kind)
      case (Start, CandidateFlagged) => if a.to.None? then Some(At(PendingReview, None)) else None
      case (Start, AutoMerged) => if a.to.Some? then Some(At(Merged, a.to)) else None
      case (Start, CreatedNew) => if a.to.Some? then Some(At(KeptSeparate, a.to)) else None
      case (At(PendingReview, _), UserMerged) => if a.to.Some? then Some(At(Merged, a.to)) else None
      case (At(PendingReview, _), UserKeptSeparate) => if a.to.Some? then Some(At(KeptSeparate, a.to)) else None
      case (At(Merged, _), UserUnmerged) => if a.to.Some? && a.to != a.from then Some(At(Unmerged, a.to)) else None
      case _ => None
  }

  function Replay(actions: seq<Action>): Option<Phase>
  {
    if actions == [] then Some(Start) else Advance(Replay(actions[..|actions| - 1]), actions[|actions| - 1])
  }

  lemma ReplayAppend(actions: seq<Action>, a: Action)
    ensures Replay(actions + [a]) == Advance(Replay(actions), a)
  {
    assert (actions + [a])[..|actions|] == actions;
  }

  function OpeningAction(d: Decision): ActionKind
  {
    match d case Merge => AutoMerged case PossibleDuplicate => CandidateFlagged case NewTransaction => CreatedNew
  }

  predicate AuditExplains(c: Case)
  {
    && c.actions != []
    && c.actions[0].kind == OpeningAction(c.decision)
    && Replay(c.actions) == Some(At(c.status, c.resulting))
  }

  // ---------------------------------------------------------------- the invariant

  /** The evidence or candidate transaction `x` carries exactly the event's owner, money and type. */
  predicate Agrees(t: Tables, k: NormKey, x: TxId)
    requires k in t.norms
  {
    Owned(t, k.Owner(), x) && CandidateStillValid(t.txs[x], t.norms[k])
  }

  /** A transaction that a case creates is the event's in every column. */
  predicate Mirrors(tx: Transaction, owner: nat, e: Event)
  {
    && tx.owner == owner && Some(tx.amount) == e.amount && Some(tx.currency) == e.currency
    && TransactionEvent(tx.kind) == e.kind && Some(tx.date) == e.occurredAt
    && tx.description == e.description && tx.merchant == e.merchant
    && tx.status == Posted && tx.source == Ingestion
  }

  predicate Creator(c: Case) { c.status == KeptSeparate || c.status == Unmerged }

  /** The case by itself: its check constraints hold and its audit log explains its status and target. */
  predicate CaseSound(c: Case) { CaseChecks(c) && AuditExplains(c) }

  predicate CaseOk(t: Tables, k: NormKey)
  {
    k in t.cases ==>
      var c := t.cases[k];
      && k in t.norms
      && ParseTransaction(k.Owner(), t.norms[k]).Some?
      && CaseSound(c)
      && (c.candidate.Some? ==> Agrees(t, k, c.candidate.value))
      && (k in t.evidence <==> c.status != PendingReview)
      && (k in t.evidence ==> c.resulting == Some(t.evidence[k]) && Agrees(t, k, t.evidence[k]))
      && (k in t.evidence && Creator(c) ==> Mirrors(t.txs[t.evidence[k]], k.Owner(), t.norms[k]))
  }

  /** Case `k` is the one whose resolution created transaction `x`. */
  predicate CreatedBy(t: Tables, x: TxId, k: NormKey)
  {
    k in t.cases && Creator(t.cases[k]) && t.cases[k].resulting == Some(x)
  }

  predicate TransactionOk(t: Tables, x: TxId) { x in t.txs ==> x < t.nextTx && 0 < t.txs[x].amount }

  ghost predicate CasesOk(t: Tables) { forall k :: CaseOk(t, k) }
  ghost predicate EvidenceOk(t: Tables) { forall k :: k in t.evidence ==> k in t.cases }
  ghost predicate TransactionsOk(t: Tables) { forall x :: TransactionOk(t, x) }
  ghost predicate CreatorsUnique(t: Tables) { forall x, k, l :: CreatedBy(t, x, k) && CreatedBy(t, x, l) ==> k == l }
  ghost predicate Ingested(t: Tables, x: TxId) { x in t.txs && t.txs[x].source == Ingestion }
  ghost predicate CreatorsExist(t: Tables) { forall x :: Ingested(t, x) ==> exists k :: CreatedBy(t, x, k) }

  ghost predicate BooksOk(t: Tables)
  {
    CasesOk(t) && EvidenceOk(t) && TransactionsOk(t) && CreatorsUnique(t) && CreatorsExist(t)
  }

  lemma NextIsFresh(t: Tables)
    requires TransactionsOk(t)
    ensures t.nextTx !in t.txs
  {
    assert TransactionOk(t, t.nextTx);
  }

  // ---------------------------------------------------------------- how a transaction may change the books

  /** Normalized events and transactions are never changed once written. */
  ghost predicate Grows(t: Tables, t': Tables)
  {
    && (forall k :: k in t.norms ==> k in t'.norms && t'.norms[k] == t.norms[k])
    && (forall x :: x in t.txs ==> x in t'.txs && t'.txs[x] == t.txs[x])
  }

  /** Only case `k` and its evidence changed. */
  ghost predicate OnlyCase(t: Tables, t': Tables, k: NormKey)
  {
    && k in t'.cases
    && t'.cases == t.cases[k := t'.cases[k]]
    && (forall l :: l != k ==> (l in t'.evidence <==> l in t.evidence))
    && (forall l :: l != k && l in t.evidence ==> t'.evidence[l] == t.evidence[l])
  }

  lemma UntouchedCaseOk(t: Tables, t': Tables, l: NormKey)
    requires CaseOk(t, l) && Grows(t, t')
    requires l in t'.cases ==> l in t.cases && t'.cases[l] == t.cases[l]
    requires (l in t'.evidence <==> l in t.evidence) && (l in t.evidence ==> t'.evidence[l] == t.evidence[l])
    ensures CaseOk(t', l)
  {
  }

  lemma CasesStayOk(t: Tables, t': Tables, k: NormKey)
    requires CasesOk(t) && Grows(t, t') && OnlyCase(t, t', k) && CaseOk(t', k)
    ensures CasesOk(t')
  {
    forall l ensures CaseOk(t', l) { if l != k { assert CaseOk(t, l); UntouchedCaseOk(t, t', l); } }
  }

  ghost predicate SameCreators(t: Tables, t': Tables)
  {
    forall x, k :: CreatedBy(t, x, k) <==> CreatedBy(t', x, k)
  }

  lemma CreatorsStay(t: Tables, t': Tables)
    requires CreatorsUnique(t) && CreatorsExist(t) && SameCreators(t, t')
    requires forall x :: Ingested(t', x) ==> Ingested(t, x)
    ensures CreatorsUnique(t') && CreatorsExist(t')
  {
    forall x, k, l | CreatedBy(t', x, k) && CreatedBy(t', x, l) ensures k == l {
      assert CreatedBy(t, x, k) && CreatedBy(t, x, l);
    }
    forall x | Ingested(t', x) ensures exists k :: CreatedBy(t', x, k) {
      assert Ingested(t, x);
      var k :| CreatedBy(t, x, k);
      assert CreatedBy(t', x, k);
    }
  }

  /** A case that is resolved to an existing transaction, or still pending, keeps the books. */
  lemma BooksWithoutNewTransaction(t: Tables, t': Tables, k: NormKey)
    requires BooksOk(t) && Grows(t, t') && OnlyCase(t, t', k) && CaseOk(t', k)
    requires t'.txs == t.txs && t'.nextTx == t.nextTx
    requires k in t'.evidence || k !in t.evidence
    requires !Creator(t'.cases[k]) && (k in t.cases ==> !Creator(t.cases[k]))
    ensures BooksOk(t')
  {
    CasesStayOk(t, t', k);
    CreatorsStay(t, t');
    forall x ensures TransactionOk(t', x) { assert TransactionOk(t, x); }
  }

  lemma OldCreatorIsOld(t: Tables, x: TxId, l: NormKey)
    requires BooksOk(t) && CreatedBy(t, x, l)
    ensures x in t.txs && x < t.nextTx
  {
    assert CaseOk(t, l) && TransactionOk(t, x);
  }

  ghost predicate OneMoreCreator(t: Tables, t': Tables, k: NormKey)
  {
    forall x, l :: CreatedBy(t', x, l) <==> CreatedBy(t, x, l) || (l == k && x == t.nextTx)
  }

  lemma CreatorsGrow(t: Tables, t': Tables, k: NormKey)
    requires BooksOk(t) && OneMoreCreator(t, t', k)
    requires forall x :: Ingested(t', x) ==> Ingested(t, x) || x == t.nextTx
    ensures CreatorsUnique(t') && CreatorsExist(t')
  {
    forall x, l, m | CreatedBy(t', x, l) && CreatedBy(t', x, m) ensures l == m {
      if CreatedBy(t, x, l) { OldCreatorIsOld(t, x, l); }
      if CreatedBy(t, x, m) { OldCreatorIsOld(t, x, m); }
    }
    forall x | Ingested(t', x) ensures exists l :: CreatedBy(t', x, l) {
      if x == t.nextTx {
        assert CreatedBy(t', x, k);
      } else {
        var l :| CreatedBy(t, x, l);
        assert CreatedBy(t', x, l);
      }
    }
  }

  /** A case that creates its own transaction keeps the books. */
  lemma BooksWithNewTransaction(t: Tables, t': Tables, k: NormKey, tx: Transaction)
    requires BooksOk(t) && Grows(t, t') && OnlyCase(t, t', k) && CaseOk(t', k)
    requires t'.txs == t.txs[t.nextTx := tx] && t'.nextTx == t.nextTx + 1 && 0 < tx.amount
    requires CreatedBy(t', t.nextTx, k) && (k in t.cases ==> !Creator(t.cases[k]))
    ensures BooksOk(t')
  {
    CasesStayOk(t, t', k);
    CreatorsGrow(t, t', k);
    forall x ensures TransactionOk(t', x) { assert TransactionOk(t, x); }
    forall l | l in t'.evidence ensures l in t'.cases { assert l == k || l in t.evidence; }
    assert k in t'.cases;
  }

  // ---------------------------------------------------------------- the handoff

  ghost predicate GoodOutcome(t: Tables, k: NormKey, o: Scoring.Outcome)
    requires k in t.norms
  {
    && (o.decision != NewTransaction ==> o.candidate.Some?)
    && (o.candidate.Some? ==> Agrees(t, k, o.candidate.value))
  }

  /** What a handoff leaves behind, besides the books: a pending case or a resolved one with its target. */
  ghost predicate HandedOff(t: Tables, t': Tables, k: NormKey, target: Option<TxId>)
  {
    && Grows(t, t')
    && OnlyCase(t, t', k)
    && (target.None? ==> t'.cases[k].status == PendingReview)
    && (target.Some? ==> t'.cases[k].status != PendingReview && t'.cases[k].resulting == target)
  }

  function OpeningCase(o: Scoring.Outcome, status: CaseStatus, resulting: Option<TxId>): Case
  {
    Case(o.candidate, resulting, o.decision, status, [Action(OpeningAction(o.decision), None, resulting)])
  }

  lemma OpeningCaseSound(o: Scoring.Outcome, x: TxId)
    ensures o.decision == Merge && o.candidate == Some(x) ==> CaseSound(OpeningCase(o, Merged, Some(x)))
    ensures o.decision == PossibleDuplicate && o.candidate.Some? ==> CaseSound(OpeningCase(o, PendingReview, None))
    ensures o.decision == NewTransaction && o.candidate != Some(x) ==> CaseSound(OpeningCase(o, KeptSeparate, Some(x)))
  {
    ReplayAppend([], Action(AutoMerged, None, Some(x)));
    ReplayAppend([], Action(CandidateFlagged, None, None));
    ReplayAppend([], Action(CreatedNew, None, Some(x)));
  }

  function Opened(t: Tables, k: NormKey, o: Scoring.Outcome, status: CaseStatus, x: TxId): Tables
  {
    t.(evidence := t.evidence[k := x], cases := t.cases[k := OpeningCase(o, status, Some(x))])
  }

  lemma MergeHandoff(t: Tables, k: NormKey, tx: Transaction, o: Scoring.Outcome)
    requires BooksOk(t) && k in t.norms && k !in t.cases && ParseTransaction(k.Owner(), t.norms[k]) == Some(tx)
    requires GoodOutcome(t, k, o) && o.decision == Merge
    ensures var t' := Opened(t, k, o, Merged, o.candidate.value);
            Handoff(t, k, tx, o) == Success((t', o.candidate)) && BooksOk(t') && HandedOff(t, t', k, o.candidate)
  {
    var x := o.candidate.value;
    var t' := Opened(t, k, o, Merged, x);
    OpeningCaseSound(o, x);
    assert k !in t.evidence;
    assert AddEvidence(t, k, x) == Success(t.(evidence := t.evidence[k := x]));
    assert CreateCase(t.(evidence := t.evidence[k := x]), k, o, Merged, Some(x), AutoMerged) == Success(t');
    assert Agrees(t', k, x);
    assert CaseOk(t', k);
    BooksWithoutNewTransaction(t, t', k);
  }

  lemma ReviewHandoff(t: Tables, k: NormKey, tx: Transaction, o: Scoring.Outcome)
    requires BooksOk(t) && k in t.norms && k !in t.cases && ParseTransaction(k.Owner(), t.norms[k]) == Some(tx)
    requires GoodOutcome(t, k, o) && o.decision == PossibleDuplicate
    ensures var t' := t.(cases := t.cases[k := OpeningCase(o, PendingReview, None)]);
            Handoff(t, k, tx, o) == Success((t', None)) && BooksOk(t') && HandedOff(t, t', k, None)
  {
    var t' := t.(cases := t.cases[k := OpeningCase(o, PendingReview, None)]);
    OpeningCaseSound(o, 0);
    assert k !in t.evidence;
    assert CreateCase(t, k, o, PendingReview, None, CandidateFlagged) == Success(t');
    assert Agrees(t', k, o.candidate.value);
    assert CaseOk(t', k);
    BooksWithoutNewTransaction(t, t', k);
  }

  lemma NewHandoff(t: Tables, k: NormKey, tx: Transaction, o: Scoring.Outcome)
    requires BooksOk(t) && k in t.norms && k !in t.cases && ParseTransaction(k.Owner(), t.norms[k]) == Some(tx)
    requires GoodOutcome(t, k, o) && o.decision == NewTransaction
    ensures var t' := Opened(CreateTransaction(t, tx), k, o, KeptSeparate, t.nextTx);
            Handoff(t, k, tx, o) == Success((t', Some(t.nextTx))) && BooksOk(t') && HandedOff(t, t', k, Some(t.nextTx))
  {
    var x := t.nextTx;
    var t1 := CreateTransaction(t, tx);
    var t' := Opened(t1, k, o, KeptSeparate, x);
    NextIsFresh(t);
    OpeningCaseSound(o, x);
    NewCaseOpens(t, k, tx, o);
    assert Grows(t, t');
    assert Agrees(t', k, x);
    assert CaseOk(t', k);
    BooksWithNewTransaction(t, t', k, tx);
  }

  lemma NewCaseOpens(t: Tables, k: NormKey, tx: Transaction, o: Scoring.Outcome)
    requires BooksOk(t) && k in t.norms && k !in t.cases && ParseTransaction(k.Owner(), t.norms[k]) == Some(tx)
    requires GoodOutcome(t, k, o) && o.decision == NewTransaction
    ensures k !in t.evidence
    ensures Handoff(t, k, tx, o)
         == Success((Opened(CreateTransaction(t, tx), k, o, KeptSeparate, t.nextTx), Some(t.nextTx)))
  {
    var t1, x := CreateTransaction(t, tx), t.nextTx;
    NextIsFresh(t);
    OpeningCaseSound(o, x);
    assert AddEvidence(t1, k, x) == Success(t1.(evidence := t.evidence[k := x]));
    assert CreateCase(t1.(evidence := t.evidence[k := x]), k, o, KeptSeparate, Some(x), CreatedNew)
        == Success(Opened(t1, k, o, KeptSeparate, x));
  }

  /** The first handoff of an event never fails, and it keeps the books. */
  lemma ReconcileKeepsBooks(t: Tables, k: NormKey, tx: Transaction, scan: Scan, config: Config)
    requires BooksOk(t) && k in t.norms && k !in t.cases && config.policy.Valid()
    requires ParseTransaction(k.Owner(), t.norms[k]) == Some(tx)
    ensures var r := Reconcile(t, k, tx, scan, config);
            r.Success? && BooksOk(r.value.0) && HandedOff(t, r.value.0, k, r.value.1)
  {
    var o := Outcome(t, k.Owner(), t.norms[k], scan, config);
    FlaggedIsEligible(t, k.Owner(), t.norms[k], scan, config);
    match o.decision {
      case Merge => MergeHandoff(t, k, tx, o);
      case PossibleDuplicate => ReviewHandoff(t, k, tx, o);
      case NewTransaction => NewHandoff(t, k, tx, o);
    }
  }

  // ---------------------------------------------------------------- the owner's decisions

  function Decided(c: Case, status: CaseStatus, x: TxId, a: Action): Case
  {
    c.(status := status, resulting := Some(x), actions := c.actions + [a])
  }

  lemma DecidedSound(c: Case, x: TxId)
    requires CaseSound(c)
    ensures c.status == PendingReview && c.candidate == Some(x) ==>
              CaseSound(Decided(c, Merged, x, Action(UserMerged, None, Some(x))))
    ensures c.status == PendingReview && c.candidate != Some(x) ==>
              CaseSound(Decided(c, KeptSeparate, x, Action(UserKeptSeparate, None, Some(x))))
    ensures c.status == Merged && c.candidate != Some(x) ==>
              CaseSound(Decided(c, Unmerged, x, Action(UserUnmerged, c.resulting, Some(x))))
  {
    ReplayAppend(c.actions, Action(UserMerged, None, Some(x)));
    ReplayAppend(c.actions, Action(UserKeptSeparate, None, Some(x)));
    ReplayAppend(c.actions, Action(UserUnmerged, c.resulting, Some(x)));
  }

  function Settled(t: Tables, k: NormKey, status: CaseStatus, x: TxId, a: Action): Tables
    requires k in t.cases
  {
    t.(evidence := t.evidence[k := x], cases := t.cases[k := Decided(t.cases[k], status, x, a)])
  }

  /** A pending case can always be merged as far as the books are concerned. */
  lemma MergeKeepsBooks(t: Tables, k: NormKey)
    requires BooksOk(t) && k in t.cases && t.cases[k].status == PendingReview
    ensures t.cases[k].candidate.Some? && k in t.norms && Agrees(t, k, t.cases[k].candidate.value) && k !in t.evidence
    ensures var x := t.cases[k].candidate.value;
            var t' := Settled(t, k, Merged, x, Action(UserMerged, None, Some(x)));
            Resolve(t, k, x, Merged, UserMerged) == CompleteSource(t', k, x)
            && BooksOk(t') && HandedOff(t, t', k, Some(x))
  {
    assert CaseOk(t, k);
    var x := t.cases[k].candidate.value;
    var a := Action(UserMerged, None, Some(x));
    var t' := Settled(t, k, Merged, x, a);
    DecidedSound(t.cases[k], x);
    assert AddEvidence(t, k, x) == Success(t.(evidence := t.evidence[k := x]));
    assert UpdateCase(t.(evidence := t.evidence[k := x]), k, Merged, x, a) == Success(t');
    assert Agrees(t', k, x);
    assert CaseOk(t', k);
    BooksWithoutNewTransaction(t, t', k);
  }

  /** The transaction a case creates is the event's own. */
  lemma OwnTransactionAgrees(t: Tables, t': Tables, k: NormKey, tx: Transaction)
    requires k in t.norms && ParseTransaction(k.Owner(), t.norms[k]) == Some(tx)
    requires t'.norms == t.norms && t'.txs == t.txs[t.nextTx := tx]
    ensures Agrees(t', k, t.nextTx)
  {
  }

  lemma SettledOnNewTransaction(t: Tables, k: NormKey, tx: Transaction, status: CaseStatus, a: Action)
    requires BooksOk(t) && k in t.cases && k in t.norms && ParseTransaction(k.Owner(), t.norms[k]) == Some(tx)
    requires !Creator(t.cases[k]) && (status == KeptSeparate || status == Unmerged)
    requires CaseSound(Decided(t.cases[k], status, t.nextTx, a))
    ensures var t' := Settled(CreateTransaction(t, tx), k, status, t.nextTx, a);
            BooksOk(t') && HandedOff(t, t', k, Some(t.nextTx))
  {
    var t' := Settled(CreateTransaction(t, tx), k, status, t.nextTx, a);
    NextIsFresh(t);
    assert CaseOk(t, k);
    OwnTransactionAgrees(t, t', k, tx);
    assert Grows(t, t');
    assert CaseOk(t', k);
    BooksWithNewTransaction(t, t', k, tx);
  }

  lemma KeepSeparateKeepsBooks(t: Tables, k: NormKey)
    requires BooksOk(t) && k in t.cases && t.cases[k].status == PendingReview
    ensures k in t.norms && ParseTransaction(k.Owner(), t.norms[k]).Some? && k !in t.evidence
    ensures var tx := ParseTransaction(k.Owner(), t.norms[k]).value;
            var t1 := CreateTransaction(t, tx);
            var t' := Settled(t1, k, KeptSeparate, t.nextTx, Action(UserKeptSeparate, None, Some(t.nextTx)));
            Resolve(t1, k, t.nextTx, KeptSeparate, UserKeptSeparate) == CompleteSource(t', k, t.nextTx)
            && BooksOk(t') && HandedOff(t, t', k, Some(t.nextTx))
  {
    assert CaseOk(t, k);
    var tx := ParseTransaction(k.Owner(), t.norms[k]).value;
    var x := t.nextTx;
    var a := Action(UserKeptSeparate, None, Some(x));
    NextIsFresh(t);
    DecidedSound(t.cases[k], x);
    var t1 := CreateTransaction(t, tx);
    assert AddEvidence(t1, k, x) == Success(t1.(evidence := t.evidence[k := x]));
    assert UpdateCase(t1.(evidence := t.evidence[k := x]), k, KeptSeparate, x, a)
        == Success(Settled(t1, k, KeptSeparate, x, a));
    SettledOnNewTransaction(t, k, tx, KeptSeparate, a);
  }

  lemma UnmergeKeepsBooks(t: Tables, k: NormKey)
    requires BooksOk(t) && k in t.cases && t.cases[k].status == Merged
    ensures k in t.evidence && t.cases[k].resulting == Some(t.evidence[k]) && k in t.norms
    ensures ParseTransaction(k.Owner(), t.norms[k]).Some?
    ensures var tx := ParseTransaction(k.Owner(), t.norms[k]).value;
            var a := Action(UserUnmerged, Some(t.evidence[k]), Some(t.nextTx));
            var t1 := CreateTransaction(t, tx);
            var t' := Settled(t1, k, Unmerged, t.nextTx, a);
            UpdateCase(t1.(evidence := t1.evidence[k := t.nextTx]), k, Unmerged, t.nextTx, a) == Success(t')
            && BooksOk(t') && HandedOff(t, t', k, Some(t.nextTx))
  {
    assert CaseOk(t, k);
    var tx := ParseTransaction(k.Owner(), t.norms[k]).value;
    var a := Action(UserUnmerged, Some(t.evidence[k]), Some(t.nextTx));
    NextIsFresh(t);
    DecidedSound(t.cases[k], t.nextTx);
    SettledOnNewTransaction(t, k, tx, Unmerged, a);
  }

  // ---------------------------------------------------------------- transactions without a case

  /** Transactions that touch only sources or add normalized events keep the books. */
  lemma SourcesKeepBooks(t: Tables, t': Tables)
    requires BooksOk(t) && Grows(t, t') && t'.cases == t.cases && t'.evidence == t.evidence
    requires t'.txs == t.txs && t'.nextTx == t.nextTx
    ensures BooksOk(t')
  {
    forall k ensures CaseOk(t', k) { assert CaseOk(t, k); UntouchedCaseOk(t, t', k); }
    forall x ensures TransactionOk(t', x) { assert TransactionOk(t, x); }
    CreatorsStay(t, t');
  }

  lemma ManualKeepsBooks(t: Tables, tx: Transaction)
    requires BooksOk(t) && 0 < tx.amount && tx.source == Manual
    ensures BooksOk(CreateTransaction(t, tx))
  {
    NextIsFresh(t);
    var t' := CreateTransaction(t, tx);
    forall x ensures TransactionOk(t', x) { assert TransactionOk(t, x); }
    forall k ensures CaseOk(t', k) { assert CaseOk(t, k); UntouchedCaseOk(t, t', k); }
    CreatorsStay(t, t');
  }
}
