/**
 * A proposal approved before its note was processed: the case it leaves for review cannot be resolved until
 * the note is processed.
 */
module EarlyReview {
  import opened Wrappers
  import opened Domain
  import opened Rows
  import opened Candidates
  import opened Ledger
  import Lockstep
  import Provenance
  import Scoring

  const CONFIG := Config(Scoring.TIE_POLICY, Scoring.TIE_TEXT)
  const SOURCE := RawKey(Connection(1, "c", "k"), External("n"))
  const KEY := NormKey(SOURCE, Prompt)
  const NOTE := Envelope(Some("n"), Note("x", None, []), true)
  const EVENT := Event(TransactionEvent(Expense), Some(1), Some("INR"), Some(0), "x", None, [])
  const ENTERED := Transaction(1, 1, "INR", Expense, 0, "x", None, Posted, Manual)
  const SCAN := Scan([], [0])

  const ENTER := ManualStep(ENTERED)
  const STORE := StoreStep(SOURCE.connection, NOTE)
  const EXTRACT := ExtractStep(SOURCE, EVENT)
  const APPROVE := ApproveStep(1, SOURCE, SCAN, None)

  /** A transaction of the same money is entered, a note is stored, its proposal extracted and approved. */
  const STEPS := [ENTER, STORE] + [EXTRACT, APPROVE]

  const OPENED := EMPTY.(txs := map[0 := ENTERED], nextTx := 1)

  const STORED := OPENED.(
    raws := map[SOURCE := NOTE.content],
    processing := map[SOURCE := Processing(Received, "")],
    attempts := map[SOURCE := 0])

  const EXTRACTED := STORED.(
    proposals := map[SOURCE := Proposal(0, EVENT, AwaitingReview, NoTarget)],
    nextProposal := 1)

  lemma Enters()
    ensures CONFIG.Valid() && Next(EMPTY, ENTER, CONFIG) == OPENED
  {
    assert EMPTY.txs[0 := ENTERED] == map[0 := ENTERED];
  }

  lemma Stores()
    ensures CONFIG.Valid() && Next(OPENED, STORE, CONFIG) == STORED
  {
    assert RawKey(SOURCE.connection, IdentityOf(NOTE)) == SOURCE;
    assert OPENED.raws == map[] && OPENED.processing == map[] && OPENED.attempts == map[];
    assert OPENED.raws[SOURCE := NOTE.content] == STORED.raws;
  }

  lemma Extracts()
    ensures CONFIG.Valid() && Next(STORED, EXTRACT, CONFIG) == EXTRACTED
  {
    NoteIsNotBlank();
    var extracted := CreateOrGet(STORED, SOURCE, EVENT);
    assert extracted.proposals == EXTRACTED.proposals && extracted.nextProposal == 1;
    assert extracted.processing[SOURCE := Processing(Received, "")] == EXTRACTED.processing;
  }

  lemma RunsToApproval()
    ensures CONFIG.Valid()
    ensures Run(EMPTY, STEPS, CONFIG) == Next(EXTRACTED, APPROVE, CONFIG)
  {
    Enters();
    Stores();
    Extracts();
    Provenance.RunTwoThen(EMPTY, ENTER, STORE, [EXTRACT, APPROVE], CONFIG);
    Provenance.RunTwoThen(STORED, EXTRACT, APPROVE, [], CONFIG);
    assert [EXTRACT, APPROVE] + [] == [EXTRACT, APPROVE];
  }

  lemma NoteIsNotBlank()
    ensures !Blank("x")
  {
    assert "x"[0] == 'x' && 'x' in "x" && 'x' !in WHITESPACE;
  }

  /** What the approval works on. */
  const CONTRACTED := EXTRACTED.(norms := map[KEY := EVENT])

  lemma FindsTheTransaction()
    ensures FindCandidates(CONTRACTED, 1, EVENT, SCAN, CONFIG.policy) == [0]
  {
    assert Eligible(CONTRACTED, 1, EVENT, 0) && InWindow(CONTRACTED, EVENT, 0, CONFIG.policy);
    assert TemporalIds(CONTRACTED, 1, EVENT, SCAN, CONFIG.policy) == [0];
    assert ExactIds(CONTRACTED, 1, EVENT, SCAN, CONFIG.policy) == [];
    assert [] + [0] == [0] && [0][1..] == [];
  }

  /** Same money and time but no merchant: 0.80, between the two thresholds. */
  lemma ScoresBetween()
    ensures ScoreOf().decision == PossibleDuplicate && ScoreOf().candidate == Some(0)
  {
    assert Scoring.TimeSimilarity(CONFIG.policy, 0, 0) == 1.0;
    assert Scoring.TextSimilarity(CONFIG.text, EVENT.merchant, None) == 0.0;
    assert Scoring.TextSimilarity(CONFIG.text, Some("x"), Some("x")) == 1.0;
    assert Scoring.Quantize(0.80) == 0.80 by { assert (8000.5).Floor == 8000; }
  }

  function ScoreOf(): Scoring.Outcome
  {
    Scoring.ScoreCandidate(EVENT, CandidateView(CONTRACTED, 0), CONFIG.policy, CONFIG.text)
  }

  lemma FlagsTheTransaction()
    ensures Outcome(CONTRACTED, 1, EVENT, SCAN, CONFIG) == ScoreOf()
  {
    FindsTheTransaction();
    var cs := CandidateViews(CONTRACTED, [0]);
    assert cs == [CandidateView(CONTRACTED, 0)];
    assert Scoring.Scores(EVENT, cs, CONFIG.policy, CONFIG.text) == [ScoreOf()];
  }

  lemma Flags()
    ensures var flagged := CreateCase(CONTRACTED, KEY, ScoreOf(), PendingReview, None, CandidateFlagged);
            flagged.Success? && Waits(flagged.value)
  {
    ScoresBetween();
  }

  lemma HandsOff()
    ensures KEY in CONTRACTED.norms && ParseTransaction(1, EVENT).Some?
    ensures var handoff := ApproveTransaction(CONTRACTED, SOURCE, EVENT, SCAN, CONFIG);
            handoff.Success? && Waits(handoff.value.0) && handoff.value.1.None?
  {
    FlagsTheTransaction();
    ScoresBetween();
    Flags();
    var flagged := CreateCase(CONTRACTED, KEY, ScoreOf(), PendingReview, None, CandidateFlagged);
    assert Reconcile(CONTRACTED, KEY, ParseTransaction(1, EVENT).value, SCAN, CONFIG) == Success((flagged.value, None));
  }

  /** The case waits for a review and the source is still RECEIVED. */
  predicate Waits(t: Tables)
  {
    && KEY in t.cases && t.cases[KEY].status == PendingReview
    && SOURCE in t.processing && t.processing[SOURCE].state == Received
    && SOURCE in t.proposals
  }

  predicate Approvable(t: Tables)
  {
    && SOURCE in t.proposals && Known(t, SOURCE) && t.processing[SOURCE].state == Received
    && t.proposals[SOURCE].status == AwaitingReview && t.proposals[SOURCE].event == EVENT
  }

  /** An approval whose transaction may be a duplicate leaves the source as it was. */
  lemma AwaitsReconciliation(t: Tables, s: Step, config: Config, t1: Tables, t2: Tables)
    requires config.policy.Valid() && s.ApproveStep? && s.user == s.raw.Owner()
    requires s.raw in t.proposals && Known(t, s.raw) && t.proposals[s.raw].status == AwaitingReview
    requires t.proposals[s.raw].event.kind.TransactionEvent? && NormKey(s.raw, Prompt) in t1.norms
    requires StoreNormalized(t, NormKey(s.raw, Prompt), t.proposals[s.raw].event.(identifiers := [])) == t1
    requires ApproveTransaction(t1, s.raw, t.proposals[s.raw].event, s.scan, config) == Success((t2, None))
    requires s.raw in t2.proposals
    ensures var waiting := SetProposal(t2, s.raw, AwaitingReconciliation, NoTarget);
            Next(t, s, config) == SetState(waiting, s.raw, t.processing[s.raw].state, "POSSIBLE_DUPLICATE")
  {
  }

  lemma StillWaits(t: Tables)
    requires Waits(t)
    ensures var waiting := SetProposal(t, SOURCE, AwaitingReconciliation, NoTarget);
            Waits(SetState(waiting, SOURCE, Received, "POSSIBLE_DUPLICATE"))
  {
  }

  lemma ApprovalAwaits(t: Tables, s: Step, t1: Tables, t2: Tables)
    requires Approvable(t) && CONFIG.policy.Valid() && KEY in t1.norms && s == APPROVE
    requires StoreNormalized(t, KEY, EVENT.(identifiers := [])) == t1
    requires ApproveTransaction(t1, SOURCE, EVENT, SCAN, CONFIG) == Success((t2, None)) && Waits(t2)
    ensures Waits(Next(t, s, CONFIG))
  {
    AwaitsReconciliation(t, s, CONFIG, t1, t2);
    StillWaits(t2);
  }

  lemma ExtractedIsApprovable()
    ensures Approvable(EXTRACTED)
  {
  }

  lemma Contracts()
    ensures StoreNormalized(EXTRACTED, KEY, EVENT.(identifiers := [])) == CONTRACTED
  {
    assert EXTRACTED.norms[KEY := EVENT.(identifiers := [])] == CONTRACTED.norms;
  }

  lemma Approves()
    ensures CONFIG.Valid() && Waits(Next(EXTRACTED, APPROVE, CONFIG))
  {
    Contracts();
    HandsOff();
    var handoff := ApproveTransaction(CONTRACTED, SOURCE, EVENT, SCAN, CONFIG).value.0;
    ExtractedIsApprovable();
    ApprovalAwaits(EXTRACTED, APPROVE, CONTRACTED, handoff);
  }

  /**
   * A pending case with an unprocessed source is reachable. Nobody can merge it or keep it separate, and once
   * the note is processed its owner can.
   */
  lemma EarlyApprovalWaits(scan: Scan)
    ensures CONFIG.Valid()
    ensures var t := Run(EMPTY, STEPS, CONFIG);
            && Waits(t)
            && MergeCase(t, 1, KEY) == KeepSeparate(t, 1, KEY) == Failure(SourceNotReviewable)
            && MergeCase(Next(t, ProcessStep(SOURCE, scan), CONFIG), 1, KEY).Success?
  {
    RunsToApproval();
    Approves();
    Lockstep.EmptyInv();
    Lockstep.RunKeepsInv(EMPTY, STEPS, CONFIG);
    var t := Run(EMPTY, STEPS, CONFIG);
    Provenance.UnprocessedIsRefused(t, KEY);
    Provenance.ProcessingMakesResolvable(t, KEY, scan, CONFIG);
  }
}
