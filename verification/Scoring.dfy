/** Explainable duplicate scoring over exact rationals, and the candidate list it ranks. */
module Scoring {
  import opened Wrappers
  import opened Domain
  import Sums

  datatype Candidate = Candidate(
    id: TxId,
    amount: Money,
    currency: string,
    kind: TransactionType,
    description: string,
    date: int,
    merchant: Option<string>,
    identifiers: set<string>)

  datatype Outcome = Outcome(candidate: Option<TxId>, score: real, decision: Decision, reasons: seq<string>)

  datatype Policy = Policy(
    windowMinutes: int,
    maxCandidates: int,
    reviewThreshold: real,
    mergeThreshold: real,
    amountWeight: real,
    timeWeight: real,
    merchantWeight: real,
    descriptionWeight: real)
  {
    /** What the constructor of the policy accepts. */
    predicate Valid() {
      && 1 <= windowMinutes <= 10_080
      && 1 <= maxCandidates <= 100
      && 0.0 <= reviewThreshold < mergeThreshold <= 1.0
      && 0.0 <= amountWeight && 0.0 <= timeWeight && 0.0 <= merchantWeight && 0.0 <= descriptionWeight
      && amountWeight + timeWeight + merchantWeight + descriptionWeight == 1.0
    }

    function Window(): int { windowMinutes * 60_000_000 }
  }

  /** Unicode folding and the character matcher stay abstract: two functions, the second within [0, 1]. */
  datatype Text = Text(fold: string -> string, ratio: (string, string) -> real)
  {
    ghost predicate Valid() { forall a, b :: 0.0 <= ratio(a, b) <= 1.0 }
  }

  /** Rounds a non-negative score half up to four decimals. */
  function Quantize(x: real): real { (x * 10000.0 + 0.5).Floor as real / 10000.0 }

  function Tokens(s: string): set<string>
  {
    TokensFrom(s, "")
  }

  function TokensFrom(s: string, word: string): set<string>
    decreases |s|
  {
    var done := if word == "" then {} else {word};
    if s == "" then done
    else if s[0] == ' ' then done + TokensFrom(s[1..], "")
    else TokensFrom(s[1..], word + [s[0]])
  }

  function TokenRatio(a: set<string>, b: set<string>): real
  {
    if a + b == {} then 0.0 else |a * b| as real / |a + b| as real
  }

  function TextSimilarity(text: Text, left: Option<string>, right: Option<string>): real
  {
    if left.None? || right.None? then 0.0 else
      var a, b := text.fold(left.value), text.fold(right.value);
      if a == "" || b == "" then 0.0
      else if a == b then 1.0
      else
        var r, t := text.ratio(a, b), TokenRatio(Tokens(a), Tokens(b));
        Quantize(if r < t then t else r)
  }

  function TimeSimilarity(policy: Policy, eventTime: int, candidateTime: int): real
    requires policy.Valid()
  {
    var delta := if eventTime < candidateTime then candidateTime - eventTime else eventTime - candidateTime;
    var s := 1.0 - delta as real / policy.Window() as real;
    if s < 0.0 then 0.0 else s
  }

  predicate MoneyMatches(event: Event, c: Candidate)
  {
    && event.amount == Some(c.amount)
    && event.currency == Some(c.currency)
    && event.occurredAt.Some?
    && event.kind == TransactionEvent(c.kind)
  }

  predicate SharesIdentifier(event: Event, identifiers: set<string>)
  {
    exists i :: 0 <= i < |event.identifiers| && event.identifiers[i] in identifiers
  }

  /** A weight's contribution to the score is at most the weight. */
  function Weigh(weight: real, similarity: real): (r: real)
    ensures 0.0 <= weight && 0.0 <= similarity <= 1.0 ==> 0.0 <= r <= weight
  {
    weight * similarity
  }

  function Total(policy: Policy, time: real, merchant: real, description: real): real
  {
    policy.amountWeight
    + Weigh(policy.timeWeight, time)
    + Weigh(policy.merchantWeight, merchant)
    + Weigh(policy.descriptionWeight, description)
  }

  function WeightedScore(event: Event, c: Candidate, policy: Policy, text: Text): real
    requires policy.Valid() && event.occurredAt.Some?
  {
    Quantize(Total(
      policy,
      TimeSimilarity(policy, event.occurredAt.value, c.date),
      TextSimilarity(text, event.merchant, c.merchant),
      TextSimilarity(text, Some(event.description), Some(c.description))))
  }

  function Decide(policy: Policy, score: real): Decision
  {
    if score >= policy.mergeThreshold then Merge
    else if score >= policy.reviewThreshold then PossibleDuplicate
    else NewTransaction
  }

  function DecisionReason(d: Decision): string
  {
    match d
    case Merge => "SCORE_AUTO_MERGE"
    case PossibleDuplicate => "SCORE_POSSIBLE_DUPLICATE"
    case NewTransaction => "SCORE_NEW_TRANSACTION"
  }

  function TextReason(similarity: real, exact: string, similar: string): seq<string>
  {
    if similarity == 1.0 then [exact] else if similarity >= 0.70 then [similar] else []
  }

  function ScoreCandidate(event: Event, c: Candidate, policy: Policy, text: Text): Outcome
    requires policy.Valid()
  {
    if !MoneyMatches(event, c) then
      Outcome(Some(c.id), 0.0, NewTransaction, ["MONEY_OR_TYPE_MISMATCH", "SCORE_NEW_TRANSACTION"])
    else if SharesIdentifier(event, c.identifiers) then
      Outcome(Some(c.id), 1.0, Merge, ["PAYMENT_IDENTIFIER_EXACT", "AMOUNT_CURRENCY_EXACT", "SCORE_AUTO_MERGE"])
    else
      var time := TimeSimilarity(policy, event.occurredAt.value, c.date);
      var score := WeightedScore(event, c, policy, text);
      var decision := Decide(policy, score);
      Outcome(Some(c.id), score, decision,
        ["AMOUNT_CURRENCY_EXACT"]
        + (if time >= 0.95 then ["TIME_CLOSE"] else ["TIME_WITHIN_WINDOW"])
        + TextReason(TextSimilarity(text, event.merchant, c.merchant), "MERCHANT_EXACT", "MERCHANT_SIMILAR")
        + TextReason(TextSimilarity(text, Some(event.description), Some(c.description)), "DESCRIPTION_EXACT",
            "DESCRIPTION_SIMILAR")
        + [DecisionReason(decision)])
  }

  /** The scorer as it builds its list of reasons, branch by branch. */
  method Score(event: Event, c: Candidate, policy: Policy, text: Text) returns (o: Outcome)
    requires policy.Valid()
    ensures o == ScoreCandidate(event, c, policy, text)
  {
    if !MoneyMatches(event, c) {
      return Outcome(Some(c.id), 0.0, NewTransaction, ["MONEY_OR_TYPE_MISMATCH", "SCORE_NEW_TRANSACTION"]);
    }
    if SharesIdentifier(event, c.identifiers) {
      return Outcome(Some(c.id), 1.0, Merge, ["PAYMENT_IDENTIFIER_EXACT", "AMOUNT_CURRENCY_EXACT", "SCORE_AUTO_MERGE"]);
    }
    var time := TimeSimilarity(policy, event.occurredAt.value, c.date);
    var merchant := TextSimilarity(text, event.merchant, c.merchant);
    var description := TextSimilarity(text, Some(event.description), Some(c.description));
    var score := Quantize(Total(policy, time, merchant, description));
    var reasons := ["AMOUNT_CURRENCY_EXACT"];
    reasons := reasons + [if time >= 0.95 then "TIME_CLOSE" else "TIME_WITHIN_WINDOW"];
    reasons := AppendTextReason(reasons, merchant, "MERCHANT_EXACT", "MERCHANT_SIMILAR");
    reasons := AppendTextReason(reasons, description, "DESCRIPTION_EXACT", "DESCRIPTION_SIMILAR");
    var decision := Decide(policy, score);
    reasons := reasons + [DecisionReason(decision)];
    o := Outcome(Some(c.id), score, decision, reasons);
  }

  method AppendTextReason(reasons: seq<string>, similarity: real, exact: string, similar: string)
          returns (more: seq<string>)
    ensures more == reasons + TextReason(similarity, exact, similar)
  {
    more := reasons;
    if similarity == 1.0 {
      more := more + [exact];
    } else if similarity >= 0.70 {
      more := more + [similar];
    }
  }

  /** The sort key of the ranking: higher score first, then the smaller id. */
  predicate Before(a: Outcome, b: Outcome)
    requires a.candidate.Some? && b.candidate.Some?
  {
    a.score > b.score || (a.score == b.score && a.candidate.value <= b.candidate.value)
  }

  ghost predicate AllNamed(rs: seq<Outcome>) { forall i :: 0 <= i < |rs| ==> rs[i].candidate.Some? }

  /** The head of the ranking; among equal keys the earlier outcome, as a stable sort leaves it. */
  function Best(rs: seq<Outcome>): (r: Outcome)
    requires rs != [] && AllNamed(rs)
    ensures r in rs
    ensures forall i :: 0 <= i < |rs| ==> Before(r, rs[i])
  {
    if |rs| == 1 then rs[0] else
      var rest := Best(rs[1..]);
      assert forall i :: 1 <= i < |rs| ==> rs[i] == rs[1..][i - 1];
      if Before(rs[0], rest) then rs[0] else rest
  }

  function Scores(event: Event, cs: seq<Candidate>, policy: Policy, text: Text): (rs: seq<Outcome>)
    requires policy.Valid()
    ensures |rs| == |cs|
    ensures forall i :: 0 <= i < |cs| ==> rs[i] == ScoreCandidate(event, cs[i], policy, text)
    ensures forall i :: 0 <= i < |cs| ==> rs[i].candidate == Some(cs[i].id)
  {
    seq(|cs|, i requires 0 <= i < |cs| => ScoreCandidate(event, cs[i], policy, text))
  }

  function ReconcileCandidates(event: Event, cs: seq<Candidate>, policy: Policy, text: Text): Outcome
    requires policy.Valid()
  {
    if cs == [] then Outcome(None, 0.0, NewTransaction, ["NO_CANDIDATES", "SCORE_NEW_TRANSACTION"])
    else Best(Scores(event, cs, policy, text))
  }

  /** The outcome is the score of one of the candidates. */
  lemma Winner(event: Event, cs: seq<Candidate>, policy: Policy, text: Text) returns (i: nat)
    requires policy.Valid() && cs != []
    ensures i < |cs|
    ensures ReconcileCandidates(event, cs, policy, text) == ScoreCandidate(event, cs[i], policy, text)
  {
    var rs := Scores(event, cs, policy, text);
    i :| 0 <= i < |rs| && rs[i] == Best(rs);
  }

  // ---------------------------------------------------------------- ranges

  lemma FloorMonotone(x: real, y: real)
    requires x <= y
    ensures x.Floor <= y.Floor
  {
    assert x.Floor as real <= x && y < y.Floor as real + 1.0;
  }

  lemma QuantizeMonotone(x: real, y: real)
    requires x <= y
    ensures Quantize(x) <= Quantize(y)
  {
    FloorMonotone(x * 10000.0 + 0.5, y * 10000.0 + 0.5);
  }

  lemma QuantizeUnit(x: real)
    requires 0.0 <= x <= 1.0
    ensures 0.0 <= Quantize(x) <= 1.0
  {
    QuantizeMonotone(0.0, x);
    QuantizeMonotone(x, 1.0);
    assert (0.5).Floor == 0 && (10000.5).Floor == 10000;
  }

  lemma TokenRatioUnit(a: set<string>, b: set<string>)
    ensures 0.0 <= TokenRatio(a, b) <= 1.0
  {
    if a + b != {} {
      Sums.SubsetSize(a * b, a + b);
      FractionUnit(|a * b| as real, |a + b| as real);
    }
  }

  lemma FractionUnit(p: real, q: real)
    requires 0.0 <= p <= q && 0.0 < q
    ensures 0.0 <= p / q <= 1.0
  {
  }

  lemma TextSimilarityUnit(text: Text, left: Option<string>, right: Option<string>)
    requires text.Valid()
    ensures 0.0 <= TextSimilarity(text, left, right) <= 1.0
  {
    if left.Some? && right.Some? {
      var a, b := text.fold(left.value), text.fold(right.value);
      var r, t := text.ratio(a, b), TokenRatio(Tokens(a), Tokens(b));
      TokenRatioUnit(Tokens(a), Tokens(b));
      QuantizeUnit(if r < t then t else r);
    }
  }

  lemma TimeSimilarityUnit(policy: Policy, eventTime: int, candidateTime: int)
    requires policy.Valid()
    ensures 0.0 <= TimeSimilarity(policy, eventTime, candidateTime) <= 1.0
  {
    var delta := if eventTime < candidateTime then candidateTime - eventTime else eventTime - candidateTime;
    assert delta as real / policy.Window() as real >= 0.0;
  }

  lemma TotalUnit(policy: Policy, t: real, m: real, d: real)
    requires policy.Valid() && 0.0 <= t <= 1.0 && 0.0 <= m <= 1.0 && 0.0 <= d <= 1.0
    ensures 0.0 <= Total(policy, t, m, d) <= 1.0
  {
  }

  lemma WeighMonotone(w: real, s: real, t: real)
    requires 0.0 <= w && s <= t
    ensures Weigh(w, s) <= Weigh(w, t)
  {
    assert w * (t - s) >= 0.0;
    assert w * (t - s) == w * t - w * s;
  }

  lemma TotalMonotone(policy: Policy, s: real, t: real, m: real, d: real)
    requires policy.Valid() && s <= t
    ensures Total(policy, s, m, d) <= Total(policy, t, m, d)
  {
    WeighMonotone(policy.timeWeight, s, t);
  }

  lemma WeightedScoreUnit(event: Event, c: Candidate, policy: Policy, text: Text)
    requires policy.Valid() && text.Valid() && event.occurredAt.Some?
    ensures 0.0 <= WeightedScore(event, c, policy, text) <= 1.0
  {
    var t := TimeSimilarity(policy, event.occurredAt.value, c.date);
    var m := TextSimilarity(text, event.merchant, c.merchant);
    var d := TextSimilarity(text, Some(event.description), Some(c.description));
    assert 0.0 <= t <= 1.0 by { TimeSimilarityUnit(policy, event.occurredAt.value, c.date); }
    assert 0.0 <= m <= 1.0 by { TextSimilarityUnit(text, event.merchant, c.merchant); }
    assert 0.0 <= d <= 1.0 by { TextSimilarityUnit(text, Some(event.description), Some(c.description)); }
    TotalUnit(policy, t, m, d);
    QuantizeUnit(Total(policy, t, m, d));
  }

  /** Every outcome of every candidate scores within [0, 1]. */
  lemma ScoreWithinUnit(event: Event, c: Candidate, policy: Policy, text: Text)
    requires policy.Valid() && text.Valid()
    ensures 0.0 <= ScoreCandidate(event, c, policy, text).score <= 1.0
  {
    if MoneyMatches(event, c) {
      WeightedScoreUnit(event, c, policy, text);
    }
  }

  // ---------------------------------------------------------------- monotonicity

  function Distance(a: int, b: int): nat { if a < b then b - a else a - b }

  lemma TimeSimilarityAntitone(policy: Policy, at: int, near: int, far: int)
    requires policy.Valid() && Distance(at, near) <= Distance(at, far)
    ensures TimeSimilarity(policy, at, far) <= TimeSimilarity(policy, at, near)
  {
    RatioMonotone(Distance(at, near) as real, Distance(at, far) as real, policy.Window() as real);
  }

  lemma RatioMonotone(a: real, b: real, w: real)
    requires a <= b && w > 0.0
    ensures a / w <= b / w
  {
    assert (b - a) / w >= 0.0;
    assert b / w - a / w == (b - a) / w;
  }

  /** Moving a candidate further away in time never raises its score. */
  lemma FurtherNeverScoresHigher(event: Event, near: Candidate, far: Candidate, policy: Policy, text: Text)
    requires policy.Valid() && event.occurredAt.Some?
    requires far == near.(date := far.date)
    requires Distance(event.occurredAt.value, near.date) <= Distance(event.occurredAt.value, far.date)
    ensures ScoreCandidate(event, far, policy, text).score <= ScoreCandidate(event, near, policy, text).score
  {
    TimeSimilarityAntitone(policy, event.occurredAt.value, near.date, far.date);
    var m := TextSimilarity(text, event.merchant, near.merchant);
    var d := TextSimilarity(text, Some(event.description), Some(near.description));
    var tf, tn := TimeSimilarity(policy, event.occurredAt.value, far.date),
        TimeSimilarity(policy, event.occurredAt.value, near.date);
    TotalMonotone(policy, tf, tn, m, d);
    QuantizeMonotone(Total(policy, tf, m, d), Total(policy, tn, m, d));
  }

  function Strength(d: Decision): nat { match d case NewTransaction => 0 case PossibleDuplicate => 1 case Merge => 2 }

  /** A strictly higher score never leads to a weaker decision, whatever branch produced either. */
  lemma DecisionMonotone(event: Event, a: Candidate, b: Candidate, policy: Policy, text: Text)
    requires policy.Valid() && text.Valid()
    requires ScoreCandidate(event, a, policy, text).score < ScoreCandidate(event, b, policy, text).score
    ensures Strength(ScoreCandidate(event, a, policy, text).decision)
         <= Strength(ScoreCandidate(event, b, policy, text).decision)
  {
    ScoreWithinUnit(event, a, policy, text);
    ScoreWithinUnit(event, b, policy, text);
  }

  // ---------------------------------------------------------------- the winner

  /** A merge or review decision is only ever made for a candidate with the event's exact money and type. */
  lemma OnlyMatchingMoneyIsFlagged(event: Event, cs: seq<Candidate>, policy: Policy, text: Text) returns (i: nat)
    requires policy.Valid()
    requires ReconcileCandidates(event, cs, policy, text).decision != NewTransaction
    ensures i < |cs|
    ensures event.amount == Some(cs[i].amount) && event.currency == Some(cs[i].currency)
    ensures event.kind == TransactionEvent(cs[i].kind) && event.occurredAt.Some?
    ensures ReconcileCandidates(event, cs, policy, text).candidate == Some(cs[i].id)
  {
    i := Winner(event, cs, policy, text);
  }

  /**
   * A money-compatible candidate that shares a payment identifier forces a merge. The winner need not be
   * that candidate: another one may also reach score one and have the smaller id.
   */
  lemma IdentifierForcesMerge(event: Event, cs: seq<Candidate>, policy: Policy, text: Text, i: nat)
    requires policy.Valid() && text.Valid() && i < |cs|
    requires event.amount == Some(cs[i].amount) && event.currency == Some(cs[i].currency)
    requires event.kind == TransactionEvent(cs[i].kind) && event.occurredAt.Some?
    requires exists j :: 0 <= j < |event.identifiers| && event.identifiers[j] in cs[i].identifiers
    ensures ReconcileCandidates(event, cs, policy, text).decision == Merge
    ensures ReconcileCandidates(event, cs, policy, text).score == 1.0
  {
    var rs := Scores(event, cs, policy, text);
    assert Before(Best(rs), rs[i]);
    var j := Winner(event, cs, policy, text);
    ScoreWithinUnit(event, cs[j], policy, text);
  }

  /** The candidate reaches score one: by a shared identifier, or by its weighted score. */
  predicate FullScore(event: Event, c: Candidate, policy: Policy, text: Text)
    requires policy.Valid()
  {
    MoneyMatches(event, c) && (SharesIdentifier(event, c.identifiers) || WeightedScore(event, c, policy, text) == 1.0)
  }

  ghost predicate DistinctIds(cs: seq<Candidate>) { forall i, j :: 0 <= i < j < |cs| ==> cs[i].id != cs[j].id }

  /** No candidate with a smaller id reaches score one. */
  ghost predicate FirstAtOne(event: Event, cs: seq<Candidate>, policy: Policy, text: Text, i: nat)
    requires policy.Valid() && i < |cs|
  {
    forall j :: 0 <= j < |cs| && cs[j].id < cs[i].id ==> !FullScore(event, cs[j], policy, text)
  }

  lemma FullScoreIsOne(event: Event, c: Candidate, policy: Policy, text: Text)
    requires policy.Valid() && text.Valid()
    ensures FullScore(event, c, policy, text) <==> ScoreCandidate(event, c, policy, text).score == 1.0
  {
  }

  /**
   * The transaction that owns a shared identifier wins exactly if no candidate with a smaller id also reaches
   * score one.
   */
  lemma IdentifierOwnerWinsIff(event: Event, cs: seq<Candidate>, policy: Policy, text: Text, i: nat)
    requires policy.Valid() && text.Valid() && i < |cs| && DistinctIds(cs)
    requires MoneyMatches(event, cs[i]) && SharesIdentifier(event, cs[i].identifiers)
    ensures ReconcileCandidates(event, cs, policy, text).candidate == Some(cs[i].id) <==>
              FirstAtOne(event, cs, policy, text, i)
  {
    var rs := Scores(event, cs, policy, text);
    IdentifierForcesMerge(event, cs, policy, text, i);
    var w := Winner(event, cs, policy, text);
    FullScoreIsOne(event, cs[w], policy, text);
    assert Before(Best(rs), rs[i]);
    forall j | 0 <= j < |cs| && cs[j].id < cs[i].id && FullScore(event, cs[j], policy, text)
      ensures cs[w].id <= cs[j].id
    {
      FullScoreIsOne(event, cs[j], policy, text);
      assert Before(Best(rs), rs[j]);
    }
  }

  const TIE_POLICY := Policy(1440, 20, 0.70, 0.92, 0.35, 0.25, 0.20, 0.20)
  const TIE_TEXT := Text((s: string) => s, (a: string, b: string) => 0.0)
  const TIE_EVENT := Event(TransactionEvent(Expense), Some(1), Some("INR"), Some(0), "x", Some("m"), ["upi:1"])
  const TIE_OWNER := Candidate(2, 1, "INR", Expense, "x", 0, Some("m"), {"upi:1"})
  const TIE_TWIN := Candidate(1, 1, "INR", Expense, "x", 0, Some("m"), {})

  /** Both happen: the identifier's own transaction can lose the tie. */
  lemma IdentifierOwnerCanLoseTheTie()
    ensures TIE_POLICY.Valid() && TIE_TEXT.Valid()
    ensures MoneyMatches(TIE_EVENT, TIE_OWNER) && SharesIdentifier(TIE_EVENT, TIE_OWNER.identifiers)
    ensures ReconcileCandidates(TIE_EVENT, [TIE_OWNER, TIE_TWIN], TIE_POLICY, TIE_TEXT).candidate == Some(TIE_TWIN.id)
    ensures TIE_TWIN.id != TIE_OWNER.id && !FirstAtOne(TIE_EVENT, [TIE_OWNER, TIE_TWIN], TIE_POLICY, TIE_TEXT, 0)
  {
    assert TIE_EVENT.identifiers[0] in TIE_OWNER.identifiers;
    assert ScoreCandidate(TIE_EVENT, TIE_TWIN, TIE_POLICY, TIE_TEXT).score == 1.0 by { TwinScore(); }
    var rs := Scores(TIE_EVENT, [TIE_OWNER, TIE_TWIN], TIE_POLICY, TIE_TEXT);
    assert rs[0].score == rs[1].score == 1.0;
    assert Before(Best(rs), rs[1]) && Best(rs) in rs;
  }

  lemma TwinScore()
    ensures TIE_POLICY.Valid() && WeightedScore(TIE_EVENT, TIE_TWIN, TIE_POLICY, TIE_TEXT) == 1.0
  {
    assert TimeSimilarity(TIE_POLICY, 0, 0) == 1.0;
    assert TextSimilarity(TIE_TEXT, Some("m"), Some("m")) == 1.0;
    assert TextSimilarity(TIE_TEXT, Some("x"), Some("x")) == 1.0;
    assert Quantize(1.0) == 1.0 by { assert (10000.5).Floor == 10000; }
  }

  ghost predicate DistinctNames(rs: seq<Outcome>)
  {
    forall i, j :: 0 <= i < j < |rs| ==> rs[i].candidate != rs[j].candidate
  }

  lemma BestIsUnique(rs: seq<Outcome>, ss: seq<Outcome>)
    requires rs != [] && ss != [] && AllNamed(rs) && AllNamed(ss) && DistinctNames(rs)
    requires forall r :: r in rs <==> r in ss
    ensures Best(rs) == Best(ss)
  {
    var i :| 0 <= i < |rs| && rs[i] == Best(rs);
    var j :| 0 <= j < |rs| && rs[j] == Best(ss);
    var k :| 0 <= k < |ss| && ss[k] == Best(rs);
    assert Before(Best(ss), ss[k]) && Before(Best(rs), rs[j]);
  }

  /** The order in which candidates with distinct ids are found does not change the outcome. */
  lemma OrderIrrelevant(event: Event, cs: seq<Candidate>, ds: seq<Candidate>, policy: Policy, text: Text)
    requires policy.Valid() && multiset(cs) == multiset(ds)
    requires DistinctIds(cs)
    ensures ReconcileCandidates(event, cs, policy, text) == ReconcileCandidates(event, ds, policy, text)
  {
    assert |multiset(cs)| == |cs| && |multiset(ds)| == |ds|;
    if cs != [] {
      var rs, ss := Scores(event, cs, policy, text), Scores(event, ds, policy, text);
      forall r ensures r in rs <==> r in ss {
        SameScores(event, cs, ds, policy, text, r);
        SameScores(event, ds, cs, policy, text, r);
      }
      BestIsUnique(rs, ss);
    }
  }

  lemma SameScores(event: Event, cs: seq<Candidate>, ds: seq<Candidate>, policy: Policy, text: Text, r: Outcome)
    requires policy.Valid() && multiset(cs) == multiset(ds)
    ensures r in Scores(event, cs, policy, text) ==> r in Scores(event, ds, policy, text)
  {
    var rs, ss := Scores(event, cs, policy, text), Scores(event, ds, policy, text);
    if r in rs {
      var i :| 0 <= i < |rs| && rs[i] == r;
      assert cs[i] in multiset(ds);
      var j :| 0 <= j < |ds| && ds[j] == cs[i];
      assert ss[j] == r;
    }
  }
}
