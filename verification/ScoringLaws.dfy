/** What makes up a score: words, rounding, similarities, weights, thresholds and reasons, stated over their inputs. */
module ScoringLaws {
  import opened Wrappers
  import opened Domain
  import opened Scoring

  // ---------------------------------------------------------------- rounding and words

  /** Rounding goes to the nearest ten-thousandth, and up from the middle. */
  lemma QuantizeIsNearest(x: real) returns (n: int)
    ensures Quantize(x) == n as real / 10000.0 && -0.00005 < Quantize(x) - x <= 0.00005
  {
    n := (x * 10000.0 + 0.5).Floor;
  }

  /** A maximal run of characters without a space: `s[i..j]`, with a space or an end on either side. */
  predicate WordAt(s: string, i: nat, j: nat)
  {
    && i < j <= |s| && (forall k :: i <= k < j ==> s[k] != ' ')
    && (i == 0 || s[i - 1] == ' ') && (j == |s| || s[j] == ' ')
  }

  ghost predicate Word(s: string, w: string) { exists i: nat, j: nat :: WordAt(s, i, j) && s[i..j] == w }

  /** The scan with the word it has begun finds what is in the word and the rest together. */
  lemma {:induction false} TokensFromAreWords(s: string, word: string, w: string)
    requires ' ' !in word
    ensures w in TokensFrom(s, word) <==> Word(word + s, w)
    decreases |s|
  {
    var whole := word + s;
    if s == "" {
      assert whole == word;
      if w == word && word != "" { assert WordAt(whole, 0, |word|) && whole[0..|word|] == word; }
    } else if s[0] == ' ' {
      TokensFromAreWords(s[1..], "", w);
      assert "" + s[1..] == s[1..];
      SplitAtSpace(word, s, w);
    } else {
      TokensFromAreWords(s[1..], word + [s[0]], w);
      assert (word + [s[0]]) + s[1..] == whole;
    }
  }

  lemma SplitAtSpace(word: string, s: string, w: string)
    requires ' ' !in word && s != "" && s[0] == ' '
    ensures Word(word + s, w) <==> (w == word && word != "") || Word(s[1..], w)
  {
    var whole := word + s;
    assert whole[|word|] == ' ' && forall k :: 0 <= k < |word| ==> whole[k] == word[k];
    if Word(whole, w) {
      var i: nat, j: nat :| WordAt(whole, i, j) && whole[i..j] == w;
      WordBeforeOrAfter(word, s, i, j);
    }
    if w == word && word != "" { assert WordAt(whole, 0, |word|) && whole[0..|word|] == word; }
    if Word(s[1..], w) {
      var i: nat, j: nat :| WordAt(s[1..], i, j) && s[1..][i..j] == w;
      WordShifts(word, s, i, j);
    }
  }

  lemma WordBeforeOrAfter(word: string, s: string, i: nat, j: nat)
    requires ' ' !in word && s != "" && s[0] == ' ' && WordAt(word + s, i, j)
    ensures (word != "" && (word + s)[i..j] == word) || Word(s[1..], (word + s)[i..j])
  {
    var whole, n := word + s, |word| + 1;
    assert whole[|word|] == ' ' && forall k :: 0 <= k < |word| ==> whole[k] == word[k];
    if i >= n {
      assert forall k :: i - n <= k < j - n ==> s[1..][k] == whole[k + n];
      assert WordAt(s[1..], i - n, j - n) && s[1..][i - n..j - n] == whole[i..j];
    } else {
      assert i == 0 && j == |word|;
    }
  }

  lemma WordShifts(word: string, s: string, i: nat, j: nat)
    requires s != "" && s[0] == ' ' && WordAt(s[1..], i, j)
    ensures Word(word + s, s[1..][i..j])
  {
    var whole, n := word + s, |word| + 1;
    assert forall k :: 0 <= k < |s| - 1 ==> whole[k + n] == s[1..][k];
    assert forall k :: i + n <= k < j + n ==> whole[k] == s[1..][k - n];
    assert WordAt(whole, i + n, j + n) && whole[i + n..j + n] == s[1..][i..j];
  }

  /** The tokens of a text are its words. */
  lemma TokensAreWords(s: string, w: string)
    ensures w in Tokens(s) <==> Word(s, w)
  {
    TokensFromAreWords(s, "", w);
    assert "" + s == s;
  }

  // ---------------------------------------------------------------- similarities

  /** Texts of which one is missing or blank have nothing in common; texts that fold alike have everything. */
  lemma TextSimilarityEnds(text: Text, a: Option<string>, b: Option<string>)
    ensures a.None? || b.None? || text.fold(a.value) == "" || text.fold(b.value) == "" ==>
              TextSimilarity(text, a, b) == 0.0
    ensures a.Some? && b.Some? && text.fold(a.value) == text.fold(b.value) != "" ==> TextSimilarity(text, a, b) == 1.0
  {
  }

  /** Of two texts that fold differently: what the character matcher says, and the common words among all words. */
  function Ratios(text: Text, a: string, b: string): (real, real)
  {
    var v, w := text.fold(a), text.fold(b);
    (text.ratio(v, w),
     if Tokens(v) + Tokens(w) == {} then 0.0 else |Tokens(v) * Tokens(w)| as real / |Tokens(v) + Tokens(w)| as real)
  }

  predicate FoldApart(text: Text, a: string, b: string)
  {
    text.fold(a) != "" && text.fold(b) != "" && text.fold(a) != text.fold(b)
  }

  /** The larger of the two ratios counts, rounded. */
  lemma LargerRatioCounts(text: Text, a: string, b: string)
    requires FoldApart(text, a, b)
    ensures var s, rs := TextSimilarity(text, Some(a), Some(b)), Ratios(text, a, b);
            s >= Quantize(rs.0) && s >= Quantize(rs.1) && (s == Quantize(rs.0) || s == Quantize(rs.1))
  {
    var rs := Ratios(text, a, b);
    if rs.0 <= rs.1 { QuantizeMonotone(rs.0, rs.1); } else { QuantizeMonotone(rs.1, rs.0); }
  }

  /** Texts closer by both ratios are not less similar. */
  lemma TextSimilarityMonotone(text: Text, a: string, b: string, c: string, d: string)
    requires FoldApart(text, a, b) && FoldApart(text, c, d)
    requires Ratios(text, a, b).0 <= Ratios(text, c, d).0 && Ratios(text, a, b).1 <= Ratios(text, c, d).1
    ensures TextSimilarity(text, Some(a), Some(b)) <= TextSimilarity(text, Some(c), Some(d))
  {
    var rs, ss := Ratios(text, a, b), Ratios(text, c, d);
    LargerRatioCounts(text, a, b);
    LargerRatioCounts(text, c, d);
    QuantizeMonotone(rs.0, ss.0);
    QuantizeMonotone(rs.1, ss.1);
  }

  /** The share of time falls evenly from one at the event's own time to nothing at the window's end and beyond. */
  lemma TimeSimilarityIsLinear(policy: Policy, at: int, date: int)
    requires policy.Valid()
    ensures Distance(at, date) >= policy.windowMinutes * 60_000_000 ==> TimeSimilarity(policy, at, date) == 0.0
    ensures Distance(at, date) <= policy.windowMinutes * 60_000_000 ==>
              TimeSimilarity(policy, at, date) * (policy.windowMinutes * 60_000_000) as real
                == (policy.windowMinutes * 60_000_000 - Distance(at, date)) as real
  {
    var d, w := Distance(at, date) as real, policy.Window() as real;
    assert (d / w) * w == d;
    if Distance(at, date) >= policy.Window() { RatioMonotone(w, d, w); } else { RatioMonotone(d, w, w); }
    assert w / w == 1.0;
    assert (1.0 - d / w) * w == w - d;
  }

  // ---------------------------------------------------------------- weights

  /** What the weighted score is for: the event's exact money and type, and no identifier in common. */
  predicate Weighed(event: Event, c: Candidate)
  {
    && event.amount == Some(c.amount) && event.currency == Some(c.currency) && event.kind == TransactionEvent(c.kind)
    && event.occurredAt.Some? && forall i :: 0 <= i < |event.identifiers| ==> event.identifiers[i] !in c.identifiers
  }

  predicate AtTheSameTime(event: Event, c: Candidate) { event.occurredAt == Some(c.date) }

  predicate OutsideWindow(event: Event, c: Candidate, policy: Policy)
    requires event.occurredAt.Some?
  {
    Distance(event.occurredAt.value, c.date) >= policy.windowMinutes * 60_000_000
  }

  predicate Alike(text: Text, a: Option<string>, b: Option<string>)
  {
    a.Some? && b.Some? && text.fold(a.value) == text.fold(b.value) != ""
  }

  predicate NothingToCompare(text: Text, a: Option<string>, b: Option<string>)
  {
    a.None? || b.None? || text.fold(a.value) == "" || text.fold(b.value) == ""
  }

  /** Each weight counts fully for its own likeness and not at all without it. */
  lemma WeightsAddUp(event: Event, c: Candidate, policy: Policy, text: Text, time: bool, merchant: bool,
          description: bool)
    requires policy.Valid() && Weighed(event, c)
    requires if time then AtTheSameTime(event, c) else OutsideWindow(event, c, policy)
    requires if merchant then Alike(text, event.merchant, c.merchant)
             else NothingToCompare(text, event.merchant, c.merchant)
    requires if description then Alike(text, Some(event.description), Some(c.description))
             else NothingToCompare(text, Some(event.description), Some(c.description))
    ensures ScoreCandidate(event, c, policy, text).score ==
            Quantize(policy.amountWeight
                     + (if time then policy.timeWeight else 0.0)
                     + (if merchant then policy.merchantWeight else 0.0)
                     + (if description then policy.descriptionWeight else 0.0))
  {
    assert TimeSimilarity(policy, event.occurredAt.value, c.date) == Whole(time) by {
      if time { AtOnce(policy, c.date); } else { TimeSimilarityIsLinear(policy, event.occurredAt.value, c.date); }
    }
    assert TextSimilarity(text, event.merchant, c.merchant) == Whole(merchant);
    assert TextSimilarity(text, Some(event.description), Some(c.description)) == Whole(description);
    TotalOfWholes(policy, time, merchant, description);
    assert ScoreCandidate(event, c, policy, text).score == WeightedScore(event, c, policy, text);
  }

  function Whole(b: bool): real { if b then 1.0 else 0.0 }

  lemma AtOnce(policy: Policy, date: int)
    requires policy.Valid()
    ensures TimeSimilarity(policy, date, date) == 1.0
  {
  }

  lemma TotalOfWholes(policy: Policy, time: bool, merchant: bool, description: bool)
    ensures Total(policy, Whole(time), Whole(merchant), Whole(description)) ==
            policy.amountWeight
            + (if time then policy.timeWeight else 0.0)
            + (if merchant then policy.merchantWeight else 0.0)
            + (if description then policy.descriptionWeight else 0.0)
  {
  }

  /** A candidate that is liker to the event in one text, and otherwise the same, does not score less. */
  lemma LikerNeverScoresLess(event: Event, c: Candidate, d: Candidate, policy: Policy, text: Text)
    requires policy.Valid() && event.occurredAt.Some?
    requires d == c.(merchant := d.merchant, description := d.description)
    requires TextSimilarity(text, event.merchant, c.merchant) <= TextSimilarity(text, event.merchant, d.merchant)
    requires TextSimilarity(text, Some(event.description), Some(c.description))
          <= TextSimilarity(text, Some(event.description), Some(d.description))
    ensures ScoreCandidate(event, c, policy, text).score <= ScoreCandidate(event, d, policy, text).score
  {
    var t := TimeSimilarity(policy, event.occurredAt.value, c.date);
    var m, m' := TextSimilarity(text, event.merchant, c.merchant), TextSimilarity(text, event.merchant, d.merchant);
    var x, x' := TextSimilarity(text, Some(event.description), Some(c.description)),
        TextSimilarity(text, Some(event.description), Some(d.description));
    WeighMonotone(policy.merchantWeight, m, m');
    WeighMonotone(policy.descriptionWeight, x, x');
    QuantizeMonotone(Total(policy, t, m, x), Total(policy, t, m', x'));
  }

  // ---------------------------------------------------------------- decisions and reasons

  /** Both thresholds are inclusive, and other money or type is never more than a new transaction. */
  lemma DecisionIff(event: Event, c: Candidate, policy: Policy, text: Text)
    requires policy.Valid()
    ensures var o := ScoreCandidate(event, c, policy, text);
            && o.candidate == Some(c.id)
            && (Weighed(event, c) ==>
                  && (o.decision == Merge <==> o.score >= policy.mergeThreshold)
                  && (o.decision == NewTransaction <==> o.score < policy.reviewThreshold))
            && (event.amount != Some(c.amount) || event.currency != Some(c.currency)
                || event.kind != TransactionEvent(c.kind) || event.occurredAt.None? ==>
                  o.decision == NewTransaction && o.score == 0.0)
  {
  }

  /** The candidate chosen has the highest score and, among those that have it, the smallest id. */
  lemma WinnerIsHighest(event: Event, cs: seq<Candidate>, policy: Policy, text: Text) returns (w: nat)
    requires policy.Valid() && cs != []
    ensures w < |cs|
    ensures ReconcileCandidates(event, cs, policy, text) == ScoreCandidate(event, cs[w], policy, text)
    ensures ReconcileCandidates(event, cs, policy, text).candidate == Some(cs[w].id)
    ensures forall i :: 0 <= i < |cs| ==>
              var s := ScoreCandidate(event, cs[i], policy, text).score;
              var top := ScoreCandidate(event, cs[w], policy, text).score;
              s <= top && (s == top ==> cs[w].id <= cs[i].id)
  {
    w := Winner(event, cs, policy, text);
    var rs := Scores(event, cs, policy, text);
    forall i | 0 <= i < |cs| ensures Before(Best(rs), rs[i]) {
      assert rs[i] == ScoreCandidate(event, cs[i], policy, text);
    }
  }

  /** What the reasons of a weighted score say, each exactly when it holds. */
  lemma ReasonsIff(event: Event, c: Candidate, policy: Policy, text: Text)
    requires policy.Valid() && Weighed(event, c)
    ensures var o := ScoreCandidate(event, c, policy, text);
            var m, d := TextSimilarity(text, event.merchant, c.merchant),
                TextSimilarity(text, Some(event.description), Some(c.description));
            && ("TIME_CLOSE" in o.reasons <==>
                  20 * Distance(event.occurredAt.value, c.date) <= policy.windowMinutes * 60_000_000)
            && ("MERCHANT_EXACT" in o.reasons <==> m == 1.0)
            && ("MERCHANT_SIMILAR" in o.reasons <==> 0.70 <= m && m != 1.0)
            && ("DESCRIPTION_EXACT" in o.reasons <==> d == 1.0)
            && ("DESCRIPTION_SIMILAR" in o.reasons <==> 0.70 <= d && d != 1.0)
            && ("SCORE_AUTO_MERGE" in o.reasons <==> o.decision == Merge)
            && ("SCORE_POSSIBLE_DUPLICATE" in o.reasons <==> o.decision == PossibleDuplicate)
  {
    var m, d := TextSimilarity(text, event.merchant, c.merchant),
        TextSimilarity(text, Some(event.description), Some(c.description));
    var close := TimeSimilarity(policy, event.occurredAt.value, c.date) >= 0.95;
    CloseIff(policy, event.occurredAt.value, c.date);
    TimeReason(close, m, d, ScoreCandidate(event, c, policy, text).decision);
    TextReasons(close, m, d, ScoreCandidate(event, c, policy, text).decision);
    DecisionReasons(close, m, d, ScoreCandidate(event, c, policy, text).decision);
  }

  function Reasons(close: bool, m: real, d: real, decision: Decision): seq<string>
  {
    ["AMOUNT_CURRENCY_EXACT"] + (if close then ["TIME_CLOSE"] else ["TIME_WITHIN_WINDOW"])
    + TextReason(m, "MERCHANT_EXACT", "MERCHANT_SIMILAR") + TextReason(d, "DESCRIPTION_EXACT", "DESCRIPTION_SIMILAR")
    + [DecisionReason(decision)]
  }

  lemma InReasons(close: bool, m: real, d: real, decision: Decision, x: string)
    ensures x in Reasons(close, m, d, decision) <==>
              || x == "AMOUNT_CURRENCY_EXACT" || x == (if close then "TIME_CLOSE" else "TIME_WITHIN_WINDOW")
              || x in TextReason(m, "MERCHANT_EXACT", "MERCHANT_SIMILAR")
              || x in TextReason(d, "DESCRIPTION_EXACT", "DESCRIPTION_SIMILAR") || x == DecisionReason(decision)
  {
  }

  lemma TimeReason(close: bool, m: real, d: real, decision: Decision)
    ensures "TIME_CLOSE" in Reasons(close, m, d, decision) <==> close
  {
    InReasons(close, m, d, decision, "TIME_CLOSE");
  }

  lemma TextReasons(close: bool, m: real, d: real, decision: Decision)
    ensures "MERCHANT_EXACT" in Reasons(close, m, d, decision) <==> m == 1.0
    ensures "MERCHANT_SIMILAR" in Reasons(close, m, d, decision) <==> 0.70 <= m && m != 1.0
    ensures "DESCRIPTION_EXACT" in Reasons(close, m, d, decision) <==> d == 1.0
    ensures "DESCRIPTION_SIMILAR" in Reasons(close, m, d, decision) <==> 0.70 <= d && d != 1.0
  {
    assert "MERCHANT_SIMILAR"[0] != "SCORE_AUTO_MERGE"[0];
    InReasons(close, m, d, decision, "MERCHANT_EXACT");
    InReasons(close, m, d, decision, "MERCHANT_SIMILAR");
    InReasons(close, m, d, decision, "DESCRIPTION_EXACT");
    InReasons(close, m, d, decision, "DESCRIPTION_SIMILAR");
  }

  lemma DecisionReasons(close: bool, m: real, d: real, decision: Decision)
    ensures "SCORE_AUTO_MERGE" in Reasons(close, m, d, decision) <==> decision == Merge
    ensures "SCORE_POSSIBLE_DUPLICATE" in Reasons(close, m, d, decision) <==> decision == PossibleDuplicate
  {
    assert "MERCHANT_SIMILAR"[0] != "SCORE_AUTO_MERGE"[0];
    InReasons(close, m, d, decision, "SCORE_AUTO_MERGE");
    InReasons(close, m, d, decision, "SCORE_POSSIBLE_DUPLICATE");
  }

  lemma CloseIff(policy: Policy, at: int, date: int)
    requires policy.Valid()
    ensures TimeSimilarity(policy, at, date) >= 0.95 <==> 20 * Distance(at, date) <= policy.windowMinutes * 60_000_000
  {
    var s, d, w := TimeSimilarity(policy, at, date), Distance(at, date), policy.Window();
    TimeSimilarityIsLinear(policy, at, date);
    if d <= w {
      assert (w - d) as real == w as real - d as real && (20 * d) as real == 20.0 * d as real;
      WithinOneTwentieth(s, d as real, w as real);
    }
  }

  lemma WithinOneTwentieth(s: real, d: real, w: real)
    requires 0.0 < w && s * w == w - d
    ensures s >= 0.95 <==> 20.0 * d <= w
  {
    assert (s - 0.95) * w == w - d - 0.95 * w;
  }
}
