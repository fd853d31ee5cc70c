/** The bounded, deduplicated candidate lookup, and why an exact identifier survives its bounds. */
module Candidates {
  import opened Wrappers
  import opened Domain
  import opened Rows
  import Scoring

  /**
   * The orders in which the two queries visit the transactions. The identifier query has no ORDER BY, so
   * its order is arbitrary; that the time query visits the nearest first is assumed only where it matters.
   */
  datatype Scan = Scan(exact: seq<TxId>, temporal: seq<TxId>)

  function Filter<T(!new)>(p: T -> bool, s: seq<T>): (r: seq<T>)
    ensures forall x :: x in r <==> x in s && p(x)
  {
    if s == [] then [] else if p(s[0]) then [s[0]] + Filter(p, s[1..]) else Filter(p, s[1..])
  }

  function Limit<T(!new)>(s: seq<T>, n: int): (r: seq<T>)
    ensures forall x :: x in r ==> x in s
  {
    if n < 0 then [] else if |s| <= n then s else s[..n]
  }

  /** Keeps the first occurrence of every element, as a dictionary keyed by the elements does. */
  function Dedup<T(==, !new)>(s: seq<T>, seen: set<T>): (r: seq<T>)
    ensures forall x :: x in r <==> x in s && x !in seen
    ensures forall i, j :: 0 <= i < j < |r| ==> r[i] != r[j]
    ensures s != [] && s[0] !in seen ==> r != [] && r[0] == s[0]
  {
    if s == [] then []
    else if s[0] in seen then Dedup(s[1..], seen)
    else [s[0]] + Dedup(s[1..], seen + {s[0]})
  }

  /** Every payment identifier that evidence attaches to the transaction. */
  function EvidenceIdentifiers(t: Tables, x: TxId): set<string>
  {
    set k, i | k in t.evidence && t.evidence[k] == x && k in t.norms && 0 <= i < |t.norms[k].identifiers| ::
        t.norms[k].identifiers[i]
  }

  predicate Eligible(t: Tables, owner: nat, e: Event, x: TxId)
  {
    e.occurredAt.Some? && Owned(t, owner, x) && CandidateStillValid(t.txs[x], e)
  }

  predicate SharesEvidence(t: Tables, e: Event, x: TxId)
  {
    Scoring.SharesIdentifier(e, EvidenceIdentifiers(t, x))
  }

  predicate InWindow(t: Tables, e: Event, x: TxId, policy: Scoring.Policy)
    requires e.occurredAt.Some? && x in t.txs
  {
    e.occurredAt.value - policy.Window() <= t.txs[x].date <= e.occurredAt.value + policy.Window()
  }

  function ExactIds(t: Tables, owner: nat, e: Event, scan: Scan, policy: Scoring.Policy): (ids: seq<TxId>)
    ensures forall x :: x in ids ==> Eligible(t, owner, e, x)
  {
    Limit(Filter(x => Eligible(t, owner, e, x) && SharesEvidence(t, e, x), scan.exact), policy.maxCandidates)
  }

  function TemporalIds(t: Tables, owner: nat, e: Event, scan: Scan, policy: Scoring.Policy): (ids: seq<TxId>)
    ensures forall x :: x in ids ==> Eligible(t, owner, e, x)
  {
    Limit(Filter(x => Eligible(t, owner, e, x) && InWindow(t, e, x, policy), scan.temporal), policy.maxCandidates)
  }

  function FindCandidates(t: Tables, owner: nat, e: Event, scan: Scan, policy: Scoring.Policy): (ids: seq<TxId>)
    requires policy.Valid()
    ensures |ids| <= policy.maxCandidates
    ensures forall i, j :: 0 <= i < j < |ids| ==> ids[i] != ids[j]
    ensures forall i :: 0 <= i < |ids| ==> Eligible(t, owner, e, ids[i])
  {
    var all := Dedup(ExactIds(t, owner, e, scan, policy) + TemporalIds(t, owner, e, scan, policy), {});
    assert forall i :: 0 <= i < |all| ==> all[i] in all;
    Limit(all, policy.maxCandidates)
  }

  function CandidateView(t: Tables, x: TxId): Scoring.Candidate
    requires x in t.txs
  {
    var tx := t.txs[x];
    Scoring.Candidate(x, tx.amount, tx.currency, tx.kind, tx.description, tx.date, tx.merchant,
        EvidenceIdentifiers(t, x))
  }

  function CandidateViews(t: Tables, ids: seq<TxId>): (cs: seq<Scoring.Candidate>)
    requires forall i :: 0 <= i < |ids| ==> ids[i] in t.txs
    ensures |cs| == |ids|
    ensures forall i :: 0 <= i < |ids| ==> cs[i] == CandidateView(t, ids[i])
  {
    seq(|ids|, i requires 0 <= i < |ids| => CandidateView(t, ids[i]))
  }

  /** What scoring is configured with. */
  datatype Config = Config(policy: Scoring.Policy, text: Scoring.Text)
  {
    ghost predicate Valid() { policy.Valid() && text.Valid() }
  }

  function Outcome(t: Tables, owner: nat, e: Event, scan: Scan, config: Config): Scoring.Outcome
    requires config.policy.Valid()
  {
    Scoring.ReconcileCandidates(e, CandidateViews(t, FindCandidates(t, owner, e, scan, config.policy)), config.policy,
        config.text)
  }

  /** Whatever a merge or review decision names is a transaction the guards will accept. */
  lemma FlaggedIsEligible(t: Tables, owner: nat, e: Event, scan: Scan, config: Config)
    requires config.policy.Valid()
    ensures var o := Outcome(t, owner, e, scan, config);
            && (o.decision != NewTransaction ==> o.candidate.Some?)
            && (o.candidate.Some? ==> Eligible(t, owner, e, o.candidate.value))
  {
    var ids := FindCandidates(t, owner, e, scan, config.policy);
    var cs := CandidateViews(t, ids);
    if cs != [] {
      var i := Scoring.Winner(e, cs, config.policy, config.text);
      assert cs[i].id == ids[i];
    }
  }

  /**
   * If any posted transaction of the owner with the event's exact money shares a payment identifier with
   * it, the decision is to merge: however many candidates there are, whatever the scan order and however
   * far apart in time, the bounds never cut the identifier's match off.
   */
  lemma IdentifierAlwaysMerges(t: Tables, owner: nat, e: Event, scan: Scan, config: Config, x: TxId)
    requires config.Valid()
    requires Eligible(t, owner, e, x) && SharesEvidence(t, e, x) && x in scan.exact
    ensures Outcome(t, owner, e, scan, config).decision == Merge
  {
    var policy := config.policy;
    var matches := Filter(y => Eligible(t, owner, e, y) && SharesEvidence(t, e, y), scan.exact);
    assert x in matches;
    var exact := ExactIds(t, owner, e, scan, policy);
    assert exact != [] && exact[0] == matches[0];
    assert Eligible(t, owner, e, exact[0]) && SharesEvidence(t, e, exact[0]) by { assert matches[0] in matches; }
    var ids := FindCandidates(t, owner, e, scan, policy);
    assert (exact + TemporalIds(t, owner, e, scan, policy))[0] == exact[0];
    assert ids[0] == exact[0];
    Scoring.IdentifierForcesMerge(e, CandidateViews(t, ids), policy, config.text, 0);
  }

  /**
   * Which of several matching transactions wins: the one asked about exactly if no listed candidate with a
   * smaller id also reaches score one.
   */
  lemma IdentifierOwnerWinsIff(t: Tables, owner: nat, e: Event, scan: Scan, config: Config, i: nat)
    requires config.Valid() && i < |FindCandidates(t, owner, e, scan, config.policy)|
    requires SharesEvidence(t, e, FindCandidates(t, owner, e, scan, config.policy)[i])
    ensures var ids := FindCandidates(t, owner, e, scan, config.policy);
            (Outcome(t, owner, e, scan, config).candidate == Some(ids[i])
             <==> Scoring.FirstAtOne(e, CandidateViews(t, ids), config.policy, config.text, i))
  {
    var ids := FindCandidates(t, owner, e, scan, config.policy);
    var cs := CandidateViews(t, ids);
    assert Eligible(t, owner, e, ids[i]);
    Scoring.IdentifierOwnerWinsIff(e, cs, config.policy, config.text, i);
  }

  // ---------------------------------------------------------------- what the bounds cut off

  function Away(t: Tables, e: Event, x: TxId): nat
  {
    if x in t.txs && e.occurredAt.Some? then Scoring.Distance(e.occurredAt.value, t.txs[x].date) else 0
  }

  /** The time query's order: nearer to the event first, then the smaller id. */
  predicate Nearer(t: Tables, e: Event, x: TxId, y: TxId)
  {
    Away(t, e, x) < Away(t, e, y) || (Away(t, e, x) == Away(t, e, y) && x < y)
  }

  ghost predicate NearestFirst(t: Tables, e: Event, ids: seq<TxId>)
  {
    forall i, j :: 0 <= i < j < |ids| ==> Nearer(t, e, ids[i], ids[j])
  }

  ghost predicate Distinct(ids: seq<TxId>) { forall i, j :: 0 <= i < j < |ids| ==> ids[i] != ids[j] }

  /** Neither query visits a transaction twice, and the time query visits the nearest first. */
  ghost predicate InOrder(t: Tables, e: Event, scan: Scan) { Distinct(scan.exact) && NearestFirst(t, e, scan.temporal) }

  /** The first of a list before some of the others in order. */
  lemma PartKeepsOrder(t: Tables, e: Event, ids: seq<TxId>, part: seq<TxId>)
    requires ids != [] && forall x :: x in part ==> x in ids[1..]
    ensures NearestFirst(t, e, ids) ==> NearestFirst(t, e, ids[1..])
    ensures NearestFirst(t, e, ids) && NearestFirst(t, e, part) ==> NearestFirst(t, e, [ids[0]] + part)
    ensures Distinct(ids) ==> Distinct(ids[1..])
    ensures Distinct(ids) && Distinct(part) ==> Distinct([ids[0]] + part)
  {
    forall i | 0 <= i < |part| ensures exists j :: 0 < j < |ids| && ids[j] == part[i] {
      assert part[i] in ids[1..];
      var j :| 0 <= j < |ids[1..]| && ids[1..][j] == part[i];
      assert ids[j + 1] == part[i];
    }
  }

  lemma {:induction false} FilterKeepsOrder(t: Tables, e: Event, p: TxId -> bool, ids: seq<TxId>)
    ensures NearestFirst(t, e, ids) ==> NearestFirst(t, e, Filter(p, ids))
    ensures Distinct(ids) ==> Distinct(Filter(p, ids))
  {
    if ids != [] {
      PartKeepsOrder(t, e, ids, Filter(p, ids[1..]));
      FilterKeepsOrder(t, e, p, ids[1..]);
    }
  }

  lemma {:induction false} DedupKeepsOrder(t: Tables, e: Event, ids: seq<TxId>, seen: set<TxId>)
    requires NearestFirst(t, e, ids)
    ensures NearestFirst(t, e, Dedup(ids, seen))
  {
    if ids != [] {
      var seen' := if ids[0] in seen then seen else seen + {ids[0]};
      PartKeepsOrder(t, e, ids, Dedup(ids[1..], seen'));
      DedupKeepsOrder(t, e, ids[1..], seen');
    }
  }

  function Elements(ids: seq<TxId>): set<TxId> { set x | x in ids }

  lemma ElementsSplit(a: seq<TxId>, seen: set<TxId>)
    requires a != [] && Distinct(a) && Elements(a) !! seen
    ensures seen + {a[0]} + Elements(a[1..]) == seen + Elements(a)
    ensures Distinct(a[1..]) && Elements(a[1..]) !! seen + {a[0]} && a[0] !in seen
  {
    assert forall x :: x in a <==> x == a[0] || x in a[1..];
    assert a[0] in Elements(a);
  }

  /** Removing duplicates from two lists leaves the first, if it has none, and what is new in the second. */
  lemma {:induction false} DedupAfter(a: seq<TxId>, b: seq<TxId>, seen: set<TxId>)
    requires Distinct(a) && Elements(a) !! seen
    ensures Dedup(a + b, seen) == a + Dedup(b, seen + Elements(a))
    decreases |a|
  {
    if a == [] {
      assert a + b == b && seen + Elements(a) == seen;
    } else {
      ElementsSplit(a, seen);
      DedupAfter(a[1..], b, seen + {a[0]});
      DedupHead(a, b, seen);
      HeadFirst(a, Dedup(b, seen + Elements(a)));
    }
  }

  lemma HeadFirst(a: seq<TxId>, rest: seq<TxId>)
    requires a != []
    ensures [a[0]] + (a[1..] + rest) == a + rest
  {
  }

  lemma DedupHead(a: seq<TxId>, b: seq<TxId>, seen: set<TxId>)
    requires a != [] && a[0] !in seen
    ensures Dedup(a + b, seen) == [a[0]] + Dedup(a[1..] + b, seen + {a[0]})
  {
    assert (a + b)[1..] == a[1..] + b && (a + b)[0] == a[0];
  }

  lemma {:induction false} DistinctSize(ids: seq<TxId>)
    requires Distinct(ids)
    ensures |Elements(ids)| == |ids|
  {
    if ids != [] {
      DistinctSize(ids[1..]);
      assert Elements(ids) == Elements(ids[1..]) + {ids[0]};
    }
  }

  lemma LongEnough(ids: seq<TxId>, all: seq<TxId>)
    requires Distinct(ids) && Distinct(all) && forall x :: x in ids ==> x in all
    ensures |ids| <= |all|
  {
    DistinctSize(ids);
    DistinctSize(all);
    assert Elements(all) == Elements(ids) + (Elements(all) - Elements(ids));
  }

  /** One list without duplicates after another in order. */
  ghost predicate Merges(t: Tables, e: Event, a: seq<TxId>, b: seq<TxId>, all: seq<TxId>)
  {
    && Distinct(all) && |a| <= |all| && all[..|a|] == a && NearestFirst(t, e, all[|a|..])
    && (forall x :: x in all <==> x in a || x in b)
    && (forall x :: x in all[|a|..] ==> x in b)
  }

  lemma DedupMerges(t: Tables, e: Event, a: seq<TxId>, b: seq<TxId>)
    requires Distinct(a) && NearestFirst(t, e, b)
    ensures Merges(t, e, a, b, Dedup(a + b, {}))
  {
    DedupAfter(a, b, {});
    DedupKeepsOrder(t, e, b, {} + Elements(a));
  }

  lemma QueriesInOrder(t: Tables, owner: nat, e: Event, scan: Scan, policy: Scoring.Policy)
    requires InOrder(t, e, scan)
    ensures Distinct(ExactIds(t, owner, e, scan, policy)) && NearestFirst(t, e, TemporalIds(t, owner, e, scan, policy))
  {
    FilterKeepsOrder(t, e, (x: TxId) => Eligible(t, owner, e, x) && SharesEvidence(t, e, x), scan.exact);
    FilterKeepsOrder(t, e, (x: TxId) => Eligible(t, owner, e, x) && InWindow(t, e, x, policy), scan.temporal);
  }

  /** The identifier's matches come first and the others after them, nearest first. */
  lemma Listed(t: Tables, owner: nat, e: Event, scan: Scan, policy: Scoring.Policy) returns (all: seq<TxId>, split: nat)
    requires policy.Valid() && InOrder(t, e, scan)
    ensures FindCandidates(t, owner, e, scan, policy) == Limit(all, policy.maxCandidates)
    ensures split == |ExactIds(t, owner, e, scan, policy)|
    ensures Merges(t, e, ExactIds(t, owner, e, scan, policy), TemporalIds(t, owner, e, scan, policy), all)
  {
    QueriesInOrder(t, owner, e, scan, policy);
    DedupMerges(t, e, ExactIds(t, owner, e, scan, policy), TemporalIds(t, owner, e, scan, policy));
    all := Dedup(ExactIds(t, owner, e, scan, policy) + TemporalIds(t, owner, e, scan, policy), {});
    split := |ExactIds(t, owner, e, scan, policy)|;
  }

  /** What the limit cuts off an ordered list comes after everything it leaves. */
  lemma LimitCutsTail(t: Tables, e: Event, ids: seq<TxId>, n: nat, x: TxId)
    requires NearestFirst(t, e, ids) && x in ids && x !in Limit(ids, n)
    ensures |Limit(ids, n)| == n && forall y :: y in Limit(ids, n) ==> Nearer(t, e, y, x)
  {
    var j :| 0 <= j < |ids| && ids[j] == x;
    assert |ids| > n;
    assert forall i :: 0 <= i < n ==> ids[..n][i] == ids[i];
    assert j >= n;
  }

  lemma TemporalCutsTail(t: Tables, owner: nat, e: Event, scan: Scan, policy: Scoring.Policy, x: TxId)
    requires policy.Valid() && InOrder(t, e, scan) && Eligible(t, owner, e, x) && InWindow(t, e, x, policy)
    requires x in scan.temporal
    requires x !in TemporalIds(t, owner, e, scan, policy)
    ensures |TemporalIds(t, owner, e, scan, policy)| == policy.maxCandidates
    ensures forall y :: y in TemporalIds(t, owner, e, scan, policy) ==> Nearer(t, e, y, x)
  {
    var matches := Filter((y: TxId) => Eligible(t, owner, e, y) && InWindow(t, e, y, policy), scan.temporal);
    FilterKeepsOrder(t, e, (y: TxId) => Eligible(t, owner, e, y) && InWindow(t, e, y, policy), scan.temporal);
    LimitCutsTail(t, e, matches, policy.maxCandidates, x);
  }

  /** What the limit cuts off the second, ordered part of a list comes after everything it leaves of that part. */
  lemma ListCutsTail(t: Tables, e: Event, all: seq<TxId>, split: nat, n: nat, x: TxId)
    requires split <= |all| && split <= n && NearestFirst(t, e, all[split..]) && x in all && x !in Limit(all, n)
    ensures |Limit(all, n)| == n && forall y :: y in Limit(all, n) ==> y in all[..split] || Nearer(t, e, y, x)
  {
    var j :| 0 <= j < |all| && all[j] == x;
    assert |all| > n;
    assert forall i :: 0 <= i < n ==> all[..n][i] == all[i];
    assert j >= n;
    forall i | 0 <= i < n ensures all[i] in all[..split] || Nearer(t, e, all[i], x) {
      if i < split {
        assert all[..split][i] == all[i];
      } else {
        assert all[split..][i - split] == all[i] && all[split..][j - split] == x;
      }
    }
  }

  /**
   * A transaction in the event's window is left out only when the list is full, and then every one listed
   * shares an identifier with the event or is nearer to it.
   */
  lemma NearestSurvive(t: Tables, owner: nat, e: Event, scan: Scan, policy: Scoring.Policy, x: TxId)
    requires policy.Valid() && InOrder(t, e, scan)
    requires Eligible(t, owner, e, x) && InWindow(t, e, x, policy) && x in scan.temporal
    requires x !in FindCandidates(t, owner, e, scan, policy)
    ensures |FindCandidates(t, owner, e, scan, policy)| == policy.maxCandidates
    ensures forall y :: y in FindCandidates(t, owner, e, scan, policy) ==> SharesEvidence(t, e, y) || Nearer(t, e, y, x)
  {
    var all, split := Listed(t, owner, e, scan, policy);
    ExactShare(t, owner, e, scan, policy);
    if x in TemporalIds(t, owner, e, scan, policy) {
      ListCutsTail(t, e, all, split, policy.maxCandidates, x);
    } else {
      TemporalCutsTail(t, owner, e, scan, policy, x);
      QueriesInOrder(t, owner, e, scan, policy);
      LongEnough(TemporalIds(t, owner, e, scan, policy), all);
    }
  }

  lemma ExactShare(t: Tables, owner: nat, e: Event, scan: Scan, policy: Scoring.Policy)
    requires policy.Valid()
    ensures |ExactIds(t, owner, e, scan, policy)| <= policy.maxCandidates
    ensures forall x :: x in ExactIds(t, owner, e, scan, policy) ==> SharesEvidence(t, e, x)
  {
  }

  /** A transaction that shares an identifier is left out only when the list is full of such transactions. */
  lemma IdentifiersComeFirst(t: Tables, owner: nat, e: Event, scan: Scan, policy: Scoring.Policy, x: TxId)
    requires policy.Valid() && InOrder(t, e, scan)
    requires Eligible(t, owner, e, x) && SharesEvidence(t, e, x) && x in scan.exact
    requires x !in FindCandidates(t, owner, e, scan, policy)
    ensures |FindCandidates(t, owner, e, scan, policy)| == policy.maxCandidates
    ensures forall y :: y in FindCandidates(t, owner, e, scan, policy) ==> SharesEvidence(t, e, y)
  {
    var all, split := Listed(t, owner, e, scan, policy);
    var exact, ids := ExactIds(t, owner, e, scan, policy), FindCandidates(t, owner, e, scan, policy);
    assert x in Filter(y => Eligible(t, owner, e, y) && SharesEvidence(t, e, y), scan.exact);
    assert forall y :: y in exact ==> y in ids;
    assert |exact| == policy.maxCandidates && ids == all[..split];
  }

  /** Evidence of the transaction carries one of the event's identifiers. */
  ghost predicate IdentifierOnEvidence(t: Tables, e: Event, x: TxId, k: NormKey, i: nat)
  {
    && k in t.evidence && t.evidence[k] == x && k in t.norms
    && i < |e.identifiers| && e.identifiers[i] in t.norms[k].identifiers
  }

  lemma SharesIff(t: Tables, e: Event, x: TxId)
    ensures SharesEvidence(t, e, x) <==> exists k, i: nat :: IdentifierOnEvidence(t, e, x, k, i)
  {
    if SharesEvidence(t, e, x) {
      var i: nat :| i < |e.identifiers| && e.identifiers[i] in EvidenceIdentifiers(t, x);
      var k, j :| k in t.evidence && t.evidence[k] == x && k in t.norms && 0 <= j < |t.norms[k].identifiers|
        && t.norms[k].identifiers[j] == e.identifiers[i];
      assert IdentifierOnEvidence(t, e, x, k, i);
    }
    if k, i: nat :| IdentifierOnEvidence(t, e, x, k, i) {
      assert e.identifiers[i] in EvidenceIdentifiers(t, x);
    }
  }

  /**
   * A list that is not full holds exactly the posted transactions of the owner with the event's money and type
   * that a query visited for an identifier in common or for a date within the window, both ends included.
   */
  lemma ListedIff(t: Tables, owner: nat, e: Event, scan: Scan, policy: Scoring.Policy, x: TxId)
    requires policy.Valid() && InOrder(t, e, scan) && |FindCandidates(t, owner, e, scan, policy)| < policy.maxCandidates
    ensures x in FindCandidates(t, owner, e, scan, policy) <==>
              && x in t.txs && t.txs[x].owner == owner && t.txs[x].status == Posted
              && e.amount == Some(t.txs[x].amount) && e.currency == Some(t.txs[x].currency)
              && e.kind == TransactionEvent(t.txs[x].kind) && e.occurredAt.Some?
              && (|| (x in scan.exact && exists k, i: nat :: IdentifierOnEvidence(t, e, x, k, i))
                  || (x in scan.temporal
                      && Scoring.Distance(e.occurredAt.value, t.txs[x].date) <= policy.windowMinutes * 60_000_000))
  {
    SharesIff(t, e, x);
    var ids := FindCandidates(t, owner, e, scan, policy);
    if x in ids {
      ListedWasVisited(t, owner, e, scan, policy, x);
    } else if Eligible(t, owner, e, x) {
      if SharesEvidence(t, e, x) && x in scan.exact { IdentifiersComeFirst(t, owner, e, scan, policy, x); }
      if InWindow(t, e, x, policy) && x in scan.temporal { NearestSurvive(t, owner, e, scan, policy, x); }
    }
  }

  lemma ListedWasVisited(t: Tables, owner: nat, e: Event, scan: Scan, policy: Scoring.Policy, x: TxId)
    requires policy.Valid() && x in FindCandidates(t, owner, e, scan, policy)
    ensures Eligible(t, owner, e, x)
    ensures (x in scan.exact && SharesEvidence(t, e, x)) || (x in scan.temporal && InWindow(t, e, x, policy))
  {
    var all := ExactIds(t, owner, e, scan, policy) + TemporalIds(t, owner, e, scan, policy);
    assert x in Dedup(all, {});
    assert x in all;
  }
}
