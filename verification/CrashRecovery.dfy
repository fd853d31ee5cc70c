/**
 * One connector synchronisation is many database transactions: per event a store and a process, and last
 * the cursor. Stopping after any of them, any number of times, and running again from the persisted
 * cursor ends exactly where one uninterrupted synchronisation ends; only for content that its connector
 * rejects may the attempt counts differ.
 */
module CrashRecovery {
  import opened Wrappers
  import opened Domain
  import opened Rows
  import opened Candidates
  import opened Ledger
  import opened Lockstep
  import opened SourceHistory
  import LedgerService
  import Scoring

  /** A connection's persisted state: the tables, and the offset up to which its events are done. */
  datatype Synced = Synced(tables: Tables, cursor: nat)

  /**
   * What a synchronisation depends on. `find` gives the queries' scan orders for given tables; it never
   * sees the attempt counts.
   */
  datatype Feed = Feed(connection: Connection, events: seq<Envelope>, find: Tables -> Scan, config: Config)
  {
    ghost predicate Valid() { config.policy.Valid() }

    function Key(e: Envelope): RawKey { RawKey(connection, IdentityOf(e)) }

    function Scanned(t: Tables): Scan { find(t.(attempts := map[])) }

    /** The connector's page for a persisted offset. */
    function Page(cursor: nat): seq<Envelope> { if cursor < |events| then events[cursor..] else [] }
  }

  /** Where a synchronisation stands after some committed transactions: it goes on, or it has raised. */
  datatype Progress = Progress(tables: Tables, error: Option<Error>)

  // ---------------------------------------------------------------- the uninterrupted run

  /** The second transaction of one event's ingestion, skipped when the event is already terminal. */
  function Finish(t: Tables, e: Envelope, feed: Feed): Progress
    requires feed.Valid() && feed.Key(e) in t.processing
  {
    if Terminal(t.processing[feed.Key(e)].state) then Progress(t, None)
    else
      match Process(t, feed.Key(e), feed.Scanned(t), feed.config)
      case Failure(error) => Progress(t, Some(error))
      case Success(t') => Progress(t', None)
  }

  function Ingest(t: Tables, e: Envelope, feed: Feed): Progress
    requires feed.Valid()
  {
    match StoreRaw(t, feed.connection, e)
    case Failure(error) => Progress(t, Some(error))
    case Success(t1) => Finish(t1, e, feed)
  }

  function IngestAll(t: Tables, es: seq<Envelope>, feed: Feed): Progress
    requires feed.Valid()
    decreases |es|
  {
    if es == [] then Progress(t, None)
    else
      var p := Ingest(t, es[0], feed);
      if p.error.Some? then p else IngestAll(p.tables, es[1..], feed)
  }

  /** The whole synchronisation: the cursor moves only after every event of the page is done. */
  function Sync(s: Synced, feed: Feed): (Synced, Option<Error>)
    requires feed.Valid()
  {
    var p := IngestAll(s.tables, feed.Page(s.cursor), feed);
    (Synced(p.tables, if p.error.None? then |feed.events| else s.cursor), p.error)
  }

  /** The synchronising service over the mutable tables and its connection's persisted offset. */
  class SyncService {
    const store: LedgerService.Store
    var cursor: nat

    constructor (store: LedgerService.Store)
      ensures this.store == store && cursor == 0
    {
      this.store, cursor := store, 0;
    }

    method IngestForConnection(e: Envelope, feed: Feed) returns (error: Option<Error>)
      requires feed.Valid()
      modifies store
      ensures Progress(store.Snapshot(), error) == Ingest(old(store.Snapshot()), e, feed)
    {
      error := store.StoreRawEvent(feed.connection, e);
      if error.Some? { return; }
      var r := feed.Key(e);
      if Terminal(store.processing[r].state) { return None; }
      error := store.ProcessEvent(r, feed.Scanned(store.Snapshot()), feed.config);
    }

    method SyncConnector(feed: Feed) returns (error: Option<Error>)
      requires feed.Valid()
      modifies this, store
      ensures (Synced(store.Snapshot(), cursor), error) == Sync(Synced(old(store.Snapshot()), old(cursor)), feed)
    {
      var batch := feed.Page(cursor);
      ghost var all := IngestAll(store.Snapshot(), batch, feed);
      var i := 0;
      while i < |batch|
        invariant 0 <= i <= |batch| && cursor == old(cursor)
        invariant IngestAll(store.Snapshot(), batch[i..], feed) == all
      {
        assert batch[i..][1..] == batch[i + 1..];
        error := IngestForConnection(batch[i], feed);
        if error.Some? { return; }
        i := i + 1;
      }
      cursor := |feed.events|;
      return None;
    }
  }

  // ---------------------------------------------------------------- interrupted runs

  /** What `n` committed transactions leave, and how many of them are left when the events are used up. */
  function CrashAfter(t: Tables, es: seq<Envelope>, feed: Feed, n: nat): (Tables, nat)
    requires feed.Valid()
    decreases |es|
  {
    if es == [] || n == 0 then (t, n)
    else
      match StoreRaw(t, feed.connection, es[0])
      case Failure(_) => (t, 0)
      case Success(t1) =>
        if n == 1 then (t1, 0)
        else if Terminal(t1.processing[feed.Key(es[0])].state) then CrashAfter(t1, es[1..], feed, n - 1)
        else
          var p := Finish(t1, es[0], feed);
          if p.error.Some? then (t1, 0) else CrashAfter(p.tables, es[1..], feed, n - 2)
  }

  function Crash(s: Synced, feed: Feed, n: nat): Synced
    requires feed.Valid()
  {
    var (t, left) := CrashAfter(s.tables, feed.Page(s.cursor), feed, n);
    Synced(t, if left > 0 then |feed.events| else s.cursor)
  }

  function Crashes(s: Synced, feed: Feed, ns: seq<nat>): Synced
    requires feed.Valid()
    decreases |ns|
  {
    if ns == [] then s else Crashes(Crash(s, feed, ns[0]), feed, ns[1..])
  }

  // ---------------------------------------------------------------- attempt counts never matter

  /** The same tables, but for how often content that its connector rejects was tried. */
  predicate Alike(t: Tables, t': Tables)
  {
    && t' == t.(attempts := t'.attempts) && t'.attempts.Keys == t.attempts.Keys
    && forall r :: r in t.attempts && r in t.raws && Normalize(t.raws[r]).Some? ==> t'.attempts[r] == t.attempts[r]
  }

  predicate AlikeProgress(p: Progress, q: Progress) { Alike(p.tables, q.tables) && p.error == q.error }

  lemma {:induction false} FilterCongruence<T(!new)>(p: T -> bool, q: T -> bool, s: seq<T>)
    requires forall x :: p(x) == q(x)
    ensures Filter(p, s) == Filter(q, s)
  {
    if s != [] { FilterCongruence(p, q, s[1..]); }
  }

  lemma OutcomeIgnoresAttempts(t: Tables, a: map<RawKey, nat>, owner: nat, e: Event, scan: Scan, config: Config)
    requires config.policy.Valid()
    ensures Outcome(t.(attempts := a), owner, e, scan, config) == Outcome(t, owner, e, scan, config)
  {
    var t' := t.(attempts := a);
    var policy := config.policy;
    assert forall x :: EvidenceIdentifiers(t', x) == EvidenceIdentifiers(t, x);
    FilterCongruence(
      x => Eligible(t', owner, e, x) && SharesEvidence(t', e, x),
      x => Eligible(t, owner, e, x) && SharesEvidence(t, e, x),
      scan.exact);
    FilterCongruence(
      x => Eligible(t', owner, e, x) && InWindow(t', e, x, policy),
      x => Eligible(t, owner, e, x) && InWindow(t, e, x, policy),
      scan.temporal);
    assert ExactIds(t', owner, e, scan, policy) == ExactIds(t, owner, e, scan, policy);
    assert TemporalIds(t', owner, e, scan, policy) == TemporalIds(t, owner, e, scan, policy);
    var ids := FindCandidates(t, owner, e, scan, policy);
    assert FindCandidates(t', owner, e, scan, policy) == ids;
    assert CandidateViews(t', ids) == CandidateViews(t, ids);
  }

  /** The result of a transaction on the same tables with other attempt counts. */
  function Recounted(res: Result<(Tables, Option<TxId>), Error>, a: map<RawKey, nat>)
    : Result<(Tables, Option<TxId>), Error>
  {
    match res case Failure(e) => Failure(e) case Success((u, x)) => Success((u.(attempts := a), x))
  }

  lemma AttachIgnoresAttempts(t: Tables, a: map<RawKey, nat>, k: NormKey, x: TxId, o: Scoring.Outcome,
          status: CaseStatus, action: ActionKind)
    ensures var res, res' := Attach(t, k, x, o, status, action), Attach(t.(attempts := a), k, x, o, status, action);
            match res case Failure(e) => res' == res case Success(u) => res' == Success(u.(attempts := a))
  {
    if AddEvidence(t, k, x).Success? {
      assert AddEvidence(t.(attempts := a), k, x) == Success(AddEvidence(t, k, x).value.(attempts := a));
      CaseIgnoresAttempts(AddEvidence(t, k, x).value, a, k, o, status, Some(x), action);
    }
  }

  lemma CaseIgnoresAttempts(t: Tables, a: map<RawKey, nat>, k: NormKey, o: Scoring.Outcome, status: CaseStatus,
          x: Option<TxId>, action: ActionKind)
    ensures var res, res' := CreateCase(t, k, o, status, x, action),
              CreateCase(t.(attempts := a), k, o, status, x, action);
            match res case Failure(e) => res' == res case Success(u) => res' == Success(u.(attempts := a))
  {
  }

  lemma MergeIgnoresAttempts(t: Tables, a: map<RawKey, nat>, k: NormKey, tx: Transaction, o: Scoring.Outcome)
    requires k in t.norms && o.decision == Merge
    ensures Handoff(t.(attempts := a), k, tx, o) == Recounted(Handoff(t, k, tx, o), a)
  {
    if o.candidate.Some? { AttachIgnoresAttempts(t, a, k, o.candidate.value, o, Merged, AutoMerged); }
  }

  lemma NewIgnoresAttempts(t: Tables, a: map<RawKey, nat>, k: NormKey, tx: Transaction, o: Scoring.Outcome)
    requires k in t.norms && o.decision == NewTransaction
    ensures Handoff(t.(attempts := a), k, tx, o) == Recounted(Handoff(t, k, tx, o), a)
  {
    assert CreateTransaction(t.(attempts := a), tx) == CreateTransaction(t, tx).(attempts := a);
    AttachIgnoresAttempts(CreateTransaction(t, tx), a, k, t.nextTx, o, KeptSeparate, CreatedNew);
  }

  lemma ReviewIgnoresAttempts(t: Tables, a: map<RawKey, nat>, k: NormKey, tx: Transaction, o: Scoring.Outcome)
    requires k in t.norms && o.decision == PossibleDuplicate
    ensures Handoff(t.(attempts := a), k, tx, o) == Recounted(Handoff(t, k, tx, o), a)
  {
  }

  lemma HandoffIgnoresAttempts(t: Tables, a: map<RawKey, nat>, k: NormKey, tx: Transaction, o: Scoring.Outcome)
    requires k in t.norms
    ensures Handoff(t.(attempts := a), k, tx, o) == Recounted(Handoff(t, k, tx, o), a)
  {
    match o.decision {
      case Merge => MergeIgnoresAttempts(t, a, k, tx, o);
      case PossibleDuplicate => ReviewIgnoresAttempts(t, a, k, tx, o);
      case NewTransaction => NewIgnoresAttempts(t, a, k, tx, o);
    }
  }

  lemma ReconcileIgnoresAttempts(t: Tables, a: map<RawKey, nat>, k: NormKey, tx: Transaction, scan: Scan,
          config: Config)
    requires k in t.norms && config.policy.Valid()
    ensures Reconcile(t.(attempts := a), k, tx, scan, config) == Recounted(Reconcile(t, k, tx, scan, config), a)
  {
    OutcomeIgnoresAttempts(t, a, k.Owner(), t.norms[k], scan, config);
    HandoffIgnoresAttempts(t, a, k, tx, Outcome(t, k.Owner(), t.norms[k], scan, config));
  }

  lemma PostIgnoresAttempts(t: Tables, a: map<RawKey, nat>, k: NormKey, scan: Scan, config: Config)
    requires k in t.norms && k.raw in t.processing && config.policy.Valid()
    ensures var res, res' := PostOrQueue(t, k, scan, config), PostOrQueue(t.(attempts := a), k, scan, config);
            match res case Failure(e) => res' == res case Success(u) => res' == Success(u.(attempts := a))
  {
    var t' := t.(attempts := a);
    var command := ParseTransaction(k.Owner(), t.norms[k]);
    if command.Some? {
      ReconcileIgnoresAttempts(t, a, k, command.value, scan, config);
      ConcludeIgnoresAttempts(k.raw, Reconcile(t, k, command.value, scan, config), a);
    } else {
      QueueIgnoresAttempts(t, a, k.raw, "REVIEW_REQUIRED");
      QueueIgnoresAttempts(t, a, k.raw, "LEDGER_VALIDATION_REVIEW");
    }
  }

  lemma QueueIgnoresAttempts(t: Tables, a: map<RawKey, nat>, r: RawKey, code: string)
    requires r in t.processing
    ensures var res, res' := QueueForReview(t, r, code), QueueForReview(t.(attempts := a), r, code);
            match res case Failure(e) => res' == res case Success(u) => res' == Success(u.(attempts := a))
  {
  }

  lemma ConcludeIgnoresAttempts(r: RawKey, handoff: Result<(Tables, Option<TxId>), Error>, a: map<RawKey, nat>)
    requires handoff.Success? ==> r in handoff.value.0.processing
    ensures var res, res' := Conclude(r, handoff), Conclude(r, Recounted(handoff, a));
            match res case Failure(e) => res' == res case Success(u) => res' == Success(u.(attempts := a))
  {
  }

  lemma ProcessAlike(t: Tables, t': Tables, r: RawKey, scan: Scan, config: Config)
    requires Alike(t, t') && config.policy.Valid()
    ensures AlikeResults(Process(t, r, scan, config), Process(t', r, scan, config))
  {
    if Known(t, r) && Normalize(t.raws[r]).Some? && !Terminal(t.processing[r].state) {
      FirstProcessAlike(t, t', r, Normalize(t.raws[r]).value, scan, config);
    } else {
      assert AlikeResults(Process(t, r, scan, config), Process(t', r, scan, config));
    }
  }

  predicate AlikeResults(res: Result<Tables, Error>, res': Result<Tables, Error>)
  {
    match res case Failure(e) => res' == res case Success(u) => res'.Success? && Alike(u, res'.value)
  }

  lemma FirstProcessAlike(t: Tables, t': Tables, r: RawKey, e: Event, scan: Scan, config: Config)
    requires Alike(t, t') && config.policy.Valid() && Known(t, r) && Normalize(t.raws[r]) == Some(e)
    requires !Terminal(t.processing[r].state)
    ensures AlikeResults(Process(t, r, scan, config), Process(t', r, scan, config))
  {
    var prepared, k := Prepared(t, r, e), NormKey(r, Connector);
    var a := t'.attempts[r := t'.attempts[r] + 1];
    PreparedAlike(t, t', r, e);
    ProcessIsPost(t, r, e, scan, config);
    ProcessIsPost(t', r, e, scan, config);
    PostAlike(prepared, a, k, scan, config);
  }

  lemma PreparedAlike(t: Tables, t': Tables, r: RawKey, e: Event)
    requires Alike(t, t') && r in t.attempts
    ensures Prepared(t', r, e) == Prepared(t, r, e).(attempts := t'.attempts[r := t'.attempts[r] + 1])
    ensures Alike(Prepared(t, r, e), Prepared(t', r, e))
  {
    PreparedIgnoresAttempts(t, t'.attempts, r, e);
    CountedAlike(t, t', r, Prepared(t, r, e));
  }

  lemma PreparedIgnoresAttempts(t: Tables, a: map<RawKey, nat>, r: RawKey, e: Event)
    requires r in t.attempts && r in a
    ensures Prepared(t.(attempts := a), r, e) == Prepared(t, r, e).(attempts := a[r := a[r] + 1])
    ensures Prepared(t, r, e).raws == t.raws && Prepared(t, r, e).attempts == t.attempts[r := t.attempts[r] + 1]
  {
    var k := NormKey(r, Connector);
    var counted := t.(attempts := t.attempts[r := t.attempts[r] + 1]);
    var counted' := t.(attempts := a[r := a[r] + 1]);
    assert Prepared(t, r, e) == SetState(StoreNormalized(counted, k, e), r, Normalized, "");
    assert Prepared(t.(attempts := a), r, e) == SetState(StoreNormalized(counted', k, e), r, Normalized, "");
    StatementsIgnoreAttempts(counted, a[r := a[r] + 1], k, e);
    StateIgnoresAttempts(StoreNormalized(counted, k, e), a[r := a[r] + 1], r);
  }

  lemma StatementsIgnoreAttempts(t: Tables, a: map<RawKey, nat>, k: NormKey, e: Event)
    ensures StoreNormalized(t.(attempts := a), k, e) == StoreNormalized(t, k, e).(attempts := a)
    ensures StoreNormalized(t, k, e).raws == t.raws && StoreNormalized(t, k, e).attempts == t.attempts
  {
    var t' := t.(attempts := a);
    assert t'.norms == t.norms;
    if k in t.norms {
      assert StoreNormalized(t', k, e) == t';
    } else {
      assert StoreNormalized(t', k, e) == t'.(norms := t.norms[k := e]);
      assert StoreNormalized(t, k, e) == t.(norms := t.norms[k := e]);
    }
  }

  lemma StateIgnoresAttempts(t: Tables, a: map<RawKey, nat>, r: RawKey)
    ensures SetState(t.(attempts := a), r, Normalized, "") == SetState(t, r, Normalized, "").(attempts := a)
  {
  }

  lemma CountedAlike(t: Tables, t': Tables, r: RawKey, p: Tables)
    requires Alike(t, t') && r in t.attempts && p.raws == t.raws && p.attempts == t.attempts[r := t.attempts[r] + 1]
    ensures Alike(p, p.(attempts := t'.attempts[r := t'.attempts[r] + 1]))
  {
    assert (t'.attempts[r := t'.attempts[r] + 1]).Keys == p.attempts.Keys;
  }

  lemma PostAlike(t: Tables, a: map<RawKey, nat>, k: NormKey, scan: Scan, config: Config)
    requires k in t.norms && k.raw in t.processing && config.policy.Valid() && Alike(t, t.(attempts := a))
    ensures AlikeResults(PostOrQueue(t, k, scan, config), PostOrQueue(t.(attempts := a), k, scan, config))
  {
    PostIgnoresAttempts(t, a, k, scan, config);
    var res := PostOrQueue(t, k, scan, config);
    if res.Success? {
      PostSettles(t, k, scan, config, res.value);
      assert Alike(res.value, res.value.(attempts := a));
    } else {
      assert AlikeResults(res, PostOrQueue(t.(attempts := a), k, scan, config));
    }
  }

  lemma IngestAlike(t: Tables, t': Tables, e: Envelope, feed: Feed)
    requires Alike(t, t') && feed.Valid()
    ensures AlikeProgress(Ingest(t, e, feed), Ingest(t', e, feed))
  {
    StoreAlike(t, t', e, feed);
    var res, res' := StoreRaw(t, feed.connection, e), StoreRaw(t', feed.connection, e);
    if res.Success? { FinishAlike(res.value, res'.value, e, feed); }
  }

  lemma StoreAlike(t: Tables, t': Tables, e: Envelope, feed: Feed)
    requires Alike(t, t')
    ensures AlikeResults(StoreRaw(t, feed.connection, e), StoreRaw(t', feed.connection, e))
  {
    var res, res' := StoreRaw(t, feed.connection, e), StoreRaw(t', feed.connection, e);
    if res.Success? && !Known(t, feed.Key(e)) {
      assert res' == Success(res.value.(attempts := t'.attempts[feed.Key(e) := 0]));
    }
  }

  lemma FinishAlike(t: Tables, t': Tables, e: Envelope, feed: Feed)
    requires Alike(t, t') && feed.Valid() && feed.Key(e) in t.processing
    ensures AlikeProgress(Finish(t, e, feed), Finish(t', e, feed))
  {
    assert t.(attempts := map[]) == t'.(attempts := map[]);
    if !Terminal(t.processing[feed.Key(e)].state) { ProcessAlike(t, t', feed.Key(e), feed.Scanned(t), feed.config); }
  }

  lemma {:induction false} IngestAllAlike(t: Tables, t': Tables, es: seq<Envelope>, feed: Feed)
    requires Alike(t, t') && feed.Valid()
    ensures AlikeProgress(IngestAll(t, es, feed), IngestAll(t', es, feed))
    decreases |es|
  {
    if es != [] {
      IngestAlike(t, t', es[0], feed);
      var p, p' := Ingest(t, es[0], feed), Ingest(t', es[0], feed);
      if p.error.None? { IngestAllAlike(p.tables, p'.tables, es[1..], feed); }
    }
  }

  // ---------------------------------------------------------------- a finished event stays finished

  /** The event is stored with this content and is terminal, or is one that can only fail again. */
  predicate Absorbed(t: Tables, e: Envelope, feed: Feed)
  {
    var r := feed.Key(e);
    && e.storable && Known(t, r) && t.raws[r] == e.content
    && (Terminal(t.processing[r].state)
        || (Normalize(e.content).None? && t.processing[r] == Processing(RawState.Failed, "INVALID_NORMALIZED_EVENT")))
  }

  /** Only the event's own processing row changes, and it becomes terminal. */
  predicate Settles(t: Tables, t': Tables, r: RawKey)
  {
    && t'.raws == t.raws && t'.attempts == t.attempts
    && r in t'.processing && Terminal(t'.processing[r].state)
    && t'.processing == t.processing[r := t'.processing[r]]
  }

  lemma QueueSettles(t: Tables, r: RawKey, code: string)
    requires r in t.processing
    ensures QueueForReview(t, r, code).Success? ==> Settles(t, QueueForReview(t, r, code).value, r)
  {
  }

  lemma ConcludeSettles(t: Tables, r: RawKey, handoff: Result<(Tables, Option<TxId>), Error>, t': Tables)
    requires r in t.processing && (handoff.Success? ==> SameSources(t, handoff.value.0))
    requires Conclude(r, handoff) == Success(t')
    ensures Settles(t, t', r)
  {
  }

  lemma PostSettles(t: Tables, k: NormKey, scan: Scan, config: Config, t': Tables)
    requires k in t.norms && k.raw in t.processing && config.policy.Valid()
    requires PostOrQueue(t, k, scan, config) == Success(t')
    ensures Settles(t, t', k.raw)
  {
    var command := ParseTransaction(k.Owner(), t.norms[k]);
    if command.None? {
      QueueSettles(t, k.raw, "REVIEW_REQUIRED");
      QueueSettles(t, k.raw, "LEDGER_VALIDATION_REVIEW");
      assert Settles(t, t', k.raw);
    } else {
      ConcludeSettles(t, k.raw, Reconcile(t, k, command.value, scan, config), t');
    }
  }

  lemma ProcessFrame(t: Tables, e: Envelope, feed: Feed)
    requires feed.Valid() && e.storable && Known(t, feed.Key(e)) && t.raws[feed.Key(e)] == e.content
    requires Finish(t, e, feed).error.None?
    ensures Finished(t, Finish(t, e, feed).tables, e, feed)
  {
    var r, t' := feed.Key(e), Finish(t, e, feed).tables;
    if Terminal(t.processing[r].state) || Normalize(e.content).None? {
      assert Finished(t, t', e, feed);
    } else {
      FirstProcessFinishes(t, e, Normalize(e.content).value, feed, t');
    }
  }

  ghost predicate Finished(t: Tables, t': Tables, e: Envelope, feed: Feed)
  {
    var r := feed.Key(e);
    && Absorbed(t', e, feed) && t'.raws == t.raws && t'.attempts.Keys == t.attempts.Keys
    && t'.processing == t.processing[r := t'.processing[r]]
    && (Absorbed(t, e, feed) ==> Alike(t, t'))
  }

  lemma FirstProcessFinishes(t: Tables, e: Envelope, event: Event, feed: Feed, t': Tables)
    requires feed.Valid() && e.storable && Known(t, feed.Key(e)) && t.raws[feed.Key(e)] == e.content
    requires Normalize(e.content) == Some(event) && !Terminal(t.processing[feed.Key(e)].state)
    requires Process(t, feed.Key(e), feed.Scanned(t), feed.config) == Success(t')
    ensures Finished(t, t', e, feed)
  {
    var r, k := feed.Key(e), NormKey(feed.Key(e), Connector);
    ProcessIsPost(t, r, event, feed.Scanned(t), feed.config);
    PostSettles(Prepared(t, r, event), k, feed.Scanned(t), feed.config, t');
    SettlesFinishes(t, e, event, feed, t');
  }

  lemma SettlesFinishes(t: Tables, e: Envelope, event: Event, feed: Feed, t': Tables)
    requires e.storable && Known(t, feed.Key(e)) && t.raws[feed.Key(e)] == e.content
    requires Normalize(e.content) == Some(event) && !Terminal(t.processing[feed.Key(e)].state)
    requires Settles(Prepared(t, feed.Key(e), event), t', feed.Key(e))
    ensures Finished(t, t', e, feed)
  {
  }

  lemma StoreFrame(t: Tables, e: Envelope, feed: Feed)
    requires feed.Valid() && StoreRaw(t, feed.connection, e).Success?
    ensures var r, t' := feed.Key(e), StoreRaw(t, feed.connection, e).value;
            && StoreRaw(t', feed.connection, e) == Success(t')
            && e.storable && Known(t', r) && t'.raws[r] == e.content
            && (Known(t, r) ==> t' == t)
            && (forall s :: s != r ==>
                (Known(t, s) ==> Known(t', s) && t'.raws[s] == t.raws[s] && t'.processing[s] == t.processing[s]))
  {
  }

  lemma StoreKeepsAbsorbed(t: Tables, e: Envelope, feed: Feed, d: Envelope)
    requires feed.Valid() && StoreRaw(t, feed.connection, e).Success? && Absorbed(t, d, feed)
    ensures Absorbed(StoreRaw(t, feed.connection, e).value, d, feed)
  {
    StoreFrame(t, e, feed);
  }

  lemma FinishKeepsAbsorbed(t: Tables, e: Envelope, feed: Feed, d: Envelope)
    requires feed.Valid() && e.storable && Known(t, feed.Key(e)) && t.raws[feed.Key(e)] == e.content
    requires Finish(t, e, feed).error.None? && Absorbed(t, d, feed)
    ensures Absorbed(Finish(t, e, feed).tables, d, feed)
  {
    ProcessFrame(t, e, feed);
  }

  lemma AbsorbedIngest(t: Tables, e: Envelope, feed: Feed)
    requires feed.Valid() && Absorbed(t, e, feed)
    ensures Ingest(t, e, feed).error.None? && Alike(t, Ingest(t, e, feed).tables)
  {
    StoreFrame(t, e, feed);
    ProcessFrame(t, e, feed);
  }

  predicate AllAbsorbed(t: Tables, done: seq<Envelope>, feed: Feed)
  {
    forall i :: 0 <= i < |done| ==> Absorbed(t, done[i], feed)
  }

  /** Redelivering what is finished only counts attempts of rejected content. */
  lemma {:induction false} SkipAbsorbed(t: Tables, done: seq<Envelope>, es: seq<Envelope>, feed: Feed)
    requires feed.Valid() && AllAbsorbed(t, done, feed)
    ensures AlikeProgress(IngestAll(t, es, feed), IngestAll(t, done + es, feed))
    decreases |done|
  {
    if done == [] {
      assert done + es == es;
    } else {
      var t1 := Ingest(t, done[0], feed).tables;
      AbsorbedIngest(t, done[0], feed);
      assert (done + es)[1..] == done[1..] + es;
      SkipAbsorbed(t, done[1..], es, feed);
      IngestAllAlike(t, t1, done[1..] + es, feed);
    }
  }

  // ---------------------------------------------------------------- crash equivalence

  /**
   * The page ran up to event `es[0]`; whatever else committed, a rerun of the page ends as the rest of the run
   * would.
   */
  lemma {:induction false} Resume(t: Tables, done: seq<Envelope>, es: seq<Envelope>, feed: Feed, n: nat)
    requires feed.Valid() && AllAbsorbed(t, done, feed)
    ensures AlikeProgress(IngestAll(t, es, feed), IngestAll(CrashAfter(t, es, feed, n).0, done + es, feed))
    ensures CrashAfter(t, es, feed, n).1 > 0 ==> IngestAll(t, es, feed) == Progress(CrashAfter(t, es, feed, n).0, None)
    decreases |es|, 2
  {
    if es == [] || n == 0 || StoreRaw(t, feed.connection, es[0]).Failure? {
      SkipAbsorbed(t, done, es, feed);
    } else {
      ResumeAfterStore(t, done, es, feed, n);
    }
  }

  lemma {:induction false} ResumeAfterStore(t: Tables, done: seq<Envelope>, es: seq<Envelope>, feed: Feed, n: nat)
    requires feed.Valid() && AllAbsorbed(t, done, feed)
    requires es != [] && n > 0 && StoreRaw(t, feed.connection, es[0]).Success?
    ensures AlikeProgress(IngestAll(t, es, feed), IngestAll(CrashAfter(t, es, feed, n).0, done + es, feed))
    ensures CrashAfter(t, es, feed, n).1 > 0 ==> IngestAll(t, es, feed) == Progress(CrashAfter(t, es, feed, n).0, None)
    decreases |es|, 1
  {
    var e, t1 := es[0], StoreRaw(t, feed.connection, es[0]).value;
    StoreFrame(t, e, feed);
    forall i | 0 <= i < |done| ensures Absorbed(t1, done[i], feed) { StoreKeepsAbsorbed(t, e, feed, done[i]); }
    assert Ingest(t1, e, feed) == Ingest(t, e, feed);
    assert IngestAll(t1, es, feed) == IngestAll(t, es, feed);
    SkipAbsorbed(t1, done, es, feed);
    if n > 1 && Finish(t1, e, feed).error.None? {
      ResumeAfterEvent(t1, done, es, feed, if Terminal(t1.processing[feed.Key(e)].state) then n - 1 else n - 2);
    } else {
      assert CrashAfter(t, es, feed, n) == (t1, 0);
    }
  }

  /** With `left` transactions to go once event `es[0]`, already stored in `t`, is done. */
  lemma {:induction false} ResumeAfterEvent(t: Tables, done: seq<Envelope>, es: seq<Envelope>, feed: Feed, left: nat)
    requires feed.Valid() && AllAbsorbed(t, done, feed) && es != []
    requires StoreRaw(t, feed.connection, es[0]) == Success(t) && Finish(t, es[0], feed).error.None?
    ensures var (t', remaining) := CrashAfter(Finish(t, es[0], feed).tables, es[1..], feed, left);
            && AlikeProgress(IngestAll(t, es, feed), IngestAll(t', done + es, feed))
            && (remaining > 0 ==> IngestAll(t, es, feed) == Progress(t', None))
    decreases |es|, 0
  {
    var e, t2 := es[0], Finish(t, es[0], feed).tables;
    StoreFrame(t, e, feed);
    ProcessFrame(t, e, feed);
    forall i | 0 <= i < |done + [e]| ensures Absorbed(t2, (done + [e])[i], feed) {
      if i < |done| { FinishKeepsAbsorbed(t, e, feed, done[i]); }
    }
    assert (done + [e]) + es[1..] == done + es;
    Resume(t2, done + [e], es[1..], feed, left);
    IngestAllGoesOn(t, es, feed);
  }

  lemma IngestAllGoesOn(t: Tables, es: seq<Envelope>, feed: Feed)
    requires feed.Valid() && es != []
    requires StoreRaw(t, feed.connection, es[0]) == Success(t) && feed.Key(es[0]) in t.processing
    requires Finish(t, es[0], feed).error.None?
    ensures IngestAll(t, es, feed) == IngestAll(Finish(t, es[0], feed).tables, es[1..], feed)
  {
  }

  /** A synchronisation that is stopped once and run again ends where it would have ended. */
  lemma OneCrash(s: Synced, feed: Feed, n: nat)
    requires feed.Valid()
    ensures SameEnd(Sync(s, feed), Sync(Crash(s, feed, n), feed))
  {
    var page := feed.Page(s.cursor);
    Resume(s.tables, [], page, feed, n);
    assert [] + page == page;
    if CrashAfter(s.tables, page, feed, n).1 > 0 {
      assert feed.Page(|feed.events|) == [];
      assert SameEnd(Sync(s, feed), Sync(Crash(s, feed, n), feed));
    } else {
      assert SameEnd(Sync(s, feed), Sync(Crash(s, feed, n), feed));
    }
  }

  predicate SameEnd(end: (Synced, Option<Error>), end': (Synced, Option<Error>))
  {
    Alike(end.0.tables, end'.0.tables) && end'.0.cursor == end.0.cursor && end'.1 == end.1
  }

  /**
   * Crash equivalence: however often a synchronisation is stopped, after whichever committed
   * transactions, the run from the persisted cursor reaches the same tables, cursor and error as the run
   * that was never stopped, and tried every event as often that its connector accepts.
   */
  lemma {:induction false} CrashEquivalence(s: Synced, feed: Feed, crashes: seq<nat>)
    requires feed.Valid()
    ensures SameEnd(Sync(s, feed), Sync(Crashes(s, feed, crashes), feed))
    decreases |crashes|
  {
    if crashes != [] {
      OneCrash(s, feed, crashes[0]);
      CrashEquivalence(Crash(s, feed, crashes[0]), feed, crashes[1..]);
    }
  }
}
