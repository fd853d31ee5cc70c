/**
 * What a synchronisation delivers, said of the feed's events and the tables alone: every event from the cursor
 * on, none twice, and nothing else; and exactly when it gets through.
 */
module Delivery {
  import opened Wrappers
  import opened Domain
  import opened Rows
  import opened Candidates
  import opened Ledger
  import opened Lockstep
  import opened CrashRecovery
  import Effects
  import Progress
  import Provenance

  /** The event is stored with its content, and it is processed, in review, or rejected by its connector. */
  predicate Delivered(t: Tables, r: RawKey, content: Payload)
  {
    && r in t.raws && t.raws[r] == content && r in t.processing
    && (|| t.processing[r].state == Processed || t.processing[r].state == NeedsReview
        || (t.processing[r].state == RawState.Failed && Normalize(content).None?))
  }

  /** The rows of one raw event are as they were. */
  predicate SameRow(t: Tables, t': Tables, r: RawKey)
  {
    && Lookup(t'.raws, r) == Lookup(t.raws, r)
    && Lookup(t'.processing, r) == Lookup(t.processing, r)
    && Lookup(t'.attempts, r) == Lookup(t.attempts, r)
  }

  /** From `t` to `t'` nothing is lost, everything moves forward, and outside these keys nothing changes. */
  ghost predicate Delivers(t: Tables, t': Tables, keys: set<RawKey>)
  {
    && Inv(t') && Progress.Onward(t, t')
    && (forall r :: r in t.raws ==> r in t'.raws && t'.raws[r] == t.raws[r])
    && (forall r :: r !in keys ==> SameRow(t, t', r))
  }

  lemma DeliversTransitive(t: Tables, t1: Tables, t': Tables, keys: set<RawKey>, more: set<RawKey>)
    requires Delivers(t, t1, keys) && Delivers(t1, t', more)
    ensures Delivers(t, t', keys + more)
  {
    forall r | r !in keys + more ensures SameRow(t, t', r) { assert SameRow(t, t1, r) && SameRow(t1, t', r); }
  }

  lemma DeliveredStays(t: Tables, t': Tables, keys: set<RawKey>, r: RawKey, content: Payload)
    requires Delivers(t, t', keys) && Delivered(t, r, content)
    ensures Delivered(t', r, content)
  {
  }

  lemma StoreDelivers(t: Tables, e: Envelope, feed: Feed)
    requires Inv(t)
    ensures var r, res := RawKey(feed.connection, IdentityOf(e)), StoreRaw(t, feed.connection, e);
            && (res.Success? <==> e.storable && (r in t.raws ==> t.raws[r] == e.content))
            && (res.Success? ==> Delivers(t, res.value, {r}) && res.value.raws == t.raws[r := e.content])
  {
    var r, res := RawKey(feed.connection, IdentityOf(e)), StoreRaw(t, feed.connection, e);
    Effects.StoreCommits(t, feed.connection, e);
    if res.Success? {
      StoreKeepsInv(t, feed.connection, e);
      Progress.StoreOnward(t, feed.connection, e);
    }
  }

  lemma FinishDelivers(t: Tables, e: Envelope, feed: Feed)
    requires Inv(t) && feed.Valid()
    requires var r := RawKey(feed.connection, IdentityOf(e)); r in t.raws && t.raws[r] == e.content && Known(t, r)
    ensures var r, p := RawKey(feed.connection, IdentityOf(e)), Finish(t, e, feed);
            && p.error.None? && Delivers(t, p.tables, {r}) && p.tables.raws == t.raws
            && Delivered(p.tables, r, e.content)
  {
    var r := RawKey(feed.connection, IdentityOf(e));
    if !Terminal(t.processing[r].state) {
      ProcessDelivers(t, r, feed.Scanned(t), feed.config);
    } else {
      assert Normalize(t.raws[r]).Some? by { assert InStep(View(t, r)); }
    }
  }

  lemma ProcessDelivers(t: Tables, r: RawKey, scan: Scan, config: Config)
    requires Inv(t) && config.policy.Valid() && Known(t, r) && !Terminal(t.processing[r].state)
    ensures Process(t, r, scan, config).Success?
    ensures var t' := Process(t, r, scan, config).value;
            Delivers(t, t', {r}) && t'.raws == t.raws && Delivered(t', r, t.raws[r])
  {
    ProcessKeepsInv(t, r, scan, config);
    Progress.ProcessOnward(t, r, scan, config);
    if Normalize(t.raws[r]).None? { RejectedRow(t, r, scan, config); } else { ProcessedRow(t, r, scan, config); }
    RowDelivers(t, Process(t, r, scan, config).value, r);
  }

  /** Only the row of this raw event was written. */
  ghost predicate WritesRow(t: Tables, t': Tables, r: RawKey)
  {
    && t'.raws == t.raws
    && r in t'.processing && t'.processing == t.processing[r := t'.processing[r]]
    && r in t'.attempts && t'.attempts == t.attempts[r := t'.attempts[r]]
  }

  lemma RejectedRow(t: Tables, r: RawKey, scan: Scan, config: Config)
    requires Inv(t) && config.policy.Valid() && Known(t, r) && Normalize(t.raws[r]).None?
    ensures Process(t, r, scan, config).Success?
    ensures var t' := Process(t, r, scan, config).value;
            WritesRow(t, t', r) && t'.processing[r].state == RawState.Failed
  {
    Effects.RejectedCommits(t, r, scan, config);
  }

  lemma ProcessedRow(t: Tables, r: RawKey, scan: Scan, config: Config)
    requires Inv(t) && config.policy.Valid() && Known(t, r) && Normalize(t.raws[r]).Some?
    requires !Terminal(t.processing[r].state)
    ensures Process(t, r, scan, config).Success?
    ensures var t' := Process(t, r, scan, config).value;
            && WritesRow(t, t', r)
            && (t'.processing[r].state == Processed || t'.processing[r].state == NeedsReview)
  {
    Effects.ProcessCommits(t, r, Normalize(t.raws[r]).value, scan, config);
  }

  lemma RowDelivers(t: Tables, t': Tables, r: RawKey)
    requires WritesRow(t, t', r) && Inv(t') && Progress.Onward(t, t')
    ensures Delivers(t, t', {r})
  {
  }

  lemma IngestDelivers(t: Tables, e: Envelope, feed: Feed)
    requires Inv(t) && feed.Valid()
    ensures var r, p := RawKey(feed.connection, IdentityOf(e)), Ingest(t, e, feed);
            && (p.error.None? <==> e.storable && (r in t.raws ==> t.raws[r] == e.content))
            && (p.error.None? ==>
                  && Delivers(t, p.tables, {r}) && p.tables.raws == t.raws[r := e.content]
                  && Delivered(p.tables, r, e.content))
            && (p.error.Some? ==> p.tables == t)
  {
    var r, res := RawKey(feed.connection, IdentityOf(e)), StoreRaw(t, feed.connection, e);
    StoreDelivers(t, e, feed);
    if res.Success? {
      assert Known(res.value, r) by { assert InStep(View(res.value, r)); }
      FinishDelivers(res.value, e, feed);
      DeliversTransitive(t, res.value, Finish(res.value, e, feed).tables, {r}, {r});
      assert {r} + {r} == {r};
    }
  }

  ghost function Keys(connection: Connection, es: seq<Envelope>): set<RawKey>
  {
    set e | e in es :: RawKey(connection, IdentityOf(e))
  }

  /** A page that gets through is delivered event by event. */
  lemma {:induction false} PageDelivers(t: Tables, es: seq<Envelope>, feed: Feed)
    requires Inv(t) && feed.Valid() && IngestAll(t, es, feed).error.None?
    ensures var t' := IngestAll(t, es, feed).tables;
            && Delivers(t, t', Keys(feed.connection, es))
            && forall i :: 0 <= i < |es| ==> Delivered(t', RawKey(feed.connection, IdentityOf(es[i])), es[i].content)
    decreases |es|
  {
    if es == [] {
      assert Delivers(t, t, {});
    } else {
      var t1, t', r := Ingest(t, es[0], feed).tables, IngestAll(t, es, feed).tables, feed.Key(es[0]);
      IngestDelivers(t, es[0], feed);
      PageDelivers(t1, es[1..], feed);
      DeliversTransitive(t, t1, t', {r}, Keys(feed.connection, es[1..]));
      PageOf(t, t1, t', es, feed.connection);
    }
  }

  /** The first event of a page and then the others. */
  lemma PageOf(t: Tables, t1: Tables, t': Tables, es: seq<Envelope>, connection: Connection)
    requires es != [] && Delivers(t1, t', Keys(connection, es[1..]))
    requires Delivered(t1, RawKey(connection, IdentityOf(es[0])), es[0].content)
    requires forall i :: 0 <= i < |es| - 1 ==>
               Delivered(t', RawKey(connection, IdentityOf(es[1..][i])), es[1..][i].content)
    ensures {RawKey(connection, IdentityOf(es[0]))} + Keys(connection, es[1..]) == Keys(connection, es)
    ensures forall i :: 0 <= i < |es| ==> Delivered(t', RawKey(connection, IdentityOf(es[i])), es[i].content)
  {
    assert forall e :: e in es <==> e == es[0] || e in es[1..];
    forall i | 0 <= i < |es| ensures Delivered(t', RawKey(connection, IdentityOf(es[i])), es[i].content) {
      if i == 0 {
        DeliveredStays(t1, t', Keys(connection, es[1..]), RawKey(connection, IdentityOf(es[0])), es[0].content);
      } else {
        assert es[i] == es[1..][i - 1];
      }
    }
  }

  /**
   * The contents can be stored, and no identity among them stands for two contents, what is stored already
   * included.
   */
  ghost predicate Consistent(raws: map<RawKey, Payload>, connection: Connection, es: seq<Envelope>)
  {
    && (forall i :: 0 <= i < |es| ==>
          var r := RawKey(connection, IdentityOf(es[i]));
          es[i].storable && (r in raws ==> raws[r] == es[i].content))
    && (forall i, j :: 0 <= i < j < |es| && IdentityOf(es[i]) == IdentityOf(es[j]) ==> es[i].content == es[j].content)
  }

  lemma ConsistentStep(raws: map<RawKey, Payload>, connection: Connection, es: seq<Envelope>)
    requires es != []
    ensures var r := RawKey(connection, IdentityOf(es[0]));
            Consistent(raws, connection, es) <==>
              && es[0].storable && (r in raws ==> raws[r] == es[0].content)
              && Consistent(raws[r := es[0].content], connection, es[1..])
  {
    var r := RawKey(connection, IdentityOf(es[0]));
    assert forall i :: 0 <= i < |es[1..]| ==> es[1..][i] == es[i + 1];
    assert forall i :: 0 < i < |es| ==> es[i] == es[1..][i - 1];
  }

  /** A page gets through exactly if it is consistent. */
  lemma {:induction false} PageSucceedsIff(t: Tables, es: seq<Envelope>, feed: Feed)
    requires Inv(t) && feed.Valid()
    ensures IngestAll(t, es, feed).error.None? <==> Consistent(t.raws, feed.connection, es)
    decreases |es|
  {
    if es != [] {
      IngestDelivers(t, es[0], feed);
      ConsistentStep(t.raws, feed.connection, es);
      if Ingest(t, es[0], feed).error.None? { PageSucceedsIff(Ingest(t, es[0], feed).tables, es[1..], feed); }
    }
  }

  /** The events from the cursor on; a cursor past the end has none. */
  ghost function Due(s: Synced, feed: Feed): (es: seq<Envelope>)
    ensures |es| == if s.cursor <= |feed.events| then |feed.events| - s.cursor else 0
    ensures forall i :: s.cursor <= i < |feed.events| ==> es[i - s.cursor] == feed.events[i]
  {
    if s.cursor <= |feed.events| then feed.events[s.cursor..] else []
  }

  /**
   * A synchronisation that ends without error has delivered every event from the cursor on, with its content,
   * has left every other raw event as it was, and has moved the cursor to the end of the feed.
   */
  lemma SyncDelivers(s: Synced, feed: Feed)
    requires Inv(s.tables) && feed.Valid() && Sync(s, feed).1.None?
    ensures var s' := Sync(s, feed).0;
            && s'.cursor == |feed.events|
            && (forall i :: s.cursor <= i < |feed.events| ==>
                  var e := feed.events[i];
                  Delivered(s'.tables, RawKey(feed.connection, IdentityOf(e)), e.content))
            && (forall r :: r in s.tables.raws ==> r in s'.tables.raws && s'.tables.raws[r] == s.tables.raws[r])
            && (forall r :: (forall i :: s.cursor <= i < |feed.events| ==>
                               r != RawKey(feed.connection, IdentityOf(feed.events[i]))) ==>
                  SameRow(s.tables, s'.tables, r))
  {
    var es, t' := Due(s, feed), Sync(s, feed).0.tables;
    assert es == feed.Page(s.cursor);
    PageDelivers(s.tables, es, feed);
    forall r | forall i :: s.cursor <= i < |feed.events| ==> r != RawKey(feed.connection, IdentityOf(feed.events[i]))
      ensures SameRow(s.tables, t', r)
    {
      forall e | e in es ensures r != RawKey(feed.connection, IdentityOf(e)) {
        var i :| 0 <= i < |es| && es[i] == e;
        assert feed.events[i + s.cursor] == e;
      }
      assert r !in Keys(feed.connection, es);
    }
  }

  /** It ends without error exactly if those events are consistent, and otherwise the cursor stays. */
  lemma SyncSucceedsIff(s: Synced, feed: Feed)
    requires Inv(s.tables) && feed.Valid()
    ensures Sync(s, feed).1.None? <==> Consistent(s.tables.raws, feed.connection, Due(s, feed))
    ensures Sync(s, feed).1.Some? ==> Sync(s, feed).0.cursor == s.cursor
  {
    assert Due(s, feed) == feed.Page(s.cursor);
    PageSucceedsIff(s.tables, Due(s, feed), feed);
  }
}
