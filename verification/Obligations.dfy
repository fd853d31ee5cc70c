/** Receivables and payables: settlement, cancellation, and outstanding totals grouped by currency. */
module Obligations {
  import opened Wrappers
  import opened Domain
  import Sums

  datatype Kind = Receivable | Payable
  datatype Key = Key(kind: Kind, id: nat)

  datatype Status = Open | PartiallyPaid | Paid | Cancelled | Overdue

  datatype Obligation = Obligation(owner: nat, amount: Money, currency: string, due: Option<int>, status: Status)

  datatype Settlement = Settlement(key: Key, amount: Money, currency: string)

  /** The obligations, and the append-only settlements of them all. */
  datatype Book = Book(obligations: map<Key, Obligation>, settlements: seq<Settlement>)

  const EMPTY := Book(map[], [])

  datatype Error =
    | NotFound
    | ReferenceNotFound
    | InvalidAmount
    | ObligationCancelled
    | ObligationPaid
    | CurrencyMismatch
    | ExceedsOutstanding
    | ConstraintViolation

  // ---------------------------------------------------------------- the ledger of settlements

  function Settled(ss: seq<Settlement>, k: Key): Money
  {
    if ss == [] then 0
    else Settled(ss[..|ss| - 1], k) + if ss[|ss| - 1].key == k then ss[|ss| - 1].amount else 0
  }

  lemma SettledAppend(ss: seq<Settlement>, s: Settlement, k: Key)
    ensures Settled(ss + [s], k) == Settled(ss, k) + if s.key == k then s.amount else 0
  {
    assert (ss + [s])[..|ss|] == ss;
  }

  function Outstanding(o: Obligation, settled: Money): Money { if o.status == Cancelled then 0 else o.amount - settled }

  /** The status a reader sees on day `today`. */
  function Effective(o: Obligation, settled: Money, today: int): Status
  {
    if (o.status == Open || o.status == PartiallyPaid) && o.due.Some? && o.due.value < today
        && Outstanding(o, settled) > 0
    then Overdue else o.status
  }

  // ---------------------------------------------------------------- the operations

  predicate Visible(b: Book, owner: nat, k: Key) { k in b.obligations && b.obligations[k].owner == owner }

  predicate PositiveMoney(x: Money) { 0 < x < MONEY_LIMIT }

  function Create(b: Book, k: Key, owner: nat, amount: Money, currency: string, due: Option<int>): Result<Book, Error>
  {
    if !PositiveMoney(amount) then Failure(InvalidAmount)
    else if k in b.obligations then Failure(ConstraintViolation)
    else Success(b.(obligations := b.obligations[k := Obligation(owner, amount, currency, due, Open)]))
  }

  function Refusal(o: Obligation, settled: Money, amount: Money, currency: string): Option<Error>
  {
    if !PositiveMoney(amount) then Some(InvalidAmount)
    else if o.status == Cancelled then Some(ObligationCancelled)
    else if o.status == Paid then Some(ObligationPaid)
    else if currency != o.currency then Some(CurrencyMismatch)
    else if amount > o.amount - settled then Some(ExceedsOutstanding)
    else None
  }

  function NextStatus(principal: Money, settled: Money): Status { if settled == principal then Paid else PartiallyPaid }

  /** `referenced` says whether the linked ledger transaction, if any, is the owner's. */
  function Settle(b: Book, owner: nat, k: Key, amount: Money, currency: string, referenced: bool): Result<Book, Error>
  {
    if !Visible(b, owner, k) then Failure(NotFound)
    else if !referenced then Failure(ReferenceNotFound)
    else
      var o, settled := b.obligations[k], Settled(b.settlements, k);
      match Refusal(o, settled, amount, currency)
      case Some(e) => Failure(e)
      case None => Success(Book(
        b.obligations[k := o.(status := NextStatus(o.amount, settled + amount))],
        b.settlements + [Settlement(k, amount, currency)]))
  }

  function Cancel(b: Book, owner: nat, k: Key): Result<Book, Error>
  {
    if !Visible(b, owner, k) then Failure(NotFound)
    else if b.obligations[k].status == Paid then Failure(ObligationPaid)
    else Success(b.(obligations := b.obligations[k := b.obligations[k].(status := Cancelled)]))
  }

  datatype Step =
    | CreateStep(k: Key, owner: nat, amount: Money, currency: string, due: Option<int>)
    | SettleStep(owner: nat, k: Key, amount: Money, currency: string, referenced: bool)
    | CancelStep(owner: nat, k: Key)

  function Apply(b: Book, s: Step): Result<Book, Error>
  {
    match s
    case CreateStep(k, owner, amount, currency, due) => Create(b, k, owner, amount, currency, due)
    case SettleStep(owner, k, amount, currency, referenced) => Settle(b, owner, k, amount, currency, referenced)
    case CancelStep(owner, k) => Cancel(b, owner, k)
  }

  function Next(b: Book, s: Step): Book { match Apply(b, s) case Success(b') => b' case Failure(_) => b }

  function Run(b: Book, steps: seq<Step>): Book
    decreases |steps|
  {
    if steps == [] then b else Run(Next(b, steps[0]), steps[1..])
  }

  // ---------------------------------------------------------------- conservation of principal

  predicate RowOk(o: Obligation, settled: Money)
  {
    && PositiveMoney(o.amount) && 0 <= settled <= o.amount && o.status != Overdue
    && (o.status == Paid <==> settled == o.amount)
    && (o.status == Open ==> settled == 0)
    && (o.status == PartiallyPaid ==> 0 < settled)
  }

  ghost predicate Inv(b: Book)
  {
    && (forall k :: k in b.obligations ==> RowOk(b.obligations[k], Settled(b.settlements, k)))
    && (forall i :: 0 <= i < |b.settlements| ==> SettlementOk(b, b.settlements[i]))
  }

  predicate SettlementOk(b: Book, s: Settlement)
  {
    0 < s.amount && s.key in b.obligations && s.currency == b.obligations[s.key].currency
  }

  lemma {:induction false} NeverSettled(b: Book, ss: seq<Settlement>, k: Key)
    requires (forall i :: 0 <= i < |ss| ==> SettlementOk(b, ss[i])) && k !in b.obligations
    ensures Settled(ss, k) == 0
  {
    if ss != [] { NeverSettled(b, ss[..|ss| - 1], k); }
  }

  lemma SettledRow(o: Obligation, settled: Money, amount: Money, currency: string)
    requires RowOk(o, settled) && Refusal(o, settled, amount, currency).None?
    ensures RowOk(o.(status := NextStatus(o.amount, settled + amount)), settled + amount) && currency == o.currency
    ensures 0 < amount
  {
  }

  lemma SettlementKeepsInv(b: Book, b': Book, key: Key, amount: Money, currency: string)
    requires Inv(b) && key in b.obligations
    requires Refusal(b.obligations[key], Settled(b.settlements, key), amount, currency).None?
    requires var o := b.obligations[key];
             b' == Book(b.obligations[key := o.(status := NextStatus(o.amount, Settled(b.settlements, key) + amount))],
                        b.settlements + [Settlement(key, amount, currency)])
    ensures Inv(b')
  {
    SettledRow(b.obligations[key], Settled(b.settlements, key), amount, currency);
    forall k | k in b'.obligations ensures RowOk(b'.obligations[k], Settled(b'.settlements, k)) {
      SettledAppend(b.settlements, Settlement(key, amount, currency), k);
      assert k != key ==> Settled(b'.settlements, k) == Settled(b.settlements, k);
    }
    forall i | 0 <= i < |b'.settlements| ensures SettlementOk(b', b'.settlements[i]) {
      if i < |b.settlements| { assert SettlementOk(b, b.settlements[i]); }
    }
  }

  lemma NextKeepsInv(b: Book, s: Step)
    requires Inv(b)
    ensures Inv(Next(b, s))
  {
    match s {
      case CreateStep(k, owner, amount, currency, due) => CreateKeepsInv(b, k, owner, amount, currency, due);
      case SettleStep(_, key, amount, currency, _) => if Next(b, s) != b {
        SettlementKeepsInv(b, Next(b, s), key, amount, currency);
      }
      case CancelStep(owner, k) => CancelKeepsInv(b, owner, k);
    }
  }

  lemma CreateKeepsInv(b: Book, k: Key, owner: nat, amount: Money, currency: string, due: Option<int>)
    requires Inv(b)
    ensures Create(b, k, owner, amount, currency, due).Success? ==>
              Inv(Create(b, k, owner, amount, currency, due).value)
  {
    if Create(b, k, owner, amount, currency, due).Success? && k !in b.obligations { NeverSettled(b, b.settlements, k); }
  }

  lemma CancelKeepsInv(b: Book, owner: nat, k: Key)
    requires Inv(b)
    ensures Cancel(b, owner, k).Success? ==> Inv(Cancel(b, owner, k).value)
  {
  }

  /**
   * Over every run, what is settled never exceeds the principal, an obligation is paid exactly when the
   * two are equal, and nothing has been settled on an open one.
   */
  lemma {:induction false} PrincipalIsConserved(b: Book, steps: seq<Step>)
    requires Inv(b)
    ensures Inv(Run(b, steps))
    decreases |steps|
  {
    if steps != [] {
      NextKeepsInv(b, steps[0]);
      PrincipalIsConserved(Next(b, steps[0]), steps[1..]);
    }
  }

  /** A new obligation is open for its whole amount, and nothing else changes. */
  lemma CreateOpens(b: Book, k: Key, owner: nat, amount: Money, currency: string, due: Option<int>)
    requires Inv(b)
    ensures Create(b, k, owner, amount, currency, due).Success? <==> 0 < amount < MONEY_LIMIT && k !in b.obligations
    ensures Create(b, k, owner, amount, currency, due).Success? ==>
              var b' := Create(b, k, owner, amount, currency, due).value;
              && b' == b.(obligations := b.obligations[k := Obligation(owner, amount, currency, due, Open)])
              && Outstanding(b'.obligations[k], Settled(b'.settlements, k)) == amount
  {
    if k !in b.obligations { NeverSettled(b, b.settlements, k); }
  }

  /**
   * A settlement goes through exactly if it is the owner's, names the obligation's currency, and is a positive
   * amount within what is outstanding on an obligation that is not cancelled; it pays the obligation exactly if
   * nothing is left.
   */
  lemma SettleSucceedsIff(b: Book, owner: nat, k: Key, amount: Money, currency: string, referenced: bool)
    requires Inv(b)
    ensures Settle(b, owner, k, amount, currency, referenced).Success? <==>
              && k in b.obligations && b.obligations[k].owner == owner && referenced
              && b.obligations[k].status != Cancelled && currency == b.obligations[k].currency
              && 0 < amount <= b.obligations[k].amount - Settled(b.settlements, k)
    ensures Settle(b, owner, k, amount, currency, referenced).Success? ==>
              var b', o := Settle(b, owner, k, amount, currency, referenced).value, b.obligations[k];
              && b'.settlements == b.settlements + [Settlement(k, amount, currency)]
              && b'.obligations == b.obligations[k := o.(status :=
                   if amount == o.amount - Settled(b.settlements, k) then Paid else PartiallyPaid)]
  {
    if k in b.obligations { assert RowOk(b.obligations[k], Settled(b.settlements, k)); }
  }

  /** Settling the whole outstanding amount of what is not closed goes through, pays it and leaves nothing. */
  lemma WholeSettlementPays(b: Book, k: Key)
    requires Inv(b) && k in b.obligations
    requires b.obligations[k].status == Open || b.obligations[k].status == PartiallyPaid
    ensures var o, rest := b.obligations[k], b.obligations[k].amount - Settled(b.settlements, k);
            && Settle(b, o.owner, k, rest, o.currency, true).Success?
            && var b' := Settle(b, o.owner, k, rest, o.currency, true).value;
               && b'.obligations[k].status == Paid && Settled(b'.settlements, k) == o.amount
               && Outstanding(b'.obligations[k], Settled(b'.settlements, k)) == 0
  {
    var o, rest := b.obligations[k], b.obligations[k].amount - Settled(b.settlements, k);
    assert RowOk(o, Settled(b.settlements, k));
    SettleSucceedsIff(b, o.owner, k, rest, o.currency, true);
    SettledAppend(b.settlements, Settlement(k, rest, o.currency), k);
  }

  predicate Closed(o: Obligation) { o.status == Paid || o.status == Cancelled }

  /**
   * What is shown as overdue is exactly what is not closed and past its due day; every other status is shown
   * as stored.
   */
  lemma OverdueIff(b: Book, k: Key, today: int)
    requires Inv(b) && k in b.obligations
    ensures var o, shown := b.obligations[k], Effective(b.obligations[k], Settled(b.settlements, k), today);
            && (shown == Overdue <==> !Closed(o) && o.due.Some? && o.due.value < today)
            && (shown != Overdue ==> shown == o.status)
  {
    assert RowOk(b.obligations[k], Settled(b.settlements, k));
  }

  /** A paid or cancelled obligation keeps its status and its settled amount over every later run. */
  lemma {:induction false} ClosedForever(b: Book, steps: seq<Step>, k: Key)
    requires Inv(b) && k in b.obligations && Closed(b.obligations[k])
    ensures var b' := Run(b, steps);
            k in b'.obligations && b'.obligations[k] == b.obligations[k]
                && Settled(b'.settlements, k) == Settled(b.settlements, k)
    decreases |steps|
  {
    if steps != [] {
      NextKeepsInv(b, steps[0]);
      ClosedStays(b, steps[0], k);
      ClosedForever(Next(b, steps[0]), steps[1..], k);
    }
  }

  lemma ClosedStays(b: Book, s: Step, k: Key)
    requires k in b.obligations && Closed(b.obligations[k])
    ensures var b' := Next(b, s);
            k in b'.obligations && b'.obligations[k] == b.obligations[k]
                && Settled(b'.settlements, k) == Settled(b.settlements, k)
  {
    if s.SettleStep? && Apply(b, s).Success? { SettledAppend(b.settlements, Settlement(s.k, s.amount, s.currency), k); }
  }

  /** Cancelling is refused for paid obligations alone, and cancelling again changes nothing. */
  lemma CancelIsIdempotent(b: Book, owner: nat, k: Key)
    requires Inv(b) && Visible(b, owner, k)
    ensures Cancel(b, owner, k).Success? <==> Settled(b.settlements, k) != b.obligations[k].amount
    ensures Cancel(b, owner, k).Success? ==> Cancel(Cancel(b, owner, k).value, owner, k) == Cancel(b, owner, k)
  {
    assert RowOk(b.obligations[k], Settled(b.settlements, k));
    if Cancel(b, owner, k).Success? {
      var b' := Cancel(b, owner, k).value;
      assert b'.obligations[k := b'.obligations[k]] == b'.obligations;
    }
  }

  // ---------------------------------------------------------------- totals

  function OutstandingOf(b: Book, k: Key): Money
  {
    if k in b.obligations then Outstanding(b.obligations[k], Settled(b.settlements, k)) else 0
  }

  function KeysOf(b: Book, owner: nat, kind: Kind, currency: string): set<Key>
  {
    set k | k in b.obligations && k.kind == kind && b.obligations[k].owner == owner
        && b.obligations[k].currency == currency
  }

  /** The sum of the outstanding amounts that the owner's obligations show one by one. */
  ghost function Total(b: Book, owner: nat, kind: Kind, currency: string): Money
  {
    Sums.SetSum(KeysOf(b, owner, kind, currency), k => OutstandingOf(b, k))
  }

  /** One obligation's outstanding amount changed; its total moves by as much and every other total stays. */
  lemma TotalMoves(b: Book, b': Book, key: Key, owner: nat, kind: Kind, currency: string)
    requires key in b.obligations && b'.obligations.Keys == b.obligations.Keys
    requires forall k :: k in b.obligations ==>
               b'.obligations[k].owner == b.obligations[k].owner
                   && b'.obligations[k].currency == b.obligations[k].currency
    requires forall k :: k in b.obligations && k != key ==> OutstandingOf(b', k) == OutstandingOf(b, k)
    ensures Total(b', owner, kind, currency) == Total(b, owner, kind, currency)
              + if key in KeysOf(b, owner, kind, currency) then OutstandingOf(b', key) - OutstandingOf(b, key) else 0
  {
    var keys := KeysOf(b, owner, kind, currency);
    var f, g := k => OutstandingOf(b, k), k => OutstandingOf(b', k);
    assert KeysOf(b', owner, kind, currency) == keys;
    if key in keys {
      Sums.SetSumRemove(keys, f, key);
      Sums.SetSumRemove(keys, g, key);
      Sums.SetSumCongruence(keys - {key}, f, g);
    } else {
      Sums.SetSumCongruence(keys, f, g);
    }
  }

  /** A settlement lowers the owner's total of that kind and currency by exactly its amount, and no other total. */
  lemma SettlementLowersTotal(b: Book, owner: nat, key: Key, amount: Money, currency: string, other: nat, kind: Kind,
          c: string)
    requires Inv(b) && Settle(b, owner, key, amount, currency, true).Success?
    ensures var b' := Settle(b, owner, key, amount, currency, true).value;
            Total(b', other, kind, c) == Total(b, other, kind, c)
              - if other == owner && kind == key.kind && c == currency then amount else 0
  {
    var b' := Settle(b, owner, key, amount, currency, true).value;
    forall k | k in b.obligations
      ensures Settled(b'.settlements, k) == Settled(b.settlements, k) + if k == key then amount else 0
    {
      SettledAppend(b.settlements, Settlement(key, amount, currency), k);
    }
    TotalMoves(b, b', key, other, kind, c);
  }

  /** Cancelling writes off exactly what was still outstanding. */
  lemma CancellationWritesOff(b: Book, owner: nat, key: Key, other: nat, kind: Kind, c: string)
    requires Inv(b) && Cancel(b, owner, key).Success?
    ensures var b' := Cancel(b, owner, key).value;
            Total(b', other, kind, c)
              == Total(b, other, kind, c) - if key in KeysOf(b, other, kind, c) then OutstandingOf(b, key) else 0
  {
    TotalMoves(b, Cancel(b, owner, key).value, key, other, kind, c);
  }

  // ---------------------------------------------------------------- the service

  datatype Exposure = Exposure(receivable: Money, payable: Money, net: Money)

  class Service {
    var obligations: map<Key, Obligation>
    var settlements: seq<Settlement>

    function Snapshot(): Book
      reads this
    {
      Book(obligations, settlements)
    }

    ghost predicate Valid()
      reads this
    {
      Inv(Snapshot())
    }

    constructor ()
      ensures Valid() && Snapshot() == EMPTY
    {
      obligations, settlements := map[], [];
    }

    /** Adds up the obligation's settlements. */
    method SettledAmount(k: Key) returns (settled: Money)
      ensures settled == Settled(settlements, k)
    {
      settled := 0;
      for i := 0 to |settlements|
        invariant settled == Settled(settlements[..i], k)
      {
        assert settlements[..i + 1] == settlements[..i] + [settlements[i]];
        SettledAppend(settlements[..i], settlements[i], k);
        if settlements[i].key == k { settled := settled + settlements[i].amount; }
      }
      assert settlements[..|settlements|] == settlements;
    }

    method SettleObligation(owner: nat, k: Key, amount: Money, currency: string, referenced: bool)
            returns (error: Option<Error>)
      requires Valid()
      modifies this
      ensures Valid()
      ensures match Settle(old(Snapshot()), owner, k, amount, currency, referenced)
              case Success(b) => error == None && Snapshot() == b
              case Failure(e) => error == Some(e) && Snapshot() == old(Snapshot())
    {
      if !Visible(Snapshot(), owner, k) { return Some(NotFound); }
      if !referenced { return Some(ReferenceNotFound); }
      var settled := SettledAmount(k);
      error := Refusal(obligations[k], settled, amount, currency);
      if error.Some? { return; }
      NextKeepsInv(Snapshot(), SettleStep(owner, k, amount, currency, referenced));
      settlements := settlements + [Settlement(k, amount, currency)];
      obligations := obligations[k := obligations[k].(status := NextStatus(obligations[k].amount, settled + amount))];
    }

    method CancelObligation(owner: nat, k: Key) returns (error: Option<Error>)
      requires Valid()
      modifies this
      ensures Valid()
      ensures match Cancel(old(Snapshot()), owner, k)
              case Success(b) => error == None && Snapshot() == b
              case Failure(e) => error == Some(e) && Snapshot() == old(Snapshot())
    {
      if !Visible(Snapshot(), owner, k) { return Some(NotFound); }
      if obligations[k].status == Paid { return Some(ObligationPaid); }
      NextKeepsInv(Snapshot(), CancelStep(owner, k));
      obligations := obligations[k := obligations[k].(status := Cancelled)];
      return None;
    }

    /** The settled amounts of all obligations that have settlements, grouped in one pass. */
    method SettledByObligation() returns (totals: map<Key, Money>)
      ensures forall k :: (if k in totals then totals[k] else 0) == Settled(settlements, k)
    {
      totals := map[];
      for i := 0 to |settlements|
        invariant forall k :: (if k in totals then totals[k] else 0) == Settled(settlements[..i], k)
      {
        var s := settlements[i];
        assert settlements[..i + 1] == settlements[..i] + [s];
        forall k
          ensures Settled(settlements[..i + 1], k) == Settled(settlements[..i], k) + if s.key == k then s.amount else 0
        {
          SettledAppend(settlements[..i], s, k);
        }
        totals := totals[s.key := (if s.key in totals then totals[s.key] else 0) + s.amount];
      }
      assert settlements[..|settlements|] == settlements;
    }

    /** Outstanding amounts of one kind, grouped by currency over the rows joined with their settled amounts. */
    method KindTotals(owner: nat, kind: Kind) returns (totals: map<string, Money>)
      ensures forall c :: c in totals <==> KeysOf(Snapshot(), owner, kind, c) != {}
      ensures forall c :: c in totals ==> totals[c] == Total(Snapshot(), owner, kind, c)
    {
      var settled := SettledByObligation();
      ghost var b := Snapshot();
      totals := map[];
      var todo := obligations.Keys;
      ghost var done: set<Key> := {};
      assert Grouped(b, owner, kind, {}, totals);
      while todo != {}
        invariant done + todo == obligations.Keys && done !! todo
        invariant Grouped(b, owner, kind, done, totals)
        decreases |todo|
      {
        var k :| k in todo;
        var paid := if k in settled then settled[k] else 0;
        assert paid == Settled(b.settlements, k);
        var outstanding := Outstanding(obligations[k], paid);
        assert outstanding == OutstandingOf(b, k);
        GroupGrows(b, owner, kind, done, k, totals);
        totals := AddRow(totals, owner, kind, k, obligations[k], outstanding);
        todo, done := todo - {k}, done + {k};
      }
      assert done == b.obligations.Keys;
      AllGrouped(b, owner, kind, done, totals);
    }

    method OutstandingTotals(owner: nat) returns (totals: map<string, Exposure>)
      ensures var b := Snapshot();
              forall c :: (c in totals <==> KeysOf(b, owner, Receivable, c) != {} || KeysOf(b, owner, Payable, c) != {})
                && (c in totals ==> totals[c] == Exposure(Total(b, owner, Receivable, c), Total(b, owner, Payable, c),
                                                          Total(b, owner, Receivable, c) - Total(b, owner, Payable, c)))
    {
      var receivables := KindTotals(owner, Receivable);
      var payables := KindTotals(owner, Payable);
      totals := map c | c in receivables.Keys + payables.Keys ::
        var r, p := if c in receivables then receivables[c] else 0, if c in payables then payables[c] else 0;
        Exposure(r, p, r - p);
    }
  }

  /** The groups with one more row, if it is of this owner and kind. */
  function AddRow(totals: map<string, Money>, owner: nat, kind: Kind, k: Key, o: Obligation,
          outstanding: Money): map<string, Money>
  {
    if o.owner != owner || k.kind != kind then totals
    else totals[o.currency := (if o.currency in totals then totals[o.currency] else 0) + outstanding]
  }

  /** `totals` groups the outstanding amounts of the rows in `done`. */
  ghost predicate Grouped(b: Book, owner: nat, kind: Kind, done: set<Key>, totals: map<string, Money>)
  {
    forall c ::
      (c in totals <==> done * KeysOf(b, owner, kind, c) != {})
      && (c in totals ==> totals[c] == Sums.SetSum(done * KeysOf(b, owner, kind, c), k => OutstandingOf(b, k)))
  }

  /** One more row joins the group of its currency and no other. */
  lemma GroupGrows(b: Book, owner: nat, kind: Kind, done: set<Key>, k: Key, before: map<string, Money>)
    requires k in b.obligations && k !in done && Grouped(b, owner, kind, done, before)
    ensures Grouped(b, owner, kind, done + {k}, AddRow(before, owner, kind, k, b.obligations[k], OutstandingOf(b, k)))
  {
    var after := AddRow(before, owner, kind, k, b.obligations[k], OutstandingOf(b, k));
    var f := k => OutstandingOf(b, k);
    forall c
      ensures c in after <==> (done + {k}) * KeysOf(b, owner, kind, c) != {}
      ensures c in after ==> after[c] == Sums.SetSum((done + {k}) * KeysOf(b, owner, kind, c), f)
    {
      var keys := KeysOf(b, owner, kind, c);
      if k in keys {
        assert (done + {k}) * keys == done * keys + {k};
        Sums.SetSumAdd(done * keys, f, k);
        assert k in (done + {k}) * keys;
      } else {
        assert (done + {k}) * keys == done * keys;
      }
    }
  }

  lemma AllGrouped(b: Book, owner: nat, kind: Kind, done: set<Key>, totals: map<string, Money>)
    requires Grouped(b, owner, kind, done, totals) && done == b.obligations.Keys
    ensures forall c :: c in totals <==> KeysOf(b, owner, kind, c) != {}
    ensures forall c :: c in totals ==> totals[c] == Total(b, owner, kind, c)
  {
    forall c ensures done * KeysOf(b, owner, kind, c) == KeysOf(b, owner, kind, c) { }
  }
}
