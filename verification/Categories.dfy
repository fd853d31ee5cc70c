/** The trigger that guards the category hierarchy: its ancestor closure, acyclicity and visibility. */
module Categories {
  import opened Wrappers

  type Id = nat

  /** A system category has no owner. */
  datatype Category = Category(owner: Option<nat>, parent: Option<Id>)

  type Table = map<Id, Category>

  datatype Error = ParentOwner | ParentCycle | ParentNotSelf | PrimaryKey | ForeignKey

  // ---------------------------------------------------------------- the parent relation

  function ParentIn(t: Table, x: Id): Option<Id>
  {
    if x in t && t[x].parent.Some? && t[x].parent.value in t then t[x].parent else None
  }

  /** The category `n` steps above `x`, as far as there are rows. */
  function Up(t: Table, x: Id, n: nat): Option<Id>
  {
    if n == 0 then (if x in t then Some(x) else None)
    else match Up(t, x, n - 1) case None => None case Some(y) => ParentIn(t, y)
  }

  /** `y` is `x` or one of its ancestors. */
  ghost predicate Above(t: Table, x: Id, y: Id) { exists n: nat :: Up(t, x, n) == Some(y) }

  ghost predicate Acyclic(t: Table) { forall x, n: nat :: 0 < n ==> NotOnCycle(t, x, n) }

  predicate NotOnCycle(t: Table, x: Id, n: nat) { Up(t, x, n) != Some(x) }

  lemma {:induction false} UpAdds(t: Table, x: Id, m: nat, n: nat)
    requires Up(t, x, m).Some?
    ensures Up(t, x, m + n) == Up(t, Up(t, x, m).value, n)
  {
    if n == 0 {
      UpStays(t, x, m);
    } else {
      UpAdds(t, x, m, n - 1);
    }
  }

  lemma UpStays(t: Table, x: Id, m: nat)
    requires Up(t, x, m).Some?
    ensures Up(t, x, m).value in t
  {
  }

  /** Every ancestor on the way is a row. */
  lemma {:induction false} UpIsDefined(t: Table, x: Id, m: nat, n: nat)
    requires m <= n && Up(t, x, n).Some?
    ensures Up(t, x, m).Some?
  {
    if m < n { UpIsDefined(t, x, m, n - 1); }
  }

  // ---------------------------------------------------------------- the recursive closure

  function ParentsIn(t: Table, xs: set<Id>): set<Id> { set x | x in xs && ParentIn(t, x).Some? :: ParentIn(t, x).value }

  lemma {:induction false} ClosedContainsAbove(t: Table, start: Id, s: set<Id>, n: nat)
    requires (start in t ==> start in s) && ParentsIn(t, s) <= s && Up(t, start, n).Some?
    ensures Up(t, start, n).value in s
  {
    if n > 0 {
      ClosedContainsAbove(t, start, s, n - 1);
      assert ParentIn(t, Up(t, start, n - 1).value).value in ParentsIn(t, s);
    }
  }

  ghost predicate AllAbove(t: Table, start: Id, s: set<Id>) { forall x :: x in s ==> x in t && Above(t, start, x) }

  lemma ParentsAreAbove(t: Table, start: Id, s: set<Id>)
    requires AllAbove(t, start, s)
    ensures AllAbove(t, start, ParentsIn(t, s))
  {
    forall y | y in ParentsIn(t, s) ensures y in t && Above(t, start, y) {
      var x :| x in s && ParentIn(t, x) == Some(y);
      var n: nat :| Up(t, start, n) == Some(x);
      assert Up(t, start, n + 1) == Some(y);
    }
  }

  /**
   * The recursive query: each round adds the parents of the rows found in the last one. It ends on every
   * table, cyclic ones included, and finds exactly the ancestors.
   */
  method Ancestors(t: Table, start: Id) returns (found: set<Id>)
    ensures forall x :: x in found <==> Above(t, start, x)
  {
    found := {};
    var work := if start in t then {start} else {};
    assert start in t ==> Up(t, start, 0) == Some(start);
    while work != {}
      invariant Closing(t, start, found, work)
      decreases |t.Keys - found|
    {
      ClosingStep(t, start, found, work);
      var next := ParentsIn(t, work) - (found + work);
      found := found + work;
      work := next;
    }
    ClosedIsExact(t, start, found);
  }

  /** The rows found so far, and the rows whose parents are still to be added. */
  ghost predicate Closing(t: Table, start: Id, found: set<Id>, work: set<Id>)
  {
    && AllAbove(t, start, found) && AllAbove(t, start, work) && found !! work
    && (start in t ==> start in found + work)
    && ParentsIn(t, found) <= found + work
  }

  lemma ClosingStep(t: Table, start: Id, found: set<Id>, work: set<Id>)
    requires Closing(t, start, found, work) && work != {}
    ensures Closing(t, start, found + work, ParentsIn(t, work) - (found + work))
    ensures |t.Keys - (found + work)| < |t.Keys - found|
  {
    ParentsAreAbove(t, start, work);
    var s := t.Keys - found;
    assert work <= s && t.Keys - (found + work) == s - work;
    Smaller(s, work);
  }

  lemma ClosedIsExact(t: Table, start: Id, found: set<Id>)
    requires Closing(t, start, found, {})
    ensures forall x :: x in found <==> Above(t, start, x)
  {
    forall x | Above(t, start, x) ensures x in found {
      var n: nat :| Up(t, start, n) == Some(x);
      UpIsDefined(t, start, 0, n);
      ClosedContainsAbove(t, start, found, n);
    }
  }

  lemma Smaller<T>(s: set<T>, work: set<T>)
    requires work != {} && work <= s
    ensures |s - work| < |s|
  {
    assert |s - work| + |work| == |s| by { assert s == (s - work) + work; }
  }

  // ---------------------------------------------------------------- the trigger

  predicate VisibleTo(parent: Category, owner: Option<nat>) { parent.owner.None? || parent.owner == owner }

  /** What the trigger raises for a row about to be written; a parent that is not there is left to the foreign key. */
  ghost function Refusal(t: Table, id: Id, row: Category): Option<Error>
  {
    if row.parent.None? || row.parent.value !in t then None
    else if !VisibleTo(t[row.parent.value], row.owner) then Some(ParentOwner)
    else if Above(t, row.parent.value, id) then Some(ParentCycle)
    else None
  }

  method Enforce(t: Table, id: Id, row: Category) returns (error: Option<Error>)
    ensures error == Refusal(t, id, row)
  {
    if row.parent.None? { return None; }
    var parent := row.parent.value;
    if parent !in t { return None; }
    var parentOwner := t[parent].owner;
    if parentOwner.Some? && parentOwner != row.owner { return Some(ParentOwner); }
    var ancestors := Ancestors(t, parent);
    if id in ancestors { return Some(ParentCycle); }
    return None;
  }

  // ---------------------------------------------------------------- statements

  datatype Change = Insert(id: Id, row: Category) | Update(id: Id, row: Category)

  /** One row of a statement: its key, its trigger and its check constraint. */
  ghost function Write(t: Table, c: Change): Result<Table, Error>
  {
    if c.Insert? && c.id in t then Failure(PrimaryKey)
    else if c.Update? && c.id !in t then Success(t)
    else if Refusal(t, c.id, c.row).Some? then Failure(Refusal(t, c.id, c.row).value)
    else if c.row.parent == Some(c.id) then Failure(ParentNotSelf)
    else Success(t[c.id := c.row])
  }

  ghost function WriteAll(t: Table, changes: seq<Change>): Result<Table, Error>
    decreases |changes|
  {
    if changes == [] then Success(t)
    else match Write(t, changes[0]) case Failure(e) => Failure(e) case Success(t') => WriteAll(t', changes[1..])
  }

  predicate Referenced(t: Table) { forall x :: x in t && t[x].parent.Some? ==> t[x].parent.value in t }

  /** A statement sees its own earlier rows; its foreign keys are checked at its end. */
  ghost function Execute(t: Table, changes: seq<Change>): Result<Table, Error>
  {
    match WriteAll(t, changes)
    case Failure(e) => Failure(e)
    case Success(t') => if Referenced(t') then Success(t') else Failure(ForeignKey)
  }

  /** The table that the trigger guards. */
  class Hierarchy {
    var rows: Table

    constructor ()
      ensures rows == map[] && Acyclic(rows) && Referenced(rows)
    {
      rows := map[];
    }

    /** One statement; a raised error leaves the table as it was. */
    method Run(changes: seq<Change>) returns (error: Option<Error>)
      modifies this
      ensures match Execute(old(rows), changes)
              case Success(t) => error == None && rows == t
              case Failure(e) => error == Some(e) && rows == old(rows)
    {
      var before := rows;
      var i := 0;
      while i < |changes|
        invariant 0 <= i <= |changes|
        invariant WriteAll(rows, changes[i..]) == WriteAll(old(rows), changes)
      {
        assert changes[i..][1..] == changes[i + 1..];
        error := WriteRow(changes[i]);
        if error.Some? {
          rows := before;
          return;
        }
        i := i + 1;
      }
      if !Referenced(rows) {
        rows := before;
        return Some(ForeignKey);
      }
      return None;
    }

    method WriteRow(c: Change) returns (error: Option<Error>)
      modifies this
      ensures match Write(old(rows), c)
              case Success(t) => error == None && rows == t
              case Failure(e) => error == Some(e) && rows == old(rows)
    {
      if c.Insert? && c.id in rows { return Some(PrimaryKey); }
      if c.Update? && c.id !in rows { return None; }
      error := Enforce(rows, c.id, c.row);
      if error.Some? { return; }
      if c.row.parent == Some(c.id) { return Some(ParentNotSelf); }
      rows := rows[c.id := c.row];
    }
  }

  // ---------------------------------------------------------------- acyclicity

  /** A row is written at all. */
  predicate Lands(t: Table, c: Change) { c.Insert? || c.id in t }

  predicate Meets(t: Table, x: Id, m: nat, ids: set<Id>) { Up(t, x, m).Some? && Up(t, x, m).value in ids }

  /** Going `n` steps up from `x` meets none of the ids. */
  ghost predicate Avoids(t: Table, x: Id, n: nat, ids: set<Id>) { forall m: nat :: m <= n ==> !Meets(t, x, m, ids) }

  predicate IsCycle(t: Table, x: Id, n: nat) { 0 < n && Up(t, x, n) == Some(x) }

  /** There is a cycle of rows other than these. */
  ghost predicate CycleAvoiding(t: Table, ids: set<Id>) { exists x, n: nat :: IsCycle(t, x, n) && Avoids(t, x, n, ids) }

  /** The row `n` steps up from `x` names `id` as its parent. */
  predicate NamesAt(t: Table, x: Id, n: nat, id: Id)
  {
    Up(t, x, n).Some? && Up(t, x, n).value in t && t[Up(t, x, n).value].parent == Some(id)
  }

  /**
   * The row's parent or an ancestor of it already names the row, and no row up to there, nor the row, is
   * written later.
   */
  ghost predicate LeadsBack(t: Table, id: Id, row: Category, later: set<Id>)
  {
    id !in later && row.parent.Some? &&
    exists n: nat :: NamesAt(t, row.parent.value, n, id) && Avoids(t, row.parent.value, n, later)
  }

  lemma AcyclicIff(t: Table)
    ensures Acyclic(t) <==> !CycleAvoiding(t, {})
  {
    if x, n: nat :| 0 < n && !NotOnCycle(t, x, n) { assert IsCycle(t, x, n) && Avoids(t, x, n, {}); }
    if x, n: nat :| IsCycle(t, x, n) && Avoids(t, x, n, {}) { assert !NotOnCycle(t, x, n); }
  }

  lemma AcyclicAvoids(t: Table, ids: set<Id>)
    requires Acyclic(t)
    ensures !CycleAvoiding(t, ids)
  {
    forall x, n: nat ensures !IsCycle(t, x, n) { assert 0 < n ==> NotOnCycle(t, x, n); }
  }

  /** What a row has above it without passing the written row, it keeps. */
  lemma {:induction false} UpIsKept(t: Table, id: Id, row: Category, x: Id, n: nat)
    requires Up(t, x, n).Some? && Avoids(t, x, n, {id})
    ensures Up(t[id := row], x, n) == Up(t, x, n)
  {
    if n > 0 {
      assert !Meets(t, x, n - 1, {id}) && !Meets(t, x, n, {id});
      forall m: nat | m <= n - 1 ensures !Meets(t, x, m, {id}) {}
      UpIsKept(t, id, row, x, n - 1);
    }
  }

  /** And what it has above it afterwards without passing the written row, it had before. */
  lemma {:induction false} UpWasThere(t: Table, id: Id, row: Category, x: Id, n: nat)
    requires x != id && Avoids(t[id := row], x, n, {id})
    ensures Up(t, x, n) == Up(t[id := row], x, n)
  {
    if n > 0 {
      assert !Meets(t[id := row], x, n - 1, {id}) && !Meets(t[id := row], x, n, {id});
      UpWasThere(t, id, row, x, n - 1);
    }
  }

  /** A cycle meets only the rows that one round of it meets. */
  lemma {:induction false} RoundAndRound(t: Table, x: Id, n: nat, ids: set<Id>, k: nat)
    requires IsCycle(t, x, n) && Avoids(t, x, n, ids)
    ensures !Meets(t, x, k, ids)
  {
    if k > n {
      UpAdds(t, x, n, k - n);
      RoundAndRound(t, x, n, ids, k - n);
      assert Up(t, x, k) == Up(t, x, k - n);
    }
  }

  /** The first time that the way up from `x` meets `id`. */
  lemma {:induction false} FirstMeeting(t: Table, x: Id, n: nat, id: Id) returns (j: nat)
    requires Up(t, x, n) == Some(id)
    ensures j <= n && Up(t, x, j) == Some(id) && forall m: nat :: m < j ==> !Meets(t, x, m, {id})
  {
    if m: nat :| m < n && Meets(t, x, m, {id}) { j := FirstMeeting(t, x, m, id); } else { j := n; }
  }

  lemma CycleIsKept(t: Table, c: Change, later: set<Id>)
    requires CycleAvoiding(t, later + {c.id})
    ensures CycleAvoiding(t[c.id := c.row], later)
  {
    var t' := t[c.id := c.row];
    var x, n: nat :| IsCycle(t, x, n) && Avoids(t, x, n, later + {c.id});
    forall m: nat | m <= n ensures Up(t', x, m) == Up(t, x, m) && !Meets(t, x, m, later) {
      UpIsDefined(t, x, m, n);
      assert !Meets(t, x, m, later + {c.id});
      forall l: nat | l <= m ensures !Meets(t, x, l, {c.id}) { assert !Meets(t, x, l, later + {c.id}); }
      UpIsKept(t, c.id, c.row, x, m);
    }
    assert IsCycle(t', x, n) && Avoids(t', x, n, later);
  }

  /** The trigger would find the row if it were there. */
  lemma LeadsBackIsNew(t: Table, c: Change, later: set<Id>)
    requires LeadsBack(t, c.id, c.row, later) && Lands(t, c) && Write(t, c).Success?
    ensures c.id !in t && c.row.parent.value in t
  {
    var p := c.row.parent.value;
    var n: nat :| NamesAt(t, p, n, c.id) && Avoids(t, p, n, later);
    UpIsDefined(t, p, 0, n);
    assert c.id in t ==> Up(t, p, n + 1) == Some(c.id);
  }

  /** An accepted row that leads back closes a cycle. */
  lemma LeadingBackCloses(t: Table, c: Change, later: set<Id>)
    requires LeadsBack(t, c.id, c.row, later) && Lands(t, c) && Write(t, c).Success?
    ensures CycleAvoiding(Write(t, c).value, later)
  {
    var t', p := Write(t, c).value, c.row.parent.value;
    LeadsBackIsNew(t, c, later);
    var n: nat :| NamesAt(t, p, n, c.id) && Avoids(t, p, n, later);
    forall m: nat | m <= n ensures Up(t', p, m) == Up(t, p, m) && !Meets(t', p, m, later) {
      UpIsDefined(t, p, m, n);
      forall l: nat | l <= m ensures !Meets(t, p, l, {c.id}) { UpIsDefined(t, p, l, n); UpStays(t, p, l); }
      UpIsKept(t, c.id, c.row, p, m);
      assert !Meets(t, p, m, later);
    }
    assert Up(t', p, n + 1) == Some(c.id);
    assert Up(t', c.id, 0) == Some(c.id) && Up(t', c.id, 1) == Some(p);
    forall m: nat | m <= n + 2 ensures !Meets(t', c.id, m, later) && (m == n + 2 ==> Up(t', c.id, m) == Some(c.id)) {
      if m > 0 { UpAdds(t', c.id, 1, m - 1); }
    }
    assert IsCycle(t', c.id, n + 2) && Avoids(t', c.id, n + 2, later);
  }

  /** A cycle through the written row was closed by it. */
  lemma ClosedByRow(t: Table, c: Change, later: set<Id>, n: nat)
    requires Lands(t, c) && Write(t, c).Success? && IsCycle(Write(t, c).value, c.id, n)
    requires forall m: nat :: !Meets(Write(t, c).value, c.id, m, later)
    ensures LeadsBack(t, c.id, c.row, later)
  {
    var t' := Write(t, c).value;
    UpIsDefined(t', c.id, 1, n);
    assert !Meets(t', c.id, 0, later) && Up(t', c.id, 0) == Some(c.id);
    assert Up(t', c.id, 1) == ParentIn(t', c.id);
    var p := c.row.parent.value;
    UpAdds(t', c.id, 1, n - 1);
    var j := FirstMeeting(t', p, n - 1, c.id);
    assert j > 0;
    forall m: nat | m < j ensures Up(t, p, m) == Up(t', p, m) && !Meets(t, p, m, later) {
      assert Avoids(t', p, m, {c.id});
      UpWasThere(t, c.id, c.row, p, m);
      UpAdds(t', c.id, 1, m);
      assert !Meets(t', c.id, 1 + m, later);
    }
    UpIsDefined(t', p, j - 1, j);
    assert !Meets(t', p, j - 1, {c.id});
    assert NamesAt(t, p, j - 1, c.id) && Avoids(t, p, j - 1, later);
  }

  lemma CycleWasThere(t: Table, c: Change, later: set<Id>)
    requires Lands(t, c) && Write(t, c).Success? && CycleAvoiding(Write(t, c).value, later)
    ensures CycleAvoiding(t, later + {c.id}) || LeadsBack(t, c.id, c.row, later)
  {
    var t' := Write(t, c).value;
    var x, n: nat :| IsCycle(t', x, n) && Avoids(t', x, n, later);
    if m: nat :| m <= n && Meets(t', x, m, {c.id}) {
      UpAdds(t', x, m, n);
      UpAdds(t', x, n, m);
      forall k: nat ensures !Meets(t', c.id, k, later) {
        UpAdds(t', x, m, k);
        RoundAndRound(t', x, n, later, m + k);
      }
      ClosedByRow(t, c, later, n);
    } else {
      UpIsDefined(t', x, 0, n);
      assert !Meets(t', x, 0, {c.id});
      forall m: nat | m <= n ensures Up(t, x, m) == Up(t', x, m) && !Meets(t, x, m, later + {c.id}) {
        assert Avoids(t', x, m, {c.id}) && !Meets(t', x, m, later) && !Meets(t', x, m, {c.id});
        UpWasThere(t, c.id, c.row, x, m);
      }
      assert IsCycle(t, x, n) && Avoids(t, x, n, later + {c.id});
    }
  }

  /**
   * A cycle of rows that are not written later is there after a row exactly if it was there before or the row
   * closes it.
   */
  lemma RowClosesCycleIff(t: Table, c: Change, later: set<Id>)
    requires Write(t, c).Success?
    ensures CycleAvoiding(Write(t, c).value, later)
       <==> CycleAvoiding(t, later + {c.id}) || (Lands(t, c) && LeadsBack(t, c.id, c.row, later))
  {
    if !Lands(t, c) {
      MissingIsAvoided(t, c.id, later);
    } else {
      if CycleAvoiding(t, later + {c.id}) { CycleIsKept(t, c, later); }
      if LeadsBack(t, c.id, c.row, later) { LeadingBackCloses(t, c, later); }
      if CycleAvoiding(Write(t, c).value, later) { CycleWasThere(t, c, later); }
    }
  }

  lemma MissingIsAvoided(t: Table, id: Id, later: set<Id>)
    requires id !in t
    ensures CycleAvoiding(t, later) <==> CycleAvoiding(t, later + {id})
  {
    if x, n: nat :| IsCycle(t, x, n) && Avoids(t, x, n, later) {
      forall m: nat | m <= n ensures !Meets(t, x, m, later + {id}) {
        assert !Meets(t, x, m, later);
        UpIsDefined(t, x, m, n);
        UpStays(t, x, m);
      }
      assert Avoids(t, x, n, later + {id});
    }
    if x, n: nat :| IsCycle(t, x, n) && Avoids(t, x, n, later + {id}) {
      forall m: nat | m <= n ensures !Meets(t, x, m, later) { assert !Meets(t, x, m, later + {id}); }
      assert Avoids(t, x, n, later);
    }
  }

  function Ids(changes: seq<Change>): set<Id>
  {
    if changes == [] then {} else {changes[0].id} + Ids(changes[1..])
  }

  /** Some row, at its turn, leads back to itself over rows that the statement does not write again. */
  ghost predicate ClosesCycle(t: Table, changes: seq<Change>)
    decreases |changes|
  {
    changes != [] && (
      || (Lands(t, changes[0]) && LeadsBack(t, changes[0].id, changes[0].row, Ids(changes[1..])))
      || (Write(t, changes[0]).Success? && ClosesCycle(Write(t, changes[0]).value, changes[1..])))
  }

  lemma {:induction false} WritesCloseCycleIff(t: Table, changes: seq<Change>)
    requires WriteAll(t, changes).Success?
    ensures CycleAvoiding(WriteAll(t, changes).value, {}) <==> CycleAvoiding(t, Ids(changes)) || ClosesCycle(t, changes)
    decreases |changes|
  {
    if changes != [] {
      var rest := Ids(changes[1..]);
      RowClosesCycleIff(t, changes[0], rest);
      assert rest + {changes[0].id} == Ids(changes);
      WritesCloseCycleIff(Write(t, changes[0]).value, changes[1..]);
    }
  }

  /**
   * Whatever rows one accepted statement inserts and updates, the hierarchy stays acyclic exactly if none of
   * them closes a cycle: none is already named by its parent or an ancestor of it at its turn, which the
   * trigger lets pass while the row is missing, unless a row in between is written again.
   */
  lemma StatementKeepsForestIff(t: Table, changes: seq<Change>)
    requires Acyclic(t) && Execute(t, changes).Success?
    ensures Acyclic(Execute(t, changes).value) <==> !ClosesCycle(t, changes)
  {
    AcyclicAvoids(t, Ids(changes));
    WritesCloseCycleIff(t, changes);
    AcyclicIff(Execute(t, changes).value);
  }

  /** Updating any number of rows in one statement never makes a cycle. */
  lemma UpdatesKeepForest(t: Table, changes: seq<Change>)
    requires Acyclic(t) && Execute(t, changes).Success? && forall c :: c in changes ==> c.Update?
    ensures Acyclic(Execute(t, changes).value)
  {
    UpdatesCloseNothing(t, changes);
    StatementKeepsForestIff(t, changes);
  }

  lemma {:induction false} UpdatesCloseNothing(t: Table, changes: seq<Change>)
    requires WriteAll(t, changes).Success? && forall c :: c in changes ==> c.Update?
    ensures !ClosesCycle(t, changes)
    decreases |changes|
  {
    if changes != [] {
      var c, later := changes[0], Ids(changes[1..]);
      assert c in changes && forall c' :: c' in changes[1..] ==> c' in changes;
      if Lands(t, c) && LeadsBack(t, c.id, c.row, later) { LeadsBackIsNew(t, c, later); }
      UpdatesCloseNothing(Write(t, c).value, changes[1..]);
    }
  }

  /** Nor does inserting or updating one row, since the rows that are there name only rows that are there. */
  lemma OneRowKeepsForest(t: Table, c: Change)
    requires Acyclic(t) && Referenced(t) && Execute(t, [c]).Success?
    ensures Acyclic(Execute(t, [c]).value) && Referenced(Execute(t, [c]).value)
  {
    assert [c][1..] == [];
    assert WriteAll(t, [c]) == Write(t, c);
    if Lands(t, c) && LeadsBack(t, c.id, c.row, {}) { LeadsBackIsNew(t, c, {}); }
    assert !ClosesCycle(t, [c]);
    StatementKeepsForestIff(t, [c]);
  }

  const TWO_ROWS := [Insert(1, Category(None, Some(2))), Insert(2, Category(None, Some(1)))]

  /**
   * One statement that inserts two rows, each the other's parent, is accepted: the first row's parent is
   * not there yet, and the second row is not above the first one. The result is a cycle.
   */
  lemma TwoRowsCanMakeACycle()
    ensures Execute(map[], TWO_ROWS).Success? && !Acyclic(Execute(map[], TWO_ROWS).value)
    ensures ClosesCycle(map[], TWO_ROWS)
  {
    var first: Table := map[1 := TWO_ROWS[0].row];
    var both := first[2 := TWO_ROWS[1].row];
    assert Write(map[], TWO_ROWS[0]) == Success(first);
    forall n: nat ensures Up(first, 1, n) != Some(2) { OnlyRow(first, n); }
    assert Write(first, TWO_ROWS[1]) == Success(both);
    assert TWO_ROWS[1..] == [TWO_ROWS[1]] && TWO_ROWS[1..][1..] == [];
    assert WriteAll(both, []) == Success(both);
    assert WriteAll(first, TWO_ROWS[1..]) == Success(both);
    assert Up(both, 1, 0) == Some(1) && Up(both, 1, 1) == Some(2) && Up(both, 1, 2) == Some(1);
    assert !NotOnCycle(both, 1, 2);
    StatementKeepsForestIff(map[], TWO_ROWS);
  }

  lemma {:induction false} OnlyRow(t: Table, n: nat)
    requires t.Keys == {1} && t[1].parent == Some(2)
    ensures Up(t, 1, n) == if n == 0 then Some(1) else None
  {
    if n > 0 { OnlyRow(t, n - 1); }
  }

  // ---------------------------------------------------------------- visibility

  predicate ParentVisible(t: Table, x: Id)
  {
    x in t && t[x].parent.Some? && t[x].parent.value in t ==> VisibleTo(t[t[x].parent.value], t[x].owner)
  }

  /** An accepted row sees its parent. */
  lemma WrittenRowSeesParent(t: Table, c: Change)
    requires Lands(t, c) && Execute(t, [c]).Success?
    ensures ParentVisible(Execute(t, [c]).value, c.id)
  {
    assert [c][1..] == [];
    assert WriteAll(t, [c]) == Success(t[c.id := c.row]);
  }

  ghost predicate AllVisible(t: Table) { forall x :: ParentVisible(t, x) }

  /** Every row that already names the written one as its parent still sees it. */
  predicate SeenByChildren(t: Table, c: Change)
  {
    forall x :: x in t && x != c.id && t[x].parent == Some(c.id) ==> VisibleTo(c.row, t[x].owner)
  }

  /** An accepted row keeps every parent visible exactly if the rows below it see it: the trigger looks only above. */
  lemma RowKeepsVisibilityIff(t: Table, c: Change)
    requires AllVisible(t) && Lands(t, c) && Write(t, c).Success?
    ensures AllVisible(Write(t, c).value) <==> SeenByChildren(t, c)
  {
    var t' := Write(t, c).value;
    if SeenByChildren(t, c) {
      forall x ensures ParentVisible(t', x) { assert ParentVisible(t, x); }
    } else {
      var x :| x in t && x != c.id && t[x].parent == Some(c.id) && !VisibleTo(c.row, t[x].owner);
      assert !ParentVisible(t', x);
    }
  }

  /** So one insert never hides a parent, and one update does exactly if a child's owner can no longer see the row. */
  lemma OneRowKeepsVisibilityIff(t: Table, c: Change)
    requires AllVisible(t) && Referenced(t) && Lands(t, c) && Execute(t, [c]).Success?
    ensures AllVisible(Execute(t, [c]).value) <==> SeenByChildren(t, c)
    ensures c.Insert? ==> SeenByChildren(t, c)
  {
    assert [c][1..] == [];
    assert WriteAll(t, [c]) == Write(t, c);
    RowKeepsVisibilityIff(t, c);
  }

  predicate HidesFrom(t: Table, x: Id, row: Category) { x in t && !VisibleTo(row, t[x].owner) }

  /** A row that is not written later names the written one as its parent and does not see it, and it stays as it is. */
  ghost predicate HidesChild(t: Table, c: Change, later: set<Id>)
  {
    c.id !in later && exists x: Id :: HidesFrom(t, x, c.row) && x != c.id && x !in later && t[x].parent == Some(c.id)
  }

  /** A row and its parent, neither of them among the ids, where the row does not see the parent. */
  predicate HiddenPair(t: Table, x: Id, ids: set<Id>)
  {
    !ParentVisible(t, x) && x !in ids && t[x].parent.value !in ids
  }

  ghost predicate HiddenAvoiding(t: Table, ids: set<Id>) { exists x: Id :: HiddenPair(t, x, ids) }

  lemma AllVisibleIff(t: Table, ids: set<Id>)
    ensures AllVisible(t) ==> !HiddenAvoiding(t, ids)
    ensures !HiddenAvoiding(t, {}) ==> AllVisible(t)
  {
    if x: Id :| HiddenPair(t, x, ids) { assert !ParentVisible(t, x); }
    if x: Id :| !ParentVisible(t, x) { assert HiddenPair(t, x, {}); }
  }

  /**
   * A hidden parent that is not written later is there after a row exactly if it was there before, with
   * neither of the two written now, or the row hides itself from a child.
   */
  lemma RowHidesIff(t: Table, c: Change, later: set<Id>)
    requires Write(t, c).Success?
    ensures HiddenAvoiding(Write(t, c).value, later)
       <==> HiddenAvoiding(t, later + {c.id}) || (Lands(t, c) && HidesChild(t, c, later))
  {
    var t' := Write(t, c).value;
    if x: Id :| HiddenPair(t, x, later + {c.id}) { assert HiddenPair(t', x, later); }
    if Lands(t, c) && HidesChild(t, c, later) {
      var x: Id :| HidesFrom(t, x, c.row) && x != c.id && x !in later && t[x].parent == Some(c.id);
      assert HiddenPair(t', x, later);
    }
    if x: Id :| HiddenPair(t', x, later) { HiddenBefore(t, c, later, x); }
  }

  lemma HiddenBefore(t: Table, c: Change, later: set<Id>, x: Id)
    requires Write(t, c).Success? && HiddenPair(Write(t, c).value, x, later)
    ensures HiddenAvoiding(t, later + {c.id}) || (Lands(t, c) && HidesChild(t, c, later))
  {
    if Lands(t, c) && t[c.id := c.row][x].parent == Some(c.id) {
      assert HidesFrom(t, x, c.row);
    } else {
      assert HiddenPair(t, x, later + {c.id});
    }
  }

  /** Some row, at its turn, hides itself from a child, and the statement writes neither of them again. */
  ghost predicate HidesParent(t: Table, changes: seq<Change>)
    decreases |changes|
  {
    changes != [] && (
      || (Lands(t, changes[0]) && HidesChild(t, changes[0], Ids(changes[1..])))
      || (Write(t, changes[0]).Success? && HidesParent(Write(t, changes[0]).value, changes[1..])))
  }

  lemma {:induction false} WritesHideIff(t: Table, changes: seq<Change>)
    requires WriteAll(t, changes).Success?
    ensures HiddenAvoiding(WriteAll(t, changes).value, {}) <==>
              HiddenAvoiding(t, Ids(changes)) || HidesParent(t, changes)
    decreases |changes|
  {
    if changes != [] {
      RowHidesIff(t, changes[0], Ids(changes[1..]));
      assert Ids(changes[1..]) + {changes[0].id} == Ids(changes);
      WritesHideIff(Write(t, changes[0]).value, changes[1..]);
    }
  }

  /**
   * Whatever rows one accepted statement inserts and updates, every row goes on seeing its parent exactly if
   * none of them hides itself from a child that the statement does not write afterwards.
   */
  lemma StatementKeepsVisibilityIff(t: Table, changes: seq<Change>)
    requires AllVisible(t) && Execute(t, changes).Success?
    ensures AllVisible(Execute(t, changes).value) <==> !HidesParent(t, changes)
  {
    AllVisibleIff(t, Ids(changes));
    AllVisibleIff(Execute(t, changes).value, {});
    WritesHideIff(t, changes);
  }

  const SHARED: Table := map[1 := Category(Some(7), None), 2 := Category(Some(7), Some(1))]

  /** Its children are not looked at again: giving a parent to another owner is accepted and hides it from its child. */
  lemma OwnerChangeHidesParent()
    ensures ParentVisible(SHARED, 2)
    ensures var t := Execute(SHARED, [Update(1, Category(Some(8), None))]); t.Success? && !ParentVisible(t.value, 2)
    ensures !SeenByChildren(SHARED, Update(1, Category(Some(8), None)))
  {
    var c := Update(1, Category(Some(8), None));
    assert [c][1..] == [];
    assert WriteAll(SHARED, [c]) == Success(SHARED[1 := c.row]);
  }

  // ---------------------------------------------------------------- what is accepted

  /**
   * A change of one row is accepted exactly if it inserts under a new id, and its parent is none, or a row that is a
   * system category or the owner's own and that neither is the changed row nor lies below it. An update of a row that
   * is not there is accepted and changes nothing.
   */
  lemma OneRowAcceptedIff(t: Table, c: Change)
    requires Referenced(t)
    ensures Execute(t, [c]).Success? <==>
              && (c.Insert? ==> c.id !in t)
              && (|| (c.Update? && c.id !in t)
                  || c.row.parent.None?
                  || (&& c.row.parent.value in t
                      && (t[c.row.parent.value].owner.None? || t[c.row.parent.value].owner == c.row.owner)
                      && !Above(t, c.row.parent.value, c.id)))
    ensures Execute(t, [c]).Success? ==>
              Execute(t, [c]).value == if c.Update? && c.id !in t then t else t[c.id := c.row]
  {
    assert [c][1..] == [];
    assert WriteAll(t, [c]) == Write(t, c);
    if c.id in t { assert Up(t, c.id, 0) == Some(c.id); }
    if Write(t, c).Success? && Lands(t, c) {
      var t' := t[c.id := c.row];
      if c.row.parent.None? || c.row.parent.value in t {
        forall x | x in t' && t'[x].parent.Some? ensures t'[x].parent.value in t' { assert x == c.id || x in t; }
      } else {
        assert t'[c.id].parent.Some? && t'[c.id].parent.value !in t';
      }
    }
  }
}
