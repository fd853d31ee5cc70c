/** A stable insertion sort by any total preorder. */
module Sorting {
  ghost predicate TotalPreorder<T(!new)>(le: (T, T) -> bool)
  {
    (forall a, b :: le(a, b) || le(b, a)) && (forall a, b, c :: le(a, b) && le(b, c) ==> le(a, c))
  }

  ghost predicate Ordered<T(!new)>(s: seq<T>, le: (T, T) -> bool) { forall i, j :: 0 <= i < j < |s| ==> le(s[i], s[j]) }

  /** Puts `x` before the first element that is not at most `x`. */
  function Insert<T>(s: seq<T>, x: T, le: (T, T) -> bool): (r: seq<T>)
    ensures multiset(r) == multiset(s) + multiset{x} && |r| == |s| + 1
  {
    if s == [] then [x]
    else if le(s[0], x) then
      assert s == [s[0]] + s[1..];
      [s[0]] + Insert(s[1..], x, le)
    else [x] + s
  }

  function Sort<T>(s: seq<T>, le: (T, T) -> bool): (r: seq<T>)
    ensures multiset(r) == multiset(s) && |r| == |s|
  {
    if s == [] then []
    else
      assert s == s[..|s| - 1] + [s[|s| - 1]];
      Insert(Sort(s[..|s| - 1], le), s[|s| - 1], le)
  }

  lemma {:induction false} InsertOrdered<T(!new)>(s: seq<T>, x: T, le: (T, T) -> bool)
    requires TotalPreorder(le) && Ordered(s, le)
    ensures Ordered(Insert(s, x, le), le)
  {
    if s != [] && le(s[0], x) {
      InsertOrdered(s[1..], x, le);
      var rest := Insert(s[1..], x, le);
      forall i | 0 <= i < |rest| ensures le(s[0], rest[i]) {
        assert rest[i] in multiset(rest);
        assert rest[i] == x || rest[i] in s[1..];
      }
    } else if s != [] {
      forall i | 0 <= i < |s| ensures le(x, s[i]) { assert le(x, s[0]) && (i == 0 || le(s[0], s[i])); }
    }
  }

  lemma {:induction false} SortOrdered<T(!new)>(s: seq<T>, le: (T, T) -> bool)
    requires TotalPreorder(le)
    ensures Ordered(Sort(s, le), le)
  {
    if s != [] {
      SortOrdered(s[..|s| - 1], le);
      InsertOrdered(Sort(s[..|s| - 1], le), s[|s| - 1], le);
    }
  }

  /** How many elements satisfy `p`. */
  function CountOf<T>(s: seq<T>, p: T -> bool): (n: nat)
    ensures n <= |s|
  {
    if s == [] then 0 else CountOf(s[..|s| - 1], p) + if p(s[|s| - 1]) then 1 else 0
  }

  lemma {:induction false} CountPrepend<T>(x: T, s: seq<T>, p: T -> bool)
    ensures CountOf([x] + s, p) == CountOf(s, p) + if p(x) then 1 else 0
  {
    var t := [x] + s;
    if s == [] {
      assert t == [x] && [x][..0] == [];
    } else {
      assert t[..|t| - 1] == [x] + s[..|s| - 1];
      CountPrepend(x, s[..|s| - 1], p);
    }
  }

  lemma {:induction false} CountInsert<T>(s: seq<T>, x: T, le: (T, T) -> bool, p: T -> bool)
    ensures CountOf(Insert(s, x, le), p) == CountOf(s, p) + if p(x) then 1 else 0
  {
    if s != [] && le(s[0], x) {
      CountInsert(s[1..], x, le, p);
      CountPrepend(s[0], Insert(s[1..], x, le), p);
      CountPrepend(s[0], s[1..], p);
      assert s == [s[0]] + s[1..];
    } else {
      CountPrepend(x, s, p);
      assert [x] + [] == [x];
    }
  }

  lemma {:induction false} CountSort<T>(s: seq<T>, le: (T, T) -> bool, p: T -> bool)
    ensures CountOf(Sort(s, le), p) == CountOf(s, p)
  {
    if s != [] {
      CountSort(s[..|s| - 1], le, p);
      CountInsert(Sort(s[..|s| - 1], le), s[|s| - 1], le, p);
    }
  }
}
