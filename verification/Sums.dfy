/** Sums over finite sets, and the facts about sums and sizes that the proofs share. */
module Sums {
  ghost function SetSum<T>(s: set<T>, f: T -> int): int
  {
    if s == {} then 0 else var x :| x in s; f(x) + SetSum(s - {x}, f)
  }

  /** The sum does not depend on the order in which elements are picked. */
  lemma {:induction false} SetSumRemove<T>(s: set<T>, f: T -> int, x: T)
    requires x in s
    ensures SetSum(s, f) == f(x) + SetSum(s - {x}, f)
    decreases s
  {
    var y :| y in s && SetSum(s, f) == f(y) + SetSum(s - {y}, f);
    if y != x {
      SetSumRemove(s - {y}, f, x);
      SetSumRemove(s - {x}, f, y);
      assert s - {y} - {x} == s - {x} - {y};
    }
  }

  lemma SetSumAdd<T>(s: set<T>, f: T -> int, x: T)
    requires x !in s
    ensures SetSum(s + {x}, f) == f(x) + SetSum(s, f)
  {
    SetSumRemove(s + {x}, f, x);
    assert s + {x} - {x} == s;
  }

  lemma {:induction false} SetSumCongruence<T>(s: set<T>, f: T -> int, g: T -> int)
    requires forall x :: x in s ==> f(x) == g(x)
    ensures SetSum(s, f) == SetSum(s, g)
    decreases s
  {
    if s != {} {
      var x :| x in s;
      SetSumRemove(s, f, x);
      SetSumRemove(s, g, x);
      SetSumCongruence(s - {x}, f, g);
    }
  }

  /** A bijection that preserves the summand preserves the sum. */
  lemma {:induction false} SetSumBijection<A, B>(keys: set<A>, image: set<B>, to: A -> B, f: A -> int, g: B -> int)
    requires forall k :: k in keys ==> to(k) in image && f(k) == g(to(k))
    requires forall k, l :: k in keys && l in keys && to(k) == to(l) ==> k == l
    requires forall x :: x in image ==> exists k :: k in keys && to(k) == x
    ensures SetSum(keys, f) == SetSum(image, g)
    decreases keys
  {
    if keys != {} {
      var k :| k in keys;
      SetSumRemove(keys, f, k);
      SetSumRemove(image, g, to(k));
      forall x | x in image - {to(k)}
        ensures exists l :: l in keys - {k} && to(l) == x
      {
        var l :| l in keys && to(l) == x;
        assert l in keys - {k};
      }
      SetSumBijection(keys - {k}, image - {to(k)}, to, f, g);
    } else {
      assert image == {};
    }
  }

  lemma {:induction false} SubsetSize<T>(a: set<T>, b: set<T>)
    requires a <= b
    ensures |a| <= |b|
  {
    if a != {} {
      var x :| x in a;
      SubsetSize(a - {x}, b - {x});
    }
  }
}
