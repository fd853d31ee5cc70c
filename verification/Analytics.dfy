/** Period comparison and grounded insights: what the grouped amounts add up to and when a rule fires. */
module Analytics {
  import opened Wrappers
  import opened Domain
  import opened Sorting

  datatype Row = Row(
    id: nat,
    amount: Money,
    kind: TransactionType,
    merchant: Option<(nat, string)>,
    category: (Option<nat>, string))

  function Signed(r: Row): Money { if r.kind == Refund then -r.amount else r.amount }

  function Spent(rows: seq<Row>): Money {
    if rows == [] then 0 else Spent(rows[..|rows| - 1]) + Signed(rows[|rows| - 1])
  }

  // ---------------------------------------------------------------- category contributions

  type Category = (Option<nat>, string)

  datatype Contribution = Contribution(category: Category, current: Money, previous: Money, change: Money)

  /** The signed amount that the rows of one category add up to. */
  function SpentOn(rows: seq<Row>, c: Category): Money
  {
    if rows == [] then 0
    else SpentOn(rows[..|rows| - 1], c) + if rows[|rows| - 1].category == c then Signed(rows[|rows| - 1]) else 0
  }

  lemma SpentOnAppend(rows: seq<Row>, r: Row, c: Category)
    ensures SpentOn(rows + [r], c) == SpentOn(rows, c) + if r.category == c then Signed(r) else 0
  {
    assert (rows + [r])[..|rows|] == rows;
  }

  ghost predicate Distinct<T(!new)>(s: seq<T>) { forall i, j :: 0 <= i < j < |s| ==> s[i] != s[j] }

  ghost predicate Covers(keys: seq<Category>, rows: seq<Row>) {
    forall i :: 0 <= i < |rows| ==> rows[i].category in keys
  }

  function SumOver(keys: seq<Category>, f: Category -> Money): Money
  {
    if keys == [] then 0 else SumOver(keys[..|keys| - 1], f) + f(keys[|keys| - 1])
  }

  lemma {:induction false} SumOverPlusOne(keys: seq<Category>, f: Category -> Money, g: Category -> Money, c: Category,
          amount: Money)
    requires Distinct(keys) && forall k :: g(k) == f(k) + if k == c then amount else 0
    ensures SumOver(keys, g) == SumOver(keys, f) + if c in keys then amount else 0
  {
    if keys != [] {
      var init, last := keys[..|keys| - 1], keys[|keys| - 1];
      SumOverPlusOne(init, f, g, c, amount);
      assert keys == init + [last];
      assert last !in init;
    }
  }

  lemma {:induction false} SumOverZero(keys: seq<Category>, f: Category -> Money)
    requires forall k :: f(k) == 0
    ensures SumOver(keys, f) == 0
  {
    if keys != [] { SumOverZero(keys[..|keys| - 1], f); }
  }

  /** Grouping loses nothing: the categories' amounts add up to what was spent. */
  lemma {:induction false} GroupsAddUp(keys: seq<Category>, rows: seq<Row>)
    requires Distinct(keys) && Covers(keys, rows)
    ensures SumOver(keys, c => SpentOn(rows, c)) == Spent(rows)
  {
    if rows == [] {
      SumOverZero(keys, c => SpentOn(rows, c));
    } else {
      var init, last := rows[..|rows| - 1], rows[|rows| - 1];
      GroupsAddUp(keys, init);
      SumOverPlusOne(keys, c => SpentOn(init, c), c => SpentOn(rows, c), last.category, Signed(last));
    }
  }

  predicate StringLe(a: string, b: string)
  {
    a == "" || (b != "" && (a[0] < b[0] || (a[0] == b[0] && StringLe(a[1..], b[1..]))))
  }

  lemma {:induction false} StringLeTotal(a: string, b: string)
    ensures StringLe(a, b) || StringLe(b, a)
  {
    if a != "" && b != "" { StringLeTotal(a[1..], b[1..]); }
  }

  lemma {:induction false} StringLeTransitive(a: string, b: string, c: string)
    requires StringLe(a, b) && StringLe(b, c)
    ensures StringLe(a, c)
  {
    if a != "" && a[0] == b[0] && b[0] == c[0] { StringLeTransitive(a[1..], b[1..], c[1..]); }
  }

  function Abs(x: int): nat { if x < 0 then -x else x }

  /** The greatest change first; equal changes by category name. */
  predicate Before(x: Contribution, y: Contribution)
  {
    Abs(x.change) > Abs(y.change) || (Abs(x.change) == Abs(y.change) && StringLe(x.category.1, y.category.1))
  }

  lemma BeforeIsPreorder()
    ensures TotalPreorder(Before)
  {
    forall x, y ensures Before(x, y) || Before(y, x) { StringLeTotal(x.category.1, y.category.1); }
    forall x, y, z | Before(x, y) && Before(y, z) ensures Before(x, z) {
      if Abs(x.change) == Abs(y.change) == Abs(z.change) {
        StringLeTransitive(x.category.1, y.category.1, z.category.1);
      }
    }
  }

  /** A dictionary of amounts by category, with its keys in the order of their first appearance. */
  datatype Groups = Groups(order: seq<Category>, current: map<Category, Money>, previous: map<Category, Money>)

  ghost predicate GroupsOk(g: Groups, current: seq<Row>, previous: seq<Row>)
  {
    && Distinct(g.order) && Covers(g.order, current) && Covers(g.order, previous)
    && (forall c :: c in g.order <==> c in g.current) && (forall c :: c in g.order <==> c in g.previous)
    && (forall c :: c in g.order ==> g.current[c] == SpentOn(current, c) && g.previous[c] == SpentOn(previous, c))
    && (forall c :: c !in g.order ==> SpentOn(current, c) == 0 && SpentOn(previous, c) == 0)
  }

  function Touch(g: Groups, c: Category): Groups
  {
    if c in g.order then g else Groups(g.order + [c], g.current[c := 0], g.previous[c := 0])
  }

  lemma TouchKeepsGroups(g: Groups, current: seq<Row>, previous: seq<Row>, c: Category)
    requires GroupsOk(g, current, previous)
    ensures GroupsOk(Touch(g, c), current, previous) && c in Touch(g, c).order
  {
  }

  lemma AddKeepsGroups(g: Groups, current: seq<Row>, previous: seq<Row>, r: Row)
    requires GroupsOk(g, current, previous) && r.category in g.order
    ensures GroupsOk(g.(current := g.current[r.category := g.current[r.category] + Signed(r)]), current + [r], previous)
    ensures GroupsOk(g.(previous := g.previous[r.category := g.previous[r.category] + Signed(r)]), current,
              previous + [r])
  {
    AddCurrent(g, current, previous, r);
    AddPrevious(g, current, previous, r);
  }

  lemma CoversAppend(keys: seq<Category>, rows: seq<Row>, r: Row)
    requires Covers(keys, rows) && r.category in keys
    ensures Covers(keys, rows + [r])
  {
  }

  lemma AddCurrent(g: Groups, current: seq<Row>, previous: seq<Row>, r: Row)
    requires GroupsOk(g, current, previous) && r.category in g.order
    ensures GroupsOk(g.(current := g.current[r.category := g.current[r.category] + Signed(r)]), current + [r], previous)
  {
    CoversAppend(g.order, current, r);
    forall c ensures SpentOn(current + [r], c) == SpentOn(current, c) + if r.category == c then Signed(r) else 0 {
      SpentOnAppend(current, r, c);
    }
  }

  lemma AddPrevious(g: Groups, current: seq<Row>, previous: seq<Row>, r: Row)
    requires GroupsOk(g, current, previous) && r.category in g.order
    ensures GroupsOk(g.(previous := g.previous[r.category := g.previous[r.category] + Signed(r)]), current,
              previous + [r])
  {
    CoversAppend(g.order, previous, r);
    forall c ensures SpentOn(previous + [r], c) == SpentOn(previous, c) + if r.category == c then Signed(r) else 0 {
      SpentOnAppend(previous, r, c);
    }
  }

  function ContributionOf(current: seq<Row>, previous: seq<Row>, c: Category): Contribution
  {
    Contribution(c, SpentOn(current, c), SpentOn(previous, c), SpentOn(current, c) - SpentOn(previous, c))
  }

  function Contributions(keys: seq<Category>, current: seq<Row>, previous: seq<Row>): (s: seq<Contribution>)
    ensures |s| == |keys| && forall i :: 0 <= i < |s| ==> s[i] == ContributionOf(current, previous, keys[i])
  {
    seq(|keys|, i requires 0 <= i < |keys| => ContributionOf(current, previous, keys[i]))
  }

  /** The two passes over the rows. */
  method GroupByCategory(current: seq<Row>, previous: seq<Row>) returns (g: Groups)
    ensures GroupsOk(g, current, previous) && FromRows(g.order, current, previous)
  {
    g := GroupCurrent(current, previous);
    for i := 0 to |previous|
      invariant GroupsOk(g, current, previous[..i]) && FromRows(g.order, current, previous)
    {
      var r := previous[i];
      assert previous[..i + 1] == previous[..i] + [r] && r in previous;
      TouchKeepsGroups(g, current, previous[..i], r.category);
      g := Touch(g, r.category);
      AddKeepsGroups(g, current, previous[..i], r);
      g := g.(previous := g.previous[r.category := g.previous[r.category] + Signed(r)]);
    }
    assert previous[..|previous|] == previous;
  }

  method GroupCurrent(current: seq<Row>, ghost previous: seq<Row>) returns (g: Groups)
    ensures GroupsOk(g, current, []) && FromRows(g.order, current, previous)
  {
    g := Groups([], map[], map[]);
    for i := 0 to |current|
      invariant GroupsOk(g, current[..i], []) && FromRows(g.order, current, previous)
    {
      var r := current[i];
      assert current[..i + 1] == current[..i] + [r] && r in current;
      TouchKeepsGroups(g, current[..i], [], r.category);
      g := Touch(g, r.category);
      AddKeepsGroups(g, current[..i], [], r);
      g := g.(current := g.current[r.category := g.current[r.category] + Signed(r)]);
    }
    assert current[..|current|] == current;
  }

  method ListGroups(g: Groups, ghost current: seq<Row>, ghost previous: seq<Row>) returns (values: seq<Contribution>)
    requires GroupsOk(g, current, previous)
    ensures values == Contributions(g.order, current, previous)
  {
    values := [];
    for i := 0 to |g.order|
      invariant values == Contributions(g.order, current, previous)[..i]
    {
      var c := g.order[i];
      assert c in g.order;
      values := values + [Contribution(c, g.current[c], g.previous[c], g.current[c] - g.previous[c])];
    }
  }

  /** Groups both periods by category, one row at a time, and sorts the groups. */
  method CategoryContributions(current: seq<Row>, previous: seq<Row>)
    returns (result: seq<Contribution>, ghost keys: seq<Category>)
    ensures Distinct(keys) && Covers(keys, current) && Covers(keys, previous) && FromRows(keys, current, previous)
    ensures multiset(result) == multiset(Contributions(keys, current, previous))
    ensures forall i, j :: 0 <= i < j < |result| ==>
              || Abs(result[i].change) > Abs(result[j].change)
              || (Abs(result[i].change) == Abs(result[j].change)
                  && StringLe(result[i].category.1, result[j].category.1))
    ensures Total(result, CurrentOf) == Spent(current) && Total(result, ChangeOf) == Spent(current) - Spent(previous)
  {
    var g := GroupByCategory(current, previous);
    var values := ListGroups(g, current, previous);
    BeforeIsPreorder();
    SortOrdered(values, Before);
    result, keys := Sort(values, Before), g.order;
    ContributionsAddUp(keys, current, previous);
    TotalOfSorted(values, CurrentOf);
    TotalOfSorted(values, ChangeOf);
  }

  /** Every category comes from some row. */
  ghost predicate FromRows(keys: seq<Category>, current: seq<Row>, previous: seq<Row>)
  {
    forall c :: c in keys ==> exists r :: (r in current || r in previous) && r.category == c
  }

  function CurrentOf(x: Contribution): Money { x.current }

  function PreviousOf(x: Contribution): Money { x.previous }

  function ChangeOf(x: Contribution): Money { x.change }

  function Total(s: seq<Contribution>, f: Contribution -> Money): Money
  {
    if s == [] then 0 else Total(s[..|s| - 1], f) + f(s[|s| - 1])
  }

  lemma {:induction false} TotalOfContributions(keys: seq<Category>, current: seq<Row>, previous: seq<Row>)
    ensures var s := Contributions(keys, current, previous);
            && Total(s, CurrentOf) == SumOver(keys, c => SpentOn(current, c))
            && Total(s, PreviousOf) == SumOver(keys, c => SpentOn(previous, c))
            && Total(s, ChangeOf) == Total(s, CurrentOf) - Total(s, PreviousOf)
  {
    if keys != [] {
      TotalOfContributions(keys[..|keys| - 1], current, previous);
      assert Contributions(keys, current, previous)[..|keys| - 1]
          == Contributions(keys[..|keys| - 1], current, previous);
    }
  }

  /**
   * The report is conserved: over any distinct categories that cover both periods, the current amounts add
   * up to what was spent and the changes add up to the report's total change.
   */
  lemma ContributionsAddUp(keys: seq<Category>, current: seq<Row>, previous: seq<Row>)
    requires Distinct(keys) && Covers(keys, current) && Covers(keys, previous)
    ensures var s := Contributions(keys, current, previous);
            && Total(s, CurrentOf) == Spent(current)
            && Total(s, ChangeOf) == Spent(current) - Spent(previous)
  {
    TotalOfContributions(keys, current, previous);
    GroupsAddUp(keys, current);
    GroupsAddUp(keys, previous);
  }

  lemma {:induction false} TotalPrepend(x: Contribution, s: seq<Contribution>, f: Contribution -> Money)
    ensures Total([x] + s, f) == Total(s, f) + f(x)
  {
    var t := [x] + s;
    if s == [] {
      assert t == [x] && [x][..0] == [];
    } else {
      assert t[..|t| - 1] == [x] + s[..|s| - 1];
      TotalPrepend(x, s[..|s| - 1], f);
    }
  }

  lemma {:induction false} TotalInsert(s: seq<Contribution>, x: Contribution, f: Contribution -> Money)
    ensures Total(Insert(s, x, Before), f) == Total(s, f) + f(x)
  {
    if s != [] && Before(s[0], x) {
      TotalInsert(s[1..], x, f);
      TotalPrepend(s[0], Insert(s[1..], x, Before), f);
      TotalPrepend(s[0], s[1..], f);
      assert s == [s[0]] + s[1..];
    } else {
      TotalPrepend(x, s, f);
      assert [x] + [] == [x];
    }
  }

  /** Sorting rearranges the contributions and keeps their totals. */
  lemma {:induction false} TotalOfSorted(s: seq<Contribution>, f: Contribution -> Money)
    ensures Total(Sort(s, Before), f) == Total(s, f)
  {
    if s != [] {
      TotalOfSorted(s[..|s| - 1], f);
      TotalInsert(Sort(s[..|s| - 1], Before), s[|s| - 1], f);
    }
  }

  // ---------------------------------------------------------------- thresholds

  /** Decimal's ROUND_HALF_UP of n/d to a whole number: the nearest one, ties away from zero. */
  function RoundHalfUp(n: int, d: int): int
    requires d > 0
  {
    if n >= 0 then (2 * n + d) / (2 * d) else -((-2 * n + d) / (2 * d))
  }

  lemma RoundsUpFrom(n: int, d: int, k: int)
    requires d > 0 && k > 0
    ensures RoundHalfUp(n, d) >= k <==> 2 * n >= (2 * k - 1) * d
  {
    if n >= 0 {
      QuotientAtLeast(2 * n + d, 2 * d, k);
      assert k * (2 * d) == (2 * k - 1) * d + d;
    } else {
      assert -2 * n + d > 0;
      QuotientAtLeast(-2 * n + d, 2 * d, 0);
      assert (2 * k - 1) * d >= d;
    }
  }

  lemma QuotientAtLeast(n: int, d: int, k: int)
    requires d > 0
    ensures n / d >= k <==> n >= k * d
  {
    assert n == n / d * d + n % d;
    if n / d >= k { assert n / d * d >= k * d; }
    if n / d < k { assert (n / d + 1) * d <= k * d; }
  }

  /** The percentage of the spending rule, when the rule applies at all. */
  predicate SpendingIncrease(current: Money, previous: Money)
  {
    previous > 0 && RoundHalfUp((current - previous) * 100, previous) >= 25
  }

  /** The rule fires from 24.5 percent on, because the rounded percentage is compared. */
  lemma SpendingFiresFrom(current: Money, previous: Money)
    requires previous > 0
    ensures SpendingIncrease(current, previous) <==> 200 * (current - previous) >= 49 * previous
  {
    RoundsUpFrom((current - previous) * 100, previous, 25);
  }

  const LAST_MONTH := 10_000_000  // 1000.0000
  const THIS_MONTH := 12_450_000  // 1245.0000

  /**
   * So its text, "at least 25% above last month", is true of exactly the firings from a quarter on, and false
   * of this one.
   */
  lemma SpendingTextCanBeFalse(current: Money, previous: Money)
    requires previous > 0
    ensures 4 * (current - previous) >= previous ==> SpendingIncrease(current, previous)
    ensures SpendingIncrease(THIS_MONTH, LAST_MONTH) && !(4 * (THIS_MONTH - LAST_MONTH) >= LAST_MONTH)
  {
    SpendingFiresFrom(current, previous);
    SpendingFiresFrom(THIS_MONTH, LAST_MONTH);
  }

  predicate Concentrated(merchant: Money, total: Money)
    requires total > 0
  {
    RoundHalfUp(merchant * 100, total) >= 50
  }

  /**
   * The concentration rule fires from 49.5 percent on; "at least half" is true of exactly the firings from a
   * half on.
   */
  lemma ConcentrationFiresFrom(merchant: Money, total: Money)
    requires total > 0
    ensures Concentrated(merchant, total) <==> 200 * merchant >= 99 * total
    ensures 2 * merchant >= total ==> Concentrated(merchant, total)
    ensures Concentrated(995, 2000) && !(2 * 995 >= 2000)
  {
    RoundsUpFrom(merchant * 100, total, 50);
    RoundsUpFrom(995 * 100, 2000, 50);
  }

  // ---------------------------------------------------------------- large transactions

  predicate IsExpense(r: Row) { r.kind == Expense || r.kind == SharedExpense }

  function Expenses(rows: seq<Row>): (s: seq<Row>)
    ensures forall r :: r in s <==> r in rows && IsExpense(r)
  {
    if rows == [] then []
    else Expenses(rows[..|rows| - 1]) + if IsExpense(rows[|rows| - 1]) then [rows[|rows| - 1]] else []
  }

  function Amounts(rows: seq<Row>): (s: seq<Money>)
    ensures |s| == |rows| && forall i :: 0 <= i < |s| ==> s[i] == rows[i].amount
  {
    seq(|rows|, i requires 0 <= i < |rows| => rows[i].amount)
  }

  predicate AtMost(a: int, b: int) { a <= b }

  /** Twice the median: the middle amount doubled, or the two middle amounts added. */
  function TwiceMedian(amounts: seq<Money>): Money
    requires amounts != []
  {
    var sorted := Sort(amounts, AtMost);
    sorted[(|sorted| - 1) / 2] + sorted[|sorted| / 2]
  }

  /** The expenses of at least twice the median, once there are three expenses. */
  method LargeTransactions(rows: seq<Row>) returns (large: seq<Row>)
    requires forall r :: r in rows ==> 0 < r.amount
    ensures var expenses := Expenses(rows);
            && (|expenses| < 3 ==> large == [])
            && (|expenses| >= 3 ==>
                  && (forall r :: r in large <==>
                        && r in rows && (r.kind == Expense || r.kind == SharedExpense)
                        && r.amount >= TwiceMedian(Amounts(expenses)))
                  && 2 * |large| <= |expenses|)
  {
    var expenses := Expenses(rows);
    large := [];
    if |expenses| < 3 { return; }
    var bound := TwiceMedian(Amounts(expenses));
    for i := 0 to |expenses|
      invariant forall r :: r in large <==> r in expenses[..i] && r.amount >= bound
      invariant |large| == CountOf(Amounts(expenses)[..i], x => x >= bound)
    {
      assert expenses[..i + 1] == expenses[..i] + [expenses[i]];
      assert Amounts(expenses)[..i + 1][..i] == Amounts(expenses)[..i];
      if expenses[i].amount >= bound { large := large + [expenses[i]]; }
    }
    assert expenses[..|expenses|] == expenses && Amounts(expenses)[..|expenses|] == Amounts(expenses);
    assert forall i :: 0 <= i < |expenses| ==> expenses[i] in expenses;
    AtMostHalfAreLarge(Amounts(expenses));
  }

  /** Counting in order: what the first `n` are not, what all but they are not, and what they are. */
  lemma {:induction false} CountPrefix(s: seq<Money>, p: Money -> bool, n: nat)
    requires n <= |s|
    ensures (forall i :: n <= i < |s| ==> !p(s[i])) ==> CountOf(s, p) <= n
    ensures (forall i :: 0 <= i < n ==> p(s[i])) ==> CountOf(s, p) >= n
  {
    if s != [] { CountPrefix(s[..|s| - 1], p, if n < |s| then n else |s| - 1); }
  }

  /** The amount at place `k`: at most `k` amounts are less, and more than `k` are no more. */
  predicate AtPlace(amounts: seq<Money>, k: nat, x: Money)
  {
    x in amounts && CountOf(amounts, y => y < x) <= k < CountOf(amounts, y => y <= x)
  }

  lemma SortedAtPlace(amounts: seq<Money>, k: nat)
    requires k < |amounts|
    ensures |Sort(amounts, AtMost)| == |amounts| && AtPlace(amounts, k, Sort(amounts, AtMost)[k])
  {
    var sorted := Sort(amounts, AtMost);
    SortOrdered(amounts, AtMost);
    var x := sorted[k];
    CountSort(amounts, AtMost, y => y < x);
    CountSort(amounts, AtMost, y => y <= x);
    forall i | k <= i < |sorted| ensures !(sorted[i] < x) { assert i == k || AtMost(x, sorted[i]); }
    CountPrefix(sorted, y => y < x, k);
    forall i | 0 <= i < k + 1 ensures sorted[i] <= x { assert i == k || AtMost(sorted[i], x); }
    CountPrefix(sorted, y => y <= x, k + 1);
    assert x in multiset(sorted) && x in multiset(amounts);
  }

  /** The median is the mean of the amounts at the two middle places, one place when their number is odd. */
  lemma MedianIsMean(amounts: seq<Money>) returns (lower: Money, upper: Money)
    requires amounts != []
    ensures AtPlace(amounts, (|amounts| - 1) / 2, lower) && AtPlace(amounts, |amounts| / 2, upper)
    ensures lower <= upper && TwiceMedian(amounts) == lower + upper
    ensures |amounts| % 2 == 1 ==> lower == upper
  {
    var sorted, m, n := Sort(amounts, AtMost), (|amounts| - 1) / 2, |amounts| / 2;
    SortOrdered(amounts, AtMost);
    SortedAtPlace(amounts, m);
    SortedAtPlace(amounts, n);
    lower, upper := sorted[m], sorted[n];
    assert m == n || AtMost(lower, upper);
  }

  /** At most half of the amounts lie below the median, and at most half above it. */
  lemma MedianSplits(amounts: seq<Money>)
    requires amounts != []
    ensures 2 * CountOf(amounts, x => 2 * x < TwiceMedian(amounts)) <= |amounts|
    ensures 2 * CountOf(amounts, x => 2 * x > TwiceMedian(amounts)) <= |amounts|
  {
    var sorted := Sort(amounts, AtMost);
    SortOrdered(amounts, AtMost);
    CountSort(amounts, AtMost, x => 2 * x < TwiceMedian(amounts));
    CountSort(amounts, AtMost, x => 2 * x > TwiceMedian(amounts));
    BelowMiddle(sorted, x => 2 * x < TwiceMedian(amounts));
    AboveMiddle(sorted, x => 2 * x > TwiceMedian(amounts));
  }

  /** In order, nothing from the upper middle on is less than the mean of the two middles. */
  lemma BelowMiddle(sorted: seq<Money>, p: Money -> bool)
    requires sorted != [] && Ordered(sorted, AtMost)
    requires forall x :: p(x) ==> 2 * x < sorted[(|sorted| - 1) / 2] + sorted[|sorted| / 2]
    ensures 2 * CountOf(sorted, p) <= |sorted|
  {
    var m, n := (|sorted| - 1) / 2, |sorted| / 2;
    assert m == n || AtMost(sorted[m], sorted[n]);
    forall i | n <= i < |sorted| ensures !p(sorted[i]) { assert i == n || AtMost(sorted[n], sorted[i]); }
    CountPrefix(sorted, p, n);
  }

  /** Nor is anything up to the lower middle greater. */
  lemma AboveMiddle(sorted: seq<Money>, p: Money -> bool)
    requires sorted != [] && Ordered(sorted, AtMost)
    requires forall x :: p(x) ==> 2 * x > sorted[(|sorted| - 1) / 2] + sorted[|sorted| / 2]
    ensures 2 * CountOf(sorted, p) <= |sorted|
  {
    var m, n := (|sorted| - 1) / 2, |sorted| / 2;
    assert m == n || AtMost(sorted[m], sorted[n]);
    forall i | 0 <= i < m + 1 ensures !p(sorted[i]) { assert i == m || AtMost(sorted[i], sorted[m]); }
    CountSkips(sorted, p, m + 1);
  }

  /** At most half of positive amounts are at least twice their median. */
  lemma AtMostHalfAreLarge(amounts: seq<Money>)
    requires amounts != [] && forall i :: 0 <= i < |amounts| ==> 0 < amounts[i]
    ensures 2 * CountOf(amounts, x => x >= TwiceMedian(amounts)) <= |amounts|
  {
    var sorted := Sort(amounts, AtMost);
    SortOrdered(amounts, AtMost);
    CountSort(amounts, AtMost, x => x >= TwiceMedian(amounts));
    forall i | 0 <= i < |sorted| ensures 0 < sorted[i] { SortedElement(amounts, sorted, i); }
    UpperHalf(sorted, x => x >= TwiceMedian(amounts));
  }

  lemma SortedElement(amounts: seq<Money>, sorted: seq<Money>, i: nat)
    requires multiset(sorted) == multiset(amounts) && i < |sorted| && forall j :: 0 <= j < |amounts| ==> 0 < amounts[j]
    ensures 0 < sorted[i]
  {
    assert sorted[i] in multiset(sorted) && sorted[i] in multiset(amounts);
    assert sorted[i] in amounts;
  }

  /** In order, nothing up to the lower middle reaches the sum of the two middles. */
  lemma UpperHalf(sorted: seq<Money>, p: Money -> bool)
    requires sorted != [] && Ordered(sorted, AtMost) && forall i :: 0 <= i < |sorted| ==> 0 < sorted[i]
    requires forall x :: p(x) ==> x >= sorted[(|sorted| - 1) / 2] + sorted[|sorted| / 2]
    ensures 2 * CountOf(sorted, p) <= |sorted|
  {
    var half := (|sorted| - 1) / 2;
    forall i | 0 <= i < half + 1 ensures !p(sorted[i]) { assert i == half || AtMost(sorted[i], sorted[half]); }
    CountSkips(sorted, p, half + 1);
  }

  lemma {:induction false} CountSkips(s: seq<Money>, p: Money -> bool, n: nat)
    requires n <= |s| && forall i :: 0 <= i < n ==> !p(s[i])
    ensures CountOf(s, p) <= |s| - n
  {
    if s != [] {
      CountSkips(s[..|s| - 1], p, if n < |s| then n else |s| - 1);
    }
  }

  // ---------------------------------------------------------------- merchant concentration

  type Merchant = (nat, string)

  function Plain(rows: seq<Row>): Money {
    if rows == [] then 0 else Plain(rows[..|rows| - 1]) + rows[|rows| - 1].amount
  }

  function Of(rows: seq<Row>, m: Merchant): (s: seq<Row>)
    ensures forall r :: r in s <==> r in rows && r.merchant == Some(m)
  {
    if rows == [] then []
    else Of(rows[..|rows| - 1], m) + if rows[|rows| - 1].merchant == Some(m) then [rows[|rows| - 1]] else []
  }

  lemma OfAppend(rows: seq<Row>, r: Row, m: Merchant)
    ensures Of(rows + [r], m) == Of(rows, m) + if r.merchant == Some(m) then [r] else []
  {
    assert (rows + [r])[..|rows|] == rows;
  }

  datatype Insight = Insight(merchant: Merchant, amount: Money, supporting: seq<Row>)

  /** The first merchant with the greatest total. */
  method Richest(order: seq<Merchant>, groups: map<Merchant, seq<Row>>) returns (best: Merchant)
    requires order != [] && forall m :: m in order ==> m in groups
    ensures best in order && forall m :: m in order ==> Plain(groups[m]) <= Plain(groups[best])
  {
    best := order[0];
    for i := 1 to |order|
      invariant best in order
      invariant forall j :: 0 <= j < i ==> Plain(groups[order[j]]) <= Plain(groups[best])
    {
      if Plain(groups[order[i]]) > Plain(groups[best]) { best := order[i]; }
    }
  }

  /** The merchant's total is that of its own rows and no merchant's is greater. */
  ghost predicate Greatest(expenses: seq<Row>, i: Insight)
  {
    && i.supporting == Of(expenses, i.merchant)
    && i.amount == Plain(i.supporting)
    && forall m: Merchant :: Of(expenses, m) != [] ==> Plain(Of(expenses, m)) <= i.amount
  }

  /** Groups the expenses by merchant in one pass and reports the greatest group if it is concentrated enough. */
  method MerchantConcentration(rows: seq<Row>) returns (insight: Option<Insight>)
    ensures var expenses := Expenses(rows);
            insight.Some? ==>
              Plain(expenses) > 0 && Greatest(expenses, insight.value)
                  && Concentrated(insight.value.amount, Plain(expenses))
    ensures var expenses := Expenses(rows);
            insight.None? && Plain(expenses) > 0 ==>
              forall m: Merchant :: Of(expenses, m) != [] ==> !Concentrated(Plain(Of(expenses, m)), Plain(expenses))
  {
    var expenses := Expenses(rows);
    var order, groups := GroupByMerchant(expenses);
    var total := Plain(expenses);
    insight := None;
    if total <= 0 || order == [] { return; }
    var best := Richest(order, groups);
    var found := Insight(best, Plain(groups[best]), groups[best]);
    assert Greatest(expenses, found);
    if Concentrated(found.amount, total) {
      insight := Some(found);
    } else {
      forall m: Merchant | Of(expenses, m) != [] ensures !Concentrated(Plain(Of(expenses, m)), total) {
        ConcentrationIsMonotone(Plain(Of(expenses, m)), found.amount, total);
      }
    }
  }

  lemma ConcentrationIsMonotone(less: Money, more: Money, total: Money)
    requires total > 0 && less <= more && !Concentrated(more, total)
    ensures !Concentrated(less, total)
  {
    ConcentrationFiresFrom(less, total);
    ConcentrationFiresFrom(more, total);
  }

  method GroupByMerchant(expenses: seq<Row>) returns (order: seq<Merchant>, groups: map<Merchant, seq<Row>>)
    ensures forall m :: m in order <==> m in groups
    ensures forall m: Merchant :: Of(expenses, m) != [] <==> m in order
    ensures forall m :: m in order ==> groups[m] == Of(expenses, m)
  {
    order, groups := [], map[];
    for i := 0 to |expenses|
      invariant forall m :: m in order <==> m in groups
      invariant forall m: Merchant :: Of(expenses[..i], m) != [] <==> m in order
      invariant forall m :: m in order ==> groups[m] == Of(expenses[..i], m)
    {
      var r := expenses[i];
      assert expenses[..i + 1] == expenses[..i] + [r];
      forall m: Merchant
        ensures Of(expenses[..i + 1], m) == Of(expenses[..i], m) + if r.merchant == Some(m) then [r] else []
      {
        OfAppend(expenses[..i], r, m);
      }
      if r.merchant.Some? {
        var m := r.merchant.value;
        if m !in groups { order := order + [m]; }
        groups := groups[m := (if m in groups then groups[m] else []) + [r]];
      }
    }
    assert expenses[..|expenses|] == expenses;
  }

  // ---------------------------------------------------------------- what counts as spent

  function Refunds(rows: seq<Row>, refunded: bool): (s: seq<Row>)
    ensures forall r :: r in s <==> r in rows && (r.kind == Refund <==> refunded)
  {
    if rows == [] then []
    else
      var init, last := rows[..|rows| - 1], rows[|rows| - 1];
      if (last.kind == Refund) == refunded then Refunds(init, refunded) + [last] else Refunds(init, refunded)
  }

  lemma PlainAppend(rows: seq<Row>, r: Row)
    ensures Plain(rows + [r]) == Plain(rows) + r.amount
  {
    assert (rows + [r])[..|rows|] == rows;
  }

  /** What was spent is the sum of everything else less the refunds. */
  lemma {:induction false} SpentIsNet(rows: seq<Row>)
    ensures Spent(rows) == Plain(Refunds(rows, false)) - Plain(Refunds(rows, true))
  {
    if rows != [] {
      var init, last := rows[..|rows| - 1], rows[|rows| - 1];
      SpentIsNet(init);
      PlainAppend(Refunds(init, false), last);
      PlainAppend(Refunds(init, true), last);
    }
  }
}
