/** Keyset pagination over any strict total order: pages, walks over pages, and what they list. */
module Keyset {
  import opened Wrappers

  ghost predicate TotalOrder<K(!new)>(newer: (K, K) -> bool)
  {
    && (forall a, b :: newer(a, b) || newer(b, a) || a == b)
    && (forall a, b :: newer(a, b) ==> !newer(b, a))
    && (forall a, b, c :: newer(a, b) && newer(b, c) ==> newer(a, c))
  }

  ghost predicate Descending<K(!new)>(s: seq<K>, newer: (K, K) -> bool)
  {
    forall i, j :: 0 <= i < j < |s| ==> newer(s[i], s[j])
  }

  // ---------------------------------------------------------------- the query

  ghost predicate Top<K(!new)>(rows: set<K>, newer: (K, K) -> bool, m: K)
  {
    m in rows && forall x :: x in rows ==> x == m || newer(m, x)
  }

  lemma {:induction false} HasTop<K(!new)>(rows: set<K>, newer: (K, K) -> bool)
    requires TotalOrder(newer) && rows != {}
    ensures exists m :: Top(rows, newer, m)
    decreases |rows|
  {
    var x :| x in rows;
    if rows == {x} {
      assert Top(rows, newer, x);
    } else {
      HasTop(rows - {x}, newer);
      var y :| Top(rows - {x}, newer, y);
      assert Top(rows, newer, if newer(x, y) then x else y);
    }
  }

  /** All rows, newest first. */
  ghost function Listing<K(!new)>(rows: set<K>, newer: (K, K) -> bool): (s: seq<K>)
    requires TotalOrder(newer)
    ensures Descending(s, newer) && |s| == |rows|
    ensures forall x :: x in s <==> x in rows
    decreases |rows|
  {
    if rows == {} then []
    else
      HasTop(rows, newer);
      var m :| Top(rows, newer, m);
      var rest := Listing(rows - {m}, newer);
      assert forall i :: 0 <= i < |rest| ==> rest[i] in rest;
      [m] + rest
  }

  /** The rows after a key. */
  ghost function After<K(!new)>(rows: set<K>, newer: (K, K) -> bool, after: Option<K>): set<K>
  {
    set x | x in rows && (after.None? || newer(after.value, x))
  }

  ghost function Query<K(!new)>(rows: set<K>, newer: (K, K) -> bool, limit: nat, after: Option<K>): seq<K>
    requires TotalOrder(newer)
  {
    var s := Listing(After(rows, newer, after), newer);
    if |s| <= limit then s else s[..limit]
  }

  // ---------------------------------------------------------------- pages

  /** The rows of a page, and whether there are more. */
  datatype Head<K> = Head(rows: seq<K>, hasNext: bool)

  /** The first rows, and whether there are more than them. */
  function Cut<K>(rows: seq<K>, first: nat): Head<K>
  {
    if |rows| <= first then Head(rows, false) else Head(rows[..first], true)
  }

  /** One row more than the page holds is fetched to see whether there is a next page. */
  ghost function Fetch<K(!new)>(rows: set<K>, newer: (K, K) -> bool, first: nat, after: Option<K>): Head<K>
    requires TotalOrder(newer)
  {
    Cut(Query(rows, newer, first + 1, after), first)
  }

  ghost function HeadOf<K(!new)>(rows: set<K>, newer: (K, K) -> bool, first: nat, after: Option<K>): Head<K>
    requires TotalOrder(newer)
  {
    Cut(Listing(After(rows, newer, after), newer), first)
  }

  /** The one extra row tells as much as all the others would. */
  lemma FetchIsHead<K(!new)>(rows: set<K>, newer: (K, K) -> bool, first: nat, after: Option<K>)
    requires TotalOrder(newer)
    ensures Fetch(rows, newer, first, after) == HeadOf(rows, newer, first, after)
  {
    var all := Listing(After(rows, newer, after), newer);
    if |all| > first { assert all[..first + 1][..first] == all[..first]; }
  }

  lemma HeadIsListed<K(!new)>(rows: set<K>, newer: (K, K) -> bool, first: nat, after: Option<K>)
    requires TotalOrder(newer)
    ensures forall x :: x in HeadOf(rows, newer, first, after).rows ==> x in After(rows, newer, after)
  {
    assert forall x :: x in HeadOf(rows, newer, first, after).rows ==> x in Listing(After(rows, newer, after), newer);
  }

  /** The newest of the rows, newest first, as many as fit, and whether any is left. */
  ghost predicate Newest<K(!new)>(page: Head<K>, rows: set<K>, newer: (K, K) -> bool, first: nat)
  {
    && |page.rows| == (if |rows| <= first then |rows| else first) && (page.hasNext <==> |rows| > first)
    && (forall x :: x in page.rows ==> x in rows)
    && (forall x, y :: x in page.rows && y in rows && y !in page.rows ==> newer(x, y))
    && (forall i, j :: 0 <= i < j < |page.rows| ==> newer(page.rows[i], page.rows[j]))
  }

  lemma CutIsNewest<K(!new)>(rows: set<K>, newer: (K, K) -> bool, first: nat)
    requires TotalOrder(newer)
    ensures Newest(Cut(Listing(rows, newer), first), rows, newer, first)
  {
    var all := Listing(rows, newer);
    var page := Cut(all, first);
    assert forall i :: 0 <= i < |page.rows| ==> page.rows[i] == all[i] && all[i] in all;
    forall x, y | x in page.rows && y in rows && y !in page.rows ensures newer(x, y) {
      assert y in all;
      var i :| 0 <= i < |page.rows| && page.rows[i] == x;
      var j :| 0 <= j < |all| && all[j] == y;
      if j < |page.rows| { assert page.rows[j] == y; }
    }
  }

  function Last<K>(s: seq<K>): Option<K> { if s == [] then None else Some(s[|s| - 1]) }

  /**
   * The rows of all pages when the request for page i sees `seen[i]` and each request resumes after the last
   * row shown.
   */
  ghost function Walk<K(!new)>(seen: seq<set<K>>, newer: (K, K) -> bool, first: nat, after: Option<K>): seq<K>
    requires TotalOrder(newer)
    decreases |seen|
  {
    if seen == [] then []
    else
      var head := HeadOf(seen[0], newer, first, after);
      head.rows + if head.hasNext then Walk(seen[1..], newer, first, Last(head.rows)) else []
  }

  /** The walk got to a page without a successor. */
  ghost predicate Ends<K(!new)>(seen: seq<set<K>>, newer: (K, K) -> bool, first: nat, after: Option<K>)
    requires TotalOrder(newer)
    decreases |seen|
  {
    seen != [] &&
    var head := HeadOf(seen[0], newer, first, after);
    head.hasNext ==> Ends(seen[1..], newer, first, Last(head.rows))
  }

  // ---------------------------------------------------------------- what a walk lists

  /** The row was seen by a request and follows the starting point. */
  ghost predicate Listed<K(!new)>(seen: seq<set<K>>, newer: (K, K) -> bool, after: Option<K>, x: K)
  {
    (after.Some? ==> newer(after.value, x)) && exists i :: 0 <= i < |seen| && x in seen[i]
  }

  ghost predicate AllListed<K(!new)>(s: seq<K>, seen: seq<set<K>>, newer: (K, K) -> bool, after: Option<K>)
  {
    forall x :: x in s ==> Listed(seen, newer, after, x)
  }

  /** Whatever changes between the requests, a walk descends, and lists only what some request saw. */
  lemma {:induction false} WalkDescends<K(!new)>(seen: seq<set<K>>, newer: (K, K) -> bool, first: nat, after: Option<K>)
    requires TotalOrder(newer) && 1 <= first
    ensures Descending(Walk(seen, newer, first, after), newer)
    ensures AllListed(Walk(seen, newer, first, after), seen, newer, after)
    decreases |seen|
  {
    if seen != [] {
      var head := HeadOf(seen[0], newer, first, after);
      HeadDescends(seen, newer, first, after);
      if head.hasNext {
        var rest := Walk(seen[1..], newer, first, Last(head.rows));
        WalkDescends(seen[1..], newer, first, Last(head.rows));
        PagesJoin(seen, newer, after, head.rows, rest);
        assert Walk(seen, newer, first, after) == head.rows + rest;
      } else {
        assert Walk(seen, newer, first, after) == head.rows;
      }
    }
  }

  lemma PagesJoin<K(!new)>(seen: seq<set<K>>, newer: (K, K) -> bool, after: Option<K>, s: seq<K>, t: seq<K>)
    requires TotalOrder(newer) && seen != [] && s != [] && Descending(s, newer) && Descending(t, newer)
    requires AllListed(s, seen, newer, after) && AllListed(t, seen[1..], newer, Last(s))
    ensures Descending(s + t, newer) && AllListed(s + t, seen, newer, after)
  {
    var last := s[|s| - 1];
    assert Listed(seen, newer, after, last);
    forall x | x in t ensures Listed(seen, newer, after, x) && newer(last, x) {
      assert Listed(seen[1..], newer, Some(last), x);
      ListedLater(seen, newer, after, last, x);
    }
    Joined(s, t, newer);
  }

  lemma HeadDescends<K(!new)>(seen: seq<set<K>>, newer: (K, K) -> bool, first: nat, after: Option<K>)
    requires TotalOrder(newer) && 1 <= first && seen != []
    ensures var head := HeadOf(seen[0], newer, first, after);
            Descending(head.rows, newer) && (head.hasNext ==> head.rows != [])
                && AllListed(head.rows, seen, newer, after)
  {
    HeadIsListed(seen[0], newer, first, after);
    var head := HeadOf(seen[0], newer, first, after);
    forall x | x in head.rows ensures Listed(seen, newer, after, x) { assert x in After(seen[0], newer, after); }
  }

  lemma ListedLater<K(!new)>(seen: seq<set<K>>, newer: (K, K) -> bool, after: Option<K>, last: K, x: K)
    requires TotalOrder(newer) && seen != [] && Listed(seen[1..], newer, Some(last), x)
    requires after.Some? ==> newer(after.value, last)
    ensures Listed(seen, newer, after, x)
  {
    var i :| 0 <= i < |seen[1..]| && x in seen[1..][i];
    assert x in seen[i + 1];
  }

  lemma Joined<K(!new)>(s: seq<K>, t: seq<K>, newer: (K, K) -> bool)
    requires TotalOrder(newer) && s != [] && Descending(s, newer) && Descending(t, newer)
    requires forall x :: x in t ==> newer(s[|s| - 1], x)
    ensures Descending(s + t, newer)
  {
    forall i, j | 0 <= i < |s| && 0 <= j < |t| ensures newer(s[i], t[j]) { assert t[j] in t; }
  }

  /** A walk that ends covers every row that was there at each of its requests. */
  lemma {:induction false} WalkCovers<K(!new)>(seen: seq<set<K>>, newer: (K, K) -> bool, first: nat, after: Option<K>,
          x: K)
    requires TotalOrder(newer) && 1 <= first && Ends(seen, newer, first, after)
    requires (forall i :: 0 <= i < |seen| ==> x in seen[i]) && (after.Some? ==> newer(after.value, x))
    ensures x in Walk(seen, newer, first, after)
    decreases |seen|
  {
    var head, all := HeadOf(seen[0], newer, first, after), Listing(After(seen[0], newer, after), newer);
    assert x in all;
    var i :| 0 <= i < |all| && all[i] == x;
    if i < |head.rows| {
      assert head.rows[i] == x;
      assert x in Walk(seen, newer, first, after);
    } else {
      var last := Some(all[first - 1]);
      assert Last(head.rows) == last && newer(all[first - 1], all[i]);
      WalkCovers(seen[1..], newer, first, last, x);
      WalkUnrolls(seen[0], seen, newer, first, after, head.rows);
      assert x in Walk(seen, newer, first, after);
    }
  }

  /** So many pages hold so many rows. */
  predicate Enough(pages: nat, first: nat, rows: nat)
  {
    if rows <= first then pages > 0 || rows == 0 else pages > 0 && Enough(pages - 1, first, rows - first)
  }

  lemma MorePages(pages: nat, first: nat, rows: nat, pages': nat, rows': nat)
    requires Enough(pages, first, rows) && first < rows && pages' == pages - 1 && rows' == rows - first
    ensures 1 <= pages' && Enough(pages', first, rows')
  {
  }

  lemma {:induction false} EnoughPages(pages: nat, first: nat, rows: nat)
    requires rows <= pages * first
    ensures Enough(pages, first, rows)
  {
    if pages > 0 {
      assert pages * first == (pages - 1) * first + first;
      if rows > first { EnoughPages(pages - 1, first, rows - first); }
    }
  }

  ghost predicate Quiet<K(!new)>(seen: seq<set<K>>, rows: set<K>) { forall i :: 0 <= i < |seen| ==> seen[i] == rows }

  /** With nothing changing, enough requests list exactly the listing. */
  lemma {:induction false} QuietWalk<K(!new)>(rows: set<K>, seen: seq<set<K>>, newer: (K, K) -> bool, first: nat,
          after: Option<K>, all: seq<K>)
    requires TotalOrder(newer) && 1 <= first && 1 <= |seen| && Quiet(seen, rows)
    requires all == Listing(After(rows, newer, after), newer) && Enough(|seen|, first, |all|)
    ensures Ends(seen, newer, first, after) && Walk(seen, newer, first, after) == all
    decreases |seen|
  {
    RestIsQuiet(seen, rows);
    if |all| > first {
      RestOfListing(rows, newer, after, first);
      MorePages(|seen|, first, |all|, |seen[1..]|, |all[first..]|);
      QuietWalk(rows, seen[1..], newer, first, Some(all[first - 1]), all[first..]);
      QuietStep(rows, seen, newer, first, after, all, all[first..]);
    } else {
      LastPage(rows, seen, newer, first, after, all);
    }
  }

  /** A full page, and then whatever the rest of the walk lists. */
  lemma QuietStep<K(!new)>(rows: set<K>, seen: seq<set<K>>, newer: (K, K) -> bool, first: nat, after: Option<K>,
          all: seq<K>, rest: seq<K>)
    requires TotalOrder(newer) && seen != [] && seen[0] == rows && all == Listing(After(rows, newer, after), newer)
    requires 1 <= first < |all| && rest == all[first..]
    requires Ends(seen[1..], newer, first, Some(all[first - 1]))
    requires Walk(seen[1..], newer, first, Some(all[first - 1])) == rest
    ensures Ends(seen, newer, first, after) && Walk(seen, newer, first, after) == all
  {
    assert HeadOf(rows, newer, first, after) == Head(all[..first], true);
    assert Last(all[..first]) == Some(all[first - 1]);
    WalkUnrolls(rows, seen, newer, first, after, all[..first]);
    SplitAt(all, first);
  }

  lemma LastPage<K(!new)>(rows: set<K>, seen: seq<set<K>>, newer: (K, K) -> bool, first: nat, after: Option<K>,
          all: seq<K>)
    requires TotalOrder(newer) && seen != [] && seen[0] == rows && all == Listing(After(rows, newer, after), newer)
    requires |all| <= first
    ensures Ends(seen, newer, first, after) && Walk(seen, newer, first, after) == all
  {
  }

  lemma RestIsQuiet<K(!new)>(seen: seq<set<K>>, rows: set<K>)
    requires seen != [] && Quiet(seen, rows)
    ensures seen[0] == rows && Quiet(seen[1..], rows)
  {
  }

  lemma SplitAt<K>(s: seq<K>, n: nat)
    requires n <= |s|
    ensures s == s[..n] + s[n..]
  {
  }

  lemma WalkUnrolls<K(!new)>(rows: set<K>, seen: seq<set<K>>, newer: (K, K) -> bool, first: nat, after: Option<K>,
          page: seq<K>)
    requires TotalOrder(newer) && seen != [] && seen[0] == rows && HeadOf(rows, newer, first, after) == Head(page, true)
    ensures Walk(seen, newer, first, after) == page + Walk(seen[1..], newer, first, Last(page))
    ensures Ends(seen, newer, first, after) == Ends(seen[1..], newer, first, Last(page))
  {
  }

  /** What follows the n-th row of a listing is the listing of what follows it. */
  lemma RestOfListing<K(!new)>(rows: set<K>, newer: (K, K) -> bool, after: Option<K>, n: nat)
    requires TotalOrder(newer) && 1 <= n <= |Listing(After(rows, newer, after), newer)|
    ensures var all := Listing(After(rows, newer, after), newer);
            Listing(After(rows, newer, Some(all[n - 1])), newer) == all[n..]
  {
    var all := Listing(After(rows, newer, after), newer);
    var rest := Listing(After(rows, newer, Some(all[n - 1])), newer);
    forall x ensures x in rest <==> x in all[n..] {
      FollowersAreListed(rows, newer, after, all[n - 1], x);
      if x in all { InTail(all, newer, n, x); }
    }
    SameDescending(rest, all[n..], newer);
  }

  lemma FollowersAreListed<K(!new)>(rows: set<K>, newer: (K, K) -> bool, after: Option<K>, last: K, x: K)
    requires TotalOrder(newer) && last in After(rows, newer, after)
    ensures x in After(rows, newer, Some(last)) ==> x in After(rows, newer, after)
  {
  }

  /** A listed row is past the n-th exactly if the n-th is newer. */
  lemma InTail<K(!new)>(all: seq<K>, newer: (K, K) -> bool, n: nat, x: K)
    requires TotalOrder(newer) && Descending(all, newer) && 1 <= n <= |all| && x in all
    ensures x in all[n..] <==> newer(all[n - 1], x)
  {
    var i :| 0 <= i < |all| && all[i] == x;
    if i >= n {
      assert all[n..][i - n] == x;
    } else {
      forall j | 0 <= j < |all[n..]| ensures all[n..][j] != x { assert newer(all[i], all[n + j]); }
    }
  }

  /** Two descending lists of the same rows are the same list. */
  lemma {:induction false} SameDescending<K(!new)>(s: seq<K>, t: seq<K>, newer: (K, K) -> bool)
    requires TotalOrder(newer) && Descending(s, newer) && Descending(t, newer) && forall x :: x in s <==> x in t
    ensures s == t
    decreases |s|
  {
    assert t != [] ==> t[0] in t;
    if s != [] {
      assert s[0] in s && s[0] in t && t[0] in s;
      HeadsAgree(s, t, newer);
      forall x ensures x in s[1..] <==> x in t[1..] {
        TailHas(s, newer, x);
        TailHas(t, newer, x);
      }
      SameDescending(s[1..], t[1..], newer);
      assert s == [s[0]] + s[1..] && t == [t[0]] + t[1..];
    }
  }

  lemma HeadsAgree<K(!new)>(s: seq<K>, t: seq<K>, newer: (K, K) -> bool)
    requires TotalOrder(newer) && s != [] && t != [] && Descending(s, newer) && Descending(t, newer) && s[0] in t
    requires t[0] in s
    ensures s[0] == t[0]
  {
    var i :| 0 <= i < |s| && s[i] == t[0];
    var j :| 0 <= j < |t| && t[j] == s[0];
  }

  lemma TailHas<K(!new)>(s: seq<K>, newer: (K, K) -> bool, x: K)
    requires TotalOrder(newer) && s != [] && Descending(s, newer)
    ensures x in s[1..] <==> x in s && x != s[0]
  {
    if x in s && x != s[0] {
      var i :| 0 <= i < |s| && s[i] == x;
      assert s[1..][i - 1] == x;
    }
    assert x in s[1..] ==> newer(s[0], x);
  }
}
