/** Forward pages of an owner's transactions by keyset cursor, and what following the end cursors lists. */
module Pagination {
  import opened Wrappers
  import opened Cursor
  import opened Keyset
  import Recurrence

  const MAX_PAGE_SIZE := 100

  // ---------------------------------------------------------------- the order of the timeline

  /** Lexicographic order on lists of the same length. */
  predicate Less(a: seq<nat>, b: seq<nat>)
    requires |a| == |b|
    decreases |a|
  {
    a != [] && (a[0] < b[0] || (a[0] == b[0] && Less(a[1..], b[1..])))
  }

  lemma {:induction false} LessTransitive(a: seq<nat>, b: seq<nat>, c: seq<nat>)
    requires |a| == |b| == |c| && Less(a, b) && Less(b, c)
    ensures Less(a, c)
    decreases |a|
  {
    if a[0] == b[0] == c[0] { LessTransitive(a[1..], b[1..], c[1..]); }
  }

  lemma {:induction false} LessTotal(a: seq<nat>, b: seq<nat>)
    requires |a| == |b|
    ensures Less(a, b) || Less(b, a) || a == b
    ensures !(Less(a, b) && Less(b, a)) && !Less(a, a)
    decreases |a|
  {
    if a != [] {
      LessTotal(a[1..], b[1..]);
      if a[0] == b[0] && a[1..] == b[1..] { assert a == [a[0]] + a[1..] && b == [b[0]] + b[1..]; }
    }
  }

  /** The sort columns of a row: its date, then its id. */
  type Key = TransactionCursor

  function Columns(k: Key): (s: seq<nat>)
    ensures |s| == 12
  {
    DateTime(k.at) + [k.at.micro] + k.id.Groups()
  }

  /** Row `a` is listed before row `b`: it is later, or as late with a greater id. */
  predicate Newer(a: Key, b: Key) { Less(Columns(b), Columns(a)) }

  lemma ColumnsDetermine(a: Key, b: Key)
    requires Columns(a) == Columns(b)
    ensures a == b
  {
    assert Columns(a)[0] == a.at.year && Columns(a)[1] == a.at.month && Columns(a)[2] == a.at.day
        && Columns(a)[3] == a.at.hour;
    assert Columns(a)[4] == a.at.minute && Columns(a)[5] == a.at.second && Columns(a)[6] == a.at.micro;
    assert Columns(a)[7] == a.id.a && Columns(a)[8] == a.id.b && Columns(a)[9] == a.id.c && Columns(a)[10] == a.id.d
        && Columns(a)[11] == a.id.e;
  }

  lemma NewerIsTotal()
    ensures TotalOrder(Newer)
  {
    forall a, b ensures (Newer(a, b) || Newer(b, a) || a == b) && (Newer(a, b) ==> !Newer(b, a)) {
      LessTotal(Columns(a), Columns(b));
      if Columns(a) == Columns(b) { ColumnsDetermine(a, b); }
    }
    forall a, b, c | Newer(a, b) && Newer(b, c) ensures Newer(a, c) {
      LessTransitive(Columns(c), Columns(b), Columns(a));
    }
  }

  /** The id is greater, group by group of its text. */
  predicate GreaterId(i: Id, j: Id)
  {
    || i.a > j.a
    || (i.a == j.a && (|| i.b > j.b
                       || (i.b == j.b && (|| i.c > j.c
                                          || (i.c == j.c && (i.d > j.d || (i.d == j.d && i.e > j.e)))))))
  }

  /** The columns of a row in full. */
  lemma NewerColumns(a: Key, b: Key)
    ensures Newer(a, b) <==>
              || Less(Columns(b)[..7], Columns(a)[..7])
              || (Columns(a)[..7] == Columns(b)[..7] && GreaterId(a.id, b.id))
  {
    LessSplits(Columns(b), Columns(a), 7);
    assert Columns(a)[7..] == a.id.Groups() && Columns(b)[7..] == b.id.Groups();
    LessOfFive(b.id.Groups(), a.id.Groups());
  }

  lemma LessOfFive(a: seq<nat>, b: seq<nat>)
    requires |a| == |b| == 5
    ensures Less(a, b) <==> GreaterId(Id(b[0], b[1], b[2], b[3], b[4]), Id(a[0], a[1], a[2], a[3], a[4]))
  {
    assert a[1..][1..] == a[2..] && b[1..][1..] == b[2..];
    assert a[2..][1..] == a[3..] && b[2..][1..] == b[3..];
    assert a[3..][1..] == a[4..] && b[3..][1..] == b[4..];
    assert a[4..][1..] == [] && b[4..][1..] == [];
    assert Less(a[4..], b[4..]) <==> a[4] < b[4];
    assert Less(a[3..], b[3..]) <==> a[3] < b[3] || (a[3] == b[3] && Less(a[4..], b[4..]));
    assert Less(a[2..], b[2..]) <==> a[2] < b[2] || (a[2] == b[2] && Less(a[3..], b[3..]));
  }

  lemma {:induction false} LessSplits(a: seq<nat>, b: seq<nat>, n: nat)
    requires |a| == |b| && n <= |a|
    ensures Less(a, b) <==> Less(a[..n], b[..n]) || (a[..n] == b[..n] && Less(a[n..], b[n..]))
  {
    if n == 0 {
      assert a[0..] == a && b[0..] == b;
    } else {
      LessSplits(a[1..], b[1..], n - 1);
      assert a[..n][1..] == a[1..][..n - 1] && b[..n][1..] == b[1..][..n - 1];
      assert a[1..][n - 1..] == a[n..] && b[1..][n - 1..] == b[n..];
      assert a[..n] == [a[0]] + a[1..][..n - 1] && b[..n] == [b[0]] + b[1..][..n - 1];
    }
  }

  /** A row is listed before another exactly if its moment is later, or the same with the greater id. */
  lemma NewerIff(a: Key, b: Key)
    requires a.Valid() && b.Valid()
    ensures Newer(a, b) <==> Instant(a.at) > Instant(b.at) || (Instant(a.at) == Instant(b.at) && GreaterId(a.id, b.id))
  {
    NewerColumns(a, b);
    var x, y := Columns(a)[..7], Columns(b)[..7];
    LessTotal(x, y);
    if Less(x, y) { LessStamp(a, b); } else if Less(y, x) { LessStamp(b, a); } else { SameStamp(a, b); }
  }

  lemma SameStamp(a: Key, b: Key)
    requires Columns(a)[..7] == Columns(b)[..7]
    ensures a.at == b.at
  {
    assert forall i :: 0 <= i < 7 ==> Columns(a)[..7][i] == Columns(a)[i] && Columns(b)[..7][i] == Columns(b)[i];
    assert Columns(a)[0] == a.at.year && Columns(a)[1] == a.at.month && Columns(a)[2] == a.at.day
        && Columns(a)[3] == a.at.hour;
    assert Columns(a)[4] == a.at.minute && Columns(a)[5] == a.at.second && Columns(a)[6] == a.at.micro;
  }

  lemma LessStamp(a: Key, b: Key)
    requires a.Valid() && b.Valid() && Less(Columns(a)[..7], Columns(b)[..7])
    ensures Instant(a.at) < Instant(b.at)
  {
    var x, y := Columns(a)[..7], Columns(b)[..7];
    var d, e := DateOf(a.at), DateOf(b.at);
    LessSplits(x, y, 3);
    assert x[..3] == [d.year, d.month, d.day] && y[..3] == [e.year, e.month, e.day];
    assert x[3..] == [a.at.hour, a.at.minute, a.at.second, a.at.micro];
    assert y[3..] == [b.at.hour, b.at.minute, b.at.second, b.at.micro];
    TimeRoundTrip(a.at);
    TimeRoundTrip(b.at);
    if Less(x[..3], y[..3]) {
      LessDate(d, e);
      Recurrence.LaterIsMore(d, e);
    } else {
      assert d.year == x[..3][0] == e.year && d.month == x[..3][1] == e.month && d.day == x[..3][2] == e.day;
      LessTime(a.at, b.at);
    }
  }

  lemma LessDate(d: Recurrence.Date, e: Recurrence.Date)
    requires 0 <= d.year && 0 <= d.month && 0 <= d.day && 0 <= e.year && 0 <= e.month && 0 <= e.day
    requires Less([d.year, d.month, d.day], [e.year, e.month, e.day])
    ensures Recurrence.Before(d, e)
  {
    LessOfThree(d.year, d.month, d.day, e.year, e.month, e.day);
  }

  lemma LessOfTwo(a: nat, b: nat, c: nat, d: nat)
    ensures Less([a, b], [c, d]) <==> a < c || (a == c && b < d)
  {
    assert [a, b][1..] == [b] && [c, d][1..] == [d];
    assert Less([b], [d]) <==> b < d;
  }

  lemma LessOfThree(a: nat, b: nat, c: nat, d: nat, e: nat, f: nat)
    ensures Less([a, b, c], [d, e, f]) <==> a < d || (a == d && (b < e || (b == e && c < f)))
  {
    assert [a, b, c][1..] == [b, c] && [d, e, f][1..] == [e, f];
    LessOfTwo(b, c, e, f);
  }

  lemma LessTime(s: Stamp, u: Stamp)
    requires s.Valid() && u.Valid()
    requires Less([s.hour, s.minute, s.second, s.micro], [u.hour, u.minute, u.second, u.micro])
    ensures TimeOfDay(s) < TimeOfDay(u)
  {
    var x, y := [s.hour, s.minute, s.second, s.micro], [u.hour, u.minute, u.second, u.micro];
    assert x[1..] == [s.minute, s.second, s.micro] && y[1..] == [u.minute, u.second, u.micro];
    LessOfThree(s.minute, s.second, s.micro, u.minute, u.second, u.micro);
  }

  // ---------------------------------------------------------------- the service

  datatype Error = InvalidPageSize | InvalidCursor

  datatype Page = Page(rows: seq<Key>, hasNext: bool, endCursor: Option<string>)

  ghost function PageOf(head: Head<Key>): Page
  {
    Page(head.rows, head.hasNext, match Last(head.rows) case None => None case Some(key) => Encode(key))
  }

  ghost function ListTransactions(rows: set<Key>, first: int, after: Option<string>): Result<Page, Error>
  {
    NewerIsTotal();
    if first < 1 || first > MAX_PAGE_SIZE then Failure(InvalidPageSize)
    else if after.None? then Success(PageOf(Fetch(rows, Newer, first, None)))
    else
      match Decode(after.value)
      case None => Failure(InvalidCursor)
      case Some(key) => Success(PageOf(Fetch(rows, Newer, first, Some(key))))
  }

  /** A request is refused exactly for a page size outside 1 to 100 or a cursor that does not decode. */
  lemma PageSucceedsIff(rows: set<Key>, first: int, after: Option<string>)
    ensures ListTransactions(rows, first, after).Success? <==>
              1 <= first <= 100 && (after.Some? ==> Decode(after.value).Some?)
  {
    NewerIsTotal();
  }

  ghost function LaterRows(rows: set<Key>, key: Option<Key>): set<Key>
  {
    set x | x in rows && (key.None? || Newer(key.value, x))
  }

  lemma LaterRowsAreAfter(rows: set<Key>, key: Option<Key>)
    ensures LaterRows(rows, key) == After(rows, Newer, key)
  {
  }

  /** A page holds the newest rows after the cursor's row, as many as fit, and says whether any is left. */
  lemma PageIsNewest(rows: set<Key>, first: int, after: Option<string>, key: Option<Key>)
    requires 1 <= first <= 100
    requires if after.None? then key.None? else key.Some? && Decode(after.value) == key
    ensures ListTransactions(rows, first, after).Success?
    ensures var page := ListTransactions(rows, first, after).value;
            Newest(Head(page.rows, page.hasNext), LaterRows(rows, key), Newer, first)
  {
    PageByKey(rows, first, after, key);
    LaterRowsAreAfter(rows, key);
    CutIsNewest(After(rows, Newer, key), Newer, first);
  }

  /** The rows of all pages when the request for page i sees `seen[i]` and passes the end cursor of the page before. */
  ghost function Timeline(seen: seq<set<Key>>, first: int, after: Option<string>): seq<Key>
    decreases |seen|
  {
    if seen == [] then []
    else
      match ListTransactions(seen[0], first, after)
      case Failure(_) => []
      case Success(page) => page.rows + if page.hasNext then Timeline(seen[1..], first, page.endCursor) else []
  }

  /** The requests got to a page without a successor. */
  ghost predicate Finished(seen: seq<set<Key>>, first: int, after: Option<string>)
    decreases |seen|
  {
    seen != [] &&
    match ListTransactions(seen[0], first, after)
    case Failure(_) => false
    case Success(page) => page.hasNext ==> Finished(seen[1..], first, page.endCursor)
  }

  ghost predicate AllValid(seen: seq<set<Key>>) { forall i, x :: 0 <= i < |seen| && x in seen[i] ==> x.Valid() }

  /** A request's cursor is absent or decodes to `key`. */
  ghost predicate Resumes(after: Option<string>, key: Option<Key>)
  {
    if after.None? then key.None? else key.Some? && Decode(after.value) == key
  }

  lemma NextResumes(head: Head<Key>)
    requires forall x :: x in head.rows ==> x.Valid()
    ensures Resumes(PageOf(head).endCursor, Last(head.rows))
  {
    if head.rows == [] {
      assert PageOf(head).endCursor == None && Last(head.rows) == None;
    } else {
      var key := head.rows[|head.rows| - 1];
      CursorRoundTrip(key);
      assert PageOf(head).endCursor == Encode(key) && Last(head.rows) == Some(key);
      assert Resumes(PageOf(head).endCursor, Last(head.rows));
    }
  }

  lemma PageByKey(rows: set<Key>, first: int, after: Option<string>, key: Option<Key>)
    requires 1 <= first <= MAX_PAGE_SIZE && Resumes(after, key)
    ensures TotalOrder(Newer)
    ensures ListTransactions(rows, first, after) == Success(PageOf(HeadOf(rows, Newer, first, key)))
  {
    NewerIsTotal();
    FetchIsHead(rows, Newer, first, key);
  }

  /** Walking by cursor text is walking by key: the codec loses nothing. */
  lemma {:induction false} TimelineIsWalk(seen: seq<set<Key>>, first: int, after: Option<string>, key: Option<Key>)
    requires AllValid(seen) && 1 <= first <= MAX_PAGE_SIZE && Resumes(after, key) && TotalOrder(Newer)
    ensures Timeline(seen, first, after) == Walk(seen, Newer, first, key)
    ensures Finished(seen, first, after) == Ends(seen, Newer, first, key)
    decreases |seen|
  {
    if seen != [] {
      var head := HeadOf(seen[0], Newer, first, key);
      FirstPage(seen[0], first, after, key);
      TimelineIsWalk(seen[1..], first, PageOf(head).endCursor, Last(head.rows));
    }
  }

  /** One request, and that the next one resumes where it ended. */
  lemma FirstPage(rows: set<Key>, first: int, after: Option<string>, key: Option<Key>)
    requires (forall x :: x in rows ==> x.Valid()) && 1 <= first <= MAX_PAGE_SIZE && Resumes(after, key)
    requires TotalOrder(Newer)
    ensures var head := HeadOf(rows, Newer, first, key);
            && ListTransactions(rows, first, after) == Success(PageOf(head))
            && Resumes(PageOf(head).endCursor, Last(head.rows))
  {
    PageByKey(rows, first, after, key);
    HeadIsListed(rows, Newer, first, key);
    NextResumes(HeadOf(rows, Newer, first, key));
  }

  /**
   * Whatever is inserted or deleted between the requests, following the end cursors lists rows in
   * descending order, no row twice, and only rows that some request saw.
   */
  lemma TimelineNeverRepeats(seen: seq<set<Key>>, first: int)
    requires AllValid(seen) && 1 <= first <= MAX_PAGE_SIZE
    ensures var rows := Timeline(seen, first, None);
            && Descending(rows, Newer)
            && (forall x :: x in rows ==> exists i :: 0 <= i < |seen| && x in seen[i])
            && forall i, j :: 0 <= i < j < |rows| ==> rows[i] != rows[j]
  {
    NewerIsTotal();
    TimelineIsWalk(seen, first, None, None);
    WalkDescends(seen, Newer, first, None);
    var rows := Timeline(seen, first, None);
    forall x | x in rows ensures exists i :: 0 <= i < |seen| && x in seen[i] { assert Listed(seen, Newer, None, x); }
    forall i, j | 0 <= i < j < |rows| ensures rows[i] != rows[j] { assert Newer(rows[i], rows[j]); }
  }

  /** A finished walk skips no row that was there at each of its requests, whatever was inserted meanwhile. */
  lemma TimelineNeverSkips(seen: seq<set<Key>>, first: int, x: Key)
    requires AllValid(seen) && 1 <= first <= MAX_PAGE_SIZE && Finished(seen, first, None)
    requires forall i :: 0 <= i < |seen| ==> x in seen[i]
    ensures x in Timeline(seen, first, None)
  {
    NewerIsTotal();
    TimelineIsWalk(seen, first, None, None);
    WalkCovers(seen, Newer, first, None, x);
  }

  /** With nothing changing, the walk ends within the number of pages and lists every row once, newest first. */
  lemma TimelineIsComplete(rows: set<Key>, seen: seq<set<Key>>, first: int)
    requires (forall x :: x in rows ==> x.Valid()) && 1 <= first <= MAX_PAGE_SIZE
    requires 1 <= |seen| && Quiet(seen, rows) && |rows| <= |seen| * first
    ensures Finished(seen, first, None)
    ensures var listed := Timeline(seen, first, None);
              Descending(listed, Newer) && |listed| == |rows| && forall x :: x in listed <==> x in rows
  {
    NewerIsTotal();
    assert After(rows, Newer, None) == rows;
    TimelineIsWalk(seen, first, None, None);
    EnoughPages(|seen|, first, |rows|);
    QuietWalk(rows, seen, Newer, first, None, Listing(rows, Newer));
  }
}
