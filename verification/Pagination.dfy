/** The paginated audit log of api/logging.py: one page, and the walk along `next_since`. */
module Pagination {
  import opened Common

  const EFFECTIVE_BUDGET := 79488
  const LIMIT_MIN := 1
  const LIMIT_MAX := 500

  /** An audit event: its id, the length of its encoding, and whether the filters keep it. */
  datatype Row = Row(id: nat, size: nat, kept: bool)

  datatype Page = Page(events: seq<Row>, next: Option<nat>, oversized: bool)

  /** Event ids are handed out in ascending order. */
  ghost predicate Ascending(log: seq<Row>) {
    forall i, j :: 0 <= i < j < |log| ==> log[i].id < log[j].id
  }

  /** The WHERE and ORDER BY of the query: the kept events from `since` on. */
  function Matching(log: seq<Row>, since: nat): seq<Row> {
    if log == [] then []
    else if log[0].kept && log[0].id >= since then [log[0]] + Matching(log[1..], since)
    else Matching(log[1..], since)
  }

  function Clamp(limit: int): (r: nat)
    ensures LIMIT_MIN <= r <= LIMIT_MAX
    ensures r == limit || (limit < LIMIT_MIN && r == LIMIT_MIN) || (limit > LIMIT_MAX && r == LIMIT_MAX)
  {
    if limit < LIMIT_MIN then LIMIT_MIN else if limit > LIMIT_MAX then LIMIT_MAX else limit
  }

  function Query(log: seq<Row>, since: nat, limit: int): seq<Row> {
    var rows := Matching(log, since);
    if |rows| <= Clamp(limit) then rows else rows[..Clamp(limit)]
  }

  /** The rows asked for are the front of those that match, as many as the limit allows. */
  lemma QueryExactly(log: seq<Row>, since: nat, limit: int)
    ensures Query(log, since, limit) <= Matching(log, since)
    ensures |Query(log, since, limit)| <= Clamp(limit)
    ensures |Query(log, since, limit)| < Clamp(limit) ==> Query(log, since, limit) == Matching(log, since)
  {
  }

  function Total(rows: seq<Row>): nat {
    if rows == [] then 0 else Total(rows[..|rows| - 1]) + rows[|rows| - 1].size
  }

  /** What makes it the total. */
  lemma {:induction false} TotalSplits(a: seq<Row>, b: seq<Row>)
    ensures Total([]) == 0 && forall r :: Total([r]) == r.size
    ensures Total(a + b) == Total(a) + Total(b)
    decreases |b|
  {
    forall r: Row
      ensures Total([r]) == r.size
    {
      assert [r][..0] == [];
    }
    if b == [] {
      assert a + [] == a;
    } else {
      TotalSplits(a, b[..|b| - 1]);
      assert (a + b)[..|a + b| - 1] == a + b[..|b| - 1];
    }
  }

  /** The page loop with its `else`, and the rule that an event too large for any page is
      sent alone. */
  method PageOf(rows: seq<Row>, limit: nat) returns (page: Page)
    requires 1 <= limit && |rows| <= limit && Ascending(rows)
    ensures GoodPage(rows, limit, page)
  {
    var events, used, next, i := [], 0, None, 0;
    while i < |rows| && next == None
      invariant i <= |rows| && used == Total(rows[..i]) && used <= EFFECTIVE_BUDGET
      invariant events == rows[..i] && (i > 0 ==> rows[0].size <= EFFECTIVE_BUDGET)
      invariant next.Some? ==> i < |rows| && next == Some(rows[i].id) && Total(rows[..i + 1]) > EFFECTIVE_BUDGET
      decreases |rows| - i, next == None
    {
      assert rows[..i + 1][..i] == rows[..i];
      if used + rows[i].size > EFFECTIVE_BUDGET {
        next := Some(rows[i].id);
      } else {
        events, used := events + [rows[i]], used + rows[i].size;
        i := i + 1;
      }
    }
    if next == None && |rows| == limit && events != [] {
      next := Some(events[|events| - 1].id + 1);
    }
    var oversized := false;
    assert rows != [] ==> rows[..1] == [rows[0]] && Total(rows[..1]) == rows[0].size;
    if events == [] && rows != [] {
      events, oversized, next := [rows[0]], true, Some(rows[0].id + 1);
    }
    page := Page(events, next, oversized);
  }

  /** What a page promises of the rows it was made from: it is a prefix of them, not empty
      unless they are, cut short only where the next event would not fit, within the budget
      unless it is one oversized event, and `next` is where the rest begins. */
  ghost predicate GoodPage(rows: seq<Row>, limit: nat, page: Page) {
    && page.events <= rows && (rows != [] ==> page.events != [])
    && (page.oversized <==> rows != [] && rows[0].size > EFFECTIVE_BUDGET)
    && (if page.oversized then |page.events| == 1 else Total(page.events) <= EFFECTIVE_BUDGET)
    && (|page.events| < |rows| && !page.oversized ==> Total(rows[..|page.events| + 1]) > EFFECTIVE_BUDGET)
    && (page.next == None <==> page.events == rows && |rows| < limit && !page.oversized)
    && (page.next.Some? ==> page.events != [] && page.events[|page.events| - 1].id < page.next.value)
    && (page.next.Some? && |page.events| < |rows| && !page.oversized ==> page.next == Some(rows[|page.events|].id))
    && (page.next.Some? && (|page.events| == |rows| || page.oversized) ==>
        page.next == Some(page.events[|page.events| - 1].id + 1))
  }

  // ----- the query --------------------------------------------------------------------------------

  lemma {:induction false} MatchingExactly(log: seq<Row>, since: nat)
    requires Ascending(log)
    ensures Ascending(Matching(log, since))
    ensures forall r :: r in Matching(log, since) <==> r in log && r.kept && r.id >= since
  {
    if log != [] {
      assert Ascending(log[1..]);
      MatchingExactly(log[1..], since);
      assert forall r :: r in log <==> r == log[0] || r in log[1..];
      forall r | r in log[1..]
        ensures log[0].id < r.id
      {
        var i :| 0 <= i < |log[1..]| && log[1..][i] == r;
        assert log[i + 1] == r;
      }
      var m := Matching(log[1..], since);
      assert forall i :: 0 <= i < |m| ==> m[i] in log[1..];
    }
  }

  /** What one page says about the whole log: it carries exactly the kept events between the
      cursor it was asked for and the cursor it hands on, in order. */
  ghost predicate Covers(log: seq<Row>, since: nat, page: Page) {
    && Ascending(page.events)
    && (forall r <- page.events :: r in log && r.kept && since <= r.id)
    && (page.next == None ==> forall r <- log :: r.kept && since <= r.id ==> r in page.events)
    && (page.next.Some? ==>
          && since < page.next.value && page.events != []
          && (forall r <- page.events :: r.id < page.next.value)
          && (forall r <- log :: r.kept && since <= r.id < page.next.value ==> r in page.events))
  }

  lemma CutCovers(all: seq<Row>, n: nat, next: nat)
    requires Ascending(all) && 0 < n <= |all|
    requires n < |all| ==> next <= all[n].id
    ensures forall r <- all :: r.id < next ==> r in all[..n]
  {
    assert forall i :: n <= i < |all| ==> all[n].id <= all[i].id;
    forall r <- all | r.id < next
      ensures r in all[..n]
    {
      var i :| 0 <= i < |all| && all[i] == r;
      assert i < n;
      assert all[..n][i] == r;
    }
  }

  lemma NextFits(all: seq<Row>, limit: nat, page: Page)
    requires Ascending(all) && 1 <= limit && GoodPage(if |all| <= limit then all else all[..limit], limit, page)
             && page.next.Some?
    ensures var n := |page.events|;
            0 < n <= |all| && page.events == all[..n] && (n < |all| ==> page.next.value <= all[n].id)
    ensures forall r <- page.events :: r.id < page.next.value
  {
    var n := |page.events|;
    forall r <- page.events
      ensures r.id < page.next.value
    {
      var i :| 0 <= i < n && page.events[i] == r;
      assert page.events[i] == all[i] && page.events[n - 1] == all[n - 1];
    }
  }

  lemma PagePrefix(all: seq<Row>, limit: nat, page: Page)
    requires 1 <= limit && GoodPage(if |all| <= limit then all else all[..limit], limit, page)
    ensures |page.events| <= |all| && page.events == all[..|page.events|]
    ensures page.next == None ==> page.events == all
  {
  }

  lemma PageCovers(log: seq<Row>, since: nat, limit: int, page: Page)
    requires Ascending(log) && GoodPage(Query(log, since, limit), Clamp(limit), page)
    ensures Covers(log, since, page)
  {
    MatchingExactly(log, since);
    var all, n := Matching(log, since), |page.events|;
    PagePrefix(all, Clamp(limit), page);
    if page.next.Some? {
      NextFits(all, Clamp(limit), page);
    }
    PrefixCovers(log, since, all, n, page);
  }

  lemma PrefixCovers(log: seq<Row>, since: nat, all: seq<Row>, n: nat, page: Page)
    requires Ascending(all) && forall r :: r in all <==> r in log && r.kept && since <= r.id
    requires n <= |all| && page.events == all[..n] && (page.next == None ==> n == |all|)
    requires page.next.Some? ==>
             0 < n && (n < |all| ==> page.next.value <= all[n].id) && forall r <- page.events :: r.id < page.next.value
    ensures Covers(log, since, page)
  {
    assert forall r <- all[..n] :: r in all;
    if page.next.Some? {
      CutCovers(all, n, page.next.value);
      assert page.events[0] in page.events;
    } else {
      assert all[..n] == all;
    }
  }

  /** One request. */
  method GetLogging(log: seq<Row>, since: nat, limit: int) returns (page: Page)
    requires Ascending(log)
    ensures GoodPage(Query(log, since, limit), Clamp(limit), page) && Covers(log, since, page)
  {
    MatchingExactly(log, since);
    page := PageOf(Query(log, since, limit), Clamp(limit));
    PageCovers(log, since, limit, page);
  }

  // ----- the walk -----------------------------------------------------------------------------------

  /** A walk: page after page, each covering the log as it is then, following the cursor
      until it is gone or the log is not asked again. */
  ghost predicate Walk(logs: seq<seq<Row>>, since: nat, pages: seq<Page>)
    decreases |pages|
  {
    && |logs| == |pages|
    && (pages != [] ==>
          && Covers(logs[0], since, pages[0])
          && (if pages[0].next == None then |pages| == 1 else Walk(logs[1..], pages[0].next.value, pages[1..])))
  }

  /** The log only grows at its end. */
  ghost predicate Appending(logs: seq<seq<Row>>) {
    && (forall i :: 0 <= i < |logs| ==> Ascending(logs[i]))
    && forall i, j :: 0 <= i < j < |logs| ==> logs[i] <= logs[j]
  }

  function Visited(pages: seq<Page>): seq<Row> {
    if pages == [] then [] else pages[0].events + Visited(pages[1..])
  }

  predicate Finished(pages: seq<Page>) {
    pages != [] && pages[|pages| - 1].next == None
  }

  lemma AscendingConcat(a: seq<Row>, b: seq<Row>)
    requires Ascending(a) && Ascending(b) && forall x <- a, y <- b :: x.id < y.id
    ensures Ascending(a + b)
  {
    var s := a + b;
    forall i, j | 0 <= i < j < |s|
      ensures s[i].id < s[j].id
    {
      if i < |a| <= j {
        assert s[i] in a && s[j] in b;
      }
    }
  }

  lemma TailAppending(logs: seq<seq<Row>>)
    requires Appending(logs) && logs != []
    ensures Appending(logs[1..]) && forall j :: 0 <= j < |logs[1..]| ==> logs[0] <= logs[1..][j]
  {
  }

  /** Following the cursor visits events in ascending order, each at most once, none below
      the cursor it started from, and only kept events of the log as it is at the end. */
  lemma {:induction false} WalkAscends(logs: seq<seq<Row>>, since: nat, pages: seq<Page>, end: seq<Row>)
    requires Walk(logs, since, pages) && Appending(logs) && forall i :: 0 <= i < |logs| ==> logs[i] <= end
    ensures Ascending(Visited(pages))
    ensures forall r <- Visited(pages) :: r.kept && since <= r.id && r in end
    decreases |pages|
  {
    if pages != [] {
      assert forall r <- logs[0] :: r in end;
      if pages[0].next.Some? {
        TailAppending(logs);
        WalkAscends(logs[1..], pages[0].next.value, pages[1..], end);
        AscendingConcat(pages[0].events, Visited(pages[1..]));
      } else {
        assert pages[1..] == [];
        assert pages[0].events + [] == pages[0].events;
      }
    }
  }

  /** Whatever is appended meanwhile, a finished walk has visited every kept event, from the
      starting cursor on, that was there when it began. */
  lemma {:induction false} WalkMissesNothing(logs: seq<seq<Row>>, since: nat, pages: seq<Page>, r: Row)
    requires Walk(logs, since, pages) && Appending(logs) && Finished(pages)
    requires r in logs[0] && r.kept && since <= r.id
    ensures r in Visited(pages)
    decreases |pages|
  {
    if r !in pages[0].events {
      TailAppending(logs);
      assert logs[0] <= logs[1..][0];
      var i :| 0 <= i < |logs[0]| && logs[0][i] == r;
      assert logs[1..][0][i] == r;
      WalkMissesNothing(logs[1..], pages[0].next.value, pages[1..], r);
    }
  }

  /** On a log that does not change the loop ends, and what it has visited is exactly what
      the filters keep, once each, in ascending order. */
  method WalkAll(log: seq<Row>, since: nat, limit: int) returns (pages: seq<Page>)
    requires Ascending(log)
    ensures Finished(pages) && Walk(seq(|pages|, i => log), since, pages)
    ensures Visited(pages) == Matching(log, since)
    decreases |Matching(log, since)|
  {
    var page := GetLogging(log, since, limit);
    if page.next == None {
      pages := [page];
      assert Visited(pages) == page.events + [];
    } else {
      Onwards(log, since, page);
      var more := WalkAll(log, page.next.value, limit);
      pages := [page] + more;
      assert pages[1..] == more;
      assert seq(|pages|, i => log)[1..] == seq(|more|, i => log);
    }
  }

  lemma HasMember(rows: seq<Row>)
    requires rows != []
    ensures exists r :: r in rows
  {
    assert rows[0] in rows;
  }

  lemma SameIds(a: seq<Row>, b: seq<Row>)
    requires Ascending(a) && Ascending(b) && forall r :: r in a <==> r in b
    ensures a == b
    decreases |a|
  {
    if a == [] {
      if b != [] {
        HasMember(b);
      }
    } else {
      assert a[0] in b;
      assert b[0] in a;
      assert a[0] == b[0];
      forall r
        ensures r in a[1..] <==> r in b[1..]
      {
        if r in a[1..] {
          var i :| 0 <= i < |a[1..]| && a[1..][i] == r;
          assert a[i + 1] == r && r in b;
          var j :| 0 <= j < |b| && b[j] == r;
          assert j > 0 && b[1..][j - 1] == r;
        }
        if r in b[1..] {
          var i :| 0 <= i < |b[1..]| && b[1..][i] == r;
          assert b[i + 1] == r && r in a;
          var j :| 0 <= j < |a| && a[j] == r;
          assert j > 0 && a[1..][j - 1] == r;
        }
      }
      SameIds(a[1..], b[1..]);
    }
  }

  /** The next cursor leaves exactly the rest, which is shorter. */
  lemma Onwards(log: seq<Row>, since: nat, page: Page)
    requires Ascending(log) && Covers(log, since, page) && page.next.Some?
    ensures Matching(log, since) == page.events + Matching(log, page.next.value)
    ensures |Matching(log, page.next.value)| < |Matching(log, since)|
  {
    MatchingExactly(log, since);
    MatchingExactly(log, page.next.value);
    AscendingConcat(page.events, Matching(log, page.next.value));
    SameIds(Matching(log, since), page.events + Matching(log, page.next.value));
  }
}
