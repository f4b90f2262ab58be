/** Reading a whole filtered timeline one page at a time. */
module Paging {
  import opened Common
  import opened Types
  import opened Filtering

  /** A zero or empty field does not filter; both time bounds are inclusive. */
  datatype Filter = Filter(owner: string, repo: string, kind: string, from: int, to: int)

  const RUN_QUERY_PER_PAGE: nat := 500

  predicate Matches(f: Filter, e: Event) {
    && (f.owner == "" || e.owner == f.owner)
    && (f.repo == "" || e.repo == f.repo)
    && (f.kind == "" || e.kind == f.kind)
    && (f.from <= 0 || e.ts >= f.from)
    && (f.to <= 0 || e.ts <= f.to)
  }

  /** The stored rows that match, in the order of the rows. */
  function Matching(rows: seq<Event>, f: Filter): seq<Event> {
    if rows == [] then []
    else
      var front, last := Matching(rows[..|rows| - 1], f), rows[|rows| - 1];
      if Matches(f, last) then front + [last] else front
  }

  ghost predicate NewestFirst(rows: seq<Event>) {
    forall i, j :: 0 <= i < j < |rows| ==> rows[i].ts >= rows[j].ts
  }

  lemma {:induction false} MatchingCounts(rows: seq<Event>, f: Filter, e: Event)
    ensures multiset(Matching(rows, f))[e] == if Matches(f, e) then multiset(rows)[e] else 0
  {
    hide Matches;
    if rows != [] {
      var front, last := rows[..|rows| - 1], rows[|rows| - 1];
      assert rows == front + [last];
      MatchingCounts(front, f, e);
    }
  }

  lemma {:induction false} MatchingFromRows(rows: seq<Event>, f: Filter, e: Event) returns (i: nat)
    requires e in Matching(rows, f)
    ensures i < |rows| && rows[i] == e
  {
    hide Matches;
    var front, last := rows[..|rows| - 1], rows[|rows| - 1];
    if e in Matching(front, f) {
      i := MatchingFromRows(front, f, e);
    } else {
      i := |rows| - 1;
    }
  }

  lemma {:induction false} MatchingSorted(rows: seq<Event>, f: Filter)
    requires NewestFirst(rows)
    ensures NewestFirst(Matching(rows, f))
  {
    hide Matches;
    if rows != [] {
      var front, last := rows[..|rows| - 1], rows[|rows| - 1];
      MatchingSorted(front, f);
      var found := Matching(front, f);
      forall i | 0 <= i < |found|
        ensures found[i].ts >= last.ts
      {
        var j := MatchingFromRows(front, f, found[i]);
        assert rows[j] == found[i];
      }
    }
  }

  /** Nothing but the matching rows, each as often as it is stored, still newest first. */
  lemma MatchingIsExact(rows: seq<Event>, f: Filter)
    ensures forall e :: multiset(Matching(rows, f))[e] == if Matches(f, e) then multiset(rows)[e] else 0
    ensures NewestFirst(rows) ==> NewestFirst(Matching(rows, f))
    ensures forall e :: e in Matching(rows, f) ==> e in rows
  {
    forall e
      ensures multiset(Matching(rows, f))[e] == if Matches(f, e) then multiset(rows)[e] else 0
    {
      MatchingCounts(rows, f, e);
    }
    if NewestFirst(rows) { MatchingSorted(rows, f); }
    hide Matching;
    forall e | e in Matching(rows, f)
      ensures e in rows
    {
      var i := MatchingFromRows(rows, f, e);
    }
  }

  lemma {:induction false} NarrowedBy(rows: seq<Event>, f: Filter, g: Filter, such: Event -> bool)
    requires forall e :: Matches(f, e) <==> Matches(g, e) && such(e)
    ensures Matching(rows, f) == Where(Matching(rows, g), such)
  {
    if rows != [] {
      var front, last := rows[..|rows| - 1], rows[|rows| - 1];
      NarrowedBy(front, f, g, such);
      assert (Matching(front, g) + [last])[..|Matching(front, g)|] == Matching(front, g);
      hide Matches;
    }
  }

  lemma {:induction false} NoFilterKeepsAll(rows: seq<Event>)
    ensures Matching(rows, Filter("", "", "", 0, 0)) == rows
  {
    if rows != [] {
      NoFilterKeepsAll(rows[..|rows| - 1]);
      assert rows == rows[..|rows| - 1] + [rows[|rows| - 1]];
    }
  }

  /** Each field of the filter narrows what the others leave, by itself; a field that is not set does
      not. */
  lemma EachFieldNarrows(rows: seq<Event>, f: Filter)
    ensures f.owner != "" ==>
      Matching(rows, f) == Where(Matching(rows, f.(owner := "")), (e: Event) => e.owner == f.owner)
    ensures f.repo != "" ==>
      Matching(rows, f) == Where(Matching(rows, f.(repo := "")), (e: Event) => e.repo == f.repo)
    ensures f.kind != "" ==>
      Matching(rows, f) == Where(Matching(rows, f.(kind := "")), (e: Event) => e.kind == f.kind)
    ensures f.from > 0 ==> Matching(rows, f) == Where(Matching(rows, f.(from := 0)), (e: Event) => e.ts >= f.from)
    ensures f.to > 0 ==> Matching(rows, f) == Where(Matching(rows, f.(to := 0)), (e: Event) => e.ts <= f.to)
    ensures Matching(rows, f) == Matching(rows, f.(from := Max(f.from, 0), to := Max(f.to, 0)))
  {
    if f.owner != "" { NarrowedBy(rows, f, f.(owner := ""), (e: Event) => e.owner == f.owner); }
    if f.repo != "" { NarrowedBy(rows, f, f.(repo := ""), (e: Event) => e.repo == f.repo); }
    if f.kind != "" { NarrowedBy(rows, f, f.(kind := ""), (e: Event) => e.kind == f.kind); }
    if f.from > 0 { NarrowedBy(rows, f, f.(from := 0), (e: Event) => e.ts >= f.from); }
    if f.to > 0 { NarrowedBy(rows, f, f.(to := 0), (e: Event) => e.ts <= f.to); }
    SameMatches(rows, f, f.(from := Max(f.from, 0), to := Max(f.to, 0)));
  }

  lemma {:induction false} SameMatches(rows: seq<Event>, f: Filter, g: Filter)
    requires forall e :: Matches(f, e) <==> Matches(g, e)
    ensures Matching(rows, f) == Matching(rows, g)
  {
    if rows != [] {
      SameMatches(rows[..|rows| - 1], f, g);
      hide Matches;
    }
  }

  /** Both bounds are inclusive, so two ranges that meet between seconds `t` and `t + 1` share
      out what the whole range holds: nothing is shown twice and nothing falls between. */
  lemma {:induction false} AdjacentRangesSplit(rows: seq<Event>, f: Filter, t: int)
    requires 0 < t && f.from <= t + 1 && (f.to <= 0 || t <= f.to)
    ensures |Matching(rows, f)| == |Matching(rows, f.(to := t))| + |Matching(rows, f.(from := t + 1))|
    ensures forall e :: Matches(f, e) <==> (Matches(f.(to := t), e) || Matches(f.(from := t + 1), e))
    ensures forall e :: !(Matches(f.(to := t), e) && Matches(f.(from := t + 1), e))
  {
    if rows != [] { AdjacentRangesSplit(rows[..|rows| - 1], f, t); }
  }

  function Slice(s: seq<Event>, offset: nat, limit: nat): seq<Event> {
    if offset >= |s| then [] else s[offset..Min(|s|, offset + limit)]
  }

  /** One page of the rows, which the store keeps newest first in a fixed order. One row more
      than the page is read, and dropped again, to tell whether there is a further page. */
  method QueryTimeline(rows: seq<Event>, f: Filter, page: nat, perPage: nat)
    returns (events: seq<Event>, hasMore: bool)
    ensures events == Slice(Matching(rows, f), page * perPage, perPage)
    ensures hasMore <==> |Matching(rows, f)| > (page + 1) * perPage
  {
    var found := Slice(Matching(rows, f), page * perPage, perPage + 1);
    assert (page + 1) * perPage == page * perPage + perPage;
    hasMore := |found| == perPage + 1;
    events := if hasMore then found[..perPage] else found;
  }

  function Pages(n: nat): nat {
    if n == 0 then 1 else (n + RUN_QUERY_PER_PAGE - 1) / RUN_QUERY_PER_PAGE
  }

  /** Rebuilds the whole matching sequence, unless one of the queries it needs fails. */
  method QueryFullTimeline(rows: seq<Event>, f: Filter, fails: nat -> bool)
    returns (r: Option<seq<Event>>, queries: nat)
    ensures r.None? <==> exists k :: 0 <= k < Pages(|Matching(rows, f)|) && fails(k)
    ensures r.Some? ==> r.value == Matching(rows, f) && queries == Pages(|Matching(rows, f)|)
  {
    var all: seq<Event> := [];
    var page := 0;
    queries := 0;
    ghost var n := |Matching(rows, f)|;
    while true
      invariant queries == page && page < Pages(n)
      invariant page * RUN_QUERY_PER_PAGE <= n && all == Matching(rows, f)[..page * RUN_QUERY_PER_PAGE]
      invariant forall k :: 0 <= k < page ==> !fails(k)
      decreases Pages(n) - page
    {
      if fails(page) {
        return None, queries + 1;
      }
      var events, hasMore := QueryTimeline(rows, f, page, RUN_QUERY_PER_PAGE);
      queries := queries + 1;
      all := all + events;
      if !hasMore {
        break;
      }
      page := page + 1;
    }
    assert forall k :: 0 <= k < Pages(n) ==> !fails(k);
    return Some(all), queries;
  }

  // ---------------------------------------------------------------- a store that grows between the queries

  /** `b` is `a` with further events put in; `at[i]` is where `a[i]` has moved to. */
  ghost predicate Grows(a: seq<Event>, b: seq<Event>, at: seq<nat>) {
    && |at| == |a|
    && (forall i :: 0 <= i < |a| ==> at[i] < |b| && b[at[i]] == a[i])
    && (forall i, j :: 0 <= i < j < |at| ==> at[i] < at[j])
  }

  /** What each query sees: `seen[k]` is the matching sequence at query `k`, and the last query
      is the first that reports no further page. */
  ghost predicate Queries(seen: seq<seq<Event>>, perPage: nat) {
    && seen != []
    && (forall k :: 0 <= k < |seen| - 1 ==> |seen[k]| > (k + 1) * perPage)
    && |seen[|seen| - 1]| <= |seen| * perPage
    && (forall k, l :: 0 <= k && l == k + 1 && l < |seen| ==> exists at :: Grows(seen[k], seen[l], at))
  }

  lemma {:induction false} NotMovedUp(a: seq<Event>, b: seq<Event>, at: seq<nat>, i: nat)
    requires Grows(a, b, at) && i < |a|
    ensures at[i] >= i
  {
    if i > 0 { NotMovedUp(a, b, at, i - 1); }
  }

  lemma {:induction false} FoundFrom(seen: seq<seq<Event>>, perPage: nat, k: nat, p: nat) returns (l: nat)
    requires Queries(seen, perPage) && k < |seen| && k * perPage <= p < |seen[k]|
    ensures k <= l < |seen| && seen[k][p] in Slice(seen[l], l * perPage, perPage)
    decreases |seen| - k
  {
    assert (k + 1) * perPage == k * perPage + perPage;
    if p < (k + 1) * perPage {
      l := k;
      assert Slice(seen[k], k * perPage, perPage)[p - k * perPage] == seen[k][p];
    } else {
      var at :| Grows(seen[k], seen[k + 1], at);
      NotMovedUp(seen[k], seen[k + 1], at, p);
      l := FoundFrom(seen, perPage, k + 1, at[p]);
    }
  }

  /** Events stored between the queries can push others to a later page but never past the
      reader: whatever matched at the first query is on one of the pages read. */
  lemma NothingIsLost(seen: seq<seq<Event>>, perPage: nat, e: Event) returns (l: nat)
    requires Queries(seen, perPage) && e in seen[0]
    ensures l < |seen| && e in Slice(seen[l], l * perPage, perPage)
  {
    var p :| 0 <= p < |seen[0]| && seen[0][p] == e;
    l := FoundFrom(seen, perPage, 0, p);
  }

  // ---------------------------------------------------------------- when an event is read twice

  /** Rows are keyed by id. */
  ghost predicate DistinctRows(rows: seq<Event>) {
    forall i, j :: 0 <= i < j < |rows| ==> rows[i].id != rows[j].id
  }

  /** The page read by query `k`. */
  function PageAt(seen: seq<seq<Event>>, perPage: nat, k: nat): seq<Event>
    requires k < |seen|
  {
    Slice(seen[k], k * perPage, perPage)
  }

  ghost predicate ReadTwice(seen: seq<seq<Event>>, perPage: nat, e: Event) {
    exists k, l :: 0 <= k < l < |seen| && e in PageAt(seen, perPage, k) && e in PageAt(seen, perPage, l)
  }

  /** Nothing has moved into or within the pages up to `k` by the time query `k + 1` runs. */
  predicate StaysPut(seen: seq<seq<Event>>, perPage: nat, k: nat) {
    k + 1 < |seen| ==> Slice(seen[k], 0, (k + 1) * perPage) == Slice(seen[k + 1], 0, (k + 1) * perPage)
  }

  ghost predicate PagesStayPut(seen: seq<seq<Event>>, perPage: nat) {
    forall k: nat :: StaysPut(seen, perPage, k)
  }

  lemma OnPage(s: seq<Event>, offset: nat, limit: nat, e: Event) returns (p: nat)
    requires e in Slice(s, offset, limit)
    ensures offset <= p < offset + limit && p < |s| && s[p] == e
  {
    var i :| 0 <= i < |Slice(s, offset, limit)| && Slice(s, offset, limit)[i] == e;
    p := offset + i;
  }

  lemma InFront(a: seq<Event>, b: seq<Event>, n: nat, p: nat)
    requires Slice(a, 0, n) == Slice(b, 0, n) && p < n && p < |a|
    ensures p < |b| && a[p] == b[p]
  {
    assert Slice(a, 0, n)[p] == a[p];
    assert |Slice(a, 0, n)| == Min(|a|, n) && |Slice(b, 0, n)| == Min(|b|, n);
    assert Slice(b, 0, n)[p] == b[p];
  }

  lemma NextPageStart(k: nat, perPage: nat)
    ensures (k + 1) * perPage == k * perPage + perPage
  {
  }

  lemma PageOrder(k: nat, l: nat, perPage: nat)
    requires k < l
    ensures (k + 1) * perPage <= l * perPage
  {
  }

  /** While the pages stay put, what query `k` saw on its page is at the same place later. */
  lemma {:induction false} SamePlace(seen: seq<seq<Event>>, perPage: nat, k: nat, l: nat, p: nat)
    requires PagesStayPut(seen, perPage) && k <= l < |seen| && p < |seen[k]| && p < (k + 1) * perPage
    ensures p < |seen[l]| && seen[l][p] == seen[k][p]
    decreases l
  {
    hide Slice;
    if k < l {
      SamePlace(seen, perPage, k, l - 1, p);
      assert StaysPut(seen, perPage, l - 1);
      PageOrder(k, l, perPage);
      InFront(seen[l - 1], seen[l], l * perPage, p);
    }
  }

  lemma StayPutReadsOnce(seen: seq<seq<Event>>, perPage: nat, e: Event)
    requires PagesStayPut(seen, perPage) && forall k :: 0 <= k < |seen| ==> DistinctRows(seen[k])
    ensures !ReadTwice(seen, perPage, e)
  {
    hide PagesStayPut, Slice;
    if ReadTwice(seen, perPage, e) {
      var k, l :| 0 <= k < l < |seen| && e in PageAt(seen, perPage, k) && e in PageAt(seen, perPage, l);
      var p := OnPage(seen[k], k * perPage, perPage, e);
      var q := OnPage(seen[l], l * perPage, perPage, e);
      NextPageStart(k, perPage);
      PageOrder(k, l, perPage);
      SamePlace(seen, perPage, k, l, p);
    }
  }

  lemma {:induction false} MovesSpread(a: seq<Event>, b: seq<Event>, at: seq<nat>, i: nat, j: nat)
    requires Grows(a, b, at) && i <= j < |a|
    ensures at[j] - at[i] >= j - i
    decreases j
  {
    if i < j { MovesSpread(a, b, at, i, j - 1); }
  }

  /** A page whose front has changed has pushed its last row onto a later page. */
  lemma PushedOn(a: seq<Event>, b: seq<Event>, at: seq<nat>, n: nat)
    requires Grows(a, b, at) && n < |a| && Slice(a, 0, n) != Slice(b, 0, n)
    ensures n > 0 && at[n - 1] >= n
  {
    if n > 0 {
      NotMovedUp(a, b, at, n - 1);
      var i := FirstChange(a, b, n);
      NotMovedUp(a, b, at, i);
      MovesSpread(a, b, at, i, n - 1);
    }
  }

  lemma FirstChange(a: seq<Event>, b: seq<Event>, n: nat) returns (i: nat)
    requires n <= |a| && n <= |b| && Slice(a, 0, n) != Slice(b, 0, n)
    ensures i < n && a[i] != b[i]
  {
    var p, q := Slice(a, 0, n), Slice(b, 0, n);
    assert |p| == n && |q| == n;
    i :| 0 <= i < n && p[i] != q[i];
  }

  lemma MovedIsReadTwice(seen: seq<seq<Event>>, perPage: nat, k: nat) returns (e: Event)
    requires Queries(seen, perPage) && k + 1 < |seen| && !StaysPut(seen, perPage, k)
    ensures ReadTwice(seen, perPage, e)
  {
    var n := (k + 1) * perPage;
    var at :| Grows(seen[k], seen[k + 1], at);
    assert |seen[k]| > n;
    PushedOn(seen[k], seen[k + 1], at, n);
    var p := at[n - 1];
    assert n <= p < |seen[k + 1]| && seen[k + 1][p] == seen[k][n - 1];
    e := seen[k][n - 1];
    LastOnPage(seen, perPage, k);
    var l := FoundFrom(seen, perPage, k + 1, p);
    hide Queries, Slice, Grows;
    assert e in PageAt(seen, perPage, l);
  }

  lemma LastOnPage(seen: seq<seq<Event>>, perPage: nat, k: nat)
    requires k < |seen| && perPage > 0 && (k + 1) * perPage <= |seen[k]|
    ensures seen[k][(k + 1) * perPage - 1] in PageAt(seen, perPage, k)
  {
    NextPageStart(k, perPage);
    var page := PageAt(seen, perPage, k);
    assert page[perPage - 1] == seen[k][(k + 1) * perPage - 1];
  }

  /** No event is read twice if and only if each query still finds, in front of its own page,
      exactly what the query before it had there. */
  lemma ReadOnceIffPagesStayPut(seen: seq<seq<Event>>, perPage: nat)
    requires Queries(seen, perPage) && forall k :: 0 <= k < |seen| ==> DistinctRows(seen[k])
    ensures (forall e :: !ReadTwice(seen, perPage, e)) <==> PagesStayPut(seen, perPage)
  {
    hide Queries, ReadTwice, StaysPut, DistinctRows;
    if PagesStayPut(seen, perPage) {
      forall e
        ensures !ReadTwice(seen, perPage, e)
      {
        StayPutReadsOnce(seen, perPage, e);
      }
    } else {
      var k: nat :| !StaysPut(seen, perPage, k);
      OnlyBefore(seen, perPage, k);
      var e := MovedIsReadTwice(seen, perPage, k);
    }
  }

  lemma OnlyBefore(seen: seq<seq<Event>>, perPage: nat, k: nat)
    requires !StaysPut(seen, perPage, k)
    ensures k + 1 < |seen|
  {
  }

  /** The `i`-th event: ids of different lengths, older ones later. */
  function Numbered(i: nat): (e: Event)
    ensures |e.id| == i && e.ts == -(i as int)
  {
    Event(seq(i, _ => '0'), -(i as int), "", "", "", "", "", 0, 0, "")
  }

  function Counting(from: nat, n: nat): seq<Event> {
    seq(n, i requires 0 <= i < n => Numbered(from + i))
  }

  lemma CountingIsAStore(from: nat, n: nat)
    ensures DistinctRows(Counting(from, n)) && NewestFirst(Counting(from, n))
  {
    var rows := Counting(from, n);
    forall i, j | 0 <= i < j < |rows|
      ensures rows[i].id != rows[j].id && rows[i].ts >= rows[j].ts
    {
      assert rows[i] == Numbered(from + i) && rows[j] == Numbered(from + j);
    }
  }

  /** One event stored after the first of two queries brings the last event of the first page
      back at the head of the second. */
  lemma EventsCanRepeat() returns (seen: seq<seq<Event>>, e: Event)
    ensures Queries(seen, RUN_QUERY_PER_PAGE) && ReadTwice(seen, RUN_QUERY_PER_PAGE, e)
    ensures forall k :: 0 <= k < |seen| ==> DistinctRows(seen[k]) && NewestFirst(seen[k])
  {
    var first, second := Counting(1, 501), Counting(0, 502);
    CountingIsAStore(1, 501);
    CountingIsAStore(0, 502);
    seen := [first, second];
    e := Numbered(500);
    var at := seq(501, i => i + 1);
    assert Grows(first, second, at);
    assert PageAt(seen, 500, 0)[499] == e;
    assert PageAt(seen, 500, 1)[0] == e;
  }
}
