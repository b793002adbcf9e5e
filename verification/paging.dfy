/**
 * Paged listing of users: the service query (services/UserService.js,
 * pagedUsers and count) and the controller around it
 * (server/controllers/UserController.js, pagedUsers).  The query sorts the
 * whole collection by `joined` ascending, skips `perPage * page - perPage`
 * documents and returns at most `limit` of them; the database applies the
 * sort before skip and limit whatever order the query builder calls them in.
 */
module Paging {
  import opened Wrappers
  import opened Accounts

  /**
   * Ascending order on the join date.  A document without a join date (one
   * created by an upsert) sorts before every dated document, as a missing
   * field does in the database's ordering.
   */
  predicate JoinedLe(a: Account, b: Account)
  {
    match (a.joined, b.joined)
    case (None, _) => true
    case (Some(_), None) => false
    case (Some(x), Some(y)) => x <= y
  }

  /** Every document joined no later than every document after it. */
  predicate SortedByJoined(s: seq<Account>)
  {
    forall i, j :: 0 <= i < j < |s| ==> JoinedLe(s[i], s[j])
  }

  /** A document that precedes everything in a pool precedes every element of a sequence holding that pool. */
  lemma {:induction false} PrecedesAll(x: Account, t: seq<Account>, pool: multiset<Account>)
    requires multiset(t) == pool
    requires forall y :: y in pool ==> JoinedLe(x, y)
    ensures forall k :: 0 <= k < |t| ==> JoinedLe(x, t[k])
  {
    forall k | 0 <= k < |t|
      ensures JoinedLe(x, t[k])
    {
      assert t[k] in multiset(t);
    }
  }

  /** Inserts `a` into a sorted sequence, after every document it does not precede. */
  function Insert(a: Account, s: seq<Account>): (r: seq<Account>)
    requires SortedByJoined(s)
    ensures SortedByJoined(r)
    ensures multiset(r) == multiset(s) + multiset{a}
  {
    if |s| == 0 then [a]
    else if JoinedLe(a, s[0]) then [a] + s
    else
      var tail := s[1..];
      var rest := Insert(a, tail);
      assert s == [s[0]] + tail;
      assert forall y :: y in multiset(tail) ==> JoinedLe(s[0], y) by {
        forall y | y in multiset(tail)
          ensures JoinedLe(s[0], y)
        {
          assert y in tail;
        }
      }
      PrecedesAll(s[0], rest, multiset(tail) + multiset{a});
      [s[0]] + rest
  }

  /** The collection in the order the query returns it: ascending join date. */
  function SortByJoined(s: seq<Account>): (r: seq<Account>)
    ensures SortedByJoined(r)
    ensures multiset(r) == multiset(s)
    ensures |r| == |s|
  {
    if |s| == 0 then []
    else
      assert s == [s[0]] + s[1..];
      Insert(s[0], SortByJoined(s[1..]))
  }

  /** Why a query was refused by the database. */
  datatype QueryError =
    | NegativeSkip      // the skip is below zero
    | SkipOutOfRange    // the skip does not fit the database's signed 64-bit integer

  /** The largest skip the database accepts: the largest signed 64-bit integer. */
  const MaxSkip := 0x7FFF_FFFF_FFFF_FFFF

  /** The number of documents a query skips for a given page. */
  function Skip(perPage: int, page: int): int
  {
    perPage * page - perPage
  }

  /**
   * The documents a query returns from the sorted collection: skip `skip` of
   * them, then take at most `limit`, where zero means no limit and a negative
   * limit is taken by its magnitude.
   */
  function Window(sorted: seq<Account>, skip: nat, limit: int): (w: seq<Account>)
    ensures limit != 0 ==>
      var left := if skip <= |sorted| then |sorted| - skip else 0;
      var bound := if limit < 0 then -limit else limit;
      |w| == if bound < left then bound else left
    ensures limit == 0 ==> |w| == if skip <= |sorted| then |sorted| - skip else 0
    ensures skip + |w| <= |sorted| || w == []
    ensures forall k :: 0 <= k < |w| ==> w[k] == sorted[skip + k]
  {
    var start := if skip <= |sorted| then skip else |sorted|;
    var available := |sorted| - start;
    var bound := if limit < 0 then -limit else limit;
    var n := if limit == 0 || bound > available then available else bound;
    sorted[start..start + n]
  }

  /** A window of a sorted sequence is sorted, and holds only documents of the sequence. */
  lemma {:induction false} WindowOfSorted(sorted: seq<Account>, skip: nat, limit: int)
    requires SortedByJoined(sorted)
    ensures SortedByJoined(Window(sorted, skip, limit))
    ensures multiset(Window(sorted, skip, limit)) <= multiset(sorted)
  {
    var w := Window(sorted, skip, limit);
    if w != [] {
      var n := |w|;
      assert sorted == sorted[..skip] + w + sorted[skip + n..];
    }
  }

  /**
   * The service query.  A skip below zero or beyond the signed 64-bit range
   * is refused by the database; otherwise the result is the window of the
   * collection sorted by join date.
   */
  function PagedUsers(docs: seq<Account>, perPage: int, page: int, limit: int): (r: Result<seq<Account>, QueryError>)
    ensures r.Failure? <==> Skip(perPage, page) < 0 || Skip(perPage, page) > MaxSkip
    ensures r == Failure(NegativeSkip) <==> Skip(perPage, page) < 0
    ensures r.Success? ==>
      && r.value == Window(SortByJoined(docs), Skip(perPage, page), limit)
      && SortedByJoined(r.value)
      && multiset(r.value) <= multiset(docs)
  {
    var skip := Skip(perPage, page);
    if skip < 0 then Failure(NegativeSkip)
    else if skip > MaxSkip then Failure(SkipOutOfRange)
    else
      var sorted := SortByJoined(docs);
      WindowOfSorted(sorted, skip, limit);
      Success(Window(sorted, skip, limit))
  }

  /** The service's document count. */
  function Count(docs: seq<Account>): nat
  {
    |docs|
  }

  /** The controller's fixed page size and limit. */
  const PerPage := 15
  const Limit := 15

  /**
   * The page number the controller uses: the route parameter, or 1 when it
   * is missing, and never less than 1.
   */
  function PageNumber(param: Option<int>): (p: int)
    ensures p >= 1
    ensures param.Some? && param.value >= 1 ==> p == param.value
    ensures param.None? || param.value <= 1 ==> p == 1
  {
    var requested := if param.Some? && param.value != 0 then param.value else 1;
    if requested > 1 then requested else 1
  }

  /** The number of pages needed to show `count` documents, `perPage` at a time: the ceiling of the quotient. */
  function PageCount(count: nat, perPage: int): (pages: nat)
    requires perPage > 0
    ensures count == 0 <==> pages == 0
    ensures count > 0 ==> (pages - 1) * perPage < count <= pages * perPage
  {
    var q := (count + perPage - 1) / perPage;
    assert q * perPage <= count + perPage - 1 < (q + 1) * perPage;
    q
  }

  /** What the controller reports for one page. */
  datatype PageView = PageView(limit: int, perPage: int, currentPage: int, pages: nat, users: seq<Account>)

  /**
   * The controller: clamp the page number, run the query, count the
   * collection.  The clamp rules out a negative skip; a page so large that
   * its skip leaves the 64-bit range still makes the query fail.
   */
  function ListPage(docs: seq<Account>, param: Option<int>): (r: Result<PageView, QueryError>)
    ensures r.Failure? <==> Skip(PerPage, PageNumber(param)) > MaxSkip
    ensures r.Failure? ==> r.error == SkipOutOfRange
    ensures r.Success? ==>
      var v := r.value;
      && v.currentPage == PageNumber(param) && v.limit == Limit && v.perPage == PerPage
      && v.pages == PageCount(|docs|, PerPage)
      && v.users == Window(SortByJoined(docs), Skip(PerPage, v.currentPage), Limit)
  {
    var page := PageNumber(param);
    match PagedUsers(docs, PerPage, page, Limit)
    case Failure(e) => Failure(e)
    case Success(users) => Success(PageView(Limit, PerPage, page, PageCount(Count(docs), PerPage), users))
  }

  /** Position `m` of a window with room for it is the document `skip + m` of the whole sequence. */
  lemma {:induction false} WindowAt(sorted: seq<Account>, skip: nat, limit: int, m: int)
    requires 0 <= m < limit && skip + m < |sorted|
    ensures m < |Window(sorted, skip, limit)|
    ensures Window(sorted, skip, limit)[m] == sorted[skip + m]
  {
  }

  /** The page that holds the document at place `i` is within the page count. */
  lemma {:induction false} PageWithinCount(count: nat, i: nat)
    requires i < count
    ensures 1 <= i / PerPage + 1 <= PageCount(count, PerPage)
  {
    var pages := PageCount(count, PerPage);
    assert 15 * (i / 15) <= i;
    assert 15 * (pages - 1) < count <= 15 * pages;
  }

  /**
   * Every document of the collection is listed on page `i / 15 + 1` at
   * position `i % 15`, where `i` is its place in join order; that page is
   * within the reported page count.
   */
  lemma {:induction false} EveryUserHasAPage(docs: seq<Account>, i: int)
    requires 0 <= i < |docs| && i <= MaxSkip
    ensures ListPage(docs, Some(i / PerPage + 1)).Success?
    ensures var v := ListPage(docs, Some(i / PerPage + 1)).value;
      && 1 <= v.currentPage <= v.pages
      && i % PerPage < |v.users|
      && v.users[i % PerPage] == SortByJoined(docs)[i]
  {
    var d, m := i / PerPage, i % PerPage;
    assert i == 15 * d + m && 0 <= m < 15;
    assert Skip(PerPage, d + 1) == 15 * d;
    assert PageNumber(Some(d + 1)) == d + 1;
    PageWithinCount(|docs|, i);
    WindowAt(SortByJoined(docs), 15 * d, Limit, m);
  }

  /** Pages past the reported page count are empty. */
  lemma {:induction false} PagesPastTheEndAreEmpty(docs: seq<Account>, page: int)
    requires page > PageCount(|docs|, PerPage)
    ensures var r := ListPage(docs, Some(page)); r.Success? ==> r.value.users == []
  {
    assert PageNumber(Some(page)) == page;
    assert (page - 1) * PerPage >= |docs|;
  }

  /**
   * A page number whose skip leaves the 64-bit range makes the query fail
   * instead of listing an empty page.
   */
  lemma HugePageFails(docs: seq<Account>)
    ensures ListPage(docs, Some(700_000_000_000_000_000)) == Failure(SkipOutOfRange)
  {
  }

  /** With 17 users the controller reports 2 pages, and page 2 holds the last 2 users. */
  lemma SeventeenUsersMakeTwoPages(docs: seq<Account>)
    requires |docs| == 17
    ensures ListPage(docs, None).Success? && ListPage(docs, None).value.pages == 2
    ensures ListPage(docs, Some(2)).Success? && ListPage(docs, Some(2)).value.users == SortByJoined(docs)[15..17]
  {
    assert PageNumber(None) == 1 && PageNumber(Some(2)) == 2;
    assert Skip(PerPage, 1) == 0 && Skip(PerPage, 2) == 15;
    assert PageCount(17, PerPage) == 2;
    var sorted := SortByJoined(docs);
    assert Window(sorted, 15, Limit) == sorted[15..17];
  }
}
