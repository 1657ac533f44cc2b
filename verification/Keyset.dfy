/**
 * Keyset pagination: a query returns the rows after a cursor in order, one more than the page holds;
 * the next cursor is the last row of a full page with more to come. Rows are known by their positions,
 * ordered lexicographically.
 */
module Keyset {
  import opened Prelude

  datatype Position = Position(first: int, second: int, third: int)

  /** The row comes after the cursor, as the WHERE clauses spell it. */
  predicate Precedes(p: Position, q: Position) {
    q.first > p.first
    || (q.first == p.first && (q.second > p.second || (q.second == p.second && q.third > p.third)))
  }

  predicate IsAscending(s: seq<Position>) {
    forall i, j :: 0 <= i < j < |s| ==> Precedes(s[i], s[j])
  }

  ghost function SetOf(s: seq<Position>): set<Position> {
    set p | p in s
  }

  predicate IsLeast(p: Position, rows: set<Position>) {
    p in rows && forall q :: q in rows && q != p ==> Precedes(p, q)
  }

  lemma {:induction false} LeastExists(rows: set<Position>)
    requires rows != {}
    ensures exists p :: IsLeast(p, rows)
  {
    var some :| some in rows;
    if rows == {some} {
      assert IsLeast(some, rows);
    } else {
      LeastExists(rows - {some});
      var least :| IsLeast(least, rows - {some});
      if Precedes(some, least) {
        assert forall q :: q in rows ==> q == some || q in rows - {some};
        assert IsLeast(some, rows);
      } else {
        assert IsLeast(least, rows);
      }
    }
  }

  /** ORDER BY: the rows in ascending order. */
  ghost function Ordered(rows: set<Position>): (r: seq<Position>)
    ensures IsAscending(r) && SetOf(r) == rows && |r| == |rows|
  {
    if rows == {} then []
    else
      LeastExists(rows);
      var least :| IsLeast(least, rows);
      var rest := Ordered(rows - {least});
      assert forall p :: p in rest <==> p in SetOf(rest);
      LeastFirst(least, rest);
      assert rows == {least} + (rows - {least});
      [least] + rest
  }

  lemma LeastFirst(least: Position, rest: seq<Position>)
    requires IsAscending(rest) && forall p :: p in rest ==> Precedes(least, p)
    ensures IsAscending([least] + rest) && SetOf([least] + rest) == {least} + SetOf(rest)
  {
    hide Precedes;
    var all := [least] + rest;
    forall i, j | 0 <= i < j < |all|
      ensures Precedes(all[i], all[j])
    {
      assert all[j] == rest[j - 1] && (i > 0 ==> all[i] == rest[i - 1]);
      assert rest[j - 1] in rest;
    }
    assert forall p :: p in all <==> p == least || p in rest;
  }

  /** There is one way to order rows. */
  lemma {:induction false} OrderIsUnique(s: seq<Position>, t: seq<Position>)
    requires IsAscending(s) && IsAscending(t) && SetOf(s) == SetOf(t)
    ensures s == t
  {
    assert t != [] ==> t[0] in SetOf(t);
    if s != [] {
      assert s[0] in SetOf(t) && t != [];
      assert t[0] in SetOf(s);
      assert s[0] == t[0];
      TailSet(s);
      TailSet(t);
      OrderIsUnique(s[1..], t[1..]);
    }
  }

  lemma TailSet(s: seq<Position>)
    requires IsAscending(s) && s != []
    ensures SetOf(s[1..]) == SetOf(s) - {s[0]} && IsAscending(s[1..])
  {
    forall p | p in SetOf(s) - {s[0]}
      ensures p in s[1..]
    {
      var i :| 0 <= i < |s| && s[i] == p;
      assert s[1..][i - 1] == p;
    }
    assert forall i :: 0 < i < |s| ==> Precedes(s[0], s[i]);
  }

  ghost function After(rows: set<Position>, cursor: Option<Position>): set<Position> {
    match cursor
    case None => rows
    case Some(c) => set p | p in rows && Precedes(c, p)
  }

  function Take(s: seq<Position>, n: nat): seq<Position> {
    if n <= |s| then s[..n] else s
  }

  /** SELECT ... WHERE after the cursor ORDER BY position LIMIT n. */
  ghost function Query(rows: set<Position>, cursor: Option<Position>, n: nat): seq<Position> {
    Take(Ordered(After(rows, cursor)), n)
  }

  ghost function Page(rows: set<Position>, cursor: Option<Position>, limit: nat): seq<Position> {
    Take(Query(rows, cursor, limit + 1), limit)
  }

  /** The cursor a page hands out: its last row, when the query found one row more than it holds. */
  ghost function Next(rows: set<Position>, cursor: Option<Position>, limit: nat): (r: Option<Position>)
    requires limit > 0
  {
    if |Query(rows, cursor, limit + 1)| > limit then Some(Page(rows, cursor, limit)[limit - 1]) else None
  }

  /** What lies after the last row of a page is what the page and the pages before it left out. */
  lemma PageLeaves(rows: set<Position>, cursor: Option<Position>, limit: nat)
    requires limit > 0
    ensures
      var all := Ordered(After(rows, cursor));
      && Next(rows, cursor, limit).Some? == (|all| > limit)
      && (|all| > limit ==>
            && Page(rows, cursor, limit) == all[..limit]
            && Ordered(After(rows, Next(rows, cursor, limit))) == all[limit..])
      && (|all| <= limit ==> Page(rows, cursor, limit) == all)
  {
    hide Ordered, After, IsAscending, SetOf;
    var all := Ordered(After(rows, cursor));
    if |all| > limit {
      TakeTwice(all, limit);
      RestIsAfter(rows, cursor, limit);
      RestAscends(all, limit);
      OrderIsUnique(Ordered(After(rows, Some(all[limit - 1]))), all[limit..]);
    }
  }

  lemma TakeTwice(s: seq<Position>, limit: nat)
    requires limit < |s|
    ensures Take(Take(s, limit + 1), limit) == s[..limit]
  {
  }

  lemma RestAscends(s: seq<Position>, n: nat)
    requires IsAscending(s) && n <= |s|
    ensures IsAscending(s[n..])
  {
    hide Precedes;
  }

  lemma RestIsAfter(rows: set<Position>, cursor: Option<Position>, limit: nat)
    requires 0 < limit < |Ordered(After(rows, cursor))|
    ensures
      var all := Ordered(After(rows, cursor));
      SetOf(all[limit..]) == After(rows, Some(all[limit - 1]))
  {
    hide Ordered;
    var all := Ordered(After(rows, cursor));
    var last := all[limit - 1];
    assert last in SetOf(all);
    forall p
      ensures p in all[limit..] <==> p in After(rows, Some(last))
    {
      if p in all[limit..] {
        var i :| 0 <= i < |all[limit..]| && all[limit..][i] == p;
        assert Precedes(last, all[limit + i]);
        assert p in SetOf(all);
      }
      if p in After(rows, Some(last)) {
        assert p in SetOf(all);
        var i :| 0 <= i < |all| && all[i] == p;
        assert i >= limit;
        assert all[limit..][i - limit] == p;
      }
    }
  }

  // ----- pages in a row -----------------------------------------------------------------------

  /** How many pages of `limit` rows `n` rows make; no rows still make one page. */
  function PageCount(n: nat, limit: nat): (r: nat)
    requires limit > 0
    ensures r > 0
    decreases n
  {
    if n <= limit then 1 else 1 + PageCount(n - limit, limit)
  }

  /** What `k` pages leave of a list. */
  function Left(s: seq<Position>, limit: nat, k: nat): seq<Position>
    requires k * limit <= |s|
  {
    s[k * limit..]
  }

  /** The `k`-th page of a list. */
  function Slice(s: seq<Position>, limit: nat, k: nat): seq<Position>
    requires k * limit <= |s|
  {
    Take(s[k * limit..], limit)
  }

  lemma {:induction false} PagesFit(n: nat, limit: nat, k: nat)
    requires limit > 0
    ensures k < PageCount(n, limit) <==> k == 0 || k * limit < n
    decreases k
  {
    if k > 0 {
      assert k * limit == (k - 1) * limit + limit;
      if n > limit {
        PagesFit(n - limit, limit, k - 1);
      } else {
        assert (k - 1) * limit >= 0;
      }
    }
  }

  lemma LessPages(j: nat, k: nat, limit: nat)
    requires j <= k
    ensures j * limit <= k * limit
  {
    assert (k - j) * limit >= 0;
  }

  /** All the slices, one after the other. */
  function Joined(s: seq<Position>, limit: nat, k: nat): seq<Position>
    requires k * limit <= |s|
    decreases |s| - k * limit
  {
    if limit == 0 || k * limit + limit >= |s| then Slice(s, limit, k)
    else
      assert (k + 1) * limit == k * limit + limit;
      Slice(s, limit, k) + Joined(s, limit, k + 1)
  }

  lemma {:induction false} SlicesJoin(s: seq<Position>, limit: nat, k: nat)
    requires limit > 0 && k * limit <= |s|
    ensures Joined(s, limit, k) == s[k * limit..]
    decreases |s| - k * limit
  {
    if k * limit + limit < |s| {
      assert (k + 1) * limit == k * limit + limit;
      SlicesJoin(s, limit, k + 1);
      assert s[k * limit..] == s[k * limit..][..limit] + s[k * limit + limit..];
    }
  }

  /** A cursor that stands before the `k`-th slice yields that slice, and the next cursor the one after it. */
  lemma SliceIsPage(rows: set<Position>, cursor: Option<Position>, limit: nat, k: nat)
    requires limit > 0 && k * limit <= |Ordered(rows)|
    requires Ordered(After(rows, cursor)) == Ordered(rows)[k * limit..]
    ensures
      var all, page := Ordered(rows), Page(rows, cursor, limit);
      && page == Slice(all, limit, k)
      && (|Query(rows, cursor, limit + 1)| > limit <==> (k + 1) * limit < |all|)
      && ((k + 1) * limit < |all| ==>
            |page| == limit && page[limit - 1] in rows
            && Ordered(After(rows, Some(page[limit - 1]))) == all[(k + 1) * limit..])
  {
    hide Ordered, After;
    var all := Ordered(rows);
    var rest := Ordered(After(rows, cursor));
    PageLeaves(rows, cursor, limit);
    assert (k + 1) * limit == k * limit + limit;
    if |rest| > limit {
      assert rest[limit - 1] in SetOf(rest);
      AfterIsPart(rows, cursor);
      assert all[k * limit..][limit..] == all[(k + 1) * limit..];
    }
  }

  lemma AfterIsPart(rows: set<Position>, cursor: Option<Position>)
    ensures After(rows, cursor) <= rows
  {
  }

  /** A query returns rows only. */
  lemma QueryIsPart(rows: set<Position>, cursor: Option<Position>, n: nat)
    ensures forall i :: 0 <= i < |Query(rows, cursor, n)| ==> Query(rows, cursor, n)[i] in rows
  {
    hide Ordered, After;
    AfterIsPart(rows, cursor);
    var all := Ordered(After(rows, cursor));
    assert forall i :: 0 <= i < |all| ==> all[i] in SetOf(all);
  }
}
