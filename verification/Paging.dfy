/**
 Keyset paging as the activity feed, the external-account transactions and the audit log do it:
 one sort key, the identifier as a tie-breaker, one row of look-ahead, and a cursor that names
 the last row delivered.
 */
module Paging {
  import opened Options

  // ---------------------------------------------------------------- order

  ghost predicate StrictTotal<R(!new)>(less: (R, R) -> bool) {
    (forall a: R :: !less(a, a))
    && (forall a: R, b: R, c: R :: less(a, b) && less(b, c) ==> less(a, c))
    && (forall a: R, b: R :: less(a, b) || a == b || less(b, a))
  }

  lemma Transitive<R(!new)>(less: (R, R) -> bool, a: R, b: R, c: R)
    requires StrictTotal(less)
    ensures less(a, b) && less(b, c) ==> less(a, c)
    ensures !less(a, a)
  {
  }

  /** A table snapshot after filtering, in query order: keys with identifiers never repeat. */
  ghost predicate Sorted<R(!new)>(s: seq<R>, less: (R, R) -> bool) {
    forall i, j :: 0 <= i < j < |s| ==> less(s[i], s[j])
  }

  datatype Row<K, I> = Row(key: K, id: I)

  /** key CMP ? OR (key = ? AND id CMP ?), in either direction. */
  function Keyset<K(==), I>(keyLess: (K, K) -> bool, idLess: (I, I) -> bool, descending: bool): (Row<K, I>, Row<K, I>) -> bool {
    (a: Row<K, I>, b: Row<K, I>) =>
      if descending then keyLess(b.key, a.key) || (a.key == b.key && idLess(b.id, a.id))
      else keyLess(a.key, b.key) || (a.key == b.key && idLess(a.id, b.id))
  }

  /** Whatever the type of the key, the comparison the query uses orders rows totally. */
  lemma KeysetTotal<K(!new), I(!new)>(keyLess: (K, K) -> bool, idLess: (I, I) -> bool, descending: bool)
    requires StrictTotal(keyLess) && StrictTotal(idLess)
    ensures StrictTotal(Keyset(keyLess, idLess, descending))
  {
    var less := Keyset(keyLess, idLess, descending);
    forall a: Row<K, I>, b: Row<K, I>, c: Row<K, I> | less(a, b) && less(b, c) ensures less(a, c) {
      if descending {
        assert keyLess(c.key, b.key) && keyLess(b.key, a.key) ==> keyLess(c.key, a.key);
        assert idLess(c.id, b.id) && idLess(b.id, a.id) ==> idLess(c.id, a.id);
      } else {
        assert keyLess(a.key, b.key) && keyLess(b.key, c.key) ==> keyLess(a.key, c.key);
        assert idLess(a.id, b.id) && idLess(b.id, c.id) ==> idLess(a.id, c.id);
      }
    }
    forall a: Row<K, I> ensures !less(a, a) {
      assert !keyLess(a.key, a.key) && !idLess(a.id, a.id);
    }
    forall a: Row<K, I>, b: Row<K, I> ensures less(a, b) || a == b || less(b, a) {
      assert keyLess(a.key, b.key) || a.key == b.key || keyLess(b.key, a.key);
      assert idLess(a.id, b.id) || a.id == b.id || idLess(b.id, a.id);
    }
  }

  /** Ascending, the smaller key comes first and the identifier decides between equal keys;
      descending is the reverse of that order. */
  lemma KeysetOrders<K(!new), I(!new)>(keyLess: (K, K) -> bool, idLess: (I, I) -> bool, a: Row<K, I>, b: Row<K, I>)
    requires StrictTotal(keyLess)
    ensures keyLess(a.key, b.key) ==> Keyset(keyLess, idLess, false)(a, b)
    ensures a.key == b.key ==> (Keyset(keyLess, idLess, false)(a, b) <==> idLess(a.id, b.id))
    ensures Keyset(keyLess, idLess, true)(a, b) <==> Keyset(keyLess, idLess, false)(b, a)
  {
    assert !keyLess(a.key, a.key);
  }

  // ---------------------------------------------------------------- one page

  function After<R>(s: seq<R>, cursor: Option<R>, less: (R, R) -> bool): seq<R> {
    match cursor
    case None => s
    case Some(c) => if s == [] then [] else (if less(c, s[0]) then [s[0]] else []) + After(s[1..], cursor, less)
  }

  datatype Page<R> = Page(items: seq<R>, next: Option<R>)

  function Fetch<R>(s: seq<R>, cursor: Option<R>, limit: nat, less: (R, R) -> bool): Page<R>
    requires limit >= 1
  {
    var rows := After(s, cursor, less);
    if |rows| > limit then Page(rows[..limit], Some(rows[limit - 1])) else Page(rows, None)
  }

  /** The page as the query loop builds it: at most `limit + 1` rows are read, the extra one only
      to learn that there is a next page. */
  method QueryPage<R(==)>(s: seq<R>, cursor: Option<R>, requested: int, less: (R, R) -> bool)
    returns (page: Page<R>, limit: nat)
    ensures limit == (if requested < 1 || requested > 200 then 100 else requested)
    ensures page == Fetch(s, cursor, limit, less)
  {
    hide After;
    limit := if requested < 1 || requested > 200 then 100 else requested;
    var items: seq<R> := [];
    var i := 0;
    assert s[0..] == s;
    while i < |s| && |items| <= limit
      invariant 0 <= i <= |s| && |items| <= limit + 1
      invariant items + After(s[i..], cursor, less) == After(s, cursor, less)
    {
      var taken := if cursor.None? || less(cursor.value, s[i]) then [s[i]] else [];
      RowRead(s, i, cursor, less, items, taken);
      items := items + taken;
      i := i + 1;
    }
    if i == |s| {
      AfterNone(s[i..], cursor, less);
    }
    page := Page(items, None);
    if |items| > limit {
      page := Page(items[..limit], Some(items[limit - 1]));
      FirstRows(items, After(s[i..], cursor, less), limit);
    }
  }

  lemma AfterStep<R>(s: seq<R>, i: nat, cursor: Option<R>, less: (R, R) -> bool)
    requires i < |s|
    ensures After(s[i..], cursor, less)
            == (if cursor.None? || less(cursor.value, s[i]) then [s[i]] else []) + After(s[i + 1..], cursor, less)
  {
    assert s[i..][1..] == s[i + 1..];
  }

  /** The row at `i` moves from the rows still to come to the rows read, or is passed over. */
  lemma RowRead<R>(s: seq<R>, i: nat, cursor: Option<R>, less: (R, R) -> bool, items: seq<R>, taken: seq<R>)
    requires i < |s| && items + After(s[i..], cursor, less) == After(s, cursor, less)
    requires taken == if cursor.None? || less(cursor.value, s[i]) then [s[i]] else []
    ensures items + taken + After(s[i + 1..], cursor, less) == After(s, cursor, less)
  {
    hide After;
    AfterStep(s, i, cursor, less);
    Regrouped(items, taken, After(s[i + 1..], cursor, less));
  }

  lemma FirstRows<R>(a: seq<R>, b: seq<R>, n: nat)
    requires 1 <= n < |a|
    ensures (a + b)[..n] == a[..n] && (a + b)[n - 1] == a[n - 1]
  {
  }

  lemma Regrouped<R>(a: seq<R>, b: seq<R>, c: seq<R>)
    ensures a + (b + c) == a + b + c
  {
  }

  lemma AfterNone<R>(s: seq<R>, cursor: Option<R>, less: (R, R) -> bool)
    requires s == []
    ensures After(s, cursor, less) == []
  {
  }

  lemma {:induction false} AfterRow<R(!new)>(s: seq<R>, i: nat, less: (R, R) -> bool)
    requires StrictTotal(less) && Sorted(s, less) && i < |s|
    ensures After(s, Some(s[i]), less) == s[i + 1..]
  {
    hide StrictTotal;
    if i == 0 {
      Transitive(less, s[0], s[0], s[0]);
      AfterAll(s[1..], s[0], less);
    } else {
      AfterRow(s[1..], i - 1, less);
      Transitive(less, s[0], s[i], s[0]);
    }
  }

  lemma {:induction false} AfterAll<R(!new)>(s: seq<R>, c: R, less: (R, R) -> bool)
    requires forall i :: 0 <= i < |s| ==> less(c, s[i])
    ensures After(s, Some(c), less) == s
  {
    if s != [] {
      AfterAll(s[1..], c, less);
    }
  }

  lemma {:induction false} AfterMeans<R(!new)>(s: seq<R>, cursor: Option<R>, less: (R, R) -> bool)
    requires Sorted(s, less)
    ensures Sorted(After(s, cursor, less), less)
    ensures forall r: R :: r in After(s, cursor, less) <==> r in s && (cursor.Some? ==> less(cursor.value, r))
  {
    if cursor.Some? && s != [] {
      AfterMeans(s[1..], cursor, less);
      forall r: R | r in s[1..] ensures less(s[0], r) {
        var k :| 0 <= k < |s[1..]| && s[1..][k] == r;
        assert less(s[0], s[k + 1]);
      }
      var rest := After(s[1..], cursor, less);
      assert forall k :: 0 <= k < |rest| ==> rest[k] in rest && less(s[0], rest[k]);
    }
  }

  // ---------------------------------------------------------------- a fixed table

  /** Fetching page after page; fails when a cursor does not decode. */
  function Walk<R>(s: seq<R>, cursor: Option<R>, limit: nat, less: (R, R) -> bool, decodes: R -> bool, fuel: nat): Option<seq<R>>
    requires limit >= 1
    decreases fuel
  {
    var page := Fetch(s, cursor, limit, less);
    if page.next.None? || fuel == 0 then Some(page.items)
    else if !decodes(page.next.value) then None
    else
      match Walk(s, page.next, limit, less, decodes, fuel - 1)
      case None => None
      case Some(rest) => Some(page.items + rest)
  }

  lemma WholeTable<R>(s: seq<R>, less: (R, R) -> bool)
    ensures After(s, None, less) == s
  {
  }

  /** The last rows of all pages but the final one. */
  ghost predicate BoundariesDecode<R(!new)>(s: seq<R>, limit: nat, decodes: R -> bool)
    requires limit >= 1
  {
    forall k: nat :: 1 <= k && PageEnd(k, limit) < |s| ==> decodes(s[PageEnd(k, limit) - 1])
  }

  function PageEnd(k: nat, limit: nat): (e: nat)
    ensures k >= 1 && limit >= 1 ==> e >= 1
  {
    k * limit
  }

  lemma {:induction false} WalkFrom<R(!new)>(s: seq<R>, at: nat, limit: nat, less: (R, R) -> bool, decodes: R -> bool, fuel: nat)
    requires StrictTotal(less) && Sorted(s, less) && limit >= 1 && at <= |s| && fuel >= |s| - at
    ensures var cursor := if at == 0 then None else Some(s[at - 1]);
            Walk(s, cursor, limit, less, decodes, fuel)
            == if BoundariesDecode(s[at..], limit, decodes) then Some(s[at..]) else None
    decreases fuel
  {
    hide StrictTotal, Sorted, After, BoundariesDecode;
    var cursor := if at == 0 then None else Some(s[at - 1]);
    if at > 0 {
      AfterRow(s, at - 1, less);
    } else {
      assert After(s, cursor, less) == s by { WholeTable(s, less); }
      assert s[at..] == s;
    }
    var rows := s[at..];
    if |rows| > limit {
      assert rows[limit - 1] == s[at + limit - 1];
      assert rows[..limit] + s[at + limit..] == rows;
      BoundariesShift(rows, limit, decodes);
      assert rows[limit..] == s[at + limit..];
      if decodes(rows[limit - 1]) {
        WalkFrom(s, at + limit, limit, less, decodes, fuel - 1);
      }
    } else {
      OnePageDecodes(rows, limit, decodes);
    }
  }

  lemma OnePageDecodes<R(!new)>(rows: seq<R>, limit: nat, decodes: R -> bool)
    requires limit >= 1 && |rows| <= limit
    ensures BoundariesDecode(rows, limit, decodes)
  {
    forall k: nat | 1 <= k ensures PageEnd(k, limit) >= limit {
      assert k * limit >= 1 * limit;
    }
  }

  lemma BoundariesShift<R(!new)>(rows: seq<R>, limit: nat, decodes: R -> bool)
    requires limit >= 1 && |rows| > limit
    ensures BoundariesDecode(rows, limit, decodes) <==> decodes(rows[limit - 1]) && BoundariesDecode(rows[limit..], limit, decodes)
  {
    var rest := rows[limit..];
    forall k: nat | k >= 1 ensures PageEnd(k + 1, limit) == PageEnd(k, limit) + limit {
    }
    assert PageEnd(1, limit) == limit;
    if BoundariesDecode(rows, limit, decodes) {
      forall k: nat | 1 <= k && PageEnd(k, limit) < |rest| ensures decodes(rest[PageEnd(k, limit) - 1]) {
        assert PageEnd(k + 1, limit) < |rows|;
      }
    } else if decodes(rows[limit - 1]) {
      var k: nat :| 1 <= k && PageEnd(k, limit) < |rows| && !decodes(rows[PageEnd(k, limit) - 1]);
      assert k != 1;
      assert PageEnd(k - 1, limit) < |rest| && rest[PageEnd(k - 1, limit) - 1] == rows[PageEnd(k, limit) - 1];
    }
  }

  /** Whether the row at position i is the last of a full page. */
  ghost predicate EndsPage(i: nat, limit: nat) { exists k: nat :: k >= 1 && PageEnd(k, limit) == i + 1 }

  /** Row by row: every row that ends a page with more rows to follow must decode. */
  lemma PageEnds<R(!new)>(s: seq<R>, limit: nat, decodes: R -> bool)
    requires limit >= 1
    ensures BoundariesDecode(s, limit, decodes) <==> forall i :: 0 <= i < |s| - 1 && EndsPage(i, limit) ==> decodes(s[i])
  {
    if !BoundariesDecode(s, limit, decodes) {
      var k: nat :| 1 <= k && PageEnd(k, limit) < |s| && !decodes(s[PageEnd(k, limit) - 1]);
      assert EndsPage(PageEnd(k, limit) - 1, limit);
    }
  }

  /** Over a fixed table the pages concatenate to the whole sorted list, whatever the page size,
      exactly when the last row of every page but the final one has a cursor that decodes. */
  lemma PagesConcatenate<R(!new)>(s: seq<R>, limit: nat, less: (R, R) -> bool, decodes: R -> bool)
    requires StrictTotal(less) && Sorted(s, less) && limit >= 1
    ensures Walk(s, None, limit, less, decodes, |s|) == if BoundariesDecode(s, limit, decodes) then Some(s) else None
  {
    WalkFrom(s, 0, limit, less, decodes, |s|);
    assert s[0..] == s;
  }

  // ---------------------------------------------------------------- a changing table

  /** A completed walk: page i was read from snapshot i, starting after the last row of page i-1,
      and only the last page had no successor. */
  ghost predicate Walked<R(!new)>(tables: seq<seq<R>>, pages: seq<Page<R>>, limit: nat, less: (R, R) -> bool)
    requires limit >= 1
  {
    |tables| == |pages| >= 1
    && (forall i :: 0 <= i < |tables| ==> Sorted(tables[i], less))
    && (forall i :: 0 <= i < |pages| ==> pages[i] == Fetch(tables[i], CursorBefore(pages, i), limit, less))
    && (forall i :: 0 <= i < |pages| - 1 ==> pages[i].next.Some?)
    && pages[|pages| - 1].next.None?
  }

  function CursorBefore<R>(pages: seq<Page<R>>, i: nat): Option<R>
    requires i <= |pages|
  {
    if i == 0 then None else pages[i - 1].next
  }

  function Delivered<R>(pages: seq<Page<R>>): seq<R> {
    if pages == [] then [] else Delivered(pages[..|pages| - 1]) + pages[|pages| - 1].items
  }

  lemma FetchMeans<R(!new)>(s: seq<R>, cursor: Option<R>, limit: nat, less: (R, R) -> bool)
    requires StrictTotal(less) && Sorted(s, less) && limit >= 1
    ensures var p := Fetch(s, cursor, limit, less);
            Sorted(p.items, less) && (forall r <- p.items :: r in s && (cursor.Some? ==> less(cursor.value, r)))
            && (p.next.Some? ==> p.items != [] && p.next.value == p.items[|p.items| - 1])
            && (forall r <- s :: (cursor.Some? ==> less(cursor.value, r)) ==> r in p.items || (p.next.Some? && less(p.next.value, r)))
            && (p.next.Some? ==> (cursor.Some? ==> less(cursor.value, p.next.value)))
  {
    AfterMeans(s, cursor, less);
    var rows := After(s, cursor, less);
    if |rows| > limit {
      forall r <- s | cursor.Some? ==> less(cursor.value, r) ensures r in rows[..limit] || less(rows[limit - 1], r) {
        var k :| 0 <= k < |rows| && rows[k] == r;
        if k < limit {
          assert rows[..limit][k] == r;
        }
      }
    }
  }

  /** The rows up to some page: in order, nothing beyond the next cursor, and nothing missed that
      was there throughout. */
  lemma {:induction false} DeliveredUpTo<R(!new)>(tables: seq<seq<R>>, pages: seq<Page<R>>, limit: nat, less: (R, R) -> bool, n: nat)
    requires StrictTotal(less) && limit >= 1 && Walked(tables, pages, limit, less) && n <= |pages|
    ensures Sorted(Delivered(pages[..n]), less)
    ensures n < |pages| && n > 0 ==> forall r <- Delivered(pages[..n]) :: r == pages[n - 1].next.value || less(r, pages[n - 1].next.value)
    ensures forall r: R | (forall i :: 0 <= i < n ==> r in tables[i]) ::
              r in Delivered(pages[..n]) || n == 0 || (pages[n - 1].next.Some? && less(pages[n - 1].next.value, r))
  {
    hide StrictTotal, Fetch, Sorted;
    if n > 0 {
      var m := n - 1;
      DeliveredUpTo(tables, pages, limit, less, m);
      assert pages[..n][..m] == pages[..m];
      assert Delivered(pages[..n]) == Delivered(pages[..m]) + pages[m].items;
      assert Sorted(tables[m], less) && pages[m] == Fetch(tables[m], CursorBefore(pages, m), limit, less);
      OnePageMore(tables[m], Delivered(pages[..m]), pages[m], CursorBefore(pages, m), limit, less);
    } else {
      assert pages[..0] == [];
      assert Sorted(Delivered(pages[..0]), less) by { EmptySorted(less); }
    }
  }

  lemma EmptySorted<R(!new)>(less: (R, R) -> bool)
    ensures Sorted([], less)
  {
  }

  /** One page more keeps the order and misses nothing before the next cursor. */
  lemma OnePageMore<R(!new)>(s: seq<R>, before: seq<R>, page: Page<R>, cursor: Option<R>, limit: nat, less: (R, R) -> bool)
    requires StrictTotal(less) && Sorted(s, less) && limit >= 1 && page == Fetch(s, cursor, limit, less)
    requires Sorted(before, less) && (cursor.None? ==> before == [])
    requires cursor.Some? ==> forall r <- before :: r == cursor.value || less(r, cursor.value)
    ensures Sorted(before + page.items, less)
    ensures page.next.Some? ==> forall r <- before + page.items :: r == page.next.value || less(r, page.next.value)
    ensures forall r <- s :: (cursor.Some? ==> less(cursor.value, r)) ==> r in page.items || (page.next.Some? && less(page.next.value, r))
  {
    hide StrictTotal, Fetch;
    FetchMeans(s, cursor, limit, less);
    forall i, j | 0 <= i < |before| && 0 <= j < |page.items| ensures less(before[i], page.items[j]) {
      assert before[i] in before && page.items[j] in page.items;
      Transitive(less, before[i], cursor.value, page.items[j]);
    }
    if page.next.Some? {
      forall r <- before + page.items ensures r == page.next.value || less(r, page.next.value) {
        if r in before {
          Transitive(less, r, cursor.value, page.next.value);
        } else {
          LastIsGreatest(page.items, less, r);
        }
      }
    }
  }

  lemma LastIsGreatest<R(!new)>(s: seq<R>, less: (R, R) -> bool, r: R)
    requires Sorted(s, less) && s != []
    ensures r in s ==> r == s[|s| - 1] || less(r, s[|s| - 1])
  {
  }

  /** Walking page by page while the table changes delivers rows in order and never twice, and
      delivers every row that was present throughout with an unchanged key. */
  lemma ChangingTable<R(!new)>(tables: seq<seq<R>>, pages: seq<Page<R>>, limit: nat, less: (R, R) -> bool, r: R)
    requires StrictTotal(less) && limit >= 1 && Walked(tables, pages, limit, less)
    requires forall i :: 0 <= i < |tables| ==> r in tables[i]
    ensures Sorted(Delivered(pages), less)
    ensures exists k :: 0 <= k < |Delivered(pages)| && Delivered(pages)[k] == r
    ensures var d := Delivered(pages);
            forall j, k :: 0 <= j < |d| && 0 <= k < |d| && d[j] == r && d[k] == r ==> j == k
  {
    hide StrictTotal, Walked, Delivered, Sorted;
    assert |pages| >= 1 && |tables| == |pages| && pages[|pages| - 1].next.None? by { WalkedEnds(tables, pages, limit, less); }
    DeliveredUpTo(tables, pages, limit, less, |pages|);
    assert pages[..|pages|] == pages;
    assert r in Delivered(pages);
    OnlyOnce(Delivered(pages), less, r);
  }

  lemma WalkedEnds<R(!new)>(tables: seq<seq<R>>, pages: seq<Page<R>>, limit: nat, less: (R, R) -> bool)
    requires limit >= 1 && Walked(tables, pages, limit, less)
    ensures |pages| >= 1 && |tables| == |pages| && pages[|pages| - 1].next.None?
  {
  }

  lemma OnlyOnce<R(!new)>(s: seq<R>, less: (R, R) -> bool, r: R)
    requires StrictTotal(less) && Sorted(s, less)
    ensures forall j, k :: 0 <= j < |s| && 0 <= k < |s| && s[j] == r && s[k] == r ==> j == k
  {
    hide StrictTotal;
    Transitive(less, r, r, r);
  }

  // ---------------------------------------------------------------- the centred window

  function Max(a: int, b: int): int { if a < b then b else a }
  function Min(a: int, b: int): int { if a < b then a else b }

  /** The 1-based position of the window's first row for an anchor at position `at`. */
  function WindowStart(at: int, total: int, limit: int): int {
    Max(1, Min(at - limit / 2, Max(total - limit + 1, 1)))
  }

  /** The window for the anchor s[at - 1]. */
  function Window<R>(s: seq<R>, at: nat, limit: nat): Page<R>
    requires limit >= 1 && 1 <= at <= |s|
  {
    var rows := s[Min(WindowStart(at, |s|, limit) - 1, |s|)..];
    if |rows| > limit then Page(rows[..limit], Some(rows[limit - 1])) else Page(rows, None)
  }

  /** The window is a contiguous stretch of the order that contains the anchor and has min(limit,
      total) rows, and its cursor continues exactly where it ends.  `limit / 2` rows precede the
      anchor wherever both ends leave room; near an end the window lies at that end. */
  lemma WindowAroundAnchor<R(!new)>(s: seq<R>, at: nat, limit: nat, less: (R, R) -> bool)
    requires StrictTotal(less) && Sorted(s, less) && limit >= 1 && 1 <= at <= |s|
    ensures var w := Window(s, at, limit);
            var from := WindowStart(at, |s|, limit) - 1;
            |w.items| == Min(limit, |s|) && 0 <= from && from + |w.items| <= |s| && w.items == s[from..from + |w.items|]
            && from <= at - 1 < from + |w.items| && w.items[at - 1 - from] == s[at - 1]
            && (w.next.Some? <==> from + |w.items| < |s|)
            && (w.next.Some? ==> After(s, w.next, less) == s[from + |w.items|..])
            && (limit / 2 <= at - 1 && limit - 1 - limit / 2 <= |s| - at ==> from == at - 1 - limit / 2)
            && (at - 1 < limit / 2 ==> from == 0)
            && (|s| - at < limit - 1 - limit / 2 ==> from + |w.items| == |s|)
  {
    hide StrictTotal, Sorted, After;
    var from := WindowStart(at, |s|, limit) - 1;
    if |s| - from > limit {
      AfterRow(s, from + limit - 1, less);
    }
  }
}
