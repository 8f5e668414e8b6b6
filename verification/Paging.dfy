/** Reading an ordered result page by page with LIMIT and OFFSET
    (report-api/internal/repository/inout.go, report-api/internal/service/report_service.go).
    The rows are ordered by a time that need not be unique. */
module Paging {
  import opened Options

  function Slice<T>(rows: seq<T>, offset: nat, limit: nat): seq<T> {
    if offset >= |rows| then [] else if offset + limit >= |rows| then rows[offset..] else rows[offset..offset + limit]
  }

  ghost predicate Descending<T>(time: T -> int, rows: seq<T>) {
    forall i, j :: 0 <= i < j < |rows| ==> time(rows[i]) >= time(rows[j])
  }

  /** An answer to ORDER BY event_time DESC: rows of equal time come in any order. */
  ghost predicate Ordering<T>(time: T -> int, order: seq<T>, rows: seq<T>) {
    multiset(order) == multiset(rows) && Descending(time, order)
  }

  /** Pages 1 to n, page p read in the order the engine chose for that request. */
  function Pages<T>(orders: nat -> seq<T>, size: nat, n: nat): seq<T> {
    if n == 0 then [] else Pages(orders, size, n - 1) + Slice(orders(n), (n - 1) * size, size)
  }

  function PageCount(total: nat, size: nat): nat
    requires size > 0
  {
    (total + size - 1) / size
  }

  /** No page more than needed: page ceil(total / size) begins before the end. */
  lemma PageCountIsLeast(total: nat, size: nat)
    requires size > 0 && total > 0
    ensures (PageCount(total, size) - 1) * size < total <= PageCount(total, size) * size
  {
    PageCountCovers(total, size);
    assert (total + size - 1) / size * size <= total + size - 1;
  }

  lemma PageCountCovers(total: nat, size: nat)
    requires size > 0
    ensures PageCount(total, size) * size >= total
  {
    var n := total + size - 1;
    assert n == size * (n / size) + n % size;
  }

  lemma SameBagSameLength<T>(a: seq<T>, b: seq<T>)
    requires multiset(a) == multiset(b)
    ensures |a| == |b|
  {
    assert |multiset(a)| == |a| && |multiset(b)| == |b|;
  }

  // ---------------------------------------------------------------------------
  // What two descending orders of the same rows have in common.
  // ---------------------------------------------------------------------------

  /** The rows at or above a time, in order. */
  function Above<T>(time: T -> int, least: int, rows: seq<T>): seq<T>
    decreases |rows|
  {
    if rows == [] then []
    else
      var rest, last := Above(time, least, rows[..|rows| - 1]), rows[|rows| - 1];
      if time(last) >= least then rest + [last] else rest
  }

  lemma {:induction false} AboveLength<T>(time: T -> int, least: int, rows: seq<T>)
    ensures |Above(time, least, rows)| <= |rows|
    ensures (forall i :: 0 <= i < |rows| ==> time(rows[i]) >= least) ==> Above(time, least, rows) == rows
    decreases |rows|
  {
    if rows != [] {
      assert rows == rows[..|rows| - 1] + [rows[|rows| - 1]];
      AboveLength(time, least, rows[..|rows| - 1]);
    }
  }

  /** In a descending order they come first, and the next row is below. */
  lemma {:induction false} AboveIsPrefix<T>(time: T -> int, least: int, rows: seq<T>)
    requires Descending(time, rows)
    ensures var n := |Above(time, least, rows)|;
            && n <= |rows| && Above(time, least, rows) == rows[..n]
            && (forall i :: 0 <= i < n ==> time(rows[i]) >= least)
            && (forall i :: n <= i < |rows| ==> time(rows[i]) < least)
    decreases |rows|
  {
    AboveLength(time, least, rows);
    if rows != [] {
      var init, last := rows[..|rows| - 1], rows[|rows| - 1];
      AboveIsPrefix(time, least, init);
      if time(last) >= least {
        assert forall i :: 0 <= i < |rows| ==> time(rows[i]) >= time(last);
      } else {
        assert Above(time, least, rows) == Above(time, least, init);
      }
    }
  }

  lemma {:induction false} AboveConcat<T>(time: T -> int, least: int, a: seq<T>, b: seq<T>)
    ensures Above(time, least, a + b) == Above(time, least, a) + Above(time, least, b)
    decreases |b|
  {
    if b == [] {
      assert a + b == a;
    } else {
      assert (a + b)[..|a + b| - 1] == a + b[..|b| - 1];
      AboveConcat(time, least, a, b[..|b| - 1]);
    }
  }

  lemma AboveOne<T>(time: T -> int, least: int, x: T)
    ensures Above(time, least, [x]) == if time(x) >= least then [x] else []
  {
    assert [x][..0] == [];
  }

  lemma WithoutOne<T>(a: seq<T>, b: seq<T>) returns (k: nat)
    requires a != [] && multiset(a) == multiset(b)
    ensures k < |b| && b[k] == a[|a| - 1] && multiset(b[..k] + b[k + 1..]) == multiset(a[..|a| - 1])
  {
    var init, x := a[..|a| - 1], a[|a| - 1];
    assert a == init + [x];
    assert x in multiset(b);
    k :| 0 <= k < |b| && b[k] == x;
    assert b == b[..k] + [x] + b[k + 1..];
    assert multiset(b[..k] + b[k + 1..]) == multiset(b) - multiset{x};
    assert multiset(init) == multiset(a) - multiset{x};
  }

  lemma {:induction false} AboveAgrees<T>(time: T -> int, least: int, a: seq<T>, b: seq<T>)
    requires multiset(a) == multiset(b)
    ensures multiset(Above(time, least, a)) == multiset(Above(time, least, b))
    ensures |Above(time, least, a)| == |Above(time, least, b)|
    decreases |a|
  {
    SameBagSameLength(a, b);
    if a != [] {
      var k := WithoutOne(a, b);
      var init, x, before, after := a[..|a| - 1], a[|a| - 1], b[..k], b[k + 1..];
      AboveAgrees(time, least, init, before + after);
      assert b == before + ([x] + after) && a == init + [x];
      AboveAround(time, least, before, x, after);
      AboveConcat(time, least, init, [x]);
    }
  }

  lemma AboveAround<T>(time: T -> int, least: int, before: seq<T>, x: T, after: seq<T>)
    ensures multiset(Above(time, least, before + ([x] + after)))
            == multiset(Above(time, least, before + after)) + multiset(Above(time, least, [x]))
    ensures |Above(time, least, before + ([x] + after))|
            == |Above(time, least, before + after)| + |Above(time, least, [x])|
  {
    AboveConcat(time, least, before, after);
    AboveConcat(time, least, before, [x] + after);
    AboveConcat(time, least, [x], after);
  }

  /** No two different rows of one time lie on either side of position c. */
  ghost predicate CleanCut<T>(time: T -> int, order: seq<T>, c: nat) {
    forall i, j :: 0 <= i < c <= j < |order| && time(order[i]) == time(order[j]) ==> order[i] == order[j]
  }

  /** Where the times differ at the cut, every descending order has the same rows before it. */
  lemma StrictCutAgrees<T>(time: T -> int, a: seq<T>, b: seq<T>, c: nat)
    requires Descending(time, a) && Ordering(time, b, a) && 0 < c < |a| && time(a[c - 1]) > time(a[c])
    ensures |a| == |b| && multiset(b[..c]) == multiset(a[..c])
  {
    var least := time(a[c - 1]);
    SameBagSameLength(a, b);
    AboveIsPrefix(time, least, a);
    AboveIsPrefix(time, least, b);
    AboveAgrees(time, least, a, b);
    var n := |Above(time, least, a)|;
    assert n == c by {
      assert n <= c && n > c - 1;
    }
  }

  lemma Replicated<T>(a: seq<T>, b: seq<T>, x: T)
    requires |a| == |b| && (forall i :: 0 <= i < |a| ==> a[i] == x) && (forall i :: 0 <= i < |b| ==> b[i] == x)
    ensures a == b
  {
  }

  /** Where the cut goes through copies of one row, the rows before it are the same too. */
  lemma SameRowCutAgrees<T>(time: T -> int, a: seq<T>, b: seq<T>, c: nat)
    requires Descending(time, a) && Ordering(time, b, a) && 0 < c < |a| && time(a[c - 1]) == time(a[c])
             && CleanCut(time, a, c)
    ensures |a| == |b| && multiset(b[..c]) == multiset(a[..c])
  {
    var t, x := time(a[c]), a[c];
    SameBagSameLength(a, b);
    AboveIsPrefix(time, t + 1, a);
    AboveIsPrefix(time, t + 1, b);
    AboveAgrees(time, t + 1, a, b);
    AboveIsPrefix(time, t, b);
    AboveIsPrefix(time, t, a);
    AboveAgrees(time, t, a, b);
    var n, m := |Above(time, t + 1, a)|, |Above(time, t, a)|;
    assert n < c < m;
    OnlyCopies(time, a, c);
    forall i | n <= i < c ensures b[i] == x {
      assert time(b[i]) == t;
      assert b[i] in multiset(a);
      var k :| 0 <= k < |a| && a[k] == b[i];
    }
    Replicated(a[n..c], b[n..c], x);
    assert a[..c] == a[..n] + a[n..c] && b[..c] == b[..n] + b[n..c];
  }

  lemma OnlyCopies<T>(time: T -> int, a: seq<T>, c: nat)
    requires 0 < c < |a| && time(a[c - 1]) == time(a[c]) && CleanCut(time, a, c)
    ensures forall k :: 0 <= k < |a| && time(a[k]) == time(a[c]) ==> a[k] == a[c]
  {
    forall k | 0 <= k < |a| && time(a[k]) == time(a[c]) ensures a[k] == a[c] {
      if k < c {
        assert a[k] == a[c];
      } else {
        assert a[c - 1] == a[k] && a[c - 1] == a[c];
      }
    }
  }

  /** Before a clean cut every descending order holds the same rows. */
  lemma CleanCutAgrees<T>(time: T -> int, a: seq<T>, b: seq<T>, c: nat)
    requires Descending(time, a) && Ordering(time, b, a) && c <= |a| && CleanCut(time, a, c)
    ensures |a| == |b| && multiset(b[..c]) == multiset(a[..c])
  {
    SameBagSameLength(a, b);
    if c == |a| {
      assert a[..c] == a && b[..c] == b;
    } else if c > 0 {
      if time(a[c - 1]) == time(a[c]) {
        SameRowCutAgrees(time, a, b, c);
      } else {
        StrictCutAgrees(time, a, b, c);
      }
    }
  }

  // ---------------------------------------------------------------------------
  // Complete runs.
  // ---------------------------------------------------------------------------

  /** Pages 1 to ceil(n / size) show every row once, whatever order the engine gives to rows of
      equal time at each request. */
  ghost predicate EveryRunIsComplete<T(!new)>(time: T -> int, rows: seq<T>, size: nat)
    requires size > 0
  {
    forall orders: nat -> seq<T> :: (forall p: nat :: Ordering(time, orders(p), rows)) ==>
      multiset(Pages(orders, size, PageCount(|rows|, size))) == multiset(rows)
  }

  /** Every page boundary is a clean cut. */
  ghost predicate CleanPages<T>(time: T -> int, order: seq<T>, size: nat) {
    forall m: nat :: CleanCut(time, order, Upto(m * size, |order|))
  }

  lemma BagSplits<T>(s: seq<T>, i: nat, j: nat)
    requires i <= j <= |s|
    ensures multiset(s[..j]) == multiset(s[..i]) + multiset(s[i..j])
  {
    assert s[..j] == s[..i] + s[i..j];
  }

  lemma SliceIs<T>(rows: seq<T>, done: nat, size: nat)
    ensures Slice(rows, done, size) == rows[Upto(done, |rows|)..Upto(done + size, |rows|)]
  {
  }

  /** The rows of pages 1 to n of one order. */
  function FirstPages<T>(order: seq<T>, size: nat, n: nat): seq<T> {
    order[..Upto(n * size, |order|)]
  }

  /** Page n of `other` holds the rows that page n of `order` holds. */
  ghost predicate PageFits<T>(other: seq<T>, order: seq<T>, size: nat, n: nat)
    requires n > 0
  {
    multiset(FirstPages(order, size, n - 1)) + multiset(Slice(other, (n - 1) * size, size))
    == multiset(FirstPages(order, size, n))
  }

  /** Pages 1 to n together hold the rows of pages 1 to n of `order`. */
  ghost predicate Complete<T>(orders: nat -> seq<T>, order: seq<T>, size: nat, n: nat) {
    multiset(Pages(orders, size, n)) == multiset(FirstPages(order, size, n))
  }

  lemma NoPages<T>(orders: nat -> seq<T>, order: seq<T>, size: nat)
    ensures Complete(orders, order, size, 0)
  {
  }

  lemma JoinsPage<T>(orders: nat -> seq<T>, order: seq<T>, size: nat, n: nat)
    requires n > 0 && PageFits(orders(n), order, size, n)
    requires Complete(orders, order, size, n - 1)
    ensures Complete(orders, order, size, n)
  {
  }

  lemma {:induction false} PageByPage(holds: nat -> bool, n: nat)
    requires holds(0) && forall k: nat :: holds(k) ==> holds(k + 1)
    ensures holds(n)
  {
    if n > 0 {
      PageByPage(holds, n - 1);
    }
  }

  lemma CleanPagesComplete<T>(time: T -> int, orders: nat -> seq<T>, order: seq<T>, size: nat, n: nat)
    requires Descending(time, order) && CleanPages(time, order, size)
    requires forall p: nat :: Ordering(time, orders(p), order)
    ensures Complete(orders, order, size, n)
  {
    ghost var holds := (k: nat) => Complete(orders, order, size, k);
    NoPages(orders, order, size);
    forall k: nat | holds(k) ensures holds(k + 1) {
      CleanPage(time, order, orders(k + 1), size, k + 1);
      JoinsPage(orders, order, size, k + 1);
    }
    PageByPage(holds, n);
  }

  lemma CleanPage<T>(time: T -> int, order: seq<T>, other: seq<T>, size: nat, n: nat)
    requires Descending(time, order) && CleanPages(time, order, size) && Ordering(time, other, order) && n > 0
    ensures PageFits(other, order, size, n)
  {
    var done := (n - 1) * size;
    assert done + size == n * size;
    var i, j := Upto(done, |order|), Upto(done + size, |order|);
    assert CleanCut(time, order, Upto((n - 1) * size, |order|)) && CleanCut(time, order, Upto(n * size, |order|));
    CleanCutAgrees(time, order, other, i);
    CleanCutAgrees(time, order, other, j);
    BagSplits(other, i, j);
    SliceIs(other, done, size);
  }

  /** With one order the pages are the full result. */
  lemma {:induction false} PagesArePrefix<T>(orders: nat -> seq<T>, rows: seq<T>, size: nat, n: nat)
    requires forall p: nat :: orders(p) == rows
    ensures Pages(orders, size, n) == rows[..Upto(n * size, |rows|)]
  {
    if n > 0 {
      var done := (n - 1) * size;
      PagesArePrefix(orders, rows, size, n - 1);
      assert n * size == done + size;
      SliceIs(rows, done, size);
      Extends(rows, Upto(done, |rows|), Upto(done + size, |rows|));
    }
  }

  /** With a fixed order, pages 1 to ceil(n / size) are the full result, each row once. */
  lemma FixedOrderTiles<T>(orders: nat -> seq<T>, rows: seq<T>, size: nat)
    requires size > 0 && forall p: nat :: orders(p) == rows
    ensures Pages(orders, size, PageCount(|rows|, size)) == rows
  {
    PagesArePrefix(orders, rows, size, PageCount(|rows|, size));
    PageCountCovers(|rows|, size);
  }

  // ---------------------------------------------------------------------------
  // Boundaries that lose rows.
  // ---------------------------------------------------------------------------

  function Swapped<T>(order: seq<T>, i: nat, j: nat): seq<T>
    requires i < j < |order|
  {
    order[i := order[j]][j := order[i]]
  }

  lemma SwappedOrders<T>(time: T -> int, order: seq<T>, i: nat, j: nat)
    requires i < j < |order| && Descending(time, order) && time(order[i]) == time(order[j])
    ensures Ordering(time, Swapped(order, i, j), order)
  {
    var s := Swapped(order, i, j);
    assert forall k :: 0 <= k < |s| ==> time(s[k]) == time(order[k]);
  }

  /** The engine's choices that lose a row: one order up to page m, another one after it. */
  function Choices<T>(order: seq<T>, i: nat, j: nat, m: nat): nat -> seq<T>
    requires i < j < |order|
  {
    (p: nat) => if p <= m then order else Swapped(order, i, j)
  }

  /** Page by page, a run that changes its order after page m. */
  lemma {:induction false} ChangedRun<T>(order: seq<T>, i: nat, j: nat, m: nat, size: nat, n: nat)
    requires i < m * size <= j < |order|
    ensures Pages(Choices(order, i, j, m), size, n)
            == (if n <= m then order else order[j := order[i]])[..Upto(n * size, |order|)]
  {
    if n > 0 {
      ChangedRun(order, i, j, m, size, n - 1);
      var done := (n - 1) * size;
      assert n * size == done + size;
      if n > m {
        Ordered(m, n - 1, size);
      }
      ChangedStep(order, i, j, m, size, done, n);
    }
  }

  lemma ChangedStep<T>(order: seq<T>, i: nat, j: nat, m: nat, size: nat, done: nat, n: nat)
    requires i < j < |order| && n > 0
    requires n > m ==> i < done
    requires n == m + 1 ==> done <= j
    ensures (if n - 1 <= m then order else order[j := order[i]])[..Upto(done, |order|)]
            + Slice(Choices(order, i, j, m)(n), done, size)
            == (if n <= m then order else order[j := order[i]])[..Upto(done + size, |order|)]
  {
    SliceIs(Choices(order, i, j, m)(n), done, size);
    if n <= m {
      Extends(order, Upto(done, |order|), Upto(done + size, |order|));
    } else {
      ChangedPage(order, i, j, Upto(done, |order|), Upto(done + size, |order|));
      if n - 1 == m {
        Untouched(order, i, j, done);
      }
    }
  }

  lemma Untouched<T>(order: seq<T>, i: nat, j: nat, lo: nat)
    requires i < j < |order| && lo <= j
    ensures order[..lo] == order[j := order[i]][..lo]
  {
  }

  lemma Extends<T>(s: seq<T>, i: nat, j: nat)
    requires i <= j <= |s|
    ensures s[..i] + s[i..j] == s[..j]
  {
  }

  lemma ChangedPage<T>(order: seq<T>, i: nat, j: nat, lo: nat, hi: nat)
    requires i < j < |order| && i < lo <= hi <= |order|
    ensures var t := order[j := order[i]]; t[..lo] + Swapped(order, i, j)[lo..hi] == t[..hi]
  {
  }

  lemma Ordered(a: nat, b: nat, size: nat)
    requires a <= b
    ensures a * size <= b * size
  {
  }

  /** Two different rows of one time on either side of a page boundary: some run of pages shows
      one of them twice and the other one never. */
  lemma TiesLoseRows<T>(time: T -> int, order: seq<T>, size: nat, m: nat, i: nat, j: nat)
    requires Descending(time, order) && size > 0 && i < m * size <= j < |order|
    requires time(order[i]) == time(order[j]) && order[i] != order[j]
    ensures forall p: nat :: Ordering(time, Choices(order, i, j, m)(p), order)
    ensures multiset(Pages(Choices(order, i, j, m), size, PageCount(|order|, size))) != multiset(order)
  {
    SwappedOrders(time, order, i, j);
    var n := PageCount(|order|, size);
    PageCountCovers(|order|, size);
    if n <= m {
      Ordered(n, m, size);
    }
    ChangedRun(order, i, j, m, size, n);
    assert order[j := order[i]][..|order|] == order[j := order[i]];
    CopiedOver(order, i, j);
  }

  lemma CopiedOver<T>(order: seq<T>, i: nat, j: nat)
    requires i < |order| && j < |order| && order[i] != order[j]
    ensures multiset(order[j := order[i]]) != multiset(order)
  {
    var bag := multiset(order);
    assert multiset(order[j := order[i]]) == bag[order[j] := bag[order[j]] - 1][order[i] := bag[order[i]] + 1];
  }

  /** For each page size: every run of pages is complete if and only if no page boundary has
      two different rows of the same time on either side of it. */
  lemma PagingIsExact<T(!new)>(time: T -> int, rows: seq<T>, order: seq<T>, size: nat)
    requires size > 0 && Ordering(time, order, rows)
    ensures EveryRunIsComplete(time, rows, size) <==> CleanPages(time, order, size)
  {
    SameBagSameLength(order, rows);
    if CleanPages(time, order, size) {
      forall orders: nat -> seq<T> | forall p: nat :: Ordering(time, orders(p), rows)
        ensures multiset(Pages(orders, size, PageCount(|rows|, size))) == multiset(rows) {
        CleanPagesComplete(time, orders, order, size, PageCount(|rows|, size));
        PageCountCovers(|rows|, size);
        assert order[..|order|] == order;
      }
    } else {
      var m: nat :| !CleanCut(time, order, Upto(m * size, |order|));
      var i, j :| 0 <= i < Upto(m * size, |order|) <= j < |order| && time(order[i]) == time(order[j])
          && order[i] != order[j];
      TiesLoseRows(time, order, size, m, i, j);
      var orders := Choices(order, i, j, m);
      assert forall p: nat :: Ordering(time, orders(p), rows);
      assert multiset(Pages(orders, size, PageCount(|rows|, size))) != multiset(rows);
    }
  }

  /** A result that fits one page is complete whatever the ties. */
  lemma OnePageIsComplete<T(!new)>(time: T -> int, rows: seq<T>, order: seq<T>, size: nat)
    requires size > 0 && |rows| <= size && Ordering(time, order, rows)
    ensures EveryRunIsComplete(time, rows, size)
  {
    SameBagSameLength(order, rows);
    forall m: nat ensures CleanCut(time, order, Upto(m * size, |order|)) {
      if m > 0 {
        Ordered(1, m, size);
      }
    }
    PagingIsExact(time, rows, order, size);
  }
}
