/** Sums over dated items: the one theory behind conservation, roll-up and trend merging. */
module Tally {
  /** Everything the reports add up. `days` counts items, `hours` their average hours. */
  datatype Sum = Sum(entries: int, exits: int, unique: int, late: int, head: int, hours: real, days: int)

  const ZERO: Sum := Sum(0, 0, 0, 0, 0, 0.0, 0)

  function Plus(a: Sum, b: Sum): Sum {
    Sum(a.entries + b.entries, a.exits + b.exits, a.unique + b.unique,
        a.late + b.late, a.head + b.head, a.hours + b.hours, a.days + b.days)
  }

  datatype Item = Item(day: nat, sum: Sum)

  /** A range of days, both ends included. */
  datatype Span = Span(first: int, last: int)

  predicate Within(day: int, span: Span) {
    span.first <= day <= span.last
  }

  function SumAll(items: seq<Item>): Sum
    decreases |items|
  {
    if items == [] then ZERO else Plus(SumAll(items[..|items| - 1]), items[|items| - 1].sum)
  }

  function SumIn(items: seq<Item>, span: Span): Sum
    decreases |items|
  {
    if items == [] then ZERO
    else
      var rest, x := SumIn(items[..|items| - 1], span), items[|items| - 1];
      if Within(x.day, span) then Plus(rest, x.sum) else rest
  }

  function SumSpans(items: seq<Item>, spans: seq<Span>): Sum
    decreases |spans|
  {
    if spans == [] then ZERO
    else Plus(SumSpans(items, spans[..|spans| - 1]), SumIn(items, spans[|spans| - 1]))
  }

  lemma SumInSnoc(items: seq<Item>, x: Item, span: Span)
    ensures SumIn(items + [x], span)
            == if Within(x.day, span) then Plus(SumIn(items, span), x.sum) else SumIn(items, span)
  {
    assert (items + [x])[..|items|] == items;
  }

  lemma SumAllSnoc(items: seq<Item>, x: Item)
    ensures SumAll(items + [x]) == Plus(SumAll(items), x.sum)
  {
    assert (items + [x])[..|items|] == items;
  }

  /** Adjacent ranges add up. */
  lemma {:induction false} SumInSplits(items: seq<Item>, first: int, middle: int, last: int)
    requires first <= middle + 1 <= last + 1
    ensures SumIn(items, Span(first, last))
            == Plus(SumIn(items, Span(first, middle)), SumIn(items, Span(middle + 1, last)))
    decreases |items|
  {
    if items != [] {
      SumInSplits(items[..|items| - 1], first, middle, last);
    }
  }

  lemma {:induction false} SumInNone(items: seq<Item>, span: Span)
    requires forall x <- items :: !Within(x.day, span)
    ensures SumIn(items, span) == ZERO
    decreases |items|
  {
    if items != [] {
      assert items[|items| - 1] in items;
      SumInNone(items[..|items| - 1], span);
    }
  }

  /** The spans are pairwise disjoint. */
  ghost predicate Disjoint(spans: seq<Span>) {
    forall i, j, day: int :: 0 <= i < j < |spans| && Within(day, spans[i]) ==> !Within(day, spans[j])
  }

  predicate Covered(day: int, spans: seq<Span>) {
    exists i :: 0 <= i < |spans| && Within(day, spans[i])
  }

  lemma CoveredLast(spans: seq<Span>, day: int)
    requires spans != []
    ensures Covered(day, spans) <==> Covered(day, spans[..|spans| - 1]) || Within(day, spans[|spans| - 1])
  {
    var init, last := spans[..|spans| - 1], spans[|spans| - 1];
    if Covered(day, init) {
      var i :| 0 <= i < |init| && Within(day, init[i]);
      assert Within(day, spans[i]);
    }
    if Covered(day, spans) && !Within(day, last) {
      var i :| 0 <= i < |spans| && Within(day, spans[i]);
      assert Within(day, init[i]);
    }
  }

  lemma CoveredOnce(spans: seq<Span>, day: int)
    requires Disjoint(spans) && spans != []
    ensures Disjoint(spans[..|spans| - 1])
    ensures Covered(day, spans[..|spans| - 1]) ==> !Within(day, spans[|spans| - 1])
  {
    var init := spans[..|spans| - 1];
    if Covered(day, init) {
      var i :| 0 <= i < |init| && Within(day, init[i]);
      assert Within(day, spans[i]);
    }
  }

  lemma PlusSwap(a: Sum, b: Sum, c: Sum)
    ensures Plus(Plus(a, c), b) == Plus(Plus(a, b), c)
    ensures Plus(a, Plus(b, c)) == Plus(Plus(a, b), c)
  {
  }

  /** Adding one item adds it to at most one of the disjoint spans. */
  lemma {:induction false} SumSpansSnoc(items: seq<Item>, x: Item, spans: seq<Span>)
    requires Disjoint(spans)
    ensures SumSpans(items + [x], spans) ==
            if Covered(x.day, spans) then Plus(SumSpans(items, spans), x.sum) else SumSpans(items, spans)
    decreases |spans|
  {
    if spans != [] {
      var init, last := spans[..|spans| - 1], spans[|spans| - 1];
      CoveredOnce(spans, x.day);
      CoveredLast(spans, x.day);
      SumSpansSnoc(items, x, init);
      SumInSnoc(items, x, last);
      PlusSwap(SumSpans(items, init), SumIn(items, last), x.sum);
    }
  }

  /** How many of the spans hold a day. */
  function Holding(spans: seq<Span>, day: int): nat
    decreases |spans|
  {
    if spans == [] then 0 else Holding(spans[..|spans| - 1], day) + if Within(day, spans[|spans| - 1]) then 1 else 0
  }

  lemma {:induction false} HoldingDisjoint(spans: seq<Span>, day: int)
    requires Disjoint(spans)
    ensures Holding(spans, day) == if Covered(day, spans) then 1 else 0
    decreases |spans|
  {
    if spans != [] {
      CoveredOnce(spans, day);
      CoveredLast(spans, day);
      HoldingDisjoint(spans[..|spans| - 1], day);
    }
  }

  lemma {:induction false} HoldingSame(a: seq<Span>, b: seq<Span>, day: int)
    requires |a| == |b| && forall i :: 0 <= i < |a| ==> (Within(day, a[i]) <==> Within(day, b[i]))
    ensures Holding(a, day) == Holding(b, day)
    decreases |a|
  {
    if a != [] {
      HoldingSame(a[..|a| - 1], b[..|b| - 1], day);
    }
  }

  lemma {:induction false} HoldingNone(spans: seq<Span>, day: int)
    requires forall i :: 0 <= i < |spans| ==> !Within(day, spans[i])
    ensures Holding(spans, day) == 0
    decreases |spans|
  {
    if spans != [] {
      HoldingNone(spans[..|spans| - 1], day);
    }
  }

  lemma {:induction false} SumInSame(items: seq<Item>, a: Span, b: Span)
    requires forall x <- items :: Within(x.day, a) <==> Within(x.day, b)
    ensures SumIn(items, a) == SumIn(items, b)
    decreases |items|
  {
    if items != [] {
      assert items[|items| - 1] in items;
      SumInSame(items[..|items| - 1], a, b);
    }
  }

  lemma {:induction false} SumSpansSame(items: seq<Item>, a: seq<Span>, b: seq<Span>)
    requires |a| == |b| && forall i, x :: 0 <= i < |a| && x in items ==> (Within(x.day, a[i]) <==> Within(x.day, b[i]))
    ensures SumSpans(items, a) == SumSpans(items, b)
    decreases |a|
  {
    if a != [] {
      SumSpansSame(items, a[..|a| - 1], b[..|b| - 1]);
      SumInSame(items, a[|a| - 1], b[|b| - 1]);
    }
  }

  lemma DisjointSnoc(spans: seq<Span>, last: Span)
    requires Disjoint(spans) && forall day: int :: Covered(day, spans) ==> !Within(day, last)
    ensures Disjoint(spans + [last])
  {
    var all := spans + [last];
    forall i, j, day: int | 0 <= i < j < |all| && Within(day, all[i]) ensures !Within(day, all[j]) {
      if j == |spans| {
        assert Within(day, spans[i]) && Covered(day, spans);
      }
    }
  }

  lemma {:induction false} SumSpansNothing(spans: seq<Span>)
    ensures SumSpans([], spans) == ZERO
    decreases |spans|
  {
    if spans != [] {
      SumSpansNothing(spans[..|spans| - 1]);
    }
  }

  /** Disjoint spans that cover exactly the items of a range add up to the range. */
  lemma {:induction false} PartitionOfRange(items: seq<Item>, spans: seq<Span>, range: Span)
    requires Disjoint(spans) && forall x <- items :: Covered(x.day, spans) <==> Within(x.day, range)
    ensures SumSpans(items, spans) == SumIn(items, range)
    decreases |items|
  {
    if items == [] {
      SumSpansNothing(spans);
    } else {
      var init, x := items[..|items| - 1], items[|items| - 1];
      assert items == init + [x] && x in items;
      PartitionOfRange(init, spans, range);
      SumSpansSnoc(init, x, spans);
    }
  }

  /** Conservation: disjoint spans that cover every item add up to the whole. */
  lemma {:induction false} PartitionConserves(items: seq<Item>, spans: seq<Span>)
    requires Disjoint(spans) && forall x <- items :: Covered(x.day, spans)
    ensures SumSpans(items, spans) == SumAll(items)
    decreases |items|
  {
    if items == [] {
      SumSpansNothing(spans);
    } else {
      var init, x := items[..|items| - 1], items[|items| - 1];
      assert items == init + [x] && x in items;
      PartitionConserves(init, spans);
      SumSpansSnoc(init, x, spans);
    }
  }
}
