/** Grouping dated items into numbered slots, for any calendar in which every slot is a range of
    days. Months, quarters and years are the instances; nothing here depends on them. */
module Buckets {
  import opened Tally

  /** `slot` says where a day belongs, `first` and `last` which days a slot consists of. */
  datatype Bucketing = Bucketing(slot: nat -> nat, first: nat -> nat, last: nat -> int)

  function SpanOf(b: Bucketing, slot: nat): Span {
    Span(b.first(slot), b.last(slot))
  }

  /** Each slot's range holds exactly the slot's days, and at least one. */
  ghost predicate Exact(b: Bucketing) {
    && (forall day: nat, slot: nat :: Within(day, SpanOf(b, slot)) <==> b.slot(day) == slot)
    && (forall slot: nat :: b.slot(b.first(slot)) == slot)
  }

  lemma InSpan(b: Bucketing, day: int, slot: nat)
    requires Exact(b)
    ensures Within(day, SpanOf(b, slot)) <==> day >= 0 && b.slot(day) == slot
  {
    if day >= 0 {
      var n: nat := day;
      assert Within(n, SpanOf(b, slot)) <==> b.slot(n) == slot;
    }
  }

  /** The slots that occur, in the order in which they first occur. */
  function Slots(b: Bucketing, items: seq<Item>): seq<nat>
    decreases |items|
  {
    if items == [] then []
    else
      var init, slot := Slots(b, items[..|items| - 1]), b.slot(items[|items| - 1].day);
      if slot in init then init else init + [slot]
  }

  lemma SlotsSnoc(b: Bucketing, items: seq<Item>, x: Item)
    ensures Slots(b, items + [x]) ==
            if b.slot(x.day) in Slots(b, items) then Slots(b, items) else Slots(b, items) + [b.slot(x.day)]
  {
    assert (items + [x])[..|items|] == items;
  }

  predicate Distinct(slots: seq<nat>) {
    forall i, j :: 0 <= i < j < |slots| ==> slots[i] != slots[j]
  }

  lemma {:induction false} SlotsAreDistinct(b: Bucketing, items: seq<Item>)
    ensures Distinct(Slots(b, items))
    ensures forall x <- items :: b.slot(x.day) in Slots(b, items)
    decreases |items|
  {
    if items != [] {
      var init, last := items[..|items| - 1], items[|items| - 1];
      SlotsAreDistinct(b, init);
      assert items == init + [last];
    }
  }

  lemma {:induction false} SlotsOccur(b: Bucketing, items: seq<Item>, slot: nat) returns (x: Item)
    requires slot in Slots(b, items)
    ensures x in items && b.slot(x.day) == slot
    decreases |items|
  {
    var init, last := items[..|items| - 1], items[|items| - 1];
    assert items == init + [last];
    if b.slot(last.day) == slot {
      x := last;
    } else {
      x := SlotsOccur(b, init, slot);
    }
  }

  function SpansOf(b: Bucketing, slots: seq<nat>): seq<Span> {
    seq(|slots|, i requires 0 <= i < |slots| => SpanOf(b, slots[i]))
  }

  /** The slots of a grouping are disjoint ranges of days that cover every item, so their sums
      add up to the sum of all items. */
  lemma GroupingConserves(b: Bucketing, items: seq<Item>)
    requires Exact(b)
    ensures var spans := SpansOf(b, Slots(b, items));
            && Disjoint(spans)
            && (forall x <- items :: Covered(x.day, spans))
            && SumSpans(items, spans) == SumAll(items)
  {
    var slots := Slots(b, items);
    var spans := SpansOf(b, slots);
    SlotsAreDistinct(b, items);
    forall i, j, day: int | 0 <= i < j < |spans| && Within(day, spans[i]) ensures !Within(day, spans[j]) {
      InSpan(b, day, slots[i]);
      InSpan(b, day, slots[j]);
    }
    forall x | x in items ensures Covered(x.day, spans) {
      var i :| 0 <= i < |slots| && slots[i] == b.slot(x.day);
      InSpan(b, x.day, slots[i]);
      assert Within(x.day, spans[i]);
    }
    PartitionConserves(items, spans);
  }

  /** What one more item does to the slots' sums. */
  lemma SlotSumSnoc(b: Bucketing, items: seq<Item>, x: Item, slot: nat)
    requires Exact(b)
    ensures SumIn(items + [x], SpanOf(b, slot)) ==
            if b.slot(x.day) == slot then Plus(SumIn(items, SpanOf(b, slot)), x.sum) else SumIn(items, SpanOf(b, slot))
  {
    SumInSnoc(items, x, SpanOf(b, slot));
    InSpan(b, x.day, slot);
  }

  lemma NewSlotIsEmpty(b: Bucketing, items: seq<Item>, slot: nat)
    requires Exact(b) && slot !in Slots(b, items)
    ensures SumIn(items, SpanOf(b, slot)) == ZERO
  {
    SlotsAreDistinct(b, items);
    forall y | y in items ensures !Within(y.day, SpanOf(b, slot)) {
      InSpan(b, y.day, slot);
    }
    SumInNone(items, SpanOf(b, slot));
  }

  // ---------------------------------------------------------------------------
  // Regrouping.
  // ---------------------------------------------------------------------------

  /** Every fine slot lies inside one coarse slot, the one `up` names. */
  ghost predicate Refines(fine: Bucketing, coarse: Bucketing, up: nat -> nat) {
    forall day: nat :: coarse.slot(day) == up(fine.slot(day))
  }

  /** The fine groups as items again: each slot's sum, dated on its first day. */
  function SlotItems(b: Bucketing, slots: seq<nat>, items: seq<Item>): seq<Item> {
    seq(|slots|, i requires 0 <= i < |slots| => Item(b.first(slots[i]), SumIn(items, SpanOf(b, slots[i]))))
  }

  lemma SlotItemsSplit(b: Bucketing, slots: seq<nat>, slot: nat, items: seq<Item>)
    ensures SlotItems(b, slots + [slot], items) ==
            SlotItems(b, slots, items) + [Item(b.first(slot), SumIn(items, SpanOf(b, slot)))]
  {
  }

  /** The coarse slots of the fine groups are those of the items, in the same order. */
  lemma {:induction false} SlotsOfSlots(fine: Bucketing, coarse: Bucketing, up: nat -> nat, items: seq<Item>,
                                        all: seq<Item>)
    requires Exact(fine) && Refines(fine, coarse, up)
    ensures Slots(coarse, SlotItems(fine, Slots(fine, items), all)) == Slots(coarse, items)
    decreases |items|
  {
    if items != [] {
      var init, last := items[..|items| - 1], items[|items| - 1];
      assert items == init + [last];
      SlotsOfSlots(fine, coarse, up, init, all);
      SlotsSnoc(fine, init, last);
      SlotsSnoc(coarse, init, last);
      var before, slot := Slots(fine, init), fine.slot(last.day);
      if slot in before {
        var x := SlotsOccur(fine, init, slot);
        SlotsAreDistinct(coarse, init);
        assert coarse.slot(x.day) == coarse.slot(last.day);
      } else {
        SlotItemsSplit(fine, before, slot, all);
        var first := Item(fine.first(slot), SumIn(all, SpanOf(fine, slot)));
        SlotsSnoc(coarse, SlotItems(fine, before, all), first);
        assert coarse.slot(fine.first(slot)) == up(slot) == coarse.slot(last.day);
      }
    }
  }

  /** One more item changes the fine groups inside a range by that item or not at all. */
  lemma {:induction false} SlotItemsGrow(b: Bucketing, slots: seq<nat>, items: seq<Item>, x: Item, span: Span)
    requires Exact(b) && Distinct(slots)
    ensures SumIn(SlotItems(b, slots, items + [x]), span) ==
            if b.slot(x.day) in slots && Within(b.first(b.slot(x.day)), span)
            then Plus(SumIn(SlotItems(b, slots, items), span), x.sum)
            else SumIn(SlotItems(b, slots, items), span)
    decreases |slots|
  {
    if slots != [] {
      var init, last := slots[..|slots| - 1], slots[|slots| - 1];
      assert slots == init + [last];
      SlotItemsGrow(b, init, items, x, span);
      SlotSumSnoc(b, items, x, last);
      SlotItemsSplit(b, init, last, items + [x]);
      SlotItemsSplit(b, init, last, items);
      SumInSnoc(SlotItems(b, init, items + [x]), Item(b.first(last), SumIn(items + [x], SpanOf(b, last))), span);
      SumInSnoc(SlotItems(b, init, items), Item(b.first(last), SumIn(items, SpanOf(b, last))), span);
      assert last !in init;
    }
  }

  /** The fine groups inside a coarse slot add up to the coarse slot's sum. */
  lemma {:induction false} FineSumsAddUp(fine: Bucketing, coarse: Bucketing, up: nat -> nat, items: seq<Item>,
                                         target: nat)
    requires Exact(fine) && Exact(coarse) && Refines(fine, coarse, up)
    ensures SumIn(SlotItems(fine, Slots(fine, items), items), SpanOf(coarse, target))
            == SumIn(items, SpanOf(coarse, target))
    decreases |items|
  {
    if items != [] {
      var init, x := items[..|items| - 1], items[|items| - 1];
      assert items == init + [x];
      var span := SpanOf(coarse, target);
      FineSumsAddUp(fine, coarse, up, init, target);
      SlotSumSnoc(coarse, init, x, target);
      SlotsSnoc(fine, init, x);
      SlotsAreDistinct(fine, items);
      var before, slot := Slots(fine, init), fine.slot(x.day);
      if slot !in before {
        NewSlotIsEmpty(fine, init, slot);
        SlotItemsSplit(fine, before, slot, init);
        SumInSnoc(SlotItems(fine, before, init), Item(fine.first(slot), ZERO), span);
      }
      SlotItemsGrow(fine, Slots(fine, items), init, x, span);
      InSpan(coarse, fine.first(slot), target);
      assert coarse.slot(fine.first(slot)) == up(slot) == coarse.slot(x.day);
    }
  }
}
