/** Measures of sequences: what the conservation laws of the pipeline count. */
module Counting {
  import opened Events

  /** A number for each list of events, such as how often one event occurs in it. */
  type Measure = seq<InOutEvent> -> nat

  ghost predicate Additive(c: Measure) {
    c([]) == 0 && forall a, b :: c(a + b) == c(a) + c(b)
  }

  function Count(a: seq<InOutEvent>, x: InOutEvent): nat
    decreases |a|
  {
    if a == [] then 0 else Count(a[..|a| - 1], x) + (if a[|a| - 1] == x then 1 else 0)
  }

  /** The number of occurrences of one event. */
  function Occurrences(x: InOutEvent): Measure {
    (a: seq<InOutEvent>) => Count(a, x)
  }

  lemma {:induction false} CountConcat(a: seq<InOutEvent>, b: seq<InOutEvent>, x: InOutEvent)
    ensures Count(a + b, x) == Count(a, x) + Count(b, x)
    decreases |b|
  {
    if b == [] {
      assert a + b == a;
    } else {
      assert (a + b)[..|a + b| - 1] == a + b[..|b| - 1];
      CountConcat(a, b[..|b| - 1], x);
    }
  }

  lemma OccurrencesAdd(x: InOutEvent)
    ensures Additive(Occurrences(x))
  {
    forall a, b ensures Occurrences(x)(a + b) == Occurrences(x)(a) + Occurrences(x)(b) {
      CountConcat(a, b, x);
    }
  }

  lemma {:induction false} CountIn(a: seq<InOutEvent>, x: InOutEvent)
    ensures Count(a, x) > 0 <==> x in a
    decreases |a|
  {
    if a != [] {
      assert a == a[..|a| - 1] + [a[|a| - 1]];
      CountIn(a[..|a| - 1], x);
    }
  }

  function Without(a: seq<InOutEvent>, i: nat): seq<InOutEvent>
    requires i < |a|
  {
    a[..i] + a[i + 1..]
  }

  lemma MeasureWithout(c: Measure, a: seq<InOutEvent>, i: nat)
    requires Additive(c) && i < |a|
    ensures c(a) == c(Without(a, i)) + c([a[i]])
  {
    assert a == a[..i] + ([a[i]] + a[i + 1..]);
  }

  lemma MeasureSplit(c: Measure, a: seq<InOutEvent>, i: nat)
    requires Additive(c) && i <= |a|
    ensures c(a) == c(a[..i]) + c(a[i..])
  {
    assert a == a[..i] + a[i..];
  }
}
