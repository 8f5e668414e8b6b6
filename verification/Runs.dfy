/** Runs of a step function, which every protocol of the project is. */
module Runs {
  function After<S, E>(step: (S, E) -> S, s: S, events: seq<E>): S
    decreases |events|
  {
    if events == [] then s else step(After(step, s, events[..|events| - 1]), events[|events| - 1])
  }

  lemma {:induction false} AfterConcat<S, E>(step: (S, E) -> S, s: S, a: seq<E>, b: seq<E>)
    ensures After(step, s, a + b) == After(step, After(step, s, a), b)
    decreases |b|
  {
    if b == [] {
      assert a + b == a;
    } else {
      assert (a + b)[..|a + b| - 1] == a + b[..|b| - 1];
      AfterConcat(step, s, a, b[..|b| - 1]);
    }
  }

  lemma AfterSnoc<S, E>(step: (S, E) -> S, s: S, a: seq<E>, e: E)
    ensures After(step, s, a + [e]) == step(After(step, s, a), e)
  {
    assert (a + [e])[..|a|] == a;
  }

  lemma AfterHead<S, E>(step: (S, E) -> S, s: S, events: seq<E>)
    requires events != []
    ensures After(step, s, events) == After(step, step(s, events[0]), events[1..])
  {
    assert events == [events[0]] + events[1..];
    AfterConcat(step, s, [events[0]], events[1..]);
    AfterSnoc(step, s, [], events[0]);
    assert [] + [events[0]] == [events[0]];
  }

  lemma AfterTwo<S, E>(step: (S, E) -> S, s: S, a: E, b: E)
    ensures After(step, s, [a, b]) == step(step(s, a), b)
  {
    assert [a, b][..1] == [a] && [a][..0] == [];
    assert After(step, s, [a]) == step(After(step, s, []), a);
  }

  lemma AfterThree<S, E>(step: (S, E) -> S, s: S, a: E, b: E, c: E)
    ensures After(step, s, [a, b, c]) == step(step(step(s, a), b), c)
  {
    assert [a, b, c][..2] == [a, b];
    AfterTwo(step, s, a, b);
  }
}
