/** Running a step over a sequence from left to right. */
module Folds {

  function Fold<S, L>(step: (S, L) -> S, start: S, items: seq<L>): S {
    if items == [] then start else step(Fold(step, start, items[..|items| - 1]), items[|items| - 1])
  }

  lemma FoldAppend<S, L>(step: (S, L) -> S, start: S, items: seq<L>, last: L)
    ensures Fold(step, start, items + [last]) == step(Fold(step, start, items), last)
  {
    assert (items + [last])[..|items|] == items;
  }

  lemma {:induction false} FoldSplit<S, L>(step: (S, L) -> S, start: S, a: seq<L>, b: seq<L>)
    ensures Fold(step, start, a + b) == Fold(step, Fold(step, start, a), b)
  {
    if b == [] {
      assert a + b == a;
    } else {
      FoldSplit(step, start, a, b[..|b| - 1]);
      assert (a + b)[..|a + b| - 1] == a + b[..|b| - 1];
    }
  }
}
