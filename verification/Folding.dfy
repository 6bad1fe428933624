/** Running a list of steps from a starting state, for any kind of step. */
module Folding {

  function Fold<S, Op>(step: (S, Op) -> S, s: S, ops: seq<Op>): S {
    if ops == [] then s else step(Fold(step, s, ops[..|ops| - 1]), ops[|ops| - 1])
  }

  lemma FoldSnoc<S, Op>(step: (S, Op) -> S, s: S, ops: seq<Op>, op: Op)
    ensures Fold(step, s, ops + [op]) == step(Fold(step, s, ops), op)
  {
  }

  lemma FoldTwo<S, Op>(step: (S, Op) -> S, s: S, ops: seq<Op>, a: Op, b: Op)
    ensures Fold(step, s, ops + [a, b]) == step(step(Fold(step, s, ops), a), b)
  {
    FoldSnoc(step, s, ops, a);
    FoldSnoc(step, s, ops + [a], b);
    assert ops + [a, b] == ops + [a] + [b];
  }

  lemma {:induction false} FoldConcat<S, Op>(step: (S, Op) -> S, s: S, a: seq<Op>, b: seq<Op>)
    ensures Fold(step, s, a + b) == Fold(step, Fold(step, s, a), b)
    decreases |b|
  {
    if b == [] {
      assert a + b == a;
    } else {
      var front, last := b[..|b| - 1], b[|b| - 1];
      assert a + b == a + front + [last];
      FoldConcat(step, s, a, front);
      FoldSnoc(step, s, a + front, last);
    }
  }
}
