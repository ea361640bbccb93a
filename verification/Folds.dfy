/** Character loops: a state carried over a text, and what is put out on the way. */
module Folds {
  import opened Values

  function Fold<M>(step: (M, char) -> M, m: M, s: string): M {
    if s == "" then m else step(Fold(step, m, Front(s)), LastOf(s))
  }

  function Collect<M, T>(step: (M, char) -> M, emit: (M, char) -> seq<T>, m: M, s: string): seq<T> {
    if s == "" then []
    else Collect(step, emit, m, Front(s)) + emit(Fold(step, m, Front(s)), LastOf(s))
  }

  lemma {:induction false} FoldConcat<M>(step: (M, char) -> M, m: M, a: string, b: string)
    ensures Fold(step, m, a + b) == Fold(step, Fold(step, m, a), b)
  {
    if b == "" {
      assert a + b == a;
    } else {
      assert Front(a + b) == a + Front(b) && LastOf(a + b) == LastOf(b);
      FoldConcat(step, m, a, Front(b));
    }
  }

  lemma {:induction false} CollectConcat<M, T>(step: (M, char) -> M, emit: (M, char) -> seq<T>, m: M, a: string, b: string)
    ensures Collect(step, emit, m, a + b) == Collect(step, emit, m, a) + Collect(step, emit, Fold(step, m, a), b)
  {
    if b == "" {
      assert a + b == a;
    } else {
      assert Front(a + b) == a + Front(b) && LastOf(a + b) == LastOf(b);
      FoldConcat(step, m, a, Front(b));
      CollectConcat(step, emit, m, a, Front(b));
    }
  }
}
