/** Folds over event sequences, and what a guard on single events says about whole sequences. */
module Traces {

  /** The state after `es`. */
  ghost function Fold<S, E>(step: (S, E) -> S, start: S, es: seq<E>): S
    decreases |es|
  {
    if es == [] then start else step(Fold(step, start, es[..|es| - 1]), es[|es| - 1])
  }

  lemma FoldSnoc<S, E>(step: (S, E) -> S, start: S, es: seq<E>, e: E)
    ensures Fold(step, start, es + [e]) == step(Fold(step, start, es), e)
  {
    assert (es + [e])[..|es|] == es;
  }

  lemma FoldOne<S, E>(step: (S, E) -> S, start: S, a: E)
    ensures Fold(step, start, [a]) == step(start, a)
  {
    FoldSnoc(step, start, [], a);
    assert [] + [a] == [a];
  }

  lemma FoldTwo<S, E>(step: (S, E) -> S, start: S, a: E, b: E)
    ensures Fold(step, start, [a, b]) == step(step(start, a), b)
  {
    FoldOne(step, start, a);
    FoldSnoc(step, start, [a], b);
    assert [a] + [b] == [a, b];
  }

  lemma FoldThree<S, E>(step: (S, E) -> S, start: S, a: E, b: E, c: E)
    ensures Fold(step, start, [a, b, c]) == step(step(step(start, a), b), c)
  {
    FoldTwo(step, start, a, b);
    FoldSnoc(step, start, [a, b], c);
    assert [a, b] + [c] == [a, b, c];
  }

  lemma {:induction false} FoldAppend<S, E>(step: (S, E) -> S, start: S, es: seq<E>, out: seq<E>)
    ensures Fold(step, start, es + out) == Fold(step, Fold(step, start, es), out)
    decreases |out|
  {
    if out == [] {
      assert es + out == es;
    } else {
      assert (es + out)[..|es + out| - 1] == es + out[..|out| - 1];
      FoldAppend(step, start, es, out[..|out| - 1]);
    }
  }

  /** Every event obeys `guard` where it stands. */
  ghost predicate Trace<S, E>(step: (S, E) -> S, start: S, guard: (S, E) -> bool, es: seq<E>) {
    forall i :: 0 <= i < |es| ==> guard(Fold(step, start, es[..i]), es[i])
  }

  lemma TracePrefix<S, E>(step: (S, E) -> S, start: S, guard: (S, E) -> bool, es: seq<E>, n: nat)
    requires Trace(step, start, guard, es) && n <= |es|
    ensures Trace(step, start, guard, es[..n])
  {
    forall i | 0 <= i < n ensures guard(Fold(step, start, es[..n][..i]), es[..n][i]) {
      assert es[..n][..i] == es[..i];
    }
  }

  lemma TraceSnoc<S, E>(step: (S, E) -> S, start: S, guard: (S, E) -> bool, es: seq<E>, e: E)
    requires Trace(step, start, guard, es) && guard(Fold(step, start, es), e)
    ensures Trace(step, start, guard, es + [e])
  {
    forall i | 0 <= i < |es| + 1 ensures guard(Fold(step, start, (es + [e])[..i]), (es + [e])[i]) {
      assert (es + [e])[..i] == es[..i];
    }
  }

  /** `out` obeys `guard` from `s` on. */
  ghost predicate Continues<S, E>(step: (S, E) -> S, guard: (S, E) -> bool, s: S, out: seq<E>)
    decreases |out|
  {
    out != [] ==> guard(s, out[0]) && Continues(step, guard, step(s, out[0]), out[1..])
  }

  lemma {:induction false} CutContinues<S, E>(step: (S, E) -> S, guard: (S, E) -> bool, s: S, out: seq<E>, n: nat)
    requires Continues(step, guard, s, out) && n <= |out|
    ensures Continues(step, guard, s, out[..n])
    decreases n
  {
    if n > 0 {
      CutContinues(step, guard, step(s, out[0]), out[1..], n - 1);
      assert out[..n][1..] == out[1..][..n - 1];
    }
  }

  /** A trace may be continued, and the continuation cut off anywhere. */
  lemma {:induction false} TraceAppend<S, E>(
    step: (S, E) -> S, start: S, guard: (S, E) -> bool, es: seq<E>, out: seq<E>, n: nat)
    requires Trace(step, start, guard, es) && n <= |out|
    requires Continues(step, guard, Fold(step, start, es), out)
    ensures Trace(step, start, guard, es + out[..n])
    decreases n
  {
    if n == 0 {
      assert es + out[..n] == es;
    } else {
      TraceSnoc(step, start, guard, es, out[0]);
      FoldSnoc(step, start, es, out[0]);
      TraceAppend(step, start, guard, es + [out[0]], out[1..], n - 1);
      assert es + [out[0]] + out[1..][..n - 1] == es + out[..n];
    }
  }

  /** An invariant that the guard keeps holds along every trace. */
  lemma {:induction false} TraceKeeps<S(!new), E(!new)>(
    step: (S, E) -> S, start: S, guard: (S, E) -> bool, inv: S -> bool, es: seq<E>)
    requires Trace(step, start, guard, es) && inv(start)
    requires forall s, e :: inv(s) && guard(s, e) ==> inv(step(s, e))
    ensures inv(Fold(step, start, es))
    decreases |es|
  {
    if es != [] {
      TracePrefix(step, start, guard, es, |es| - 1);
      TraceKeeps(step, start, guard, inv, es[..|es| - 1]);
    }
  }
}
