/** Small shared vocabulary: optional values and facts about finite sets. */
module Common {

  datatype Option<+T> = None | Some(value: T)

  /** A subset with as many elements as the whole is the whole. */
  lemma SubsetCardinality<T>(a: set<T>, b: set<T>)
    requires a <= b
    ensures |a| <= |b|
    ensures |a| == |b| ==> a == b
  {
    assert b == a + (b - a);
    assert |b| == |a| + |b - a|;
    if |a| == |b| {
      assert b - a == {};
    }
  }

  ghost predicate NoRepeats<T>(xs: seq<T>) {
    forall i, j :: 0 <= i < j < |xs| ==> xs[i] != xs[j]
  }

  function Elements<T>(xs: seq<T>): set<T> {
    set x | x in xs
  }

  /** A sequence has as many elements as entries exactly when no entry repeats. */
  lemma {:induction false} RepeatsShowInCardinality<T>(xs: seq<T>)
    ensures |Elements(xs)| <= |xs|
    ensures |Elements(xs)| == |xs| <==> NoRepeats(xs)
  {
    if xs == [] {
      assert Elements(xs) == {};
    } else {
      var rest, last := xs[..|xs| - 1], xs[|xs| - 1];
      RepeatsShowInCardinality(rest);
      assert Elements(xs) == Elements(rest) + {last};
      if last in Elements(rest) {
        assert Elements(xs) == Elements(rest);
      } else {
        assert last !in rest;
      }
    }
  }

  lemma Associates<T>(a: seq<T>, b: seq<T>, c: seq<T>)
    ensures (a + b) + c == a + (b + c)
  {
  }

  /** Fold a log, oldest entry first. */
  function Fold<V, E>(f: (V, E) -> V, v: V, log: seq<E>): V {
    if log == [] then v else f(Fold(f, v, log[..|log| - 1]), log[|log| - 1])
  }

  lemma FoldOne<V, E>(f: (V, E) -> V, v: V, log: seq<E>, e: E)
    ensures Fold(f, v, log + [e]) == f(Fold(f, v, log), e)
  {
    assert (log + [e])[..|log|] == log;
  }

  lemma FoldTwo<V, E>(f: (V, E) -> V, v: V, log: seq<E>, e1: E, e2: E)
    ensures Fold(f, v, log + [e1, e2]) == f(f(Fold(f, v, log), e1), e2)
  {
    FoldOne(f, v, log, e1);
    FoldOne(f, v, log + [e1], e2);
    assert log + [e1, e2] == log + [e1] + [e2];
  }

  lemma FoldThree<V, E>(f: (V, E) -> V, v: V, log: seq<E>, e1: E, e2: E, e3: E)
    ensures Fold(f, v, log + [e1, e2, e3]) == f(f(f(Fold(f, v, log), e1), e2), e3)
  {
    FoldTwo(f, v, log, e1, e2);
    FoldOne(f, v, log + [e1, e2], e3);
    assert log + [e1, e2, e3] == log + [e1, e2] + [e3];
  }
}
