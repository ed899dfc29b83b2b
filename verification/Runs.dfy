/** Runs: folding a step function over a sequence of events, and what holds along the way. */
module Runs {
  import opened Wrappers

  function Fold<S, E>(step: (S, E) -> S, start: S, es: seq<E>): S {
    if es == [] then start else step(Fold(step, start, es[..|es| - 1]), es[|es| - 1])
  }

  /** The events that the predicate picks, each judged in the state it arrives in. */
  function Trail<S, E>(step: (S, E) -> S, start: S, es: seq<E>, p: (S, E) -> bool): seq<E> {
    if es == [] then []
    else
      var n := |es| - 1;
      Trail(step, start, es[..n], p) + if p(Fold(step, start, es[..n]), es[n]) then [es[n]] else []
  }

  function Filter<E>(es: seq<E>, f: E -> bool): seq<E> {
    if es == [] then []
    else Filter(es[..|es| - 1], f) + if f(es[|es| - 1]) then [es[|es| - 1]] else []
  }

  /** The first value that the events give. */
  function FirstSome<E, T>(es: seq<E>, f: E -> Option<T>): Option<T> {
    if es == [] then None else OrElse(FirstSome(es[..|es| - 1], f), f(es[|es| - 1]))
  }

  /** The last value that the events give. */
  function LastSome<E, T>(es: seq<E>, f: E -> Option<T>): Option<T> {
    if es == [] then None else OrElse(f(es[|es| - 1]), LastSome(es[..|es| - 1], f))
  }

  lemma FirstSomeSnoc<E, T>(es: seq<E>, e: E, f: E -> Option<T>)
    ensures FirstSome(es + [e], f) == OrElse(FirstSome(es, f), f(e))
  {
    assert (es + [e])[..|es|] == es;
  }

  lemma FoldSnoc<S, E>(step: (S, E) -> S, start: S, es: seq<E>, e: E)
    ensures Fold(step, start, es + [e]) == step(Fold(step, start, es), e)
  {
    assert (es + [e])[..|es|] == es;
  }

  lemma FoldNext<S, E>(step: (S, E) -> S, start: S, es: seq<E>, i: nat)
    requires i < |es|
    ensures Fold(step, start, es[..i + 1]) == step(Fold(step, start, es[..i]), es[i])
  {
    FoldSnoc(step, start, es[..i], es[i]);
    assert es[..i + 1] == es[..i] + [es[i]];
  }

  lemma {:induction false} FoldAppend<S, E>(step: (S, E) -> S, start: S, a: seq<E>, b: seq<E>)
    ensures Fold(step, start, a + b) == Fold(step, Fold(step, start, a), b)
  {
    if b == [] {
      assert a + b == a;
    } else {
      var n := |b| - 1;
      assert (a + b)[..|a| + n] == a + b[..n];
      FoldAppend(step, start, a, b[..n]);
    }
  }

  lemma TrailSnoc<S, E>(step: (S, E) -> S, start: S, es: seq<E>, e: E, p: (S, E) -> bool)
    ensures Trail(step, start, es + [e], p)
         == Trail(step, start, es, p) + if p(Fold(step, start, es), e) then [e] else []
  {
    assert (es + [e])[..|es|] == es;
  }

  lemma FilterSnoc<E>(es: seq<E>, e: E, f: E -> bool)
    ensures Filter(es + [e], f) == Filter(es, f) + if f(e) then [e] else []
  {
    assert (es + [e])[..|es|] == es;
  }

  /** What every step keeps, every run keeps. */
  lemma {:induction false} FoldKeeps<S(!new), E(!new)>(step: (S, E) -> S, start: S, es: seq<E>, p: S -> bool)
    requires p(start)
    requires forall s, e :: p(s) ==> p(step(s, e))
    ensures p(Fold(step, start, es))
  {
    if es != [] {
      FoldKeeps(step, start, es[..|es| - 1], p);
    }
  }

  /** A relation between state and trail that every step keeps holds after every run. */
  lemma {:induction false} TrailKeeps<S(!new), E(!new)>(
    step: (S, E) -> S, start: S, es: seq<E>, p: (S, E) -> bool, rel: (S, seq<E>) -> bool)
    requires rel(start, [])
    requires forall s, e, h {:trigger step(s, e), rel(s, h)} :: rel(s, h) ==>
          rel(step(s, e), h + if p(s, e) then [e] else [])
    ensures rel(Fold(step, start, es), Trail(step, start, es, p))
  {
    if es != [] {
      TrailKeeps(step, start, es[..|es| - 1], p, rel);
    }
  }

  /** Filtering a trail is picking with both tests. */
  lemma {:induction false} FilterTrail<S(!new), E(!new)>(
    step: (S, E) -> S, start: S, es: seq<E>, p: (S, E) -> bool, f: E -> bool, q: (S, E) -> bool)
    requires forall s, e :: q(s, e) <==> p(s, e) && f(e)
    ensures Filter(Trail(step, start, es, p), f) == Trail(step, start, es, q)
  {
    if es != [] {
      var n := |es| - 1;
      FilterTrail(step, start, es[..n], p, f, q);
      var before := Trail(step, start, es[..n], p);
      FilterSnoc(before, es[n], f);
      assert before + [] == before;
    }
  }

  lemma {:induction false} TrailNone<S(!new), E(!new)>(step: (S, E) -> S, start: S, es: seq<E>, p: (S, E) -> bool)
    requires forall s, e :: !p(s, e)
    ensures Trail(step, start, es, p) == []
  {
    if es != [] {
      TrailNone(step, start, es[..|es| - 1], p);
    }
  }

  lemma {:induction false} TrailFromEvents<S, E>(step: (S, E) -> S, start: S, es: seq<E>, p: (S, E) -> bool)
    ensures forall e :: e in Trail(step, start, es, p) ==> e in es
  {
    if es != [] {
      TrailFromEvents(step, start, es[..|es| - 1], p);
    }
  }

  /** A test that stops the run for good picks a prefix of the events. */
  lemma {:induction false} TrailPrefix<S(!new), E(!new)>(
    step: (S, E) -> S, start: S, es: seq<E>, on: S -> bool, p: (S, E) -> bool)
    requires forall s, e :: p(s, e) == on(s)
    requires forall s, e :: !on(s) ==> step(s, e) == s
    ensures Trail(step, start, es, p) <= es
    ensures on(Fold(step, start, es)) ==> Trail(step, start, es, p) == es
  {
    if es != [] {
      var before, e := es[..|es| - 1], es[|es| - 1];
      TrailPrefix(step, start, before, on, p);
      var s, t := Fold(step, start, before), Trail(step, start, before, p);
      assert es == before + [e];
      if on(s) {
        assert p(s, e) && Trail(step, start, es, p) == before + [e];
      } else {
        assert !p(s, e) && Trail(step, start, es, p) == t + [] == t;
      }
    }
  }

  /** Tests that exclude each other pick disjoint trails. */
  lemma {:induction false} TrailSplit<S(!new), E(!new)>(
    step: (S, E) -> S, start: S, es: seq<E>, p: (S, E) -> bool, q: (S, E) -> bool, r: (S, E) -> bool)
    requires forall s, e :: r(s, e) <==> p(s, e) || q(s, e)
    requires forall s, e :: !(p(s, e) && q(s, e))
    ensures |Trail(step, start, es, r)| == |Trail(step, start, es, p)| + |Trail(step, start, es, q)|
  {
    if es != [] {
      TrailSplit(step, start, es[..|es| - 1], p, q, r);
    }
  }

  /** Tests that agree in every state of the run pick the same trail. */
  lemma {:induction false} TrailAgree<S(!new), E(!new)>(
    step: (S, E) -> S, start: S, es: seq<E>, inv: S -> bool, p: (S, E) -> bool, q: (S, E) -> bool)
    requires inv(start)
    requires forall s, e :: inv(s) ==> inv(step(s, e))
    requires forall s, e :: inv(s) ==> p(s, e) == q(s, e)
    ensures Trail(step, start, es, p) == Trail(step, start, es, q)
  {
    if es != [] {
      var n := |es| - 1;
      TrailAgree(step, start, es[..n], inv, p, q);
      FoldKeeps(step, start, es[..n], inv);
    }
  }
}
