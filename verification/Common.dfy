/** Datatypes and sequence helpers shared by the component models. */
module Common {

  datatype Option<+T> = None | Some(value: T)

  datatype Result<+T, +E> = Ok(value: T) | Err(error: E)

  /** Concatenation of the pieces `f` makes from each element, in order. */
  function FlatMap<A, B>(f: A -> seq<B>, xs: seq<A>): seq<B> {
    if xs == [] then [] else f(xs[0]) + FlatMap(f, xs[1..])
  }

  lemma FlatMapSnoc<A, B>(f: A -> seq<B>, xs: seq<A>, x: A)
    ensures FlatMap(f, xs + [x]) == FlatMap(f, xs) + f(x)
  {
    if xs == [] {
      assert [x][1..] == [];
    } else {
      assert (xs + [x])[1..] == xs[1..] + [x];
      FlatMapSnoc(f, xs[1..], x);
    }
  }

  function Filter<A(!new)>(p: A -> bool, xs: seq<A>): (r: seq<A>)
    ensures |r| <= |xs|
    ensures forall x :: x in r <==> x in xs && p(x)
  {
    if xs == [] then []
    else if p(xs[0]) then [xs[0]] + Filter(p, xs[1..])
    else Filter(p, xs[1..])
  }

  lemma FilterSnoc<A(!new)>(p: A -> bool, xs: seq<A>, x: A)
    ensures Filter(p, xs + [x]) == Filter(p, xs) + (if p(x) then [x] else [])
  {
    if xs == [] {
      assert [x][1..] == [];
    } else {
      assert (xs + [x])[1..] == xs[1..] + [x];
      FilterSnoc(p, xs[1..], x);
    }
  }

  lemma FilterConcat<A(!new)>(p: A -> bool, xs: seq<A>, ys: seq<A>)
    ensures Filter(p, xs + ys) == Filter(p, xs) + Filter(p, ys)
  {
    if xs == [] {
      assert xs + ys == ys;
    } else {
      assert (xs + ys)[1..] == xs[1..] + ys;
      FilterConcat(p, xs[1..], ys);
    }
  }

  /** A filter that keeps as many elements as it was given keeps all of them. */
  lemma FilterAll<A(!new)>(p: A -> bool, xs: seq<A>)
    ensures |Filter(p, xs)| == |xs| <==> forall x :: x in xs ==> p(x)
    ensures |Filter(p, xs)| == |xs| ==> Filter(p, xs) == xs
  {
    if xs != [] {
      FilterAll(p, xs[1..]);
    }
  }

  /** A property of every piece holds of the concatenation. */
  lemma {:induction false} FlatMapAll<A, B(!new)>(f: A -> seq<B>, xs: seq<A>, p: B -> bool)
    requires forall x, y :: x in xs && y in f(x) ==> p(y)
    ensures forall y :: y in FlatMap(f, xs) ==> p(y)
  {
    if xs != [] {
      assert xs[0] in xs;
      forall x, y | x in xs[1..] && y in f(x) ensures p(y) {
        assert x in xs;
      }
      FlatMapAll(f, xs[1..], p);
    }
  }

  /** With at most one result per element, a list maps to itself exactly when every element does. */
  lemma {:induction false} FlatMapIdentity<A>(f: A -> seq<A>, xs: seq<A>)
    requires forall x :: x in xs ==> |f(x)| <= 1
    ensures |FlatMap(f, xs)| <= |xs|
    ensures FlatMap(f, xs) == xs <==> forall x :: x in xs ==> f(x) == [x]
  {
    if xs != [] {
      var x, rest := xs[0], xs[1..];
      assert x in xs;
      FlatMapIdentity(f, rest);
      assert forall y :: y in xs <==> y == x || y in rest;
      if FlatMap(f, xs) == xs {
        assert f(x) != [];
        assert FlatMap(f, xs)[0] == f(x)[0] == x;
        assert FlatMap(f, rest) == FlatMap(f, xs)[1..] == rest;
      }
    }
  }

  // ---------------------------------------------------------------- counting threads

  /** The keys whose value satisfies `p`. */
  function Where<K(!new), V>(m: map<K, V>, p: V -> bool): (r: set<K>)
    ensures forall k :: k in r <==> k in m && p(m[k])
  {
    set k | k in m && p(m[k])
  }

  /** How one update changes the number of keys that satisfy `p`. */
  lemma CountUpdate<K(!new), V>(m: map<K, V>, p: V -> bool, k: K, v: V)
    ensures |Where(m[k := v], p)|
         == |Where(m, p)| - (if k in m && p(m[k]) then 1 else 0) + (if p(v) then 1 else 0)
  {
    var before, after := Where(m, p), Where(m[k := v], p);
    if p(v) {
      assert after == before + {k};
    } else {
      assert after == before - {k};
    }
  }

  lemma SubsetSize<T>(a: set<T>, b: set<T>)
    requires a <= b
    ensures |a| <= |b|
  {
    assert b == a + (b - a);
  }

  // ---------------------------------------------------------------- runs of a protocol

  /** `run` goes from `init` by the given actions, each of them enabled when it happens. */
  ghost predicate IsRun<S, A>(init: S, step: (S, A) -> Option<S>, run: seq<S>, actions: seq<A>) {
    && |run| == |actions| + 1 && run[0] == init
    && forall i :: 0 <= i < |actions| ==> step(run[i], actions[i]) == Some(run[i + 1])
  }

  /** What holds at the start and is kept by every step holds in every state of every run. */
  lemma {:induction false} RunInduction<S(!new), A(!new)>(
      init: S, step: (S, A) -> Option<S>, inv: S -> bool, run: seq<S>, actions: seq<A>, i: nat)
    requires IsRun(init, step, run, actions) && i < |run|
    requires inv(init)
    requires forall s, a :: inv(s) && step(s, a).Some? ==> inv(step(s, a).value)
    ensures inv(run[i])
  {
    if i > 0 {
      RunInduction(init, step, inv, run, actions, i - 1);
      assert step(run[i - 1], actions[i - 1]) == Some(run[i]);
    }
  }

  lemma RunExtend<S, A>(init: S, step: (S, A) -> Option<S>, run: seq<S>, actions: seq<A>, a: A, s: S)
    requires IsRun(init, step, run, actions) && step(run[|run| - 1], a) == Some(s)
    ensures IsRun(init, step, run + [s], actions + [a])
  {}
}
