/** Small vocabulary shared by the models: an optional value, and two folds over
    a sequence that the state machines use for bookkeeping. */
module Collections {

  datatype Option<+T> = None | Some(value: T)

  /** A sequence of the value, if there is one. */
  function Listed<T>(x: Option<T>): seq<T> {
    if x.Some? then [x.value] else []
  }

  /** How many of the first `n` elements of `xs` satisfy `p`. */
  function TallyTo<T>(xs: seq<T>, n: nat, p: T -> bool): nat
    requires n <= |xs|
  {
    if n == 0 then 0 else TallyTo(xs, n - 1, p) + if p(xs[n - 1]) then 1 else 0
  }

  function Tally<T>(xs: seq<T>, p: T -> bool): nat {
    TallyTo(xs, |xs|, p)
  }

  lemma {:induction false} TallySame<T>(xs: seq<T>, ys: seq<T>, n: nat, p: T -> bool)
    requires n <= |xs| && n <= |ys| && forall k :: 0 <= k < n ==> xs[k] == ys[k]
    ensures TallyTo(xs, n, p) == TallyTo(ys, n, p)
  {
    if n > 0 { TallySame(xs, ys, n - 1, p); }
  }

  lemma {:induction false} TallyPush<T>(xs: seq<T>, x: T, p: T -> bool)
    ensures Tally(xs + [x], p) == Tally(xs, p) + if p(x) then 1 else 0
  {
    TallySame(xs, xs + [x], |xs|, p);
  }

  lemma {:induction false} TallyUpdateTo<T>(xs: seq<T>, i: nat, x: T, n: nat, p: T -> bool)
    requires i < n <= |xs|
    ensures TallyTo(xs[i := x], n, p) + (if p(xs[i]) then 1 else 0) == TallyTo(xs, n, p) + if p(x) then 1 else 0
  {
    if n == i + 1 {
      TallySame(xs, xs[i := x], i, p);
    } else {
      TallyUpdateTo(xs, i, x, n - 1, p);
    }
  }

  lemma {:induction false} TallyUpdate<T>(xs: seq<T>, i: nat, x: T, p: T -> bool)
    requires i < |xs|
    ensures Tally(xs[i := x], p) + (if p(xs[i]) then 1 else 0) == Tally(xs, p) + if p(x) then 1 else 0
  {
    TallyUpdateTo(xs, i, x, |xs|, p);
  }

  lemma {:induction false} TallyZero<T>(xs: seq<T>, n: nat, p: T -> bool)
    requires n <= |xs|
    ensures TallyTo(xs, n, p) == 0 <==> forall i :: 0 <= i < n ==> !p(xs[i])
  {
    if n > 0 { TallyZero(xs, n - 1, p); }
  }

  lemma {:induction false} TallyRemoveTo<T>(xs: seq<T>, i: nat, n: nat, p: T -> bool)
    requires i < n <= |xs|
    ensures TallyTo(xs, n, p) == TallyTo(xs[..i] + xs[i + 1..], n - 1, p) + if p(xs[i]) then 1 else 0
  {
    var ys := xs[..i] + xs[i + 1..];
    if n == i + 1 {
      TallySame(xs, ys, i, p);
    } else {
      TallyRemoveTo(xs, i, n - 1, p);
      assert ys[n - 2] == xs[n - 1];
    }
  }

  lemma {:induction false} TallyRemove<T>(xs: seq<T>, i: nat, p: T -> bool)
    requires i < |xs|
    ensures Tally(xs, p) == Tally(xs[..i] + xs[i + 1..], p) + if p(xs[i]) then 1 else 0
  {
    TallyRemoveTo(xs, i, |xs|, p);
  }

  lemma {:induction false} TallyHead<T>(xs: seq<T>, p: T -> bool)
    requires xs != []
    ensures Tally(xs, p) == Tally(xs[1..], p) + if p(xs[0]) then 1 else 0
  {
    TallyRemove(xs, 0, p);
    assert xs[..0] + xs[1..] == xs[1..];
  }

  /** The union of the sets that `f` assigns to the first `n` elements of `xs`. */
  ghost function UnionTo<T, C>(xs: seq<T>, n: nat, f: T -> set<C>): set<C>
    requires n <= |xs|
  {
    if n == 0 then {} else UnionTo(xs, n - 1, f) + f(xs[n - 1])
  }

  lemma {:induction false} UnionIn<T, C>(xs: seq<T>, n: nat, f: T -> set<C>, i: nat)
    requires i < n <= |xs|
    ensures f(xs[i]) <= UnionTo(xs, n, f)
  {
    if i < n - 1 { UnionIn(xs, n - 1, f, i); }
  }

  /** Sets of at most one element unite to at most one element per member. */
  lemma {:induction false} UnionBound<T, C>(xs: seq<T>, n: nat, f: T -> set<C>, p: T -> bool)
    requires n <= |xs|
    requires forall i :: 0 <= i < n ==> |f(xs[i])| <= if p(xs[i]) then 1 else 0
    ensures |UnionTo(xs, n, f)| <= TallyTo(xs, n, p) <= n
  {
    if n > 0 {
      UnionBound(xs, n - 1, f, p);
      UnionSize(UnionTo(xs, n - 1, f), f(xs[n - 1]));
    }
  }

  /** A union of sets has at most the sum of their sizes. */
  lemma UnionSize<C>(a: set<C>, b: set<C>)
    ensures |a + b| <= |a| + |b|
  {
  }

  /** Predicates that agree on the elements give the same tally. */
  lemma {:induction false} TallyAgree<T>(xs: seq<T>, n: nat, p: T -> bool, q: T -> bool)
    requires n <= |xs| && forall i :: 0 <= i < n ==> p(xs[i]) == q(xs[i])
    ensures TallyTo(xs, n, p) == TallyTo(xs, n, q)
  {
    if n > 0 { TallyAgree(xs, n - 1, p, q); }
  }

  lemma SubsetSize<C>(a: set<C>, b: set<C>)
    requires a <= b
    ensures |a| <= |b|
  {
    assert b == a + (b - a);
  }

  /** The distinct elements of a sequence are no more than its length. */
  lemma {:induction false} ElementsSize<C>(xs: seq<C>)
    ensures |set x | x in xs| <= |xs|
  {
    if xs != [] {
      ElementsSize(xs[1..]);
      assert (set x | x in xs) == (set x | x in xs[1..]) + {xs[0]};
    }
  }

  /** The natural numbers below `n`. */
  function Below(n: nat): (s: set<nat>)
    ensures |s| == n && forall k :: k in s <==> 0 <= k < n
  {
    if n == 0 then {} else Below(n - 1) + {n - 1}
  }
}
