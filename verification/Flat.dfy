/** Lists mapped and flattened, apart from what is in them. */
module Flat {

  function Map<A, B>(f: A -> B, xs: seq<A>): (r: seq<B>)
    ensures |r| == |xs|
  {
    if xs == [] then [] else [f(xs[0])] + Map(f, xs[1..])
  }

  lemma {:induction false} MapAt<A, B>(f: A -> B, xs: seq<A>, i: nat)
    requires i < |xs|
    ensures Map(f, xs)[i] == f(xs[i])
  {
    if i > 0 { MapAt(f, xs[1..], i - 1); }
  }

  lemma {:induction false} MapConcat<A, B>(f: A -> B, a: seq<A>, b: seq<A>)
    ensures Map(f, a + b) == Map(f, a) + Map(f, b)
  {
    if a == [] {
      assert a + b == b;
    } else {
      assert (a + b)[0] == a[0] && (a + b)[1..] == a[1..] + b;
      MapConcat(f, a[1..], b);
    }
  }

  lemma {:induction false} MapSame<A, B, C>(f: A -> C, xs: seq<A>, g: B -> C, ys: seq<B>)
    requires |xs| == |ys| && forall k :: 0 <= k < |xs| ==> f(xs[k]) == g(ys[k])
    ensures Map(f, xs) == Map(g, ys)
    decreases |xs|
  {
    if xs != [] { MapSame(f, xs[1..], g, ys[1..]); }
  }

  function Flatten<A, B>(f: A -> seq<B>, xs: seq<A>): seq<B> {
    if xs == [] then [] else Flatten(f, xs[..|xs| - 1]) + f(xs[|xs| - 1])
  }

  lemma {:induction false} FlattenCons<A, B>(f: A -> seq<B>, x: A, xs: seq<A>)
    ensures Flatten(f, [x] + xs) == f(x) + Flatten(f, xs)
  {
    var all := [x] + xs;
    if xs == [] {
      assert all == [x] && all[..0] == [];
      assert [] + f(x) == f(x) + [];
    } else {
      var n := |xs| - 1;
      assert all[..|all| - 1] == [x] + xs[..n] && all[|all| - 1] == xs[n];
      FlattenCons(f, x, xs[..n]);
      assert (f(x) + Flatten(f, xs[..n])) + f(xs[n]) == f(x) + (Flatten(f, xs[..n]) + f(xs[n]));
    }
  }

  /** Mapping what is flattened is flattening what is mapped. */
  lemma {:induction false} MapFlatten<A, B, C>(f: B -> C, g: A -> seq<B>, h: A -> seq<C>, xs: seq<A>)
    requires forall i :: 0 <= i < |xs| ==> Map(f, g(xs[i])) == h(xs[i])
    ensures Map(f, Flatten(g, xs)) == Flatten(h, xs)
  {
    if xs != [] {
      var n := |xs| - 1;
      MapFlatten(f, g, h, xs[..n]);
      MapConcat(f, Flatten(g, xs[..n]), g(xs[n]));
    }
  }

  lemma {:induction false} FlattenSame<A, B, C>(f: A -> seq<C>, xs: seq<A>, g: B -> seq<C>, ys: seq<B>)
    requires |xs| == |ys| && forall i :: 0 <= i < |xs| ==> f(xs[i]) == g(ys[i])
    ensures Flatten(f, xs) == Flatten(g, ys)
  {
    if xs != [] { FlattenSame(f, xs[..|xs| - 1], g, ys[..|ys| - 1]); }
  }

  lemma {:induction false} FlattenHas<A, B>(f: A -> seq<B>, xs: seq<A>, j: nat, b: B)
    requires j < |xs| && b in f(xs[j])
    ensures b in Flatten(f, xs)
  {
    if j < |xs| - 1 { FlattenHas(f, xs[..|xs| - 1], j, b); }
  }

  /** Those of a list that are marked, in order. */
  function Chosen<T>(xs: seq<T>, marks: seq<bool>): (r: seq<T>)
    requires |marks| == |xs|
    ensures forall x :: x in r ==> x in xs
  {
    if xs == [] then [] else (if marks[0] then [xs[0]] else []) + Chosen(xs[1..], marks[1..])
  }

  lemma {:induction false} ChosenHas<T>(xs: seq<T>, marks: seq<bool>, k: nat)
    requires |marks| == |xs| && k < |xs| && marks[k]
    ensures xs[k] in Chosen(xs, marks)
    decreases |xs|
  {
    if k > 0 { ChosenHas(xs[1..], marks[1..], k - 1); }
  }

  lemma {:induction false} ChosenAll<T>(xs: seq<T>, marks: seq<bool>)
    requires |marks| == |xs| && forall i :: 0 <= i < |marks| ==> marks[i]
    ensures Chosen(xs, marks) == xs
    decreases |xs|
  {
    if xs != [] { ChosenAll(xs[1..], marks[1..]); }
  }

  /** Choosing and then mapping is mapping and then choosing. */
  lemma {:induction false} ChosenMapped<A, B>(f: A -> B, xs: seq<A>, ys: seq<B>, marks: seq<bool>)
    requires |marks| == |xs| == |ys| && forall k :: 0 <= k < |xs| ==> ys[k] == f(xs[k])
    ensures |Chosen(ys, marks)| == |Chosen(xs, marks)|
    ensures forall k :: 0 <= k < |Chosen(xs, marks)| ==> Chosen(ys, marks)[k] == f(Chosen(xs, marks)[k])
    decreases |xs|
  {
    if xs != [] {
      ChosenMapped(f, xs[1..], ys[1..], marks[1..]);
      assert ys[0] == f(xs[0]);
    }
  }

  /** Those of a list whose sources satisfy `p`, in order. */
  function Where<T, S>(xs: seq<T>, sources: seq<S>, p: S -> bool): (r: seq<T>)
    requires |sources| == |xs|
    ensures forall x :: x in r ==> x in xs
  {
    if xs == [] then [] else (if p(sources[0]) then [xs[0]] else []) + Where(xs[1..], sources[1..], p)
  }

  /** Asking for less chooses among them, and leaves out what satisfies `left`. */
  lemma {:induction false} WhereLess<T, S>(xs: seq<T>, sources: seq<S>, p: S -> bool, q: S -> bool, left: T -> bool)
    returns (marks: seq<bool>)
    requires |sources| == |xs| && forall s :: q(s) ==> p(s)
    requires forall i :: 0 <= i < |xs| && p(sources[i]) && !q(sources[i]) ==> left(xs[i])
    ensures |marks| == |Where(xs, sources, p)| && Where(xs, sources, q) == Chosen(Where(xs, sources, p), marks)
    ensures forall k :: 0 <= k < |marks| && !marks[k] ==> left(Where(xs, sources, p)[k])
    decreases |xs|
  {
    if xs == [] {
      marks := [];
    } else {
      var before := WhereLess(xs[1..], sources[1..], p, q, left);
      var all, rest := Where(xs, sources, p), Where(xs[1..], sources[1..], p);
      if p(sources[0]) {
        marks := [q(sources[0])] + before;
        assert all[0] == xs[0] && all[1..] == rest && marks[1..] == before;
      } else {
        marks := before;
        assert all == rest;
      }
    }
  }

  /** Asking for less gives the same exactly when nothing is left out. */
  lemma {:induction false} WhereSame<T, S>(xs: seq<T>, sources: seq<S>, p: S -> bool, q: S -> bool)
    requires |sources| == |xs| && forall s :: q(s) ==> p(s)
    ensures |Where(xs, sources, q)| <= |Where(xs, sources, p)|
    ensures Where(xs, sources, q) == Where(xs, sources, p) <==> forall s :: s in sources && p(s) ==> q(s)
    decreases |xs|
  {
    if xs != [] {
      WhereSame(xs[1..], sources[1..], p, q);
      var a, b := Where(xs[1..], sources[1..], p), Where(xs[1..], sources[1..], q);
      assert sources == [sources[0]] + sources[1..];
      if q(sources[0]) {
        assert [xs[0]] + a == [xs[0]] + b ==> a == b by { assert ([xs[0]] + a)[1..] == a && ([xs[0]] + b)[1..] == b; }
      } else if p(sources[0]) {
        assert |Where(xs, sources, p)| > |Where(xs, sources, q)|;
        assert sources[0] in sources;
      } else {
        assert Where(xs, sources, p) == a && Where(xs, sources, q) == b;
      }
    }
  }
}
