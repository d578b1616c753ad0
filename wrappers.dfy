/** Small shared vocabulary: an optional value and "first element satisfying a
    predicate", the shape of JavaScript's `Array.prototype.find` and of every
    first-match loop in the scraper. */
module Wrappers {

  datatype Option<+T> = None | Some(value: T)

  /** Index of the first element of `xs` at or after `from` that satisfies `p`. */
  function FirstIndexFrom<T>(xs: seq<T>, p: T -> bool, from: nat): (r: Option<nat>)
    requires from <= |xs|
    ensures r.Some? ==> from <= r.value < |xs| && p(xs[r.value])
    ensures r.Some? ==> forall j :: from <= j < r.value ==> !p(xs[j])
    ensures r.None? ==> forall j :: from <= j < |xs| ==> !p(xs[j])
    decreases |xs| - from
  {
    if from == |xs| then None
    else if p(xs[from]) then Some(from)
    else FirstIndexFrom(xs, p, from + 1)
  }

  /** Index of the first element of `xs` that satisfies `p`, as `findIndex` gives it. */
  function FirstIndex<T>(xs: seq<T>, p: T -> bool): (r: Option<nat>)
    ensures r.Some? ==> r.value < |xs| && p(xs[r.value])
    ensures r.Some? ==> forall j :: 0 <= j < r.value ==> !p(xs[j])
    ensures r.None? ==> forall j :: 0 <= j < |xs| ==> !p(xs[j])
  {
    FirstIndexFrom(xs, p, 0)
  }

  /** The element `find` returns: the first one satisfying `p`, if any. */
  function Find<T>(xs: seq<T>, p: T -> bool): (r: Option<T>)
    ensures r.Some? <==> exists j :: 0 <= j < |xs| && p(xs[j])
    ensures r.Some? ==> exists k :: 0 <= k < |xs| && xs[k] == r.value && p(r.value) &&
                                    forall j :: 0 <= j < k ==> !p(xs[j])
  {
    match FirstIndex(xs, p)
    case None => None
    case Some(k) => Some(xs[k])
  }

  /** `xs.map(f)` */
  function MapSeq<A, B>(f: A -> B, xs: seq<A>): (r: seq<B>)
    ensures |r| == |xs|
    ensures forall i :: 0 <= i < |xs| ==> r[i] == f(xs[i])
  {
    seq(|xs|, i requires 0 <= i < |xs| => f(xs[i]))
  }

  lemma MapSeqAppend<A, B>(f: A -> B, xs: seq<A>, ys: seq<A>)
    ensures MapSeq(f, xs + ys) == MapSeq(f, xs) + MapSeq(f, ys)
  {
  }

  /** The values of the `Some` entries of `xs`, in order. */
  function Somes<T>(xs: seq<Option<T>>): (r: seq<T>)
    ensures |r| <= |xs|
  {
    if xs == [] then []
    else Somes(xs[..|xs| - 1]) + (match xs[|xs| - 1] case Some(x) => [x] case None => [])
  }

  lemma {:induction false} SomesAppend<T>(xs: seq<Option<T>>, ys: seq<Option<T>>)
    ensures Somes(xs + ys) == Somes(xs) + Somes(ys)
    decreases |ys|
  {
    if ys == [] {
      assert xs + ys == xs;
    } else {
      assert (xs + ys)[..|xs + ys| - 1] == xs + ys[..|ys| - 1];
      SomesAppend(xs, ys[..|ys| - 1]);
    }
  }

  lemma {:induction false} SomesMembers<T>(xs: seq<Option<T>>, a: T)
    ensures a in Somes(xs) <==> Some(a) in xs
    decreases |xs|
  {
    if xs != [] {
      var init := xs[..|xs| - 1];
      SomesMembers(init, a);
      assert xs == init + [xs[|xs| - 1]];
    }
  }

  lemma SomesSkipsNone<T>(xs: seq<Option<T>>, ys: seq<Option<T>>)
    ensures Somes(xs + [None] + ys) == Somes(xs + ys)
  {
    SomesAppend(xs + [None], ys);
    SomesAppend(xs, [None]);
    SomesAppend(xs, ys);
    var none: seq<Option<T>> := [None];
    assert none[..0] == [];
  }

  /** `Somes` keeps the relative order of the entries it keeps. */
  lemma SomesOrder<T>(xs: seq<Option<T>>, i: nat, j: nat)
    requires i < j < |xs| && xs[i].Some? && xs[j].Some?
    ensures exists m, n :: (0 <= m < n < |Somes(xs)| &&
      Somes(xs)[m] == xs[i].value && Somes(xs)[n] == xs[j].value)
  {
    var a, b, c, d, e := xs[..i], [xs[i]], xs[i + 1..j], [xs[j]], xs[j + 1..];
    assert xs == a + b + c + d + e;
    SomesAppend(a + b + c + d, e);
    SomesAppend(a + b + c, d);
    SomesAppend(a + b, c);
    SomesAppend(a, b);
    assert b[..0] == [] && d[..0] == [];
    var m := |Somes(a)|;
    var n := m + 1 + |Somes(c)|;
    assert Somes(xs)[m] == xs[i].value;
    assert Somes(xs)[n] == xs[j].value;
  }

  /** `xs` is `ys` with some elements left out, the rest in the same order. */
  predicate IsSubsequence<T(==)>(xs: seq<T>, ys: seq<T>)
    decreases |ys|
  {
    if xs == [] then true
    else if ys == [] then false
    else (xs[|xs| - 1] == ys[|ys| - 1] && IsSubsequence(xs[..|xs| - 1], ys[..|ys| - 1])) ||
         IsSubsequence(xs, ys[..|ys| - 1])
  }
}
