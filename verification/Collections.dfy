/** Sums and images of sequences, and sums over finite key sets, with the facts that make them
    independent of the order in which a concurrent pipeline delivers its elements. */
module Collections {

  datatype Option<+T> = None | Some(value: T)

  /** The image of a sequence, in order. */
  function Map<A, B>(f: A -> B, xs: seq<A>): (ys: seq<B>)
    ensures |ys| == |xs|
    ensures forall i :: 0 <= i < |xs| ==> ys[i] == f(xs[i])
  {
    if xs == [] then [] else Map(f, xs[..|xs| - 1]) + [f(xs[|xs| - 1])]
  }

  /** The sum of a weight over a sequence. */
  function Sum<T>(w: T -> real, xs: seq<T>): real {
    if xs == [] then 0.0 else Sum(w, xs[..|xs| - 1]) + w(xs[|xs| - 1])
  }

  function Without<T>(xs: seq<T>, i: nat): seq<T>
    requires i < |xs|
  {
    xs[..i] + xs[i + 1..]
  }

  lemma WithoutMultiset<T>(xs: seq<T>, i: nat)
    requires i < |xs|
    ensures multiset(Without(xs, i)) == multiset(xs) - multiset{xs[i]}
  {
    assert xs == xs[..i] + [xs[i]] + xs[i + 1..];
  }

  lemma {:induction false} SumWithout<T>(w: T -> real, xs: seq<T>, i: nat)
    requires i < |xs|
    ensures Sum(w, xs) == Sum(w, Without(xs, i)) + w(xs[i])
  {
    var n := |xs| - 1;
    if i == n {
      assert Without(xs, i) == xs[..n];
    } else {
      SumWithout(w, xs[..n], i);
      assert Without(xs, i)[..n - 1] == Without(xs[..n], i);
    }
  }

  lemma {:induction false} MapWithout<A, B>(f: A -> B, xs: seq<A>, i: nat)
    requires i < |xs|
    ensures Map(f, Without(xs, i)) == Without(Map(f, xs), i)
  {
  }

  /** A sum depends only on which elements occur and how often. */
  lemma {:induction false} SumPermutation<T>(w: T -> real, xs: seq<T>, ys: seq<T>)
    requires multiset(xs) == multiset(ys)
    ensures Sum(w, xs) == Sum(w, ys)
  {
    if xs == [] {
      assert |multiset(ys)| == 0;
    } else {
      var n := |xs| - 1;
      assert xs[n] in multiset(ys);
      var j :| 0 <= j < |ys| && ys[j] == xs[n];
      WithoutMultiset(xs, n);
      WithoutMultiset(ys, j);
      assert Without(xs, n) == xs[..n];
      SumPermutation(w, xs[..n], Without(ys, j));
      SumWithout(w, ys, j);
    }
  }

  lemma MapMultisetStep<A, B>(f: A -> B, xs: seq<A>, i: nat)
    requires i < |xs|
    ensures multiset(Map(f, xs)) == multiset(Map(f, Without(xs, i))) + multiset{f(xs[i])}
  {
    MapWithout(f, xs, i);
    WithoutMultiset(Map(f, xs), i);
    assert f(xs[i]) in multiset(Map(f, xs)) by { assert Map(f, xs)[i] == f(xs[i]); }
  }

  /** An image depends, as a multiset, only on the multiset it is taken of. */
  lemma {:induction false} MapPermutation<A, B>(f: A -> B, xs: seq<A>, ys: seq<A>)
    requires multiset(xs) == multiset(ys)
    ensures multiset(Map(f, xs)) == multiset(Map(f, ys))
    decreases |xs|
  {
    if xs == [] {
      assert |multiset(ys)| == 0;
    } else {
      assert xs[0] in multiset(ys);
      var j :| 0 <= j < |ys| && ys[j] == xs[0];
      WithoutMultiset(xs, 0);
      WithoutMultiset(ys, j);
      MapPermutation(f, Without(xs, 0), Without(ys, j));
      MapMultisetStep(f, xs, 0);
      MapMultisetStep(f, ys, j);
    }
  }

  lemma {:induction false} SumMonotone<T>(w: T -> real, w': T -> real, xs: seq<T>)
    requires forall i :: 0 <= i < |xs| ==> w(xs[i]) <= w'(xs[i])
    ensures Sum(w, xs) <= Sum(w', xs)
  {
    if xs != [] {
      SumMonotone(w, w', xs[..|xs| - 1]);
    }
  }

  function Scaled<T>(c: real, w: T -> real): T -> real {
    (x: T) => c * w(x)
  }

  lemma {:induction false} SumScaled<T>(c: real, w: T -> real, xs: seq<T>, sum: real)
    requires sum == Sum(w, xs)
    ensures Sum(Scaled(c, w), xs) == c * sum
  {
    if xs != [] {
      SumScaled(c, w, xs[..|xs| - 1], sum - w(xs[|xs| - 1]));
    }
  }

  lemma SizeAdd<T>(s: set<T>, x: T)
    ensures |s + {x}| == if x in s then |s| else |s| + 1
  {
    if x in s {
      assert s + {x} == s;
    }
  }

  lemma SizeRemove<T>(s: set<T>, x: T)
    requires x in s
    ensures |s - {x}| == |s| - 1
  {
  }

  /** The sum of a weight over a finite set of keys. */
  ghost function SumOver<K(!new)>(keys: set<K>, w: K -> real): real {
    if keys == {} then 0.0 else
      var k :| k in keys;
      w(k) + SumOver(keys - {k}, w)
  }

  lemma {:induction false} SumOverRemove<K(!new)>(keys: set<K>, w: K -> real, k: K)
    requires k in keys
    ensures SumOver(keys, w) == w(k) + SumOver(keys - {k}, w)
  {
    var p :| p in keys && SumOver(keys, w) == w(p) + SumOver(keys - {p}, w);
    if p != k {
      SumOverRemove(keys - {p}, w, k);
      SumOverRemove(keys - {k}, w, p);
      assert keys - {p} - {k} == keys - {k} - {p};
    }
  }

  lemma {:induction false} SumOverCongruent<K(!new)>(keys: set<K>, w: K -> real, w': K -> real)
    requires forall k :: k in keys ==> w(k) == w'(k)
    ensures SumOver(keys, w) == SumOver(keys, w')
  {
    if keys != {} {
      var p :| p in keys;
      SumOverRemove(keys, w, p);
      SumOverRemove(keys, w', p);
      SumOverCongruent(keys - {p}, w, w');
    }
  }

  // ---------------------------------------------------------------- selections

  /** How many of the flags are set. */
  function Rank(flags: seq<bool>): nat {
    if flags == [] then 0 else Rank(flags[..|flags| - 1]) + if flags[|flags| - 1] then 1 else 0
  }

  /** A sequence with one element for each flag that is set, in their order, and no other; `fits`
      says which element a position may have. */
  ghost predicate IsSelection<T(!new)>(xs: seq<T>, flags: seq<bool>, fits: (int, T) -> bool) {
    && |xs| == Rank(flags)
    && forall i :: 0 <= i < |flags| && flags[i] ==> Rank(flags[..i]) < |xs| && fits(i, xs[Rank(flags[..i])])
  }

  lemma SelectionSnoc<T(!new)>(xs: seq<T>, flags: seq<bool>, fits: (int, T) -> bool, flag: bool, more: seq<T>)
    requires IsSelection(xs, flags, fits)
    requires more == [] || (|more| == 1 && fits(|flags|, more[0]))
    requires flag <==> more != []
    ensures IsSelection(xs + more, flags + [flag], fits)
  {
    var flags' := flags + [flag];
    assert flags'[..|flags|] == flags;
    forall i | 0 <= i < |flags'| && flags'[i]
      ensures Rank(flags'[..i]) < |xs + more| && fits(i, (xs + more)[Rank(flags'[..i])])
    {
      assert flags'[..i] == flags[..i];
      if i == |flags| {
        assert flags[..i] == flags;
      }
    }
  }
}
