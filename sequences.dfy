/** Two list operations the result parsers are specified with. */
module Sequences {

  /** Index of the first element satisfying `p`, or `|xs|` when there is none. */
  function FirstIndex<T>(xs: seq<T>, p: T -> bool): (r: nat)
    ensures r <= |xs|
    ensures r < |xs| ==> p(xs[r])
    ensures forall j :: 0 <= j < r ==> !p(xs[j])
  {
    if |xs| == 0 then 0
    else if p(xs[0]) then 0
    else 1 + FirstIndex(xs[1..], p)
  }

  /** The first index is pinned down by a hit at `n` (or the end) and no hit before it. */
  lemma FirstIndexAt<T>(xs: seq<T>, p: T -> bool, n: nat)
    requires n <= |xs| && (n < |xs| ==> p(xs[n]))
    requires forall j :: 0 <= j < n ==> !p(xs[j])
    ensures FirstIndex(xs, p) == n
  {
  }

  /** The elements satisfying `p`, in their original order. */
  function Filter<T>(xs: seq<T>, p: T -> bool): (r: seq<T>)
    ensures |r| <= |xs|
  {
    if |xs| == 0 then []
    else
      var rest := Filter(xs[1..], p);
      if p(xs[0]) then [xs[0]] + rest else rest
  }

  /** Every kept element satisfies the predicate. */
  lemma {:induction false} FilterKeeps<T>(xs: seq<T>, p: T -> bool)
    ensures forall k :: 0 <= k < |Filter(xs, p)| ==> p(Filter(xs, p)[k])
  {
    if |xs| > 0 {
      FilterKeeps(xs[1..], p);
    }
  }

  /** Every kept element comes from the input. */
  lemma {:induction false} FilterSubset<T>(xs: seq<T>, p: T -> bool)
    ensures forall k :: 0 <= k < |Filter(xs, p)| ==> Filter(xs, p)[k] in xs
  {
    if |xs| > 0 {
      FilterSubset(xs[1..], p);
      var rest := Filter(xs[1..], p);
      forall k | 0 <= k < |rest| ensures rest[k] in xs {
        var j :| 0 <= j < |xs[1..]| && xs[1..][j] == rest[k];
        assert xs[j + 1] == rest[k];
      }
    }
  }

  /** Extending a slice by the element at its end. */
  lemma SliceSnoc<T>(xs: seq<T>, a: nat, b: nat)
    requires a <= b < |xs|
    ensures xs[a..b + 1] == xs[a..b] + [xs[b]]
  {
  }

  /** Extending a prefix by the next element. */
  lemma PrefixSnoc<T>(xs: seq<T>, i: nat)
    requires i < |xs|
    ensures xs[..i + 1] == xs[..i] + [xs[i]]
  {
  }

  /** Filtering a sequence extended by one element. */
  lemma {:induction false} FilterSnoc<T>(xs: seq<T>, x: T, p: T -> bool)
    ensures Filter(xs + [x], p) == Filter(xs, p) + (if p(x) then [x] else [])
  {
    if |xs| > 0 {
      assert (xs + [x])[1..] == xs[1..] + [x];
      FilterSnoc(xs[1..], x, p);
    } else {
      assert (xs + [x])[1..] == [];
    }
  }

  /** `[y for x in xs for y in f(x)]` */
  function FlatMap<T, U>(xs: seq<T>, f: T -> seq<U>): seq<U>
  {
    if |xs| == 0 then [] else f(xs[0]) + FlatMap(xs[1..], f)
  }

  lemma {:induction false} FlatMapSnoc<T, U>(xs: seq<T>, x: T, f: T -> seq<U>)
    ensures FlatMap(xs + [x], f) == FlatMap(xs, f) + f(x)
  {
    if |xs| > 0 {
      assert (xs + [x])[1..] == xs[1..] + [x];
      FlatMapSnoc(xs[1..], x, f);
    } else {
      assert (xs + [x])[1..] == [];
    }
  }

  /** A property of every produced element holds of the whole flattened sequence. */
  lemma {:induction false} FlatMapAll<T, U>(xs: seq<T>, f: T -> seq<U>, p: U -> bool)
    requires forall x, u :: x in xs && u in f(x) ==> p(u)
    ensures forall u :: u in FlatMap(xs, f) ==> p(u)
  {
    if |xs| > 0 {
      FlatMapAll(xs[1..], f, p);
    }
  }

  /** Elements that each produce nothing flatten to nothing. */
  lemma {:induction false} FlatMapNone<T, U>(xs: seq<T>, f: T -> seq<U>)
    requires forall x :: x in xs ==> f(x) == []
    ensures FlatMap(xs, f) == []
  {
    if |xs| > 0 {
      FlatMapNone(xs[1..], f);
    }
  }

  /** One step of a loop that appends `f(xs[j])` to an accumulator holding the flattening of `xs[..j]`. */
  lemma FlatMapStep<T, U>(acc: seq<U>, xs: seq<T>, j: nat, f: T -> seq<U>, r: seq<U>)
    requires j < |xs|
    requires r == acc + FlatMap(xs[..j], f) + f(xs[j])
    ensures r == acc + FlatMap(xs[..j + 1], f)
  {
    assert xs[..j + 1] == xs[..j] + [xs[j]];
    FlatMapSnoc(xs[..j], xs[j], f);
  }

  lemma FlatMapSingle<T, U>(x: T, f: T -> seq<U>)
    ensures FlatMap([x], f) == f(x)
  {
    assert [x][1..] == [];
  }

  lemma FlatMapCons<T, U>(x: T, xs: seq<T>, f: T -> seq<U>)
    ensures FlatMap([x] + xs, f) == f(x) + FlatMap(xs, f)
  {
    assert ([x] + xs)[1..] == xs;
  }

  /** One step of a loop that counts the elements of `xs[..i]` satisfying `p`. */
  lemma FilterCountStep<T>(xs: seq<T>, i: nat, p: T -> bool)
    requires i < |xs|
    ensures |Filter(xs[..i + 1], p)| == |Filter(xs[..i], p)| + (if p(xs[i]) then 1 else 0)
  {
    PrefixSnoc(xs, i);
    FilterSnoc(xs[..i], xs[i], p);
  }
}
