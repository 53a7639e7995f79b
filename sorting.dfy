/** Python's `sorted`/`list.sort` with a key, modelled as a stable insertion
    sort under a strict weak order `less` (the `<` of the keys). */
module Sorting {

  ghost predicate Asymmetric<T(!new)>(less: (T, T) -> bool)
  {
    forall a, b :: less(a, b) ==> !less(b, a)
  }

  /** "Not less" is transitive: keys that are not smaller never become
      smaller by going round an intermediate element. */
  ghost predicate NegTransitive<T(!new)>(less: (T, T) -> bool)
  {
    forall a, b, c :: !less(a, b) && !less(b, c) ==> !less(a, c)
  }

  /** No later element is strictly smaller than an earlier one. */
  ghost predicate SortedBy<T>(xs: seq<T>, less: (T, T) -> bool)
  {
    forall i, j :: 0 <= i < j < |xs| ==> !less(xs[j], xs[i])
  }

  /** Puts `x` in front of the first element that is not smaller than it. */
  function Insert<T(!new)>(x: T, ys: seq<T>, less: (T, T) -> bool): (r: seq<T>)
    requires Asymmetric(less) && NegTransitive(less)
    requires SortedBy(ys, less)
    ensures SortedBy(r, less)
    ensures multiset(r) == multiset(ys) + multiset{x}
    ensures |r| == |ys| + 1
  {
    if ys == [] || !less(ys[0], x) then
      [x] + ys
    else
      var rest := Insert(x, ys[1..], less);
      assert ys == [ys[0]] + ys[1..];
      InsertHead(x, ys, rest, less);
      [ys[0]] + rest
  }

  /** The head of a sorted list that is smaller than `x` can stay in front
      of the rest with `x` inserted. */
  lemma InsertHead<T(!new)>(x: T, ys: seq<T>, rest: seq<T>, less: (T, T) -> bool)
    requires Asymmetric(less) && |ys| > 0 && less(ys[0], x)
    requires SortedBy(ys, less) && SortedBy(rest, less)
    requires multiset(rest) == multiset(ys[1..]) + multiset{x}
    ensures SortedBy([ys[0]] + rest, less)
  {
    forall k | 0 <= k < |rest|
      ensures !less(rest[k], ys[0])
    {
      assert rest[k] in multiset(rest);
      if rest[k] != x {
        assert rest[k] in multiset(ys[1..]);
        var j :| 0 <= j < |ys[1..]| && ys[1..][j] == rest[k];
        assert ys[j + 1] == rest[k];
      }
    }
    var r := [ys[0]] + rest;
    forall i, j | 0 <= i < j < |r|
      ensures !less(r[j], r[i])
    {
      if i > 0 {
        assert r[i] == rest[i - 1] && r[j] == rest[j - 1];
      } else {
        assert r[j] == rest[j - 1];
      }
    }
  }

  /** `sorted(xs, key=...)`: an ordered permutation of `xs`. */
  function SortBy<T(!new)>(xs: seq<T>, less: (T, T) -> bool): (r: seq<T>)
    requires Asymmetric(less) && NegTransitive(less)
    ensures SortedBy(r, less)
    ensures multiset(r) == multiset(xs)
    ensures |r| == |xs|
  {
    if xs == [] then []
    else
      assert xs == [xs[0]] + xs[1..];
      Insert(xs[0], SortBy(xs[1..], less), less)
  }
}
