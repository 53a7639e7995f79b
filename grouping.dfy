/** The pandas idiom of the resource monitors: `df.col.unique()` (distinct
    values in order of first appearance) and, per value, the number of rows
    `df.loc[df.col == v]` that also meet a condition. */
module Grouping {

  /** `[key(j) for j in jobs]`. */
  function KeysOf<J, K>(jobs: seq<J>, key: J -> K): (r: seq<K>)
    ensures |r| == |jobs| && forall i :: 0 <= i < |jobs| ==> r[i] == key(jobs[i])
  {
    seq(|jobs|, i requires 0 <= i < |jobs| => key(jobs[i]))
  }

  ghost predicate Distinct<T>(xs: seq<T>)
  {
    forall i, j :: 0 <= i < j < |xs| ==> xs[i] != xs[j]
  }

  /** `pd.Series(xs).unique()`: every value once, in order of first
      appearance. */
  function Unique<T(==,!new)>(xs: seq<T>): (r: seq<T>)
    ensures Distinct(r)
    ensures forall x :: x in r <==> x in xs
    ensures |r| <= |xs|
  {
    if xs == [] then []
    else
      var front := Unique(xs[..|xs| - 1]);
      var last := xs[|xs| - 1];
      assert xs == xs[..|xs| - 1] + [last];
      if last in front then front else front + [last]
  }

  /** The first appearances come first: the values of a prefix lead the
      values of the whole. */
  lemma {:induction false} UniquePrefix<T(!new)>(xs: seq<T>, n: nat)
    requires n <= |xs|
    ensures Unique(xs[..n]) <= Unique(xs)
    decreases |xs| - n
  {
    if n < |xs| {
      UniquePrefix(xs, n + 1);
      assert xs[..n + 1][..n] == xs[..n];
    } else {
      assert xs[..n] == xs;
    }
  }

  /** The number of jobs meeting `p`. */
  function CountWhere<J>(jobs: seq<J>, p: J -> bool): (r: nat)
    ensures r <= |jobs|
  {
    if jobs == [] then 0
    else CountWhere(jobs[..|jobs| - 1], p) + (if p(jobs[|jobs| - 1]) then 1 else 0)
  }

  /** `(df[key] == k) & p`: the jobs of group `k` meeting `p`. */
  function GroupCount<J, K(==)>(jobs: seq<J>, key: J -> K, p: J -> bool, k: K): nat
  {
    CountWhere(jobs, j => key(j) == k && p(j))
  }

  /** The group counts of `ks`, added up. */
  function GroupTotal<J, K(==)>(jobs: seq<J>, key: J -> K, p: J -> bool, ks: seq<K>): nat
  {
    if ks == [] then 0
    else GroupTotal(jobs, key, p, ks[..|ks| - 1]) + GroupCount(jobs, key, p, ks[|ks| - 1])
  }

  lemma CountStep<J>(jobs: seq<J>, j: J, p: J -> bool)
    ensures CountWhere(jobs + [j], p) == CountWhere(jobs, p) + (if p(j) then 1 else 0)
  {
    assert (jobs + [j])[..|jobs|] == jobs;
  }

  /** Groups that no job has are empty. */
  lemma {:induction false} AbsentGroup<J, K(!new)>(jobs: seq<J>, key: J -> K, p: J -> bool, k: K)
    requires k !in KeysOf(jobs, key)
    ensures GroupCount(jobs, key, p, k) == 0
  {
    if jobs != [] {
      var front := jobs[..|jobs| - 1];
      assert jobs == front + [jobs[|jobs| - 1]];
      assert KeysOf(front, key) == KeysOf(jobs, key)[..|front|];
      AbsentGroup(front, key, p, k);
      CountStep(front, jobs[|jobs| - 1], j => key(j) == k && p(j));
    }
  }

  /** One more job adds one to the total of distinct groups exactly when
      its group is among them and it meets `p`. */
  lemma {:induction false} TotalStep<J, K(!new)>(jobs: seq<J>, j: J, key: J -> K, p: J -> bool, ks: seq<K>)
    requires Distinct(ks)
    ensures GroupTotal(jobs + [j], key, p, ks) == GroupTotal(jobs, key, p, ks) + (if key(j) in ks && p(j) then 1 else 0)
  {
    if ks != [] {
      var front := ks[..|ks| - 1];
      var k := ks[|ks| - 1];
      assert ks == front + [k];
      TotalStep(jobs, j, key, p, front);
      CountStep(jobs, j, j' => key(j') == k && p(j'));
      assert key(j) in ks <==> key(j) in front || key(j) == k;
      assert k !in front;
    }
  }

  /** The groups of `unique()` split the jobs: over all of them, the
      group counts add up to the number of jobs meeting `p`. */
  lemma {:induction false} GroupsPartition<J, K(!new)>(jobs: seq<J>, key: J -> K, p: J -> bool)
    ensures GroupTotal(jobs, key, p, Unique(KeysOf(jobs, key))) == CountWhere(jobs, p)
  {
    if jobs != [] {
      var front := jobs[..|jobs| - 1];
      var j := jobs[|jobs| - 1];
      assert jobs == front + [j];
      var keys := KeysOf(jobs, key);
      assert keys[..|keys| - 1] == KeysOf(front, key);
      var ks := Unique(KeysOf(front, key));
      GroupsPartition(front, key, p);
      TotalStep(front, j, key, p, ks);
      CountStep(front, j, p);
      if key(j) !in ks {
        assert Unique(keys) == ks + [key(j)];
        assert (ks + [key(j)])[..|ks|] == ks;
        AbsentGroup(front, key, p, key(j));
        CountStep(front, j, j' => key(j') == key(j) && p(j'));
      } else {
        assert Unique(keys) == ks;
      }
    }
  }

  /** The loop `for x in xs: out.append(f(x))` of a function that cannot
      raise. */
  method ForEach<A, B>(f: A -> B, xs: seq<A>) returns (ys: seq<B>)
    ensures |ys| == |xs| && forall i :: 0 <= i < |xs| ==> ys[i] == f(xs[i])
  {
    ys := [];
    for i := 0 to |xs|
      invariant |ys| == i && forall k :: 0 <= k < i ==> ys[k] == f(xs[k])
    {
      ys := ys + [f(xs[i])];
    }
  }

  function Always<J>(j: J): bool
  {
    true
  }

  lemma {:induction false} CountAll<J>(jobs: seq<J>)
    ensures CountWhere(jobs, Always) == |jobs|
  {
    if jobs != [] {
      CountAll(jobs[..|jobs| - 1]);
    }
  }

  /** Conditions of which every job meets exactly one split each group. */
  lemma {:induction false} GroupSplit<J, K(!new)>(jobs: seq<J>, key: J -> K, a: J -> bool, b: J -> bool, c: J -> bool, k: K)
    requires forall j :: (a(j) || b(j) || c(j)) && !(a(j) && b(j)) && !(a(j) && c(j)) && !(b(j) && c(j))
    ensures GroupCount(jobs, key, a, k) + GroupCount(jobs, key, b, k) + GroupCount(jobs, key, c, k)
            == GroupCount(jobs, key, Always, k)
  {
    if jobs != [] {
      var front := jobs[..|jobs| - 1];
      var j := jobs[|jobs| - 1];
      assert jobs == front + [j];
      GroupSplit(front, key, a, b, c, k);
      CountStep(front, j, j' => key(j') == k && a(j'));
      CountStep(front, j, j' => key(j') == k && b(j'));
      CountStep(front, j, j' => key(j') == k && c(j'));
      CountStep(front, j, j' => key(j') == k && Always(j'));
    }
  }

  /** `df[cond]`: the jobs meeting `p`, in their order. */
  function Filter<J(!new)>(jobs: seq<J>, p: J -> bool): (r: seq<J>)
    ensures |r| == CountWhere(jobs, p)
    ensures forall j :: j in r <==> j in jobs && p(j)
  {
    if jobs == [] then []
    else
      var front := jobs[..|jobs| - 1];
      var last := jobs[|jobs| - 1];
      assert jobs == front + [last];
      Filter(front, p) + (if p(last) then [last] else [])
  }

  function Never<J>(j: J): bool
  {
    false
  }

  /** A condition no job meets counts nothing in any group. */
  lemma {:induction false} NeverCounted<J, K(!new)>(jobs: seq<J>, key: J -> K, k: K)
    ensures GroupCount(jobs, key, Never, k) == 0
  {
    if jobs != [] {
      NeverCounted(jobs[..|jobs| - 1], key, k);
    }
  }

  /** Conditions no two of which hold together count at most the group. */
  lemma {:induction false} GroupAtMost<J, K(!new)>(jobs: seq<J>, key: J -> K, a: J -> bool, b: J -> bool, c: J -> bool, k: K)
    requires forall j :: !(a(j) && b(j)) && !(a(j) && c(j)) && !(b(j) && c(j))
    ensures GroupCount(jobs, key, a, k) + GroupCount(jobs, key, b, k) + GroupCount(jobs, key, c, k)
            <= GroupCount(jobs, key, Always, k)
  {
    if jobs != [] {
      var front := jobs[..|jobs| - 1];
      var j := jobs[|jobs| - 1];
      assert jobs == front + [j];
      GroupAtMost(front, key, a, b, c, k);
      CountStep(front, j, j' => key(j') == k && a(j'));
      CountStep(front, j, j' => key(j') == k && b(j'));
      CountStep(front, j, j' => key(j') == k && c(j'));
      CountStep(front, j, j' => key(j') == k && Always(j'));
    }
  }
}
