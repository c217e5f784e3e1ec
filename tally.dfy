/**
 * Counting by key and summing, the arithmetic behind the message count of the
 * history loader, the kanban columns and the dashboard counters.
 */
module Tally {
  import opened Wrappers

  /** The elements of `xs` whose key is `k`, in their original order. */
  function Select<T, K(==)>(xs: seq<T>, key: T -> K, k: K): (r: seq<T>)
    ensures |r| <= |xs|
  {
    if xs == [] then []
    else (if key(xs[0]) == k then [xs[0]] else []) + Select(xs[1..], key, k)
  }

  /** The selection holds exactly the elements with the key. */
  lemma {:induction false} SelectMembers<T, K>(xs: seq<T>, key: T -> K, k: K, x: T)
    ensures x in Select(xs, key, k) <==> x in xs && key(x) == k
  {
    if xs != [] {
      SelectMembers(xs[1..], key, k, x);
    }
  }

  lemma {:induction false} SelectConcat<T, K>(a: seq<T>, b: seq<T>, key: T -> K, k: K)
    ensures Select(a + b, key, k) == Select(a, key, k) + Select(b, key, k)
  {
    if a == [] {
      assert a + b == b;
    } else {
      var head := if key(a[0]) == k then [a[0]] else [];
      assert (a + b)[0] == a[0] && (a + b)[1..] == a[1..] + b;
      assert Select(a + b, key, k) == head + Select(a[1..] + b, key, k);
      SelectConcat(a[1..], b, key, k);
      assert Select(a, key, k) == head + Select(a[1..], key, k);
    }
  }

  /** Appending one element extends exactly the selection of its key. */
  lemma SelectSnoc<T, K>(xs: seq<T>, x: T, key: T -> K, k: K)
    ensures Select(xs + [x], key, k) == Select(xs, key, k) + (if key(x) == k then [x] else [])
  {
    SelectConcat(xs, [x], key, k);
    assert [x][1..] == [];
  }

  /**
   * A map of columns, one selection per key, stays one after the next element
   * is pushed onto the column of its key (or dropped when it has none).
   */
  /** Every column of `m` is the selection of its key. */
  ghost predicate ColumnsSelect<T, K>(m: map<K, seq<T>>, xs: seq<T>, key: T -> Option<K>) {
    forall k :: k in m ==> m[k] == Select(xs, key, Some(k))
  }

  lemma SelectColumnsStep<T, K>(m: map<K, seq<T>>, xs: seq<T>, i: nat, key: T -> Option<K>)
    requires i < |xs|
    requires ColumnsSelect(m, xs[..i], key)
    requires key(xs[i]).Some? ==> key(xs[i]).value in m
    ensures ColumnsSelect(if key(xs[i]).Some? then m[key(xs[i]).value := m[key(xs[i]).value] + [xs[i]]] else m,
                          xs[..i + 1], key)
  {
    assert xs[..i + 1] == xs[..i] + [xs[i]];
    forall k ensures Select(xs[..i + 1], key, Some(k)) == Select(xs[..i], key, Some(k)) + (if key(xs[i]) == Some(k) then [xs[i]] else []) {
      SelectSnoc(xs[..i], xs[i], key, Some(k));
    }
  }

  /** The sum of `|Select(xs, key, k)|` over the keys `ks`. */
  function SumCounts<T, K(==)>(xs: seq<T>, key: T -> K, ks: seq<K>): nat {
    if ks == [] then 0 else |Select(xs, key, ks[0])| + SumCounts(xs, key, ks[1..])
  }

  /** How many entries of `ks` equal `v`. */
  function Occurrences<K(==)>(ks: seq<K>, v: K): nat {
    if ks == [] then 0 else (if ks[0] == v then 1 else 0) + Occurrences(ks[1..], v)
  }

  predicate Distinct<K(==)>(ks: seq<K>) {
    forall i, j :: 0 <= i < j < |ks| ==> ks[i] != ks[j]
  }

  /** A new key appended to distinct keys keeps them distinct. */
  lemma DistinctSnoc<K>(ks: seq<K>, k: K)
    requires Distinct(ks) && k !in ks
    ensures Distinct(ks + [k])
  {
    var r := ks + [k];
    forall i, j | 0 <= i < j < |r| ensures r[i] != r[j] {
      if j == |ks| {
        assert r[i] == ks[i] && ks[i] in ks;
      }
    }
  }

  lemma {:induction false} OccurrencesOfDistinct<K>(ks: seq<K>, v: K)
    requires Distinct(ks)
    ensures Occurrences(ks, v) == if v in ks then 1 else 0
  {
    if ks != [] {
      assert Distinct(ks[1..]) by {
        forall i, j | 0 <= i < j < |ks[1..]| ensures ks[1..][i] != ks[1..][j] {
          assert ks[1..][i] == ks[i + 1] && ks[1..][j] == ks[j + 1];
        }
      }
      OccurrencesOfDistinct(ks[1..], v);
      if ks[0] == v {
        assert v !in ks[1..] by {
          forall j | 0 <= j < |ks[1..]| ensures ks[1..][j] != v {
            assert ks[1..][j] == ks[j + 1];
          }
        }
      }
      assert v in ks <==> ks[0] == v || v in ks[1..];
    }
  }

  lemma {:induction false} SumCountsOfEmpty<T, K>(key: T -> K, ks: seq<K>)
    ensures SumCounts([], key, ks) == 0
  {
    if ks != [] {
      SumCountsOfEmpty(key, ks[1..]);
    }
  }

  /** Adding one element in front adds one for every key that matches it. */
  lemma {:induction false} SumCountsCons<T, K>(x: T, xs: seq<T>, key: T -> K, ks: seq<K>)
    ensures SumCounts([x] + xs, key, ks) == SumCounts(xs, key, ks) + Occurrences(ks, key(x))
  {
    assert ([x] + xs)[1..] == xs;
    if ks != [] {
      SumCountsCons(x, xs, key, ks[1..]);
    }
  }

  /**
   * Partition: when the keys are distinct and cover every element, the groups
   * have as many elements together as the input.
   */
  lemma {:induction false} SumCountsCovers<T, K>(xs: seq<T>, key: T -> K, ks: seq<K>)
    requires Distinct(ks)
    requires forall x :: x in xs ==> key(x) in ks
    ensures SumCounts(xs, key, ks) == |xs|
  {
    if xs == [] {
      SumCountsOfEmpty(key, ks);
    } else {
      assert xs == [xs[0]] + xs[1..];
      SumCountsCovers(xs[1..], key, ks);
      SumCountsCons(xs[0], xs[1..], key, ks);
      OccurrencesOfDistinct(ks, key(xs[0]));
    }
  }

  /** The sum of `f` over the elements. */
  function SumOf<T>(xs: seq<T>, f: T -> nat): nat {
    if xs == [] then 0 else f(xs[0]) + SumOf(xs[1..], f)
  }

  lemma {:induction false} SumOfConcat<T>(a: seq<T>, b: seq<T>, f: T -> nat)
    ensures SumOf(a + b, f) == SumOf(a, f) + SumOf(b, f)
  {
    if a == [] {
      assert a + b == b;
    } else {
      assert (a + b)[1..] == a[1..] + b;
      SumOfConcat(a[1..], b, f);
    }
  }

  /** A sum does not depend on the order of its terms. */
  lemma {:induction false} SumOfPermutation<T>(a: seq<T>, b: seq<T>, f: T -> nat)
    requires multiset(a) == multiset(b)
    ensures SumOf(a, f) == SumOf(b, f)
    decreases |a|
  {
    if a != [] {
      var x := a[0];
      assert x in multiset(b);
      var j :| 0 <= j < |b| && b[j] == x;
      var rest := b[..j] + b[j + 1..];
      assert b == b[..j] + [x] + b[j + 1..];
      assert a == [x] + a[1..];
      assert multiset(b) == multiset(b[..j]) + multiset{x} + multiset(b[j + 1..]);
      assert multiset(rest) == multiset(b[..j]) + multiset(b[j + 1..]);
      assert multiset(a) == multiset{x} + multiset(a[1..]);
      assert multiset(a[1..]) == multiset(a) - multiset{x};
      assert multiset(rest) == multiset(b) - multiset{x};
      SumOfPermutation(a[1..], rest, f);
      SumOfConcat(b[..j] + [x], b[j + 1..], f);
      SumOfConcat(b[..j], [x], f);
      SumOfConcat(b[..j], b[j + 1..], f);
    }
  }

  /** Replacing one term changes the sum by the difference of the two terms. */
  lemma {:induction false} SumOfUpdate<T>(s: seq<T>, i: int, x: T, f: T -> nat)
    requires 0 <= i < |s|
    ensures SumOf(s[i := x], f) + f(s[i]) == SumOf(s, f) + f(x)
  {
    if i == 0 {
      assert s[i := x][1..] == s[1..];
    } else {
      assert s[i := x][1..] == s[1..][i - 1 := x];
      SumOfUpdate(s[1..], i - 1, x, f);
    }
  }

  /** Sums of two sequences whose terms agree one by one agree. */
  lemma {:induction false} SumOfPointwise<T>(a: seq<T>, b: seq<T>, f: T -> nat)
    requires |a| == |b|
    requires forall i :: 0 <= i < |a| ==> f(a[i]) == f(b[i])
    ensures SumOf(a, f) == SumOf(b, f)
  {
    if a != [] {
      SumOfPointwise(a[1..], b[1..], f);
    }
  }

  /** Replacing one element swaps one occurrence in the multiset. */
  lemma MultisetUpdate<T>(s: seq<T>, i: int, x: T)
    requires 0 <= i < |s|
    ensures multiset(s[i := x]) == multiset(s) - multiset{s[i]} + multiset{x}
  {
    assert s == s[..i] + [s[i]] + s[i + 1..];
    assert s[i := x] == s[..i] + [x] + s[i + 1..];
  }

  /** The elements of `xs` that satisfy `p`, in order. */
  function Filter<T>(xs: seq<T>, p: T -> bool): (r: seq<T>)
    ensures |r| <= |xs|
    ensures forall x :: x in r ==> x in xs && p(x)
    ensures forall x :: x in xs && p(x) ==> x in r
  {
    if xs == [] then [] else (if p(xs[0]) then [xs[0]] else []) + Filter(xs[1..], p)
  }

  /** The filter keeps every copy of an accepted element and no copy of a rejected one. */
  lemma {:induction false} FilterMultiset<T>(xs: seq<T>, p: T -> bool)
    ensures forall x :: multiset(Filter(xs, p))[x] == if p(x) then multiset(xs)[x] else 0
  {
    if xs != [] {
      FilterMultiset(xs[1..], p);
      assert xs == [xs[0]] + xs[1..];
      assert multiset(xs) == multiset{xs[0]} + multiset(xs[1..]);
      assert multiset(Filter(xs, p)) == multiset(if p(xs[0]) then [xs[0]] else []) + multiset(Filter(xs[1..], p));
    }
  }

  /** `a` is `b` with some elements left out, the rest in their order. */
  predicate Subsequence<T(==)>(a: seq<T>, b: seq<T>)
    decreases |b|
  {
    if b == [] then a == []
    else Subsequence(a, b[1..]) || (a != [] && a[0] == b[0] && Subsequence(a[1..], b[1..]))
  }

  lemma {:induction false} FilterSubsequence<T>(xs: seq<T>, p: T -> bool)
    ensures Subsequence(Filter(xs, p), xs)
  {
    if xs != [] {
      FilterSubsequence(xs[1..], p);
      if p(xs[0]) {
        assert Filter(xs, p)[1..] == Filter(xs[1..], p);
      } else {
        assert Filter(xs, p) == Filter(xs[1..], p);
      }
    }
  }

  /** A filter that rejects nothing returns its input. */
  lemma {:induction false} FilterAll<T>(xs: seq<T>, p: T -> bool)
    requires forall x :: x in xs ==> p(x)
    ensures Filter(xs, p) == xs
  {
    if xs != [] {
      assert xs[0] in xs;
      FilterAll(xs[1..], p);
      assert xs == [xs[0]] + xs[1..];
    }
  }

  /** `Select` is the filter on one key value. */
  lemma {:induction false} SelectIsFilter<T, K>(xs: seq<T>, key: T -> K, k: K)
    ensures Select(xs, key, k) == Filter(xs, x => key(x) == k)
  {
    if xs != [] {
      SelectIsFilter(xs[1..], key, k);
    }
  }

  /** A selection keeps its elements in their input order. */
  lemma {:induction false} SelectSubsequence<T, K>(xs: seq<T>, key: T -> K, k: K)
    ensures Subsequence(Select(xs, key, k), xs)
  {
    if xs != [] {
      SelectSubsequence(xs[1..], key, k);
      if key(xs[0]) == k {
        assert Select(xs, key, k)[1..] == Select(xs[1..], key, k);
      } else {
        assert Select(xs, key, k) == Select(xs[1..], key, k);
      }
    }
  }

  /** A `Map<K, number>` of counts together with its insertion order. */
  datatype Counter<K> = Counter(order: seq<K>, counts: map<K, nat>)

  /** One more for `k`, starting from zero for a new key. */
  function Bump<K>(c: Counter<K>, k: K): Counter<K> {
    Counter(if k in c.counts then c.order else c.order + [k],
            c.counts[k := (if k in c.counts then c.counts[k] else 0) + 1])
  }

  /** The counter after bumping the key of every element, in order. */
  function CountAll<T, K>(xs: seq<T>, key: T -> K): Counter<K> {
    if xs == [] then Counter([], map[])
    else Bump(CountAll(xs[..|xs| - 1], key), key(xs[|xs| - 1]))
  }

  /** Counting one more element bumps its key. */
  lemma CountAllSnoc<T, K>(xs: seq<T>, x: T, key: T -> K)
    ensures CountAll(xs + [x], key) == Bump(CountAll(xs, key), key(x))
  {
    assert (xs + [x])[..|xs|] == xs;
  }

  /** A counted key was counted at least once. */
  lemma {:induction false} CountAllPositive<T, K>(xs: seq<T>, key: T -> K, k: K)
    requires k in CountAll(xs, key).counts
    ensures CountAll(xs, key).counts[k] > 0
  {
    if xs != [] {
      var n := |xs| - 1;
      if k != key(xs[n]) {
        CountAllPositive(xs[..n], key, k);
      }
    }
  }

  /**
   * The counter lists every key once, in order of first appearance, and
   * counts for each key the elements that have it.
   */
  lemma {:induction false} CountAllSpec<T, K>(xs: seq<T>, key: T -> K)
    ensures var c := CountAll(xs, key);
            && Distinct(c.order)
            && (forall k :: k in c.order <==> k in c.counts)
            && (forall k :: k in c.counts ==> c.counts[k] == |Select(xs, key, k)|)
            && (forall k :: k !in c.counts ==> Select(xs, key, k) == [])
  {
    if xs != [] {
      var n := |xs| - 1;
      var x := xs[n];
      var prev := CountAll(xs[..n], key);
      CountAllSpec(xs[..n], key);
      var c := CountAll(xs, key);
      assert c == Bump(prev, key(x));
      assert xs == xs[..n] + [x];
      assert [x][1..] == [];
      forall k ensures Select(xs, key, k) == Select(xs[..n], key, k) + (if key(x) == k then [x] else []) {
        SelectConcat(xs[..n], [x], key, k);
      }
      if key(x) !in prev.counts {
        assert c.order == prev.order + [key(x)];
        forall i, j | 0 <= i < j < |c.order| ensures c.order[i] != c.order[j] {
          assert c.order[i] == prev.order[i];
          assert prev.order[i] in prev.order;
          if j < |prev.order| {
            assert c.order[j] == prev.order[j];
          } else {
            assert c.order[j] == key(x);
          }
        }
      }
    }
  }

  /** The counts of a counter add up to the number of elements counted. */
  lemma CountAllTotal<T, K>(xs: seq<T>, key: T -> K)
    ensures SumCounts(xs, key, CountAll(xs, key).order) == |xs|
  {
    var c := CountAll(xs, key);
    CountAllSpec(xs, key);
    forall x | x in xs ensures key(x) in c.order {
      SelectMembers(xs, key, key(x), x);
      assert Select(xs, key, key(x)) != [];
    }
    SumCountsCovers(xs, key, c.order);
  }

  /** Every key wrapped in `Some`, in order. */
  function Somes<K>(ks: seq<K>): (r: seq<Option<K>>)
    ensures |r| == |ks| && forall i :: 0 <= i < |ks| ==> r[i] == Some(ks[i])
  {
    if ks == [] then [] else [Some(ks[0])] + Somes(ks[1..])
  }

  /** Partition with a "dropped" key: `None` and the listed keys cover everything. */
  lemma OptionalPartition<T, K>(xs: seq<T>, key: T -> Option<K>, ks: seq<K>)
    requires Distinct(ks)
    requires forall x :: x in xs && key(x).Some? ==> key(x).value in ks
    ensures |Select(xs, key, None)| + SumCounts(xs, key, Somes(ks)) == |xs|
  {
    var all := [None] + Somes(ks);
    forall i, j | 0 <= i < j < |all| ensures all[i] != all[j] {
      if i > 0 {
        assert all[i] == Some(ks[i - 1]) && all[j] == Some(ks[j - 1]);
      }
    }
    forall x | x in xs ensures key(x) in all {
      if key(x).Some? {
        var j :| 0 <= j < |ks| && ks[j] == key(x).value;
        assert all[j + 1] == key(x);
      }
    }
    SumCountsCovers(xs, key, all);
    assert all[1..] == Somes(ks);
  }

  /** The elements with no key are exactly those the filter rejects. */
  lemma {:induction false} SelectNoneComplement<T, K>(xs: seq<T>, key: T -> Option<K>, p: T -> bool)
    requires forall x :: x in xs ==> (key(x).None? <==> !p(x))
    ensures |Select(xs, key, None)| + |Filter(xs, p)| == |xs|
  {
    if xs != [] {
      assert xs[0] in xs;
      SelectNoneComplement(xs[1..], key, p);
    }
  }
}
