/**
 * `Array.prototype.sort` with a comparator, as the model sees it: a stable sort
 * (ECMAScript 2019 requires stability) under a total preorder `le`, where
 * `le(a, b)` means the comparator does not put `b` strictly before `a`.
 * Every re-sort of the application is an instance of `Sort`.
 */
module Sorting {

  ghost predicate Total<T(!new)>(le: (T, T) -> bool) {
    forall a, b :: le(a, b) || le(b, a)
  }

  ghost predicate Transitive<T(!new)>(le: (T, T) -> bool) {
    forall a, b, c :: le(a, b) && le(b, c) ==> le(a, c)
  }

  ghost predicate TotalPreorder<T(!new)>(le: (T, T) -> bool) {
    Total(le) && Transitive(le)
  }

  ghost predicate Antisymmetric<T(!new)>(le: (T, T) -> bool) {
    forall a, b :: le(a, b) && le(b, a) ==> a == b
  }

  /** A strict total order: irreflexive, transitive and connected. */
  ghost predicate StrictTotal<T(!new)>(lt: (T, T) -> bool) {
    && (forall a :: !lt(a, a))
    && (forall a, b, c :: lt(a, b) && lt(b, c) ==> lt(a, c))
    && (forall a, b :: a == b || lt(a, b) || lt(b, a))
  }

  predicate SortedBy<T>(s: seq<T>, le: (T, T) -> bool) {
    forall i, j :: 0 <= i < j < |s| ==> le(s[i], s[j])
  }

  /** No two positions of `s` share a key. */
  predicate UniqueBy<T, K(==)>(s: seq<T>, key: T -> K) {
    forall i, j :: 0 <= i < j < |s| ==> key(s[i]) != key(s[j])
  }

  /** Lexicographic order on sequences, a proper prefix coming first. */
  predicate LexLe<T(==)>(x: seq<T>, y: seq<T>, lt: (T, T) -> bool) {
    x == [] || (y != [] && (lt(x[0], y[0]) || (x[0] == y[0] && LexLe(x[1..], y[1..], lt))))
  }

  lemma {:induction false} LexTotal<T(!new)>(x: seq<T>, y: seq<T>, lt: (T, T) -> bool)
    requires StrictTotal(lt)
    ensures LexLe(x, y, lt) || LexLe(y, x, lt)
  {
    if x != [] && y != [] && x[0] == y[0] {
      LexTotal(x[1..], y[1..], lt);
    }
  }

  lemma {:induction false} LexTransitive<T(!new)>(x: seq<T>, y: seq<T>, z: seq<T>, lt: (T, T) -> bool)
    requires StrictTotal(lt)
    requires LexLe(x, y, lt) && LexLe(y, z, lt)
    ensures LexLe(x, z, lt)
  {
    if x != [] && x[0] == y[0] && y[0] == z[0] {
      LexTransitive(x[1..], y[1..], z[1..], lt);
    }
  }

  lemma {:induction false} LexAntisymmetric<T(!new)>(x: seq<T>, y: seq<T>, lt: (T, T) -> bool)
    requires StrictTotal(lt)
    requires LexLe(x, y, lt) && LexLe(y, x, lt)
    ensures x == y
  {
    if x != [] && y != [] {
      LexAntisymmetric(x[1..], y[1..], lt);
      assert x == [x[0]] + x[1..];
      assert y == [y[0]] + y[1..];
    }
  }

  /** Places `x` in front of the first element it does not follow. */
  function Insert<T>(x: T, s: seq<T>, le: (T, T) -> bool): (r: seq<T>)
    ensures multiset(r) == multiset(s) + multiset{x}
    ensures |r| == |s| + 1
  {
    if s == [] then [x]
    else if le(x, s[0]) then [x] + s
    else
      assert s == [s[0]] + s[1..];
      [s[0]] + Insert(x, s[1..], le)
  }

  /**
   * The stable sort: the head of the input goes before every later element it
   * does not strictly follow, so equal elements keep their input order.
   */
  function Sort<T>(s: seq<T>, le: (T, T) -> bool): (r: seq<T>)
    ensures multiset(r) == multiset(s)
    ensures |r| == |s|
  {
    if s == [] then []
    else
      assert s == [s[0]] + s[1..];
      Insert(s[0], Sort(s[1..], le), le)
  }

  lemma {:induction false} InsertSorted<T(!new)>(x: T, s: seq<T>, le: (T, T) -> bool)
    requires TotalPreorder(le)
    requires SortedBy(s, le)
    ensures SortedBy(Insert(x, s, le), le)
  {
    if s != [] && !le(x, s[0]) {
      var rest := Insert(x, s[1..], le);
      InsertSorted(x, s[1..], le);
      forall e | e in rest ensures le(s[0], e) {
        assert e in multiset(rest);
        if e != x {
          assert e in multiset(s[1..]);
          var k :| 0 <= k < |s[1..]| && s[1..][k] == e;
          assert s[k + 1] == e;
        }
      }
      var r := [s[0]] + rest;
      forall i, j | 0 <= i < j < |r| ensures le(r[i], r[j]) {
        if i == 0 {
          assert r[j] == rest[j - 1];
          assert rest[j - 1] in rest;
        } else {
          assert r[i] == rest[i - 1] && r[j] == rest[j - 1];
        }
      }
    }
  }

  /** The result of `Sort` is sorted. */
  lemma {:induction false} SortSorted<T(!new)>(s: seq<T>, le: (T, T) -> bool)
    requires TotalPreorder(le)
    ensures SortedBy(Sort(s, le), le)
  {
    if s != [] {
      SortSorted(s[1..], le);
      InsertSorted(s[0], Sort(s[1..], le), le);
    }
  }

  /** Sorting a sorted sequence changes nothing (a consequence of stability). */
  lemma {:induction false} SortOfSorted<T>(s: seq<T>, le: (T, T) -> bool)
    requires SortedBy(s, le)
    ensures Sort(s, le) == s
  {
    if s != [] {
      assert SortedBy(s[1..], le) by {
        forall i, j | 0 <= i < j < |s[1..]| ensures le(s[1..][i], s[1..][j]) {
          assert s[1..][i] == s[i + 1] && s[1..][j] == s[j + 1];
        }
      }
      SortOfSorted(s[1..], le);
      if |s| > 1 {
        assert le(s[0], s[1]);
        assert s[1..][0] == s[1];
      }
      assert s == [s[0]] + s[1..];
    }
  }

  /** Sorting twice is sorting once. */
  lemma SortIdempotent<T(!new)>(s: seq<T>, le: (T, T) -> bool)
    requires TotalPreorder(le)
    ensures Sort(Sort(s, le), le) == Sort(s, le)
  {
    SortSorted(s, le);
    SortOfSorted(Sort(s, le), le);
  }

  lemma {:induction false} InsertUniqueBy<T, K>(x: T, s: seq<T>, le: (T, T) -> bool, key: T -> K)
    requires UniqueBy(s, key)
    requires forall e :: e in s ==> key(e) != key(x)
    ensures UniqueBy(Insert(x, s, le), key)
  {
    if s != [] && !le(x, s[0]) {
      var rest := Insert(x, s[1..], le);
      UniqueByTail(s, key);
      assert forall e :: e in s[1..] ==> e in s;
      InsertUniqueBy(x, s[1..], le, key);
      forall e | e in rest ensures key(e) != key(s[0]) {
        assert e in multiset(rest);
        if e != x {
          assert e in multiset(s[1..]);
          var k :| 0 <= k < |s[1..]| && s[1..][k] == e;
          assert s[k + 1] == e;
        }
      }
      UniqueByCons(s[0], rest, key);
    } else if s != [] {
      UniqueByCons(x, s, key);
    }
  }

  /** Dropping the head keeps keys unique. */
  lemma UniqueByTail<T, K>(s: seq<T>, key: T -> K)
    requires s != [] && UniqueBy(s, key)
    ensures UniqueBy(s[1..], key)
  {
    forall i, j | 0 <= i < j < |s[1..]| ensures key(s[1..][i]) != key(s[1..][j]) {
      assert s[1..][i] == s[i + 1] && s[1..][j] == s[j + 1];
    }
  }

  /** A head whose key no element of the tail has keeps keys unique. */
  lemma UniqueByCons<T, K>(h: T, s: seq<T>, key: T -> K)
    requires UniqueBy(s, key)
    requires forall e :: e in s ==> key(e) != key(h)
    ensures UniqueBy([h] + s, key)
  {
    var r := [h] + s;
    forall i, j | 0 <= i < j < |r| ensures key(r[i]) != key(r[j]) {
      if i == 0 {
        assert r[j] == s[j - 1];
        assert s[j - 1] in s;
      } else {
        assert r[i] == s[i - 1] && r[j] == s[j - 1];
      }
    }
  }

  /** Sorting keeps keys unique. */
  lemma {:induction false} SortUniqueBy<T, K>(s: seq<T>, le: (T, T) -> bool, key: T -> K)
    requires UniqueBy(s, key)
    ensures UniqueBy(Sort(s, le), key)
  {
    if s != [] {
      assert UniqueBy(s[1..], key) by {
        forall i, j | 0 <= i < j < |s[1..]| ensures key(s[1..][i]) != key(s[1..][j]) {
          assert s[1..][i] == s[i + 1] && s[1..][j] == s[j + 1];
        }
      }
      SortUniqueBy(s[1..], le, key);
      var sorted := Sort(s[1..], le);
      forall e | e in sorted ensures key(e) != key(s[0]) {
        assert e in multiset(sorted);
        assert e in multiset(s[1..]);
        var k :| 0 <= k < |s[1..]| && s[1..][k] == e;
        assert s[k + 1] == e;
      }
      InsertUniqueBy(s[0], sorted, le, key);
    }
  }

  /** An element is in the sorted sequence exactly when it is in the input. */
  lemma SortMembers<T>(s: seq<T>, le: (T, T) -> bool, x: T)
    ensures x in Sort(s, le) <==> x in s
  {
    assert x in Sort(s, le) <==> x in multiset(Sort(s, le));
    assert x in s <==> x in multiset(s);
  }
}
