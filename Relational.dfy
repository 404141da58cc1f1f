/** Sequence operations in which the SQL queries of the server are stated:
    WHERE as an order-preserving filter, ORDER BY as a sorted permutation,
    LIMIT with SQLite's rule that a negative limit means "no limit", and
    PRIMARY KEY uniqueness of a table's key column. */
module Relational {

  datatype Option<T> = None | Some(value: T)
  {
    function GetOr(default: T): T
    {
      match this
      case Some(v) => v
      case None => default
    }
  }

  function Min(a: int, b: int): int
  {
    if a <= b then a else b
  }

  // ---------------------------------------------------------------------------
  // WHERE: filtering keeps the order of the rows.

  function Filter<T(==)>(s: seq<T>, p: T -> bool): (r: seq<T>)
    ensures |r| <= |s|
    ensures forall x | x in r :: x in s && p(x)
    ensures forall x | x in s && p(x) :: x in r
    ensures multiset(r) <= multiset(s)
  {
    if s == [] then []
    else
      assert s == [s[0]] + s[1..];
      (if p(s[0]) then [s[0]] else []) + Filter(s[1..], p)
  }

  lemma FilterSingle<T>(x: T, p: T -> bool)
    ensures Filter([x], p) == if p(x) then [x] else []
  {
    assert [x][1..] == [];
  }

  lemma {:induction false} FilterAppend<T>(a: seq<T>, b: seq<T>, p: T -> bool)
    ensures Filter(a + b, p) == Filter(a, p) + Filter(b, p)
  {
    if a == [] {
      assert a + b == b;
    } else {
      assert (a + b)[1..] == a[1..] + b;
      FilterAppend(a[1..], b, p);
    }
  }

  lemma {:induction false} FilterAll<T>(s: seq<T>, p: T -> bool)
    requires forall x :: x in s ==> p(x)
    ensures Filter(s, p) == s
  {
    if s != [] {
      FilterAll(s[1..], p);
    }
  }

  lemma {:induction false} FilterNone<T>(s: seq<T>, p: T -> bool)
    requires forall x :: x in s ==> !p(x)
    ensures Filter(s, p) == []
  {
    if s != [] {
      FilterNone(s[1..], p);
    }
  }

  /** Two sequences whose elements agree on p position by position keep equally many. */
  lemma {:induction false} FilterCountPointwise<T>(s: seq<T>, s': seq<T>, p: T -> bool)
    requires |s| == |s'|
    requires forall i | 0 <= i < |s| :: p(s[i]) == p(s'[i])
    ensures |Filter(s, p)| == |Filter(s', p)|
  {
    if s != [] {
      FilterCountPointwise(s[1..], s'[1..], p);
    }
  }

  /** Filtering by the disjunction of two disjoint conditions keeps as many rows
      as the two filters together. */
  lemma {:induction false} FilterDisjointCount<T>(s: seq<T>, p: T -> bool, q: T -> bool, pq: T -> bool)
    requires forall x :: x in s ==> pq(x) == (p(x) || q(x))
    requires forall x :: x in s ==> !(p(x) && q(x))
    ensures |Filter(s, pq)| == |Filter(s, p)| + |Filter(s, q)|
  {
    if s != [] {
      FilterDisjointCount(s[1..], p, q, pq);
    }
  }

  /** Two filters that agree on every element of s select the same rows. */
  lemma {:induction false} FilterCongruent<T>(s: seq<T>, p: T -> bool, q: T -> bool)
    requires forall x :: x in s ==> p(x) == q(x)
    ensures Filter(s, p) == Filter(s, q)
  {
    if s != [] {
      FilterCongruent(s[1..], p, q);
    }
  }

  // ---------------------------------------------------------------------------
  // Primary keys.

  function Not<T>(p: T -> bool): T -> bool
  {
    x => !p(x)
  }

  function KeySet<T(==), K>(s: seq<T>, key: T -> K): set<K>
  {
    set x | x in s :: key(x)
  }

  predicate UniqueBy<T(==), K(==)>(s: seq<T>, key: T -> K)
  {
    forall i, j | 0 <= i < j < |s| :: key(s[i]) != key(s[j])
  }

  lemma KeySetAppend<T, K>(s: seq<T>, x: T, key: T -> K)
    ensures KeySet(s + [x], key) == KeySet(s, key) + {key(x)}
  {
    assert forall y :: y in s + [x] <==> y in s || y == x;
  }

  lemma KeySetConcat<T, K>(a: seq<T>, b: seq<T>, key: T -> K)
    ensures KeySet(a + b, key) == KeySet(a, key) + KeySet(b, key)
  {
    assert forall y :: y in a + b <==> y in a || y in b;
  }

  /** Appending a row keeps the keys unique exactly when its key is new. */
  lemma AppendUnique<T, K>(s: seq<T>, x: T, key: T -> K)
    requires UniqueBy(s, key)
    ensures UniqueBy(s + [x], key) <==> key(x) !in KeySet(s, key)
  {
    var s' := s + [x];
    if key(x) !in KeySet(s, key) {
      forall i, j | 0 <= i < j < |s'| ensures key(s'[i]) != key(s'[j]) {
        if j == |s| {
          assert s'[i] == s[i] && s[i] in s;
        } else {
          assert s'[i] == s[i] && s'[j] == s[j];
        }
      }
    } else {
      var y :| y in s && key(y) == key(x);
      var i :| 0 <= i < |s| && s[i] == y;
      assert s'[i] == y && s'[|s|] == x;
    }
  }

  /** A row-by-row update that keeps each row's key keeps the key set and uniqueness. */
  lemma SameKeys<T, K>(s: seq<T>, s': seq<T>, key: T -> K)
    requires |s| == |s'|
    requires forall i | 0 <= i < |s| :: key(s[i]) == key(s'[i])
    ensures KeySet(s, key) == KeySet(s', key)
    ensures UniqueBy(s, key) <==> UniqueBy(s', key)
  {
    forall k | k in KeySet(s, key) ensures k in KeySet(s', key) {
      var x :| x in s && key(x) == k;
      var i :| 0 <= i < |s| && s[i] == x;
      assert s'[i] in s';
    }
    forall k | k in KeySet(s', key) ensures k in KeySet(s, key) {
      var x :| x in s' && key(x) == k;
      var i :| 0 <= i < |s'| && s'[i] == x;
      assert s[i] in s;
    }
  }

  lemma {:induction false} FilterKeepsUnique<T, K>(s: seq<T>, p: T -> bool, key: T -> K)
    requires UniqueBy(s, key)
    ensures UniqueBy(Filter(s, p), key)
  {
    if s != [] {
      var rest := Filter(s[1..], p);
      assert UniqueBy(s[1..], key) by {
        forall i, j | 0 <= i < j < |s[1..]| ensures key(s[1..][i]) != key(s[1..][j]) {
          assert s[1..][i] == s[i + 1] && s[1..][j] == s[j + 1];
        }
      }
      FilterKeepsUnique(s[1..], p, key);
      if p(s[0]) {
        var r := [s[0]] + rest;
        forall i, j | 0 <= i < j < |r| ensures key(r[i]) != key(r[j]) {
          if i == 0 {
            assert r[j] == rest[j - 1] && rest[j - 1] in rest;
            var k :| 0 <= k < |s[1..]| && s[1..][k] == r[j];
            assert s[k + 1] == r[j];
          } else {
            assert r[i] == rest[i - 1] && r[j] == rest[j - 1];
          }
        }
      }
    }
  }

  /** With unique keys, the number of distinct keys is the number of rows. */
  lemma {:induction false} UniqueKeyCount<T, K>(s: seq<T>, key: T -> K)
    requires UniqueBy(s, key)
    ensures |KeySet(s, key)| == |s|
  {
    if s != [] {
      var init := s[..|s| - 1];
      var last := s[|s| - 1];
      assert s == init + [last];
      assert UniqueBy(init, key) by {
        forall i, j | 0 <= i < j < |init| ensures key(init[i]) != key(init[j]) {
          assert init[i] == s[i] && init[j] == s[j];
        }
      }
      UniqueKeyCount(init, key);
      KeySetAppend(init, last, key);
      assert key(last) !in KeySet(init, key);
    }
  }

  // ---------------------------------------------------------------------------
  // ORDER BY: sorting by an integer key.

  predicate SortedAsc<T(==)>(s: seq<T>, key: T -> int)
  {
    forall i, j | 0 <= i < j < |s| :: key(s[i]) <= key(s[j])
  }

  predicate SortedDesc<T(==)>(s: seq<T>, key: T -> int)
  {
    forall i, j | 0 <= i < j < |s| :: key(s[i]) >= key(s[j])
  }

  function InsertAsc<T(==)>(x: T, s: seq<T>, key: T -> int): (r: seq<T>)
    requires SortedAsc(s, key)
    ensures SortedAsc(r, key)
    ensures multiset(r) == multiset(s) + multiset{x}
    ensures |r| == |s| + 1
    ensures forall y | y in r :: y == x || y in s
  {
    if s == [] then [x]
    else if key(x) <= key(s[0]) then [x] + s
    else
      assert s == [s[0]] + s[1..];
      var tail := InsertAsc(x, s[1..], key);
      forall y | y in tail ensures key(s[0]) <= key(y) {
        if y != x {
          var j :| 0 <= j < |s[1..]| && s[1..][j] == y;
          assert s[j + 1] == y;
        }
      }
      ConsSorted(s[0], tail, key);
      [s[0]] + tail
  }

  lemma ConsSorted<T>(h: T, tail: seq<T>, key: T -> int)
    requires SortedAsc(tail, key)
    requires forall y | y in tail :: key(h) <= key(y)
    ensures SortedAsc([h] + tail, key)
  {
    var r := [h] + tail;
    forall i, j | 0 <= i < j < |r| ensures key(r[i]) <= key(r[j]) {
      assert r[j] == tail[j - 1];
      if i > 0 {
        assert r[i] == tail[i - 1];
      } else {
        assert tail[j - 1] in tail;
      }
    }
  }

  /** Insertion sort: a sorted permutation of s. */
  function SortAsc<T(==)>(s: seq<T>, key: T -> int): (r: seq<T>)
    ensures SortedAsc(r, key)
    ensures multiset(r) == multiset(s)
    ensures |r| == |s|
  {
    if s == [] then []
    else
      assert s == [s[0]] + s[1..];
      InsertAsc(s[0], SortAsc(s[1..], key), key)
  }

  function Reverse<T(==)>(s: seq<T>): (r: seq<T>)
    ensures |r| == |s|
    ensures forall i | 0 <= i < |s| :: r[i] == s[|s| - 1 - i]
    ensures multiset(r) == multiset(s)
  {
    if s == [] then []
    else
      assert s == [s[0]] + s[1..];
      Reverse(s[1..]) + [s[0]]
  }

  lemma ReverseAscIsDesc<T>(s: seq<T>, key: T -> int)
    requires SortedAsc(s, key)
    ensures SortedDesc(Reverse(s), key)
  {
  }

  lemma ReverseDescIsAsc<T>(s: seq<T>, key: T -> int)
    requires SortedDesc(s, key)
    ensures SortedAsc(Reverse(s), key)
  {
  }

  function SortDesc<T(==)>(s: seq<T>, key: T -> int): (r: seq<T>)
    ensures SortedDesc(r, key)
    ensures multiset(r) == multiset(s)
    ensures |r| == |s|
  {
    var asc := SortAsc(s, key);
    ReverseAscIsDesc(asc, key);
    Reverse(asc)
  }

  /** Two permutations of each other have the same members. */
  lemma SameMembers<T>(a: seq<T>, b: seq<T>)
    requires multiset(a) == multiset(b)
    ensures forall x | x in a :: x in b
    ensures forall x | x in b :: x in a
  {
    forall x | x in a ensures x in b {
      assert x in multiset(a);
    }
    forall x | x in b ensures x in a {
      assert x in multiset(b);
    }
  }

  /** The head of a descending sequence has the largest key. */
  lemma HeadIsLargest<T>(s: seq<T>, key: T -> int)
    requires SortedDesc(s, key) && |s| > 0
    ensures forall x | x in s :: key(x) <= key(s[0])
  {
    forall x | x in s ensures key(x) <= key(s[0]) {
      var k :| 0 <= k < |s| && s[k] == x;
    }
  }

  // ---------------------------------------------------------------------------
  // LIMIT, as SQLite applies it: a negative limit means no upper bound.

  function SqlLimit<T(==)>(s: seq<T>, n: int): (r: seq<T>)
    ensures r <= s
    ensures |r| == if n < 0 then |s| else Min(n, |s|)
  {
    if n < 0 || n >= |s| then s else s[..n]
  }

  /** Cutting a descending sequence keeps the rows with the largest keys. */
  lemma LimitKeepsLargest<T>(s: seq<T>, n: int, key: T -> int)
    requires SortedDesc(s, key)
    ensures multiset(SqlLimit(s, n)) <= multiset(s)
    ensures forall x, y | x in SqlLimit(s, n) && y in multiset(s) - multiset(SqlLimit(s, n)) ::
              key(x) >= key(y)
  {
    var r := SqlLimit(s, n);
    var k := |r|;
    assert s == r + s[k..];
    assert multiset(s) - multiset(r) == multiset(s[k..]);
    forall x, y | x in r && y in multiset(s) - multiset(r) ensures key(x) >= key(y) {
      assert y in s[k..];
      var i :| 0 <= i < k && r[i] == x;
      var j :| 0 <= j < |s[k..]| && s[k..][j] == y;
      assert s[i] == x && s[k + j] == y;
    }
  }

  /** The `n` rows with the largest keys (all rows for a negative `n`), in
      ascending key order: ORDER BY key DESC LIMIT n, then reversed. */
  function NewestAscending<T(==)>(s: seq<T>, n: int, key: T -> int): (r: seq<T>)
    ensures SortedAsc(r, key)
    ensures |r| == if n < 0 then |s| else Min(n, |s|)
    ensures multiset(r) <= multiset(s)
    ensures forall x | x in r :: x in s
    ensures forall x, y | x in r && y in multiset(s) - multiset(r) :: key(x) >= key(y)
  {
    var desc := SortDesc(s, key);
    var window := SqlLimit(desc, n);
    LimitKeepsLargest(desc, n, key);
    PrefixSortedDesc(desc, window, key);
    ReverseDescIsAsc(window, key);
    var r := Reverse(window);
    SameMembers(r, window);
    MultisetMembers(r, s);
    r
  }

  lemma PrefixSortedDesc<T>(s: seq<T>, p: seq<T>, key: T -> int)
    requires SortedDesc(s, key) && p <= s
    ensures SortedDesc(p, key)
  {
    forall i, j | 0 <= i < j < |p| ensures key(p[i]) >= key(p[j]) {
      assert p[i] == s[i] && p[j] == s[j];
    }
  }

  lemma MultisetMembers<T>(a: seq<T>, b: seq<T>)
    requires multiset(a) <= multiset(b)
    ensures forall x | x in a :: x in b
  {
    forall x | x in a ensures x in b {
      assert x in multiset(a);
    }
  }
}
