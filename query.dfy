/**
 * The two things the code base asks of SQLite besides lookups: a WHERE
 * filter keeping the rows that satisfy a condition, in table order, and an
 * ORDER BY producing the kept rows sorted by a key. A sort key is a
 * sequence of integers compared lexicographically, so that a compound key
 * like "points DESC, joined_at ASC" is [-points, joinedAt] and a text
 * column contributes its character codes. SQL promises nothing about the
 * order of rows with equal keys; neither does SortBy's contract.
 */
module Query {
  import opened Dates

  // ---------------------------------------------------------------------
  // WHERE

  function Filter<T>(s: seq<T>, p: T -> bool): (r: seq<T>)
    ensures |r| <= |s|
    ensures forall i :: 0 <= i < |r| ==> r[i] in s && p(r[i])
    ensures forall i :: 0 <= i < |s| && p(s[i]) ==> s[i] in r
  {
    if s == [] then [] else (if p(s[0]) then [s[0]] else []) + Filter(s[1..], p)
  }

  /** SELECT COUNT(*) ... WHERE p. */
  function Count<T>(s: seq<T>, p: T -> bool): (n: nat)
    ensures n <= |s|
  {
    if s == [] then 0 else (if p(s[0]) then 1 else 0) + Count(s[1..], p)
  }

  /** Some row satisfies p exactly when the count is positive. */
  lemma {:induction false} CountPositive<T>(s: seq<T>, p: T -> bool)
    ensures Count(s, p) > 0 <==> exists i :: 0 <= i < |s| && p(s[i])
  {
    if s != [] {
      CountPositive(s[1..], p);
      if !p(s[0]) && exists i :: 0 <= i < |s| && p(s[i]) {
        var i :| 0 <= i < |s| && p(s[i]);
        assert p(s[1..][i - 1]);
      }
      if p(s[0]) {
        assert Count(s, p) > 0;
      }
      if Count(s[1..], p) > 0 {
        var i :| 0 <= i < |s[1..]| && p(s[1..][i]);
        assert p(s[i + 1]);
      }
    }
  }

  lemma {:induction false} CountFilter<T>(s: seq<T>, p: T -> bool)
    ensures Count(s, p) == |Filter(s, p)|
  {
    if s != [] {
      CountFilter(s[1..], p);
    }
  }

  /** Rows that satisfy one of two exclusive conditions are counted once each. */
  lemma {:induction false} CountSplit<T>(s: seq<T>, p: T -> bool, q: T -> bool, pq: T -> bool)
    requires forall x :: pq(x) == (p(x) || q(x))
    requires forall x :: !(p(x) && q(x))
    ensures Count(s, pq) == Count(s, p) + Count(s, q)
  {
    if s != [] {
      CountSplit(s[1..], p, q, pq);
    }
  }

  /** A stronger condition keeps no more rows. */
  lemma {:induction false} CountMonotone<T>(s: seq<T>, p: T -> bool, q: T -> bool)
    requires forall x :: p(x) ==> q(x)
    ensures Count(s, p) <= Count(s, q)
  {
    if s != [] {
      CountMonotone(s[1..], p, q);
    }
  }

  lemma {:induction false} CountAppend<T>(s: seq<T>, t: seq<T>, p: T -> bool)
    ensures Count(s + t, p) == Count(s, p) + Count(t, p)
  {
    if s != [] {
      assert (s + t)[0] == s[0] && (s + t)[1..] == s[1..] + t;
      CountAppend(s[1..], t, p);
    } else {
      assert s + t == t;
    }
  }

  /** A condition every row satisfies keeps the table as it is. */
  lemma {:induction false} FilterAll<T>(s: seq<T>, p: T -> bool)
    requires forall i :: 0 <= i < |s| ==> p(s[i])
    ensures Filter(s, p) == s
  {
    if s != [] {
      FilterAll(s[1..], p);
    }
  }

  /** A condition no row satisfies keeps nothing. */
  lemma {:induction false} FilterNone<T>(s: seq<T>, p: T -> bool)
    requires forall i :: 0 <= i < |s| ==> !p(s[i])
    ensures Filter(s, p) == []
  {
    if s != [] {
      assert forall i :: 0 <= i < |s[1..]| ==> s[1..][i] == s[i + 1];
      FilterNone(s[1..], p);
    }
  }

  lemma {:induction false} FilterAppend<T>(s: seq<T>, t: seq<T>, p: T -> bool)
    ensures Filter(s + t, p) == Filter(s, p) + Filter(t, p)
  {
    if s != [] {
      assert (s + t)[0] == s[0] && (s + t)[1..] == s[1..] + t;
      FilterAppend(s[1..], t, p);
    } else {
      assert s + t == t;
    }
  }

  // ---------------------------------------------------------------------
  // ORDER BY

  /** Strict lexicographic order on keys; a proper prefix comes first. */
  predicate KeyLess(a: seq<int>, b: seq<int>)
  {
    if a == [] then b != []
    else if b == [] then false
    else a[0] < b[0] || (a[0] == b[0] && KeyLess(a[1..], b[1..]))
  }

  lemma {:induction false} KeyIrreflexive(a: seq<int>)
    ensures !KeyLess(a, a)
  {
    if a != [] {
      KeyIrreflexive(a[1..]);
    }
  }

  lemma {:induction false} KeyTransitive(a: seq<int>, b: seq<int>, c: seq<int>)
    requires KeyLess(a, b) && KeyLess(b, c)
    ensures KeyLess(a, c)
  {
    if a != [] && a[0] == b[0] && b[0] == c[0] {
      KeyTransitive(a[1..], b[1..], c[1..]);
    }
  }

  lemma {:induction false} KeyTotal(a: seq<int>, b: seq<int>)
    ensures a == b || KeyLess(a, b) || KeyLess(b, a)
  {
    if a != [] && b != [] && a[0] == b[0] {
      KeyTotal(a[1..], b[1..]);
      if a[1..] == b[1..] {
        assert a == [a[0]] + a[1..] && b == [b[0]] + b[1..];
      }
    }
  }

  /** Not-greater is transitive: the order is total. */
  lemma KeyNotLessTransitive(a: seq<int>, b: seq<int>, c: seq<int>)
    requires !KeyLess(b, a) && !KeyLess(c, b)
    ensures !KeyLess(c, a)
  {
    KeyTotal(a, b);
    KeyTotal(b, c);
    if KeyLess(c, a) {
      if KeyLess(a, b) {
        KeyTransitive(c, a, b);
      }
    }
  }

  /** Keys never decrease along s. */
  predicate SortedBy<T>(s: seq<T>, key: T -> seq<int>)
  {
    forall i, j :: 0 <= i < j < |s| ==> !KeyLess(key(s[j]), key(s[i]))
  }

  function Insert<T>(x: T, s: seq<T>, key: T -> seq<int>): (r: seq<T>)
    requires SortedBy(s, key)
    ensures multiset(r) == multiset(s) + multiset{x}
    ensures SortedBy(r, key)
  {
    if s == [] then [x]
    else if KeyLess(key(s[0]), key(x)) then
      var t := Insert(x, s[1..], key);
      assert s == [s[0]] + s[1..];
      InsertHead(x, s, t, key);
      [s[0]] + t
    else
      InsertFront(x, s, key);
      [x] + s
  }

  lemma InsertFront<T>(x: T, s: seq<T>, key: T -> seq<int>)
    requires SortedBy(s, key) && s != [] && !KeyLess(key(s[0]), key(x))
    ensures SortedBy([x] + s, key)
  {
    forall j | 0 <= j < |s|
      ensures !KeyLess(key(s[j]), key(x))
    {
      if j == 0 {
        KeyIrreflexive(key(s[0]));
      }
      KeyNotLessTransitive(key(x), key(s[0]), key(s[j]));
    }
  }

  lemma InsertHead<T>(x: T, s: seq<T>, t: seq<T>, key: T -> seq<int>)
    requires SortedBy(s, key) && s != [] && KeyLess(key(s[0]), key(x))
    requires SortedBy(t, key) && multiset(t) == multiset(s[1..]) + multiset{x}
    ensures SortedBy([s[0]] + t, key)
  {
    forall j | 0 <= j < |t|
      ensures !KeyLess(key(t[j]), key(s[0]))
    {
      assert t[j] in multiset(t);
      if t[j] == x {
        KeyIrreflexive(key(x));
        KeyTotal(key(x), key(s[0]));
        if KeyLess(key(x), key(s[0])) {
          KeyTransitive(key(x), key(s[0]), key(x));
        }
      } else {
        assert t[j] in multiset(s[1..]);
        var k :| 0 <= k < |s[1..]| && s[1..][k] == t[j];
        assert s[k + 1] == t[j];
      }
    }
  }

  /** ORDER BY key: a sorted permutation of the rows. */
  function SortBy<T>(s: seq<T>, key: T -> seq<int>): (r: seq<T>)
    ensures multiset(r) == multiset(s)
    ensures |r| == |s|
    ensures SortedBy(r, key)
  {
    if s == [] then []
    else
      var t := SortBy(s[1..], key);
      assert s == [s[0]] + s[1..];
      assert |multiset(t)| == |s| - 1;
      Insert(s[0], t, key)
  }

  lemma InMultiset<T>(x: T, s: seq<T>, t: seq<T>)
    requires multiset(s) == multiset(t)
    ensures x in s <==> x in t
  {
    assert x in s <==> x in multiset(s);
    assert x in t <==> x in multiset(t);
  }

  /**
   * SELECT ... WHERE p ORDER BY key: a sorted permutation of exactly the
   * rows that satisfy p.
   */
  function Select<T>(s: seq<T>, p: T -> bool, key: T -> seq<int>): (r: seq<T>)
    ensures forall i :: 0 <= i < |r| ==> r[i] in s && p(r[i])
    ensures forall i :: 0 <= i < |s| && p(s[i]) ==> s[i] in r
    ensures |r| == Count(s, p)
    ensures SortedBy(r, key)
  {
    var kept := Filter(s, p);
    var r := SortBy(kept, key);
    SelectMembers(s, p, kept, r);
    CountFilter(s, p);
    r
  }

  lemma SelectMembers<T>(s: seq<T>, p: T -> bool, kept: seq<T>, r: seq<T>)
    requires kept == Filter(s, p) && multiset(r) == multiset(kept)
    ensures forall i :: 0 <= i < |r| ==> r[i] in s && p(r[i])
    ensures forall i :: 0 <= i < |s| && p(s[i]) ==> s[i] in r
  {
    forall i | 0 <= i < |r|
      ensures r[i] in s && p(r[i])
    {
      InMultiset(r[i], r, kept);
      var k :| 0 <= k < |kept| && kept[k] == r[i];
    }
    forall i | 0 <= i < |s| && p(s[i])
      ensures s[i] in r
    {
      InMultiset(s[i], r, kept);
    }
  }

  /** No value twice (a UNIQUE column, or a Vec kept free of repeats). */
  predicate Distinct<T(==)>(s: seq<T>)
  {
    forall i, j :: 0 <= i < j < |s| ==> s[i] != s[j]
  }

  lemma {:induction false} DistinctCount<T>(s: seq<T>, x: T)
    requires Distinct(s)
    ensures multiset(s)[x] <= 1
  {
    if s != [] {
      assert s == [s[0]] + s[1..];
      assert Distinct(s[1..]) by {
        forall i, j | 0 <= i < j < |s[1..]|
          ensures s[1..][i] != s[1..][j]
        {
          assert s[1..][i] == s[i + 1] && s[1..][j] == s[j + 1];
        }
      }
      DistinctCount(s[1..], x);
      if s[0] == x {
        assert x !in s[1..] by {
          forall k | 0 <= k < |s[1..]|
            ensures s[1..][k] != x
          {
            assert s[1..][k] == s[k + 1];
          }
        }
      }
    }
  }

  /** A permutation of a sequence without repeats has none either. */
  lemma DistinctOfMultiset<T>(s: seq<T>, t: seq<T>)
    requires Distinct(s) && multiset(t) == multiset(s)
    ensures Distinct(t)
  {
    forall i, j | 0 <= i < j < |t|
      ensures t[i] != t[j]
    {
      if t[i] == t[j] {
        assert multiset(t)[t[i]] >= 2 by {
          assert t == t[..i] + [t[i]] + t[i + 1..j] + [t[j]] + t[j + 1..];
        }
        DistinctCount(s, t[i]);
      }
    }
  }

  /** A WHERE keeps the order and the uniqueness of what it filters. */
  lemma FilterKeeps<T>(s: seq<T>, p: T -> bool, key: T -> seq<int>)
    ensures SortedBy(s, key) ==> SortedBy(Filter(s, p), key)
    ensures Distinct(s) ==> Distinct(Filter(s, p))
  {
    if SortedBy(s, key) {
      FilterKeepsSorted(s, p, key);
    }
    if Distinct(s) {
      FilterKeepsDistinct(s, p);
    }
  }

  lemma {:induction false} FilterKeepsSorted<T>(s: seq<T>, p: T -> bool, key: T -> seq<int>)
    requires SortedBy(s, key)
    ensures SortedBy(Filter(s, p), key)
  {
    if s != [] {
      var tail := s[1..];
      assert SortedBy(tail, key) by {
        forall i, j | 0 <= i < j < |tail|
          ensures !KeyLess(key(tail[j]), key(tail[i]))
        {
          assert tail[i] == s[i + 1] && tail[j] == s[j + 1];
        }
      }
      FilterKeepsSorted(tail, p, key);
      var rest := Filter(tail, p);
      forall j | 0 <= j < |rest|
        ensures !KeyLess(key(rest[j]), key(s[0]))
      {
        var k :| 0 <= k < |tail| && tail[k] == rest[j];
        assert s[k + 1] == rest[j];
      }
    }
  }

  lemma {:induction false} FilterKeepsDistinct<T>(s: seq<T>, p: T -> bool)
    requires Distinct(s)
    ensures Distinct(Filter(s, p))
  {
    if s != [] {
      var tail := s[1..];
      assert Distinct(tail) by {
        forall i, j | 0 <= i < j < |tail|
          ensures tail[i] != tail[j]
        {
          assert tail[i] == s[i + 1] && tail[j] == s[j + 1];
        }
      }
      FilterKeepsDistinct(tail, p);
      var rest := Filter(tail, p);
      forall j | 0 <= j < |rest|
        ensures rest[j] != s[0]
      {
        var k :| 0 <= k < |tail| && tail[k] == rest[j];
        assert s[k + 1] == rest[j];
      }
    }
  }

  /** DELETE of the row at position i. */
  function RemoveAt<T>(s: seq<T>, i: nat): (r: seq<T>)
    requires i < |s|
    ensures |r| == |s| - 1
    ensures forall k :: 0 <= k < i ==> r[k] == s[k]
    ensures forall k :: i <= k < |r| ==> r[k] == s[k + 1]
  {
    s[..i] + s[i + 1..]
  }

  /** The first n elements of s, or all of s when it is shorter (SQL LIMIT). */
  function Limit<T>(s: seq<T>, n: nat): (r: seq<T>)
    ensures |r| == if |s| < n then |s| else n
    ensures r == s[..|r|]
  {
    if |s| <= n then s else s[..n]
  }

  /** SQLite's LIMIT n: the first n rows; a negative n puts no bound on them. */
  function SqlLimit<T>(s: seq<T>, n: int): (r: seq<T>)
    ensures |r| == if n < 0 || |s| < n then |s| else n
    ensures r == s[..|r|]
  {
    if n < 0 then s else Limit(s, n)
  }

  /** A text column as sort key: its characters' code points (binary collation). */
  function IntsOfString(s: string): (r: seq<int>)
    ensures |r| == |s|
    ensures forall i :: 0 <= i < |s| ==> r[i] == s[i] as int
  {
    if s == [] then [] else [s[0] as int] + IntsOfString(s[1..])
  }

  /**
   * A DATE column as sort key. Dates are stored as ISO-8601 text, whose
   * comparison is year, then month, then day.
   */
  function DateKey(d: Date): (k: seq<int>)
    ensures |k| == 3
  {
    [d.year, d.month, d.day]
  }

  /** The same key for ORDER BY ... DESC. */
  function DateKeyDesc(d: Date): (k: seq<int>)
    ensures |k| == 3
  {
    [-d.year, -d.month, -d.day]
  }

  lemma DateKeyOrder(a: Date, b: Date)
    ensures KeyLess(DateKey(a), DateKey(b)) <==> LexLess(a, b)
    ensures KeyLess(DateKeyDesc(a), DateKeyDesc(b)) <==> LexLess(b, a)
  {
    KeyOfThree(a.year, a.month, a.day, b.year, b.month, b.day);
    KeyOfThree(-a.year, -a.month, -a.day, -b.year, -b.month, -b.day);
  }

  lemma KeyOfThree(a0: int, a1: int, a2: int, b0: int, b1: int, b2: int)
    ensures KeyLess([a0, a1, a2], [b0, b1, b2])
      <==> a0 < b0 || (a0 == b0 && (a1 < b1 || (a1 == b1 && a2 < b2)))
  {
    assert [a0, a1, a2][1..] == [a1, a2] && [b0, b1, b2][1..] == [b1, b2];
    assert [a1, a2][1..] == [a2] && [b1, b2][1..] == [b2];
    assert [a2][1..] == [] && [b2][1..] == [];
    assert KeyLess([a2], [b2]) <==> a2 < b2;
    assert KeyLess([a1, a2], [b1, b2]) <==> a1 < b1 || (a1 == b1 && a2 < b2);
  }

  lemma KeyOfFour(a0: int, a1: int, a2: int, a3: int, b0: int, b1: int, b2: int, b3: int)
    ensures KeyLess([a0, a1, a2, a3], [b0, b1, b2, b3])
      <==> a0 < b0 || (a0 == b0 && (a1 < b1 || (a1 == b1 && (a2 < b2 || (a2 == b2 && a3 < b3)))))
  {
    assert [a0, a1, a2, a3][1..] == [a1, a2, a3] && [b0, b1, b2, b3][1..] == [b1, b2, b3];
    KeyOfThree(a1, a2, a3, b1, b2, b3);
  }
}
