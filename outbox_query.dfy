/** The query shape both outbox stores use: Find(filter).Sort(ascending key).Limit(n).

    - Find keeps the stored order; Sort is stable, so records with equal keys
      stay in stored order (MongoDB leaves that order unspecified; the model
      fixes one choice).
    - Limit(0) means no limit, and Limit(-n) returns at most n documents, as the
      MongoDB server treats a negative limit. */
module OutboxQueries {

  function Filter<T(!new)>(s: seq<T>, p: T -> bool): (r: seq<T>)
    ensures |r| <= |s|
    ensures forall x :: x in r <==> x in s && p(x)
    decreases |s|
  {
    if s == [] then [] else (if p(s[0]) then [s[0]] else []) + Filter(s[1..], p)
  }

  predicate SortedBy<T(!new)>(s: seq<T>, key: T -> int) {
    forall i, j :: 0 <= i < j < |s| ==> key(s[i]) <= key(s[j])
  }

  /** Inserts `x` after every element whose key is not greater than its own. */
  function Insert<T(!new)>(x: T, s: seq<T>, key: T -> int): (r: seq<T>)
    ensures multiset(r) == multiset(s) + multiset{x}
    decreases |s|
  {
    if s == [] || key(x) < key(s[0]) then [x] + s
    else
      assert s == [s[0]] + s[1..];
      [s[0]] + Insert(x, s[1..], key)
  }

  lemma {:induction false} InsertSorted<T(!new)>(x: T, s: seq<T>, key: T -> int)
    requires SortedBy(s, key)
    ensures SortedBy(Insert(x, s, key), key)
    decreases |s|
  {
    if s != [] && key(x) >= key(s[0]) {
      InsertSorted(x, s[1..], key);
      var rest := Insert(x, s[1..], key);
      forall y | y in rest ensures key(s[0]) <= key(y) {
        assert y in multiset(rest);
      }
    }
  }

  /** A stable insertion sort on the key. */
  function SortBy<T(!new)>(s: seq<T>, key: T -> int): (r: seq<T>)
    ensures SortedBy(r, key)
    ensures multiset(r) == multiset(s)
    decreases |s|
  {
    if s == [] then []
    else
      assert s == s[..|s| - 1] + [s[|s| - 1]];
      var sorted := SortBy(s[..|s| - 1], key);
      InsertSorted(s[|s| - 1], sorted, key);
      Insert(s[|s| - 1], sorted, key)
  }

  lemma {:induction false} FilterConcat<T(!new)>(a: seq<T>, b: seq<T>, p: T -> bool)
    ensures Filter(a + b, p) == Filter(a, p) + Filter(b, p)
    decreases |a|
  {
    if a == [] {
      assert a + b == b;
    } else {
      assert (a + b)[0] == a[0] && (a + b)[1..] == a[1..] + b;
      FilterConcat(a[1..], b, p);
    }
  }

  lemma {:induction false} FilterNone<T(!new)>(s: seq<T>, p: T -> bool)
    requires forall y :: y in s ==> !p(y)
    ensures Filter(s, p) == []
    decreases |s|
  {
    if s != [] {
      assert s[0] in s;
      forall y | y in s[1..] ensures !p(y) {
        assert y in s;
      }
      FilterNone(s[1..], p);
    }
  }

  /** Inserting into a sorted sequence places `x` after every element with its
      key: among the elements of one key, `x` comes last. */
  lemma {:induction false} InsertStable<T(!new)>(x: T, t: seq<T>, key: T -> int, p: T -> bool, k: int)
    requires SortedBy(t, key)
    requires forall y :: p(y) == (key(y) == k)
    ensures Filter(Insert(x, t, key), p) == Filter(t, p) + (if p(x) then [x] else [])
    decreases |t|
  {
    if t == [] || key(x) < key(t[0]) {
      var r := [x] + t;
      assert r[0] == x && r[1..] == t;
      if p(x) && t != [] {
        forall y | y in t ensures !p(y) {
          var i :| 0 <= i < |t| && t[i] == y;
          assert key(t[0]) <= key(t[i]);
        }
        FilterNone(t, p);
      }
    } else {
      assert SortedBy(t[1..], key) by {
        forall i, j | 0 <= i < j < |t[1..]| ensures key(t[1..][i]) <= key(t[1..][j]) {
          assert t[1..][i] == t[i + 1] && t[1..][j] == t[j + 1];
        }
      }
      InsertStable(x, t[1..], key, p, k);
      var r := [t[0]] + Insert(x, t[1..], key);
      assert r[0] == t[0] && r[1..] == Insert(x, t[1..], key);
    }
  }

  /** SortBy is stable: the records of any one key come out in the order they
      went in. */
  lemma {:induction false} SortStable<T(!new)>(s: seq<T>, key: T -> int, p: T -> bool, k: int)
    requires forall y :: p(y) == (key(y) == k)
    ensures Filter(SortBy(s, key), p) == Filter(s, p)
    decreases |s|
  {
    if s != [] {
      var front, last := s[..|s| - 1], s[|s| - 1];
      assert s == front + [last];
      assert SortBy(s, key) == Insert(last, SortBy(front, key), key);
      SortStable(front, key, p, k);
      InsertStable(last, SortBy(front, key), key, p, k);
      FilterConcat(front, [last], p);
      FilterSingle(last, p);
    }
  }

  lemma FilterSingle<T(!new)>(x: T, p: T -> bool)
    ensures Filter([x], p) == if p(x) then [x] else []
  {
    assert [x][0] == x && [x][1..] == [];
  }

  function Abs(n: int): nat {
    if n < 0 then -n else n
  }

  /** Limit(n). */
  function Limit<T(!new)>(s: seq<T>, n: int): (r: seq<T>)
    ensures |r| <= |s|
  {
    if n == 0 || |s| <= Abs(n) then s else s[..Abs(n)]
  }

  function Query<T(!new)>(s: seq<T>, p: T -> bool, key: T -> int, n: int): seq<T> {
    Limit(SortBy(Filter(s, p), key), n)
  }

  /** What a query returns: matching stored records, oldest first, at most |n| of
      them unless n is 0, every matching record when none had to be cut, and
      when some were cut, none of those is older than any record returned. */
  lemma QuerySpec<T(!new)>(s: seq<T>, p: T -> bool, key: T -> int, n: int)
    ensures var r := Query(s, p, key, n);
      (forall x :: x in r ==> x in s && p(x))
      && SortedBy(r, key)
      && (n != 0 ==> |r| <= Abs(n))
      && (n == 0 || |Filter(s, p)| <= Abs(n) ==> multiset(r) == multiset(Filter(s, p)))
      && (n != 0 && |Filter(s, p)| > Abs(n) ==> |r| == Abs(n))
  {
    var t := SortBy(Filter(s, p), key);
    var r := Query(s, p, key, n);
    forall x | x in r ensures x in s && p(x) {
      assert x in t;
      assert x in multiset(t);
    }
  }

  /** When the query truncates, every matching record it leaves out is at least as
      new as every record it returns. */
  lemma QueryOmitsOnlyNewer<T(!new)>(s: seq<T>, p: T -> bool, key: T -> int, n: int, x: T, y: T)
    requires x in s && p(x) && x !in Query(s, p, key, n)
    requires y in Query(s, p, key, n)
    ensures key(y) <= key(x)
  {
    var t := SortBy(Filter(s, p), key);
    var r := Query(s, p, key, n);
    assert x in multiset(t);
    var j :| 0 <= j < |t| && t[j] == x;
    var i :| 0 <= i < |r| && r[i] == y;
    assert r == t[..|r|];
    assert j >= |r|;
  }

  predicate DistinctBy<T(!new), K(==)>(s: seq<T>, f: T -> K) {
    forall i, j :: 0 <= i < j < |s| ==> f(s[i]) != f(s[j])
  }

  lemma {:induction false} FilterDistinct<T(!new), K>(s: seq<T>, p: T -> bool, f: T -> K)
    requires DistinctBy(s, f)
    ensures DistinctBy(Filter(s, p), f)
    decreases |s|
  {
    if s != [] {
      assert DistinctBy(s[1..], f) by {
        forall i, j | 0 <= i < j < |s| - 1 ensures f(s[1..][i]) != f(s[1..][j]) {
          assert s[1..][i] == s[i + 1] && s[1..][j] == s[j + 1];
        }
      }
      FilterDistinct(s[1..], p, f);
      var rest := Filter(s[1..], p);
      forall y | y in rest ensures f(y) != f(s[0]) {
        var k :| 1 <= k < |s| && s[k] == y;
      }
    }
  }

  lemma {:induction false} InsertDistinct<T(!new), K>(x: T, s: seq<T>, key: T -> int, f: T -> K)
    requires DistinctBy(s, f)
    requires forall y :: y in s ==> f(y) != f(x)
    ensures DistinctBy(Insert(x, s, key), f)
    decreases |s|
  {
    if s != [] && key(x) >= key(s[0]) {
      assert DistinctBy(s[1..], f) by {
        forall i, j | 0 <= i < j < |s| - 1 ensures f(s[1..][i]) != f(s[1..][j]) {
          assert s[1..][i] == s[i + 1] && s[1..][j] == s[j + 1];
        }
      }
      InsertDistinct(x, s[1..], key, f);
      var rest := Insert(x, s[1..], key);
      forall y | y in rest ensures f(y) != f(s[0]) {
        assert y in multiset(rest);
        if y != x {
          var k :| 1 <= k < |s| && s[k] == y;
        }
      }
    }
  }

  lemma {:induction false} SortDistinct<T(!new), K>(s: seq<T>, key: T -> int, f: T -> K)
    requires DistinctBy(s, f)
    ensures DistinctBy(SortBy(s, key), f)
    decreases |s|
  {
    if s != [] {
      var front := s[..|s| - 1];
      assert DistinctBy(front, f);
      SortDistinct(front, key, f);
      forall y | y in SortBy(front, key) ensures f(y) != f(s[|s| - 1]) {
        assert y in multiset(SortBy(front, key));
        var k :| 0 <= k < |front| && front[k] == y;
      }
      InsertDistinct(s[|s| - 1], SortBy(front, key), key, f);
    }
  }

  /** A query over records with distinct ids returns records with distinct ids. */
  lemma QueryDistinct<T(!new), K>(s: seq<T>, p: T -> bool, key: T -> int, n: int, f: T -> K)
    requires DistinctBy(s, f)
    ensures DistinctBy(Query(s, p, key, n), f)
  {
    FilterDistinct(s, p, f);
    SortDistinct(Filter(s, p), key, f);
  }
}
