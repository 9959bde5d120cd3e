/** Sums, counts and the stable sort that several components share. */
module Sequences {

  function Sum(s: seq<int>): int {
    if s == [] then 0 else Sum(s[..|s| - 1]) + s[|s| - 1]
  }

  lemma {:induction false} SumConcat(a: seq<int>, b: seq<int>)
    ensures Sum(a + b) == Sum(a) + Sum(b)
  {
    if b == [] {
      assert a + b == a;
    } else {
      assert (a + b)[..|a + b| - 1] == a + b[..|b| - 1];
      SumConcat(a, b[..|b| - 1]);
    }
  }

  lemma SumUpdate(s: seq<int>, i: nat, v: int)
    requires i < |s|
    ensures Sum(s[i := v]) == Sum(s) - s[i] + v
  {
    assert s == s[..i] + [s[i]] + s[i + 1..];
    assert s[i := v] == s[..i] + [v] + s[i + 1..];
    SumConcat(s[..i] + [s[i]], s[i + 1..]);
    SumConcat(s[..i] + [v], s[i + 1..]);
    SumConcat(s[..i], [s[i]]);
    SumConcat(s[..i], [v]);
  }

  /** Termwise: what holds of every term holds of the sums. */
  lemma {:induction false} SumAtMost(a: seq<int>, b: seq<int>)
    requires |a| == |b| && forall i | 0 <= i < |a| :: a[i] <= b[i]
    ensures Sum(a) <= Sum(b)
  {
    if a != [] {
      SumAtMost(a[..|a| - 1], b[..|b| - 1]);
    }
  }

  lemma {:induction false} SumOfScaled(a: seq<int>, b: seq<int>, c: int)
    requires |a| == |b| && forall i | 0 <= i < |a| :: b[i] == c * a[i]
    ensures Sum(b) == c * Sum(a)
  {
    if a != [] {
      SumOfScaled(a[..|a| - 1], b[..|b| - 1], c);
    }
  }

  lemma {:induction false} SumOfSums(a: seq<int>, b: seq<int>, c: seq<int>)
    requires |a| == |b| == |c| && forall i | 0 <= i < |a| :: c[i] == a[i] + b[i]
    ensures Sum(c) == Sum(a) + Sum(b)
  {
    if a != [] {
      SumOfSums(a[..|a| - 1], b[..|b| - 1], c[..|c| - 1]);
    }
  }

  // ---------------------------------------------------------------------------------------
  // Stable sorting, as Array.prototype.sort does it
  // ---------------------------------------------------------------------------------------

  predicate Ascending<T>(s: seq<T>, key: T -> real) {
    forall i, j | 0 <= i < j < |s| :: key(s[i]) <= key(s[j])
  }

  /** Ascending by key, and by rank among equal keys. */
  predicate AscendingThen<T>(s: seq<T>, key: T -> real, rank: T -> int) {
    forall i, j | 0 <= i < j < |s| ::
      key(s[i]) < key(s[j]) || (key(s[i]) == key(s[j]) && rank(s[i]) <= rank(s[j]))
  }

  /** Puts `x` after everything whose key is at most its own. */
  function Insert<T>(x: T, s: seq<T>, key: T -> real): (out: seq<T>)
    ensures multiset(out) == multiset{x} + multiset(s)
    ensures |out| == |s| + 1
  {
    if s == [] then [x]
    else if key(x) < key(s[0]) then [x] + s
    else
      assert s == [s[0]] + s[1..];
      [s[0]] + Insert(x, s[1..], key)
  }

  function SortBy<T>(s: seq<T>, key: T -> real): (out: seq<T>)
    ensures multiset(out) == multiset(s)
    ensures |out| == |s|
  {
    if s == [] then []
    else
      assert s == s[..|s| - 1] + [s[|s| - 1]];
      Insert(s[|s| - 1], SortBy(s[..|s| - 1], key), key)
  }

  lemma SameElements<T>(s: seq<T>, t: seq<T>, x: T)
    requires multiset(s) == multiset(t)
    ensures x in s <==> x in t
  {
    assert x in s <==> x in multiset(s);
    assert x in t <==> x in multiset(t);
  }

  lemma {:induction false} InsertAscends<T>(x: T, s: seq<T>, key: T -> real, rank: T -> int)
    requires AscendingThen(s, key, rank)
    requires forall i | 0 <= i < |s| :: rank(s[i]) <= rank(x)
    ensures AscendingThen(Insert(x, s, key), key, rank)
  {
    if s != [] && key(x) >= key(s[0]) {
      InsertAscends(x, s[1..], key, rank);
      var tail := Insert(x, s[1..], key);
      forall k | 0 <= k < |tail|
        ensures key(s[0]) < key(tail[k]) || (key(s[0]) == key(tail[k]) && rank(s[0]) <= rank(tail[k]))
      {
        SameElements(tail, [x] + s[1..], tail[k]);
        assert tail[k] in [x] + s[1..];
        var m :| 0 <= m < |[x] + s[1..]| && ([x] + s[1..])[m] == tail[k];
        assert m > 0 ==> s[m] == tail[k];
      }
    }
  }

  /** Sorting keeps the given order among equal keys. */
  lemma {:induction false} SortIsStable<T>(s: seq<T>, key: T -> real, rank: T -> int)
    requires forall i, j | 0 <= i < j < |s| :: rank(s[i]) <= rank(s[j])
    ensures AscendingThen(SortBy(s, key), key, rank)
  {
    if s != [] {
      var n := |s| - 1;
      var front := SortBy(s[..n], key);
      SortIsStable(s[..n], key, rank);
      forall i | 0 <= i < |front| ensures rank(front[i]) <= rank(s[n]) {
        SameElements(front, s[..n], front[i]);
        assert front[i] in s[..n];
        var m :| 0 <= m < n && s[..n][m] == front[i];
        assert s[m] == front[i];
      }
      InsertAscends(s[n], front, key, rank);
    }
  }

  lemma SortAscends<T>(s: seq<T>, key: T -> real)
    ensures Ascending(SortBy(s, key), key)
  {
    SortIsStable(s, key, _ => 0);
  }

  lemma {:induction false} InsertLast<T>(x: T, s: seq<T>, key: T -> real)
    requires forall i | 0 <= i < |s| :: key(s[i]) <= key(x)
    ensures Insert(x, s, key) == s + [x]
  {
    if s != [] {
      InsertLast(x, s[1..], key);
    }
  }

  lemma {:induction false} SortedStays<T>(s: seq<T>, key: T -> real)
    requires Ascending(s, key)
    ensures SortBy(s, key) == s
  {
    if s != [] {
      SortedStays(s[..|s| - 1], key);
      InsertLast(s[|s| - 1], s[..|s| - 1], key);
    }
  }

  // ---------------------------------------------------------------------------------------
  // Filtering
  // ---------------------------------------------------------------------------------------

  function Filter<T>(s: seq<T>, p: T -> bool): (out: seq<T>)
    ensures forall i | 0 <= i < |out| :: p(out[i]) && out[i] in s
    ensures forall i | 0 <= i < |s| && p(s[i]) :: s[i] in out
    ensures |out| <= |s|
  {
    if s == [] then []
    else
      var rest := Filter(s[..|s| - 1], p);
      assert forall i | 0 <= i < |rest| :: rest[i] in s[..|s| - 1] && rest[i] in s;
      if p(s[|s| - 1]) then rest + [s[|s| - 1]] else rest
  }

  lemma FilterHolds<T>(s: seq<T>, p: T -> bool, x: T)
    ensures x in Filter(s, p) <==> x in s && p(x)
  {
    var out := Filter(s, p);
    if x in out {
      var i :| 0 <= i < |out| && out[i] == x;
    }
    if x in s {
      var i :| 0 <= i < |s| && s[i] == x;
    }
  }

  /** Some occurrence of `a` comes before some occurrence of `b`. */
  ghost predicate Before<T>(s: seq<T>, a: T, b: T) {
    exists i, j :: 0 <= i < j < |s| && s[i] == a && s[j] == b
  }

  predicate StrictlyRising(s: seq<int>) {
    forall i, j | 0 <= i < j < |s| :: s[i] < s[j]
  }

  predicate Distinct<T(==)>(s: seq<T>) {
    forall i, j | 0 <= i < j < |s| :: s[i] != s[j]
  }

  lemma {:induction false} FilterKeepsOrder<T>(s: seq<T>, p: T -> bool, a: T, b: T)
    requires Before(s, a, b) && p(a) && p(b)
    ensures Before(Filter(s, p), a, b)
  {
    var n := |s| - 1;
    var i, j :| 0 <= i < j < |s| && s[i] == a && s[j] == b;
    var rest := Filter(s[..n], p);
    if j < n {
      assert s[..n][i] == a && s[..n][j] == b;
      FilterKeepsOrder(s[..n], p, a, b);
      var k, m :| 0 <= k < m < |rest| && rest[k] == a && rest[m] == b;
      assert Filter(s, p)[k] == a && Filter(s, p)[m] == b;
    } else {
      assert s[..n][i] == a;
      assert a in rest;
      var k :| 0 <= k < |rest| && rest[k] == a;
      assert Filter(s, p)[k] == a && Filter(s, p)[|rest|] == b;
    }
  }

  lemma {:induction false} FilterDistinct<T>(s: seq<T>, p: T -> bool)
    requires Distinct(s)
    ensures Distinct(Filter(s, p))
  {
    if s != [] {
      var n := |s| - 1;
      FilterDistinct(s[..n], p);
      var rest := Filter(s[..n], p);
      forall i | 0 <= i < |rest| ensures rest[i] != s[n] {
        assert rest[i] in s[..n];
        var k :| 0 <= k < n && s[..n][k] == rest[i];
        assert s[k] == rest[i];
      }
    }
  }

  lemma {:induction false} DistinctCount<T>(s: seq<T>, x: T)
    requires Distinct(s)
    ensures multiset(s)[x] == if x in s then 1 else 0
  {
    if s != [] {
      var n := |s| - 1;
      DistinctCount(s[..n], x);
      assert s == s[..n] + [s[n]];
    }
  }

  /** Two lists without repeats and with the same elements are permutations of each other. */
  lemma SameElementsPermute<T>(s: seq<T>, t: seq<T>)
    requires Distinct(s) && Distinct(t)
    requires (forall i | 0 <= i < |s| :: s[i] in t) && (forall i | 0 <= i < |t| :: t[i] in s)
    ensures multiset(s) == multiset(t)
  {
    forall x ensures multiset(s)[x] == multiset(t)[x] {
      DistinctCount(s, x);
      DistinctCount(t, x);
      if x in s {
        var i :| 0 <= i < |s| && s[i] == x;
      }
      if x in t {
        var i :| 0 <= i < |t| && t[i] == x;
      }
    }
  }

  // ---------------------------------------------------------------------------------------
  // Counting
  // ---------------------------------------------------------------------------------------

  function CountIf<T>(s: seq<T>, p: T -> bool): (n: nat)
    ensures n <= |s|
  {
    if s == [] then 0 else CountIf(s[..|s| - 1], p) + (if p(s[|s| - 1]) then 1 else 0)
  }

  lemma {:induction false} CountConcat<T>(a: seq<T>, b: seq<T>, p: T -> bool)
    ensures CountIf(a + b, p) == CountIf(a, p) + CountIf(b, p)
  {
    if b == [] {
      assert a + b == a;
    } else {
      assert (a + b)[..|a + b| - 1] == a + b[..|b| - 1];
      CountConcat(a, b[..|b| - 1], p);
    }
  }

  lemma {:induction false} CountInserted<T>(x: T, s: seq<T>, key: T -> real, p: T -> bool)
    ensures CountIf(Insert(x, s, key), p) == CountIf(s, p) + (if p(x) then 1 else 0)
  {
    assert CountIf([x], p) == if p(x) then 1 else 0;
    if s == [] {
    } else if key(x) < key(s[0]) {
      CountConcat([x], s, p);
    } else {
      CountInserted(x, s[1..], key, p);
      CountConcat([s[0]], Insert(x, s[1..], key), p);
      CountConcat([s[0]], s[1..], p);
      assert s == [s[0]] + s[1..];
    }
  }

  /** Sorting changes no count. */
  lemma {:induction false} CountSorted<T>(s: seq<T>, key: T -> real, p: T -> bool)
    ensures CountIf(SortBy(s, key), p) == CountIf(s, p)
  {
    if s != [] {
      CountSorted(s[..|s| - 1], key, p);
      CountInserted(s[|s| - 1], SortBy(s[..|s| - 1], key), key, p);
    }
  }

  /** A count over a stretch in which every element counts, or none does. */
  lemma {:induction false} CountAll<T>(s: seq<T>, p: T -> bool, all: bool)
    requires forall i | 0 <= i < |s| :: p(s[i]) == all
    ensures CountIf(s, p) == if all then |s| else 0
  {
    if s != [] {
      CountAll(s[..|s| - 1], p, all);
    }
  }
}
