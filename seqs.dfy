/** The query operations the views rely on, over in-memory rows:
    `filter`, `count`, `order_by`, and `values(key).annotate(Count).order_by(key)`. */
module Seqs {
  import opened Text

  // ---------------------------------------------------------------- filter / count

  /** `queryset.filter(p)`: the rows satisfying p, in their original order. */
  function Filter<T(!new)>(s: seq<T>, p: T -> bool): (r: seq<T>)
    ensures |r| <= |s|
    ensures forall x :: x in r <==> x in s && p(x)
    ensures forall i :: 0 <= i < |r| ==> p(r[i])
    decreases |s|
  {
    if s == [] then []
    else
      assert s == s[..|s| - 1] + [s[|s| - 1]];
      Filter(s[..|s| - 1], p) + (if p(s[|s| - 1]) then [s[|s| - 1]] else [])
  }

  lemma FilterSnoc<T(!new)>(s: seq<T>, x: T, p: T -> bool)
    ensures Filter(s + [x], p) == Filter(s, p) + (if p(x) then [x] else [])
  {
    assert (s + [x])[..|s|] == s;
  }

  /** Reading one more row of s extends the filter of the rows read so far. */
  lemma FilterPrefixStep<T(!new)>(s: seq<T>, n: nat, p: T -> bool)
    requires n < |s|
    ensures Filter(s[..n + 1], p) == Filter(s[..n], p) + (if p(s[n]) then [s[n]] else [])
  {
    assert s[..n + 1] == s[..n] + [s[n]];
    FilterSnoc(s[..n], s[n], p);
  }

  /** `queryset.filter(p).count()`. */
  function Count<T(!new)>(s: seq<T>, p: T -> bool): nat
  {
    |Filter(s, p)|
  }

  /** When every row satisfying p satisfies exactly one of a, b and c, the
      three counts add up to the count of p. */
  lemma {:induction false} CountPartition3<T(!new)>(s: seq<T>, p: T -> bool, a: T -> bool, b: T -> bool, c: T -> bool)
    requires forall x :: p(x) <==> a(x) || b(x) || c(x)
    requires forall x :: !(a(x) && b(x)) && !(a(x) && c(x)) && !(b(x) && c(x))
    ensures Count(s, p) == Count(s, a) + Count(s, b) + Count(s, c)
    decreases |s|
  {
    if s != [] {
      CountPartition3(s[..|s| - 1], p, a, b, c);
    }
  }

  /** A weaker condition counts at least as many rows. */
  lemma {:induction false} CountMonotone<T(!new)>(s: seq<T>, a: T -> bool, p: T -> bool)
    requires forall x :: a(x) ==> p(x)
    ensures Count(s, a) <= Count(s, p)
    decreases |s|
  {
    if s != [] {
      CountMonotone(s[..|s| - 1], a, p);
    }
  }

  /** When every row satisfying p satisfies exactly one of a and b, the two
      counts add up to the count of p. */
  lemma {:induction false} CountPartition2<T(!new)>(s: seq<T>, p: T -> bool, a: T -> bool, b: T -> bool)
    requires forall x :: p(x) <==> a(x) || b(x)
    requires forall x :: !(a(x) && b(x))
    ensures Count(s, p) == Count(s, a) + Count(s, b)
    decreases |s|
  {
    if s != [] {
      CountPartition2(s[..|s| - 1], p, a, b);
    }
  }

  /** `queryset.filter(p).filter(q)` is `queryset.filter(pq)` when pq is
      the conjunction of p and q: the same rows in the same order. */
  lemma {:induction false} FilterFilter<T(!new)>(s: seq<T>, p: T -> bool, q: T -> bool, pq: T -> bool)
    requires forall x :: pq(x) == (p(x) && q(x))
    ensures Filter(Filter(s, p), q) == Filter(s, pq)
    decreases |s|
  {
    if s != [] {
      var init, last := s[..|s| - 1], s[|s| - 1];
      FilterFilter(init, p, q, pq);
      if p(last) {
        FilterSnoc(Filter(init, p), last, q);
      } else {
        assert Filter(s, p) == Filter(init, p);
      }
    }
  }

  /** `values_list(f, flat=True)`: the column f of the rows, in row order. */
  function Project<T, U>(s: seq<T>, f: T -> U): (r: seq<U>)
    ensures |r| == |s|
    ensures forall i :: 0 <= i < |s| ==> r[i] == f(s[i])
    decreases |s|
  {
    if s == [] then [] else Project(s[..|s| - 1], f) + [f(s[|s| - 1])]
  }

  /** A value is in the column exactly when some row carries it. */
  lemma ProjectMembers<T, U>(s: seq<T>, f: T -> U, k: U)
    ensures k in Project(s, f) <==> exists x :: x in s && f(x) == k
  {
    var r := Project(s, f);
    if k in r {
      var i :| 0 <= i < |r| && r[i] == k;
      assert s[i] in s && f(s[i]) == k;
    }
    if exists x :: x in s && f(x) == k {
      var x :| x in s && f(x) == k;
      var i :| 0 <= i < |s| && s[i] == x;
      assert r[i] == k;
    }
  }

  /** The rows whose column f holds k are as many as the copies of k in the
      column. */
  lemma {:induction false} KeyCountIsMultiplicity<T(!new)>(s: seq<T>, f: T -> string, k: string, p: T -> bool)
    requires forall x :: p(x) == (f(x) == k)
    ensures Count(s, p) == multiset(Project(s, f))[k]
    decreases |s|
  {
    if s != [] {
      var init := s[..|s| - 1];
      KeyCountIsMultiplicity(init, f, k, p);
      assert Project(s, f) == Project(init, f) + [f(s[|s| - 1])];
    }
  }

  /** A filter every row passes returns the rows unchanged. */
  lemma {:induction false} FilterKeepsAll<T(!new)>(s: seq<T>, p: T -> bool)
    ensures (forall x :: x in s ==> p(x)) ==> Filter(s, p) == s
    decreases |s|
  {
    if s != [] && forall x :: x in s ==> p(x) {
      var init := s[..|s| - 1];
      assert s == init + [s[|s| - 1]];
      assert forall x :: x in init ==> x in s;
      FilterKeepsAll(init, p);
    }
  }

  /** Two complementary filters split the rows between them. */
  lemma FilterSplit<T(!new)>(s: seq<T>, p: T -> bool, q: T -> bool)
    requires forall x :: p(x) != q(x)
    ensures multiset(Filter(s, p)) + multiset(Filter(s, q)) == multiset(s)
  {
    forall x
      ensures (multiset(Filter(s, p)) + multiset(Filter(s, q)))[x] == multiset(s)[x]
    {
      FilterMultiplicity(s, p, x);
      FilterMultiplicity(s, q, x);
    }
  }

  /** A filter keeps every copy of a row that passes and no copy of one that
      does not. */
  lemma {:induction false} FilterMultiplicity<T(!new)>(s: seq<T>, p: T -> bool, x: T)
    ensures multiset(Filter(s, p))[x] == if p(x) then multiset(s)[x] else 0
    decreases |s|
  {
    if s != [] {
      var init, last := s[..|s| - 1], s[|s| - 1];
      assert s == init + [last];
      FilterMultiplicity(init, p, x);
    }
  }

  /** Filtering two orderings of the same rows gives the same rows, so the
      count does not depend on the order the rows are read in. */
  lemma FilterPermutation<T(!new)>(a: seq<T>, b: seq<T>, p: T -> bool)
    requires multiset(a) == multiset(b)
    ensures multiset(Filter(a, p)) == multiset(Filter(b, p))
    ensures Count(a, p) == Count(b, p)
  {
    forall x
      ensures multiset(Filter(a, p))[x] == multiset(Filter(b, p))[x]
    {
      FilterMultiplicity(a, p, x);
      FilterMultiplicity(b, p, x);
    }
    assert multiset(Filter(a, p)) == multiset(Filter(b, p));
    assert |multiset(Filter(a, p))| == |Filter(a, p)|;
    assert |multiset(Filter(b, p))| == |Filter(b, p)|;
  }

  // ---------------------------------------------------------------- keys

  /** No two rows share a key: the effect of `unique=True` on the column key. */
  predicate DistinctKeys<T, K(==)>(s: seq<T>, key: T -> K)
  {
    forall i, j :: 0 <= i < j < |s| ==> key(s[i]) != key(s[j])
  }

  /** Removing rows never breaks a uniqueness constraint. */
  lemma {:induction false} FilterDistinctKeys<T(!new), K>(s: seq<T>, key: T -> K, p: T -> bool)
    requires DistinctKeys(s, key)
    ensures DistinctKeys(Filter(s, p), key)
    decreases |s|
  {
    if s != [] {
      var init, last := s[..|s| - 1], s[|s| - 1];
      assert DistinctKeys(init, key);
      FilterDistinctKeys(init, key, p);
      var f := Filter(init, p);
      forall i | 0 <= i < |f| ensures key(f[i]) != key(last) {
        assert f[i] in init;
        var j :| 0 <= j < |init| && init[j] == f[i];
        assert s[j] == f[i];
      }
    }
  }

  /** The rows whose key is k, in their original order. */
  function KeyedBy<T(!new), K(==)>(s: seq<T>, key: T -> K, k: K): (r: seq<T>)
    ensures forall x :: x in r <==> x in s && key(x) == k
    ensures (forall x :: x in s ==> key(x) != k) ==> r == []
    decreases |s|
  {
    if s == [] then []
    else KeyedBy(s[..|s| - 1], key, k) + (if key(s[|s| - 1]) == k then [s[|s| - 1]] else [])
  }

  /** Under a uniqueness constraint a key value names at most one row. */
  lemma {:induction false} DistinctKeysAtMostOne<T(!new), K>(s: seq<T>, key: T -> K, k: K)
    requires DistinctKeys(s, key)
    ensures |KeyedBy(s, key, k)| <= 1
    decreases |s|
  {
    if s != [] {
      var init := s[..|s| - 1];
      assert DistinctKeys(init, key);
      DistinctKeysAtMostOne(init, key, k);
    }
  }

  // ---------------------------------------------------------------- order_by

  /** `le` is a total preorder: what `order_by` needs of a sort key. */
  ghost predicate TotalPreorder<T(!new)>(le: (T, T) -> bool)
  {
    (forall x, y :: le(x, y) || le(y, x)) &&
    (forall x, y, z :: le(x, y) && le(y, z) ==> le(x, z))
  }

  predicate SortedBy<T>(s: seq<T>, le: (T, T) -> bool)
  {
    forall i, j :: 0 <= i < j < |s| ==> le(s[i], s[j])
  }

  /** Places x before the first row it does not come after. */
  function Insert<T(!new)>(x: T, s: seq<T>, le: (T, T) -> bool): (r: seq<T>)
    requires TotalPreorder(le)
    ensures multiset(r) == multiset(s) + multiset{x}
    ensures forall y :: y in r <==> y in s || y == x
    decreases |s|
  {
    if s == [] || le(x, s[0]) then
      [x] + s
    else
      assert s == [s[0]] + s[1..];
      [s[0]] + Insert(x, s[1..], le)
  }

  /** Inserting into a sorted sequence keeps it sorted. */
  lemma {:induction false} InsertSorted<T(!new)>(x: T, s: seq<T>, le: (T, T) -> bool)
    requires TotalPreorder(le) && SortedBy(s, le)
    ensures SortedBy(Insert(x, s, le), le)
    decreases |s|
  {
    if s == [] || le(x, s[0]) {
      assert forall y :: y in s ==> le(x, y) by {
        forall y | y in s ensures le(x, y) {
          var j :| 0 <= j < |s| && s[j] == y;
          if j > 0 {
            assert le(s[0], s[j]);
          }
        }
      }
    } else {
      var t := Insert(x, s[1..], le);
      assert SortedBy(s[1..], le);
      InsertSorted(x, s[1..], le);
      assert le(s[0], x);
      assert forall y :: y in t ==> le(s[0], y) by {
        forall y | y in t ensures le(s[0], y) {
          if y != x {
            assert y in s[1..];
            var j :| 0 <= j < |s[1..]| && s[1..][j] == y;
            assert s[j + 1] == y;
          }
        }
      }
    }
  }

  /** `order_by(...)`: a sorted permutation of the rows (ties keep their
      original order). */
  function Sort<T(!new)>(s: seq<T>, le: (T, T) -> bool): (r: seq<T>)
    requires TotalPreorder(le)
    ensures SortedBy(r, le)
    ensures multiset(r) == multiset(s)
    ensures |r| == |s|
    ensures forall y :: y in r <==> y in s
    decreases |s|
  {
    if s == [] then []
    else
      var t := Sort(s[1..], le);
      assert s == [s[0]] + s[1..];
      InsertSorted(s[0], t, le);
      Insert(s[0], t, le)
  }

  /** Filtering a sorted sequence keeps it sorted under any order that agrees
      with the sort on the rows kept. */
  lemma {:induction false} FilterSorted<T(!new)>(s: seq<T>, le: (T, T) -> bool, p: T -> bool, le2: (T, T) -> bool)
    requires SortedBy(s, le)
    requires forall x, y :: p(x) && p(y) && le(x, y) ==> le2(x, y)
    ensures SortedBy(Filter(s, p), le2)
    decreases |s|
  {
    if s != [] {
      var init, last := s[..|s| - 1], s[|s| - 1];
      FilterSorted(init, le, p, le2);
      var f := Filter(init, p);
      forall i | 0 <= i < |f| && p(last) ensures le2(f[i], last) {
        assert f[i] in init;
        var j :| 0 <= j < |init| && init[j] == f[i];
        assert le(s[j], s[|s| - 1]);
      }
    }
  }

  // ---------------------------------------------------------------- group-by count

  /** One row of `values(key).annotate(count=Count('id'))`. */
  datatype Bucket = Bucket(key: string, count: nat)

  /** Strictly ascending keys: distinct and in `order_by(key)` order. */
  predicate Ascending(b: seq<Bucket>)
  {
    forall i, j :: 0 <= i < j < |b| ==> Less(b[i].key, b[j].key)
  }

  function Labels(b: seq<Bucket>): (r: seq<string>)
    ensures |r| == |b|
    ensures forall i :: 0 <= i < |b| ==> r[i] == b[i].key
  {
    if b == [] then [] else [b[0].key] + Labels(b[1..])
  }

  function Totals(b: seq<Bucket>): (r: seq<nat>)
    ensures |r| == |b|
    ensures forall i :: 0 <= i < |b| ==> r[i] == b[i].count
  {
    if b == [] then [] else [b[0].count] + Totals(b[1..])
  }

  function Sum(xs: seq<nat>): nat
  {
    if xs == [] then 0 else xs[0] + Sum(xs[1..])
  }

  /** The count recorded for key k, 0 when k has no bucket. */
  function CountOf(b: seq<Bucket>, k: string): (n: nat)
    ensures k !in Labels(b) ==> n == 0
  {
    if b == [] then 0 else if b[0].key == k then b[0].count else CountOf(b[1..], k)
  }

  lemma {:induction false} CountOfAt(b: seq<Bucket>, i: nat)
    requires Ascending(b) && i < |b|
    ensures CountOf(b, b[i].key) == b[i].count
    decreases i
  {
    if i > 0 {
      LessIrreflexive(b[0].key);
      CountOfAt(b[1..], i - 1);
    }
  }

  /** Counts one more row with key k. */
  function Bump(b: seq<Bucket>, k: string): (r: seq<Bucket>)
    ensures |b| <= |r| <= |b| + 1
    decreases |b|
  {
    if b == [] then [Bucket(k, 1)]
    else if b[0].key == k then [Bucket(k, b[0].count + 1)] + b[1..]
    else if Less(k, b[0].key) then [Bucket(k, 1)] + b
    else [b[0]] + Bump(b[1..], k)
  }

  lemma {:induction false} BumpLabels(b: seq<Bucket>, k: string)
    ensures forall j :: j in Labels(Bump(b, k)) <==> j in Labels(b) || j == k
    decreases |b|
  {
    if b != [] && b[0].key != k && !Less(k, b[0].key) {
      BumpLabels(b[1..], k);
    }
  }

  lemma {:induction false} BumpAscending(b: seq<Bucket>, k: string)
    requires Ascending(b)
    ensures Ascending(Bump(b, k))
    decreases |b|
  {
    if b == [] || b[0].key == k {
    } else if Less(k, b[0].key) {
      forall i | 0 <= i < |b| ensures Less(k, b[i].key) {
        if i > 0 { LessTransitive(k, b[0].key, b[i].key); }
      }
    } else {
      LessTotal(k, b[0].key);
      BumpAscending(b[1..], k);
      BumpLabels(b[1..], k);
      var t := Bump(b[1..], k);
      forall i | 0 <= i < |t| ensures Less(b[0].key, t[i].key) {
        assert t[i].key in Labels(t);
      }
    }
  }

  lemma {:induction false} BumpCount(b: seq<Bucket>, k: string, j: string)
    requires Ascending(b)
    ensures CountOf(Bump(b, k), j) == CountOf(b, j) + (if j == k then 1 else 0)
    decreases |b|
  {
    if b == [] || b[0].key == k {
    } else if Less(k, b[0].key) {
      if k in Labels(b) {
        var i :| 0 <= i < |b| && b[i].key == k;
        if i > 0 { LessTransitive(k, b[0].key, b[i].key); }
        LessIrreflexive(k);
      }
    } else {
      BumpCount(b[1..], k, j);
    }
  }

  lemma {:induction false} BumpSum(b: seq<Bucket>, k: string)
    ensures Sum(Totals(Bump(b, k))) == Sum(Totals(b)) + 1
    ensures (forall i :: 0 <= i < |b| ==> b[i].count >= 1) ==> (forall i :: 0 <= i < |Bump(b, k)| ==> Bump(b, k)[i].count >= 1)
    decreases |b|
  {
    if b == [] {
    } else if b[0].key == k {
      assert Totals(b)[1..] == Totals(b[1..]);
    } else if Less(k, b[0].key) {
    } else {
      BumpSum(b[1..], k);
    }
  }

  /** `values(key).annotate(count=Count('id')).order_by(key)` over the keys of
      the filtered rows: one bucket per distinct key, ascending. */
  function Tally(keys: seq<string>): (t: seq<Bucket>)
    ensures Ascending(t)
    ensures forall k :: k in Labels(t) <==> k in keys
    ensures forall k :: CountOf(t, k) == multiset(keys)[k]
    ensures forall i :: 0 <= i < |t| ==> t[i].count >= 1
    ensures Sum(Totals(t)) == |keys|
    decreases |keys|
  {
    if keys == [] then []
    else
      var init, last := keys[..|keys| - 1], keys[|keys| - 1];
      assert keys == init + [last];
      var t := Tally(init);
      BumpLabels(t, last);
      BumpAscending(t, last);
      BumpSum(t, last);
      forall k ensures CountOf(Bump(t, last), k) == multiset(keys)[k] {
        BumpCount(t, last, k);
      }
      Bump(t, last)
  }

  /** Each bucket holds the number of rows with its key. */
  lemma TallyCounts(keys: seq<string>, i: nat)
    requires i < |Tally(keys)|
    ensures Tally(keys)[i].count == multiset(keys)[Tally(keys)[i].key]
  {
    CountOfAt(Tally(keys), i);
  }
}
