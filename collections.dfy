/** Sequence utilities standing for the pandas operations the dashboard uses:
    boolean-mask filtering, `unique()` (order of first appearance),
    `sorted(unique())` and the split of a frame into one slice per key. */
module Seqs {

  datatype Option<+T> = None | Some(value: T)

  /** The elements of `s` that satisfy `p`, in their original order
      (a pandas boolean mask `df[p(df)]`). */
  function Filter<T>(p: T -> bool, s: seq<T>): (r: seq<T>)
    ensures |r| <= |s|
    ensures forall i :: 0 <= i < |r| ==> r[i] in s && p(r[i])
  {
    if s == [] then [] else (if p(s[0]) then [s[0]] else []) + Filter(p, s[1..])
  }

  /** Filtering keeps every occurrence of a selected element and drops every
      occurrence of the others. */
  lemma {:induction false} FilterCount<T>(p: T -> bool, s: seq<T>, x: T)
    ensures multiset(Filter(p, s))[x] == if p(x) then multiset(s)[x] else 0
  {
    if s != [] {
      FilterCount(p, s[1..], x);
      assert s == [s[0]] + s[1..];
    }
  }

  lemma {:induction false} FilterAppend<T>(p: T -> bool, a: seq<T>, b: seq<T>)
    ensures Filter(p, a + b) == Filter(p, a) + Filter(p, b)
  {
    if a == [] {
      assert a + b == b;
    } else {
      assert (a + b)[1..] == a[1..] + b;
      FilterAppend(p, a[1..], b);
    }
  }

  /** A mask that rejects every element selects nothing. */
  lemma {:induction false} FilterNone<T>(p: T -> bool, s: seq<T>)
    requires forall i :: 0 <= i < |s| ==> !p(s[i])
    ensures Filter(p, s) == []
  {
    if s != [] {
      FilterNone(p, s[1..]);
    }
  }

  /** A mask and its complement split a sequence into two parts that together
      hold every element exactly as often as the sequence does. */
  lemma FilterComplement<T>(p: T -> bool, q: T -> bool, s: seq<T>)
    requires forall x :: q(x) == !p(x)
    ensures multiset(Filter(p, s)) + multiset(Filter(q, s)) == multiset(s)
  {
    forall x ensures (multiset(Filter(p, s)) + multiset(Filter(q, s)))[x] == multiset(s)[x] {
      FilterCount(p, s, x);
      FilterCount(q, s, x);
    }
  }

  /** Filtering respects permutation: equal multisets give equal filtered multisets. */
  lemma FilterPermutation<T>(p: T -> bool, s: seq<T>, t: seq<T>)
    requires multiset(s) == multiset(t)
    ensures multiset(Filter(p, s)) == multiset(Filter(p, t))
  {
    forall x ensures multiset(Filter(p, s))[x] == multiset(Filter(p, t))[x] {
      FilterCount(p, s, x);
      FilterCount(p, t, x);
    }
  }

  predicate NoDuplicates<T(==)>(s: seq<T>) {
    forall i, j :: 0 <= i < j < |s| ==> s[i] != s[j]
  }

  /** The distinct values of `s` in order of first appearance (pandas `unique()`). */
  function Distinct<T(==)>(s: seq<T>): (r: seq<T>)
    ensures NoDuplicates(r)
    ensures forall i :: 0 <= i < |r| ==> r[i] in s
    ensures forall i :: 0 <= i < |s| ==> s[i] in r
  {
    if s == [] then []
    else
      var d := Distinct(s[..|s| - 1]);
      assert s == s[..|s| - 1] + [s[|s| - 1]];
      if s[|s| - 1] in d then d else d + [s[|s| - 1]]
  }

  /** Some occurrence of `x` in `s` comes before every occurrence of `y`. */
  ghost predicate AppearsBefore<T>(s: seq<T>, x: T, y: T) {
    exists k :: 0 <= k < |s| && s[k] == x && y !in s[..k + 1]
  }

  /** `Distinct` lists the values in order of first appearance: whenever
      `r[i]` comes before `r[j]`, `r[i]` shows up in `s` before `r[j]` does. */
  lemma {:induction false} DistinctFirstAppearance<T>(s: seq<T>)
    ensures forall i, j :: 0 <= i < j < |Distinct(s)| ==> AppearsBefore(s, Distinct(s)[i], Distinct(s)[j])
    decreases |s|
  {
    if s != [] {
      var init, last := s[..|s| - 1], s[|s| - 1];
      assert s == init + [last];
      DistinctFirstAppearance(init);
      var d, r := Distinct(init), Distinct(s);
      assert r == if last in d then d else d + [last];
      forall i, j | 0 <= i < j < |r| ensures AppearsBefore(s, r[i], r[j]) {
        assert r[i] == d[i];
        if j < |d| {
          assert r[j] == d[j];
          assert AppearsBefore(init, d[i], d[j]);
          var k :| 0 <= k < |init| && init[k] == d[i] && d[j] !in init[..k + 1];
          assert s[..k + 1] == init[..k + 1];
          assert s[k] == r[i] && r[j] !in s[..k + 1];
        } else {
          assert r[j] == last && last !in d;
          assert d[i] in init;
          var k :| 0 <= k < |init| && init[k] == d[i];
          assert last !in init;
          assert s[..k + 1] == init[..k + 1];
          assert s[k] == r[i] && r[j] !in s[..k + 1];
        }
      }
    }
  }

  /** `lt` is a strict total order: irreflexive, transitive and connected. */
  ghost predicate StrictTotalOrder<T(!new)>(lt: (T, T) -> bool) {
    && (forall x :: !lt(x, x))
    && (forall x, y, z :: lt(x, y) && lt(y, z) ==> lt(x, z))
    && (forall x, y :: x != y ==> lt(x, y) || lt(y, x))
  }

  predicate StrictlySorted<T>(s: seq<T>, lt: (T, T) -> bool) {
    forall i, j :: 0 <= i < j < |s| ==> lt(s[i], s[j])
  }

  /** Inserts `x` at its place in a strictly sorted sequence, unless it is there already. */
  function Insert<T(==)>(x: T, s: seq<T>, lt: (T, T) -> bool): seq<T> {
    if s == [] then [x]
    else if x == s[0] then s
    else if lt(x, s[0]) then [x] + s
    else [s[0]] + Insert(x, s[1..], lt)
  }

  lemma {:induction false} InsertSorted<T(!new)>(x: T, s: seq<T>, lt: (T, T) -> bool)
    requires StrictTotalOrder(lt)
    requires StrictlySorted(s, lt)
    ensures StrictlySorted(Insert(x, s, lt), lt)
    ensures forall y :: y in Insert(x, s, lt) <==> y == x || y in s
  {
    if s != [] && x != s[0] && !lt(x, s[0]) {
      assert lt(s[0], x);
      assert StrictlySorted(s[1..], lt) by {
        forall i, j | 0 <= i < j < |s[1..]| ensures lt(s[1..][i], s[1..][j]) {
          assert s[1..][i] == s[i + 1] && s[1..][j] == s[j + 1];
        }
      }
      InsertSorted(x, s[1..], lt);
      var r := Insert(x, s[1..], lt);
      assert forall y :: y in r ==> lt(s[0], y) by {
        forall y | y in r ensures lt(s[0], y) {
          if y != x {
            var k :| 1 <= k < |s| && s[k] == y;
          }
        }
      }
      assert s == [s[0]] + s[1..];
    } else if s != [] && x != s[0] {
      forall i, j | 0 <= i < j < |[x] + s| ensures lt(([x] + s)[i], ([x] + s)[j]) {
        if i == 0 && j > 1 {
          assert lt(s[0], s[j - 1]);
        }
      }
    }
  }

  /** The distinct values of `s` in ascending order (Python `sorted(set(s))`). */
  function SortedUnique<T(==)>(s: seq<T>, lt: (T, T) -> bool): seq<T> {
    if s == [] then [] else Insert(s[|s| - 1], SortedUnique(s[..|s| - 1], lt), lt)
  }

  /** Under a strict total order the result is strictly ascending (so repeats
      nothing) and holds exactly the values of `s`. */
  lemma {:induction false} SortedUniqueCorrect<T(!new)>(s: seq<T>, lt: (T, T) -> bool)
    requires StrictTotalOrder(lt)
    ensures StrictlySorted(SortedUnique(s, lt), lt)
    ensures NoDuplicates(SortedUnique(s, lt))
    ensures forall y :: y in SortedUnique(s, lt) <==> y in s
  {
    if s != [] {
      SortedUniqueCorrect(s[..|s| - 1], lt);
      InsertSorted(s[|s| - 1], SortedUnique(s[..|s| - 1], lt), lt);
      assert s == s[..|s| - 1] + [s[|s| - 1]];
    }
    var r := SortedUnique(s, lt);
    forall i, j | 0 <= i < j < |r| ensures r[i] != r[j] {
      assert lt(r[i], r[j]);
    }
  }

  /** The slice of `s` whose key equals `k` (`df[df[col] == k]`). */
  function Bucket<T, K(==)>(s: seq<T>, key: T -> K, k: K): seq<T> {
    Filter(x => key(x) == k, s)
  }

  /** The slices for the keys `ks`, one after the other. */
  function Buckets<T, K(==)>(s: seq<T>, key: T -> K, ks: seq<K>): seq<T>
    decreases |ks|
  {
    if ks == [] then [] else Buckets(s, key, ks[..|ks| - 1]) + Bucket(s, key, ks[|ks| - 1])
  }

  /** Over distinct keys, an element occurs in the slices as often as in `s`
      when its key is listed, and not at all otherwise. */
  lemma {:induction false} BucketsCount<T, K>(s: seq<T>, key: T -> K, ks: seq<K>, x: T)
    requires NoDuplicates(ks)
    ensures multiset(Buckets(s, key, ks))[x] == if key(x) in ks then multiset(s)[x] else 0
    decreases |ks|
  {
    if ks != [] {
      var init, last := ks[..|ks| - 1], ks[|ks| - 1];
      assert ks == init + [last];
      assert NoDuplicates(init);
      assert last !in init;
      BucketsCount(s, key, init, x);
      FilterCount(y => key(y) == last, s, x);
    }
  }

  /** When the keys are distinct and cover every element, the slices together
      are a permutation of `s`: every element lands in exactly one slice. */
  lemma BucketsPermutation<T, K>(s: seq<T>, key: T -> K, ks: seq<K>)
    requires NoDuplicates(ks)
    requires forall i :: 0 <= i < |s| ==> key(s[i]) in ks
    ensures multiset(Buckets(s, key, ks)) == multiset(s)
  {
    var m := multiset(Buckets(s, key, ks));
    forall x ensures m[x] == multiset(s)[x] {
      BucketsCount(s, key, ks, x);
      if x in s {
        var i :| 0 <= i < |s| && s[i] == x;
        assert key(x) in ks by { assert key(s[i]) in ks; }
      }
    }
    MultisetExtensional(m, multiset(s));
  }

  lemma AppendAssoc<T>(a: seq<T>, b: seq<T>, c: seq<T>)
    ensures (a + b) + c == a + (b + c)
  {
  }

  lemma EmptyAppend<T>(a: seq<T>)
    ensures [] + a == a
  {
  }

  lemma AppendEmpty<T>(a: seq<T>)
    ensures a + [] == a
  {
  }

  lemma MultisetExtensional<T>(a: multiset<T>, b: multiset<T>)
    requires forall x :: a[x] == b[x]
    ensures a == b
  {
  }
}
