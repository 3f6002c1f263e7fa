/** Sequence helpers shared by the backend queries and the client reducers:
    filtering, searching, the stable position sort, the "max + 1" position
    rule and offset/limit paging. */
module Seqs {
  import opened Wrappers

  /** The order-preserving subsequence of `s` whose elements satisfy `p`
      (JavaScript's `Array.prototype.filter`, the store's `find(query)`). */
  function Filter<T>(s: seq<T>, p: T -> bool): (r: seq<T>)
    ensures |r| <= |s|
    ensures forall i :: 0 <= i < |r| ==> r[i] in s && p(r[i])
    ensures forall i :: 0 <= i < |s| && p(s[i]) ==> s[i] in r
    ensures multiset(r) <= multiset(s)
  {
    if |s| == 0 then []
    else
      assert s == [s[0]] + s[1..];
      (if p(s[0]) then [s[0]] else []) + Filter(s[1..], p)
  }

  /** An element survives filtering exactly when it is in `s` and satisfies `p`. */
  lemma FilterMembers<T>(s: seq<T>, p: T -> bool)
    ensures forall x :: x in Filter(s, p) <==> x in s && p(x)
  {
    var r := Filter(s, p);
    forall x | x in s && p(x)
      ensures x in r
    {
      var i :| 0 <= i < |s| && s[i] == x;
    }
  }

  /** Filtering keeps every copy of an element that satisfies `p` and no
      copy of one that does not. */
  lemma {:induction false} FilterMultiset<T>(s: seq<T>, p: T -> bool)
    ensures forall x :: multiset(Filter(s, p))[x] == if p(x) then multiset(s)[x] else 0
  {
    if |s| > 0 {
      FilterMultiset(s[1..], p);
      assert s == [s[0]] + s[1..];
      assert multiset(s) == multiset{s[0]} + multiset(s[1..]);
    }
  }

  /** Filtering distributes over concatenation. */
  lemma {:induction false} FilterAppend<T>(a: seq<T>, b: seq<T>, p: T -> bool)
    ensures Filter(a + b, p) == Filter(a, p) + Filter(b, p)
  {
    if |a| == 0 {
      assert a + b == b;
    } else {
      assert (a + b)[1..] == a[1..] + b;
      FilterAppend(a[1..], b, p);
    }
  }

  /** When no element satisfies `p`, filtering keeps nothing; when every one
      does, it keeps everything. */
  lemma {:induction false} FilterNone<T>(s: seq<T>, p: T -> bool)
    requires forall i :: 0 <= i < |s| ==> !p(s[i])
    ensures Filter(s, p) == []
  {
    if |s| > 0 {
      FilterNone(s[1..], p);
    }
  }

  lemma {:induction false} FilterAll<T>(s: seq<T>, p: T -> bool)
    requires forall i :: 0 <= i < |s| ==> p(s[i])
    ensures Filter(s, p) == s
  {
    if |s| > 0 {
      FilterAll(s[1..], p);
      assert s == [s[0]] + s[1..];
    }
  }

  /** No two positions of `s` hold the same value. */
  predicate Distinct<T(==)>(s: seq<T>) {
    forall i, j :: 0 <= i < j < |s| ==> s[i] != s[j]
  }

  /** The first index whose element satisfies `p` (`Array.prototype.findIndex`,
      with `None` for its `-1`). */
  function IndexWhere<T>(s: seq<T>, p: T -> bool): (r: Option<nat>)
    ensures r.Some? ==> r.value < |s| && p(s[r.value])
    ensures r.Some? ==> forall j :: 0 <= j < r.value ==> !p(s[j])
    ensures r.None? ==> forall j :: 0 <= j < |s| ==> !p(s[j])
  {
    if |s| == 0 then None
    else if p(s[0]) then Some(0)
    else match IndexWhere(s[1..], p)
      case None => None
      case Some(i) => Some(i + 1)
  }

  /** The element of `s` at the first index satisfying `p`, if any
      (the store's `findById` / `findOne`). */
  function FindWhere<T>(s: seq<T>, p: T -> bool): (r: Option<T>)
    ensures r.Some? ==> r.value in s && p(r.value)
    ensures r.None? ==> forall j :: 0 <= j < |s| ==> !p(s[j])
  {
    match IndexWhere(s, p)
    case None => None
    case Some(i) => Some(s[i])
  }

  /** The last element of `s` satisfying `p`, if any. */
  function LastWhere<T(==)>(s: seq<T>, p: T -> bool): (r: Option<T>)
    ensures r.None? <==> forall k :: 0 <= k < |s| ==> !p(s[k])
    ensures r.Some? ==> exists k :: 0 <= k < |s| && s[k] == r.value && p(s[k])
                                    && forall j :: k < j < |s| ==> !p(s[j])
  {
    if |s| == 0 then None
    else
      var rest := LastWhere(s[1..], p);
      assert forall k :: 1 <= k < |s| ==> s[k] == s[1..][k - 1];
      if rest.Some? then
        var k :| 0 <= k < |s| - 1 && s[1..][k] == rest.value && p(s[1..][k])
                 && forall j :: k < j < |s| - 1 ==> !p(s[1..][j]);
        assert s[k + 1] == rest.value;
        rest
      else if p(s[0]) then Some(s[0])
      else None
  }

  /** `key` never decreases along `s`. */
  ghost predicate SortedBy<T>(s: seq<T>, key: T -> int) {
    forall i, j :: 0 <= i < j < |s| ==> key(s[i]) <= key(s[j])
  }

  /** Inserts `x` in front of the first element whose key is not smaller, so
      that `x` precedes every element with an equal key. */
  function InsertBy<T>(x: T, s: seq<T>, key: T -> int): (r: seq<T>)
    ensures multiset(r) == multiset(s) + multiset{x}
    ensures |r| == |s| + 1
  {
    if |s| == 0 || key(x) <= key(s[0]) then [x] + s
    else
      assert s == [s[0]] + s[1..];
      [s[0]] + InsertBy(x, s[1..], key)
  }

  /** Inserting into a sorted sequence keeps it sorted. */
  lemma {:induction false} InsertBySorted<T>(x: T, s: seq<T>, key: T -> int)
    requires SortedBy(s, key)
    ensures SortedBy(InsertBy(x, s, key), key)
  {
    if |s| == 0 || key(x) <= key(s[0]) {
    } else {
      InsertBySorted(x, s[1..], key);
      var t := InsertBy(x, s[1..], key);
      forall j | 0 <= j < |t|
        ensures key(s[0]) <= key(t[j])
      {
        assert t[j] in multiset(t);
        assert t[j] == x || t[j] in multiset(s[1..]);
      }
    }
  }

  /** Stable insertion sort by `key`: the order JavaScript's (stable)
      `Array.prototype.sort` produces with the comparator `key(a) - key(b)`,
      and the order this model gives the store's `sort(field)`. */
  function SortBy<T>(s: seq<T>, key: T -> int): (r: seq<T>)
    ensures SortedBy(r, key)
    ensures multiset(r) == multiset(s)
    ensures |r| == |s|
  {
    if |s| == 0 then []
    else
      assert s == [s[0]] + s[1..];
      InsertBySorted(s[0], SortBy(s[1..], key), key);
      InsertBy(s[0], SortBy(s[1..], key), key)
  }

  /** The elements of `s` whose key is `k`, in order. */
  function WithKey<T>(s: seq<T>, key: T -> int, k: int): seq<T> {
    if |s| == 0 then []
    else (if key(s[0]) == k then [s[0]] else []) + WithKey(s[1..], key, k)
  }

  lemma {:induction false} InsertByStable<T>(x: T, s: seq<T>, key: T -> int, k: int)
    ensures WithKey(InsertBy(x, s, key), key, k)
         == (if key(x) == k then [x] else []) + WithKey(s, key, k)
  {
    if |s| == 0 || key(x) <= key(s[0]) {
      assert ([x] + s)[1..] == s;
    } else {
      var t := InsertBy(x, s[1..], key);
      assert ([s[0]] + t)[1..] == t;
      InsertByStable(x, s[1..], key, k);
    }
  }

  /** Stability: among elements with equal keys the sort keeps the input
      order. Together with `SortedBy` and the multiset equation this pins the
      result down completely. */
  lemma {:induction false} SortByStable<T>(s: seq<T>, key: T -> int, k: int)
    ensures WithKey(SortBy(s, key), key, k) == WithKey(s, key, k)
  {
    if |s| > 0 {
      SortByStable(s[1..], key, k);
      InsertByStable(s[0], SortBy(s[1..], key), key, k);
    }
  }

  lemma {:induction false} InsertByDistinct<T>(x: T, s: seq<T>, key: T -> int)
    requires Distinct(s) && x !in s
    ensures Distinct(InsertBy(x, s, key))
  {
    if |s| == 0 || key(x) <= key(s[0]) {
    } else {
      InsertByDistinct(x, s[1..], key);
      var t := InsertBy(x, s[1..], key);
      assert s[0] !in s[1..];
      assert s[0] !in multiset(t);
    }
  }

  /** Sorting a sequence without repetitions yields one without repetitions. */
  lemma {:induction false} SortByDistinct<T>(s: seq<T>, key: T -> int)
    requires Distinct(s)
    ensures Distinct(SortBy(s, key))
  {
    if |s| > 0 {
      SortByDistinct(s[1..], key);
      var t := SortBy(s[1..], key);
      assert s[0] !in s[1..];
      assert s[0] !in multiset(t);
      InsertByDistinct(s[0], t, key);
    }
  }

  /** The elements of `s` satisfying `p`, ordered by `key` (a store query
      with a filter and a sort). */
  function SortedWhere<T>(s: seq<T>, p: T -> bool, key: T -> int): (r: seq<T>)
    ensures forall i :: 0 <= i < |r| ==> r[i] in s && p(r[i])
    ensures forall i :: 0 <= i < |s| && p(s[i]) ==> s[i] in r
    ensures SortedBy(r, key)
  {
    var kept := Filter(s, p);
    FilterMembers(s, p);
    SortByMembers(kept, key);
    var r := SortBy(kept, key);
    assert forall i :: 0 <= i < |r| ==> r[i] in multiset(kept);
    r
  }

  /** The position a newly created list or task receives: one more than the
      largest existing sibling position, or 0 when there is no sibling
      (`lastX ? lastX.position + 1 : 0` after a `sort('-position')`). */
  function NextPosition(ps: seq<int>): (r: int)
    ensures |ps| == 0 ==> r == 0
    ensures forall i :: 0 <= i < |ps| ==> ps[i] < r
    ensures |ps| > 0 ==> exists i :: 0 <= i < |ps| && ps[i] == r - 1
  {
    if |ps| == 0 then 0
    else
      var rest := NextPosition(ps[1..]);
      if |ps| == 1 || ps[0] + 1 >= rest then ps[0] + 1 else rest
  }

  /** `ceil(total / limit)` for a positive `limit` (`Math.ceil(total / limit)`). */
  function CeilDiv(total: nat, limit: nat): (r: nat)
    requires limit >= 1
    ensures r * limit >= total
    ensures r > 0 ==> (r - 1) * limit < total
  {
    (total + limit - 1) / limit
  }

  /** `|x|`. */
  function Abs(x: int): nat {
    if x < 0 then -x else x
  }

  /** The documents a query with `.skip(skip).limit(count)` returns from its
      full, sorted result `s`; a `count` of 0 is no limit at all. */
  function SkipLimit<T>(s: seq<T>, skip: nat, count: nat): (r: seq<T>)
    ensures skip >= |s| ==> r == []
    ensures count > 0 ==> |r| <= count
    ensures skip < |s| && (count == 0 || skip + count >= |s|) ==> |r| == |s| - skip
    ensures skip < |s| && count > 0 && skip + count <= |s| ==> |r| == count
    ensures forall i :: 0 <= i < |r| ==> skip + i < |s| && r[i] == s[skip + i]
  {
    if skip >= |s| then []
    else if count == 0 || skip + count >= |s| then s[skip..]
    else s[skip..skip + count]
  }

  /** Every element of a window comes from the windowed sequence. */
  lemma SkipLimitMembers<T>(s: seq<T>, skip: nat, count: nat)
    ensures forall i :: 0 <= i < |SkipLimit(s, skip, count)| ==> SkipLimit(s, skip, count)[i] in s
  {
    var r := SkipLimit(s, skip, count);
    forall i | 0 <= i < |r|
      ensures r[i] in s
    {
      assert r[i] == s[skip + i];
    }
  }

  /** A window of a sorted sequence is sorted. */
  lemma SkipLimitSorted<T>(s: seq<T>, skip: nat, count: nat, key: T -> int)
    requires SortedBy(s, key)
    ensures SortedBy(SkipLimit(s, skip, count), key)
  {
    if skip < |s| {
      var hi := if count == 0 || skip + count >= |s| then |s| else skip + count;
      assert SkipLimit(s, skip, count) == s[skip..hi];
      SliceSorted(s, skip, hi, key);
    }
  }

  lemma SliceSorted<T>(s: seq<T>, lo: int, hi: int, key: T -> int)
    requires 0 <= lo <= hi <= |s|
    requires SortedBy(s, key)
    ensures SortedBy(s[lo..hi], key)
  {
    forall i, j | 0 <= i < j < hi - lo
      ensures key(s[lo..hi][i]) <= key(s[lo..hi][j])
    {
      assert s[lo..hi][i] == s[lo + i] && s[lo..hi][j] == s[lo + j];
    }
  }

  /** With a positive limit, page `page >= 1` (the window after
      `(page - 1) * limit` documents) is non-empty exactly when `page` is at
      most `CeilDiv(|s|, limit)`, the page count the routes report. */
  lemma PageNonEmptyIff<T>(s: seq<T>, page: int, limit: int)
    requires page >= 1 && limit >= 1
    ensures |SkipLimit(s, (page - 1) * limit, limit)| > 0 <==> page <= CeilDiv(|s|, limit)
  {
    var n := CeilDiv(|s|, limit);
    if page <= n {
      assert (page - 1) * limit <= (n - 1) * limit by {
        MulMonotone(page - 1, n - 1, limit);
      }
    } else {
      assert n * limit <= (page - 1) * limit by {
        MulMonotone(n, page - 1, limit);
      }
    }
  }

  lemma MulMonotone(a: int, b: int, c: nat)
    requires a <= b
    ensures a * c <= b * c
  {
  }

  /** `Math.ceil(total / limit)` as the JSON response carries it: the
      quotient of a zero limit is `Infinity` or `NaN`, both sent as `null`
      (`None`); otherwise the least integer not below `total / limit`. */
  function TotalPages(total: nat, limit: int): (r: Option<int>)
    ensures r.None? <==> limit == 0
    ensures limit > 0 ==> r.Some? && r.value >= 0 && total <= r.value * limit && (r.value - 1) * limit < total
    ensures limit < 0 ==> r.Some? && r.value <= 0 && r.value * limit <= total && total < (r.value - 1) * limit
  {
    if limit == 0 then None
    else if limit > 0 then Some(CeilDiv(total, limit))
    else
      var q := total / -limit;
      assert q * -limit <= total < (q + 1) * -limit;
      Some(-q)
  }

  /** `s` with every element satisfying `p` replaced by `x` (an update by id). */
  function Replace<T>(s: seq<T>, p: T -> bool, x: T): (r: seq<T>)
    ensures |r| == |s|
    ensures forall i :: 0 <= i < |s| ==> r[i] == if p(s[i]) then x else s[i]
  {
    seq(|s|, i requires 0 <= i < |s| => if p(s[i]) then x else s[i])
  }

  /** Sorting keeps exactly the elements it was given. */
  lemma SortByMembers<T>(s: seq<T>, key: T -> int)
    ensures forall x :: x in SortBy(s, key) <==> x in s
  {
    var r := SortBy(s, key);
    forall x ensures x in r <==> x in s {
      assert x in r <==> x in multiset(r);
      assert x in s <==> x in multiset(s);
    }
  }
}
