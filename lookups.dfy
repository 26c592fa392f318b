/** The search shapes the directory modules share: order-preserving
    filters (list comprehensions), first-match searches (a `for` loop that
    returns on the first hit), the nearest-candidate scan (a loop that keeps
    the best so far under a strict `<`), and counting by key (a dictionary
    updated with `counts.get(k, 0) + 1`). */
module Lookups {
  import opened Wrappers

  // ---------------------------------------------------------------------
  // Filters
  // ---------------------------------------------------------------------

  /** `[x for x in xs if p(x)]`. */
  function Filter<T>(xs: seq<T>, p: T -> bool): (r: seq<T>)
    ensures |r| <= |xs|
    ensures forall i :: 0 <= i < |r| ==> r[i] in xs && p(r[i])
    ensures forall i :: 0 <= i < |xs| && p(xs[i]) ==> xs[i] in r
  {
    if xs == [] then []
    else (if p(xs[0]) then [xs[0]] else []) + Filter(xs[1..], p)
  }

  /** Filtering keeps the original order: it distributes over
      concatenation. */
  lemma {:induction false} FilterConcat<T>(xs: seq<T>, ys: seq<T>, p: T -> bool)
    ensures Filter(xs + ys, p) == Filter(xs, p) + Filter(ys, p)
  {
    if xs == [] {
      assert xs + ys == ys;
    } else {
      assert (xs + ys)[1..] == xs[1..] + ys;
      FilterConcat(xs[1..], ys, p);
    }
  }

  /** Filtering a list extended at the back extends the filter by that
      element when it passes. */
  lemma FilterSnoc<T>(xs: seq<T>, x: T, p: T -> bool)
    ensures Filter(xs + [x], p) == Filter(xs, p) + (if p(x) then [x] else [])
  {
    FilterConcat(xs, [x], p);
    assert [x][1..] == [];
  }

  /** A filter and the filter on the negated test split the list: together
      they hold every element exactly as often as the list does. */
  lemma {:induction false} FilterPartition<T>(xs: seq<T>, p: T -> bool, q: T -> bool)
    requires forall x :: q(x) == !p(x)
    ensures |Filter(xs, p)| + |Filter(xs, q)| == |xs|
    ensures multiset(Filter(xs, p)) + multiset(Filter(xs, q)) == multiset(xs)
  {
    if xs != [] {
      FilterPartition(xs[1..], p, q);
      assert xs == [xs[0]] + xs[1..];
    }
  }

  /** Filters with the same test on every element agree. */
  lemma {:induction false} FilterExtensional<T>(xs: seq<T>, p: T -> bool, q: T -> bool)
    requires forall x :: x in xs ==> p(x) == q(x)
    ensures Filter(xs, p) == Filter(xs, q)
  {
    if xs != [] {
      FilterExtensional(xs[1..], p, q);
    }
  }

  /** Filtering twice is filtering once on both tests. */
  lemma {:induction false} FilterFilter<T>(xs: seq<T>, p: T -> bool, q: T -> bool, pq: T -> bool)
    requires forall x :: pq(x) == (p(x) && q(x))
    ensures Filter(Filter(xs, p), q) == Filter(xs, pq)
  {
    if xs != [] {
      FilterFilter(xs[1..], p, q, pq);
      FilterConcat(if p(xs[0]) then [xs[0]] else [], Filter(xs[1..], p), q);
    }
  }

  /** A filter every element passes keeps the whole list. */
  lemma {:induction false} FilterAll<T>(xs: seq<T>, p: T -> bool)
    requires forall x :: x in xs ==> p(x)
    ensures Filter(xs, p) == xs
  {
    if xs != [] {
      FilterAll(xs[1..], p);
    }
  }

  /** A filter no element passes keeps nothing. */
  lemma {:induction false} FilterNone<T>(xs: seq<T>, p: T -> bool)
    requires forall x :: x in xs ==> !p(x)
    ensures Filter(xs, p) == []
  {
    if xs != [] {
      FilterNone(xs[1..], p);
    }
  }

  /** `[f(x) for x in xs]`. */
  function Map<T, U>(xs: seq<T>, f: T -> U): (r: seq<U>)
    ensures |r| == |xs|
    ensures forall i :: 0 <= i < |xs| ==> r[i] == f(xs[i])
  {
    seq(|xs|, i requires 0 <= i < |xs| => f(xs[i]))
  }

  // ---------------------------------------------------------------------
  // First match
  // ---------------------------------------------------------------------

  /** The position where `for x in xs: if p(x): return x` returns. */
  function FirstIndex<T>(xs: seq<T>, p: T -> bool): (r: Option<nat>)
    ensures r.Some? ==> r.value < |xs| && p(xs[r.value])
    ensures r.Some? ==> forall j :: 0 <= j < r.value ==> !p(xs[j])
    ensures r.None? ==> forall j :: 0 <= j < |xs| ==> !p(xs[j])
  {
    if xs == [] then None
    else if p(xs[0]) then Some(0)
    else match FirstIndex(xs[1..], p)
      case None => None
      case Some(i) => Some(i + 1)
  }

  /** The element at `FirstIndex`, or `None`. */
  function First<T>(xs: seq<T>, p: T -> bool): (r: Option<T>)
    ensures r.Some? <==> exists i :: 0 <= i < |xs| && p(xs[i])
    ensures r.Some? ==> r.value in xs && p(r.value)
  {
    match FirstIndex(xs, p)
    case None => None
    case Some(i) => Some(xs[i])
  }

  /** A search that stops at the first hit `k` returns `xs[k]`. */
  lemma FirstAt<T>(xs: seq<T>, p: T -> bool, k: nat)
    requires k < |xs| && p(xs[k])
    requires forall j :: 0 <= j < k ==> !p(xs[j])
    ensures FirstIndex(xs, p) == Some(k) && First(xs, p) == Some(xs[k])
  {
    var i := FirstIndex(xs, p).value;
    assert !(i < k) && !(k < i);
  }

  /** A search that finds no hit returns nothing. */
  lemma FirstNone<T>(xs: seq<T>, p: T -> bool)
    requires forall j :: 0 <= j < |xs| ==> !p(xs[j])
    ensures First(xs, p) == None
  {
  }

  /** The first match is the head of the filtered list. */
  lemma {:induction false} FirstIsHeadOfFilter<T>(xs: seq<T>, p: T -> bool)
    ensures First(xs, p) == if Filter(xs, p) == [] then None else Some(Filter(xs, p)[0])
  {
    if xs != [] && !p(xs[0]) {
      FirstIsHeadOfFilter(xs[1..], p);
    }
  }

  /** The position of the last element satisfying `p`: the entry a
      dictionary comprehension `{key(x): x for x in xs}` keeps for a key. */
  function LastIndex<T>(xs: seq<T>, p: T -> bool): (r: Option<nat>)
    ensures r.Some? ==> r.value < |xs| && p(xs[r.value])
    ensures r.Some? ==> forall j :: r.value < j < |xs| ==> !p(xs[j])
    ensures r.None? ==> forall j :: 0 <= j < |xs| ==> !p(xs[j])
  {
    if xs == [] then None
    else if p(xs[|xs| - 1]) then Some(|xs| - 1)
    else LastIndex(xs[..|xs| - 1], p)
  }

  /** When at most one element satisfies `p`, the first and the last match
      coincide. */
  lemma FirstIsLastWhenUnique<T>(xs: seq<T>, p: T -> bool)
    requires forall i, j :: 0 <= i < j < |xs| && p(xs[i]) ==> !p(xs[j])
    ensures FirstIndex(xs, p) == LastIndex(xs, p)
  {
    match FirstIndex(xs, p)
    case None =>
    case Some(i) =>
      var l := LastIndex(xs, p).value;
      assert !(i < l) && !(l < i);
  }

  // ---------------------------------------------------------------------
  // Nearest candidate
  // ---------------------------------------------------------------------

  /** `i` is where a scan keeping the best so far under a strict `<` ends:
      a minimal key, and strictly smaller than every key before it. */
  predicate IsFirstMin(keys: seq<real>, i: nat)
  {
    && i < |keys|
    && (forall j :: 0 <= j < |keys| ==> keys[i] <= keys[j])
    && (forall j :: 0 <= j < i ==> keys[i] < keys[j])
  }

  /** There is exactly one such position. */
  lemma FirstMinUnique(keys: seq<real>, i: nat, k: nat)
    requires IsFirstMin(keys, i) && IsFirstMin(keys, k)
    ensures i == k
  {
    var atI, atK := keys[i], keys[k];
    assert i < k ==> atK < atI;
    assert k < i ==> atI < atK;
  }

  /** The position of the first minimal key, computed from the left. */
  function FirstMinIndex(keys: seq<real>): (i: nat)
    requires |keys| > 0
    ensures IsFirstMin(keys, i)
  {
    if |keys| == 1 then 0
    else
      var j := FirstMinIndex(keys[..|keys| - 1]);
      if keys[|keys| - 1] < keys[j] then |keys| - 1 else j
  }

  /** The scan itself, over precomputed keys:
      `best = keys[0]; for each later key: if key < best: take it`. */
  method ScanFirstMin(keys: seq<real>) returns (best: nat)
    requires |keys| > 0
    ensures IsFirstMin(keys, best)
    ensures best == FirstMinIndex(keys)
  {
    best := 0;
    var i := 1;
    while i < |keys|
      invariant 1 <= i <= |keys|
      invariant IsFirstMin(keys[..i], best)
    {
      if keys[i] < keys[best] {
        best := i;
      }
      i := i + 1;
    }
    assert keys[..i] == keys;
    FirstMinUnique(keys, best, FirstMinIndex(keys));
  }

  // ---------------------------------------------------------------------
  // Dictionaries built by assignment
  // ---------------------------------------------------------------------

  /** The dictionary `d` after `for k, v in entries: d[k] = v` from empty:
      a later assignment to a key overwrites an earlier one. */
  function DictOf<K, V>(entries: seq<(K, V)>): map<K, V>
  {
    if entries == [] then map[]
    else
      var last := entries[|entries| - 1];
      DictOf(entries[..|entries| - 1])[last.0 := last.1]
  }

  /** Every key assigned is present, with a value some assignment to it
      gave. */
  lemma {:induction false} DictOfSpec<K, V>(entries: seq<(K, V)>)
    ensures forall i :: 0 <= i < |entries| ==> entries[i].0 in DictOf(entries)
    ensures forall k :: k in DictOf(entries) ==>
      exists i :: 0 <= i < |entries| && entries[i].0 == k && DictOf(entries)[k] == entries[i].1
  {
    if entries != [] {
      var n := |entries| - 1;
      var front := entries[..n];
      DictOfSpec(front);
      forall k | k in DictOf(entries)
        ensures exists i :: 0 <= i < |entries| && entries[i].0 == k && DictOf(entries)[k] == entries[i].1
      {
        if k != entries[n].0 {
          var i :| 0 <= i < |front| && front[i].0 == k && DictOf(front)[k] == front[i].1;
          assert entries[i] == front[i];
        }
      }
      forall i | 0 <= i < |entries|
        ensures entries[i].0 in DictOf(entries)
      {
        if i < n {
          assert entries[i] == front[i];
        }
      }
    }
  }

  /** Assignment `i` is the last one to key `k`. */
  ghost predicate LastAssignment<K, V>(entries: seq<(K, V)>, k: K, i: nat)
  {
    i < |entries| && entries[i].0 == k && forall j :: i < j < |entries| ==> entries[j].0 != k
  }

  /** A key holds the value of the last assignment to it. */
  lemma {:induction false} DictOfLast<K, V>(entries: seq<(K, V)>, k: K)
    requires k in DictOf(entries)
    ensures exists i: nat :: LastAssignment(entries, k, i) && DictOf(entries)[k] == entries[i].1
  {
    var n := |entries| - 1;
    if entries[n].0 == k {
      assert LastAssignment(entries, k, n);
    } else {
      var front := entries[..n];
      DictOfLast(front, k);
      var i: nat :| LastAssignment(front, k, i) && DictOf(front)[k] == front[i].1;
      assert LastAssignment(entries, k, i);
    }
  }

  lemma DictOfAppend<K, V>(entries: seq<(K, V)>, e: (K, V))
    ensures DictOf(entries + [e]) == DictOf(entries)[e.0 := e.1]
  {
    assert (entries + [e])[..|entries|] == entries;
  }

  // ---------------------------------------------------------------------
  // Counting by key
  // ---------------------------------------------------------------------

  /** How many entries of `xs` equal `k`. */
  function Occurrences<T(==)>(xs: seq<T>, k: T): (n: nat)
    ensures n <= |xs|
    ensures n > 0 <==> k in xs
  {
    if xs == [] then 0 else (if xs[0] == k then 1 else 0) + Occurrences(xs[1..], k)
  }

  lemma {:induction false} OccurrencesAppend<T>(xs: seq<T>, x: T, k: T)
    ensures Occurrences(xs + [x], k) == Occurrences(xs, k) + (if x == k then 1 else 0)
  {
    if xs != [] {
      assert (xs + [x])[1..] == xs[1..] + [x];
      OccurrencesAppend(xs[1..], x, k);
    }
  }

  /** The keys of an insertion-ordered dictionary held as a list of pairs. */
  function Keys<K, V>(entries: seq<(K, V)>): (ks: seq<K>)
    ensures |ks| == |entries|
    ensures forall i :: 0 <= i < |entries| ==> ks[i] == entries[i].0
  {
    seq(|entries|, i requires 0 <= i < |entries| => entries[i].0)
  }

  predicate DistinctKeys<K(==), V>(entries: seq<(K, V)>)
  {
    forall i, j :: 0 <= i < j < |entries| ==> entries[i].0 != entries[j].0
  }

  /** `sum(counts.values())`. */
  function Total<K>(entries: seq<(K, nat)>): nat
  {
    if entries == [] then 0 else Total(entries[..|entries| - 1]) + entries[|entries| - 1].1
  }

  lemma {:induction false} TotalAppend<K>(entries: seq<(K, nat)>, e: (K, nat))
    ensures Total(entries + [e]) == Total(entries) + e.1
  {
    assert (entries + [e])[..|entries|] == entries;
  }

  /** Replacing one entry's count changes the total by the difference. */
  lemma {:induction false} TotalUpdate<K>(entries: seq<(K, nat)>, i: nat, e: (K, nat))
    requires i < |entries|
    ensures Total(entries[i := e]) + entries[i].1 == Total(entries) + e.1
    decreases |entries|
  {
    var last := |entries| - 1;
    if i < last {
      assert entries[i := e][..last] == entries[..last][i := e];
      TotalUpdate(entries[..last], i, e);
    } else {
      assert entries[i := e][..last] == entries[..last];
    }
  }

  /** Every key listed has its number of occurrences in `xs`. */
  predicate CountsOf<K(==)>(entries: seq<(K, nat)>, xs: seq<K>)
  {
    && DistinctKeys(entries)
    && (forall i :: 0 <= i < |entries| ==> entries[i].1 == Occurrences(xs, entries[i].0))
    && (forall i :: 0 <= i < |xs| ==> xs[i] in Keys(entries))
    && (forall i :: 0 <= i < |entries| ==> entries[i].0 in xs)
  }

  /** `counts[k] = counts.get(k, 0) + 1` on an insertion-ordered
      dictionary: an existing key keeps its place, a new key goes last. */
  function Increment<K(==)>(counts: seq<(K, nat)>, k: K): (r: seq<(K, nat)>)
  {
    match FirstIndex(Keys(counts), (key: K) => key == k)
    case None => counts + [(k, 1)]
    case Some(i) => counts[i := (k, counts[i].1 + 1)]
  }

  /** Incrementing the count of the next key keeps the counts exact. */
  lemma IncrementCounts<K>(counts: seq<(K, nat)>, xs: seq<K>, k: K)
    requires CountsOf(counts, xs)
    ensures CountsOf(Increment(counts, k), xs + [k])
    ensures Total(Increment(counts, k)) == Total(counts) + 1
  {
    match FirstIndex(Keys(counts), (key: K) => key == k)
    case None =>
      TotalAppend(counts, (k, 1));
      IncrementNew(counts, xs, k);
    case Some(i) =>
      TotalUpdate(counts, i, (k, counts[i].1 + 1));
      IncrementExisting(counts, xs, k, i);
  }

  lemma IncrementNew<K>(counts: seq<(K, nat)>, xs: seq<K>, k: K)
    requires CountsOf(counts, xs) && k !in Keys(counts)
    ensures CountsOf(counts + [(k, 1)], xs + [k])
  {
    var r := counts + [(k, 1)];
    forall i | 0 <= i < |r| ensures r[i].1 == Occurrences(xs + [k], r[i].0)
    {
      OccurrencesAppend(xs, k, r[i].0);
      if i < |counts| {
        assert r[i].0 == Keys(counts)[i];
      } else {
        assert k !in xs;
      }
    }
    assert Keys(r) == Keys(counts) + [k];
  }

  lemma IncrementExisting<K>(counts: seq<(K, nat)>, xs: seq<K>, k: K, i: nat)
    requires CountsOf(counts, xs) && i < |counts| && counts[i].0 == k
    ensures CountsOf(counts[i := (k, counts[i].1 + 1)], xs + [k])
  {
    var r := counts[i := (k, counts[i].1 + 1)];
    forall j | 0 <= j < |r| ensures r[j].1 == Occurrences(xs + [k], r[j].0)
    {
      OccurrencesAppend(xs, k, r[j].0);
      if j != i {
        assert r[j] == counts[j];
      }
    }
    assert Keys(r) == Keys(counts);
  }

  /** `for x in xs: counts[x] = counts.get(x, 0) + 1`. The counts list
      every key of `xs` once, each with its number of occurrences, and they
      add up to the length of `xs`. */
  method CountByKey<K(==)>(xs: seq<K>) returns (counts: seq<(K, nat)>)
    ensures CountsOf(counts, xs)
    ensures Total(counts) == |xs|
  {
    counts := [];
    var n := 0;
    while n < |xs|
      invariant n <= |xs|
      invariant CountsOf(counts, xs[..n])
      invariant Total(counts) == n
    {
      assert xs[..n + 1] == xs[..n] + [xs[n]];
      IncrementCounts(counts, xs[..n], xs[n]);
      counts := Increment(counts, xs[n]);
      n := n + 1;
    }
    assert xs[..n] == xs;
  }

  /** The count listed for a key in a counts list. */
  function CountFor<K(==)>(entries: seq<(K, nat)>, k: K): (n: nat)
  {
    match FirstIndex(Keys(entries), (key: K) => key == k)
    case None => 0
    case Some(i) => entries[i].1
  }

  /** Looking a key up in the counts gives its number of occurrences, 0 for a
      key that never occurs. */
  lemma CountForIsOccurrences<K>(entries: seq<(K, nat)>, xs: seq<K>, k: K)
    requires CountsOf(entries, xs)
    ensures CountFor(entries, k) == Occurrences(xs, k)
  {
    match FirstIndex(Keys(entries), (key: K) => key == k)
    case None =>
      assert k !in Keys(entries);
    case Some(i) =>
  }
}
