/** The three query steps the route handlers apply to a collection, given as
    the sequence of its documents in their natural order: filter, sort by a
    numeric key, skip and limit. */
module Query {

  /** `r` keeps some of the elements of `s`, in their order in `s`. */
  predicate Subsequence<T(==)>(r: seq<T>, s: seq<T>)
    decreases |s|
  {
    if |r| == 0 then true
    else if |s| == 0 then false
    else if r[0] == s[0] then Subsequence(r[1..], s[1..])
    else Subsequence(r, s[1..])
  }

  lemma {:induction false} SubsequenceLength<T>(r: seq<T>, s: seq<T>)
    requires Subsequence(r, s)
    ensures |r| <= |s|
    decreases |s|
  {
    if |r| > 0 {
      if r[0] == s[0] { SubsequenceLength(r[1..], s[1..]); }
      else { SubsequenceLength(r, s[1..]); }
    }
  }

  lemma {:induction false} SubsequenceRefl<T>(s: seq<T>)
    ensures Subsequence(s, s)
  {
    if |s| > 0 { SubsequenceRefl(s[1..]); }
  }

  /** `Array.prototype.filter`, or a query condition: exactly the elements
      that satisfy `p`, with their multiplicities, in their original order. */
  function Filter<T(==)>(s: seq<T>, p: T -> bool): (r: seq<T>)
    ensures forall i :: 0 <= i < |r| ==> p(r[i])
    ensures forall x :: x in s && p(x) ==> x in r
    ensures |r| <= |s|
  {
    if |s| == 0 then []
    else
      var rest := Filter(s[1..], p);
      if p(s[0]) then
        FilterKeep(s, p, rest);
        [s[0]] + rest
      else
        FilterDrop(s, p, rest);
        rest
  }

  /** What `Filter` promises, for `r` as a filtering of `s` by `p`. */
  predicate FilterFacts<T(==)>(r: seq<T>, s: seq<T>, p: T -> bool) {
    && (forall i :: 0 <= i < |r| ==> p(r[i]))
    && (forall x :: x in s && p(x) ==> x in r)
    && |r| <= |s|
  }

  /** The facts carry over when the head is kept. */
  lemma FilterKeep<T>(s: seq<T>, p: T -> bool, rest: seq<T>)
    requires |s| > 0 && p(s[0])
    requires FilterFacts(rest, s[1..], p)
    ensures FilterFacts([s[0]] + rest, s, p)
  {
    var r := [s[0]] + rest;
    assert s == [s[0]] + s[1..];
    assert r[1..] == rest;
  }

  /** The facts carry over when the head is dropped. */
  lemma FilterDrop<T>(s: seq<T>, p: T -> bool, rest: seq<T>)
    requires |s| > 0 && !p(s[0])
    requires FilterFacts(rest, s[1..], p)
    ensures FilterFacts(rest, s, p)
  {
    assert s == [s[0]] + s[1..];
  }

  /** The elements `Filter` keeps are those of `s` that satisfy `p`. */
  lemma {:induction false} FilterMembers<T>(s: seq<T>, p: T -> bool)
    ensures forall x :: x in Filter(s, p) <==> x in s && p(x)
  {
    if |s| > 0 {
      FilterMembers(s[1..], p);
      assert s == [s[0]] + s[1..];
    }
  }

  /** `Filter` keeps its elements in their order. */
  lemma {:induction false} FilterSubsequence<T>(s: seq<T>, p: T -> bool)
    ensures Subsequence(Filter(s, p), s)
  {
    if |s| > 0 {
      FilterSubsequence(s[1..], p);
      var rest := Filter(s[1..], p);
      if p(s[0]) {
        assert ([s[0]] + rest)[1..] == rest;
      } else {
        assert rest == [] || rest[0] != s[0];
      }
    }
  }

  /** Each element `Filter` keeps is kept as often as it occurs. */
  lemma {:induction false} FilterMultiset<T>(s: seq<T>, p: T -> bool)
    ensures forall x :: x in multiset(Filter(s, p)) ==> multiset(Filter(s, p))[x] == multiset(s)[x] && p(x)
  {
    if |s| > 0 {
      FilterMultiset(s[1..], p);
      var rest := Filter(s[1..], p);
      assert s == [s[0]] + s[1..];
      assert multiset(s) == multiset{s[0]} + multiset(s[1..]);
      if p(s[0]) {
        assert Filter(s, p) == [s[0]] + rest;
        assert multiset(Filter(s, p)) == multiset{s[0]} + multiset(rest);
        assert multiset(rest)[s[0]] == multiset(s[1..])[s[0]] by {
          if s[0] !in multiset(rest) {
            assert s[0] !in s[1..];
          }
        }
      } else {
        assert Filter(s, p) == rest;
        forall x | x in multiset(rest)
          ensures x != s[0]
        {
          var i :| 0 <= i < |rest| && rest[i] == x;
        }
      }
    }
  }

  /** Number of elements that satisfy `p`. */
  function Count<T>(s: seq<T>, p: T -> bool): (n: nat)
    ensures n <= |s|
  {
    if |s| == 0 then 0 else (if p(s[0]) then 1 else 0) + Count(s[1..], p)
  }

  lemma {:induction false} CountIsFilterLength<T>(s: seq<T>, p: T -> bool)
    ensures Count(s, p) == |Filter(s, p)|
  {
    if |s| > 0 { CountIsFilterLength(s[1..], p); }
  }

  /** A stronger condition counts no more elements. */
  lemma {:induction false} CountMonotone<T>(s: seq<T>, p: T -> bool, q: T -> bool)
    requires forall x :: p(x) ==> q(x)
    ensures Count(s, p) <= Count(s, q)
  {
    if |s| > 0 { CountMonotone(s[1..], p, q); }
  }

  predicate SortedDesc<T>(s: seq<T>, key: T -> int) {
    forall i, j :: 0 <= i < j < |s| ==> key(s[i]) >= key(s[j])
  }

  predicate SortedAsc<T>(s: seq<T>, key: T -> int) {
    forall i, j :: 0 <= i < j < |s| ==> key(s[i]) <= key(s[j])
  }

  /** Inserts `x` into a sequence sorted by descending key, in front of the
      elements whose key equals its own. */
  function Insert<T(==)>(x: T, s: seq<T>, key: T -> int): (r: seq<T>)
    requires SortedDesc(s, key)
    ensures SortedDesc(r, key)
    ensures multiset(r) == multiset(s) + multiset{x}
    ensures |r| == |s| + 1
  {
    if |s| == 0 then [x]
    else if key(x) >= key(s[0]) then [x] + s
    else
      var rest := Insert(x, s[1..], key);
      InsertBehindHead(x, s, key, rest);
      [s[0]] + rest
  }

  /** Putting the head in front of the insertion into the tail keeps the
      order when `x` goes below the head. */
  lemma InsertBehindHead<T>(x: T, s: seq<T>, key: T -> int, rest: seq<T>)
    requires |s| > 0 && SortedDesc(s, key) && key(x) < key(s[0])
    requires SortedDesc(rest, key) && multiset(rest) == multiset(s[1..]) + multiset{x}
    ensures SortedDesc([s[0]] + rest, key)
    ensures multiset([s[0]] + rest) == multiset(s) + multiset{x}
  {
    assert s == [s[0]] + s[1..];
    forall k | 0 <= k < |rest|
      ensures key(rest[k]) <= key(s[0])
    {
      assert rest[k] in multiset(rest);
      assert rest[k] == x || rest[k] in multiset(s[1..]);
      if rest[k] != x {
        var j :| 0 <= j < |s[1..]| && s[1..][j] == rest[k];
        assert s[j + 1] == rest[k];
      }
    }
    var r := [s[0]] + rest;
    forall i, j | 0 <= i < j < |r|
      ensures key(r[i]) >= key(r[j])
    {
      if i > 0 {
        assert r[i] == rest[i - 1] && r[j] == rest[j - 1];
      } else {
        assert r[j] == rest[j - 1];
      }
    }
  }

  /** `.sort('-key')`: the same elements ordered by descending key.  Elements
      with equal keys keep their collection order; the store itself promises
      nothing about ties, and the contract does not either. */
  function SortDesc<T(==)>(s: seq<T>, key: T -> int): (r: seq<T>)
    ensures SortedDesc(r, key)
    ensures multiset(r) == multiset(s)
    ensures |r| == |s|
  {
    if |s| == 0 then []
    else
      assert s == [s[0]] + s[1..];
      Insert(s[0], SortDesc(s[1..], key), key)
  }

  /** `.sort({ key: 1 })`: the same elements ordered by ascending key. */
  function SortAsc<T(==)>(s: seq<T>, key: T -> int): (r: seq<T>)
    ensures SortedAsc(r, key)
    ensures multiset(r) == multiset(s)
    ensures |r| == |s|
  {
    var r := SortDesc(s, x => -key(x));
    assert forall i, j :: 0 <= i < j < |r| ==> -key(r[i]) >= -key(r[j]);
    r
  }

  /** `.limit(n)` for n >= 0. */
  function Take<T>(s: seq<T>, n: nat): (r: seq<T>)
    ensures |r| == if n < |s| then n else |s|
    ensures r == s[..|r|]
  {
    if n < |s| then s[..n] else s
  }

  /** `.skip(n)` for n >= 0. */
  function Drop<T>(s: seq<T>, n: nat): (r: seq<T>)
    ensures |r| == if n < |s| then |s| - n else 0
    ensures r == s[|s| - |r|..]
  {
    if n < |s| then s[n..] else []
  }

  /** `.skip(k).limit(n)`: the elements at positions k, k + 1, … , at most n
      of them. */
  function Window<T>(s: seq<T>, k: nat, n: nat): (r: seq<T>)
    ensures |r| == if |s| <= k then 0 else if |s| - k < n then |s| - k else n
    ensures forall i :: 0 <= i < |r| ==> k + i < |s| && r[i] == s[k + i]
  {
    Take(Drop(s, k), n)
  }

  /** A window keeps part of the multiset. */
  lemma WindowMultiset<T>(s: seq<T>, k: nat, n: nat)
    ensures multiset(Window(s, k, n)) <= multiset(s)
  {
    var d := Drop(s, k);
    assert s == s[..|s| - |d|] + d;
    PrefixMultiset(d, |Window(s, k, n)|);
  }

  lemma WindowSortedAsc<T>(s: seq<T>, key: T -> int, k: nat, n: nat)
    requires SortedAsc(s, key)
    ensures SortedAsc(Window(s, k, n), key)
  {
    var w := Window(s, k, n);
    forall i, j | 0 <= i < j < |w|
      ensures key(w[i]) <= key(w[j])
    {
      assert w[i] == s[k + i] && w[j] == s[k + j];
    }
  }

  /** Taking a prefix of a descending sequence leaves out nothing with a
      larger key than the last element kept. */
  lemma TakeDescKeepsLargest<T>(s: seq<T>, key: T -> int, n: nat)
    requires SortedDesc(s, key)
    requires 0 < n < |s|
    ensures forall j :: n <= j < |s| ==> key(s[j]) <= key(Take(s, n)[n - 1])
  {
  }

  /** Filtering distributes over concatenation. */
  lemma {:induction false} FilterAppend<T>(a: seq<T>, b: seq<T>, p: T -> bool)
    ensures Filter(a + b, p) == Filter(a, p) + Filter(b, p)
  {
    if |a| > 0 {
      assert (a + b)[1..] == a[1..] + b;
      FilterAppend(a[1..], b, p);
    } else {
      assert a + b == b;
    }
  }

  /** The conjunction of two conditions. */
  function Both<T>(p: T -> bool, q: T -> bool): T -> bool {
    x => p(x) && q(x)
  }

  /** Two filters in a row keep what satisfies both conditions. */
  lemma {:induction false} FilterFilter<T>(s: seq<T>, p: T -> bool, q: T -> bool)
    ensures Filter(Filter(s, p), q) == Filter(s, Both(p, q))
  {
    if |s| > 0 {
      FilterFilter(s[1..], p, q);
      if p(s[0]) {
        assert Filter(s, p)[1..] == Filter(s[1..], p);
      }
    }
  }

  /** Filters by two conditions that agree everywhere give the same list. */
  lemma {:induction false} FilterSame<T>(s: seq<T>, p: T -> bool, q: T -> bool)
    requires forall x :: p(x) == q(x)
    ensures Filter(s, p) == Filter(s, q)
  {
    if |s| > 0 {
      FilterSame(s[1..], p, q);
    }
  }

  /** A condition that holds for every element keeps them all. */
  lemma {:induction false} FilterAll<T>(s: seq<T>, p: T -> bool)
    requires forall i :: 0 <= i < |s| ==> p(s[i])
    ensures Filter(s, p) == s
  {
    if |s| > 0 {
      FilterAll(s[1..], p);
      assert s == [s[0]] + s[1..];
    }
  }

  /** Filtering one more element appends it when it satisfies `p`. */
  lemma FilterSnoc<T>(s: seq<T>, x: T, p: T -> bool)
    ensures Filter(s + [x], p) == if p(x) then Filter(s, p) + [x] else Filter(s, p)
  {
    FilterAppend(s, [x], p);
    assert Filter(s, p) + [] == Filter(s, p);
  }

  /** `FilterSnoc` for a sequence given whole. */
  lemma FilterLast<T>(s: seq<T>, p: T -> bool)
    requires |s| > 0
    ensures Filter(s, p) == if p(s[|s| - 1]) then Filter(s[..|s| - 1], p) + [s[|s| - 1]] else Filter(s[..|s| - 1], p)
  {
    var front, last := s[..|s| - 1], s[|s| - 1];
    assert s == front + [last];
    FilterSnoc(front, last, p);
    if p(last) {
      assert Filter(s, p) == Filter(front, p) + [last];
    } else {
      assert Filter(s, p) == Filter(front, p);
    }
  }

  /** Filtering a sequence split at i filters the two parts. */
  lemma FilterSplit<T>(s: seq<T>, i: nat, p: T -> bool)
    requires i <= |s|
    ensures Filter(s, p) == Filter(s[..i], p) + Filter(s[i..], p)
  {
    assert s == s[..i] + s[i..];
    FilterAppend(s[..i], s[i..], p);
  }

  /** A prefix keeps part of the multiset. */
  lemma PrefixMultiset<T>(s: seq<T>, k: nat)
    requires k <= |s|
    ensures multiset(s[..k]) <= multiset(s)
  {
    assert s == s[..k] + s[k..];
  }

  /** What a prefix of a descending sequence leaves out is no larger than its
      last element. */
  lemma {:induction false} TakeDescOmits<T>(s: seq<T>, key: T -> int, n: nat, x: T)
    requires SortedDesc(s, key)
    requires 0 < n && x in s && x !in Take(s, n)
    ensures |Take(s, n)| == n && key(x) <= key(Take(s, n)[n - 1])
  {
    var j :| 0 <= j < |s| && s[j] == x;
    assert j >= |Take(s, n)|;
    TakeDescKeepsLargest(s, key, n);
  }

  /** Every element of a prefix of the sorted selection satisfies `p` and
      comes from `s`. */
  lemma TopDescElements<T>(s: seq<T>, p: T -> bool, key: T -> int, n: nat)
    ensures var r := Take(SortDesc(Filter(s, p), key), n);
      forall i :: 0 <= i < |r| ==> p(r[i]) && r[i] in s
  {
    var f := Filter(s, p);
    FilterMembers(s, p);
    var sorted := SortDesc(f, key);
    var r := Take(sorted, n);
    forall i | 0 <= i < |r|
      ensures p(r[i]) && r[i] in s
    {
      assert r[i] == sorted[i];
      assert r[i] in multiset(f);
    }
  }

  /** The sorted selection's prefix is ordered, has the length the limit
      allows and is part of the selection (all of it when the limit allows). */
  lemma TopDescCounts<T>(s: seq<T>, p: T -> bool, key: T -> int, n: nat)
    ensures var f := Filter(s, p);
      var r := Take(SortDesc(f, key), n);
      && |r| == (if |f| < n then |f| else n)
      && SortedDesc(r, key)
      && multiset(r) <= multiset(f)
      && (|f| <= n ==> multiset(r) == multiset(f))
  {
    var f := Filter(s, p);
    var sorted := SortDesc(f, key);
    var r := Take(sorted, n);
    PrefixMultiset(sorted, |r|);
    forall i, j | 0 <= i < j < |r|
      ensures key(r[i]) >= key(r[j])
    {
      assert r[i] == sorted[i] && r[j] == sorted[j];
    }
    if |f| <= n {
      assert r == sorted;
    }
  }

  /** What the limit drops has no larger key than the last element kept. */
  lemma TopDescOmits<T>(s: seq<T>, p: T -> bool, key: T -> int, n: nat)
    ensures var r := Take(SortDesc(Filter(s, p), key), n);
      forall x :: 0 < n && x in s && p(x) && x !in r ==> |r| == n && key(x) <= key(r[n - 1])
  {
    var f := Filter(s, p);
    var sorted := SortDesc(f, key);
    forall x | 0 < n && x in s && p(x) && x !in Take(sorted, n)
      ensures |Take(sorted, n)| == n && key(x) <= key(Take(sorted, n)[n - 1])
    {
      assert x in multiset(sorted);
      TakeDescOmits(sorted, key, n, x);
    }
  }

  /** `.find(p).sort(-key).limit(n)`: the at most n elements satisfying `p`
      with the largest keys, largest first. */
  function TopDesc<T(==)>(s: seq<T>, p: T -> bool, key: T -> int, n: nat): (r: seq<T>)
    ensures |r| == if |Filter(s, p)| < n then |Filter(s, p)| else n
    ensures forall i :: 0 <= i < |r| ==> p(r[i]) && r[i] in s
    ensures SortedDesc(r, key)
    ensures multiset(r) <= multiset(Filter(s, p))
    ensures |Filter(s, p)| <= n ==> multiset(r) == multiset(Filter(s, p))
    ensures forall x :: 0 < n && x in s && p(x) && x !in r ==> |r| == n && key(x) <= key(r[n - 1])
  {
    TopDescCounts(s, p, key, n);
    TopDescElements(s, p, key, n);
    TopDescOmits(s, p, key, n);
    Take(SortDesc(Filter(s, p), key), n)
  }
}
