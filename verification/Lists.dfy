/** Sequence helpers behind the source's `Array.prototype.filter` and `findIndex`. */
module Lists {
  import opened Wrappers

  /** `s.filter(p)`: the elements of `s` satisfying `p`, in their original order. */
  function Filter<T>(s: seq<T>, p: T -> bool): (r: seq<T>)
    ensures |r| <= |s|
    ensures forall i :: 0 <= i < |r| ==> r[i] in s && p(r[i])
    ensures forall i :: 0 <= i < |s| && p(s[i]) ==> s[i] in r
  {
    if |s| == 0 then []
    else (if p(s[0]) then [s[0]] else []) + Filter(s[1..], p)
  }

  /** The filter keeps every passing element as often as `s` holds it and drops every other one. */
  lemma {:induction false} FilterMultiset<T>(s: seq<T>, p: T -> bool)
    ensures forall x :: multiset(Filter(s, p))[x] == if p(x) then multiset(s)[x] else 0
    ensures multiset(Filter(s, p)) <= multiset(s)
  {
    if |s| > 0 {
      FilterMultiset(s[1..], p);
      assert s == [s[0]] + s[1..];
      assert multiset(s) == multiset([s[0]]) + multiset(s[1..]);
    }
  }

  /** Filtering distributes over concatenation, so it keeps the relative order of what it keeps. */
  lemma {:induction false} FilterAppend<T>(a: seq<T>, b: seq<T>, p: T -> bool)
    ensures Filter(a + b, p) == Filter(a, p) + Filter(b, p)
  {
    if |a| == 0 {
      assert a + b == b;
    } else {
      var h: seq<T> := if p(a[0]) then [a[0]] else [];
      assert (a + b)[0] == a[0];
      assert (a + b)[1..] == a[1..] + b;
      FilterAppend(a[1..], b, p);
      calc {
        Filter(a + b, p);
        h + Filter(a[1..] + b, p);
        h + (Filter(a[1..], p) + Filter(b, p));
        (h + Filter(a[1..], p)) + Filter(b, p);
      }
    }
  }

  /** The positions of `s` whose element satisfies `p`. */
  function Matches<T>(s: seq<T>, p: T -> bool): set<nat>
  {
    set i: nat | i < |s| && p(s[i])
  }

  /** The filter keeps one element per matching position. */
  lemma {:induction false} FilterCountsMatches<T>(s: seq<T>, p: T -> bool)
    ensures |Filter(s, p)| == |Matches(s, p)|
  {
    if |s| > 0 {
      var front, last := s[..|s| - 1], s[|s| - 1];
      assert s == front + [last];
      FilterAppend(front, [last], p);
      FilterCountsMatches(front, p);
      assert Filter([last], p) == if p(last) then [last] else [] by {
        assert [last][1..] == [];
      }
      if p(last) {
        assert Matches(s, p) == Matches(front, p) + {|s| - 1};
      } else {
        assert Matches(s, p) == Matches(front, p);
      }
    } else {
      assert Matches(s, p) == {};
    }
  }

  /** A filter that every element passes is the identity. */
  lemma {:induction false} FilterKeepsAll<T>(s: seq<T>, p: T -> bool)
    requires forall i :: 0 <= i < |s| ==> p(s[i])
    ensures Filter(s, p) == s
  {
    if |s| > 0 {
      FilterKeepsAll(s[1..], p);
      assert [s[0]] + s[1..] == s;
    }
  }

  /** A filter that no element passes is empty. */
  lemma {:induction false} FilterDropsAll<T>(s: seq<T>, p: T -> bool)
    requires forall i :: 0 <= i < |s| ==> !p(s[i])
    ensures Filter(s, p) == []
  {
    if |s| > 0 {
      FilterDropsAll(s[1..], p);
    }
  }

  /** Filtering by a predicate and by its negation splits `s` into two parts
      that together hold every element exactly as often as `s` does. */
  lemma {:induction false} FilterComplement<T>(s: seq<T>, p: T -> bool, q: T -> bool)
    requires forall x :: q(x) == !p(x)
    ensures |Filter(s, p)| + |Filter(s, q)| == |s|
    ensures multiset(Filter(s, p)) + multiset(Filter(s, q)) == multiset(s)
  {
    if |s| > 0 {
      FilterComplement(s[1..], p, q);
      assert s == [s[0]] + s[1..];
      assert multiset(s) == multiset([s[0]]) + multiset(s[1..]);
    }
  }

  /** Filtering depends only on which elements pass, not on how the predicate is written. */
  lemma {:induction false} FilterSamePredicate<T>(s: seq<T>, p: T -> bool, q: T -> bool)
    requires forall x :: p(x) == q(x)
    ensures Filter(s, p) == Filter(s, q)
  {
    if |s| > 0 {
      FilterSamePredicate(s[1..], p, q);
    }
  }

  /** Filtering by `p` and then by `q` is filtering once by their conjunction. */
  lemma {:induction false} FilterFilter<T>(s: seq<T>, p: T -> bool, q: T -> bool, both: T -> bool)
    requires forall x :: both(x) == (p(x) && q(x))
    ensures Filter(Filter(s, p), q) == Filter(s, both)
  {
    if |s| > 0 {
      var h: seq<T> := if p(s[0]) then [s[0]] else [];
      FilterFilter(s[1..], p, q, both);
      FilterAppend(h, Filter(s[1..], p), q);
      assert Filter(h, q) == if both(s[0]) then [s[0]] else [] by {
        if p(s[0]) {
          assert h[1..] == [];
        }
      }
    }
  }

  /** No two elements of `s` share a key. */
  ghost predicate DistinctKeys<T, K>(s: seq<T>, key: T -> K) {
    forall i, j :: 0 <= i < j < |s| ==> key(s[i]) != key(s[j])
  }

  /** Filtering never creates a duplicate key. */
  lemma {:induction false} FilterKeepsDistinct<T, K>(s: seq<T>, p: T -> bool, key: T -> K)
    requires DistinctKeys(s, key)
    ensures DistinctKeys(Filter(s, p), key)
  {
    if |s| > 0 {
      var t := Filter(s[1..], p);
      var r := Filter(s, p);
      FilterKeepsDistinct(s[1..], p, key);
      assert DistinctKeys(t, key);
      if p(s[0]) {
        assert r == [s[0]] + t;
        forall i, j | 0 <= i < j < |r| ensures key(r[i]) != key(r[j]) {
          if i == 0 {
            assert r[j] == t[j - 1];
            var m :| 0 <= m < |s[1..]| && s[1..][m] == t[j - 1];
            assert s[m + 1] == r[j];
          } else {
            assert r[i] == t[i - 1] && r[j] == t[j - 1];
          }
        }
      } else {
        assert r == t;
      }
    }
  }

  /** Replacing one element changes the filtered length by what that element
      and its replacement contribute. */
  lemma FilterLengthUpdate<T>(s: seq<T>, p: T -> bool, k: nat, x: T)
    requires k < |s|
    ensures |Filter(s[k := x], p)| ==
      |Filter(s, p)| - (if p(s[k]) then 1 else 0) + (if p(x) then 1 else 0)
  {
    var pre, post := s[..k], s[k + 1..];
    assert s == pre + [s[k]] + post;
    assert s[k := x] == pre + [x] + post;
    FilterAppend(pre + [s[k]], post, p);
    FilterAppend(pre, [s[k]], p);
    FilterAppend(pre + [x], post, p);
    FilterAppend(pre, [x], p);
  }

  /** `s.findIndex(p)`, with `None` for the source's `-1`: the position of the first element satisfying `p`. */
  function FindFirst<T>(s: seq<T>, p: T -> bool): (r: Option<nat>)
    ensures r.None? <==> forall i :: 0 <= i < |s| ==> !p(s[i])
    ensures r.Some? ==> r.value < |s| && p(s[r.value]) && forall j :: 0 <= j < r.value ==> !p(s[j])
  {
    if |s| == 0 then None
    else if p(s[0]) then Some(0)
    else match FindFirst(s[1..], p)
      case None => None
      case Some(k) => Some(k + 1)
  }

  /** `FindFirst` depends only on which positions satisfy `p`. */
  lemma FindFirstSamePattern<T>(s: seq<T>, t: seq<T>, p: T -> bool)
    requires |s| == |t|
    requires forall i :: 0 <= i < |s| ==> p(s[i]) == p(t[i])
    ensures FindFirst(s, p) == FindFirst(t, p)
  {
  }

  /** The position of the first occurrence of `x` in `s`, or `|s|` when there is none. */
  function FirstIndex<T(==)>(s: seq<T>, x: T): (k: nat)
    ensures k <= |s|
    ensures k < |s| <==> x in s
    ensures k < |s| ==> s[k] == x
    ensures forall j :: 0 <= j < k ==> s[j] != x
  {
    if |s| == 0 then 0
    else if s[0] == x then 0
    else 1 + FirstIndex(s[1..], x)
  }

  /** An element occurring in a prefix is first found at the same place in the whole sequence. */
  lemma {:induction false} FirstIndexPrefix<T>(s: seq<T>, m: nat, x: T)
    requires m <= |s| && x in s[..m]
    ensures FirstIndex(s[..m], x) == FirstIndex(s, x) < m
  {
    var p := s[..m];
    var k1 := FirstIndex(p, x);
    assert k1 < m && p[k1] == x;
    assert s[k1] == x;
    var k2 := FirstIndex(s, x);
    assert k2 <= k1;
    assert forall j :: 0 <= j < k1 ==> s[j] == p[j];
    assert k2 >= k1;
  }

  /** `Array.from(new Set(s))`: each distinct element once, in order of first occurrence. */
  function Dedup<T(==)>(s: seq<T>): (r: seq<T>)
    ensures forall i, j :: 0 <= i < j < |r| ==> r[i] != r[j]
    ensures forall i :: 0 <= i < |s| ==> s[i] in r
    ensures forall i :: 0 <= i < |r| ==> r[i] in s
    ensures forall i, j :: 0 <= i < j < |r| ==> FirstIndex(s, r[i]) < FirstIndex(s, r[j])
  {
    if |s| == 0 then []
    else
      var front, last := s[..|s| - 1], s[|s| - 1];
      assert s == front + [last];
      var d := Dedup(front);
      DedupStep(front, last, d);
      if last in d then d else d + [last]
  }

  /** The inductive step of `Dedup`: the result for `front` extended by `last`,
      when new, is the result for `front + [last]`. */
  lemma {:induction false} DedupStep<T>(front: seq<T>, last: T, d: seq<T>)
    requires forall i, j :: 0 <= i < j < |d| ==> d[i] != d[j]
    requires forall i :: 0 <= i < |front| ==> front[i] in d
    requires forall i :: 0 <= i < |d| ==> d[i] in front
    requires forall i, j :: 0 <= i < j < |d| ==> FirstIndex(front, d[i]) < FirstIndex(front, d[j])
    ensures var s, r := front + [last], if last in d then d else d + [last];
      && (forall i, j :: 0 <= i < j < |r| ==> r[i] != r[j])
      && (forall i :: 0 <= i < |s| ==> s[i] in r)
      && (forall i :: 0 <= i < |r| ==> r[i] in s)
      && (forall i, j :: 0 <= i < j < |r| ==> FirstIndex(s, r[i]) < FirstIndex(s, r[j]))
  {
    var s := front + [last];
    var r := if last in d then d else d + [last];
    assert s[..|front|] == front;
    forall i | 0 <= i < |d| ensures FirstIndex(s, d[i]) == FirstIndex(front, d[i]) < |front| {
      FirstIndexPrefix(s, |front|, d[i]);
    }
    forall i | 0 <= i < |s| ensures s[i] in r {
      if i < |front| {
        assert s[i] == front[i];
      }
    }
    forall i | 0 <= i < |r| ensures r[i] in s {
      if i < |d| {
        assert r[i] == d[i];
      }
    }
    if last !in d {
      FirstIndexLast(front, last);
      forall i, j | 0 <= i < j < |r| ensures r[i] != r[j] && FirstIndex(s, r[i]) < FirstIndex(s, r[j]) {
        assert r[i] == d[i];
        if j < |d| {
          assert r[j] == d[j];
        }
      }
    }
  }

  /** An element missing from `front` is first found right after it. */
  lemma FirstIndexLast<T>(front: seq<T>, last: T)
    requires last !in front
    ensures FirstIndex(front + [last], last) == |front|
  {
    var s := front + [last];
    assert s[|front|] == last;
    assert forall j :: 0 <= j < |front| ==> s[j] == front[j];
  }

  /** Appending an element that is new extends `Dedup` by that element. */
  lemma DedupSnoc<T>(front: seq<T>, last: T)
    requires last !in front
    ensures Dedup(front + [last]) == Dedup(front) + [last]
  {
    var s := front + [last];
    assert s[..|s| - 1] == front;
    var d := Dedup(front);
    assert last !in d by {
      forall i | 0 <= i < |d| ensures d[i] != last {
        assert d[i] in front;
      }
    }
  }

  /** A sequence without repeats is its own `Dedup`. */
  lemma {:induction false} DedupOfDistinct<T>(s: seq<T>)
    requires forall i, j :: 0 <= i < j < |s| ==> s[i] != s[j]
    ensures Dedup(s) == s
  {
    if |s| > 0 {
      var front, last := s[..|s| - 1], s[|s| - 1];
      assert s == front + [last];
      DedupOfDistinct(front);
      DedupSnoc(front, last);
    }
  }

  /** `s.slice(0, n)` for `n >= 0`: the first `n` elements, or all of `s` when it is shorter. */
  function Take<T>(s: seq<T>, n: nat): (r: seq<T>)
    ensures |r| == if n <= |s| then n else |s|
    ensures forall i :: 0 <= i < |r| ==> r[i] == s[i]
  {
    if n <= |s| then s[..n] else s
  }

  /** Taking more never changes what a smaller take showed. */
  lemma TakeGrows<T>(s: seq<T>, a: nat, b: nat)
    requires a <= b
    ensures Take(s, a) == Take(Take(s, b), a)
    ensures |Take(s, a)| <= |Take(s, b)|
  {
  }
}
