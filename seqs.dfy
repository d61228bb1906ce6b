/**
 * Sequence operations the catalog code takes from JavaScript's Array:
 * `filter` (Keep), `find` (FirstIndex), the stable `sort` with a descending
 * numeric comparator `(a, b) => key(b) - key(a)` (SortDesc) and the
 * `sort(...).slice(0, k)` idiom (TopK).
 */
module Wrappers {
  datatype Option<+T> = None | Some(value: T)
}

module Seqs {
  import opened Wrappers

  /** `s.filter(p)`: the elements of `s` that satisfy `p`, in order. */
  function Keep<T>(s: seq<T>, p: T -> bool): (r: seq<T>)
    ensures |r| <= |s|
  {
    if s == [] then [] else (if p(s[0]) then [s[0]] else []) + Keep(s[1..], p)
  }

  /** The kept elements are exactly the elements that pass. */
  lemma {:induction false} KeepMembers<T>(s: seq<T>, p: T -> bool)
    ensures forall i :: 0 <= i < |Keep(s, p)| ==> Keep(s, p)[i] in s && p(Keep(s, p)[i])
    ensures forall i :: 0 <= i < |s| && p(s[i]) ==> s[i] in Keep(s, p)
  {
    if s != [] {
      KeepMembers(s[1..], p);
      var r := Keep(s, p);
      var t := Keep(s[1..], p);
      forall i | 0 <= i < |r| ensures r[i] in s && p(r[i]) {
        if !p(s[0]) {
          assert r[i] == t[i];
        } else if i > 0 {
          assert r[i] == t[i - 1];
        }
      }
      forall i | 0 <= i < |s| && p(s[i]) ensures s[i] in r {
        if i > 0 {
          assert s[i] == s[1..][i - 1];
        }
      }
    }
  }

  /** `a` is obtained from `b` by deleting some elements. */
  predicate IsSubseq<T(==)>(a: seq<T>, b: seq<T>)
    decreases |b|
  {
    if a == [] then true
    else if b == [] then false
    else (a[0] == b[0] && IsSubseq(a[1..], b[1..])) || IsSubseq(a, b[1..])
  }

  lemma {:induction false} KeepIsSubseq<T>(s: seq<T>, p: T -> bool)
    ensures IsSubseq(Keep(s, p), s)
  {
    if s != [] {
      KeepIsSubseq(s[1..], p);
      if !p(s[0]) {
        assert Keep(s, p) == Keep(s[1..], p);
      }
    }
  }

  lemma {:induction false} SubseqOfPrefix<T>(a: seq<T>, b: seq<T>, n: nat)
    requires IsSubseq(a, b) && n <= |a|
    ensures IsSubseq(a[..n], b)
    decreases |b|
  {
    if n > 0 {
      if a[0] == b[0] && IsSubseq(a[1..], b[1..]) {
        SubseqOfPrefix(a[1..], b[1..], n - 1);
        assert a[..n][1..] == a[1..][..n - 1];
      } else {
        SubseqOfPrefix(a, b[1..], n);
      }
    }
  }

  lemma {:induction false} KeepAppend<T>(a: seq<T>, b: seq<T>, p: T -> bool)
    ensures Keep(a + b, p) == Keep(a, p) + Keep(b, p)
  {
    if a == [] {
      assert a + b == b;
    } else {
      var ab := a + b;
      assert ab[0] == a[0];
      assert ab[1..] == a[1..] + b;
      KeepAppend(a[1..], b, p);
      var head: seq<T> := if p(a[0]) then [a[0]] else [];
      assert Keep(ab, p) == head + Keep(a[1..] + b, p);
      assert Keep(a, p) == head + Keep(a[1..], p);
    }
  }

  /** Filtering twice is filtering once by the conjunction. */
  lemma {:induction false} KeepKeep<T>(s: seq<T>, p: T -> bool, q: T -> bool, r: T -> bool)
    requires forall x :: r(x) == (p(x) && q(x))
    ensures Keep(Keep(s, p), q) == Keep(s, r)
  {
    if s != [] {
      KeepKeep(s[1..], p, q, r);
      if p(s[0]) {
        assert Keep(s, p) == [s[0]] + Keep(s[1..], p);
        assert Keep(s, p)[1..] == Keep(s[1..], p);
      } else {
        assert Keep(s, p) == Keep(s[1..], p);
      }
    }
  }

  /** Filters that agree everywhere give the same result. */
  lemma {:induction false} KeepExt<T>(s: seq<T>, p: T -> bool, q: T -> bool)
    requires forall x :: p(x) == q(x)
    ensures Keep(s, p) == Keep(s, q)
  {
    if s != [] {
      KeepExt(s[1..], p, q);
    }
  }

  /** A filter every element passes changes nothing. */
  lemma {:induction false} KeepAll<T>(s: seq<T>, p: T -> bool)
    requires forall i :: 0 <= i < |s| ==> p(s[i])
    ensures Keep(s, p) == s
  {
    if s != [] {
      KeepAll(s[1..], p);
    }
  }

  /** `s.find(p)`, as the index of the first element satisfying `p`. */
  function FirstIndex<T>(s: seq<T>, p: T -> bool): (r: Option<nat>)
    ensures r.Some? ==> r.value < |s| && p(s[r.value]) && forall j :: 0 <= j < r.value ==> !p(s[j])
    ensures r.None? ==> forall j :: 0 <= j < |s| ==> !p(s[j])
  {
    if s == [] then None
    else if p(s[0]) then Some(0)
    else match FirstIndex(s[1..], p)
      case None => None
      case Some(i) => Some(i + 1)
  }

  /** Two searches that test corresponding elements alike stop at the same index. */
  lemma {:induction false} FirstIndexAlike<T, U>(s: seq<T>, p: T -> bool, t: seq<U>, q: U -> bool)
    requires |s| == |t|
    requires forall j :: 0 <= j < |s| ==> p(s[j]) == q(t[j])
    ensures FirstIndex(s, p) == FirstIndex(t, q)
  {
    if s != [] && !p(s[0]) {
      FirstIndexAlike(s[1..], p, t[1..], q);
    }
  }

  /** Number of occurrences of `x` in `s`. */
  function Occurrences<T(==)>(s: seq<T>, x: T): nat
  {
    multiset(s)[x]
  }

  // ---------------------------------------------------------------------
  // Stable descending sort
  // ---------------------------------------------------------------------

  ghost predicate NonIncreasing<T>(s: seq<T>, key: T -> real)
  {
    forall i, j :: 0 <= i < j < |s| ==> key(s[i]) >= key(s[j])
  }

  /** Inserts `x` into a sorted sequence after every element whose key is at least `x`'s. */
  function InsertDesc<T>(x: T, s: seq<T>, key: T -> real): (r: seq<T>)
    ensures |r| == |s| + 1
    ensures r[0] == x || (s != [] && r[0] == s[0])
  {
    if s == [] then [x]
    else if key(s[0]) >= key(x) then [s[0]] + InsertDesc(x, s[1..], key)
    else [x] + s
  }

  /**
   * The result of a stable sort with comparator `key(b) - key(a)`: decreasing
   * key, elements with equal keys in their input order.
   */
  function SortDesc<T>(s: seq<T>, key: T -> real): (r: seq<T>)
    ensures |r| == |s|
    ensures s != [] ==> r[0] in s
  {
    if s == [] then [] else InsertDesc(s[|s| - 1], SortDesc(s[..|s| - 1], key), key)
  }

  lemma {:induction false} InsertDescCounts<T>(x: T, s: seq<T>, key: T -> real)
    ensures multiset(InsertDesc(x, s, key)) == multiset(s) + multiset{x}
  {
    if s != [] && key(s[0]) >= key(x) {
      InsertDescCounts(x, s[1..], key);
      assert s == [s[0]] + s[1..];
    }
  }

  lemma {:induction false} InsertDescFacts<T>(x: T, s: seq<T>, key: T -> real)
    requires NonIncreasing(s, key)
    ensures multiset(InsertDesc(x, s, key)) == multiset(s) + multiset{x}
    ensures NonIncreasing(InsertDesc(x, s, key), key)
  {
    InsertDescCounts(x, s, key);
    if s != [] && key(s[0]) >= key(x) {
      var tail := s[1..];
      assert NonIncreasing(tail, key) by {
        forall i, j | 0 <= i < j < |tail| ensures key(tail[i]) >= key(tail[j]) {
          assert tail[i] == s[i + 1] && tail[j] == s[j + 1];
        }
      }
      InsertDescFacts(x, tail, key);
      var t := InsertDesc(x, tail, key);
      InsertDescCounts(x, tail, key);
      forall i | 0 <= i < |t| ensures key(s[0]) >= key(t[i]) {
        assert t[i] in multiset(t);
        if t[i] != x {
          assert t[i] in multiset(tail);
          var m :| 0 <= m < |tail| && tail[m] == t[i];
          assert s[m + 1] == t[i];
        }
      }
      var r := [s[0]] + t;
      forall i, j | 0 <= i < j < |r| ensures key(r[i]) >= key(r[j]) {
        if i > 0 {
          assert r[i] == t[i - 1] && r[j] == t[j - 1];
        } else {
          assert r[j] == t[j - 1];
        }
      }
    }
  }

  /** The sorted sequence is a permutation of its input. */
  lemma {:induction false} SortDescPermutes<T>(s: seq<T>, key: T -> real)
    ensures multiset(SortDesc(s, key)) == multiset(s)
    ensures NonIncreasing(SortDesc(s, key), key)
  {
    if s != [] {
      var init := s[..|s| - 1];
      SortDescPermutes(init, key);
      InsertDescFacts(s[|s| - 1], SortDesc(init, key), key);
      assert s == init + [s[|s| - 1]];
    }
  }

  /** Sorting an already ordered sequence leaves it as it is. */
  lemma {:induction false} SortDescOfSorted<T>(s: seq<T>, key: T -> real)
    requires NonIncreasing(s, key)
    ensures SortDesc(s, key) == s
  {
    if s != [] {
      var init := s[..|s| - 1];
      SortDescOfSorted(init, key);
      InsertLast(s[|s| - 1], init, key);
      assert init + [s[|s| - 1]] == s;
    }
  }

  lemma {:induction false} InsertLast<T>(x: T, s: seq<T>, key: T -> real)
    requires forall i :: 0 <= i < |s| ==> key(s[i]) >= key(x)
    ensures InsertDesc(x, s, key) == s + [x]
  {
    if s != [] {
      InsertLast(x, s[1..], key);
      assert s == [s[0]] + s[1..];
    }
  }

  lemma SortDescIdempotent<T>(s: seq<T>, key: T -> real)
    ensures SortDesc(SortDesc(s, key), key) == SortDesc(s, key)
  {
    SortDescPermutes(s, key);
    SortDescOfSorted(SortDesc(s, key), key);
  }

  function KeyIs<T>(key: T -> real, k: real): T -> bool
  {
    x => key(x) == k
  }

  lemma {:induction false} KeepNoneAbove<T>(s: seq<T>, key: T -> real, k: real)
    requires forall i :: 0 <= i < |s| ==> key(s[i]) < k
    ensures Keep(s, KeyIs(key, k)) == []
  {
    if s != [] {
      KeepNoneAbove(s[1..], key, k);
    }
  }

  lemma TailNonIncreasing<T>(s: seq<T>, key: T -> real)
    requires s != [] && NonIncreasing(s, key)
    ensures NonIncreasing(s[1..], key)
    ensures forall i :: 0 <= i < |s| ==> key(s[i]) <= key(s[0])
  {
    var tail := s[1..];
    forall i, j | 0 <= i < j < |tail| ensures key(tail[i]) >= key(tail[j]) {
      assert tail[i] == s[i + 1] && tail[j] == s[j + 1];
    }
  }

  lemma {:induction false} InsertDescStable<T>(x: T, s: seq<T>, key: T -> real, k: real)
    requires NonIncreasing(s, key)
    ensures Keep(InsertDesc(x, s, key), KeyIs(key, k))
         == Keep(s, KeyIs(key, k)) + (if key(x) == k then [x] else [])
  {
    var p := KeyIs(key, k);
    var last: seq<T> := if key(x) == k then [x] else [];
    if s == [] {
      assert Keep([x], p) == last;
    } else if key(s[0]) >= key(x) {
      TailNonIncreasing(s, key);
      var rest := InsertDesc(x, s[1..], key);
      InsertDescStable(x, s[1..], key, k);
      var head: seq<T> := if p(s[0]) then [s[0]] else [];
      assert ([s[0]] + rest)[1..] == rest;
      assert Keep([s[0]] + rest, p) == head + Keep(rest, p);
      assert Keep(s, p) == head + Keep(s[1..], p);
      assert head + (Keep(s[1..], p) + last) == (head + Keep(s[1..], p)) + last;
    } else {
      TailNonIncreasing(s, key);
      assert ([x] + s)[1..] == s;
      assert Keep([x] + s, p) == last + Keep(s, p);
      if key(x) == k {
        KeepNoneAbove(s, key, k);
      }
    }
  }

  /**
   * Stability: among the elements with any one key, the sorted sequence keeps
   * the input order.
   */
  lemma {:induction false} SortDescStable<T>(s: seq<T>, key: T -> real, k: real)
    ensures Keep(SortDesc(s, key), KeyIs(key, k)) == Keep(s, KeyIs(key, k))
  {
    if s != [] {
      var p := KeyIs(key, k);
      var init, last := s[..|s| - 1], s[|s| - 1];
      var tail: seq<T> := if key(last) == k then [last] else [];
      SortDescStable(init, key, k);
      SortDescPermutes(init, key);
      InsertDescStable(last, SortDesc(init, key), key, k);
      assert Keep(SortDesc(s, key), p) == Keep(init, p) + tail;
      assert s == init + [last];
      KeepAppend(init, [last], p);
      assert [last][1..] == [];
      assert Keep([last], p) == tail;
    }
  }

  /** `sort(...).slice(0, k)`: the first `k` elements by decreasing key. */
  function TopK<T>(s: seq<T>, key: T -> real, k: nat): (r: seq<T>)
    ensures |r| == if |s| < k then |s| else k
    ensures NonIncreasing(r, key)
    ensures multiset(r) <= multiset(s)
    ensures forall i, j :: 0 <= i < |r| && 0 <= j < |s| && multiset(r)[s[j]] < multiset(s)[s[j]]
              ==> key(s[j]) <= key(r[i])
  {
    var n := if |s| < k then |s| else k;
    TopKFacts(s, key, n);
    SortDesc(s, key)[..n]
  }

  lemma TopKFacts<T>(s: seq<T>, key: T -> real, n: nat)
    requires n <= |s|
    ensures |SortDesc(s, key)| == |s|
    ensures NonIncreasing(SortDesc(s, key)[..n], key)
    ensures multiset(SortDesc(s, key)[..n]) <= multiset(s)
    ensures forall i, j :: 0 <= i < n && 0 <= j < |s|
              && multiset(SortDesc(s, key)[..n])[s[j]] < multiset(s)[s[j]]
              ==> key(s[j]) <= key(SortDesc(s, key)[i])
  {
    var sorted := SortDesc(s, key);
    SortDescPermutes(s, key);
    assert |sorted| == |multiset(sorted)| == |multiset(s)| == |s|;
    var pre, suf := sorted[..n], sorted[n..];
    assert sorted == pre + suf;
    assert multiset(sorted) == multiset(pre) + multiset(suf);
    assert NonIncreasing(pre, key) by {
      forall i, j | 0 <= i < j < |pre| ensures key(pre[i]) >= key(pre[j]) {
        assert pre[i] == sorted[i] && pre[j] == sorted[j];
      }
    }
    forall i, j | 0 <= i < n && 0 <= j < |s| && multiset(pre)[s[j]] < multiset(s)[s[j]]
      ensures key(s[j]) <= key(sorted[i])
    {
      LaterKey(sorted, key, n, i, s[j]);
    }
  }

  lemma LaterKey<T>(sorted: seq<T>, key: T -> real, n: nat, i: nat, x: T)
    requires NonIncreasing(sorted, key) && i < n <= |sorted|
    requires x in multiset(sorted[n..])
    ensures key(x) <= key(sorted[i])
  {
    var suf := sorted[n..];
    assert x in suf;
    var m :| 0 <= m < |suf| && suf[m] == x;
    assert sorted[n + m] == x;
  }
}
