/** Sequence vocabulary: subsequences, `Array.prototype.filter`, sums and
    the stable sort that `Array.prototype.sort` performs with a numeric
    comparator `(a, b) => key(a) - key(b)`. */
module Seqs {

  /** `t` is a subsequence of `s` (same order, gaps allowed). */
  predicate IsSubseq<T(==)>(t: seq<T>, s: seq<T>)
    decreases |s|
  {
    if |t| == 0 then true
    else if |s| == 0 then false
    else (t[|t| - 1] == s[|s| - 1] && IsSubseq(t[..|t| - 1], s[..|s| - 1]))
         || IsSubseq(t, s[..|s| - 1])
  }

  lemma {:induction false} SubseqOfExtension<T>(t: seq<T>, s: seq<T>, x: T)
    requires IsSubseq(t, s)
    ensures IsSubseq(t, s + [x])
  {
    if |t| > 0 {
      assert (s + [x])[..|s + [x]| - 1] == s;
    }
  }

  lemma {:induction false} SubseqAppend<T>(t: seq<T>, s: seq<T>, x: T)
    requires IsSubseq(t, s)
    ensures IsSubseq(t + [x], s + [x])
  {
    assert (t + [x])[..|t + [x]| - 1] == t;
    assert (s + [x])[..|s + [x]| - 1] == s;
  }

  lemma {:induction false} SubseqReflexive<T>(s: seq<T>)
    ensures IsSubseq(s, s)
    decreases |s|
  {
    if |s| > 0 {
      SubseqReflexive(s[..|s| - 1]);
      SubseqAppend(s[..|s| - 1], s[..|s| - 1], s[|s| - 1]);
      assert s[..|s| - 1] + [s[|s| - 1]] == s;
    }
  }

  /** `s.filter(p)`. */
  function Select<T>(s: seq<T>, p: T -> bool): seq<T>
  {
    if |s| == 0 then []
    else Select(s[..|s| - 1], p) + (if p(s[|s| - 1]) then [s[|s| - 1]] else [])
  }

  /** What `filter` promises: exactly the elements satisfying `p`, in
      their original order. */
  lemma {:induction false} SelectMeaning<T>(s: seq<T>, p: T -> bool)
    ensures forall x :: x in Select(s, p) <==> x in s && p(x)
    ensures IsSubseq(Select(s, p), s)
  {
    if |s| > 0 {
      var init, last := s[..|s| - 1], s[|s| - 1];
      assert s == init + [last];
      SelectMeaning(init, p);
      if p(last) {
        assert Select(s, p) == Select(init, p) + [last];
        SubseqAppend(Select(init, p), init, last);
      } else {
        assert Select(s, p) == Select(init, p);
        SubseqOfExtension(Select(init, p), init, last);
      }
    }
  }

  lemma ConcatAssoc<T>(a: seq<T>, b: seq<T>, c: seq<T>)
    ensures a + b + c == a + (b + c)
  {
  }

  function Sum(s: seq<int>): int
  {
    if |s| == 0 then 0 else Sum(s[..|s| - 1]) + s[|s| - 1]
  }

  // ---------------------------------------------------------------------
  // Stable sort by an integer key

  ghost predicate SortedBy<T>(s: seq<T>, key: T -> int)
  {
    forall i, j :: 0 <= i < j < |s| ==> key(s[i]) <= key(s[j])
  }

  /** Inserts `x` in front of the first element whose key is not smaller,
      so that `x` stays ahead of the elements with an equal key. */
  function InsertBy<T>(x: T, s: seq<T>, key: T -> int): (r: seq<T>)
    ensures |r| == |s| + 1
  {
    if |s| == 0 || key(x) <= key(s[0]) then [x] + s
    else [s[0]] + InsertBy(x, s[1..], key)
  }

  function SortBy<T>(s: seq<T>, key: T -> int): (r: seq<T>)
    ensures |r| == |s|
  {
    if |s| == 0 then [] else InsertBy(s[0], SortBy(s[1..], key), key)
  }

  /** The elements of `s` with key `k`, in their order in `s`. */
  function WithKey<T>(s: seq<T>, key: T -> int, k: int): seq<T>
  {
    if |s| == 0 then []
    else (if key(s[0]) == k then [s[0]] else []) + WithKey(s[1..], key, k)
  }

  lemma InsertSorted<T>(x: T, s: seq<T>, key: T -> int)
    requires SortedBy(s, key)
    ensures SortedBy(InsertBy(x, s, key), key)
    ensures multiset(InsertBy(x, s, key)) == multiset(s) + multiset{x}
  {
    InsertOrdered(x, s, key);
    InsertBag(x, s, key);
  }

  lemma {:induction false} InsertBag<T>(x: T, s: seq<T>, key: T -> int)
    ensures multiset(InsertBy(x, s, key)) == multiset(s) + multiset{x}
  {
    if |s| > 0 && key(x) > key(s[0]) {
      InsertBag(x, s[1..], key);
      assert s == [s[0]] + s[1..];
    }
  }

  lemma {:induction false} InsertOrdered<T>(x: T, s: seq<T>, key: T -> int)
    requires SortedBy(s, key)
    ensures SortedBy(InsertBy(x, s, key), key)
  {
    if |s| == 0 || key(x) <= key(s[0]) {
      forall z | z in s ensures key(x) <= key(z) {
        var j :| 0 <= j < |s| && s[j] == z;
        assert key(s[0]) <= key(s[j]);
      }
      SortedCons(x, s, key);
    } else {
      var t := s[1..];
      assert SortedBy(t, key) by {
        assert forall i :: 0 <= i < |t| ==> t[i] == s[i + 1];
      }
      InsertOrdered(x, t, key);
      InsertBag(x, t, key);
      var r := InsertBy(x, t, key);
      forall z | z in r ensures key(s[0]) <= key(z) {
        assert z in multiset(r);
        if z != x {
          assert z in multiset(t);
          var j :| 0 <= j < |t| && t[j] == z;
          assert t[j] == s[j + 1];
        }
      }
      SortedCons(s[0], r, key);
    }
  }

  /** An element no larger than all of a sorted sequence can go in front. */
  lemma SortedCons<T>(y: T, t: seq<T>, key: T -> int)
    requires SortedBy(t, key)
    requires forall z :: z in t ==> key(y) <= key(z)
    ensures SortedBy([y] + t, key)
  {
    var u := [y] + t;
    forall i, j | 0 <= i < j < |u| ensures key(u[i]) <= key(u[j]) {
      assert u[j] == t[j - 1];
      if i > 0 {
        assert u[i] == t[i - 1];
      } else {
        assert t[j - 1] in t;
      }
    }
  }

  /** `WithKey` of a sequence with a given first element. */
  lemma WithKeyCons<T>(y: T, t: seq<T>, key: T -> int, k: int)
    ensures WithKey([y] + t, key, k) == (if key(y) == k then [y] else []) + WithKey(t, key, k)
  {
    assert ([y] + t)[1..] == t;
  }

  lemma {:induction false} InsertWithKey<T>(x: T, s: seq<T>, key: T -> int, k: int)
    ensures WithKey(InsertBy(x, s, key), key, k)
         == (if key(x) == k then [x] else []) + WithKey(s, key, k)
  {
    if |s| == 0 || key(x) <= key(s[0]) {
      WithKeyCons(x, s, key, k);
    } else {
      var t := s[1..];
      var hx := if key(x) == k then [x] else [];
      var h0 := if key(s[0]) == k then [s[0]] else [];
      InsertWithKey(x, t, key, k);
      WithKeyCons(s[0], InsertBy(x, t, key), key, k);
      assert WithKey(s, key, k) == h0 + WithKey(t, key, k);
      assert hx == [] || h0 == [];
      assert h0 + (hx + WithKey(t, key, k)) == hx + (h0 + WithKey(t, key, k));
    }
  }

  /** `SortBy` is a sort: ordered by key and a permutation of its input. */
  lemma {:induction false} SortByIsSort<T>(s: seq<T>, key: T -> int)
    ensures SortedBy(SortBy(s, key), key)
    ensures multiset(SortBy(s, key)) == multiset(s)
  {
    if |s| > 0 {
      var r := SortBy(s[1..], key);
      SortByIsSort(s[1..], key);
      InsertSorted(s[0], r, key);
      assert SortBy(s, key) == InsertBy(s[0], r, key);
      assert multiset(s) == multiset(s[1..]) + multiset{s[0]} by {
        assert s == [s[0]] + s[1..];
      }
    }
  }

  /** `SortBy` is stable: the elements sharing a key keep their relative order. */
  lemma {:induction false} SortByIsStable<T>(s: seq<T>, key: T -> int, k: int)
    ensures WithKey(SortBy(s, key), key, k) == WithKey(s, key, k)
  {
    if |s| > 0 {
      SortByIsStable(s[1..], key, k);
      InsertWithKey(s[0], SortBy(s[1..], key), key, k);
    }
  }

  /** Sorting an already ordered sequence leaves it unchanged, so sorting twice
      is sorting once. */
  lemma {:induction false} SortBySortedIsIdentity<T>(s: seq<T>, key: T -> int)
    requires SortedBy(s, key)
    ensures SortBy(s, key) == s
  {
    if |s| > 0 {
      SortBySortedIsIdentity(s[1..], key);
      assert s == [s[0]] + s[1..];
    }
  }

  lemma SortByIdempotent<T>(s: seq<T>, key: T -> int)
    ensures SortBy(SortBy(s, key), key) == SortBy(s, key)
  {
    SortByIsSort(s, key);
    SortBySortedIsIdentity(SortBy(s, key), key);
  }
}
