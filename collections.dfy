/** Sequence helpers shared by the store models: an order-preserving filter and a
    sort by an integer key (the `sort({ field: 1 })` of a query), with the facts the
    callers need about them. */
module Collections {
  function Min(a: int, b: int): int {
    if a <= b then a else b
  }

  /** `filter(p)`: the elements satisfying `p`, in their original order. */
  function Filter<T(==,!new)>(s: seq<T>, p: T -> bool): (r: seq<T>)
    ensures |r| <= |s|
    ensures forall x :: x in r <==> x in s && p(x)
  {
    if s == [] then []
    else if p(s[0]) then [s[0]] + Filter(s[1..], p)
    else Filter(s[1..], p)
  }

  /** Filtering first by a condition that every element of interest already meets does
      not change which of them a second filter finds, nor their order. */
  lemma {:induction false} FilterFilter<T(!new)>(s: seq<T>, p: T -> bool, q: T -> bool)
    requires forall x :: x in s && q(x) ==> p(x)
    ensures Filter(Filter(s, p), q) == Filter(s, q)
  {
    if s != [] {
      assert forall x :: x in s[1..] ==> x in s;
      FilterFilter(s[1..], p, q);
      if p(s[0]) {
        assert Filter(s, p) == [s[0]] + Filter(s[1..], p);
        assert ([s[0]] + Filter(s[1..], p))[1..] == Filter(s[1..], p);
      }
    }
  }

  /** `a` can be obtained from `b` by deleting elements. */
  predicate IsSubsequence<T(==)>(a: seq<T>, b: seq<T>)
    decreases |b|
  {
    a == [] || (b != [] && ((a[0] == b[0] && IsSubsequence(a[1..], b[1..])) || IsSubsequence(a, b[1..])))
  }

  lemma {:induction false} SubsequenceOfSelf<T>(s: seq<T>)
    ensures IsSubsequence(s, s)
  {
    if s != [] {
      SubsequenceOfSelf(s[1..]);
    }
  }

  /** A filter only deletes: what it keeps is a subsequence of what it was given. */
  lemma {:induction false} FilterIsSubsequence<T(!new)>(s: seq<T>, p: T -> bool)
    ensures IsSubsequence(Filter(s, p), s)
  {
    if s != [] {
      FilterIsSubsequence(s[1..], p);
      if p(s[0]) {
        assert Filter(s, p) == [s[0]] + Filter(s[1..], p);
        assert Filter(s, p)[1..] == Filter(s[1..], p);
      }
    }
  }

  /** No two elements share a key. */
  predicate UniqueBy<T, K(==)>(s: seq<T>, id: T -> K) {
    forall i, j :: 0 <= i < j < |s| ==> id(s[i]) != id(s[j])
  }

  lemma {:induction false} FilterKeepsUnique<T(!new), K>(s: seq<T>, p: T -> bool, id: T -> K)
    requires UniqueBy(s, id)
    ensures UniqueBy(Filter(s, p), id)
  {
    if s != [] {
      FilterKeepsUnique(s[1..], p, id);
      var rest := Filter(s[1..], p);
      if p(s[0]) {
        forall j | 0 <= j < |rest| ensures id(s[0]) != id(rest[j]) {
          assert rest[j] in s[1..];
          var k :| 0 <= k < |s[1..]| && s[1..][k] == rest[j];
          assert s[k + 1] == rest[j];
        }
        var r := [s[0]] + rest;
        forall i, j | 0 <= i < j < |r| ensures id(r[i]) != id(r[j]) {
          if i > 0 {
            assert r[i] == rest[i - 1] && r[j] == rest[j - 1];
          }
        }
      }
    }
  }

  /** In a sequence with unique keys, two members with the same key are the same. */
  lemma UniqueMembers<T, K>(s: seq<T>, id: T -> K, x: T, y: T)
    requires UniqueBy(s, id) && x in s && y in s && id(x) == id(y)
    ensures x == y
  {
    var p :| 0 <= p < |s| && s[p] == x;
    var q :| 0 <= q < |s| && s[q] == y;
    assert id(s[p]) == id(s[q]);
    assert p == q;
  }

  /** Replacing an element by one with the same key keeps keys unique. */
  lemma UpdateKeepsUnique<T, K>(s: seq<T>, k: nat, x: T, id: T -> K)
    requires UniqueBy(s, id) && k < |s| && id(x) == id(s[k])
    ensures UniqueBy(s[k := x], id)
  {
    var r := s[k := x];
    forall i, j | 0 <= i < j < |r| ensures id(r[i]) != id(r[j]) {
      assert id(r[i]) == id(s[i]) && id(r[j]) == id(s[j]);
    }
  }

  /** A filter that every element passes gives the sequence back. */
  lemma {:induction false} FilterAll<T(!new)>(s: seq<T>, p: T -> bool)
    requires forall x :: x in s ==> p(x)
    ensures Filter(s, p) == s
  {
    if s != [] {
      assert forall x :: x in s[1..] ==> x in s;
      FilterAll(s[1..], p);
      assert [s[0]] + s[1..] == s;
    }
  }

  /** A filter that no element passes gives the empty sequence. */
  lemma {:induction false} FilterNone<T(!new)>(s: seq<T>, p: T -> bool)
    requires forall x :: x in s ==> !p(x)
    ensures Filter(s, p) == []
  {
    if s != [] {
      assert forall x :: x in s[1..] ==> x in s;
      FilterNone(s[1..], p);
    }
  }

  /** An element that differs from every other element occurs once. */
  lemma CountOnce<T>(s: seq<T>, p: nat)
    requires p < |s|
    requires forall r :: 0 <= r < |s| && r != p ==> s[r] != s[p]
    ensures multiset(s)[s[p]] == 1
  {
    var x := s[p];
    assert s == s[..p] + [x] + s[p + 1..];
    assert x !in s[..p] by {
      forall r | 0 <= r < p ensures s[..p][r] != x {
        assert s[..p][r] == s[r];
      }
    }
    var tail := s[p + 1..];
    assert x !in tail by {
      forall y | y in tail ensures y != x {
        var k :| 0 <= k < |tail| && tail[k] == y;
        assert y == s[p + 1 + k];
      }
    }
  }

  /** An element found at two indices occurs at least twice. */
  lemma CountTwice<T>(s: seq<T>, i: nat, j: nat)
    requires i < j < |s| && s[i] == s[j]
    ensures multiset(s)[s[i]] >= 2
  {
    assert s == s[..j] + s[j..];
    assert s[..j][i] == s[i];
    assert s[j..][0] == s[j];
  }

  /** Reordering keeps keys unique. */
  lemma PermutationKeepsUnique<T, K>(a: seq<T>, b: seq<T>, id: T -> K)
    requires multiset(a) == multiset(b) && UniqueBy(a, id)
    ensures UniqueBy(b, id)
  {
    forall i, j | 0 <= i < j < |b| ensures id(b[i]) != id(b[j]) {
      assert b[i] in multiset(a) && b[j] in multiset(a);
      var p :| 0 <= p < |a| && a[p] == b[i];
      var q :| 0 <= q < |a| && a[q] == b[j];
      if p == q {
        forall r | 0 <= r < |a| && r != p ensures a[r] != a[p] {
          if r < p { assert id(a[r]) != id(a[p]); } else { assert id(a[p]) != id(a[r]); }
        }
        CountOnce(a, p);
        CountTwice(b, i, j);
        assert false;
      } else if p < q {
        assert id(a[p]) != id(a[q]);
      } else {
        assert id(a[q]) != id(a[p]);
      }
    }
  }

  // ---------------------------------------------------------------------------
  // Sorting by an integer key

  predicate SortedBy<T>(s: seq<T>, key: T -> int) {
    forall i, j :: 0 <= i < j < |s| ==> key(s[i]) <= key(s[j])
  }

  /** Every element of a sequence that holds the elements of `s` and `x` has a key
      at least `k`, when all of those do. */
  lemma KeysAtLeast<T>(rest: seq<T>, s: seq<T>, x: T, key: T -> int, k: int)
    requires multiset(rest) == multiset(s) + multiset{x}
    requires k <= key(x) && forall j :: 0 <= j < |s| ==> k <= key(s[j])
    ensures forall j :: 0 <= j < |rest| ==> k <= key(rest[j])
  {
    forall j | 0 <= j < |rest| ensures k <= key(rest[j]) {
      assert rest[j] in multiset(rest);
      if rest[j] != x {
        assert rest[j] in multiset(s);
        var i :| 0 <= i < |s| && s[i] == rest[j];
      }
    }
  }

  /** An element with a key no larger than any of a sorted sequence can go in front. */
  lemma SortedCons<T>(h: T, rest: seq<T>, key: T -> int)
    requires SortedBy(rest, key) && forall j :: 0 <= j < |rest| ==> key(h) <= key(rest[j])
    ensures SortedBy([h] + rest, key)
  {
    var r := [h] + rest;
    forall i, j | 0 <= i < j < |r| ensures key(r[i]) <= key(r[j]) {
      assert r[j] == rest[j - 1];
      if i > 0 {
        assert r[i] == rest[i - 1];
      }
    }
  }

  /** Put `x` before the first element whose key is not smaller than its own. */
  function Insert<T(==)>(x: T, s: seq<T>, key: T -> int): (r: seq<T>)
    requires SortedBy(s, key)
    ensures SortedBy(r, key)
    ensures multiset(r) == multiset(s) + multiset{x}
    ensures |r| == |s| + 1
  {
    if s == [] || key(x) <= key(s[0]) then
      [x] + s
    else
      var rest := Insert(x, s[1..], key);
      assert s == [s[0]] + s[1..];
      KeysAtLeast(rest, s[1..], x, key, key(s[0]));
      SortedCons(s[0], rest, key);
      assert multiset([s[0]] + rest) == multiset{s[0]} + multiset(s[1..]) + multiset{x};
      [s[0]] + rest
  }

  /** In a sorted sequence cut in two, nothing in the front has a larger key than
      anything in the back. */
  lemma SortedSplit<T>(a: seq<T>, b: seq<T>, key: T -> int)
    requires SortedBy(a + b, key)
    ensures forall x, y :: x in a && y in b ==> key(x) <= key(y)
  {
    forall x, y | x in a && y in b ensures key(x) <= key(y) {
      var i :| 0 <= i < |a| && a[i] == x;
      var j :| 0 <= j < |b| && b[j] == y;
      assert (a + b)[i] == x && (a + b)[|a| + j] == y;
    }
  }

  /** Cutting a sorted arrangement of `found` after `n` elements keeps part of
      `found`, and what is cut off has keys no smaller than any kept one. */
  lemma SortedPrefixDominates<T>(found: seq<T>, s: seq<T>, n: nat, key: T -> int)
    requires multiset(s) == multiset(found) && SortedBy(s, key) && n <= |s|
    ensures multiset(s[..n]) <= multiset(found)
    ensures forall x :: x in multiset(found) - multiset(s[..n]) ==>
      forall i :: 0 <= i < n ==> key(s[..n][i]) <= key(x)
  {
    assert s == s[..n] + s[n..];
    SortedSplit(s[..n], s[n..], key);
    assert multiset(s) == multiset(s[..n]) + multiset(s[n..]);
    forall x | x in multiset(found) - multiset(s[..n])
      ensures forall i :: 0 <= i < n ==> key(s[..n][i]) <= key(x)
    {
      assert x in s[n..];
      forall i | 0 <= i < n ensures key(s[..n][i]) <= key(x) {
        assert s[..n][i] in s[..n];
      }
    }
  }

  /** The elements of `s` in ascending key order: a sorted permutation. */
  function SortBy<T(==)>(s: seq<T>, key: T -> int): (r: seq<T>)
    ensures SortedBy(r, key)
    ensures multiset(r) == multiset(s)
    ensures |r| == |s|
  {
    if s == [] then []
    else
      assert s == [s[0]] + s[1..];
      Insert(s[0], SortBy(s[1..], key), key)
  }
}
