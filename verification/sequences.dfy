/**
 Generic facts about sequences that the dashboard's row selection relies on:
 order-preserving selection (a boolean mask applied to a table), subsequences,
 first-seen de-duplication and the position of a value's first occurrence.
 */
module Sequences {

  /** `a` can be obtained from `b` by deleting elements, without reordering the rest. */
  ghost predicate IsSubsequence<T>(a: seq<T>, b: seq<T>)
    decreases |b|
  {
    if |a| == 0 then true
    else if |b| == 0 then false
    else (a[0] == b[0] && IsSubsequence(a[1..], b[1..])) || IsSubsequence(a, b[1..])
  }

  lemma {:induction false} SubsequenceTransitive<T>(a: seq<T>, b: seq<T>, c: seq<T>)
    requires IsSubsequence(a, b) && IsSubsequence(b, c)
    ensures IsSubsequence(a, c)
    decreases |c|
  {
    if |a| != 0 {
      if IsSubsequence(b, c[1..]) {
        SubsequenceTransitive(a, b, c[1..]);
      } else if a[0] == b[0] && IsSubsequence(a[1..], b[1..]) {
        SubsequenceTransitive(a[1..], b[1..], c[1..]);
      } else {
        SubsequenceTransitive(a, b[1..], c[1..]);
      }
    }
  }

  lemma {:induction false} SubsequenceReflexive<T>(s: seq<T>)
    ensures IsSubsequence(s, s)
    decreases |s|
  {
    if |s| != 0 {
      SubsequenceReflexive(s[1..]);
    }
  }

  /**
   The rows of `s` for which `keep` holds, in their original order: what indexing a
   table with a boolean mask computed row by row yields.
   */
  function Where<T(!new)>(s: seq<T>, keep: T -> bool): (r: seq<T>)
    ensures |r| <= |s|
    ensures IsSubsequence(r, s)
    ensures forall x :: multiset(r)[x] == if keep(x) then multiset(s)[x] else 0
    ensures forall x :: x in r <==> x in s && keep(x)
  {
    if |s| == 0 then []
    else
      assert s == [s[0]] + s[1..];
      var rest := Where(s[1..], keep);
      if keep(s[0]) then
        assert ([s[0]] + rest)[1..] == rest;
        [s[0]] + rest
      else rest
  }

  /** A mask that keeps every row returns the table unchanged. */
  lemma {:induction false} WhereKeepsAll<T(!new)>(s: seq<T>, keep: T -> bool)
    requires forall x :: x in s ==> keep(x)
    ensures Where(s, keep) == s
  {
    if |s| != 0 {
      assert forall x :: x in s[1..] ==> x in s;
      WhereKeepsAll(s[1..], keep);
      assert s == [s[0]] + s[1..];
    }
  }

  /** A mask that keeps no row returns the empty table. */
  lemma WhereKeepsNone<T(!new)>(s: seq<T>, keep: T -> bool)
    requires forall x :: x in s ==> !keep(x)
    ensures Where(s, keep) == []
  {
  }

  /** Two masks may be applied in either order. */
  lemma {:induction false} WhereCommutes<T(!new)>(s: seq<T>, p: T -> bool, q: T -> bool)
    ensures Where(Where(s, p), q) == Where(Where(s, q), p)
  {
    if |s| != 0 {
      WhereCommutes(s[1..], p, q);
    }
  }

  /** Applying a mask to a concatenation is applying it to each part. */
  lemma {:induction false} WhereAppend<T(!new)>(a: seq<T>, b: seq<T>, keep: T -> bool)
    ensures Where(a + b, keep) == Where(a, keep) + Where(b, keep)
  {
    if |a| != 0 {
      assert (a + b)[1..] == a[1..] + b;
      WhereAppend(a[1..], b, keep);
    } else {
      assert a + b == b;
    }
  }

  /** Position of the first occurrence of `x` in `s`. */
  function FirstIndex<T(==)>(s: seq<T>, x: T): (r: nat)
    requires x in s
    ensures r < |s| && s[r] == x
    ensures forall k :: 0 <= k < r ==> s[k] != x
  {
    if s[0] == x then 0 else 1 + FirstIndex(s[1..], x)
  }

  /** The first occurrence of a value is found at the same place in any extension. */
  lemma FirstIndexInPrefix<T>(s: seq<T>, n: nat, x: T)
    requires n <= |s| && x in s[..n]
    ensures x in s && FirstIndex(s, x) == FirstIndex(s[..n], x)
  {
    var i := FirstIndex(s[..n], x);
    assert s[i] == s[..n][i];
    assert forall k :: 0 <= k < i ==> s[k] == s[..n][k];
    var j := FirstIndex(s, x);
    assert j <= i;
    assert i <= j;
  }

  predicate Distinct<T(==)>(s: seq<T>)
  {
    forall i, j :: 0 <= i < j < |s| ==> s[i] != s[j]
  }

  /**
   The distinct values of `s`, each kept at its first occurrence: a value is appended
   when it is met for the first time, as a hash-table scan from the front does.
   */
  function Unique<T(==,!new)>(s: seq<T>): (r: seq<T>)
    ensures Distinct(r)
    ensures forall x :: x in r <==> x in s
    ensures |r| <= |s|
  {
    if |s| == 0 then []
    else
      var front := s[..|s| - 1];
      var u := Unique(front);
      assert s == front + [s[|s| - 1]];
      if s[|s| - 1] in u then u else u + [s[|s| - 1]]
  }

  /** Unique lists values in the order of their first occurrence in `s`. */
  lemma {:induction false} UniqueFirstSeenOrder<T(!new)>(s: seq<T>)
    ensures forall i, j :: 0 <= i < j < |Unique(s)| ==> FirstIndex(s, Unique(s)[i]) < FirstIndex(s, Unique(s)[j])
  {
    if |s| != 0 {
      var n := |s| - 1;
      var front := s[..n];
      var u := Unique(front);
      assert s == front + [s[n]];
      UniqueFirstSeenOrder(front);
      forall y | y in u
        ensures FirstIndex(s, y) == FirstIndex(front, y) < n
      {
        FirstIndexInPrefix(s, n, y);
      }
      if s[n] !in u {
        assert FirstIndex(s, s[n]) == n;
        var r := u + [s[n]];
        forall i, j | 0 <= i < j < |r|
          ensures FirstIndex(s, r[i]) < FirstIndex(s, r[j])
        {
          assert r[i] in u;
          if j < |u| {
            assert r[j] in u;
          }
        }
      }
    }
  }

  /** Number of elements of `c` that equal one of `keys`, counted key by key. */
  function CountAcross<T(==)>(keys: seq<T>, c: seq<T>): nat
  {
    if |keys| == 0 then 0
    else CountAcross(keys[..|keys| - 1], c) + multiset(c)[keys[|keys| - 1]]
  }

  lemma {:induction false} CountAcrossAppend<T>(keys: seq<T>, c: seq<T>, x: T)
    requires Distinct(keys)
    ensures CountAcross(keys, c + [x]) == CountAcross(keys, c) + if x in keys then 1 else 0
  {
    if |keys| != 0 {
      var front := keys[..|keys| - 1];
      assert keys == front + [keys[|keys| - 1]];
      CountAcrossAppend(front, c, x);
      assert multiset(c + [x]) == multiset(c) + multiset{x};
    }
  }

  /** Every element of `c` equals exactly one of its distinct values. */
  lemma {:induction false} UniqueCountsCoverAll<T(!new)>(c: seq<T>)
    ensures CountAcross(Unique(c), c) == |c|
  {
    if |c| != 0 {
      var n := |c| - 1;
      var front := c[..n];
      var x := c[n];
      var u := Unique(front);
      assert c == front + [x];
      UniqueCountsCoverAll(front);
      CountAcrossAppend(u, front, x);
      if x !in u {
        assert x !in front;
        assert multiset(front)[x] == 0;
        assert (u + [x])[..|u|] == u;
        assert multiset(c) == multiset(front) + multiset{x};
      }
    }
  }
}
