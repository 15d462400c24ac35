/** Sequences without repetition, the pigeonhole principle, and index lists of linked structures. */
module Seqs {

  ghost predicate Distinct<T>(s: seq<T>) {
    forall i, j :: 0 <= i < j < |s| ==> s[i] != s[j]
  }

  /** s lists each of 0, ..., n-1 exactly once. */
  ghost predicate IsPermutation(s: seq<int>, n: nat) {
    && |s| == n
    && Distinct(s)
    && (forall i :: 0 <= i < n ==> 0 <= s[i] < n)
  }

  /** What follows position i of an index list, -1 at its end: what the link of element s[i] holds. */
  function After(s: seq<int>, i: nat): int {
    if i + 1 < |s| then s[i + 1] else -1
  }

  /** The first element of an index list, -1 for none. */
  function FirstOf(s: seq<int>): int {
    if s == [] then -1 else s[0]
  }

  /** The last element of an index list, -1 for none. */
  function LastOf(s: seq<int>): int {
    if s == [] then -1 else s[|s| - 1]
  }

  /** s without its i-th element. */
  function Without<T>(s: seq<T>, i: nat): seq<T>
    requires i < |s|
  {
    s[..i] + s[i + 1..]
  }

  lemma WithoutMembers<T(!new)>(s: seq<T>, i: nat)
    requires Distinct(s) && i < |s|
    ensures Distinct(Without(s, i)) && forall x :: x in Without(s, i) <==> x in s && x != s[i]
  {
    var t := Without(s, i);
    forall x | x in s && x != s[i] ensures x in t {
      var j :| 0 <= j < |s| && s[j] == x;
      assert t[if j < i then j else j - 1] == x;
    }
    forall x | x in t ensures x in s && x != s[i] {
      var j :| 0 <= j < |t| && t[j] == x;
      assert x == s[if j < i then j else j + 1];
    }
  }

  /** Which element of s stands at position j once the i-th is gone. */
  function Skipping(i: nat, j: nat): nat {
    if j < i then j else j + 1
  }

  /** Taking the i-th element out of a linked list changes one link: the one that led to it leads past it. */
  lemma AfterWithout(s: seq<int>, i: nat, j: nat)
    requires i < |s| && j + 1 < |s|
    ensures
      var k, t := Skipping(i, j), Without(s, i);
      t[j] == s[k] && After(t, j) == After(s, if k + 1 == i then i else k)
  {
  }

  ghost function Elements<T(!new)>(s: seq<T>): set<T> {
    set x | x in s
  }

  ghost function Below(n: nat): (s: set<int>)
    ensures forall x :: x in s <==> 0 <= x < n
    ensures |s| == n
  {
    if n == 0 then {} else Below(n - 1) + {n - 1}
  }

  lemma DistinctJoin<T>(s: seq<T>, t: seq<T>)
    requires Distinct(s) && Distinct(t) && forall x :: x in s ==> x !in t
    ensures Distinct(s + t)
  {
    forall i, j | 0 <= i < j < |s + t| ensures (s + t)[i] != (s + t)[j] {
      if i < |s| <= j {
        assert s[i] in s;
      }
    }
  }

  lemma Associative<T>(a: seq<T>, b: seq<T>, c: seq<T>)
    ensures a + (b + c) == a + b + c
  {
  }

  lemma {:induction false} DistinctCard<T(!new)>(s: seq<T>)
    requires Distinct(s)
    ensures |Elements(s)| == |s|
  {
    if s != [] {
      var k := |s| - 1;
      DistinctCard(s[..k]);
      assert Elements(s) == Elements(s[..k]) + {s[k]};
    }
  }

  lemma SubsetCardEq<T>(a: set<T>, b: set<T>)
    requires a <= b && |a| == |b|
    ensures a == b
  {
    if a != b {
      var x :| x in b && x !in a;
      SubsetCard(a, b - {x});
    }
  }

  lemma SubsetCard<T>(a: set<T>, b: set<T>)
    requires a <= b
    ensures |a| <= |b|
  {
    if a != {} {
      var x :| x in a;
      SubsetCard(a - {x}, b - {x});
    }
  }

  /** n distinct numbers below n include every number below n. */
  lemma Pigeonhole(s: seq<int>, n: nat)
    requires IsPermutation(s, n)
    ensures forall v :: 0 <= v < n ==> v in s
  {
    DistinctCard(s);
    SubsetCardEq(Elements(s), Below(n));
    forall v | 0 <= v < n ensures v in s {
      assert v in Below(n);
    }
  }

  /** At most hi - lo distinct numbers fit between lo and hi. */
  lemma FitsRange(s: seq<int>, lo: int, hi: int)
    requires Distinct(s) && lo <= hi && forall i :: 0 <= i < |s| ==> lo <= s[i] < hi
    ensures |s| <= hi - lo
  {
    var t := seq(|s|, i requires 0 <= i < |s| => s[i] - lo);
    DistinctCard(t);
    SubsetCard(Elements(t), Below(hi - lo));
  }

  lemma DistinctAppend<T>(s: seq<T>, x: T)
    requires Distinct(s) && x !in s
    ensures Distinct(s + [x])
  {
  }

  /** A repetition-free list of exactly the numbers below n has length n. */
  lemma DistinctCovers(s: seq<int>, n: nat)
    requires Distinct(s)
    requires forall v :: v in s <==> 0 <= v < n
    ensures IsPermutation(s, n)
  {
    DistinctCard(s);
    assert Elements(s) == Below(n);
    forall i | 0 <= i < |s| ensures 0 <= s[i] < n {
      assert s[i] in s;
    }
  }

  /** Reordering keeps a sequence free of repetition. */
  lemma ReorderedDistinct<T(!new)>(s: seq<T>, t: seq<T>)
    requires Distinct(s) && multiset(s) == multiset(t)
    ensures Distinct(t)
  {
    forall i, j | 0 <= i < j < |t| ensures t[i] != t[j] {
      assert t == t[..j] + t[j..];
      assert t[i] in t[..j] && t[j] in t[j..];
      DistinctCount(s, t[i]);
    }
  }

  lemma {:induction false} DistinctCount<T>(s: seq<T>, x: T)
    requires Distinct(s)
    ensures multiset(s)[x] <= 1
  {
    if s != [] {
      var k := |s| - 1;
      assert s == s[..k] + [s[k]];
      DistinctCount(s[..k], x);
      assert s[k] !in s[..k];
    }
  }
}
