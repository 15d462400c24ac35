/** ncclSpace: the non-negative integers cut into alternating full and empty segments.
    The abstract value is the set of full integers; the cuts are its unique canonical form. */
module Space {
  import opened Arith

  datatype Option<T> = None | Some(value: T)

  // ---------------------------------------------------------------- what a list of cuts means

  /** Number of cuts above x. */
  function Above(cuts: seq<int>, x: int): (n: nat)
    ensures n <= |cuts|
  {
    if cuts == [] then 0
    else Above(cuts[..|cuts| - 1], x) + (if x < cuts[|cuts| - 1] then 1 else 0)
  }

  /** The segment after the last cut is empty and segments alternate: x is full iff an odd number of cuts lie above. */
  predicate Full(cuts: seq<int>, x: int) {
    x >= 0 && Above(cuts, x) % 2 == 1
  }

  ghost predicate SameSpace(s: seq<int>, t: seq<int>) {
    forall x :: Full(s, x) <==> Full(t, x)
  }

  ghost predicate Sorted(cuts: seq<int>) {
    forall i, j :: 0 <= i < j < |cuts| ==> cuts[i] <= cuts[j]
  }

  ghost predicate Canonical(cuts: seq<int>) {
    && (forall i, j :: 0 <= i < j < |cuts| ==> cuts[i] < cuts[j])
    && (forall i :: 0 <= i < |cuts| ==> 0 < cuts[i])
  }

  lemma {:induction false} AboveConcat(s: seq<int>, t: seq<int>, x: int)
    ensures Above(s + t, x) == Above(s, x) + Above(t, x)
  {
    if t == [] {
      assert s + t == s;
    } else {
      AboveConcat(s, t[..|t| - 1], x);
      assert (s + t)[..|s + t| - 1] == s + t[..|t| - 1];
    }
  }

  lemma {:induction false} AboveAll(cuts: seq<int>, x: int)
    requires forall i :: 0 <= i < |cuts| ==> x < cuts[i]
    ensures Above(cuts, x) == |cuts|
  {
    if cuts != [] {
      AboveAll(cuts[..|cuts| - 1], x);
    }
  }

  lemma {:induction false} AboveNone(cuts: seq<int>, x: int)
    requires forall i :: 0 <= i < |cuts| ==> cuts[i] <= x
    ensures Above(cuts, x) == 0
  {
    if cuts != [] {
      AboveNone(cuts[..|cuts| - 1], x);
    }
  }

  function SegLo(cuts: seq<int>, i: nat): int
    requires i <= |cuts|
  {
    if i == 0 then 0 else cuts[i - 1]
  }

  ghost predicate InSegment(cuts: seq<int>, i: nat, x: int) {
    i <= |cuts| && SegLo(cuts, i) <= x && (i < |cuts| ==> x < cuts[i])
  }

  /** Whether a segment is full depends on the parity of its index only. */
  lemma SegmentParity(cuts: seq<int>, i: nat, x: int)
    requires Canonical(cuts) && InSegment(cuts, i, x)
    ensures Full(cuts, x) <==> i % 2 != |cuts| % 2
  {
    AboveSplit(cuts, i, x);
    assert |cuts| - i >= 0;
  }

  lemma AboveSplit(cuts: seq<int>, i: nat, x: int)
    requires i <= |cuts|
    requires forall j :: 0 <= j < i ==> cuts[j] <= x
    requires forall j :: i <= j < |cuts| ==> x < cuts[j]
    ensures Above(cuts, x) == |cuts| - i
  {
    AboveNone(cuts[..i], x);
    AboveAll(cuts[i..], x);
    AboveConcat(cuts[..i], cuts[i..], x);
    assert cuts[..i] + cuts[i..] == cuts;
  }

  /** Every non-negative integer lies in a segment. */
  lemma {:induction false} SegmentOf(cuts: seq<int>, x: int) returns (i: nat)
    requires Canonical(cuts) && 0 <= x
    ensures InSegment(cuts, i, x)
  {
    i := 0;
    while i < |cuts| && cuts[i] <= x
      invariant i <= |cuts| && SegLo(cuts, i) <= x
    {
      i := i + 1;
    }
  }

  /** The canonical form is unique: two canonical lists with the same full integers are the same list. */
  lemma {:induction false} CanonicalUnique(s: seq<int>, t: seq<int>)
    requires Canonical(s) && Canonical(t) && SameSpace(s, t)
    ensures s == t
  {
    if s != [] && t != [] {
      var a, b := s[|s| - 1], t[|t| - 1];
      var m := Max(a, b) - 1;
      LastCut(s, m);
      LastCut(t, m);
      assert Full(s, m) <==> Full(t, m);
      StripLast(s, t);
      CanonicalUnique(s[..|s| - 1], t[..|t| - 1]);
    } else if s != [] {
      SomethingFull(s, t);
    } else if t != [] {
      SomethingFull(t, s);
    }
  }

  lemma SomethingFull(s: seq<int>, t: seq<int>)
    requires Canonical(s) && s != [] && SameSpace(s, t)
    ensures t != []
  {
    var m := s[|s| - 1] - 1;
    LastCut(s, m);
    assert Full(s, m);
    assert Full(t, m);
  }

  lemma LastCut(s: seq<int>, m: int)
    requires Canonical(s) && s != [] && s[|s| - 1] - 1 <= m
    ensures Full(s, m) <==> m == s[|s| - 1] - 1
  {
    AboveNone(s[..|s| - 1], m);
  }

  lemma StripLast(s: seq<int>, t: seq<int>)
    requires Canonical(s) && Canonical(t) && SameSpace(s, t)
    requires s != [] && t != [] && s[|s| - 1] == t[|t| - 1]
    ensures SameSpace(s[..|s| - 1], t[..|t| - 1])
  {
    var s', t', a := s[..|s| - 1], t[..|t| - 1], s[|s| - 1];
    forall x ensures Full(s', x) <==> Full(t', x) {
      assert Full(s, x) <==> Full(t, x);
      if x >= a {
        AboveNone(s', x);
        AboveNone(t', x);
      }
    }
  }

  // ---------------------------------------------------------------- inserting and fusing cuts

  /** Two new cuts lo <= hi flip exactly the integers in [lo, hi). */
  lemma InsertFlips(cuts: seq<int>, i: nat, lo: int, hi: int, x: int)
    requires i <= |cuts| && lo <= hi && x >= 0
    ensures Full(cuts[..i] + [lo, hi] + cuts[i..], x) <==> (Full(cuts, x) != (lo <= x < hi))
  {
    AboveConcat(cuts[..i] + [lo, hi], cuts[i..], x);
    AboveConcat(cuts[..i], [lo, hi], x);
    AboveConcat(cuts[..i], cuts[i..], x);
    assert cuts[..i] + cuts[i..] == cuts;
    AbovePair(lo, hi, x);
  }

  lemma AbovePair(lo: int, hi: int, x: int)
    ensures Above([lo, hi], x) == (if x < lo then 1 else 0) + (if x < hi then 1 else 0)
  {
    assert [lo, hi][..1] == [lo];
  }

  /** Dropping two equal neighbours changes nothing. */
  lemma DropPair(s: seq<int>, a: int, t: seq<int>)
    ensures SameSpace(s + [a, a] + t, s + t)
  {
    forall x ensures Full(s + [a, a] + t, x) <==> Full(s + t, x) {
      AboveConcat(s + [a, a], t, x);
      AboveConcat(s, [a, a], x);
      AboveConcat(s, t, x);
      AbovePair(a, a, x);
    }
  }

  /** Dropping a zero changes nothing. */
  lemma DropZero(t: seq<int>)
    ensures SameSpace([0] + t, t)
  {
    forall x ensures Full([0] + t, x) <==> Full(t, x) {
      AboveConcat([0], t, x);
    }
  }

  /** State of the fusing loop over the list orig: a[..w] is already canonical, orig[r..] is still to be read,
      and prev is the last cut kept, or 0 right after a repeated value was erased. */
  ghost predicate Fusing(orig: seq<int>, a: seq<int>, w: nat, r: nat, prev: int) {
    && w <= r <= |orig| <= |a|
    && Canonical(a[..w])
    && a[r..|orig|] == orig[r..]
    && SameSpace(a[..w] + orig[r..], orig)
    && (prev == 0 || (w > 0 && prev == a[w - 1]))
    && (forall j :: r <= j < |orig| ==> SegLo(a, w) <= orig[j])
    && (prev == 0 && w > 0 ==> forall j :: r <= j < |orig| ==> a[w - 1] < orig[j])
  }

  lemma FusePush(orig: seq<int>, a: seq<int>, w: nat, r: nat, prev: int)
    requires Sorted(orig) && Fusing(orig, a, w, r, prev) && r < |orig| && orig[r] != prev
    ensures Fusing(orig, a[w := orig[r]], w + 1, r + 1, orig[r])
  {
    var a' := a[w := orig[r]];
    assert a'[..w + 1] == a[..w] + [orig[r]];
    assert a'[..w + 1] + orig[r + 1..] == a[..w] + orig[r..];
    assert a'[r + 1..|orig|] == orig[r + 1..] by {
      assert forall j :: r + 1 <= j < |orig| ==> a'[j] == a[r..|orig|][j - r];
    }
    assert SegLo(a, w) <= orig[r];
  }

  lemma FuseDrop(orig: seq<int>, a: seq<int>, w: nat, r: nat, prev: int)
    requires Sorted(orig) && Fusing(orig, a, w, r, prev) && r < |orig| && orig[r] == prev
    ensures Fusing(orig, a[w := orig[r]], if w == 0 then 0 else w - 1, r + 1, 0)
  {
    var a', v := a[w := orig[r]], if w == 0 then 0 else w - 1;
    var rest := orig[r + 1..];
    assert orig[r..] == [prev] + rest;
    if w == 0 {
      DropZero(rest);
      assert a[..w] + orig[r..] == [0] + rest;
      assert a'[..v] + rest == rest;
    } else {
      assert a[..w] == a[..v] + [prev];
      assert a[..w] + orig[r..] == a[..v] + [prev, prev] + rest;
      DropPair(a[..v], prev, rest);
      assert a'[..v] == a[..v];
    }
    SameSpaceTrans(a'[..v] + rest, a[..w] + orig[r..], orig);
    assert a'[r + 1..|orig|] == a[r..|orig|][1..] == rest;
  }

  lemma SameSpaceTrans(s: seq<int>, t: seq<int>, u: seq<int>)
    requires SameSpace(s, t) && SameSpace(t, u)
    ensures SameSpace(s, u)
  {
    forall x ensures Full(s, x) <==> Full(u, x) {
      assert Full(s, x) <==> Full(t, x);
    }
  }

  /** One iteration of the fusing loop. */
  method FuseOne(a: array<int>, ghost orig: seq<int>, w: nat, r: nat, prev: int) returns (w': nat, prev': int)
    requires Sorted(orig) && Fusing(orig, a[..], w, r, prev) && r < |orig|
    modifies a
    ensures Fusing(orig, a[..], w', r + 1, prev')
  {
    ghost var before := a[..];
    var cur := a[r];
    assert cur == before[r..|orig|][0] == orig[r];
    a[w] := cur;
    w' := w + 1;
    if prev == cur { // equal cuts cancel
      FuseDrop(orig, before, w, r, prev);
      w' := w' - (if w' == 1 then 1 else 2);
      cur := 0;
    } else {
      FusePush(orig, before, w, r, prev);
    }
    prev' := cur;
    assert a[..] == before[w := orig[r]];
  }

  lemma FuseStart(orig: seq<int>, a: seq<int>, index: nat)
    requires Sorted(orig) && index <= |orig| <= |a| && a[..|orig|] == orig && Canonical(orig[..index])
    requires forall j :: index <= j < |orig| ==> 0 <= orig[j]
    ensures Fusing(orig, a, index, index, SegLo(orig, index))
  {
    assert a[..index] == orig[..index];
    assert orig[..index] + orig[index..] == orig;
    assert a[index..|orig|] == orig[index..];
    if index > 0 {
      assert orig[..index][index - 1] == orig[index - 1];
    }
  }

  lemma FuseEnd(orig: seq<int>, a: seq<int>, w: nat, prev: int)
    requires Fusing(orig, a, w, |orig|, prev)
    ensures Canonical(a[..w]) && SameSpace(a[..w], orig)
  {
    assert a[..w] + orig[|orig|..] == a[..w];
  }

  /** Fuses repeated cuts in place, reading and writing the same array; canonical below index on entry. */
  method FuseRepeated(a: array<int>, index: nat, count: nat) returns (w: nat)
    requires index <= count <= a.Length
    requires Sorted(a[..count]) && Canonical(a[..index])
    requires forall j :: index <= j < count ==> 0 <= a[j]
    modifies a
    ensures w <= count && Canonical(a[..w]) && SameSpace(a[..w], old(a[..count]))
  {
    ghost var orig := a[..count];
    var r := index;
    w := index;
    var prev := if r == 0 then 0 else a[r - 1];
    assert a[..index] == orig[..index];
    FuseStart(orig, a[..], index);
    while r < count
      invariant r <= count && Fusing(orig, a[..], w, r, prev)
    {
      w, prev := FuseOne(a, orig, w, r, prev);
      r := r + 1;
    }
    FuseEnd(orig, a[..], w, prev);
  }

  /** Moving one cut flips exactly the integers between its old and its new place. */
  lemma MoveCutFlips(cuts: seq<int>, k: nat, v: int, x: int)
    requires k < |cuts| && x >= 0
    ensures Full(cuts[k := v], x)
       <==> (Full(cuts, x) != (Arith.Min(cuts[k], v) <= x < Arith.Max(cuts[k], v)))
  {
    var a, b := cuts[..k], cuts[k + 1..];
    assert cuts == a + [cuts[k]] + b && cuts[k := v] == a + [v] + b;
    AboveWith(a, cuts[k], b, x);
    AboveWith(a, v, b, x);
  }

  lemma AboveWith(a: seq<int>, v: int, b: seq<int>, x: int)
    ensures Above(a + [v] + b, x) == Above(a, x) + Above(b, x) + if x < v then 1 else 0
  {
    AboveConcat(a + [v], b, x);
    AboveConcat(a, [v], x);
  }

  // ---------------------------------------------------------------- where an allocation can go

  /** Index of an empty segment. */
  predicate Hole(cuts: seq<int>, i: nat) {
    i <= |cuts| && i % 2 == |cuts| % 2
  }

  function SegHi(cuts: seq<int>, i: nat, limit: int): int
    requires i <= |cuts|
  {
    if i == |cuts| then limit else cuts[i]
  }

  ghost predicate FitsIn(cuts: seq<int>, limit: int, size: int, i: nat, y: int) {
    Hole(cuts, i) && SegLo(cuts, i) <= y && y + size <= SegHi(cuts, i, limit)
  }

  ghost predicate Fits(cuts: seq<int>, limit: int, size: int, y: int) {
    exists i :: FitsIn(cuts, limit, size, i, y)
  }

  /** No aligned place exists in the empty segments before i. */
  ghost predicate NoneBefore(cuts: seq<int>, limit: int, size: int, align: int, i: nat)
    requires align > 0
  {
    forall j :: 0 <= j < i && Hole(cuts, j) ==> SegHi(cuts, j, limit) < AlignUp(SegLo(cuts, j), align) + size
  }

  /** Aligned first fit: off is usable and no smaller aligned offset is. */
  ghost predicate FirstFit(cuts: seq<int>, limit: int, size: int, align: int, off: int)
    requires align > 0
  {
    && off % align == 0 && 0 <= off
    && Fits(cuts, limit, size, off)
    && forall y :: y < off && y % align == 0 ==> !Fits(cuts, limit, size, y)
  }

  lemma NoRoomIn(cuts: seq<int>, limit: int, size: int, align: int, i: nat)
    requires align > 0 && NoneBefore(cuts, limit, size, align, i) && Hole(cuts, i)
    requires SegHi(cuts, i, limit) < AlignUp(SegLo(cuts, i), align) + size
    ensures NoneBefore(cuts, limit, size, align, i + 2) && (i + 2) % 2 == i % 2
  {
  }

  lemma NoneFits(cuts: seq<int>, limit: int, size: int, align: int, i: nat, j: nat, y: int)
    requires align > 0 && NoneBefore(cuts, limit, size, align, i) && j < i && y % align == 0
    ensures !FitsIn(cuts, limit, size, j, y)
  {
    if FitsIn(cuts, limit, size, j, y) {
      AlignUpLeast(SegLo(cuts, j), align, y);
    }
  }

  lemma SegmentsAscend(cuts: seq<int>, i: nat, j: nat)
    requires Canonical(cuts) && i < j <= |cuts|
    ensures cuts[i] <= SegLo(cuts, j)
  {
  }

  lemma FoundFirstFit(cuts: seq<int>, limit: int, size: int, align: int, i: nat)
    requires Canonical(cuts) && align > 0 && size >= 0 && Hole(cuts, i)
    requires NoneBefore(cuts, limit, size, align, i)
    requires AlignUp(SegLo(cuts, i), align) + size <= SegHi(cuts, i, limit)
    ensures FirstFit(cuts, limit, size, align, AlignUp(SegLo(cuts, i), align))
  {
    var off := AlignUp(SegLo(cuts, i), align);
    AlignUpProps(SegLo(cuts, i), align);
    assert FitsIn(cuts, limit, size, i, off);
    forall y | y < off && y % align == 0 ensures !Fits(cuts, limit, size, y) {
      forall j: nat ensures !FitsIn(cuts, limit, size, j, y) {
        if j < i {
          NoneFits(cuts, limit, size, align, i, j, y);
        } else if j == i && SegLo(cuts, i) <= y {
          AlignUpLeast(SegLo(cuts, i), align, y);
        } else if i < j <= |cuts| {
          SegmentsAscend(cuts, i, j);
        }
      }
    }
  }

  lemma FoundNone(cuts: seq<int>, limit: int, size: int, align: int)
    requires align > 0 && NoneBefore(cuts, limit, size, align, |cuts| + 1)
    ensures forall y :: y % align == 0 ==> !Fits(cuts, limit, size, y)
  {
    forall y, j: nat | y % align == 0 ensures !FitsIn(cuts, limit, size, j, y) {
      if j <= |cuts| {
        NoneFits(cuts, limit, size, align, |cuts| + 1, j, y);
      }
    }
  }

  /** End of the last full segment. */
  function Frontier(cuts: seq<int>): int {
    if cuts == [] then 0 else cuts[|cuts| - 1]
  }

  ghost predicate AllEmpty(cuts: seq<int>, lo: int, hi: int) {
    forall x :: lo <= x < hi ==> !Full(cuts, x)
  }

  /** A non-empty range fits exactly when it is wholly empty and ends below the limit or below the frontier. */
  lemma FitsMeansEmpty(cuts: seq<int>, limit: int, size: int, y: int)
    requires Canonical(cuts) && size > 0 && limit >= 0
    ensures Fits(cuts, limit, size, y)
       <==> 0 <= y && AllEmpty(cuts, y, y + size) && (y + size <= limit || y + size <= Frontier(cuts))
  {
    if Fits(cuts, limit, size, y) {
      var i :| FitsIn(cuts, limit, size, i, y);
      FitsGivesEmpty(cuts, limit, size, i, y);
    }
    if 0 <= y && AllEmpty(cuts, y, y + size) && (y + size <= limit || y + size <= Frontier(cuts)) {
      EmptyGivesFits(cuts, limit, size, y);
    }
  }

  lemma FitsGivesEmpty(cuts: seq<int>, limit: int, size: int, i: nat, y: int)
    requires Canonical(cuts) && FitsIn(cuts, limit, size, i, y) && size >= 0
    ensures 0 <= y && AllEmpty(cuts, y, y + size) && (y + size <= limit || y + size <= Frontier(cuts))
  {
    forall x | y <= x < y + size ensures !Full(cuts, x) {
      SegmentParity(cuts, i, x);
    }
  }

  lemma NextSegment(cuts: seq<int>, i: nat, x: int)
    requires Canonical(cuts) && i < |cuts| && InSegment(cuts, i, x)
    ensures Full(cuts, cuts[i]) <==> !Full(cuts, x)
  {
    SegmentParity(cuts, i, x);
    SegmentParity(cuts, i + 1, cuts[i]);
  }

  lemma EmptyGivesFits(cuts: seq<int>, limit: int, size: int, y: int)
    requires Canonical(cuts) && size > 0
    requires 0 <= y && AllEmpty(cuts, y, y + size) && (y + size <= limit || y + size <= Frontier(cuts))
    ensures Fits(cuts, limit, size, y)
  {
    var i := SegmentOf(cuts, y);
    SegmentParity(cuts, i, y);
    assert !Full(cuts, y);
    if i < |cuts| {
      NextSegment(cuts, i, y);
    }
    assert FitsIn(cuts, limit, size, i, y);
  }

  /** Everything full lies below L exactly when the frontier does. */
  lemma FrontierBound(cuts: seq<int>, L: int)
    requires Canonical(cuts) && 0 <= L
    ensures Frontier(cuts) <= L <==> forall x :: Full(cuts, x) ==> x < L
  {
    if cuts != [] {
      LastCut(cuts, Frontier(cuts) - 1);
      assert Full(cuts, Frontier(cuts) - 1);
    }
    forall x | Full(cuts, x) ensures x < Frontier(cuts) {
      if Frontier(cuts) <= x {
        AboveNone(cuts, x);
      }
    }
  }

  // ---------------------------------------------------------------- the data structure

  /** The full integers of t are those of s and [lo, hi). */
  ghost predicate Filled(s: seq<int>, t: seq<int>, lo: int, hi: int) {
    forall x :: Full(t, x) <==> Full(s, x) || (0 <= x && lo <= x < hi)
  }

  /** The full integers of t are those of s outside [lo, hi). */
  ghost predicate Emptied(s: seq<int>, t: seq<int>, lo: int, hi: int) {
    forall x :: Full(t, x) <==> Full(s, x) && !(lo <= x < hi)
  }

  ghost predicate Flipped(s: seq<int>, t: seq<int>, lo: int, hi: int) {
    forall x :: Full(t, x) <==> 0 <= x && (Full(s, x) != (lo <= x < hi))
  }

  function Inserted(s: seq<int>, index: nat, lo: int, hi: int): (t: seq<int>)
    requires index <= |s|
    ensures |t| == |s| + 2
  {
    s[..index] + [lo, hi] + s[index..]
  }

  lemma Assembled(s: seq<int>, a: seq<int>, index: nat, lo: int, hi: int)
    requires index <= |s| && |s| + 2 <= |a|
    requires a[..index] == s[..index] && a[index] == lo && a[index + 1] == hi && a[index + 2..|s| + 2] == s[index..]
    ensures a[..|s| + 2] == Inserted(s, index, lo, hi)
  {
    assert a[..|s| + 2] == a[..index] + [a[index], a[index + 1]] + a[index + 2..|s| + 2];
  }

  lemma InsertedSorted(s: seq<int>, index: nat, lo: int, hi: int)
    requires Canonical(s) && index <= |s|
    requires SegLo(s, index) <= lo <= hi && (index < |s| ==> hi <= s[index])
    ensures Sorted(Inserted(s, index, lo, hi))
    ensures forall j :: 0 <= j < |s| + 2 ==> 0 <= Inserted(s, index, lo, hi)[j]
  {
  }

  lemma InsertedFront(s: seq<int>, a: seq<int>, index: nat, lo: int, hi: int)
    requires Canonical(s) && index <= |s| && |s| + 2 <= |a| && a[..|s| + 2] == Inserted(s, index, lo, hi)
    ensures Canonical(a[..index])
  {
    assert a[..index] == a[..|s| + 2][..index] == s[..index];
  }

  lemma InsertedFlips(s: seq<int>, t: seq<int>, index: nat, lo: int, hi: int)
    requires index <= |s| && lo <= hi && SameSpace(t, Inserted(s, index, lo, hi))
    ensures Flipped(s, t, lo, hi)
  {
    forall x | 0 <= x ensures Full(t, x) <==> (Full(s, x) != (lo <= x < hi)) {
      InsertFlips(s, index, lo, hi, x);
      assert Full(t, x) <==> Full(Inserted(s, index, lo, hi), x);
    }
  }

  lemma HoleIsEmpty(s: seq<int>, i: nat)
    requires Canonical(s) && Hole(s, i)
    ensures forall x :: InSegment(s, i, x) ==> !Full(s, x)
  {
    forall x | InSegment(s, i, x) ensures !Full(s, x) {
      SegmentParity(s, i, x);
    }
  }

  lemma FlippedIsFilled(s: seq<int>, t: seq<int>, i: nat, lo: int, hi: int)
    requires Flipped(s, t, lo, hi) && i <= |s| && SegLo(s, i) <= lo && (i < |s| ==> hi <= s[i])
    requires forall x :: InSegment(s, i, x) ==> !Full(s, x)
    ensures Filled(s, t, lo, hi)
  {
    forall x ensures Full(t, x) <==> Full(s, x) || (0 <= x && lo <= x < hi) {
      if lo <= x < hi {
        assert InSegment(s, i, x);
      }
    }
  }

  lemma MovedUp(s: seq<int>, i: nat, v: int)
    requires Canonical(s) && 0 < i <= |s| && s[i - 1] <= v && (i < |s| ==> v < s[i])
    requires forall x :: InSegment(s, i, x) ==> !Full(s, x)
    ensures Canonical(s[i - 1 := v]) && Filled(s, s[i - 1 := v], s[i - 1], v)
  {
    var t := s[i - 1 := v];
    forall x ensures Full(t, x) <==> Full(s, x) || (0 <= x && s[i - 1] <= x < v) {
      if 0 <= x {
        MoveCutFlips(s, i - 1, v, x);
        if s[i - 1] <= x < v {
          assert InSegment(s, i, x);
        }
      }
    }
  }

  /** The allocation went to the aligned start of hole i, the first hole with room. What became full starts at
      that offset or, when a full segment is extended without closing the gap above it, at the end of that segment. */
  ghost predicate AllocatedIn(s: seq<int>, t: seq<int>, limit: int, size: int, align: int, i: nat, off: int)
    requires align > 0
  {
    && Hole(s, i) && NoneBefore(s, limit, size, align, i)
    && off == AlignUp(SegLo(s, i), align) && off + size <= SegHi(s, i, limit)
    && Filled(s, t, if i == 0 || off + size == SegHi(s, i, limit) then off else SegLo(s, i), off + size)
  }

  ghost predicate RoomBelow(cuts: seq<int>, limit: int, size: int, align: int, y: int)
    requires align > 0
  {
    0 <= y && y % align == 0 && AllEmpty(cuts, y, y + size) && y + size <= limit
  }

  /** When an allocation stays below its limit: exactly if some aligned, wholly empty range does. Otherwise a gap
      between earlier allocations above the limit is handed out. */
  lemma LimitExactly(cuts: seq<int>, limit: int, size: int, align: int, off: int)
    requires Canonical(cuts) && 0 <= limit && 0 < size && 0 < align && FirstFit(cuts, limit, size, align, off)
    ensures off + size <= limit <==> exists y :: RoomBelow(cuts, limit, size, align, y)
  {
    FitsMeansEmpty(cuts, limit, size, off);
    if off + size <= limit {
      assert RoomBelow(cuts, limit, size, align, off);
    }
    if y :| RoomBelow(cuts, limit, size, align, y) {
      FitsMeansEmpty(cuts, limit, size, y);
      assert !(y < off);
    }
  }

  lemma FirstFitUnique(cuts: seq<int>, limit: int, size: int, align: int, off: int, other: int)
    requires align > 0 && FirstFit(cuts, limit, size, align, off) && FirstFit(cuts, limit, size, align, other)
    ensures off == other
  {
  }

  /** With [0, 4) and [8, 12) allocated, four units are placed above the limit 5. */
  lemma FitAboveLimit()
    ensures Canonical([4, 8, 12]) && FirstFit([4, 8, 12], 5, 4, 1, 4)
  {
    assert NoneBefore([4, 8, 12], 5, 4, 1, 1);
    FoundFirstFit([4, 8, 12], 5, 4, 1, 1);
  }

  /** What a successful allocation promises: an aligned first fit in space that was empty, full afterwards; what else
      became full is less than one alignment unit of padding directly before it; the frontier stays within the larger of
      the limit and where it was; and the allocation ends within the limit exactly if an aligned empty range does. */
  lemma AllocationPromise(s: seq<int>, t: seq<int>, limit: int, size: int, align: int, i: nat, off: int)
    requires Canonical(s) && Canonical(t) && 0 <= limit && 0 <= size && 0 < align
    requires AllocatedIn(s, t, limit, size, align, i, off)
    ensures FirstFit(s, limit, size, align, off)
    ensures AllEmpty(s, off, off + size)
    ensures forall x :: off <= x < off + size ==> Full(t, x)
    ensures forall x :: Full(s, x) ==> Full(t, x)
    ensures forall x :: Full(t, x) && !Full(s, x) ==> off - align < x < off + size
    ensures Frontier(t) <= Max(limit, Frontier(s))
    ensures Frontier(s) <= limit ==> off + size <= limit
    ensures 0 < size ==> (off + size <= limit <==> exists y :: RoomBelow(s, limit, size, align, y))
  {
    FoundFirstFit(s, limit, size, align, i);
    AlignUpProps(SegLo(s, i), align);
    assert FitsIn(s, limit, size, i, off);
    FitsGivesEmpty(s, limit, size, i, off);
    FrontierBound(s, Max(limit, Frontier(s)));
    FrontierBound(t, Max(limit, Frontier(s)));
    if 0 < size {
      LimitExactly(s, limit, size, align, off);
    }
  }

  ghost predicate AllFull(cuts: seq<int>, lo: int, hi: int) {
    forall x :: lo <= x < hi ==> Full(cuts, x)
  }

  /** Index of a full segment. */
  predicate Solid(cuts: seq<int>, i: nat) {
    i < |cuts| && i % 2 != |cuts| % 2
  }

  /** Where the search of ncclSpaceFree stops: the first full segment that ends above offset. */
  lemma FreeTarget(s: seq<int>, i: nat, offset: int, size: int)
    requires Canonical(s) && Solid(s, i) && offset < s[i] && 0 <= size
    requires forall j: nat :: j < i && Solid(s, j) ==> s[j] <= offset
    ensures SegLo(s, i) <= offset && offset + size <= s[i]
       <==> Full(s, offset) && AllFull(s, offset, offset + size)
  {
    if SegLo(s, i) <= offset {
      forall x | SegLo(s, i) <= x < s[i] ensures Full(s, x) {
        SegmentParity(s, i, x);
      }
      NextSegment(s, i, offset);
    } else if i > 0 {
      BelowTarget(s, i, offset);
    }
  }

  lemma BelowTarget(s: seq<int>, i: nat, offset: int)
    requires Canonical(s) && Solid(s, i) && 0 < i && offset < s[i - 1]
    requires forall j: nat :: j < i && Solid(s, j) ==> s[j] <= offset
    ensures !Full(s, offset)
  {
    if 0 <= offset {
      assert i >= 2 ==> Solid(s, i - 2);
      SegmentParity(s, i - 1, offset);
    }
  }

  lemma FlippedIsEmptied(s: seq<int>, t: seq<int>, lo: int, hi: int)
    requires Flipped(s, t, lo, hi) && AllFull(s, lo, hi)
    ensures Emptied(s, t, lo, hi)
  {
  }

  lemma ShrunkFromBelow(s: seq<int>, i: nat, v: int)
    requires Canonical(s) && 0 < i < |s| && s[i - 1] <= v < s[i] && AllFull(s, s[i - 1], v)
    ensures Canonical(s[i - 1 := v]) && Emptied(s, s[i - 1 := v], s[i - 1], v)
  {
    var t, lo := s[i - 1 := v], s[i - 1];
    forall x ensures Full(t, x) <==> Full(s, x) && !(lo <= x < v) {
      if 0 <= x {
        MoveCutFlips(s, i - 1, v, x);
      }
    }
  }

  lemma ShrunkFromAbove(s: seq<int>, i: nat, v: int)
    requires Canonical(s) && i < |s| && SegLo(s, i) < v <= s[i] && AllFull(s, v, s[i])
    ensures Canonical(s[i := v]) && Emptied(s, s[i := v], v, s[i])
  {
    var t, hi := s[i := v], s[i];
    forall x ensures Full(t, x) <==> Full(s, x) && !(v <= x < hi) {
      if 0 <= x {
        MoveCutFlips(s, i, v, x);
      }
    }
  }

  /** Filling an empty range and emptying it again leads back to the very same cuts. */
  lemma FillThenEmpty(s: seq<int>, t: seq<int>, u: seq<int>, lo: int, hi: int)
    requires Canonical(s) && Canonical(u) && AllEmpty(s, lo, hi)
    requires Filled(s, t, lo, hi) && Emptied(t, u, lo, hi)
    ensures u == s
  {
    CanonicalUnique(u, s);
  }

  class Space {
    var cuts: array<int>
    var count: nat

    ghost predicate Valid()
      reads this, cuts
    {
      && count <= cuts.Length && (cuts.Length == 0 || 16 <= cuts.Length)
      && Canonical(cuts[..count])
    }

    ghost function Cuts(): (s: seq<int>)
      reads this, cuts
      requires count <= cuts.Length
    {
      cuts[..count]
    }

    constructor ()
      ensures Valid() && fresh(cuts) && Cuts() == []
    {
      cuts := new int[0];
      count := 0;
    }

    /** Opens two places before index, growing the array when it is full. */
    method MakeRoom(index: nat)
      requires Valid() && index <= count
      modifies this, cuts
      ensures count == old(count) && count + 2 <= cuts.Length && 16 <= cuts.Length && (cuts == old(cuts) || fresh(cuts))
      ensures cuts[..index] == old(cuts[..index])
      ensures cuts[index + 2..count + 2] == old(cuts[index..count])
    {
      if count + 2 > cuts.Length {
        var capacity := cuts.Length * 2;
        if capacity == 0 {
          capacity := 16;
        }
        Grow(index, capacity);
      } else {
        Shift(index);
      }
    }

    method Shift(index: nat)
      requires index <= count && count + 2 <= cuts.Length
      modifies cuts
      ensures cuts[..index] == old(cuts[..index])
      ensures cuts[index + 2..count + 2] == old(cuts[index..count])
    {
      ghost var before := cuts[..];
      var i: int := count - 1;
      while index <= i
        invariant index - 1 <= i < count
        invariant forall j :: 0 <= j <= i ==> cuts[j] == before[j]
        invariant forall j :: i + 2 < j < count + 2 ==> cuts[j] == before[j - 2]
      {
        cuts[i + 2] := cuts[i];
        i := i - 1;
      }
      forall k | 0 <= k < count - index ensures cuts[index + 2..count + 2][k] == before[index..count][k] {
        assert cuts[index + 2 + k] == before[index + k];
      }
    }

    method Grow(index: nat, capacity: nat)
      requires 0 <= index <= count <= cuts.Length && count + 2 <= capacity
      modifies this`cuts
      ensures count == old(count) && fresh(cuts) && cuts.Length == capacity
      ensures cuts[..index] == old(cuts[..index])
      ensures cuts[index + 2..count + 2] == old(cuts[index..count])
    {
      var cuts1 := new int[capacity];
      for i := 0 to index
        invariant cuts == old(cuts)
        invariant forall j :: 0 <= j < i ==> cuts1[j] == cuts[j]
      {
        cuts1[i] := cuts[i];
      }
      for i := index to count
        invariant cuts == old(cuts)
        invariant forall j :: 0 <= j < index ==> cuts1[j] == cuts[j]
        invariant forall j :: index + 2 <= j < i + 2 ==> cuts1[j] == cuts[j - 2]
      {
        cuts1[i + 2] := cuts[i];
      }
      forall k | 0 <= k < count - index ensures cuts1[index + 2..count + 2][k] == cuts[index..count][k] {
        assert cuts1[index + 2 + k] == cuts[index + k];
      }
      cuts := cuts1;
    }

    /** Writes the cuts lo and hi before index. */
    method PlaceCuts(index: nat, lo: int, hi: int)
      requires Valid() && index <= count
      modifies this, cuts
      ensures count == old(count) + 2 <= cuts.Length && 16 <= cuts.Length && (cuts == old(cuts) || fresh(cuts))
      ensures Cuts() == Inserted(old(Cuts()), index, lo, hi)
    {
      ghost var s := Cuts();
      MakeRoom(index);
      cuts[index] := lo;
      cuts[index + 1] := hi;
      count := count + 2;
      Assembled(s, cuts[..], index, lo, hi);
    }

    /** Adds the cuts lo and hi before index and restores the canonical form (insertSegment). */
    method InsertSegment(index: nat, lo: int, hi: int)
      requires Valid() && index <= count
      requires SegLo(Cuts(), index) <= lo <= hi && (index < count ==> hi <= cuts[index])
      modifies this, cuts
      ensures Valid() && (cuts == old(cuts) || fresh(cuts))
      ensures Flipped(old(Cuts()), Cuts(), lo, hi)
    {
      ghost var s := Cuts();
      PlaceCuts(index, lo, hi);
      InsertedSorted(s, index, lo, hi);
      InsertedFront(s, cuts[..], index, lo, hi);
      var w := FuseRepeated(cuts, index, count);
      count := w;
      InsertedFlips(s, cuts[..w], index, lo, hi);
    }

    /** Aligned first fit (ncclSpaceAlloc); i is the index of the empty segment used. */
    method Alloc(limit: int, size: int, align: int) returns (res: Option<int>, ghost i: nat)
      requires Valid() && 0 <= limit && 0 <= size && 0 < align && IsPow2(align)
      modifies this, cuts
      ensures Valid() && (cuts == old(cuts) || fresh(cuts))
      ensures res.None? ==> Cuts() == old(Cuts())
                            && forall y :: y % align == 0 ==> !Fits(Cuts(), limit, size, y)
      ensures res.Some? ==> AllocatedIn(old(Cuts()), Cuts(), limit, size, align, i, res.value)
    {
      ghost var s := Cuts();
      var k := count % 2;
      while k <= count
        invariant k % 2 == |s| % 2 && k <= |s| + 2
        invariant cuts == old(cuts) && count == old(count) && cuts[..] == old(cuts[..])
        invariant NoneBefore(s, limit, size, align, k)
      {
        var lo := if k == 0 then 0 else cuts[k - 1];
        var hi := if k == count then limit else cuts[k];
        var off := AlignUp(lo, align);
        if off + size <= hi {
          i := k;
          TakeHole(k, limit, size, align, off);
          return Some(off), k;
        }
        NoRoomIn(s, limit, size, align, k);
        k := k + 2;
      }
      i := 0;
      FoundNone(s, limit, size, align);
      return None, 0;
    }

    /** Marks the place found in hole k as full. */
    method TakeHole(k: nat, limit: int, size: int, align: int, off: int)
      requires Valid() && 0 <= size && 0 < align && Hole(Cuts(), k) && NoneBefore(Cuts(), limit, size, align, k)
      requires off == AlignUp(SegLo(Cuts(), k), align) && off + size <= SegHi(Cuts(), k, limit)
      modifies this, cuts
      ensures Valid() && (cuts == old(cuts) || fresh(cuts))
      ensures AllocatedIn(old(Cuts()), Cuts(), limit, size, align, k, off)
    {
      AlignUpProps(SegLo(Cuts(), k), align);
      FillHole(k, limit, off, off + size);
    }

    /** Fills hole k from off to end. Moving a single cut, the normal case when the hole is neither the first segment
        nor used up, fills the gap below off too. */
    method FillHole(k: nat, limit: int, off: int, end: int)
      requires Valid() && Hole(Cuts(), k) && SegLo(Cuts(), k) <= off <= end <= SegHi(Cuts(), k, limit)
      modifies this, cuts
      ensures Valid() && (cuts == old(cuts) || fresh(cuts))
      ensures var s := old(Cuts());
              Filled(s, Cuts(), if k == 0 || end == SegHi(s, k, limit) then off else SegLo(s, k), end)
    {
      ghost var s := Cuts();
      HoleIsEmpty(s, k);
      if k == 0 || end == (if k == count then limit else cuts[k]) {
        InsertSegment(k, off, end);
        FlippedIsFilled(s, Cuts(), k, off, end);
      } else {
        cuts[k - 1] := end;
        assert Cuts() == s[k - 1 := end];
        MovedUp(s, k, end);
      }
    }

    /** Returns a range to the space (ncclSpaceFree); succeeds exactly when the whole range is full. */
    method Free(offset: int, size: int) returns (ok: bool)
      requires Valid() && 0 <= size
      modifies this, cuts
      ensures Valid() && (cuts == old(cuts) || fresh(cuts))
      ensures ok <==> Full(old(Cuts()), offset) && AllFull(old(Cuts()), offset, offset + size)
      ensures ok ==> Emptied(old(Cuts()), Cuts(), offset, offset + size)
      ensures !ok ==> Cuts() == old(Cuts())
    {
      ghost var s := Cuts();
      if count == 0 || cuts[count - 1] <= offset {
        FrontierBound(s, Max(0, offset));
        return false;
      }
      var i := FirstFullAbove(offset);
      FreeTarget(s, i, offset, size);
      var lo := if i == 0 then 0 else cuts[i - 1];
      var hi := cuts[i];
      if offset < lo || hi < offset + size {
        return false;
      }
      ReleaseIn(i, offset, size);
      return true;
    }

    /** The first full segment that ends above offset. */
    method FirstFullAbove(offset: int) returns (i: nat)
      requires Valid() && count > 0 && offset < cuts[count - 1]
      ensures Solid(Cuts(), i) && offset < cuts[i]
      ensures forall j: nat :: j < i && Solid(Cuts(), j) ==> cuts[j] <= offset
    {
      i := 1 - count % 2;
      while cuts[i] <= offset
        invariant i < count && i % 2 != count % 2
        invariant forall j: nat :: j < i && j % 2 != count % 2 ==> cuts[j] <= offset
        decreases count - i
      {
        i := i + 2;
      }
    }

    /** Takes the range out of full segment i. */
    method ReleaseIn(i: nat, offset: int, size: int)
      requires Valid() && i < count && 0 <= size && SegLo(Cuts(), i) <= offset < cuts[i] && offset + size <= cuts[i]
      requires AllFull(Cuts(), offset, offset + size)
      modifies this, cuts
      ensures Valid() && (cuts == old(cuts) || fresh(cuts))
      ensures Emptied(old(Cuts()), Cuts(), offset, offset + size)
    {
      ghost var s := Cuts();
      var lo := if i == 0 then 0 else cuts[i - 1];
      var hi := cuts[i];
      if i != 0 && lo == offset && offset + size != hi {
        ShrunkFromBelow(s, i, offset + size);
        cuts[i - 1] := offset + size;
        assert Cuts() == s[i - 1 := offset + size];
      } else if lo != offset && offset + size == hi {
        ShrunkFromAbove(s, i, offset);
        cuts[i] := offset;
        assert Cuts() == s[i := offset];
      } else {
        InsertSegment(i, offset, offset + size);
        FlippedIsEmptied(s, Cuts(), offset, offset + size);
      }
    }
  }

  lemma TakeThenRelease(s: seq<int>, t: seq<int>, u: seq<int>, p: int, off: int, hi: int)
    requires p <= off <= hi && Filled(s, t, p, hi) && Emptied(t, u, off, hi) && AllEmpty(s, off, hi)
    ensures Filled(s, u, p, off)
  {
  }

  lemma ThreeCuts(cuts: seq<int>, before: seq<int>)
    requires Canonical(cuts) && Filled([], before, 0, 12) && Emptied(before, cuts, 4, 8)
    ensures cuts == [4, 8, 12]
  {
    forall x ensures Full(cuts, x) <==> Full([4, 8, 12], x) {
      assert [4, 8, 12][..2] == [4, 8];
      AbovePair(4, 8, x);
    }
    CanonicalUnique(cuts, [4, 8, 12]);
  }

  /** An input for which the limit is passed: twelve units are allocated, the middle four given back, and four asked for
      with limit 5. They are placed in [4, 8). */
  method AboveLimit() returns (first: Option<int>, freed: bool, second: Option<int>)
    ensures first == Some(0) && freed && second == Some(4)
  {
    var space := new Space();
    assert IsPow2(1) by {
      assert Pow2(0) == 1;
    }
    ghost var i, j;
    first, i := space.Alloc(12, 12, 1);
    assert first.Some? by {
      assert FitsIn([], 12, 12, 0, 0);
      assert Fits([], 12, 12, 0);
    }
    ghost var t := space.Cuts();
    freed := space.Free(4, 4);
    ThreeCuts(space.Cuts(), t);
    FitAboveLimit();
    second, j := space.Alloc(5, 4, 1);
    if second.Some? {
      AllocationPromise([4, 8, 12], space.Cuts(), 5, 4, 1, j, second.value);
      FirstFitUnique([4, 8, 12], 5, 4, 1, 4, second.value);
    }
  }

  /** Freeing what was just allocated succeeds. It restores the very same cuts, except that alignment padding
      [p, offset) swallowed by the allocation stays full. */
  method AllocThenFree(space: Space, limit: int, size: int, align: int)
    returns (res: Option<int>, freed: bool, ghost p: int)
    requires space.Valid() && 0 <= limit && 0 < size && 0 < align && IsPow2(align)
    modifies space, space.cuts
    ensures space.Valid() && freed == res.Some?
    ensures res.Some? ==> res.value - align < p <= res.value && Filled(old(space.Cuts()), space.Cuts(), p, res.value)
    ensures res.Some? && p == res.value ==> space.Cuts() == old(space.Cuts())
    ensures res.None? ==> space.Cuts() == old(space.Cuts())
  {
    ghost var s := space.Cuts();
    ghost var i;
    res, i := space.Alloc(limit, size, align);
    freed, p := false, 0;
    if res.Some? {
      var off := res.value;
      ghost var t := space.Cuts();
      AllocationPromise(s, t, limit, size, align, i, off);
      AlignUpProps(SegLo(s, i), align);
      assert Full(t, off);
      p := if i == 0 || off + size == SegHi(s, i, limit) then off else SegLo(s, i);
      freed := space.Free(off, size);
      TakeThenRelease(s, t, space.Cuts(), p, off, off + size);
      if p == off {
        FillThenEmpty(s, t, space.Cuts(), off, off + size);
      }
    }
  }

  // ---------------------------------------------------------------- a client

  /** The ranges a client holds, by offset: full, non-empty, and disjoint. */
  ghost predicate LiveOk(cuts: seq<int>, live: map<int, int>) {
    && (forall o {:trigger live[o]} :: o in live ==> live[o] > 0 && AllFull(cuts, o, o + live[o]))
    && forall o, p {:trigger live[o], live[p]} :: o in live && p in live && o != p ==>
         o + live[o] <= p || p + live[p] <= o
  }

  /** A new range lies outside all ranges held. */
  lemma TakeKeepsLive(s: seq<int>, t: seq<int>, live: map<int, int>, off: int, size: int)
    requires LiveOk(s, live) && size > 0 && AllEmpty(s, off, off + size) && AllFull(t, off, off + size)
    requires forall x :: Full(s, x) ==> Full(t, x)
    ensures off !in live && LiveOk(t, live[off := size])
  {
    assert !Full(s, off);
    forall o | o in live ensures o + live[o] <= off || off + size <= o {
      var x := Max(o, off);
      assert AllFull(s, o, o + live[o]);
      assert x < o + live[o] && x < off + size ==> Full(s, x) && !Full(s, x);
    }
  }

  lemma GiveKeepsLive(s: seq<int>, t: seq<int>, live: map<int, int>, off: int)
    requires LiveOk(s, live) && off in live && Emptied(s, t, off, off + live[off])
    ensures LiveOk(t, live - {off})
  {
    forall o | o in live && o != off ensures AllFull(t, o, o + live[o]) {
      assert AllFull(s, o, o + live[o]);
    }
  }

  datatype Event = Take(limit: nat, size: nat, align: nat) | Give(offset: int)

  /** No request asks for more than limit. */
  ghost predicate Within(events: seq<Event>, limit: int) {
    forall i :: 0 <= i < |events| && events[i].Take? ==> events[i].limit <= limit
  }

  ghost predicate LiveWithin(live: map<int, int>, limit: int) {
    forall o {:trigger live[o]} :: o in live ==> o + live[o] <= limit
  }

  /** What is held is full, so it ends below the frontier. */
  lemma LiveBelowFrontier(cuts: seq<int>, live: map<int, int>, limit: int)
    requires Canonical(cuts) && LiveOk(cuts, live) && 0 <= limit && Frontier(cuts) <= limit
    ensures LiveWithin(live, limit)
  {
    FrontierBound(cuts, limit);
    forall o | o in live ensures o + live[o] <= limit {
      assert AllFull(cuts, o, o + live[o]);
      assert Full(cuts, o + live[o] - 1);
    }
  }

  /** A client that takes ranges and gives back ones it holds, in any order: the ranges it holds never overlap, and
      every one of them can be given back. When no request exceeds a limit, nothing held ever does. */
  method Serve(events: seq<Event>, ghost limit: nat) returns (space: Space, live: map<int, int>, refused: bool)
    requires forall i :: 0 <= i < |events| && events[i].Take? ==> events[i].size > 0 && IsPow2(events[i].align)
    ensures space.Valid() && LiveOk(space.Cuts(), live) && !refused
    ensures Within(events, limit) ==> LiveWithin(live, limit)
  {
    space := new Space();
    live, refused := map[], false;
    for i := 0 to |events|
      invariant space.Valid() && fresh(space) && fresh(space.cuts)
      invariant LiveOk(space.Cuts(), live) && !refused
      invariant Within(events, limit) ==> Frontier(space.Cuts()) <= limit
    {
      var ok;
      live, ok := ServeOne(space, live, events[i], limit);
      refused := refused || !ok;
    }
    if Within(events, limit) {
      LiveBelowFrontier(space.Cuts(), live, limit);
    }
  }

  /** Taking fails only when nothing fits. */
  method ServeOne(space: Space, live: map<int, int>, e: Event, ghost limit: nat)
    returns (live': map<int, int>, ok: bool)
    requires space.Valid() && LiveOk(space.Cuts(), live) && (e.Take? ==> e.size > 0 && IsPow2(e.align))
    modifies space, space.cuts
    ensures space.Valid() && (space.cuts == old(space.cuts) || fresh(space.cuts))
    ensures LiveOk(space.Cuts(), live') && ok
    ensures old(Frontier(space.Cuts())) <= limit && (e.Take? ==> e.limit <= limit) ==> Frontier(space.Cuts()) <= limit
    ensures e.Give? ==> live' == live - {e.offset}
    ensures e.Take? && live' == live ==> forall y :: y % e.align == 0 ==> !Fits(old(space.Cuts()), e.limit, e.size, y)
    ensures e.Take? && live' != live ==>
              exists off {:trigger Fits(old(space.Cuts()), e.limit, e.size, off)} ::
                Fits(old(space.Cuts()), e.limit, e.size, off) && off !in live && live' == live[off := e.size]
  {
    ghost var s := space.Cuts();
    live', ok := live, true;
    match e {
      case Take(upTo, size, align) => {
        assert align > 0;
        ghost var i;
        var res;
        res, i := space.Alloc(upTo, size, align);
        if res.Some? {
          AllocationPromise(s, space.Cuts(), upTo, size, align, i, res.value);
          TakeKeepsLive(s, space.Cuts(), live, res.value, size);
          live' := live[res.value := size];
        }
      }
      case Give(offset) => {
        if offset in live {
          assert AllFull(s, offset, offset + live[offset]);
          ok := space.Free(offset, live[offset]);
          GiveKeepsLive(s, space.Cuts(), live, offset);
          FrontierBound(s, limit);
          FrontierBound(space.Cuts(), limit);
          live' := live - {offset};
        } else {
          assert live - {offset} == live;
        }
      }
    }
  }
}
