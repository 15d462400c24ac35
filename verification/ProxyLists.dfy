/** Index-linked lists threaded through one shared array of proxy operations. */
module ProxyLists {
  import opened Seqs

  /** What a producer wants done; opCount decides which operations are aggregated. */
  datatype Work = Work(opCount: nat, body: int)

  /** A slot of the shared pool: an operation and the index of the next slot of the list it is in. */
  datatype Op = Op(next: int, work: Work)

  /** The list a slot is in. */
  datatype Loc = Free | Pending | Posted | Fetched | Chained | Returned

  ghost predicate InBounds(ops: seq<Op>, s: seq<int>) {
    forall i :: 0 <= i < |s| ==> 0 <= s[i] < |ops|
  }

  /** Consecutive elements of s are linked; nothing is said about the last one. */
  ghost predicate Threaded(ops: seq<Op>, s: seq<int>) {
    InBounds(ops, s) && forall i :: 0 <= i < |s| - 1 ==> ops[s[i]].next == s[i + 1]
  }

  /** head starts a list that runs through s and ends with -1. */
  ghost predicate Linked(ops: seq<Op>, head: int, s: seq<int>) {
    && Threaded(ops, s)
    && head == (if s == [] then -1 else s[0])
    && (s != [] ==> ops[s[|s| - 1]].next == -1)
  }

  /** s lists exactly the slots of [lo, hi) that are in the given kind of list, once each. */
  ghost predicate Listed(loc: seq<Loc>, s: seq<int>, kind: Loc, lo: int, hi: int) {
    && Distinct(s)
    && 0 <= lo <= hi <= |loc|
    && forall x :: x in s <==> lo <= x < hi && loc[x] == kind
  }

  function SetLoc(loc: seq<Loc>, s: seq<int>, kind: Loc): (l: seq<Loc>)
    ensures |l| == |loc| && forall x :: 0 <= x < |loc| ==> l[x] == if x in s then kind else loc[x]
  {
    seq(|loc|, x requires 0 <= x < |loc| => if x in s then kind else loc[x])
  }

  function WorkAt(ops: seq<Op>, x: int): Work {
    if 0 <= x < |ops| then ops[x].work else Work(0, 0)
  }

  function Works(ops: seq<Op>, s: seq<int>): (w: seq<Work>)
    ensures |w| == |s| && forall i :: 0 <= i < |s| ==> w[i] == WorkAt(ops, s[i])
  {
    seq(|s|, i requires 0 <= i < |s| => WorkAt(ops, s[i]))
  }

  /** Slots of s that lie in [lo, hi), in order. */
  function Of(s: seq<int>, lo: int, hi: int): (t: seq<int>)
    ensures forall x :: x in t <==> x in s && lo <= x < hi
  {
    if s == [] then []
    else Of(s[..|s| - 1], lo, hi) + (if lo <= s[|s| - 1] < hi then [s[|s| - 1]] else [])
  }

  lemma {:induction false} OfConcat(s: seq<int>, t: seq<int>, lo: int, hi: int)
    ensures Of(s + t, lo, hi) == Of(s, lo, hi) + Of(t, lo, hi)
  {
    if t == [] {
      assert s + t == s;
    } else {
      OfConcat(s, t[..|t| - 1], lo, hi);
      assert (s + t)[..|s + t| - 1] == s + t[..|t| - 1];
    }
  }

  lemma OfFirst(s: seq<int>, lo: int, hi: int)
    requires s != []
    ensures Of(s, lo, hi) == (if lo <= s[0] < hi then [s[0]] else []) + Of(s[1..], lo, hi)
  {
    assert s == [s[0]] + s[1..] && [s[0]][..0] == [];
    OfConcat([s[0]], s[1..], lo, hi);
  }

  lemma {:induction false} OfAll(s: seq<int>, lo: int, hi: int)
    requires forall x :: x in s ==> lo <= x < hi
    ensures Of(s, lo, hi) == s
  {
    if s != [] {
      var t := s[..|s| - 1];
      assert s[|s| - 1] in s && forall x :: x in t ==> x in s;
      OfAll(t, lo, hi);
    }
  }

  lemma {:induction false} OfNone(s: seq<int>, lo: int, hi: int)
    requires forall x :: x in s ==> !(lo <= x < hi)
    ensures Of(s, lo, hi) == []
  {
    if s != [] {
      var t := s[..|s| - 1];
      assert s[|s| - 1] in s && forall x :: x in t ==> x in s;
      OfNone(t, lo, hi);
    }
  }

  // ---------------------------------------------------------------- list surgery

  lemma LinkedFrame(ops: seq<Op>, ops': seq<Op>, head: int, s: seq<int>)
    requires Linked(ops, head, s) && |ops'| == |ops|
    requires forall x :: x in s ==> 0 <= x < |ops| && ops'[x].next == ops[x].next
    ensures Linked(ops', head, s)
  {
    forall i | 0 <= i < |s| ensures ops'[s[i]].next == ops[s[i]].next {
      assert s[i] in s;
    }
  }

  lemma ThreadedFrame(ops: seq<Op>, ops': seq<Op>, s: seq<int>)
    requires Threaded(ops, s) && |ops'| == |ops|
    requires forall x :: x in s ==> 0 <= x < |ops| && ops'[x].next == ops[x].next
    ensures Threaded(ops', s)
  {
    forall i | 0 <= i < |s| ensures ops'[s[i]].next == ops[s[i]].next {
      assert s[i] in s;
    }
  }

  lemma PopFront(ops: seq<Op>, head: int, s: seq<int>)
    requires Linked(ops, head, s) && s != []
    ensures Linked(ops, ops[s[0]].next, s[1..])
  {
  }

  /** Linking one more slot behind the last one. */
  lemma PushBack(ops: seq<Op>, ops': seq<Op>, head: int, s: seq<int>, x: int)
    requires Linked(ops, head, s) && Distinct(s) && x !in s && 0 <= x < |ops| && |ops'| == |ops|
    requires ops'[x].next == -1
    requires s != [] ==> ops'[s[|s| - 1]].next == x
    requires forall i :: 0 <= i < |s| - 1 ==> ops'[s[i]].next == ops[s[i]].next
    ensures Linked(ops', if s == [] then x else head, s + [x])
  {
  }

  /** Cutting a list after its first k slots. */
  lemma CutList(ops: seq<Op>, ops': seq<Op>, h: int, s: seq<int>, k: nat)
    requires Linked(ops, h, s) && 0 < k < |s| && |ops'| == |ops|
    requires ops'[s[k - 1]].next == -1
    requires forall i :: 0 <= i < |s| && i != k - 1 ==> ops'[s[i]].next == ops[s[i]].next
    ensures Linked(ops', h, s[..k]) && Linked(ops', s[k], s[k..])
  {
    forall i | 0 <= i < |s| - k - 1 ensures ops'[s[k..][i]].next == s[k..][i + 1] {
      assert ops[s[k + i]].next == s[k + i + 1];
    }
  }

  // ---------------------------------------------------------------- moving slots between lists

  lemma ListedFrame(loc: seq<Loc>, loc': seq<Loc>, s: seq<int>, kind: Loc, lo: int, hi: int)
    requires Listed(loc, s, kind, lo, hi) && |loc'| == |loc|
    requires forall x :: lo <= x < hi ==> (loc'[x] == kind <==> loc[x] == kind)
    ensures Listed(loc', s, kind, lo, hi)
  {
  }

  /** A slot joins the end of a list. */
  lemma ListedPush(loc: seq<Loc>, s: seq<int>, x: int, kind: Loc, lo: int, hi: int)
    requires Listed(loc, s, kind, lo, hi) && lo <= x < hi && loc[x] != kind
    ensures Listed(loc[x := kind], s + [x], kind, lo, hi)
  {
    DistinctAppend(s, x);
  }

  lemma ListedPushFront(loc: seq<Loc>, s: seq<int>, x: int, kind: Loc, lo: int, hi: int)
    requires Listed(loc, s, kind, lo, hi) && lo <= x < hi && loc[x] != kind
    ensures Listed(loc[x := kind], [x] + s, kind, lo, hi)
  {
    assert forall y :: y in [x] + s <==> y == x || y in s;
  }

  lemma ListedPop(loc: seq<Loc>, s: seq<int>, kind: Loc, other: Loc, lo: int, hi: int)
    requires Listed(loc, s, kind, lo, hi) && s != [] && other != kind && 0 <= s[0] < |loc|
    ensures Listed(loc[s[0] := other], s[1..], kind, lo, hi)
  {
    assert forall y :: y in s <==> y == s[0] || y in s[1..];
    assert s[0] !in s[1..];
  }

  /** A whole list t moves behind s. */
  lemma ListedJoin(loc: seq<Loc>, loc': seq<Loc>, s: seq<int>, t: seq<int>, kind: Loc, lo: int, hi: int)
    requires Listed(loc, s, kind, lo, hi) && Distinct(t) && |loc'| == |loc|
    requires forall x :: x in t ==> lo <= x < hi && loc[x] != kind
    requires forall x :: lo <= x < hi ==> (loc'[x] == kind <==> loc[x] == kind || x in t)
    ensures Listed(loc', s + t, kind, lo, hi)
  {
    forall i, j | 0 <= i < j < |s + t| ensures (s + t)[i] != (s + t)[j] {
      if i < |s| <= j {
        assert s[i] in s && t[j - |s|] in t;
      }
    }
  }

  /** The first k slots of a list leave it. */
  lemma ListedDrop(loc: seq<Loc>, loc': seq<Loc>, s: seq<int>, k: nat, kind: Loc, lo: int, hi: int)
    requires Listed(loc, s, kind, lo, hi) && k <= |s| && |loc'| == |loc|
    requires forall x :: lo <= x < hi ==> (loc'[x] == kind <==> loc[x] == kind && x !in s[..k])
    ensures Listed(loc', s[k..], kind, lo, hi)
  {
    assert s == s[..k] + s[k..];
    forall x | x in s[k..] ensures x !in s[..k] {
    }
    assert forall x :: x in s <==> x in s[..k] || x in s[k..];
  }

  lemma WorksConcat(ops: seq<Op>, s: seq<int>, t: seq<int>)
    ensures Works(ops, s + t) == Works(ops, s) + Works(ops, t)
  {
  }

  lemma WorksFrame(ops: seq<Op>, ops': seq<Op>, s: seq<int>)
    requires |ops'| == |ops|
    requires forall x :: x in s && 0 <= x < |ops| ==> ops'[x].work == ops[x].work
    ensures Works(ops', s) == Works(ops, s)
  {
    forall i | 0 <= i < |s| ensures WorkAt(ops', s[i]) == WorkAt(ops, s[i]) {
      assert s[i] in s;
    }
  }
}
