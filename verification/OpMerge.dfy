/** Merging the channels' queues of proxy operations into the plan's queue, by an id whose lowest bit is a tag. */
module OpMerge {
  import opened Seqs

  const TWO63 := 0x8000_0000_0000_0000
  const NO_HEAD := 0xffff_ffff_ffff_ffff

  /** An unsigned 64-bit id: a count, and in its lowest bit whether the operation is point-to-point. */
  type Id = x: nat | x <= NO_HEAD

  datatype ProxyOp = ProxyOp(id: Id, body: int)

  /** The id rotated right by one bit. */
  function Key(id: Id): (k: Id) {
    id / 2 + (id % 2) * TWO63
  }

  /** Rotation moves the tag to the front: collectives come before point-to-point operations, each in id order; only
      the id with all bits set has the greatest key. */
  lemma KeyOrder(a: Id, b: Id)
    ensures Key(a) < Key(b) <==> a % 2 < b % 2 || (a % 2 == b % 2 && a < b)
    ensures Key(a) == NO_HEAD <==> a == NO_HEAD
  {
  }

  function HeadId(q: seq<ProxyOp>): Id {
    if q == [] then NO_HEAD else q[0].id
  }

  /** What the merge took from channel c, in order. */
  function From(out: seq<ProxyOp>, src: seq<nat>, c: nat): (s: seq<ProxyOp>)
    requires |src| == |out|
  {
    if out == [] then []
    else From(out[..|out| - 1], src[..|src| - 1], c) + if src[|src| - 1] == c then [out[|out| - 1]] else []
  }

  /** out consists of the channels' queues, each taken in its order; src tells where each operation came from. */
  ghost predicate Interleaves(out: seq<ProxyOp>, src: seq<nat>, queues: seq<seq<ProxyOp>>) {
    && |src| == |out| && (forall i :: 0 <= i < |src| ==> src[i] < |queues|)
    && forall c: nat {:trigger From(out, src, c)} :: c < |queues| ==> From(out, src, c) == queues[c]
  }

  ghost predicate SortedOps(s: seq<ProxyOp>) {
    forall i, j :: 0 <= i < j < |s| ==> Key(s[i].id) <= Key(s[j].id)
  }

  ghost predicate AllSorted(queues: seq<seq<ProxyOp>>) {
    forall c :: 0 <= c < |queues| ==> SortedOps(queues[c])
  }

  ghost predicate HasSentinel(queues: seq<seq<ProxyOp>>) {
    exists c, i :: 0 <= c < |queues| && 0 <= i < |queues[c]| && queues[c][i].id == NO_HEAD
  }

  // ---------------------------------------------------------------- the loop's invariant

  /** What was taken from each channel followed by what is left of it is its queue. */
  ghost predicate Taken(out: seq<ProxyOp>, src: seq<nat>, rest: seq<seq<ProxyOp>>, queues: seq<seq<ProxyOp>>) {
    && |src| == |out| && |rest| == |queues| && (forall i :: 0 <= i < |src| ==> src[i] < |queues|)
    && forall c: nat {:trigger From(out, src, c)} :: c < |queues| ==> From(out, src, c) + rest[c] == queues[c]
  }

  /** c has the least head: no other head comes before it, and none of a lower channel ties with it. */
  ghost predicate IsLeast(rest: seq<seq<ProxyOp>>, c: nat) {
    && c < |rest| && rest[c] != [] && Key(rest[c][0].id) < NO_HEAD
    && forall d :: 0 <= d < |rest| && rest[d] != [] ==>
         Key(rest[c][0].id) <= Key(rest[d][0].id) && (d < c ==> Key(rest[c][0].id) < Key(rest[d][0].id))
  }

  /** Finds the channel with the least head; -1 when every head has the greatest id. */
  method FindLeast(headIds: seq<Id>, channelUbound: nat, ghost rest: seq<seq<ProxyOp>>) returns (c: int)
    requires |headIds| == |rest| >= channelUbound
    requires forall d :: 0 <= d < |rest| ==> headIds[d] == HeadId(rest[d]) && (d >= channelUbound ==> rest[d] == [])
    ensures c == -1 ==> forall d :: 0 <= d < |rest| && rest[d] != [] ==> rest[d][0].id == NO_HEAD
    ensures c != -1 ==> c >= 0 && IsLeast(rest, c)
  {
    c := -1;
    var minId := NO_HEAD;
    for c1 := 0 to channelUbound
      invariant c == -1 ==> minId == NO_HEAD && forall d :: 0 <= d < c1 ==> headIds[d] == NO_HEAD
      invariant c != -1 ==> 0 <= c < c1 && minId == Key(headIds[c]) < NO_HEAD
      invariant c != -1 ==> forall d :: 0 <= d < c1 ==> minId <= Key(headIds[d]) && (d < c ==> minId < Key(headIds[d]))
    {
      KeyOrder(headIds[c1], headIds[c1]);
      if Key(headIds[c1]) < minId {
        c, minId := c1, Key(headIds[c1]);
      }
    }
  }

  lemma TakeOne(out: seq<ProxyOp>, src: seq<nat>, rest: seq<seq<ProxyOp>>, queues: seq<seq<ProxyOp>>, c: nat)
    requires Taken(out, src, rest, queues) && c < |rest| && rest[c] != []
    ensures Taken(out + [rest[c][0]], src + [c], rest[c := rest[c][1..]], queues)
  {
    var out', src', rest' := out + [rest[c][0]], src + [c], rest[c := rest[c][1..]];
    assert out'[..|out'| - 1] == out && src'[..|src'| - 1] == src;
    forall d: nat | d < |queues| ensures From(out', src', d) + rest'[d] == queues[d] {
      assert From(out, src, d) + rest[d] == queues[d];
      assert d == c ==> rest[c] == [rest[c][0]] + rest'[c];
    }
  }

  /** The output so far is sorted and comes before everything left. */
  ghost predicate Ordered(out: seq<ProxyOp>, rest: seq<seq<ProxyOp>>) {
    && SortedOps(out) && AllSorted(rest)
    && forall i, c :: 0 <= i < |out| && 0 <= c < |rest| && rest[c] != [] ==> Key(out[i].id) <= Key(rest[c][0].id)
  }

  lemma TakeOrdered(out: seq<ProxyOp>, rest: seq<seq<ProxyOp>>, c: nat)
    requires Ordered(out, rest) && IsLeast(rest, c)
    ensures Ordered(out + [rest[c][0]], rest[c := rest[c][1..]])
  {
    var rest' := rest[c := rest[c][1..]];
    assert SortedOps(rest[c]);
    forall d | 0 <= d < |rest'| ensures SortedOps(rest'[d]) {
      assert SortedOps(rest[d]);
    }
  }

  function CountHeads(rest: seq<seq<ProxyOp>>): nat {
    if rest == [] then 0 else CountHeads(rest[..|rest| - 1]) + if rest[|rest| - 1] != [] then 1 else 0
  }

  /** The merge's bookkeeping describes the queues that are left. */
  ghost predicate HeadsOk(headIds: seq<Id>, nHeads: nat, channelUbound: nat, rest: seq<seq<ProxyOp>>) {
    && |headIds| == |rest| >= channelUbound && nHeads == CountHeads(rest)
    && forall d :: 0 <= d < |rest| ==> headIds[d] == HeadId(rest[d]) && (d >= channelUbound ==> rest[d] == [])
  }

  lemma {:induction false} CountUpdate(rest: seq<seq<ProxyOp>>, c: nat, q: seq<ProxyOp>)
    requires c < |rest| && rest[c] != []
    ensures CountHeads(rest[c := q]) == CountHeads(rest) - if q == [] then 1 else 0
  {
    var k := |rest| - 1;
    if c == k {
      assert rest[c := q][..k] == rest[..k];
    } else {
      assert rest[c := q][..k] == rest[..k][c := q];
      CountUpdate(rest[..k], c, q);
    }
  }

  lemma {:induction false} CountZero(rest: seq<seq<ProxyOp>>)
    ensures CountHeads(rest) == 0 <==> forall d :: 0 <= d < |rest| ==> rest[d] == []
  {
    if rest != [] {
      CountZero(rest[..|rest| - 1]);
    }
  }

  function TotalLeft(rest: seq<seq<ProxyOp>>): nat {
    if rest == [] then 0 else TotalLeft(rest[..|rest| - 1]) + |rest[|rest| - 1]|
  }

  lemma {:induction false} TotalDrops(rest: seq<seq<ProxyOp>>, c: nat)
    requires c < |rest| && rest[c] != []
    ensures TotalLeft(rest[c := rest[c][1..]]) == TotalLeft(rest) - 1
  {
    var k := |rest| - 1;
    if c == k {
      assert rest[c := rest[c][1..]][..k] == rest[..k];
    } else {
      assert rest[c := rest[c][1..]][..k] == rest[..k][c := rest[c][1..]];
      TotalDrops(rest[..k], c);
    }
  }

  method ScanHeads(queues: seq<seq<ProxyOp>>) returns (headIds: seq<Id>, nHeads: nat, channelUbound: nat)
    ensures HeadsOk(headIds, nHeads, channelUbound, queues)
  {
    headIds, nHeads, channelUbound := [], 0, 0;
    for c := 0 to |queues|
      invariant |headIds| == c && channelUbound <= c && nHeads == CountHeads(queues[..c])
      invariant forall d :: 0 <= d < c ==> headIds[d] == HeadId(queues[d]) && (d >= channelUbound ==> queues[d] == [])
    {
      assert queues[..c + 1][..c] == queues[..c];
      headIds := headIds + [HeadId(queues[c])];
      if queues[c] != [] {
        nHeads, channelUbound := nHeads + 1, c + 1;
      }
    }
    assert queues[..|queues|] == queues;
  }

  /** The next head of channel c takes the place of the one just dequeued. */
  method NextHead(headIds: seq<Id>, nHeads: nat, channelUbound: nat, ghost rest: seq<seq<ProxyOp>>, c: nat,
                  q: seq<ProxyOp>)
    returns (headIds': seq<Id>, nHeads': nat)
    requires HeadsOk(headIds, nHeads, channelUbound, rest) && c < |rest| && rest[c] != [] && q == rest[c][1..]
    ensures HeadsOk(headIds', nHeads', channelUbound, rest[c := q])
  {
    CountUpdate(rest, c, q);
    headIds' := headIds[c := HeadId(q)];
    nHeads' := nHeads - if q == [] then 1 else 0;
  }

  lemma SentinelLeft(out: seq<ProxyOp>, src: seq<nat>, rest: seq<seq<ProxyOp>>, queues: seq<seq<ProxyOp>>,
                     headIds: seq<Id>, nHeads: nat, channelUbound: nat)
    requires Taken(out, src, rest, queues) && HeadsOk(headIds, nHeads, channelUbound, rest) && nHeads != 0
    requires forall d :: 0 <= d < |rest| && rest[d] != [] ==> rest[d][0].id == NO_HEAD
    ensures HasSentinel(queues)
  {
    CountZero(rest);
    var d: nat :| d < |rest| && rest[d] != [];
    assert From(out, src, d) + rest[d] == queues[d];
    assert queues[d][|From(out, src, d)|] == rest[d][0];
  }

  /** With no heads left everything was taken, and nothing that was taken is the sentinel. */
  lemma AllTaken(out: seq<ProxyOp>, src: seq<nat>, rest: seq<seq<ProxyOp>>, queues: seq<seq<ProxyOp>>, headIds: seq<Id>,
                 nHeads: nat, channelUbound: nat)
    requires Taken(out, src, rest, queues) && HeadsOk(headIds, nHeads, channelUbound, rest) && nHeads == 0
    requires forall i :: 0 <= i < |out| ==> out[i].id != NO_HEAD
    ensures Interleaves(out, src, queues) && !HasSentinel(queues)
  {
    CountZero(rest);
    forall c: nat | c < |queues| ensures From(out, src, c) == queues[c] {
      assert From(out, src, c) + rest[c] == queues[c];
    }
    forall c, i | 0 <= c < |queues| && 0 <= i < |queues[c]| ensures queues[c][i].id != NO_HEAD {
      FromOut(out, src, c);
      assert From(out, src, c) == queues[c];
      assert queues[c][i] in From(out, src, c);
    }
  }

  lemma {:induction false} FromOut(out: seq<ProxyOp>, src: seq<nat>, c: nat)
    requires |src| == |out|
    ensures forall x :: x in From(out, src, c) ==> x in out
  {
    if out != [] {
      FromOut(out[..|out| - 1], src[..|src| - 1], c);
    }
  }

  /** Merges the queues. It fails, with operations left, exactly when some operation carries the id that marks a channel
      without operations. */
  method Merge(queues: seq<seq<ProxyOp>>) returns (out: seq<ProxyOp>, src: seq<nat>, ok: bool)
    ensures ok <==> !HasSentinel(queues)
    ensures ok ==> Interleaves(out, src, queues)
    ensures AllSorted(queues) ==> SortedOps(out)
  {
    var rest := queues;
    out, src, ok := [], [], true;
    var headIds, nHeads, channelUbound := ScanHeads(queues);
    while nHeads != 0 && ok
      invariant Taken(out, src, rest, queues) && HeadsOk(headIds, nHeads, channelUbound, rest)
      invariant AllSorted(queues) ==> Ordered(out, rest)
      invariant forall i :: 0 <= i < |out| ==> out[i].id != NO_HEAD
      invariant !ok ==> HasSentinel(queues)
      decreases ok, TotalLeft(rest)
    {
      var c := FindLeast(headIds, channelUbound, rest);
      ok := c != -1;
      if ok {
        TakeOne(out, src, rest, queues, c);
        if AllSorted(queues) {
          TakeOrdered(out, rest, c);
        }
        KeyOrder(rest[c][0].id, rest[c][0].id);
        headIds, nHeads := NextHead(headIds, nHeads, channelUbound, rest, c, rest[c][1..]);
        TotalDrops(rest, c);
        out, src, rest := out + [rest[c][0]], src + [c], rest[c := rest[c][1..]];
      } else {
        SentinelLeft(out, src, rest, queues, headIds, nHeads, channelUbound);
      }
    }
    if ok {
      AllTaken(out, src, rest, queues, headIds, nHeads, channelUbound);
    }
  }

  function AllOps(queues: seq<seq<ProxyOp>>): seq<ProxyOp> {
    if queues == [] then [] else AllOps(queues[..|queues| - 1]) + queues[|queues| - 1]
  }

  lemma {:induction false} AllOpsGrow(queues: seq<seq<ProxyOp>>, c: nat, q: seq<ProxyOp>, x: ProxyOp)
    requires c < |queues| && queues[c] == q + [x]
    ensures multiset(AllOps(queues)) == multiset(AllOps(queues[c := q])) + multiset{x}
  {
    var k := |queues| - 1;
    if c == k {
      assert queues[c := q][..k] == queues[..k];
    } else {
      assert queues[c := q][..k] == queues[..k][c := q];
      AllOpsGrow(queues[..k], c, q, x);
    }
  }

  lemma {:induction false} AllOpsEmpty(queues: seq<seq<ProxyOp>>)
    requires forall c :: 0 <= c < |queues| ==> queues[c] == []
    ensures AllOps(queues) == []
  {
    if queues != [] {
      AllOpsEmpty(queues[..|queues| - 1]);
    }
  }

  /** The merge neither loses nor duplicates an operation. */
  lemma {:induction false} InterleavingPermutes(out: seq<ProxyOp>, src: seq<nat>, queues: seq<seq<ProxyOp>>)
    requires Interleaves(out, src, queues)
    ensures multiset(out) == multiset(AllOps(queues))
  {
    if out == [] {
      forall c: nat | c < |queues| ensures queues[c] == [] {
        assert From(out, src, c) == queues[c];
      }
      AllOpsEmpty(queues);
    } else {
      var k := |out| - 1;
      var c, front, srcFront := src[k], out[..k], src[..k];
      var before := queues[c := From(front, srcFront, c)];
      assert From(out, src, c) == From(front, srcFront, c) + [out[k]];
      forall d: nat | d < |before| ensures From(front, srcFront, d) == before[d] {
        assert From(out, src, d) == queues[d];
      }
      InterleavingPermutes(front, srcFront, before);
      AllOpsGrow(queues, c, From(front, srcFront, c), out[k]);
      assert out == front + [out[k]];
    }
  }
}
