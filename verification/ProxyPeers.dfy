/** What each step of the shared proxy-operation pool does to the lists of one peer and to the shared queues. */
module ProxyPeers {
  import opened Seqs
  import opened ProxyLists

  /** Two rounds of send and receive operations on all 64 channels with 8 operations per batch. */
  const MAX_OPS_PER_PEER := 2 * 64 * 2 * 8

  /** A producer's private cursors into the pool. */
  datatype Producer = Producer(freeOp: int, nextOps: int, nextOpsEnd: int, count: nat)

  /** Abstract lists of one peer's slots. */
  datatype Lists = Lists(free: seq<int>, pend: seq<int>, chain: seq<int>, ret: seq<int>)

  function Lo(peer: nat): nat {
    peer * MAX_OPS_PER_PEER
  }

  function Hi(peer: nat): nat {
    (peer + 1) * MAX_OPS_PER_PEER
  }

  /** The cursors of a peer describe its four private lists; Returned slots hang off the shared freeOps entry and
      Chained slots are the progress thread's own free chain. */
  ghost predicate PeerOk(ops: seq<Op>, loc: seq<Loc>, peer: nat, p: Producer, freeOps: int, chainHead: int,
                         chainEnd: int, l: Lists)
  {
    && |loc| == |ops|
    && Linked(ops, p.freeOp, l.free) && Listed(loc, l.free, Free, Lo(peer), Hi(peer))
    && Linked(ops, p.nextOps, l.pend) && Listed(loc, l.pend, Pending, Lo(peer), Hi(peer))
    && (l.pend != [] ==> p.nextOpsEnd == LastOf(l.pend)) && p.count == |l.pend|
    && Linked(ops, freeOps, l.ret) && Listed(loc, l.ret, Returned, Lo(peer), Hi(peer))
    && Threaded(ops, l.chain) && Listed(loc, l.chain, Chained, Lo(peer), Hi(peer))
    && chainHead == (if l.chain == [] then -1 else l.chain[0])
    && (l.chain != [] ==> chainEnd == LastOf(l.chain))
  }

  ghost predicate QueueOk(ops: seq<Op>, loc: seq<Loc>, head: int, s: seq<int>, kind: Loc) {
    |loc| == |ops| && Linked(ops, head, s) && Listed(loc, s, kind, 0, |ops|)
  }

  /** Everything a producer appended is, in order, delivered, fetched, posted or still pending. */
  ghost predicate OrderOk(ops: seq<Op>, peer: nat, appended: seq<Work>, delivered: seq<Work>,
                          fetched: seq<int>, posted: seq<int>, pend: seq<int>)
  {
    appended == delivered + Works(ops, Of(fetched, Lo(peer), Hi(peer)))
                + Works(ops, Of(posted, Lo(peer), Hi(peer))) + Works(ops, pend)
  }

  predicate InQueue(k: Loc) {
    k == Posted || k == Fetched
  }

  /** A change that does not touch the private lists of a peer. */
  ghost predicate Undisturbed(ops: seq<Op>, loc: seq<Loc>, ops': seq<Op>, loc': seq<Loc>, peer: nat) {
    && |ops'| == |ops| && |loc'| == |loc| == |ops|
    && forall x :: Lo(peer) <= x < Hi(peer) && x < |ops| ==>
         if InQueue(loc[x]) then InQueue(loc'[x]) else loc'[x] == loc[x] && ops'[x].next == ops[x].next
  }

  lemma LinkedKeeps(ops: seq<Op>, loc: seq<Loc>, ops': seq<Op>, loc': seq<Loc>, peer: nat, head: int, s: seq<int>,
                    kind: Loc)
    requires Undisturbed(ops, loc, ops', loc', peer) && !InQueue(kind)
    requires Listed(loc, s, kind, Lo(peer), Hi(peer))
    ensures Listed(loc', s, kind, Lo(peer), Hi(peer))
    ensures Linked(ops, head, s) ==> Linked(ops', head, s)
    ensures Threaded(ops, s) ==> Threaded(ops', s)
  {
    ListedFrame(loc, loc', s, kind, Lo(peer), Hi(peer));
    if Linked(ops, head, s) {
      LinkedFrame(ops, ops', head, s);
    }
    if Threaded(ops, s) {
      ThreadedFrame(ops, ops', s);
    }
  }

  lemma PeerFrame(ops: seq<Op>, loc: seq<Loc>, ops': seq<Op>, loc': seq<Loc>, peer: nat,
                  p: Producer, freeOps: int, chainHead: int, chainEnd: int, l: Lists)
    requires PeerOk(ops, loc, peer, p, freeOps, chainHead, chainEnd, l)
    requires Undisturbed(ops, loc, ops', loc', peer)
    ensures PeerOk(ops', loc', peer, p, freeOps, chainHead, chainEnd, l)
  {
    LinkedKeeps(ops, loc, ops', loc', peer, p.freeOp, l.free, Free);
    LinkedKeeps(ops, loc, ops', loc', peer, p.nextOps, l.pend, Pending);
    LinkedKeeps(ops, loc, ops', loc', peer, freeOps, l.ret, Returned);
    LinkedKeeps(ops, loc, ops', loc', peer, 0, l.chain, Chained);
  }

  lemma QueueFrame(ops: seq<Op>, loc: seq<Loc>, ops': seq<Op>, loc': seq<Loc>, head: int, s: seq<int>, kind: Loc)
    requires QueueOk(ops, loc, head, s, kind) && |ops'| == |ops| && |loc'| == |loc|
    requires forall x :: 0 <= x < |ops| ==> (loc'[x] == kind <==> loc[x] == kind)
    requires forall x :: 0 <= x < |ops| && loc[x] == kind ==> ops'[x].next == ops[x].next
    ensures QueueOk(ops', loc', head, s, kind)
  {
    LinkedFrame(ops, ops', head, s);
    ListedFrame(loc, loc', s, kind, 0, |ops|);
  }

  lemma OrderFrame(ops: seq<Op>, ops': seq<Op>, peer: nat, appended: seq<Work>, delivered: seq<Work>,
                   fetched: seq<int>, posted: seq<int>, pend: seq<int>)
    requires OrderOk(ops, peer, appended, delivered, fetched, posted, pend) && |ops'| == |ops|
    requires forall x :: (x in fetched || x in posted || x in pend) && 0 <= x < |ops| ==> ops'[x].work == ops[x].work
    ensures OrderOk(ops', peer, appended, delivered, fetched, posted, pend)
  {
    WorksFrame(ops, ops', Of(fetched, Lo(peer), Hi(peer)));
    WorksFrame(ops, ops', Of(posted, Lo(peer), Hi(peer)));
    WorksFrame(ops, ops', pend);
  }

  // ---------------------------------------------------------------- what each step does to a peer's lists

  /** The slots published by the progress thread become the producer's free list. */
  lemma RefillPeer(ops: seq<Op>, loc: seq<Loc>, peer: nat, p: Producer, freeOps: int, ch: int, ce: int, l: Lists)
    requires PeerOk(ops, loc, peer, p, freeOps, ch, ce, l) && p.freeOp == -1
    ensures l.free == []
    ensures PeerOk(ops, SetLoc(loc, l.ret, Free), peer, p.(freeOp := freeOps), -1, ch, ce, l.(free := l.ret, ret := []))
  {
    var loc' := SetLoc(loc, l.ret, Free);
    ListedFrame(loc, loc', l.pend, Pending, Lo(peer), Hi(peer));
    ListedFrame(loc, loc', l.chain, Chained, Lo(peer), Hi(peer));
    assert l.free == [];
    assert Listed(loc', l.ret, Free, Lo(peer), Hi(peer)) by {
      assert forall x :: Lo(peer) <= x < Hi(peer) ==> (loc[x] == Free <==> x in l.free);
    }
  }

  /** The first free slot is filled and linked behind the pending operations. */
  lemma TakePeer(ops: seq<Op>, loc: seq<Loc>, ops': seq<Op>, peer: nat, p: Producer, freeOps: int, ch: int, ce: int,
                 l: Lists)
    requires PeerOk(ops, loc, peer, p, freeOps, ch, ce, l) && l.free != [] && |ops'| == |ops|
    requires ops'[l.free[0]].next == -1
    requires l.pend != [] ==> ops'[LastOf(l.pend)].next == l.free[0]
    requires forall x :: 0 <= x < |ops| && x != l.free[0] && (l.pend != [] ==> x != LastOf(l.pend)) ==>
               ops'[x].next == ops[x].next
    ensures
      var x := l.free[0];
      var p' := Producer(ops[x].next, if l.pend == [] then x else p.nextOps, x, p.count + 1);
      PeerOk(ops', loc[x := Pending], peer, p', freeOps, ch, ce, l.(free := l.free[1..], pend := l.pend + [x]))
  {
    var x := l.free[0];
    TakeFree(ops, loc, ops', peer, p, l);
    TakePend(ops, loc, ops', peer, p, l);
    TakeOthers(ops, loc, ops', peer, freeOps, l);
  }

  lemma TakeFree(ops: seq<Op>, loc: seq<Loc>, ops': seq<Op>, peer: nat, p: Producer, l: Lists)
    requires |loc| == |ops| == |ops'| && l.free != []
    requires Linked(ops, p.freeOp, l.free) && Listed(loc, l.free, Free, Lo(peer), Hi(peer))
    requires Listed(loc, l.pend, Pending, Lo(peer), Hi(peer))
    requires forall x :: 0 <= x < |ops| && x != l.free[0] && (l.pend != [] ==> x != LastOf(l.pend)) ==>
               ops'[x].next == ops[x].next
    ensures l.free[0] in l.free
    ensures Linked(ops', ops[l.free[0]].next, l.free[1..])
    ensures Listed(loc[l.free[0] := Pending], l.free[1..], Free, Lo(peer), Hi(peer))
  {
    PopFront(ops, p.freeOp, l.free);
    ListedPop(loc, l.free, Free, Pending, Lo(peer), Hi(peer));
    forall y | y in l.free[1..] ensures 0 <= y < |ops| && ops'[y].next == ops[y].next {
      assert y in l.free && (l.pend != [] ==> LastOf(l.pend) in l.pend);
    }
    LinkedFrame(ops, ops', ops[l.free[0]].next, l.free[1..]);
  }

  lemma TakePend(ops: seq<Op>, loc: seq<Loc>, ops': seq<Op>, peer: nat, p: Producer, l: Lists)
    requires |loc| == |ops| == |ops'| && l.free != []
    requires Listed(loc, l.free, Free, Lo(peer), Hi(peer))
    requires Linked(ops, p.nextOps, l.pend) && Listed(loc, l.pend, Pending, Lo(peer), Hi(peer))
    requires 0 <= l.free[0] < |ops| && ops'[l.free[0]].next == -1
    requires l.pend != [] ==> ops'[LastOf(l.pend)].next == l.free[0]
    requires forall x :: 0 <= x < |ops| && x != l.free[0] && (l.pend != [] ==> x != LastOf(l.pend)) ==>
               ops'[x].next == ops[x].next
    ensures Linked(ops', if l.pend == [] then l.free[0] else p.nextOps, l.pend + [l.free[0]])
    ensures Listed(loc[l.free[0] := Pending], l.pend + [l.free[0]], Pending, Lo(peer), Hi(peer))
  {
    var x := l.free[0];
    assert x in l.free;
    forall i | 0 <= i < |l.pend| - 1 ensures ops'[l.pend[i]].next == ops[l.pend[i]].next {
      assert l.pend[i] in l.pend && l.pend[i] != LastOf(l.pend);
    }
    PushBack(ops, ops', p.nextOps, l.pend, x);
    ListedPush(loc, l.pend, x, Pending, Lo(peer), Hi(peer));
  }

  lemma TakeOthers(ops: seq<Op>, loc: seq<Loc>, ops': seq<Op>, peer: nat, freeOps: int, l: Lists)
    requires |loc| == |ops| == |ops'| && l.free != []
    requires Listed(loc, l.free, Free, Lo(peer), Hi(peer)) && Listed(loc, l.pend, Pending, Lo(peer), Hi(peer))
    requires Linked(ops, freeOps, l.ret) && Listed(loc, l.ret, Returned, Lo(peer), Hi(peer))
    requires Threaded(ops, l.chain) && Listed(loc, l.chain, Chained, Lo(peer), Hi(peer))
    requires 0 <= l.free[0] < |ops|
    requires forall x :: 0 <= x < |ops| && x != l.free[0] && (l.pend != [] ==> x != LastOf(l.pend)) ==>
               ops'[x].next == ops[x].next
    ensures Linked(ops', freeOps, l.ret) && Listed(loc[l.free[0] := Pending], l.ret, Returned, Lo(peer), Hi(peer))
    ensures Threaded(ops', l.chain) && Listed(loc[l.free[0] := Pending], l.chain, Chained, Lo(peer), Hi(peer))
  {
    var x := l.free[0];
    assert x in l.free && (l.pend != [] ==> LastOf(l.pend) in l.pend);
    LinkedFrame(ops, ops', freeOps, l.ret);
    ThreadedFrame(ops, ops', l.chain);
    ListedFrame(loc, loc[x := Pending], l.ret, Returned, Lo(peer), Hi(peer));
    ListedFrame(loc, loc[x := Pending], l.chain, Chained, Lo(peer), Hi(peer));
  }

  lemma Prefix(s: seq<int>, k: nat)
    requires k <= |s|
    ensures forall x :: x in s[..k] ==> x in s
    ensures forall x :: x in s[k..] ==> x in s
    ensures Distinct(s) ==> (forall x :: x in s[..k] ==> x !in s[k..])
    ensures forall x :: x in s ==> x in s[..k] || x in s[k..]
  {
    assert s == s[..k] + s[k..];
  }

  /** What posting the first k pending slots changes: the link at the end of the posted queue, the link at the cut. */
  ghost predicate PostChange(ops: seq<Op>, ops': seq<Op>, posted: seq<int>, pend: seq<int>, k: nat) {
    && |ops'| == |ops| && 0 < k <= |pend|
    && 0 <= pend[k - 1] < |ops| && ops'[pend[k - 1]].next == -1
    && (posted != [] ==> 0 <= LastOf(posted) < |ops| && ops'[LastOf(posted)].next == pend[0])
    && forall x :: 0 <= x < |ops| && x != pend[k - 1] && (posted != [] ==> x != LastOf(posted)) ==>
         ops'[x].next == ops[x].next
  }

  lemma PostPeer(ops: seq<Op>, loc: seq<Loc>, ops': seq<Op>, peer: nat, p: Producer, p': Producer, freeOps: int,
                 ch: int, ce: int, l: Lists, posted: seq<int>, k: nat)
    requires PeerOk(ops, loc, peer, p, freeOps, ch, ce, l) && Listed(loc, posted, Posted, 0, |ops|)
    requires PostChange(ops, ops', posted, l.pend, k)
    requires p'.freeOp == p.freeOp && p'.count == p.count - k
    requires p'.nextOps == (if k < |l.pend| then l.pend[k] else -1)
    requires k < |l.pend| ==> p'.nextOpsEnd == p.nextOpsEnd
    ensures PeerOk(ops', SetLoc(loc, l.pend[..k], Posted), peer, p', freeOps, ch, ce, l.(pend := l.pend[k..]))
  {
    PostPend(ops, loc, ops', peer, p, l.pend, posted, k);
    var loc' := SetLoc(loc, l.pend[..k], Posted);
    Prefix(l.pend, k);
    PostKeepsList(ops, loc, ops', peer, l.pend, posted, k, p.freeOp, l.free, Free);
    PostKeepsList(ops, loc, ops', peer, l.pend, posted, k, freeOps, l.ret, Returned);
    PostKeepsList(ops, loc, ops', peer, l.pend, posted, k, 0, l.chain, Chained);
  }

  lemma PostKeepsList(ops: seq<Op>, loc: seq<Loc>, ops': seq<Op>, peer: nat, pend: seq<int>, posted: seq<int>, k: nat,
                  head: int, s: seq<int>, kind: Loc)
    requires |loc| == |ops| && Listed(loc, posted, Posted, 0, |ops|) && Listed(loc, pend, Pending, Lo(peer), Hi(peer))
    requires PostChange(ops, ops', posted, pend, k)
    requires Listed(loc, s, kind, Lo(peer), Hi(peer)) && kind != Pending && kind != Posted
    ensures Listed(SetLoc(loc, pend[..k], Posted), s, kind, Lo(peer), Hi(peer))
    ensures Linked(ops, head, s) ==> Linked(ops', head, s)
    ensures Threaded(ops, s) ==> Threaded(ops', s)
  {
    var loc' := SetLoc(loc, pend[..k], Posted);
    Prefix(pend, k);
    assert pend[k - 1] in pend && (posted != [] ==> LastOf(posted) in posted);
    forall x | Lo(peer) <= x < Hi(peer) ensures loc'[x] == kind <==> loc[x] == kind {
      assert x in pend[..k] ==> loc[x] == Pending;
    }
    ListedFrame(loc, loc', s, kind, Lo(peer), Hi(peer));
    if Linked(ops, head, s) {
      LinkedFrame(ops, ops', head, s);
    }
    if Threaded(ops, s) {
      ThreadedFrame(ops, ops', s);
    }
  }

  lemma PostPend(ops: seq<Op>, loc: seq<Loc>, ops': seq<Op>, peer: nat, p: Producer, pend: seq<int>, posted: seq<int>,
                 k: nat)
    requires |loc| == |ops| && Linked(ops, p.nextOps, pend) && Listed(loc, pend, Pending, Lo(peer), Hi(peer))
    requires Listed(loc, posted, Posted, 0, |ops|) && PostChange(ops, ops', posted, pend, k)
    ensures Linked(ops', pend[0], pend[..k])
    ensures Linked(ops', if k < |pend| then pend[k] else -1, pend[k..])
    ensures Listed(SetLoc(loc, pend[..k], Posted), pend[k..], Pending, Lo(peer), Hi(peer))
  {
    forall i | 0 <= i < |pend| && i != k - 1 ensures ops'[pend[i]].next == ops[pend[i]].next {
      assert pend[i] in pend && pend[k - 1] in pend && (posted != [] ==> LastOf(posted) in posted);
    }
    if k < |pend| {
      CutList(ops, ops', p.nextOps, pend, k);
    } else {
      assert pend[..k] == pend;
    }
    var loc' := SetLoc(loc, pend[..k], Posted);
    Prefix(pend, k);
    forall x | Lo(peer) <= x < Hi(peer) ensures loc'[x] == Pending <==> loc[x] == Pending && x !in pend[..k] {
    }
    ListedDrop(loc, loc', pend, k, Pending, Lo(peer), Hi(peer));
  }

  lemma PostQueue(ops: seq<Op>, loc: seq<Loc>, ops': seq<Op>, peer: nat, p: Producer, pend: seq<int>, posted: seq<int>,
                  k: nat, head: int)
    requires Linked(ops, p.nextOps, pend) && Listed(loc, pend, Pending, Lo(peer), Hi(peer)) && Hi(peer) <= |ops|
    requires QueueOk(ops, loc, head, posted, Posted) && PostChange(ops, ops', posted, pend, k)
    ensures QueueOk(ops', SetLoc(loc, pend[..k], Posted), if posted == [] then pend[0] else head, posted + pend[..k],
                    Posted)
  {
    var loc' := SetLoc(loc, pend[..k], Posted);
    Prefix(pend, k);
    PostPend(ops, loc, ops', peer, p, pend, posted, k);
    forall i, j | 0 <= i < j < k ensures pend[..k][i] != pend[..k][j] {
    }
    forall x | x in pend[..k] ensures 0 <= x < |ops| && loc[x] != Posted {
    }
    ListedJoin(loc, loc', posted, pend[..k], Posted, 0, |ops|);
    if posted == [] {
      assert posted + pend[..k] == pend[..k];
    } else {
      PostThreads(ops, loc, ops', pend, posted, k, head);
    }
  }

  lemma PostThreads(ops: seq<Op>, loc: seq<Loc>, ops': seq<Op>, pend: seq<int>, posted: seq<int>, k: nat, head: int)
    requires |loc| == |ops| && Linked(ops, head, posted) && Listed(loc, posted, Posted, 0, |ops|) && posted != []
    requires forall x :: x in pend ==> 0 <= x < |ops| && loc[x] == Pending
    requires PostChange(ops, ops', posted, pend, k) && Linked(ops', pend[0], pend[..k])
    ensures Linked(ops', head, posted + pend[..k])
  {
    var t := pend[..k];
    assert pend[k - 1] in pend;
    forall i | 0 <= i < |posted| - 1 ensures ops'[posted[i]].next == ops[posted[i]].next {
      assert posted[i] in posted && posted[i] != LastOf(posted);
    }
    forall i | 0 <= i < |posted + t| - 1 ensures ops'[(posted + t)[i]].next == (posted + t)[i + 1] {
      if i >= |posted| {
        assert ops'[t[i - |posted|]].next == t[i - |posted| + 1];
      }
    }
  }

  /** A list splits where it is cut, and so does the work on it. */
  lemma WorksSplit(ops: seq<Op>, t: seq<int>, k: nat)
    requires k <= |t|
    ensures Works(ops, t) == Works(ops, t[..k]) + Works(ops, t[k..])
  {
    assert t == t[..k] + t[k..];
    WorksConcat(ops, t[..k], t[k..]);
  }

  lemma WorksGrow(ops: seq<Op>, s: seq<int>, t: seq<int>, lo: int, hi: int)
    requires forall x :: x in t ==> lo <= x < hi
    ensures Works(ops, Of(s + t, lo, hi)) == Works(ops, Of(s, lo, hi)) + Works(ops, t)
  {
    OfConcat(s, t, lo, hi);
    OfAll(t, lo, hi);
    WorksConcat(ops, Of(s, lo, hi), t);
  }

  lemma Regroup<T>(a: seq<T>, b: seq<T>, c: seq<T>, d: seq<T>, e: seq<T>)
    ensures a + b + c + (d + e) == a + b + (c + d) + e
  {
  }

  /** The posting producer's operations move over from pending to posted without changing their order. */
  lemma PostOrder(ops: seq<Op>, peer: nat, pend: seq<int>, k: nat,
                  appended: seq<Work>, delivered: seq<Work>, fetched: seq<int>, posted: seq<int>)
    requires k <= |pend| && forall x :: x in pend ==> Lo(peer) <= x < Hi(peer)
    requires OrderOk(ops, peer, appended, delivered, fetched, posted, pend)
    ensures OrderOk(ops, peer, appended, delivered, fetched, posted + pend[..k], pend[k..])
  {
    var lo, hi := Lo(peer), Hi(peer);
    WorksSplit(ops, pend, k);
    Prefix(pend, k);
    WorksGrow(ops, posted, pend[..k], lo, hi);
    Regroup(delivered, Works(ops, Of(fetched, lo, hi)), Works(ops, Of(posted, lo, hi)), Works(ops, pend[..k]),
            Works(ops, pend[k..]));
  }

  lemma PostOrderOther(ops: seq<Op>, peer: nat, q: nat, pend: seq<int>, k: nat,
                       appended: seq<Work>, delivered: seq<Work>, fetched: seq<int>, posted: seq<int>, pendQ: seq<int>)
    requires k <= |pend| && (forall x :: x in pend ==> Lo(peer) <= x < Hi(peer)) && q != peer
    requires OrderOk(ops, q, appended, delivered, fetched, posted, pendQ)
    ensures OrderOk(ops, q, appended, delivered, fetched, posted + pend[..k], pendQ)
  {
    OfConcat(posted, pend[..k], Lo(q), Hi(q));
    Prefix(pend, k);
    OfNone(pend[..k], Lo(q), Hi(q));
  }

  // ---------------------------------------------------------------- the progress thread

  lemma GrabKeepsPeer(ops: seq<Op>, loc: seq<Loc>, posted: seq<int>, peer: nat)
    requires |loc| == |ops| && Listed(loc, posted, Posted, 0, |ops|)
    ensures Undisturbed(ops, loc, ops, SetLoc(loc, posted, Fetched), peer)
  {
  }

  /** The posted queue as a whole becomes the fetched queue. */
  lemma GrabQueue(ops: seq<Op>, loc: seq<Loc>, head: int, posted: seq<int>)
    requires QueueOk(ops, loc, head, posted, Posted) && forall x :: 0 <= x < |ops| ==> loc[x] != Fetched
    ensures QueueOk(ops, SetLoc(loc, posted, Fetched), head, posted, Fetched)
    ensures QueueOk(ops, SetLoc(loc, posted, Fetched), -1, [], Posted)
  {
  }

  /** Fetching one operation: its slot moves from the fetched queue to the front of its peer's free chain. */
  ghost predicate FetchChange(ops: seq<Op>, ops': seq<Op>, x: int, chain: seq<int>) {
    && |ops'| == |ops| && 0 <= x < |ops|
    && (chain != [] ==> ops'[x].next == chain[0])
    && forall y :: 0 <= y < |ops| && y != x ==> ops'[y].next == ops[y].next
  }

  lemma FetchQueue(ops: seq<Op>, loc: seq<Loc>, ops': seq<Op>, head: int, fetched: seq<int>, chain: seq<int>)
    requires QueueOk(ops, loc, head, fetched, Fetched) && fetched != [] && FetchChange(ops, ops', fetched[0], chain)
    ensures QueueOk(ops', loc[fetched[0] := Chained], ops[fetched[0]].next, fetched[1..], Fetched)
  {
    var x := fetched[0];
    assert x in fetched;
    PopFront(ops, head, fetched);
    ListedPop(loc, fetched, Fetched, Chained, 0, |ops|);
    assert x !in fetched[1..];
    LinkedFrame(ops, ops', ops[x].next, fetched[1..]);
  }

  lemma FetchKeepsList(ops: seq<Op>, loc: seq<Loc>, ops': seq<Op>, peer: nat, chain: seq<int>, x: int,
                   head: int, s: seq<int>, kind: Loc)
    requires |loc| == |ops| && FetchChange(ops, ops', x, chain) && loc[x] == Fetched
    requires Linked(ops, head, s) && Listed(loc, s, kind, Lo(peer), Hi(peer)) && kind != Fetched && kind != Chained
    ensures Linked(ops', head, s) && Listed(loc[x := Chained], s, kind, Lo(peer), Hi(peer))
  {
    ListedFrame(loc, loc[x := Chained], s, kind, Lo(peer), Hi(peer));
    LinkedFrame(ops, ops', head, s);
  }

  lemma FetchPeer(ops: seq<Op>, loc: seq<Loc>, ops': seq<Op>, peer: nat, p: Producer, freeOps: int, ch: int, ce: int,
                  l: Lists, x: int)
    requires PeerOk(ops, loc, peer, p, freeOps, ch, ce, l) && FetchChange(ops, ops', x, l.chain)
    requires Lo(peer) <= x < Hi(peer) && loc[x] == Fetched
    ensures PeerOk(ops', loc[x := Chained], peer, p, freeOps, x, if l.chain == [] then x else ce,
                   l.(chain := [x] + l.chain))
  {
    FetchKeepsList(ops, loc, ops', peer, l.chain, x, p.freeOp, l.free, Free);
    FetchKeepsList(ops, loc, ops', peer, l.chain, x, p.nextOps, l.pend, Pending);
    FetchKeepsList(ops, loc, ops', peer, l.chain, x, freeOps, l.ret, Returned);
    ListedPushFront(loc, l.chain, x, Chained, Lo(peer), Hi(peer));
    ThreadedFrame(ops, ops', l.chain);
  }

  /** The operation fetched from peer is the oldest undelivered one of that peer. */
  lemma FetchOrder(ops: seq<Op>, peer: nat, appended: seq<Work>, delivered: seq<Work>,
                   fetched: seq<int>, posted: seq<int>, pend: seq<int>)
    requires OrderOk(ops, peer, appended, delivered, fetched, posted, pend) && fetched != []
    ensures
      var own := Lo(peer) <= fetched[0] < Hi(peer);
      OrderOk(ops, peer, appended, if own then delivered + [WorkAt(ops, fetched[0])] else delivered, fetched[1..],
              posted, pend)
  {
    var lo, hi := Lo(peer), Hi(peer);
    OfFirst(fetched, lo, hi);
    if lo <= fetched[0] < hi {
      var rest := Of(fetched[1..], lo, hi);
      WorksConcat(ops, [fetched[0]], rest);
      assert Works(ops, [fetched[0]]) == [WorkAt(ops, fetched[0])];
      Associative(delivered, [WorkAt(ops, fetched[0])], Works(ops, rest));
    } else {
      assert [] + Of(fetched[1..], lo, hi) == Of(fetched[1..], lo, hi);
    }
  }

  /** Writing the old list head behind the chain's last slot (whose link was stale) disturbs nothing else. */
  lemma LoadPeer(ops: seq<Op>, loc: seq<Loc>, peer: nat, p: Producer, freeOps: int, ch: int, ce: int, l: Lists,
                 oldFree: int)
    requires PeerOk(ops, loc, peer, p, freeOps, ch, ce, l) && l.chain != [] && 0 <= ce < |ops|
    ensures PeerOk(ops[ce := ops[ce].(next := oldFree)], loc, peer, p, freeOps, ch, ce, l)
  {
    var ops' := ops[ce := ops[ce].(next := oldFree)];
    assert ce in l.chain;
    LinkedFrame(ops, ops', p.freeOp, l.free);
    LinkedFrame(ops, ops', p.nextOps, l.pend);
    LinkedFrame(ops, ops', freeOps, l.ret);
    forall i | 0 <= i < |l.chain| - 1 ensures ops'[l.chain[i]].next == ops[l.chain[i]].next {
      assert l.chain[i] != LastOf(l.chain);
    }
  }

  /** Publishing the chain: the link written before the exchange is the current head, so the lists join up. */
  lemma ReturnPeer(ops: seq<Op>, loc: seq<Loc>, peer: nat, p: Producer, freeOps: int, ch: int, ce: int, l: Lists)
    requires PeerOk(ops, loc, peer, p, freeOps, ch, ce, l) && l.chain != [] && 0 <= ce < |ops|
    requires ops[ce].next == freeOps
    ensures PeerOk(ops, SetLoc(loc, l.chain, Returned), peer, p, ch, -1, ce, l.(chain := [], ret := l.chain + l.ret))
  {
    var loc' := SetLoc(loc, l.chain, Returned);
    ListedFrame(loc, loc', l.free, Free, Lo(peer), Hi(peer));
    ListedFrame(loc, loc', l.pend, Pending, Lo(peer), Hi(peer));
    ReturnThreads(ops, ch, l.chain, freeOps, l.ret);
    ListedReturn(loc, peer, l.chain, l.ret);
  }

  lemma ReturnThreads(ops: seq<Op>, ch: int, chain: seq<int>, freeOps: int, ret: seq<int>)
    requires Threaded(ops, chain) && chain != [] && ch == chain[0] && Linked(ops, freeOps, ret)
    requires ops[LastOf(chain)].next == freeOps
    ensures Linked(ops, ch, chain + ret)
  {
    forall i | 0 <= i < |chain + ret| - 1 ensures ops[(chain + ret)[i]].next == (chain + ret)[i + 1] {
      if i >= |chain| {
        assert ops[ret[i - |chain|]].next == ret[i - |chain| + 1];
      }
    }
  }

  lemma ListedReturn(loc: seq<Loc>, peer: nat, chain: seq<int>, ret: seq<int>)
    requires Listed(loc, chain, Chained, Lo(peer), Hi(peer)) && Listed(loc, ret, Returned, Lo(peer), Hi(peer))
    ensures Listed(SetLoc(loc, chain, Returned), chain + ret, Returned, Lo(peer), Hi(peer))
  {
    forall i, j | 0 <= i < j < |chain + ret| ensures (chain + ret)[i] != (chain + ret)[j] {
      if i < |chain| <= j {
        assert chain[i] in chain && ret[j - |chain|] in ret;
      }
    }
    assert forall x :: x in chain + ret <==> x in chain || x in ret;
  }
}
