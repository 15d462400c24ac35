/** The steps of the shared proxy-operation pool on abstract state, and why each keeps every peer's lists, the two
    shared queues, and the order of every producer's operations. */
module ProxyPoolSteps {
  import opened Seqs
  import opened ProxyLists
  import opened ProxyPeers

  /** The abstract state: where every slot is, the lists in order, and what was appended and delivered so far. */
  datatype View = View(loc: seq<Loc>, lists: seq<Lists>, posted: seq<int>, fetched: seq<int>,
                       appended: seq<seq<Work>>, delivered: seq<seq<Work>>)

  /** The concrete cursors that are kept per peer: the producer's own, the shared list of returned slots, and the
      progress thread's chain of slots to give back. */
  datatype Cursors = Cursors(producers: seq<Producer>, freeOps: seq<int>, freeHead: seq<int>, freeEnd: seq<int>)

  ghost predicate PeerAt(ops: seq<Op>, c: Cursors, v: View, r: nat)
    requires r < |c.producers| == |c.freeOps| == |c.freeHead| == |c.freeEnd| == |v.lists|
  {
    PeerOk(ops, v.loc, r, c.producers[r], c.freeOps[r], c.freeHead[r], c.freeEnd[r], v.lists[r])
  }

  ghost predicate Sizes(ops: seq<Op>, c: Cursors, v: View) {
    && |c.producers| == |c.freeOps| == |c.freeHead| == |c.freeEnd| == |v.lists| == |v.appended| == |v.delivered|
    && |ops| == |v.loc| == Lo(|c.producers|)
  }

  ghost predicate Peers(ops: seq<Op>, c: Cursors, v: View) {
    Sizes(ops, c, v) && forall r: nat :: r < |c.producers| ==> PeerAt(ops, c, v, r)
  }

  ghost predicate OrderAt(ops: seq<Op>, v: View, r: nat)
    requires r < |v.lists| == |v.appended| == |v.delivered|
  {
    OrderOk(ops, r, v.appended[r], v.delivered[r], v.fetched, v.posted, v.lists[r].pend)
  }

  ghost predicate Orders(ops: seq<Op>, v: View) {
    && |v.lists| == |v.appended| == |v.delivered|
    && forall r: nat :: r < |v.lists| ==> OrderAt(ops, v, r)
  }

  ghost predicate Queues(ops: seq<Op>, nextOps: int, nextOpsEnd: int, fetchNext: int, v: View) {
    && QueueOk(ops, v.loc, nextOps, v.posted, Posted) && (v.posted != [] ==> nextOpsEnd == LastOf(v.posted))
    && QueueOk(ops, v.loc, fetchNext, v.fetched, Fetched)
  }

  // ---------------------------------------------------------------- the abstract steps

  ghost function AfterAcquire(v: View, r: nat): View
    requires r < |v.lists|
  {
    var l := v.lists[r];
    v.(loc := SetLoc(v.loc, l.ret, Free), lists := v.lists[r := l.(free := l.ret, ret := [])])
  }

  ghost function AfterTake(v: View, r: nat, w: Work): View
    requires r < |v.lists| == |v.appended| && v.lists[r].free != [] && 0 <= v.lists[r].free[0] < |v.loc|
  {
    var l := v.lists[r];
    v.(loc := v.loc[l.free[0] := Pending], lists := v.lists[r := l.(free := l.free[1..], pend := l.pend + [l.free[0]])],
       appended := v.appended[r := v.appended[r] + [w]])
  }

  ghost function AfterPost(v: View, r: nat, k: nat): View
    requires r < |v.lists| && k <= |v.lists[r].pend|
  {
    var l := v.lists[r];
    v.(loc := SetLoc(v.loc, l.pend[..k], Posted), lists := v.lists[r := l.(pend := l.pend[k..])],
       posted := v.posted + l.pend[..k])
  }

  ghost function AfterGrab(v: View): View {
    v.(loc := SetLoc(v.loc, v.posted, Fetched), fetched := v.posted, posted := [])
  }

  ghost function AfterFetch(v: View, r: nat, w: Work): View
    requires r < |v.lists| == |v.delivered| && v.fetched != [] && 0 <= v.fetched[0] < |v.loc|
  {
    var l := v.lists[r];
    v.(loc := v.loc[v.fetched[0] := Chained], lists := v.lists[r := l.(chain := [v.fetched[0]] + l.chain)],
       fetched := v.fetched[1..], delivered := v.delivered[r := v.delivered[r] + [w]])
  }

  ghost function AfterReturn(v: View, r: nat): View
    requires r < |v.lists|
  {
    var l := v.lists[r];
    v.(loc := SetLoc(v.loc, l.chain, Returned), lists := v.lists[r := l.(chain := [], ret := l.chain + l.ret)])
  }

  // ---------------------------------------------------------------- each step keeps every peer's lists

  /** A step that rewrites peer r and leaves the slots of the others alone. */
  lemma ReplacePeer(ops: seq<Op>, ops': seq<Op>, c: Cursors, c': Cursors, v: View, v': View, r: nat)
    requires Peers(ops, c, v) && Sizes(ops', c', v') && |c'.producers| == |c.producers| && r < |c.producers|
    requires PeerAt(ops', c', v', r)
    requires forall q: nat :: q < |c.producers| && q != r ==>
               c'.producers[q] == c.producers[q] && c'.freeOps[q] == c.freeOps[q] && c'.freeHead[q] == c.freeHead[q]
               && c'.freeEnd[q] == c.freeEnd[q] && v'.lists[q] == v.lists[q]
    requires forall q: nat :: q < |c.producers| && q != r ==> Undisturbed(ops, v.loc, ops', v'.loc, q)
    ensures Peers(ops', c', v')
  {
    forall q: nat | q < |c.producers| ensures PeerAt(ops', c', v', q) {
      if q != r {
        assert PeerAt(ops, c, v, q);
        PeerFrame(ops, v.loc, ops', v'.loc, q, c.producers[q], c.freeOps[q], c.freeHead[q], c.freeEnd[q], v.lists[q]);
      }
    }
  }

  lemma AcquireKeepsPeers(ops: seq<Op>, c: Cursors, v: View, r: nat)
    requires Peers(ops, c, v) && r < |c.producers| && c.producers[r].freeOp == -1
    ensures
      Peers(ops,
            c.(producers := c.producers[r := c.producers[r].(freeOp := c.freeOps[r])], freeOps := c.freeOps[r := -1]),
            AfterAcquire(v, r))
  {
    assert PeerAt(ops, c, v, r);
    RefillPeer(ops, v.loc, r, c.producers[r], c.freeOps[r], c.freeHead[r], c.freeEnd[r], v.lists[r]);
    var c' := c.(producers := c.producers[r := c.producers[r].(freeOp := c.freeOps[r])], freeOps := c.freeOps[r := -1]);
    ReplacePeer(ops, ops, c, c', v, AfterAcquire(v, r), r);
  }

  // ---------------------------------------------------------------- appending

  /** Producer p after it filled its first free slot and linked it behind its pending operations. */
  function TakenCursor(ops: seq<Op>, p: Producer): Producer
    requires 0 <= p.freeOp < |ops|
  {
    Producer(ops[p.freeOp].next, if p.nextOps == -1 then p.freeOp else p.nextOps, p.freeOp, p.count + 1)
  }

  /** What a producer that still has a free slot can rely on; it owns fewer than MAX_OPS_PER_PEER pending operations. */
  lemma CanTake(ops: seq<Op>, c: Cursors, v: View, r: nat)
    requires Peers(ops, c, v) && r < |c.producers| && c.producers[r].freeOp != -1
    ensures
      var p, l := c.producers[r], v.lists[r];
      && l.free != [] && p.freeOp == l.free[0] && Lo(r) <= p.freeOp < Hi(r) <= |ops| && v.loc[p.freeOp] == Free
      && (p.nextOps == -1 <==> l.pend == [])
      && (p.nextOps != -1 ==>
            p.nextOpsEnd == LastOf(l.pend) && Lo(r) <= p.nextOpsEnd < Hi(r) && v.loc[p.nextOpsEnd] == Pending)
      && p.count == |l.pend| < MAX_OPS_PER_PEER
  {
    assert PeerAt(ops, c, v, r);
    var l := v.lists[r];
    assert l.free[0] in l.free;
    assert l.pend != [] ==> l.pend[0] in l.pend && LastOf(l.pend) in l.pend;
    RoomLeft(v.loc, l.pend, r, l.free[0]);
  }

  lemma RoomLeft(loc: seq<Loc>, pend: seq<int>, r: nat, x: int)
    requires Listed(loc, pend, Pending, Lo(r), Hi(r)) && Lo(r) <= x < Hi(r) && loc[x] != Pending
    ensures |pend| < MAX_OPS_PER_PEER
  {
    DistinctAppend(pend, x);
    assert forall y :: y in pend + [x] <==> y in pend || y == x;
    forall i | 0 <= i < |pend + [x]| ensures Lo(r) <= (pend + [x])[i] < Hi(r) {
      assert (pend + [x])[i] in pend + [x];
    }
    FitsRange(pend + [x], Lo(r), Hi(r));
  }

  /** What filling slot x and linking it behind slot end (when there is one) changes. */
  ghost predicate TakeChange(ops: seq<Op>, ops': seq<Op>, x: int, end: int, w: Work) {
    && |ops'| == |ops| && 0 <= x < |ops| && ops'[x] == Op(-1, w)
    && (end != -1 ==> 0 <= end < |ops| && end != x && ops'[end] == ops[end].(next := x))
    && forall y :: 0 <= y < |ops| && y != x && y != end ==> ops'[y] == ops[y]
  }

  lemma TakeKeepsPeers(ops: seq<Op>, ops': seq<Op>, c: Cursors, v: View, r: nat, w: Work)
    requires Peers(ops, c, v) && r < |c.producers| && c.producers[r].freeOp != -1
    requires TakeChange(ops, ops', c.producers[r].freeOp, LastOf(v.lists[r].pend), w)
    ensures v.lists[r].free != [] && v.lists[r].free[0] == c.producers[r].freeOp
    ensures Peers(ops', c.(producers := c.producers[r := TakenCursor(ops, c.producers[r])]), AfterTake(v, r, w))
  {
    CanTake(ops, c, v, r);
    var p, l := c.producers[r], v.lists[r];
    var v', c' := AfterTake(v, r, w), c.(producers := c.producers[r := TakenCursor(ops, p)]);
    assert PeerAt(ops, c, v, r);
    TakePeer(ops, v.loc, ops', r, p, c.freeOps[r], c.freeHead[r], c.freeEnd[r], l);
    assert PeerAt(ops', c', v', r);
    forall q: nat | q < |c.producers| && q != r ensures Undisturbed(ops, v.loc, ops', v'.loc, q) {
      TakeFar(ops, ops', v.loc, p.freeOp, LastOf(l.pend), w, r, q);
    }
    ReplacePeer(ops, ops', c, c', v, v', r);
  }

  lemma TakeFar(ops: seq<Op>, ops': seq<Op>, loc: seq<Loc>, x: int, end: int, w: Work, r: nat, q: nat)
    requires TakeChange(ops, ops', x, end, w) && |loc| == |ops| && q != r
    requires Lo(r) <= x < Hi(r) && (end != -1 ==> Lo(r) <= end < Hi(r))
    ensures Undisturbed(ops, loc, ops', loc[x := Pending], q)
  {
  }

  lemma TakeKeepsQueues(ops: seq<Op>, ops': seq<Op>, nextOps: int, nextOpsEnd: int, fetchNext: int, v: View, v': View,
                        x: int, end: int, w: Work)
    requires Queues(ops, nextOps, nextOpsEnd, fetchNext, v) && TakeChange(ops, ops', x, end, w)
    requires v.loc[x] == Free && (end != -1 ==> v.loc[end] == Pending)
    requires v'.posted == v.posted && v'.fetched == v.fetched && v'.loc == v.loc[x := Pending]
    ensures Queues(ops', nextOps, nextOpsEnd, fetchNext, v')
  {
    QueueFrame(ops, v.loc, ops', v'.loc, nextOps, v.posted, Posted);
    QueueFrame(ops, v.loc, ops', v'.loc, fetchNext, v.fetched, Fetched);
  }

  /** Only free slot x gets new work. */
  ghost predicate SameWork(ops: seq<Op>, ops': seq<Op>, loc: seq<Loc>) {
    |ops'| == |ops| == |loc| && forall y :: 0 <= y < |ops| && loc[y] != Free ==> ops'[y].work == ops[y].work
  }

  ghost predicate Busy(loc: seq<Loc>, s: seq<int>) {
    forall x :: x in s ==> 0 <= x < |loc| && loc[x] != Free
  }

  lemma BusyLists(ops: seq<Op>, c: Cursors, nextOps: int, nextOpsEnd: int, fetchNext: int, v: View, r: nat)
    requires Peers(ops, c, v) && Queues(ops, nextOps, nextOpsEnd, fetchNext, v) && r < |c.producers|
    ensures Busy(v.loc, v.fetched) && Busy(v.loc, v.posted) && Busy(v.loc, v.lists[r].pend)
  {
    assert PeerAt(ops, c, v, r);
  }

  lemma AppendOrder(ops: seq<Op>, ops': seq<Op>, loc: seq<Loc>, r: nat, appended: seq<Work>, delivered: seq<Work>,
                    fetched: seq<int>, posted: seq<int>, pend: seq<int>, x: int)
    requires SameWork(ops, ops', loc) && Busy(loc, fetched) && Busy(loc, posted) && Busy(loc, pend) && 0 <= x < |ops|
    requires OrderOk(ops, r, appended, delivered, fetched, posted, pend)
    ensures OrderOk(ops', r, appended + [ops'[x].work], delivered, fetched, posted, pend + [x])
  {
    OrderFrame(ops, ops', r, appended, delivered, fetched, posted, pend);
    WorksConcat(ops', pend, [x]);
    assert Works(ops', [x]) == [ops'[x].work];
    Associative(delivered + Works(ops', Of(fetched, Lo(r), Hi(r))) + Works(ops', Of(posted, Lo(r), Hi(r))),
                Works(ops', pend), [ops'[x].work]);
  }

  lemma TakeKeepsOrders(ops: seq<Op>, ops': seq<Op>, c: Cursors, nextOps: int, nextOpsEnd: int, fetchNext: int, v: View,
                        r: nat, w: Work)
    requires Peers(ops, c, v) && Queues(ops, nextOps, nextOpsEnd, fetchNext, v) && Orders(ops, v)
    requires r < |c.producers| && c.producers[r].freeOp != -1
    requires TakeChange(ops, ops', c.producers[r].freeOp, LastOf(v.lists[r].pend), w)
    ensures v.lists[r].free != [] && 0 <= v.lists[r].free[0] < |v.loc|
    ensures Orders(ops', AfterTake(v, r, w))
  {
    CanTake(ops, c, v, r);
    var x, v' := v.lists[r].free[0], AfterTake(v, r, w);
    forall q: nat | q < |v.lists| ensures OrderAt(ops', v', q) {
      assert OrderAt(ops, v, q);
      BusyLists(ops, c, nextOps, nextOpsEnd, fetchNext, v, q);
      if q == r {
        AppendOrder(ops, ops', v.loc, r, v.appended[r], v.delivered[r], v.fetched, v.posted, v.lists[r].pend, x);
      } else {
        OrderFrame(ops, ops', q, v.appended[q], v.delivered[q], v.fetched, v.posted, v.lists[q].pend);
      }
    }
  }

  // ---------------------------------------------------------------- posting

  /** Producer p after it posted its first k pending operations; next is the first one it kept, if any. */
  function PostedCursor(p: Producer, k: nat, next: int): Producer
    requires k <= p.count
  {
    Producer(p.freeOp, next, if next == -1 then -1 else p.nextOpsEnd, p.count - k)
  }

  lemma PostKeepsPeers(ops: seq<Op>, ops': seq<Op>, c: Cursors, v: View, r: nat, k: nat, next: int)
    requires Peers(ops, c, v) && r < |c.producers| && Listed(v.loc, v.posted, Posted, 0, |ops|)
    requires 0 < k <= |v.lists[r].pend| && PostChange(ops, ops', v.posted, v.lists[r].pend, k)
    requires next == if k < |v.lists[r].pend| then v.lists[r].pend[k] else -1
    ensures k <= c.producers[r].count
    ensures Peers(ops', c.(producers := c.producers[r := PostedCursor(c.producers[r], k, next)]), AfterPost(v, r, k))
  {
    assert PeerAt(ops, c, v, r);
    var p, l := c.producers[r], v.lists[r];
    assert k < |l.pend| ==> l.pend[k] in l.pend;
    var v', c' := AfterPost(v, r, k), c.(producers := c.producers[r := PostedCursor(p, k, next)]);
    PostPeer(ops, v.loc, ops', r, p, c'.producers[r], c.freeOps[r], c.freeHead[r], c.freeEnd[r], l, v.posted, k);
    assert PeerAt(ops', c', v', r);
    forall q: nat | q < |c.producers| && q != r ensures Undisturbed(ops, v.loc, ops', v'.loc, q) {
      PostFar(ops, v.loc, ops', v.posted, l.pend, r, k, q);
    }
    ReplacePeer(ops, ops', c, c', v, v', r);
  }

  lemma PostFar(ops: seq<Op>, loc: seq<Loc>, ops': seq<Op>, posted: seq<int>, pend: seq<int>, r: nat, k: nat, q: nat)
    requires |loc| == |ops| && Listed(loc, posted, Posted, 0, |ops|) && Listed(loc, pend, Pending, Lo(r), Hi(r))
    requires PostChange(ops, ops', posted, pend, k) && q != r
    ensures Undisturbed(ops, loc, ops', SetLoc(loc, pend[..k], Posted), q)
  {
    Prefix(pend, k);
    assert pend[k - 1] in pend && (posted != [] ==> LastOf(posted) in posted);
  }

  lemma PostKeepsQueues(ops: seq<Op>, ops': seq<Op>, c: Cursors, nextOps: int, nextOpsEnd: int, fetchNext: int, v: View,
                        r: nat, k: nat)
    requires Peers(ops, c, v) && Queues(ops, nextOps, nextOpsEnd, fetchNext, v) && r < |c.producers|
    requires 0 < k <= |v.lists[r].pend| && PostChange(ops, ops', v.posted, v.lists[r].pend, k)
    ensures Queues(ops', if v.posted == [] then v.lists[r].pend[0] else nextOps, v.lists[r].pend[k - 1], fetchNext,
                   AfterPost(v, r, k))
  {
    assert PeerAt(ops, c, v, r);
    var pend, v' := v.lists[r].pend, AfterPost(v, r, k);
    PostQueue(ops, v.loc, ops', r, c.producers[r], pend, v.posted, k, nextOps);
    Prefix(pend, k);
    assert pend[k - 1] in pend && (v.posted != [] ==> LastOf(v.posted) in v.posted);
    QueueFrame(ops, v.loc, ops', v'.loc, fetchNext, v.fetched, Fetched);
  }

  lemma PostKeepsOrders(ops: seq<Op>, ops': seq<Op>, c: Cursors, v: View, r: nat, k: nat)
    requires Peers(ops, c, v) && Orders(ops, v) && r < |c.producers| && k <= |v.lists[r].pend|
    requires |ops'| == |ops| && forall x :: 0 <= x < |ops| ==> ops'[x].work == ops[x].work
    ensures Orders(ops', AfterPost(v, r, k))
  {
    assert PeerAt(ops, c, v, r);
    var pend, v' := v.lists[r].pend, AfterPost(v, r, k);
    forall q: nat | q < |v.lists| ensures OrderAt(ops', v', q) {
      assert OrderAt(ops, v, q);
      OrderFrame(ops, ops', q, v.appended[q], v.delivered[q], v.fetched, v.posted, v.lists[q].pend);
      if q == r {
        PostOrder(ops', r, pend, k, v.appended[r], v.delivered[r], v.fetched, v.posted);
      } else {
        PostOrderOther(ops', r, q, pend, k, v.appended[q], v.delivered[q], v.fetched, v.posted, v.lists[q].pend);
      }
    }
  }

  // ---------------------------------------------------------------- the progress thread

  lemma GrabKeeps(ops: seq<Op>, c: Cursors, nextOps: int, nextOpsEnd: int, v: View)
    requires Peers(ops, c, v) && Queues(ops, nextOps, nextOpsEnd, -1, v) && Orders(ops, v)
    ensures Peers(ops, c, AfterGrab(v)) && Queues(ops, -1, -1, nextOps, AfterGrab(v)) && Orders(ops, AfterGrab(v))
  {
    var v' := AfterGrab(v);
    assert v.fetched == [];
    GrabQueue(ops, v.loc, nextOps, v.posted);
    forall r: nat | r < |c.producers| ensures PeerAt(ops, c, v', r) {
      assert PeerAt(ops, c, v, r);
      GrabKeepsPeer(ops, v.loc, v.posted, r);
      PeerFrame(ops, v.loc, ops, v'.loc, r, c.producers[r], c.freeOps[r], c.freeHead[r], c.freeEnd[r], v.lists[r]);
    }
    forall r: nat | r < |v.lists| ensures OrderAt(ops, v', r) {
      assert OrderAt(ops, v, r);
      GrabOrder(ops, r, v.appended[r], v.delivered[r], v.posted, v.lists[r].pend);
    }
  }

  lemma GrabOrder(ops: seq<Op>, r: nat, appended: seq<Work>, delivered: seq<Work>, posted: seq<int>, pend: seq<int>)
    requires OrderOk(ops, r, appended, delivered, [], posted, pend)
    ensures OrderOk(ops, r, appended, delivered, posted, [], pend)
  {
    assert Works(ops, Of([], Lo(r), Hi(r))) == [];
  }

  /** The peer whose slot is at the head of the fetched queue. */
  lemma FetchFacts(ops: seq<Op>, c: Cursors, nextOps: int, nextOpsEnd: int, fetchNext: int, v: View)
    requires Peers(ops, c, v) && Queues(ops, nextOps, nextOpsEnd, fetchNext, v) && fetchNext != -1
    ensures v.fetched != [] && v.fetched[0] == fetchNext && 0 <= fetchNext < |ops| && v.loc[fetchNext] == Fetched
    ensures
      var r := fetchNext / MAX_OPS_PER_PEER;
      0 <= r < |c.producers| && Lo(r) <= fetchNext < Hi(r)
  {
    assert v.fetched[0] in v.fetched;
  }

  lemma FetchKeepsPeers(ops: seq<Op>, ops': seq<Op>, c: Cursors, v: View, r: nat, x: int, w: Work)
    requires Peers(ops, c, v) && r < |c.producers| && v.fetched != [] && x == v.fetched[0]
    requires Lo(r) <= x < Hi(r) && x < |v.loc| && v.loc[x] == Fetched && FetchChange(ops, ops', x, v.lists[r].chain)
    ensures
      Peers(ops',
            c.(freeHead := c.freeHead[r := x],
               freeEnd := c.freeEnd[r := if c.freeHead[r] == -1 then x else c.freeEnd[r]]), AfterFetch(v, r, w))
  {
    assert PeerAt(ops, c, v, r);
    var l := v.lists[r];
    assert l.chain != [] ==> l.chain[0] in l.chain;
    var v' := AfterFetch(v, r, w);
    var c' :=
      c.(freeHead := c.freeHead[r := x], freeEnd := c.freeEnd[r := if c.freeHead[r] == -1 then x else c.freeEnd[r]]);
    FetchPeer(ops, v.loc, ops', r, c.producers[r], c.freeOps[r], c.freeHead[r], c.freeEnd[r], l, x);
    assert PeerAt(ops', c', v', r);
    ReplacePeer(ops, ops', c, c', v, v', r);
  }

  lemma FetchKeepsQueues(ops: seq<Op>, ops': seq<Op>, nextOps: int, nextOpsEnd: int, fetchNext: int, v: View, v': View,
                         chain: seq<int>)
    requires Queues(ops, nextOps, nextOpsEnd, fetchNext, v) && v.fetched != []
    requires FetchChange(ops, ops', v.fetched[0], chain)
    requires v'.loc == v.loc[v.fetched[0] := Chained] && v'.fetched == v.fetched[1..] && v'.posted == v.posted
    ensures Queues(ops', nextOps, nextOpsEnd, ops[v.fetched[0]].next, v')
  {
    assert v.fetched[0] in v.fetched;
    FetchQueue(ops, v.loc, ops', fetchNext, v.fetched, chain);
    QueueFrame(ops, v.loc, ops', v'.loc, nextOps, v.posted, Posted);
  }

  lemma FetchKeepsOrders(ops: seq<Op>, ops': seq<Op>, v: View, r: nat)
    requires Orders(ops, v) && r < |v.lists| && v.fetched != [] && |v.loc| == |ops| == |ops'|
    requires 0 <= v.fetched[0] < |ops| && Lo(r) <= v.fetched[0] < Hi(r)
    requires forall x :: 0 <= x < |ops| ==> ops'[x].work == ops[x].work
    ensures Orders(ops', AfterFetch(v, r, ops[v.fetched[0]].work))
  {
    var v' := AfterFetch(v, r, ops[v.fetched[0]].work);
    forall q: nat | q < |v.lists| ensures OrderAt(ops', v', q) {
      assert OrderAt(ops, v, q);
      FetchOrder(ops, q, v.appended[q], v.delivered[q], v.fetched, v.posted, v.lists[q].pend);
      assert q != r ==> !(Lo(q) <= v.fetched[0] < Hi(q));
      OrderFrame(ops, ops', q, v'.appended[q], v'.delivered[q], v'.fetched, v'.posted, v'.lists[q].pend);
    }
  }

  /** The end of a peer's chain belongs to the progress thread. */
  lemma ChainFacts(ops: seq<Op>, c: Cursors, v: View, r: nat)
    requires Peers(ops, c, v) && r < |c.producers| && c.freeHead[r] != -1
    ensures v.lists[r].chain != [] && 0 <= c.freeEnd[r] < |ops| && v.loc[c.freeEnd[r]] == Chained
    ensures Lo(r) <= c.freeEnd[r] < Hi(r)
  {
    assert PeerAt(ops, c, v, r);
    assert LastOf(v.lists[r].chain) in v.lists[r].chain;
  }

  /** The link behind the end of the chain is the progress thread's to write. */
  lemma LoadKeeps(ops: seq<Op>, c: Cursors, nextOps: int, nextOpsEnd: int, fetchNext: int, v: View, r: nat,
                  oldFree: int)
    requires Peers(ops, c, v) && Queues(ops, nextOps, nextOpsEnd, fetchNext, v) && Orders(ops, v)
    requires r < |c.producers| && c.freeHead[r] != -1
    ensures 0 <= c.freeEnd[r] < |ops|
    ensures
      var ops' := ops[c.freeEnd[r] := ops[c.freeEnd[r]].(next := oldFree)];
      Peers(ops', c, v) && Queues(ops', nextOps, nextOpsEnd, fetchNext, v) && Orders(ops', v)
  {
    ChainFacts(ops, c, v, r);
    var e := c.freeEnd[r];
    var ops' := ops[e := ops[e].(next := oldFree)];
    assert PeerAt(ops, c, v, r);
    LoadPeer(ops, v.loc, r, c.producers[r], c.freeOps[r], c.freeHead[r], e, v.lists[r], oldFree);
    assert PeerAt(ops', c, v, r);
    ReplacePeer(ops, ops', c, c, v, v, r);
    QueueFrame(ops, v.loc, ops', v.loc, nextOps, v.posted, Posted);
    QueueFrame(ops, v.loc, ops', v.loc, fetchNext, v.fetched, Fetched);
    forall q: nat | q < |v.lists| ensures OrderAt(ops', v, q) {
      assert OrderAt(ops, v, q);
      OrderFrame(ops, ops', q, v.appended[q], v.delivered[q], v.fetched, v.posted, v.lists[q].pend);
    }
  }

  lemma ReturnKeepsPeers(ops: seq<Op>, c: Cursors, v: View, r: nat)
    requires Peers(ops, c, v) && r < |c.producers| && c.freeHead[r] != -1
    requires 0 <= c.freeEnd[r] < |ops| && ops[c.freeEnd[r]].next == c.freeOps[r]
    ensures Peers(ops, c.(freeOps := c.freeOps[r := c.freeHead[r]], freeHead := c.freeHead[r := -1]), AfterReturn(v, r))
  {
    assert PeerAt(ops, c, v, r);
    ChainFacts(ops, c, v, r);
    var c' := c.(freeOps := c.freeOps[r := c.freeHead[r]], freeHead := c.freeHead[r := -1]);
    ReturnPeer(ops, v.loc, r, c.producers[r], c.freeOps[r], c.freeHead[r], c.freeEnd[r], v.lists[r]);
    assert PeerAt(ops, c', AfterReturn(v, r), r);
    ReplacePeer(ops, ops, c, c', v, AfterReturn(v, r), r);
  }

  /** Relabelling slots outside the two queues, with the same work in all of them, keeps queues and order. */
  lemma RelabelKeeps(ops: seq<Op>, nextOps: int, nextOpsEnd: int, fetchNext: int, v: View, v': View)
    requires Queues(ops, nextOps, nextOpsEnd, fetchNext, v) && Orders(ops, v)
    requires |v'.loc| == |v.loc|
    requires forall x :: 0 <= x < |v.loc| ==> v'.loc[x] == v.loc[x] || (!InQueue(v'.loc[x]) && !InQueue(v.loc[x]))
    requires v'.posted == v.posted && v'.fetched == v.fetched && v'.appended == v.appended
    requires v'.delivered == v.delivered
    requires |v'.lists| == |v.lists| && forall r: nat :: r < |v.lists| ==> v'.lists[r].pend == v.lists[r].pend
    ensures Queues(ops, nextOps, nextOpsEnd, fetchNext, v') && Orders(ops, v')
  {
    QueueFrame(ops, v.loc, ops, v'.loc, nextOps, v.posted, Posted);
    QueueFrame(ops, v.loc, ops, v'.loc, fetchNext, v.fetched, Fetched);
    forall r: nat | r < |v'.lists| ensures OrderAt(ops, v', r) {
      assert OrderAt(ops, v, r);
    }
  }
}
