module ProxyPoolInv {
  import opened Seqs
  import opened ProxyLists
  import opened ProxyPeers
  import opened ProxyPoolSteps
  import opened ProxyMachine

  ghost predicate PhaseOk(phase: Phase, ops: seq<Op>, c: Cursors, oldFree: int) {
    |c.freeEnd| == |c.freeHead| &&
    match phase
    case Idle => forall r: nat :: r < |c.freeHead| ==> c.freeHead[r] == -1
    case Fetching => true
    case Returning(i) => i <= |c.freeHead| && forall r: nat :: r < i ==> c.freeHead[r] == -1
    case Publishing(i) =>
      && i < |c.freeHead| && (forall r: nat :: r < i ==> c.freeHead[r] == -1) && c.freeHead[i] != -1
      && 0 <= c.freeEnd[i] < |ops| && ops[c.freeEnd[i]].next == oldFree
  }

  /** A producer's step does not reach what the progress thread works on. */
  lemma PhaseKeeps(phase: Phase, ops: seq<Op>, ops': seq<Op>, c: Cursors, c': Cursors, v: View, oldFree: int)
    requires Peers(ops, c, v) && PhaseOk(phase, ops, c, oldFree) && |ops'| == |ops|
    requires c'.freeHead == c.freeHead && c'.freeEnd == c.freeEnd
    requires forall x :: 0 <= x < |ops| && v.loc[x] == Chained ==> ops'[x].next == ops[x].next
    ensures PhaseOk(phase, ops', c', oldFree)
  {
    if phase.Publishing? {
      ChainFacts(ops, c, v, phase.peer);
    }
  }

  ghost predicate Inv(ops: seq<Op>, nextOps: int, nextOpsEnd: int, fetchNext: int, c: Cursors, phase: Phase,
                      oldFree: int, v: View)
  {
    && Peers(ops, c, v)
    && Queues(ops, nextOps, nextOpsEnd, fetchNext, v)
    && Orders(ops, v)
    && PhaseOk(phase, ops, c, oldFree)
  }

  lemma AcquireKeeps(ops: seq<Op>, nextOps: int, nextOpsEnd: int, fetchNext: int, c: Cursors, phase: Phase,
                     oldFree: int, v: View, r: nat)
    requires Inv(ops, nextOps, nextOpsEnd, fetchNext, c, phase, oldFree, v) && r < |c.producers|
    requires c.producers[r].freeOp == -1
    ensures
      var c' :=
        c.(producers := c.producers[r := c.producers[r].(freeOp := c.freeOps[r])], freeOps := c.freeOps[r := -1]);
      Inv(ops, nextOps, nextOpsEnd, fetchNext, c', phase, oldFree, AfterAcquire(v, r))
  {
    AcquireKeepsPeers(ops, c, v, r);
    assert PeerAt(ops, c, v, r);
    RelabelKeeps(ops, nextOps, nextOpsEnd, fetchNext, v, AfterAcquire(v, r));
  }

  lemma TakeKeeps(ops: seq<Op>, ops': seq<Op>, nextOps: int, nextOpsEnd: int, fetchNext: int, c: Cursors, phase: Phase,
                  oldFree: int, v: View, r: nat, w: Work)
    requires Inv(ops, nextOps, nextOpsEnd, fetchNext, c, phase, oldFree, v) && r < |c.producers|
    requires c.producers[r].freeOp != -1
    requires TakeChange(ops, ops', c.producers[r].freeOp, LastOf(v.lists[r].pend), w)
    ensures v.lists[r].free != [] && 0 <= v.lists[r].free[0] < |v.loc|
    ensures
      var c' := c.(producers := c.producers[r := TakenCursor(ops, c.producers[r])]);
      Inv(ops', nextOps, nextOpsEnd, fetchNext, c', phase, oldFree, AfterTake(v, r, w))
  {
    CanTake(ops, c, v, r);
    TakeKeepsPeers(ops, ops', c, v, r, w);
    TakeKeepsQueues(ops, ops', nextOps, nextOpsEnd, fetchNext, v, AfterTake(v, r, w), c.producers[r].freeOp,
                    LastOf(v.lists[r].pend), w);
    TakeKeepsOrders(ops, ops', c, nextOps, nextOpsEnd, fetchNext, v, r, w);
    PhaseKeeps(phase, ops, ops', c, c.(producers := c.producers[r := TakenCursor(ops, c.producers[r])]), v, oldFree);
  }

  lemma TakeWorks(ops: seq<Op>, ops': seq<Op>, c: Cursors, v: View, r: nat, w: Work)
    requires Peers(ops, c, v) && r < |c.producers| && c.producers[r].freeOp != -1
    requires TakeChange(ops, ops', c.producers[r].freeOp, LastOf(v.lists[r].pend), w)
    ensures v.lists[r].free != []
    ensures Works(ops', v.lists[r].pend + [v.lists[r].free[0]]) == Works(ops, v.lists[r].pend) + [w]
  {
    CanTake(ops, c, v, r);
    assert PeerAt(ops, c, v, r);
    var pend, x := v.lists[r].pend, v.lists[r].free[0];
    WorksFrame(ops, ops', pend);
    WorksConcat(ops', pend, [x]);
    assert Works(ops', [x]) == [w];
  }

  lemma PostKeeps(ops: seq<Op>, ops': seq<Op>, nextOps: int, nextOpsEnd: int, fetchNext: int, c: Cursors, phase: Phase,
                  oldFree: int, v: View, r: nat, k: nat, next: int)
    requires Inv(ops, nextOps, nextOpsEnd, fetchNext, c, phase, oldFree, v) && r < |c.producers|
    requires 0 < k <= |v.lists[r].pend| && PostChange(ops, ops', v.posted, v.lists[r].pend, k)
    requires forall x :: 0 <= x < |ops| ==> ops'[x].work == ops[x].work
    requires next == if k < |v.lists[r].pend| then v.lists[r].pend[k] else -1
    ensures k <= c.producers[r].count
    ensures
      var c' := c.(producers := c.producers[r := PostedCursor(c.producers[r], k, next)]);
      Inv(ops', if v.posted == [] then v.lists[r].pend[0] else nextOps, v.lists[r].pend[k - 1], fetchNext, c', phase,
          oldFree, AfterPost(v, r, k))
  {
    PostKeepsPeers(ops, ops', c, v, r, k, next);
    PostKeepsQueues(ops, ops', c, nextOps, nextOpsEnd, fetchNext, v, r, k);
    PostKeepsOrders(ops, ops', c, v, r, k);
    assert PeerAt(ops, c, v, r);
    assert v.lists[r].pend[k - 1] in v.lists[r].pend && (v.posted != [] ==> LastOf(v.posted) in v.posted);
    PhaseKeeps(phase, ops, ops', c, c.(producers := c.producers[r := PostedCursor(c.producers[r], k, next)]), v,
               oldFree);
  }

  lemma PendFacts(ops: seq<Op>, c: Cursors, v: View, r: nat)
    requires Peers(ops, c, v) && r < |c.producers|
    ensures
      var p, pend := c.producers[r], v.lists[r].pend;
      && Linked(ops, p.nextOps, pend) && Distinct(pend) && (p.nextOps == -1 <==> pend == []) && p.count == |pend|
      && (pend != [] ==> p.nextOpsEnd == LastOf(pend))
  {
    assert PeerAt(ops, c, v, r);
    assert v.lists[r].pend != [] ==> v.lists[r].pend[0] in v.lists[r].pend;
  }

  /** Where the links at the cut and at the end of the posted queue are. */
  lemma CutFacts(ops: seq<Op>, c: Cursors, nextOps: int, nextOpsEnd: int, fetchNext: int, v: View, r: nat, k: nat)
    requires Peers(ops, c, v) && Queues(ops, nextOps, nextOpsEnd, fetchNext, v) && r < |c.producers|
    requires 0 < k <= |v.lists[r].pend|
    ensures
      var p, pend := c.producers[r], v.lists[r].pend;
      && 0 <= pend[k - 1] < |ops| && v.loc[pend[k - 1]] == Pending && p.nextOps == pend[0] && p.count == |pend|
      && p.nextOpsEnd == pend[|pend| - 1]
      && ops[pend[k - 1]].next == (if k < |pend| then pend[k] else -1)
      && (k < |pend| ==> pend[k] != -1)
    ensures nextOps == -1 <==> v.posted == []
    ensures v.posted != [] ==> nextOpsEnd == LastOf(v.posted) && 0 <= nextOpsEnd < |ops| && v.loc[nextOpsEnd] == Posted
  {
    assert PeerAt(ops, c, v, r);
    var pend := v.lists[r].pend;
    assert pend[k - 1] in pend && (k < |pend| ==> pend[k] in pend);
    assert v.posted != [] ==> LastOf(v.posted) in v.posted && v.posted[0] in v.posted;
  }

  /** The pool after the chain ending in slot last was cut there and hung, from head on, behind the posted queue. */
  function PostedOps(ops: seq<Op>, nextOps: int, nextOpsEnd: int, head: int, last: int): seq<Op>
    requires 0 <= last < |ops| && (nextOps != -1 ==> 0 <= nextOpsEnd < |ops|)
  {
    var cut := ops[last := ops[last].(next := -1)];
    if nextOps == -1 then cut else cut[nextOpsEnd := cut[nextOpsEnd].(next := head)]
  }

  lemma PostStep(ops: seq<Op>, nextOps: int, nextOpsEnd: int, fetchNext: int, c: Cursors, phase: Phase, oldFree: int,
                 v: View, r: nat, k: nat, next: int, last: int)
    requires Inv(ops, nextOps, nextOpsEnd, fetchNext, c, phase, oldFree, v) && r < |c.producers|
    requires 0 < k <= |v.lists[r].pend| && next == (if k < |v.lists[r].pend| then v.lists[r].pend[k] else -1)
    requires last == v.lists[r].pend[k - 1]
    ensures k <= c.producers[r].count && 0 <= last < |ops| && (nextOps != -1 ==> 0 <= nextOpsEnd < |ops|)
    ensures
      var c' := c.(producers := c.producers[r := PostedCursor(c.producers[r], k, next)]);
      Inv(PostedOps(ops, nextOps, nextOpsEnd, c.producers[r].nextOps, last),
          if nextOps == -1 then c.producers[r].nextOps else nextOps, last, fetchNext, c', phase, oldFree,
          AfterPost(v, r, k))
  {
    CutFacts(ops, c, nextOps, nextOpsEnd, fetchNext, v, r, k);
    var ops' := PostedOps(ops, nextOps, nextOpsEnd, c.producers[r].nextOps, last);
    assert PostChange(ops, ops', v.posted, v.lists[r].pend, k);
    PostKeeps(ops, ops', nextOps, nextOpsEnd, fetchNext, c, phase, oldFree, v, r, k, next);
  }

  function FetchedCursors(c: Cursors, r: nat, x: int): Cursors
    requires r < |c.freeHead| == |c.freeEnd|
  {
    c.(freeHead := c.freeHead[r := x], freeEnd := if c.freeHead[r] == -1 then c.freeEnd[r := x] else c.freeEnd)
  }

  lemma GrabFacts(ops: seq<Op>, c: Cursors, nextOps: int, nextOpsEnd: int, fetchNext: int, v: View)
    requires Peers(ops, c, v) && Queues(ops, nextOps, nextOpsEnd, fetchNext, v)
    ensures fetchNext == -1 <==> v.fetched == []
  {
    assert v.fetched != [] ==> v.fetched[0] in v.fetched;
  }

  lemma FetchKeeps(ops: seq<Op>, ops': seq<Op>, nextOps: int, nextOpsEnd: int, x: int, c: Cursors, v: View, r: nat)
    requires Peers(ops, c, v) && Queues(ops, nextOps, nextOpsEnd, x, v) && Orders(ops, v) && x != -1
    requires r == x / MAX_OPS_PER_PEER
    requires r < |c.producers| && 0 <= x < |ops|
    requires ops' == if c.freeHead[r] == -1 then ops else ops[x := ops[x].(next := c.freeHead[r])]
    ensures v.fetched != [] && v.fetched[0] == x
    ensures
      var v' := AfterFetch(v, r, ops[x].work);
      Peers(ops', FetchedCursors(c, r, x), v') && Queues(ops', nextOps, nextOpsEnd, ops[x].next, v') && Orders(ops', v')
  {
    FetchFacts(ops, c, nextOps, nextOpsEnd, x, v);
    assert PeerAt(ops, c, v, r);
    assert v.lists[r].chain != [] ==> v.lists[r].chain[0] in v.lists[r].chain;
    assert FetchChange(ops, ops', x, v.lists[r].chain);
    FetchKeepsPeers(ops, ops', c, v, r, x, ops[x].work);
    assert c.freeEnd[r := c.freeEnd[r]] == c.freeEnd;
    FetchKeepsQueues(ops, ops', nextOps, nextOpsEnd, x, v, AfterFetch(v, r, ops[x].work), v.lists[r].chain);
    FetchKeepsOrders(ops, ops', v, r);
  }

  lemma ReturnKeeps(ops: seq<Op>, nextOps: int, nextOpsEnd: int, fetchNext: int, c: Cursors, oldFree: int, v: View,
                    r: nat)
    requires Inv(ops, nextOps, nextOpsEnd, fetchNext, c, Publishing(r), oldFree, v) && r < |c.freeOps|
    requires c.freeOps[r] == oldFree
    ensures
      var c' := c.(freeOps := c.freeOps[r := c.freeHead[r]], freeHead := c.freeHead[r := -1]);
      Inv(ops, nextOps, nextOpsEnd, fetchNext, c', Returning(r + 1), oldFree, AfterReturn(v, r))
  {
    assert PeerAt(ops, c, v, r);
    ReturnKeepsPeers(ops, c, v, r);
    RelabelKeeps(ops, nextOps, nextOpsEnd, fetchNext, v, AfterReturn(v, r));
  }

  function Range(lo: nat, hi: nat): (s: seq<int>)
    requires lo <= hi
    ensures |s| == hi - lo && forall i :: 0 <= i < hi - lo ==> s[i] == lo + i
  {
    seq(hi - lo, (i: nat) => lo + i)
  }

  ghost predicate InitialLinks(ops: seq<Op>, r: nat) {
    Hi(r) <= |ops| && forall x :: Lo(r) <= x < Hi(r) ==> ops[x].next == if x == Hi(r) - 1 then -1 else x + 1
  }

  lemma LinksStay(ops: seq<Op>, ops': seq<Op>, r: nat)
    requires |ops'| == |ops| && forall x :: 0 <= x < Lo(r) && x < |ops| ==> ops'[x] == ops[x]
    ensures forall q: nat :: q < r && InitialLinks(ops, q) ==> InitialLinks(ops', q)
  {
  }

  lemma InitialPeer(ops: seq<Op>, loc: seq<Loc>, r: nat)
    requires InitialLinks(ops, r) && |loc| == |ops| && forall x :: 0 <= x < |loc| ==> loc[x] == Returned
    ensures PeerOk(ops, loc, r, Producer(-1, -1, -1, 0), Lo(r), -1, -1, Lists([], [], [], Range(Lo(r), Hi(r))))
  {
    var s := Range(Lo(r), Hi(r));
    forall x | Lo(r) <= x < Hi(r) ensures x in s {
      assert s[x - Lo(r)] == x;
    }
  }

  function InitialCursors(n: nat): Cursors {
    Cursors(seq(n, _ => Producer(-1, -1, -1, 0)), seq(n, (r: nat) => Lo(r)), seq(n, _ => -1), seq(n, _ => -1))
  }

  /** Every slot is in its peer's list of returned slots. */
  ghost function InitialView(n: nat): View {
    View(seq(Lo(n), _ => Returned), seq(n, (r: nat) => Lists([], [], [], Range(Lo(r), Hi(r)))), [], [],
         seq(n, _ => []), seq(n, _ => []))
  }

  lemma InitialInv(ops: seq<Op>, n: nat)
    requires |ops| == Lo(n) && forall q: nat :: q < n ==> InitialLinks(ops, q)
    ensures Inv(ops, -1, -1, -1, InitialCursors(n), Idle, -1, InitialView(n))
  {
    var c, v := InitialCursors(n), InitialView(n);
    forall r: nat | r < n ensures PeerAt(ops, c, v, r) {
      InitialPeer(ops, v.loc, r);
    }
    forall r: nat | r < n ensures OrderAt(ops, v, r) {
    }
  }

}
