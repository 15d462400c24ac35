/** The shared pool of proxy operations: producers fill slots and post them, the progress thread fetches them, hands
    them on, and returns the slots. Every method of Pool that changes it is one step of one thread: it touches slots
    that thread owns and makes at most one access to shared state (an atomic operation or a lock section). */
module ProxyPool {
  import opened Seqs
  import opened Runs
  import opened ProxyLists
  import opened ProxyPeers
  import opened ProxyPoolSteps
  import opened ProxyMachine
  import opened ProxyPoolInv

  datatype Outcome = NoSlot | Appended | Failed

  ghost predicate Uniform(w: seq<Work>) {
    forall i, j :: 0 <= i < |w| && 0 <= j < |w| ==> w[i].opCount == w[j].opCount
  }

  /** There is one cut; it separates two different opCounts, what stays has a single one, and it is at the start exactly
      when the whole chain has a single opCount. */
  lemma CutMeaning(w: seq<Work>, k: nat, m: nat)
    requires IsCut(w, k)
    ensures k < |w| && Uniform(w[k..]) && (k > 0 ==> w[k - 1].opCount != w[k].opCount)
    ensures k == 0 <==> Uniform(w)
    ensures IsCut(w, m) ==> m == k
  {
    assert w[k].opCount == w[|w| - 1].opCount;
  }

  // ---------------------------------------------------------------- what the invariant means

  function Count(b: bool): nat {
    if b then 1 else 0
  }

  /** Slot x of peer r is in exactly one of the six lists a slot can be in, and in none of another peer. */
  ghost predicate InOneList(v: View, r: nat, x: int)
    requires r < |v.lists|
  {
    var l := v.lists[r];
    && Count(x in l.free) + Count(x in l.pend) + Count(x in v.posted) + Count(x in v.fetched) + Count(x in l.chain)
       + Count(x in l.ret) == 1
    && Distinct(l.free) && Distinct(l.pend) && Distinct(v.posted) && Distinct(v.fetched) && Distinct(l.chain)
    && Distinct(l.ret)
    && forall q: nat :: q < |v.lists| && q != r ==> Foreign(v.lists[q], x)
  }

  ghost predicate Foreign(l: Lists, x: int) {
    x !in l.free && x !in l.pend && x !in l.chain && x !in l.ret
  }

  lemma SlotInOneList(ops: seq<Op>, nextOps: int, nextOpsEnd: int, fetchNext: int, c: Cursors, v: View, r: nat, x: int)
    requires Peers(ops, c, v) && Queues(ops, nextOps, nextOpsEnd, fetchNext, v)
    requires r < |c.producers| && Lo(r) <= x < Hi(r)
    ensures InOneList(v, r, x)
  {
    assert PeerAt(ops, c, v, r);
    forall q: nat | q < |v.lists| && q != r ensures Foreign(v.lists[q], x) {
      ForeignSlot(ops, c, v, q, r, x);
    }
  }

  lemma ForeignSlot(ops: seq<Op>, c: Cursors, v: View, q: nat, r: nat, x: int)
    requires Peers(ops, c, v) && q < |v.lists| && q != r && Lo(r) <= x < Hi(r)
    ensures Foreign(v.lists[q], x)
  {
    assert PeerAt(ops, c, v, q);
  }

  /** What was delivered is a prefix of what was appended, and all of it once nothing is left in the pool. */
  ghost predicate Delivered(v: View, r: nat, appended: seq<Work>)
    requires r < |v.lists| == |v.delivered|
  {
    && v.delivered[r] <= appended
    && (v.posted == [] && v.fetched == [] && v.lists[r].pend == [] ==> v.delivered[r] == appended)
  }

  lemma DeliveredInOrder(ops: seq<Op>, v: View, r: nat)
    requires Orders(ops, v) && r < |v.lists|
    ensures Delivered(v, r, v.appended[r])
  {
    assert OrderAt(ops, v, r);
  }

  /** The heads that the threads see are those of the lists. */
  lemma ListHeads(ops: seq<Op>, c: Cursors, v: View, r: nat)
    requires Peers(ops, c, v) && r < |c.producers|
    ensures c.producers[r].freeOp == FirstOf(v.lists[r].free) && c.freeOps[r] == FirstOf(v.lists[r].ret)
    ensures c.producers[r].count == |v.lists[r].pend|
    ensures c.producers[r].freeOp == -1 <==> v.lists[r].free == []
    ensures c.freeHead[r] == -1 <==> v.lists[r].chain == []
  {
    assert PeerAt(ops, c, v, r);
    var l := v.lists[r];
    assert (l.free != [] ==> l.free[0] in l.free) && (l.chain != [] ==> l.chain[0] in l.chain);
  }

  /** An append in terms of the lists. */
  lemma SubmittedIs(ops: seq<Op>, c: Cursors, v: View, v': View, r: nat, w: Work, toSend: nat)
    requires Peers(ops, c, v) && Orders(ops, v) && r < |v.lists| && v.lists[r].free != []
    requires 0 <= v.lists[r].free[0] < |v.loc|
    requires |v.lists[r].pend| + 1 < MAX_OPS_PER_PEER ==> v' == AfterTake(v, r, w)
    requires |v.lists[r].pend| + 1 >= MAX_OPS_PER_PEER ==>
               && IsCut(Works(ops, v.lists[r].pend) + [w], toSend)
               && v' == if toSend > 0 then AfterPost(AfterTake(v, r, w), r, toSend) else AfterTake(v, r, w)
    ensures Submitted(v, v', r, w)
  {
    PendIs(ops, v, r);
    var u := AfterTake(v, r, w);
    assert PendWorks(u, r) == Works(ops, v.lists[r].pend) + [w];
  }

  /** What a producer has pending is what it appended last. */
  lemma PendIs(ops: seq<Op>, v: View, r: nat)
    requires Orders(ops, v) && r < |v.lists|
    ensures Works(ops, v.lists[r].pend) == PendWorks(v, r)
  {
    assert OrderAt(ops, v, r);
  }

  /** The head of the fetched queue is the first operation of its peer that has not been delivered. */
  lemma HeadIs(ops: seq<Op>, c: Cursors, nextOps: int, nextOpsEnd: int, fetchNext: int, v: View)
    requires Peers(ops, c, v) && Queues(ops, nextOps, nextOpsEnd, fetchNext, v) && Orders(ops, v) && v.fetched != []
    ensures
      var x := v.fetched[0];
      var r := x / MAX_OPS_PER_PEER;
      && 0 <= x < |v.loc| == |ops| && 0 <= r < |v.lists| && |v.delivered[r]| < |v.appended[r]|
      && v.appended[r][|v.delivered[r]|] == ops[x].work && HeadDelivery(v) == Delivery(ops[x].work.opCount, r)
  {
    assert v.fetched[0] in v.fetched;
    FetchFacts(ops, c, nextOps, nextOpsEnd, fetchNext, v);
    var x, r := v.fetched[0], v.fetched[0] / MAX_OPS_PER_PEER;
    assert OrderAt(ops, v, r);
    OfFirst(v.fetched, Lo(r), Hi(r));
    var mine := Of(v.fetched, Lo(r), Hi(r));
    assert mine[0] == x && Works(ops, mine)[0] == ops[x].work;
  }

  class Pool {
    // shared between the threads
    const ops: array<Op>
    var nextOps: int
    var nextOpsEnd: int
    var freeOps: seq<int>
    // one record per producer
    var producers: seq<Producer>
    // the progress thread
    const batchSize: int
    var phase: Phase
    var fetchNext: int
    var counters: Counters
    var freeHead: seq<int>
    var freeEnd: seq<int>
    var oldFree: int
    ghost var v: View
    ghost var batch: seq<Delivery>

    ghost function C(): Cursors
      reads this
    {
      Cursors(producers, freeOps, freeHead, freeEnd)
    }

    ghost predicate Valid()
      reads this, ops
    {
      && Inv(ops[..], nextOps, nextOpsEnd, fetchNext, C(), phase, oldFree, v)
      && BatchOk(phase, batch, batchSize, counters)
    }

    /** The abstract state. */
    ghost function S(): Snap
      reads this
    {
      Snap(v, phase, batch, oldFree)
    }

    /** The producer runs out of its own slots and takes the whole list of returned ones, if there is any. */
    method Acquire(r: nat)
      requires Valid() && r < |producers|
      modifies this
      ensures Valid() && |producers| == old(|producers|) && S() == old(S()).(v := v)
      ensures v == if old(producers[r].freeOp) == -1 then AfterAcquire(old(v), r) else old(v)
    {
      if producers[r].freeOp == -1 {
        AcquireKeeps(ops[..], nextOps, nextOpsEnd, fetchNext, C(), phase, oldFree, v, r);
        producers, freeOps := producers[r := producers[r].(freeOp := freeOps[r])], freeOps[r := -1];
        v := AfterAcquire(v, r);
      }
    }

    /** Fills the first free slot and links it behind the pending operations. */
    method Take(r: nat, w: Work)
      requires Valid() && r < |producers| && producers[r].freeOp != -1
      modifies this, ops
      ensures Valid() && |producers| == old(|producers|) && S() == old(S()).(v := v)
      ensures old(v.lists[r].free) != [] && 0 <= old(v.lists[r].free[0]) < old(|v.loc|) && v == AfterTake(old(v), r, w)
      ensures old(producers[r].count) < MAX_OPS_PER_PEER && producers[r].count == old(producers[r].count) + 1
      ensures Works(ops[..], v.lists[r].pend) == old(Works(ops[..], v.lists[r].pend)) + [w]
    {
      ghost var was := ops[..];
      CanTake(was, C(), v, r);
      var p := producers[r];
      var next := ops[p.freeOp].next;
      ops[p.freeOp] := Op(-1, w);
      if p.nextOps != -1 {
        ops[p.nextOpsEnd] := ops[p.nextOpsEnd].(next := p.freeOp);
      }
      assert TakeChange(was, ops[..], p.freeOp, LastOf(v.lists[r].pend), w);
      TakeKeeps(was, ops[..], nextOps, nextOpsEnd, fetchNext, C(), phase, oldFree, v, r, w);
      TakeWorks(was, ops[..], C(), v, r, w);
      producers :=
        producers[r := Producer(next, if p.nextOps == -1 then p.freeOp else p.nextOps, p.freeOp, p.count + 1)];
      v := AfterTake(v, r, w);
    }

    /** Walks a producer's pending chain to find where it can be cut without splitting a run of equal opCount. */
    method FindCut(p: Producer, ghost pend: seq<int>) returns (lastOp: int, toSend: nat)
      requires Linked(ops[..], p.nextOps, pend) && Distinct(pend) && pend != [] && p.nextOpsEnd == LastOf(pend)
      ensures IsCut(Works(ops[..], pend), toSend)
      ensures lastOp == if toSend == 0 then -1 else pend[toSend - 1]
    {
      ghost var w := Works(ops[..], pend);
      var lastOpCount := ops[p.nextOpsEnd].work.opCount;
      lastOp, toSend := -1, 0;
      var counted, op := 0, p.nextOps;
      while op != p.nextOpsEnd
        invariant 0 <= counted < |pend| && op == pend[counted] && toSend <= counted
        invariant lastOp == if toSend == 0 then -1 else pend[toSend - 1]
        invariant forall i :: toSend <= i < counted ==> w[i].opCount == lastOpCount
        invariant toSend > 0 ==> w[toSend - 1].opCount != lastOpCount
        decreases |pend| - counted
      {
        counted := counted + 1;
        if ops[op].work.opCount != lastOpCount {
          lastOp, toSend := op, counted;
        }
        op := ops[op].next;
      }
      assert counted == |pend| - 1 && w[counted].opCount == lastOpCount;
    }

    /** Hangs the chain from head to tail behind the posted queue. */
    method Post(head: int, tail: int)
      requires nextOps != -1 ==> 0 <= nextOpsEnd < ops.Length
      modifies this`nextOps, this`nextOpsEnd, ops
      ensures nextOps == (if old(nextOps) == -1 then head else old(nextOps)) && nextOpsEnd == tail
      ensures old(nextOps) == -1 ==> ops[..] == old(ops[..])
      ensures old(nextOps) != -1 ==>
                ops[..] == old(ops[..])[old(nextOpsEnd) := old(ops[..])[old(nextOpsEnd)].(next := head)]
    {
      if nextOps == -1 {
        nextOps := head;
      } else {
        ops[nextOpsEnd] := ops[nextOpsEnd].(next := head);
      }
      nextOpsEnd := tail;
    }

    /** A full pending chain is posted up to the cut, or nothing happens when every operation has the same opCount. */
    method Overflow(r: nat) returns (ok: bool, toSend: nat)
      requires Valid() && r < |producers| && v.lists[r].pend != []
      modifies this, ops
      ensures Valid() && |producers| == old(|producers|) && S() == old(S()).(v := v)
      ensures IsCut(old(Works(ops[..], v.lists[r].pend)), toSend) && (ok <==> toSend > 0)
      ensures v == if ok then AfterPost(old(v), r, toSend) else old(v)
    {
      PendFacts(ops[..], C(), v, r);
      var lastOp;
      lastOp, toSend := FindCut(producers[r], v.lists[r].pend);
      ok := lastOp != -1;
      if ok {
        PostFirst(r, lastOp, toSend);
      }
    }

    /** Cuts a pending chain behind its slot lastOp, the toSend-th, and posts the part before the cut. */
    method PostFirst(r: nat, lastOp: int, toSend: nat)
      requires Valid() && r < |producers| && 0 < toSend <= |v.lists[r].pend| && lastOp == v.lists[r].pend[toSend - 1]
      modifies this, ops
      ensures Valid() && |producers| == old(|producers|) && S() == old(S()).(v := v)
      ensures v == AfterPost(old(v), r, toSend)
    {
      ghost var c, was := C(), ops[..];
      CutFacts(was, c, nextOps, nextOpsEnd, fetchNext, v, r, toSend);
      var p, next := producers[r], ops[lastOp].next;
      PostStep(was, nextOps, nextOpsEnd, fetchNext, c, phase, oldFree, v, r, toSend, next, lastOp);
      ops[lastOp] := ops[lastOp].(next := -1);
      Post(p.nextOps, lastOp);
      producers := producers[r := PostedCursor(p, toSend, next)];
      v := AfterPost(v, r, toSend);
      assert ops[..] == PostedOps(was, old(nextOps), old(nextOpsEnd), p.nextOps, lastOp);
      assert C() == c.(producers := producers);
    }

    /** Posts everything a producer has pending. */
    method Start(r: nat)
      requires Valid() && r < |producers|
      modifies this, ops
      ensures Valid() && |producers| == old(|producers|) && S() == old(S()).(v := v)
      ensures v == if old(v.lists[r].pend) == [] then old(v) else AfterPost(old(v), r, |old(v.lists[r].pend)|)
    {
      ghost var c, was, k := C(), ops[..], |v.lists[r].pend|;
      var p := producers[r];
      PendFacts(was, c, v, r);
      if p.nextOps != -1 {
        CutFacts(was, c, nextOps, nextOpsEnd, fetchNext, v, r, k);
        PostStep(was, nextOps, nextOpsEnd, fetchNext, c, phase, oldFree, v, r, k, -1, p.nextOpsEnd);
        assert was[p.nextOpsEnd := was[p.nextOpsEnd].(next := -1)] == was;
        Post(p.nextOps, p.nextOpsEnd);
        producers := producers[r := p.(nextOps := -1, nextOpsEnd := -1, count := 0)];
        v := AfterPost(v, r, k);
        assert ops[..] == PostedOps(was, old(nextOps), old(nextOpsEnd), p.nextOps, p.nextOpsEnd);
        assert C() == c.(producers := producers);
      }
    }

    /** Appends one operation. Without a free slot the producer has to Acquire first. When the chain reaches
        MAX_OPS_PER_PEER it is posted up to its cut; when there is no cut the append fails. */
    method Append(r: nat, w: Work) returns (res: Outcome, toSend: nat)
      requires Valid() && r < |producers|
      modifies this, ops
      ensures Valid() && |producers| == old(|producers|) && S() == old(S()).(v := v)
      ensures res == NoSlot <==> old(producers[r].freeOp) == -1
      ensures res == NoSlot ==> v == old(v)
      ensures res != NoSlot ==>
                && old(producers[r].count) < MAX_OPS_PER_PEER
                && old(v.lists[r].free) != [] && 0 <= old(v.lists[r].free[0]) < old(|v.loc|)
      ensures res != NoSlot && old(producers[r].count) + 1 < MAX_OPS_PER_PEER ==>
                res == Appended && v == AfterTake(old(v), r, w)
      ensures res != NoSlot && old(producers[r].count) + 1 == MAX_OPS_PER_PEER ==>
                && IsCut(old(Works(ops[..], v.lists[r].pend)) + [w], toSend) && (res == Appended <==> toSend > 0)
                && v == if toSend > 0 then AfterPost(AfterTake(old(v), r, w), r, toSend) else AfterTake(old(v), r, w)
    {
      res, toSend := NoSlot, 0;
      if producers[r].freeOp != -1 {
        PendFacts(ops[..], C(), v, r);
        Take(r, w);
        res := Appended;
        if producers[r].count == MAX_OPS_PER_PEER {
          var ok;
          ok, toSend := Overflow(r);
          res := if ok then Appended else Failed;
        }
      }
    }

    /** The progress thread starts a fetch: with nothing left over from the last one, it takes the whole posted
        queue. */
    method Grab()
      requires Valid() && phase.Idle?
      modifies this
      ensures Valid() && |producers| == old(|producers|) && phase == Fetching
      ensures v == (if old(fetchNext) == -1 then AfterGrab(old(v)) else old(v)) && batch == []
      ensures Polled(batchSize, old(S()), S())
    {
      GrabFacts(ops[..], C(), nextOps, nextOpsEnd, fetchNext, v);
      SwitchesOne(Delivery(0, 0));
      if fetchNext == -1 {
        GrabKeeps(ops[..], C(), nextOps, nextOpsEnd, v);
        fetchNext, nextOps, nextOpsEnd := nextOps, -1, -1;
        v := AfterGrab(v);
      }
      counters, batch := Counters(0, -1, 0), [];
      phase := Fetching;
    }

    /** One round of the fetch loop: the head of the fetched queue is delivered and its slot put in front of its peer's
        chain, exactly unless the queue is empty or the batch has no room for it. */
    method Fetch() returns (more: bool)
      requires Valid() && phase.Fetching?
      modifies this, ops
      ensures Valid() && |producers| == old(|producers|)
      ensures more <==> old(v.fetched) != [] && Room(batchSize, old(batch) + [old(HeadDelivery(v))])
      ensures !more ==> v == old(v) && batch == old(batch) && phase == Returning(0)
      ensures more ==>
                && phase == Fetching && old(v.fetched) != [] && 0 <= old(v.fetched[0]) < old(|v.loc|)
                && 0 <= old(v.fetched[0]) / MAX_OPS_PER_PEER < old(|v.lists|) == old(|v.delivered|)
                && v == AfterFetch(old(v), old(v.fetched[0]) / MAX_OPS_PER_PEER,
                                   WorkAt(old(ops[..]), old(v.fetched[0])))
                && batch == old(batch) + [old(HeadDelivery(v))]
      ensures Polled(batchSize, old(S()), S())
    {
      more := fetchNext != -1;
      if more {
        FetchFacts(ops[..], C(), nextOps, nextOpsEnd, fetchNext, v);
        HeadIs(ops[..], C(), nextOps, nextOpsEnd, fetchNext, v);
        ghost var d := HeadDelivery(v);
        var opCount, peer := ops[fetchNext].work.opCount, fetchNext / MAX_OPS_PER_PEER;
        Counted(batch, batchSize, counters, d);
        counters := counters.Count(opCount, peer);
        more := counters.switches != batchSize + 1;
        if more {
          counters, batch := counters.(lastOpCount := opCount, lastPeer := peer), batch + [d];
          Deliver(peer);
        }
      }
      if !more {
        phase := Returning(0);
      }
    }

    method Deliver(peer: nat)
      requires Valid() && phase.Fetching? && fetchNext != -1 && peer == fetchNext / MAX_OPS_PER_PEER
      modifies this`fetchNext, this`freeHead, this`freeEnd, this`v, ops
      ensures Valid()
      ensures old(v.fetched) != [] && 0 <= old(v.fetched[0]) < old(|v.loc|)
      ensures peer == old(v.fetched[0]) / MAX_OPS_PER_PEER
      ensures peer < old(|v.lists|) == old(|v.delivered|)
      ensures v == AfterFetch(old(v), peer, WorkAt(old(ops[..]), old(v.fetched[0])))
    {
      ghost var was, c := ops[..], C();
      FetchFacts(was, c, nextOps, nextOpsEnd, fetchNext, v);
      var opIndex := fetchNext;
      var next := ops[opIndex].next;
      if freeHead[peer] == -1 {
        freeEnd := freeEnd[peer := opIndex];
      } else {
        ops[opIndex] := ops[opIndex].(next := freeHead[peer]);
      }
      freeHead := freeHead[peer := opIndex];
      fetchNext := next;
      FetchKeeps(was, ops[..], nextOps, nextOpsEnd, opIndex, c, v, peer);
      v := AfterFetch(v, peer, was[opIndex].work);
      assert C() == FetchedCursors(c, peer, opIndex);
    }

    /** Looks at the next peer's chain: an empty one is skipped, otherwise the peer's list of returned slots is linked
        behind it. After the last peer the fetch is over. */
    method Load()
      requires Valid() && phase.Returning?
      modifies this`phase, this`oldFree, ops
      ensures Valid() && v == old(v) && Polled(batchSize, old(S()), S())
      ensures phase == (if old(phase).peer == |freeOps| then Idle
                        else if freeHead[old(phase).peer] == -1 then Returning(old(phase).peer + 1)
                        else Publishing(old(phase).peer))
    {
      var i := phase.peer;
      if i < |freeOps| {
        ListHeads(ops[..], C(), v, i);
      }
      if i == |freeOps| {
        phase := Idle;
      } else if freeHead[i] == -1 {
        phase := Returning(i + 1);
      } else {
        LoadLink(i);
      }
    }

    /** Reads the head of the peer's returned list and links it behind the chain. */
    method LoadLink(i: nat)
      requires Valid() && i < |freeOps| && (phase == Returning(i) || phase == Publishing(i)) && freeHead[i] != -1
      modifies this`phase, this`oldFree, ops
      ensures Valid() && v == old(v) && phase == Publishing(i) && oldFree == freeOps[i]
    {
      ghost var was := ops[..];
      LoadKeeps(was, C(), nextOps, nextOpsEnd, fetchNext, v, i, freeOps[i]);
      oldFree := freeOps[i];
      ops[freeEnd[i]] := ops[freeEnd[i]].(next := oldFree);
      assert ops[..] == was[freeEnd[i] := was[freeEnd[i]].(next := oldFree)];
      phase := Publishing(i);
    }

    /** The compare-and-exchange that publishes the chain; when the producer has taken its list in the meantime, the
        link is written again for the next try. */
    method Exchange() returns (ok: bool)
      requires Valid() && phase.Publishing?
      modifies this, ops
      ensures Valid() && |producers| == old(|producers|)
      ensures old(phase).peer < old(|v.lists|) && (ok <==> old(freeOps[phase.peer]) == old(oldFree))
      ensures ok ==> v == AfterReturn(old(v), old(phase).peer) && phase == Returning(old(phase).peer + 1)
      ensures !ok ==> v == old(v) && phase == old(phase)
      ensures Polled(batchSize, old(S()), S())
    {
      var i := phase.peer;
      ListHeads(ops[..], C(), v, i);
      ok := freeOps[i] == oldFree;
      if ok {
        ReturnKeeps(ops[..], nextOps, nextOpsEnd, fetchNext, C(), oldFree, v, i);
        freeOps, freeHead := freeOps[i := freeHead[i]], freeHead[i := -1];
        v := AfterReturn(v, i);
        phase := Returning(i + 1);
      } else {
        LoadLink(i);
      }
    }

    /** One step of the progress thread. */
    method Progress()
      requires Valid()
      modifies this, ops
      ensures Valid() && |producers| == old(|producers|) && v.appended == old(v.appended)
      ensures Polled(batchSize, old(S()), S())
    {
      match phase
      case Idle => Grab();
      case Fetching => var _ := Fetch();
      case Returning(_) => Load();
      case Publishing(_) => var _ := Exchange();
    }

    /** Links each producer's slots into its list of returned slots; no operation is anywhere yet. */
    constructor (n: nat, batchSize: int)
      ensures Valid() && fresh(ops) && |producers| == n && phase == Idle && fetchNext == -1
      ensures v == InitialView(n) && batch == [] && oldFree == -1 && this.batchSize == batchSize
      ensures v.appended == v.delivered == seq(n, _ => [])
    {
      this.batchSize := batchSize;
      ops := new Op[Lo(n)](_ => Op(-1, Work(0, 0)));
      nextOps, nextOpsEnd, fetchNext, oldFree := -1, -1, -1, -1;
      var c := InitialCursors(n);
      producers, freeOps, freeHead, freeEnd := c.producers, c.freeOps, c.freeHead, c.freeEnd;
      phase, counters := Idle, Counters(0, -1, 0);
      v, batch := InitialView(n), [];
      new;
      for r := 0 to n
        modifies ops
        invariant ops.Length == Lo(n) && forall q: nat :: q < r ==> InitialLinks(ops[..], q)
      {
        ghost var was := ops[..];
        LinkRange(r);
        LinksStay(was, ops[..], r);
      }
      InitialInv(ops[..], n);
      assert C() == c;
    }

    method LinkRange(r: nat)
      requires Hi(r) <= ops.Length
      modifies ops
      ensures InitialLinks(ops[..], r)
      ensures forall x :: 0 <= x < ops.Length && !(Lo(r) <= x < Hi(r)) ==> ops[x] == old(ops[x])
    {
      for i := 0 to MAX_OPS_PER_PEER - 1
        invariant forall x :: Lo(r) <= x < Lo(r) + i ==> ops[x].next == x + 1
        invariant forall x :: 0 <= x < ops.Length && !(Lo(r) <= x < Hi(r)) ==> ops[x] == old(ops[x])
      {
        ops[Lo(r) + i] := ops[Lo(r) + i].(next := Lo(r) + i + 1);
      }
      ops[Hi(r) - 1] := ops[Hi(r) - 1].(next := -1);
    }
  }

  /** Runs the producers and the progress thread interleaved in any order. Each event takes place as the abstract
      machine has it. Whatever the order, the slots stay partitioned and each producer's operations are delivered in the
      order it appended them. */
  method Run(n: nat, batchSize: int, schedule: seq<Event>)
    returns (pool: Pool, accepted: seq<seq<Work>>, ghost trace: seq<Snap>)
    ensures pool.Valid() && |accepted| == |pool.v.delivered| == |pool.v.lists| == n
    ensures IsRun(Machine(batchSize), trace, schedule) && trace[0] == Snap(InitialView(n), Idle, [], -1)
    ensures trace[|schedule|] == pool.S() && accepted == pool.v.appended
    ensures forall r: nat :: r < n ==> Delivered(pool.v, r, accepted[r])
    ensures forall r: nat, x :: r < n && Lo(r) <= x < Hi(r) ==> InOneList(pool.v, r, x)
  {
    pool := new Pool(n, batchSize);
    accepted, trace := seq(n, _ => []), [pool.S()];
    for k := 0 to |schedule|
      invariant pool.Valid() && |pool.producers| == n && pool.v.appended == accepted && fresh(pool) && fresh(pool.ops)
      invariant pool.batchSize == batchSize && IsRun(Machine(batchSize), trace, schedule[..k]) && trace[k] == pool.S()
      invariant trace[0] == Snap(InitialView(n), Idle, [], -1)
    {
      accepted := Act(pool, schedule[k], accepted);
      RunMore(Machine(batchSize), trace, schedule, k, pool.S());
      trace := trace + [pool.S()];
    }
    assert schedule[..|schedule|] == schedule;
    Facts(pool, n);
  }

  /** What holds of any pool. */
  lemma Facts(pool: Pool, n: nat)
    requires pool.Valid() && |pool.producers| == n
    ensures |pool.v.appended| == |pool.v.delivered| == |pool.v.lists| == n
    ensures forall r: nat :: r < n ==> Delivered(pool.v, r, pool.v.appended[r])
    ensures forall r: nat, x :: r < n && Lo(r) <= x < Hi(r) ==> InOneList(pool.v, r, x)
  {
    forall r: nat | r < n ensures Delivered(pool.v, r, pool.v.appended[r]) {
      DeliveredInOrder(pool.ops[..], pool.v, r);
    }
    forall r: nat, x | r < n && Lo(r) <= x < Hi(r) ensures InOneList(pool.v, r, x) {
      SlotInOneList(pool.ops[..], pool.nextOps, pool.nextOpsEnd, pool.fetchNext, pool.C(), pool.v, r, x);
    }
  }

  method Act(pool: Pool, e: Event, accepted: seq<seq<Work>>) returns (accepted': seq<seq<Work>>)
    requires pool.Valid() && pool.v.appended == accepted
    modifies pool, pool.ops
    ensures pool.Valid() && |pool.producers| == old(|pool.producers|) && pool.v.appended == accepted'
    ensures Took(pool.batchSize, old(pool.S()), e, pool.S())
  {
    accepted' := accepted;
    match e
    case Refill(r) =>
      if r < |pool.producers| {
        ListHeads(pool.ops[..], pool.C(), pool.v, r);
        pool.Acquire(r);
      }
    case Submit(r, w) =>
      if r < |pool.producers| {
        accepted' := Submission(pool, r, w, accepted);
      }
    case Launch(r) =>
      if r < |pool.producers| {
        pool.Start(r);
      }
    case Poll =>
      pool.Progress();
  }

  method Submission(pool: Pool, r: nat, w: Work, accepted: seq<seq<Work>>) returns (accepted': seq<seq<Work>>)
    requires pool.Valid() && pool.v.appended == accepted && r < |pool.producers|
    modifies pool, pool.ops
    ensures pool.Valid() && |pool.producers| == old(|pool.producers|) && pool.v.appended == accepted'
    ensures Took(pool.batchSize, old(pool.S()), Submit(r, w), pool.S())
  {
    ghost var ops, c, v := pool.ops[..], pool.C(), pool.v;
    ListHeads(ops, c, v, r);
    var res, toSend := pool.Append(r, w);
    accepted' := accepted;
    if res != NoSlot {
      SubmittedIs(ops, c, v, pool.v, r, w, toSend);
      accepted' := accepted[r := accepted[r] + [w]];
    }
  }
}
