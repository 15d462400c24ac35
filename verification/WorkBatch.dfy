/** Work batches: the host packs the offsets of one channel's work into 64-bit sets, extending a batch when the next
    offset does not fit its set and starting a new one when the device could not run the whole fused batch. */
module WorkBatch {
  import opened Arith
  import opened Seqs

  datatype WorkType = P2p | Coll | CollReg | Bcast

  /** Bytes of one work structure. */
  function WorkSize(t: WorkType): nat {
    match t
    case P2p => 48
    case Coll => 96
    case CollReg => 288
    case Bcast => 48
  }

  const MAX_BATCH_BYTES := 1024
  const P2P_PER_BATCH := 8

  function MaxBatchBytes(cudaArch: nat): nat {
    if cudaArch < 800 then 1024 else if cudaArch < 900 then 8192 else 16384
  }

  /** An index into the device's function table, a field of 15 bits. */
  type FuncId = x: nat | x < 0x8000

  /** A 64-bit word, bit i at position i. */
  type Word = w: seq<bool> | |w| == 64 witness seq(64, _ => false)

  datatype Batch = Batch(nextJump: nat, nextExtends: bool, workType: WorkType, funcId: FuncId, offsetBase: nat,
                         bits: Word)

  /** One piece of work handed to the planner; newBatch is the caller's request that a new batch be started for it. */
  datatype Item = Item(workType: WorkType, funcId: FuncId, offset: nat, epoch: int, round: nat, newBatch: bool)

  /** What the device runs at once: the works of one fused batch. */
  datatype Loaded = Loaded(workType: WorkType, funcId: FuncId, offsets: seq<nat>)

  /** The positions of the one bits of w, in ascending order. */
  function Ones(w: seq<bool>): (s: seq<nat>)
    ensures forall i: nat :: i in s <==> i < |w| && w[i]
  {
    if w == [] then [] else Ones(w[..|w| - 1]) + if w[|w| - 1] then [|w| - 1] else []
  }

  function Zeros(): Word {
    seq(64, _ => false)
  }

  function At(base: nat, size: nat, ones: seq<nat>): (s: seq<nat>)
    ensures |s| == |ones| && forall i :: 0 <= i < |s| ==> s[i] == base + ones[i] * size
  {
    seq(|ones|, i requires 0 <= i < |ones| => base + ones[i] * size)
  }

  function Offsets(b: Batch): seq<nat> {
    At(b.offsetBase, WorkSize(b.workType), Ones(b.bits))
  }

  /** Batches fused along nextExtends. */
  function Fuse(bs: seq<Batch>): (l: seq<Loaded>)
    ensures bs != [] ==> l != []
  {
    if bs == [] then []
    else
      FuseOne(Fuse(bs[..|bs| - 1]), |bs| > 1 && bs[|bs| - 2].nextExtends, bs[|bs| - 1])
  }

  /** One batch more: it extends the last fused batch or starts another. */
  function FuseOne(front: seq<Loaded>, joins: bool, b: Batch): (l: seq<Loaded>)
    requires joins ==> front != []
    ensures l != []
  {
    if joins then
      front[..|front| - 1] + [Loaded(b.workType, b.funcId, front[|front| - 1].offsets + Offsets(b))]
    else
      front + [Loaded(b.workType, b.funcId, Offsets(b))]
  }

  // ---------------------------------------------------------------- what the device can run at once

  datatype Limits = Limits(cudaArch: nat, epochs: bool) {
    function MaxBcasts(): nat {
      MaxBatchBytes(cudaArch) / WorkSize(Bcast)
    }
  }

  /** One kind of work and function, and room for all of it; point-to-point work has at most eight operations, of
      distinct rounds, of one group of eight rounds, and, when epochs matter, of one epoch. */
  ghost predicate Runnable(lim: Limits, g: seq<Item>) {
    && g != []
    && (forall i :: 0 <= i < |g| ==> g[i].workType == g[0].workType && g[i].funcId == g[0].funcId)
    && (if g[0].workType == Bcast then |g| <= lim.MaxBcasts() else |g| * WorkSize(g[0].workType) <= MAX_BATCH_BYTES)
    && (g[0].workType == P2p ==> P2pRunnable(lim, g))
  }

  ghost predicate P2pRunnable(lim: Limits, g: seq<Item>) {
    && |g| <= P2P_PER_BATCH
    && (forall i, j :: 0 <= i < j < |g| ==>
          g[i].round != g[j].round && g[i].round / P2P_PER_BATCH == g[j].round / P2P_PER_BATCH)
    && (lim.epochs ==> forall i, j :: 0 <= i < j < |g| ==> g[i].epoch == g[j].epoch)
  }

  /** The intended grouping: an item joins the current group whenever the device can still run it. */
  ghost function Greedy(lim: Limits, items: seq<Item>): (g: seq<seq<Item>>)
    ensures items != [] ==> g != []
  {
    if items == [] then []
    else Join(lim, Greedy(lim, items[..|items| - 1]), items[|items| - 1])
  }

  ghost function Join(lim: Limits, groups: seq<seq<Item>>, item: Item): (g: seq<seq<Item>>)
    ensures g != []
  {
    if groups != [] && Runnable(lim, groups[|groups| - 1] + [item]) then
      groups[..|groups| - 1] + [groups[|groups| - 1] + [item]]
    else
      groups + [[item]]
  }

  /** Each item as the device sees it. */
  function Seen(items: seq<Item>): (s: seq<(WorkType, FuncId, nat)>)
    ensures |s| == |items| && forall i :: 0 <= i < |s| ==> s[i] == (items[i].workType, items[i].funcId, items[i].offset)
  {
    seq(|items|, i requires 0 <= i < |items| => (items[i].workType, items[i].funcId, items[i].offset))
  }

  /** The works of one fused batch, in the order they run. */
  function Works(l: Loaded): (s: seq<(WorkType, FuncId, nat)>)
    ensures |s| == |l.offsets| && forall i :: 0 <= i < |s| ==> s[i] == (l.workType, l.funcId, l.offsets[i])
  {
    seq(|l.offsets|, i requires 0 <= i < |l.offsets| => (l.workType, l.funcId, l.offsets[i]))
  }

  function AllWorks(l: seq<Loaded>): seq<(WorkType, FuncId, nat)> {
    if l == [] then [] else AllWorks(l[..|l| - 1]) + Works(l[|l| - 1])
  }

  function OffsetsOf(items: seq<Item>): (s: seq<nat>)
    ensures |s| == |items| && forall i :: 0 <= i < |s| ==> s[i] == items[i].offset
  {
    seq(|items|, i requires 0 <= i < |items| => items[i].offset)
  }

  /** A group as the device sees it. */
  function AsLoaded(g: seq<Item>): Loaded
    requires g != []
  {
    Loaded(g[0].workType, g[0].funcId, OffsetsOf(g))
  }

  ghost predicate SameGroups(loaded: seq<Loaded>, groups: seq<seq<Item>>) {
    |loaded| == |groups| && forall i: nat {:trigger SameAt(loaded, groups, i)} :: i < |groups| ==>
      SameAt(loaded, groups, i)
  }

  ghost predicate SameAt(loaded: seq<Loaded>, groups: seq<seq<Item>>, i: nat) {
    i < |loaded| && i < |groups| && groups[i] != [] && loaded[i] == AsLoaded(groups[i])
  }

  // ---------------------------------------------------------------- what each way of adding an offset does

  lemma {:induction false} OnesAdd(w: seq<bool>, m: nat)
    requires m < |w| && forall i :: m <= i < |w| ==> !w[i]
    ensures Ones(w[m := true]) == Ones(w) + [m]
  {
    var k := |w| - 1;
    if m == k {
      assert w[m := true][..k] == w[..k];
    } else {
      OnesAdd(w[..k], m);
      assert w[m := true][..k] == w[..k][m := true];
    }
  }

  lemma {:induction false} OnesNone(w: seq<bool>)
    requires forall i :: 0 <= i < |w| ==> !w[i]
    ensures Ones(w) == []
  {
    if w != [] {
      OnesNone(w[..|w| - 1]);
    }
  }

  /** A new batch: one bit set. */
  function NewBatch(item: Item): Batch {
    Batch(0, false, item.workType, item.funcId, item.offset, Zeros()[0 := true])
  }

  lemma FirstOffset(item: Item)
    ensures Offsets(NewBatch(item)) == [item.offset]
  {
    OnesNone(Zeros());
    OnesAdd(Zeros(), 0);
    assert Ones(NewBatch(item).bits) == [0];
  }

  lemma MoreOffset(b: Batch, m: nat)
    requires m < 64 && forall i :: m <= i < 64 ==> !b.bits[i]
    ensures Offsets(b.(bits := b.bits[m := true])) == Offsets(b) + [b.offsetBase + m * WorkSize(b.workType)]
  {
    OnesAdd(b.bits, m);
  }

  function Last<T>(s: seq<T>): T
    requires s != []
  {
    s[|s| - 1]
  }

  function Front<T>(s: seq<T>): seq<T>
    requires s != []
  {
    s[..|s| - 1]
  }

  /** s with its last element replaced. */
  function SetLast<T>(s: seq<T>, x: T): seq<T>
    requires s != []
  {
    s[|s| - 1 := x]
  }

  lemma FuseNew(bs: seq<Batch>, b: Batch)
    requires bs != [] ==> !Last(bs).nextExtends
    ensures Fuse(bs + [b]) == Fuse(bs) + [Loaded(b.workType, b.funcId, Offsets(b))]
  {
    assert (bs + [b])[..|bs + [b]| - 1] == bs;
  }

  lemma FuseExtend(bs: seq<Batch>, b: Batch)
    requires bs != []
    ensures
      var l := Fuse(bs);
      Fuse(SetLast(bs, Last(bs).(nextExtends := true)) + [b])
        == Front(l) + [Loaded(b.workType, b.funcId, Last(l).offsets + Offsets(b))]
  {
    var bs1 := SetLast(bs, Last(bs).(nextExtends := true));
    assert bs1[..|bs1| - 1] == bs[..|bs| - 1];
    assert Fuse(bs1) == Fuse(bs);
    assert (bs1 + [b])[..|bs1 + [b]| - 1] == bs1;
  }

  /** The last batch of a chain replaced by b. */
  lemma FuseSetLast(bs: seq<Batch>, b: Batch)
    requires bs != []
    ensures Fuse(SetLast(bs, b)) == FuseOne(Fuse(Front(bs)), |bs| > 1 && bs[|bs| - 2].nextExtends, b)
  {
    assert Front(SetLast(bs, b)) == Front(bs);
  }

  lemma FuseBit(bs: seq<Batch>, b: Batch, offset: nat)
    requires bs != [] && b.workType == Last(bs).workType && b.funcId == Last(bs).funcId
    requires Offsets(b) == Offsets(Last(bs)) + [offset]
    ensures Fuse(SetLast(bs, b)) == Front(Fuse(bs)) + [MoreLoaded(Last(Fuse(bs)), offset)]
  {
    FuseSetLast(bs, b);
    FuseMore(Fuse(Front(bs)), |bs| > 1 && bs[|bs| - 2].nextExtends, Last(bs), b, offset);
  }

  function MoreLoaded(l: Loaded, offset: nat): Loaded {
    l.(offsets := l.offsets + [offset])
  }

  /** One offset more in the last batch is one offset more in the last fused batch. */
  lemma FuseMore(front: seq<Loaded>, joins: bool, b: Batch, b1: Batch, offset: nat)
    requires (joins ==> front != []) && b1.workType == b.workType && b1.funcId == b.funcId
    requires Offsets(b1) == Offsets(b) + [offset]
    ensures
      var l := FuseOne(front, joins, b);
      FuseOne(front, joins, b1) == Front(l) + [MoreLoaded(Last(l), offset)]
  {
    if joins {
      Associative(Last(front).offsets, Offsets(b), [offset]);
    }
  }

  // ---------------------------------------------------------------- the channel's builder

  /** What has to hold for item to join g, in terms of what the builder keeps about g. */
  ghost predicate Fits(lim: Limits, g: seq<Item>, item: Item)
    requires g != []
  {
    && item.workType == g[0].workType && item.funcId == g[0].funcId
    && (if item.workType == Bcast then |g| != lim.MaxBcasts()
        else |g| * WorkSize(item.workType) + WorkSize(item.workType) <= MAX_BATCH_BYTES)
    && (item.workType == P2p ==>
          && (lim.epochs ==> Last(g).epoch == item.epoch) && |g| != P2P_PER_BATCH
          && forall i :: 0 <= i < |g| ==>
               g[i].round != item.round && g[i].round / P2P_PER_BATCH == item.round / P2P_PER_BATCH)
  }

  lemma FitsMeansRunnable(lim: Limits, g: seq<Item>, item: Item)
    requires Runnable(lim, g)
    ensures Fits(lim, g, item) <==> Runnable(lim, g + [item])
  {
    var h := g + [item];
    assert h[0] == g[0] && h[|g|] == item && forall i :: 0 <= i < |g| ==> h[i] == g[i];
    assert |h| * WorkSize(g[0].workType) == |g| * WorkSize(g[0].workType) + WorkSize(g[0].workType);
    if Runnable(lim, h) {
      assert h[|g|].workType == h[0].workType;
    }
    if item.workType == g[0].workType == P2p {
      FitsP2p(lim, g, item);
    }
  }

  lemma FitsP2p(lim: Limits, g: seq<Item>, item: Item)
    requires g != [] && P2pRunnable(lim, g)
    ensures P2pRunnable(lim, g + [item]) <==>
              && (lim.epochs ==> Last(g).epoch == item.epoch) && |g| != P2P_PER_BATCH
              && forall i :: 0 <= i < |g| ==>
                   g[i].round != item.round && g[i].round / P2P_PER_BATCH == item.round / P2P_PER_BATCH
  {
    var h := g + [item];
    assert h[|g|] == item && forall i :: 0 <= i < |g| ==> h[i] == g[i];
  }

  /** Any single item is runnable. */
  lemma SingleRunnable(lim: Limits, item: Item)
    ensures Runnable(lim, [item])
  {
  }

  lemma {:induction false} GreedyRunnable(lim: Limits, items: seq<Item>)
    ensures forall i :: 0 <= i < |Greedy(lim, items)| ==> Runnable(lim, Greedy(lim, items)[i])
  {
    if items != [] {
      GreedyRunnable(lim, items[..|items| - 1]);
      SingleRunnable(lim, items[|items| - 1]);
    }
  }

  function Flatten<T>(s: seq<seq<T>>): seq<T> {
    if s == [] then [] else Flatten(s[..|s| - 1]) + s[|s| - 1]
  }

  lemma FlattenSnoc<T>(s: seq<seq<T>>, t: seq<T>)
    ensures Flatten(s + [t]) == Flatten(s) + t
  {
    assert (s + [t])[..|s + [t]| - 1] == s;
  }

  lemma FlattenGrow<T>(g: seq<seq<T>>, x: T)
    requires g != []
    ensures Flatten(Front(g) + [Last(g) + [x]]) == Flatten(g) + [x]
  {
    var f, l := Front(g), Last(g);
    FlattenSnoc(f, l + [x]);
    assert f + [l] == g;
    FlattenSnoc(f, l);
    Associative(Flatten(f), l, [x]);
  }

  lemma JoinFlattens(lim: Limits, g: seq<seq<Item>>, item: Item)
    ensures Flatten(Join(lim, g, item)) == Flatten(g) + [item]
  {
    if g != [] {
      FlattenGrow(g, item);
    }
    FlattenSnoc(g, [item]);
  }

  lemma {:induction false} GreedyFlattens(lim: Limits, items: seq<Item>)
    ensures Flatten(Greedy(lim, items)) == items
  {
    if items != [] {
      var front, item := items[..|items| - 1], items[|items| - 1];
      GreedyFlattens(lim, front);
      assert Greedy(lim, items) == Join(lim, Greedy(lim, front), item);
      JoinFlattens(lim, Greedy(lim, front), item);
      assert front + [item] == items;
    }
  }

  /** The builder's counters about the group it is adding to. */
  datatype Wip = Wip(workBytes: nat, nP2ps: nat, p2pRounds: seq<nat>, p2pEpoch: int, nBcasts: nat)

  ghost predicate WipOk(wip: Wip, g: seq<Item>)
    requires g != []
  {
    && wip.workBytes == |g| * WorkSize(g[0].workType) && |wip.p2pRounds| == P2P_PER_BATCH
    && (g[0].workType == Bcast ==> wip.nBcasts == |g|)
    && (g[0].workType == P2p ==>
          && wip.nP2ps == |g| <= P2P_PER_BATCH && wip.p2pEpoch == Last(g).epoch
          && forall i :: 0 <= i < |g| ==> wip.p2pRounds[i] == g[i].round)
  }

  /** The last batch can take later offsets: its highest one bit, top, stands for the last item. */
  ghost predicate TailOk(b: Batch, top: nat, item: Item) {
    && !b.nextExtends && b.workType == item.workType && b.funcId == item.funcId
    && top < 64 && (forall i :: top < i < 64 ==> !b.bits[i])
    && item.offset == b.offsetBase + top * WorkSize(b.workType)
  }

  ghost predicate ChannelOk(batches: seq<Batch>, wip: Wip, top: nat, groups: seq<seq<Item>>) {
    && (groups == [] <==> batches == [])
    && SameGroups(Fuse(batches), groups)
    && wip.nP2ps <= P2P_PER_BATCH && |wip.p2pRounds| == P2P_PER_BATCH
    && (groups != [] ==>
          Last(groups) != [] && TailOk(Last(batches), top, Last(Last(groups))) && WipOk(wip, Last(groups)))
  }

  /** Whether the current group cannot take the item. */
  method Blocked(lim: Limits, batch: Batch, wip: Wip, item: Item, ghost g: seq<Item>) returns (newBatch: bool)
    requires g != [] && WipOk(wip, g) && batch.workType == g[0].workType && batch.funcId == g[0].funcId
    requires wip.nP2ps <= P2P_PER_BATCH && |wip.p2pRounds| == P2P_PER_BATCH
    ensures newBatch <==> !Fits(lim, g, item)
  {
    newBatch := batch.workType != item.workType || batch.funcId != item.funcId;
    if item.workType == P2p {
      newBatch := newBatch || (lim.epochs && wip.p2pEpoch != item.epoch) || wip.nP2ps == P2P_PER_BATCH;
      for i := 0 to wip.nP2ps
        invariant batch.workType != P2p ==> newBatch
        invariant batch.workType == P2p ==>
                    (newBatch <==> !(&& item.funcId == g[0].funcId && (lim.epochs ==> Last(g).epoch == item.epoch)
                                     && |g| != P2P_PER_BATCH
                                     && forall j :: 0 <= j < i ==>
                                          && g[j].round != item.round
                                          && g[j].round / P2P_PER_BATCH == item.round / P2P_PER_BATCH))
      {
        newBatch := newBatch || item.round == wip.p2pRounds[i]
                    || item.round / P2P_PER_BATCH != wip.p2pRounds[i] / P2P_PER_BATCH;
      }
    }
    if item.workType == Bcast {
      newBatch := newBatch || wip.nBcasts == lim.MaxBcasts();
    } else {
      newBatch := newBatch || MAX_BATCH_BYTES < wip.workBytes + WorkSize(item.workType);
    }
  }

  lemma GreedySnoc(lim: Limits, items: seq<Item>, item: Item)
    ensures Greedy(lim, items + [item]) == Join(lim, Greedy(lim, items), item)
  {
    assert (items + [item])[..|items + [item]| - 1] == items;
  }

  lemma SameSnoc(loaded: seq<Loaded>, groups: seq<seq<Item>>, l: Loaded, g: seq<Item>)
    requires SameGroups(loaded, groups) && g != [] && l == AsLoaded(g)
    ensures SameGroups(loaded + [l], groups + [g])
  {
    forall i: nat | i < |groups| + 1 ensures SameAt(loaded + [l], groups + [g], i) {
      assert i < |groups| ==> SameAt(loaded, groups, i);
    }
  }

  lemma SameFront(loaded: seq<Loaded>, groups: seq<seq<Item>>)
    requires SameGroups(loaded, groups) && groups != []
    ensures SameGroups(Front(loaded), Front(groups)) && Last(groups) != [] && Last(loaded) == AsLoaded(Last(groups))
  {
    assert SameAt(loaded, groups, |groups| - 1);
    forall i: nat | i < |groups| - 1 ensures SameAt(Front(loaded), Front(groups), i) {
      assert SameAt(loaded, groups, i);
    }
  }

  lemma LoadedGrow(g: seq<Item>, item: Item)
    requires g != []
    ensures AsLoaded(g + [item]) == Loaded(g[0].workType, g[0].funcId, OffsetsOf(g) + [item.offset])
  {
    assert OffsetsOf(g + [item]) == OffsetsOf(g) + [item.offset];
  }

  /** A new batch starts a new group. */
  lemma AddNew(batches: seq<Batch>, groups: seq<seq<Item>>, item: Item)
    requires SameGroups(Fuse(batches), groups) && (batches != [] ==> !Last(batches).nextExtends)
    ensures SameGroups(Fuse(batches + [NewBatch(item)]), groups + [[item]])
  {
    var b := NewBatch(item);
    FuseNew(batches, b);
    FirstOffset(item);
    assert OffsetsOf([item]) == [item.offset];
    SameSnoc(Fuse(batches), groups, Loaded(b.workType, b.funcId, Offsets(b)), [item]);
  }

  /** The last fused batch gets one more offset. */
  lemma AddJoin(loaded: seq<Loaded>, groups: seq<seq<Item>>, item: Item, loaded': seq<Loaded>)
    requires SameGroups(loaded, groups) && groups != []
    requires Last(groups) != [] && Last(groups)[0].workType == item.workType && Last(groups)[0].funcId == item.funcId
    requires loaded' == Front(loaded) + [MoreLoaded(Last(loaded), item.offset)]
    ensures SameGroups(loaded', Front(groups) + [Last(groups) + [item]])
  {
    SameFront(loaded, groups);
    LoadedGrow(Last(groups), item);
    SameSnoc(Front(loaded), Front(groups), Last(loaded'), Last(groups) + [item]);
  }

  lemma AddExtend(batches: seq<Batch>, groups: seq<seq<Item>>, item: Item)
    requires SameGroups(Fuse(batches), groups) && batches != []
    requires groups != [] && Last(groups) != [] && Last(groups)[0].workType == item.workType
    requires Last(groups)[0].funcId == item.funcId
    ensures
      SameGroups(Fuse(SetLast(batches, Last(batches).(nextExtends := true))
                      + [NewBatch(item)]),
                 Front(groups) + [Last(groups) + [item]])
  {
    var b := NewBatch(item);
    FuseExtend(batches, b);
    FirstOffset(item);
    SameFront(Fuse(batches), groups);
    AddJoin(Fuse(batches), groups, item,
            Front(Fuse(batches)) + [Loaded(b.workType, b.funcId, Last(Fuse(batches)).offsets + Offsets(b))]);
  }

  lemma AddBit(batches: seq<Batch>, groups: seq<seq<Item>>, item: Item, b: Batch)
    requires SameGroups(Fuse(batches), groups) && batches != []
    requires groups != [] && Last(groups) != [] && Last(groups)[0].workType == item.workType
    requires Last(groups)[0].funcId == item.funcId
    requires b.workType == Last(batches).workType && b.funcId == Last(batches).funcId
    requires Offsets(b) == Offsets(Last(batches)) + [item.offset]
    ensures SameGroups(Fuse(SetLast(batches, b)), Front(groups) + [Last(groups) + [item]])
  {
    FuseBit(batches, b, item.offset);
    AddJoin(Fuse(batches), groups, item, Fuse(SetLast(batches, b)));
  }

  function CountType(groups: seq<seq<Item>>, t: WorkType): nat {
    if groups == [] then 0
    else CountType(Front(groups), t) + if Last(groups) != [] && Last(groups)[0].workType == t then 1 else 0
  }

  lemma CountSnoc(groups: seq<seq<Item>>, g: seq<Item>, t: WorkType)
    ensures CountType(groups + [g], t) == CountType(groups, t) + if g != [] && g[0].workType == t then 1 else 0
  {
    assert Front(groups + [g]) == groups;
  }

  lemma CountGrow(groups: seq<seq<Item>>, item: Item, t: WorkType)
    requires groups != [] && Last(groups) != []
    ensures CountType(Front(groups) + [Last(groups) + [item]], t) == CountType(groups, t)
  {
    CountSnoc(Front(groups), Last(groups) + [item], t);
  }

  lemma {:induction false} GreedyLast(lim: Limits, items: seq<Item>)
    requires items != []
    ensures Last(Greedy(lim, items)) != [] && Last(Last(Greedy(lim, items))) == Last(items)
    ensures Last(Greedy(lim, items))[0].workType == Last(items).workType
    ensures Last(Greedy(lim, items))[0].funcId == Last(items).funcId
  {
    GreedyRunnable(lim, items);
    var g := Greedy(lim, items[..|items| - 1]);
    assert Greedy(lim, items) == Join(lim, g, Last(items));
    assert Last(Greedy(lim, items))[|Last(Greedy(lim, items))| - 1] == Last(items);
  }

  /** The bit for an offset. */
  function BitOf(t: WorkType, offset: nat): (m: nat)
    ensures offset <= 63 * WorkSize(t) ==> m < 64
    ensures offset % WorkSize(t) == 0 ==> m * WorkSize(t) == offset
  {
    match t
    case P2p => offset / 48
    case Coll => offset / 96
    case CollReg => offset / 288
    case Bcast => offset / 48
  }

  lemma BitAbove(t: WorkType, offset: nat, top: nat)
    requires offset % WorkSize(t) == 0 && top * WorkSize(t) < offset
    ensures top < BitOf(t, offset)
  {
  }

  /** The groups after item joined the last one or started a new one. */
  ghost function Grown(groups: seq<seq<Item>>, item: Item, newBatch: bool): (g: seq<seq<Item>>)
    requires newBatch || groups != []
    ensures g != []
  {
    if newBatch then groups + [[item]] else Front(groups) + [Last(groups) + [item]]
  }

  /** What the builder can rely on when it adds item. */
  ghost predicate MayAdd(groups: seq<seq<Item>>, item: Item, newBatch: bool) {
    newBatch ||
    (&& groups != [] && Last(groups) != [] && Last(groups)[0].workType == item.workType
     && Last(groups)[0].funcId == item.funcId
     && Last(Last(groups)).workType == item.workType && Last(Last(groups)).funcId == item.funcId
     && Last(Last(groups)).offset < item.offset && (item.workType == P2p ==> |Last(groups)| < P2P_PER_BATCH))
  }

  /** The offset lies outside the last batch's set of offsets. */
  predicate NeedsExtension(batches: seq<Batch>, item: Item)
    requires batches != [] && Last(batches).offsetBase <= item.offset
  {
    var offset := item.offset - Last(batches).offsetBase;
    63 * WorkSize(item.workType) < offset || offset % WorkSize(item.workType) != 0
  }

  /** The batches after item was added. */
  function Added(batches: seq<Batch>, item: Item, newBatch: bool): (b: seq<Batch>)
    requires newBatch || (batches != [] && Last(batches).offsetBase <= item.offset)
    ensures b != []
  {
    if newBatch then batches + [NewBatch(item)]
    else
      var tail := Last(batches);
      if NeedsExtension(batches, item) then
        SetLast(batches, tail.(nextExtends := true)) + [NewBatch(item)]
      else
        SetLast(batches, tail.(bits := tail.bits[BitOf(item.workType, item.offset - tail.offsetBase) := true]))
  }

  lemma AddedOk(batches: seq<Batch>, wip: Wip, top: nat, groups: seq<seq<Item>>, item: Item, newBatch: bool)
    requires ChannelOk(batches, wip, top, groups) && MayAdd(groups, item, newBatch)
    ensures newBatch || (batches != [] && Last(batches).offsetBase <= item.offset)
    ensures SameGroups(Fuse(Added(batches, item, newBatch)), Grown(groups, item, newBatch))
  {
    if newBatch {
      AddNew(batches, groups, item);
    } else if NeedsExtension(batches, item) {
      AddExtend(batches, groups, item);
    } else {
      AddedBit(batches, wip, top, groups, item);
    }
  }

  lemma AddedBit(batches: seq<Batch>, wip: Wip, top: nat, groups: seq<seq<Item>>, item: Item)
    requires ChannelOk(batches, wip, top, groups) && MayAdd(groups, item, false) && batches != []
    requires Last(batches).offsetBase <= item.offset && !NeedsExtension(batches, item)
    ensures SameGroups(Fuse(Added(batches, item, false)), Front(groups) + [Last(groups) + [item]])
  {
    var b, offset := Last(batches), item.offset - Last(batches).offsetBase;
    var m := BitOf(item.workType, offset);
    BitAbove(item.workType, offset, top);
    MoreOffset(b, m);
    AddBit(batches, groups, item, b.(bits := b.bits[m := true]));
  }

  lemma AddedTail(batches: seq<Batch>, wip: Wip, top: nat, groups: seq<seq<Item>>, item: Item, newBatch: bool)
    requires ChannelOk(batches, wip, top, groups) && MayAdd(groups, item, newBatch)
    ensures newBatch || (batches != [] && Last(batches).offsetBase <= item.offset)
    ensures exists t: nat :: TailOk(Last(Added(batches, item, newBatch)), t, item)
  {
    if newBatch || NeedsExtension(batches, item) {
      NewTailOk(item);
      assert Last(Added(batches, item, newBatch)) == NewBatch(item);
    } else {
      var b := Last(batches);
      var m := BitOf(item.workType, item.offset - b.offsetBase);
      BitTailOk(b, top, Last(Last(groups)), item);
      assert Last(Added(batches, item, newBatch)) == b.(bits := b.bits[m := true]);
    }
  }

  lemma NewTailOk(item: Item)
    ensures TailOk(NewBatch(item), 0, item)
  {
  }

  lemma BitTailOk(b: Batch, top: nat, last: Item, item: Item)
    requires TailOk(b, top, last) && item.workType == last.workType && item.funcId == last.funcId
    requires last.offset < item.offset
    requires b.offsetBase <= item.offset && !NeedsExtension([b], item)
    ensures
      var m := BitOf(item.workType, item.offset - b.offsetBase);
      TailOk(b.(bits := b.bits[m := true]), m, item)
  {
    BitAbove(item.workType, item.offset - b.offsetBase, top);
  }

  function NextWip(wip: Wip, item: Item, newBatch: bool): (w: Wip)
    requires |wip.p2pRounds| == P2P_PER_BATCH
    ensures |w.p2pRounds| == P2P_PER_BATCH
  {
    var w := if newBatch then wip.(workBytes := 0, nP2ps := 0, nBcasts := 0) else wip;
    var w1 := w.(workBytes := w.workBytes + WorkSize(item.workType));
    var w2 := if item.workType == P2p && w1.nP2ps < P2P_PER_BATCH then
                w1.(p2pEpoch := item.epoch, p2pRounds := w1.p2pRounds[w1.nP2ps := item.round], nP2ps := w1.nP2ps + 1)
              else w1;
    if item.workType == Bcast then w2.(nBcasts := w2.nBcasts + 1) else w2
  }

  lemma NextWipOk(wip: Wip, groups: seq<seq<Item>>, item: Item, newBatch: bool)
    requires |wip.p2pRounds| == P2P_PER_BATCH && wip.nP2ps <= P2P_PER_BATCH && MayAdd(groups, item, newBatch)
    requires groups != [] ==> Last(groups) != [] && WipOk(wip, Last(groups))
    ensures newBatch || groups != []
    ensures Last(Grown(groups, item, newBatch)) != []
    ensures WipOk(NextWip(wip, item, newBatch), Last(Grown(groups, item, newBatch)))
    ensures NextWip(wip, item, newBatch).nP2ps <= P2P_PER_BATCH
    ensures item.workType == P2p && !newBatch ==> wip.nP2ps < P2P_PER_BATCH
  {
    if !newBatch {
      var g := Last(groups);
      var h := g + [item];
      assert Last(Grown(groups, item, newBatch)) == h && h[|g|] == item && h[0] == g[0];
      assert |h| * WorkSize(h[0].workType) == |g| * WorkSize(g[0].workType) + WorkSize(g[0].workType);
      assert forall i :: 0 <= i < |g| ==> h[i] == g[i];
    }
  }

  /** Adding one item keeps what the builder relies on. */
  lemma AddKeeps(batches: seq<Batch>, wip: Wip, top: nat, groups: seq<seq<Item>>, item: Item, newBatch: bool)
    returns (top': nat)
    requires ChannelOk(batches, wip, top, groups) && MayAdd(groups, item, newBatch)
    ensures newBatch || (batches != [] && Last(batches).offsetBase <= item.offset)
    ensures ChannelOk(Added(batches, item, newBatch), NextWip(wip, item, newBatch), top', Grown(groups, item, newBatch))
  {
    AddedOk(batches, wip, top, groups, item, newBatch);
    AddedTail(batches, wip, top, groups, item, newBatch);
    NextWipOk(wip, groups, item, newBatch);
    top' :| TailOk(Last(Added(batches, item, newBatch)), top', item);
    assert Last(Last(Grown(groups, item, newBatch))) == item;
  }

  lemma CountGrown(groups: seq<seq<Item>>, item: Item, newBatch: bool, t: WorkType)
    requires MayAdd(groups, item, newBatch)
    ensures newBatch || groups != []
    ensures CountType(Grown(groups, item, newBatch), t)
         == CountType(groups, t) + if newBatch && item.workType == t then 1 else 0
  {
    if newBatch {
      CountSnoc(groups, [item], t);
    } else {
      CountGrow(groups, item, t);
    }
  }

  ghost predicate PackedOk(batches: seq<Batch>, wip: Wip, top: nat, groups: seq<seq<Item>>, nP2p: nat, nBcast: nat) {
    && ChannelOk(batches, wip, top, groups) && nP2p == CountType(groups, P2p) && nBcast == CountType(groups, Bcast)
    && NoJumps(batches)
  }

  /** Batches are linked to each other only when the plan is finished. */
  ghost predicate NoJumps(batches: seq<Batch>) {
    forall b :: b in batches ==> b.nextJump == 0
  }

  lemma AddedNoJumps(batches: seq<Batch>, item: Item, newBatch: bool)
    requires NoJumps(batches) && (newBatch || (batches != [] && Last(batches).offsetBase <= item.offset))
    ensures NoJumps(Added(batches, item, newBatch))
  {
    assert batches != [] ==> Last(batches) in batches;
    var added := Added(batches, item, newBatch);
    forall i | 0 <= i < |added| ensures added[i].nextJump == 0 {
      assert i < |batches| ==> batches[i] in batches;
    }
  }

  lemma AddStep(batches: seq<Batch>, wip: Wip, top: nat, groups: seq<seq<Item>>, nP2p: nat, nBcast: nat, item: Item,
                newBatch: bool)
    returns (top': nat)
    requires PackedOk(batches, wip, top, groups, nP2p, nBcast) && MayAdd(groups, item, newBatch)
    ensures newBatch || (groups != [] && batches != [] && Last(batches).offsetBase <= item.offset)
    ensures |wip.p2pRounds| == P2P_PER_BATCH && (item.workType == P2p && !newBatch ==> wip.nP2ps < P2P_PER_BATCH)
    ensures PackedOk(Added(batches, item, newBatch), NextWip(wip, item, newBatch), top', Grown(groups, item, newBatch),
                     nP2p + (if newBatch && item.workType == P2p then 1 else 0),
                     nBcast + (if newBatch && item.workType == Bcast then 1 else 0))
  {
    top' := AddKeeps(batches, wip, top, groups, item, newBatch);
    CountGrown(groups, item, newBatch, P2p);
    CountGrown(groups, item, newBatch, Bcast);
    NextWipOk(wip, groups, item, newBatch);
    AddedNoJumps(batches, item, newBatch);
  }

  /** A new batch is started exactly when there is none yet or the current one cannot take the item. */
  ghost predicate StartsNew(lim: Limits, groups: seq<seq<Item>>, item: Item) {
    groups == [] || Last(groups) == [] || !Fits(lim, Last(groups), item)
  }

  class Channel {
    const lim: Limits
    var batches: seq<Batch>
    var wip: Wip
    var nWorkBatchesP2p: nat
    var nWorkBatchesBcast: nat
    ghost var items: seq<Item>
    ghost var groups: seq<seq<Item>>
    ghost var top: nat

    /** The batches decode to groups. */
    ghost predicate Packed()
      reads this
    {
      PackedOk(batches, wip, top, groups, nWorkBatchesP2p, nWorkBatchesBcast)
    }

    ghost predicate Valid()
      reads this
    {
      Packed() && groups == Greedy(lim, items)
    }

    constructor (lim: Limits)
      ensures Valid() && items == [] && this.lim == lim
    {
      this.lim := lim;
      batches, wip, items, groups, top := [], Wip(0, 0, seq(P2P_PER_BATCH, _ => 0), 0, 0), [], [], 0;
      nWorkBatchesP2p, nWorkBatchesBcast := 0, 0;
    }

    /** Adds one piece of work behind all earlier ones: it joins the current fused batch exactly when the device can
        still run that batch with it, whether or not the caller asked for a new one. */
    method Append(item: Item)
      requires Valid() && (items != [] ==> Last(items).offset < item.offset)
      modifies this
      ensures Valid() && items == old(items) + [item]
      ensures groups == Grown(old(groups), item, StartsNew(lim, old(groups), item))
    {
      var newBatch := IsNewBatch(item);
      Add(item, newBatch);
      items := items + [item];
    }

    method IsNewBatch(item: Item) returns (newBatch: bool)
      requires Valid() && (items != [] ==> Last(items).offset < item.offset)
      ensures MayAdd(groups, item, newBatch) && (newBatch <==> StartsNew(lim, groups, item))
      ensures Greedy(lim, items + [item]) == Grown(groups, item, newBatch)
    {
      GreedySnoc(lim, items, item);
      newBatch := item.newBatch;
      newBatch := batches == [];
      if !newBatch {
        assert items != [];
        ghost var g := Last(groups);
        GreedyRunnable(lim, items);
        GreedyLast(lim, items);
        FitsMeansRunnable(lim, g, item);
        newBatch := Blocked(lim, batches[|batches| - 1], wip, item, g);
      }
    }

    method Add(item: Item, newBatch: bool)
      requires Packed() && MayAdd(groups, item, newBatch) && (newBatch || groups != [])
      modifies this`batches, this`wip, this`top, this`groups, this`nWorkBatchesP2p, this`nWorkBatchesBcast
      ensures Packed() && groups == Grown(old(groups), item, newBatch)
    {
      ghost var top' := AddStep(batches, wip, top, groups, nWorkBatchesP2p, nWorkBatchesBcast, item, newBatch);
      top, groups := top', Grown(groups, item, newBatch);
      Place(item, newBatch);
    }

    /** Puts the item's offset into the last batch, or into a new one that extends it or stands on its own. */
    method Place(item: Item, newBatch: bool)
      requires newBatch || (batches != [] && Last(batches).offsetBase <= item.offset)
      requires |wip.p2pRounds| == P2P_PER_BATCH && (item.workType == P2p && !newBatch ==> wip.nP2ps < P2P_PER_BATCH)
      modifies this`batches, this`wip, this`nWorkBatchesP2p, this`nWorkBatchesBcast
      ensures batches == Added(old(batches), item, newBatch) && wip == NextWip(old(wip), item, newBatch)
      ensures nWorkBatchesP2p == old(nWorkBatchesP2p) + if newBatch && item.workType == P2p then 1 else 0
      ensures nWorkBatchesBcast == old(nWorkBatchesBcast) + if newBatch && item.workType == Bcast then 1 else 0
    {
      var size := WorkSize(item.workType);
      var offset := if newBatch then 0 else item.offset - batches[|batches| - 1].offsetBase;
      var extendBatch := 63 * size < offset || offset % size != 0;
      if newBatch || extendBatch {
        if !newBatch {
          batches := SetLast(batches, Last(batches).(nextExtends := extendBatch));
        }
        batches := batches + [Batch(0, false, item.workType, item.funcId, item.offset, Zeros())];
        offset := 0;
        if newBatch {
          wip := wip.(workBytes := 0, nP2ps := 0, nBcasts := 0);
          nWorkBatchesP2p := nWorkBatchesP2p + if item.workType == P2p then 1 else 0;
          nWorkBatchesBcast := nWorkBatchesBcast + if item.workType == Bcast then 1 else 0;
        }
      }
      batches := SetLast(batches, Last(batches).(bits := Last(batches).bits[BitOf(item.workType, offset) := true]));
      Count(item);
    }

    method Count(item: Item)
      requires |wip.p2pRounds| == P2P_PER_BATCH && (item.workType == P2p ==> wip.nP2ps < P2P_PER_BATCH)
      modifies this`wip
      ensures wip == NextWip(old(wip), item, false)
    {
      wip := wip.(workBytes := wip.workBytes + WorkSize(item.workType));
      if item.workType == P2p {
        wip := wip.(p2pEpoch := item.epoch, p2pRounds := wip.p2pRounds[wip.nP2ps := item.round],
                    nP2ps := wip.nP2ps + 1);
      }
      if item.workType == Bcast {
        wip := wip.(nBcasts := wip.nBcasts + 1);
      }
    }
  }

  /** An input for which the request is ignored: the second broadcast asks for a new batch and joins the first. */
  method RequestIgnored() returns (batches: seq<Batch>)
    ensures |Fuse(batches)| == 1
  {
    var channel := new Channel(Limits(900, true));
    channel.Append(Item(Bcast, 0, 0, -1, 0, false));
    channel.Append(Item(Bcast, 0, 48, -1, 0, true));
    batches := channel.batches;
  }

  // ---------------------------------------------------------------- the round trip on one channel

  lemma SeenConcat(a: seq<Item>, b: seq<Item>)
    ensures Seen(a + b) == Seen(a) + Seen(b)
  {
  }

  lemma {:induction false} WorksOfGroups(lim: Limits, loaded: seq<Loaded>, groups: seq<seq<Item>>)
    requires SameGroups(loaded, groups) && forall i :: 0 <= i < |groups| ==> Runnable(lim, groups[i])
    ensures AllWorks(loaded) == Seen(Flatten(groups))
  {
    if groups != [] {
      var g := Last(groups);
      SameFront(loaded, groups);
      WorksOfGroups(lim, Front(loaded), Front(groups));
      assert Runnable(lim, g);
      WorksOfGroup(lim, g);
      SeenConcat(Flatten(Front(groups)), g);
    }
  }

  lemma WorksOfGroup(lim: Limits, g: seq<Item>)
    requires Runnable(lim, g)
    ensures Works(AsLoaded(g)) == Seen(g)
  {
  }

  /** Decoding the batches of a channel gives back exactly what was appended, in order, in groups the device can run. */
  lemma RoundTrip(lim: Limits, batches: seq<Batch>, items: seq<Item>)
    requires SameGroups(Fuse(batches), Greedy(lim, items))
    ensures AllWorks(Fuse(batches)) == Seen(items)
    ensures forall i :: 0 <= i < |Fuse(batches)| ==> exists g :: Runnable(lim, g) && Fuse(batches)[i] == AsLoaded(g)
  {
    GreedyRunnable(lim, items);
    GreedyFlattens(lim, items);
    WorksOfGroups(lim, Fuse(batches), Greedy(lim, items));
    forall i | 0 <= i < |Fuse(batches)| ensures exists g :: Runnable(lim, g) && Fuse(batches)[i] == AsLoaded(g) {
      assert SameAt(Fuse(batches), Greedy(lim, items), i);
      assert Runnable(lim, Greedy(lim, items)[i]);
    }
  }
}
