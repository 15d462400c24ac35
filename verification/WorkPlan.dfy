/** Finishing a plan interleaves the channels' batches and links each to its channel's next one; the device walks the
    links from the channel's position among the plan's channels. */
module WorkPlan {
  import opened WorkBatch

  const MAXCHANNELS := 64

  /** What the 14-bit field nextJump keeps of a distance. */
  function JumpField(d: nat): nat {
    d % 0x4000
  }

  // ---------------------------------------------------------------- the laid-out batches

  function JumpAt(pos: seq<nat>, k: nat): int {
    if k + 1 < |pos| then (pos[k + 1] as int) - pos[k] else 0
  }

  /** The k-th batch of a channel stands at pos[k] and points at the next one. */
  ghost predicate PosAt(all: seq<Batch>, bs: seq<Batch>, pos: seq<nat>, k: nat) {
    && k < |pos| <= |bs| && pos[k] < |all| && JumpAt(pos, k) >= 0
    && all[pos[k]] == bs[k].(nextJump := JumpAt(pos, k))
  }

  ghost predicate Ascending(pos: seq<nat>) {
    forall i, j :: 0 <= i < j < |pos| ==> pos[i] < pos[j]
  }

  ghost predicate LaidOut(all: seq<Batch>, bs: seq<Batch>, pos: seq<nat>) {
    && |pos| <= |bs| && Ascending(pos)
    && forall k: nat {:trigger PosAt(all, bs, pos, k)} :: k < |pos| ==> PosAt(all, bs, pos, k)
  }

  // ---------------------------------------------------------------- the device

  /** Equal up to nextJump. */
  predicate Alike(a: Batch, b: Batch) {
    a.nextExtends == b.nextExtends && a.workType == b.workType && a.funcId == b.funcId && a.offsetBase == b.offsetBase
    && a.bits == b.bits
  }

  lemma GroupStarts(bs: seq<Batch>, k: nat, b: Batch)
    requires k < |bs| && Alike(b, bs[k]) && (k > 0 ==> !bs[k - 1].nextExtends)
    ensures Fuse(bs[..k + 1]) == Fuse(bs[..k]) + [Loaded(b.workType, b.funcId, Offsets(b))]
  {
    var c := bs[..k + 1];
    assert c[..|c| - 1] == bs[..k];
  }

  lemma GroupGoesOn(bs: seq<Batch>, k: nat, b: Batch, done: seq<Loaded>, loaded: Loaded)
    requires k + 1 < |bs| && Alike(b, bs[k + 1]) && bs[k].nextExtends
    requires Fuse(bs[..k + 1]) == done + [loaded]
    ensures Fuse(bs[..k + 2]) == done + [Loaded(b.workType, b.funcId, loaded.offsets + Offsets(b))]
  {
    var c, f := bs[..k + 2], done + [loaded];
    assert c[..|c| - 1] == bs[..k + 1];
    assert f[..|f| - 1] == done && f[|f| - 1] == loaded;
  }

  /** Where the list goes on behind its m-th batch. */
  function NextAt(pos: seq<nat>, m: nat): int {
    if m + 1 < |pos| then pos[m + 1] else -1
  }

  lemma LinkFacts(all: seq<Batch>, bs: seq<Batch>, pos: seq<nat>, m: nat)
    requires LaidOut(all, bs, pos) && |pos| == |bs| && m < |bs|
    ensures pos[m] < |all|
    ensures
      var b := all[pos[m]];
      && Alike(b, bs[m])
      && (if b.nextJump == 0 then -1 else pos[m] + b.nextJump) == NextAt(pos, m)
  {
    assert PosAt(all, bs, pos, m);
  }

  /** The device is at the m-th batch of its list; loaded holds the fused batch as far as it was unpacked. */
  ghost predicate At(bs: seq<Batch>, pos: seq<nat>, m: nat, batchIx: int, batch: Batch, done: seq<Loaded>,
                     loaded: Loaded)
  {
    && m < |bs| == |pos| && batchIx == pos[m] && Alike(batch, bs[m])
    && (if batch.nextJump == 0 then -1 else batchIx + batch.nextJump) == NextAt(pos, m)
    && Fuse(bs[..m + 1]) == done + [loaded]
  }

  /** Goes on to the next batch of the fused batch. */
  method Extend(all: seq<Batch>, batchIx: nat, batch: Batch, loaded: Loaded, ghost bs: seq<Batch>, ghost pos: seq<nat>,
                ghost m: nat, ghost done: seq<Loaded>) returns (batchIx': nat, batch': Batch, loaded': Loaded)
    requires LaidOut(all, bs, pos) && At(bs, pos, m, batchIx, batch, done, loaded) && batch.nextExtends
    requires !Last(bs).nextExtends
    ensures m + 1 < |bs| && At(bs, pos, m + 1, batchIx', batch', done, loaded')
  {
    assert m + 1 < |bs|;
    batchIx' := batchIx + batch.nextJump;
    LinkFacts(all, bs, pos, m + 1);
    batch' := all[batchIx'];
    GroupGoesOn(bs, m, batch', done, loaded);
    loaded' := Loaded(batch'.workType, batch'.funcId, loaded.offsets + Offsets(batch'));
  }

  /** Unpacks the fused batch that starts at index ix and tells where the next one starts, -1 for nowhere. */
  method LoadWorkBatch(all: seq<Batch>, ix: nat, ghost bs: seq<Batch>, ghost pos: seq<nat>, ghost k: nat)
    returns (loaded: Loaded, nextIx: int, ghost m: nat)
    requires LaidOut(all, bs, pos) && |pos| == |bs| && k < |bs| && ix == pos[k]
    requires (k > 0 ==> !bs[k - 1].nextExtends) && !Last(bs).nextExtends
    ensures k <= m < |bs| && !bs[m].nextExtends && Fuse(bs[..m + 1]) == Fuse(bs[..k]) + [loaded]
    ensures nextIx == NextAt(pos, m)
  {
    LinkFacts(all, bs, pos, k);
    m := k;
    var batchIx := ix;
    var batch := all[batchIx];
    loaded := Loaded(batch.workType, batch.funcId, Offsets(batch));
    ghost var done := Fuse(bs[..k]);
    GroupStarts(bs, k, batch);
    while batch.nextExtends
      invariant k <= m && At(bs, pos, m, batchIx, batch, done, loaded)
      decreases |bs| - m
    {
      batchIx, batch, loaded := Extend(all, batchIx, batch, loaded, bs, pos, m, done);
      m := m + 1;
    }
    nextIx := if batch.nextJump == 0 then -1 else batchIx + batch.nextJump;
  }

  /** The kernel of one channel: it starts at its index among the plan's channels and runs until its list ends. */
  method KernelMain(all: seq<Batch>, blockIdx: nat, ghost bs: seq<Batch>, ghost pos: seq<nat>)
    returns (executed: seq<Loaded>)
    requires LaidOut(all, bs, pos) && |pos| == |bs| > 0 && blockIdx == pos[0] && !Last(bs).nextExtends
    ensures executed == Fuse(bs)
  {
    ghost var m: nat;
    var loaded, nextIx;
    loaded, nextIx, m := LoadWorkBatch(all, blockIdx, bs, pos, 0);
    executed := [loaded];
    assert Fuse(bs[..0]) == [];
    while nextIx != -1
      invariant 0 <= m < |bs| && !bs[m].nextExtends && executed == Fuse(bs[..m + 1])
      invariant nextIx == NextAt(pos, m)
      decreases |bs| - m
    {
      loaded, nextIx, m := LoadWorkBatch(all, nextIx, bs, pos, m + 1);
      executed := executed + [loaded];
    }
    assert bs[..m + 1] == bs;
  }

  // ---------------------------------------------------------------- laying the batches out

  function LastPos(pos: seq<nat>): int {
    if pos == [] then -1 else Last(pos)
  }

  /** Channel c: its placed batches, its waiting ones, and the place of the latest; owner tells whose a place is. */
  ghost predicate ChanOk(all: seq<Batch>, owner: seq<nat>, bs: seq<Batch>, waiting: seq<Batch>, pos: seq<nat>,
                         prev: int, c: nat)
  {
    && LaidOut(all, bs, pos) && |owner| == |all| && |pos| + |waiting| == |bs| && waiting == bs[|pos|..]
    && prev == LastPos(pos) && NoJumps(bs)
    && forall k: nat {:trigger Owns(owner, pos, k, c)} :: k < |pos| ==> Owns(owner, pos, k, c)
  }

  ghost predicate Owns(owner: seq<nat>, pos: seq<nat>, k: nat, c: nat) {
    k < |pos| && pos[k] < |owner| && owner[pos[k]] == c
  }

  /** The head of c's queue is placed behind all others and linked from c's previous batch. */
  function Placed(all: seq<Batch>, prev: int, head: Batch): seq<Batch>
    requires prev < |all|
  {
    (if prev < 0 then all else all[prev := all[prev].(nextJump := JumpField(|all| - prev))]) + [head]
  }

  lemma PlaceOwn(all: seq<Batch>, owner: seq<nat>, bs: seq<Batch>, waiting: seq<Batch>, pos: seq<nat>, prev: int,
                 c: nat)
    requires ChanOk(all, owner, bs, waiting, pos, prev, c) && waiting != [] && (prev >= 0 ==> |all| - prev < 0x4000)
    ensures prev < |all|
    ensures ChanOk(Placed(all, prev, waiting[0]), owner + [c], bs, waiting[1..], pos + [|all|], |all|, c)
  {
    PrevFacts(all, owner, bs, waiting, pos, prev, c);
    var all', pos' := Placed(all, prev, waiting[0]), pos + [|all|];
    assert waiting[0] == bs[|pos|] && waiting[0] in bs;
    forall k: nat | k < |pos'| ensures PosAt(all', bs, pos', k) && Owns(owner + [c], pos', k, c) {
      if k < |pos| {
        assert PosAt(all, bs, pos, k) && Owns(owner, pos, k, c);
        assert k < |pos| - 1 ==> pos[k] < pos[|pos| - 1];
      }
    }
    forall i, j | 0 <= i < j < |pos'| ensures pos'[i] < pos'[j] {
      assert PosAt(all, bs, pos, i);
    }
  }

  lemma PrevFacts(all: seq<Batch>, owner: seq<nat>, bs: seq<Batch>, waiting: seq<Batch>, pos: seq<nat>, prev: int,
                  c: nat)
    requires ChanOk(all, owner, bs, waiting, pos, prev, c)
    ensures prev < |all| && (pos == [] <==> prev < 0)
    ensures pos != [] ==> prev == pos[|pos| - 1] && owner[prev] == c
  {
    if pos != [] {
      assert PosAt(all, bs, pos, |pos| - 1) && Owns(owner, pos, |pos| - 1, c);
    }
  }

  lemma PlaceOther(all: seq<Batch>, owner: seq<nat>, prev: int, head: Batch, c: nat, bs: seq<Batch>,
                   waiting: seq<Batch>, pos: seq<nat>, prevD: int, d: nat)
    requires ChanOk(all, owner, bs, waiting, pos, prevD, d) && d != c && prev < |all|
    requires prev >= 0 ==> owner[prev] == c
    ensures ChanOk(Placed(all, prev, head), owner + [c], bs, waiting, pos, prevD, d)
  {
    var all' := Placed(all, prev, head);
    forall k: nat | k < |pos| ensures PosAt(all', bs, pos, k) && Owns(owner + [c], pos, k, d) {
      assert PosAt(all, bs, pos, k) && Owns(owner, pos, k, d);
    }
  }

  /** Number of one bits of mask below n: the device's block index of channel n. */
  function Rank(mask: Word, n: nat): nat
    requires n <= 64
  {
    if n == 0 then 0 else Rank(mask, n - 1) + if mask[n - 1] then 1 else 0
  }

  lemma {:induction false} RankSkip(mask: Word, a: nat, b: nat)
    requires a <= b <= 64 && forall i :: a <= i < b ==> !mask[i]
    ensures Rank(mask, a) == Rank(mask, b)
  {
    if a < b {
      RankSkip(mask, a, b - 1);
    }
  }

  /** What is left to do: waiting batches and channels not yet crossed off. */
  function Left(queues: seq<seq<Batch>>, has: Word, n: nat): nat
    requires n <= 64 == |queues|
  {
    if n == 0 then 0 else Left(queues, has, n - 1) + |queues[n - 1]| + if has[n - 1] then 1 else 0
  }

  lemma {:induction false} LeftDrops(queues: seq<seq<Batch>>, has: Word, queues': seq<seq<Batch>>, has': Word, c: nat,
                                     n: nat)
    requires c < 64 == |queues| == |queues'| && n <= 64
    requires forall d :: 0 <= d < 64 && d != c ==> queues'[d] == queues[d] && has'[d] == has[d]
    requires |queues'[c]| + (if has'[c] then 1 else 0) < |queues[c]| + if has[c] then 1 else 0
    ensures Left(queues', has', n) <= Left(queues, has, n) && (c < n ==> Left(queues', has', n) < Left(queues, has, n))
  {
    if n != 0 {
      LeftDrops(queues, has, queues', has', c, n - 1);
    }
  }

  predicate IsZero(w: Word) {
    forall i :: 0 <= i < 64 ==> !w[i]
  }

  /** Clears the lowest one bit and tells which it was. */
  method PopFirstOneBit(w: Word) returns (c: nat, w': Word)
    requires !IsZero(w)
    ensures c < 64 && w[c] && (forall i :: 0 <= i < c ==> !w[i]) && w' == w[c := false]
  {
    c := 0;
    while !w[c]
      invariant c < 64 && forall i :: 0 <= i < c ==> !w[i]
      decreases 64 - c
    {
      if c == 63 {
        assert IsZero(w);
      }
      c := c + 1;
    }
    w' := w[c := false];
  }

  /** The planner's state: queues of waiting batches, the places of each channel's batches, and their owners. */
  datatype Layout = Layout(all: seq<Batch>, queues: seq<seq<Batch>>, prev: seq<int>, owner: seq<nat>,
                           pos: seq<seq<nat>>)

  ghost predicate LayoutOk(q0: seq<seq<Batch>>, l: Layout) {
    && |q0| == |l.queues| == |l.prev| == |l.pos| == 64
    && forall c: nat {:trigger ChanAt(q0, l, c)} :: c < 64 ==> ChanAt(q0, l, c)
  }

  ghost predicate ChanAt(q0: seq<seq<Batch>>, l: Layout, c: nat) {
    && c < |q0| && c < |l.queues| && c < |l.prev| && c < |l.pos|
    && ChanOk(l.all, l.owner, q0[c], l.queues[c], l.pos[c], l.prev[c], c)
  }

  /** After channel c's head was placed. */
  ghost function AfterPlace(l: Layout, c: nat): Layout
    requires c < |l.queues| && c < |l.prev| && c < |l.pos| && l.queues[c] != [] && l.prev[c] < |l.all|
  {
    Layout(Placed(l.all, l.prev[c], l.queues[c][0]), l.queues[c := l.queues[c][1..]], l.prev[c := |l.all|],
           l.owner + [c], l.pos[c := l.pos[c] + [|l.all|]])
  }

  lemma PlaceKeeps(q0: seq<seq<Batch>>, l: Layout, c: nat)
    requires LayoutOk(q0, l) && c < 64 && l.queues[c] != [] && (l.prev[c] >= 0 ==> |l.all| - l.prev[c] < 0x4000)
    ensures -1 <= l.prev[c] < |l.all| && LayoutOk(q0, AfterPlace(l, c))
  {
    assert ChanAt(q0, l, c);
    PlaceOwn(l.all, l.owner, q0[c], l.queues[c], l.pos[c], l.prev[c], c);
    PrevFacts(l.all, l.owner, q0[c], l.queues[c], l.pos[c], l.prev[c], c);
    forall d: nat | d < 64 ensures ChanAt(q0, AfterPlace(l, c), d) {
      assert ChanAt(q0, l, d);
      if d != c {
        PlaceOther(l.all, l.owner, l.prev[c], l.queues[c][0], c, q0[d], l.queues[d], l.pos[d], l.prev[d], d);
      }
    }
  }

  /** Progress of one round over the channels: channels below lo have been visited, those in tmp are still to come.
      A channel to come was last placed in the previous round, a visited one in this round. */
  ghost predicate RoundOk(l: Layout, has: Word, tmp: Word, lo: nat, start: nat, before: nat) {
    && |l.pos| == |l.queues| == 64 && lo <= 64 && before <= start <= |l.all| && start - before <= 64
    && |l.all| - start <= lo
    && (forall c: nat {:trigger Recent(l, has, tmp, c, start, before)} :: c < 64 ==>
          Recent(l, has, tmp, c, start, before))
    && forall c :: 0 <= c < lo ==> !tmp[c]
  }

  ghost predicate Recent(l: Layout, has: Word, tmp: Word, c: nat, start: nat, before: nat) {
    c < 64 && c < |l.pos| &&
    if tmp[c] then has[c] && (l.pos[c] != [] ==> LastPos(l.pos[c]) >= before)
    else has[c] ==> l.pos[c] != [] && LastPos(l.pos[c]) >= start
  }

  /** In the first round the channels are placed in ascending order, so each starts at its rank. */
  ghost predicate FirstOk(mask: Word, l: Layout, tmp: Word, lo: nat, first: bool) {
    && |l.pos| == 64 && lo <= 64
    && (first ==> |l.all| == Rank(mask, lo) && (forall c :: lo <= c < 64 ==> tmp[c] == mask[c]))
    && forall c: nat {:trigger Rank(mask, c)} :: c < 64 && mask[c] ==>
         if first && c >= lo then l.pos[c] == [] else l.pos[c] != [] && l.pos[c][0] == Rank(mask, c)
  }

  /** Crossed-off channels have nothing waiting. */
  ghost predicate MaskOk(mask: Word, l: Layout, has: Word) {
    && |l.queues| == 64
    && forall c :: 0 <= c < 64 ==> (has[c] ==> mask[c]) && (mask[c] && !has[c] ==> l.queues[c] == [])
  }

  lemma JumpSmall(q0: seq<seq<Batch>>, l: Layout, has: Word, tmp: Word, lo: nat, start: nat, before: nat, c: nat)
    requires LayoutOk(q0, l) && RoundOk(l, has, tmp, lo, start, before) && c < 64 && tmp[c]
    ensures lo <= c && -1 <= l.prev[c] < |l.all| && (l.prev[c] != -1 ==> |l.all| - l.prev[c] <= 128)
    ensures l.prev[c] == -1 <==> l.pos[c] == []
  {
    assert Recent(l, has, tmp, c, start, before);
    assert ChanAt(q0, l, c);
    PrevFacts(l.all, l.owner, q0[c], l.queues[c], l.pos[c], l.prev[c], c);
  }

  /** Visiting c, the lowest channel to come: its head, if any, is placed, and it is crossed off when nothing is
      left. */
  ghost function AfterVisit(l: Layout, c: nat): Layout
    requires c < |l.queues| && c < |l.prev| && c < |l.pos| && l.prev[c] < |l.all|
  {
    if l.queues[c] == [] then l else AfterPlace(l, c)
  }

  function HasAfter(queues: seq<seq<Batch>>, has: Word, c: nat): Word
    requires c < 64 == |queues|
  {
    if |queues[c]| <= 1 then has[c := false] else has
  }

  lemma VisitRound(q0: seq<seq<Batch>>, l: Layout, has: Word, tmp: Word, lo: nat, start: nat, before: nat, c: nat)
    requires LayoutOk(q0, l) && RoundOk(l, has, tmp, lo, start, before) && c < 64 && tmp[c]
    requires forall i :: 0 <= i < c ==> !tmp[i]
    ensures l.prev[c] < |l.all|
    ensures RoundOk(AfterVisit(l, c), HasAfter(l.queues, has, c), tmp[c := false], c + 1, start, before)
  {
    JumpSmall(q0, l, has, tmp, lo, start, before, c);
    var l', has', tmp' := AfterVisit(l, c), HasAfter(l.queues, has, c), tmp[c := false];
    forall d: nat | d < 64 ensures Recent(l', has', tmp', d, start, before) {
      assert Recent(l, has, tmp, d, start, before);
    }
  }

  lemma VisitFirst(q0: seq<seq<Batch>>, mask: Word, l: Layout, tmp: Word, lo: nat, first: bool, c: nat)
    requires LayoutOk(q0, l) && FirstOk(mask, l, tmp, lo, first) && lo <= c < 64 && tmp[c] && l.prev[c] < |l.all|
    requires (forall i :: 0 <= i < c ==> !tmp[i]) && forall d :: 0 <= d < 64 && mask[d] ==> q0[d] != []
    ensures FirstOk(mask, AfterVisit(l, c), tmp[c := false], c + 1, first)
  {
    assert ChanAt(q0, l, c);
    var l', tmp' := AfterVisit(l, c), tmp[c := false];
    if first {
      assert mask[c] && Rank(mask, c) >= 0;
      RankSkip(mask, lo, c);
    }
    forall d: nat | d < 64 && mask[d]
      ensures if first && d >= c + 1 then l'.pos[d] == [] else l'.pos[d] != [] && l'.pos[d][0] == Rank(mask, d)
    {
      var r := Rank(mask, d);
    }
  }

  lemma VisitMask(q0: seq<seq<Batch>>, mask: Word, l: Layout, has: Word, c: nat)
    requires LayoutOk(q0, l) && MaskOk(mask, l, has) && c < 64 && has[c] && l.prev[c] < |l.all|
    ensures MaskOk(mask, AfterVisit(l, c), HasAfter(l.queues, has, c))
    ensures Left(AfterVisit(l, c).queues, HasAfter(l.queues, has, c), 64) < Left(l.queues, has, 64)
  {
    assert ChanAt(q0, l, c);
    LeftDrops(l.queues, has, AfterVisit(l, c).queues, HasAfter(l.queues, has, c), c, 64);
  }

  lemma VisitSteps(q0: seq<seq<Batch>>, mask: Word, l: Layout, has: Word, tmp: Word, lo: nat, start: nat, before: nat,
                   first: bool, c: nat)
    requires LayoutOk(q0, l) && RoundOk(l, has, tmp, lo, start, before) && FirstOk(mask, l, tmp, lo, first)
    requires MaskOk(mask, l, has)
    requires c < 64 && tmp[c] && (forall i :: 0 <= i < c ==> !tmp[i])
    requires forall d :: 0 <= d < 64 && mask[d] ==> q0[d] != []
    ensures lo <= c && l.prev[c] < |l.all|
    ensures
      var l', has', tmp' := AfterVisit(l, c), HasAfter(l.queues, has, c), tmp[c := false];
      && RoundOk(l', has', tmp', c + 1, start, before) && FirstOk(mask, l', tmp', c + 1, first)
      && MaskOk(mask, l', has')
      && Left(l'.queues, has', 64) < Left(l.queues, has, 64)
  {
    JumpSmall(q0, l, has, tmp, lo, start, before, c);
    assert Recent(l, has, tmp, c, start, before);
    VisitRound(q0, l, has, tmp, lo, start, before, c);
    VisitFirst(q0, mask, l, tmp, lo, first, c);
    VisitMask(q0, mask, l, has, c);
  }

  lemma NextRound(mask: Word, l: Layout, has: Word, tmp: Word, lo: nat, start: nat, before: nat, first: bool)
    requires RoundOk(l, has, tmp, lo, start, before) && FirstOk(mask, l, tmp, lo, first) && IsZero(tmp)
    ensures RoundOk(l, has, has, 0, |l.all|, start) && FirstOk(mask, l, has, 0, false)
  {
    forall d: nat | d < 64 ensures Recent(l, has, has, d, |l.all|, start) {
      assert Recent(l, has, tmp, d, start, before);
    }
    forall d: nat | d < 64 && mask[d] ensures l.pos[d] != [] && l.pos[d][0] == Rank(mask, d) {
      var r := Rank(mask, d);
    }
  }

  lemma StartOk(mask: Word, q0: seq<seq<Batch>>)
    requires |q0| == 64 && forall c :: 0 <= c < 64 ==> NoJumps(q0[c])
    ensures
      var l := Layout([], q0, seq(64, _ => -1), [], seq(64, _ => []));
      LayoutOk(q0, l) && RoundOk(l, mask, mask, 0, 0, 0) && FirstOk(mask, l, mask, 0, true) && MaskOk(mask, l, mask)
  {
    var l := Layout([], q0, seq(64, _ => -1), [], seq(64, _ => []));
    forall c: nat | c < 64 ensures ChanAt(q0, l, c) && Recent(l, mask, mask, c, 0, 0) {
    }
  }

  /** Every channel of the plan starts at its rank and all its batches are linked in order. */
  ghost predicate Finished(mask: Word, q0: seq<seq<Batch>>, all: seq<Batch>, pos: seq<seq<nat>>) {
    |q0| == |pos| == 64 && forall c: nat {:trigger Rank(mask, c)} :: c < 64 && mask[c] ==>
      LaidOut(all, q0[c], pos[c]) && |pos[c]| == |q0[c]| > 0 && pos[c][0] == Rank(mask, c)
  }

  lemma FinishedOk(mask: Word, q0: seq<seq<Batch>>, l: Layout, has: Word, tmp: Word)
    requires LayoutOk(q0, l) && FirstOk(mask, l, tmp, 0, false) && MaskOk(mask, l, has) && IsZero(has)
    ensures Finished(mask, q0, l.all, l.pos)
  {
    forall c: nat | c < 64 && mask[c]
      ensures LaidOut(l.all, q0[c], l.pos[c]) && |l.pos[c]| == |q0[c]| > 0 && l.pos[c][0] == Rank(mask, c)
    {
      var r := Rank(mask, c);
      assert ChanAt(q0, l, c);
    }
  }

  /** Puts the channels' batches one after another, round by round over the channels that still have some. */
  class Finisher {
    var queues: seq<seq<Batch>>
    var batchPrev: seq<int>
    var batchZero: seq<Batch>
    var hasBatchMask: Word
    ghost var owner: seq<nat>
    ghost var pos: seq<seq<nat>>

    ghost function L(): Layout
      reads this
    {
      Layout(batchZero, queues, batchPrev, owner, pos)
    }

    constructor (queues: seq<seq<Batch>>, channelMask: Word)
      ensures L() == Layout([], queues, seq(64, _ => -1), [], seq(64, _ => [])) && hasBatchMask == channelMask
    {
      this.queues, batchPrev, batchZero, hasBatchMask := queues, seq(64, _ => -1), [], channelMask;
      owner, pos := [], seq(64, _ => []);
    }

    method Visit(c: nat, ghost q0: seq<seq<Batch>>)
      requires LayoutOk(q0, L()) && c < 64 && -1 <= batchPrev[c] < |batchZero|
      requires batchPrev[c] != -1 ==> |batchZero| - batchPrev[c] <= 128
      modifies this
      ensures L() == AfterVisit(old(L()), c) && LayoutOk(q0, L())
      ensures hasBatchMask == HasAfter(old(queues), old(hasBatchMask), c)
    {
      if queues[c] != [] {
        ghost var l := L();
        PlaceHead(c);
        PlaceKeeps(q0, l, c);
      }
      if queues[c] == [] {
        hasBatchMask := hasBatchMask[c := false];
      }
    }

    method PlaceHead(c: nat)
      requires c < |queues| == |batchPrev| == |pos| && queues[c] != [] && -1 <= batchPrev[c] < |batchZero|
      modifies this`queues, this`batchPrev, this`batchZero, this`owner, this`pos
      ensures L() == AfterPlace(old(L()), c)
    {
      ghost var l := L();
      var batch, batchIx := queues[c][0], |batchZero|;
      queues := queues[c := queues[c][1..]];
      if batchPrev[c] != -1 {
        batchZero := batchZero[batchPrev[c] := batchZero[batchPrev[c]].(nextJump := JumpField(batchIx - batchPrev[c]))];
      }
      batchPrev := batchPrev[c := batchIx];
      batchZero := batchZero + [batch];
      owner, pos := owner + [c], pos[c := pos[c] + [batchIx]];
    }

    /** One round: every channel that had batches at its start is visited once, in ascending order. */
    method Round(channelMask: Word, ghost q0: seq<seq<Batch>>, ghost start: nat, ghost before: nat, ghost first: bool)
      requires LayoutOk(q0, L()) && !IsZero(hasBatchMask) && MaskOk(channelMask, L(), hasBatchMask)
      requires RoundOk(L(), hasBatchMask, hasBatchMask, 0, start, before)
      requires FirstOk(channelMask, L(), hasBatchMask, 0, first)
      requires forall d :: 0 <= d < 64 && channelMask[d] ==> q0[d] != []
      modifies this
      ensures LayoutOk(q0, L()) && MaskOk(channelMask, L(), hasBatchMask)
      ensures RoundOk(L(), hasBatchMask, hasBatchMask, 0, |batchZero|, start)
      ensures FirstOk(channelMask, L(), hasBatchMask, 0, false)
      ensures Left(queues, hasBatchMask, 64) < old(Left(queues, hasBatchMask, 64))
    {
      var tmpMask := hasBatchMask;
      ghost var lo: nat, left := 0, Left(queues, hasBatchMask, 64);
      while !IsZero(tmpMask)
        invariant LayoutOk(q0, L()) && MaskOk(channelMask, L(), hasBatchMask)
        invariant RoundOk(L(), hasBatchMask, tmpMask, lo, start, before)
        invariant FirstOk(channelMask, L(), tmpMask, lo, first)
        invariant Left(queues, hasBatchMask, 64) <= left && (lo > 0 ==> Left(queues, hasBatchMask, 64) < left)
        invariant lo == 0 ==> !IsZero(tmpMask)
        decreases 64 - lo
      {
        var c, rest := PopFirstOneBit(tmpMask);
        ghost var l, has := L(), hasBatchMask;
        JumpSmall(q0, l, has, tmpMask, lo, start, before, c);
        VisitSteps(q0, channelMask, l, has, tmpMask, lo, start, before, first, c);
        Visit(c, q0);
        tmpMask, lo := rest, c + 1;
      }
      NextRound(channelMask, L(), hasBatchMask, tmpMask, lo, start, before, first);
    }

    method Finish(channelMask: Word, ghost q0: seq<seq<Batch>>)
      requires L() == Layout([], q0, seq(64, _ => -1), [], seq(64, _ => [])) && hasBatchMask == channelMask
      requires |q0| == 64 && forall c :: 0 <= c < 64 ==> NoJumps(q0[c]) && (channelMask[c] ==> q0[c] != [])
      modifies this
      ensures Finished(channelMask, q0, batchZero, pos)
    {
      StartOk(channelMask, q0);
      ghost var start: nat, before: nat, first := 0, 0, true;
      while !IsZero(hasBatchMask)
        invariant LayoutOk(q0, L()) && MaskOk(channelMask, L(), hasBatchMask)
        invariant RoundOk(L(), hasBatchMask, hasBatchMask, 0, start, before)
        invariant FirstOk(channelMask, L(), hasBatchMask, 0, first)
        decreases Left(queues, hasBatchMask, 64)
      {
        Round(channelMask, q0, start, before, first);
        start, before, first := |batchZero|, start, false;
      }
      NextRound(channelMask, L(), hasBatchMask, hasBatchMask, 0, start, before, first);
      FinishedOk(channelMask, q0, L(), hasBatchMask, hasBatchMask);
    }
  }

  // ---------------------------------------------------------------- from appended work to executed work

  ghost predicate Increasing(items: seq<Item>) {
    forall i, j :: 0 <= i < j < |items| ==> items[i].offset < items[j].offset
  }

  /** Exactly the appended work, in order, in pieces the device can run. */
  ghost predicate Faithful(lim: Limits, executed: seq<Loaded>, items: seq<Item>) {
    && AllWorks(executed) == Seen(items)
    && forall i :: 0 <= i < |executed| ==> exists g :: Runnable(lim, g) && executed[i] == AsLoaded(g)
  }

  ghost predicate Built(lim: Limits, batches: seq<Batch>, items: seq<Item>) {
    && SameGroups(Fuse(batches), Greedy(lim, items)) && NoJumps(batches)
    && (items == [] <==> batches == []) && (batches != [] ==> !Last(batches).nextExtends)
  }

  method BuildChannel(lim: Limits, items: seq<Item>) returns (batches: seq<Batch>)
    requires Increasing(items)
    ensures Built(lim, batches, items)
  {
    var channel := new Channel(lim);
    for i := 0 to |items|
      invariant channel.Valid() && channel.lim == lim && channel.items == items[..i] && fresh(channel)
    {
      NextItem(items, i);
      channel.Append(items[i]);
    }
    assert items[..|items|] == items;
    batches := channel.batches;
  }

  lemma NextItem(items: seq<Item>, i: nat)
    requires Increasing(items) && i < |items|
    ensures items[..i] + [items[i]] == items[..i + 1] && (i > 0 ==> Last(items[..i]).offset < items[i].offset)
  {
  }

  ghost predicate AllBuilt(lim: Limits, queues: seq<seq<Batch>>, work: seq<seq<Item>>, n: nat) {
    |queues| == |work| >= n && forall c: nat {:trigger Built(lim, queues[c], work[c])} :: c < n ==>
      Built(lim, queues[c], work[c])
  }

  ghost predicate AllFaithful(lim: Limits, executed: seq<seq<Loaded>>, work: seq<seq<Item>>) {
    |executed| <= |work| &&
    forall c: nat {:trigger Faithful(lim, executed[c], work[c])} :: c < |executed| ==>
      Faithful(lim, executed[c], work[c])
  }

  /** The kernel of one channel, if it has one. */
  method RunChannel(lim: Limits, all: seq<Batch>, channelMask: Word, c: nat, ghost q0: seq<seq<Batch>>,
                    ghost pos: seq<seq<nat>>, ghost items: seq<Item>) returns (run: seq<Loaded>)
    requires Finished(channelMask, q0, all, pos) && c < 64 && Built(lim, q0[c], items)
    requires channelMask[c] <==> items != []
    ensures Faithful(lim, run, items)
  {
    RoundTrip(lim, q0[c], items);
    run := [];
    if channelMask[c] {
      run := KernelMain(all, Rank(channelMask, c), q0[c], pos[c]);
    }
  }

  /** Packs every channel's work, finishes the plan, and runs the kernel of every channel of the plan: each executes
      exactly its own work in the order it was appended. */
  method RunPlan(lim: Limits, work: seq<seq<Item>>) returns (executed: seq<seq<Loaded>>)
    requires |work| == MAXCHANNELS && forall c :: 0 <= c < MAXCHANNELS ==> Increasing(work[c])
    ensures |executed| == MAXCHANNELS && AllFaithful(lim, executed, work)
  {
    var queues, channelMask := BuildAll(lim, work);
    forall c: nat | c < 64 ensures NoJumps(queues[c]) && (channelMask[c] ==> queues[c] != []) {
      assert Built(lim, queues[c], work[c]);
    }
    var finisher := new Finisher(queues, channelMask);
    finisher.Finish(channelMask, queues);
    executed := RunKernels(lim, finisher.batchZero, channelMask, queues, finisher.pos, work);
  }

  method RunKernels(lim: Limits, all: seq<Batch>, channelMask: Word, ghost queues: seq<seq<Batch>>,
                    ghost pos: seq<seq<nat>>, ghost work: seq<seq<Item>>) returns (executed: seq<seq<Loaded>>)
    requires Finished(channelMask, queues, all, pos) && AllBuilt(lim, queues, work, MAXCHANNELS)
    requires forall c :: 0 <= c < MAXCHANNELS ==> (channelMask[c] <==> work[c] != [])
    ensures |executed| == MAXCHANNELS && AllFaithful(lim, executed, work)
  {
    executed := [];
    for c := 0 to MAXCHANNELS
      invariant |executed| == c && AllFaithful(lim, executed, work)
    {
      assert Built(lim, queues[c], work[c]);
      var run := RunChannel(lim, all, channelMask, c, queues, pos, work[c]);
      ghost var was := executed;
      executed := executed + [run];
      forall d: nat | d < |executed| ensures Faithful(lim, executed[d], work[d]) {
        assert d < c ==> Faithful(lim, was[d], work[d]);
      }
    }
  }

  method BuildAll(lim: Limits, work: seq<seq<Item>>) returns (queues: seq<seq<Batch>>, channelMask: Word)
    requires |work| == MAXCHANNELS && forall c :: 0 <= c < MAXCHANNELS ==> Increasing(work[c])
    ensures AllBuilt(lim, queues, work, MAXCHANNELS)
    ensures forall c :: 0 <= c < MAXCHANNELS ==> (channelMask[c] <==> work[c] != [])
  {
    queues, channelMask := seq(64, _ => []), Zeros();
    for c := 0 to MAXCHANNELS
      invariant AllBuilt(lim, queues, work, c)
      invariant forall d :: 0 <= d < c ==> (channelMask[d] <==> work[d] != [])
    {
      var batches := BuildChannel(lim, work[c]);
      ghost var was := queues;
      queues := queues[c := batches];
      if work[c] != [] {
        channelMask := channelMask[c := true];
      } else {
        channelMask := channelMask[c := false];
      }
      forall d: nat | d < c + 1 ensures Built(lim, queues[d], work[d]) {
        assert d < c ==> Built(lim, was[d], work[d]);
      }
    }
  }
}
