/** Ring AllReduce on one channel (runRing): N ranks, a bounded FIFO link from each rank to the next, and the chunk
    schedule that each rank derives from its ring index. */
module RingAllReduce {
  import opened Arith

  /** What all ranks share: ring size, this channel's part of the buffer, the chunk size, the number of elements in 16
      bytes, the input buffers (by rank and element), and the reduction with the operations applied before and after
      it. */
  datatype Ring<!T> = Ring(
    n: nat, gridOffset: nat, channelCount: nat, chunkCount: nat, perPack: nat,
    input: (nat, int) -> T, red: (T, T) -> T, pre: T -> T, post: T -> T)

  ghost predicate ValidRing<T(!new)>(ring: Ring<T>) {
    ring.n >= 2 && ring.chunkCount > 0 && ring.perPack > 0
  }

  function Prev(n: nat, r: nat): (p: nat)
    requires r < n
    ensures p < n
  {
    if r == 0 then n - 1 else r - 1
  }

  function Next(n: nat, r: nat): (p: nat)
    requires r < n
    ensures p < n && Prev(n, p) == r
  {
    if r == n - 1 then 0 else r + 1
  }

  function ModRanks(n: nat, r: nat): nat {
    if r >= n then r - n else r
  }

  // ---------------------------------------------------------------- loop iterations and chunks

  function LoopCount<T>(ring: Ring<T>): nat {
    ring.n * ring.chunkCount
  }

  /** Element offset at which loop iteration L starts. */
  function LoopOffset<T>(ring: Ring<T>, L: nat): nat {
    if L == 0 then 0 else LoopOffset(ring, L - 1) + LoopCount(ring)
  }

  /** Chunk size in the iteration that starts with rem elements left: the tail is divided anew. */
  function ChunkCountFor<T>(ring: Ring<T>, rem: int): (c: int)
    requires ring.n > 0 && ring.perPack > 0
  {
    if rem < LoopCount(ring) then AlignUp(DivUp(rem, ring.n), ring.perPack) else ring.chunkCount
  }

  function Rem<T>(ring: Ring<T>, L: nat): int {
    ring.channelCount - LoopOffset(ring, L)
  }

  function ChunkSize<T>(ring: Ring<T>, L: nat): int
    requires ring.n > 0 && ring.perPack > 0
  {
    ChunkCountFor(ring, Rem(ring, L))
  }

  function ChunkStart<T>(ring: Ring<T>, L: nat, c: nat): int
    requires ring.n > 0 && ring.perPack > 0
  {
    LoopOffset(ring, L) + c * ChunkSize(ring, L)
  }

  function ChunkElems<T>(ring: Ring<T>, L: nat, c: nat): int
    requires ring.n > 0 && ring.perPack > 0
  {
    Min(ChunkSize(ring, L), Rem(ring, L) - c * ChunkSize(ring, L))
  }

  /** Iteration L of the element loop is executed. */
  predicate HasLoop<T>(ring: Ring<T>, L: nat) {
    LoopOffset(ring, L) < ring.channelCount
  }

  /** Element e of the channel belongs to chunk c of iteration L; an empty or negative chunk has no elements. */
  ghost predicate InChunk<T>(ring: Ring<T>, L: nat, c: nat, e: int)
    requires ring.n > 0 && ring.perPack > 0
  {
    HasLoop(ring, L) && c < ring.n && ChunkStart(ring, L, c) <= e < ChunkStart(ring, L, c) + ChunkElems(ring, L, c)
  }

  lemma ChunkSizeCovers<T(!new)>(ring: Ring<T>, L: nat)
    requires ValidRing(ring) && HasLoop(ring, L)
    ensures 0 < ChunkSize(ring, L)
    ensures Min(Rem(ring, L), LoopCount(ring)) <= ring.n * ChunkSize(ring, L)
    ensures Rem(ring, L) >= LoopCount(ring) ==> ChunkSize(ring, L) == ring.chunkCount
  {
    var rem := Rem(ring, L);
    DivUpBounds(rem, ring.n);
    AlignUpProps(DivUp(rem, ring.n), ring.perPack);
    MulMono(DivUp(rem, ring.n), AlignUp(DivUp(rem, ring.n), ring.perPack), ring.n);
    if DivUp(rem, ring.n) <= 0 {
      MulMono(DivUp(rem, ring.n), 0, ring.n);
    }
  }

  /** An iteration has full chunks as long as n of them are left. The tail is divided into chunks of the least whole
      number of packs with which n chunks hold it. */
  lemma ChunkSizeMeaning<T(!new)>(ring: Ring<T>, L: nat, m: int)
    requires ValidRing(ring) && HasLoop(ring, L)
    ensures Rem(ring, L) >= LoopCount(ring) ==> ChunkSize(ring, L) == ring.chunkCount
    ensures Rem(ring, L) < LoopCount(ring) ==>
              && ChunkSize(ring, L) % ring.perPack == 0 && ring.n * ChunkSize(ring, L) >= Rem(ring, L)
              && (m % ring.perPack == 0 && ring.n * m >= Rem(ring, L) ==> ChunkSize(ring, L) <= m)
  {
    var rem := Rem(ring, L);
    ChunkSizeCovers(ring, L);
    AlignUpProps(DivUp(rem, ring.n), ring.perPack);
    if rem < LoopCount(ring) && m % ring.perPack == 0 && ring.n * m >= rem {
      DivUpBounds(rem, ring.n);
      if m < DivUp(rem, ring.n) {
        Gap(m, DivUp(rem, ring.n), ring.n);
      }
      AlignUpLeast(DivUp(rem, ring.n), ring.perPack, m);
    }
  }

  lemma LoopCountPositive<T(!new)>(ring: Ring<T>)
    requires ValidRing(ring)
    ensures LoopCount(ring) >= 2
  {
    MulMono(1, ring.chunkCount, ring.n);
  }

  lemma {:induction false} LoopOffsetsAscend<T(!new)>(ring: Ring<T>, L: nat, M: nat)
    requires ValidRing(ring) && L < M
    ensures LoopOffset(ring, L) + LoopCount(ring) <= LoopOffset(ring, M)
  {
    LoopCountPositive(ring);
    if L + 1 < M {
      LoopOffsetsAscend(ring, L, M - 1);
    }
  }

  /** The loop iteration and chunk of an element. */
  lemma {:induction false} LocateElement<T(!new)>(ring: Ring<T>, e: nat, L: nat) returns (M: nat, c: nat)
    requires ValidRing(ring) && e < ring.channelCount && LoopOffset(ring, L) <= e
    ensures InChunk(ring, M, c, e)
    decreases ring.channelCount - LoopOffset(ring, L)
  {
    LoopCountPositive(ring);
    if e < LoopOffset(ring, L) + LoopCount(ring) {
      M := L;
      c := LocateInLoop(ring, e, L);
    } else {
      assert LoopOffset(ring, L + 1) == LoopOffset(ring, L) + LoopCount(ring);
      M, c := LocateElement(ring, e, L + 1);
    }
  }

  lemma LocateInLoop<T(!new)>(ring: Ring<T>, e: nat, L: nat) returns (c: nat)
    requires ValidRing(ring) && e < ring.channelCount
    requires LoopOffset(ring, L) <= e < LoopOffset(ring, L) + LoopCount(ring)
    ensures InChunk(ring, L, c, e)
  {
    ChunkSizeCovers(ring, L);
    c := BlockOf(e - LoopOffset(ring, L), ring.n, ChunkSize(ring, L), Rem(ring, L), LoopCount(ring));
  }

  lemma BlockOf(k: int, n: int, size: int, rem: int, count: int) returns (c: nat)
    requires 0 <= k < rem && k < count && 0 < size && Min(rem, count) <= n * size
    ensures c < n && c * size <= k < c * size + Min(size, rem - c * size)
  {
    c := k / size;
    assert k == c * size + k % size;
    MulMono(n, c, size);
  }

  /** No element lies in two chunks, and none outside the channel. */
  lemma ChunksDisjoint<T(!new)>(ring: Ring<T>, L: nat, c: nat, M: nat, d: nat, e: int)
    requires ValidRing(ring) && InChunk(ring, L, c, e) && InChunk(ring, M, d, e)
    ensures L == M && c == d && 0 <= e < ring.channelCount
  {
    InsideLoop(ring, L, c, e);
    InsideLoop(ring, M, d, e);
    if L < M {
      LoopOffsetsAscend(ring, L, M);
    } else if M < L {
      LoopOffsetsAscend(ring, M, L);
    } else {
      var size := ChunkSize(ring, L);
      Gap(c, d, size);
      Gap(d, c, size);
    }
  }

  lemma InsideLoop<T(!new)>(ring: Ring<T>, L: nat, c: nat, e: int)
    requires ValidRing(ring) && InChunk(ring, L, c, e)
    ensures LoopOffset(ring, L) <= e < LoopOffset(ring, L) + LoopCount(ring)
    ensures e < ring.channelCount
  {
    ChunkSizeCovers(ring, L);
    InsideBlocks(c, ring.n, ChunkSize(ring, L), Rem(ring, L), e - LoopOffset(ring, L));
  }

  lemma InsideBlocks(c: int, n: int, size: int, rem: int, k: int)
    requires 0 <= c < n && 0 < size && c * size <= k < c * size + Min(size, rem - c * size)
    ensures 0 <= k < n * size && k < rem
  {
    MulMono(c + 1, n, size);
  }

  // ---------------------------------------------------------------- the program of one rank

  datatype Kind = Send | RecvReduceSend | RecvReduceCopySend | RecvCopySend | Recv

  predicate Receives(k: Kind) {
    k != Send
  }

  predicate Sends(k: Kind) {
    k != Recv
  }

  predicate Writes(k: Kind) {
    k == RecvReduceCopySend || k == RecvCopySend || k == Recv
  }

  /** One call of a primitive on nelem elements at offset; a non-positive nelem is an empty chunk. */
  datatype Call = Call(kind: Kind, offset: int, nelem: int)

  /** Loop iteration and step (0 .. 2n-2) of the i-th call. Every rank makes the same steps in the same order. */
  datatype Place = Place(loop: nat, step: nat)

  function Where(n: nat, i: nat): (p: Place)
    requires n >= 2
    ensures p.step <= 2 * n - 2
  {
    if i == 0 then Place(0, 0)
    else
      var p := Where(n, i - 1);
      if p.step == 2 * n - 2 then Place(p.loop + 1, 0) else Place(p.loop, p.step + 1)
  }

  function KindAt(n: nat, step: nat): Kind {
    if step == 0 then Send
    else if step < n - 1 then RecvReduceSend
    else if step == n - 1 then RecvReduceCopySend
    else if step < 2 * n - 2 then RecvCopySend
    else Recv
  }

  /** Chunk handled by rank r at a step. */
  function ChunkAt(n: nat, r: nat, step: nat): (c: nat)
    requires n >= 2 && r < n && step <= 2 * n - 2
    ensures c < n
  {
    if step <= n - 1 then ModRanks(n, r + n - 1 - step) else ModRanks(n, r + 2 * n - 1 - step)
  }

  function CallOn<T>(ring: Ring<T>, L: nat, c: nat, kind: Kind): Call
    requires ring.n > 0 && ring.perPack > 0
  {
    Call(kind, ring.gridOffset + ChunkStart(ring, L, c), ChunkElems(ring, L, c))
  }

  function CallAt<T>(ring: Ring<T>, r: nat, p: Place): Call
    requires ring.n >= 2 && ring.perPack > 0 && r < ring.n && p.step <= 2 * ring.n - 2
  {
    CallOn(ring, p.loop, ChunkAt(ring.n, r, p.step), KindAt(ring.n, p.step))
  }

  /** The first k calls of rank r. */
  function Program<T>(ring: Ring<T>, r: nat, k: nat): (s: seq<Call>)
    requires ring.n >= 2 && ring.perPack > 0 && r < ring.n
    ensures |s| == k
  {
    if k == 0 then [] else Program(ring, r, k - 1) + [CallAt(ring, r, Where(ring.n, k - 1))]
  }

  lemma {:induction false} ProgramAt<T(!new)>(ring: Ring<T>, r: nat, k: nat, i: nat)
    requires ring.n >= 2 && ring.perPack > 0 && r < ring.n && i < k
    ensures Program(ring, r, k)[i] == CallAt(ring, r, Where(ring.n, i))
  {
    if i < k - 1 {
      ProgramAt(ring, r, k - 1, i);
    }
  }

  /** The ring loop of a rank, in the order in which it calls the primitives (runRing). */
  method RunRing<T(!new)>(ring: Ring<T>, ringIx: nat) returns (calls: seq<Call>)
    requires ValidRing(ring) && ringIx < ring.n
    ensures calls == Program(ring, ringIx, |calls|)
    ensures !HasLoop(ring, Where(ring.n, |calls|).loop) && Where(ring.n, |calls|).step == 0
    ensures forall i :: 0 <= i < |calls| ==> HasLoop(ring, Where(ring.n, i).loop)
  {
    var nranks := ring.n;
    var chunkCount := ring.chunkCount;
    var loopCount := nranks * chunkCount;
    LoopCountPositive(ring);
    var elemOffset := 0;
    ghost var L: nat := 0;
    calls := [];
    while elemOffset < ring.channelCount
      invariant elemOffset == LoopOffset(ring, L) && loopCount == LoopCount(ring)
      invariant chunkCount == ring.chunkCount || !HasLoop(ring, L)
      invariant calls == Program(ring, ringIx, |calls|) && Where(nranks, |calls|) == Place(L, 0)
      invariant forall i :: 0 <= i < |calls| ==> HasLoop(ring, Where(nranks, i).loop)
      decreases ring.channelCount - elemOffset
    {
      var remCount := ring.channelCount - elemOffset;
      if remCount < loopCount {
        chunkCount := AlignUp(DivUp(remCount, nranks), ring.perPack);
      }
      calls := RunIteration(ring, ringIx, L, elemOffset, remCount, chunkCount, calls);
      elemOffset := elemOffset + loopCount;
      L := L + 1;
    }
  }

  /** State of a rank's call list inside iteration L: the next step to issue is step. */
  ghost predicate Issued<T>(ring: Ring<T>, r: nat, L: nat, step: nat, calls: seq<Call>)
    requires ring.n >= 2 && ring.perPack > 0 && r < ring.n
  {
    && calls == Program(ring, r, |calls|) && Where(ring.n, |calls|) == Place(L, step)
    && forall i :: 0 <= i < |calls| ==> HasLoop(ring, Where(ring.n, i).loop)
  }

  /** One iteration of the ring loop: send, reduce and send on, reduce and store, copy and send on, receive. */
  method RunIteration<T(!new)>(ring: Ring<T>, ringIx: nat, ghost L: nat, elemOffset: nat, remCount: int,
                               chunkCount: int, before: seq<Call>) returns (calls: seq<Call>)
    requires ValidRing(ring) && ringIx < ring.n && LoopVars(ring, L, elemOffset, remCount, chunkCount)
    requires Issued(ring, ringIx, L, 0, before)
    ensures Issued(ring, ringIx, L + 1, 0, calls)
  {
    var n := ring.n;
    // Send: chunk ringIx - 1 starts its way around the ring.
    calls := Issue(ring, ringIx, L, 0, ModRanks(n, ringIx + n - 1), Send, elemOffset, remCount, chunkCount, before);
    // RecvReduceSend, steps 1 .. n-2: partial results of the chunks further back.
    var j := 2;
    while j < n
      invariant 2 <= j <= n && Issued(ring, ringIx, L, j - 1, calls)
    {
      ReduceSteps(n, ringIx, j);
      calls := Issue(ring, ringIx, L, j - 1, ModRanks(n, ringIx + n - j), RecvReduceSend,
                     elemOffset, remCount, chunkCount, calls);
      j := j + 1;
    }
    // RecvReduceCopySend, step n-1: the own chunk is complete.
    calls := Issue(ring, ringIx, L, n - 1, ringIx, RecvReduceCopySend, elemOffset, remCount, chunkCount, calls);
    // RecvCopySend, steps n .. 2n-3: complete chunks are stored and passed on.
    j := 1;
    while j < n - 1
      invariant 1 <= j <= n - 1 && Issued(ring, ringIx, L, n - 1 + j, calls)
    {
      CopySteps(n, ringIx, j);
      calls := Issue(ring, ringIx, L, n - 1 + j, ModRanks(n, ringIx + n - j), RecvCopySend,
                     elemOffset, remCount, chunkCount, calls);
      j := j + 1;
    }
    // Recv, step 2n-2: the last complete chunk stays here.
    calls := Issue(ring, ringIx, L, 2 * n - 2, ModRanks(n, ringIx + 1), Recv, elemOffset, remCount, chunkCount, calls);
  }

  lemma ReduceSteps(n: nat, r: nat, j: nat)
    requires 2 <= j < n && r < n
    ensures KindAt(n, j - 1) == RecvReduceSend && ChunkAt(n, r, j - 1) == ModRanks(n, r + n - j)
  {
  }

  lemma CopySteps(n: nat, r: nat, j: nat)
    requires 1 <= j < n - 1 && r < n
    ensures KindAt(n, n - 1 + j) == RecvCopySend && ChunkAt(n, r, n - 1 + j) == ModRanks(n, r + n - j)
  {
  }

  /** The variables of the loop in its iteration L. */
  ghost predicate LoopVars<T>(ring: Ring<T>, L: nat, elemOffset: nat, remCount: int, chunkCount: int)
    requires ring.n > 0 && ring.perPack > 0
  {
    && HasLoop(ring, L) && elemOffset == LoopOffset(ring, L) && remCount == Rem(ring, L)
    && chunkCount == ChunkSize(ring, L)
  }

  method Issue<T(!new)>(ring: Ring<T>, ringIx: nat, ghost L: nat, ghost step: nat, chunk: nat, kind: Kind,
                        elemOffset: nat, remCount: int, chunkCount: int, before: seq<Call>) returns (calls: seq<Call>)
    requires ValidRing(ring) && ringIx < ring.n && step <= 2 * ring.n - 2
    requires LoopVars(ring, L, elemOffset, remCount, chunkCount)
    requires Issued(ring, ringIx, L, step, before)
    requires kind == KindAt(ring.n, step) && chunk == ChunkAt(ring.n, ringIx, step)
    ensures Issued(ring, ringIx, if step == 2 * ring.n - 2 then L + 1 else L,
                   if step == 2 * ring.n - 2 then 0 else step + 1, calls)
  {
    var chunkOffset := chunk * chunkCount;
    var offset := ring.gridOffset + elemOffset + chunkOffset;
    var nelem := Min(chunkCount, remCount - chunkOffset);
    calls := before + [Call(kind, offset, nelem)];
    assert calls[..|before|] == before;
  }

  // ---------------------------------------------------------------- values

  /** Value that rank r passes on (or stores) for element e at a step: its own input reduced with what its
      predecessor passed on in the previous step, and from step n on just a copy of that. */
  function Value<T>(ring: Ring<T>, r: nat, step: nat, e: int): T
    requires r < ring.n
    decreases step
  {
    if step == 0 then ring.pre(ring.input(r, e))
    else
      var got := Value(ring, Prev(ring.n, r), step - 1, e);
      if step < ring.n - 1 then ring.red(ring.pre(ring.input(r, e)), got)
      else if step == ring.n - 1 then ring.post(ring.red(ring.pre(ring.input(r, e)), got))
      else got
  }

  function Values<T>(ring: Ring<T>, r: nat, step: nat, offset: int, len: int): (s: seq<T>)
    requires r < ring.n
    ensures |s| == Max(0, len)
    ensures forall k :: 0 <= k < |s| ==> s[k] == Value(ring, r, step, offset + k)
  {
    seq(Max(0, len), k => Value(ring, r, step, offset + k))
  }

  /** The message of rank r at a place of the program. */
  function Data<T>(ring: Ring<T>, r: nat, p: Place): seq<T>
    requires ring.n >= 2 && ring.perPack > 0 && r < ring.n && p.step <= 2 * ring.n - 2
  {
    var c := CallAt(ring, r, p);
    Values(ring, r, p.step, c.offset, c.nelem)
  }

  /** What a primitive computes from the own input and the received message. */
  function Payload<T>(ring: Ring<T>, r: nat, c: Call, msg: seq<T>): (s: seq<T>)
    requires Receives(c.kind) ==> |msg| == Max(0, c.nelem)
    ensures |s| == Max(0, c.nelem)
  {
    match c.kind
    case Send => seq(Max(0, c.nelem), k => ring.pre(ring.input(r, c.offset + k)))
    case RecvReduceSend =>
      seq(Max(0, c.nelem), k requires 0 <= k < |msg| => ring.red(ring.pre(ring.input(r, c.offset + k)), msg[k]))
    case RecvReduceCopySend =>
      seq(Max(0, c.nelem), k requires 0 <= k < |msg| =>
        ring.post(ring.red(ring.pre(ring.input(r, c.offset + k)), msg[k])))
    case RecvCopySend => msg
    case Recv => msg
  }

  /** A rank starts with the chunk before its own and goes back by one in every step, around the ring; the one chunk it
      reduces to the end is its own. */
  lemma OwnChunk(n: nat, r: nat, step: nat)
    requires n >= 2 && r < n && step <= 2 * n - 2
    ensures ChunkAt(n, r, 0) == Prev(n, r)
    ensures step > 0 ==> ChunkAt(n, r, step) == Prev(n, ChunkAt(n, r, step - 1))
    ensures KindAt(n, step) == RecvReduceCopySend ==> ChunkAt(n, r, step) == r
  {
  }

  /** Sender and receiver of a message mean the same chunk. */
  lemma SameChunk(n: nat, r: nat, step: nat)
    requires n >= 2 && r < n && 1 <= step <= 2 * n - 2
    ensures ChunkAt(n, Prev(n, r), step - 1) == ChunkAt(n, r, step)
  {
  }

  lemma PayloadIsData<T(!new)>(ring: Ring<T>, r: nat, p: Place)
    requires ValidRing(ring) && r < ring.n && p.step <= 2 * ring.n - 2
    ensures p.step == 0 ==> Payload(ring, r, CallAt(ring, r, p), []) == Data(ring, r, p)
    ensures p.step > 0 ==>
              var msg := Data(ring, Prev(ring.n, r), Place(p.loop, p.step - 1));
              |msg| == Max(0, CallAt(ring, r, p).nelem) && Payload(ring, r, CallAt(ring, r, p), msg) == Data(ring, r, p)
  {
    if p.step > 0 {
      SameChunk(ring.n, r, p.step);
    }
  }

  /** From its final reduction on, every rank handles a chunk with the value formed at the rank of the same number. */
  lemma {:induction false} CopiedUnchanged<T(!new)>(ring: Ring<T>, r: nat, step: nat, e: int)
    requires ValidRing(ring) && r < ring.n && ring.n - 1 <= step <= 2 * ring.n - 2
    ensures Value(ring, r, step, e) == Value(ring, ChunkAt(ring.n, r, step), ring.n - 1, e)
    decreases step
  {
    if step >= ring.n {
      CopiedUnchanged(ring, Prev(ring.n, r), step - 1, e);
      SameChunk(ring.n, r, step);
    }
  }

  // ---------------------------------------------------------------- the ranks and links running together

  /** link[r] holds the messages on their way from r to its successor. */
  datatype State<T> = State(pc: seq<nat>, link: seq<seq<seq<T>>>, out: seq<seq<T>>)

  /** A link buffers two chunks: NCCL_STEPS over ALLREDUCE_CHUNKSTEPS. */
  const LINK_CHUNKS := 2

  ghost predicate Shaped<T>(ring: Ring<T>, s: State<T>) {
    && |s.pc| == ring.n && |s.link| == ring.n && |s.out| == ring.n
    && forall r :: 0 <= r < ring.n ==> ring.gridOffset + ring.channelCount <= |s.out[r]|
  }

  function Init<T>(ring: Ring<T>, out: seq<seq<T>>): State<T> {
    State(seq(ring.n, _ => 0), seq(ring.n, _ => []), out)
  }

  predicate Enabled<T>(ring: Ring<T>, s: State<T>, r: nat)
    requires ring.n >= 2 && |s.pc| == ring.n && |s.link| == ring.n && r < ring.n
  {
    var p := Where(ring.n, s.pc[r]);
    var kind := KindAt(ring.n, p.step);
    && HasLoop(ring, p.loop)
    && (Receives(kind) ==> s.link[Prev(ring.n, r)] != [])
    && (Sends(kind) ==> |s.link[r]| < LINK_CHUNKS)
  }

  function Store<T>(buf: seq<T>, offset: int, data: seq<T>): (b: seq<T>)
    ensures |b| == |buf|
  {
    seq(|buf|, i requires 0 <= i < |buf| => if offset <= i < offset + |data| then data[i - offset] else buf[i])
  }

  /** Rank r executes its next call. */
  function Step<T>(ring: Ring<T>, s: State<T>, r: nat): State<T>
    requires ring.n >= 2 && ring.perPack > 0 && r < ring.n
    requires |s.pc| == ring.n && |s.link| == ring.n && |s.out| == ring.n
    requires Enabled(ring, s, r)
    requires Receives(CallAt(ring, r, Where(ring.n, s.pc[r])).kind) ==>
               |s.link[Prev(ring.n, r)][0]| == Max(0, CallAt(ring, r, Where(ring.n, s.pc[r])).nelem)
  {
    var c := CallAt(ring, r, Where(ring.n, s.pc[r]));
    var from := Prev(ring.n, r);
    Effect(ring.n, s, r, c, Payload(ring, r, c, if Receives(c.kind) then s.link[from][0] else []))
  }

  /** Rank r's call c takes its message, if any, and delivers data to the link and to the output. */
  function Effect<T>(n: nat, s: State<T>, r: nat, c: Call, data: seq<T>): State<T>
    requires n >= 2 && r < n && |s.pc| == |s.link| == |s.out| == n && (Receives(c.kind) ==> s.link[Prev(n, r)] != [])
  {
    var from := Prev(n, r);
    var link1 := if Receives(c.kind) then s.link[from := s.link[from][1..]] else s.link;
    State(s.pc[r := s.pc[r] + 1],
          if Sends(c.kind) then link1[r := link1[r] + [data]] else link1,
          if Writes(c.kind) then s.out[r := Store(s.out[r], c.offset, data)] else s.out)
  }

  lemma EffectFacts<T>(n: nat, s: State<T>, r: nat, c: Call, data: seq<T>)
    requires n >= 2 && r < n && |s.pc| == |s.link| == |s.out| == n && (Receives(c.kind) ==> s.link[Prev(n, r)] != [])
    ensures
      var t, from := Effect(n, s, r, c, data), Prev(n, r);
      && from != r
      && t.pc == s.pc[r := s.pc[r] + 1] && |t.link| == n && |t.out| == n
      && t.link[from] == (if Receives(c.kind) then s.link[from][1..] else s.link[from])
      && t.link[r] == (if Sends(c.kind) then s.link[r] + [data] else s.link[r])
      && (forall q :: 0 <= q < n && q != r && q != from ==> t.link[q] == s.link[q])
      && t.out[r] == (if Writes(c.kind) then Store(s.out[r], c.offset, data) else s.out[r])
      && (forall q :: 0 <= q < n && q != r ==> t.out[q] == s.out[q])
  {
  }

  /** Messages sent by the calls lo .. hi-1 of rank r. */
  ghost function InFlight<T>(ring: Ring<T>, r: nat, lo: int, hi: int): (q: seq<seq<T>>)
    requires ring.n >= 2 && ring.perPack > 0 && r < ring.n && 0 <= lo
    ensures |q| <= Max(0, hi - lo)
    decreases hi - lo
  {
    if hi <= lo then []
    else
      InFlight(ring, r, lo, hi - 1)
      + (if Where(ring.n, hi - 1).step < 2 * ring.n - 2 then [Data(ring, r, Where(ring.n, hi - 1))] else [])
  }

  lemma {:induction false} InFlightFront<T(!new)>(ring: Ring<T>, r: nat, lo: nat, hi: nat)
    requires ring.n >= 2 && ring.perPack > 0 && r < ring.n && lo < hi
    ensures InFlight(ring, r, lo, hi)
         == (if Where(ring.n, lo).step < 2 * ring.n - 2 then [Data(ring, r, Where(ring.n, lo))] else [])
            + InFlight(ring, r, lo + 1, hi)
    decreases hi
  {
    if lo + 1 < hi {
      InFlightFront(ring, r, lo, hi - 1);
    }
  }

  /** The receiver (at q) is at most one message ahead of what the sender (at p) has sent. */
  ghost predicate InStep(n: nat, p: nat, q: nat)
    requires n >= 2
  {
    q <= p + 1 || (q == p + 2 && Where(n, p).step == 2 * n - 2)
  }

  ghost predicate LinkOk<T>(ring: Ring<T>, r: nat, p: nat, q: nat, link: seq<seq<T>>)
    requires ring.n >= 2 && ring.perPack > 0 && r < ring.n
  {
    InStep(ring.n, p, q) && link == InFlight(ring, r, Max(q - 1, 0), p)
  }

  lemma LinkSend<T(!new)>(ring: Ring<T>, r: nat, p: nat, q: nat, link: seq<seq<T>>)
    requires ValidRing(ring) && r < ring.n && LinkOk(ring, r, p, q, link)
    ensures LinkOk(ring, r, p + 1, q,
                   if Sends(KindAt(ring.n, Where(ring.n, p).step)) then link + [Data(ring, r, Where(ring.n, p))]
                   else link)
  {
  }

  lemma LinkRecv<T(!new)>(ring: Ring<T>, r: nat, p: nat, q: nat, link: seq<seq<T>>)
    requires ValidRing(ring) && r < ring.n && LinkOk(ring, r, p, q, link)
    requires Receives(KindAt(ring.n, Where(ring.n, q).step)) && link != []
    ensures Where(ring.n, q).step > 0
    ensures link[0] == Data(ring, r, Place(Where(ring.n, q).loop, Where(ring.n, q).step - 1))
    ensures LinkOk(ring, r, p, q + 1, link[1..])
  {
    ReceivesLater(ring.n, q);
    NextPlace(ring.n, q);
    InFlightFront(ring, r, q - 1, p);
  }

  lemma ReceivesLater(n: nat, q: nat)
    requires n >= 2 && Receives(KindAt(n, Where(n, q).step))
    ensures q > 0 && Where(n, q).step > 0
  {
  }

  lemma NextPlace(n: nat, q: nat)
    requires n >= 2 && q > 0 && Where(n, q).step > 0
    ensures Where(n, q - 1) == Place(Where(n, q).loop, Where(n, q).step - 1)
  {
  }

  lemma LinkSkip<T(!new)>(ring: Ring<T>, r: nat, p: nat, q: nat, link: seq<seq<T>>)
    requires ValidRing(ring) && r < ring.n && LinkOk(ring, r, p, q, link)
    requires !Receives(KindAt(ring.n, Where(ring.n, q).step))
    ensures LinkOk(ring, r, p, q + 1, link)
  {
    if 0 < q <= p {
      InFlightFront(ring, r, q - 1, p);
    }
  }

  /** Result for element e of chunk c: the value formed at rank c. */
  function Result<T>(ring: Ring<T>, c: nat, e: int): T
    requires ring.n >= 2 && c < ring.n
  {
    Value(ring, c, ring.n - 1, ring.gridOffset + e)
  }

  /** The i-th call of rank r stores element e, which belongs to chunk c. */
  ghost predicate Stores<T>(ring: Ring<T>, r: nat, i: nat, c: nat, e: int)
    requires ring.n >= 2 && ring.perPack > 0 && r < ring.n
  {
    var p := Where(ring.n, i);
    Writes(KindAt(ring.n, p.step)) && c == ChunkAt(ring.n, r, p.step) && InChunk(ring, p.loop, c, e)
  }

  ghost predicate OutOk<T>(ring: Ring<T>, r: nat, p: nat, out: seq<T>)
    requires ring.n >= 2 && ring.perPack > 0 && r < ring.n && ring.gridOffset + ring.channelCount <= |out|
  {
    forall i: nat, c: nat, e: nat :: i < p && c < ring.n && e < ring.channelCount && Stores(ring, r, i, c, e) ==>
                           out[ring.gridOffset + e] == Result(ring, c, e)
  }

  lemma StoredElement<T(!new)>(ring: Ring<T>, r: nat, p: Place, c: nat, e: int)
    requires ValidRing(ring) && r < ring.n && p.step <= 2 * ring.n - 2
    requires Writes(KindAt(ring.n, p.step)) && c == ChunkAt(ring.n, r, p.step) && InChunk(ring, p.loop, c, e)
    ensures
      var call := CallAt(ring, r, p);
      && call.offset <= ring.gridOffset + e < call.offset + |Data(ring, r, p)|
      && Data(ring, r, p)[ring.gridOffset + e - call.offset] == Result(ring, c, e)
  {
    CopiedUnchanged(ring, r, p.step, ring.gridOffset + e);
  }

  lemma NotStoredElement<T(!new)>(ring: Ring<T>, r: nat, p: Place, e: nat)
    requires ValidRing(ring) && r < ring.n && p.step <= 2 * ring.n - 2 && HasLoop(ring, p.loop)
    requires !InChunk(ring, p.loop, ChunkAt(ring.n, r, p.step), e)
    ensures
      var call := CallAt(ring, r, p);
      !(call.offset <= ring.gridOffset + e < call.offset + |Data(ring, r, p)|)
  {
  }

  /** Storing a chunk keeps what was stored before and adds the result of that chunk. */
  lemma StoreKeepsOut<T(!new)>(ring: Ring<T>, r: nat, p: nat, out: seq<T>)
    requires ValidRing(ring) && r < ring.n && ring.gridOffset + ring.channelCount <= |out|
    requires HasLoop(ring, Where(ring.n, p).loop) && Writes(KindAt(ring.n, Where(ring.n, p).step))
    requires OutOk(ring, r, p, out)
    ensures OutOk(ring, r, p + 1, Store(out, CallAt(ring, r, Where(ring.n, p)).offset, Data(ring, r, Where(ring.n, p))))
  {
    var w := Where(ring.n, p);
    var out' := Store(out, CallAt(ring, r, w).offset, Data(ring, r, w));
    forall i: nat, c: nat, e: nat | i < p + 1 && c < ring.n && e < ring.channelCount && Stores(ring, r, i, c, e)
      ensures out'[ring.gridOffset + e] == Result(ring, c, e)
    {
      if InChunk(ring, w.loop, ChunkAt(ring.n, r, w.step), e) {
        StoreSets(ring, r, w, out, Where(ring.n, i).loop, c, e);
      } else {
        StoreLeaves(ring, r, w, out, e);
      }
    }
  }

  /** A stored element holds its result, whatever chunk and iteration it is said to belong to. */
  lemma StoreSets<T(!new)>(ring: Ring<T>, r: nat, w: Place, out: seq<T>, L: nat, c: nat, e: nat)
    requires ValidRing(ring) && r < ring.n && ring.gridOffset + ring.channelCount <= |out| && w.step <= 2 * ring.n - 2
    requires HasLoop(ring, w.loop) && Writes(KindAt(ring.n, w.step)) && c < ring.n && e < ring.channelCount
    requires InChunk(ring, L, c, e) && InChunk(ring, w.loop, ChunkAt(ring.n, r, w.step), e)
    ensures Store(out, CallAt(ring, r, w).offset, Data(ring, r, w))[ring.gridOffset + e] == Result(ring, c, e)
  {
    ChunksDisjoint(ring, L, c, w.loop, ChunkAt(ring.n, r, w.step), e);
    StoredElement(ring, r, w, c, e);
  }

  lemma StoreLeaves<T(!new)>(ring: Ring<T>, r: nat, w: Place, out: seq<T>, e: nat)
    requires ValidRing(ring) && r < ring.n && ring.gridOffset + ring.channelCount <= |out| && w.step <= 2 * ring.n - 2
    requires HasLoop(ring, w.loop) && e < ring.channelCount && !InChunk(ring, w.loop, ChunkAt(ring.n, r, w.step), e)
    ensures Store(out, CallAt(ring, r, w).offset, Data(ring, r, w))[ring.gridOffset + e] == out[ring.gridOffset + e]
  {
    NotStoredElement(ring, r, w, e);
  }

  lemma SkipKeepsOut<T(!new)>(ring: Ring<T>, r: nat, p: nat, out: seq<T>)
    requires ValidRing(ring) && r < ring.n && ring.gridOffset + ring.channelCount <= |out|
    requires !Writes(KindAt(ring.n, Where(ring.n, p).step)) && OutOk(ring, r, p, out)
    ensures OutOk(ring, r, p + 1, out)
  {
  }

  ghost predicate Inv<T>(ring: Ring<T>, s: State<T>)
    requires ring.n >= 2 && ring.perPack > 0
  {
    && Shaped(ring, s)
    && (forall r: nat {:trigger LinkAt(ring, s, r)} :: r < ring.n ==> LinkAt(ring, s, r))
    && (forall r: nat {:trigger OutAt(ring, s, r)} :: r < ring.n ==> OutAt(ring, s, r))
  }

  ghost predicate LinkAt<T>(ring: Ring<T>, s: State<T>, r: nat)
    requires ring.n >= 2 && ring.perPack > 0 && Shaped(ring, s) && r < ring.n
  {
    LinkOk(ring, r, s.pc[r], s.pc[Next(ring.n, r)], s.link[r])
  }

  ghost predicate OutAt<T>(ring: Ring<T>, s: State<T>, r: nat)
    requires ring.n >= 2 && ring.perPack > 0 && Shaped(ring, s) && r < ring.n
  {
    OutOk(ring, r, s.pc[r], s.out[r])
  }

  /** A call of an enabled rank finds the message it expects. */
  lemma StepDefined<T(!new)>(ring: Ring<T>, s: State<T>, r: nat)
    requires ValidRing(ring) && Inv(ring, s) && r < ring.n && Enabled(ring, s, r)
    ensures
      var p := Where(ring.n, s.pc[r]);
      var c := CallAt(ring, r, p);
      var msgs := s.link[Prev(ring.n, r)];
      && (Receives(c.kind) ==> |msgs[0]| == Max(0, c.nelem))
      && Payload(ring, r, c, if Receives(c.kind) then msgs[0] else []) == Data(ring, r, p)
  {
    var from, p := Prev(ring.n, r), Where(ring.n, s.pc[r]);
    if Receives(KindAt(ring.n, p.step)) {
      MessageMeant(ring, s, r);
      PayloadOfMessage(ring, r, p, s.link[from][0]);
    } else {
      PayloadIsData(ring, r, p);
    }
  }

  lemma PayloadOfMessage<T(!new)>(ring: Ring<T>, r: nat, p: Place, msg: seq<T>)
    requires ValidRing(ring) && r < ring.n && 0 < p.step <= 2 * ring.n - 2
    requires msg == Data(ring, Prev(ring.n, r), Place(p.loop, p.step - 1))
    ensures |msg| == Max(0, CallAt(ring, r, p).nelem) && Payload(ring, r, CallAt(ring, r, p), msg) == Data(ring, r, p)
  {
    PayloadIsData(ring, r, p);
  }

  /** The first message on the link to a rank is the one its next call is meant to get. */
  lemma MessageMeant<T(!new)>(ring: Ring<T>, s: State<T>, r: nat)
    requires ValidRing(ring) && Inv(ring, s) && r < ring.n && Enabled(ring, s, r)
    requires Receives(KindAt(ring.n, Where(ring.n, s.pc[r]).step))
    ensures
      var from, p := Prev(ring.n, r), Where(ring.n, s.pc[r]);
      p.step > 0 && s.link[from] != [] && s.link[from][0] == Data(ring, from, Place(p.loop, p.step - 1))
  {
    var from := Prev(ring.n, r);
    NextIs(ring.n, from, r);
    assert LinkAt(ring, s, from);
    LinkRecv(ring, from, s.pc[from], s.pc[r], s.link[from]);
  }

  /** The state after rank r's call, spelled out with the message that the protocol prescribes. */
  lemma StepEffect<T(!new)>(ring: Ring<T>, s: State<T>, r: nat)
    requires ValidRing(ring) && Inv(ring, s) && r < ring.n && Enabled(ring, s, r)
    requires Receives(CallAt(ring, r, Where(ring.n, s.pc[r])).kind) ==>
               |s.link[Prev(ring.n, r)][0]| == Max(0, CallAt(ring, r, Where(ring.n, s.pc[r])).nelem)
    ensures
      var t, p := Step(ring, s, r), Where(ring.n, s.pc[r]);
      && t.pc == s.pc[r := s.pc[r] + 1] && |t.link| == |t.out| == ring.n
      && (forall q: nat {:trigger LinkMoved(ring, s.pc, r, q, s.link[q], t.link[q])} :: q < ring.n ==>
            LinkMoved(ring, s.pc, r, q, s.link[q], t.link[q]))
      && t.out[r]
         == (if Writes(KindAt(ring.n, p.step)) then Store(s.out[r], CallAt(ring, r, p).offset, Data(ring, r, p))
             else s.out[r])
      && (forall q :: 0 <= q < ring.n && q != r ==> t.out[q] == s.out[q])
  {
    StepDefined(ring, s, r);
    EffectFacts(ring.n, s, r, CallAt(ring, r, Where(ring.n, s.pc[r])), Data(ring, r, Where(ring.n, s.pc[r])));
  }

  lemma StepKeepsLinks<T(!new)>(ring: Ring<T>, s: State<T>, r: nat, t: State<T>)
    requires ValidRing(ring) && Inv(ring, s) && r < ring.n && Shaped(ring, t) && t.pc == s.pc[r := s.pc[r] + 1]
    requires forall q: nat {:trigger LinkMoved(ring, s.pc, r, q, s.link[q], t.link[q])} :: q < ring.n ==>
               LinkMoved(ring, s.pc, r, q, s.link[q], t.link[q])
    ensures forall q: nat :: q < ring.n ==> LinkAt(ring, t, q)
  {
    forall q: nat | q < ring.n ensures LinkAt(ring, t, q) {
      assert LinkAt(ring, s, q) && LinkMoved(ring, s.pc, r, q, s.link[q], t.link[q]);
      KeepsLink(ring, s.pc, r, q, s.link[q], t.link[q]);
    }
  }

  /** What rank r's next call does to the link of rank q: its own gets the message that the protocol prescribes, that of
      its predecessor loses its first one. */
  ghost predicate LinkMoved<T>(ring: Ring<T>, pc: seq<nat>, r: nat, q: nat, link: seq<seq<T>>, link': seq<seq<T>>)
    requires ring.n >= 2 && ring.perPack > 0 && r < ring.n == |pc|
  {
    var p := Where(ring.n, pc[r]);
    var kind := KindAt(ring.n, p.step);
    if q == r then link' == if Sends(kind) then link + [Data(ring, r, p)] else link
    else if q == Prev(ring.n, r) && Receives(kind) then link != [] && link' == link[1..]
    else link' == link
  }

  /** The link of rank q, when rank r makes its next call. */
  lemma KeepsLink<T(!new)>(ring: Ring<T>, pc: seq<nat>, r: nat, q: nat, link: seq<seq<T>>, link': seq<seq<T>>)
    requires ValidRing(ring) && r < ring.n && q < ring.n && |pc| == ring.n
    requires LinkOk(ring, q, pc[q], pc[Next(ring.n, q)], link)
    requires LinkMoved(ring, pc, r, q, link, link')
    ensures
      var pc' := pc[r := pc[r] + 1];
      LinkOk(ring, q, pc'[q], pc'[Next(ring.n, q)], link')
  {
    NextIs(ring.n, q, r);
    if q == r {
      LinkSend(ring, r, pc[r], pc[Next(ring.n, r)], link);
    } else if q == Prev(ring.n, r) {
      LinkTake(ring, q, pc[q], pc[r], link);
    }
  }

  /** The receiver's next call, whether it receives or not. */
  lemma LinkTake<T(!new)>(ring: Ring<T>, r: nat, p: nat, q: nat, link: seq<seq<T>>)
    requires ValidRing(ring) && r < ring.n && LinkOk(ring, r, p, q, link)
    requires Receives(KindAt(ring.n, Where(ring.n, q).step)) ==> link != []
    ensures LinkOk(ring, r, p, q + 1, if Receives(KindAt(ring.n, Where(ring.n, q).step)) then link[1..] else link)
  {
    if Receives(KindAt(ring.n, Where(ring.n, q).step)) {
      LinkRecv(ring, r, p, q, link);
    } else {
      LinkSkip(ring, r, p, q, link);
    }
  }

  lemma NextIs(n: nat, q: nat, r: nat)
    requires n >= 2 && q < n && r < n
    ensures (Next(n, q) == r <==> q == Prev(n, r)) && Next(n, q) != q
  {
  }

  /** Every call of every rank keeps the invariant. */
  lemma StepKeepsInv<T(!new)>(ring: Ring<T>, s: State<T>, r: nat)
    requires ValidRing(ring) && Inv(ring, s) && r < ring.n && Enabled(ring, s, r)
    requires Receives(CallAt(ring, r, Where(ring.n, s.pc[r])).kind) ==>
               |s.link[Prev(ring.n, r)][0]| == Max(0, CallAt(ring, r, Where(ring.n, s.pc[r])).nelem)
    ensures Inv(ring, Step(ring, s, r))
  {
    var t := Step(ring, s, r);
    StepEffect(ring, s, r);
    StepKeepsOuts(ring, s, r, t);
    StepKeepsLinks(ring, s, r, t);
  }

  lemma StepKeepsOuts<T(!new)>(ring: Ring<T>, s: State<T>, r: nat, t: State<T>)
    requires ValidRing(ring) && Inv(ring, s) && r < ring.n && Enabled(ring, s, r)
    requires t.pc == s.pc[r := s.pc[r] + 1] && |t.link| == |t.out| == ring.n
    requires
      var p := Where(ring.n, s.pc[r]);
      t.out[r] == if Writes(KindAt(ring.n, p.step)) then Store(s.out[r], CallAt(ring, r, p).offset, Data(ring, r, p))
        else s.out[r]
    requires forall q :: 0 <= q < ring.n && q != r ==> t.out[q] == s.out[q]
    ensures Shaped(ring, t) && forall q: nat :: q < ring.n ==> OutAt(ring, t, q)
  {
    assert OutAt(ring, s, r);
    if Writes(KindAt(ring.n, Where(ring.n, s.pc[r]).step)) {
      StoreKeepsOut(ring, r, s.pc[r], s.out[r]);
    } else {
      SkipKeepsOut(ring, r, s.pc[r], s.out[r]);
    }
    assert Shaped(ring, t);
    forall q: nat | q < ring.n ensures OutAt(ring, t, q) {
      assert q != r ==> OutAt(ring, s, q);
    }
  }

  lemma InitInv<T(!new)>(ring: Ring<T>, out: seq<seq<T>>)
    requires ValidRing(ring) && Shaped(ring, Init(ring, out))
    ensures Inv(ring, Init(ring, out))
  {
  }

  /** Rank r's turn: it makes its next call, or does nothing if it has to wait or is done. */
  ghost function Turn<T(!new)>(ring: Ring<T>, s: State<T>, r: nat): (t: State<T>)
    requires ValidRing(ring) && Inv(ring, s) && r < ring.n
    ensures Inv(ring, t)
  {
    if Enabled(ring, s, r) then
      StepDefined(ring, s, r);
      StepKeepsInv(ring, s, r);
      Step(ring, s, r)
    else s
  }

  ghost predicate ValidSchedule(n: nat, schedule: seq<nat>) {
    forall i :: 0 <= i < |schedule| ==> schedule[i] < n
  }

  /** Gives the ranks their turns in the order of a schedule. */
  ghost function Exec<T(!new)>(ring: Ring<T>, s: State<T>, schedule: seq<nat>): (t: State<T>)
    requires ValidRing(ring) && Inv(ring, s) && ValidSchedule(ring.n, schedule)
    ensures Inv(ring, t)
    decreases schedule
  {
    if schedule == [] then s else Exec(ring, Turn(ring, s, schedule[0]), schedule[1..])
  }

  /** A whole run from the start, with arbitrary contents in the output buffers. */
  ghost function Run<T(!new)>(ring: Ring<T>, out: seq<seq<T>>, schedule: seq<nat>): (t: State<T>)
    requires ValidRing(ring) && Shaped(ring, Init(ring, out)) && ValidSchedule(ring.n, schedule)
    ensures Inv(ring, t)
  {
    InitInv(ring, out);
    Exec(ring, Init(ring, out), schedule)
  }

  ghost predicate Done<T>(ring: Ring<T>, s: State<T>, r: nat)
    requires ring.n >= 2 && r < |s.pc|
  {
    !HasLoop(ring, Where(ring.n, s.pc[r]).loop)
  }

  ghost predicate AllDone<T>(ring: Ring<T>, s: State<T>)
    requires ring.n >= 2 && |s.pc| == ring.n
  {
    forall r: nat :: r < ring.n ==> Done(ring, s, r)
  }

  ghost predicate Before(a: Place, b: Place) {
    a.loop < b.loop || (a.loop == b.loop && a.step < b.step)
  }

  /** Every earlier place of the program is the place of an earlier call. */
  lemma {:induction false} PlaceReached(n: nat, k: nat, a: Place) returns (i: nat)
    requires n >= 2 && a.step <= 2 * n - 2 && Before(a, Where(n, k))
    ensures i < k && Where(n, i) == a
  {
    if Where(n, k - 1) == a {
      i := k - 1;
    } else {
      i := PlaceReached(n, k - 1, a);
    }
  }

  /** Each rank stores every chunk at some step. */
  function StoringStep(n: nat, r: nat, c: nat): (step: nat)
    requires n >= 2 && r < n && c < n
    ensures step <= 2 * n - 2 && Writes(KindAt(n, step)) && ChunkAt(n, r, step) == c
  {
    if c == r then n - 1 else if c > r then 2 * n - 1 - (c - r) else r + n - 1 - c
  }

  /** When a rank is done, its output holds the result of every element of the channel. */
  lemma DoneHoldsResult<T(!new)>(ring: Ring<T>, s: State<T>, r: nat, c: nat, L: nat, e: nat)
    requires ValidRing(ring) && Inv(ring, s) && r < ring.n && Done(ring, s, r)
    requires InChunk(ring, L, c, e) && e < ring.channelCount
    ensures s.out[r][ring.gridOffset + e] == Result(ring, c, e)
  {
    var p, step := Where(ring.n, s.pc[r]), StoringStep(ring.n, r, c);
    LoopPast(ring, L, p.loop);
    var i := PlaceReached(ring.n, s.pc[r], Place(L, step));
    assert OutAt(ring, s, r) && Stores(ring, r, i, c, e);
  }

  lemma LoopPast<T(!new)>(ring: Ring<T>, L: nat, M: nat)
    requires ValidRing(ring) && HasLoop(ring, L) && !HasLoop(ring, M)
    ensures L < M
  {
    if M < L {
      LoopOffsetsAscend(ring, M, L);
    }
  }

  /** Under every schedule that lets all ranks finish, all ranks end with the same value in every element, whatever
      the operator is: the value formed at one rank. */
  lemma AllRanksAgree<T(!new)>(ring: Ring<T>, out: seq<seq<T>>, schedule: seq<nat>, r: nat, q: nat, e: nat)
    returns (L: nat, c: nat)
    requires ValidRing(ring) && Shaped(ring, Init(ring, out)) && r < ring.n && q < ring.n && e < ring.channelCount
    requires ValidSchedule(ring.n, schedule) && AllDone(ring, Run(ring, out, schedule))
    ensures InChunk(ring, L, c, e)
    ensures var t := Run(ring, out, schedule);
            t.out[r][ring.gridOffset + e] == t.out[q][ring.gridOffset + e] == Result(ring, c, e)
  {
    var s := Run(ring, out, schedule);
    L, c := LocateElement(ring, e, 0);
    DoneHoldsResult(ring, s, r, c, L, e);
    DoneHoldsResult(ring, s, q, c, L, e);
  }

  /** Nothing outside this channel's part of the buffer is written. */
  lemma {:induction false} OutsideUntouched<T(!new)>(ring: Ring<T>, s: State<T>, schedule: seq<nat>, r: nat, i: nat)
    requires ValidRing(ring) && Inv(ring, s) && ValidSchedule(ring.n, schedule)
    requires r < ring.n && i < |s.out[r]| && !(ring.gridOffset <= i < ring.gridOffset + ring.channelCount)
    ensures |Exec(ring, s, schedule).out[r]| == |s.out[r]|
    ensures Exec(ring, s, schedule).out[r][i] == s.out[r][i]
    decreases schedule
  {
    if schedule != [] {
      TurnOutside(ring, s, schedule[0], r, i);
      OutsideUntouched(ring, Turn(ring, s, schedule[0]), schedule[1..], r, i);
    }
  }

  lemma TurnOutside<T(!new)>(ring: Ring<T>, s: State<T>, q: nat, r: nat, i: nat)
    requires ValidRing(ring) && Inv(ring, s) && q < ring.n
    requires r < ring.n && i < |s.out[r]| && !(ring.gridOffset <= i < ring.gridOffset + ring.channelCount)
    ensures |Turn(ring, s, q).out[r]| == |s.out[r]| && Turn(ring, s, q).out[r][i] == s.out[r][i]
  {
    if Enabled(ring, s, q) {
      StepDefined(ring, s, q);
      StepEffect(ring, s, q);
      CallInsideChannel(ring, q, Where(ring.n, s.pc[q]), i);
    }
  }

  lemma CallInsideChannel<T(!new)>(ring: Ring<T>, r: nat, p: Place, i: int)
    requires ValidRing(ring) && r < ring.n && p.step <= 2 * ring.n - 2 && HasLoop(ring, p.loop)
    requires !(ring.gridOffset <= i < ring.gridOffset + ring.channelCount)
    ensures !(CallAt(ring, r, p).offset <= i < CallAt(ring, r, p).offset + |Data(ring, r, p)|)
  {
    var c, e := ChunkAt(ring.n, r, p.step), i - ring.gridOffset;
    if InChunk(ring, p.loop, c, e) {
      InsideLoop(ring, p.loop, c, e);
    }
  }

  // ---------------------------------------------------------------- no rank waits forever

  lemma {:induction false} WhereMonotone(n: nat, i: nat, j: nat)
    requires n >= 2 && i <= j
    ensures Where(n, i).loop <= Where(n, j).loop
  {
    if i < j {
      WhereMonotone(n, i, j - 1);
    }
  }

  lemma {:induction false} LeastAdvanced(pc: seq<nat>) returns (r: nat)
    requires pc != []
    ensures r < |pc| && forall q :: 0 <= q < |pc| ==> pc[r] <= pc[q]
  {
    r := 0;
    var k := 1;
    while k < |pc|
      invariant 1 <= k <= |pc| && r < k
      invariant forall q :: 0 <= q < k ==> pc[r] <= pc[q]
    {
      if pc[k] < pc[r] {
        r := k;
      }
      k := k + 1;
    }
  }

  /** With two chunks per link the ring never deadlocks: until all ranks are done, the least advanced one can move. */
  lemma NoDeadlock<T(!new)>(ring: Ring<T>, s: State<T>) returns (r: nat)
    requires ValidRing(ring) && Inv(ring, s) && !AllDone(ring, s)
    ensures r < ring.n && Enabled(ring, s, r)
  {
    r := LeastAdvanced(s.pc);
    LeastNotDone(ring, s, r);
    var from, to := Prev(ring.n, r), Next(ring.n, r);
    NextIs(ring.n, from, r);
    assert LinkAt(ring, s, from) && LinkAt(ring, s, r);
    if Receives(KindAt(ring.n, Where(ring.n, s.pc[r]).step)) {
      MessageWaits(ring, from, s.pc[from], s.pc[r], s.link[from]);
    }
    LinkHasSpace(ring, r, s.pc[r], s.pc[to], s.link[r]);
  }

  /** A receiver that is not ahead of the sender finds a message. */
  lemma MessageWaits<T(!new)>(ring: Ring<T>, r: nat, p: nat, q: nat, link: seq<seq<T>>)
    requires ValidRing(ring) && r < ring.n && LinkOk(ring, r, p, q, link) && q <= p
    requires Receives(KindAt(ring.n, Where(ring.n, q).step))
    ensures link != []
  {
    ReceivesLater(ring.n, q);
    NextPlace(ring.n, q);
    InFlightFront(ring, r, q - 1, p);
  }

  /** A sender that is not ahead of the receiver finds room. */
  lemma LinkHasSpace<T(!new)>(ring: Ring<T>, r: nat, p: nat, q: nat, link: seq<seq<T>>)
    requires ValidRing(ring) && r < ring.n && LinkOk(ring, r, p, q, link) && p <= q
    ensures |link| < LINK_CHUNKS
  {
  }

  lemma LeastNotDone<T(!new)>(ring: Ring<T>, s: State<T>, r: nat)
    requires ValidRing(ring) && |s.pc| == ring.n && r < ring.n && !AllDone(ring, s)
    requires forall q :: 0 <= q < ring.n ==> s.pc[r] <= s.pc[q]
    ensures !Done(ring, s, r)
  {
    var q: nat :| q < ring.n && !Done(ring, s, q);
    WhereMonotone(ring.n, s.pc[r], s.pc[q]);
    if Done(ring, s, r) {
      LoopPast(ring, Where(ring.n, s.pc[q]).loop, Where(ring.n, s.pc[r]).loop);
    }
  }

  /** Number of loop iterations from L on. */
  function LoopsFrom<T>(ring: Ring<T>, L: nat): nat
    decreases ring.channelCount - LoopOffset(ring, L)
  {
    if HasLoop(ring, L) && LoopCount(ring) > 0 then 1 + LoopsFrom(ring, L + 1) else 0
  }

  /** Calls that the rank at place p still has to make, counted generously. */
  function CallsLeft<T>(ring: Ring<T>, p: Place): nat
    requires ring.n >= 2 && p.step <= 2 * ring.n - 2
  {
    if HasLoop(ring, p.loop) then LoopsFrom(ring, p.loop + 1) * (2 * ring.n - 1) + (2 * ring.n - 1 - p.step) else 0
  }

  lemma CallsLeftDecreases<T(!new)>(ring: Ring<T>, i: nat)
    requires ValidRing(ring) && HasLoop(ring, Where(ring.n, i).loop)
    ensures CallsLeft(ring, Where(ring.n, i + 1)) < CallsLeft(ring, Where(ring.n, i))
  {
    LoopCountPositive(ring);
    var p := Where(ring.n, i);
    if p.step == 2 * ring.n - 2 {
      OneMore(LoopsFrom(ring, p.loop + 2), 2 * ring.n - 1);
    }
  }

  lemma OneMore(a: nat, w: nat)
    ensures (a + 1) * w == a * w + w
  {
  }

  ghost function TotalLeft<T>(ring: Ring<T>, pc: seq<nat>): nat
    requires ring.n >= 2
  {
    if pc == [] then 0
    else TotalLeft(ring, pc[..|pc| - 1]) + CallsLeft(ring, Where(ring.n, pc[|pc| - 1]))
  }

  lemma {:induction false} TotalLeftDecreases<T(!new)>(ring: Ring<T>, pc: seq<nat>, r: nat)
    requires ValidRing(ring) && r < |pc| && HasLoop(ring, Where(ring.n, pc[r]).loop)
    ensures TotalLeft(ring, pc[r := pc[r] + 1]) < TotalLeft(ring, pc)
  {
    var k := |pc| - 1;
    if r == k {
      CallsLeftDecreases(ring, pc[r]);
      assert pc[r := pc[r] + 1][..k] == pc[..k];
    } else {
      TotalLeftDecreases(ring, pc[..k], r);
      assert pc[r := pc[r] + 1][..k] == pc[..k][r := pc[r] + 1];
    }
  }

  lemma TurnMakesProgress<T(!new)>(ring: Ring<T>, s: State<T>, r: nat)
    requires ValidRing(ring) && Inv(ring, s) && r < ring.n && Enabled(ring, s, r)
    ensures TotalLeft(ring, Turn(ring, s, r).pc) < TotalLeft(ring, s.pc)
  {
    TurnAdvances(ring, s, r);
    var pc := s.pc;
    assert Turn(ring, s, r).pc == pc[r := pc[r] + 1];
    TotalLeftDecreases(ring, pc, r);
  }

  lemma TurnAdvances<T(!new)>(ring: Ring<T>, s: State<T>, r: nat)
    requires ValidRing(ring) && Inv(ring, s) && r < ring.n && Enabled(ring, s, r)
    ensures HasLoop(ring, Where(ring.n, s.pc[r]).loop) && Turn(ring, s, r).pc == s.pc[r := s.pc[r] + 1]
  {
    StepDefined(ring, s, r);
  }

  /** From every state of every run all ranks can still finish. */
  lemma {:induction false} CompletionReachable<T(!new)>(ring: Ring<T>, s: State<T>) returns (rest: seq<nat>)
    requires ValidRing(ring) && Inv(ring, s)
    ensures ValidSchedule(ring.n, rest) && AllDone(ring, Exec(ring, s, rest))
    decreases TotalLeft(ring, s.pc)
  {
    if AllDone(ring, s) {
      rest := [];
    } else {
      var r := NoDeadlock(ring, s);
      TurnMakesProgress(ring, s, r);
      var tail := CompletionReachable(ring, Turn(ring, s, r));
      rest := [r] + tail;
      FirstTurn(ring, s, r, tail);
    }
  }

  // ---------------------------------------------------------------- associative commutative operators

  lemma FirstTurn<T(!new)>(ring: Ring<T>, s: State<T>, r: nat, rest: seq<nat>)
    requires ValidRing(ring) && Inv(ring, s) && r < ring.n && ValidSchedule(ring.n, rest)
    ensures ValidSchedule(ring.n, [r] + rest) && Exec(ring, s, [r] + rest) == Exec(ring, Turn(ring, s, r), rest)
  {
    assert ([r] + rest)[1..] == rest;
  }

  ghost predicate Assoc<T>(f: (T, T) -> T, x: T, y: T, z: T) {
    f(f(x, y), z) == f(x, f(y, z))
  }

  ghost predicate Associative<T(!new)>(f: (T, T) -> T) {
    forall x, y, z :: Assoc(f, x, y, z)
  }

  ghost predicate Comm<T>(f: (T, T) -> T, x: T, y: T) {
    f(x, y) == f(y, x)
  }

  ghost predicate Commutative<T(!new)>(f: (T, T) -> T) {
    forall x, y :: Comm(f, x, y)
  }

  /** Reduction of the inputs of ranks 0 .. r in rank order. */
  function Fold<T>(ring: Ring<T>, r: nat, e: int): T {
    if r == 0 then ring.pre(ring.input(0, e)) else ring.red(Fold(ring, r - 1, e), ring.pre(ring.input(r, e)))
  }

  /** Reduction of the inputs of ranks hi, hi-1, .., lo in this order. */
  function Down<T>(ring: Ring<T>, hi: nat, lo: nat, e: int): T
    decreases hi
  {
    if hi <= lo then ring.pre(ring.input(hi, e)) else ring.red(ring.pre(ring.input(hi, e)), Down(ring, hi - 1, lo, e))
  }

  lemma {:induction false} DownIsFold<T(!new)>(ring: Ring<T>, hi: nat, e: int)
    requires Commutative(ring.red)
    ensures Down(ring, hi, 0, e) == Fold(ring, hi, e)
  {
    if hi > 0 {
      DownIsFold(ring, hi - 1, e);
      assert Comm(ring.red, Fold(ring, hi - 1, e), ring.pre(ring.input(hi, e)));
    }
  }

  lemma {:induction false} DownSplits<T(!new)>(ring: Ring<T>, hi: nat, mid: nat, lo: nat, e: int)
    requires Associative(ring.red) && lo < mid <= hi
    ensures ring.red(Down(ring, hi, mid, e), Down(ring, mid - 1, lo, e)) == Down(ring, hi, lo, e)
    decreases hi
  {
    if mid < hi {
      DownSplits(ring, hi - 1, mid, lo, e);
      assert Assoc(ring.red, ring.pre(ring.input(hi, e)), Down(ring, hi - 1, mid, e), Down(ring, mid - 1, lo, e));
    }
  }

  /** Before the last step a value combines a run of consecutive ranks around the ring. */
  lemma {:induction false} PartialValue<T(!new)>(ring: Ring<T>, r: nat, step: nat, e: int)
    requires ValidRing(ring) && r < ring.n && step < ring.n - 1 && Associative(ring.red)
    ensures Value(ring, r, step, e)
         == if step <= r then Down(ring, r, r - step, e)
            else ring.red(Down(ring, r, 0, e), Down(ring, ring.n - 1, r + ring.n - step, e))
    decreases step
  {
    if step > 0 {
      PartialValue(ring, Prev(ring.n, r), step - 1, e);
      if r > 0 && step > r {
        assert Assoc(ring.red, ring.pre(ring.input(r, e)), Down(ring, r - 1, 0, e),
                     Down(ring, ring.n - 1, r + ring.n - step, e));
      }
    }
  }

  /** The last reduction at rank c, given what its predecessor passes on. */
  lemma LastStep<T(!new)>(ring: Ring<T>, c: nat, e: int)
    requires ValidRing(ring) && c < ring.n && Associative(ring.red)
    ensures Value(ring, c, ring.n - 1, e) == ring.post(Around(ring, c, e))
  {
    var own, got := ring.pre(ring.input(c, e)), Value(ring, Prev(ring.n, c), ring.n - 2, e);
    assert Value(ring, c, ring.n - 1, e) == ring.post(ring.red(own, got));
    LastReceived(ring, c, e);
    if 0 < c < ring.n - 1 {
      assert Assoc(ring.red, own, Down(ring, c - 1, 0, e), Down(ring, ring.n - 1, c + 1, e));
    }
  }

  /** What the predecessor of rank c passes on for the last reduction: everything but c's own input. */
  lemma LastReceived<T(!new)>(ring: Ring<T>, c: nat, e: int)
    requires ValidRing(ring) && c < ring.n && Associative(ring.red)
    ensures Value(ring, Prev(ring.n, c), ring.n - 2, e)
         == if c == 0 then Down(ring, ring.n - 1, 1, e)
            else if c == ring.n - 1 then Down(ring, c - 1, 0, e)
            else ring.red(Down(ring, c - 1, 0, e), Down(ring, ring.n - 1, c + 1, e))
  {
    PartialValue(ring, Prev(ring.n, c), ring.n - 2, e);
  }

  /** Reduction of the inputs of ranks c, .., 0, n-1, .., c+1 in this order. */
  function Around<T>(ring: Ring<T>, c: nat, e: int): T
    requires c < ring.n
  {
    if c == ring.n - 1 then Down(ring, c, 0, e) else ring.red(Down(ring, c, 0, e), Down(ring, ring.n - 1, c + 1, e))
  }

  lemma BothParts<T(!new)>(ring: Ring<T>, c: nat, e: int)
    requires ValidRing(ring) && c < ring.n && Associative(ring.red) && Commutative(ring.red)
    ensures Around(ring, c, e) == Fold(ring, ring.n - 1, e)
  {
    if c < ring.n - 1 {
      DownSplits(ring, ring.n - 1, c + 1, 0, e);
      assert Comm(ring.red, Down(ring, c, 0, e), Down(ring, ring.n - 1, c + 1, e));
    }
    DownIsFold(ring, ring.n - 1, e);
  }

  /** For an associative and commutative operator the result is the reduction over all ranks in rank order,
      whichever chunk the element falls into. */
  lemma ResultIsFold<T(!new)>(ring: Ring<T>, c: nat, e: nat)
    requires ValidRing(ring) && c < ring.n && Associative(ring.red) && Commutative(ring.red)
    ensures Result(ring, c, e) == ring.post(Fold(ring, ring.n - 1, ring.gridOffset + e))
  {
    var i := ring.gridOffset + e;
    LastStep(ring, c, i);
    BothParts(ring, c, i);
  }
}
