/** Ring AllReduce in one buffer: each rank's input and output are the same. Every rank reads an element of its own for
    the last time before it stores a result there, so the ring does exactly what it does with separate buffers. */
module RingInPlace {
  import opened Arith
  import opened RingAllReduce

  /** The elements of a call lie in a buffer of the given length. */
  predicate InBuffer(c: Call, len: nat) {
    c.nelem > 0 ==> 0 <= c.offset && c.offset + c.nelem <= len
  }

  /** What a primitive computes when it reads its own input from the buffer. */
  function PayloadInPlace<T>(ring: Ring<T>, c: Call, buf: seq<T>, msg: seq<T>): (s: seq<T>)
    requires InBuffer(c, |buf|) && (Receives(c.kind) ==> |msg| == Max(0, c.nelem))
    ensures |s| == Max(0, c.nelem)
  {
    match c.kind
    case Send =>
      seq(Max(0, c.nelem), k requires 0 <= k < c.nelem && 0 <= c.offset && c.offset + c.nelem <= |buf| =>
        ring.pre(buf[c.offset + k]))
    case RecvReduceSend =>
      seq(Max(0, c.nelem), k requires 0 <= k < c.nelem == |msg| && 0 <= c.offset && c.offset + c.nelem <= |buf| =>
        ring.red(ring.pre(buf[c.offset + k]), msg[k]))
    case RecvReduceCopySend =>
      seq(Max(0, c.nelem), k requires 0 <= k < c.nelem == |msg| && 0 <= c.offset && c.offset + c.nelem <= |buf| =>
        ring.post(ring.red(ring.pre(buf[c.offset + k]), msg[k])))
    case RecvCopySend => msg
    case Recv => msg
  }

  /** Rank r executes its next call, on its one buffer. */
  function StepInPlace<T>(ring: Ring<T>, s: State<T>, r: nat): State<T>
    requires ring.n >= 2 && ring.perPack > 0 && r < ring.n
    requires |s.pc| == ring.n && |s.link| == ring.n && |s.out| == ring.n && Enabled(ring, s, r)
    requires var c := CallAt(ring, r, Where(ring.n, s.pc[r]));
             InBuffer(c, |s.out[r]|) && (Receives(c.kind) ==> |s.link[Prev(ring.n, r)][0]| == Max(0, c.nelem))
  {
    var c := CallAt(ring, r, Where(ring.n, s.pc[r]));
    var from := Prev(ring.n, r);
    Effect(ring.n, s, r, c, PayloadInPlace(ring, c, s.out[r], if Receives(c.kind) then s.link[from][0] else []))
  }

  /** The first p calls of rank r stored nothing at element e. */
  ghost predicate Unwritten<T>(ring: Ring<T>, r: nat, p: nat, e: nat)
    requires ring.n >= 2 && ring.perPack > 0 && r < ring.n
  {
    forall i: nat, c: nat {:trigger Stores(ring, r, i, c, e)} :: i < p && c < ring.n ==> !Stores(ring, r, i, c, e)
  }

  /** Where nothing was stored yet, the buffer still has the input. */
  ghost predicate Original<T>(ring: Ring<T>, r: nat, p: nat, buf: seq<T>)
    requires ring.n >= 2 && ring.perPack > 0 && r < ring.n && ring.gridOffset + ring.channelCount <= |buf|
  {
    forall e: nat {:trigger Unwritten(ring, r, p, e)} :: e < ring.channelCount && Unwritten(ring, r, p, e) ==>
      buf[ring.gridOffset + e] == ring.input(r, ring.gridOffset + e)
  }

  ghost predicate AllOriginal<T>(ring: Ring<T>, s: State<T>)
    requires ring.n >= 2 && ring.perPack > 0 && Shaped(ring, s)
  {
    forall r: nat {:trigger Original(ring, r, s.pc[r], s.out[r])} :: r < ring.n ==> Original(ring, r, s.pc[r], s.out[r])
  }

  /** Within an iteration the calls come in the order of their steps. */
  lemma {:induction false} WhereAscends(n: nat, i: nat, j: nat)
    requires n >= 2 && i < j
    ensures Before(Where(n, i), Where(n, j))
  {
    if i + 1 < j {
      WhereAscends(n, i, j - 1);
    }
  }

  /** A rank reads its own elements in steps 0 .. n-1 only, and what it stored before lies in other chunks or
      iterations. */
  lemma ReadBeforeWritten<T(!new)>(ring: Ring<T>, r: nat, p: nat, e: nat)
    requires ValidRing(ring) && r < ring.n && Where(ring.n, p).step <= ring.n - 1
    requires InChunk(ring, Where(ring.n, p).loop, ChunkAt(ring.n, r, Where(ring.n, p).step), e)
    ensures Unwritten(ring, r, p, e)
  {
    var w := Where(ring.n, p);
    forall i: nat, c: nat | i < p && c < ring.n ensures !Stores(ring, r, i, c, e) {
      if Stores(ring, r, i, c, e) {
        var v := Where(ring.n, i);
        ChunksDisjoint(ring, v.loop, c, w.loop, ChunkAt(ring.n, r, w.step), e);
        WhereAscends(ring.n, i, p);
      }
    }
  }

  /** The elements of a call belong to its chunk. */
  lemma CallElements<T(!new)>(ring: Ring<T>, r: nat, p: Place, k: nat)
    requires ValidRing(ring) && r < ring.n && p.step <= 2 * ring.n - 2 && HasLoop(ring, p.loop)
    requires k < CallAt(ring, r, p).nelem
    ensures
      var e := CallAt(ring, r, p).offset + k - ring.gridOffset;
      0 <= e < ring.channelCount && InChunk(ring, p.loop, ChunkAt(ring.n, r, p.step), e)
  {
    var c := ChunkAt(ring.n, r, p.step);
    var e := CallAt(ring, r, p).offset + k - ring.gridOffset;
    assert InChunk(ring, p.loop, c, e);
    ChunksDisjoint(ring, p.loop, c, p.loop, c, e);
  }

  lemma CallInBuffer<T(!new)>(ring: Ring<T>, r: nat, p: Place, len: nat)
    requires ValidRing(ring) && r < ring.n && p.step <= 2 * ring.n - 2 && HasLoop(ring, p.loop)
    requires ring.gridOffset + ring.channelCount <= len
    ensures InBuffer(CallAt(ring, r, p), len)
  {
    var n := CallAt(ring, r, p).nelem;
    if n > 0 {
      CallElements(ring, r, p, 0);
      CallElements(ring, r, p, n - 1);
    }
  }

  /** Reading from the buffer gives the input. */
  lemma SamePayload<T(!new)>(ring: Ring<T>, r: nat, p: nat, buf: seq<T>, msg: seq<T>)
    requires ValidRing(ring) && r < ring.n && HasLoop(ring, Where(ring.n, p).loop)
    requires ring.gridOffset + ring.channelCount <= |buf| && Original(ring, r, p, buf)
    requires Receives(CallAt(ring, r, Where(ring.n, p)).kind) ==>
               |msg| == Max(0, CallAt(ring, r, Where(ring.n, p)).nelem)
    ensures
      var c := CallAt(ring, r, Where(ring.n, p));
      InBuffer(c, |buf|) && PayloadInPlace(ring, c, buf, msg) == Payload(ring, r, c, msg)
  {
    var w := Where(ring.n, p);
    var c := CallAt(ring, r, w);
    CallInBuffer(ring, r, w, |buf|);
    if w.step <= ring.n - 1 {
      forall i | c.offset <= i < c.offset + c.nelem ensures 0 <= i < |buf| && buf[i] == ring.input(r, i) {
        CallElements(ring, r, w, i - c.offset);
        ReadBeforeWritten(ring, r, p, i - ring.gridOffset);
      }
    }
    EqualPayload(ring, r, c, buf, msg);
  }

  lemma EqualPayload<T(!new)>(ring: Ring<T>, r: nat, c: Call, buf: seq<T>, msg: seq<T>)
    requires InBuffer(c, |buf|) && (Receives(c.kind) ==> |msg| == Max(0, c.nelem))
    requires c.kind == RecvCopySend || c.kind == Recv
             || forall i :: c.offset <= i < c.offset + c.nelem ==> 0 <= i < |buf| && buf[i] == ring.input(r, i)
    ensures PayloadInPlace(ring, c, buf, msg) == Payload(ring, r, c, msg)
  {
  }

  lemma SameStep<T(!new)>(ring: Ring<T>, s: State<T>, r: nat)
    requires ValidRing(ring) && Inv(ring, s) && AllOriginal(ring, s) && r < ring.n && Enabled(ring, s, r)
    ensures
      var c := CallAt(ring, r, Where(ring.n, s.pc[r]));
      && (Receives(c.kind) ==> |s.link[Prev(ring.n, r)][0]| == Max(0, c.nelem))
      && InBuffer(c, |s.out[r]|) && StepInPlace(ring, s, r) == Step(ring, s, r)
  {
    StepDefined(ring, s, r);
    assert Original(ring, r, s.pc[r], s.out[r]);
    var c := CallAt(ring, r, Where(ring.n, s.pc[r]));
    SamePayload(ring, r, s.pc[r], s.out[r], if Receives(c.kind) then s.link[Prev(ring.n, r)][0] else []);
  }

  /** Storing a chunk touches no other element. */
  lemma StoreKeepsOriginal<T(!new)>(ring: Ring<T>, r: nat, p: nat, buf: seq<T>)
    requires ValidRing(ring) && r < ring.n && HasLoop(ring, Where(ring.n, p).loop)
    requires ring.gridOffset + ring.channelCount <= |buf| && Original(ring, r, p, buf)
    requires Writes(KindAt(ring.n, Where(ring.n, p).step))
    ensures Original(ring, r, p + 1,
                     Store(buf, CallAt(ring, r, Where(ring.n, p)).offset, Data(ring, r, Where(ring.n, p))))
  {
    var w, next := Where(ring.n, p), p + 1;
    var buf' := Store(buf, CallAt(ring, r, w).offset, Data(ring, r, w));
    forall e: nat | e < ring.channelCount && Unwritten(ring, r, next, e)
      ensures buf'[ring.gridOffset + e] == ring.input(r, ring.gridOffset + e)
    {
      LongerUnwritten(ring, r, p, e);
      assert !Stores(ring, r, p, ChunkAt(ring.n, r, w.step), e);
      NotStoredElement(ring, r, w, e);
    }
  }

  lemma LongerUnwritten<T(!new)>(ring: Ring<T>, r: nat, p: nat, e: nat)
    requires ValidRing(ring) && r < ring.n && Unwritten(ring, r, p + 1, e)
    ensures Unwritten(ring, r, p, e)
  {
  }

  lemma SkipKeepsOriginal<T(!new)>(ring: Ring<T>, r: nat, p: nat, buf: seq<T>)
    requires ValidRing(ring) && r < ring.n && ring.gridOffset + ring.channelCount <= |buf| && Original(ring, r, p, buf)
    ensures Original(ring, r, p + 1, buf)
  {
    var next := p + 1;
    forall e: nat | e < ring.channelCount && Unwritten(ring, r, next, e)
      ensures buf[ring.gridOffset + e] == ring.input(r, ring.gridOffset + e)
    {
      LongerUnwritten(ring, r, p, e);
    }
  }

  lemma CallKeepsOriginal<T(!new)>(ring: Ring<T>, r: nat, p: nat, buf: seq<T>, buf': seq<T>)
    requires ValidRing(ring) && r < ring.n && HasLoop(ring, Where(ring.n, p).loop)
    requires ring.gridOffset + ring.channelCount <= |buf| && Original(ring, r, p, buf)
    requires
      var w := Where(ring.n, p);
      buf' == if Writes(KindAt(ring.n, w.step)) then Store(buf, CallAt(ring, r, w).offset, Data(ring, r, w)) else buf
    ensures Original(ring, r, p + 1, buf')
  {
    if Writes(KindAt(ring.n, Where(ring.n, p).step)) {
      StoreKeepsOriginal(ring, r, p, buf);
    } else {
      SkipKeepsOriginal(ring, r, p, buf);
    }
  }

  /** A state t in which rank r has made its next call and the others have not moved. */
  ghost predicate Called<T>(ring: Ring<T>, s: State<T>, r: nat, t: State<T>)
    requires ring.n >= 2 && ring.perPack > 0 && r < ring.n && Shaped(ring, s) && Shaped(ring, t)
  {
    var w := Where(ring.n, s.pc[r]);
    && t.pc == s.pc[r := s.pc[r] + 1]
    && t.out[r]
       == (if Writes(KindAt(ring.n, w.step)) then Store(s.out[r], CallAt(ring, r, w).offset, Data(ring, r, w))
           else s.out[r])
    && forall q :: 0 <= q < ring.n && q != r ==> t.out[q] == s.out[q]
  }

  lemma CalledKeepsOriginal<T(!new)>(ring: Ring<T>, s: State<T>, r: nat, t: State<T>)
    requires ValidRing(ring) && r < ring.n && Shaped(ring, s) && Shaped(ring, t) && AllOriginal(ring, s)
    requires HasLoop(ring, Where(ring.n, s.pc[r]).loop) && Called(ring, s, r, t)
    ensures AllOriginal(ring, t)
  {
    assert Original(ring, r, s.pc[r], s.out[r]);
    CallKeepsOriginal(ring, r, s.pc[r], s.out[r], t.out[r]);
    forall q: nat | q < ring.n ensures Original(ring, q, t.pc[q], t.out[q]) {
      assert q != r ==> Original(ring, q, s.pc[q], s.out[q]);
    }
  }

  lemma TurnKeepsOriginal<T(!new)>(ring: Ring<T>, s: State<T>, r: nat)
    requires ValidRing(ring) && Inv(ring, s) && AllOriginal(ring, s) && r < ring.n && Enabled(ring, s, r)
    ensures AllOriginal(ring, Turn(ring, s, r))
  {
    StepDefined(ring, s, r);
    StepEffect(ring, s, r);
    CalledKeepsOriginal(ring, s, r, Turn(ring, s, r));
  }

  /** Rank r's turn on its one buffer is its turn on two. */
  ghost function TurnInPlace<T(!new)>(ring: Ring<T>, s: State<T>, r: nat): (t: State<T>)
    requires ValidRing(ring) && Inv(ring, s) && AllOriginal(ring, s) && r < ring.n
    ensures t == Turn(ring, s, r) && AllOriginal(ring, t)
  {
    if Enabled(ring, s, r) then
      SameStep(ring, s, r);
      TurnKeepsOriginal(ring, s, r);
      StepInPlace(ring, s, r)
    else s
  }

  /** Whole runs on one buffer per rank are runs on two. */
  ghost function ExecInPlace<T(!new)>(ring: Ring<T>, s: State<T>, schedule: seq<nat>): (t: State<T>)
    requires ValidRing(ring) && Inv(ring, s) && AllOriginal(ring, s) && ValidSchedule(ring.n, schedule)
    ensures t == Exec(ring, s, schedule)
    decreases schedule
  {
    if schedule == [] then s else ExecInPlace(ring, TurnInPlace(ring, s, schedule[0]), schedule[1..])
  }

  /** Each rank's buffer holds its input. */
  ghost predicate HoldsInputs<T>(ring: Ring<T>, bufs: seq<seq<T>>) {
    && |bufs| == ring.n
    && forall r, i :: 0 <= r < ring.n && ring.gridOffset <= i < ring.gridOffset + ring.channelCount ==>
         i < |bufs[r]| && bufs[r][i] == ring.input(r, i)
  }

  lemma StartInPlace<T(!new)>(ring: Ring<T>, bufs: seq<seq<T>>)
    requires ValidRing(ring) && Shaped(ring, Init(ring, bufs)) && HoldsInputs(ring, bufs)
    ensures Inv(ring, Init(ring, bufs)) && AllOriginal(ring, Init(ring, bufs))
  {
    InitInv(ring, bufs);
  }

  /** A whole run from the start, each rank with one buffer that holds its input. */
  ghost function RunInPlace<T(!new)>(ring: Ring<T>, bufs: seq<seq<T>>, schedule: seq<nat>): (t: State<T>)
    requires ValidRing(ring) && Shaped(ring, Init(ring, bufs)) && HoldsInputs(ring, bufs)
    requires ValidSchedule(ring.n, schedule)
    ensures t == Run(ring, bufs, schedule)
  {
    StartInPlace(ring, bufs);
    ExecInPlace(ring, Init(ring, bufs), schedule)
  }

  /** In place, too, all ranks end with the same value in every element, the result formed at one rank. */
  lemma AllRanksAgreeInPlace<T(!new)>(ring: Ring<T>, bufs: seq<seq<T>>, schedule: seq<nat>, r: nat, q: nat, e: nat)
    returns (L: nat, c: nat)
    requires ValidRing(ring) && Shaped(ring, Init(ring, bufs)) && HoldsInputs(ring, bufs)
    requires r < ring.n && q < ring.n && e < ring.channelCount
    requires ValidSchedule(ring.n, schedule) && AllDone(ring, RunInPlace(ring, bufs, schedule))
    ensures InChunk(ring, L, c, e)
    ensures var t := RunInPlace(ring, bufs, schedule);
            t.out[r][ring.gridOffset + e] == t.out[q][ring.gridOffset + e] == Result(ring, c, e)
  {
    L, c := AllRanksAgree(ring, bufs, schedule, r, q, e);
  }
}
