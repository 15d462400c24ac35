/** Copy-engine synchronization: before it goes on, every rank writes a flag to all others and waits until all others'
    flags have the expected value. Two arrays of flags alternate. A sync expects its sequence number, or, when it is
    captured in a graph, 1, and then clears the array again. */
module CeSync {

  const TWO32 := 0x1_0000_0000
  const GRAPH_SYNC_VALUE := 1

  /** What sync k writes and waits for. */
  function Value(graph: nat -> bool, k: nat): nat {
    if graph(k) then GRAPH_SYNC_VALUE else (k + 1) % TWO32
  }

  /** What the sync before it in the same array leaves there. */
  function Leftover(graph: nat -> bool, k: nat): nat {
    if k < 2 || graph(k - 2) then 0 else Value(graph, k - 2)
  }

  /** A sync that waits for what is already there. */
  predicate Collides(graph: nat -> bool, k: nat) {
    Value(graph, k) == Leftover(graph, k)
  }

  /** Exactly: a captured sync whose array still holds sequence number 1, or a sync whose sequence number has wrapped to
      0 and whose array is clear. */
  lemma CollidesWhen(graph: nat -> bool, k: nat)
    ensures Collides(graph, k) <==>
              k >= 2 && if graph(k) then !graph(k - 2) && (k - 1) % TWO32 == 1 else graph(k - 2) && (k + 1) % TWO32 == 0
  {
  }

  /** Never mixing the two modes is safe, for ever. */
  lemma PureModesNeverCollide(graph: nat -> bool, k: nat)
    requires (forall j :: graph(j)) || (forall j :: !graph(j))
    ensures !Collides(graph, k)
  {
  }

  /** Per rank: the syncs it has finished, whether it is inside the next one, and there how many flags it has written,
      awaited, and cleared; slots[a][r][q] is rank q's flag in array a of rank r. */
  datatype State = State(done: seq<nat>, begun: seq<bool>, written: seq<nat>, waited: seq<nat>, cleared: seq<nat>,
                         slots: seq<seq<seq<nat>>>)

  predicate Sized(n: nat, s: State) {
    && |s.done| == |s.begun| == |s.written| == |s.waited| == |s.cleared| == n && |s.slots| == 2
    && (forall a :: 0 <= a < 2 ==> |s.slots[a]| == n)
    && forall a, r :: 0 <= a < 2 && 0 <= r < n ==> |s.slots[a][r]| == n
  }

  function SetSlot(s: State, a: nat, r: nat, q: nat, v: nat): State
    requires a < |s.slots| && r < |s.slots[a]| && q < |s.slots[a][r]|
  {
    s.(slots := s.slots[a := s.slots[a][r := s.slots[a][r][q := v]]])
  }

  function Start(n: nat): State {
    State(seq(n, _ => 0), seq(n, _ => false), seq(n, _ => 0), seq(n, _ => 0), seq(n, _ => 0),
          seq(2, _ => seq(n, _ => seq(n, _ => 0))))
  }

  // ---------------------------------------------------------------- one rank's next operation

  predicate Writing(n: nat, s: State, r: nat)
    requires Sized(n, s) && r < n
  {
    s.begun[r] && s.written[r] < n
  }

  predicate Waiting(n: nat, s: State, r: nat)
    requires Sized(n, s) && r < n
  {
    s.begun[r] && s.written[r] >= n && s.waited[r] < n
  }

  predicate Clearing(n: nat, graph: nat -> bool, s: State, r: nat)
    requires Sized(n, s) && r < n
  {
    s.begun[r] && s.written[r] >= n && s.waited[r] >= n && graph(s.done[r]) && s.cleared[r] < n
  }

  predicate Leaving(n: nat, graph: nat -> bool, s: State, r: nat)
    requires Sized(n, s) && r < n
  {
    s.begun[r] && s.written[r] >= n && s.waited[r] >= n && !(graph(s.done[r]) && s.cleared[r] < n)
  }

  function Begin(n: nat, s: State, r: nat): State
    requires Sized(n, s) && r < n
  {
    s.(begun := s.begun[r := true], written := s.written[r := 0], waited := s.waited[r := 0],
       cleared := s.cleared[r := 0])
  }

  /** Writes the next peer's copy of the own flag. */
  function Write(n: nat, graph: nat -> bool, s: State, r: nat): State
    requires Sized(n, s) && r < n && Writing(n, s, r)
  {
    var q, k := s.written[r], s.done[r];
    (if q == r then s else SetSlot(s, k % 2, q, r, Value(graph, k))).(written := s.written[r := q + 1])
  }

  /** Whether the next awaited flag has the expected value. */
  predicate Passes(n: nat, graph: nat -> bool, s: State, r: nat)
    requires Sized(n, s) && r < n && Waiting(n, s, r)
  {
    s.waited[r] == r || s.slots[s.done[r] % 2][r][s.waited[r]] == Value(graph, s.done[r])
  }

  function Clear(n: nat, graph: nat -> bool, s: State, r: nat): State
    requires Sized(n, s) && r < n && Clearing(n, graph, s, r)
  {
    SetSlot(s, s.done[r] % 2, r, s.cleared[r], 0).(cleared := s.cleared[r := s.cleared[r] + 1])
  }

  function Leave(n: nat, s: State, r: nat): State
    requires Sized(n, s) && r < n
  {
    s.(done := s.done[r := s.done[r] + 1], begun := s.begun[r := false], written := s.written[r := 0],
       waited := s.waited[r := 0], cleared := s.cleared[r := 0])
  }

  /** Rank r's stream moves by one operation, if it can. */
  function Step(n: nat, graph: nat -> bool, s: State, r: nat): (s': State)
    requires Sized(n, s)
    ensures Sized(n, s')
  {
    if r >= n then s
    else if !s.begun[r] then Begin(n, s, r)
    else if Writing(n, s, r) then Write(n, graph, s, r)
    else if Waiting(n, s, r) then
      if Passes(n, graph, s, r) then s.(waited := s.waited[r := s.waited[r] + 1]) else s
    else if Clearing(n, graph, s, r) then Clear(n, graph, s, r)
    else Leave(n, s, r)
  }

  /** The state after the streams moved in the given order. */
  function Run(n: nat, graph: nat -> bool, schedule: seq<nat>): (s: State)
    ensures Sized(n, s)
  {
    if schedule == [] then Start(n)
    else Step(n, graph, Run(n, graph, schedule[..|schedule| - 1]), schedule[|schedule| - 1])
  }

  // ---------------------------------------------------------------- the barrier

  /** Rank q has begun sync k. */
  predicate Entered(n: nat, s: State, q: nat, k: nat)
    requires Sized(n, s) && q < n
  {
    s.done[q] > k || (s.done[q] == k && s.begun[q])
  }

  /** No rank has left a sync that some rank has not entered. */
  predicate BarrierHolds(n: nat, s: State)
    requires Sized(n, s)
  {
    forall r: nat, q: nat {:trigger HasWaitedFor(n, s, r, q)} :: r < n && q < n ==> HasWaitedFor(n, s, r, q)
  }

  predicate HasWaitedFor(n: nat, s: State, r: nat, q: nat)
    requires Sized(n, s) && r < n && q < n
  {
    s.done[r] > 0 ==> Entered(n, s, q, s.done[r] - 1)
  }

  /** q's flag of sync k is at r, or was. */
  predicate Wrote(n: nat, s: State, q: nat, r: nat, k: nat)
    requires Sized(n, s) && q < n
  {
    s.done[q] > k || (s.done[q] == k && s.begun[q] && s.written[q] > r)
  }

  predicate RankOk(n: nat, graph: nat -> bool, s: State, r: nat) {
    && Sized(n, s) && r < n && s.written[r] <= n && s.waited[r] <= n && s.cleared[r] <= n
    && (!s.begun[r] ==> s.written[r] == s.waited[r] == s.cleared[r] == 0)
    && (s.waited[r] > 0 ==> s.written[r] == n) && (s.cleared[r] > 0 ==> s.waited[r] == n && graph(s.done[r]))
  }

  /** What rank r finds in q's flag of its current sync's array. */
  function Present(n: nat, graph: nat -> bool, s: State, r: nat, q: nat): nat
    requires Sized(n, s) && r < n && q < n
  {
    var k := s.done[r];
    if Wrote(n, s, q, r, k) then (if s.begun[r] && s.cleared[r] > q then 0 else Value(graph, k)) else Leftover(graph, k)
  }

  /** What it finds in the other array, which the next sync uses. */
  function Upcoming(n: nat, graph: nat -> bool, s: State, r: nat, q: nat): nat
    requires Sized(n, s) && r < n && q < n
  {
    var k := s.done[r] + 1;
    if Wrote(n, s, q, r, k) then Value(graph, k) else Leftover(graph, k)
  }

  predicate PairOk(n: nat, graph: nat -> bool, s: State, r: nat, q: nat) {
    && Sized(n, s) && r < n && q < n
    && (s.done[q] > 0 ==> Wrote(n, s, r, q, s.done[q] - 1))
    && (s.begun[r] && s.waited[r] > q ==> Wrote(n, s, q, r, s.done[r]))
    && s.slots[s.done[r] % 2][r][q] == Present(n, graph, s, r, q)
    && s.slots[(s.done[r] + 1) % 2][r][q] == Upcoming(n, graph, s, r, q)
  }

  ghost predicate Inv(n: nat, graph: nat -> bool, s: State) {
    && Sized(n, s)
    && (forall r: nat {:trigger RankOk(n, graph, s, r)} :: r < n ==> RankOk(n, graph, s, r))
    && forall r: nat, q: nat {:trigger PairOk(n, graph, s, r, q)} :: r < n && q < n && r != q ==>
         PairOk(n, graph, s, r, q)
  }

  lemma StartOk(n: nat, graph: nat -> bool)
    ensures Inv(n, graph, Start(n))
  {
    var s := Start(n);
    forall r: nat | r < n ensures RankOk(n, graph, s, r) {
    }
    forall r: nat, q: nat | r < n && q < n && r != q ensures PairOk(n, graph, s, r, q) {
    }
  }

  lemma InvMeansBarrier(n: nat, graph: nat -> bool, s: State)
    requires Inv(n, graph, s)
    ensures BarrierHolds(n, s)
  {
    forall r: nat, q: nat | r < n && q < n ensures HasWaitedFor(n, s, r, q) {
      if r != q {
        assert PairOk(n, graph, s, q, r);
      }
    }
  }

  /** Once q's flag for r's current sync has arrived it stays until r's wait has passed it. */
  lemma FlagStays(n: nat, graph: nat -> bool, s: State, r: nat, q: nat)
    requires Inv(n, graph, s) && r < n && q < n && r != q && s.waited[r] <= q && Wrote(n, s, q, r, s.done[r])
    ensures s.slots[s.done[r] % 2][r][q] == Value(graph, s.done[r])
  {
    assert RankOk(n, graph, s, r) && PairOk(n, graph, s, r, q);
  }

  // ---------------------------------------------------------------- the steps keep the invariant

  lemma BeginKeeps(n: nat, graph: nat -> bool, s: State, m: nat)
    requires Inv(n, graph, s) && m < n && !s.begun[m]
    ensures Inv(n, graph, Begin(n, s, m))
  {
    var s' := Begin(n, s, m);
    assert RankOk(n, graph, s, m);
    forall r: nat | r < n ensures RankOk(n, graph, s', r) {
      assert RankOk(n, graph, s, r);
    }
    forall r: nat, q: nat | r < n && q < n && r != q ensures PairOk(n, graph, s', r, q) {
      assert PairOk(n, graph, s, r, q);
    }
  }

  lemma WriteKeeps(n: nat, graph: nat -> bool, s: State, m: nat)
    requires Inv(n, graph, s) && m < n && Writing(n, s, m)
    ensures Inv(n, graph, Write(n, graph, s, m))
  {
    var s' := Write(n, graph, s, m);
    assert RankOk(n, graph, s, m);
    forall r: nat | r < n ensures RankOk(n, graph, s', r) {
      assert RankOk(n, graph, s, r);
    }
    forall r: nat, q: nat | r < n && q < n && r != q ensures PairOk(n, graph, s', r, q) {
      assert PairOk(n, graph, s, r, q);
      if q == m && r == s.written[m] {
        assert PairOk(n, graph, s, q, r) && RankOk(n, graph, s, r);
        WriteReceiver(n, graph, s, m, r);
      } else {
        WriteOthers(n, graph, s, m, r, q);
      }
    }
  }

  /** The receiver is in the same sync, or one behind. */
  lemma WriteReceiver(n: nat, graph: nat -> bool, s: State, m: nat, r: nat)
    requires PairOk(n, graph, s, r, m) && PairOk(n, graph, s, m, r) && RankOk(n, graph, s, r) && RankOk(n, graph, s, m)
    requires m != r && Writing(n, s, m) && r == s.written[m]
    ensures PairOk(n, graph, Write(n, graph, s, m), r, m)
  {
    BothSlots(s.done[r]);
    WriteSlots(n, graph, s, m, s.done[r] % 2, r, m);
    WriteSlots(n, graph, s, m, (s.done[r] + 1) % 2, r, m);
  }

  lemma BothSlots(k: nat)
    ensures k % 2 != (k + 1) % 2 && k % 2 < 2 && (k + 1) % 2 < 2
  {
  }

  /** Only the flag at the receiver changes. */
  lemma WriteSlots(n: nat, graph: nat -> bool, s: State, m: nat, a: nat, r: nat, q: nat)
    requires Sized(n, s) && m < n && r < n && q < n && a < 2 && Writing(n, s, m)
    ensures Sized(n, Write(n, graph, s, m))
    ensures Write(n, graph, s, m).slots[a][r][q]
         == if a == s.done[m] % 2 && r == s.written[m] != m && q == m then Value(graph, s.done[m]) else s.slots[a][r][q]
  {
  }

  lemma ClearSlots(n: nat, graph: nat -> bool, s: State, m: nat, a: nat, r: nat, q: nat)
    requires Sized(n, s) && m < n && r < n && q < n && a < 2 && Clearing(n, graph, s, m)
    ensures Sized(n, Clear(n, graph, s, m))
    ensures Clear(n, graph, s, m).slots[a][r][q]
         == if a == s.done[m] % 2 && r == m && q == s.cleared[m] then 0 else s.slots[a][r][q]
  {
  }

  lemma WriteOthers(n: nat, graph: nat -> bool, s: State, m: nat, r: nat, q: nat)
    requires PairOk(n, graph, s, r, q) && m < n && r != q && Writing(n, s, m) && !(q == m && r == s.written[m])
    ensures PairOk(n, graph, Write(n, graph, s, m), r, q)
  {
    var s' := Write(n, graph, s, m);
    WriteSlots(n, graph, s, m, 0, r, q);
    WriteSlots(n, graph, s, m, 1, r, q);
    PairFrame(n, graph, s, s', r, q);
  }

  /** Writing elsewhere does not matter to r and q. */
  lemma PairFrame(n: nat, graph: nat -> bool, s: State, s': State, r: nat, q: nat)
    requires PairOk(n, graph, s, r, q) && Sized(n, s')
    requires s'.done == s.done && s'.begun == s.begun && s'.waited == s.waited && s'.cleared == s.cleared
    requires (s'.written[q] > r <==> s.written[q] > r) && s'.written[r] >= s.written[r]
    requires forall a :: 0 <= a < 2 ==> s'.slots[a][r][q] == s.slots[a][r][q]
    ensures PairOk(n, graph, s', r, q)
  {
  }

  /** A wait passes only because the flag was written, unless the sync collides with what was there. */
  lemma WaitKeeps(n: nat, graph: nat -> bool, s: State, m: nat)
    requires Inv(n, graph, s) && m < n && Waiting(n, s, m) && Passes(n, graph, s, m) && !Collides(graph, s.done[m])
    ensures Inv(n, graph, s.(waited := s.waited[m := s.waited[m] + 1]))
  {
    var s' := s.(waited := s.waited[m := s.waited[m] + 1]);
    assert RankOk(n, graph, s, m);
    forall r: nat | r < n ensures RankOk(n, graph, s', r) {
      assert RankOk(n, graph, s, r);
    }
    forall r: nat, q: nat | r < n && q < n && r != q ensures PairOk(n, graph, s', r, q) {
      assert PairOk(n, graph, s, r, q);
      WaitPair(n, graph, s, m, r, q);
    }
  }

  lemma WaitPair(n: nat, graph: nat -> bool, s: State, m: nat, r: nat, q: nat)
    requires PairOk(n, graph, s, r, q) && r != q && RankOk(n, graph, s, m)
    requires Waiting(n, s, m) && Passes(n, graph, s, m) && !Collides(graph, s.done[m])
    ensures PairOk(n, graph, s.(waited := s.waited[m := s.waited[m] + 1]), r, q)
  {
  }

  lemma ClearKeeps(n: nat, graph: nat -> bool, s: State, m: nat)
    requires Inv(n, graph, s) && m < n && Clearing(n, graph, s, m)
    ensures Inv(n, graph, Clear(n, graph, s, m))
  {
    var s' := Clear(n, graph, s, m);
    assert RankOk(n, graph, s, m);
    forall r: nat | r < n ensures RankOk(n, graph, s', r) {
      assert RankOk(n, graph, s, r);
    }
    forall r: nat, q: nat | r < n && q < n && r != q ensures PairOk(n, graph, s', r, q) {
      ClearPair(n, graph, s, m, r, q);
    }
  }

  lemma ClearPair(n: nat, graph: nat -> bool, s: State, m: nat, r: nat, q: nat)
    requires PairOk(n, graph, s, r, q) && RankOk(n, graph, s, m) && m < n && Clearing(n, graph, s, m)
    ensures PairOk(n, graph, Clear(n, graph, s, m), r, q)
  {
    BothSlots(s.done[r]);
    ClearSlots(n, graph, s, m, s.done[r] % 2, r, q);
    ClearSlots(n, graph, s, m, (s.done[r] + 1) % 2, r, q);
  }

  /** Leaving turns what is present into what the sync after the next will find. */
  lemma LeaveOwn(n: nat, graph: nat -> bool, s: State, m: nat, q: nat)
    requires Inv(n, graph, s) && m < n && q < n && q != m && Leaving(n, graph, s, m)
    ensures PairOk(n, graph, Leave(n, s, m), m, q)
  {
    assert RankOk(n, graph, s, m) && PairOk(n, graph, s, m, q);
    var k := s.done[m];
    assert (k + 2) % 2 == k % 2;
    assert Wrote(n, s, q, m, k) && s.done[q] <= k + 1;
    assert Leftover(graph, k + 2) == Present(n, graph, s, m, q);
  }

  lemma LeaveSource(n: nat, graph: nat -> bool, s: State, m: nat, r: nat)
    requires Inv(n, graph, s) && m < n && r < n && r != m && Leaving(n, graph, s, m)
    ensures PairOk(n, graph, Leave(n, s, m), r, m)
  {
    assert RankOk(n, graph, s, m) && PairOk(n, graph, s, r, m) && PairOk(n, graph, s, m, r);
    var s' := Leave(n, s, m);
    forall k: nat ensures Wrote(n, s', m, r, k) == Wrote(n, s, m, r, k) {
    }
  }

  lemma LeaveOthers(n: nat, graph: nat -> bool, s: State, m: nat, r: nat, q: nat)
    requires Inv(n, graph, s) && m < n && r < n && q < n && r != q && r != m && q != m && Leaving(n, graph, s, m)
    ensures PairOk(n, graph, Leave(n, s, m), r, q)
  {
    assert PairOk(n, graph, s, r, q);
  }

  lemma LeaveKeeps(n: nat, graph: nat -> bool, s: State, m: nat)
    requires Inv(n, graph, s) && m < n && Leaving(n, graph, s, m)
    ensures Inv(n, graph, Leave(n, s, m))
  {
    var s' := Leave(n, s, m);
    forall r: nat | r < n ensures RankOk(n, graph, s', r) {
      assert RankOk(n, graph, s, r);
    }
    forall r: nat, q: nat | r < n && q < n && r != q ensures PairOk(n, graph, s', r, q) {
      if r == m {
        LeaveOwn(n, graph, s, m, q);
      } else if q == m {
        LeaveSource(n, graph, s, m, r);
      } else {
        LeaveOthers(n, graph, s, m, r, q);
      }
    }
  }

  lemma StepKeeps(n: nat, graph: nat -> bool, s: State, m: nat)
    requires Inv(n, graph, s) && (m < n ==> !Collides(graph, s.done[m]))
    ensures Inv(n, graph, Step(n, graph, s, m))
  {
    if m >= n {
    } else if !s.begun[m] {
      BeginKeeps(n, graph, s, m);
    } else if Writing(n, s, m) {
      WriteKeeps(n, graph, s, m);
    } else if Waiting(n, s, m) {
      if Passes(n, graph, s, m) {
        WaitKeeps(n, graph, s, m);
      }
    } else if Clearing(n, graph, s, m) {
      ClearKeeps(n, graph, s, m);
    } else {
      LeaveKeeps(n, graph, s, m);
    }
  }

  lemma {:induction false} RunKeeps(n: nat, graph: nat -> bool, schedule: seq<nat>)
    requires forall k :: !Collides(graph, k)
    ensures Inv(n, graph, Run(n, graph, schedule))
  {
    if schedule == [] {
      StartOk(n, graph);
    } else {
      RunKeeps(n, graph, schedule[..|schedule| - 1]);
      StepKeeps(n, graph, Run(n, graph, schedule[..|schedule| - 1]), schedule[|schedule| - 1]);
    }
  }

  /** Without a colliding sync the barrier holds in every run. */
  lemma Safe(n: nat, graph: nat -> bool, schedule: seq<nat>)
    requires forall k :: !Collides(graph, k)
    ensures BarrierHolds(n, Run(n, graph, schedule))
  {
    RunKeeps(n, graph, schedule);
    InvMeansBarrier(n, graph, Run(n, graph, schedule));
  }

  // ---------------------------------------------------------------- a colliding sync breaks the barrier

  lemma RunSnoc(n: nat, graph: nat -> bool, schedule: seq<nat>, r: nat)
    ensures Run(n, graph, schedule + [r]) == Step(n, graph, Run(n, graph, schedule), r)
  {
    assert (schedule + [r])[..|schedule + [r]| - 1] == schedule;
  }

  /** Rank q did not move. */
  predicate Still(n: nat, s: State, s': State, q: nat) {
    && Sized(n, s) && Sized(n, s') && q < n && s'.done[q] == s.done[q] && s'.begun[q] == s.begun[q]
    && s'.written[q] == s.written[q] && s'.waited[q] == s.waited[q] && s'.cleared[q] == s.cleared[q]
  }

  /** Only rank r moves in its own step. */
  lemma StepStill(n: nat, graph: nat -> bool, s: State, r: nat, q: nat)
    requires Sized(n, s) && r < n && q < n && q != r
    ensures Still(n, s, Step(n, graph, s, r), q)
  {
  }

  predicate OthersStill(n: nat, s: State, s': State, r: nat) {
    forall q: nat {:trigger Still(n, s, s', q)} :: q < n && q != r ==> Still(n, s, s', q)
  }

  lemma StepOthers(n: nat, graph: nat -> bool, s0: State, s: State, r: nat)
    requires Sized(n, s) && r < n && OthersStill(n, s0, s, r)
    ensures OthersStill(n, s0, Step(n, graph, s, r), r)
  {
    forall q: nat | q < n && q != r ensures Still(n, s0, Step(n, graph, s, r), q) {
      StepStill(n, graph, s, r, q);
      assert Still(n, s0, s, q);
    }
  }

  /** Lets rank r begin a sync and write its flags. */
  lemma GoWrite(n: nat, graph: nat -> bool, schedule: seq<nat>, r: nat) returns (schedule': seq<nat>)
    requires r < n && Inv(n, graph, Run(n, graph, schedule)) && !Run(n, graph, schedule).begun[r]
    ensures
      var s, s' := Run(n, graph, schedule), Run(n, graph, schedule');
      && Inv(n, graph, s') && OthersStill(n, s, s', r)
      && s'.begun[r] && s'.done[r] == s.done[r] && s'.written[r] == n && s'.waited[r] == s'.cleared[r] == 0
  {
    var s0 := Run(n, graph, schedule);
    schedule' := schedule + [r];
    RunSnoc(n, graph, schedule, r);
    BeginKeeps(n, graph, s0, r);
    StepOthers(n, graph, s0, s0, r);
    var s := Run(n, graph, schedule');
    while s.written[r] < n
      invariant s == Run(n, graph, schedule') && Inv(n, graph, s) && OthersStill(n, s0, s, r)
      invariant s.begun[r] && s.done[r] == s0.done[r] && s.written[r] <= n && s.waited[r] == s.cleared[r] == 0
      decreases n - s.written[r]
    {
      RunSnoc(n, graph, schedule', r);
      WriteKeeps(n, graph, s, r);
      StepOthers(n, graph, s0, s, r);
      schedule' := schedule' + [r];
      s := Run(n, graph, schedule');
    }
  }

  /** Rank r sees in all flags what it waits for. */
  predicate AllThere(n: nat, graph: nat -> bool, s: State, r: nat) {
    && Sized(n, s) && r < n
    && forall q :: 0 <= q < n && q != r ==> s.slots[s.done[r] % 2][r][q] == Value(graph, s.done[r])
  }

  lemma GoWait(n: nat, graph: nat -> bool, schedule: seq<nat>, r: nat) returns (schedule': seq<nat>)
    requires
      var s := Run(n, graph, schedule);
      r < n && s.begun[r] && s.written[r] == n && s.waited[r] == s.cleared[r] == 0 && AllThere(n, graph, s, r)
    ensures
      var s, s' := Run(n, graph, schedule), Run(n, graph, schedule');
      && OthersStill(n, s, s', r) && s'.begun[r] && s'.done[r] == s.done[r] && s'.written[r] == s'.waited[r] == n
      && s'.cleared[r] == 0
      && (Inv(n, graph, s) && !Collides(graph, s.done[r]) ==> Inv(n, graph, s'))
  {
    var s0 := Run(n, graph, schedule);
    schedule' := schedule;
    var s := s0;
    while s.waited[r] < n
      invariant s == Run(n, graph, schedule') && OthersStill(n, s0, s, r) && s.slots == s0.slots
      invariant s.begun[r] && s.done[r] == s0.done[r] && s.written[r] == n && s.waited[r] <= n && s.cleared[r] == 0
      invariant Inv(n, graph, s0) && !Collides(graph, s0.done[r]) ==> Inv(n, graph, s)
      decreases n - s.waited[r]
    {
      RunSnoc(n, graph, schedule', r);
      StepOthers(n, graph, s0, s, r);
      if Inv(n, graph, s) && !Collides(graph, s.done[r]) {
        StepKeeps(n, graph, s, r);
      }
      schedule' := schedule' + [r];
      s := Run(n, graph, schedule');
    }
  }

  lemma GoClearAndLeave(n: nat, graph: nat -> bool, schedule: seq<nat>, r: nat) returns (schedule': seq<nat>)
    requires
      var s := Run(n, graph, schedule);
      r < n && s.begun[r] && s.written[r] == s.waited[r] == n && s.cleared[r] == 0
    ensures
      var s, s' := Run(n, graph, schedule), Run(n, graph, schedule');
      && OthersStill(n, s, s', r) && !s'.begun[r] && s'.done[r] == s.done[r] + 1
      && (Inv(n, graph, s) && !Collides(graph, s.done[r]) ==> Inv(n, graph, s'))
  {
    var s0 := Run(n, graph, schedule);
    schedule' := schedule;
    var s := s0;
    while graph(s.done[r]) && s.cleared[r] < n
      invariant s == Run(n, graph, schedule') && OthersStill(n, s0, s, r)
      invariant s.begun[r] && s.done[r] == s0.done[r] && s.written[r] == s.waited[r] == n
      invariant Inv(n, graph, s0) && !Collides(graph, s0.done[r]) ==> Inv(n, graph, s)
      decreases n - s.cleared[r]
    {
      RunSnoc(n, graph, schedule', r);
      StepOthers(n, graph, s0, s, r);
      if Inv(n, graph, s) {
        ClearKeeps(n, graph, s, r);
      }
      schedule' := schedule' + [r];
      s := Run(n, graph, schedule');
    }
    RunSnoc(n, graph, schedule', r);
    StepOthers(n, graph, s0, s, r);
    if Inv(n, graph, s) {
      LeaveKeeps(n, graph, s, r);
    }
    schedule' := schedule' + [r];
  }

  /** All ranks have finished k syncs and none has begun the next. */
  predicate Between(n: nat, s: State, k: nat) {
    Sized(n, s) && forall q :: 0 <= q < n ==> s.done[q] == k && !s.begun[q]
  }

  /** In sync k, the ranks below m have written their flags, the others have not begun. */
  predicate Written(n: nat, s: State, k: nat, m: nat) {
    && Sized(n, s) && m <= n && (forall q :: 0 <= q < n ==> s.done[q] == k)
    && (forall q :: 0 <= q < m ==> s.begun[q] && s.written[q] == n && s.waited[q] == s.cleared[q] == 0)
    && forall q :: m <= q < n ==> !s.begun[q]
  }

  /** The ranks below m have left sync k, the others have written their flags for it. */
  predicate Left(n: nat, s: State, k: nat, m: nat) {
    && Sized(n, s) && m <= n && (forall q :: 0 <= q < m ==> s.done[q] == k + 1 && !s.begun[q])
    && forall q :: m <= q < n ==> s.done[q] == k && s.begun[q] && s.written[q] == n && s.waited[q] == s.cleared[q] == 0
  }

  lemma GoWriteAll(n: nat, graph: nat -> bool, schedule: seq<nat>, k: nat) returns (schedule': seq<nat>)
    requires Inv(n, graph, Run(n, graph, schedule)) && Between(n, Run(n, graph, schedule), k)
    ensures Inv(n, graph, Run(n, graph, schedule')) && Written(n, Run(n, graph, schedule'), k, n)
  {
    schedule' := schedule;
    var m := 0;
    while m < n
      invariant m <= n && Inv(n, graph, Run(n, graph, schedule')) && Written(n, Run(n, graph, schedule'), k, m)
    {
      var s := Run(n, graph, schedule');
      schedule' := GoWrite(n, graph, schedule', m);
      WrittenOneMore(n, s, Run(n, graph, schedule'), k, m);
      m := m + 1;
    }
  }

  lemma WrittenOneMore(n: nat, s: State, s': State, k: nat, m: nat)
    requires Written(n, s, k, m) && m < n && OthersStill(n, s, s', m) && Sized(n, s')
    requires s'.begun[m] && s'.done[m] == s.done[m] && s'.written[m] == n && s'.waited[m] == s'.cleared[m] == 0
    ensures Written(n, s', k, m + 1)
  {
    forall q | 0 <= q < n && q != m
      ensures s'.done[q] == s.done[q] && s'.begun[q] == s.begun[q] && s'.written[q] == s.written[q]
      ensures s'.waited[q] == s.waited[q]
              && s'.cleared[q] == s.cleared[q]
    {
      assert Still(n, s, s', q);
    }
  }

  lemma LeftOneMore(n: nat, s: State, s': State, k: nat, m: nat)
    requires Left(n, s, k, m) && m < n && OthersStill(n, s, s', m) && Sized(n, s')
    requires !s'.begun[m] && s'.done[m] == s.done[m] + 1
    ensures Left(n, s', k, m + 1)
  {
    forall q | 0 <= q < n && q != m
      ensures s'.done[q] == s.done[q] && s'.begun[q] == s.begun[q] && s'.written[q] == s.written[q]
      ensures s'.waited[q] == s.waited[q]
              && s'.cleared[q] == s.cleared[q]
    {
      assert Still(n, s, s', q);
    }
  }

  lemma OthersStillTrans(n: nat, s: State, s1: State, s2: State, r: nat)
    requires OthersStill(n, s, s1, r) && OthersStill(n, s1, s2, r)
    ensures OthersStill(n, s, s2, r)
  {
    forall q: nat | q < n && q != r ensures Still(n, s, s2, q) {
      assert Still(n, s, s1, q) && Still(n, s1, s2, q);
    }
  }

  /** When all have written, rank m finds all flags. */
  lemma FlagsThere(n: nat, graph: nat -> bool, s: State, k: nat, m: nat)
    requires Inv(n, graph, s) && Left(n, s, k, m) && m < n
    ensures AllThere(n, graph, s, m)
  {
    forall q: nat | q < n && q != m ensures s.slots[k % 2][m][q] == Value(graph, k) {
      assert PairOk(n, graph, s, m, q);
    }
  }

  lemma GoLeaveAll(n: nat, graph: nat -> bool, schedule: seq<nat>, k: nat) returns (schedule': seq<nat>)
    requires Inv(n, graph, Run(n, graph, schedule)) && Written(n, Run(n, graph, schedule), k, n) && !Collides(graph, k)
    ensures Inv(n, graph, Run(n, graph, schedule')) && Between(n, Run(n, graph, schedule'), k + 1)
  {
    schedule' := schedule;
    var m := 0;
    while m < n
      invariant m <= n && Inv(n, graph, Run(n, graph, schedule')) && Left(n, Run(n, graph, schedule'), k, m)
    {
      var s := Run(n, graph, schedule');
      FlagsThere(n, graph, s, k, m);
      var waiting := GoWait(n, graph, schedule', m);
      schedule' := GoClearAndLeave(n, graph, waiting, m);
      OthersStillTrans(n, s, Run(n, graph, waiting), Run(n, graph, schedule'), m);
      LeftOneMore(n, s, Run(n, graph, schedule'), k, m);
      m := m + 1;
    }
  }

  /** Up to the first colliding sync the ranks can go in step. */
  lemma {:induction false} Reach(n: nat, graph: nat -> bool, k: nat) returns (schedule: seq<nat>)
    requires forall j :: 0 <= j < k ==> !Collides(graph, j)
    ensures Inv(n, graph, Run(n, graph, schedule)) && Between(n, Run(n, graph, schedule), k)
  {
    if k == 0 {
      schedule := [];
      StartOk(n, graph);
    } else {
      schedule := Reach(n, graph, k - 1);
      schedule := GoWriteAll(n, graph, schedule, k - 1);
      schedule := GoLeaveAll(n, graph, schedule, k - 1);
    }
  }

  /** At the first colliding sync rank 0 gets through alone. */
  lemma {:induction false} Breaks(n: nat, graph: nat -> bool, k: nat) returns (schedule: seq<nat>)
    requires n >= 2 && Collides(graph, k)
    ensures !BarrierHolds(n, Run(n, graph, schedule))
    decreases k
  {
    if j: nat :| j < k && Collides(graph, j) {
      schedule := Breaks(n, graph, j);
    } else {
      schedule := Reach(n, graph, k);
      var s := Run(n, graph, schedule);
      var wrote := GoWrite(n, graph, schedule, 0);
      var s1 := Run(n, graph, wrote);
      assert Still(n, s, s1, 1);
      forall q: nat | q < n && q != 0 ensures s1.slots[k % 2][0][q] == Value(graph, k) {
        assert Still(n, s, s1, q) && PairOk(n, graph, s1, 0, q);
      }
      var waited := GoWait(n, graph, wrote, 0);
      var s2 := Run(n, graph, waited);
      assert Still(n, s1, s2, 1);
      schedule := GoClearAndLeave(n, graph, waited, 0);
      var s3 := Run(n, graph, schedule);
      assert Still(n, s2, s3, 1);
      assert !HasWaitedFor(n, s3, 0, 1);
    }
  }

  /** Two or more ranks that make the same sequence of syncs are kept together in every run if and only if no sync waits
      for what the one before it in the same array left there. */
  lemma SafeExactly(n: nat, graph: nat -> bool)
    requires n >= 2
    ensures (forall schedule :: BarrierHolds(n, Run(n, graph, schedule))) <==> (forall k :: !Collides(graph, k))
  {
    if forall k :: !Collides(graph, k) {
      forall schedule ensures BarrierHolds(n, Run(n, graph, schedule)) {
        Safe(n, graph, schedule);
      }
    } else {
      var k: nat :| Collides(graph, k);
      var schedule := Breaks(n, graph, k);
    }
  }

  /** The shortest such mixture: an ordinary sync, any sync, then a captured one. */
  lemma MixtureBreaks(graph: nat -> bool)
    requires !graph(0) && graph(2)
    ensures exists schedule :: !BarrierHolds(2, Run(2, graph, schedule))
  {
    var schedule := Breaks(2, graph, 2);
  }
}
