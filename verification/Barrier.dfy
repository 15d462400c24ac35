/** The dissemination barrier: in round i every rank sends to the rank 2^i ahead and waits for the one 2^i behind. Any
    number of barriers follow each other with the same tag; messages of one peer are accepted in the order they were
    sent. */
module Barrier {
  import opened Arith
  import opened Runs

  /** The rank that is waited for, and the one that is sent to, as the code computes them. */
  function Src(rank: nat, mask: nat, n: nat): int
    requires n > 0
  {
    (rank - mask + n) % n
  }

  function Dst(rank: nat, mask: nat, n: nat): int
    requires n > 0
  {
    (rank + mask) % n
  }

  /** k ranks behind r. */
  function Behind(r: nat, k: nat, n: nat): int {
    if k <= r then r - k else r - k + n
  }

  lemma Peers(r: nat, k: nat, n: nat)
    requires r < n && k < n
    ensures Src(r, k, n) == Behind(r, k, n) && 0 <= Behind(r, k, n) < n
    ensures 0 <= Dst(r, k, n) < n && Behind(Dst(r, k, n), k, n) == r
    ensures forall q: nat :: q < n && Behind(q, k, n) == r ==> q == Dst(r, k, n)
  {
    Reduce(r - k + n, n);
    Reduce(r + k, n);
  }

  lemma Reduce(x: int, n: nat)
    requires 0 <= x < 2 * n
    ensures x % n == if x < n then x else x - n
  {
    if x >= n {
      MulDivMod(1, n, x - n);
    }
  }

  /** Going back k and then j ranks. */
  lemma BehindAdds(r: nat, k: nat, j: nat, n: nat)
    requires r < n && k < n && j < n
    ensures 0 <= Behind(r, k, n) < n
    ensures k + j < n ==> Behind(Behind(r, k, n), j, n) == Behind(r, k + j, n)
  {
  }

  lemma {:induction false} Pow2Grows(i: nat, j: nat)
    requires i < j
    ensures Pow2(i) < Pow2(j)
  {
    if i + 1 < j {
      Pow2Grows(i, j - 1);
    }
  }

  /** Different rounds have different peers, so a connection's peer tells its round. */
  lemma RoundOfPeer(r: nat, i: nat, j: nat, n: nat)
    requires r < n && Pow2(i) < n && Pow2(j) < n && Behind(r, Pow2(i), n) == Behind(r, Pow2(j), n)
    ensures i == j
  {
    if i < j {
      Pow2Grows(i, j);
    } else if j < i {
      Pow2Grows(j, i);
    }
  }

  /** Per rank: the barriers it has returned from; whether it is inside the next one, and there its finished rounds, its
      mask and the messages it has sent. queue[r][s] holds the messages from s that r has not taken yet; a message is
      the number of the barrier it was sent in, which the receiver does not look at. */
  datatype State = State(done: seq<nat>, begun: seq<bool>, rounds: seq<nat>, mask: seq<nat>, sent: seq<nat>,
                         queue: seq<seq<seq<nat>>>)

  predicate Sized(n: nat, b: State) {
    && n > 0 && |b.done| == |b.begun| == |b.rounds| == |b.mask| == |b.sent| == |b.queue| == n
    && forall r :: 0 <= r < n ==> |b.queue[r]| == n
  }

  /** Rank q has entered barrier e. */
  predicate Entered(b: State, q: int, e: nat) {
    0 <= q < |b.done| && q < |b.begun| && (b.done[q] > e || (b.done[q] == e && b.begun[q]))
  }

  /** Messages that rank r has taken in round i of all its barriers, and messages that rank s has sent in it. */
  function Got(b: State, r: nat, i: nat): nat
    requires r < |b.done| && r < |b.rounds|
  {
    b.done[r] + if b.rounds[r] > i then 1 else 0
  }

  function Sent(b: State, s: nat, i: nat): nat
    requires s < |b.done| && s < |b.sent|
  {
    b.done[s] + if b.sent[s] > i then 1 else 0
  }

  function Span(lo: nat, hi: nat): (s: seq<nat>)
    requires lo <= hi
    ensures |s| == hi - lo && forall j :: 0 <= j < hi - lo ==> s[j] == lo + j
  {
    seq(hi - lo, j requires 0 <= j => lo + j)
  }

  ghost predicate RankOk(n: nat, b: State, r: nat) {
    && Sized(n, b) && r < n && b.mask[r] == Pow2(b.rounds[r])
    && b.rounds[r] <= b.sent[r] <= b.rounds[r] + 1 && (b.sent[r] > b.rounds[r] ==> b.mask[r] < n)
    && (!b.begun[r] ==> b.rounds[r] == b.sent[r] == 0)
  }

  /** Inside a barrier, rank r knows that the last mask ranks have entered it. */
  ghost predicate Knows(n: nat, b: State, r: nat) {
    && Sized(n, b) && r < n
    && (b.begun[r] ==>
          forall j: nat {:trigger Behind(r, j, n)} :: j < n && j < b.mask[r] ==>
            Entered(b, Behind(r, j, n), b.done[r]))
  }

  /** All ranks have entered every barrier that rank r has returned from. */
  ghost predicate Synced(n: nat, b: State, r: nat) {
    && Sized(n, b) && r < n
    && forall q: nat, e: nat {:trigger Entered(b, q, e)} :: q < n && e < b.done[r] ==> Entered(b, q, e)
  }

  /** What waits at r from its peer of round i: one message for each barrier in which the peer has sent and r has not
      received, in order. */
  ghost predicate QueueOk(n: nat, b: State, r: nat, i: nat) {
    Sized(n, b) && r < n &&
    (Pow2(i) < n ==>
       var s := Behind(r, Pow2(i), n);
       0 <= s < n && Got(b, r, i) <= Sent(b, s, i) && b.queue[r][s] == Span(Got(b, r, i), Sent(b, s, i)))
  }

  ghost predicate Inv(n: nat, b: State) {
    && Sized(n, b)
    && (forall r: nat {:trigger RankOk(n, b, r)} :: r < n ==> RankOk(n, b, r))
    && (forall r: nat {:trigger Knows(n, b, r)} :: r < n ==> Knows(n, b, r))
    && (forall r: nat {:trigger Synced(n, b, r)} :: r < n ==> Synced(n, b, r))
    && forall r: nat, i: nat {:trigger QueueOk(n, b, r, i)} :: r < n ==> QueueOk(n, b, r, i)
  }

  function Start(n: nat): State {
    State(seq(n, _ => 0), seq(n, _ => false), seq(n, _ => 0), seq(n, _ => 1), seq(n, _ => 0),
          seq(n, _ => seq(n, _ => [])))
  }

  lemma StartOk(n: nat)
    requires n > 0
    ensures Inv(n, Start(n))
  {
    forall r: nat, i: nat | r < n ensures QueueOk(n, Start(n), r, i) {
      if Pow2(i) < n {
        Peers(r, Pow2(i), n);
      }
    }
  }

  // ---------------------------------------------------------------- steps

  predicate CanSend(n: nat, b: State, r: nat)
    requires Sized(n, b) && r < n
  {
    b.begun[r] && b.mask[r] < n && b.sent[r] == b.rounds[r]
  }

  predicate CanRecv(n: nat, b: State, r: nat)
    requires Sized(n, b) && r < n
  {
    b.begun[r] && b.sent[r] == b.rounds[r] + 1 && 0 <= Src(r, b.mask[r], n) < n
    && b.queue[r][Src(r, b.mask[r], n)] != []
  }

  predicate CanReturn(n: nat, b: State, r: nat)
    requires Sized(n, b) && r < n
  {
    b.begun[r] && b.mask[r] >= n
  }

  function Enter(b: State, r: nat): State
    requires r < |b.begun|
  {
    b.(begun := b.begun[r := true])
  }

  function SetQueue(b: State, r: nat, s: nat, q: seq<nat>): State
    requires r < |b.queue| && s < |b.queue[r]|
  {
    b.(queue := b.queue[r := b.queue[r][s := q]])
  }

  function Send(n: nat, b: State, r: nat): State
    requires Sized(n, b) && r < n && 0 <= Dst(r, b.mask[r], n) < n
  {
    var dst := Dst(r, b.mask[r], n);
    SetQueue(b, dst, r, b.queue[dst][r] + [b.done[r]]).(sent := b.sent[r := b.sent[r] + 1])
  }

  function Recv(n: nat, b: State, r: nat): State
    requires Sized(n, b) && r < n && CanRecv(n, b, r)
  {
    var src := Src(r, b.mask[r], n);
    SetQueue(b, r, src, b.queue[r][src][1..]).(rounds := b.rounds[r := b.rounds[r] + 1],
                                               mask := b.mask[r := b.mask[r] * 2])
  }

  function Return(n: nat, b: State, r: nat): State
    requires Sized(n, b) && r < n
  {
    b.(done := b.done[r := b.done[r] + 1], begun := b.begun[r := false], rounds := b.rounds[r := 0],
       mask := b.mask[r := 1], sent := b.sent[r := 0])
  }

  /** What was entered stays entered. */
  ghost predicate Onward(n: nat, b: State, b': State) {
    Sized(n, b) && Sized(n, b') && forall q, e: nat {:trigger Entered(b', q, e)} :: Entered(b, q, e) ==>
      Entered(b', q, e)
  }

  lemma KnowsStays(n: nat, b: State, b': State, r: nat)
    requires Knows(n, b, r) && Onward(n, b, b') && b'.begun[r] == b.begun[r] && b'.mask[r] == b.mask[r]
    requires b'.done[r] == b.done[r]
    ensures Knows(n, b', r)
  {
    forall j: nat | b'.begun[r] && j < n && j < b'.mask[r] ensures Entered(b', Behind(r, j, n), b'.done[r]) {
      assert Entered(b, Behind(r, j, n), b.done[r]);
    }
  }

  lemma SyncedStays(n: nat, b: State, b': State, r: nat)
    requires Synced(n, b, r) && Onward(n, b, b') && b'.done[r] == b.done[r]
    ensures Synced(n, b', r)
  {
    forall q: nat, e: nat | q < n && e < b'.done[r] ensures Entered(b', q, e) {
      assert Entered(b, q, e);
    }
  }

  lemma EnterKeeps(n: nat, b: State, r: nat)
    requires Inv(n, b) && r < n && !b.begun[r]
    ensures Inv(n, Enter(b, r))
  {
    var b' := Enter(b, r);
    assert Onward(n, b, b');
    forall q: nat | q < n ensures RankOk(n, b', q) && Knows(n, b', q) && Synced(n, b', q) {
      assert RankOk(n, b, q) && Knows(n, b, q);
      SyncedStays(n, b, b', q);
      if q != r {
        KnowsStays(n, b, b', q);
      }
    }
    forall q: nat, i: nat | q < n ensures QueueOk(n, b', q, i) {
      assert QueueOk(n, b, q, i);
    }
  }

  /** The message sent is for the receiver's queue of that round, and for no other. */
  lemma SendQueue(n: nat, b: State, r: nat, q: nat, i: nat)
    requires Inv(n, b) && r < n && q < n && CanSend(n, b, r)
    ensures 0 <= Dst(r, b.mask[r], n) < n && QueueOk(n, Send(n, b, r), q, i)
  {
    assert RankOk(n, b, r) && QueueOk(n, b, q, i);
    Peers(r, b.mask[r], n);
    var b', dst, k := Send(n, b, r), Dst(r, b.mask[r], n), b.rounds[r];
    if Pow2(i) < n && Behind(q, Pow2(i), n) == r {
      if i == k {
        assert q == dst;
        assert Span(Got(b, q, i), Sent(b, r, i)) + [b.done[r]] == Span(Got(b, q, i), Sent(b, r, i) + 1);
      } else if q == dst {
        RoundOfPeer(q, i, k, n);
      }
    }
  }

  lemma SendKeeps(n: nat, b: State, r: nat)
    requires Inv(n, b) && r < n && CanSend(n, b, r)
    ensures 0 <= Dst(r, b.mask[r], n) < n && Inv(n, Send(n, b, r))
  {
    assert RankOk(n, b, r);
    Peers(r, b.mask[r], n);
    var b' := Send(n, b, r);
    assert Onward(n, b, b');
    forall q: nat | q < n ensures RankOk(n, b', q) && Knows(n, b', q) && Synced(n, b', q) {
      assert RankOk(n, b, q);
      SyncedStays(n, b, b', q);
      KnowsStays(n, b, b', q);
    }
    forall q: nat, i: nat | q < n ensures QueueOk(n, b', q, i) {
      SendQueue(n, b, r, q, i);
    }
  }

  /** The message that is taken was sent in the receiver's present barrier and round, so its sender knew of 2^round
      ranks that had entered that barrier. */
  lemma RecvFacts(n: nat, b: State, r: nat)
    requires Inv(n, b) && r < n && CanRecv(n, b, r)
    ensures b.mask[r] == Pow2(b.rounds[r]) < n && Src(r, b.mask[r], n) == Behind(r, b.mask[r], n)
    ensures
      var s := Behind(r, b.mask[r], n);
      && 0 <= s < n && b.queue[r][s] != [] && b.queue[r][s][0] == b.done[r] && Sent(b, s, b.rounds[r]) > b.done[r]
      && (b.done[s] > b.done[r] || (b.done[s] == b.done[r] && b.begun[s] && b.mask[s] >= b.mask[r]))
  {
    assert RankOk(n, b, r) && QueueOk(n, b, r, b.rounds[r]);
    Peers(r, b.mask[r], n);
    var s, k := Behind(r, b.mask[r], n), b.rounds[r];
    assert RankOk(n, b, s);
    if k < b.rounds[s] {
      Pow2Grows(k, b.rounds[s]);
    }
  }

  /** After round i a rank knows of the last 2^(i+1) ranks. */
  lemma RecvCovers(n: nat, b: State, r: nat, j: nat)
    requires Inv(n, b) && r < n && CanRecv(n, b, r) && j < n && j < b.mask[r] * 2
    ensures Entered(b, Behind(r, j, n), b.done[r])
  {
    RecvFacts(n, b, r);
    assert Knows(n, b, r);
    if j < b.mask[r] {
      assert Entered(b, Behind(r, j, n), b.done[r]);
    } else {
      var s, d: nat := Behind(r, b.mask[r], n), j - b.mask[r];
      BehindAdds(r, b.mask[r], d, n);
      if b.done[s] > b.done[r] {
        assert Synced(n, b, s);
        assert Entered(b, Behind(r, j, n), b.done[r]);
      } else {
        assert Knows(n, b, s);
        assert Entered(b, Behind(s, d, n), b.done[s]);
      }
    }
  }

  lemma RecvQueue(n: nat, b: State, r: nat, q: nat, i: nat)
    requires Inv(n, b) && r < n && q < n && CanRecv(n, b, r)
    ensures QueueOk(n, Recv(n, b, r), q, i)
  {
    RecvFacts(n, b, r);
    assert QueueOk(n, b, q, i);
    var b', k, s := Recv(n, b, r), b.rounds[r], Behind(r, b.mask[r], n);
    if q == r && Pow2(i) < n {
      if i == k {
        assert Span(Got(b, r, k), Sent(b, s, k))[1..] == Span(Got(b, r, k) + 1, Sent(b, s, k));
      } else if Behind(r, Pow2(i), n) == s {
        RoundOfPeer(r, i, k, n);
      }
    }
  }

  lemma RecvKeeps(n: nat, b: State, r: nat)
    requires Inv(n, b) && r < n && CanRecv(n, b, r)
    ensures Inv(n, Recv(n, b, r))
  {
    RecvFacts(n, b, r);
    var b' := Recv(n, b, r);
    assert Onward(n, b, b');
    forall q: nat | q < n ensures RankOk(n, b', q) && Knows(n, b', q) && Synced(n, b', q) {
      assert RankOk(n, b, q);
      SyncedStays(n, b, b', q);
      if q == r {
        forall j: nat | j < n && j < b'.mask[r] ensures Entered(b', Behind(r, j, n), b'.done[r]) {
          RecvCovers(n, b, r, j);
          assert Entered(b, Behind(r, j, n), b.done[r]);
        }
      } else {
        KnowsStays(n, b, b', q);
      }
    }
    forall q: nat, i: nat | q < n ensures QueueOk(n, b', q, i) {
      RecvQueue(n, b, r, q, i);
    }
  }

  /** A rank that can return knows that all ranks have entered. */
  lemma ReturnCovers(n: nat, b: State, r: nat, q: nat)
    requires Inv(n, b) && r < n && q < n && CanReturn(n, b, r)
    ensures Entered(b, q, b.done[r])
  {
    assert Knows(n, b, r);
    var j := if q <= r then r - q else r - q + n;
    assert Behind(r, j, n) == q;
    assert Entered(b, Behind(r, j, n), b.done[r]);
  }

  /** By then it has sent and taken the messages of all rounds, so the counts carry over to the next barrier. */
  lemma ReturnQueue(n: nat, b: State, r: nat, q: nat, i: nat)
    requires Inv(n, b) && r < n && q < n && CanReturn(n, b, r)
    ensures QueueOk(n, Return(n, b, r), q, i)
  {
    assert RankOk(n, b, r) && QueueOk(n, b, q, i);
    if Pow2(i) < n {
      if b.rounds[r] < i {
        Pow2Grows(b.rounds[r], i);
      }
      Peers(q, Pow2(i), n);
    }
  }

  lemma ReturnKeeps(n: nat, b: State, r: nat)
    requires Inv(n, b) && r < n && CanReturn(n, b, r)
    ensures Inv(n, Return(n, b, r))
  {
    var b' := Return(n, b, r);
    assert Onward(n, b, b');
    forall q: nat | q < n ensures RankOk(n, b', q) && Knows(n, b', q) && Synced(n, b', q) {
      assert RankOk(n, b, q);
      if q == r {
        assert Synced(n, b, r);
        forall p: nat, e: nat | p < n && e < b'.done[r] ensures Entered(b', p, e) {
          ReturnCovers(n, b, r, p);
          assert Entered(b, p, e);
        }
      } else {
        SyncedStays(n, b, b', q);
        KnowsStays(n, b, b', q);
      }
    }
    forall q: nat, i: nat | q < n ensures QueueOk(n, b', q, i) {
      ReturnQueue(n, b, r, q, i);
    }
  }

  // ---------------------------------------------------------------- what the barriers guarantee

  /** No rank has returned from a barrier that some rank has not entered. */
  lemma NoEarlyReturn(n: nat, b: State, r: nat, q: nat, e: nat)
    requires Inv(n, b) && r < n && q < n && b.done[r] > e
    ensures Entered(b, q, e)
  {
    assert Synced(n, b, r);
  }

  /** One of the ranks that still have barriers to pass, of total ones, can move. */
  predicate Enabled(n: nat, b: State, total: nat, r: nat)
    requires Sized(n, b) && r < n
  {
    (!b.begun[r] && b.done[r] < total) || CanSend(n, b, r) || CanRecv(n, b, r) || CanReturn(n, b, r)
  }

  /** Rank r is not ahead of rank q. */
  predicate NotAhead(b: State, r: nat, q: nat)
    requires r < |b.done| == |b.begun| == |b.rounds| && q < |b.done|
  {
    b.done[r] < b.done[q]
    || (b.done[r] == b.done[q] && (!b.begun[r] || (b.begun[q] && b.rounds[r] <= b.rounds[q])))
  }

  lemma {:induction false} Slowest(b: State, n: nat) returns (r: nat)
    requires 0 < n <= |b.done| == |b.begun| == |b.rounds|
    ensures r < n && forall q: nat :: q < n ==> NotAhead(b, r, q)
  {
    if n == 1 {
      r := 0;
    } else {
      r := Slowest(b, n - 1);
      if !NotAhead(b, r, n - 1) {
        var last := n - 1;
        forall q: nat | q < n ensures NotAhead(b, last, q) {
          assert q < last ==> NotAhead(b, r, q);
        }
        r := last;
      }
    }
  }

  /** As long as some rank has not passed all its barriers, some rank can move. */
  lemma NoDeadlock(n: nat, b: State, total: nat, late: nat)
    requires Inv(n, b) && late < n && b.done[late] < total
    ensures exists r: nat :: r < n && Enabled(n, b, total, r)
  {
    var r := Slowest(b, n);
    assert NotAhead(b, r, late);
    if b.begun[r] && b.mask[r] < n {
      SlowestMoves(n, b, total, r);
    } else {
      assert Enabled(n, b, total, r);
    }
  }

  lemma SlowestMoves(n: nat, b: State, total: nat, r: nat)
    requires Inv(n, b) && r < n && b.begun[r] && b.mask[r] < n
    requires forall q: nat :: q < n ==> NotAhead(b, r, q)
    ensures exists q: nat :: q < n && Enabled(n, b, total, q)
  {
    assert RankOk(n, b, r);
    var k := b.rounds[r];
    Peers(r, b.mask[r], n);
    var s := Behind(r, b.mask[r], n);
    assert QueueOk(n, b, r, k) && RankOk(n, b, s) && NotAhead(b, r, s);
    if b.sent[r] == k || Sent(b, s, k) > b.done[r] {
      assert Enabled(n, b, total, r);
    } else {
      assert Enabled(n, b, total, s);
    }
  }

  datatype Event = Enters(r: nat) | Sends(r: nat) | Receives(r: nat) | Returns(r: nat)

  /** One step of one rank; what cannot happen yet is skipped. */
  ghost predicate Took(n: nat, b: State, e: Event, b': State) {
    Sized(n, b) &&
    match e
    case Enters(r) => b' == if r < n && !b.begun[r] then Enter(b, r) else b
    case Sends(r) =>
      if r < n && CanSend(n, b, r) then 0 <= Dst(r, b.mask[r], n) < n && b' == Send(n, b, r) else b' == b
    case Receives(r) => b' == if r < n && CanRecv(n, b, r) then Recv(n, b, r) else b
    case Returns(r) => b' == if r < n && CanReturn(n, b, r) then Return(n, b, r) else b
  }

  ghost function Machine(n: nat): (State, Event, State) -> bool {
    (b, e, b') => Took(n, b, e, b')
  }

  /** Any interleaving of the ranks' steps through any number of barriers: no rank has returned from a barrier that some
      rank has not entered, and until all have passed all of them some rank can move. */
  method Run(n: nat, total: nat, schedule: seq<Event>) returns (b: State, ghost trace: seq<State>)
    requires n > 0
    ensures IsRun(Machine(n), trace, schedule) && trace[0] == Start(n) && trace[|schedule|] == b
    ensures Sized(n, b) && forall r: nat, q: nat, e: nat :: r < n && q < n && b.done[r] > e ==> Entered(b, q, e)
    ensures (exists r: nat :: r < n && b.done[r] < total) ==> exists r: nat :: r < n && Enabled(n, b, total, r)
  {
    StartOk(n);
    b := Start(n);
    trace := [b];
    for i := 0 to |schedule|
      invariant Inv(n, b) && IsRun(Machine(n), trace, schedule[..i]) && trace[0] == Start(n) && trace[i] == b
    {
      b := Step(n, b, schedule[i]);
      RunMore(Machine(n), trace, schedule, i, b);
      trace := trace + [b];
    }
    assert schedule[..|schedule|] == schedule;
    forall r: nat, q: nat, e: nat | r < n && q < n && b.done[r] > e ensures Entered(b, q, e) {
      NoEarlyReturn(n, b, r, q, e);
    }
    if r: nat :| r < n && b.done[r] < total {
      NoDeadlock(n, b, total, r);
    }
  }

  method Step(n: nat, b: State, e: Event) returns (b': State)
    requires Inv(n, b)
    ensures Inv(n, b') && Took(n, b, e, b')
  {
    b' := b;
    match e
    case Enters(r) =>
      if r < n && !b.begun[r] {
        EnterKeeps(n, b, r);
        b' := Enter(b, r);
      }
    case Sends(r) =>
      if r < n && CanSend(n, b, r) {
        SendKeeps(n, b, r);
        b' := Send(n, b, r);
      }
    case Receives(r) =>
      if r < n && CanRecv(n, b, r) {
        RecvKeeps(n, b, r);
        b' := Recv(n, b, r);
      }
    case Returns(r) =>
      if r < n && CanReturn(n, b, r) {
        ReturnKeeps(n, b, r);
        b' := Return(n, b, r);
      }
  }
}
