/** Ring all-gather: slices travel around the ring in one direction, or in both at once, over first-in first-out links.
    Ranks run asynchronously; inside a step their sends and receives complete in any order. */
module RingAllGather {
  import opened Runs

  /** The slices a rank sends and receives in a step, with its neighbours, as the code computes them. Ring 0 goes from
      each rank to the next one, ring 1 to the previous one. */
  function SendSlice0(rank: nat, step: nat, n: nat): int
    requires n > 0
  {
    (rank - step + n) % n
  }

  function RecvSlice0(rank: nat, step: nat, n: nat): int
    requires n > 0
  {
    (rank - step - 1 + n) % n
  }

  function SendSlice1(rank: nat, step: nat, n: nat): int
    requires n > 0
  {
    (rank + step) % n
  }

  function RecvSlice1(rank: nat, step: nat, n: nat): int
    requires n > 0
  {
    (rank + step + 1) % n
  }

  /** k ranks back, and k ranks ahead, around the ring. */
  function Back(r: nat, k: nat, n: nat): int {
    if k <= r then r - k else r - k + n
  }

  function Ahead(r: nat, k: nat, n: nat): int {
    if r + k < n then r + k else r + k - n
  }

  lemma Slices(r: nat, step: nat, n: nat)
    requires r < n && step + 1 < n
    ensures SendSlice0(r, step, n) == Back(r, step, n) && RecvSlice0(r, step, n) == Back(r, step + 1, n)
    ensures SendSlice1(r, step, n) == Ahead(r, step, n) && RecvSlice1(r, step, n) == Ahead(r, step + 1, n)
  {
    Reduce(r - step + n, n);
    Reduce(r - step - 1 + n, n);
    Reduce(r + step, n);
    Reduce(r + step + 1, n);
  }

  lemma Reduce(x: int, n: nat)
    requires 0 <= x < 2 * n
    ensures x % n == if x < n then x else x - n
  {
    if x >= n {
      assert x == 1 * n + (x - n);
      assert x / n == 1;
    }
  }

  /** What arrives from the neighbour one step further away is what the neighbour got from its own neighbour. */
  lemma Hops(r: nat, k: nat, n: nat)
    requires r < n && k < n
    ensures 0 <= Back(r, k, n) < n && 0 <= Ahead(r, k, n) < n
    ensures k + 1 <= n && n > 1 ==> Back(Back(r, 1, n), k, n) == (if k + 1 == n then r else Back(r, k + 1, n))
    ensures k + 1 <= n && n > 1 ==> Ahead(Ahead(r, 1, n), k, n) == (if k + 1 == n then r else Ahead(r, k + 1, n))
    ensures n > 1 ==> Back(Ahead(r, 1, n), 1, n) == r && Ahead(Back(r, 1, n), 1, n) == r
  {
  }

  /** The all-gather over n ranks takes t0 steps on ring 0 and t1 on ring 1. */
  datatype Plan = Plan(n: nat, t0: nat, t1: nat, capacity: nat) {
    ghost predicate Ok() {
      n > 0 && t0 + t1 == n - 1 && t1 <= t0 && capacity > 0
    }
  }

  /** One direction: n - 1 steps. */
  function OneWay(n: nat, capacity: nat): Plan
    requires n > 0
  {
    Plan(n, n - 1, 0, capacity)
  }

  /** Both directions: n / 2 steps, the last one only on ring 0 when n is even. */
  function BothWays(n: nat, capacity: nat): Plan {
    Plan(n, n / 2, if n % 2 == 0 && n > 0 then n / 2 - 1 else n / 2, capacity)
  }

  /** Both plans reach every slice. Going both ways takes half as many steps, and no plan takes fewer; the last step
      goes both ways exactly when n is odd. */
  lemma PlansOk(n: nat, capacity: nat, p: Plan)
    requires n > 0 && capacity > 0
    ensures OneWay(n, capacity).Ok() && OneWay(n, capacity).n == BothWays(n, capacity).n == n
    ensures OneWay(n, capacity).t0 == n - 1 && BothWays(n, capacity).Ok() && BothWays(n, capacity).t0 == n / 2
    ensures p.Ok() && p.n == n ==> BothWays(n, capacity).t0 <= p.t0
    ensures BothWays(n, capacity).t1 == BothWays(n, capacity).t0 <==> n % 2 == 1
  {
  }

  // ---------------------------------------------------------------- the network

  /** Per rank: the step it is in, how many slices it has sent and received on each ring, and its buffer; per rank and
      ring: the slices on their way to it. */
  datatype Net = Net(step: seq<nat>, sent0: seq<nat>, got0: seq<nat>, sent1: seq<nat>, got1: seq<nat>,
                     link0: seq<seq<int>>, link1: seq<seq<int>>, data: seq<seq<int>>)

  predicate Sized(p: Plan, w: Net) {
    |w.step| == |w.sent0| == |w.got0| == |w.sent1| == |w.got1| == |w.link0| == |w.link1| == |w.data| == p.n
  }

  function Min(a: nat, b: nat): nat {
    if a < b then a else b
  }

  /** A counter of a rank in the given step, on a ring with limit steps. */
  predicate InStep(count: nat, step: nat, limit: nat) {
    Min(step, limit) <= count <= Min(step + 1, limit)
  }

  ghost predicate OwnOk(p: Plan, values: seq<int>, w: Net, r: nat) {
    && Sized(p, w) && |values| == p.n && r < p.n && |w.data[r]| == p.n && w.step[r] <= p.t0
    && InStep(w.sent0[r], w.step[r], p.t0) && InStep(w.got0[r], w.step[r], p.t0)
    && InStep(w.sent1[r], w.step[r], p.t1) && InStep(w.got1[r], w.step[r], p.t1)
    && (forall k: nat {:trigger Back(r, k, p.n)} :: k <= w.got0[r] ==> Holds(w.data[r], values, Back(r, k, p.n)))
    && (forall k: nat {:trigger Ahead(r, k, p.n)} :: k <= w.got1[r] ==> Holds(w.data[r], values, Ahead(r, k, p.n)))
  }

  /** The buffer has the right slice at position j. */
  ghost predicate Holds(data: seq<int>, values: seq<int>, j: int) {
    0 <= j < |data| && j < |values| && data[j] == values[j]
  }

  ghost predicate Link0Ok(p: Plan, values: seq<int>, w: Net, r: nat) {
    && Sized(p, w) && |values| == p.n && r < p.n && 0 <= Back(r, 1, p.n) < p.n
    && w.sent0[Back(r, 1, p.n)] == w.got0[r] + |w.link0[r]| && |w.link0[r]| <= p.capacity
    && forall j: nat :: j < |w.link0[r]| ==> IsValue(values, Back(r, w.got0[r] + j + 1, p.n), w.link0[r][j])
  }

  ghost predicate Link1Ok(p: Plan, values: seq<int>, w: Net, r: nat) {
    && Sized(p, w) && |values| == p.n && r < p.n && 0 <= Ahead(r, 1, p.n) < p.n
    && w.sent1[Ahead(r, 1, p.n)] == w.got1[r] + |w.link1[r]| && |w.link1[r]| <= p.capacity
    && forall j: nat :: j < |w.link1[r]| ==> IsValue(values, Ahead(r, w.got1[r] + j + 1, p.n), w.link1[r][j])
  }

  ghost predicate IsValue(values: seq<int>, j: int, x: int) {
    0 <= j < |values| && x == values[j]
  }

  ghost predicate Inv(p: Plan, values: seq<int>, w: Net) {
    && p.Ok() && Sized(p, w) && |values| == p.n
    && (forall r: nat {:trigger OwnOk(p, values, w, r)} :: r < p.n ==> OwnOk(p, values, w, r))
    && (forall r: nat {:trigger Link0Ok(p, values, w, r)} :: r < p.n ==> Link0Ok(p, values, w, r))
    && (forall r: nat {:trigger Link1Ok(p, values, w, r)} :: r < p.n ==> Link1Ok(p, values, w, r))
  }

  // ---------------------------------------------------------------- the steps

  predicate CanSend0(p: Plan, w: Net, r: nat)
    requires Sized(p, w) && r < p.n && p.n > 0
  {
    w.sent0[r] == w.step[r] < p.t0 && 0 <= Ahead(r, 1, p.n) < p.n && |w.link0[Ahead(r, 1, p.n)]| < p.capacity
  }

  predicate CanRecv0(p: Plan, w: Net, r: nat)
    requires Sized(p, w) && r < p.n
  {
    w.got0[r] == w.step[r] < p.t0 && w.link0[r] != []
  }

  predicate CanSend1(p: Plan, w: Net, r: nat)
    requires Sized(p, w) && r < p.n && p.n > 0
  {
    w.sent1[r] == w.step[r] < p.t1 && 0 <= Back(r, 1, p.n) < p.n && |w.link1[Back(r, 1, p.n)]| < p.capacity
  }

  predicate CanRecv1(p: Plan, w: Net, r: nat)
    requires Sized(p, w) && r < p.n
  {
    w.got1[r] == w.step[r] < p.t1 && w.link1[r] != []
  }

  /** All operations of the step are done, and it was not the last one. */
  predicate CanAdvance(p: Plan, w: Net, r: nat)
    requires Sized(p, w) && r < p.n
  {
    && w.step[r] < p.t0 && w.sent0[r] > w.step[r] && w.got0[r] > w.step[r]
    && (w.step[r] < p.t1 ==> w.sent1[r] > w.step[r] && w.got1[r] > w.step[r])
  }

  function Sent0(p: Plan, w: Net, r: nat): Net
    requires Sized(p, w) && r < p.n && CanSend0(p, w, r) && |w.data[r]| == p.n
  {
    var to, slice := Ahead(r, 1, p.n), SendSlice0(r, w.step[r], p.n);
    w.(sent0 := w.sent0[r := w.sent0[r] + 1], link0 := w.link0[to := w.link0[to] + [w.data[r][slice]]])
  }

  function Got0(p: Plan, w: Net, r: nat): Net
    requires Sized(p, w) && r < p.n && CanRecv0(p, w, r) && |w.data[r]| == p.n
  {
    var slice := RecvSlice0(r, w.step[r], p.n);
    w.(got0 := w.got0[r := w.got0[r] + 1], link0 := w.link0[r := w.link0[r][1..]],
       data := w.data[r := w.data[r][slice := w.link0[r][0]]])
  }

  function Sent1(p: Plan, w: Net, r: nat): Net
    requires Sized(p, w) && r < p.n && CanSend1(p, w, r) && |w.data[r]| == p.n
  {
    var to, slice := Back(r, 1, p.n), SendSlice1(r, w.step[r], p.n);
    w.(sent1 := w.sent1[r := w.sent1[r] + 1], link1 := w.link1[to := w.link1[to] + [w.data[r][slice]]])
  }

  function Got1(p: Plan, w: Net, r: nat): Net
    requires Sized(p, w) && r < p.n && CanRecv1(p, w, r) && |w.data[r]| == p.n
  {
    var slice := RecvSlice1(r, w.step[r], p.n);
    w.(got1 := w.got1[r := w.got1[r] + 1], link1 := w.link1[r := w.link1[r][1..]],
       data := w.data[r := w.data[r][slice := w.link1[r][0]]])
  }

  function Advanced(p: Plan, w: Net, r: nat): Net
    requires Sized(p, w) && r < p.n
  {
    w.(step := w.step[r := w.step[r] + 1])
  }

  lemma Send0Own(p: Plan, values: seq<int>, w: Net, r: nat, q: nat)
    requires Inv(p, values, w) && r < p.n && q < p.n && CanSend0(p, w, r) && |w.data[r]| == p.n
    ensures OwnOk(p, values, Sent0(p, w, r), q) && Link1Ok(p, values, Sent0(p, w, r), q)
  {
    assert OwnOk(p, values, w, q) && Link1Ok(p, values, w, q);
  }

  /** The slice sent in step k is k ranks away, so it is k + 1 ranks away from the receiver. */
  lemma Send0Value(p: Plan, values: seq<int>, w: Net, r: nat)
    requires Inv(p, values, w) && r < p.n && CanSend0(p, w, r) && |w.data[r]| == p.n
    ensures SendSlice0(r, w.step[r], p.n) == Back(Ahead(r, 1, p.n), w.sent0[r] + 1, p.n)
    ensures IsValue(values, SendSlice0(r, w.step[r], p.n), w.data[r][SendSlice0(r, w.step[r], p.n)])
  {
    assert OwnOk(p, values, w, r);
    var k, to := w.step[r], Ahead(r, 1, p.n);
    Slices(r, k, p.n);
    Hops(r, 1, p.n);
    Hops(to, k, p.n);
    assert Holds(w.data[r], values, Back(r, k, p.n));
  }

  lemma Send0Link(p: Plan, values: seq<int>, w: Net, r: nat, q: nat)
    requires Inv(p, values, w) && r < p.n && q < p.n && CanSend0(p, w, r) && |w.data[r]| == p.n
    ensures Link0Ok(p, values, Sent0(p, w, r), q)
  {
    assert OwnOk(p, values, w, r) && Link0Ok(p, values, w, q);
    Send0Value(p, values, w, r);
    Hops(r, 1, p.n);
    Hops(q, 1, p.n);
  }

  /** A slice is valid when it is sent, and sending it keeps the invariant. */
  lemma Send0Keeps(p: Plan, values: seq<int>, w: Net, r: nat)
    requires Inv(p, values, w) && r < p.n && CanSend0(p, w, r)
    ensures |w.data[r]| == p.n && Inv(p, values, Sent0(p, w, r))
    ensures IsValue(values, SendSlice0(r, w.step[r], p.n), w.data[r][SendSlice0(r, w.step[r], p.n)])
  {
    assert OwnOk(p, values, w, r);
    var w' := Sent0(p, w, r);
    forall q: nat | q < p.n ensures OwnOk(p, values, w', q) && Link0Ok(p, values, w', q) && Link1Ok(p, values, w', q) {
      Send0Own(p, values, w, r, q);
      Send0Link(p, values, w, r, q);
    }
    Send0Value(p, values, w, r);
  }

  /** What arrives is the slice that belongs where it is stored. */
  lemma Recv0Value(p: Plan, values: seq<int>, w: Net, r: nat)
    requires Inv(p, values, w) && r < p.n && CanRecv0(p, w, r)
    ensures RecvSlice0(r, w.step[r], p.n) == Back(r, w.got0[r] + 1, p.n)
    ensures |w.data[r]| == p.n && IsValue(values, RecvSlice0(r, w.step[r], p.n), w.link0[r][0])
  {
    assert OwnOk(p, values, w, r) && Link0Ok(p, values, w, r);
    Slices(r, w.step[r], p.n);
    assert IsValue(values, Back(r, w.got0[r] + 0 + 1, p.n), w.link0[r][0]);
  }

  lemma Recv0Own(p: Plan, values: seq<int>, w: Net, r: nat, q: nat)
    requires Inv(p, values, w) && r < p.n && q < p.n && CanRecv0(p, w, r) && |w.data[r]| == p.n
    ensures OwnOk(p, values, Got0(p, w, r), q)
  {
    assert OwnOk(p, values, w, q);
    Recv0Value(p, values, w, r);
    if q == r {
      var w' := Got0(p, w, r);
      forall j | Holds(w.data[r], values, j) ensures Holds(w'.data[r], values, j) {
      }
    }
  }

  lemma Recv0Link(p: Plan, values: seq<int>, w: Net, r: nat, q: nat)
    requires Inv(p, values, w) && r < p.n && q < p.n && CanRecv0(p, w, r) && |w.data[r]| == p.n
    ensures Link0Ok(p, values, Got0(p, w, r), q) && Link1Ok(p, values, Got0(p, w, r), q)
  {
    assert Link0Ok(p, values, w, q) && Link1Ok(p, values, w, q);
    if q == r {
      var w' := Got0(p, w, r);
      forall j: nat | j < |w'.link0[q]| ensures IsValue(values, Back(q, w'.got0[q] + j + 1, p.n), w'.link0[q][j]) {
        assert IsValue(values, Back(q, w.got0[q] + (j + 1) + 1, p.n), w.link0[q][j + 1]);
      }
    }
  }

  lemma Recv0Keeps(p: Plan, values: seq<int>, w: Net, r: nat)
    requires Inv(p, values, w) && r < p.n && CanRecv0(p, w, r)
    ensures |w.data[r]| == p.n && Inv(p, values, Got0(p, w, r))
  {
    assert OwnOk(p, values, w, r);
    var w' := Got0(p, w, r);
    forall q: nat | q < p.n ensures OwnOk(p, values, w', q) && Link0Ok(p, values, w', q) && Link1Ok(p, values, w', q) {
      Recv0Own(p, values, w, r, q);
      Recv0Link(p, values, w, r, q);
    }
  }

  lemma Send1Own(p: Plan, values: seq<int>, w: Net, r: nat, q: nat)
    requires Inv(p, values, w) && r < p.n && q < p.n && CanSend1(p, w, r) && |w.data[r]| == p.n
    ensures OwnOk(p, values, Sent1(p, w, r), q) && Link0Ok(p, values, Sent1(p, w, r), q)
  {
    assert OwnOk(p, values, w, q) && Link0Ok(p, values, w, q);
  }

  /** The slice sent in step k is k ranks away, so it is k + 1 ranks away from the receiver. */
  lemma Send1Value(p: Plan, values: seq<int>, w: Net, r: nat)
    requires Inv(p, values, w) && r < p.n && CanSend1(p, w, r) && |w.data[r]| == p.n
    ensures SendSlice1(r, w.step[r], p.n) == Ahead(Back(r, 1, p.n), w.sent1[r] + 1, p.n)
    ensures IsValue(values, SendSlice1(r, w.step[r], p.n), w.data[r][SendSlice1(r, w.step[r], p.n)])
  {
    assert OwnOk(p, values, w, r);
    var k, to := w.step[r], Back(r, 1, p.n);
    Slices(r, k, p.n);
    Hops(r, 1, p.n);
    Hops(to, k, p.n);
    assert Holds(w.data[r], values, Ahead(r, k, p.n));
  }

  lemma Send1Link(p: Plan, values: seq<int>, w: Net, r: nat, q: nat)
    requires Inv(p, values, w) && r < p.n && q < p.n && CanSend1(p, w, r) && |w.data[r]| == p.n
    ensures Link1Ok(p, values, Sent1(p, w, r), q)
  {
    assert OwnOk(p, values, w, r) && Link1Ok(p, values, w, q);
    Send1Value(p, values, w, r);
    Hops(r, 1, p.n);
    Hops(q, 1, p.n);
  }

  /** A slice is valid when it is sent, and sending it keeps the invariant. */
  lemma Send1Keeps(p: Plan, values: seq<int>, w: Net, r: nat)
    requires Inv(p, values, w) && r < p.n && CanSend1(p, w, r)
    ensures |w.data[r]| == p.n && Inv(p, values, Sent1(p, w, r))
    ensures IsValue(values, SendSlice1(r, w.step[r], p.n), w.data[r][SendSlice1(r, w.step[r], p.n)])
  {
    assert OwnOk(p, values, w, r);
    var w' := Sent1(p, w, r);
    forall q: nat | q < p.n ensures OwnOk(p, values, w', q) && Link0Ok(p, values, w', q) && Link1Ok(p, values, w', q) {
      Send1Own(p, values, w, r, q);
      Send1Link(p, values, w, r, q);
    }
    Send1Value(p, values, w, r);
  }

  /** What arrives is the slice that belongs where it is stored. */
  lemma Recv1Value(p: Plan, values: seq<int>, w: Net, r: nat)
    requires Inv(p, values, w) && r < p.n && CanRecv1(p, w, r)
    ensures RecvSlice1(r, w.step[r], p.n) == Ahead(r, w.got1[r] + 1, p.n)
    ensures |w.data[r]| == p.n && IsValue(values, RecvSlice1(r, w.step[r], p.n), w.link1[r][0])
  {
    assert OwnOk(p, values, w, r) && Link1Ok(p, values, w, r);
    Slices(r, w.step[r], p.n);
    assert IsValue(values, Ahead(r, w.got1[r] + 0 + 1, p.n), w.link1[r][0]);
  }

  lemma Recv1Own(p: Plan, values: seq<int>, w: Net, r: nat, q: nat)
    requires Inv(p, values, w) && r < p.n && q < p.n && CanRecv1(p, w, r) && |w.data[r]| == p.n
    ensures OwnOk(p, values, Got1(p, w, r), q)
  {
    assert OwnOk(p, values, w, q);
    Recv1Value(p, values, w, r);
    if q == r {
      var w' := Got1(p, w, r);
      forall j | Holds(w.data[r], values, j) ensures Holds(w'.data[r], values, j) {
      }
    }
  }

  lemma Recv1Link(p: Plan, values: seq<int>, w: Net, r: nat, q: nat)
    requires Inv(p, values, w) && r < p.n && q < p.n && CanRecv1(p, w, r) && |w.data[r]| == p.n
    ensures Link0Ok(p, values, Got1(p, w, r), q) && Link1Ok(p, values, Got1(p, w, r), q)
  {
    assert Link0Ok(p, values, w, q) && Link1Ok(p, values, w, q);
    if q == r {
      var w' := Got1(p, w, r);
      forall j: nat | j < |w'.link1[q]| ensures IsValue(values, Ahead(q, w'.got1[q] + j + 1, p.n), w'.link1[q][j]) {
        assert IsValue(values, Ahead(q, w.got1[q] + (j + 1) + 1, p.n), w.link1[q][j + 1]);
      }
    }
  }

  lemma Recv1Keeps(p: Plan, values: seq<int>, w: Net, r: nat)
    requires Inv(p, values, w) && r < p.n && CanRecv1(p, w, r)
    ensures |w.data[r]| == p.n && Inv(p, values, Got1(p, w, r))
  {
    assert OwnOk(p, values, w, r);
    var w' := Got1(p, w, r);
    forall q: nat | q < p.n ensures OwnOk(p, values, w', q) && Link0Ok(p, values, w', q) && Link1Ok(p, values, w', q) {
      Recv1Own(p, values, w, r, q);
      Recv1Link(p, values, w, r, q);
    }
  }

  lemma AdvanceOwn(p: Plan, values: seq<int>, w: Net, r: nat, q: nat)
    requires Inv(p, values, w) && r < p.n && q < p.n && CanAdvance(p, w, r)
    ensures OwnOk(p, values, Advanced(p, w, r), q)
  {
    assert OwnOk(p, values, w, q);
  }

  lemma AdvanceLink(p: Plan, values: seq<int>, w: Net, r: nat, q: nat)
    requires Inv(p, values, w) && r < p.n && q < p.n && CanAdvance(p, w, r)
    ensures Link0Ok(p, values, Advanced(p, w, r), q) && Link1Ok(p, values, Advanced(p, w, r), q)
  {
    assert Link0Ok(p, values, w, q) && Link1Ok(p, values, w, q);
  }

  lemma AdvanceKeeps(p: Plan, values: seq<int>, w: Net, r: nat)
    requires Inv(p, values, w) && r < p.n && CanAdvance(p, w, r)
    ensures Inv(p, values, Advanced(p, w, r))
  {
    var w' := Advanced(p, w, r);
    forall q: nat | q < p.n ensures OwnOk(p, values, w', q) && Link0Ok(p, values, w', q) && Link1Ok(p, values, w', q) {
      AdvanceOwn(p, values, w, r, q);
      AdvanceLink(p, values, w, r, q);
    }
  }

  // ---------------------------------------------------------------- whole runs

  /** A rank has finished its last step. */
  predicate Done(p: Plan, w: Net, r: nat)
    requires Sized(p, w) && r < p.n
  {
    w.step[r] == p.t0
  }

  /** Every position of the buffer is one of the received ones, or the rank's own. */
  lemma EveryDistance(p: Plan, r: nat, j: nat)
    requires p.Ok() && r < p.n && j < p.n
    ensures
      || (exists k: nat :: k <= p.t0 && Back(r, k, p.n) == j)
      || (exists k: nat :: k <= p.t1 && Ahead(r, k, p.n) == j)
  {
    var d := if j <= r then r - j else r - j + p.n;
    if d <= p.t0 {
      assert Back(r, d, p.n) == j;
    } else {
      assert Ahead(r, p.n - d, p.n) == j;
    }
  }

  /** No position is received twice, nor is the rank's own: within the plan's steps all of them differ. */
  lemma SlicesDistinct(p: Plan, r: nat, k: nat, m: nat)
    requires p.Ok() && r < p.n
    ensures k < m <= p.t0 ==> Back(r, k, p.n) != Back(r, m, p.n)
    ensures k < m <= p.t1 ==> Ahead(r, k, p.n) != Ahead(r, m, p.n)
    ensures k <= p.t0 && 0 < m <= p.t1 ==> Back(r, k, p.n) != Ahead(r, m, p.n)
  {
  }

  /** A rank that is done holds every rank's slice. */
  lemma DoneHoldsAll(p: Plan, values: seq<int>, w: Net, r: nat)
    requires Inv(p, values, w) && r < p.n && Done(p, w, r)
    ensures w.data[r] == values
  {
    assert OwnOk(p, values, w, r);
    forall j: nat | j < p.n ensures w.data[r][j] == values[j] {
      EveryDistance(p, r, j);
      if k: nat :| k <= p.t0 && Back(r, k, p.n) == j {
        assert Holds(w.data[r], values, Back(r, k, p.n));
      } else {
        var k: nat :| k <= p.t1 && Ahead(r, k, p.n) == j;
        assert Holds(w.data[r], values, Ahead(r, k, p.n));
      }
    }
  }

  predicate Enabled(p: Plan, w: Net, r: nat)
    requires Sized(p, w) && r < p.n && p.n > 0
  {
    CanSend0(p, w, r) || CanRecv0(p, w, r) || CanSend1(p, w, r) || CanRecv1(p, w, r) || CanAdvance(p, w, r)
  }

  /** A rank that is furthest behind. */
  lemma {:induction false} Slowest(w: Net, n: nat) returns (r: nat)
    requires 0 < n <= |w.step|
    ensures r < n && forall q :: 0 <= q < n ==> w.step[r] <= w.step[q]
  {
    if n == 1 {
      r := 0;
    } else {
      r := Slowest(w, n - 1);
      if w.step[n - 1] < w.step[r] {
        r := n - 1;
      }
    }
  }

  /** A rank in its step k that nobody is behind of: the slice it waits for is on its way or can be sent. */
  lemma NeighbourSends0(p: Plan, values: seq<int>, w: Net, r: nat)
    requires Inv(p, values, w) && r < p.n && w.step[r] < p.t0 && w.got0[r] == w.step[r]
    requires forall q :: 0 <= q < p.n ==> w.step[r] <= w.step[q]
    ensures exists q: nat :: q < p.n && Enabled(p, w, q)
  {
    var from := Back(r, 1, p.n);
    Hops(r, 1, p.n);
    assert Link0Ok(p, values, w, r);
    if w.link0[r] != [] {
      assert CanRecv0(p, w, r) && Enabled(p, w, r);
    } else {
      assert OwnOk(p, values, w, from);
      assert CanSend0(p, w, from) && Enabled(p, w, from);
    }
  }

  /** The slice it has to send finds room, because its receiver is not behind. */
  lemma ReceiverTakes0(p: Plan, values: seq<int>, w: Net, r: nat)
    requires Inv(p, values, w) && r < p.n && w.step[r] < p.t0 && w.sent0[r] == w.step[r]
    requires forall q :: 0 <= q < p.n ==> w.step[r] <= w.step[q]
    ensures exists q: nat :: q < p.n && Enabled(p, w, q)
  {
    var to := Ahead(r, 1, p.n);
    Hops(r, 1, p.n);
    assert Link0Ok(p, values, w, to) && OwnOk(p, values, w, to);
    assert CanSend0(p, w, r) && Enabled(p, w, r);
  }

  /** A rank in its step k that nobody is behind of: the slice it waits for is on its way or can be sent. */
  lemma NeighbourSends1(p: Plan, values: seq<int>, w: Net, r: nat)
    requires Inv(p, values, w) && r < p.n && w.step[r] < p.t1 && w.got1[r] == w.step[r]
    requires forall q :: 0 <= q < p.n ==> w.step[r] <= w.step[q]
    ensures exists q: nat :: q < p.n && Enabled(p, w, q)
  {
    var from := Ahead(r, 1, p.n);
    Hops(r, 1, p.n);
    assert Link1Ok(p, values, w, r);
    if w.link1[r] != [] {
      assert CanRecv1(p, w, r) && Enabled(p, w, r);
    } else {
      assert OwnOk(p, values, w, from);
      assert CanSend1(p, w, from) && Enabled(p, w, from);
    }
  }

  /** The slice it has to send finds room, because its receiver is not behind. */
  lemma ReceiverTakes1(p: Plan, values: seq<int>, w: Net, r: nat)
    requires Inv(p, values, w) && r < p.n && w.step[r] < p.t1 && w.sent1[r] == w.step[r]
    requires forall q :: 0 <= q < p.n ==> w.step[r] <= w.step[q]
    ensures exists q: nat :: q < p.n && Enabled(p, w, q)
  {
    var to := Back(r, 1, p.n);
    Hops(r, 1, p.n);
    assert Link1Ok(p, values, w, to) && OwnOk(p, values, w, to);
    assert CanSend1(p, w, r) && Enabled(p, w, r);
  }

  /** As long as some rank has not finished, some operation can happen. */
  lemma NoDeadlock(p: Plan, values: seq<int>, w: Net)
    requires Inv(p, values, w) && exists r: nat :: r < p.n && !Done(p, w, r)
    ensures exists r: nat :: r < p.n && Enabled(p, w, r)
  {
    var r := Slowest(w, p.n);
    var k := w.step[r];
    assert OwnOk(p, values, w, r);
    var late: nat :| late < p.n && !Done(p, w, late);
    assert OwnOk(p, values, w, late);
    Hops(r, 1, p.n);
    if w.got0[r] == k {
      NeighbourSends0(p, values, w, r);
    } else if k < p.t1 && w.got1[r] == k {
      NeighbourSends1(p, values, w, r);
    } else if w.sent0[r] == k {
      ReceiverTakes0(p, values, w, r);
    } else if k < p.t1 && w.sent1[r] == k {
      ReceiverTakes1(p, values, w, r);
    } else {
      assert CanAdvance(p, w, r) && Enabled(p, w, r);
    }
  }

  /** Work left to do; every operation reduces it, so every run ends. */
  function Left(p: Plan, w: Net, n: nat): int
    requires Sized(p, w) && n <= p.n
  {
    if n == 0 then 0
    else
      Left(p, w, n - 1) + 3 * p.t0 + 2 * p.t1
      - w.step[n - 1] - w.sent0[n - 1] - w.got0[n - 1] - w.sent1[n - 1] - w.got1[n - 1]
  }

  lemma {:induction false} LeftDrops(p: Plan, w: Net, w': Net, r: nat, n: nat)
    requires Sized(p, w) && Sized(p, w') && r < p.n && n <= p.n
    requires forall q :: 0 <= q < p.n && q != r ==>
               && w'.step[q] == w.step[q] && w'.sent0[q] == w.sent0[q] && w'.got0[q] == w.got0[q]
               && w'.sent1[q] == w.sent1[q] && w'.got1[q] == w.got1[q]
    requires w'.step[r] + w'.sent0[r] + w'.got0[r] + w'.sent1[r] + w'.got1[r]
               == w.step[r] + w.sent0[r] + w.got0[r] + w.sent1[r] + w.got1[r] + 1
    ensures Left(p, w', n) == Left(p, w, n) - if r < n then 1 else 0
  {
    if n != 0 {
      LeftDrops(p, w, w', r, n - 1);
    }
  }

  lemma {:induction false} LeftNonNegative(p: Plan, values: seq<int>, w: Net, n: nat)
    requires Inv(p, values, w) && n <= p.n
    ensures Left(p, w, n) >= 0
  {
    if n != 0 {
      LeftNonNegative(p, values, w, n - 1);
      assert OwnOk(p, values, w, n - 1);
    }
  }

  /** The network before the first step: every rank has its own slice in its place. */
  function Start(p: Plan, values: seq<int>, buffers: seq<seq<int>>): Net
    requires |values| == |buffers| == p.n && forall r :: 0 <= r < p.n ==> |buffers[r]| == p.n
  {
    var zero := seq(p.n, _ => 0);
    Net(zero, zero, zero, zero, zero, seq(p.n, _ => []), seq(p.n, _ => []),
        seq(p.n, r requires 0 <= r < p.n => buffers[r][r := values[r]]))
  }

  lemma StartOk(p: Plan, values: seq<int>, buffers: seq<seq<int>>)
    requires p.Ok() && |values| == |buffers| == p.n && forall r :: 0 <= r < p.n ==> |buffers[r]| == p.n
    ensures Inv(p, values, Start(p, values, buffers))
  {
    var w := Start(p, values, buffers);
    forall r: nat | r < p.n ensures OwnOk(p, values, w, r) && Link0Ok(p, values, w, r) && Link1Ok(p, values, w, r) {
      assert Holds(w.data[r], values, r);
    }
  }

  datatype Event = Send0(r: nat) | Recv0(r: nat) | Send1(r: nat) | Recv1(r: nat) | Advance(r: nat)

  predicate CanHappen(p: Plan, w: Net, e: Event)
    requires Sized(p, w) && p.n > 0
  {
    e.r < p.n &&
    match e
    case Send0(r) => CanSend0(p, w, r)
    case Recv0(r) => CanRecv0(p, w, r)
    case Send1(r) => CanSend1(p, w, r)
    case Recv1(r) => CanRecv1(p, w, r)
    case Advance(r) => CanAdvance(p, w, r)
  }

  /** An operation of a rank; what cannot happen yet is skipped. */
  ghost predicate Took(p: Plan, w: Net, e: Event, w': Net) {
    && Sized(p, w) && p.n > 0
    && if !CanHappen(p, w, e) then w' == w
       else
         && |w.data[e.r]| == p.n
         && match e
            case Send0(r) => w' == Sent0(p, w, r)
            case Recv0(r) => w' == Got0(p, w, r)
            case Send1(r) => w' == Sent1(p, w, r)
            case Recv1(r) => w' == Got1(p, w, r)
            case Advance(r) => w' == Advanced(p, w, r)
  }

  ghost function Machine(p: Plan): (Net, Event, Net) -> bool {
    (w, e, w') => Took(p, w, e, w')
  }

  /** The trace is a run of the whole schedule from the start to w. */
  ghost predicate Leads(p: Plan, start: Net, trace: seq<Net>, events: seq<Event>, w: Net) {
    IsRun(Machine(p), trace, events) && trace[0] == start && trace[|events|] == w
  }

  lemma LeadsOn(p: Plan, start: Net, trace: seq<Net>, events: seq<Event>, w: Net, e: Event, w': Net)
    requires Leads(p, start, trace, events, w) && Took(p, w, e, w')
    ensures Leads(p, start, trace + [w'], events + [e], w')
  {
    assert (events + [e])[..|events|] == events && (events + [e])[..|events| + 1] == events + [e];
    RunMore(Machine(p), trace, events + [e], |events|, w');
  }

  /** Runs the ranks in the given interleaving, skipping what cannot happen, and then, in whatever order, to the end.
      Every rank ends up with every rank's slice. */
  method AllGather(p: Plan, values: seq<int>, buffers: seq<seq<int>>, schedule: seq<Event>)
    returns (result: seq<seq<int>>, ghost trace: seq<Net>, ghost events: seq<Event>)
    requires p.Ok() && |values| == |buffers| == p.n && forall r :: 0 <= r < p.n ==> |buffers[r]| == p.n
    ensures schedule <= events && |trace| == |events| + 1
    ensures Leads(p, Start(p, values, buffers), trace, events, trace[|events|]) && result == trace[|events|].data
    ensures |result| == p.n && forall r :: 0 <= r < p.n ==> result[r] == values
  {
    StartOk(p, values, buffers);
    ghost var start := Start(p, values, buffers);
    var w := Start(p, values, buffers);
    trace, events := [w], [];
    for i := 0 to |schedule|
      invariant Inv(p, values, w) && events == schedule[..i] && Leads(p, start, trace, events, w)
    {
      ghost var was := w;
      if CanHappen(p, w, schedule[i]) {
        w := Happen(p, values, w, schedule[i]);
      }
      LeadsOn(p, start, trace, events, was, schedule[i], w);
      trace, events := trace + [w], events + [schedule[i]];
    }
    w, trace, events := Finish(p, values, w, start, trace, events);
    forall r: nat | r < p.n ensures w.data[r] == values {
      DoneHoldsAll(p, values, w, r);
    }
    result := w.data;
  }

  method Happen(p: Plan, ghost values: seq<int>, w: Net, e: Event) returns (w': Net)
    requires Inv(p, values, w) && CanHappen(p, w, e)
    ensures Inv(p, values, w') && Left(p, w', p.n) == Left(p, w, p.n) - 1 && Took(p, w, e, w')
  {
    assert OwnOk(p, values, w, e.r);
    match e {
      case Send0(r) =>
        Send0Keeps(p, values, w, r);
        w' := Sent0(p, w, r);
      case Recv0(r) =>
        Recv0Keeps(p, values, w, r);
        w' := Got0(p, w, r);
      case Send1(r) =>
        Send1Keeps(p, values, w, r);
        w' := Sent1(p, w, r);
      case Recv1(r) =>
        Recv1Keeps(p, values, w, r);
        w' := Got1(p, w, r);
      case Advance(r) =>
        AdvanceKeeps(p, values, w, r);
        w' := Advanced(p, w, r);
    }
    LeftDrops(p, w, w', e.r, p.n);
  }

  method Finish(p: Plan, ghost values: seq<int>, w: Net, ghost start: Net, ghost trace: seq<Net>,
                ghost events: seq<Event>)
    returns (w': Net, ghost trace': seq<Net>, ghost events': seq<Event>)
    requires Inv(p, values, w) && Leads(p, start, trace, events, w)
    ensures Inv(p, values, w') && forall r: nat :: r < p.n ==> Done(p, w', r)
    ensures events <= events' && Leads(p, start, trace', events', w')
  {
    w', trace', events' := w, trace, events;
    LeftNonNegative(p, values, w', p.n);
    while !AllDone(p, w')
      invariant Inv(p, values, w') && Left(p, w', p.n) >= 0 && events <= events'
      invariant Leads(p, start, trace', events', w')
      decreases Left(p, w', p.n)
    {
      NoDeadlock(p, values, w');
      var e := SomeEvent(p, w');
      ghost var was := w';
      w' := Happen(p, values, w', e);
      LeadsOn(p, start, trace', events', was, e, w');
      trace', events' := trace' + [w'], events' + [e];
      LeftNonNegative(p, values, w', p.n);
    }
  }

  predicate AllDone(p: Plan, w: Net)
    requires Sized(p, w)
  {
    forall r: nat :: r < p.n ==> Done(p, w, r)
  }

  method SomeEvent(p: Plan, w: Net) returns (e: Event)
    requires Sized(p, w) && p.n > 0 && exists r: nat :: r < p.n && Enabled(p, w, r)
    ensures CanHappen(p, w, e)
  {
    var r: nat :| r < p.n && Enabled(p, w, r);
    if CanSend0(p, w, r) {
      e := Send0(r);
    } else if CanRecv0(p, w, r) {
      e := Recv0(r);
    } else if CanSend1(p, w, r) {
      e := Send1(r);
    } else if CanRecv1(p, w, r) {
      e := Recv1(r);
    } else {
      e := Advance(r);
    }
  }

  /** The bidirectional ring and the simple one give every rank the same result, whatever the interleavings. */
  method BothAgree(n: nat, capacity: nat, values: seq<int>, buffers: seq<seq<int>>, schedule: seq<Event>,
                   schedule2: seq<Event>)
    returns (simple: seq<seq<int>>, both: seq<seq<int>>)
    requires n > 0 && capacity > 0 && |values| == |buffers| == n && forall r :: 0 <= r < n ==> |buffers[r]| == n
    ensures simple == both && |both| == n && forall r :: 0 <= r < n ==> both[r] == values
  {
    PlansOk(n, capacity, OneWay(n, capacity));
    ghost var trace, events;
    simple, trace, events := AllGather(OneWay(n, capacity), values, buffers, schedule);
    both, trace, events := AllGather(BothWays(n, capacity), values, buffers, schedule2);
  }
}
