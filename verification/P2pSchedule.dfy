/** Peer-to-peer schedule (ncclP2pSchedule): in which round each rank sends to and receives from each peer. */
module P2pSchedule {
  import opened Arith
  import opened Seqs
  import opened QuadraticResidues

  datatype Slot = Slot(sendRank: int, recvRank: int)

  datatype Group = Group(node: nat, base: nat)

  // ---------------------------------------------------------------- node and rank tables

  /** Ranks living on a node, in ascending order (localRankToRank). */
  function RanksOn(rankToNode: seq<nat>, node: nat): (s: seq<int>)
  {
    if rankToNode == [] then []
    else
      var r := |rankToNode| - 1;
      RanksOn(rankToNode[..r], node) + (if rankToNode[r] == node then [r] else [])
  }

  function NodeTable(rankToNode: seq<nat>, nNodes: nat): (t: seq<seq<int>>)
    ensures |t| == nNodes
  {
    seq(nNodes, (n: nat) => RanksOn(rankToNode, n))
  }

  function LocalRank(rankToNode: seq<nat>, r: nat): nat
    requires r < |rankToNode|
  {
    |RanksOn(rankToNode[..r], rankToNode[r])|
  }

  function Flat(nodes: seq<seq<int>>): seq<int> {
    if nodes == [] then [] else Flat(nodes[..|nodes| - 1]) + nodes[|nodes| - 1]
  }

  lemma {:induction false} RanksOnMembers(rankToNode: seq<nat>, node: nat)
    ensures forall x :: x in RanksOn(rankToNode, node) <==> 0 <= x < |rankToNode| && rankToNode[x] == node
    ensures Distinct(RanksOn(rankToNode, node))
  {
    if rankToNode != [] {
      var r := |rankToNode| - 1;
      var front := RanksOn(rankToNode[..r], node);
      RanksOnMembers(rankToNode[..r], node);
      if rankToNode[r] == node {
        DistinctAppend(front, r);
      } else {
        assert RanksOn(rankToNode, node) == front;
      }
    }
  }

  lemma {:induction false} LocalRankLocates(rankToNode: seq<nat>, r: nat)
    requires r < |rankToNode|
    ensures LocalRank(rankToNode, r) < |RanksOn(rankToNode, rankToNode[r])|
    ensures RanksOn(rankToNode, rankToNode[r])[LocalRank(rankToNode, r)] == r
  {
    var k := |rankToNode| - 1;
    if r < k {
      LocalRankLocates(rankToNode[..k], r);
      assert rankToNode[..k][..r] == rankToNode[..r];
    }
  }

  lemma {:induction false} FlatMembers(nodes: seq<seq<int>>)
    ensures forall x :: x in Flat(nodes) <==> exists n :: 0 <= n < |nodes| && x in nodes[n]
  {
    if nodes != [] {
      var k := |nodes| - 1;
      FlatMembers(nodes[..k]);
      forall x ensures x in Flat(nodes) <==> exists n :: 0 <= n < |nodes| && x in nodes[n] {
        if n :| 0 <= n < |nodes| && x in nodes[n] {
          if n < k {
            assert x in nodes[..k][n];
          }
        }
      }
    }
  }

  lemma {:induction false} FlatDistinct(nodes: seq<seq<int>>)
    requires forall n :: 0 <= n < |nodes| ==> Distinct(nodes[n])
    requires forall n, m, x :: 0 <= n < m < |nodes| && x in nodes[n] ==> x !in nodes[m]
    ensures Distinct(Flat(nodes))
  {
    if nodes != [] {
      var k := |nodes| - 1;
      FlatDistinct(nodes[..k]);
      FlatMembers(nodes[..k]);
      forall x | x in Flat(nodes[..k]) ensures x !in nodes[k] {
        var n :| 0 <= n < k && x in nodes[..k][n];
      }
      DistinctJoin(Flat(nodes[..k]), nodes[k]);
    }
  }

  /** The node tables together list every rank exactly once. */
  lemma TablePartitionsRanks(rankToNode: seq<nat>, nNodes: nat)
    requires forall r :: 0 <= r < |rankToNode| ==> rankToNode[r] < nNodes
    ensures IsPermutation(Flat(NodeTable(rankToNode, nNodes)), |rankToNode|)
  {
    var t := NodeTable(rankToNode, nNodes);
    forall n | 0 <= n < nNodes
      ensures Distinct(t[n])
      ensures forall x :: x in t[n] <==> 0 <= x < |rankToNode| && rankToNode[x] == n
    {
      RanksOnMembers(rankToNode, n);
    }
    FlatDistinct(t);
    FlatMembers(t);
    forall x ensures x in Flat(t) <==> 0 <= x < |rankToNode| {
      if 0 <= x < |rankToNode| {
        assert x in t[rankToNode[x]];
      }
    }
    DistinctCovers(Flat(t), |rankToNode|);
  }

  // ---------------------------------------------------------------- group size

  function Gcd(a: nat, b: nat): (g: nat)
    requires a > 0
    ensures g > 0 && a % g == 0 && b % g == 0
    decreases b
  {
    if b == 0 then a
    else
      var g := Gcd(b, a % b);
      GcdStep(a, b, g);
      g
  }

  lemma GcdStep(a: nat, b: nat, g: nat)
    requires b > 0 && g > 0 && b % g == 0 && (a % b) % g == 0
    ensures a % g == 0
  {
    var p, q, r := b / g, a / b, (a % b) / g;
    assert a == b * q + a % b && b == g * p && a % b == g * r;
    assert a == (p * q + r) * g;
    MulDivMod(p * q + r, g, 0);
  }

  /** Every common divisor divides the greatest one. */
  lemma {:induction false} GcdGreatest(a: nat, b: nat, d: nat)
    requires a > 0 && d > 0 && a % d == 0 && b % d == 0
    ensures Gcd(a, b) % d == 0
    decreases b
  {
    if b != 0 {
      assert a % b == a + (-(a / b)) * b;
      DividesSum(a, b, -(a / b), d);
      GcdGreatest(b, a % b, d);
    }
  }

  /** The same with signed operands, as the code computes it; the sign depends on how many divisions it takes. */
  function SignedGcd(a: int, b: int): (g: int)
    requires a != 0
    ensures Abs(g) == Gcd(Abs(a), Abs(b)) && (a > 0 && b >= 0 ==> g > 0)
    decreases Abs(b)
  {
    if b == 0 then a else SignedGcd(b, TruncRem(a, b))
  }

  ghost predicate DividesAll(g: nat, nodes: seq<seq<int>>) {
    g > 0 && forall n :: 0 <= n < |nodes| ==> |nodes[n]| % g == 0
  }

  /** Group size after looking at the given nodes, starting from a requested size. */
  function GroupSize(requested: int, nodes: seq<seq<int>>): (g: int)
    requires requested != 0
    ensures DividesAll(Abs(g), nodes) && (requested > 0 ==> g > 0)
  {
    if nodes == [] then requested
    else
      var k := |nodes| - 1;
      var g := GroupSize(requested, nodes[..k]);
      var locals := |nodes[k]|;
      assert forall n :: 0 <= n < |nodes| - 1 ==> nodes[n] == nodes[..k][n];
      if TruncRem(locals, g) != 0 || locals < g then
        var h := SignedGcd(g, locals);
        ShrinkKeepsDividing(Abs(g), Abs(h), nodes[..k]);
        h
      else
        g
  }

  /** Up to its sign the group size is the greatest divisor that the request and all nodes have in common: it divides
      the request, and every common divisor divides it. */
  lemma {:induction false} GroupSizeGreatest(requested: int, nodes: seq<seq<int>>, d: nat)
    requires requested != 0
    ensures Abs(requested) % Abs(GroupSize(requested, nodes)) == 0
    ensures DividesAll(d, nodes) && Abs(requested) % d == 0 ==> Abs(GroupSize(requested, nodes)) % d == 0
  {
    if nodes != [] {
      var k := |nodes| - 1;
      var g := GroupSize(requested, nodes[..k]);
      GroupSizeGreatest(requested, nodes[..k], d);
      ModMultiple(Abs(requested), Abs(g), Gcd(Abs(g), |nodes[k]|));
      if DividesAll(d, nodes) && Abs(requested) % d == 0 {
        GcdGreatest(Abs(g), |nodes[k]|, d);
      }
    } else {
      MulDivMod(1, Abs(requested), 0);
    }
  }

  lemma ShrinkKeepsDividing(g: nat, h: nat, nodes: seq<seq<int>>)
    requires DividesAll(g, nodes) && h > 0 && g % h == 0
    ensures DividesAll(h, nodes)
  {
    forall n | 0 <= n < |nodes| ensures |nodes[n]| % h == 0 {
      ModMultiple(|nodes[n]|, g, h);
    }
  }

  // ---------------------------------------------------------------- one round, on positions

  /* A rank is identified with its position in Flat(nodes): position = group * groupSize + local id. */

  function GroupOf(gs: nat, n: nat, p: nat): (g: nat)
    requires gs > 0 && p < n * gs
    ensures g < n && g == p / gs
  {
    Decompose(gs, n, p);
    p / gs
  }

  function LocalOf(gs: nat, p: nat): (l: nat)
    requires gs > 0
    ensures l < gs && l == p % gs
  {
    p % gs
  }

  function Pos(gs: nat, n: nat, g: nat, l: nat): (p: nat)
    requires gs > 0 && g < n && l < gs
    ensures p < n * gs && p == g * gs + l
    ensures GroupOf(gs, n, p) == g && LocalOf(gs, p) == l
  {
    Compose(gs, n, g, l);
    g * gs + l
  }

  /** (x + d) mod n for operands already reduced. */
  function AddMod(x: nat, d: nat, n: nat): (r: nat)
    requires x < n && d < n
    ensures r < n && r == (x + d) % n
  {
    if x + d < n then x + d else MulDivMod(1, n, x + d - n); x + d - n
  }

  function SubMod(x: nat, d: nat, n: nat): (r: nat)
    requires x < n && d < n
    ensures r < n && r == (x - d + n) % n
  {
    if x < d then x - d + n else MulDivMod(1, n, x - d); x - d
  }

  function SendPos(gs: nat, n: nat, p: nat, D: nat, d: nat): nat
    requires gs > 0 && p < n * gs && D < n && d < gs
  {
    Pos(gs, n, AddMod(GroupOf(gs, n, p), D, n), AddMod(LocalOf(gs, p), d, gs))
  }

  function RecvPos(gs: nat, n: nat, p: nat, D: nat, d: nat): nat
    requires gs > 0 && p < n * gs && D < n && d < gs
  {
    Pos(gs, n, SubMod(GroupOf(gs, n, p), D, n), SubMod(LocalOf(gs, p), d, gs))
  }

  lemma Compose(gs: nat, n: nat, g: nat, l: nat)
    requires gs > 0 && g < n && l < gs
    ensures 0 <= g * gs + l < n * gs
    ensures (g * gs + l) / gs == g && (g * gs + l) % gs == l
  {
    MulDivMod(g, gs, l);
    MulMono(g + 1, n, gs);
  }

  lemma Decompose(gs: nat, n: nat, p: nat)
    requires gs > 0 && p < n * gs
    ensures p / gs < n && p % gs < gs && p == p / gs * gs + p % gs
  {
    MulMono(n, p / gs, gs);
  }

  lemma PosSplit(gs: nat, n: nat, p: nat)
    requires gs > 0 && p < n * gs
    ensures Pos(gs, n, GroupOf(gs, n, p), LocalOf(gs, p)) == p
  {
    Decompose(gs, n, p);
  }

  /** Receiving undoes sending: the rank I send to in a round is the rank that receives from me in it. */
  lemma SendRecvInverse(gs: nat, n: nat, p: nat, D: nat, d: nat)
    requires gs > 0 && p < n * gs && D < n && d < gs
    ensures RecvPos(gs, n, SendPos(gs, n, p, D, d), D, d) == p
    ensures SendPos(gs, n, RecvPos(gs, n, p, D, d), D, d) == p
  {
    PosSplit(gs, n, p);
    AddSub(GroupOf(gs, n, p), D, n);
    AddSub(LocalOf(gs, p), d, gs);
  }

  lemma AddSub(x: nat, d: nat, n: nat)
    requires x < n && d < n
    ensures SubMod(AddMod(x, d, n), d, n) == x
    ensures AddMod(SubMod(x, d, n), d, n) == x
  {
  }

  lemma Cancel(x: nat, d: nat, e: nat, n: nat)
    requires x < n && d < n && e < n
    ensures AddMod(x, d, n) == AddMod(x, e, n) ==> d == e
    ensures SubMod(x, d, n) == SubMod(x, e, n) ==> d == e
  {
  }

  lemma SendPosInjective(gs: nat, n: nat, p: nat, D: nat, d: nat, E: nat, e: nat)
    requires gs > 0 && p < n * gs && D < n && d < gs && E < n && e < gs
    ensures SendPos(gs, n, p, D, d) == SendPos(gs, n, p, E, e) ==> D == E && d == e
  {
    Cancel(GroupOf(gs, n, p), D, E, n);
    Cancel(LocalOf(gs, p), d, e, gs);
  }

  lemma RecvPosInjective(gs: nat, n: nat, p: nat, D: nat, d: nat, E: nat, e: nat)
    requires gs > 0 && p < n * gs && D < n && d < gs && E < n && e < gs
    ensures RecvPos(gs, n, p, D, d) == RecvPos(gs, n, p, E, e) ==> D == E && d == e
  {
    Cancel(GroupOf(gs, n, p), D, E, n);
    Cancel(LocalOf(gs, p), d, e, gs);
  }

  // ---------------------------------------------------------------- the sequence of group deltas

  /** Group deltas kept by the filter during the first k rounds. */
  function DeltaList(nGroups: nat, n2: nat, k: nat): (s: seq<nat>)
    requires n2 >= 1
    ensures |s| <= k
    ensures forall i :: 0 <= i < |s| ==> s[i] < nGroups
  {
    if k == 0 then []
    else DeltaList(nGroups, n2, k - 1) + (if Delta(n2, k - 1) < nGroups then [Delta(n2, k - 1)] else [])
  }

  ghost predicate Produced(n2: nat, k: nat, x: int)
    requires n2 >= 1
  {
    exists j: nat :: j < k && Delta(n2, j) == x
  }

  lemma {:induction false} DeltaListMembers(nGroups: nat, n2: nat, k: nat)
    requires n2 >= 1
    ensures forall x :: x in DeltaList(nGroups, n2, k) <==> x < nGroups && Produced(n2, k, x)
  {
    if k != 0 {
      DeltaListMembers(nGroups, n2, k - 1);
      forall x ensures Produced(n2, k, x) <==> Produced(n2, k - 1, x) || x == Delta(n2, k - 1) {
      }
    }
  }

  lemma {:induction false} DeltaListDistinct(nGroups: nat, n2: nat, k: nat)
    requires n2 >= 1
    requires forall i: nat, j: nat :: i < j < k ==> Delta(n2, i) != Delta(n2, j)
    ensures Distinct(DeltaList(nGroups, n2, k))
  {
    if k != 0 {
      DeltaListDistinct(nGroups, n2, k - 1);
      DeltaListMembers(nGroups, n2, k - 1);
      if Delta(n2, k - 1) < nGroups {
        assert !Produced(n2, k - 1, Delta(n2, k - 1));
        DistinctAppend(DeltaList(nGroups, n2, k - 1), Delta(n2, k - 1));
      }
    }
  }

  function AllDeltas(n2: nat, k: nat): (s: seq<int>)
    requires n2 >= 1
    ensures |s| == k && forall j :: 0 <= j < k ==> s[j] == Delta(n2, j)
  {
    seq(k, j requires 0 <= j < k => Delta(n2, j))
  }

  /** In a full cycle the unfiltered deltas are a permutation of all residues. */
  lemma DeltasPermutation(m: nat)
    ensures IsPermutation(AllDeltas(Pow2(m), Pow2(m)), Pow2(m))
  {
    var s := AllDeltas(Pow2(m), Pow2(m));
    forall i, j | 0 <= i < j < |s| ensures s[i] != s[j] {
      DeltaInjective(m, i, j);
    }
  }

  /** Filtering to the valid group ids leaves every group delta exactly once. */
  lemma FilteredDeltasPermutation(nGroups: nat, m: nat)
    requires nGroups <= Pow2(m)
    ensures IsPermutation(DeltaList(nGroups, Pow2(m), Pow2(m)), nGroups)
  {
    var n2 := Pow2(m);
    DeltaListMembers(nGroups, n2, n2);
    forall i: nat, j: nat | i < j < n2 ensures Delta(n2, i) != Delta(n2, j) {
      DeltaInjective(m, i, j);
    }
    DeltaListDistinct(nGroups, n2, n2);
    DeltasPermutation(m);
    Pigeonhole(AllDeltas(n2, n2), n2);
    forall v ensures v in DeltaList(nGroups, n2, n2) <==> 0 <= v < nGroups {
      if 0 <= v < nGroups {
        assert v in AllDeltas(n2, n2);
        var j :| 0 <= j < n2 && AllDeltas(n2, n2)[j] == v;
        assert Delta(n2, j) == v;
      }
    }
    DistinctCovers(DeltaList(nGroups, n2, n2), nGroups);
  }

  // ---------------------------------------------------------------- the groups of a node table

  /** Where each group lives, in the order groups are numbered. */
  function Groups(nodes: seq<seq<int>>, gs: nat): seq<Group>
    requires gs > 0
  {
    if nodes == [] then []
    else
      var k := |nodes| - 1;
      Groups(nodes[..k], gs) + GroupsIn(k, gs, |nodes[k]| / gs)
  }

  function GroupsIn(node: nat, gs: nat, count: nat): (s: seq<Group>)
    ensures |s| == count
    ensures forall g :: 0 <= g < count ==> s[g] == Group(node, g * gs)
  {
    if count == 0 then [] else GroupsIn(node, gs, count - 1) + [Group(node, (count - 1) * gs)]
  }

  lemma {:induction false} GroupsCount(nodes: seq<seq<int>>, gs: nat)
    requires DividesAll(gs, nodes)
    ensures |Groups(nodes, gs)| * gs == |Flat(nodes)|
  {
    if nodes == [] {
      assert |Groups(nodes, gs)| == 0;
    } else {
      var k := |nodes| - 1;
      var front := nodes[..k];
      GroupsCount(front, gs);
      var a, x := |Groups(front, gs)|, |nodes[k]|;
      NodeAddsGroups(a, |Flat(front)|, x, gs);
      assert |Groups(nodes, gs)| == a + x / gs;
    }
  }

  lemma NodeAddsGroups(groups: int, ranks: int, x: int, gs: int)
    requires gs > 0 && x % gs == 0 && groups * gs == ranks
    ensures (groups + x / gs) * gs == ranks + x
  {
    DistributeQuotient(groups, x, gs);
  }

  lemma DistributeQuotient(a: int, x: int, d: int)
    requires d > 0 && x % d == 0
    ensures (a + x / d) * d == a * d + x
  {
    assert x == (x / d) * d;
    assert (a + x / d) * d == a * d + (x / d) * d;
  }

  lemma FitsInNode(g: nat, l: nat, gs: nat, x: nat)
    requires gs > 0 && x % gs == 0 && g < x / gs && l < gs
    ensures g * gs + l < x
  {
    Compose(gs, x / gs, g, l);
    assert x == (x / gs) * gs;
  }

  ghost predicate Located(nodes: seq<seq<int>>, at: Group, l: nat, x: int) {
    at.node < |nodes| && at.base + l < |nodes[at.node]| && nodes[at.node][at.base + l] == x
  }

  /** Looking a member up through the group tables finds its entry of Flat(nodes). */
  lemma {:induction false} GroupsLocate(nodes: seq<seq<int>>, gs: nat, g: nat, l: nat)
    requires DividesAll(gs, nodes) && g < |Groups(nodes, gs)| && l < gs
    ensures g * gs + l < |Flat(nodes)|
    ensures Located(nodes, Groups(nodes, gs)[g], l, Flat(nodes)[g * gs + l])
  {
    GroupsCount(nodes, gs);
    Compose(gs, |Groups(nodes, gs)|, g, l);
    var k := |nodes| - 1;
    var before := nodes[..k];
    GroupsCount(before, gs);
    var h := |Groups(before, gs)|;
    if g < h {
      GroupsLocate(before, gs, g, l);
    } else {
      FitsInNode(g - h, l, gs, |nodes[k]|);
      Distribute(g - h, h, gs);
    }
  }

  /** Number of groups on nodes before a rank's node, plus its group inside the node. */
  lemma GroupOfLocal(nodes: seq<seq<int>>, gs: nat, node: nat, i: nat)
    requires DividesAll(gs, nodes) && node < |nodes| && i < |nodes[node]|
    ensures (|Flat(nodes[..node])| + i) / gs == |Groups(nodes[..node], gs)| + i / gs
    ensures (|Flat(nodes[..node])| + i) % gs == i % gs
  {
    GroupsCount(nodes[..node], gs);
    SkipGroups(|Groups(nodes[..node], gs)|, i, gs);
  }

  /** Whole groups in front change the group number only. */
  lemma SkipGroups(h: nat, i: nat, gs: nat)
    requires gs > 0
    ensures (h * gs + i) / gs == h + i / gs
    ensures (h * gs + i) % gs == i % gs
  {
    var q, l := i / gs, i % gs;
    assert i == q * gs + l;
    Distribute(h, q, gs);
    MulDivMod(h + q, gs, l);
  }

  lemma {:induction false} FlatEntry(nodes: seq<seq<int>>, node: nat, i: nat)
    requires node < |nodes| && i < |nodes[node]|
    ensures |Flat(nodes[..node])| + i < |Flat(nodes)|
    ensures Flat(nodes)[|Flat(nodes[..node])| + i] == nodes[node][i]
  {
    var k := |nodes| - 1;
    if node < k {
      FlatEntry(nodes[..k], node, i);
      assert nodes[..k][..node] == nodes[..node];
    }
  }

  // ---------------------------------------------------------------- the schedule

  /** All ranks agree on these: the rank list, the group size, and the list of group deltas. */
  datatype Plan = Plan(flat: seq<int>, gs: nat, deltas: seq<nat>)

  ghost predicate ValidPlan(plan: Plan) {
    && plan.gs > 0
    && IsPermutation(plan.deltas, |plan.deltas|)
    && |plan.flat| == |plan.deltas| * plan.gs
    && IsPermutation(plan.flat, |plan.flat|)
  }

  ghost function RoundPos(plan: Plan, p: nat, t: nat): (r: (nat, nat))
    requires ValidPlan(plan) && p < |plan.flat| && t < |plan.flat|
    ensures r.0 < |plan.flat| && r.1 < |plan.flat|
  {
    var n := |plan.deltas|;
    var D, d := plan.deltas[GroupOf(plan.gs, n, t)], LocalOf(plan.gs, t);
    (SendPos(plan.gs, n, p, D, d), RecvPos(plan.gs, n, p, D, d))
  }

  /** What the rank at position p does in round t. */
  ghost function RoundSlot(plan: Plan, p: nat, t: nat): Slot
    requires ValidPlan(plan) && p < |plan.flat| && t < |plan.flat|
  {
    var r := RoundPos(plan, p, t);
    Slot(plan.flat[r.0], plan.flat[r.1])
  }

  /** In every round, a sends to b exactly when b receives from a. */
  lemma ScheduleMatches(plan: Plan, p: nat, q: nat, t: nat)
    requires ValidPlan(plan) && p < |plan.flat| && q < |plan.flat| && t < |plan.flat|
    ensures RoundSlot(plan, p, t).sendRank == plan.flat[q] <==> RoundSlot(plan, q, t).recvRank == plan.flat[p]
  {
    var n := |plan.deltas|;
    var D, d := plan.deltas[GroupOf(plan.gs, n, t)], LocalOf(plan.gs, t);
    SendRecvInverse(plan.gs, n, p, D, d);
    SendRecvInverse(plan.gs, n, q, D, d);
  }

  lemma DistinctRounds(plan: Plan, p: nat, t: nat, u: nat)
    requires ValidPlan(plan) && p < |plan.flat| && t < u < |plan.flat|
    ensures RoundPos(plan, p, t).0 != RoundPos(plan, p, u).0
    ensures RoundPos(plan, p, t).1 != RoundPos(plan, p, u).1
  {
    var n, gs := |plan.deltas|, plan.gs;
    PosSplit(gs, n, t);
    PosSplit(gs, n, u);
    var i, j := GroupOf(gs, n, t), GroupOf(gs, n, u);
    assert i != j ==> plan.deltas[i] != plan.deltas[j];
    SendPosInjective(gs, n, p, plan.deltas[i], LocalOf(gs, t), plan.deltas[j], LocalOf(gs, u));
    RecvPosInjective(gs, n, p, plan.deltas[i], LocalOf(gs, t), plan.deltas[j], LocalOf(gs, u));
  }

  ghost function Sends(plan: Plan, p: nat): (s: seq<int>)
    requires ValidPlan(plan) && p < |plan.flat|
  {
    seq(|plan.flat|, t requires 0 <= t < |plan.flat| => RoundSlot(plan, p, t).sendRank)
  }

  ghost function Recvs(plan: Plan, p: nat): (s: seq<int>)
    requires ValidPlan(plan) && p < |plan.flat|
  {
    seq(|plan.flat|, t requires 0 <= t < |plan.flat| => RoundSlot(plan, p, t).recvRank)
  }

  /** Over a whole schedule a rank sends to every rank once and receives from every rank once. */
  lemma ScheduleIsPermutation(plan: Plan, p: nat)
    requires ValidPlan(plan) && p < |plan.flat|
    ensures IsPermutation(Sends(plan, p), |plan.flat|)
    ensures IsPermutation(Recvs(plan, p), |plan.flat|)
  {
    forall t, u | 0 <= t < u < |plan.flat|
      ensures Sends(plan, p)[t] != Sends(plan, p)[u] && Recvs(plan, p)[t] != Recvs(plan, p)[u]
    {
      DistinctRounds(plan, p, t, u);
    }
  }

  // ---------------------------------------------------------------- from the communicator to its schedule

  ghost predicate ValidRanks(rankToNode: seq<nat>, nNodes: nat) {
    && |rankToNode| > 0
    && forall r :: 0 <= r < |rankToNode| ==> rankToNode[r] < nNodes
  }

  function MaxLocal(nodes: seq<seq<int>>): nat {
    if nodes == [] then 0 else Max(MaxLocal(nodes[..|nodes| - 1]), |nodes[|nodes| - 1]|)
  }

  lemma {:induction false} MaxLocalBound(nodes: seq<seq<int>>)
    ensures forall n :: 0 <= n < |nodes| ==> |nodes[n]| <= MaxLocal(nodes)
  {
    if nodes != [] {
      var k := |nodes| - 1;
      MaxLocalBound(nodes[..k]);
      forall n | 0 <= n < |nodes| ensures |nodes[n]| <= MaxLocal(nodes) {
        if n < k {
          assert nodes[n] == nodes[..k][n];
        }
      }
    }
  }

  lemma MaxLocalPositive(rankToNode: seq<nat>, nNodes: nat)
    requires ValidRanks(rankToNode, nNodes)
    ensures MaxLocal(NodeTable(rankToNode, nNodes)) > 0
  {
    var nodes := NodeTable(rankToNode, nNodes);
    LocalRankLocates(rankToNode, 0);
    MaxLocalBound(nodes);
    assert 0 < |nodes[rankToNode[0]]|;
  }

  /** The group size a communicator starts from: a parameter, or a whole node when there is only one. */
  function RequestedSize(nodes: seq<seq<int>>, groupSizeParam: int): int {
    if |nodes| > 1 then groupSizeParam else MaxLocal(nodes)
  }

  /** The group size a communicator ends with; 0 when the code divides by zero. */
  function ChosenSize(nodes: seq<seq<int>>, groupSizeParam: int): int {
    var requested := RequestedSize(nodes, groupSizeParam);
    if requested == 0 then 0 else GroupSize(requested, nodes)
  }

  /** With several nodes the group size is, up to its sign, the greatest divisor that the parameter and all node sizes
      have in common; a single node is one group. */
  lemma ChosenSizeMeaning(nodes: seq<seq<int>>, groupSizeParam: int, d: nat)
    requires nodes != [] && (|nodes| == 1 ==> nodes[0] != [])
    ensures |nodes| == 1 ==> ChosenSize(nodes, groupSizeParam) == |nodes[0]|
    ensures |nodes| > 1 && groupSizeParam != 0 ==>
              var g := Abs(ChosenSize(nodes, groupSizeParam));
              && g > 0 && (forall n :: 0 <= n < |nodes| ==> |nodes[n]| % g == 0) && Abs(groupSizeParam) % g == 0
              && (DividesAll(d, nodes) && Abs(groupSizeParam) % d == 0 ==> g % d == 0)
  {
    if |nodes| == 1 {
      OneNode(nodes);
    } else if groupSizeParam != 0 {
      GroupSizeGreatest(groupSizeParam, nodes, d);
    }
  }

  lemma OneNode(nodes: seq<seq<int>>)
    requires |nodes| == 1 && nodes[0] != []
    ensures MaxLocal(nodes) == |nodes[0]| == GroupSize(|nodes[0]|, nodes)
  {
    var front := nodes[..|nodes| - 1];
    assert front == [] && MaxLocal(front) == 0 && GroupSize(|nodes[0]|, front) == |nodes[0]|;
    MulDivMod(1, |nodes[0]|, 0);
  }

  /** There is a schedule: the group size comes out positive. */
  predicate Schedulable(rankToNode: seq<nat>, nNodes: nat, groupSizeParam: int) {
    ChosenSize(NodeTable(rankToNode, nNodes), groupSizeParam) > 0
  }

  /** A positive parameter, or a single node, always gives a schedule; with several nodes zero never does, nor does a
      negative parameter that divides the number of ranks of every node. */
  lemma SchedulableWhen(rankToNode: seq<nat>, nNodes: nat, groupSizeParam: int)
    requires ValidRanks(rankToNode, nNodes)
    ensures nNodes == 1 || groupSizeParam > 0 ==> Schedulable(rankToNode, nNodes, groupSizeParam)
    ensures nNodes > 1 && groupSizeParam == 0 ==> !Schedulable(rankToNode, nNodes, groupSizeParam)
    ensures nNodes > 1 && groupSizeParam < 0 && DividesAll(-groupSizeParam, NodeTable(rankToNode, nNodes)) ==>
              !Schedulable(rankToNode, nNodes, groupSizeParam)
  {
    MaxLocalPositive(rankToNode, nNodes);
    var nodes := NodeTable(rankToNode, nNodes);
    if nNodes > 1 && groupSizeParam < 0 && DividesAll(-groupSizeParam, nodes) {
      NegativeStays(groupSizeParam, nodes);
    }
  }

  lemma {:induction false} NegativeStays(g: int, nodes: seq<seq<int>>)
    requires g < 0 && DividesAll(-g, nodes)
    ensures GroupSize(g, nodes) == g
  {
    if nodes != [] {
      NegativeStays(g, nodes[..|nodes| - 1]);
    }
  }

  /** Other negative parameters can give a schedule or not: -8 becomes 4 with nodes of four ranks and -2 with nodes of
      six. */
  lemma NegativeEitherWay(four: seq<seq<int>>, six: seq<seq<int>>)
    requires |four| == |six| == 2 && |four[0]| == |four[1]| == 4 && |six[0]| == |six[1]| == 6
    ensures ChosenSize(four, -8) == 4 && ChosenSize(six, -8) == -2
  {
    EuclidFour();
    EuclidSix();
    FirstOfTwo(-8, four, 4);
    FirstOfTwo(-8, six, -2);
  }

  lemma EuclidFour()
    ensures SignedGcd(-8, 4) == 4 && TruncRem(4, -8) == 4 && TruncRem(4, 4) == 0
  {
    assert SignedGcd(-8, 4) == SignedGcd(4, 0);
  }

  lemma EuclidSix()
    ensures SignedGcd(-8, 6) == -2 && TruncRem(6, -8) == 6 && TruncRem(6, -2) == 0
  {
    assert TruncRem(-8, 6) == -2;
    assert SignedGcd(-8, 6) == SignedGcd(6, -2) == SignedGcd(-2, 0);
  }

  lemma FirstOfTwo(g: int, nodes: seq<seq<int>>, h: int)
    requires g < 0 && |nodes| == 2 && TruncRem(|nodes[0]|, g) != 0 && SignedGcd(g, |nodes[0]|) == h
    requires h != 0 && TruncRem(|nodes[1]|, h) == 0 && h <= |nodes[1]|
    ensures ChosenSize(nodes, g) == h
  {
    var front := nodes[..1];
    assert front[..0] == [] && nodes[..|nodes| - 1] == front;
    assert GroupSize(g, front) == h;
  }

  function NDeltas(nGroups: nat): seq<nat>
    requires nGroups >= 1
  {
    var n2 := Pow2(Log2Up(nGroups));
    DeltaList(nGroups, n2, n2)
  }

  ghost function MakePlan(rankToNode: seq<nat>, nNodes: nat, groupSizeParam: int): (plan: Plan)
    requires ValidRanks(rankToNode, nNodes) && Schedulable(rankToNode, nNodes, groupSizeParam)
    ensures ValidPlan(plan) && |plan.flat| == |rankToNode|
    ensures plan.flat == Flat(NodeTable(rankToNode, nNodes))
    ensures plan.gs == ChosenSize(NodeTable(rankToNode, nNodes), groupSizeParam)
    ensures DividesAll(plan.gs, NodeTable(rankToNode, nNodes))
    ensures |plan.deltas| == |Groups(NodeTable(rankToNode, nNodes), plan.gs)|
    ensures |plan.deltas| >= 1 && plan.deltas == NDeltas(|plan.deltas|)
  {
    MaxLocalPositive(rankToNode, nNodes);
    TablePartitionsRanks(rankToNode, nNodes);
    var nodes := NodeTable(rankToNode, nNodes);
    var gs := ChosenSize(nodes, groupSizeParam);
    GroupsCount(nodes, gs);
    var n := |Groups(nodes, gs)|;
    MulMono(1, n, gs);
    FilteredDeltasPermutation(n, Log2Up(n));
    Plan(Flat(nodes), gs, NDeltas(n))
  }

  /** Position of a rank in the flattened node table. */
  ghost function PositionOf(rankToNode: seq<nat>, nNodes: nat, r: nat): (p: nat)
    requires ValidRanks(rankToNode, nNodes) && r < |rankToNode|
    ensures p < |Flat(NodeTable(rankToNode, nNodes))|
    ensures Flat(NodeTable(rankToNode, nNodes))[p] == r
  {
    var nodes := NodeTable(rankToNode, nNodes);
    LocalRankLocates(rankToNode, r);
    FlatEntry(nodes, rankToNode[r], LocalRank(rankToNode, r));
    |Flat(nodes[..rankToNode[r]])| + LocalRank(rankToNode, r)
  }

  /** The schedule of rank r as a function of what every rank knows. */
  ghost function Schedule(rankToNode: seq<nat>, nNodes: nat, groupSizeParam: int, r: nat): (s: seq<Slot>)
    requires ValidRanks(rankToNode, nNodes) && Schedulable(rankToNode, nNodes, groupSizeParam) && r < |rankToNode|
    ensures |s| == |rankToNode|
  {
    var plan := MakePlan(rankToNode, nNodes, groupSizeParam);
    var p := PositionOf(rankToNode, nNodes, r);
    seq(|rankToNode|, t requires 0 <= t < |rankToNode| => RoundSlot(plan, p, t))
  }

  /** Rank a sends to rank b in round t exactly when b receives from a in round t. */
  lemma RanksAgree(rankToNode: seq<nat>, nNodes: nat, groupSizeParam: int, a: nat, b: nat, t: nat)
    requires ValidRanks(rankToNode, nNodes) && Schedulable(rankToNode, nNodes, groupSizeParam)
    requires a < |rankToNode| && b < |rankToNode| && t < |rankToNode|
    ensures Schedule(rankToNode, nNodes, groupSizeParam, a)[t].sendRank == b
       <==> Schedule(rankToNode, nNodes, groupSizeParam, b)[t].recvRank == a
  {
    var plan := MakePlan(rankToNode, nNodes, groupSizeParam);
    ScheduleMatches(plan, PositionOf(rankToNode, nNodes, a), PositionOf(rankToNode, nNodes, b), t);
  }

  /** Ranks are numbered through the groups node by node, and on each node in ascending order. */
  lemma RanksInOrder(rankToNode: seq<nat>, nNodes: nat, a: nat, b: nat)
    requires ValidRanks(rankToNode, nNodes) && a < |rankToNode| && b < |rankToNode|
    ensures PositionOf(rankToNode, nNodes, a) < PositionOf(rankToNode, nNodes, b) <==>
              rankToNode[a] < rankToNode[b] || (rankToNode[a] == rankToNode[b] && a < b)
  {
    if rankToNode[a] == rankToNode[b] {
      if a < b {
        LocalRanksAscend(rankToNode, a, b);
      } else if b < a {
        LocalRanksAscend(rankToNode, b, a);
      }
    } else if rankToNode[a] < rankToNode[b] {
      EarlierNode(rankToNode, nNodes, a, b);
    } else {
      EarlierNode(rankToNode, nNodes, b, a);
    }
  }

  lemma {:induction false} LocalRanksAscend(rankToNode: seq<nat>, a: nat, b: nat)
    requires a < b < |rankToNode| && rankToNode[a] == rankToNode[b]
    ensures LocalRank(rankToNode, a) < LocalRank(rankToNode, b)
  {
    RanksOnPrefix(rankToNode[..b], a + 1, rankToNode[a]);
    assert rankToNode[..b][..a + 1] == rankToNode[..a + 1] && rankToNode[..a + 1][..a] == rankToNode[..a];
  }

  lemma {:induction false} RanksOnPrefix(rankToNode: seq<nat>, k: nat, node: nat)
    requires k <= |rankToNode|
    ensures |RanksOn(rankToNode[..k], node)| <= |RanksOn(rankToNode, node)|
  {
    if k < |rankToNode| {
      var front := rankToNode[..|rankToNode| - 1];
      RanksOnPrefix(front, k, node);
      assert front[..k] == rankToNode[..k];
    } else {
      assert rankToNode[..k] == rankToNode;
    }
  }

  lemma EarlierNode(rankToNode: seq<nat>, nNodes: nat, a: nat, b: nat)
    requires ValidRanks(rankToNode, nNodes) && a < |rankToNode| && b < |rankToNode| && rankToNode[a] < rankToNode[b]
    ensures PositionOf(rankToNode, nNodes, a) < PositionOf(rankToNode, nNodes, b)
  {
    var nodes, m, n := NodeTable(rankToNode, nNodes), rankToNode[a], rankToNode[b];
    LocalRankLocates(rankToNode, a);
    assert nodes[..m + 1][..m] == nodes[..m];
    FlatPrefix(nodes[..n], m + 1);
    assert nodes[..n][..m + 1] == nodes[..m + 1];
  }

  lemma {:induction false} FlatPrefix(nodes: seq<seq<int>>, k: nat)
    requires k <= |nodes|
    ensures |Flat(nodes[..k])| <= |Flat(nodes)|
  {
    if k < |nodes| {
      var front := nodes[..|nodes| - 1];
      FlatPrefix(front, k);
      assert front[..k] == nodes[..k];
    } else {
      assert nodes[..k] == nodes;
    }
  }

  /** The rank that rank a sends to in round t: as many groups further as the round's group delta says, and inside the
      group as many places further as rounds have passed since that delta began, both counted in a circle. */
  lemma RoundPeer(rankToNode: seq<nat>, nNodes: nat, groupSizeParam: int, a: nat, b: nat, t: nat)
    requires ValidRanks(rankToNode, nNodes) && Schedulable(rankToNode, nNodes, groupSizeParam)
    requires a < |rankToNode| && b < |rankToNode| && t < |rankToNode|
    ensures
      var gs := ChosenSize(NodeTable(rankToNode, nNodes), groupSizeParam);
      var n, p, q := |rankToNode| / gs, PositionOf(rankToNode, nNodes, a), PositionOf(rankToNode, nNodes, b);
      && n >= 1 && t / gs < |NDeltas(n)|
      && (Schedule(rankToNode, nNodes, groupSizeParam, a)[t].sendRank == b <==>
            && q / gs == (p / gs + NDeltas(n)[t / gs]) % n
            && q % gs == (p % gs + t % gs) % gs)
  {
    var plan := MakePlan(rankToNode, nNodes, groupSizeParam);
    var gs, n, p, q := plan.gs, |plan.deltas|, PositionOf(rankToNode, nNodes, a), PositionOf(rankToNode, nNodes, b);
    MulDivMod(n, gs, 0);
    SendPosMeaning(gs, n, p, q, plan.deltas[GroupOf(gs, n, t)], LocalOf(gs, t));
  }

  lemma SendPosMeaning(gs: nat, n: nat, p: nat, q: nat, D: nat, d: nat)
    requires gs > 0 && p < n * gs && q < n * gs && D < n && d < gs
    ensures SendPos(gs, n, p, D, d) < n * gs
    ensures SendPos(gs, n, p, D, d) == q <==> q / gs == (p / gs + D) % n && q % gs == (p % gs + d) % gs
  {
    var s := SendPos(gs, n, p, D, d);
    assert GroupOf(gs, n, s) == (GroupOf(gs, n, p) + D) % n && LocalOf(gs, s) == (LocalOf(gs, p) + d) % gs;
    PosSplit(gs, n, q);
    PosSplit(gs, n, s);
  }

  function SendRanks(s: seq<Slot>): (r: seq<int>)
    ensures |r| == |s| && forall t :: 0 <= t < |s| ==> r[t] == s[t].sendRank
  {
    seq(|s|, t requires 0 <= t < |s| => s[t].sendRank)
  }

  function RecvRanks(s: seq<Slot>): (r: seq<int>)
    ensures |r| == |s| && forall t :: 0 <= t < |s| ==> r[t] == s[t].recvRank
  {
    seq(|s|, t requires 0 <= t < |s| => s[t].recvRank)
  }

  /** Each rank's send list and receive list are permutations of all ranks. */
  lemma RankSchedulePermutes(rankToNode: seq<nat>, nNodes: nat, groupSizeParam: int, a: nat)
    requires ValidRanks(rankToNode, nNodes) && Schedulable(rankToNode, nNodes, groupSizeParam) && a < |rankToNode|
    ensures IsPermutation(SendRanks(Schedule(rankToNode, nNodes, groupSizeParam, a)), |rankToNode|)
    ensures IsPermutation(RecvRanks(Schedule(rankToNode, nNodes, groupSizeParam, a)), |rankToNode|)
  {
    var plan := MakePlan(rankToNode, nNodes, groupSizeParam);
    var p := PositionOf(rankToNode, nNodes, a);
    ScheduleIsPermutation(plan, p);
    assert SendRanks(Schedule(rankToNode, nNodes, groupSizeParam, a)) == Sends(plan, p);
    assert RecvRanks(Schedule(rankToNode, nNodes, groupSizeParam, a)) == Recvs(plan, p);
  }

  lemma {:induction false} GroupsPrefix(nodes: seq<seq<int>>, gs: nat, k: nat)
    requires gs > 0 && k <= |nodes|
    ensures Groups(nodes[..k], gs) <= Groups(nodes, gs)
  {
    if k < |nodes| {
      GroupsPrefix(nodes[..|nodes| - 1], gs, k);
      assert nodes[..|nodes| - 1][..k] == nodes[..k];
    } else {
      assert nodes[..k] == nodes;
    }
  }

  /** The groups of one more node. */
  lemma NodeGroups(nodes: seq<seq<int>>, gs: nat, n: nat)
    requires DividesAll(gs, nodes) && n < |nodes|
    ensures |nodes[n]| % gs == 0
    ensures Groups(nodes[..n + 1], gs) == Groups(nodes[..n], gs) + GroupsIn(n, gs, |nodes[n]| / gs)
    ensures |Groups(nodes[..n], gs)| + |nodes[n]| / gs <= |Groups(nodes, gs)|
  {
    assert nodes[..n + 1][..n] == nodes[..n];
    GroupsPrefix(nodes, gs, n + 1);
  }

  lemma {:induction false} DeltaListPrefix(nGroups: nat, n2: nat, j: nat, k: nat)
    requires n2 >= 1 && j <= k
    ensures DeltaList(nGroups, n2, j) <= DeltaList(nGroups, n2, k)
  {
    if j < k {
      DeltaListPrefix(nGroups, n2, j, k - 1);
    }
  }

  /** Reading the rank tables through the group tables gives the peers of the round. */
  lemma RoundByTables(nodes: seq<seq<int>>, plan: Plan, p: nat, i: nat, delta: nat)
    requires ValidPlan(plan) && plan.flat == Flat(nodes) && DividesAll(plan.gs, nodes)
    requires |plan.deltas| == |Groups(nodes, plan.gs)|
    requires p < |plan.flat| && i < |plan.deltas| && delta < plan.gs
    ensures i * plan.gs + delta < |plan.flat|
    ensures
      var n, gs := |plan.deltas|, plan.gs;
      var slot := RoundSlot(plan, p, i * gs + delta);
      && Located(nodes, Groups(nodes, gs)[AddMod(GroupOf(gs, n, p), plan.deltas[i], n)],
                 AddMod(LocalOf(gs, p), delta, gs), slot.sendRank)
      && Located(nodes, Groups(nodes, gs)[SubMod(GroupOf(gs, n, p), plan.deltas[i], n)],
                 SubMod(LocalOf(gs, p), delta, gs), slot.recvRank)
  {
    var n, gs := |plan.deltas|, plan.gs;
    var t := Pos(gs, n, i, delta);
    GroupsLocate(nodes, gs, AddMod(GroupOf(gs, n, p), plan.deltas[i], n), AddMod(LocalOf(gs, p), delta, gs));
    GroupsLocate(nodes, gs, SubMod(GroupOf(gs, n, p), plan.deltas[i], n), SubMod(LocalOf(gs, p), delta, gs));
  }

  // ---------------------------------------------------------------- the communicator

  class Comm {
    const rank: nat
    const rankToNode: seq<nat>
    const nNodes: nat
    var nodeRanks: seq<seq<int>>
    var rankToLocalRank: seq<nat>
    var maxLocalRanks: nat
    var p2pSchedGroupSize: int
    const p2pSchedule: array<Slot>

    ghost predicate Valid() {
      ValidRanks(rankToNode, nNodes) && rank < |rankToNode| && p2pSchedule.Length == |rankToNode|
    }

    ghost predicate TablesBuilt()
      reads this
    {
      && Valid()
      && nodeRanks == NodeTable(rankToNode, nNodes)
      && maxLocalRanks == MaxLocal(nodeRanks)
      && |rankToLocalRank| == |rankToNode|
      && forall r :: 0 <= r < |rankToNode| ==> rankToLocalRank[r] == LocalRank(rankToNode, r)
    }

    constructor (rank: nat, rankToNode: seq<nat>, nNodes: nat)
      requires ValidRanks(rankToNode, nNodes) && rank < |rankToNode|
      ensures Valid() && fresh(p2pSchedule)
      ensures this.rank == rank && this.rankToNode == rankToNode && this.nNodes == nNodes
    {
      this.rank := rank;
      this.rankToNode := rankToNode;
      this.nNodes := nNodes;
      nodeRanks, rankToLocalRank, maxLocalRanks, p2pSchedGroupSize := [], [], 0, 0;
      p2pSchedule := new Slot[|rankToNode|](i => Slot(0, 0));
    }

    /** Builds the per-node rank tables from rankToNode. */
    method BuildNodeTables()
      requires Valid()
      modifies this
      ensures TablesBuilt()
    {
      CountLocalRanks();
      label Counted:
      ListNodeRanks();
      maxLocalRanks := 0;
      for n := 0 to nNodes
        invariant nodeRanks == NodeTable(rankToNode, nNodes)
        invariant maxLocalRanks == MaxLocal(nodeRanks[..n])
        invariant rankToLocalRank == old@Counted(rankToLocalRank)
      {
        maxLocalRanks := Max(maxLocalRanks, |nodeRanks[n]|);
        assert nodeRanks[..n + 1][..n] == nodeRanks[..n];
      }
      assert nodeRanks[..nNodes] == nodeRanks;
    }

    /** Second pass: each rank is listed on its node. */
    method ListNodeRanks()
      requires Valid()
      modifies this`nodeRanks
      ensures nodeRanks == NodeTable(rankToNode, nNodes)
    {
      nodeRanks := seq(nNodes, _ => []);
      for r := 0 to |rankToNode|
        invariant |nodeRanks| == nNodes
        invariant forall m :: 0 <= m < nNodes ==> nodeRanks[m] == RanksOn(rankToNode[..r], m)
      {
        var node := rankToNode[r];
        assert rankToNode[..r + 1][..r] == rankToNode[..r];
        nodeRanks := nodeRanks[node := nodeRanks[node] + [r]];
      }
      assert rankToNode[..|rankToNode|] == rankToNode;
    }

    /** First pass: the local rank of each rank is the number of earlier ranks on its node. */
    method CountLocalRanks()
      requires Valid()
      modifies this
      ensures |rankToLocalRank| == |rankToNode|
      ensures forall r :: 0 <= r < |rankToNode| ==> rankToLocalRank[r] == LocalRank(rankToNode, r)
    {
      var localRanks: seq<nat> := seq(nNodes, _ => 0);
      rankToLocalRank := [];
      for r := 0 to |rankToNode|
        invariant |localRanks| == nNodes && |rankToLocalRank| == r
        invariant forall m :: 0 <= m < nNodes ==> localRanks[m] == |RanksOn(rankToNode[..r], m)|
        invariant forall q :: 0 <= q < r ==> rankToLocalRank[q] == LocalRank(rankToNode, q)
      {
        var node := rankToNode[r];
        assert rankToNode[..r + 1][..r] == rankToNode[..r];
        rankToLocalRank := rankToLocalRank + [localRanks[node]];
        localRanks := localRanks[node := localRanks[node] + 1];
      }
    }

    /** The group size, or 0 in place of a division by zero. */
    method ChooseGroupSize(groupSizeParam: int) returns (groupSize: int)
      requires TablesBuilt()
      ensures groupSize == ChosenSize(nodeRanks, groupSizeParam)
    {
      groupSize := if nNodes > 1 then groupSizeParam else maxLocalRanks;
      if groupSize == 0 {
        return;
      }
      ghost var requested := groupSize;
      for node := 0 to nNodes
        invariant groupSize == GroupSize(requested, nodeRanks[..node])
      {
        var localRanks := |nodeRanks[node]|;
        assert nodeRanks[..node + 1][..node] == nodeRanks[..node];
        if TruncRem(localRanks, groupSize) != 0 || localRanks < groupSize {
          groupSize := SignedGcd(groupSize, localRanks);
        }
      }
      assert nodeRanks[..nNodes] == nodeRanks;
    }

    /** Fills the tables of group locations and computes the id of the group that a rank belongs to. */
    static method BuildGroups(nodes: seq<seq<int>>, groupSize: nat, nGroups: nat, node: nat, localRank: nat)
      returns (ok: bool, groups: array<Group>, groupCount: nat, group: nat)
      requires DividesAll(groupSize, nodes) && nGroups == |Groups(nodes, groupSize)| && node < |nodes|
      ensures ok && fresh(groups) && groupCount == nGroups && groups[..] == Groups(nodes, groupSize)
      ensures group == |Groups(nodes[..node], groupSize)| + localRank / groupSize
    {
      var inNode := localRank / groupSize;
      groups := new Group[nGroups](i => Group(0, 0));
      ok, groupCount, group := true, 0, inNode;
      for n := 0 to |nodes|
        invariant ok
        invariant groupCount <= groups.Length == nGroups && groups[..groupCount] == Groups(nodes[..n], groupSize)
        invariant group == inNode + |Groups(nodes[..Min(n, node)], groupSize)|
      {
        NodeGroups(nodes, groupSize, n);
        ok := ok && |nodes[n]| % groupSize == 0;
        var nGroupsInNode := |nodes[n]| / groupSize;
        FillNode(groups, groupCount, n, groupSize, nGroupsInNode);
        groupCount := groupCount + nGroupsInNode;
        if n < node {
          group := group + nGroupsInNode;
        }
      }
      assert nodes[..|nodes|] == nodes;
    }

    static method FillNode(groups: array<Group>, start: nat, node: nat, groupSize: nat, count: nat)
      requires start + count <= groups.Length
      modifies groups
      ensures groups[..start + count] == old(groups[..start]) + GroupsIn(node, groupSize, count)
    {
      for g := 0 to count
        invariant groups[..start + g] == old(groups[..start]) + GroupsIn(node, groupSize, g)
      {
        groups[start + g] := Group(node, g * groupSize);
        assert groups[..start + g + 1] == groups[..start + g] + [groups[start + g]];
      }
    }

    /** Computes the send and receive peer of every round (ncclP2pSchedule). It succeeds exactly when the group size
        comes out positive: tables for a negative number of groups cannot be allocated. */
    method ScheduleP2p(groupSizeParam: int) returns (ok: bool)
      requires TablesBuilt()
      modifies this, p2pSchedule
      ensures TablesBuilt()
      ensures ok <==> Schedulable(rankToNode, nNodes, groupSizeParam)
      ensures p2pSchedGroupSize == ChosenSize(nodeRanks, groupSizeParam)
      ensures p2pSchedule[..] == if ok then Schedule(rankToNode, nNodes, groupSizeParam, rank) else old(p2pSchedule[..])
    {
      var groupSize := ChooseGroupSize(groupSizeParam);
      p2pSchedGroupSize := groupSize;
      if groupSize == 0 {
        return false;
      }
      var nGroups := TruncQuot(|rankToNode|, groupSize);
      CountGroups(groupSize);
      if nGroups < 0 {
        return false;
      }
      ok := FillSchedule(groupSize, nGroups, groupSizeParam);
    }

    /** The number of groups has the sign of the group size. */
    lemma CountGroups(gs: int)
      requires TablesBuilt() && gs != 0 && DividesAll(Abs(gs), nodeRanks)
      ensures if gs > 0 then TruncQuot(|rankToNode|, gs) == |rankToNode| / gs == |Groups(nodeRanks, gs)|
              else TruncQuot(|rankToNode|, gs) < 0
    {
      TablePartitionsRanks(rankToNode, nNodes);
      GroupsCount(nodeRanks, Abs(gs));
      MulDivMod(|Groups(nodeRanks, Abs(gs))|, Abs(gs), 0);
      MulMono(|Groups(nodeRanks, Abs(gs))|, 0, Abs(gs));
    }

    method FillSchedule(groupSize: nat, nGroups: nat, ghost groupSizeParam: int) returns (ok: bool)
      requires TablesBuilt() && Schedulable(rankToNode, nNodes, groupSizeParam)
      requires groupSize == ChosenSize(nodeRanks, groupSizeParam) && nGroups == |rankToNode| / groupSize
      modifies p2pSchedule
      ensures ok && p2pSchedule[..] == Schedule(rankToNode, nNodes, groupSizeParam, rank)
    {
      ghost var plan := MakePlan(rankToNode, nNodes, groupSizeParam);
      ghost var p := PositionOf(rankToNode, nNodes, rank);
      MyGroup(groupSize);
      var node, localRank := rankToNode[rank], rankToLocalRank[rank];
      var built, groups, groupCount, group := BuildGroups(nodeRanks, groupSize, nGroups, node, localRank);
      ok := FillRounds(nodeRanks, groupSize, groups[..], group, localRank % groupSize, p2pSchedule, plan, p);
      ok := ok && built && groupCount == nGroups;
    }

    lemma MyGroup(gs: nat)
      requires TablesBuilt() && DividesAll(gs, nodeRanks)
      ensures rankToNode[rank] < |nodeRanks|
      ensures |rankToNode| / gs == |Groups(nodeRanks, gs)|
      ensures PositionOf(rankToNode, nNodes, rank) / gs
           == |Groups(nodeRanks[..rankToNode[rank]], gs)| + rankToLocalRank[rank] / gs
      ensures PositionOf(rankToNode, nNodes, rank) % gs == rankToLocalRank[rank] % gs
    {
      TablePartitionsRanks(rankToNode, nNodes);
      GroupsCount(nodeRanks, gs);
      MulDivMod(|Groups(nodeRanks, gs)|, gs, 0);
      LocalRankLocates(rankToNode, rank);
      GroupOfLocal(nodeRanks, gs, rankToNode[rank], rankToLocalRank[rank]);
    }

    /** The round loop: quadratic update of the group delta, keeping the deltas that name a group. */
    static method FillRounds(nodes: seq<seq<int>>, groupSize: nat, groups: seq<Group>, group: nat, local: nat,
                             schedule: array<Slot>, ghost plan: Plan, ghost p: nat)
      returns (ok: bool)
      requires Planned(nodes, plan, p) && groupSize == plan.gs && schedule.Length == |plan.flat|
      requires groups == Groups(nodes, groupSize)
      requires group == GroupOf(groupSize, |plan.deltas|, p) && local == LocalOf(groupSize, p)
      modifies schedule
      ensures ok
      ensures forall t :: 0 <= t < |plan.flat| ==> schedule[t] == RoundSlot(plan, p, t)
    {
      var nGroups := |groups|;
      var nGroupsPow2 := Pow2(Log2Up(nGroups));
      var groupRound: nat, groupDelta: nat, round: nat := 0, 0, 0;
      ghost var i: nat := 0;
      KeptStart(nGroups);
      while groupRound != nGroupsPow2
        invariant groupRound <= nGroupsPow2 && Kept(nGroups, groupRound, groupDelta, i)
        invariant FilledGroups(schedule[..], plan, p, round, i)
        decreases nGroupsPow2 - groupRound
      {
        KeptStep(nGroups, groupRound, groupDelta, i);
        if groupDelta < nGroups {
          var sendGroup := groups[AddMod(group, groupDelta, nGroups)];
          var recvGroup := groups[SubMod(group, groupDelta, nGroups)];
          EmitGroup(nodes, groupSize, sendGroup, recvGroup, local, round, schedule, plan, p, i);
          round, i := round + groupSize, i + 1;
        }
        groupRound := groupRound + 1;
        groupDelta := NextDelta(nGroupsPow2, groupDelta, groupRound);
      }
      ok := round == schedule.Length;
    }

    /** Loop state after groupRound rounds: the current delta, and how many deltas named a group. */
    static ghost predicate Kept(nGroups: nat, groupRound: nat, groupDelta: nat, i: nat)
      requires nGroups >= 1
    {
      var n2 := Pow2(Log2Up(nGroups));
      groupDelta == Delta(n2, groupRound) && i == |DeltaList(nGroups, n2, groupRound)|
    }

    static lemma KeptStart(nGroups: nat)
      requires nGroups >= 1
      ensures Kept(nGroups, 0, 0, 0)
    {
      DeltaStart(Pow2(Log2Up(nGroups)));
    }

    static lemma KeptStep(nGroups: nat, groupRound: nat, groupDelta: nat, i: nat)
      requires nGroups >= 1 && groupRound < Pow2(Log2Up(nGroups)) && Kept(nGroups, groupRound, groupDelta, i)
      ensures Kept(nGroups, groupRound + 1, NextDelta(Pow2(Log2Up(nGroups)), groupDelta, groupRound + 1),
                   if groupDelta < nGroups then i + 1 else i)
      ensures groupDelta < nGroups ==> i < |NDeltas(nGroups)| && NDeltas(nGroups)[i] == groupDelta
    {
      var n2 := Pow2(Log2Up(nGroups));
      DeltaStep(n2, groupRound);
      DeltaListPrefix(nGroups, n2, groupRound + 1, n2);
    }

    static ghost predicate FilledGroups(schedule: seq<Slot>, plan: Plan, p: nat, round: nat, i: nat)
      requires ValidPlan(plan) && p < |plan.flat| && |schedule| == |plan.flat|
    {
      round == i * plan.gs && FilledTo(schedule, plan, p, round)
    }

    static lemma NextRound(i: nat, n: nat, gs: nat)
      requires i < n
      ensures i * gs + gs == (i + 1) * gs <= n * gs
    {
      MulMono(i + 1, n, gs);
    }

    static ghost predicate Planned(nodes: seq<seq<int>>, plan: Plan, p: nat) {
      && ValidPlan(plan) && plan.flat == Flat(nodes) && p < |plan.flat|
      && DividesAll(plan.gs, nodes) && |plan.deltas| == |Groups(nodes, plan.gs)|
      && |plan.deltas| >= 1 && plan.deltas == NDeltas(|plan.deltas|)
    }

    static ghost predicate FilledTo(schedule: seq<Slot>, plan: Plan, p: nat, round: nat)
      requires ValidPlan(plan) && p < |plan.flat| && |schedule| == |plan.flat|
    {
      round <= |schedule| && forall t :: 0 <= t < round ==> schedule[t] == RoundSlot(plan, p, t)
    }

    /** The groups exchanged with in the rounds of delta i: where their ranks are found. */
    static ghost predicate Peers(nodes: seq<seq<int>>, plan: Plan, p: nat, i: nat, sendGroup: Group, recvGroup: Group)
      requires Planned(nodes, plan, p) && i < |plan.deltas|
    {
      var n := |plan.deltas|;
      var mine := GroupOf(plan.gs, n, p);
      && sendGroup == Groups(nodes, plan.gs)[AddMod(mine, plan.deltas[i], n)]
      && recvGroup == Groups(nodes, plan.gs)[SubMod(mine, plan.deltas[i], n)]
    }

    static lemma SlotByTables(nodes: seq<seq<int>>, plan: Plan, p: nat, i: nat, delta: nat, round: nat,
                              sendGroup: Group, recvGroup: Group)
      requires Planned(nodes, plan, p) && i < |plan.deltas| && delta < plan.gs && round == i * plan.gs
      requires Peers(nodes, plan, p, i, sendGroup, recvGroup)
      ensures round + delta < |plan.flat|
      ensures Located(nodes, sendGroup, AddMod(LocalOf(plan.gs, p), delta, plan.gs),
                      RoundSlot(plan, p, round + delta).sendRank)
      ensures Located(nodes, recvGroup, SubMod(LocalOf(plan.gs, p), delta, plan.gs),
                      RoundSlot(plan, p, round + delta).recvRank)
    {
      RoundByTables(nodes, plan, p, i, delta);
    }

    static method EmitGroup(nodes: seq<seq<int>>, groupSize: nat, sendGroup: Group, recvGroup: Group, local: nat,
                            round: nat, schedule: array<Slot>, ghost plan: Plan, ghost p: nat, ghost i: nat)
      requires Planned(nodes, plan, p) && groupSize == plan.gs && local == LocalOf(groupSize, p)
      requires schedule.Length == |plan.flat| && i < |plan.deltas|
      requires Peers(nodes, plan, p, i, sendGroup, recvGroup)
      requires FilledGroups(schedule[..], plan, p, round, i)
      modifies schedule
      ensures FilledGroups(schedule[..], plan, p, round + groupSize, i + 1)
    {
      for delta := 0 to groupSize
        invariant FilledTo(schedule[..], plan, p, round + delta)
      {
        SlotByTables(nodes, plan, p, i, delta, round, sendGroup, recvGroup);
        var sendLocal := sendGroup.base + AddMod(local, delta, groupSize);
        var recvLocal := recvGroup.base + SubMod(local, delta, groupSize);
        schedule[round + delta] :=
          Slot(nodes[sendGroup.node][sendLocal], nodes[recvGroup.node][recvLocal]);
      }
      NextRound(i, |plan.deltas|, groupSize);
    }
  }
}
