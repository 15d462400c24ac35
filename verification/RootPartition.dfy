/** How ranks are assigned to bootstrap roots, and why the roots' answers and the parent's messages together tell every
    rank how to reach the next one. */
module RootPartition {
  import opened Arith

  /** The first rank of a root; root -1 stands for no root. */
  function FirstRankFromRoot(root: int, nRanks: int, nRoots: int, offset: int): int
    requires root == -1 || nRoots > 0
  {
    if root == -1 then 0
    else offset + root * ((nRanks - offset) / nRoots) + Min(root, (nRanks - offset) % nRoots)
  }

  /** The root of a rank, -1 when it has none. */
  function RootIdFromRank(rank: int, nRanks: int, nRoots: int, offset: int): int
    requires 0 <= offset <= nRanks && nRoots >= 0 && rank < nRanks
  {
    if nRoots == 0 || rank < offset then -1
    else
      var rmr, rpr := (nRanks - offset) % nRoots, (nRanks - offset) / nRoots;
      var d := rmr * (rpr + 1);
      if rank - offset < d then DivBy(rank - offset, rpr + 1)
      else
        LastRootsHaveRanks(nRanks - offset, nRoots, rank - offset);
        DivBy(rank - offset - d, rpr) + rmr
  }

  function DivBy(a: int, b: int): int
    requires b > 0 || b < 0
  {
    a / b
  }

  /** The number of ranks of a root. */
  function NRankFromRoot(root: int, nRanks: int, nRoots: int, offset: int): int
    requires nRoots > 0
  {
    if root == -1 then 0
    else (nRanks - offset) / nRoots + if (root + nRoots) % nRoots < (nRanks - offset) % nRoots then 1 else 0
  }

  /** The index of a rank among the ranks of a root. */
  function LocalIdFromRoot(rank: int, root: int, nRanks: int, nRoots: int, offset: int): int
    requires nRoots > 0
  {
    if root == -1 then rank else rank - FirstRankFromRoot((root + nRoots) % nRoots, nRanks, nRoots, offset)
  }

  /** A rank beyond the first blocks exists only when the blocks are not empty. */
  lemma LastRootsHaveRanks(n: int, nRoots: int, rank: int)
    requires nRoots > 0 && 0 <= rank < n && rank >= (n % nRoots) * (n / nRoots + 1)
    ensures n / nRoots > 0
  {
    assert n == nRoots * (n / nRoots) + n % nRoots;
    if n / nRoots <= 0 {
      MulMono(n / nRoots, 0, nRoots);
    }
  }

  // ---------------------------------------------------------------- contiguous blocks

  /** The start of block root when n ranks are dealt in q's, the first m blocks getting one more. */
  function Start(root: int, q: int, m: int): int {
    root * q + Min(root, m)
  }

  lemma StartNext(root: int, q: int, m: int)
    ensures Start(root + 1, q, m) == Start(root, q, m) + q + if root < m then 1 else 0
  {
    assert (root + 1) * q == root * q + q;
  }

  lemma {:induction false} StartMonotone(a: int, b: int, q: int, m: int)
    requires a <= b && q >= 0
    ensures Start(a, q, m) <= Start(b, q, m)
    decreases b - a
  {
    if a < b {
      StartNext(b - 1, q, m);
      StartMonotone(a, b - 1, q, m);
    }
  }

  /** A number in block `root` of width q + 1 (before block m) or q (from block m on) is found by division. */
  lemma BlockOf(x: int, root: int, q: int, m: int)
    requires q >= 0 && 0 <= m && 0 <= root && Start(root, q, m) <= x < Start(root + 1, q, m)
    ensures x < m * (q + 1) ==> root == x / (q + 1)
    ensures x >= m * (q + 1) ==> q > 0 && root == (x - m * (q + 1)) / q + m
  {
    StartNext(root, q, m);
    if root < m {
      assert Start(root, q, m) == root * (q + 1);
      MulDivMod(root, q + 1, x - root * (q + 1));
      MulMono(root + 1, m, q + 1);
    } else {
      assert Start(root, q, m) == m * (q + 1) + (root - m) * q;
      MulMono(m, root, q);
      MulDivMod(root - m, q, x - Start(root, q, m));
    }
  }

  lemma DealsAll(n: int, nRoots: int)
    requires nRoots > 0
    ensures Start(nRoots, n / nRoots, n % nRoots) == n
  {
    assert n == nRoots * (n / nRoots) + n % nRoots;
  }

  /** The block of x, found among the first `root`. */
  lemma {:induction false} FindBlock(x: int, root: nat, q: int, m: int) returns (r: nat)
    requires q >= 0 && m >= 0 && 0 <= x < Start(root, q, m)
    ensures r < root && Start(r, q, m) <= x < Start(r + 1, q, m)
  {
    StartNext(root - 1, q, m);
    if Start(root - 1, q, m) <= x {
      r := root - 1;
    } else {
      r := FindBlock(x, root - 1, q, m);
    }
  }

  ghost predicate Sane(nRanks: int, nRoots: int, offset: int) {
    0 <= offset < nRanks && nRoots > 0
  }

  lemma Periodic(root: int, nRoots: int)
    requires 0 <= root < nRoots
    ensures (root + nRoots) % nRoots == root
  {
    MulDivMod(1, nRoots, root);
  }

  lemma NRankIs(root: int, nRanks: int, nRoots: int, offset: int)
    requires 0 <= root < nRoots
    ensures NRankFromRoot(root, nRanks, nRoots, offset)
              == (nRanks - offset) / nRoots + if root < (nRanks - offset) % nRoots then 1 else 0
  {
    Periodic(root, nRoots);
  }

  lemma StartsTile(root: int, nRoots: int, n: int, q: int, m: int)
    requires 0 <= root < nRoots && q >= 0 && m >= 0 && Start(nRoots, q, m) == n
    ensures Start(0, q, m) == 0 && 0 <= Start(root, q, m) <= n
    ensures Start(root + 1, q, m) == Start(root, q, m) + q + if root < m then 1 else 0
  {
    StartNext(root, q, m);
    StartMonotone(0, root, q, m);
    StartMonotone(root, nRoots, q, m);
  }

  /** The roots own contiguous blocks that follow each other from offset to nRanks. */
  lemma BlocksTile(root: int, nRanks: int, nRoots: int, offset: int)
    requires Sane(nRanks, nRoots, offset) && 0 <= root < nRoots
    ensures FirstRankFromRoot(0, nRanks, nRoots, offset) == offset
    ensures FirstRankFromRoot(nRoots, nRanks, nRoots, offset) == nRanks
    ensures FirstRankFromRoot(root + 1, nRanks, nRoots, offset)
              == FirstRankFromRoot(root, nRanks, nRoots, offset) + NRankFromRoot(root, nRanks, nRoots, offset)
    ensures NRankFromRoot(root, nRanks, nRoots, offset) >= 0
    ensures offset <= FirstRankFromRoot(root, nRanks, nRoots, offset) <= nRanks
  {
    DealsAll(nRanks - offset, nRoots);
    StartsTile(root, nRoots, nRanks - offset, (nRanks - offset) / nRoots, (nRanks - offset) % nRoots);
    NRankIs(root, nRanks, nRoots, offset);
  }

  /** The ranks are dealt evenly: of two roots the earlier one has as many ranks, or one more. */
  lemma Balanced(a: int, b: int, nRanks: int, nRoots: int, offset: int)
    requires Sane(nRanks, nRoots, offset) && 0 <= a <= b < nRoots
    ensures NRankFromRoot(b, nRanks, nRoots, offset) <= NRankFromRoot(a, nRanks, nRoots, offset)
    ensures NRankFromRoot(a, nRanks, nRoots, offset) <= NRankFromRoot(b, nRanks, nRoots, offset) + 1
  {
    NRankIs(a, nRanks, nRoots, offset);
    NRankIs(b, nRanks, nRoots, offset);
  }

  /** A rank belongs to the root in whose block it lies, and to no other. */
  lemma RootOfRank(rank: int, root: int, nRanks: int, nRoots: int, offset: int)
    requires Sane(nRanks, nRoots, offset) && offset <= rank < nRanks && 0 <= root < nRoots
    ensures 0 <= RootIdFromRank(rank, nRanks, nRoots, offset) < nRoots
    ensures
      RootIdFromRank(rank, nRanks, nRoots, offset) == root <==>
        && FirstRankFromRoot(root, nRanks, nRoots, offset) <= rank
        && rank < FirstRankFromRoot(root + 1, nRanks, nRoots, offset)
  {
    var n := nRanks - offset;
    var q, m := n / nRoots, n % nRoots;
    DealsAll(n, nRoots);
    var r := FindBlock(rank - offset, nRoots, q, m);
    BlockOf(rank - offset, r, q, m);
    if root < r {
      StartMonotone(root + 1, r, q, m);
    } else if r < root {
      StartMonotone(r + 1, root, q, m);
    }
  }

  /** Local ids count the ranks of a root from zero. */
  lemma LocalIds(rank: int, nRanks: int, nRoots: int, offset: int)
    requires Sane(nRanks, nRoots, offset) && offset <= rank < nRanks
    ensures
      var root := RootIdFromRank(rank, nRanks, nRoots, offset);
      && 0 <= root < nRoots
      && 0 <= LocalIdFromRoot(rank, root, nRanks, nRoots, offset) < NRankFromRoot(root, nRanks, nRoots, offset)
      && FirstRankFromRoot(root, nRanks, nRoots, offset) + LocalIdFromRoot(rank, root, nRanks, nRoots, offset) == rank
  {
    RootOfRank(rank, 0, nRanks, nRoots, offset);
    var root := RootIdFromRank(rank, nRanks, nRoots, offset);
    RootOfRank(rank, root, nRanks, nRoots, offset);
    BlocksTile(root, nRanks, nRoots, offset);
    Periodic(root, nRoots);
  }
}
