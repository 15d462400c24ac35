/** Who checks in where, and who hears from whom: the check-ins of all ranks and the messages between the ranks of a
    parent communicator together form one ring. */
module BootstrapRing {
  import opened Arith
  import opened Seqs
  import opened RootPartition
  import opened RootRendezvous

  /** A bootstrap: a new communicator with some roots, or a communicator of parentRanks ranks growing to nranks. When
      growing, handles are the existing ranks that were given the root's handle: the first and the last one, and
      possibly the one that created it. */
  datatype Config = Config(nranks: nat, nroots: nat, grow: bool, parentRanks: nat, handles: set<int>) {
    ghost predicate Ok() {
      && nranks > 0 && nroots > 0
      && (grow ==> nroots == 1 && 1 <= parentRanks < nranks && 0 in handles && parentRanks - 1 in handles)
    }

    /** When growing, the last existing rank is the first one to join the root. */
    function Offset(): int {
      if grow then parentRanks - 1 else 0
    }

    predicate Existing(k: int) {
      grow && k < parentRanks
    }

    function NHandles(k: int): nat {
      if Existing(k) && k !in handles then 0 else nroots
    }
  }

  function CurrRoot(cfg: Config, k: int): int
    requires cfg.Ok() && 0 <= k < cfg.nranks
  {
    RootIdFromRank(k, cfg.nranks, cfg.NHandles(k), cfg.Offset())
  }

  /** The check-ins rank k sends: to its own root, and, as the first rank of a root, to the root of the rank before it,
      where it passes for that rank's successor. Each is a root and the rank under which k checks in there. */
  function CheckIns(cfg: Config, k: int): seq<(int, int)>
    requires cfg.Ok() && 0 <= k < cfg.nranks
  {
    OwnPart(cfg, k) + ExtraCheckIn(cfg, k)
  }

  function ExtraCheckIn(cfg: Config, k: int): seq<(int, int)>
    requires cfg.Ok() && 0 <= k < cfg.nranks
  {
    if ((cfg.Existing(k) && cfg.parentRanks > 1) || cfg.NHandles(k) > 1) && IsFirst(cfg, k, CurrRoot(cfg, k)) then
      var prevRank := PrevRank(cfg, k);
      var prevRoot := RootIdFromRank(prevRank, cfg.nranks, cfg.NHandles(k), cfg.Offset());
      if prevRoot >= 0 then [(prevRoot, prevRank + 1)] else []
    else []
  }

  function PrevRank(cfg: Config, k: int): (p: int)
    requires cfg.nranks > 0 && 0 <= k < cfg.nranks
    ensures p == if k == 0 then cfg.nranks - 1 else k - 1
  {
    PidFacts(k, cfg.nranks);
    Pid(k - 1, cfg.nranks)
  }

  function NextRank(cfg: Config, k: int): int {
    if k + 1 == cfg.nranks then 0 else k + 1
  }

  predicate IsFirst(cfg: Config, k: int, root: int)
    requires cfg.Ok() && (root == -1 || cfg.NHandles(k) > 0)
  {
    k == FirstRankFromRoot(root, cfg.nranks, cfg.NHandles(k), cfg.Offset())
  }

  function First(cfg: Config, g: int): int
    requires cfg.Ok()
  {
    FirstRankFromRoot(g, cfg.nranks, cfg.nroots, cfg.Offset())
  }

  /** Check-ins root g waits for: its ranks, and one more unless it serves the whole ring. */
  function Own(cfg: Config, g: int): int
    requires cfg.Ok()
  {
    NRankFromRoot(g, cfg.nranks, cfg.nroots, cfg.Offset())
  }

  function Expected(cfg: Config, g: int): int
    requires cfg.Ok()
  {
    Own(cfg, g) + if cfg.Offset() > 0 || cfg.nroots > 1 then 1 else 0
  }

  /** The root of a rank that has one: the one in whose block it lies. */
  lemma CurrRootFacts(cfg: Config, k: int, g: int)
    requires cfg.Ok() && 0 <= k < cfg.nranks && 0 <= g < cfg.nroots
    ensures k < cfg.Offset() ==> CurrRoot(cfg, k) == -1
    ensures k >= cfg.Offset() ==>
              && 0 <= CurrRoot(cfg, k) < cfg.nroots && cfg.NHandles(k) == cfg.nroots
              && (CurrRoot(cfg, k) == g <==> First(cfg, g) <= k < First(cfg, g + 1))
  {
    if k >= cfg.Offset() {
      RootOfRank(k, g, cfg.nranks, cfg.nroots, cfg.Offset());
    }
  }

  lemma FirstFacts(cfg: Config, g: int)
    requires cfg.Ok() && 0 <= g < cfg.nroots
    ensures First(cfg, 0) == cfg.Offset() && First(cfg, cfg.nroots) == cfg.nranks
    ensures First(cfg, g + 1) == First(cfg, g) + Own(cfg, g) && Own(cfg, g) >= 0
    ensures cfg.Offset() <= First(cfg, g) <= cfg.nranks
  {
    BlocksTile(g, cfg.nranks, cfg.nroots, cfg.Offset());
  }

  /** The blocks of the roots are in order. */
  lemma FirstMonotone(cfg: Config, a: int, b: int)
    requires cfg.Ok() && 0 <= a <= b <= cfg.nroots
    ensures First(cfg, a) <= First(cfg, b)
  {
    StartMonotone(a, b, (cfg.nranks - cfg.Offset()) / cfg.nroots, (cfg.nranks - cfg.Offset()) % cfg.nroots);
  }

  /** A rank lies in the block of its root. */
  lemma InBlock(cfg: Config, k: int)
    requires cfg.Ok() && cfg.Offset() <= k < cfg.nranks
    ensures
      var g := CurrRoot(cfg, k);
      && 0 <= g < cfg.nroots && cfg.NHandles(k) == cfg.nroots && First(cfg, g) <= k < First(cfg, g + 1)
      && First(cfg, g + 1) == First(cfg, g) + Own(cfg, g)
  {
    CurrRootFacts(cfg, k, 0);
    CurrRootFacts(cfg, k, CurrRoot(cfg, k));
    FirstFacts(cfg, CurrRoot(cfg, k));
  }

  /** Which ranks check in a second time: with more than one block around the ring, those that follow the last rank of a
      root. */
  ghost predicate EndsBlock(cfg: Config, p: int)
    requires cfg.Ok() && 0 <= p < cfg.nranks
  {
    && (cfg.Offset() > 0 || cfg.nroots > 1) && p >= cfg.Offset() && 0 <= CurrRoot(cfg, p) < cfg.nroots
    && p + 1 == First(cfg, CurrRoot(cfg, p) + 1)
  }

  lemma ExtraGrowing(cfg: Config, k: int)
    requires cfg.Ok() && 0 <= k < cfg.nranks && cfg.Offset() > 0
    ensures EndsBlock(cfg, PrevRank(cfg, k)) <==> k == 0
    ensures ExtraCheckIn(cfg, k) == if k == 0 then [(CurrRoot(cfg, PrevRank(cfg, k)), PrevRank(cfg, k) + 1)] else []
  {
    var p := PrevRank(cfg, k);
    CurrRootFacts(cfg, k, 0);
    CurrRootFacts(cfg, p, 0);
    FirstFacts(cfg, 0);
  }

  lemma ExtraMany(cfg: Config, k: int)
    requires cfg.Ok() && 0 <= k < cfg.nranks && cfg.Offset() == 0 && cfg.nroots > 1
    ensures
      var p := PrevRank(cfg, k);
      ExtraCheckIn(cfg, k) == if EndsBlock(cfg, p) then [(CurrRoot(cfg, p), p + 1)] else []
  {
    var p := PrevRank(cfg, k);
    InBlock(cfg, k);
    InBlock(cfg, p);
    BoundaryIff(cfg, k, p);
  }

  /** A rank is the first of its root exactly when the rank before it is the last of its own. */
  lemma BoundaryIff(cfg: Config, k: int, p: int)
    requires cfg.Ok() && 0 <= k < cfg.nranks && p == PrevRank(cfg, k) && cfg.Offset() == 0
    ensures 0 <= CurrRoot(cfg, k) < cfg.nroots && 0 <= CurrRoot(cfg, p) < cfg.nroots
    ensures k == First(cfg, CurrRoot(cfg, k)) <==> p + 1 == First(cfg, CurrRoot(cfg, p) + 1)
  {
    InBlock(cfg, k);
    InBlock(cfg, p);
    FirstFacts(cfg, 0);
    var a, b := CurrRoot(cfg, k), CurrRoot(cfg, p);
    if k == 0 {
      FirstMonotone(cfg, 0, a);
      FirstMonotone(cfg, b + 1, cfg.nroots);
    } else if b + 1 <= a {
      FirstMonotone(cfg, b + 1, a);
    } else if a + 1 <= b {
      FirstMonotone(cfg, a + 1, b);
    }
  }

  lemma ExtraIff(cfg: Config, k: int)
    requires cfg.Ok() && 0 <= k < cfg.nranks
    ensures
      var p := PrevRank(cfg, k);
      ExtraCheckIn(cfg, k) == if EndsBlock(cfg, p) then [(CurrRoot(cfg, p), p + 1)] else []
  {
    if cfg.Offset() > 0 {
      ExtraGrowing(cfg, k);
    } else if cfg.nroots > 1 {
      ExtraMany(cfg, k);
    }
  }

  /** Who checks in at root g as asRank: the rank itself, and beyond the root's own ranks the next one around the ring;
      nobody else, and nobody twice. */
  lemma WhoChecksIn(cfg: Config, g: int, k: int, asRank: int)
    requires cfg.Ok() && 0 <= g < cfg.nroots && 0 <= k < cfg.nranks
    ensures (g, asRank) in CheckIns(cfg, k) <==>
              Own(cfg, g) > 0 && 0 <= asRank - First(cfg, g) < Expected(cfg, g)
              && k == if asRank == cfg.nranks then 0 else asRank
    ensures |CheckIns(cfg, k)| == 2 ==> CheckIns(cfg, k)[0] != CheckIns(cfg, k)[1]
  {
    InOwn(cfg, g, k, asRank);
    InExtra(cfg, g, k, asRank);
    NotTwice(cfg, k);
  }

  lemma NotTwice(cfg: Config, k: int)
    requires cfg.Ok() && 0 <= k < cfg.nranks
    ensures |CheckIns(cfg, k)| == 2 ==> CheckIns(cfg, k)[0] != CheckIns(cfg, k)[1]
  {
    var p := PrevRank(cfg, k);
    ExtraIff(cfg, k);
    if CurrRoot(cfg, k) >= 0 && EndsBlock(cfg, p) {
      CurrRootFacts(cfg, k, 0);
      InBlock(cfg, k);
    }
  }

  /** The first check-in, when there is one. */
  function OwnPart(cfg: Config, k: int): seq<(int, int)>
    requires cfg.Ok() && 0 <= k < cfg.nranks
  {
    if CurrRoot(cfg, k) >= 0 then [(CurrRoot(cfg, k), k)] else []
  }

  lemma InOwn(cfg: Config, g: int, k: int, asRank: int)
    requires cfg.Ok() && 0 <= g < cfg.nroots && 0 <= k < cfg.nranks
    ensures (g, asRank) in OwnPart(cfg, k) <==> 0 <= asRank - First(cfg, g) < Own(cfg, g) && k == asRank
  {
    OwnCheckIn(cfg, g, k, asRank);
  }

  lemma InExtra(cfg: Config, g: int, k: int, asRank: int)
    requires cfg.Ok() && 0 <= g < cfg.nroots && 0 <= k < cfg.nranks
    ensures (g, asRank) in ExtraCheckIn(cfg, k) <==>
              && Own(cfg, g) > 0 && asRank == First(cfg, g) + Own(cfg, g) && Expected(cfg, g) == Own(cfg, g) + 1
              && k == if asRank == cfg.nranks then 0 else asRank
    ensures asRank == First(cfg, g) + Own(cfg, g) ==> asRank <= cfg.nranks
    ensures 0 <= asRank - First(cfg, g) < Own(cfg, g) ==> asRank < cfg.nranks
  {
    ExtraIff(cfg, k);
    ExtraAt(cfg, g, k, asRank);
    FirstFacts(cfg, g);
    FirstMonotone(cfg, g + 1, cfg.nroots);
  }

  lemma OwnCheckIn(cfg: Config, g: int, k: int, asRank: int)
    requires cfg.Ok() && 0 <= g < cfg.nroots && 0 <= k < cfg.nranks
    ensures (CurrRoot(cfg, k) == g && asRank == k) <==>
              0 <= asRank - First(cfg, g) < Own(cfg, g) && k == asRank
  {
    CurrRootFacts(cfg, k, g);
    FirstFacts(cfg, g);
    FirstMonotone(cfg, 0, g);
  }

  lemma ExtraAt(cfg: Config, g: int, k: int, asRank: int)
    requires cfg.Ok() && 0 <= g < cfg.nroots && 0 <= k < cfg.nranks
    ensures
      var p := PrevRank(cfg, k);
      (EndsBlock(cfg, p) && CurrRoot(cfg, p) == g && asRank == p + 1) <==>
        && Own(cfg, g) > 0 && asRank == First(cfg, g) + Own(cfg, g) && Expected(cfg, g) == Own(cfg, g) + 1
        && k == if asRank == cfg.nranks then 0 else asRank
  {
    var p := PrevRank(cfg, k);
    CurrRootFacts(cfg, p, g);
    FirstFacts(cfg, g);
    FirstMonotone(cfg, g + 1, cfg.nroots);
    FirstMonotone(cfg, 0, g);
  }

  /** Every rank either has a root or hears from the next rank through the parent communicator. */
  lemma OneSource(cfg: Config, k: int)
    requires cfg.Ok() && 0 <= k < cfg.nranks
    ensures CurrRoot(cfg, k) >= 0 <==> k >= cfg.Offset()
    ensures CurrRoot(cfg, k) >= 0 <==> !(cfg.Existing(k) && k != cfg.parentRanks - 1)
  {
    CurrRootFacts(cfg, k, 0);
  }

  // ---------------------------------------------------------------- what arrives at the roots

  /** What every rank has to offer: the address it listens on for its root, if it has one, and its connect info. */
  datatype Offers = Offers(addrs: seq<nat>, infos: seq<nat>) {
    /** Listening addresses are not zero and not shared, connect infos are not zero. */
    ghost predicate Ok(cfg: Config) {
      && |addrs| == |infos| == cfg.nranks && (forall k :: 0 <= k < cfg.nranks ==> addrs[k] != 0 && infos[k] != 0)
      && forall j, k :: 0 <= j < k < cfg.nranks ==> addrs[j] != addrs[k]
    }
  }

  /** The address in rank k's check-ins: a rank without a root does not listen. */
  function ListenAddr(cfg: Config, o: Offers, k: int): nat
    requires cfg.Ok() && 0 <= k < cfg.nranks == |o.addrs|
  {
    if CurrRoot(cfg, k) >= 0 then o.addrs[k] else 0
  }

  /** Rank k checks in at root g as asRank. */
  function Message(cfg: Config, o: Offers, g: int, k: int, asRank: int): ExtInfo
    requires cfg.Ok() && 0 <= k < cfg.nranks == |o.addrs| == |o.infos|
  {
    ExtInfo(asRank, cfg.nranks, g, cfg.nroots, cfg.Offset(), ListenAddr(cfg, o, k), o.infos[k])
  }

  function AtRoot(cfg: Config, o: Offers, g: int, k: int, checkIns: seq<(int, int)>): seq<ExtInfo>
    requires cfg.Ok() && 0 <= k < cfg.nranks == |o.addrs| == |o.infos|
  {
    if checkIns == [] then []
    else
      (if checkIns[0].0 == g then [Message(cfg, o, g, k, checkIns[0].1)] else []) + AtRoot(cfg, o, g, k, checkIns[1..])
  }

  /** All check-ins that ranks 0 .. n-1 send to root g. */
  function ToRoot(cfg: Config, o: Offers, g: int, n: nat): seq<ExtInfo>
    requires cfg.Ok() && n <= cfg.nranks == |o.addrs| == |o.infos|
  {
    if n == 0 then [] else ToRoot(cfg, o, g, n - 1) + AtRoot(cfg, o, g, n - 1, CheckIns(cfg, n - 1))
  }

  lemma {:induction false} AtRootMembers(cfg: Config, o: Offers, g: int, k: int, checkIns: seq<(int, int)>)
    requires cfg.Ok() && 0 <= k < cfg.nranks == |o.addrs| == |o.infos|
    ensures forall x :: x in AtRoot(cfg, o, g, k, checkIns) <==>
              (g, x.rank) in checkIns && x == Message(cfg, o, g, k, x.rank)
    ensures Distinct(checkIns) ==> Distinct(AtRoot(cfg, o, g, k, checkIns))
  {
    if checkIns != [] {
      var c, rest := checkIns[0], checkIns[1..];
      AtRootMembers(cfg, o, g, k, rest);
      assert checkIns == [c] + rest;
      if c.0 == g && Distinct(checkIns) {
        assert c !in rest;
        DistinctCons(Message(cfg, o, g, k, c.1), AtRoot(cfg, o, g, k, rest));
      }
    }
  }

  lemma DistinctCons<T>(x: T, s: seq<T>)
    requires Distinct(s) && x !in s
    ensures Distinct([x] + s)
  {
  }

  /** The message for asRank at root g, and who sends it. */
  function Sender(cfg: Config, asRank: int): int {
    if asRank == cfg.nranks then 0 else asRank
  }

  /** Exactly the expected check-ins arrive at a root, each once. */
  lemma {:induction false} ToRootMembers(cfg: Config, o: Offers, g: int, n: nat)
    requires cfg.Ok() && 0 <= g < cfg.nroots && n <= cfg.nranks == |o.addrs| == |o.infos|
    ensures forall x :: x in ToRoot(cfg, o, g, n) <==> Awaited(cfg, o, g, n, x)
    ensures Distinct(ToRoot(cfg, o, g, n))
  {
    if n != 0 {
      var k := n - 1;
      ToRootMembers(cfg, o, g, k);
      AtRootMembers(cfg, o, g, k, CheckIns(cfg, k));
      CheckInsDistinct(cfg, k);
      var before, more := ToRoot(cfg, o, g, k), AtRoot(cfg, o, g, k, CheckIns(cfg, k));
      forall x
        ensures x in before + more <==> Awaited(cfg, o, g, n, x)
        ensures x in before ==> x !in more
      {
        AwaitedNext(cfg, o, g, k, x);
      }
      DistinctJoin(before, more);
      assert ToRoot(cfg, o, g, n) == before + more;
    }
  }

  lemma AwaitedNext(cfg: Config, o: Offers, g: int, k: nat, x: ExtInfo)
    requires cfg.Ok() && 0 <= g < cfg.nroots && k < cfg.nranks == |o.addrs| == |o.infos|
    ensures Awaited(cfg, o, g, k + 1, x) <==>
              Awaited(cfg, o, g, k, x) || ((g, x.rank) in CheckIns(cfg, k) && x == Message(cfg, o, g, k, x.rank))
    ensures Awaited(cfg, o, g, k, x) ==> (g, x.rank) !in CheckIns(cfg, k)
  {
    WhoChecksIn(cfg, g, k, x.rank);
  }

  lemma CheckInsDistinct(cfg: Config, k: int)
    requires cfg.Ok() && 0 <= k < cfg.nranks
    ensures Distinct(CheckIns(cfg, k))
  {
    NotTwice(cfg, k);
  }

  /** x is one of the check-ins root g waits for, and one of the first n ranks sends it. */
  ghost predicate Awaited(cfg: Config, o: Offers, g: int, n: nat, x: ExtInfo)
    requires cfg.Ok() && n <= cfg.nranks == |o.addrs| == |o.infos|
  {
    && Own(cfg, g) > 0 && 0 <= x.rank - First(cfg, g) < Expected(cfg, g) && 0 <= Sender(cfg, x.rank) < n
    && x == Message(cfg, o, g, Sender(cfg, x.rank), x.rank)
  }

  // ---------------------------------------------------------------- one root

  /** The check-ins sent to root g, in the order in which they happen to arrive. */
  ghost predicate ArriveAt(cfg: Config, o: Offers, g: int, arrivals: seq<ExtInfo>)
    requires cfg.Ok() && cfg.nranks == |o.addrs| == |o.infos|
  {
    multiset(arrivals) == multiset(ToRoot(cfg, o, g, cfg.nranks))
  }

  lemma ArrivalMembers(cfg: Config, o: Offers, g: int, arrivals: seq<ExtInfo>)
    requires cfg.Ok() && 0 <= g < cfg.nroots && o.Ok(cfg) && ArriveAt(cfg, o, g, arrivals)
    ensures forall x :: x in arrivals <==> Awaited(cfg, o, g, cfg.nranks, x)
    ensures Distinct(arrivals)
  {
    var sent := ToRoot(cfg, o, g, cfg.nranks);
    ToRootMembers(cfg, o, g, cfg.nranks);
    forall x ensures x in arrivals <==> x in sent {
      assert x in arrivals <==> x in multiset(arrivals);
      assert x in sent <==> x in multiset(sent);
    }
    ReorderedDistinct(sent, arrivals);
  }

  /** A root that owns ranks expects a check-in for every local id. */
  lemma Expects(cfg: Config, o: Offers, g: int, l: int)
    requires cfg.Ok() && 0 <= g < cfg.nroots && o.Ok(cfg) && Own(cfg, g) > 0 && 0 <= l < Expected(cfg, g)
    ensures 0 <= Sender(cfg, First(cfg, g) + l) < cfg.nranks
    ensures Awaited(cfg, o, g, cfg.nranks, Message(cfg, o, g, Sender(cfg, First(cfg, g) + l), First(cfg, g) + l))
    ensures l < Own(cfg, g) ==> First(cfg, g) + l < cfg.nranks && CurrRoot(cfg, First(cfg, g) + l) == g
  {
    FirstFacts(cfg, g);
    FirstMonotone(cfg, g + 1, cfg.nroots);
    if l < Own(cfg, g) {
      CurrRootFacts(cfg, First(cfg, g) + l, g);
    }
  }

  lemma ArrivalId(cfg: Config, o: Offers, g: int, x: ExtInfo)
    requires cfg.Ok() && 0 <= g < cfg.nroots && o.Ok(cfg) && Awaited(cfg, o, g, cfg.nranks, x)
    ensures x.nroots == cfg.nroots && LocalId(x, x.iroot, x.nranks, x.nroots, x.offset) == x.rank - First(cfg, g)
    ensures x.nranks == cfg.nranks && x.iroot == g && x.offset == cfg.Offset() && x.info != 0
    ensures x.rank - First(cfg, g) < Own(cfg, g) ==> x.addr != 0
  {
    Periodic(g, cfg.nroots);
    Expects(cfg, o, g, x.rank - First(cfg, g));
  }

  /** What the check-in of a root's own rank, and of anyone, says. */
  lemma ArrivalSays(cfg: Config, o: Offers, g: int, x: ExtInfo)
    requires cfg.Ok() && 0 <= g < cfg.nroots && o.Ok(cfg) && Awaited(cfg, o, g, cfg.nranks, x)
    ensures 0 <= Sender(cfg, x.rank) < cfg.nranks && x.info == o.infos[Sender(cfg, x.rank)]
    ensures x.rank - First(cfg, g) < Own(cfg, g) ==> 0 <= x.rank < cfg.nranks && x.addr == o.addrs[x.rank]
  {
    Expects(cfg, o, g, x.rank - First(cfg, g));
  }

  /** The rank that checks in as the successor of an own rank is the next rank of the ring. */
  lemma NextSender(cfg: Config, g: int, r: int)
    requires cfg.Ok() && 0 <= g < cfg.nroots && 0 <= r < Own(cfg, g)
    ensures
      var s := Shape(Own(cfg, g), Expected(cfg, g), cfg.nroots > 1);
      0 <= First(cfg, g) + r < cfg.nranks && Sender(cfg, First(cfg, g) + s.Next(r)) == NextRank(cfg, First(cfg, g) + r)
  {
    FirstFacts(cfg, g);
    FirstMonotone(cfg, g + 1, cfg.nroots);
  }

  lemma {:induction false} ArrivalsProper(cfg: Config, o: Offers, g: int, arrivals: seq<ExtInfo>)
    requires cfg.Ok() && 0 <= g < cfg.nroots && o.Ok(cfg) && Own(cfg, g) > 0 && ArriveAt(cfg, o, g, arrivals)
    ensures Proper(arrivals) && ShapeOf(arrivals[0]) == Shape(Own(cfg, g), Expected(cfg, g), cfg.nroots > 1)
    ensures forall i :: 0 <= i < |arrivals| ==> Ids(arrivals)[i] == arrivals[i].rank - First(cfg, g)
  {
    ArrivalMembers(cfg, o, g, arrivals);
    forall i | 0 <= i < |arrivals|
      ensures Awaited(cfg, o, g, cfg.nranks, arrivals[i]) && Ids(arrivals)[i] == arrivals[i].rank - First(cfg, g)
    {
      assert arrivals[i] in arrivals;
      ArrivalId(cfg, o, g, arrivals[i]);
    }
    ArrivalIds(cfg, o, g, arrivals);
    forall i | 0 <= i < |arrivals|
      ensures SameRoot(arrivals[i], arrivals[0]) && (Ids(arrivals)[i] < Own(cfg, g) ==> arrivals[i].addr != 0)
    {
      ArrivalId(cfg, o, g, arrivals[i]);
      ArrivalId(cfg, o, g, arrivals[0]);
    }
  }

  lemma ArrivalIds(cfg: Config, o: Offers, g: int, arrivals: seq<ExtInfo>)
    requires cfg.Ok() && 0 <= g < cfg.nroots && o.Ok(cfg) && Own(cfg, g) > 0 && Distinct(arrivals)
    requires forall x :: x in arrivals <==> Awaited(cfg, o, g, cfg.nranks, x)
    requires forall i :: 0 <= i < |arrivals| ==>
               Awaited(cfg, o, g, cfg.nranks, arrivals[i]) && Ids(arrivals)[i] == arrivals[i].rank - First(cfg, g)
    ensures IsPermutation(Ids(arrivals), Expected(cfg, g))
  {
    var ids := Ids(arrivals);
    forall l ensures l in ids <==> 0 <= l < Expected(cfg, g) {
      if 0 <= l < Expected(cfg, g) {
        Expects(cfg, o, g, l);
        var x := Message(cfg, o, g, Sender(cfg, First(cfg, g) + l), First(cfg, g) + l);
        assert x in arrivals;
        var i :| 0 <= i < |arrivals| && arrivals[i] == x;
        assert ids[i] == l;
      }
    }
    DistinctCovers(ids, Expected(cfg, g));
  }

  /** Root g, whatever the order in which its check-ins arrive, sends each of its ranks the connect info of the next
      rank of the ring, exactly once. */
  method ServeRoot(cfg: Config, o: Offers, g: int, arrivals: seq<ExtInfo>)
    returns (sends: seq<Answer>, ghost sentTo: seq<int>)
    requires cfg.Ok() && 0 <= g < cfg.nroots && o.Ok(cfg) && Own(cfg, g) > 0 && ArriveAt(cfg, o, g, arrivals)
    ensures |sends| == Own(cfg, g) && IsPermutation(sentTo, |sends|)
    ensures forall i: nat :: i < |sends| ==> Serves(cfg, o, sends[i], First(cfg, g) + sentTo[i])
  {
    ArrivalsProper(cfg, o, g, arrivals);
    var ok;
    sends, ok, sentTo := Rendezvous(arrivals);
    forall i: nat | i < |sends| ensures Serves(cfg, o, sends[i], First(cfg, g) + sentTo[i]) {
      AnswerServes(cfg, o, g, arrivals, sends[i], sentTo[i]);
    }
  }

  /** The answer tells rank k about the next rank. */
  ghost predicate Serves(cfg: Config, o: Offers, a: Answer, k: int)
    requires |o.addrs| == |o.infos| == cfg.nranks
  {
    0 <= k < cfg.nranks && a == Answer(o.addrs[k], o.infos[NextRank(cfg, k)])
  }

  lemma AnswerServes(cfg: Config, o: Offers, g: int, arrivals: seq<ExtInfo>, a: Answer, r: int)
    requires cfg.Ok() && 0 <= g < cfg.nroots && o.Ok(cfg) && ArriveAt(cfg, o, g, arrivals) && 0 <= r < Own(cfg, g)
    requires Tells(arrivals, Ids(arrivals), Shape(Own(cfg, g), Expected(cfg, g), cfg.nroots > 1), a, r)
    requires forall i :: 0 <= i < |arrivals| ==> Ids(arrivals)[i] == arrivals[i].rank - First(cfg, g)
    ensures Serves(cfg, o, a, First(cfg, g) + r)
  {
    var ids, s := Ids(arrivals), Shape(Own(cfg, g), Expected(cfg, g), cfg.nroots > 1);
    var j, k :|
      0 <= j < |ids| && 0 <= k < |ids| && ids[j] == r && ids[k] == s.Next(r)
      && a == Answer(arrivals[j].addr, arrivals[k].info);
    ArrivalMembers(cfg, o, g, arrivals);
    var x, y := arrivals[j], arrivals[k];
    assert x in arrivals && y in arrivals;
    MatchServes(cfg, o, g, x, y, r);
  }

  lemma MatchServes(cfg: Config, o: Offers, g: int, x: ExtInfo, y: ExtInfo, r: int)
    requires cfg.Ok() && 0 <= g < cfg.nroots && o.Ok(cfg) && 0 <= r < Own(cfg, g)
    requires Awaited(cfg, o, g, cfg.nranks, x) && Awaited(cfg, o, g, cfg.nranks, y)
    requires x.rank == First(cfg, g) + r
    requires y.rank == First(cfg, g) + Shape(Own(cfg, g), Expected(cfg, g), cfg.nroots > 1).Next(r)
    ensures Serves(cfg, o, Answer(x.addr, y.info), First(cfg, g) + r)
  {
    ArrivalSays(cfg, o, g, x);
    ArrivalSays(cfg, o, g, y);
    NextSender(cfg, g, r);
  }

  /** Which ranks can check in twice without their root noticing: own ranks both of whose neighbours came first, as long
      as the one before is an own rank; and, when a communicator of several ranks grows, rank 0, which the root has for
      the successor of the last rank, if that one came first. */
  lemma SecondCheckIn(cfg: Config, o: Offers, g: int, arrivals: seq<ExtInfo>, m: nat)
    requires cfg.Ok() && 0 <= g < cfg.nroots && o.Ok(cfg) && Own(cfg, g) > 0 && ArriveAt(cfg, o, g, arrivals)
    requires m < |arrivals|
    ensures Proper(arrivals) && Ids(arrivals)[m] == arrivals[m].rank - First(cfg, g)
    ensures
      var s, ids, l := ShapeOf(arrivals[0]), Ids(arrivals), Ids(arrivals)[m];
      Forgotten(s, arrivals, ids, m) <==>
        && 0 <= s.Prev(l) < Own(cfg, g) && s.Prev(l) in ids[..m]
        && if l < Own(cfg, g) then s.Next(l) in ids[..m] else cfg.Offset() > 0
  {
    ArrivalsProper(cfg, o, g, arrivals);
    ArrivalAddress(cfg, o, g, arrivals, m);
    ForgottenMeans(arrivals, m);
  }

  lemma ArrivalAddress(cfg: Config, o: Offers, g: int, arrivals: seq<ExtInfo>, m: nat)
    requires cfg.Ok() && 0 <= g < cfg.nroots && o.Ok(cfg) && ArriveAt(cfg, o, g, arrivals) && m < |arrivals|
    ensures arrivals[m].rank - First(cfg, g) >= Own(cfg, g) ==> (arrivals[m].addr == 0 <==> cfg.Offset() > 0)
  {
    ArrivalMembers(cfg, o, g, arrivals);
    assert arrivals[m] in arrivals;
    if arrivals[m].rank - First(cfg, g) >= Own(cfg, g) {
      NoAddress(cfg, o, g, arrivals[m]);
    }
  }

  /** Only a growing communicator has a rank that nobody answers: it gives no address. */
  lemma NoAddress(cfg: Config, o: Offers, g: int, x: ExtInfo)
    requires cfg.Ok() && 0 <= g < cfg.nroots && o.Ok(cfg) && Awaited(cfg, o, g, cfg.nranks, x)
    requires x.rank - First(cfg, g) >= Own(cfg, g)
    ensures x.addr == 0 <==> cfg.Offset() > 0
  {
    FirstFacts(cfg, g);
    FirstMonotone(cfg, g + 1, cfg.nroots);
    OneSource(cfg, Sender(cfg, x.rank));
  }

  // ---------------------------------------------------------------- the whole exchange

  /** Connect infos in the answers sent to an address. */
  function Received(answers: seq<Answer>, addr: nat): (infos: seq<nat>) {
    if answers == [] then []
    else
      Received(answers[..|answers| - 1], addr)
      + if answers[|answers| - 1].addr == addr then [answers[|answers| - 1].info] else []
  }

  /** What reaches rank k from the first n roots: it listens only when it has a root. */
  function FromRoots(cfg: Config, o: Offers, answers: seq<seq<Answer>>, k: int, n: nat): (infos: seq<nat>)
    requires cfg.Ok() && 0 <= k < cfg.nranks == |o.addrs| && n <= |answers|
  {
    if n == 0 || CurrRoot(cfg, k) < 0 then []
    else FromRoots(cfg, o, answers, k, n - 1) + Received(answers[n - 1], o.addrs[k])
  }

  /** What reaches rank k through the parent communicator from the first n existing ranks: each but the first sends its
      connect info to the one before it. */
  function FromParent(cfg: Config, o: Offers, k: int, n: nat): (infos: seq<nat>)
    requires |o.infos| == cfg.nranks && (cfg.grow ==> n <= cfg.parentRanks <= cfg.nranks)
  {
    if !cfg.grow || n == 0 then []
    else FromParent(cfg, o, k, n - 1) + if n - 1 != 0 && k == n - 2 then [o.infos[n - 1]] else []
  }

  lemma {:induction false} ReceivedNone(answers: seq<Answer>, addr: nat)
    requires forall i :: 0 <= i < |answers| ==> answers[i].addr != addr
    ensures Received(answers, addr) == []
  {
    if answers != [] {
      ReceivedNone(answers[..|answers| - 1], addr);
    }
  }

  lemma {:induction false} ReceivedOne(answers: seq<Answer>, addr: nat, j: nat)
    requires j < |answers| && answers[j].addr == addr
    requires forall i :: 0 <= i < |answers| && i != j ==> answers[i].addr != addr
    ensures Received(answers, addr) == [answers[j].info]
  {
    var k := |answers| - 1;
    if j == k {
      ReceivedNone(answers[..k], addr);
    } else {
      ReceivedOne(answers[..k], addr, j);
    }
  }

  /** The answers of root g: one for each of its ranks. */
  ghost predicate ServedBy(cfg: Config, o: Offers, g: int, answers: seq<Answer>, sentTo: seq<int>)
    requires cfg.Ok() && |o.addrs| == |o.infos| == cfg.nranks
  {
    && |answers| == Own(cfg, g) && IsPermutation(sentTo, |answers|)
    && forall i: nat :: i < |answers| ==> Serves(cfg, o, answers[i], First(cfg, g) + sentTo[i])
  }

  /** A rank hears once from its own root, and nothing from the others. */
  lemma FromOneRoot(cfg: Config, o: Offers, g: int, answers: seq<Answer>, sentTo: seq<int>, k: int)
    requires cfg.Ok() && 0 <= g < cfg.nroots && o.Ok(cfg) && ServedBy(cfg, o, g, answers, sentTo) && 0 <= k < cfg.nranks
    ensures Received(answers, o.addrs[k])
         == if 0 <= k - First(cfg, g) < Own(cfg, g) then [o.infos[NextRank(cfg, k)]] else []
  {
    FromBlock(cfg, o, First(cfg, g), answers, sentTo, k);
  }

  lemma FromBlock(cfg: Config, o: Offers, first: int, answers: seq<Answer>, sentTo: seq<int>, k: int)
    requires o.Ok(cfg) && 0 <= k < cfg.nranks && IsPermutation(sentTo, |answers|)
    requires forall i: nat :: i < |answers| ==> Serves(cfg, o, answers[i], first + sentTo[i])
    ensures Received(answers, o.addrs[k])
         == if 0 <= k - first < |answers| then [o.infos[NextRank(cfg, k)]] else []
  {
    AddressedTo(cfg, o, first, answers, sentTo, k);
    if 0 <= k - first < |answers| {
      Pigeonhole(sentTo, |answers|);
      assert k - first in sentTo;
      var j: nat :| j < |sentTo| && sentTo[j] == k - first;
      ReceivedOne(answers, o.addrs[k], j);
    } else {
      ReceivedNone(answers, o.addrs[k]);
    }
  }

  lemma AddressedTo(cfg: Config, o: Offers, first: int, answers: seq<Answer>, sentTo: seq<int>, k: int)
    requires o.Ok(cfg) && 0 <= k < cfg.nranks && |sentTo| == |answers|
    requires forall i: nat :: i < |answers| ==> Serves(cfg, o, answers[i], first + sentTo[i])
    ensures forall i: nat {:trigger answers[i]} :: i < |answers| ==>
              (answers[i].addr == o.addrs[k] <==> first + sentTo[i] == k)
    ensures forall i: nat {:trigger answers[i]} :: i < |answers| && first + sentTo[i] == k ==>
              answers[i].info == o.infos[NextRank(cfg, k)]
  {
    forall i: nat | i < |answers|
      ensures answers[i].addr == o.addrs[k] <==> first + sentTo[i] == k
      ensures first + sentTo[i] == k ==> answers[i].info == o.infos[NextRank(cfg, k)]
    {
      assert Serves(cfg, o, answers[i], first + sentTo[i]);
    }
  }

  ghost predicate AllServed(cfg: Config, o: Offers, answers: seq<seq<Answer>>, sentTo: seq<seq<int>>)
    requires cfg.Ok() && |o.addrs| == |o.infos| == cfg.nranks
  {
    |answers| == |sentTo| <= cfg.nroots
    && forall g: nat {:trigger ServedBy(cfg, o, g, answers[g], sentTo[g])} :: g < |answers| ==>
         ServedBy(cfg, o, g, answers[g], sentTo[g])
  }

  lemma {:induction false} FromAllRoots(cfg: Config, o: Offers, answers: seq<seq<Answer>>, sentTo: seq<seq<int>>,
                                        k: int, n: nat)
    requires cfg.Ok() && o.Ok(cfg) && 0 <= k < cfg.nranks && n <= |answers| && AllServed(cfg, o, answers, sentTo)
    ensures FromRoots(cfg, o, answers, k, n)
         == if cfg.Offset() <= k < First(cfg, n) then [o.infos[NextRank(cfg, k)]] else []
  {
    OneSource(cfg, k);
    FirstFacts(cfg, 0);
    if n != 0 && cfg.Offset() <= k {
      FromAllRoots(cfg, o, answers, sentTo, k, n - 1);
      FirstFacts(cfg, n - 1);
      FromLastRoot(cfg, o, answers, sentTo, k, n);
    }
  }

  lemma FromLastRoot(cfg: Config, o: Offers, answers: seq<seq<Answer>>, sentTo: seq<seq<int>>, k: int, n: nat)
    requires cfg.Ok() && o.Ok(cfg) && 0 <= k < cfg.nranks && 0 < n <= |answers| && AllServed(cfg, o, answers, sentTo)
    requires CurrRoot(cfg, k) >= 0
    ensures FromRoots(cfg, o, answers, k, n)
         == FromRoots(cfg, o, answers, k, n - 1)
            + if 0 <= k - First(cfg, n - 1) < Own(cfg, n - 1) then [o.infos[NextRank(cfg, k)]] else []
  {
    assert ServedBy(cfg, o, n - 1, answers[n - 1], sentTo[n - 1]);
    FromOneRoot(cfg, o, n - 1, answers[n - 1], sentTo[n - 1], k);
  }

  lemma {:induction false} FromExisting(cfg: Config, o: Offers, k: int, n: nat)
    requires cfg.Ok() && |o.infos| == cfg.nranks && 0 <= k < cfg.nranks && (cfg.grow ==> n <= cfg.parentRanks)
    ensures FromParent(cfg, o, k, n) == if cfg.grow && k + 1 < n then [o.infos[k + 1]] else []
  {
    if cfg.grow && n != 0 {
      FromExisting(cfg, o, k, n - 1);
    }
  }

  /** Everything rank k hears about its successor. */
  function Heard(cfg: Config, o: Offers, answers: seq<seq<Answer>>, k: int): (infos: seq<nat>)
    requires cfg.Ok() && 0 <= k < cfg.nranks == |o.addrs| == |o.infos| && |answers| == cfg.nroots
  {
    FromRoots(cfg, o, answers, k, cfg.nroots) + FromParent(cfg, o, k, cfg.parentRanks)
  }

  /** The whole bootstrap: all ranks check in, their check-ins arrive at each root in any order, and existing ranks tell
      each other. Every rank hears exactly once, and what it hears is how to reach the next rank. */
  method Bootstrap(cfg: Config, o: Offers, arrivals: seq<seq<ExtInfo>>) returns (answers: seq<seq<Answer>>)
    requires cfg.Ok() && o.Ok(cfg) && |arrivals| == cfg.nroots
    requires forall g: nat {:trigger arrivals[g]} :: g < cfg.nroots ==> ArriveAt(cfg, o, g, arrivals[g])
    ensures |answers| == cfg.nroots
    ensures forall k :: 0 <= k < cfg.nranks ==> Heard(cfg, o, answers, k) == [o.infos[NextRank(cfg, k)]]
  {
    ghost var sentTo;
    answers, sentTo := ServeAll(cfg, o, arrivals);
    forall k | 0 <= k < cfg.nranks ensures Heard(cfg, o, answers, k) == [o.infos[NextRank(cfg, k)]] {
      HeardOnce(cfg, o, answers, sentTo, k);
    }
  }

  method ServeAll(cfg: Config, o: Offers, arrivals: seq<seq<ExtInfo>>)
    returns (answers: seq<seq<Answer>>, ghost sentTo: seq<seq<int>>)
    requires cfg.Ok() && o.Ok(cfg) && |arrivals| == cfg.nroots
    requires forall g: nat {:trigger arrivals[g]} :: g < cfg.nroots ==> ArriveAt(cfg, o, g, arrivals[g])
    ensures |answers| == cfg.nroots && AllServed(cfg, o, answers, sentTo)
  {
    answers, sentTo := [], [];
    while |answers| < cfg.nroots
      invariant |answers| <= cfg.nroots && AllServed(cfg, o, answers, sentTo)
    {
      var sends;
      ghost var to;
      sends, to := ServeAny(cfg, o, |answers|, arrivals[|answers|]);
      OneMoreServed(cfg, o, answers, sentTo, sends, to);
      answers, sentTo := answers + [sends], sentTo + [to];
    }
  }

  lemma OneMoreServed(cfg: Config, o: Offers, answers: seq<seq<Answer>>, sentTo: seq<seq<int>>, sends: seq<Answer>,
                      to: seq<int>)
    requires cfg.Ok() && |o.addrs| == |o.infos| == cfg.nranks && |answers| < cfg.nroots
    requires AllServed(cfg, o, answers, sentTo) && ServedBy(cfg, o, |answers|, sends, to)
    ensures AllServed(cfg, o, answers + [sends], sentTo + [to])
  {
    var a, s := answers + [sends], sentTo + [to];
    forall g: nat | g < |a| ensures ServedBy(cfg, o, g, a[g], s[g]) {
      assert g < |answers| ==> ServedBy(cfg, o, g, answers[g], sentTo[g]);
    }
  }

  lemma HeardOnce(cfg: Config, o: Offers, answers: seq<seq<Answer>>, sentTo: seq<seq<int>>, k: int)
    requires cfg.Ok() && o.Ok(cfg) && |answers| == cfg.nroots && AllServed(cfg, o, answers, sentTo)
    requires 0 <= k < cfg.nranks
    ensures Heard(cfg, o, answers, k) == [o.infos[NextRank(cfg, k)]]
  {
    FirstFacts(cfg, 0);
    FromAllRoots(cfg, o, answers, sentTo, k, cfg.nroots);
    FromExisting(cfg, o, k, cfg.parentRanks);
  }

  /** A root that has ranks serves them; one without ranks hears from nobody and answers nobody. */
  method ServeAny(cfg: Config, o: Offers, g: int, arrivals: seq<ExtInfo>)
    returns (sends: seq<Answer>, ghost sentTo: seq<int>)
    requires cfg.Ok() && 0 <= g < cfg.nroots && o.Ok(cfg) && ArriveAt(cfg, o, g, arrivals)
    ensures ServedBy(cfg, o, g, sends, sentTo)
  {
    if arrivals != [] {
      SomebodyArrives(cfg, o, g, arrivals);
      sends, sentTo := ServeRoot(cfg, o, g, arrivals);
    } else {
      NobodyArrives(cfg, o, g, arrivals);
      sends, sentTo := [], [];
    }
  }

  lemma SomebodyArrives(cfg: Config, o: Offers, g: int, arrivals: seq<ExtInfo>)
    requires cfg.Ok() && 0 <= g < cfg.nroots && o.Ok(cfg) && ArriveAt(cfg, o, g, arrivals) && arrivals != []
    ensures Own(cfg, g) > 0
  {
    ArrivalMembers(cfg, o, g, arrivals);
    assert arrivals[0] in arrivals;
  }

  lemma NobodyArrives(cfg: Config, o: Offers, g: int, arrivals: seq<ExtInfo>)
    requires cfg.Ok() && 0 <= g < cfg.nroots && o.Ok(cfg) && ArriveAt(cfg, o, g, arrivals) && arrivals == []
    ensures Own(cfg, g) == 0
  {
    FirstFacts(cfg, g);
    if Own(cfg, g) > 0 {
      ArrivalsProper(cfg, o, g, arrivals);
    }
  }

  // ---------------------------------------------------------------- one ring

  /** Connect infos are not shared, so what a rank hears names one rank. */
  ghost predicate InfosDiffer(cfg: Config, o: Offers) {
    |o.infos| == cfg.nranks && forall j, k :: 0 <= j < k < cfg.nranks ==> o.infos[j] != o.infos[k]
  }

  /** Rank k has heard of rank j and of nobody else. */
  ghost predicate HeardOf(cfg: Config, o: Offers, answers: seq<seq<Answer>>, k: int, j: int)
    requires cfg.Ok() && |o.addrs| == |o.infos| == cfg.nranks && |answers| == cfg.nroots
  {
    0 <= k < cfg.nranks && 0 <= j < cfg.nranks && Heard(cfg, o, answers, k) == [o.infos[j]]
  }

  /** A walk of one hop for each rank, from rank k on: every hop leads to the rank that was heard of. */
  ghost predicate Walk(cfg: Config, o: Offers, answers: seq<seq<Answer>>, k: int, path: seq<int>)
    requires cfg.Ok() && |o.addrs| == |o.infos| == cfg.nranks && |answers| == cfg.nroots
  {
    && |path| == cfg.nranks + 1 && path[0] == k
    && forall i: nat {:trigger After(path, i)} :: i < cfg.nranks ==> HeardOf(cfg, o, answers, path[i], After(path, i))
  }

  /** The rank i hops behind k around the ring. */
  function Around(cfg: Config, k: nat, i: nat): nat
    requires k < cfg.nranks && i <= cfg.nranks
  {
    if k + i < cfg.nranks then k + i else k + i - cfg.nranks
  }

  /** Following what the ranks have heard there is, from every rank, exactly one walk; it visits every rank once and
      ends where it began: there is one ring. */
  lemma OneRing(cfg: Config, o: Offers, answers: seq<seq<Answer>>, k: nat) returns (path: seq<int>)
    requires cfg.Ok() && |o.addrs| == cfg.nranks && InfosDiffer(cfg, o) && |answers| == cfg.nroots && k < cfg.nranks
    requires forall j :: 0 <= j < cfg.nranks ==> Heard(cfg, o, answers, j) == [o.infos[NextRank(cfg, j)]]
    ensures Walk(cfg, o, answers, k, path) && IsPermutation(path[..cfg.nranks], cfg.nranks) && path[cfg.nranks] == k
    ensures forall p :: Walk(cfg, o, answers, k, p) ==> p == path
  {
    path := seq(cfg.nranks + 1, i requires 0 <= i <= cfg.nranks => Around(cfg, k, i));
    forall p | Walk(cfg, o, answers, k, p) ensures p == path {
      forall i | 0 <= i <= cfg.nranks ensures p[i] == path[i] {
        WalkAround(cfg, o, answers, k, p, i);
      }
    }
  }

  lemma {:induction false} WalkAround(cfg: Config, o: Offers, answers: seq<seq<Answer>>, k: nat, p: seq<int>, i: nat)
    requires cfg.Ok() && |o.addrs| == cfg.nranks && InfosDiffer(cfg, o) && |answers| == cfg.nroots && k < cfg.nranks
    requires forall j :: 0 <= j < cfg.nranks ==> Heard(cfg, o, answers, j) == [o.infos[NextRank(cfg, j)]]
    requires Walk(cfg, o, answers, k, p) && i <= cfg.nranks
    ensures p[i] == Around(cfg, k, i)
  {
    if i > 0 {
      WalkAround(cfg, o, answers, k, p, i - 1);
      assert After(p, i - 1) == p[i];
    }
  }
}
