/** A bootstrap root collects one check-in from each of its ranks, and one from the first rank of the next root, and
    tells each of its ranks how to reach the next one as soon as both have checked in. */
module RootRendezvous {
  import opened Arith
  import opened Seqs
  import opened RootPartition

  /** A check-in; addresses and connect infos are numbers, 0 is the zero-filled one. */
  datatype ExtInfo = ExtInfo(rank: int, nranks: int, iroot: int, nroots: int, offset: int, addr: nat, info: nat)

  datatype Answer = Answer(addr: nat, info: nat)

  datatype Status = CheckedIn | Mismatch | OutOfRange | AlreadyCheckedIn

  function Pid(i: int, n: int): int
    requires n > 0
  {
    (i + n) % n
  }

  /** How many check-ins the root expects, and how many of them it has to answer. */
  datatype Shape = Shape(n2send: nat, nrecv: nat, many: bool) {
    /** Without further roots the last rank's successor is the first one. */
    ghost predicate Ok() {
      n2send <= nrecv <= n2send + 1 && nrecv > 0 && (many ==> nrecv == n2send + 1)
    }

    function Next(l: int): int {
      if l + 1 == nrecv then 0 else l + 1
    }

    function Prev(l: int): int {
      if many then l - 1 else if l == 0 then nrecv - 1 else l - 1
    }
  }

  lemma PidFacts(l: int, n: int)
    requires 0 <= l < n
    ensures Pid(l + 1, n) == if l + 1 == n then 0 else l + 1
    ensures Pid(l - 1, n) == if l == 0 then n - 1 else l - 1
  {
    if l + 1 == n {
      MulDivMod(2, n, 0);
    } else {
      MulDivMod(1, n, l + 1);
    }
    if l == 0 {
      MulDivMod(0, n, n - 1);
    } else {
      MulDivMod(1, n, l - 1);
    }
  }

  /** The root's tables: infos kept for a rank's predecessor, addresses of ranks that wait, and the answers sent. */
  datatype Tables = Tables(rankInfo: seq<nat>, addrs: seq<nat>, sends: seq<Answer>)

  /** The newly arrived l is announced to its predecessor, or kept until that one arrives. */
  function Announce(s: Shape, t: Tables, l: int, info: nat): Tables
    requires 0 <= l < |t.rankInfo| == |t.addrs| == s.nrecv && s.n2send <= s.nrecv
  {
    var prev := s.Prev(l);
    if 0 <= prev < s.n2send && t.addrs[prev] != 0 then t.(sends := t.sends + [Answer(t.addrs[prev], info)])
    else t.(rankInfo := t.rankInfo[l := info])
  }

  /** It is told about its successor, or its address is kept until that one arrives. */
  function Reply(s: Shape, t: Tables, l: int, addr: nat): Tables
    requires 0 <= l < |t.rankInfo| == |t.addrs| == s.nrecv && s.n2send <= s.nrecv
  {
    var next := s.Next(l);
    if l < s.n2send && t.rankInfo[next] != 0 then t.(sends := t.sends + [Answer(addr, t.rankInfo[next])])
    else t.(addrs := t.addrs[l := addr])
  }

  // ---------------------------------------------------------------- what the root maintains

  /** Own rank r and its successor. Ranks are registered in waiting (their address) and announced (their info); once r
      is waiting and its successor announced, the answer was sent and at most one of their entries is in the tables. */
  ghost predicate PairOk(s: Shape, t: Tables, waiting: map<int, nat>, announced: map<int, nat>, sentTo: seq<int>,
                         r: int)
    requires 0 <= r < s.n2send <= s.nrecv == |t.rankInfo| == |t.addrs| && s.Ok()
  {
    var n := s.Next(r);
    if r in waiting && n in announced then r in sentTo && (t.addrs[r] == 0 || t.rankInfo[n] == 0)
    else
      && r !in sentTo && (r in waiting ==> t.addrs[r] == waiting[r])
      && (n in announced ==> t.rankInfo[n] == announced[n])
  }

  ghost predicate AnswerOk(s: Shape, t: Tables, waiting: map<int, nat>, announced: map<int, nat>, sentTo: seq<int>,
                           i: nat)
  {
    && i < |sentTo| == |t.sends| && 0 <= sentTo[i] < s.n2send && sentTo[i] in waiting && s.Next(sentTo[i]) in announced
    && t.sends[i] == Answer(waiting[sentTo[i]], announced[s.Next(sentTo[i])])
  }

  ghost predicate Inv(s: Shape, t: Tables, waiting: map<int, nat>, announced: map<int, nat>, sentTo: seq<int>) {
    && s.Ok() && |t.rankInfo| == |t.addrs| == s.nrecv && |sentTo| == |t.sends| && Distinct(sentTo)
    && (forall l :: l in waiting && l < s.n2send ==> waiting[l] != 0)
    && (forall l :: l in announced ==> announced[l] != 0)
    && (forall l :: 0 <= l < s.nrecv ==>
          (l !in waiting ==> t.addrs[l] == 0) && (l !in announced ==> t.rankInfo[l] == 0))
    && (forall r {:trigger PairOk(s, t, waiting, announced, sentTo, r)} :: 0 <= r < s.n2send ==>
          PairOk(s, t, waiting, announced, sentTo, r))
    && forall i: nat {:trigger AnswerOk(s, t, waiting, announced, sentTo, i)} :: i < |sentTo| ==>
         AnswerOk(s, t, waiting, announced, sentTo, i)
  }

  /** The own rank whose successor is l, if there is one. */
  lemma PrevNext(s: Shape, l: int, r: int)
    requires s.Ok() && 0 <= l < s.nrecv && 0 <= r < s.n2send
    ensures s.Next(r) == l <==> s.Prev(l) == r
    ensures 0 <= s.Next(r) < s.nrecv
  {
  }

  lemma AnnounceKeeps(s: Shape, t: Tables, waiting: map<int, nat>, announced: map<int, nat>, sentTo: seq<int>, l: int,
                      info: nat)
    returns (sentTo': seq<int>)
    requires Inv(s, t, waiting, announced, sentTo) && 0 <= l < s.nrecv && l !in announced && info != 0
    ensures Inv(s, Announce(s, t, l, info), waiting, announced[l := info], sentTo')
  {
    var prev, t', announced' := s.Prev(l), Announce(s, t, l, info), announced[l := info];
    sentTo' := sentTo;
    if 0 <= prev < s.n2send {
      PrevNext(s, l, prev);
      assert PairOk(s, t, waiting, announced, sentTo, prev);
      if t.addrs[prev] != 0 {
        sentTo' := sentTo + [prev];
        DistinctAppend(sentTo, prev);
      }
    }
    forall r | 0 <= r < s.n2send ensures PairOk(s, t', waiting, announced', sentTo', r) {
      assert PairOk(s, t, waiting, announced, sentTo, r);
      PrevNext(s, l, r);
    }
    forall i: nat | i < |sentTo'| ensures AnswerOk(s, t', waiting, announced', sentTo', i) {
      assert i < |sentTo| ==> AnswerOk(s, t, waiting, announced, sentTo, i);
    }
  }

  lemma ReplyKeeps(s: Shape, t: Tables, waiting: map<int, nat>, announced: map<int, nat>, sentTo: seq<int>, l: int,
                   addr: nat)
    returns (sentTo': seq<int>)
    requires Inv(s, t, waiting, announced, sentTo) && 0 <= l < s.nrecv && l !in waiting && (l < s.n2send ==> addr != 0)
    ensures Inv(s, Reply(s, t, l, addr), waiting[l := addr], announced, sentTo')
  {
    var next, t', waiting' := s.Next(l), Reply(s, t, l, addr), waiting[l := addr];
    sentTo' := sentTo;
    if l < s.n2send {
      PrevNext(s, next, l);
      assert PairOk(s, t, waiting, announced, sentTo, l);
      if t.rankInfo[next] != 0 {
        sentTo' := sentTo + [l];
        DistinctAppend(sentTo, l);
      }
    }
    forall r | 0 <= r < s.n2send ensures PairOk(s, t', waiting', announced, sentTo', r) {
      assert PairOk(s, t, waiting, announced, sentTo, r);
    }
    forall i: nat | i < |sentTo'| ensures AnswerOk(s, t', waiting', announced, sentTo', i) {
      assert i < |sentTo| ==> AnswerOk(s, t, waiting, announced, sentTo, i);
    }
  }

  // ---------------------------------------------------------------- the root thread

  function LocalId(i: ExtInfo, iroot: int, nranks: int, nroots: int, offset: int): int
    requires nroots > 0
  {
    LocalIdFromRoot(i.rank, iroot, nranks, nroots, offset)
  }

  /** One root. The parameters of the first check-in are those every later one has to repeat. */
  class Root {
    const nranks: int
    const iroot: int
    const nroots: int
    const offset: int
    const n2send: nat
    const nrecv: nat
    const rankInfo: array<nat>
    const rankAddressesRoot: array<nat>
    var sends: seq<Answer>

    ghost function S(): Shape {
      Shape(n2send, nrecv, nroots > 1)
    }

    ghost function T(): Tables
      reads this, rankInfo, rankAddressesRoot
    {
      Tables(rankInfo[..], rankAddressesRoot[..], sends)
    }

    ghost predicate Sized() {
      nroots > 0 && rankInfo.Length == rankAddressesRoot.Length == nrecv && rankInfo != rankAddressesRoot && S().Ok()
    }

    constructor (first: ExtInfo)
      requires first.nroots > 0
      requires var n := NRankFromRoot(first.iroot, first.nranks, first.nroots, first.offset);
               n >= 0 && (first.offset > 0 || first.nroots > 1 || n > 0)
      ensures Sized() && fresh(rankInfo) && fresh(rankAddressesRoot) && sends == []
      ensures nranks == first.nranks && iroot == first.iroot && nroots == first.nroots && offset == first.offset
      ensures n2send == NRankFromRoot(iroot, nranks, nroots, offset)
      ensures nrecv == n2send + if offset > 0 || nroots > 1 then 1 else 0
      ensures rankInfo[..] == rankAddressesRoot[..] == seq(nrecv, _ => 0)
    {
      nranks, iroot, nroots, offset := first.nranks, first.iroot, first.nroots, first.offset;
      var n := NRankFromRoot(first.iroot, first.nranks, first.nroots, first.offset);
      var m: nat := n + if first.offset > 0 || first.nroots > 1 then 1 else 0;
      n2send, nrecv, sends := n, m, [];
      rankInfo, rankAddressesRoot := new nat[m](_ => 0), new nat[m](_ => 0);
    }

    /** Handles one check-in. Only the parameters, the range of the local id, and entries still in the tables are
        checked. */
    method CheckIn(i: ExtInfo) returns (st: Status)
      requires Sized()
      modifies this`sends, rankInfo, rankAddressesRoot
      ensures st == Mismatch <==> !(i.nranks == nranks && i.nroots == nroots && i.iroot == iroot && i.offset == offset)
      ensures
        var l := LocalId(i, iroot, nranks, nroots, offset);
        && (st != Mismatch && !(0 <= l < nrecv) ==> st == OutOfRange)
        && (st != Mismatch && 0 <= l < nrecv ==>
              st == if old(rankAddressesRoot[l]) != 0 || old(rankInfo[l]) != 0 then AlreadyCheckedIn else CheckedIn)
        && (st == CheckedIn ==> 0 <= l < nrecv && T() == Reply(S(), Announce(S(), old(T()), l, i.info), l, i.addr))
      ensures st != CheckedIn ==> T() == old(T())
    {
      if nranks != i.nranks || nroots != i.nroots || iroot != i.iroot || offset != i.offset {
        return Mismatch;
      }
      var localId := LocalId(i, iroot, nranks, nroots, offset);
      if localId < 0 || localId >= nrecv {
        return OutOfRange;
      }
      if rankAddressesRoot[localId] != 0 || rankInfo[localId] != 0 {
        return AlreadyCheckedIn;
      }
      PidFacts(localId, nrecv);
      var prev := if nroots > 1 then localId - 1 else Pid(localId - 1, nrecv);
      AnnounceTo(localId, prev, i.info);
      var next := Pid(localId + 1, nrecv);
      ReplyFrom(localId, next, i.addr);
      st := CheckedIn;
    }

    method AnnounceTo(localId: nat, prev: int, info: nat)
      requires Sized() && localId < nrecv && prev == S().Prev(localId)
      modifies this`sends, rankInfo
      ensures T() == Announce(S(), old(T()), localId, info)
    {
      ghost var t := T();
      if 0 <= prev < n2send && rankAddressesRoot[prev] != 0 {
        sends := sends + [Answer(rankAddressesRoot[prev], info)];
      } else {
        rankInfo[localId] := info;
        assert rankInfo[..] == t.rankInfo[localId := info];
      }
    }

    method ReplyFrom(localId: nat, next: int, addr: nat)
      requires Sized() && localId < nrecv && next == S().Next(localId)
      modifies this`sends, rankAddressesRoot
      ensures T() == Reply(S(), old(T()), localId, addr)
    {
      ghost var t := T();
      if localId < n2send && rankInfo[next] != 0 {
        sends := sends + [Answer(addr, rankInfo[next])];
      } else {
        rankAddressesRoot[localId] := addr;
        assert rankAddressesRoot[..] == t.addrs[localId := addr];
      }
    }

    /** Answers own ranks for which both entries are still in the tables. */
    method SendRemaining()
      requires Sized()
      modifies this`sends
      ensures (forall r :: 0 <= r < n2send ==> rankAddressesRoot[r] == 0 || rankInfo[S().Next(r)] == 0) ==>
                sends == old(sends)
    {
      for r := 0 to n2send
        invariant (forall q :: 0 <= q < r ==> rankAddressesRoot[q] == 0 || rankInfo[S().Next(q)] == 0) ==>
                    sends == old(sends)
      {
        PidFacts(r, nrecv);
        var next := Pid(r + 1, nrecv);
        if rankAddressesRoot[r] != 0 && rankInfo[next] != 0 {
          sends := sends + [Answer(rankAddressesRoot[r], rankInfo[next])];
        }
      }
    }
  }

  // ---------------------------------------------------------------- one whole rendezvous

  /** The shape of the rendezvous that check-in i belongs to. */
  function ShapeOf(i: ExtInfo): Shape
    requires i.nroots > 0 && NRankFromRoot(i.iroot, i.nranks, i.nroots, i.offset) >= 0
  {
    var n := NRankFromRoot(i.iroot, i.nranks, i.nroots, i.offset);
    Shape(n, n + (if i.offset > 0 || i.nroots > 1 then 1 else 0), i.nroots > 1)
  }

  /** The local ids under which the root sees the check-ins. */
  function Ids(arrivals: seq<ExtInfo>): (ids: seq<int>)
    ensures |ids| == |arrivals|
  {
    seq(|arrivals|, k requires 0 <= k < |arrivals| =>
      var i := arrivals[k]; if i.nroots > 0 then LocalId(i, i.iroot, i.nranks, i.nroots, i.offset) else -1)
  }

  /** A complete set of check-ins, in any order: same parameters, each local id once, connect infos everywhere and
      addresses where an answer is due. */
  ghost predicate Proper(arrivals: seq<ExtInfo>) {
    && arrivals != [] && arrivals[0].nroots > 0
    && NRankFromRoot(arrivals[0].iroot, arrivals[0].nranks, arrivals[0].nroots, arrivals[0].offset) >= 0
    && |arrivals| == ShapeOf(arrivals[0]).nrecv && IsPermutation(Ids(arrivals), |arrivals|)
    && forall k :: 0 <= k < |arrivals| ==>
         SameRoot(arrivals[k], arrivals[0])
         && (Ids(arrivals)[k] < ShapeOf(arrivals[0]).n2send ==> arrivals[k].addr != 0)
  }

  ghost predicate SameRoot(i: ExtInfo, f: ExtInfo) {
    i.nranks == f.nranks && i.iroot == f.iroot && i.nroots == f.nroots && i.offset == f.offset && i.info != 0
  }

  /** The answer tells the rank that checked in as r how to reach the one that checked in as its successor. */
  ghost predicate Tells(arrivals: seq<ExtInfo>, ids: seq<int>, s: Shape, a: Answer, r: int)
    requires |ids| == |arrivals|
  {
    exists j, k ::
      0 <= j < |ids| && 0 <= k < |ids| && ids[j] == r && ids[k] == s.Next(r)
      && a == Answer(arrivals[j].addr, arrivals[k].info)
  }

  /** The first k arrivals are registered and announced, and nobody else. */
  ghost predicate Registered(arrivals: seq<ExtInfo>, ids: seq<int>, k: nat, waiting: map<int, nat>,
                             announced: map<int, nat>)
    requires |ids| == |arrivals|
  {
    && k <= |arrivals| && (forall l :: l in waiting <==> l in ids[..k])
    && (forall l :: l in announced <==> l in ids[..k])
    && forall j :: 0 <= j < k ==>
         ids[j] in waiting && waiting[ids[j]] == arrivals[j].addr && ids[j] in announced
         && announced[ids[j]] == arrivals[j].info
  }

  lemma RegisterOne(arrivals: seq<ExtInfo>, ids: seq<int>, k: nat, waiting: map<int, nat>, announced: map<int, nat>)
    requires |ids| == |arrivals| && Distinct(ids) && k < |arrivals| && Registered(arrivals, ids, k, waiting, announced)
    ensures ids[k] !in waiting && ids[k] !in announced
    ensures Registered(arrivals, ids, k + 1, waiting[ids[k] := arrivals[k].addr], announced[ids[k] := arrivals[k].info])
  {
    var x := ids[k];
    assert ids[..k + 1] == ids[..k] + [x];
    assert x !in ids[..k];
  }

  /** With everyone registered, every own rank has been answered exactly once, and nothing remains to be sent. */
  lemma AllAnswered(arrivals: seq<ExtInfo>, ids: seq<int>, s: Shape, t: Tables, waiting: map<int, nat>,
                    announced: map<int, nat>, sentTo: seq<int>)
    requires |ids| == |arrivals| == s.nrecv && IsPermutation(ids, |ids|)
    requires Registered(arrivals, ids, |ids|, waiting, announced)
    requires Inv(s, t, waiting, announced, sentTo)
    ensures IsPermutation(sentTo, s.n2send) && |t.sends| == s.n2send
    ensures forall i: nat :: i < s.n2send ==> Tells(arrivals, ids, s, t.sends[i], sentTo[i])
    ensures forall r :: 0 <= r < s.n2send ==> t.addrs[r] == 0 || t.rankInfo[s.Next(r)] == 0
  {
    Pigeonhole(ids, |ids|);
    assert ids[..|ids|] == ids;
    forall r | 0 <= r < s.n2send ensures r in sentTo && (t.addrs[r] == 0 || t.rankInfo[s.Next(r)] == 0) {
      assert PairOk(s, t, waiting, announced, sentTo, r);
    }
    forall v ensures v in sentTo <==> 0 <= v < s.n2send {
      if v in sentTo {
        var i: nat :| i < |sentTo| && sentTo[i] == v;
        assert AnswerOk(s, t, waiting, announced, sentTo, i);
      }
    }
    DistinctCovers(sentTo, s.n2send);
    forall i: nat | i < s.n2send ensures Tells(arrivals, ids, s, t.sends[i], sentTo[i]) {
      assert AnswerOk(s, t, waiting, announced, sentTo, i);
      var j :| 0 <= j < |ids| && ids[j] == sentTo[i];
      var k :| 0 <= k < |ids| && ids[k] == s.Next(sentTo[i]);
    }
  }

  lemma ProperShape(arrivals: seq<ExtInfo>)
    requires Proper(arrivals)
    ensures ShapeOf(arrivals[0]).Ok()
  {
  }

  lemma CheckInKeeps(s: Shape, t: Tables, waiting: map<int, nat>, announced: map<int, nat>, sentTo: seq<int>, l: int,
                     addr: nat, info: nat)
    returns (sentTo': seq<int>)
    requires Inv(s, t, waiting, announced, sentTo) && 0 <= l < s.nrecv && l !in announced && l !in waiting && info != 0
    requires l < s.n2send ==> addr != 0
    ensures Inv(s, Reply(s, Announce(s, t, l, info), l, addr), waiting[l := addr], announced[l := info], sentTo')
    ensures t.addrs[l] == 0 && t.rankInfo[l] == 0
  {
    sentTo' := AnnounceKeeps(s, t, waiting, announced, sentTo, l, info);
    sentTo' := ReplyKeeps(s, Announce(s, t, l, info), waiting, announced[l := info], sentTo', l, addr);
  }

  // ---------------------------------------------------------------- what the tables remember

  /** The m-th arrival found its predecessor waiting, so its info was passed on and not kept. */
  ghost predicate PassedOn(s: Shape, ids: seq<int>, m: nat)
    requires m < |ids|
  {
    0 <= s.Prev(ids[m]) < s.n2send && s.Prev(ids[m]) in ids[..m]
  }

  /** The m-th arrival found its successor announced (or is its own successor), so it was answered and its address not
      kept. */
  ghost predicate AnsweredAtOnce(s: Shape, ids: seq<int>, m: nat)
    requires m < |ids|
  {
    ids[m] < s.n2send && (s.Next(ids[m]) in ids[..m] || s.Next(ids[m]) == ids[m])
  }

  ghost predicate EntryOk(s: Shape, t: Tables, arrivals: seq<ExtInfo>, ids: seq<int>, m: nat)
    requires |ids| == |arrivals|
  {
    && m < |ids| && 0 <= ids[m] < s.nrecv == |t.rankInfo| == |t.addrs|
    && t.rankInfo[ids[m]] == (if PassedOn(s, ids, m) then 0 else arrivals[m].info)
    && t.addrs[ids[m]] == if AnsweredAtOnce(s, ids, m) then 0 else arrivals[m].addr
  }

  /** After c arrivals the tables hold exactly this of each of them. */
  ghost predicate EntriesOk(s: Shape, t: Tables, arrivals: seq<ExtInfo>, ids: seq<int>, c: nat)
    requires |ids| == |arrivals|
  {
    c <= |ids| && forall m: nat {:trigger EntryOk(s, t, arrivals, ids, m)} :: m < c ==> EntryOk(s, t, arrivals, ids, m)
  }

  /** Where l stands among the first c arrivals. */
  lemma ArrivedAt(ids: seq<int>, c: nat, l: int) returns (m: nat)
    requires c <= |ids| && l in ids[..c]
    ensures m < c && ids[m] == l
  {
    m :| m < c && ids[..c][m] == l;
  }

  /** What the c-th arrival finds in the entries of its neighbours. */
  lemma NeighbourEntries(s: Shape, t: Tables, arrivals: seq<ExtInfo>, ids: seq<int>, c: nat)
    requires s.Ok() && |ids| == |arrivals| && c < |ids| && Distinct(ids) && EntriesOk(s, t, arrivals, ids, c)
    requires |t.rankInfo| == |t.addrs| == s.nrecv && 0 <= ids[c] < s.nrecv
    requires forall l :: 0 <= l < s.nrecv && l !in ids[..c] ==> t.addrs[l] == 0 && t.rankInfo[l] == 0
    requires forall m :: 0 <= m < c ==>
               0 <= ids[m] && arrivals[m].info != 0 && (ids[m] < s.n2send ==> arrivals[m].addr != 0)
    ensures var prev := s.Prev(ids[c]); 0 <= prev < s.n2send ==> (t.addrs[prev] != 0 <==> prev in ids[..c])
    ensures var next := s.Next(ids[c]); ids[c] < s.n2send ==> (t.rankInfo[next] != 0 <==> next in ids[..c])
  {
    var l, prev, next := ids[c], s.Prev(ids[c]), s.Next(ids[c]);
    if 0 <= prev < s.n2send && prev in ids[..c] {
      var m := ArrivedAt(ids, c, prev);
      PrevNext(s, l, prev);
      assert EntryOk(s, t, arrivals, ids, m);
      assert l !in ids[..m];
    }
    if l < s.n2send && next in ids[..c] {
      var m := ArrivedAt(ids, c, next);
      PrevNext(s, next, l);
      assert EntryOk(s, t, arrivals, ids, m);
      assert l !in ids[..m];
    }
  }

  lemma EntriesKept(s: Shape, t: Tables, arrivals: seq<ExtInfo>, ids: seq<int>, c: nat)
    requires s.Ok() && |ids| == |arrivals| && c < |ids| && Distinct(ids) && EntriesOk(s, t, arrivals, ids, c)
    requires |t.rankInfo| == |t.addrs| == s.nrecv && 0 <= ids[c] < s.nrecv
    requires forall l :: 0 <= l < s.nrecv && l !in ids[..c] ==> t.addrs[l] == 0 && t.rankInfo[l] == 0
    requires forall m :: 0 <= m <= c ==>
               0 <= ids[m] && arrivals[m].info != 0 && (ids[m] < s.n2send ==> arrivals[m].addr != 0)
    ensures EntriesOk(s, Reply(s, Announce(s, t, ids[c], arrivals[c].info), ids[c], arrivals[c].addr), arrivals, ids,
                      c + 1)
  {
    var l := ids[c];
    var t1 := Announce(s, t, l, arrivals[c].info);
    var t2 := Reply(s, t1, l, arrivals[c].addr);
    NeighbourEntries(s, t, arrivals, ids, c);
    assert l !in ids[..c];
    forall m: nat | m < c + 1 ensures EntryOk(s, t2, arrivals, ids, m) {
      if m < c {
        assert EntryOk(s, t, arrivals, ids, m);
        assert ids[m] != l;
      }
    }
  }

  /** A second check-in of a rank that was the m-th to arrive goes unnoticed in exactly these cases: its info was passed
      on at once and it was answered at once; or it was passed on and, owed no answer, it had no address. */
  ghost predicate Forgotten(s: Shape, arrivals: seq<ExtInfo>, ids: seq<int>, m: nat)
    requires m < |ids| == |arrivals|
  {
    PassedOn(s, ids, m) && (AnsweredAtOnce(s, ids, m) || arrivals[m].addr == 0)
  }

  /** In terms of the order of arrival: its predecessor is one of the root's own and came before it; and, if it is an
      own one itself, its successor came before it too; if not, it has no address. */
  lemma ForgottenMeans(arrivals: seq<ExtInfo>, m: nat)
    requires Proper(arrivals) && m < |arrivals|
    ensures
      var s, ids := ShapeOf(arrivals[0]), Ids(arrivals);
      var prev, next := s.Prev(ids[m]), s.Next(ids[m]);
      Forgotten(s, arrivals, ids, m) <==>
        && 0 <= prev < s.n2send && prev in ids[..m]
        && if ids[m] < s.n2send then next in ids[..m] else arrivals[m].addr == 0
  {
    var s, ids := ShapeOf(arrivals[0]), Ids(arrivals);
    assert SameRoot(arrivals[m], arrivals[0]);
    assert ids[m] !in ids[..m];
  }

  /** The root has handled the first c check-ins. */
  ghost predicate Collected(root: Root, arrivals: seq<ExtInfo>, c: nat, waiting: map<int, nat>,
                            announced: map<int, nat>, sentTo: seq<int>)
    requires Proper(arrivals)
    reads root, root.rankInfo, root.rankAddressesRoot
  {
    && root.Sized() && root.S() == ShapeOf(arrivals[0]) && root.nranks == arrivals[0].nranks
    && root.iroot == arrivals[0].iroot
    && root.nroots == arrivals[0].nroots && root.offset == arrivals[0].offset
    && Registered(arrivals, Ids(arrivals), c, waiting, announced) && Inv(root.S(), root.T(), waiting, announced, sentTo)
    && EntriesOk(root.S(), root.T(), arrivals, Ids(arrivals), c)
  }

  method HandleNext(root: Root, arrivals: seq<ExtInfo>, c: nat, ghost waiting: map<int, nat>,
                    ghost announced: map<int, nat>, ghost sentTo: seq<int>)
    returns (st: Status, ghost waiting': map<int, nat>, ghost announced': map<int, nat>, ghost sentTo': seq<int>)
    requires Proper(arrivals) && Collected(root, arrivals, c, waiting, announced, sentTo) && c < |arrivals|
    modifies root`sends, root.rankInfo, root.rankAddressesRoot
    ensures st == CheckedIn && Collected(root, arrivals, c + 1, waiting', announced', sentTo')
  {
    assert SameRoot(arrivals[c], arrivals[0]);
    ghost var ids := Ids(arrivals);
    RegisterOne(arrivals, ids, c, waiting, announced);
    sentTo' := CheckInKeeps(root.S(), root.T(), waiting, announced, sentTo, ids[c], arrivals[c].addr, arrivals[c].info);
    waiting', announced' := waiting[ids[c] := arrivals[c].addr], announced[ids[c] := arrivals[c].info];
    EntriesKept(root.S(), root.T(), arrivals, ids, c);
    st := root.CheckIn(arrivals[c]);
  }

  /** A rank that arrived as the m-th checks in again, after c arrivals: whether the root notices depends on what the
      tables had to remember of it. */
  method CheckInAgain(root: Root, arrivals: seq<ExtInfo>, c: nat, m: nat, i: ExtInfo, ghost waiting: map<int, nat>,
                      ghost announced: map<int, nat>, ghost sentTo: seq<int>) returns (st: Status)
    requires Proper(arrivals) && Collected(root, arrivals, c, waiting, announced, sentTo) && m < c
    requires i.rank == arrivals[m].rank && SameRoot(i, arrivals[0])
    modifies root`sends, root.rankInfo, root.rankAddressesRoot
    ensures st == if Forgotten(ShapeOf(arrivals[0]), arrivals, Ids(arrivals), m) then CheckedIn else AlreadyCheckedIn
  {
    assert SameRoot(arrivals[m], arrivals[0]);
    assert EntryOk(root.S(), root.T(), arrivals, Ids(arrivals), m);
    st := root.CheckIn(i);
  }

  /** The root after the first upTo check-ins of a complete set. */
  method Collect(arrivals: seq<ExtInfo>, upTo: nat)
    returns (root: Root, ok: bool, ghost waiting: map<int, nat>, ghost announced: map<int, nat>, ghost sentTo: seq<int>)
    requires Proper(arrivals) && upTo <= |arrivals|
    ensures ok && fresh(root) && fresh(root.rankInfo) && fresh(root.rankAddressesRoot)
    ensures Collected(root, arrivals, upTo, waiting, announced, sentTo)
  {
    ProperShape(arrivals);
    root := new Root(arrivals[0]);
    waiting, announced, sentTo := map[], map[], [];
    var c: nat := 0;
    ok := true;
    while c < upTo
      invariant c <= upTo && ok && Collected(root, arrivals, c, waiting, announced, sentTo)
      invariant fresh(root) && fresh(root.rankInfo) && fresh(root.rankAddressesRoot)
    {
      var st;
      st, waiting, announced, sentTo := HandleNext(root, arrivals, c, waiting, announced, sentTo);
      ok := ok && st == CheckedIn;
      c := c + 1;
    }
  }

  /** Collects a complete set of check-ins that arrive in any order. Every own rank is told about its successor exactly
      once, by the time the last check-in was handled; the closing loop sends nothing more. */
  method Rendezvous(arrivals: seq<ExtInfo>) returns (sends: seq<Answer>, ok: bool, ghost sentTo: seq<int>)
    requires Proper(arrivals)
    ensures ok && |sends| == |sentTo| == ShapeOf(arrivals[0]).n2send && IsPermutation(sentTo, |sends|)
    ensures forall i: nat :: i < |sends| ==> Tells(arrivals, Ids(arrivals), ShapeOf(arrivals[0]), sends[i], sentTo[i])
  {
    var root;
    ghost var waiting, announced;
    root, ok, waiting, announced, sentTo := Collect(arrivals, |arrivals|);
    AllAnswered(arrivals, Ids(arrivals), root.S(), root.T(), waiting, announced, sentTo);
    root.SendRemaining();
    sends := root.sends;
  }

  /** Four ranks of one root, in the order 0, 2, 1, 3. */
  function FourRanks(): (a: seq<ExtInfo>)
    ensures |a| == 4
  {
    seq(4, i requires 0 <= i < 4 => ExtInfo([0, 2, 1, 3][i], 4, 0, 1, 0, i + 1, i + 1))
  }

  lemma FourRanksFacts()
    ensures Proper(FourRanks()) && Forgotten(ShapeOf(FourRanks()[0]), FourRanks(), Ids(FourRanks()), 2)
  {
    var ids := Ids(FourRanks());
    assert ids == [0, 2, 1, 3];
    assert ids[..2] == [0, 2];
  }

  /** Ranks 0, 2 and 1 have checked in when 1 does so again: the root takes it for the fourth rank. */
  method CountedTwice() returns (again: Status)
    ensures again == CheckedIn
  {
    var arrivals := FourRanks();
    FourRanksFacts();
    var root, ok;
    ghost var waiting, announced, sentTo;
    root, ok, waiting, announced, sentTo := Collect(arrivals, 3);
    again := CheckInAgain(root, arrivals, 3, 2, arrivals[2], waiting, announced, sentTo);
  }

  /** A communicator grows from two to three ranks: the root's own ranks are 1 and 2. They and rank 0, which checks in
      as rank 3 and has no root to hear from, arrive in the order 2, 3, 1. */
  function GrownToThree(): (a: seq<ExtInfo>)
    ensures |a| == 3
  {
    [ExtInfo(2, 3, 0, 1, 1, 1, 1), ExtInfo(3, 3, 0, 1, 1, 0, 2), ExtInfo(1, 3, 0, 1, 1, 3, 3)]
  }

  lemma GrownToThreeFacts()
    ensures Proper(GrownToThree()) && Forgotten(ShapeOf(GrownToThree()[0]), GrownToThree(), Ids(GrownToThree()), 1)
    ensures ShapeOf(GrownToThree()[0]).n2send == 2 == Ids(GrownToThree())[1]
  {
    var ids := Ids(GrownToThree());
    assert ids == [1, 2, 0];
    assert ids[..1] == [1];
  }

  /** Rank 2 and rank 0, as rank 3, have checked in when rank 0 does so again: the root takes it for rank 1. */
  method CountedTwiceGrowing() returns (again: Status)
    ensures again == CheckedIn
  {
    var arrivals := GrownToThree();
    GrownToThreeFacts();
    var root, ok;
    ghost var waiting, announced, sentTo;
    root, ok, waiting, announced, sentTo := Collect(arrivals, 2);
    again := CheckInAgain(root, arrivals, 2, 1, arrivals[1], waiting, announced, sentTo);
  }
}
