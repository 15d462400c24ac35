/** The progress thread's lists: elements come from a growing free pool, elements of one append slot are chained behind
    each other and run one at a time, and the heads of the chains form the active list. */
module ProxyProgress {
  import opened Seqs
  import opened Runs

  /** Elements allocated at a time. */
  const ALLOCATE_SIZE := 2048

  /** Operations one element can aggregate. */
  const MAX_SUBS := 64

  /** An operation to run; operations may be aggregated when opCount and shape (steps, protocol, type, operator and
      collective) agree. */
  datatype Request = Request(opCount: nat, shape: int, body: int)

  datatype State = None | Ready | Running

  /** Links are indices into the heap of elements, -1 for no element. */
  datatype Elem = Elem(next: int, nextPeer: int, slot: int, state: State, subs: seq<Request>)

  /** The list from head on, along next, is s. */
  ghost predicate ListOk(elems: seq<Elem>, head: int, s: seq<int>) {
    && head == FirstOf(s)
    && (forall i :: 0 <= i < |s| ==> 0 <= s[i] < |elems|)
    && forall i: nat {:trigger After(s, i)} :: i < |s| ==> elems[s[i]].next == After(s, i)
  }

  ghost predicate FreeOk(elems: seq<Elem>, inUse: seq<bool>, pool: int, free: seq<int>) {
    && |inUse| == |elems| && ListOk(elems, pool, free) && Distinct(free)
    && forall x :: x in free <==> 0 <= x < |elems| && !inUse[x]
  }

  /** The elements of one slot, in the order they will run; only the first one may be running. */
  ghost predicate ChainOk(elems: seq<Elem>, inUse: seq<bool>, slot: int, tail: int, s: seq<int>) {
    && |inUse| == |elems| && Distinct(s) && tail == LastOf(s)
    && (forall x :: x in s <==> 0 <= x < |elems| && inUse[x] && elems[x].slot == slot)
    && (forall i :: 0 <= i < |s| ==>
          0 <= s[i] < |elems| && elems[s[i]].state != None && (i > 0 ==> elems[s[i]].state == Ready))
    && forall i: nat {:trigger After(s, i)} :: i < |s| ==> elems[s[i]].nextPeer == After(s, i)
  }

  ghost predicate ChainsOk(elems: seq<Elem>, inUse: seq<bool>, slots: seq<int>, chains: seq<seq<int>>) {
    && |chains| == |slots| && |inUse| == |elems|
    && (forall s: nat {:trigger ChainOk(elems, inUse, s, slots[s], chains[s])} :: s < |slots| ==>
          ChainOk(elems, inUse, s, slots[s], chains[s]))
    && forall x :: 0 <= x < |elems| && inUse[x] ==> 0 <= elems[x].slot < |slots|
  }

  ghost predicate OrderOk(chains: seq<seq<int>>, order: seq<int>) {
    && Distinct(order)
    && forall s :: s in order <==> 0 <= s < |chains| && chains[s] != []
  }

  function HeadOf(chains: seq<seq<int>>, s: int): int {
    if 0 <= s < |chains| then FirstOf(chains[s]) else -1
  }

  function Heads(chains: seq<seq<int>>, order: seq<int>): (h: seq<int>)
    ensures |h| == |order| && forall i :: 0 <= i < |order| ==> h[i] == HeadOf(chains, order[i])
  {
    seq(|order|, i requires 0 <= i < |order| => HeadOf(chains, order[i]))
  }

  ghost predicate ActiveOk(elems: seq<Elem>, active: int, chains: seq<seq<int>>, order: seq<int>) {
    OrderOk(chains, order) && ListOk(elems, active, Heads(chains, order))
  }

  function SubsOf(elems: seq<Elem>, x: int): seq<Request> {
    if 0 <= x < |elems| then elems[x].subs else []
  }

  /** Everything aggregated in the elements of s, in order. */
  function Flat(elems: seq<Elem>, s: seq<int>): seq<Request> {
    if s == [] then [] else SubsOf(elems, s[0]) + Flat(elems, s[1..])
  }

  /** Per slot, what was appended is what has finished followed by what is still in its chain. */
  ghost predicate LogOk(elems: seq<Elem>, chains: seq<seq<int>>, appended: seq<seq<Request>>, done: seq<seq<Request>>) {
    && |appended| == |done| == |chains|
    && forall s: nat {:trigger Flat(elems, chains[s])} :: s < |chains| ==>
         appended[s] == done[s] + Flat(elems, chains[s])
  }

  // ---------------------------------------------------------------- framing

  lemma {:induction false} FlatConcat(elems: seq<Elem>, s: seq<int>, t: seq<int>)
    ensures Flat(elems, s + t) == Flat(elems, s) + Flat(elems, t)
  {
    if s == [] {
      assert s + t == t;
    } else {
      assert (s + t)[1..] == s[1..] + t;
      FlatConcat(elems, s[1..], t);
    }
  }

  lemma {:induction false} FlatFrame(elems: seq<Elem>, elems': seq<Elem>, s: seq<int>)
    requires forall x :: x in s ==> SubsOf(elems', x) == SubsOf(elems, x)
    ensures Flat(elems', s) == Flat(elems, s)
  {
    if s != [] {
      var t := s[1..];
      assert s[0] in s && forall x :: x in t ==> x in s;
      FlatFrame(elems, elems', t);
    }
  }

  lemma ListFrame(elems: seq<Elem>, elems': seq<Elem>, head: int, s: seq<int>)
    requires ListOk(elems, head, s) && |elems'| >= |elems|
    requires forall x :: x in s && 0 <= x < |elems| ==> elems'[x].next == elems[x].next
    ensures ListOk(elems', head, s)
  {
    forall i | 0 <= i < |s| ensures elems'[s[i]].next == elems[s[i]].next {
      assert s[i] in s;
    }
  }

  /** Elements other than those of the chain may change freely as long as none joins the chain. */
  lemma ChainFrame(elems: seq<Elem>, inUse: seq<bool>, elems': seq<Elem>, inUse': seq<bool>, slot: int, tail: int,
                   s: seq<int>)
    requires ChainOk(elems, inUse, slot, tail, s) && |inUse'| == |elems'| >= |elems|
    requires forall x :: x in s ==>
               0 <= x < |elems| && inUse'[x] && elems'[x].slot == slot && elems'[x].state == elems[x].state
                                    && elems'[x].nextPeer == elems[x].nextPeer
    requires forall x :: 0 <= x < |elems'| && x !in s && inUse'[x] ==> elems'[x].slot != slot
    ensures ChainOk(elems', inUse', slot, tail, s)
  {
    forall i | 0 <= i < |s|
      ensures elems'[s[i]].nextPeer == elems[s[i]].nextPeer && elems'[s[i]].state == elems[s[i]].state
    {
      assert s[i] in s;
    }
  }

  lemma FreeFrame(elems: seq<Elem>, elems': seq<Elem>, inUse: seq<bool>, pool: int, free: seq<int>)
    requires FreeOk(elems, inUse, pool, free) && |elems'| == |elems|
    requires forall x :: 0 <= x < |elems| && !inUse[x] ==> elems'[x].next == elems[x].next
    ensures FreeOk(elems', inUse, pool, free)
  {
    ListFrame(elems, elems', pool, free);
  }

  // ---------------------------------------------------------------- allocating an element

  /** A newly allocated block: its elements are linked in index order. */
  function Block(first: nat): (b: seq<Elem>)
    ensures |b| == ALLOCATE_SIZE
    ensures forall i :: 0 <= i < ALLOCATE_SIZE ==>
              b[i] == Elem(if i + 1 < ALLOCATE_SIZE then first + i + 1 else -1, -1, -1, None, [])
  {
    seq(ALLOCATE_SIZE, (i: nat) => Elem(if i + 1 < ALLOCATE_SIZE then first + i + 1 else -1, -1, -1, None, []))
  }

  function Range(lo: nat, n: nat): (s: seq<int>)
    ensures |s| == n && forall i :: 0 <= i < n ==> s[i] == lo + i
    ensures forall x :: x in s <==> lo <= x < lo + n
  {
    var s := seq(n, i => lo + i);
    assert forall x :: lo <= x < lo + n ==> x in s by {
      forall x | lo <= x < lo + n ensures x in s {
        assert s[x - lo] == x;
      }
    }
    s
  }

  /** A block of linked elements behind the end of the heap becomes the free list when nothing else is free. */
  lemma GrowBy(elems: seq<Elem>, inUse: seq<bool>, free: seq<int>, block: seq<Elem>, unused: seq<bool>, s: seq<int>)
    requires FreeOk(elems, inUse, -1, free) && |block| == |unused| == |s| > 0
    requires forall i :: 0 <= i < |unused| ==> !unused[i]
    requires forall i :: 0 <= i < |block| ==> block[i].next == if i + 1 < |s| then |elems| + i + 1 else -1
    requires forall i :: 0 <= i < |s| ==> s[i] == |elems| + i
    requires forall x :: x in s <==> |elems| <= x < |elems| + |s|
    ensures FreeOk(elems + block, inUse + unused, |elems|, s)
  {
    assert free == [];
    forall x | 0 <= x < |elems| ensures inUse[x] {
      assert x !in free;
    }
    forall i: nat | i < |s| ensures (elems + block)[s[i]].next == After(s, i) {
      assert (elems + block)[s[i]] == block[i];
    }
  }

  lemma Grow(elems: seq<Elem>, inUse: seq<bool>, free: seq<int>)
    requires FreeOk(elems, inUse, -1, free)
    ensures FreeOk(elems + Block(|elems|), inUse + seq(ALLOCATE_SIZE, _ => false), |elems|,
                   Range(|elems|, ALLOCATE_SIZE))
  {
    var n, unused := |elems|, seq(ALLOCATE_SIZE, _ => false);
    GrowBy(elems, inUse, free, Block(n), unused, Range(n, ALLOCATE_SIZE));
  }

  lemma TakeFree(elems: seq<Elem>, elems': seq<Elem>, inUse: seq<bool>, pool: int, free: seq<int>)
    requires FreeOk(elems, inUse, pool, free) && pool != -1
    requires |elems'| == |elems| && forall x :: 0 <= x < |elems| && x != pool ==> elems'[x] == elems[x]
    ensures 0 <= pool < |elems| && !inUse[pool] && FreeOk(elems', inUse[pool := true], elems[pool].next, free[1..])
  {
    assert free[0] in free;
    assert forall x :: x in free <==> x == free[0] || x in free[1..];
    assert free[0] !in free[1..];
    var t := free[1..];
    forall i: nat | i < |t| ensures elems'[t[i]].next == After(t, i) {
      assert t[i] == free[i + 1] && elems[free[i + 1]].next == After(free, i + 1) == After(t, i);
    }
    assert elems[free[0]].next == After(free, 0);
  }

  lemma GiveBack(elems: seq<Elem>, elems': seq<Elem>, inUse: seq<bool>, pool: int, free: seq<int>, x: int)
    requires FreeOk(elems, inUse, pool, free) && 0 <= x < |elems| && inUse[x] && |elems'| == |elems|
    requires elems'[x].next == pool && forall y :: 0 <= y < |elems| && !inUse[y] ==> elems'[y].next == elems[y].next
    ensures FreeOk(elems', inUse[x := false], x, [x] + free)
  {
    var s := [x] + free;
    assert free != [] ==> s[1] == free[0];
    assert forall y :: y in s <==> y == x || y in free;
    forall i: nat | i < |s| ensures 0 <= s[i] < |elems| && elems'[s[i]].next == After(s, i) {
      if i > 0 {
        assert s[i] == free[i - 1] && free[i - 1] in free;
        assert elems[free[i - 1]].next == After(free, i - 1) == After(s, i);
      }
    }
  }

  /** Element x was free, or did not exist, and is now in use; everything else in use is as before. */
  ghost predicate Claimed(elems: seq<Elem>, inUse: seq<bool>, elems': seq<Elem>, inUse': seq<bool>, x: int) {
    && |elems| == |inUse| <= |elems'| == |inUse'| && 0 <= x < |elems'| && inUse'[x] && (x < |elems| ==> !inUse[x])
    && (forall y :: 0 <= y < |elems| && y != x ==> inUse'[y] == inUse[y] && elems'[y] == elems[y])
    && forall y :: |elems| <= y < |elems'| && y != x ==> !inUse'[y]
  }

  // ---------------------------------------------------------------- a new element joins a slot

  /** x becomes a fresh element of the slot, linked behind tail in its chain and behind last in the active list. */
  ghost predicate Joined(elems: seq<Elem>, inUse: seq<bool>, elems': seq<Elem>, inUse': seq<bool>, x: int, slot: int,
                         tail: int, last: int, req: Request)
  {
    && |elems| == |inUse| <= |elems'| == |inUse'| && 0 <= x < |elems'| && inUse'[x] && (x < |elems| ==> !inUse[x])
    && elems'[x] == Elem(-1, -1, slot, Ready, [req])
    && (forall y :: 0 <= y < |elems| && y != x ==> inUse'[y] == inUse[y])
    && (forall y :: 0 <= y < |elems| && inUse[y] ==>
          elems'[y]
            == elems[y].(nextPeer := if y == tail then x else elems[y].nextPeer,
                         next := if y == last then x else elems[y].next))
    && forall y :: |elems| <= y < |elems'| && y != x ==> !inUse'[y]
  }

  lemma JoinChain(elems: seq<Elem>, inUse: seq<bool>, elems': seq<Elem>, inUse': seq<bool>, x: int, slot: int,
                  tail: int, last: int, req: Request, s: seq<int>)
    requires ChainOk(elems, inUse, slot, tail, s) && Joined(elems, inUse, elems', inUse', x, slot, tail, last, req)
    ensures ChainOk(elems', inUse', slot, x, s + [x])
  {
    assert x !in s;
    DistinctAppend(s, x);
    assert forall y :: y in s + [x] <==> y in s || y == x;
    var t := s + [x];
    forall i: nat | i < |t| ensures elems'[t[i]].nextPeer == After(t, i) {
      if i < |s| {
        assert s[i] in s && elems[s[i]].nextPeer == After(s, i);
        assert i + 1 < |s| ==> s[i] != LastOf(s);
      }
    }
  }

  lemma JoinOtherChain(elems: seq<Elem>, inUse: seq<bool>, elems': seq<Elem>, inUse': seq<bool>, x: int, slot: int,
                       tail: int, last: int, req: Request, s: seq<int>, q: int, tailQ: int)
    requires ChainOk(elems, inUse, q, tailQ, s) && Joined(elems, inUse, elems', inUse', x, slot, tail, last, req)
    requires q != slot
    requires tail != -1 ==> 0 <= tail < |elems| && inUse[tail] && elems[tail].slot == slot
    ensures ChainOk(elems', inUse', q, tailQ, s)
  {
    ChainFrame(elems, inUse, elems', inUse', q, tailQ, s);
  }

  lemma JoinChains(elems: seq<Elem>, inUse: seq<bool>, elems': seq<Elem>, inUse': seq<bool>, x: int, slot: nat,
                   last: int, req: Request, slots: seq<int>, chains: seq<seq<int>>)
    requires ChainsOk(elems, inUse, slots, chains) && slot < |slots|
    requires Joined(elems, inUse, elems', inUse', x, slot, slots[slot], last, req)
    ensures ChainsOk(elems', inUse', slots[slot := x], chains[slot := chains[slot] + [x]])
  {
    var slots', chains' := slots[slot := x], chains[slot := chains[slot] + [x]];
    assert ChainOk(elems, inUse, slot, slots[slot], chains[slot]);
    assert chains[slot] != [] ==> LastOf(chains[slot]) in chains[slot];
    forall s: nat | s < |slots| ensures ChainOk(elems', inUse', s, slots'[s], chains'[s]) {
      assert ChainOk(elems, inUse, s, slots[s], chains[s]);
      if s == slot {
        JoinChain(elems, inUse, elems', inUse', x, slot, slots[slot], last, req, chains[slot]);
      } else {
        JoinOtherChain(elems, inUse, elems', inUse', x, slot, slots[slot], last, req, chains[s], s, slots[s]);
      }
    }
    forall y | 0 <= y < |elems'| && inUse'[y] ensures 0 <= elems'[y].slot < |slots| {
    }
  }

  lemma JoinLog(elems: seq<Elem>, inUse: seq<bool>, elems': seq<Elem>, inUse': seq<bool>, x: int, slot: nat, tail: int,
                last: int, req: Request, slots: seq<int>, chains: seq<seq<int>>, appended: seq<seq<Request>>,
                done: seq<seq<Request>>)
    requires ChainsOk(elems, inUse, slots, chains) && LogOk(elems, chains, appended, done) && slot < |slots|
    requires Joined(elems, inUse, elems', inUse', x, slot, tail, last, req)
    ensures LogOk(elems', chains[slot := chains[slot] + [x]], appended[slot := appended[slot] + [req]], done)
  {
    var chains', appended' := chains[slot := chains[slot] + [x]], appended[slot := appended[slot] + [req]];
    forall s: nat | s < |chains| ensures appended'[s] == done[s] + Flat(elems', chains'[s]) {
      assert ChainOk(elems, inUse, s, slots[s], chains[s]);
      FlatFrame(elems, elems', chains[s]);
      if s == slot {
        FlatConcat(elems', chains[s], [x]);
        assert Flat(elems', [x]) == [req] + Flat(elems', [x][1..]) == [req];
        Associative(done[s], Flat(elems', chains[s]), [req]);
      }
    }
  }

  /** Heads are in use, so joining elements elsewhere leaves the active list alone. */
  lemma HeadsInUse(elems: seq<Elem>, inUse: seq<bool>, slots: seq<int>, chains: seq<seq<int>>, order: seq<int>)
    requires ChainsOk(elems, inUse, slots, chains) && OrderOk(chains, order)
    ensures Distinct(Heads(chains, order))
    ensures forall i :: 0 <= i < |order| ==>
              && 0 <= order[i] < |chains| && chains[order[i]] != [] && 0 <= Heads(chains, order)[i] < |elems|
              && inUse[Heads(chains, order)[i]] && elems[Heads(chains, order)[i]].slot == order[i]
  {
    forall i | 0 <= i < |order|
      ensures
        && 0 <= order[i] < |chains| && chains[order[i]] != [] && 0 <= Heads(chains, order)[i] < |elems|
        && inUse[Heads(chains, order)[i]] && elems[Heads(chains, order)[i]].slot == order[i]
    {
      assert order[i] in order;
      assert ChainOk(elems, inUse, order[i], slots[order[i]], chains[order[i]]);
      assert chains[order[i]][0] in chains[order[i]];
    }
  }

  /** Behind a running element of the same slot: the active list keeps its heads. */
  lemma JoinBehind(elems: seq<Elem>, inUse: seq<bool>, elems': seq<Elem>, inUse': seq<bool>, x: int, slot: nat,
                   tail: int, req: Request, slots: seq<int>, active: int, chains: seq<seq<int>>, order: seq<int>)
    requires ChainsOk(elems, inUse, slots, chains) && ActiveOk(elems, active, chains, order)
    requires slot < |chains| && chains[slot] != [] && Joined(elems, inUse, elems', inUse', x, slot, tail, -1, req)
    ensures ActiveOk(elems', active, chains[slot := chains[slot] + [x]], order)
  {
    var chains' := chains[slot := chains[slot] + [x]];
    HeadsInUse(elems, inUse, slots, chains, order);
    assert Heads(chains', order) == Heads(chains, order);
    forall y | y in Heads(chains, order) ensures elems'[y].next == elems[y].next {
    }
    ListFrame(elems, elems', active, Heads(chains, order));
  }

  lemma ListPush(elems: seq<Elem>, elems': seq<Elem>, head: int, s: seq<int>, x: int)
    requires ListOk(elems, head, s) && Distinct(s) && 0 <= x < |elems'| && |elems'| >= |elems| && elems'[x].next == -1
    requires forall i :: 0 <= i < |s| ==> elems'[s[i]].next == if s[i] == LastOf(s) then x else elems[s[i]].next
    ensures ListOk(elems', if head == -1 then x else head, s + [x])
  {
    var t := s + [x];
    forall i: nat | i < |t| ensures elems'[t[i]].next == After(t, i) {
      if i < |s| {
        assert elems[s[i]].next == After(s, i) && (i + 1 < |s| ==> s[i] != LastOf(s));
      }
    }
  }

  /** The first element of a slot: it goes to the end of the active list. */
  lemma JoinActive(elems: seq<Elem>, inUse: seq<bool>, elems': seq<Elem>, inUse': seq<bool>, x: int, slot: nat,
                   tail: int, last: int, req: Request, slots: seq<int>, active: int, chains: seq<seq<int>>,
                   order: seq<int>)
    requires ChainsOk(elems, inUse, slots, chains) && ActiveOk(elems, active, chains, order)
    requires slot < |chains| && chains[slot] == [] && last == LastOf(Heads(chains, order))
    requires Joined(elems, inUse, elems', inUse', x, slot, tail, last, req)
    ensures ActiveOk(elems', if active == -1 then x else active, chains[slot := [x]], order + [slot])
  {
    var chains', h := chains[slot := [x]], Heads(chains, order);
    HeadsInUse(elems, inUse, slots, chains, order);
    assert slot !in order;
    DistinctAppend(order, slot);
    assert forall s :: s in order + [slot] <==> s in order || s == slot;
    assert Heads(chains', order + [slot]) == h + [x];
    ListPush(elems, elems', active, h, x);
  }

  // ---------------------------------------------------------------- aggregation, progress and completion

  /** One more operation aggregated in the last element of a slot. */
  lemma MergeKeeps(elems: seq<Elem>, inUse: seq<bool>, slot: nat, x: int, req: Request, slots: seq<int>, active: int,
                   chains: seq<seq<int>>, order: seq<int>, appended: seq<seq<Request>>, done: seq<seq<Request>>)
    requires ChainsOk(elems, inUse, slots, chains) && ActiveOk(elems, active, chains, order)
    requires LogOk(elems, chains, appended, done)
    requires slot < |slots| && x == slots[slot] != -1
    ensures 0 <= x < |elems|
    ensures
      var elems' := elems[x := elems[x].(subs := elems[x].subs + [req])];
      && ChainsOk(elems', inUse, slots, chains) && ActiveOk(elems', active, chains, order)
      && LogOk(elems', chains, appended[slot := appended[slot] + [req]], done)
  {
    assert ChainOk(elems, inUse, slot, slots[slot], chains[slot]);
    assert LastOf(chains[slot]) in chains[slot];
    var elems' := elems[x := elems[x].(subs := elems[x].subs + [req])];
    forall s: nat | s < |slots| ensures ChainOk(elems', inUse, s, slots[s], chains[s]) {
      assert ChainOk(elems, inUse, s, slots[s], chains[s]);
      ChainFrame(elems, inUse, elems', inUse, s, slots[s], chains[s]);
    }
    ListFrame(elems, elems', active, Heads(chains, order));
    MergeLog(elems, inUse, slot, x, req, slots, chains, appended, done);
  }

  lemma MergeLog(elems: seq<Elem>, inUse: seq<bool>, slot: nat, x: int, req: Request, slots: seq<int>,
                 chains: seq<seq<int>>, appended: seq<seq<Request>>, done: seq<seq<Request>>)
    requires ChainsOk(elems, inUse, slots, chains) && LogOk(elems, chains, appended, done)
    requires slot < |slots| && x == slots[slot] && 0 <= x < |elems|
    ensures LogOk(elems[x := elems[x].(subs := elems[x].subs + [req])], chains,
                  appended[slot := appended[slot] + [req]], done)
  {
    var elems', appended' :=
      elems[x := elems[x].(subs := elems[x].subs + [req])], appended[slot := appended[slot] + [req]];
    assert ChainOk(elems, inUse, slot, slots[slot], chains[slot]);
    assert LastOf(chains[slot]) in chains[slot];
    forall s: nat | s < |chains| ensures appended'[s] == done[s] + Flat(elems', chains[s]) {
      assert ChainOk(elems, inUse, s, slots[s], chains[s]);
      if s == slot {
        MergeFlat(elems, chains[s], req);
        Associative(done[s], Flat(elems, chains[s]), [req]);
      } else {
        FlatFrame(elems, elems', chains[s]);
      }
    }
  }

  lemma MergeFlat(elems: seq<Elem>, s: seq<int>, req: Request)
    requires s != [] && Distinct(s) && 0 <= LastOf(s) < |elems|
    ensures Flat(elems[LastOf(s) := elems[LastOf(s)].(subs := elems[LastOf(s)].subs + [req])], s)
         == Flat(elems, s) + [req]
  {
    var x, t := LastOf(s), s[..|s| - 1];
    var elems' := elems[x := elems[x].(subs := elems[x].subs + [req])];
    assert s == t + [x] && x !in t;
    FlatFrame(elems, elems', t);
    FlatConcat(elems, t, [x]);
    FlatConcat(elems', t, [x]);
    FlatOne(elems, x);
    FlatOne(elems', x);
    Associative(Flat(elems, t), elems[x].subs, [req]);
  }

  lemma FlatOne(elems: seq<Elem>, x: int)
    ensures Flat(elems, [x]) == SubsOf(elems, x)
  {
    assert [x][1..] == [];
    assert Flat(elems, [x]) == SubsOf(elems, x) + [];
  }

  /** A head starts or keeps running. */
  lemma RunKeeps(elems: seq<Elem>, inUse: seq<bool>, slot: nat, slots: seq<int>, active: int, chains: seq<seq<int>>,
                 order: seq<int>, appended: seq<seq<Request>>, done: seq<seq<Request>>)
    requires ChainsOk(elems, inUse, slots, chains) && ActiveOk(elems, active, chains, order)
    requires LogOk(elems, chains, appended, done)
    requires slot < |slots| && chains[slot] != []
    ensures 0 <= chains[slot][0] < |elems|
    ensures
      var elems' := elems[chains[slot][0] := elems[chains[slot][0]].(state := Running)];
      ChainsOk(elems', inUse, slots, chains) && ActiveOk(elems', active, chains, order)
      && LogOk(elems', chains, appended, done)
  {
    assert ChainOk(elems, inUse, slot, slots[slot], chains[slot]);
    var h := chains[slot][0];
    assert h in chains[slot];
    var elems' := elems[h := elems[h].(state := Running)];
    forall s: nat | s < |slots| ensures ChainOk(elems', inUse, s, slots[s], chains[s]) {
      assert ChainOk(elems, inUse, s, slots[s], chains[s]);
      if s != slot {
        ChainFrame(elems, inUse, elems', inUse, s, slots[s], chains[s]);
      }
    }
    ListFrame(elems, elems', active, Heads(chains, order));
    forall s: nat | s < |chains| ensures appended[s] == done[s] + Flat(elems', chains[s]) {
      FlatFrame(elems, elems', chains[s]);
    }
  }

  /** Head h left: its successor np (if any) takes its place between prev and next, and h goes to the front of the
      pool. */
  ghost predicate Removed(elems: seq<Elem>, elems': seq<Elem>, h: int, prev: int, np: int, next: int, pool: int) {
    && |elems'| == |elems| && 0 <= h < |elems| && elems'[h].next == pool
    && forall y :: 0 <= y < |elems| && y != h ==>
         elems'[y] == elems[y].(next := if y == np then next
                                        else if y == prev then (if np != -1 then np else next) else elems[y].next)
  }

  lemma RemoveChain(elems: seq<Elem>, inUse: seq<bool>, elems': seq<Elem>, h: int, prev: int, np: int, next: int,
                    pool: int, slot: nat, tail: int, s: seq<int>)
    requires ChainOk(elems, inUse, slot, tail, s) && s != [] && h == s[0]
    requires Removed(elems, elems', h, prev, np, next, pool)
    ensures 0 <= h < |inUse| && ChainOk(elems', inUse[h := false], slot, LastOf(s[1..]), s[1..])
  {
    assert h in s && h !in s[1..];
    assert forall y :: y in s <==> y == h || y in s[1..];
    var t := s[1..];
    forall i: nat | i < |t| ensures elems'[t[i]].nextPeer == After(t, i) && elems'[t[i]].state == Ready {
      assert t[i] == s[i + 1] && s[i + 1] != h;
      assert elems[s[i + 1]].nextPeer == After(s, i + 1) == After(t, i);
    }
  }

  lemma RemoveChains(elems: seq<Elem>, inUse: seq<bool>, elems': seq<Elem>, h: int, prev: int, np: int, next: int,
                     pool: int, slot: nat, slots: seq<int>, chains: seq<seq<int>>)
    requires ChainsOk(elems, inUse, slots, chains) && slot < |slots| && chains[slot] != [] && h == chains[slot][0]
    requires Removed(elems, elems', h, prev, np, next, pool)
    ensures h < |inUse|
    ensures ChainsOk(elems', inUse[h := false], slots[slot := LastOf(chains[slot][1..])],
                     chains[slot := chains[slot][1..]])
  {
    assert ChainOk(elems, inUse, slot, slots[slot], chains[slot]);
    assert h in chains[slot];
    var slots', chains', inUse' :=
      slots[slot := LastOf(chains[slot][1..])], chains[slot := chains[slot][1..]], inUse[h := false];
    forall s: nat | s < |slots| ensures ChainOk(elems', inUse', s, slots'[s], chains'[s]) {
      assert ChainOk(elems, inUse, s, slots[s], chains[s]);
      if s == slot {
        RemoveChain(elems, inUse, elems', h, prev, np, next, pool, slot, slots[s], chains[s]);
      } else {
        ChainFrame(elems, inUse, elems', inUse', s, slots[s], chains[s]);
      }
    }
  }

  lemma RemoveLog(elems: seq<Elem>, inUse: seq<bool>, elems': seq<Elem>, h: int, prev: int, np: int, next: int,
                  pool: int, slot: nat, slots: seq<int>, chains: seq<seq<int>>, appended: seq<seq<Request>>,
                  done: seq<seq<Request>>)
    requires ChainsOk(elems, inUse, slots, chains) && LogOk(elems, chains, appended, done)
    requires slot < |slots| && chains[slot] != [] && h == chains[slot][0]
    requires Removed(elems, elems', h, prev, np, next, pool)
    ensures LogOk(elems', chains[slot := chains[slot][1..]], appended, done[slot := done[slot] + elems[h].subs])
  {
    var chains', done' := chains[slot := chains[slot][1..]], done[slot := done[slot] + elems[h].subs];
    assert ChainOk(elems, inUse, slot, slots[slot], chains[slot]);
    assert h in chains[slot] && h !in chains[slot][1..];
    forall s: nat | s < |chains| ensures appended[s] == done'[s] + Flat(elems', chains'[s]) {
      assert ChainOk(elems, inUse, s, slots[s], chains[s]);
      assert appended[s] == done[s] + Flat(elems, chains[s]);
      FlatFrame(elems, elems', chains'[s]);
      if s == slot {
        Associative(done[s], elems[h].subs, Flat(elems, chains'[s]));
      }
    }
  }

  /** np takes the place of s[i]. */
  lemma ReplaceInList(elems: seq<Elem>, elems': seq<Elem>, head: int, s: seq<int>, i: nat, np: int, pool: int)
    requires ListOk(elems, head, s) && Distinct(s) && i < |s| && 0 <= np < |elems| && np !in s
    requires Removed(elems, elems', s[i], if i > 0 then s[i - 1] else -1, np, if i + 1 < |s| then s[i + 1] else -1,
                     pool)
    ensures ListOk(elems', if i == 0 then np else head, s[i := np])
  {
    var t := s[i := np];
    assert s[i] in s;
    forall j: nat | j < |t| ensures 0 <= t[j] < |elems| && elems'[t[j]].next == After(t, j) {
      assert s[j] in s && elems[s[j]].next == After(s, j);
      if j != i {
        assert s[j] != s[i] && s[j] != np && (i > 0 && j != i - 1 ==> s[j] != s[i - 1]);
      }
    }
  }

  /** s[i] leaves the list. */
  lemma DropFromList(elems: seq<Elem>, elems': seq<Elem>, head: int, s: seq<int>, i: nat, pool: int)
    requires ListOk(elems, head, s) && Distinct(s) && i < |s|
    requires Removed(elems, elems', s[i], if i > 0 then s[i - 1] else -1, -1, if i + 1 < |s| then s[i + 1] else -1,
                     pool)
    ensures ListOk(elems', if i > 0 then head else if i + 1 < |s| then s[i + 1] else -1, Without(s, i))
  {
    var t := Without(s, i);
    assert t != [] ==> t[0] == if i > 0 then s[0] else s[1];
    forall j: nat | j < |t| ensures 0 <= t[j] < |elems| && elems'[t[j]].next == After(t, j) {
      var k := Skipping(i, j);
      AfterWithout(s, i, j);
      assert s[k] != s[i] && (i > 0 && k != i - 1 ==> s[k] != s[i - 1]);
      assert elems[s[k]].next == After(s, k);
    }
  }

  lemma DropOrder(chains: seq<seq<int>>, order: seq<int>, i: nat)
    requires OrderOk(chains, order) && i < |order| && 0 <= order[i] < |chains|
    ensures OrderOk(chains[order[i] := []], Without(order, i))
  {
    var t := Without(order, i);
    assert forall s :: s in order <==> s in t || s == order[i];
    assert order[i] !in t;
  }

  lemma SuccessorNotHead(elems: seq<Elem>, inUse: seq<bool>, slots: seq<int>, chains: seq<seq<int>>, order: seq<int>,
                         i: nat)
    requires ChainsOk(elems, inUse, slots, chains) && OrderOk(chains, order) && i < |order|
    requires 0 <= order[i] < |chains| && |chains[order[i]]| > 1
    ensures chains[order[i]][1] !in Heads(chains, order)
  {
    HeadsInUse(elems, inUse, slots, chains, order);
    var slot, h := order[i], Heads(chains, order);
    assert ChainOk(elems, inUse, slot, slots[slot], chains[slot]);
    assert chains[slot][1] in chains[slot];
    forall j | 0 <= j < |h| ensures h[j] != chains[slot][1] {
      assert j == i ==> h[j] == chains[slot][0];
      assert j != i ==> elems[h[j]].slot == order[j] != order[i];
    }
  }

  /** The successor of the removed head keeps the slot's place in the active list. */
  lemma RemoveActiveReplace(elems: seq<Elem>, inUse: seq<bool>, elems': seq<Elem>, i: nat, pool: int, slots: seq<int>,
                            active: int, chains: seq<seq<int>>, order: seq<int>)
    requires ChainsOk(elems, inUse, slots, chains) && ActiveOk(elems, active, chains, order) && i < |order|
    requires 0 <= order[i] < |chains| && |chains[order[i]]| > 1
    requires
      var h := Heads(chains, order);
      Removed(elems, elems', h[i], if i > 0 then h[i - 1] else -1, chains[order[i]][1],
              if i + 1 < |h| then h[i + 1] else -1, pool)
    ensures ActiveOk(elems', if i == 0 then chains[order[i]][1] else active, chains[order[i] := chains[order[i]][1..]],
                     order)
  {
    var slot, h := order[i], Heads(chains, order);
    var chains', np := chains[slot := chains[slot][1..]], chains[slot][1];
    HeadsInUse(elems, inUse, slots, chains, order);
    assert ChainOk(elems, inUse, slot, slots[slot], chains[slot]);
    assert np in chains[slot];
    SuccessorNotHead(elems, inUse, slots, chains, order, i);
    ReplaceInList(elems, elems', active, h, i, np, pool);
    assert Heads(chains', order) == h[i := np];
  }

  lemma RemoveActiveDrop(elems: seq<Elem>, inUse: seq<bool>, elems': seq<Elem>, i: nat, pool: int, slots: seq<int>,
                         active: int, chains: seq<seq<int>>, order: seq<int>)
    requires ChainsOk(elems, inUse, slots, chains) && ActiveOk(elems, active, chains, order) && i < |order|
    requires 0 <= order[i] < |chains| && |chains[order[i]]| == 1
    requires
      var h := Heads(chains, order);
      Removed(elems, elems', h[i], if i > 0 then h[i - 1] else -1, -1, if i + 1 < |h| then h[i + 1] else -1, pool)
    ensures
      var h := Heads(chains, order);
      ActiveOk(elems', if i > 0 then active else if i + 1 < |h| then h[i + 1] else -1, chains[order[i] := []],
               Without(order, i))
  {
    var h := Heads(chains, order);
    HeadsInUse(elems, inUse, slots, chains, order);
    DropOrder(chains, order, i);
    DropFromList(elems, elems', active, h, i, pool);
    assert Heads(chains[order[i] := []], Without(order, i)) == Without(h, i);
  }

  // ---------------------------------------------------------------- the whole state

  /** What an element aggregates: at least one operation, at most MAX_SUBS, all with one opCount. */
  ghost predicate Grouped(e: Elem) {
    0 < |e.subs| <= MAX_SUBS && forall i :: 0 <= i < |e.subs| ==> e.subs[i].opCount == e.subs[0].opCount
  }

  ghost predicate GroupsOk(elems: seq<Elem>, inUse: seq<bool>) {
    |inUse| == |elems| && forall x {:trigger Grouped(elems[x])} :: 0 <= x < |elems| && inUse[x] ==> Grouped(elems[x])
  }

  /** Whether req is aggregated in element x rather than given an element of its own. */
  predicate Merges(elems: seq<Elem>, x: int, req: Request, shared: bool) {
    shared && 0 <= x < |elems| && elems[x].subs != [] && elems[x].subs[0].opCount == req.opCount
  }

  lemma GroupsKeep(elems: seq<Elem>, inUse: seq<bool>, elems': seq<Elem>, inUse': seq<bool>)
    requires GroupsOk(elems, inUse) && |inUse'| == |elems'|
    requires forall x :: 0 <= x < |elems'| && inUse'[x] ==>
               Grouped(elems'[x]) || (x < |elems| && inUse[x] && elems'[x].subs == elems[x].subs)
    ensures GroupsOk(elems', inUse')
  {
    forall x | 0 <= x < |elems'| && inUse'[x] ensures Grouped(elems'[x]) {
      if x < |elems| && inUse[x] && elems'[x].subs == elems[x].subs {
        assert Grouped(elems[x]);
      }
    }
  }

  function WithSub(elems: seq<Elem>, x: int, req: Request): seq<Elem>
    requires 0 <= x < |elems|
  {
    elems[x := elems[x].(subs := elems[x].subs + [req])]
  }

  lemma GroupsKeepSub(elems: seq<Elem>, inUse: seq<bool>, x: int, req: Request)
    requires GroupsOk(elems, inUse) && Merges(elems, x, req, true) && |elems[x].subs| < MAX_SUBS && inUse[x]
    ensures GroupsOk(WithSub(elems, x, req), inUse)
  {
    assert Grouped(elems[x]);
    assert Grouped(WithSub(elems, x, req)[x]);
    GroupsKeep(elems, inUse, WithSub(elems, x, req), inUse);
  }

  datatype View = View(inUse: seq<bool>, free: seq<int>, chains: seq<seq<int>>, order: seq<int>,
                       appended: seq<seq<Request>>, done: seq<seq<Request>>)

  function NoElements(n: nat): View {
    View([], [], seq(n, _ => []), [], seq(n, _ => []), seq(n, _ => []))
  }

  ghost predicate Inv(elems: seq<Elem>, pool: int, active: int, slots: seq<int>, v: View) {
    && FreeOk(elems, v.inUse, pool, v.free)
    && ChainsOk(elems, v.inUse, slots, v.chains)
    && ActiveOk(elems, active, v.chains, v.order)
    && LogOk(elems, v.chains, v.appended, v.done)
    && GroupsOk(elems, v.inUse)
  }

  datatype AppendResult = Added | TooManySubs | Mismatch | AlreadyRunning

  /** A new element for req at the end of its slot's chain; the slot enters the active list if it was empty. */
  ghost function AfterJoin(v: View, inUse: seq<bool>, free: seq<int>, slot: nat, x: int, req: Request): View
    requires slot < |v.chains| == |v.appended|
  {
    View(inUse, free, v.chains[slot := v.chains[slot] + [x]],
         if v.chains[slot] == [] then v.order + [slot] else v.order, v.appended[slot := v.appended[slot] + [req]],
         v.done)
  }

  lemma JoinKeeps(elems: seq<Elem>, elems1: seq<Elem>, elems': seq<Elem>, pool: int, pool': int, active: int,
                  slots: seq<int>, v: View, inUse': seq<bool>, free': seq<int>, x: int, slot: nat, last: int,
                  req: Request)
    requires Inv(elems, pool, active, slots, v) && slot < |slots|
    requires FreeOk(elems1, inUse', pool', free') && |elems'| == |elems1|
    requires forall y :: 0 <= y < |elems1| && !inUse'[y] ==> elems'[y].next == elems1[y].next
    requires last == if slots[slot] == -1 then LastOf(Heads(v.chains, v.order)) else -1
    requires Joined(elems, v.inUse, elems', inUse', x, slot, slots[slot], last, req)
    ensures Inv(elems', pool', if slots[slot] == -1 && active == -1 then x else active, slots[slot := x],
                AfterJoin(v, inUse', free', slot, x, req))
  {
    FreeFrame(elems1, elems', inUse', pool', free');
    GroupsKeep(elems, v.inUse, elems', inUse');
    JoinChains(elems, v.inUse, elems', inUse', x, slot, last, req, slots, v.chains);
    JoinLog(elems, v.inUse, elems', inUse', x, slot, slots[slot], last, req, slots, v.chains, v.appended, v.done);
    TailFacts(elems, v.inUse, slots, v.chains, slot);
    if slots[slot] == -1 {
      assert v.chains[slot] + [x] == [x];
      JoinActive(elems, v.inUse, elems', inUse', x, slot, slots[slot], last, req, slots, active, v.chains, v.order);
    } else {
      JoinBehind(elems, v.inUse, elems', inUse', x, slot, slots[slot], req, slots, active, v.chains, v.order);
    }
  }

  /** Element x filled for req and linked behind tail and behind last, when these exist. */
  function JoinedElems(elems: seq<Elem>, x: int, slot: nat, tail: int, last: int, req: Request): seq<Elem>
    requires 0 <= x < |elems| && tail < |elems| && last < |elems|
  {
    var filled := elems[x := Elem(-1, -1, slot, Ready, [req])];
    var chained := if tail < 0 then filled else filled[tail := filled[tail].(nextPeer := x)];
    if last < 0 then chained else chained[last := chained[last].(next := x)]
  }

  /** The element given out by the allocator joins its slot. */
  lemma JoinStep(elems: seq<Elem>, elems1: seq<Elem>, pool: int, pool': int, active: int, slots: seq<int>, v: View,
                 inUse': seq<bool>, free': seq<int>, x: int, slot: nat, last: int, req: Request)
    requires Inv(elems, pool, active, slots, v) && slot < |slots|
    requires FreeOk(elems1, inUse', pool', free') && Claimed(elems, v.inUse, elems1, inUse', x)
    requires last == if slots[slot] == -1 then LastOf(Heads(v.chains, v.order)) else -1
    ensures slots[slot] < |elems1| && last < |elems1|
    ensures
      var elems' := JoinedElems(elems1, x, slot, slots[slot], last, req);
      && Joined(elems, v.inUse, elems', inUse', x, slot, slots[slot], last, req)
      && Inv(elems', pool', if slots[slot] == -1 && active == -1 then x else active, slots[slot := x],
             AfterJoin(v, inUse', free', slot, x, req))
  {
    TailFacts(elems, v.inUse, slots, v.chains, slot);
    HeadsInUse(elems, v.inUse, slots, v.chains, v.order);
    JoinedFacts(elems, v.inUse, elems1, inUse', x, slot, slots[slot], last, req);
    JoinKeeps(elems, elems1, JoinedElems(elems1, x, slot, slots[slot], last, req), pool, pool', active, slots, v,
              inUse', free', x, slot, last, req);
  }

  lemma JoinedFacts(elems: seq<Elem>, inUse: seq<bool>, elems1: seq<Elem>, inUse': seq<bool>, x: int, slot: nat,
                    tail: int, last: int, req: Request)
    requires Claimed(elems, inUse, elems1, inUse', x)
    requires tail == -1 || (0 <= tail < |elems| && inUse[tail])
    requires last == -1 || (0 <= last < |elems| && inUse[last])
    ensures
      var elems' := JoinedElems(elems1, x, slot, tail, last, req);
      && Joined(elems, inUse, elems', inUse', x, slot, tail, last, req)
      && forall y :: 0 <= y < |elems1| && !inUse'[y] ==> elems'[y].next == elems1[y].next
  {
  }

  lemma TailFacts(elems: seq<Elem>, inUse: seq<bool>, slots: seq<int>, chains: seq<seq<int>>, slot: nat)
    requires ChainsOk(elems, inUse, slots, chains) && slot < |slots|
    ensures slots[slot] == -1 <==> chains[slot] == []
    ensures slots[slot] != -1 ==> 0 <= slots[slot] < |elems| && inUse[slots[slot]]
  {
    assert ChainOk(elems, inUse, slot, slots[slot], chains[slot]);
    assert chains[slot] != [] ==> LastOf(chains[slot]) in chains[slot];
  }

  /** The i-th active head has finished: its slot continues with the next element, or leaves the active list. */
  ghost function AfterRemove(v: View, i: nat, subs: seq<Request>): View
    requires i < |v.order| && 0 <= v.order[i] < |v.chains| == |v.done| && v.chains[v.order[i]] != []
    requires 0 <= v.chains[v.order[i]][0] < |v.inUse|
  {
    var slot := v.order[i];
    var h := v.chains[slot][0];
    View(v.inUse[h := false], [h] + v.free, v.chains[slot := v.chains[slot][1..]],
         if |v.chains[slot]| > 1 then v.order else Without(v.order, i),
         v.appended, v.done[slot := v.done[slot] + subs])
  }

  /** The element at position i of the active list, -1 behind its end. */
  function HeadAt(v: View, i: int): int {
    if 0 <= i < |v.order| then HeadOf(v.chains, v.order[i]) else -1
  }

  /** The walk stands at position i of the active list. */
  ghost predicate WalkAt(v: View, i: nat, op: int, prevOp: int) {
    op == HeadAt(v, i) && prevOp == HeadAt(v, i - 1)
  }

  /** Where the walk over the active list continues after its i-th head was removed. */
  function NextAt(v: View, i: nat): nat
    requires i < |v.order| && 0 <= v.order[i] < |v.chains|
  {
    if |v.chains[v.order[i]]| > 1 then i + 1 else i
  }

  /** What removeOp leaves: np or next behind prev, next behind np, and h in front of the pool. */
  function RemovedElems(elems: seq<Elem>, h: int, prev: int, np: int, next: int, pool: int): seq<Elem>
    requires 0 <= h < |elems| && prev < |elems| && np < |elems|
  {
    var after := if prev < 0 then elems else elems[prev := elems[prev].(next := if np < 0 then next else np)];
    var placed := if np < 0 then after else after[np := after[np].(next := next)];
    placed[h := placed[h].(next := pool)]
  }

  /** The links around the i-th active head. */
  lemma RemoveFacts(elems: seq<Elem>, pool: int, active: int, slots: seq<int>, v: View, i: nat)
    requires Inv(elems, pool, active, slots, v) && i < |v.order|
    ensures
      var h, slot := HeadAt(v, i), v.order[i];
      && 0 <= slot < |slots| == |v.chains| == |v.done| && v.chains[slot] != [] && h == v.chains[slot][0]
      && 0 <= h < |elems| == |v.inUse| && v.inUse[h] && elems[h].slot == slot && elems[h].state != None
      && elems[h].next == HeadAt(v, i + 1) && elems[h].nextPeer == After(v.chains[slot], 0)
      && (elems[h].nextPeer != -1 <==> |v.chains[slot]| > 1)
      && HeadAt(v, i - 1) < |elems| && elems[h].nextPeer < |elems| && h != HeadAt(v, i - 1)
    ensures 0 < i ==> HeadAt(v, i - 1) != -1
  {
    HeadsInUse(elems, v.inUse, slots, v.chains, v.order);
    var heads, slot := Heads(v.chains, v.order), v.order[i];
    assert ChainOk(elems, v.inUse, slot, slots[slot], v.chains[slot]);
    assert elems[heads[i]].next == After(heads, i) && elems[heads[i]].nextPeer == After(v.chains[slot], 0);
  }

  /** The elements whose links change are in use and distinct. */
  lemma RemoveDistinct(elems: seq<Elem>, pool: int, active: int, slots: seq<int>, v: View, i: nat)
    requires Inv(elems, pool, active, slots, v) && i < |v.order| && 0 <= HeadAt(v, i) < |elems|
    ensures
      var h, prev := HeadAt(v, i), HeadAt(v, i - 1);
      var np := elems[h].nextPeer;
      && h != prev && h != np && (np != -1 ==> np != prev && 0 <= np < |elems| && v.inUse[np])
      && (prev != -1 ==> 0 <= prev < |elems| && v.inUse[prev]) && np >= -1 && prev >= -1
  {
    RemoveFacts(elems, pool, active, slots, v, i);
    HeadsInUse(elems, v.inUse, slots, v.chains, v.order);
    var slot, heads := v.order[i], Heads(v.chains, v.order);
    assert i > 0 ==> heads[i - 1] == HeadAt(v, i - 1) && heads[i - 1] in heads;
    if |v.chains[slot]| > 1 {
      SuccessorNotHead(elems, v.inUse, slots, v.chains, v.order, i);
      assert ChainOk(elems, v.inUse, slot, slots[slot], v.chains[slot]);
      assert v.chains[slot][1] in v.chains[slot];
    }
  }

  lemma RemovedShape(elems: seq<Elem>, inUse: seq<bool>, h: int, prev: int, np: int, next: int, pool: int)
    requires |inUse| == |elems| && 0 <= h < |elems| && inUse[h] && h != prev && h != np && -1 <= prev && -1 <= np
    requires np != -1 ==> np != prev && np < |elems| && inUse[np]
    requires prev != -1 ==> prev < |elems| && inUse[prev]
    ensures
      var elems' := RemovedElems(elems, h, prev, np, next, pool);
      && Removed(elems, elems', h, prev, np, next, pool)
      && forall y :: 0 <= y < |elems| ==>
           elems'[y].subs == elems[y].subs && (!inUse[y] ==> elems'[y].next == elems[y].next)
  {
  }

  /** What the active list starts with after the i-th head left. */
  function NewActive(active: int, prev: int, np: int, next: int): int {
    if prev != -1 then active else if np != -1 then np else next
  }

  lemma RemoveActive(elems: seq<Elem>, elems': seq<Elem>, pool: int, active: int, slots: seq<int>, v: View, i: nat)
    requires Inv(elems, pool, active, slots, v) && i < |v.order|
    requires 0 <= HeadAt(v, i) < |elems|
    requires
      var h, prev := HeadAt(v, i), HeadAt(v, i - 1);
      Removed(elems, elems', h, prev, elems[h].nextPeer, elems[h].next, pool)
    ensures 0 <= v.order[i] < |v.chains| == |v.done| && v.chains[v.order[i]] != []
    ensures 0 <= v.chains[v.order[i]][0] < |v.inUse|
    ensures
      var h, prev, v' := HeadAt(v, i), HeadAt(v, i - 1), AfterRemove(v, i, elems[HeadAt(v, i)].subs);
      ActiveOk(elems', NewActive(active, prev, elems[h].nextPeer, elems[h].next), v'.chains, v'.order)
  {
    RemoveFacts(elems, pool, active, slots, v, i);
    var slot := v.order[i];
    if |v.chains[slot]| > 1 {
      RemoveActiveReplace(elems, v.inUse, elems', i, pool, slots, active, v.chains, v.order);
    } else {
      assert v.chains[slot][1..] == [];
      RemoveActiveDrop(elems, v.inUse, elems', i, pool, slots, active, v.chains, v.order);
    }
  }

  lemma RemoveRest(elems: seq<Elem>, elems': seq<Elem>, pool: int, active: int, slots: seq<int>, v: View, i: nat,
                   h: int, prev: int, np: int, next: int)
    requires Inv(elems, pool, active, slots, v) && i < |v.order| && h == HeadAt(v, i)
    requires Removed(elems, elems', h, prev, np, next, pool) && np == elems[h].nextPeer && |v.inUse| == |elems|
    requires forall y :: 0 <= y < |elems| ==>
               elems'[y].subs == elems[y].subs && (!v.inUse[y] ==> elems'[y].next == elems[y].next)
    ensures 0 <= v.order[i] < |slots| == |v.chains| == |v.done| && v.chains[v.order[i]] != []
    ensures h == v.chains[v.order[i]][0]
    ensures
      var v', slots' := AfterRemove(v, i, elems[h].subs), if np == -1 then slots[v.order[i] := -1] else slots;
      && FreeOk(elems', v'.inUse, h, v'.free) && ChainsOk(elems', v'.inUse, slots', v'.chains)
      && LogOk(elems', v'.chains, v'.appended, v'.done) && GroupsOk(elems', v'.inUse)
  {
    RemoveFacts(elems, pool, active, slots, v, i);
    var slot := v.order[i];
    GroupsKeep(elems, v.inUse, elems', v.inUse[h := false]);
    GiveBack(elems, elems', v.inUse, pool, v.free, h);
    RemoveChains(elems, v.inUse, elems', h, prev, np, next, pool, slot, slots, v.chains);
    TailOfRest(elems, v.inUse, slots, v.chains, slot);
    RemoveLog(elems, v.inUse, elems', h, prev, np, next, pool, slot, slots, v.chains, v.appended, v.done);
  }

  ghost predicate SameSubs(elems: seq<Elem>, elems': seq<Elem>) {
    |elems'| == |elems| && forall y :: 0 <= y < |elems| ==> elems'[y].subs == elems[y].subs
  }

  ghost predicate SameStates(elems: seq<Elem>, elems': seq<Elem>) {
    |elems'| == |elems| && forall y :: 0 <= y < |elems| ==> elems'[y].state == elems[y].state
  }

  lemma RemovedStates(elems: seq<Elem>, h: int, prev: int, np: int, next: int, pool: int)
    requires 0 <= h < |elems| && prev < |elems| && np < |elems|
    ensures SameStates(elems, RemovedElems(elems, h, prev, np, next, pool))
  {
  }

  lemma RemoveStep(elems: seq<Elem>, pool: int, active: int, slots: seq<int>, v: View, i: nat, h: int, prev: int)
    requires Inv(elems, pool, active, slots, v) && i < |v.order| && h == HeadAt(v, i) && prev == HeadAt(v, i - 1)
    ensures 0 <= h < |elems| && prev < |elems| && elems[h].nextPeer < |elems| && |v.inUse| == |elems|
    ensures 0 <= v.order[i] < |slots| == |v.chains| == |v.done| && v.chains[v.order[i]] != []
    ensures h == v.chains[v.order[i]][0]
    ensures
      var np, next := elems[h].nextPeer, elems[h].next;
      Inv(RemovedElems(elems, h, prev, np, next, pool), h, NewActive(active, prev, np, next),
          if np == -1 then slots[v.order[i] := -1] else slots, AfterRemove(v, i, elems[h].subs))
    ensures SameSubs(elems, RemovedElems(elems, h, prev, elems[h].nextPeer, elems[h].next, pool))
    ensures -1 <= prev && -1 <= elems[h].nextPeer && elems[h].slot == v.order[i] && h != prev && h != elems[h].nextPeer
    ensures elems[h].next == HeadAt(v, i + 1) && elems[h].nextPeer == After(v.chains[v.order[i]], 0)
    ensures elems[h].nextPeer != -1 <==> |v.chains[v.order[i]]| > 1
  {
    RemoveFacts(elems, pool, active, slots, v, i);
    RemoveDistinct(elems, pool, active, slots, v, i);
    var np, next := elems[h].nextPeer, elems[h].next;
    RemovedShape(elems, v.inUse, h, prev, np, next, pool);
    var elems' := RemovedElems(elems, h, prev, np, next, pool);
    RemoveRest(elems, elems', pool, active, slots, v, i, h, prev, np, next);
    RemoveActive(elems, elems', pool, active, slots, v, i);
  }

  /** The slot still points at its last element, or at nothing when that was the one removed. */
  lemma TailOfRest(elems: seq<Elem>, inUse: seq<bool>, slots: seq<int>, chains: seq<seq<int>>, slot: nat)
    requires ChainsOk(elems, inUse, slots, chains) && slot < |slots| && chains[slot] != []
    ensures slots[slot := LastOf(chains[slot][1..])] == if |chains[slot]| == 1 then slots[slot := -1] else slots
  {
    assert ChainOk(elems, inUse, slot, slots[slot], chains[slot]);
  }

  /** What the transport's progress function reports for an element. */
  datatype Outcome = Pending | Finished | Errored

  function OutcomeAt(outcomes: seq<Outcome>, k: nat): Outcome {
    if k < |outcomes| then outcomes[k] else Pending
  }

  /** One of the first k progress calls fails. */
  predicate AnyError(outcomes: seq<Outcome>, k: nat) {
    k > 0 && (AnyError(outcomes, k - 1) || OutcomeAt(outcomes, k - 1) == Errored)
  }

  /** One of the first k progress calls was on x and left it pending. */
  ghost predicate LeftPending(v0: View, outcomes: seq<Outcome>, k: nat, x: int) {
    && k > 0
    && (LeftPending(v0, outcomes, k - 1, x) || (OutcomeAt(outcomes, k - 1) == Pending && HeadAt(v0, k - 1) == x))
  }

  /** After k progress calls, the elements left pending are running; nothing else changes its state. */
  ghost predicate StatesOk(elems0: seq<Elem>, v0: View, outcomes: seq<Outcome>, elems: seq<Elem>, k: nat) {
    && |elems| == |elems0|
    && forall x {:trigger LeftPending(v0, outcomes, k, x)} {:trigger elems[x]} :: 0 <= x < |elems| ==>
         elems[x].state == if LeftPending(v0, outcomes, k, x) then Running else elems0[x].state
  }

  lemma StatesKeep(elems0: seq<Elem>, v0: View, outcomes: seq<Outcome>, elems: seq<Elem>, k: nat, op: int)
    requires StatesOk(elems0, v0, outcomes, elems, k) && OutcomeAt(outcomes, k) == Pending
    requires 0 <= op == HeadAt(v0, k) < |elems|
    ensures StatesOk(elems0, v0, outcomes, elems[op := elems[op].(state := Running)], k + 1)
  {
  }

  lemma StatesLeave(elems0: seq<Elem>, v0: View, outcomes: seq<Outcome>, elems: seq<Elem>, elems': seq<Elem>, k: nat)
    requires StatesOk(elems0, v0, outcomes, elems, k) && OutcomeAt(outcomes, k) != Pending && SameStates(elems, elems')
    ensures StatesOk(elems0, v0, outcomes, elems', k + 1)
  {
    forall x | 0 <= x < |elems'|
      ensures elems'[x].state == if LeftPending(v0, outcomes, k + 1, x) then Running else elems0[x].state
    {
      assert elems[x].state == if LeftPending(v0, outcomes, k, x) then Running else elems0[x].state;
    }
  }

  /** A head called while it is pending runs from then on. */
  lemma CalledRuns(elems0: seq<Elem>, v0: View, outcomes: seq<Outcome>, elems: seq<Elem>, k: nat, j: nat)
    requires StatesOk(elems0, v0, outcomes, elems, k) && j < k && OutcomeAt(outcomes, j) == Pending
    requires 0 <= HeadAt(v0, j) < |elems|
    ensures elems[HeadAt(v0, j)].state == Running
  {
    PendingStays(v0, outcomes, k, j);
  }

  lemma HeadsRun(elems0: seq<Elem>, v0: View, outcomes: seq<Outcome>, elems: seq<Elem>, slots0: seq<int>)
    requires StatesOk(elems0, v0, outcomes, elems, |v0.order|)
    requires ChainsOk(elems0, v0.inUse, slots0, v0.chains) && OrderOk(v0.chains, v0.order)
    ensures forall j: nat {:trigger HeadAt(v0, j)} :: j < |v0.order| ==>
              && 0 <= HeadAt(v0, j) < |elems|
              && (OutcomeAt(outcomes, j) == Pending ==> elems[HeadAt(v0, j)].state == Running)
  {
    HeadsInUse(elems0, v0.inUse, slots0, v0.chains, v0.order);
    forall j: nat {:trigger HeadAt(v0, j)} | j < |v0.order|
      ensures 0 <= HeadAt(v0, j) < |elems|
      ensures OutcomeAt(outcomes, j) == Pending ==> elems[HeadAt(v0, j)].state == Running
    {
      assert Heads(v0.chains, v0.order)[j] == HeadAt(v0, j);
      if OutcomeAt(outcomes, j) == Pending {
        CalledRuns(elems0, v0, outcomes, elems, |v0.order|, j);
      }
    }
  }

  lemma {:induction false} PendingStays(v0: View, outcomes: seq<Outcome>, k: nat, j: nat)
    requires j < k && OutcomeAt(outcomes, j) == Pending
    ensures LeftPending(v0, outcomes, k, HeadAt(v0, j))
  {
    if j + 1 < k {
      PendingStays(v0, outcomes, k - 1, j);
    }
  }

  /** The slots of s that still have elements, in order. */
  ghost function Alive(chains: seq<seq<int>>, s: seq<int>): seq<int> {
    if s == [] then []
    else Alive(chains, s[..|s| - 1]) + if HeadOf(chains, s[|s| - 1]) != -1 then [s[|s| - 1]] else []
  }

  /** Slot s after its head was progressed with outcome o: it goes on with its next element unless the head is
      pending. */
  ghost predicate Progressed(elems: seq<Elem>, v: View, v': View, s: int, o: Outcome)
    requires 0 <= s < |v.chains| == |v'.chains| == |v.done| == |v'.done| && v.chains[s] != []
  {
    if o == Pending then
      v'.chains[s] == v.chains[s] && v'.done[s] == v.done[s]
    else
      v'.chains[s] == v.chains[s][1..] && v'.done[s] == v.done[s] + SubsOf(elems, v.chains[s][0])
  }

  /** After k progress calls: the first k slots of the old active list have been progressed, those with elements left
      are the first i of the present one, and everything else is as it was. */
  ghost predicate PassOk(elems0: seq<Elem>, v0: View, outcomes: seq<Outcome>, v: View, k: nat, i: nat) {
    && k <= |v0.order| && OrderOk(v0.chains, v0.order)
    && |v.chains| == |v0.chains| == |v.done| == |v0.done| && v.appended == v0.appended
    && v.order == Alive(v.chains, v0.order[..k]) + v0.order[k..] && i == |Alive(v.chains, v0.order[..k])|
    && (forall j: nat {:trigger OutcomeAt(outcomes, j)} :: j < k ==>
          ProgressedAt(elems0, v0, v, j, OutcomeAt(outcomes, j)))
    && forall s: nat {:trigger Untouched(v0, v, s)} :: s < |v.chains| && s !in v0.order[..k] ==> Untouched(v0, v, s)
  }

  ghost predicate ProgressedAt(elems0: seq<Elem>, v0: View, v: View, j: nat, o: Outcome) {
    && j < |v0.order| && 0 <= v0.order[j] < |v0.chains| == |v.chains| == |v0.done| == |v.done|
    && v0.chains[v0.order[j]] != []
    && Progressed(elems0, v0, v, v0.order[j], o)
  }

  ghost predicate Untouched(v0: View, v: View, s: nat) {
    s < |v.chains| == |v0.chains| == |v.done| == |v0.done| && v.chains[s] == v0.chains[s] && v.done[s] == v0.done[s]
  }

  lemma {:induction false} AliveFrame(chains: seq<seq<int>>, chains': seq<seq<int>>, s: seq<int>)
    requires |chains'| == |chains| && forall x :: x in s && 0 <= x < |chains| ==> chains'[x] == chains[x]
    ensures Alive(chains', s) == Alive(chains, s)
  {
    if s != [] {
      var t := s[..|s| - 1];
      assert s[|s| - 1] in s && forall x :: x in t ==> x in s;
      AliveFrame(chains, chains', t);
    }
  }

  /** How the active list is rewritten when one more slot was progressed. */
  lemma PassOrder(chains: seq<seq<int>>, chains': seq<seq<int>>, order0: seq<int>, order: seq<int>, k: nat, i: nat,
                  slot: nat)
    requires Distinct(order0) && k < |order0| && slot == order0[k] && slot < |chains| == |chains'|
    requires order == Alive(chains, order0[..k]) + order0[k..] && i == |Alive(chains, order0[..k])|
    requires forall s :: 0 <= s < |chains| && s != slot ==> chains'[s] == chains[s]
    requires HeadOf(chains', slot) == -1 <==> chains'[slot] == []
    ensures i < |order|
    ensures
      var gone := chains'[slot] == [];
      && (if gone then Without(order, i) else order) == Alive(chains', order0[..k + 1]) + order0[k + 1..]
      && |Alive(chains', order0[..k + 1])| == if gone then i else i + 1
  {
    var done, d1, rest := order0[..k], order0[..k + 1], order0[k + 1..];
    assert d1[..|d1| - 1] == done && d1[|d1| - 1] == slot && slot !in done;
    AliveFrame(chains, chains', done);
    assert order0[k..] == [slot] + rest;
    SkipOne(Alive(chains, done), slot, rest);
  }

  lemma SkipOne(a: seq<int>, x: int, b: seq<int>)
    ensures
      var s := a + ([x] + b);
      s == (a + [x]) + b && s[..|a|] + s[|a| + 1..] == a + [] + b
  {
    assert (a + ([x] + b))[..|a|] == a;
  }

  /** One more slot was progressed. */
  lemma PassStep(elems0: seq<Elem>, v0: View, outcomes: seq<Outcome>, v: View, v': View, k: nat, i: nat, slot: nat)
    requires PassOk(elems0, v0, outcomes, v, k, i) && k < |v0.order| && slot == v0.order[k]
    requires slot < |v.chains| && v0.chains[slot] != []
    requires v'.appended == v.appended && |v'.chains| == |v.chains| == |v'.done|
    requires forall s :: 0 <= s < |v.chains| && s != slot ==>
               v'.chains[s] == v.chains[s] && v'.done[s] == v.done[s]
    requires ProgressedAt(elems0, v0, v', k, OutcomeAt(outcomes, k))
    requires i < |v.order| && v'.order == if v'.chains[slot] == [] then Without(v.order, i) else v.order
    requires HeadOf(v'.chains, slot) == -1 <==> v'.chains[slot] == []
    ensures PassOk(elems0, v0, outcomes, v', k + 1, if v'.chains[slot] == [] then i else i + 1)
  {
    PassOrder(v.chains, v'.chains, v0.order, v.order, k, i, slot);
    PassOthers(elems0, v0, outcomes, v, v', k, i, slot);
  }

  /** The slots progressed before, and those still to be progressed, are as they were. */
  lemma PassOthers(elems0: seq<Elem>, v0: View, outcomes: seq<Outcome>, v: View, v': View, k: nat, i: nat, slot: nat)
    requires PassOk(elems0, v0, outcomes, v, k, i) && k < |v0.order| && slot == v0.order[k]
    requires |v'.chains| == |v.chains| == |v'.done| && forall s :: 0 <= s < |v.chains| && s != slot ==>
               v'.chains[s] == v.chains[s] && v'.done[s] == v.done[s]
    ensures forall j: nat :: j < k ==> ProgressedAt(elems0, v0, v', j, OutcomeAt(outcomes, j))
    ensures forall s: nat :: s < |v'.chains| && s !in v0.order[..k + 1] ==> Untouched(v0, v', s)
  {
    forall j: nat | j < k ensures ProgressedAt(elems0, v0, v', j, OutcomeAt(outcomes, j)) {
      assert ProgressedAt(elems0, v0, v, j, OutcomeAt(outcomes, j)) && v0.order[j] != slot;
    }
    assert v0.order[..k + 1] == v0.order[..k] + [slot];
    forall s: nat | s < |v'.chains| && s !in v0.order[..k + 1] ensures Untouched(v0, v', s) {
      assert s !in v0.order[..k] && Untouched(v0, v, s);
    }
  }

  /** The next head is pending. */
  lemma PassPending(elems0: seq<Elem>, v0: View, outcomes: seq<Outcome>, v: View, k: nat, i: nat)
    requires PassOk(elems0, v0, outcomes, v, k, i) && k < |v0.order| && OutcomeAt(outcomes, k) == Pending
    requires forall s: nat :: s < |v.chains| ==> (HeadOf(v.chains, s) == -1 <==> v.chains[s] == [])
    ensures i < |v.order| && v.order[i] == v0.order[k] && PassOk(elems0, v0, outcomes, v, k + 1, i + 1)
  {
    PassAt(elems0, v0, outcomes, v, k, i);
    PassStep(elems0, v0, outcomes, v, v, k, i, v0.order[k]);
  }

  /** The next head is done. */
  lemma PassComplete(elems0: seq<Elem>, v0: View, outcomes: seq<Outcome>, v: View, k: nat, i: nat, subs: seq<Request>)
    requires PassOk(elems0, v0, outcomes, v, k, i) && k < |v0.order| && OutcomeAt(outcomes, k) != Pending
    requires forall s: nat :: s < |v.chains| ==> (HeadOf(v.chains, s) == -1 <==> v.chains[s] == [])
    requires 0 <= v0.order[k] < |v.chains| && v.chains[v0.order[k]] != [] && 0 <= v.chains[v0.order[k]][0] < |v.inUse|
    requires subs == SubsOf(elems0, v.chains[v0.order[k]][0])
    requires |v.chains[v0.order[k]]| > 1 ==> v.chains[v0.order[k]][1] != -1
    ensures i < |v.order| && v.order[i] == v0.order[k]
    ensures PassOk(elems0, v0, outcomes, AfterRemove(v, i, subs), k + 1, NextAt(v, i))
  {
    PassAt(elems0, v0, outcomes, v, k, i);
    var slot := v0.order[k];
    assert |v.chains[slot]| > 1 <==> v.chains[slot][1..] != [];
    PassStep(elems0, v0, outcomes, v, AfterRemove(v, i, subs), k, i, slot);
  }

  lemma PassStart(elems: seq<Elem>, pool: int, active: int, slots: seq<int>, v: View, outcomes: seq<Outcome>)
    requires Inv(elems, pool, active, slots, v)
    ensures PassOk(elems, v, outcomes, v, 0, 0) && active == HeadAt(v, 0)
  {
    assert v.order[..0] == [] && v.order[0..] == v.order;
    assert Alive(v.chains, []) == [];
    forall s: nat | s < |v.chains| ensures Untouched(v, v, s) {
    }
  }

  /** The slot about to be progressed is still as it was at the start of the pass. */
  lemma PassAt(elems0: seq<Elem>, v0: View, outcomes: seq<Outcome>, v: View, k: nat, i: nat)
    requires PassOk(elems0, v0, outcomes, v, k, i) && k < |v0.order|
    ensures i < |v.order| && v.order[i] == v0.order[k] && 0 <= v0.order[k] < |v0.chains| && v0.chains[v0.order[k]] != []
    ensures Untouched(v0, v, v0.order[k]) && HeadAt(v, i) == HeadAt(v0, k)
  {
    assert v0.order[k] in v0.order && v0.order[k] !in v0.order[..k];
  }

  lemma PassLeft(elems0: seq<Elem>, v0: View, outcomes: seq<Outcome>, v: View, k: nat, i: nat)
    requires PassOk(elems0, v0, outcomes, v, k, i) && HeadAt(v, i) != -1
    ensures k < |v0.order|
  {
  }

  lemma PassDone(elems0: seq<Elem>, elems: seq<Elem>, pool: int, active: int, slots: seq<int>, v0: View,
                 outcomes: seq<Outcome>, v: View, k: nat, i: nat)
    requires Inv(elems, pool, active, slots, v) && PassOk(elems0, v0, outcomes, v, k, i) && HeadAt(v, i) == -1
    ensures k == |v0.order| && i == |v.order|
  {
    HeadsPresent(elems, pool, active, slots, v);
  }

  lemma HeadsPresent(elems: seq<Elem>, pool: int, active: int, slots: seq<int>, v: View)
    requires Inv(elems, pool, active, slots, v)
    ensures forall i: nat {:trigger HeadAt(v, i)} :: i < |v.order| ==> HeadAt(v, i) != -1
  {
    HeadsInUse(elems, v.inUse, slots, v.chains, v.order);
    forall i: nat | i < |v.order| ensures HeadAt(v, i) != -1 {
      assert Heads(v.chains, v.order)[i] == HeadAt(v, i);
    }
  }

  lemma HeadsNonNegative(elems: seq<Elem>, pool: int, active: int, slots: seq<int>, v: View, slot: nat)
    requires Inv(elems, pool, active, slots, v) && slot < |v.chains|
    ensures forall s: nat :: s < |v.chains| ==> (HeadOf(v.chains, s) == -1 <==> v.chains[s] == [])
    ensures |v.chains[slot]| > 1 ==> v.chains[slot][1] != -1
  {
    forall s: nat | s < |v.chains|
      ensures HeadOf(v.chains, s) == -1 <==> v.chains[s] == []
      ensures |v.chains[s]| > 1 ==> v.chains[s][1] != -1
    {
      assert ChainOk(elems, v.inUse, s, slots[s], v.chains[s]);
    }
  }

  lemma RemovePositions(v: View, i: nat, subs: seq<Request>)
    requires i < |v.order| && 0 <= v.order[i] < |v.chains| == |v.done| && v.chains[v.order[i]] != []
    requires 0 <= v.chains[v.order[i]][0] < |v.inUse| && Distinct(v.order)
    ensures
      var v', slot := AfterRemove(v, i, subs), v.order[i];
      && HeadAt(v', NextAt(v, i)) == HeadAt(v, i + 1)
      && HeadAt(v', NextAt(v, i) - 1) == if |v.chains[slot]| > 1 then v.chains[slot][1] else HeadAt(v, i - 1)
  {
  }

  /** What one progress call means for the pass, whatever its outcome. */
  lemma StepFacts(elems0: seq<Elem>, elems: seq<Elem>, pool: int, active: int, slots: seq<int>, v0: View,
                  outcomes: seq<Outcome>, v: View, k: nat, i: nat)
    requires Inv(elems, pool, active, slots, v) && PassOk(elems0, v0, outcomes, v, k, i) && SameSubs(elems0, elems)
    requires k < |v0.order|
    ensures i < |v.order| && 0 <= v.order[i] < |v.chains| == |v.done| && v.chains[v.order[i]] != []
    ensures 0 <= HeadAt(v, i) == v.chains[v.order[i]][0] < |elems| == |v.inUse| && elems[HeadAt(v, i)].state != None
    ensures HeadAt(v, i) == HeadAt(v0, k)
    ensures OutcomeAt(outcomes, k) == Pending ==> PassOk(elems0, v0, outcomes, v, k + 1, i + 1)
    ensures OutcomeAt(outcomes, k) != Pending ==>
              Continues(elems0, v0, outcomes, v, AfterRemove(v, i, elems[HeadAt(v, i)].subs), k, i)
  {
    PassAt(elems0, v0, outcomes, v, k, i);
    RemoveFacts(elems, pool, active, slots, v, i);
    HeadsNonNegative(elems, pool, active, slots, v, v0.order[k]);
    if OutcomeAt(outcomes, k) == Pending {
      PassPending(elems0, v0, outcomes, v, k, i);
    } else {
      PassComplete(elems0, v0, outcomes, v, k, i, elems[HeadAt(v, i)].subs);
      RemovePositions(v, i, elems[HeadAt(v, i)].subs);
    }
  }

  /** The pass goes on in v', where the i-th head of v is gone. */
  ghost predicate Continues(elems0: seq<Elem>, v0: View, outcomes: seq<Outcome>, v: View, v': View, k: nat, i: nat)
    requires i < |v.order| && 0 <= v.order[i] < |v.chains|
  {
    && PassOk(elems0, v0, outcomes, v', k + 1, NextAt(v, i))
    && HeadAt(v', NextAt(v, i)) == HeadAt(v, i + 1)
    && HeadAt(v', NextAt(v, i) - 1) == if |v.chains[v.order[i]]| > 1 then v.chains[v.order[i]][1] else HeadAt(v, i - 1)
  }

  /** The lists at one moment. */
  datatype Snap = Snap(elems: seq<Elem>, slots: seq<int>, v: View)

  /** One operation was appended to a slot: aggregated in the slot's last element, which has room for it and may still
      not fit it otherwise, or in a new element at the end of the slot's chain. */
  ghost predicate Appended(s: Snap, slot: nat, req: Request, shared: bool, s': Snap, res: AppendResult)
    requires slot < |s.slots| == |s.v.chains| == |s.v.appended|
  {
    var x := s.slots[slot];
    if Merges(s.elems, x, req, shared) then
      if |s.elems[x].subs| == MAX_SUBS then
        res == TooManySubs && s' == s
      else
        && s' == Snap(WithSub(s.elems, x, req), s.slots,
                      s.v.(appended := s.v.appended[slot := s.v.appended[slot] + [req]]))
        && res == if s.elems[x].subs[0].shape != req.shape then Mismatch
                  else if s.elems[x].state != Ready then AlreadyRunning else Added
    else
      && |s'.elems| == |s.elems| + (if s.v.free == [] then ALLOCATE_SIZE else 0)
      && res == Added && slot < |s'.slots| && s'.slots == s.slots[slot := s'.slots[slot]]
      && s'.v == AfterJoin(s.v, s'.v.inUse, s'.v.free, slot, s'.slots[slot], req)
      && Joined(s.elems, s.v.inUse, s'.elems, s'.v.inUse, s'.slots[slot], slot, x,
                if x == -1 then LastOf(Heads(s.v.chains, s.v.order)) else -1, req)
  }

  /** A pass called every active head once. */
  ghost predicate Passed(s: Snap, outcomes: seq<Outcome>, s': Snap) {
    && PassOk(s.elems, s.v, outcomes, s'.v, |s.v.order|, |s'.v.order|)
    && StatesOk(s.elems, s.v, outcomes, s'.elems, |s.v.order|) && |s'.slots| == |s.slots|
  }

  class Progress {
    var elems: seq<Elem>
    var pool: int
    var active: int
    var slots: seq<int>
    ghost var v: View

    ghost predicate Valid()
      reads this
    {
      Inv(elems, pool, active, slots, v)
    }

    ghost function S(): Snap
      reads this
    {
      Snap(elems, slots, v)
    }

    constructor (n: nat)
      ensures Valid() && S() == Snap([], seq(n, _ => -1), NoElements(n))
    {
      elems, pool, active, slots := [], -1, -1, seq(n, _ => -1);
      v := NoElements(n);
    }

    /** Takes an element from the free pool, which grows by a block when it is empty. */
    method Allocate() returns (x: int)
      requires FreeOk(elems, v.inUse, pool, v.free)
      modifies this`elems, this`pool, this`v
      ensures FreeOk(elems, v.inUse, pool, v.free) && v == old(v).(inUse := v.inUse, free := v.free)
      ensures Claimed(old(elems), old(v.inUse), elems, v.inUse, x) && elems[x].next == elems[x].nextPeer == -1
      ensures |elems| == |old(elems)| + if old(v.free) == [] then ALLOCATE_SIZE else 0
    {
      if pool == -1 {
        Grow(elems, v.inUse, v.free);
        v := v.(inUse := v.inUse + seq(ALLOCATE_SIZE, _ => false), free := Range(|elems|, ALLOCATE_SIZE));
        pool, elems := |elems|, elems + Block(|elems|);
      }
      x := pool;
      ghost var was := elems;
      TakeFree(was, was[x := was[x].(next := -1, nextPeer := -1)], v.inUse, pool, v.free);
      pool := elems[x].next;
      elems := elems[x := elems[x].(next := -1, nextPeer := -1)];
      v := v.(inUse := v.inUse[x := true], free := v.free[1..]);
    }

    /** Appends one operation to a slot: aggregated in the slot's last element, behind it, or as a new active element.
        The checks that fail after the operation was aggregated leave it aggregated. */
    method Append(slot: nat, req: Request, shared: bool) returns (res: AppendResult)
      requires Valid() && slot < |slots|
      modifies this
      ensures Valid() && |slots| == old(|slots|) == |old(v).chains| == |old(v).appended|
      ensures Appended(old(S()), slot, req, shared, S(), res)
    {
      var args := slots[slot];
      TailFacts(elems, v.inUse, slots, v.chains, slot);
      assert args != -1 ==> Grouped(elems[args]);
      if args != -1 && shared && elems[args].subs[0].opCount == req.opCount {
        res := AddSub(slot, args, req);
      } else {
        res := Added;
        if args != -1 {
          JoinBehindTail(slot, req);
        } else {
          JoinActiveList(slot, req);
        }
      }
    }

    method AddSub(slot: nat, args: int, req: Request) returns (res: AppendResult)
      requires Valid() && slot < |slots| && args == slots[slot] && 0 <= args < |elems| && v.inUse[args]
      requires Merges(elems, args, req, true)
      modifies this`elems, this`v
      ensures Valid()
      ensures |old(elems)[args].subs| == MAX_SUBS ==> res == TooManySubs && v == old(v) && elems == old(elems)
      ensures |old(elems)[args].subs| < MAX_SUBS ==>
                && v == old(v).(appended := old(v).appended[slot := old(v).appended[slot] + [req]])
                && elems == WithSub(old(elems), args, req)
                && res == if old(elems)[args].subs[0].shape != req.shape then Mismatch
                          else if old(elems)[args].state != Ready then AlreadyRunning else Added
    {
      if |elems[args].subs| >= MAX_SUBS {
        return TooManySubs;
      }
      MergeKeeps(elems, v.inUse, slot, args, req, slots, active, v.chains, v.order, v.appended, v.done);
      GroupsKeepSub(elems, v.inUse, args, req);
      FreeFrame(elems, WithSub(elems, args, req), v.inUse, pool, v.free);
      res := if elems[args].subs[0].shape != req.shape then Mismatch
             else if elems[args].state != Ready then AlreadyRunning else Added;
      elems := WithSub(elems, args, req);
      v := v.(appended := v.appended[slot := v.appended[slot] + [req]]);
    }

    /** Links a new element behind the slot's last one. */
    method JoinBehindTail(slot: nat, req: Request)
      requires Valid() && slot < |slots| && slots[slot] != -1
      modifies this
      ensures Valid() && |slots| == old(|slots|) && v == AfterJoin(old(v), v.inUse, v.free, slot, slots[slot], req)
      ensures slots == old(slots)[slot := slots[slot]]
      ensures |elems| == |old(elems)| + if old(v.free) == [] then ALLOCATE_SIZE else 0
      ensures Joined(old(elems), old(v.inUse), elems, v.inUse, slots[slot], slot, old(slots)[slot], -1, req)
    {
      ghost var v0 := v;
      TailFacts(elems, v.inUse, slots, v.chains, slot);
      var prevArgs := slots[slot];
      var x := Allocate();
      JoinStep(old(elems), elems, old(pool), pool, active, slots, v0, v.inUse, v.free, x, slot, -1, req);
      v := AfterJoin(v0, v.inUse, v.free, slot, x, req);
      elems := elems[x := elems[x].(slot := slot, state := Ready, subs := [req])];
      elems := elems[prevArgs := elems[prevArgs].(nextPeer := x)];
      slots := slots[slot := x];
    }

    /** Links a new element at the end of the active list. */
    method JoinActiveList(slot: nat, req: Request)
      requires Valid() && slot < |slots| && slots[slot] == -1
      modifies this
      ensures Valid() && |slots| == old(|slots|) && v == AfterJoin(old(v), v.inUse, v.free, slot, slots[slot], req)
      ensures slots == old(slots)[slot := slots[slot]]
      ensures |elems| == |old(elems)| + if old(v.free) == [] then ALLOCATE_SIZE else 0
      ensures Joined(old(elems), old(v.inUse), elems, v.inUse, slots[slot], slot, -1,
                     LastOf(old(Heads(v.chains, v.order))), req)
    {
      ghost var v0 := v;
      HeadsInUse(elems, v.inUse, slots, v.chains, v.order);
      var last := LastActive();
      var x := Allocate();
      JoinStep(old(elems), elems, old(pool), pool, active, slots, v0, v.inUse, v.free, x, slot, last, req);
      v := AfterJoin(v0, v.inUse, v.free, slot, x, req);
      elems := elems[x := elems[x].(slot := slot, state := Ready, subs := [req])];
      if active == -1 {
        active := x;
      } else {
        elems := elems[last := elems[last].(next := x)];
      }
      slots := slots[slot := x];
    }

    /** The last element of the active list, -1 when it is empty. */
    method LastActive() returns (last: int)
      requires ListOk(elems, active, Heads(v.chains, v.order))
      ensures last == LastOf(Heads(v.chains, v.order))
    {
      last := active;
      ghost var h, i := Heads(v.chains, v.order), 0;
      if last != -1 {
        assert elems[h[0]].next == After(h, 0);
        while elems[last].next != -1
          invariant 0 <= i < |h| && last == h[i] && elems[last].next == After(h, i)
          decreases |h| - i
        {
          last := elems[last].next;
          i := i + 1;
          assert elems[h[i]].next == After(h, i);
        }
      }
    }

    /** Takes op, which stands behind prevOp in the active list, out of the lists; returns where the walk continues. */
    method RemoveOp(op: int, prevOp: int) returns (op': int, prevOp': int)
      requires 0 <= op < |elems| && -1 <= prevOp < |elems| && -1 <= elems[op].nextPeer < |elems|
      requires 0 <= elems[op].slot < |slots|
      requires op != prevOp && op != elems[op].nextPeer
      modifies this`elems, this`active, this`pool, this`slots
      ensures elems == RemovedElems(old(elems), op, prevOp, old(elems)[op].nextPeer, old(elems)[op].next, old(pool))
      ensures active == NewActive(old(active), prevOp, old(elems)[op].nextPeer, old(elems)[op].next) && pool == op
      ensures slots == if old(elems)[op].nextPeer == -1 then old(slots)[old(elems)[op].slot := -1] else old(slots)
      ensures op' == old(elems)[op].next
      ensures prevOp' == if old(elems)[op].nextPeer != -1 then old(elems)[op].nextPeer else prevOp
    {
      op', prevOp' := elems[op].next, prevOp;
      var nextPeer := elems[op].nextPeer;
      if nextPeer != -1 {
        PutAfter(prevOp, nextPeer);
        elems := elems[nextPeer := elems[nextPeer].(next := op')];
        prevOp' := nextPeer;
      } else {
        slots := slots[elems[op].slot := -1];
        PutAfter(prevOp, op');
      }
      elems := elems[op := elems[op].(next := pool)];
      pool := op;
    }

    /** The i-th active head, op, is done: its operations have finished and its slot moves on. */
    method Complete(op: int, prevOp: int, ghost i: nat) returns (op': int, prevOp': int)
      requires Valid() && i < |v.order| && op == HeadAt(v, i) && prevOp == HeadAt(v, i - 1)
      modifies this
      ensures Valid() && |slots| == old(|slots|)
      ensures 0 <= op < |old(elems)| && 0 <= old(v.order[i]) < |old(v.chains)| == |old(v.done)|
      ensures old(v.chains[v.order[i]]) != []
      ensures 0 <= old(v.chains[v.order[i]][0]) < |old(v.inUse)|
      ensures v == AfterRemove(old(v), i, old(elems)[op].subs)
      ensures SameSubs(old(elems), elems) && SameStates(old(elems), elems)
      ensures op' == HeadAt(old(v), i + 1)
      ensures prevOp' == if |old(v.chains[v.order[i]])| > 1 then old(v.chains[v.order[i]])[1] else prevOp
    {
      RemoveStep(elems, pool, active, slots, v, i, op, prevOp);
      ghost var v' := AfterRemove(v, i, elems[op].subs);
      RemovedStates(elems, op, prevOp, elems[op].nextPeer, elems[op].next, pool);
      op', prevOp' := RemoveOp(op, prevOp);
      v := v';
    }

    /** The pass goes on behind a head that is done. */
    method Leave(op: int, prevOp: int, ghost elems0: seq<Elem>, ghost v0: View, ghost outcomes: seq<Outcome>,
                 ghost k: nat, ghost i: nat)
      returns (op': int, prevOp': int, ghost i': nat)
      requires Valid() && PassOk(elems0, v0, outcomes, v, k, i) && SameSubs(elems0, elems) && k < |v0.order|
      requires WalkAt(v, i, op, prevOp) && OutcomeAt(outcomes, k) != Pending
      requires StatesOk(elems0, v0, outcomes, elems, k)
      modifies this
      ensures Valid() && PassOk(elems0, v0, outcomes, v, k + 1, i') && SameSubs(elems0, elems)
      ensures |slots| == old(|slots|) && StatesOk(elems0, v0, outcomes, elems, k + 1)
      ensures WalkAt(v, i', op', prevOp')
      ensures 0 <= op < |old(elems)| && old(elems)[op].state != None
    {
      StepFacts(elems0, elems, pool, active, slots, v0, outcomes, v, k, i);
      i' := NextAt(v, i);
      ghost var was := elems;
      op', prevOp' := Complete(op, prevOp, i);
      StatesLeave(elems0, v0, outcomes, was, elems, k);
    }

    /** The pass goes on behind a head that stays. */
    method Stay(op: int, ghost elems0: seq<Elem>, ghost v0: View, ghost outcomes: seq<Outcome>, ghost k: nat,
                ghost i: nat)
      returns (op': int, prevOp': int, ghost i': nat)
      requires Valid() && PassOk(elems0, v0, outcomes, v, k, i) && SameSubs(elems0, elems) && k < |v0.order|
      requires op == HeadAt(v, i) && OutcomeAt(outcomes, k) == Pending
      requires StatesOk(elems0, v0, outcomes, elems, k)
      modifies this`elems
      ensures Valid() && PassOk(elems0, v0, outcomes, v, k + 1, i') && SameSubs(elems0, elems)
      ensures |slots| == old(|slots|) && StatesOk(elems0, v0, outcomes, elems, k + 1)
      ensures WalkAt(v, i', op', prevOp')
      ensures 0 <= op < |old(elems)| && old(elems)[op].state != None
    {
      StepFacts(elems0, elems, pool, active, slots, v0, outcomes, v, k, i);
      StatesKeep(elems0, v0, outcomes, elems, k, op);
      op' := Keep(op, i);
      prevOp', i' := op, i + 1;
    }

    /** A head that is not done stays where it is, and runs. */
    method Keep(op: int, ghost i: nat) returns (op': int)
      requires Valid() && i < |v.order| && op == HeadAt(v, i)
      modifies this`elems
      ensures Valid() && SameSubs(old(elems), elems) && op' == HeadAt(v, i + 1)
      ensures 0 <= op < |old(elems)| && elems == old(elems)[op := old(elems)[op].(state := Running)]
    {
      RemoveFacts(elems, pool, active, slots, v, i);
      RunKeeps(elems, v.inUse, v.order[i], slots, active, v.chains, v.order, v.appended, v.done);
      FreeFrame(elems, elems[op := elems[op].(state := Running)], v.inUse, pool, v.free);
      GroupsKeep(elems, v.inUse, elems[op := elems[op].(state := Running)], v.inUse);
      elems := elems[op := elems[op].(state := Running)];
      op' := elems[op].next;
    }

    /** Progresses the element at position i of the active list and moves on. */
    method ProgressOne(op: int, prevOp: int, o: Outcome, ghost elems0: seq<Elem>, ghost v0: View,
                       ghost outcomes: seq<Outcome>, ghost k: nat, ghost i: nat)
      returns (op': int, prevOp': int, ghost i': nat)
      requires Valid() && PassOk(elems0, v0, outcomes, v, k, i) && SameSubs(elems0, elems) && k < |v0.order|
      requires WalkAt(v, i, op, prevOp) && o == OutcomeAt(outcomes, k)
      requires StatesOk(elems0, v0, outcomes, elems, k)
      modifies this
      ensures Valid() && PassOk(elems0, v0, outcomes, v, k + 1, i') && SameSubs(elems0, elems)
      ensures |slots| == old(|slots|) && StatesOk(elems0, v0, outcomes, elems, k + 1)
      ensures WalkAt(v, i', op', prevOp')
      ensures 0 <= op < |old(elems)| && old(elems)[op].state != None
    {
      if o == Pending {
        op', prevOp', i' := Stay(op, elems0, v0, outcomes, k, i);
      } else {
        op', prevOp', i' := Leave(op, prevOp, elems0, v0, outcomes, k, i);
      }
    }

    /** One pass over the active list: every slot that was active gets exactly one progress call on the element at its
        head, in list order, and runs unless that call finished it or failed; an element that takes over a finished
        one's place is not called in the same pass. */
    method ProgressOps(outcomes: seq<Outcome>) returns (failed: bool)
      requires Valid()
      modifies this
      ensures Valid() && |slots| == old(|slots|)
      ensures Passed(old(S()), outcomes, S())
      ensures failed == AnyError(outcomes, |old(v.order)|)
      ensures forall j: nat {:trigger HeadAt(old(v), j)} :: j < |old(v.order)| ==>
                && 0 <= HeadAt(old(v), j) < |elems|
                && (OutcomeAt(outcomes, j) == Pending ==> elems[HeadAt(old(v), j)].state == Running)
    {
      failed := false;
      ghost var elems0, v0 := elems, v;
      ghost var i: nat := 0;
      var k: nat := 0;
      var prevOp, op := -1, active;
      ghost var slots0 := slots;
      PassStart(elems, pool, active, slots, v, outcomes);
      while op != -1
        invariant Valid() && PassOk(elems0, v0, outcomes, v, k, i) && SameSubs(elems0, elems) && |slots| == old(|slots|)
        invariant WalkAt(v, i, op, prevOp) && StatesOk(elems0, v0, outcomes, elems, k)
        invariant failed == AnyError(outcomes, k)
        decreases |v0.order| - k
      {
        PassLeft(elems0, v0, outcomes, v, k, i);
        failed := failed || OutcomeAt(outcomes, k) == Errored;
        op, prevOp, i := ProgressOne(op, prevOp, OutcomeAt(outcomes, k), elems0, v0, outcomes, k, i);
        k := k + 1;
      }
      PassDone(elems0, elems, pool, active, slots, v0, outcomes, v, k, i);
      HeadsRun(elems0, v0, outcomes, elems, slots0);
    }

    /** What follows prevOp, or starts the active list. */
    method PutAfter(prevOp: int, next: int)
      requires -1 <= prevOp < |elems|
      modifies this`elems, this`active
      ensures prevOp == -1 ==> elems == old(elems) && active == next
      ensures prevOp != -1 ==> elems == old(elems)[prevOp := old(elems)[prevOp].(next := next)] && active == old(active)
    {
      if prevOp != -1 {
        elems := elems[prevOp := elems[prevOp].(next := next)];
      } else {
        active := next;
      }
    }
  }

  // ---------------------------------------------------------------- what the invariant means

  /** Every element is either free or in the chain of exactly one slot, once. */
  lemma OnePlace(elems: seq<Elem>, pool: int, active: int, slots: seq<int>, v: View, x: int)
    requires Inv(elems, pool, active, slots, v) && 0 <= x < |elems|
    ensures Distinct(v.free)
    ensures forall s: nat :: s < |v.chains| ==> Distinct(v.chains[s])
    ensures x in v.free <==> forall s: nat :: s < |v.chains| ==> x !in v.chains[s]
    ensures forall s: nat, t: nat :: s < |v.chains| && t < |v.chains| && x in v.chains[s] && x in v.chains[t] ==> s == t
  {
    forall s: nat | s < |v.chains|
      ensures Distinct(v.chains[s]) && (x in v.chains[s] <==> v.inUse[x] && elems[x].slot == s)
    {
      assert ChainOk(elems, v.inUse, s, slots[s], v.chains[s]);
    }
    if v.inUse[x] {
      assert x in v.chains[elems[x].slot];
    }
  }

  /** The slot points at its last element; its first element, and no other, is on the active list; the others wait; and
      what has finished is a prefix of what was appended. */
  lemma OneAtATime(elems: seq<Elem>, pool: int, active: int, slots: seq<int>, v: View, s: nat, i: nat)
    requires Inv(elems, pool, active, slots, v) && s < |slots|
    ensures |v.done| == |v.appended| == |v.chains| == |slots| && slots[s] == LastOf(v.chains[s])
    ensures v.done[s] <= v.appended[s] && (v.chains[s] == [] ==> v.done[s] == v.appended[s])
    ensures i < |v.chains[s]| ==>
              && 0 <= v.chains[s][i] < |elems| && (v.chains[s][i] in Heads(v.chains, v.order) <==> i == 0)
              && (i > 0 ==> elems[v.chains[s][i]].state == Ready)
  {
    assert ChainOk(elems, v.inUse, s, slots[s], v.chains[s]);
    assert v.appended[s] == v.done[s] + Flat(elems, v.chains[s]);
    if i < |v.chains[s]| {
      HeadsInUse(elems, v.inUse, slots, v.chains, v.order);
      var h, c := Heads(v.chains, v.order), v.chains[s];
      assert c[i] in c && s in v.order;
      if i == 0 {
        var k :| 0 <= k < |v.order| && v.order[k] == s;
        assert h[k] == c[0];
      } else {
        forall k | 0 <= k < |h| ensures h[k] != c[i] {
          assert elems[h[k]].slot == v.order[k];
        }
      }
    }
  }

  datatype Event = Append(slot: nat, req: Request, shared: bool) | Pass(outcomes: seq<Outcome>)

  /** What an event does to the lists; an append to a slot that does not exist does nothing. */
  ghost predicate Took(s: Snap, e: Event, s': Snap) {
    match e
    case Append(slot, req, shared) =>
      if slot < |s.slots| == |s.v.chains| == |s.v.appended| then exists res :: Appended(s, slot, req, shared, s', res)
      else s' == s
    case Pass(outcomes) => Passed(s, outcomes, s')
  }

  ghost function Machine(): (Snap, Event, Snap) -> bool {
    (s, e, s') => Took(s, e, s')
  }

  /** Any run of appends and passes: each of them takes place, and operations of one slot finish in the order they were
      accepted. */
  method Run(n: nat, events: seq<Event>) returns (p: Progress, accepted: seq<seq<Request>>, ghost trace: seq<Snap>)
    ensures p.Valid() && |p.slots| == n && p.v.appended == accepted
    ensures IsRun(Machine(), trace, events) && trace[|events|] == p.S()
    ensures trace[0] == Snap([], seq(n, _ => -1), NoElements(n))
    ensures forall s: nat :: s < n ==> s < |p.v.done| == |accepted| && p.v.done[s] <= accepted[s]
  {
    p := new Progress(n);
    accepted, trace := seq(n, _ => []), [p.S()];
    for k := 0 to |events|
      invariant p.Valid() && fresh(p) && |p.slots| == n && p.v.appended == accepted
      invariant IsRun(Machine(), trace, events[..k]) && trace[k] == p.S()
      invariant trace[0] == Snap([], seq(n, _ => -1), NoElements(n))
    {
      accepted := Act(p, events[k], accepted);
      RunMore(Machine(), trace, events, k, p.S());
      trace := trace + [p.S()];
    }
    assert events[..|events|] == events;
    forall s: nat | s < n ensures s < |p.v.done| == |accepted| && p.v.done[s] <= accepted[s] {
      OneAtATime(p.elems, p.pool, p.active, p.slots, p.v, s, 0);
    }
  }

  method Act(p: Progress, e: Event, accepted: seq<seq<Request>>) returns (accepted': seq<seq<Request>>)
    requires p.Valid() && p.v.appended == accepted
    modifies p
    ensures p.Valid() && |p.slots| == old(|p.slots|) && p.v.appended == accepted'
    ensures Took(old(p.S()), e, p.S())
  {
    accepted' := accepted;
    match e
    case Append(slot, req, shared) =>
      if slot < |p.slots| {
        var res := p.Append(slot, req, shared);
        if res != TooManySubs {
          accepted' := accepted[slot := accepted[slot] + [req]];
        }
      }
    case Pass(outcomes) =>
      var _ := p.ProgressOps(outcomes);
  }
}
