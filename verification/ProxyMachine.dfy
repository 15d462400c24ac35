/** The shared pool of proxy operations as an abstract machine: what one step of a producer or of the progress thread
    does to the lists, when a fetch ends, and that fetching goes on until nothing posted is left. */
module ProxyMachine {
  import opened Seqs
  import opened Runs
  import opened ProxyLists
  import opened ProxyPeers
  import opened ProxyPoolSteps

  /** Where the progress thread is in one call of the fetch routine; Publishing has loaded a peer's free list and linked
      its own chain in front of it, but not yet exchanged the head. */
  datatype Phase = Idle | Fetching | Returning(peer: nat) | Publishing(peer: nat)

  /** A producer takes over returned slots, appends an operation, or starts what it has pending; or the progress thread
      moves on. */
  datatype Event = Refill(r: nat) | Submit(r: nat, w: Work) | Launch(r: nat) | Poll

  /** Cutting w after its first k operations keeps the whole final run of equal opCount, and nothing else. */
  ghost predicate IsCut(w: seq<Work>, k: nat) {
    && k < |w|
    && (forall i :: k <= i < |w| ==> w[i].opCount == w[|w| - 1].opCount)
    && (k > 0 ==> w[k - 1].opCount != w[|w| - 1].opCount)
  }

  // ---------------------------------------------------------------- batches

  /** An operation delivered in the present fetch. */
  datatype Delivery = Delivery(opCount: nat, peer: int)

  /** The i-th delivery has another opCount than the one before it, unless that one's is zero, or another peer. */
  ghost predicate SwitchAt(b: seq<Delivery>, i: nat)
    requires 0 < i < |b|
  {
    (b[i - 1].opCount != 0 && b[i].opCount != b[i - 1].opCount) || b[i].peer != b[i - 1].peer
  }

  ghost function SwitchSet(b: seq<Delivery>): set<nat> {
    set i: nat | 0 < i < |b| && SwitchAt(b, i)
  }

  ghost function Switches(b: seq<Delivery>): nat {
    |SwitchSet(b)|
  }

  lemma SwitchesMore(b: seq<Delivery>, d: Delivery)
    ensures Switches(b + [d]) == Switches(b) + if b != [] && SwitchAt(b + [d], |b|) then 1 else 0
  {
    var c := b + [d];
    forall i: nat | 0 < i < |b| ensures SwitchAt(c, i) == SwitchAt(b, i) {
    }
    assert SwitchSet(c) == SwitchSet(b) + if b != [] && SwitchAt(c, |b|) then {|b|} else {};
  }

  lemma SwitchesOne(d: Delivery)
    ensures Switches([]) == 0 && Switches([d]) == 0
  {
    assert SwitchSet([]) == {} && SwitchSet([d]) == {};
  }

  /** A batch has at most batchSize switches. The parameter is not checked: below -1 there is no limit. */
  ghost predicate Room(batchSize: int, b: seq<Delivery>) {
    batchSize < -1 || Switches(b) <= batchSize
  }

  /** What the fetch loop keeps count of: the last delivery's opCount and peer, and the switches so far. */
  datatype Counters = Counters(lastOpCount: nat, lastPeer: int, switches: nat) {
    function Count(opCount: nat, peer: int): Counters {
      if (lastOpCount != 0 && opCount != lastOpCount) || (lastPeer != -1 && peer != lastPeer) then
        this.(switches := switches + 1)
      else this
    }
  }

  ghost function CountersOf(b: seq<Delivery>): Counters {
    if b == [] then Counters(0, -1, 0) else Counters(b[|b| - 1].opCount, b[|b| - 1].peer, Switches(b))
  }

  ghost predicate Fits(batchSize: int, b: seq<Delivery>) {
    b == [] || (b[|b| - 1].peer >= 0 && Room(batchSize, b))
  }

  /** The counters describe the batch that is being delivered. */
  ghost predicate BatchOk(phase: Phase, batch: seq<Delivery>, batchSize: int, counters: Counters) {
    phase.Fetching? ==> counters == CountersOf(batch) && Fits(batchSize, batch)
  }

  /** Counting one operation more tells whether it has room in the batch. */
  lemma Counted(batch: seq<Delivery>, batchSize: int, counters: Counters, d: Delivery)
    requires BatchOk(Fetching, batch, batchSize, counters) && d.peer >= 0
    ensures
      var counters' := counters.Count(d.opCount, d.peer);
      && (counters'.switches != batchSize + 1 <==> Room(batchSize, batch + [d]))
      && CountersOf(batch + [d]) == Counters(d.opCount, d.peer, counters'.switches)
  {
    SwitchesMore(batch, d);
    SwitchesOne(d);
  }

  // ---------------------------------------------------------------- the steps

  /** The abstract state: the lists, the progress thread's place, the batch it is delivering, and the list of returned
      slots that it has linked behind its chain. */
  datatype Snap = Snap(v: View, phase: Phase, batch: seq<Delivery>, oldFree: int)

  function WorkOf(appended: seq<seq<Work>>, r: int, i: int): Work {
    if 0 <= r < |appended| && 0 <= i < |appended[r]| then appended[r][i] else Work(0, 0)
  }

  /** The pending operations of producer r: the last ones it appended. */
  ghost function PendWorks(v: View, r: nat): seq<Work>
    requires r < |v.lists| == |v.appended|
  {
    var n := |v.appended[r]| - |v.lists[r].pend|;
    if n >= 0 then v.appended[r][n..] else []
  }

  /** The operation to be delivered next: the first of its peer that has not been. */
  ghost function HeadDelivery(v: View): Delivery
    requires v.fetched != []
  {
    var r := v.fetched[0] / MAX_OPS_PER_PEER;
    Delivery(WorkOf(v.appended, r, if 0 <= r < |v.delivered| then |v.delivered[r]| else 0).opCount, r)
  }

  /** A full chain is posted up to its cut, if it has one. */
  ghost predicate Submitted(v: View, v': View, r: nat, w: Work) {
    && r < |v.lists| == |v.appended| && v.lists[r].free != [] && 0 <= v.lists[r].free[0] < |v.loc|
    && var u := AfterTake(v, r, w);
    if |u.lists[r].pend| < MAX_OPS_PER_PEER then v' == u
    else exists k: nat {:trigger IsCut(PendWorks(u, r), k)} ::
      IsCut(PendWorks(u, r), k) && k <= |u.lists[r].pend| && v' == if k > 0 then AfterPost(u, r, k) else u
  }

  /** One step of the progress thread. */
  ghost predicate Polled(batchSize: int, s: Snap, t: Snap) {
    match s.phase
    case Idle =>
      t == s.(v := if s.v.fetched == [] then AfterGrab(s.v) else s.v, phase := Fetching, batch := [])
    case Fetching =>
      if s.v.fetched == [] || !Room(batchSize, s.batch + [HeadDelivery(s.v)]) then t == s.(phase := Returning(0))
      else
        var r := s.v.fetched[0] / MAX_OPS_PER_PEER;
        && 0 <= r < |s.v.lists| == |s.v.delivered| == |s.v.appended| && 0 <= s.v.fetched[0] < |s.v.loc|
        && |s.v.delivered[r]| < |s.v.appended[r]|
        && t == s.(v := AfterFetch(s.v, r, s.v.appended[r][|s.v.delivered[r]|]), batch := s.batch + [HeadDelivery(s.v)])
    case Returning(i) =>
      t == if i >= |s.v.lists| then s.(phase := Idle)
           else if s.v.lists[i].chain == [] then s.(phase := Returning(i + 1))
           else s.(phase := Publishing(i), oldFree := FirstOf(s.v.lists[i].ret))
    case Publishing(i) =>
      && i < |s.v.lists|
      && t == if FirstOf(s.v.lists[i].ret) == s.oldFree then s.(v := AfterReturn(s.v, i), phase := Returning(i + 1))
              else s.(oldFree := FirstOf(s.v.lists[i].ret))
  }

  /** One step of anybody. An append without a free slot, and a start without pending operations, change nothing. */
  ghost predicate Took(batchSize: int, s: Snap, e: Event, t: Snap) {
    match e
    case Refill(r) =>
      t == if r < |s.v.lists| && s.v.lists[r].free == [] then s.(v := AfterAcquire(s.v, r)) else s
    case Submit(r, w) =>
      if r < |s.v.lists| && s.v.lists[r].free != [] then t == s.(v := t.v) && Submitted(s.v, t.v, r, w) else t == s
    case Launch(r) =>
      t == if r < |s.v.lists| && s.v.lists[r].pend != [] then s.(v := AfterPost(s.v, r, |s.v.lists[r].pend|)) else s
    case Poll => Polled(batchSize, s, t)
  }

  ghost function Machine(batchSize: int): (Snap, Event, Snap) -> bool {
    (s, e, t) => Took(batchSize, s, e, t)
  }

  // ---------------------------------------------------------------- nothing stays posted

  /** Operations on their way to the progress thread. */
  ghost function Waiting(v: View): nat {
    |v.posted| + |v.fetched|
  }

  /** Steps until the next delivery at most. */
  ghost function Stage(s: Snap): nat {
    var n := |s.v.lists|;
    match s.phase
    case Idle => 1
    case Fetching => if s.batch == [] && s.v.fetched != [] then 0 else 3 * n + 3
    case Returning(i) => if i >= n then 2 else 3 * (n - i) + 2
    case Publishing(i) =>
      if i >= n then 0 else 3 * (n - i) + if FirstOf(s.v.lists[i].ret) == s.oldFree then 0 else 1
  }

  /** Steps of the progress thread after which nothing waits at most. */
  ghost function Rank(s: Snap): nat {
    if Waiting(s.v) == 0 then 0 else Waiting(s.v) * (3 * |s.v.lists| + 5) + Stage(s)
  }

  /** What a step of the progress thread leaves to the producers. */
  ghost predicate ProducersKept(v: View, v': View) {
    && |v'.lists| == |v.lists| && v'.appended == v.appended
    && forall r: nat :: r < |v.lists| ==> v'.lists[r].pend == v.lists[r].pend
  }

  /** Unless the limit is -1, every step of the progress thread brings the next delivery nearer. */
  lemma PollNearer(batchSize: int, s: Snap, t: Snap)
    requires Polled(batchSize, s, t) && batchSize != -1
    ensures ProducersKept(s.v, t.v)
    ensures Waiting(t.v) <= Waiting(s.v) && (Waiting(s.v) > 0 ==> Rank(t) < Rank(s))
  {
    if s.phase.Fetching? && s.v.fetched != [] {
      SwitchesOne(HeadDelivery(s.v));
      assert s.batch == [] ==> s.batch + [HeadDelivery(s.v)] == [HeadDelivery(s.v)];
      Fewer(Waiting(s.v), 3 * |s.v.lists| + 5);
    }
  }

  lemma Fewer(k: int, w: int)
    ensures k * w == (k - 1) * w + w
  {
  }

  /** With the progress thread alone at work from event k on, for as many steps as the rank then is, nothing is left
      posted or fetched, and the producers' own lists are as they were. */
  lemma {:induction false} PollsDrain(batchSize: int, trace: seq<Snap>, schedule: seq<Event>, k: nat, m: nat)
    requires IsRun(Machine(batchSize), trace, schedule) && batchSize != -1 && k <= m <= |schedule|
    requires forall j :: k <= j < m ==> schedule[j] == Poll
    ensures Nearer(trace[k], trace[m], m - k)
    ensures m - k >= Rank(trace[k]) ==> trace[m].v.posted == [] && trace[m].v.fetched == []
  {
    if k < m {
      PollsDrain(batchSize, trace, schedule, k, m - 1);
      assert TookAt(Machine(batchSize), trace, schedule, m - 1);
      NearerStep(batchSize, trace[k], trace[m - 1], trace[m], m - 1 - k);
    }
    if m - k >= Rank(trace[k]) {
      NearerEnd(trace[k], trace[m], m - k);
    }
  }

  /** t is i steps of the progress thread further than s. */
  ghost predicate Nearer(s: Snap, t: Snap, i: nat) {
    ProducersKept(s.v, t.v) && (Waiting(t.v) == 0 || Rank(t) + i <= Rank(s))
  }

  lemma NearerStep(batchSize: int, s: Snap, t: Snap, u: Snap, i: nat)
    requires Nearer(s, t, i) && Polled(batchSize, t, u) && batchSize != -1
    ensures Nearer(s, u, i + 1)
  {
    PollNearer(batchSize, t, u);
  }

  lemma NearerEnd(s: Snap, t: Snap, i: nat)
    requires Nearer(s, t, i) && i >= Rank(s)
    ensures t.v.posted == [] && t.v.fetched == []
  {
  }

  /** With the limit -1 the progress thread never delivers anything. */
  lemma NothingDelivered(s: Snap, t: Snap)
    requires Polled(-1, s, t)
    ensures t.v.delivered == s.v.delivered
  {
  }
}
