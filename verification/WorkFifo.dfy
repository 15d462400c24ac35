/** The circular buffer through which the host hands work structures to kernels. Cursors are 32-bit and wrap; space is
    reclaimed when an event recorded behind the kernels that use it has completed. */
module WorkFifo {
  import opened Arith

  const TWO32 := 0x1_0000_0000

  type U32 = x: nat | x < TWO32

  function Wrap(x: int): U32 {
    x % TWO32
  }

  /** A buffer of n units of 16 bytes; its size is a power of two up to 2^30, so it divides 2^32. */
  ghost predicate Size(bytes: nat, n: nat, turns: nat) {
    0 < bytes <= 0x4000_0000 && bytes == 16 * n && bytes * turns == TWO32
  }

  /** The cursor that stands behind i units. */
  function Cursor(i: nat): U32 {
    Wrap(16 * i)
  }

  /** The unit of the buffer that a cursor addresses. */
  function SlotOf(cursor: U32, bytes: nat): nat
    requires bytes > 0
  {
    (cursor % bytes) / 16
  }

  /** Unit i of all that was ever written sits at i modulo the buffer's units. */
  function Slot(i: nat, n: nat): (s: nat)
    requires n > 0
    ensures s < n
  {
    i % n
  }

  lemma ModMod(x: nat, b: nat, m: nat)
    requires b > 0 && m > 0
    ensures b * m > 0 && (x % (b * m)) % b == x % b
  {
    MulMono(1, m, b);
    var q, r := x / (b * m), x % (b * m);
    assert x == q * (b * m) + r;
    assert q * (b * m) == (q * m) * b;
    ModAdd(r, q * m, b);
    assert r + (q * m) * b == x;
  }

  lemma ModScale(i: nat, n: nat)
    requires n > 0
    ensures (16 * i) % (16 * n) == 16 * (i % n)
  {
    assert i == (i / n) * n + i % n;
    MulDivMod(i / n, 16 * n, 16 * (i % n));
    assert 16 * i == (i / n) * (16 * n) + 16 * (i % n);
  }

  lemma CursorSlot(i: nat, bytes: nat, n: nat, turns: nat)
    requires Size(bytes, n, turns)
    ensures SlotOf(Cursor(i), bytes) == Slot(i, n)
  {
    ModMod(16 * i, bytes, turns);
    ModScale(i, n);
  }

  /** Moving a cursor, and measuring the distance of two, despite the wrap. */
  lemma CursorMoves(i: nat, k: nat)
    ensures Wrap(Cursor(i) + 16 * k) == Cursor(i + k)
  {
  }

  lemma CursorDistance(i: nat, j: nat)
    requires i <= j && 16 * (j - i) < TWO32
    ensures Wrap(Cursor(j) - Cursor(i)) == 16 * (j - i)
  {
  }

  lemma RoomExact(produced: nat, consumed: nat, units: nat, n: nat)
    requires consumed <= produced <= consumed + n && 16 * n <= 0x4000_0000 && 16 * units <= TWO32 / 2
    ensures Wrap(Wrap(Cursor(produced) + 16 * units) - Cursor(consumed)) == 16 * (produced + units - consumed)
  {
    CursorMoves(produced, units);
    CursorDistance(consumed, produced + units);
  }

  /** Units less than a buffer apart do not share a slot. */
  lemma SlotsDiffer(i: nat, j: nat, n: nat)
    requires n > 0 && i < j < i + n
    ensures Slot(i, n) != Slot(j, n)
  {
    if Slot(i, n) == Slot(j, n) {
      assert j - i == (j / n - i / n) * n;
      Gap(0, j / n - i / n, n);
      MulMono(j / n - i / n, 0, n);
    }
  }

  /** What is kept: every unit from consumed up to produced is still in the buffer. */
  ghost predicate Intact(buf: seq<int>, log: seq<int>, consumed: nat) {
    |buf| > 0 && forall i: nat {:trigger log[i]} :: consumed <= i < |log| ==> buf[Slot(i, |buf|)] == log[i]
  }

  lemma WriteKeepsIntact(buf: seq<int>, log: seq<int>, consumed: nat, x: int)
    requires Intact(buf, log, consumed) && consumed <= |log| < consumed + |buf|
    ensures Intact(buf[Slot(|log|, |buf|) := x], log + [x], consumed)
  {
    var buf', log' := buf[Slot(|log|, |buf|) := x], log + [x];
    forall i: nat | consumed <= i < |log'| ensures buf'[Slot(i, |buf'|)] == log'[i] {
      if i < |log| {
        SlotsDiffer(i, |log|, |buf|);
        assert log[i] == log'[i];
      }
    }
  }

  /** A launched plan: where its work starts in the buffer and how many units it is. */
  datatype Plan = Plan(cursor: U32, units: nat)

  /** An event recorded behind the first `after` plans; its completion frees the buffer up to consumed. */
  datatype Callback = Callback(consumed: U32, after: nat)

  /** Plan p's work is in the log where its cursor says. */
  ghost predicate PlanOk(launched: seq<Plan>, works: seq<seq<int>>, starts: seq<nat>, log: seq<int>, p: nat) {
    && p < |launched| == |works| == |starts| && launched[p] == Plan(Cursor(starts[p]), |works[p]|)
    && starts[p] + |works[p]| <= |log| && log[starts[p]..starts[p] + |works[p]|] == works[p]
  }

  ghost predicate PlansOk(launched: seq<Plan>, works: seq<seq<int>>, starts: seq<nat>, log: seq<int>) {
    && |launched| == |works| == |starts|
    && forall p: nat {:trigger PlanOk(launched, works, starts, log, p)} :: p < |launched| ==>
         PlanOk(launched, works, starts, log, p)
  }

  /** The work of all plans from index p on starts at or after unit c. */
  ghost predicate StartsAfter(starts: seq<nat>, p: nat, c: nat) {
    forall q: nat :: p <= q < |starts| ==> c <= starts[q]
  }

  /** The k-th recorded event frees nothing that a plan launched later, or the device's present ones, still need. */
  ghost predicate CallbackOk(callbacks: seq<Callback>, totals: seq<nat>, starts: seq<nat>, consumed: nat, recorded: nat,
                             k: nat)
  {
    && k < |callbacks| == |totals| && callbacks[k].consumed == Cursor(totals[k]) && callbacks[k].after <= |starts|
    && consumed <= totals[k] <= recorded && StartsAfter(starts, callbacks[k].after, totals[k])
    && forall j: nat :: j < k ==> totals[j] <= totals[k]
  }

  ghost predicate CallbacksOk(callbacks: seq<Callback>, totals: seq<nat>, starts: seq<nat>, consumed: nat,
                              recorded: nat)
  {
    && |callbacks| == |totals|
    && forall k: nat {:trigger CallbackOk(callbacks, totals, starts, consumed, recorded, k)} :: k < |callbacks| ==>
         CallbackOk(callbacks, totals, starts, consumed, recorded, k)
  }

  lemma PlansGrow(launched: seq<Plan>, works: seq<seq<int>>, starts: seq<nat>, log: seq<int>, work: seq<int>)
    requires PlansOk(launched, works, starts, log)
    ensures PlansOk(launched + [Plan(Cursor(|log|), |work|)], works + [work], starts + [|log|], log + work)
  {
    forall p: nat | p < |launched| + 1
      ensures PlanOk(launched + [Plan(Cursor(|log|), |work|)], works + [work], starts + [|log|], log + work, p)
    {
      if p < |launched| {
        assert PlanOk(launched, works, starts, log, p);
        assert (log + work)[starts[p]..starts[p] + |works[p]|] == log[starts[p]..starts[p] + |works[p]|];
      }
    }
  }

  lemma CallbacksLater(callbacks: seq<Callback>, totals: seq<nat>, starts: seq<nat>, consumed: nat, recorded: nat,
                       start: nat)
    requires CallbacksOk(callbacks, totals, starts, consumed, recorded) && recorded <= start
    ensures CallbacksOk(callbacks, totals, starts + [start], consumed, recorded)
  {
    forall k: nat | k < |callbacks| ensures CallbackOk(callbacks, totals, starts + [start], consumed, recorded, k) {
      assert CallbackOk(callbacks, totals, starts, consumed, recorded, k);
    }
  }

  lemma CallbacksGrow(callbacks: seq<Callback>, totals: seq<nat>, starts: seq<nat>, consumed: nat, recorded: nat,
                      now: nat)
    requires CallbacksOk(callbacks, totals, starts, consumed, recorded) && consumed <= recorded <= now
    ensures CallbacksOk(callbacks + [Callback(Cursor(now), |starts|)], totals + [now], starts, consumed, now)
  {
    forall k: nat | k < |callbacks| + 1
      ensures CallbackOk(callbacks + [Callback(Cursor(now), |starts|)], totals + [now], starts, consumed, now, k)
    {
      if k < |callbacks| {
        assert CallbackOk(callbacks, totals, starts, consumed, recorded, k);
      } else {
        forall j: nat | j < k ensures totals[j] <= now {
          assert CallbackOk(callbacks, totals, starts, consumed, recorded, j);
        }
      }
    }
  }

  lemma CallbacksPop(callbacks: seq<Callback>, totals: seq<nat>, starts: seq<nat>, consumed: nat, recorded: nat)
    requires CallbacksOk(callbacks, totals, starts, consumed, recorded) && callbacks != []
    ensures totals != [] && callbacks[0].consumed == Cursor(totals[0]) && consumed <= totals[0] <= recorded
    ensures StartsAfter(starts, callbacks[0].after, totals[0])
    ensures CallbacksOk(callbacks[1..], totals[1..], starts, totals[0], recorded)
  {
    assert CallbackOk(callbacks, totals, starts, consumed, recorded, 0);
    forall k: nat | k < |callbacks| - 1
      ensures CallbackOk(callbacks[1..], totals[1..], starts, totals[0], recorded, k)
    {
      assert CallbackOk(callbacks, totals, starts, consumed, recorded, k + 1);
    }
  }

  lemma IntactLater(buf: seq<int>, log: seq<int>, consumed: nat, later: nat)
    requires Intact(buf, log, consumed) && consumed <= later
    ensures Intact(buf, log, later)
  {
  }

  // ---------------------------------------------------------------- the same without wrap

  datatype Event = Upload(work: seq<int>) | Finish | Device | Poll

  /** Units written, covered by the last recorded event and reclaimed; per recorded event, up to where it frees and
      behind how many plans it stands; what was uploaded for each plan, and how many plans have run. */
  datatype State = State(works: seq<seq<int>>, ran: nat, written: nat, recorded: nat, consumed: nat, totals: seq<nat>,
                         afters: seq<nat>)

  const Nothing := State([], 0, 0, 0, 0, [], [])

  /** The buffer of n units has room for the work. */
  predicate Fits(n: nat, s: State, work: seq<int>) {
    s.written + |work| <= s.consumed + n
  }

  function Step(n: nat, s: State, e: Event): State {
    match e
    case Upload(work) =>
      if Fits(n, s, work) then s.(works := s.works + [work], written := s.written + |work|) else s
    case Finish =>
      if 8 * (s.written - s.recorded) > n then
        s.(recorded := s.written, totals := s.totals + [s.written], afters := s.afters + [|s.works|])
      else s
    case Device => if s.ran < |s.works| then s.(ran := s.ran + 1) else s
    case Poll =>
      if s.totals != [] && s.afters != [] && s.afters[0] <= s.ran then
        s.(consumed := s.totals[0], totals := s.totals[1..], afters := s.afters[1..])
      else s
  }

  function Steps(n: nat, s: State, events: seq<Event>): State {
    if events == [] then s else Step(n, Steps(n, s, events[..|events| - 1]), events[|events| - 1])
  }

  lemma StepsMore(n: nat, s: State, events: seq<Event>, e: Event)
    ensures Steps(n, s, events + [e]) == Step(n, Steps(n, s, events), e)
  {
    assert (events + [e])[..|events|] == events;
  }

  /** The last recorded event covers what is recorded; without one all of that is reclaimed. */
  ghost predicate Tidy(s: State) {
    && |s.totals| == |s.afters| && s.ran <= |s.works| && s.consumed <= s.recorded <= s.written
    && s.recorded == (if s.totals == [] then s.consumed else s.totals[|s.totals| - 1])
    && (forall k :: 0 <= k < |s.totals| ==> s.totals[k] <= s.recorded)
    && forall k :: 0 <= k < |s.afters| ==> s.afters[k] <= |s.works|
  }

  lemma StepTidy(n: nat, s: State, e: Event)
    requires Tidy(s)
    ensures Tidy(Step(n, s, e))
  {
  }

  /** What can happen while the host waits for room: kernels run, and the host polls. */
  predicate Waiting(events: seq<Event>) {
    forall i :: 0 <= i < |events| ==> events[i].Device? || events[i].Poll?
  }

  lemma {:induction false} WaitKeeps(n: nat, s: State, events: seq<Event>)
    requires Tidy(s) && Waiting(events)
    ensures
      var t := Steps(n, s, events);
      Tidy(t) && t.works == s.works && t.written == s.written && t.recorded == s.recorded
  {
    if events != [] {
      var front := events[..|events| - 1];
      WaitKeeps(n, s, front);
      StepTidy(n, Steps(n, s, front), events[|events| - 1]);
    }
  }

  /** Once the launched plans have run, polling reclaims everything up to the last recorded event. */
  lemma Drain(n: nat, s: State) returns (events: seq<Event>)
    requires Tidy(s)
    ensures Waiting(events) && Steps(n, s, events).consumed == s.recorded
  {
    events := [];
    var t := s;
    while t.ran < |t.works| || t.totals != []
      invariant Waiting(events) && t == Steps(n, s, events) && Tidy(t) && t.recorded == s.recorded
      decreases |t.works| - t.ran, |t.totals|
    {
      var e := if t.ran < |t.works| then Device else Poll;
      StepsMore(n, s, events, e);
      StepTidy(n, t, e);
      t, events := Step(n, t, e), events + [e];
    }
  }

  /** A host that waits for room gets it at some time if and only if the work fits behind what the recorded events
      cover. */
  lemma WaitEnds(n: nat, s: State, work: seq<int>)
    requires Tidy(s)
    ensures (exists events :: Waiting(events) && Fits(n, Steps(n, s, events), work))
       <==> s.written + |work| <= s.recorded + n
  {
    forall events | Waiting(events) && Fits(n, Steps(n, s, events), work)
      ensures s.written + |work| <= s.recorded + n
    {
      WaitKeeps(n, s, events);
    }
    if s.written + |work| <= s.recorded + n {
      var events := Drain(n, s);
      WaitKeeps(n, s, events);
      assert Fits(n, Steps(n, s, events), work);
    }
  }

  /** The first plan after a launch has ended, within the budget of half a buffer, gets room. */
  lemma RoomAfterFinish(n: nat, s: State, work: seq<int>)
    requires Tidy(s) && 2 * |work| <= n
    ensures exists events :: Waiting(events) && Fits(n, Steps(n, Step(n, s, Finish), events), work)
  {
    StepTidy(n, s, Finish);
    WaitEnds(n, Step(n, s, Finish), work);
  }

  lemma TwoUploads(n: nat, first: seq<int>, second: seq<int>)
    requires |first| + |second| == n
    ensures Steps(n, Nothing, [Upload(first), Upload(second)]) == State([first, second], 0, n, 0, 0, [], [])
  {
    StepsMore(n, Nothing, [], Upload(first));
    assert [] + [Upload(first)] == [Upload(first)];
    StepsMore(n, Nothing, [Upload(first)], Upload(second));
    assert [Upload(first)] + [Upload(second)] == [Upload(first), Upload(second)];
  }

  /** Between two ends of a launch this can fail: after two plans that fill the buffer, such as two of half a buffer, a
      third one waits for ever. */
  lemma ThirdPlanWaits(n: nat, first: seq<int>, second: seq<int>, third: seq<int>, events: seq<Event>)
    requires |first| + |second| == n && third != [] && Waiting(events)
    ensures Steps(n, Nothing, [Upload(first), Upload(second)]).works == [first, second]
    ensures !Fits(n, Steps(n, Steps(n, Nothing, [Upload(first), Upload(second)]), events), third)
  {
    TwoUploads(n, first, second);
    WaitKeeps(n, State([first, second], 0, n, 0, 0, [], []), events);
  }

  function Afters(callbacks: seq<Callback>): (s: seq<nat>)
    ensures |s| == |callbacks| && forall k :: 0 <= k < |s| ==> s[k] == callbacks[k].after
  {
    seq(|callbacks|, k requires 0 <= k < |callbacks| => callbacks[k].after)
  }

  /** The host's buffer and cursors, and the device working through the launched plans in order. */
  class Fifo {
    const bytes: nat
    const buf: array<int>
    var produced: U32
    var lastRecorded: U32
    var consumed: U32
    var callbacks: seq<Callback>
    var launched: seq<Plan>
    var ran: nat
    // the same without wrap, in units
    ghost const turns: nat
    ghost var log: seq<int>
    ghost var recordedUnits: nat
    ghost var consumedUnits: nat
    ghost var starts: seq<nat>
    ghost var totals: seq<nat>
    // what was uploaded for each plan
    ghost var works: seq<seq<int>>

    ghost predicate Counts()
      reads this
    {
      && Size(bytes, buf.Length, turns)
      && produced == Cursor(|log|) && lastRecorded == Cursor(recordedUnits) && consumed == Cursor(consumedUnits)
      && consumedUnits <= recordedUnits <= |log| <= consumedUnits + buf.Length
    }

    ghost predicate Valid()
      reads this, buf
    {
      && Counts()
      && Intact(buf[..], log, consumedUnits)
      && PlansOk(launched, works, starts, log) && ran <= |launched| && StartsAfter(starts, ran, consumedUnits)
      && CallbacksOk(callbacks, totals, starts, consumedUnits, recordedUnits)
    }

    ghost function S(): State
      reads this
    {
      State(works, ran, |log|, recordedUnits, consumedUnits, totals, Afters(callbacks))
    }

    constructor (n: nat, ghost turns: nat)
      requires Size(16 * n, n, turns)
      ensures Valid() && fresh(buf) && launched == [] && S() == Nothing && buf.Length == n
    {
      bytes, buf := 16 * n, new int[n](_ => 0);
      produced, lastRecorded, consumed, callbacks, launched, ran := 0, 0, 0, [], [], 0;
      this.turns, log, recordedUnits, consumedUnits, starts, totals, works := turns, [], 0, 0, [], [], [];
    }

    /** Whether the buffer can take more work; despite the wrap this is exactly whether the units fit behind those not
        yet reclaimed. */
    method HasRoom(units: nat) returns (hasRoom: bool)
      requires Counts() && 16 * units <= TWO32 / 2
      ensures hasRoom <==> |log| + units <= consumedUnits + buf.Length
    {
      var desiredProduced := Wrap(produced + 16 * units);
      RoomExact(|log|, consumedUnits, units, buf.Length);
      hasRoom := Wrap(desiredProduced - consumed) <= bytes;
    }

    /** One 16-byte write at the cursor, which lands outside every unit not yet reclaimed. */
    method WriteUnit(fifoCursor: U32, x: int) returns (fifoCursor': U32)
      requires Size(bytes, buf.Length, turns) && Intact(buf[..], log, consumedUnits)
      requires fifoCursor == Cursor(|log|) && consumedUnits <= |log| < consumedUnits + buf.Length
      modifies this`log, buf
      ensures log == old(log) + [x] && Intact(buf[..], log, consumedUnits) && fifoCursor' == Cursor(|log|)
    {
      CursorSlot(|log|, bytes, buf.Length, turns);
      WriteKeepsIntact(buf[..], log, consumedUnits, x);
      ghost var was := buf[..];
      buf[SlotOf(fifoCursor, bytes)] := x;
      assert buf[..] == was[Slot(|log|, buf.Length) := x];
      CursorMoves(|log|, 1);
      fifoCursor' := Wrap(fifoCursor + 16);
      log := log + [x];
    }

    /** Writes the units behind everything written before. */
    method Write(work: seq<int>)
      requires Counts() && Intact(buf[..], log, consumedUnits) && |log| + |work| <= consumedUnits + buf.Length
      modifies this`produced, this`log, buf
      ensures Counts() && Intact(buf[..], log, consumedUnits) && log == old(log) + work
    {
      var fifoCursor := produced;
      for j := 0 to |work|
        invariant log == old(log) + work[..j] && fifoCursor == Cursor(|log|) && Intact(buf[..], log, consumedUnits)
      {
        fifoCursor := WriteUnit(fifoCursor, work[j]);
      }
      produced := fifoCursor;
    }

    /** Uploads a plan's work and launches it, if the buffer has room; otherwise nothing happens and the host polls for
        completed events before it tries again. */
    method Upload(work: seq<int>) returns (ok: bool)
      requires Valid() && 16 * |work| <= TWO32 / 2
      modifies this, buf
      ensures Valid() && ran == old(ran)
      ensures ok <==> |old(log)| + |work| <= old(consumedUnits) + buf.Length
      ensures S() == if ok then old(S()).(works := old(works) + [work], written := |old(log)| + |work|) else old(S())
    {
      ok := HasRoom(|work|);
      if ok {
        var cursor := produced;
        ghost var log0 := log;
        Write(work);
        PlansGrow(launched, works, starts, log0, work);
        CallbacksLater(callbacks, totals, starts, consumedUnits, recordedUnits, |log0|);
        launched := launched + [Plan(cursor, |work|)];
        works, starts := works + [work], starts + [|log0|];
      }
    }

    /** Finishing a launch: an event is recorded when enough was written since the last one. */
    method LaunchFinish()
      requires Valid()
      modifies this
      ensures Valid() && log == old(log)
      ensures S() == if 16 * (|log| - old(recordedUnits)) > bytes / 8
                     then old(S()).(recorded := |log|, totals := old(totals) + [|log|],
                                    afters := old(S()).afters + [|works|])
                     else old(S())
      ensures callbacks
           == if 16 * (|log| - old(recordedUnits)) > bytes / 8 then old(callbacks) + [Callback(produced, |launched|)]
              else old(callbacks)
    {
      CursorDistance(recordedUnits, |log|);
      if Wrap(produced - lastRecorded) > bytes / 8 {
        lastRecorded := produced;
        CallbacksGrow(callbacks, totals, starts, consumedUnits, recordedUnits, |log|);
        callbacks, totals := callbacks + [Callback(produced, |launched|)], totals + [|log|];
        recordedUnits := |log|;
      }
    }

    /** Reads units from a cursor on, as a kernel does. */
    method ReadUnits(cursor: U32, units: nat, ghost start: nat) returns (data: seq<int>)
      requires Size(bytes, buf.Length, turns) && Intact(buf[..], log, consumedUnits)
      requires cursor == Cursor(start) && consumedUnits <= start && start + units <= |log|
      ensures data == log[start..start + units]
    {
      data := [];
      for j := 0 to units
        invariant data == log[start..start + j]
      {
        CursorMoves(start, j);
        CursorSlot(start + j, bytes, buf.Length, turns);
        data := data + [buf[SlotOf(Wrap(cursor + 16 * j), bytes)]];
      }
    }

    /** The device runs its next plan. It reads, despite wraps and reuse of the buffer, exactly the work that was
        uploaded for that plan. */
    method RunNext() returns (data: seq<int>)
      requires Valid() && ran < |launched|
      modifies this`ran
      ensures Valid() && S() == old(S()).(ran := old(ran) + 1) && ran <= |works| && data == works[ran - 1]
    {
      assert PlanOk(launched, works, starts, log, ran);
      assert consumedUnits <= starts[ran];
      data := ReadUnits(launched[ran].cursor, launched[ran].units, starts[ran]);
      ran := ran + 1;
    }

    /** Looks at the oldest recorded event; once the plans launched before it have run, their space is reclaimed. */
    method Poll() returns (fired: bool)
      requires Valid()
      modifies this
      ensures Valid() && log == old(log)
      ensures fired <==> old(callbacks) != [] && old(callbacks)[0].after <= ran
      ensures callbacks == if fired then old(callbacks)[1..] else old(callbacks)
      ensures fired ==> old(totals) != []
      ensures S() == if fired then old(S()).(consumed := old(totals)[0], totals := old(totals)[1..],
                                             afters := old(S()).afters[1..])
                     else old(S())
    {
      fired := callbacks != [] && callbacks[0].after <= ran;
      if fired {
        CallbacksPop(callbacks, totals, starts, consumedUnits, recordedUnits);
        IntactLater(buf[..], log, consumedUnits, totals[0]);
        consumed, consumedUnits := callbacks[0].consumed, totals[0];
        callbacks, totals := callbacks[1..], totals[1..];
      }
    }
  }

  /** Whatever the order of uploads, launch ends, event polls and kernel runs, each of them takes place and every kernel
      reads its own plan's work. */
  method Run(n: nat, ghost turns: nat, events: seq<Event>)
    returns (fifo: Fifo, read: seq<seq<int>>)
    requires Size(16 * n, n, turns)
    requires forall i :: 0 <= i < |events| && events[i].Upload? ==> 16 * |events[i].work| <= TWO32 / 2
    ensures fifo.Valid() && fifo.S() == Steps(n, Nothing, events)
    ensures fifo.ran <= |fifo.works| && read == fifo.works[..fifo.ran]
  {
    fifo := new Fifo(n, turns);
    read := [];
    for i := 0 to |events|
      invariant fifo.Valid() && fresh(fifo) && fresh(fifo.buf) && fifo.buf.Length == n
      invariant fifo.S() == Steps(n, Nothing, events[..i]) && fifo.ran <= |fifo.works| && read == fifo.works[..fifo.ran]
    {
      StepsMore(n, Nothing, events[..i], events[i]);
      assert events[..i] + [events[i]] == events[..i + 1];
      read := Act(fifo, events[i], read);
    }
    assert events[..|events|] == events;
  }

  method Act(fifo: Fifo, e: Event, read: seq<seq<int>>) returns (read': seq<seq<int>>)
    requires fifo.Valid() && fifo.ran <= |fifo.works| && read == fifo.works[..fifo.ran]
    requires e.Upload? ==> 16 * |e.work| <= TWO32 / 2
    modifies fifo, fifo.buf
    ensures fifo.Valid() && fifo.S() == Step(fifo.buf.Length, old(fifo.S()), e)
    ensures fifo.ran <= |fifo.works| && read' == fifo.works[..fifo.ran]
  {
    read' := read;
    match e
    case Upload(work) =>
      var _ := fifo.Upload(work);
    case Finish =>
      fifo.LaunchFinish();
    case Device =>
      if fifo.ran < |fifo.launched| {
        var data := fifo.RunNext();
        read' := read + [data];
      }
    case Poll =>
      var _ := fifo.Poll();
  }
}
