/** Splitting the elements of collective tasks over a communicator's channels, carrying the channel and the traffic
    already given to it from one task to the next. */
module ChannelPartition {
  import opened Arith

  const MIN_TRAFFIC_PER_CHANNEL := 32768

  /** Twice whether collnet is used, plus whether nvls is. */
  type Kind = k: nat | k < 4

  /** A collective: its kind, its elements, their size in bytes, the traffic one byte causes, how many channels it may
      use, and the bytes of its work struct. */
  datatype Task = Task(kind: Kind, count: nat, elementSize: nat, trafficPerByte: nat, trafficBytes: nat,
                       nMaxChannels: nat, workSize: nat)

  predicate ValidTask(t: Task) {
    && t.count > 0 && t.elementSize in {1, 2, 4, 8} && t.trafficPerByte > 0 && t.nMaxChannels > 0
  }

  /** The channels of a task and the number of elements of its first, its middle and its last channel. */
  datatype Work = Work(channelLo: int, channelHi: int, countLo: int, countMid: int, countHi: int)

  /** Elements given to a channel of the collective, as the device computes it. */
  function PartCount(w: Work, c: int): int {
    if c == w.channelLo then w.countLo else if c == w.channelHi then w.countHi else w.countMid
  }

  /** Where they start. */
  function PartOffset(w: Work, c: int): int {
    if c == w.channelLo then 0
    else if c == w.channelHi then w.countLo + (w.channelHi - w.channelLo - 1) * w.countMid
    else w.countLo + (c - w.channelLo - 1) * w.countMid
  }

  /** The interval of bytes the host gives to the proxy of a channel. */
  function ProxyInterval(w: Work, nMidChannels: int, elementSize: nat, c: int): (int, int) {
    if c == w.channelLo then (0, w.countLo * elementSize)
    else if c == w.channelHi then ((w.countLo + nMidChannels * w.countMid) * elementSize, w.countHi * elementSize)
    else ((w.countLo + (c - w.channelLo - 1) * w.countMid) * elementSize, w.countMid * elementSize)
  }

  /** A correct split of count elements over some of the channels from channelId below nMax: every used channel gets a
      part, and the parts add up. */
  ghost predicate Splits(w: Work, count: int, channelId: int, nMax: int) {
    && 0 <= channelId == w.channelLo <= w.channelHi < nMax
    && w.countLo > 0 && (w.channelHi > w.channelLo <==> w.countHi > 0) && w.countHi >= 0
    && (w.channelHi > w.channelLo + 1 <==> w.countMid > 0) && w.countMid >= 0
    && w.countLo + (w.channelHi - w.channelLo - 1) * w.countMid + w.countHi == count
  }

  /** The parts of a correct split are non-empty and follow each other from the first element to the last. */
  lemma PartsTile(w: Work, count: int, channelId: int, nMax: int, c: int)
    requires Splits(w, count, channelId, nMax) && w.channelLo <= c <= w.channelHi
    ensures PartCount(w, c) > 0
    ensures PartOffset(w, w.channelLo) == 0
    ensures c < w.channelHi ==> PartOffset(w, c + 1) == PartOffset(w, c) + PartCount(w, c)
    ensures c == w.channelHi ==> PartOffset(w, c) + PartCount(w, c) == count
  {
    if c + 1 == w.channelHi && c > w.channelLo {
      assert (w.channelHi - w.channelLo - 1) * w.countMid == (c - w.channelLo - 1) * w.countMid + w.countMid;
    } else if w.channelLo < c < w.channelHi {
      assert (c + 1 - w.channelLo - 1) * w.countMid == (c - w.channelLo - 1) * w.countMid + w.countMid;
    }
  }

  ghost predicate InPart(w: Work, c: int, e: int) {
    w.channelLo <= c <= w.channelHi && PartOffset(w, c) <= e < PartOffset(w, c) + PartCount(w, c)
  }

  /** The channel that handles element e, found among those up to c. */
  lemma {:induction false} Locate(w: Work, count: int, channelId: int, nMax: int, e: int, c: int) returns (d: int)
    requires Splits(w, count, channelId, nMax) && w.channelLo <= c <= w.channelHi
    requires 0 <= e < PartOffset(w, c) + PartCount(w, c)
    ensures d <= c && InPart(w, d, e)
    decreases c - w.channelLo
  {
    if PartOffset(w, c) <= e {
      d := c;
    } else {
      PartsTile(w, count, channelId, nMax, c);
      PartsTile(w, count, channelId, nMax, c - 1);
      d := Locate(w, count, channelId, nMax, e, c - 1);
    }
  }

  lemma {:induction false} LaterPart(w: Work, count: int, channelId: int, nMax: int, c: int, d: int)
    requires Splits(w, count, channelId, nMax) && w.channelLo <= c < d <= w.channelHi
    ensures PartOffset(w, c) + PartCount(w, c) <= PartOffset(w, d)
    decreases d - c
  {
    PartsTile(w, count, channelId, nMax, c);
    if c + 1 < d {
      PartsTile(w, count, channelId, nMax, c + 1);
      LaterPart(w, count, channelId, nMax, c + 1, d);
    }
  }

  /** Every element is handled by exactly one channel, and the proxies get the same parts in bytes as the device does in
      elements. */
  lemma EachElementOnce(w: Work, count: int, channelId: int, nMax: int, e: int)
    requires Splits(w, count, channelId, nMax) && 0 <= e < count
    ensures exists c :: InPart(w, c, e) && forall d :: InPart(w, d, e) ==> d == c
  {
    PartsTile(w, count, channelId, nMax, w.channelHi);
    var c := Locate(w, count, channelId, nMax, e, w.channelHi);
    forall d | InPart(w, d, e) ensures d == c {
      if d < c {
        LaterPart(w, count, channelId, nMax, d, c);
      } else if c < d {
        LaterPart(w, count, channelId, nMax, c, d);
      }
    }
  }

  lemma ProxyMatchesDevice(w: Work, count: int, channelId: int, nMax: int, nMidChannels: int, elementSize: nat, c: int)
    requires Splits(w, count, channelId, nMax) && w.channelLo <= c <= w.channelHi
    requires w.channelHi > w.channelLo ==> nMidChannels == w.channelHi - w.channelLo - 1
    ensures ProxyInterval(w, nMidChannels, elementSize, c)
            == (PartOffset(w, c) * elementSize, PartCount(w, c) * elementSize)
  {
  }

  // ---------------------------------------------------------------- cells

  /** Bytes of one cell, the unit in which elements are given to channels. */
  function CellSize(trafficPerByte: nat): (s: nat)
    requires trafficPerByte > 0
  {
    AlignUp(DivUp(MIN_TRAFFIC_PER_CHANNEL, trafficPerByte), 16)
  }

  function ElementsPerCell(t: Task): nat
    requires ValidTask(t)
  {
    CellSize(t.trafficPerByte) / t.elementSize
  }

  function CellCount(t: Task): int
    requires ValidTask(t) && CellSize(t.trafficPerByte) > 0
  {
    DivUp(t.count * t.elementSize, CellSize(t.trafficPerByte))
  }

  lemma DivFacts(x: int, d: int)
    requires d > 0
    ensures x == (x / d) * d + x % d && 0 <= x % d < d
    ensures x >= 0 ==> x / d >= 0
  {
  }

  lemma DivExact(s: int, d: int, q: int)
    requires d > 0 && s == q * d
    ensures s / d == q
  {
    MulDivMod(q, d, 0);
  }

  /** Sixteen bytes are a whole number of elements. */
  lemma WholeElements(s: int, elementSize: nat)
    requires s >= 16 && s % 16 == 0 && elementSize in {1, 2, 4, 8}
    ensures s / elementSize >= 2 && (s / elementSize) * elementSize == s
  {
    var q := s / 16;
    DivFacts(s, 16);
    match elementSize {
      case 1 => DivExact(s, 1, 16 * q);
      case 2 => DivExact(s, 2, 8 * q);
      case 4 => DivExact(s, 4, 4 * q);
      case 8 => DivExact(s, 8, 2 * q);
    }
  }

  lemma CellFacts(t: Task)
    requires ValidTask(t)
    ensures CellSize(t.trafficPerByte) >= 16 && ElementsPerCell(t) >= 2
    ensures ElementsPerCell(t) * t.elementSize == CellSize(t.trafficPerByte)
  {
    DivUpPositive(MIN_TRAFFIC_PER_CHANNEL, t.trafficPerByte);
    AlignUpProps(DivUp(MIN_TRAFFIC_PER_CHANNEL, t.trafficPerByte), 16);
    WholeElements(CellSize(t.trafficPerByte), t.elementSize);
  }

  /** A cell is the least multiple of sixteen bytes that causes the minimal traffic of a channel. */
  lemma CellSizeMeaning(trafficPerByte: nat, s: nat)
    requires trafficPerByte > 0
    ensures CellSize(trafficPerByte) % 16 == 0 && CellSize(trafficPerByte) * trafficPerByte >= MIN_TRAFFIC_PER_CHANNEL
    ensures s % 16 == 0 && s * trafficPerByte >= MIN_TRAFFIC_PER_CHANNEL ==> CellSize(trafficPerByte) <= s
  {
    var d := DivUp(MIN_TRAFFIC_PER_CHANNEL, trafficPerByte);
    DivUpBounds(MIN_TRAFFIC_PER_CHANNEL, trafficPerByte);
    AlignUpProps(d, 16);
    MulMono(d, AlignUp(d, 16), trafficPerByte);
    if s % 16 == 0 && s * trafficPerByte >= MIN_TRAFFIC_PER_CHANNEL {
      if s < d {
        Gap(s, d, trafficPerByte);
      }
      AlignUpLeast(d, 16, s);
    }
  }

  /** The cells hold the elements, and only the last cell can be partly empty. */
  lemma CellsCover(t: Task)
    requires ValidTask(t) && CellSize(t.trafficPerByte) > 0
    ensures CellCount(t) > 0
    ensures 0 <= CellCount(t) * ElementsPerCell(t) - t.count < ElementsPerCell(t)
  {
    CellFacts(t);
    DivUpBounds(t.count * t.elementSize, CellSize(t.trafficPerByte));
    CoverFacts(t.count, t.elementSize, ElementsPerCell(t), CellCount(t));
  }

  /** k cells of e elements of the given size cover count elements tightly. */
  lemma CoverFacts(count: int, size: int, e: int, k: int)
    requires count > 0 && size > 0 && e > 0 && count * size <= k * (e * size) < count * size + e * size
    ensures k > 0 && count <= k * e < count + e
  {
    MulAssoc(k, e, size);
    MulCancel(count, k * e, size);
    Distribute(count, e, size);
    MulCancelStrict(k * e, count + e, size);
    MulMono(k, 0, e);
  }

  lemma MulAssoc(a: int, b: int, c: int)
    ensures a * (b * c) == (a * b) * c
  {
  }

  lemma MulCancel(a: int, b: int, c: int)
    requires c > 0 && a * c <= b * c
    ensures a <= b
  {
    if b < a {
      Gap(b, a, c);
    }
  }

  lemma MulCancelStrict(a: int, b: int, c: int)
    requires c > 0 && a * c < b * c
    ensures a < b
  {
    if b <= a {
      MulMono(b, a, c);
    }
  }

  /** A split of cells over the channels from channelId on: lo on the first, perChannel on each of nMid, hi on the
      last. */
  ghost predicate CellsSplit(cells: int, lo: int, nMid: int, perChannel: int, hi: int, channelId: int, nMax: int) {
    && lo >= 1 && nMid >= 0 && perChannel >= 1 && hi >= 0 && (hi == 0 ==> nMid == 0)
    && lo + nMid * perChannel + hi == cells
    && channelId + nMid + (if hi > 0 then 1 else 0) < nMax
  }

  /** No channel gets a whole cell more than the intended traffic, counting what the first one already had. */
  ghost predicate Balanced(lo: int, perChannel: int, hi: int, current: int, perChannelTraffic: int, cellTraffic: int) {
    && current + lo * cellTraffic < perChannelTraffic + cellTraffic
    && perChannel * cellTraffic < perChannelTraffic + cellTraffic
    && hi * cellTraffic < perChannelTraffic + cellTraffic
  }

  /** A way to give cells to channels: lo to the first, perChannel to each of nMid, hi to the last. */
  datatype Cut = Cut(lo: int, nMid: int, perChannel: int, hi: int)

  /** Off the last channel, the first one is filled, with less than a cell too much, as far as there are cells. */
  ghost predicate FirstOk(cells: int, lo: int, perChannelTraffic: int, cellTraffic: int, last: bool, current: int) {
    if last then lo == cells
    else
      && current + lo * cellTraffic < perChannelTraffic + cellTraffic
      && (lo == cells || current + lo * cellTraffic >= perChannelTraffic)
  }

  /** How the rest goes to the parts channels that are left: each but the last is filled, with less than a cell too
      much, and the last gets no more than those; unless the rest is too much for that, when all channels get the same,
      and the last one the remainder. */
  ghost predicate RestOk(rest: int, cut: Cut, perChannelTraffic: int, cellTraffic: int, parts: int)
    requires cellTraffic > 0
  {
    rest > 0 ==>
      && cut.hi > 0
      && (cut.nMid > 0 ==> cut.perChannel * cellTraffic >= perChannelTraffic)
      && if parts * DivUp(perChannelTraffic, cellTraffic) < rest then
           cut.nMid + 1 == parts && cut.perChannel <= cut.hi < cut.perChannel + parts
         else
           && cut.hi * cellTraffic < perChannelTraffic + cellTraffic
           && (cut.nMid > 0 ==>
                 cut.hi <= cut.perChannel && cut.perChannel * cellTraffic < perChannelTraffic + cellTraffic)
  }

  ghost predicate CutOk(cells: int, cut: Cut, perChannelTraffic: int, cellTraffic: int, channelId: int, nMax: int,
                        current: int)
    requires cellTraffic > 0
  {
    && CellsSplit(cells, cut.lo, cut.nMid, cut.perChannel, cut.hi, channelId, nMax)
    && FirstOk(cells, cut.lo, perChannelTraffic, cellTraffic, channelId + 1 == nMax, current)
    && RestOk(cells - cut.lo, cut, perChannelTraffic, cellTraffic, nMax - channelId - 1)
  }

  lemma DivUpLess(x: int, d: int, n: int)
    requires d > 0 && n <= DivUp(x, d)
    ensures n * d < x + d
  {
    DivUpBounds(x, d);
    MulMono(n, DivUp(x, d), d);
  }

  lemma DivUpPositive(x: int, d: int)
    requires d > 0 && x > 0
    ensures DivUp(x, d) > 0
  {
    DivUpBounds(x, d);
    MulMono(DivUp(x, d), 0, d);
  }

  /** Dividing rest among full channels of perChannel cells and one last channel. */
  lemma RestFacts(rest: int, perChannel: int)
    requires rest >= 0 && perChannel >= 1
    ensures rest / perChannel >= 0 && 0 <= rest % perChannel < perChannel
    ensures (rest / perChannel) * perChannel + rest % perChannel == rest
  {
    DivFacts(rest, perChannel);
  }

  lemma OneMore(n: int, perChannel: int)
    ensures n * perChannel == (n - 1) * perChannel + perChannel
  {
  }

  /** Too few channels are left: the rest is divided evenly among them. */
  method Squeeze(rest: int, perChannel: int, parts: int) returns (perChannel': int, hi: int)
    requires rest >= 0 && perChannel >= 1 && 1 <= parts <= rest / perChannel
    ensures perChannel' >= perChannel && (parts - 1) * perChannel' + hi == rest
    ensures perChannel' <= hi < perChannel' + parts
  {
    DivFacts(rest, parts);
    RestFacts(rest, perChannel);
    MulMono(parts, rest / perChannel, perChannel);
    if rest / parts < perChannel {
      Gap(rest / parts, perChannel, parts);
    }
    perChannel' := rest / parts;
    hi := perChannel' + rest % parts;
    OneMore(parts, perChannel');
  }

  /** Splits the cells of a task over channels, starting with the one that still has traffic to spare. Either the
      traffic is balanced or the split reaches the last channel. The first channel always gets something, so it is never
      skipped. */
  method SplitCells(cells: int, perChannelTraffic: int, cellTraffic: int, nMax: int, channelId: int,
                    currentTraffic: int)
    returns (channelLo: int, lo: int, nMid: int, perChannel: int, hi: int)
    requires cells >= 1 && perChannelTraffic >= 1 && cellTraffic >= 1 && 0 <= channelId < nMax && currentTraffic >= 0
    requires currentTraffic < perChannelTraffic || channelId + 1 == nMax
    ensures channelLo == channelId && CellsSplit(cells, lo, nMid, perChannel, hi, channelId, nMax)
    ensures Balanced(lo, perChannel, hi, currentTraffic, perChannelTraffic, cellTraffic)
            || channelId + nMid + (if hi > 0 then 1 else 0) == nMax - 1
    ensures CutOk(cells, Cut(lo, nMid, perChannel, hi), perChannelTraffic, cellTraffic, channelId, nMax, currentTraffic)
    ensures hi > 0 ==> currentTraffic + lo * cellTraffic >= perChannelTraffic
    ensures nMid > 0 ==> perChannel * cellTraffic >= perChannelTraffic
  {
    channelLo := channelId;
    DivUpPositive(perChannelTraffic, cellTraffic);
    perChannel := Min(cells, DivUp(perChannelTraffic, cellTraffic));
    lo := FirstCells(cells, perChannelTraffic, cellTraffic, nMax, channelId, currentTraffic);
    nMid, perChannel, hi :=
      RestCells(cells - lo, perChannel, nMax - channelId - 1, DivUp(perChannelTraffic, cellTraffic));
    CutMeaning(cells, Cut(lo, nMid, perChannel, hi), perChannelTraffic, cellTraffic, channelId, nMax, currentTraffic);
    if lo == 0 {
      channelLo := channelLo + 1;
      if nMid == 0 {
        lo, hi := hi, 0;
      } else {
        lo, nMid := perChannel, nMid - 1;
      }
    }
  }

  /** The cells that do not go to the first channel: full channels and one last channel, on at most parts channels. */
  method RestCells(rest: int, fill: int, parts: int, ghost full: int) returns (nMid: int, perChannel: int, hi: int)
    requires rest >= 0 && 1 <= fill <= full && (fill == full || rest < fill) && parts >= 0 && (rest > 0 ==> parts > 0)
    ensures Divided(rest, nMid, perChannel, hi, parts, full)
  {
    nMid, perChannel, hi := rest / fill, fill, rest % fill;
    Quotient(rest, fill);
    if parts < nMid + (if hi != 0 then 1 else 0) {
      TooMany(rest, fill, parts);
      nMid := parts - 1;
      perChannel, hi := Squeeze(rest, fill, parts);
      Squeezed(rest, nMid, perChannel, hi, parts, full);
    } else {
      Enough(rest, fill, full, parts);
    }
    if hi == 0 && nMid != 0 {
      OneMore(nMid, perChannel);
      hi := perChannel;
      nMid := nMid - 1;
    }
  }

  /** A division of the rest in which full cells fill a channel. */
  ghost predicate Divided(rest: int, nMid: int, perChannel: int, hi: int, parts: int, full: int) {
    && nMid >= 0 && perChannel >= 1 && hi >= 0 && nMid * perChannel + hi == rest && (hi == 0 <==> rest == 0)
    && (rest == 0 ==> nMid == 0) && nMid + (if hi > 0 then 1 else 0) <= parts
    && if parts * full < rest then nMid + 1 == parts && full <= perChannel <= hi < perChannel + parts
       else hi <= full && perChannel <= full && (nMid > 0 ==> perChannel == full)
  }

  lemma Quotient(rest: int, fill: int)
    requires rest >= 0 && fill >= 1
    ensures rest / fill >= 0 && 0 <= rest % fill < fill && rest == rest / fill * fill + rest % fill
    ensures rest / fill > 0 ==> rest >= fill
  {
    RestFacts(rest, fill);
    MulMono(1, rest / fill, fill);
  }

  lemma Squeezed(rest: int, nMid: int, perChannel: int, hi: int, parts: int, full: int)
    requires nMid == parts - 1 >= 0 && nMid * perChannel + hi == rest
    requires 1 <= full <= perChannel <= hi < perChannel + parts
    requires parts * full < rest
    ensures Divided(rest, nMid, perChannel, hi, parts, full)
  {
  }

  lemma TooMany(rest: int, fill: int, parts: int)
    requires rest >= 0 && fill >= 1 && 0 <= parts < rest / fill + (if rest % fill != 0 then 1 else 0)
    ensures parts * fill < rest && parts <= rest / fill
  {
    Quotient(rest, fill);
    if parts < rest / fill {
      Gap(parts, rest / fill, fill);
    }
  }

  lemma Enough(rest: int, fill: int, full: int, parts: int)
    requires rest >= 0 && 1 <= fill <= full && parts >= rest / fill + (if rest % fill != 0 then 1 else 0)
    ensures parts * full >= rest
  {
    Quotient(rest, fill);
    Distribute(rest / fill, 1, fill);
    MulMono(rest / fill + (if rest % fill != 0 then 1 else 0), parts, fill);
    Commute(parts, fill, full);
  }

  lemma Commute(parts: int, fill: int, full: int)
    requires fill <= full
    ensures parts >= 0 ==> parts * fill <= parts * full
  {
    if parts >= 0 {
      MulMono(fill, full, parts);
    }
  }

  lemma CutMeaning(cells: int, cut: Cut, perChannelTraffic: int, cellTraffic: int, channelId: int, nMax: int,
                   current: int)
    requires cellTraffic > 0 && perChannelTraffic >= 1 && 0 <= channelId < nMax && 1 <= cut.lo <= cells
    requires FirstOk(cells, cut.lo, perChannelTraffic, cellTraffic, channelId + 1 == nMax, current)
    requires Divided(cells - cut.lo, cut.nMid, cut.perChannel, cut.hi, nMax - channelId - 1,
                     DivUp(perChannelTraffic, cellTraffic))
    ensures CutOk(cells, cut, perChannelTraffic, cellTraffic, channelId, nMax, current)
    ensures Balanced(cut.lo, cut.perChannel, cut.hi, current, perChannelTraffic, cellTraffic)
            || channelId + cut.nMid + (if cut.hi > 0 then 1 else 0) == nMax - 1
    ensures cut.hi > 0 ==> current + cut.lo * cellTraffic >= perChannelTraffic
    ensures cut.nMid > 0 ==> cut.perChannel * cellTraffic >= perChannelTraffic
  {
    RestMeaning(cells - cut.lo, cut, perChannelTraffic, cellTraffic, nMax - channelId - 1);
  }

  lemma RestMeaning(rest: int, cut: Cut, perChannelTraffic: int, cellTraffic: int, parts: int)
    requires cellTraffic > 0 && perChannelTraffic >= 1
    requires Divided(rest, cut.nMid, cut.perChannel, cut.hi, parts, DivUp(perChannelTraffic, cellTraffic))
    ensures RestOk(rest, cut, perChannelTraffic, cellTraffic, parts)
    ensures cut.nMid > 0 ==> cut.perChannel * cellTraffic >= perChannelTraffic
    ensures parts * DivUp(perChannelTraffic, cellTraffic) >= rest ==>
              && cut.hi * cellTraffic < perChannelTraffic + cellTraffic
              && cut.perChannel * cellTraffic < perChannelTraffic + cellTraffic
  {
    var full := DivUp(perChannelTraffic, cellTraffic);
    DivUpBounds(perChannelTraffic, cellTraffic);
    MulMono(cut.perChannel, full, cellTraffic);
    MulMono(full, cut.perChannel, cellTraffic);
    MulMono(cut.hi, full, cellTraffic);
  }

  /** The cells that fit into what the current channel can still take; on the last channel all of them. */
  method FirstCells(cells: int, perChannelTraffic: int, cellTraffic: int, nMax: int, channelId: int,
                    currentTraffic: int) returns (lo: int)
    requires cells >= 1 && perChannelTraffic >= 1 && cellTraffic >= 1 && 0 <= channelId < nMax && currentTraffic >= 0
    requires currentTraffic < perChannelTraffic || channelId + 1 == nMax
    ensures 1 <= lo <= cells
    ensures channelId + 1 == nMax ==> lo == cells
    ensures FirstOk(cells, lo, perChannelTraffic, cellTraffic, channelId + 1 == nMax, currentTraffic)
  {
    if channelId + 1 == nMax {
      lo := cells;
    } else {
      var vacant: nat := perChannelTraffic - currentTraffic;
      DivUpPositive(vacant, cellTraffic);
      lo := Min(cells, DivUp(vacant, cellTraffic));
      DivUpLess(vacant, cellTraffic, lo);
      DivUpBounds(vacant, cellTraffic);
    }
  }

  // ---------------------------------------------------------------- from cells to elements, over all tasks

  lemma CountsAddUp(cells: int, lo: int, nMid: int, perChannel: int, hi: int, e: int)
    requires lo + nMid * perChannel + hi == cells
    ensures lo * e + nMid * (perChannel * e) + hi * e == cells * e
  {
    assert nMid * (perChannel * e) == (nMid * perChannel) * e;
    assert (lo + nMid * perChannel + hi) * e == lo * e + (nMid * perChannel) * e + hi * e;
  }

  lemma DivUpCell(n: int, e: int, missing: int)
    requires 0 <= missing < e
    ensures DivUp(n * e - missing, e) == n
  {
    MulDivMod(n, e, e - 1 - missing);
  }

  /** w gives each channel the elements of its cells; only the last part can lack some in its last cell. */
  ghost predicate CountsOk(t: Task, w: Work, cut: Cut, channelId: int)
    requires ValidTask(t) && ElementsPerCell(t) > 0
  {
    var e := ElementsPerCell(t);
    && w.channelLo == channelId && w.channelHi == channelId + cut.nMid + (if cut.hi > 0 then 1 else 0)
    && (cut.nMid > 0 ==> w.countMid == cut.perChannel * e)
    && if cut.hi > 0 then w.countLo == cut.lo * e && DivUp(w.countHi, e) == cut.hi else DivUp(w.countLo, e) == cut.lo
  }

  /** The counts of a split: whole cells, less what the last cell of the last part lacks. */
  method Counts(t: Task, cells: int, lo: int, nMid: int, perChannel: int, hi: int, ghost nMax: int, channelId: int)
    returns (w: Work)
    requires ValidTask(t) && CellSize(t.trafficPerByte) > 0 && cells == CellCount(t) && channelId >= 0
    requires CellsSplit(cells, lo, nMid, perChannel, hi, channelId, nMax)
    ensures Splits(w, t.count, channelId, nMax) && w.channelHi == channelId + nMid + if hi > 0 then 1 else 0
    ensures ElementsPerCell(t) > 0 && DivUp(PartCount(w, w.channelHi), ElementsPerCell(t)) == if hi > 0 then hi else lo
    ensures CountsOk(t, w, Cut(lo, nMid, perChannel, hi), channelId)
  {
    var e := ElementsPerCell(t);
    CellFacts(t);
    CellsCover(t);
    CountsAddUp(cells, lo, nMid, perChannel, hi, e);
    MulMono(1, lo, e);
    MulMono(1, perChannel, e);
    MulMono(1, hi, e);
    var countMid := if nMid != 0 then perChannel * e else 0;
    var countLo, countHi := lo * e, hi * e;
    if countHi != 0 {
      countHi := countHi - (cells * e - t.count);
    } else {
      countLo := countLo - (cells * e - t.count);
    }
    DivUpCell(lo, e, cells * e - t.count);
    DivUpCell(hi, e, cells * e - t.count);
    var nChannels := (if countLo != 0 then 1 else 0) + nMid + (if hi != 0 then 1 else 0);
    w := Work(channelId, channelId + nChannels - 1, countLo, countMid, countHi);
  }

  /** Traffic on the last channel of the split, in whole cells, with what an earlier task had put there. */
  function LastTraffic(t: Task, w: Work, channelId: int, currentTraffic: int): int
    requires ValidTask(t) && ElementsPerCell(t) > 0
  {
    DivUp(PartCount(w, w.channelHi), ElementsPerCell(t)) * CellTraffic(t)
    + if w.channelHi == channelId then currentTraffic else 0
  }

  /** Traffic of one cell. */
  function CellTraffic(t: Task): nat
    requires ValidTask(t)
  {
    CellSize(t.trafficPerByte) * t.trafficPerByte
  }

  /** w is the split that fills channel after channel with the cells of t, starting with what is left of channelId. */
  ghost predicate SplitFrom(t: Task, w: Work, cut: Cut, nMax: int, perChannelTraffic: int, channelId: int,
                            currentTraffic: int)
    requires ValidTask(t)
  {
    && ElementsPerCell(t) > 0 && CellTraffic(t) > 0
    && CutOk(CellCount(t), cut, perChannelTraffic, CellTraffic(t), channelId, nMax, currentTraffic)
    && CountsOk(t, w, cut, channelId)
  }

  /** Splits one task and moves on to the channel, and the traffic on it, where the next task of this kind starts. */
  method Split(t: Task, nMax: int, perChannelTraffic: int, channelId: int, currentTraffic: int)
    returns (w: Work, channelId': int, currentTraffic': int, ghost cut: Cut)
    requires ValidTask(t) && perChannelTraffic >= 1 && 0 <= channelId < nMax && currentTraffic >= 0
    requires currentTraffic < perChannelTraffic || channelId + 1 == nMax
    ensures Splits(w, t.count, channelId, nMax)
    ensures SplitFrom(t, w, cut, nMax, perChannelTraffic, channelId, currentTraffic)
    ensures
      var last := LastTraffic(t, w, channelId, currentTraffic);
      if last >= perChannelTraffic && w.channelHi + 1 != nMax then channelId' == w.channelHi + 1 && currentTraffic' == 0
      else channelId' == w.channelHi && currentTraffic' == last
    ensures 0 <= currentTraffic' && (currentTraffic' < perChannelTraffic || channelId' + 1 == nMax) && channelId' < nMax
  {
    CellFacts(t);
    CellsCover(t);
    var cells := CellCount(t);
    var cellTraffic := CellSize(t.trafficPerByte) * t.trafficPerByte;
    MulMono(1, CellSize(t.trafficPerByte), t.trafficPerByte);
    var channelLo, lo, nMid, perChannel, hi :=
      SplitCells(cells, perChannelTraffic, cellTraffic, nMax, channelId, currentTraffic);
    w := Counts(t, cells, lo, nMid, perChannel, hi, nMax, channelLo);
    cut := Cut(lo, nMid, perChannel, hi);
    channelId', currentTraffic' := channelLo, currentTraffic;
    MulMono(0, lo, cellTraffic);
    MulMono(0, hi, cellTraffic);
    if w.countHi != 0 {
      channelId' := w.channelHi;
      currentTraffic' := hi * cellTraffic;
    } else if nMid != 0 {
      channelId' := w.channelHi + 1;
      currentTraffic' := 0;
    } else {
      currentTraffic' := currentTraffic' + lo * cellTraffic;
    }
    if currentTraffic' >= perChannelTraffic && channelId' + 1 != nMax {
      channelId' := channelId' + 1;
      currentTraffic' := 0;
    }
  }

  // ---------------------------------------------------------------- filling a plan

  const MAXCHANNELS := 64

  /** Bytes of one batch. */
  const BATCH_BYTES := 16

  /** Space for batches and work structs: batches must be among the kernel's arguments, work structs may be
      elsewhere. */
  datatype Budget = Budget(inArgsBytes: int, outArgsBytes: int)

  predicate TestBudget(budget: Budget, nWorkBatches: int, workBytes: int) {
    var batchBytes := nWorkBatches * BATCH_BYTES;
    || batchBytes + workBytes <= budget.inArgsBytes
    || (batchBytes <= budget.inArgsBytes && workBytes <= budget.outArgsBytes)
  }

  /** Bytes of the first n work structs. */
  ghost function Bytes(tasks: seq<Task>, n: nat): nat
    requires n <= |tasks|
  {
    if n == 0 then 0 else Bytes(tasks, n - 1) + tasks[n - 1].workSize
  }

  /** With a guess of four collectives per batch, there is room for task i behind all before it. */
  ghost predicate Expected(tasks: seq<Task>, budget: Budget, i: nat)
    requires i < |tasks|
  {
    TestBudget(budget, DivUp(i, 4), Bytes(tasks, i + 1))
  }

  ghost predicate ValidTasks(tasks: seq<Task>, nMax: seq<nat>) {
    && |nMax| == 4 && (forall k :: 0 <= k < 4 ==> nMax[k] <= MAXCHANNELS)
    && forall i :: 0 <= i < |tasks| ==> ValidTask(tasks[i]) && nMax[tasks[i].kind] > 0
  }

  /** Traffic that the first n tasks cause, at least the minimal traffic each, as far as they are of kind k. */
  ghost function TrafficOf(tasks: seq<Task>, n: nat, k: nat): nat
    requires n <= |tasks|
  {
    if n == 0 then 0
    else
      var t := tasks[n - 1];
      TrafficOf(tasks, n - 1, k) + if t.kind == k then Max(MIN_TRAFFIC_PER_CHANNEL, t.trafficBytes) else 0
  }

  /** Channels that they ask for. */
  ghost function ChannelsOf(tasks: seq<Task>, n: nat, k: nat): nat
    requires n <= |tasks|
  {
    if n == 0 then 0
    else ChannelsOf(tasks, n - 1, k) + if tasks[n - 1].kind == k then tasks[n - 1].nMaxChannels else 0
  }

  /** Estimates how many tasks the plan will hold, and adds up their traffic of each kind and the channels they ask for
      as far as there are any. */
  method Totals(tasks: seq<Task>, nMax: seq<nat>, budget: Budget)
    returns (n: nat, traffic: seq<nat>, nChannels: seq<nat>)
    requires ValidTasks(tasks, nMax)
    ensures n <= |tasks| && (forall i: nat :: i < n ==> Expected(tasks, budget, i))
    ensures n < |tasks| ==> !Expected(tasks, budget, n)
    ensures |traffic| == |nChannels| == 4
    ensures forall k: nat :: k < 4 ==> KindTotals(tasks, nMax, n, k, traffic[k], nChannels[k])
    ensures forall i :: 0 <= i < n ==>
              0 < nChannels[tasks[i].kind] <= MAXCHANNELS && traffic[tasks[i].kind] >= MIN_TRAFFIC_PER_CHANNEL
  {
    n, traffic, nChannels := 0, [0, 0, 0, 0], [0, 0, 0, 0];
    var workBytes := 0;
    while n < |tasks| && TestBudget(budget, DivUp(n, 4), workBytes + tasks[n].workSize)
      invariant n <= |tasks| && workBytes == Bytes(tasks, n) && forall i: nat :: i < n ==> Expected(tasks, budget, i)
      invariant |traffic| == |nChannels| == 4
      invariant forall k: nat {:trigger KindTotals(tasks, nMax, n, k, traffic[k], nChannels[k])} :: k < 4 ==>
                  KindTotals(tasks, nMax, n, k, traffic[k], nChannels[k])
    {
      ghost var traffic0, nChannels0 := traffic, nChannels;
      var k := tasks[n].kind;
      workBytes := workBytes + tasks[n].workSize;
      traffic := traffic[k := traffic[k] + Max(MIN_TRAFFIC_PER_CHANNEL, tasks[n].trafficBytes)];
      nChannels := nChannels[k := Min(nChannels[k] + tasks[n].nMaxChannels, nMax[k])];
      forall j: nat | j < 4 ensures KindTotals(tasks, nMax, n + 1, j, traffic[j], nChannels[j]) {
        KindStep(tasks, nMax, n, j, traffic0[j], nChannels0[j]);
      }
      n := n + 1;
    }
    forall i | 0 <= i < n
      ensures 0 < nChannels[tasks[i].kind] <= MAXCHANNELS && traffic[tasks[i].kind] >= MIN_TRAFFIC_PER_CHANNEL
    {
      assert KindTotals(tasks, nMax, n, tasks[i].kind, traffic[tasks[i].kind], nChannels[tasks[i].kind]);
      KindPresent(tasks, nMax, n, i);
    }
  }

  /** The totals of the first n tasks of kind k; no kind gets more channels than there are. */
  ghost predicate KindTotals(tasks: seq<Task>, nMax: seq<nat>, n: nat, k: nat, traffic: nat, nChannels: nat) {
    && n <= |tasks| && k < |nMax|
    && traffic == TrafficOf(tasks, n, k) && nChannels == Min(ChannelsOf(tasks, n, k), nMax[k])
  }

  lemma KindStep(tasks: seq<Task>, nMax: seq<nat>, n: nat, k: nat, traffic: nat, nChannels: nat)
    requires KindTotals(tasks, nMax, n, k, traffic, nChannels) && n < |tasks|
    ensures
      var t := tasks[n];
      KindTotals(tasks, nMax, n + 1, k,
                 if t.kind == k then traffic + Max(MIN_TRAFFIC_PER_CHANNEL, t.trafficBytes) else traffic,
                 if t.kind == k then Min(nChannels + t.nMaxChannels, nMax[k]) else nChannels)
  {
  }

  lemma {:induction false} KindPresent(tasks: seq<Task>, nMax: seq<nat>, n: nat, i: nat)
    requires ValidTasks(tasks, nMax) && i < n <= |tasks|
    ensures ChannelsOf(tasks, n, tasks[i].kind) > 0 && TrafficOf(tasks, n, tasks[i].kind) >= MIN_TRAFFIC_PER_CHANNEL
  {
    if i < n - 1 {
      KindPresent(tasks, nMax, n - 1, i);
    }
  }

  /** t is an equal share of the traffic of the channels, rounded down to bytes and up to a multiple of sixteen. */
  predicate Share(t: int, traffic: nat, nChannels: nat) {
    nChannels > 0 && t % 16 == 0 && t - 16 < traffic / nChannels <= t
  }

  /** Intended traffic of each channel. */
  method TrafficPerChannel(traffic: nat, nChannels: nat) returns (t: int)
    requires 0 < nChannels <= MAXCHANNELS && traffic >= MIN_TRAFFIC_PER_CHANNEL
    ensures t >= 1 && Share(t, traffic, nChannels)
  {
    DivFacts(traffic, nChannels);
    if traffic / nChannels < 1 {
      MulMono(traffic / nChannels, 0, nChannels);
    }
    AlignUpProps(traffic / nChannels, 16);
    t := AlignUp(traffic / nChannels, 16);
  }

  /** Where a task goes: parts of it on some channels or, with collnet, all of it on all channels it may use. */
  datatype Place = Parts(work: Work) | Shared(channelHi: int)

  function Channels(p: Place): int {
    match p
    case Parts(w) => w.channelHi - w.channelLo + 1
    case Shared(hi) => hi + 1
  }

  ghost predicate PlaceOk(t: Task, p: Place, nMax: seq<nat>)
    requires |nMax| == 4
  {
    match p
    case Parts(w) => t.kind < 2 && Splits(w, t.count, w.channelLo, nMax[t.kind])
    case Shared(hi) => t.kind >= 2 && hi + 1 == t.nMaxChannels
  }

  /** A task placed right behind one of the same kind starts on the channel where that one stopped, or on the next. */
  ghost predicate Follows(t: Task, p: Place, t': Task, p': Place) {
    p'.Parts? ==>
      if t'.kind == t.kind && p.Parts? then p.work.channelHi <= p'.work.channelLo <= p.work.channelHi + 1
      else p'.work.channelLo == 0
  }

  /** The first tasks are placed, each correctly and behind the one before it. */
  ghost predicate PlacesOk(tasks: seq<Task>, places: seq<Place>, nMax: seq<nat>) {
    && |places| <= |tasks| && |nMax| == 4
    && (forall i: nat {:trigger PlaceOk(tasks[i], places[i], nMax)} :: i < |places| ==>
          PlaceOk(tasks[i], places[i], nMax))
    && forall i: nat {:trigger FollowsAt(tasks, places, i)} :: 0 < i < |places| ==> FollowsAt(tasks, places, i)
  }

  ghost predicate FollowsAt(tasks: seq<Task>, places: seq<Place>, i: nat)
    requires 0 < i < |places| <= |tasks|
  {
    Follows(tasks[i - 1], places[i - 1], tasks[i], places[i])
  }

  lemma OnePlaceMore(tasks: seq<Task>, places: seq<Place>, nMax: seq<nat>, p: Place)
    requires PlacesOk(tasks, places, nMax) && |places| < |tasks| && PlaceOk(tasks[|places|], p, nMax)
    requires places != [] ==> Follows(tasks[|places| - 1], places[|places| - 1], tasks[|places|], p)
    ensures PlacesOk(tasks, places + [p], nMax)
  {
    var places' := places + [p];
    forall i: nat | i < |places'| ensures PlaceOk(tasks[i], places'[i], nMax) {
      assert i < |places| ==> PlaceOk(tasks[i], places[i], nMax);
    }
    forall i: nat | 0 < i < |places'| ensures FollowsAt(tasks, places', i) {
      assert i < |places| ==> FollowsAt(tasks, places, i);
    }
  }

  lemma FewerBatches(budget: Budget, nWorkBatches: int, started: int, worst: int, workBytes: int)
    requires started <= worst && TestBudget(budget, nWorkBatches + worst, workBytes)
    ensures TestBudget(budget, nWorkBatches + started, workBytes)
  {
  }

  /** What is carried from one task to the next: the kind of the last task, the intended traffic of a channel, the
      channel where the next task starts and the traffic already on it. */
  datatype Carry = Carry(kind: int, trafficPerChannel: int, channelId: int, currentTraffic: int)

  ghost predicate CarryOk(c: Carry, nMax: seq<nat>)
    requires |nMax| == 4
  {
    c.kind != -1 ==>
      && 0 <= c.kind < 4 && c.trafficPerChannel >= 1 && 0 <= c.channelId < nMax[c.kind] && c.currentTraffic >= 0
      && (c.currentTraffic < c.trafficPerChannel || c.channelId + 1 == nMax[c.kind])
  }

  /** The next task of the kind starts behind task t, which is at p. */
  ghost predicate Behind(c: Carry, t: Task, p: Place) {
    && c.kind == t.kind && (p.Parts? <==> t.kind < 2)
    && (p.Parts? ==> p.work.channelHi <= c.channelId <= p.work.channelHi + 1)
  }

  /** The carry that a task starts from: a task of another kind than the last one starts on channel 0. */
  ghost predicate StartsFrom(t: Task, c: Carry, c1: Carry, traffic: nat, nChannels: nat) {
    if t.kind == c.kind then c1 == c
    else c1 == Carry(t.kind, c1.trafficPerChannel, 0, 0) && Share(c1.trafficPerChannel, traffic, nChannels)
  }

  /** p is where a task goes that starts from c1, and c' what the next one finds: a part that fills its last channel
      sends it on to the next channel, if there is one. */
  ghost predicate PlacedFrom(t: Task, p: Place, c1: Carry, c': Carry, nMax: int)
    requires ValidTask(t)
  {
    match p
    case Shared(hi) => t.kind >= 2 && hi + 1 == t.nMaxChannels && c' == c1
    case Parts(w) =>
      && t.kind < 2 && ElementsPerCell(t) > 0
      && (exists cut :: SplitFrom(t, w, cut, nMax, c1.trafficPerChannel, c1.channelId, c1.currentTraffic))
      && var last := LastTraffic(t, w, c1.channelId, c1.currentTraffic);
      if last >= c1.trafficPerChannel && w.channelHi + 1 != nMax then
        c' == c1.(channelId := w.channelHi + 1, currentTraffic := 0)
      else
        c' == c1.(channelId := w.channelHi, currentTraffic := last)
  }

  ghost predicate PlacedAt(t: Task, p: Place, c: Carry, c': Carry, nMax: int, traffic: nat, nChannels: nat)
    requires ValidTask(t)
  {
    exists c1 :: StartsFrom(t, c, c1, traffic, nChannels) && PlacedFrom(t, p, c1, c', nMax)
  }

  /** Places one task. */
  method PlaceTask(t: Task, nMax: seq<nat>, c: Carry, traffic: nat, nChannels: nat) returns (p: Place, c': Carry)
    requires |nMax| == 4 && ValidTask(t) && CarryOk(c, nMax) && 0 < nMax[t.kind]
    requires 0 < nChannels <= MAXCHANNELS && traffic >= MIN_TRAFFIC_PER_CHANNEL
    ensures PlaceOk(t, p, nMax) && CarryOk(c', nMax) && Behind(c', t, p)
    ensures PlacedAt(t, p, c, c', nMax[t.kind], traffic, nChannels)
    ensures p.Parts? ==> p.work.channelLo == if t.kind == c.kind then c.channelId else 0
  {
    c' := c;
    if t.kind != c.kind {
      var trafficPerChannel := TrafficPerChannel(traffic, nChannels);
      c' := Carry(t.kind, trafficPerChannel, 0, 0);
    }
    ghost var c1 := c';
    assert StartsFrom(t, c, c1, traffic, nChannels);
    if t.kind >= 2 {
      p := Shared(t.nMaxChannels - 1);
    } else {
      var w, channelId, currentTraffic, cut :=
        Split(t, nMax[t.kind], c'.trafficPerChannel, c'.channelId, c'.currentTraffic);
      assert SplitFrom(t, w, cut, nMax[t.kind], c1.trafficPerChannel, c1.channelId, c1.currentTraffic);
      p, c' := Parts(w), c'.(channelId := channelId, currentTraffic := currentTraffic);
    }
    assert PlacedFrom(t, p, c1, c', nMax[t.kind]);
  }

  /** Each of the places follows from what is carried to it, with the shares of the n tasks that the plan is expected to
      hold. */
  ghost predicate Carried(tasks: seq<Task>, places: seq<Place>, nMax: seq<nat>, n: nat, carries: seq<Carry>) {
    && ValidTasks(tasks, nMax) && n <= |tasks| && |places| <= |tasks| && |carries| == |places| + 1
    && carries[0] == Carry(-1, 0, 0, 0)
    && forall i: nat {:trigger CarriedAt(tasks, places, nMax, n, carries, i)} :: i < |places| ==>
         CarriedAt(tasks, places, nMax, n, carries, i)
  }

  ghost predicate CarriedAt(tasks: seq<Task>, places: seq<Place>, nMax: seq<nat>, n: nat, carries: seq<Carry>, i: nat)
    requires ValidTasks(tasks, nMax) && n <= |tasks| && i < |places| <= |tasks| && |carries| == |places| + 1
  {
    var k := tasks[i].kind;
    PlacedAt(tasks[i], places[i], carries[i], carries[i + 1], nMax[k], TrafficOf(tasks, n, k),
             Min(ChannelsOf(tasks, n, k), nMax[k]))
  }

  lemma OneCarryMore(tasks: seq<Task>, places: seq<Place>, nMax: seq<nat>, n: nat, carries: seq<Carry>, p: Place,
                     c: Carry)
    requires Carried(tasks, places, nMax, n, carries) && |places| < |tasks|
    requires
      var t := tasks[|places|];
      PlacedAt(t, p, carries[|places|], c, nMax[t.kind], TrafficOf(tasks, n, t.kind),
               Min(ChannelsOf(tasks, n, t.kind), nMax[t.kind]))
    ensures Carried(tasks, places + [p], nMax, n, carries + [c])
  {
    var places', carries' := places + [p], carries + [c];
    forall i: nat | i < |places'| ensures CarriedAt(tasks, places', nMax, n, carries', i) {
      assert i < |places| ==> CarriedAt(tasks, places, nMax, n, carries, i);
    }
  }

  /** Batches that the placed tasks start: as many as given, at most one for each of their channels. */
  ghost function BatchesOf(started: seq<nat>, places: seq<Place>): int
    requires |places| <= |started|
  {
    if places == [] then 0
    else
      var i := |places| - 1;
      BatchesOf(started, places[..i]) + Min(started[i], Channels(places[i]))
  }

  /** The state of the loop: what is placed, and what is carried to the next task. */
  ghost predicate Filling(tasks: seq<Task>, places: seq<Place>, nMax: seq<nat>, n: nat, carries: seq<Carry>, c: Carry) {
    && PlacesOk(tasks, places, nMax) && Carried(tasks, places, nMax, n, carries) && |places| <= n
    && CarryOk(c, nMax) && c == carries[|places|]
    && if |places| == 0 then c.kind == -1 else Behind(c, tasks[|places| - 1], places[|places| - 1])
  }

  /** Places the next task. */
  method PlaceNext(tasks: seq<Task>, places: seq<Place>, nMax: seq<nat>, n: nat, ghost carries: seq<Carry>, c: Carry,
                   traffic: seq<nat>, nChannels: seq<nat>)
    returns (p: Place, c': Carry)
    requires Filling(tasks, places, nMax, n, carries, c) && |places| < n && |traffic| == |nChannels| == 4
    requires
      var k := tasks[|places|].kind;
      && KindTotals(tasks, nMax, n, k, traffic[k], nChannels[k])
      && 0 < nChannels[k] <= MAXCHANNELS && traffic[k] >= MIN_TRAFFIC_PER_CHANNEL
    ensures PlaceOk(tasks[|places|], p, nMax) && Filling(tasks, places + [p], nMax, n, carries + [c'], c')
  {
    var t := tasks[|places|];
    p, c' := PlaceTask(t, nMax, c, traffic[t.kind], nChannels[t.kind]);
    OnePlaceMore(tasks, places, nMax, p);
    OneCarryMore(tasks, places, nMax, n, carries, p, c');
  }

  lemma BatchesMore(started: seq<nat>, places: seq<Place>, p: Place)
    requires |places| < |started|
    ensures BatchesOf(started, places + [p]) == BatchesOf(started, places) + Min(started[|places|], Channels(p))
  {
    assert (places + [p])[..|places|] == places;
  }

  /** Fills a plan with the first tasks of a list, as many as are estimated to fit, stopping early at one that would not
      fit with a new batch on each of its channels. started[i] batches are started for task i, at most one a channel.
      Each placed task is split completely over channels that exist, and the plan stays within the budget. */
  method ScheduleTasks(tasks: seq<Task>, nMax: seq<nat>, budget: Budget, started: seq<nat>, nWorkBatches: nat,
                       workBytes: nat)
    returns (n: nat, places: seq<Place>, nWorkBatches': nat, workBytes': nat, refused: Place, ghost carries: seq<Carry>)
    requires ValidTasks(tasks, nMax) && |started| == |tasks|
    ensures n <= |tasks| && (forall i: nat :: i < n ==> Expected(tasks, budget, i))
    ensures n < |tasks| ==> !Expected(tasks, budget, n)
    ensures |places| <= n && PlacesOk(tasks, places, nMax) && Carried(tasks, places, nMax, n, carries)
    ensures nWorkBatches' == nWorkBatches + BatchesOf(started, places)
    ensures workBytes' == workBytes + Bytes(tasks, |places|)
    ensures if |places| == 0 then nWorkBatches' == nWorkBatches else TestBudget(budget, nWorkBatches', workBytes')
    ensures |places| < n ==>
              && PlaceOk(tasks[|places|], refused, nMax)
              && !TestBudget(budget, nWorkBatches' + Channels(refused), workBytes' + tasks[|places|].workSize)
  {
    var traffic, nChannels;
    n, traffic, nChannels := Totals(tasks, nMax, budget);
    places, nWorkBatches', workBytes', refused := [], nWorkBatches, workBytes, Shared(-1);
    var c := Carry(-1, 0, 0, 0);
    carries := [c];
    while |places| < n
      invariant Filling(tasks, places, nMax, n, carries, c) && workBytes' == workBytes + Bytes(tasks, |places|)
      invariant nWorkBatches' == nWorkBatches + BatchesOf(started, places)
      invariant if |places| == 0 then nWorkBatches' == nWorkBatches else TestBudget(budget, nWorkBatches', workBytes')
      decreases n - |places|
    {
      var i := |places|;
      var t := tasks[i];
      refused, c := PlaceNext(tasks, places, nMax, n, carries, c, traffic, nChannels);
      if !TestBudget(budget, nWorkBatches' + Channels(refused), workBytes' + t.workSize) {
        return;
      }
      BatchesMore(started, places, refused);
      FewerBatches(budget, nWorkBatches', Min(started[i], Channels(refused)), Channels(refused),
                   workBytes' + t.workSize);
      places, carries := places + [refused], carries + [c];
      nWorkBatches' := nWorkBatches' + Min(started[i], Channels(refused));
      workBytes' := workBytes' + t.workSize;
    }
  }
}
