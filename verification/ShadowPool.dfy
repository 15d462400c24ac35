/** The shadow pool: it hands out device objects with host shadows, small ones from pages, and maps device to host
    addresses. */
module ShadowPool {
  import opened Arith
  import opened Seqs
  import opened ShadowPages
  import opened ShadowTable

  function DevOf(page: Page, slot: nat): int {
    page.base + slot * page.slotSize
  }

  /** Bytes from lo up to lo + len. */
  datatype Region = Region(lo: int, len: int)

  predicate Apart(a: Region, b: Region) {
    a.lo + a.len <= b.lo || b.lo + b.len <= a.lo
  }

  function Capacity(page: Page): nat {
    if page.slotSize > 0 then PageCapacity(page.slotSize) else 0
  }

  function RegionOf(page: Page): Region {
    Region(page.base, Capacity(page) * page.slotSize)
  }

  lemma SlotInRegion(page: Page, i: nat)
    requires i < Capacity(page)
    ensures page.base <= DevOf(page, i) && DevOf(page, i) + page.slotSize <= page.base + Capacity(page) * page.slotSize
  {
    MulMono(0, i, page.slotSize);
    Gap(i, Capacity(page), page.slotSize);
  }

  lemma SlotsDiffer(page: Page, i: nat, j: nat)
    requires page.slotSize > 0 && i != j
    ensures DevOf(page, i) != DevOf(page, j)
  {
    Gap(i, j, page.slotSize);
    Gap(j, i, page.slotSize);
  }

  // ---------------------------------------------------------------- pages and live objects

  /** A slot is free, or holds a live object of this page. */
  ghost predicate SlotOk(page: Page, contents: map<int, Obj>, p: int, i: nat) {
    if i in page.freeMask then DevOf(page, i) !in contents
    else DevOf(page, i) in contents && contents[DevOf(page, i)].page == p
  }

  ghost predicate PageOk(pages: seq<Page>, contents: map<int, Obj>, p: nat) {
    && p < |pages| && pages[p].base > 0 && pages[p].slotSize > 0 && 2 <= Capacity(pages[p]) <= 64
    && (forall i :: i in pages[p].freeMask ==> i < Capacity(pages[p]))
    && forall i: nat {:trigger SlotOk(pages[p], contents, p, i)} :: i < Capacity(pages[p]) ==>
         SlotOk(pages[p], contents, p, i)
  }

  /** The object sits in the given slot of its page. */
  ghost predicate InSlot(page: Page, o: Obj, i: nat) {
    i < Capacity(page) && o.dev == DevOf(page, i) && o.size <= page.slotSize
  }

  ghost predicate ObjOk(pages: seq<Page>, contents: map<int, Obj>, d: int) {
    && d in contents && contents[d].dev == d && contents[d].size > 0
    && if contents[d].page < 0 then
         forall p: nat {:trigger pages[p]} :: p < |pages| ==> Apart(Region(d, contents[d].size), RegionOf(pages[p]))
       else
         contents[d].page < |pages| && exists i: nat :: InSlot(pages[contents[d].page], contents[d], i)
  }

  ghost predicate PagesApart(pages: seq<Page>) {
    forall p, q :: 0 <= p < q < |pages| ==> Apart(RegionOf(pages[p]), RegionOf(pages[q]))
  }

  ghost predicate Direct(contents: map<int, Obj>, d: int) {
    d in contents && contents[d].page < 0
  }

  ghost predicate DirectApart(contents: map<int, Obj>) {
    forall c, d {:trigger Direct(contents, c), Direct(contents, d)} ::
      Direct(contents, c) && Direct(contents, d) && c != d ==>
      Apart(Region(c, contents[c].size), Region(d, contents[d].size))
  }

  ghost predicate SlotsOk(pages: seq<Page>, contents: map<int, Obj>) {
    && PagesApart(pages) && DirectApart(contents)
    && (forall p: nat {:trigger PageOk(pages, contents, p)} :: p < |pages| ==> PageOk(pages, contents, p))
    && forall d {:trigger ObjOk(pages, contents, d)} :: d in contents ==> ObjOk(pages, contents, d)
  }

  /** The driver's promise about new device memory: it overlaps nothing that is in use. */
  ghost predicate FreshRegion(pages: seq<Page>, contents: map<int, Obj>, r: Region) {
    && r.lo > 0 && (forall p: nat {:trigger pages[p]} :: p < |pages| ==> Apart(r, RegionOf(pages[p])))
    && forall d {:trigger Direct(contents, d)} :: Direct(contents, d) ==> Apart(r, Region(d, contents[d].size))
  }

  /** Pages keep their place and slot size; only page p's free slots change. */
  ghost predicate MaskChange(pages: seq<Page>, pages': seq<Page>, p: int, mask: set<nat>) {
    && |pages'| == |pages| && 0 <= p < |pages|
    && forall q {:trigger pages'[q]} :: 0 <= q < |pages| ==>
         && pages'[q].base == pages[q].base && pages'[q].slotSize == pages[q].slotSize
         && pages'[q].freeMask == if q == p then mask else pages[q].freeMask
  }

  /** A live object of a page does not share its address with another page's slot. */
  lemma OtherPage(pages: seq<Page>, contents: map<int, Obj>, p: nat, i: nat, q: nat, j: nat)
    requires SlotsOk(pages, contents) && p < |pages| && q < |pages| && p != q && i < Capacity(pages[p])
    requires j < Capacity(pages[q])
    ensures DevOf(pages[p], i) != DevOf(pages[q], j)
  {
    assert PageOk(pages, contents, p) && PageOk(pages, contents, q);
    SlotInRegion(pages[p], i);
    SlotInRegion(pages[q], j);
    assert Apart(RegionOf(pages[if p < q then p else q]), RegionOf(pages[if p < q then q else p]));
  }

  // ---------------------------------------------------------------- allocation and release

  lemma TakePage(pages: seq<Page>, pages': seq<Page>, contents: map<int, Obj>, p: nat, i: nat, o: Obj, q: nat)
    requires SlotsOk(pages, contents) && p < |pages| && q < |pages| && i in pages[p].freeMask
    requires MaskChange(pages, pages', p, pages[p].freeMask - {i})
    requires o.dev == DevOf(pages[p], i) && o.page == p
    ensures PageOk(pages', contents[o.dev := o], q)
  {
    assert PageOk(pages, contents, p) && PageOk(pages, contents, q);
    var contents' := contents[o.dev := o];
    assert SlotOk(pages[p], contents, p, i);
    forall j: nat | j < Capacity(pages'[q]) ensures SlotOk(pages'[q], contents', q, j) {
      assert SlotOk(pages[q], contents, q, j) && DevOf(pages'[q], j) == DevOf(pages[q], j);
      if q == p {
        if j != i {
          SlotsDiffer(pages[p], i, j);
        }
      } else {
        OtherPage(pages, contents, p, i, q, j);
      }
    }
  }

  lemma TakeObj(pages: seq<Page>, pages': seq<Page>, contents: map<int, Obj>, p: nat, i: nat, o: Obj, d: int)
    requires SlotsOk(pages, contents) && p < |pages| && i in pages[p].freeMask
    requires MaskChange(pages, pages', p, pages[p].freeMask - {i})
    requires o.dev == DevOf(pages[p], i) && o.page == p && 0 < o.size <= pages[p].slotSize && d in contents[o.dev := o]
    ensures ObjOk(pages', contents[o.dev := o], d)
  {
    assert PageOk(pages, contents, p);
    if d == o.dev {
      assert InSlot(pages'[p], o, i);
    } else {
      assert ObjOk(pages, contents, d);
      var c := contents[d];
      if c.page >= 0 {
        var j: nat :| InSlot(pages[c.page], c, j);
        assert InSlot(pages'[c.page], c, j);
      } else {
        forall q: nat | q < |pages'| ensures Apart(Region(d, c.size), RegionOf(pages'[q])) {
          assert RegionOf(pages'[q]) == RegionOf(pages[q]);
        }
      }
    }
  }

  /** Giving out a free slot of a page. */
  lemma TakeKeeps(pages: seq<Page>, pages': seq<Page>, contents: map<int, Obj>, p: nat, i: nat, o: Obj)
    requires SlotsOk(pages, contents) && p < |pages| && i in pages[p].freeMask
    requires MaskChange(pages, pages', p, pages[p].freeMask - {i})
    requires o.dev == DevOf(pages[p], i) && o.page == p && 0 < o.size <= pages[p].slotSize
    ensures o.dev !in contents && o.dev > 0 && SlotsOk(pages', contents[o.dev := o])
  {
    var contents' := contents[o.dev := o];
    assert PageOk(pages, contents, p) && SlotOk(pages[p], contents, p, i);
    SlotInRegion(pages[p], i);
    forall q: nat | q < |pages'| ensures PageOk(pages', contents', q) {
      TakePage(pages, pages', contents, p, i, o, q);
    }
    forall d | d in contents' ensures ObjOk(pages', contents', d) {
      TakeObj(pages, pages', contents, p, i, o, d);
    }
    RegionsSame(pages, pages', p, pages[p].freeMask - {i});
    forall c ensures Direct(contents', c) ==> Direct(contents, c) && contents'[c] == contents[c] {
    }
  }

  lemma RegionsSame(pages: seq<Page>, pages': seq<Page>, p: int, mask: set<nat>)
    requires PagesApart(pages) && MaskChange(pages, pages', p, mask)
    ensures PagesApart(pages')
  {
    forall a, b | 0 <= a < b < |pages'| ensures Apart(RegionOf(pages'[a]), RegionOf(pages'[b])) {
      assert RegionOf(pages'[a]) == RegionOf(pages[a]) && RegionOf(pages'[b]) == RegionOf(pages[b]);
    }
  }

  // ---------------------------------------------------------------- which slot is taken, and where it goes back to

  ghost predicate Lowest(mask: set<nat>, slot: nat) {
    slot in mask && forall s :: s in mask ==> slot <= s
  }

  /** The i-th page of the list is the first one with slots of this size; there is none when i is its length. */
  ghost predicate FirstFor(pages: seq<Page>, list: seq<int>, slotSize: nat, i: nat) {
    && i <= |list| && (forall j :: 0 <= j < |list| ==> 0 <= list[j] < |pages|)
    && (forall j :: 0 <= j < i ==> pages[list[j]].slotSize != slotSize)
    && (i < |list| ==> pages[list[i]].slotSize == slotSize)
  }

  /** The lowest free slot of the i-th page of the list was taken; a page that became full has left the list. */
  ghost predicate FromListed(pages: seq<Page>, list: seq<int>, pages': seq<Page>, list': seq<int>, i: nat, dev: int)
    requires i < |list| && 0 <= list[i] < |pages|
  {
    var mask := pages[list[i]].freeMask;
    exists slot: nat {:trigger Lowest(mask, slot)} ::
      && Lowest(mask, slot) && dev == DevOf(pages[list[i]], slot) && MaskChange(pages, pages', list[i], mask - {slot})
      && list' == if mask == {slot} then Without(list, i) else list
  }

  /** A page was added on the new memory, in front of the list, and its slot 0 taken. */
  ghost predicate FromNew(pages: seq<Page>, list: seq<int>, pages': seq<Page>, list': seq<int>, slotSize: nat,
                          devMem: nat, dev: int)
  {
    && |pages'| == |pages| + 1 && pages'[..|pages|] == pages && list' == [|pages|] + list
    && pages'[|pages|].slotSize == slotSize && pages'[|pages|].base == devMem == dev
    && slotSize > 0 && pages'[|pages|].freeMask == AllSlots(PageCapacity(slotSize)) - {0}
  }

  /** A slot for an object of this size: of the first listed page with such slots, of a new page only if there is
      none. */
  ghost predicate SlotTaken(pages: seq<Page>, list: seq<int>, pages': seq<Page>, list': seq<int>, slotSize: nat,
                            devMem: nat, page: int, dev: int)
  {
    exists i: nat {:trigger FirstFor(pages, list, slotSize, i)} ::
      && FirstFor(pages, list, slotSize, i)
      && if i < |list| then page == list[i] && FromListed(pages, list, pages', list', i, dev)
         else page == |pages| && FromNew(pages, list, pages', list', slotSize, devMem, dev)
  }

  /** The page an object goes to: the first listed one with such slots, else a new one with all its slots free. */
  ghost predicate Chosen(pages: seq<Page>, list: seq<int>, pages': seq<Page>, list': seq<int>, slotSize: nat,
                         devMem: nat, page: int, i: nat)
  {
    && slotSize > 0 && PageCapacity(slotSize) >= 2 && FirstFor(pages, list, slotSize, i)
    && 0 <= page < |pages'| && pages'[page].slotSize == slotSize
    && if i < |list| then page == list[i] && pages' == pages && list' == list
       else
         && page == |pages| && list' == [page] + list
         && exists head :: pages' == pages + [Page(head, slotSize, AllSlots(PageCapacity(slotSize)), devMem)]
  }

  /** The page gave away the slot; it left the list if that was its last. */
  ghost predicate Popped(pages: seq<Page>, list: seq<int>, pages': seq<Page>, list': seq<int>, page: int, i: nat,
                         slot: nat)
    requires 0 <= page < |pages|
  {
    var mask := pages[page].freeMask;
    if TwoFree(mask) then list' == list && pages' == pages[page := pages[page].(freeMask := mask - {slot})]
    else i < |list| && mask == {slot} && list' == Without(list, i)
  }

  /** Some page has a free slot of this size. */
  ghost predicate HasFree(pages: seq<Page>, slotSize: nat) {
    exists p :: 0 <= p < |pages| && pages[p].slotSize == slotSize && pages[p].freeMask != {}
  }

  /** A page is added exactly when no page has a free slot of the size. */
  lemma PageAdded(pages: seq<Page>, head: int, list: seq<int>, pages': seq<Page>, list': seq<int>, slotSize: nat,
                  devMem: nat, page: int, dev: int)
    requires PagesOk(pages, head, list) && SlotTaken(pages, list, pages', list', slotSize, devMem, page, dev)
    ensures |pages'| == |pages| + if HasFree(pages, slotSize) then 0 else 1
  {
    var i: nat :| && FirstFor(pages, list, slotSize, i)
                  && if i < |list| then page == list[i] && FromListed(pages, list, pages', list', i, dev)
                     else page == |pages| && FromNew(pages, list, pages', list', slotSize, devMem, dev);
    if i < |list| {
      assert list[i] in list;
    }
    if HasFree(pages, slotSize) {
      var p :| 0 <= p < |pages| && pages[p].slotSize == slotSize && pages[p].freeMask != {};
      assert p in list;
    }
  }

  /** The slot at dev went back to its page; a page that was full is now in front of the list. */
  ghost predicate SlotGiven(pages: seq<Page>, list: seq<int>, pages': seq<Page>, list': seq<int>, p: int, dev: int) {
    && 0 <= p < |pages|
    && (exists slot: nat {:trigger DevOf(pages[p], slot)} ::
          slot < Capacity(pages[p]) && dev == DevOf(pages[p], slot)
          && MaskChange(pages, pages', p, pages[p].freeMask + {slot}))
    && list' == if pages[p].freeMask == {} then [p] + list else list
  }

  function AllSlots(n: nat): (s: set<nat>)
    ensures forall i: nat :: i in s <==> i < n
  {
    if n == 0 then {} else AllSlots(n - 1) + {n - 1}
  }

  /** A new page on fresh memory: all its slots are free. */
  lemma NewPageKeeps(pages: seq<Page>, contents: map<int, Obj>, page: Page)
    requires SlotsOk(pages, contents) && page.slotSize > 0 && 2 <= Capacity(page) <= 64
    requires page.freeMask == AllSlots(Capacity(page))
    requires FreshRegion(pages, contents, RegionOf(page))
    ensures SlotsOk(pages + [page], contents)
  {
    var pages' := pages + [page];
    forall p: nat | p < |pages'| ensures PageOk(pages', contents, p) {
      if p < |pages| {
        assert PageOk(pages, contents, p);
        forall i: nat | i < Capacity(pages'[p]) ensures SlotOk(pages'[p], contents, p, i) {
          assert SlotOk(pages[p], contents, p, i);
        }
      } else {
        forall i: nat | i < Capacity(page) ensures SlotOk(page, contents, p, i) {
          NewSlotFree(pages, contents, page, i);
        }
      }
    }
    forall d | d in contents ensures ObjOk(pages', contents, d) {
      NewPageObj(pages, contents, page, d);
    }
    forall a, b | 0 <= a < b < |pages'| ensures Apart(RegionOf(pages'[a]), RegionOf(pages'[b])) {
      assert pages'[a] == pages[a];
    }
  }

  /** Live objects lie outside of fresh memory. */
  lemma LiveOutside(pages: seq<Page>, contents: map<int, Obj>, r: Region, d: int)
    requires SlotsOk(pages, contents) && d in contents && FreshRegion(pages, contents, r)
    ensures contents[d].size > 0 && Apart(r, Region(d, contents[d].size))
  {
    assert ObjOk(pages, contents, d);
    if contents[d].page < 0 {
      assert Direct(contents, d);
    } else {
      InOwnPage(pages, contents, d);
      assert Apart(r, RegionOf(pages[contents[d].page]));
    }
  }

  lemma NewSlotFree(pages: seq<Page>, contents: map<int, Obj>, page: Page, i: nat)
    requires SlotsOk(pages, contents) && page.slotSize > 0 && i < Capacity(page)
    requires FreshRegion(pages, contents, RegionOf(page))
    ensures DevOf(page, i) !in contents
  {
    SlotInRegion(page, i);
    forall d | d in contents ensures d != DevOf(page, i) {
      LiveOutside(pages, contents, RegionOf(page), d);
    }
  }

  lemma NewPageObj(pages: seq<Page>, contents: map<int, Obj>, page: Page, d: int)
    requires SlotsOk(pages, contents) && d in contents && FreshRegion(pages, contents, RegionOf(page))
    ensures ObjOk(pages + [page], contents, d)
  {
    var pages', o := pages + [page], contents[d];
    assert ObjOk(pages, contents, d);
    if o.page < 0 {
      assert Direct(contents, d);
      forall p: nat | p < |pages'| ensures Apart(Region(d, o.size), RegionOf(pages'[p])) {
        assert p < |pages| ==> pages'[p] == pages[p];
      }
    } else {
      var j: nat :| InSlot(pages[o.page], o, j);
      assert InSlot(pages'[o.page], o, j);
    }
  }

  /** An object of its own on fresh memory. */
  lemma DirectKeeps(pages: seq<Page>, contents: map<int, Obj>, o: Obj)
    requires SlotsOk(pages, contents) && o.page < 0 && o.size > 0 && FreshRegion(pages, contents, Region(o.dev, o.size))
    ensures o.dev !in contents && SlotsOk(pages, contents[o.dev := o])
  {
    DirectIsNew(pages, contents, o);
    var contents' := contents[o.dev := o];
    forall p: nat | p < |pages| ensures PageOk(pages, contents', p) {
      assert PageOk(pages, contents, p);
      forall i: nat | i < Capacity(pages[p]) ensures SlotOk(pages[p], contents', p, i) {
        assert SlotOk(pages[p], contents, p, i);
        SlotInRegion(pages[p], i);
      }
    }
    forall d | d in contents' ensures ObjOk(pages, contents', d) {
      assert d != o.dev ==> ObjOk(pages, contents, d);
    }
    forall c, d | Direct(contents', c) && Direct(contents', d) && c != d
      ensures Apart(Region(c, contents'[c].size), Region(d, contents'[d].size))
    {
      assert (c != o.dev ==> Direct(contents, c)) && (d != o.dev ==> Direct(contents, d));
    }
  }

  lemma DirectIsNew(pages: seq<Page>, contents: map<int, Obj>, o: Obj)
    requires SlotsOk(pages, contents) && o.size > 0 && FreshRegion(pages, contents, Region(o.dev, o.size))
    ensures o.dev !in contents
  {
    forall d | d in contents ensures d != o.dev {
      LiveOutside(pages, contents, Region(o.dev, o.size), d);
    }
  }

  /** Giving a slot back. */
  lemma GiveKeeps(pages: seq<Page>, pages': seq<Page>, contents: map<int, Obj>, d: int, i: nat)
    requires SlotsOk(pages, contents) && d in contents && 0 <= contents[d].page < |pages|
    requires InSlot(pages[contents[d].page], contents[d], i)
    requires MaskChange(pages, pages', contents[d].page, pages[contents[d].page].freeMask + {i})
    ensures SlotsOk(pages', contents - {d})
  {
    var contents', p := contents - {d}, contents[d].page;
    assert ObjOk(pages, contents, d);
    forall q: nat | q < |pages'| ensures PageOk(pages', contents', q) {
      assert PageOk(pages, contents, q);
      forall j: nat | j < Capacity(pages'[q]) ensures SlotOk(pages'[q], contents', q, j) {
        assert SlotOk(pages[q], contents, q, j) && DevOf(pages'[q], j) == DevOf(pages[q], j);
        if q == p {
          if j != i {
            SlotsDiffer(pages[p], i, j);
          }
        } else {
          OtherPage(pages, contents, p, i, q, j);
        }
      }
    }
    forall c | c in contents' ensures ObjOk(pages', contents', c) {
      KeptObj(pages, pages', contents, d, c, p, pages[p].freeMask + {i});
    }
    RegionsSame(pages, pages', p, pages[p].freeMask + {i});
    forall c ensures Direct(contents', c) ==> Direct(contents, c) && contents'[c] == contents[c] {
    }
  }

  lemma KeptObj(pages: seq<Page>, pages': seq<Page>, contents: map<int, Obj>, d: int, c: int, p: int, mask: set<nat>)
    requires SlotsOk(pages, contents) && c in contents && c != d && MaskChange(pages, pages', p, mask)
    ensures ObjOk(pages', contents - {d}, c)
  {
    assert ObjOk(pages, contents, c);
    var o := contents[c];
    if o.page >= 0 {
      var j: nat :| InSlot(pages[o.page], o, j);
      assert InSlot(pages'[o.page], o, j);
    } else {
      forall q: nat | q < |pages'| ensures Apart(Region(c, o.size), RegionOf(pages'[q])) {
        assert RegionOf(pages'[q]) == RegionOf(pages[q]);
      }
    }
  }

  /** Releasing an object of its own. */
  lemma ReleaseKeeps(pages: seq<Page>, contents: map<int, Obj>, d: int)
    requires SlotsOk(pages, contents) && Direct(contents, d)
    ensures SlotsOk(pages, contents - {d})
  {
    var contents' := contents - {d};
    forall p: nat | p < |pages| ensures PageOk(pages, contents', p) {
      assert PageOk(pages, contents, p) && ObjOk(pages, contents, d);
      forall i: nat | i < Capacity(pages[p]) ensures SlotOk(pages[p], contents', p, i) {
        assert SlotOk(pages[p], contents, p, i);
        SlotInRegion(pages[p], i);
      }
    }
    forall c | c in contents' ensures ObjOk(pages, contents', c) {
      assert ObjOk(pages, contents, c);
    }
    forall c ensures Direct(contents', c) ==> Direct(contents, c) && contents'[c] == contents[c] {
    }
  }

  /** The bytes of live objects never overlap. */
  lemma LiveObjectsApart(pages: seq<Page>, contents: map<int, Obj>, c: int, d: int)
    requires SlotsOk(pages, contents) && c in contents && d in contents && c != d
    ensures Apart(Region(c, contents[c].size), Region(d, contents[d].size))
  {
    assert ObjOk(pages, contents, c) && ObjOk(pages, contents, d);
    var a, b := contents[c], contents[d];
    if a.page < 0 && b.page < 0 {
      assert Direct(contents, c) && Direct(contents, d);
    } else if a.page < 0 {
      InOwnPage(pages, contents, d);
      assert Apart(Region(c, a.size), RegionOf(pages[b.page]));
    } else if b.page < 0 {
      InOwnPage(pages, contents, c);
      assert Apart(Region(d, b.size), RegionOf(pages[a.page]));
    } else if a.page == b.page {
      var i: nat :| InSlot(pages[a.page], a, i);
      var j: nat :| InSlot(pages[b.page], b, j);
      Gap(i, j, pages[a.page].slotSize);
      Gap(j, i, pages[a.page].slotSize);
      assert PageOk(pages, contents, a.page);
    } else {
      InOwnPage(pages, contents, c);
      InOwnPage(pages, contents, d);
      var lo, hi := if a.page < b.page then a.page else b.page, if a.page < b.page then b.page else a.page;
      assert Apart(RegionOf(pages[lo]), RegionOf(pages[hi]));
    }
  }

  lemma InOwnPage(pages: seq<Page>, contents: map<int, Obj>, d: int)
    requires SlotsOk(pages, contents) && d in contents && contents[d].page >= 0
    ensures contents[d].page < |pages|
    ensures
      var r := RegionOf(pages[contents[d].page]);
      r.lo <= d && d + contents[d].size <= r.lo + r.len
  {
    assert ObjOk(pages, contents, d);
    var i: nat :| InSlot(pages[contents[d].page], contents[d], i);
    SlotInRegion(pages[contents[d].page], i);
  }

  // ---------------------------------------------------------------- the pool

  /** Clears the lowest element. */
  method PopFirst(mask: set<nat>) returns (slot: nat)
    requires mask != {} && forall i :: i in mask ==> i < 64
    ensures Lowest(mask, slot)
  {
    slot := 0;
    ghost var some :| some in mask;
    while slot !in mask
      invariant slot <= some && forall i :: i in mask ==> slot <= i
      decreases some - slot
    {
      slot := slot + 1;
    }
  }

  ghost predicate TwoFree(mask: set<nat>) {
    exists s, t :: s in mask && t in mask && s != t
  }

  lemma OneLeft(mask: set<nat>, slot: nat)
    requires TwoFree(mask)
    ensures mask - {slot} != {}
  {
    var s, t :| s in mask && t in mask && s != t;
    assert s in mask - {slot} || t in mask - {slot};
  }

  /** How looking up an address ends. Before the first allocation there is no table, and the code reads through a null
      pointer. */
  datatype Lookup = Success | Unknown | NoTable

  function LookupOf(dev: int, hbits: nat, contents: map<int, Obj>): Lookup {
    if dev == 0 then Success else if hbits == 0 then NoTable else if dev in contents then Success else Unknown
  }

  /** The size of the table once another object is to be entered: it is made with 16 buckets, and doubled when there
      would be more than two objects per bucket. */
  function BitsFor(hbits: nat, count: nat): nat {
    var bits := if hbits == 0 then 4 else hbits;
    if count + 1 > 2 * Pow2(bits) then bits + 1 else bits
  }

  class Pool {
    const hash: Hash
    var hbits: nat
    var count: nat
    var table: seq<seq<Obj>>
    var pages: seq<Page>
    var head: int
    ghost var list: seq<int>
    ghost var contents: map<int, Obj>

    ghost predicate TableValid()
      reads this
    {
      && HashOk(hash) && count == |contents|
      && (if hbits == 0 then table == [] && contents == map[]
          else TableOk(hash, hbits, table, contents) && count <= 2 * Pow2(hbits))
    }

    ghost predicate Valid()
      reads this
    {
      TableValid() && PagesOk(pages, head, list) && SlotsOk(pages, contents)
    }

    constructor (hash: Hash)
      requires HashOk(hash)
      ensures Valid() && contents == map[] && pages == [] && hbits == 0
    {
      this.hash := hash;
      hbits, count, table, pages, head, list, contents := 0, 0, [], [], -1, [], map[];
    }

    /** The first page of the list with slots of this size, and the link that leads to it; -1 when there is none. */
    method FindPage(slotSize: nat) returns (link: Link, page: int, ghost i: nat)
      requires PagesOk(pages, head, list)
      ensures i <= |list| && link == LinkTo(list, i) && page == if i < |list| then list[i] else -1
      ensures page != -1 ==> 0 <= page < |pages| && pages[page].slotSize == slotSize
      ensures forall j :: 0 <= j < i ==> pages[list[j]].slotSize != slotSize
    {
      link, page, i := Head, head, 0;
      while page != -1 && pages[page].slotSize != slotSize
        invariant i <= |list| && link == LinkTo(list, i) && page == if i < |list| then list[i] else -1
        invariant forall j :: 0 <= j < i ==> pages[list[j]].slotSize != slotSize
        decreases |list| - i
      {
        assert pages[list[i]].next == After(list, i);
        link, page := NextOf(page), pages[page].next;
        i := i + 1;
      }
    }

    /** Adds a page on fresh memory in front of the list. */
    method AddNewPage(slotSize: nat, base: nat) returns (page: int)
      requires PagesOk(pages, head, list) && slotSize > 0 && PageCapacity(slotSize) > 0
      modifies this`pages, this`head, this`list
      ensures page == |old(pages)|
      ensures pages == old(pages) + [Page(old(head), slotSize, AllSlots(PageCapacity(slotSize)), base)]
      ensures PagesOk(pages, head, list) && list == [page] + old(list)
    {
      page := |pages|;
      var fresh0 := Page(head, slotSize, AllSlots(PageCapacity(slotSize)), base);
      assert 0 in fresh0.freeMask;
      AddPage(pages, head, list, fresh0);
      pages, head := pages + [fresh0], page;
      list := [page] + list;
    }

    /** Takes the first free slot of the page; a page that becomes full leaves the list through the link that led to it.
        For a page just created the link is stale, but such a page keeps a free slot. */
    method TakeFrom(page: int, link: Link, ghost i: nat) returns (slot: nat)
      requires PagesOk(pages, head, list) && page in list && 0 <= page < |pages|
      requires forall s :: s in pages[page].freeMask ==> s < 64
      requires (i < |list| && list[i] == page && link == LinkTo(list, i)) || TwoFree(pages[page].freeMask)
      modifies this`pages, this`head, this`list
      ensures Lowest(old(pages)[page].freeMask, slot)
      ensures PagesOk(pages, head, list) && MaskChange(old(pages), pages, page, old(pages)[page].freeMask - {slot})
      ensures Popped(old(pages), old(list), pages, list, page, i, slot)
    {
      slot := PopFirst(pages[page].freeMask);
      var mask := pages[page].freeMask - {slot};
      ghost var was := pages;
      pages := pages[page := pages[page].(freeMask := mask)];
      if TwoFree(was[page].freeMask) {
        OneLeft(was[page].freeMask, slot);
      }
      if mask == {} {
        match link {
          case Head =>
            UnlinkHead(was, head, list);
            assert Without(list, 0) == list[1..];
            head := pages[page].next;
          case NextOf(prev) =>
            UnlinkInside(was, head, list, i);
            pages := pages[prev := pages[prev].(next := pages[page].next)];
        }
        list := Without(list, i);
      } else {
        MaskKeepsList(was, head, list, page, mask);
      }
    }

    /** Makes the table, or doubles it, so that one more object keeps at most two objects per bucket. */
    method EnsureRoom()
      requires TableValid()
      modifies this`hbits, this`table
      ensures TableValid() && hbits > 0 && count + 1 <= 2 * Pow2(hbits) && hbits == BitsFor(old(hbits), count)
    {
      if hbits == 0 {
        hbits := 4;
        table := NewTable(hash, 4, contents);
        SixteenBuckets();
      }
      if count + 1 > 2 * Pow2(hbits) {
        table := Double(hash, hbits, table, contents);
        hbits := hbits + 1;
      }
    }

    /** A page with a free slot of this size: the first of the list, or a new one. */
    method ChoosePage(size: nat, devMem: nat) returns (page: int, link: Link, ghost i: nat)
      requires size > 0 && UsesPage(size) && PagesOk(pages, head, list) && SlotsOk(pages, contents)
      requires FreshRegion(pages, contents, Region(devMem, PageCapacity(SlotSize(size)) * SlotSize(size)))
      modifies this`pages, this`head, this`list
      ensures PagesOk(pages, head, list) && SlotsOk(pages, contents) && page in list && 0 <= page < |pages|
      ensures Chosen(old(pages), old(list), pages, list, SlotSize(size), devMem, page, i)
      ensures (i < |list| && list[i] == page && link == LinkTo(list, i)) || TwoFree(pages[page].freeMask)
    {
      CapacityBounds(size);
      link, page, i := FindPage(SlotSize(size));
      if page == -1 {
        page := AddNewPage(SlotSize(size), devMem);
        NewPageKeeps(old(pages), contents, pages[page]);
        assert 0 in pages[page].freeMask && 1 in pages[page].freeMask;
      }
    }

    /** A free slot for an object. */
    method TakeSlot(size: nat, devMem: nat, ghost host: int) returns (page: int, dev: int)
      requires size > 0 && UsesPage(size) && PagesOk(pages, head, list) && SlotsOk(pages, contents)
      requires FreshRegion(pages, contents, Region(devMem, PageCapacity(SlotSize(size)) * SlotSize(size)))
      modifies this`pages, this`head, this`list
      ensures PagesOk(pages, head, list) && page >= 0 && dev > 0 && dev !in contents
      ensures SlotsOk(pages, contents[dev := Obj(dev, host, size, page)])
      ensures SlotTaken(old(pages), old(list), pages, list, SlotSize(size), devMem, page, dev)
    {
      var link;
      ghost var i;
      page, link, i := ChoosePage(size, devMem);
      assert PageOk(pages, contents, page);
      ghost var was, chosen := pages, list;
      var slot := TakeFrom(page, link, i);
      dev := DevOf(pages[page], slot);
      assert dev == DevOf(was[page], slot);
      TakeKeeps(was, pages, contents, page, slot, Obj(dev, host, size, page));
      ChosenTaken(old(pages), old(list), was, chosen, pages, list, SlotSize(size), devMem, page, i, slot);
    }

    /** Allocates an object and its shadow. Size zero gives no object. devMem is where the driver would place new device
        memory, host where the shadow is. */
    method Alloc(size: nat, devMem: nat, host: int) returns (outDev: int, outHost: int)
      requires Valid()
      requires size > 0 ==>
                 var bytes := if UsesPage(size) then PageCapacity(SlotSize(size)) * SlotSize(size) else size;
                 FreshRegion(pages, contents, Region(devMem, bytes))
      modifies this
      ensures Valid()
      ensures size == 0 ==>
                outDev == 0 && outHost == 0 && contents == old(contents) && pages == old(pages) && hbits == old(hbits)
      ensures size > 0 ==>
                && hbits > 0 && outDev > 0 && outDev !in old(contents) && outHost == host
                && contents.Keys == old(contents).Keys + {outDev}
                && contents[outDev].host == host && contents[outDev].size == size
                && forall d :: d in old(contents) ==> contents[d] == old(contents)[d]
      ensures size > 0 ==> hbits == BitsFor(old(hbits), old(count))
      ensures size > 0 && UsesPage(size) ==>
                && SlotTaken(old(pages), old(list), pages, list, SlotSize(size), devMem, contents[outDev].page, outDev)
                && |pages| == |old(pages)| + if HasFree(old(pages), SlotSize(size)) then 0 else 1
      ensures size > 0 && !UsesPage(size) ==>
                outDev == devMem && contents[outDev].page < 0 && pages == old(pages) && list == old(list)
    {
      if size == 0 {
        return 0, 0;
      }
      EnsureRoom();
      var page := -1;
      outDev, outHost := devMem, host;
      if UsesPage(size) {
        page, outDev := TakeSlot(size, devMem, host);
        PageAdded(old(pages), old(head), old(list), pages, list, SlotSize(size), devMem, page, outDev);
      } else {
        DirectKeeps(pages, contents, Obj(devMem, host, size, -1));
      }
      Register(Obj(outDev, host, size, page));
    }

    /** Enters a new object into the table. */
    method Register(o: Obj)
      requires TableValid() && hbits > 0 && count + 1 <= 2 * Pow2(hbits) && o.dev !in contents
      modifies this`count, this`table, this`contents
      ensures TableValid() && contents == old(contents)[o.dev := o]
    {
      NewContents(hash, hbits, table, contents, o);
      InsertKeeps(hash, hbits, table, contents[o.dev := o], contents.Keys, o);
      assert contents[o.dev := o].Keys == contents.Keys + {o.dev};
      table := Insert(hash, hbits, table, o);
      count := count + 1;
      contents := contents[o.dev := o];
    }

    /** Takes an object out of the table. */
    method Unregister(b: nat, j: nat)
      requires TableValid() && hbits > 0 && b < |table| && j < |table[b]|
      modifies this`count, this`table, this`contents
      ensures TableValid() && old(table)[b][j].dev in old(contents)
      ensures contents == old(contents) - {old(table)[b][j].dev}
    {
      RemoveKeeps(hash, hbits, table, contents, b, j);
      ghost var dev := table[b][j].dev;
      assert contents.Keys == (contents - {dev}).Keys + {dev};
      contents := contents - {dev};
      table := table[b := Without(table[b], j)];
      count := count - 1;
    }

    /** Releases an object. An address that is not the device address of a live object is reported, once there is a
        table to look it up in. */
    method Free(dev: int) returns (res: Lookup)
      requires Valid()
      modifies this
      ensures Valid() && hbits == old(hbits)
      ensures res == LookupOf(dev, old(hbits), old(contents))
      ensures contents == if dev != 0 && res == Success then old(contents) - {dev} else old(contents)
      ensures if dev != 0 && res == Success && old(contents)[dev].page >= 0 then
                SlotGiven(old(pages), old(list), pages, list, old(contents)[dev].page, dev)
              else pages == old(pages) && list == old(list)
    {
      if dev == 0 {
        return Success;
      }
      if hbits == 0 {
        return NoTable;
      }
      var b, j := Find(hash, hbits, table, dev, contents);
      res := if j < |table[b]| then Success else Unknown;
      if res == Success {
        var obj := table[b][j];
        assert ObjOk(pages, contents, dev);
        if obj.page >= 0 {
          GiveSlot(obj);
        } else {
          assert Direct(contents, dev);
          ReleaseKeeps(pages, contents, dev);
        }
        Unregister(b, j);
      }
    }

    /** Puts the object's slot back; a page that was full returns to the front of the list. */
    method GiveSlot(obj: Obj)
      requires PagesOk(pages, head, list) && SlotsOk(pages, contents) && obj.dev in contents && contents[obj.dev] == obj
      requires 0 <= obj.page < |pages| && exists i: nat :: InSlot(pages[obj.page], obj, i)
      modifies this`pages, this`head, this`list
      ensures PagesOk(pages, head, list) && SlotsOk(pages, contents - {obj.dev})
      ensures SlotGiven(old(pages), old(list), pages, list, obj.page, obj.dev)
    {
      ghost var i: nat :| InSlot(pages[obj.page], obj, i);
      assert PageOk(pages, contents, obj.page);
      var p, page, was := obj.page, pages[obj.page], pages;
      MulDivMod(i, page.slotSize, 0);
      var slot := (obj.dev - page.base) / page.slotSize;
      var mask := page.freeMask + {slot};
      assert slot in mask;
      if page.freeMask == {} {
        LinkFront(pages, head, list, p, mask);
        pages := pages[p := page.(freeMask := mask, next := head)];
        head := p;
        list := [p] + list;
      } else {
        MaskKeepsList(pages, head, list, p, mask);
        pages := pages[p := page.(freeMask := mask)];
      }
      GiveKeeps(was, pages, contents, obj.dev, i);
    }

    /** The host shadow of a device object. */
    method ToHost(dev: int) returns (res: Lookup, host: int)
      requires Valid()
      ensures res == LookupOf(dev, hbits, contents)
      ensures res == Success ==> host == if dev == 0 then 0 else contents[dev].host
    {
      if dev == 0 {
        return Success, 0;
      }
      if hbits == 0 {
        return NoTable, 0;
      }
      var b, j := Find(hash, hbits, table, dev, contents);
      res, host := if j < |table[b]| then Success else Unknown, 0;
      if res == Success {
        host := table[b][j].host;
      }
    }
  }

  lemma TakenListed(pages: seq<Page>, list: seq<int>, pages': seq<Page>, list': seq<int>, i: nat, slot: nat)
    requires i < |list| && 0 <= list[i] < |pages| && Lowest(pages[list[i]].freeMask, slot)
    requires MaskChange(pages, pages', list[i], pages[list[i]].freeMask - {slot})
    requires TwoFree(pages[list[i]].freeMask) ==> list' == list
    requires !TwoFree(pages[list[i]].freeMask) ==> pages[list[i]].freeMask == {slot} && list' == Without(list, i)
    ensures FromListed(pages, list, pages', list', i, DevOf(pages'[list[i]], slot))
  {
    var mask := pages[list[i]].freeMask;
    if TwoFree(mask) {
      OneLeft(mask, slot);
    }
  }

  lemma TakenNew(pages: seq<Page>, list: seq<int>, was: seq<Page>, pages': seq<Page>, list': seq<int>, slotSize: nat,
                 devMem: nat, slot: nat)
    requires slotSize > 0 && PageCapacity(slotSize) >= 2
    requires exists head :: was == pages + [Page(head, slotSize, AllSlots(PageCapacity(slotSize)), devMem)]
    requires Lowest(was[|pages|].freeMask, slot) && MaskChange(was, pages', |pages|, was[|pages|].freeMask - {slot})
    requires pages'[..|pages|] == pages
    requires TwoFree(was[|pages|].freeMask) ==> list' == [|pages|] + list
    ensures FromNew(pages, list, pages', list', slotSize, devMem, DevOf(pages'[|pages|], slot))
  {
    assert 0 in was[|pages|].freeMask && 1 in was[|pages|].freeMask;
  }

  lemma ChosenTaken(pages: seq<Page>, list: seq<int>, was: seq<Page>, chosen: seq<int>, pages': seq<Page>,
                    list': seq<int>, slotSize: nat, devMem: nat, page: int, i: nat, slot: nat)
    requires Chosen(pages, list, was, chosen, slotSize, devMem, page, i)
    requires Lowest(was[page].freeMask, slot) && MaskChange(was, pages', page, was[page].freeMask - {slot})
    requires Popped(was, chosen, pages', list', page, i, slot)
    ensures SlotTaken(pages, list, pages', list', slotSize, devMem, page, DevOf(pages'[page], slot))
  {
    if i < |list| {
      TakenListed(was, list, pages', list', i, slot);
    } else {
      assert 0 in was[page].freeMask && 1 in was[page].freeMask;
      TakenNew(pages, list, was, pages', list', slotSize, devMem, slot);
    }
  }

  lemma SixteenBuckets()
    ensures Pow2(4) == 16
  {
    assert Pow2(1) == 2 && Pow2(2) == 4 && Pow2(3) == 8;
  }
}
