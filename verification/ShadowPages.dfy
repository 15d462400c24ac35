/** Pages of the shadow pool: blocks of equally sized slots, those with a free slot linked in a list. */
module ShadowPages {
  import opened Arith
  import opened Seqs

  const PAGE_BYTES := 65536

  function Log2Down(x: nat): (k: nat)
    requires x > 0
    ensures Pow2(k) <= x < 2 * Pow2(k)
  {
    if x == 1 then 0 else 1 + Log2Down(x / 2)
  }

  /** Small objects share pages. */
  predicate UsesPage(size: nat)
    requires size > 0
  {
    PAGE_BYTES / size >= 3
  }

  /** The slot size: at most four significant bits. */
  function SlotSize(size: nat): nat
    requires size > 0
    ensures SlotSize(size) >= size
  {
    var granule := Pow2(if Log2Down(size) + 1 < 4 then 0 else Log2Down(size) + 1 - 4);
    AlignUpProps(size, granule);
    AlignUp(size, granule)
  }

  /** s has at most four significant bits. */
  ghost predicate FourBits(s: nat, m: nat, j: nat) {
    m < 16 && s == m * Pow2(j)
  }

  /** The slot size is the least size of at most four significant bits that holds the object. */
  lemma SlotSizeMeaning(size: nat) returns (m: nat, j: nat)
    requires size > 0
    ensures FourBits(SlotSize(size), m, j)
    ensures forall s: nat, n: nat, i: nat :: size <= s && FourBits(s, n, i) ==> SlotSize(size) <= s
  {
    m, j := SlotSizeBits(size);
    forall s: nat, n: nat, i: nat | size <= s && FourBits(s, n, i) ensures SlotSize(size) <= s {
      var k := Log2Down(size);
      var g: nat := if k + 1 < 4 then 0 else k + 1 - 4;
      FourBitsAbove(size, g, k, s, n, i);
      AlignUpLeast(size, Pow2(g), s);
    }
  }

  lemma SlotSizeBits(size: nat) returns (m: nat, j: nat)
    requires size > 0
    ensures FourBits(SlotSize(size), m, j)
  {
    var k := Log2Down(size);
    var g: nat := if k + 1 < 4 then 0 else k + 1 - 4;
    var p := Pow2(g);
    SixteenGranules(k, g);
    AlignUpProps(size, p);
    AlignUpLeast(size, p, 16 * p);
    m, j := Factor(SlotSize(size), g);
  }

  /** A multiple of 2^g up to 16 times 2^g has at most four significant bits. */
  lemma Factor(s: nat, g: nat) returns (m: nat, j: nat)
    requires s % Pow2(g) == 0 && s <= 16 * Pow2(g)
    ensures FourBits(s, m, j)
  {
    m, j := s / Pow2(g), g;
    assert s == m * Pow2(g);
    if m >= 16 {
      MulMono(16, m, Pow2(g));
      SixteenTimes(g);
      m, j := 1, g + 4;
    }
  }

  lemma SixteenTimes(g: nat)
    ensures Pow2(g + 4) == 16 * Pow2(g)
  {
    assert Pow2(g + 4) == 2 * Pow2(g + 3) && Pow2(g + 3) == 2 * Pow2(g + 2) && Pow2(g + 2) == 2 * Pow2(g + 1);
  }

  lemma SixteenGranules(k: nat, g: nat)
    requires g == if k + 1 < 4 then 0 else k + 1 - 4
    ensures 2 * Pow2(k) <= 16 * Pow2(g) && (16 * Pow2(g)) % Pow2(g) == 0
    ensures g > 0 ==> 8 * Pow2(g) == Pow2(k)
  {
    MulDivMod(16, Pow2(g), 0);
    if k >= 3 {
      assert Pow2(k) == 2 * Pow2(k - 1) && Pow2(k - 1) == 2 * Pow2(k - 2) && Pow2(k - 2) == 2 * Pow2(k - 3);
    } else {
      assert Pow2(0) == 1 && Pow2(1) == 2 && Pow2(2) == 4;
    }
  }

  /** A number of four significant bits that is not smaller is a multiple of the granule. */
  lemma FourBitsAbove(size: nat, g: nat, k: nat, s: nat, n: nat, i: nat)
    requires Pow2(k) <= size <= s && FourBits(s, n, i) && g == if k + 1 < 4 then 0 else k + 1 - 4
    ensures s % Pow2(g) == 0
  {
    GranuleFits(size, g, k, s, n, i);
    var q := Pow2Multiple(g, i);
    MultipleOf(n, q, Pow2(g));
  }

  lemma MultipleOf(n: nat, q: nat, p: nat)
    requires p > 0
    ensures (n * (q * p)) % p == 0
  {
    assert n * (q * p) == (n * q) * p;
    MulDivMod(n * q, p, 0);
  }

  lemma GranuleFits(size: nat, g: nat, k: nat, s: nat, n: nat, i: nat)
    requires Pow2(k) <= size <= s && FourBits(s, n, i) && g == if k + 1 < 4 then 0 else k + 1 - 4
    ensures g <= i
  {
    SixteenGranules(k, g);
    MulMono(n, 15, Pow2(i));
    if i < g {
      var q := Pow2Multiple(i + 1, g);
      MulMono(1, q, Pow2(i + 1));
    }
  }

  lemma {:induction false} Pow2Multiple(a: nat, b: nat) returns (q: nat)
    requires a <= b
    ensures Pow2(b) == q * Pow2(a) && q >= 1
  {
    if a == b {
      q := 1;
    } else {
      var r := Pow2Multiple(a, b - 1);
      q := 2 * r;
      assert q * Pow2(a) == 2 * (r * Pow2(a));
    }
  }

  /** Slots of a new page. */
  function PageCapacity(slotSize: nat): nat
    requires slotSize > 0
  {
    (if PAGE_BYTES < 64 * slotSize then PAGE_BYTES else 64 * slotSize) / slotSize
  }

  /** Rounding adds less than an eighth. */
  lemma SlotSizeBound(size: nat)
    requires size > 0
    ensures 8 * SlotSize(size) <= 9 * size
  {
    var k := Log2Down(size);
    var granule := Pow2(if k + 1 < 4 then 0 else k + 1 - 4);
    AlignUpProps(size, granule);
    if k >= 3 {
      assert Pow2(k) == 2 * Pow2(k - 1) && Pow2(k - 1) == 2 * Pow2(k - 2) && Pow2(k - 2) == 2 * Pow2(k - 3);
    }
  }

  /** Every page holds between 2 and 64 objects, so taking the first slot of a new page never fills it. */
  lemma CapacityBounds(size: nat)
    requires size > 0 && UsesPage(size)
    ensures 2 <= PageCapacity(SlotSize(size)) <= 64
    ensures PageCapacity(SlotSize(size)) * SlotSize(size) <= PAGE_BYTES
    ensures PageCapacity(SlotSize(size)) == 64 || (PageCapacity(SlotSize(size)) + 1) * SlotSize(size) > PAGE_BYTES
  {
    var s := SlotSize(size);
    SlotSizeBound(size);
    UsesPageBound(size);
    if PAGE_BYTES < 64 * s {
      assert PAGE_BYTES == (PAGE_BYTES / s) * s + PAGE_BYTES % s;
      MulMono(PAGE_BYTES / s, 1, s);
      Distribute(PAGE_BYTES / s, 1, s);
      MulMono(64, PAGE_BYTES / s, s);
    } else {
      MulDivMod(64, s, 0);
    }
  }

  /** Objects are small when three of them fit into a page. */
  lemma UsesPageBound(size: nat)
    requires size > 0
    ensures UsesPage(size) <==> 3 * size <= PAGE_BYTES
  {
    assert PAGE_BYTES == (PAGE_BYTES / size) * size + PAGE_BYTES % size;
    MulMono(3, PAGE_BYTES / size, size);
    MulMono(PAGE_BYTES / size, 2, size);
  }

  // ---------------------------------------------------------------- the page list

  /** A page; freeMask is the set of its free slots, next the index of the next page of the list or -1. */
  datatype Page = Page(next: int, slotSize: nat, freeMask: set<nat>, base: nat)

  /** Where a page's link is kept: the head of the list, or another page. */
  datatype Link = Head | NextOf(page: int)

  ghost predicate ListOk(pages: seq<Page>, head: int, s: seq<int>) {
    && head == (if s == [] then -1 else s[0])
    && (forall i :: 0 <= i < |s| ==> 0 <= s[i] < |pages|)
    && forall i: nat {:trigger After(s, i)} :: i < |s| ==> pages[s[i]].next == After(s, i)
  }

  /** The list holds exactly the pages with a free slot. */
  ghost predicate PagesOk(pages: seq<Page>, head: int, s: seq<int>) {
    && ListOk(pages, head, s) && Distinct(s)
    && forall p :: p in s <==> 0 <= p < |pages| && pages[p].freeMask != {}
  }

  /** The link that leads to the i-th page of the list. */
  function LinkTo(s: seq<int>, i: nat): Link
    requires i <= |s|
  {
    if i == 0 then Head else NextOf(s[i - 1])
  }

  /** A slot was taken or given back without the page entering or leaving the list. */
  lemma MaskKeepsList(pages: seq<Page>, head: int, s: seq<int>, p: int, mask: set<nat>)
    requires PagesOk(pages, head, s) && p in s && 0 <= p < |pages| && mask != {}
    ensures PagesOk(pages[p := pages[p].(freeMask := mask)], head, s)
  {
    var pages' := pages[p := pages[p].(freeMask := mask)];
    forall i: nat | i < |s| ensures pages'[s[i]].next == After(s, i) {
      assert pages[s[i]].next == After(s, i);
    }
  }

  /** A page that became full is unlinked from where it was found. */
  lemma UnlinkHead(pages: seq<Page>, head: int, s: seq<int>)
    requires PagesOk(pages, head, s) && s != [] && 0 <= s[0] < |pages|
    ensures PagesOk(pages[s[0] := pages[s[0]].(freeMask := {})], pages[s[0]].next, s[1..])
  {
    UnlinkedList(pages, head, s);
    var pages', t := pages[s[0] := pages[s[0]].(freeMask := {})], s[1..];
    assert s == [s[0]] + t && s[0] !in t;
    forall p ensures p in t <==> 0 <= p < |pages| && pages'[p].freeMask != {} {
      assert p in s <==> p == s[0] || p in t;
    }
  }

  lemma UnlinkedList(pages: seq<Page>, head: int, s: seq<int>)
    requires ListOk(pages, head, s) && Distinct(s) && s != [] && 0 <= s[0] < |pages|
    ensures Distinct(s[1..]) && ListOk(pages[s[0] := pages[s[0]].(freeMask := {})], pages[s[0]].next, s[1..])
  {
    var pages', t := pages[s[0] := pages[s[0]].(freeMask := {})], s[1..];
    assert pages[s[0]].next == After(s, 0);
    forall i: nat | i < |t| ensures pages'[t[i]].next == After(t, i) {
      assert t[i] == s[i + 1] && pages[s[i + 1]].next == After(s, i + 1);
    }
  }

  lemma UnlinkList(pages: seq<Page>, pages': seq<Page>, head: int, s: seq<int>, i: nat)
    requires ListOk(pages, head, s) && Distinct(s) && 0 < i < |s| && |pages'| == |pages|
    requires pages'[s[i - 1]].next == After(s, i)
    requires forall x :: 0 <= x < |pages| && x != s[i - 1] ==> pages'[x].next == pages[x].next
    ensures ListOk(pages', head, Without(s, i))
  {
    var t := Without(s, i);
    forall j: nat | j < |t| ensures pages'[t[j]].next == After(t, j) {
      AfterWithout(s, i, j);
      assert pages[s[Skipping(i, j)]].next == After(s, Skipping(i, j));
    }
  }

  lemma UnlinkInside(pages: seq<Page>, head: int, s: seq<int>, i: nat)
    requires PagesOk(pages, head, s) && 0 < i < |s| && 0 <= s[i] < |pages| && 0 <= s[i - 1] < |pages|
    ensures
      var full := pages[s[i] := pages[s[i]].(freeMask := {})];
      PagesOk(full[s[i - 1] := full[s[i - 1]].(next := pages[s[i]].next)], head, Without(s, i))
  {
    var full := pages[s[i] := pages[s[i]].(freeMask := {})];
    var pages' := full[s[i - 1] := full[s[i - 1]].(next := pages[s[i]].next)];
    assert pages[s[i]].next == After(s, i);
    WithoutMembers(s, i);
    UnlinkList(pages, pages', head, s, i);
  }

  /** A page joins the front of the list: a new one, or one that was full. */
  lemma LinkFront(pages: seq<Page>, head: int, s: seq<int>, p: int, mask: set<nat>)
    requires PagesOk(pages, head, s) && 0 <= p < |pages| && pages[p].freeMask == {} && mask != {}
    ensures PagesOk(pages[p := pages[p].(freeMask := mask, next := head)], p, [p] + s)
  {
    var pages', t := pages[p := pages[p].(freeMask := mask, next := head)], [p] + s;
    assert forall x :: x in t <==> x == p || x in s;
    forall i: nat | i < |t| ensures pages'[t[i]].next == After(t, i) {
      if i > 0 {
        assert t[i] == s[i - 1] && pages[s[i - 1]].next == After(s, i - 1);
      }
    }
  }

  lemma AddPage(pages: seq<Page>, head: int, s: seq<int>, page: Page)
    requires PagesOk(pages, head, s) && page.next == head && page.freeMask != {}
    ensures PagesOk(pages + [page], |pages|, [|pages|] + s)
  {
    var pages', t := pages + [page], [|pages|] + s;
    assert forall x :: x in t <==> x == |pages| || x in s;
    forall i: nat | i < |t| ensures pages'[t[i]].next == After(t, i) {
      if i > 0 {
        assert t[i] == s[i - 1] && pages[s[i - 1]].next == After(s, i - 1);
      }
    }
  }
}
