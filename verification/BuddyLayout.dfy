/** The block structure of a buddy arena, as a value: which blocks there are,
    what splitting and joining do to them, and why the structure is canonical. */
module BuddyLayout {
  import opened BuddyMath

  datatype Block = Block(order: Order, used: bool)

  type Blocks = map<nat, Block>

  /** The cells `[lo, hi)` that hold blocks; `top` is the largest order. The
      arena itself is the naturally aligned run of `hi` cells from 0. */
  datatype Region = Region(lo: nat, hi: nat, top: Order)

  predicate IsRegion(r: Region) {
    0 < r.lo < r.hi == 2 * Cells(r.top)
  }

  function End(bs: Blocks, o: nat): nat
    requires o in bs
  {
    o + Cells(bs[o].order)
  }

  predicate Placed(r: Region, o: nat, k: Order) {
    r.lo <= o && k <= r.top && Aligned(o, k) && o + Cells(k) <= r.hi
  }

  /** The block ends where the region does, or where another block starts. */
  predicate Abuts(r: Region, bs: Blocks, o: nat) {
    o in bs && (End(bs, o) == r.hi || End(bs, o) in bs)
  }

  predicate Apart(bs: Blocks, o: nat, p: nat) {
    o in bs && p in bs && o < p ==> End(bs, o) <= p
  }

  /** The blocks cover the region without gap or overlap, each naturally aligned. */
  ghost predicate Tiled(r: Region, bs: Blocks) {
    && IsRegion(r)
    && r.lo in bs
    && (forall o | o in bs :: Placed(r, o, bs[o].order))
    && (forall o {:trigger Abuts(r, bs, o)} | o in bs :: Abuts(r, bs, o))
    && (forall o, p {:trigger Apart(bs, o, p)} :: Apart(bs, o, p))
  }

  ghost predicate IsFree(bs: Blocks, o: nat, order: Order) {
    o in bs && bs[o] == Block(order, false)
  }

  /** No free block below the top order has a free sibling of its own order. */
  ghost predicate Canonical(r: Region, bs: Blocks) {
    forall o | o in bs && !bs[o].used && bs[o].order < r.top ::
      !IsFree(bs, Sibling(o, bs[o].order), bs[o].order)
  }

  function Live(bs: Blocks): map<nat, Order> {
    map o | o in bs && bs[o].used :: bs[o].order
  }

  // ---- Covering ----------------------------------------------------------

  predicate Covers(bs: Blocks, o: nat, c: nat) {
    o in bs && o <= c < End(bs, o)
  }

  lemma {:induction false} CoveringBlock(r: Region, bs: Blocks, c: nat) returns (o: nat)
    requires Tiled(r, bs) && r.lo <= c < r.hi
    ensures Covers(bs, o, c)
    decreases c
  {
    if c == r.lo {
      o := r.lo;
    } else {
      o := CoveringBlock(r, bs, c - 1);
      assert Abuts(r, bs, o);
      if End(bs, o) == c { o := c; }
    }
  }

  lemma SameBlock(r: Region, bs: Blocks, x: nat, y: nat, c: nat)
    requires Tiled(r, bs) && Covers(bs, x, c) && Covers(bs, y, c)
    ensures x == y
  {
    assert Apart(bs, x, y) && Apart(bs, y, x);
  }

  /** The sibling address of a block below the top order, once it is not below
      the region, is the start of a block, and of one no larger. */
  lemma SiblingIsBlock(r: Region, bs: Blocks, o: nat)
    requires Tiled(r, bs) && o in bs && bs[o].order < r.top
    requires Sibling(o, bs[o].order) >= r.lo
    ensures Sibling(o, bs[o].order) in bs
    ensures bs[Sibling(o, bs[o].order)].order <= bs[o].order
  {
    var k := bs[o].order;
    var s := Sibling(o, k);
    SiblingIsOtherHalf(o, k);
    var p := if s < o then s else o;
    ParentInRegion(r, p, k);
    var x := CoveringBlock(r, bs, s);
    var j := bs[x].order;
    if j <= k {
      AlignedInside(x, j, s, k);
    } else {
      // A larger block that covers the sibling also covers the block itself.
      AlignedDown(x, k + 1, j);
      if x <= p {
        AlignedNest(x, j, p, k + 1);
      } else {
        AlignedGap(p, x, k + 1);
      }
      SameBlock(r, bs, x, o, o);
    }
  }

  lemma ParentInRegion(r: Region, p: nat, k: Order)
    requires IsRegion(r) && k < r.top && Aligned(p, k + 1) && p < r.hi
    ensures p + Cells(k + 1) <= r.hi
  {
    RegionEndAligned(r, k + 1);
    AlignedGap(p, r.hi, k + 1);
  }

  lemma {:induction false} RegionEndAligned(r: Region, k: Order)
    requires IsRegion(r) && k <= r.top
    ensures Aligned(r.hi, k)
  {
    CellsAligned(r.top);
    AlignedStep(Cells(r.top), r.top);
    AlignedDown(r.hi, k, r.top);
  }

  // ---- Splitting and joining ---------------------------------------------

  /** A block cut in two; the upper half becomes free. */
  function Split(bs: Blocks, o: nat): Blocks
    requires o in bs && bs[o].order > MIN_ORDER
  {
    var k: Order := bs[o].order - 1;
    bs[o := Block(k, bs[o].used)][o + Cells(k) := Block(k, false)]
  }

  lemma SplitPlaced(r: Region, bs: Blocks, o: nat)
    requires Tiled(r, bs) && o in bs && bs[o].order > MIN_ORDER
    ensures var bs' := Split(bs, o);
            forall x | x in bs' :: Placed(r, x, bs'[x].order) && Abuts(r, bs', x)
  {
    hide Aligned, Sibling, Cells, Apart;
    var k: Order := bs[o].order - 1;
    SiblingOfHalves(o, k);
    CellsDouble(k);
    var bs' := Split(bs, o);
    assert Abuts(r, bs, o);
    forall x | x in bs' ensures Placed(r, x, bs'[x].order) && Abuts(r, bs', x) {
      if x != o && x != o + Cells(k) { assert Abuts(r, bs, x); }
    }
  }

  lemma SplitApart(r: Region, bs: Blocks, o: nat)
    requires Tiled(r, bs) && o in bs && bs[o].order > MIN_ORDER
    ensures o + Cells(bs[o].order - 1) !in bs
    ensures forall x, y {:trigger Apart(Split(bs, o), x, y)} :: Apart(Split(bs, o), x, y)
  {
    hide Aligned, Placed, Abuts;
    var h := o + Cells(bs[o].order - 1);
    assert Apart(bs, o, h);
    forall x, y ensures Apart(Split(bs, o), x, y) {
      assert Apart(bs, x, y) && Apart(bs, o, y) && Apart(bs, x, o) && Apart(bs, o, x);
    }
  }

  lemma SplitTiled(r: Region, bs: Blocks, o: nat)
    requires Tiled(r, bs) && o in bs && bs[o].order > MIN_ORDER
    ensures o + Cells(bs[o].order - 1) !in bs
    ensures Tiled(r, Split(bs, o))
  {
    hide Aligned, Cells, Placed;
    SplitPlaced(r, bs, o);
    SplitApart(r, bs, o);
  }

  lemma SplitCanonical(r: Region, bs: Blocks, o: nat)
    requires Tiled(r, bs) && Canonical(r, bs)
    requires o in bs && bs[o].order > MIN_ORDER && bs[o].used
    ensures Canonical(r, Split(bs, o))
  {
    var k: Order := bs[o].order - 1;
    SiblingOfHalves(o, k);
    var h := o + Cells(k);
    var bs' := Split(bs, o);
    forall x | x in bs' && !bs'[x].used && bs'[x].order < r.top
      ensures !IsFree(bs', Sibling(x, bs'[x].order), bs'[x].order)
    {
      var s := Sibling(x, bs'[x].order);
      if x != h {
        assert x in bs && bs[x] == bs'[x];
        if s == h && bs'[x].order == k {
          SiblingTwice(x, k);
        }
      }
    }
  }

  /** A block and its equal sibling replaced by their parent. */
  function Join(bs: Blocks, o: nat, s: nat): Blocks
    requires o in bs
  {
    (bs - {o, s})[(if s < o then s else o) := Block(bs[o].order + 1, bs[o].used)]
  }

  ghost predicate Joinable(r: Region, bs: Blocks, o: nat, s: nat) {
    && Tiled(r, bs) && o in bs && bs[o].order < r.top
    && s == Sibling(o, bs[o].order) && s in bs && bs[s].order == bs[o].order
  }

  lemma {:induction false} JoinPlaced(r: Region, bs: Blocks, p: nat, q: nat, k: Order)
    requires Tiled(r, bs) && p in bs && q in bs && p < q == p + Cells(k)
    requires bs[p].order == bs[q].order == k < r.top && Aligned(p, k + 1)
    ensures forall x | x in bs && x != p && x != q :: End(bs, x) != q
    ensures Abuts(r, bs, q) && Placed(r, p, k + 1)
  {
    ParentInRegion(r, p, k);
    forall x | x in bs && x != p && x != q ensures End(bs, x) != q {
      assert Apart(bs, x, p) && Apart(bs, p, x);
    }
  }

  lemma JoinTiled(r: Region, bs: Blocks, o: nat, s: nat)
    requires Joinable(r, bs, o, s)
    ensures Tiled(r, Join(bs, o, s))
  {
    hide Aligned, Cells;
    var k := bs[o].order;
    SiblingIsOtherHalf(o, k);
    var p, q := if s < o then s else o, if s < o then o else s;
    JoinPlaced(r, bs, p, q, k);
    JoinApart(r, bs, o, s, p, q);
    var bs' := Join(bs, o, s);
    CellsDouble(k);
    assert End(bs', p) == End(bs, q);
    forall x | x in bs' ensures Abuts(r, bs', x) {
      if x != p { assert Abuts(r, bs, x); }
    }
  }

  lemma JoinApart(r: Region, bs: Blocks, o: nat, s: nat, p: nat, q: nat)
    requires Joinable(r, bs, o, s) && p == (if s < o then s else o) && q == (if s < o then o else s)
    requires q == p + Cells(bs[o].order)
    ensures forall x, y {:trigger Apart(Join(bs, o, s), x, y)} :: Apart(Join(bs, o, s), x, y)
  {
    hide Aligned, Placed, Abuts, Sibling, Cells;
    var bs' := Join(bs, o, s);
    CellsDouble(bs[o].order);
    forall x, y ensures Apart(bs', x, y) {
      assert Apart(bs, x, y) && Apart(bs, q, y) && Apart(bs, x, p);
    }
  }

  lemma JoinCanonical(r: Region, bs: Blocks, o: nat, s: nat)
    requires Joinable(r, bs, o, s) && Canonical(r, bs) && bs[o].used
    ensures Canonical(r, Join(bs, o, s))
  {
    var bs' := Join(bs, o, s);
    var p := if s < o then s else o;
    forall x | x in bs' && !bs'[x].used && bs'[x].order < r.top
      ensures !IsFree(bs', Sibling(x, bs'[x].order), bs'[x].order)
    {
      assert x != p;
      assert bs'[x] == bs[x];
    }
  }

  lemma MarkTiled(r: Region, bs: Blocks, o: nat, used: bool)
    requires Tiled(r, bs) && o in bs
    ensures Tiled(r, bs[o := Block(bs[o].order, used)])
  {
    var bs' := bs[o := Block(bs[o].order, used)];
    forall x | x in bs' ensures Abuts(r, bs', x) { assert Abuts(r, bs, x); }
    forall x, y ensures Apart(bs', x, y) { assert Apart(bs, x, y); }
  }

  /** A block may become free where the merge loop stops. */
  lemma ReleaseCanonical(r: Region, bs: Blocks, o: nat)
    requires Tiled(r, bs) && Canonical(r, bs) && o in bs
    requires bs[o].order < r.top ==> !IsFree(bs, Sibling(o, bs[o].order), bs[o].order)
    ensures Canonical(r, bs[o := Block(bs[o].order, false)])
  {
    var k := bs[o].order;
    var bs' := bs[o := Block(k, false)];
    SiblingIsOtherHalf(o, k);
    forall x | x in bs' && !bs'[x].used && bs'[x].order < r.top
      ensures !IsFree(bs', Sibling(x, bs'[x].order), bs'[x].order)
    {
      if x != o && Sibling(x, bs'[x].order) == o && bs'[x].order == k {
        SiblingTwice(x, k);
      }
    }
  }

  // ---- Completeness ------------------------------------------------------

  ghost predicate FreeCell(bs: Blocks, c: nat) {
    exists o :: Covers(bs, o, c) && !bs[o].used
  }

  /** The naturally aligned run of one block of the given order is all free. */
  ghost predicate FreeRun(r: Region, bs: Blocks, p: nat, k: Order) {
    && r.lo <= p && Aligned(p, k) && p + Cells(k) <= r.hi
    && forall c | p <= c < p + Cells(k) :: FreeCell(bs, c)
  }

  lemma {:induction false} RunOrder(r: Region, p: nat, k: Order)
    requires IsRegion(r) && r.lo <= p && Aligned(p, k) && p + Cells(k) <= r.hi
    ensures k <= r.top
  {
    if k > r.top {
      CellsGrow(r.top, k);
    }
  }

  /** The two halves of a parent cannot both be free blocks. */
  lemma FreeHalvesClash(r: Region, bs: Blocks, p: nat, h: Order, o: nat, o2: nat)
    requires Canonical(r, bs) && h < r.top && Aligned(p, h + 1)
    requires o in bs && o2 in bs && Aligned(o, h) && Aligned(o2, h)
    requires o <= p < o + Cells(h) && o2 <= p + Cells(h) < o2 + Cells(h)
    ensures bs[o] == Block(h, false) ==> bs[o2] != Block(h, false)
  {
    SiblingOfHalves(p, h);
    AlignedInside(o, h, p, h);
    AlignedInside(o2, h, p + Cells(h), h);
  }

  /** A free run lies inside one free block: merging has left nothing to do. */
  lemma {:induction false} FreeRunInOneBlock(r: Region, bs: Blocks, p: nat, k: Order) returns (o: nat)
    requires Tiled(r, bs) && Canonical(r, bs) && FreeRun(r, bs, p, k)
    ensures o in bs && !bs[o].used && bs[o].order >= k
    ensures o <= p && p + Cells(k) <= End(bs, o)
    decreases k
  {
    RunOrder(r, p, k);
    if k == MIN_ORDER {
      assert FreeCell(bs, p);
      o :| Covers(bs, o, p) && !bs[o].used;
      AlignedNest(o, bs[o].order, p, k);
    } else {
      var h: Order := k - 1;
      SiblingOfHalves(p, h);
      var q := p + Cells(h);
      o := FreeRunInOneBlock(r, bs, p, h);
      var o2 := FreeRunInOneBlock(r, bs, q, h);
      if bs[o].order >= k {
        AlignedNest(o, bs[o].order, p, k);
      } else if bs[o2].order >= k {
        WholeContainsParent(r, bs, p, k, o2);
        o := o2;
      } else {
        FreeHalvesClash(r, bs, p, h, o, o2);
      }
    }
  }

  lemma {:induction false} WholeContainsParent(r: Region, bs: Blocks, p: nat, k: Order, o: nat)
    requires k > MIN_ORDER && Aligned(p, k)
    requires Tiled(r, bs) && o in bs && bs[o].order >= k
    requires o <= p + Cells(k - 1) < End(bs, o)
    ensures o <= p && p + Cells(k) <= End(bs, o)
  {
    AlignedDown(o, k, bs[o].order);
    if p < o { AlignedGap(p, o, k); }
    AlignedNest(o, bs[o].order, p, k);
  }

  // ---- The canonical form ------------------------------------------------

  lemma FreeBlockIsFreeRun(r: Region, bs1: Blocks, bs2: Blocks, o: nat)
    requires Tiled(r, bs1) && Tiled(r, bs2) && Live(bs1) == Live(bs2)
    requires o in bs1 && !bs1[o].used
    ensures FreeRun(r, bs2, o, bs1[o].order)
  {
    hide Aligned, Cells;
    forall c | o <= c < End(bs1, o)
      ensures FreeCell(bs2, c)
    {
      var x := CoveringBlock(r, bs2, c);
      if bs2[x].used {
        assert x in Live(bs2) && bs1[x] == Block(Live(bs1)[x], true);
        SameBlock(r, bs1, x, o, c);
      }
      assert Covers(bs2, x, c) && !bs2[x].used;
    }
  }

  lemma FreeBlocksAgree(r: Region, bs1: Blocks, bs2: Blocks, o: nat)
    requires Tiled(r, bs1) && Canonical(r, bs1) && Tiled(r, bs2) && Canonical(r, bs2)
    requires Live(bs1) == Live(bs2) && o in bs1 && !bs1[o].used
    ensures o in bs2 && bs2[o] == bs1[o]
  {
    FreeBlockIsFreeRun(r, bs1, bs2, o);
    var x := FreeRunInOneBlock(r, bs2, o, bs1[o].order);
    FreeBlockIsFreeRun(r, bs2, bs1, x);
    var y := FreeRunInOneBlock(r, bs1, x, bs2[x].order);
    assert Apart(bs1, y, o);
    assert Apart(bs1, o, y);
    assert Apart(bs2, x, o);
  }

  lemma BlockAgrees(r: Region, bs1: Blocks, bs2: Blocks, o: nat)
    requires Tiled(r, bs1) && Canonical(r, bs1) && Tiled(r, bs2) && Canonical(r, bs2)
    requires Live(bs1) == Live(bs2) && o in bs1
    ensures o in bs2 && bs2[o] == bs1[o]
  {
    if bs1[o].used {
      assert o in Live(bs1) && Live(bs1)[o] == Live(bs2)[o];
    } else {
      FreeBlocksAgree(r, bs1, bs2, o);
    }
  }

  /** The whole layout is a function of the live blocks. */
  lemma LiveDeterminesLayout(r: Region, bs1: Blocks, bs2: Blocks)
    requires Tiled(r, bs1) && Canonical(r, bs1) && Tiled(r, bs2) && Canonical(r, bs2)
    requires Live(bs1) == Live(bs2)
    ensures bs1 == bs2
  {
    forall o | o in bs1 ensures o in bs2 && bs2[o] == bs1[o] { BlockAgrees(r, bs1, bs2, o); }
    forall o | o in bs2 ensures o in bs1 && bs1[o] == bs2[o] { BlockAgrees(r, bs2, bs1, o); }
  }

  // ---- Releasing: the merge loop -------------------------------------------

  /** What the merge loop tests before it takes the sibling. */
  ghost predicate Mergeable(r: Region, bs: Blocks, o: nat) {
    o in bs && bs[o].order < r.top && IsFree(bs, Sibling(o, bs[o].order), bs[o].order)
  }

  /** The layout after the block at `o` is freed and merged as far as it goes. */
  ghost function Coalesce(r: Region, bs: Blocks, o: nat): Blocks
    requires Tiled(r, bs) && o in bs && bs[o].order <= r.top
    decreases r.top - bs[o].order
  {
    if Mergeable(r, bs, o) then
      var s := Sibling(o, bs[o].order);
      JoinTiled(r, bs, o, s);
      Coalesce(r, Join(bs, o, s), if s < o then s else o)
    else
      bs[o := Block(bs[o].order, false)]
  }

  lemma JoinLive(bs: Blocks, o: nat, s: nat)
    requires o in bs && s in bs && o != s && bs[o].used && !bs[s].used
    ensures var p := if s < o then s else o;
            Live(Join(bs, o, s)) == (Live(bs) - {o})[p := bs[o].order + 1]
  {
  }

  /** Freeing a block keeps the layout tiled and canonical, and takes exactly
      that block out of the live set. */
  lemma {:induction false} CoalesceFrees(r: Region, bs: Blocks, o: nat)
    requires Tiled(r, bs) && Canonical(r, bs)
    requires o in bs && bs[o].used && bs[o].order <= r.top
    ensures Tiled(r, Coalesce(r, bs, o)) && Canonical(r, Coalesce(r, bs, o))
    ensures Live(Coalesce(r, bs, o)) == Live(bs) - {o}
    decreases r.top - bs[o].order
  {
    hide Aligned, Cells, Tiled, Canonical;
    var k := bs[o].order;
    if Mergeable(r, bs, o) {
      var s := Sibling(o, k);
      var p := if s < o then s else o;
      JoinTiled(r, bs, o, s);
      JoinCanonical(r, bs, o, s);
      JoinLive(bs, o, s);
      CoalesceFrees(r, Join(bs, o, s), p);
      assert (Live(bs) - {o})[p := k + 1] - {p} == Live(bs) - {o};
    } else {
      MarkTiled(r, bs, o, false);
      ReleaseCanonical(r, bs, o);
      assert Live(bs[o := Block(k, false)]) == Live(bs) - {o};
    }
  }

  // ---- Taking: the split loop ------------------------------------------------

  function SplitDown(bs: Blocks, o: nat, want: Order): Blocks
    requires o in bs
    decreases bs[o].order
  {
    if bs[o].order > want then SplitDown(Split(bs, o), o, want) else bs
  }

  /** The layout after a free block is taken and cut down to the wanted order. */
  function Take(bs: Blocks, o: nat, want: Order): Blocks
    requires o in bs
  {
    SplitDown(bs[o := Block(bs[o].order, true)], o, want)
  }

  lemma SplitLive(bs: Blocks, o: nat)
    requires o in bs && bs[o].order > MIN_ORDER && bs[o].used
    requires o + Cells(bs[o].order - 1) !in bs
    ensures Live(Split(bs, o)) == Live(bs)[o := bs[o].order - 1]
  {
  }

  lemma {:induction false} SplitDownKeeps(r: Region, bs: Blocks, o: nat, want: Order)
    requires Tiled(r, bs) && Canonical(r, bs) && o in bs && bs[o].used && want <= bs[o].order
    ensures Tiled(r, SplitDown(bs, o, want)) && Canonical(r, SplitDown(bs, o, want))
    ensures Live(SplitDown(bs, o, want)) == Live(bs)[o := want]
    decreases bs[o].order
  {
    hide Aligned, Cells, Tiled, Canonical;
    if bs[o].order > want {
      SplitTiled(r, bs, o);
      SplitCanonical(r, bs, o);
      SplitLive(bs, o);
      SplitDownKeeps(r, Split(bs, o), o, want);
    }
  }

  /** Taking a free block keeps the layout tiled and canonical, and adds exactly
      that block, at the wanted order, to the live set. */
  lemma TakeAllocates(r: Region, bs: Blocks, o: nat, want: Order)
    requires Tiled(r, bs) && Canonical(r, bs) && o in bs && !bs[o].used && want <= bs[o].order
    ensures Tiled(r, Take(bs, o, want)) && Canonical(r, Take(bs, o, want))
    ensures Live(Take(bs, o, want)) == Live(bs)[o := want]
  {
    hide Aligned, Cells, Tiled, Canonical;
    var bs' := bs[o := Block(bs[o].order, true)];
    MarkTiled(r, bs, o, true);
    MarkUsedCanonical(r, bs, o);
    SplitDownKeeps(r, bs', o, want);
    assert Live(bs') == Live(bs)[o := bs[o].order];
  }

  lemma MarkUsedCanonical(r: Region, bs: Blocks, o: nat)
    requires Canonical(r, bs) && o in bs
    ensures Canonical(r, bs[o := Block(bs[o].order, true)])
  {
  }

  // ---- Counting ---------------------------------------------------------------

  datatype Tally = Tally(usedBytes: nat, freeBytes: nat, live: nat, free: nat) {
    function Plus(t: Tally): Tally {
      Tally(usedBytes + t.usedBytes, freeBytes + t.freeBytes, live + t.live, free + t.free)
    }
  }

  const NOTHING := Tally(0, 0, 0, 0)

  /** `1 << k`: the block's size in bytes. */
  function Bytes(k: Order): nat { 16 * Cells(k) }

  function TallyOf(b: Block): Tally {
    if b.used then Tally(Bytes(b.order), 0, 1, 0) else Tally(0, Bytes(b.order), 0, 1)
  }

  /** Totals over the blocks from `o` to the end of the region, in address order. */
  ghost function Walk(r: Region, bs: Blocks, o: nat): Tally
    requires Tiled(r, bs) && (o == r.hi || o in bs)
    decreases if o <= r.hi then r.hi - o else 0
  {
    if o == r.hi then NOTHING
    else assert Abuts(r, bs, o); TallyOf(bs[o]).Plus(Walk(r, bs, End(bs, o)))
  }

  ghost predicate Agree(bs: Blocks, bs': Blocks, o: nat) {
    (o in bs <==> o in bs') && (o in bs ==> bs[o] == bs'[o])
  }

  lemma {:induction false} WalkStep(r: Region, bs: Blocks, o: nat)
    requires Tiled(r, bs) && o in bs
    ensures End(bs, o) == r.hi || End(bs, o) in bs
    ensures Walk(r, bs, o) == TallyOf(bs[o]).Plus(Walk(r, bs, End(bs, o)))
  {
    assert Abuts(r, bs, o) && Placed(r, o, bs[o].order);
  }

  lemma {:induction false} WalkEnd(r: Region, bs: Blocks)
    requires Tiled(r, bs)
    ensures Walk(r, bs, r.hi) == NOTHING
  {
    hide Tiled;
  }

  lemma {:induction false} WalkAbove(r: Region, bs: Blocks, bs': Blocks, o: nat)
    requires Tiled(r, bs) && Tiled(r, bs') && (o == r.hi || o in bs)
    requires forall x: nat | x >= o :: Agree(bs, bs', x)
    ensures (o == r.hi || o in bs') && Walk(r, bs, o) == Walk(r, bs', o)
    decreases if o <= r.hi then r.hi - o else 0
  {
    hide Aligned, Cells, TallyOf, Walk;
    if o == r.hi {
      WalkEnd(r, bs);
      WalkEnd(r, bs');
    } else {
      assert Agree(bs, bs', o) && Placed(r, o, bs[o].order);
      WalkStep(r, bs, o);
      WalkStep(r, bs', o);
      WalkAbove(r, bs, bs', End(bs, o));
    }
  }

  lemma {:induction false} WalkBelow(r: Region, bs: Blocks, bs': Blocks, x: nat, o: nat, a: Tally, b: Tally)
    requires Tiled(r, bs) && Tiled(r, bs') && x in bs && x in bs' && o in bs && o <= x
    requires forall y: nat | y < x :: Agree(bs, bs', y)
    requires Walk(r, bs, x).Plus(a) == Walk(r, bs', x).Plus(b)
    ensures o in bs' && Walk(r, bs, o).Plus(a) == Walk(r, bs', o).Plus(b)
    decreases x - o
  {
    hide Aligned, Cells, TallyOf, Walk;
    if o < x {
      assert Agree(bs, bs', o) && Apart(bs, o, x);
      WalkStep(r, bs, o);
      WalkStep(r, bs', o);
      assert Placed(r, x, bs[x].order);
      WalkBelow(r, bs, bs', x, End(bs, o), a, b);
    }
  }

  lemma WalkMark(r: Region, bs: Blocks, o: nat, used: bool)
    requires Tiled(r, bs) && o in bs
    ensures var bs' := bs[o := Block(bs[o].order, used)];
            Tiled(r, bs') && Walk(r, bs, r.lo).Plus(TallyOf(bs'[o])) == Walk(r, bs', r.lo).Plus(TallyOf(bs[o]))
  {
    hide Aligned, Cells, Walk, TallyOf;
    var bs' := bs[o := Block(bs[o].order, used)];
    MarkTiled(r, bs, o, used);
    WalkStep(r, bs, o);
    WalkStep(r, bs', o);
    WalkAbove(r, bs, bs', End(bs, o));
    WalkBelow(r, bs, bs', o, r.lo, TallyOf(bs'[o]), TallyOf(bs[o]));
  }

  /** One block `o` of order `k + 1` in `bs` where `bs'` has the halves `o`, `q`. */
  lemma {:induction false} WalkHalves(r: Region, bs: Blocks, bs': Blocks, o: nat, q: nat)
    requires Tiled(r, bs) && Tiled(r, bs') && o in bs && o in bs' && q in bs'
    requires q == End(bs', o) && End(bs', q) == End(bs, o)
    requires forall x: nat | x < o || x >= End(bs, o) :: Agree(bs, bs', x)
    ensures Walk(r, bs, r.lo).Plus(TallyOf(bs'[o]).Plus(TallyOf(bs'[q])))
            == Walk(r, bs', r.lo).Plus(TallyOf(bs[o]))
  {
    hide Aligned, Cells, TallyOf, Walk;
    WalkStep(r, bs, o);
    WalkStep(r, bs', o);
    WalkStep(r, bs', q);
    WalkAbove(r, bs, bs', End(bs, o));
    WalkBelow(r, bs, bs', o, r.lo, TallyOf(bs'[o]).Plus(TallyOf(bs'[q])), TallyOf(bs[o]));
  }

  lemma SplitAgree(bs: Blocks, o: nat)
    requires o in bs && bs[o].order > MIN_ORDER
    ensures var bs', q := Split(bs, o), o + Cells(bs[o].order - 1);
            && o in bs' && q in bs' && q == End(bs', o) && End(bs', q) == End(bs, o)
            && bs'[o] == Block(bs[o].order - 1, bs[o].used) && bs'[q] == Block(bs[o].order - 1, false)
            && forall x: nat | x < o || x >= End(bs, o) :: Agree(bs, bs', x)
  {
  }

  lemma {:induction false} WalkSplit(r: Region, bs: Blocks, o: nat)
    requires Tiled(r, bs) && o in bs && bs[o].order > MIN_ORDER
    ensures var k := bs[o].order - 1;
            && Tiled(r, Split(bs, o))
            && Walk(r, bs, r.lo).Plus(TallyOf(Block(k, bs[o].used)).Plus(TallyOf(Block(k, false))))
               == Walk(r, Split(bs, o), r.lo).Plus(TallyOf(bs[o]))
  {
    hide Aligned, Cells, Walk, Tiled, Split, TallyOf, Agree;
    SplitTiled(r, bs, o);
    SplitAgree(bs, o);
    LowestInside(r, bs);
    WalkHalves(r, bs, Split(bs, o), o, o + Cells(bs[o].order - 1));
  }

  lemma LowestInside(r: Region, bs: Blocks)
    requires Tiled(r, bs)
    ensures r.lo in bs
  {
  }

  lemma JoinAgree(bs: Blocks, o: nat, s: nat, x: nat)
    requires o in bs && x != o && x != s
    ensures Agree(Join(bs, o, s), bs, x)
  {
  }

  lemma {:induction false} WalkJoin(r: Region, bs: Blocks, o: nat, s: nat)
    requires Joinable(r, bs, o, s)
    ensures var k := bs[o].order;
            && Tiled(r, Join(bs, o, s))
            && Walk(r, bs, r.lo).Plus(TallyOf(Block(k + 1, bs[o].used)))
               == Walk(r, Join(bs, o, s), r.lo).Plus(TallyOf(bs[o]).Plus(TallyOf(bs[s])))
  {
    hide Aligned, Cells, Walk, TallyOf, Canonical;
    SiblingIsOtherHalf(o, bs[o].order);
    CellsDouble(bs[o].order);
    var p, q := if s < o then s else o, if s < o then o else s;
    JoinTiled(r, bs, o, s);
    var bs' := Join(bs, o, s);
    assert bs'[p] == Block(bs[o].order + 1, bs[o].used);
    assert End(bs, p) == q && End(bs, q) == End(bs', p);
    forall x: nat | x < p || x >= End(bs', p) ensures Agree(bs', bs, x) {
      JoinAgree(bs, o, s, x);
    }
    WalkHalves(r, bs', bs, p, q);
  }

  ghost function Total(r: Region, bs: Blocks): Tally
    requires Tiled(r, bs)
  {
    Walk(r, bs, r.lo)
  }

  lemma TotalSplit(r: Region, bs: Blocks, o: nat, k: Order)
    requires Tiled(r, bs) && o in bs && bs[o] == Block(k + 1, true)
    ensures Tiled(r, Split(bs, o))
    ensures var t, t' := Total(r, bs), Total(r, Split(bs, o));
            && t'.usedBytes == t.usedBytes - Bytes(k) && t'.freeBytes == t.freeBytes + Bytes(k)
            && t'.live == t.live && t'.free == t.free + 1
  {
    hide Aligned, Walk, Tiled;
    WalkSplit(r, bs, o);
  }

  lemma TotalJoin(r: Region, bs: Blocks, o: nat, s: nat, k: Order)
    requires Joinable(r, bs, o, s) && bs[o] == Block(k, true) && bs[s] == Block(k, false)
    ensures Tiled(r, Join(bs, o, s))
    ensures var t, t' := Total(r, bs), Total(r, Join(bs, o, s));
            && t'.usedBytes == t.usedBytes + Bytes(k) && t'.freeBytes == t.freeBytes - Bytes(k)
            && t'.live == t.live && t'.free == t.free - 1
  {
    WalkJoin(r, bs, o, s);
  }

  lemma TotalMark(r: Region, bs: Blocks, o: nat, k: Order, used: bool)
    requires Tiled(r, bs) && o in bs && bs[o] == Block(k, !used)
    ensures Tiled(r, bs[o := Block(k, used)])
    ensures var t, t' := Total(r, bs), Total(r, bs[o := Block(k, used)]);
            var d := if used then 1 else -1;
            && t'.usedBytes == t.usedBytes + d * Bytes(k) && t'.freeBytes == t.freeBytes - d * Bytes(k)
            && t'.live == t.live + d && t'.free == t.free - d
  {
    WalkMark(r, bs, o, used);
  }
}
