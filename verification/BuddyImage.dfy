/** A memory image that faithfully stores a block layout, and the five edits the
    allocator makes to it. `hand` is the block being worked on (0 for none): it
    counts as used in the layout, but its header has not caught up yet. */
module BuddyImage {
  import opened BuddyMath
  import opened Memory
  import opened BuddyLayout
  import opened BuddyLists

  datatype Image = Image(r: Region, mem: seq<Cell>, heads: seq<nat>, chains: Chains, bs: Blocks)

  function FreeOf(bs: Blocks): map<nat, Order> {
    map o | o in bs && !bs[o].used :: bs[o].order
  }

  predicate HeaderOk(mem: seq<Cell>, bs: Blocks, o: nat) {
    && o in bs && o < |mem| && bs[o].order <= MAX_ORDER
    && mem[o] == Header(bs[o].order, bs[o].used)
  }

  ghost predicate Faithful(i: Image, hand: nat) {
    && |i.mem| == i.r.hi < WORD_LIMIT && i.r.top < MAX_ORDER
    && Tiled(i.r, i.bs) && Canonical(i.r, i.bs)
    && ListsOk(i.mem, i.heads, i.chains, FreeOf(i.bs))
    && (forall o {:trigger HeaderOk(i.mem, i.bs, o)} | o in i.bs && o != hand :: HeaderOk(i.mem, i.bs, o))
  }

  ghost predicate InHand(i: Image, o: nat) {
    Faithful(i, o) && o in i.bs && i.bs[o].used && i.bs[o].order <= i.r.top
  }

  /** The payload cells of every used block but `o` hold what they held. */
  ghost predicate PayloadsKept(bs: Blocks, o: nat, mem: seq<Cell>, mem': seq<Cell>) {
    && |mem| == |mem'|
    && forall x: nat, c: nat {:trigger Covers(bs, x, c)} |
         Covers(bs, x, c) && bs[x].used && x != o && x < c < |mem| :: mem'[c] == mem[c]
  }

  lemma EvenFree(r: Region, bs: Blocks)
    requires Tiled(r, bs)
    ensures EvenKeys(FreeOf(bs)) && forall o | o in bs :: o % 2 == 0 && o + 1 < r.hi
  {
    forall o | o in bs ensures o % 2 == 0 && o + 1 < r.hi {
      assert Placed(r, o, bs[o].order);
    }
  }

  /** A cell outside all free blocks, other than `off` and its node, is foreign. */
  lemma UsedCellForeign(i: Image, x: nat, c: nat, off: nat, k: nat)
    requires Tiled(i.r, i.bs) && ListsOk(i.mem, i.heads, i.chains, FreeOf(i.bs)) && k <= MAX_ORDER
    requires Covers(i.bs, x, c) && i.bs[x].used && c != off && c != off + 1
    ensures Foreign(i.chains[k], off, c)
  {
    assert ChainOk(i.mem, i.heads, i.chains, FreeOf(i.bs), k);
    var ch := i.chains[k];
    forall j | 0 <= j < |ch| ensures c != ch[j] + 1 {
      if c == ch[j] + 1 {
        assert ch[j] in FreeOf(i.bs);
        SameBlock(i.r, i.bs, x, ch[j], c);
      }
    }
  }

  // ---- Edits ------------------------------------------------------------------

  ghost function Push(i: Image, off: nat, k: Order, bs': Blocks): Image
    requires off + 1 < |i.mem| < WORD_LIMIT && k <= MAX_ORDER
    requires |i.heads| == |i.chains| == MAX_ORDER + 1 && i.heads[k] < |i.mem|
  {
    Image(i.r, PushMem(i.mem, i.heads[k], off, k), i.heads[k := off + 1],
          i.chains[k := [off] + i.chains[k]], bs')
  }

  ghost function Unlink(i: Image, k: Order, j: nat, bs': Blocks): Image
    requires k <= MAX_ORDER && |i.heads| == |i.chains| == MAX_ORDER + 1 && j < |i.chains[k]|
    requires var off := i.chains[k][j];
             off + 1 < |i.mem| && i.mem[off + 1].lo < |i.mem| && i.mem[off + 1].hi < |i.mem|
  {
    var off := i.chains[k][j];
    Image(i.r, RemoveMem(i.mem, off), i.heads[k := RemoveHead(i.mem, i.heads[k], off)],
          i.chains[k := Without(i.chains[k], j)], bs')
  }

  /** A list node may be read: the facts the imperative code relies on. */
  lemma NodeInBounds(i: Image, hand: nat, k: Order, j: nat)
    requires Faithful(i, hand) && k <= MAX_ORDER && j < |i.chains[k]|
    ensures var off := i.chains[k][j];
            && IsFree(i.bs, off, k) && off + 1 < |i.mem|
            && i.mem[off + 1].lo < |i.mem| && i.mem[off + 1].hi < |i.mem|
  {
    EvenFree(i.r, i.bs);
    RemoveLists(i.mem, i.heads, i.chains, FreeOf(i.bs), k, j);
  }

  lemma HeadInBounds(i: Image, hand: nat, k: Order)
    requires Faithful(i, hand) && k <= MAX_ORDER
    ensures i.heads[k] < |i.mem|
    ensures i.heads[k] == 0 <==> i.chains[k] == []
    ensures i.chains[k] != [] ==> i.heads[k] == i.chains[k][0] + 1
  {
    assert ChainOk(i.mem, i.heads, i.chains, FreeOf(i.bs), k);
    assert i.chains[k] != [] ==> NodeOk(i.mem, i.chains[k], 0);
  }

  lemma FreeBlockInChain(i: Image, hand: nat, o: nat, k: Order) returns (j: nat)
    requires Faithful(i, hand) && IsFree(i.bs, o, k) && k <= MAX_ORDER
    ensures j < |i.chains[k]| && i.chains[k][j] == o
  {
    assert ChainOk(i.mem, i.heads, i.chains, FreeOf(i.bs), k);
    assert o in FreeOf(i.bs);
    j :| 0 <= j < |i.chains[k]| && i.chains[k][j] == o;
  }

  lemma UnlinkHeaders(i: Image, hand: nat, k: Order, j: nat, c: nat)
    requires Faithful(i, hand)
    requires k <= MAX_ORDER && j < |i.chains[k]| && c % 2 == 0 && c < |i.mem|
    ensures var off := i.chains[k][j];
            && off + 1 < |i.mem| && i.mem[off + 1].lo < |i.mem| && i.mem[off + 1].hi < |i.mem|
            && RemoveMem(i.mem, off)[c] == i.mem[c]
  {
    hide Tiled, Canonical, HeaderOk;
    EvenFree(i.r, i.bs);
    assert ChainOk(i.mem, i.heads, i.chains, FreeOf(i.bs), k);
    Neighbours(i.mem, i.heads[k], i.chains[k], j);
  }

  /** `list_remove` of the chosen block at the start of an allocation. */
  lemma GrabStep(i: Image, k: Order, j: nat)
    requires Faithful(i, 0) && k <= MAX_ORDER && j < |i.chains[k]|
    requires k <= i.r.top
    ensures var off := i.chains[k][j];
            && IsFree(i.bs, off, k) && off + 1 < |i.mem|
            && i.mem[off + 1].lo < |i.mem| && i.mem[off + 1].hi < |i.mem|
            && InHand(Unlink(i, k, j, i.bs[off := Block(k, true)]), off)
  {
    hide Aligned, Cells, Canonical, ChainOk, RemoveMem, RemoveHead;
    NodeInBounds(i, 0, k, j);
    EvenFree(i.r, i.bs);
    var off := i.chains[k][j];
    var bs' := i.bs[off := Block(k, true)];
    var i' := Unlink(i, k, j, bs');
    RemoveLists(i.mem, i.heads, i.chains, FreeOf(i.bs), k, j);
    assert FreeOf(bs') == FreeOf(i.bs) - {off};
    MarkTiled(i.r, i.bs, off, true);
    MarkUsedCanonical(i.r, i.bs, off);
    forall o {:trigger HeaderOk(i'.mem, bs', o)} | o in bs' && o != off ensures HeaderOk(i'.mem, bs', o) {
      assert HeaderOk(i.mem, i.bs, o);
      UnlinkHeaders(i, 0, k, j, o);
    }
  }

  lemma UnlinkPayloads(i: Image, hand: nat, k: Order, j: nat)
    requires Faithful(i, hand) && k <= MAX_ORDER && j < |i.chains[k]|
    ensures var off := i.chains[k][j];
            && off + 1 < |i.mem| && i.mem[off + 1].lo < |i.mem| && i.mem[off + 1].hi < |i.mem|
            && PayloadsKept(i.bs, hand, i.mem, RemoveMem(i.mem, off))
  {
    NodeInBounds(i, hand, k, j);
    var off := i.chains[k][j];
    forall x: nat, c: nat {:trigger Covers(i.bs, x, c)} |
      Covers(i.bs, x, c) && i.bs[x].used && x != hand && x < c < |i.mem|
      ensures RemoveMem(i.mem, off)[c] == i.mem[c]
    {
      if c == off || c == off + 1 { SameBlock(i.r, i.bs, x, off, c); }
      UsedCellForeign(i, x, c, off, k);
      assert ChainOk(i.mem, i.heads, i.chains, FreeOf(i.bs), k);
      RemoveFrame(i.mem, i.heads[k], i.chains[k], j, c);
    }
  }

  lemma PushPayloads(i: Image, hand: nat, off: nat, k: Order)
    requires Faithful(i, hand) && k <= MAX_ORDER && hand in i.bs
    requires hand <= off && off + 1 < End(i.bs, hand) <= |i.mem|
    ensures i.heads[k] < |i.mem| && PayloadsKept(i.bs, hand, i.mem, PushMem(i.mem, i.heads[k], off, k))
  {
    HeadInBounds(i, hand, k);
    forall x: nat, c: nat {:trigger Covers(i.bs, x, c)} |
      Covers(i.bs, x, c) && i.bs[x].used && x != hand && x < c < |i.mem|
      ensures PushMem(i.mem, i.heads[k], off, k)[c] == i.mem[c]
    {
      if c == off || c == off + 1 { SameBlock(i.r, i.bs, x, hand, c); }
      UsedCellForeign(i, x, c, off, k);
      assert ChainOk(i.mem, i.heads, i.chains, FreeOf(i.bs), k);
      PushFrame(i.mem, i.heads[k], i.chains[k], off, k, c);
    }
  }

  lemma PushHeaders(i: Image, hand: nat, off: nat, k: Order, c: nat)
    requires Faithful(i, hand) && k <= MAX_ORDER && off % 2 == 0 && off + 1 < |i.mem|
    requires c % 2 == 0 && c < |i.mem|
    ensures i.heads[k] < |i.mem|
    ensures PushMem(i.mem, i.heads[k], off, k)[c] == if c == off then Header(k, false) else i.mem[c]
  {
    hide Tiled, Canonical, HeaderOk;
    EvenFree(i.r, i.bs);
    HeadInBounds(i, hand, k);
    assert ChainOk(i.mem, i.heads, i.chains, FreeOf(i.bs), k);
    assert i.chains[k] != [] ==> i.chains[k][0] in FreeOf(i.bs);
  }

  lemma HalfInside(i: Image, o: nat)
    requires InHand(i, o) && i.bs[o].order > MIN_ORDER
    ensures var k := i.bs[o].order - 1;
            var h := o + Cells(k);
            && h % 2 == 0 && o <= h && h + 1 < End(i.bs, o) <= |i.mem| && k <= MAX_ORDER
            && o + Cells(i.bs[o].order - 1) !in i.bs
  {
    hide Aligned, Canonical, ListsOk, HeaderOk, Cells, Split, Abuts, Apart;
    CellsDouble(i.bs[o].order - 1);
    assert Placed(i.r, o, i.bs[o].order);
    EvenFree(i.r, i.bs);
    SplitTiled(i.r, i.bs, o);
  }

  /** One turn of the split loop: the upper half goes on its list. */
  lemma PushHalfStep(i: Image, o: nat)
    requires InHand(i, o) && i.bs[o].order > MIN_ORDER
    ensures var k := i.bs[o].order - 1;
            var h := o + Cells(k);
            && h + 1 < |i.mem| && i.heads[k] < |i.mem|
            && InHand(Push(i, h, k, Split(i.bs, o)), o)
            && PayloadsKept(i.bs, o, i.mem, PushMem(i.mem, i.heads[k], h, k))
  {
    hide Tiled, Canonical, ChainOk, PayloadsKept, PushMem, Split, HeaderOk, Cells, FreeOf, EvenKeys;
    var k: Order := i.bs[o].order - 1;
    var h := o + Cells(k);
    HalfInside(i, o);
    EvenFree(i.r, i.bs);
    SplitTiled(i.r, i.bs, o);
    SplitCanonical(i.r, i.bs, o);
    PushPayloads(i, o, h, k);
    SplitFree(i.bs, o);
    PushLists(i.mem, i.heads, i.chains, FreeOf(i.bs), h, k);
    PushStepHeaders(i, o, h, k, Split(i.bs, o));
  }

  lemma SplitFree(bs: Blocks, o: nat)
    requires o in bs && bs[o].order > MIN_ORDER && bs[o].used && o + Cells(bs[o].order - 1) !in bs
    ensures var k: Order := bs[o].order - 1;
            var h, bs' := o + Cells(k), Split(bs, o);
            && h !in FreeOf(bs) && FreeOf(bs') == FreeOf(bs)[h := k]
            && h in bs' && bs'[h] == Block(k, false) && o in bs' && bs'[o] == Block(k, true)
            && forall x | x in bs' && x != h && x != o :: x in bs && bs'[x] == bs[x]
  {
    hide Cells;
  }

  lemma PushStepHeaders(i: Image, hand: nat, off: nat, k: Order, bs': Blocks)
    requires Faithful(i, hand) && k <= MAX_ORDER && off % 2 == 0 && off + 1 < |i.mem|
    requires off in bs' && bs'[off] == Block(k, false)
    requires forall o | o in bs' && o != off && o != hand :: o in i.bs && bs'[o] == i.bs[o]
    ensures i.heads[k] < |i.mem|
    ensures forall o {:trigger HeaderOk(PushMem(i.mem, i.heads[k], off, k), bs', o)} |
              o in bs' && (o == off || o != hand) :: HeaderOk(PushMem(i.mem, i.heads[k], off, k), bs', o)
  {
    HeadInBounds(i, hand, k);
    EvenFree(i.r, i.bs);
    forall o {:trigger HeaderOk(PushMem(i.mem, i.heads[k], off, k), bs', o)} |
      o in bs' && (o == off || o != hand)
      ensures HeaderOk(PushMem(i.mem, i.heads[k], off, k), bs', o)
    {
      PushHeaders(i, hand, off, k, o);
      if o != off { assert HeaderOk(i.mem, i.bs, o); }
    }
  }

  /** One turn of the merge loop: the free sibling leaves its list. */
  lemma JoinStep(i: Image, o: nat, j: nat)
    requires InHand(i, o) && Mergeable(i.r, i.bs, o)
    requires var k := i.bs[o].order; k <= MAX_ORDER && j < |i.chains[k]| && i.chains[k][j] == Sibling(o, k)
    ensures var k := i.bs[o].order;
            var s := Sibling(o, k);
            && s + 1 < |i.mem| && i.mem[s + 1].lo < |i.mem| && i.mem[s + 1].hi < |i.mem|
            && InHand(Unlink(i, k, j, Join(i.bs, o, s)), if s < o then s else o)
            && PayloadsKept(i.bs, o, i.mem, RemoveMem(i.mem, s))
  {
    hide Aligned, Cells, Canonical, ChainOk, PayloadsKept, RemoveMem, Placed;
    var k := i.bs[o].order;
    var s := Sibling(o, k);
    NodeInBounds(i, o, k, j);
    EvenFree(i.r, i.bs);
    UnlinkPayloads(i, o, k, j);
    RemoveLists(i.mem, i.heads, i.chains, FreeOf(i.bs), k, j);
    JoinTiled(i.r, i.bs, o, s);
    JoinCanonical(i.r, i.bs, o, s);
    var bs' := Join(i.bs, o, s);
    assert FreeOf(bs') == FreeOf(i.bs) - {s};
    var p := if s < o then s else o;
    var mem' := RemoveMem(i.mem, s);
    forall x {:trigger HeaderOk(mem', bs', x)} | x in bs' && x != p ensures HeaderOk(mem', bs', x) {
      assert x in i.bs && bs'[x] == i.bs[x];
      assert HeaderOk(i.mem, i.bs, x);
      UnlinkHeaders(i, o, k, j, x);
    }
  }

  /** The end of a free: the merged block goes on its list. */
  lemma DropStep(i: Image, o: nat)
    requires InHand(i, o) && !Mergeable(i.r, i.bs, o)
    ensures var k := i.bs[o].order;
            && k <= MAX_ORDER && o + 1 < |i.mem| && i.heads[k] < |i.mem|
            && Faithful(Push(i, o, k, i.bs[o := Block(k, false)]), 0)
            && PayloadsKept(i.bs, o, i.mem, PushMem(i.mem, i.heads[k], o, k))
  {
    hide Aligned, Cells, Canonical, ChainOk, PushMem, PayloadsKept;
    var k := i.bs[o].order;
    assert Placed(i.r, o, k);
    EvenFree(i.r, i.bs);
    var bs' := i.bs[o := Block(k, false)];
    MarkTiled(i.r, i.bs, o, false);
    ReleaseCanonical(i.r, i.bs, o);
    PushPayloads(i, o, o, k);
    PushLists(i.mem, i.heads, i.chains, FreeOf(i.bs), o, k);
    assert FreeOf(bs') == FreeOf(i.bs)[o := k];
    PushStepHeaders(i, o, o, k, bs');
  }

  /** Writing the in-use header, or any client write to a payload, disturbs nothing. */
  lemma WriteStep(i: Image, hand: nat, o: nat, c: nat, v: Cell)
    requires Faithful(i, hand) && Covers(i.bs, o, c) && i.bs[o].used && c < |i.mem|
    requires c == o ==> i.bs[o].order <= MAX_ORDER && v == Header(i.bs[o].order, true)
    requires hand == 0 || hand == o == c
    ensures Faithful(i.(mem := i.mem[c := v]), 0)
  {
    var mem' := i.mem[c := v];
    EvenFree(i.r, i.bs);
    var free := FreeOf(i.bs);
    forall k | 0 <= k < |i.heads| ensures ChainOk(mem', i.heads, i.chains, free, k) {
      assert ChainOk(i.mem, i.heads, i.chains, free, k);
      NodesElsewhere(i, o, c, k);
      LinkedFrame(i.mem, mem', i.heads[k], i.chains[k]);
    }
    forall x {:trigger HeaderOk(mem', i.bs, x)} | x in i.bs ensures HeaderOk(mem', i.bs, x) {
      if x != hand { assert HeaderOk(i.mem, i.bs, x); }
      if x == c { SameBlock(i.r, i.bs, x, o, c); }
    }
  }

  lemma NodesElsewhere(i: Image, o: nat, c: nat, k: nat)
    requires Tiled(i.r, i.bs) && ListsOk(i.mem, i.heads, i.chains, FreeOf(i.bs)) && k <= MAX_ORDER
    requires Covers(i.bs, o, c) && i.bs[o].used
    ensures forall j | 0 <= j < |i.chains[k]| :: i.chains[k][j] + 1 != c
  {
    assert ChainOk(i.mem, i.heads, i.chains, FreeOf(i.bs), k);
    forall j | 0 <= j < |i.chains[k]| ensures i.chains[k][j] + 1 != c {
      assert i.chains[k][j] in FreeOf(i.bs);
      if i.chains[k][j] + 1 == c { SameBlock(i.r, i.bs, o, i.chains[k][j], c); }
    }
  }

  /** Clearing the in-use half of a header puts the block in hand. */
  lemma UnstampStep(i: Image, o: nat, k: Order)
    requires Faithful(i, 0) && o in i.bs && i.bs[o] == Block(k, true)
    ensures o < |i.mem| && k <= MAX_ORDER && i.mem[o] == Header(k, true)
    ensures InHand(i.(mem := i.mem[o := Cell(MAGIC, k)]), o)
  {
    assert HeaderOk(i.mem, i.bs, o);
    assert Placed(i.r, o, k);
    var v := Cell(MAGIC, k);
    var i' := i.(mem := i.mem[o := v]);
    var free := FreeOf(i.bs);
    forall k | 0 <= k < |i.heads| ensures ChainOk(i'.mem, i.heads, i.chains, free, k) {
      assert ChainOk(i.mem, i.heads, i.chains, free, k);
      NodesElsewhere(i, o, o, k);
      LinkedFrame(i.mem, i'.mem, i.heads[k], i.chains[k]);
    }
    forall x {:trigger HeaderOk(i'.mem, i.bs, x)} | x in i.bs && x != o ensures HeaderOk(i'.mem, i.bs, x) {
      assert HeaderOk(i.mem, i.bs, x);
    }
  }
}
