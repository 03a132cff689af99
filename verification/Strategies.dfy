/** Both strategies behind one interface, as the strategy table has it: slot 0 is
    first-fit, slot 1 is buddy, and each has its own arena. */
module Strategies {
  import opened Options
  import opened Memory
  import BuddyMath
  import BuddyLayout
  import BuddyImage
  import BuddyBoot
  import BuddyRuns
  import Buddy
  import FirstfitLayout
  import FirstfitTags
  import Firstfit

  type Slot = n: nat | n < 2

  const FIRSTFIT: Slot := 0
  const BUDDY: Slot := 1

  /** Live blocks by the cell of their header: the payload is the cells after the
      header up to the value. */
  type Raw = map<nat, nat>

  /** Every payload has room, lies inside the memory, and ends before the next header. */
  ghost predicate RawOk(raw: Raw, len: nat) {
    && (forall x | x in raw :: x + 1 < raw[x] <= len)
    && (forall x, y | x in raw && y in raw && x < y :: raw[x] <= y)
  }

  predicate InPayload(raw: Raw, x: nat, c: nat) { x in raw && x < c < raw[x] }

  /** The payloads of every live block but `o` are as they were. */
  ghost predicate Kept(raw: Raw, o: nat, mem: seq<Cell>, mem': seq<Cell>) {
    && |mem| == |mem'|
    && forall x: nat, c: nat {:trigger InPayload(raw, x, c)} |
         InPayload(raw, x, c) && x != o && c < |mem| :: mem'[c] == mem[c]
  }

  /** The payload of the block at `o` is as it was. */
  predicate PayloadKept(raw: Raw, o: nat, mem: seq<Cell>, mem': seq<Cell>)
    requires o in raw
  {
    |mem| == |mem'| && forall c | o < c < raw[o] && c < |mem| :: mem'[c] == mem[c]
  }

  function FirstfitRaw(live: map<nat, nat>): Raw {
    map o | o in live && live[o] >= 1 :: o + live[o] - 1
  }

  function BuddyRaw(live: map<nat, BuddyMath.Order>): Raw {
    map o | o in live :: o + BuddyMath.Cells(live[o])
  }

  lemma {:induction false} FirstfitRawOk(at: nat, bs: FirstfitLayout.Blocks, len: nat)
    requires FirstfitLayout.Canonical(bs) && at + FirstfitLayout.Sum(bs) <= len
    ensures RawOk(FirstfitRaw(FirstfitLayout.Live(at, bs)), len)
    ensures forall o | o in FirstfitLayout.Live(at, bs) :: FirstfitLayout.Live(at, bs)[o] >= FirstfitLayout.MIN_CELLS
  {
    var live := FirstfitLayout.Live(at, bs);
    forall o | o in live ensures live[o] >= FirstfitLayout.MIN_CELLS { LiveBig(at, bs, o); }
    forall x, y | x in live && y in live && x < y ensures x + live[x] <= y { LiveApart(at, bs, x, y); }
  }

  lemma {:induction false} LiveBig(at: nat, bs: FirstfitLayout.Blocks, o: nat)
    requires FirstfitLayout.BigEnough(bs) && o in FirstfitLayout.Live(at, bs)
    ensures FirstfitLayout.Live(at, bs)[o] >= FirstfitLayout.MIN_CELLS
    decreases |bs|
  {
    assert bs[0] in bs;
    if !(o == at && bs[0].used) { LiveBig(at + bs[0].cells, bs[1..], o); }
  }

  lemma {:induction false} LiveApart(at: nat, bs: FirstfitLayout.Blocks, x: nat, y: nat)
    requires x in FirstfitLayout.Live(at, bs) && y in FirstfitLayout.Live(at, bs) && x < y
    ensures x + FirstfitLayout.Live(at, bs)[x] <= y
    decreases |bs|
  {
    if !(x == at && bs[0].used && bs[0].cells > 0) { LiveApart(at + bs[0].cells, bs[1..], x, y); }
  }

  lemma BuddyRawOk(r: BuddyLayout.Region, bs: BuddyLayout.Blocks)
    requires BuddyLayout.Tiled(r, bs)
    ensures RawOk(BuddyRaw(BuddyLayout.Live(bs)), r.hi)
  {
    hide BuddyMath.Aligned, BuddyMath.Cells;
    var raw := BuddyRaw(BuddyLayout.Live(bs));
    forall x | x in raw ensures x + 1 < raw[x] <= r.hi { assert BuddyLayout.Placed(r, x, bs[x].order); }
    forall x, y | x in raw && y in raw && x < y ensures raw[x] <= y { assert BuddyLayout.Apart(bs, x, y); }
  }

  lemma FirstfitKept(live: map<nat, nat>, o: nat, mem: seq<Cell>, mem': seq<Cell>)
    requires FirstfitTags.OthersKept(live, o, mem, mem')
    ensures Kept(FirstfitRaw(live), o, mem, mem')
  {
    forall x: nat, c: nat {:trigger InPayload(FirstfitRaw(live), x, c)} |
      InPayload(FirstfitRaw(live), x, c) && x != o && c < |mem|
      ensures mem'[c] == mem[c]
    {
      assert FirstfitTags.OwnsCell(live, x, c);
    }
  }

  lemma BuddyKept(bs: BuddyLayout.Blocks, o: nat, mem: seq<Cell>, mem': seq<Cell>)
    requires BuddyImage.PayloadsKept(bs, o, mem, mem')
    ensures Kept(BuddyRaw(BuddyLayout.Live(bs)), o, mem, mem')
  {
    hide BuddyMath.Cells;
    var raw := BuddyRaw(BuddyLayout.Live(bs));
    forall x: nat, c: nat {:trigger InPayload(raw, x, c)} | InPayload(raw, x, c) && x != o && c < |mem|
      ensures mem'[c] == mem[c]
    {
      assert BuddyLayout.Covers(bs, x, c);
    }
  }

  /** Some run of free cells is long enough for the request and its tags. */
  ghost predicate FirstfitFits(at: nat, bs: FirstfitLayout.Blocks, size: nat) {
    exists total, q {:trigger Firstfit.Needs(size, total), FirstfitLayout.FreeRun(at, bs, q, total)} ::
      Firstfit.Needs(size, total) && FirstfitLayout.FreeRun(at, bs, q, total)
  }

  lemma FirstfitFull(at: nat, bs: FirstfitLayout.Blocks, size: nat)
    requires forall total, q | Firstfit.Needs(size, total) :: !FirstfitLayout.FreeRun(at, bs, q, total)
    ensures !FirstfitFits(at, bs, size)
  {
    hide Firstfit.Needs, FirstfitLayout.FreeRun;
  }

  lemma FirstfitHolds(at: nat, bs: FirstfitLayout.Blocks, bs': FirstfitLayout.Blocks, o: nat, size: nat)
    requires exists total {:trigger Firstfit.Needs(size, total)} ::
               Firstfit.Needs(size, total) && Firstfit.Placed(at, bs, o, total, bs')
    ensures FirstfitFits(at, bs, size)
  {
    hide Firstfit.Needs, FirstfitLayout.FreeRun, FirstfitLayout.FirstFit;
  }

  /** Some aligned run of free cells is as long as the block the request needs. */
  ghost predicate BuddyFits(r: BuddyLayout.Region, bs: BuddyLayout.Blocks, size: nat) {
    exists want: BuddyMath.Order, q: nat ::
      BuddyBoot.IsOrderOf(size + CELL_BYTES, want) && BuddyLayout.FreeRun(r, bs, q, want)
  }

  lemma BuddyFull(r: BuddyLayout.Region, bs: BuddyLayout.Blocks, want: BuddyMath.Order, size: nat)
    requires BuddyBoot.IsOrderOf(size + CELL_BYTES, want)
    requires forall q: nat :: !BuddyLayout.FreeRun(r, bs, q, want)
    ensures !BuddyFits(r, bs, size)
  {
    hide BuddyBoot.IsOrderOf, BuddyLayout.FreeRun;
    if BuddyFits(r, bs, size) {
      var k: BuddyMath.Order, q: nat :|
        BuddyBoot.IsOrderOf(size + CELL_BYTES, k) && BuddyLayout.FreeRun(r, bs, q, k);
      OneOrder(size + CELL_BYTES, k, want);
    }
  }

  lemma OneOrder(n: nat, k: BuddyMath.Order, j: BuddyMath.Order)
    requires BuddyBoot.IsOrderOf(n, k) && BuddyBoot.IsOrderOf(n, j)
    ensures k == j
  {
    hide BuddyMath.Cells;
    if k < j { BuddyMath.CellsGrow(k, j - 1); }
    if j < k { BuddyMath.CellsGrow(j, k - 1); }
  }

  lemma BuddyHolds(r: BuddyLayout.Region, bs: BuddyLayout.Blocks, o: nat, want: BuddyMath.Order, size: nat)
    requires BuddyLayout.Tiled(r, bs) && Buddy.BestFit(bs, o, want) && BuddyBoot.IsOrderOf(size + CELL_BYTES, want)
    ensures BuddyFits(r, bs, size)
  {
    hide BuddyMath.Cells, BuddyMath.Aligned, BuddyLayout.Tiled, BuddyBoot.IsOrderOf, BuddyLayout.FreeCell;
    BuddyLayout.FreeBlockIsFreeRun(r, bs, bs, o);
    BuddyMath.AlignedDown(o, want, bs[o].order);
    BuddyMath.CellsGrow(want, bs[o].order);
    assert BuddyLayout.FreeRun(r, bs, o, want);
  }

  class Arenas {
    const ff: Firstfit.Arena
    const bd: Buddy.Heap

    ghost predicate Valid()
      reads this, ff, ff.mem, bd, bd.mem, bd.heads
    {
      && ff.mem != bd.mem
      && ff.Valid() && bd.Valid()
      && RawOk(RawOf(FIRSTFIT), ff.mem.Length) && RawOk(RawOf(BUDDY), bd.mem.Length)
    }

    ghost function RawOf(slot: Slot): Raw
      reads this, ff, bd
    {
      if slot == FIRSTFIT then FirstfitRaw(ff.Used()) else BuddyRaw(BuddyLayout.Live(bd.blocks))
    }

    /** The strategy has room for a request of `size` bytes. */
    ghost predicate Fits(slot: Slot, size: nat)
      reads this, ff, bd
    {
      if slot == FIRSTFIT then FirstfitFits(ff.heapStart, ff.blocks, size) else BuddyFits(bd.Area(), bd.blocks, size)
    }

    function Mem(slot: Slot): array<Cell>
      reads this
    {
      if slot == FIRSTFIT then ff.mem else bd.mem
    }

    ghost function Cells(slot: Slot): seq<Cell>
      reads this, ff.mem, bd.mem
    {
      Mem(slot)[..]
    }

    /** Hands both memories to their strategies. */
    constructor Init(first: array<Cell>, second: array<Cell>, ghost top: BuddyMath.Order)
      requires first != second && first.Length > 0 && FirstfitTags.Fits(first.Length)
      requires second.Length == 2 * BuddyMath.Cells(top) < WORD_LIMIT
      requires BuddyRuns.SEED_ORDER <= top < BuddyMath.MAX_ORDER
      modifies first, second
      ensures Valid() && Mem(FIRSTFIT) == first && Mem(BUDDY) == second
      ensures RawOf(FIRSTFIT) == map[] && RawOf(BUDDY) == map[]
      ensures fresh(this) && fresh(ff) && fresh(bd) && fresh(bd.heads)
    {
      hide BuddyMath.Aligned, BuddyMath.Cells, BuddyLayout.Tiled, BuddyLayout.Canonical, FirstfitTags.Tagged;
      var f := new Firstfit.Arena.Init(first);
      var b := new Buddy.Heap.Init(second, top);
      ff, bd := f, b;
      BuddyRuns.SeedsTiled(top);
      new;
      FirstfitRawOk(ff.heapStart, ff.blocks, first.Length);
      BuddyRawOk(bd.Area(), bd.blocks);
      if ff.blocks != [] { FirstfitLayout.SumOne(ff.blocks[0]); }
    }

    /** `STRATEGIES[slot]->alloc`, which fails exactly when the strategy has no room. */
    method Alloc(slot: Slot, size: nat) returns (off: Option<nat>)
      requires Valid()
      modifies ff, ff.mem, bd, bd.mem, bd.heads
      ensures Valid()
      ensures RawOf(1 - slot) == old(RawOf(1 - slot)) && Cells(1 - slot) == old(Cells(1 - slot))
      ensures off.Some? <==> old(Fits(slot, size))
      ensures off.None? ==> RawOf(slot) == old(RawOf(slot)) && Cells(slot) == old(Cells(slot))
      ensures off.Some? ==>
                && off.value !in old(RawOf(slot)) && off.value in RawOf(slot)
                && RawOf(slot) == old(RawOf(slot))[off.value := RawOf(slot)[off.value]]
                && size <= CELL_BYTES * (RawOf(slot)[off.value] - off.value - 1)
                && Kept(old(RawOf(slot)), off.value, old(Cells(slot)), Cells(slot))
    {
      hide FirstfitRaw, BuddyRaw, RawOk, Kept, Buddy.Heap.Valid, Firstfit.Arena.Valid, FirstfitFits, BuddyFits;
      if slot == FIRSTFIT {
        off := FirstfitAlloc(size);
      } else {
        off := BuddyAlloc(size);
      }
    }

    method FirstfitAlloc(size: nat) returns (off: Option<nat>)
      requires Valid()
      modifies ff, ff.mem
      ensures Valid()
      ensures off.Some? <==> old(Fits(FIRSTFIT, size))
      ensures off.None? ==> RawOf(FIRSTFIT) == old(RawOf(FIRSTFIT)) && ff.mem[..] == old(ff.mem[..])
      ensures off.Some? ==>
                && off.value !in old(RawOf(FIRSTFIT)) && off.value in RawOf(FIRSTFIT)
                && RawOf(FIRSTFIT) == old(RawOf(FIRSTFIT))[off.value := RawOf(FIRSTFIT)[off.value]]
                && size <= CELL_BYTES * (RawOf(FIRSTFIT)[off.value] - off.value - 1)
                && Kept(old(RawOf(FIRSTFIT)), off.value, old(ff.mem[..]), ff.mem[..])
    {
      hide FirstfitLayout.Live, FirstfitLayout.Sum, FirstfitLayout.Canonical, FirstfitTags.Tagged;
      hide FirstfitLayout.FreeRun, Firstfit.Placed, Firstfit.Needs, FirstfitTags.OthersKept, Kept, BuddyRaw;
      hide FirstfitFits, Firstfit.CensusOf, RawOk, Buddy.Heap.Valid;
      ghost var m0, u0, b0 := ff.mem[..], ff.Used(), ff.blocks;
      FirstfitRawOk(ff.heapStart, ff.blocks, ff.mem.Length);
      var p := ff.Alloc(size);
      if p.None? {
        FirstfitFull(ff.heapStart, b0, size);
        return None;
      }
      FirstfitHolds(ff.heapStart, b0, ff.blocks, p.value - 1, size);
      FirstfitRawOk(ff.heapStart, ff.blocks, ff.mem.Length);
      FirstfitKept(u0, p.value - 1, m0, ff.mem[..]);
      FirstfitAdded(u0, ff.Used(), p.value - 1);
      off := Some(p.value - 1);
    }

    method BuddyAlloc(size: nat) returns (off: Option<nat>)
      requires Valid()
      modifies bd, bd.mem, bd.heads
      ensures Valid()
      ensures off.Some? <==> old(Fits(BUDDY, size))
      ensures off.None? ==> RawOf(BUDDY) == old(RawOf(BUDDY)) && bd.mem[..] == old(bd.mem[..])
      ensures off.Some? ==>
                && off.value !in old(RawOf(BUDDY)) && off.value in RawOf(BUDDY)
                && RawOf(BUDDY) == old(RawOf(BUDDY))[off.value := RawOf(BUDDY)[off.value]]
                && size <= CELL_BYTES * (RawOf(BUDDY)[off.value] - off.value - 1)
                && Kept(old(RawOf(BUDDY)), off.value, old(bd.mem[..]), bd.mem[..])
    {
      hide BuddyMath.Cells, BuddyLayout.Tiled, BuddyLayout.Canonical, BuddyLayout.Walk, BuddyLayout.Live, Buddy.BestFit;
      hide BuddyLayout.Take, BuddyLayout.FreeRun, BuddyImage.PayloadsKept, Kept, FirstfitRaw, BuddyRaw, RawOk;
      hide BuddyImage.HeaderOk, BuddyBoot.IsOrderOf, Firstfit.Arena.Valid, BuddyFits;
      ghost var m0, b0 := bd.mem[..], bd.blocks;
      var p, want := bd.Alloc(size);
      BuddyRawOk(bd.Area(), bd.blocks);
      if p.None? {
        BuddyFull(bd.Area(), b0, want, size);
        return None;
      }
      BuddyHolds(bd.Area(), b0, p.value - 1, want, size);
      BuddyKept(b0, p.value - 1, m0, bd.mem[..]);
      BuddyAdded(b0, bd.blocks, p.value - 1, want, size);
      off := Some(p.value - 1);
    }

    /** `STRATEGIES[slot]->free_block`. First-fit leaves what the freed block held. */
    method FreeBlock(slot: Slot, off: nat)
      requires Valid() && off in RawOf(slot)
      modifies ff, ff.mem, bd, bd.mem, bd.heads
      ensures Valid()
      ensures RawOf(1 - slot) == old(RawOf(1 - slot)) && Cells(1 - slot) == old(Cells(1 - slot))
      ensures RawOf(slot) == old(RawOf(slot)) - {off}
      ensures Kept(old(RawOf(slot)), off, old(Cells(slot)), Cells(slot))
      ensures slot == FIRSTFIT ==> PayloadKept(old(RawOf(slot)), off, old(Cells(slot)), Cells(slot))
    {
      hide FirstfitRaw, BuddyRaw, RawOk, Kept, PayloadKept, Buddy.Heap.Valid, Firstfit.Arena.Valid;
      if slot == FIRSTFIT {
        FirstfitFree(off);
      } else {
        BuddyFree(off);
      }
    }

    method FirstfitFree(off: nat)
      requires Valid() && off in RawOf(FIRSTFIT)
      modifies ff, ff.mem
      ensures Valid() && RawOf(FIRSTFIT) == old(RawOf(FIRSTFIT)) - {off}
      ensures Kept(old(RawOf(FIRSTFIT)), off, old(ff.mem[..]), ff.mem[..])
      ensures PayloadKept(old(RawOf(FIRSTFIT)), off, old(ff.mem[..]), ff.mem[..])
    {
      hide FirstfitLayout.Live, FirstfitLayout.Sum, FirstfitLayout.Canonical, FirstfitTags.Tagged;
      hide FirstfitTags.OthersKept, Kept, BuddyRaw, RawOk, Buddy.Heap.Valid, Firstfit.CensusOf;
      ghost var m0, u0 := ff.mem[..], ff.Used();
      ff.FreeBlock(Some(off + 1));
      FirstfitRawOk(ff.heapStart, ff.blocks, ff.mem.Length);
      FirstfitKept(u0, off, m0, ff.mem[..]);
    }

    method BuddyFree(off: nat)
      requires Valid() && off in RawOf(BUDDY)
      modifies bd, bd.mem, bd.heads
      ensures Valid() && RawOf(BUDDY) == old(RawOf(BUDDY)) - {off}
      ensures Kept(old(RawOf(BUDDY)), off, old(bd.mem[..]), bd.mem[..])
    {
      hide BuddyMath.Cells, BuddyLayout.Tiled, BuddyLayout.Canonical, BuddyLayout.Walk, BuddyLayout.Coalesce;
      hide BuddyLayout.Placed, BuddyImage.PayloadsKept, Kept, FirstfitRaw, RawOk, BuddyImage.HeaderOk;
      hide Firstfit.Arena.Valid;
      ghost var m0, b0 := bd.mem[..], bd.blocks;
      bd.FreeBlock(Some(off + 1));
      BuddyRawOk(bd.Area(), bd.blocks);
      BuddyKept(b0, off, m0, bd.mem[..]);
    }

    /** Bytes the strategy can hold in the block. */
    method UsableSize(slot: Slot, off: nat) returns (n: nat)
      requires Valid() && off in RawOf(slot)
      ensures n == CELL_BYTES * (RawOf(slot)[off] - off - 1)
    {
      hide BuddyMath.Cells, FirstfitLayout.Live, FirstfitLayout.Sum, FirstfitLayout.Canonical, FirstfitTags.Tagged;
      hide BuddyLayout.Tiled, BuddyLayout.Canonical, BuddyLayout.Walk, RawOk;
      if slot == FIRSTFIT {
        n := ff.UsableSize(off + 1);
      } else {
        n := bd.UsableSize(off + 1);
      }
    }

    /** A store into a payload cell. */
    method Write(slot: Slot, ghost off: nat, c: nat, v: Cell)
      requires Valid() && off in RawOf(slot) && off < c < RawOf(slot)[off]
      modifies ff.mem, bd.mem
      ensures Valid() && RawOf(FIRSTFIT) == old(RawOf(FIRSTFIT)) && RawOf(BUDDY) == old(RawOf(BUDDY))
      ensures c < |Cells(slot)| && Cells(slot) == old(Cells(slot))[c := v]
      ensures Cells(1 - slot) == old(Cells(1 - slot))
    {
      hide BuddyMath.Cells, FirstfitLayout.Live, FirstfitLayout.Sum, FirstfitLayout.Canonical, FirstfitTags.Tagged;
      hide BuddyLayout.Tiled, BuddyLayout.Canonical, BuddyLayout.Walk, RawOk, BuddyImage.HeaderOk;
      if slot == FIRSTFIT {
        ff.ClientWrite(off, c, v);
      } else {
        bd.ClientWrite(off, c, v);
      }
    }
  }

  lemma BuddyAdded(bs: BuddyLayout.Blocks, bs': BuddyLayout.Blocks, o: nat, want: BuddyMath.Order, size: nat)
    requires Buddy.BestFit(bs, o, want) && BuddyBoot.IsOrderOf(size + CELL_BYTES, want)
    requires BuddyLayout.Live(bs') == BuddyLayout.Live(bs)[o := want]
    ensures var raw, raw' := BuddyRaw(BuddyLayout.Live(bs)), BuddyRaw(BuddyLayout.Live(bs'));
            && o !in raw && o in raw' && raw' == raw[o := raw'[o]] && size <= CELL_BYTES * (raw'[o] - o - 1)
  {
    hide BuddyMath.Cells;
  }

  lemma FirstfitAdded(u: map<nat, nat>, u': map<nat, nat>, o: nat)
    requires o in u' && o !in u && u' == u[o := u'[o]] && u'[o] >= 1
    ensures FirstfitRaw(u') == FirstfitRaw(u)[o := o + u'[o] - 1]
    ensures o !in FirstfitRaw(u)
  {
  }
}
