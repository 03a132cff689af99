/** The buddy strategy: power-of-two blocks with a one-cell header, free lists
    threaded through the free blocks, and sibling merging by address. */
module Buddy {
  import opened Options
  import opened BuddyMath
  import opened Memory
  import opened BuddyLayout
  import opened BuddyLists
  import opened BuddyImage
  import opened BuddyRuns
  import opened BuddyBoot
  import opened BuddyTotals
  import opened Totals

  method OrderOf(n: nat) returns (k: Order)
    ensures IsOrderOf(n, k)
  {
    k := MIN_ORDER;
    var size := 32;
    while size < n
      invariant size == Bytes(k)
      invariant k > MIN_ORDER ==> Bytes(k - 1) < n
      decreases n - size
    {
      k := k + 1;
      size := 2 * size;
    }
  }

  /** sizeof the bookkeeping record kept in the arena's leading bytes. */
  const STATE_RECORD: nat := 432

  class Heap {
    const mem: array<Cell>
    const heads: array<nat>
    var regionOff: nat
    var maxOrder: Order
    var usedBytes: int
    var freeBytes: int
    var liveBlocks: int
    var freeBlocks: int
    ghost var blocks: Blocks
    ghost var chains: Chains

    ghost function Area(): Region
      reads this
    {
      Region(regionOff, mem.Length, maxOrder)
    }

    ghost function Now(): Image
      reads this, mem, heads
    {
      Image(Area(), mem[..], heads[..], chains, blocks)
    }

    /** The counters agree with the blocks, once `bytes` and `live` used bytes
        and blocks that are not counted yet (or any more) are added. */
    ghost predicate Counted(bytes: nat, live: nat)
      reads this
      requires Tiled(Area(), blocks)
    {
      var t := Total(Area(), blocks);
      && usedBytes + bytes == t.usedBytes && freeBytes == t.freeBytes
      && liveBlocks + live == t.live && freeBlocks == t.free
    }

    ghost predicate Valid()
      reads this, mem, heads
    {
      Faithful(Now(), 0) && Counted(0, 0)
    }

    /** Lays out an arena of `1 << (top + 1)` bytes: the state takes the leading
        power of two, and the rest is one free block of each order up to `top`. */
    constructor Init(arena: array<Cell>, ghost top: Order)
      requires arena.Length == 2 * Cells(top) < WORD_LIMIT && SEED_ORDER <= top < MAX_ORDER
      modifies arena
      ensures Valid() && mem == arena && fresh(heads)
      ensures Area() == Whole(top) && blocks == Seeds(top)
    {
      mem := arena;
      heads := new nat[MAX_ORDER + 1](i => 0);
      usedBytes, freeBytes, liveBlocks, freeBlocks := 0, 0, 0, 0;
      maxOrder := MIN_ORDER;
      blocks, chains := map[], seq(MAX_ORDER + 1, i => []);
      var stateBytes := 32;
      while stateBytes < STATE_RECORD
        invariant stateBytes in {32, 64, 128, 256, 512}
        decreases 512 - stateBytes
      {
        stateBytes := 2 * stateBytes;
      }
      regionOff := stateBytes / CELL_BYTES;
      new;
      SeedCells();
      SeedAll(top);
    }

    method SeedAll(ghost top: Order)
      requires mem.Length == 2 * Cells(top) < WORD_LIMIT && SEED_ORDER <= top < MAX_ORDER
      requires regionOff == Cells(SEED_ORDER)
      requires heads[..] == seq(MAX_ORDER + 1, i => 0) && blocks == map[] && chains == seq(MAX_ORDER + 1, i => [])
      requires usedBytes == freeBytes == liveBlocks == freeBlocks == 0 && maxOrder == MIN_ORDER
      modifies mem, heads, `freeBytes, `freeBlocks, `chains, `blocks, `maxOrder
      ensures Valid() && Area() == Whole(top) && blocks == Seeds(top)
    {
      hide Aligned, Cells, Canonical, Walk, Placed, Tiled, ListsOk, HeaderOk, Seeds;
      EmptyStored(Now());
      var off := regionOff;
      ghost var j: Order := SEED_ORDER;
      while off < mem.Length
        invariant SEED_ORDER <= j <= top + 1 && off == Cells(j)
        invariant Stored(Now()) && blocks == Seeds(j - 1)
        invariant freeBytes == 16 * (off - regionOff) && freeBlocks == j - SEED_ORDER
        invariant maxOrder == if j == SEED_ORDER then MIN_ORDER else j - 1
        decreases top + 1 - j
      {
        SeedsBelow(j, top);
        var block := LowBit(off);
        LowBitCells(j);
        var k := OrderOf(16 * block);
        OrderUnique(16 * block, k, j);
        PushSeed(off, k);
        if k > maxOrder {
          maxOrder := k;
        }
        CellsDouble(j);
        off := off + block;
        j := j + 1;
      }
      SeedsDone(j, top);
      CellsDouble(top);
      SeedsTiled(top);
      SeedsWalk(top, SEED_ORDER);
    }

    method PushSeed(off: nat, k: Order)
      requires Stored(Now()) && SEED_ORDER <= k <= MAX_ORDER && blocks == Seeds(k - 1)
      requires off == Cells(k) && off + 1 < mem.Length
      modifies mem, heads, `freeBytes, `freeBlocks, `chains, `blocks
      ensures Stored(Now()) && blocks == Seeds(k)
      ensures freeBytes == old(freeBytes) + Bytes(k) && freeBlocks == old(freeBlocks) + 1
    {
      ghost var i := Now();
      SeedsNext(k);
      SeedsShape(blocks, k - 1);
      PushFresh(i, off, k, Seeds(k));
      ListPush(off, k);
      blocks := Seeds(k);
      assert Now() == Push(i, off, k, blocks);
    }

    method ListPush(off: nat, k: Order)
      requires k <= MAX_ORDER && heads.Length == |chains| == MAX_ORDER + 1
      requires off + 1 < mem.Length < WORD_LIMIT && heads[k] < mem.Length
      modifies mem, heads, `freeBytes, `freeBlocks, `chains
      ensures mem[..] == PushMem(old(mem[..]), old(heads[k]), off, k)
      ensures heads[..] == old(heads[..])[k := off + 1]
      ensures chains == old(chains)[k := [off] + old(chains)[k]]
      ensures freeBytes == old(freeBytes) + Bytes(k) && freeBlocks == old(freeBlocks) + 1
    {
      mem[off] := Header(k, false);
      var head := heads[k];
      mem[off + 1] := Cell(head, 0);
      if head != 0 {
        mem[head] := Cell(mem[head].lo, off + 1);
      }
      heads[k] := off + 1;
      freeBytes := freeBytes + Bytes(k);
      freeBlocks := freeBlocks + 1;
      chains := chains[k := [off] + chains[k]];
    }

    method ListRemove(off: nat, k: Order, ghost j: nat)
      requires k <= MAX_ORDER && heads.Length == |chains| == MAX_ORDER + 1 && j < |chains[k]|
      requires off + 1 < mem.Length && mem[off + 1].lo < mem.Length && mem[off + 1].hi < mem.Length
      requires mem[off + 1].hi != off + 1
      modifies mem, heads, `freeBytes, `freeBlocks, `chains
      ensures mem[..] == RemoveMem(old(mem[..]), off)
      ensures heads[..] == old(heads[..])[k := RemoveHead(old(mem[..]), old(heads[k]), off)]
      ensures chains == old(chains)[k := Without(old(chains)[k], j)]
      ensures freeBytes == old(freeBytes) - Bytes(k) && freeBlocks == old(freeBlocks) - 1
    {
      var n := off + 1;
      if mem[n].hi != 0 {
        mem[mem[n].hi] := Cell(mem[n].lo, mem[mem[n].hi].hi);
      } else {
        heads[k] := mem[n].lo;
      }
      if mem[n].lo != 0 {
        mem[mem[n].lo] := Cell(mem[mem[n].lo].lo, mem[n].hi);
      }
      freeBytes := freeBytes - Bytes(k);
      freeBlocks := freeBlocks - 1;
      chains := chains[k := Without(chains[k], j)];
    }

    /** One turn of the split loop: the upper half of the block in hand is freed. */
    method PushHalf(off: nat, k: Order)
      requires InHand(Now(), off) && blocks[off].order == k + 1
      requires Counted(Bytes(k + 1), 1)
      modifies mem, heads, `freeBytes, `freeBlocks, `chains, `blocks
      ensures InHand(Now(), off) && blocks == Split(old(blocks), off)
      ensures Counted(Bytes(k), 1)
      ensures PayloadsKept(old(blocks), off, old(mem[..]), mem[..])
    {
      hide Aligned, Cells, Canonical, Walk, Placed, Tiled;
      ghost var i := Now();
      PushHalfStep(i, off);
      TotalSplit(i.r, i.bs, off, k);
      CellsDouble(k);
      ListPush(off + Cells(k), k);
      blocks := Split(blocks, off);
      assert Now() == Push(i, off + Cells(k), k, blocks);
    }

    /** One turn of the merge loop: the free sibling at `s` joins the block in hand. */
    method TakeSibling(off: nat, k: Order, s: nat) returns (p: nat)
      requires InHand(Now(), off) && blocks[off].order == k
      requires Mergeable(Area(), blocks, off) && s == Sibling(off, k)
      requires Counted(Bytes(k), 1)
      modifies mem, heads, `freeBytes, `freeBlocks, `chains, `blocks
      ensures p == if s < off then s else off
      ensures InHand(Now(), p) && blocks == Join(old(blocks), off, s)
      ensures Counted(Bytes(k + 1), 1)
      ensures PayloadsKept(old(blocks), off, old(mem[..]), mem[..])
    {
      hide Aligned, Cells, Canonical, Walk, Placed, Tiled;
      ghost var i := Now();
      ghost var j := FreeBlockInChain(i, off, s, k);
      JoinStep(i, off, j);
      TotalJoin(i.r, i.bs, off, s, k);
      CellsDouble(k);
      NodeNotItself(i, off, k, j);
      ListRemove(s, k, j);
      blocks := Join(blocks, off, s);
      assert Now() == Unlink(i, k, j, blocks);
      p := if s < off then s else off;
    }

    /** Takes the most recently freed block of the least order that is big enough
        and cuts it down. NULL means no aligned run of the wanted size is free. */
    method Alloc(size: nat) returns (p: Option<nat>, ghost want: Order)
      requires Valid()
      modifies this, mem, heads
      ensures Valid() && Area() == old(Area())
      ensures IsOrderOf(size + CELL_BYTES, want)
      ensures p.None? ==> blocks == old(blocks) && mem[..] == old(mem[..])
      ensures p.None? ==> forall run: nat :: !FreeRun(Area(), blocks, run, want)
      ensures p.Some? ==>
                && p.value > 0 && BestFit(old(blocks), p.value - 1, want)
                && blocks == Take(old(blocks), p.value - 1, want)
                && Live(blocks) == Live(old(blocks))[p.value - 1 := want]
                && PayloadsKept(old(blocks), p.value - 1, old(mem[..]), mem[..])
      ensures p.Some? ==>
                var k := old(blocks)[p.value - 1].order; k < |old(heads[..])| && p.value == old(heads[..])[k]
    {
      hide Aligned, Cells, Canonical, Walk, Placed, Tiled;
      p := None;
      if size > CELL_BYTES * mem.Length {
        ghost var w := OrderOf(size + CELL_BYTES);
        want := w;
        TooBigForRegion(Now(), size + CELL_BYTES, want);
        return;
      }
      var w := OrderOf(size + CELL_BYTES);
      want := w;
      if w > maxOrder {
        NoneBelow(Now(), w, w);
        NoFreeRun(Now(), w);
        return;
      }
      var k := Search(w);
      if k > maxOrder {
        NoFreeRun(Now(), w);
        return;
      }
      var off := Grab(k);
      ghost var i := Now();
      SplitTo(off, k, w);
      PayloadsChain(old(blocks), i.bs, off, off, old(mem[..]), i.mem, mem[..]);
      TakeAllocates(i.r, old(blocks), off, w);
      p := Some(off + 1);
    }

    /** The least order from `w` up whose list is not empty. */
    method Search(w: Order) returns (k: Order)
      requires Valid()
      ensures w <= k && (k <= maxOrder ==> heads[k] != 0)
      ensures forall o | o in blocks && !blocks[o].used && w <= blocks[o].order :: k <= blocks[o].order
    {
      k := w;
      while k <= maxOrder && heads[k] == 0
        invariant w <= k
        invariant forall j: nat | w <= j < k && j <= maxOrder :: heads[j] == 0
        decreases maxOrder + 1 - k
      {
        k := k + 1;
      }
      NoneBelow(Now(), w, k);
    }

    /** Unlinks the head of list `k`; the block is then in hand. */
    method Grab(k: Order) returns (off: nat)
      requires Valid() && k <= maxOrder && heads[k] != 0
      modifies mem, heads, `freeBytes, `freeBlocks, `chains, `blocks
      ensures IsFree(old(blocks), off, k) && blocks == old(blocks)[off := Block(k, true)]
      ensures k < heads.Length && off + 1 == old(heads[k])
      ensures InHand(Now(), off) && Counted(Bytes(k), 1)
      ensures PayloadsKept(old(blocks), off, old(mem[..]), mem[..])
    {
      hide Aligned, Cells, ChainOk, Canonical, Abuts, Apart;
      ghost var i := Now();
      HeadInBounds(i, 0, k);
      off := heads[k] - 1;
      GrabStep(i, k, 0);
      UnlinkPayloads(i, 0, k, 0);
      TotalMark(i.r, i.bs, off, k, true);
      NodeNotItself(i, 0, k, 0);
      ListRemove(off, k, 0);
      blocks := blocks[off := Block(k, true)];
      assert Now() == Unlink(i, k, 0, blocks);
    }

    /** The split loop, then the header of the block handed out. */
    method SplitTo(off: nat, top: Order, want: Order)
      requires InHand(Now(), off) && blocks[off].order == top && want <= top
      requires Counted(Bytes(top), 1)
      modifies this, mem, heads
      ensures Valid() && Area() == old(Area())
      ensures blocks == SplitDown(old(blocks), off, want)
      ensures PayloadsKept(old(blocks), off, old(mem[..]), mem[..])
    {
      hide Aligned, Cells, Canonical, Walk, Placed, Tiled;
      var k := top;
      while k > want
        invariant want <= k
        invariant InHand(Now(), off) && blocks[off].order == k
        invariant Counted(Bytes(k), 1) && Area() == old(Area())
        invariant SplitDown(blocks, off, want) == SplitDown(old(blocks), off, want)
        invariant SameUsed(old(blocks), blocks, off)
        invariant PayloadsKept(old(blocks), off, old(mem[..]), mem[..])
        modifies mem, heads, `freeBytes, `freeBlocks, `chains, `blocks
      {
        k := k - 1;
        ghost var i := Now();
        PushHalf(off, k);
        SplitChain(i.r, old(blocks), i.bs, off, want, old(mem[..]), i.mem, mem[..]);
      }
      Stamp(off, want, old(mem[..]), old(blocks));
    }

    /** Marks the block in hand in use. */
    method Stamp(off: nat, want: Order, ghost m0: seq<Cell>, ghost bs0: Blocks)
      requires InHand(Now(), off) && blocks[off].order == want && Counted(Bytes(want), 1)
      requires Tiled(Area(), bs0) && off in bs0 && PayloadsKept(bs0, off, m0, mem[..])
      modifies mem, `usedBytes, `liveBlocks
      ensures Valid()
      ensures PayloadsKept(bs0, off, m0, mem[..])
    {
      ghost var i := Now();
      assert Placed(i.r, off, want);
      WriteStep(i, off, off, off, Header(want, true));
      mem[off] := Header(want, true);
      assert Now() == i.(mem := mem[..]);
      HeaderWriteKeeps(i.r, bs0, off, m0, i.mem, Header(want, true));
      usedBytes := usedBytes + Bytes(want);
      liveBlocks := liveBlocks + 1;
    }

    /** Frees the block whose payload starts at cell `p` and merges it upwards. */
    method FreeBlock(p: Option<nat>)
      requires Valid()
      requires p.Some? ==> p.value > 0 && p.value - 1 in blocks && blocks[p.value - 1].used
      modifies this, mem, heads
      ensures Valid() && Area() == old(Area())
      ensures p.None? ==> blocks == old(blocks) && mem[..] == old(mem[..])
      ensures p.Some? ==>
                && Tiled(Area(), old(blocks)) && Placed(Area(), p.value - 1, old(blocks)[p.value - 1].order)
                && blocks == Coalesce(Area(), old(blocks), p.value - 1)
                && Live(blocks) == Live(old(blocks)) - {p.value - 1}
                && PayloadsKept(old(blocks), p.value - 1, old(mem[..]), mem[..])
    {
      if p.None? {
        return;
      }
      var off := p.value - 1;
      CoalesceFrees(Area(), blocks, off);
      var k := Unstamp(off);
      MergeUp(off, k);
    }

    /** Clears the in-use half of the header; the block is then in hand. */
    method Unstamp(off: nat) returns (k: Order)
      requires Valid() && off in blocks && blocks[off].used
      modifies mem, `usedBytes, `liveBlocks
      ensures k == blocks[off].order && InHand(Now(), off) && Counted(Bytes(k), 1)
      ensures PayloadsKept(blocks, off, old(mem[..]), mem[..])
    {
      hide Aligned, Cells, Canonical, Walk;
      ghost var i := Now();
      assert HeaderOk(i.mem, i.bs, off);
      k := HeaderOrder(mem[off]);
      UnstampStep(i, off, k);
      HeaderWriteKeeps(i.r, i.bs, off, i.mem, i.mem, Cell(MAGIC, k));
      mem[off] := Cell(mem[off].lo, k);
      assert Now() == i.(mem := mem[..]);
      usedBytes := usedBytes - Bytes(k);
      liveBlocks := liveBlocks - 1;
    }

    /** The merge loop, then the push of the merged block. */
    method MergeUp(start: nat, order: Order)
      requires InHand(Now(), start) && blocks[start].order == order && Counted(Bytes(order), 1)
      modifies mem, heads, `freeBytes, `freeBlocks, `chains, `blocks
      ensures Valid() && blocks == Coalesce(Area(), old(blocks), start)
      ensures PayloadsKept(old(blocks), start, old(mem[..]), mem[..])
    {
      hide Aligned, Cells, Canonical, Walk, Placed, Tiled;
      var off, k := start, order;
      while k < maxOrder
        invariant InHand(Now(), off) && blocks[off].order == k && k <= maxOrder
        invariant Counted(Bytes(k), 1)
        invariant Coalesce(Area(), blocks, off) == Coalesce(Area(), old(blocks), start)
        invariant OthersKept(old(blocks), start, blocks, off)
        invariant PayloadsKept(old(blocks), start, old(mem[..]), mem[..])
        decreases maxOrder - k
      {
        var s := Sibling(off, k);
        var free := SiblingIsFree(off, k, s);
        if !free {
          break;
        }
        ghost var i, o := Now(), off;
        off := TakeSibling(off, k, s);
        k := k + 1;
        MergeChain(i.r, old(blocks), start, i.bs, o, s, old(mem[..]), i.mem, mem[..]);
      }
      ghost var i := Now();
      Drop(off, k);
      PayloadsChain(old(blocks), i.bs, start, off, old(mem[..]), i.mem, mem[..]);
    }

    /** The test the merge loop makes on the header it finds at the sibling address. */
    method SiblingIsFree(off: nat, k: Order, s: nat) returns (free: bool)
      requires InHand(Now(), off) && blocks[off].order == k < maxOrder && s == Sibling(off, k)
      ensures free <==> Mergeable(Area(), blocks, off)
    {
      ghost var i := Now();
      if s < regionOff {
        assert s in blocks ==> Placed(i.r, s, blocks[s].order);
        return false;
      }
      SiblingIsBlock(i.r, i.bs, off);
      SiblingIsOtherHalf(off, k);
      assert HeaderOk(i.mem, i.bs, s);
      var h := mem[s];
      free := h.lo == MAGIC && !HeaderUsed(h) && HeaderOrder(h) == k;
    }

    /** A client's store into a payload cell: any value at all, even one that
        looks like a header or a pair of links. */
    method ClientWrite(ghost off: nat, c: nat, v: Cell)
      requires Valid() && off in blocks && blocks[off].used && off < c < End(blocks, off)
      modifies mem
      ensures Valid() && c < mem.Length && mem[..] == old(mem[..])[c := v]
    {
      ghost var i := Now();
      assert Placed(i.r, off, i.bs[off].order);
      WriteStep(i, 0, off, c, v);
      mem[c] := v;
      assert Now() == i.(mem := mem[..]);
    }

    method UsableSize(p: nat) returns (n: nat)
      requires Valid() && p > 0 && p - 1 in blocks && blocks[p - 1].used
      ensures n == CELL_BYTES * (End(blocks, p - 1) - p)
    {
      ReadHeader(Now(), p - 1);
      n := Bytes(HeaderOrder(mem[p - 1])) - CELL_BYTES;
    }

    /** Totals over all blocks, and the size of the largest free one (0 for none). */
    method Stats()
      returns (arenaSize: nat, used: nat, free: nat, live: nat, idle: nat, largest: nat)
      requires Valid()
      ensures arenaSize == CELL_BYTES * mem.Length && Tally(used, free, live, idle) == Total(Area(), blocks)
      ensures used == MapSum(LiveBytes(Live(blocks))) && used + free == CELL_BYTES * (mem.Length - regionOff)
      ensures live == |Live(blocks)| && live + idle == |blocks|
      ensures forall o | o in blocks && !blocks[o].used :: Bytes(blocks[o].order) <= largest
      ensures largest == 0 || exists o :: o in blocks && !blocks[o].used && Bytes(blocks[o].order) == largest
    {
      hide MapSum, LiveBytes, Live;
      TotalIsLive(Area(), blocks);
      arenaSize := CELL_BYTES * mem.Length;
      used, free, live, idle := usedBytes, freeBytes, liveBlocks, freeBlocks;
      largest := 0;
      var k: nat := maxOrder + 1;
      while k > MIN_ORDER
        invariant MIN_ORDER <= k <= maxOrder + 1
        invariant forall o | o in blocks && !blocks[o].used :: blocks[o].order < k
      {
        k := k - 1;
        HeadInBounds(Now(), 0, k);
        if heads[k] != 0 {
          largest := Bytes(k);
          LargestIs(Now(), k);
          return;
        }
        NothingOfOrder(Now(), k);
      }
    }

    /** Pushes the block in hand, which cannot be merged any further. */
    method Drop(off: nat, k: Order)
      requires InHand(Now(), off) && blocks[off].order == k && !Mergeable(Area(), blocks, off)
      requires Counted(Bytes(k), 1)
      modifies mem, heads, `freeBytes, `freeBlocks, `chains, `blocks
      ensures Valid() && blocks == old(blocks)[off := Block(k, false)]
      ensures PayloadsKept(old(blocks), off, old(mem[..]), mem[..])
    {
      ghost var i := Now();
      DropStep(i, off);
      TotalMark(i.r, i.bs, off, k, false);
      ListPush(off, k);
      blocks := blocks[off := Block(k, false)];
      assert Now() == Push(i, off, k, blocks);
    }
  }

  lemma ReadHeader(i: Image, o: nat)
    requires Faithful(i, 0) && o in i.bs
    ensures o < |i.mem| && i.mem[o].lo == MAGIC
    ensures HeaderOrder(i.mem[o]) == i.bs[o].order && HeaderUsed(i.mem[o]) == i.bs[o].used
  {
    assert HeaderOk(i.mem, i.bs, o);
  }

  lemma LargestIs(i: Image, k: Order)
    requires Faithful(i, 0) && k <= i.r.top && i.chains[k] != []
    requires forall o | o in i.bs && !i.bs[o].used :: i.bs[o].order <= k
    ensures forall o | o in i.bs && !i.bs[o].used :: Bytes(i.bs[o].order) <= Bytes(k)
    ensures exists o :: o in i.bs && !i.bs[o].used && Bytes(i.bs[o].order) == Bytes(k)
  {
    NodeInBounds(i, 0, k, 0);
    forall o | o in i.bs && !i.bs[o].used ensures Bytes(i.bs[o].order) <= Bytes(k) {
      CellsGrow(i.bs[o].order, k);
    }
  }

  lemma NothingOfOrder(i: Image, k: Order)
    requires Faithful(i, 0) && k <= MAX_ORDER && i.chains[k] == []
    ensures forall o | o in i.bs && !i.bs[o].used :: i.bs[o].order != k
  {
    forall o | o in i.bs && !i.bs[o].used ensures i.bs[o].order != k {
      if i.bs[o].order == k { var j := FreeBlockInChain(i, 0, o, k); }
    }
  }

  /** Used blocks other than the one in hand are the same blocks afterwards. */
  ghost predicate OthersKept(bs0: Blocks, o0: nat, bs: Blocks, o: nat) {
    forall x | x in bs0 && bs0[x].used && x != o0 :: x != o && x in bs && bs[x] == bs0[x]
  }

  lemma {:induction false} MergeChain(r: Region, bs0: Blocks, o0: nat, bs: Blocks, o: nat, s: nat,
                   m0: seq<Cell>, m: seq<Cell>, m': seq<Cell>)
    requires Tiled(r, bs) && Mergeable(r, bs, o) && s == Sibling(o, bs[o].order)
    requires OthersKept(bs0, o0, bs, o)
    requires PayloadsKept(bs0, o0, m0, m) && PayloadsKept(bs, o, m, m')
    ensures OthersKept(bs0, o0, Join(bs, o, s), if s < o then s else o)
    ensures PayloadsKept(bs0, o0, m0, m')
    ensures Tiled(r, Join(bs, o, s))
    ensures Coalesce(r, bs, o) == Coalesce(r, Join(bs, o, s), if s < o then s else o)
  {
    JoinTiled(r, bs, o, s);
    PayloadsChain(bs0, bs, o0, o, m0, m, m');
  }

  /** `off` is a free block of the least order that is at least `want`. */
  ghost predicate BestFit(bs: Blocks, off: nat, want: Order) {
    && off in bs && !bs[off].used && want <= bs[off].order
    && forall o | o in bs && !bs[o].used && want <= bs[o].order :: bs[off].order <= bs[o].order
  }

  /** Used blocks other than `o` are the same blocks afterwards. */
  ghost predicate SameUsed(bs: Blocks, bs': Blocks, o: nat) {
    forall x | x in bs && bs[x].used && x != o :: x in bs' && bs'[x] == bs[x]
  }

  lemma PayloadsChain(bs0: Blocks, bs: Blocks, o0: nat, o: nat, m0: seq<Cell>, m: seq<Cell>, m': seq<Cell>)
    requires PayloadsKept(bs0, o0, m0, m) && PayloadsKept(bs, o, m, m')
    requires forall x | x in bs0 && bs0[x].used && x != o0 :: x != o && x in bs && bs[x] == bs0[x]
    ensures PayloadsKept(bs0, o0, m0, m')
  {
    forall x: nat, c: nat {:trigger Covers(bs0, x, c)} |
      Covers(bs0, x, c) && bs0[x].used && x != o0 && x < c < |m0|
      ensures m'[c] == m0[c]
    {
      assert Covers(bs, x, c);
    }
  }

  lemma {:induction false} SplitChain(r: Region, bs0: Blocks, bs: Blocks, o: nat, want: Order, m0: seq<Cell>,
                                      m: seq<Cell>, m': seq<Cell>)
    requires Tiled(r, bs) && o in bs && bs[o].order > want && SameUsed(bs0, bs, o)
    requires PayloadsKept(bs0, o, m0, m) && PayloadsKept(bs, o, m, m')
    ensures SameUsed(bs0, Split(bs, o), o) && PayloadsKept(bs0, o, m0, m')
    ensures SplitDown(bs, o, want) == SplitDown(Split(bs, o), o, want)
  {
    SplitTiled(r, bs, o);
    PayloadsChain(bs0, bs, o, o, m0, m, m');
  }

  lemma HeaderWriteKeeps(r: Region, bs: Blocks, o: nat, m0: seq<Cell>, m: seq<Cell>, v: Cell)
    requires PayloadsKept(bs, o, m0, m) && o in bs && o < |m|
    requires Tiled(r, bs)
    ensures PayloadsKept(bs, o, m0, m[o := v])
  {
    forall x: nat | Covers(bs, x, o) ensures x == o { SameBlock(r, bs, x, o, o); }
  }

  lemma NoneBelow(i: Image, w: Order, k: nat)
    requires Faithful(i, 0) && w <= k
    requires forall j: nat | w <= j < k && j <= i.r.top :: i.heads[j] == 0
    ensures forall o | o in i.bs && !i.bs[o].used && w <= i.bs[o].order :: k <= i.bs[o].order
  {
    forall o | o in i.bs && !i.bs[o].used && w <= i.bs[o].order ensures k <= i.bs[o].order {
      var j := i.bs[o].order;
      assert Placed(i.r, o, j);
      var x := FreeBlockInChain(i, 0, o, j);
      HeadInBounds(i, 0, j);
    }
  }

  lemma NoFreeRun(i: Image, w: Order)
    requires Faithful(i, 0)
    requires forall o | o in i.bs && !i.bs[o].used && w <= i.bs[o].order :: i.r.top < i.bs[o].order
    ensures forall run: nat :: !FreeRun(i.r, i.bs, run, w)
  {
    forall run: nat ensures !FreeRun(i.r, i.bs, run, w) {
      if FreeRun(i.r, i.bs, run, w) {
        var o := FreeRunInOneBlock(i.r, i.bs, run, w);
      }
    }
  }

  lemma TooBigForRegion(i: Image, n: nat, w: Order)
    requires Faithful(i, 0) && IsOrderOf(n, w) && n > CELL_BYTES * |i.mem|
    ensures forall run: nat :: !FreeRun(i.r, i.bs, run, w)
  {
  }

  lemma NodeNotItself(i: Image, hand: nat, k: Order, j: nat)
    requires Faithful(i, hand) && k <= MAX_ORDER && j < |i.chains[k]|
    ensures var n := i.chains[k][j] + 1; n < |i.mem| && i.mem[n].hi != n
  {
    assert ChainOk(i.mem, i.heads, i.chains, FreeOf(i.bs), k);
    Neighbours(i.mem, i.heads[k], i.chains[k], j);
  }
}
