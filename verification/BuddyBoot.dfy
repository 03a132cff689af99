/** Laying out a fresh arena: facts for the loop that pushes the seed blocks. */
module BuddyBoot {
  import opened BuddyMath
  import opened Memory
  import opened BuddyLayout
  import opened BuddyLists
  import opened BuddyImage
  import opened BuddyRuns

  /** The least order, at least 5, whose block holds `n` bytes. */
  ghost predicate IsOrderOf(n: nat, k: Order) {
    n <= Bytes(k) && (k > MIN_ORDER ==> Bytes(k - 1) < n)
  }

  /** The lists and headers store the blocks laid out so far. */
  ghost predicate Stored(i: Image) {
    && |i.mem| < WORD_LIMIT && ListsOk(i.mem, i.heads, i.chains, FreeOf(i.bs))
    && (forall o {:trigger HeaderOk(i.mem, i.bs, o)} | o in i.bs :: HeaderOk(i.mem, i.bs, o))
  }

  lemma EmptyStored(i: Image)
    requires |i.mem| < WORD_LIMIT && i.bs == map[]
    requires i.heads == seq(MAX_ORDER + 1, k => 0) && i.chains == seq(MAX_ORDER + 1, k => [])
    ensures Stored(i) && i.bs == Seeds(SEED_ORDER - 1)
  {
  }

  lemma {:induction false} SeedsBelow(j: Order, top: Order)
    requires Cells(j) < 2 * Cells(top)
    ensures j <= top && Cells(j) + 1 < 2 * Cells(top)
  {
    if j > top { CellsGrow(top, j); }
  }

  lemma {:induction false} SeedsDone(j: Order, top: Order)
    requires j <= top + 1 && Cells(j) >= 2 * Cells(top)
    ensures j == top + 1
  {
    if j <= top { CellsGrow(j, top); }
  }

  /** `x & (~x + 1)`: the lowest set bit. */
  function LowBit(x: nat): (b: nat)
    requires x > 0
    ensures 0 < b <= x
  {
    if x % 2 == 1 then 1 else 2 * LowBit(x / 2)
  }

  lemma {:induction false} LowBitCells(k: Order)
    ensures LowBit(Cells(k)) == Cells(k)
  {
    if k > MIN_ORDER { LowBitCells(k - 1); } else { assert LowBit(1) == 1; }
  }

  lemma OrderUnique(n: nat, k: Order, j: Order)
    requires IsOrderOf(n, k) && n == Bytes(j)
    ensures k == j
  {
    if k < j { CellsGrow(k, j); }
    if j < k { CellsGrow(j, k - 1); }
  }

  ghost predicate SmallSeed(bs: Blocks, o: nat, j: Order)
    requires o in bs
  {
    o % 2 == 0 && o + 1 < Cells(j) && bs[o].order < j && !bs[o].used
  }

  lemma {:induction false} SmallerSeed(k: Order, o: nat)
    requires o in Seeds(k)
    ensures SmallSeed(Seeds(k), o, k + 1)
  {
    var x := SeedIs(k, o);
    CellsGrow(x, k + 1);
  }

  lemma SeedsNext(j: Order)
    requires j >= SEED_ORDER
    ensures Seeds(j) == Seeds(j - 1)[Cells(j) := Block(j, false)]
  {
  }

  lemma {:induction false} SeedsShape(bs: Blocks, k: Order)
    requires bs == Seeds(k)
    ensures forall o | o in bs :: SmallSeed(bs, o, k + 1)
  {
    forall o | o in bs ensures SmallSeed(bs, o, k + 1) { SmallerSeed(k, o); }
  }

  lemma EmptyChain(i: Image, j: Order)
    requires ListsOk(i.mem, i.heads, i.chains, FreeOf(i.bs)) && j <= MAX_ORDER
    requires forall o | o in i.bs :: SmallSeed(i.bs, o, j)
    ensures i.chains[j] == [] && i.heads[j] == 0
  {
    assert ChainOk(i.mem, i.heads, i.chains, FreeOf(i.bs), j);
  }

  lemma {:induction false} SeedHeaders(i: Image, j: Order, bs': Blocks)
    requires j <= MAX_ORDER && Cells(j) + 1 < |i.mem| < WORD_LIMIT
    requires forall o | o in i.bs :: SmallSeed(i.bs, o, j) && HeaderOk(i.mem, i.bs, o)
    requires bs' == i.bs[Cells(j) := Block(j, false)]
    ensures var mem' := PushMem(i.mem, 0, Cells(j), j);
            forall o {:trigger HeaderOk(mem', bs', o)} | o in bs' :: HeaderOk(mem', bs', o)
  {
  }

  lemma {:induction false} PushFresh(i: Image, off: nat, j: Order, bs': Blocks)
    requires off == Cells(j) && j <= MAX_ORDER && off + 1 < |i.mem| && Stored(i)
    requires forall o | o in i.bs :: SmallSeed(i.bs, o, j)
    requires bs' == i.bs[off := Block(j, false)]
    ensures i.heads[j] < |i.mem| && |i.heads| == |i.chains| == MAX_ORDER + 1
    ensures Stored(Push(i, off, j, bs'))
  {
    hide Aligned, Cells, Tiled, ChainOk, PushMem;
    var free := FreeOf(i.bs);
    EmptyChain(i, j);
    PushLists(i.mem, i.heads, i.chains, free, off, j);
    assert FreeOf(bs') == free[off := j];
    assert forall o | o in i.bs :: HeaderOk(i.mem, i.bs, o);
    SeedHeaders(i, j, bs');
  }
}
