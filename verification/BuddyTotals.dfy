/** The buddy counters, told from the live blocks alone. */
module BuddyTotals {
  import opened BuddyMath
  import opened BuddyLayout
  import opened Totals

  /** The bytes of each used, or each free, block from `o` on. */
  ghost function BytesOf(bs: Blocks, used: bool, o: nat): map<nat, nat> {
    map x | x in bs && bs[x].used == used && x >= o :: 16 * Cells(bs[x].order)
  }

  lemma BytesStep(r: Region, bs: Blocks, used: bool, o: nat)
    requires Tiled(r, bs) && o in bs
    ensures o !in BytesOf(bs, used, End(bs, o))
    ensures BytesOf(bs, used, o)
            == if bs[o].used == used then BytesOf(bs, used, End(bs, o))[o := 16 * Cells(bs[o].order)]
               else BytesOf(bs, used, End(bs, o))
  {
    hide Cells, Aligned;
    assert Placed(r, o, bs[o].order);
    forall x | x in bs && x > o ensures x >= End(bs, o) { assert Apart(bs, o, x); }
  }

  lemma BytesEnd(r: Region, bs: Blocks, used: bool)
    requires Tiled(r, bs)
    ensures BytesOf(bs, used, r.hi) == map[]
  {
    hide Cells, Aligned;
    forall x | x in bs ensures x < r.hi { assert Placed(r, x, bs[x].order); }
  }

  /** The totals from `o` on: the bytes and the number of the used blocks and of the
      free ones, and together the whole stretch. */
  lemma {:induction false} WalkSums(r: Region, bs: Blocks, o: nat)
    requires Tiled(r, bs) && (o == r.hi || o in bs)
    ensures var t := Walk(r, bs, o);
            && t.usedBytes == MapSum(BytesOf(bs, true, o)) && t.live == |BytesOf(bs, true, o)|
            && t.freeBytes == MapSum(BytesOf(bs, false, o)) && t.free == |BytesOf(bs, false, o)|
            && o <= r.hi && t.usedBytes + t.freeBytes == 16 * (r.hi - o)
    decreases if o <= r.hi then r.hi - o else 0
  {
    hide Cells, Aligned, Walk, BytesOf, MapSum, Tiled;
    if o == r.hi {
      WalkEnd(r, bs);
      BytesEnd(r, bs, true);
      BytesEnd(r, bs, false);
      NoSum();
    } else {
      BlockInside(r, bs, o);
      WalkStep(r, bs, o);
      WalkSums(r, bs, End(bs, o));
      BytesStep(r, bs, true, o);
      BytesStep(r, bs, false, o);
      SumMore(BytesOf(bs, bs[o].used, End(bs, o)), o, 16 * Cells(bs[o].order));
    }
  }

  lemma BlockInside(r: Region, bs: Blocks, o: nat)
    requires Tiled(r, bs) && o in bs
    ensures o < End(bs, o) <= r.hi && End(bs, o) == o + Cells(bs[o].order)
  {
    hide Aligned;
    assert Placed(r, o, bs[o].order);
  }

  lemma NoSum()
    ensures MapSum(map[]) == 0
  {
  }

  lemma SumMore(m: map<nat, nat>, k: nat, v: nat)
    requires k !in m
    ensures MapSum(m[k := v]) == MapSum(m) + v && |m[k := v]| == |m| + 1
  {
    SumWith(m, k, v);
    assert m[k := v].Keys == m.Keys + {k};
  }

  /** The live blocks by their bytes. */
  ghost function LiveBytes(live: map<nat, Order>): map<nat, nat> {
    map x | x in live :: 16 * Cells(live[x])
  }

  /** The counters of a region: the used side is what the live blocks say, and the
      free side is the rest of the region. */
  lemma TotalIsLive(r: Region, bs: Blocks)
    requires Tiled(r, bs)
    ensures var t := Total(r, bs);
            && t.usedBytes == MapSum(LiveBytes(Live(bs))) && t.live == |Live(bs)|
            && r.lo <= r.hi && t.usedBytes + t.freeBytes == 16 * (r.hi - r.lo)
            && t.free == |bs| - |Live(bs)|
  {
    hide Cells, Aligned, Walk;
    WalkSums(r, bs, r.lo);
    forall x | x in bs ensures x >= r.lo { assert Placed(r, x, bs[x].order); }
    assert BytesOf(bs, true, r.lo) == LiveBytes(Live(bs));
    assert BytesOf(bs, true, r.lo).Keys == Live(bs).Keys;
    assert bs.Keys == BytesOf(bs, true, r.lo).Keys + BytesOf(bs, false, r.lo).Keys;
  }
}
