/** The layout a fresh arena starts from, and what holds over whole runs. */
module BuddyRuns {
  import opened BuddyMath
  import opened BuddyLayout

  /** The allocator's own state takes 512 bytes, the first block of order 9. */
  const SEED_ORDER: Order := 9

  lemma SeedCells()
    ensures Cells(SEED_ORDER) == 32
  {
    assert Cells(6) == 4 && Cells(7) == 8 && Cells(8) == 16;
  }

  function Whole(top: Order): Region {
    Region(Cells(SEED_ORDER), 2 * Cells(top), top)
  }

  /** One free block of each order from 9 to `k`, each at its own size. */
  function Seeds(k: Order): Blocks {
    if k < SEED_ORDER then map[] else Seeds(k - 1)[Cells(k) := Block(k, false)]
  }

  lemma {:induction false} SeedAt(k: Order, j: Order)
    requires SEED_ORDER <= j <= k
    ensures Cells(j) in Seeds(k) && Seeds(k)[Cells(j)] == Block(j, false)
  {
    if j < k {
      CellsGrow(j, k);
      SeedAt(k - 1, j);
    }
  }

  lemma {:induction false} SeedIs(k: Order, o: nat) returns (j: Order)
    requires o in Seeds(k)
    ensures SEED_ORDER <= j <= k && o == Cells(j) && Seeds(k)[o] == Block(j, false)
  {
    if o == Cells(k) { j := k; } else { j := SeedIs(k - 1, o); }
  }

  lemma {:induction false} ZeroAligned(k: Order)
    ensures Aligned(0, k)
  {
    if k > MIN_ORDER { ZeroAligned(k - 1); }
  }

  /** A block at its own size has its sibling at 0, where the state lives. */
  lemma {:induction false} SeedSibling(j: Order)
    ensures Aligned(Cells(j), j) && Sibling(Cells(j), j) == 0
  {
    CellsAligned(j);
    SiblingIsOtherHalf(Cells(j), j);
    if Aligned(Cells(j), j + 1) {
      ZeroAligned(j + 1);
      AlignedGap(0, Cells(j), j + 1);
    }
  }

  lemma {:induction false} SeedPlaced(k: Order, j: Order)
    requires SEED_ORDER <= j <= k
    ensures var r, o := Whole(k), Cells(j);
            && o in Seeds(k) && Seeds(k)[o] == Block(j, false) && Sibling(o, j) == 0
            && Placed(r, o, j) && Abuts(r, Seeds(k), o)
  {
    hide Aligned, Cells, Seeds;
    SeedAt(k, j);
    SeedSibling(j);
    CellsGrow(SEED_ORDER, j);
    CellsGrow(j, k);
    CellsDouble(j);
    if j < k { SeedAt(k, j + 1); }
  }

  lemma {:induction false} SeedsApart(k: Order, o: nat, p: nat)
    ensures Apart(Seeds(k), o, p)
  {
    hide Aligned, Cells, Seeds;
    var bs := Seeds(k);
    if o in bs && p in bs && o < p {
      var i := SeedIs(k, o);
      var j := SeedIs(k, p);
      if j <= i { CellsGrow(j, i); } else { CellsGrow(i, j); }
    }
  }

  lemma {:induction false} SeedsTiled(k: Order)
    requires k >= SEED_ORDER
    ensures Tiled(Whole(k), Seeds(k)) && Canonical(Whole(k), Seeds(k)) && Live(Seeds(k)) == map[]
  {
    hide Aligned, Cells, Seeds, Placed, Abuts, Apart;
    var r, bs := Whole(k), Seeds(k);
    SeedAt(k, SEED_ORDER);
    CellsGrow(SEED_ORDER, k);
    CellsDouble(k);
    forall o | o in bs
      ensures !bs[o].used && Placed(r, o, bs[o].order) && Abuts(r, bs, o) && Sibling(o, bs[o].order) == 0
    {
      var j := SeedIs(k, o);
      SeedPlaced(k, j);
    }
    forall o, p ensures Apart(bs, o, p) { SeedsApart(k, o, p); }
    assert Cells(SEED_ORDER) > 0;
    ZeroIsNoSeed(k);
  }

  lemma {:induction false} ZeroIsNoSeed(k: Order)
    ensures 0 !in Seeds(k)
  {
    if 0 in Seeds(k) { var j := SeedIs(k, 0); }
  }

  lemma SeedStep(k: Order, j: Order)
    requires SEED_ORDER <= j <= k && Tiled(Whole(k), Seeds(k))
    ensures Cells(j) in Seeds(k) && (Cells(j + 1) == 2 * Cells(k) || Cells(j + 1) in Seeds(k))
    ensures Walk(Whole(k), Seeds(k), Cells(j))
            == Tally(0, 16 * Cells(j), 0, 1).Plus(Walk(Whole(k), Seeds(k), Cells(j + 1)))
  {
    hide Aligned, Cells, Tiled, Walk, Seeds;
    SeedAt(k, j);
    CellsDouble(j);
    WalkStep(Whole(k), Seeds(k), Cells(j));
  }

  lemma {:induction false} SeedsWalk(k: Order, j: Order)
    requires SEED_ORDER <= j <= k + 1 && Tiled(Whole(k), Seeds(k))
    ensures Cells(j) == 2 * Cells(k) || Cells(j) in Seeds(k)
    ensures Cells(j) <= 2 * Cells(k)
    ensures Walk(Whole(k), Seeds(k), Cells(j)) == Tally(0, 16 * (2 * Cells(k) - Cells(j)), 0, k + 1 - j)
    decreases k + 1 - j
  {
    hide Aligned, Tiled;
    CellsDouble(k);
    if j <= k {
      SeedStep(k, j);
      SeedsWalk(k, j + 1);
    }
  }

  // ---- Runs ----------------------------------------------------------------

  /** One successful allocation or one free, as a step between layouts. */
  datatype Event = Took(off: nat, want: Order) | Freed(off: nat)

  ghost predicate Step(r: Region, bs: Blocks, e: Event, bs': Blocks)
    requires Tiled(r, bs)
  {
    match e
    case Took(off, want) =>
      off in bs && !bs[off].used && want <= bs[off].order && bs' == Take(bs, off, want)
    case Freed(off) =>
      off in bs && bs[off].used && bs[off].order <= r.top && bs' == Coalesce(r, bs, off)
  }

  lemma StepKeeps(r: Region, bs: Blocks, e: Event, bs': Blocks)
    requires Tiled(r, bs) && Canonical(r, bs) && Step(r, bs, e, bs')
    ensures Tiled(r, bs') && Canonical(r, bs')
    ensures Live(bs') == if e.Took? then Live(bs)[e.off := e.want] else Live(bs) - {e.off}
  {
    match e
    case Took(off, want) => TakeAllocates(r, bs, off, want);
    case Freed(off) => CoalesceFrees(r, bs, off);
  }

  /** `es` leads from `bs` to `bs'`. */
  ghost predicate Run(r: Region, bs: Blocks, es: seq<Event>, bs': Blocks)
    requires Tiled(r, bs) && Canonical(r, bs)
    decreases |es|
  {
    if es == [] then bs' == bs
    else exists mid: Blocks ::
        && Step(r, bs, es[0], mid)
        && (StepKeeps(r, bs, es[0], mid); Run(r, mid, es[1..], bs'))
  }

  function LiveAfter(live: map<nat, Order>, es: seq<Event>): map<nat, Order>
    decreases |es|
  {
    if es == [] then live
    else LiveAfter(if es[0].Took? then live[es[0].off := es[0].want] else live - {es[0].off}, es[1..])
  }

  /** Every reachable layout is tiled and canonical, and its live set is the
      plain sum of what was taken and freed. */
  lemma {:induction false} RunKeeps(r: Region, bs: Blocks, es: seq<Event>, bs': Blocks)
    requires Tiled(r, bs) && Canonical(r, bs) && Run(r, bs, es, bs')
    ensures Tiled(r, bs') && Canonical(r, bs')
    ensures Live(bs') == LiveAfter(Live(bs), es)
    decreases |es|
  {
    if es != [] {
      var mid: Blocks :| Step(r, bs, es[0], mid) && (StepKeeps(r, bs, es[0], mid); Run(r, mid, es[1..], bs'));
      StepKeeps(r, bs, es[0], mid);
      RunKeeps(r, mid, es[1..], bs');
    }
  }

  /** Two runs that leave the same live blocks leave the same free blocks too,
      whatever the order of the allocations and frees in between. */
  lemma {:induction false} SameLiveSameLayout(r: Region, bs: Blocks, es1: seq<Event>, bs1: Blocks, es2: seq<Event>,
                                              bs2: Blocks)
    requires Tiled(r, bs) && Canonical(r, bs)
    requires Run(r, bs, es1, bs1) && Run(r, bs, es2, bs2)
    requires LiveAfter(Live(bs), es1) == LiveAfter(Live(bs), es2)
    ensures bs1 == bs2
  {
    RunKeeps(r, bs, es1, bs1);
    RunKeeps(r, bs, es2, bs2);
    LiveDeterminesLayout(r, bs1, bs2);
  }

  /** Once everything is freed the arena is back to exactly its seed blocks. */
  lemma {:induction false} FreeingAllRestoresSeeds(k: Order, es: seq<Event>, bs: Blocks)
    requires k >= SEED_ORDER && Tiled(Whole(k), Seeds(k)) && Canonical(Whole(k), Seeds(k))
    requires Run(Whole(k), Seeds(k), es, bs)
    ensures Live(bs) == map[] <==> bs == Seeds(k)
  {
    SeedsTiled(k);
    RunKeeps(Whole(k), Seeds(k), es, bs);
    if Live(bs) == map[] { LiveDeterminesLayout(Whole(k), bs, Seeds(k)); }
  }

  ghost predicate AllLive(bs: Blocks, os: seq<nat>) {
    && (forall i | 0 <= i < |os| :: os[i] in Live(bs))
    && (forall i, j | 0 <= i < j < |os| :: os[i] != os[j])
  }

  function Offsets(os: seq<nat>): set<nat> { set o | o in os }

  /** Frees the given live blocks one after the other. */
  ghost function FreeAll(r: Region, bs: Blocks, os: seq<nat>): (bs': Blocks)
    requires Tiled(r, bs) && Canonical(r, bs) && AllLive(bs, os)
    ensures Tiled(r, bs') && Canonical(r, bs') && Live(bs') == Live(bs) - Offsets(os)
    decreases |os|
  {
    if os == [] then assert Live(bs) == Live(bs) - Offsets(os); bs
    else
      assert os[0] in Live(bs) && Placed(r, os[0], bs[os[0]].order);
      CoalesceFrees(r, bs, os[0]);
      assert AllLive(Coalesce(r, bs, os[0]), os[1..]);
      assert Live(bs) - {os[0]} - Offsets(os[1..]) == Live(bs) - Offsets(os);
      FreeAll(r, Coalesce(r, bs, os[0]), os[1..])
  }

  /** Any order of the same frees gives the same layout. */
  lemma {:induction false} FreeOrderIrrelevant(r: Region, bs: Blocks, os1: seq<nat>, os2: seq<nat>)
    requires Tiled(r, bs) && Canonical(r, bs) && AllLive(bs, os1) && AllLive(bs, os2)
    requires Offsets(os1) == Offsets(os2)
    ensures FreeAll(r, bs, os1) == FreeAll(r, bs, os2)
  {
    LiveDeterminesLayout(r, FreeAll(r, bs, os1), FreeAll(r, bs, os2));
  }

  /** Taking a block and freeing it again restores the layout. */
  lemma {:induction false} TakeThenFree(r: Region, bs: Blocks, off: nat, want: Order)
    requires Tiled(r, bs) && Canonical(r, bs)
    requires off in bs && !bs[off].used && want <= bs[off].order
    ensures var taken := Take(bs, off, want);
            && Tiled(r, taken) && off in taken && taken[off].order <= r.top
            && Coalesce(r, taken, off) == bs
  {
    var taken := Take(bs, off, want);
    TakeAllocates(r, bs, off, want);
    assert off in Live(taken);
    assert Placed(r, off, taken[off].order);
    CoalesceFrees(r, taken, off);
    assert off !in Live(bs);
    assert Live(bs)[off := want] - {off} == Live(bs);
    LiveDeterminesLayout(r, Coalesce(r, taken, off), bs);
  }
}
