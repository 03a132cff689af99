/** What holds over whole runs of the first-fit strategy. */
module FirstfitRuns {
  import opened FirstfitLayout

  /** The index of the live block that starts at `off`. */
  function IndexOf(at: nat, bs: Blocks, off: nat): (i: nat)
    requires off in Live(at, bs)
    ensures i < |bs| && bs[i].used && Start(at, bs, i) == off && bs[i].cells == Live(at, bs)[off]
    decreases |bs|
  {
    if off == at && bs[0].used && bs[0].cells > 0 then assert bs[..0] == []; 0
    else
      var i := IndexOf(at + bs[0].cells, bs[1..], off);
      StartTail(at, bs, i);
      1 + i
  }

  /** The layout after the live block at `off` is freed. */
  function Free(at: nat, bs: Blocks, off: nat): Blocks
    requires off in Live(at, bs)
  {
    Release(bs, IndexOf(at, bs, off))
  }

  /** One successful allocation of `total` cells or one free. */
  datatype Event = Took(off: nat, total: nat, cells: nat) | Freed(off: nat)

  predicate Step(at: nat, bs: Blocks, e: Event, bs': Blocks) {
    match e
    case Took(off, total, cells) =>
      var i := FirstFit(bs, total);
      && total >= MIN_CELLS && i < |bs| && off == Start(at, bs, i)
      && cells == TakenCells(bs[i].cells, total) && bs' == Take(bs, i, total)
    case Freed(off) => off in Live(at, bs) && bs' == Free(at, bs, off)
  }

  function LiveNext(live: map<nat, nat>, e: Event): map<nat, nat> {
    if e.Took? then live[e.off := e.cells] else live - {e.off}
  }

  lemma {:induction false} StepKeeps(at: nat, bs: Blocks, e: Event, bs': Blocks)
    requires Canonical(bs) && Step(at, bs, e, bs')
    ensures Canonical(bs') && Sum(bs') == Sum(bs) && Live(at, bs') == LiveNext(Live(at, bs), e)
  {
    hide Canonical, Live, Sum, Take, Release, IndexOf, FirstFit;
    match e
    case Took(off, total, cells) => TakeKeeps(at, bs, FirstFit(bs, total), total);
    case Freed(off) => ReleaseKeeps(at, bs, IndexOf(at, bs, off));
  }

  /** `es` leads from `bs` to `bs'`. */
  ghost predicate Run(at: nat, bs: Blocks, es: seq<Event>, bs': Blocks)
    decreases |es|
  {
    if es == [] then bs' == bs else exists mid :: Step(at, bs, es[0], mid) && Run(at, mid, es[1..], bs')
  }

  function LiveAfter(live: map<nat, nat>, es: seq<Event>): map<nat, nat>
    decreases |es|
  {
    if es == [] then live else LiveAfter(LiveNext(live, es[0]), es[1..])
  }

  /** Every reachable layout is canonical, and its live set is the plain sum of
      what was taken and freed. */
  lemma {:induction false} RunKeeps(at: nat, bs: Blocks, es: seq<Event>, bs': Blocks)
    requires Canonical(bs) && Run(at, bs, es, bs')
    ensures Canonical(bs') && Sum(bs') == Sum(bs) && Live(at, bs') == LiveAfter(Live(at, bs), es)
    decreases |es|
  {
    hide Canonical, Live, Sum, Step, LiveNext;
    if es != [] {
      var mid :| Step(at, bs, es[0], mid) && Run(at, mid, es[1..], bs');
      StepKeeps(at, bs, es[0], mid);
      RunKeeps(at, mid, es[1..], bs');
    }
  }

  /** Two runs that leave the same live blocks leave the same free blocks too. */
  lemma {:induction false} SameLiveSameLayout(at: nat, bs: Blocks, es1: seq<Event>, bs1: Blocks, es2: seq<Event>,
                                              bs2: Blocks)
    requires Canonical(bs) && Run(at, bs, es1, bs1) && Run(at, bs, es2, bs2)
    requires LiveAfter(Live(at, bs), es1) == LiveAfter(Live(at, bs), es2)
    ensures bs1 == bs2
  {
    hide Canonical, Live, Sum, Run, LiveAfter;
    RunKeeps(at, bs, es1, bs1);
    RunKeeps(at, bs, es2, bs2);
    LiveDetermines(at, bs1, bs2);
  }

  /** Once everything is freed, the arena is one free block again. */
  lemma {:induction false} FreeingAllRestoresBlock(at: nat, cells: nat, es: seq<Event>, bs: Blocks)
    requires cells >= MIN_CELLS && Run(at, [Block(cells, false)], es, bs)
    ensures Live(at, bs) == map[] <==> bs == [Block(cells, false)]
  {
    hide Canonical, Sum, Run;
    var bs0 := [Block(cells, false)];
    OneCanonical(bs0[0]);
    RunKeeps(at, bs0, es, bs);
    SumOne(bs0[0]);
    if Live(at, bs) == map[] { LiveDetermines(at, bs, bs0); }
  }

  predicate AllLive(live: map<nat, nat>, os: seq<nat>) {
    && (forall i | 0 <= i < |os| :: os[i] in live)
    && (forall i, j | 0 <= i < j < |os| :: os[i] != os[j])
  }

  function Offsets(os: seq<nat>): set<nat> { set o | o in os }

  /** Frees the given live blocks one after the other. */
  ghost function FreeAll(at: nat, bs: Blocks, os: seq<nat>): (bs': Blocks)
    requires Canonical(bs) && AllLive(Live(at, bs), os)
    ensures Canonical(bs') && Sum(bs') == Sum(bs) && Live(at, bs') == Live(at, bs) - Offsets(os)
    decreases |os|
  {
    if os == [] then assert Live(at, bs) == Live(at, bs) - Offsets(os); bs
    else
      assert Live(at, bs) - {os[0]} - Offsets(os[1..]) == Live(at, bs) - Offsets(os);
      StepKeeps(at, bs, Freed(os[0]), Free(at, bs, os[0]));
      FreeAll(at, Free(at, bs, os[0]), os[1..])
  }

  /** Frees commute: any order of the same frees gives the same layout. */
  lemma {:induction false} FreeOrderIrrelevant(at: nat, bs: Blocks, os1: seq<nat>, os2: seq<nat>)
    requires Canonical(bs) && AllLive(Live(at, bs), os1) && AllLive(Live(at, bs), os2)
    requires Offsets(os1) == Offsets(os2)
    ensures FreeAll(at, bs, os1) == FreeAll(at, bs, os2)
  {
    hide Canonical, Live, Sum;
    LiveDetermines(at, FreeAll(at, bs, os1), FreeAll(at, bs, os2));
  }

  /** Taking a block and freeing it again restores the layout. */
  lemma {:induction false} TakeThenFree(at: nat, bs: Blocks, total: nat)
    requires Canonical(bs) && total >= MIN_CELLS && FirstFit(bs, total) < |bs|
    ensures var i := FirstFit(bs, total);
            var off, taken := Start(at, bs, i), Take(bs, i, total);
            off in Live(at, taken) && Free(at, taken, off) == bs
  {
    hide Canonical, Live, Sum, Take, IndexOf, Free;
    var i := FirstFit(bs, total);
    var off, taken := Start(at, bs, i), Take(bs, i, total);
    TakeKeeps(at, bs, i, total);
    StepKeeps(at, taken, Freed(off), Free(at, taken, off));
    assert Live(at, taken) - {off} == Live(at, bs);
    LiveDetermines(at, Free(at, taken, off), bs);
  }
}
