/** The block list of a first-fit arena as a value: sizes in cells, in address
    order, starting at a given cell. */
module FirstfitLayout {

  /** A block with its header and footer cells. */
  datatype Block = Block(cells: nat, used: bool)

  type Blocks = seq<Block>

  /** Two tag cells and one payload cell. */
  const MIN_CELLS: nat := 3

  function Sum(bs: Blocks): nat {
    if bs == [] then 0 else bs[0].cells + Sum(bs[1..])
  }

  predicate BigEnough(bs: Blocks) {
    forall b | b in bs :: b.cells >= MIN_CELLS
  }

  /** No two neighbours are both free. */
  predicate Merged(bs: Blocks) {
    forall i | 0 <= i < |bs| - 1 :: bs[i].used || bs[i + 1].used
  }

  predicate Canonical(bs: Blocks) { BigEnough(bs) && Merged(bs) }

  /** The used blocks: where each starts and how many cells it has. */
  function Live(at: nat, bs: Blocks): (m: map<nat, nat>)
    ensures forall o | o in m :: at <= o && 0 < m[o] && o + m[o] <= at + Sum(bs)
    decreases |bs|
  {
    if bs == [] then map[]
    else
      var m := Live(at + bs[0].cells, bs[1..]);
      if bs[0].used && bs[0].cells > 0 then m[at := bs[0].cells] else m
  }

  // ---- Lists cut in two ---------------------------------------------------------

  lemma {:induction false} SumSplit(xs: Blocks, ys: Blocks)
    ensures Sum(xs + ys) == Sum(xs) + Sum(ys)
  {
    if xs == [] {
      assert xs + ys == ys;
    } else {
      assert (xs + ys)[1..] == xs[1..] + ys;
      SumSplit(xs[1..], ys);
    }
  }

  lemma FirstAdded(a: map<nat, nat>, b: map<nat, nat>, o: nat, n: nat)
    requires n > 0 ==> o !in b
    ensures n > 0 ==> (a + b)[o := n] == a[o := n] + b
  {
  }

  lemma {:induction false} LiveSplit(at: nat, xs: Blocks, ys: Blocks)
    ensures Live(at, xs + ys) == Live(at, xs) + Live(at + Sum(xs), ys)
    decreases |xs|
  {
    if xs == [] {
      assert xs + ys == ys;
    } else {
      assert (xs + ys)[1..] == xs[1..] + ys;
      LiveSplit(at + xs[0].cells, xs[1..], ys);
      FirstAdded(Live(at + xs[0].cells, xs[1..]), Live(at + Sum(xs), ys), at, xs[0].cells);
    }
  }

  lemma SumOne(b: Block)
    ensures Sum([b]) == b.cells
    ensures forall at: nat :: Live(at, [b]) == if b.used && b.cells > 0 then map[at := b.cells] else map[]
  {
    assert [b][1..] == [];
  }

  /** A list around one block. */
  lemma {:induction false} Around(bs: Blocks, i: nat)
    requires i < |bs|
    ensures bs == bs[..i] + ([bs[i]] + bs[i + 1..])
    ensures Sum(bs) == Sum(bs[..i]) + bs[i].cells + Sum(bs[i + 1..])
  {
    hide Sum;
    SumSplit(bs[..i], [bs[i]] + bs[i + 1..]);
    SumSplit([bs[i]], bs[i + 1..]);
    SumOne(bs[i]);
  }

  /** The cell where block `i` starts. */
  function Start(at: nat, bs: Blocks, i: nat): nat
    requires i <= |bs|
  {
    at + Sum(bs[..i])
  }

  lemma {:induction false} StartNext(at: nat, bs: Blocks, i: nat)
    requires i < |bs|
    ensures Start(at, bs, i + 1) == Start(at, bs, i) + bs[i].cells <= at + Sum(bs)
  {
    hide Sum;
    assert bs[..i + 1] == bs[..i] + [bs[i]];
    SumSplit(bs[..i], [bs[i]]);
    SumOne(bs[i]);
    Around(bs, i);
  }

  // ---- Canonical form -----------------------------------------------------------

  lemma {:induction false} SameStart(at: nat, xs: Blocks, ys: Blocks)
    requires Canonical(xs) && Canonical(ys) && xs != [] && ys != []
    requires Live(at, xs) == Live(at, ys) && Sum(xs) == Sum(ys)
    ensures xs[0] == ys[0]
  {
    assert xs[0] in xs && ys[0] in ys;
    HeadLive(at, xs);
    HeadLive(at, ys);
    if !xs[0].used {
      FreeHead(at, xs, ys);
      FreeHead(at, ys, xs);
    }
  }

  lemma {:induction false} HeadLive(at: nat, xs: Blocks)
    requires xs != [] && xs[0].cells > 0
    ensures at in Live(at, xs) <==> xs[0].used
    ensures xs[0].used ==> Live(at, xs)[at] == xs[0].cells
  {
  }

  /** A free first block reaches no further than the first live one, or the end. */
  lemma {:induction false} FreeHead(at: nat, xs: Blocks, ys: Blocks)
    requires Canonical(xs) && Canonical(ys) && xs != [] && ys != [] && !xs[0].used
    requires Live(at, xs) == Live(at, ys) && Sum(xs) == Sum(ys)
    ensures ys[0].cells <= xs[0].cells
  {
    var tl := xs[1..];
    if tl != [] {
      assert xs[0 + 1].used && xs[1] in xs;
      var m := at + xs[0].cells;
      HeadLive(m, tl);
      assert m in Live(at, ys);
      assert ys[0] in ys && !ys[0].used by { HeadLive(at, ys); assert xs[0] in xs; HeadLive(at, xs); }
    }
  }

  lemma CanonicalTail(xs: Blocks)
    requires Canonical(xs) && xs != []
    ensures Canonical(xs[1..])
  {
    forall i | 0 <= i < |xs[1..]| - 1 ensures xs[1..][i].used || xs[1..][i + 1].used {
      assert xs[i + 1].used || xs[i + 1 + 1].used;
    }
  }

  lemma LiveTail(at: nat, xs: Blocks)
    requires xs != [] && xs[0].cells > 0
    ensures Live(at + xs[0].cells, xs[1..]) == Live(at, xs) - {at}
  {
  }

  /** The whole block list is a function of the live blocks. */
  lemma {:induction false} LiveDetermines(at: nat, xs: Blocks, ys: Blocks)
    requires Canonical(xs) && Canonical(ys)
    requires Live(at, xs) == Live(at, ys) && Sum(xs) == Sum(ys)
    ensures xs == ys
    decreases |xs|
  {
    assert xs != [] ==> xs[0] in xs;
    assert ys != [] ==> ys[0] in ys;
    if xs != [] && ys != [] {
      SameStart(at, xs, ys);
      CanonicalTail(xs);
      CanonicalTail(ys);
      LiveTail(at, xs);
      LiveTail(at, ys);
      LiveDetermines(at + xs[0].cells, xs[1..], ys[1..]);
      assert xs == [xs[0]] + xs[1..] && ys == [ys[0]] + ys[1..];
    }
  }

  // ---- The lowest fit -----------------------------------------------------------

  /** The first free block of at least `total` cells, or the number of blocks. */
  function FirstFit(bs: Blocks, total: nat): (i: nat)
    ensures i <= |bs|
    ensures i < |bs| ==> !bs[i].used && bs[i].cells >= total
  {
    if bs == [] || (!bs[0].used && bs[0].cells >= total) then 0 else 1 + FirstFit(bs[1..], total)
  }

  /** Cell `c` belongs to a free block. */
  predicate FreeAt(at: nat, bs: Blocks, c: nat)
    decreases |bs|
  {
    bs != [] && if c < at + bs[0].cells then at <= c && !bs[0].used else FreeAt(at + bs[0].cells, bs[1..], c)
  }

  ghost predicate FreeRun(at: nat, bs: Blocks, p: nat, total: nat) {
    forall c: nat | p <= c < p + total :: FreeAt(at, bs, c)
  }

  lemma StartTail(at: nat, bs: Blocks, i: nat)
    requires bs != [] && i < |bs|
    ensures Start(at, bs, i + 1) == Start(at + bs[0].cells, bs[1..], i)
  {
    assert bs[..i + 1][1..] == bs[1..][..i];
  }

  lemma {:induction false} StartsFree(at: nat, bs: Blocks)
    requires Canonical(bs) && FreeAt(at, bs, at)
    ensures bs != [] && !bs[0].used
  {
    assert bs[0] in bs;
  }

  lemma Neighbours(bs: Blocks, i: nat)
    requires Merged(bs) && i + 1 < |bs|
    ensures bs[i].used || bs[i + 1].used
  {
  }

  /** Any run of free cells lies inside one free block, so the first fit starts
      no later than it. */
  lemma {:induction false} RunFits(at: nat, bs: Blocks, p: nat, total: nat)
    requires Canonical(bs) && total > 0 && FreeRun(at, bs, p, total)
    ensures var i := FirstFit(bs, total); i < |bs| && Start(at, bs, i) <= p
    decreases |bs|
  {
    assert FreeAt(at, bs, p);
    assert bs[0] in bs;
    var m := at + bs[0].cells;
    if p < m {
      if p + total > m {
        assert FreeAt(at, bs, m);
        CanonicalTail(bs);
        StartsFree(m, bs[1..]);
        Neighbours(bs, 0);
      }
    } else {
      CanonicalTail(bs);
      forall c: nat | p <= c < p + total ensures FreeAt(m, bs[1..], c) { assert FreeAt(at, bs, c); }
      RunFits(m, bs[1..], p, total);
      var i := FirstFit(bs[1..], total);
      StartTail(at, bs, i);
    }
  }

  /** The first fit is such a run. */
  lemma {:induction false} BlockIsRun(at: nat, bs: Blocks, i: nat, c: nat)
    requires i < |bs| && !bs[i].used && Start(at, bs, i) <= c < Start(at, bs, i) + bs[i].cells
    ensures FreeAt(at, bs, c)
    decreases i
  {
    if i > 0 {
      StartTail(at, bs, i - 1);
      BlockIsRun(at + bs[0].cells, bs[1..], i - 1, c);
    }
  }

  // ---- Allocating and freeing --------------------------------------------------------

  /** Block `i` handed out: the rest becomes a block of its own if it is big enough. */
  function Take(bs: Blocks, i: nat, total: nat): Blocks
    requires i < |bs| && bs[i].cells >= total
  {
    bs[..i] + Carved(bs[i].cells, total) + bs[i + 1..]
  }

  function Carved(cells: nat, total: nat): Blocks
    requires cells >= total
  {
    if cells - total >= MIN_CELLS then [Block(total, true), Block(cells - total, false)] else [Block(cells, true)]
  }

  function TakenCells(cells: nat, total: nat): nat
    requires cells >= total
  {
    if cells - total >= MIN_CELLS then total else cells
  }

  predicate FreeBefore(bs: Blocks, i: nat) { 0 < i <= |bs| && !bs[i - 1].used }

  predicate FreeAfter(bs: Blocks, i: nat) { i + 1 < |bs| && !bs[i + 1].used }

  /** The blocks `[Lo, Hi)` are the block at `i` and its free neighbours. */
  function Lo(bs: Blocks, i: nat): (lo: nat)
    requires i < |bs|
    ensures lo <= i
  {
    if FreeBefore(bs, i) then i - 1 else i
  }

  function Hi(bs: Blocks, i: nat): (hi: nat)
    requires i < |bs|
    ensures i < hi <= |bs|
  {
    if FreeAfter(bs, i) then i + 2 else i + 1
  }

  /** Block `i` freed and merged with its free neighbours. */
  function Release(bs: Blocks, i: nat): Blocks
    requires i < |bs|
  {
    bs[..Lo(bs, i)] + [Block(Sum(bs[Lo(bs, i)..Hi(bs, i)]), false)] + bs[Hi(bs, i)..]
  }

  lemma {:induction false} CarvedFacts(at: nat, cells: nat, total: nat)
    requires cells >= total >= MIN_CELLS
    ensures var x := Carved(cells, total);
            && Sum(x) == cells && Live(at, x) == map[at := TakenCells(cells, total)]
            && Canonical(x) && x[0].used
  {
    var x := Carved(cells, total);
    SumOne(x[0]);
    if |x| > 1 {
      SumOne(x[1]);
      assert x == [x[0]] + [x[1]];
      SumSplit([x[0]], [x[1]]);
      LiveSplit(at, [x[0]], [x[1]]);
    }
  }

  lemma InThree(at: nat, xs: Blocks, mid: Blocks, ys: Blocks)
    ensures Sum(xs + mid + ys) == Sum(xs) + Sum(mid) + Sum(ys)
    ensures Live(at, xs + mid + ys) == Live(at, xs) + Live(at + Sum(xs), mid) + Live(at + Sum(xs) + Sum(mid), ys)
  {
    hide Sum, Live;
    SumSplit(xs + mid, ys);
    SumSplit(xs, mid);
    LiveSplit(at, xs + mid, ys);
    LiveSplit(at, xs, mid);
  }

  predicate FreeEnd(bs: Blocks) { bs != [] && !bs[|bs| - 1].used }

  predicate FreeStart(bs: Blocks) { bs != [] && !bs[0].used }

  lemma JoinCanonical(xs: Blocks, ys: Blocks)
    requires Canonical(xs) && Canonical(ys) && !(FreeEnd(xs) && FreeStart(ys))
    ensures Canonical(xs + ys)
  {
    forall i | 0 <= i < |xs + ys| - 1 ensures (xs + ys)[i].used || (xs + ys)[i + 1].used {
      if i + 1 < |xs| {
        assert xs[i].used || xs[i + 1].used;
      } else if i >= |xs| {
        assert ys[i - |xs|].used || ys[i - |xs| + 1].used;
      }
    }
  }

  lemma PartCanonical(bs: Blocks, i: nat, j: nat)
    requires Canonical(bs) && i <= j <= |bs|
    ensures Canonical(bs[i..j])
  {
    forall k | 0 <= k < |bs[i..j]| - 1 ensures bs[i..j][k].used || bs[i..j][k + 1].used {
      assert bs[i + k].used || bs[i + k + 1].used;
    }
  }

  /** Allocation keeps the list canonical and adds exactly one live block. */
  lemma {:induction false} TakeKeeps(at: nat, bs: Blocks, i: nat, total: nat)
    requires Canonical(bs) && i < |bs| && !bs[i].used && bs[i].cells >= total >= MIN_CELLS
    ensures Canonical(Take(bs, i, total)) && Sum(Take(bs, i, total)) == Sum(bs)
    ensures Start(at, bs, i) !in Live(at, bs)
    ensures Live(at, Take(bs, i, total)) == Live(at, bs)[Start(at, bs, i) := TakenCells(bs[i].cells, total)]
  {
    hide Sum, Live, Canonical, Carved;
    var xs, mid, ys := bs[..i], Carved(bs[i].cells, total), bs[i + 1..];
    CarvedFacts(Start(at, bs, i), bs[i].cells, total);
    Around(bs, i);
    SumOne(bs[i]);
    assert bs == xs + [bs[i]] + ys;
    InThree(at, xs, [bs[i]], ys);
    InThree(at, xs, mid, ys);
    TakeCanonical(bs, i, total);
    MiddleAdded(Live(at, xs), Start(at, bs, i), TakenCells(bs[i].cells, total), Live(at + Sum(xs) + bs[i].cells, ys),
                at + Sum(xs) + bs[i].cells);
  }

  lemma MiddleAdded(a: map<nat, nat>, o: nat, n: nat, b: map<nat, nat>, m: nat)
    requires forall k | k in a :: k < o
    requires o < m && forall k | k in b :: m <= k
    ensures o !in a + map[] + b && a + map[o := n] + b == (a + map[] + b)[o := n]
  {
  }

  lemma TakeCanonical(bs: Blocks, i: nat, total: nat)
    requires Canonical(bs) && i < |bs| && !bs[i].used && bs[i].cells >= total >= MIN_CELLS
    ensures Canonical(Take(bs, i, total))
  {
    hide Canonical;
    var xs, mid, ys := bs[..i], Carved(bs[i].cells, total), bs[i + 1..];
    PartCanonical(bs, 0, i);
    PartCanonical(bs, i + 1, |bs|);
    assert bs[0..i] == xs && bs[i + 1..|bs|] == ys;
    CarvedFacts(0, bs[i].cells, total);
    JoinCanonical(xs, mid);
    NextIsUsed(bs, i);
    JoinCanonical(xs + mid, ys);
  }

  lemma NextIsUsed(bs: Blocks, i: nat)
    requires Canonical(bs) && i < |bs| && !bs[i].used
    ensures !FreeStart(bs[i + 1..]) && !FreeEnd(bs[..i])
  {
    if i > 0 { Neighbours(bs, i - 1); }
  }

  /** The neighbours of the merged block are used. */
  lemma ReleaseEdges(bs: Blocks, i: nat)
    requires Canonical(bs) && i < |bs| && bs[i].used
    ensures var lo, hi := Lo(bs, i), Hi(bs, i);
            && !FreeEnd(bs[..lo]) && !FreeStart(bs[hi..])
            && bs[lo..hi] == bs[lo..i] + [bs[i]] + bs[i + 1..hi]
            && (forall b | b in bs[lo..i] :: !b.used) && (forall b | b in bs[i + 1..hi] :: !b.used)
  {
    hide BigEnough, Merged;
    if i > 1 { Neighbours(bs, i - 2); }
    if i + 2 < |bs| { Neighbours(bs, i + 1); }
  }

  lemma {:induction false} NoneLive(at: nat, bs: Blocks)
    requires forall b | b in bs :: !b.used
    ensures Live(at, bs) == map[]
    decreases |bs|
  {
    if bs != [] {
      assert bs[0] in bs;
      NoneLive(at + bs[0].cells, bs[1..]);
    }
  }

  lemma {:induction false} OneLive(at: nat, xs: Blocks, b: Block, ys: Blocks)
    requires b.used && b.cells > 0
    requires (forall x | x in xs :: !x.used) && (forall y | y in ys :: !y.used)
    ensures Live(at, xs + [b] + ys) == map[at + Sum(xs) := b.cells]
  {
    hide Sum, Live;
    InThree(at, xs, [b], ys);
    NoneLive(at, xs);
    NoneLive(at + Sum(xs) + Sum([b]), ys);
    SumOne(b);
  }

  /** Freeing keeps the list canonical and removes exactly one live block. */
  lemma {:induction false} ReleaseKeeps(at: nat, bs: Blocks, i: nat)
    requires Canonical(bs) && i < |bs| && bs[i].used
    ensures Canonical(Release(bs, i)) && Sum(Release(bs, i)) == Sum(bs)
    ensures Live(at, Release(bs, i)) == Live(at, bs) - {Start(at, bs, i)}
    ensures Start(at, bs, i) in Live(at, bs) && Live(at, bs)[Start(at, bs, i)] == bs[i].cells
  {
    hide Sum, Live, Canonical, Lo, Hi;
    var lo, hi := Lo(bs, i), Hi(bs, i);
    ReleaseEdges(bs, i);
    var xs, mid, ys := bs[..lo], bs[lo..hi], bs[hi..];
    assert bs == xs + mid + ys;
    assert bs[i].cells > 0 by { Positive(bs, i); }
    InThree(at, xs, mid, ys);
    OneLive(at + Sum(xs), bs[lo..i], bs[i], bs[i + 1..hi]);
    assert bs[..i] == xs + bs[lo..i];
    SumSplit(xs, bs[lo..i]);
    SumOne(Block(Sum(mid), false));
    InThree(at, xs, [Block(Sum(mid), false)], ys);
    assert mid[..i - lo] == bs[lo..i] && mid[i - lo] == bs[i];
    SumBound(mid, i - lo);
    MiddleTaken(Live(at, xs), at + Sum(xs), Start(at, bs, i), bs[i].cells, Live(at + Sum(xs) + Sum(mid), ys),
                at + Sum(xs) + Sum(mid));
    ReleaseCanonical(bs, i);
  }

  lemma Positive(bs: Blocks, i: nat)
    requires Canonical(bs) && i < |bs|
    ensures bs[i].cells >= MIN_CELLS
  {
  }

  lemma {:induction false} SumBound(bs: Blocks, i: nat)
    requires i < |bs|
    ensures Sum(bs[..i]) + bs[i].cells <= Sum(bs) && bs[i].cells <= Sum(bs)
  {
    hide Sum;
    Around(bs, i);
  }

  lemma MiddleTaken(a: map<nat, nat>, lo: nat, o: nat, n: nat, b: map<nat, nat>, m: nat)
    requires lo <= o < m && (forall k | k in a :: k < lo) && (forall k | k in b :: m <= k)
    ensures a + map[] + b == a + map[o := n] + b - {o}
    ensures o in a + map[o := n] + b && (a + map[o := n] + b)[o] == n
  {
  }

  lemma ReleaseCanonical(bs: Blocks, i: nat)
    requires Canonical(bs) && i < |bs| && bs[i].used
    ensures Canonical(Release(bs, i))
  {
    hide Canonical, Lo, Hi, Sum;
    var lo, hi := Lo(bs, i), Hi(bs, i);
    ReleaseEdges(bs, i);
    var mid := [Block(Sum(bs[lo..hi]), false)];
    PartCanonical(bs, 0, lo);
    PartCanonical(bs, hi, |bs|);
    assert bs[0..lo] == bs[..lo] && bs[hi..|bs|] == bs[hi..];
    Positive(bs, i);
    SumBound(bs[lo..hi], i - lo);
    OneCanonical(mid[0]);
    JoinCanonical(bs[..lo], mid);
    JoinCanonical(bs[..lo] + mid, bs[hi..]);
  }

  lemma OneCanonical(b: Block)
    requires b.cells >= MIN_CELLS
    ensures Canonical([b])
  {
  }
}
