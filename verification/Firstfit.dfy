/** The first-fit strategy as it runs over its arena. */
module Firstfit {
  import opened Options
  import opened Memory
  import opened FirstfitLayout
  import opened FirstfitRuns
  import opened FirstfitTags
  import opened Totals

  /** Header and footer. */
  const OVERHEAD: nat := 2 * CELL_BYTES

  /** The cells a request needs: the least number, tags included, that leaves
      room for `size` bytes and at least one payload cell. */
  predicate Needs(size: nat, total: nat) {
    && total >= MIN_CELLS && size <= CELL_BYTES * (total - 2)
    && (total > MIN_CELLS ==> CELL_BYTES * (total - 3) < size)
  }

  /** Byte and block counts; `largest` is the largest free block's bytes. */
  datatype Census = Census(used: nat, free: nat, live: nat, idle: nat, largest: nat)

  const NO_BLOCKS := Census(0, 0, 0, 0, 0)

  function Counted(c: Census, bytes: nat, used: bool): Census {
    if used then c.(used := c.used + bytes, live := c.live + 1)
    else c.(free := c.free + bytes, idle := c.idle + 1, largest := if bytes > c.largest then bytes else c.largest)
  }

  function CensusOf(bs: Blocks): Census {
    if bs == [] then NO_BLOCKS
    else Counted(CensusOf(bs[..|bs| - 1]), CELL_BYTES * bs[|bs| - 1].cells, bs[|bs| - 1].used)
  }

  lemma CensusStart(bs: Blocks)
    ensures CensusOf(bs[..0]) == NO_BLOCKS
  {
  }

  lemma CensusNext(bs: Blocks, i: nat)
    requires i < |bs|
    ensures CensusOf(bs[..i + 1]) == Counted(CensusOf(bs[..i]), CELL_BYTES * bs[i].cells, bs[i].used)
  {
    assert bs[..i + 1][..i] == bs[..i];
  }

  lemma CensusLast(bs: Blocks) returns (xs: Blocks, b: Block)
    requires bs != [] && BigEnough(bs)
    ensures bs == xs + [b] && |xs| < |bs| && BigEnough(xs) && b.cells >= MIN_CELLS
    ensures CensusOf(bs) == Counted(CensusOf(xs), CELL_BYTES * b.cells, b.used)
  {
    hide CensusOf;
    var n := |bs| - 1;
    xs, b := bs[..n], bs[n];
    CensusNext(bs, n);
    assert bs[..n + 1] == bs && b in bs;
  }

  /** Used and free bytes make up the arena, and the live count is the number of
      live blocks. */
  lemma {:induction false} CensusBalances(at: nat, bs: Blocks)
    requires BigEnough(bs)
    ensures var c := CensusOf(bs);
            c.used + c.free == CELL_BYTES * Sum(bs) && c.live == |Live(at, bs)| && c.live + c.idle == |bs|
    decreases |bs|
  {
    hide Sum, Live, BigEnough;
    if bs == [] {
      EmptyFacts(at);
    } else {
      hide CensusOf;
      var xs, b := CensusLast(bs);
      CensusBalances(at, xs);
      SumSplit(xs, [b]);
      LiveSplit(at, xs, [b]);
      SumOne(b);
      OneMore(Live(at, xs), at + Sum(xs), b.cells);
    }
  }

  /** The used bytes are those of the live blocks. */
  lemma {:induction false} CensusIsLive(at: nat, bs: Blocks)
    requires BigEnough(bs)
    ensures CensusOf(bs).used == CELL_BYTES * MapSum(Live(at, bs))
    decreases |bs|
  {
    hide Sum, Live, BigEnough, MapSum;
    if bs == [] {
      EmptyFacts(at);
      EmptySum();
    } else {
      hide CensusOf;
      var xs, b := CensusLast(bs);
      CensusIsLive(at, xs);
      LiveSplit(at, xs, [b]);
      SumOne(b);
      NextTotal(Live(at, xs), at + Sum(xs), b.cells);
    }
  }

  lemma EmptySum()
    ensures MapSum(map[]) == 0
  {
  }

  /** A live map that ends where the next block starts. */
  lemma {:induction false} NextTotal(m: map<nat, nat>, o: nat, n: nat)
    requires forall x | x in m :: 0 < m[x] && x + m[x] <= o
    ensures MapSum(m + map[o := n]) == MapSum(m) + n && m + map[] == m
  {
    hide MapSum;
    assert m + map[o := n] == m[o := n];
    SumWith(m, o, n);
  }

  /** An allocation raises the used bytes by its block, and freeing it lowers them by
      the same. */
  lemma {:induction false} CensusMoves(at: nat, bs: Blocks, bs': Blocks, o: nat)
    requires BigEnough(bs) && BigEnough(bs') && o in Live(at, bs') && Live(at, bs) == Live(at, bs') - {o}
    ensures CensusOf(bs').used == CensusOf(bs).used + CELL_BYTES * Live(at, bs')[o]
  {
    hide Live, BigEnough, CensusOf, MapSum;
    CensusIsLive(at, bs);
    CensusIsLive(at, bs');
    SumWithout(Live(at, bs'), o);
  }

  /** `largest` is exactly what the next allocation could still get. */
  lemma {:induction false} LargestFits(bs: Blocks, total: nat)
    requires BigEnough(bs) && total > 0
    ensures CELL_BYTES * total <= CensusOf(bs).largest <==> FirstFit(bs, total) < |bs|
    decreases |bs|
  {
    hide FirstFit, BigEnough;
    if bs == [] {
      EmptyFacts(0);
    } else {
      hide CensusOf;
      var xs, b := CensusLast(bs);
      LargestFits(xs, total);
      FitAppend(xs, b, total);
    }
  }

  lemma {:induction false} EmptyFacts(at: nat)
    ensures Sum([]) == 0 && Live(at, []) == map[] && forall total: nat :: FirstFit([], total) == 0
  {
  }

  lemma OneMore(m: map<nat, nat>, o: nat, n: nat)
    requires o !in m
    ensures |m + map[o := n]| == |m| + 1 && m + map[] == m
  {
    assert (m + map[o := n]).Keys == m.Keys + {o};
    assert m + map[o := n] == m[o := n];
  }

  lemma {:induction false} FitAppend(xs: Blocks, b: Block, total: nat)
    ensures FirstFit(xs + [b], total) < |xs + [b]|
            <==> FirstFit(xs, total) < |xs| || (!b.used && b.cells >= total)
  {
    if xs == [] {
      assert [] + [b] == [b] && [b][1..] == [];
    } else {
      assert (xs + [b])[1..] == xs[1..] + [b];
      FitAppend(xs[1..], b, total);
    }
  }

  class Arena {
    const mem: array<Cell>
    const heapStart: nat
    const heapEnd: nat
    ghost var blocks: Blocks

    ghost predicate Valid()
      reads this, mem
    {
      && heapStart <= heapEnd <= mem.Length && (heapStart == 0 ==> heapEnd == 0) && Fits(mem.Length)
      && heapStart + Sum(blocks) == heapEnd
      && Canonical(blocks) && Tagged(mem[..], heapStart, blocks)
    }

    /** The live blocks by the cell they start at. */
    ghost function Used(): map<nat, nat>
      reads this
    {
      Live(heapStart, blocks)
    }

    /** Lays out an arena: the state record takes the first cell, the rest is one
        free block if it is big enough for one. Without room for the record there
        are no blocks. */
    constructor Init(arena: array<Cell>)
      requires Fits(arena.Length)
      modifies arena
      ensures Valid() && mem == arena && heapStart == (if arena.Length == 0 then 0 else 1)
      ensures blocks == if arena.Length > MIN_CELLS then [Block(arena.Length - 1, false)] else []
    {
      mem := arena;
      var left := arena.Length;
      heapStart := if left < 1 then left else 1;
      heapEnd := if left < 1 then left else 1;
      blocks := [];
      var span := if left < 1 then 0 else left - 1;
      if span >= MIN_CELLS {
        heapEnd := 1 + span;
        blocks := [Block(span, false)];
      }
      new;
      if span >= MIN_CELLS {
        MarkedBlock(mem[..], 1, blocks[0]);
        Mark(1, span, TAG_FREE, blocks[0]);
        OneCanonical(blocks[0]);
        SumOne(blocks[0]);
        TaggedOne(mem[..], 1, blocks[0]);
      }
    }

    /** Writes a block's header and footer. */
    method Mark(at: nat, cells: nat, tag: Word, ghost b: Block)
      requires cells >= 2 && at + cells <= mem.Length && Fits(mem.Length)
      requires b == Block(cells, tag == TAG_USED) && (tag == TAG_USED || tag == TAG_FREE)
      modifies mem
      ensures mem[..] == Marked(old(mem[..]), at, b)
    {
      mem[at] := Cell(CELL_BYTES * cells, tag);
      mem[at + cells - 1] := Cell(CELL_BYTES * cells, tag);
    }

    /** The block after the one at `b`. */
    method Next(b: nat, ghost i: nat) returns (n: Option<nat>)
      requires Valid() && i < |blocks| && b == Start(heapStart, blocks, i)
      ensures if i + 1 < |blocks| then n == Some(Start(heapStart, blocks, i + 1)) else n == None
      ensures TaggedBlock(mem[..], b, blocks[i])
      ensures i + 1 < |blocks| ==> TaggedBlock(mem[..], n.value, blocks[i + 1])
    {
      hide Sum, Canonical, Tagged;
      TagsAt(mem[..], heapStart, blocks, i);
      StartNext(heapStart, blocks, i);
      EndOnlyAtLast(heapStart, blocks, i);
      var at := b + mem[b].lo / CELL_BYTES;
      if i + 1 < |blocks| { TagsAt(mem[..], heapStart, blocks, i + 1); }
      n := if at < heapEnd then Some(at) else None;
    }

    /** The block before the one at `b`, found through its footer. */
    method Prev(b: nat, ghost i: nat) returns (n: Option<nat>)
      requires Valid() && i < |blocks| && b == Start(heapStart, blocks, i)
      ensures if i > 0 then n == Some(Start(heapStart, blocks, i - 1)) else n == None
      ensures i > 0 ==> TaggedBlock(mem[..], n.value, blocks[i - 1])
    {
      hide Sum, Canonical, Tagged;
      if i == 0 { StartFirst(heapStart, blocks); } else {
        TagsAt(mem[..], heapStart, blocks, i - 1);
        StartNext(heapStart, blocks, i - 1);
        StartNext(heapStart, blocks, i);
      }
      StartAtLeast(heapStart, blocks, i);
      if b <= heapStart {
        return None;
      }
      n := Some(b - mem[b - 1].lo / CELL_BYTES);
    }

    /** Finds the first free block that is big enough and carves the request out
        of it. The result is the cell its payload starts at. */
    method Alloc(size: nat) returns (p: Option<nat>)
      requires Valid()
      modifies mem, `blocks
      ensures Valid()
      ensures p.None? ==> blocks == old(blocks) && mem[..] == old(mem[..])
      ensures p.None? ==> forall total, q | Needs(size, total) :: !FreeRun(heapStart, blocks, q, total)
      ensures p.Some? ==>
                exists total {:trigger Needs(size, total)} ::
                  && p.value > 0 && Needs(size, total)
                  && Placed(heapStart, old(blocks), p.value - 1, total, blocks)
      ensures p.Some? ==> p.value > 0 && p.value - 1 !in old(Used()) && p.value - 1 in Used()
      ensures p.Some? ==> Used() == old(Used())[p.value - 1 := Used()[p.value - 1]]
      ensures p.Some? ==>
                forall total: nat | Needs(size, total) ::
                  total <= Used()[p.value - 1] && Used()[p.value - 1] < total + MIN_CELLS
      ensures p.Some? ==> size + OVERHEAD <= CELL_BYTES * Used()[p.value - 1]
      ensures p.Some? ==> CensusOf(blocks).used == CensusOf(old(blocks)).used + CELL_BYTES * Used()[p.value - 1]
      ensures p.Some? ==> OthersKept(old(Used()), p.value - 1, old(mem[..]), mem[..])
    {
      hide Sum, Canonical, Tagged, Live, FreeRun, FirstFit, Needs, OthersKept, CensusOf;
      if size > WORD_LIMIT - 1 - OVERHEAD - CELL_BYTES {
        TooBig(heapStart, blocks, size);
        return None;
      }
      var need := (size + CELL_BYTES - 1) / CELL_BYTES;
      if need < 1 {
        need := 1;
      }
      var total := need + 2;
      NeedsIs(size, total);
      var b := if heapStart < heapEnd then Some(heapStart) else None;
      ghost var i := 0;
      StartFirst(heapStart, blocks);
      NoBlocks(heapStart, blocks);
      while b.Some?
        invariant Valid() && blocks == old(blocks) && mem[..] == old(mem[..])
        invariant i <= |blocks| && FirstFit(blocks, total) >= i
        invariant if i < |blocks| then b == Some(Start(heapStart, blocks, i)) else b == None
        decreases |blocks| - i
      {
        FitHere(blocks, total, i);
        TagsAt(mem[..], heapStart, blocks, i);
        var h := mem[b.value];
        if h.hi == TAG_FREE && h.lo >= CELL_BYTES * total {
          PlacedFits(heapStart, blocks, total);
          Carve(b.value, total, i);
          p := Some(b.value + 1);
          NeedsRoom(size, total, Used()[b.value]);
          NeedsOnly(size, total);
          CensusAdded(heapStart, old(blocks), blocks, b.value);
          assert Needs(size, total) && Placed(heapStart, old(blocks), p.value - 1, total, blocks);
          return;
        }
        b := Next(b.value, i);
        i := i + 1;
      }
      NoFit(heapStart, blocks, total, size);
      p := None;
    }

    /** Hands out the free block at `b`, splitting it if the rest can be a block. */
    method Carve(b: nat, total: nat, ghost i: nat)
      requires Valid() && total >= MIN_CELLS && i < |blocks| && b == Start(heapStart, blocks, i)
      requires !blocks[i].used && blocks[i].cells >= total
      modifies mem, `blocks
      ensures Valid() && blocks == Take(old(blocks), i, total)
      ensures b !in old(Used())
      ensures Used() == old(Used())[b := TakenCells(old(blocks)[i].cells, total)]
      ensures OthersKept(old(Used()), b, old(mem[..]), mem[..])
    {
      hide Sum, Canonical, Tagged, Live, OthersKept, Marked, Take;
      ghost var m0, bs := mem[..], blocks;
      TagsAt(m0, heapStart, bs, i);
      StartNext(heapStart, bs, i);
      TakeKeeps(heapStart, bs, i, total);
      CarveStored(m0, heapStart, bs, i, total);
      var size := mem[b].lo;
      var rest := size - CELL_BYTES * total;
      if rest >= OVERHEAD + CELL_BYTES {
        Mark(b, total, TAG_USED, Block(total, true));
        Mark(b + total, rest / CELL_BYTES, TAG_FREE, Block(bs[i].cells - total, false));
      } else {
        Mark(b, size / CELL_BYTES, TAG_USED, Block(bs[i].cells, true));
      }
      blocks := Take(bs, i, total);
    }

    /** Frees the block whose payload starts at cell `p` and merges it with its
        free neighbours. */
    method FreeBlock(p: Option<nat>)
      requires Valid() && (p.Some? ==> p.value > 0 && p.value - 1 in Used())
      modifies mem, `blocks
      ensures Valid()
      ensures p.None? ==> blocks == old(blocks) && mem[..] == old(mem[..])
      ensures p.Some? ==> blocks == Free(heapStart, old(blocks), p.value - 1)
      ensures p.Some? ==> Used() == old(Used()) - {p.value - 1}
      ensures p.Some? ==>
                CensusOf(blocks).used + CELL_BYTES * old(Used())[p.value - 1] == CensusOf(old(blocks)).used
      ensures p.Some? ==> BetweenKept(p.value - 1, old(Used())[p.value - 1], old(mem[..]), mem[..])
      ensures p.Some? ==> OthersKept(old(Used()), p.value - 1, old(mem[..]), mem[..])
    {
      hide Sum, Canonical, Tagged, Live, OthersKept, BetweenKept, IndexOf, Release, CensusOf;
      if p.None? {
        return;
      }
      ghost var i := IndexOf(heapStart, blocks, p.value - 1);
      ReleaseKeeps(heapStart, blocks, i);
      var b, size := Span(p.value - 1, i);
      Merge(b, size, i);
      CensusDropped(heapStart, old(blocks), blocks, p.value - 1);
    }

    /** Where the block at `off` and its free neighbours start, and their bytes. */
    method Span(off: nat, ghost i: nat) returns (b: nat, size: nat)
      requires Valid() && i < |blocks| && blocks[i].used && off == Start(heapStart, blocks, i)
      ensures b == Start(heapStart, blocks, Lo(blocks, i))
      ensures size == CELL_BYTES * Sum(blocks[Lo(blocks, i)..Hi(blocks, i)])
    {
      hide Sum, Canonical, Tagged, Lo, Hi, FreeBefore, FreeAfter, Live, Start;
      TagsAt(mem[..], heapStart, blocks, i);
      SpanEdges(heapStart, blocks, i);
      b := off;
      size := mem[off].lo;
      var next := Next(off, i);
      if next.Some? && mem[next.value].hi == TAG_FREE {
        size := size + mem[next.value].lo;
      }
      var prev := Prev(off, i);
      if prev.Some? && mem[prev.value].hi == TAG_FREE {
        size := size + mem[prev.value].lo;
        b := prev.value;
      }
    }

    /** Tags that stretch as one free block. */
    method Merge(b: nat, size: nat, ghost i: nat)
      requires Valid() && i < |blocks| && blocks[i].used
      requires b == Start(heapStart, blocks, Lo(blocks, i))
      requires size == CELL_BYTES * Sum(blocks[Lo(blocks, i)..Hi(blocks, i)])
      requires Canonical(Release(blocks, i)) && Sum(Release(blocks, i)) == Sum(blocks)
      modifies mem, `blocks
      ensures Valid() && blocks == Release(old(blocks), i)
      ensures OthersKept(old(Used()), Start(heapStart, old(blocks), i), old(mem[..]), mem[..])
      ensures BetweenKept(Start(heapStart, old(blocks), i), old(blocks)[i].cells, old(mem[..]), mem[..])
    {
      hide Sum, Canonical, Tagged, Lo, Hi, FreeBefore, FreeAfter, Live, OthersKept;
      ghost var m0, bs := mem[..], blocks;
      ghost var lo, hi := Lo(bs, i), Hi(bs, i);
      SpanEdges(heapStart, bs, i);
      ghost var merged := Block(Sum(bs[lo..hi]), false);
      MarkedBlock(m0, b, merged);
      Mark(b, size / CELL_BYTES, TAG_FREE, merged);
      blocks := Release(bs, i);
      TaggedOne(mem[..], b, merged);
      SumOne(merged);
      assert bs == bs[..lo] + bs[lo..hi] + bs[hi..];
      Retagged(m0, mem[..], heapStart, bs[..lo], bs[lo..hi], [merged], bs[hi..]);
      InsideKeeps(m0, mem[..], heapStart, bs, lo, hi, Start(heapStart, bs, i));
      MarkedAround(m0, heapStart, bs, i);
    }

    method UsableSize(p: nat) returns (n: nat)
      requires Valid() && p > 0 && p - 1 in Used()
      ensures n + OVERHEAD == CELL_BYTES * Used()[p - 1]
    {
      hide Sum, Canonical, Tagged, Live;
      TagsAt(mem[..], heapStart, blocks, IndexOf(heapStart, blocks, p - 1));
      n := mem[p - 1].lo - OVERHEAD;
    }

    /** Counts whole blocks, tags included. */
    method Stats() returns (arenaSize: nat, c: Census)
      requires Valid()
      ensures arenaSize == CELL_BYTES * mem.Length && c == CensusOf(blocks)
      ensures c.used == CELL_BYTES * MapSum(Used()) && c.used + c.free == CELL_BYTES * (heapEnd - heapStart)
      ensures c.live == |Used()| && c.live + c.idle == |blocks|
    {
      hide Sum, Canonical, Tagged, CensusOf, MapSum;
      CensusFacts(heapStart, blocks);
      arenaSize := CELL_BYTES * mem.Length;
      c := NO_BLOCKS;
      var b := if heapStart < heapEnd then Some(heapStart) else None;
      ghost var i := 0;
      StartFirst(heapStart, blocks);
      NoBlocks(heapStart, blocks);
      CensusStart(blocks);
      while b.Some?
        invariant i <= |blocks| && c == CensusOf(blocks[..i])
        invariant if i < |blocks| then b == Some(Start(heapStart, blocks, i)) else b == None
        decreases |blocks| - i
      {
        TagsAt(mem[..], heapStart, blocks, i);
        CensusNext(blocks, i);
        var h := mem[b.value];
        c := Counted(c, h.lo, h.hi != TAG_FREE);
        b := Next(b.value, i);
        i := i + 1;
      }
      assert blocks[..i] == blocks;
    }

    /** A client's store into a payload cell: any value, even one that looks like a tag. */
    method ClientWrite(ghost off: nat, c: nat, v: Cell)
      requires Valid() && off in Used() && off < c < off + Used()[off] - 1
      modifies mem
      ensures Valid() && c < mem.Length && mem[..] == old(mem[..])[c := v]
    {
      hide Sum, Canonical, Tagged, Live;
      PayloadWrite(mem[..], heapStart, blocks, IndexOf(heapStart, blocks, off), c, v);
      mem[c] := v;
    }
  }

  lemma {:induction false} CensusFacts(at: nat, bs: Blocks)
    requires Canonical(bs)
    ensures var c := CensusOf(bs);
            && c.used == CELL_BYTES * MapSum(Live(at, bs)) && c.used + c.free == CELL_BYTES * Sum(bs)
            && c.live == |Live(at, bs)| && c.live + c.idle == |bs|
  {
    hide Live, BigEnough, CensusOf, MapSum, Sum;
    CensusIsLive(at, bs);
    CensusBalances(at, bs);
  }

  lemma StartFirst(at: nat, bs: Blocks)
    ensures Start(at, bs, 0) == at
  {
    assert bs[..0] == [];
  }

  lemma StartAtLeast(at: nat, bs: Blocks, i: nat)
    requires i <= |bs| && Canonical(bs)
    ensures Start(at, bs, i) >= at + i
    decreases i
  {
    if i > 0 {
      Positive(bs, i - 1);
      StartAtLeast(at, bs, i - 1);
      StartNext(at, bs, i - 1);
    } else {
      StartFirst(at, bs);
    }
  }

  lemma {:induction false} EndOnlyAtLast(at: nat, bs: Blocks, i: nat)
    requires Canonical(bs) && i < |bs|
    ensures Start(at, bs, i + 1) < at + Sum(bs) <==> i + 1 < |bs|
  {
    hide Sum;
    if i + 1 < |bs| {
      Positive(bs, i + 1);
      StartNext(at, bs, i + 1);
    } else {
      assert bs[..i + 1] == bs;
    }
  }

  lemma {:induction false} NoBlocks(at: nat, bs: Blocks)
    requires Canonical(bs)
    ensures bs == [] <==> Sum(bs) == 0
  {
    if bs != [] { Positive(bs, 0); }
  }

  lemma NeedsIs(size: nat, total: nat)
    requires var need := (size + CELL_BYTES - 1) / CELL_BYTES; total == (if need < 1 then 1 else need) + 2
    ensures Needs(size, total)
  {
  }

  /** A block that can hold the bytes besides its two tags; no block is smaller than three cells. */
  predicate Holds(size: nat, total: int) { total >= 3 && size <= 16 * (total - 2) }

  /** A request needs the smallest of these. */
  lemma NeedsLeast(size: nat, total: nat)
    ensures Needs(size, total) <==> Holds(size, total) && forall t | Holds(size, t) :: total <= t
  {
    if Holds(size, total) && !Needs(size, total) { assert Holds(size, total - 1); }
  }

  lemma NeedsUnique(size: nat, t1: nat, t2: nat)
    requires Needs(size, t1) && Needs(size, t2)
    ensures t1 == t2
  {
  }

  lemma {:induction false} CensusDropped(at: nat, bs: Blocks, bs': Blocks, o: nat)
    requires Canonical(bs) && Canonical(bs') && o in Live(at, bs) && Live(at, bs') == Live(at, bs) - {o}
    ensures CensusOf(bs').used + CELL_BYTES * Live(at, bs)[o] == CensusOf(bs).used
  {
    hide Live, BigEnough, CensusOf;
    CensusMoves(at, bs', bs, o);
  }

  lemma NeedsOnly(size: nat, total: nat)
    requires Needs(size, total)
    ensures forall t | Needs(size, t) :: t == total
  {
    hide Needs;
    forall t | Needs(size, t) ensures t == total { NeedsUnique(size, t, total); }
  }

  lemma {:induction false} CensusAdded(at: nat, bs: Blocks, bs': Blocks, o: nat)
    requires Canonical(bs) && Canonical(bs') && o !in Live(at, bs) && o in Live(at, bs')
    requires Live(at, bs') == Live(at, bs)[o := Live(at, bs')[o]]
    ensures CensusOf(bs').used == CensusOf(bs).used + CELL_BYTES * Live(at, bs')[o]
  {
    hide Live, BigEnough, CensusOf;
    CensusMoves(at, bs, bs', o);
  }

  lemma NeedsRoom(size: nat, total: nat, cells: nat)
    requires Needs(size, total) && cells >= total
    ensures size + OVERHEAD <= CELL_BYTES * cells
  {
  }

  /** One more step of the search. */
  lemma {:induction false} FitHere(bs: Blocks, total: nat, i: nat)
    requires i < |bs| && FirstFit(bs, total) >= i
    ensures FirstFit(bs, total) == i <==> !bs[i].used && bs[i].cells >= total
    decreases i
  {
    if i > 0 { FitHere(bs[1..], total, i - 1); }
  }

  lemma {:induction false} NoFit(at: nat, bs: Blocks, total: nat, size: nat)
    requires Canonical(bs) && FirstFit(bs, total) == |bs| && Needs(size, total)
    ensures forall t, q | Needs(size, t) :: !FreeRun(at, bs, q, t)
  {
    hide Canonical, FreeRun, Needs;
    forall t, q | Needs(size, t) ensures !FreeRun(at, bs, q, t) {
      NeedsUnique(size, total, t);
      NeedsSome(size, t);
      if FreeRun(at, bs, q, t) { RunFits(at, bs, q, t); }
    }
  }

  lemma NeedsSome(size: nat, total: nat)
    requires Needs(size, total)
    ensures total >= MIN_CELLS && size <= CELL_BYTES * (total - 2)
  {
  }

  lemma {:induction false} FitSmall(bs: Blocks, total: nat)
    requires total > Sum(bs)
    ensures FirstFit(bs, total) == |bs|
  {
    if bs != [] { FitSmall(bs[1..], total); }
  }

  lemma {:induction false} TooBig(at: nat, bs: Blocks, size: nat)
    requires Canonical(bs) && Fits(Sum(bs) + 1) && size > WORD_LIMIT - 1 - OVERHEAD - CELL_BYTES
    ensures forall t, q | Needs(size, t) :: !FreeRun(at, bs, q, t)
  {
    hide Canonical, FreeRun, Needs, Sum;
    forall t, q | Needs(size, t) ensures !FreeRun(at, bs, q, t) {
      NeedsSome(size, t);
      if FreeRun(at, bs, q, t) {
        RunFits(at, bs, q, t);
        FitSmall(bs, t);
      }
    }
  }

  /** Where an allocation goes: the lowest run of `total` free cells. */
  ghost predicate Placed(at: nat, bs: Blocks, off: nat, total: nat, bs': Blocks) {
    && FreeRun(at, bs, off, total)
    && (forall q | FreeRun(at, bs, q, total) :: off <= q)
    && total > 0 && FirstFit(bs, total) < |bs|
    && off == Start(at, bs, FirstFit(bs, total))
    && bs' == Take(bs, FirstFit(bs, total), total)
  }

  lemma {:induction false} PlacedFits(at: nat, bs: Blocks, total: nat)
    requires Canonical(bs) && total > 0 && FirstFit(bs, total) < |bs|
    ensures var i := FirstFit(bs, total); Placed(at, bs, Start(at, bs, i), total, Take(bs, i, total))
  {
    hide Canonical, FirstFit, Sum, Take;
    var i := FirstFit(bs, total);
    var off := Start(at, bs, i);
    forall c: nat | off <= c < off + total ensures FreeAt(at, bs, c) { BlockIsRun(at, bs, i, c); }
    forall q | FreeRun(at, bs, q, total) ensures off <= q { RunFits(at, bs, q, total); }
  }

  /** Memory after the block at index `i` is carved for `total` cells. */
  function CarvedMem(mem: seq<Cell>, at: nat, cells: nat, total: nat): seq<Cell>
    requires cells >= total >= MIN_CELLS && at + cells <= |mem| && Fits(cells)
  {
    if cells - total >= MIN_CELLS then
      Marked(Marked(mem, at, Block(total, true)), at + total, Block(cells - total, false))
    else Marked(mem, at, Block(cells, true))
  }

  lemma {:induction false} CarveStored(mem: seq<Cell>, at: nat, bs: Blocks, i: nat, total: nat)
    requires Tagged(mem, at, bs) && i < |bs| && !bs[i].used && bs[i].cells >= total >= MIN_CELLS
    ensures var b := Start(at, bs, i);
            && b + bs[i].cells <= |mem| && Fits(bs[i].cells)
            && Tagged(CarvedMem(mem, b, bs[i].cells, total), at, Take(bs, i, total))
            && OthersKept(Live(at, bs), b, mem, CarvedMem(mem, b, bs[i].cells, total))
  {
    hide Sum, Tagged, Live, OthersKept, Marked;
    var b, cells := Start(at, bs, i), bs[i].cells;
    TagsAt(mem, at, bs, i);
    var mem' := CarvedMem(mem, b, cells, total);
    CarvedFacts(b, cells, total);
    if cells - total >= MIN_CELLS {
      MarkedTwo(mem, b, Block(total, true), Block(cells - total, false));
    } else {
      MarkedBlock(mem, b, Block(cells, true));
      TaggedOne(mem', b, Block(cells, true));
    }
    OneBlock(at, bs, i);
    Retagged(mem, mem', at, bs[..i], [bs[i]], Carved(cells, total), bs[i + 1..]);
    InsideKeeps(mem, mem', at, bs, i, i + 1, b);
  }

  lemma OneBlock(at: nat, bs: Blocks, i: nat)
    requires i < |bs|
    ensures bs[i..i + 1] == [bs[i]] && bs == bs[..i] + [bs[i]] + bs[i + 1..]
    ensures Sum([bs[i]]) == bs[i].cells
    ensures !bs[i].used ==> Live(Start(at, bs, i), bs[i..i + 1]) == map[]
  {
    hide Sum, Live;
    assert bs[i..i + 1] == [bs[i]];
    SumOne(bs[i]);
  }

  /** The merged stretch, measured: where it starts, how long it is, and that the
      freed block is the only live one in it. */
  lemma {:induction false} SpanEdges(at: nat, bs: Blocks, i: nat)
    requires Canonical(bs) && i < |bs| && bs[i].used
    ensures var lo, hi, off := Lo(bs, i), Hi(bs, i), Start(at, bs, i);
            && (if FreeBefore(bs, i) then lo == i - 1 else lo == i)
            && (FreeBefore(bs, i) <==> i > 0 && !bs[i - 1].used)
            && (FreeAfter(bs, i) <==> i + 1 < |bs| && !bs[i + 1].used)
            && Sum(bs[lo..hi]) == bs[i].cells + (if FreeBefore(bs, i) then bs[i - 1].cells else 0)
                                  + (if FreeAfter(bs, i) then bs[i + 1].cells else 0)
            && Sum(bs[lo..hi]) >= MIN_CELLS
            && Start(at, bs, lo) + Sum(bs[lo..hi]) <= at + Sum(bs)
            && (forall y | y in Live(Start(at, bs, lo), bs[lo..hi]) :: y == off)
  {
    hide Sum, Live, Canonical;
    var lo, hi := Lo(bs, i), Hi(bs, i);
    ReleaseEdges(bs, i);
    Positive(bs, i);
    SpanSum(bs, i, lo, hi);
    OneLive(Start(at, bs, lo), bs[lo..i], bs[i], bs[i + 1..hi]);
    assert bs[..lo] + bs[lo..i] == bs[..i];
    SumSplit(bs[..lo], bs[lo..i]);
    assert bs == bs[..lo] + bs[lo..hi] + bs[hi..];
    InThree(at, bs[..lo], bs[lo..hi], bs[hi..]);
  }

  /** Tags around a merged stretch leave what lies between the freed block's own. */
  lemma {:induction false} MarkedAround(mem: seq<Cell>, at: nat, bs: Blocks, i: nat)
    requires Canonical(bs) && i < |bs| && bs[i].used && at + Sum(bs) <= |mem| && Fits(|mem|)
    ensures var lo, hi := Lo(bs, i), Hi(bs, i);
            && Sum(bs[lo..hi]) >= MIN_CELLS && Start(at, bs, lo) + Sum(bs[lo..hi]) <= |mem|
            && BetweenKept(Start(at, bs, i), bs[i].cells, mem,
                           Marked(mem, Start(at, bs, lo), Block(Sum(bs[lo..hi]), false)))
  {
    hide Sum, Live, Canonical, Start, Lo, Hi, FreeBefore, FreeAfter;
    SpanEdges(at, bs, i);
    if FreeBefore(bs, i) { StartNext(at, bs, i - 1); }
  }

  lemma SpanSum(bs: Blocks, i: nat, lo: nat, hi: nat)
    requires i < |bs| && lo == Lo(bs, i) && hi == Hi(bs, i)
    ensures Sum(bs[lo..hi]) == bs[i].cells + (if FreeBefore(bs, i) then bs[i - 1].cells else 0)
                               + (if FreeAfter(bs, i) then bs[i + 1].cells else 0)
  {
    hide Sum;
    var x, y := bs[lo..i], bs[i + 1..hi];
    assert bs[lo..hi] == x + [bs[i]] + y;
    InThree(0, x, [bs[i]], y);
    SumOne(bs[i]);
    if FreeBefore(bs, i) { assert x == [bs[i - 1]]; SumOne(bs[i - 1]); } else { assert x == []; SumNone(); }
    if FreeAfter(bs, i) { assert y == [bs[i + 1]]; SumOne(bs[i + 1]); } else { assert y == []; SumNone(); }
  }

  lemma SumNone()
    ensures Sum([]) == 0
  {
  }
}
