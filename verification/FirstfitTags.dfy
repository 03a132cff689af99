/** Boundary tags: how a first-fit block list is stored in the memory it manages. */
module FirstfitTags {
  import opened Memory
  import opened FirstfitLayout

  const TAG_USED: Word := 0x4646_5553
  const TAG_FREE: Word := 0x4646_5246

  predicate Fits(cells: nat) { CELL_BYTES * cells < WORD_LIMIT }

  function Tag(b: Block): Cell
    requires Fits(b.cells)
  {
    Cell(CELL_BYTES * b.cells, if b.used then TAG_USED else TAG_FREE)
  }

  /** Header and footer hold the same tag. */
  predicate TaggedBlock(mem: seq<Cell>, at: nat, b: Block) {
    && MIN_CELLS <= b.cells && at + b.cells <= |mem| && Fits(b.cells)
    && mem[at] == Tag(b) && mem[at + b.cells - 1] == Tag(b)
  }

  /** Memory after a block's header and footer are written. */
  function Marked(mem: seq<Cell>, at: nat, b: Block): (mem': seq<Cell>)
    requires 2 <= b.cells && at + b.cells <= |mem| && Fits(b.cells)
    ensures |mem'| == |mem|
  {
    mem[at := Tag(b)][at + b.cells - 1 := Tag(b)]
  }

  predicate Tagged(mem: seq<Cell>, at: nat, bs: Blocks)
    decreases |bs|
  {
    bs == [] || (TaggedBlock(mem, at, bs[0]) && Tagged(mem, at + bs[0].cells, bs[1..]))
  }

  lemma {:induction false} TaggedSplit(mem: seq<Cell>, at: nat, xs: Blocks, ys: Blocks)
    ensures Tagged(mem, at, xs + ys) <==> Tagged(mem, at, xs) && Tagged(mem, at + Sum(xs), ys)
    decreases |xs|
  {
    hide TaggedBlock;
    if xs == [] {
      assert xs + ys == ys;
    } else {
      assert (xs + ys)[1..] == xs[1..] + ys;
      TaggedSplit(mem, at + xs[0].cells, xs[1..], ys);
    }
  }

  lemma {:induction false} TaggedFrame(mem: seq<Cell>, mem': seq<Cell>, at: nat, bs: Blocks)
    requires Tagged(mem, at, bs) && |mem| == |mem'|
    requires forall c | at <= c < at + Sum(bs) && c < |mem| :: mem'[c] == mem[c]
    ensures Tagged(mem', at, bs)
    decreases |bs|
  {
    if bs != [] { TaggedFrame(mem, mem', at + bs[0].cells, bs[1..]); }
  }

  lemma {:induction false} TaggedOne(mem: seq<Cell>, at: nat, b: Block)
    ensures Tagged(mem, at, [b]) <==> TaggedBlock(mem, at, b)
  {
    assert [b][1..] == [];
  }

  /** Only cells in `[lo, hi)` may have changed. */
  predicate Inside(mem: seq<Cell>, mem': seq<Cell>, lo: nat, hi: nat) {
    |mem| == |mem'| && forall c | 0 <= c < |mem| && !(lo <= c < hi) :: mem'[c] == mem[c]
  }

  /** Retagging a stretch of blocks leaves the rest of the list stored as it was. */
  lemma {:induction false} Retagged(mem: seq<Cell>, mem': seq<Cell>, at: nat, xs: Blocks, mid: Blocks, mid': Blocks,
                                    ys: Blocks)
    requires Tagged(mem, at, xs + mid + ys) && Sum(mid') == Sum(mid)
    requires Inside(mem, mem', at + Sum(xs), at + Sum(xs) + Sum(mid))
    requires Tagged(mem', at + Sum(xs), mid')
    ensures Tagged(mem', at, xs + mid' + ys)
  {
    hide Tagged, Sum;
    var s := at + Sum(xs);
    TaggedSplit(mem, at, xs + mid, ys);
    TaggedSplit(mem, at, xs, mid);
    SumSplit(xs, mid);
    SumSplit(xs, mid');
    TaggedFrame(mem, mem', at, xs);
    TaggedFrame(mem, mem', s + Sum(mid), ys);
    TaggedSplit(mem', at, xs, mid');
    TaggedSplit(mem', at, xs + mid', ys);
  }

  /** What the tags say about one block of the list. */
  lemma {:induction false} TagsAt(mem: seq<Cell>, at: nat, bs: Blocks, i: nat)
    requires Tagged(mem, at, bs) && i < |bs|
    ensures TaggedBlock(mem, Start(at, bs, i), bs[i])
  {
    hide Sum, TaggedBlock, Tagged;
    Around(bs, i);
    var ys := [bs[i]] + bs[i + 1..];
    TaggedSplit(mem, at, bs[..i], ys);
    TaggedSplit(mem, at + Sum(bs[..i]), [bs[i]], bs[i + 1..]);
    TaggedOne(mem, Start(at, bs, i), bs[i]);
  }

  /** A write between a block's tags leaves every tag in place. */
  lemma PayloadWrite(mem: seq<Cell>, at: nat, bs: Blocks, i: nat, c: nat, v: Cell)
    requires Tagged(mem, at, bs) && i < |bs|
    requires Start(at, bs, i) < c < Start(at, bs, i) + bs[i].cells - 1
    ensures c < |mem| && Tagged(mem[c := v], at, bs)
  {
    hide Sum, Tagged;
    TagsAt(mem, at, bs, i);
    Around(bs, i);
    var xs, mid, ys := bs[..i], [bs[i]], bs[i + 1..];
    assert bs == xs + mid + ys;
    SumOne(bs[i]);
    TaggedOne(mem[c := v], at + Sum(xs), bs[i]);
    Retagged(mem, mem[c := v], at, xs, mid, mid, ys);
  }

  /** Where a live block other than `o` lies when the blocks `[lo, hi)` are
      touched and `o` is the only live one among them. */
  lemma {:induction false} LiveElsewhere(at: nat, bs: Blocks, lo: nat, hi: nat, o: nat, x: nat)
    requires lo <= hi <= |bs| && x in Live(at, bs) && x != o
    requires forall y | y in Live(Start(at, bs, lo), bs[lo..hi]) :: y == o
    ensures x + Live(at, bs)[x] <= Start(at, bs, lo) || Start(at, bs, lo) + Sum(bs[lo..hi]) <= x
  {
    hide Sum, Live;
    var xs, mid, ys := bs[..lo], bs[lo..hi], bs[hi..];
    assert bs == xs + mid + ys;
    InThree(at, xs, mid, ys);
    assert Start(at, bs, lo) == at + Sum(xs);
  }

  /** Every live block but `o` holds what it held, tags and all. */
  ghost predicate OthersKept(live: map<nat, nat>, o: nat, mem: seq<Cell>, mem': seq<Cell>) {
    && |mem| == |mem'|
    && forall x: nat, c: nat {:trigger OwnsCell(live, x, c)} | OwnsCell(live, x, c) && x != o && c < |mem| ::
      mem'[c] == mem[c]
  }

  predicate OwnsCell(live: map<nat, nat>, x: nat, c: nat) {
    x in live && x <= c < x + live[x]
  }

  /** The cells between the two tags of a block hold what they held. */
  predicate BetweenKept(o: nat, cells: nat, mem: seq<Cell>, mem': seq<Cell>) {
    |mem| == |mem'| && forall c | o < c < o + cells - 1 && c < |mem| :: mem'[c] == mem[c]
  }

  lemma {:induction false} InsideKeeps(mem: seq<Cell>, mem': seq<Cell>, at: nat, bs: Blocks, lo: nat, hi: nat, o: nat)
    requires lo <= hi <= |bs|
    requires forall y | y in Live(Start(at, bs, lo), bs[lo..hi]) :: y == o
    requires Inside(mem, mem', Start(at, bs, lo), Start(at, bs, lo) + Sum(bs[lo..hi]))
    ensures OthersKept(Live(at, bs), o, mem, mem')
  {
    hide Sum, Live;
    forall x: nat, c: nat {:trigger OwnsCell(Live(at, bs), x, c)} |
      OwnsCell(Live(at, bs), x, c) && x != o && c < |mem|
      ensures mem'[c] == mem[c]
    {
      LiveElsewhere(at, bs, lo, hi, o, x);
    }
  }

  lemma MarkedBlock(mem: seq<Cell>, at: nat, b: Block)
    requires MIN_CELLS <= b.cells && at + b.cells <= |mem| && Fits(b.cells)
    ensures TaggedBlock(Marked(mem, at, b), at, b) && Inside(mem, Marked(mem, at, b), at, at + b.cells)
  {
  }

  lemma {:induction false} MarkedTwo(mem: seq<Cell>, at: nat, b: Block, c: Block)
    requires MIN_CELLS <= b.cells && MIN_CELLS <= c.cells && at + b.cells + c.cells <= |mem|
    requires Fits(b.cells) && Fits(c.cells)
    ensures var mem' := Marked(Marked(mem, at, b), at + b.cells, c);
            && Tagged(mem', at, [b, c]) && Inside(mem, mem', at, at + b.cells + c.cells)
  {
    var mem' := Marked(Marked(mem, at, b), at + b.cells, c);
    MarkedBlock(mem, at, b);
    MarkedBlock(Marked(mem, at, b), at + b.cells, c);
    assert TaggedBlock(mem', at, b);
    assert [b, c][1..] == [c];
    TaggedOne(mem', at + b.cells, c);
  }
}
