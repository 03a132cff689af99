/** The intrusive free lists of the buddy arena, as edits of a memory image.

    A list node sits in the cell after its block's header and is named by that
    cell's index; index 0 stands for NULL, since the arena's first cells hold
    the allocator's own state. */
module BuddyLists {
  import opened BuddyMath
  import opened Memory

  const MAGIC: Word := 0x42554459424c4b31
  const HALF_WORD: nat := 0x1_0000_0000

  type OrderIndex = k: nat | k <= MAX_ORDER

  /** The header cell: the magic word, then order and in_use as 32-bit halves. */
  function Header(k: OrderIndex, used: bool): Cell {
    Cell(MAGIC, k + (if used then HALF_WORD else 0))
  }

  function HeaderOrder(c: Cell): nat { c.hi % HALF_WORD }

  function HeaderUsed(c: Cell): bool { c.hi / HALF_WORD != 0 }

  /** Chains of block offsets, one for each order, from the list head on. */
  type Chains = seq<seq<nat>>

  function NodeOf(ch: seq<nat>, i: int): nat {
    if 0 <= i < |ch| then ch[i] + 1 else 0
  }

  predicate NodeOk(m: seq<Cell>, ch: seq<nat>, i: int) {
    && 0 <= i < |ch| && ch[i] + 1 < |m|
    && m[ch[i] + 1].lo == NodeOf(ch, i + 1) && m[ch[i] + 1].hi == NodeOf(ch, i - 1)
  }

  ghost predicate Linked(m: seq<Cell>, head: nat, ch: seq<nat>) {
    && head == NodeOf(ch, 0)
    && forall i {:trigger NodeOk(m, ch, i)} | 0 <= i < |ch| :: NodeOk(m, ch, i)
  }

  ghost predicate Distinct(ch: seq<nat>) {
    forall i, j | 0 <= i < j < |ch| :: ch[i] != ch[j]
  }

  /** The chain holds exactly the free blocks of its order. */
  ghost predicate Lists(ch: seq<nat>, free: map<nat, Order>, k: nat) {
    && (forall i | 0 <= i < |ch| :: ch[i] in free && free[ch[i]] == k)
    && (forall o | o in free && free[o] == k :: o in ch)
  }

  ghost predicate ChainOk(m: seq<Cell>, heads: seq<nat>, chains: Chains, free: map<nat, Order>, k: nat)
    requires |heads| == |chains| && k < |heads|
  {
    Linked(m, heads[k], chains[k]) && Distinct(chains[k]) && Lists(chains[k], free, k)
  }

  /** Every order's doubly linked list holds exactly that order's free blocks. */
  ghost predicate ListsOk(m: seq<Cell>, heads: seq<nat>, chains: Chains, free: map<nat, Order>) {
    && |heads| == |chains| == MAX_ORDER + 1
    && forall k | 0 <= k < |heads| :: ChainOk(m, heads, chains, free, k)
  }

  // ---- Push ---------------------------------------------------------------

  function PushMem(m: seq<Cell>, head: nat, off: nat, k: OrderIndex): (m': seq<Cell>)
    requires off + 1 < |m| < WORD_LIMIT && head < |m|
    ensures |m'| == |m|
  {
    var m1 := m[off := Header(k, false)][off + 1 := Cell(head, 0)];
    if head != 0 then m1[head := Cell(m1[head].lo, off + 1)] else m1
  }

  /** Cells a push or a removal at `off` of the given list may write. */
  predicate Foreign(ch: seq<nat>, off: nat, c: nat) {
    c != off && c != off + 1 && forall i | 0 <= i < |ch| :: c != ch[i] + 1
  }

  lemma PushFrame(m: seq<Cell>, head: nat, ch: seq<nat>, off: nat, k: OrderIndex, c: nat)
    requires off + 1 < |m| < WORD_LIMIT && Linked(m, head, ch)
    requires c < |m| && Foreign(ch, off, c)
    ensures head < |m| && PushMem(m, head, off, k)[c] == m[c]
  {
    assert ch != [] ==> NodeOk(m, ch, 0);
  }

  lemma PushChain(m: seq<Cell>, head: nat, ch: seq<nat>, off: nat, k: OrderIndex)
    requires off + 1 < |m| < WORD_LIMIT && Linked(m, head, ch) && Distinct(ch)
    requires forall i | 0 <= i < |ch| :: ch[i] != off && ch[i] + 1 != off && ch[i] != off + 1
    ensures head < |m| && Linked(PushMem(m, head, off, k), off + 1, [off] + ch) && Distinct([off] + ch)
  {
    assert ch != [] ==> NodeOk(m, ch, 0);
    var ch' := [off] + ch;
    var m' := PushMem(m, head, off, k);
    forall i {:trigger NodeOk(m', ch', i)} | 0 <= i < |ch'| ensures NodeOk(m', ch', i) {
      if i > 0 {
        assert NodeOk(m, ch, i - 1);
        assert i > 1 ==> ch[i - 1] != ch[0];
      }
    }
  }

  // ---- Removal ------------------------------------------------------------

  function RemoveHead(m: seq<Cell>, head: nat, off: nat): nat
    requires off + 1 < |m|
  {
    if m[off + 1].hi != 0 then head else m[off + 1].lo
  }

  function RemoveMem(m: seq<Cell>, off: nat): (m': seq<Cell>)
    requires off + 1 < |m| && m[off + 1].lo < |m| && m[off + 1].hi < |m|
    ensures |m'| == |m|
  {
    var n := m[off + 1];
    var m1 := if n.hi != 0 then m[n.hi := Cell(n.lo, m[n.hi].hi)] else m;
    if n.lo != 0 then m1[n.lo := Cell(m1[n.lo].lo, n.hi)] else m1
  }

  lemma Neighbours(m: seq<Cell>, head: nat, ch: seq<nat>, i: nat)
    requires Linked(m, head, ch) && i < |ch|
    ensures NodeOk(m, ch, i)
    ensures NodeOf(ch, i - 1) < |m| && NodeOf(ch, i + 1) < |m|
  {
    assert NodeOk(m, ch, i);
    assert i > 0 ==> NodeOk(m, ch, i - 1);
    assert i + 1 < |ch| ==> NodeOk(m, ch, i + 1);
  }

  lemma RemoveFrame(m: seq<Cell>, head: nat, ch: seq<nat>, i: nat, c: nat)
    requires Linked(m, head, ch) && i < |ch|
    requires c < |m| && Foreign(ch, ch[i], c)
    ensures ch[i] + 1 < |m| && m[ch[i] + 1].lo < |m| && m[ch[i] + 1].hi < |m|
    ensures RemoveMem(m, ch[i])[c] == m[c]
  {
    Neighbours(m, head, ch, i);
  }

  function Without(ch: seq<nat>, i: nat): seq<nat>
    requires i < |ch|
  {
    ch[..i] + ch[i + 1..]
  }

  lemma RemoveNode(m: seq<Cell>, head: nat, ch: seq<nat>, i: nat, j: nat)
    requires Linked(m, head, ch) && Distinct(ch) && i < |ch| && j < |ch| - 1
    ensures ch[i] + 1 < |m| && m[ch[i] + 1].lo < |m| && m[ch[i] + 1].hi < |m|
    ensures NodeOk(RemoveMem(m, ch[i]), Without(ch, i), j)
  {
    Neighbours(m, head, ch, i);
    var j0 := if j < i then j else j + 1;
    Neighbours(m, head, ch, j0);
    assert j0 != i - 1 && i > 0 ==> ch[j0] != ch[i - 1];
    assert j0 != i + 1 && i + 1 < |ch| ==> ch[j0] != ch[i + 1];
  }

  lemma RemoveChain(m: seq<Cell>, head: nat, ch: seq<nat>, i: nat)
    requires Linked(m, head, ch) && Distinct(ch) && i < |ch|
    ensures ch[i] + 1 < |m| && m[ch[i] + 1].lo < |m| && m[ch[i] + 1].hi < |m|
    ensures Linked(RemoveMem(m, ch[i]), RemoveHead(m, head, ch[i]), Without(ch, i))
    ensures Distinct(Without(ch, i))
  {
    Neighbours(m, head, ch, i);
    forall j {:trigger NodeOk(RemoveMem(m, ch[i]), Without(ch, i), j)} | 0 <= j < |ch| - 1
      ensures NodeOk(RemoveMem(m, ch[i]), Without(ch, i), j)
    {
      RemoveNode(m, head, ch, i, j);
    }
  }

  // ---- All lists at once --------------------------------------------------

  ghost predicate EvenKeys(free: map<nat, Order>) {
    forall o | o in free :: o % 2 == 0
  }

  lemma LinkedFrame(m: seq<Cell>, m': seq<Cell>, head: nat, ch: seq<nat>)
    requires Linked(m, head, ch) && |m'| == |m|
    requires forall i | 0 <= i < |ch| && ch[i] + 1 < |m| :: m'[ch[i] + 1] == m[ch[i] + 1]
    ensures Linked(m', head, ch)
  {
    forall i {:trigger NodeOk(m', ch, i)} | 0 <= i < |ch| ensures NodeOk(m', ch, i) {
      assert NodeOk(m, ch, i);
    }
  }

  lemma PushListed(ch: seq<nat>, free: map<nat, Order>, off: nat, k: Order, j: nat)
    requires Lists(ch, free, j) && off !in free
    ensures Lists(if j == k then [off] + ch else ch, free[off := k], j)
  {
    var ch' := [off] + ch;
    assert off == ch'[0];
    forall o | o in ch ensures o in ch' {
      var i :| 0 <= i < |ch| && ch[i] == o;
      assert ch'[i + 1] == o;
    }
  }

  /** Chains of different orders share no block. */
  lemma OtherNodes(chains: Chains, free: map<nat, Order>, j: nat, k: nat, x: nat)
    requires j < |chains| && k < |chains| && j != k && x < |chains[j]|
    requires Lists(chains[j], free, j) && Lists(chains[k], free, k)
    ensures chains[j][x] in free && forall i | 0 <= i < |chains[k]| :: chains[k][i] != chains[j][x]
  {
  }

  lemma PushOther(m: seq<Cell>, heads: seq<nat>, chains: Chains, free: map<nat, Order>, off: nat, k: Order, j: nat)
    requires ListsOk(m, heads, chains, free) && EvenKeys(free)
    requires off % 2 == 0 && off !in free && off + 1 < |m| < WORD_LIMIT && k <= MAX_ORDER
    requires j <= MAX_ORDER && j != k && heads[k] < |m|
    ensures Linked(PushMem(m, heads[k], off, k), heads[j], chains[j])
  {
    hide Linked, Distinct, PushMem;
    assert ChainOk(m, heads, chains, free, k) && ChainOk(m, heads, chains, free, j);
    forall x | 0 <= x < |chains[j]| && chains[j][x] + 1 < |m|
      ensures PushMem(m, heads[k], off, k)[chains[j][x] + 1] == m[chains[j][x] + 1]
    {
      OtherNodes(chains, free, j, k, x);
      PushFrame(m, heads[k], chains[k], off, k, chains[j][x] + 1);
    }
    LinkedFrame(m, PushMem(m, heads[k], off, k), heads[j], chains[j]);
  }

  lemma PushHere(m: seq<Cell>, heads: seq<nat>, chains: Chains, free: map<nat, Order>, off: nat, k: Order)
    requires ListsOk(m, heads, chains, free) && EvenKeys(free)
    requires off % 2 == 0 && off !in free && off + 1 < |m| < WORD_LIMIT && k <= MAX_ORDER
    ensures heads[k] < |m| && Linked(PushMem(m, heads[k], off, k), off + 1, [off] + chains[k])
    ensures Distinct([off] + chains[k])
  {
    hide Linked, Distinct, PushMem;
    assert ChainOk(m, heads, chains, free, k);
    PushChain(m, heads[k], chains[k], off, k);
  }

  lemma PushLists(m: seq<Cell>, heads: seq<nat>, chains: Chains, free: map<nat, Order>, off: nat, k: Order)
    requires ListsOk(m, heads, chains, free) && EvenKeys(free)
    requires off % 2 == 0 && off !in free && off + 1 < |m| < WORD_LIMIT && k <= MAX_ORDER
    ensures heads[k] < |m|
    ensures ListsOk(PushMem(m, heads[k], off, k), heads[k := off + 1],
                    chains[k := [off] + chains[k]], free[off := k])
  {
    hide Linked, Distinct, PushMem, Lists, EvenKeys;
    PushHere(m, heads, chains, free, off, k);
    var m', heads' := PushMem(m, heads[k], off, k), heads[k := off + 1];
    var chains', free' := chains[k := [off] + chains[k]], free[off := k];
    forall j | 0 <= j < |heads'| ensures ChainOk(m', heads', chains', free', j) {
      assert ChainOk(m, heads, chains, free, j);
      PushListed(chains[j], free, off, k, j);
      if j != k { PushOther(m, heads, chains, free, off, k, j); }
    }
  }

  lemma WithoutElements(ch: seq<nat>, i: nat, o: nat)
    requires i < |ch| && o in ch && o != ch[i]
    ensures o in Without(ch, i)
  {
    var j :| 0 <= j < |ch| && ch[j] == o;
    assert Without(ch, i)[if j < i then j else j - 1] == o;
  }

  lemma RemoveListed(ch: seq<nat>, free: map<nat, Order>, k: Order, i: nat)
    requires Lists(ch, free, k) && Distinct(ch) && i < |ch|
    ensures Lists(Without(ch, i), free - {ch[i]}, k)
  {
    var ch', free' := Without(ch, i), free - {ch[i]};
    forall o | o in free' && free'[o] == k ensures o in ch' { WithoutElements(ch, i, o); }
    forall x | 0 <= x < |ch'| ensures ch'[x] in free' && free'[ch'[x]] == k {
      assert ch'[x] == ch[if x < i then x else x + 1];
    }
  }

  lemma RemoveOther(m: seq<Cell>, heads: seq<nat>, chains: Chains, free: map<nat, Order>, k: Order, i: nat, j: nat)
    requires ListsOk(m, heads, chains, free) && EvenKeys(free)
    requires k <= MAX_ORDER && i < |chains[k]| && j <= MAX_ORDER && j != k
    ensures var off := chains[k][i];
            && off + 1 < |m| && m[off + 1].lo < |m| && m[off + 1].hi < |m|
            && Linked(RemoveMem(m, off), heads[j], chains[j]) && Lists(chains[j], free - {off}, j)
  {
    hide Linked, Distinct, RemoveMem;
    assert ChainOk(m, heads, chains, free, k) && ChainOk(m, heads, chains, free, j);
    var off := chains[k][i];
    RemoveChain(m, heads[k], chains[k], i);
    forall x | 0 <= x < |chains[j]| && chains[j][x] + 1 < |m|
      ensures RemoveMem(m, off)[chains[j][x] + 1] == m[chains[j][x] + 1]
    {
      OtherNodes(chains, free, j, k, x);
      RemoveFrame(m, heads[k], chains[k], i, chains[j][x] + 1);
    }
    LinkedFrame(m, RemoveMem(m, off), heads[j], chains[j]);
  }

  lemma RemoveLists(m: seq<Cell>, heads: seq<nat>, chains: Chains, free: map<nat, Order>, k: Order, i: nat)
    requires ListsOk(m, heads, chains, free) && EvenKeys(free)
    requires k <= MAX_ORDER && i < |chains[k]|
    ensures var off := chains[k][i];
            && off in free && free[off] == k
            && off + 1 < |m| && m[off + 1].lo < |m| && m[off + 1].hi < |m|
            && ListsOk(RemoveMem(m, off), heads[k := RemoveHead(m, heads[k], off)],
                       chains[k := Without(chains[k], i)], free - {off})
  {
    hide Linked, Distinct, RemoveMem, RemoveHead, EvenKeys, Without;
    assert ChainOk(m, heads, chains, free, k);
    var off := chains[k][i];
    RemoveChain(m, heads[k], chains[k], i);
    RemoveListed(chains[k], free, k, i);
    var m', heads' := RemoveMem(m, off), heads[k := RemoveHead(m, heads[k], off)];
    var chains', free' := chains[k := Without(chains[k], i)], free - {off};
    forall j | 0 <= j < |heads'| ensures ChainOk(m', heads', chains', free', j) {
      assert ChainOk(m, heads, chains, free, j);
      if j != k { RemoveOther(m, heads, chains, free, k, i, j); }
    }
  }
}
