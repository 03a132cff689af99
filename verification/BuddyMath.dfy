/** Sizes, alignment and the sibling address of buddy blocks.

    Offsets and sizes are counted in 16-byte cells. A block of order `k` is
    `1 << k` bytes, which is `Cells(k)` cells, so the smallest block (order 5)
    is two cells: its header and the pair of list links. */
module BuddyMath {

  const MIN_ORDER: nat := 5
  const MAX_ORDER: nat := 47

  type Order = k: nat | MIN_ORDER <= k witness MIN_ORDER

  function Cells(k: Order): (c: nat)
    ensures c >= 2 && c % 2 == 0
  {
    if k == MIN_ORDER then 2 else 2 * Cells(k - 1)
  }

  /** `off` is a multiple of `Cells(k)`. */
  predicate Aligned(off: nat, k: Order) {
    off % 2 == 0 && (k == MIN_ORDER || Aligned(off / 2, k - 1))
  }

  lemma CellsDouble(k: Order)
    ensures Cells(k + 1) == 2 * Cells(k)
  {
  }

  lemma {:induction false} CellsGrow(j: Order, k: Order)
    requires j <= k
    ensures Cells(j) <= Cells(k)
    ensures j < k ==> 2 * Cells(j) <= Cells(k)
  {
    if j < k { CellsGrow(j, k - 1); }
  }

  lemma {:induction false} AlignedDown(off: nat, j: Order, k: Order)
    requires j <= k && Aligned(off, k)
    ensures Aligned(off, j)
  {
    if MIN_ORDER < j { AlignedDown(off / 2, j - 1, k - 1); }
  }

  lemma {:induction false} AlignedStep(off: nat, k: Order)
    requires Aligned(off, k)
    ensures Aligned(off + Cells(k), k)
    ensures off >= Cells(k) ==> Aligned(off - Cells(k), k)
  {
    if MIN_ORDER < k {
      AlignedStep(off / 2, k - 1);
      assert (off + Cells(k)) / 2 == off / 2 + Cells(k - 1);
      assert off >= Cells(k) ==> (off - Cells(k)) / 2 == off / 2 - Cells(k - 1);
    }
  }

  lemma {:induction false} CellsAligned(k: Order)
    ensures Aligned(Cells(k), k)
  {
    if MIN_ORDER < k { CellsAligned(k - 1); }
  }

  /** Two starts aligned to the same size are at least that size apart. */
  lemma {:induction false} AlignedGap(a: nat, b: nat, k: Order)
    requires Aligned(a, k) && Aligned(b, k) && a < b
    ensures a + Cells(k) <= b
  {
    if MIN_ORDER < k { AlignedGap(a / 2, b / 2, k - 1); }
  }

  /** An aligned block that starts inside a larger aligned block ends inside it. */
  lemma {:induction false} AlignedNest(p: nat, k: Order, o: nat, j: Order)
    requires j <= k && Aligned(p, k) && Aligned(o, j)
    requires p <= o < p + Cells(k)
    ensures o + Cells(j) <= p + Cells(k)
  {
    AlignedStep(p, k);
    AlignedDown(p + Cells(k), j, k);
    AlignedGap(o, p + Cells(k), j);
  }

  /** An aligned start inside an aligned block of no larger size is its start. */
  lemma {:induction false} AlignedInside(p: nat, k: Order, o: nat, j: Order)
    requires k <= j && Aligned(p, k) && Aligned(o, j)
    requires p <= o < p + Cells(k)
    ensures o == p
  {
    AlignedDown(o, k, j);
    if p < o { AlignedGap(p, o, k); }
  }

  /** Bitwise exclusive or. */
  function Xor(a: nat, b: nat): nat
    decreases a + b
  {
    if a == 0 && b == 0 then 0
    else (if a % 2 != b % 2 then 1 else 0) + 2 * Xor(a / 2, b / 2)
  }

  /** The offset `off ^ (1 << k)`, in cells. */
  function Sibling(off: nat, k: Order): nat {
    Xor(off, Cells(k))
  }

  lemma {:induction false} XorZero(a: nat)
    ensures Xor(a, 0) == a
  {
    if a > 0 { XorZero(a / 2); }
  }

  lemma {:induction false} XorOne(a: nat)
    ensures Xor(a, 1) == if a % 2 == 0 then a + 1 else a - 1
  {
    XorZero(a / 2);
    assert Xor(a, 1) == (if a % 2 != 1 then 1 else 0) + 2 * Xor(a / 2, 0);
  }

  lemma {:induction false} XorDouble(a: nat, b: nat)
    ensures Xor(2 * a, 2 * b) == 2 * Xor(a, b)
  {
  }

  /** The sibling address is the other half of the block's parent. */
  lemma {:induction false} SiblingIsOtherHalf(off: nat, k: Order)
    requires Aligned(off, k)
    ensures Aligned(Sibling(off, k), k)
    ensures Aligned(off, k + 1) ==> Sibling(off, k) == off + Cells(k)
    ensures !Aligned(off, k + 1) ==>
              off >= Cells(k) && Sibling(off, k) == off - Cells(k) && Aligned(off - Cells(k), k + 1)
  {
    var h := off / 2;
    assert off == 2 * h;
    if k == MIN_ORDER {
      XorOne(h);
      XorDouble(h, 1);
      assert Aligned(off, k + 1) <==> h % 2 == 0;
    } else {
      SiblingIsOtherHalf(h, k - 1);
      XorDouble(h, Cells(k - 1));
      assert Aligned(off, k + 1) <==> Aligned(h, k);
      assert off >= Cells(k) ==> (off - Cells(k)) / 2 == h - Cells(k - 1);
      assert Sibling(off, k) / 2 == Sibling(h, k - 1);
    }
  }

  lemma {:induction false} HalvesNotParent(p: nat, k: Order)
    requires Aligned(p, k + 1)
    ensures Aligned(p, k) && Aligned(p + Cells(k), k) && !Aligned(p + Cells(k), k + 1)
  {
    AlignedDown(p, k, k + 1);
    AlignedStep(p, k);
    if Aligned(p + Cells(k), k + 1) { AlignedGap(p, p + Cells(k), k + 1); }
  }

  lemma SiblingOfHalves(p: nat, k: Order)
    requires Aligned(p, k + 1)
    ensures Aligned(p, k) && Aligned(p + Cells(k), k)
    ensures Sibling(p, k) == p + Cells(k) && Sibling(p + Cells(k), k) == p
  {
    HalvesNotParent(p, k);
    SiblingIsOtherHalf(p, k);
    SiblingIsOtherHalf(p + Cells(k), k);
  }

  lemma {:induction false} SiblingTwice(x: nat, k: Order)
    requires Aligned(x, k)
    ensures Sibling(Sibling(x, k), k) == x
  {
    hide Aligned, Cells, Xor, Sibling;
    SiblingIsOtherHalf(x, k);
    var s := Sibling(x, k);
    SiblingOfHalves(if s < x then s else x, k);
  }
}
