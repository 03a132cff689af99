/** Drawing a CHIP-8 sprite, as a value: which pixels it touches and what the
    exclusive-or does to them. */
module Sprite {

  const WIDTH: nat := 64
  const HEIGHT: nat := 32
  const PIXELS: nat := WIDTH * HEIGHT
  const MEMORY: nat := 4096
  const VF: nat := 15

  type Byte = n: nat | n < 256

  /** Dark or lit. */
  type Pixel = n: nat | n < 2

  datatype Cpu = Cpu(mem: seq<Byte>, v: seq<Byte>, i: nat, fb: seq<Pixel>) {
    predicate Valid() { |mem| == MEMORY && |v| == 16 && |fb| == PIXELS }
  }

  predicate Bit(b: nat, k: nat)
    decreases k
  {
    if k == 0 then b % 2 == 1 else Bit(b / 2, k - 1)
  }

  /** Where a sprite of `n` rows goes: its start wraps, its edges are clipped. */
  datatype Place = Place(x0: nat, y0: nat, n: nat)

  function PlaceOf(c: Cpu, x: nat, y: nat, n: nat): Place
    requires c.Valid() && x < 16 && y < 16
  {
    Place(c.v[x] % WIDTH, c.v[y] % HEIGHT, n)
  }

  /** Pixel `p` is on screen, inside the sprite's box, and its bit is set. */
  predicate Touched(mem: seq<Byte>, i: nat, at: Place, p: nat) {
    var row, col := p / WIDTH - at.y0, p % WIDTH - at.x0;
    && p < PIXELS && 0 <= row < at.n && 0 <= col < 8
    && i + row < |mem| && Bit(mem[i + row], 7 - col)
  }

  function Pixels(mem: seq<Byte>, i: nat, at: Place): set<nat> {
    set p: nat | p < PIXELS && Touched(mem, i, at, p)
  }

  function Lit(fb: seq<Pixel>): set<nat> {
    set p: nat | p < |fb| && fb[p] == 1
  }

  function Flip(fb: seq<Pixel>, s: set<nat>): (r: seq<Pixel>)
    ensures |r| == |fb|
  {
    seq<Pixel>(|fb|, p requires 0 <= p < |fb| => if p in s then 1 - fb[p] else fb[p])
  }

  /** DXYN where the sprite lies inside memory. */
  function Draw(c: Cpu, x: nat, y: nat, n: nat): (r: Cpu)
    requires c.Valid() && x < 16 && y < 16
    ensures r.Valid()
  {
    var s := Pixels(c.mem, c.i, PlaceOf(c, x, y, n));
    c.(fb := Flip(c.fb, s), v := c.v[VF := if s * Lit(c.fb) != {} then 1 else 0])
  }

  // ---- Where the pixels are -----------------------------------------------------------

  lemma HalvedTwice(b: nat, m: nat)
    requires m in {1, 2, 4, 8, 16, 32, 64}
    ensures b / 2 / m == b / (2 * m)
  {
  }

  /** Column `dx` of a sprite row: the highest bit is the leftmost. */
  lemma {:induction false} BitOfColumn(b: nat, dx: nat)
    requires dx < 8
    ensures Bit(b, 7 - dx) <==> b / [128, 64, 32, 16, 8, 4, 2, 1][dx] % 2 == 1
    decreases 7 - dx
  {
    if dx < 7 {
      BitOfColumn(b / 2, dx + 1);
      HalvedTwice(b, [128, 64, 32, 16, 8, 4, 2, 1][dx + 1]);
    }
  }

  /** The pixel in row `row` and column `col` of the screen after a draw: rows count
      down from `v[y]`, taken modulo 32, columns to the right from `v[x]`, taken modulo
      64, and each set bit of the sprite flips the pixel it falls on. Nothing else
      changes but VF. */
  lemma {:induction false} DrawPixel(c: Cpu, x: nat, y: nat, n: nat, row: nat, col: nat)
    requires c.Valid() && x < 16 && y < 16 && row < 32 && col < 64
    ensures var d, dy, dx := Draw(c, x, y, n), row - c.v[y] % 32, col - c.v[x] % 64;
            var p := 64 * row + col;
            && d.fb[p] == (if 0 <= dy < n && 0 <= dx < 8 && c.i + dy < 4096
                              && c.mem[c.i + dy] / [128, 64, 32, 16, 8, 4, 2, 1][dx] % 2 == 1
                           then 1 - c.fb[p] else c.fb[p])
    ensures var d := Draw(c, x, y, n);
            d.mem == c.mem && d.i == c.i && forall k | 0 <= k < 15 :: d.v[k] == c.v[k]
  {
    hide Bit, Lit;
    var p, dy, dx := 64 * row + col, row - c.v[y] % 32, col - c.v[x] % 64;
    assert p / WIDTH == row && p % WIDTH == col;
    if 0 <= dy < n && 0 <= dx < 8 && c.i + dy < 4096 { BitOfColumn(c.mem[c.i + dy], dx); }
  }

  /** Only the remainders of the coordinates matter. */
  lemma {:induction false} DrawWraps(c: Cpu, d: Cpu, x: nat, y: nat, n: nat)
    requires c.Valid() && d.Valid() && x < 16 && y < 16 && d.mem == c.mem && d.i == c.i && d.fb == c.fb
    requires d.v[x] % 64 == c.v[x] % 64 && d.v[y] % 32 == c.v[y] % 32
    ensures Draw(d, x, y, n).fb == Draw(c, x, y, n).fb
  {
    hide Draw;
    var a, b := Draw(c, x, y, n).fb, Draw(d, x, y, n).fb;
    forall p | 0 <= p < PIXELS ensures a[p] == b[p] {
      assert p == 64 * (p / 64) + p % 64;
      DrawPixel(c, x, y, n, p / 64, p % 64);
      DrawPixel(d, x, y, n, p / 64, p % 64);
    }
  }

  // ---- What drawing does ------------------------------------------------------------

  lemma FlipLit(fb: seq<Pixel>, s: set<nat>)
    requires forall p | p in s :: p < |fb|
    ensures Lit(Flip(fb, s)) == (Lit(fb) - s) + (s - Lit(fb))
  {
  }

  lemma Symmetric(a: set<nat>, s: set<nat>)
    ensures |(a - s) + (s - a)| == |a| + |s| - 2 * |s * a|
  {
    assert (a - s) !! (s - a);
    assert a == (a - s) + s * a && (a - s) !! (s * a);
    assert s == (s - a) + s * a && (s - a) !! (s * a);
  }

  /** The lit count changes by |S| - 2 |S and lit|. */
  lemma DrawCounts(c: Cpu, x: nat, y: nat, n: nat)
    requires c.Valid() && x < 16 && y < 16
    ensures var s := Pixels(c.mem, c.i, PlaceOf(c, x, y, n));
            |Lit(Draw(c, x, y, n).fb)| == |Lit(c.fb)| + |s| - 2 * |s * Lit(c.fb)|
  {
    var s := Pixels(c.mem, c.i, PlaceOf(c, x, y, n));
    FlipLit(c.fb, s);
    Symmetric(Lit(c.fb), s);
  }

  /** VF says whether a lit pixel was turned off: exactly when the sprite met one. */
  lemma DrawCollides(c: Cpu, x: nat, y: nat, n: nat)
    requires c.Valid() && x < 16 && y < 16
    ensures var r := Draw(c, x, y, n);
            && (r.v[VF] == 1 <==> exists p :: p in Lit(c.fb) && p !in Lit(r.fb))
            && (r.v[VF] == 1 || r.v[VF] == 0)
  {
    var s := Pixels(c.mem, c.i, PlaceOf(c, x, y, n));
    var r := Draw(c, x, y, n);
    FlipLit(c.fb, s);
    if s * Lit(c.fb) != {} {
      var p :| p in s * Lit(c.fb);
      assert p in Lit(c.fb) && p !in Lit(r.fb);
    }
    if p :| p in Lit(c.fb) && p !in Lit(r.fb) {
      assert p in s * Lit(c.fb);
    }
  }

  lemma FlipTwice(fb: seq<Pixel>, s: set<nat>)
    ensures Flip(Flip(fb, s), s) == fb
  {
  }

  /** Drawing the same sprite twice restores the screen, as long as VF is not one
      of the coordinates. */
  lemma DrawTwice(c: Cpu, x: nat, y: nat, n: nat)
    requires c.Valid() && x < 16 && y < 16 && x != VF && y != VF
    ensures Draw(Draw(c, x, y, n), x, y, n).fb == c.fb
  {
    hide Touched, Pixels, Lit, Flip;
    FlipTwice(c.fb, Pixels(c.mem, c.i, PlaceOf(c, x, y, n)));
  }

  /** The second draw restores the screen exactly when both touch the same pixels. */
  lemma {:induction false} SamePixels(c: Cpu, x: nat, y: nat, n: nat)
    requires c.Valid() && x < 16 && y < 16
    ensures var d := Draw(c, x, y, n);
            Draw(d, x, y, n).fb == c.fb
            <==> Pixels(c.mem, c.i, PlaceOf(c, x, y, n)) == Pixels(d.mem, d.i, PlaceOf(d, x, y, n))
  {
    hide Touched, Lit;
    var d := Draw(c, x, y, n);
    var s, t := Pixels(c.mem, c.i, PlaceOf(c, x, y, n)), Pixels(d.mem, d.i, PlaceOf(d, x, y, n));
    FlipTwice(c.fb, s);
    if Flip(Flip(c.fb, s), t) == c.fb {
      forall p: nat ensures p in s <==> p in t {
        if p < PIXELS { assert Flip(Flip(c.fb, s), t)[p] == c.fb[p]; }
      }
    }
  }

  /** How far apart two places are, in pixels. */
  function Gap(a: Place, b: Place): int { (a.y0 - b.y0) * WIDTH + (a.x0 - b.x0) }

  /** `b` is where `a` is, or in each coordinate so near the corner that no row or
      column of the sprite is cut off there. */
  predicate Uncut(a: Place, b: Place) {
    && a.n == b.n < 16 && a.x0 < WIDTH && a.y0 < HEIGHT
    && (b.x0 == a.x0 || b.x0 < 2) && (b.y0 == a.y0 || b.y0 < 2)
  }

  lemma NoGap(a: Place, b: Place)
    requires Uncut(a, b) && Gap(a, b) == 0
    ensures a == b
  {
  }

  /** Each pixel drawn at `a` has its counterpart at `b`. */
  lemma Counterpart(mem: seq<Byte>, i: nat, a: Place, b: Place, p: nat)
    requires Uncut(a, b) && Touched(mem, i, a, p)
    ensures p - Gap(a, b) >= 0 && Touched(mem, i, b, p - Gap(a, b))
  {
    hide Bit;
    var row, col := p / WIDTH - a.y0, p % WIDTH - a.x0;
    var q := (b.y0 + row) * WIDTH + (b.x0 + col);
    assert q == p - Gap(a, b);
    assert b.x0 + col < WIDTH && q / WIDTH == b.y0 + row && q % WIDTH == b.x0 + col;
  }

  /** A step of `d` leads from every pixel of `s` into `t`. */
  predicate Leads(s: set<nat>, t: set<nat>, d: int) {
    forall p | p in s :: p < PIXELS && p - d >= 0 && p - d in t
  }

  lemma LeadStep(s: set<nat>, t: set<nat>, d: int, p: nat)
    requires Leads(s, t, d) && p in s
    ensures p < PIXELS && p - d >= 0 && p - d in t
  {
  }

  /** No walk stays inside a set of pixels for ever. */
  lemma {:induction false} NoWalk(s: set<nat>, d: int, p: nat)
    requires d != 0 && Leads(s, s, d)
    ensures p !in s
    decreases if d > 0 then p else PIXELS - p
  {
    hide Leads;
    if p in s {
      LeadStep(s, s, d, p);
      NoWalk(s, d, p - d);
    }
  }

  lemma {:induction false} PixelsLead(mem: seq<Byte>, i: nat, a: Place, b: Place)
    requires Uncut(a, b)
    ensures Leads(Pixels(mem, i, a), Pixels(mem, i, b), Gap(a, b)) && (a != b ==> Gap(a, b) != 0)
  {
    hide Touched, Gap;
    forall p | p in Pixels(mem, i, a) ensures p - Gap(a, b) >= 0 && p - Gap(a, b) in Pixels(mem, i, b) {
      Counterpart(mem, i, a, b, p);
      CounterpartOnScreen(mem, i, b, p - Gap(a, b));
    }
    if Gap(a, b) == 0 { NoGap(a, b); }
  }

  lemma {:induction false} LeadsNowhere(s: set<nat>, d: int)
    requires Leads(s, {}, d)
    ensures s == {}
  {
    hide Leads;
    if s != {} {
      var p :| p in s;
      LeadStep(s, {}, d, p);
    }
  }

  /** A sprite shows the same pixels at two such places only if it shows none. */
  lemma {:induction false} SameOnlyInPlace(mem: seq<Byte>, i: nat, a: Place, b: Place)
    requires Uncut(a, b)
    ensures Pixels(mem, i, a) == Pixels(mem, i, b) <==> a == b || Pixels(mem, i, b) == {}
  {
    hide Pixels, Leads, Gap, Uncut;
    var s, t := Pixels(mem, i, a), Pixels(mem, i, b);
    PixelsLead(mem, i, a, b);
    if s == t && a != b {
      forall p: nat ensures p !in s { NoWalk(s, Gap(a, b), p); }
      assert s == {};
    }
    if t == {} { LeadsNowhere(s, Gap(a, b)); }
  }

  lemma CounterpartOnScreen(mem: seq<Byte>, i: nat, at: Place, p: nat)
    requires Touched(mem, i, at, p)
    ensures p in Pixels(mem, i, at)
  {
  }

  /** Where the second of two draws goes: a coordinate held in VF is now the flag. */
  function Again(c: Cpu, x: nat, y: nat, n: nat): Place
    requires c.Valid() && x < 16 && y < 16
  {
    var at := PlaceOf(c, x, y, n);
    var flag := if Pixels(c.mem, c.i, at) * Lit(c.fb) != {} then 1 else 0;
    Place(if x == VF then flag else at.x0, if y == VF then flag else at.y0, n)
  }

  /** Drawing twice restores the screen exactly when the flag leaves the sprite where
      it was, or the sprite has no pixel to show there. */
  lemma {:induction false} DrawTwiceIff(c: Cpu, x: nat, y: nat, n: nat)
    requires c.Valid() && x < 16 && y < 16 && n < 16
    ensures Draw(Draw(c, x, y, n), x, y, n).fb == c.fb
            <==> Again(c, x, y, n) == PlaceOf(c, x, y, n) || Pixels(c.mem, c.i, Again(c, x, y, n)) == {}
  {
    hide Touched, Pixels, Lit, Flip;
    SamePixels(c, x, y, n);
    assert PlaceOf(Draw(c, x, y, n), x, y, n) == Again(c, x, y, n);
    SameOnlyInPlace(c.mem, c.i, PlaceOf(c, x, y, n), Again(c, x, y, n));
  }

  function Dark(): (fb: seq<Pixel>)
    ensures |fb| == PIXELS
  {
    seq<Pixel>(PIXELS, i => 0)
  }

  /** Memory full of one-pixel rows, a dark screen, and 9 in VF. */
  function Striped(): (c: Cpu)
    ensures c.Valid()
  {
    Cpu(seq<Byte>(MEMORY, i => 128), seq<Byte>(16, i => 9), 0, Dark())
  }

  /** One pixel drawn at column VF of a dark screen: no collision, so VF drops from 9
      to 0 and the second draw lands elsewhere. */
  lemma FlagMovesSprite()
    ensures Draw(Draw(Striped(), VF, 0, 1), VF, 0, 1).fb != Striped().fb
  {
    hide Draw;
    var c := Striped();
    assert Lit(c.fb) == {};
    DrawTwiceIff(c, VF, 0, 1);
    CornerLit(c.mem, Again(c, VF, 0, 1));
  }

  lemma CornerLit(mem: seq<Byte>, at: Place)
    requires mem != [] && mem[0] == 128 && at.x0 == 0 && at.n == 1 && at.y0 < HEIGHT
    ensures at.y0 * WIDTH in Pixels(mem, 0, at)
  {
    TopBit();
  }

  lemma TopBit()
    ensures Bit(128, 7)
  {
    assert Bit(8, 3);
  }
}
