/** How far the two loops of a sprite draw have got. */
module Painting {
  import opened Sprite

  /** The loops have passed pixel `p` once they are at `row`, `col`. */
  predicate Passed(at: Place, p: nat, row: nat, col: nat) {
    var dy, dx := p / WIDTH - at.y0, p % WIDTH - at.x0;
    dy < row || (dy == row && dx < col)
  }

  ghost predicate Painted(f0: seq<Pixel>, f: seq<Pixel>, mem: seq<Byte>, i: nat, at: Place, row: nat, col: nat) {
    && |f| == |f0| == PIXELS
    && forall p: nat | p < PIXELS ::
         f[p] == if Touched(mem, i, at, p) && Passed(at, p, row, col) then 1 - f0[p] else f0[p]
  }

  ghost predicate Met(hit: Pixel, f0: seq<Pixel>, mem: seq<Byte>, i: nat, at: Place, row: nat, col: nat)
    requires |f0| == PIXELS
  {
    hit == 1 <==> exists p: nat :: p < PIXELS && Touched(mem, i, at, p) && Passed(at, p, row, col) && f0[p] == 1
  }

  lemma TouchedHere(mem: seq<Byte>, i: nat, at: Place, row: nat, col: nat)
    requires row < at.n && at.y0 + row < HEIGHT && at.x0 + col < WIDTH && col < 8 && i + row < |mem|
    ensures var p := (at.y0 + row) * WIDTH + (at.x0 + col);
            && p < PIXELS && p / WIDTH == at.y0 + row && p % WIDTH == at.x0 + col
            && (Touched(mem, i, at, p) <==> Bit(mem[i + row], 7 - col)) && !Passed(at, p, row, col)
  {
    hide Bit;
  }

  /** The only pixel between `col` and `col + 1` of a row. */
  lemma OnlyOne(at: Place, p: nat, row: nat, col: nat)
    ensures Passed(at, p, row, col + 1) <==>
              Passed(at, p, row, col) || (p == (at.y0 + row) * WIDTH + (at.x0 + col) && at.x0 + col < WIDTH)
  {
  }

  lemma PaintNext(f0: seq<Pixel>, f: seq<Pixel>, mem: seq<Byte>, i: nat, at: Place, row: nat, col: nat)
    requires Painted(f0, f, mem, i, at, row, col)
    requires at.y0 + row < HEIGHT && at.x0 + col < WIDTH && row < at.n && col < 8 && i + row < |mem|
    ensures var p := (at.y0 + row) * WIDTH + (at.x0 + col);
            && p < PIXELS && f[p] == f0[p]
            && Painted(f0, if Touched(mem, i, at, p) then f[p := 1 - f[p]] else f, mem, i, at, row, col + 1)
  {
    hide Touched, Passed;
    var p := (at.y0 + row) * WIDTH + (at.x0 + col);
    TouchedHere(mem, i, at, row, col);
    forall q: nat | q < PIXELS ensures Passed(at, q, row, col + 1) <==> Passed(at, q, row, col) || q == p {
      OnlyOne(at, q, row, col);
    }
  }

  lemma MetNext(hit: Pixel, f0: seq<Pixel>, mem: seq<Byte>, i: nat, at: Place, row: nat, col: nat)
    requires |f0| == PIXELS && Met(hit, f0, mem, i, at, row, col)
    requires at.y0 + row < HEIGHT && at.x0 + col < WIDTH && row < at.n && col < 8 && i + row < |mem|
    ensures var p := (at.y0 + row) * WIDTH + (at.x0 + col);
            && p < PIXELS
            && Met(if Touched(mem, i, at, p) && f0[p] == 1 then 1 else hit, f0, mem, i, at, row, col + 1)
  {
    hide Touched, Passed;
    var p := (at.y0 + row) * WIDTH + (at.x0 + col);
    TouchedHere(mem, i, at, row, col);
    forall q: nat | q < PIXELS ensures Passed(at, q, row, col + 1) <==> Passed(at, q, row, col) || q == p {
      OnlyOne(at, q, row, col);
    }
  }

  /** Past the right edge, or past the eighth bit, the rest of a row is not touched. */
  lemma RowOver(mem: seq<Byte>, i: nat, at: Place, row: nat, col: nat, p: nat)
    requires col >= 8 || at.x0 + col >= WIDTH
    requires Touched(mem, i, at, p)
    ensures Passed(at, p, row + 1, 0) <==> Passed(at, p, row, col)
  {
    hide Bit;
  }

  lemma RowDone(f0: seq<Pixel>, f: seq<Pixel>, mem: seq<Byte>, i: nat, at: Place, row: nat, col: nat)
    requires (col >= 8 || at.x0 + col >= WIDTH) && Painted(f0, f, mem, i, at, row, col)
    ensures Painted(f0, f, mem, i, at, row + 1, 0)
  {
    hide Touched, Passed;
    forall p: nat | Touched(mem, i, at, p) ensures Passed(at, p, row + 1, 0) <==> Passed(at, p, row, col) {
      RowOver(mem, i, at, row, col, p);
    }
  }

  lemma MetDone(hit: Pixel, f0: seq<Pixel>, mem: seq<Byte>, i: nat, at: Place, row: nat, col: nat)
    requires (col >= 8 || at.x0 + col >= WIDTH) && |f0| == PIXELS && Met(hit, f0, mem, i, at, row, col)
    ensures Met(hit, f0, mem, i, at, row + 1, 0)
  {
    hide Touched, Passed;
    forall p: nat | Touched(mem, i, at, p) ensures Passed(at, p, row + 1, 0) <==> Passed(at, p, row, col) {
      RowOver(mem, i, at, row, col, p);
    }
  }

  lemma AllPassed(mem: seq<Byte>, i: nat, at: Place, row: nat, p: nat)
    requires row >= at.n || at.y0 + row >= HEIGHT
    requires Touched(mem, i, at, p)
    ensures Passed(at, p, row, 0)
  {
    hide Bit;
  }

  lemma PaintedAll(f0: seq<Pixel>, f: seq<Pixel>, mem: seq<Byte>, i: nat, at: Place, row: nat)
    requires (row >= at.n || at.y0 + row >= HEIGHT) && Painted(f0, f, mem, i, at, row, 0)
    ensures f == Flip(f0, Pixels(mem, i, at))
  {
    hide Touched, Passed;
    forall p: nat | Touched(mem, i, at, p) ensures Passed(at, p, row, 0) { AllPassed(mem, i, at, row, p); }
  }

  lemma MetAll(hit: Pixel, f0: seq<Pixel>, mem: seq<Byte>, i: nat, at: Place, row: nat)
    requires (row >= at.n || at.y0 + row >= HEIGHT) && |f0| == PIXELS && Met(hit, f0, mem, i, at, row, 0)
    ensures hit == 1 <==> Pixels(mem, i, at) * Lit(f0) != {}
  {
    hide Touched, Passed;
    forall p: nat | Touched(mem, i, at, p) ensures Passed(at, p, row, 0) { AllPassed(mem, i, at, row, p); }
    var s := Pixels(mem, i, at) * Lit(f0);
    if hit == 1 {
      var p: nat :| p < PIXELS && Touched(mem, i, at, p) && Passed(at, p, row, 0) && f0[p] == 1;
      assert p in s;
    }
    if s != {} {
      var p :| p in s;
      assert Touched(mem, i, at, p) && Passed(at, p, row, 0) && f0[p] == 1;
    }
  }

  lemma DrawIs(c: Cpu, x: nat, y: nat, n: nat)
    requires c.Valid() && x < 16 && y < 16
    ensures var s := Pixels(c.mem, c.i, PlaceOf(c, x, y, n));
            Draw(c, x, y, n) == Cpu(c.mem, c.v[VF := if s * Lit(c.fb) != {} then 1 else 0], c.i, Flip(c.fb, s))
  {
  }
}
