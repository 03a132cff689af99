/** The CHIP-8 processor as it runs: registers and memory updated in place, one
    opcode at a time. */
module Chip8 {
  import opened Opcodes
  import opened Painting
  import opened Sprite

  const ROM_BASE: nat := 0x200
  const FONT_BASE: nat := 0x50
  const STACK_DEPTH: nat := 16
  const RNG_SEED: Word32 := 0x1337_5EED

  /** The built-in hexadecimal digits, five rows each. */
  const FONT: seq<Byte> := [
    0xF0, 0x90, 0x90, 0x90, 0xF0,
    0x20, 0x60, 0x20, 0x20, 0x70,
    0xF0, 0x10, 0xF0, 0x80, 0xF0,
    0xF0, 0x10, 0xF0, 0x10, 0xF0,
    0x90, 0x90, 0xF0, 0x10, 0x10,
    0xF0, 0x80, 0xF0, 0x10, 0xF0,
    0xF0, 0x80, 0xF0, 0x90, 0xF0,
    0xF0, 0x10, 0x20, 0x40, 0x40,
    0xF0, 0x90, 0xF0, 0x90, 0xF0,
    0xF0, 0x90, 0xF0, 0x10, 0xF0,
    0xF0, 0x90, 0xF0, 0x90, 0x90,
    0xE0, 0x90, 0xE0, 0x90, 0xE0,
    0xF0, 0x80, 0x80, 0x80, 0xF0,
    0xE0, 0x90, 0x90, 0x90, 0xE0,
    0xF0, 0x80, 0xF0, 0x80, 0xF0,
    0xF0, 0x80, 0xF0, 0x80, 0x80]

  datatype Outcome = Fine | Invalid

  function FontByte(k: nat): Byte {
    if FONT_BASE <= k < FONT_BASE + |FONT| then FONT[k - FONT_BASE] else 0
  }

  class Machine {
    const mem: array<Byte>
    const v: array<Byte>
    const fb: array<Pixel>
    const stack: array<Word16>
    var i: Word16
    var pc: Word16
    var sp: nat
    var delay: Byte
    var sound: Byte
    var dirty: bool
    var keys: Word16
    var waiting: bool
    var waitingReg: nat
    var rng: Word32

    ghost predicate Valid()
      reads this
    {
      && mem.Length == MEMORY && v.Length == 16 && fb.Length == PIXELS && stack.Length == STACK_DEPTH
      && mem != v && sp <= STACK_DEPTH && waitingReg < 16
    }

    ghost function Now(): Cpu
      reads this, mem, v, fb
    {
      Cpu(mem[..], v[..], i, fb[..])
    }

    constructor ()
      ensures Valid() && fresh(mem) && fresh(v) && fresh(fb) && fresh(stack)
      ensures pc == ROM_BASE && sp == 0 && fb[..] == Dark()
      ensures forall k | 0 <= k < MEMORY :: mem[k] == FontByte(k)
    {
      mem := new Byte[MEMORY](FontByte);
      v := new Byte[16](_ => 0);
      fb := new Pixel[PIXELS](_ => 0);
      stack := new Word16[STACK_DEPTH](_ => 0);
      i, pc, sp, delay, sound := 0, ROM_BASE, 0, 0, 0;
      dirty, keys, waiting, waitingReg, rng := false, 0, false, 0, RNG_SEED;
    }

    /** DXYN: fails, touching nothing, when the sprite leaves memory. */
    method ExecDraw(x: nat, y: nat, n: nat) returns (r: Outcome)
      requires Valid() && x < 16 && y < 16 && n < 16
      modifies fb, v, `dirty
      ensures Valid()
      ensures r == Invalid <==> n > 0 && i + n > MEMORY
      ensures r == Invalid ==> Now() == old(Now()) && dirty == old(dirty)
      ensures r == Fine ==> Now() == Draw(old(Now()), x, y, n) && dirty
    {
      hide Pixels, Flip, Lit, Draw;
      if n > 0 && i + n > MEMORY {
        return Invalid;
      }
      ghost var c := Now();
      ghost var at := PlaceOf(c, x, y, n);
      var x0, y0 := v[x] % WIDTH, v[y] % HEIGHT;
      var hit := 0;
      var row := 0;
      while row < n && y0 + row < HEIGHT
        invariant row <= n && v[..] == c.v && dirty == old(dirty)
        invariant Painted(c.fb, fb[..], c.mem, i, at, row, 0) && Met(hit, c.fb, c.mem, i, at, row, 0)
      {
        hit := DrawRow(x0, y0, row, hit, c.fb, at);
        row := row + 1;
      }
      v[VF] := if hit > 0 then 1 else 0;
      dirty := true;
      PaintedAll(c.fb, fb[..], c.mem, i, at, row);
      MetAll(hit, c.fb, c.mem, i, at, row);
      DrawIs(c, x, y, n);
      r := Fine;
    }

    /** One row of the sprite. */
    method DrawRow(x0: nat, y0: nat, row: nat, hit0: Pixel, ghost f0: seq<Pixel>, ghost at: Place) returns (hit: Pixel)
      requires Valid() && at == Place(x0, y0, at.n) && |f0| == PIXELS
      requires row < at.n && y0 + row < HEIGHT && x0 < WIDTH && i + row < MEMORY
      requires Painted(f0, fb[..], mem[..], i, at, row, 0) && Met(hit0, f0, mem[..], i, at, row, 0)
      modifies fb
      ensures Painted(f0, fb[..], mem[..], i, at, row + 1, 0) && Met(hit, f0, mem[..], i, at, row + 1, 0)
    {
      hide Touched;
      ghost var m := mem[..];
      var py := y0 + row;
      var bits := mem[i + row];
      var col := 0;
      hit := hit0;
      while col < 8 && x0 + col < WIDTH
        invariant col <= 8 && fb.Length == PIXELS && mem[..] == m
        invariant Painted(f0, fb[..], m, i, at, row, col) && Met(hit, f0, m, i, at, row, col)
      {
        var p := py * WIDTH + (x0 + col);
        TouchedHere(m, i, at, row, col);
        PaintNext(f0, fb[..], m, i, at, row, col);
        MetNext(hit, f0, m, i, at, row, col);
        if Bit(bits, 7 - col) {
          hit := if fb[p] == 1 then 1 else hit;
          fb[p] := 1 - fb[p];
        }
        col := col + 1;
      }
      RowDone(f0, fb[..], m, i, at, row, col);
      MetDone(hit, f0, m, i, at, row, col);
    }

    method SkipNext(cond: bool) returns (r: Outcome)
      modifies `pc
    {
      if !cond {
        return Fine;
      }
      var target := (pc + 2) % 0x1_0000;
      if !FetchOk(target) {
        return Invalid;
      }
      pc := target;
      r := Fine;
    }

    method ExecSystem(op: Word16) returns (r: Outcome)
      requires Valid()
      modifies fb, `dirty, `sp, `pc
      ensures Valid() && fb[..] == (if op == 0x00E0 then Dark() else old(fb[..]))
    {
      if op == 0x00E0 {
        forall p | 0 <= p < fb.Length { fb[p] := 0; }
        dirty := true;
        assert fb[..] == Dark();
        return Fine;
      }
      if op == 0x00EE {
        if sp == 0 {
          return Invalid;
        }
        sp := sp - 1;
        pc := stack[sp];
        return Fine;
      }
      r := Invalid;
    }

    /** The bitwise operations act bit by bit; the others leave the exact result in
        `v[x]` and VF, where VF keeps the flag even if it is the target; `value` is what went
        to `v[x]` before that. */
    method ExecAlu(x: nat, y: nat, n: nat) returns (r: Outcome, ghost value: Byte)
      requires Valid() && x < 16 && y < 16
      modifies v
      ensures r == Fine <==> n < 8 || n == 14
      ensures r == Invalid ==> v[..] == old(v[..])
      ensures n == 0 ==> v[..] == old(v[..])[x := old(v[y])]
      ensures 1 <= n <= 3 ==>
                && v[..] == old(v[..])[x := v[x]]
                && forall k | 0 <= k < 8 ::
                     var p, q := Bit(old(v[x]), k), Bit(old(v[y]), k);
                     Bit(v[x], k) <==> if n == 1 then p || q else if n == 2 then p && q else p != q
      ensures 4 <= n <= 7 || n == 14 ==>
                var a, b, flag := Full(old(v[x])), Full(old(v[y])), Full(v[VF]);
                && v[..] == old(v[..])[x := value][VF := v[VF]] && flag < 2
                && (n == 4 ==> a + b == value + 256 * flag)
                && (n == 5 ==> a - b == value - 256 * (1 - flag))
                && (n == 6 ==> a == 2 * value + flag)
                && (n == 7 ==> b - a == value - 256 * (1 - flag))
                && (n == 14 ==> 2 * a == value + 256 * flag)
    {
      hide Bitwise, Bit, Exact;
      var a, b := Full(v[x]), Full(v[y]);
      var res: Byte, flag: Byte;
      value := 0;
      ExactSteps(a, b);
      match n {
        case 0 => v[x] := b; return Fine, value;
        case 1 => v[x] := ByteOp(1, a, b); return Fine, value;
        case 2 => v[x] := ByteOp(2, a, b); return Fine, value;
        case 3 => v[x] := ByteOp(3, a, b); return Fine, value;
        case 4 => res, flag := (a + b) % 256, if a + b > 255 then 1 else 0;
        case 5 => res, flag := (a - b) % 256, if a >= b then 1 else 0;
        case 6 => res, flag := a / 2, a % 2;
        case 7 => res, flag := (b - a) % 256, if b >= a then 1 else 0;
        case 14 => res, flag := a * 2 % 256, a / 128;
        case _ => return Invalid, value;
      }
      ExactMeans(n, v[x], v[y], res, flag);
      v[x] := res;
      v[VF] := flag;
      r, value := Fine, res;
    }

    predicate Held(key: nat)
      reads this
    {
      Bit(keys, key)
    }

    method ExecKey(x: nat, kk: Byte) returns (r: Outcome)
      requires Valid() && x < 16
      modifies `pc
    {
      var held := Held(v[x] % 16);
      if kk == 0x9E {
        r := SkipNext(held);
        return;
      }
      if kk == 0xA1 {
        r := SkipNext(!held);
        return;
      }
      r := Invalid;
    }

    method ExecMisc(x: nat, kk: Byte) returns (r: Outcome)
      requires Valid() && x < 16
      modifies this, mem, v
      ensures Valid()
    {
      r := Fine;
      match kk {
        case 0x07 => v[x] := delay;
        case 0x0A => waiting, waitingReg := true, x;
        case 0x15 => delay := v[x];
        case 0x18 => sound := v[x];
        case 0x1E => i := (i + v[x]) % 0x1_0000;
        case 0x29 => i := FONT_BASE + 5 * (v[x] % 16);
        case 0x33 =>
          if !SpanOk(i, 3) {
            return Invalid;
          }
          mem[i], mem[i + 1], mem[i + 2] := v[x] / 100, v[x] / 10 % 10, v[x] % 10;
        case 0x55 =>
          if !SpanOk(i, x + 1) {
            return Invalid;
          }
          forall k | 0 <= k <= x { mem[i + k] := v[k]; }
        case 0x65 =>
          if !SpanOk(i, x + 1) {
            return Invalid;
          }
          forall k | 0 <= k <= x { v[k] := mem[i + k]; }
        case _ => return Invalid;
      }
    }

    method Exec(op: Word16) returns (r: Outcome)
      requires Valid()
      modifies this, mem, v, fb, stack
      ensures Valid() && fb[..] == ScreenAfter(old(Now()), op)
    {
      hide Draw, Bitwise, NextRand;
      var x, y, n, kk, nnn := XOf(op), YOf(op), NOf(op), KkOf(op), NnnOf(op);
      r := Fine;
      match op / 4096 {
        case 0 => r := ExecSystem(op);
        case 1 => pc := nnn;
        case 2 =>
          if sp >= STACK_DEPTH {
            return Invalid;
          }
          stack[sp] := pc;
          sp, pc := sp + 1, nnn;
        case 3 => r := SkipNext(v[x] == kk);
        case 4 => r := SkipNext(v[x] != kk);
        case 5 => if n == 0 { r := SkipNext(v[x] == v[y]); } else { r := Invalid; }
        case 6 => v[x] := kk;
        case 7 => v[x] := (Full(v[x]) + kk) % 256;
        case 8 => ghost var value; r, value := ExecAlu(x, y, n);
        case 9 => if n == 0 { r := SkipNext(v[x] != v[y]); } else { r := Invalid; }
        case 10 => i := nnn;
        case 11 => pc := nnn + v[0];
        case 12 =>
          rng := NextRand(rng);
          v[x] := ByteOp(2, rng % 256, kk);
        case 13 => r := ExecDraw(x, y, n);
        case 14 => r := ExecKey(x, kk);
        case _ => r := ExecMisc(x, kk);
      }
    }

    /** One fetch, decode and execute; a pending key wait makes it a no-op. */
    method Step() returns (r: Outcome)
      requires Valid()
      modifies this, mem, v, fb, stack
      ensures Valid()
      ensures fb[..] == if old(waiting) || old(pc) + 1 >= 4096 then old(fb[..])
                        else ScreenAfter(old(Now()), OpAt(old(mem[..]), old(pc)))
    {
      hide ScreenAfter;
      if waiting {
        return Fine;
      }
      if !FetchOk(pc) {
        return Invalid;
      }
      var op: Word16 := Full(mem[pc]) * 256 + mem[pc + 1];
      ghost var c := Now();
      pc := (pc + 2) % 0x1_0000;
      assert Now() == c;
      r := Exec(op);
    }
  }
}
