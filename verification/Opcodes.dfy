/** Decoding a CHIP-8 opcode, and the laws of its arithmetic. */
module Opcodes {
  import opened Sprite

  type Word16 = n: nat | n < 0x1_0000
  type Word32 = n: nat | n < 0x1_0000_0000

  // ---- Fields ---------------------------------------------------------------------------

  function XOf(op: Word16): (x: nat)
    ensures x < 16
  {
    op / 256 % 16
  }

  function YOf(op: Word16): (y: nat)
    ensures y < 16
  {
    op / 16 % 16
  }

  function NOf(op: Word16): (n: nat)
    ensures n < 16
  {
    op % 16
  }

  function KkOf(op: Word16): Byte { op % 256 }

  function NnnOf(op: Word16): Word16 { op % 4096 }

  /** Both bytes of the opcode lie inside memory. */
  predicate FetchOk(pc: nat) { pc + 1 < MEMORY }

  predicate SpanOk(base: nat, len: nat) { base + len <= MEMORY }

  /** A byte as a plain number. */
  function Full(b: Byte): int { b }

  function OpAt(mem: seq<Byte>, pc: nat): Word16
    requires FetchOk(pc) && |mem| == MEMORY
  {
    Full(mem[pc]) * 256 + mem[pc + 1]
  }

  /** What one opcode does to the screen: sprites and the clear, nothing else. */
  function ScreenAfter(c: Cpu, op: Word16): (fb: seq<Pixel>)
    requires c.Valid()
    ensures |fb| == PIXELS
  {
    if op == 0x00E0 then Dark()
    else if op / 4096 == 0xD && (NOf(op) == 0 || SpanOk(c.i, NOf(op))) then Draw(c, XOf(op), YOf(op), NOf(op)).fb
    else c.fb
  }

  lemma FourDigits(a: nat, b: nat, c: nat, d: nat)
    requires a < 16 && b < 16 && c < 16 && d < 16
    ensures var op := 4096 * a + 256 * b + 16 * c + d;
            && op / 4096 == a && op / 256 % 16 == b && op / 16 % 16 == c && op % 16 == d
            && op % 256 == 16 * c + d && op % 4096 == 256 * b + 16 * c + d
  {
    var op := 4096 * a + 256 * b + 16 * c + d;
    assert op / 256 == 16 * a + b && op / 16 == 256 * a + 16 * b + c;
  }

  /** The two bytes of an opcode hold its fields from left to right. */
  lemma FieldsAt(mem: seq<Byte>, pc: nat)
    requires FetchOk(pc) && |mem| == MEMORY
    ensures var op, hi, lo := OpAt(mem, pc), Full(mem[pc]), Full(mem[pc + 1]);
            && op / 4096 == hi / 16 && XOf(op) == hi % 16 && YOf(op) == lo / 16 && NOf(op) == lo % 16
            && KkOf(op) == lo && NnnOf(op) == 256 * (hi % 16) + lo
  {
    var hi, lo := Full(mem[pc]), Full(mem[pc + 1]);
    FourDigits(hi / 16, hi % 16, lo / 16, lo % 16);
  }

  /** `Dxyn` draws when the sprite lies inside memory, `00E0` clears, and no other
      opcode touches the screen. */
  lemma ScreenIs(c: Cpu, pc: nat)
    requires c.Valid() && FetchOk(pc)
    ensures var hi, lo := c.mem[pc], c.mem[pc + 1];
            var fb := ScreenAfter(c, OpAt(c.mem, pc));
            && (hi / 16 == 13 && (lo % 16 == 0 || c.i + lo % 16 <= 4096) ==>
                  fb == Draw(c, hi % 16, lo / 16, lo % 16).fb)
            && (hi == 0 && lo == 0xE0 ==> forall p | 0 <= p < 2048 :: fb[p] == 0)
            && (hi / 16 == 13 && lo % 16 > 0 && c.i + lo % 16 > 4096 ==> fb == c.fb)
            && (hi / 16 != 13 && !(hi == 0 && lo == 0xE0) ==> fb == c.fb)
  {
    hide Draw;
    FieldsAt(c.mem, pc);
  }

  // ---- Bits -----------------------------------------------------------------------------

  /** What `8xy1`, `8xy2` and `8xy3` do to one bit of each operand. */
  predicate BitOf(n: nat, p: bool, q: bool) {
    if n == 1 then p || q else if n == 2 then p && q else p != q
  }

  function Power(w: nat): (r: nat)
    ensures r > 0
  {
    if w == 0 then 1 else 2 * Power(w - 1)
  }

  /** The same on the lowest `w` bits of two numbers. */
  function Bitwise(n: nat, a: nat, b: nat, w: nat): (r: nat)
    ensures r < Power(w)
  {
    if w == 0 then 0
    else (if BitOf(n, a % 2 == 1, b % 2 == 1) then 1 else 0) + 2 * Bitwise(n, a / 2, b / 2, w - 1)
  }

  lemma {:induction false} BitwiseAt(n: nat, a: nat, b: nat, w: nat, k: nat)
    requires k < w
    ensures Bit(Bitwise(n, a, b, w), k) <==> BitOf(n, Bit(a, k), Bit(b, k))
  {
    var r := Bitwise(n, a / 2, b / 2, w - 1);
    assert Bitwise(n, a, b, w) / 2 == r;
    if k > 0 { BitwiseAt(n, a / 2, b / 2, w - 1, k - 1); }
  }

  /** Two bytes, bit by bit. */
  function ByteOp(n: nat, a: Byte, b: Byte): (r: Byte)
    ensures forall k | 0 <= k < 8 :: Bit(r, k) <==> BitOf(n, Bit(a, k), Bit(b, k))
  {
    assert Power(8) == 256;
    assert forall k | 0 <= k < 8 :: Bit(Bitwise(n, a, b, 8), k) <==> BitOf(n, Bit(a, k), Bit(b, k)) by {
      forall k: nat | k < 8 ensures Bit(Bitwise(n, a, b, 8), k) <==> BitOf(n, Bit(a, k), Bit(b, k)) {
        BitwiseAt(n, a, b, 8, k);
      }
    }
    Bitwise(n, a, b, 8)
  }

  // ---- Sums, differences and shifts ------------------------------------------------------

  /** `8xyN` with a flag: value and flag together are the exact result. The flag is
      the carry, the missing borrow, or the bit a shift drops. */
  predicate Exact(n: nat, a: nat, b: nat, res: Byte, flag: Byte) {
    && flag < 2
    && (n == 4 ==> a + b == res + 256 * flag)
    && (n == 5 ==> a - b == res - 256 * (1 - flag))
    && (n == 6 ==> a == 2 * res + flag)
    && (n == 7 ==> b - a == res - 256 * (1 - flag))
    && (n == 14 ==> 2 * a == res + 256 * flag)
  }

  lemma ExactMeans(n: nat, a: nat, b: nat, res: Byte, flag: Byte)
    requires Exact(n, a, b, res, flag)
    ensures flag < 2
    ensures n == 4 ==> a + b == res + 256 * flag
    ensures n == 5 ==> a - b == res - 256 * (1 - flag)
    ensures n == 6 ==> a == 2 * res + flag
    ensures n == 7 ==> b - a == res - 256 * (1 - flag)
    ensures n == 14 ==> 2 * a == res + 256 * flag
  {
  }

  predicate Flagged(n: nat) { 4 <= n <= 7 || n == 14 }

  /** The byte arithmetic of each opcode meets the law. */
  lemma ExactSteps(a: Byte, b: Byte)
    ensures Exact(4, a, b, (Full(a) + b) % 256, if Full(a) + b > 255 then 1 else 0)
    ensures Exact(5, a, b, (Full(a) - b) % 256, if a >= b then 1 else 0)
    ensures Exact(6, a, b, a / 2, a % 2)
    ensures Exact(7, a, b, (Full(b) - a) % 256, if b >= a then 1 else 0)
    ensures Exact(14, a, b, Full(a) * 2 % 256, a / 128)
  {
    hide Exact;
    SumExact(a, b);
    DifferenceExact(a, b);
    ShiftExact(a, b);
  }

  lemma SumExact(a: Byte, b: Byte)
    ensures Exact(4, a, b, (Full(a) + b) % 256, if Full(a) + b > 255 then 1 else 0)
  {
    Wraps(Full(a) + b);
  }

  lemma DifferenceExact(a: Byte, b: Byte)
    ensures Exact(5, a, b, (Full(a) - b) % 256, if a >= b then 1 else 0)
    ensures Exact(7, a, b, (Full(b) - a) % 256, if b >= a then 1 else 0)
  {
    Wraps(Full(a) - b);
    Wraps(Full(b) - a);
  }

  lemma ShiftExact(a: Byte, b: Byte)
    ensures Exact(6, a, b, a / 2, a % 2)
    ensures Exact(14, a, b, Full(a) * 2 % 256, a / 128)
  {
    Wraps(Full(a) * 2);
  }

  lemma Wraps(z: int)
    requires -256 < z < 512
    ensures z % 256 == if z < 0 then z + 256 else if z < 256 then z else z - 256
  {
  }

  /** The law leaves no choice of value or flag. */
  lemma ExactOnce(n: nat, a: Byte, b: Byte, res: Byte, flag: Byte, res': Byte, flag': Byte)
    requires Flagged(n) && Exact(n, a, b, res, flag) && Exact(n, a, b, res', flag')
    ensures res == res' && flag == flag'
  {
  }

  /** One xorshift step. */
  function NextRand(x: Word32): Word32 {
    var a := (x as bv32) ^ ((x as bv32) << 13);
    var b := a ^ (a >> 17);
    (b ^ (b << 5)) as nat
  }
}
