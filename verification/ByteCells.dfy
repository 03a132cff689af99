/** Memory cells seen as bytes, least significant byte first. */
module ByteCells {
  import opened Memory

  type Byte = n: nat | n < 256

  function ByteOf(w: nat, j: nat): Byte
    decreases j
  {
    if j == 0 then w % 256 else ByteOf(w / 256, j - 1)
  }

  function WithByte(w: nat, j: nat, b: Byte): nat
    decreases j
  {
    if j == 0 then w - w % 256 + b else 256 * WithByte(w / 256, j - 1, b) + w % 256
  }

  lemma {:induction false} WithByteAt(w: nat, j: nat, b: Byte, k: nat)
    ensures ByteOf(WithByte(w, j, b), k) == if k == j then b else ByteOf(w, k)
    decreases j
  {
    var v := WithByte(w, j, b);
    if j == 0 {
      assert v % 256 == b && v / 256 == w / 256;
    } else {
      assert v % 256 == w % 256 && v / 256 == WithByte(w / 256, j - 1, b);
      if k > 0 { WithByteAt(w / 256, j - 1, b, k - 1); }
    }
  }

  function Limit(n: nat): nat { if n == 0 then 1 else 256 * Limit(n - 1) }

  lemma Shrinks(w: nat, l: nat)
    requires w < 256 * l
    ensures w / 256 < l
  {
  }

  lemma {:induction false} WithByteFits(w: nat, j: nat, b: Byte, n: nat)
    requires w < Limit(n) && j < n
    ensures WithByte(w, j, b) < Limit(n)
    decreases j
  {
    var l := Limit(n - 1);
    assert w / 256 < l by { Shrinks(w, l); }
    if j > 0 { WithByteFits(w / 256, j - 1, b, n - 1); }
  }

  lemma WordLimit()
    ensures Limit(8) == WORD_LIMIT
  {
    assert Limit(4) == 0x1_0000_0000;
  }

  function CellByte(c: Cell, j: nat): Byte
    requires j < CELL_BYTES
  {
    if j < 8 then ByteOf(c.lo, j) else ByteOf(c.hi, j - 8)
  }

  function PutByte(c: Cell, j: nat, b: Byte): Cell
    requires j < CELL_BYTES
  {
    WordLimit();
    if j < 8 then WithByteFits(c.lo, j, b, 8); Cell(WithByte(c.lo, j, b), c.hi)
    else WithByteFits(c.hi, j - 8, b, 8); Cell(c.lo, WithByte(c.hi, j - 8, b))
  }

  lemma PutByteAt(c: Cell, j: nat, b: Byte, k: nat)
    requires j < CELL_BYTES && k < CELL_BYTES
    ensures CellByte(PutByte(c, j, b), k) == if k == j then b else CellByte(c, k)
  {
    hide ByteOf, WithByte;
    if j < 8 {
      if k < 8 { WithByteAt(c.lo, j, b, k); }
    } else if k >= 8 {
      WithByteAt(c.hi, j - 8, b, k - 8);
    }
  }

  // ---- Memory by byte address ------------------------------------------------------

  /** The byte at address `a`, counted from the arena's start. */
  function ReadByte(mem: seq<Cell>, a: nat): Byte
    requires a < CELL_BYTES * |mem|
  {
    CellByte(mem[a / CELL_BYTES], a % CELL_BYTES)
  }

  function WriteByte(mem: seq<Cell>, a: nat, b: Byte): (mem': seq<Cell>)
    requires a < CELL_BYTES * |mem|
    ensures |mem'| == |mem|
  {
    mem[a / CELL_BYTES := PutByte(mem[a / CELL_BYTES], a % CELL_BYTES, b)]
  }

  lemma WriteThenRead(mem: seq<Cell>, a: nat, b: Byte, x: nat)
    requires a < CELL_BYTES * |mem| && x < CELL_BYTES * |mem|
    ensures ReadByte(WriteByte(mem, a, b), x) == if x == a then b else ReadByte(mem, x)
  {
    hide CellByte, PutByte;
    if x / CELL_BYTES == a / CELL_BYTES {
      PutByteAt(mem[a / CELL_BYTES], a % CELL_BYTES, b, x % CELL_BYTES);
    }
  }

  /** The `n` bytes from address `a` on. */
  function Slice(mem: seq<Cell>, a: nat, n: nat): (s: seq<Byte>)
    requires a + n <= CELL_BYTES * |mem|
    ensures |s| == n
  {
    seq<Byte>(n, i requires 0 <= i < n => ReadByte(mem, a + i))
  }

  /** The bytes stored one after the other, as memcpy and memset do. */
  function Poke(mem: seq<Cell>, a: nat, data: seq<Byte>): (mem': seq<Cell>)
    requires a + |data| <= CELL_BYTES * |mem|
    ensures |mem'| == |mem|
    decreases |data|
  {
    if data == [] then mem
    else WriteByte(Poke(mem, a, data[..|data| - 1]), a + |data| - 1, data[|data| - 1])
  }

  lemma {:induction false} PokeThenRead(mem: seq<Cell>, a: nat, data: seq<Byte>, x: nat)
    requires a + |data| <= CELL_BYTES * |mem| && x < CELL_BYTES * |mem|
    ensures ReadByte(Poke(mem, a, data), x) == if a <= x < a + |data| then data[x - a] else ReadByte(mem, x)
    decreases |data|
  {
    hide ReadByte, WriteByte;
    if data != [] {
      var n := |data| - 1;
      PokeThenRead(mem, a, data[..n], x);
      WriteThenRead(Poke(mem, a, data[..n]), a + n, data[n], x);
    }
  }

  lemma {:induction false} PokeCell(mem: seq<Cell>, a: nat, data: seq<Byte>, c: nat)
    requires a + |data| <= CELL_BYTES * |mem| && c < |mem|
    requires CELL_BYTES * (c + 1) <= a || a + |data| <= CELL_BYTES * c
    ensures Poke(mem, a, data)[c] == mem[c]
    decreases |data|
  {
    hide PutByte;
    if data != [] { PokeCell(mem, a, data[..|data| - 1], c); }
  }

  lemma {:induction false} PokeNext(mem: seq<Cell>, a: nat, data: seq<Byte>, i: nat)
    requires a + |data| <= CELL_BYTES * |mem| && i < |data|
    ensures Poke(mem, a, data[..i + 1]) == WriteByte(Poke(mem, a, data[..i]), a + i, data[i])
  {
    assert data[..i + 1][..i] == data[..i];
  }

  function WordBytes(w: nat): (s: seq<Byte>)
    ensures |s| == 8
  {
    seq<Byte>(8, j requires 0 <= j < 8 => ByteOf(w, j))
  }
}
