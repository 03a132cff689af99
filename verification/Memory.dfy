/** The raw memory both allocators keep their own metadata in: an array of
    16-byte, 16-aligned cells, each seen as two 64-bit words. Nothing tells a
    metadata cell from a client's cell except the address. */
module Memory {

  const WORD_LIMIT: nat := 0x1_0000_0000_0000_0000

  type Word = n: nat | n < WORD_LIMIT

  datatype Cell = Cell(lo: Word, hi: Word)

  const CELL_BYTES: nat := 16
}
