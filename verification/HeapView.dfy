/** The heap as its callers see it: a map from pointers to the bytes behind them,
    and what the guards around each payload look like in memory. */
module HeapView {
  import opened Memory
  import opened ByteCells
  import opened Strategies

  const GUARD_PREFIX: nat := 16
  const GUARD_TRAILER: nat := 8
  const GUARD_TOTAL: nat := GUARD_PREFIX + GUARD_TRAILER

  const CANARY_HEAD: Word := 0x4e55_4c4c_5348_4421
  const CANARY_TAIL: Word := 0x2144_4853_484f_4c45
  const CANARY_FREED: Word := 0x4652_4545_444f_4d21

  /** One arena: its base address, its live blocks and its memory. */
  datatype Side = Side(base: nat, raw: Raw, mem: seq<Cell>)

  /** Where the payload of the block at cell `o` starts, in bytes from the base: a
      header cell and a guard cell lie before it. */
  function Home(o: nat): nat { CELL_BYTES * (o + 2) }

  /** The requested size in the guard fits the block, and both canaries are in place. */
  predicate Guarded(mem: seq<Cell>, o: nat, e: nat) {
    && o + 1 < e <= |mem|
    && mem[o + 1].hi == CANARY_HEAD && mem[o + 1].lo >= 1
    && Home(o) + mem[o + 1].lo + GUARD_TRAILER <= CELL_BYTES * e
    && Slice(mem, Home(o) + mem[o + 1].lo, GUARD_TRAILER) == WordBytes(CANARY_TAIL)
  }

  /** Both canaries are where the recorded size says. */
  predicate Canaries(mem: seq<Cell>, o: nat)
    requires o + 1 < |mem|
  {
    && mem[o + 1].hi == CANARY_HEAD
    && Home(o) + mem[o + 1].lo + GUARD_TRAILER <= CELL_BYTES * |mem|
    && Slice(mem, Home(o) + mem[o + 1].lo, GUARD_TRAILER) == WordBytes(CANARY_TAIL)
  }

  /** The recorded size is one the block can have. */
  predicate InBlock(mem: seq<Cell>, o: nat, e: nat)
    requires o + 1 < |mem|
  {
    mem[o + 1].lo >= 1 && Home(o) + mem[o + 1].lo + GUARD_TRAILER <= CELL_BYTES * e
  }

  ghost predicate SideOk(s: Side) {
    && s.base % CELL_BYTES == 0 && RawOk(s.raw, |s.mem|)
    && forall o | o in s.raw :: Guarded(s.mem, o, s.raw[o])
  }

  /** The bytes a caller owns. */
  function Bytes(mem: seq<Cell>, o: nat): (b: seq<Byte>)
    requires o + 1 < |mem| && Home(o) + mem[o + 1].lo <= CELL_BYTES * |mem|
    ensures |b| == mem[o + 1].lo
  {
    Slice(mem, Home(o), mem[o + 1].lo)
  }

  function Addr(s: Side, o: nat): nat { s.base + Home(o) }

  function OffAt(s: Side, a: nat): nat {
    if a < s.base + Home(0) then 0 else (a - s.base) / CELL_BYTES - 2
  }

  predicate LiveAt(s: Side, a: nat) {
    OffAt(s, a) in s.raw && a == Addr(s, OffAt(s, a))
  }

  lemma OffOfAddr(s: Side, o: nat)
    ensures OffAt(s, Addr(s, o)) == o
  {
  }

  /** One arena's part of the map. */
  ghost function View1(s: Side): View
    requires SideOk(s)
  {
    map a: nat | a < s.base + CELL_BYTES * |s.mem| && LiveAt(s, a) ::
      assert Guarded(s.mem, OffAt(s, a), s.raw[OffAt(s, a)]); Bytes(s.mem, OffAt(s, a))
  }

  lemma View1At(s: Side, a: nat)
    requires SideOk(s)
    ensures a in View1(s) <==> LiveAt(s, a)
    ensures LiveAt(s, a) ==> a + |View1(s)[a]| + GUARD_TRAILER <= s.base + CELL_BYTES * s.raw[OffAt(s, a)]
  {
    if LiveAt(s, a) { assert Guarded(s.mem, OffAt(s, a), s.raw[OffAt(s, a)]); }
  }

  lemma SliceSame(mem: seq<Cell>, mem': seq<Cell>, a: nat, n: nat, lo: nat, hi: nat)
    requires |mem| == |mem'| && CELL_BYTES * lo <= a && a + n <= CELL_BYTES * hi && hi <= |mem|
    requires forall c | lo <= c < hi :: mem'[c] == mem[c]
    ensures Slice(mem', a, n) == Slice(mem, a, n)
  {
    var s, s' := Slice(mem, a, n), Slice(mem', a, n);
    forall i: nat | i < n ensures s'[i] == s[i] {
      var c := (a + i) / CELL_BYTES;
      assert lo <= c < hi;
      assert mem'[c] == mem[c];
    }
  }

  /** A block that was left alone still holds the same bytes behind the same guards. */
  lemma BlockSame(raw: Raw, o: nat, x: nat, mem: seq<Cell>, mem': seq<Cell>)
    requires Kept(raw, o, mem, mem') && x in raw && x != o && Guarded(mem, x, raw[x])
    ensures Guarded(mem', x, raw[x]) && Bytes(mem', x) == Bytes(mem, x)
  {
    hide Slice, WordBytes;
    forall c | x + 1 <= c < raw[x] ensures mem'[c] == mem[c] { assert InPayload(raw, x, c); }
    SliceSame(mem, mem', Home(x) + mem[x + 1].lo, GUARD_TRAILER, x + 1, raw[x]);
    SliceSame(mem, mem', Home(x), mem[x + 1].lo, x + 1, raw[x]);
  }

  /** How the view of one arena changes when only the block at `o` is touched and
      it is live afterwards. */
  lemma ViewSet(s: Side, s': Side, o: nat)
    requires SideOk(s) && s'.base == s.base && RawOk(s'.raw, |s'.mem|)
    requires o in s'.raw && s'.raw == s.raw[o := s'.raw[o]]
    requires Kept(s.raw, o, s.mem, s'.mem) && Guarded(s'.mem, o, s'.raw[o])
    ensures SideOk(s') && View1(s') == View1(s)[Addr(s, o) := Bytes(s'.mem, o)]
  {
    hide Guarded, Kept, RawOk, Bytes, Home, View1, LiveAt, OffAt;
    forall x | x in s'.raw ensures Guarded(s'.mem, x, s'.raw[x]) {
      if x != o { BlockSame(s.raw, o, x, s.mem, s'.mem); }
    }
    forall a: nat ensures a in View1(s') <==> a in View1(s) || a == Addr(s, o) { SetAt(s, s', o, a); }
    forall a | a in View1(s) && a != Addr(s, o) ensures View1(s')[a] == View1(s)[a] { SetAt(s, s', o, a); }
    SetAt(s, s', o, Addr(s, o));
  }

  lemma SetAt(s: Side, s': Side, o: nat, a: nat)
    requires SideOk(s) && SideOk(s') && s'.base == s.base
    requires o in s'.raw && s'.raw == s.raw[o := s'.raw[o]] && Kept(s.raw, o, s.mem, s'.mem)
    ensures a in View1(s') <==> a in View1(s) || a == Addr(s, o)
    ensures o + 1 < |s'.mem| && Home(o) + s'.mem[o + 1].lo <= CELL_BYTES * |s'.mem|
    ensures a in View1(s') ==> View1(s')[a] == if a == Addr(s, o) then Bytes(s'.mem, o) else View1(s)[a]
  {
    hide Kept, RawOk, Bytes, Home, View1;
    assert Guarded(s'.mem, o, s'.raw[o]);
    OffOfAddr(s, o);
    View1At(s, a);
    View1At(s', a);
    if LiveAt(s', a) {
      ViewIs(s', a);
      if a != Addr(s, o) {
        ViewIs(s, a);
        BlockSame(s.raw, o, OffAt(s, a), s.mem, s'.mem);
      }
    }
  }

  lemma ViewIs(s: Side, a: nat)
    requires SideOk(s) && LiveAt(s, a)
    ensures a in View1(s) && OffAt(s, a) in s.raw && Guarded(s.mem, OffAt(s, a), s.raw[OffAt(s, a)])
    ensures View1(s)[a] == Bytes(s.mem, OffAt(s, a))
  {
    View1At(s, a);
  }

  /** And when it is gone afterwards. */
  lemma ViewDropped(s: Side, s': Side, o: nat)
    requires SideOk(s) && s'.base == s.base && RawOk(s'.raw, |s'.mem|)
    requires s'.raw == s.raw - {o} && Kept(s.raw, o, s.mem, s'.mem)
    ensures SideOk(s') && View1(s') == View1(s) - {Addr(s, o)}
  {
    hide Guarded, Kept, RawOk, Bytes, Home, View1, LiveAt, OffAt;
    forall x | x in s'.raw ensures Guarded(s'.mem, x, s'.raw[x]) { BlockSame(s.raw, o, x, s.mem, s'.mem); }
    forall a: nat ensures a in View1(s') <==> a in View1(s) && a != Addr(s, o) { DroppedAt(s, s', o, a); }
    forall a | a in View1(s) && a != Addr(s, o) ensures View1(s')[a] == View1(s)[a] { DroppedAt(s, s', o, a); }
  }

  lemma DroppedAt(s: Side, s': Side, o: nat, a: nat)
    requires SideOk(s) && SideOk(s') && s'.base == s.base
    requires s'.raw == s.raw - {o} && Kept(s.raw, o, s.mem, s'.mem)
    ensures a in View1(s') <==> a in View1(s) && a != Addr(s, o)
    ensures a in View1(s') ==> View1(s')[a] == View1(s)[a]
  {
    hide Kept, RawOk, Bytes, Home, View1;
    OffOfAddr(s, o);
    View1At(s, a);
    View1At(s', a);
    if LiveAt(s', a) {
      ViewIs(s', a);
      ViewIs(s, a);
      BlockSame(s.raw, o, OffAt(s, a), s.mem, s'.mem);
    }
  }

  // ---- Both arenas -----------------------------------------------------------------

  predicate InRange(s: Side, a: nat) { s.base <= a < s.base + CELL_BYTES * |s.mem| }

  /** The two mappings do not overlap. */
  predicate Disjoint(s: Side, t: Side) {
    || s.base + CELL_BYTES * |s.mem| <= t.base
    || t.base + CELL_BYTES * |t.mem| <= s.base
  }

  /** An address whose guard can be looked at and is not that of a live payload. */
  predicate Stray(s: Side, a: nat) {
    && s.base + Home(0) <= a && (a - s.base) % CELL_BYTES == 0 && OffAt(s, a) + 1 < |s.mem|
    && s.mem[OffAt(s, a) + 1].hi != CANARY_HEAD
  }

  /** And carries the mark of a payload that was given back. */
  predicate Freed(s: Side, a: nat) { Stray(s, a) && s.mem[OffAt(s, a) + 1].hi == CANARY_FREED }

  lemma LiveInRange(s: Side, a: nat)
    requires SideOk(s) && a in View1(s)
    ensures InRange(s, a) && a % CELL_BYTES == 0 && s.base + CELL_BYTES <= a
  {
    hide View1, Guarded, Bytes;
    View1At(s, a);
  }

  lemma NotInOther(s: Side, t: Side, a: nat)
    requires SideOk(s) && SideOk(t) && Disjoint(s, t)
    ensures InRange(s, a) ==> a !in View1(t)
  {
    if a in View1(t) { LiveInRange(t, a); }
  }

  lemma AddrInRange(s: Side, o: nat)
    requires SideOk(s) && o in s.raw
    ensures InRange(s, Addr(s, o)) && Addr(s, o) in View1(s) && Addr(s, o) % CELL_BYTES == 0
    ensures Guarded(s.mem, o, s.raw[o]) && View1(s)[Addr(s, o)] == Bytes(s.mem, o)
  {
    OffOfAddr(s, o);
    View1At(s, Addr(s, o));
    LiveInRange(s, Addr(s, o));
  }

  type View = map<nat, seq<Byte>>

  /** One arena's part and the other's; they share no pointer. */
  function Merge(slot: Slot, m: View, n: View): View {
    if slot == FIRSTFIT then m + n else n + m
  }

  lemma UnionSet<V>(m: map<nat, V>, n: map<nat, V>, a: nat, v: V)
    ensures a !in n ==> m[a := v] + n == (m + n)[a := v]
    ensures m + n[a := v] == (m + n)[a := v]
  {
  }

  lemma UnionDrop<V>(m: map<nat, V>, n: map<nat, V>, a: nat)
    ensures a !in n ==> m - {a} + n == m + n - {a}
    ensures a !in m ==> m + (n - {a}) == m + n - {a}
  {
  }

  lemma SetSize<V>(m: map<nat, V>, a: nat, v: V)
    ensures |m[a := v]| == |m| + if a in m then 0 else 1
  {
    if a in m { assert m[a := v].Keys == m.Keys; } else { assert m[a := v].Keys == m.Keys + {a}; }
  }

  lemma DropSize<V>(m: map<nat, V>, a: nat)
    requires a in m
    ensures |m - {a}| == |m| - 1
  {
    assert (m - {a}).Keys == m.Keys - {a};
  }

  lemma MergeSet(slot: Slot, m: View, n: View, a: nat, v: seq<Byte>)
    requires a !in n
    ensures Merge(slot, m[a := v], n) == Merge(slot, m, n)[a := v]
    ensures a in Merge(slot, m, n) <==> a in m
    ensures |Merge(slot, m, n)[a := v]| == |Merge(slot, m, n)| + if a in m then 0 else 1
  {
    UnionSet(m, n, a, v);
    UnionSet(n, m, a, v);
    SetSize(Merge(slot, m, n), a, v);
  }

  lemma MergeDrop(slot: Slot, m: View, n: View, a: nat)
    requires a !in n && a in m
    ensures Merge(slot, m - {a}, n) == Merge(slot, m, n) - {a}
    ensures |Merge(slot, m, n) - {a}| == |Merge(slot, m, n)| - 1
  {
    UnionDrop(m, n, a);
    UnionDrop(n, m, a);
    DropSize(Merge(slot, m, n), a);
  }

  /** The whole heap: `s` is the arena of `slot`, `t` the other one. */
  ghost function Both(slot: Slot, s: Side, t: Side): View
    requires SideOk(s) && SideOk(t)
  {
    Merge(slot, View1(s), View1(t))
  }

  /** No two live payloads overlap, guards included. */
  lemma PayloadsApart(s: Side, t: Side, a: nat, b: nat)
    requires SideOk(s) && SideOk(t) && Disjoint(s, t)
    requires var m := Both(FIRSTFIT, s, t); a in m && b in m && a < b
    ensures a + |Both(FIRSTFIT, s, t)[a]| + GUARD_TRAILER + GUARD_PREFIX <= b
  {
    hide Guarded;
    if a in View1(s) && b in View1(s) {
      OneSideApart(s, a, b);
      NotInOther(s, t, a);
      LiveInRange(s, a);
    } else if a in View1(t) && b in View1(t) {
      OneSideApart(t, a, b);
    } else if a in View1(s) {
      AcrossApart(s, t, a, b);
      NotInOther(s, t, a);
      LiveInRange(s, a);
    } else {
      AcrossApart(t, s, a, b);
    }
  }

  lemma OneSideApart(s: Side, a: nat, b: nat)
    requires SideOk(s) && a in View1(s) && b in View1(s) && a < b
    ensures a + |View1(s)[a]| + GUARD_TRAILER + GUARD_PREFIX <= b
  {
    View1At(s, a);
    View1At(s, b);
    assert OffAt(s, a) < OffAt(s, b);
  }

  lemma AcrossApart(s: Side, t: Side, a: nat, b: nat)
    requires SideOk(s) && SideOk(t) && Disjoint(s, t) && a in View1(s) && b in View1(t) && a < b
    ensures a + |View1(s)[a]| + GUARD_TRAILER + GUARD_PREFIX <= b
  {
    View1At(s, a);
    View1At(t, b);
  }

  // ---- Guards being written and released ------------------------------------------------

  /** Memory after `guard_write`. */
  function GuardMem(mem: seq<Cell>, o: nat, size: nat): seq<Cell>
    requires o + 1 < |mem| && size < WORD_LIMIT && Home(o) + size + GUARD_TRAILER <= CELL_BYTES * |mem|
  {
    Poke(mem[o + 1 := Cell(size, CANARY_HEAD)], Home(o) + size, WordBytes(CANARY_TAIL))
  }

  lemma GuardWritten(raw: Raw, mem: seq<Cell>, o: nat, size: nat)
    requires RawOk(raw, |mem|) && o in raw && 1 <= size < WORD_LIMIT
    requires Home(o) + size + GUARD_TRAILER <= CELL_BYTES * raw[o]
    ensures Kept(raw, o, mem, GuardMem(mem, o, size)) && Guarded(GuardMem(mem, o, size), o, raw[o])
    ensures Bytes(GuardMem(mem, o, size), o) == Slice(mem, Home(o), size)
  {
    hide WordBytes, Poke, ReadByte;
    var m1 := mem[o + 1 := Cell(size, CANARY_HEAD)];
    var at := Home(o) + size;
    var mem' := GuardMem(mem, o, size);
    PokeCell(m1, at, WordBytes(CANARY_TAIL), o + 1);
    PokedKept(raw, mem, o, m1, at, WordBytes(CANARY_TAIL));
    forall x: nat | Home(o) <= x < at + GUARD_TRAILER
      ensures ReadByte(mem', x) == if x < at then ReadByte(mem, x) else WordBytes(CANARY_TAIL)[x - at]
    {
      PokeThenRead(m1, at, WordBytes(CANARY_TAIL), x);
      ReadOther(mem, o + 1, Cell(size, CANARY_HEAD), x);
    }
  }

  lemma ReadOther(mem: seq<Cell>, c: nat, v: Cell, x: nat)
    requires c < |mem| && CELL_BYTES * (c + 1) <= x < CELL_BYTES * |mem|
    ensures ReadByte(mem[c := v], x) == ReadByte(mem, x)
  {
  }

  /** Stores inside one block's payload leave the others alone. */
  lemma {:induction false} PokedKept(raw: Raw, mem: seq<Cell>, o: nat, m1: seq<Cell>, at: nat, data: seq<Byte>)
    requires RawOk(raw, |mem|) && o in raw && |m1| == |mem|
    requires forall c | 0 <= c < |mem| && c != o + 1 :: m1[c] == mem[c]
    requires CELL_BYTES * (o + 1) <= at && at + |data| <= CELL_BYTES * raw[o]
    ensures Kept(raw, o, mem, Poke(m1, at, data))
  {
    hide Poke;
    forall x: nat, c: nat {:trigger InPayload(raw, x, c)} | InPayload(raw, x, c) && x != o && c < |mem|
      ensures Poke(m1, at, data)[c] == mem[c]
    {
      assert if x < o then raw[x] <= o else raw[o] <= x;
      PokeCell(m1, at, data, c);
    }
  }

  lemma KeptTwice(raw: Raw, o: nat, a: seq<Cell>, b: seq<Cell>, c: seq<Cell>)
    requires Kept(raw, o, a, b) && Kept(raw, o, b, c)
    ensures Kept(raw, o, a, c)
  {
    forall x: nat, i: nat {:trigger InPayload(raw, x, i)} | InPayload(raw, x, i) && x != o && i < |a|
      ensures c[i] == a[i]
    {
    }
  }

  lemma KeptFewer(raw: Raw, raw': Raw, o: nat, a: seq<Cell>, b: seq<Cell>)
    requires Kept(raw', o, a, b)
    requires forall x | x in raw && x != o :: x in raw' && raw'[x] == raw[x]
    ensures Kept(raw, o, a, b)
  {
    forall x: nat, i: nat {:trigger InPayload(raw, x, i)} | InPayload(raw, x, i) && x != o && i < |a|
      ensures b[i] == a[i]
    {
      assert InPayload(raw', x, i);
    }
  }

  function Splice(b: seq<Byte>, i: nat, data: seq<Byte>): (r: seq<Byte>)
    requires i + |data| <= |b|
    ensures |r| == |b|
  {
    b[..i] + data + b[i + |data|..]
  }

  /** A store inside the bytes a caller owns keeps the guards. */
  lemma {:induction false} StoreInside(raw: Raw, mem: seq<Cell>, o: nat, i: nat, data: seq<Byte>)
    requires RawOk(raw, |mem|) && o in raw && Guarded(mem, o, raw[o]) && i + |data| <= mem[o + 1].lo
    ensures var mem' := Poke(mem, Home(o) + i, data);
            && Kept(raw, o, mem, mem') && Guarded(mem', o, raw[o])
            && Bytes(mem', o) == Splice(Bytes(mem, o), i, data)
  {
    hide WordBytes, Poke, ReadByte;
    var at := Home(o) + i;
    var mem' := Poke(mem, at, data);
    PokeCell(mem, at, data, o + 1);
    PokedKept(raw, mem, o, mem, at, data);
    forall x: nat | Home(o) <= x < Home(o) + mem[o + 1].lo + GUARD_TRAILER
      ensures ReadByte(mem', x) == if at <= x < at + |data| then data[x - at] else ReadByte(mem, x)
    {
      PokeThenRead(mem, at, data, x);
    }
  }

  // ---- One arena changes, the other does not ------------------------------------------------

  lemma SetBoth(slot: Slot, s: Side, s': Side, t: Side, o: nat)
    requires SideOk(s) && SideOk(t) && Disjoint(s, t) && s'.base == s.base && |s'.mem| == |s.mem|
    requires RawOk(s'.raw, |s'.mem|) && o in s'.raw && s'.raw == s.raw[o := s'.raw[o]]
    requires Kept(s.raw, o, s.mem, s'.mem) && Guarded(s'.mem, o, s'.raw[o])
    ensures SideOk(s') && Disjoint(s', t)
    ensures var a := Addr(s, o);
            && Both(slot, s', t) == Both(slot, s, t)[a := Bytes(s'.mem, o)]
            && (a in Both(slot, s, t) <==> o in s.raw) && a % CELL_BYTES == 0 && InRange(s, a)
            && |Both(slot, s', t)| == |Both(slot, s, t)| + if o in s.raw then 0 else 1
  {
    hide View1, Kept, Guarded, RawOk, Bytes, LiveAt, SideOk, Merge;
    var a := Addr(s, o);
    ViewSet(s, s', o);
    AddrInRange(s', o);
    AddrLive(s, o);
    NotInOther(s', t, a);
    MergeSet(slot, View1(s), View1(t), a, Bytes(s'.mem, o));
  }

  lemma AddrLive(s: Side, o: nat)
    requires SideOk(s)
    ensures Addr(s, o) in View1(s) <==> o in s.raw
  {
    OffOfAddr(s, o);
    View1At(s, Addr(s, o));
  }

  lemma DropBoth(slot: Slot, s: Side, s': Side, t: Side, o: nat)
    requires SideOk(s) && SideOk(t) && Disjoint(s, t) && s'.base == s.base && |s'.mem| == |s.mem|
    requires RawOk(s'.raw, |s'.mem|) && o in s.raw && s'.raw == s.raw - {o}
    requires Kept(s.raw, o, s.mem, s'.mem)
    ensures SideOk(s') && Disjoint(s', t)
    ensures var a := Addr(s, o);
            && a in Both(slot, s, t) && Both(slot, s', t) == Both(slot, s, t) - {a}
            && |Both(slot, s', t)| == |Both(slot, s, t)| - 1
  {
    hide View1, Kept, Guarded, RawOk, Bytes, LiveAt, SideOk, Merge;
    var a := Addr(s, o);
    ViewDropped(s, s', o);
    AddrInRange(s, o);
    NotInOther(s, t, a);
    MergeDrop(slot, View1(s), View1(t), a);
  }

  /** The block behind the pointer, its guards and its bytes. */
  ghost predicate StandsFor(s: Side, a: nat, b: seq<Byte>) {
    var o := OffAt(s, a);
    o in s.raw && a == Addr(s, o) && Guarded(s.mem, o, s.raw[o]) && b == Bytes(s.mem, o)
  }

  /** A live pointer belongs to one arena, and its bytes are there. */
  lemma Located(slot: Slot, s: Side, t: Side, a: nat)
    requires SideOk(s) && SideOk(t) && Disjoint(s, t) && a in Both(slot, s, t)
    ensures InRange(s, a) || InRange(t, a)
    ensures InRange(s, a) ==> StandsFor(s, a, Both(slot, s, t)[a])
  {
    hide Guarded, RawOk, Bytes;
    View1At(s, a);
    NotInOther(s, t, a);
    if a in View1(s) { LiveInRange(s, a); ViewIs(s, a); } else { LiveInRange(t, a); NotInOther(t, s, a); }
  }

  /** A block fresh from its strategy, once its guards are written. */
  lemma NewBlock(slot: Slot, s: Side, t: Side, raw: Raw, mem: seq<Cell>, o: nat, size: nat)
    requires SideOk(s) && SideOk(t) && Disjoint(s, t) && o !in s.raw && o in raw && raw == s.raw[o := raw[o]]
    requires RawOk(raw, |mem|) && Kept(s.raw, o, s.mem, mem) && 1 <= size < WORD_LIMIT
    requires Home(o) + size + GUARD_TRAILER <= CELL_BYTES * raw[o]
    ensures var s', a := Side(s.base, raw, GuardMem(mem, o, size)), Addr(s, o);
            && SideOk(s') && Disjoint(s', t)
            && a !in Both(slot, s, t) && a in Both(slot, s', t) && |Both(slot, s', t)[a]| == size
            && Both(slot, s', t) == Both(slot, s, t)[a := Both(slot, s', t)[a]]
            && |Both(slot, s', t)| == |Both(slot, s, t)| + 1
            && a % CELL_BYTES == 0 && InRange(s', a)
  {
    hide View1, Kept, Guarded, RawOk, LiveAt, SideOk, Merge, GuardMem, Slice;
    RawBounds(raw, |mem|, o);
    var mem' := GuardMem(mem, o, size);
    GuardWritten(raw, mem, o, size);
    KeptFewer(s.raw, raw, o, mem, mem');
    KeptTwice(s.raw, o, s.mem, mem, mem');
    KeptLength(s.raw, o, s.mem, mem');
    SetBoth(slot, s, Side(s.base, raw, mem'), t, o);
  }

  lemma RawBounds(raw: Raw, len: nat, o: nat)
    requires RawOk(raw, len) && o in raw
    ensures o + 1 < raw[o] <= len
  {
  }

  lemma KeptLength(raw: Raw, o: nat, a: seq<Cell>, b: seq<Cell>)
    requires Kept(raw, o, a, b)
    ensures |a| == |b|
  {
  }
}
