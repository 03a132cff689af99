/** The heap callers use: strategy dispatch, a guard around every payload, and
    counters. A pointer is an address; running out of memory ends the program,
    which the methods below report as None. */
module Heap {
  import opened Options
  import opened Memory
  import opened ByteCells
  import opened Strategies
  import opened HeapView
  import BuddyMath
  import BuddyRuns
  import FirstfitTags

  const SIZE_MAX: nat := WORD_LIMIT - 1
  const POISON_BYTE: Byte := 0xDD

  datatype Guard = Intact | DoubleFree | Underflow | Overflow

  /** How a call ends: normally, or by ending the program with a complaint. */
  datatype Ending = Returned | UnknownPointer | Corrupt(guard: Guard)

  class NshHeap {
    const arenas: Arenas
    /** Where the kernel mapped each arena. */
    const bases: seq<nat>
    /** NSH_ALLOC_STRATEGY, if it is set. */
    const wanted: Option<string>
    var booted: bool
    var active: Slot
    var totalMallocs: nat
    var totalFrees: nat

    ghost function SideOf(slot: Slot): Side
      requires |bases| == 2
      reads this, arenas, arenas.ff, arenas.ff.mem, arenas.bd, arenas.bd.mem
    {
      Side(bases[slot], arenas.RawOf(slot), arenas.Cells(slot))
    }

    /** The slot that the next allocation uses: the environment counts only before
        the heap has booted. */
    ghost function Chosen(): Slot
      reads this
    {
      if booted then active else if wanted == Some("buddy") then BUDDY else FIRSTFIT
    }

    /** The arena has no room for this many bytes and their guards. */
    ghost predicate Full(slot: Slot, bytes: nat)
      reads this, arenas, arenas.ff, arenas.bd
    {
      bytes > SIZE_MAX - GUARD_TOTAL || !arenas.Fits(slot, bytes + GUARD_TOTAL)
    }

    /** The bytes the pointer's block could hold besides its guards. */
    ghost function Spare(ptr: nat): int
      requires |bases| == 2
      reads this, arenas, arenas.ff, arenas.ff.mem, arenas.bd, arenas.bd.mem
    {
      Room(SideOf(if InRange(SideOf(FIRSTFIT), ptr) then FIRSTFIT else BUDDY), ptr)
    }

    /** An address that is no live pointer, outside both arenas or behind a guard that
        says so. */
    ghost predicate Astray(ptr: nat)
      requires |bases| == 2
      reads this, arenas, arenas.ff, arenas.ff.mem, arenas.bd, arenas.bd.mem
    {
      forall slot: Slot | InRange(SideOf(slot), ptr) :: Stray(SideOf(slot), ptr)
    }

    /** How the checks of `nsh_free` and `nsh_realloc` end for such an address. */
    ghost predicate Complains(ptr: nat, end: Ending)
      requires |bases| == 2
      reads this, arenas, arenas.ff, arenas.ff.mem, arenas.bd, arenas.bd.mem
    {
      && end != Returned
      && (end == UnknownPointer <==> forall slot: Slot :: !InRange(SideOf(slot), ptr))
      && (end == Corrupt(DoubleFree) <==> exists slot: Slot :: InRange(SideOf(slot), ptr) && Freed(SideOf(slot), ptr))
      && end != Corrupt(Overflow) && end != Corrupt(Intact)
    }

    /** Everything but the counters. */
    ghost predicate Sound()
      reads this, arenas, arenas.ff, arenas.ff.mem, arenas.bd, arenas.bd.mem, arenas.bd.heads
    {
      && |bases| == 2 && arenas.Valid()
      && SideOk(SideOf(FIRSTFIT)) && SideOk(SideOf(BUDDY)) && Disjoint(SideOf(FIRSTFIT), SideOf(BUDDY))
    }

    /** What callers see: each live pointer and the bytes it stands for. */
    ghost function Map(): View
      requires Sound()
      reads this, arenas, arenas.ff, arenas.ff.mem, arenas.bd, arenas.bd.mem, arenas.bd.heads
    {
      Both(FIRSTFIT, SideOf(FIRSTFIT), SideOf(BUDDY))
    }

    ghost predicate Valid()
      reads this, arenas, arenas.ff, arenas.ff.mem, arenas.bd, arenas.bd.mem, arenas.bd.heads
    {
      Sound() && totalMallocs == totalFrees + |Map()|
    }

    constructor (first: array<Cell>, second: array<Cell>, base0: nat, base1: nat, env: Option<string>,
                 ghost top: BuddyMath.Order)
      requires first != second && first.Length > 0 && FirstfitTags.Fits(first.Length)
      requires second.Length == 2 * BuddyMath.Cells(top) < WORD_LIMIT
      requires BuddyRuns.SEED_ORDER <= top < BuddyMath.MAX_ORDER
      requires base0 % CELL_BYTES == 0 && base1 % CELL_BYTES == 0
      requires base0 + CELL_BYTES * first.Length <= base1 || base1 + CELL_BYTES * second.Length <= base0
      modifies first, second
      ensures Valid() && Map() == map[] && !booted && totalMallocs == 0
    {
      hide BuddyMath.Cells, RawOk, Arenas.RawOf, Arenas.Valid;
      arenas := new Arenas.Init(first, second, top);
      bases := [base0, base1];
      wanted := env;
      booted, active, totalMallocs, totalFrees := false, FIRSTFIT, 0, 0;
      new;
      RawsOk(arenas);
    }

    // ---- Guards ---------------------------------------------------------------------

    /** Stores bytes one after the other into the payload of the block at `off`. */
    method PokeBytes(slot: Slot, ghost off: nat, at: nat, data: seq<Byte>)
      requires arenas.Valid() && off in arenas.RawOf(slot)
      requires CELL_BYTES * (off + 1) <= at && at + |data| <= CELL_BYTES * arenas.RawOf(slot)[off]
      modifies arenas.ff.mem, arenas.bd.mem
      ensures arenas.Valid() && arenas.RawOf(FIRSTFIT) == old(arenas.RawOf(FIRSTFIT))
      ensures arenas.RawOf(BUDDY) == old(arenas.RawOf(BUDDY))
      ensures at + |data| <= CELL_BYTES * |old(arenas.Cells(slot))|
      ensures arenas.Cells(slot) == Poke(old(arenas.Cells(slot)), at, data)
      ensures arenas.Cells(1 - slot) == old(arenas.Cells(1 - slot))
    {
      hide RawOk, Arenas.RawOf, PutByte, Arenas.Valid;
      InBounds(arenas, slot, off);
      ghost var m0 := arenas.Cells(slot);
      var i := 0;
      assert data[..0] == [];
      while i < |data|
        invariant i <= |data| && arenas.Valid()
        invariant arenas.RawOf(FIRSTFIT) == old(arenas.RawOf(FIRSTFIT))
                  && arenas.RawOf(BUDDY) == old(arenas.RawOf(BUDDY))
        invariant arenas.Cells(slot) == Poke(m0, at, data[..i])
        invariant arenas.Cells(1 - slot) == old(arenas.Cells(1 - slot))
      {
        PokeNext(m0, at, data, i);
        var a := at + i;
        var c := arenas.Mem(slot)[a / CELL_BYTES];
        arenas.Write(slot, off, a / CELL_BYTES, PutByte(c, a % CELL_BYTES, data[i]));
        i := i + 1;
      }
      assert data[..i] == data;
    }

    /** `guard_write`. */
    method GuardWrite(slot: Slot, ghost off: nat, guard: nat, requested: nat)
      requires arenas.Valid() && off in arenas.RawOf(slot) && guard == off + 1
      requires requested < WORD_LIMIT && Home(off) + requested + GUARD_TRAILER <= CELL_BYTES * arenas.RawOf(slot)[off]
      modifies arenas.ff.mem, arenas.bd.mem
      ensures arenas.Valid() && arenas.RawOf(FIRSTFIT) == old(arenas.RawOf(FIRSTFIT))
      ensures arenas.RawOf(BUDDY) == old(arenas.RawOf(BUDDY))
      ensures off + 1 < |old(arenas.Cells(slot))|
      ensures Home(off) + requested + GUARD_TRAILER <= CELL_BYTES * |old(arenas.Cells(slot))|
      ensures arenas.Cells(slot) == GuardMem(old(arenas.Cells(slot)), off, requested)
      ensures arenas.Cells(1 - slot) == old(arenas.Cells(1 - slot))
    {
      hide RawOk, Arenas.RawOf, Arenas.Valid, Poke, WordBytes;
      InBounds(arenas, slot, off);
      arenas.Write(slot, off, guard, Cell(requested, CANARY_HEAD));
      PokeBytes(slot, off, CELL_BYTES * (guard + 1) + requested, WordBytes(CANARY_TAIL));
    }

    /** The bytes from `at` on. */
    method PeekBytes(slot: Slot, at: nat, n: nat) returns (data: seq<Byte>)
      requires at + n <= CELL_BYTES * arenas.Mem(slot).Length
      ensures at + n <= CELL_BYTES * |arenas.Cells(slot)| && data == Slice(arenas.Cells(slot), at, n)
    {
      data := [];
      var i := 0;
      while i < n
        invariant i <= n && data == Slice(arenas.Cells(slot), at, i)
      {
        var a := at + i;
        SliceNext(arenas.Cells(slot), at, i);
        data := data + [CellByte(arenas.Mem(slot)[a / CELL_BYTES], a % CELL_BYTES)];
        i := i + 1;
      }
    }

    /** `guard_check`: what it finds around the payload of the block at `off`. The
        recorded size is believed as long as it leads to memory that is mapped. */
    method GuardCheck(slot: Slot, ghost off: nat, guard: nat) returns (g: Guard)
      requires arenas.Valid() && guard == off + 1 < |arenas.Cells(slot)|
      requires var c := arenas.Cells(slot)[guard];
               c.hi == CANARY_HEAD ==> Home(off) + c.lo + GUARD_TRAILER <= CELL_BYTES * |arenas.Cells(slot)|
      ensures g == DoubleFree <==> arenas.Cells(slot)[guard].hi == CANARY_FREED
      ensures g == Underflow <==> arenas.Cells(slot)[guard].hi !in {CANARY_FREED, CANARY_HEAD}
      ensures g == Intact <==> Canaries(arenas.Cells(slot), off)
      ensures off in arenas.RawOf(slot) && InBlock(arenas.Cells(slot), off, arenas.RawOf(slot)[off]) ==>
                (g == Intact <==> Guarded(arenas.Cells(slot), off, arenas.RawOf(slot)[off]))
    {
      hide RawOk, Arenas.RawOf, Arenas.Valid, Slice, WordBytes;
      if off in arenas.RawOf(slot) { InBounds(arenas, slot, off); }
      var c := arenas.Mem(slot)[guard];
      if c.hi == CANARY_FREED {
        return DoubleFree;
      }
      if c.hi != CANARY_HEAD {
        return Underflow;
      }
      var tail := PeekBytes(slot, CELL_BYTES * (guard + 1) + c.lo, GUARD_TRAILER);
      g := if tail != WordBytes(CANARY_TAIL) then Overflow else Intact;
    }

    // ---- Blocks -----------------------------------------------------------------------

    method BlockNew(slot: Slot, requested: nat) returns (p: Option<nat>)
      requires Valid() && requested >= 1
      modifies this`totalMallocs, arenas.ff, arenas.ff.mem, arenas.bd, arenas.bd.mem, arenas.bd.heads
      ensures Valid()
      ensures p.None? <==> old(Full(slot, requested))
      ensures p.None? ==> Map() == old(Map()) && totalMallocs == old(totalMallocs)
      ensures p.Some? ==>
                && p.value !in old(Map()) && p.value in Map() && p.value % CELL_BYTES == 0
                && Map() == old(Map())[p.value := Map()[p.value]] && |Map()[p.value]| == requested
                && totalMallocs == old(totalMallocs) + 1 && InRange(SideOf(slot), p.value)
    {
      hide RawOk, Kept, Guarded, Both, Arenas.RawOf, Arenas.Valid, GuardMem, Bytes, Disjoint, SideOk, Arenas.Fits;
      hide InRange;
      if requested > SIZE_MAX - GUARD_TOTAL {
        return None;
      }
      ghost var s, t := SideOf(slot), SideOf(1 - slot);
      MapIsBoth(this, slot);
      var raw := arenas.Alloc(slot, requested + GUARD_TOTAL);
      if raw.None? {
        return None;
      }
      var off := raw.value;
      ghost var m1, raw1 := arenas.Cells(slot), arenas.RawOf(slot);
      InBounds(arenas, slot, off);
      GuardWrite(slot, off, off + 1, requested);
      NewBlock(slot, s, t, raw1, m1, off, requested);
      SoundIf(this, slot);
      MapIsBoth(this, slot);
      totalMallocs := totalMallocs + 1;
      p := Some(bases[slot] + CELL_BYTES * (off + 2));
    }

    /** Marks the guard, poisons the payload and gives the block back. */
    method BlockRelease(slot: Slot, ptr: nat)
      requires Valid() && ptr in Map() && InRange(SideOf(slot), ptr)
      modifies this`totalFrees, arenas.ff, arenas.ff.mem, arenas.bd, arenas.bd.mem, arenas.bd.heads
      ensures Valid() && Map() == old(Map()) - {ptr} && totalFrees == old(totalFrees) + 1
      ensures InRange(SideOf(slot), ptr)
      ensures slot == FIRSTFIT ==> Freed(SideOf(slot), ptr) && Poisoned(SideOf(slot), ptr, |old(Map())[ptr]|)
    {
      hide RawOk, Kept, Guarded, Both, Arenas.RawOf, Arenas.Valid, Bytes, Disjoint, SideOk, Poke;
      hide Freed, Poisoned, PayloadKept;
      ghost var s, t := SideOf(slot), SideOf(1 - slot);
      MapIsBoth(this, slot);
      Located(slot, s, t, ptr);
      var off := (ptr - bases[slot]) / CELL_BYTES - 2;
      GuardedFacts(s.mem, off, s.raw[off]);
      InBounds(arenas, slot, off);
      var g := arenas.Mem(slot)[off + 1];
      arenas.Write(slot, off, off + 1, Cell(g.lo, CANARY_FREED));
      ghost var m1 := arenas.Cells(slot);
      var poison := seq<Byte>(g.lo, i => POISON_BYTE);
      PokeBytes(slot, off, ptr - bases[slot], poison);
      ghost var m2 := arenas.Cells(slot);
      PokedKept(s.raw, s.mem, off, m1, Home(off), poison);
      arenas.FreeBlock(slot, off);
      KeptTwice(s.raw, off, s.mem, m2, arenas.Cells(slot));
      KeptLength(s.raw, off, s.mem, arenas.Cells(slot));
      RawsOk(arenas);
      if slot == FIRSTFIT { MarkLeft(s, m1, m2, SideOf(slot), off); }
      DropBoth(slot, s, SideOf(slot), t, off);
      SoundIf(this, slot);
      MapIsBoth(this, slot);
      totalFrees := totalFrees + 1;
    }

    /** A caller's stores into its own bytes, and the copies and fills made for it. */
    method Store(slot: Slot, ptr: nat, i: nat, data: seq<Byte>)
      requires Valid() && ptr in Map() && InRange(SideOf(slot), ptr) && i + |data| <= |Map()[ptr]|
      modifies arenas.ff.mem, arenas.bd.mem
      ensures Valid() && Map() == old(Map())[ptr := Splice(old(Map())[ptr], i, data)]
      ensures InRange(SideOf(slot), ptr)
    {
      hide RawOk, Kept, Guarded, Both, Arenas.RawOf, Arenas.Valid, Bytes, Disjoint, SideOk, Poke;
      ghost var s, t := SideOf(slot), SideOf(1 - slot);
      MapIsBoth(this, slot);
      Located(slot, s, t, ptr);
      ghost var off := OffAt(s, ptr);
      GuardedFacts(s.mem, off, s.raw[off]);
      InBounds(arenas, slot, off);
      PokeBytes(slot, off, ptr - bases[slot] + i, data);
      StoreInside(s.raw, s.mem, off, i, data);
      RawsOk(arenas);
      SetBoth(slot, s, SideOf(slot), t, off);
      SoundIf(this, slot);
      MapIsBoth(this, slot);
    }

    /** The first `n` of a caller's bytes. */
    method Load(slot: Slot, ptr: nat, n: nat) returns (data: seq<Byte>)
      requires Valid() && ptr in Map() && InRange(SideOf(slot), ptr) && n <= |Map()[ptr]|
      ensures Valid() && ptr in Map() && n <= |Map()[ptr]| && data == Map()[ptr][..n]
    {
      hide RawOk, Kept, Guarded, Both, Arenas.RawOf, Arenas.Valid, Disjoint, SideOk, Poke;
      ghost var s := SideOf(slot);
      MapIsBoth(this, slot);
      Located(slot, s, SideOf(1 - slot), ptr);
      GuardedFacts(s.mem, OffAt(s, ptr), s.raw[OffAt(s, ptr)]);
      data := PeekBytes(slot, ptr - bases[slot], n);
    }

    /** The arena whose mapping holds the address. */
    method SlotOfPointer(ptr: nat) returns (slot: Option<Slot>)
      requires Valid()
      ensures Valid()
      ensures slot.Some? ==> InRange(SideOf(slot.value), ptr)
      ensures slot.None? ==> ptr !in Map() && Complains(ptr, UnknownPointer)
    {
      hide RawOk, Kept, Guarded, Both, Arenas.RawOf, Arenas.Valid, Disjoint, SideOk;
      var i: nat := 0;
      while i < 2
        invariant i <= 2
        invariant forall j: Slot | j < i :: !InRange(SideOf(j), ptr)
      {
        var base := bases[i];
        if base <= ptr < base + CELL_BYTES * arenas.Mem(i).Length {
          return Some(i);
        }
        i := i + 1;
      }
      MapIsBoth(this, FIRSTFIT);
      if ptr in Map() { Located(FIRSTFIT, SideOf(FIRSTFIT), SideOf(BUDDY), ptr); }
      slot := None;
    }

    /** `guard_check` never complains about a live pointer, and always about another one
        whose guard says so. */
    method Check(slot: Slot, ptr: nat) returns (g: Guard)
      requires Valid() && InRange(SideOf(slot), ptr) && (ptr in Map() || Astray(ptr))
      ensures Valid()
      ensures ptr in Map() ==> g == Intact
      ensures ptr !in Map() ==> g != Intact && Complains(ptr, Corrupt(g))
    {
      hide RawOk, Kept, Guarded, Both, Arenas.RawOf, Arenas.Valid, Disjoint, SideOk, Bytes;
      hide NshHeap.Complains, NshHeap.Astray;
      ghost var s := SideOf(slot);
      ghost var off := OffAt(s, ptr);
      MapIsBoth(this, slot);
      if ptr in Map() {
        Located(slot, s, SideOf(1 - slot), ptr);
        GuardedFacts(s.mem, off, s.raw[off]);
      } else {
        Blame(this, slot, ptr);
      }
      g := GuardCheck(slot, off, (ptr - bases[slot]) / CELL_BYTES - 1);
    }

    /** Bytes the block could hold besides its guards. */
    method Capacity(slot: Slot, ptr: nat) returns (n: nat)
      requires Valid() && ptr in Map() && InRange(SideOf(slot), ptr)
      ensures Valid() && n == Room(SideOf(slot), ptr) == Spare(ptr)
    {
      hide RawOk, Kept, Guarded, Both, Arenas.RawOf, Arenas.Valid, Disjoint, SideOk, Bytes;
      ghost var s := SideOf(slot);
      MapIsBoth(this, slot);
      Located(slot, s, SideOf(1 - slot), ptr);
      GuardedFacts(s.mem, OffAt(s, ptr), s.raw[OffAt(s, ptr)]);
      OneRange(s, SideOf(1 - slot), ptr);
      var usable := arenas.UsableSize(slot, (ptr - bases[slot]) / CELL_BYTES - 2);
      n := usable - GUARD_TOTAL;
    }

    /** Moves the guards of a block that is big enough already. */
    method Resize(slot: Slot, ptr: nat, want: nat)
      requires Valid() && ptr in Map() && InRange(SideOf(slot), ptr)
      requires 1 <= want <= Room(SideOf(slot), ptr) && want < WORD_LIMIT
      modifies arenas.ff.mem, arenas.bd.mem
      ensures Valid() && ptr in Map() && Map() == old(Map())[ptr := Map()[ptr]]
      ensures |Map()[ptr]| == want && SamePrefix(old(Map())[ptr], Map()[ptr])
    {
      hide RawOk, Kept, Guarded, Both, Arenas.RawOf, Arenas.Valid, Bytes, Disjoint, SideOk, GuardMem;
      ghost var s, t := SideOf(slot), SideOf(1 - slot);
      MapIsBoth(this, slot);
      Located(slot, s, t, ptr);
      ghost var off := OffAt(s, ptr);
      GuardedFacts(s.mem, off, s.raw[off]);
      InBounds(arenas, slot, off);
      GuardWrite(slot, off, (ptr - bases[slot]) / CELL_BYTES - 1, want);
      GuardWritten(s.raw, s.mem, off, want);
      RawsOk(arenas);
      SetBoth(slot, s, SideOf(slot), t, off);
      SoundIf(this, slot);
      MapIsBoth(this, slot);
      BytesPrefix(s.mem, off, want);
    }

    // ---- The public calls --------------------------------------------------------------

    /** Reads the boot strategy once. */
    method Boot()
      modifies `booted, `active
      ensures booted && active == old(Chosen())
      ensures active == if old(booted) then old(active) else if wanted == Some("buddy") then BUDDY else FIRSTFIT
    {
      if booted {
        return;
      }
      booted := true;
      active := if wanted == Some("buddy") then BUDDY else FIRSTFIT;
    }

    method Malloc(size: nat) returns (p: Option<nat>)
      requires Valid()
      modifies this, arenas.ff, arenas.ff.mem, arenas.bd, arenas.bd.mem, arenas.bd.heads
      ensures Valid() && totalFrees == old(totalFrees)
      ensures booted && active == old(Chosen())
      ensures p.None? <==> old(Full(Chosen(), if size == 0 then 1 else size))
      ensures p.None? ==> Map() == old(Map()) && totalMallocs == old(totalMallocs)
      ensures p.Some? ==>
                && p.value !in old(Map()) && p.value in Map() && p.value % CELL_BYTES == 0
                && Map() == old(Map())[p.value := Map()[p.value]]
                && |Map()[p.value]| == (if size == 0 then 1 else size)
                && totalMallocs == old(totalMallocs) + 1 && InRange(SideOf(active), p.value)
    {
      hide RawOk, Kept, Guarded, Both, Arenas.RawOf, Arenas.Valid, Disjoint, SideOk;
      Boot();
      p := BlockNew(active, if size == 0 then 1 else size);
    }

    method Calloc(count: nat, size: nat) returns (p: Option<nat>)
      requires Valid() && count <= SIZE_MAX && size <= SIZE_MAX
      modifies this, arenas.ff, arenas.ff.mem, arenas.bd, arenas.bd.mem, arenas.bd.heads
      ensures Valid() && totalFrees == old(totalFrees)
      ensures p.None? <==>
                Product(count, size) > SIZE_MAX
                || old(Full(Chosen(), if Product(count, size) == 0 then 1 else Product(count, size)))
      ensures p.None? ==> Map() == old(Map())
      ensures p.Some? ==>
                && Product(count, size) <= SIZE_MAX && p.value !in old(Map())
                && Map() == old(Map())[p.value := Zeros(if Product(count, size) == 0 then 1 else Product(count, size))]
    {
      hide Product, Splice, RawOk, Kept, Guarded, Both, Arenas.RawOf, Arenas.Valid, Disjoint, SideOk, InRange;
      if count != 0 && size > SIZE_MAX / count {
        Wraps(count, size);
        return None;
      }
      NoWrap(count, size);
      var want := Product(count, size) % WORD_LIMIT;
      if want == 0 {
        want := 1;
      }
      p := Malloc(want);
      if p.Some? {
        SpliceAll(Map()[p.value], Zeros(want));
        Store(active, p.value, 0, Zeros(want));
      }
    }

    /** A live pointer leaves the map; another address ends the program with a complaint.
        First-fit marks what it frees, so that a second free of it is caught. */
    method Free(ptr: Option<nat>) returns (end: Ending)
      requires Valid() && (ptr.Some? ==> ptr.value in Map() || Astray(ptr.value))
      modifies this`totalFrees, arenas.ff, arenas.ff.mem, arenas.bd, arenas.bd.mem, arenas.bd.heads
      ensures Valid()
      ensures end == Returned <==> ptr.Some? ==> ptr.value in old(Map())
      ensures end != Returned ==> old(Complains(ptr.value, end))
      ensures Map() == if ptr.Some? then old(Map()) - {ptr.value} else old(Map())
      ensures totalFrees == old(totalFrees) + if ptr.Some? && end == Returned then 1 else 0
      ensures ptr.Some? && end == Returned && InRange(SideOf(FIRSTFIT), ptr.value) ==>
                Astray(ptr.value) && Freed(SideOf(FIRSTFIT), ptr.value)
    {
      hide RawOk, Kept, Guarded, Both, Arenas.RawOf, Arenas.Valid, Disjoint, SideOk, InRange, Freed;
      hide NshHeap.Complains, NshHeap.Astray;
      if ptr.None? {
        return Returned;
      }
      var slot := SlotOfPointer(ptr.value);
      if slot.None? {
        return UnknownPointer;
      }
      var g := Check(slot.value, ptr.value);
      if g != Intact {
        return Corrupt(g);
      }
      BlockRelease(slot.value, ptr.value);
      OneArena(this, slot.value, ptr.value);
      if slot.value == FIRSTFIT { FreedAstray(this, ptr.value); }
      end := Returned;
    }

    /** Keeps the first min(old, new) bytes, in place exactly when the block has room
        and else in a block of the active strategy; nobody else's bytes change. */
    method Realloc(ptr: Option<nat>, newSize: nat) returns (p: Option<nat>, end: Ending)
      requires Valid() && newSize <= SIZE_MAX && (ptr.Some? ==> ptr.value in Map() || Astray(ptr.value))
      modifies this, arenas.ff, arenas.ff.mem, arenas.bd, arenas.bd.mem, arenas.bd.heads
      ensures Valid()
      ensures end == Returned <==> ptr.Some? ==> ptr.value in old(Map())
      ensures end != Returned ==> p.None? && old(Complains(ptr.value, end))
      ensures var want := if newSize == 0 then 1 else newSize;
              end == Returned ==>
                && (ptr.Some? ==> (p == ptr <==> want <= old(Spare(ptr.value))))
                && (p.None? <==> (ptr.Some? ==> want > old(Spare(ptr.value))) && old(Full(Chosen(), want)))
      ensures p.None? ==> Map() == old(Map())
      ensures p.Some? ==>
                && p.value in Map() && |Map()[p.value]| == (if newSize == 0 then 1 else newSize)
                && (p.value in old(Map()) ==> p == ptr)
                && Map() == (if ptr.Some? then old(Map()) - {ptr.value} else old(Map()))[p.value := Map()[p.value]]
                && (ptr.Some? ==> SamePrefix(old(Map())[ptr.value], Map()[p.value]))
    {
      hide RawOk, Kept, Guarded, Both, Arenas.RawOf, Arenas.Valid, Disjoint, SideOk, Splice, InRange, Stray, Freed;
      var want := if newSize == 0 then 1 else newSize;
      if ptr.None? {
        p := Malloc(want);
        return p, Returned;
      }
      var slot := SlotOfPointer(ptr.value);
      if slot.None? {
        return None, UnknownPointer;
      }
      var g := Check(slot.value, ptr.value);
      if g != Intact {
        return None, Corrupt(g);
      }
      end := Returned;
      var capacity := Capacity(slot.value, ptr.value);
      if capacity >= want {
        Resize(slot.value, ptr.value, want);
        return ptr, Returned;
      }
      p := Move(slot.value, ptr.value, want);
    }

    method Move(slot: Slot, ptr: nat, want: nat) returns (p: Option<nat>)
      requires Valid() && ptr in Map() && InRange(SideOf(slot), ptr) && want >= 1
      modifies this, arenas.ff, arenas.ff.mem, arenas.bd, arenas.bd.mem, arenas.bd.heads
      ensures Valid() && (p.None? <==> old(Full(Chosen(), want)))
      ensures p.None? ==> Map() == old(Map())
      ensures p.Some? ==>
                && p.value !in old(Map()) && p.value in Map() && |Map()[p.value]| == want
                && Map() == (old(Map()) - {ptr})[p.value := Map()[p.value]]
                && SamePrefix(old(Map())[ptr], Map()[p.value])
    {
      hide RawOk, Kept, Guarded, Both, Arenas.RawOf, Arenas.Valid, Disjoint, SideOk, Splice, SamePrefix;
      ghost var m0 := Map();
      p := Malloc(want);
      if p.None? {
        return;
      }
      ghost var x := Map()[p.value];
      var oldSize := RequestedSize(slot, ptr);
      var n := if oldSize < want then oldSize else want;
      var data := Load(slot, ptr, n);
      MovedBytes(m0[ptr], x, n);
      MovedMap(m0, p.value, x, Splice(x, 0, data), ptr);
      Store(active, p.value, 0, data);
      BlockRelease(slot, ptr);
    }

    /** The size recorded in the guard. */
    method RequestedSize(slot: Slot, ptr: nat) returns (n: nat)
      requires Valid() && ptr in Map() && InRange(SideOf(slot), ptr)
      ensures Valid() && ptr in Map() && n == |Map()[ptr]|
    {
      hide RawOk, Kept, Guarded, Both, Arenas.RawOf, Arenas.Valid, Disjoint, SideOk;
      ghost var s := SideOf(slot);
      MapIsBoth(this, slot);
      Located(slot, s, SideOf(1 - slot), ptr);
      GuardedFacts(s.mem, OffAt(s, ptr), s.raw[OffAt(s, ptr)]);
      n := arenas.Mem(slot)[(ptr - bases[slot]) / CELL_BYTES - 1].lo;
    }

    /** Later allocations use the named strategy; nothing else changes. */
    method SetStrategy(name: Option<string>) returns (ok: bool)
      requires Valid()
      modifies `booted, `active
      ensures ok <==> name == Some("firstfit") || name == Some("buddy")
      ensures booted && active == if !ok then old(Chosen()) else if name == Some("buddy") then BUDDY else FIRSTFIT
      ensures Valid() && Map() == old(Map())
    {
      hide RawOk, Both, Arenas.RawOf, Arenas.Valid, Disjoint, SideOk;
      Boot();
      if name.None? {
        return false;
      }
      var i: nat := 0;
      while i < 2
        invariant i <= 2 && Valid() && Map() == old(Map())
        invariant booted && active == old(Chosen()) && forall j: Slot | j < i :: name.value != NameOf(j)
      {
        if name.value == NameOf(i) {
          active := i;
          return true;
        }
        i := i + 1;
      }
      assert name.value != NameOf(0) && name.value != NameOf(1);
      ok := false;
    }
  }

  function NameOf(slot: Slot): string { if slot == FIRSTFIT then "firstfit" else "buddy" }

  function Zeros(n: nat): (z: seq<Byte>)
    ensures |z| == n && forall b | b in z :: b == 0
  {
    seq<Byte>(n, i => 0)
  }

  function Product(count: nat, size: nat): nat { count * size }

  lemma SpliceAll(b: seq<Byte>, data: seq<Byte>)
    requires |data| == |b|
    ensures Splice(b, 0, data) == data
  {
  }

  lemma MovedBytes(b: seq<Byte>, b': seq<Byte>, n: nat)
    requires n == if |b| < |b'| then |b| else |b'|
    ensures SamePrefix(b, Splice(b', 0, b[..n]))
  {
  }

  lemma MovedMap(m: View, f: nat, x: seq<Byte>, y: seq<Byte>, ptr: nat)
    requires f != ptr
    ensures m[f := x][f := y] - {ptr} == (m - {ptr})[f := y]
  {
  }

  lemma Wraps(count: nat, size: nat)
    requires count != 0 && size > SIZE_MAX / count
    ensures Product(count, size) > SIZE_MAX
  {
    var q := SIZE_MAX / count;
    assert SIZE_MAX < count * (q + 1);
    assert count * (q + 1) <= count * size;
  }

  lemma NoWrap(count: nat, size: nat)
    requires count == 0 || size <= SIZE_MAX / count
    ensures Product(count, size) <= SIZE_MAX
  {
    if count > 0 {
      var q := SIZE_MAX / count;
      assert count * q <= SIZE_MAX;
      assert count * size <= count * q;
    }
  }

  /** The shorter of two byte strings starts the other. */
  predicate SamePrefix(b: seq<Byte>, b': seq<Byte>) {
    forall i | 0 <= i < |b| && i < |b'| :: b'[i] == b[i]
  }

  lemma BytesPrefix(mem: seq<Cell>, o: nat, n: nat)
    requires o + 1 < |mem| && Home(o) + mem[o + 1].lo <= CELL_BYTES * |mem| && Home(o) + n <= CELL_BYTES * |mem|
    ensures SamePrefix(Bytes(mem, o), Slice(mem, Home(o), n))
  {
  }

  /** The payload bytes a live block can be resized to in place. */
  ghost function Room(s: Side, ptr: nat): int {
    if OffAt(s, ptr) in s.raw then CELL_BYTES * (s.raw[OffAt(s, ptr)] - OffAt(s, ptr) - 1) - GUARD_TOTAL else 0
  }

  /** The payload's bytes are overwritten. */
  predicate Poisoned(s: Side, a: nat, n: nat) {
    && s.base <= a && a - s.base + n <= CELL_BYTES * |s.mem|
    && Slice(s.mem, a - s.base, n) == seq<Byte>(n, i => POISON_BYTE)
  }

  /** These are the sizes at which the trailing canary still lies inside the block. */
  lemma RoomFits(s: Side, ptr: nat, n: nat)
    requires OffAt(s, ptr) in s.raw
    ensures n <= Room(s, ptr) <==> Home(OffAt(s, ptr)) + n + 8 <= CELL_BYTES * s.raw[OffAt(s, ptr)]
  {
  }

  lemma OneRange(s: Side, t: Side, a: nat)
    requires Disjoint(s, t) && InRange(s, a)
    ensures !InRange(t, a)
  {
  }

  lemma GuardedFacts(mem: seq<Cell>, o: nat, e: nat)
    requires Guarded(mem, o, e)
    ensures o + 1 < e <= |mem| && mem[o + 1].lo >= 1
    ensures Home(o) + mem[o + 1].lo + GUARD_TRAILER <= CELL_BYTES * e
  {
  }

  lemma RawsOk(arenas: Arenas)
    requires arenas.Valid()
    ensures forall slot: Slot :: RawOk(arenas.RawOf(slot), |arenas.Cells(slot)|)
  {
  }

  lemma SliceNext(mem: seq<Cell>, at: nat, i: nat)
    requires at + i < CELL_BYTES * |mem|
    ensures Slice(mem, at, i + 1) == Slice(mem, at, i) + [ReadByte(mem, at + i)]
  {
    hide ReadByte;
  }

  lemma SoundIf(h: NshHeap, slot: Slot)
    requires |h.bases| == 2 && h.arenas.Valid()
    requires SideOk(h.SideOf(slot)) && SideOk(h.SideOf(1 - slot)) && Disjoint(h.SideOf(slot), h.SideOf(1 - slot))
    ensures h.Sound()
  {
    hide SideOk, Arenas.RawOf, Arenas.Valid;
  }

  lemma MapIsBoth(h: NshHeap, slot: Slot)
    requires h.Sound()
    ensures h.Map() == Both(slot, h.SideOf(slot), h.SideOf(1 - slot))
    ensures SideOk(h.SideOf(slot)) && SideOk(h.SideOf(1 - slot))
    ensures Disjoint(h.SideOf(slot), h.SideOf(1 - slot))
  {
    hide SideOk, Arenas.RawOf, Arenas.Valid, View1;
  }

  /** What a release that leaves the payload leaves in it: the mark and the poison. */
  lemma {:induction false} MarkLeft(s: Side, m1: seq<Cell>, m2: seq<Cell>, s': Side, o: nat)
    requires o in s.raw && o + 1 < s.raw[o] <= |s.mem| && |m1| == |s.mem|
    requires Home(o) + s.mem[o + 1].lo <= CELL_BYTES * s.raw[o]
    requires m1[o + 1].hi == CANARY_FREED
    requires m2 == Poke(m1, Home(o), seq<Byte>(s.mem[o + 1].lo, i => POISON_BYTE))
    requires s'.base == s.base && PayloadKept(s.raw, o, m2, s'.mem)
    ensures Freed(s', Addr(s, o)) && Poisoned(s', Addr(s, o), s.mem[o + 1].lo)
  {
    hide Poke, Slice;
    var n := s.mem[o + 1].lo;
    var poison := seq<Byte>(n, i => POISON_BYTE);
    OffOfAddr(s', o);
    PokeCell(m1, Home(o), poison, o + 1);
    SliceSame(m2, s'.mem, Home(o), n, o + 1, s.raw[o]);
    PokedSlice(m1, Home(o), poison);
  }

  lemma {:induction false} PokedSlice(mem: seq<Cell>, a: nat, data: seq<Byte>)
    requires a + |data| <= CELL_BYTES * |mem|
    ensures Slice(Poke(mem, a, data), a, |data|) == data
  {
    hide Poke, ReadByte;
    forall i | 0 <= i < |data| ensures Slice(Poke(mem, a, data), a, |data|)[i] == data[i] {
      PokeThenRead(mem, a, data, a + i);
    }
  }

  /** What is wrong with an address behind a guard. */
  lemma Blame(h: NshHeap, slot: Slot, a: nat)
    requires h.Sound() && InRange(h.SideOf(slot), a) && h.Astray(a)
    ensures Stray(h.SideOf(slot), a)
    ensures h.Complains(a, Corrupt(if Freed(h.SideOf(slot), a) then DoubleFree else Underflow))
  {
    hide InRange, SideOk, Arenas.RawOf, Arenas.Valid, Stray, Freed;
    OneArena(h, slot, a);
  }

  lemma FreedAstray(h: NshHeap, a: nat)
    requires h.Sound() && InRange(h.SideOf(FIRSTFIT), a) && Freed(h.SideOf(FIRSTFIT), a)
    ensures h.Astray(a)
  {
    hide InRange, SideOk, Arenas.RawOf, Arenas.Valid;
    OneArena(h, FIRSTFIT, a);
  }

  /** No address lies in both arenas. */
  lemma OneArena(h: NshHeap, slot: Slot, a: nat)
    requires h.Sound() && InRange(h.SideOf(slot), a)
    ensures forall i: Slot | i != slot :: !InRange(h.SideOf(i), a)
  {
    hide InRange, SideOk, Arenas.RawOf, Arenas.Valid;
    forall i: Slot | i != slot ensures !InRange(h.SideOf(i), a) {
      if slot == FIRSTFIT {
        OneRange(h.SideOf(FIRSTFIT), h.SideOf(BUDDY), a);
      } else if InRange(h.SideOf(FIRSTFIT), a) {
        OneRange(h.SideOf(FIRSTFIT), h.SideOf(BUDDY), a);
      }
    }
  }

  lemma InBounds(arenas: Arenas, slot: Slot, off: nat)
    requires arenas.Valid() && off in arenas.RawOf(slot)
    ensures off + 1 < arenas.RawOf(slot)[off] <= |arenas.Cells(slot)|
    ensures RawOk(arenas.RawOf(slot), |arenas.Cells(slot)|)
  {
  }
}
