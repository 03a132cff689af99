/** The descriptors of a pipeline: the shell makes the pipes, forks the stages and
    closes its copies, while each stage wires its own ends and closes the rest.
    Parent and children step in any order. */
module Pipeline {
  /** What a descriptor refers to: an end of one of this pipeline's pipes, or
      anything else. */
  datatype File = ReadEnd(pipe: nat) | WriteEnd(pipe: nat) | Elsewhere(id: nat)

  type Table = map<nat, File>

  const CLOSED: int := -1

  /** Entry `x` of the descriptor array. */
  function EndOf(x: nat): File { if x % 2 == 0 then ReadEnd(x / 2) else WriteEnd(x / 2) }

  datatype ChildPc = DupIn | DupOut | ClosingAt(next: nat) | Running | Gone

  datatype Child = Child(table: Table, fds: seq<int>, pc: ChildPc)

  datatype ParentPc = Piping(made: nat) | Forking | Closing(next: nat) | Waiting

  /** `kids[k]` is stage `k`; `ends` remembers the descriptors the pipes got. */
  datatype State = State(
    stages: nat, start: Table, parent: Table, fds: seq<int>, pc: ParentPc, kids: seq<Child>, ghost ends: seq<nat>)

  function Slots(s: State): nat { if s.stages == 0 then 0 else 2 * (s.stages - 1) }

  function Blank(n: nat): (f: seq<int>)
    ensures |f| == n && forall i | 0 <= i < n :: f[i] == CLOSED
  {
    seq(n, i => CLOSED)
  }

  /** Descriptors 0, 1 and 2 are open, and none of the pipes exists yet. */
  ghost predicate Init(s: State) {
    && s.stages >= 1
    && (forall fd | fd in s.start :: s.start[fd].Elsewhere?) && 0 in s.start && 1 in s.start && 2 in s.start
    && s.parent == s.start && s.fds == Blank(Slots(s)) && s.pc == Piping(0) && s.kids == [] && s.ends == []
  }

  // ---- Steps ---------------------------------------------------------------------

  /** `close_fds` at one slot: close what is open there and blank the slot. */
  function CloseSlot(t: Table, fds: seq<int>, j: nat): (Table, seq<int>)
    requires j < |fds|
  {
    (if fds[j] >= 0 then t - {fds[j]} else t, fds[j := CLOSED])
  }

  /** `dup2`; a negative source leaves the target alone. */
  function Dup(t: Table, from: int, to: nat): Table {
    if from >= 0 && from in t then t[to := t[from]] else t
  }

  function InFd(fds: seq<int>, k: nat): int {
    if k == 0 || (k - 1) * 2 >= |fds| then CLOSED else fds[(k - 1) * 2]
  }

  function OutFd(fds: seq<int>, k: nat, stages: nat): int {
    if k + 1 == stages || k * 2 + 1 >= |fds| then CLOSED else fds[k * 2 + 1]
  }

  datatype Move =
    | MakePipe(r: nat, w: nat) | PipeFails | Fork | ForkFails | ParentClose
    | ChildStep(k: nat) | ChildWork(k: nat, table: Table) | ChildDies(k: nat)

  /** A running stage may close, duplicate and open what it likes, but it cannot
      conjure up a pipe end it does not hold. */
  predicate NoNewEnds(t: Table, t': Table) {
    forall fd | fd in t' :: t'[fd].Elsewhere? || t'[fd] in t.Values
  }

  function NextChild(c: Child, k: nat, stages: nat): Child {
    match c.pc
    case DupIn => c.(table := Dup(c.table, InFd(c.fds, k), 0), pc := DupOut)
    case DupOut => c.(table := Dup(c.table, OutFd(c.fds, k, stages), 1), pc := ClosingAt(0))
    case ClosingAt(j) =>
      if j < |c.fds| then
        var (t, f) := CloseSlot(c.table, c.fds, j);
        Child(t, f, ClosingAt(j + 1))
      else c.(pc := Running)
    case _ => c
  }

  ghost predicate Enabled(s: State, m: Move) {
    match m
    case MakePipe(r, w) =>
      && s.pc.Piping? && s.pc.made + 1 < s.stages && 2 * s.pc.made + 1 < |s.fds|
      && r !in s.parent && w !in s.parent && r != w
    case PipeFails => s.pc.Piping? && s.pc.made + 1 < s.stages
    case Fork => |s.kids| < s.stages && (s.pc == Forking || (s.pc.Piping? && s.pc.made + 1 == s.stages))
    case ForkFails => |s.kids| < s.stages && (s.pc == Forking || (s.pc.Piping? && s.pc.made + 1 == s.stages))
    case ParentClose => s.pc.Closing? || (s.pc == Forking && |s.kids| == s.stages)
    case ChildStep(k) => k < |s.kids| && s.kids[k].pc != Gone
    case ChildWork(k, t) => k < |s.kids| && s.kids[k].pc == Running && NoNewEnds(s.kids[k].table, t)
    case ChildDies(k) => k < |s.kids|
  }

  ghost function Next(s: State, m: Move): State
    requires Enabled(s, m)
  {
    match m
    case MakePipe(r, w) =>
      var i := s.pc.made;
      s.(parent := s.parent[r := ReadEnd(i)][w := WriteEnd(i)],
         fds := s.fds[2 * i := r][2 * i + 1 := w],
         pc := Piping(i + 1), ends := s.ends + [r, w])
    case PipeFails => s.(pc := Closing(0))
    case Fork => s.(kids := s.kids + [Child(s.parent, s.fds, DupIn)], pc := Forking)
    case ForkFails => s.(pc := Closing(0))
    case ParentClose =>
      if s.pc == Forking then s.(pc := Closing(0))
      else if s.pc.next < |s.fds| then
        var (t, f) := CloseSlot(s.parent, s.fds, s.pc.next);
        s.(parent := t, fds := f, pc := Closing(s.pc.next + 1))
      else s.(pc := Waiting)
    case ChildStep(k) => s.(kids := s.kids[k := NextChild(s.kids[k], k, s.stages)])
    case ChildWork(k, t) => s.(kids := s.kids[k := s.kids[k].(table := t)])
    case ChildDies(k) => s.(kids := s.kids[k := s.kids[k].(table := map[], pc := Gone)])
  }

  // ---- What every run keeps ---------------------------------------------------------

  /** `base` and the pipe ends from slot `j` on. */
  function Held(base: Table, ends: seq<nat>, j: nat): Table
    decreases |ends| - j
  {
    if j >= |ends| then base else Held(base, ends, j + 1)[ends[j] := EndOf(j)]
  }

  /** The array with its first `j` slots blanked, padded to `n` slots. */
  predicate Blanked(fds: seq<int>, ends: seq<nat>, j: nat, n: nat) {
    && |fds| == n && |ends| <= n
    && forall x | 0 <= x < n :: fds[x] == if j <= x < |ends| then ends[x] else CLOSED
  }

  /** The pipe descriptors are new and all different. */
  predicate NewEnds(start: Table, ends: seq<nat>) {
    && (forall x | 0 <= x < |ends| :: ends[x] !in start)
    && (forall x, y | 0 <= x < y < |ends| :: ends[x] != ends[y])
  }

  /** A stage's table once it is wired: its own two ends over the inherited ones. */
  function Wired(start: Table, k: nat, stages: nat, out: bool): Table {
    var t := if k > 0 then start[0 := ReadEnd(k - 1)] else start;
    if out && k + 1 < stages then t[1 := WriteEnd(k)] else t
  }

  /** Only this stage's own standard input and output. */
  predicate OwnEnd(f: File, k: nat, stages: nat) {
    || f.Elsewhere?
    || (k > 0 && f == ReadEnd(k - 1))
    || (k + 1 < stages && f == WriteEnd(k))
  }

  predicate OnlyOwnEnds(t: Table, k: nat, stages: nat) {
    forall fd | fd in t :: OwnEnd(t[fd], k, stages)
  }

  ghost predicate ChildOk(s: State, k: nat)
    requires k < |s.kids|
  {
    var c := s.kids[k];
    match c.pc
    case DupIn => c.table == Held(s.start, s.ends, 0) && Blanked(c.fds, s.ends, 0, Slots(s))
    case DupOut =>
      c.table == Held(Wired(s.start, k, s.stages, false), s.ends, 0) && Blanked(c.fds, s.ends, 0, Slots(s))
    case ClosingAt(j) =>
      && j <= Slots(s) && Blanked(c.fds, s.ends, j, Slots(s))
      && c.table == Held(Wired(s.start, k, s.stages, true), s.ends, j)
    case Running => OnlyOwnEnds(c.table, k, s.stages)
    case Gone => c.table == map[]
  }

  ghost predicate ParentOk(s: State) {
    match s.pc
    case Piping(i) =>
      && i + 1 <= s.stages && |s.ends| == 2 * i && s.kids == []
      && s.parent == Held(s.start, s.ends, 0) && Blanked(s.fds, s.ends, 0, Slots(s))
    case Forking => s.parent == Held(s.start, s.ends, 0) && Blanked(s.fds, s.ends, 0, Slots(s))
    case Closing(j) => j <= Slots(s) && s.parent == Held(s.start, s.ends, j) && Blanked(s.fds, s.ends, j, Slots(s))
    case Waiting => s.parent == s.start && Blanked(s.fds, [], 0, Slots(s))
  }

  ghost predicate Inv(s: State) {
    && s.stages >= 1 && 0 in s.start && 1 in s.start && 2 in s.start
    && (forall fd | fd in s.start :: s.start[fd].Elsewhere?)
    && NewEnds(s.start, s.ends) && |s.ends| <= Slots(s) && |s.kids| <= s.stages
    && (s.kids != [] ==> |s.ends| == Slots(s))
    && (s.pc == Forking ==> |s.ends| == Slots(s))
    && ParentOk(s)
    && forall k | 0 <= k < |s.kids| :: ChildOk(s, k)
  }

  lemma {:induction false} HeldHas(base: Table, ends: seq<nat>, j: nat, fd: nat)
    ensures fd in Held(base, ends, j) <==> fd in base || (exists x :: j <= x < |ends| && ends[x] == fd)
    decreases |ends| - j
  {
    if j < |ends| { HeldHas(base, ends, j + 1, fd); }
  }

  lemma {:induction false} HeldAt(base: Table, ends: seq<nat>, j: nat, x: nat)
    requires NewEnds(base, ends) && j <= x < |ends|
    ensures ends[x] in Held(base, ends, j) && Held(base, ends, j)[ends[x]] == EndOf(x)
    decreases |ends| - j
  {
    if j < x { HeldAt(base, ends, j + 1, x); }
  }

  lemma {:induction false} HeldBase(base: Table, ends: seq<nat>, j: nat, fd: nat)
    requires fd in base && fd !in ends
    ensures fd in Held(base, ends, j) && Held(base, ends, j)[fd] == base[fd]
    decreases |ends| - j
  {
    if j < |ends| {
      assert ends[j] in ends;
      HeldBase(base, ends, j + 1, fd);
    }
  }

  lemma HeldClose(base: Table, ends: seq<nat>, j: nat)
    requires NewEnds(base, ends) && j < |ends|
    ensures Held(base, ends, j) - {ends[j]} == Held(base, ends, j + 1)
  {
    HeldHas(base, ends, j + 1, ends[j]);
  }

  lemma {:induction false} HeldDup(base: Table, ends: seq<nat>, j: nat, fd: nat, f: File)
    requires fd !in ends
    ensures Held(base, ends, j)[fd := f] == Held(base[fd := f], ends, j)
    decreases |ends| - j
  {
    if j < |ends| {
      assert ends[j] in ends;
      HeldDup(base, ends, j + 1, fd, f);
    }
  }

  lemma {:induction false} HeldMore(base: Table, ends: seq<nat>, j: nat, r: nat, w: nat)
    requires j <= |ends| && r !in ends && w !in ends && r != w && |ends| % 2 == 0
    ensures Held(base, ends + [r, w], j) == Held(base, ends, j)[r := ReadEnd(|ends| / 2)][w := WriteEnd(|ends| / 2)]
    decreases |ends| - j
  {
    var more := ends + [r, w];
    if j < |ends| {
      assert more[j] == ends[j] && ends[j] in ends;
      HeldMore(base, ends, j + 1, r, w);
    } else {
      assert Held(base, more, j + 2) == base;
      assert Held(base, more, j + 1) == base[w := EndOf(j + 1)];
      assert base[w := EndOf(j + 1)][r := EndOf(j)] == base[r := EndOf(j)][w := EndOf(j + 1)];
    }
  }

  lemma {:induction false} HeldNone(base: Table, ends: seq<nat>)
    ensures Held(base, ends, |ends|) == base
  {
  }

  /** Closing past the last pipe does nothing. */
  lemma CloseSlotOk(base: Table, ends: seq<nat>, fds: seq<int>, j: nat, n: nat)
    requires NewEnds(base, ends) && Blanked(fds, ends, j, n) && j < n
    ensures CloseSlot(Held(base, ends, j), fds, j).0 == Held(base, ends, j + 1)
    ensures Blanked(CloseSlot(Held(base, ends, j), fds, j).1, ends, j + 1, n)
  {
    if j < |ends| { HeldClose(base, ends, j); }
  }

  // ---- Each step --------------------------------------------------------------------

  lemma PipeKeeps(s: State, r: nat, w: nat)
    requires Inv(s) && Enabled(s, MakePipe(r, w))
    ensures Inv(Next(s, MakePipe(r, w)))
  {
    hide Held;
    var s' := Next(s, MakePipe(r, w));
    HeldHas(s.start, s.ends, 0, r);
    HeldHas(s.start, s.ends, 0, w);
    assert r !in s.ends && w !in s.ends;
    HeldMore(s.start, s.ends, 0, r, w);
    assert NewEnds(s.start, s'.ends);
  }

  lemma StdNotEnd(s: State, fd: nat)
    requires Inv(s) && fd <= 2
    ensures fd !in s.ends && fd in s.start
  {
  }

  lemma DupInKeeps(s: State, k: nat)
    requires Inv(s) && k < |s.kids| && s.kids[k].pc == DupIn
    ensures ChildOk(s.(kids := s.kids[k := NextChild(s.kids[k], k, s.stages)]), k)
  {
    hide Held;
    assert ChildOk(s, k);
    if k > 0 {
      HeldAt(s.start, s.ends, 0, (k - 1) * 2);
      StdNotEnd(s, 0);
      HeldDup(s.start, s.ends, 0, 0, ReadEnd(k - 1));
    }
  }

  lemma WiredNew(s: State, k: nat, out: bool)
    requires Inv(s)
    ensures NewEnds(Wired(s.start, k, s.stages, out), s.ends)
  {
  }

  lemma DupOutKeeps(s: State, k: nat)
    requires Inv(s) && k < |s.kids| && s.kids[k].pc == DupOut
    ensures ChildOk(s.(kids := s.kids[k := NextChild(s.kids[k], k, s.stages)]), k)
  {
    hide Held;
    assert ChildOk(s, k);
    if k + 1 < s.stages {
      WiredNew(s, k, false);
      HeldAt(Wired(s.start, k, s.stages, false), s.ends, 0, k * 2 + 1);
      StdNotEnd(s, 1);
      HeldDup(Wired(s.start, k, s.stages, false), s.ends, 0, 1, WriteEnd(k));
    }
  }

  lemma ClosingKeeps(s: State, k: nat)
    requires Inv(s) && k < |s.kids| && s.kids[k].pc.ClosingAt?
    ensures ChildOk(s.(kids := s.kids[k := NextChild(s.kids[k], k, s.stages)]), k)
  {
    hide Held;
    assert ChildOk(s, k);
    var c := s.kids[k];
    var base := Wired(s.start, k, s.stages, true);
    WiredNew(s, k, true);
    if c.pc.next < |c.fds| {
      CloseSlotOk(base, s.ends, c.fds, c.pc.next, Slots(s));
    } else {
      HeldNone(base, s.ends);
    }
  }

  lemma KidsKeep(s: State, k: nat, c: Child)
    requires Inv(s) && k < |s.kids| && ChildOk(s.(kids := s.kids[k := c]), k)
    ensures Inv(s.(kids := s.kids[k := c]))
  {
    hide Held, Blanked, NewEnds;
    var s' := s.(kids := s.kids[k := c]);
    assert ParentOk(s);
    forall x | 0 <= x < |s'.kids| ensures ChildOk(s', x) { assert x != k ==> ChildOk(s, x); }
  }

  lemma ChildKeeps(s: State, m: Move)
    requires Inv(s) && Enabled(s, m) && (m.ChildStep? || m.ChildWork? || m.ChildDies?)
    ensures Inv(Next(s, m))
  {
    hide Held, Blanked, NewEnds;
    var k := m.k;
    assert ChildOk(s, k);
    if m.ChildStep? {
      match s.kids[k].pc {
        case DupIn => DupInKeeps(s, k);
        case DupOut => DupOutKeeps(s, k);
        case ClosingAt(_) => ClosingKeeps(s, k);
        case Running => assert s.kids[k := s.kids[k]] == s.kids;
      }
    }
    KidsKeep(s, k, Next(s, m).kids[k]);
  }

  lemma ParentKeeps(s: State, m: Move)
    requires Inv(s) && Enabled(s, m) && (m.PipeFails? || m.Fork? || m.ForkFails? || m.ParentClose?)
    ensures Inv(Next(s, m))
  {
    hide Held;
    var s' := Next(s, m);
    forall k | 0 <= k < |s.kids| ensures ChildOk(s', k) { assert ChildOk(s, k); }
    if m.ParentClose? && s.pc.Closing? {
      if s.pc.next < |s.fds| {
        CloseSlotOk(s.start, s.ends, s.fds, s.pc.next, Slots(s));
      } else {
        HeldPast(s.start, s.ends, s.pc.next);
      }
    }
  }

  lemma {:induction false} HeldPast(base: Table, ends: seq<nat>, j: nat)
    requires j >= |ends|
    ensures Held(base, ends, j) == base
  {
  }

  lemma StepKeeps(s: State, m: Move)
    requires Inv(s) && Enabled(s, m)
    ensures Inv(Next(s, m))
  {
    hide Inv, Next, Enabled;
    match m
    case MakePipe(r, w) => PipeKeeps(s, r, w);
    case ChildStep(_) => ChildKeeps(s, m);
    case ChildWork(_, _) => ChildKeeps(s, m);
    case ChildDies(_) => ChildKeeps(s, m);
    case _ => ParentKeeps(s, m);
  }

  /** Nobody is ever stuck: the shell can make the next pipe, from any two unused
      descriptors, or fork the next stage, each of which may also fail, and after that
      close what is left; and every stage can take its own next step or die. */
  lemma NeverStuck(s: State)
    requires Inv(s)
    ensures s.pc.Piping? && s.pc.made < s.stages - 1 ==>
              Enabled(s, PipeFails)
              && forall r, w | r !in s.parent && w !in s.parent && r != w :: Enabled(s, MakePipe(r, w))
    ensures (s.pc.Piping? && s.pc.made == s.stages - 1) || (s.pc.Forking? && |s.kids| < s.stages) ==>
              Enabled(s, Fork) && Enabled(s, ForkFails)
    ensures (s.pc.Forking? && |s.kids| == s.stages) || s.pc.Closing? ==> Enabled(s, ParentClose)
    ensures s.pc.Piping? ==> s.pc.made < s.stages
    ensures |s.kids| <= s.stages
    ensures forall k: nat | k < |s.kids| && s.kids[k].pc != Gone ::
              Enabled(s, ChildStep(k)) && Enabled(s, ChildDies(k))
  {
    hide Held;
    assert ParentOk(s);
  }

  // ---- Whole runs -----------------------------------------------------------------------

  /** `ms` leads from `s` to `s'`, in that order of steps. */
  ghost predicate Runs(s: State, ms: seq<Move>, s': State)
    decreases |ms|
  {
    if ms == [] then s' == s else Enabled(s, ms[0]) && Runs(Next(s, ms[0]), ms[1..], s')
  }

  lemma InitInv(s: State)
    requires Init(s)
    ensures Inv(s)
  {
  }

  lemma {:induction false} RunKeeps(s: State, ms: seq<Move>, s': State)
    requires Inv(s) && Runs(s, ms, s')
    ensures Inv(s')
    decreases |ms|
  {
    hide Inv, Next, Enabled;
    if ms != [] {
      StepKeeps(s, ms[0]);
      RunKeeps(Next(s, ms[0]), ms[1..], s');
    }
  }

  ghost predicate Reachable(s0: State, ms: seq<Move>, s: State) { Init(s0) && Runs(s0, ms, s) }

  /** Whatever the interleaving, a stage past its closing loop holds no pipe end
      but its own standard input and output. */
  lemma StageHoldsOwnEnds(s0: State, ms: seq<Move>, s: State, k: nat)
    requires Reachable(s0, ms, s) && k < |s.kids| && s.kids[k].pc == Running
    ensures forall fd | fd in s.kids[k].table ::
              var f := s.kids[k].table[fd];
              f.Elsewhere? || (k > 0 && f == ReadEnd(k - 1)) || (k < s.stages - 1 && f == WriteEnd(k))
  {
    hide Held, Blanked;
    InitInv(s0);
    RunKeeps(s0, ms, s);
    assert ChildOk(s, k);
  }

  /** Stage `k` reads from the pipe before it and writes to the one after it. The first
      stage reads, and the last one writes, where the shell does, and nothing else
      differs from the shell. */
  predicate Connected(t: Table, start: Table, k: nat, stages: nat) {
    && t.Keys == start.Keys && 0 in t && 1 in t
    && (if k == 0 then t[0] == start[0] else t[0] == ReadEnd(k - 1))
    && (if k == stages - 1 then t[1] == start[1] else t[1] == WriteEnd(k))
    && forall fd | fd in t && fd > 1 :: t[fd] == start[fd]
  }

  /** That is so at the moment a stage leaves its closing loop, whatever the
      interleaving. */
  lemma StageWired(s0: State, ms: seq<Move>, s: State, k: nat)
    requires Reachable(s0, ms, s) && k < |s.kids| && s.kids[k].pc == ClosingAt(Slots(s))
    ensures Connected(s.kids[k].table, s0.start, k, s0.stages)
    ensures forall j | 0 <= j < |s.kids[k].fds| :: s.kids[k].fds[j] < 0
  {
    InitInv(s0);
    RunKeeps(s0, ms, s);
    StartKept(s0, ms, s);
    assert ChildOk(s, k);
    HeldPast(Wired(s.start, k, s.stages, true), s.ends, Slots(s));
  }

  ghost predicate Settled(s: State) {
    s.pc == Waiting && forall k | 0 <= k < |s.kids| :: s.kids[k].pc == Running || s.kids[k].pc == Gone
  }

  /** Once the shell and every stage have closed, the write end of pipe `i` is open
      in stage `i` at most and nowhere else, the read end in stage `i + 1` at most,
      and the shell is back to the descriptors it started with. */
  lemma WriteEndsClosed(s0: State, ms: seq<Move>, s: State)
    requires Reachable(s0, ms, s) && Settled(s)
    ensures s.parent == s0.start == s.start
    ensures forall k, fd, i: nat | 0 <= k < |s.kids| && fd in s.kids[k].table ::
              && (s.kids[k].table[fd] == WriteEnd(i) ==> k == i)
              && (s.kids[k].table[fd] == ReadEnd(i) ==> k == i + 1)
  {
    hide Held, Blanked;
    InitInv(s0);
    RunKeeps(s0, ms, s);
    StartKept(s0, ms, s);
    forall k, fd, i: nat | 0 <= k < |s.kids| && fd in s.kids[k].table
      ensures s.kids[k].table[fd] == WriteEnd(i) ==> k == i
      ensures s.kids[k].table[fd] == ReadEnd(i) ==> k == i + 1
    {
      assert ChildOk(s, k);
    }
  }

  lemma {:induction false} StartKept(s: State, ms: seq<Move>, s': State)
    requires Runs(s, ms, s')
    ensures s'.start == s.start && s'.stages == s.stages
    decreases |ms|
  {
    if ms != [] { StartKept(Next(s, ms[0]), ms[1..], s'); }
  }

  /** So a reader sees the end of its input as soon as the stage before it is gone. */
  lemma ReaderSeesEnd(s0: State, ms: seq<Move>, s: State, i: nat)
    requires Reachable(s0, ms, s) && Settled(s) && i < |s.kids| && s.kids[i].pc == Gone
    ensures WriteEnd(i) !in s.parent.Values
    ensures forall k | 0 <= k < |s.kids| :: WriteEnd(i) !in s.kids[k].table.Values
  {
    hide Held, Blanked;
    WriteEndsClosed(s0, ms, s);
    InitInv(s0);
    RunKeeps(s0, ms, s);
    assert ChildOk(s, i);
    forall k | 0 <= k < |s.kids| ensures WriteEnd(i) !in s.kids[k].table.Values {
      if WriteEnd(i) in s.kids[k].table.Values {
        var fd :| fd in s.kids[k].table && s.kids[k].table[fd] == WriteEnd(i);
      }
    }
  }

  // ---- One process, as its code runs ------------------------------------------------------

  class Process {
    var table: Table
    /** The read end of each pipe, followed by its write end; CLOSED once given up. */
    const fds: array<int>

    constructor (t: Table, slots: array<int>)
      ensures table == t && fds == slots
    {
      table, fds := t, slots;
    }

    method CloseFds(ghost base: Table, ghost ends: seq<nat>)
      requires NewEnds(base, ends) && Blanked(fds[..], ends, 0, fds.Length) && table == Held(base, ends, 0)
      modifies this, fds
      ensures table == base && fds[..] == Blank(fds.Length)
    {
      hide Held, NewEnds;
      var i := 0;
      while i < fds.Length
        invariant i <= fds.Length && Blanked(fds[..], ends, i, fds.Length) && table == Held(base, ends, i)
      {
        CloseSlotOk(base, ends, fds[..], i, fds.Length);
        if fds[i] >= 0 { table := table - {fds[i]}; }
        fds[i] := CLOSED;
        i := i + 1;
      }
      HeldPast(base, ends, i);
    }

    /** A stage wires its two ends and closes every spare copy. A `dup2` that fails
        ends the process, and with it every descriptor it had. */
    method RunStage(inFd: int, outFd: int, inOk: bool, outOk: bool, ghost s: State, ghost k: nat) returns (alive: bool)
      requires Inv(s) && k < s.stages && |s.ends| == Slots(s) == fds.Length
      requires table == Held(s.start, s.ends, 0) && Blanked(fds[..], s.ends, 0, fds.Length)
      requires inFd == InFd(fds[..], k) && outFd == OutFd(fds[..], k, s.stages)
      modifies this, fds
      ensures alive <==> (inFd >= 0 ==> inOk) && (outFd >= 0 ==> outOk)
      ensures alive ==> Connected(table, s.start, k, s.stages) && fds[..] == Blank(fds.Length)
      ensures !alive ==> table == map[]
    {
      hide Held, Inv, NewEnds;
      InvEnds(s, k);
      if inFd >= 0 {
        if !inOk {
          table := map[];
          return false;
        }
        HeldAt(s.start, s.ends, 0, (k - 1) * 2);
        HeldDup(s.start, s.ends, 0, 0, ReadEnd(k - 1));
        table := Dup(table, inFd, 0);
      }
      if outFd >= 0 {
        if !outOk {
          table := map[];
          return false;
        }
        HeldAt(Wired(s.start, k, s.stages, false), s.ends, 0, k * 2 + 1);
        HeldDup(Wired(s.start, k, s.stages, false), s.ends, 0, 1, WriteEnd(k));
        table := Dup(table, outFd, 1);
      }
      CloseFds(Wired(s.start, k, s.stages, true), s.ends);
      alive := true;
    }
  }

  lemma InvEnds(s: State, k: nat)
    requires Inv(s) && k < s.stages
    ensures Connected(Wired(s.start, k, s.stages, true), s.start, k, s.stages)
    ensures NewEnds(s.start, s.ends) && 0 !in s.ends && 1 !in s.ends
    ensures NewEnds(Wired(s.start, k, s.stages, false), s.ends) && NewEnds(Wired(s.start, k, s.stages, true), s.ends)
  {
    StdNotEnd(s, 0);
    StdNotEnd(s, 1);
    WiredNew(s, k, false);
    WiredNew(s, k, true);
  }
}
