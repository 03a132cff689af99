/** What more input can and cannot change: verdicts when a newline and any
    further tokens are appended. */
module Extension {
  import opened Options
  import opened Tokens
  import opened Ast
  import opened Grammar
  import opened NormalForm
  import opened RoundTrip

  /** More input as the continuation prompt adds it: a newline first. */
  predicate NextLine(ext: Toks) { ext != [] && ext[0].kind == Newline }

  /** A result keeps its value and leaves the extension over; a syntax error stays
      one, and a newline on its own mends nothing. */
  ghost predicate Stable<T>(r: Result<T>, r': Result<T>, ext: Toks) {
    && (r.Ok? ==> r' == Ok(r.value, r.rest + ext))
    && (r.Fail? && r.error == Syntax ==> r'.Fail? && r'.error == Syntax)
    && (r.Fail? && |ext| == 1 ==> r'.Fail?)
  }

  /** As `Stable`, except where the production ran into the end of the input. */
  ghost predicate StableInside<T>(r: Result<T>, r': Result<T>, ext: Toks) {
    && (r.Ok? && r.rest != [] ==> r' == Ok(r.value, r.rest + ext))
    && (r.Fail? && r.error == Syntax ==> r'.Fail? && r'.error == Syntax)
    && (r.Fail? && |ext| == 1 ==> r'.Fail?)
    && (r.Ok? && r.rest == [] && |ext| == 1 ==> r' == r)
  }

  lemma Shift(ts: Toks, k: nat, ext: Toks)
    requires k <= |ts|
    ensures (ts + ext)[k..] == ts[k..] + ext
    ensures forall i | 0 <= i < |ts| :: (ts + ext)[i] == ts[i]
  {
  }

  lemma {:induction false} SkipNlMore(ts: Toks, ext: Toks)
    requires SkipNl(ts) != []
    ensures SkipNl(ts + ext) == SkipNl(ts) + ext
    decreases |ts|
  {
    if AtKind(ts, Newline) {
      Shift(ts, 1, ext);
      SkipNlMore(ts[1..], ext);
    }
  }

  lemma {:induction false} SkipNlAll(ts: Toks, ext: Toks)
    requires NextLine(ext) && SkipNl(ts) == []
    ensures |ext| == 1 ==> SkipNl(ts + ext) == []
    decreases |ts|
  {
    if ts == [] {
      assert ts + ext == ext;
      assert |ext| == 1 ==> ext[1..] == [];
    } else {
      Shift(ts, 1, ext);
      SkipNlAll(ts[1..], ext);
    }
  }

  lemma {:induction false} SkipSepsMore(ts: Toks, ext: Toks)
    ensures if SkipSeps(ts) != [] then SkipSeps(ts + ext) == SkipSeps(ts) + ext
            else SkipSeps(ts + ext) == SkipSeps(ext)
    decreases |ts|
  {
    if AtSep(ts) {
      Shift(ts, 1, ext);
      SkipSepsMore(ts[1..], ext);
    } else if ts == [] {
      assert ts + ext == ext;
    }
  }

  lemma ExpectMore(ts: Toks, kw: string, ext: Toks)
    requires ts != []
    ensures Stable(Expect(ts, kw), Expect(ts + ext, kw), ext)
  {
    hide IsKw;
    Shift(ts, 1, ext);
  }

  lemma {:induction false} SimpleMore(c: Command, ts: Toks, ext: Toks)
    requires NextLine(ext)
    ensures Stable(SimpleLoop(c, ts), SimpleLoop(c, ts + ext), ext)
    decreases |ts|
  {
    hide IsReserved;
    if ts == [] {
      assert ts + ext == ext;
    } else if ts[0].kind == Word {
      Shift(ts, 1, ext);
      if !(c.words == [] && IsReserved(ts[0])) {
        SimpleMore(c.(words := c.words + [ts[0]]), ts[1..], ext);
      }
    } else if IsRedir(ts[0].kind) && |ts| > 1 {
      Shift(ts, 2, ext);
      if ts[1].kind == Word && SetRedir(c, ts[0].kind, ts[1]).Some? {
        SimpleMore(SetRedir(c, ts[0].kind, ts[1]).value, ts[2..], ext);
      }
    }
  }

  lemma {:induction false} PipeMore(cmds: seq<Command>, ts: Toks, ext: Toks)
    requires NextLine(ext)
    ensures Stable(PipeLoop(cmds, ts), PipeLoop(cmds, ts + ext), ext)
    decreases |ts|
  {
    hide SimpleLoop;
    SimpleMore(NO_COMMAND, ts, ext);
    var r := SimpleLoop(NO_COMMAND, ts);
    if r.Ok? && AtKind(r.rest, Pipe) {
      Shift(r.rest, 1, ext);
      if SkipNl(r.rest[1..]) != [] {
        SkipNlMore(r.rest[1..], ext);
        PipeMore(cmds + [r.value], SkipNl(r.rest[1..]), ext);
      } else {
        SkipNlAll(r.rest[1..], ext);
      }
    }
  }

  lemma {:induction false} LinkMore(op: AndOrOp, ts: Toks, ext: Toks)
    requires NextLine(ext)
    ensures Stable(Link(op, ts), Link(op, ts + ext), ext)
  {
    hide PipeLoop, IsKw;
    NewlineNoWord(ext);
    assert ts == [] ==> ts + ext == ext;
    if !AtKw(ts, "!") {
      PipeMore([], ts, ext);
    } else {
      Shift(ts, 1, ext);
      assert |ts| == 1 ==> ts[1..] + ext == ext;
      NoPipe();
      PipeMore([], ts[1..], ext);
    }
  }

  lemma NoPipe()
    ensures PipeLoop([], []) == Fail(Syntax, [])
  {
  }

  lemma {:induction false} AndOrMore(items: seq<AndOrItem>, op: AndOrOp, ts: Toks, ext: Toks)
    requires NextLine(ext)
    ensures Stable(AndOrLoop(items, op, ts), AndOrLoop(items, op, ts + ext), ext)
    decreases |ts|
  {
    hide Link, AndOrLoop;
    LinkMore(op, ts, ext);
    AndOrUnfold(items, op, ts);
    AndOrUnfold(items, op, ts + ext);
    var r := Link(op, ts);
    if r.Ok? && r.rest == [] {
      assert r.rest + ext == ext;
    } else if r.Ok? && (AtKind(r.rest, AndIf) || AtKind(r.rest, OrIf)) {
      Shift(r.rest, 1, ext);
      if SkipNl(r.rest[1..]) != [] {
        SkipNlMore(r.rest[1..], ext);
        AndOrMore(items + [r.value], if AtKind(r.rest, AndIf) then And else Or, SkipNl(r.rest[1..]), ext);
      } else {
        SkipNlAll(r.rest[1..], ext);
      }
    }
  }

  lemma NewlineNoWord(ext: Toks)
    requires NextLine(ext)
    ensures !AtKw(ext, "!") && !AtEnder(ext)
  {
  }

  lemma {:induction false} ListedMore(ts: Toks, ext: Toks)
    requires NextLine(ext) && ts != []
    ensures Stable(Listed(ts), Listed(ts + ext), ext)
    decreases |ts|, 5
  {
    hide IsKw, IsEnder, ParseItem;
    ItemMore(ts, ext);
    var r := ParseItem(ts);
    if r.Ok? {
      NewlineNoWord(ext);
      assert r.rest == [] ==> r.rest + ext == ext;
      if r.rest != [] { Shift(r.rest, 1, ext); }
    }
  }

  lemma {:induction false} ListMore(nodes: seq<Node>, ts: Toks, ext: Toks)
    requires NextLine(ext)
    ensures StableInside(ListLoop(nodes, ts), ListLoop(nodes, ts + ext), ext)
    ensures ListLoop(nodes, ts).Ok? && ListLoop(nodes, ts).rest == [] ==>
              ListLoop(nodes, ts + ext) == ListLoop(ListLoop(nodes, ts).value, ext)
    decreases |ts|, 6
  {
    hide IsKw, IsEnder, Listed;
    SkipSepsMore(ts, ext);
    var ts0 := SkipSeps(ts);
    if ts0 == [] {
      ListFromSeps(nodes, ts + ext, ext);
    } else {
      Shift(ts0, 1, ext);
      ListFromSeps(nodes, ts + ext, ts0 + ext);
      SkipSepsAt(ts0 + ext);
      if !AtEnder(ts0) {
        ListedMore(ts0, ext);
        var r := Listed(ts0);
        if r.Ok? { ListMore(nodes + [r.value], r.rest, ext); }
      }
    }
  }

  lemma {:induction false} SkipSepsAt(ts: Toks)
    requires !AtSep(ts)
    ensures SkipSeps(ts) == ts
  {
  }

  lemma {:induction false} ListFromSeps(nodes: seq<Node>, ts: Toks, ts': Toks)
    requires SkipSeps(ts) == SkipSeps(ts')
    ensures ListLoop(nodes, ts) == ListLoop(nodes, ts')
  {
  }

  lemma {:induction false} BodyMore(ts: Toks, ext: Toks)
    requires NextLine(ext)
    ensures StableInside(ParseBody(ts), ParseBody(ts + ext), ext)
    decreases |ts|, 7
  {
    hide ListLoop;
    ListMore([], ts, ext);
  }

  lemma {:induction false} ClosedMore(ts: Toks, kw: string, ext: Toks)
    requires NextLine(ext)
    ensures Stable(Closed(ts, kw), Closed(ts + ext, kw), ext)
    decreases |ts|, 8
  {
    hide ParseBody;
    BodyMore(ts, ext);
    var r := ParseBody(ts);
    if r.Ok? && r.rest != [] { ExpectMore(r.rest, kw, ext); }
  }

  lemma {:induction false} BlockMore(ts: Toks, open: string, close: string, ext: Toks)
    requires NextLine(ext)
    ensures Stable(Block(ts, open, close), Block(ts + ext, open, close), ext)
    decreases |ts|, 9
  {
    hide Closed, IsKw;
    if SkipNl(ts) != [] {
      SkipNlMore(ts, ext);
      ExpectMore(SkipNl(ts), open, ext);
      var t := Expect(SkipNl(ts), open);
      if t.Ok? { ClosedMore(t.rest, close, ext); }
    } else {
      SkipNlAll(ts, ext);
    }
  }

  /** An arm may end at the end of the input, but what follows it may not. */
  lemma {:induction false} ArmMore(ts: Toks, ext: Toks)
    requires NextLine(ext)
    ensures StableInside(Arm(ts), Arm(ts + ext), ext)
    decreases |ts|, 9
  {
    hide Closed, ParseBody;
    ClosedMore(ts, "then", ext);
    var c := Closed(ts, "then");
    if c.Ok? { BodyMore(c.rest, ext); }
  }

  lemma {:induction false} IfEndMore(cs: seq<Node>, bs: seq<Node>, ts: Toks, ext: Toks)
    requires NextLine(ext) && ts != []
    ensures Stable(IfEnd(cs, bs, ts), IfEnd(cs, bs, ts + ext), ext)
    decreases |ts|, 9
  {
    hide Closed, IsKw;
    Shift(ts, 1, ext);
    if AtKw(ts, "else") { ClosedMore(ts[1..], "fi", ext); } else { ExpectMore(ts, "fi", ext); }
  }

  lemma {:induction false} IfAtEnd(cs: seq<Node>, bs: seq<Node>)
    ensures IfEnd(cs, bs, []) == Fail(Incomplete, [])
  {
  }

  lemma {:induction false} IfMore(cs: seq<Node>, bs: seq<Node>, ts: Toks, ext: Toks)
    requires NextLine(ext)
    ensures Stable(IfLoop(cs, bs, ts), IfLoop(cs, bs, ts + ext), ext)
    decreases |ts|, 10
  {
    hide Arm, IfEnd, IsKw;
    ArmMore(ts, ext);
    var a := Arm(ts);
    if a.Ok? && a.rest == [] {
      IfAtEnd(cs + [a.value.0], bs + [a.value.1]);
    } else if a.Ok? {
      Shift(a.rest, 1, ext);
      if AtKw(a.rest, "elif") {
        IfMore(cs + [a.value.0], bs + [a.value.1], a.rest[1..], ext);
      } else {
        IfEndMore(cs + [a.value.0], bs + [a.value.1], a.rest, ext);
      }
    }
  }

  lemma {:induction false} WhileMore(ts: Toks, ext: Toks)
    requires NextLine(ext) && ts != []
    ensures Stable(ParseWhile(ts), ParseWhile(ts + ext), ext)
    decreases |ts|, 3
  {
    hide Closed;
    Shift(ts, 1, ext);
    ClosedMore(ts[1..], "do", ext);
    var c := Closed(ts[1..], "do");
    if c.Ok? { ClosedMore(c.rest, "done", ext); }
  }

  lemma {:induction false} ForWordsMore(acc: Toks, ts: Toks, ext: Toks)
    requires NextLine(ext)
    ensures ForWords(acc, ts + ext) == (ForWords(acc, ts).0, ForWords(acc, ts).1 + ext)
    decreases |ts|
  {
    if ts == [] {
      assert ts + ext == ext;
    } else {
      Shift(ts, 1, ext);
      if AtKind(ts, Word) { ForWordsMore(acc + [ts[0]], ts[1..], ext); }
    }
  }

  lemma ForListMore(ts: Toks, ext: Toks)
    requires NextLine(ext)
    ensures Stable(ForList(ts), ForList(ts + ext), ext) || (ForList(ts) == Fail(Incomplete, []) && |ext| == 1
              && ForList(ts + ext).Ok? && ForList(ts + ext).rest == [])
  {
    hide ForWords;
    ForWordsMore([], ts, ext);
    var ts1 := ForWords([], ts).1;
    if ts1 != [] { Shift(ts1, 1, ext); } else { assert ts1 + ext == ext; }
  }

  lemma {:induction false} ForTailMore(name: string, ts: Toks, ext: Toks)
    requires NextLine(ext)
    ensures Stable(ForTail(name, ts), ForTail(name, ts + ext), ext)
    decreases |ts|, 10
  {
    hide Block, ForList;
    ForListMore(ts, ext);
    var r := ForList(ts);
    if r.Ok? {
      BlockMore(r.rest, "do", "done", ext);
    } else {
      NoBlock();
    }
  }

  lemma NoBlock()
    ensures Block([], "do", "done") == Fail(Incomplete, [])
  {
  }

  lemma {:induction false} ForMore(ts: Toks, ext: Toks)
    requires NextLine(ext) && ts != []
    ensures Stable(ParseFor(ts), ParseFor(ts + ext), ext)
    decreases |ts|, 3
  {
    hide ParseFor, IsKw, NameOf, ForTail;
    ForUnfold(ts);
    ForUnfold(ts + ext);
    NewlineNoName(ext);
    if |ts| > 1 && NameOf(ts[1]).Some? {
      Shift(ts, 2, ext);
      if SkipNl(ts[2..]) != [] {
        SkipNlMore(ts[2..], ext);
        ExpectMore(SkipNl(ts[2..]), "in", ext);
        var t := Expect(SkipNl(ts[2..]), "in");
        if t.Ok? { ForTailMore(NameOf(ts[1]).value, t.rest, ext); }
      } else {
        SkipNlAll(ts[2..], ext);
      }
    } else {
      Shift(ts, 1, ext);
    }
  }

  lemma NewlineNoName(ext: Toks)
    requires NextLine(ext)
    ensures NameOf(ext[0]).None?
  {
  }

  lemma {:induction false} FuncMore(ts: Toks, ext: Toks)
    requires NextLine(ext) && |ts| > 1
    ensures Stable(ParseFuncDef(ts), ParseFuncDef(ts + ext), ext)
    decreases |ts|, 3
  {
    hide Block, NameOf;
    if NameOf(ts[0]).Some? && |ts| > 2 {
      Shift(ts, 3, ext);
      BlockMore(ts[3..], "{", "}", ext);
    }
  }

  lemma {:induction false} ItemMore(ts: Toks, ext: Toks)
    requires NextLine(ext) && ts != []
    ensures Stable(ParseItem(ts), ParseItem(ts + ext), ext)
    decreases |ts|, 4
  {
    hide IsKw, IfLoop, ParseFor, ParseWhile, ParseFuncDef, AndOrLoop;
    Shift(ts, 1, ext);
    if AtKw(ts, "if") {
      IfMore([], [], ts[1..], ext);
    } else if AtKw(ts, "while") {
      WhileMore(ts, ext);
    } else if AtKw(ts, "for") {
      ForMore(ts, ext);
    } else if AtKind(ts, Word) && |ts| > 1 && ts[1].kind == LParen {
      FuncMore(ts, ext);
    } else {
      AndOrMore([], First, ts, ext);
    }
  }

  // ---- Whole programs -----------------------------------------------------------

  /** A syntax error stays one whatever lines follow. */
  lemma SyntaxIsFinal(ts: Toks, ext: Toks)
    requires NextLine(ext) && ProgramItems(ts).Fail? && ProgramItems(ts).error == Syntax
    ensures ProgramItems(ts + ext).Fail? && ProgramItems(ts + ext).error == Syntax
  {
    hide ListLoop;
    ListMore([], ts, ext);
  }

  /** A program that is not finished is not finished by an empty line. */
  lemma UnfinishedStays(ts: Toks, nl: Token)
    requires nl.kind == Newline && ProgramItems(ts).Fail?
    ensures ProgramItems(ts + [nl]).Fail?
  {
    hide ListLoop;
    ListMore([], ts, [nl]);
  }

  function Prepend(nodes: seq<Node>, r: Result<seq<Node>>): Result<seq<Node>> {
    if r.Ok? then Ok(nodes + r.value, r.rest) else r
  }

  /** The items read so far do not influence the rest. */
  lemma {:induction false} ListAccumulates(xs: seq<Node>, nodes: seq<Node>, ts: Toks)
    ensures ListLoop(xs + nodes, ts) == Prepend(xs, ListLoop(nodes, ts))
    decreases |ts|
  {
    hide IsEnder, Listed;
    var ts0 := SkipSeps(ts);
    if ts0 != [] && !AtEnder(ts0) {
      var r := Listed(ts0);
      if r.Ok? {
        assert xs + (nodes + [r.value]) == xs + nodes + [r.value];
        ListAccumulates(xs, nodes + [r.value], r.rest);
      }
    }
  }

  /** Parsing is compositional at a newline that follows a complete program: the
      items are those of the first part and then those of the second. */
  lemma ProgramComposes(a: Toks, nl: Token, b: Toks)
    requires nl.kind == Newline && ProgramItems(a).Ok?
    ensures ProgramItems(a + ([nl] + b)) == Prepend(ProgramItems(a).value, ProgramItems(b))
  {
    hide ListLoop;
    var xs := ProgramItems(a).value;
    ListMore([], a, [nl] + b);
    SepSkipped(xs, nl, b);
    assert xs + [] == xs;
    ListAccumulates(xs, [], b);
  }

  /** The program's tree holds exactly its items. */
  lemma TreeOfItems(ts: Toks)
    ensures ParseProgram(ts) ==
            match ProgramItems(ts)
            case Fail(e, rest) => Fail(e, rest)
            case Ok(nodes, rest) => Ok(Collapse(nodes), rest)
  {
    hide ListLoop;
  }

  predicate PlainCommand(ts: Toks) {
    |ts| > 1 && ts[0].kind == Word && !IsReserved(ts[0]) && !IsKw(ts[0], "!") && ts[1].kind != LParen
  }

  lemma {:induction false} ChainFails(ts: Toks)
    requires PlainCommand(ts) && SimpleLoop(NO_COMMAND, ts).Fail?
    ensures ParseAndOr(ts).Fail? && ParseAndOr(ts).error == SimpleLoop(NO_COMMAND, ts).error
  {
    hide SimpleLoop, IsKw, IsReserved;
    var r := SimpleLoop(NO_COMMAND, ts);
    assert PipeLoop([], ts) == Fail(r.error, r.rest);
    assert AndOrLoop([], First, ts) == Fail(r.error, r.rest);
  }

  lemma {:induction false} PlainItem(ts: Toks)
    requires PlainCommand(ts)
    ensures ParseItem(ts) == ParseAndOr(ts) && !AtEnder(ts) && SkipSeps(ts) == ts
  {
    hide ParseAndOr, ParseFor, ParseWhile, ParseIf, ParseFuncDef;
  }

  lemma {:induction false} CommandFails(ts: Toks)
    requires PlainCommand(ts) && SimpleLoop(NO_COMMAND, ts).Fail?
    ensures ProgramItems(ts).Fail? && ProgramItems(ts).error == SimpleLoop(NO_COMMAND, ts).error
  {
    hide SimpleLoop, ParseItem, ParseAndOr, IsKw, IsEnder;
    ChainFails(ts);
    PlainItem(ts);
    var r := ParseAndOr(ts);
    assert Listed(ts) == Fail(r.error, r.rest);
    assert ListLoop([], ts) == Fail(r.error, r.rest);
  }

  /** `cat < a <`: the input slot is taken when the input ends. */
  const TAKEN_SLOT: Toks := [Kw("cat"), Op(RedirIn), Kw("a"), Op(RedirIn)]

  lemma {:induction false} TakenSlot(ext: Toks)
    ensures var r := SimpleLoop(NO_COMMAND, TAKEN_SLOT + ext);
            r.Fail? && r.error == if ext == [] then Incomplete else Syntax
  {
    hide IsReserved;
    var ts := TAKEN_SLOT + ext;
    CatIsPlain();
    var c1 := NO_COMMAND.(words := [] + [Kw("cat")]);
    var c2 := c1.(redirIn := Some(Kw("a")));
    assert ts[1..][2..] == [Op(RedirIn)] + ext;
    assert SimpleLoop(NO_COMMAND, ts) == SimpleLoop(c1, ts[1..]);
    assert SimpleLoop(c1, ts[1..]) == SimpleLoop(c2, [Op(RedirIn)] + ext);
  }

  lemma CatIsPlain()
    ensures !IsReserved(Kw("cat")) && !IsKw(Kw("cat"), "!")
  {
  }

  /** Unfinished is not the same as completable: `cat < a <` is unfinished, yet
      every continuation of it is a syntax error. */
  lemma UnfinishedForGood(ext: Toks)
    ensures ProgramItems(TAKEN_SLOT + ext).Fail?
    ensures ProgramItems(TAKEN_SLOT + ext).error == if ext == [] then Incomplete else Syntax
  {
    CatIsPlain();
    TakenSlot(ext);
    CommandFails(TAKEN_SLOT + ext);
  }
}
