/** When an unfinished or rejected program can still become one: exactly when the
    parser used up every token and the last command names no redirect slot twice. */
module Completion {
  import opened Options
  import opened Tokens
  import opened Ast
  import opened Grammar
  import opened NormalForm
  import opened RoundTrip
  import opened Extension
  import opened Online

  /** Two plain words finish any command that is not doomed: a redirect's target
      and a command name. */
  const TWO_WORDS: Toks := [Kw("x"), Kw("x")]

  /** A newline and a closing keyword. */
  function Close(kw: string): Toks { [Op(Newline), Kw(kw)] }

  predicate Whole<T>(r: Result<T>) { r.Ok? && r.rest == [] }

  lemma PlainWord()
    ensures !IsReserved(Kw("x")) && !IsKw(Kw("x"), "!") && !IsEnder(Kw("x"))
  {
  }

  // ---- Commands and chains --------------------------------------------------------------

  lemma {:induction false} WordsEnd(c: Command, ws: Toks)
    requires ws == TWO_WORDS || (ws == [Kw("x")] && c.words == [])
    ensures Whole(SimpleLoop(c, ws))
  {
    PlainWord();
    WordsRead(c, ws, []);
    assert ws + [] == ws;
  }

  lemma {:induction false} SimpleEnds(c: Command, ts: Toks)
    requires SimpleLoop(c, ts).Fail? && SimpleLoop(c, ts).rest == [] && !Doom(Taken(c), false, ts)
    ensures Whole(SimpleLoop(c, ts + TWO_WORDS))
    decreases |ts|
  {
    hide IsReserved, Taken, SetRedir;
    if ts == [] {
      assert ts + TWO_WORDS == TWO_WORDS;
      WordsEnd(c, TWO_WORDS);
    } else if ts[0].kind == Word {
      Shift(ts, 1, TWO_WORDS);
      TakenWords(c, ts[0]);
      SimpleEnds(c.(words := c.words + [ts[0]]), ts[1..]);
    } else if |ts| == 1 {
      TargetEnds(c, ts);
    } else {
      Shift(ts, 2, TWO_WORDS);
      SetTaken(c, ts[0].kind, ts[1]);
      assert Doom(Taken(c), false, ts)
        == Doom(Taken(c) + {SlotOf(ts[0].kind)}, SlotOf(ts[0].kind) in Taken(c), ts[2..]);
      if SetRedir(c, ts[0].kind, ts[1]).Some? {
        SimpleEnds(SetRedir(c, ts[0].kind, ts[1]).value, ts[2..]);
      } else {
        assert false;
      }
    }
  }

  /** A dangling redirect whose slot is free. */
  lemma {:induction false} TargetEnds(c: Command, ts: Toks)
    requires |ts| == 1 && IsRedir(ts[0].kind) && !Doom(Taken(c), false, ts)
    ensures Whole(SimpleLoop(c, ts + TWO_WORDS))
  {
    hide IsReserved, Taken, SetRedir;
    DoomOne(Taken(c), ts);
    SetTaken(c, ts[0].kind, Kw("x"));
    var u, d := ts + TWO_WORDS, SetRedir(c, ts[0].kind, Kw("x")).value;
    assert u[2..] == [Kw("x")];
    assert SimpleLoop(c, u) == SimpleLoop(d, [Kw("x")]);
    PlainWord();
    WordsRead(d, [Kw("x")], []);
    assert [Kw("x")] + [] == [Kw("x")];
  }

  lemma {:induction false} PipeEnds(cmds: seq<Command>, ts: Toks)
    requires PipeLoop(cmds, ts).Fail? && PipeLoop(cmds, ts).rest == [] && !Doomed(ts)
    ensures Whole(PipeLoop(cmds, ts + TWO_WORDS))
    decreases |ts|
  {
    hide SimpleLoop, Doomed;
    FreshStart(ts);
    SimpleFirm(NO_COMMAND, ts, TWO_WORDS);
    var r := SimpleLoop(NO_COMMAND, ts);
    if r.Fail? {
      SimpleEnds(NO_COMMAND, ts);
    } else {
      Shift(r.rest, 1, TWO_WORDS);
      DoomedNext(r.rest);
      DoomedNl(r.rest[1..]);
      if SkipNl(r.rest[1..]) != [] {
        SkipNlMore(r.rest[1..], TWO_WORDS);
        PipeEnds(cmds + [r.value], SkipNl(r.rest[1..]));
      } else {
        SkipNlOver(r.rest[1..], TWO_WORDS);
        WordsEnd(NO_COMMAND, TWO_WORDS);
      }
    }
  }

  lemma {:induction false} SkipNlOver(ts: Toks, ext: Toks)
    requires SkipNl(ts) == [] && ext != [] && ext[0].kind != Newline
    ensures SkipNl(ts + ext) == ext
    decreases |ts|
  {
    if ts == [] {
      assert ts + ext == ext;
    } else {
      Shift(ts, 1, ext);
      SkipNlOver(ts[1..], ext);
    }
  }

  lemma {:induction false} PipeOfWords(cmds: seq<Command>)
    ensures Whole(PipeLoop(cmds, TWO_WORDS))
  {
    hide SimpleLoop;
    WordsEnd(NO_COMMAND, TWO_WORDS);
  }

  lemma LinkEnds(op: AndOrOp, ts: Toks)
    requires ts != [] && Link(op, ts).Fail? && Link(op, ts).rest == [] && !Doomed(ts)
    ensures Whole(Link(op, ts + TWO_WORDS))
  {
    hide PipeLoop, IsKw, Doomed;
    Shift(ts, 1, TWO_WORDS);
    PlainWord();
    if AtKw(ts, "!") {
      BangIsWord(ts);
      DoomedNext(ts);
      if |ts| == 1 {
        assert ts[1..] + TWO_WORDS == TWO_WORDS;
        PipeOfWords([]);
      } else {
        PipeEnds([], ts[1..]);
      }
    } else {
      PipeEnds([], ts);
    }
  }

  lemma {:induction false} AndOrEnds(items: seq<AndOrItem>, op: AndOrOp, ts: Toks)
    requires ts != [] && AndOrLoop(items, op, ts).Fail? && AndOrLoop(items, op, ts).rest == [] && !Doomed(ts)
    ensures Whole(AndOrLoop(items, op, ts + TWO_WORDS))
    decreases |ts|
  {
    hide Link, AndOrLoop, Doomed;
    LinkFirm(op, ts, TWO_WORDS);
    AndOrUnfold(items, op, ts);
    AndOrUnfold(items, op, ts + TWO_WORDS);
    var r := Link(op, ts);
    if r.Fail? {
      LinkEnds(op, ts);
    } else {
      Shift(r.rest, 1, TWO_WORDS);
      DoomedNext(r.rest);
      DoomedNl(r.rest[1..]);
      var op', items' := if AtKind(r.rest, AndIf) then And else Or, items + [r.value];
      if SkipNl(r.rest[1..]) != [] {
        SkipNlMore(r.rest[1..], TWO_WORDS);
        AndOrEnds(items', op', SkipNl(r.rest[1..]));
      } else {
        SkipNlOver(r.rest[1..], TWO_WORDS);
        ChainOfWords(items', op');
      }
    }
  }

  lemma {:induction false} ChainOfWords(items: seq<AndOrItem>, op: AndOrOp)
    ensures Whole(AndOrLoop(items, op, TWO_WORDS))
  {
    hide PipeLoop;
    PlainWord();
    PipeOfWords([]);
  }

  // ---- Bodies and what closes them ----------------------------------------------------------

  lemma {:induction false} ListEndsBy(nodes: seq<Node>, ts: Toks) returns (ext: Toks)
    requires ListLoop(nodes, ts).Fail? && ListLoop(nodes, ts).rest == [] && !Doomed(ts)
    ensures Whole(ListLoop(nodes, ts + ext)) && ListLoop(nodes, ts + ext).value != []
    decreases |ts|, 6
  {
    hide IsEnder, Listed, Doomed;
    DoomedSeps(ts);
    var ts0 := SkipSeps(ts);
    var r := Listed(ts0);
    if r.Fail? {
      ext := ListedEnds(ts0);
      ListOfNothing(nodes + [Listed(ts0 + ext).value]);
    } else {
      ListOfNothing(nodes + [r.value]);
      ListedFirm(ts0, []);
      ext := ListEndsBy(nodes + [r.value], r.rest);
      ListedFirm(ts0, ext);
    }
    SkipSepsMore(ts, ext);
    Shift(ts0, 1, ext);
    SkipSepsAt(ts0 + ext);
    ListFromSeps(nodes, ts + ext, ts0 + ext);
  }

  lemma {:induction false} ListedEnds(ts: Toks) returns (ext: Toks)
    requires ts != [] && !AtEnder(ts) && Listed(ts).Fail? && Listed(ts).rest == [] && !Doomed(ts)
    ensures Whole(Listed(ts + ext))
    decreases |ts|, 5
  {
    hide IsEnder, ParseItem, Doomed;
    ext := ItemEnds(ts);
  }

  /** Whether the body is missing, unfinished or complete, some tokens make it end
      with the input. */
  lemma {:induction false} BodyEnds(ts: Toks) returns (ext: Toks)
    requires ParseBody(ts).rest == [] && !Doomed(ts)
    ensures Whole(ParseBody(ts + ext))
    decreases |ts|, 7
  {
    hide ListLoop, Doomed;
    var r := ListLoop([], ts);
    if r.Fail? {
      ext := ListEndsBy([], ts);
    } else if r.value == [] {
      ext := TWO_WORDS;
      EmptyBody(ts);
    } else {
      ext := [];
      assert ts + [] == ts;
    }
  }

  lemma {:induction false} EmptyBody(ts: Toks)
    requires ListLoop([], ts) == Ok([], [])
    ensures Whole(ParseBody(ts + TWO_WORDS))
  {
    hide IsEnder, Listed, ParseItem, IsReserved, IsKw;
    NothingListed(ts);
    SkipSepsMore(ts, TWO_WORDS);
    PlainWord();
    SkipSepsAt(TWO_WORDS);
    ListFromSeps([], ts + TWO_WORDS, TWO_WORDS);
    ItemOfWords();
    ListOfNothing([Listed(TWO_WORDS).value]);
  }

  lemma {:induction false} NothingListed(ts: Toks)
    requires ListLoop([], ts) == Ok([], [])
    ensures SkipSeps(ts) == []
  {
    hide IsEnder, Listed;
    var ts0 := SkipSeps(ts);
    if ts0 != [] && !AtEnder(ts0) && Listed(ts0).Ok? { ListGrows([] + [Listed(ts0).value], Listed(ts0).rest); }
  }

  lemma {:induction false} ListGrows(nodes: seq<Node>, ts: Toks)
    ensures ListLoop(nodes, ts).Ok? ==> |ListLoop(nodes, ts).value| >= |nodes|
    decreases |ts|
  {
    hide IsEnder, Listed;
    var ts0 := SkipSeps(ts);
    if ts0 != [] && !AtEnder(ts0) && Listed(ts0).Ok? { ListGrows(nodes + [Listed(ts0).value], Listed(ts0).rest); }
  }

  lemma ItemOfWords()
    ensures Whole(Listed(TWO_WORDS)) && Whole(ParseItem(TWO_WORDS))
  {
    hide AndOrLoop, ParseFor, ParseWhile, ParseIf, ParseFuncDef, IsReserved;
    PlainWord();
    NotOpener("x");
    ChainOfWords([], First);
  }

  lemma BodyOfWords()
    ensures Whole(ParseBody(TWO_WORDS))
  {
    hide ParseBody;
    EmptyList();
    EmptyBody([]);
    assert [] + TWO_WORDS == TWO_WORDS;
  }

  lemma EmptyList()
    ensures ListLoop([], []) == Ok([], [])
  {
  }

  /** A body that ends with the input, then a newline and a closing keyword. */
  lemma {:induction false} BodyThenClose(ts: Toks, kw: string)
    requires Whole(ParseBody(ts)) && kw in {"do", "done", "then", "elif", "else", "fi", "}"}
    ensures ParseBody(ts + Close(kw)) == Ok(ParseBody(ts).value, [Kw(kw)])
    ensures Whole(Closed(ts + Close(kw), kw))
  {
    hide ListLoop, IsEnder;
    var ext := Close(kw);
    ListMore([], ts, ext);
    var nodes := ListLoop([], ts).value;
    KwBodyStop(kw, []);
    assert [Kw(kw)] + [] == [Kw(kw)] && ext == [Op(Newline)] + [Kw(kw)];
    SepSkipped(nodes, Op(Newline), [Kw(kw)]);
    ListEnds(nodes, [Kw(kw)]);
    Took(kw, []);
  }

  lemma {:induction false} ClosedEnds(ts: Toks, kw: string) returns (ext: Toks)
    requires Closed(ts, kw).Fail? && Closed(ts, kw).rest == [] && !Doomed(ts)
    requires kw in {"do", "done", "then", "elif", "else", "fi", "}"}
    ensures Whole(Closed(ts + ext, kw))
    decreases |ts|, 8
  {
    hide ParseBody, Doomed, IsKw;
    var more := BodyEnds(ts);
    BodyThenClose(ts + more, kw);
    ext := more + Close(kw);
    assert ts + ext == ts + more + Close(kw);
  }

  lemma {:induction false} ClosedOfWords(kw: string)
    requires kw in {"do", "done", "then", "elif", "else", "fi", "}"}
    ensures Whole(Closed(TWO_WORDS + Close(kw), kw))
  {
    BodyOfWords();
    BodyThenClose(TWO_WORDS, kw);
  }

  /** A whole block, from its opening keyword on. */
  function BlockOf(open: string, close: string): Toks {
    [Kw(open)] + (TWO_WORDS + Close(close))
  }

  lemma {:induction false} BlockWhole(open: string, close: string)
    requires close in {"do", "done", "then", "elif", "else", "fi", "}"}
    ensures Whole(Block(BlockOf(open, close), open, close))
  {
    hide Closed, IsKw;
    Took(open, TWO_WORDS + Close(close));
    ClosedOfWords(close);
  }

  lemma {:induction false} BlockEnds(ts: Toks, open: string, close: string) returns (ext: Toks)
    requires Block(ts, open, close).Fail? && Block(ts, open, close).rest == [] && !Doomed(ts)
    requires close in {"do", "done", "then", "elif", "else", "fi", "}"}
    ensures Whole(Block(ts + ext, open, close))
    decreases |ts|, 9
  {
    hide Closed, Expect, Doomed;
    DoomedNl(ts);
    if SkipNl(ts) == [] {
      ext := BlockOf(open, close);
      SkipNlOver(ts, ext);
      BlockWhole(open, close);
    } else {
      var t := Expect(SkipNl(ts), open);
      ExpectFirm(SkipNl(ts), open, []);
      ext := ClosedEnds(t.rest, close);
      SkipNlMore(ts, ext);
      ExpectFirm(SkipNl(ts), open, ext);
    }
  }

  lemma {:induction false} ArmEnds(ts: Toks) returns (ext: Toks)
    requires Arm(ts).rest == [] && !Doomed(ts)
    ensures Whole(Arm(ts + ext))
    decreases |ts|, 9
  {
    hide Closed, ParseBody, Doomed;
    var c := Closed(ts, "then");
    if c.Fail? {
      var more := ClosedEnds(ts, "then");
      ext := more + TWO_WORDS;
      assert ts + ext == ts + more + TWO_WORDS;
      ClosedFirm(ts + more, "then", TWO_WORDS);
      assert [] + TWO_WORDS == TWO_WORDS;
      BodyOfWords();
    } else {
      ClosedFirm(ts, "then", []);
      ext := BodyEnds(c.rest);
      ClosedFirm(ts, "then", ext);
    }
  }

  lemma {:induction false} ArmThenFi(cs: seq<Node>, bs: seq<Node>, ts: Toks)
    requires Whole(Arm(ts))
    ensures Whole(IfLoop(cs, bs, ts + Close("fi")))
  {
    hide Closed, ParseBody, IsKw;
    var c := Closed(ts, "then");
    ClosedFirm(ts, "then", Close("fi"));
    BodyThenClose(c.rest, "fi");
    FiEnds(cs + [c.value], bs + [ParseBody(c.rest).value]);
  }

  lemma {:induction false} FiEnds(cs: seq<Node>, bs: seq<Node>)
    ensures Whole(IfEnd(cs, bs, [Kw("fi")])) && !AtKw([Kw("fi")], "elif")
  {
    Took("fi", []);
    assert [Kw("fi")] + [] == [Kw("fi")];
  }

  lemma {:induction false} IfEnds(cs: seq<Node>, bs: seq<Node>, ts: Toks) returns (ext: Toks)
    requires IfLoop(cs, bs, ts).Fail? && IfLoop(cs, bs, ts).rest == [] && !Doomed(ts)
    ensures Whole(IfLoop(cs, bs, ts + ext))
    decreases |ts|, 10
  {
    hide Arm, IfEnd, IsKw, Doomed;
    var a := Arm(ts);
    if a.rest == [] {
      var more := ArmEnds(ts);
      ArmThenFi(cs, bs, ts + more);
      ext := more + Close("fi");
      assert ts + ext == ts + more + Close("fi");
    } else {
      ArmFirm(ts, []);
      var cs', bs' := cs + [a.value.0], bs + [a.value.1];
      if AtKw(a.rest, "elif") {
        WordsAreWords(a.rest, "elif");
        DoomedNext(a.rest);
        ext := IfEnds(cs', bs', a.rest[1..]);
      } else {
        ext := ElseEnds(cs', bs', a.rest);
      }
      ArmFirm(ts, ext);
      Shift(a.rest, 1, ext);
    }
  }

  lemma {:induction false} ElseEnds(cs: seq<Node>, bs: seq<Node>, ts: Toks) returns (ext: Toks)
    requires ts != [] && IfEnd(cs, bs, ts).Fail? && IfEnd(cs, bs, ts).rest == [] && !Doomed(ts)
    ensures Whole(IfEnd(cs, bs, ts + ext))
    decreases |ts|, 9
  {
    hide Closed, Expect, IsKw, Doomed;
    if AtKw(ts, "else") {
      WordsAreWords(ts, "else");
      DoomedNext(ts);
      ext := ClosedEnds(ts[1..], "fi");
      Shift(ts, 1, ext);
    } else {
      ExpectFirm(ts, "fi", []);
      ext := [];
    }
  }

  lemma {:induction false} WhileEnds(ts: Toks) returns (ext: Toks)
    requires ts != [] && ts[0].kind == Word
    requires ParseWhile(ts).Fail? && ParseWhile(ts).rest == [] && !Doomed(ts)
    ensures Whole(ParseWhile(ts + ext))
    decreases |ts|, 3
  {
    hide Closed, Doomed;
    DoomedNext(ts);
    var c := Closed(ts[1..], "do");
    if c.Fail? {
      var more := ClosedEnds(ts[1..], "do");
      var tail := TWO_WORDS + Close("done");
      ext := more + tail;
      Shift(ts, 1, ext);
      assert ts[1..] + ext == ts[1..] + more + tail;
      ClosedFirm(ts[1..] + more, "do", tail);
      assert [] + tail == tail;
      ClosedOfWords("done");
    } else {
      ClosedFirm(ts[1..], "do", []);
      ext := ClosedEnds(c.rest, "done");
      Shift(ts, 1, ext);
      ClosedFirm(ts[1..], "do", ext);
    }
  }

  lemma {:induction false} ForTailEnds(name: string, ts: Toks) returns (ext: Toks)
    requires ForTail(name, ts).Fail? && ForTail(name, ts).rest == [] && !Doomed(ts)
    ensures Whole(ForTail(name, ts + ext))
    decreases |ts|, 10
  {
    hide Block, ForList, Doomed;
    var w := ForList(ts);
    if w.Fail? {
      ext := [Op(Semi)] + BlockOf("do", "done");
      WordsThenSemi(ts, BlockOf("do", "done"));
      BlockWhole("do", "done");
    } else {
      ForListFirm(ts, []);
      ext := BlockEnds(w.rest, "do", "done");
      ForListFirm(ts, ext);
    }
  }

  lemma WordsThenSemi(ts: Toks, z: Toks)
    requires ForList(ts).Fail? && ForList(ts).rest == []
    ensures ForList(ts + ([Op(Semi)] + z)).Ok? && ForList(ts + ([Op(Semi)] + z)).rest == z
  {
    hide ForWords;
    var w := ForWords([], ts);
    WordsReadOn([], ts, [Op(Semi)] + z);
    assert ([Op(Semi)] + z)[1..] == z;
  }

  lemma {:induction false} WordsReadOn(acc: Toks, ts: Toks, z: Toks)
    requires ForWords(acc, ts).1 == [] && z != [] && z[0].kind != Word
    ensures ForWords(acc, ts + z).1 == z
    decreases |ts|
  {
    if ts == [] {
      assert ts + z == z;
    } else {
      Shift(ts, 1, z);
      WordsReadOn(acc + [ts[0]], ts[1..], z);
    }
  }

  /** A `for` from its `in` on. */
  function InOf(): Toks { [Kw("in")] + ([Op(Semi)] + BlockOf("do", "done")) }

  lemma {:induction false} InWhole(name: string)
    ensures Expect(InOf(), "in") == Ok((), [Op(Semi)] + BlockOf("do", "done"))
    ensures Whole(ForTail(name, [Op(Semi)] + BlockOf("do", "done")))
  {
    hide Block;
    var z := BlockOf("do", "done");
    Took("in", [Op(Semi)] + z);
    EmptyWords();
    WordsThenSemi([], z);
    assert [] + ([Op(Semi)] + z) == [Op(Semi)] + z;
    BlockWhole("do", "done");
  }

  lemma EmptyWords()
    ensures ForList([]) == Fail(Incomplete, [])
  {
  }

  lemma NameX()
    ensures NameOf(Kw("x")) == Some("x")
  {
  }

  lemma {:induction false} ForEnds(ts: Toks) returns (ext: Toks)
    requires ts != [] && ts[0].kind == Word
    requires ParseFor(ts).Fail? && ParseFor(ts).rest == [] && !Doomed(ts)
    ensures Whole(ParseFor(ts + ext))
    decreases |ts|, 3
  {
    hide ParseFor, NameOf, ForTail, Expect, Doomed, InOf;
    ForUnfold(ts);
    DoomedNext(ts);
    if |ts| == 1 {
      ext := [Kw("x")] + InOf();
      NameX();
      InStarts();
      assert (ts + ext)[2..] == InOf() && (ts + ext)[1] == Kw("x");
      InWhole("x");
    } else {
      NameIsWord(ts[1]);
      DoomedNext(ts[1..]);
      assert ts[1..][1..] == ts[2..];
      DoomedNl(ts[2..]);
      var s := SkipNl(ts[2..]);
      if s == [] {
        ext := InOf();
        Shift(ts, 2, ext);
        InStarts();
        SkipNlOver(ts[2..], ext);
        InWhole(NameOf(ts[1]).value);
      } else {
        ExpectFirm(s, "in", []);
        ext := ForTailEnds(NameOf(ts[1]).value, Expect(s, "in").rest);
        Shift(ts, 2, ext);
        SkipNlMore(ts[2..], ext);
        ExpectFirm(s, "in", ext);
      }
    }
    ForUnfold(ts + ext);
  }

  lemma InStarts()
    ensures InOf() != [] && InOf()[0].kind != Newline && SkipNl(InOf()) == InOf()
  {
  }

  lemma {:induction false} FuncEnds(ts: Toks) returns (ext: Toks)
    requires |ts| > 1 && ts[0].kind == Word && ts[1].kind == LParen
    requires ParseFuncDef(ts).Fail? && ParseFuncDef(ts).rest == [] && !Doomed(ts)
    ensures Whole(ParseFuncDef(ts + ext))
    decreases |ts|, 3
  {
    hide Block, NameOf, Doomed;
    DoomedNext(ts);
    DoomedNext(ts[1..]);
    assert ts[1..][1..] == ts[2..];
    if |ts| == 2 {
      ext := [Op(RParen)] + BlockOf("{", "}");
      assert (ts + ext)[3..] == BlockOf("{", "}") && (ts + ext)[2] == Op(RParen);
      BlockWhole("{", "}");
    } else {
      DoomedNext(ts[2..]);
      assert ts[2..][1..] == ts[3..];
      ext := BlockEnds(ts[3..], "{", "}");
      Shift(ts, 3, ext);
    }
  }

  lemma {:induction false} ItemEnds(ts: Toks) returns (ext: Toks)
    requires ts != [] && !AtEnder(ts) && ParseItem(ts).Fail? && ParseItem(ts).rest == [] && !Doomed(ts)
    ensures Whole(ParseItem(ts + ext))
    decreases |ts|, 4
  {
    hide IsKw, IsEnder, IfLoop, ParseFor, ParseWhile, ParseFuncDef, AndOrLoop, Doomed;
    if AtKw(ts, "if") {
      WordsAreWords(ts, "if");
      DoomedNext(ts);
      ext := IfEnds([], [], ts[1..]);
    } else if AtKw(ts, "while") {
      WordsAreWords(ts, "while");
      ext := WhileEnds(ts);
    } else if AtKw(ts, "for") {
      WordsAreWords(ts, "for");
      ext := ForEnds(ts);
    } else if AtKind(ts, Word) && |ts| > 1 && ts[1].kind == LParen {
      ext := FuncEnds(ts);
    } else {
      ext := TWO_WORDS;
      AndOrEnds([], First, ts);
    }
    Shift(ts, 1, ext);
  }

  // ---- Whole programs ---------------------------------------------------------------------

  /** Some continuation makes it a program. */
  ghost predicate Completable(ts: Toks) { exists ext: Toks :: ProgramItems(ts + ext).Ok? }

  /** A program the parser did not accept can be completed exactly when every token
      was used up and the last command names no redirect slot twice. */
  lemma CompletableIff(ts: Toks)
    requires ProgramItems(ts).Fail?
    ensures Completable(ts) <==> ProgramItems(ts).rest == [] && !Doomed(ts)
  {
    hide ListLoop, Doomed;
    if ProgramItems(ts).rest == [] && !Doomed(ts) {
      var ext := ListEndsBy([], ts);
      assert ProgramItems(ts + ext).Ok?;
    } else {
      forall ext: Toks ensures ProgramItems(ts + ext).Fail? { RejectedForGood(ts, ext); }
    }
  }

  /** So an unfinished program can be finished unless its last command is doomed. */
  lemma UnfinishedIff(ts: Toks)
    requires ProgramItems(ts).Fail? && ProgramItems(ts).error == Incomplete
    ensures Completable(ts) <==> !Doomed(ts)
  {
    hide ListLoop, Doomed;
    CompletableIff(ts);
  }

  /** `< in`: a redirect without a command is a syntax error, and yet `< in cat`
      is a program. */
  lemma RedirectAlone()
    ensures var ts := [Op(RedirIn), Kw("in")]; ProgramItems(ts) == Fail(Syntax, []) && Completable(ts)
  {
    hide ListLoop, Doomed;
    var ts := [Op(RedirIn), Kw("in")];
    AloneFails(ts);
    DoomedAlone(ts);
    CompletableIff(ts);
  }

  lemma DoomedAlone(ts: Toks)
    requires ts == [Op(RedirIn), Kw("in")]
    ensures !Doomed(ts)
  {
    assert ts[1..][1..] == [];
    var taken: set<nat> := {} + {SlotOf(RedirIn)};
    assert !Doom(taken, false, ts[1..][1..]);
    assert !Doom(taken, false, ts[1..]);
  }

  lemma {:induction false} AloneFails(ts: Toks)
    requires ts == [Op(RedirIn), Kw("in")]
    ensures ListLoop([], ts) == Fail(Syntax, [])
  {
    hide IsReserved, ParseFor, ParseWhile, ParseIf, ParseFuncDef;
    assert ts[2..] == [];
    assert SimpleLoop(NO_COMMAND, ts) == Fail(Syntax, []);
    assert PipeLoop([], ts) == Fail(Syntax, []);
    assert Link(First, ts) == Fail(Syntax, []);
    assert ParseItem(ts) == Fail(Syntax, []);
    assert SkipSeps(ts) == ts;
  }
}
