/** Which newlines do not matter: one in place of a `;`, and any number after a
    separator, a `&`, a connective or a `)`. */
module Separators {
  import opened Tokens
  import opened Ast
  import opened Grammar

  /** Newlines may follow. */
  predicate Gap(t: Token) {
    || t.kind == Pipe || t.kind == AndIf || t.kind == OrIf || t.kind == RParen
    || t.kind == Semi || t.kind == Newline || t.kind == Amp
  }

  predicate Swap(t: Token, t': Token) { t' == t || (t.kind == Semi && t'.kind == Newline) }

  /** `ts'` is `ts` with newlines for some of its `;` and more of them after gaps; one
      such gap may lie before the first token. */
  ghost predicate Loose(ts: Toks, ts': Toks, gap: bool)
    decreases |ts'|
  {
    if ts' == [] then ts == []
    else
      || (ts != [] && Swap(ts[0], ts'[0]) && Loose(ts[1..], ts'[1..], Gap(ts[0])))
      || (gap && ts'[0].kind == Newline && Loose(ts, ts'[1..], true))
  }

  /** What was accepted still is, as the same thing. */
  ghost predicate Same<T>(r: Result<T>, r': Result<T>, gap: bool) {
    r.Ok? ==> r'.Ok? && r'.value == r.value && Loose(r.rest, r'.rest, gap)
  }

  lemma {:induction false} Wider(ts: Toks, ts': Toks)
    requires Loose(ts, ts', false)
    ensures Loose(ts, ts', true)
  {
  }

  lemma {:induction false} SepsLoose(ts: Toks, ts': Toks, gap: bool)
    requires Loose(ts, ts', gap)
    ensures Loose(SkipSeps(ts), SkipSeps(ts'), false)
    decreases |ts'|
  {
    if ts' != [] && AtSep(ts') {
      if ts != [] && Swap(ts[0], ts'[0]) && Loose(ts[1..], ts'[1..], Gap(ts[0])) {
        SepsLoose(ts[1..], ts'[1..], Gap(ts[0]));
      } else {
        SepsLoose(ts, ts'[1..], true);
      }
    }
  }

  lemma {:induction false} NlLoose(ts: Toks, ts': Toks, gap: bool)
    requires Loose(ts, ts', gap) && !AtKind(SkipNl(ts), Semi)
    ensures Loose(SkipNl(ts), SkipNl(ts'), false)
    decreases |ts'|
  {
    if AtKind(ts', Newline) {
      if ts != [] && Swap(ts[0], ts'[0]) && Loose(ts[1..], ts'[1..], Gap(ts[0])) {
        NlLoose(ts[1..], ts'[1..], Gap(ts[0]));
      } else {
        NlLoose(ts, ts'[1..], true);
      }
    }
  }

  /** Without a gap before them, both start alike. */
  lemma {:induction false} Heads(ts: Toks, ts': Toks)
    requires Loose(ts, ts', false)
    ensures ts == [] <==> ts' == []
    ensures ts != [] ==> Swap(ts[0], ts'[0]) && Loose(ts[1..], ts'[1..], Gap(ts[0]))
    ensures ts != [] && ts[0].kind == Word ==> ts'[0] == ts[0] && Loose(ts[1..], ts'[1..], false)
    ensures AtEnder(ts) == AtEnder(ts') && AtSep(ts) == AtSep(ts')
    ensures forall k: Kind | k != Semi && k != Newline :: AtKind(ts, k) == AtKind(ts', k)
  {
    hide IsKw;
    if ts != [] {
      EnderIsWord(ts[0]);
      EnderIsWord(ts'[0]);
    }
  }

  lemma EnderIsWord(t: Token)
    ensures IsEnder(t) ==> t.kind == Word
  {
  }

  lemma {:induction false} KwHeads(ts: Toks, ts': Toks, kw: string)
    requires Loose(ts, ts', false)
    ensures AtKw(ts, kw) == AtKw(ts', kw)
  {
    hide Loose;
    Heads(ts, ts');
  }

  lemma {:induction false} ExpectLoose(ts: Toks, ts': Toks, kw: string)
    requires Loose(ts, ts', false)
    ensures Same(Expect(ts, kw), Expect(ts', kw), false)
  {
    hide Loose;
    Heads(ts, ts');
    KwHeads(ts, ts', kw);
  }

  // ---- Commands, pipelines and chains -----------------------------------------------------

  lemma {:induction false} SimpleLoose(c: Command, ts: Toks, ts': Toks)
    requires Loose(ts, ts', false)
    ensures Same(SimpleLoop(c, ts), SimpleLoop(c, ts'), false)
    decreases |ts|
  {
    hide IsReserved, Loose, SetRedir;
    Heads(ts, ts');
    if ts != [] && ts[0].kind == Word {
      SimpleLoose(c.(words := c.words + [ts[0]]), ts[1..], ts'[1..]);
    } else if ts != [] && IsRedir(ts[0].kind) && |ts| > 1 && ts[1].kind == Word {
      Heads(ts[1..], ts'[1..]);
      var r := SetRedir(c, ts[0].kind, ts[1]);
      assert ts[2..] == ts[1..][1..] && ts'[2..] == ts'[1..][1..];
      if r.Some? { SimpleLoose(r.value, ts[2..], ts'[2..]); }
    }
  }

  lemma {:induction false} NoPipeAtSemi(cmds: seq<Command>, ts: Toks)
    requires AtKind(ts, Semi)
    ensures PipeLoop(cmds, ts).Fail?
  {
  }

  lemma {:induction false} PipeLoose(cmds: seq<Command>, ts: Toks, ts': Toks)
    requires Loose(ts, ts', false)
    ensures Same(PipeLoop(cmds, ts), PipeLoop(cmds, ts'), false)
    decreases |ts|
  {
    hide Loose, SimpleLoop;
    SimpleLoose(NO_COMMAND, ts, ts');
    var r, r' := SimpleLoop(NO_COMMAND, ts), SimpleLoop(NO_COMMAND, ts');
    if r.Ok? {
      Heads(r.rest, r'.rest);
      if AtKind(r.rest, Pipe) {
        var t, t' := r.rest[1..], r'.rest[1..];
        if AtKind(SkipNl(t), Semi) {
          NoPipeAtSemi(cmds + [r.value], SkipNl(t));
        } else {
          NlLoose(t, t', true);
          Heads(SkipNl(t), SkipNl(t'));
          if SkipNl(t) != [] { PipeLoose(cmds + [r.value], SkipNl(t), SkipNl(t')); }
        }
      }
    }
  }

  lemma {:induction false} LinkLoose(op: AndOrOp, ts: Toks, ts': Toks)
    requires Loose(ts, ts', false)
    ensures Same(Link(op, ts), Link(op, ts'), false)
  {
    hide Loose, PipeLoop, IsKw;
    Heads(ts, ts');
    KwHeads(ts, ts', "!");
    if AtKw(ts, "!") {
      BangIsWord(ts);
      Heads(ts[1..], ts'[1..]);
      KwHeads(ts[1..], ts'[1..], "!");
      PipeLoose([], ts[1..], ts'[1..]);
    } else {
      PipeLoose([], ts, ts');
    }
  }

  lemma BangIsWord(ts: Toks)
    requires AtKw(ts, "!")
    ensures ts[0].kind == Word
  {
  }

  lemma NoLinkAtSemi(op: AndOrOp, ts: Toks)
    requires AtKind(ts, Semi)
    ensures Link(op, ts).Fail?
  {
    hide PipeLoop;
    NoPipeAtSemi([], ts);
  }

  lemma {:induction false} AndOrLoose(items: seq<AndOrItem>, op: AndOrOp, ts: Toks, ts': Toks)
    requires Loose(ts, ts', false)
    ensures Same(AndOrLoop(items, op, ts), AndOrLoop(items, op, ts'), false)
    decreases |ts|
  {
    hide Loose, Link, AndOrLoop;
    LinkLoose(op, ts, ts');
    AndOrUnfold(items, op, ts);
    AndOrUnfold(items, op, ts');
    var r, r' := Link(op, ts), Link(op, ts');
    if r.Ok? {
      Heads(r.rest, r'.rest);
      if AtKind(r.rest, AndIf) || AtKind(r.rest, OrIf) {
        var t, t' := r.rest[1..], r'.rest[1..];
        var op2 := if AtKind(r.rest, AndIf) then And else Or;
        if AtKind(SkipNl(t), Semi) {
          NoLinkAtSemi(op2, SkipNl(t));
          AndOrUnfold(items + [r.value], op2, SkipNl(t));
        } else {
          NlLoose(t, t', true);
          Heads(SkipNl(t), SkipNl(t'));
          if SkipNl(t) != [] { AndOrLoose(items + [r.value], op2, SkipNl(t), SkipNl(t')); }
        }
      }
    }
  }

  // ---- Lists and bodies ---------------------------------------------------------------------

  lemma {:induction false} ListedLoose(ts: Toks, ts': Toks)
    requires Loose(ts, ts', false)
    ensures Same(Listed(ts), Listed(ts'), AtKind(ParseItem(ts).rest, Amp))
    decreases |ts|, 5
  {
    hide Loose, IsKw, IsEnder, ParseItem;
    ItemLoose(ts, ts');
    var r, r' := ParseItem(ts), ParseItem(ts');
    if r.Ok? { Heads(r.rest, r'.rest); }
  }

  lemma {:induction false} ListLoose(nodes: seq<Node>, ts: Toks, ts': Toks, gap: bool)
    requires Loose(ts, ts', gap)
    ensures Same(ListLoop(nodes, ts), ListLoop(nodes, ts'), false)
    decreases |ts|, 6
  {
    hide Loose, IsKw, IsEnder, Listed;
    SepsLoose(ts, ts', gap);
    var ts0, ts0' := SkipSeps(ts), SkipSeps(ts');
    Heads(ts0, ts0');
    if ts0 != [] && !AtEnder(ts0) {
      ListedLoose(ts0, ts0');
      var r, r' := Listed(ts0), Listed(ts0');
      if r.Ok? { ListLoose(nodes + [r.value], r.rest, r'.rest, AtKind(ParseItem(ts0).rest, Amp)); }
    }
  }

  lemma {:induction false} BodyLoose(ts: Toks, ts': Toks, gap: bool)
    requires Loose(ts, ts', gap)
    ensures Same(ParseBody(ts), ParseBody(ts'), false)
    decreases |ts|, 7
  {
    hide Loose, ListLoop;
    ListLoose([], ts, ts', gap);
  }

  lemma {:induction false} ClosedLoose(ts: Toks, ts': Toks, kw: string, gap: bool)
    requires Loose(ts, ts', gap)
    ensures Same(Closed(ts, kw), Closed(ts', kw), false)
    decreases |ts|, 8
  {
    hide Loose, ParseBody, IsKw;
    BodyLoose(ts, ts', gap);
    if ParseBody(ts).Ok? { ExpectLoose(ParseBody(ts).rest, ParseBody(ts').rest, kw); }
  }

  lemma NoKwAtSemi(ts: Toks, kw: string)
    requires AtKind(ts, Semi)
    ensures Expect(ts, kw).Fail?
  {
  }

  lemma {:induction false} BlockLoose(ts: Toks, ts': Toks, open: string, close: string, gap: bool)
    requires Loose(ts, ts', gap)
    ensures Same(Block(ts, open, close), Block(ts', open, close), false)
    decreases |ts|, 9
  {
    hide Loose, Closed, IsKw;
    if AtKind(SkipNl(ts), Semi) {
      NoKwAtSemi(SkipNl(ts), open);
    } else {
      NlLoose(ts, ts', gap);
      ExpectLoose(SkipNl(ts), SkipNl(ts'), open);
      var t, t' := Expect(SkipNl(ts), open), Expect(SkipNl(ts'), open);
      if t.Ok? { ClosedLoose(t.rest, t'.rest, close, false); }
    }
  }

  // ---- Compounds ------------------------------------------------------------------------------

  lemma {:induction false} ArmLoose(ts: Toks, ts': Toks)
    requires Loose(ts, ts', false)
    ensures Same(Arm(ts), Arm(ts'), false)
    decreases |ts|, 9
  {
    hide Loose, Closed, ParseBody;
    ClosedLoose(ts, ts', "then", false);
    var c, c' := Closed(ts, "then"), Closed(ts', "then");
    if c.Ok? { BodyLoose(c.rest, c'.rest, false); }
  }

  lemma KwIsWord(ts: Toks, kw: string)
    requires AtKw(ts, kw)
    ensures ts[0].kind == Word
  {
  }

  lemma {:induction false} IfEndLoose(cs: seq<Node>, bs: seq<Node>, ts: Toks, ts': Toks)
    requires Loose(ts, ts', false)
    ensures Same(IfEnd(cs, bs, ts), IfEnd(cs, bs, ts'), false)
    decreases |ts|, 9
  {
    hide Loose, Closed, IsKw;
    Heads(ts, ts');
    KwHeads(ts, ts', "else");
    if AtKw(ts, "else") {
      KwIsWord(ts, "else");
      ClosedLoose(ts[1..], ts'[1..], "fi", false);
    } else {
      ExpectLoose(ts, ts', "fi");
    }
  }

  lemma {:induction false} IfLoose(cs: seq<Node>, bs: seq<Node>, ts: Toks, ts': Toks)
    requires Loose(ts, ts', false)
    ensures Same(IfLoop(cs, bs, ts), IfLoop(cs, bs, ts'), false)
    decreases |ts|, 10
  {
    hide Loose, Arm, IfEnd, IsKw;
    ArmLoose(ts, ts');
    var a, a' := Arm(ts), Arm(ts');
    if a.Ok? {
      Heads(a.rest, a'.rest);
      KwHeads(a.rest, a'.rest, "elif");
      if AtKw(a.rest, "elif") {
        KwIsWord(a.rest, "elif");
        IfLoose(cs + [a.value.0], bs + [a.value.1], a.rest[1..], a'.rest[1..]);
      } else {
        IfEndLoose(cs + [a.value.0], bs + [a.value.1], a.rest, a'.rest);
      }
    }
  }

  lemma {:induction false} WhileLoose(ts: Toks, ts': Toks)
    requires ts != [] && ts[0].kind == Word && Loose(ts, ts', false)
    ensures ts' != [] && Same(ParseWhile(ts), ParseWhile(ts'), false)
    decreases |ts|, 3
  {
    hide Loose, Closed;
    Heads(ts, ts');
    ClosedLoose(ts[1..], ts'[1..], "do", false);
    var c, c' := Closed(ts[1..], "do"), Closed(ts'[1..], "do");
    if c.Ok? { ClosedLoose(c.rest, c'.rest, "done", false); }
  }

  lemma {:induction false} ForWordsLoose(acc: Toks, ts: Toks, ts': Toks)
    requires Loose(ts, ts', false)
    ensures ForWords(acc, ts').0 == ForWords(acc, ts).0
    ensures Loose(ForWords(acc, ts).1, ForWords(acc, ts').1, false)
    decreases |ts|
  {
    hide Loose;
    Heads(ts, ts');
    if AtKind(ts, Word) { ForWordsLoose(acc + [ts[0]], ts[1..], ts'[1..]); }
  }

  lemma {:induction false} ForTailLoose(name: string, ts: Toks, ts': Toks)
    requires Loose(ts, ts', false)
    ensures Same(ForTail(name, ts), ForTail(name, ts'), false)
    decreases |ts|, 2
  {
    hide Loose, ForWords, Block;
    ForWordsLoose([], ts, ts');
    var w, w' := ForWords([], ts).1, ForWords([], ts').1;
    Heads(w, w');
    if AtSep(w) { BlockLoose(w[1..], w'[1..], "do", "done", true); }
  }

  lemma {:induction false} ForLoose(ts: Toks, ts': Toks)
    requires ts != [] && ts[0].kind == Word && Loose(ts, ts', false)
    ensures ts' != [] && Same(ParseFor(ts), ParseFor(ts'), false)
    decreases |ts|, 3
  {
    hide Loose, ForTail, ParseFor, IsKw;
    Heads(ts, ts');
    Heads(ts[1..], ts'[1..]);
    ForUnfold(ts);
    ForUnfold(ts');
    if |ts| > 1 && NameOf(ts[1]).Some? {
      var t, t' := ts[2..], ts'[2..];
      assert t == ts[1..][1..] && t' == ts'[1..][1..];
      if AtKind(SkipNl(t), Semi) {
        NoKwAtSemi(SkipNl(t), "in");
      } else {
        NlLoose(t, t', false);
        ExpectLoose(SkipNl(t), SkipNl(t'), "in");
        var e, e' := Expect(SkipNl(t), "in"), Expect(SkipNl(t'), "in");
        if e.Ok? { ForTailLoose(NameOf(ts[1]).value, e.rest, e'.rest); }
      }
    }
  }

  lemma {:induction false} FuncLoose(ts: Toks, ts': Toks)
    requires |ts| > 1 && ts[0].kind == Word && ts[1].kind == LParen && Loose(ts, ts', false)
    ensures |ts'| > 1 && ts'[1].kind == LParen && Same(ParseFuncDef(ts), ParseFuncDef(ts'), false)
    decreases |ts|, 3
  {
    hide Loose, Block, NameOf;
    Heads(ts, ts');
    Heads(ts[1..], ts'[1..]);
    var t, t' := ts[1..][1..], ts'[1..][1..];
    assert ts[2..] == t && ts'[2..] == t';
    Heads(t, t');
    if t != [] && t[0].kind == RParen {
      assert ts[3..] == t[1..] && ts'[3..] == t'[1..];
      BlockLoose(ts[3..], ts'[3..], "{", "}", true);
    }
  }

  lemma {:induction false} ItemLoose(ts: Toks, ts': Toks)
    requires Loose(ts, ts', false)
    ensures Same(ParseItem(ts), ParseItem(ts'), false)
    decreases |ts|, 4
  {
    hide Loose, IsKw, IfLoop, ParseWhile, ParseFor, ParseFuncDef, AndOrLoop;
    Heads(ts, ts');
    KwHeads(ts, ts', "if");
    KwHeads(ts, ts', "while");
    KwHeads(ts, ts', "for");
    if AtKw(ts, "if") {
      KwIsWord(ts, "if");
      IfLoose([], [], ts[1..], ts'[1..]);
    } else if AtKw(ts, "while") {
      KwIsWord(ts, "while");
      WhileLoose(ts, ts');
    } else if AtKw(ts, "for") {
      KwIsWord(ts, "for");
      ForLoose(ts, ts');
    } else {
      if AtKind(ts, Word) { Heads(ts[1..], ts'[1..]); }
      if AtKind(ts, Word) && |ts| > 1 && ts[1].kind == LParen {
        FuncLoose(ts, ts');
      } else {
        AndOrLoose([], First, ts, ts');
      }
    }
  }

  // ---- Whole programs ---------------------------------------------------------------------------

  /** An accepted program stays the same program when newlines take the place of some
      of its `;`, and when more newlines follow separators, `&`, connectives and `)`. */
  lemma {:induction false} ProgramLoose(ts: Toks, ts': Toks)
    requires Loose(ts, ts', true) && ParseProgram(ts).Ok?
    ensures ParseProgram(ts') == Ok(ParseProgram(ts).value, [])
  {
    hide Loose, ListLoop;
    ListLoose([], ts, ts', true);
    var r, r' := ListLoop([], ts), ListLoop([], ts');
    if r.Ok? { Heads(r.rest, r'.rest); }
  }

  lemma {:induction false} LooseSelf(ts: Toks, gap: bool)
    ensures Loose(ts, ts, gap)
    decreases |ts|
  {
    if ts != [] { LooseSelf(ts[1..], Gap(ts[0])); }
  }

  lemma {:induction false} LooseSwap(ts: Toks, i: nat, t: Token, gap: bool)
    requires i < |ts| && ts[i].kind == Semi && t.kind == Newline
    ensures Loose(ts, ts[i := t], gap)
    decreases i
  {
    var ts' := ts[i := t];
    if i == 0 {
      assert ts'[1..] == ts[1..];
      LooseSelf(ts[1..], true);
    } else {
      assert ts'[1..] == ts[1..][i - 1 := t];
      LooseSwap(ts[1..], i - 1, t, Gap(ts[0]));
    }
  }

  lemma {:induction false} LooseAdd(ts: Toks, i: nat, t: Token, gap: bool)
    requires i < |ts| && Gap(ts[i]) && t.kind == Newline
    ensures Loose(ts, ts[..i + 1] + [t] + ts[i + 1..], gap)
    decreases i
  {
    var ts' := ts[..i + 1] + [t] + ts[i + 1..];
    if i == 0 {
      assert ts'[1..] == [t] + ts[1..] && ts'[1..][1..] == ts[1..];
      LooseSelf(ts[1..], true);
    } else {
      assert ts'[1..] == ts[1..][..i] + [t] + ts[1..][i..];
      LooseAdd(ts[1..], i - 1, t, Gap(ts[0]));
    }
  }

  /** Any `;` of a program can be a newline. */
  lemma SemiOrNewline(ts: Toks, i: nat)
    requires i < |ts| && ts[i].kind == Semi && ParseProgram(ts).Ok?
    ensures ParseProgram(ts[i := Op(Newline)]) == Ok(ParseProgram(ts).value, [])
  {
    hide ParseProgram, Loose;
    LooseSwap(ts, i, Op(Newline), true);
    ProgramLoose(ts, ts[i := Op(Newline)]);
  }

  /** A newline can be added after `|`, `&&`, `||`, `;`, `&`, `)` and another newline. */
  lemma NewlineAfter(ts: Toks, i: nat)
    requires i < |ts| && ts[i].kind in {Pipe, AndIf, OrIf, Semi, Amp, RParen, Newline} && ParseProgram(ts).Ok?
    ensures ParseProgram(ts[..i + 1] + [Op(Newline)] + ts[i + 1..]) == Ok(ParseProgram(ts).value, [])
  {
    hide ParseProgram, Loose;
    LooseAdd(ts, i, Op(Newline), true);
    ProgramLoose(ts, ts[..i + 1] + [Op(Newline)] + ts[i + 1..]);
  }

  lemma {:induction false} ForItem(ts: Toks)
    requires AtKw(ts, "for")
    ensures ParseItem(ts) == ParseFor(ts)
  {
    hide ParseFor;
  }

  lemma {:induction false} NlSkipped(ts: Toks)
    ensures SkipNl([Op(Newline)] + ts) == SkipNl(ts)
  {
    assert ([Op(Newline)] + ts)[1..] == ts;
  }

  /** What a `for` does with the tokens after its name. */
  lemma {:induction false} ForAfterName(f: Token, x: Token, ts: Toks)
    requires IsKw(f, "for") && NameOf(x).Some?
    ensures var e := Expect(SkipNl(ts), "in");
            ParseItem([f, x] + ts) == if e.Fail? then Fail(e.error, e.rest) else ForTail(NameOf(x).value, e.rest)
  {
    hide ForTail, NameOf, IsKw, ParseItem, ParseFor, SkipNl, Expect;
    var y := [f, x] + ts;
    assert y[0] == f && y[1] == x && y[2..] == ts;
    ForItem(y);
    ForUnfold(y);
  }

  /** And after the name in a `for`, whatever follows. */
  lemma {:induction false} NewlineAfterForName(f: Token, x: Token, ts: Toks)
    requires IsKw(f, "for") && NameOf(x).Some?
    ensures ParseItem([f, x] + ([Op(Newline)] + ts)) == ParseItem([f, x] + ts)
  {
    hide ForTail, NameOf, IsKw, ParseItem, SkipNl, Expect;
    NlSkipped(ts);
    ForAfterName(f, x, ts);
    ForAfterName(f, x, [Op(Newline)] + ts);
  }
}
