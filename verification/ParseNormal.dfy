/** Whatever the parser accepts is a tree in normal form. */
module ParseNormal {
  import opened Options
  import opened Tokens
  import opened Ast
  import opened Grammar
  import opened NormalForm
  import opened RoundTrip

  /** A stage under construction. */
  predicate Growing(c: Command) {
    && (c.words != [] ==> !IsReserved(c.words[0]))
    && (forall i | 0 <= i < |c.words| :: WordTok(c.words[i]))
    && WordSlot(c.redirIn) && WordSlot(c.redirOut) && WordSlot(c.redirErr)
    && (c.redirAppend ==> c.redirOut.Some?)
  }

  /** The parser has already ruled out a leading `!`. */
  predicate NoBang(c: Command, ts: Toks) {
    && (BangName(c) ==> HasRedir(c))
    && (c.words == [] && !HasRedir(c) ==> !AtKw(ts, "!"))
  }

  lemma {:induction false} SimpleNormal(c: Command, first: bool, ts: Toks)
    requires Growing(c) && (first ==> NoBang(c, ts)) && SimpleLoop(c, ts).Ok?
    ensures NormalCmd(SimpleLoop(c, ts).value, first)
    decreases |ts|
  {
    hide IsReserved, IsKw;
    if ts != [] {
      if ts[0].kind == Word {
        SimpleNormal(c.(words := c.words + [ts[0]]), first, ts[1..]);
      } else if IsRedir(ts[0].kind) {
        SimpleNormal(SetRedir(c, ts[0].kind, ts[1]).value, first, ts[2..]);
      }
    }
  }

  lemma {:induction false} PipeNormal(cmds: seq<Command>, ts: Toks)
    requires cmds != [] ==> NormalCmds(cmds)
    requires cmds == [] ==> !AtKw(ts, "!")
    requires PipeLoop(cmds, ts).Ok?
    ensures NormalCmds(PipeLoop(cmds, ts).value)
    decreases |ts|
  {
    hide NormalCmd, IsReserved, IsKw, SimpleLoop;
    SimpleNormal(NO_COMMAND, cmds == [], ts);
    var r := SimpleLoop(NO_COMMAND, ts);
    assert NormalCmds(cmds + [r.value]);
    if AtKind(r.rest, Pipe) {
      PipeNormal(cmds + [r.value], SkipNl(r.rest[1..]));
    }
  }

  lemma {:induction false} ChainNormal(items: seq<AndOrItem>, op: AndOrOp, ts: Toks)
    requires NormalAndOr(items) && (op == First <==> items == []) && AndOrLoop(items, op, ts).Ok?
    ensures NormalAndOr(AndOrLoop(items, op, ts).value)
    decreases |ts|
  {
    hide NormalLink, Link;
    LinkNormal(op, ts);
    var r := Link(op, ts);
    if AtKind(r.rest, AndIf) || AtKind(r.rest, OrIf) {
      ChainNormal(items + [r.value], if AtKind(r.rest, AndIf) then And else Or, SkipNl(r.rest[1..]));
    }
  }

  lemma LinkNormal(op: AndOrOp, ts: Toks)
    requires Link(op, ts).Ok?
    ensures NormalLink(Link(op, ts).value, op == First)
  {
    hide NormalCmds, IsKw, PipeLoop;
    PipeNormal([], if AtKw(ts, "!") then ts[1..] else ts);
  }

  lemma AndOrNormal(ts: Toks)
    requires ParseAndOr(ts).Ok?
    ensures NormalItem(ParseAndOr(ts).value)
  {
    hide NormalCmds, AndOrLoop;
    ChainNormal([], First, ts);
    var items := AndOrLoop([], First, ts).value;
    assert NormalLink(items[0], true);
  }

  lemma {:induction false} ListNormal(nodes: seq<Node>, ts: Toks)
    requires NormalItems(nodes) && ListLoop(nodes, ts).Ok?
    ensures NormalItems(ListLoop(nodes, ts).value)
    decreases |ts|, 6
  {
    hide IsEnder, Listed, NormalItem;
    var ts0 := SkipSeps(ts);
    if ts0 != [] && !AtEnder(ts0) {
      ListedNormal(ts0);
      ListNormal(nodes + [Listed(ts0).value], Listed(ts0).rest);
    }
  }

  lemma {:induction false} ListedNormal(ts: Toks)
    requires !AtEnder(ts) && Listed(ts).Ok?
    ensures NormalItem(Listed(ts).value)
    decreases |ts|, 5
  {
    hide IsEnder, ParseItem, NormalItem;
    ItemNormal(ts);
    var r := ParseItem(ts);
    if AtKind(r.rest, Amp) { BackgroundNormal(r.value); }
  }

  lemma {:induction false} BackgroundNormal(n: Node)
    requires NormalItem(n) && n.Pipeline?
    ensures NormalItem(n.(background := true))
  {
  }

  lemma {:induction false} BodyNormal(ts: Toks)
    requires ParseBody(ts).Ok?
    ensures NormalBody(ParseBody(ts).value)
    decreases |ts|, 7
  {
    hide ListLoop, NormalItem;
    ListNormal([], ts);
    var nodes := ListLoop([], ts).value;
    if |nodes| == 1 { assert NormalItem(nodes[0]); ListFree(nodes[0]); }
  }

  lemma {:induction false} ListFree(n: Node)
    requires NormalItem(n)
    ensures !n.List?
  {
  }

  lemma {:induction false} ClosedNormal(ts: Toks, kw: string)
    requires Closed(ts, kw).Ok?
    ensures NormalBody(Closed(ts, kw).value)
    decreases |ts|, 8
  {
    hide ParseBody, NormalBody, IsKw;
    BodyNormal(ts);
  }

  lemma {:induction false} BlockNormal(ts: Toks, open: string, close: string)
    requires Block(ts, open, close).Ok?
    ensures NormalBody(Block(ts, open, close).value)
    decreases |ts|, 9
  {
    hide Closed, NormalBody, IsKw;
    ClosedNormal(Expect(SkipNl(ts), open).rest, close);
  }

  lemma {:induction false} IfNormal(cs: seq<Node>, bs: seq<Node>, ts: Toks)
    requires |cs| == |bs|
    requires forall i | 0 <= i < |cs| :: NormalBody(cs[i])
    requires forall i | 0 <= i < |bs| :: NormalBody(bs[i])
    requires IfLoop(cs, bs, ts).Ok?
    ensures NormalItem(IfLoop(cs, bs, ts).value)
    decreases |ts|, 10
  {
    hide ParseBody, NormalBody, IsKw, Closed;
    ClosedNormal(ts, "then");
    BodyNormal(Closed(ts, "then").rest);
    var a := Arm(ts);
    if AtKw(a.rest, "elif") {
      IfNormal(cs + [a.value.0], bs + [a.value.1], a.rest[1..]);
    } else if AtKw(a.rest, "else") {
      ClosedNormal(a.rest[1..], "fi");
    }
  }

  lemma {:induction false} WordsNormal(acc: Toks, ts: Toks)
    requires forall i | 0 <= i < |acc| :: WordTok(acc[i])
    ensures forall i | 0 <= i < |ForWords(acc, ts).0| :: WordTok(ForWords(acc, ts).0[i])
    decreases |ts|
  {
    if AtKind(ts, Word) { WordsNormal(acc + [ts[0]], ts[1..]); }
  }

  lemma {:induction false} WhileNormal(ts: Toks)
    requires ts != [] && ParseWhile(ts).Ok?
    ensures NormalItem(ParseWhile(ts).value)
    decreases |ts|, 3
  {
    hide Closed, NormalBody;
    ClosedNormal(ts[1..], "do");
    ClosedNormal(Closed(ts[1..], "do").rest, "done");
  }

  lemma {:induction false} ForNormal(ts: Toks)
    requires ts != [] && ParseFor(ts).Ok?
    ensures NormalItem(ParseFor(ts).value)
    decreases |ts|, 3
  {
    hide Block, NormalBody, IsKw, IsName;
    var ts1 := Expect(SkipNl(ts[2..]), "in").rest;
    WordsNormal([], ts1);
    BlockNormal(ForList(ts1).rest, "do", "done");
  }

  lemma {:induction false} FuncNormal(ts: Toks)
    requires |ts| > 1 && !AtEnder(ts) && ParseFuncDef(ts).Ok?
    requires !AtKw(ts, "if") && !AtKw(ts, "while") && !AtKw(ts, "for")
    ensures NormalItem(ParseFuncDef(ts).value)
    decreases |ts|, 3
  {
    hide Block, NormalBody;
    BlockNormal(ts[3..], "{", "}");
    NameNotReserved(ts[0]);
  }

  /** A valid name that opens nothing and closes nothing is not reserved. */
  lemma NameNotReserved(t: Token)
    requires NameOf(t).Some? && !IsEnder(t) && !IsKw(t, "if") && !IsKw(t, "while") && !IsKw(t, "for")
    ensures IsName(NameOf(t).value) && !IsReserved(Kw(NameOf(t).value))
  {
  }

  lemma {:induction false} ItemNormal(ts: Toks)
    requires !AtEnder(ts) && ParseItem(ts).Ok?
    ensures NormalItem(ParseItem(ts).value)
    decreases |ts|, 4
  {
    hide IsKw, IsEnder, ParseFor, ParseWhile, ParseFuncDef, ParseAndOr, NormalItem;
    if AtKw(ts, "if") {
      IfNormal([], [], ts[1..]);
    } else if AtKw(ts, "while") {
      WhileNormal(ts);
    } else if AtKw(ts, "for") {
      ForNormal(ts);
    } else if AtKind(ts, Word) && |ts| > 1 && ts[1].kind == LParen {
      FuncNormal(ts);
    } else {
      AndOrNormal(ts);
    }
  }

  /** Every accepted program is in normal form. */
  lemma ProgramNormal(ts: Toks)
    requires ParseProgram(ts).Ok?
    ensures var n := ParseProgram(ts).value; n.Some? ==> NormalBody(n.value)
  {
    hide NormalBody, ParseBody;
    if ParseProgram(ts).value.Some? {
      ListIsBody(ts);
      BodyNormal(ts);
    }
  }

  lemma {:induction false} ListIsBody(ts: Toks)
    requires ParseList(ts).Ok? && ParseList(ts).value.Some?
    ensures ParseBody(ts) == Ok(ParseList(ts).value.value, ParseList(ts).rest)
  {
  }

  /** Parse, print, parse: the second parse returns what the first one did. */
  lemma Reparse(ts: Toks)
    requires ParseProgram(ts).Ok?
    ensures var n := ParseProgram(ts).value;
            (n.Some? ==> NormalBody(n.value)) && ParseProgram(PrintProgram(n)) == Ok(n, [])
  {
    ProgramNormal(ts);
    ProgramRoundTrip(ParseProgram(ts).value);
  }

  /** Normal form is exactly what the parser can return. */
  lemma {:induction false} NormalIffParsed(n: Node)
    ensures NormalBody(n) <==> exists ts: Toks :: ParseProgram(ts) == Ok(Some(n), [])
  {
    if NormalBody(n) {
      ProgramRoundTrip(Some(n));
      assert ParseProgram(PrintProgram(Some(n))) == Ok(Some(n), []);
    }
    if ts: Toks :| ParseProgram(ts) == Ok(Some(n), []) {
      ProgramNormal(ts);
    }
  }

  /** A redirect in front keeps the parser from reading a leading `!` as a
      negation: `< in ! x ;` runs the command `!` with an input redirect. */
  lemma HiddenBang()
    ensures var c := Command([Kw("!"), Kw("x")], Some(Kw("in")), None, false, None);
            ParseProgram([Op(RedirIn), Kw("in"), Kw("!"), Kw("x"), Op(Semi)])
            == Ok(Some(Pipeline([c], false, false)), [])
  {
    hide ParseProgram;
    var c := Command([Kw("!"), Kw("x")], Some(Kw("in")), None, false, None);
    var n := Pipeline([c], false, false);
    BangCommand(c, n);
    ProgramRoundTrip(Some(n));
    assert PrintRedirs(c) == [Op(RedirIn), Kw("in")];
    assert PrintStages([c], true) == PrintCmd(c, true);
    assert PrintBody(n) == [Op(RedirIn), Kw("in"), Kw("!"), Kw("x"), Op(Semi)];
  }

  lemma {:induction false} BangCommand(c: Command, n: Node)
    requires c == Command([Kw("!"), Kw("x")], Some(Kw("in")), None, false, None)
    requires n == Pipeline([c], false, false)
    ensures NormalBody(n)
  {
    assert WordTok(c.words[0]) && WordTok(c.words[1]);
    assert NormalCmd(c, true);
    assert NormalCmds([c]);
  }
}
