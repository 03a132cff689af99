/** Parsing what the printer prints gives back the tree, and stops exactly at
    what follows. */
module RoundTrip {
  import opened Options
  import opened Tokens
  import opened Ast
  import opened Grammar
  import opened NormalForm

  /** What may follow an item: the end, `;`, a newline or `&`. */
  predicate Stop(ts: Toks) {
    ts == [] || ts[0].kind == Semi || ts[0].kind == Newline || ts[0].kind == Amp
  }

  predicate CmdStop(ts: Toks) { ts == [] || (ts[0].kind != Word && !IsRedir(ts[0].kind)) }

  predicate PipeStop(ts: Toks) { CmdStop(ts) && !AtKind(ts, Pipe) }

  // ---- Commands -----------------------------------------------------------------

  lemma {:induction false} WordsRead(c: Command, ws: Toks, ts: Toks)
    requires forall i | 0 <= i < |ws| :: WordTok(ws[i])
    requires c.words == [] && ws != [] ==> !IsReserved(ws[0])
    ensures SimpleLoop(c, ws + ts) == SimpleLoop(c.(words := c.words + ws), ts)
    decreases |ws|
  {
    if ws == [] {
      assert ws + ts == ts && c.words + ws == c.words;
    } else {
      assert WordTok(ws[0]);
      assert (ws + ts)[1..] == ws[1..] + ts;
      assert c.words + ws == (c.words + [ws[0]]) + ws[1..];
      WordsRead(c.(words := c.words + [ws[0]]), ws[1..], ts);
    }
  }

  lemma {:induction false} SlotRead(c: Command, k: Kind, o: Option<Token>, ts: Toks)
    requires IsRedir(k) && WordSlot(o)
    requires o.Some? ==> SetRedir(c, k, o.value).Some?
    ensures SimpleLoop(c, PrintSlot(k, o) + ts)
            == SimpleLoop(if o.Some? then SetRedir(c, k, o.value).value else c, ts)
  {
    if o.None? {
      assert PrintSlot(k, o) + ts == ts;
    } else {
      assert (PrintSlot(k, o) + ts)[2..] == ts;
    }
  }

  lemma {:induction false} RedirsRead(c: Command, ws: Toks, ts: Toks)
    requires WordSlot(c.redirIn) && WordSlot(c.redirOut) && WordSlot(c.redirErr)
    requires c.redirAppend ==> c.redirOut.Some?
    ensures SimpleLoop(NO_COMMAND.(words := ws), PrintRedirs(c) + ts) == SimpleLoop(c.(words := ws), ts)
  {
    var out := if c.redirAppend then RedirAppend else RedirOut;
    var a, b, d := PrintSlot(RedirIn, c.redirIn), PrintSlot(out, c.redirOut), PrintSlot(RedirErr, c.redirErr);
    assert PrintRedirs(c) + ts == a + (b + (d + ts));
    var c0 := NO_COMMAND.(words := ws);
    SlotRead(c0, RedirIn, c.redirIn, b + (d + ts));
    var c1 := c0.(redirIn := c.redirIn);
    SlotRead(c1, out, c.redirOut, d + ts);
    var c2 := c1.(redirOut := c.redirOut, redirAppend := c.redirAppend);
    SlotRead(c2, RedirErr, c.redirErr, ts);
  }

  lemma {:induction false} CmdEnds(c: Command, ts: Toks)
    requires c.words != [] && CmdStop(ts)
    ensures SimpleLoop(c, ts) == Ok(c, ts)
  {
    hide IsReserved, SetRedir;
  }

  lemma {:induction false} CmdRead(c: Command, first: bool, ts: Toks)
    requires NormalCmd(c, first) && CmdStop(ts)
    ensures SimpleLoop(NO_COMMAND, PrintCmd(c, first) + ts) == Ok(c, ts)
  {
    hide SimpleLoop, IsReserved, IsKw, PrintRedirs, SetRedir, CmdStop;
    CmdEnds(c, ts);
    if first && BangName(c) {
      assert PrintCmd(c, first) + ts == PrintRedirs(c) + (c.words + ts);
      RedirsRead(c, [], c.words + ts);
      WordsRead(c.(words := []), c.words, ts);
      assert [] + c.words == c.words;
    } else {
      assert PrintCmd(c, first) + ts == c.words + (PrintRedirs(c) + ts);
      WordsRead(NO_COMMAND, c.words, PrintRedirs(c) + ts);
      assert [] + c.words == c.words;
      RedirsRead(c, c.words, ts);
    }
  }

  /** A printed stage starts with a word or a redirect, and the first stage of a
      pipeline never with `!`. */
  lemma CmdHead(c: Command, first: bool)
    requires NormalCmd(c, first)
    ensures PrintCmd(c, first) != []
    ensures var t := PrintCmd(c, first)[0]; (t == c.words[0] && WordTok(t)) || IsRedir(t.kind)
    ensures first ==> !AtKw(PrintCmd(c, first), "!")
  {
    assert WordTok(c.words[0]);
  }

  // ---- Pipelines and chains --------------------------------------------------------

  lemma {:induction false} PipeStep(acc: seq<Command>, c: Command, x: Toks, p: Token, more: Toks)
    requires SimpleLoop(NO_COMMAND, x) == Ok(c, [p] + more) && p.kind == Pipe
    requires more != [] && more[0].kind != Newline
    ensures PipeLoop(acc, x) == PipeLoop(acc + [c], more)
  {
    assert ([p] + more)[1..] == more;
  }

  lemma {:induction false} PipeLast(acc: seq<Command>, c: Command, x: Toks, ts: Toks)
    requires SimpleLoop(NO_COMMAND, x) == Ok(c, ts) && !AtKind(ts, Pipe)
    ensures PipeLoop(acc, x) == Ok(acc + [c], ts)
  {
  }

  lemma {:induction false} StageSplit(cmds: seq<Command>, first: bool, ts: Toks)
    requires cmds != []
    ensures PrintStages(cmds, first) + ts
            == (if first then [] else [Op(Pipe)]) + (PrintCmd(cmds[0], first) + (PrintStages(cmds[1..], false) + ts))
  {
  }

  lemma {:induction false} StagesRead(acc: seq<Command>, cmds: seq<Command>, first: bool, ts: Toks)
    requires cmds != [] && PipeStop(ts)
    requires forall i | 0 <= i < |cmds| :: NormalCmd(cmds[i], first && i == 0)
    ensures PipeLoop(acc, PrintCmd(cmds[0], first) + (PrintStages(cmds[1..], false) + ts)) == Ok(acc + cmds, ts)
    decreases |cmds|
  {
    hide NormalCmd, PrintCmd, SimpleLoop, PipeLoop, IsKw;
    var rest := PrintStages(cmds[1..], false) + ts;
    var x := PrintCmd(cmds[0], first) + rest;
    if |cmds| == 1 {
      assert rest == ts;
      CmdRead(cmds[0], first, ts);
      PipeLast(acc, cmds[0], x, ts);
      assert cmds == [cmds[0]];
    } else {
      var tl := cmds[1..];
      StageSplit(tl, false, ts);
      var more := PrintCmd(tl[0], false) + (PrintStages(tl[1..], false) + ts);
      assert rest == [Op(Pipe)] + more;
      CmdRead(cmds[0], first, rest);
      CmdHead(tl[0], false);
      PipeStep(acc, cmds[0], x, Op(Pipe), more);
      StagesRead(acc + [cmds[0]], tl, false, ts);
      assert acc + [cmds[0]] + tl == acc + cmds;
    }
  }

  /** The tokens of a pipeline after its `!`, if any. */
  lemma PipelineRead(n: Node, ts: Toks) returns (q: Toks)
    requires n.Pipeline? && NormalCmds(n.cmds) && PipeStop(ts)
    ensures PrintPipeline(n) + ts == (if n.negate then [Kw("!")] else []) + q
    ensures q != [] && !AtKw(q, "!") && q[0].kind != Newline && PipeLoop([], q) == Ok(n.cmds, ts)
  {
    hide NormalCmd, IsReserved, IsKw, PrintCmd, PrintStages, PrintPipeline, PipeLoop;
    var c := n.cmds[0];
    q := PrintCmd(c, true) + (PrintStages(n.cmds[1..], false) + ts);
    CmdHead(c, true);
    StageSplit(n.cmds, true, ts);
    StagesRead([], n.cmds, true, ts);
    assert [] + n.cmds == n.cmds;
    assert [] + q == q;
    PipelineShape(n, ts, q);
  }

  lemma PipelineShape(n: Node, ts: Toks, y: Toks)
    requires n.Pipeline? && PrintStages(n.cmds, true) + ts == y
    ensures PrintPipeline(n) + ts == if n.negate then [Kw("!")] + y else y
  {
  }

  predicate ChainStop(ts: Toks) { PipeStop(ts) && !AtKind(ts, AndIf) && !AtKind(ts, OrIf) }

  /** A chain reads one pipeline and knows whether it was negated. */
  lemma ChainItem(acc: seq<AndOrItem>, op: AndOrOp, n: Node, q: Toks, x: Toks, ts: Toks)
    requires n.Pipeline? && !n.background
    requires x == (if n.negate then [Kw("!")] else []) + q
    requires q != [] && !AtKw(q, "!") && PipeLoop([], q) == Ok(n.cmds, ts)
    ensures var items := acc + [AndOrItem(op, n)];
            AndOrLoop(acc, op, x) ==
            if !AtKind(ts, AndIf) && !AtKind(ts, OrIf) then Ok(items, ts)
            else if SkipNl(ts[1..]) == [] then Fail(Incomplete, SkipNl(ts[1..]))
            else AndOrLoop(items, if AtKind(ts, AndIf) then And else Or, SkipNl(ts[1..]))
  {
    assert Pipeline(n.cmds, false, n.negate) == n;
    if n.negate {
      assert x[1..] == q;
    } else {
      assert x == q;
    }
  }

  lemma PipelineHead(n: Node)
    requires n.Pipeline? && NormalCmds(n.cmds)
    ensures PrintPipeline(n) != [] && PrintPipeline(n)[0].kind != Newline
  {
    var q := PipelineRead(n, []);
    assert PrintPipeline(n) == PrintPipeline(n) + [];
  }

  lemma {:induction false} ChainSplit(it: AndOrItem, more: seq<AndOrItem>, ts: Toks)
    requires NormalLink(it, false)
    ensures PrintChain([it] + more) + ts
            == [if it.op == And then Op(AndIf) else Op(OrIf)] + (PrintPipeline(it.node) + (PrintChain(more) + ts))
  {
    assert ([it] + more)[1..] == more;
  }

  lemma {:induction false} ChainStep(acc: seq<AndOrItem>, it: AndOrItem, it2: AndOrItem, tl: seq<AndOrItem>, ts: Toks)
    requires NormalLink(it, it.op == First) && NormalLink(it2, false)
    ensures AndOrLoop(acc, it.op, PrintPipeline(it.node) + (PrintChain([it2] + tl) + ts))
            == AndOrLoop(acc + [it], it2.op, PrintPipeline(it2.node) + (PrintChain(tl) + ts))
  {
    hide NormalCmds, PrintPipeline, PrintStages, IsReserved, IsKw;
    var n, rest := it.node, PrintChain([it2] + tl) + ts;
    var x2 := PrintPipeline(it2.node) + (PrintChain(tl) + ts);
    ChainSplit(it2, tl, ts);
    PipelineHead(it2.node);
    assert rest[1..] == x2;
    assert it == AndOrItem(it.op, n);
    var q := PipelineRead(n, rest);
    ChainItem(acc, it.op, n, q, PrintPipeline(n) + rest, rest);
  }

  /** One pipeline and what follows it, read from the middle of a chain. */
  lemma {:induction false} ChainRead(acc: seq<AndOrItem>, it: AndOrItem, more: seq<AndOrItem>, ts: Toks)
    requires ChainStop(ts) && NormalLink(it, it.op == First)
    requires forall i | 0 <= i < |more| :: NormalLink(more[i], false)
    ensures it.node.Pipeline?
    ensures AndOrLoop(acc, it.op, PrintPipeline(it.node) + (PrintChain(more) + ts)) == Ok(acc + [it] + more, ts)
    decreases |more|
  {
    hide NormalCmds, PrintPipeline, PrintStages, IsKw, IsReserved, AndOrLoop, PrintLink, SkipNl, PipeLoop;
    var n, rest := it.node, PrintChain(more) + ts;
    assert it == AndOrItem(it.op, n);
    if more == [] {
      assert rest == ts && acc + [it] + more == acc + [it];
      var q := PipelineRead(n, ts);
      ChainItem(acc, it.op, n, q, PrintPipeline(n) + rest, ts);
    } else {
      var it2, tl := more[0], more[1..];
      assert more == [it2] + tl;
      ChainStep(acc, it, it2, tl, ts);
      ChainRead(acc + [it], it2, tl, ts);
      assert acc + [it] + [it2] + tl == acc + [it] + more;
    }
  }

  // ---- Items, lists and bodies ---------------------------------------------------

  /** An item as `ParseItem` returns it; the list adds the `&`. */
  function Bare(n: Node): Node {
    if n.Pipeline? then n.(background := false) else n
  }

  predicate BodyStop(ts: Toks) { ts == [] || AtEnder(ts) }

  /** How an item's first token steers the parser. */
  predicate PlainHead(ts: Toks) {
    && ts != [] && !AtSep(ts) && !AtEnder(ts)
    && !AtKw(ts, "if") && !AtKw(ts, "while") && !AtKw(ts, "for")
  }

  lemma HeadIsPlain(x: Toks)
    requires x != [] && ((x[0].kind == Word && !IsReserved(x[0])) || IsRedir(x[0].kind))
    ensures PlainHead(x)
  {
  }

  lemma CmdTokens(c: Command, first: bool, ts: Toks)
    requires NormalCmd(c, first) && (ts == [] || ts[0].kind != LParen)
    ensures var x := PrintCmd(c, first) + ts; PlainHead(x) && (|x| > 1 ==> x[1].kind != LParen)
  {
    hide BangName, IsReserved, PlainHead;
    HeadIsPlain(PrintCmd(c, first) + ts);
    assert WordTok(c.words[0]);
    assert |c.words| > 1 ==> WordTok(c.words[1]);
  }

  predicate NoParen(ts: Toks) { ts == [] || ts[0].kind != LParen }

  lemma {:induction false} StagesTail(cmds: seq<Command>, ts: Toks)
    requires NoParen(ts)
    ensures NoParen(PrintStages(cmds, false) + ts)
  {
    if cmds != [] { StageSplit(cmds, false, ts); } else { assert PrintStages(cmds, false) + ts == ts; }
  }

  predicate PlainStart(x: Toks) { PlainHead(x) && (|x| > 1 ==> x[1].kind != LParen) }

  lemma BangStart(y: Toks)
    requires PlainHead(y) && y[0].kind != LParen
    ensures PlainStart([Kw("!")] + y)
  {
  }

  lemma PipelineTokens(n: Node, ts: Toks)
    requires n.Pipeline? && NormalCmds(n.cmds) && NoParen(ts)
    ensures PlainStart(PrintPipeline(n) + ts)
  {
    hide NormalCmd, IsReserved, IsKw, PrintCmd, PrintPipeline, PrintStages, PlainHead;
    var c, rest := n.cmds[0], PrintStages(n.cmds[1..], false) + ts;
    StageSplit(n.cmds, true, ts);
    StagesTail(n.cmds[1..], ts);
    CmdTokens(c, true, rest);
    var y := PrintCmd(c, true) + rest;
    assert [] + y == y;
    PipelineShape(n, ts, y);
    CmdHead(c, true);
    if n.negate { BangStart(y); }
  }

  lemma {:induction false} PipelineItem(n: Node, ts: Toks)
    requires n.Pipeline? && NormalCmds(n.cmds) && Stop(ts)
    ensures ParseItem(PrintPipeline(n) + ts) == Ok(Bare(n), ts)
  {
    hide NormalCmds, PrintPipeline, IsReserved, NormalCmd;
    PipelineTokens(n, ts);
    var x, m := PrintPipeline(n) + ts, Bare(n);
    var q := PipelineRead(n, ts);
    ChainItem([], First, m, q, x, ts);
  }

  lemma {:induction false} ChainTail(it: AndOrItem, more: seq<AndOrItem>, ts: Toks)
    requires NormalLink(it, false)
    ensures NoParen(PrintChain([it] + more) + ts)
  {
    ChainSplit(it, more, ts);
  }

  lemma {:induction false} ChainItemRead(items: seq<AndOrItem>, ts: Toks)
    requires |items| >= 2 && NormalAndOr(items) && Stop(ts)
    ensures ParseItem(PrintChain(items) + ts) == Ok(AndOr(items), ts)
    ensures PlainHead(PrintChain(items) + ts)
  {
    hide NormalCmds, PrintPipeline, PrintStages, IsKw, IsReserved, PrintChain, PlainHead, ParseItem, AndOrLoop;
    var it, it2, more := items[0], items[1], items[2..];
    var tl := [it2] + more;
    SplitTwo(items);
    assert NormalLink(it, true) && NormalLink(it2, false);
    forall i | 0 <= i < |tl| ensures NormalLink(tl[i], false) { assert NormalLink(items[i + 1], false); }
    ChainPair(it, it2, more, ts);
    ChainRead([], it, tl, ts);
    ChainParsed(PrintPipeline(it.node) + (PrintChain(tl) + ts), items, ts);
  }

  lemma SplitTwo<T>(s: seq<T>)
    requires |s| >= 2
    ensures s == [s[0]] + ([s[1]] + s[2..]) && [] + [s[0]] + ([s[1]] + s[2..]) == s
  {
  }

  lemma {:induction false} ChainPair(it: AndOrItem, it2: AndOrItem, more: seq<AndOrItem>, ts: Toks)
    requires NormalLink(it, true) && NormalLink(it2, false)
    ensures var x := PrintPipeline(it.node) + (PrintChain([it2] + more) + ts);
            PlainStart(x) && PrintChain([it] + ([it2] + more)) + ts == x
  {
    hide NormalCmds, PrintPipeline, PlainStart, PrintStages, IsKw;
    var tl := [it2] + more;
    assert ([it] + tl)[1..] == tl;
    ChainTail(it2, more, ts);
    PipelineTokens(it.node, PrintChain(tl) + ts);
  }

  lemma {:induction false} ChainParsed(x: Toks, items: seq<AndOrItem>, ts: Toks)
    requires PlainStart(x) && AndOrLoop([], First, x) == Ok(items, ts) && |items| >= 2
    ensures ParseItem(x) == Ok(AndOr(items), ts)
  {
  }

  // Grammar steps, with the printed pieces as plain token sequences.

  lemma {:induction false} BodyOf(ts: Toks, nodes: seq<Node>, rest: Toks)
    requires ListLoop([], ts) == Ok(nodes, rest) && nodes != []
    ensures ParseBody(ts) == Ok(Collapse(nodes).value, rest)
  {
  }

  lemma Took(kw: string, ts: Toks)
    ensures Expect([Kw(kw)] + ts, kw) == Ok((), ts)
  {
    assert ([Kw(kw)] + ts)[1..] == ts;
  }

  lemma {:induction false} Dispatch(x: Toks)
    requires x != []
    ensures AtKw(x, "if") ==> ParseItem(x) == ParseIf(x)
    ensures AtKw(x, "while") ==> ParseItem(x) == ParseWhile(x)
    ensures AtKw(x, "for") ==> ParseItem(x) == ParseFor(x)
  {
  }

  lemma KwHead(kw: string, p: Toks)
    ensures AtKw([Kw(kw)] + p, kw) && ([Kw(kw)] + p)[1..] == p
  {
  }

  lemma {:induction false} ClosedRead(p: Toks, body: Node, kw: string, ts: Toks)
    requires ParseBody(p) == Ok(body, [Kw(kw)] + ts)
    ensures Closed(p, kw) == Ok(body, ts)
  {
    hide ParseBody, IsKw;
    Took(kw, ts);
  }

  lemma {:induction false} BlockRead(open: string, p: Toks, body: Node, close: string, ts: Toks)
    requires ParseBody(p) == Ok(body, [Kw(close)] + ts)
    ensures Block([Kw(open)] + p, open, close) == Ok(body, ts)
  {
    hide ParseBody, IsKw, Closed;
    Took(open, p);
    ClosedRead(p, body, close, ts);
  }

  lemma {:induction false} WhileStep(p: Toks, q: Toks, cond: Node, body: Node, ts: Toks)
    requires ParseBody(p) == Ok(cond, [Kw("do")] + q)
    requires ParseBody(q) == Ok(body, [Kw("done")] + ts)
    ensures ParseItem([Kw("while")] + p) == Ok(While(cond, body), ts)
  {
    hide ParseBody, IsKw, Closed, ParseItem;
    KwHead("while", p);
    Dispatch([Kw("while")] + p);
    ClosedRead(p, cond, "do", q);
    ClosedRead(q, body, "done", ts);
  }

  lemma {:induction false} ForWordsRead(acc: Toks, words: Toks, ts: Toks)
    requires forall i | 0 <= i < |words| :: WordTok(words[i])
    requires !AtKind(ts, Word)
    ensures ForWords(acc, words + ts) == (acc + words, ts)
    decreases |words|
  {
    if words == [] {
      assert words + ts == ts && acc + words == acc;
    } else {
      assert WordTok(words[0]);
      assert (words + ts)[1..] == words[1..] + ts;
      ForWordsRead(acc + [words[0]], words[1..], ts);
      assert acc + [words[0]] + words[1..] == acc + words;
    }
  }

  lemma {:induction false} ForParts(x: Toks, words: Toks, z: Toks, p: Toks, body: Node, ts: Toks)
    requires |x| > 2 && AtKw(x, "for") && NameOf(x[1]).Some? && x[2..] == [Kw("in")] + (words + z)
    requires ForWords([], words + z) == (words, z)
    requires z != [] && z[0].kind == Semi && z[1..] == [Kw("do")] + p
    requires ParseBody(p) == Ok(body, [Kw("done")] + ts)
    ensures ParseFor(x) == Ok(For(NameOf(x[1]).value, words, body), ts)
  {
    hide ParseBody, IsKw, Block, NameOf, ForWords;
    Took("in", words + z);
    BlockRead("do", p, body, "done", ts);
    var r := ForList(words + z);
    assert r == Ok(words, z[1..]);
    assert ForTail(NameOf(x[1]).value, words + z) == Ok(For(NameOf(x[1]).value, words, body), ts);
    ForUnfold(x);
  }

  lemma ForHead(x: Toks, name: string, y: Toks)
    requires x == [Kw("for"), Kw(name), Kw("in")] + y && IsName(name)
    ensures |x| > 2 && AtKw(x, "for") && NameOf(x[1]) == Some(name) && x[2..] == [Kw("in")] + y
  {
  }

  lemma {:induction false} ForStep(name: string, words: Toks, p: Toks, body: Node, ts: Toks)
    requires IsName(name) && forall i | 0 <= i < |words| :: WordTok(words[i])
    requires ParseBody(p) == Ok(body, [Kw("done")] + ts)
    ensures ParseItem([Kw("for"), Kw(name), Kw("in")] + (words + ([Op(Semi), Kw("do")] + p)))
            == Ok(For(name, words, body), ts)
  {
    hide IsKw, IsEnder, IsReserved, IsName, ParseFor, ParseItem, ParseBody;
    var z := [Op(Semi), Kw("do")] + p;
    var x := [Kw("for"), Kw(name), Kw("in")] + (words + z);
    ForWordsRead([], words, z);
    assert [] + words == words;
    ForHead(x, name, words + z);
    Dispatch(x);
    ForParts(x, words, z, p, body, ts);
  }

  lemma {:induction false} FuncStep(name: string, p: Toks, body: Node, ts: Toks)
    requires IsName(name) && !IsReserved(Kw(name))
    requires ParseBody(p) == Ok(body, [Kw("}")] + ts)
    ensures ParseItem([Kw(name), Op(LParen), Op(RParen), Kw("{")] + p) == Ok(FuncDef(name, body), ts)
  {
    hide ParseBody, Block, IsReserved;
    var x := [Kw(name), Op(LParen), Op(RParen), Kw("{")] + p;
    assert x[3..] == [Kw("{")] + p;
    BlockRead("{", p, body, "}", ts);
    NotOpener(name);
  }

  lemma NotOpener(name: string)
    requires !IsReserved(Kw(name))
    ensures !IsKw(Kw(name), "if") && !IsKw(Kw(name), "while") && !IsKw(Kw(name), "for")
  {
  }

  lemma {:induction false} ArmRead(p: Toks, q: Toks, cond: Node, body: Node, r: Toks)
    requires ParseBody(p) == Ok(cond, [Kw("then")] + q) && ParseBody(q) == Ok(body, r)
    ensures Arm(p) == Ok((cond, body), r)
  {
    hide ParseBody, Closed;
    ClosedRead(p, cond, "then", q);
  }

  lemma {:induction false} IfArmElif(cs: seq<Node>, bs: seq<Node>, p: Toks, q: Toks, cond: Node, body: Node, r: Toks)
    requires ParseBody(p) == Ok(cond, [Kw("then")] + q)
    requires ParseBody(q) == Ok(body, r) && AtKw(r, "elif")
    ensures IfLoop(cs, bs, p) == IfLoop(cs + [cond], bs + [body], r[1..])
  {
    hide ParseBody, Arm, IsKw;
    ArmRead(p, q, cond, body, r);
  }

  lemma {:induction false} IfArmFi(cs: seq<Node>, bs: seq<Node>, p: Toks, q: Toks, cond: Node, body: Node, ts: Toks)
    requires ParseBody(p) == Ok(cond, [Kw("then")] + q)
    requires ParseBody(q) == Ok(body, [Kw("fi")] + ts)
    ensures IfLoop(cs, bs, p) == Ok(If(cs + [cond], bs + [body], None), ts)
  {
    hide ParseBody, Arm;
    ArmRead(p, q, cond, body, [Kw("fi")] + ts);
    Took("fi", ts);
  }

  lemma {:induction false} IfArmElse(cs: seq<Node>, bs: seq<Node>, p: Toks, q: Toks, cond: Node, body: Node,
                  y: Toks, other: Node, ts: Toks)
    requires ParseBody(p) == Ok(cond, [Kw("then")] + q)
    requires ParseBody(q) == Ok(body, [Kw("else")] + y)
    requires ParseBody(y) == Ok(other, [Kw("fi")] + ts)
    ensures IfLoop(cs, bs, p) == Ok(If(cs + [cond], bs + [body], Some(other)), ts)
  {
    hide ParseBody, Arm, Closed;
    ArmRead(p, q, cond, body, [Kw("else")] + y);
    KwHead("else", y);
    ClosedRead(y, other, "fi", ts);
  }

  lemma {:induction false} ListStep(acc: seq<Node>, n: Node, x: Toks, ts: Toks)
    requires Starts(x)
    requires ParseItem(x) == Ok(Bare(n), [Terminator(n)] + ts)
    ensures ListLoop(acc, x) == ListLoop(acc + [n], ts)
  {
    assert ([Terminator(n)] + ts)[1..] == ts;
    assert SkipSeps(x) == x;
    if !(n.Pipeline? && n.background) {
      assert Bare(n) == n;
      SepSkipped(acc + [n], Op(Semi), ts);
    }
  }

  lemma {:induction false} SepSkipped(acc: seq<Node>, t: Token, ts: Toks)
    requires t.kind == Semi || t.kind == Newline
    ensures ListLoop(acc, [t] + ts) == ListLoop(acc, ts)
  {
    assert ([t] + ts)[1..] == ts;
    assert SkipSeps([t] + ts) == SkipSeps(ts);
  }

  // ---- The round trip -----------------------------------------------------------------

  predicate Starts(x: Toks) { x != [] && !AtSep(x) && !AtEnder(x) }

  lemma WhileShape(n: Node, ts: Toks) returns (p: Toks, q: Toks)
    requires n.While? && NormalItem(n)
    ensures p == PrintBody(n.cond) + ([Kw("do")] + q) && q == PrintBody(n.body) + ([Kw("done")] + ts)
    ensures PrintItem(n) + ts == [Kw("while")] + p
  {
    hide IsKw;
    q := PrintBody(n.body) + ([Kw("done")] + ts);
    p := PrintBody(n.cond) + ([Kw("do")] + q);
  }

  lemma ForShape(n: Node, ts: Toks) returns (p: Toks)
    requires n.For? && NormalItem(n)
    ensures p == PrintBody(n.body) + ([Kw("done")] + ts)
    ensures PrintItem(n) + ts == [Kw("for"), Kw(n.name), Kw("in")] + (n.words + ([Op(Semi), Kw("do")] + p))
  {
    hide IsKw;
    p := PrintBody(n.body) + ([Kw("done")] + ts);
  }

  lemma FuncShape(n: Node, ts: Toks) returns (p: Toks)
    requires n.FuncDef? && NormalItem(n)
    ensures p == PrintBody(n.body) + ([Kw("}")] + ts)
    ensures PrintItem(n) + ts == [Kw(n.name), Op(LParen), Op(RParen), Kw("{")] + p
  {
    hide IsKw;
    p := PrintBody(n.body) + ([Kw("}")] + ts);
  }

  /** What follows the arms of an `if`. */
  function IfTail(n: Node): Toks
    requires n.If? && NormalItem(n)
  {
    if n.elseBody.Some? then [Kw("else")] + (PrintBody(n.elseBody.value) + [Kw("fi")]) else [Kw("fi")]
  }

  lemma {:induction false} IfShape(n: Node, ts: Toks)
    requires n.If? && NormalItem(n)
    ensures PrintItem(n) + ts == [Kw("if")] + (PrintArms(n, 0) + (IfTail(n) + ts))
  {
    hide IsKw, PrintArms;
  }

  /** One arm after its `if` or `elif`. */
  lemma ArmShape(n: Node, i: nat, z: Toks) returns (p: Toks, q: Toks)
    requires n.If? && NormalItem(n) && i < |n.conds|
    ensures p == PrintBody(n.conds[i]) + ([Kw("then")] + q)
    ensures q == PrintBody(n.bodies[i]) + (PrintArms(n, i + 1) + z)
    ensures PrintArms(n, i) + z == (if i > 0 then [Kw("elif")] else []) + p
  {
    hide IsKw;
    q := PrintBody(n.bodies[i]) + (PrintArms(n, i + 1) + z);
    p := PrintBody(n.conds[i]) + ([Kw("then")] + q);
  }

  lemma {:induction false} ItemsShape(nodes: seq<Node>, ts: Toks)
    requires nodes != [] && NormalItems(nodes)
    ensures PrintItems(nodes) + ts
            == PrintItem(nodes[0]) + ([Terminator(nodes[0])] + (PrintItems(nodes[1..]) + ts))
  {
    hide IsKw, PrintItem, NormalItem, Terminator;
  }

  /** Parsing a printed item followed by a terminator gives the item back and
      stops exactly at the terminator. */
  lemma {:induction false} ItemRead(n: Node, ts: Toks)
    requires NormalItem(n) && Stop(ts)
    ensures ParseItem(PrintItem(n) + ts) == Ok(Bare(n), ts)
    ensures Starts(PrintItem(n) + ts)
    decreases n, 0
  {
    hide ParseItem, IsKw, NormalCmds, PrintPipeline, PrintChain, PlainStart, PrintBody;
    match n
    case Pipeline(_, _, _) =>
      PipelineItem(n, ts);
      PipelineTokens(n, ts);
      StartOf(PrintPipeline(n) + ts);
    case AndOr(items) =>
      ChainItemRead(items, ts);
    case While(cond, body) =>
      var p, q := WhileShape(n, ts);
      KwBodyStop("do", q);
      KwBodyStop("done", ts);
      BodyRead(cond, [Kw("do")] + q);
      BodyRead(body, [Kw("done")] + ts);
      WhileStep(p, q, cond, body, ts);
      KwStarts(p);
    case For(name, words, body) =>
      var p := ForShape(n, ts);
      KwBodyStop("done", ts);
      BodyRead(body, [Kw("done")] + ts);
      ForStep(name, words, p, body, ts);
      ForStarts(n, ts);
    case FuncDef(name, body) =>
      var p := FuncShape(n, ts);
      KwBodyStop("}", ts);
      BodyRead(body, [Kw("}")] + ts);
      FuncStep(name, p, body, ts);
      FuncStarts(n, ts);
    case If(conds, bodies, other) =>
      IfShape(n, ts);
      ArmsRead(n, 0, ts);
      assert n.conds[..0] == [] && n.bodies[..0] == [];
      IfParsed(PrintArms(n, 0) + (IfTail(n) + ts));
      IfStarts(n, ts);
  }

  lemma {:induction false} IfParsed(p: Toks)
    ensures ParseItem([Kw("if")] + p) == IfLoop([], [], p)
  {
    KwHead("if", p);
    Dispatch([Kw("if")] + p);
  }

  lemma StartOf(x: Toks)
    requires PlainStart(x)
    ensures Starts(x)
  {
  }

  lemma KwBodyStop(kw: string, ts: Toks)
    requires kw in {"do", "done", "then", "elif", "else", "fi", "}"}
    ensures BodyStop([Kw(kw)] + ts)
  {
  }

  lemma KwStarts(p: Toks)
    ensures Starts([Kw("while")] + p) && Starts([Kw("if")] + p)
  {
  }

  lemma {:induction false} ForStarts(n: Node, ts: Toks)
    requires n.For? && NormalItem(n)
    ensures Starts(PrintItem(n) + ts)
  {
    hide PrintBody, NormalBody, IsName;
    assert (PrintItem(n) + ts)[0] == Kw("for");
  }

  lemma {:induction false} FuncStarts(n: Node, ts: Toks)
    requires n.FuncDef? && NormalItem(n)
    ensures Starts(PrintItem(n) + ts)
  {
    hide PrintBody, NormalBody, IsName;
    assert (PrintItem(n) + ts)[0] == Kw(n.name);
  }

  lemma {:induction false} IfStarts(n: Node, ts: Toks)
    requires n.If? && NormalItem(n)
    ensures Starts(PrintItem(n) + ts)
  {
    hide PrintBody, NormalBody, PrintArms;
    assert (PrintItem(n) + ts)[0] == Kw("if");
  }

  lemma {:induction false} ArmsRead(n: Node, i: nat, ts: Toks)
    requires n.If? && NormalItem(n) && i < |n.conds|
    ensures var x := PrintArms(n, i) + (IfTail(n) + ts);
            IfLoop(n.conds[..i], n.bodies[..i], if i > 0 then x[1..] else x) == Ok(n, ts)
    decreases n, 0, |n.conds| - i
  {
    hide PrintBody, IsKw, IfLoop, PrintArms, IfTail, BodyStop, ParseBody;
    var z := IfTail(n) + ts;
    var p, q := ArmShape(n, i, z);
    assert i > 0 ==> ([Kw("elif")] + p)[1..] == p;
    assert [] + p == p;
    var r := PrintArms(n, i + 1) + z;
    var cs, bs := n.conds[..i], n.bodies[..i];
    assert n.conds[..i + 1] == cs + [n.conds[i]] && n.bodies[..i + 1] == bs + [n.bodies[i]];
    assert n.conds[..|n.conds|] == n.conds && n.bodies[..|n.bodies|] == n.bodies;
    ArmTail(n, i + 1, ts);
    KwBodyStop("then", q);
    BodyRead(n.conds[i], [Kw("then")] + q);
    BodyRead(n.bodies[i], r);
    if i + 1 < |n.conds| {
      IfArmElif(cs, bs, p, q, n.conds[i], n.bodies[i], r);
      ArmsRead(n, i + 1, ts);
    } else if n.elseBody.Some? {
      var y := PrintBody(n.elseBody.value) + ([Kw("fi")] + ts);
      ElseShape(n, ts, y);
      KwBodyStop("fi", ts);
      BodyRead(n.elseBody.value, [Kw("fi")] + ts);
      IfArmElse(cs, bs, p, q, n.conds[i], n.bodies[i], y, n.elseBody.value, ts);
    } else {
      FiShape(n, ts);
      IfArmFi(cs, bs, p, q, n.conds[i], n.bodies[i], ts);
    }
  }

  lemma {:induction false} ElseShape(n: Node, ts: Toks, y: Toks)
    requires n.If? && NormalItem(n) && n.elseBody.Some?
    requires y == PrintBody(n.elseBody.value) + ([Kw("fi")] + ts)
    ensures IfTail(n) + ts == [Kw("else")] + y
  {
    hide PrintBody, NormalBody, PrintArms, IsKw;
  }

  lemma {:induction false} FiShape(n: Node, ts: Toks)
    requires n.If? && NormalItem(n) && n.elseBody.None?
    ensures IfTail(n) + ts == [Kw("fi")] + ts
  {
  }

  lemma {:induction false} ArmTail(n: Node, i: nat, ts: Toks)
    requires n.If? && NormalItem(n) && 0 < i <= |n.conds|
    ensures var r := PrintArms(n, i) + (IfTail(n) + ts);
            BodyStop(r) && (if i < |n.conds| then AtKw(r, "elif") else r == IfTail(n) + ts)
  {
  }

  lemma {:induction false} BodyRead(n: Node, ts: Toks)
    requires NormalBody(n) && BodyStop(ts)
    ensures ParseBody(PrintBody(n) + ts) == Ok(n, ts)
    decreases n, 1
  {
    hide ParseBody, IsKw, IsEnder, ParseItem, PrintItem, PrintItems, Starts, BodyStop, ListLoop;
    if n.List? {
      ItemsRead([], n.nodes, ts);
      assert [] + n.nodes == n.nodes;
      BodyOf(PrintBody(n) + ts, n.nodes, ts);
    } else {
      var x := PrintItem(n) + ([Terminator(n)] + ts);
      BareBody(n, ts);
      ItemRead(n, [Terminator(n)] + ts);
      ListStep([], n, x, ts);
      ListEnds([n], ts);
      assert [] + [n] == [n];
      BodyOf(x, [n], ts);
    }
  }

  lemma {:induction false} BareBody(n: Node, ts: Toks)
    requires NormalItem(n) && !n.List?
    ensures NormalBody(n) && PrintBody(n) + ts == PrintItem(n) + ([Terminator(n)] + ts)
  {
    hide PrintItem, IsKw;
  }

  lemma {:induction false} ListEnds(acc: seq<Node>, ts: Toks)
    requires BodyStop(ts)
    ensures ListLoop(acc, ts) == Ok(acc, ts)
  {
    assert SkipSeps(ts) == ts;
  }

  lemma {:induction false} ItemsRead(acc: seq<Node>, nodes: seq<Node>, ts: Toks)
    requires NormalItems(nodes) && BodyStop(ts)
    ensures ListLoop(acc, PrintItems(nodes) + ts) == Ok(acc + nodes, ts)
    decreases nodes
  {
    hide IsKw, IsEnder, ParseItem, PrintItem, Starts, BodyStop, ListLoop, NormalItem;
    if nodes == [] {
      assert PrintItems(nodes) + ts == ts && acc + nodes == acc;
      ListEnds(acc, ts);
    } else {
      var n, tl := nodes[0], nodes[1..];
      var rest := PrintItems(tl) + ts;
      ItemsShape(nodes, ts);
      ItemRead(n, [Terminator(n)] + rest);
      ListStep(acc, n, PrintItem(n) + ([Terminator(n)] + rest), rest);
      ItemsRead(acc + [n], tl, ts);
      assert acc + [n] + tl == acc + nodes;
    }
  }

  /** Printing a normal-form program and parsing it gives the program back. */
  lemma ProgramRoundTrip(n: Option<Node>)
    requires n.Some? ==> NormalBody(n.value)
    ensures ParseProgram(PrintProgram(n)) == Ok(n, [])
  {
    hide ParseBody, PrintBody, NormalBody;
    if n.Some? {
      BodyRead(n.value, []);
      assert PrintBody(n.value) + [] == PrintBody(n.value);
      ListOfBody(PrintBody(n.value));
    }
  }

  lemma {:induction false} ListOfBody(ts: Toks)
    requires ParseBody(ts).Ok?
    ensures ParseList(ts) == Ok(Some(ParseBody(ts).value), ParseBody(ts).rest)
  {
  }

  /** The printer loses nothing: different normal-form programs print differently. */
  lemma PrintInjective(n: Option<Node>, m: Option<Node>)
    requires (n.Some? ==> NormalBody(n.value)) && (m.Some? ==> NormalBody(m.value))
    requires PrintProgram(n) == PrintProgram(m)
    ensures n == m
  {
    ProgramRoundTrip(n);
    ProgramRoundTrip(m);
  }
}
