/** Cutting a printed program short: the continuation prompt keeps asking. */
module Prefixes {
  import opened Options
  import opened Tokens
  import opened Ast
  import opened Grammar
  import opened NormalForm
  import opened RoundTrip

  /** No command of the tree hides the name `!` behind its redirects. */
  predicate Plain(n: Node) {
    match n
    case Pipeline(cmds, _, _) => cmds != [] ==> !BangName(cmds[0])
    case AndOr(items) => forall i | 0 <= i < |items| :: Plain(items[i].node)
    case List(nodes) => forall i | 0 <= i < |nodes| :: Plain(nodes[i])
    case If(conds, bodies, other) =>
      && (forall i | 0 <= i < |conds| :: Plain(conds[i]))
      && (forall i | 0 <= i < |bodies| :: Plain(bodies[i]))
      && (other.Some? ==> Plain(other.value))
    case While(cond, body) => Plain(cond) && Plain(body)
    case For(_, _, body) => Plain(body)
    case FuncDef(_, body) => Plain(body)
  }

  /** Everything was read, and nothing was found wrong. */
  predicate Open<T>(r: Result<T>) {
    r.rest == [] && (r.Fail? ==> r.error == Incomplete)
  }

  lemma Cut<T>(a: seq<T>, b: seq<T>, k: nat)
    requires k <= |a + b|
    ensures (a + b)[..k] == if k <= |a| then a[..k] else a + b[..k - |a|]
  {
  }

  // ---- Commands -------------------------------------------------------------------

  lemma {:induction false} SlotCut(c: Command, k: Kind, o: Option<Token>, more: Toks, j: nat)
    requires IsRedir(k) && WordSlot(o) && c.words != [] && j <= |PrintSlot(k, o) + more|
    requires o.Some? ==> SetRedir(c, k, o.value).Some?
    ensures var p := (PrintSlot(k, o) + more)[..j];
            if j < |PrintSlot(k, o)| then Open(SimpleLoop(c, p))
            else SimpleLoop(c, p)
                 == SimpleLoop(if o.Some? then SetRedir(c, k, o.value).value else c, more[..j - |PrintSlot(k, o)|])
  {
    Cut(PrintSlot(k, o), more, j);
    if j >= |PrintSlot(k, o)| {
      assert (PrintSlot(k, o) + more)[..j] == PrintSlot(k, o) + more[..j - |PrintSlot(k, o)|];
      SlotRead(c, k, o, more[..j - |PrintSlot(k, o)|]);
    }
  }

  lemma {:induction false} LastCut(c: Command, o: Option<Token>, j: nat)
    requires WordSlot(o) && c.words != [] && c.redirErr.None? && j <= |PrintSlot(RedirErr, o)|
    ensures Open(SimpleLoop(c, PrintSlot(RedirErr, o)[..j]))
  {
    hide SimpleLoop;
    var d := PrintSlot(RedirErr, o);
    assert d == d + [];
    SlotCut(c, RedirErr, o, [], j);
    EndOpen(if o.Some? then SetRedir(c, RedirErr, o.value).value else c);
  }

  lemma {:induction false} OutCut(c: Command, append: bool, out: Option<Token>, err: Option<Token>, j: nat)
    requires WordSlot(out) && WordSlot(err) && c.words != [] && c.redirErr.None? && c.redirOut.None?
    requires j <= |PrintSlot(if append then RedirAppend else RedirOut, out) + PrintSlot(RedirErr, err)|
    ensures Open(SimpleLoop(c, (PrintSlot(if append then RedirAppend else RedirOut, out)
                                + PrintSlot(RedirErr, err))[..j]))
  {
    hide SimpleLoop;
    var k := if append then RedirAppend else RedirOut;
    SlotCut(c, k, out, PrintSlot(RedirErr, err), j);
    var n := |PrintSlot(k, out)|;
    if j >= n {
      LastCut(if out.Some? then SetRedir(c, k, out.value).value else c, err, j - n);
    }
  }

  lemma RedirsCut(c: Command, ws: Toks, j: nat)
    requires WordSlot(c.redirIn) && WordSlot(c.redirOut) && WordSlot(c.redirErr) && ws != []
    requires j <= |PrintRedirs(c)|
    ensures Open(SimpleLoop(NO_COMMAND.(words := ws), PrintRedirs(c)[..j]))
  {
    hide SimpleLoop, PrintSlot;
    var a := PrintSlot(RedirIn, c.redirIn);
    var b := PrintSlot(if c.redirAppend then RedirAppend else RedirOut, c.redirOut) + PrintSlot(RedirErr, c.redirErr);
    assert PrintRedirs(c) == a + b;
    var c0 := NO_COMMAND.(words := ws);
    SlotCut(c0, RedirIn, c.redirIn, b, j);
    if j >= |a| {
      OutCut(if c.redirIn.Some? then SetRedir(c0, RedirIn, c.redirIn.value).value else c0,
             c.redirAppend, c.redirOut, c.redirErr, j - |a|);
    }
  }

  lemma {:induction false} EndOpen(c: Command)
    requires c.words != []
    ensures SimpleLoop(c, []) == Ok(c, [])
  {
  }

  lemma CmdCut(c: Command, first: bool, k: nat)
    requires NormalCmd(c, first) && !(first && BangName(c)) && 0 < k <= |PrintCmd(c, first)|
    ensures Open(SimpleLoop(NO_COMMAND, PrintCmd(c, first)[..k]))
  {
    hide SimpleLoop, IsReserved, BangName;
    Cut(c.words, PrintRedirs(c), k);
    if k <= |c.words| {
      var ws := c.words[..k];
      WordsRead(NO_COMMAND, ws, []);
      assert [] + ws == ws && ws + [] == ws;
      EndOpen(NO_COMMAND.(words := ws));
    } else {
      WordsRead(NO_COMMAND, c.words, PrintRedirs(c)[..k - |c.words|]);
      assert [] + c.words == c.words;
      RedirsCut(c, c.words, k - |c.words|);
    }
  }

  // ---- Pipelines and chains ------------------------------------------------------------

  lemma {:induction false} PipeOpen(acc: seq<Command>, x: Toks)
    requires Open(SimpleLoop(NO_COMMAND, x))
    ensures Open(PipeLoop(acc, x))
  {
  }

  lemma {:induction false} PipeDangling(acc: seq<Command>, c: Command, x: Toks)
    requires SimpleLoop(NO_COMMAND, x) == Ok(c, [Op(Pipe)])
    ensures PipeLoop(acc, x) == Fail(Incomplete, [])
  {
  }

  /** The stages of a pipeline from some stage on, cut after `k` tokens. */
  lemma {:induction false} StagesCut(acc: seq<Command>, c: Command, more: seq<Command>, first: bool, k: nat)
    requires NormalCmd(c, first) && !(first && BangName(c))
    requires forall i | 0 <= i < |more| :: NormalCmd(more[i], false)
    requires 0 < k <= |PrintCmd(c, first) + PrintStages(more, false)|
    ensures Open(PipeLoop(acc, (PrintCmd(c, first) + PrintStages(more, false))[..k]))
    decreases |more|
  {
    hide NormalCmd, PrintCmd, SimpleLoop, PipeLoop, BangName;
    var a, b := PrintCmd(c, first), PrintStages(more, false);
    Cut(a, b, k);
    if k <= |a| {
      CmdCut(c, first, k);
      PipeOpen(acc, a[..k]);
    } else {
      var y := PrintCmd(more[0], false) + PrintStages(more[1..], false);
      assert b == [Op(Pipe)] + y;
      var j := k - |a| - 1;
      assert b[..j + 1] == [Op(Pipe)] + y[..j];
      CmdRead(c, first, [Op(Pipe)] + y[..j]);
      if j == 0 {
        assert [Op(Pipe)] + y[..j] == [Op(Pipe)];
        PipeDangling(acc, c, a + [Op(Pipe)]);
      } else {
        CmdHead(more[0], false);
        assert y[..j][0] == PrintCmd(more[0], false)[0];
        PipeStep(acc, c, a + ([Op(Pipe)] + y[..j]), Op(Pipe), y[..j]);
        StagesCut(acc + [c], more[0], more[1..], false, j);
      }
    }
  }

  lemma PipelineCut(n: Node, k: nat) returns (q: Toks)
    requires n.Pipeline? && NormalCmds(n.cmds) && Plain(n) && 0 < k <= |PrintPipeline(n)|
    ensures PrintPipeline(n)[..k] == (if n.negate then [Kw("!")] else []) + q
    ensures if q == [] then n.negate else !AtKw(q, "!") && Open(PipeLoop([], q))
  {
    hide NormalCmd, PrintCmd, PipeLoop, IsKw, BangName;
    var c := n.cmds[0];
    var s := PrintCmd(c, true) + PrintStages(n.cmds[1..], false);
    assert PrintStages(n.cmds, true) == s;
    var b := if n.negate then [Kw("!")] else [];
    assert PrintPipeline(n) == b + s;
    Cut(b, s, k);
    CmdHead(c, true);
    if k <= |b| {
      q := [];
      assert b[..k] == b + q;
    } else {
      q := s[..k - |b|];
      StagesCut([], c, n.cmds[1..], true, k - |b|);
      assert q[0] == PrintCmd(c, true)[0];
    }
  }

  /** A chain whose only pipeline so far ends the input. */
  lemma ChainOpen(acc: seq<AndOrItem>, op: AndOrOp, neg: bool, q: Toks)
    requires if q == [] then neg else !AtKw(q, "!") && Open(PipeLoop([], q))
    ensures Open(AndOrLoop(acc, op, (if neg then [Kw("!")] else []) + q))
  {
    hide PipeLoop;
    var x := (if neg then [Kw("!")] else []) + q;
    if neg { assert x[1..] == q; } else { assert x == q; }
  }

  lemma {:induction false} ChainDangling(acc: seq<AndOrItem>, it: AndOrItem, op: Token)
    requires NormalLink(it, it.op == First) && (op.kind == AndIf || op.kind == OrIf)
    ensures AndOrLoop(acc, it.op, PrintPipeline(it.node) + [op]) == Fail(Incomplete, [])
  {
    hide NormalCmds, PrintPipeline, PipeLoop, IsKw, AndOrLoop;
    var q := PipelineRead(it.node, [op]);
    assert [op][1..] == [];
    ChainItem(acc, it.op, it.node, q, PrintPipeline(it.node) + [op], [op]);
  }

  lemma {:induction false} ChainCut(acc: seq<AndOrItem>, it: AndOrItem, more: seq<AndOrItem>, k: nat)
    requires NormalLink(it, it.op == First) && Plain(it.node)
    requires forall i | 0 <= i < |more| :: NormalLink(more[i], false) && Plain(more[i].node)
    requires 0 < k <= |PrintPipeline(it.node) + PrintChain(more)|
    ensures Open(AndOrLoop(acc, it.op, (PrintPipeline(it.node) + PrintChain(more))[..k]))
    decreases |more|
  {
    hide NormalCmds, PrintPipeline, PipeLoop, IsKw, AndOrLoop, Plain, PrintChain;
    var a, b := PrintPipeline(it.node), PrintChain(more);
    ChainOver();
    Cut(a, b, k);
    if k <= |a| {
      var q := PipelineCut(it.node, k);
      ChainOpen(acc, it.op, it.node.negate, q);
    } else {
      var it2, tl := more[0], more[1..];
      var y := PrintPipeline(it2.node) + PrintChain(tl);
      var op := if it2.op == And then Op(AndIf) else Op(OrIf);
      var j := k - |a| - 1;
      ChainFront(more);
      assert b[..j + 1] == [op] + y[..j];
      if j == 0 {
        assert b[..1] == [op];
        ChainDangling(acc, it, op);
      } else {
        ChainStepCut(acc, it, it2, y[..j], op, PrintChain(tl));
        ChainCut(acc + [it], it2, tl, j);
      }
    }
  }

  lemma {:induction false} ChainFront(more: seq<AndOrItem>)
    requires more != [] && NormalLink(more[0], false)
    ensures var op := if more[0].op == And then Op(AndIf) else Op(OrIf);
            PrintChain(more) == [op] + (PrintPipeline(more[0].node) + PrintChain(more[1..]))
  {
    hide NormalCmds, PrintPipeline;
  }

  lemma ChainOver()
    ensures PrintChain([]) == []
  {
  }

  lemma {:induction false} ChainStepCut(acc: seq<AndOrItem>, it: AndOrItem, it2: AndOrItem, y: Toks, op: Token,
                                        tl: Toks)
    requires NormalLink(it, it.op == First) && NormalLink(it2, false)
    requires op == if it2.op == And then Op(AndIf) else Op(OrIf)
    requires y != [] && y <= PrintPipeline(it2.node) + tl
    ensures AndOrLoop(acc, it.op, PrintPipeline(it.node) + ([op] + y)) == AndOrLoop(acc + [it], it2.op, y)
  {
    hide NormalCmds, PrintPipeline, PipeLoop, IsKw, AndOrLoop;
    var n, rest := it.node, [op] + y;
    PipelineHead(it2.node);
    assert y[0] == PrintPipeline(it2.node)[0];
    assert rest[1..] == y;
    assert it == AndOrItem(it.op, n);
    var q := PipelineRead(n, rest);
    ChainItem(acc, it.op, n, q, PrintPipeline(n) + rest, rest);
  }

  // ---- Items and lists ------------------------------------------------------------------

  /** A proper start of the same tokens steers the parser the same way. */
  lemma PlainStartCut(x: Toks, k: nat)
    requires PlainStart(x) && 0 < k <= |x|
    ensures PlainStart(x[..k])
  {
    hide IsKw, IsEnder;
    assert x[..k][0] == x[0];
  }

  lemma {:induction false} SimpleParsed(x: Toks)
    requires PlainStart(x) && Open(AndOrLoop([], First, x))
    ensures Open(ParseItem(x))
  {
    hide AndOrLoop;
  }

  lemma {:induction false} FlatCut(n: Node, k: nat)
    requires (n.Pipeline? || n.AndOr?) && NormalItem(n) && Plain(n) && 0 < k <= |PrintItem(n)|
    ensures Open(ParseItem(PrintItem(n)[..k]))
  {
    hide NormalCmds, PrintPipeline, IsKw, AndOrLoop, ParseItem, PlainStart, PrintChain, PrintLink;
    if n.Pipeline? {
      var it := AndOrItem(First, Bare(n));
      assert PrintPipeline(n) == PrintPipeline(n) + [];
      PipelineTokens(n, []);
      BareSame(n);
      ChainCut([], it, [], k);
    } else {
      SplitTwo(n.items);
      var it, it2, more := n.items[0], n.items[1], n.items[2..];
      assert NormalLink(it, true) && NormalLink(it2, false);
      assert forall i | 0 <= i < |more| :: more[i] == n.items[i + 2];
      ChainPair(it, it2, more, []);
      ChainHead(it, [it2] + more);
      forall i | 0 <= i < |[it2] + more| ensures NormalLink(([it2] + more)[i], false) && Plain(([it2] + more)[i].node) {
        assert ([it2] + more)[i] == n.items[i + 1];
        assert NormalLink(n.items[i + 1], false);
      }
      ChainCut([], it, [it2] + more, k);
    }
    PlainStartCut(PrintItem(n), k);
    SimpleParsed(PrintItem(n)[..k]);
  }

  lemma {:induction false} BareSame(n: Node)
    requires n.Pipeline? && NormalCmds(n.cmds) && Plain(n)
    ensures NormalLink(AndOrItem(First, Bare(n)), true) && Plain(Bare(n)) && PrintPipeline(Bare(n)) == PrintPipeline(n)
    ensures PrintChain([]) == []
  {
  }

  lemma {:induction false} ChainHead(it: AndOrItem, more: seq<AndOrItem>)
    requires NormalLink(it, true)
    ensures PrintChain([it] + more) == PrintPipeline(it.node) + PrintChain(more)
    ensures PrintChain([it] + more) + [] == PrintChain([it] + more)
    ensures PrintPipeline(it.node) + (PrintChain(more) + []) == PrintPipeline(it.node) + PrintChain(more)
  {
    hide PrintPipeline, NormalCmds;
    assert ([it] + more)[1..] == more;
  }

  predicate Compound(n: Node) { n.If? || n.While? || n.For? || n.FuncDef? }

  /** A printed compound cut short anywhere is unfinished. (A function definition
      cut after its name is just a command.) */
  lemma {:induction false} CompoundCut(n: Node, k: nat)
    requires Compound(n) && NormalItem(n) && Plain(n)
    requires (if n.FuncDef? then 2 else 1) <= k < |PrintItem(n)|
    ensures ParseItem(PrintItem(n)[..k]) == Fail(Incomplete, [])
    decreases n, 2
  {
    hide PrintItem, ParseItem, NormalItem, Plain;
    match n
    case While(_, _) => WhileCut(n, k);
    case For(_, _, _) => ForCut(n, k);
    case FuncDef(_, _) => FuncCut(n, k);
    case If(_, _, _) => IfCut(n, k);
  }

  /** A body and what follows it, cut after `k` tokens. */
  lemma {:induction false} BodyThenCut(n: Node, kw: string, y: Toks, k: nat)
    requires NormalBody(n) && Plain(n) && kw in {"do", "done", "then", "elif", "else", "fi", "}"}
    requires k <= |PrintBody(n) + ([Kw(kw)] + y)|
    ensures var z, m := PrintBody(n) + ([Kw(kw)] + y), |PrintBody(n)|;
            if k <= m then Open(ParseBody(z[..k]))
            else ParseBody(z[..k]) == Ok(n, [Kw(kw)] + y[..k - m - 1])
    decreases n, 6
  {
    hide PrintBody, ParseBody, BodyStop, NormalBody, Plain;
    var b := [Kw(kw)] + y;
    Cut(PrintBody(n), b, k);
    if k <= |PrintBody(n)| {
      BodyCut(n, k);
    } else {
      var j := k - |PrintBody(n)| - 1;
      assert b[..j + 1] == [Kw(kw)] + y[..j];
      KwBodyStop(kw, y[..j]);
      BodyRead(n, [Kw(kw)] + y[..j]);
    }
  }

  lemma HeadCut(a: Token, p: Toks, k: nat)
    requires 0 < k <= |[a] + p|
    ensures ([a] + p)[..k] == [a] + p[..k - 1]
  {
  }

  lemma {:induction false} WhileCut(n: Node, k: nat)
    requires n.While? && NormalItem(n) && Plain(n) && 1 <= k < |PrintItem(n)|
    ensures ParseItem(PrintItem(n)[..k]) == Fail(Incomplete, [])
    decreases n, 1
  {
    hide PrintItem, ParseItem, PrintBody, ParseBody, IsKw, Closed;
    var p, q := WhileShape(n, []);
    assert PrintItem(n) + [] == PrintItem(n);
    HeadCut(Kw("while"), p, k);
    var j := k - 1;
    KwHead("while", p[..j]);
    Dispatch([Kw("while")] + p[..j]);
    BodyThenCut(n.cond, "do", q, j);
    if j <= |PrintBody(n.cond)| {
      ClosedOpen(p[..j], "do");
    } else {
      var m := j - |PrintBody(n.cond)| - 1;
      ClosedRead(p[..j], n.cond, "do", q[..m]);
      BodyThenCut(n.body, "done", [], m);
      ClosedOpen(q[..m], "done");
    }
  }

  lemma {:induction false} ClosedOpen(p: Toks, kw: string)
    requires Open(ParseBody(p))
    ensures Closed(p, kw) == Fail(Incomplete, [])
  {
    hide ParseBody;
  }

  lemma {:induction false} ForWordsCut(acc: Toks, words: Toks)
    requires forall i | 0 <= i < |words| :: WordTok(words[i])
    ensures ForWords(acc, words).1 == []
  {
    ForWordsRead(acc, words, []);
    assert words + [] == words;
  }

  lemma {:induction false} ForTooShort(x: Toks, words: Toks)
    requires AtKw(x, "for") && (|x| > 1 ==> NameOf(x[1]).Some?)
    requires |x| == 1 || x[2..] == [] || (x[2..] == [Kw("in")] + words && ForWords([], words).1 == [])
    ensures ParseFor(x) == Fail(Incomplete, [])
  {
    hide NameOf;
    if |x| > 2 { Took("in", words); }
  }

  lemma {:induction false} ForNoBody(x: Toks, words: Toks, z: Toks)
    requires |x| > 2 && AtKw(x, "for") && NameOf(x[1]).Some? && x[2..] == [Kw("in")] + (words + z)
    requires ForWords([], words + z) == (words, z) && AtKind(z, Semi)
    requires Block(z[1..], "do", "done").Fail?
    ensures var b := Block(z[1..], "do", "done"); ParseFor(x) == Fail(b.error, b.rest)
  {
    hide NameOf, Block, IsKw, ForWords;
    Took("in", words + z);
    assert ForList(words + z) == Ok(words, z[1..]);
    assert ForTail(NameOf(x[1]).value, words + z).Fail?;
    ForUnfold(x);
  }

  lemma {:induction false} BlockOpen(open: string, p: Toks, close: string)
    requires Open(ParseBody(p))
    ensures Block([Kw(open)] + p, open, close) == Fail(Incomplete, [])
  {
    hide ParseBody, IsKw, Closed;
    Took(open, p);
    ClosedOpen(p, close);
  }

  lemma {:induction false} BlockMissing(open: string, close: string)
    ensures Block([], open, close) == Fail(Incomplete, [])
  {
  }

  lemma {:induction false} ForCut(n: Node, k: nat)
    requires n.For? && NormalItem(n) && Plain(n) && 1 <= k < |PrintItem(n)|
    ensures ParseItem(PrintItem(n)[..k]) == Fail(Incomplete, [])
    decreases n, 1
  {
    hide PrintItem, ParseItem, PrintBody, ParseBody, IsName, IsKw, ParseFor;
    var p := ForShape(n, []);
    var z := [Op(Semi), Kw("do")] + p;
    var h := [Kw("for"), Kw(n.name), Kw("in")];
    var full := h + (n.words + z);
    assert PrintItem(n) + [] == PrintItem(n);
    Cut(h, n.words + z, k);
    Cut(n.words, z, if k < 3 then 0 else k - 3);
    var x := full[..k];
    ForHeadCut(n.name, x, n.words + z, k);
    Dispatch(x);
    if k < 3 {
      ForTooShort(x, []);
    } else if k - 3 <= |n.words| {
      ForWordsCut([], n.words[..k - 3]);
      ForTooShort(x, n.words[..k - 3]);
    } else {
      ForBodyCut(n, x, p, k - 3 - |n.words|);
    }
  }

  /** A `for` cut after its words. */
  lemma {:induction false} ForBodyCut(n: Node, x: Toks, p: Toks, j: nat)
    requires n.For? && NormalItem(n) && Plain(n) && p == PrintBody(n.body) + ([Kw("done")] + [])
    requires 1 <= j < 2 + |p| && |x| > 2 && AtKw(x, "for") && NameOf(x[1]).Some?
    requires x[2..] == [Kw("in")] + (n.words + ([Op(Semi), Kw("do")] + p)[..j])
    ensures ParseFor(x) == Fail(Incomplete, [])
    decreases n, 0
  {
    hide PrintBody, ParseBody, IsKw, ParseFor, NameOf;
    var z := [Op(Semi), Kw("do")] + p;
    ForWordsRead([], n.words, z[..j]);
    assert [] + n.words == n.words;
    if j > 1 {
      assert z[..j][1..] == [Kw("do")] + p[..j - 2];
      BodyThenCut(n.body, "done", [], j - 2);
      BlockOpen("do", p[..j - 2], "done");
    } else {
      assert z[..j][1..] == [];
      BlockMissing("do", "done");
    }
    ForNoBody(x, n.words, z[..j]);
  }

  lemma ForHeadCut(name: string, x: Toks, y: Toks, k: nat)
    requires IsName(name) && 1 <= k <= 3 + |y|
    requires x == ([Kw("for"), Kw(name), Kw("in")] + y)[..k]
    ensures AtKw(x, "for") && (k > 1 ==> NameOf(x[1]) == Some(name))
    ensures k == 2 ==> x[2..] == []
    ensures k > 2 ==> x[2..] == [Kw("in")] + y[..k - 3]
  {
  }

  lemma {:induction false} FuncCut(n: Node, k: nat)
    requires n.FuncDef? && NormalItem(n) && Plain(n) && 2 <= k < |PrintItem(n)|
    ensures ParseItem(PrintItem(n)[..k]) == Fail(Incomplete, [])
    decreases n, 1
  {
    hide PrintItem, PrintBody, ParseBody, IsName;
    var p := FuncShape(n, []);
    assert PrintItem(n) + [] == PrintItem(n);
    var h := [Kw(n.name), Op(LParen), Op(RParen), Kw("{")];
    Cut(h, p, k);
    if k > 4 {
      BodyThenCut(n.body, "}", [], k - 4);
    }
    FuncTooShort(n.name, (h + p)[..k], p, k);
  }

  lemma {:induction false} FuncTooShort(name: string, x: Toks, p: Toks, k: nat)
    requires IsName(name) && !IsReserved(Kw(name)) && 2 <= k <= 4 + |p|
    requires x == ([Kw(name), Op(LParen), Op(RParen), Kw("{")] + p)[..k]
    requires k > 4 ==> Open(ParseBody(p[..k - 4]))
    ensures ParseItem(x) == Fail(Incomplete, [])
  {
    hide ParseBody, IsName, Block, IsReserved;
    NotOpener(name);
    if k > 3 {
      assert x[3..] == [Kw("{")] + p[..k - 4];
      if k == 4 { NoBody(); }
      BlockOpen("{", p[..k - 4], "}");
    } else if k == 3 {
      assert x[3..] == [];
      BlockMissing("{", "}");
    }
  }

  lemma NoBody()
    ensures ParseBody([]) == Fail(Incomplete, [])
  {
  }

  lemma {:induction false} IfCut(n: Node, k: nat)
    requires n.If? && NormalItem(n) && Plain(n) && 1 <= k < |PrintItem(n)|
    ensures ParseItem(PrintItem(n)[..k]) == Fail(Incomplete, [])
    decreases n, 1
  {
    hide PrintItem, ParseItem, PrintArms, IfTail, IfLoop, IsKw;
    IfShape(n, []);
    assert PrintItem(n) + [] == PrintItem(n) && IfTail(n) + [] == IfTail(n);
    var p := PrintArms(n, 0) + IfTail(n);
    HeadCut(Kw("if"), p, k);
    IfParsed(p[..k - 1]);
    ArmsCut(n, 0, k - 1);
    assert n.conds[..0] == [] && n.bodies[..0] == [];
  }

  lemma {:induction false} IfStuck(cs: seq<Node>, bs: seq<Node>, p: Toks)
    requires Open(ParseBody(p))
    ensures IfLoop(cs, bs, p) == Fail(Incomplete, [])
  {
    hide ParseBody, Closed;
    ClosedOpen(p, "then");
  }

  lemma {:induction false} IfStuckBody(cs: seq<Node>, bs: seq<Node>, p: Toks, cond: Node, q: Toks)
    requires ParseBody(p) == Ok(cond, [Kw("then")] + q) && Open(ParseBody(q))
    ensures IfLoop(cs, bs, p) == Fail(Incomplete, [])
  {
    hide ParseBody, Closed;
    ClosedRead(p, cond, "then", q);
  }

  lemma {:induction false} IfStuckElse(cs: seq<Node>, bs: seq<Node>, p: Toks, cond: Node, q: Toks, body: Node, y: Toks)
    requires ParseBody(p) == Ok(cond, [Kw("then")] + q)
    requires ParseBody(q) == Ok(body, [Kw("else")] + y) && Open(ParseBody(y))
    ensures IfLoop(cs, bs, p) == Fail(Incomplete, [])
  {
    hide ParseBody, Closed, Arm;
    ArmRead(p, q, cond, body, [Kw("else")] + y);
    KwHead("else", y);
    ClosedOpen(y, "fi");
  }

  /** What comes after an arm: its keyword and the rest. */
  lemma AfterArm(n: Node, i: nat) returns (kw: string, y: Toks)
    requires n.If? && NormalItem(n) && 0 < i <= |n.conds|
    ensures kw in {"elif", "else", "fi"} && PrintArms(n, i) + IfTail(n) == [Kw(kw)] + y
    ensures (kw == "elif") == (i < |n.conds|) && (kw == "fi" ==> n.elseBody.None?)
    ensures kw == "else" ==> n.elseBody.Some? && y == PrintBody(n.elseBody.value) + ([Kw("fi")] + [])
    ensures kw == "fi" ==> y == []
  {
    if i < |n.conds| {
      kw := "elif";
      var p, q := ArmShape(n, i, IfTail(n));
      y := p;
    } else if n.elseBody.Some? {
      kw := "else";
      y := PrintBody(n.elseBody.value) + ([Kw("fi")] + []);
      ElseShape(n, [], y);
      assert IfTail(n) + [] == IfTail(n);
    } else {
      kw := "fi";
      y := [];
    }
  }

  lemma {:induction false} ArmsCut(n: Node, i: nat, k: nat)
    requires n.If? && NormalItem(n) && Plain(n) && i < |n.conds|
    requires var x := PrintArms(n, i) + IfTail(n); k < |x| - (if i > 0 then 1 else 0)
    ensures var x := PrintArms(n, i) + IfTail(n);
            IfLoop(n.conds[..i], n.bodies[..i], (if i > 0 then x[1..] else x)[..k]) == Fail(Incomplete, [])
    decreases n, 0, |n.conds| - i, 1
  {
    hide PrintArms, IfTail, IfLoop, IsKw, PrintBody, ParseBody;
    var x := PrintArms(n, i) + IfTail(n);
    var p, q := ArmShape(n, i, IfTail(n));
    assert (if i > 0 then x[1..] else x) == p;
    var cs, bs := n.conds[..i], n.bodies[..i];
    BodyThenCut(n.conds[i], "then", q, k);
    if k <= |PrintBody(n.conds[i])| {
      IfStuck(cs, bs, p[..k]);
    } else {
      var j := k - |PrintBody(n.conds[i])| - 1;
      BodyArmCut(n, i, p[..k], q, j);
    }
  }

  lemma {:induction false} BodyArmCut(n: Node, i: nat, p: Toks, q: Toks, j: nat)
    requires n.If? && NormalItem(n) && Plain(n) && i < |n.conds|
    requires q == PrintBody(n.bodies[i]) + (PrintArms(n, i + 1) + IfTail(n)) && j < |q|
    requires ParseBody(p) == Ok(n.conds[i], [Kw("then")] + q[..j])
    ensures IfLoop(n.conds[..i], n.bodies[..i], p) == Fail(Incomplete, [])
    decreases n, 0, |n.conds| - i, 0
  {
    hide PrintArms, IfTail, IfLoop, IsKw, PrintBody, ParseBody;
    var cs, bs, body := n.conds[..i], n.bodies[..i], n.bodies[i];
    var kw, y := AfterArm(n, i + 1);
    BodyThenCut(body, kw, y, j);
    if j <= |PrintBody(body)| {
      IfStuckBody(cs, bs, p, n.conds[i], q[..j]);
    } else {
      var m := j - |PrintBody(body)| - 1;
      if kw == "elif" {
        KwHead("elif", y[..m]);
        IfArmElif(cs, bs, p, q[..j], n.conds[i], body, [Kw("elif")] + y[..m]);
        assert n.conds[..i + 1] == cs + [n.conds[i]] && n.bodies[..i + 1] == bs + [body];
        ArmsCut(n, i + 1, m);
        assert (PrintArms(n, i + 1) + IfTail(n))[1..] == y;
      } else if kw == "else" {
        BodyThenCut(n.elseBody.value, "fi", [], m);
        IfStuckElse(cs, bs, p, n.conds[i], q[..j], body, y[..m]);
      }
    }
  }

  /** A printed item cut short anywhere was all read, without a syntax error. */
  lemma {:induction false} ItemCut(n: Node, k: nat)
    requires NormalItem(n) && Plain(n) && 0 < k <= |PrintItem(n)|
    ensures Open(ParseItem(PrintItem(n)[..k]))
    decreases n, 3
  {
    hide PrintItem, ParseItem, Plain;
    if n.Pipeline? || n.AndOr? {
      FlatCut(n, k);
    } else if k == |PrintItem(n)| {
      assert PrintItem(n)[..k] == PrintItem(n) + [];
      ItemRead(n, []);
    } else if n.FuncDef? && k == 1 {
      NameAlone(n);
    } else {
      CompoundCut(n, k);
    }
  }

  lemma {:induction false} NameAlone(n: Node)
    requires n.FuncDef? && NormalItem(n)
    ensures Open(ParseItem(PrintItem(n)[..1]))
  {
    hide PrintBody, NormalBody;
    var c := NO_COMMAND.(words := [Kw(n.name)]);
    assert PrintItem(n)[..1] == [Kw(n.name)];
    NameCommand(n.name);
  }

  lemma NameNotBang(name: string)
    requires IsName(name)
    ensures !IsKw(Kw(name), "!")
  {
    assert NameChar(name[0], true);
  }

  lemma NameCommand(name: string)
    requires IsName(name) && !IsReserved(Kw(name))
    ensures Open(ParseItem([Kw(name)]))
  {
    hide IsName;
    var x := [Kw(name)];
    var c := NO_COMMAND.(words := x);
    WordsRead(NO_COMMAND, x, []);
    assert x + [] == x && [] + x == x;
    EndOpen(c);
    PipeOpen([], x);
    NameNotBang(name);
    ChainOpen([], First, false, x);
    assert [] + x == x;
    SimpleParsed(x);
  }

  /** A list whose last item ends the input. */
  lemma {:induction false} LastItemOpen(acc: seq<Node>, x: Toks)
    requires Starts(x) && Open(ParseItem(x))
    ensures Open(ListLoop(acc, x))
    ensures acc != [] || ParseItem(x).Ok? ==> ListLoop(acc, x).Ok? ==> ListLoop(acc, x).value != []
  {
    hide ParseItem, IsKw, IsEnder;
    assert SkipSeps(x) == x;
    if ParseItem(x).Ok? { ListEnds(acc + [ParseItem(x).value], []); }
  }

  lemma StartsCut(x: Toks, k: nat)
    requires Starts(x) && 0 < k <= |x|
    ensures Starts(x[..k])
  {
    hide IsEnder;
    assert x[..k][0] == x[0];
  }

  lemma {:induction false} ListCut(acc: seq<Node>, nodes: seq<Node>, k: nat)
    requires NormalItems(nodes) && (forall i | 0 <= i < |nodes| :: Plain(nodes[i])) && k <= |PrintItems(nodes)|
    ensures Open(ListLoop(acc, PrintItems(nodes)[..k]))
    decreases nodes
  {
    hide ParseItem, IsKw, IsEnder, NormalItem, Plain, ListLoop, PrintItem, Starts;
    if k == 0 {
      ListEnds(acc, []);
      assert PrintItems(nodes)[..0] == [];
    } else {
      var n, tl := nodes[0], nodes[1..];
      var a, t := PrintItem(n), Terminator(n);
      ItemsShape(nodes, []);
      assert PrintItems(nodes) + [] == PrintItems(nodes) && PrintItems(tl) + [] == PrintItems(tl);
      OneItemCut(acc, n, PrintItems(tl), k);
      if k > |a| {
        ListCut(acc + [n], tl, k - |a| - 1);
      }
    }
  }

  /** An item, its terminator and more, cut after `k` tokens. */
  lemma {:induction false} OneItemCut(acc: seq<Node>, n: Node, more: Toks, k: nat)
    requires NormalItem(n) && Plain(n)
    requires 0 < k <= |PrintItem(n) + ([Terminator(n)] + more)|
    ensures var z, m := PrintItem(n) + ([Terminator(n)] + more), |PrintItem(n)|;
            if k <= m then Open(ListLoop(acc, z[..k]))
            else ListLoop(acc, z[..k]) == ListLoop(acc + [n], more[..k - m - 1])
    decreases n, 4
  {
    hide ParseItem, IsKw, IsEnder, NormalItem, Plain, ListLoop, PrintItem, Starts;
    var a, b := PrintItem(n), [Terminator(n)] + more;
    Cut(a, b, k);
    ItemRead(n, []);
    assert a + [] == a;
    if k <= |a| {
      ItemCut(n, k);
      StartsCut(a, k);
      LastItemOpen(acc, a[..k]);
    } else {
      var rest := more[..k - |a| - 1];
      assert b[..k - |a|] == [Terminator(n)] + rest;
      ItemRead(n, [Terminator(n)] + rest);
      ListStep(acc, n, a + ([Terminator(n)] + rest), rest);
    }
  }

  lemma {:induction false} BodyOpen(x: Toks)
    requires Open(ListLoop([], x))
    ensures Open(ParseBody(x))
  {
    hide ListLoop;
  }

  lemma {:induction false} BodyCut(n: Node, k: nat)
    requires NormalBody(n) && Plain(n) && k <= |PrintBody(n)|
    ensures Open(ParseBody(PrintBody(n)[..k]))
    decreases n, 5
  {
    hide ParseBody, IsKw, ListLoop, PrintItem, NormalItem;
    if n.List? {
      ListCut([], n.nodes, k);
    } else if k == 0 {
      ListEnds([], []);
      assert PrintBody(n)[..0] == [];
    } else {
      BareBody(n, []);
      assert PrintBody(n) + [] == PrintBody(n) && [Terminator(n)] + [] == [Terminator(n)];
      OneItemCut([], n, [], k);
      if k > |PrintItem(n)| { ListEnds([] + [n], []); }
    }
    BodyOpen(PrintBody(n)[..k]);
  }

  /** Every nonempty proper prefix of a printed compound (of at least two tokens
      for a function definition) asks for more input. */
  lemma {:induction false} CompoundAsksForMore(n: Node, k: nat)
    requires Compound(n) && NormalItem(n) && Plain(n)
    requires (if n.FuncDef? then 2 else 1) <= k < |PrintItem(n)|
    ensures ParseProgram(PrintItem(n)[..k]) == Fail(Incomplete, [])
  {
    hide PrintItem, ParseItem, NormalItem, Plain, IsKw, IsEnder, Starts;
    CompoundCut(n, k);
    ItemRead(n, []);
    assert PrintItem(n) + [] == PrintItem(n);
    StartsCut(PrintItem(n), k);
    UnfinishedProgram(PrintItem(n)[..k]);
  }

  lemma {:induction false} UnfinishedProgram(x: Toks)
    requires Starts(x) && ParseItem(x) == Fail(Incomplete, [])
    ensures ParseProgram(x) == Fail(Incomplete, [])
  {
    hide ParseItem, IsKw, IsEnder;
    assert SkipSeps(x) == x;
    assert ListLoop([], x) == Fail(Incomplete, []);
  }

  /** A printed program cut short anywhere is never a syntax error: the part
      either is a program already or asks for more input. */
  lemma {:induction false} PrefixNeverWrong(n: Node, k: nat)
    requires NormalBody(n) && Plain(n) && k <= |PrintBody(n)|
    ensures Open(ParseProgram(PrintBody(n)[..k]))
  {
    hide ParseBody, NormalBody, PrintBody;
    BodyCut(n, k);
    OpenProgram(PrintBody(n)[..k]);
  }

  lemma {:induction false} OpenProgram(x: Toks)
    requires Open(ParseBody(x))
    ensures Open(ParseProgram(x))
  {
    hide ListLoop;
  }
}
