/** Exactly which printed programs can be cut anywhere: those in which no
    redirect hides a command named `!`. */
module Hidden {
  import opened Options
  import opened Tokens
  import opened Ast
  import opened Grammar
  import opened NormalForm
  import opened RoundTrip
  import opened ParseNormal
  import opened Prefixes

  /** Every token was read, and the last command has no words. */
  predicate Wrong<T>(r: Result<T>) { r == Fail(Syntax, []) }

  lemma Joined(a: Toks, x: Toks, y: Toks)
    requires x <= y
    ensures a + x <= a + y
  {
  }

  lemma Within(x: Toks, y: Toks, z: Toks)
    requires x <= y
    ensures x <= y + z
  {
  }

  // ---- Pipelines and chains ------------------------------------------------------------

  /** The redirects in front of a hidden `!` are no command yet. */
  lemma RedirsAlone(c: Command)
    requires NormalCmd(c, true) && BangName(c)
    ensures PrintRedirs(c) != [] && IsRedir(PrintRedirs(c)[0].kind)
    ensures Wrong(SimpleLoop(NO_COMMAND, PrintRedirs(c)))
  {
    RedirsRead(c, [], []);
    assert PrintRedirs(c) + [] == PrintRedirs(c);
  }

  lemma {:induction false} LinkWrong(op: AndOrOp, q: Toks)
    requires q != [] && IsRedir(q[0].kind) && Wrong(SimpleLoop(NO_COMMAND, q))
    ensures Wrong(Link(op, q)) && Wrong(Link(op, [Kw("!")] + q))
  {
    hide SimpleLoop;
    KwHead("!", q);
    assert Wrong(PipeLoop([], q));
  }

  lemma PipelineWrong(n: Node, op: AndOrOp) returns (x: Toks)
    requires n.Pipeline? && NormalCmds(n.cmds) && !Plain(n)
    ensures x <= PrintPipeline(n) && x != [] && Wrong(Link(op, x))
  {
    hide NormalCmd, PrintRedirs, SimpleLoop, Link, IsKw, IsReserved;
    var c := n.cmds[0];
    assert NormalCmd(c, true);
    RedirsAlone(c);
    var b := if n.negate then [Kw("!")] else [];
    x := b + PrintRedirs(c);
    assert [] + PrintRedirs(c) == PrintRedirs(c);
    LinkWrong(op, PrintRedirs(c));
    Within(PrintRedirs(c), PrintCmd(c, true), PrintStages(n.cmds[1..], false));
    assert PrintStages(n.cmds, true) == PrintCmd(c, true) + PrintStages(n.cmds[1..], false);
    Joined(b, PrintRedirs(c), PrintStages(n.cmds, true));
  }

  lemma {:induction false} ChainLinkWrong(acc: seq<AndOrItem>, op: AndOrOp, x: Toks)
    requires Wrong(Link(op, x))
    ensures Wrong(AndOrLoop(acc, op, x))
  {
    hide Link;
  }

  lemma {:induction false} ChainWrong(acc: seq<AndOrItem>, it: AndOrItem, more: seq<AndOrItem>) returns (x: Toks)
    requires NormalLink(it, it.op == First)
    requires forall i | 0 <= i < |more| :: NormalLink(more[i], false)
    requires !Plain(it.node) || exists i | 0 <= i < |more| :: !Plain(more[i].node)
    ensures x <= PrintPipeline(it.node) + PrintChain(more) && x != [] && Wrong(AndOrLoop(acc, it.op, x))
    decreases |more|
  {
    hide NormalCmds, PrintPipeline, PipeLoop, IsKw, AndOrLoop, Plain, Link, PrintChain;
    if !Plain(it.node) {
      x := PipelineWrong(it.node, it.op);
      ChainLinkWrong(acc, it.op, x);
      Within(x, PrintPipeline(it.node), PrintChain(more));
    } else {
      var it2, tl := more[0], more[1..];
      var op := if it2.op == And then Op(AndIf) else Op(OrIf);
      var y := ChainWrong(acc + [it], it2, tl);
      x := PrintPipeline(it.node) + ([op] + y);
      ChainStepCut(acc, it, it2, y, op, PrintChain(tl));
      ChainFront(more);
    }
  }

  // ---- Items -----------------------------------------------------------------------------

  lemma {:induction false} FlatItemWrong(x: Toks)
    requires PlainStart(x) && Wrong(AndOrLoop([], First, x))
    ensures Wrong(ParseItem(x))
  {
    hide AndOrLoop;
  }

  lemma ChainItemsWrong(items: seq<AndOrItem>) returns (x: Toks)
    requires |items| >= 2 && NormalAndOr(items) && exists i | 0 <= i < |items| :: !Plain(items[i].node)
    ensures x <= PrintChain(items) && x != [] && Wrong(AndOrLoop([], First, x)) && PlainStart(PrintChain(items))
  {
    hide NormalCmds, PrintPipeline, IsKw, AndOrLoop, PlainStart, PrintChain, Plain;
    var it, more := items[0], items[1..];
    SplitTwo(items);
    assert more == [items[1]] + items[2..];
    assert NormalLink(it, true) && NormalLink(items[1], false);
    ChainPair(it, items[1], items[2..], []);
    ChainHead(it, more);
    forall i | 0 <= i < |more| ensures NormalLink(more[i], false) { assert NormalLink(items[i + 1], false); }
    var i :| 0 <= i < |items| && !Plain(items[i].node);
    assert i > 0 ==> items[i] == more[i - 1];
    x := ChainWrong([], it, more);
  }

  lemma FlatWrong(n: Node) returns (x: Toks)
    requires (n.Pipeline? || n.AndOr?) && NormalItem(n) && !Plain(n)
    ensures x <= PrintItem(n) && x != [] && Wrong(ParseItem(x))
  {
    hide NormalCmds, PrintPipeline, IsKw, AndOrLoop, ParseItem, PlainStart, PrintChain, Link, NormalAndOr;
    if n.Pipeline? {
      PipelineTokens(n, []);
      assert PrintPipeline(n) == PrintPipeline(n) + [];
      x := PipelineWrong(n, First);
      ChainLinkWrong([], First, x);
    } else {
      x := ChainItemsWrong(n.items);
    }
    PlainStartCut(PrintItem(n), |x|);
    assert PrintItem(n)[..|x|] == x;
    FlatItemWrong(x);
  }

  lemma {:induction false} ClosedWrong(p: Toks, kw: string)
    requires Wrong(ParseBody(p))
    ensures Wrong(Closed(p, kw))
  {
    hide ParseBody;
  }

  lemma {:induction false} BlockWrong(open: string, p: Toks, close: string)
    requires Wrong(ParseBody(p))
    ensures Wrong(Block([Kw(open)] + p, open, close))
  {
    hide ParseBody, IsKw, Closed;
    Took(open, p);
    ClosedWrong(p, close);
  }

  lemma {:induction false} WhileWrong(n: Node) returns (x: Toks)
    requires n.While? && NormalItem(n) && !Plain(n)
    ensures x <= PrintItem(n) && x != [] && Wrong(ParseItem(x))
    decreases n, 1
  {
    hide PrintItem, ParseItem, PrintBody, ParseBody, IsKw, Closed;
    var p, q := WhileShape(n, []);
    assert PrintItem(n) + [] == PrintItem(n);
    var y: Toks;
    if !Plain(n.cond) {
      y := BodyWrong(n.cond);
      Within(y, PrintBody(n.cond), [Kw("do")] + q);
      ClosedWrong(y, "do");
    } else {
      var z := BodyWrong(n.body);
      y := PrintBody(n.cond) + ([Kw("do")] + z);
      KwBodyStop("do", z);
      BodyRead(n.cond, [Kw("do")] + z);
      ClosedRead(y, n.cond, "do", z);
      ClosedWrong(z, "done");
      Within(z, PrintBody(n.body), [Kw("done")] + []);
    }
    x := [Kw("while")] + y;
    KwHead("while", y);
    Dispatch(x);
  }

  lemma {:induction false} ForBodyWrong(x: Toks, words: Toks, y: Toks)
    requires |x| > 2 && AtKw(x, "for") && NameOf(x[1]).Some? && forall i | 0 <= i < |words| :: WordTok(words[i])
    requires x[2..] == [Kw("in")] + (words + ([Op(Semi), Kw("do")] + y)) && Wrong(ParseBody(y))
    ensures Wrong(ParseFor(x))
  {
    hide ParseBody, IsKw, ParseFor, NameOf;
    var z := [Op(Semi), Kw("do")] + y;
    ForWordsRead([], words, z);
    assert [] + words == words && z[1..] == [Kw("do")] + y;
    BlockWrong("do", y, "done");
    ForNoBody(x, words, z);
  }

  lemma {:induction false} ForWrong(n: Node) returns (x: Toks)
    requires n.For? && NormalItem(n) && !Plain(n)
    ensures x <= PrintItem(n) && x != [] && Wrong(ParseItem(x))
    decreases n, 1
  {
    hide PrintItem, ParseItem, PrintBody, ParseBody, IsName, IsKw, ParseFor;
    var p := ForShape(n, []);
    assert PrintItem(n) + [] == PrintItem(n);
    var y := BodyWrong(n.body);
    Within(y, PrintBody(n.body), [Kw("done")] + []);
    var z := [Op(Semi), Kw("do")] + y;
    x := [Kw("for"), Kw(n.name), Kw("in")] + (n.words + z);
    ForHead(x, n.name, n.words + z);
    Dispatch(x);
    ForBodyWrong(x, n.words, y);
  }

  lemma {:induction false} FuncBodyWrong(name: string, p: Toks)
    requires IsName(name) && !IsReserved(Kw(name)) && Wrong(ParseBody(p))
    ensures Wrong(ParseItem([Kw(name), Op(LParen), Op(RParen), Kw("{")] + p))
  {
    hide ParseBody, IsName, Block, IsReserved;
    var x := [Kw(name), Op(LParen), Op(RParen), Kw("{")] + p;
    NotOpener(name);
    assert x[3..] == [Kw("{")] + p;
    BlockWrong("{", p, "}");
  }

  lemma {:induction false} FuncWrong(n: Node) returns (x: Toks)
    requires n.FuncDef? && NormalItem(n) && !Plain(n)
    ensures x <= PrintItem(n) && |x| >= 2 && Wrong(ParseItem(x))
    decreases n, 1
  {
    hide PrintItem, PrintBody, ParseBody, IsName;
    var p := FuncShape(n, []);
    assert PrintItem(n) + [] == PrintItem(n);
    var y := BodyWrong(n.body);
    Within(y, PrintBody(n.body), [Kw("}")] + []);
    x := [Kw(n.name), Op(LParen), Op(RParen), Kw("{")] + y;
    FuncBodyWrong(n.name, y);
  }

  /** The condition and body pairs from the `i`th on, and the `else`, hide nothing. */
  predicate PlainFrom(n: Node, i: nat)
    requires n.If? && |n.conds| == |n.bodies|
  {
    && (forall j | i <= j < |n.conds| :: Plain(n.conds[j]) && Plain(n.bodies[j]))
    && (n.elseBody.Some? ==> Plain(n.elseBody.value))
  }

  lemma {:induction false} ArmWrong(cs: seq<Node>, bs: seq<Node>, p: Toks)
    requires Wrong(ParseBody(p))
    ensures Wrong(IfLoop(cs, bs, p))
  {
    hide ParseBody, Closed;
    ClosedWrong(p, "then");
  }

  lemma {:induction false} ArmBodyWrong(cs: seq<Node>, bs: seq<Node>, p: Toks, cond: Node, q: Toks)
    requires ParseBody(p) == Ok(cond, [Kw("then")] + q) && Wrong(ParseBody(q))
    ensures Wrong(IfLoop(cs, bs, p))
  {
    hide ParseBody, Closed;
    ClosedRead(p, cond, "then", q);
  }

  lemma {:induction false} ElseWrong(cs: seq<Node>, bs: seq<Node>, p: Toks, cond: Node, q: Toks, body: Node, y: Toks)
    requires ParseBody(p) == Ok(cond, [Kw("then")] + q)
    requires ParseBody(q) == Ok(body, [Kw("else")] + y) && Wrong(ParseBody(y))
    ensures Wrong(IfLoop(cs, bs, p))
  {
    hide ParseBody, Closed, Arm;
    ArmRead(p, q, cond, body, [Kw("else")] + y);
    KwHead("else", y);
    ClosedWrong(y, "fi");
  }

  lemma {:induction false} ArmsWrong(n: Node, i: nat) returns (x: Toks)
    requires n.If? && NormalItem(n) && i < |n.conds| && !PlainFrom(n, i)
    ensures var z := PrintArms(n, i) + IfTail(n); x <= if i > 0 then z[1..] else z
    ensures Wrong(IfLoop(n.conds[..i], n.bodies[..i], x))
    decreases n, 0, |n.conds| - i, 1
  {
    hide PrintArms, IfTail, IfLoop, IsKw, PrintBody, ParseBody, Plain;
    var p, q := ArmShape(n, i, IfTail(n));
    var z := PrintArms(n, i) + IfTail(n);
    assert (if i > 0 then z[1..] else z) == p;
    var cs, bs, cond := n.conds[..i], n.bodies[..i], n.conds[i];
    if !Plain(cond) {
      x := BodyWrong(cond);
      ArmWrong(cs, bs, x);
      Within(x, PrintBody(cond), [Kw("then")] + q);
    } else {
      x := BodyArmWrong(n, i, q);
    }
  }

  /** A body, a closing keyword and more: the body is read. */
  lemma {:induction false} BodyTaken(n: Node, kw: string, y: Toks, z: Toks)
    requires NormalBody(n) && kw in {"do", "done", "then", "elif", "else", "fi", "}"} && y <= z
    ensures ParseBody(PrintBody(n) + ([Kw(kw)] + y)) == Ok(n, [Kw(kw)] + y)
    ensures PrintBody(n) + ([Kw(kw)] + y) <= PrintBody(n) + ([Kw(kw)] + z)
  {
    hide ParseBody, BodyStop, PrintBody;
    KwBodyStop(kw, y);
    BodyRead(n, [Kw(kw)] + y);
  }

  lemma {:induction false} BodyArmWrong(n: Node, i: nat, q: Toks) returns (x: Toks)
    requires n.If? && NormalItem(n) && i < |n.conds| && !PlainFrom(n, i) && Plain(n.conds[i])
    requires q == PrintBody(n.bodies[i]) + (PrintArms(n, i + 1) + IfTail(n))
    ensures x <= PrintBody(n.conds[i]) + ([Kw("then")] + q)
    ensures Wrong(IfLoop(n.conds[..i], n.bodies[..i], x))
    decreases n, 0, |n.conds| - i, 0
  {
    hide PrintArms, IfTail, IfLoop, IsKw, PrintBody, ParseBody, Plain;
    var cs, bs, cond, body := n.conds[..i], n.bodies[..i], n.conds[i], n.bodies[i];
    var kw, z := AfterArm(n, i + 1);
    var y: Toks;
    if !Plain(body) {
      y := BodyWrong(body);
      Within(y, PrintBody(body), PrintArms(n, i + 1) + IfTail(n));
      BodyTaken(cond, "then", y, q);
      x := PrintBody(cond) + ([Kw("then")] + y);
      ArmBodyWrong(cs, bs, x, cond, y);
    } else {
      var w: Toks;
      if kw == "elif" {
        w := ArmsWrong(n, i + 1);
        assert (PrintArms(n, i + 1) + IfTail(n))[1..] == z;
      } else {
        w := BodyWrong(n.elseBody.value);
        Within(w, PrintBody(n.elseBody.value), [Kw("fi")] + []);
      }
      y := PrintBody(body) + ([Kw(kw)] + w);
      BodyTaken(body, kw, w, z);
      BodyTaken(cond, "then", y, q);
      x := PrintBody(cond) + ([Kw("then")] + y);
      KwHead(kw, w);
      if kw == "elif" {
        IfArmElif(cs, bs, x, y, cond, body, [Kw("elif")] + w);
        assert n.conds[..i + 1] == cs + [cond] && n.bodies[..i + 1] == bs + [body];
      } else {
        ElseWrong(cs, bs, x, cond, y, body, w);
      }
    }
  }

  lemma {:induction false} IfWrong(n: Node) returns (x: Toks)
    requires n.If? && NormalItem(n) && !Plain(n)
    ensures x <= PrintItem(n) && x != [] && Wrong(ParseItem(x))
    decreases n, 1
  {
    hide PrintItem, ParseItem, PrintArms, IfTail, IfLoop, IsKw;
    IfShape(n, []);
    assert PrintItem(n) + [] == PrintItem(n) && IfTail(n) + [] == IfTail(n);
    var y := ArmsWrong(n, 0);
    x := [Kw("if")] + y;
    IfParsed(y);
    assert n.conds[..0] == [] && n.bodies[..0] == [];
  }

  /** An item that hides a `!` has a cut that is a syntax error. */
  lemma {:induction false} ItemWrong(n: Node) returns (x: Toks)
    requires NormalItem(n) && !Plain(n)
    ensures x <= PrintItem(n) && x != [] && (n.FuncDef? ==> |x| >= 2) && Wrong(ParseItem(x))
    decreases n, 2
  {
    hide PrintItem, ParseItem, NormalCmds, NormalAndOr, Plain;
    match n
    case While(_, _) => x := WhileWrong(n);
    case For(_, _, _) => x := ForWrong(n);
    case FuncDef(_, _) => x := FuncWrong(n);
    case If(_, _, _) => x := IfWrong(n);
    case _ => x := FlatWrong(n);
  }

  // ---- Lists and bodies -----------------------------------------------------------------

  lemma {:induction false} FirstItemWrong(acc: seq<Node>, x: Toks)
    requires Starts(x) && Wrong(ParseItem(x))
    ensures Wrong(ListLoop(acc, x))
  {
    hide ParseItem, IsKw, IsEnder;
    assert SkipSeps(x) == x;
  }

  lemma {:induction false} ListWrong(acc: seq<Node>, nodes: seq<Node>) returns (x: Toks)
    requires NormalItems(nodes) && exists i | 0 <= i < |nodes| :: !Plain(nodes[i])
    ensures x <= PrintItems(nodes) && Wrong(ListLoop(acc, x))
    decreases nodes
  {
    hide ParseItem, IsKw, IsEnder, NormalItem, Plain, ListLoop, PrintItem, Starts;
    var n, tl := nodes[0], nodes[1..];
    ItemsShape(nodes, []);
    assert PrintItems(nodes) + [] == PrintItems(nodes) && PrintItems(tl) + [] == PrintItems(tl);
    if !Plain(n) {
      x := OneItemWrong(acc, n);
      Within(x, PrintItem(n), [Terminator(n)] + PrintItems(tl));
    } else {
      var y := ListWrong(acc + [n], tl);
      x := PrintItem(n) + ([Terminator(n)] + y);
      ItemRead(n, [Terminator(n)] + y);
      ListStep(acc, n, x, y);
    }
  }

  lemma {:induction false} OneItemWrong(acc: seq<Node>, n: Node) returns (x: Toks)
    requires NormalItem(n) && !Plain(n)
    ensures x <= PrintItem(n) && Wrong(ListLoop(acc, x))
    decreases n, 3
  {
    hide ParseItem, IsKw, IsEnder, NormalItem, Plain, ListLoop, PrintItem, Starts;
    x := ItemWrong(n);
    ItemRead(n, []);
    assert PrintItem(n) + [] == PrintItem(n) && PrintItem(n)[..|x|] == x;
    StartsCut(PrintItem(n), |x|);
    FirstItemWrong(acc, x);
  }

  lemma {:induction false} BodyFails(x: Toks)
    requires Wrong(ListLoop([], x))
    ensures Wrong(ParseBody(x))
  {
    hide ListLoop;
  }

  lemma {:induction false} BodyWrong(n: Node) returns (x: Toks)
    requires NormalBody(n) && !Plain(n)
    ensures x <= PrintBody(n) && Wrong(ParseBody(x))
    decreases n, 4
  {
    hide ParseBody, IsKw, ListLoop, PrintItem, NormalItem;
    if n.List? {
      x := ListWrong([], n.nodes);
    } else {
      x := OneItemWrong([], n);
      Within(x, PrintItem(n), [Terminator(n)]);
    }
    BodyFails(x);
  }

  // ---- Whole programs -------------------------------------------------------------------

  lemma {:induction false} ProgramFails(x: Toks)
    requires Wrong(ParseBody(x))
    ensures Wrong(ParseProgram(x))
  {
    hide ListLoop;
  }

  /** A printed program can be cut anywhere without a syntax error exactly when no
      redirect hides a `!`. */
  lemma {:induction false} PrefixIff(n: Node)
    requires NormalBody(n)
    ensures Plain(n) <==> forall k | 0 <= k <= |PrintBody(n)| :: Open(ParseProgram(PrintBody(n)[..k]))
  {
    hide ParseProgram, ParseBody, NormalBody, PrintBody, Plain;
    if Plain(n) {
      forall k | 0 <= k <= |PrintBody(n)| ensures Open(ParseProgram(PrintBody(n)[..k])) { PrefixNeverWrong(n, k); }
    } else {
      var x := BodyWrong(n);
      assert PrintBody(n)[..|x|] == x;
      ProgramFails(x);
    }
  }

  lemma {:induction false} ItemFails(x: Toks)
    requires Starts(x) && Wrong(ParseItem(x))
    ensures Wrong(ParseProgram(x))
  {
    hide ParseItem, ListLoop, Starts;
    FirstItemWrong([], x);
  }

  /** Every nonempty proper prefix of a printed compound (of at least two tokens
      for a function definition) asks for more input exactly when no redirect
      hides a `!`. */
  lemma {:induction false} CompoundIff(n: Node)
    requires Compound(n) && NormalItem(n)
    ensures Plain(n) <==> forall k | (if n.FuncDef? then 2 else 1) <= k < |PrintItem(n)| ::
                            ParseProgram(PrintItem(n)[..k]) == Fail(Incomplete, [])
  {
    hide ParseProgram, ParseItem, NormalItem, PrintItem, Plain, Starts;
    var lo := if n.FuncDef? then 2 else 1;
    if Plain(n) {
      forall k | lo <= k < |PrintItem(n)| ensures ParseProgram(PrintItem(n)[..k]) == Fail(Incomplete, []) {
        CompoundAsksForMore(n, k);
      }
    } else {
      var x := ItemWrong(n);
      ItemRead(n, []);
      assert PrintItem(n) + [] == PrintItem(n) && PrintItem(n)[..|x|] == x;
      assert x != PrintItem(n);
      StartsCut(PrintItem(n), |x|);
      ItemFails(x);
    }
  }

  /** `< in ! x ;` is a program whose first two tokens are a syntax error. */
  lemma HiddenBangCut()
    ensures var c := Command([Kw("!"), Kw("x")], Some(Kw("in")), None, false, None);
            var n := Pipeline([c], false, false);
            && NormalBody(n) && !Plain(n)
            && PrintBody(n) == [Op(RedirIn), Kw("in"), Kw("!"), Kw("x"), Op(Semi)]
            && ParseProgram(PrintBody(n)[..2]) == Fail(Syntax, [])
  {
    var c := Command([Kw("!"), Kw("x")], Some(Kw("in")), None, false, None);
    var n := Pipeline([c], false, false);
    BangCommand(c, n);
    BangTokens(c, n);
    assert PrintBody(n)[..2] == [Op(RedirIn), Kw("in")];
    BangCut(c);
  }

  lemma {:induction false} BangTokens(c: Command, n: Node)
    requires c == Command([Kw("!"), Kw("x")], Some(Kw("in")), None, false, None)
    requires n == Pipeline([c], false, false) && NormalBody(n)
    ensures PrintBody(n) == [Op(RedirIn), Kw("in"), Kw("!"), Kw("x"), Op(Semi)]
  {
    hide NormalCmd, IsReserved;
    assert PrintRedirs(c) == [Op(RedirIn), Kw("in")];
    assert PrintStages([c], true) == PrintCmd(c, true);
  }

  lemma BangCut(c: Command)
    requires c == Command([Kw("!"), Kw("x")], Some(Kw("in")), None, false, None) && NormalCmd(c, true)
    ensures ParseProgram([Op(RedirIn), Kw("in")]) == Fail(Syntax, [])
  {
    hide ParseProgram, ParseItem, SimpleLoop, Link, AndOrLoop, NormalCmd;
    var x := [Op(RedirIn), Kw("in")];
    assert PrintRedirs(c) == x;
    RedirsAlone(c);
    LinkWrong(First, x);
    ChainLinkWrong([], First, x);
    FlatItemWrong(x);
    ItemFails(x);
  }
}
