/** Each phrase is read as what it means, and the parser stops exactly where it ends. */
module PhraseRead {
  import opened Options
  import opened Tokens
  import opened Ast
  import opened Grammar
  import opened Phrases

  // ---- Reading a command ------------------------------------------------------------------

  predicate InCommand(ts: Toks) { ts != [] && (ts[0].kind == Word || IsRedir(ts[0].kind)) }

  /** A prefix of the parts of a command. */
  lemma {:induction false} PartsPrefix(ps: seq<Part>, qs: seq<Part>)
    requires PartsOk(ps + qs)
    ensures PartsOk(ps)
    ensures NamesOf(ps) != [] ==> NamesOf(ps + qs) != [] && NamesOf(ps + qs)[0] == NamesOf(ps)[0]
    decreases |qs|
  {
    if qs == [] {
      assert ps + qs == ps;
    } else {
      var n := |qs| - 1;
      assert (ps + qs)[..|ps| + n] == ps + qs[..n];
      FewerParts(ps + qs);
      PartsPrefix(ps, qs[..n]);
    }
  }

  lemma {:induction false} FewerParts(ps: seq<Part>)
    requires ps != [] && PartsOk(ps)
    ensures var qs := ps[..|ps| - 1]; PartsOk(qs) && (NamesOf(qs) != [] ==> NamesOf(ps)[..|NamesOf(qs)|] == NamesOf(qs))
  {
    hide IsReserved;
    var qs := ps[..|ps| - 1];
    assert forall i | 0 <= i < |qs| :: qs[i] == ps[i];
  }

  lemma {:induction false} SlotFree(ps: seq<Part>, k: Kind, k': Kind)
    requires forall i | 0 <= i < |ps| :: ps[i].Redirect? ==> ps[i].op.kind != k && ps[i].op.kind != k'
    ensures Target(ps, k, k').None?
    decreases |ps|
  {
    if ps != [] { SlotFree(ps[..|ps| - 1], k, k'); }
  }

  lemma {:induction false} PartStep(done: seq<Part>, p: Part, ts: Toks)
    requires PartsOk(done + [p])
    ensures SimpleLoop(CommandOf(done), PartsText([p], ts)) == SimpleLoop(CommandOf(done + [p]), ts)
  {
    hide IsReserved, PartsOk;
    var all := done + [p];
    assert all[..|all| - 1] == done && all[|all| - 1] == p;
    assert [p][1..] == [] && PartsText([], ts) == ts;
    match p
    case Name(w) => NameStep(done, w, ts);
    case Redirect(op, t) => RedirectStep(done, op, t, ts);
  }

  lemma {:induction false} NameStep(done: seq<Part>, w: Token, ts: Toks)
    requires PartsOk(done + [Name(w)])
    ensures SimpleLoop(CommandOf(done), [w] + ts) == SimpleLoop(CommandOf(done + [Name(w)]), ts)
  {
    hide IsReserved;
    var all := done + [Name(w)];
    assert all[..|all| - 1] == done && all[|all| - 1] == Name(w);
    assert ([w] + ts)[1..] == ts;
    assert CommandOf(all) == CommandOf(done).(words := NamesOf(done) + [w]);
  }

  lemma {:induction false} RedirectStep(done: seq<Part>, op: Token, t: Token, ts: Toks)
    requires PartsOk(done + [Redirect(op, t)])
    ensures SimpleLoop(CommandOf(done), [op, t] + ts) == SimpleLoop(CommandOf(done + [Redirect(op, t)]), ts)
  {
    hide IsReserved;
    var p := Redirect(op, t);
    var all := done + [p];
    assert all[..|all| - 1] == done && all[|all| - 1] == p;
    assert ([op, t] + ts)[2..] == ts;
    SlotSet(done, op, t);
  }

  lemma {:induction false} TargetStep(done: seq<Part>, op: Token, t: Token, k: Kind, k': Kind)
    ensures Target(done + [Redirect(op, t)], k, k')
            == if op.kind == k || op.kind == k' then Some(t) else Target(done, k, k')
  {
    var all := done + [Redirect(op, t)];
    assert all[..|all| - 1] == done && all[|all| - 1] == Redirect(op, t);
  }

  lemma {:induction false} SlotSet(done: seq<Part>, op: Token, t: Token)
    requires PartsOk(done + [Redirect(op, t)])
    ensures SetRedir(CommandOf(done), op.kind, t) == Some(CommandOf(done + [Redirect(op, t)]))
  {
    hide IsReserved, Target;
    var p := Redirect(op, t);
    var all := done + [p];
    assert all[..|all| - 1] == done && all[|all| - 1] == p;
    assert PartOk(all[|done|]);
    forall i | 0 <= i < |done| ensures !SameSlot(done[i], p) {
      assert all[i] == done[i] && !SameSlot(all[i], all[|done|]);
    }
    assert NamesOf(all) == NamesOf(done);
    TargetStep(done, op, t, RedirIn, RedirIn);
    TargetStep(done, op, t, RedirOut, RedirAppend);
    TargetStep(done, op, t, RedirAppend, RedirAppend);
    TargetStep(done, op, t, RedirErr, RedirErr);
    if op.kind == RedirIn {
      SlotFree(done, RedirIn, RedirIn);
    } else if op.kind == RedirErr {
      SlotFree(done, RedirErr, RedirErr);
    } else {
      SlotFree(done, RedirOut, RedirAppend);
      SlotFree(done, RedirAppend, RedirAppend);
    }
  }

  lemma {:induction false} SimpleRead(done: seq<Part>, ps: seq<Part>, rest: Toks)
    requires PartsOk(done + ps) && NamesOf(done + ps) != [] && !InCommand(rest)
    ensures SimpleLoop(CommandOf(done), PartsText(ps, rest)) == Ok(CommandOf(done + ps), rest)
    decreases |ps|
  {
    hide PartsOk, NamesOf, Target, IsReserved;
    if ps == [] {
      assert done + ps == done;
    } else {
      var next := done + [ps[0]];
      assert next + ps[1..] == done + ps;
      PartsPrefix(next, ps[1..]);
      PartStep(done, ps[0], PartsText(ps[1..], rest));
      assert PartsText(ps, rest) == PartsText([ps[0]], PartsText(ps[1..], rest)) by {
        assert [ps[0]][1..] == [];
      }
      SimpleRead(next, ps[1..], rest);
    }
  }

  /** A command starts with a word or a redirect. */
  lemma {:induction false} PartsHead(ps: seq<Part>, rest: Toks)
    requires PartsOk(ps) && ps != []
    ensures InCommand(PartsText(ps, rest))
    ensures PartsText(ps, rest)[0].kind == Word <==> ps[0].Name?
    ensures ps[0].Name? ==> PartsText(ps, rest)[0] == ps[0].word && !IsReserved(ps[0].word)
  {
    hide IsReserved;
    assert PartOk(ps[0]);
    if ps[0].Name? { FirstName(ps); }
  }

  lemma {:induction false} FirstName(ps: seq<Part>)
    requires ps != [] && ps[0].Name?
    ensures NamesOf(ps) != [] && NamesOf(ps)[0] == ps[0].word
    decreases |ps|
  {
    if |ps| > 1 { FirstName(ps[..|ps| - 1]); } else { assert NamesOf(ps[..0]) == []; }
  }

  // ---- Reading pipelines and chains -----------------------------------------------------------

  lemma {:induction false} NewlinesSkipped(nl: Toks, ts: Toks)
    requires Newlines(nl) && !AtKind(ts, Newline)
    ensures SkipNl(nl + ts) == ts
    decreases |nl|
  {
    if nl == [] {
      assert nl + ts == ts;
    } else {
      assert (nl + ts)[1..] == nl[1..] + ts && (nl + ts)[0] == nl[0];
      NewlinesSkipped(nl[1..], ts);
    }
  }

  lemma {:induction false} SepsSkipped(seps: Toks, ts: Toks)
    requires Separating(seps) && !AtSep(ts)
    ensures SkipSeps(seps + ts) == ts
    decreases |seps|
  {
    if seps == [] {
      assert seps + ts == ts;
    } else {
      assert (seps + ts)[1..] == seps[1..] + ts && (seps + ts)[0] == seps[0];
      SepsSkipped(seps[1..], ts);
    }
  }

  lemma {:induction false} StagesHead(s: Stages, rest: Toks)
    requires StagesOk(s)
    ensures s.parts != [] && InCommand(StagesText(s, rest))
    ensures StagesText(s, rest)[0].kind == Word <==> s.parts[0].Name?
    ensures s.parts[0].Name? ==> StagesText(s, rest)[0] == s.parts[0].word && !IsReserved(s.parts[0].word)
  {
    hide PartsOk, IsReserved, PartsText;
    assert NamesOf([]) == [];
    PartsHead(s.parts, if s.Stage? then s.lead + StagesText(s.more, rest) else rest);
  }

  lemma {:induction false} StagesRead(cmds: seq<Command>, s: Stages, rest: Toks)
    requires StagesOk(s) && !InCommand(rest) && !AtKind(rest, Pipe)
    ensures PipeLoop(cmds, StagesText(s, rest)) == Ok(cmds + Commands(s), rest)
    decreases s
  {
    hide PartsOk, NamesOf, Target, IsReserved, SimpleLoop, PartsText;
    var ps := s.parts;
    assert NO_COMMAND == CommandOf([]) by { EmptyCommand(); }
    assert [] + ps == ps;
    match s
    case LastStage(_) =>
      SimpleRead([], ps, rest);
      assert Commands(s) == [CommandOf(ps)];
    case Stage(_, lead, more) =>
      var after := StagesText(more, rest);
      var ts := lead + after;
      assert ts[0] == lead[0] && ts[1..] == lead[1..] + after;
      SimpleRead([], ps, ts);
      StagesHead(more, rest);
      NewlinesSkipped(lead[1..], after);
      StagesRead(cmds + [CommandOf(ps)], more, rest);
      assert cmds + [CommandOf(ps)] + Commands(more) == cmds + Commands(s);
  }

  lemma EmptyCommand()
    ensures NO_COMMAND == CommandOf([])
  {
  }

  lemma {:induction false} LinkRead(op: AndOrOp, c: Chain, rest: Toks)
    requires BangOk(c) && StagesOk(c.stages) && !InCommand(rest) && !AtKind(rest, Pipe)
    ensures Link(op, c.bang + StagesText(c.stages, rest)) == Ok(AndOrItem(op, PipelineOf(c)), rest)
  {
    hide PipeLoop, StagesOk, StagesText, Commands;
    var st := StagesText(c.stages, rest);
    StagesHead(c.stages, rest);
    StagesRead([], c.stages, rest);
    assert [] + Commands(c.stages) == Commands(c.stages);
    if c.bang == [] {
      assert c.bang + st == st;
    } else {
      assert (c.bang + st)[0] == c.bang[0] && (c.bang + st)[1..] == st;
    }
  }

  lemma {:induction false} ChainHead(c: Chain, rest: Toks)
    requires ChainOk(c)
    ensures var ts := ChainText(c, rest);
            InCommand(ts) && (ts[0].kind == Word ==> !IsReserved(ts[0]))
  {
    hide StagesOk, StagesText;
    var more := if c.Joined? then c.lead + ChainText(c.more, rest) else rest;
    StagesHead(c.stages, more);
    if c.bang != [] { BangFree(c.bang[0]); }
  }

  lemma BangFree(t: Token)
    requires IsKw(t, "!")
    ensures t.kind == Word && !IsReserved(t)
  {
  }

  lemma {:induction false} ChainRead(items: seq<AndOrItem>, op: AndOrOp, c: Chain, rest: Toks)
    requires ChainOk(c) && !InCommand(rest)
    requires !AtKind(rest, Pipe) && !AtKind(rest, AndIf) && !AtKind(rest, OrIf)
    ensures AndOrLoop(items, op, ChainText(c, rest)) == Ok(items + LinksOf(op, c), rest)
    decreases c
  {
    hide AndOrLoop, Link, StagesOk, StagesText, BangOk, PipelineOf;
    if c.Tail? {
      LinkRead(op, c, rest);
      AndOrUnfold(items, op, ChainText(c, rest));
      assert LinksOf(op, c) == [AndOrItem(op, PipelineOf(c))];
    } else {
      JoinedRead(items, op, c, rest);
      var op' := if c.lead[0].kind == AndIf then And else Or;
      ChainRead(items + [AndOrItem(op, PipelineOf(c))], op', c.more, rest);
      assert items + [AndOrItem(op, PipelineOf(c))] + LinksOf(op', c.more) == items + LinksOf(op, c);
    }
  }

  lemma {:induction false} JoinedRead(items: seq<AndOrItem>, op: AndOrOp, c: Chain, rest: Toks)
    requires ChainOk(c) && c.Joined?
    ensures AndOrLoop(items, op, ChainText(c, rest))
            == AndOrLoop(items + [AndOrItem(op, PipelineOf(c))], if c.lead[0].kind == AndIf then And else Or,
                         ChainText(c.more, rest))
  {
    hide AndOrLoop, Link, StagesOk, StagesText, BangOk, PipelineOf, ChainText;
    var after := ChainText(c.more, rest);
    var ts := c.lead + after;
    assert ts[0] == c.lead[0] && ts[1..] == c.lead[1..] + after;
    assert ChainText(c, rest) == c.bang + StagesText(c.stages, ts) by { JoinedText(c, rest); }
    LinkRead(op, c, ts);
    ChainHead(c.more, rest);
    NewlinesSkipped(c.lead[1..], after);
    AndOrUnfold(items, op, ChainText(c, rest));
  }

  lemma {:induction false} JoinedText(c: Chain, rest: Toks)
    requires c.Joined?
    ensures ChainText(c, rest) == c.bang + StagesText(c.stages, c.lead + ChainText(c.more, rest))
  {
    hide StagesText;
  }

  lemma {:induction false} PartsSecond(ps: seq<Part>, rest: Toks)
    requires PartsOk(ps) && ps != [] && !AtKind(rest, LParen)
    ensures var ts := PartsText(ps, rest); |ts| > 1 ==> ts[1].kind != LParen
  {
    hide IsReserved, NamesOf;
    assert PartOk(ps[0]);
    if |ps| > 1 { assert PartOk(ps[1]); }
  }

  lemma {:induction false} ChainSecond(c: Chain, rest: Toks)
    requires ChainOk(c) && !AtKind(rest, LParen)
    ensures var ts := ChainText(c, rest); |ts| > 1 ==> ts[1].kind != LParen
  {
    hide PartsOk, IsReserved, PartsText;
    var after := if c.Joined? then c.lead + ChainText(c.more, rest) else rest;
    var s := c.stages;
    StagesHead(s, after);
    PartsSecond(s.parts, if s.Stage? then s.lead + StagesText(s.more, after) else after);
  }

  lemma {:induction false} LinksSome(op: AndOrOp, c: Chain)
    ensures |LinksOf(op, c)| >= if c.Tail? then 1 else 2
  {
    hide PipelineOf;
  }

  lemma {:induction false} ChainItemRead(c: Chain, rest: Toks)
    requires ChainOk(c) && !InCommand(rest) && !AtKind(rest, LParen)
    requires !AtKind(rest, Pipe) && !AtKind(rest, AndIf) && !AtKind(rest, OrIf)
    ensures ParseItem(ChainText(c, rest)) == Ok(ChainNode(c), rest)
  {
    hide AndOrLoop, ChainText, ChainOk, PipelineOf, ParseIf, ParseWhile, ParseFor, ParseFuncDef;
    ChainHead(c, rest);
    ChainSecond(c, rest);
    ChainRead([], First, c, rest);
    LinksSome(First, c);
    assert [] + LinksOf(First, c) == LinksOf(First, c);
    if c.Tail? { assert LinksOf(First, c) == [AndOrItem(First, PipelineOf(c))]; }
  }

  // ---- Reading items and bodies ---------------------------------------------------------------

  /** What may come after an item. */
  predicate Follows(i: Item, rest: Toks) {
    i.Chained? ==>
      && !InCommand(rest) && !AtKind(rest, LParen)
      && !AtKind(rest, Pipe) && !AtKind(rest, AndIf) && !AtKind(rest, OrIf)
  }

  lemma {:induction false} ItemHead(i: Item, rest: Toks)
    requires ItemOk(i)
    ensures var ts := ItemText(i, rest); InCommand(ts) && !AtEnder(ts)
  {
    hide ChainText, ChainOk, BodyText, BodyOk, ArmsText, ArmsOk;
    if i.Chained? { ChainHead(i.chain, rest); }
  }

  lemma {:induction false} ItemRead(i: Item, rest: Toks)
    requires ItemOk(i) && Follows(i, rest)
    ensures ParseItem(ItemText(i, rest)) == Ok(ItemNode(i), rest)
    decreases i, 2
  {
    hide ChainText, ChainOk, ChainNode, BodyText, BodyOk, BodyNode, ArmsText, ArmsOk, ArmConds, ArmBodies, ArmElse;
    hide ParseIf, ParseWhile, ParseFor, ParseFuncDef, ParseAndOr;
    match i
    case Chained(c) => ChainItemRead(c, rest);
    case IfItem(kw, arms) =>
      assert ([kw] + ArmsText(arms, rest))[1..] == ArmsText(arms, rest);
      ArmsRead([], [], arms, rest);
      IfStart(kw, ArmsText(arms, rest));
      assert [] + ArmConds(arms) == ArmConds(arms) && [] + ArmBodies(arms) == ArmBodies(arms);
    case WhileItem(_, _, _, _, _) => WhileRead(i, rest);
    case ForItem(_, _, _, _, _, _, _, _, _, _) => ForRead(i, rest);
    case FuncItem(_, _, _, _, _, _, _) => FuncRead(i, rest);
  }

  lemma {:induction false} IfStart(kw: Token, ts: Toks)
    requires IsKw(kw, "if")
    ensures ParseItem([kw] + ts) == IfLoop([], [], ts)
  {
    hide IfLoop;
    assert ([kw] + ts)[1..] == ts;
  }

  lemma {:induction false} ClosedRead(b: Body, kw: string, t: Token, rest: Toks)
    requires BodyOk(b) && IsKw(t, kw) && IsEnder(t)
    ensures Closed(BodyText(b, [t] + rest), kw) == Ok(BodyNode(b), rest)
    decreases b, 1
  {
    hide BodyText, BodyOk, BodyNode, ParseBody, IsKw;
    BodyRead(b, [t] + rest);
    assert ([t] + rest)[1..] == rest;
  }

  lemma {:induction false} BlockRead(gap: Toks, opening: string, open: Token, b: Body, closing: string, close: Token,
                                     rest: Toks)
    requires Newlines(gap) && IsKw(open, opening) && BodyOk(b) && IsKw(close, closing) && IsEnder(close)
    ensures Block(gap + ([open] + BodyText(b, [close] + rest)), opening, closing) == Ok(BodyNode(b), rest)
    decreases b, 2
  {
    hide BodyText, BodyOk, BodyNode, Closed;
    var ts := [open] + BodyText(b, [close] + rest);
    NewlinesSkipped(gap, ts);
    assert ts[1..] == BodyText(b, [close] + rest);
    ClosedRead(b, closing, close, rest);
  }

  lemma {:induction false} WhileRead(i: Item, rest: Toks)
    requires i.WhileItem? && ItemOk(i)
    ensures ParseItem(ItemText(i, rest)) == Ok(ItemNode(i), rest)
    decreases i, 1
  {
    hide BodyText, BodyOk, BodyNode, Closed;
    var inner := [i.doKw] + BodyText(i.body, [i.doneKw] + rest);
    var ts := BodyText(i.cond, inner);
    assert ([i.whileKw] + ts)[1..] == ts;
    ClosedRead(i.cond, "do", i.doKw, BodyText(i.body, [i.doneKw] + rest));
    ClosedRead(i.body, "done", i.doneKw, rest);
  }

  lemma {:induction false} WordsRead(acc: Toks, words: Toks, ts: Toks)
    requires (forall j | 0 <= j < |words| :: words[j].kind == Word) && !AtKind(ts, Word)
    ensures ForWords(acc, words + ts) == (acc + words, ts)
    decreases |words|
  {
    if words == [] {
      assert words + ts == ts && acc + words == acc;
    } else {
      assert (words + ts)[0] == words[0] && (words + ts)[1..] == words[1..] + ts;
      WordsRead(acc + [words[0]], words[1..], ts);
      assert acc + [words[0]] + words[1..] == acc + words;
    }
  }

  lemma {:induction false} ForRead(i: Item, rest: Toks)
    requires i.ForItem? && ItemOk(i)
    ensures ParseItem(ItemText(i, rest)) == Ok(ItemNode(i), rest)
    decreases i, 1
  {
    hide BodyText, BodyOk, BodyNode, Block, ForWords, NameOf, ForTail, IsKw;
    var block := i.gap' + ([i.doKw] + BodyText(i.body, [i.doneKw] + rest));
    var list := i.words + ([i.sep] + block);
    var ts := i.gap + ([i.inKw] + list);
    ForStart(i.forKw, i.name, i.gap, i.inKw, list);
    BlockRead(i.gap', "do", i.doKw, i.body, "done", i.doneKw, rest);
    ListRead(NameOf(i.name).value, i.words, i.sep, block);
    assert ItemText(i, rest) == [i.forKw, i.name] + ts;
  }

  lemma {:induction false} ForStart(kw: Token, name: Token, gap: Toks, inKw: Token, list: Toks)
    requires IsKw(kw, "for") && NameOf(name).Some? && Newlines(gap) && IsKw(inKw, "in")
    ensures ParseItem([kw, name] + (gap + ([inKw] + list))) == ForTail(NameOf(name).value, list)
  {
    hide ForTail, NameOf, ParseFor;
    var ts := [kw, name] + (gap + ([inKw] + list));
    assert ts[0] == kw && ts[1] == name && ts[2..] == gap + ([inKw] + list);
    NewlinesSkipped(gap, [inKw] + list);
    assert ([inKw] + list)[1..] == list;
    ForUnfold(ts);
  }

  lemma {:induction false} ListRead(name: string, words: Toks, sep: Token, block: Toks)
    requires (forall j | 0 <= j < |words| :: words[j].kind == Word) && (sep.kind == Semi || sep.kind == Newline)
    ensures var b := Block(block, "do", "done");
            ForTail(name, words + ([sep] + block))
            == if b.Fail? then Fail(b.error, b.rest) else Ok(For(name, words, b.value), b.rest)
  {
    hide Block, ForWords;
    WordsRead([], words, [sep] + block);
    assert [] + words == words && ([sep] + block)[1..] == block;
  }

  lemma {:induction false} FuncRead(i: Item, rest: Toks)
    requires i.FuncItem? && ItemOk(i)
    ensures ParseItem(ItemText(i, rest)) == Ok(ItemNode(i), rest)
    decreases i, 1
  {
    hide BodyText, BodyOk, BodyNode, Block, NameOf;
    var block := i.gap + ([i.open] + BodyText(i.body, [i.close] + rest));
    BlockRead(i.gap, "{", i.open, i.body, "}", i.close, rest);
    var ts := ItemText(i, rest);
    assert ts[0] == i.name && ts[1] == i.left && ts[2] == i.right && ts[3..] == block;
    NameIsWord(i.name);
  }

  lemma NameIsWord(t: Token)
    requires NameOf(t).Some?
    ensures t.kind == Word
  {
  }

  lemma {:induction false} ArmRead(a: Arms, follow: Toks)
    requires ArmsOk(a) && AtEnder(follow)
    ensures Arm(BodyText(a.cond, [a.thenKw] + BodyText(a.body, follow)))
            == Ok((BodyNode(a.cond), BodyNode(a.body)), follow)
    decreases a, 1
  {
    hide BodyText, BodyOk, BodyNode, Closed, ParseBody;
    ClosedRead(a.cond, "then", a.thenKw, BodyText(a.body, follow));
    BodyRead(a.body, follow);
  }

  lemma {:induction false} ArmsRead(cs: seq<Node>, bs: seq<Node>, a: Arms, rest: Toks)
    requires ArmsOk(a)
    ensures IfLoop(cs, bs, ArmsText(a, rest)) == Ok(If(cs + ArmConds(a), bs + ArmBodies(a), ArmElse(a)), rest)
    decreases a, 2
  {
    hide BodyText, BodyOk, BodyNode, Arm, Closed;
    match a
    case Fi(_, _, _, fi) =>
      ArmRead(a, [fi] + rest);
      assert ([fi] + rest)[1..] == rest;
      assert ArmConds(a) == [BodyNode(a.cond)] && ArmBodies(a) == [BodyNode(a.body)];
    case Else(_, _, _, kw, other, fi) =>
      var ts := BodyText(other, [fi] + rest);
      ArmRead(a, [kw] + ts);
      assert ([kw] + ts)[1..] == ts;
      ClosedRead(other, "fi", fi, rest);
      assert ArmConds(a) == [BodyNode(a.cond)] && ArmBodies(a) == [BodyNode(a.body)];
    case Elif(_, _, _, kw, more) =>
      var ts := ArmsText(more, rest);
      ArmRead(a, [kw] + ts);
      assert ([kw] + ts)[1..] == ts;
      ArmsRead(cs + [BodyNode(a.cond)], bs + [BodyNode(a.body)], more, rest);
      assert cs + [BodyNode(a.cond)] + ArmConds(more) == cs + ArmConds(a);
      assert bs + [BodyNode(a.body)] + ArmBodies(more) == bs + ArmBodies(a);
  }

  lemma {:induction false} BodyRead(b: Body, rest: Toks)
    requires BodyOk(b) && AtEnder(rest)
    ensures ParseBody(BodyText(b, rest)) == Ok(BodyNode(b), rest)
    decreases b, 0
  {
    hide ItemsText, ItemsOk, ListLoop, Marked;
    ItemsRead([], b.lead, b.items, rest);
    assert [] + ItemNodes(b.items) == ItemNodes(b.items);
    CollapsedRead(b);
  }

  lemma {:induction false} CollapsedRead(b: Body)
    ensures Collapse(ItemNodes(b.items)) == ProgramNode(b)
  {
    hide Marked;
    if b.items.More? && b.items.more.NoItems? { assert ItemNodes(b.items.more) == []; }
  }

  lemma {:induction false} ItemsRead(nodes: seq<Node>, lead: Toks, items: Items, rest: Toks)
    requires Separating(lead) && ItemsOk(items, rest != []) && (rest == [] || AtEnder(rest))
    ensures ListLoop(nodes, lead + ItemsText(items, rest)) == Ok(nodes + ItemNodes(items), rest)
    decreases items, 0
  {
    hide ItemText, ItemOk, Marked, Listed, IsEnder;
    match items
    case NoItems =>
      EnderNoSep(rest);
      SepsSkipped(lead, rest);
      assert nodes + [] == nodes;
    case More(item, amp, seps, more) =>
      var after := seps + ItemsText(more, rest);
      var ts := ItemText(item, amp + after);
      ItemHead(item, amp + after);
      SepsSkipped(lead, ts);
      ListedRead(item, amp, seps, more, rest);
      ItemsRead(nodes + [Marked(item, amp)], seps, more, rest);
      assert nodes + [Marked(item, amp)] + ItemNodes(more) == nodes + ItemNodes(items);
  }

  lemma EnderNoSep(ts: Toks)
    requires ts == [] || AtEnder(ts)
    ensures !AtSep(ts)
  {
  }

  lemma {:induction false} ListedRead(item: Item, amp: Toks, seps: Toks, more: Items, rest: Toks)
    requires ItemsOk(More(item, amp, seps, more), rest != []) && (rest == [] || AtEnder(rest))
    ensures var after := seps + ItemsText(more, rest);
            Listed(ItemText(item, amp + after)) == Ok(Marked(item, amp), after)
    decreases item, 3
  {
    hide ItemText, ItemOk, ItemsText, ItemNode, Listed, IsEnder;
    var after := seps + ItemsText(more, rest);
    var ts := ItemText(item, amp + after);
    if amp == [] {
      assert amp + after == after;
      if seps == [] { BareFollow(more, rest); } else { assert after[0] == seps[0]; }
      EnderIsWord(after);
      ItemRead(item, after);
      ListedIs(ts, ItemNode(item), after);
    } else {
      assert (amp + after)[0] == amp[0] && (amp + after)[1..] == after;
      TailIsPipeline(item);
      ItemRead(item, amp + after);
      ListedIs(ts, ItemNode(item), amp + after);
    }
  }

  lemma {:induction false} ListedIs(ts: Toks, n: Node, rest: Toks)
    requires ParseItem(ts) == Ok(n, rest)
    ensures Listed(ts)
            == if AtKind(rest, Amp) then
                 if !n.Pipeline? then Fail(Syntax, rest) else Ok(n.(background := true), rest[1..])
               else if rest != [] && !AtEnder(rest) && !AtSep(rest) then Fail(Syntax, rest)
               else Ok(n, rest)
  {
    hide ParseItem;
  }

  lemma {:induction false} BareFollow(more: Items, rest: Toks)
    requires more.NoItems?
    ensures [] + ItemsText(more, rest) == rest
  {
  }

  lemma EnderIsWord(ts: Toks)
    ensures AtEnder(ts) ==> ts[0].kind == Word
  {
  }

  lemma {:induction false} TailIsPipeline(i: Item)
    requires i.Chained? && i.chain.Tail?
    ensures ItemNode(i).Pipeline? && !ItemNode(i).background
  {
  }
}
