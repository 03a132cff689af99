/** Whatever the parser accepts is a phrase, so it accepts exactly the programs that
    are written as phrases, and gives each the tree it means. */
module Language {
  import opened Options
  import opened Tokens
  import opened Ast
  import opened Grammar
  import opened Phrases
  import opened PhraseRead

  // ---- Commands and chains ----------------------------------------------------------------

  lemma {:induction false} CutSimple(done: seq<Part>, ts: Toks) returns (ps: seq<Part>, rest: Toks)
    requires PartsOk(done) && SimpleLoop(CommandOf(done), ts).Ok?
    ensures ts == PartsText(ps, rest) && !InCommand(rest)
    ensures PartsOk(done + ps) && NamesOf(done + ps) != []
    decreases |ts|
  {
    hide PartsOk, NamesOf, Target, IsReserved, SetRedir;
    if !InCommand(ts) {
      ps, rest := [], ts;
      assert done + [] == done;
    } else {
      var p := CutPart(done, ts);
      var next := if p.Name? then ts[1..] else ts[2..];
      assert ts == PartsText([p], next) by { assert [p][1..] == []; }
      PartStep(done, p, next);
      ps, rest := CutSimple(done + [p], next);
      assert done + [p] + ps == done + ([p] + ps);
      ps := [p] + ps;
      assert ps[1..] == (if |ps| == 1 then [] else ps[1..]);
    }
  }

  lemma {:induction false} CutPart(done: seq<Part>, ts: Toks) returns (p: Part)
    requires PartsOk(done) && InCommand(ts) && SimpleLoop(CommandOf(done), ts).Ok?
    ensures PartsOk(done + [p])
    ensures p.Name? ==> ts == [p.word] + ts[1..]
    ensures p.Redirect? ==> |ts| > 1 && ts == [p.op, p.target] + ts[2..]
  {
    hide IsReserved, PartsOk, NamesOf, Target, SetRedir, SimpleLoop;
    FirstPart(CommandOf(done), ts);
    if ts[0].kind == Word {
      p := Name(ts[0]);
      MoreNames(done, ts[0]);
    } else {
      p := Redirect(ts[0], ts[1]);
      MoreSlots(done, ts[0], ts[1]);
    }
  }

  /** What an accepted command starts with. */
  lemma {:induction false} FirstPart(c: Command, ts: Toks)
    requires InCommand(ts) && SimpleLoop(c, ts).Ok?
    ensures ts[0].kind == Word ==> (c.words == [] ==> !IsReserved(ts[0]))
    ensures ts[0].kind != Word ==> |ts| > 1 && ts[1].kind == Word && SetRedir(c, ts[0].kind, ts[1]).Some?
  {
    hide IsReserved, SetRedir;
  }

  lemma {:induction false} MoreNames(done: seq<Part>, w: Token)
    requires PartsOk(done) && w.kind == Word && (NamesOf(done) == [] ==> !IsReserved(w))
    ensures PartsOk(done + [Name(w)])
  {
    hide IsReserved;
    var all := done + [Name(w)];
    assert all[..|all| - 1] == done && all[|all| - 1] == Name(w);
  }

  lemma {:induction false} MoreSlots(done: seq<Part>, op: Token, t: Token)
    requires PartsOk(done) && IsRedir(op.kind) && t.kind == Word && SetRedir(CommandOf(done), op.kind, t).Some?
    ensures PartsOk(done + [Redirect(op, t)])
  {
    hide IsReserved, Target;
    var all := done + [Redirect(op, t)];
    assert all[..|all| - 1] == done && all[|all| - 1] == Redirect(op, t);
    assert NamesOf(all) == NamesOf(done);
    forall i | 0 <= i < |done| ensures !SameSlot(done[i], Redirect(op, t)) {
      if SameSlot(done[i], Redirect(op, t)) { SlotTaken(done, i); }
    }
  }

  /** The slot of a part is taken. */
  lemma {:induction false} SlotTaken(ps: seq<Part>, i: nat)
    requires i < |ps| && PartOk(ps[i]) && ps[i].Redirect?
    ensures var c, k := CommandOf(ps), ps[i].op.kind;
            if k == RedirIn then c.redirIn.Some? else if k == RedirErr then c.redirErr.Some? else c.redirOut.Some?
  {
    var k := ps[i].op.kind;
    if k == RedirIn {
      TargetSome(ps, i, RedirIn, RedirIn);
    } else if k == RedirErr {
      TargetSome(ps, i, RedirErr, RedirErr);
    } else {
      TargetSome(ps, i, RedirOut, RedirAppend);
    }
  }

  lemma {:induction false} TargetSome(ps: seq<Part>, i: nat, k: Kind, k': Kind)
    requires i < |ps| && ps[i].Redirect? && (ps[i].op.kind == k || ps[i].op.kind == k')
    ensures Target(ps, k, k').Some?
    decreases |ps|
  {
    if i < |ps| - 1 { TargetSome(ps[..|ps| - 1], i, k, k'); }
  }

  lemma Prefixed(ts: Toks, x: Toks, tail: Toks)
    requires ts != [] && ts[1..] == x + tail
    ensures ts == [ts[0]] + x + tail
  {
    assert ts == [ts[0]] + ts[1..];
  }

  lemma MoreNewlines(t: Token, nl: Toks)
    requires t.kind == Newline && Newlines(nl)
    ensures Newlines([t] + nl)
  {
  }

  lemma MoreSeps(t: Token, seps: Toks)
    requires (t.kind == Semi || t.kind == Newline) && Separating(seps)
    ensures Separating([t] + seps)
  {
  }

  lemma {:induction false} CutNewlines(ts: Toks) returns (nl: Toks)
    ensures Newlines(nl) && ts == nl + SkipNl(ts)
    decreases |ts|
  {
    hide Newlines;
    nl := [];
    if AtKind(ts, Newline) {
      nl := CutNewlines(ts[1..]);
      Prefixed(ts, nl, SkipNl(ts));
      MoreNewlines(ts[0], nl);
      nl := [ts[0]] + nl;
    } else {
      NoTokens();
      assert ts == [] + ts;
    }
  }

  lemma NoTokens()
    ensures Newlines([]) && Separating([])
  {
  }

  lemma {:induction false} CutSeps(ts: Toks) returns (seps: Toks)
    ensures Separating(seps) && ts == seps + SkipSeps(ts)
    decreases |ts|
  {
    hide Separating;
    seps := [];
    if AtSep(ts) {
      seps := CutSeps(ts[1..]);
      Prefixed(ts, seps, SkipSeps(ts));
      MoreSeps(ts[0], seps);
      seps := [ts[0]] + seps;
    } else {
      NoTokens();
      assert ts == [] + ts;
    }
  }

  /** A connective and the newlines after it. */
  lemma {:induction false} CutLead(ts: Toks, k: Kind, k': Kind) returns (lead: Toks)
    requires AtKind(ts, k) || AtKind(ts, k')
    ensures LeadOk(lead, k, k') && lead[0] == ts[0] && ts == lead + SkipNl(ts[1..])
  {
    var nl := CutNewlines(ts[1..]);
    lead := [ts[0]] + nl;
    assert lead[1..] == nl;
  }

  lemma {:induction false} CutStages(cmds: seq<Command>, ts: Toks) returns (s: Stages, rest: Toks)
    requires PipeLoop(cmds, ts).Ok?
    ensures StagesOk(s) && ts == StagesText(s, rest) && !InCommand(rest) && !AtKind(rest, Pipe)
    ensures PipeLoop(cmds, ts) == Ok(cmds + Commands(s), rest)
    decreases |ts|
  {
    hide PartsOk, NamesOf, Target, IsReserved, SimpleLoop, PartsText;
    EmptyCommand();
    assert PartsOk([]) by { NoParts(); }
    var ps, ts1 := CutSimple([], ts);
    assert [] + ps == ps;
    SimpleRead([], ps, ts1);
    if AtKind(ts1, Pipe) {
      var lead := CutLead(ts1, Pipe, Pipe);
      var more;
      more, rest := CutStages(cmds + [CommandOf(ps)], SkipNl(ts1[1..]));
      s := Stage(ps, lead, more);
    } else {
      s, rest := LastStage(ps), ts1;
    }
    StagesRead(cmds, s, rest);
  }

  lemma NoParts()
    ensures PartsOk([])
  {
    assert NamesOf([]) == [];
  }

  lemma {:induction false} CutLink(op: AndOrOp, ts: Toks) returns (bang: Toks, s: Stages, rest: Toks)
    requires Link(op, ts).Ok?
    ensures StagesOk(s) && BangOk(Tail(bang, s)) && ts == bang + StagesText(s, rest)
    ensures !InCommand(rest) && !AtKind(rest, Pipe)
    ensures Link(op, ts) == Ok(AndOrItem(op, PipelineOf(Tail(bang, s))), rest)
  {
    hide PipeLoop, StagesOk, StagesText, Commands;
    bang := if AtKw(ts, "!") then [ts[0]] else [];
    var ts0 := if AtKw(ts, "!") then ts[1..] else ts;
    s, rest := CutStages([], ts0);
    StagesHead(s, rest);
    assert ts == bang + ts0;
    LinkRead(op, Tail(bang, s), rest);
  }

  lemma {:induction false} CutChain(items: seq<AndOrItem>, op: AndOrOp, ts: Toks) returns (c: Chain, rest: Toks)
    requires AndOrLoop(items, op, ts).Ok?
    ensures ChainOk(c) && ts == ChainText(c, rest) && !InCommand(rest)
    ensures !AtKind(rest, Pipe) && !AtKind(rest, AndIf) && !AtKind(rest, OrIf)
    decreases |ts|
  {
    hide AndOrLoop, Link, StagesOk, StagesText, PipelineOf;
    AndOrUnfold(items, op, ts);
    var bang, s, ts1 := CutLink(op, ts);
    if AtKind(ts1, AndIf) || AtKind(ts1, OrIf) {
      var lead := CutLead(ts1, AndIf, OrIf);
      var more;
      more, rest := CutChain(items + [AndOrItem(op, PipelineOf(Tail(bang, s)))],
                             if AtKind(ts1, AndIf) then And else Or, SkipNl(ts1[1..]));
      c := Joined(bang, s, lead, more);
    } else {
      c, rest := Tail(bang, s), ts1;
    }
  }

  lemma {:induction false} CutChained(ts: Toks) returns (c: Chain, rest: Toks)
    requires ParseAndOr(ts).Ok?
    ensures ChainOk(c) && ts == ChainText(c, rest) && !InCommand(rest)
    ensures !AtKind(rest, Pipe) && !AtKind(rest, AndIf) && !AtKind(rest, OrIf)
    ensures ParseAndOr(ts) == Ok(ChainNode(c), rest)
  {
    hide AndOrLoop, ChainText, ChainOk, PipelineOf;
    c, rest := CutChain([], First, ts);
    ChainRead([], First, c, rest);
    LinksSome(First, c);
    assert [] + LinksOf(First, c) == LinksOf(First, c);
    if c.Tail? { assert LinksOf(First, c) == [AndOrItem(First, PipelineOf(c))]; }
  }

  // ---- Bodies -------------------------------------------------------------------------------

  lemma {:induction false} CutListed(ts: Toks) returns (item: Item, amp: Toks, rest: Toks)
    requires Listed(ts).Ok? && !AtEnder(ts)
    ensures ItemOk(item) && |amp| <= 1 && (amp != [] ==> amp[0].kind == Amp && item.Chained? && item.chain.Tail?)
    ensures ts == ItemText(item, amp + rest) && Listed(ts).rest == rest
    ensures amp == [] ==> (rest == [] || AtEnder(rest) || AtSep(rest)) && (item.Chained? ==> !InCommand(rest))
    decreases |ts|, 5
  {
    hide ItemText, ItemOk, ItemNode, ParseItem, IsEnder;
    var ts1;
    item, ts1 := CutItem(ts);
    if AtKind(ts1, Amp) {
      PipelineIsTail(item);
      amp, rest := [ts1[0]], ts1[1..];
    } else {
      amp, rest := [], ts1;
    }
    assert amp + rest == ts1;
  }

  lemma {:induction false} PipelineIsTail(i: Item)
    requires ItemNode(i).Pipeline?
    ensures i.Chained? && i.chain.Tail?
  {
  }

  lemma {:induction false} CutItems(nodes: seq<Node>, ts: Toks) returns (lead: Toks, items: Items, rest: Toks)
    requires ListLoop(nodes, ts).Ok?
    ensures Separating(lead) && ItemsOk(items, rest != []) && (rest == [] || AtEnder(rest))
    ensures ts == lead + ItemsText(items, rest) && ListLoop(nodes, ts) == Ok(nodes + ItemNodes(items), rest)
    decreases |ts|, 6
  {
    hide ItemText, ItemOk, Listed, IsEnder, Separating;
    lead := CutSeps(ts);
    var ts0 := SkipSeps(ts);
    if ts0 == [] || AtEnder(ts0) {
      items, rest := NoItems, ts0;
    } else {
      var item, amp, ts1 := CutListed(ts0);
      var seps, more;
      seps, more, rest := CutItems(nodes + [Listed(ts0).value], ts1);
      items := More(item, amp, seps, more);
      if amp == [] && seps == [] { Nothing(item, more, ts1, rest); }
    }
    ItemsRead(nodes, lead, items, rest);
  }

  /** Nothing stands between an item and a keyword or the end only where that is allowed. */
  lemma {:induction false} Nothing(item: Item, more: Items, ts: Toks, rest: Toks)
    requires ItemsOk(more, rest != []) && (rest == [] || AtEnder(rest)) && ts == [] + ItemsText(more, rest)
    requires (ts == [] || AtEnder(ts) || AtSep(ts)) && (item.Chained? ==> !InCommand(ts))
    ensures more.NoItems? && (rest != [] ==> !item.Chained?)
  {
    hide ItemText, ItemOk, IsEnder;
    EnderIsWord(rest);
    if more.More? { ItemHead(more.item, more.amp + (more.seps + ItemsText(more.more, rest))); }
  }

  lemma {:induction false} CutBody(ts: Toks) returns (b: Body, rest: Toks)
    requires ParseBody(ts).Ok?
    ensures rest == [] || (AtEnder(rest) && BodyOk(b))
    ensures ts == BodyText(b, rest) && ParseBody(ts) == Ok(BodyNode(b), rest)
    decreases |ts|, 8
  {
    hide ItemsText, ItemsOk, ListLoop, Marked;
    var lead, items;
    lead, items, rest := CutItems([], ts);
    b := Body(lead, items);
    assert [] + ItemNodes(items) == ItemNodes(items);
    CollapsedRead(b);
  }

  lemma {:induction false} CutClosed(ts: Toks, kw: string) returns (b: Body, t: Token, rest: Toks)
    requires Closed(ts, kw).Ok?
    ensures BodyOk(b) && IsKw(t, kw) && IsEnder(t) && ts == BodyText(b, [t] + rest)
    ensures Closed(ts, kw) == Ok(BodyNode(b), rest)
    decreases |ts|, 9
  {
    hide BodyText, BodyOk, BodyNode, ParseBody, IsKw, IsEnder;
    var ts1;
    b, ts1 := CutBody(ts);
    t, rest := ts1[0], ts1[1..];
    assert ts1 == [t] + rest;
  }

  lemma {:induction false} CutBlock(ts: Toks, opening: string, closing: string)
    returns (gap: Toks, open: Token, b: Body, close: Token, rest: Toks)
    requires Block(ts, opening, closing).Ok?
    ensures Newlines(gap) && IsKw(open, opening) && BodyOk(b) && IsKw(close, closing)
    ensures ts == gap + ([open] + BodyText(b, [close] + rest))
    ensures Block(ts, opening, closing) == Ok(BodyNode(b), rest)
    decreases |ts|, 10
  {
    hide BodyText, BodyOk, BodyNode, Closed, IsKw;
    gap := CutNewlines(ts);
    var ts0 := SkipNl(ts);
    open := ts0[0];
    b, close, rest := CutClosed(ts0[1..], closing);
    assert ts0 == [open] + ts0[1..];
  }

  // ---- Items ----------------------------------------------------------------------------------

  lemma {:induction false} CutWhile(ts: Toks) returns (i: Item, rest: Toks)
    requires AtKw(ts, "while") && ParseWhile(ts).Ok?
    ensures i.WhileItem? && ItemOk(i) && ts == ItemText(i, rest)
    ensures ParseWhile(ts) == Ok(ItemNode(i), rest)
    decreases |ts|, 3
  {
    hide BodyText, BodyOk, BodyNode, Closed, IsKw;
    var cond, doKw, ts1 := CutClosed(ts[1..], "do");
    var body, doneKw;
    body, doneKw, rest := CutClosed(ts1, "done");
    i := WhileItem(ts[0], cond, doKw, body, doneKw);
    assert ts == [ts[0]] + ts[1..];
  }

  predicate Words(ts: Toks) { forall j | 0 <= j < |ts| :: ts[j].kind == Word }

  lemma MoreWords(t: Token, words: Toks)
    requires t.kind == Word && Words(words)
    ensures Words([t] + words)
  {
  }

  lemma {:induction false} CutWords(acc: Toks, ts: Toks) returns (words: Toks)
    ensures Words(words) && ForWords(acc, ts).0 == acc + words && ts == words + ForWords(acc, ts).1
    decreases |ts|
  {
    words := [];
    if AtKind(ts, Word) {
      hide Words;
      words := CutWords(acc + [ts[0]], ts[1..]);
      Prefixed(ts, words, ForWords(acc, ts).1);
      assert acc + [ts[0]] + words == acc + ([ts[0]] + words);
      MoreWords(ts[0], words);
      words := [ts[0]] + words;
    } else {
      assert acc + [] == acc && ts == [] + ts;
    }
  }

  lemma {:induction false} CutList(ts: Toks) returns (words: Toks, sep: Token, rest: Toks)
    requires ForList(ts).Ok?
    ensures (forall j | 0 <= j < |words| :: words[j].kind == Word) && (sep.kind == Semi || sep.kind == Newline)
    ensures ts == words + ([sep] + rest) && ForList(ts) == Ok(words, rest)
  {
    hide ForWords;
    words := CutWords([], ts);
    assert [] + words == words;
    var ts1 := ForWords([], ts).1;
    sep, rest := ts1[0], ts1[1..];
    assert ts1 == [sep] + rest;
  }

  lemma {:induction false} CutForTail(name: string, ts: Toks)
    returns (words: Toks, sep: Token, gap: Toks, doKw: Token, body: Body, doneKw: Token, rest: Toks)
    requires ForTail(name, ts).Ok?
    ensures (forall j | 0 <= j < |words| :: words[j].kind == Word) && (sep.kind == Semi || sep.kind == Newline)
    ensures Newlines(gap) && IsKw(doKw, "do") && BodyOk(body) && IsKw(doneKw, "done")
    ensures ts == words + ([sep] + (gap + ([doKw] + BodyText(body, [doneKw] + rest))))
    ensures ForTail(name, ts) == Ok(For(name, words, BodyNode(body)), rest)
    decreases |ts|, 2
  {
    hide BodyText, BodyOk, BodyNode, Block, ForList, IsKw;
    var ts1;
    words, sep, ts1 := CutList(ts);
    gap, doKw, body, doneKw, rest := CutBlock(ts1, "do", "done");
  }

  lemma {:induction false} CutFor(ts: Toks) returns (i: Item, rest: Toks)
    requires AtKw(ts, "for") && ParseFor(ts).Ok?
    ensures i.ForItem? && ItemOk(i) && ts == ItemText(i, rest)
    ensures ParseFor(ts) == Ok(ItemNode(i), rest)
    decreases |ts|, 3
  {
    hide BodyText, BodyOk, BodyNode, ForTail, NameOf, IsKw, ParseFor, SkipNl;
    ForUnfold(ts);
    var gap := CutNewlines(ts[2..]);
    var ts0 := SkipNl(ts[2..]);
    var words, sep, gap', doKw, body, doneKw;
    words, sep, gap', doKw, body, doneKw, rest := CutForTail(NameOf(ts[1]).value, ts0[1..]);
    i := ForItem(ts[0], ts[1], gap, ts0[0], words, sep, gap', doKw, body, doneKw);
    assert ts0 == [ts0[0]] + ts0[1..];
    assert ts == [ts[0], ts[1]] + ts[2..];
  }

  lemma {:induction false} CutFunc(ts: Toks) returns (i: Item, rest: Toks)
    requires |ts| > 1 && ts[1].kind == LParen && ParseFuncDef(ts).Ok?
    requires !AtKw(ts, "if") && !AtKw(ts, "while") && !AtKw(ts, "for") && !AtEnder(ts)
    ensures i.FuncItem? && ItemOk(i) && ts == ItemText(i, rest)
    ensures ParseFuncDef(ts) == Ok(ItemNode(i), rest)
    decreases |ts|, 3
  {
    hide BodyText, BodyOk, BodyNode, Block, IsKw, IsEnder;
    var gap, open, body, close;
    gap, open, body, close, rest := CutBlock(ts[3..], "{", "}");
    i := FuncItem(ts[0], ts[1], ts[2], gap, open, body, close);
    NoBrace(ts[0]);
    assert ts == [ts[0], ts[1], ts[2]] + ts[3..];
  }

  lemma NoBrace(t: Token)
    requires NameOf(t).Some?
    ensures !IsKw(t, "{")
  {
    assert NameChar(t.segs[0].text[0], true);
  }

  lemma {:induction false} CutArms(cs: seq<Node>, bs: seq<Node>, ts: Toks) returns (a: Arms, rest: Toks)
    requires IfLoop(cs, bs, ts).Ok?
    ensures ArmsOk(a) && ts == ArmsText(a, rest)
    decreases |ts|, 11
  {
    hide BodyText, BodyOk, BodyNode, Closed, ParseBody, IsKw, IsEnder;
    var cond, thenKw, ts1 := CutClosed(ts, "then");
    var body, ts2 := CutBody(ts1);
    var kw := ts2[0];
    assert ts2 == [kw] + ts2[1..];
    if AtKw(ts2, "elif") {
      var more;
      more, rest := CutArms(cs + [BodyNode(cond)], bs + [BodyNode(body)], ts2[1..]);
      a := Elif(cond, thenKw, body, kw, more);
    } else if AtKw(ts2, "else") {
      var other, fi;
      other, fi, rest := CutClosed(ts2[1..], "fi");
      a := Else(cond, thenKw, body, kw, other, fi);
    } else {
      a, rest := Fi(cond, thenKw, body, kw), ts2[1..];
    }
  }

  lemma {:induction false} CutIf(ts: Toks) returns (i: Item, rest: Toks)
    requires AtKw(ts, "if") && ParseIf(ts).Ok?
    ensures i.IfItem? && ItemOk(i) && ts == ItemText(i, rest)
    ensures ParseIf(ts) == Ok(ItemNode(i), rest)
    decreases |ts|, 3
  {
    hide ArmsOk, ArmsText, ArmConds, ArmBodies, ArmElse, IfLoop;
    var arms;
    arms, rest := CutArms([], [], ts[1..]);
    ArmsRead([], [], arms, rest);
    assert [] + ArmConds(arms) == ArmConds(arms) && [] + ArmBodies(arms) == ArmBodies(arms);
    i := IfItem(ts[0], arms);
    assert ts == [ts[0]] + ts[1..];
  }

  lemma {:induction false} CutItem(ts: Toks) returns (i: Item, rest: Toks)
    requires ParseItem(ts).Ok? && !AtEnder(ts)
    ensures ItemOk(i) && ts == ItemText(i, rest) && (i.Chained? ==> !InCommand(rest))
    ensures ParseItem(ts) == Ok(ItemNode(i), rest)
    decreases |ts|, 4
  {
    hide ChainText, ChainOk, ChainNode, BodyText, BodyOk, BodyNode, ArmsText, ArmsOk, ArmConds, ArmBodies, ArmElse;
    hide ParseIf, ParseWhile, ParseFor, ParseFuncDef, ParseAndOr, IsKw, IsEnder, NameOf;
    if AtKw(ts, "if") {
      i, rest := CutIf(ts);
    } else if AtKw(ts, "while") {
      i, rest := CutWhile(ts);
    } else if AtKw(ts, "for") {
      i, rest := CutFor(ts);
    } else if AtKind(ts, Word) && |ts| > 1 && ts[1].kind == LParen {
      i, rest := CutFunc(ts);
    } else {
      var c;
      c, rest := CutChained(ts);
      i := Chained(c);
    }
  }

  // ---- Names ----------------------------------------------------------------------------------

  const UPPER := "ABCDEFGHIJKLMNOPQRSTUVWXYZ"
  const LOWER := "abcdefghijklmnopqrstuvwxyz"
  const DIGITS := "0123456789"

  predicate RunFrom(run: string, first: char) {
    forall i | 0 <= i < |run| :: run[i] as int == first as int + i
  }

  lemma Runs()
    ensures RunFrom(UPPER, 'A') && RunFrom(LOWER, 'a') && RunFrom(DIGITS, '0')
    ensures |UPPER| == |LOWER| == 26 && |DIGITS| == 10
  {
  }

  lemma InRun(run: string, first: char, c: char)
    requires RunFrom(run, first)
    ensures c in run <==> first as int <= c as int < first as int + |run|
  {
    if first as int <= c as int < first as int + |run| { assert run[c as int - first as int] == c; }
  }

  /** A name is a bare or quoted word of one segment, of letters, digits and underscores,
      that does not start with a digit. */
  lemma NameIs(t: Token, s: string)
    ensures NameOf(t) == Some(s)
            <==> t.kind == Word && |t.segs| == 1 && t.segs[0].text == s && s != "" && s[0] !in DIGITS
                 && forall i | 0 <= i < |s| :: s[i] in UPPER || s[i] in LOWER || s[i] in DIGITS || s[i] == '_'
  {
    Runs();
    forall i | 0 <= i < |s|
      ensures NameChar(s[i], false) <==> s[i] in UPPER || s[i] in LOWER || s[i] in DIGITS || s[i] == '_'
      ensures NameChar(s[i], true) <==> NameChar(s[i], false) && s[i] !in DIGITS
    {
      InRun(UPPER, 'A', s[i]);
      InRun(LOWER, 'a', s[i]);
      InRun(DIGITS, '0', s[i]);
    }
  }

  // ---- The language -----------------------------------------------------------------------------

  /** The parser accepts exactly the programs, each as the tree it means. */
  lemma {:induction false} AcceptsIff(ts: Toks, n: Option<Node>)
    ensures ParseProgram(ts) == Ok(n, []) <==> Says(ts, n)
  {
    hide ItemsText, ItemsOk, ListLoop, Marked;
    if ParseProgram(ts) == Ok(n, []) {
      var lead, items, rest := CutItems([], ts);
      assert [] + ItemNodes(items) == ItemNodes(items);
      CollapsedRead(Body(lead, items));
      assert ProgramOk(Body(lead, items)) && BodyText(Body(lead, items), []) == ts;
    }
    if Says(ts, n) {
      var p: Body :| ProgramOk(p) && BodyText(p, []) == ts && ProgramNode(p) == n;
      ItemsRead([], p.lead, p.items, []);
      assert [] + ItemNodes(p.items) == ItemNodes(p.items);
      CollapsedRead(p);
    }
  }

  /** No tokens can be taken for two different programs. */
  lemma {:induction false} Unambiguous(p: Body, q: Body)
    requires ProgramOk(p) && ProgramOk(q) && BodyText(p, []) == BodyText(q, [])
    ensures ProgramNode(p) == ProgramNode(q)
  {
    hide ProgramOk, BodyText, ProgramNode, ParseProgram;
    AcceptsIff(BodyText(p, []), ProgramNode(p));
    AcceptsIff(BodyText(q, []), ProgramNode(q));
  }
}
