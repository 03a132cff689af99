/** The parser as functions of the remaining tokens: what each production
    returns, what it leaves, and which verdict it gives. */
module Grammar {
  import opened Options
  import opened Tokens
  import opened Ast

  datatype Error = Syntax | Incomplete

  type Toks = seq<Token>

  datatype Result<T> = Ok(value: T, rest: Toks) | Fail(error: Error, rest: Toks) {
    predicate IsFailure() { Fail? }
    /** Unfinished input is only ever reported once every token is used up. */
    predicate Honest() { this.Fail? && error == Incomplete ==> rest == [] }
    function PropagateFailure<U>(): Result<U>
      requires Fail?
    {
      Fail(error, rest)
    }
    function Extract(): (T, Toks)
      requires Ok?
    {
      (value, rest)
    }
  }

  predicate AtKind(ts: Toks, k: Kind) { ts != [] && ts[0].kind == k }

  predicate AtKw(ts: Toks, kw: string) { ts != [] && IsKw(ts[0], kw) }

  predicate AtEnder(ts: Toks) { ts != [] && IsEnder(ts[0]) }

  predicate AtSep(ts: Toks) { AtKind(ts, Semi) || AtKind(ts, Newline) }

  function SkipSeps(ts: Toks): (r: Toks)
    ensures |r| <= |ts| && !AtSep(r)
  {
    if AtSep(ts) then SkipSeps(ts[1..]) else ts
  }

  function SkipNl(ts: Toks): (r: Toks)
    ensures |r| <= |ts|
  {
    if AtKind(ts, Newline) then SkipNl(ts[1..]) else ts
  }

  function Expect(ts: Toks, kw: string): (r: Result<()>)
    ensures r.Ok? ==> |r.rest| < |ts|
    ensures r.Honest()
  {
    if AtKw(ts, kw) then Ok((), ts[1..])
    else Fail(if ts == [] then Incomplete else Syntax, ts)
  }

  // ---- Simple commands and pipelines ------------------------------------------

  /** `>` and `>>` share one slot; a slot that is taken is an error. */
  function SetRedir(c: Command, k: Kind, target: Token): Option<Command> {
    if k == RedirIn then
      if c.redirIn.Some? then None else Some(c.(redirIn := Some(target)))
    else if k == RedirErr then
      if c.redirErr.Some? then None else Some(c.(redirErr := Some(target)))
    else
      if c.redirOut.Some? then None
      else Some(c.(redirOut := Some(target), redirAppend := k == RedirAppend))
  }

  function Finish(c: Command, ts: Toks): Result<Command> {
    if c.words == [] then Fail(Syntax, ts) else Ok(c, ts)
  }

  function SimpleLoop(c: Command, ts: Toks): (r: Result<Command>)
    ensures r.Ok? ==> |r.rest| <= |ts| && (c.words == [] ==> |r.rest| < |ts|)
    ensures r.Honest()
    decreases |ts|
  {
    if ts == [] then Finish(c, ts)
    else if ts[0].kind == Word then
      if c.words == [] && IsReserved(ts[0]) then Fail(Syntax, ts)
      else SimpleLoop(c.(words := c.words + [ts[0]]), ts[1..])
    else if !IsRedir(ts[0].kind) then Finish(c, ts)
    else if |ts| == 1 then Fail(Incomplete, ts[1..])
    else if ts[1].kind != Word then Fail(Syntax, ts[1..])
    else
      match SetRedir(c, ts[0].kind, ts[1])
      case None => Fail(Syntax, ts[2..])
      case Some(c') => SimpleLoop(c', ts[2..])
  }

  function PipeLoop(cmds: seq<Command>, ts: Toks): (r: Result<seq<Command>>)
    ensures r.Ok? ==> |r.rest| < |ts|
    ensures r.Honest()
    decreases |ts|
  {
    var (c, ts1) :- SimpleLoop(NO_COMMAND, ts);
    if !AtKind(ts1, Pipe) then Ok(cmds + [c], ts1)
    else
      var ts2 := SkipNl(ts1[1..]);
      if ts2 == [] then Fail(Incomplete, ts2) else PipeLoop(cmds + [c], ts2)
  }

  /** One pipeline of a chain, with its optional `!`. */
  function Link(op: AndOrOp, ts: Toks): (r: Result<AndOrItem>)
    ensures r.Ok? ==> |r.rest| < |ts|
    ensures r.Honest()
  {
    var neg := AtKw(ts, "!");
    var ts0 := if neg then ts[1..] else ts;
    if neg && ts0 == [] then Fail(Incomplete, ts0)
    else if neg && AtKw(ts0, "!") then Fail(Syntax, ts0)
    else
      var (cmds, ts1) :- PipeLoop([], ts0);
      Ok(AndOrItem(op, Pipeline(cmds, false, neg)), ts1)
  }

  function AndOrLoop(items: seq<AndOrItem>, op: AndOrOp, ts: Toks): (r: Result<seq<AndOrItem>>)
    ensures r.Ok? ==> |r.rest| < |ts| && |r.value| > |items|
    ensures r.Honest()
    decreases |ts|
  {
    var (it, ts1) :- Link(op, ts);
    if !AtKind(ts1, AndIf) && !AtKind(ts1, OrIf) then Ok(items + [it], ts1)
    else
      var ts2 := SkipNl(ts1[1..]);
      if ts2 == [] then Fail(Incomplete, ts2)
      else AndOrLoop(items + [it], if AtKind(ts1, AndIf) then And else Or, ts2)
  }

  /** A lone pipeline stays bare. */
  function ParseAndOr(ts: Toks): (r: Result<Node>)
    ensures r.Ok? ==> |r.rest| < |ts|
    ensures r.Honest()
  {
    var (items, ts1) :- AndOrLoop([], First, ts);
    Ok(if |items| == 1 then items[0].node else AndOr(items), ts1)
  }

  // ---- Compounds and lists ------------------------------------------------------

  function ListLoop(nodes: seq<Node>, ts: Toks): (r: Result<seq<Node>>)
    ensures r.Ok? ==> |r.rest| <= |ts| && (r.rest == [] || AtEnder(r.rest))
    ensures r.Honest()
    decreases |ts|, 6
  {
    var ts0 := SkipSeps(ts);
    if ts0 == [] || AtEnder(ts0) then Ok(nodes, ts0)
    else
      var (item, ts1) :- Listed(ts0);
      ListLoop(nodes + [item], ts1)
  }

  /** An item and what may follow it: `&`, a separator, a closing keyword or the end. */
  function Listed(ts: Toks): (r: Result<Node>)
    ensures r.Ok? ==> |r.rest| < |ts|
    ensures r.Honest()
    decreases |ts|, 5
  {
    var (item, ts1) :- ParseItem(ts);
    if AtKind(ts1, Amp) then
      if !item.Pipeline? then Fail(Syntax, ts1) else Ok(item.(background := true), ts1[1..])
    else if ts1 != [] && !AtEnder(ts1) && !AtSep(ts1) then Fail(Syntax, ts1)
    else Ok(item, ts1)
  }

  /** No item gives no node, one item stays bare, more become a list. */
  function Collapse(nodes: seq<Node>): Option<Node> {
    if nodes == [] then None else if |nodes| == 1 then Some(nodes[0]) else Some(List(nodes))
  }

  function ParseList(ts: Toks): (r: Result<Option<Node>>)
    ensures r.Ok? ==> |r.rest| <= |ts|
    ensures r.Honest()
    decreases |ts|, 7
  {
    var (nodes, ts1) :- ListLoop([], ts);
    Ok(Collapse(nodes), ts1)
  }

  function ParseBody(ts: Toks): (r: Result<Node>)
    ensures r.Ok? ==> |r.rest| <= |ts|
    ensures r.Honest()
    decreases |ts|, 8
  {
    var (n, ts1) :- ParseList(ts);
    if n.None? then Fail(if ts1 == [] then Incomplete else Syntax, ts1) else Ok(n.value, ts1)
  }

  function ParseItem(ts: Toks): (r: Result<Node>)
    ensures r.Ok? ==> |r.rest| < |ts|
    ensures r.Honest()
    decreases |ts|, 4
  {
    if AtKw(ts, "if") then ParseIf(ts)
    else if AtKw(ts, "while") then ParseWhile(ts)
    else if AtKw(ts, "for") then ParseFor(ts)
    else if AtKind(ts, Word) && |ts| > 1 && ts[1].kind == LParen then ParseFuncDef(ts)
    else ParseAndOr(ts)
  }

  /** A body and the keyword that must close it. */
  function Closed(ts: Toks, kw: string): (r: Result<Node>)
    ensures r.Ok? ==> |r.rest| < |ts|
    ensures r.Honest()
    decreases |ts|, 9
  {
    var (body, ts1) :- ParseBody(ts);
    var (_, ts2) :- Expect(ts1, kw);
    Ok(body, ts2)
  }

  /** Optional newlines, an opening keyword, a body and its closing keyword. */
  function Block(ts: Toks, open: string, close: string): (r: Result<Node>)
    ensures r.Ok? ==> |r.rest| < |ts|
    ensures r.Honest()
    decreases |ts|, 10
  {
    var (_, ts1) :- Expect(SkipNl(ts), open);
    Closed(ts1, close)
  }

  /** A condition, `then` and a body. */
  function Arm(ts: Toks): (r: Result<(Node, Node)>)
    ensures r.Ok? ==> |r.rest| < |ts|
    ensures r.Honest()
    decreases |ts|, 10
  {
    var (cond, ts1) :- Closed(ts, "then");
    var (body, ts2) :- ParseBody(ts1);
    Ok((cond, body), ts2)
  }

  /** The optional `else` and the closing `fi`. */
  function IfEnd(conds: seq<Node>, bodies: seq<Node>, ts: Toks): (r: Result<Node>)
    ensures r.Ok? ==> |r.rest| < |ts|
    ensures r.Honest()
    decreases |ts|, 10
  {
    if AtKw(ts, "else") then
      var (other, ts1) :- Closed(ts[1..], "fi");
      Ok(If(conds, bodies, Some(other)), ts1)
    else
      var (_, ts1) :- Expect(ts, "fi");
      Ok(If(conds, bodies, None), ts1)
  }

  /** The condition/body pairs after `if` and each `elif`. */
  function IfLoop(conds: seq<Node>, bodies: seq<Node>, ts: Toks): (r: Result<Node>)
    ensures r.Ok? ==> |r.rest| < |ts|
    ensures r.Honest()
    decreases |ts|, 11
  {
    var (arm, ts1) :- Arm(ts);
    var conds', bodies' := conds + [arm.0], bodies + [arm.1];
    if AtKw(ts1, "elif") then IfLoop(conds', bodies', ts1[1..]) else IfEnd(conds', bodies', ts1)
  }

  function ParseIf(ts: Toks): (r: Result<Node>)
    requires ts != []
    ensures r.Ok? ==> |r.rest| < |ts|
    ensures r.Honest()
    decreases |ts|, 3
  {
    IfLoop([], [], ts[1..])
  }

  function ParseWhile(ts: Toks): (r: Result<Node>)
    requires ts != []
    ensures r.Ok? ==> |r.rest| < |ts|
    ensures r.Honest()
    decreases |ts|, 3
  {
    var (cond, ts1) :- Closed(ts[1..], "do");
    var (body, ts2) :- Closed(ts1, "done");
    Ok(While(cond, body), ts2)
  }

  function ForWords(words: Toks, ts: Toks): (r: (Toks, Toks))
    ensures |r.1| <= |ts| && !AtKind(r.1, Word)
    decreases |ts|
  {
    if AtKind(ts, Word) then ForWords(words + [ts[0]], ts[1..]) else (words, ts)
  }

  /** The words a `for` runs over, up to and including the separator. */
  function ForList(ts: Toks): (r: Result<Toks>)
    ensures r.Ok? ==> |r.rest| < |ts|
    ensures r.Honest()
  {
    var (words, ts1) := ForWords([], ts);
    if ts1 == [] then Fail(Incomplete, ts1)
    else if !AtSep(ts1) then Fail(Syntax, ts1)
    else Ok(words, ts1[1..])
  }

  /** A `for` after its `in`. */
  function ForTail(name: string, ts: Toks): (r: Result<Node>)
    ensures r.Ok? ==> |r.rest| < |ts|
    ensures r.Honest()
    decreases |ts|, 3
  {
    var (words, ts1) :- ForList(ts);
    var (body, ts2) :- Block(ts1, "do", "done");
    Ok(For(name, words, body), ts2)
  }

  function ParseFor(ts: Toks): (r: Result<Node>)
    requires ts != []
    ensures r.Ok? ==> |r.rest| < |ts|
    ensures r.Honest()
    decreases |ts|, 3
  {
    if |ts| == 1 then Fail(Incomplete, [])
    else if NameOf(ts[1]).None? then Fail(Syntax, ts[1..])
    else
      var (_, ts1) :- Expect(SkipNl(ts[2..]), "in");
      ForTail(NameOf(ts[1]).value, ts1)
  }

  /** Entered on a word and `(`. */
  function ParseFuncDef(ts: Toks): (r: Result<Node>)
    requires |ts| > 1
    ensures r.Ok? ==> |r.rest| < |ts|
    ensures r.Honest()
    decreases |ts|, 3
  {
    if NameOf(ts[0]).None? then Fail(Syntax, ts)
    else if |ts| == 2 then Fail(Incomplete, [])
    else if ts[2].kind != RParen then Fail(Syntax, ts[2..])
    else
      var (body, ts1) :- Block(ts[3..], "{", "}");
      Ok(FuncDef(NameOf(ts[0]).value, body), ts1)
  }

  /** The items of a whole program, which must reach the end of the tokens. */
  function ProgramItems(ts: Toks): (r: Result<seq<Node>>)
    ensures r.Honest()
  {
    var (nodes, ts1) :- ListLoop([], ts);
    if ts1 == [] then Ok(nodes, ts1) else Fail(Syntax, ts1)
  }

  function ParseProgram(ts: Toks): (r: Result<Option<Node>>)
    ensures r.Honest()
  {
    var (n, ts1) :- ParseList(ts);
    if ts1 == [] then Ok(n, ts1) else Fail(Syntax, ts1)
  }

  // ---- Unfolding one production, for proofs that hide it --------------------------

  lemma AndOrUnfold(items: seq<AndOrItem>, op: AndOrOp, ts: Toks)
    ensures var p := Link(op, ts);
            AndOrLoop(items, op, ts) ==
            if p.Fail? then Fail(p.error, p.rest)
            else if !AtKind(p.rest, AndIf) && !AtKind(p.rest, OrIf) then Ok(items + [p.value], p.rest)
            else if SkipNl(p.rest[1..]) == [] then Fail(Incomplete, [])
            else AndOrLoop(items + [p.value], if AtKind(p.rest, AndIf) then And else Or, SkipNl(p.rest[1..]))
  {
    hide Link;
  }

  lemma {:induction false} ForUnfold(ts: Toks)
    requires ts != []
    ensures |ts| == 1 ==> ParseFor(ts) == Fail(Incomplete, [])
    ensures |ts| > 1 && NameOf(ts[1]).None? ==> ParseFor(ts) == Fail(Syntax, ts[1..])
    ensures |ts| > 1 && NameOf(ts[1]).Some? ==>
              var e := Expect(SkipNl(ts[2..]), "in");
              ParseFor(ts) == if e.Fail? then Fail(e.error, e.rest) else ForTail(NameOf(ts[1]).value, e.rest)
  {
    hide ForTail, NameOf, Expect;
  }
}
