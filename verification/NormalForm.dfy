/** The trees the parser builds, and a printer for them. */
module NormalForm {
  import opened Options
  import opened Tokens
  import opened Ast
  import opened Grammar

  // ---- Normal form ---------------------------------------------------------

  predicate WordTok(t: Token) { t.kind == Word }

  predicate WordSlot(o: Option<Token>) { o.Some? ==> o.value.kind == Word }

  predicate HasRedir(c: Command) { c.redirIn.Some? || c.redirOut.Some? || c.redirErr.Some? }

  /** The command's own name is a bare `!`. */
  predicate BangName(c: Command) { c.words != [] && IsKw(c.words[0], "!") }

  /** A stage has words, the first of them not reserved; the first stage of a
      pipeline is called `!` only when a redirect kept the parser from seeing it. */
  predicate NormalCmd(c: Command, first: bool) {
    && c.words != [] && !IsReserved(c.words[0])
    && (forall i | 0 <= i < |c.words| :: WordTok(c.words[i]))
    && WordSlot(c.redirIn) && WordSlot(c.redirOut) && WordSlot(c.redirErr)
    && (c.redirAppend ==> c.redirOut.Some?)
    && (first && BangName(c) ==> HasRedir(c))
  }

  predicate NormalCmds(cmds: seq<Command>) {
    && cmds != []
    && forall i | 0 <= i < |cmds| :: NormalCmd(cmds[i], i == 0)
  }

  predicate NormalLink(it: AndOrItem, first: bool) {
    && it.node.Pipeline? && !it.node.background && NormalCmds(it.node.cmds)
    && (it.op == First <==> first)
  }

  predicate NormalAndOr(items: seq<AndOrItem>) {
    forall i | 0 <= i < |items| :: NormalLink(items[i], i == 0)
  }

  /** A list item, or a body of one item. */
  predicate NormalItem(n: Node)
    decreases n, 0
  {
    match n
    case Pipeline(cmds, _, _) => NormalCmds(cmds)
    case AndOr(items) => |items| >= 2 && NormalAndOr(items)
    case List(_) => false
    case If(conds, bodies, other) =>
      && |conds| == |bodies| > 0
      && (forall i | 0 <= i < |conds| :: NormalBody(conds[i]))
      && (forall i | 0 <= i < |bodies| :: NormalBody(bodies[i]))
      && (other.Some? ==> NormalBody(other.value))
    case While(cond, body) => NormalBody(cond) && NormalBody(body)
    case For(name, words, body) =>
      && IsName(name) && (forall i | 0 <= i < |words| :: WordTok(words[i])) && NormalBody(body)
    case FuncDef(name, body) =>
      IsName(name) && !IsReserved(Kw(name)) && NormalBody(body)
  }

  predicate NormalBody(n: Node)
    decreases n, 1
  {
    if n.List? then |n.nodes| >= 2 && NormalItems(n.nodes) else NormalItem(n)
  }

  predicate NormalItems(nodes: seq<Node>)
    decreases nodes
  {
    forall i | 0 <= i < |nodes| :: NormalItem(nodes[i])
  }

  // ---- Printing --------------------------------------------------------------

  /** A keyword as the lexer makes it from bare text. */
  function Kw(s: string): Token { Token(Word, [Seg(s, true)], 0) }

  function PrintSlot(k: Kind, o: Option<Token>): Toks {
    match o
    case None => []
    case Some(t) => [Op(k), t]
  }

  function PrintRedirs(c: Command): Toks {
    PrintSlot(RedirIn, c.redirIn)
    + PrintSlot(if c.redirAppend then RedirAppend else RedirOut, c.redirOut)
    + PrintSlot(RedirErr, c.redirErr)
  }

  /** Words before redirects, except that a first stage named `!` must hide the
      name behind its redirects. */
  function PrintCmd(c: Command, first: bool): Toks {
    if first && BangName(c) then PrintRedirs(c) + c.words else c.words + PrintRedirs(c)
  }

  /** The stages from `i` on, each but the pipeline's first after a pipe. */
  function PrintStages(cmds: seq<Command>, first: bool): Toks {
    if cmds == [] then []
    else (if first then [] else [Op(Pipe)]) + PrintCmd(cmds[0], first) + PrintStages(cmds[1..], false)
  }

  function PrintPipeline(n: Node): Toks
    requires n.Pipeline?
  {
    (if n.negate then [Kw("!")] else []) + PrintStages(n.cmds, true)
  }

  /** The pipelines of a chain, each but the first after its operator. */
  function PrintChain(items: seq<AndOrItem>): Toks {
    if items == [] then []
    else PrintLink(items[0]) + PrintChain(items[1..])
  }

  function PrintLink(it: AndOrItem): Toks {
    (match it.op case First => [] case And => [Op(AndIf)] case Or => [Op(OrIf)])
    + (if it.node.Pipeline? then PrintPipeline(it.node) else [])
  }

  function PrintItem(n: Node): Toks
    requires NormalItem(n)
    decreases n, 1
  {
    match n
    case Pipeline(_, _, _) => PrintPipeline(n)
    case AndOr(items) => PrintChain(items)
    case If(conds, bodies, other) =>
      [Kw("if")] + PrintArms(n, 0)
      + (if other.Some? then [Kw("else")] + PrintBody(other.value) else []) + [Kw("fi")]
    case While(cond, body) =>
      [Kw("while")] + PrintBody(cond) + [Kw("do")] + PrintBody(body) + [Kw("done")]
    case For(name, words, body) =>
      [Kw("for"), Kw(name), Kw("in")] + words + [Op(Semi), Kw("do")] + PrintBody(body) + [Kw("done")]
    case FuncDef(name, body) =>
      [Kw(name), Op(LParen), Op(RParen), Kw("{")] + PrintBody(body) + [Kw("}")]
  }

  /** The condition and body pairs of an `if` from the `i`th on. */
  function PrintArms(n: Node, i: nat): Toks
    requires NormalItem(n) && n.If? && i <= |n.conds|
    decreases n, 0, |n.conds| - i
  {
    if i == |n.conds| then []
    else
      (if i > 0 then [Kw("elif")] else [])
      + PrintBody(n.conds[i]) + [Kw("then")] + PrintBody(n.bodies[i]) + PrintArms(n, i + 1)
  }

  function PrintBody(n: Node): Toks
    requires NormalBody(n)
    decreases n, 2
  {
    if n.List? then PrintItems(n.nodes) else PrintItem(n) + [Terminator(n)]
  }

  /** `&` after a background pipeline, `;` after anything else. */
  function Terminator(n: Node): Token {
    if n.Pipeline? && n.background then Op(Amp) else Op(Semi)
  }

  function PrintItems(nodes: seq<Node>): Toks
    requires NormalItems(nodes)
    decreases nodes
  {
    if nodes == [] then []
    else PrintItem(nodes[0]) + [Terminator(nodes[0])] + PrintItems(nodes[1..])
  }

  function PrintProgram(n: Option<Node>): Toks
    requires n.Some? ==> NormalBody(n.value)
  {
    if n.None? then [] else PrintBody(n.value)
  }
}
