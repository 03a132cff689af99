/** The shell's language as phrases: what a program may look like, token by token,
    and which tree it means. Nothing here says how a phrase is found. */
module Phrases {
  import opened Tokens
  import opened Ast
  import opened Options

  // ---- Commands -----------------------------------------------------------------------

  /** One piece of a simple command; words and redirects come in any order. */
  datatype Part = Name(word: Token) | Redirect(op: Token, target: Token)

  predicate PartOk(p: Part) {
    match p
    case Name(w) => w.kind == Word
    case Redirect(op, t) => IsRedir(op.kind) && t.kind == Word
  }

  /** `>` and `>>` write to the same slot. */
  predicate SameSlot(p: Part, q: Part) {
    p.Redirect? && q.Redirect? &&
    (p.op.kind == q.op.kind || (Output(p.op.kind) && Output(q.op.kind)))
  }

  predicate Output(k: Kind) { k == RedirOut || k == RedirAppend }

  /** The words of a command. */
  function NamesOf(ps: seq<Part>): seq<Token> {
    if ps == [] then []
    else
      var p := ps[|ps| - 1];
      NamesOf(ps[..|ps| - 1]) + if p.Name? then [p.word] else []
  }

  /** The target of a redirect of one of two kinds. */
  function Target(ps: seq<Part>, k: Kind, k': Kind): Option<Token> {
    if ps == [] then None
    else
      var p := ps[|ps| - 1];
      if p.Redirect? && (p.op.kind == k || p.op.kind == k') then Some(p.target) else Target(ps[..|ps| - 1], k, k')
  }

  function CommandOf(ps: seq<Part>): Command {
    Command(NamesOf(ps), Target(ps, RedirIn, RedirIn), Target(ps, RedirOut, RedirAppend),
            Target(ps, RedirAppend, RedirAppend).Some?, Target(ps, RedirErr, RedirErr))
  }

  /** No slot is named twice, and the first word is not reserved. */
  predicate PartsOk(ps: seq<Part>) {
    && (forall i | 0 <= i < |ps| :: PartOk(ps[i]))
    && (forall i, j | 0 <= i < j < |ps| :: !SameSlot(ps[i], ps[j]))
    && (NamesOf(ps) != [] ==> !IsReserved(NamesOf(ps)[0]))
  }

  /** The tokens of a phrase in front of others; the same for every phrase below. */
  function PartsText(ps: seq<Part>, rest: seq<Token>): seq<Token> {
    if ps == [] then rest
    else match ps[0]
      case Name(w) => [w] + PartsText(ps[1..], rest)
      case Redirect(op, t) => [op, t] + PartsText(ps[1..], rest)
  }

  // ---- Pipelines and chains -------------------------------------------------------------

  predicate Newlines(ts: seq<Token>) { forall i | 0 <= i < |ts| :: ts[i].kind == Newline }

  predicate Separating(ts: seq<Token>) { forall i | 0 <= i < |ts| :: ts[i].kind == Semi || ts[i].kind == Newline }

  /** A connective and the newlines after it. */
  predicate LeadOk(lead: seq<Token>, k: Kind, k': Kind) {
    lead != [] && (lead[0].kind == k || lead[0].kind == k') && Newlines(lead[1..])
  }

  datatype Stages =
    | LastStage(parts: seq<Part>)
    | Stage(parts: seq<Part>, lead: seq<Token>, more: Stages)

  predicate StagesOk(s: Stages) {
    && PartsOk(s.parts) && NamesOf(s.parts) != []
    && (s.Stage? ==> LeadOk(s.lead, Pipe, Pipe) && StagesOk(s.more))
  }

  function StagesText(s: Stages, rest: seq<Token>): seq<Token> {
    match s
    case LastStage(ps) => PartsText(ps, rest)
    case Stage(ps, lead, more) => PartsText(ps, lead + StagesText(more, rest))
  }

  function Commands(s: Stages): seq<Command> {
    [CommandOf(s.parts)] + if s.Stage? then Commands(s.more) else []
  }

  /** Pipelines and what joins them; `bang` is a `!` or nothing. */
  datatype Chain =
    | Tail(bang: seq<Token>, stages: Stages)
    | Joined(bang: seq<Token>, stages: Stages, lead: seq<Token>, more: Chain)

  /** At most one `!`, and only as the very first token of a pipeline. */
  predicate BangOk(c: Chain) {
    && |c.bang| <= 1 && (c.bang != [] ==> IsKw(c.bang[0], "!"))
    && !(c.stages.parts != [] && c.stages.parts[0].Name? && IsKw(c.stages.parts[0].word, "!"))
  }

  predicate ChainOk(c: Chain) {
    && BangOk(c) && StagesOk(c.stages)
    && (c.Joined? ==> LeadOk(c.lead, AndIf, OrIf) && ChainOk(c.more))
  }

  function ChainText(c: Chain, rest: seq<Token>): seq<Token> {
    match c
    case Tail(bang, s) => bang + StagesText(s, rest)
    case Joined(bang, s, lead, more) => bang + StagesText(s, lead + ChainText(more, rest))
  }

  function PipelineOf(c: Chain): Node { Pipeline(Commands(c.stages), false, c.bang != []) }

  function LinksOf(op: AndOrOp, c: Chain): seq<AndOrItem>
    decreases c
  {
    [AndOrItem(op, PipelineOf(c))]
    + if c.Tail? then [] else LinksOf(if c.lead != [] && c.lead[0].kind == AndIf then And else Or, c.more)
  }

  /** A pipeline on its own is no chain. */
  function ChainNode(c: Chain): Node {
    if c.Tail? then PipelineOf(c) else AndOr(LinksOf(First, c))
  }

  // ---- Items and lists --------------------------------------------------------------------

  datatype Item =
    | Chained(chain: Chain)
    | IfItem(ifKw: Token, arms: Arms)
    | WhileItem(whileKw: Token, cond: Body, doKw: Token, body: Body, doneKw: Token)
    | ForItem(forKw: Token, name: Token, gap: seq<Token>, inKw: Token, words: seq<Token>, sep: Token,
              gap': seq<Token>, doKw: Token, body: Body, doneKw: Token)
    | FuncItem(name: Token, left: Token, right: Token, gap: seq<Token>, open: Token, body: Body, close: Token)

  /** The conditions and bodies of an `if`, and how it ends. */
  datatype Arms =
    | Fi(cond: Body, thenKw: Token, body: Body, fiKw: Token)
    | Else(cond: Body, thenKw: Token, body: Body, elseKw: Token, other: Body, fiKw: Token)
    | Elif(cond: Body, thenKw: Token, body: Body, elifKw: Token, more: Arms)

  /** Items behind some separators. */
  datatype Body = Body(lead: seq<Token>, items: Items)

  /** Each item may have a `&` after it, and separators. */
  datatype Items = NoItems | More(item: Item, amp: seq<Token>, seps: seq<Token>, more: Items)

  predicate ItemOk(i: Item) {
    match i
    case Chained(c) => ChainOk(c)
    case IfItem(kw, arms) => IsKw(kw, "if") && ArmsOk(arms)
    case WhileItem(kw, cond, doKw, body, doneKw) =>
      IsKw(kw, "while") && BodyOk(cond) && IsKw(doKw, "do") && BodyOk(body) && IsKw(doneKw, "done")
    case ForItem(kw, name, gap, inKw, words, sep, gap', doKw, body, doneKw) =>
      && IsKw(kw, "for") && NameOf(name).Some? && Newlines(gap) && IsKw(inKw, "in")
      && (forall j | 0 <= j < |words| :: words[j].kind == Word)
      && (sep.kind == Semi || sep.kind == Newline) && Newlines(gap')
      && IsKw(doKw, "do") && BodyOk(body) && IsKw(doneKw, "done")
    case FuncItem(name, left, right, gap, open, body, close) =>
      && NameOf(name).Some? && !IsReserved(name) && left.kind == LParen && right.kind == RParen && Newlines(gap)
      && IsKw(open, "{") && BodyOk(body) && IsKw(close, "}")
  }

  predicate ArmsOk(a: Arms) {
    && BodyOk(a.cond) && IsKw(a.thenKw, "then") && BodyOk(a.body)
    && match a
       case Fi(_, _, _, fi) => IsKw(fi, "fi")
       case Else(_, _, _, kw, other, fi) => IsKw(kw, "else") && BodyOk(other) && IsKw(fi, "fi")
       case Elif(_, _, _, kw, more) => IsKw(kw, "elif") && ArmsOk(more)
  }

  /** A body has an item, and a keyword comes after it. */
  predicate BodyOk(b: Body) { Separating(b.lead) && b.items.More? && ItemsOk(b.items, true) }

  /** Only a single pipeline takes a `&`. Something must stand between two items, and
      between a command and a keyword, which would be one more word otherwise. */
  predicate ItemsOk(items: Items, closed: bool) {
    match items
    case NoItems => true
    case More(item, amp, seps, more) =>
      && ItemOk(item) && Separating(seps) && |amp| <= 1
      && (amp != [] ==> amp[0].kind == Amp && item.Chained? && item.chain.Tail?)
      && (amp == [] && seps == [] ==> more.NoItems? && (closed ==> !item.Chained?))
      && ItemsOk(more, closed)
  }

  function ItemText(i: Item, rest: seq<Token>): seq<Token> {
    match i
    case Chained(c) => ChainText(c, rest)
    case IfItem(kw, arms) => [kw] + ArmsText(arms, rest)
    case WhileItem(kw, cond, doKw, body, doneKw) =>
      [kw] + BodyText(cond, [doKw] + BodyText(body, [doneKw] + rest))
    case ForItem(kw, name, gap, inKw, words, sep, gap', doKw, body, doneKw) =>
      [kw, name] + (gap + ([inKw] + (words + ([sep] + (gap' + ([doKw] + BodyText(body, [doneKw] + rest)))))))
    case FuncItem(name, left, right, gap, open, body, close) =>
      [name, left, right] + (gap + ([open] + BodyText(body, [close] + rest)))
  }

  function ArmsText(a: Arms, rest: seq<Token>): seq<Token> {
    match a
    case Fi(cond, thenKw, body, fi) => BodyText(cond, [thenKw] + BodyText(body, [fi] + rest))
    case Else(cond, thenKw, body, kw, other, fi) =>
      BodyText(cond, [thenKw] + BodyText(body, [kw] + BodyText(other, [fi] + rest)))
    case Elif(cond, thenKw, body, kw, more) =>
      BodyText(cond, [thenKw] + BodyText(body, [kw] + ArmsText(more, rest)))
  }

  function BodyText(b: Body, rest: seq<Token>): seq<Token> { b.lead + ItemsText(b.items, rest) }

  function ItemsText(items: Items, rest: seq<Token>): seq<Token> {
    match items
    case NoItems => rest
    case More(item, amp, seps, more) => ItemText(item, amp + (seps + ItemsText(more, rest)))
  }

  // ---- What they mean -----------------------------------------------------------------------

  function ItemNode(i: Item): Node
    decreases i, 0
  {
    match i
    case Chained(c) => ChainNode(c)
    case IfItem(_, arms) => If(ArmConds(arms), ArmBodies(arms), ArmElse(arms))
    case WhileItem(_, cond, _, body, _) => While(BodyNode(cond), BodyNode(body))
    case ForItem(_, name, _, _, words, _, _, _, body, _) =>
      For(if NameOf(name).Some? then NameOf(name).value else "", words, BodyNode(body))
    case FuncItem(name, _, _, _, _, body, _) =>
      FuncDef(if NameOf(name).Some? then NameOf(name).value else "", BodyNode(body))
  }

  function ArmConds(a: Arms): seq<Node> { [BodyNode(a.cond)] + if a.Elif? then ArmConds(a.more) else [] }

  function ArmBodies(a: Arms): seq<Node> { [BodyNode(a.body)] + if a.Elif? then ArmBodies(a.more) else [] }

  function ArmElse(a: Arms): Option<Node> {
    match a
    case Fi(_, _, _, _) => None
    case Else(_, _, _, _, other, _) => Some(BodyNode(other))
    case Elif(_, _, _, _, more) => ArmElse(more)
  }

  /** One item stands for itself, more are a list. */
  function BodyNode(b: Body): Node {
    if b.items.More? && b.items.more.NoItems? then Marked(b.items.item, b.items.amp) else List(ItemNodes(b.items))
  }

  /** An item with its `&`. */
  function Marked(i: Item, amp: seq<Token>): Node
    decreases i, 1
  {
    match ItemNode(i)
    case Pipeline(cmds, bg, neg) => Pipeline(cmds, bg || amp != [], neg)
    case n => n
  }

  function ItemNodes(items: Items): seq<Node> {
    match items
    case NoItems => []
    case More(item, amp, _, more) => [Marked(item, amp)] + ItemNodes(more)
  }

  // ---- Programs -------------------------------------------------------------------------------

  predicate ProgramOk(p: Body) { Separating(p.lead) && ItemsOk(p.items, false) }

  function ProgramNode(p: Body): Option<Node> { if p.items.NoItems? then None else Some(BodyNode(p)) }

  /** These tokens are a program, and it means this tree. */
  ghost predicate Says(ts: seq<Token>, n: Option<Node>) {
    exists p: Body :: ProgramOk(p) && BodyText(p, []) == ts && ProgramNode(p) == n
  }
}
