/** Syntax trees: what parsing gives and evaluation runs. */
module Ast {
  import opened Options
  import opened Tokens

  datatype Command = Command(
    words: seq<Token>,
    redirIn: Option<Token>,
    redirOut: Option<Token>,
    redirAppend: bool,
    redirErr: Option<Token>)

  const NO_COMMAND := Command([], None, None, false, None)

  datatype AndOrOp = First | And | Or

  datatype AndOrItem = AndOrItem(op: AndOrOp, node: Node)

  datatype Node =
    | Pipeline(cmds: seq<Command>, background: bool, negate: bool)
    | AndOr(items: seq<AndOrItem>)
    | List(nodes: seq<Node>)
    | If(conds: seq<Node>, bodies: seq<Node>, elseBody: Option<Node>)
    | While(cond: Node, body: Node)
    | For(name: string, words: seq<Token>, body: Node)
    | FuncDef(name: string, body: Node)
}
