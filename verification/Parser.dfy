/** The recursive-descent parser as it runs: a cursor over token slots that are
    emptied as tokens are taken, and a record of every token it frees. */
module Parser {
  import opened Options
  import opened Tokens
  import opened Ast
  import opened Grammar

  // ---- Who owns which token ---------------------------------------------------

  function SlotTokens(o: Option<Token>): multiset<Token> {
    if o.Some? then multiset{o.value} else multiset{}
  }

  function CmdTokens(c: Command): multiset<Token> {
    multiset(c.words) + SlotTokens(c.redirIn) + SlotTokens(c.redirOut) + SlotTokens(c.redirErr)
  }

  function CmdsTokens(cmds: seq<Command>): multiset<Token> {
    if cmds == [] then multiset{} else CmdsTokens(cmds[..|cmds| - 1]) + CmdTokens(cmds[|cmds| - 1])
  }

  /** The tokens a tree owns. */
  function NodeTokens(n: Node): multiset<Token>
    decreases n, 0
  {
    match n
    case Pipeline(cmds, _, _) => CmdsTokens(cmds)
    case AndOr(items) => ItemsTokens(items)
    case List(nodes) => NodesTokens(nodes)
    case If(conds, bodies, other) =>
      NodesTokens(conds) + NodesTokens(bodies) + if other.Some? then NodeTokens(other.value) else multiset{}
    case While(cond, body) => NodeTokens(cond) + NodeTokens(body)
    case For(_, words, body) => multiset(words) + NodeTokens(body)
    case FuncDef(_, body) => NodeTokens(body)
  }

  function NodesTokens(nodes: seq<Node>): multiset<Token>
    decreases nodes, 1
  {
    if nodes == [] then multiset{} else NodesTokens(nodes[..|nodes| - 1]) + NodeTokens(nodes[|nodes| - 1])
  }

  function ItemsTokens(items: seq<AndOrItem>): multiset<Token>
    decreases items, 1
  {
    if items == [] then multiset{}
    else ItemsTokens(items[..|items| - 1]) + ItemTokens(items[|items| - 1])
  }

  function ItemTokens(it: AndOrItem): multiset<Token>
    decreases it, 0
  {
    NodeTokens(it.node)
  }

  lemma {:induction false} CmdsPush(cmds: seq<Command>, c: Command)
    ensures CmdsTokens(cmds + [c]) == CmdsTokens(cmds) + CmdTokens(c)
  {
    assert (cmds + [c])[..|cmds|] == cmds;
  }

  lemma {:induction false} NodesPush(nodes: seq<Node>, n: Node)
    ensures NodesTokens(nodes + [n]) == NodesTokens(nodes) + NodeTokens(n)
  {
    assert (nodes + [n])[..|nodes|] == nodes;
  }

  lemma {:induction false} ItemsPush(items: seq<AndOrItem>, it: AndOrItem)
    ensures ItemsTokens(items + [it]) == ItemsTokens(items) + NodeTokens(it.node)
  {
    hide NodeTokens;
    assert (items + [it])[..|items|] == items;
  }

  lemma Slide<T>(a: multiset<T>, t: multiset<T>, b: multiset<T>, c: multiset<T>)
    ensures a + t + b + c == a + multiset{} + b + c + t
    ensures a + b + t + c == a + b + multiset{} + c + t
    ensures a + b + c + t == a + b + c + multiset{} + t
  {
  }

  lemma WordTokens(c: Command, t: Token)
    ensures CmdTokens(c.(words := c.words + [t])) == CmdTokens(c) + multiset{t}
  {
    var w, i, o, e := multiset(c.words), SlotTokens(c.redirIn), SlotTokens(c.redirOut), SlotTokens(c.redirErr);
    assert multiset(c.words + [t]) == w + multiset{t};
    Rotate(w, multiset{t}, i, o, e);
  }

  lemma Rotate<T>(w: multiset<T>, t: multiset<T>, i: multiset<T>, o: multiset<T>, e: multiset<T>)
    ensures w + t + i + o + e == w + i + o + e + t
  {
  }

  lemma Assoc<T>(h: multiset<T>, a: multiset<T>, t: multiset<T>)
    ensures h + a + t == h + (a + t)
  {
  }

  lemma SetRedirTokens(c: Command, k: Kind, t: Token)
    requires SetRedir(c, k, t).Some?
    ensures CmdTokens(SetRedir(c, k, t).value) == CmdTokens(c) + multiset{t}
  {
    var w, i, o, e := multiset(c.words), SlotTokens(c.redirIn), SlotTokens(c.redirOut), SlotTokens(c.redirErr);
    if k == RedirIn {
      Slide(w, multiset{t}, o, e);
    } else if k == RedirErr {
      Slide(w, multiset{t}, i, o);
    } else {
      Slide(w, multiset{t}, i, e);
    }
  }

  lemma NoTokens(held: multiset<Token>)
    ensures held + CmdTokens(NO_COMMAND) == held
  {
  }

  /** One step of reading a command. */
  lemma {:induction false} SimpleUnfold(c: Command, ts: Toks)
    ensures ts == [] || (ts[0].kind != Word && !IsRedir(ts[0].kind)) ==> SimpleLoop(c, ts) == Finish(c, ts)
    ensures ts != [] && ts[0].kind == Word ==>
              SimpleLoop(c, ts) == if c.words == [] && IsReserved(ts[0]) then Fail(Syntax, ts)
                                   else SimpleLoop(c.(words := c.words + [ts[0]]), ts[1..])
    ensures ts != [] && IsRedir(ts[0].kind) ==>
              SimpleLoop(c, ts) ==
              if |ts| == 1 then Fail(Incomplete, ts[1..])
              else if ts[1].kind != Word then Fail(Syntax, ts[1..])
              else match SetRedir(c, ts[0].kind, ts[1])
                   case None => Fail(Syntax, ts[1..][1..])
                   case Some(d) => SimpleLoop(d, ts[1..][1..])
  {
    if |ts| > 1 { assert ts[1..][1..] == ts[2..]; }
  }

  lemma NoCommands(held: multiset<Token>)
    ensures held + CmdsTokens([]) == held
  {
  }

  lemma NoItems(held: multiset<Token>)
    ensures held + ItemsTokens([]) == held
  {
  }

  lemma {:induction false} PipeUnfold(cmds: seq<Command>, ts: Toks)
    ensures var s := SimpleLoop(NO_COMMAND, ts);
            PipeLoop(cmds, ts) ==
            if s.Fail? then Fail(s.error, s.rest)
            else if !AtKind(s.rest, Pipe) then Ok(cmds + [s.value], s.rest)
            else if SkipNl(s.rest[1..]) == [] then Fail(Incomplete, [])
            else PipeLoop(cmds + [s.value], SkipNl(s.rest[1..]))
  {
  }

  lemma {:induction false} LinkTokens(held: multiset<Token>, items: seq<AndOrItem>, it: AndOrItem)
    ensures held + ItemsTokens(items) + NodeTokens(it.node) == held + ItemsTokens(items + [it])
  {
    hide NodeTokens;
    ItemsPush(items, it);
    Assoc(held, ItemsTokens(items), NodeTokens(it.node));
  }

  lemma {:induction false} ChainTokens(items: seq<AndOrItem>)
    requires items != []
    ensures ItemsTokens(items) == NodeTokens(if |items| == 1 then items[0].node else AndOr(items))
  {
    if |items| == 1 { assert items[..0] == []; }
  }

  function OptTokens(o: Option<Node>): multiset<Token> {
    if o.Some? then NodeTokens(o.value) else multiset{}
  }

  lemma NoNodes(held: multiset<Token>)
    ensures held + NodesTokens([]) == held
  {
  }

  lemma {:induction false} CollapseTokens(nodes: seq<Node>)
    ensures OptTokens(Collapse(nodes)) == NodesTokens(nodes)
  {
    if |nodes| == 1 { assert nodes[..0] == []; }
  }

  lemma SomeTokens(held: multiset<Token>, o: Option<Node>)
    ensures held + OptTokens(o) == if o.Some? then held + NodeTokens(o.value) else held
  {
    hide NodeTokens;
  }

  lemma {:induction false} BackgroundTokens(n: Node)
    requires n.Pipeline?
    ensures NodeTokens(n.(background := true)) == NodeTokens(n)
  {
  }

  lemma {:induction false} ListUnfold(nodes: seq<Node>, ts: Toks)
    ensures var ts0, p := SkipSeps(ts), Listed(SkipSeps(ts));
            && ListLoop(nodes, ts) == (if ts0 == [] || AtEnder(ts0) then Ok(nodes, ts0)
                                       else if p.Fail? then Fail(p.error, p.rest)
                                       else ListLoop(nodes + [p.value], p.rest))
            && (p.Ok? ==> |p.rest| < |ts|)
  {
    hide ParseItem, IsEnder;
  }

  lemma {:induction false} ListIs(ts: Toks)
    ensures var p := ListLoop([], ts);
            ParseList(ts) == if p.Fail? then Fail(p.error, p.rest) else Ok(Collapse(p.value), p.rest)
  {
    hide ListLoop;
  }

  lemma {:induction false} IfUnfold(conds: seq<Node>, bodies: seq<Node>, ts: Toks)
    ensures var a := Arm(ts);
            IfLoop(conds, bodies, ts) ==
            if a.Fail? then Fail(a.error, a.rest)
            else if AtKw(a.rest, "elif") then IfLoop(conds + [a.value.0], bodies + [a.value.1], a.rest[1..])
            else IfEnd(conds + [a.value.0], bodies + [a.value.1], a.rest)
  {
    hide Arm, IfEnd, IsKw;
  }

  function ArmTokens(conds: seq<Node>, bodies: seq<Node>): multiset<Token> {
    NodesTokens(conds) + NodesTokens(bodies)
  }

  lemma NoArms(held: multiset<Token>)
    ensures held + ArmTokens([], []) == held
  {
  }

  lemma {:induction false} ArmsPush(held: multiset<Token>, cs: seq<Node>, bs: seq<Node>, c: Node, b: Node)
    ensures held + ArmTokens(cs, bs) + (NodeTokens(c) + NodeTokens(b)) == held + ArmTokens(cs + [c], bs + [b])
  {
    hide NodesTokens, NodeTokens;
    NodesPush(cs, c);
    NodesPush(bs, b);
    Pairwise(held, NodesTokens(cs), NodesTokens(bs), NodeTokens(c), NodeTokens(b));
  }

  lemma Pairwise<T>(h: multiset<T>, cs: multiset<T>, bs: multiset<T>, c: multiset<T>, b: multiset<T>)
    ensures h + (cs + bs) + (c + b) == h + ((cs + c) + (bs + b))
  {
  }

  lemma NoElse(held: multiset<Token>, conds: seq<Node>, bodies: seq<Node>)
    ensures held + ArmTokens(conds, bodies) == held + NodeTokens(If(conds, bodies, None))
  {
    hide NodesTokens;
    assert ArmTokens(conds, bodies) + multiset{} == ArmTokens(conds, bodies);
  }

  lemma Drop2(ts: Toks)
    requires ts != []
    ensures |ts| > 1 ==> ts[1..][1..] == ts[2..]
  {
  }

  lemma {:induction false} WhileTokens(held: multiset<Token>, cond: Node, body: Node)
    ensures held + NodeTokens(cond) + NodeTokens(body) == held + NodeTokens(While(cond, body))
  {
    Assoc(held, NodeTokens(cond), NodeTokens(body));
  }

  lemma {:induction false} ForTokens(held: multiset<Token>, name: string, words: seq<Token>, body: Node)
    ensures held + multiset(words) + NodeTokens(body) == held + NodeTokens(For(name, words, body))
  {
    Assoc(held, multiset(words), NodeTokens(body));
  }

  lemma {:induction false} FuncTokens(name: string, body: Node)
    ensures NodeTokens(FuncDef(name, body)) == NodeTokens(body)
  {
  }

  lemma {:induction false} FuncIs(ts: Toks)
    requires |ts| > 1
    ensures NameOf(ts[0]).None? ==> ParseFuncDef(ts) == Fail(Syntax, ts)
    ensures NameOf(ts[0]).Some? && |ts| == 2 ==> ParseFuncDef(ts) == Fail(Incomplete, [])
    ensures NameOf(ts[0]).Some? && |ts| > 2 && ts[2].kind != RParen ==> ParseFuncDef(ts) == Fail(Syntax, ts[1..][1..])
    ensures NameOf(ts[0]).Some? && |ts| > 2 && ts[2].kind == RParen ==>
              var b := Block(ts[1..][1..][1..], "{", "}");
              ParseFuncDef(ts) == if b.Fail? then Fail(b.error, b.rest)
                                  else Ok(FuncDef(NameOf(ts[0]).value, b.value), b.rest)
  {
    hide Block, NameOf;
    assert ts[1..][1..] == ts[2..];
    if |ts| > 2 { assert ts[2..][1..] == ts[3..]; }
  }

  // ---- The parser ----------------------------------------------------------------

  datatype Verdict<T> = Done(value: T) | Bad(error: Error)

  /** A verdict together with the tokens still in place. */
  function At<T>(v: Verdict<T>, rest: Toks): Result<T> {
    match v
    case Done(x) => Ok(x, rest)
    case Bad(e) => Fail(e, rest)
  }

  class Parser {
    ghost const input: Toks
    var toks: seq<Option<Token>>
    var pos: nat
    var freed: multiset<Token>

    constructor (tl: Toks)
      ensures Valid() && input == tl && pos == 0 && freed == multiset{}
    {
      input := tl;
      toks := seq(|tl|, i requires 0 <= i < |tl| => Some(tl[i]));
      pos := 0;
      freed := multiset{};
    }

    ghost predicate Valid()
      reads this
    {
      && pos <= |input| == |toks|
      && forall i | 0 <= i < |toks| :: toks[i] == if i < pos then None else Some(input[i])
    }

    ghost function Rest(): Toks
      requires Valid()
      reads this
    {
      input[pos..]
    }

    /** Every token passed so far is freed or in `held`, once. */
    ghost predicate Accounted(held: multiset<Token>)
      requires Valid()
      reads this
    {
      freed + held == multiset(input[..pos])
    }

    function Peek(i: nat): (o: Option<Token>)
      requires Valid()
      reads this
      ensures o == if i < |Rest()| then Some(Rest()[i]) else None
    {
      if pos + i < |toks| then toks[pos + i] else None
    }

    predicate AtEnd()
      requires Valid()
      reads this
      ensures AtEnd() == (Rest() == [])
    {
      pos >= |toks|
    }

    predicate Here(k: Kind)
      requires Valid()
      reads this
      ensures Here(k) == AtKind(Rest(), k)
    {
      Peek(0).Some? && Peek(0).value.kind == k
    }

    predicate HereKw(kw: string)
      requires Valid()
      reads this
      ensures HereKw(kw) == AtKw(Rest(), kw)
    {
      Peek(0).Some? && IsKw(Peek(0).value, kw)
    }

    predicate HereEnder()
      requires Valid()
      reads this
      ensures HereEnder() == AtEnder(Rest())
    {
      Peek(0).Some? && IsEnder(Peek(0).value)
    }

    method Take(ghost held: multiset<Token>) returns (t: Token)
      requires Valid() && Rest() != [] && Accounted(held)
      modifies `toks, `pos
      ensures Valid() && old(Rest()) == [t] + Rest() && pos == old(pos) + 1
      ensures Accounted(held + multiset{t})
    {
      t := toks[pos].value;
      toks := toks[pos := None];
      pos := pos + 1;
      assert input[..pos] == input[..pos - 1] + [t];
    }

    method FreeToken(t: Token, ghost held: multiset<Token>)
      requires Valid() && Accounted(held + multiset{t})
      modifies `freed
      ensures Accounted(held)
    {
      freed := freed + multiset{t};
    }

    method Drop(ghost held: multiset<Token>)
      requires Valid() && Rest() != [] && Accounted(held)
      modifies `toks, `pos, `freed
      ensures Valid() && old(Rest())[1..] == Rest() && pos == old(pos) + 1
      ensures Accounted(held)
    {
      var t := Take(held);
      FreeToken(t, held);
    }

    /** Frees every token of a finished or half-built piece of tree. */
    method FreeAll(ts: multiset<Token>, ghost held: multiset<Token>)
      requires Valid() && Accounted(held + ts)
      modifies `freed
      ensures Accounted(held)
    {
      freed := freed + ts;
    }

    method SkipSepTokens(ghost held: multiset<Token>)
      requires Valid() && Accounted(held)
      modifies `toks, `pos, `freed
      ensures Valid() && Rest() == SkipSeps(old(Rest())) && Accounted(held) && pos >= old(pos)
    {
      while Here(Semi) || Here(Newline)
        invariant Valid() && SkipSeps(Rest()) == SkipSeps(old(Rest())) && Accounted(held) && pos >= old(pos)
        decreases |toks| - pos
      {
        Drop(held);
      }
    }

    method SkipNewlines(ghost held: multiset<Token>)
      requires Valid() && Accounted(held)
      modifies `toks, `pos, `freed
      ensures Valid() && Rest() == SkipNl(old(Rest())) && Accounted(held) && pos >= old(pos)
    {
      while Here(Newline)
        invariant Valid() && SkipNl(Rest()) == SkipNl(old(Rest())) && Accounted(held) && pos >= old(pos)
        decreases |toks| - pos
      {
        Drop(held);
      }
    }

    method ExpectKw(kw: string, ghost held: multiset<Token>) returns (r: Verdict<()>)
      requires Valid() && Accounted(held)
      modifies `toks, `pos, `freed
      ensures Valid() && At(r, Rest()) == Expect(old(Rest()), kw) && Accounted(held) && pos >= old(pos)
    {
      if !HereKw(kw) {
        return Bad(if AtEnd() then Incomplete else Syntax);
      }
      Drop(held);
      r := Done(());
    }

    method ParseSimple(ghost held: multiset<Token>) returns (r: Verdict<Command>)
      requires Valid() && Accounted(held)
      modifies `toks, `pos, `freed
      ensures Valid() && At(r, Rest()) == SimpleLoop(NO_COMMAND, old(Rest())) && pos >= old(pos)
      ensures Accounted(if r.Done? then held + CmdTokens(r.value) else held)
    {
      hide SimpleLoop, CmdTokens, IsReserved, SetRedir, Accounted;
      var c := NO_COMMAND;
      var err: Option<Error> := None;
      NoTokens(held);
      while err.None? && !AtEnd()
        invariant Valid() && Accounted(held + CmdTokens(c)) && pos >= old(pos)
        invariant SimpleLoop(NO_COMMAND, old(Rest()))
                  == if err.None? then SimpleLoop(c, Rest()) else Fail(err.value, Rest())
        decreases |toks| - pos, err.None?
      {
        SimpleUnfold(c, Rest());
        var t := Peek(0).value;
        if t.kind == Word {
          if c.words == [] && IsReserved(t) {
            err := Some(Syntax);
            break;
          }
          var w := Take(held + CmdTokens(c));
          WordTokens(c, w);
          Assoc(held, CmdTokens(c), multiset{w});
          c := c.(words := c.words + [w]);
          continue;
        }
        if !IsRedir(t.kind) {
          break;
        }
        Drop(held + CmdTokens(c));
        if AtEnd() {
          err := Some(Incomplete);
        } else if !Here(Word) {
          err := Some(Syntax);
        } else {
          c, err := Redirect(c, t.kind, held);
        }
      }
      SimpleUnfold(c, Rest());
      if err.None? && c.words == [] {
        err := Some(Syntax);
      }
      if err.Some? {
        FreeAll(CmdTokens(c), held);
        return Bad(err.value);
      }
      r := Done(c);
    }

    /** Takes the target and puts it in its slot, or frees it if that is taken. */
    method Redirect(c: Command, k: Kind, ghost held: multiset<Token>) returns (c': Command, err: Option<Error>)
      requires Valid() && Rest() != [] && Accounted(held + CmdTokens(c))
      modifies `toks, `pos, `freed
      ensures Valid() && Rest() == old(Rest())[1..] && Accounted(held + CmdTokens(c')) && pos > old(pos)
      ensures match SetRedir(c, k, old(Rest())[0])
              case None => c' == c && err == Some(Syntax)
              case Some(d) => c' == d && err == None
    {
      var target := Take(held + CmdTokens(c));
      match SetRedir(c, k, target) {
        case None =>
          FreeToken(target, held + CmdTokens(c));
          return c, Some(Syntax);
        case Some(d) =>
          SetRedirTokens(c, k, target);
          Assoc(held, CmdTokens(c), multiset{target});
          return d, None;
      }
    }

    method ParsePipeline(ghost held: multiset<Token>) returns (r: Verdict<seq<Command>>)
      requires Valid() && Accounted(held)
      modifies `toks, `pos, `freed
      ensures Valid() && At(r, Rest()) == PipeLoop([], old(Rest())) && pos >= old(pos)
      ensures Accounted(if r.Done? then held + CmdsTokens(r.value) else held)
    {
      hide SimpleLoop, PipeLoop, CmdTokens, CmdsTokens, Accounted;
      var cmds: seq<Command> := [];
      NoCommands(held);
      while true
        invariant Valid() && Accounted(held + CmdsTokens(cmds)) && pos >= old(pos)
        invariant PipeLoop([], old(Rest())) == PipeLoop(cmds, Rest())
        decreases |input| - pos
      {
        PipeUnfold(cmds, Rest());
        ghost var before := Rest();
        var v := ParseSimple(held + CmdsTokens(cmds));
        if v.Bad? {
          FreeAll(CmdsTokens(cmds), held);
          return Bad(v.error);
        }
        CmdsPush(cmds, v.value);
        Assoc(held, CmdsTokens(cmds), CmdTokens(v.value));
        cmds := cmds + [v.value];
        if !Here(Pipe) {
          return Done(cmds);
        }
        var more := SkipToMore(held + CmdsTokens(cmds));
        if !more {
          FreeAll(CmdsTokens(cmds), held);
          return Bad(Incomplete);
        }
      }
    }

    /** Drops an operator and the newlines after it. */
    method SkipToMore(ghost held: multiset<Token>) returns (more: bool)
      requires Valid() && Rest() != [] && Accounted(held)
      modifies `toks, `pos, `freed
      ensures Valid() && Rest() == SkipNl(old(Rest())[1..]) && Accounted(held)
      ensures more == (Rest() != []) && pos > old(pos)
    {
      Drop(held);
      SkipNewlines(held);
      more := !AtEnd();
    }

    method ParseLink(op: AndOrOp, ghost held: multiset<Token>) returns (r: Verdict<AndOrItem>)
      requires Valid() && Accounted(held)
      modifies `toks, `pos, `freed
      ensures Valid() && At(r, Rest()) == Link(op, old(Rest())) && pos >= old(pos)
      ensures Accounted(if r.Done? then held + NodeTokens(r.value.node) else held)
    {
      hide PipeLoop, IsKw, CmdsTokens, Accounted;
      var neg := HereKw("!");
      if neg {
        Drop(held);
        if AtEnd() {
          return Bad(Incomplete);
        }
        if HereKw("!") {
          return Bad(Syntax);
        }
      }
      var v := ParsePipeline(held);
      if v.Bad? {
        return Bad(v.error);
      }
      r := Done(AndOrItem(op, Pipeline(v.value, false, neg)));
    }

    method ParseAndOrNode(ghost held: multiset<Token>) returns (r: Verdict<Node>)
      requires Valid() && Accounted(held)
      modifies `toks, `pos, `freed
      ensures Valid() && At(r, Rest()) == ParseAndOr(old(Rest())) && pos >= old(pos)
      ensures Accounted(if r.Done? then held + NodeTokens(r.value) else held)
    {
      hide AndOrLoop, NodeTokens, ItemsTokens, Accounted;
      var v := ParseChain(held);
      if v.Bad? {
        return Bad(v.error);
      }
      ChainTokens(v.value);
      r := Done(if |v.value| == 1 then v.value[0].node else AndOr(v.value));
    }

    method ParseChain(ghost held: multiset<Token>) returns (r: Verdict<seq<AndOrItem>>)
      requires Valid() && Accounted(held)
      modifies `toks, `pos, `freed
      ensures Valid() && At(r, Rest()) == AndOrLoop([], First, old(Rest())) && pos >= old(pos)
      ensures Accounted(if r.Done? then held + ItemsTokens(r.value) else held)
    {
      hide AndOrLoop, NodeTokens, ItemsTokens, Link, Accounted;
      var items: seq<AndOrItem> := [];
      var op := First;
      NoItems(held);
      ghost var all := AndOrLoop([], First, Rest());
      while true
        invariant Valid() && Accounted(held + ItemsTokens(items)) && pos >= old(pos)
        invariant all == AndOrLoop(items, op, Rest())
        decreases |input| - pos
      {
        AndOrUnfold(items, op, Rest());
        var v := ParseLink(op, held + ItemsTokens(items));
        if v.Bad? {
          FreeAll(ItemsTokens(items), held);
          return Bad(v.error);
        }
        LinkTokens(held, items, v.value);
        items := items + [v.value];
        if !Here(AndIf) && !Here(OrIf) {
          return Done(items);
        }
        op := if Here(AndIf) then And else Or;
        var more := SkipToMore(held + ItemsTokens(items));
        if !more {
          FreeAll(ItemsTokens(items), held);
          return Bad(Incomplete);
        }
      }
    }

    // ---- Lists and compounds ----------------------------------------------------

    method ParseListNode(ghost held: multiset<Token>) returns (r: Verdict<Option<Node>>)
      requires Valid() && Accounted(held)
      modifies `toks, `pos, `freed
      ensures Valid() && At(r, Rest()) == ParseList(old(Rest())) && pos >= old(pos)
      ensures Accounted(if r.Done? then held + OptTokens(r.value) else held)
      decreases |input| - pos, 6
    {
      hide ListLoop, NodesTokens, OptTokens, Accounted, Listed, Collapse;
      var nodes: seq<Node> := [];
      NoNodes(held);
      ghost var all := ListLoop([], Rest());
      ListIs(Rest());
      while true
        invariant Valid() && Accounted(held + NodesTokens(nodes)) && pos >= old(pos)
        invariant all == ListLoop(nodes, Rest())
        decreases |input| - pos
      {
        ListUnfold(nodes, Rest());
        SkipSepTokens(held + NodesTokens(nodes));
        if AtEnd() || HereEnder() {
          CollapseTokens(nodes);
          return Done(Collapse(nodes));
        }
        var v := ParseListItem(held + NodesTokens(nodes));
        if v.Bad? {
          FreeAll(NodesTokens(nodes), held);
          return Bad(v.error);
        }
        NodesPush(nodes, v.value);
        Assoc(held, NodesTokens(nodes), NodeTokens(v.value));
        nodes := nodes + [v.value];
      }
    }

    /** One item and what may follow it: `&`, a separator, a closing keyword or the end. */
    method ParseListItem(ghost held: multiset<Token>) returns (r: Verdict<Node>)
      requires Valid() && Accounted(held)
      modifies `toks, `pos, `freed
      ensures Valid() && At(r, Rest()) == Listed(old(Rest())) && pos >= old(pos)
      ensures Accounted(if r.Done? then held + NodeTokens(r.value) else held)
      decreases |input| - pos, 5
    {
      hide ParseItem, Accounted, IsEnder, NodeTokens;
      var v := ParseItemNode(held);
      if v.Bad? {
        return Bad(v.error);
      }
      if Here(Amp) {
        if !v.value.Pipeline? {
          FreeAll(NodeTokens(v.value), held);
          return Bad(Syntax);
        }
        Drop(held + NodeTokens(v.value));
        BackgroundTokens(v.value);
        return Done(v.value.(background := true));
      }
      if !AtEnd() && !HereEnder() && !Here(Semi) && !Here(Newline) {
        FreeAll(NodeTokens(v.value), held);
        return Bad(Syntax);
      }
      r := Done(v.value);
    }

    method ParseBodyNode(ghost held: multiset<Token>) returns (r: Verdict<Node>)
      requires Valid() && Accounted(held)
      modifies `toks, `pos, `freed
      ensures Valid() && At(r, Rest()) == ParseBody(old(Rest())) && pos >= old(pos)
      ensures Accounted(if r.Done? then held + NodeTokens(r.value) else held)
      decreases |input| - pos, 7
    {
      hide ParseList, Accounted, NodeTokens;
      var v := ParseListNode(held);
      if v.Bad? {
        return Bad(v.error);
      }
      SomeTokens(held, v.value);
      if v.value.None? {
        return Bad(if AtEnd() then Incomplete else Syntax);
      }
      r := Done(v.value.value);
    }

    /** A body and the keyword that must follow it. */
    method ParseClosed(kw: string, ghost held: multiset<Token>) returns (r: Verdict<Node>)
      requires Valid() && Accounted(held)
      modifies `toks, `pos, `freed
      ensures Valid() && At(r, Rest()) == Closed(old(Rest()), kw) && pos >= old(pos)
      ensures Accounted(if r.Done? then held + NodeTokens(r.value) else held)
      decreases |input| - pos, 8
    {
      hide ParseBody, Accounted, NodeTokens, Expect;
      var v := ParseBodyNode(held);
      if v.Bad? {
        return Bad(v.error);
      }
      var e := ExpectKw(kw, held + NodeTokens(v.value));
      if e.Bad? {
        FreeAll(NodeTokens(v.value), held);
        return Bad(e.error);
      }
      r := Done(v.value);
    }

    method ParseItemNode(ghost held: multiset<Token>) returns (r: Verdict<Node>)
      requires Valid() && Accounted(held)
      modifies `toks, `pos, `freed
      ensures Valid() && At(r, Rest()) == ParseItem(old(Rest())) && pos >= old(pos)
      ensures Accounted(if r.Done? then held + NodeTokens(r.value) else held)
      decreases |input| - pos, 4
    {
      hide ParseIf, ParseWhile, ParseFor, ParseFuncDef, ParseAndOr, Accounted, NodeTokens, IsKw;
      if HereKw("if") {
        r := ParseIfNode(held);
      } else if HereKw("while") {
        r := ParseWhileNode(held);
      } else if HereKw("for") {
        r := ParseForNode(held);
      } else if Here(Word) && Peek(1).Some? && Peek(1).value.kind == LParen {
        r := ParseFuncNode(held);
      } else {
        r := ParseAndOrNode(held);
      }
    }

    method ParseWhileNode(ghost held: multiset<Token>) returns (r: Verdict<Node>)
      requires Valid() && Rest() != [] && Accounted(held)
      modifies `toks, `pos, `freed
      ensures Valid() && At(r, Rest()) == ParseWhile(old(Rest())) && pos >= old(pos)
      ensures Accounted(if r.Done? then held + NodeTokens(r.value) else held)
      decreases |input| - pos, 3
    {
      hide Closed, Accounted, NodeTokens;
      Drop(held);
      var c := ParseClosed("do", held);
      if c.Bad? {
        return Bad(c.error);
      }
      var b := ParseClosed("done", held + NodeTokens(c.value));
      if b.Bad? {
        FreeAll(NodeTokens(c.value), held);
        return Bad(b.error);
      }
      WhileTokens(held, c.value, b.value);
      r := Done(While(c.value, b.value));
    }

    method ParseArm(ghost held: multiset<Token>) returns (r: Verdict<(Node, Node)>)
      requires Valid() && Accounted(held)
      modifies `toks, `pos, `freed
      ensures Valid() && At(r, Rest()) == Arm(old(Rest())) && pos >= old(pos)
      ensures Accounted(if r.Done? then held + (NodeTokens(r.value.0) + NodeTokens(r.value.1)) else held)
      decreases |input| - pos, 9
    {
      hide Closed, ParseBody, Accounted, NodeTokens;
      var c := ParseClosed("then", held);
      if c.Bad? {
        return Bad(c.error);
      }
      var b := ParseBodyNode(held + NodeTokens(c.value));
      if b.Bad? {
        FreeAll(NodeTokens(c.value), held);
        return Bad(b.error);
      }
      Assoc(held, NodeTokens(c.value), NodeTokens(b.value));
      r := Done((c.value, b.value));
    }

    method ParseIfNode(ghost held: multiset<Token>) returns (r: Verdict<Node>)
      requires Valid() && Rest() != [] && Accounted(held)
      modifies `toks, `pos, `freed
      ensures Valid() && At(r, Rest()) == ParseIf(old(Rest())) && pos >= old(pos)
      ensures Accounted(if r.Done? then held + NodeTokens(r.value) else held)
      decreases |input| - pos, 3
    {
      hide IfLoop, Arm, IfEnd, Accounted, NodeTokens, NodesTokens;
      Drop(held);
      ghost var all := IfLoop([], [], Rest());
      var conds: seq<Node>, bodies: seq<Node> := [], [];
      NoArms(held);
      while true
        invariant Valid() && Accounted(held + ArmTokens(conds, bodies)) && pos > old(pos)
        invariant all == IfLoop(conds, bodies, Rest())
        decreases |input| - pos
      {
        IfUnfold(conds, bodies, Rest());
        var v := ParseArm(held + ArmTokens(conds, bodies));
        if v.Bad? {
          FreeAll(ArmTokens(conds, bodies), held);
          return Bad(v.error);
        }
        ArmsPush(held, conds, bodies, v.value.0, v.value.1);
        conds, bodies := conds + [v.value.0], bodies + [v.value.1];
        if !HereKw("elif") {
          r := ParseIfEnd(conds, bodies, held);
          return;
        }
        Drop(held + ArmTokens(conds, bodies));
      }
    }

    /** The optional `else` and the closing `fi`. */
    method ParseIfEnd(conds: seq<Node>, bodies: seq<Node>, ghost held: multiset<Token>) returns (r: Verdict<Node>)
      requires Valid() && Accounted(held + ArmTokens(conds, bodies))
      modifies `toks, `pos, `freed
      ensures Valid() && At(r, Rest()) == IfEnd(conds, bodies, old(Rest())) && pos >= old(pos)
      ensures Accounted(if r.Done? then held + NodeTokens(r.value) else held)
      decreases |input| - pos, 9
    {
      hide Closed, Expect, Accounted, NodesTokens, IsKw;
      if HereKw("else") {
        Drop(held + ArmTokens(conds, bodies));
        var o := ParseClosed("fi", held + ArmTokens(conds, bodies));
        if o.Bad? {
          FreeAll(ArmTokens(conds, bodies), held);
          return Bad(o.error);
        }
        Assoc(held, ArmTokens(conds, bodies), NodeTokens(o.value));
        return Done(If(conds, bodies, Some(o.value)));
      }
      var e := ExpectKw("fi", held + ArmTokens(conds, bodies));
      if e.Bad? {
        FreeAll(ArmTokens(conds, bodies), held);
        return Bad(e.error);
      }
      NoElse(held, conds, bodies);
      r := Done(If(conds, bodies, None));
    }

    /** Optional newlines, an opening keyword, a body and its closing keyword. */
    method ParseBlock(open: string, close: string, ghost held: multiset<Token>) returns (r: Verdict<Node>)
      requires Valid() && Accounted(held)
      modifies `toks, `pos, `freed
      ensures Valid() && At(r, Rest()) == Block(old(Rest()), open, close) && pos >= old(pos)
      ensures Accounted(if r.Done? then held + NodeTokens(r.value) else held)
      decreases |input| - pos, 9
    {
      hide Closed, Expect, Accounted, NodeTokens;
      SkipNewlines(held);
      var e := ExpectKw(open, held);
      if e.Bad? {
        return Bad(e.error);
      }
      r := ParseClosed(close, held);
    }

    method ParseForNode(ghost held: multiset<Token>) returns (r: Verdict<Node>)
      requires Valid() && Rest() != [] && Accounted(held)
      modifies `toks, `pos, `freed
      ensures Valid() && At(r, Rest()) == ParseFor(old(Rest())) && pos >= old(pos)
      ensures Accounted(if r.Done? then held + NodeTokens(r.value) else held)
      decreases |input| - pos, 3
    {
      hide ForTail, Expect, Accounted, NodeTokens, NameOf, ParseFor;
      ForUnfold(Rest());
      Drop2(Rest());
      Drop(held);
      var name := if AtEnd() then None else NameOf(Peek(0).value);
      if name.None? {
        return Bad(if AtEnd() then Incomplete else Syntax);
      }
      Drop(held);
      SkipNewlines(held);
      var e := ExpectKw("in", held);
      if e.Bad? {
        return Bad(e.error);
      }
      r := ParseForTail(name.value, held);
    }

    method ParseForTail(name: string, ghost held: multiset<Token>) returns (r: Verdict<Node>)
      requires Valid() && Accounted(held)
      modifies `toks, `pos, `freed
      ensures Valid() && At(r, Rest()) == ForTail(name, old(Rest())) && pos >= old(pos)
      ensures Accounted(if r.Done? then held + NodeTokens(r.value) else held)
      decreases |input| - pos, 10
    {
      hide Block, Accounted, NodeTokens, ForList;
      var w := ParseWords(held);
      if w.Bad? {
        return Bad(w.error);
      }
      var b := ParseBlock("do", "done", held + multiset(w.value));
      if b.Bad? {
        FreeAll(multiset(w.value), held);
        return Bad(b.error);
      }
      ForTokens(held, name, w.value, b.value);
      r := Done(For(name, w.value, b.value));
    }

    /** The words a `for` runs over, up to and including the separator. */
    method ParseWords(ghost held: multiset<Token>) returns (r: Verdict<seq<Token>>)
      requires Valid() && Accounted(held)
      modifies `toks, `pos, `freed
      ensures Valid() && At(r, Rest()) == ForList(old(Rest())) && pos >= old(pos)
      ensures Accounted(if r.Done? then held + multiset(r.value) else held)
    {
      hide Accounted;
      var words: seq<Token> := [];
      assert held + multiset(words) == held;
      while Here(Word)
        invariant Valid() && Accounted(held + multiset(words)) && pos >= old(pos)
        invariant ForWords(words, Rest()) == ForWords([], old(Rest()))
        decreases |input| - pos
      {
        var w := Take(held + multiset(words));
        assert multiset(words + [w]) == multiset(words) + multiset{w};
        Assoc(held, multiset(words), multiset{w});
        words := words + [w];
      }
      if AtEnd() || !(Here(Semi) || Here(Newline)) {
        FreeAll(multiset(words), held);
        return Bad(if AtEnd() then Incomplete else Syntax);
      }
      Drop(held + multiset(words));
      r := Done(words);
    }

    method ParseFuncNode(ghost held: multiset<Token>) returns (r: Verdict<Node>)
      requires Valid() && |Rest()| > 1 && Accounted(held)
      modifies `toks, `pos, `freed
      ensures Valid() && At(r, Rest()) == ParseFuncDef(old(Rest())) && pos >= old(pos)
      ensures Accounted(if r.Done? then held + NodeTokens(r.value) else held)
      decreases |input| - pos, 3
    {
      hide Block, Accounted, NameOf, ParseFuncDef, NodeTokens, IsKw;
      FuncIs(Rest());
      var name := NameOf(Peek(0).value);
      if name.None? {
        return Bad(Syntax);
      }
      Drop(held);
      Drop(held);
      if AtEnd() || !Here(RParen) {
        return Bad(if AtEnd() then Incomplete else Syntax);
      }
      Drop(held);
      var b := ParseBlock("{", "}", held);
      if b.Bad? {
        return Bad(b.error);
      }
      FuncTokens(name.value, b.value);
      r := Done(FuncDef(name.value, b.value));
    }

    /** Frees whatever is still in its slot. */
    method Sweep(ghost held: multiset<Token>)
      requires Valid() && Accounted(held)
      modifies `toks, `pos, `freed
      ensures Valid() && Rest() == [] && freed + held == multiset(input)
    {
      while !AtEnd()
        invariant Valid() && Accounted(held)
        decreases |input| - pos
      {
        Drop(held);
      }
      assert input[..pos] == input;
    }

    /** Parses the whole program. Every input token ends in exactly one place: in
        the returned tree, or freed once; and no slot still holds one. */
    method ParseAll() returns (r: Verdict<Option<Node>>)
      requires Valid() && pos == 0 && freed == multiset{}
      modifies `toks, `pos, `freed
      ensures match ParseProgram(input)
              case Ok(n, _) => r == Done(n)
              case Fail(e, _) => r == Bad(e)
      ensures freed + (if r.Done? then OptTokens(r.value) else multiset{}) == multiset(input)
      ensures forall i | 0 <= i < |toks| :: toks[i].None?
    {
      hide ParseList, OptTokens, NodeTokens;
      assert input[..0] == [] && Rest() == input;
      var v := ParseListNode(multiset{});
      if v.Bad? {
        Sweep(multiset{});
        return Bad(v.error);
      }
      if !AtEnd() {
        FreeAll(OptTokens(v.value), multiset{});
        Sweep(multiset{});
        return Bad(Syntax);
      }
      Sweep(OptTokens(v.value));
      r := v;
    }
  }
}
