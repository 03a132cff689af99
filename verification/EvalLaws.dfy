/** What holds of every evaluation: where each kind of exit can come from, that
    parser-built trees never fail, that fuel only cuts runs off, and that a list
    is its parts run in turn. */
module EvalLaws {
  import opened Tokens
  import opened Ast
  import opened EvalSpec
  import opened NormalForm
  import opened ParseNormal
  import opened Grammar

  // ---- Where control can go ---------------------------------------------------

  /** Break and continue only inside a loop, return only inside a function. */
  predicate Confined(p: Place, r: Res) {
    r.Res? ==>
      && (r.out == Break || r.out == Continue ==> p.loops > 0)
      && (r.out.Return? ==> p.depth > 0 )
  }

  /** As the parser builds them, with a body for every condition. */
  predicate Whole(n: Node) {
    match n
    case Pipeline(_, _, _) => true
    case AndOr(items) => forall i | 0 <= i < |items| :: Whole(items[i].node)
    case List(nodes) => forall i | 0 <= i < |nodes| :: Whole(nodes[i])
    case If(conds, bodies, other) =>
      && |conds| <= |bodies|
      && (forall i | 0 <= i < |conds| :: Whole(conds[i]))
      && (forall i | 0 <= i < |bodies| :: Whole(bodies[i]))
      && (other.Some? ==> Whole(other.value))
    case While(cond, body) => Whole(cond) && Whole(body)
    case For(_, _, body) => Whole(body)
    case FuncDef(_, body) => Whole(body)
  }

  predicate WholeFuncs(s: State) { forall f | f in s.funcs :: Whole(s.funcs[f]) }

  /** From whole trees: no error, and only whole trees are defined. */
  predicate Sound(r: Res) { r.Res? ==> r.out != Invalid && WholeFuncs(r.s) }

  /** What every construct is shown to keep. */
  predicate Sane(p: Place, whole: bool, r: Res) { Confined(p, r) && (whole ==> Sound(r)) }

  lemma BuiltinSane(o: Oracle, argv: seq<string>, p: Place, s: State)
    requires argv != []
    ensures Sane(p, WholeFuncs(s), RunBuiltin(o, argv, p, s))
  {
    hide Strtol, Whole;
  }

  lemma AfterCallSane(p: Place, whole: bool, r: Res)
    requires whole ==> Sound(r)
    ensures Sane(p, whole, AfterCall(r))
  {
    hide Whole;
  }

  lemma {:induction false} SimpleSane(o: Oracle, c: Command, p: Place, s: State, fuel: nat)
    ensures Sane(p, WholeFuncs(s), RunSimple(o, c, p, s, fuel))
    decreases fuel, 1
  {
    hide Whole, Eval, Expanded, RunBuiltin, AfterCall, IsBuiltin;
    var e := Expanded(o, c.words, p, s);
    if e.Some? && e.value != [] && e.value[0] != "" {
      var argv := e.value;
      var s1 := Redirected(o, c, s).0;
      if IsBuiltin(argv[0]) {
        BuiltinSane(o, argv, p, s1);
      } else if argv[0] in s.funcs && p.depth < DEPTH_MAX && fuel > 0 {
        var q := Place(p.loops, p.depth + 1, CallArgs(p.args, argv));
        EvalSane(o, s.funcs[argv[0]], q, s1, fuel - 1);
        AfterCallSane(p, WholeFuncs(s), Eval(o, s.funcs[argv[0]], q, s1, fuel - 1));
      }
    }
  }

  lemma {:induction false} EvalSane(o: Oracle, n: Node, p: Place, s: State, fuel: nat)
    ensures Sane(p, Whole(n) && WholeFuncs(s), Eval(o, n, p, s, fuel))
    decreases fuel, 3, n, 5
  {
    hide EvalChain, EvalSeq, EvalIf, EvalWhile, EvalFor, RunSimple;
    match n
    case Pipeline(cmds, bg, _) =>
      if |cmds| == 1 && !bg { SimpleSane(o, cmds[0], p, s, fuel); }
    case AndOr(items) => ChainSane(o, n, 0, p, s, fuel); assert items[0..] == items;
    case List(nodes) => SeqSane(o, n, 0, p, s, fuel); assert nodes[0..] == nodes;
    case If(_, _, _) => IfSane(o, n, 0, p, s, fuel);
    case While(_, _) => WhileSane(o, n, p, s, 0, fuel);
    case For(_, _, _) => ForSane(o, n, 0, p, s, s.status, 0, fuel);
    case FuncDef(_, _) =>
  }

  lemma {:induction false} ChainSane(o: Oracle, n: Node, i: nat, p: Place, s: State, fuel: nat)
    requires n.AndOr? && i <= |n.items|
    ensures Sane(p, Whole(n) && WholeFuncs(s), EvalChain(o, n.items[i..], p, s, fuel))
    decreases fuel, 3, n, 4, |n.items| - i
  {
    hide Eval;
    if i < |n.items| {
      assert n.items[i..][1..] == n.items[i + 1..];
      var it := n.items[i];
      if (it.op == And && s.status != 0) || (it.op == Or && s.status == 0) {
        ChainSane(o, n, i + 1, p, s, fuel);
      } else {
        EvalSane(o, it.node, p, s, fuel);
        var r := Eval(o, it.node, p, s, fuel);
        if r.Res? && r.out == Normal { ChainSane(o, n, i + 1, p, r.s, fuel); }
      }
    }
  }

  lemma {:induction false} SeqSane(o: Oracle, n: Node, i: nat, p: Place, s: State, fuel: nat)
    requires n.List? && i <= |n.nodes|
    ensures Sane(p, Whole(n) && WholeFuncs(s), EvalSeq(o, n.nodes[i..], p, s, fuel))
    decreases fuel, 3, n, 4, |n.nodes| - i
  {
    hide Eval;
    if i < |n.nodes| {
      assert n.nodes[i..][1..] == n.nodes[i + 1..];
      EvalSane(o, n.nodes[i], p, s, fuel);
      var r := Eval(o, n.nodes[i], p, s, fuel);
      if r.Res? && r.out == Normal { SeqSane(o, n, i + 1, p, r.s, fuel); }
    }
  }

  lemma {:induction false} IfSane(o: Oracle, n: Node, i: nat, p: Place, s: State, fuel: nat)
    requires n.If? && i <= |n.conds|
    ensures Sane(p, Whole(n) && WholeFuncs(s), EvalIf(o, n, i, p, s, fuel))
    decreases fuel, 3, n, 4, |n.conds| - i
  {
    hide Eval;
    if i == |n.conds| {
      if n.elseBody.Some? { EvalSane(o, n.elseBody.value, p, s, fuel); }
    } else {
      EvalSane(o, n.conds[i], p, s, fuel);
      var r := Eval(o, n.conds[i], p, s, fuel);
      if r.Res? && r.out == Normal {
        if r.s.status != 0 { IfSane(o, n, i + 1, p, r.s, fuel); }
        else if i < |n.bodies| { EvalSane(o, n.bodies[i], p, r.s, fuel); }
      }
    }
  }

  /** A loop never lets a break or continue out. */
  predicate LoopSane(p: Place, whole: bool, r: Res) {
    && (r.Res? ==> r.out != Break && r.out != Continue && (r.out.Return? ==> p.depth > 0))
    && (whole ==> Sound(r))
  }

  predicate PassSane(p: Place, whole: bool, pass: Pass) {
    match pass
    case Again(s, _) => whole ==> WholeFuncs(s)
    case Done(r) => LoopSane(p, whole, r)
  }

  lemma AfterBodySane(p: Place, q: Place, whole: bool, r: Res)
    requires Sane(q, whole, r) && q.depth == p.depth
    ensures PassSane(p, whole, AfterBody(r))
  {
    hide Whole;
  }

  lemma {:induction false} WhilePassSane(o: Oracle, n: Node, p: Place, s: State, last: int, fuel: nat)
    requires n.While?
    ensures PassSane(p, Whole(n) && WholeFuncs(s), WhilePass(o, n, p, s, last, fuel))
    decreases fuel, 3, n, 3
  {
    hide Eval;
    var s0, q := s.(tick := s.tick + 1), p.(loops := p.loops + 1);
    EvalSane(o, n.cond, q, s0, fuel);
    var c := Eval(o, n.cond, q, s0, fuel);
    if c.Res? && c.out == Normal {
      EvalSane(o, n.body, q, c.s, fuel);
      AfterBodySane(p, q, Whole(n) && WholeFuncs(s), Eval(o, n.body, q, c.s, fuel));
    }
  }

  lemma {:induction false} WhileSane(o: Oracle, n: Node, p: Place, s: State, last: int, fuel: nat)
    requires n.While?
    ensures LoopSane(p, Whole(n) && WholeFuncs(s), EvalWhile(o, n, p, s, last, fuel))
    decreases fuel, 3, n, 4
  {
    hide WhilePass, Whole;
    WhilePassSane(o, n, p, s, last, fuel);
    var pass := WhilePass(o, n, p, s, last, fuel);
    if pass.Again? && fuel > 0 { WhileSane(o, n, p, pass.s, pass.last, fuel - 1); }
  }

  lemma {:induction false} ForSane(o: Oracle, n: Node, i: nat, p: Place, s: State, status0: int, last: int, fuel: nat)
    requires n.For? && i <= |n.words|
    ensures LoopSane(p, Whole(n) && WholeFuncs(s), EvalFor(o, n, i, p, s, status0, last, fuel))
    decreases fuel, 3, n, 4, |n.words| - i
  {
    hide Eval;
    if i < |n.words| {
      var v := o.expand(n.words[i], status0, p.args, s.env);
      if v.Some? {
        var q, s1 := p.(loops := p.loops + 1), s.(tick := s.tick + 2, env := s.env[n.name := v.value]);
        EvalSane(o, n.body, q, s1, fuel);
        AfterBodySane(p, q, Whole(n) && WholeFuncs(s), Eval(o, n.body, q, s1, fuel));
      }
      var pass := ForPass(o, n, i, p, s, status0, fuel);
      if pass.Again? { ForSane(o, n, i + 1, p, pass.s, status0, pass.last, fuel); }
    }
  }

  /** At the top of a program, outside loops and functions, control leaves a tree
      normally or by an exit, and never with an error. */
  lemma {:induction false} TopLevel(o: Oracle, n: Node, p: Place, s: State, fuel: nat)
    requires p.loops == 0 && p.depth == 0 && Whole(n) && WholeFuncs(s)
    ensures var r := Eval(o, n, p, s, fuel); r.Res? ==> (r.out == Normal || r.out.Exit?) && WholeFuncs(r.s)
  {
    EvalSane(o, n, p, s, fuel);
  }

  lemma {:induction false} NormalIsWhole(n: Node)
    requires NormalBody(n)
    ensures Whole(n)
    decreases n
  {
    hide NormalCmds, IsName, IsReserved;
    match n
    case Pipeline(_, _, _) =>
    case AndOr(items) =>
      forall i | 0 <= i < |items| ensures Whole(items[i].node) { assert NormalLink(items[i], i == 0); }
    case List(nodes) =>
      forall i | 0 <= i < |nodes| ensures Whole(nodes[i]) { ItemIsBody(nodes[i]); NormalIsWhole(nodes[i]); }
    case If(conds, bodies, other) =>
      forall i | 0 <= i < |conds| ensures Whole(conds[i]) { NormalIsWhole(conds[i]); }
      forall i | 0 <= i < |bodies| ensures Whole(bodies[i]) { NormalIsWhole(bodies[i]); }
      if other.Some? { NormalIsWhole(other.value); }
    case While(cond, body) => NormalIsWhole(cond); NormalIsWhole(body);
    case For(_, _, body) => NormalIsWhole(body);
    case FuncDef(_, body) => NormalIsWhole(body);
  }

  lemma {:induction false} ItemIsBody(n: Node)
    requires NormalItem(n)
    ensures NormalBody(n)
  {
    hide NormalCmds;
  }

  /** A tree the parser built never gives an error code, in any place, under any
      oracle, as long as the functions defined so far were parsed too. */
  lemma {:induction false} ParsedNeverFails(ts: Toks, o: Oracle, p: Place, s: State, fuel: nat)
    requires ParseProgram(ts).Ok? && ParseProgram(ts).value.Some? && WholeFuncs(s)
    ensures var r := Eval(o, ParseProgram(ts).value.value, p, s, fuel);
            r.Res? ==> r.out != Invalid && WholeFuncs(r.s)
  {
    hide ParseProgram, Eval, Whole, NormalBody;
    ProgramNormal(ts);
    NormalIsWhole(ParseProgram(ts).value.value);
    EvalSane(o, ParseProgram(ts).value.value, p, s, fuel);
  }

  // ---- Fuel ---------------------------------------------------------------------

  /** More fuel changes nothing but a cut-off. */
  predicate Extends(r: Res, r': Res) { r.Res? ==> r' == r }

  lemma {:induction false} SimpleFuel(o: Oracle, c: Command, p: Place, s: State, f: nat, g: nat)
    requires f <= g
    ensures Extends(RunSimple(o, c, p, s, f), RunSimple(o, c, p, s, g))
    decreases f, 1
  {
    hide Eval, Expanded, RunBuiltin, IsBuiltin;
    var e := Expanded(o, c.words, p, s);
    if e.Some? && e.value != [] && e.value[0] in s.funcs && p.depth < DEPTH_MAX && f > 0 {
      var s1 := Redirected(o, c, s).0;
      EvalFuel(o, s.funcs[e.value[0]], Place(p.loops, p.depth + 1, CallArgs(p.args, e.value)), s1, f - 1, g - 1);
    }
  }

  lemma {:induction false} EvalFuel(o: Oracle, n: Node, p: Place, s: State, f: nat, g: nat)
    requires f <= g
    ensures Extends(Eval(o, n, p, s, f), Eval(o, n, p, s, g))
    decreases f, 3, n, 5
  {
    hide EvalChain, EvalSeq, EvalIf, EvalWhile, EvalFor, RunSimple;
    match n
    case Pipeline(cmds, bg, _) =>
      if |cmds| == 1 && !bg { SimpleFuel(o, cmds[0], p, s, f, g); }
    case AndOr(items) => ChainFuel(o, n, 0, p, s, f, g); assert items[0..] == items;
    case List(nodes) => SeqFuel(o, n, 0, p, s, f, g); assert nodes[0..] == nodes;
    case If(_, _, _) => IfFuel(o, n, 0, p, s, f, g);
    case While(_, _) => WhileFuel(o, n, p, s, 0, f, g);
    case For(_, _, _) => ForFuel(o, n, 0, p, s, s.status, 0, f, g);
    case FuncDef(_, _) =>
  }

  lemma {:induction false} ChainFuel(o: Oracle, n: Node, i: nat, p: Place, s: State, f: nat, g: nat)
    requires f <= g && n.AndOr? && i <= |n.items|
    ensures Extends(EvalChain(o, n.items[i..], p, s, f), EvalChain(o, n.items[i..], p, s, g))
    decreases f, 3, n, 4, |n.items| - i
  {
    hide Eval;
    if i < |n.items| {
      assert n.items[i..][1..] == n.items[i + 1..];
      var it := n.items[i];
      if (it.op == And && s.status != 0) || (it.op == Or && s.status == 0) {
        ChainFuel(o, n, i + 1, p, s, f, g);
      } else {
        EvalFuel(o, it.node, p, s, f, g);
        var r := Eval(o, it.node, p, s, f);
        if r.Res? && r.out == Normal { ChainFuel(o, n, i + 1, p, r.s, f, g); }
      }
    }
  }

  lemma {:induction false} SeqFuel(o: Oracle, n: Node, i: nat, p: Place, s: State, f: nat, g: nat)
    requires f <= g && n.List? && i <= |n.nodes|
    ensures Extends(EvalSeq(o, n.nodes[i..], p, s, f), EvalSeq(o, n.nodes[i..], p, s, g))
    decreases f, 3, n, 4, |n.nodes| - i
  {
    hide Eval;
    if i < |n.nodes| {
      assert n.nodes[i..][1..] == n.nodes[i + 1..];
      EvalFuel(o, n.nodes[i], p, s, f, g);
      var r := Eval(o, n.nodes[i], p, s, f);
      if r.Res? && r.out == Normal { SeqFuel(o, n, i + 1, p, r.s, f, g); }
    }
  }

  lemma {:induction false} IfFuel(o: Oracle, n: Node, i: nat, p: Place, s: State, f: nat, g: nat)
    requires f <= g && n.If? && i <= |n.conds|
    ensures Extends(EvalIf(o, n, i, p, s, f), EvalIf(o, n, i, p, s, g))
    decreases f, 3, n, 4, |n.conds| - i
  {
    hide Eval;
    if i == |n.conds| {
      if n.elseBody.Some? { EvalFuel(o, n.elseBody.value, p, s, f, g); }
    } else {
      EvalFuel(o, n.conds[i], p, s, f, g);
      var r := Eval(o, n.conds[i], p, s, f);
      if r.Res? && r.out == Normal {
        if r.s.status != 0 { IfFuel(o, n, i + 1, p, r.s, f, g); }
        else if i < |n.bodies| { EvalFuel(o, n.bodies[i], p, r.s, f, g); }
      }
    }
  }

  predicate PassExtends(a: Pass, b: Pass) { (a.Done? && a.r.NoFuel?) || a == b }

  lemma {:induction false} WhilePassFuel(o: Oracle, n: Node, p: Place, s: State, last: int, f: nat, g: nat)
    requires f <= g && n.While?
    ensures PassExtends(WhilePass(o, n, p, s, last, f), WhilePass(o, n, p, s, last, g))
    decreases f, 3, n, 3
  {
    hide Eval;
    var s0, q := s.(tick := s.tick + 1), p.(loops := p.loops + 1);
    EvalFuel(o, n.cond, q, s0, f, g);
    var c := Eval(o, n.cond, q, s0, f);
    if c.Res? && c.out == Normal { EvalFuel(o, n.body, q, c.s, f, g); }
  }

  lemma {:induction false} WhileFuel(o: Oracle, n: Node, p: Place, s: State, last: int, f: nat, g: nat)
    requires f <= g && n.While?
    ensures Extends(EvalWhile(o, n, p, s, last, f), EvalWhile(o, n, p, s, last, g))
    decreases f, 3, n, 4
  {
    hide WhilePass;
    WhilePassFuel(o, n, p, s, last, f, g);
    var pass := WhilePass(o, n, p, s, last, f);
    if pass.Again? && f > 0 { WhileFuel(o, n, p, pass.s, pass.last, f - 1, g - 1); }
  }

  lemma {:induction false} ForFuel(o: Oracle, n: Node, i: nat, p: Place, s: State, status0: int, last: int, f: nat,
                                   g: nat)
    requires f <= g && n.For? && i <= |n.words|
    ensures Extends(EvalFor(o, n, i, p, s, status0, last, f), EvalFor(o, n, i, p, s, status0, last, g))
    decreases f, 3, n, 4, |n.words| - i
  {
    hide Eval;
    if i < |n.words| {
      var v := o.expand(n.words[i], status0, p.args, s.env);
      if v.Some? {
        EvalFuel(o, n.body, p.(loops := p.loops + 1),
                 s.(tick := s.tick + 2, env := s.env[n.name := v.value]), f, g);
      }
      var pass := ForPass(o, n, i, p, s, status0, f);
      if pass.Again? { ForFuel(o, n, i + 1, p, pass.s, status0, pass.last, f, g); }
    }
  }

  // ---- Lists ---------------------------------------------------------------------

  /** A list runs its first part, and its second part if the first ended normally. */
  lemma {:induction false} SeqSplits(o: Oracle, xs: seq<Node>, ys: seq<Node>, p: Place, s: State, fuel: nat)
    ensures var r := EvalSeq(o, xs, p, s, fuel);
            EvalSeq(o, xs + ys, p, s, fuel) ==
            if r.Res? && r.out == Normal then EvalSeq(o, ys, p, r.s, fuel) else r
    decreases |xs|
  {
    hide Eval;
    if xs == [] {
      assert xs + ys == ys;
    } else {
      assert (xs + ys)[1..] == xs[1..] + ys;
      var r := Eval(o, xs[0], p, s, fuel);
      if r.Res? && r.out == Normal { SeqSplits(o, xs[1..], ys, p, r.s, fuel); }
    }
  }

  /** Evaluating a collapsed list is evaluating its items in turn. */
  lemma {:induction false} CollapsedSeq(o: Oracle, nodes: seq<Node>, p: Place, s: State, fuel: nat)
    ensures EvalSeq(o, nodes, p, s, fuel) ==
            if Collapse(nodes).None? then Res(Normal, s) else Eval(o, Collapse(nodes).value, p, s, fuel)
  {
    hide EvalPipeline, EvalChain, EvalIf, EvalWhile, EvalFor;
    if |nodes| == 1 {
      var r := Eval(o, nodes[0], p, s, fuel);
      assert EvalSeq(o, nodes[1..], p, if r.Res? then r.s else s, fuel) == Res(Normal, if r.Res? then r.s else s);
    }
  }
}
