/** Only `while` can run for ever: calls stop at a fixed depth, and every other
    construct walks down the tree or along its words. */
module EvalEnds {
  import opened Ast
  import opened EvalSpec

  predicate NoWhile(n: Node) {
    match n
    case Pipeline(_, _, _) => true
    case AndOr(items) => forall i | 0 <= i < |items| :: NoWhile(items[i].node)
    case List(nodes) => forall i | 0 <= i < |nodes| :: NoWhile(nodes[i])
    case If(conds, bodies, other) =>
      && (forall i | 0 <= i < |conds| :: NoWhile(conds[i]))
      && (forall i | 0 <= i < |bodies| :: NoWhile(bodies[i]))
      && (other.Some? ==> NoWhile(other.value))
    case While(_, _) => false
    case For(_, _, body) => NoWhile(body)
    case FuncDef(_, body) => NoWhile(body)
  }

  predicate NoWhileFuncs(s: State) { forall f | f in s.funcs :: NoWhile(s.funcs[f]) }

  /** Enough for every call the depth limit still allows. */
  predicate Fuelled(p: Place, fuel: nat) { fuel + p.depth >= DEPTH_MAX }

  /** Not cut off, and no function with a `while` has been defined. */
  predicate Ended(r: Res) { r.Res? && NoWhileFuncs(r.s) }

  predicate PassEnded(pass: Pass) {
    match pass
    case Again(s, _) => NoWhileFuncs(s)
    case Done(r) => Ended(r)
  }

  lemma BuiltinEnds(o: Oracle, argv: seq<string>, p: Place, s: State)
    requires argv != [] && NoWhileFuncs(s)
    ensures Ended(RunBuiltin(o, argv, p, s))
  {
    hide Strtol, NoWhile;
  }

  lemma {:induction false} SimpleEnds(o: Oracle, c: Command, p: Place, s: State, fuel: nat)
    requires NoWhileFuncs(s) && Fuelled(p, fuel)
    ensures Ended(RunSimple(o, c, p, s, fuel))
    decreases fuel, 1
  {
    hide NoWhile, Eval, Expanded, RunBuiltin, IsBuiltin;
    var e := Expanded(o, c.words, p, s);
    if e.Some? && e.value != [] && e.value[0] != "" {
      var argv := e.value;
      var s1 := Redirected(o, c, s).0;
      if IsBuiltin(argv[0]) {
        BuiltinEnds(o, argv, p, s1);
      } else if argv[0] in s.funcs && p.depth < DEPTH_MAX {
        EvalEnds(o, s.funcs[argv[0]], Place(p.loops, p.depth + 1, CallArgs(p.args, argv)), s1, fuel - 1);
      }
    }
  }

  /** Without `while`, in the tree and in the functions defined so far, every run
      ends, whatever the oracle answers. */
  lemma {:induction false} EvalEnds(o: Oracle, n: Node, p: Place, s: State, fuel: nat)
    requires NoWhile(n) && NoWhileFuncs(s) && Fuelled(p, fuel)
    ensures Ended(Eval(o, n, p, s, fuel))
    decreases fuel, 3, n, 5
  {
    hide EvalChain, EvalSeq, EvalIf, EvalWhile, EvalFor, RunSimple;
    match n
    case Pipeline(cmds, bg, _) =>
      if |cmds| == 1 && !bg { SimpleEnds(o, cmds[0], p, s, fuel); }
    case AndOr(items) => ChainEnds(o, n, 0, p, s, fuel); assert items[0..] == items;
    case List(nodes) => SeqEnds(o, n, 0, p, s, fuel); assert nodes[0..] == nodes;
    case If(_, _, _) => IfEnds(o, n, 0, p, s, fuel);
    case For(_, _, _) => ForEnds(o, n, 0, p, s, s.status, 0, fuel);
    case FuncDef(_, _) =>
  }

  lemma {:induction false} ChainEnds(o: Oracle, n: Node, i: nat, p: Place, s: State, fuel: nat)
    requires n.AndOr? && NoWhile(n) && i <= |n.items| && NoWhileFuncs(s) && Fuelled(p, fuel)
    ensures Ended(EvalChain(o, n.items[i..], p, s, fuel))
    decreases fuel, 3, n, 4, |n.items| - i
  {
    hide Eval, NoWhileFuncs;
    if i < |n.items| {
      assert n.items[i..][1..] == n.items[i + 1..];
      var it := n.items[i];
      if (it.op == And && s.status != 0) || (it.op == Or && s.status == 0) {
        ChainEnds(o, n, i + 1, p, s, fuel);
      } else {
        EvalEnds(o, it.node, p, s, fuel);
        var r := Eval(o, it.node, p, s, fuel);
        if r.out == Normal { ChainEnds(o, n, i + 1, p, r.s, fuel); }
      }
    }
  }

  lemma {:induction false} SeqEnds(o: Oracle, n: Node, i: nat, p: Place, s: State, fuel: nat)
    requires n.List? && NoWhile(n) && i <= |n.nodes| && NoWhileFuncs(s) && Fuelled(p, fuel)
    ensures Ended(EvalSeq(o, n.nodes[i..], p, s, fuel))
    decreases fuel, 3, n, 4, |n.nodes| - i
  {
    hide Eval, NoWhileFuncs;
    if i < |n.nodes| {
      assert n.nodes[i..][1..] == n.nodes[i + 1..];
      EvalEnds(o, n.nodes[i], p, s, fuel);
      var r := Eval(o, n.nodes[i], p, s, fuel);
      if r.out == Normal { SeqEnds(o, n, i + 1, p, r.s, fuel); }
    }
  }

  lemma {:induction false} IfEnds(o: Oracle, n: Node, i: nat, p: Place, s: State, fuel: nat)
    requires n.If? && NoWhile(n) && i <= |n.conds| && NoWhileFuncs(s) && Fuelled(p, fuel)
    ensures Ended(EvalIf(o, n, i, p, s, fuel))
    decreases fuel, 3, n, 4, |n.conds| - i
  {
    hide Eval, NoWhileFuncs;
    if i == |n.conds| {
      if n.elseBody.Some? {
        EvalEnds(o, n.elseBody.value, p, s, fuel);
      } else {
        SameFuncs(s, s.(status := 0));
      }
    } else {
      EvalEnds(o, n.conds[i], p, s, fuel);
      var r := Eval(o, n.conds[i], p, s, fuel);
      if r.out == Normal {
        if r.s.status != 0 {
          IfEnds(o, n, i + 1, p, r.s, fuel);
        } else if i < |n.bodies| {
          EvalEnds(o, n.bodies[i], p, r.s, fuel);
        }
      }
    }
  }

  lemma SameFuncs(s: State, s': State)
    requires NoWhileFuncs(s) && s'.funcs == s.funcs
    ensures NoWhileFuncs(s')
  {
  }

  lemma AfterBodyEnds(r: Res)
    requires Ended(r)
    ensures PassEnded(AfterBody(r))
  {
    hide NoWhile;
  }

  lemma {:induction false} ForPassEnds(o: Oracle, n: Node, i: nat, p: Place, s: State, status0: int, fuel: nat)
    requires n.For? && NoWhile(n) && i < |n.words| && NoWhileFuncs(s) && Fuelled(p, fuel)
    ensures PassEnded(ForPass(o, n, i, p, s, status0, fuel))
    decreases fuel, 3, n, 3
  {
    hide Eval, NoWhileFuncs, AfterBody;
    var s0 := s.(tick := s.tick + 1);
    SameFuncs(s, s0.(status := INTERRUPTED));
    SameFuncs(s, s0.(status := 1));
    SameFuncs(s, s.(tick := s.tick + 2, status := 1));
    var v := o.expand(n.words[i], status0, p.args, s.env);
    if v.Some? {
      var q, s1 := p.(loops := p.loops + 1), s.(tick := s.tick + 2, env := s.env[n.name := v.value]);
      SameFuncs(s, s1);
      EvalEnds(o, n.body, q, s1, fuel);
      AfterBodyEnds(Eval(o, n.body, q, s1, fuel));
    }
  }

  lemma {:induction false} ForEnds(o: Oracle, n: Node, i: nat, p: Place, s: State, status0: int, last: int, fuel: nat)
    requires n.For? && NoWhile(n) && i <= |n.words| && NoWhileFuncs(s) && Fuelled(p, fuel)
    ensures Ended(EvalFor(o, n, i, p, s, status0, last, fuel))
    decreases fuel, 3, n, 4, |n.words| - i
  {
    hide Eval, ForPass, NoWhileFuncs, NoWhile;
    if i < |n.words| {
      ForPassEnds(o, n, i, p, s, status0, fuel);
      var pass := ForPass(o, n, i, p, s, status0, fuel);
      if pass.Again? { ForEnds(o, n, i + 1, p, pass.s, status0, pass.last, fuel); }
    } else {
      SameFuncs(s, s.(status := last));
    }
  }
}
