/** What a program means, without flags: a structured big-step semantics whose
    results say how control left the node. */
module EvalSpec {
  import opened Options
  import opened Tokens
  import opened Ast

  type Env = map<string, string>

  /** Everything outside the evaluator: word expansion, the statuses of forked
      pipelines and of the other builtins, redirect and setenv failures, and the
      arrival of SIGINT. `tick` counts the questions asked so far. */
  datatype Oracle = Oracle(
    expand: (Token, int, seq<string>, Env) -> Option<string>,
    forked: (nat, seq<Command>, bool, Env) -> int,
    other: (nat, seq<string>, int, Env) -> (int, Env),
    redirect: (nat, Command) -> int,
    setenv: (nat, string, string) -> bool,
    sigint: nat -> bool)

  /** What evaluation changes: the last status, the environment, the functions. */
  datatype State = State(status: int, tick: nat, env: Env, funcs: map<string, Node>)

  /** Where evaluation stands: loop depth, function depth, positional parameters. */
  datatype Place = Place(loops: nat, depth: nat, args: seq<string>)

  datatype Outcome = Normal | Break | Continue | Return(value: int) | Exit(code: int) | Invalid

  /** NoFuel stands for a run that is cut off. */
  datatype Res = Res(out: Outcome, s: State) | NoFuel

  const INTERRUPTED := 130
  const DEPTH_MAX: nat := 64
  const NOT_FOUND := 127
  const BAD_SUBST := 2
  const BAD_ARG := 2
  const STATUS_MAX := 255

  // ---- Status arguments -------------------------------------------------------

  predicate IsSpace(c: char) {
    c == ' ' || c == '\t' || c == '\n' || c == '\r' || c as int == 11 || c as int == 12
  }

  function SkipSpaces(s: string): string {
    if s != "" && IsSpace(s[0]) then SkipSpaces(s[1..]) else s
  }

  predicate Digits(s: string) { forall i | 0 <= i < |s| :: '0' <= s[i] <= '9' }

  function Number(s: string): nat
    requires Digits(s)
  {
    if s == "" then 0 else 10 * Number(s[..|s| - 1]) + (s[|s| - 1] as int - '0' as int)
  }

  const LONG_MAX := 0x7fff_ffff_ffff_ffff

  /** `strtol` in base 10 with nothing left over; out of range clamps. */
  function Strtol(s: string): Option<int> {
    var t := SkipSpaces(s);
    var neg := t != "" && t[0] == '-';
    var d := if t != "" && (t[0] == '-' || t[0] == '+') then t[1..] else t;
    if d == "" || !Digits(d) then None
    else
      var v: int := Number(d);
      Some(if neg then (if v > LONG_MAX + 1 then -LONG_MAX - 1 else -v) else if v > LONG_MAX then LONG_MAX else v)
  }

  // ---- Builtins -----------------------------------------------------------------

  predicate IsBuiltin(name: string) {
    name in {"bg", "break", "cd", "continue", "emu", "exit", "export", "fg", "heap",
             "help", "history", "inspect", "jobs", "netmon", "return", "unset"}
  }

  /** The status a flow builtin gives, and how control leaves it. */
  function FlowBuiltin(argv: seq<string>, p: Place, status: int): (int, Outcome)
    requires argv != []
  {
    var name := argv[0];
    if name == "break" || name == "continue" then
      if |argv| > 1 then (BAD_ARG, Normal)
      else if p.loops == 0 then (1, Normal)
      else (0, if name == "break" then Break else Continue)
    else if name == "return" then
      if p.depth == 0 then (1, Normal)
      else if |argv| > 2 then (BAD_ARG, Normal)
      else if |argv| == 1 then (status, Return(status))
      else match Strtol(argv[1])
           case None => (BAD_ARG, Normal)
           case Some(v) => if 0 <= v <= STATUS_MAX then (v, Return(v)) else (BAD_ARG, Normal)
    else
      if |argv| > 2 then (1, Normal)
      else if |argv| == 1 then (status, Exit(status))
      else match Strtol(argv[1])
           case None => (BAD_ARG, Exit(BAD_ARG))
           case Some(v) => (v % 256, Exit(v % 256))
  }

  predicate IsFlow(name: string) { name in {"break", "continue", "return", "exit"} }

  function RunBuiltin(o: Oracle, argv: seq<string>, p: Place, s: State): Res
    requires argv != []
  {
    if IsFlow(argv[0]) then
      var (st, out) := FlowBuiltin(argv, p, s.status);
      Res(out, s.(status := st))
    else
      var (st, env) := o.other(s.tick, argv, s.status, s.env);
      Res(Normal, s.(status := st, tick := s.tick + 1, env := env))
  }

  // ---- Commands --------------------------------------------------------------------

  function Expanded(o: Oracle, words: seq<Token>, p: Place, s: State): Option<seq<string>> {
    if words == [] then Some([])
    else match o.expand(words[0], s.status, p.args, s.env)
         case None => None
         case Some(t) =>
           match Expanded(o, words[1..], p, s)
           case None => None
           case Some(ts) => Some([t] + ts)
  }

  predicate HasRedirect(c: Command) { c.redirIn.Some? || c.redirOut.Some? || c.redirErr.Some? }

  /** $0 never changes across a call. */
  function CallArgs(args: seq<string>, argv: seq<string>): seq<string>
    requires argv != []
  {
    [if args != [] then args[0] else argv[0]] + argv[1..]
  }

  /** How a call ends: a return gives the status, a stray break or continue is
      dropped, an exit goes on. */
  function AfterCall(r: Res): Res {
    match r
    case NoFuel => NoFuel
    case Res(out, s) =>
      match out
      case Return(v) => Res(Normal, s.(status := v))
      case Exit(_) => r
      case _ => Res(Normal, s)
  }

  function Call(o: Oracle, body: Node, argv: seq<string>, p: Place, s: State, fuel: nat): Res
    requires argv != []
    decreases fuel, 0
  {
    if p.depth >= DEPTH_MAX then Res(Normal, s.(status := 1))
    else if fuel == 0 then NoFuel
    else AfterCall(Eval(o, body, Place(p.loops, p.depth + 1, CallArgs(p.args, argv)), s, fuel - 1))
  }

  function Forked(o: Oracle, cmds: seq<Command>, background: bool, s: State): Res {
    Res(Normal, s.(status := o.forked(s.tick, cmds, background, s.env), tick := s.tick + 1))
  }

  /** The state in which a command's own redirects have been applied, or the
      status that says why not. */
  function Redirected(o: Oracle, c: Command, s: State): (State, int) {
    if HasRedirect(c) then (s.(tick := s.tick + 1), o.redirect(s.tick, c)) else (s, 0)
  }

  function RunSimple(o: Oracle, c: Command, p: Place, s: State, fuel: nat): Res
    decreases fuel, 1
  {
    match Expanded(o, c.words, p, s)
    case None => Res(Normal, s.(status := BAD_SUBST))
    case Some(argv) =>
      if argv == [] then Res(Normal, s)
      else if argv[0] == "" then Res(Normal, s.(status := NOT_FOUND))
      else if !IsBuiltin(argv[0]) && argv[0] !in s.funcs then Forked(o, [c], false, s)
      else
        var (s1, bad) := Redirected(o, c, s);
        if bad != 0 then Res(Normal, s1.(status := bad))
        else if IsBuiltin(argv[0]) then RunBuiltin(o, argv, p, s1)
        else Call(o, s.funcs[argv[0]], argv, p, s1, fuel)
  }

  function Negated(negate: bool, r: Res): Res {
    if r.Res? && negate then r.(s := r.s.(status := if r.s.status == 0 then 1 else 0)) else r
  }

  function EvalPipeline(o: Oracle, n: Node, p: Place, s: State, fuel: nat): Res
    requires n.Pipeline?
    decreases fuel, 2
  {
    Negated(n.negate,
            if n.cmds == [] then Res(Normal, s)
            else if |n.cmds| == 1 && !n.background then RunSimple(o, n.cmds[0], p, s, fuel)
            else Forked(o, n.cmds, n.background, s))
  }

  // ---- Nodes ------------------------------------------------------------------------

  function Eval(o: Oracle, n: Node, p: Place, s: State, fuel: nat): Res
    decreases fuel, 3, n, 5
  {
    match n
    case Pipeline(_, _, _) => EvalPipeline(o, n, p, s, fuel)
    case AndOr(items) => EvalChain(o, items, p, s, fuel)
    case List(nodes) => EvalSeq(o, nodes, p, s, fuel)
    case If(_, _, _) => EvalIf(o, n, 0, p, s, fuel)
    case While(cond, body) => EvalWhile(o, n, p, s, 0, fuel)
    case For(_, words, _) => EvalFor(o, n, 0, p, s, s.status, 0, fuel)
    case FuncDef(name, body) => Res(Normal, s.(funcs := s.funcs[name := body], status := 0))
  }

  function EvalChain(o: Oracle, items: seq<AndOrItem>, p: Place, s: State, fuel: nat): Res
    decreases fuel, 3, items, 0
  {
    if items == [] then Res(Normal, s)
    else if (items[0].op == And && s.status != 0) || (items[0].op == Or && s.status == 0) then
      EvalChain(o, items[1..], p, s, fuel)
    else
      var r := EvalItem(o, items[0], p, s, fuel);
      if r.Res? && r.out == Normal then EvalChain(o, items[1..], p, r.s, fuel) else r
  }

  function EvalItem(o: Oracle, it: AndOrItem, p: Place, s: State, fuel: nat): Res
    decreases fuel, 3, it, 0
  {
    Eval(o, it.node, p, s, fuel)
  }

  function EvalSeq(o: Oracle, nodes: seq<Node>, p: Place, s: State, fuel: nat): Res
    decreases fuel, 3, nodes, 0
  {
    if nodes == [] then Res(Normal, s)
    else
      var r := Eval(o, nodes[0], p, s, fuel);
      if r.Res? && r.out == Normal then EvalSeq(o, nodes[1..], p, r.s, fuel) else r
  }

  /** The first condition from the `i`th on that succeeds picks its body; a
      missing body is an error. */
  function EvalIf(o: Oracle, n: Node, i: nat, p: Place, s: State, fuel: nat): Res
    requires n.If? && i <= |n.conds|
    decreases fuel, 3, n, 1, |n.conds| - i
  {
    if i == |n.conds| then
      if n.elseBody.Some? then Eval(o, n.elseBody.value, p, s, fuel) else Res(Normal, s.(status := 0))
    else
      var r := Eval(o, n.conds[i], p, s, fuel);
      if !(r.Res? && r.out == Normal) then r
      else if r.s.status != 0 then EvalIf(o, n, i + 1, p, r.s, fuel)
      else if i < |n.bodies| then Eval(o, n.bodies[i], p, r.s, fuel)
      else Res(Invalid, r.s)
  }

  /** One pass of a loop: it goes on, or ends the loop with a result. */
  datatype Pass = Again(s: State, last: int) | Done(r: Res)

  /** What a loop makes of its body's result. */
  function AfterBody(r: Res): Pass {
    match r
    case NoFuel => Done(r)
    case Res(out, s) =>
      match out
      case Normal => if s.status == INTERRUPTED then Done(r) else Again(s, s.status)
      case Continue => Again(s, s.status)
      case Break => Done(Res(Normal, s.(status := 0)))
      case _ => Done(r)
  }

  function WhilePass(o: Oracle, n: Node, p: Place, s: State, last: int, fuel: nat): Pass
    requires n.While?
    decreases fuel, 3, n, 0
  {
    var s0 := s.(tick := s.tick + 1);
    if o.sigint(s.tick) then Done(Res(Normal, s0.(status := INTERRUPTED)))
    else
      var q := p.(loops := p.loops + 1);
      var c := Eval(o, n.cond, q, s0, fuel);
      if c.NoFuel? then Done(c)
      else if c.out == Continue then Again(c.s, last)
      else if c.out == Break then Done(Res(Normal, c.s.(status := 0)))
      else if c.out != Normal || c.s.status == INTERRUPTED then Done(c)
      else if c.s.status != 0 then Done(Res(Normal, c.s.(status := last)))
      else AfterBody(Eval(o, n.body, q, c.s, fuel))
  }

  function EvalWhile(o: Oracle, n: Node, p: Place, s: State, last: int, fuel: nat): Res
    requires n.While?
    decreases fuel, 3, n, 1
  {
    match WhilePass(o, n, p, s, last, fuel)
    case Done(r) => r
    case Again(s', last') => if fuel == 0 then NoFuel else EvalWhile(o, n, p, s', last', fuel - 1)
  }

  /** One word of a for loop. The words expand against the status and arguments
      the loop started with. */
  function ForPass(o: Oracle, n: Node, i: nat, p: Place, s: State, status0: int, fuel: nat): Pass
    requires n.For? && i < |n.words|
    decreases fuel, 3, n, 0
  {
    var s0 := s.(tick := s.tick + 1);
    if o.sigint(s.tick) then Done(Res(Normal, s0.(status := INTERRUPTED)))
    else match o.expand(n.words[i], status0, p.args, s0.env)
         case None => Done(Res(Normal, s0.(status := 1)))
         case Some(value) =>
           var s1 := s0.(tick := s0.tick + 1);
           if !o.setenv(s0.tick, n.name, value) then Done(Res(Normal, s1.(status := 1)))
           else AfterBody(Eval(o, n.body, p.(loops := p.loops + 1), s1.(env := s1.env[n.name := value]), fuel))
  }

  function EvalFor(o: Oracle, n: Node, i: nat, p: Place, s: State, status0: int, last: int, fuel: nat): Res
    requires n.For? && i <= |n.words|
    decreases fuel, 3, n, 1, |n.words| - i
  {
    if i == |n.words| then Res(Normal, s.(status := last))
    else match ForPass(o, n, i, p, s, status0, fuel)
         case Done(r) => r
         case Again(s', last') => EvalFor(o, n, i + 1, p, s', status0, last', fuel)
  }
}
