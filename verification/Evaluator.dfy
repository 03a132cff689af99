/** The evaluator as it runs: `break`, `continue`, `return` and `exit` travel as
    flags on the shell, while the calls themselves only return an error code. */
module Evaluator {
  import opened Options
  import opened Tokens
  import opened Ast
  import opened EvalSpec
  import opened FuncTable

  datatype Flow = FlowNone | FlowBreak | FlowContinue | FlowReturn

  /** `Cut` is a run that is cut off. */
  datatype Err = Fine | Bad | Cut

  datatype LoopAction = LoopRun | LoopNext | LoopBroke | LoopDone

  class Shell {
    const oracle: Oracle
    const table: Table
    var lastStatus: int
    var wantExit: bool
    var exitCode: int
    var flow: Flow
    var flowStatus: int
    var loopDepth: int
    var funcDepth: int
    var argv: seq<string>
    var env: Env
    var tick: nat
    /** The SIGINT handler is installed. */
    var watching: bool

    constructor (o: Oracle, args: seq<string>, e: Env)
      ensures Valid() && Clean() && oracle == o && Here() == Place(0, 0, args)
      ensures Now() == State(0, 0, e, map[]) && fresh(table)
    {
      oracle := o;
      table := new Table();
      lastStatus, exitCode, flowStatus := 0, 0, 0;
      wantExit, flow, watching := false, FlowNone, false;
      loopDepth, funcDepth, tick := 0, 0, 0;
      argv, env := args, e;
    }

    ghost predicate Valid()
      reads this, table
    {
      && table.Valid()
      && loopDepth >= 0 && 0 <= funcDepth <= DEPTH_MAX
      && (watching <==> loopDepth > 0)
    }

    ghost function Now(): State
      reads this, table
    {
      State(lastStatus, tick, env, table.defs)
    }

    ghost function Here(): Place
      requires loopDepth >= 0 && funcDepth >= 0
      reads this
    {
      Place(loopDepth, funcDepth, argv)
    }

    /** No flag is pending. */
    ghost predicate Clean()
      reads this
    {
      flow == FlowNone && !wantExit
    }

    /** The flags say exactly how control left the node. */
    ghost predicate Shows(out: Outcome)
      reads this
    {
      && flow == (match out
                  case Break => FlowBreak
                  case Continue => FlowContinue
                  case Return(_) => FlowReturn
                  case _ => FlowNone)
      && (out.Return? ==> flowStatus == out.value)
      && wantExit == out.Exit?
      && (out.Exit? ==> exitCode == out.code)
    }

    ghost predicate Agrees(r: Res, err: Err)
      reads this, table
    {
      match r
      case NoFuel => err == Cut
      case Res(out, s) => err == (if out == Invalid then Bad else Fine) && Now() == s && Shows(out)
    }

    // ---- Builtins -------------------------------------------------------------

    method BiFlow(args: seq<string>, f: Flow) returns (status: int)
      requires Clean() && Valid() && args != []
      requires (f == FlowBreak && args[0] == "break") || (f == FlowContinue && args[0] == "continue")
      modifies `flow
      ensures status == FlowBuiltin(args, Here(), lastStatus).0
      ensures Shows(FlowBuiltin(args, Here(), lastStatus).1)
    {
      if |args| > 1 {
        return BAD_ARG;
      }
      if loopDepth <= 0 {
        return 1;
      }
      flow := f;
      status := 0;
    }

    method BiReturn(args: seq<string>) returns (status: int)
      requires Clean() && Valid() && args != [] && args[0] == "return"
      modifies `flow, `flowStatus
      ensures status == FlowBuiltin(args, Here(), lastStatus).0
      ensures Shows(FlowBuiltin(args, Here(), lastStatus).1)
    {
      hide Strtol;
      if funcDepth <= 0 {
        return 1;
      }
      if |args| > 2 {
        return BAD_ARG;
      }
      status := lastStatus;
      if |args| == 2 {
        var v := Strtol(args[1]);
        if v.None? || v.value < 0 || v.value > STATUS_MAX {
          return BAD_ARG;
        }
        status := v.value;
      }
      flow := FlowReturn;
      flowStatus := status;
    }

    method BiExit(args: seq<string>) returns (status: int)
      requires Clean() && Valid() && args != [] && args[0] == "exit"
      modifies `wantExit, `exitCode
      ensures status == FlowBuiltin(args, Here(), lastStatus).0
      ensures Shows(FlowBuiltin(args, Here(), lastStatus).1)
    {
      hide Strtol;
      if |args| > 2 {
        return 1;
      }
      if |args| == 2 {
        var v := Strtol(args[1]);
        if v.None? {
          exitCode := BAD_ARG;
          wantExit := true;
          return BAD_ARG;
        }
        exitCode := v.value % 256;
      } else {
        exitCode := lastStatus;
      }
      wantExit := true;
      status := exitCode;
    }

    /** Runs a builtin and returns its status; the caller stores it. */
    method Builtin(args: seq<string>) returns (status: int)
      requires Clean() && Valid() && args != []
      modifies `flow, `flowStatus, `wantExit, `exitCode, `tick, `env
      ensures var r := RunBuiltin(oracle, args, Here(), old(Now()));
              r.Res? && r.s == Now().(status := status) && r.out != Invalid && Shows(r.out)
    {
      hide FlowBuiltin;
      if args[0] == "break" {
        status := BiFlow(args, FlowBreak);
        BreakOutcome(args, Here(), lastStatus);
      } else if args[0] == "continue" {
        status := BiFlow(args, FlowContinue);
        BreakOutcome(args, Here(), lastStatus);
      } else if args[0] == "return" {
        status := BiReturn(args);
        BreakOutcome(args, Here(), lastStatus);
      } else if args[0] == "exit" {
        status := BiExit(args);
        BreakOutcome(args, Here(), lastStatus);
      } else {
        var (st, e) := oracle.other(tick, args, lastStatus, env);
        tick := tick + 1;
        env := e;
        status := st;
      }
    }

    // ---- Commands ---------------------------------------------------------------

    method BuildArgv(words: seq<Token>) returns (args: Option<seq<string>>)
      requires Valid()
      ensures args == Expanded(oracle, words, Here(), Now())
    {
      hide Expanded;
      var out: seq<string> := [];
      var i := 0;
      OntoStart(Expanded(oracle, words, Here(), Now()));
      assert words[0..] == words;
      while i < |words|
        invariant i <= |words|
        invariant Expanded(oracle, words, Here(), Now())
                  == Onto(out, Expanded(oracle, words[i..], Here(), Now()))
      {
        ExpandedUnfold(oracle, words, i, Here(), Now());
        var t := oracle.expand(words[i], lastStatus, argv, env);
        if t.None? {
          return None;
        }
        OntoStep(out, t.value, Expanded(oracle, words[i + 1..], Here(), Now()));
        out := out + [t.value];
        i := i + 1;
      }
      ExpandedUnfold(oracle, words, i, Here(), Now());
      args := Some(out);
    }

    /** Applies a command's redirects; a status other than 0 says it must not run. */
    method ApplyRedirects(c: Command) returns (bad: int)
      requires Valid()
      modifies `tick
      ensures (Now(), bad) == Redirected(oracle, c, old(Now()))
    {
      if !HasRedirect(c) {
        return 0;
      }
      bad := oracle.redirect(tick, c);
      tick := tick + 1;
    }

    /** No break or continue outlives the call it was raised in; a pending return stays. */
    method DrainStrayFlow()
      modifies `flow
      ensures flow == if old(flow) == FlowBreak || old(flow) == FlowContinue then FlowNone else old(flow)
    {
      if flow != FlowBreak && flow != FlowContinue {
        return;
      }
      flow := FlowNone;
    }

    /** Runs the body at address `a` with the call's own positional parameters. */
    method CallFunction(a: nat, args: seq<string>, fuel: nat) returns (status: int, err: Err)
      requires Valid() && Clean() && args != [] && a in table.trees
      modifies this, table
      ensures Valid() && Here() == old(Here()) && Extends(old(table.trees), table.trees)
      ensures match Call(oracle, old(table.trees[a]), args, old(Here()), old(Now()), fuel)
              case NoFuel => err == Cut
              case Res(out, s) => err == Fine && s == Now().(status := status) && Shows(out) && out != Invalid
      decreases fuel, 0
    {
      hide Eval, AfterCall, CallArgs, Table.Valid;
      if funcDepth >= DEPTH_MAX {
        return 1, Fine;
      }
      if fuel == 0 {
        return 0, Cut;
      }
      var saved := argv;
      argv := CallArgs(argv, args);
      funcDepth := funcDepth + 1;
      var body := table.trees[a];
      var e := EvalNode(body, fuel - 1);
      // The body the call started with is still allocated, even if redefined.
      assert a in table.trees && table.trees[a] == body;
      funcDepth := funcDepth - 1;
      argv := saved;
      CutCall();
      if e == Cut {
        return 0, Cut;
      }
      err := Fine;
      status := EndCall(Eval(oracle, body, Place(old(loopDepth), old(funcDepth) + 1, CallArgs(saved, args)),
                             old(Now()), fuel - 1), e);
    }

    /** A return gives the call its status; anything but an exit ends here. */
    method EndCall(ghost r: Res, ghost e: Err) returns (status: int)
      requires Valid() && r.Res? && Agrees(r, e)
      modifies `flow
      ensures var c := AfterCall(r);
              c.Res? && c.s == Now().(status := status) && Shows(c.out) && c.out != Invalid
    {
      status := lastStatus;
      if flow == FlowReturn {
        flow := FlowNone;
        status := flowStatus;
      } else {
        DrainStrayFlow();
      }
    }

    method RunForked(cmds: seq<Command>, background: bool) returns (status: int)
      requires Valid() && Clean()
      modifies `tick
      ensures Forked(oracle, cmds, background, old(Now())) == Res(Normal, Now().(status := status))
    {
      status := oracle.forked(tick, cmds, background, env);
      tick := tick + 1;
    }

    /** One command with no `&`: a builtin or a function runs in the shell. */
    method RunSimpleCommand(c: Command, fuel: nat) returns (status: int, err: Err)
      requires Valid() && Clean()
      modifies this, table
      ensures Valid() && Here() == old(Here()) && Extends(old(table.trees), table.trees)
      ensures match RunSimple(oracle, c, old(Here()), old(Now()), fuel)
              case NoFuel => err == Cut
              case Res(out, s) => err == Fine && s == Now().(status := status) && Shows(out) && out != Invalid
      decreases fuel, 1
    {
      hide Call, RunBuiltin, Expanded, Redirected, Forked, IsBuiltin;
      status, err := 0, Fine;
      var args := BuildArgv(c.words);
      if args.None? {
        return BAD_SUBST, Fine;
      }
      if args.value == [] {
        return lastStatus, Fine;
      }
      if args.value[0] == "" {
        return NOT_FOUND, Fine;
      }
      var name := args.value[0];
      if IsBuiltin(name) {
        var bad := ApplyRedirects(c);
        if bad != 0 {
          return bad, Fine;
        }
        status := Builtin(args.value);
        return status, Fine;
      }
      var a := table.Lookup(name);
      if a.None? {
        status := RunForked([c], false);
        return status, Fine;
      }
      var bad := ApplyRedirects(c);
      if bad != 0 {
        return bad, Fine;
      }
      status, err := CallFunction(a.value, args.value, fuel);
    }

    method EvalPipelineNode(n: Node, fuel: nat) returns (err: Err)
      requires n.Pipeline? && Valid() && Clean()
      modifies this, table
      ensures Valid() && Here() == old(Here()) && Extends(old(table.trees), table.trees)
      ensures Agrees(EvalPipeline(oracle, n, old(Here()), old(Now()), fuel), err)
      decreases fuel, 2
    {
      hide RunSimple, Forked;
      err := Fine;
      if n.cmds != [] {
        if |n.cmds| == 1 && !n.background {
          var status, e := RunSimpleCommand(n.cmds[0], fuel);
          if e == Cut {
            return Cut;
          }
          lastStatus := status;
        } else {
          lastStatus := RunForked(n.cmds, n.background);
        }
      }
      if n.negate {
        lastStatus := if lastStatus == 0 then 1 else 0;
      }
    }

    // ---- Nodes ---------------------------------------------------------------------

    predicate Halted()
      reads this
    {
      flow != FlowNone || wantExit
    }

    method EvalChainNode(n: Node, fuel: nat) returns (err: Err)
      requires n.AndOr? && Valid() && Clean()
      modifies this, table
      ensures Valid() && Here() == old(Here()) && Extends(old(table.trees), table.trees)
      ensures Agrees(EvalChain(oracle, n.items, old(Here()), old(Now()), fuel), err)
      decreases fuel, 3, n, 4
    {
      hide Eval, EvalChain;
      ghost var all := EvalChain(oracle, n.items, Here(), Now(), fuel);
      var i := 0;
      assert n.items[0..] == n.items;
      while i < |n.items|
        invariant i <= |n.items|
        invariant Valid() && Clean() && Here() == old(Here()) && Extends(old(table.trees), table.trees)
        invariant all == EvalChain(oracle, n.items[i..], Here(), Now(), fuel)
      {
        ChainUnfold(oracle, n.items, i, Here(), Now(), fuel);
        var it := n.items[i];
        i := i + 1;
        if (it.op == And && lastStatus != 0) || (it.op == Or && lastStatus == 0) {
          continue;
        }
        err := EvalNode(it.node, fuel);
        if err != Fine || Halted() {
          return;
        }
      }
      ChainEnd(oracle, n.items, Here(), Now(), fuel);
      err := Fine;
    }

    method EvalListNode(n: Node, fuel: nat) returns (err: Err)
      requires n.List? && Valid() && Clean()
      modifies this, table
      ensures Valid() && Here() == old(Here()) && Extends(old(table.trees), table.trees)
      ensures Agrees(EvalSeq(oracle, n.nodes, old(Here()), old(Now()), fuel), err)
      decreases fuel, 3, n, 4
    {
      hide Eval, EvalSeq;
      ghost var all := EvalSeq(oracle, n.nodes, Here(), Now(), fuel);
      var i := 0;
      assert n.nodes[0..] == n.nodes;
      while i < |n.nodes|
        invariant i <= |n.nodes|
        invariant Valid() && Here() == old(Here()) && Extends(old(table.trees), table.trees)
        invariant if Halted() then Agrees(all, Fine)
                  else all == EvalSeq(oracle, n.nodes[i..], Here(), Now(), fuel)
      {
        if Halted() {
          break;
        }
        SeqUnfold(oracle, n.nodes, i, Here(), Now(), fuel);
        err := EvalNode(n.nodes[i], fuel);
        if err != Fine {
          return;
        }
        i := i + 1;
      }
      SeqEnd(oracle, n.nodes, Here(), Now(), fuel);
      err := Fine;
    }

    method EvalIfNode(n: Node, fuel: nat) returns (err: Err)
      requires n.If? && Valid() && Clean()
      modifies this, table
      ensures Valid() && Here() == old(Here()) && Extends(old(table.trees), table.trees)
      ensures Agrees(EvalIf(oracle, n, 0, old(Here()), old(Now()), fuel), err)
      decreases fuel, 3, n, 4
    {
      hide Eval, EvalIf;
      ghost var all := EvalIf(oracle, n, 0, Here(), Now(), fuel);
      var i := 0;
      while i < |n.conds|
        invariant i <= |n.conds|
        invariant Valid() && Clean() && Here() == old(Here()) && Extends(old(table.trees), table.trees)
        invariant all == EvalIf(oracle, n, i, Here(), Now(), fuel)
      {
        IfUnfold(oracle, n, i, Here(), Now(), fuel);
        err := EvalNode(n.conds[i], fuel);
        if err != Fine || Halted() {
          return;
        }
        if lastStatus == 0 {
          if i >= |n.bodies| {
            return Bad;
          }
          err := EvalNode(n.bodies[i], fuel);
          return;
        }
        i := i + 1;
      }
      IfUnfold(oracle, n, i, Here(), Now(), fuel);
      if n.elseBody.Some? {
        err := EvalNode(n.elseBody.value, fuel);
        return;
      }
      lastStatus := 0;
      err := Fine;
    }

    /** One loop deeper; the SIGINT watch is on afterwards, whether or not it was before. */
    method LoopEnter()
      requires Valid()
      modifies `loopDepth, `watching
      ensures Valid() && Here() == old(Here()).(loops := old(loopDepth) + 1)
    {
      loopDepth := loopDepth + 1;
      if loopDepth == 1 {
        watching := true;
      }
    }

    method LoopLeave()
      requires Valid() && loopDepth > 0
      modifies `loopDepth, `watching
      ensures Valid() && Here() == old(Here()).(loops := old(loopDepth) - 1)
    {
      loopDepth := loopDepth - 1;
      if loopDepth == 0 {
        watching := false;
      }
    }

    /** What the loop does next, and which pending flag it uses up in deciding so. */
    method LoopFlow() returns (act: LoopAction)
      modifies `flow, `lastStatus
      ensures act == if wantExit then LoopDone
                     else match old(flow)
                          case FlowBreak => LoopBroke
                          case FlowContinue => LoopNext
                          case FlowReturn => LoopDone
                          case FlowNone => LoopRun
      ensures flow == if act == LoopBroke || act == LoopNext then FlowNone else old(flow)
      ensures lastStatus == if act == LoopBroke then 0 else old(lastStatus)
    {
      if wantExit {
        return LoopDone;
      }
      if flow == FlowBreak {
        flow := FlowNone;
        lastStatus := 0;
        return LoopBroke;
      }
      if flow == FlowContinue {
        flow := FlowNone;
        return LoopNext;
      }
      act := if flow != FlowNone then LoopDone else LoopRun;
    }

    method TakeInt() returns (fired: bool)
      requires Valid()
      modifies `tick
      ensures fired == oracle.sigint(old(tick)) && tick == old(tick) + 1
    {
      fired := oracle.sigint(tick);
      tick := tick + 1;
    }

    /** Where one pass leaves a loop: going round again with `last` remembered, or
        ending it, with the status already settled or still to be set to `last`. */
    ghost predicate PassAgrees(pass: Pass, go: bool, settled: bool, last: int, err: Err)
      reads this, table
    {
      match pass
      case Again(s, l) => go && err == Fine && Clean() && Now() == s && last == l
      case Done(r) =>
        && !go
        && (settled ==> Agrees(r, err))
        && (!settled ==> err == Fine && Clean() && r == Res(Normal, Now().(status := last)))
    }

    method WhileOnce(n: Node, last0: int, fuel: nat, ghost p: Place)
      returns (go: bool, settled: bool, last: int, err: Err)
      requires n.While? && Valid() && Clean() && Here() == p.(loops := p.loops + 1)
      modifies this, table
      ensures Valid() && Here() == old(Here()) && Extends(old(table.trees), table.trees)
      ensures PassAgrees(WhilePass(oracle, n, p, old(Now()), last0, fuel), go, settled, last, err)
      decreases fuel, 3, n, 3
    {
      hide Eval, Table.Valid;
      go, settled, last, err := false, true, last0, Fine;
      var fired := TakeInt();
      if fired {
        lastStatus := INTERRUPTED;
        return;
      }
      err := EvalNode(n.cond, fuel);
      if err != Fine {
        return;
      }
      var act := LoopFlow();
      if act == LoopNext {
        go := true;
        return;
      }
      if act != LoopRun || lastStatus == INTERRUPTED {
        return;
      }
      if lastStatus != 0 {
        settled := false;
        return;
      }
      go, last, err := BodyOnce(n.body, last0, fuel, n);
    }

    /** The loop body and what the loop makes of it. */
    method BodyOnce(body: Node, last0: int, fuel: nat, ghost n: Node) returns (go: bool, last: int, err: Err)
      requires Valid() && Clean() && (n.While? || n.For?) && body == n.body
      modifies this, table
      ensures Valid() && Here() == old(Here()) && Extends(old(table.trees), table.trees)
      ensures PassAgrees(AfterBody(Eval(oracle, body, old(Here()), old(Now()), fuel)), go, true, last, err)
      decreases fuel, 3, n, 2
    {
      hide Eval;
      go, last := false, last0;
      err := EvalNode(body, fuel);
      if err != Fine {
        return;
      }
      last := lastStatus;
      var act := LoopFlow();
      go := act == LoopNext || (act == LoopRun && last != INTERRUPTED);
    }

    method EvalWhileNode(n: Node, fuel: nat) returns (err: Err)
      requires n.While? && Valid() && Clean()
      modifies this, table
      ensures Valid() && Here() == old(Here()) && Extends(old(table.trees), table.trees)
      ensures Agrees(EvalWhile(oracle, n, old(Here()), old(Now()), 0, fuel), err)
      decreases fuel, 3, n, 4
    {
      hide WhilePass, EvalWhile;
      ghost var p := Here();
      ghost var all := EvalWhile(oracle, n, p, Now(), 0, fuel);
      var last, f: nat := 0, fuel;
      var settled := true;
      err := Fine;
      LoopEnter();
      while true
        invariant err == Fine && f <= fuel
        invariant Valid() && Clean() && Here() == p.(loops := p.loops + 1)
        invariant Extends(old(table.trees), table.trees)
        invariant all == EvalWhile(oracle, n, p, Now(), last, f)
        decreases f
      {
        WhileUnfold(oracle, n, p, Now(), last, f);
        var go;
        go, settled, last, err := WhileOnce(n, last, f, p);
        if !go {
          break;
        }
        if f == 0 {
          err, settled := Cut, true;
          break;
        }
        f := f - 1;
      }
      if !settled {
        lastStatus := last;
      }
      LoopLeave();
    }

    method ForOnce(n: Node, i: nat, status0: int, last0: int, fuel: nat, ghost p: Place)
      returns (go: bool, last: int, err: Err)
      requires n.For? && i < |n.words| && Valid() && Clean() && Here() == p.(loops := p.loops + 1)
      modifies this, table
      ensures Valid() && Here() == old(Here()) && Extends(old(table.trees), table.trees)
      ensures PassAgrees(ForPass(oracle, n, i, p, old(Now()), status0, fuel), go, true, last, err)
      decreases fuel, 3, n, 3
    {
      hide Eval, Table.Valid;
      go, last, err := false, last0, Fine;
      var fired := TakeInt();
      if fired {
        lastStatus := INTERRUPTED;
        return;
      }
      var value := oracle.expand(n.words[i], status0, argv, env);
      if value.None? {
        lastStatus := 1;
        return;
      }
      var ok := oracle.setenv(tick, n.name, value.value);
      tick := tick + 1;
      if !ok {
        lastStatus := 1;
        return;
      }
      env := env[n.name := value.value];
      go, last, err := BodyOnce(n.body, last0, fuel, n);
    }

    method EvalForNode(n: Node, fuel: nat) returns (err: Err)
      requires n.For? && Valid() && Clean()
      modifies this, table
      ensures Valid() && Here() == old(Here()) && Extends(old(table.trees), table.trees)
      ensures Agrees(EvalFor(oracle, n, 0, old(Here()), old(Now()), old(lastStatus), 0, fuel), err)
      decreases fuel, 3, n, 4
    {
      hide ForPass, EvalFor;
      ghost var p := Here();
      ghost var all := EvalFor(oracle, n, 0, p, Now(), lastStatus, 0, fuel);
      var status0, last := lastStatus, 0;
      var settled := false;
      err := Fine;
      LoopEnter();
      var i := 0;
      while i < |n.words|
        invariant i <= |n.words| && err == Fine && !settled
        invariant Valid() && Clean() && Here() == p.(loops := p.loops + 1)
        invariant Extends(old(table.trees), table.trees)
        invariant all == EvalFor(oracle, n, i, p, Now(), status0, last, fuel)
      {
        ForUnfold(oracle, n, i, p, Now(), status0, last, fuel);
        var go;
        go, last, err := ForOnce(n, i, status0, last, fuel, p);
        if !go {
          settled := true;
          break;
        }
        i := i + 1;
      }
      if !settled {
        ForUnfold(oracle, n, i, p, Now(), status0, last, fuel);
        lastStatus := last;
      }
      LoopLeave();
    }

    /** Evaluates a node entered with no flag pending. On return the flags encode
        exactly the structured result, and the depths and arguments are as before. */
    method EvalNode(n: Node, fuel: nat) returns (err: Err)
      requires Valid() && Clean()
      modifies this, table
      ensures Valid() && Here() == old(Here()) && Extends(old(table.trees), table.trees)
      ensures Agrees(Eval(oracle, n, old(Here()), old(Now()), fuel), err)
      decreases fuel, 3, n, 5
    {
      hide EvalPipeline, EvalChain, EvalSeq, EvalIf, EvalWhile, EvalFor;
      match n {
        case Pipeline(_, _, _) => err := EvalPipelineNode(n, fuel);
        case AndOr(_) => err := EvalChainNode(n, fuel);
        case List(_) => err := EvalListNode(n, fuel);
        case If(_, _, _) => err := EvalIfNode(n, fuel);
        case While(_, _) => err := EvalWhileNode(n, fuel);
        case For(_, _, _) => err := EvalForNode(n, fuel);
        case FuncDef(name, body) =>
          table.Define(name, body);
          lastStatus := 0;
          err := Fine;
      }
    }
  }

  // ---- One step of each loop of the semantics -----------------------------------------

  lemma {:induction false} ChainUnfold(o: Oracle, items: seq<AndOrItem>, i: nat, p: Place, s: State, fuel: nat)
    requires i < |items|
    ensures var it, r := items[i], Eval(o, items[i].node, p, s, fuel);
            EvalChain(o, items[i..], p, s, fuel) ==
            if (it.op == And && s.status != 0) || (it.op == Or && s.status == 0)
            then EvalChain(o, items[i + 1..], p, s, fuel)
            else if r.Res? && r.out == Normal then EvalChain(o, items[i + 1..], p, r.s, fuel) else r
  {
    hide Eval;
    assert items[i..][1..] == items[i + 1..];
  }

  lemma {:induction false} ChainEnd(o: Oracle, items: seq<AndOrItem>, p: Place, s: State, fuel: nat)
    ensures EvalChain(o, items[|items|..], p, s, fuel) == Res(Normal, s)
  {
  }

  lemma {:induction false} SeqUnfold(o: Oracle, nodes: seq<Node>, i: nat, p: Place, s: State, fuel: nat)
    requires i < |nodes|
    ensures var r := Eval(o, nodes[i], p, s, fuel);
            EvalSeq(o, nodes[i..], p, s, fuel) ==
            if r.Res? && r.out == Normal then EvalSeq(o, nodes[i + 1..], p, r.s, fuel) else r
  {
    hide Eval;
    assert nodes[i..][1..] == nodes[i + 1..];
  }

  lemma {:induction false} SeqEnd(o: Oracle, nodes: seq<Node>, p: Place, s: State, fuel: nat)
    ensures EvalSeq(o, nodes[|nodes|..], p, s, fuel) == Res(Normal, s)
  {
  }

  lemma IfUnfold(o: Oracle, n: Node, i: nat, p: Place, s: State, fuel: nat)
    requires n.If? && i <= |n.conds|
    ensures i == |n.conds| ==>
              EvalIf(o, n, i, p, s, fuel) ==
              if n.elseBody.Some? then Eval(o, n.elseBody.value, p, s, fuel) else Res(Normal, s.(status := 0))
    ensures i < |n.conds| ==>
              var r := Eval(o, n.conds[i], p, s, fuel);
              EvalIf(o, n, i, p, s, fuel) ==
              if !(r.Res? && r.out == Normal) then r
              else if r.s.status != 0 then EvalIf(o, n, i + 1, p, r.s, fuel)
              else if i < |n.bodies| then Eval(o, n.bodies[i], p, r.s, fuel)
              else Res(Invalid, r.s)
  {
    hide Eval;
  }

  lemma WhileUnfold(o: Oracle, n: Node, p: Place, s: State, last: int, fuel: nat)
    requires n.While?
    ensures var pass := WhilePass(o, n, p, s, last, fuel);
            EvalWhile(o, n, p, s, last, fuel) ==
            if pass.Done? then pass.r
            else if fuel == 0 then NoFuel
            else EvalWhile(o, n, p, pass.s, pass.last, fuel - 1)
  {
    hide WhilePass;
  }

  lemma ForUnfold(o: Oracle, n: Node, i: nat, p: Place, s: State, status0: int, last: int, fuel: nat)
    requires n.For? && i <= |n.words|
    ensures i == |n.words| ==> EvalFor(o, n, i, p, s, status0, last, fuel) == Res(Normal, s.(status := last))
    ensures i < |n.words| ==>
              var pass := ForPass(o, n, i, p, s, status0, fuel);
              EvalFor(o, n, i, p, s, status0, last, fuel) ==
              if pass.Done? then pass.r else EvalFor(o, n, i + 1, p, pass.s, status0, pass.last, fuel)
  {
    hide ForPass;
  }

  lemma CutCall()
    ensures AfterCall(NoFuel) == NoFuel
  {
  }

  function Onto(out: seq<string>, r: Option<seq<string>>): Option<seq<string>> {
    if r.None? then None else Some(out + r.value)
  }

  lemma OntoStart(r: Option<seq<string>>)
    ensures Onto([], r) == r
  {
    assert r.Some? ==> [] + r.value == r.value;
  }

  lemma {:induction false} ExpandedUnfold(o: Oracle, words: seq<Token>, i: nat, p: Place, s: State)
    requires i <= |words|
    ensures i == |words| ==> forall out: seq<string> :: Onto(out, Expanded(o, words[i..], p, s)) == Some(out)
    ensures i < |words| ==>
              var t := o.expand(words[i], s.status, p.args, s.env);
              Expanded(o, words[i..], p, s) ==
              if t.None? then None else Onto([t.value], Expanded(o, words[i + 1..], p, s))
  {
    if i < |words| { assert words[i..][1..] == words[i + 1..]; }
    else { assert forall out: seq<string> :: out + [] == out; }
  }

  lemma OntoStep(out: seq<string>, t: string, r: Option<seq<string>>)
    ensures Onto(out, Onto([t], r)) == Onto(out + [t], r)
  {
    assert r.Some? ==> out + ([t] + r.value) == out + [t] + r.value;
  }

  lemma BreakOutcome(args: seq<string>, p: Place, status: int)
    requires args != []
    ensures FlowBuiltin(args, p, status).1 != Invalid
  {
    hide Strtol;
  }
}
