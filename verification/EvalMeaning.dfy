/** What each construct means, told from the evaluations of its parts alone. */
module EvalMeaning {
  import opened Options
  import opened Tokens
  import opened Ast
  import opened EvalSpec

  // ---- Loops --------------------------------------------------------------------------

  /** The state in which a pass starts: the watch for SIGINT has been asked. */
  function Asked(s: State): State { s.(tick := s.tick + 1) }

  function Inside(p: Place): Place { p.(loops := p.loops + 1) }

  /** How the condition ends when the pass starts in `s`. */
  function Test(o: Oracle, n: Node, p: Place, s: State, fuel: nat): Res
    requires n.While?
  {
    Eval(o, n.cond, Inside(p), Asked(s), fuel)
  }

  predicate Ended(r: Res, out: Outcome) { r.Res? && r.out == out }

  /** The condition held. */
  predicate Held(r: Res) { Ended(r, Normal) && r.s.status == 0 }

  /** A body that lets the loop go on. */
  predicate GoesOn(r: Res) { Ended(r, Continue) || (Ended(r, Normal) && r.s.status != 130) }

  /** One whole pass, from `s` to `s'`: no SIGINT, the condition held, and the body
      let the loop go on. */
  ghost predicate Turn(o: Oracle, n: Node, p: Place, s: State, s': State, fuel: nat)
    requires n.While?
  {
    var c := Test(o, n, p, s, fuel);
    && !o.sigint(s.tick) && Held(c)
    && var b := Eval(o, n.body, Inside(p), c.s, fuel); GoesOn(b) && b.s == s'
  }

  /** Whole passes one after the other, each with one unit of fuel less. */
  ghost predicate Turns(o: Oracle, n: Node, p: Place, ss: seq<State>, fuel: nat)
    requires n.While? && ss != []
    decreases |ss|
  {
    |ss| == 1 || (fuel > 0 && Turn(o, n, p, ss[0], ss[1], fuel) && Turns(o, n, p, ss[1..], fuel - 1))
  }

  lemma {:induction false} TurnStep(o: Oracle, n: Node, p: Place, s: State, s': State, last: int, fuel: nat)
    requires n.While? && fuel > 0 && Turn(o, n, p, s, s', fuel)
    ensures EvalWhile(o, n, p, s, last, fuel) == EvalWhile(o, n, p, s', s'.status, fuel - 1)
  {
    hide Eval;
  }

  lemma {:induction false} TurnsStep(o: Oracle, n: Node, p: Place, ss: seq<State>, last: int, fuel: nat)
    requires n.While? && ss != [] && Turns(o, n, p, ss, fuel)
    ensures fuel >= |ss| - 1
    ensures EvalWhile(o, n, p, ss[0], last, fuel)
            == EvalWhile(o, n, p, ss[|ss| - 1], if |ss| == 1 then last else ss[|ss| - 1].status, fuel - (|ss| - 1))
    decreases |ss|
  {
    hide Turn, EvalWhile;
    if |ss| > 1 {
      TurnStep(o, n, p, ss[0], ss[1], last, fuel);
      TurnsStep(o, n, p, ss[1..], ss[1].status, fuel - 1);
    }
  }

  /** A loop left by its condition has the status of its last body, or 0 if the body
      never ran. */
  lemma {:induction false} WhileFinishes(o: Oracle, cond: Node, body: Node, p: Place, ss: seq<State>, fuel: nat)
    requires var n := While(cond, body); ss != [] && Turns(o, n, p, ss, fuel) && fuel >= |ss| - 1
    requires var s := ss[|ss| - 1];
             var c := Test(o, While(cond, body), p, s, fuel - (|ss| - 1));
             !o.sigint(s.tick) && Ended(c, Normal) && c.s.status != 0 && c.s.status != 130
    ensures var s := ss[|ss| - 1];
            var c := Eval(o, cond, Inside(p), Asked(s), fuel - (|ss| - 1));
            Eval(o, While(cond, body), p, ss[0], fuel)
            == Res(Normal, c.s.(status := if |ss| == 1 then 0 else s.status))
  {
    hide Turns;
    TurnsStep(o, While(cond, body), p, ss, 0, fuel);
  }

  /** A loop whose first condition fails never runs its body, whatever that is. */
  lemma {:induction false} WhileSkips(o: Oracle, cond: Node, body: Node, p: Place, s: State, fuel: nat)
    requires !o.sigint(s.tick)
    requires var c := Eval(o, cond, Inside(p), Asked(s), fuel);
             Ended(c, Normal) && c.s.status != 0 && c.s.status != 130
    ensures var c := Eval(o, cond, Inside(p), Asked(s), fuel);
            Eval(o, While(cond, body), p, s, fuel) == Res(Normal, c.s.(status := 0))
  {
    assert Turns(o, While(cond, body), p, [s], fuel);
    WhileFinishes(o, cond, body, p, [s], fuel);
  }

  /** What the condition or the body of the pass after the whole passes makes of the
      loop: a break ends it with status 0, a Ctrl-C with 130, and a return, an exit
      or an interrupted command ends it as it stands. */
  lemma {:induction false} WhileLeaves(o: Oracle, cond: Node, body: Node, p: Place, ss: seq<State>, fuel: nat)
    requires var n := While(cond, body); ss != [] && Turns(o, n, p, ss, fuel) && fuel >= |ss| - 1
    ensures var s, f := ss[|ss| - 1], fuel - (|ss| - 1);
            var r := Eval(o, While(cond, body), p, ss[0], fuel);
            var c := Eval(o, cond, Inside(p), Asked(s), f);
            && (o.sigint(s.tick) ==> r == Res(Normal, Asked(s).(status := 130)))
            && (!o.sigint(s.tick) && Leaves(c) ==> r == Left(c))
            && (!o.sigint(s.tick) && Held(c) ==>
                  var b := Eval(o, body, Inside(p), c.s, f);
                  Leaves(b) ==> r == Left(b))
  {
    hide Turns, Eval;
    TurnsStep(o, While(cond, body), p, ss, 0, fuel);
    WhileIs(o, While(cond, body), p, ss[0], fuel);
  }

  lemma {:induction false} WhileIs(o: Oracle, n: Node, p: Place, s: State, fuel: nat)
    requires n.While?
    ensures Eval(o, n, p, s, fuel) == EvalWhile(o, n, p, s, 0, fuel)
  {
  }

  /** Results of a condition or a body that end the loop. */
  predicate Leaves(r: Res) {
    r.Res? && (r.out == Break || r.out.Return? || r.out.Exit? || (r.out == Normal && r.s.status == 130))
  }

  function Left(r: Res): Res
    requires Leaves(r)
  {
    if r.out == Break then Res(Normal, r.s.(status := 0)) else r
  }

  /** A loop whose condition always holds and whose body always goes on never ends. */
  lemma {:induction false} WhileForever(o: Oracle, cond: Node, body: Node, p: Place, s: State, fuel: nat)
    requires forall t: nat :: !o.sigint(t)
    requires forall s: State, f: nat :: Eval(o, cond, Inside(p), s, f).Res? ==> Held(Eval(o, cond, Inside(p), s, f))
    requires forall s: State, f: nat :: Eval(o, body, Inside(p), s, f).Res? ==> GoesOn(Eval(o, body, Inside(p), s, f))
    ensures Eval(o, While(cond, body), p, s, fuel) == NoFuel
  {
    hide Eval;
    WhileIs(o, While(cond, body), p, s, fuel);
    LoopForever(o, cond, body, p, s, 0, fuel);
  }

  lemma {:induction false} LoopForever(o: Oracle, cond: Node, body: Node, p: Place, s: State, last: int, fuel: nat)
    requires forall t: nat :: !o.sigint(t)
    requires forall s: State, f: nat :: Eval(o, cond, Inside(p), s, f).Res? ==> Held(Eval(o, cond, Inside(p), s, f))
    requires forall s: State, f: nat :: Eval(o, body, Inside(p), s, f).Res? ==> GoesOn(Eval(o, body, Inside(p), s, f))
    ensures EvalWhile(o, While(cond, body), p, s, last, fuel) == NoFuel
    decreases fuel
  {
    hide Eval;
    var c := Eval(o, cond, Inside(p), Asked(s), fuel);
    if c.Res? {
      var b := Eval(o, body, Inside(p), c.s, fuel);
      if b.Res? && fuel > 0 { LoopForever(o, cond, body, p, b.s, b.s.status, fuel - 1); }
    }
  }

  /** A `continue` in the condition starts the loop afresh. */
  lemma {:induction false} WhileAgain(o: Oracle, cond: Node, body: Node, p: Place, s: State, fuel: nat)
    requires fuel > 0 && !o.sigint(s.tick) && Ended(Eval(o, cond, Inside(p), Asked(s), fuel), Continue)
    ensures Eval(o, While(cond, body), p, s, fuel)
            == Eval(o, While(cond, body), p, Eval(o, cond, Inside(p), Asked(s), fuel).s, fuel - 1)
  {
    var n := While(cond, body);
    WhileIs(o, n, p, s, fuel);
    WhileIs(o, n, p, Eval(o, cond, Inside(p), Asked(s), fuel).s, fuel - 1);
  }

  // ---- For ----------------------------------------------------------------------------

  /** The body of the pass for the value `v`, once the variable is set. */
  function WithValue(o: Oracle, n: Node, p: Place, s: State, v: string, fuel: nat): Res
    requires n.For?
  {
    Eval(o, n.body, Inside(p), s.(tick := s.tick + 2, env := s.env[n.name := v]), fuel)
  }

  /** One whole pass over a word. Words expand against the status and the arguments
      that the loop started with. */
  ghost predicate ForTurn(o: Oracle, n: Node, w: Token, p: Place, s: State, s': State, status0: int, fuel: nat)
    requires n.For?
  {
    var v := o.expand(w, status0, p.args, s.env);
    && !o.sigint(s.tick) && v.Some? && o.setenv(s.tick + 1, n.name, v.value)
    && var b := WithValue(o, n, p, s, v.value, fuel); GoesOn(b) && b.s == s'
  }

  ghost predicate ForTurns(o: Oracle, n: Node, p: Place, ss: seq<State>, fuel: nat)
    requires n.For? && 0 < |ss| <= |n.words| + 1
  {
    forall i | 0 <= i < |ss| - 1 :: ForTurn(o, n, n.words[i], p, ss[i], ss[i + 1], ss[0].status, fuel)
  }

  lemma {:induction false} ForTurnStep(o: Oracle, n: Node, i: nat, p: Place, s: State, s': State, status0: int,
                                       last: int, fuel: nat)
    requires n.For? && i < |n.words| && ForTurn(o, n, n.words[i], p, s, s', status0, fuel)
    ensures EvalFor(o, n, i, p, s, status0, last, fuel) == EvalFor(o, n, i + 1, p, s', status0, s'.status, fuel)
  {
    hide Eval;
  }

  lemma {:induction false} ForTurnsStep(o: Oracle, n: Node, p: Place, ss: seq<State>, i: nat, fuel: nat)
    requires n.For? && 0 < |ss| <= |n.words| + 1 && ForTurns(o, n, p, ss, fuel) && i < |ss|
    ensures Eval(o, n, p, ss[0], fuel)
            == EvalFor(o, n, i, p, ss[i], ss[0].status, if i == 0 then 0 else ss[i].status, fuel)
    decreases i
  {
    hide ForTurn, EvalFor;
    if i > 0 {
      ForTurnsStep(o, n, p, ss, i - 1, fuel);
      assert ForTurn(o, n, n.words[i - 1], p, ss[i - 1], ss[i - 1 + 1], ss[0].status, fuel);
      ForTurnStep(o, n, i - 1, p, ss[i - 1], ss[i], ss[0].status, if i == 1 then 0 else ss[i - 1].status, fuel);
    }
  }

  /** A loop that has been through all its words has the status of its last body, or 0
      if there were no words. */
  lemma {:induction false} ForFinishes(o: Oracle, n: Node, p: Place, ss: seq<State>, fuel: nat)
    requires n.For? && |ss| == |n.words| + 1 && ForTurns(o, n, p, ss, fuel)
    ensures var s := ss[|n.words|];
            Eval(o, n, p, ss[0], fuel) == Res(Normal, s.(status := if n.words == [] then 0 else s.status))
  {
    hide ForTurns;
    ForTurnsStep(o, n, p, ss, |n.words|, fuel);
  }

  /** What the next word makes of the loop when it is no whole pass: a Ctrl-C ends it
      with 130, a word that cannot be expanded or stored with 1, a break with 0, and a
      return, an exit or an interrupted command as it stands. */
  lemma {:induction false} ForLeaves(o: Oracle, n: Node, p: Place, ss: seq<State>, fuel: nat)
    requires n.For? && 0 < |ss| <= |n.words| && ForTurns(o, n, p, ss, fuel)
    ensures var s := ss[|ss| - 1];
            var r := Eval(o, n, p, ss[0], fuel);
            var v := o.expand(n.words[|ss| - 1], ss[0].status, p.args, s.env);
            && (o.sigint(s.tick) ==> r == Res(Normal, Asked(s).(status := 130)))
            && (!o.sigint(s.tick) && v.None? ==> r == Res(Normal, Asked(s).(status := 1)))
            && (!o.sigint(s.tick) && v.Some? && !o.setenv(s.tick + 1, n.name, v.value) ==>
                  r == Res(Normal, s.(tick := s.tick + 2, status := 1)))
            && (!o.sigint(s.tick) && v.Some? && o.setenv(s.tick + 1, n.name, v.value) ==>
                  var b := WithValue(o, n, p, s, v.value, fuel);
                  Leaves(b) ==> r == Left(b))
  {
    hide ForTurns, Eval;
    ForTurnsStep(o, n, p, ss, |ss| - 1, fuel);
  }

  // ---- If -----------------------------------------------------------------------------

  /** The conditions before the `i`th ended normally, and failed. */
  ghost predicate Failed(o: Oracle, n: Node, i: nat, p: Place, ss: seq<State>, fuel: nat)
    requires n.If? && i <= |n.conds| && i < |ss|
  {
    forall j | 0 <= j < i :: FailedIn(Eval(o, n.conds[j], p, ss[j], fuel), ss[j + 1])
  }

  predicate FailedIn(c: Res, s: State) { Ended(c, Normal) && c.s.status != 0 && c.s == s }

  lemma {:induction false} FailedStep(o: Oracle, n: Node, i: nat, p: Place, ss: seq<State>, fuel: nat)
    requires n.If? && i <= |n.conds| && i < |ss| && Failed(o, n, i, p, ss, fuel)
    ensures Eval(o, n, p, ss[0], fuel) == EvalIf(o, n, i, p, ss[i], fuel)
    decreases i
  {
    hide EvalChain, EvalSeq, EvalWhile, EvalFor, EvalPipeline;
    if i > 0 {
      FailedStep(o, n, i - 1, p, ss, fuel);
      assert FailedIn(Eval(o, n.conds[i - 1], p, ss[i - 1], fuel), ss[i - 1 + 1]);
    }
  }

  /** The first condition that succeeds picks its body. */
  lemma {:induction false} IfPicks(o: Oracle, n: Node, i: nat, p: Place, ss: seq<State>, fuel: nat)
    requires n.If? && i < |n.conds| && i < |n.bodies| && i < |ss| && Failed(o, n, i, p, ss, fuel)
    requires Held(Eval(o, n.conds[i], p, ss[i], fuel))
    ensures Eval(o, n, p, ss[0], fuel) == Eval(o, n.bodies[i], p, Eval(o, n.conds[i], p, ss[i], fuel).s, fuel)
  {
    hide Eval, Failed;
    FailedStep(o, n, i, p, ss, fuel);
  }

  /** If none does, the `else` body runs, and without one the status is 0. */
  lemma {:induction false} IfElse(o: Oracle, n: Node, p: Place, ss: seq<State>, fuel: nat)
    requires n.If? && |n.conds| < |ss| && Failed(o, n, |n.conds|, p, ss, fuel)
    ensures var s := ss[|n.conds|];
            Eval(o, n, p, ss[0], fuel)
            == if n.elseBody.Some? then Eval(o, n.elseBody.value, p, s, fuel) else Res(Normal, s.(status := 0))
  {
    hide Eval, Failed;
    FailedStep(o, n, |n.conds|, p, ss, fuel);
  }

  /** A condition that does not end normally ends the `if`. */
  lemma {:induction false} IfLeaves(o: Oracle, n: Node, i: nat, p: Place, ss: seq<State>, fuel: nat)
    requires n.If? && i < |n.conds| && i < |ss| && Failed(o, n, i, p, ss, fuel)
    requires !Ended(Eval(o, n.conds[i], p, ss[i], fuel), Normal)
    ensures Eval(o, n, p, ss[0], fuel) == Eval(o, n.conds[i], p, ss[i], fuel)
  {
    hide Eval, Failed;
    FailedStep(o, n, i, p, ss, fuel);
  }

  // ---- Chains and pipelines -------------------------------------------------------------

  lemma {:induction false} ChainSplits(o: Oracle, xs: seq<AndOrItem>, it: AndOrItem, p: Place, s: State, fuel: nat)
    ensures var r := EvalChain(o, xs, p, s, fuel);
            EvalChain(o, xs + [it], p, s, fuel)
            == if !Ended(r, Normal) then r else EvalChain(o, [it], p, r.s, fuel)
    decreases |xs|
  {
    hide Eval;
    if xs == [] {
      assert xs + [it] == [it];
    } else {
      assert (xs + [it])[0] == xs[0] && (xs + [it])[1..] == xs[1..] + [it];
      if (xs[0].op == And && s.status != 0) || (xs[0].op == Or && s.status == 0) {
        ChainSplits(o, xs[1..], it, p, s, fuel);
      } else {
        var r := Eval(o, xs[0].node, p, s, fuel);
        if Ended(r, Normal) { ChainSplits(o, xs[1..], it, p, r.s, fuel); }
      }
    }
  }

  /** `&&` runs its right side after a status of 0, `||` after any other status, from
      left to right; nothing runs after a break, a return or an exit. */
  lemma {:induction false} ChainMeans(o: Oracle, xs: seq<AndOrItem>, it: AndOrItem, p: Place, s: State, fuel: nat)
    ensures var r := Eval(o, AndOr(xs), p, s, fuel);
            Eval(o, AndOr(xs + [it]), p, s, fuel)
            == if !Ended(r, Normal) then r
               else if it.op == And && r.s.status != 0 then r
               else if it.op == Or && r.s.status == 0 then r
               else Eval(o, it.node, p, r.s, fuel)
  {
    hide Eval;
    ChainSplits(o, xs, it, p, s, fuel);
    ChainIs(o, xs, p, s, fuel);
    ChainIs(o, xs + [it], p, s, fuel);
    var r := EvalChain(o, xs, p, s, fuel);
    if Ended(r, Normal) { ChainOne(o, it, p, r.s, fuel); }
  }

  lemma {:induction false} ChainIs(o: Oracle, xs: seq<AndOrItem>, p: Place, s: State, fuel: nat)
    ensures Eval(o, AndOr(xs), p, s, fuel) == EvalChain(o, xs, p, s, fuel)
  {
  }

  lemma {:induction false} ChainOne(o: Oracle, it: AndOrItem, p: Place, s: State, fuel: nat)
    ensures EvalChain(o, [it], p, s, fuel)
            == if (it.op == And && s.status != 0) || (it.op == Or && s.status == 0) then Res(Normal, s)
               else Eval(o, it.node, p, s, fuel)
  {
    hide Eval;
    var r := Eval(o, it.node, p, s, fuel);
    assert [it][1..] == [];
    if Ended(r, Normal) { assert EvalChain(o, [], p, r.s, fuel) == r; }
  }

  /** `!` turns a status of 0 into 1 and any other into 0, and leaves the rest alone. */
  lemma {:induction false} BangMeans(o: Oracle, cmds: seq<Command>, bg: bool, p: Place, s: State, fuel: nat)
    ensures var r := Eval(o, Pipeline(cmds, bg, false), p, s, fuel);
            Eval(o, Pipeline(cmds, bg, true), p, s, fuel)
            == if r.NoFuel? then r else Res(r.out, r.s.(status := if r.s.status == 0 then 1 else 0))
  {
    hide RunSimple;
  }

  /** More than one stage, or a `&`, runs outside the shell. */
  lemma {:induction false} PipelineForks(o: Oracle, cmds: seq<Command>, bg: bool, p: Place, s: State, fuel: nat)
    requires cmds != [] && (|cmds| > 1 || bg)
    ensures Eval(o, Pipeline(cmds, bg, false), p, s, fuel)
            == Res(Normal, State(o.forked(s.tick, cmds, bg, s.env), s.tick + 1, s.env, s.funcs))
  {
  }

  // ---- Commands ---------------------------------------------------------------------------

  /** A command run in the shell itself. */
  function Command1(o: Oracle, c: Command, p: Place, s: State, fuel: nat): Res {
    Eval(o, Pipeline([c], false, false), p, s, fuel)
  }

  lemma {:induction false} Command1Is(o: Oracle, c: Command, p: Place, s: State, fuel: nat)
    ensures Command1(o, c, p, s, fuel) == RunSimple(o, c, p, s, fuel)
  {
    hide RunSimple;
    var n := Pipeline([c], false, false);
    assert EvalPipeline(o, n, p, s, fuel) == Negated(false, RunSimple(o, n.cmds[0], p, s, fuel));
  }

  /** Words that do not expand give 2, none at all change nothing, and an empty name is
      not found. */
  lemma {:induction false} NoCommandRuns(o: Oracle, c: Command, p: Place, s: State, fuel: nat)
    ensures var e, r := Expanded(o, c.words, p, s), Command1(o, c, p, s, fuel);
            && (e == None ==> r == Res(Normal, s.(status := 2)))
            && (e == Some([]) ==> r == Res(Normal, s))
            && (e.Some? && e.value != [] && e.value[0] == "" ==> r == Res(Normal, s.(status := 127)))
  {
    hide Expanded, IsBuiltin;
    Command1Is(o, c, p, s, fuel);
  }

  /** Words expand one by one, from left to right, against the state before the command. */
  lemma {:induction false} ExpandedAt(o: Oracle, words: seq<Token>, p: Place, s: State)
    ensures var e := Expanded(o, words, p, s);
            && (e.Some? <==> forall i | 0 <= i < |words| :: o.expand(words[i], s.status, p.args, s.env).Some?)
            && (e.Some? ==> |e.value| == |words|)
            && (e.Some? ==>
                  forall i | 0 <= i < |words| :: Some(e.value[i]) == o.expand(words[i], s.status, p.args, s.env))
    decreases |words|
  {
    if words != [] {
      ExpandedAt(o, words[1..], p, s);
      assert forall i | 0 <= i < |words[1..]| :: words[1..][i] == words[i + 1];
      var e := Expanded(o, words, p, s);
      if forall i | 0 <= i < |words| :: o.expand(words[i], s.status, p.args, s.env).Some? {
        assert o.expand(words[0], s.status, p.args, s.env).Some?;
      }
    }
  }

  /** A name that is neither a builtin nor a function is run outside the shell. */
  lemma {:induction false} OthersFork(o: Oracle, c: Command, p: Place, s: State, fuel: nat)
    requires var e := Expanded(o, c.words, p, s);
             && e.Some? && e.value != [] && e.value[0] != "" && e.value[0] !in s.funcs
             && e.value[0] !in {"bg", "cd", "emu", "export", "fg", "heap", "help", "history", "inspect", "jobs",
                                "netmon", "unset", "break", "continue", "return", "exit"}
    ensures Command1(o, c, p, s, fuel)
            == Res(Normal, State(o.forked(s.tick, [c], false, s.env), s.tick + 1, s.env, s.funcs))
  {
    hide Expanded;
    Command1Is(o, c, p, s, fuel);
  }

  /** The same words expand alike at any other moment. */
  lemma {:induction false} ExpandedLater(o: Oracle, words: seq<Token>, p: Place, s: State, tick: nat)
    ensures Expanded(o, words, p, s.(tick := tick)) == Expanded(o, words, p, s)
  {
    if words != [] { ExpandedLater(o, words[1..], p, s, tick); }
  }

  function Plain(c: Command): Command { c.(redirIn := None, redirOut := None, redirErr := None) }

  /** What runs in the shell itself has its redirects applied first, and does not run if
      that fails. */
  lemma {:induction false} RedirectsFirst(o: Oracle, c: Command, p: Place, s: State, name: string, args: seq<string>,
                                          fuel: nat)
    requires Expanded(o, c.words, p, s) == Some([name] + args) && name != ""
    requires IsBuiltin(name) || name in s.funcs
    requires c.redirIn.Some? || c.redirOut.Some? || c.redirErr.Some?
    ensures var bad, s1 := o.redirect(s.tick, c), s.(tick := s.tick + 1);
            Command1(o, c, p, s, fuel)
            == if bad != 0 then Res(Normal, s1.(status := bad)) else Command1(o, Plain(c), p, s1, fuel)
  {
    hide Expanded, IsBuiltin, RunBuiltin, Call;
    ExpandedLater(o, c.words, p, s, s.tick + 1);
    Command1Is(o, c, p, s, fuel);
    Command1Is(o, Plain(c), p, s.(tick := s.tick + 1), fuel);
    assert ([name] + args)[0] == name;
  }

  /** The builtins that leave control alone set the status and the environment. */
  lemma {:induction false} OtherBuiltins(o: Oracle, c: Command, p: Place, s: State, name: string, args: seq<string>,
                                         fuel: nat)
    requires Expanded(o, c.words, p, s) == Some([name] + args)
    requires name in {"bg", "cd", "emu", "export", "fg", "heap",
                      "help", "history", "inspect", "jobs", "netmon", "unset"}
    requires c.redirIn.None? && c.redirOut.None? && c.redirErr.None?
    ensures var r := o.other(s.tick, [name] + args, s.status, s.env);
            Command1(o, c, p, s, fuel) == Res(Normal, State(r.0, s.tick + 1, r.1, s.funcs))
  {
    hide Expanded;
    Command1Is(o, c, p, s, fuel);
    assert ([name] + args)[0] == name;
  }

  /** A definition is remembered, and its status is 0. */
  lemma {:induction false} DefinitionMeans(o: Oracle, name: string, body: Node, p: Place, s: State, fuel: nat)
    ensures Eval(o, FuncDef(name, body), p, s, fuel)
            == Res(Normal, State(0, s.tick, s.env, s.funcs[name := body]))
  {
  }

  /** A call runs the body one level deeper, with `$0` as it was and the words after the
      name as arguments. A return gives its status, an exit goes on, and a break or a
      continue is forgotten; at 64 levels the call is refused with 1. */
  lemma {:induction false} CallMeans(o: Oracle, c: Command, zero: string, before: seq<string>, p: Place, s: State,
                                     name: string, args: seq<string>, fuel: nat)
    requires Expanded(o, c.words, p, s) == Some([name] + args) && name != "" && !IsBuiltin(name) && name in s.funcs
    requires c.redirIn.None? && c.redirOut.None? && c.redirErr.None? && p.args == [zero] + before && fuel > 0
    ensures var r := Command1(o, c, p, s, fuel);
            var b := Eval(o, s.funcs[name], Place(p.loops, p.depth + 1, [zero] + args), s, fuel - 1);
            && (p.depth >= 64 ==> r == Res(Normal, s.(status := 1)))
            && (p.depth < 64 && b.NoFuel? ==> r == NoFuel)
            && (p.depth < 64 && b.Res? && b.out.Return? ==> r == Res(Normal, b.s.(status := b.out.value)))
            && (p.depth < 64 && b.Res? && b.out.Exit? ==> r == b)
            && (p.depth < 64 && b.Res? && b.out in {Normal, Break, Continue} ==> r == Res(Normal, b.s))
  {
    hide Expanded, IsBuiltin, Eval;
    Command1Is(o, c, p, s, fuel);
    assert ([name] + args)[0] == name && ([name] + args)[1..] == args;
    assert CallArgs(p.args, [name] + args) == [zero] + args;
  }

  // ---- Flow builtins ------------------------------------------------------------------------

  /** A command of these words, without redirects. */
  ghost predicate Says(o: Oracle, c: Command, p: Place, s: State, argv: seq<string>) {
    Expanded(o, c.words, p, s) == Some(argv) && c.redirIn.None? && c.redirOut.None? && c.redirErr.None?
  }

  lemma {:induction false} SaidBuiltin(o: Oracle, c: Command, p: Place, s: State, argv: seq<string>, fuel: nat)
    requires argv != [] && IsFlow(argv[0]) && Says(o, c, p, s, argv)
    ensures var f := FlowBuiltin(argv, p, s.status); Command1(o, c, p, s, fuel) == Res(f.1, s.(status := f.0))
  {
    hide Expanded, FlowBuiltin;
    Command1Is(o, c, p, s, fuel);
  }

  /** Inside a loop `break` and `continue` leave with status 0; outside they only fail. */
  lemma {:induction false} LoopWords(o: Oracle, c: Command, p: Place, s: State, name: string, fuel: nat)
    requires (name == "break" || name == "continue") && Says(o, c, p, s, [name])
    ensures Command1(o, c, p, s, fuel)
            == if p.loops == 0 then Res(Normal, s.(status := 1))
               else Res(if name == "break" then Break else Continue, s.(status := 0))
  {
    hide Expanded;
    SaidBuiltin(o, c, p, s, [name], fuel);
  }

  /** Without an argument `return` and `exit` keep the last status. */
  lemma {:induction false} LeavingWords(o: Oracle, c: Command, p: Place, s: State, name: string, fuel: nat)
    requires (name == "return" || name == "exit") && Says(o, c, p, s, [name])
    ensures Command1(o, c, p, s, fuel)
            == if name == "exit" then Res(Exit(s.status), s)
               else if p.depth == 0 then Res(Normal, s.(status := 1))
               else Res(Return(s.status), s)
  {
    hide Expanded;
    SaidBuiltin(o, c, p, s, [name], fuel);
  }

  /** A number as it is written. */
  function Decimal(v: nat): (d: string)
    ensures d != ""
  {
    (if v < 10 then "" else Decimal(v / 10)) + [('0' as int + v % 10) as char]
  }

  lemma {:induction false} DecimalBack(v: nat)
    ensures Digits(Decimal(v)) && Number(Decimal(v)) == v
  {
    hide Digits, Number;
    NoDigits();
    if v >= 10 { DecimalBack(v / 10); }
    NextDigit(if v < 10 then "" else Decimal(v / 10), v % 10);
  }

  lemma NoDigits()
    ensures Digits("") && Number("") == 0
  {
  }

  lemma {:induction false} NextDigit(d: string, n: nat)
    requires Digits(d) && n < 10
    ensures var e := d + [('0' as int + n) as char]; Digits(e) && Number(e) == 10 * Number(d) + n
  {
    var e := d + [('0' as int + n) as char];
    assert e[..|e| - 1] == d;
  }

  predicate Blanks(ws: string) { forall i | 0 <= i < |ws| :: ws[i] in " \t\n\r" || ws[i] as int in {11, 12} }

  lemma {:induction false} BlanksSkipped(ws: string, s: string)
    requires Blanks(ws) && (s == "" || !IsSpace(s[0]))
    ensures SkipSpaces(ws + s) == s
    decreases |ws|
  {
    if ws == "" {
      assert ws + s == s;
    } else {
      assert (ws + s)[0] == ws[0] && (ws + s)[1..] == ws[1..] + s;
      BlanksSkipped(ws[1..], s);
    }
  }

  /** `strtol` takes blanks, a sign and digits, any of the three but the digits left out
      at will, and clamps to 64 bits; anything else is no number. */
  lemma {:induction false} StrtolReads(ws: string, sign: string, d: string)
    requires Blanks(ws) && (sign == "-" || sign == "+" || (sign == "" && (d == "" || !(d[0] in "+-" || IsSpace(d[0])))))
    ensures Strtol(ws + sign + d)
            == if d == "" || !Digits(d) then None
               else
                 var v: int, top := Number(d), 0x8000_0000_0000_0000;
                 Some(if sign == "-" then (if v >= top then -top else -v) else if v >= top then top - 1 else v)
  {
    hide Number;
    assert ws + sign + d == ws + (sign + d);
    BlanksSkipped(ws, sign + d);
    if sign == "" { assert sign + d == d; } else { assert (sign + d)[1..] == d; }
  }

  /** A number is read back as it was written. */
  lemma {:induction false} StrtolBack(v: nat)
    requires v <= LONG_MAX
    ensures Strtol(Decimal(v)) == Some(v)
  {
    hide Number, Strtol;
    DecimalBack(v);
    var d := Decimal(v);
    assert '0' <= d[0] <= '9';
    assert "" + "" + d == d;
    StrtolReads("", "", d);
  }

  /** `return` takes a status from 0 to 255, `exit` any number modulo 256. */
  lemma {:induction false} LeavingNumbers(o: Oracle, c: Command, p: Place, s: State, name: string, arg: string, v: int,
                                          fuel: nat)
    requires (name == "return" || name == "exit") && Strtol(arg) == Some(v) && Says(o, c, p, s, [name, arg])
    ensures Command1(o, c, p, s, fuel)
            == if name == "exit" then Res(Exit(v % 256), s.(status := v % 256))
               else if p.depth == 0 then Res(Normal, s.(status := 1))
               else if 0 <= v <= 255 then Res(Return(v), s.(status := v))
               else Res(Normal, s.(status := 2))
  {
    hide Expanded, Strtol;
    SaidBuiltin(o, c, p, s, [name, arg], fuel);
  }

  /** What holds a letter, say, is no number: `exit` leaves with 2, `return` only fails. */
  lemma {:induction false} NotNumbers(o: Oracle, c: Command, p: Place, s: State, name: string, arg: string, fuel: nat)
    requires (name == "return" || name == "exit") && Says(o, c, p, s, [name, arg])
    requires arg == "" || exists i :: 0 <= i < |arg| && arg[i] !in "0123456789+- \t\n\r" && arg[i] as int !in {11, 12}
    ensures Command1(o, c, p, s, fuel)
            == if name == "exit" then Res(Exit(2), s.(status := 2))
               else Res(Normal, s.(status := if p.depth == 0 then 1 else 2))
  {
    hide Expanded, Strtol;
    StrtolNone(arg);
    SaidBuiltin(o, c, p, s, [name, arg], fuel);
  }

  lemma {:induction false} StrtolNone(arg: string)
    requires arg == "" || exists i :: 0 <= i < |arg| && arg[i] !in "0123456789+- \t\n\r" && arg[i] as int !in {11, 12}
    ensures Strtol(arg) == None
  {
    if arg != "" {
      var i :| 0 <= i < |arg| && arg[i] !in "0123456789+- \t\n\r" && arg[i] as int !in {11, 12};
      KeptLetter(arg, arg[i]);
      if '0' <= arg[i] <= '9' { DigitIn(arg[i]); }
    }
  }

  lemma {:induction false} KeptLetter(s: string, c: char)
    requires c in s && !IsSpace(c)
    ensures c in SkipSpaces(s)
  {
    if IsSpace(s[0]) { KeptLetter(s[1..], c); }
  }

  lemma DigitIn(c: char)
    requires '0' <= c <= '9'
    ensures c in "0123456789"
  {
    var digits := "0123456789";
    assert digits[c as int - '0' as int] == c;
  }

  /** Too many words are an error for each of them, and leave nothing. */
  lemma {:induction false} TooManyWords(o: Oracle, c: Command, p: Place, s: State, argv: seq<string>, fuel: nat)
    requires argv != [] && IsFlow(argv[0]) && Says(o, c, p, s, argv)
    requires |argv| > if argv[0] == "return" || argv[0] == "exit" then 2 else 1
    ensures Command1(o, c, p, s, fuel)
            == Res(Normal, s.(status := if argv[0] == "exit" || (argv[0] == "return" && p.depth == 0) then 1 else 2))
  {
    hide Expanded, Strtol;
    SaidBuiltin(o, c, p, s, argv, fuel);
  }
}
