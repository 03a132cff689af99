/** Feeding a script line by line: what one pass over the accumulated lines
    decides, and that the pieces make up the whole file. */
module LineSpec {
  import opened Options
  import opened Tokens
  import opened Ast
  import opened EvalSpec
  import opened LexSpec
  import opened Lines
  import Grammar
  import Extension
  import EvalLaws
  import NormalForm
  import ParseNormal

  /** Unfinished, wrong, or a whole program. */
  datatype Feed = More | Wrong | Whole(tree: Option<Node>)

  const STATUS_SYNTAX := 2
  const STATUS_READ := 1

  function FeedText(text: string): Feed {
    var ts := Lex(text);
    if ts.None? then More
    else
      var r := Grammar.ParseProgram(ts.value);
      if r.Ok? then Whole(r.value) else if r.error == Grammar.Incomplete then More else Wrong
  }

  function RunTree(o: Oracle, tree: Option<Node>, p: Place, s: State, fuel: nat): Res {
    if tree.None? then Res(Normal, s) else Eval(o, tree.value, p, s, fuel)
  }

  function Line(x: string, tail: string): string { x + ("\n" + tail) }

  function Joined(buf: string, more: bool, line: string): string {
    if more then Line(buf, line) else line
  }

  /** The stream loop: `buf` holds the lines of an unfinished construct when
      `more` is set, and `broken` says that reading fails after the lines. */
  function RunLines(o: Oracle, lines: seq<string>, broken: bool, buf: string, more: bool, p: Place, s: State,
                    fuel: nat): Res
    decreases |lines|
  {
    if lines == [] then
      Res(Normal, if broken then s.(status := STATUS_READ) else if more then s.(status := STATUS_SYNTAX) else s)
    else if lines[0] == "" && !more then RunLines(o, lines[1..], broken, "", false, p, s, fuel)
    else
      var text := Joined(buf, more, lines[0]);
      match FeedText(text)
      case More => RunLines(o, lines[1..], broken, text, true, p, s, fuel)
      case Wrong => Res(Normal, s.(status := STATUS_SYNTAX))
      case Whole(tree) =>
        var r := RunTree(o, tree, p, s, fuel);
        if r.NoFuel? || r.out.Exit? then r else RunLines(o, lines[1..], broken, "", false, p, r.s, fuel)
  }

  // ---- Texts and their items -------------------------------------------------------

  /** The items of a text, in one piece. */
  function Items(text: string): Grammar.Result<seq<Node>> {
    var ts := Lex(text);
    if ts.None? then Grammar.Fail(Grammar.Incomplete, []) else Grammar.ProgramItems(ts.value)
  }

  lemma FeedIsItems(text: string)
    ensures var r := Items(text);
            FeedText(text) == if r.Ok? then Whole(Grammar.Collapse(r.value))
                              else if r.error == Grammar.Incomplete then More else Wrong
  {
    hide Scan, Grammar.ParseProgram, Grammar.ProgramItems, Grammar.Collapse;
    if Lex(text).Some? { Extension.TreeOfItems(Lex(text).value); }
  }

  lemma LexLine(x: string, tail: string)
    requires Lex(x).Some?
    ensures Lex(Line(x, tail)) == Pre(Lex(x).value + [Op(Newline)], Lex(tail))
  {
    ScanLines(x, tail, NOTHING, true);
  }

  /** A finished piece and what follows it: the items of both. */
  lemma ItemsCompose(x: string, tail: string)
    requires Items(x).Ok?
    ensures Items(Line(x, tail)) == Extension.Prepend(Items(x).value, Items(tail))
  {
    hide Scan, Grammar.ProgramItems, Line;
    LexLine(x, tail);
    var a := Lex(x).value;
    if Lex(tail).Some? {
      var b := Lex(tail).value;
      assert a + [Op(Newline)] + b == a + ([Op(Newline)] + b);
      Extension.ProgramComposes(a, Op(Newline), b);
    }
  }

  /** A wrong piece spoils everything that starts with it. */
  lemma WrongStays(x: string, tail: string)
    requires Items(x).Fail? && Items(x).error == Grammar.Syntax
    ensures Items(Line(x, tail)).Fail?
  {
    hide Scan, Grammar.ProgramItems, Line;
    LexLine(x, tail);
    var a := Lex(x).value;
    if Lex(tail).Some? {
      var ext := [Op(Newline)] + Lex(tail).value;
      assert a + [Op(Newline)] + Lex(tail).value == a + ext;
      Extension.SyntaxIsFinal(a, ext);
    }
  }

  /** A final newline finishes nothing. */
  lemma OpenStays(x: string)
    requires Items(x).Fail?
    ensures Items(Line(x, "")).Fail?
  {
    hide Scan, Grammar.ProgramItems, Line;
    LineEnd(x);
    if Lex(x).None? {
      ScanOpen(x, NOTHING, true);
    } else {
      LexLine(x, "");
      NoText();
      Extension.UnfinishedStays(Lex(x).value, Op(Newline));
    }
  }

  lemma LineEnd(x: string)
    ensures Line(x, "") == x + "\n"
  {
    assert "\n" + "" == "\n";
  }

  lemma NoText()
    ensures Lex("") == Some([]) && Items("") == Grammar.Ok([], [])
    ensures forall ts: seq<Token> :: Pre(ts, Lex("")) == Some(ts)
  {
    assert Scan("", NOTHING, true) == Some([]);
    assert Grammar.ListLoop([], []) == Grammar.Ok([], []);
    assert forall ts: seq<Token> :: ts + [] == ts;
  }

  // ---- Line by line is the whole ---------------------------------------------------

  /** The text that the buffer and the rest of the input make up. */
  function Full(buf: string, more: bool, rest: string): string {
    if !more then rest else if rest == "" then buf else Line(buf, rest)
  }

  /** Where the next pass leaves the text: `x` is what it looks at. */
  lemma {:induction false} NextPass(buf: string, more: bool, rest: string)
    requires rest != ""
    ensures var x, tail := Joined(buf, more, rest[..LineLen(rest)]), AfterLine(rest);
            Full(buf, more, rest) == (if LineLen(rest) == |rest| then x else Line(x, tail))
    ensures LineLen(rest) == |rest| ==> AfterLine(rest) == ""
  {
    hide LineLen, Line;
    var k := LineLen(rest);
    if k == |rest| {
      assert rest[..k] == rest;
    } else {
      CutLine(rest, k);
      if more { LineInLine(buf, rest[..k], rest[k + 1..]); }
    }
  }

  lemma CutLine(rest: string, k: nat)
    requires k < |rest| && rest[k] == '\n'
    ensures rest == Line(rest[..k], rest[k + 1..])
  {
  }

  lemma LineInLine(a: string, b: string, c: string)
    ensures Line(a, Line(b, c)) == Line(Line(a, b), c)
  {
    assert "\n" + (b + ("\n" + c)) == ("\n" + b) + ("\n" + c);
  }

  /** A read error ends a shell that has come that far with status 1. */
  function AfterRead(broken: bool, r: Res): Res {
    if broken && r.Res? && r.out == Normal then Res(Normal, r.s.(status := 1)) else r
  }

  /** How a run over a text ends: as the whole text's tree does, or, if the text
      is no program, with a syntax or read error, unless an exit came first. */
  ghost predicate Ends(text: string, broken: bool, o: Oracle, p: Place, s: State, fuel: nat, r: Res) {
    var f := Items(text);
    if f.Ok? then r == AfterRead(broken, EvalSeq(o, f.value, p, s, fuel))
    else r.Res? ==> r.out.Exit? || (r.out == Normal && (r.s.status == 2 || (broken && r.s.status == 1)))
  }

  lemma {:induction false} RunsItems(o: Oracle, x: string, p: Place, s: State, fuel: nat)
    requires Items(x).Ok? && p.loops == 0 && p.depth == 0 && EvalLaws.WholeFuncs(s)
    ensures FeedText(x) == Whole(Grammar.Collapse(Items(x).value))
    ensures var r := EvalSeq(o, Items(x).value, p, s, fuel);
            && r == RunTree(o, FeedText(x).tree, p, s, fuel)
            && (r.Res? ==> (r.out == Normal || r.out.Exit?) && EvalLaws.WholeFuncs(r.s))
  {
    hide Eval, EvalSeq, Grammar.Collapse, Grammar.ProgramItems, EvalLaws.Whole, Items, FeedText, EvalLaws.WholeFuncs;
    FeedIsItems(x);
    var nodes := Items(x).value;
    EvalLaws.CollapsedSeq(o, nodes, p, s, fuel);
    if Grammar.Collapse(nodes).Some? {
      TreeWhole(x);
      EvalLaws.TopLevel(o, Grammar.Collapse(nodes).value, p, s, fuel);
    }
  }

  lemma TreeWhole(x: string)
    requires Items(x).Ok? && Grammar.Collapse(Items(x).value).Some?
    ensures EvalLaws.Whole(Grammar.Collapse(Items(x).value).value)
  {
    hide Grammar.ProgramItems, Grammar.Collapse, Grammar.ParseProgram, EvalLaws.Whole, NormalForm.NormalBody, Scan;
    var ts := Lex(x).value;
    Extension.TreeOfItems(ts);
    ParseNormal.ProgramNormal(ts);
    EvalLaws.NormalIsWhole(Grammar.Collapse(Items(x).value).value);
  }

  lemma EndsAtOnce(text: string, broken: bool, o: Oracle, p: Place, s: State, fuel: nat, r: Res)
    requires Items(text).Fail? && r == Res(Normal, s.(status := STATUS_SYNTAX))
    ensures Ends(text, broken, o, p, s, fuel, r)
  {
  }

  /** A whole piece ran; `r` is what the pieces after it do. */
  lemma {:induction false} EndsLater(x: string, tail: string, broken: bool, o: Oracle, p: Place, s: State, fuel: nat,
                                     r0: Res, r: Res)
    requires Items(x).Ok? && r0 == EvalSeq(o, Items(x).value, p, s, fuel)
    requires if r0.Res? && r0.out == Normal then Ends(tail, broken, o, p, r0.s, fuel, r) else r == r0
    requires r0.Res? ==> r0.out == Normal || r0.out.Exit?
    ensures Ends(Line(x, tail), broken, o, p, s, fuel, r)
    ensures tail == "" ==> Ends(x, broken, o, p, s, fuel, r)
  {
    hide Items, EvalSeq, Eval, Line;
    ItemsCompose(x, tail);
    NoText();
    SeqOfNone(o, p, s, fuel, r0);
    if Items(tail).Ok? { EvalLaws.SeqSplits(o, Items(x).value, Items(tail).value, p, s, fuel); }
  }

  lemma {:induction false} SeqOfNone(o: Oracle, p: Place, s: State, fuel: nat, r: Res)
    ensures r.Res? && r.out == Normal ==> EvalSeq(o, [], p, r.s, fuel) == r
  {
  }

  lemma {:induction false} LinesStep(rest: string)
    requires rest != ""
    ensures LinesOf(rest) == [rest[..LineLen(rest)]] + LinesOf(AfterLine(rest))
    ensures LinesOf(rest)[1..] == LinesOf(AfterLine(rest))
    ensures |AfterLine(rest)| < |rest|
  {
    hide LineLen;
  }

  /** One pass of the stream loop. */
  lemma {:induction false} RunStep(o: Oracle, rest: string, broken: bool, buf: string, more: bool, p: Place, s: State,
                                   fuel: nat)
    requires rest != ""
    ensures var line, tail := rest[..LineLen(rest)], LinesOf(AfterLine(rest));
            var x := Joined(buf, more, line);
            var f := FeedText(x);
            RunLines(o, LinesOf(rest), broken, buf, more, p, s, fuel) ==
            if line == "" && !more then RunLines(o, tail, broken, "", false, p, s, fuel)
            else if f.More? then RunLines(o, tail, broken, x, true, p, s, fuel)
            else if f.Wrong? then Res(Normal, s.(status := STATUS_SYNTAX))
            else var r := RunTree(o, f.tree, p, s, fuel);
                 if r.NoFuel? || r.out.Exit? then r else RunLines(o, tail, broken, "", false, p, r.s, fuel)
  {
    hide FeedText, RunTree, LineLen, Joined, AfterLine;
    LinesStep(rest);
  }

  lemma FullAgain(x: string, tail: string)
    ensures Full(x, true, tail) == if tail == "" then x else Line(x, tail)
    ensures Full("", false, tail) == tail
  {
  }

  /** From any point of the loop: the rest of the run does what the text still to
      be run does as a whole. */
  lemma {:induction false} StreamEnds(o: Oracle, rest: string, broken: bool, buf: string, more: bool, p: Place,
                                      s: State, fuel: nat)
    requires p.loops == 0 && p.depth == 0 && EvalLaws.WholeFuncs(s)
    requires more ==> FeedText(buf) == More
    requires !more ==> buf == ""
    ensures Ends(Full(buf, more, rest), broken, o, p, s, fuel,
                 RunLines(o, LinesOf(rest), broken, buf, more, p, s, fuel))
    decreases |rest|
  {
    hide FeedText, Items, Ends, Full, RunTree, EvalSeq, RunLines, Joined, AfterLine, Line, LineLen, EvalLaws.WholeFuncs;
    if rest == "" {
      StreamOver(o, broken, buf, more, p, s, fuel);
    } else {
      var line, tail := rest[..LineLen(rest)], AfterLine(rest);
      var x := Joined(buf, more, line);
      NextPass(buf, more, rest);
      RunStep(o, rest, broken, buf, more, p, s, fuel);
      LinesStep(rest);
      FeedIsItems(x);
      FullAgain(x, tail);
      if FeedText(x).More? {
        BlankIsWhole(line, more, x);
        StreamEnds(o, tail, broken, x, true, p, s, fuel);
        StillOpen(x, tail, broken, o, p, s, fuel, RunLines(o, LinesOf(tail), broken, x, true, p, s, fuel));
      } else if FeedText(x).Wrong? {
        BlankIsWhole(line, more, x);
        WrongStays(x, tail);
        EndsAtOnce(Full(buf, more, rest), broken, o, p, s, fuel, Res(Normal, s.(status := STATUS_SYNTAX)));
      } else {
        RunsItems(o, x, p, s, fuel);
        BlankRunsNothing(line, more, x, o, p, s, fuel);
        var r0 := RunTree(o, FeedText(x).tree, p, s, fuel);
        var r := RunLines(o, LinesOf(rest), broken, buf, more, p, s, fuel);
        if r0.Res? && r0.out == Normal { StreamEnds(o, tail, broken, "", false, p, r0.s, fuel); }
        EndsLater(x, tail, broken, o, p, s, fuel, r0, r);
      }
    }
  }

  lemma {:induction false} StreamOver(o: Oracle, broken: bool, buf: string, more: bool, p: Place, s: State, fuel: nat)
    requires more ==> FeedText(buf) == More
    requires !more ==> buf == ""
    ensures Ends(Full(buf, more, ""), broken, o, p, s, fuel,
                 RunLines(o, LinesOf(""), broken, buf, more, p, s, fuel))
  {
    hide FeedText, Items;
    FeedIsItems(buf);
    NoText();
  }

  lemma BlankIsWhole(line: string, more: bool, x: string)
    requires x == Joined("", more, line) || more
    ensures line == "" && !more ==> FeedText(x).Whole?
  {
    hide FeedText, Items;
    NoText();
    FeedIsItems(x);
  }

  lemma BlankRunsNothing(line: string, more: bool, x: string, o: Oracle, p: Place, s: State, fuel: nat)
    requires x == Joined("", more, line) || more
    ensures line == "" && !more ==> FeedText(x) == Whole(None) && RunTree(o, None, p, s, fuel) == Res(Normal, s)
  {
    hide FeedText, Items;
    NoText();
    FeedIsItems(x);
  }

  lemma StillOpen(x: string, tail: string, broken: bool, o: Oracle, p: Place, s: State, fuel: nat, r: Res)
    requires FeedText(x) == More && Ends(if tail == "" then x else Line(x, tail), broken, o, p, s, fuel, r)
    ensures Ends(Line(x, tail), broken, o, p, s, fuel, r) && (tail == "" ==> Ends(x, broken, o, p, s, fuel, r))
  {
    hide FeedText, Items, Line;
    FeedIsItems(x);
    OpenStays(x);
  }

  /** A script whose whole text parses does the same line by line as in one piece. */
  lemma {:induction false} LineByLine(text: string, o: Oracle, p: Place, s: State, fuel: nat)
    requires p.loops == 0 && p.depth == 0 && EvalLaws.WholeFuncs(s) && FeedText(text).Whole?
    ensures RunLines(o, LinesOf(text), false, "", false, p, s, fuel) == RunTree(o, FeedText(text).tree, p, s, fuel)
  {
    hide FeedText, Items, RunTree, RunLines, EvalSeq, EvalLaws.WholeFuncs, LinesOf;
    FeedIsItems(text);
    StreamEnds(o, text, false, "", false, p, s, fuel);
    FullAgain("", text);
    RunsItems(o, text, p, s, fuel);
  }

  /** A script whose whole text does not parse ends with status 2, unless one of
      the programs at its front exits first. */
  lemma {:induction false} BrokenScript(text: string, o: Oracle, p: Place, s: State, fuel: nat)
    requires p.loops == 0 && p.depth == 0 && EvalLaws.WholeFuncs(s) && !FeedText(text).Whole?
    ensures var r := RunLines(o, LinesOf(text), false, "", false, p, s, fuel);
            r.Res? ==> r.out.Exit? || (r.out == Normal && r.s.status == STATUS_SYNTAX)
  {
    hide FeedText, Items, RunTree, RunLines, EvalSeq, EvalLaws.WholeFuncs, LinesOf;
    FeedIsItems(text);
    StreamEnds(o, text, false, "", false, p, s, fuel);
    FullAgain("", text);
  }

  /** When reading fails, the shell has done what the lines before the failure do as a
      whole, and then ends with status 1; the line it failed in counts for nothing. */
  lemma {:induction false} ReadError(head: string, tail: string, o: Oracle, p: Place, s: State, fuel: nat)
    requires p.loops == 0 && p.depth == 0 && EvalLaws.WholeFuncs(s)
    requires (head == "" || head[|head| - 1] == '\n') && '\n' !in tail
    ensures var r := RunLines(o, LinesRead(head + tail, true), true, "", false, p, s, fuel);
            if FeedText(head).Whole? then r == AfterRead(true, RunTree(o, FeedText(head).tree, p, s, fuel))
            else r.Res? ==> r.out.Exit? || (r.out == Normal && r.s.status in {1, 2})
  {
    hide FeedText, Items, RunTree, RunLines, EvalSeq, EvalLaws.WholeFuncs, LinesOf, LinesRead;
    LinesBefore(head, tail);
    FeedIsItems(head);
    StreamEnds(o, head, true, "", false, p, s, fuel);
    FullAgain("", head);
    if FeedText(head).Whole? { RunsItems(o, head, p, s, fuel); }
  }
}
