/** The stream driver as it runs: lines are read, gathered until they make a
    program, and run on the shell. */
module Accumulator {
  import opened Options
  import opened Ast
  import opened EvalSpec
  import opened LexSpec
  import opened Lines
  import opened LineSpec
  import opened Evaluator
  import Grammar
  import Lexer
  import Parser
  import EvalLaws

  /** A line, the end of the input, or a failure to read. */
  datatype Reading = Got(line: string) | AtEnd | Failed

  /** An open file, read a line at a time. If it is broken, reading fails after
      the text instead of reaching the end. */
  class Input {
    const text: string
    const broken: bool
    var pos: nat

    constructor (t: string, fails: bool)
      ensures Valid() && Rest() == t && broken == fails
    {
      text, broken, pos := t, fails, 0;
    }

    ghost predicate Valid()
      reads this
    {
      pos <= |text|
    }

    ghost function Rest(): string
      requires Valid()
      reads this
    {
      text[pos..]
    }

    /** The lines still to come. */
    ghost function Lines(): seq<string>
      requires Valid()
      reads this
    {
      LinesRead(Rest(), broken)
    }

    /** The next line without its newline, which the last line need not have. A line
        that reading breaks off in is lost. */
    method LineRead() returns (r: Reading)
      requires Valid()
      modifies this`pos
      ensures Valid()
      ensures old(Lines()) == [] ==> r == (if broken then Failed else AtEnd) && Lines() == []
      ensures old(Lines()) != [] ==> r == Got(old(Lines())[0]) && Lines() == old(Lines())[1..]
      ensures r.Got? ==> |Rest()| < |old(Rest())|
    {
      hide LineLen;
      ghost var rest := Rest();
      var out := "";
      var any := false;
      while true
        invariant Valid() && old(pos) <= pos && any == (pos > old(pos))
        invariant out == text[old(pos)..pos] && '\n' !in out
        decreases |text| - pos
      {
        if pos == |text| {
          assert rest[..|out|] == out == rest;
          LineLenIs(rest, |out|);
          return if broken then Failed else if any then Got(out) else AtEnd;
        }
        var c := text[pos];
        pos := pos + 1;
        any := true;
        if c == '\n' {
          assert rest[|out|] == c && rest[..|out|] == out && rest[|out| + 1..] == Rest();
          LineLenIs(rest, |out|);
          return Got(out);
        }
        out := out + [c];
      }
    }
  }

  datatype FeedResult = FeedMore | FeedRan | FeedBad

  /** One attempt at the text gathered so far: it is run only if it is a program. */
  method FeedShell(sh: Shell, text: string, fuel: nat) returns (v: FeedResult, err: Err)
    requires sh.Valid() && sh.Clean()
    modifies sh, sh.table
    ensures sh.Valid() && sh.Here() == old(sh.Here())
    ensures FeedText(text).More? ==> v == FeedMore
    ensures FeedText(text).Wrong? ==> v == FeedBad
    ensures !FeedText(text).Whole? ==> sh.Now() == old(sh.Now()) && sh.Clean()
    ensures FeedText(text).Whole? ==>
              && v == FeedRan
              && sh.Agrees(RunTree(sh.oracle, FeedText(text).tree, old(sh.Here()), old(sh.Now()), fuel), err)
  {
    hide Scan, Grammar.ParseProgram, Eval;
    err := Fine;
    var ts := Lexer.LexerScan(text);
    if ts.None? {
      return FeedMore, Fine;
    }
    var parser := new Parser.Parser(ts.value);
    var r := parser.ParseAll();
    match r {
      case Bad(e) =>
        return if e == Grammar.Incomplete then FeedMore else FeedBad, Fine;
      case Done(tree) =>
        v := FeedRan;
        if tree.Some? { err := sh.EvalNode(tree.value, fuel); }
    }
  }

  /** After a program run outside loops and functions, only an exit is pending. */
  lemma OnlyExit(o: Oracle, tree: Option<Node>, p: Place, s: State, fuel: nat)
    requires p.loops == 0 && p.depth == 0
    ensures var r := RunTree(o, tree, p, s, fuel);
            r.Res? ==> r.out == Normal || r.out.Exit? || r.out == Invalid
  {
    hide Eval;
    if tree.Some? { EvalLaws.EvalSane(o, tree.value, p, s, fuel); }
  }

  /** One pass of the stream loop. */
  lemma {:induction false} Pass(o: Oracle, lines: seq<string>, broken: bool, buf: string, more: bool, p: Place,
                                s: State, fuel: nat)
    ensures lines == [] ==>
              RunLines(o, lines, broken, buf, more, p, s, fuel)
              == Res(Normal, if broken then s.(status := STATUS_READ)
                             else if more then s.(status := STATUS_SYNTAX) else s)
    ensures lines != [] ==>
              var line, tail := lines[0], lines[1..];
              var x := Joined(buf, more, line);
              var f := FeedText(x);
              RunLines(o, lines, broken, buf, more, p, s, fuel) ==
              if line == "" && !more then RunLines(o, tail, broken, "", false, p, s, fuel)
              else if f.More? then RunLines(o, tail, broken, x, true, p, s, fuel)
              else if f.Wrong? then Res(Normal, s.(status := STATUS_SYNTAX))
              else var r := RunTree(o, f.tree, p, s, fuel);
                   if r.NoFuel? || r.out.Exit? then r else RunLines(o, tail, broken, "", false, p, r.s, fuel)
  {
    hide FeedText, RunTree, Joined;
  }

  /** Runs a stream to its end, a read error, an exit or its first syntax error. */
  method RunStream(sh: Shell, input: Input, fuel: nat) returns (err: Err)
    requires sh.Valid() && sh.Clean() && sh.loopDepth == 0 && sh.funcDepth == 0 && input.Valid()
    modifies sh, sh.table, input`pos
    ensures sh.Valid() && sh.Here() == old(sh.Here())
    ensures sh.Agrees(RunLines(sh.oracle, old(input.Lines()), input.broken, "", false,
                               old(sh.Here()), old(sh.Now()), fuel), err)
  {
    hide RunLines, RunTree, FeedText, LinesRead, Joined, Input.Lines;
    ghost var p := sh.Here();
    ghost var all := RunLines(sh.oracle, input.Lines(), input.broken, "", false, p, sh.Now(), fuel);
    var buf, more := "", false;
    err := Fine;
    while true
      invariant sh.Valid() && sh.Clean() && sh.Here() == p && input.Valid() && (!more ==> buf == "")
      invariant all == RunLines(sh.oracle, input.Lines(), input.broken, buf, more, p, sh.Now(), fuel)
      decreases |input.Rest()|
    {
      Pass(sh.oracle, input.Lines(), input.broken, buf, more, p, sh.Now(), fuel);
      var read := input.LineRead();
      if read.AtEnd? {
        if more { sh.lastStatus := STATUS_SYNTAX; }
        return Fine;
      }
      if read.Failed? {
        sh.lastStatus := STATUS_READ;
        return Fine;
      }
      if read.line == "" && !more {
        continue;
      }
      buf := Append(buf, more, read.line);
      ghost var s := sh.Now();
      var v;
      v, err := FeedShell(sh, buf, fuel);
      if v == FeedMore {
        more := true;
        continue;
      }
      if v == FeedBad {
        sh.lastStatus := STATUS_SYNTAX;
        return Fine;
      }
      OnlyExit(sh.oracle, FeedText(buf).tree, p, s, fuel);
      if err == Cut {
        return;
      }
      buf, more := "", false;
      if sh.wantExit {
        return Fine;
      }
    }
  }

  method Append(buf: string, more: bool, line: string) returns (text: string)
    requires !more ==> buf == ""
    ensures text == Joined(buf, more, line)
  {
    text := buf;
    if more { text := text + "\n"; }
    text := text + line;
    assert buf + "\n" + line == buf + ("\n" + line);
  }
}
