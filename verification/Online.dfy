/** What the parser has already decided. Once it stops short of the end, further
    tokens change nothing; and a command that names a redirect slot twice can
    never be mended. */
module Online {
  import opened Tokens
  import opened Ast
  import opened Grammar
  import opened Extension

  /** `>` and `>>` share a slot. */
  function SlotOf(k: Kind): nat {
    if k == RedirIn then 0 else if k == RedirErr then 2 else 1
  }

  /** Reads on through words and redirects; anything else starts over. `hit` says
      whether the stretch has named a slot that was already taken. */
  predicate Doom(taken: set<nat>, hit: bool, ts: Toks)
    decreases |ts|
  {
    if ts == [] then hit
    else if IsRedir(ts[0].kind) then
      Doom(taken + {SlotOf(ts[0].kind)}, hit || SlotOf(ts[0].kind) in taken, ts[1..])
    else if ts[0].kind == Word then Doom(taken, hit, ts[1..])
    else Doom({}, false, ts[1..])
  }

  /** The last stretch of words and redirects names some slot twice. */
  predicate Doomed(ts: Toks) { Doom({}, false, ts) }

  function Moved<T>(r: Result<T>, ext: Toks): Result<T> {
    if r.Ok? then Ok(r.value, r.rest + ext) else Fail(r.error, r.rest + ext)
  }

  /** `r` is what `ts` gave, `r'` what it gives with `ext` behind it. */
  ghost predicate Firm<T>(doomed: bool, r: Result<T>, r': Result<T>, ext: Toks) {
    && (r.Ok? ==> doomed == Doomed(r.rest))
    && (r.rest != [] ==> r' == Moved(r, ext))
    && (r.Fail? && r.rest == [] && doomed ==> r'.Fail?)
  }

  /** The same for what ends with its own closing token. */
  ghost predicate Shut<T>(doomed: bool, r: Result<T>, r': Result<T>, ext: Toks) {
    Firm(doomed, r, r', ext) && (r.Ok? ==> r' == Moved(r, ext))
  }

  // ---- Commands ---------------------------------------------------------------------

  function Taken(c: Command): set<nat> {
    (if c.redirIn.Some? then {0} else {}) + (if c.redirOut.Some? then {1} else {})
    + (if c.redirErr.Some? then {2} else {})
  }

  lemma SetTaken(c: Command, k: Kind, t: Token)
    requires IsRedir(k)
    ensures SetRedir(c, k, t).Some? <==> SlotOf(k) !in Taken(c)
    ensures SetRedir(c, k, t).Some? ==>
              Taken(SetRedir(c, k, t).value) == Taken(c) + {SlotOf(k)} && SetRedir(c, k, t).value.words == c.words
  {
  }

  lemma {:induction false} SimpleFirm(c: Command, ts: Toks, ext: Toks)
    ensures Firm(Doom(Taken(c), false, ts), SimpleLoop(c, ts), SimpleLoop(c, ts + ext), ext)
    decreases |ts|
  {
    hide IsReserved, Taken, SetRedir;
    if ts == [] {
      assert Doomed([]) == false;
    } else if ts[0].kind == Word {
      Shift(ts, 1, ext);
      TakenWords(c, ts[0]);
      if !(c.words == [] && IsReserved(ts[0])) { SimpleFirm(c.(words := c.words + [ts[0]]), ts[1..], ext); }
    } else if !IsRedir(ts[0].kind) {
      Shift(ts, 1, ext);
    } else if |ts| == 1 {
      RedirAtEnd(c, ts, ext);
    } else if ts[1].kind != Word {
      Shift(ts, 2, ext);
      assert (ts + ext)[1..] == ts[1..] + ext;
    } else {
      Shift(ts, 2, ext);
      SetTaken(c, ts[0].kind, ts[1]);
      if SetRedir(c, ts[0].kind, ts[1]).Some? { SimpleFirm(SetRedir(c, ts[0].kind, ts[1]).value, ts[2..], ext); }
    }
  }

  lemma TakenWords(c: Command, t: Token)
    ensures Taken(c.(words := c.words + [t])) == Taken(c)
  {
  }

  lemma {:induction false} DoomOne(taken: set<nat>, ts: Toks)
    requires |ts| == 1 && IsRedir(ts[0].kind)
    ensures Doom(taken, false, ts) <==> SlotOf(ts[0].kind) in taken
  {
    assert Doom(taken + {SlotOf(ts[0].kind)}, SlotOf(ts[0].kind) in taken, ts[1..])
           == (SlotOf(ts[0].kind) in taken);
  }

  lemma {:induction false} RedirAtEnd(c: Command, ts: Toks, ext: Toks)
    requires |ts| == 1 && IsRedir(ts[0].kind)
    ensures Doom(Taken(c), false, ts) ==> SimpleLoop(c, ts + ext).Fail?
  {
    hide Taken, SetRedir;
    var u := ts + ext;
    assert ts[1..] == [] && u[0] == ts[0];
    DoomOne(Taken(c), ts);
    if Doom(Taken(c), false, ts) {
      if |u| > 1 {
        SetTaken(c, ts[0].kind, u[1]);
      } else {
        assert u[1..] == [];
      }
    }
  }

  // ---- Pipelines and chains ----------------------------------------------------------------

  lemma {:induction false} DoomedNl(ts: Toks)
    ensures Doomed(ts) == Doomed(SkipNl(ts))
    decreases |ts|
  {
    if AtKind(ts, Newline) { DoomedNl(ts[1..]); }
  }

  lemma {:induction false} DoomedSeps(ts: Toks)
    ensures Doomed(ts) == Doomed(SkipSeps(ts))
    decreases |ts|
  {
    if AtSep(ts) { DoomedSeps(ts[1..]); }
  }

  /** A word changes nothing, an operator that is no redirect starts over. */
  lemma DoomedNext(ts: Toks)
    requires ts != [] && !IsRedir(ts[0].kind)
    ensures Doomed(ts) == Doomed(ts[1..])
  {
  }

  lemma NotDoomed()
    ensures !Doomed([])
  {
  }

  lemma {:induction false} PipeFirm(cmds: seq<Command>, ts: Toks, ext: Toks)
    ensures Firm(Doomed(ts), PipeLoop(cmds, ts), PipeLoop(cmds, ts + ext), ext)
    decreases |ts|
  {
    hide SimpleLoop, Doomed;
    SimpleFirm(NO_COMMAND, ts, ext);
    FreshStart(ts);
    NotDoomed();
    var r := SimpleLoop(NO_COMMAND, ts);
    if r.Ok? && r.rest != [] {
      Shift(r.rest, 1, ext);
      if AtKind(r.rest, Pipe) {
        DoomedNext(r.rest);
        DoomedNl(r.rest[1..]);
        if SkipNl(r.rest[1..]) != [] {
          SkipNlMore(r.rest[1..], ext);
          PipeFirm(cmds + [r.value], SkipNl(r.rest[1..]), ext);
        }
      }
    }
  }

  lemma {:induction false} FreshStart(ts: Toks)
    ensures Doom(Taken(NO_COMMAND), false, ts) == Doomed(ts)
  {
  }

  lemma LinkFirm(op: AndOrOp, ts: Toks, ext: Toks)
    requires ts != []
    ensures Firm(Doomed(ts), Link(op, ts), Link(op, ts + ext), ext)
  {
    hide PipeLoop, IsKw, Doomed;
    Shift(ts, 1, ext);
    NotDoomed();
    if AtKw(ts, "!") {
      BangIsWord(ts);
      DoomedNext(ts);
      PipeFirm([], ts[1..], ext);
    } else {
      PipeFirm([], ts, ext);
    }
  }

  lemma BangIsWord(ts: Toks)
    requires AtKw(ts, "!")
    ensures ts[0].kind == Word
  {
  }

  lemma {:induction false} AndOrFirm(items: seq<AndOrItem>, op: AndOrOp, ts: Toks, ext: Toks)
    requires ts != []
    ensures Firm(Doomed(ts), AndOrLoop(items, op, ts), AndOrLoop(items, op, ts + ext), ext)
    decreases |ts|
  {
    hide Link, AndOrLoop, Doomed;
    LinkFirm(op, ts, ext);
    NotDoomed();
    AndOrUnfold(items, op, ts);
    AndOrUnfold(items, op, ts + ext);
    var r := Link(op, ts);
    if r.Ok? && r.rest != [] {
      Shift(r.rest, 1, ext);
      if AtKind(r.rest, AndIf) || AtKind(r.rest, OrIf) {
        DoomedNext(r.rest);
        DoomedNl(r.rest[1..]);
        if SkipNl(r.rest[1..]) != [] {
          SkipNlMore(r.rest[1..], ext);
          AndOrFirm(items + [r.value], if AtKind(r.rest, AndIf) then And else Or, SkipNl(r.rest[1..]), ext);
        }
      }
    }
  }

  // ---- Lists and compounds ---------------------------------------------------------------------

  lemma {:induction false} ListFirm(nodes: seq<Node>, ts: Toks, ext: Toks)
    ensures Firm(Doomed(ts), ListLoop(nodes, ts), ListLoop(nodes, ts + ext), ext)
    decreases |ts|, 6
  {
    hide IsEnder, Listed, Doomed;
    SkipSepsMore(ts, ext);
    DoomedSeps(ts);
    NotDoomed();
    var ts0 := SkipSeps(ts);
    if ts0 != [] {
      Shift(ts0, 1, ext);
      SkipSepsAt(ts0 + ext);
      ListFromSeps(nodes, ts + ext, ts0 + ext);
      if !AtEnder(ts0) {
        ListedFirm(ts0, ext);
        var r := Listed(ts0);
        if r.Ok? {
          ListFirm(nodes + [r.value], r.rest, ext);
          ListOfNothing(nodes + [r.value]);
        }
      }
    }
  }

  lemma {:induction false} ListOfNothing(nodes: seq<Node>)
    ensures ListLoop(nodes, []) == Ok(nodes, [])
  {
  }

  lemma {:induction false} ListedFirm(ts: Toks, ext: Toks)
    requires ts != [] && !AtEnder(ts)
    ensures Firm(Doomed(ts), Listed(ts), Listed(ts + ext), ext)
    decreases |ts|, 5
  {
    hide IsEnder, ParseItem, Doomed;
    ItemFirm(ts, ext);
    NotDoomed();
    var r := ParseItem(ts);
    if r.Ok? && r.rest != [] {
      Shift(r.rest, 1, ext);
      if AtKind(r.rest, Amp) { DoomedNext(r.rest); }
    }
  }

  lemma {:induction false} BodyFirm(ts: Toks, ext: Toks)
    ensures Firm(Doomed(ts), ParseBody(ts), ParseBody(ts + ext), ext)
    decreases |ts|, 7
  {
    hide ListLoop, Doomed;
    NotDoomed();
    ListFirm([], ts, ext);
  }

  lemma ExpectFirm(ts: Toks, kw: string, ext: Toks)
    requires ts != []
    ensures Shut(Doomed(ts), Expect(ts, kw), Expect(ts + ext, kw), ext)
    ensures Expect(ts, kw).rest == [] ==> Expect(ts, kw).Ok?
  {
    hide Doomed;
    Shift(ts, 1, ext);
    if AtKw(ts, kw) { DoomedNext(ts); }
  }

  lemma {:induction false} ClosedFirm(ts: Toks, kw: string, ext: Toks)
    ensures Shut(Doomed(ts), Closed(ts, kw), Closed(ts + ext, kw), ext)
    decreases |ts|, 8
  {
    hide ParseBody, Expect, Doomed;
    NotDoomed();
    BodyFirm(ts, ext);
    var r := ParseBody(ts);
    if r.Ok? && r.rest != [] { ExpectFirm(r.rest, kw, ext); }
    if r.Ok? && r.rest == [] { ExpectNothing(kw); }
  }

  lemma ExpectNothing(kw: string)
    ensures Expect([], kw) == Fail(Incomplete, [])
  {
  }

  lemma {:induction false} BlockFirm(ts: Toks, open: string, close: string, ext: Toks)
    ensures Shut(Doomed(ts), Block(ts, open, close), Block(ts + ext, open, close), ext)
    decreases |ts|, 9
  {
    hide Closed, Expect, Doomed;
    NotDoomed();
    DoomedNl(ts);
    if SkipNl(ts) != [] {
      SkipNlMore(ts, ext);
      ExpectFirm(SkipNl(ts), open, ext);
      var t := Expect(SkipNl(ts), open);
      if t.Ok? { ClosedFirm(t.rest, close, ext); }
    } else {
      ExpectNothing(open);
    }
  }

  lemma {:induction false} ArmFirm(ts: Toks, ext: Toks)
    ensures Firm(Doomed(ts), Arm(ts), Arm(ts + ext), ext)
    decreases |ts|, 9
  {
    hide Closed, ParseBody, Doomed;
    ClosedFirm(ts, "then", ext);
    var c := Closed(ts, "then");
    if c.Ok? { BodyFirm(c.rest, ext); }
  }

  lemma {:induction false} IfEndFirm(cs: seq<Node>, bs: seq<Node>, ts: Toks, ext: Toks)
    requires ts != []
    ensures Shut(Doomed(ts), IfEnd(cs, bs, ts), IfEnd(cs, bs, ts + ext), ext)
    decreases |ts|, 9
  {
    hide Closed, Expect, Doomed, IsKw;
    Shift(ts, 1, ext);
    if AtKw(ts, "else") {
      WordsAreWords(ts, "else");
      DoomedNext(ts);
      ClosedFirm(ts[1..], "fi", ext);
    } else {
      ExpectFirm(ts, "fi", ext);
    }
  }

  lemma WordsAreWords(ts: Toks, kw: string)
    requires AtKw(ts, kw)
    ensures ts[0].kind == Word
  {
  }

  lemma {:induction false} IfFirm(cs: seq<Node>, bs: seq<Node>, ts: Toks, ext: Toks)
    ensures Shut(Doomed(ts), IfLoop(cs, bs, ts), IfLoop(cs, bs, ts + ext), ext)
    decreases |ts|, 10
  {
    hide Arm, IfEnd, IsKw, Doomed;
    NotDoomed();
    ArmFirm(ts, ext);
    var a := Arm(ts);
    if a.Ok? && a.rest == [] {
      IfAtEnd(cs + [a.value.0], bs + [a.value.1]);
    } else if a.Ok? {
      Shift(a.rest, 1, ext);
      if AtKw(a.rest, "elif") {
        WordsAreWords(a.rest, "elif");
        DoomedNext(a.rest);
        IfFirm(cs + [a.value.0], bs + [a.value.1], a.rest[1..], ext);
      } else {
        IfEndFirm(cs + [a.value.0], bs + [a.value.1], a.rest, ext);
      }
    }
  }

  lemma {:induction false} WhileFirm(ts: Toks, ext: Toks)
    requires ts != [] && ts[0].kind == Word
    ensures Shut(Doomed(ts), ParseWhile(ts), ParseWhile(ts + ext), ext)
    decreases |ts|, 3
  {
    hide Closed, Doomed;
    Shift(ts, 1, ext);
    DoomedNext(ts);
    ClosedFirm(ts[1..], "do", ext);
    var c := Closed(ts[1..], "do");
    if c.Ok? { ClosedFirm(c.rest, "done", ext); }
  }

  lemma {:induction false} ForWordsFirm(acc: Toks, ts: Toks, ext: Toks)
    ensures Doomed(ts) == Doomed(ForWords(acc, ts).1)
    ensures ForWords(acc, ts).1 != [] ==> ForWords(acc, ts + ext) == (ForWords(acc, ts).0, ForWords(acc, ts).1 + ext)
    decreases |ts|
  {
    if ts != [] {
      Shift(ts, 1, ext);
      if AtKind(ts, Word) {
        DoomedNext(ts);
        ForWordsFirm(acc + [ts[0]], ts[1..], ext);
      }
    }
  }

  lemma ForListFirm(ts: Toks, ext: Toks)
    ensures Shut(Doomed(ts), ForList(ts), ForList(ts + ext), ext)
  {
    hide ForWords, Doomed;
    NotDoomed();
    ForWordsFirm([], ts, ext);
    var ts1 := ForWords([], ts).1;
    if ts1 != [] {
      Shift(ts1, 1, ext);
      if AtSep(ts1) { DoomedNext(ts1); }
    }
  }

  lemma {:induction false} ForTailFirm(name: string, ts: Toks, ext: Toks)
    ensures Shut(Doomed(ts), ForTail(name, ts), ForTail(name, ts + ext), ext)
    decreases |ts|, 10
  {
    hide Block, ForList, Doomed;
    ForListFirm(ts, ext);
    var r := ForList(ts);
    if r.Ok? { BlockFirm(r.rest, "do", "done", ext); }
  }

  lemma NameIsWord(t: Token)
    requires NameOf(t).Some?
    ensures t.kind == Word
  {
  }

  lemma {:induction false} ForFirm(ts: Toks, ext: Toks)
    requires ts != [] && ts[0].kind == Word
    ensures Shut(Doomed(ts), ParseFor(ts), ParseFor(ts + ext), ext)
    decreases |ts|, 3
  {
    hide ParseFor, NameOf, ForTail, Expect, Doomed;
    NotDoomed();
    ForUnfold(ts);
    ForUnfold(ts + ext);
    DoomedNext(ts);
    if |ts| > 1 {
      Shift(ts, 1, ext);
      Shift(ts, 2, ext);
      if NameOf(ts[1]).Some? {
        NameIsWord(ts[1]);
        DoomedNext(ts[1..]);
        DoomedNl(ts[2..]);
        assert ts[1..][1..] == ts[2..];
        if SkipNl(ts[2..]) != [] {
          SkipNlMore(ts[2..], ext);
          ExpectFirm(SkipNl(ts[2..]), "in", ext);
          var t := Expect(SkipNl(ts[2..]), "in");
          if t.Ok? { ForTailFirm(NameOf(ts[1]).value, t.rest, ext); }
        } else {
          ExpectNothing("in");
        }
      }
    } else {
      assert ts[1..] == [];
    }
  }

  lemma {:induction false} FuncFirm(ts: Toks, ext: Toks)
    requires |ts| > 1 && ts[0].kind == Word && ts[1].kind == LParen
    ensures Shut(Doomed(ts), ParseFuncDef(ts), ParseFuncDef(ts + ext), ext)
    decreases |ts|, 3
  {
    hide Block, NameOf, Doomed;
    NotDoomed();
    DoomedNext(ts);
    DoomedNext(ts[1..]);
    assert ts[1..][1..] == ts[2..];
    if |ts| > 2 {
      Shift(ts, 2, ext);
      Shift(ts, 3, ext);
      if NameOf(ts[0]).Some? && ts[2].kind == RParen {
        DoomedNext(ts[2..]);
        assert ts[2..][1..] == ts[3..];
        BlockFirm(ts[3..], "{", "}", ext);
      }
    } else {
      assert ts[2..] == [];
    }
  }

  /** A lone word may turn out to name a function; a lone `{` may not. */
  lemma {:induction false} LoneWord(ts: Toks, ext: Toks)
    requires |ts| == 1 && ts[0].kind == Word && !AtEnder(ts)
    requires !AtKw(ts, "if") && !AtKw(ts, "while") && !AtKw(ts, "for")
    ensures ParseItem(ts).rest == []
            || (ParseItem(ts) == Fail(Syntax, ts) && ParseItem(ts + ext) == Fail(Syntax, ts + ext))
    ensures !Doomed(ts)
  {
    hide ParseFuncDef, ParseFor, ParseWhile, ParseIf, IsKw, IsEnder, ParseAndOr, ParseItem, Doomed;
    assert ts[1..] == [];
    NotDoomed();
    DoomedNext(ts);
    if AtKw(ts, "{") { LoneBrace(ts, ext); } else { LoneName(ts); }
  }

  lemma {:induction false} LoneName(ts: Toks)
    requires |ts| == 1 && ts[0].kind == Word && !AtEnder(ts)
    requires !AtKw(ts, "if") && !AtKw(ts, "while") && !AtKw(ts, "for") && !AtKw(ts, "{")
    ensures ParseItem(ts).rest == []
  {
    hide ParseFuncDef, ParseFor, ParseWhile, ParseIf, IsKw, IsEnder;
    assert ts[1..] == [];
    if !AtKw(ts, "!") {
      var c := NO_COMMAND.(words := [] + [ts[0]]);
      assert SimpleLoop(NO_COMMAND, ts) == SimpleLoop(c, []);
    }
  }

  lemma BraceNoName(t: Token)
    requires IsKw(t, "{")
    ensures NameOf(t).None? && IsReserved(t) && !IsKw(t, "!")
    ensures !IsKw(t, "if") && !IsKw(t, "while") && !IsKw(t, "for")
  {
    var name := t.segs[0].text;
    assert !NameChar(name[0], true);
  }

  lemma {:induction false} LoneBrace(ts: Toks, ext: Toks)
    requires |ts| == 1 && AtKw(ts, "{")
    ensures ParseItem(ts) == Fail(Syntax, ts) && ParseItem(ts + ext) == Fail(Syntax, ts + ext)
  {
    hide ParseFor, ParseWhile, ParseIf, Block, IsKw, IsReserved, NameOf;
    assert (ts + ext)[0] == ts[0];
    BraceNoName(ts[0]);
    BraceFails(ts);
    BraceFails(ts + ext);
  }

  lemma {:induction false} BraceFails(u: Toks)
    requires AtKw(u, "{") && NameOf(u[0]).None? && IsReserved(u[0]) && !AtKw(u, "!")
    ensures ParseAndOr(u) == Fail(Syntax, u) && (|u| > 1 ==> ParseFuncDef(u) == Fail(Syntax, u))
  {
    hide Block, NameOf, IsReserved;
    WordsAreWords(u, "{");
    assert SimpleLoop(NO_COMMAND, u) == Fail(Syntax, u);
    assert PipeLoop([], u) == Fail(Syntax, u);
    assert Link(First, u) == Fail(Syntax, u);
  }

  lemma {:induction false} ItemFirm(ts: Toks, ext: Toks)
    requires ts != [] && !AtEnder(ts)
    ensures Firm(Doomed(ts), ParseItem(ts), ParseItem(ts + ext), ext)
    decreases |ts|, 4
  {
    hide IsKw, IsEnder, IfLoop, ParseFor, ParseWhile, ParseFuncDef, AndOrLoop, Doomed;
    Shift(ts, 1, ext);
    if AtKw(ts, "if") {
      WordsAreWords(ts, "if");
      DoomedNext(ts);
      IfFirm([], [], ts[1..], ext);
    } else if AtKw(ts, "while") {
      WordsAreWords(ts, "while");
      WhileFirm(ts, ext);
    } else if AtKw(ts, "for") {
      WordsAreWords(ts, "for");
      ForFirm(ts, ext);
    } else if AtKind(ts, Word) && |ts| > 1 && ts[1].kind == LParen {
      FuncFirm(ts, ext);
    } else if AtKind(ts, Word) && |ts| == 1 {
      LoneWord(ts, ext);
      AndOrFirm([], First, ts, ext);
      NotDoomed();
    } else {
      AndOrFirm([], First, ts, ext);
    }
  }

  /** Whatever is appended, a program the parser rejected before its end stays
      rejected, and so does one whose last command names a slot twice. */
  lemma RejectedForGood(ts: Toks, ext: Toks)
    requires ProgramItems(ts).Fail? && (ProgramItems(ts).rest != [] || Doomed(ts))
    ensures ProgramItems(ts + ext).Fail?
  {
    hide ListLoop, Doomed;
    NotDoomed();
    ListFirm([], ts, ext);
  }
}
