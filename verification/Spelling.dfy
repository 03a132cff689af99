/** Tokens as people write them: bare text, escapes and quotes side by side, with
    blanks, operators, comments and newlines around words. A text scans exactly when
    it is written so, and then to the tokens that were meant. */
module Spelling {
  import opened Options
  import opened Tokens
  import opened LexSpec
  import opened LexRoundTrip

  // ---- Words --------------------------------------------------------------------------

  /** One stretch of a word, by the way it is written. `Slash` is a backslash with
      nothing left on the line to escape. */
  datatype Piece =
    | Plain(text: string) | Escaped(text: string) | Slash
    | Literal(text: string) | Expandable(text: string, raw: string)

  /** Characters that stand for themselves outside quotes. */
  predicate Ordinary(c: char) { c !in " \t\n'\"\\><|&;()" }

  /** Between double quotes `raw` stands for `text`. */
  predicate Written(raw: string, text: string) {
    if raw == "" then text == ""
    else if raw[0] == '\\' && |raw| > 1 && raw[1] in "$\"\\`" then
      text != "" && text[0] == raw[1] && Written(raw[2..], text[1..])
    else
      text != "" && text[0] == raw[0] && raw[0] != '"' && (raw[0] == '\\' ==> |raw| > 1) && Written(raw[1..], text[1..])
  }

  predicate PieceOk(p: Piece) {
    match p
    case Plain(t) => t != "" && forall i | 0 <= i < |t| :: Ordinary(t[i])
    case Escaped(t) => t != "" && '\n' !in t
    case Slash => true
    case Literal(t) => '\'' !in t
    case Expandable(t, raw) => Written(raw, t)
  }

  function Backslashed(t: string): string {
    if t == "" then "" else "\\" + [t[0]] + Backslashed(t[1..])
  }

  function PieceText(p: Piece): string {
    match p
    case Plain(t) => t
    case Escaped(t) => Backslashed(t)
    case Slash => "\\"
    case Literal(t) => "'" + t + "'"
    case Expandable(_, raw) => "\"" + raw + "\""
  }

  function WordText(ps: seq<Piece>): string {
    if ps == [] then "" else PieceText(ps[0]) + WordText(ps[1..])
  }

  /** Bare text is one expandable segment, if there is any. */
  function BareSeg(bare: string): seq<Seg> { if bare == "" then [] else [Seg(bare, true)] }

  /** The segments of a word: what is bare runs together, quotes stay apart. */
  function Meaning(bare: string, ps: seq<Piece>): seq<Seg>
    decreases ps
  {
    if ps == [] then BareSeg(bare)
    else match ps[0]
      case Plain(t) => Meaning(bare + t, ps[1..])
      case Escaped(t) => Meaning(bare + t, ps[1..])
      case Slash => Meaning(bare + "\\", ps[1..])
      case Literal(t) => BareSeg(bare) + [Seg(t, false)] + Meaning("", ps[1..])
      case Expandable(t, _) => BareSeg(bare) + [Seg(t, true)] + Meaning("", ps[1..])
  }

  predicate LineEnds(rest: string) { rest == "" || rest[0] == '\n' }

  /** What may follow a word: nothing, or something that ends it. */
  predicate Boundary(rest: string) { rest == "" || rest[0] in " \t\n><|&;()" }

  predicate PiecesOk(ps: seq<Piece>, rest: string) {
    ps != [] ==> PieceOk(ps[0]) && (ps[0].Slash? ==> ps == [Slash] && LineEnds(rest)) && PiecesOk(ps[1..], rest)
  }

  /** A word starts neither a comment nor the operator `2>`. */
  predicate StartsWord(ps: seq<Piece>, rest: string) {
    ps != [] && ps[0].Plain? && ps[0].text != "" ==>
      ps[0].text[0] != '#' && !(ps == [Plain("2")] && rest != "" && rest[0] == '>')
  }

  /** What a quoted stretch makes of the word so far. */
  function AfterQuotes(w: Pending, text: string, expand: bool): Pending {
    Pending(w.segs + BareSeg(w.cur) + [Seg(text, expand)], "")
  }

  /** The word under construction after some pieces of it. */
  function After(w: Pending, ps: seq<Piece>): Pending
    decreases ps
  {
    if ps == [] then w
    else match ps[0]
      case Plain(t) => After(w.(cur := w.cur + t), ps[1..])
      case Escaped(t) => After(w.(cur := w.cur + t), ps[1..])
      case Slash => After(w.(cur := w.cur + "\\"), ps[1..])
      case Literal(t) => After(AfterQuotes(w, t, false), ps[1..])
      case Expandable(t, _) => After(AfterQuotes(w, t, true), ps[1..])
  }

  lemma {:induction false} AfterMeans(w: Pending, ps: seq<Piece>)
    ensures Flush(After(w, ps)).segs == w.segs + Meaning(w.cur, ps)
    decreases ps
  {
    if ps != [] {
      match ps[0]
      case Plain(t) => AfterMeans(w.(cur := w.cur + t), ps[1..]);
      case Escaped(t) => AfterMeans(w.(cur := w.cur + t), ps[1..]);
      case Slash => AfterMeans(w.(cur := w.cur + "\\"), ps[1..]);
      case Literal(t) => AfterMeans(AfterQuotes(w, t, false), ps[1..]);
      case Expandable(t, _) => AfterMeans(AfterQuotes(w, t, true), ps[1..]);
    }
  }

  // ---- Reading a word -----------------------------------------------------------------------

  lemma OrdinaryIs(c: char)
    ensures Ordinary(c) ==> !IsBlank(c) && c != '\n' && !IsOpChar(c) && c != '\'' && c != '"' && c != '\\'
    ensures !Ordinary(c) ==> c in " \t\n><|&;()" || c == '\'' || c == '"' || c == '\\'
  {
  }

  lemma {:induction false} PlainRead(t: string, rest: string, w: Pending, start: bool)
    requires forall i | 0 <= i < |t| :: Ordinary(t[i])
    requires start && t != "" ==> t[0] != '#' && !(t == "2" && rest != "" && rest[0] == '>')
    ensures Scan(t + rest, w, start) == Scan(rest, w.(cur := w.cur + t), start && t == "")
    decreases |t|
  {
    hide SkipComment, OpAt, EscapeLen, Single, Double, Ordinary;
    var s := t + rest;
    if t == "" {
      assert s == rest && w.cur + t == w.cur;
    } else {
      assert Ordinary(t[0]) && s[0] == t[0] && s[1..] == t[1..] + rest;
      OrdinaryIs(t[0]);
      if |t| > 1 {
        assert Ordinary(t[1]) && s[1] == t[1];
        OrdinaryIs(t[1]);
      } else {
        assert s[1..] == rest;
      }
      if start && t[0] == '2' { NotGreater(t, rest); }
      PlainRead(t[1..], rest, w.(cur := w.cur + [t[0]]), false);
      assert w.cur + [t[0]] + t[1..] == w.cur + t;
    }
  }

  lemma NotGreater(t: string, rest: string)
    requires t != "" && (|t| > 1 ==> t[1] != '>') && !(t == "2" && rest != "" && rest[0] == '>') && t[0] == '2'
    ensures var s := t + rest; !(|s| > 1 && s[1] == '>')
  {
    if |t| == 1 { assert t == "2"; }
  }

  lemma {:induction false} EscapedRead(t: string, rest: string, w: Pending, start: bool)
    requires '\n' !in t
    ensures Scan(Backslashed(t) + rest, w, start) == Scan(rest, w.(cur := w.cur + t), start && t == "")
    decreases |t|
  {
    hide SkipComment, OpAt, Single, Double;
    var s := Backslashed(t) + rest;
    if t == "" {
      assert s == rest && w.cur + t == w.cur;
    } else {
      assert s == ['\\', t[0]] + (Backslashed(t[1..]) + rest);
      assert s[2..] == Backslashed(t[1..]) + rest;
      EscapedRead(t[1..], rest, w.(cur := w.cur + [t[0]]), false);
      assert w.cur + [t[0]] + t[1..] == w.cur + t;
    }
  }

  lemma {:induction false} SlashRead(rest: string, w: Pending, start: bool)
    requires LineEnds(rest)
    ensures Scan("\\" + rest, w, start) == Scan(rest, w.(cur := w.cur + "\\"), false)
  {
    assert ("\\" + rest)[1..] == rest;
  }

  lemma {:induction false} RawRead(raw: string, text: string, rest: string)
    requires Written(raw, text)
    ensures Double(raw + ("\"" + rest)) == Some((text, rest))
    decreases |raw|
  {
    var s := raw + ("\"" + rest);
    if raw == "" {
      assert s == "\"" + rest && s[1..] == rest;
    } else if raw[0] == '\\' && |raw| > 1 && raw[1] in "$\"\\`" {
      assert s[1] == raw[1] && s[2..] == raw[2..] + ("\"" + rest);
      RawRead(raw[2..], text[1..], rest);
      assert [text[0]] + text[1..] == text;
    } else {
      assert |raw| > 1 ==> s[1] == raw[1];
      assert s[1..] == raw[1..] + ("\"" + rest);
      RawRead(raw[1..], text[1..], rest);
      assert [text[0]] + text[1..] == text;
    }
  }

  lemma AfterQuotesIs(w: Pending, text: string, expand: bool)
    ensures AfterQuotes(w, text, expand) == Quoted(w, text, expand)
  {
    assert Flush(w).segs == w.segs + BareSeg(w.cur);
  }

  lemma {:induction false} ExpandableRead(text: string, raw: string, rest: string, w: Pending, start: bool)
    requires Written(raw, text)
    ensures Scan("\"" + raw + "\"" + rest, w, start) == Scan(rest, AfterQuotes(w, text, true), false)
  {
    hide Single, Double, Written, SkipComment, OpAt, EscapeLen, Quoted, AfterQuotes;
    var s := "\"" + raw + "\"" + rest;
    RawRead(raw, text, rest);
    AfterQuotesIs(w, text, true);
    assert s[0] == '"' && s[1..] == raw + ("\"" + rest);
  }

  lemma {:induction false} LiteralRead(text: string, rest: string, w: Pending, start: bool)
    requires '\'' !in text
    ensures Scan("'" + text + "'" + rest, w, start) == Scan(rest, AfterQuotes(w, text, false), false)
  {
    hide Single, Double, SkipComment, OpAt, EscapeLen, Quoted, AfterQuotes;
    var s := "'" + text + "'" + rest;
    SingleBack(text, rest);
    AfterQuotesIs(w, text, false);
    assert s[0] == '\'' && s[1..] == text + ("'" + rest);
  }

  /** Where the next piece starts, no operator does, unless the word is over. */
  lemma {:induction false} TextHead(ps: seq<Piece>, rest: string)
    requires PiecesOk(ps, rest) && ps != []
    ensures WordText(ps) != "" && !Boundary(WordText(ps) + rest)
  {
    var p := ps[0];
    if p.Plain? {
      assert Ordinary(p.text[0]);
      OrdinaryIs(p.text[0]);
    }
  }

  lemma {:induction false} PiecesRead(ps: seq<Piece>, rest: string, w: Pending, start: bool)
    requires PiecesOk(ps, rest) && (start ==> StartsWord(ps, rest))
    ensures Scan(WordText(ps) + rest, w, start) == Scan(rest, After(w, ps), start && ps == [])
    decreases |ps|
  {
    hide Scan, PieceOk, Ordinary, Written;
    if ps == [] {
      assert WordText(ps) + rest == rest;
    } else {
      var more := WordText(ps[1..]) + rest;
      assert WordText(ps) + rest == PieceText(ps[0]) + more;
      PieceRead(ps, rest, w, start);
      PiecesRead(ps[1..], rest, After(w, [ps[0]]), false);
    }
  }

  lemma {:induction false} PieceRead(ps: seq<Piece>, rest: string, w: Pending, start: bool)
    requires ps != [] && PiecesOk(ps, rest) && (start ==> StartsWord(ps, rest))
    ensures Scan(PieceText(ps[0]) + (WordText(ps[1..]) + rest), w, start)
            == Scan(WordText(ps[1..]) + rest, After(w, [ps[0]]), false)
    ensures After(w, ps) == After(After(w, [ps[0]]), ps[1..])
  {
    hide Scan, Ordinary, Written;
    var p, more := ps[0], WordText(ps[1..]) + rest;
    assert [p][1..] == [];
    match p
    case Plain(t) =>
      if ps[1..] == [] { assert ps == [p] && more == rest; } else { TextHead(ps[1..], rest); }
      PlainRead(t, more, w, start);
    case Escaped(t) => EscapedRead(t, more, w, start);
    case Slash =>
      assert ps[1..] == [] && more == rest;
      SlashRead(rest, w, start);
    case Literal(t) => LiteralRead(t, more, w, start);
    case Expandable(t, raw) => ExpandableRead(t, raw, more, w, start);
  }

  lemma {:induction false} PreTwice(a: seq<Token>, b: seq<Token>, r: Option<seq<Token>>)
    ensures Pre(a + b, r) == Pre(a, Pre(b, r))
  {
    if r.Some? { assert a + b + r.value == a + (b + r.value); }
  }

  /** At a boundary the word is over, and scanning goes on as from the start. */
  lemma {:induction false} WordOver(rest: string, w: Pending)
    requires Boundary(rest)
    ensures Scan(rest, w, false) == Pre(Finish(w), Lex(rest))
  {
    hide SkipComment, EscapeLen, Single, Double;
    assert Finish(NOTHING) == [];
    if rest == "" {
      assert Finish(w) + [] == Finish(w);
    } else if IsBlank(rest[0]) {
      EmptyPre(Scan(rest[1..], NOTHING, true));
    } else {
      var op := if rest[0] == '\n' then Op(Newline) else Op(OpAt(rest).1);
      assert [] + [op] == [op];
      PreTwice(Finish(w), [op], Scan(if rest[0] == '\n' then rest[1..] else rest[OpAt(rest).0..], NOTHING, true));
    }
  }

  /** A word and what ends it: one token with the segments that were meant. */
  lemma {:induction false} WordBack(ps: seq<Piece>, rest: string)
    requires ps != [] && PiecesOk(ps, rest) && Boundary(rest) && StartsWord(ps, rest)
    ensures Lex(WordText(ps) + rest) == Pre([Token(Word, Meaning("", ps), 0)], Lex(rest))
  {
    hide Scan, PiecesOk, StartsWord, Boundary, WordText;
    PiecesRead(ps, rest, NOTHING, true);
    var w := After(NOTHING, ps);
    WordOver(rest, w);
    AfterMeans(NOTHING, ps);
    assert [] + Meaning("", ps) == Meaning("", ps);
    MeaningSome("", ps, rest);
    SomeFinish(w);
  }

  lemma {:induction false} MeaningSome(bare: string, ps: seq<Piece>, rest: string)
    requires PiecesOk(ps, rest) && (ps != [] || bare != "")
    ensures Meaning(bare, ps) != []
    decreases ps
  {
    hide Written, Ordinary;
    if ps != [] {
      match ps[0]
      case Plain(t) => MeaningSome(bare + t, ps[1..], rest);
      case Escaped(t) => MeaningSome(bare + t, ps[1..], rest);
      case Slash => MeaningSome(bare + "\\", ps[1..], rest);
      case _ =>
    }
  }

  lemma SomeFinish(w: Pending)
    requires Flush(w).segs != []
    ensures Finish(w) == [Token(Word, Flush(w).segs, 0)]
  {
  }

  // ---- Lines ----------------------------------------------------------------------------------

  datatype Lexeme = Name(pieces: seq<Piece>) | Oper(kind: Kind) | Gap(c: char) | Comment(text: string)

  function LexemeText(x: Lexeme): string {
    match x
    case Name(ps) => WordText(ps)
    case Oper(k) => RenderOp(k)
    case Gap(c) => [c]
    case Comment(t) => "#" + t
  }

  function LexemeTokens(x: Lexeme): seq<Token> {
    match x
    case Name(ps) => [Token(Word, Meaning("", ps), 0)]
    case Oper(k) => [Token(k, [], 0)]
    case _ => []
  }

  /** The lexeme is well written and stops where `rest` begins. */
  predicate LexemeOk(x: Lexeme, rest: string) {
    match x
    case Name(ps) => ps != [] && PiecesOk(ps, rest) && Boundary(rest) && StartsWord(ps, rest)
    case Oper(k) => k != Word && (k == Pipe || k == Amp || k == RedirOut ==> rest == "" || rest[0] != RenderOp(k)[0])
    case Gap(c) => c == ' ' || c == '\t'
    case Comment(t) => '\n' !in t && LineEnds(rest)
  }

  function LineText(xs: seq<Lexeme>): string {
    if xs == [] then "" else LexemeText(xs[0]) + LineText(xs[1..])
  }

  function LineTokens(xs: seq<Lexeme>): seq<Token> {
    if xs == [] then [] else LexemeTokens(xs[0]) + LineTokens(xs[1..])
  }

  predicate LineOk(xs: seq<Lexeme>) {
    xs != [] ==> LexemeOk(xs[0], LineText(xs[1..])) && LineOk(xs[1..])
  }

  lemma {:induction false} CommentSkipped(t: string, rest: string)
    requires '\n' !in t && LineEnds(rest)
    ensures SkipComment(t + rest) == rest
  {
    if t == "" {
      assert t + rest == rest;
    } else {
      assert (t + rest)[1..] == t[1..] + rest;
      CommentSkipped(t[1..], rest);
    }
  }

  lemma {:induction false} OperBack(k: Kind, rest: string)
    requires LexemeOk(Oper(k), rest)
    ensures Lex(RenderOp(k) + rest) == Pre([Token(k, [], 0)], Lex(rest))
  {
    hide SkipComment, EscapeLen, Single, Double;
    var s := RenderOp(k) + rest;
    assert s[|RenderOp(k)|..] == rest;
    assert rest != "" ==> s[|RenderOp(k)|] == rest[0];
    assert Finish(NOTHING) == [];
    assert [] + [Token(k, [], 0)] == [Token(k, [], 0)];
  }

  lemma {:induction false} LexemeBack(x: Lexeme, rest: string)
    requires LexemeOk(x, rest)
    ensures Lex(LexemeText(x) + rest) == Pre(LexemeTokens(x), Lex(rest))
  {
    hide PiecesOk, StartsWord, Boundary, WordText;
    match x
    case Name(ps) => WordBack(ps, rest);
    case Oper(k) => OperBack(k, rest);
    case Gap(c) =>
      assert ([c] + rest)[1..] == rest;
      EmptyPre(Lex(rest));
    case Comment(t) =>
      assert "#" + t + rest == "#" + (t + rest);
      CommentSkipped("#" + t, rest);
      EmptyPre(Lex(rest));
  }

  /** A well-written text scans to the tokens it was written for. */
  lemma {:induction false} LineBack(xs: seq<Lexeme>)
    requires LineOk(xs)
    ensures Lex(LineText(xs)) == Some(LineTokens(xs))
    decreases |xs|
  {
    hide LexemeOk, LexemeText, LexemeTokens;
    if xs != [] {
      LexemeBack(xs[0], LineText(xs[1..]));
      LineBack(xs[1..]);
    }
  }

  // ---- Every text that scans is written so ------------------------------------------------------

  lemma {:induction false} SingleSplit(s: string)
    requires Single(s).Some?
    ensures var q := Single(s).value; s == q.0 + ("'" + q.1) && '\'' !in q.0
  {
    if s[0] == '\'' {
      assert s == "" + ("'" + s[1..]);
    } else {
      SingleSplit(s[1..]);
      var q := Single(s[1..]).value;
      assert s == [s[0]] + s[1..] && [s[0]] + (q.0 + ("'" + q.1)) == [s[0]] + q.0 + ("'" + q.1);
    }
  }

  lemma {:induction false} DoubleSplit(s: string) returns (raw: string)
    requires Double(s).Some?
    ensures var q := Double(s).value; s == raw + ("\"" + q.1) && Written(raw, q.0)
    decreases |s|
  {
    hide Written;
    if s[0] == '"' {
      raw := "";
      assert s == "" + ("\"" + s[1..]);
      NothingWritten();
    } else {
      var k := if s[0] == '\\' && |s| > 1 && DqEscapes(s[1]) then 1 else 0;
      var more := DoubleSplit(s[k + 1..]);
      var q := Double(s[k + 1..]).value;
      raw := s[..k + 1] + more;
      Rejoined(s, k + 1, more, "\"" + q.1);
      if k == 1 {
        assert raw == ['\\', s[1]] + more;
        EscapeWritten(s[1], more, q.0);
      } else {
        assert raw == [s[0]] + more;
        RawHead(s, more, q.1);
        CharWritten(s[0], more, q.0);
      }
    }
  }

  lemma Rejoined(s: string, k: nat, more: string, rest: string)
    requires k <= |s| && s[k..] == more + rest
    ensures s == s[..k] + more + rest
  {
    assert s == s[..k] + s[k..];
  }

  lemma NothingWritten()
    ensures Written("", "")
  {
  }

  lemma {:induction false} EscapeWritten(c: char, more: string, text: string)
    requires c in "$\"\\`" && Written(more, text)
    ensures Written(['\\', c] + more, [c] + text)
  {
    assert (['\\', c] + more)[2..] == more && ([c] + text)[1..] == text;
  }

  lemma {:induction false} CharWritten(c: char, more: string, text: string)
    requires c != '"' && Written(more, text) && (c == '\\' ==> more != "" && more[0] !in "$\"\\`")
    ensures Written([c] + more, [c] + text)
  {
    assert ([c] + more)[1..] == more && ([c] + text)[1..] == text;
  }

  /** A character that was read on its own stands on its own in the raw text. */
  lemma RawHead(s: string, more: string, rest: string)
    requires s != "" && s[0] != '"' && s[1..] == more + ("\"" + rest)
    requires !(s[0] == '\\' && |s| > 1 && DqEscapes(s[1]))
    ensures s[0] == '\\' ==> more != "" && more[0] !in "$\"\\`"
  {
    if more == "" { assert s[1] == '"'; } else { assert s[1] == more[0]; }
  }

  lemma {:induction false} CommentSplit(s: string)
    ensures var r := SkipComment(s);
            |r| <= |s| && s == s[..|s| - |r|] + r && '\n' !in s[..|s| - |r|] && LineEnds(r)
  {
    if s != "" && s[0] != '\n' {
      CommentSplit(s[1..]);
      var r := SkipComment(s);
      assert s[..|s| - |r|] == [s[0]] + s[1..][..|s| - 1 - |r|];
    } else {
      assert s == "" + s && s[..0] == "";
    }
  }

  /** Whether a word, and not a comment or an operator, starts here. */
  predicate WordStarts(s: string) {
    !Boundary(s) && s[0] != '#' && !(s[0] == '2' && |s| > 1 && s[1] == '>')
  }

  lemma {:induction false} CutWord(s: string, w: Pending, start: bool) returns (ps: seq<Piece>, rest: string)
    requires Scan(s, w, start).Some? && (start ==> WordStarts(s))
    ensures s == WordText(ps) + rest && PiecesOk(ps, rest) && Boundary(rest)
    ensures start ==> ps != [] && StartsWord(ps, rest) && |rest| < |s|
    ensures Lex(rest).Some?
    decreases |s|
  {
    hide Scan, PieceOk, Written, Ordinary, Single, Double;
    if Boundary(s) {
      ps, rest := [], s;
      WordOver(s, w);
    } else {
      var p, more, w' := CutPiece(s, w, start);
      if p.Slash? {
        ps, rest := [p], more;
        WordOver(more, w');
      } else {
        var tail;
        tail, rest := CutWord(more, w', false);
        ps := [p] + tail;
        assert ps[1..] == tail;
        assert PieceText(p) + (WordText(tail) + rest) == PieceText(p) + WordText(tail) + rest;
      }
      CutStart(s, p, ps, rest, start);
    }
  }

  lemma {:induction false} CutStart(s: string, p: Piece, ps: seq<Piece>, rest: string, start: bool)
    requires ps != [] && ps[0] == p && s == WordText(ps) + rest && (start ==> WordStarts(s))
    requires p.Plain? ==> |p.text| == 1
    ensures start ==> StartsWord(ps, rest)
  {
    if p.Plain? {
      assert s[0] == p.text[0];
      if ps == [Plain("2")] && rest != "" {
        assert ps[1..] == [] && WordText(ps) == "2";
        assert s[1] == rest[0];
      }
    }
  }

  lemma {:induction false} CutQuoted(s: string, w: Pending, start: bool)
    returns (p: Piece, more: string, w': Pending)
    requires Scan(s, w, start).Some? && s != "" && (s[0] == '\'' || s[0] == '"')
    ensures PieceOk(p) && s == PieceText(p) + more && |more| < |s| && (p.Literal? || p.Expandable?)
    ensures Scan(more, w', false).Some?
  {
    hide SkipComment, OpAt, EscapeLen, Single, Double, Written, Flush, Scan;
    QuoteScan(s, w, start);
    if s[0] == '\'' {
      SingleSplit(s[1..]);
      var q := Single(s[1..]).value;
      p, more, w' := Literal(q.0), q.1, Quoted(w, q.0, false);
      assert s == "'" + s[1..];
    } else {
      var raw := DoubleSplit(s[1..]);
      var q := Double(s[1..]).value;
      p, more, w' := Expandable(q.0, raw), q.1, Quoted(w, q.0, true);
      assert s == "\"" + s[1..];
    }
  }

  /** What scans at a quote: the quotes are closed, and the rest scans after them. */
  lemma {:induction false} QuoteScan(s: string, w: Pending, start: bool)
    requires Scan(s, w, start).Some? && s != "" && (s[0] == '\'' || s[0] == '"')
    ensures var q := if s[0] == '"' then Double(s[1..]) else Single(s[1..]);
            q.Some? && Scan(q.value.1, Quoted(w, q.value.0, s[0] == '"'), false).Some?
  {
    hide SkipComment, OpAt, EscapeLen, Single, Double, Flush, Quoted;
  }

  lemma {:induction false} CutEscape(s: string, w: Pending, start: bool)
    returns (p: Piece, more: string, w': Pending)
    requires Scan(s, w, start).Some? && s != "" && s[0] == '\\'
    ensures PieceOk(p) && s == PieceText(p) + more && |more| < |s| && (p.Slash? ==> LineEnds(more)) && !p.Plain?
    ensures Scan(more, w', false).Some?
  {
    hide SkipComment, OpAt, Single, Double, Written;
    var n := EscapeLen(s);
    w', more := Bare(w, s[n - 1]), s[n..];
    if n == 1 {
      p := Slash;
    } else {
      p := Escaped([s[1]]);
      assert Backslashed([s[1]]) == "\\" + [s[1]] + "";
    }
    assert s == s[..n] + s[n..];
  }

  /** The first piece of a word. */
  lemma {:induction false} CutPiece(s: string, w: Pending, start: bool)
    returns (p: Piece, more: string, w': Pending)
    requires Scan(s, w, start).Some? && !Boundary(s) && (start ==> WordStarts(s))
    ensures PieceOk(p) && s == PieceText(p) + more && |more| < |s| && (p.Slash? ==> LineEnds(more))
    ensures Scan(more, w', false).Some? && (p.Plain? ==> |p.text| == 1)
  {
    hide SkipComment, OpAt, EscapeLen, Single, Double, Written, Ordinary;
    OrdinaryIs(s[0]);
    if s[0] == '\'' || s[0] == '"' {
      p, more, w' := CutQuoted(s, w, start);
    } else if s[0] == '\\' {
      p, more, w' := CutEscape(s, w, start);
    } else {
      p, more, w' := Plain([s[0]]), s[1..], Bare(w, s[0]);
    }
  }

  lemma {:induction false} CutOper(s: string) returns (k: Kind, rest: string)
    requires s != "" && IsOpChar(s[0])
    ensures k == OpAt(s).1 && rest == s[OpAt(s).0..] && s == RenderOp(k) + rest && LexemeOk(Oper(k), rest)
  {
    var n := OpAt(s).0;
    k, rest := OpAt(s).1, s[n..];
    assert s == s[..n] + s[n..];
    assert s[..n] == RenderOp(k);
    assert rest != "" ==> rest[0] == s[n];
  }

  lemma {:induction false} Spelled(s: string) returns (xs: seq<Lexeme>)
    requires Lex(s).Some?
    ensures LineOk(xs) && LineText(xs) == s
    decreases |s|
  {
    hide LexemeOk, LexemeText, SkipComment, Single, Double, EscapeLen;
    if s == "" {
      return [];
    }
    var x, rest := CutLexeme(s);
    var more := Spelled(rest);
    xs := [x] + more;
    assert xs[1..] == more;
  }

  lemma {:induction false} CutLexeme(s: string) returns (x: Lexeme, rest: string)
    requires s != "" && Lex(s).Some?
    ensures s == LexemeText(x) + rest && LexemeOk(x, rest) && |rest| < |s| && Lex(rest).Some?
  {
    hide PiecesOk, StartsWord, WordText, Single, Double, EscapeLen, OpAt;
    if WordStarts(s) {
      var ps;
      ps, rest := CutWord(s, NOTHING, true);
      x := Name(ps);
    } else if s[0] == ' ' || s[0] == '\t' {
      x, rest := Gap(s[0]), s[1..];
    } else if s[0] == '\n' {
      x, rest := Oper(Newline), s[1..];
    } else if s[0] == '#' {
      CommentSplit(s);
      rest := SkipComment(s);
      x := Comment(s[1..|s| - |rest|]);
      assert s[..|s| - |rest|] == "#" + s[1..|s| - |rest|];
    } else if s[0] == '2' {
      x, rest := Oper(RedirErr), s[2..];
    } else {
      var k;
      k, rest := CutOper(s);
      x := Oper(k);
    }
  }

  /** A text scans exactly when it is well written. */
  lemma {:induction false} ScansIff(s: string)
    ensures Lex(s).Some? <==> exists xs :: LineOk(xs) && LineText(xs) == s
  {
    hide LineOk, LineText, Scan;
    if Lex(s).Some? {
      var xs := Spelled(s);
    }
    if xs :| LineOk(xs) && LineText(xs) == s {
      LineBack(xs);
    }
  }
}
