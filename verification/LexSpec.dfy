/** The lexer as a function of the remaining text. A line is what precedes the
    terminating NUL, so the end of the string plays the terminator's part. */
module LexSpec {
  import opened Options
  import opened Tokens

  /** A word under construction: finished segments and bare text. */
  datatype Pending = Pending(segs: seq<Seg>, cur: string)

  const NOTHING := Pending([], "")

  predicate IsBlank(c: char) { c == ' ' || c == '\t' }

  predicate IsOpChar(c: char) {
    c == '>' || c == '<' || c == '|' || c == '&' || c == ';' || c == '(' || c == ')'
  }

  /** Only for the one-character operators; `OpKind2` is asked first. */
  function OpKind(c: char): Kind {
    match c
    case '<' => RedirIn
    case '|' => Pipe
    case '&' => Amp
    case ';' => Semi
    case '(' => LParen
    case ')' => RParen
    case _ => RedirOut
  }

  /** Word is the no-match answer. */
  function OpKind2(a: char, b: char): Kind {
    if a != b then Word
    else if a == '>' then RedirAppend
    else if a == '&' then AndIf
    else if a == '|' then OrIf
    else Word
  }

  /** The characters that a backslash protects between double quotes. */
  predicate DqEscapes(c: char) { c == '$' || c == '"' || c == '\\' || c == '`' }

  // ---- Words ------------------------------------------------------------------

  /** The word with its bare text, if there is any, made a segment. */
  function Flush(w: Pending): Pending {
    if w.cur != "" then Pending(w.segs + [Seg(w.cur, true)], "") else w
  }

  function Quoted(w: Pending, text: string, expand: bool): Pending {
    Pending(Flush(w).segs + [Seg(text, expand)], "")
  }

  function Bare(w: Pending, c: char): Pending { w.(cur := w.cur + [c]) }

  function Finish(w: Pending): seq<Token> {
    if w.segs == [] && w.cur == "" then [] else [Token(Word, Flush(w).segs, 0)]
  }

  // ---- Quotes, escapes, comments ----------------------------------------------------

  /** The text up to the closing quote, and what follows it. */
  function Single(s: string): (r: Option<(string, string)>)
    ensures r.Some? ==> |r.value.1| < |s|
  {
    if s == "" then None
    else if s[0] == '\'' then Some(("", s[1..]))
    else
      var r := Single(s[1..]);
      if r.None? then None else Some(([s[0]] + r.value.0, r.value.1))
  }

  function Double(s: string): (r: Option<(string, string)>)
    ensures r.Some? ==> |r.value.1| < |s|
  {
    if s == "" then None
    else if s[0] == '"' then Some(("", s[1..]))
    else
      var k := if s[0] == '\\' && |s| > 1 && DqEscapes(s[1]) then 1 else 0;
      var r := Double(s[k + 1..]);
      if r.None? then None else Some(([s[k]] + r.value.0, r.value.1))
  }

  function SkipComment(s: string): (r: string)
    ensures |r| <= |s| && (s != "" && s[0] != '\n' ==> |r| < |s|)
  {
    if s == "" || s[0] == '\n' then s else SkipComment(s[1..])
  }

  /** The characters an operator at the front takes, and its kind. */
  function OpAt(s: string): (r: (nat, Kind))
    requires s != ""
    ensures 1 <= r.0 <= |s|
  {
    var two := if |s| > 1 then OpKind2(s[0], s[1]) else Word;
    if two != Word then (2, two) else (1, OpKind(s[0]))
  }

  /** How many characters a backslash at the front takes with it, itself included. */
  function EscapeLen(s: string): (n: nat)
    requires s != ""
    ensures 1 <= n <= 2 && n <= |s|
  {
    if |s| == 1 || s[1] == '\n' then 1 else 2
  }

  // ---- Scanning ----------------------------------------------------------------------

  function Pre(ts: seq<Token>, r: Option<seq<Token>>): Option<seq<Token>> {
    if r.None? then None else Some(ts + r.value)
  }

  /** The tokens of the text, given the word so far and whether a word could
      start here. None is an unterminated quote. */
  function Scan(s: string, w: Pending, start: bool): Option<seq<Token>>
    decreases |s|
  {
    if s == "" then Some(Finish(w))
    else if IsBlank(s[0]) then Pre(Finish(w), Scan(s[1..], NOTHING, true))
    else if s[0] == '\n' then Pre(Finish(w) + [Op(Newline)], Scan(s[1..], NOTHING, true))
    else if start && s[0] == '#' then Scan(SkipComment(s), w, start)
    else if start && s[0] == '2' && |s| > 1 && s[1] == '>' then Pre([Op(RedirErr)], Scan(s[2..], w, start))
    else if IsOpChar(s[0]) then Pre(Finish(w) + [Op(OpAt(s).1)], Scan(s[OpAt(s).0..], NOTHING, true))
    else if s[0] == '\'' then
      var q := Single(s[1..]);
      if q.None? then None else Scan(q.value.1, Quoted(w, q.value.0, false), false)
    else if s[0] == '"' then
      var q := Double(s[1..]);
      if q.None? then None else Scan(q.value.1, Quoted(w, q.value.0, true), false)
    else if s[0] == '\\' then Scan(s[EscapeLen(s)..], Bare(w, s[EscapeLen(s) - 1]), false)
    else Scan(s[1..], Bare(w, s[0]), false)
  }

  function Lex(s: string): Option<seq<Token>> { Scan(s, NOTHING, true) }

  // ---- A newline splits the scan -----------------------------------------------------------

  lemma Split<T>(a: seq<T>, k: nat, b: seq<T>)
    requires k <= |a|
    ensures (a + b)[k..] == a[k..] + b
  {
  }

  lemma {:induction false} SingleMore(a: string, b: string)
    requires Single(a).Some?
    ensures Single(a + b) == Some((Single(a).value.0, Single(a).value.1 + b))
  {
    Split(a, 1, b);
    if a[0] != '\'' { SingleMore(a[1..], b); }
  }

  lemma {:induction false} DoubleMore(a: string, b: string)
    requires Double(a).Some?
    ensures Double(a + b) == Some((Double(a).value.0, Double(a).value.1 + b))
  {
    Split(a, 1, b);
    if a[0] != '"' {
      if a[0] == '\\' && |a| > 1 && DqEscapes(a[1]) {
        Split(a, 2, b);
        DoubleMore(a[2..], b);
      } else {
        DoubleMore(a[1..], b);
      }
    }
  }

  lemma {:induction false} CommentMore(a: string, b: string)
    requires b != "" && b[0] == '\n'
    ensures SkipComment(a + b) == SkipComment(a) + b
  {
    if a == "" {
      assert a + b == b;
    } else if a[0] != '\n' {
      Split(a, 1, b);
      CommentMore(a[1..], b);
    }
  }

  lemma PreLine(x: seq<Token>, y: seq<Token>, r: Option<seq<Token>>)
    ensures Pre(x, Pre(y + [Op(Newline)], r)) == Pre(x + y + [Op(Newline)], r)
  {
    if r.Some? { assert x + (y + [Op(Newline)] + r.value) == x + y + [Op(Newline)] + r.value; }
  }

  /** Whatever was scanned before a newline, the rest is scanned afresh. */
  lemma {:induction false} ScanLines(a: string, b: string, w: Pending, start: bool)
    requires Scan(a, w, start).Some?
    ensures Scan(a + ("\n" + b), w, start) == Pre(Scan(a, w, start).value + [Op(Newline)], Lex(b))
    decreases |a|
  {
    hide Single, Double, SkipComment, DqEscapes, Flush;
    var nb := "\n" + b;
    var s := a + nb;
    if a == "" {
      assert s == nb && nb[1..] == b;
    } else {
      Split(a, 1, nb);
      if IsBlank(a[0]) || a[0] == '\n' {
        ScanLines(a[1..], b, NOTHING, true);
        var x := if IsBlank(a[0]) then Finish(w) else Finish(w) + [Op(Newline)];
        PreLine(x, Scan(a[1..], NOTHING, true).value, Lex(b));
      } else if start && a[0] == '#' {
        CommentMore(a, nb);
        ScanLines(SkipComment(a), b, w, start);
      } else if start && a[0] == '2' && |a| > 1 && a[1] == '>' {
        Split(a, 2, nb);
        ScanLines(a[2..], b, w, start);
        PreLine([Op(RedirErr)], Scan(a[2..], w, start).value, Lex(b));
      } else if IsOpChar(a[0]) {
        assert OpAt(s) == OpAt(a);
        Split(a, OpAt(a).0, nb);
        var rest := a[OpAt(a).0..];
        ScanLines(rest, b, NOTHING, true);
        PreLine(Finish(w) + [Op(OpAt(a).1)], Scan(rest, NOTHING, true).value, Lex(b));
      } else if a[0] == '\'' {
        SingleMore(a[1..], nb);
        var q := Single(a[1..]).value;
        ScanLines(q.1, b, Quoted(w, q.0, false), false);
      } else if a[0] == '"' {
        DoubleMore(a[1..], nb);
        var q := Double(a[1..]).value;
        ScanLines(q.1, b, Quoted(w, q.0, true), false);
      } else if a[0] == '\\' {
        assert EscapeLen(s) == EscapeLen(a);
        Split(a, EscapeLen(a), nb);
        ScanLines(a[EscapeLen(a)..], b, Bare(w, a[EscapeLen(a) - 1]), false);
      } else {
        ScanLines(a[1..], b, Bare(w, a[0]), false);
      }
    }
  }

  // ---- An open quote stays open -------------------------------------------------------

  lemma {:induction false} SingleOpen(a: string)
    requires Single(a).None?
    ensures Single(a + "\n").None?
  {
    if a != "" {
      Split(a, 1, "\n");
      SingleOpen(a[1..]);
    }
  }

  lemma {:induction false} DoubleOpen(a: string)
    requires Double(a).None?
    ensures Double(a + "\n").None?
  {
    if a != "" {
      Split(a, 1, "\n");
      if a[0] == '\\' && |a| > 1 && DqEscapes(a[1]) {
        Split(a, 2, "\n");
        DoubleOpen(a[2..]);
      } else {
        DoubleOpen(a[1..]);
      }
    }
  }

  /** A text with an unterminated quote has one still when a newline is added. */
  lemma {:induction false} ScanOpen(a: string, w: Pending, start: bool)
    requires Scan(a, w, start).None?
    ensures Scan(a + "\n", w, start).None?
    decreases |a|
  {
    var s := a + "\n";
    Split(a, 1, "\n");
    if IsBlank(a[0]) || a[0] == '\n' {
      ScanOpen(a[1..], NOTHING, true);
    } else if start && a[0] == '#' {
      CommentMore(a, "\n");
      ScanOpen(SkipComment(a), w, start);
    } else if start && a[0] == '2' && |a| > 1 && a[1] == '>' {
      Split(a, 2, "\n");
      ScanOpen(a[2..], w, start);
    } else if IsOpChar(a[0]) {
      assert OpAt(s) == OpAt(a);
      Split(a, OpAt(a).0, "\n");
      ScanOpen(a[OpAt(a).0..], NOTHING, true);
    } else if a[0] == '\'' {
      var q := Single(a[1..]);
      if q.None? { SingleOpen(a[1..]); }
      else {
        SingleMore(a[1..], "\n");
        ScanOpen(q.value.1, Quoted(w, q.value.0, false), false);
      }
    } else if a[0] == '"' {
      var q := Double(a[1..]);
      if q.None? { DoubleOpen(a[1..]); }
      else {
        DoubleMore(a[1..], "\n");
        ScanOpen(q.value.1, Quoted(w, q.value.0, true), false);
      }
    } else if a[0] == '\\' {
      assert EscapeLen(s) == EscapeLen(a);
      Split(a, EscapeLen(a), "\n");
      ScanOpen(a[EscapeLen(a)..], Bare(w, a[EscapeLen(a) - 1]), false);
    } else {
      ScanOpen(a[1..], Bare(w, a[0]), false);
    }
  }
}
