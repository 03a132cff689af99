/** Rendering tokens as text that scans back to the same tokens. */
module LexRoundTrip {
  import opened Options
  import opened Tokens
  import opened LexSpec

  // ---- What the lexer can produce ------------------------------------------------

  /** A literal segment came from single quotes, so it holds none. */
  predicate SegOk(g: Seg) { g.expand || '\'' !in g.text }

  predicate TokenOk(t: Token) {
    && t.id == 0
    && (t.kind == Word <==> t.segs != [])
    && forall i | 0 <= i < |t.segs| :: SegOk(t.segs[i])
  }

  predicate TokensOk(ts: seq<Token>) { forall i | 0 <= i < |ts| :: TokenOk(ts[i]) }

  // ---- Rendering --------------------------------------------------------------------

  function Escape(text: string): string {
    if text == "" then ""
    else (if DqEscapes(text[0]) then "\\" else "") + [text[0]] + Escape(text[1..])
  }

  /** Expandable text in escaped double quotes, literal text in single quotes. */
  function RenderSeg(g: Seg): string {
    if g.expand then "\"" + Escape(g.text) + "\"" else "'" + g.text + "'"
  }

  function RenderSegs(gs: seq<Seg>): string {
    if gs == [] then "" else RenderSeg(gs[0]) + RenderSegs(gs[1..])
  }

  function RenderOp(k: Kind): string {
    match k
    case Word => ""
    case Pipe => "|"
    case RedirIn => "<"
    case RedirOut => ">"
    case RedirAppend => ">>"
    case RedirErr => "2>"
    case Amp => "&"
    case AndIf => "&&"
    case OrIf => "||"
    case Semi => ";"
    case Newline => "\n"
    case LParen => "("
    case RParen => ")"
  }

  function RenderToken(t: Token): string {
    if t.kind == Word then RenderSegs(t.segs) else RenderOp(t.kind)
  }

  /** A blank after every token. */
  function Render(ts: seq<Token>): string {
    if ts == [] then "" else RenderToken(ts[0]) + " " + Render(ts[1..])
  }

  // ---- Scanning what was rendered -------------------------------------------------------

  lemma {:induction false} SingleBack(text: string, rest: string)
    requires '\'' !in text
    ensures Single(text + ("'" + rest)) == Some((text, rest))
  {
    var s := text + ("'" + rest);
    if text == "" {
      assert s == "'" + rest && s[1..] == rest;
    } else {
      assert s[1..] == text[1..] + ("'" + rest);
      SingleBack(text[1..], rest);
      assert [text[0]] + text[1..] == text;
    }
  }

  lemma {:induction false} DoubleBack(text: string, rest: string)
    ensures Double(Escape(text) + ("\"" + rest)) == Some((text, rest))
  {
    var s := Escape(text) + ("\"" + rest);
    if text == "" {
      assert s == "\"" + rest && s[1..] == rest;
    } else {
      var more := Escape(text[1..]) + ("\"" + rest);
      DoubleBack(text[1..], rest);
      assert [text[0]] + text[1..] == text;
      if DqEscapes(text[0]) {
        assert s == ['\\', text[0]] + more && s[2..] == more;
      } else {
        assert s == [text[0]] + more && s[1..] == more;
      }
    }
  }

  lemma {:induction false} SegBack(g: Seg, rest: string, gs: seq<Seg>, start: bool)
    requires SegOk(g)
    ensures Scan(RenderSeg(g) + rest, Pending(gs, ""), start) == Scan(rest, Pending(gs + [g], ""), false)
  {
    hide Single, Double, Escape, SkipComment, OpAt, EscapeLen;
    var s := RenderSeg(g) + rest;
    if g.expand {
      DoubleBack(g.text, rest);
      assert s[0] == '"' && s[1..] == Escape(g.text) + ("\"" + rest);
    } else {
      SingleBack(g.text, rest);
      assert s[0] == '\'' && s[1..] == g.text + ("'" + rest);
    }
    assert Quoted(Pending(gs, ""), g.text, g.expand) == Pending(gs + [g], "");
  }

  lemma {:induction false} SegsBack(gs: seq<Seg>, more: seq<Seg>, rest: string, start: bool)
    requires forall i | 0 <= i < |more| :: SegOk(more[i])
    ensures Scan(RenderSegs(more) + rest, Pending(gs, ""), start)
            == Scan(rest, Pending(gs + more, ""), start && more == [])
    decreases |more|
  {
    hide Scan, SegOk, RenderSeg;
    if more == [] {
      assert RenderSegs(more) + rest == rest && gs + more == gs;
    } else {
      assert SegOk(more[0]);
      assert RenderSegs(more) + rest == RenderSeg(more[0]) + (RenderSegs(more[1..]) + rest);
      SegBack(more[0], RenderSegs(more[1..]) + rest, gs, start);
      SegsBack(gs + [more[0]], more[1..], rest, false);
      assert gs + [more[0]] + more[1..] == gs + more;
    }
  }

  lemma {:induction false} BlankStep(rest: string, w: Pending, start: bool)
    ensures Scan(" " + rest, w, start) == Pre(Finish(w), Scan(rest, NOTHING, true))
  {
    assert (" " + rest)[1..] == rest;
  }

  lemma {:induction false} OpBack(k: Kind, rest: string)
    requires k != Word
    ensures Scan(RenderOp(k) + (" " + rest), NOTHING, true)
            == Pre([Token(k, [], 0)], Scan(" " + rest, NOTHING, true))
  {
    var b := " " + rest;
    var s := RenderOp(k) + b;
    assert s[|RenderOp(k)|..] == b;
    assert Finish(NOTHING) == [];
    assert [] + [Token(k, [], 0)] == [Token(k, [], 0)];
  }

  lemma {:induction false} TokenBack(t: Token, rest: string)
    requires TokenOk(t)
    ensures Scan(RenderToken(t) + (" " + rest), NOTHING, true) == Pre([t], Lex(rest))
  {
    hide Scan, SegOk;
    if t.kind == Word {
      SegsBack([], t.segs, " " + rest, true);
      assert [] + t.segs == t.segs;
      BlankStep(rest, Pending(t.segs, ""), false);
    } else {
      OpBack(t.kind, rest);
      BlankStep(rest, NOTHING, true);
      EmptyPre(Scan(rest, NOTHING, true));
    }
  }

  lemma EmptyPre(r: Option<seq<Token>>)
    ensures Pre(Finish(NOTHING), r) == r
  {
    assert r.Some? ==> [] + r.value == r.value;
  }

  /** Scanning rendered tokens gives the same tokens, with the same segments. */
  lemma {:induction false} LexBack(ts: seq<Token>)
    requires TokensOk(ts)
    ensures Lex(Render(ts)) == Some(ts)
    decreases |ts|
  {
    hide RenderToken, TokenOk;
    if ts != [] {
      assert TokenOk(ts[0]);
      assert Render(ts) == RenderToken(ts[0]) + (" " + Render(ts[1..]));
      TokenBack(ts[0], Render(ts[1..]));
      LexBack(ts[1..]);
      assert [ts[0]] + ts[1..] == ts;
    }
  }

  // ---- Everything scanned can be rendered -------------------------------------------------

  predicate PendingOk(w: Pending) { forall i | 0 <= i < |w.segs| :: SegOk(w.segs[i]) }

  lemma {:induction false} SingleClean(s: string)
    requires Single(s).Some?
    ensures '\'' !in Single(s).value.0
  {
    if s[0] != '\'' { SingleClean(s[1..]); }
  }

  lemma FinishOk(w: Pending)
    requires PendingOk(w)
    ensures TokensOk(Finish(w))
  {
  }

  lemma {:induction false} ScanOk(s: string, w: Pending, start: bool)
    requires PendingOk(w) && Scan(s, w, start).Some?
    ensures TokensOk(Scan(s, w, start).value)
    decreases |s|
  {
    FinishOk(w);
    if s == "" {
    } else if IsBlank(s[0]) || s[0] == '\n' {
      ScanOk(s[1..], NOTHING, true);
    } else if start && s[0] == '#' {
      ScanOk(SkipComment(s), w, start);
    } else if start && s[0] == '2' && |s| > 1 && s[1] == '>' {
      ScanOk(s[2..], w, start);
    } else if IsOpChar(s[0]) {
      ScanOk(s[OpAt(s).0..], NOTHING, true);
    } else if s[0] == '\'' {
      SingleClean(s[1..]);
      var q := Single(s[1..]).value;
      ScanOk(q.1, Quoted(w, q.0, false), false);
    } else if s[0] == '"' {
      var q := Double(s[1..]).value;
      ScanOk(q.1, Quoted(w, q.0, true), false);
    } else if s[0] == '\\' {
      ScanOk(s[EscapeLen(s)..], Bare(w, s[EscapeLen(s) - 1]), false);
    } else {
      ScanOk(s[1..], Bare(w, s[0]), false);
    }
  }

  /** Exactly these token lists come out of the lexer; rendering one of them
      always has it scanned back. */
  lemma LexRange(ts: seq<Token>)
    ensures TokensOk(ts) <==> exists s: string :: Lex(s) == Some(ts)
  {
    if TokensOk(ts) { LexBack(ts); }
    if s: string :| Lex(s) == Some(ts) { ScanOk(s, NOTHING, true); }
  }

  /** An escaped dollar is not protected: wherever the scanner meets `\$`, outside
      quotes or inside double quotes, it goes on as after a bare `$`. */
  lemma {:induction false} EscapedDollarExpands(rest: string, w: Pending, start: bool)
    ensures Scan("\\$" + rest, w, start) == Scan("$" + rest, w, start) == Scan(rest, Bare(w, '$'), false)
    ensures Double("\\$" + rest) == Double("$" + rest)
  {
    assert ("\\$" + rest)[2..] == rest && ("$" + rest)[1..] == rest;
  }

  predicate Expands(t: Token) { forall i | 0 <= i < |t.segs| :: t.segs[i].expand }

  predicate NoQuote(s: string) { '\'' !in s }

  lemma QuoteTail(s: string, k: nat)
    requires NoQuote(s) && k <= |s|
    ensures NoQuote(s[k..])
  {
  }

  lemma {:induction false} QuoteComment(s: string)
    requires NoQuote(s)
    ensures NoQuote(SkipComment(s))
  {
    if s != "" && s[0] != '\n' { QuoteComment(s[1..]); }
  }

  lemma {:induction false} QuoteDouble(s: string)
    requires NoQuote(s) && Double(s).Some?
    ensures NoQuote(Double(s).value.1)
    decreases |s|
  {
    if s[0] != '"' { QuoteDouble(s[(if s[0] == '\\' && |s| > 1 && DqEscapes(s[1]) then 1 else 0) + 1..]); }
  }

  lemma FinishExpands(w: Pending)
    requires forall i | 0 <= i < |w.segs| :: w.segs[i].expand
    ensures forall i | 0 <= i < |Finish(w)| :: Expands(Finish(w)[i])
  {
  }

  lemma {:induction false} ScanExpands(s: string, w: Pending, start: bool)
    requires NoQuote(s) && (forall i | 0 <= i < |w.segs| :: w.segs[i].expand) && Scan(s, w, start).Some?
    ensures forall i | 0 <= i < |Scan(s, w, start).value| :: Expands(Scan(s, w, start).value[i])
    decreases |s|
  {
    hide NoQuote, DqEscapes;
    FinishExpands(w);
    if s == "" {
    } else if IsBlank(s[0]) || s[0] == '\n' {
      QuoteTail(s, 1);
      ScanExpands(s[1..], NOTHING, true);
    } else if start && s[0] == '#' {
      QuoteComment(s);
      ScanExpands(SkipComment(s), w, start);
    } else if start && s[0] == '2' && |s| > 1 && s[1] == '>' {
      QuoteTail(s, 2);
      ScanExpands(s[2..], w, start);
    } else if IsOpChar(s[0]) {
      QuoteTail(s, OpAt(s).0);
      ScanExpands(s[OpAt(s).0..], NOTHING, true);
    } else if s[0] == '"' {
      QuoteTail(s, 1);
      QuoteDouble(s[1..]);
      ScanExpands(Double(s[1..]).value.1, Quoted(w, Double(s[1..]).value.0, true), false);
    } else if s[0] == '\\' {
      QuoteTail(s, EscapeLen(s));
      ScanExpands(s[EscapeLen(s)..], Bare(w, s[EscapeLen(s) - 1]), false);
    } else {
      FirstIsNoQuote(s);
      QuoteTail(s, 1);
      ScanExpands(s[1..], Bare(w, s[0]), false);
    }
  }

  lemma FirstIsNoQuote(s: string)
    requires NoQuote(s) && s != ""
    ensures s[0] != '\''
  {
  }

  /** Nothing but single quotes protects text from expansion: whatever is escaped
      or double-quoted, a line without them has only expandable words. */
  lemma OnlySingleQuotesProtect(s: string)
    requires '\'' !in s && Lex(s).Some?
    ensures forall i | 0 <= i < |Lex(s).value| :: Expands(Lex(s).value[i])
  {
    ScanExpands(s, NOTHING, true);
  }
}
