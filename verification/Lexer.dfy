/** The lexer as it runs: one left-to-right pass over an index, filling a word
    buffer and a token list. */
module Lexer {
  import opened Options
  import opened Tokens
  import opened LexSpec

  class WordBuf {
    var segs: seq<Seg>
    var cur: string

    ghost function Now(): Pending
      reads this
    {
      Pending(segs, cur)
    }

    constructor ()
      ensures Now() == NOTHING
    {
      segs, cur := [], "";
    }

    method Push(c: char)
      modifies this
      ensures Now() == Bare(old(Now()), c)
    {
      cur := cur + [c];
    }

    method FlushBare()
      modifies this
      ensures Now() == Flush(old(Now()))
    {
      if |cur| > 0 {
        segs := segs + [Seg(cur, true)];
        cur := "";
      }
    }

    method PushSeg(text: string, expand: bool)
      modifies this
      ensures Now() == Quoted(old(Now()), text, expand)
    {
      FlushBare();
      segs := segs + [Seg(text, expand)];
    }

    /** Moves the pending word, if any, out of the buffer. */
    method Take() returns (ts: seq<Token>)
      modifies this
      ensures ts == Finish(old(Now())) && Now() == NOTHING
    {
      if segs == [] && cur == "" {
        return [];
      }
      FlushBare();
      ts := [Token(Word, segs, 0)];
      segs := [];
    }
  }

  /** Quoted text read so far, with what the rest of it scans to. */
  function Join(q: string, r: Option<(string, string)>): Option<(string, string)> {
    if r.None? then None else Some((q + r.value.0, r.value.1))
  }

  lemma JoinStart(r: Option<(string, string)>)
    ensures Join("", r) == r
  {
    assert r.Some? ==> "" + r.value.0 == r.value.0;
  }

  lemma JoinStep(q: string, c: char, r: Option<(string, string)>)
    ensures Join(q, Join([c], r)) == Join(q + [c], r)
  {
    assert r.Some? ==> q + ([c] + r.value.0) == q + [c] + r.value.0;
  }

  /** The index past the closing quote of the literal text that starts at `i`. */
  method ScanSingle(line: string, i: nat, w: WordBuf) returns (next: Option<nat>)
    requires i < |line| && line[i] == '\''
    modifies w
    ensures match Single(line[i + 1..])
            case None => next == None && w.Now() == old(w.Now())
            case Some((text, rest)) =>
              next.Some? && i < next.value <= |line| && line[next.value..] == rest
              && w.Now() == Quoted(old(w.Now()), text, false)
  {
    var q := "";
    var k := i + 1;
    JoinStart(Single(line[k..]));
    while k < |line| && line[k] != '\''
      invariant i < k <= |line|
      invariant w.Now() == old(w.Now())
      invariant Single(line[i + 1..]) == Join(q, Single(line[k..]))
    {
      assert line[k..][1..] == line[k + 1..];
      JoinStep(q, line[k], Single(line[k + 1..]));
      q := q + [line[k]];
      k := k + 1;
    }
    if k == |line| {
      return None;
    }
    w.PushSeg(q, false);
    assert q + "" == q;
    next := Some(k + 1);
  }

  lemma DoubleAt(line: string, k: nat)
    requires k <= |line|
    ensures k == |line| ==> Double(line[k..]) == None
    ensures k < |line| && line[k] == '"' ==> Double(line[k..]) == Some(("", line[k + 1..]))
    ensures k < |line| && line[k] != '"' ==>
              var e := if line[k] == '\\' && k + 1 < |line| && DqEscapes(line[k + 1]) then 1 else 0;
              Double(line[k..]) == Join([line[k + e]], Double(line[k + e + 1..]))
  {
    if k < |line| {
      assert line[k..][1..] == line[k + 1..];
      assert k + 1 < |line| ==> line[k..][2..] == line[k + 2..];
    }
  }

  /** As `ScanSingle`, with a backslash escaping `$`, `"`, `\` and a backquote. */
  method ScanDouble(line: string, i: nat, w: WordBuf) returns (next: Option<nat>)
    requires i < |line| && line[i] == '"'
    modifies w
    ensures match Double(line[i + 1..])
            case None => next == None && w.Now() == old(w.Now())
            case Some((text, rest)) =>
              next.Some? && i < next.value <= |line| && line[next.value..] == rest
              && w.Now() == Quoted(old(w.Now()), text, true)
  {
    var q := "";
    var k := i + 1;
    hide Double, DqEscapes;
    JoinStart(Double(line[k..]));
    while k < |line| && line[k] != '"'
      invariant i < k <= |line|
      invariant w.Now() == old(w.Now())
      invariant Double(line[i + 1..]) == Join(q, Double(line[k..]))
    {
      DoubleAt(line, k);
      if line[k] == '\\' && k + 1 < |line| && DqEscapes(line[k + 1]) {
        JoinStep(q, line[k + 1], Double(line[k + 2..]));
        q := q + [line[k + 1]];
        k := k + 2;
      } else {
        JoinStep(q, line[k], Double(line[k + 1..]));
        q := q + [line[k]];
        k := k + 1;
      }
    }
    DoubleAt(line, k);
    if k == |line| {
      return None;
    }
    w.PushSeg(q, true);
    assert q + "" == q;
    next := Some(k + 1);
  }

  method ScanEscape(line: string, i: nat, w: WordBuf) returns (next: nat)
    requires i < |line| && line[i] == '\\'
    modifies w
    ensures next == i + EscapeLen(line[i..]) && i < next <= |line|
    ensures w.Now() == Bare(old(w.Now()), line[next - 1])
  {
    if i + 1 == |line| || line[i + 1] == '\n' {
      w.Push('\\');
      return i + 1;
    }
    w.Push(line[i + 1]);
    next := i + 2;
  }

  /** A quoted run, an escape or one ordinary character of a word. */
  method ScanText(line: string, i: nat, w: WordBuf, ghost start: bool) returns (next: Option<nat>)
    requires i < |line| && !IsBlank(line[i]) && line[i] != '\n' && !IsOpChar(line[i])
    requires start ==> line[i] != '#' && !(line[i] == '2' && i + 1 < |line| && line[i + 1] == '>')
    modifies w
    ensures next.None? ==> Scan(line[i..], old(w.Now()), start) == None
    ensures next.Some? ==> i < next.value <= |line|
    ensures next.Some? ==> Scan(line[i..], old(w.Now()), start) == Scan(line[next.value..], w.Now(), false)
  {
    ghost var s := line[i..];
    assert s[0] == line[i] && s[1..] == line[i + 1..];
    assert |s| > 1 ==> s[1] == line[i + 1];
    if line[i] == '\'' {
      next := ScanSingle(line, i, w);
    } else if line[i] == '"' {
      next := ScanDouble(line, i, w);
    } else if line[i] == '\\' {
      var k := ScanEscape(line, i, w);
      assert s[EscapeLen(s)..] == line[k..] && s[EscapeLen(s) - 1] == line[k - 1];
      next := Some(k);
    } else {
      w.Push(line[i]);
      next := Some(i + 1);
    }
  }

  /** The tokens of the line, or None for an unterminated quote. */
  method LexerScan(line: string) returns (r: Option<seq<Token>>)
    ensures r == Lex(line)
  {
    var out: seq<Token> := [];
    var w := new WordBuf();
    var start := true;
    var i := 0;
    NothingYet(Lex(line));
    assert line[0..] == line;
    while i < |line|
      invariant i <= |line|
      invariant Lex(line) == Pre(out, Scan(line[i..], w.Now(), start))
      decreases |line| - i
    {
      ghost var s := line[i..];
      ghost var w0 := w.Now();
      var c := line[i];
      ScanAt(line, i, w0, start, out);
      if IsBlank(c) {
        var ts := w.Take();
        out := out + ts;
        start := true;
        i := i + 1;
      } else if c == '\n' {
        var ts := w.Take();
        out := out + (ts + [Op(Newline)]);
        start := true;
        i := i + 1;
      } else if start && c == '#' {
        i := SkipLine(line, i);
      } else if start && c == '2' && i + 1 < |line| && line[i + 1] == '>' {
        out := out + [Op(RedirErr)];
        i := i + 2;
      } else if IsOpChar(c) {
        var ts := w.Take();
        var two := if i + 1 < |line| then OpKind2(c, line[i + 1]) else Word;
        out := out + (ts + [Op(if two != Word then two else OpKind(c))]);
        i := if two != Word then i + 2 else i + 1;
        start := true;
      } else {
        var next := ScanText(line, i, w, start);
        if next.None? {
          return None;
        }
        i := next.value;
        start := false;
      }
    }
    var ts := w.Take();
    r := Some(out + ts);
  }

  /** The end of the comment that starts at `i`. */
  method SkipLine(line: string, i: nat) returns (next: nat)
    requires i < |line| && line[i] != '\n'
    ensures i < next <= |line| && line[next..] == SkipComment(line[i..])
  {
    next := i;
    while next < |line| && line[next] != '\n'
      invariant i <= next <= |line| && (next == i ==> next < |line|)
      invariant SkipComment(line[next..]) == SkipComment(line[i..])
    {
      next := next + 1;
    }
  }

  lemma NothingYet(r: Option<seq<Token>>)
    ensures Pre([], r) == r
  {
    assert r.Some? ==> [] + r.value == r.value;
  }

  lemma PrePre(x: seq<Token>, y: seq<Token>, r: Option<seq<Token>>)
    ensures Pre(x, Pre(y, r)) == Pre(x + y, r)
  {
    if r.Some? { assert x + (y + r.value) == (x + y) + r.value; }
  }

  /** What the scan does at index `i`, with the tokens found so far in front. */
  lemma {:induction false} ScanAt(line: string, i: nat, w: Pending, start: bool, out: seq<Token>)
    requires i < |line|
    ensures var c, r := line[i], Pre(out, Scan(line[i..], w, start));
            && (IsBlank(c) ==> r == Pre(out + Finish(w), Scan(line[i + 1..], NOTHING, true)))
            && (c == '\n' ==> r == Pre(out + (Finish(w) + [Op(Newline)]), Scan(line[i + 1..], NOTHING, true)))
            && (start && c == '#' ==> r == Pre(out, Scan(SkipComment(line[i..]), w, start)))
            && (start && c == '2' && i + 1 < |line| && line[i + 1] == '>' ==>
                  r == Pre(out + [Op(RedirErr)], Scan(line[i + 2..], w, start)))
            && (IsOpChar(c) ==>
                  var two := if i + 1 < |line| then OpKind2(c, line[i + 1]) else Word;
                  r == Pre(out + (Finish(w) + [Op(if two != Word then two else OpKind(c))]),
                           Scan(line[if two != Word then i + 2 else i + 1..], NOTHING, true)))
  {
    var s, c := line[i..], line[i];
    assert s[1..] == line[i + 1..];
    assert |s| > 1 ==> s[1] == line[i + 1] && s[2..] == line[i + 2..];
    if IsBlank(c) {
      PrePre(out, Finish(w), Scan(line[i + 1..], NOTHING, true));
    } else if c == '\n' {
      PrePre(out, Finish(w) + [Op(Newline)], Scan(line[i + 1..], NOTHING, true));
    } else if start && c == '2' && i + 1 < |line| && line[i + 1] == '>' {
      PrePre(out, [Op(RedirErr)], Scan(line[i + 2..], w, start));
    } else if IsOpChar(c) {
      PrePre(out, Finish(w) + [Op(OpAt(s).1)], Scan(s[OpAt(s).0..], NOTHING, true));
    }
  }
}
