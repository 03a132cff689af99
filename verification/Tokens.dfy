/** What the lexer hands to the parser. */
module Tokens {
  import opened Options

  datatype Kind =
    | Word | Pipe | RedirIn | RedirOut | RedirAppend | RedirErr
    | Amp | AndIf | OrIf | Semi | Newline | LParen | RParen

  /** One quoting run inside a word. */
  datatype Seg = Seg(text: string, expand: bool)

  /** `id` stands for the token's address: no code looks at it, but it tells two
      equal-looking tokens apart when we count where each one ends up. */
  datatype Token = Token(kind: Kind, segs: seq<Seg>, id: nat)

  /** An operator as the lexer makes it. */
  function Op(k: Kind): Token { Token(k, [], 0) }

  /** A keyword is one segment; the quoting is not visible here. */
  predicate IsKw(t: Token, kw: string) {
    t.kind == Word && |t.segs| == 1 && t.segs[0].text == kw
  }

  /** Keywords that close a body. */
  predicate IsEnder(t: Token) {
    || IsKw(t, "then") || IsKw(t, "elif") || IsKw(t, "else") || IsKw(t, "fi")
    || IsKw(t, "do") || IsKw(t, "done") || IsKw(t, "}")
  }

  predicate IsReserved(t: Token) {
    IsEnder(t) || IsKw(t, "if") || IsKw(t, "while") || IsKw(t, "for") || IsKw(t, "{")
  }

  predicate NameChar(c: char, first: bool) {
    'A' <= c <= 'Z' || 'a' <= c <= 'z' || c == '_' || (!first && '0' <= c <= '9')
  }

  /** `[A-Za-z_][A-Za-z0-9_]*` */
  predicate IsName(s: string) {
    |s| > 0 && forall i | 0 <= i < |s| :: NameChar(s[i], i == 0)
  }

  function NameOf(t: Token): Option<string> {
    if t.kind == Word && |t.segs| == 1 && IsName(t.segs[0].text) then Some(t.segs[0].text) else None
  }

  predicate IsRedir(k: Kind) {
    k == RedirIn || k == RedirOut || k == RedirAppend || k == RedirErr
  }
}
