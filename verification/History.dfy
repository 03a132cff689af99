/** Command history: a fixed ring of lines, saved and loaded as text. */
module History {
  import opened Options
  import opened Lines

  // ---- The bounded queue ------------------------------------------------------------

  /** No empty entry and no immediate repeat. */
  predicate Tidy(es: seq<string>) {
    && (forall i | 0 <= i < |es| :: es[i] != "")
    && (forall i | 0 <= i < |es| - 1 :: es[i] != es[i + 1])
  }

  /** Adding a line: blank lines and immediate repeats are dropped, a full queue
      gives up its oldest entry. */
  function Added(es: seq<string>, cap: nat, line: string): seq<string>
    requires cap > 0 && |es| <= cap
  {
    if line == "" || (es != [] && es[|es| - 1] == line) then es
    else (if |es| == cap then es[1..] else es) + [line]
  }

  lemma AddedTidy(es: seq<string>, cap: nat, line: string)
    requires cap > 0 && |es| <= cap && Tidy(es)
    ensures |Added(es, cap, line)| <= cap && Tidy(Added(es, cap, line))
    ensures line != "" ==> Added(es, cap, line) != [] && Added(es, cap, line)[|Added(es, cap, line)| - 1] == line
  {
    var t := if |es| == cap then es[1..] else es;
    forall i | 0 <= i < |t| - 1 ensures t[i] != t[i + 1] {
      var k := if |es| == cap then i + 1 else i;
      assert es[k] != es[k + 1];
    }
  }

  function LoadedFrom(es: seq<string>, cap: nat, lines: seq<string>): (r: seq<string>)
    requires cap > 0 && |es| <= cap
    ensures |r| <= cap
    decreases |lines|
  {
    if lines == [] then es else LoadedFrom(Added(es, cap, lines[0]), cap, lines[1..])
  }

  /** Each entry and a newline. */
  function Text(es: seq<string>): string {
    if es == [] then "" else es[0] + "\n" + Text(es[1..])
  }

  predicate OneLine(line: string) { '\n' !in line }

  lemma {:induction false} LinesOfText(es: seq<string>)
    requires forall i | 0 <= i < |es| :: OneLine(es[i])
    ensures LinesOf(Text(es)) == es
  {
    if es != [] {
      assert OneLine(es[0]);
      var t := Text(es);
      var n := |es[0]|;
      assert t == es[0] + ("\n" + Text(es[1..]));
      assert t[..n] == es[0] && t[n] == '\n' && t[n + 1..] == Text(es[1..]);
      LineLenIs(t, n);
      LinesOfText(es[1..]);
    }
  }

  /** The last `cap` entries. */
  function Newest(es: seq<string>, cap: nat): seq<string> {
    if |es| <= cap then es else es[|es| - cap..]
  }

  lemma {:induction false} LoadKeepsNewest(es: seq<string>, cap: nat, lines: seq<string>)
    requires cap > 0 && |es| <= cap && Tidy(es + lines)
    ensures LoadedFrom(es, cap, lines) == Newest(es + lines, cap)
    decreases |lines|
  {
    if lines == [] {
      assert es + lines == es;
    } else {
      var all := es + lines;
      assert all[|es|] == lines[0];
      var k := |es| - 1;
      assert es != [] ==> all[k] != all[k + 1];
      var next := Added(es, cap, lines[0]);
      assert next == (if |es| == cap then es[1..] else es) + [lines[0]];
      if |es| == cap {
        assert next + lines[1..] == all[1..];
        TidyTail(all);
      } else {
        assert next + lines[1..] == all;
      }
      LoadKeepsNewest(next, cap, lines[1..]);
    }
  }

  lemma TidyTail(es: seq<string>)
    requires Tidy(es) && es != []
    ensures Tidy(es[1..])
  {
    forall i | 0 <= i < |es[1..]| - 1 ensures es[1..][i] != es[1..][i + 1] {
      var k := i + 1;
      assert es[k] != es[k + 1];
    }
  }

  /** Saving, and loading into an empty history that holds `cap` entries, gives
      back the newest min(cap, length) of them. */
  lemma {:induction false} SaveThenLoad(es: seq<string>, cap: nat)
    requires cap > 0 && Tidy(es) && forall i | 0 <= i < |es| :: OneLine(es[i])
    ensures LoadedFrom([], cap, LinesOf(Text(es))) == Newest(es, cap)
  {
    LinesOfText(es);
    assert [] + es == es;
    LoadKeepsNewest([], cap, es);
  }

  // ---- The ring --------------------------------------------------------------------------

  /** Where in the array entry number `i` sits. */
  function SlotOf(start: nat, i: nat, cap: nat): nat
    requires cap > 0
  {
    (start + i) % cap
  }

  lemma SlotIs(start: nat, i: nat, cap: nat)
    requires start < cap && i <= cap
    ensures SlotOf(start, i, cap) == (if start + i < cap then start + i else start + i - cap) < cap
  {
    var x := start + i;
    if x < cap { Small(x, cap); } else { WrapsOnce(x, cap); }
  }

  lemma Small(x: nat, cap: nat)
    requires x < cap
    ensures x % cap == x
  {
  }

  lemma Times(a: nat, b: nat, cap: nat)
    requires a <= b
    ensures a * cap <= b * cap
  {
  }

  lemma WrapsOnce(x: nat, cap: nat)
    requires cap <= x < 2 * cap
    ensures x % cap == x - cap
  {
    var q := x / cap;
    assert x == q * cap + x % cap;
    if q >= 2 { Times(2, q, cap); }
  }

  /** Different entries have different slots. */
  lemma SlotsDiffer(start: nat, i: nat, j: nat, cap: nat)
    requires start < cap && i < cap && j < cap && i != j
    ensures SlotOf(start, i, cap) != SlotOf(start, j, cap)
  {
    SlotIs(start, i, cap);
    SlotIs(start, j, cap);
  }

  class Ring {
    const lines: array<string>
    var len: nat
    var start: nat

    ghost predicate Valid()
      reads this, lines
    {
      lines.Length > 0 && len <= lines.Length && start < lines.Length && Tidy(Entries())
    }

    /** The live entries, oldest first. */
    ghost function Entries(): (es: seq<string>)
      requires lines.Length > 0 && start < lines.Length && len <= lines.Length
      reads this, lines
      ensures |es| == len
    {
      if start + len <= lines.Length then lines[start..start + len]
      else lines[start..] + lines[..start + len - lines.Length]
    }

    constructor (cap: nat)
      requires cap > 0
      ensures Valid() && Entries() == [] && lines.Length == cap && fresh(lines)
    {
      lines := new string[cap](_ => "");
      len, start := 0, 0;
    }

    method Add(line: string)
      requires Valid()
      modifies this, lines
      ensures Valid() && Entries() == Added(old(Entries()), lines.Length, line)
      ensures var es := old(Entries());
              Entries() == if line == "" || (es != [] && es[|es| - 1] == line) then es
                           else if |es| == lines.Length then es[1..] + [line] else es + [line]
    {
      hide SlotOf, Tidy;
      ghost var es := Entries();
      AddedTidy(es, lines.Length, line);
      if line == "" {
        return;
      }
      if len > 0 {
        SlotIs(start, len - 1, lines.Length);
        assert es[len - 1] == lines[SlotOf(start, len - 1, lines.Length)];
        if lines[SlotOf(start, len - 1, lines.Length)] == line {
          return;
        }
      }
      if len == lines.Length {
        Evict();
      }
      Append(line);
    }

    /** Drops the oldest entry. */
    method Evict()
      requires Valid() && len == lines.Length
      modifies this, lines
      ensures 0 <= start < lines.Length && len == lines.Length - 1
      ensures Entries() == old(Entries())[1..]
    {
      hide SlotOf, Tidy;
      ghost var s0, es := start, Entries();
      lines[start] := "";
      SlotIs(start, 1, lines.Length);
      start := SlotOf(start, 1, lines.Length);
      len := len - 1;
      forall i: nat | i < len ensures Entries()[i] == es[i + 1] {
        SlotIs(start, i, lines.Length);
        SlotIs(s0, i + 1, lines.Length);
        SlotIs(s0, 0, lines.Length);
      }
    }

    method Append(line: string)
      requires 0 <= start < lines.Length && len < lines.Length
      modifies this, lines
      ensures 0 <= start < lines.Length && len == old(len) + 1 <= lines.Length
      ensures Entries() == old(Entries()) + [line]
    {
      hide SlotOf;
      ghost var es := Entries();
      SlotIs(start, len, lines.Length);
      lines[SlotOf(start, len, lines.Length)] := line;
      len := len + 1;
      forall i: nat | i < len ensures Entries()[i] == (es + [line])[i] {
        SlotIs(start, i, lines.Length);
        if i < len - 1 { SlotsDiffer(start, i, len - 1, lines.Length); }
      }
    }

    /** Entry number `i`, counted from the oldest, if there are that many. */
    method Get(i: nat) returns (line: Option<string>)
      requires Valid()
      ensures line == if i < |Entries()| then Some(Entries()[i]) else None
    {
      if i >= len {
        return None;
      }
      SlotIs(start, i, lines.Length);
      line := Some(lines[SlotOf(start, i, lines.Length)]);
    }

    /** The text that stores the queue, each entry ended by a newline. */
    method Save() returns (text: string)
      requires Valid()
      ensures text == Text(Entries())
    {
      hide SlotOf, Tidy, Text;
      text := "";
      var i := 0;
      TextStart(Entries());
      while i < len
        invariant i <= len && text == Text(Entries()[..i])
      {
        TextNext(Entries(), i);
        SlotIs(start, i, lines.Length);
        text := text + (lines[SlotOf(start, i, lines.Length)] + "\n");
        i := i + 1;
      }
      assert Entries()[..i] == Entries();
    }

    /** Adds the lines of a text in turn, the last one whether or not a newline ends it. */
    method Load(text: string)
      requires Valid()
      modifies this, lines
      ensures Valid() && Entries() == LoadedFrom(old(Entries()), lines.Length, LinesOf(text))
    {
      hide SlotOf, Tidy, LoadedFrom, LinesOf, LineLen, Added, Ring.Entries;
      ghost var all := LoadedFrom(Entries(), lines.Length, LinesOf(text));
      var i, buf := 0, "";
      assert buf + text[i..] == text;
      while i < |text|
        invariant Valid() && i <= |text| && '\n' !in buf
        invariant all == LoadedFrom(Entries(), lines.Length, LinesOf(buf + text[i..]))
      {
        var c := text[i];
        CharNext(buf, text, i);
        if c == '\n' {
          LoadLine(Entries(), lines.Length, buf, text[i + 1..]);
          Add(buf);
          buf := "";
        } else {
          buf := buf + [c];
        }
        i := i + 1;
      }
      assert buf + text[i..] == buf;
      LoadLast(Entries(), lines.Length, buf);
      if buf != "" {
        Add(buf);
      }
    }
  }

  lemma CharNext(buf: string, text: string, i: nat)
    requires i < |text|
    ensures buf + text[i..] == (buf + [text[i]]) + text[i + 1..] == buf + ([text[i]] + text[i + 1..])
    ensures "" + text[i + 1..] == text[i + 1..]
  {
  }

  lemma TextStart(es: seq<string>)
    ensures Text(es[..0]) == ""
  {
  }

  lemma {:induction false} TextSplit(a: seq<string>, b: seq<string>)
    ensures Text(a + b) == Text(a) + Text(b)
  {
    if a == [] {
      assert a + b == b;
    } else {
      assert (a + b)[1..] == a[1..] + b;
      TextSplit(a[1..], b);
    }
  }

  lemma TextNext(es: seq<string>, i: nat)
    requires i < |es|
    ensures Text(es[..i + 1]) == Text(es[..i]) + (es[i] + "\n")
  {
    assert es[..i + 1] == es[..i] + [es[i]];
    TextSplit(es[..i], [es[i]]);
    assert [es[i]][1..] == [];
  }

  lemma {:induction false} LoadLine(es: seq<string>, cap: nat, line: string, rest: string)
    requires cap > 0 && |es| <= cap && OneLine(line)
    ensures |Added(es, cap, line)| <= cap
    ensures LoadedFrom(es, cap, LinesOf(line + (['\n'] + rest))) == LoadedFrom(Added(es, cap, line), cap, LinesOf(rest))
  {
    var t := line + (['\n'] + rest);
    var n := |line|;
    assert t[..n] == line && t[n] == '\n' && t[n + 1..] == rest;
    LineLenIs(t, n);
    assert LinesOf(t)[0] == line && LinesOf(t)[1..] == LinesOf(rest);
  }

  lemma {:induction false} LoadLast(es: seq<string>, cap: nat, line: string)
    requires cap > 0 && |es| <= cap && OneLine(line)
    ensures LoadedFrom(es, cap, LinesOf(line)) == if line == "" then es else Added(es, cap, line)
  {
    if line != "" {
      assert line[..|line|] == line;
      LineLenIs(line, |line|);
      assert LinesOf("") == [];
      assert LinesOf(line) == [line];
    }
  }
}
