/** A text as the lines that reading it one line at a time gives. */
module Lines {

  /** The characters before the first newline. */
  function LineLen(text: string): (n: nat)
    ensures n <= |text| && (n < |text| ==> text[n] == '\n')
    ensures forall i | 0 <= i < n :: text[i] != '\n'
  {
    if text == "" || text[0] == '\n' then 0 else 1 + LineLen(text[1..])
  }

  /** What is left after a line and its newline. */
  function AfterLine(text: string): string {
    if LineLen(text) == |text| then "" else text[LineLen(text) + 1..]
  }

  /** The lines of a text; the last one needs no newline. */
  function LinesOf(text: string): seq<string>
    decreases |text|
  {
    if text == "" then [] else [text[..LineLen(text)]] + LinesOf(AfterLine(text))
  }

  /** The lines of a stream that ends, or breaks, after the text: a line that is
      still open when reading fails is lost. */
  function LinesRead(text: string, broken: bool): (lines: seq<string>)
    ensures !broken ==> lines == LinesOf(text)
    decreases |text|
  {
    if text == "" || (broken && LineLen(text) == |text|) then []
    else [text[..LineLen(text)]] + LinesRead(AfterLine(text), broken)
  }

  lemma {:induction false} LineLenIs(text: string, k: nat)
    requires k <= |text| && (k < |text| ==> text[k] == '\n') && '\n' !in text[..k]
    ensures LineLen(text) == k
  {
    assert forall i | 0 <= i < k :: text[i] == text[..k][i];
  }

  /** What a broken stream gives: the lines up to its last newline. */
  lemma {:induction false} LinesBefore(head: string, tail: string)
    requires (head == "" || head[|head| - 1] == '\n') && '\n' !in tail
    ensures LinesRead(head + tail, true) == LinesOf(head)
    decreases |head|
  {
    var text := head + tail;
    if head == "" {
      assert text == tail && tail[..|tail|] == tail;
      LineLenIs(tail, |tail|);
    } else {
      var k := LineLen(head);
      assert head[|head| - 1] == '\n';
      assert text[..k] == head[..k] && text[k] == head[k];
      LineLenIs(text, k);
      assert text[k + 1..] == head[k + 1..] + tail;
      LinesBefore(head[k + 1..], tail);
    }
  }
}
