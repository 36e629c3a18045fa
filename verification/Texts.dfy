/** Texts and their lines. */
module Texts {

  predicate Plain(s: string) {
    '\n' !in s
  }

  /** unicode.IsSpace */
  predicate IsSpace(c: char) {
    var n := c as int;
    || 0x09 <= n <= 0x0D || n == 0x20 || n == 0x85 || n == 0xA0 || n == 0x1680 || 0x2000 <= n <= 0x200A
    || n == 0x2028 || n == 0x2029 || n == 0x202F || n == 0x205F || n == 0x3000
  }

  function TrimLeft(s: string): string {
    if s != "" && IsSpace(s[0]) then TrimLeft(s[1..]) else s
  }

  function TrimRight(s: string): string {
    if s != "" && IsSpace(s[|s| - 1]) then TrimRight(s[..|s| - 1]) else s
  }

  /** strings.TrimSpace */
  function TrimSpace(s: string): string {
    TrimRight(TrimLeft(s))
  }

  /** Where the first newline is. */
  function IndexOf(text: string): (n: nat)
    requires !Plain(text)
    ensures n < |text| && text[n] == '\n'
    ensures forall i | 0 <= i < n :: text[i] != '\n'
  {
    if text[0] == '\n' then 0 else IndexOf(text[1..]) + 1
  }

  /** strings.Split at newlines: never without a line. */
  function Split(text: string): (lines: seq<string>)
    ensures lines != [] && forall i | 0 <= i < |lines| :: Plain(lines[i])
  {
    if Plain(text) then [text]
    else
      var n := IndexOf(text);
      [text[..n]] + Split(text[n + 1..])
  }

  lemma SplitFirst(line: string, rest: string)
    requires Plain(line)
    ensures Split(line + "\n" + rest) == [line] + Split(rest)
  {
    var text := line + "\n" + rest;
    assert text[|line|] == '\n';
    assert forall i | 0 <= i < |line| :: text[i] == line[i];
    assert IndexOf(text) == |line|;
    assert text[..|line|] == line && text[|line| + 1..] == rest;
  }

  // ---------------------------------------------------------------------------
  // Lines as text

  /** Each line ended by a newline. */
  function Joined(lines: seq<string>): string {
    if lines == [] then "" else lines[0] + "\n" + Joined(lines[1..])
  }

  lemma {:induction false} JoinedConcat(x: seq<string>, y: seq<string>)
    ensures Joined(x + y) == Joined(x) + Joined(y)
  {
    if x == [] {
      assert x + y == y;
    } else {
      JoinedConcat(x[1..], y);
      assert (x + y)[1..] == x[1..] + y;
    }
  }

  predicate AllPlain(lines: seq<string>) {
    forall i | 0 <= i < |lines| :: Plain(lines[i])
  }

  /** The lines of a text that ends with a newline, or is empty. */
  function LinesOf(text: string): seq<string> {
    var lines := Split(text);
    lines[..|lines| - 1]
  }

  lemma {:induction false} SplitJoined(lines: seq<string>)
    requires AllPlain(lines)
    ensures Split(Joined(lines)) == lines + [""]
  {
    if lines != [] {
      SplitJoined(lines[1..]);
      SplitFirst(lines[0], Joined(lines[1..]));
    }
  }

  /** The text determines its lines. */
  lemma LinesOfJoined(lines: seq<string>)
    requires AllPlain(lines)
    ensures LinesOf(Joined(lines)) == lines
  {
    SplitJoined(lines);
  }

  // ---------------------------------------------------------------------------
  // Trimmed texts

  /** What writing a text line by line starts from. */
  function TextLines(text: string): (lines: seq<string>)
    ensures lines != [] && AllPlain(lines)
  {
    Split(TrimSpace(text))
  }

  predicate Starts(line: string) {
    line != "" && !IsSpace(line[0])
  }

  predicate Ends(line: string) {
    line != "" && !IsSpace(line[|line| - 1])
  }

  /** Lines whose text begins and ends with a visible character. */
  predicate Tidy(lines: seq<string>) {
    lines != [] && AllPlain(lines) && Starts(lines[0]) && Ends(lines[|lines| - 1])
  }

  /** The lines with newlines between them. */
  function Between(lines: seq<string>): string
    requires lines != []
  {
    if |lines| == 1 then lines[0] else lines[0] + "\n" + Between(lines[1..])
  }

  lemma {:induction false} JoinedBetween(lines: seq<string>)
    requires lines != []
    ensures Joined(lines) == Between(lines) + "\n"
  {
    if |lines| == 1 {
      assert lines[1..] == [];
    } else {
      JoinedBetween(lines[1..]);
      assert lines[0] + "\n" + (Between(lines[1..]) + "\n") == lines[0] + "\n" + Between(lines[1..]) + "\n";
    }
  }

  lemma {:induction false} SplitBetween(lines: seq<string>)
    requires lines != [] && AllPlain(lines)
    ensures Split(Between(lines)) == lines
  {
    if |lines| > 1 {
      SplitBetween(lines[1..]);
      SplitFirst(lines[0], Between(lines[1..]));
    }
  }

  lemma {:induction false} BetweenEnds(lines: seq<string>)
    requires lines != [] && Ends(lines[|lines| - 1])
    ensures Ends(Between(lines))
  {
    if |lines| > 1 {
      var rest := Between(lines[1..]);
      BetweenEnds(lines[1..]);
      AppendEnds(lines[0] + "\n", rest);
    }
  }

  lemma AppendEnds(a: string, b: string)
    requires Ends(b)
    ensures Ends(a + b)
  {
    assert (a + b)[|a + b| - 1] == b[|b| - 1];
  }

  lemma BetweenStarts(lines: seq<string>)
    requires lines != [] && Starts(lines[0])
    ensures Starts(Between(lines))
  {
    if |lines| > 1 {
      assert Between(lines)[0] == lines[0][0];
    }
  }

  lemma TrimTidy(text: string)
    requires Starts(text) && Ends(text)
    ensures TrimSpace(text + "\n") == text
  {
    var s := text + "\n";
    assert TrimLeft(s) == s;
    assert s[|s| - 1] == '\n' && s[..|s| - 1] == text;
    assert TrimRight(s) == TrimRight(text) == text;
  }

  lemma TextLinesOfTidy(lines: seq<string>)
    requires Tidy(lines)
    ensures TextLines(Joined(lines)) == lines
  {
    JoinedBetween(lines);
    BetweenStarts(lines);
    BetweenEnds(lines);
    TrimTidy(Between(lines));
    SplitBetween(lines);
  }

  lemma TextLinesOfOne(line: string)
    requires Plain(line) && Starts(line) && Ends(line)
    ensures TextLines(line) == [line]
  {
  }
}
