/**
 * String helpers shared by the passes: decimal rendering of unsigned numbers
 * (what `formatv("{0}", n)` prints), line splitting with the semantics of
 * `std::getline` on a string stream, and the two-space indentation used by
 * the report printer.
 */
module Text {

  // ---------------------------------------------------------------------------
  // Decimal numbers
  // ---------------------------------------------------------------------------

  predicate IsDigit(c: char) {
    '0' <= c <= '9'
  }

  /** A non-empty run of decimal digits. */
  predicate IsDigits(s: string) {
    |s| > 0 && forall k :: 0 <= k < |s| ==> IsDigit(s[k])
  }

  function DigitChar(d: nat): (c: char)
    requires d < 10
    ensures IsDigit(c) && c as int - '0' as int == d
  {
    ('0' as int + d) as char
  }

  function DigitValue(c: char): nat
    requires IsDigit(c)
  {
    c as int - '0' as int
  }

  /** The decimal representation of `n`, most significant digit first. */
  function NatToString(n: nat): (s: string)
    ensures IsDigits(s)
    ensures (s[0] == '0') == (n == 0)
    decreases n
  {
    if n < 10 then [DigitChar(n)] else NatToString(n / 10) + [DigitChar(n % 10)]
  }

  /** Reads a run of decimal digits back as a number. */
  function ParseDigits(s: string): nat
    requires IsDigits(s)
    decreases |s|
  {
    if |s| == 1 then DigitValue(s[0])
    else 10 * ParseDigits(s[..|s| - 1]) + DigitValue(s[|s| - 1])
  }

  /** Rendering a number and reading it back gives the number. */
  lemma {:induction false} ParseNatToString(n: nat)
    ensures ParseDigits(NatToString(n)) == n
  {
    if n >= 10 {
      var s := NatToString(n);
      assert s[..|s| - 1] == NatToString(n / 10);
      ParseNatToString(n / 10);
    }
  }

  /** Distinct numbers have distinct renderings. */
  lemma NatToStringInjective(a: nat, b: nat)
    requires NatToString(a) == NatToString(b)
    ensures a == b
  {
    ParseNatToString(a);
    ParseNatToString(b);
  }

  // ---------------------------------------------------------------------------
  // Lines
  // ---------------------------------------------------------------------------

  /** Index of the first '\n' in `s`, or `|s|` when there is none. */
  function FirstNewline(s: string): (n: nat)
    ensures n <= |s|
    ensures n < |s| ==> s[n] == '\n'
    ensures forall k :: 0 <= k < n ==> s[k] != '\n'
    decreases |s|
  {
    if s == [] then 0
    else if s[0] == '\n' then 0
    else 1 + FirstNewline(s[1..])
  }

  /**
   * The lines that repeated `std::getline` calls extract from a stream over
   * `s` until extraction fails: lines are separated by '\n', and a final '\n'
   * ends the last line instead of starting an empty one.
   */
  function Lines(s: string): (ls: seq<string>)
    ensures ls == [] <==> s == ""
    decreases |s|
  {
    if s == "" then []
    else
      var n := FirstNewline(s);
      if n == |s| then [s] else [s[..n]] + Lines(s[n + 1..])
  }

  /** Writes every line followed by '\n', as `std::ostream_iterator<std::string>(out, "\n")` does. */
  function JoinLines(ls: seq<string>): (r: string)
    ensures r == "" <==> ls == []
    ensures ls != [] ==> r[|r| - 1] == '\n'
    decreases |ls|
  {
    if ls == [] then "" else ls[0] + "\n" + JoinLines(ls[1..])
  }

  predicate NoNewlines(ls: seq<string>) {
    forall k :: 0 <= k < |ls| ==> '\n' !in ls[k]
  }

  /** No line `getline` reads contains '\n'. */
  lemma {:induction false} LinesHaveNoNewline(s: string)
    ensures NoNewlines(Lines(s))
    decreases |s|
  {
    if s != "" {
      var n := FirstNewline(s);
      if n < |s| {
        LinesHaveNoNewline(s[n + 1..]);
        LinesAt(s, n);
      }
    }
  }

  /** Splitting text written line by line gives back the lines written. */
  lemma {:induction false} LinesOfJoinLines(ls: seq<string>)
    requires NoNewlines(ls)
    ensures Lines(JoinLines(ls)) == ls
  {
    if ls != [] {
      var rest := JoinLines(ls[1..]);
      assert JoinLines(ls) == ls[0] + "\n" + rest;
      SplitFirstLine(ls[0], rest);
      assert NoNewlines(ls[1..]) by {
        assert forall k :: 0 <= k < |ls| - 1 ==> ls[1..][k] == ls[k + 1];
      }
      LinesOfJoinLines(ls[1..]);
    }
  }

  /** The first line of `line + "\n" + rest` is `line` when `line` holds no '\n'. */
  lemma SplitFirstLine(line: string, rest: string)
    requires '\n' !in line
    ensures var s := line + "\n" + rest;
            && FirstNewline(s) == |line| && s[..|line|] == line && s[|line| + 1..] == rest
  {
    var s := line + "\n" + rest;
    assert s[|line|] == '\n';
    assert forall k :: 0 <= k < |line| ==> s[k] == line[k];
  }

  /** A line without '\n' followed by '\n' is the first line `getline` reads. */
  lemma FirstLineOf(line: string, rest: string)
    requires '\n' !in line
    ensures Lines(line + "\n" + rest) == [line] + Lines(rest)
  {
    SplitFirstLine(line, rest);
  }

  /**
   * Writing the lines of `s` back out reproduces `s`, except that text whose
   * last line is unterminated gains a final '\n'.
   */
  lemma {:induction false} JoinLinesOfLines(s: string)
    ensures JoinLines(Lines(s)) == Terminated(s)
    decreases |s|
  {
    if s != "" {
      var n := FirstNewline(s);
      if n == |s| {
        assert Lines(s) == [s];
        JoinLinesCons(s, []);
      } else {
        var head, tail := s[..n], s[n + 1..];
        assert Lines(s) == [head] + Lines(tail);
        JoinLinesCons(head, Lines(tail));
        JoinLinesOfLines(tail);
        TerminatedAfterLine(s, n);
      }
    }
  }

  /** `s` as written out line by line: unchanged when empty or ending in '\n', otherwise with a '\n' added. */
  function Terminated(s: string): string {
    if s == "" || s[|s| - 1] == '\n' then s else s + "\n"
  }

  lemma TerminatedAfterLine(s: string, n: nat)
    requires n < |s| && s[n] == '\n'
    ensures Terminated(s) == s[..n] + "\n" + Terminated(s[n + 1..])
  {
    var head, tail := s[..n], s[n + 1..];
    assert s == head + "\n" + tail;
    if tail != "" {
      assert tail[|tail| - 1] == s[|s| - 1];
    }
  }

  lemma JoinLinesCons(line: string, ls: seq<string>)
    ensures JoinLines([line] + ls) == line + "\n" + JoinLines(ls)
  {
    assert ([line] + ls)[1..] == ls;
  }

  // ---------------------------------------------------------------------------
  // Indentation
  // ---------------------------------------------------------------------------

  /** One level of indentation: two spaces in front of the line. */
  function IndentLine(line: string): (r: string)
    ensures |r| == |line| + 2
    ensures r[..2] == "  " && r[2..] == line
  {
    "  " + line
  }

  function IndentAll(ls: seq<string>): (r: seq<string>)
    ensures |r| == |ls|
    ensures forall k :: 0 <= k < |ls| ==> r[k] == IndentLine(ls[k])
    decreases |ls|
  {
    if ls == [] then [] else [IndentLine(ls[0])] + IndentAll(ls[1..])
  }

  /**
   * Indents every line of `s` by one level and terminates each with '\n':
   * the lines are read with `std::getline` and written through an output
   * iterator that appends "\n" to each.
   */
  function WithIndent(s: string): (r: string)
    ensures r == "" <==> s == ""
    ensures s != "" ==> r[|r| - 1] == '\n'
  {
    JoinLines(IndentAll(Lines(s)))
  }

  /**
   * The lines of an indented text are the original lines, each with two
   * spaces in front; in particular indenting keeps the number of lines.
   */
  lemma WithIndentLines(s: string)
    ensures Lines(WithIndent(s)) == IndentAll(Lines(s))
    ensures |Lines(WithIndent(s))| == |Lines(s)|
  {
    var ls := IndentAll(Lines(s));
    LinesHaveNoNewline(s);
    forall k | 0 <= k < |ls| ensures '\n' !in ls[k] {
      assert ls[k] == "  " + Lines(s)[k];
    }
    LinesOfJoinLines(ls);
  }

  /** Every line starts with one level of indentation. */
  predicate Indented(ls: seq<string>) {
    forall k :: 0 <= k < |ls| ==> |ls[k]| >= 2 && ls[k][..2] == "  "
  }

  /** Every line is blank or starts with one level of indentation. */
  predicate BlankOrIndented(ls: seq<string>) {
    forall k :: 0 <= k < |ls| ==> ls[k] == "" || (|ls[k]| >= 2 && ls[k][..2] == "  ")
  }

  lemma IndentedConcat(x: seq<string>, y: seq<string>)
    requires Indented(x) && Indented(y)
    ensures Indented(x + y)
  {
  }

  lemma BlankOrIndentedConcat(x: seq<string>, y: seq<string>)
    requires BlankOrIndented(x) && BlankOrIndented(y)
    ensures BlankOrIndented(x + y)
  {
  }

  /** A lone '\n' is one empty line. */
  lemma LinesOfNewline()
    ensures Lines("\n") == [""]
  {
    assert FirstNewline("\n") == 0;
    LinesAt("\n", 0);
  }

  /** The lines of an indented text are all indented. */
  lemma WithIndentIndented(s: string)
    ensures Indented(Lines(WithIndent(s)))
  {
    WithIndentLines(s);
  }

  /** Text after a complete first line does not move where that line ends. */
  lemma FirstNewlineAppend(a: string, b: string)
    requires FirstNewline(a) < |a|
    ensures FirstNewline(a + b) == FirstNewline(a)
  {
    var n, m := FirstNewline(a), FirstNewline(a + b);
    assert (a + b)[n] == '\n';
    assert m < |a| ==> (a + b)[m] == a[m];
  }

  /** Text made of complete lines splits independently of what follows it. */
  lemma {:induction false} LinesAppend(a: string, b: string)
    requires a == "" || a[|a| - 1] == '\n'
    ensures Lines(a + b) == Lines(a) + Lines(b)
    decreases |a|
  {
    if a == "" {
      assert a + b == b;
    } else {
      var n := FirstNewline(a);
      CompleteLines(a);
      var tail := a[n + 1..];
      LinesAt(a, n);
      LinesAppendHead(a, b, n);
      LinesAppend(tail, b);
      ConcatAssociative([a[..n]], Lines(tail), Lines(b));
    }
  }

  /** Text ending in '\n' has a complete first line, and what follows it also ends in '\n' or is empty. */
  lemma CompleteLines(a: string)
    requires a != "" && a[|a| - 1] == '\n'
    ensures var n := FirstNewline(a);
            n < |a| && (a[n + 1..] == "" || a[n + 1..][|a[n + 1..]| - 1] == '\n')
  {
  }

  /** The complete first line of `a` is also the first line of `a + b`. */
  lemma LinesAppendHead(a: string, b: string, n: nat)
    requires n == FirstNewline(a) && n < |a|
    ensures Lines(a + b) == [a[..n]] + Lines(a[n + 1..] + b)
  {
    FirstNewlineAppend(a, b);
    SlicesOfAppend(a, b, n);
    LinesAt(a + b, n);
  }

  lemma SlicesOfAppend(a: string, b: string, n: nat)
    requires n < |a|
    ensures (a + b)[..n] == a[..n] && (a + b)[n + 1..] == a[n + 1..] + b
  {
  }

  /** A text with a complete first line splits into that line and the lines of the rest. */
  lemma LinesAt(s: string, n: nat)
    requires n == FirstNewline(s) && n < |s|
    ensures Lines(s) == [s[..n]] + Lines(s[n + 1..])
  {
    assert s != "";
  }

  lemma ConcatAssociative<T>(x: seq<T>, y: seq<T>, z: seq<T>)
    ensures x + (y + z) == (x + y) + z
  {
  }

  /** Complete lines of text, possibly none. */
  predicate Complete(t: string) {
    t == "" || t[|t| - 1] == '\n'
  }

  /** Appending an indented entry to indented complete lines keeps them indented and complete. */
  lemma AppendIndented(front: string, entry: string)
    requires Complete(front) && Indented(Lines(front)) && entry != ""
    ensures Complete(front + WithIndent(entry)) && Indented(Lines(front + WithIndent(entry)))
  {
    var w := WithIndent(entry);
    LinesAppend(front, w);
    WithIndentIndented(entry);
    IndentedConcat(Lines(front), Lines(w));
  }

  /** An indented entry followed by a blank line: complete lines, each blank or indented. */
  lemma IndentedThenBlank(entry: string)
    requires entry != ""
    ensures Complete(WithIndent(entry) + "\n") && BlankOrIndented(Lines(WithIndent(entry) + "\n"))
  {
    var w := WithIndent(entry);
    LinesAppend(w, "\n");
    LinesOfNewline();
    WithIndentIndented(entry);
    IndentedIsBlankOrIndented(Lines(w));
    BlankOrIndentedConcat(Lines(w), [""]);
  }

  /** Appending complete blank-or-indented lines to such lines keeps both properties. */
  lemma AppendBlankOrIndented(front: string, more: string)
    requires Complete(front) && BlankOrIndented(Lines(front))
    requires Complete(more) && BlankOrIndented(Lines(more))
    ensures Complete(front + more) && BlankOrIndented(Lines(front + more))
  {
    LinesAppend(front, more);
    BlankOrIndentedConcat(Lines(front), Lines(more));
  }

  /** A blank line in front of blank-or-indented lines. */
  lemma BlankThen(rest: string)
    requires BlankOrIndented(Lines(rest))
    ensures BlankOrIndented(Lines("\n" + rest))
  {
    FirstLineOf("", rest);
    assert "" + "\n" + rest == "\n" + rest;
    BlankOrIndentedConcat([""], Lines(rest));
  }

  lemma IndentedIsBlankOrIndented(ls: seq<string>)
    requires Indented(ls)
    ensures BlankOrIndented(ls)
  {
  }

  /** A header line without '\n' followed by `rest`: the header is the first line, the rest's lines follow. */
  lemma HeaderLine(h: string, rest: string)
    requires '\n' !in h
    ensures |Lines(h + "\n" + rest)| >= 1 && Lines(h + "\n" + rest)[0] == h
    ensures Lines(h + "\n" + rest)[1..] == Lines(rest)
  {
    FirstLineOf(h, rest);
    assert ([h] + Lines(rest))[1..] == Lines(rest);
  }

  /** Indented text, a blank line, then blank-or-indented lines: every line is blank or indented. */
  lemma IndentedBlankThen(entry: string, rest: string)
    requires entry != "" && BlankOrIndented(Lines(rest))
    ensures BlankOrIndented(Lines(WithIndent(entry) + ("\n" + rest)))
  {
    var w := WithIndent(entry);
    BlankThen(rest);
    LinesAppend(w, "\n" + rest);
    WithIndentIndented(entry);
    IndentedIsBlankOrIndented(Lines(w));
    BlankOrIndentedConcat(Lines(w), Lines("\n" + rest));
  }
}
