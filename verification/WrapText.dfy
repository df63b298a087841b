/**
  The greedy line breaker of the rule catalogue. A breaking of a text is a list of lines,
  a line a non-empty list of words.
*/
module WrapText {
  import opened Text

  type Word = string

  /** The width of a line: the indent, the words and the single spaces between them. */
  function Width(indent: nat, line: seq<Word>): nat {
    if line == [] then indent
    else Width(indent, line[..|line| - 1]) + |line[|line| - 1]| + (if |line| > 1 then 1 else 0)
  }

  function Flatten(lines: seq<seq<Word>>): seq<Word> {
    if lines == [] then [] else lines[0] + Flatten(lines[1..])
  }

  /** A line may hold several words only if it fits. */
  ghost predicate FitsIfShared(maxWidth: int, indent: nat, line: seq<Word>) {
    line != [] && (|line| > 1 ==> Width(indent, line) <= maxWidth)
  }

  ghost predicate IsBreaking(maxWidth: int, indent: nat, words: seq<Word>, lines: seq<seq<Word>>) {
    Flatten(lines) == words && forall i :: 0 <= i < |lines| ==> FitsIfShared(maxWidth, indent, lines[i])
  }

  // ---------------------------------------------------------------- What the code writes

  function RenderLine(line: seq<Word>): string {
    if line == [] then ""
    else RenderLine(line[..|line| - 1]) + (if |line| > 1 then " " else "") + line[|line| - 1]
  }

  function Render(indent: string, lines: seq<seq<Word>>): string {
    if lines == [] then ""
    else
      Render(indent, lines[..|lines| - 1])
      + (if |lines| > 1 then "\n" else "") + indent + RenderLine(lines[|lines| - 1])
  }

  /** One more word: on the last line if there is room, else on a line of its own. */
  function Place(maxWidth: int, indent: nat, lines: seq<seq<Word>>, w: Word): (r: seq<seq<Word>>)
    ensures r != [] && r[|r| - 1] != []
  {
    if lines == [] then [[w]]
    else
      var last := lines[|lines| - 1];
      if Width(indent, last) + 1 + |w| > maxWidth then lines + [[w]]
      else lines[..|lines| - 1] + [last + [w]]
  }

  /** The lines the loop has built after these words. */
  function Greedy(maxWidth: int, indent: nat, words: seq<Word>): (lines: seq<seq<Word>>)
    ensures words != [] ==> lines != [] && lines[|lines| - 1] != []
  {
    if words == [] then []
    else Place(maxWidth, indent, Greedy(maxWidth, indent, words[..|words| - 1]), words[|words| - 1])
  }

  /** What has been written, and the length of the last line, when the loop has built these lines. */
  ghost predicate Wrote(out: string, lineLen: nat, indent: string, lines: seq<seq<Word>>) {
    && (lines == [] ==> out == indent && lineLen == |indent|)
    && (lines != [] ==> lines[|lines| - 1] != [] && out == Render(indent, lines)
                        && lineLen == Width(|indent|, lines[|lines| - 1]))
  }

  method WriteWord(out: string, lineLen: nat, first: bool, w: Word, maxWidth: int, indent: string,
                   ghost lines: seq<seq<Word>>)
    returns (out': string, lineLen': nat)
    requires Wrote(out, lineLen, indent, lines) && (first <==> lines == [])
    ensures Wrote(out', lineLen', indent, Place(maxWidth, |indent|, lines, w))
  {
    out', lineLen' := out, lineLen;
    if !first && lineLen + 1 + |w| > maxWidth {
      RenderNewLine(indent, lines, w);
      out' := out' + "\n";
      out' := out' + indent;
      lineLen' := |indent|;
    } else if !first {
      RenderSameLine(indent, lines, w);
      out' := out' + " ";
      lineLen' := lineLen' + 1;
    } else {
      RenderFirst(indent, w);
    }
    out' := out' + w;
    lineLen' := lineLen' + |w|;
  }

  method Wrap(text: string, maxWidth: int, indent: string) returns (out: string)
    ensures out == Render(indent, Greedy(maxWidth, |indent|, Fields(text)))
  {
    var words := Fields(text);
    if |words| == 0 { return ""; }
    var lineLen: nat := |indent|;
    out := indent;
    for i := 0 to |words|
      invariant Wrote(out, lineLen, indent, Greedy(maxWidth, |indent|, words[..i]))
    {
      assert words[..i + 1][..i] == words[..i];
      out, lineLen := WriteWord(out, lineLen, i == 0, words[i], maxWidth, indent,
                                Greedy(maxWidth, |indent|, words[..i]));
    }
    assert words[..|words|] == words;
  }

  lemma RenderFirst(indent: string, w: Word)
    ensures Render(indent, [[w]]) == indent + w && Width(|indent|, [w]) == |indent| + |w|
  {
    assert [[w]][..0] == [] && [w][..0] == [];
    assert RenderLine([w]) == w;
    assert Render(indent, []) + "" + indent == indent;
  }

  lemma RenderNewLine(indent: string, lines: seq<seq<Word>>, w: Word)
    requires lines != []
    ensures Render(indent, lines + [[w]]) == Render(indent, lines) + "\n" + indent + w
    ensures Width(|indent|, [w]) == |indent| + |w|
  {
    assert (lines + [[w]])[..|lines|] == lines && [w][..0] == [];
    assert RenderLine([w]) == w;
  }

  lemma RenderSameLine(indent: string, lines: seq<seq<Word>>, w: Word)
    requires lines != [] && lines[|lines| - 1] != []
    ensures var last := lines[|lines| - 1];
      && Render(indent, lines[..|lines| - 1] + [last + [w]]) == Render(indent, lines) + " " + w
      && Width(|indent|, last + [w]) == Width(|indent|, last) + 1 + |w|
  {
    var n := |lines| - 1;
    var last := lines[n];
    var after := lines[..n] + [last + [w]];
    assert after[..n] == lines[..n] && (last + [w])[..|last|] == last;
    assert RenderLine(last + [w]) == RenderLine(last) + " " + w;
    var head := Render(indent, lines[..n]) + (if |lines| > 1 then "\n" else "") + indent;
    assert head + (RenderLine(last) + " " + w) == head + RenderLine(last) + " " + w;
  }

  /** Widths are those of the lines written. */
  lemma {:induction false} WidthIsLength(indent: string, line: seq<Word>)
    ensures |indent + RenderLine(line)| == Width(|indent|, line)
  {
    if line != [] {
      WidthIsLength(indent, line[..|line| - 1]);
    }
  }

  // ---------------------------------------------------------------- It is a breaking

  lemma {:induction false} FlattenAppend(lines: seq<seq<Word>>, line: seq<Word>)
    ensures Flatten(lines + [line]) == Flatten(lines) + line
  {
    if lines == [] {
      assert Flatten([line]) == line + [];
    } else {
      assert (lines + [line])[1..] == lines[1..] + [line];
      FlattenAppend(lines[1..], line);
    }
  }

  lemma WidthAppend(indent: nat, line: seq<Word>, w: Word)
    ensures Width(indent, line + [w]) == Width(indent, line) + |w| + (if line == [] then 0 else 1)
  {
    assert (line + [w])[..|line|] == line;
  }

  lemma PlaceIsBreaking(maxWidth: int, indent: nat, front: seq<Word>, lines: seq<seq<Word>>, w: Word)
    requires IsBreaking(maxWidth, indent, front, lines)
    ensures IsBreaking(maxWidth, indent, front + [w], Place(maxWidth, indent, lines, w))
  {
    if lines == [] {
      assert Flatten([[w]]) == [w] + [];
    } else {
      var n := |lines| - 1;
      FlattenAppend(lines, [w]);
      WidthAppend(indent, lines[n], w);
      assert lines == lines[..n] + [lines[n]];
      FlattenAppend(lines[..n], lines[n]);
      FlattenAppend(lines[..n], lines[n] + [w]);
      assert Flatten(lines[..n]) + (lines[n] + [w]) == front + [w];
    }
  }

  /** No word is lost, moved or split, and a line over the limit holds a single word. */
  lemma {:induction false} GreedyIsBreaking(maxWidth: int, indent: nat, words: seq<Word>)
    ensures IsBreaking(maxWidth, indent, words, Greedy(maxWidth, indent, words))
  {
    if words != [] {
      var front, w := words[..|words| - 1], words[|words| - 1];
      GreedyIsBreaking(maxWidth, indent, front);
      PlaceIsBreaking(maxWidth, indent, front, Greedy(maxWidth, indent, front), w);
      assert words == front + [w];
    }
  }

  /** The line has no room for the first word of the next one. */
  ghost predicate Full(maxWidth: int, indent: nat, line: seq<Word>, next: seq<Word>) {
    next != [] && Width(indent, line + [next[0]]) > maxWidth
  }

  ghost predicate Tight(maxWidth: int, indent: nat, lines: seq<seq<Word>>) {
    forall i, j :: 0 <= i < |lines| && 0 <= j < |lines| && j == i + 1 ==> Full(maxWidth, indent, lines[i], lines[j])
  }

  /** No line could have taken one more word: together with the order of the words this fixes the breaking. */
  lemma {:induction false} GreedyIsTight(maxWidth: int, indent: nat, words: seq<Word>)
    ensures Tight(maxWidth, indent, Greedy(maxWidth, indent, words))
  {
    if words != [] {
      var front, w := words[..|words| - 1], words[|words| - 1];
      GreedyIsTight(maxWidth, indent, front);
    }
  }

  // ---------------------------------------------------------------- No breaking is shorter

  function LastOf(lines: seq<seq<Word>>): seq<Word> { if lines == [] then [] else lines[|lines| - 1] }

  /** A breaking without its last word. */
  function WithoutLast(lines: seq<seq<Word>>): seq<seq<Word>>
    requires lines != [] && LastOf(lines) != []
  {
    var n := |lines| - 1;
    var k := |lines[n]| - 1;
    if k == 0 then lines[..n] else lines[..n] + [lines[n][..k]]
  }

  lemma DropLast(maxWidth: int, indent: nat, words: seq<Word>, lines: seq<seq<Word>>)
    requires IsBreaking(maxWidth, indent, words, lines) && words != []
    ensures lines != [] && LastOf(lines) != [] && LastOf(lines)[|LastOf(lines)| - 1] == words[|words| - 1]
    ensures IsBreaking(maxWidth, indent, words[..|words| - 1], WithoutLast(lines))
  {
    var n := |lines| - 1;
    var k := |lines[n]| - 1;
    assert lines == lines[..n] + [lines[n]];
    FlattenAppend(lines[..n], lines[n]);
    if k == 0 {
      assert words[..|words| - 1] == Flatten(lines[..n]);
    } else {
      var cut := lines[n][..k];
      assert lines[n] == cut + [lines[n][k]];
      FlattenAppend(lines[..n], cut);
      assert words[..|words| - 1] == Flatten(lines[..n]) + cut;
      WidthAppend(indent, cut, lines[n][k]);
    }
  }

  lemma LastIsSuffix(lines: seq<seq<Word>>)
    ensures |LastOf(lines)| <= |Flatten(lines)|
    ensures LastOf(lines) == Flatten(lines)[|Flatten(lines)| - |LastOf(lines)|..]
  {
    if lines != [] {
      var n := |lines| - 1;
      assert lines == lines[..n] + [lines[n]];
      FlattenAppend(lines[..n], lines[n]);
    }
  }

  lemma {:induction false} SuffixIsNarrower(indent: nat, line: seq<Word>, j: nat)
    requires j < |line|
    ensures Width(indent, line[j..]) <= Width(indent, line)
  {
    var n := |line| - 1;
    if j < n {
      assert line[j..][..n - j] == line[..n][j..];
      SuffixIsNarrower(indent, line[..n], j);
    } else {
      assert line[j..] == [line[n]] && [line[n]][..0] == [];
      if n > 0 { WidthAtLeastIndent(indent, line[..n]); }
    }
  }

  lemma {:induction false} WidthAtLeastIndent(indent: nat, line: seq<Word>)
    ensures Width(indent, line) >= indent
  {
    if line != [] { WidthAtLeastIndent(indent, line[..|line| - 1]); }
  }

  /** Of two last lines of the same text, the one with fewer words is no wider. */
  lemma ShorterLastIsNarrower(indent: nat, a: seq<seq<Word>>, b: seq<seq<Word>>)
    requires Flatten(a) == Flatten(b) && 0 < |LastOf(a)| <= |LastOf(b)|
    ensures Width(indent, LastOf(a)) <= Width(indent, LastOf(b))
  {
    LastIsSuffix(a);
    LastIsSuffix(b);
    var j := |LastOf(b)| - |LastOf(a)|;
    assert LastOf(a) == LastOf(b)[j..];
    SuffixIsNarrower(indent, LastOf(b), j);
  }

  /** (lines, words on the last line), compared lexicographically. */
  ghost predicate NoWorse(a: seq<seq<Word>>, b: seq<seq<Word>>) {
    |a| < |b| || (|a| == |b| && |LastOf(a)| <= |LastOf(b)|)
  }

  /** Wherever a rival of the same text has room for one more word, so has a lead. */
  lemma LeadHasRoom(maxWidth: int, indent: nat, lead: seq<seq<Word>>, rival: seq<seq<Word>>, w: Word)
    requires Flatten(lead) == Flatten(rival) && 0 < |LastOf(lead)| <= |LastOf(rival)|
    requires Width(indent, LastOf(rival) + [w]) <= maxWidth
    ensures Place(maxWidth, indent, lead, w) == lead[..|lead| - 1] + [LastOf(lead) + [w]]
  {
    WidthAppend(indent, LastOf(rival), w);
    ShorterLastIsNarrower(indent, lead, rival);
  }

  lemma PlaceSize(maxWidth: int, indent: nat, lines: seq<seq<Word>>, w: Word)
    ensures var placed := Place(maxWidth, indent, lines, w);
      || (|placed| == |lines| + 1 && LastOf(placed) == [w])
      || (lines != [] && |placed| == |lines| && |LastOf(placed)| == |LastOf(lines)| + 1)
  {}

  lemma WithoutLastSize(lines: seq<seq<Word>>)
    requires lines != [] && LastOf(lines) != []
    ensures var rival, line := WithoutLast(lines), LastOf(lines);
      if |line| == 1 then |rival| == |lines| - 1
      else |rival| == |lines| && LastOf(rival) == line[..|line| - 1]
  {}

  /** One more word, where the rival puts it on its last line: then so does greedy, or it has fewer lines. */
  lemma LeadIsKeptOnLine(maxWidth: int, indent: nat, lead: seq<seq<Word>>, rival: seq<seq<Word>>, w: Word)
    requires Flatten(lead) == Flatten(rival) && |lead| == |rival| && 0 < |LastOf(lead)| <= |LastOf(rival)|
    requires Width(indent, LastOf(rival) + [w]) <= maxWidth
    ensures var placed := Place(maxWidth, indent, lead, w);
      |placed| == |rival| && |LastOf(placed)| <= |LastOf(rival)| + 1
  {
    LeadHasRoom(maxWidth, indent, lead, rival, w);
  }

  /** One more word: greedy keeps its lead. */
  lemma LeadIsKept(maxWidth: int, indent: nat, lead: seq<seq<Word>>, lines: seq<seq<Word>>)
    requires lines != [] && LastOf(lines) != [] && FitsIfShared(maxWidth, indent, LastOf(lines))
    requires Flatten(lead) == Flatten(WithoutLast(lines)) && (lead == [] || LastOf(lead) != [])
    requires NoWorse(lead, WithoutLast(lines))
    ensures NoWorse(Place(maxWidth, indent, lead, LastOf(lines)[|LastOf(lines)| - 1]), lines)
  {
    var line, rival := LastOf(lines), WithoutLast(lines);
    var w := line[|line| - 1];
    WithoutLastSize(lines);
    PlaceSize(maxWidth, indent, lead, w);
    if |line| > 1 && |lead| == |rival| {
      assert LastOf(rival) + [w] == line;
      LeadIsKeptOnLine(maxWidth, indent, lead, rival, w);
    }
  }

  /** Greedy breaking uses no more lines than any breaking whose shared lines all fit. */
  lemma {:induction false} GreedyIsOptimal(maxWidth: int, indent: nat, words: seq<Word>, lines: seq<seq<Word>>)
    requires IsBreaking(maxWidth, indent, words, lines)
    ensures NoWorse(Greedy(maxWidth, indent, words), lines)
    ensures |Greedy(maxWidth, indent, words)| <= |lines|
  {
    if words != [] {
      DropLast(maxWidth, indent, words, lines);
      var front := words[..|words| - 1];
      GreedyIsOptimal(maxWidth, indent, front, WithoutLast(lines));
      GreedyIsBreaking(maxWidth, indent, front);
      LeadIsKept(maxWidth, indent, Greedy(maxWidth, indent, front), lines);
    }
  }

  // ---------------------------------------------------------------- The words can be read back

  /** The gap in front of each word of a line. */
  function LineGaps(first: string, line: seq<Word>): seq<string> {
    if line == [] then []
    else LineGaps(first, line[..|line| - 1]) + [if |line| > 1 then " " else first]
  }

  function Gaps(indent: string, lines: seq<seq<Word>>): seq<string> {
    if lines == [] then []
    else
      var first := (if |lines| > 1 then "\n" else "") + indent;
      Gaps(indent, lines[..|lines| - 1]) + LineGaps(first, lines[|lines| - 1])
  }

  lemma {:induction false} SpreadConcat(g1: seq<string>, w1: seq<string>, g2: seq<string>, w2: seq<string>)
    requires |g1| == |w1| && |g2| == |w2|
    ensures Spread(g1 + g2, w1 + w2) == Spread(g1, w1) + Spread(g2, w2)
  {
    if w1 == [] {
      assert g1 + g2 == g2 && w1 + w2 == w2;
    } else {
      assert (g1 + g2)[1..] == g1[1..] + g2 && (w1 + w2)[1..] == w1[1..] + w2;
      SpreadConcat(g1[1..], w1[1..], g2, w2);
      Reassociate(g1[0], w1[0], Spread(g1[1..], w1[1..]), Spread(g2, w2));
    }
  }

  lemma {:induction false} LineIsSpread(first: string, line: seq<Word>)
    requires line != []
    ensures |LineGaps(first, line)| == |line|
    ensures Spread(LineGaps(first, line), line) == first + RenderLine(line)
    ensures LineGaps(first, line)[0] == first
    ensures forall i :: 0 < i < |line| ==> LineGaps(first, line)[i] == " "
  {
    var n := |line| - 1;
    var w := line[n];
    assert line == line[..n] + [w];
    if n == 0 {
      assert line == [w] && [w][..0] == [];
      assert RenderLine(line) == w;
      assert LineGaps(first, line) == [first];
    } else {
      LineIsSpread(first, line[..n]);
      SpreadConcat(LineGaps(first, line[..n]), line[..n], [" "], [w]);
      assert RenderLine(line) == RenderLine(line[..n]) + " " + w;
      assert first + RenderLine(line[..n]) + (" " + w) == first + (RenderLine(line[..n]) + " " + w);
    }
  }

  lemma {:induction false} TextIsSpread(indent: string, lines: seq<seq<Word>>)
    requires AllSpace(indent) && forall i :: 0 <= i < |lines| ==> lines[i] != []
    ensures |Gaps(indent, lines)| == |Flatten(lines)| && Separated(Gaps(indent, lines))
    ensures Render(indent, lines) == Spread(Gaps(indent, lines), Flatten(lines))
  {
    if lines != [] {
      var n := |lines| - 1;
      var line := lines[n];
      var first := (if |lines| > 1 then "\n" else "") + indent;
      TextIsSpread(indent, lines[..n]);
      LineIsSpread(first, line);
      assert lines == lines[..n] + [line];
      FlattenAppend(lines[..n], line);
      SpreadConcat(Gaps(indent, lines[..n]), Flatten(lines[..n]), LineGaps(first, line), line);
      RenderLast(indent, lines);
    }
  }

  lemma RenderLast(indent: string, lines: seq<seq<Word>>)
    requires lines != []
    ensures var n := |lines| - 1;
      Render(indent, lines)
      == Render(indent, lines[..n]) + ((if |lines| > 1 then "\n" else "") + indent + RenderLine(lines[n]))
  {}

  /** With a blank indent, splitting the wrapped text gives back exactly the words of the text. */
  lemma WrapKeepsWords(text: string, maxWidth: int, indent: string)
    requires AllSpace(indent)
    ensures Fields(Render(indent, Greedy(maxWidth, |indent|, Fields(text)))) == Fields(text)
  {
    var words := Fields(text);
    var lines := Greedy(maxWidth, |indent|, words);
    FieldsAreWords(text);
    GreedyIsBreaking(maxWidth, |indent|, words);
    TextIsSpread(indent, lines);
    FieldsOfSpread(Gaps(indent, lines), words, "");
    assert Render(indent, lines) + "" == Render(indent, lines);
  }

  // ---------------------------------------------------------------- The lines can be read back

  /** The lines of a text, cut at its newlines. */
  function LinesOf(text: string): seq<string> {
    var i := IndexByte(text, '\n');
    if i < 0 then [text] else [text[..i]] + LinesOf(text[i + 1..])
  }

  lemma IndexIs(s: string, i: nat)
    requires i < |s| && s[i] == '\n' && forall k :: 0 <= k < i ==> s[k] != '\n'
    ensures IndexByte(s, '\n') == i
  {}

  lemma FirstLine(head: string, rest: string)
    requires Free('\n', head)
    ensures LinesOf(head + "\n" + rest) == [head] + LinesOf(rest)
  {
    var text := head + "\n" + rest;
    assert forall k :: 0 <= k < |head| ==> text[k] == head[k];
    IndexIs(text, |head|);
    assert text[..|head|] == head && text[|head| + 1..] == rest;
  }

  lemma Regroup(head: string, rest: string, line: string)
    ensures head + "\n" + rest + "\n" + line == head + "\n" + (rest + "\n" + line)
  {}

  lemma CutFirst(text: string) returns (head: string, rest: string)
    requires !Free('\n', text)
    ensures text == head + "\n" + rest && Free('\n', head) && |rest| < |text|
  {
    var i := IndexByte(text, '\n');
    head, rest := text[..i], text[i + 1..];
  }

  lemma {:induction false} LinesAppend(text: string, line: string)
    requires Free('\n', line)
    ensures LinesOf(text + "\n" + line) == LinesOf(text) + [line]
    decreases |text|
  {
    if Free('\n', text) {
      FirstLine(text, line);
    } else {
      var head, rest := CutFirst(text);
      LinesAppend(rest, line);
      LinesAppendStep(head, rest, line);
    }
  }

  lemma LinesAppendStep(head: string, rest: string, line: string)
    requires Free('\n', head) && LinesOf(rest + "\n" + line) == LinesOf(rest) + [line]
    ensures LinesOf(head + "\n" + rest + "\n" + line) == LinesOf(head + "\n" + rest) + [line]
  {
    FirstLine(head, rest);
    FirstLine(head, rest + "\n" + line);
    Regroup(head, rest, line);
  }

  lemma {:induction false} LineHasNoBreak(line: seq<Word>)
    requires AllWords(line)
    ensures Free('\n', RenderLine(line))
  {
    if line != [] {
      LineHasNoBreak(line[..|line| - 1]);
      assert IsWord(line[|line| - 1]);
    }
  }

  function Written(indent: string, lines: seq<seq<Word>>): seq<string> {
    if lines == [] then []
    else Written(indent, lines[..|lines| - 1]) + [indent + RenderLine(lines[|lines| - 1])]
  }

  lemma Regroup4(a: string, b: string, c: string, d: string)
    ensures a + (b + c + d) == a + b + (c + d)
    ensures a == "" && b == "" ==> a + (b + c + d) == c + d
  {}

  lemma RenderSplit(indent: string, lines: seq<seq<Word>>)
    requires lines != []
    ensures var n := |lines| - 1;
      var last := indent + RenderLine(lines[n]);
      Render(indent, lines) == if n == 0 then last else Render(indent, lines[..n]) + "\n" + last
  {
    var n := |lines| - 1;
    RenderLast(indent, lines);
    Regroup4(Render(indent, lines[..n]), if |lines| > 1 then "\n" else "", indent, RenderLine(lines[n]));
  }

  /** Cutting the text at its newlines gives one line per line of the breaking, each behind the indent. */
  lemma {:induction false} RenderedLines(indent: string, lines: seq<seq<Word>>)
    requires lines != [] && Free('\n', indent) && forall i :: 0 <= i < |lines| ==> AllWords(lines[i])
    ensures LinesOf(Render(indent, lines)) == Written(indent, lines)
  {
    var n := |lines| - 1;
    LineHasNoBreak(lines[n]);
    RenderSplit(indent, lines);
    if n > 0 {
      RenderedLines(indent, lines[..n]);
      LinesAppend(Render(indent, lines[..n]), indent + RenderLine(lines[n]));
    }
  }
}
