/** Worked examples of the parser core: the vectors of the source's own
    tests and documentation, and an input that shows lines being lost. */
module BlockExamples {
  import opened Wrappers
  import opened Strings
  import opened Blocks

  /** A vector of the cleanse_quoted_strings tests: the two adjacent
      triple-quoted literals of the test make the line 'hi'hi, whose
      single-quoted literal vanishes while the text after it is kept. */
  lemma {:induction false} CleanseVectorLiteralThenText(p0: string, p1: string)
    requires p0 == "'hi'" && p1 == "hi"
    ensures Cleansed(p0 + p1) == "hi"
  {
    assert CleansePrefix(p0, 4) == CleanseState(None, "");
    assert CleansePrefix(p1, 2) == CleanseState(None, "hi");
    CleansedConcat(p0, p1);
  }

  /** An even run of one kind of quote is a row of empty literals, and
      leaves nothing. */
  lemma {:induction false} QuoteRunVanishes(q: char, n: nat)
    requires IsQuote(q) && n % 2 == 0
    ensures Cleansed(seq(n, _ => q)) == ""
    decreases n
  {
    if n > 0 {
      var rest := seq(n - 2, _ => q);
      QuoteRunVanishes(q, n - 2);
      assert seq(n, _ => q) == [] + [q, q] + rest;
      LiteralVanishes([], [q, q], rest, q);
    }
  }

  /** The two vectors of the cleanse_quoted_strings tests made of sixteen
      single or sixteen double quotes. */
  lemma {:induction false} CleanseVectorQuoteRuns(q: char, vector: string)
    requires q == '\'' || q == '"'
    requires vector == seq(16, _ => q)
    ensures Cleansed(vector) == ""
  {
    QuoteRunVanishes(q, 16);
  }

  /** A nested chunk whose own last lines never return to depth 0 is lost,
      although the braces of the whole input balance. */
  lemma {:induction false} UnclosedInnerChunkIsLost(lines: seq<Line>)
    requires lines == [Line(0, "a {"), Line(1, "b {"), Line(2, "c"), Line(3, "}}")]
    ensures GrabBlocks(lines) == Some(Block([lines[0], lines[3]], [Block([lines[1]], [])]))
    ensures Lost(lines) == [lines[2]]
    ensures DepthAfter(Cleansed(lines[0].code + lines[1].code + lines[2].code + lines[3].code), 0) == 0
  {
    var l0, l1, l2, l3 := lines[0], lines[1], lines[2], lines[3];
    LostExampleOpening(lines);
    LostExampleInnerChunk([l1, l2]);
    // "}}" entered at depth 2
    CleanseQuoteFree(l3.code);
    assert DepthAfter(l3.code[..1], 2) == 1;
    assert Classify(l3.code, 2) == (true, 0);
    assert ScanLines(lines, 4) == ScanStep(Scan(2, [l0], [], [l1, l2], []), l3);
    assert ScanLines(lines, 4) == Scan(0, [l0, l3], [Block([l1], [])], [], [l2]);
    BracesOfLostExampleBalance(lines);
  }

  /** The first three lines of the lost-line example: "a {" opens the
      block, "b {" and "c" wait in the chunk at depth 2, whatever follows. */
  lemma {:induction false} LostExampleOpening(lines: seq<Line>)
    requires |lines| >= 3 && lines[0] == Line(0, "a {") && lines[1].code == "b {" && lines[2].code == "c"
    ensures ScanLines(lines, 3) == Scan(2, [lines[0]], [], [lines[1], lines[2]], [])
  {
    var l0, l1, l2 := lines[0], lines[1], lines[2];
    LostExampleFirstLine(lines);
    assert ScanLines(lines, 2) == ScanStep(ScanLines(lines, 1), l1);
    OpeningLineWaits(Scan(1, [l0], [], [], []), l1);
    assert ScanLines(lines, 3) == ScanStep(ScanLines(lines, 2), l2);
    PlainLineWaits(Scan(2, [l0], [], [l1], []), l2);
  }

  /** A line "b {" entered at depth 1 does not reach depth 0: it waits in
      the chunk and leaves the depth at 2. */
  lemma OpeningLineWaits(st: Scan, line: Line)
    requires st.depth == 1 && line.code == "b {"
    ensures ScanStep(st, line) == Scan(2, st.top, st.subs, st.chunk + [line], st.lost)
  {
    CleanseQuoteFree(line.code);
    assert DepthAfter(line.code[..1], 1) == 1 && !ZeroSeen(line.code[..1], 1);
    assert DepthAfter(line.code[..2], 1) == 1 && !ZeroSeen(line.code[..2], 1);
    assert Classify(line.code, 1) == (false, 2);
  }

  /** A line "c" entered at depth 2 waits in the chunk. */
  lemma PlainLineWaits(st: Scan, line: Line)
    requires st.depth == 2 && line.code == "c"
    ensures ScanStep(st, line) == Scan(2, st.top, st.subs, st.chunk + [line], st.lost)
  {
    CleanseQuoteFree(line.code);
    assert line.code[..0] == [];
    assert DepthAfter(line.code, 2) == 2;
    assert !ZeroSeen(line.code, 2);
    assert Classify(line.code, 2) == (false, 2);
  }

  /** "a {" entered at depth 0 opens the top block. */
  lemma {:induction false} LostExampleFirstLine(lines: seq<Line>)
    requires |lines| > 0 && lines[0] == Line(0, "a {")
    ensures ScanLines(lines, 1) == Scan(1, [lines[0]], [], [], [])
  {
    var l0 := lines[0];
    CleanseQuoteFree(l0.code);
    ZeroSeenAtZero(l0.code);
    assert DepthAfter(l0.code[..1], 0) == 0;
    assert DepthAfter(l0.code[..2], 0) == 0;
    assert Classify(l0.code, 0) == (true, 1);
  }

  /** The recursive call of the lost-line example: its last line never
      returns to depth 0 and is dropped. */
  lemma {:induction false} LostExampleInnerChunk(chunk: seq<Line>)
    requires chunk == [Line(1, "b {"), Line(2, "c")]
    ensures GrabBlocks(chunk) == Some(Block([chunk[0]], []))
    ensures Lost(chunk) == [chunk[1]]
  {
    var l1, l2 := chunk[0], chunk[1];
    CleanseQuoteFree(l1.code);
    CleanseQuoteFree(l2.code);
    ZeroSeenAtZero(l1.code);
    assert DepthAfter(l1.code[..1], 0) == 0;
    assert DepthAfter(l1.code[..2], 0) == 0;
    assert Classify(l1.code, 0) == (true, 1);
    assert ScanLines(chunk, 1) == Scan(1, [l1], [], [], []);
    assert Classify(l2.code, 1) == (false, 1);
    assert ScanLines(chunk, 2) == Scan(1, [l1], [], [l2], []);
  }

  /** The braces of the lost-line example balance. */
  lemma {:induction false} BracesOfLostExampleBalance(lines: seq<Line>)
    requires lines == [Line(0, "a {"), Line(1, "b {"), Line(2, "c"), Line(3, "}}")]
    ensures DepthAfter(Cleansed(lines[0].code + lines[1].code + lines[2].code + lines[3].code), 0) == 0
  {
    var l0, l1, l2, l3 := lines[0], lines[1], lines[2], lines[3];
    var all := l0.code + l1.code + l2.code + l3.code;
    CleanseQuoteFree(all);
    assert DepthAfter(l0.code[..1], 0) == 0;
    assert DepthAfter(l0.code[..2], 0) == 0;
    assert DepthAfter(l1.code[..1], 1) == 1;
    assert DepthAfter(l1.code[..2], 1) == 1;
    assert DepthAfter(l3.code[..1], 2) == 1;
    DepthAfterConcat(l0.code + l1.code + l2.code, l3.code, 0);
    DepthAfterConcat(l0.code + l1.code, l2.code, 0);
    DepthAfterConcat(l0.code, l1.code, 0);
  }

  /** The first inner block of find_bad_indentation's documented example,
      measured against the indentation 4 of its parent (`ws8` is the
      example's eight spaces). */
  lemma {:induction false} ExampleThenBranch(ws8: string)
    requires ws8 == "        "
    ensures FindBad(Block([Line(8, ws8 + "return false;")], []), Some(4)) == Ok([])
  {
    var b := Block([Line(8, ws8 + "return false;")], []);
    IndentLevelOf(ws8, "return false;");
    assert BadLines(b.lines, Some(4)) == [];
    FindBadLeaf(b, Some(4));
  }

  /** The second inner block: the line "oh noz" is not indented past 4. */
  lemma {:induction false} ExampleElseBranch(ws8: string)
    requires ws8 == "        "
    ensures FindBad(Block([Line(10, ws8 + "return true;"), Line(11, "oh noz")], []), Some(4))
         == Ok([Line(11, "oh noz")])
  {
    var b := Block([Line(10, ws8 + "return true;"), Line(11, "oh noz")], []);
    IndentLevelOf(ws8, "return true;");
    assert IndentLevel("oh noz") == Some(0);
    assert b.lines[..1] == [b.lines[0]];
    assert BadLines(b.lines[..1], Some(4)) == [];
    assert BadLines(b.lines, Some(4)) == [Line(11, "oh noz")];
    FindBadLeaf(b, Some(4));
  }

  /** The lines of `main`'s body: all indented by at least 4, the first by
      exactly 4. */
  lemma {:induction false} ExampleMainBodyLines(ws4: string, ws8: string, lines: seq<Line>)
    requires ws4 == "    " && ws8 == "        "
    requires lines == [Line(5, ws4 + "cout << \"{\" << endl;"), Line(6, ws4 + "if (true)"), Line(7, ws4 + "{"),
                       Line(9, ws4 + "} else {"), Line(12, ws4 + "}"), Line(13, ws8 + "pinata"), Line(14, ws4 + "return 0")]
    ensures BadLines(lines, Some(0)) == []
    ensures MinIndent(lines) == Some(4)
  {
    MainBodyLevels(ws4, ws8, lines);
    NoBadLines(lines, 0);
    MinIndentIs(lines, 0, 4);
  }

  lemma MainBodyLevels(ws4: string, ws8: string, lines: seq<Line>)
    requires ws4 == "    " && ws8 == "        "
    requires lines == [Line(5, ws4 + "cout << \"{\" << endl;"), Line(6, ws4 + "if (true)"), Line(7, ws4 + "{"),
                       Line(9, ws4 + "} else {"), Line(12, ws4 + "}"), Line(13, ws8 + "pinata"), Line(14, ws4 + "return 0")]
    ensures IndentLevel(lines[0].code) == Some(4)
    ensures forall i :: 0 <= i < |lines| ==> IndentLevel(lines[i].code).Some? && IndentLevel(lines[i].code).value >= 4
  {
    IndentLevelOf(ws4, "cout << \"{\" << endl;");
    IndentLevelOf(ws4, "if (true)");
    IndentLevelOf(ws4, "{");
    IndentLevelOf(ws4, "} else {");
    IndentLevelOf(ws4, "}");
    IndentLevelOf(ws8, "pinata");
    IndentLevelOf(ws4, "return 0");
  }

  /** The body of `main` in the documented example, with both branches as
      sub-blocks (`ws4` and `ws8` are its four and eight spaces). */
  lemma {:induction false} ExampleMainBody(ws4: string, ws8: string)
    requires ws4 == "    " && ws8 == "        "
    ensures FindBad(
      Block(
        [Line(5, ws4 + "cout << \"{\" << endl;"), Line(6, ws4 + "if (true)"), Line(7, ws4 + "{"),
         Line(9, ws4 + "} else {"), Line(12, ws4 + "}"), Line(13, ws8 + "pinata"), Line(14, ws4 + "return 0")],
        [Block([Line(8, ws8 + "return false;")], []),
         Block([Line(10, ws8 + "return true;"), Line(11, "oh noz")], [])]),
      Some(0)) == Ok([Line(11, "oh noz")])
  {
    var lines := [Line(5, ws4 + "cout << \"{\" << endl;"), Line(6, ws4 + "if (true)"), Line(7, ws4 + "{"),
                  Line(9, ws4 + "} else {"), Line(12, ws4 + "}"), Line(13, ws8 + "pinata"), Line(14, ws4 + "return 0")];
    var b := Block(lines,
        [Block([Line(8, ws8 + "return false;")], []),
         Block([Line(10, ws8 + "return true;"), Line(11, "oh noz")], [])]);
    ExampleMainBodyLines(ws4, ws8, lines);
    ExampleThenBranch(ws8);
    ExampleElseBranch(ws8);
    assert FindBadFrom(b, 4, 2) == Ok([]);
    FindBadFromStep(b, 4, 1);
    FindBadFromStep(b, 4, 0);
    var oh := [Line(11, "oh noz")];
    assert FindBadFrom(b, 4, 1).value == oh + [] == oh;
    assert FindBadFrom(b, 4, 0).value == [] + oh == oh;
    FindBadNode(b, Some(0), 4);
    assert BadLines(b.lines, Some(0)) + oh == oh;
  }

  /** The top-level lines of the documented example: the least indentation
      is 0, and nothing is reported without a minimum. */
  lemma {:induction false} ExampleTopLines(top: seq<Line>)
    requires top == [Line(0, "#include <iostream>"), Line(1, ""), Line(2, "using namespace std;"), Line(3, ""),
                     Line(4, "int main() {"), Line(15, "}")]
    ensures MinIndent(top) == Some(0)
    ensures BadLines(top, None) == []
  {
    IndentLevelOf("", top[0].code);
    assert "" + top[0].code == top[0].code;
    BadLinesWithoutMinimum(top);
    MinIndentZero(top, 0);
  }

  /** The example of find_bad_indentation's documentation: only "oh noz" is
      reported. */
  lemma {:induction false} FindBadExample(ws4: string, ws8: string, top: seq<Line>)
    requires ws4 == "    " && ws8 == "        "
    requires top == [Line(0, "#include <iostream>"), Line(1, ""), Line(2, "using namespace std;"), Line(3, ""),
                     Line(4, "int main() {"), Line(15, "}")]
    ensures FindBad(
      Block(top,
        [Block(
          [Line(5, ws4 + "cout << \"{\" << endl;"), Line(6, ws4 + "if (true)"), Line(7, ws4 + "{"),
           Line(9, ws4 + "} else {"), Line(12, ws4 + "}"), Line(13, ws8 + "pinata"), Line(14, ws4 + "return 0")],
          [Block([Line(8, ws8 + "return false;")], []),
           Block([Line(10, ws8 + "return true;"), Line(11, "oh noz")], [])])]),
      None) == Ok([Line(11, "oh noz")])
  {
    var b := Block(top,
        [Block(
          [Line(5, ws4 + "cout << \"{\" << endl;"), Line(6, ws4 + "if (true)"), Line(7, ws4 + "{"),
           Line(9, ws4 + "} else {"), Line(12, ws4 + "}"), Line(13, ws8 + "pinata"), Line(14, ws4 + "return 0")],
          [Block([Line(8, ws8 + "return false;")], []),
           Block([Line(10, ws8 + "return true;"), Line(11, "oh noz")], [])])]);
    ExampleTopLines(top);
    ExampleMainBody(ws4, ws8);
    assert FindBadFrom(b, 0, 1) == Ok([]);
    FindBadFromStep(b, 0, 0);
    FindBadNode(b, None, 0);
    var sub := FindBad(b.subBlocks[0], Some(0)).value;
    assert sub == [Line(11, "oh noz")];
    assert FindBadFrom(b, 0, 0).value == sub + [];
    assert [] + (sub + []) == sub;
  }
}
