/** The values and rules behind interact/parse.py and interact/parsing.py:
    lines of code, the tree of brace-delimited blocks, the removal of quoted
    literals, indentation levels and the indentation rule. The step-by-step
    procedures are methods in module Parse, each proved equal to the
    functions here; interact/parsing.py and interact/_utils.py repeat the
    same procedures, so one model serves all three files. */
module Blocks {
  import opened Wrappers
  import opened Strings

  /** A line of code and its line number. Equality of two lines is equality
      of both fields, which is what `Line.__eq__` compares. */
  datatype Line = Line(lineNumber: int, code: string)

  /** A block: its own lines and its nested blocks, in order. */
  datatype Block = Block(lines: seq<Line>, subBlocks: seq<Block>)

  // ---------------------------------------------------------------------
  // Indentation level of one line

  predicate IsIndentChar(c: char)
  {
    c == ' ' || c == '\t'
  }

  /** The number of leading spaces and tabs. */
  function LeadingWhitespace(code: string): (n: nat)
    ensures n <= |code|
    ensures forall j :: 0 <= j < n ==> IsIndentChar(code[j])
    ensures n < |code| ==> !IsIndentChar(code[n])
    decreases |code|
  {
    if code == [] || !IsIndentChar(code[0]) then 0 else 1 + LeadingWhitespace(code[1..])
  }

  /** `Line.indent_level`: the count of leading spaces and tabs, or None
      when the line holds nothing else (the empty line included). */
  function IndentLevel(code: string): (r: Option<nat>)
    ensures r.None? <==> forall j :: 0 <= j < |code| ==> IsIndentChar(code[j])
    ensures r.Some? ==> r.value < |code| && !IsIndentChar(code[r.value])
                        && forall j :: 0 <= j < r.value ==> IsIndentChar(code[j])
  {
    var n := LeadingWhitespace(code);
    if n == |code| then None else Some(n)
  }

  /** The test vectors of the indentation checker for indented lines. */
  lemma IndentLevelVectors()
    ensures IndentLevel("   foo\t \t") == Some(3)
    ensures IndentLevel("\t \t foobar  ") == Some(4)
    ensures IndentLevel("foo bar baz qux \t \t") == Some(0)
  {
    IndentLevelOf("   ", "foo\t \t");
    assert "   " + "foo\t \t" == "   foo\t \t";
    IndentLevelOf("\t \t ", "foobar  ");
    assert "\t \t " + "foobar  " == "\t \t foobar  ";
    IndentLevelOf("", "foo bar baz qux \t \t");
    assert "" + "foo bar baz qux \t \t" == "foo bar baz qux \t \t";
  }

  /** The test vectors of the indentation checker for blank lines. */
  lemma BlankLevelVectors()
    ensures IndentLevel("  \t \t    ") == None
    ensures IndentLevel("") == None
  {
  }

  /** A line made of indentation followed by text that starts with a
      visible character is indented by the length of the indentation. */
  lemma {:induction false} IndentLevelOf(ws: string, text: string)
    requires forall j :: 0 <= j < |ws| ==> IsIndentChar(ws[j])
    requires |text| > 0 && !IsIndentChar(text[0])
    ensures IndentLevel(ws + text) == Some(|ws|)
  {
    assert !IsIndentChar((ws + text)[|ws|]);
  }

  // ---------------------------------------------------------------------
  // Lines

  /** `Line.make_lines`: the i-th string becomes line number i, counting
      from 0; the `start` argument is not used. */
  function MakeLines(strings: seq<string>, start: int): (r: seq<Line>)
    ensures |r| == |strings|
    ensures forall i :: 0 <= i < |r| ==> r[i].lineNumber == i && r[i].code == strings[i]
  {
    seq(|strings|, i requires 0 <= i < |strings| => Line(i, strings[i]))
  }

  /** `Line.lines_to_str_list`. */
  function LinesToStrList(lines: seq<Line>): (r: seq<string>)
    ensures |r| == |lines|
    ensures forall i :: 0 <= i < |r| ==> r[i] == lines[i].code
  {
    seq(|lines|, i requires 0 <= i < |lines| => lines[i].code)
  }

  /** `Line.lines_to_str`. */
  function LinesToStr(lines: seq<Line>): string
  {
    Join(LinesToStrList(lines), "\n")
  }

  /** Numbering ignores `start`, and the codes come back in order. */
  lemma MakeLinesRoundTrip(strings: seq<string>, start: int, other: int)
    ensures MakeLines(strings, start) == MakeLines(strings, other)
    ensures LinesToStrList(MakeLines(strings, start)) == strings
  {
  }

  /** Two lines are equal exactly when their codes and numbers are. */
  lemma LineEquality(a: Line, b: Line)
    ensures a == b <==> a.code == b.code && a.lineNumber == b.lineNumber
  {
  }

  lemma {:induction false} SplitJoinedLines(strings: seq<string>)
    requires forall i :: 0 <= i < |strings| ==> forall j :: 0 <= j < |strings[i]| ==> !IsLineBreak(strings[i][j])
    requires |strings| > 0 ==> strings[|strings| - 1] != ""
    ensures SplitLines(Join(strings, "\n")) == strings
    decreases |strings|
  {
    if |strings| == 1 {
      var s := strings[0];
      assert FirstBreak(s) == |s|;
    } else if |strings| > 1 {
      var s := strings[0];
      var rest := Join(strings[1..], "\n");
      var joined := Join(strings, "\n");
      assert joined == s + "\n" + rest;
      FirstBreakAt(s, "\n" + rest);
      assert joined[|s|] == '\n';
      assert joined[|s| + 1..] == rest;
      assert joined[..|s|] == s;
      SplitJoinedLines(strings[1..]);
    }
  }

  lemma FirstBreakAt(s: string, t: string)
    requires forall j :: 0 <= j < |s| ==> !IsLineBreak(s[j])
    requires |t| > 0 && t[0] == '\n'
    ensures FirstBreak(s + t) == |s|
    decreases |s|
  {
    if s != [] {
      assert (s + t)[1..] == s[1..] + t;
      FirstBreakAt(s[1..], t);
    }
  }

  /** Joining the codes with "\n" and splitting the text again gives the
      codes back, when no code holds a line break and the last is not empty. */
  lemma LinesToStrRoundTrip(lines: seq<Line>)
    requires forall i :: 0 <= i < |lines| ==> forall j :: 0 <= j < |lines[i].code| ==> !IsLineBreak(lines[i].code[j])
    requires |lines| > 0 ==> lines[|lines| - 1].code != ""
    ensures SplitLines(LinesToStr(lines)) == LinesToStrList(lines)
  {
    SplitJoinedLines(LinesToStrList(lines));
  }

  // ---------------------------------------------------------------------
  // Removing quoted literals

  predicate IsQuote(c: char)
  {
    c == '"' || c == '\''
  }

  /** The number of backslashes immediately before position `i`. */
  function SlashesBefore(line: string, i: nat): nat
    requires i <= |line|
    decreases i
  {
    if i == 0 || line[i - 1] != '\\' then 0 else 1 + SlashesBefore(line, i - 1)
  }

  /** The character at `i` is escaped: an odd number of backslashes precede it. */
  predicate Escaped(line: string, i: nat)
    requires i <= |line|
  {
    SlashesBefore(line, i) % 2 == 1
  }

  /** The scanner of cleanse_quoted_strings: the opening quote of the
      string being skipped, if any, and the characters kept so far. */
  datatype CleanseState = CleanseState(inQuotes: Option<char>, kept: string)

  /** One character: a matching unescaped quote closes the string; any quote
      outside a string opens one (escaped or not); characters outside a
      string are kept; quotes themselves are never kept. */
  function CleanseStep(st: CleanseState, line: string, i: nat): CleanseState
    requires i < |line|
  {
    var c := line[i];
    if st.inQuotes == Some(c) && !Escaped(line, i) then CleanseState(None, st.kept)
    else if IsQuote(c) && st.inQuotes.None? then CleanseState(Some(c), st.kept)
    else if st.inQuotes.None? then CleanseState(None, st.kept + [c])
    else st
  }

  /** The scanner's state after the first `n` characters. */
  function CleansePrefix(line: string, n: nat): CleanseState
    requires n <= |line|
    decreases n
  {
    if n == 0 then CleanseState(None, []) else CleanseStep(CleansePrefix(line, n - 1), line, n - 1)
  }

  /** cleanse_quoted_strings. */
  function Cleansed(line: string): string
  {
    CleansePrefix(line, |line|).kept
  }

  lemma {:induction false} CleansePrefixInvariant(line: string, n: nat)
    requires n <= |line|
    ensures forall c :: c in CleansePrefix(line, n).kept ==> !IsQuote(c)
    ensures IsSubseq(CleansePrefix(line, n).kept, line[..n])
    ensures CleansePrefix(line, n).inQuotes.Some? ==> IsQuote(CleansePrefix(line, n).inQuotes.value)
    decreases n
  {
    if n > 0 {
      var st := CleansePrefix(line, n - 1);
      CleansePrefixInvariant(line, n - 1);
      assert line[..n] == line[..n - 1] + [line[n - 1]];
      if CleansePrefix(line, n).kept == st.kept {
        SubseqExtendRight(st.kept, line[..n - 1], line[n - 1]);
      } else {
        SubseqExtendBoth(st.kept, line[..n - 1], line[n - 1]);
      }
    }
  }

  /** The result holds no quote character and is a subsequence of the input. */
  lemma CleansedIsQuoteFreeSubsequence(line: string)
    ensures forall c :: c in Cleansed(line) ==> !IsQuote(c)
    ensures IsSubseq(Cleansed(line), line)
  {
    CleansePrefixInvariant(line, |line|);
    assert line[..|line|] == line;
  }

  lemma {:induction false} CleanseQuoteFreePrefix(line: string, n: nat)
    requires n <= |line|
    requires forall c :: c in line ==> !IsQuote(c)
    ensures CleansePrefix(line, n) == CleanseState(None, line[..n])
    decreases n
  {
    if n > 0 {
      CleanseQuoteFreePrefix(line, n - 1);
      assert line[n - 1] in line;
      assert line[..n] == line[..n - 1] + [line[n - 1]];
    }
  }

  /** A line without quote characters comes back unchanged. */
  lemma CleanseQuoteFree(line: string)
    requires forall c :: c in line ==> !IsQuote(c)
    ensures Cleansed(line) == line
  {
    CleanseQuoteFreePrefix(line, |line|);
    assert line[..|line|] == line;
  }

  /** Removing quoted literals twice is removing them once. */
  lemma CleansedIdempotent(line: string)
    ensures Cleansed(Cleansed(line)) == Cleansed(line)
  {
    CleansedIsQuoteFreeSubsequence(line);
    CleanseQuoteFree(Cleansed(line));
  }

  lemma {:induction false} SlashesBeforePrefix(line: string, more: string, i: nat)
    requires i <= |line|
    ensures SlashesBefore(line + more, i) == SlashesBefore(line, i)
    decreases i
  {
    if i > 0 {
      assert (line + more)[i - 1] == line[i - 1];
      SlashesBeforePrefix(line, more, i - 1);
    }
  }

  /** The scanner's state after `n` characters depends on those characters only. */
  lemma {:induction false} CleansePrefixOfPrefix(line: string, more: string, n: nat)
    requires n <= |line|
    ensures CleansePrefix(line + more, n) == CleansePrefix(line, n)
    decreases n
  {
    if n > 0 {
      CleansePrefixOfPrefix(line, more, n - 1);
      SlashesBeforePrefix(line, more, n - 1);
      assert (line + more)[n - 1] == line[n - 1];
    }
  }

  lemma {:induction false} SlashesBeforeShift(a: string, b: string, j: nat)
    requires j <= |b|
    requires |a| > 0 ==> a[|a| - 1] != '\\'
    ensures SlashesBefore(a + b, |a| + j) == SlashesBefore(b, j)
    decreases j
  {
    if j > 0 {
      assert (a + b)[|a| + j - 1] == b[j - 1];
      SlashesBeforeShift(a, b, j - 1);
    } else if |a| > 0 {
      assert (a + b)[|a| - 1] == a[|a| - 1];
    }
  }

  lemma {:induction false} CleansePrefixShift(a: string, b: string, j: nat)
    requires j <= |b|
    requires CleansePrefix(a, |a|).inQuotes.None?
    requires |a| > 0 ==> a[|a| - 1] != '\\'
    ensures CleansePrefix(a + b, |a| + j)
         == CleanseState(CleansePrefix(b, j).inQuotes, Cleansed(a) + CleansePrefix(b, j).kept)
    decreases j
  {
    if j == 0 {
      CleansePrefixOfPrefix(a, b, |a|);
    } else {
      CleansePrefixShift(a, b, j - 1);
      SlashesBeforeShift(a, b, j - 1);
      assert (a + b)[|a| + j - 1] == b[j - 1];
    }
  }

  /** Text split at a point outside any quoted literal, not just after a
      backslash, is cleansed piece by piece. */
  lemma {:induction false} CleansedConcat(a: string, b: string)
    requires CleansePrefix(a, |a|).inQuotes.None?
    requires |a| > 0 ==> a[|a| - 1] != '\\'
    ensures Cleansed(a + b) == Cleansed(a) + Cleansed(b)
  {
    CleansePrefixShift(a, b, |b|);
    var n := |a + b|;
    assert n == |a| + |b|;
    assert Cleansed(a + b) == CleansePrefix(a + b, n).kept;
    assert Cleansed(b) == CleansePrefix(b, |b|).kept;
  }

  /** Inside a literal opened by `q`, every later `q` that is escaped keeps
      the literal open and nothing is kept. */
  lemma {:induction false} InsideLiteral(lit: string, q: char, n: nat)
    requires IsQuote(q) && |lit| >= 1 && lit[0] == q
    requires 1 <= n <= |lit|
    requires forall j :: 1 <= j < n && lit[j] == q ==> Escaped(lit, j)
    ensures CleansePrefix(lit, n) == CleanseState(Some(q), [])
    decreases n
  {
    if n > 1 {
      InsideLiteral(lit, q, n - 1);
    }
  }

  /** A quoted literal (escaped quotes of its own kind inside, an unescaped
      one closing it) vanishes together with its quotes. */
  lemma {:induction false} LiteralVanishes(pre: string, lit: string, post: string, q: char)
    requires IsQuote(q) && |lit| >= 2 && lit[0] == q && lit[|lit| - 1] == q
    requires forall j :: 1 <= j < |lit| - 1 && lit[j] == q ==> Escaped(lit, j)
    requires !Escaped(lit, |lit| - 1)
    requires CleansePrefix(pre, |pre|).inQuotes.None?
    requires |pre| > 0 ==> pre[|pre| - 1] != '\\'
    ensures Cleansed(pre + lit + post) == Cleansed(pre) + Cleansed(post)
  {
    InsideLiteral(lit, q, |lit| - 1);
    assert CleansePrefix(lit, |lit|) == CleanseState(None, []);
    CleansedConcat(lit, post);
    CleansedConcat(pre, lit + post);
    assert pre + lit + post == pre + (lit + post);
  }

  /** A literal that is never closed removes the rest of the line. */
  lemma {:induction false} OpenLiteralRunsToEnd(pre: string, lit: string, q: char)
    requires IsQuote(q) && |lit| >= 1 && lit[0] == q
    requires forall j :: 1 <= j < |lit| && lit[j] == q ==> Escaped(lit, j)
    requires CleansePrefix(pre, |pre|).inQuotes.None?
    requires |pre| > 0 ==> pre[|pre| - 1] != '\\'
    ensures Cleansed(pre + lit) == Cleansed(pre)
  {
    InsideLiteral(lit, q, |lit|);
    CleansedConcat(pre, lit);
  }

  // ---------------------------------------------------------------------
  // Brace depth

  function Delta(c: char): int
  {
    if c == '{' then 1 else if c == '}' then -1 else 0
  }

  /** The depth after the characters of `s`, starting from `d`. */
  function DepthAfter(s: string, d: int): int
    decreases |s|
  {
    if s == [] then d else DepthAfter(s[..|s| - 1], d) + Delta(s[|s| - 1])
  }

  /** The depth after two pieces of text is the depth after the second,
      started from the depth after the first. */
  lemma {:induction false} DepthAfterConcat(a: string, b: string, d: int)
    ensures DepthAfter(a + b, d) == DepthAfter(b, DepthAfter(a, d))
    decreases |b|
  {
    if b == [] {
      assert a + b == a;
    } else {
      assert (a + b)[..|a + b| - 1] == a + b[..|b| - 1];
      DepthAfterConcat(a, b[..|b| - 1], d);
    }
  }

  /** The depth is 0 before some character of `s` or after the last one. */
  function ZeroSeen(s: string, d: int): bool
    decreases |s|
  {
    if s == [] then d == 0 else ZeroSeen(s[..|s| - 1], d) || DepthAfter(s, d) == 0
  }

  lemma {:induction false} ZeroSeenIff(s: string, d: int)
    ensures ZeroSeen(s, d) <==> exists k :: 0 <= k <= |s| && DepthAfter(s[..k], d) == 0
    decreases |s|
  {
    assert s[..|s|] == s;
    if s == [] {
      assert s[..0] == s;
    } else {
      var p := s[..|s| - 1];
      ZeroSeenIff(p, d);
      if ZeroSeen(p, d) {
        var k :| 0 <= k <= |p| && DepthAfter(p[..k], d) == 0;
        assert p[..k] == s[..k];
      }
      if exists k :: 0 <= k <= |s| && DepthAfter(s[..k], d) == 0 {
        var k :| 0 <= k <= |s| && DepthAfter(s[..k], d) == 0;
        if k < |s| {
          assert p[..k] == s[..k];
        }
      }
    }
  }

  /** Starting at depth 0, the depth is 0 before the first character. */
  lemma {:induction false} ZeroSeenAtZero(s: string)
    ensures ZeroSeen(s, 0)
    decreases |s|
  {
    if s != [] {
      ZeroSeenAtZero(s[..|s| - 1]);
    }
  }

  // ---------------------------------------------------------------------
  // The block tree

  /** The state of grab_blocks after some lines: the depth, the lines of the
      current block, its finished sub-blocks, the chunk of lines waiting for
      the depth to return to 0, and the lines that the recursive calls on
      flushed chunks did not place anywhere. */
  datatype Scan = Scan(depth: int, top: seq<Line>, subs: seq<Block>, chunk: seq<Line>, lost: seq<Line>)

  /** grab_blocks: None exactly for an empty input (see GrabBlocksNoneIff). */
  function GrabBlocks(lines: seq<Line>): Option<Block>
    decreases |lines|, |lines| + 1
  {
    var st := ScanLines(lines, |lines|);
    if |st.top| == 0 && |st.subs| == 0 then None else Some(Block(st.top, st.subs))
  }

  /** The lines of the input that are in no block of the tree: the unclosed
      chunk left at the end, and what each recursive call lost. */
  function Lost(lines: seq<Line>): seq<Line>
    decreases |lines|, |lines| + 1
  {
    var st := ScanLines(lines, |lines|);
    st.lost + st.chunk
  }

  /** Whether the line with quote-stripped text `stripped`, entered at depth
      `depth`, belongs to the current block, and the depth after it. */
  function Classify(stripped: string, depth: int): (bool, int)
  {
    (ZeroSeen(stripped, depth), DepthAfter(stripped, depth))
  }

  /** The loop of grab_blocks over the first `n` lines. */
  function ScanLines(lines: seq<Line>, n: nat): (st: Scan)
    requires n <= |lines|
    ensures |st.top| + |st.chunk| <= n
    ensures n > 0 ==> |st.top| > 0
    decreases |lines|, n
  {
    if n == 0 then Scan(0, [], [], [], [])
    else ScanStep(ScanLines(lines, n - 1), lines[n - 1])
  }

  /** One turn of the loop of grab_blocks: a line whose depth passes through
      0 joins the current block, after the pending chunk (if any) has been
      turned into a sub-block; any other line joins the chunk. */
  function ScanStep(st: Scan, line: Line): (next: Scan)
    ensures |next.top| + |next.chunk| <= |st.top| + |st.chunk| + 1
    ensures |next.top| >= |st.top|
    ensures st.depth == 0 ==> |next.top| == |st.top| + 1
    decreases |st.chunk| + 1, 0
  {
    ZeroSeenAtZero(Cleansed(line.code));
    var c := Classify(Cleansed(line.code), st.depth);
    var inBlock := c.0;
    var depth := c.1;
    if inBlock then
      if |st.chunk| > 0 then
        var sub := GrabBlocks(st.chunk);
        var subs := if sub.Some? then st.subs + [sub.value] else st.subs;
        Scan(depth, st.top + [line], subs, [], st.lost + Lost(st.chunk))
      else
        Scan(depth, st.top + [line], st.subs, [], st.lost)
    else
      Scan(depth, st.top, st.subs, st.chunk + [line], st.lost)
  }

  /** grab_blocks returns None exactly when it is given no lines; otherwise
      the first line is the first line of the top block. */
  lemma GrabBlocksNoneIff(lines: seq<Line>)
    ensures GrabBlocks(lines).None? <==> lines == []
    ensures lines != [] ==> GrabBlocks(lines).value.lines[0] == lines[0]
  {
    if lines != [] {
      FirstLineOnTop(lines, |lines|);
    }
  }

  lemma {:induction false} FirstLineOnTop(lines: seq<Line>, n: nat)
    requires 0 < n <= |lines|
    ensures ScanLines(lines, n).top[0] == lines[0]
    decreases n
  {
    if n > 1 {
      FirstLineOnTop(lines, n - 1);
    } else {
      ZeroSeenIff(Cleansed(lines[0].code), 0);
      assert Cleansed(lines[0].code)[..0] == [];
    }
  }

  /** The lines of the top block are input lines, in input order (which
      ones is TopIsJoiningLines). */
  lemma {:induction false} TopIsSubsequence(lines: seq<Line>, n: nat)
    requires n <= |lines|
    ensures IsSubseq(ScanLines(lines, n).top, lines[..n])
    decreases n
  {
    if n > 0 {
      TopIsSubsequence(lines, n - 1);
      var st := ScanLines(lines, n - 1);
      assert lines[..n] == lines[..n - 1] + [lines[n - 1]];
      if ScanLines(lines, n).top == st.top {
        SubseqExtendRight(st.top, lines[..n - 1], lines[n - 1]);
      } else {
        SubseqExtendBoth(st.top, lines[..n - 1], lines[n - 1]);
      }
    }
  }

  /** The brace depth before line `i`: that of the quote-stripped text of
      all the lines before it, starting from 0. */
  function DepthBefore(lines: seq<Line>, i: nat): int
    requires i <= |lines|
    decreases i
  {
    if i == 0 then 0 else DepthAfter(Cleansed(lines[i - 1].code), DepthBefore(lines, i - 1))
  }

  /** Line `i` belongs to the current block: entered at its depth, its
      quote-stripped text reaches depth 0 before some character or after
      the last one. */
  predicate Joins(lines: seq<Line>, i: nat)
    requires i < |lines|
  {
    ZeroSeen(Cleansed(lines[i].code), DepthBefore(lines, i))
  }

  /** The first `n` input lines that join the current block, in order. */
  function JoiningLines(lines: seq<Line>, n: nat): seq<Line>
    requires n <= |lines|
    decreases n
  {
    if n == 0 then [] else JoiningLines(lines, n - 1) + (if Joins(lines, n - 1) then [lines[n - 1]] else [])
  }

  /** How grab_blocks places lines: after `n` lines its depth is the depth
      of those lines, and the current block holds exactly those of them
      that join it. */
  lemma {:induction false} TopIsJoiningLines(lines: seq<Line>, n: nat)
    requires n <= |lines|
    ensures ScanLines(lines, n).depth == DepthBefore(lines, n)
    ensures ScanLines(lines, n).top == JoiningLines(lines, n)
    decreases n
  {
    if n > 0 {
      TopIsJoiningLines(lines, n - 1);
      ScanStepPlaces(ScanLines(lines, n - 1), lines[n - 1]);
    }
  }

  /** The top block of grab_blocks holds exactly the input lines that
      join it, in input order; the lines that do not join it are the ones
      handed to the recursive calls or lost in an unclosed chunk. */
  lemma GrabBlocksTopLines(lines: seq<Line>)
    ensures GrabBlocks(lines).Some? ==> GrabBlocks(lines).value.lines == JoiningLines(lines, |lines|)
  {
    TopIsJoiningLines(lines, |lines|);
  }

  /** `chunk` is the run of the first `n` lines since the last one that
      joined the current block: it ends at line `n`, none of its lines
      joins, and the line before it (if any) does. */
  predicate IsChunkRun(lines: seq<Line>, n: nat, chunk: seq<Line>)
    requires n <= |lines|
  {
    && |chunk| <= n
    && chunk == lines[n - |chunk|..n]
    && (forall i :: n - |chunk| <= i < n ==> !Joins(lines, i))
    && (|chunk| < n ==> Joins(lines, n - |chunk| - 1))
  }

  /** The pending chunk of grab_blocks after `n` lines is the run of lines
      since the last one that joined the current block. */
  lemma {:induction false} ChunkSinceLastJoin(lines: seq<Line>, n: nat)
    requires n <= |lines|
    ensures IsChunkRun(lines, n, ScanLines(lines, n).chunk)
    decreases n
  {
    if n > 0 {
      ChunkSinceLastJoin(lines, n - 1);
      TopIsJoiningLines(lines, n - 1);
      var st := ScanLines(lines, n - 1);
      ScanStepPlaces(st, lines[n - 1]);
      ChunkStep(lines, n, st.chunk, ScanLines(lines, n).chunk);
    }
  }

  lemma ChunkStep(lines: seq<Line>, n: nat, chunk: seq<Line>, next: seq<Line>)
    requires 0 < n <= |lines| && IsChunkRun(lines, n - 1, chunk)
    requires next == if Joins(lines, n - 1) then [] else chunk + [lines[n - 1]]
    ensures IsChunkRun(lines, n, next)
  {
    var k := n - 1 - |chunk|;
    if Joins(lines, n - 1) {
      assert lines[n..n] == [];
    } else {
      assert next == lines[k..n] by {
        assert lines[k..n] == lines[k..n - 1] + [lines[n - 1]];
      }
      assert |next| == n - k;
      forall i | k <= i < n ensures !Joins(lines, i) {
        if i < n - 1 {
          assert n - 1 - |chunk| <= i < n - 1;
        }
      }
    }
  }

  /** One turn of the loop moves the depth past the line, and the line
      either joins the current block, emptying the chunk, or the chunk. */
  lemma ScanStepPlaces(st: Scan, line: Line)
    ensures ScanStep(st, line).depth == DepthAfter(Cleansed(line.code), st.depth)
    ensures ZeroSeen(Cleansed(line.code), st.depth) ==>
              ScanStep(st, line).top == st.top + [line] && ScanStep(st, line).chunk == []
    ensures !ZeroSeen(Cleansed(line.code), st.depth) ==>
              ScanStep(st, line).top == st.top && ScanStep(st, line).chunk == st.chunk + [line]
  {
  }

  /** Text without braces leaves the depth where it was. */
  lemma {:induction false} DepthAfterNoBraces(s: string, d: int)
    requires forall i :: 0 <= i < |s| ==> s[i] != '{' && s[i] != '}'
    ensures DepthAfter(s, d) == d
    decreases |s|
  {
    if s != [] {
      DepthAfterNoBraces(s[..|s| - 1], d);
    }
  }

  /** A line like "} else {", entered at depth 1, closes the block and
      reopens one: it reaches depth 0, so it stays in the enclosing block,
      and the depth is 1 after it. */
  lemma ElseLineJoins(pre: string, mid: string)
    requires forall i :: 0 <= i < |pre| ==> pre[i] != '{' && pre[i] != '}' && !IsQuote(pre[i])
    requires forall i :: 0 <= i < |mid| ==> mid[i] != '{' && mid[i] != '}' && !IsQuote(mid[i])
    ensures var code := pre + "}" + mid + "{";
            Cleansed(code) == code && ZeroSeen(code, 1) && DepthAfter(code, 1) == 1
  {
    var close := pre + "}";
    var code := close + mid + "{";
    forall c | c in code ensures !IsQuote(c) {
      var i :| 0 <= i < |code| && code[i] == c;
      if i < |pre| {
        assert code[i] == pre[i];
      } else if |pre| < i < |close| + |mid| {
        assert code[i] == mid[i - |close|];
      }
    }
    CleanseQuoteFree(code);
    DepthAfterNoBraces(pre, 1);
    assert close[..|close| - 1] == pre;
    assert DepthAfter(close, 1) == 0;
    DepthAfterConcat(close, mid, 1);
    DepthAfterNoBraces(mid, 0);
    assert (close + mid + "{")[..|close + mid|] == close + mid;
    ZeroSeenIff(code, 1);
    assert code[..|close|] == close;
  }

  /** Braces inside a closed quoted literal open and close no block, as
      in `cout << "{" << endl;`: the depth after the line is the depth
      after its text outside the literal. */
  lemma QuotedBraceOpensNothing(pre: string, lit: string, post: string, q: char, d: int)
    requires forall i :: 0 <= i < |pre| ==> !IsQuote(pre[i]) && pre[i] != '\\'
    requires forall i :: 0 <= i < |post| ==> !IsQuote(post[i])
    requires IsQuote(q) && |lit| >= 2 && lit[0] == q && lit[|lit| - 1] == q
    requires forall j :: 1 <= j < |lit| - 1 ==> lit[j] != q && lit[j] != '\\'
    ensures DepthAfter(Cleansed(pre + lit + post), d) == DepthAfter(post, DepthAfter(pre, d))
  {
    forall c | c in pre ensures !IsQuote(c) {
      var i :| 0 <= i < |pre| && pre[i] == c;
    }
    forall c | c in post ensures !IsQuote(c) {
      var i :| 0 <= i < |post| && post[i] == c;
    }
    CleanseQuoteFreePrefix(pre, |pre|);
    assert pre[..|pre|] == pre;
    CleanseQuoteFree(pre);
    CleanseQuoteFree(post);
    assert lit[|lit| - 2] != '\\';
    assert !Escaped(lit, |lit| - 1);
    LiteralVanishes(pre, lit, post, q);
    DepthAfterConcat(pre, post, d);
  }

  /** All lines of a block tree: the block's own lines, then those of each
      sub-block in order. */
  function Flat(b: Block): seq<Line>
    decreases b, |b.subBlocks| + 1
  {
    b.lines + FlatFrom(b, 0)
  }

  function FlatFrom(b: Block, i: nat): seq<Line>
    requires i <= |b.subBlocks|
    decreases b, |b.subBlocks| - i
  {
    if i == |b.subBlocks| then [] else Flat(b.subBlocks[i]) + FlatFrom(b, i + 1)
  }

  function FlatSeq(bs: seq<Block>): seq<Line>
    decreases |bs|
  {
    if bs == [] then [] else FlatSeq(bs[..|bs| - 1]) + Flat(bs[|bs| - 1])
  }

  lemma {:induction false} FlatFromIsFlatSeq(b: Block, i: nat)
    requires i <= |b.subBlocks|
    ensures FlatSeq(b.subBlocks[..i]) + FlatFrom(b, i) == FlatSeq(b.subBlocks)
    decreases |b.subBlocks| - i
  {
    if i == |b.subBlocks| {
      assert b.subBlocks[..i] == b.subBlocks;
    } else {
      FlatFromIsFlatSeq(b, i + 1);
      assert b.subBlocks[..i + 1][..i] == b.subBlocks[..i];
    }
  }

  function FlatOpt(b: Option<Block>): seq<Line>
  {
    if b.None? then [] else Flat(b.value)
  }

  /** The lines a scan state holds, in the tree built so far, the lost
      lines and the pending chunk. */
  function Accounted(st: Scan): multiset<Line>
  {
    multiset(st.top) + multiset(FlatSeq(st.subs)) + multiset(st.lost) + multiset(st.chunk)
  }

  /** Flushing the chunk into a sub-block keeps every line accounted for,
      given that the recursive call accounts for the chunk. */
  lemma {:induction false} FlushAccounts(st: Scan, d: int, line: Line, sub: Option<Block>, lostSub: seq<Line>)
    requires multiset(FlatOpt(sub)) + multiset(lostSub) == multiset(st.chunk)
    ensures Accounted(Scan(d, st.top + [line], if sub.Some? then st.subs + [sub.value] else st.subs, [], st.lost + lostSub))
         == Accounted(st) + multiset{line}
  {
    if sub.Some? {
      assert (st.subs + [sub.value])[..|st.subs|] == st.subs;
      assert FlatSeq(st.subs + [sub.value]) == FlatSeq(st.subs) + FlatOpt(sub);
    }
  }

  /** Each line the scan takes in is accounted for once more. */
  lemma {:induction false} ScanStepAccounts(st: Scan, line: Line)
    ensures Accounted(ScanStep(st, line)) == Accounted(st) + multiset{line}
    decreases |st.chunk| + 1, 0
  {
    var c := Classify(Cleansed(line.code), st.depth);
    if c.0 && |st.chunk| > 0 {
      GrabBlocksAccounts(st.chunk);
      FlushAccounts(st, c.1, line, GrabBlocks(st.chunk), Lost(st.chunk));
    }
  }

  lemma MultisetOfTake<T>(s: seq<T>, n: nat)
    requires 0 < n <= |s|
    ensures multiset(s[..n]) == multiset(s[..n - 1]) + multiset{s[n - 1]}
  {
    assert s[..n] == s[..n - 1] + [s[n - 1]];
  }

  lemma {:induction false} ScanAccountsStep(lines: seq<Line>, n: nat)
    requires 0 < n <= |lines|
    requires Accounted(ScanLines(lines, n - 1)) == multiset(lines[..n - 1])
    ensures Accounted(ScanLines(lines, n)) == multiset(lines[..n])
    decreases |lines|, 1
  {
    ScanStepAccounts(ScanLines(lines, n - 1), lines[n - 1]);
    MultisetOfTake(lines, n);
  }

  /** What the scan has seen is split exactly between the tree built so
      far, the lost lines and the pending chunk. */
  lemma {:induction false} ScanAccounts(lines: seq<Line>, n: nat)
    requires n <= |lines|
    ensures Accounted(ScanLines(lines, n)) == multiset(lines[..n])
    decreases |lines|, 2, n
  {
    if n == 0 {
      assert lines[..n] == [];
    } else {
      ScanAccounts(lines, n - 1);
      ScanAccountsStep(lines, n);
    }
  }

  /** grab_blocks neither invents nor duplicates lines: the lines of the
      tree and the lost lines together are exactly the input lines. */
  lemma GrabBlocksAccounts(lines: seq<Line>)
    ensures multiset(FlatOpt(GrabBlocks(lines))) + multiset(Lost(lines)) == multiset(lines)
    decreases |lines|, 3
  {
    ScanAccounts(lines, |lines|);
    assert lines[..|lines|] == lines;
    var st := ScanLines(lines, |lines|);
    if !(|st.top| == 0 && |st.subs| == 0) {
      var b := Block(st.top, st.subs);
      FlatFromIsFlatSeq(b, 0);
      assert b.subBlocks[..0] == [];
    } else {
      assert st.subs == [];
    }
  }

  /** Every line of the tree is an input line. */
  lemma GrabBlocksLinesFromInput(lines: seq<Line>)
    ensures multiset(FlatOpt(GrabBlocks(lines))) <= multiset(lines)
    ensures forall l :: l in FlatOpt(GrabBlocks(lines)) ==> l in lines
  {
    GrabBlocksAccounts(lines);
    forall l | l in FlatOpt(GrabBlocks(lines)) ensures l in lines {
      assert l in multiset(FlatOpt(GrabBlocks(lines)));
    }
  }

  // ---------------------------------------------------------------------
  // The indentation rule

  /** The least indentation among the non-blank lines, if there is one
      (see MinIndentSpec). */
  function MinIndent(lines: seq<Line>): Option<nat>
    decreases |lines|
  {
    if lines == [] then None
    else
      var rest := MinIndent(lines[1..]);
      var here := IndentLevel(lines[0].code);
      if here.None? then rest
      else if rest.None? || here.value <= rest.value then here
      else rest
  }

  /** MinIndent is None exactly when every line is blank; otherwise it is
      the level of some line and no non-blank line has a smaller one. */
  lemma {:induction false} MinIndentSpec(lines: seq<Line>)
    ensures MinIndent(lines).None? <==> forall i :: 0 <= i < |lines| ==> IndentLevel(lines[i].code).None?
    ensures MinIndent(lines).Some? ==>
              && (exists i :: 0 <= i < |lines| && IndentLevel(lines[i].code) == MinIndent(lines))
              && forall i :: 0 <= i < |lines| && IndentLevel(lines[i].code).Some? ==> MinIndent(lines).value <= IndentLevel(lines[i].code).value
    decreases |lines|
  {
    if lines != [] {
      MinIndentSpec(lines[1..]);
      assert forall i :: 1 <= i < |lines| ==> lines[i] == lines[1..][i - 1];
    }
  }

  /** The lines of a block that break the rule against a parent minimum:
      non-blank with an indentation at most `minimum` (see BadLinesSpec). */
  function BadLines(lines: seq<Line>, minimum: Option<nat>): seq<Line>
    decreases |lines|
  {
    if lines == [] then []
    else
      var last := lines[|lines| - 1];
      var rest := BadLines(lines[..|lines| - 1], minimum);
      if minimum.Some? && IndentLevel(last.code).Some? && IndentLevel(last.code).value <= minimum.value
      then rest + [last]
      else rest
  }

  /** The reported lines keep their order, and a line is reported exactly
      when it is non-blank and indented at most `minimum`. */
  lemma {:induction false} BadLinesSpec(lines: seq<Line>, minimum: Option<nat>)
    ensures IsSubseq(BadLines(lines, minimum), lines)
    ensures forall l :: l in BadLines(lines, minimum) ==> minimum.Some? && IndentLevel(l.code).Some? && IndentLevel(l.code).value <= minimum.value
    ensures forall l :: l in lines && minimum.Some? && IndentLevel(l.code).Some? && IndentLevel(l.code).value <= minimum.value ==> l in BadLines(lines, minimum)
    decreases |lines|
  {
    if lines != [] {
      var prefix := lines[..|lines| - 1];
      var last := lines[|lines| - 1];
      var rest := BadLines(prefix, minimum);
      BadLinesSpec(prefix, minimum);
      assert lines == prefix + [last];
      if minimum.Some? && IndentLevel(last.code).Some? && IndentLevel(last.code).value <= minimum.value {
        SubseqExtendBoth(rest, prefix, last);
      } else {
        SubseqExtendRight(rest, prefix, last);
      }
    }
  }

  /** Without a minimum nothing is reported. */
  lemma {:induction false} BadLinesWithoutMinimum(lines: seq<Line>)
    ensures BadLines(lines, None) == []
    decreases |lines|
  {
    if lines != [] {
      BadLinesWithoutMinimum(lines[..|lines| - 1]);
    }
  }

  /** Nothing is reported when every non-blank line is indented past the
      minimum. */
  lemma {:induction false} NoBadLines(lines: seq<Line>, m: nat)
    requires forall i :: 0 <= i < |lines| && IndentLevel(lines[i].code).Some? ==> IndentLevel(lines[i].code).value > m
    ensures BadLines(lines, Some(m)) == []
    decreases |lines|
  {
    if lines != [] {
      NoBadLines(lines[..|lines| - 1], m);
    }
  }

  /** The least indentation is that of a line no other non-blank line
      undercuts. */
  lemma {:induction false} MinIndentIs(lines: seq<Line>, k: nat, m: nat)
    requires k < |lines| && IndentLevel(lines[k].code) == Some(m)
    requires forall i :: 0 <= i < |lines| && IndentLevel(lines[i].code).Some? ==> IndentLevel(lines[i].code).value >= m
    ensures MinIndent(lines) == Some(m)
  {
    MinIndentSpec(lines);
    var r := MinIndent(lines);
    assert r.Some?;
    var i :| 0 <= i < |lines| && IndentLevel(lines[i].code) == r;
    assert r.value <= m;
  }

  /** A block with a line at the left margin has least indentation 0. */
  lemma MinIndentZero(lines: seq<Line>, k: nat)
    requires k < |lines| && IndentLevel(lines[k].code) == Some(0)
    ensures MinIndent(lines) == Some(0)
  {
    MinIndentIs(lines, k, 0);
  }

  const EmptyMinMessage := "min() arg is an empty sequence"

  /** find_bad_indentation: the bad lines of this block, then those of every
      sub-block measured against this block's least indentation. A block
      without a non-blank line makes `min` raise ValueError. */
  function FindBad(b: Block, minimum: Option<nat>): Result<seq<Line>>
    decreases b, |b.subBlocks| + 1
  {
    var here := BadLines(b.lines, minimum);
    var m := MinIndent(b.lines);
    if m.None? then Err(ValueError(EmptyMinMessage))
    else
      var below :- FindBadFrom(b, m.value, 0);
      Ok(here + below)
  }

  /** The problems of sub-blocks `i..` of `b`, against minimum `m`. */
  function FindBadFrom(b: Block, m: nat, i: nat): Result<seq<Line>>
    requires i <= |b.subBlocks|
    decreases b, |b.subBlocks| - i
  {
    if i == |b.subBlocks| then Ok([])
    else
      var first :- FindBad(b.subBlocks[i], Some(m));
      var rest :- FindBadFrom(b, m, i + 1);
      Ok(first + rest)
  }

  /** A block without sub-blocks reports its own bad lines, unless it has
      no non-blank line. */
  lemma {:induction false} FindBadLeaf(b: Block, minimum: Option<nat>)
    requires b.subBlocks == []
    ensures FindBad(b, minimum)
         == if MinIndent(b.lines).None? then Err(ValueError(EmptyMinMessage)) else Ok(BadLines(b.lines, minimum))
  {
    var m := MinIndent(b.lines);
    if m.Some? {
      assert FindBadFrom(b, m.value, 0) == Ok([]);
      var here := BadLines(b.lines, minimum);
      assert here + [] == here;
    }
  }

  /** A block with a non-blank line reports its own bad lines followed by
      those of its sub-blocks, when none of them raises. */
  lemma {:induction false} FindBadNode(b: Block, minimum: Option<nat>, m: nat)
    requires MinIndent(b.lines) == Some(m)
    requires FindBadFrom(b, m, 0).Ok?
    ensures FindBad(b, minimum) == Ok(BadLines(b.lines, minimum) + FindBadFrom(b, m, 0).value)
  {
  }

  /** The problems of sub-blocks `i..` are those of sub-block `i`, then
      those of the rest, the first error winning. */
  lemma {:induction false} FindBadFromStep(b: Block, m: nat, i: nat)
    requires i < |b.subBlocks|
    ensures FindBadFrom(b, m, i)
         == if FindBad(b.subBlocks[i], Some(m)).Err? then FindBad(b.subBlocks[i], Some(m))
            else if FindBadFrom(b, m, i + 1).Err? then FindBadFrom(b, m, i + 1)
            else Ok(FindBad(b.subBlocks[i], Some(m)).value + FindBadFrom(b, m, i + 1).value)
  {
  }

  /** Some block of the tree has no non-blank line. */
  predicate HasBlankBlock(b: Block)
    decreases b
  {
    MinIndent(b.lines).None? || exists i :: 0 <= i < |b.subBlocks| && HasBlankBlock(b.subBlocks[i])
  }

  /** find_bad_indentation raises exactly when some block of the tree has
      no non-blank line; otherwise every reported line is non-blank. */
  lemma {:induction false} FindBadErrorIff(b: Block, minimum: Option<nat>)
    ensures FindBad(b, minimum).Err? <==> HasBlankBlock(b)
    ensures FindBad(b, minimum).Ok? ==> forall l :: l in FindBad(b, minimum).value ==> IndentLevel(l.code).Some?
    decreases b, |b.subBlocks| + 1
  {
    var m := MinIndent(b.lines);
    if m.Some? {
      FindBadFromErrorIff(b, m.value, 0);
      BadLinesSpec(b.lines, minimum);
    }
  }

  lemma {:induction false} FindBadFromErrorIff(b: Block, m: nat, i: nat)
    requires i <= |b.subBlocks|
    ensures FindBadFrom(b, m, i).Err? <==> exists j :: i <= j < |b.subBlocks| && HasBlankBlock(b.subBlocks[j])
    ensures FindBadFrom(b, m, i).Ok? ==> forall l :: l in FindBadFrom(b, m, i).value ==> IndentLevel(l.code).Some?
    decreases b, |b.subBlocks| - i
  {
    if i < |b.subBlocks| {
      var sub := b.subBlocks[i];
      FindBadErrorIff(sub, Some(m));
      FindBadFromErrorIff(b, m, i + 1);
      var first := FindBad(sub, Some(m));
      var rest := FindBadFrom(b, m, i + 1);
      if first.Ok? && rest.Ok? {
        assert FindBadFrom(b, m, i) == Ok(first.value + rest.value);
        forall l | l in first.value + rest.value ensures IndentLevel(l.code).Some? {
          assert l in first.value || l in rest.value;
        }
      }
      if exists j :: i <= j < |b.subBlocks| && HasBlankBlock(b.subBlocks[j]) {
        var j :| i <= j < |b.subBlocks| && HasBlankBlock(b.subBlocks[j]);
        if j == i {
          assert first.Err?;
        } else {
          assert rest.Err?;
        }
      }
    }
  }

  /** With no minimum, no line of the top block is reported: only lines of
      sub-blocks can be. */
  lemma TopLevelNeverReported(b: Block)
    requires FindBad(b, None).Ok?
    ensures FindBad(b, None).value == FindBadFrom(b, MinIndent(b.lines).value, 0).value
  {
    BadLinesWithoutMinimum(b.lines);
  }

  /** Every reported line is a line of the block tree. */
  lemma {:induction false} FindBadWithinTree(b: Block, minimum: Option<nat>)
    requires FindBad(b, minimum).Ok?
    ensures forall l :: l in FindBad(b, minimum).value ==> l in Flat(b)
    decreases b, |b.subBlocks| + 1
  {
    var m := MinIndent(b.lines).value;
    var here := BadLines(b.lines, minimum);
    BadLinesSpec(b.lines, minimum);
    SubseqMembers(here, b.lines);
    FindBadFromWithinTree(b, m, 0);
    assert FindBad(b, minimum).value == here + FindBadFrom(b, m, 0).value;
  }

  lemma {:induction false} FindBadFromWithinTree(b: Block, m: nat, i: nat)
    requires i <= |b.subBlocks|
    requires FindBadFrom(b, m, i).Ok?
    ensures forall l :: l in FindBadFrom(b, m, i).value ==> l in FlatFrom(b, i)
    decreases b, |b.subBlocks| - i
  {
    if i < |b.subBlocks| {
      FindBadWithinTree(b.subBlocks[i], Some(m));
      FindBadFromWithinTree(b, m, i + 1);
      assert FindBadFrom(b, m, i).value
          == FindBad(b.subBlocks[i], Some(m)).value + FindBadFrom(b, m, i + 1).value;
    }
  }
}
