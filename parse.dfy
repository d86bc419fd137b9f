/** The step-by-step procedures of interact/parse.py, written as the loops
    they are and each proved to compute the function of module Blocks that
    states what it means. */
module Parse {
  import opened Wrappers
  import opened Strings
  import opened Blocks

  /** `Line.indent_level`: scan until the first character that is neither a
      space nor a tab; a line without one has no level. */
  method IndentLevel(line: Line) returns (r: Option<nat>)
    ensures r == Blocks.IndentLevel(line.code)
  {
    var code := line.code;
    var i := 0;
    while i < |code|
      invariant i <= |code|
      invariant forall j :: 0 <= j < i ==> IsIndentChar(code[j])
    {
      if !IsIndentChar(code[i]) {
        return Some(i);
      }
      i := i + 1;
    }
    return None;
  }

  /** `cleanse_quoted_strings`: for each character, count the backslashes
      right before it, then close, open or keep. */
  method CleanseQuotedStrings(line: string) returns (s: string)
    ensures s == Cleansed(line)
  {
    var unquoted: string := [];
    var inQuotes: Option<char> := None;
    var i := 0;
    while i < |line|
      invariant i <= |line|
      invariant CleansePrefix(line, i) == CleanseState(inQuotes, unquoted)
    {
      var c := line[i];
      var numSlashes := 0;
      var j := i;
      while j > 0
        invariant 0 <= j <= i
        invariant SlashesBefore(line, i) == numSlashes + SlashesBefore(line, j)
      {
        if line[j - 1] == '\\' {
          numSlashes := numSlashes + 1;
        } else {
          break;
        }
        j := j - 1;
      }
      var escaped := numSlashes % 2 == 1;
      if inQuotes == Some(c) && !escaped {
        inQuotes := None;
      } else if IsQuote(c) && inQuotes.None? {
        inQuotes := Some(c);
      } else if inQuotes.None? {
        unquoted := unquoted + [c];
      }
      i := i + 1;
    }
    return unquoted;
  }

  /** `grab_blocks`: one pass over the lines keeping the brace depth, the
      current block's lines, its sub-blocks and the pending chunk, which is
      turned into a sub-block by a recursive call when the depth comes back
      to 0. */
  method GrabBlocks(lines: seq<Line>) returns (r: Option<Block>)
    ensures r == Blocks.GrabBlocks(lines)
    decreases |lines|
  {
    var inBlock := 0;
    var linesToCheck: seq<Line> := [];
    var subBlocks: seq<Block> := [];
    var unhandledChunk: seq<Line> := [];
    ghost var lost: seq<Line> := [];
    var n := 0;
    while n < |lines|
      invariant n <= |lines|
      invariant ScanLines(lines, n) == Scan(inBlock, linesToCheck, subBlocks, unhandledChunk, lost)
    {
      var line := lines[n];
      var stripped := CleanseQuotedStrings(line.code);
      ghost var start := inBlock;
      var includeCurrentLine := false;
      var k := 0;
      while k < |stripped|
        invariant k <= |stripped|
        invariant inBlock == DepthAfter(stripped[..k], start)
        invariant (includeCurrentLine || inBlock == 0) == ZeroSeen(stripped[..k], start)
      {
        TakeOfTake(stripped, k);
        if inBlock == 0 {
          includeCurrentLine := true;
        }
        if stripped[k] == '{' {
          inBlock := inBlock + 1;
        } else if stripped[k] == '}' {
          inBlock := inBlock - 1;
        }
        k := k + 1;
      }
      TakeAll(stripped);
      if inBlock == 0 {
        includeCurrentLine := true;
      }
      if includeCurrentLine {
        if |unhandledChunk| > 0 {
          var unhandledBlock := GrabBlocks(unhandledChunk);
          if unhandledBlock.Some? {
            subBlocks := subBlocks + [unhandledBlock.value];
          }
          lost := lost + Lost(unhandledChunk);
          unhandledChunk := [];
        }
        linesToCheck := linesToCheck + [line];
      } else {
        unhandledChunk := unhandledChunk + [line];
      }
      n := n + 1;
    }
    if |linesToCheck| == 0 && |subBlocks| == 0 {
      r := None;
    } else {
      r := Some(Block(linesToCheck, subBlocks));
    }
  }

  /** Python's `min` over a list of levels: ValueError on an empty list,
      otherwise the least element. */
  method Min(levels: seq<nat>) returns (r: Result<nat>)
    ensures r.Err? <==> levels == []
    ensures r.Err? ==> r.error == ValueError(EmptyMinMessage)
    ensures r.Ok? ==> r.value in levels && forall x :: x in levels ==> r.value <= x
  {
    if levels == [] {
      return Err(ValueError(EmptyMinMessage));
    }
    var least := levels[0];
    var i := 1;
    while i < |levels|
      invariant 1 <= i <= |levels|
      invariant least in levels[..i]
      invariant forall j :: 0 <= j < i ==> least <= levels[j]
    {
      if levels[i] < least {
        least := levels[i];
      }
      i := i + 1;
    }
    assert levels[..i] == levels;
    return Ok(least);
  }

  /** The problems found so far followed by those still to come; an
      exception still to come wins. */
  function Prepend(problems: seq<Line>, rest: Result<seq<Line>>): Result<seq<Line>>
  {
    if rest.Ok? then Ok(problems + rest.value) else rest
  }

  /** Taking in the problems of sub-block `i` keeps what remains to be
      found the same. */
  lemma {:induction false} PrependStep(b: Block, m: nat, i: nat, problems: seq<Line>)
    requires i < |b.subBlocks| && FindBad(b.subBlocks[i], Some(m)).Ok?
    ensures Prepend(problems, FindBadFrom(b, m, i))
         == Prepend(problems + FindBad(b.subBlocks[i], Some(m)).value, FindBadFrom(b, m, i + 1))
  {
    FindBadFromStep(b, m, i);
    var first := FindBad(b.subBlocks[i], Some(m)).value;
    var rest := FindBadFrom(b, m, i + 1);
    if rest.Ok? {
      assert problems + (first + rest.value) == problems + first + rest.value;
    }
  }

  /** `levels` holds the levels of the non-blank lines among the first `n`. */
  predicate LevelsOf(lines: seq<Line>, n: nat, levels: seq<nat>)
    requires n <= |lines|
  {
    && (forall x :: x in levels ==> exists j :: 0 <= j < n && Blocks.IndentLevel(lines[j].code) == Some(x))
    && (forall j :: 0 <= j < n && Blocks.IndentLevel(lines[j].code).Some? ==> Blocks.IndentLevel(lines[j].code).value in levels)
  }

  /** Gathering the level of one more line, when it has one. */
  lemma {:induction false} LevelsOfStep(lines: seq<Line>, n: nat, levels: seq<nat>)
    requires n < |lines| && LevelsOf(lines, n, levels)
    ensures var level := Blocks.IndentLevel(lines[n].code);
            LevelsOf(lines, n + 1, if level.Some? then levels + [level.value] else levels)
  {
  }

  /** `min` of the gathered levels is the least indentation of the block. */
  lemma {:induction false} LevelsMin(lines: seq<Line>, levels: seq<nat>, least: Result<nat>)
    requires LevelsOf(lines, |lines|, levels)
    requires least.Err? <==> levels == []
    requires least.Ok? ==> least.value in levels && forall x :: x in levels ==> least.value <= x
    ensures least.Err? <==> MinIndent(lines).None?
    ensures least.Ok? ==> MinIndent(lines) == Some(least.value)
  {
    MinIndentSpec(lines);
    if least.Ok? {
      var k :| 0 <= k < |lines| && Blocks.IndentLevel(lines[k].code) == Some(least.value);
      MinIndentIs(lines, k, least.value);
    }
  }

  /** Once the bad lines and the levels are gathered and `min` has been
      taken, what find_bad_indentation returns is settled: the exception of
      `min`, or the bad lines followed by what the sub-blocks report against
      the least level. */
  lemma {:induction false} GatheredFindBad(b: Block, minimum: Option<nat>, problems: seq<Line>, levels: seq<nat>, least: Result<nat>)
    requires problems == BadLines(b.lines, minimum)
    requires LevelsOf(b.lines, |b.lines|, levels)
    requires least.Err? <==> levels == []
    requires least.Err? ==> least.error == ValueError(EmptyMinMessage)
    requires least.Ok? ==> least.value in levels && forall x :: x in levels ==> least.value <= x
    ensures least.Err? ==> FindBad(b, minimum) == Err(least.error)
    ensures least.Ok? ==> FindBad(b, minimum) == Prepend(problems, FindBadFrom(b, least.value, 0))
  {
    LevelsMin(b.lines, levels, least);
  }

  /** `find_bad_indentation`: collect this block's bad lines, take the least
      level of its non-blank lines, then append the problems of every
      sub-block measured against that level. */
  method FindBadIndentation(block: Block, minimum: Option<nat>) returns (r: Result<seq<Line>>)
    ensures r == FindBad(block, minimum)
    decreases block
  {
    var problems: seq<Line> := [];
    var i := 0;
    while i < |block.lines|
      invariant i <= |block.lines|
      invariant problems == BadLines(block.lines[..i], minimum)
    {
      TakeOfTake(block.lines, i);
      var indentLevel := IndentLevel(block.lines[i]);
      if minimum.Some? && indentLevel.Some? && indentLevel.value <= minimum.value {
        problems := problems + [block.lines[i]];
      }
      i := i + 1;
    }
    TakeAll(block.lines);

    var levels: seq<nat> := [];
    i := 0;
    while i < |block.lines|
      invariant i <= |block.lines|
      invariant LevelsOf(block.lines, i, levels)
    {
      var level := IndentLevel(block.lines[i]);
      LevelsOfStep(block.lines, i, levels);
      if level.Some? {
        levels := levels + [level.value];
      }
      i := i + 1;
    }
    var least := Min(levels);
    GatheredFindBad(block, minimum, problems, levels, least);
    if least.Err? {
      return Err(least.error);
    }
    var m := least.value;

    i := 0;
    while i < |block.subBlocks|
      invariant i <= |block.subBlocks|
      invariant FindBad(block, minimum) == Prepend(problems, FindBadFrom(block, m, i))
    {
      var below := FindBadIndentation(block.subBlocks[i], Some(m));
      if below.Err? {
        FindBadFromStep(block, m, i);
        return below;
      }
      PrependStep(block, m, i, problems);
      problems := problems + below.value;
      i := i + 1;
    }
    AppendEmpty([], problems);
    return Ok(problems);
  }
}
