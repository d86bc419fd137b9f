/** interact/standardtests.py: ready-made tests that many harnesses run.
    Each one shapes a TestResult: the presence of files, indentation and
    compilation. interact/testsuites/checkfiles/filesexist.py repeats
    check_files_exist word for word (through `interact.TestResult` and
    `_utils.pretty_list`, which are the same), so the members below model
    both copies. */
module StandardTests {
  import opened Wrappers
  import opened Strings
  import opened Core
  import opened Blocks
  import Pretty
  import Parse
  import Execute

  /** Strings handed to a message as a list argument. */
  function TextArgs(strings: seq<string>): (r: seq<Arg>)
    ensures |r| == |strings|
    ensures forall i :: 0 <= i < |r| ==> r[i] == Text(strings[i])
  {
    seq(|strings|, i requires 0 <= i < |strings| => Text(strings[i]))
  }

  // ---------------------------------------------------------------------
  // check_files_exist

  const FilesBrief := "This test ensures that all of the necessary files are present."
  const FilesDefault := "Great job! All the necessary files are present."
  const MissingText := "You are missing {missing_files_}."
  const FilesExistType := "interact/filesexist/basic_files_exist"

  /** The files for which `isFile` (os.path.isfile) does not hold, in the
      order they were given (see MissingSpec). */
  function Missing(files: seq<string>, isFile: string -> bool): seq<string>
    decreases |files|
  {
    if files == [] then []
    else
      var rest := Missing(files[..|files| - 1], isFile);
      var last := files[|files| - 1];
      if isFile(last) then rest else rest + [last]
  }

  /** The missing list keeps the input order and holds exactly the files
      that are not there. */
  lemma {:induction false} MissingSpec(files: seq<string>, isFile: string -> bool)
    ensures IsSubseq(Missing(files, isFile), files)
    ensures forall f :: f in Missing(files, isFile) <==> f in files && !isFile(f)
    ensures forall f :: multiset(Missing(files, isFile))[f] == if isFile(f) then 0 else multiset(files)[f]
    decreases |files|
  {
    if files != [] {
      var prefix := files[..|files| - 1];
      var last := files[|files| - 1];
      var rest := Missing(prefix, isFile);
      MissingSpec(prefix, isFile);
      assert files == prefix + [last];
      assert multiset(files) == multiset(prefix) + multiset{last};
      if isFile(last) {
        SubseqExtendRight(rest, prefix, last);
      } else {
        SubseqExtendBoth(rest, prefix, last);
      }
      SubseqMembers(Missing(files, isFile), files);
    }
  }

  /** The message listing the missing files. */
  function MissingMessage(missing: seq<string>): Message
  {
    Pretty.PrettyListOfStrings(missing, Pretty.DefaultConjunction, Pretty.DefaultNoneString);
    NewMessage(Text(MissingText), [],
               map["missing_files_" := Text(Pretty.PrettyList(Pretty.TextItems(missing), Pretty.DefaultConjunction, Pretty.DefaultNoneString).value),
                   "missing_files" := List(TextArgs(missing)),
                   "dscore" := Number(-1),
                   "type" := Text(FilesExistType)])
  }

  /** A result together with the value handed to `set_passing`. */
  datatype Checked = Checked(result: ResultValue, passing: bool)

  /** check_files_exist. */
  function FilesExistOutcome(files: seq<string>, isFile: string -> bool): Checked
  {
    var missing := Missing(files, isFile);
    var base := NewResult(Some(FilesBrief), None, None, None, Some(FilesDefault));
    if missing != [] then Checked(WithMessage(base, MissingMessage(missing)), false)
    else Checked(base, true)
  }

  /** The test passes exactly when every file is there. Otherwise it
      carries one message, worth -1, that lists the missing files; the
      result has no score of its own. */
  lemma FilesExistFacts(files: seq<string>, isFile: string -> bool)
    ensures var c := FilesExistOutcome(files, isFile);
            && (c.passing <==> forall f :: f in files ==> isFile(f))
            && |c.result.messages| == (if c.passing then 0 else 1)
            && c.result.score.None?
            && c.result.brief == Some(FilesBrief) && c.result.defaultMessage == Some(FilesDefault)
            && (!c.passing ==>
                  && c.result.messages[0].dscore == Some(Number(-1))
                  && c.result.messages[0].kind == Some(Text(FilesExistType))
                  && c.result.messages[0].kwargs["missing_files"] == List(TextArgs(Missing(files, isFile))))
  {
    MissingSpec(files, isFile);
    var missing := Missing(files, isFile);
    if missing != [] {
      assert missing[0] in missing;
    }
  }

  /** check_files_exist, building the TestResult object. */
  method CheckFilesExist(files: seq<string>, isFile: string -> bool) returns (result: TestResult, passing: bool)
    ensures fresh(result)
    ensures Checked(result.Value(), passing) == FilesExistOutcome(files, isFile)
  {
    var missing := Missing(files, isFile);
    result := new TestResult(Some(FilesBrief), None, None, None, Some(FilesDefault));
    if missing != [] {
      var added := result.AddMessage([Msg(MissingMessage(missing))], map[]);
      passing := false;
    } else {
      passing := true;
    }
  }

  // ---------------------------------------------------------------------
  // indentation

  const IndentBrief := "This test checks to ensure you are indenting properly. Make sure that every time you start a new block (curly braces delimit blocks) you indent more."
  const IndentDefault := "Great job! You have perfect indentation!"
  const IndentType := "interact/indentation/basic_indent_level"
  const IndentTextWithFile := "{lines_} {line_numbers_} in {file_name} {are_} not indented more than the outer block."
  const IndentTextPlain := "{lines_} {line_numbers_} {are_} not indented more than the outer block."

  /** The recursive `check` helper applied to the result of grab_blocks:
      an empty file gives no block, and reading `lines` of None raises. */
  function Problems(blocks: Option<Block>): Result<seq<Line>>
  {
    if blocks.None? then Err(AttributeError("lines")) else FindBad(blocks.value, None)
  }

  /** The line numbers of the problems, as the items handed to pretty_list. */
  function LineNumbers(problems: seq<Line>): (r: seq<Pretty.Item>)
    ensures |r| == |problems|
    ensures forall i :: 0 <= i < |r| ==> r[i] == Pretty.Number(problems[i].lineNumber)
  {
    seq(|problems|, i requires 0 <= i < |problems| => Pretty.Number(problems[i].lineNumber))
  }

  /** The problem lines handed to the message as its `lines` keyword. */
  function LineArgs(problems: seq<Line>): (r: seq<Arg>)
    ensures |r| == |problems|
    ensures forall i :: 0 <= i < |r| ==> r[i] == CodeLine(problems[i].lineNumber, problems[i].code)
  {
    seq(|problems|, i requires 0 <= i < |problems| => CodeLine(problems[i].lineNumber, problems[i].code))
  }

  /** The message reporting the problems. `fileName` is given by
      standardtests.py, whose text names the file, and absent in
      check_indentation.py, whose text does not. */
  function IndentMessage(problems: seq<Line>, fileName: Option<string>): Result<Message>
  {
    var numbers :- Pretty.PrettyList(LineNumbers(problems), Pretty.DefaultConjunction, Pretty.DefaultNoneString);
    var kwargs := map["line_numbers_" := Text(numbers),
                      "are_" := Text(if |problems| > 1 then "are" else "is"),
                      "lines_" := Text(Pretty.PluralIf("Line", Pretty.Object)),
                      "lines" := List(LineArgs(problems)),
                      "dscore" := Number(-|problems|),
                      "type" := Text(IndentType)];
    if fileName.Some? then
      Ok(NewMessage(Text(IndentTextWithFile), [], kwargs["file_name" := Text(fileName.value)]))
    else
      Ok(NewMessage(Text(IndentTextPlain), [], kwargs))
  }

  const SumTypeMessage := "unsupported operand type(s) for +"

  /** `sum(i.dscore for i in messages)`: a message without a numeric
      dscore makes the addition raise. */
  function DscoreSum(messages: seq<Message>): Result<int>
    decreases |messages|
  {
    if messages == [] then Ok(0)
    else
      var rest :- DscoreSum(messages[..|messages| - 1]);
      var d := messages[|messages| - 1].dscore;
      if d.Some? && d.value.Number? then Ok(rest + d.value.number)
      else Err(TypeError(SumTypeMessage))
  }

  /** The score unless negative scores are allowed: `max(0, score)`. */
  function Clamp(score: int, allowNegative: bool): int
  {
    if allowNegative || score >= 0 then score else 0
  }

  /** The new result with the message about the problems, if any. */
  function IndentShaped(problems: seq<Line>, fileName: Option<string>, maxScore: int): Result<ResultValue>
  {
    var base := NewResult(Some(IndentBrief), None, Some(maxScore), None, Some(IndentDefault));
    if problems == [] then Ok(base)
    else (var m :- IndentMessage(problems, fileName); Ok(WithMessage(base, m)))
  }

  /** The result shaping of indentation once the problems are known: at
      most one message, then the score from the dscores. */
  function IndentReport(problems: seq<Line>, fileName: Option<string>, maxScore: int, allowNegative: bool)
    : Result<ResultValue>
  {
    var shaped :- IndentShaped(problems, fileName, maxScore);
    Scored(shaped, maxScore, allowNegative)
  }

  /** The score set from the maximum and the sum of the dscores. */
  function Scored(shaped: ResultValue, maxScore: int, allowNegative: bool): Result<ResultValue>
  {
    var total :- DscoreSum(shaped.messages);
    Ok(shaped.(score := Some(Clamp(maxScore + total, allowNegative))))
  }

  /** pretty_list is handed the line numbers, which are integers: three or
      more problems make it raise, so a report only ever exists for at
      most two problems. Otherwise there is one message exactly when there
      are problems, worth minus their number, and the score is the
      maximum less the number of problems, clamped at 0 unless negative
      scores are allowed. */
  lemma IndentReportFacts(problems: seq<Line>, fileName: Option<string>, maxScore: int, allowNegative: bool)
    ensures var r := IndentReport(problems, fileName, maxScore, allowNegative);
            && (r.Err? <==> |problems| >= 3)
            && (r.Err? ==> r.error.TypeError?)
            && (r.Ok? ==>
                  && |r.value.messages| == (if problems == [] then 0 else 1)
                  && r.value.score == Some(if allowNegative then maxScore - |problems| else Pretty.Max0(maxScore - |problems|))
                  && r.value.maxScore == Some(maxScore)
                  && r.value.brief == Some(IndentBrief)
                  && r.value.defaultMessage == Some(IndentDefault))
  {
    var items := LineNumbers(problems);
    if |problems| >= 3 {
      assert items[0].Number?;
    }
    if |problems| < 3 {
      assert Pretty.PrettyList(items, Pretty.DefaultConjunction, Pretty.DefaultNoneString).Ok?;
    }
    var base := NewResult(Some(IndentBrief), None, Some(maxScore), None, Some(IndentDefault));
    if 0 < |problems| < 3 {
      var m := IndentMessage(problems, fileName).value;
      assert DscoreSum([m]) == Ok(-|problems|) by {
        assert [m][..0] == [];
      }
      assert WithMessage(base, m).messages == [m];
    }
  }

  /** The wording of the message: "is" for one problem and "are" for more,
      "Lines" always (plural_if is handed the list, never equal to 1), the
      file named exactly when one is given, the problem lines themselves
      and the type of the check. */
  lemma IndentMessageFacts(problems: seq<Line>, fileName: Option<string>)
    requires 0 < |problems| < 3
    ensures var r := IndentMessage(problems, fileName);
            && r.Ok?
            && r.value.kwargs["are_"] == Text(if |problems| == 1 then "is" else "are")
            && r.value.kwargs["lines_"] == Text("Lines")
            && r.value.kwargs["lines"] == List(LineArgs(problems))
            && r.value.dscore == Some(Number(-|problems|))
            && r.value.kind == Some(Text(IndentType))
            && ("file_name" in r.value.kwargs <==> fileName.Some?)
            && (fileName.Some? ==> r.value.kwargs["file_name"] == Text(fileName.value))
  {
    assert Pretty.PrettyList(LineNumbers(problems), Pretty.DefaultConjunction, Pretty.DefaultNoneString).Ok?;
  }

  /** indentation: split the code into numbered lines, group them into
      blocks, find the problems and shape the result. */
  function IndentationOutcome(code: string, fileName: string, maxScore: int, allowNegative: bool)
    : Result<ResultValue>
  {
    var problems :- Problems(GrabBlocks(MakeLines(SplitLines(code), 1)));
    IndentReport(problems, Some(fileName), maxScore, allowNegative)
  }

  /** Empty code has no block, and the check raises on it. Otherwise the
      check raises exactly when some block has no non-blank line, and each
      reported line is a non-blank line of the code whose number is its
      0-based position. */
  lemma IndentationProblems(code: string)
    ensures var lines := SplitLines(code);
            var p := Problems(GrabBlocks(MakeLines(lines, 1)));
            && (code == "" ==> p == Err(AttributeError("lines")))
            && (code != "" ==> (p.Err? <==> HasBlankBlock(GrabBlocks(MakeLines(lines, 1)).value)))
            && (p.Ok? ==> forall l :: l in p.value ==>
                  && 0 <= l.lineNumber < |lines|
                  && lines[l.lineNumber] == l.code
                  && IndentLevel(l.code).Some?)
  {
    var lines := MakeLines(SplitLines(code), 1);
    GrabBlocksNoneIff(lines);
    var blocks := GrabBlocks(lines);
    if blocks.Some? {
      FindBadErrorIff(blocks.value, None);
      if FindBad(blocks.value, None).Ok? {
        FindBadWithinTree(blocks.value, None);
        GrabBlocksLinesFromInput(lines);
        forall l | l in FindBad(blocks.value, None).value
          ensures 0 <= l.lineNumber < |lines| && SplitLines(code)[l.lineNumber] == l.code
        {
          assert l in Flat(blocks.value);
          var i :| 0 <= i < |lines| && lines[i] == l;
        }
      }
    }
  }

  /** indentation, building the TestResult object as the source does. */
  method Indentation(code: string, fileName: string, maxScore: int, allowNegative: bool)
    returns (r: Result<TestResult>)
    ensures r.Ok? <==> IndentationOutcome(code, fileName, maxScore, allowNegative).Ok?
    ensures r.Err? ==> r.error == IndentationOutcome(code, fileName, maxScore, allowNegative).error
    ensures r.Ok? ==> fresh(r.value) && r.value.Value() == IndentationOutcome(code, fileName, maxScore, allowNegative).value
  {
    var lines := MakeLines(SplitLines(code), 1);
    var blocks := Parse.GrabBlocks(lines);
    if blocks.None? {
      return Err(AttributeError("lines"));
    }
    var problems := Parse.FindBadIndentation(blocks.value, None);
    if problems.Err? {
      return Err(problems.error);
    }
    r := Report(problems.value, Some(fileName), maxScore, allowNegative);
  }

  /** The shaping of the result once the problems are known. */
  method Report(problems: seq<Line>, fileName: Option<string>, maxScore: int, allowNegative: bool)
    returns (r: Result<TestResult>)
    ensures r.Ok? <==> IndentReport(problems, fileName, maxScore, allowNegative).Ok?
    ensures r.Err? ==> r.error == IndentReport(problems, fileName, maxScore, allowNegative).error
    ensures r.Ok? ==> fresh(r.value) && r.value.Value() == IndentReport(problems, fileName, maxScore, allowNegative).value
  {
    var shaped := Shape(problems, fileName, maxScore);
    if shaped.Err? {
      return Err(shaped.error);
    }
    var result := shaped.value;
    var scored := Score(result, maxScore, allowNegative);
    if scored.Err? {
      return Err(scored.error);
    }
    return Ok(result);
  }

  /** Sets the score from the maximum and the sum of the dscores. */
  method Score(result: TestResult, maxScore: int, allowNegative: bool) returns (r: Result<()>)
    modifies result
    ensures r.Ok? <==> Scored(old(result.Value()), maxScore, allowNegative).Ok?
    ensures r.Err? ==> r.error == Scored(old(result.Value()), maxScore, allowNegative).error
    ensures r.Ok? ==> result.Value() == Scored(old(result.Value()), maxScore, allowNegative).value
  {
    var total := DscoreSum(result.messages);
    if total.Err? {
      return Err(total.error);
    }
    result.score := Some(Clamp(maxScore + total.value, allowNegative));
    return Ok(());
  }

  /** The new TestResult with the message about the problems, if any. */
  method Shape(problems: seq<Line>, fileName: Option<string>, maxScore: int)
    returns (r: Result<TestResult>)
    ensures r.Ok? <==> IndentShaped(problems, fileName, maxScore).Ok?
    ensures r.Err? ==> r.error == IndentShaped(problems, fileName, maxScore).error
    ensures r.Ok? ==> fresh(r.value) && r.value.Value() == IndentShaped(problems, fileName, maxScore).value
  {
    var result := new TestResult(Some(IndentBrief), None, Some(maxScore), None, Some(IndentDefault));
    if problems != [] {
      var m := IndentMessage(problems, fileName);
      if m.Err? {
        return Err(m.error);
      }
      var added := result.AddMessage([Msg(m.value)], map[]);
    }
    return Ok(result);
  }

  // ---------------------------------------------------------------------
  // check_compiles

  const CompilesDefault := "**Great job!** Your code compiled cleanly without any problems."
  const SilentFailureText := "Your code did not compile but the compiler did not output any errors or warnings."
  const BulletedRefused := "__init__() got an unexpected keyword argument 'bulleted_messages'"

  function CompilesBrief(command: string): string
  {
    "This test ensures that your code compiles without errors. Your program was compiled with " + command + "."
  }

  /** check_compiles: compiles, then builds the TestResult with a
      `bulleted_messages` keyword that TestResult does not take, so every
      call that gets past compiling raises TypeError. The compile has
      already taken effect by then: the command is recorded, a directory
      made, and a successful build cached for later calls. */
  method CheckCompiles(exec: Execute.Execution, files: seq<string>, flags: seq<string>, ignoreCache: bool,
                       compiler: Execute.CompilerRun)
    returns (r: Result<ResultValue>)
    requires exec.Valid()
    modifies exec
    ensures exec.Valid()
    ensures var cached := !ignoreCache && Execute.SortStrings(files) in old(exec.cache);
            r == if !cached && !compiler.Exited? then Err(compiler.error) else Err(TypeError(BulletedRefused))
    ensures var key := Execute.SortStrings(files);
            if !ignoreCache && key in old(exec.cache) then
              && exec.cache == old(exec.cache) && exec.live == old(exec.live)
              && exec.nextDir == old(exec.nextDir) && exec.commands == old(exec.commands)
            else
              && exec.commands == old(exec.commands) + [Execute.CreateCompileCommand(files, flags)]
              && exec.nextDir == old(exec.nextDir) + 1
              && match compiler
                 case CompilerRaised(_) => exec.cache == old(exec.cache) && exec.live == old(exec.live)
                 case OutputRaised(code, _) =>
                   && exec.live == old(exec.live)
                   && exec.cache == if code != 0 then old(exec.cache)
                                    else old(exec.cache)[key := Execute.Built(old(exec.nextDir))]
                 case Exited(code, _) =>
                   && exec.live == old(exec.live) + {old(exec.nextDir)}
                   && exec.cache == if code != 0 then old(exec.cache)
                                    else old(exec.cache)[key := Execute.Built(old(exec.nextDir))]
  {
    var compiled := exec.CompileProgram(files, flags, ignoreCache, compiler);
    if compiled.Err? {
      return Err(compiled.error);
    }
    var command := Pretty.CraftShellCommand(Execute.CreateCompileCommand(files, flags));
    return Err(TypeError(BulletedRefused));
  }

  /** The result shaping of check_compiles for the compiler output and
      executable that compile_program returned. The output is cut with
      `_utils.truncate_string`, which interact/_utils.py does not define,
      so a failed compile with output raises AttributeError there. The
      score is 10 exactly when an executable came back, 0 otherwise, out
      of 10; a failed compile that printed nothing gets one message without
      a dscore, and a successful one gets no message. */
  function CompilesReport(command: string, compilerOutput: Option<string>,
                          executable: Option<Execute.Executable>): (r: Result<ResultValue>)
    ensures r.Err? <==> executable.None? && Truthy(compilerOutput)
    ensures r.Err? ==> r.error == AttributeError("truncate_string")
    ensures r.Ok? ==>
              && r.value.score == Some(if executable.Some? then 10 else 0)
              && r.value.maxScore == Some(10)
              && r.value.brief == Some(CompilesBrief(command))
              && |r.value.messages| == (if executable.Some? then 0 else 1)
              && (executable.None? ==>
                    r.value.messages[0].dscore.None? && r.value.messages[0].text == Text(SilentFailureText))
  {
    var base := NewResult(Some(CompilesBrief(command)), None, Some(10), None, Some(CompilesDefault));
    if executable.None? then
      if Truthy(compilerOutput) then Err(AttributeError("truncate_string"))
      else Ok(WithMessage(base, NewMessage(Text(SilentFailureText), [], map[])).(score := Some(0)))
    else Ok(base.(score := Some(10)))
  }
}
