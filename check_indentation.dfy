/** interact/testsuites/checkstyle/check_indentation.py: a second copy of
    the indentation test, built on interact/parsing.py. `interact.TestResult`
    is `core.TestResult`, which the package re-exports. Its message does not
    name the file. */
module CheckIndentation {
  import opened Wrappers
  import opened Strings
  import opened Blocks
  import opened Core
  import Parse
  import StandardTests

  /** indentation: split the code into lines numbered from 0, group them
      into blocks, find the problems and shape the result with a message
      that names no file. */
  function IndentationOutcome(code: string, maxScore: int, allowNegative: bool): Result<ResultValue>
  {
    var problems :- StandardTests.Problems(GrabBlocks(MakeLines(SplitLines(code), 1)));
    StandardTests.IndentReport(problems, None, maxScore, allowNegative)
  }

  /** indentation, building the TestResult object as the source does. */
  method Indentation(code: string, maxScore: int, allowNegative: bool) returns (r: Result<TestResult>)
    ensures r.Ok? <==> IndentationOutcome(code, maxScore, allowNegative).Ok?
    ensures r.Err? ==> r.error == IndentationOutcome(code, maxScore, allowNegative).error
    ensures r.Ok? ==> fresh(r.value) && r.value.Value() == IndentationOutcome(code, maxScore, allowNegative).value
  {
    var lines := MakeLines(SplitLines(code), 1);
    var blocks := Parse.GrabBlocks(lines);
    if blocks.None? {
      return Err(AttributeError("lines"));
    }
    var problems := Parse.FindBadIndentation(blocks.value, None);
    if problems.Err? {
      return Err(problems.error);
    }
    r := StandardTests.Report(problems.value, None, maxScore, allowNegative);
  }

  /** The two copies of the test judge the same code alike: they raise
      together, with the same exception, and otherwise give the same
      score, maximum and number of messages. */
  lemma OutcomesAgree(code: string, fileName: string, maxScore: int, allowNegative: bool)
    ensures var plain := IndentationOutcome(code, maxScore, allowNegative);
            var named := StandardTests.IndentationOutcome(code, fileName, maxScore, allowNegative);
            && (plain.Ok? <==> named.Ok?)
            && (plain.Err? ==> plain.error == named.error)
            && (plain.Ok? ==>
                  && plain.value.score == named.value.score
                  && plain.value.maxScore == named.value.maxScore
                  && |plain.value.messages| == |named.value.messages|)
  {
    var problems := StandardTests.Problems(GrabBlocks(MakeLines(SplitLines(code), 1)));
    if problems.Ok? {
      ReportsAgree(problems.value, fileName, maxScore, allowNegative);
      StandardTests.IndentReportFacts(problems.value, None, maxScore, allowNegative);
      StandardTests.IndentReportFacts(problems.value, Some(fileName), maxScore, allowNegative);
    }
  }

  /** The two messages differ only in their text and the `file_name`
      keyword, and are built or refused together. */
  lemma MessagesAgree(problems: seq<Line>, fileName: string)
    ensures var plain := StandardTests.IndentMessage(problems, None);
            var named := StandardTests.IndentMessage(problems, Some(fileName));
            && (plain.Ok? <==> named.Ok?)
            && (plain.Ok? ==>
                  && plain.value.dscore == named.value.dscore
                  && plain.value.kind == named.value.kind
                  && plain.value.kwargs == named.value.kwargs - {"file_name"}
                  && plain.value.text == Text(StandardTests.IndentTextPlain)
                  && named.value.text == Text(StandardTests.IndentTextWithFile))
  {
  }

  /** The shaping of lines 81-99 (StandardTests.IndentReport without a file
      name) agrees with that of standardtests.py on everything but the
      message text and its `file_name` keyword: both raise together, and
      otherwise they give the same score, maximum and number of messages,
      with the same dscore, type, wording and reported lines. */
  lemma ReportsAgree(problems: seq<Line>, fileName: string, maxScore: int, allowNegative: bool)
    ensures var plain := StandardTests.IndentReport(problems, None, maxScore, allowNegative);
            var named := StandardTests.IndentReport(problems, Some(fileName), maxScore, allowNegative);
            && (plain.Ok? <==> named.Ok?)
            && (plain.Ok? ==>
                  && plain.value.score == named.value.score
                  && plain.value.maxScore == named.value.maxScore
                  && |plain.value.messages| == |named.value.messages|
                  && (problems != [] ==>
                        && plain.value.messages[0].dscore == named.value.messages[0].dscore
                        && plain.value.messages[0].kind == named.value.messages[0].kind
                        && plain.value.messages[0].kwargs == named.value.messages[0].kwargs - {"file_name"}
                        && plain.value.messages[0].text == Text(StandardTests.IndentTextPlain)
                        && named.value.messages[0].text == Text(StandardTests.IndentTextWithFile)))
  {
    if problems != [] {
      MessagesAgree(problems, fileName);
      var plain := StandardTests.IndentMessage(problems, None);
      var named := StandardTests.IndentMessage(problems, Some(fileName));
      if plain.Ok? {
        SameDscoreSum(plain.value, named.value);
      }
    }
  }

  lemma SameDscoreSum(a: Message, b: Message)
    requires a.dscore == b.dscore
    ensures StandardTests.DscoreSum([a]) == StandardTests.DscoreSum([b])
  {
    assert [a][..0] == [b][..0];
  }
}
