# galah-interact-python, modelled in Dafny

galah-interact-python is a Python 2 library for writing test harnesses that
grade students' C++ programs. This project models its core and proves the
properties its code and documentation promise:

- **The brace-block parser and the indentation rule** (`interact/parse.py`,
  its near copy `interact/parsing.py`, and `interact/_utils.py`):
  - removing quoted literals from a line (`cleanse_quoted_strings`);
  - the indentation level of a line;
  - numbering lines;
  - splitting a list of lines into a tree of `{`/`}` blocks (`grab_blocks`);
  - reporting lines not indented past their parent block
    (`find_bad_indentation`, and the `check` helpers of the two indentation
    tests).

  The three files repeat the same procedures, so one model serves all of
  them. Module `Blocks` holds the functions that say what each procedure
  means. Module `Parse` holds the step-by-step loops, each proved equal to
  its function. `BlockExamples` replays some of the test vectors and
  documented examples; general lemmas cover the rest (see "Left out").
- **Text helpers** (`interact/pretty.py`, and the copies in
  `interact/_utils.py`): `pretty_list`, `plural_if`, `limit_string_length`,
  `truncate_string`, `escape_shell_string` and `craft_shell_command`.
- **`TestResult`** (`interact/core.py`): a class whose message list grows in
  place, and its plain-text rendering.
- **The dependency-ordered harness** (`interact/idempotent.py`):
  - registering tests;
  - the `run_tests` scheduler. It mutates the list it iterates over, and it
    raises "Cyclic dependencies!" even when a pass only removed blocked
    tests;
  - the score sums of `finish`.
- **The compile cache and `run_program`** (`interact/execute.py`):
  - a class that holds the cache;
  - numbered temporary directories, with a ghost set of those that still
    exist;
  - the compiler and the program as outcome parameters.
- **Result shaping**: the three tests of `interact/standardtests.py`, the
  copies in `interact/testsuites/`, the Galah result models, the test runner
  of `galah_interact`, and its ready-made `files_exist` test.

The model keeps the source's own behaviour, including its mistakes. Proved
lemmas exhibit each of them:

- `pretty_list` raises on three or more integers. So the indentation tests
  raise on three or more problems, and they always say "Lines".
- `check_compiles` passes a keyword that `TestResult` does not accept.
- A tuple of three to five values makes `run_tests` raise `NameError`,
  because of the misspelt `resuling_arguments`. An empty tuple, or one
  longer than five, raises `AssertionError` first.
- With an error function, the runner goes on with the previous test's
  result.
- `grab_blocks` drops the lines of a chunk that never returns to depth 0,
  even when the braces balance.

## Model

| member | source | states |
|---|---|---|
| Strings.SplitLines | interact/standardtests.py:91 | `splitlines`: no piece holds a line break, and there are no pieces exactly when the text is empty; the same in the copy at interact/testsuites/checkstyle/check_indentation.py:42 |
| Blocks.LeadingWhitespace | interact/parse.py:85-94 | the count of leading spaces and tabs: all of them are indentation characters, and the next character is not |
| Blocks.IndentLevel | interact/parse.py:73-94 | None exactly when every character is a space or a tab (the empty line included); otherwise the position of the first other character; the same in the copy at interact/parsing.py:52-72 |
| Blocks.IndentLevelVectors | interact/testsuites/checkstyle/check_indentation.py:176-180 | the indented test vectors: 3, 4 and 0 |
| Blocks.BlankLevelVectors | interact/testsuites/checkstyle/check_indentation.py:178-179 | a whitespace-only line and the empty line have no level |
| Blocks.IndentLevelOf | interact/parse.py:85-94 | indentation followed by a visible character has the length of the indentation as its level |
| Blocks.MakeLines | interact/parse.py:97-115 | the i-th string becomes line number i, counting from 0, with its code unchanged; the same in the copy at interact/parsing.py:75-76 |
| Blocks.MakeLinesRoundTrip | interact/parse.py:115 | the `start` argument changes nothing, and `lines_to_str_list` gives the strings back |
| Blocks.LinesToStrList | interact/parse.py:118-138 | the codes of the lines, one per line, in order; the same in the copy at interact/parsing.py:79-80 |
| Blocks.LinesToStrRoundTrip | interact/parse.py:141-158 | splitting the joined text at line breaks gives the codes back, when no code holds a break and the last is not empty; the same in the copy at interact/parsing.py:83-84 |
| Blocks.LineEquality | interact/parse.py:160-176 | two lines are equal exactly when their codes and their numbers are; the same in the copy at interact/parsing.py:86-87 |
| Blocks.CleansePrefixInvariant | interact/parse.py:317-339 | after any prefix the kept characters hold no quote, are a subsequence of the prefix, and an open literal is opened by a quote |
| Blocks.CleansedIsQuoteFreeSubsequence | interact/parse.py:285-341 | the result holds no quote character and is a subsequence of the line; the same in the copy at interact/_utils.py:85-127 |
| Blocks.CleanseQuoteFree | interact/_utils.py:99-127 | a line without quote characters comes back unchanged ("" included) |
| Blocks.CleansedIdempotent | interact/parse.py:285-341 | removing quoted literals twice is removing them once; the same in the copy at interact/_utils.py:85-127 |
| Blocks.CleansePrefixOfPrefix | interact/parse.py:320-339 | the scanner's state after n characters depends on those characters only |
| Blocks.CleansedConcat | interact/parse.py:320-339 | text split outside any literal, not just after a backslash, is cleansed piece by piece |
| Blocks.InsideLiteral | interact/parse.py:329-336 | inside a literal, an escaped quote of the opening kind keeps it open, and other quotes are content |
| Blocks.LiteralVanishes | interact/parse.py:320-339 | a literal closed by an unescaped quote of its own kind vanishes with its quotes, whatever it holds; the same in the copy at interact/_utils.py:106-125 |
| Blocks.OpenLiteralRunsToEnd | interact/parse.py:331-339 | a literal that is never closed removes the rest of the line |
| Blocks.DepthAfterConcat | interact/parse.py:249-260 | the brace depth after two pieces of text is the depth after the second, started where the first ended |
| Blocks.ZeroSeenIff | interact/parse.py:249-264 | a line joins the current block exactly when the depth is 0 before one of its characters or after the last |
| Blocks.ZeroSeenAtZero | interact/parse.py:226 | entered at depth 0, a line always joins the current block |
| Blocks.ScanLines | interact/parse.py:240-278 | the loop state: it holds no more lines than it has read, and the current block is non-empty once a line has been read |
| Blocks.ScanStep | interact/parse.py:243-278 | one turn of the loop adds at most one line, never shrinks the block, and a line entered at depth 0 joins it |
| Blocks.GrabBlocksNoneIff | interact/parse.py:280-283 | None exactly for an empty input; otherwise the first line is the first line of the top block; the same in the copy at interact/parsing.py:154-157 |
| Blocks.FirstLineOnTop | interact/parse.py:226-276 | the first line always lands in the top block |
| Blocks.TopIsSubsequence | interact/parse.py:240-278 | the top block's lines are input lines in input order |
| Blocks.TopIsJoiningLines | interact/parse.py:240-278 | after any number of lines, the depth is the brace depth of their quote-stripped text, and the current block holds exactly the lines that reach depth 0 (entered at the depth before them), in input order; the same in the copy at interact/parsing.py:114-152 |
| Blocks.GrabBlocksTopLines | interact/parse.py:240-283 | the top block of the tree holds exactly the input lines that reach depth 0, in input order |
| Blocks.ChunkSinceLastJoin | interact/parse.py:266-278 | the pending chunk is the run of lines since the last line that joined the current block, and none of its lines joins |
| Blocks.ScanStepPlaces | interact/parse.py:249-278 | one line moves the depth past its braces, and joins either the current block (emptying the chunk) or the chunk |
| Blocks.ChunkStep | interact/parse.py:266-278 | a line that joins empties the chunk, and one that does not extends the run |
| Blocks.DepthAfterNoBraces | interact/parse.py:257-260 | text without braces leaves the depth unchanged |
| Blocks.ElseLineJoins | interact/parse.py:250-254 | a line `} else {` (no quotes, no other braces) entered at depth 1 reaches depth 0, so it stays in the enclosing block, and leaves the depth at 1 |
| Blocks.QuotedBraceOpensNothing | interact/parse.py:241-243 | braces inside a closed quoted literal do not count: the depth after the line is that of its text outside the literal, as for `cout << "{" << endl;` |
| Blocks.ScanStepAccounts | interact/parse.py:266-278 | each line read is placed exactly once: in the block, in a sub-block, lost, or in the pending chunk |
| Blocks.ScanAccounts | interact/parse.py:240-278 | what the loop has read is split exactly between the tree so far, the lost lines and the pending chunk |
| Blocks.GrabBlocksAccounts | interact/parse.py:240-283 | the lines of the tree and the lost lines are exactly the input lines, none invented or duplicated; the same in the copy at interact/parsing.py:114-157 |
| Blocks.GrabBlocksLinesFromInput | interact/parse.py:240-283 | every line of the tree is an input line |
| Blocks.MinIndentSpec | interact/parse.py:406-412 | None exactly when every line is blank; otherwise the level of some line, and no non-blank line has a smaller one |
| Blocks.MinIndentIs | interact/parse.py:406-412 | the least level is that of a line which no non-blank line undercuts |
| Blocks.MinIndentZero | interact/parse.py:406-412 | a block with a line at the margin has least level 0 |
| Blocks.BadLinesSpec | interact/parse.py:398-404 | the reported lines keep their order, and a line is reported exactly when it is non-blank and indented at most the minimum; the same in the copy at interact/standardtests.py:100-106 and interact/testsuites/checkstyle/check_indentation.py:51-57 |
| Blocks.BadLinesWithoutMinimum | interact/parse.py:402 | without a minimum nothing is reported |
| Blocks.NoBadLines | interact/parse.py:400-404 | nothing is reported when every non-blank line is indented past the minimum |
| Blocks.FindBadLeaf | interact/parse.py:396-418 | a block without sub-blocks reports its own bad lines, or raises ValueError when it has no non-blank line |
| Blocks.FindBadNode | interact/parse.py:396-418 | a block's bad lines come first, then those of its sub-blocks measured against its least level |
| Blocks.FindBadFromStep | interact/parse.py:414-416 | the sub-blocks are checked in order, and the first exception wins |
| Blocks.FindBadErrorIff | interact/parse.py:412 | find_bad_indentation raises exactly when some block of the tree has no non-blank line; every reported line is non-blank; the same in the copy at interact/standardtests.py:114 and interact/testsuites/checkstyle/check_indentation.py:65 |
| Blocks.FindBadFromErrorIff | interact/parse.py:414-416 | the sub-blocks from the i-th on raise exactly when one of them holds a blank block |
| Blocks.TopLevelNeverReported | interact/parse.py:402-403 | with no minimum, only lines of sub-blocks are reported |
| Blocks.FindBadWithinTree | interact/parse.py:396-418 | every reported line is a line of the block tree |
| Blocks.FindBadFromWithinTree | interact/parse.py:414-416 | every line reported for the sub-blocks from the i-th on lies in those sub-blocks |
| Parse.IndentLevel | interact/parse.py:73-94 | the loop computes the indentation level; the same in the copy at interact/parsing.py:52-72 |
| Parse.CleanseQuotedStrings | interact/parse.py:285-341 | the loop (backslash count, then close, open or keep) computes the cleansed line; the same in the copy at interact/_utils.py:85-127 |
| Parse.GrabBlocks | interact/parse.py:178-283 | the loop with its recursive calls computes the block tree; the same in the copy at interact/parsing.py:89-157 |
| Parse.Min | interact/parse.py:412 | `min` raises ValueError on an empty list; otherwise it returns a member no larger than any other |
| Parse.PrependStep | interact/parse.py:415-416 | taking in one sub-block's problems leaves what remains to be found unchanged |
| Parse.LevelsOfStep | interact/parse.py:407-411 | gathering one more line keeps `levels` equal to the levels of the non-blank lines so far |
| Parse.LevelsMin | interact/parse.py:407-412 | `min` of the gathered levels is the block's least level, and raises exactly when it has none |
| Parse.GatheredFindBad | interact/parse.py:396-418 | once the bad lines and levels are gathered, the result is settled: min's exception, or the bad lines followed by the sub-blocks' problems |
| Parse.FindBadIndentation | interact/parse.py:343-418 | the loops and recursion compute the problem list, or the exception of `min`; the same in the copy at interact/standardtests.py:97-120 and interact/testsuites/checkstyle/check_indentation.py:48-71 |
| BlockExamples.CleanseVectorLiteralThenText | interact_test/_utils_test.py:27 | the vector 'hi'hi (two adjacent triple-quoted literals) gives "hi": a single-quoted literal vanishes and the text after it is kept; the same in the copy at interact_test/parse_test.py:27 |
| BlockExamples.QuoteRunVanishes | interact/parse.py:320-339 | an even run of one kind of quote is a row of empty literals and leaves nothing |
| BlockExamples.CleanseVectorQuoteRuns | interact_test/parse_test.py:28-29 | the vectors of sixteen single and sixteen double quotes leave nothing |
| BlockExamples.UnclosedInnerChunkIsLost | interact/parse.py:266-283 | with balanced braces ["a {","b {","c","}}"] loses "c": the tree holds the other three lines |
| BlockExamples.LostExampleOpening | interact/parse.py:253-278 | any input whose first three lines are "a {", "b {" and "c" is left at depth 2 after them, with "a {" on top and "b {" and "c" waiting |
| BlockExamples.LostExampleInnerChunk | interact/parse.py:269-283 | the recursive call on ["b {","c"] keeps "b {" and drops "c" |
| BlockExamples.BracesOfLostExampleBalance | interact/parse.py:249-260 | the braces of that input balance |
| BlockExamples.ExampleThenBranch | interact/parse.py:376-380 | the first inner block of the documented example reports nothing against level 4 |
| BlockExamples.ExampleElseBranch | interact/parse.py:381-386 | the second inner block reports "oh noz" |
| BlockExamples.ExampleMainBodyLines | interact/parse.py:365-374 | main's body reports nothing against 0 and has least level 4 |
| BlockExamples.ExampleMainBody | interact/parse.py:365-389 | main's body with its two branches reports only "oh noz" |
| BlockExamples.ExampleTopLines | interact/parse.py:356-363 | the top lines have least level 0 and report nothing without a minimum |
| BlockExamples.FindBadExample | interact/parse.py:355-392 | the documented example yields exactly [Line(11, "oh noz")] |
| Pretty.PrettyList | interact/pretty.py:23-54 | raises TypeError exactly when there are three or more items and an integer among all but the last two; the same in the copy at interact/_utils.py:34-65 |
| Pretty.PrettyListOfStrings | interact/pretty.py:39-44 | a list of strings always renders: the none string, the item, or "a conj b" |
| Pretty.PrettyListCommaForm | interact/pretty.py:45-54 | three or more strings: all but the last joined by ", ", then ", conj last" |
| Pretty.PrettyListExamples | interact/pretty.py:28-33 | the three docstring examples; the same in the copy at interact/_utils.py:39-44 |
| Pretty.PrettyListOfNumbersRaises | interact/pretty.py:47 | three or more items whose first is an integer make it raise |
| Pretty.PluralIf | interact/pretty.py:56-72 | "s" is appended exactly when the condition is True, a number other than 1, or another object; otherwise the word is unchanged; the same in the copy at interact/_utils.py:67-83 |
| Pretty.LimitStringLength | interact/pretty.py:74-98 | TypeError exactly for a negative limit; otherwise a prefix no longer than the character limit, the characters cut, and the lines over the line limit |
| Pretty.LineLimitNotApplied | interact/pretty.py:87-91 | the kept text does not depend on the line limit |
| Pretty.TruncateString | interact/pretty.py:100-108 | raises exactly when a limit is negative |
| Pretty.TruncateStringCases | interact/pretty.py:94-108 | nothing cut gives the input back; otherwise the first `max_characters` characters (the whole input when only the line limit is exceeded) followed by the marker |
| Pretty.TruncateStringCanLookUnchanged | interact/pretty.py:105-108 | the converse fails: a text ending in the marker can be cut and still come back unchanged |
| Pretty.ChainedReplaceIsEscapeChars | interact/pretty.py:128 | the two chained replacements put one backslash before each backslash and double quote |
| Pretty.EscapeCharsSpaces | interact/pretty.py:128-130 | escaping neither adds nor removes spaces, and never starts with a double quote |
| Pretty.UnescapeEscapeChars | interact/pretty.py:128 | the escaping is undone by reading a backslash as "next character" |
| Pretty.EscapeShellStringRoundTrip | interact/pretty.py:120-132 | decoding the display gives the argument back; it is quoted exactly when the argument has a space |
| Pretty.EscapeAll | interact/pretty.py:118 | each argument escaped, in order |
| Pretty.DecodeArguments | interact/pretty.py:118 | a displayed command reads back as its arguments, after any already read |
| Pretty.CraftShellCommandRoundTrip | interact/pretty.py:110-118 | reading a displayed non-empty command back gives its argument list, empty arguments and spaces included |
| Core.NewMessageKeepsKeywords | interact/core.py:33-42 | text, args and kwargs are stored unchanged; dscore and type are the keywords of those names, None when absent |
| Core.MessageFor | interact/core.py:62-73 | a lone Message is appended itself; otherwise a new Message is built, and TypeError is raised exactly when the text is missing or given twice |
| Core.TestResult.constructor | interact/core.py:50-60 | the fields are stored as given; omitted messages become an empty list |
| Core.TestResult.AddMessage | interact/core.py:62-73 | exactly one message is appended at the end and nothing else changes, or TypeError is raised and nothing changes |
| Core.TestResult.ToString | interact/core.py:75-97 | the loop builds the rendering |
| Core.RenderAsParagraphs | interact/core.py:75-97 | the rendering is the status, the brief, then the bullets or the default message, separated by blank lines |
| Core.RenderEmptyIff | interact/core.py:97 | the rendering is "" exactly when nothing is set |
| Core.StatusComesFirst | interact/core.py:78-85 | with a score the rendering opens with "Score: N" (plus " out of M"), followed by a blank line unless nothing else is shown |
| Core.ZeroMaxScoreLikeNone | interact/core.py:82-83 | a maximum of 0 renders like a missing maximum |
| Core.MaxScoreIgnoredWithoutScore | interact/core.py:79-85 | without a score the maximum is not shown |
| Core.DefaultIgnoredWithMessages | interact/core.py:90-95 | once there are messages the default message is not shown |
| Core.AddedMessageIsLastBullet | interact/core.py:90-93 | adding a message to a result with messages adds one bullet line at the end |
| Core.Bullets | interact/core.py:91-92 | one bullet per message |
| Core.SpacedJoin | interact/core.py:97 | dropping the last empty line and joining by line breaks separates the parts by one blank line |
| Idempotent.FailedDependencies | interact/idempotent.py:23-32 | score 0 out of 10, with the brief and no messages, whatever maximum is passed |
| Idempotent.FailedDependenciesIgnoresMaxScore | interact/idempotent.py:24-32 | the maximum argument is ignored, and the rendering is "Score: 0 out of 10" and the brief |
| Idempotent.MarkFailed | interact/idempotent.py:159-167 | the test becomes a FailedDependencies (kept if it already is) and gains one message naming the dependency |
| Idempotent.CheckDeps | interact/idempotent.py:154-172 | the dependency loop raises only KeyError, changes only the checked test, and never unblocks a test |
| Idempotent.ChosenOnlyWhenDependenciesPass | interact/idempotent.py:148-172 | a test is chosen only when every dependency has a result that is not failing, and then nothing changed; conversely, for such a test the dependency loop completes and changes nothing (whether it is finally chosen depends on the tests after it) |
| Idempotent.Remove | interact/idempotent.py:170 | `list.remove` drops one entry when present |
| Idempotent.RemoveMembers | interact/idempotent.py:170 | removing keeps every other entry, and removes the only copy from a list without repeats |
| Idempotent.RemoveAt | interact/idempotent.py:170 | removing the entry at a position of a list without repeats removes exactly that position |
| Idempotent.PassFrom | interact/idempotent.py:142-172 | a pass raises only KeyError, never unblocks a test, and never lengthens the list |
| Idempotent.PassFacts | interact/idempotent.py:142-172 | a pass only drops blocked tests, leaves untouched the tests it did not reach, and chooses a listed test that is not blocked |
| Idempotent.RunFrom | interact/idempotent.py:140-180 | the run keeps the registry's tests, names and dependencies, and runs no more tests than are listed |
| Idempotent.RunOutcome | interact/idempotent.py:140-180 | each body is called at most once, for a listed test; every listed test is run or blocked, never both; a run test keeps what its body returned |
| Idempotent.SpuriousCycle | interact/idempotent.py:143-178 | a pass that only removes a blocked test raises "Cyclic dependencies!" with no cycle, and skips the entry after the removed one |
| Idempotent.SumPermutation | interact/idempotent.py:77-83 | the sums do not depend on the order in which the tests are visited |
| Idempotent.FinishScores | interact/idempotent.py:74-89 | given scores are kept; when one is omitted, AttributeError exactly when some test has no result |
| Idempotent.FinishOrderFree | interact/idempotent.py:77-89 | the scores of finish do not depend on the dictionary's order |
| Idempotent.Harness.constructor | interact/idempotent.py:42-44 | no tests registered |
| Idempotent.Harness.Register | interact/idempotent.py:111-126 | one new test, without a result, under a fresh wrapper; nothing runs |
| Idempotent.Harness.CheckDependencies | interact/idempotent.py:154-172 | the loop updates the registry as the dependency function says |
| Idempotent.Harness.NextTest | interact/idempotent.py:142-172 | the loop over the remaining tests updates the registry and chooses as the pass function says |
| Idempotent.Harness.RunTests | interact/idempotent.py:128-180 | the while loop ends in the registry of the run function, and its calls are those of the run |
| Idempotent.Harness.Finish | interact/idempotent.py:65-89 | visiting each registered test once, the loop adds up the scores as the finish function says |
| Execute.CreateCompileCommand | interact/execute.py:36-51 | "g++", the flags, "-o", "main", then the files |
| Execute.CommandDeterminesParts | interact/execute.py:51 | with the number of flags known, the command gives the files and flags back |
| Execute.SortStrings | interact/execute.py:85 | the cache key is sorted and holds the same files |
| Execute.SortedUnique | interact/execute.py:85 | two sorted lists with the same files are equal |
| Execute.SameKeyIffSameFiles | interact/execute.py:85 | two file lists share a cache entry exactly when they hold the same files, in any order |
| Execute.CheckArguments | interact/execute.py:166-171 | TypeError exactly when files and executable are both given or both missing |
| Execute.Execution.constructor | interact/execute.py:30 | the cache starts empty, with no temporary directory |
| Execute.Execution.MakeTempDir | interact/execute.py:89 | a directory that did not exist before |
| Execute.Execution.RemoveTree | interact/execute.py:113 | the directory no longer exists, and nothing else changes |
| Execute.Execution.CompileProgram | interact/execute.py:53-114 | a cache hit returns the entry unchanged. Otherwise it compiles: a failure leaves the cache alone and a success stores the new executable. An exception while starting or waiting removes the new directory and leaves the cache alone. An exception while reading the output also removes it, but after a successful build the cache keeps the entry, whose directory is now gone |
| Execute.Execution.RunIn | interact/execute.py:184-193 | the run gets a fresh temporary directory, which is removed however the run ends; the result is the run's outcome and nothing else changes |
| Execute.Execution.RunProgram | interact/execute.py:147-193 | TypeError for bad arguments; the compiler's exception (started, waited on or read), or RuntimeError when compiling fails; otherwise the run's outcome, and the run's directory is removed afterwards |
| Execute.Outcome | interact/execute.py:189-191 | the outcome is a value exactly when the program ran |
| StandardTests.MissingSpec | interact/standardtests.py:48 | the missing files keep the input order and are exactly the files that are not there, each listed as often as it occurs in the input; the same in the copy at interact/testsuites/checkfiles/filesexist.py:31 |
| StandardTests.FilesExistFacts | interact/standardtests.py:39-68 | passing exactly when every file exists; one message worth -1, with its type and the missing list, exactly when one is missing; the same in the copy at interact/testsuites/checkfiles/filesexist.py:22-51 |
| StandardTests.CheckFilesExist | interact/standardtests.py:39-68 | builds the TestResult and the passing flag of check_files_exist; the same in the copy at interact/testsuites/checkfiles/filesexist.py:22-51 |
| StandardTests.IndentationProblems | interact/standardtests.py:90-130 | empty code raises AttributeError; otherwise it raises exactly when a block is blank, and reports non-blank lines numbered by 0-based position |
| StandardTests.IndentReportFacts | interact/standardtests.py:130-149 | raises TypeError exactly for three or more problems; otherwise one message exactly when there are problems, and the score is the maximum less the problems, clamped at 0 unless negative scores are allowed |
| StandardTests.IndentMessageFacts | interact/standardtests.py:131-142 | "is"/"are" by count, always "Lines", the problem lines, dscore minus their number, the type, and the file name exactly when given |
| StandardTests.Indentation | interact/standardtests.py:70-151 | the method builds the result of the indentation function, or raises what it raises |
| StandardTests.Report | interact/standardtests.py:122-149 | the result once the problems are known |
| StandardTests.Shape | interact/standardtests.py:122-142 | the new result with the message about the problems, if any |
| StandardTests.Score | interact/standardtests.py:144-149 | the score set from the maximum and the dscore sum, or TypeError for a missing dscore |
| StandardTests.CheckCompiles | interact/standardtests.py:153-170 | the compiler's exception when it raises; otherwise TypeError for the `bulleted_messages` keyword. Either way the compile has taken effect: a cache hit changes nothing; otherwise the command is recorded, and a new directory is made. An exception removes that directory. A successful build is cached for later calls, even when reading its output then raised |
| StandardTests.CompilesReport | interact/standardtests.py:172-193 | 10 exactly when an executable came back, otherwise 0, out of 10; a silent failure adds one message without dscore; output makes `_utils.truncate_string` raise AttributeError |
| CheckIndentation.Indentation | interact/testsuites/checkstyle/check_indentation.py:21-101 | the method builds the result of the indentation function, or raises what it raises |
| CheckIndentation.OutcomesAgree | interact/testsuites/checkstyle/check_indentation.py:81-99 | this copy and the one in standardtests.py raise together, with the same exception, and otherwise give the same score, maximum and message count |
| CheckIndentation.ReportsAgree | interact/testsuites/checkstyle/check_indentation.py:81-99 | the reports agree on everything but the text and the `file_name` keyword |
| CheckIndentation.MessagesAgree | interact/testsuites/checkstyle/check_indentation.py:83-92 | the messages differ only in their text and the `file_name` keyword |
| Models.NewTest | galah_interact/models.py:13-23 | TypeError exactly for a keyword that is not a parameter |
| Models.NewTestRoundTrip | galah_interact/models.py:14-23 | given fields are kept; `parts` is never None afterwards; a test whose parts are set is rebuilt from its own fields |
| Models.EachToListSpec | galah_interact/models.py:10-11 | the parts convert exactly when each is a part, each to its list, in order |
| Models.TestToDictFacts | galah_interact/models.py:25-32 | exactly the five keys hold the fields, with the parts as lists in order, and convert exactly when each part does |
| Models.EachTestDictSpec | galah_interact/models.py:47 | the tests convert exactly when each does, in order |
| Models.ResultToDictFacts | galah_interact/models.py:43-48 | keys score, max_score and tests, the tests in order |
| Models.TotalSpec | galah_interact/models.py:57-58 | `sum` succeeds exactly over numbers and adds over concatenation |
| Models.CalculatedFacts | galah_interact/models.py:50-58 | the tests are unchanged; success exactly when all scores are numbers, and then the two sums |
| Models.CalculatedAppend | galah_interact/models.py:57-58 | one more test adds its score and its maximum |
| Models.CalculatedIdempotent | galah_interact/models.py:57-58 | calculating twice is calculating once |
| Models.GalahResult.constructor | galah_interact/models.py:35-41 | the fields as given; omitted tests become an empty list |
| Models.GalahResult.CalculateScores | galah_interact/models.py:50-58 | the fields become the calculation's, and the method raises what it raises |
| TestRunner.NormaliseFacts | galah_interact/testrunner.py:59-82 | tuples of 1 or 2 set score and max_score; 3-5 raise NameError; others raise AssertionError; a dict overrides; a number sets the score; anything else raises TypeError |
| TestRunner.FoldReturned | galah_interact/testrunner.py:59-82 | the branches fold the returned value in as the normalising function says |
| TestRunner.CriticalRemoved | galah_interact/testrunner.py:84-89 | "critical" is removed before the test is built, and its truth decides the stop |
| TestRunner.BuildTest | galah_interact/testrunner.py:84-89 | builds the test as the build function says |
| TestRunner.ErrorPolicy | galah_interact/testrunner.py:45-57 | SyntaxError always ends the run; without an error function other exceptions end it, or skip the description when suppressed |
| TestRunner.StaleResult | galah_interact/testrunner.py:52-59 | after the error function returns, the earlier description's result is reused, unbound for the first |
| TestRunner.HandleDescription | galah_interact/testrunner.py:39-92 | one turn of the loop, as the step function says |
| TestRunner.OneTestEach | galah_interact/testrunner.py:36-89 | when each test returns a plain value, exactly one test per description, in order |
| TestRunner.RunFromBounds | galah_interact/testrunner.py:84-92 | never more tests than descriptions, and a critical test ends the run as the last test appended |
| TestRunner.RunTests | galah_interact/testrunner.py:33-97 | the loop gives the run's result, passed through the total calculator when one is set |
| CommonFilesExist.ExtantSpec | galah_interact/common/filesexist.py:11-12 | the extant files keep their order and are exactly the files that exist; all of them exactly when every file exists |
| CommonFilesExist.ExtantCounts | galah_interact/common/filesexist.py:11-18 | each existing file is kept as often as it occurs in the input, and a missing one not at all, so `len(extant_files)` counts occurrences |
| CommonFilesExist.OneFileMessage | galah_interact/common/filesexist.py:4-9 | one file: "The file f must be present in your submission." and the note when critical |
| CommonFilesExist.TwoFilesMessage | galah_interact/common/filesexist.py:4-9 | two files: "The files a and b ..." |
| CommonFilesExist.PluralFilesMessage | galah_interact/common/filesexist.py:4-5 | any number but one says "files" |
| CommonFilesExist.FilesMessageEnding | galah_interact/common/filesexist.py:8-9 | the message ends with the note exactly when critical, otherwise with the demand |
| CommonFilesExist.ScoreFacts | galah_interact/common/filesexist.py:14-19 | 0 ≤ score ≤ maximum, equal exactly when every file exists; all or nothing gives 1 or 0 out of 1, otherwise one point per existing file out of the number of files |
| CommonFilesExist.FilesExist | galah_interact/common/filesexist.py:21-26 | a dictionary with exactly score, max_score, message and critical |
| CommonFilesExist.FilesExistFacts | galah_interact/common/filesexist.py:11-25 | the dictionary's scores obey those bounds, and critical holds exactly when the test is critical and a file is missing |
| CommonFilesExist.MissingCriticalFileStopsRun | galah_interact/testrunner.py:84-92 | a critical files_exist result with a missing file is the last test of the run, with its score, maximum and message |

## Left out

- The processes, files and streams are not modelled as such:
  - The compiler, the student's program, `os.path.isfile` and `os.path.join` are parameters: an outcome value, or a predicate on file names.
  - Temporary directories are numbers, with a ghost set of those that exist.
  - Deleting the cache's directories at exit (`atexit`) is not modelled.
- `default_run_func`, `communicate` and `Popen` are not modelled. Their outcome is the `runner` parameter of `RunProgram`.
- `is_failing`, `is_passing`, `set_passing`, `calculate_score` and `to_galah_dict` are not defined in interact/core.py:
  - `is_failing` is a predicate parameter of the scheduler.
  - StandardTests.CheckFilesExist returns the value it would hand to `set_passing` as a flag. In the source that call would raise AttributeError.
- `Harness.start`, the printing and JSON branches of `Harness.finish`, `student_file(s)`, `GalahResult.send`, `GalahConfig` and interact/sheeptalk.py read or write stdin, stdout, argv or JSON. They are not modelled.
- `Message.__str__` (`str.format`) is a parameter `render` of the rendering.
- `_utils.default_repr` and `_utils.resolve_path` (reflection, file system) are not modelled.
- `Block._to_str_list` and `__str__` are not modelled; they are display only.
- The module-level `print` at interact/testsuites/checkstyle/check_indentation.py:129 is not modelled.
- CheckIndentation.Indentation: `from parsing import ...` is taken to resolve to interact/parsing.py.
- Test functions and error functions are data:
  - A test description holds what its test function returned or raised.
  - It holds what its error function raises in turn.
  - The configuration and the call arguments are not modelled.
- TestRunner.RunTests hands the total calculator the GalahResult as a value.
- Python values:
  - floats and longs are not modelled;
  - `int` covers Python's ints;
  - dictionary keys are strings only.
- Models.GalahResult.ToDict: the class's dictionary form is stated through `ResultToDict` on its fields.
- galah_interact/pretty.py, which common/filesexist.py imports, is not part of this model. The interact/pretty.py functions stand in for it.
- StandardTests.CompilesReport: the output message with dscore -10 is never built, because `_utils.truncate_string` raises AttributeError first. CheckCompiles raises even earlier (TypeError for `bulleted_messages`). So the report models the lines as written but is never reached.
- These files are not modelled; they are I/O, foreign tools, or duplicates of modelled code:
  - interact/capture.py;
  - interact/unittest.py and interact/swig/;
  - the unittesting, outputtesting and C++ unittest suites.
- BlockExamples: the grab_blocks vectors are not replayed line by line. These are the simple and the tricky case at interact_test/parse_test.py:43-72 and 75-129, and the docstring example at interact/parse.py:186-215. The placement rule they exercise is proved in general (`TopIsJoiningLines`, `ChunkSinceLastJoin`), and so are their two tricky lines (`ElseLineJoins`, `QuotedBraceOpensNothing`).
- BlockExamples: the longer cleanse vectors are covered by the general lemmas `LiteralVanishes` and `OpenLiteralRunsToEnd`, not replayed one by one. These are the ones with nested quotes of the other kind or escaped quotes of the same kind, at interact_test/parse_test.py:25 and 30-31.
