/** galah_interact/common/filesexist.py: a ready-made test function for
    the test runner that scores the presence of the submitted files. */
module CommonFilesExist {
  import opened Wrappers
  import opened Strings
  import Pretty
  import opened Models
  import TestRunner
  import Core

  /** The files for which `isFile` holds, in the order they were given.
      `isFile(f)` stands for `os.path.isfile(os.path.join(testables, f))`. */
  function Extant(files: seq<string>, isFile: string -> bool): seq<string>
    decreases |files|
  {
    if files == [] then []
    else
      var rest := Extant(files[..|files| - 1], isFile);
      var last := files[|files| - 1];
      if isFile(last) then rest + [last] else rest
  }

  /** Extant keeps every occurrence of an existing file and none of a
      missing one. */
  lemma {:induction false} ExtantCounts(files: seq<string>, isFile: string -> bool)
    ensures forall f :: multiset(Extant(files, isFile))[f] == if isFile(f) then multiset(files)[f] else 0
    decreases |files|
  {
    if files != [] {
      var prefix := files[..|files| - 1];
      var last := files[|files| - 1];
      ExtantCounts(prefix, isFile);
      assert files == prefix + [last];
      assert multiset(files) == multiset(prefix) + multiset{last};
    }
  }

  /** The extant files keep their order and are exactly the files that
      exist; there are as many as files exactly when every file exists. */
  lemma {:induction false} ExtantSpec(files: seq<string>, isFile: string -> bool)
    ensures IsSubseq(Extant(files, isFile), files)
    ensures forall f :: f in Extant(files, isFile) <==> f in files && isFile(f)
    ensures |Extant(files, isFile)| <= |files|
    ensures |Extant(files, isFile)| == |files| <==> forall i :: 0 <= i < |files| ==> isFile(files[i])
    decreases |files|
  {
    if files != [] {
      var prefix := files[..|files| - 1];
      var last := files[|files| - 1];
      var rest := Extant(prefix, isFile);
      ExtantSpec(prefix, isFile);
      assert files == prefix + [last];
      assert forall i :: 0 <= i < |prefix| ==> prefix[i] == files[i];
      if isFile(last) {
        SubseqExtendBoth(rest, prefix, last);
      } else {
        SubseqExtendRight(rest, prefix, last);
      }
      SubseqMembers(Extant(files, isFile), files);
    }
  }

  const CriticalNote := " If any file is missing no further tests will be performed."
  const Demand := " must be present in your submission."

  /** The files as pretty_list writes them. */
  function Listed(files: seq<string>): string
  {
    Pretty.PrettyListOfStrings(files, Pretty.DefaultConjunction, Pretty.DefaultNoneString);
    Pretty.PrettyList(Pretty.TextItems(files), Pretty.DefaultConjunction, Pretty.DefaultNoneString).value
  }

  /** The message: the files named, "file" or "files" by their number, and
      the warning that a missing file stops the run when the test is
      critical. */
  function FilesMessage(files: seq<string>, critical: bool): string
  {
    "The " + Pretty.PluralIf("file", Pretty.Count(|files|)) + " " + Listed(files) + Demand
    + (if critical then CriticalNote else "")
  }

  /** With one file the message says "file" and names it as it is. */
  lemma OneFileMessage(files: seq<string>, critical: bool)
    requires |files| == 1
    ensures FilesMessage(files, critical) == "The file " + files[0] + Demand + (if critical then CriticalNote else "")
  {
    Pretty.PrettyListOfStrings(files, Pretty.DefaultConjunction, Pretty.DefaultNoneString);
    assert Pretty.PluralIf("file", Pretty.Count(|files|)) == "file";
  }

  /** With two files the message says "files" and joins them by "and". */
  lemma TwoFilesMessage(files: seq<string>, critical: bool)
    requires |files| == 2
    ensures FilesMessage(files, critical)
         == "The files " + files[0] + " and " + files[1] + Demand + (if critical then CriticalNote else "")
  {
    Pretty.PrettyListOfStrings(files, Pretty.DefaultConjunction, Pretty.DefaultNoneString);
    assert Pretty.PluralIf("file", Pretty.Count(|files|)) == "files";
    assert Listed(files) == files[0] + " and " + files[1];
  }

  /** Any other number of files, none included, is called "files". */
  lemma PluralFilesMessage(files: seq<string>, critical: bool)
    requires |files| != 1
    ensures FilesMessage(files, critical)[..10] == "The files "
  {
    assert Pretty.PluralIf("file", Pretty.Count(|files|)) == "files";
    MessageParts("files", Listed(files), Demand + (if critical then CriticalNote else ""));
  }

  lemma MessageParts(word: string, listed: string, ending: string)
    ensures "The " + word + " " + listed + ending == ("The " + word + " ") + (listed + ending)
    ensures ("The " + word + " " + listed + ending)[..|"The " + word + " "|] == "The " + word + " "
  {
  }

  /** The message ends with the warning when the test is critical, and
      with the demand itself otherwise. */
  lemma FilesMessageEnding(files: seq<string>, critical: bool)
    ensures critical ==> EndsWith(FilesMessage(files, critical), CriticalNote)
    ensures !critical ==> EndsWith(FilesMessage(files, critical), Demand)
  {
    var sentence := "The " + Pretty.PluralIf("file", Pretty.Count(|files|)) + " " + Listed(files);
    if critical {
      assert FilesMessage(files, critical) == (sentence + Demand) + CriticalNote;
      SuffixOf(sentence + Demand, CriticalNote);
    } else {
      assert FilesMessage(files, critical) == sentence + Demand + "";
      assert sentence + Demand + "" == sentence + Demand;
      SuffixOf(sentence, Demand);
    }
  }

  predicate EndsWith(s: string, suffix: string)
  {
    |suffix| <= |s| && s[|s| - |suffix|..] == suffix
  }

  lemma SuffixOf(a: string, b: string)
    ensures EndsWith(a + b, b)
  {
    assert (a + b)[|a + b| - |b|..] == b;
  }

  /** The score: all or nothing scores 1 when every file exists and 0
      otherwise; otherwise each existing file scores one point. */
  function FilesScore(files: seq<string>, isFile: string -> bool, allOrNothing: bool): int
  {
    var extant := Extant(files, isFile);
    if allOrNothing then (if |extant| == |files| then 1 else 0) else |extant|
  }

  /** The maximum: 1 for all or nothing, the number of files otherwise. */
  function FilesMax(files: seq<string>, allOrNothing: bool): int
  {
    if allOrNothing then 1 else |files|
  }

  /** The score is never above the maximum, and reaches it exactly when
      every file exists. */
  lemma ScoreFacts(files: seq<string>, isFile: string -> bool, allOrNothing: bool)
    ensures var score := FilesScore(files, isFile, allOrNothing);
            var all := forall i :: 0 <= i < |files| ==> isFile(files[i]);
            && 0 <= score <= FilesMax(files, allOrNothing)
            && (score == FilesMax(files, allOrNothing) <==> all)
            && (allOrNothing ==> score == (if all then 1 else 0))
            && (!allOrNothing ==> score == |Extant(files, isFile)|)
  {
    ExtantSpec(files, isFile);
  }

  /** files_exist: the dictionary of score, maximum score, message and
      whether the run must stop. */
  function FilesExist(files: seq<string>, isFile: string -> bool, allOrNothing: bool, critical: bool): (r: Value)
    ensures r.Dict? && r.entries.Keys == {"score", "max_score", "message", "critical"}
  {
    var score := FilesScore(files, isFile, allOrNothing);
    var maxScore := FilesMax(files, allOrNothing);
    Dict(map["score" := Int(score), "max_score" := Int(maxScore),
             "message" := Str(FilesMessage(files, critical)),
             "critical" := Bool(critical && score != maxScore)])
  }

  /** The score is never above the maximum; it reaches it exactly when
      every file exists; and the run is asked to stop exactly when the
      test is critical and a file is missing. */
  lemma FilesExistFacts(files: seq<string>, isFile: string -> bool, allOrNothing: bool, critical: bool)
    ensures var d := FilesExist(files, isFile, allOrNothing, critical).entries;
            var all := forall i :: 0 <= i < |files| ==> isFile(files[i]);
            && d["score"].Int? && d["max_score"].Int?
            && 0 <= d["score"].i <= d["max_score"].i
            && (d["score"] == d["max_score"] <==> all)
            && (allOrNothing ==> d["max_score"] == Int(1) && d["score"] == Int(if all then 1 else 0))
            && (!allOrNothing ==> d["max_score"] == Int(|files|) && d["score"] == Int(|Extant(files, isFile)|))
            && d["critical"] == Bool(critical && !all)
  {
    ScoreFacts(files, isFile, allOrNothing);
    var d := FilesExist(files, isFile, allOrNothing, critical).entries;
    assert d["score"] == Int(FilesScore(files, isFile, allOrNothing));
    assert d["max_score"] == Int(FilesMax(files, allOrNothing));
  }

  /** Handed to the test runner as a test's result, files_exist yields a
      test with its score, maximum and message; when it is critical and a
      file is missing, it is the last test of the run. */
  lemma MissingCriticalFileStopsRun(ds: seq<TestRunner.TestDescription>, i: nat, previous: Option<Value>,
                                    suppress: bool, files: seq<string>, isFile: string -> bool, allOrNothing: bool)
    requires i < |ds|
    requires ds[i].call == TestRunner.Returned(FilesExist(files, isFile, allOrNothing, true))
    requires ds[i].resultArgs.Keys <= TestKeywords
    requires exists j :: 0 <= j < |files| && !isFile(files[j])
    ensures var d := FilesExist(files, isFile, allOrNothing, true).entries;
            && TestRunner.RunFrom(ds, i, previous, suppress).Ok?
            && |TestRunner.RunFrom(ds, i, previous, suppress).value| == 1
            && TestRunner.RunFrom(ds, i, previous, suppress).value[0].score == d["score"]
            && TestRunner.RunFrom(ds, i, previous, suppress).value[0].maxScore == d["max_score"]
            && TestRunner.RunFrom(ds, i, previous, suppress).value[0].message == d["message"]
  {
    FilesExistFacts(files, isFile, allOrNothing, true);
    var d := FilesExist(files, isFile, allOrNothing, true).entries;
    var args := ds[i].resultArgs + d;
    assert (args - {"critical"}).Keys <= TestKeywords;
    assert TestRunner.StepOf(ds[i], previous, suppress)
        == Ok(TestRunner.Appended(NewTest(args - {"critical"}).value, true));
    NewTestRoundTrip(NewTest(args - {"critical"}).value, args - {"critical"});
  }
}
