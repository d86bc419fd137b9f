/** galah_interact/testrunner.py: runs a list of test descriptions, turns
    what each test function returned into a GalahTest, and stops early at
    a critical test. */
module TestRunner {
  import opened Wrappers
  import opened Models

  /** What calling a test function with the configuration and its
      arguments gave: a value, or an exception. */
  datatype Call = Returned(value: Value) | Raised(error: Exception)

  /** `TestDescription`: the outcome of its test function, its error
      function (the exception that it raises in turn, if any) and the
      arguments for the GalahTest it produces. */
  datatype TestDescription = TestDescription(call: Call, errorFunc: Option<Exception -> Option<Exception>>,
                                             resultArgs: map<string, Value>)

  /** What one description contributes to the run. */
  datatype Step = Skipped | Appended(test: GalahTest, critical: bool)

  /** The value `test_result` holds after the call, or None when the
      description is skipped. SyntaxError always propagates. With an error
      function that returns, the loop carries on with the `test_result`
      of an earlier description, which is unbound for the first one. */
  function TestResultOf(d: TestDescription, previous: Option<Value>, suppress: bool): Result<Option<Value>>
  {
    match d.call
    case Returned(v) => Ok(Some(v))
    case Raised(e) =>
      if e.SyntaxError? then Err(e)
      else if d.errorFunc.Some? then
        var raised := d.errorFunc.value(e);
        if raised.Some? then Err(raised.value)
        else if previous.None? then Err(UnboundLocalError("test_result"))
        else Ok(previous)
      else if suppress then Ok(None)
      else Err(e)
  }

  /** The `test_result` seen by the next description. */
  function Carried(d: TestDescription, previous: Option<Value>): Option<Value>
  {
    if d.call.Returned? then Some(d.call.value) else previous
  }

  const InvalidObject := "test_func returned invalid object."

  /** The arguments after folding in what the test returned. A tuple sets
      the score and the maximum score, but its third position is written
      to the misspelt name `resuling_arguments`, which raises NameError. */
  function Normalise(args: map<string, Value>, returned: Value): Result<map<string, Value>>
  {
    match returned
    case Tuple(items) =>
      if !(1 <= |items| <= 5) then Err(AssertionError)
      else
        var withScore := args["score" := items[0]];
        var withMax := if |items| >= 2 then withScore["max_score" := items[1]] else withScore;
        if |items| >= 3 then Err(NameError("resuling_arguments")) else Ok(withMax)
    case Dict(entries) => Ok(args + entries)
    case Int(_) => Ok(args["score" := returned])
    case Bool(_) => Ok(args["score" := returned])
    case _ => Err(TypeError(InvalidObject))
  }

  /** How each kind of returned value is folded in. A tuple of one or two
      values sets the score and then the maximum score; any longer tuple
      raises, NameError up to five values and AssertionError beyond; a
      dictionary overrides the arguments key by key and keeps the others;
      a number becomes the score; anything else raises TypeError. */
  lemma NormaliseFacts(args: map<string, Value>, returned: Value)
    ensures var r := Normalise(args, returned);
            && (returned.Tuple? ==>
                  var n := |returned.items|;
                  && (n == 0 || n > 5 ==> r == Err(AssertionError))
                  && (3 <= n <= 5 ==> r == Err(NameError("resuling_arguments")))
                  && (1 <= n <= 2 ==> r.Ok? && r.value.Keys == args.Keys + (if n == 1 then {"score"} else {"score", "max_score"})
                                      && r.value["score"] == returned.items[0]
                                      && (n == 2 ==> r.value["max_score"] == returned.items[1])
                                      && forall k :: k in args && k !in {"score", "max_score"} ==> r.value[k] == args[k]))
            && (returned.Dict? ==>
                  && r.Ok? && r.value.Keys == args.Keys + returned.entries.Keys
                  && (forall k :: k in returned.entries ==> r.value[k] == returned.entries[k])
                  && (forall k :: k in args && k !in returned.entries ==> r.value[k] == args[k]))
            && (Numeric(returned) ==> r == Ok(args["score" := returned]))
            && (!returned.Tuple? && !returned.Dict? && !Numeric(returned) ==> r == Err(TypeError(InvalidObject)))
  {
  }

  /** Removes "critical" from the arguments and builds the GalahTest. */
  function Build(args: map<string, Value>): Result<Step>
  {
    var critical := if "critical" in args then args["critical"] else Bool(false);
    var test :- NewTest(args - {"critical"});
    Ok(Appended(test, Truthy(critical)))
  }

  /** The handling of one description. */
  function StepOf(d: TestDescription, previous: Option<Value>, suppress: bool): Result<Step>
  {
    var current :- TestResultOf(d, previous, suppress);
    if current.None? then Ok(Skipped)
    else
      var args :- Normalise(d.resultArgs, current.value);
      Build(args)
  }

  /** The tests appended by descriptions `i..`, given the `test_result`
      left by the earlier ones: the loop of run_tests. */
  function RunFrom(ds: seq<TestDescription>, i: nat, previous: Option<Value>, suppress: bool)
    : Result<seq<GalahTest>>
    requires i <= |ds|
    decreases |ds| - i
  {
    if i == |ds| then Ok([])
    else
      var step :- StepOf(ds[i], previous, suppress);
      var next := Carried(ds[i], previous);
      match step
      case Skipped => RunFrom(ds, i + 1, next, suppress)
      case Appended(t, critical) =>
        if critical then Ok([t])
        else
          var rest :- RunFrom(ds, i + 1, next, suppress);
          Ok([t] + rest)
  }

  /** `r` with `done` in front of what it holds. */
  function Prefixed(done: seq<GalahTest>, r: Result<seq<GalahTest>>): Result<seq<GalahTest>>
  {
    if r.Ok? then Ok(done + r.value) else r
  }

  /** What run_tests returns: the GalahResult, or what the total
      calculator made of it. */
  datatype Outcome = Plain(result: Summary) | Totalled(total: Value)

  /** run_tests. */
  function RunTestsOutcome(ds: seq<TestDescription>, calculator: Option<Summary -> Result<Value>>, suppress: bool)
    : Result<Outcome>
  {
    var tests :- RunFrom(ds, 0, None, suppress);
    var results := Summary(Int(0), Int(0), tests);
    if calculator.None? then Ok(Plain(results))
    else
      var total :- calculator.value(results);
      Ok(Totalled(total))
  }

  /** A description whose test returned a value that gives a non-critical
      test. */
  predicate Plainly(d: TestDescription, suppress: bool)
  {
    d.call.Returned? && StepOf(d, None, suppress).Ok? && StepOf(d, None, suppress).value.Appended?
    && !StepOf(d, None, suppress).value.critical
  }

  /** The test a plain description yields. */
  function PlainTest(d: TestDescription, suppress: bool): GalahTest
    requires Plainly(d, suppress)
  {
    StepOf(d, None, suppress).value.test
  }

  /** When every test returns a value that yields a non-critical test, the
      run appends exactly one test per description, in order. */
  lemma {:induction false} OneTestEach(ds: seq<TestDescription>, i: nat, previous: Option<Value>, suppress: bool)
    requires i <= |ds|
    requires forall j :: i <= j < |ds| ==> Plainly(ds[j], suppress)
    ensures RunFrom(ds, i, previous, suppress).Ok?
    ensures |RunFrom(ds, i, previous, suppress).value| == |ds| - i
    ensures forall j :: i <= j < |ds| ==>
              RunFrom(ds, i, previous, suppress).value[j - i] == PlainTest(ds[j], suppress)
    decreases |ds| - i
  {
    if i < |ds| {
      var d := ds[i];
      assert StepOf(d, previous, suppress) == StepOf(d, None, suppress);
      OneTestEach(ds, i + 1, Carried(d, previous), suppress);
      var t := PlainTest(d, suppress);
      var rest := RunFrom(ds, i + 1, Carried(d, previous), suppress).value;
      assert RunFrom(ds, i, previous, suppress) == Ok([t] + rest);
    }
  }

  /** The run never yields more tests than descriptions, and a critical
      test is always the last one appended. */
  lemma {:induction false} RunFromBounds(ds: seq<TestDescription>, i: nat, previous: Option<Value>, suppress: bool)
    requires i <= |ds|
    ensures RunFrom(ds, i, previous, suppress).Ok? ==> |RunFrom(ds, i, previous, suppress).value| <= |ds| - i
    ensures i < |ds| && StepOf(ds[i], previous, suppress).Ok? && StepOf(ds[i], previous, suppress).value.Appended?
            && StepOf(ds[i], previous, suppress).value.critical
            ==> RunFrom(ds, i, previous, suppress) == Ok([StepOf(ds[i], previous, suppress).value.test])
    decreases |ds| - i
  {
    if i < |ds| {
      RunFromBounds(ds, i + 1, Carried(ds[i], previous), suppress);
    }
  }

  /** A SyntaxError ends the run whatever the error policy; any other
      exception with neither an error function nor suppression ends it
      too, and with suppression the description is skipped. */
  lemma ErrorPolicy(ds: seq<TestDescription>, i: nat, previous: Option<Value>, suppress: bool)
    requires i < |ds| && ds[i].call.Raised?
    ensures ds[i].call.error.SyntaxError? ==> RunFrom(ds, i, previous, suppress) == Err(SyntaxError)
    ensures !ds[i].call.error.SyntaxError? && ds[i].errorFunc.None? ==>
              RunFrom(ds, i, previous, suppress)
              == if suppress then RunFrom(ds, i + 1, previous, suppress) else Err(ds[i].call.error)
  {
  }

  /** With an error function that returns, the test is built from the
      value an earlier test returned; for the first description that value
      is unbound. */
  lemma StaleResult(d: TestDescription, previous: Option<Value>, suppress: bool)
    requires d.call.Raised? && !d.call.error.SyntaxError?
    requires d.errorFunc.Some? && d.errorFunc.value(d.call.error).None?
    ensures previous.None? ==> StepOf(d, previous, suppress) == Err(UnboundLocalError("test_result"))
    ensures previous.Some? ==> StepOf(d, previous, suppress) == StepOf(d.(call := Returned(previous.value)), None, suppress)
  {
  }

  /** "critical" never reaches the GalahTest: it is removed first, and
      decides whether the run stops. */
  lemma CriticalRemoved(args: map<string, Value>)
    ensures Build(args).Ok? <==> (args - {"critical"}).Keys <= TestKeywords
    ensures Build(args).Ok? ==>
              && Build(args).value == Appended(NewTest(args - {"critical"}).value,
                                               "critical" in args && Truthy(args["critical"]))
  {
  }

  /** One description, handled as the body of the loop in run_tests. */
  method HandleDescription(d: TestDescription, testResult: Option<Value>, suppress: bool) returns (r: Result<Step>)
    ensures r == StepOf(d, testResult, suppress)
  {
    var current := testResult;
    match d.call {
      case Returned(v) =>
        current := Some(v);
      case Raised(e) =>
        if e.SyntaxError? {
          return Err(e);
        }
        if d.errorFunc.Some? {
          var raised := d.errorFunc.value(e);
          if raised.Some? {
            return Err(raised.value);
          }
          if current.None? {
            return Err(UnboundLocalError("test_result"));
          }
        } else if suppress {
          return Ok(Skipped);
        } else {
          return Err(e);
        }
    }
    var args := FoldReturned(d.resultArgs, current.value);
    if args.Err? {
      return Err(args.error);
    }
    r := BuildTest(args.value);
  }

  /** Folds what the test returned into the arguments. */
  method FoldReturned(args: map<string, Value>, returned: Value) returns (r: Result<map<string, Value>>)
    ensures r == Normalise(args, returned)
  {
    var resultingArguments := args;
    if returned.Tuple? {
      var items := returned.items;
      if !(1 <= |items| <= 5) {
        return Err(AssertionError);
      }
      resultingArguments := resultingArguments["score" := items[0]];
      if |items| >= 2 {
        resultingArguments := resultingArguments["max_score" := items[1]];
      }
      if |items| >= 3 {
        return Err(NameError("resuling_arguments"));
      }
    } else if returned.Dict? {
      resultingArguments := resultingArguments + returned.entries;
    } else if Numeric(returned) {
      resultingArguments := resultingArguments["score" := returned];
    } else {
      return Err(TypeError(InvalidObject));
    }
    return Ok(resultingArguments);
  }

  /** Takes "critical" out of the arguments and builds the GalahTest. */
  method BuildTest(args: map<string, Value>) returns (r: Result<Step>)
    ensures r == Build(args)
  {
    var resultingArguments := args;
    var critical := Bool(false);
    if "critical" in resultingArguments {
      critical := resultingArguments["critical"];
      resultingArguments := resultingArguments - {"critical"};
    }
    var test := NewTest(resultingArguments);
    if test.Err? {
      return Err(test.error);
    }
    return Ok(Appended(test.value, Truthy(critical)));
  }

  /** `TestRunner.run_tests`. */
  method RunTests(ds: seq<TestDescription>, calculator: Option<Summary -> Result<Value>>, suppress: bool)
    returns (r: Result<Outcome>)
    ensures r == RunTestsOutcome(ds, calculator, suppress)
  {
    var tests: seq<GalahTest> := [];
    var testResult: Option<Value> := None;
    var i := 0;
    assert Prefixed(tests, RunFrom(ds, 0, None, suppress)) == RunFrom(ds, 0, None, suppress) by {
      if RunFrom(ds, 0, None, suppress).Ok? {
        assert [] + RunFrom(ds, 0, None, suppress).value == RunFrom(ds, 0, None, suppress).value;
      }
    }
    while i < |ds|
      invariant i <= |ds|
      invariant RunFrom(ds, 0, None, suppress) == Prefixed(tests, RunFrom(ds, i, testResult, suppress))
    {
      var step := HandleDescription(ds[i], testResult, suppress);
      if step.Err? {
        return Err(step.error);
      }
      ghost var before := tests;
      testResult := Carried(ds[i], testResult);
      match step.value {
        case Skipped =>
        case Appended(t, critical) =>
          tests := tests + [t];
          if critical {
            break;
          }
          AppendAssoc(before, t, RunFrom(ds, i + 1, testResult, suppress));
      }
      i := i + 1;
    }
    assert RunFrom(ds, 0, None, suppress) == Ok(tests) by {
      if i == |ds| {
        assert tests + [] == tests;
      }
    }
    var results := Summary(Int(0), Int(0), tests);
    if calculator.None? {
      return Ok(Plain(results));
    }
    var total := calculator.value(results);
    if total.Err? {
      return Err(total.error);
    }
    return Ok(Totalled(total.value));
  }

  lemma AppendAssoc(done: seq<GalahTest>, t: GalahTest, rest: Result<seq<GalahTest>>)
    ensures Prefixed(done, if rest.Ok? then Ok([t] + rest.value) else rest) == Prefixed(done + [t], rest)
  {
    if rest.Ok? {
      assert done + ([t] + rest.value) == done + [t] + rest.value;
    }
  }
}
