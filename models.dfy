/** galah_interact/models.py: what a Galah harness reports — tests made of
    parts, and an overall result — and the dictionary forms they are sent
    in. Their fields hold whatever the harness put there, so they are
    modelled as Python values. */
module Models {
  import opened Wrappers

  /** A Python value as the harness passes it around. */
  datatype Value =
    | Nothing
    | Bool(b: bool)
    | Int(i: int)
    | Str(s: string)
    | Tuple(items: seq<Value>)
    | List(items: seq<Value>)
    | Dict(entries: map<string, Value>)
    | Part(part: GalahTestPart)

  /** `GalahTestPart`: one scored part of a test. */
  datatype GalahTestPart = GalahTestPart(name: Value, score: Value, maxScore: Value)

  /** Python truth: zero, False, None and empty strings and containers
      are false; any other value, objects included, is true. */
  predicate Truthy(v: Value)
  {
    match v
    case Nothing => false
    case Bool(b) => b
    case Int(i) => i != 0
    case Str(s) => s != ""
    case Tuple(items) => items != []
    case List(items) => items != []
    case Dict(entries) => entries != map[]
    case Part(_) => true
  }

  /** A number as Python adds it: bool is a subclass of int. */
  predicate Numeric(v: Value)
  {
    v.Int? || v.Bool?
  }

  function NumberOf(v: Value): int
    requires Numeric(v)
  {
    if v.Int? then v.i else if v.b then 1 else 0
  }

  /** `GalahTestPart.to_list`. */
  function ToList(p: GalahTestPart): Value
  {
    List([p.name, p.score, p.maxScore])
  }

  // ---------------------------------------------------------------------
  // GalahTest

  /** `GalahTest`: a named, scored test with a message and its parts. */
  datatype GalahTest = GalahTest(name: Value, score: Value, maxScore: Value, message: Value, parts: Value)

  const TestKeywords: set<string> := {"name", "score", "max_score", "message", "parts"}
  const UnexpectedKeyword := "__init__() got an unexpected keyword argument"

  function Lookup(kwargs: map<string, Value>, key: string, default: Value): Value
  {
    if key in kwargs then kwargs[key] else default
  }

  /** `GalahTest(**kwargs)`: a keyword that is not a parameter raises;
      an omitted or None `parts` becomes a fresh empty list, and the other
      omitted fields take their defaults. */
  function NewTest(kwargs: map<string, Value>): (r: Result<GalahTest>)
    ensures r.Err? <==> !(kwargs.Keys <= TestKeywords)
    ensures r.Err? ==> r.error.TypeError?
  {
    if !(kwargs.Keys <= TestKeywords) then Err(TypeError(UnexpectedKeyword))
    else
      var parts := Lookup(kwargs, "parts", Nothing);
      Ok(GalahTest(Lookup(kwargs, "name", Str("")), Lookup(kwargs, "score", Int(0)),
                   Lookup(kwargs, "max_score", Int(0)), Lookup(kwargs, "message", Str("")),
                   if parts == Nothing then List([]) else parts))
  }

  /** The keyword arguments that rebuild a test. */
  function Arguments(t: GalahTest): map<string, Value>
  {
    map["name" := t.name, "score" := t.score, "max_score" := t.maxScore, "message" := t.message, "parts" := t.parts]
  }

  /** A test is rebuilt from its own fields (a None `parts` comes back as
      an empty list), and every field given as a keyword is kept as given. */
  lemma NewTestRoundTrip(t: GalahTest, kwargs: map<string, Value>)
    ensures t.parts != Nothing ==> NewTest(Arguments(t)) == Ok(t)
    ensures NewTest(kwargs).Ok? ==>
              && ("name" in kwargs ==> NewTest(kwargs).value.name == kwargs["name"])
              && ("score" in kwargs ==> NewTest(kwargs).value.score == kwargs["score"])
              && ("max_score" in kwargs ==> NewTest(kwargs).value.maxScore == kwargs["max_score"])
              && ("message" in kwargs ==> NewTest(kwargs).value.message == kwargs["message"])
              && ("parts" in kwargs && kwargs["parts"] != Nothing ==> NewTest(kwargs).value.parts == kwargs["parts"])
              && NewTest(kwargs).value.parts != Nothing
  {
    assert Arguments(t).Keys == TestKeywords;
  }

  const NoToList := "to_list"
  const NotIterable := "object is not iterable"

  /** `[i.to_list() for i in items]`: an item that is not a part raises. */
  function EachToList(items: seq<Value>): Result<seq<Value>>
    decreases |items|
  {
    if items == [] then Ok([])
    else
      var rest :- EachToList(items[..|items| - 1]);
      var last := items[|items| - 1];
      if last.Part? then Ok(rest + [ToList(last.part)]) else Err(AttributeError(NoToList))
  }

  /** The list of parts is converted exactly when every item is a part,
      and then item by item, in order. */
  lemma {:induction false} EachToListSpec(items: seq<Value>)
    ensures EachToList(items).Ok? <==> forall i :: 0 <= i < |items| ==> items[i].Part?
    ensures EachToList(items).Ok? ==>
              && |EachToList(items).value| == |items|
              && forall i :: 0 <= i < |items| ==> EachToList(items).value[i] == ToList(items[i].part)
    decreases |items|
  {
    if items != [] {
      var prefix := items[..|items| - 1];
      EachToListSpec(prefix);
      assert forall i :: 0 <= i < |prefix| ==> prefix[i] == items[i];
    }
  }

  /** Iterating over `parts`: strings and dictionaries iterate over
      strings, which have no `to_list`; other values are not iterable. */
  function PartLists(parts: Value): Result<seq<Value>>
  {
    match parts
    case List(items) => EachToList(items)
    case Tuple(items) => EachToList(items)
    case Str(s) => if s == "" then Ok([]) else Err(AttributeError(NoToList))
    case Dict(entries) => if entries == map[] then Ok([]) else Err(AttributeError(NoToList))
    case _ => Err(TypeError(NotIterable))
  }

  /** `GalahTest.to_dict`. */
  function TestToDict(t: GalahTest): Result<map<string, Value>>
  {
    var parts :- PartLists(t.parts);
    Ok(map["name" := t.name, "score" := t.score, "max_score" := t.maxScore, "message" := t.message,
           "parts" := List(parts)])
  }

  /** The dictionary has exactly the five keys, holding the fields, with
      the parts turned into lists in order; it exists exactly when `parts`
      is a list or tuple of parts (or an empty string or dictionary). */
  lemma TestToDictFacts(t: GalahTest)
    ensures (t.parts.List? || t.parts.Tuple?) ==>
              (TestToDict(t).Ok? <==> forall i :: 0 <= i < |t.parts.items| ==> t.parts.items[i].Part?)
    ensures TestToDict(t).Ok? ==>
              var d := TestToDict(t).value;
              && d.Keys == TestKeywords
              && d["name"] == t.name && d["score"] == t.score && d["max_score"] == t.maxScore
              && d["message"] == t.message
              && d["parts"].List?
              && ((t.parts.List? || t.parts.Tuple?) ==>
                    && |d["parts"].items| == |t.parts.items|
                    && forall i :: 0 <= i < |t.parts.items| ==> d["parts"].items[i] == ToList(t.parts.items[i].part))
  {
    if t.parts.List? || t.parts.Tuple? {
      EachToListSpec(t.parts.items);
    }
  }

  // ---------------------------------------------------------------------
  // GalahResult

  /** The fields of a `GalahResult` at one moment. */
  datatype Summary = Summary(score: Value, maxScore: Value, tests: seq<GalahTest>)

  /** `[i.to_dict() for i in tests]`. */
  function EachTestDict(tests: seq<GalahTest>): Result<seq<Value>>
    decreases |tests|
  {
    if tests == [] then Ok([])
    else
      var rest :- EachTestDict(tests[..|tests| - 1]);
      var last :- TestToDict(tests[|tests| - 1]);
      Ok(rest + [Dict(last)])
  }

  /** The tests are converted exactly when each of them is, and then one
      by one, in order. */
  lemma {:induction false} EachTestDictSpec(tests: seq<GalahTest>)
    ensures EachTestDict(tests).Ok? <==> forall i :: 0 <= i < |tests| ==> TestToDict(tests[i]).Ok?
    ensures EachTestDict(tests).Ok? ==>
              && |EachTestDict(tests).value| == |tests|
              && forall i :: 0 <= i < |tests| ==> EachTestDict(tests).value[i] == Dict(TestToDict(tests[i]).value)
    decreases |tests|
  {
    if tests != [] {
      var prefix := tests[..|tests| - 1];
      EachTestDictSpec(prefix);
      assert forall i :: 0 <= i < |prefix| ==> prefix[i] == tests[i];
    }
  }

  /** `GalahResult.to_dict`. */
  function ResultToDict(s: Summary): Result<map<string, Value>>
  {
    var tests :- EachTestDict(s.tests);
    Ok(map["score" := s.score, "max_score" := s.maxScore, "tests" := List(tests)])
  }

  /** The dictionary has the keys score, max_score and tests, the tests in
      order, and exists exactly when every test converts. */
  lemma ResultToDictFacts(s: Summary)
    ensures ResultToDict(s).Ok? <==> forall i :: 0 <= i < |s.tests| ==> TestToDict(s.tests[i]).Ok?
    ensures ResultToDict(s).Ok? ==>
              var d := ResultToDict(s).value;
              && d.Keys == {"score", "max_score", "tests"}
              && d["score"] == s.score && d["max_score"] == s.maxScore
              && d["tests"].List? && |d["tests"].items| == |s.tests|
              && forall i :: 0 <= i < |s.tests| ==> d["tests"].items[i] == Dict(TestToDict(s.tests[i]).value)
  {
    EachTestDictSpec(s.tests);
  }

  const SumTypeMessage := "unsupported operand type(s) for +"

  /** `sum(values)`: adding a value that is not a number raises. */
  function Total(values: seq<Value>): Result<int>
    decreases |values|
  {
    if values == [] then Ok(0)
    else
      var rest :- Total(values[..|values| - 1]);
      var last := values[|values| - 1];
      if Numeric(last) then Ok(rest + NumberOf(last)) else Err(TypeError(SumTypeMessage))
  }

  /** The sum exists exactly when every value is a number, and the sum of
      two lists joined is the sum of their sums. */
  lemma {:induction false} TotalSpec(a: seq<Value>, b: seq<Value>)
    ensures Total(a).Ok? <==> forall i :: 0 <= i < |a| ==> Numeric(a[i])
    ensures Total(a + b).Ok? <==> Total(a).Ok? && Total(b).Ok?
    ensures Total(a + b).Ok? ==> Total(a + b).value == Total(a).value + Total(b).value
    decreases |b|, |a|
  {
    if a != [] {
      var prefix := a[..|a| - 1];
      TotalSpec(prefix, []);
      assert forall i :: 0 <= i < |prefix| ==> prefix[i] == a[i];
    }
    if b == [] {
      assert a + b == a;
    } else {
      var front := b[..|b| - 1];
      TotalSpec(a, front);
      TotalSpec(b, []);
      assert (a + b)[..|a + b| - 1] == a + front;
      assert (a + b)[|a + b| - 1] == b[|b| - 1];
    }
  }

  function Scores(tests: seq<GalahTest>): (r: seq<Value>)
    ensures |r| == |tests| && forall i :: 0 <= i < |r| ==> r[i] == tests[i].score
  {
    seq(|tests|, i requires 0 <= i < |tests| => tests[i].score)
  }

  function MaxScores(tests: seq<GalahTest>): (r: seq<Value>)
    ensures |r| == |tests| && forall i :: 0 <= i < |r| ==> r[i] == tests[i].maxScore
  {
    seq(|tests|, i requires 0 <= i < |tests| => tests[i].maxScore)
  }

  /** The fields after a call of `calculate_scores`, and what it raised.
      `score` is assigned before `max_score` is summed, so a failing second
      sum leaves the new score in place. */
  datatype Calculation = Calculation(after: Summary, raised: Option<Exception>)

  function Calculated(s: Summary): Calculation
  {
    var score := Total(Scores(s.tests));
    if score.Err? then Calculation(s, Some(score.error))
    else
      var s1 := s.(score := Int(score.value));
      var maxScore := Total(MaxScores(s.tests));
      if maxScore.Err? then Calculation(s1, Some(maxScore.error))
      else Calculation(s1.(maxScore := Int(maxScore.value)), None)
  }

  /** The tests are never changed; the call succeeds exactly when every
      score and maximum score is a number, and then the two fields hold
      the sums of the tests' scores and maximum scores. */
  lemma CalculatedFacts(s: Summary)
    ensures Calculated(s).after.tests == s.tests
    ensures Calculated(s).raised.None? <==>
              forall i :: 0 <= i < |s.tests| ==> Numeric(s.tests[i].score) && Numeric(s.tests[i].maxScore)
    ensures Calculated(s).raised.None? ==>
              && Calculated(s).after.score == Int(Total(Scores(s.tests)).value)
              && Calculated(s).after.maxScore == Int(Total(MaxScores(s.tests)).value)
  {
    TotalSpec(Scores(s.tests), []);
    TotalSpec(MaxScores(s.tests), []);
  }

  /** Adding a test adds its score and maximum score to the totals. */
  lemma CalculatedAppend(s: Summary, t: GalahTest)
    requires Calculated(s).raised.None?
    requires Numeric(t.score) && Numeric(t.maxScore)
    ensures var grown := Calculated(s.(tests := s.tests + [t]));
            && grown.raised.None?
            && grown.after.score == Int(Calculated(s).after.score.i + NumberOf(t.score))
            && grown.after.maxScore == Int(Calculated(s).after.maxScore.i + NumberOf(t.maxScore))
  {
    CalculatedFacts(s);
    var tests := s.tests + [t];
    assert Scores(tests) == Scores(s.tests) + [t.score];
    assert MaxScores(tests) == MaxScores(s.tests) + [t.maxScore];
    TotalSpec(Scores(s.tests), [t.score]);
    TotalSpec(MaxScores(s.tests), [t.maxScore]);
    assert Total([t.score]) == Ok(NumberOf(t.score)) by { assert [t.score][..0] == []; }
    assert Total([t.maxScore]) == Ok(NumberOf(t.maxScore)) by { assert [t.maxScore][..0] == []; }
  }

  /** Calculating again changes nothing, whatever the first call did. */
  lemma CalculatedIdempotent(s: Summary)
    ensures Calculated(Calculated(s).after) == Calculated(s)
  {
  }

  /** `GalahResult`, whose scores `calculate_scores` updates in place. */
  class GalahResult {
    var score: Value
    var maxScore: Value
    var tests: seq<GalahTest>

    function Fields(): Summary
      reads this
    {
      Summary(score, maxScore, tests)
    }

    /** `GalahResult(score=0, max_score=0, tests=None)`: omitted tests
        become a fresh empty list. */
    constructor(score: Value, maxScore: Value, tests: Option<seq<GalahTest>>)
      ensures Fields() == Summary(score, maxScore, if tests.Some? then tests.value else [])
    {
      this.score := score;
      this.maxScore := maxScore;
      this.tests := if tests.Some? then tests.value else [];
    }

    /** `to_dict`. */
    function ToDict(): Result<map<string, Value>>
      reads this
    {
      ResultToDict(Fields())
    }

    /** `calculate_scores`: sets the score, then the maximum score, to the
        sums over the tests. */
    method CalculateScores() returns (r: Result<()>)
      modifies this
      ensures Fields() == Calculated(old(Fields())).after
      ensures r.Err? <==> Calculated(old(Fields())).raised.Some?
      ensures r.Err? ==> r.error == Calculated(old(Fields())).raised.value
    {
      var total := Total(Scores(tests));
      if total.Err? {
        return Err(total.error);
      }
      score := Int(total.value);
      var maxTotal := Total(MaxScores(tests));
      if maxTotal.Err? {
        return Err(maxTotal.error);
      }
      maxScore := Int(maxTotal.value);
      return Ok(());
    }
  }
}
