/** interact/idempotent.py: the harness that registers tests with their
    dependencies, runs them in an order the dependencies allow, and adds up
    their scores. */
module Idempotent {
  import opened Wrappers
  import opened Core
  import Strings

  const FailedDependenciesBrief := "This test will only be run if all of the other tests it depends on pass first. Fix those tests *before* worrying about this one."

  /** `FailedDependencies(max_score)`: the result given to a test that a
      failing dependency keeps from running. */
  function FailedDependencies(maxScore: int): (v: ResultValue)
    ensures v.score == Some(0) && v.maxScore == Some(10)
    ensures v.messages == [] && v.brief == Some(FailedDependenciesBrief)
  {
    NewResult(Some(FailedDependenciesBrief), Some(0), Some(10), None, None)
  }

  /** The maximum handed to `FailedDependencies` is never used: every such
      result reads "Score: 0 out of 10" followed by the brief. */
  lemma FailedDependenciesIgnoresMaxScore(a: int, b: int, render: Message -> string)
    ensures FailedDependencies(a) == FailedDependencies(b)
    ensures Render(FailedDependencies(a), render) == "Score: 0 out of 10\n\n" + FailedDependenciesBrief
  {
    RenderAsParagraphs(FailedDependencies(a), render);
    FailedDependenciesParagraphs(a, render);
  }

  lemma FailedDependenciesParagraphs(a: int, render: Message -> string)
    ensures Paragraphs(FailedDependencies(a), render) == ["Score: 0 out of 10", FailedDependenciesBrief]
  {
    var v := FailedDependencies(a);
    FailedDependenciesStatus();
    assert |FailedDependenciesBrief| == 128;
    assert Truthy(v.brief);
  }

  lemma FailedDependenciesStatus()
    ensures StatusLine(0, Some(10)) == "Score: 0 out of 10"
  {
    assert Strings.IntToString(0) == "0";
    assert Strings.IntToString(10) == "10";
    assert StatusLine(0, Some(10)) == "Score: " + "0" + (" out of " + "10");
  }

  /** A registered test is identified by the wrapper the decorator returns;
      wrappers are numbered in the order they are made. */
  type TestId = nat

  /** A stored result, and whether it is a `FailedDependencies` instance. */
  datatype Stored = Stored(value: ResultValue, failedDependencies: bool)

  /** `Harness.Test`: a name, the wrappers it depends on (`None` and the
      empty list are both "no dependencies"), and its result so far. */
  datatype Test = Test(name: string, depends: seq<TestId>, result: Option<Stored>)

  type Registry = map<TestId, Test>

  predicate Blocked(t: Test)
  {
    t.result.Some? && t.result.value.failedDependencies
  }

  const DependencyFailedText := "Dependency *{dependency_name}* failed."

  /** The message added for one failing dependency. */
  function DependencyFailed(name: string): Message
  {
    NewMessage(Text(DependencyFailedText), [], map["dependency_name" := Text(name)])
  }

  /** Marking a test whose dependency `dependencyName` failed: its result
      becomes a `FailedDependencies` (kept when it already is one) and
      gains one message, naming that dependency, at the end. */
  function MarkFailed(t: Test, dependencyName: string): (u: Test)
    ensures Blocked(u) && u.name == t.name && u.depends == t.depends
    ensures !Blocked(t) ==> u.result.value.value.score == Some(0) && u.result.value.value.maxScore == Some(10)
    ensures u.result.value.value.messages
         == (if Blocked(t) then t.result.value.value.messages else []) + [DependencyFailed(dependencyName)]
    ensures DependencyFailed(dependencyName).kwargs["dependency_name"] == Text(dependencyName)
  {
    var base := if Blocked(t) then t.result.value.value else FailedDependencies(10);
    t.(result := Some(Stored(WithMessage(base, DependencyFailed(dependencyName)), true)))
  }

  /** Only the entry of one test may differ; names and dependencies never do. */
  predicate SameShape(a: Registry, b: Registry)
  {
    && a.Keys == b.Keys
    && forall x :: x in a ==> b[x].name == a[x].name && b[x].depends == a[x].depends
  }

  /** Every test blocked in `a` is still blocked in `b`. */
  predicate BlockedKept(a: Registry, b: Registry)
    requires a.Keys == b.Keys
  {
    forall x :: x in a && Blocked(a[x]) ==> Blocked(b[x])
  }

  /** The outcome of checking one test's dependencies: the registry after
      the failure messages, and whether the loop ran to its end (no
      dependency without a result). */
  datatype Checked = Checked(tests: Registry, complete: bool)

  /** The inner `for j in current_test.depends` loop of `run_tests`, from
      the `i`-th dependency of test `k` on: an unregistered dependency
      raises KeyError, one without a result stops the loop, a failing one
      marks `k`. */
  function CheckDeps(tests: Registry, k: TestId, deps: seq<TestId>, i: nat, isFailing: ResultValue -> bool): (r: Result<Checked>)
    requires k in tests && i <= |deps|
    ensures r.Err? ==> r.error == KeyError
    ensures r.Ok? ==> SameShape(tests, r.value.tests) && BlockedKept(tests, r.value.tests)
    ensures r.Ok? ==> forall x :: x in tests && x != k ==> r.value.tests[x] == tests[x]
    decreases |deps| - i
  {
    if i == |deps| then Ok(Checked(tests, true))
    else
      var j := deps[i];
      if j !in tests then Err(KeyError)
      else if tests[j].result.None? then Ok(Checked(tests, false))
      else if isFailing(tests[j].result.value.value) then
        CheckDeps(tests[k := MarkFailed(tests[k], tests[j].name)], k, deps, i + 1, isFailing)
      else CheckDeps(tests, k, deps, i + 1, isFailing)
  }

  /** Every dependency from the `i`-th on is registered, has a result, and
      that result is not failing. */
  predicate Passing(tests: Registry, deps: seq<TestId>, i: nat, isFailing: ResultValue -> bool)
    requires i <= |deps|
  {
    forall n :: i <= n < |deps| ==>
      deps[n] in tests && tests[deps[n]].result.Some? && !isFailing(tests[deps[n]].result.value.value)
  }

  /** A test is chosen to run only when its dependency loop reaches its end
      without marking it: then nothing was changed, and every dependency
      has a result that is not failing. Conversely, with all dependencies
      passing the loop ends unmarked. */
  lemma {:induction false} ChosenOnlyWhenDependenciesPass(tests: Registry, k: TestId, deps: seq<TestId>, i: nat, isFailing: ResultValue -> bool)
    requires k in tests && i <= |deps|
    ensures var r := CheckDeps(tests, k, deps, i, isFailing);
            r.Ok? && r.value.complete && !Blocked(r.value.tests[k])
            ==> r.value.tests == tests && Passing(tests, deps, i, isFailing)
    ensures Passing(tests, deps, i, isFailing)
            ==> CheckDeps(tests, k, deps, i, isFailing) == Ok(Checked(tests, true))
    decreases |deps| - i
  {
    if i < |deps| {
      var j := deps[i];
      if j in tests && tests[j].result.Some? {
        ChosenOnlyWhenDependenciesPass(tests, k, deps, i + 1, isFailing);
        if isFailing(tests[j].result.value.value) {
          var marked := tests[k := MarkFailed(tests[k], tests[j].name)];
          assert Blocked(marked[k]);
          var r := CheckDeps(marked, k, deps, i + 1, isFailing);
          assert r.Ok? ==> Blocked(r.value.tests[k]);
        }
      }
    }
  }

  /** Python's `list.remove(x)`: drop the first occurrence of `x`. */
  function Remove(s: seq<TestId>, x: TestId): (r: seq<TestId>)
    ensures |r| <= |s|
    ensures x in s ==> |r| == |s| - 1
    decreases |s|
  {
    if s == [] then []
    else if s[0] == x then s[1..]
    else [s[0]] + Remove(s[1..], x)
  }

  predicate NoDups(s: seq<TestId>)
  {
    forall i, j :: 0 <= i < j < |s| ==> s[i] != s[j]
  }

  lemma {:induction false} RemoveMembers(s: seq<TestId>, x: TestId)
    ensures forall y :: y in Remove(s, x) ==> y in s
    ensures forall y :: y in s && y != x ==> y in Remove(s, x)
    ensures NoDups(s) ==> NoDups(Remove(s, x)) && x !in Remove(s, x)
    decreases |s|
  {
    if s != [] && s[0] != x {
      RemoveMembers(s[1..], x);
      var r := Remove(s, x);
      assert r == [s[0]] + Remove(s[1..], x);
      forall y | y in s && y != x ensures y in r {
        if y != s[0] {
          assert y in s[1..];
        }
      }
      if NoDups(s) {
        assert s[0] !in s[1..];
        forall i, j | 0 <= i < j < |r| ensures r[i] != r[j] {
          if i > 0 {
            assert r[i] == Remove(s[1..], x)[i - 1];
            assert r[j] == Remove(s[1..], x)[j - 1];
          } else {
            assert r[j] in Remove(s[1..], x);
          }
        }
      }
    } else if s != [] && NoDups(s) {
      assert s[0] !in s[1..];
      forall i, j | 0 <= i < j < |s[1..]| ensures s[1..][i] != s[1..][j] {
        assert s[1..][i] == s[i + 1];
        assert s[1..][j] == s[j + 1];
      }
    }
  }

  /** Removing the element at a position of a list without repetitions
      removes exactly that position. */
  lemma {:induction false} RemoveAt(s: seq<TestId>, pos: nat)
    requires NoDups(s) && pos < |s|
    ensures Remove(s, s[pos]) == s[..pos] + s[pos + 1..]
    decreases pos
  {
    if pos > 0 {
      var t := s[1..];
      NoDupsTail(s);
      assert t[pos - 1] == s[pos];
      RemoveAt(t, pos - 1);
      assert s[0] != s[pos];
      RemoveAtStep(s, pos);
    }
  }

  lemma NoDupsTail(s: seq<TestId>)
    requires NoDups(s) && s != []
    ensures NoDups(s[1..]) && s[0] !in s[1..]
  {
    var t := s[1..];
    forall i, j | 0 <= i < j < |t| ensures t[i] != t[j] {
      assert t[i] == s[i + 1] && t[j] == s[j + 1];
    }
  }

  lemma RemoveAtStep(s: seq<TestId>, pos: nat)
    requires 0 < pos < |s| && s[0] != s[pos]
    requires Remove(s[1..], s[pos]) == s[1..][..pos - 1] + s[1..][pos..]
    ensures Remove(s, s[pos]) == s[..pos] + s[pos + 1..]
  {
    var a, b := s[1..][..pos - 1], s[1..][pos..];
    assert Remove(s, s[pos]) == [s[0]] + (a + b);
    Assoc([s[0]], a, b);
    assert s[..pos] == [s[0]] + a;
    assert s[pos + 1..] == b;
  }

  /** The entries of `s` from position `pos` on (none past its end). */
  function From(s: seq<TestId>, pos: nat): seq<TestId>
  {
    if pos <= |s| then s[pos..] else []
  }

  /** The entries of `s` before position `pos` (all of them past its end). */
  function Upto(s: seq<TestId>, pos: nat): seq<TestId>
  {
    if pos <= |s| then s[..pos] else s
  }

  /** Only a test with dependencies can carry a `FailedDependencies`. */
  predicate WellMarked(tests: Registry)
  {
    forall x :: x in tests && Blocked(tests[x]) ==> tests[x].depends != []
  }

  /** The state of `run_tests` after one pass over the remaining tests:
      the registry, the remaining list, and the test chosen to run. */
  datatype Pass = Pass(tests: Registry, remaining: seq<TestId>, toTest: Option<TestId>)

  /** The `for i in remaining_tests` loop of `run_tests` from position `pos`
      of the list as it now is. A test without dependencies is chosen and
      ends the pass; a test whose dependency loop ends is removed from the
      list when it is marked, and chosen otherwise (a later one replaces an
      earlier choice). Removing the current entry makes Python's list
      iterator skip the entry after it, which is why the position still
      advances. */
  function PassFrom(tests: Registry, remaining: seq<TestId>, pos: nat, toTest: Option<TestId>,
                    isFailing: ResultValue -> bool): (r: Result<Pass>)
    ensures r.Err? ==> r.error == KeyError
    ensures r.Ok? ==> SameShape(tests, r.value.tests) && BlockedKept(tests, r.value.tests)
    ensures r.Ok? ==> |r.value.remaining| <= |remaining|
    decreases |remaining| - pos
  {
    if pos >= |remaining| then Ok(Pass(tests, remaining, toTest))
    else
      var k := remaining[pos];
      if k !in tests then Err(KeyError)
      else if tests[k].depends == [] then Ok(Pass(tests, remaining, Some(k)))
      else
        var c :- CheckDeps(tests, k, tests[k].depends, 0, isFailing);
        if !c.complete then PassFrom(c.tests, remaining, pos + 1, toTest, isFailing)
        else if Blocked(c.tests[k]) then PassFrom(c.tests, Remove(remaining, k), pos + 1, toTest, isFailing)
        else PassFrom(c.tests, remaining, pos + 1, Some(k), isFailing)
  }

  /** Every entry of the list is a registered test. */
  predicate Covered(tests: Registry, s: seq<TestId>)
  {
    forall x :: x in s ==> x in tests
  }

  /** From `a` to `b` only results change, blocked tests stay blocked, and
      only tests with dependencies are blocked. */
  predicate Evolved(a: Registry, b: Registry)
  {
    SameShape(a, b) && BlockedKept(a, b) && WellMarked(b)
  }

  /** The list after a pass has no repetitions, holds only entries of the
      list before it, and every entry it lost is blocked. */
  predicate Shrunk(remaining: seq<TestId>, p: Pass)
  {
    && NoDups(p.remaining)
    && (forall x :: x in p.remaining ==> x in remaining)
    && (forall x :: x in remaining && x !in p.remaining ==> x in p.tests && Blocked(p.tests[x]))
  }

  /** Tests not met from position `pos` on keep their entries. */
  predicate Untouched(tests: Registry, remaining: seq<TestId>, pos: nat, after: Registry)
  {
    forall x :: x in tests && x !in From(remaining, pos) ==> x in after && after[x] == tests[x]
  }

  /** The chosen test is still in the list and is blocked neither before
      nor after the pass. */
  predicate ChoiceFine(tests: Registry, p: Pass)
  {
    p.toTest.Some? ==>
      && p.toTest.value in p.remaining && p.toTest.value in tests && p.toTest.value in p.tests
      && !Blocked(p.tests[p.toTest.value]) && !Blocked(tests[p.toTest.value])
  }

  /** What a pass from position `pos` guarantees when the remaining list has
      no repetitions: the list only loses tests, every test it loses is
      blocked, entries not met in the pass are untouched, and the chosen
      test is still in the list and is not blocked, neither before the pass
      nor after it. */
  predicate PassOutcome(tests: Registry, remaining: seq<TestId>, pos: nat, p: Pass)
  {
    && Covered(tests, remaining) && Evolved(tests, p.tests) && Shrunk(remaining, p)
    && Untouched(tests, remaining, pos, p.tests) && ChoiceFine(tests, p)
  }

  /** The requirements under which a pass keeps `PassOutcome`. */
  predicate PassReady(tests: Registry, remaining: seq<TestId>, pos: nat, toTest: Option<TestId>)
  {
    && NoDups(remaining) && WellMarked(tests) && Covered(tests, remaining)
    && (toTest.Some? ==> toTest.value in Upto(remaining, pos) && toTest.value in tests
                         && !Blocked(tests[toTest.value]))
  }

  lemma {:induction false} PassFacts(tests: Registry, remaining: seq<TestId>, pos: nat, toTest: Option<TestId>,
                                     isFailing: ResultValue -> bool)
    requires PassReady(tests, remaining, pos, toTest)
    ensures var r := PassFrom(tests, remaining, pos, toTest, isFailing);
            r.Ok? ==> PassOutcome(tests, remaining, pos, r.value)
    decreases |remaining| - pos
  {
    var whole := PassFrom(tests, remaining, pos, toTest, isFailing);
    if pos < |remaining| {
      var k := remaining[pos];
      if tests[k].depends != [] {
        var c := CheckDeps(tests, k, tests[k].depends, 0, isFailing);
        if c.Ok? {
          var t := c.value.tests;
          CheckedEvolved(tests, k, c.value);
          if !c.value.complete {
            var r := PassFrom(t, remaining, pos + 1, toTest, isFailing);
            assert whole == r;
            SkipReady(tests, remaining, pos, toTest, t);
            PassFacts(t, remaining, pos + 1, toTest, isFailing);
            if r.Ok? {
              SkipOutcome(tests, remaining, pos, t, r.value);
            }
          } else if Blocked(t[k]) {
            var rest := Remove(remaining, k);
            var r := PassFrom(t, rest, pos + 1, toTest, isFailing);
            assert whole == r;
            RemoveReady(tests, remaining, pos, toTest, t);
            PassFacts(t, rest, pos + 1, toTest, isFailing);
            if r.Ok? {
              RemoveOutcome(tests, remaining, pos, t, r.value);
            }
          } else {
            var r := PassFrom(t, remaining, pos + 1, Some(k), isFailing);
            assert whole == r;
            ChooseReady(tests, remaining, pos, t);
            PassFacts(t, remaining, pos + 1, Some(k), isFailing);
            if r.Ok? {
              SkipOutcome(tests, remaining, pos, t, r.value);
            }
          }
        }
      } else {
        PassStops(tests, remaining, pos);
      }
    } else {
      PassEnds(tests, remaining, pos, toTest);
    }
  }

  lemma PassStops(tests: Registry, remaining: seq<TestId>, pos: nat)
    requires NoDups(remaining) && WellMarked(tests) && Covered(tests, remaining) && pos < |remaining|
    requires tests[remaining[pos]].depends == []
    ensures PassOutcome(tests, remaining, pos, Pass(tests, remaining, Some(remaining[pos])))
  {
  }

  lemma PassEnds(tests: Registry, remaining: seq<TestId>, pos: nat, toTest: Option<TestId>)
    requires PassReady(tests, remaining, pos, toTest) && pos >= |remaining|
    ensures PassOutcome(tests, remaining, pos, Pass(tests, remaining, toTest))
  {
    assert Upto(remaining, pos) == remaining;
  }

  /** Checking the dependencies of `k` only changes the result of `k`,
      which has dependencies. */
  lemma CheckedEvolved(tests: Registry, k: TestId, c: Checked)
    requires WellMarked(tests) && k in tests && tests[k].depends != []
    requires SameShape(tests, c.tests) && BlockedKept(tests, c.tests)
    requires forall x :: x in tests && x != k ==> c.tests[x] == tests[x]
    ensures Evolved(tests, c.tests)
  {
  }

  /** Going on to the next entry keeps the requirements. */
  lemma SkipReady(tests: Registry, remaining: seq<TestId>, pos: nat, toTest: Option<TestId>, t: Registry)
    requires PassReady(tests, remaining, pos, toTest) && pos < |remaining|
    requires Evolved(tests, t)
    requires forall x :: x in tests && x != remaining[pos] ==> t[x] == tests[x]
    ensures PassReady(t, remaining, pos + 1, toTest)
  {
    if toTest.Some? {
      assert remaining[..pos + 1] == remaining[..pos] + [remaining[pos]];
      assert toTest.value != remaining[pos];
    }
  }

  /** Choosing the current entry keeps the requirements. */
  lemma ChooseReady(tests: Registry, remaining: seq<TestId>, pos: nat, t: Registry)
    requires NoDups(remaining) && Covered(tests, remaining) && pos < |remaining|
    requires Evolved(tests, t) && !Blocked(t[remaining[pos]])
    ensures PassReady(t, remaining, pos + 1, Some(remaining[pos]))
  {
    assert remaining[..pos + 1][pos] == remaining[pos];
  }

  /** Removing the current entry keeps the requirements. */
  lemma RemoveReady(tests: Registry, remaining: seq<TestId>, pos: nat, toTest: Option<TestId>, t: Registry)
    requires PassReady(tests, remaining, pos, toTest) && pos < |remaining|
    requires Evolved(tests, t)
    requires forall x :: x in tests && x != remaining[pos] ==> t[x] == tests[x]
    ensures PassReady(t, Remove(remaining, remaining[pos]), pos + 1, toTest)
  {
    var rest := Remove(remaining, remaining[pos]);
    RemoveMembers(remaining, remaining[pos]);
    RemoveAt(remaining, pos);
    if toTest.Some? {
      assert toTest.value in remaining[..pos];
      assert toTest.value != remaining[pos];
      assert toTest.value in Upto(rest, pos + 1) by {
        var i :| 0 <= i < pos && remaining[i] == toTest.value;
        assert rest[i] == toTest.value;
      }
    }
  }

  lemma EvolvedTrans(a: Registry, b: Registry, c: Registry)
    requires Evolved(a, b) && Evolved(b, c)
    ensures Evolved(a, c)
  {
  }

  lemma ChoiceBack(tests: Registry, t: Registry, p: Pass)
    requires Evolved(tests, t) && ChoiceFine(t, p)
    ensures ChoiceFine(tests, p)
  {
  }

  lemma UntouchedSkip(tests: Registry, remaining: seq<TestId>, pos: nat, t: Registry, after: Registry)
    requires pos < |remaining| && tests.Keys == t.Keys
    requires forall x :: x in tests && x != remaining[pos] ==> t[x] == tests[x]
    requires Untouched(t, remaining, pos + 1, after)
    ensures Untouched(tests, remaining, pos, after)
  {
    assert From(remaining, pos) == [remaining[pos]] + From(remaining, pos + 1);
  }

  /** A pass that went on from the next entry (with or without choosing the
      current one) gives the outcome for the pass from the current one. */
  lemma SkipOutcome(tests: Registry, remaining: seq<TestId>, pos: nat, t: Registry, p: Pass)
    requires NoDups(remaining) && pos < |remaining| && Covered(tests, remaining)
    requires Evolved(tests, t)
    requires forall x :: x in tests && x != remaining[pos] ==> t[x] == tests[x]
    requires PassOutcome(t, remaining, pos + 1, p)
    ensures PassOutcome(tests, remaining, pos, p)
  {
    EvolvedTrans(tests, t, p.tests);
    ChoiceBack(tests, t, p);
    UntouchedSkip(tests, remaining, pos, t, p.tests);
  }

  lemma ShrunkRemove(remaining: seq<TestId>, pos: nat, p: Pass)
    requires NoDups(remaining) && pos < |remaining|
    requires remaining[pos] in p.tests && Blocked(p.tests[remaining[pos]])
    requires Shrunk(Remove(remaining, remaining[pos]), p)
    ensures Shrunk(remaining, p)
  {
    RemoveMembers(remaining, remaining[pos]);
  }

  lemma UntouchedRemove(tests: Registry, remaining: seq<TestId>, pos: nat, t: Registry, after: Registry)
    requires NoDups(remaining) && pos < |remaining| && tests.Keys == t.Keys
    requires forall x :: x in tests && x != remaining[pos] ==> t[x] == tests[x]
    requires Untouched(t, Remove(remaining, remaining[pos]), pos + 1, after)
    ensures Untouched(tests, remaining, pos, after)
  {
    var rest := Remove(remaining, remaining[pos]);
    RemoveAt(remaining, pos);
    assert forall y :: y in From(rest, pos + 1) ==> y in From(remaining, pos) by {
      if pos + 1 <= |rest| {
        assert From(rest, pos + 1) == remaining[pos + 2..];
      }
    }
  }

  /** A pass that removed the current entry gives the outcome for the pass
      from the current one. */
  lemma RemoveOutcome(tests: Registry, remaining: seq<TestId>, pos: nat, t: Registry, p: Pass)
    requires NoDups(remaining) && pos < |remaining| && Covered(tests, remaining)
    requires Evolved(tests, t) && Blocked(t[remaining[pos]])
    requires forall x :: x in tests && x != remaining[pos] ==> t[x] == tests[x]
    requires PassOutcome(t, Remove(remaining, remaining[pos]), pos + 1, p)
    ensures PassOutcome(tests, remaining, pos, p)
  {
    EvolvedTrans(tests, t, p.tests);
    ChoiceBack(tests, t, p);
    ShrunkRemove(remaining, pos, p);
    UntouchedRemove(tests, remaining, pos, t, p.tests);
  }

  /** The outcome of `run_tests`: the registry at the end and the tests
      whose bodies were called, in call order. */
  datatype Run = Run(tests: Registry, ran: seq<TestId>)

  /** What storing a body's return value does to a test's entry. */
  function StoreResult(out: Option<ResultValue>): Option<Stored>
  {
    if out.Some? then Some(Stored(out.value, false)) else None
  }

  /** The `while remaining_tests` loop of `run_tests`. A pass chooses a test
      (its body is called, its return value becomes its result, and it
      leaves the list) or chooses none: then the run ends when the list is
      empty and raises "Cyclic dependencies!" otherwise. `body` stands for
      the registered functions; an exception one raises ends the run. */
  function RunFrom(tests: Registry, remaining: seq<TestId>, body: TestId -> Result<Option<ResultValue>>,
                   isFailing: ResultValue -> bool): (r: Result<Run>)
    ensures r.Ok? ==> SameShape(tests, r.value.tests)
    ensures r.Ok? ==> |r.value.ran| <= |remaining|
    decreases |remaining|
  {
    var p :- PassFrom(tests, remaining, 0, None, isFailing);
    match p.toTest
    case Some(k) =>
      var out :- body(k);
      if k !in p.tests then Err(KeyError)
      else if k !in p.remaining then Err(ValueError("list.remove(x): x not in list"))
      else
        var rest :- RunFrom(p.tests[k := p.tests[k].(result := StoreResult(out))], Remove(p.remaining, k), body, isFailing);
        Ok(Run(rest.tests, [k] + rest.ran))
    case None =>
      if p.remaining != [] then Err(RuntimeError("Cyclic dependencies!"))
      else Ok(Run(p.tests, []))
  }

  /** What a run guarantees: each body is called at most once and only for
      a test of the list; every test of the list is run or blocked, never
      both; a run test keeps what its body returned; tests outside the list
      are not touched. */
  predicate RunGuarantees(tests: Registry, remaining: seq<TestId>, body: TestId -> Result<Option<ResultValue>>, r: Run)
  {
    && SameShape(tests, r.tests) && WellMarked(r.tests)
    && NoDups(r.ran)
    && (forall x :: x in r.ran ==> x in remaining)
    && (forall x :: x in r.ran ==> x in r.tests && body(x).Ok? && r.tests[x].result == StoreResult(body(x).value))
    && (forall x :: x in remaining ==> x in r.tests && (x in r.ran) != Blocked(r.tests[x]))
    && (forall x :: x in tests && x !in remaining ==> x in r.tests && r.tests[x] == tests[x])
  }

  lemma {:induction false} RunOutcome(tests: Registry, remaining: seq<TestId>, body: TestId -> Result<Option<ResultValue>>,
                                      isFailing: ResultValue -> bool)
    requires NoDups(remaining) && Covered(tests, remaining) && WellMarked(tests)
    ensures var r := RunFrom(tests, remaining, body, isFailing);
            r.Ok? ==> RunGuarantees(tests, remaining, body, r.value)
    decreases |remaining|
  {
    var r := RunFrom(tests, remaining, body, isFailing);
    var pr := PassFrom(tests, remaining, 0, None, isFailing);
    if r.Ok? {
      PassFacts(tests, remaining, 0, None, isFailing);
      var p := pr.value;
      assert From(remaining, 0) == remaining;
      if p.toTest.Some? {
        var k := p.toTest.value;
        var t := p.tests[k := p.tests[k].(result := StoreResult(body(k).value))];
        var rest := Remove(p.remaining, k);
        RemoveMembers(p.remaining, k);
        RunStepReady(tests, remaining, p, k, StoreResult(body(k).value), t, rest);
        RunOutcome(t, rest, body, isFailing);
        RunStep(tests, remaining, body, p, k, t, rest, RunFrom(t, rest, body, isFailing).value);
      }
    }
  }

  /** The requirements of the run hold again after a chosen test ran. */
  lemma RunStepReady(tests: Registry, remaining: seq<TestId>, p: Pass, k: TestId, res: Option<Stored>, t: Registry, rest: seq<TestId>)
    requires PassOutcome(tests, remaining, 0, p) && p.toTest == Some(k)
    requires k in p.tests && t == p.tests[k := p.tests[k].(result := res)]
    requires res.None? || !res.value.failedDependencies
    requires forall y :: y in rest <==> y in p.remaining && y != k
    requires NoDups(rest)
    ensures Covered(t, rest) && WellMarked(t)
  {
  }

  /** The guarantees of the rest of the run give those of the whole run. */
  lemma RunStep(tests: Registry, remaining: seq<TestId>, body: TestId -> Result<Option<ResultValue>>,
                p: Pass, k: TestId, t: Registry, rest: seq<TestId>, q: Run)
    requires PassOutcome(tests, remaining, 0, p) && From(remaining, 0) == remaining
    requires p.toTest == Some(k) && body(k).Ok?
    requires t == p.tests[k := p.tests[k].(result := StoreResult(body(k).value))]
    requires forall y :: y in rest <==> y in p.remaining && y != k
    requires k !in rest
    requires RunGuarantees(t, rest, body, q)
    ensures RunGuarantees(tests, remaining, body, Run(q.tests, [k] + q.ran))
  {
    var ran := [k] + q.ran;
    assert NoDups(ran) by {
      forall i, j | 0 <= i < j < |ran| ensures ran[i] != ran[j] {
        if i > 0 {
          assert ran[i] == q.ran[i - 1] && ran[j] == q.ran[j - 1];
        } else {
          assert ran[j] in q.ran;
        }
      }
    }
    forall x | x in remaining ensures (x in ran) != Blocked(q.tests[x]) {
      if x != k && x !in p.remaining {
        assert Blocked(p.tests[x]);
        assert x !in rest;
        assert t[x] == p.tests[x];
      }
    }
  }

  /** Removing blocked tests is not progress: with the list ordered 0, 1, 2,
      where test 1 depends on test 0, test 2 depends on nothing and every
      result is failing, the second pass marks and removes test 1, skips
      test 2 in the same pass, chooses nothing, and raises "Cyclic
      dependencies!" although no dependency is cyclic and test 2 never
      ran. */
  lemma SpuriousCycle(v: ResultValue)
    ensures var tests := map[0 := Test("a", [], None), 1 := Test("b", [0], None), 2 := Test("c", [], None)];
            RunFrom(tests, [0, 1, 2], _ => Ok(Some(v)), _ => true) == Err(RuntimeError("Cyclic dependencies!"))
  {
    var tests := map[0 := Test("a", [], None), 1 := Test("b", [0], None), 2 := Test("c", [], None)];
    var body: TestId -> Result<Option<ResultValue>> := _ => Ok(Some(v));
    var isFailing: ResultValue -> bool := _ => true;
    assert PassFrom(tests, [0, 1, 2], 0, None, isFailing) == Ok(Pass(tests, [0, 1, 2], Some(0)));
    assert Remove([0, 1, 2], 0) == [1, 2];
    var t := tests[0 := Test("a", [], Some(Stored(v, false)))];
    var marked := t[1 := MarkFailed(t[1], "a")];
    assert CheckDeps(t, 1, [0], 0, isFailing) == Ok(Checked(marked, true));
    assert Remove([1, 2], 1) == [2];
    assert PassFrom(marked, [2], 1, None, isFailing) == Ok(Pass(marked, [2], None));
    assert PassFrom(t, [1, 2], 0, None, isFailing) == Ok(Pass(marked, [2], None));
  }

  /** What `finish` adds for one value: a truthy score (present and not 0). */
  function Counted(o: Option<int>): int
  {
    if o.Some? && o.value != 0 then o.value else 0
  }

  function ScoreOf(t: Test): int
  {
    if t.result.Some? then Counted(t.result.value.value.score) else 0
  }

  function MaxScoreOf(t: Test): int
  {
    if t.result.Some? then Counted(t.result.value.value.maxScore) else 0
  }

  /** The sum of `f` over the tests listed in `order`. */
  function SumOf(tests: Registry, order: seq<TestId>, f: Test -> int): int
    requires Covered(tests, order)
  {
    if order == [] then 0
    else SumOf(tests, order[..|order| - 1], f) + f(tests[order[|order| - 1]])
  }

  lemma {:induction false} SumAppend(tests: Registry, a: seq<TestId>, b: seq<TestId>, f: Test -> int)
    requires Covered(tests, a) && Covered(tests, b)
    ensures Covered(tests, a + b) && SumOf(tests, a + b, f) == SumOf(tests, a, f) + SumOf(tests, b, f)
    decreases |b|
  {
    if b != [] {
      var c := b[..|b| - 1];
      assert (a + b)[..|a + b| - 1] == a + c;
      SumAppend(tests, a, c, f);
    } else {
      assert a + b == a;
    }
  }

  /** The sums do not depend on the order in which the tests are visited,
      which is why the order of the dictionary does not matter. */
  lemma {:induction false} SumPermutation(tests: Registry, a: seq<TestId>, b: seq<TestId>, f: Test -> int)
    requires Covered(tests, a) && multiset(a) == multiset(b)
    ensures Covered(tests, b) && SumOf(tests, a, f) == SumOf(tests, b, f)
    decreases |a|
  {
    CoveredPermutation(tests, a, b);
    if a != [] {
      var x := a[|a| - 1];
      assert x in multiset(a);
      assert x in b;
      var i :| 0 <= i < |b| && b[i] == x;
      DropMatching(a, b, i);
      SumPermutation(tests, a[..|a| - 1], b[..i] + b[i + 1..], f);
      SumRemoveAt(tests, b, i, f);
    }
  }

  lemma CoveredPermutation(tests: Registry, a: seq<TestId>, b: seq<TestId>)
    requires Covered(tests, a) && multiset(a) == multiset(b)
    ensures Covered(tests, b)
  {
    forall x | x in b ensures x in tests {
      assert x in multiset(b);
    }
  }

  /** The sum over a list is the sum without its `i`-th entry plus that
      entry's value. */
  lemma SumRemoveAt(tests: Registry, b: seq<TestId>, i: nat, f: Test -> int)
    requires Covered(tests, b) && i < |b|
    ensures Covered(tests, b[..i] + b[i + 1..])
    ensures SumOf(tests, b, f) == SumOf(tests, b[..i] + b[i + 1..], f) + f(tests[b[i]])
  {
    var x := b[i];
    assert b == b[..i] + [x] + b[i + 1..];
    SumAppend(tests, b[..i], [x], f);
    SumAppend(tests, b[..i] + [x], b[i + 1..], f);
    SumAppend(tests, b[..i], b[i + 1..], f);
    SumSingle(tests, x, f);
  }

  lemma SumSingle(tests: Registry, x: TestId, f: Test -> int)
    requires x in tests
    ensures Covered(tests, [x]) && SumOf(tests, [x], f) == f(tests[x])
  {
    assert [x][..0] == [];
  }

  /** Dropping the last element of `a` and a matching element of `b` keeps
      two lists with the same elements so. */
  lemma DropMatching<T>(a: seq<T>, b: seq<T>, i: nat)
    requires multiset(a) == multiset(b) && a != [] && i < |b| && b[i] == a[|a| - 1]
    ensures multiset(a[..|a| - 1]) == multiset(b[..i] + b[i + 1..])
  {
    assert a == a[..|a| - 1] + [a[|a| - 1]];
    assert b == b[..i] + [b[i]] + b[i + 1..];
    assert multiset(b) == multiset(b[..i]) + multiset{b[i]} + multiset(b[i + 1..]);
    assert multiset(b[..i] + b[i + 1..]) == multiset(b[..i]) + multiset(b[i + 1..]);
    assert multiset(a) == multiset(a[..|a| - 1]) + multiset{a[|a| - 1]};
    assert multiset(a[..|a| - 1]) == multiset(a) - multiset{b[i]};
    assert multiset(b[..i] + b[i + 1..]) == multiset(b) - multiset{b[i]};
  }

  /** Whether some listed test has no result, which makes `finish` fail on
      `i.result.score` when it has to add the scores up. */
  predicate SomeUnrun(tests: Registry, order: seq<TestId>)
    requires Covered(tests, order)
  {
    exists x :: x in order && tests[x].result.None?
  }

  /** The scores `finish` reports: the ones given, and for each one omitted
      the sum of the truthy values over the tests, visited in `order`. */
  function FinishScores(tests: Registry, order: seq<TestId>, score: Option<int>, maxScore: Option<int>): (r: Result<(int, int)>)
    requires Covered(tests, order)
    ensures score.Some? && maxScore.Some? ==> r == Ok((score.value, maxScore.value))
    ensures r.Err? <==> (score.None? || maxScore.None?) && SomeUnrun(tests, order)
    ensures r.Err? ==> r.error == AttributeError("score")
    ensures r.Ok? && score.Some? ==> r.value.0 == score.value
    ensures r.Ok? && maxScore.Some? ==> r.value.1 == maxScore.value
  {
    if score.Some? && maxScore.Some? then Ok((score.value, maxScore.value))
    else if SomeUnrun(tests, order) then Err(AttributeError("score"))
    else
      Ok((if score.Some? then score.value else SumOf(tests, order, ScoreOf),
          if maxScore.Some? then maxScore.value else SumOf(tests, order, MaxScoreOf)))
  }

  /** Visiting the tests in any other order gives the same scores. */
  lemma FinishOrderFree(tests: Registry, a: seq<TestId>, b: seq<TestId>, score: Option<int>, maxScore: Option<int>)
    requires Covered(tests, a) && multiset(a) == multiset(b)
    ensures Covered(tests, b) && FinishScores(tests, a, score, maxScore) == FinishScores(tests, b, score, maxScore)
  {
    SumPermutation(tests, a, b, ScoreOf);
    SumPermutation(tests, a, b, MaxScoreOf);
    assert SomeUnrun(tests, a) == SomeUnrun(tests, b) by {
      forall x ensures x in a <==> x in b {
        assert x in a <==> x in multiset(a);
        assert x in b <==> x in multiset(b);
      }
    }
  }

  /** The remainder of a run, resumed after the tests in `pre` have run. */
  function Resume(r: Result<Run>, pre: seq<TestId>): Result<Run>
  {
    if r.Ok? then Ok(Run(r.value.tests, pre + r.value.ran)) else r
  }

  /** `Harness`: the registered tests, keyed by wrapper. `next` numbers the
      next wrapper; `calls` records every call of a test body. */
  class Harness {
    var tests: Registry
    var next: nat
    ghost var calls: seq<TestId>

    ghost predicate Valid()
      reads this
    {
      (forall x :: x in tests ==> x < next) && WellMarked(tests)
    }

    constructor()
      ensures Valid() && tests == map[] && calls == []
    {
      tests := map[];
      next := 0;
      calls := [];
    }

    /** `test(name, depends)` applied to a function: registers one new test
        under a fresh wrapper, without a result, and runs nothing. */
    method Register(name: string, depends: seq<TestId>) returns (id: TestId)
      requires Valid()
      modifies this
      ensures Valid() && id !in old(tests)
      ensures tests == old(tests)[id := Test(name, depends, None)] && calls == old(calls)
    {
      id := next;
      tests := tests[id := Test(name, depends, None)];
      next := next + 1;
    }

    /** The `for j in current_test.depends` loop for test `k`: `Ok(true)`
        when it runs to its end, `Ok(false)` when it breaks. */
    method CheckDependencies(k: TestId, isFailing: ResultValue -> bool) returns (r: Result<bool>)
      requires k in tests
      modifies this
      ensures var c := CheckDeps(old(tests), k, old(tests)[k].depends, 0, isFailing);
              && (r.Err? <==> c.Err?) && (r.Err? ==> r.error == KeyError)
              && (r.Ok? ==> tests == c.value.tests && r.value == c.value.complete)
      ensures next == old(next) && calls == old(calls)
    {
      ghost var t0 := tests;
      var deps := tests[k].depends;
      var i := 0;
      while i < |deps|
        invariant 0 <= i <= |deps| && k in tests
        invariant next == old(next) && calls == old(calls)
        invariant CheckDeps(t0, k, deps, 0, isFailing) == CheckDeps(tests, k, deps, i, isFailing)
      {
        var j := deps[i];
        if j !in tests {
          return Err(KeyError);
        }
        if tests[j].result.None? {
          return Ok(false);
        }
        if isFailing(tests[j].result.value.value) {
          tests := tests[k := MarkFailed(tests[k], tests[j].name)];
        }
        i := i + 1;
      }
      return Ok(true);
    }

    /** One pass of the `for i in remaining_tests` loop: the list after the
        pass and the test chosen to run. */
    method NextTest(remaining: seq<TestId>, isFailing: ResultValue -> bool) returns (r: Result<(seq<TestId>, Option<TestId>)>)
      modifies this
      ensures var p := PassFrom(old(tests), remaining, 0, None, isFailing);
              && (r.Err? <==> p.Err?) && (r.Err? ==> r.error == KeyError)
              && (r.Ok? ==> tests == p.value.tests && r.value == (p.value.remaining, p.value.toTest))
      ensures next == old(next) && calls == old(calls)
    {
      ghost var t0 := tests;
      var rem := remaining;
      var pos := 0;
      var toTest: Option<TestId> := None;
      while pos < |rem|
        invariant next == old(next) && calls == old(calls)
        invariant PassFrom(t0, remaining, 0, None, isFailing) == PassFrom(tests, rem, pos, toTest, isFailing)
        decreases |rem| - pos
      {
        var k := rem[pos];
        if k !in tests {
          return Err(KeyError);
        }
        if tests[k].depends == [] {
          return Ok((rem, Some(k)));
        }
        var c := CheckDependencies(k, isFailing);
        if c.Err? {
          return Err(c.error);
        }
        if c.value {
          if Blocked(tests[k]) {
            rem := Remove(rem, k);
          } else {
            toTest := Some(k);
          }
        }
        pos := pos + 1;
      }
      return Ok((rem, toTest));
    }

    /** `run_tests`, with the keys listed in `order` (the dictionary's
        order), the registered functions as `body` and the failing
        predicate of results as `isFailing`. */
    method RunTests(order: seq<TestId>, body: TestId -> Result<Option<ResultValue>>, isFailing: ResultValue -> bool)
      returns (r: Result<()>)
      requires Valid() && NoDups(order) && forall x :: x in order <==> x in tests
      modifies this
      ensures var run := RunFrom(old(tests), order, body, isFailing);
              && (r.Ok? <==> run.Ok?) && (r.Err? ==> r.error == run.error)
              && (r.Ok? ==> Valid() && tests == run.value.tests && calls == old(calls) + run.value.ran)
    {
      ghost var t0 := tests;
      ghost var ran: seq<TestId> := [];
      var rem := order;
      if RunFrom(tests, order, body, isFailing).Ok? {
        Strings.AppendEmpty(ran, RunFrom(tests, order, body, isFailing).value.ran);
      }
      while rem != []
        invariant Resume(RunFrom(tests, rem, body, isFailing), ran) == RunFrom(t0, order, body, isFailing)
        invariant calls == old(calls) + ran
        invariant NoDups(rem) && Covered(tests, rem) && WellMarked(tests)
        invariant tests.Keys == t0.Keys && next == old(next)
        decreases |rem|
      {
        ghost var before := tests;
        var p := NextTest(rem, isFailing);
        if p.Err? {
          return Err(p.error);
        }
        ghost var pass := Pass(tests, p.value.0, p.value.1);
        match p.value.1 {
          case Some(k) =>
            var out := body(k);
            SnocAssoc(old(calls), ran, k);
            calls := calls + [k];
            if out.Err? {
              return Err(out.error);
            }
            if k !in tests {
              return Err(KeyError);
            }
            tests := tests[k := tests[k].(result := StoreResult(out.value))];
            if k !in p.value.0 {
              return Err(ValueError("list.remove(x): x not in list"));
            }
            var rest := Remove(p.value.0, k);
            RunLoopStep(t0, order, before, rem, ran, pass, body, isFailing);
            ran := ran + [k];
            rem := rest;
          case None =>
            if p.value.0 != [] {
              return Err(RuntimeError("Cyclic dependencies!"));
            }
            PassFacts(before, rem, 0, None, isFailing);
            Strings.AppendEmpty([], ran);
            return Ok(());
        }
      }
      Strings.AppendEmpty([], ran);
      return Ok(());
    }

    /** The score summation of `finish(score, max_score)`, with the tests
        visited in `order`: each registered test once, in the dictionary's
        order (FinishOrderFree shows the order does not matter). */
    method Finish(order: seq<TestId>, score: Option<int>, maxScore: Option<int>) returns (r: Result<(int, int)>)
      requires NoDups(order) && forall x :: x in order <==> x in tests
      ensures r == FinishScores(tests, order, score, maxScore)
    {
      if score.Some? && maxScore.Some? {
        return Ok((score.value, maxScore.value));
      }
      var newScore := 0;
      var newMaxScore := 0;
      var i := 0;
      while i < |order|
        invariant 0 <= i <= |order|
        invariant !SomeUnrun(tests, order[..i])
        invariant newScore == SumOf(tests, order[..i], ScoreOf)
        invariant newMaxScore == SumOf(tests, order[..i], MaxScoreOf)
      {
        var t := tests[order[i]];
        if t.result.None? {
          assert order[i] in order;
          return Err(AttributeError("score"));
        }
        newScore := newScore + Counted(t.result.value.value.score);
        newMaxScore := newMaxScore + Counted(t.result.value.value.maxScore);
        assert order[..i + 1][..i] == order[..i];
        i := i + 1;
      }
      assert order[..i] == order;
      return Ok((if score.Some? then score.value else newScore,
                 if maxScore.Some? then maxScore.value else newMaxScore));
    }
  }

  /** One turn of the `while` loop of `run_tests` that ran a test keeps
      the loop's invariant. */
  lemma RunLoopStep(t0: Registry, order: seq<TestId>, before: Registry, rem: seq<TestId>, ran: seq<TestId>, p: Pass,
                    body: TestId -> Result<Option<ResultValue>>, isFailing: ResultValue -> bool)
    requires Resume(RunFrom(before, rem, body, isFailing), ran) == RunFrom(t0, order, body, isFailing)
    requires NoDups(rem) && Covered(before, rem) && WellMarked(before) && before.Keys == t0.Keys
    requires PassFrom(before, rem, 0, None, isFailing) == Ok(p) && p.toTest.Some?
    requires body(p.toTest.value).Ok? && p.toTest.value in p.tests && p.toTest.value in p.remaining
    ensures var k := p.toTest.value;
            var t := p.tests[k := p.tests[k].(result := StoreResult(body(k).value))];
            var rest := Remove(p.remaining, k);
            && Resume(RunFrom(t, rest, body, isFailing), ran + [k]) == RunFrom(t0, order, body, isFailing)
            && NoDups(rest) && Covered(t, rest) && WellMarked(t) && t.Keys == t0.Keys
  {
    var k := p.toTest.value;
    var t := p.tests[k := p.tests[k].(result := StoreResult(body(k).value))];
    var rest := Remove(p.remaining, k);
    PassFacts(before, rem, 0, None, isFailing);
    assert From(rem, 0) == rem;
    RemoveMembers(p.remaining, k);
    RunStepReady(before, rem, p, k, StoreResult(body(k).value), t, rest);
    assert RunFrom(before, rem, body, isFailing)
        == (var q := RunFrom(t, rest, body, isFailing); if q.Ok? then Ok(Run(q.value.tests, [k] + q.value.ran)) else q);
    ResumeStep(RunFrom(t, rest, body, isFailing), ran, k);
  }

  lemma ResumeStep(rest: Result<Run>, ran: seq<TestId>, k: TestId)
    ensures Resume(rest, ran + [k])
         == Resume(if rest.Ok? then Ok(Run(rest.value.tests, [k] + rest.value.ran)) else rest, ran)
  {
    if rest.Ok? {
      Assoc(ran, [k], rest.value.ran);
    }
  }
}
