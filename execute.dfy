/** interact/execute.py: the g++ command line, the compile cache keyed by
    the sorted file list, and `run_program`'s argument check and temporary
    directory. Processes and the file system are oracles: the compiler's
    outcome and the program's outcome are parameters, and temporary
    directories are numbered, with a ghost set of those not yet removed. */
module Execute {
  import opened Wrappers

  /** `create_compile_command(files, flags)`. */
  function CreateCompileCommand(files: seq<string>, flags: seq<string>): (cmd: seq<string>)
    ensures |cmd| == 1 + |flags| + 2 + |files|
    ensures cmd[0] == "g++" && cmd[1..1 + |flags|] == flags
    ensures cmd[1 + |flags|..3 + |flags|] == ["-o", "main"] && cmd[3 + |flags|..] == files
  {
    ["g++"] + flags + ["-o", "main"] + files
  }

  /** The command determines its flags and files once the number of flags
      is known, and the output is always named `main`, whatever the flags. */
  lemma CommandDeterminesParts(files: seq<string>, flags: seq<string>, files': seq<string>, flags': seq<string>)
    requires |flags| == |flags'|
    requires CreateCompileCommand(files, flags) == CreateCompileCommand(files', flags')
    ensures files == files' && flags == flags'
  {
    var cmd := CreateCompileCommand(files, flags);
    assert flags == cmd[1..1 + |flags|] == flags';
    assert files == cmd[3 + |flags|..] == files';
  }

  /** Python 2's ordering of `str`: lexicographic by character. */
  predicate StrLe(a: string, b: string)
    decreases |a|
  {
    a == [] || (b != [] && (a[0] < b[0] || (a[0] == b[0] && StrLe(a[1..], b[1..]))))
  }

  lemma {:induction false} StrLeTotal(a: string, b: string)
    ensures StrLe(a, b) || StrLe(b, a)
    decreases |a|
  {
    if a != [] && b != [] && a[0] == b[0] {
      StrLeTotal(a[1..], b[1..]);
    }
  }

  lemma {:induction false} StrLeReflexive(a: string)
    ensures StrLe(a, a)
    decreases |a|
  {
    if a != [] {
      StrLeReflexive(a[1..]);
    }
  }

  lemma {:induction false} StrLeAntisymmetric(a: string, b: string)
    requires StrLe(a, b) && StrLe(b, a)
    ensures a == b
    decreases |a|
  {
    if a != [] {
      StrLeAntisymmetric(a[1..], b[1..]);
      assert a == [a[0]] + a[1..] && b == [b[0]] + b[1..];
    }
  }

  lemma {:induction false} StrLeTransitive(a: string, b: string, c: string)
    requires StrLe(a, b) && StrLe(b, c)
    ensures StrLe(a, c)
    decreases |a|
  {
    if a != [] && a[0] == b[0] && b[0] == c[0] {
      StrLeTransitive(a[1..], b[1..], c[1..]);
    }
  }

  predicate Sorted(s: seq<string>)
  {
    forall i, j :: 0 <= i < j < |s| ==> StrLe(s[i], s[j])
  }

  /** Inserting into a sorted list. */
  function Insert(x: string, s: seq<string>): (r: seq<string>)
    ensures multiset(r) == multiset(s) + multiset{x}
    ensures Sorted(s) ==> Sorted(r)
    decreases |s|
  {
    if s == [] || StrLe(x, s[0]) then
      InsertFront(x, s);
      [x] + s
    else
      var r := [s[0]] + Insert(x, s[1..]);
      assert s == [s[0]] + s[1..];
      InsertLater(x, s, Insert(x, s[1..]));
      r
  }

  lemma InsertFront(x: string, s: seq<string>)
    requires s == [] || StrLe(x, s[0])
    ensures Sorted(s) ==> Sorted([x] + s)
  {
    if Sorted(s) {
      var r := [x] + s;
      forall i, j | 0 <= i < j < |r| ensures StrLe(r[i], r[j]) {
        if i == 0 && j > 1 {
          StrLeTransitive(x, s[0], s[j - 1]);
        }
      }
    }
  }

  lemma InsertLater(x: string, s: seq<string>, t: seq<string>)
    requires s != [] && !StrLe(x, s[0])
    requires multiset(t) == multiset(s[1..]) + multiset{x}
    requires Sorted(s[1..]) ==> Sorted(t)
    ensures Sorted(s) ==> Sorted([s[0]] + t)
  {
    if Sorted(s) {
      StrLeTotal(x, s[0]);
      var r := [s[0]] + t;
      forall i, j | 0 <= i < j < |r| ensures StrLe(r[i], r[j]) {
        if i == 0 {
          var y := t[j - 1];
          assert y in multiset(t);
          if y != x {
            assert y in multiset(s[1..]);
            var n :| 0 <= n < |s[1..]| && s[1..][n] == y;
            assert s[n + 1] == y;
          }
        } else {
          assert r[i] == t[i - 1] && r[j] == t[j - 1];
        }
      }
    }
  }

  /** `tuple(sorted(files))`: the cache key. */
  function SortStrings(files: seq<string>): (r: seq<string>)
    ensures Sorted(r) && multiset(r) == multiset(files)
  {
    if files == [] then []
    else
      assert files == [files[0]] + files[1..];
      Insert(files[0], SortStrings(files[1..]))
  }

  /** Two sorted lists with the same elements are the same list. */
  lemma {:induction false} SortedUnique(a: seq<string>, b: seq<string>)
    requires Sorted(a) && Sorted(b) && multiset(a) == multiset(b)
    ensures a == b
    decreases |a|
  {
    if a != [] {
      assert a[0] in multiset(b) && b[0] in multiset(a);
      assert b != [];
      var i :| 0 <= i < |b| && b[i] == a[0];
      var j :| 0 <= j < |a| && a[j] == b[0];
      assert StrLe(b[0], a[0]) by {
        if i > 0 {
          assert StrLe(b[0], b[i]);
        } else {
          StrLeReflexive(a[0]);
        }
      }
      assert StrLe(a[0], b[0]) by {
        if j > 0 {
          assert StrLe(a[0], a[j]);
        } else {
          StrLeReflexive(b[0]);
        }
      }
      StrLeAntisymmetric(a[0], b[0]);
      TailFacts(a);
      TailFacts(b);
      SortedUnique(a[1..], b[1..]);
    } else {
      assert |b| == |multiset(b)| == 0;
    }
  }

  lemma TailFacts(a: seq<string>)
    requires Sorted(a) && a != []
    ensures Sorted(a[1..]) && a == [a[0]] + a[1..]
    ensures multiset(a[1..]) == multiset(a) - multiset{a[0]}
  {
    assert a == [a[0]] + a[1..];
    assert multiset(a) == multiset{a[0]} + multiset(a[1..]);
  }

  /** Two file lists share a cache entry exactly when they name the same
      files the same number of times, in whatever order. */
  lemma SameKeyIffSameFiles(a: seq<string>, b: seq<string>)
    ensures SortStrings(a) == SortStrings(b) <==> multiset(a) == multiset(b)
  {
    if multiset(a) == multiset(b) {
      SortedUnique(SortStrings(a), SortStrings(b));
    }
  }

  /** An executable: one `compile_program` built in a temporary directory
      (`<dir>/main`), or a path the caller gives. */
  datatype Executable = Built(dir: nat) | Given(path: string)

  /** What a compiler process does: exits with a code and its merged
      output, raises while being started or waited on, or exits with a
      code and then raises when its output is read. */
  datatype CompilerRun =
    | Exited(code: int, output: string)
    | CompilerRaised(error: Exception)
    | OutputRaised(code: int, error: Exception)

  /** What running a program does: ends with stdout, stderr and a return
      code, or raises. */
  datatype ProgramRun = Ran(stdout: string, stderr: string, code: int) | ProgramRaised(error: Exception)

  const BadArguments := "Either files or executable must be specified, but not both nor neither."

  /** The argument check of `run_program`: exactly one of `files` and
      `executable` is given. */
  function CheckArguments(files: Option<seq<string>>, executable: Option<Executable>): (r: Result<()>)
    ensures r.Ok? <==> (files.Some? <==> executable.None?)
    ensures r.Err? ==> r.error == TypeError(BadArguments)
  {
    if (files.None? && executable.None?) || (files.Some? && executable.Some?) then Err(TypeError(BadArguments))
    else Ok(())
  }

  /** The module's state: the cache, the numbering of temporary
      directories, which of them still exist, and the compiler commands
      run so far. */
  class Execution {
    var cache: map<seq<string>, Executable>
    var nextDir: nat
    ghost var live: set<nat>
    ghost var commands: seq<seq<string>>

    /** Directories are never reused, every key is a sorted file list, and
        every cached executable is one this module built. Its directory may
        be gone: a build whose output could not be read stays cached after
        its directory is removed. */
    ghost predicate Valid()
      reads this
    {
      && (forall d :: d in live ==> d < nextDir)
      && (forall k :: k in cache ==> Sorted(k) && cache[k].Built? && cache[k].dir < nextDir)
    }

    constructor()
      ensures Valid() && cache == map[] && live == {} && commands == []
    {
      cache := map[];
      nextDir := 0;
      live := {};
      commands := [];
    }

    /** `tempfile.mkdtemp()`: a directory that did not exist before. */
    method MakeTempDir() returns (d: nat)
      requires Valid()
      modifies this
      ensures Valid() && d !in old(live) && live == old(live) + {d}
      ensures nextDir == d + 1 && d == old(nextDir)
      ensures cache == old(cache) && commands == old(commands)
    {
      d := nextDir;
      live := live + {d};
      nextDir := nextDir + 1;
    }

    /** `shutil.rmtree(d)`. */
    method RemoveTree(d: nat)
      requires Valid()
      modifies this
      ensures Valid() && live == old(live) - {d}
      ensures cache == old(cache) && nextDir == old(nextDir) && commands == old(commands)
    {
      live := live - {d};
    }

    /** `compile_program(files, flags, ignore_cache)`, where `compiler` is
        what the compiler process does if it is started. The result is
        `(compiler output, executable)`. */
    method CompileProgram(files: seq<string>, flags: seq<string>, ignoreCache: bool, compiler: CompilerRun)
      returns (r: Result<(Option<string>, Option<Executable>)>)
      requires Valid()
      modifies this
      ensures Valid()
      ensures var key := SortStrings(files);
              !(!ignoreCache && key in old(cache)) && compiler.OutputRaised? && compiler.code == 0 ==>
                key in cache && cache[key].Built? && cache[key].dir !in live
      ensures var key := SortStrings(files);
              if !ignoreCache && key in old(cache) then
                && r == Ok((None, Some(old(cache)[key])))
                && cache == old(cache) && live == old(live) && nextDir == old(nextDir) && commands == old(commands)
              else
                && commands == old(commands) + [CreateCompileCommand(files, flags)]
                && nextDir == old(nextDir) + 1
                && match compiler
                   case CompilerRaised(e) =>
                     r == Err(e) && cache == old(cache) && live == old(live)
                   case OutputRaised(code, e) =>
                     && r == Err(e) && live == old(live)
                     && cache == if code != 0 then old(cache) else old(cache)[key := Built(old(nextDir))]
                   case Exited(code, output) =>
                     if code != 0 then
                       r == Ok((Some(output), None)) && cache == old(cache) && live == old(live) + {old(nextDir)}
                     else
                       && r == Ok((Some(output), Some(Built(old(nextDir)))))
                       && cache == old(cache)[key := Built(old(nextDir))] && live == old(live) + {old(nextDir)}
    {
      var key := SortStrings(files);
      if !ignoreCache && key in cache {
        return Ok((None, Some(cache[key])));
      }
      var tempDir := MakeTempDir();
      var command := CreateCompileCommand(files, flags);
      commands := commands + [command];
      match compiler {
        case CompilerRaised(e) =>
          RemoveTree(tempDir);
          return Err(e);
        case OutputRaised(code, e) =>
          if code == 0 {
            cache := cache[key := Built(tempDir)];
          }
          RemoveTree(tempDir);
          return Err(e);
        case Exited(code, output) =>
          if code != 0 {
            return Ok((Some(output), None));
          }
          cache := cache[key := Built(tempDir)];
          return Ok((Some(output), Some(Built(tempDir))));
      }
    }

    /** `run_program(files, given_input, run_func, executable)`: compiles
        `files` (with no flags, through the cache) when no executable is
        given, then runs the executable in a fresh temporary directory,
        which is removed however the run ends. `compiler` is what the
        compiler does if started; `runner` gives the outcome of running an
        executable in a directory on an input. */
    method RunProgram(files: Option<seq<string>>, givenInput: string, executable: Option<Executable>,
                      compiler: CompilerRun, runner: (Executable, nat, string) -> ProgramRun)
      returns (r: Result<(string, string, int)>)
      requires Valid()
      modifies this
      ensures Valid()
      ensures CheckArguments(files, executable).Err? ==>
                r == Err(TypeError(BadArguments))
                && cache == old(cache) && live == old(live) && nextDir == old(nextDir) && commands == old(commands)
      ensures executable.Some? && files.None? ==>
                && live == old(live) && cache == old(cache) && nextDir == old(nextDir) + 1 && commands == old(commands)
                && r == Outcome(runner(executable.value, old(nextDir), givenInput))
      ensures files.Some? && executable.None? ==>
                var key := SortStrings(files.value);
                if key in old(cache) then
                  && live == old(live) && cache == old(cache) && nextDir == old(nextDir) + 1 && commands == old(commands)
                  && r == Outcome(runner(old(cache)[key], old(nextDir), givenInput))
                else
                  && commands == old(commands) + [CreateCompileCommand(files.value, [])]
                  && match compiler
                     case CompilerRaised(e) =>
                       r == Err(e) && live == old(live) && cache == old(cache)
                     case OutputRaised(code, e) =>
                       && r == Err(e) && live == old(live)
                       && cache == if code != 0 then old(cache) else old(cache)[key := Built(old(nextDir))]
                     case Exited(code, _) =>
                       if code != 0 then
                         && r == Err(RuntimeError("Program did not compile."))
                         && live == old(live) + {old(nextDir)} && cache == old(cache)
                       else
                         && r == Outcome(runner(Built(old(nextDir)), old(nextDir) + 1, givenInput))
                         && live == old(live) + {old(nextDir)} && cache == old(cache)[key := Built(old(nextDir))]
    {
      var ok := CheckArguments(files, executable);
      if ok.Err? {
        return Err(ok.error);
      }
      var exe: Executable;
      if executable.None? {
        var compiled := CompileProgram(files.value, [], false, compiler);
        if compiled.Err? {
          return Err(compiled.error);
        }
        if compiled.value.1.None? {
          return Err(RuntimeError("Program did not compile."));
        }
        exe := compiled.value.1.value;
      } else {
        exe := executable.value;
      }
      r := RunIn(exe, givenInput, runner);
    }

    /** The `try`/`finally` of `run_program`: runs `exe` in a fresh
        temporary directory and removes that directory however the run
        ends. */
    method RunIn(exe: Executable, givenInput: string, runner: (Executable, nat, string) -> ProgramRun)
      returns (r: Result<(string, string, int)>)
      requires Valid()
      modifies this
      ensures Valid() && r == Outcome(runner(exe, old(nextDir), givenInput))
      ensures live == old(live) && cache == old(cache) && nextDir == old(nextDir) + 1 && commands == old(commands)
    {
      var tempDir := MakeTempDir();
      var outcome := runner(exe, tempDir, givenInput);
      RemoveTree(tempDir);
      return Outcome(outcome);
    }
  }

  /** `(stdout, stderr, returncode)` of a run, or the exception it raised. */
  function Outcome(run: ProgramRun): (r: Result<(string, string, int)>)
    ensures r.Ok? <==> run.Ran?
  {
    match run
    case Ran(out, err, code) => Ok((out, err, code))
    case ProgramRaised(e) => Err(e)
  }
}
