/** The CI gate: type-check, lint, test and an optional build, each judged by its exit code. */
module CiEnforcer {
  import opened Common

  /** `CIConfig`: the command of each check; `build` may be missing. */
  datatype CIConfig = CIConfig(typeCheck: string, lint: string, test: string, build: Option<string>)

  /** `Partial<CIConfig>`: a field that is present replaces the current one. `build` may be present
      with the value `undefined` (`Some(None)`), which removes the build check. */
  datatype CIConfigUpdate = CIConfigUpdate(typeCheck: Option<string>, lint: Option<string>,
                                           test: Option<string>, build: Option<Option<string>>)

  /** What the shell does with `cd workdir && command`: exits with a code, or throws (a failure to
      start, a timeout). */
  datatype ShellOutcome = Exited(code: int) | Threw(message: string)

  /** `CIResult`: the verdict and the results map, its entries in insertion order. */
  datatype CIResult = CIResult(passed: bool, results: seq<(string, bool)>)

  /** `if (this.config.build)`: present and not the empty string. */
  predicate BuildConfigured(config: CIConfig)
  {
    config.build.Some? && config.build.value != ""
  }

  /** The checks `enforce` runs, in order, with their commands. */
  function Checks(config: CIConfig): seq<(string, string)>
  {
    [("type-check", config.typeCheck), ("lint", config.lint), ("test", config.test)]
    + (if BuildConfigured(config) then [("build", config.build.value)] else [])
  }

  /** The keys of a results list, in order. */
  function Names(results: seq<(string, bool)>): (r: seq<string>)
    ensures |r| == |results| && forall k :: 0 <= k < |r| ==> r[k] == results[k].0
  {
    if results == [] then [] else Names(results[..|results| - 1]) + [results[|results| - 1].0]
  }

  /** `runCheck`'s verdict on one check: its name, and whether the command exited with 0. */
  function Outcome(check: (string, string), workdir: string, shell: (string, string) -> ShellOutcome)
    : (string, bool)
  {
    (check.0, shell(workdir, check.1) == Exited(0))
  }

  /** The results of running the checks in order. */
  function Outcomes(checks: seq<(string, string)>, workdir: string, shell: (string, string) -> ShellOutcome)
    : (r: seq<(string, bool)>)
    ensures |r| == |checks|
    ensures forall k :: 0 <= k < |r| ==> r[k] == Outcome(checks[k], workdir, shell)
  {
    if checks == [] then []
    else Outcomes(checks[..|checks| - 1], workdir, shell) + [Outcome(checks[|checks| - 1], workdir, shell)]
  }

  predicate AllPassed(results: seq<(string, bool)>)
  {
    forall k :: 0 <= k < |results| ==> results[k].1
  }

  /** The results map holds exactly the type-check, lint and test entries, in that order, and a
      build entry iff a build command is configured; each is true iff its command exited with 0,
      and the gate passes iff every configured command did. */
  lemma EnforceResults(config: CIConfig, workdir: string, shell: (string, string) -> ShellOutcome)
    ensures var results := Outcomes(Checks(config), workdir, shell);
            && Names(results) == ["type-check", "lint", "test"] + (if BuildConfigured(config) then ["build"] else [])
            && |results| == |Checks(config)|
            && (forall k :: 0 <= k < |Checks(config)| ==>
                  (results[k].1 <==> shell(workdir, Checks(config)[k].1) == Exited(0)))
            && (AllPassed(results) <==>
                  && shell(workdir, config.typeCheck) == Exited(0)
                  && shell(workdir, config.lint) == Exited(0)
                  && shell(workdir, config.test) == Exited(0)
                  && (BuildConfigured(config) ==> shell(workdir, config.build.value) == Exited(0)))
  {
    var checks := Checks(config);
    var results := Outcomes(checks, workdir, shell);
    var names := ["type-check", "lint", "test"] + (if BuildConfigured(config) then ["build"] else []);
    assert |names| == |results| && forall k :: 0 <= k < |names| ==> names[k] == results[k].0;
    assert Names(results) == names;
    assert results[0].1 <==> shell(workdir, config.typeCheck) == Exited(0);
    assert results[1].1 <==> shell(workdir, config.lint) == Exited(0);
    assert results[2].1 <==> shell(workdir, config.test) == Exited(0);
    if BuildConfigured(config) {
      assert results[3].1 <==> shell(workdir, config.build.value) == Exited(0);
      assert AllPassed(results) <==> results[0].1 && results[1].1 && results[2].1 && results[3].1;
    } else {
      assert AllPassed(results) <==> results[0].1 && results[1].1 && results[2].1;
    }
  }

  lemma OutcomesFirstThree(config: CIConfig, workdir: string, shell: (string, string) -> ShellOutcome)
    ensures Outcomes(Checks(config)[..3], workdir, shell) ==
              [("type-check", shell(workdir, config.typeCheck) == Exited(0)),
               ("lint", shell(workdir, config.lint) == Exited(0)),
               ("test", shell(workdir, config.test) == Exited(0))]
  {
    var checks := Checks(config)[..3];
    assert checks == [("type-check", config.typeCheck), ("lint", config.lint), ("test", config.test)];
  }

  lemma AllPassedSnoc(results: seq<(string, bool)>, x: (string, bool))
    ensures AllPassed(results + [x]) <==> AllPassed(results) && x.1
  {
    assert (results + [x])[|results|] == x;
    assert forall k :: 0 <= k < |results| ==> (results + [x])[k] == results[k];
  }

  lemma OutcomesLast(checks: seq<(string, string)>, workdir: string, shell: (string, string) -> ShellOutcome)
    requires checks != []
    ensures Outcomes(checks, workdir, shell) ==
              Outcomes(checks[..|checks| - 1], workdir, shell) + [Outcome(checks[|checks| - 1], workdir, shell)]
  {
  }

  /** `{ ...config, ...update }`. */
  function Merged(config: CIConfig, update: CIConfigUpdate): CIConfig
  {
    CIConfig(if update.typeCheck.Some? then update.typeCheck.value else config.typeCheck,
             if update.lint.Some? then update.lint.value else config.lint,
             if update.test.Some? then update.test.value else config.test,
             if update.build.Some? then update.build.value else config.build)
  }

  const NoUpdate: CIConfigUpdate := CIConfigUpdate(None, None, None, None)

  /** An update that names no field changes nothing. */
  lemma MergedNothing(config: CIConfig)
    ensures Merged(config, NoUpdate) == config
  {
  }

  /** Applying the same update twice is applying it once. */
  lemma MergedIdempotent(config: CIConfig, update: CIConfigUpdate)
    ensures Merged(Merged(config, update), update) == Merged(config, update)
  {
  }

  /** The later of two updates wins field by field. */
  function Then(first: CIConfigUpdate, second: CIConfigUpdate): CIConfigUpdate
  {
    CIConfigUpdate(if second.typeCheck.Some? then second.typeCheck else first.typeCheck,
                   if second.lint.Some? then second.lint else first.lint,
                   if second.test.Some? then second.test else first.test,
                   if second.build.Some? then second.build else first.build)
  }

  lemma MergedThen(config: CIConfig, first: CIConfigUpdate, second: CIConfigUpdate)
    ensures Merged(Merged(config, first), second) == Merged(config, Then(first, second))
  {
  }

  /** Only the supplied fields change; a supplied field takes the supplied value. */
  lemma MergedFields(config: CIConfig, update: CIConfigUpdate)
    ensures var c := Merged(config, update);
            && (update.typeCheck.None? ==> c.typeCheck == config.typeCheck)
            && (update.typeCheck.Some? ==> c.typeCheck == update.typeCheck.value)
            && (update.lint.None? ==> c.lint == config.lint)
            && (update.lint.Some? ==> c.lint == update.lint.value)
            && (update.test.None? ==> c.test == config.test)
            && (update.test.Some? ==> c.test == update.test.value)
            && (update.build.None? ==> c.build == config.build)
            && (update.build.Some? ==> c.build == update.build.value)
  {
  }

  class CIEnforcer {
    var config: CIConfig

    constructor (config: CIConfig)
      ensures this.config == config
    {
      this.config := config;
    }

    /** `runCheck`: passes iff the command exits with code 0; a thrown error fails it. */
    method RunCheck(command: string, workdir: string, shell: (string, string) -> ShellOutcome)
      returns (passed: bool)
      ensures passed <==> shell(workdir, command) == Exited(0)
    {
      var outcome := shell(workdir, command);
      match outcome {
        case Exited(code) => passed := code == 0;
        case Threw(_) => passed := false;
      }
    }

    /** `enforce`: every configured check runs, in order, whatever the earlier ones gave; the
        verdict is their conjunction. */
    method Enforce(workdir: string, shell: (string, string) -> ShellOutcome) returns (r: CIResult)
      ensures r.results == Outcomes(Checks(config), workdir, shell)
      ensures r.passed <==> AllPassed(r.results)
    {
      var results: seq<(string, bool)> := [];
      var allPassed := true;

      var typeCheckPassed := RunCheck(config.typeCheck, workdir, shell);
      results := results + [("type-check", typeCheckPassed)];
      if !typeCheckPassed { allPassed := false; }

      var lintPassed := RunCheck(config.lint, workdir, shell);
      results := results + [("lint", lintPassed)];
      if !lintPassed { allPassed := false; }

      var testPassed := RunCheck(config.test, workdir, shell);
      results := results + [("test", testPassed)];
      if !testPassed { allPassed := false; }
      assert results == [("type-check", typeCheckPassed), ("lint", lintPassed), ("test", testPassed)];
      assert results == Outcomes(Checks(config)[..3], workdir, shell) by {
        OutcomesFirstThree(config, workdir, shell);
      }
      assert allPassed <==> AllPassed(results) by {
        assert results[0].1 == typeCheckPassed && results[1].1 == lintPassed && results[2].1 == testPassed;
      }

      if config.build.Some? && config.build.value != "" {
        var buildPassed := RunCheck(config.build.value, workdir, shell);
        AllPassedSnoc(results, ("build", buildPassed));
        results := results + [("build", buildPassed)];
        if !buildPassed { allPassed := false; }
        assert results == Outcomes(Checks(config), workdir, shell) by {
          OutcomesLast(Checks(config), workdir, shell);
        }
      } else {
        assert results == Outcomes(Checks(config), workdir, shell) by {
          assert Checks(config)[..3] == Checks(config);
        }
      }

      r := CIResult(allPassed, results);
    }

    /** `updateConfig`. */
    method UpdateConfig(update: CIConfigUpdate)
      modifies this
      ensures config == Merged(old(config), update)
    {
      config := Merged(config, update);
    }

    /** `getConfig`: a copy, equal to the current configuration. */
    method GetConfig() returns (c: CIConfig)
      ensures c == config
    {
      c := config;
    }
  }
}
