/** The legacy entry script `hooks.py`, installed as `.git/hooks/<name>`: the hook
    name is the script's file name and is not validated, file paths are joined to
    the source root, a run with no contents exits 0 before any checker is called,
    and dispatch goes content by content with no hook name in the arguments.

    The environment is a map; the source root is a parameter, since the script
    derives it from its own location on disk. */
module Legacy {
  import opened Wrappers
  import opened PyStr
  import opened Contents
  import opened Checkers
  import opened Classify
  import opened Discovery
  import opened Dispatch

  const DebugKey: string := "SUBMARINE_GITHOOK_DEBUG"
  const InstallTestKey: string := "SUBMARINE_GITHOOK_INSTALL_TEST"

  /** `os.environ.get(key, default)`. */
  function EnvGet(environ: map<string, string>, key: string, default: string): string {
    if key in environ then environ[key] else default
  }

  /** `int(os.environ.get('SUBMARINE_GITHOOK_DEBUG', '0')) != 0`, False when `int`
      raises ValueError. The flag only turns on console output. */
  function DebugFlag(environ: map<string, string>): bool {
    match ParseInt(EnvGet(environ, DebugKey, "0"))
    case None => false
    case Some(n) => n != 0
  }

  /** The flag is on exactly for a non-zero number written out; it is off when the
      variable is unset, and a value that is not an integer leaves it off instead of
      stopping the script. */
  lemma DebugFlagValues(environ: map<string, string>, n: int, text: string)
    ensures DebugFlag(environ[DebugKey := Show(n)]) == (n != 0)
    ensures DebugKey !in environ ==> !DebugFlag(environ)
    ensures ParseInt(text).None? ==> !DebugFlag(environ[DebugKey := text])
  {
    ParseShow(n);
    if DebugKey !in environ {
      ParseShow(0);
      assert Show(0) == "0";
    }
  }

  /** `if install_test_str:` — set and non-empty. */
  predicate InstallTest(environ: map<string, string>) {
    EnvGet(environ, InstallTestKey, "") != ""
  }

  // ---------------------------------------------------------------------------
  // Classification

  /** Pre-commit candidates: the path joined to the source root, and a loader of
      the staged content by the path as Git reports it. */
  function LegacyPreCommitTuples(root: string, paths: seq<string>): seq<seq<Arg>>
    decreases |paths|
  {
    if paths == [] then []
    else
      var p := paths[|paths| - 1];
      LegacyPreCommitTuples(root, paths[..|paths| - 1]) + [[Str(PathJoin(root, p)), Loader(p)]]
  }

  lemma LegacyPreCommitTuplesSnoc(root: string, paths: seq<string>, p: string)
    ensures LegacyPreCommitTuples(root, paths + [p]) ==
            LegacyPreCommitTuples(root, paths) + [[Str(PathJoin(root, p)), Loader(p)]]
  {
    assert (paths + [p])[..|paths|] == paths;
  }

  lemma {:induction false} LegacyPreCommitTuplesShape(root: string, paths: seq<string>)
    ensures |LegacyPreCommitTuples(root, paths)| == |paths|
    ensures forall i :: 0 <= i < |paths| ==>
              LegacyPreCommitTuples(root, paths)[i] == [Str(PathJoin(root, paths[i])), Loader(paths[i])]
    decreases |paths|
  {
    if paths != [] {
      LegacyPreCommitTuplesShape(root, paths[..|paths| - 1]);
    }
  }

  /** Post-checkout candidates: each changed file joined to the source root, and both
      commit ids. */
  function LegacyPostCheckoutTuples(root: string, orig: string, dest: string, files: seq<string>): seq<seq<Arg>>
    decreases |files|
  {
    if files == [] then []
    else
      LegacyPostCheckoutTuples(root, orig, dest, files[..|files| - 1])
      + [[Str(PathJoin(root, files[|files| - 1])), Str(orig), Str(dest)]]
  }

  /** The candidate tuples per hook; only pre-commit, commit-msg and post-checkout
      have a branch. */
  function LegacyCandidates(hookName: string, argv: seq<string>, root: string, git: GitState): Result<seq<seq<Arg>>, PyError>
    requires |argv| >= 1
  {
    if hookName == "pre-commit" then Success(LegacyPreCommitTuples(root, StagedPaths(git.status)))
    else if hookName == "commit-msg" then Success([[Str(argv[|argv| - 1])]])
    else if hookName == "post-checkout" then
      var trailing := argv[1..];
      if |trailing| != 3 then Failure(ValueError)
      else if trailing[2] != "1" then Success([])
      else Success(LegacyPostCheckoutTuples(root, trailing[0], trailing[1], git.changedFiles(trailing[0], trailing[1])))
    else Success([])
  }

  function LegacyClassification(hookName: string, argv: seq<string>, root: string, git: GitState): Result<seq<Content>, PyError>
    requires |argv| >= 1
  {
    match LegacyCandidates(hookName, argv, root, git)
    case Failure(e) => Failure(e)
    case Success(cs) => Emit(hookName, cs)
  }

  /** Pre-commit gives one content per staged entry, with the joined path and the
      loader; every other hook gives none, and only post-checkout with other than
      three trailing arguments raises, with ValueError. */
  lemma LegacyClassificationShape(hookName: string, argv: seq<string>, root: string, git: GitState)
    requires |argv| >= 1
    ensures var r := LegacyClassification(hookName, argv, root, git);
            var paths := StagedPaths(git.status);
            && (hookName == "pre-commit" ==>
                  r.Success? && |r.value| == |paths|
                  && forall i :: 0 <= i < |paths| ==> r.value[i].Arguments() == [Str(PathJoin(root, paths[i])), Loader(paths[i])])
            && (hookName != "pre-commit" && r.Success? ==> r.value == [])
            && (r.Failure? <==> hookName == "post-checkout" && |argv| != 4)
            && (r.Failure? ==> r.error == ValueError)
  {
    var c := LegacyCandidates(hookName, argv, root, git);
    if hookName == "pre-commit" {
      LegacyPreCommitTuplesShape(root, StagedPaths(git.status));
      EmitPreCommit(c.value);
    } else if c.Success? {
      EmitOtherHook(hookName, c.value);
    }
  }

  lemma LegacyClassifiedHavePaths(hookName: string, argv: seq<string>, root: string, git: GitState)
    requires |argv| >= 1 && LegacyClassification(hookName, argv, root, git).Success?
    ensures HavePaths(LegacyClassification(hookName, argv, root, git).value)
  {
    LegacyClassificationShape(hookName, argv, root, git);
  }

  /** One turn of the pre-commit loop: a staged entry adds the content built from
      its joined path and loader, any other entry adds nothing. */
  lemma LegacyPreCommitStep(root: string, status: seq<StatusEntry>, i: nat)
    requires i < |status|
    requires Emit("pre-commit", LegacyPreCommitTuples(root, StagedPaths(status[..i]))).Success?
    ensures var before := Emit("pre-commit", LegacyPreCommitTuples(root, StagedPaths(status[..i])));
            var entry := status[i];
            Emit("pre-commit", LegacyPreCommitTuples(root, StagedPaths(status[..i + 1]))) ==
              if IsStaged(entry) then
                AppendCreated(before.value, CreateWithHook("pre-commit", [Str(PathJoin(root, entry.path)), Loader(entry.path)]))
              else before
  {
    var paths := StagedPaths(status[..i]);
    var entry := status[i];
    StagedPathsStep(status, i);
    if IsStaged(entry) {
      var next := [Str(PathJoin(root, entry.path)), Loader(entry.path)];
      LegacyPreCommitTuplesSnoc(root, paths, entry.path);
      EmitSnoc("pre-commit", LegacyPreCommitTuples(root, paths), next);
    } else {
      assert StagedPaths(status[..i + 1]) == paths;
    }
  }

  /** The pre-commit branch of the legacy script. */
  method LegacyClassifyPreCommit(root: string, status: seq<StatusEntry>) returns (r: Result<seq<Content>, PyError>)
    ensures r == Emit("pre-commit", LegacyPreCommitTuples(root, StagedPaths(status)))
  {
    r := Success([]);
    var i := 0;
    while i < |status| && r.Success?
      invariant 0 <= i <= |status|
      invariant r == Emit("pre-commit", LegacyPreCommitTuples(root, StagedPaths(status[..i])))
      invariant r.Success?
    {
      var entry := status[i];
      var fullFilePath := PathJoin(root, entry.path);
      LegacyPreCommitStep(root, status, i);
      if IsInfix(entry.staged, "TMARC") {
        var content := CreateWithHook("pre-commit", [Str(fullFilePath), Loader(entry.path)]);
        r := AppendCreated(r.value, content);
      }
      i := i + 1;
    }
    assert status[..i] == status;
  }

  /** The post-checkout branch: factory calls happen, but none gives a content. */
  method LegacyClassifyPostCheckout(root: string, trailing: seq<string>, changedFiles: (string, string) -> seq<string>)
    returns (r: Result<seq<Content>, PyError>)
    ensures |trailing| != 3 ==> r == Failure(ValueError)
    ensures |trailing| == 3 ==> r == Success([])
  {
    if |trailing| != 3 {
      return Failure(ValueError);
    }
    var originalCommitId, destinationCommitId, branchCheckout := trailing[0], trailing[1], trailing[2] == "1";
    r := Success([]);
    if branchCheckout {
      var files := changedFiles(originalCommitId, destinationCommitId);
      var i := 0;
      while i < |files|
        invariant 0 <= i <= |files|
        invariant r == Success([])
      {
        var fullFilePath := PathJoin(root, files[i]);
        var content := CreateWithHook("post-checkout", [Str(fullFilePath), Str(originalCommitId), Str(destinationCommitId)]);
        r := AppendCreated(r.value, content);
        i := i + 1;
      }
    }
  }

  /** The classification part of the script, branch by branch. */
  method LegacyClassify(hookName: string, argv: seq<string>, root: string, git: GitState)
    returns (r: Result<seq<Content>, PyError>)
    requires |argv| >= 1
    ensures r == LegacyClassification(hookName, argv, root, git)
  {
    if hookName == "pre-commit" {
      r := LegacyClassifyPreCommit(root, git.status);
    } else if hookName == "commit-msg" {
      var commitMessage := argv[|argv| - 1];
      var content := CreateWithHook(hookName, [Str(commitMessage)]);
      r := AppendCreated([], content);
      assert [[Str(commitMessage)]][..0] == [];
      assert r == Emit(hookName, [[Str(commitMessage)]]);
    } else if hookName == "post-checkout" {
      r := LegacyClassifyPostCheckout(root, argv[1..], git.changedFiles);
      var c := LegacyCandidates(hookName, argv, root, git);
      if c.Success? {
        EmitOtherHook(hookName, c.value);
      }
    } else {
      r := Success([]);
    }
  }

  /** A file filter sees the joined path, and for the extension and file-name
      filters that is the same as seeing the path Git reports. */
  lemma JoinedPathFilters(root: string, path: string, fileExt: string, fileNames: seq<string>)
    requires path != []
    ensures HasExtension(PathJoin(root, path), fileExt) == HasExtension(path, fileExt)
    ensures HasFileName(PathJoin(root, path), fileNames) == HasFileName(path, fileNames)
  {
    JoinedBasename(root, path);
    ExtensionOfBasename(PathJoin(root, path));
    ExtensionOfBasename(path);
  }

  // ---------------------------------------------------------------------------
  // The script

  /** The whole script. With the install test variable set it only reports and
      exits 0; otherwise it collects the checkers for the hook its own file name
      names, classifies, exits 0 when there is nothing to check, and dispatches. */
  method RunScript(argv: seq<string>, environ: map<string, string>, root: string, units: seq<CheckerUnit>,
                   git: GitState, raises: (Callable, seq<Arg>) -> bool)
    returns (outcome: Outcome, calls: seq<Call>)
    requires |argv| >= 1
    ensures InstallTest(environ) ==> outcome == Exit(0) && calls == []
    ensures var hookName := Basename(argv[0]);
            var classified := LegacyClassification(hookName, argv, root, git);
            && (!InstallTest(environ) && classified.Failure? ==> outcome == Raised(classified.error) && calls == [])
            && (!InstallTest(environ) && classified == Success([]) ==> outcome == Exit(0) && calls == [])
            && (!InstallTest(environ) && classified.Success? && classified.value != [] ==>
                  && HavePaths(classified.value)
                  && calls == LegacyCalls(classified.value, Views(Collected(units, hookName)), |classified.value|)
                  && outcome == Exit(if RaisedSome(calls, raises) then 1 else 0))
  {
    calls := [];
    if EnvGet(environ, InstallTestKey, "") != "" {
      outcome := Exit(0);
      return;
    }
    outcome, calls := RunLegacyHook(Basename(argv[0]), argv, root, units, git, raises);
  }

  /** The script after the install test, for the given hook name. */
  method RunLegacyHook(hookName: string, argv: seq<string>, root: string, units: seq<CheckerUnit>,
                       git: GitState, raises: (Callable, seq<Arg>) -> bool)
    returns (outcome: Outcome, calls: seq<Call>)
    requires |argv| >= 1
    ensures var classified := LegacyClassification(hookName, argv, root, git);
            && (classified.Failure? ==> outcome == Raised(classified.error) && calls == [])
            && (classified == Success([]) ==> outcome == Exit(0) && calls == [])
            && (classified.Success? && classified.value != [] ==>
                  && HavePaths(classified.value)
                  && calls == LegacyCalls(classified.value, Views(Collected(units, hookName)), |classified.value|)
                  && outcome == Exit(if RaisedSome(calls, raises) then 1 else 0))
  {
    calls := [];
    CheckerRefsAllocated(units);
    var checkers := CollectCheckers(units, hookName);
    var classified := LegacyClassify(hookName, argv, root, git);
    if classified.Failure? {
      outcome := Raised(classified.error);
      return;
    }
    var contents := classified.value;
    if contents == [] {
      outcome := Exit(0);
      return;
    }
    LegacyClassifiedHavePaths(hookName, argv, root, git);
    var exitCode;
    calls, exitCode := RunLegacy(contents, checkers, raises);
    outcome := Exit(exitCode);
    assert checkers == Collected(units, hookName);
  }
}
