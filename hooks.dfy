/** The packaged entry point `main()`: pick the hook name, refuse names Git does
    not define, collect the checkers active for the hook, classify the contents,
    then dispatch and exit with the folded exit code.

    The file system, the console and the configuration reading are outside the
    model: `callee` stands for `os.path.relpath(sys.argv[0])`, and `rootFound` says
    whether the upward search for a `.git` directory succeeds when the script is
    called directly. */
module Hooks {
  import opened Wrappers
  import opened PyStr
  import opened Constants
  import opened Contents
  import opened Checkers
  import opened Classify
  import opened Discovery
  import opened Dispatch

  /** Whether the script runs as an installed hook, `.git/hooks/<name>`. */
  predicate Installed(callee: string) {
    IsPrefix(".git/hooks", callee)
  }

  /** The hook name: the script's own file name when installed, otherwise the first
      command-line argument, and "pre-commit" when there is none. */
  function SelectHookName(argv: seq<string>, callee: string): string
    requires |argv| >= 1
  {
    if Installed(callee) then Basename(argv[0])
    else if |argv| > 1 then argv[1]
    else "pre-commit"
  }

  /** Installed as `<dir>/<name>`, the script answers to `<name>`. */
  lemma InstalledHookName(dir: string, name: string, rest: seq<string>, callee: string)
    requires name != [] && '/' !in name && Installed(callee)
    ensures SelectHookName([PathJoin(dir, name)] + rest, callee) == name
  {
    assert RFind(name, '/') == -1;
  }

  /** Called directly with no argument, the script acts as the pre-commit hook, which
      is a valid name; called with one, it acts as that hook. */
  lemma DirectHookName(argv: seq<string>, callee: string)
    requires |argv| >= 1 && !Installed(callee)
    ensures |argv| == 1 ==> SelectHookName(argv, callee) == "pre-commit" && IsHookName(SelectHookName(argv, callee))
    ensures |argv| > 1 ==> SelectHookName(argv, callee) == argv[1]
  {
    assert HookNames[3] == "pre-commit";
  }

  /** Classification gives contents that all have a path, so dispatch can read it. */
  lemma ClassifiedHavePaths(hookName: string, argv: seq<string>, environ: seq<(string, string)>, stdin: string, git: GitState)
    requires |argv| >= 1 && Classification(hookName, argv, environ, stdin, git).Success?
    ensures HavePaths(Classification(hookName, argv, environ, stdin, git).value)
  {
    ClassificationShape(hookName, argv, environ, stdin, git);
  }

  /** `main()`: the hook name is chosen and validated, then the hook is run. */
  method RunMain(argv: seq<string>, callee: string, rootFound: bool, units: seq<CheckerUnit>,
                 environ: seq<(string, string)>, stdin: string, git: GitState,
                 raises: (Callable, seq<Arg>) -> bool)
    returns (outcome: Outcome, calls: seq<Call>)
    requires |argv| >= 1
    ensures !Installed(callee) && !rootFound ==> outcome == Exit(1) && calls == []
    ensures var hookName := SelectHookName(argv, callee);
            (Installed(callee) || rootFound) && !IsHookName(hookName) ==> outcome == Exit(1) && calls == []
    ensures var hookName := SelectHookName(argv, callee);
            var classified := Classification(hookName, argv, environ, stdin, git);
            (Installed(callee) || rootFound) && IsHookName(hookName) && classified.Failure? ==>
              outcome == Raised(classified.error) && calls == []
    ensures var hookName := SelectHookName(argv, callee);
            var classified := Classification(hookName, argv, environ, stdin, git);
            (Installed(callee) || rootFound) && IsHookName(hookName) && classified.Success? ==>
              && HavePaths(classified.value)
              && calls == PackagedCalls(Views(Collected(units, hookName)), hookName, classified.value, |Collected(units, hookName)|)
              && outcome == Exit(if RaisedSome(calls, raises) then 1 else 0)
  {
    calls := [];
    var hookName;
    if Installed(callee) {
      hookName := Basename(argv[0]);
    } else {
      if !rootFound {
        outcome := Exit(1);
        return;
      }
      hookName := if |argv| > 1 then argv[1] else "pre-commit";
    }
    assert hookName == SelectHookName(argv, callee);
    if !IsHookName(hookName) {
      outcome := Exit(1);
      return;
    }
    outcome, calls := RunHook(hookName, argv, units, environ, stdin, git, raises);
  }

  /** The rest of `main()` once the hook name is known: the checkers are collected
      before the contents are classified, and an exception from classification
      escapes with no checker called. */
  method RunHook(hookName: string, argv: seq<string>, units: seq<CheckerUnit>,
                 environ: seq<(string, string)>, stdin: string, git: GitState,
                 raises: (Callable, seq<Arg>) -> bool)
    returns (outcome: Outcome, calls: seq<Call>)
    requires |argv| >= 1
    ensures var classified := Classification(hookName, argv, environ, stdin, git);
            classified.Failure? ==> outcome == Raised(classified.error) && calls == []
    ensures var classified := Classification(hookName, argv, environ, stdin, git);
            classified.Success? ==>
              && HavePaths(classified.value)
              && calls == PackagedCalls(Views(Collected(units, hookName)), hookName, classified.value, |Collected(units, hookName)|)
              && outcome == Exit(if RaisedSome(calls, raises) then 1 else 0)
  {
    calls := [];
    CheckerRefsAllocated(units);
    var checkers := CollectCheckers(units, hookName);
    var classified := ClassifyContents(hookName, argv, environ, stdin, git);
    if classified.Failure? {
      outcome := Raised(classified.error);
      return;
    }
    ClassifiedHavePaths(hookName, argv, environ, stdin, git);
    var exitCode;
    calls, exitCode := RunPackaged(checkers, hookName, classified.value, raises);
    outcome := Exit(exitCode);
    assert checkers == Collected(units, hookName);
  }

  /** With no contents, which is every hook but pre-commit, only run-once checkers
      are called, each once, with an empty sequence of arguments. */
  lemma {:induction false} NoContentsOnlyOnce(views: seq<CheckerView>, hookName: string, n: nat)
    requires n <= |views|
    ensures forall a :: 0 <= a < |PackagedCalls(views, hookName, [], n)| ==>
              var call := PackagedCalls(views, hookName, [], n)[a];
              && call.checker < n && views[call.checker].once
              && call.content == None
              && call.args == [Repo, Str(hookName), Tuples([])]
    decreases n
  {
    if n > 0 {
      NoContentsOnlyOnce(views, hookName, n - 1);
    }
  }
}
