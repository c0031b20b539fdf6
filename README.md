# submarine-githooks: hook dispatch core in Dafny

submarine-githooks runs user-written Python checkers from Git hooks. When a hook
fires, the entry point:

1. works out which hook fired;
2. collects every `Checker` in the checkers directory that is active for that hook;
3. classifies the *contents* the hook is about, such as staged files, changed files,
   pushed refs or the commit message file;
4. calls each checker on each content whose path its file filter accepts, or once with
   every content when the checker is marked `once`;
5. catches every `Exception` a checker raises and exits with `exit_code |= 1` folded
   over all of them.

This project models that core with Dafny and proves properties of the model:

- `Checkers` holds the `Checker` class and the decorators of `CheckerManager`, which
  create a checker or update one in place.
- `Contents` holds the `Content` classes and `Content.create_with_hook`.
- `Classify` holds the per-hook classification of the packaged entry point
  (`submarine_githooks/hooks.py`).
- `Discovery` holds the checker scan both entry points share.
- `Dispatch` holds the two dispatch loops:
  - packaged: checker by checker, the hook name passed to checkers, run-once checkers honoured;
  - legacy: content by content, no hook name, the run-once flag ignored.
- `Hooks` holds the whole packaged `main()`.
- `Legacy` holds the whole legacy `hooks.py` script.
- `PyStr` holds the Python string and POSIX path operations the core uses (`in`,
  `split(' ')`, `splitlines()`, `strip()`, `os.path.split`, `os.path.splitext`,
  `os.path.join`, `int()`), with Python 3 semantics.

The outside world works as follows in the model:
- A checker's behaviour is the parameter `raises`, which says whether a call with
  given arguments raises.
- Each dispatch loop returns the sequence of calls it makes. The specification of that
  sequence does not depend on `raises`, so an exception never changes which calls follow.
- Git's answers (`status`, `changed_files`), `argv`, the environment and stdin are values.
- The directory listing and each checker module's attributes are a list of `CheckerUnit`s.

The packaged pre-commit branch as written fails on every staged file; see Findings.
The rest of the model uses the corrected two-argument version.

## Model

| member | source | states |
|---|---|---|
| `Checkers.Checker.constructor` | submarine_githooks/checker.py:26-34 | a new checker wraps the callable, accepts every path, runs for every hook and is not run-once |
| `Checkers.Checker.SetFileFilter` | submarine_githooks/checker.py:69 | replaces the file predicate and leaves hooks and the once flag alone |
| `Checkers.Checker.AddActiveHooks` | submarine_githooks/checker.py:105 | appends the names to the hook list and leaves the rest alone |
| `Checkers.Checker.MarkOnce` | submarine_githooks/checker.py:89 | sets the once flag and leaves the rest alone |
| `Checkers.AccumulatedHooks` | submarine_githooks/checker.py:39-40 | adding names widens a restricted checker, and restricts an unrestricted one to exactly the added names |
| `Checkers.GetOrCreateChecker` | submarine_githooks/checker.py:109-120 | a Checker comes back unchanged, a function gets a fresh default Checker, anything else gives ValueError |
| `Checkers.WithFileFilter` | submarine_githooks/checker.py:67-70 | resolves the object, then installs the predicate, keeping hooks and once |
| `Checkers.FilePattern` | submarine_githooks/checker.py:63-71 | the checker becomes active exactly for paths the regex search matches |
| `Checkers.FileExtension` | submarine_githooks/checker.py:73-78 | the checker becomes active exactly for paths whose `splitext` extension is the given one |
| `Checkers.FileName` | submarine_githooks/checker.py:80-85 | the checker becomes active exactly for paths whose last component is listed |
| `Checkers.FileValidate` | submarine_githooks/checker.py:92-100 | the user predicate becomes the file filter |
| `Checkers.Once` | submarine_githooks/checker.py:87-90 | the once flag is set and filter and hooks are kept |
| `Checkers.ActiveHooks` | submarine_githooks/checker.py:102-107 | hook names are appended to the old list, never replacing it |
| `Checkers.JsonContentChecker` | submarine_githooks/contrib/checkers/json_content.py:24-27 | the bundled decorator stack gives a checker for pre-commit only, active exactly for ".json" paths |
| `Contents.Content.FilePath` | submarine_githooks/content.py:48-53 | `file_path` is the first argument, and IndexError exactly when there are no arguments |
| `Contents.Content.DiscoveredMessage` | submarine_githooks/content.py:57-62 | the message is empty exactly for a falsy path, else it holds the relative path |
| `Contents.Content.InactiveMessage` | submarine_githooks/content.py:64-71 | the message is empty exactly for a falsy path, else it names the checker and the path |
| `Contents.Content.ErrorMessage` | submarine_githooks/content.py:73-82 | the message is empty exactly for a falsy path, else it holds hook, checker, path and exception text |
| `Contents.Content.SuccessMessage` | submarine_githooks/content.py:84-89 | the message is empty exactly for a falsy path, else it names the checker and the unrelativised path |
| `Contents.CreateWithHook` | submarine_githooks/content.py:27-38 | only pre-commit builds a content, and only from exactly two arguments (else TypeError); every other hook gives None |
| `Contents.CreatedContentHasPath` | submarine_githooks/content.py:92-97 | a built content's `file_path` is its first argument |
| `Contents.BaseContentIsEmpty` | submarine_githooks/content.py:23-25 | the base content has no arguments, no hook name, and IndexError for its path |
| `Constants.HookNamesDistinct` | submarine_githooks/main.py:26-40 | there are thirteen hook names, all distinct |
| `Constants.HookNamesMembers` | submarine_githooks/main.py:26-40 | every hook the classifier branches on is a hook name |
| `Constants.HookNamesForeign` | submarine_githooks/main.py:26-40 | the empty name and the server-side names `pre-receive` and `update` are not hook names |
| `Classify.EmitOtherHook` | submarine_githooks/content.py:33-38 | for any hook but pre-commit, running candidates through the factory collects nothing and raises nothing |
| `Classify.EmitPreCommit` | submarine_githooks/hooks.py:119-124 | two-argument pre-commit candidates give one content each, in order, carrying that candidate |
| `Classify.EmitPreCommitArity` | submarine_githooks/content.py:94-96 | one pre-commit candidate of the wrong length makes the whole classification fail with TypeError |
| `Classify.EmitFailsWithTypeError` | submarine_githooks/content.py:27-38 | the only exception the factory raises is TypeError |
| `Classify.StagedPathsMembers` | submarine_githooks/hooks.py:120-121 | a path is collected exactly when some entry for it has its staged code `in 'TMARC'` |
| `Classify.StagedPathsLength` | submarine_githooks/hooks.py:120-121 | at most one path per entry, and exactly one each when every entry is staged |
| `Classify.StagedPathsEmpty` | submarine_githooks/hooks.py:120-121 | no path is collected exactly when no entry passes the test |
| `Classify.StagedLetters` | submarine_githooks/hooks.py:121 | the codes T, M, A, R and C pass the test |
| `Classify.UnstagedCodes` | submarine_githooks/hooks.py:121 | " ", "D", "U" and "??" fail the test; the empty code passes it |
| `Classify.StagedExample` | submarine_githooks/hooks.py:120-121 | a status {a: A, b: M, c: ??} gives [a, b] |
| `Classify.PreCommitTuplesShape` | submarine_githooks/content.py:94-96 | one (path, loader) tuple per staged path, in order |
| `Classify.PreCommitTuplesAsWrittenShape` | submarine_githooks/hooks.py:122 | one one-element (path,) tuple per staged path |
| `Classify.EmitAsWritten` | submarine_githooks/hooks.py:122 | with one-argument tuples, classification fails with TypeError exactly when a path is staged |
| `Classify.ClassifyPreCommit` | submarine_githooks/hooks.py:119-124 | the corrected loop gives one content per staged entry, in status order, with that path and its loader |
| `Classify.ClassifyPreCommitAsWritten` | submarine_githooks/hooks.py:119-124 | the loop as written fails with TypeError exactly when some entry is staged, and otherwise gives no content |
| `Classify.ClassifyPostCheckout` | submarine_githooks/hooks.py:130-138 | ValueError unless exactly three trailing arguments, else no content |
| `Classify.GitHeadSourceIsLastMatch` | submarine_githooks/hooks.py:143-146 | nothing is found exactly when no key is `GITHEAD_` plus 40 characters; else the last such key and its value are kept |
| `Classify.ClassifyPostMerge` | submarine_githooks/hooks.py:139-151 | the environment scan and the factory calls give no content and raise nothing |
| `Classify.ParseRefLine` | submarine_githooks/hooks.py:156 | a line not splitting into four space-separated fields gives ValueError |
| `Classify.RefLineRoundTrip` | submarine_githooks/hooks.py:156 | parsing the line Git writes for a ref update gives that update back |
| `Classify.PrePushOnePerUpdate` | submarine_githooks/hooks.py:152-166 | stdin with one line per ref update gives one candidate per update, in order |
| `Classify.PrePushFlags` | submarine_githooks/hooks.py:157-164 | each candidate has eight arguments; the last two say whether the local or the remote id is forty zeros |
| `Classify.RefUpdateTuplesOfLines` | submarine_githooks/hooks.py:155-166 | the scan over well-formed ref lines yields their tuples in order |
| `Classify.RefUpdateTuplesError` | submarine_githooks/hooks.py:156 | the scan can only fail with ValueError |
| `Classify.ClassifyPrePush` | submarine_githooks/hooks.py:152-166 | ValueError for a wrong argv arity or the first malformed line, otherwise no content |
| `Classify.ClassificationShape` | submarine_githooks/hooks.py:117-166 | pre-commit gives one content per staged path; other hooks give none; ValueError only from post-checkout argv or pre-push argv/stdin |
| `Classify.ClassifyContents` | submarine_githooks/hooks.py:117-166 | the branch for the firing hook computes the classification |
| `Discovery.ModuleCheckersMembers` | submarine_githooks/hooks.py:101-104 | a module contributes exactly its attributes that are Checkers active for the hook |
| `Discovery.CollectedMembers` | submarine_githooks/hooks.py:97-104 | a checker is collected exactly when it is an attribute of a `.py` module other than `__init__.py` and is active for the hook |
| `Discovery.CollectCheckers` | submarine_githooks/hooks.py:95-104 | the scan goes module by module, attribute by attribute, and every collected checker is active |
| `Dispatch.ExitCodeIsOne` | submarine_githooks/hooks.py:179-211 | the folded exit code is 1 exactly when some call raised, else 0 |
| `Dispatch.ExitCodeAppend` | submarine_githooks/hooks.py:187 | the exit code of two runs in a row is 1 exactly when either had a raising call |
| `Dispatch.RunPackaged` | submarine_githooks/hooks.py:179-211 | the packaged loop makes exactly the specified calls, checker-major, and exits 1 exactly when one raised |
| `Dispatch.ApplyChecker` | submarine_githooks/hooks.py:181-209 | one checker adds its own calls (once with all arguments, or per accepted content) and keeps the exit code folded |
| `Dispatch.ApplyToContent` | submarine_githooks/hooks.py:193-209 | the checker is called with `(git_repo, hook_name) + arguments` unless the path is truthy and the filter rejects it, and a raise sets the exit code's bit |
| `Dispatch.ContentCallsMembers` | submarine_githooks/hooks.py:192-200 | a per-content checker calls a content exactly when not skipped, with `(git_repo, hook_name) + arguments` |
| `Dispatch.ContentCallsOrdered` | submarine_githooks/hooks.py:192 | a per-content checker's calls go in increasing content order |
| `Dispatch.PackagedCallsOf` | submarine_githooks/hooks.py:180-209 | the calls made for one checker are that checker's own calls, whatever the others do or raise |
| `Dispatch.OnceCheckerCalledOnce` | submarine_githooks/hooks.py:181-184 | a run-once checker is called exactly once, with every content's arguments, even with no contents |
| `Dispatch.PairInvokedUnlessSkipped` | submarine_githooks/hooks.py:191-200 | a per-content checker is called for a content exactly when its path is falsy or the filter accepts it |
| `Dispatch.PackagedCallsCheckerOrder` | submarine_githooks/hooks.py:180 | all calls of an earlier checker come before any call of a later one |
| `Dispatch.RunLegacy` | hooks.py:115-134 | the legacy loop makes exactly the specified calls, content-major, and exits 1 exactly when one raised |
| `Dispatch.ApplyCheckers` | hooks.py:117-132 | one content is offered to every checker in list order, with `(git_repo,) + arguments` |
| `Dispatch.LegacyApplyToContent` | hooks.py:117-132 | the checker is called with `(git_repo,) + arguments` unless the path is truthy and the filter rejects it, and a raise sets the exit code's bit |
| `Dispatch.LegacyContentCallsMembers` | hooks.py:118-125 | a content gets exactly the checkers whose filter does not skip it |
| `Dispatch.LegacyContentCallsIndex` | hooks.py:118 | for one content the checkers are called in increasing list order |
| `Dispatch.LegacyCallsOrder` | hooks.py:116-118 | calls for an earlier content come before any call for a later one |
| `Dispatch.LegacyCallsMembers` | hooks.py:116 | every legacy call is a call of one of the contents |
| `Dispatch.LegacyPairInvokedUnlessSkipped` | hooks.py:116-125 | a (checker, content) pair is called, with no hook name, exactly when the path is falsy or the filter accepts it |
| `Hooks.InstalledHookName` | submarine_githooks/hooks.py:34-37 | installed as `<dir>/<name>`, the script answers to `<name>` |
| `Hooks.DirectHookName` | submarine_githooks/hooks.py:48 | called directly, the first argument names the hook, and with none it is the valid name pre-commit |
| `Hooks.ClassifiedHavePaths` | submarine_githooks/hooks.py:194 | every classified content has a path to test against the filters |
| `Hooks.RunMain` | submarine_githooks/hooks.py:29-211 | no `.git` or an unknown hook name exits 1 with no call; a classification error escapes with no call; otherwise the calls are the dispatch of the collected checkers, and the exit code is 1 exactly when one raised |
| `Hooks.RunHook` | submarine_githooks/hooks.py:95-211 | collection, classification and dispatch for a valid hook name |
| `Hooks.NoContentsOnlyOnce` | submarine_githooks/hooks.py:180-192 | with no contents only run-once checkers are called, each with an empty argument list |
| `Legacy.DebugFlagValues` | hooks.py:28-31 | the debug flag is on exactly for a non-zero integer; unset or non-integer values leave it off |
| `Legacy.LegacyPreCommitTuplesShape` | hooks.py:80-84 | one (root-joined path, loader of the Git path) tuple per staged path |
| `Legacy.LegacyClassificationShape` | hooks.py:77-101 | pre-commit gives one content per staged path; other hooks give none; only post-checkout with a wrong argv raises, with ValueError |
| `Legacy.LegacyClassifiedHavePaths` | hooks.py:119 | every classified content has a path to test against the filters |
| `Legacy.LegacyClassifyPreCommit` | hooks.py:79-86 | the loop collects the specified pre-commit contents |
| `Legacy.LegacyClassifyPostCheckout` | hooks.py:92-101 | ValueError unless exactly three trailing arguments, else no content |
| `Legacy.LegacyClassify` | hooks.py:77-101 | the branch for the hook computes the legacy classification |
| `Legacy.JoinedPathFilters` | hooks.py:81 | the extension and file-name filters judge the root-joined path as they do the Git path |
| `Legacy.RunScript` | hooks.py:28-134 | install test exits 0 with no call; a classification error escapes; no contents exits 0 with no call; otherwise the legacy dispatch, exiting 1 exactly when a call raised |
| `Legacy.RunLegacyHook` | hooks.py:53-134 | collection, classification, the early exit and dispatch for the hook |
| `PyStr.InfixIffWindow` | submarine_githooks/hooks.py:121 | `a in b` on strings holds exactly when `a` occurs at some offset of `b` |
| `PyStr.CharInfix` | submarine_githooks/hooks.py:121 | a one-character string is `in` another exactly when the character occurs in it |
| `PyStr.EmptyInfix` | submarine_githooks/hooks.py:121 | the empty string is `in` every string |
| `PyStr.Split` | submarine_githooks/hooks.py:156 | `split(' ')` gives at least one field and no field holds the separator |
| `PyStr.JoinSplit` | submarine_githooks/hooks.py:156 | joining the fields of a split gives the string back |
| `PyStr.SplitJoin` | submarine_githooks/hooks.py:156 | splitting separator-free fields joined by the separator gives the fields back |
| `PyStr.SplitLines` | submarine_githooks/hooks.py:155 | `splitlines()` gives lines with no line boundary, none for the empty string |
| `PyStr.SplitLinesJoinLines` | submarine_githooks/hooks.py:155 | reading back newline-terminated lines gives exactly those lines |
| `PyStr.Strip` | submarine_githooks/hooks.py:156 | `strip()` gives the substring left after dropping a whitespace-only prefix and a whitespace-only suffix, and it has no whitespace at either end |
| `PyStr.StripUntouched` | submarine_githooks/hooks.py:156 | a string with no whitespace at either end is left alone |
| `PyStr.Basename` | submarine_githooks/checker.py:83 | `os.path.split(p)[-1]` is a suffix with no '/', preceded by '/' when shorter than p |
| `PyStr.Splitext` | submarine_githooks/checker.py:76 | the two parts concatenate to p; the extension is empty or one dot followed by no dot and no '/' |
| `PyStr.ExtensionOfBasename` | submarine_githooks/checker.py:76 | the extension depends only on the last path component |
| `PyStr.SplitextOfParts` | submarine_githooks/checker.py:76 | for a directory that is empty or ends in '/', a stem without '/' holding a character other than '.', and an extension that is one '.' followed by neither '.' nor '/', `splitext` returns exactly (directory + stem, extension) |
| `Checkers.JsonExtensionAccepted` | submarine_githooks/checker.py:73-78 | the ".json" file test accepts "a.json" and "config/b.c.json" |
| `Checkers.JsonExtensionRejected` | submarine_githooks/checker.py:73-78 | the ".json" file test rejects "b.txt" and the hidden file ".json" |
| `PyStr.PathJoin` | hooks.py:81 | `os.path.join(a, b)` ends with b, which is the whole result or follows a '/', and starts with a unless b is absolute |
| `PyStr.JoinedBasename` | hooks.py:81 | a joined path has the last component of its second part |
| `PyStr.ParseInt` | hooks.py:29 | `int(s)` yields a value exactly when the stripped string is digit groups (single `_` between digits), optionally after one `+` or `-` |
| `PyStr.ParseShow` | hooks.py:29 | `int(str(n)) == n` |

## Left out

- Console output, the debug messages and colours, and `print` of the install-test
  value are not modelled; the debug flag changes nothing but output.
- The packaged configuration file and the `SUBMARINE_GITHOOK_*` environment options
  (submarine_githooks/hooks.py:61-89) are left out. They only set `debug`.
- Finding the source root is left out: the upward `.git` search is the parameter
  `rootFound`, and `os.path.relpath(sys.argv[0])` is the parameter `callee`.
- `GitRepo` is left out. Its status map and `changed_files` queries are values of
  `Classify.GitState`; `file_content` appears only as the `Loader` argument.
- The post-checkout path normalisation `relpath(join(root, f), root)` at
  submarine_githooks/hooks.py:135 is dropped, because no post-checkout content is ever
  built.
- `import_module`, `dir()` and `sys.path` are not modelled: a module is its list of
  attributes in `dir()` order. A failing import is not modelled.
- Regular expressions are not modelled: `file_pattern` takes the search as an opaque
  predicate.
- `Text`: how objects that are not strings render in messages is a placeholder.
- `Contents.Content.DiscoveredMessage`, `Contents.Content.InactiveMessage`,
  `Contents.Content.ErrorMessage`: `relpath` is a parameter.
- `Dispatch.RunPackaged`, `Dispatch.RunLegacy`: both require every content to have a
  path. Classification guarantees this (`Hooks.ClassifiedHavePaths`,
  `Legacy.LegacyClassifiedHavePaths`). The IndexError a path-less content would raise
  at `content.file_path` is not modelled.
- `PyStr.ParseInt`: only ASCII digits are accepted, not other Unicode digits.
- `Dispatch.Skipped`: a file filter is a total predicate. In the source the filter
  `is_active_for_file` runs outside the `try` (submarine_githooks/hooks.py:194,
  hooks.py:119), so a `file_validate` predicate or `file_pattern` search that raises
  ends the run with no further pair called. The model does not capture that case.
- `Dispatch.RunPackaged`, `Dispatch.RunLegacy`: only `Exception` is caught
  (submarine_githooks/hooks.py:185, :201; hooks.py:126). A checker that raises
  `SystemExit` or `KeyboardInterrupt` ends the run. In the model every raise is
  caught, so the call-sequence and exit-code lemmas assume neither happens.
- `Checker.__call__` is not modelled. A call is recorded as the callee and its
  arguments, and its outcome comes from `raises`.
- The `name` property (`module.function`, submarine_githooks/checker.py:42-44) is not
  modelled: the message functions take the checker's name as a string.
- The checker functions' own logic is not modelled, including the bundled JSON checker's
  `json.loads`. Only the JSON checker's decorator stack is modelled.
- Concurrency and signals are not modelled: the hooks are single-threaded.
- `submarine_githooks/constants.py` is not part of this model. The hook names are
  taken from the `hook_names` tuple in submarine_githooks/main.py:26-40.
- Where classification reads the environment, the packaged version reads an ordered
  list of pairs (the post-merge scan keeps the last match). The legacy version reads a
  map (`os.environ.get`).

## Findings

| source | as written | input that shows it | evidently intended | confidence | as-written member | corrected member |
|---|---|---|---|---|---|---|
| submarine_githooks/hooks.py:122 | `Content.create_with_hook(hook_name, file_path)` passes one argument, but `PreCommitContent(file_path, content_loader)` needs two, so a TypeError escapes `main()` | a status map with one entry staged as "M" | one pre-commit content per staged file, as the legacy script builds. The bundled checker's signature `(git_repo, hook_name, file_path)` points to a one-argument content instead; the model takes the content class's two arguments | not executed; the bug is certain, the direction of the fix is medium | `Classify.ClassifyPreCommitAsWritten`, `Classify.EmitAsWritten` | `Classify.ClassifyPreCommit` |
