/** Content classification of the packaged entry point: for the firing hook, the
    candidate argument tuples drawn from Git state, argv, the environment and
    stdin, each passed through `Content.create_with_hook`, keeping what is not None.

    Git state is given as plain values: the status map as an ordered list of
    entries, and the two `changed_files` queries as functions. */
module Classify {
  import opened Wrappers
  import opened PyStr
  import opened Contents

  /** One item of `git_repo.status`: a path with its staged and working-tree codes. */
  datatype StatusEntry = StatusEntry(path: string, staged: string, working: string)

  /** The repository queries the classifier makes. */
  datatype GitState = GitState(
    status: seq<StatusEntry>,                       // git_repo.status.items()
    changedFiles: (string, string) -> seq<string>,  // git_repo.changed_files(orig, dest)
    changedSince: string -> seq<string>)            // git_repo.changed_files(commit=c)

  // ---------------------------------------------------------------------------
  // Feeding candidates through create_with_hook

  /** `if content: contents.append(content)` after one `create_with_hook` call,
      or the exception that call raised. */
  function AppendCreated(contents: seq<Content>, created: Result<Option<Content>, PyError>): Result<seq<Content>, PyError> {
    match created
    case Failure(e) => Failure(e)
    case Success(None) => Success(contents)
    case Success(Some(c)) => Success(contents + [c])
  }

  /** The contents that a run over `candidates`, in order, collects (or the first exception). */
  function Emit(hookName: string, candidates: seq<seq<Arg>>): Result<seq<Content>, PyError>
    decreases |candidates|
  {
    if candidates == [] then Success([])
    else
      match Emit(hookName, candidates[..|candidates| - 1])
      case Failure(e) => Failure(e)
      case Success(prev) => AppendCreated(prev, CreateWithHook(hookName, candidates[|candidates| - 1]))
  }

  /** One more candidate: its content is appended to what the others collected. */
  lemma EmitSnoc(hookName: string, candidates: seq<seq<Arg>>, next: seq<Arg>)
    requires Emit(hookName, candidates).Success?
    ensures Emit(hookName, candidates + [next]) ==
            AppendCreated(Emit(hookName, candidates).value, CreateWithHook(hookName, next))
  {
    assert (candidates + [next])[..|candidates|] == candidates;
  }

  /** Only pre-commit ever produces content: for every other hook the factory gives
      None, so whatever the candidates, nothing is collected and nothing is raised. */
  lemma {:induction false} EmitOtherHook(hookName: string, candidates: seq<seq<Arg>>)
    requires hookName != "pre-commit"
    ensures Emit(hookName, candidates) == Success([])
    decreases |candidates|
  {
    if candidates != [] {
      EmitOtherHook(hookName, candidates[..|candidates| - 1]);
    }
  }

  /** For pre-commit, candidates of two arguments each give one content each, in
      order, whose arguments are exactly that candidate. */
  lemma {:induction false} EmitPreCommit(candidates: seq<seq<Arg>>)
    requires forall i :: 0 <= i < |candidates| ==> |candidates[i]| == 2
    ensures Emit("pre-commit", candidates).Success?
    ensures |Emit("pre-commit", candidates).value| == |candidates|
    ensures forall i :: 0 <= i < |candidates| ==>
              Emit("pre-commit", candidates).value[i].Arguments() == candidates[i]
    decreases |candidates|
  {
    if candidates != [] {
      EmitPreCommit(candidates[..|candidates| - 1]);
    }
  }

  /** For pre-commit, one candidate of the wrong length makes the constructor raise
      TypeError, and the whole classification fails with it. */
  lemma {:induction false} EmitPreCommitArity(candidates: seq<seq<Arg>>, k: nat)
    requires k < |candidates| && |candidates[k]| != 2
    ensures Emit("pre-commit", candidates) == Failure(TypeError)
    decreases |candidates|
  {
    var front := candidates[..|candidates| - 1];
    if k < |candidates| - 1 {
      EmitPreCommitArity(front, k);
    } else if Emit("pre-commit", front).Failure? {
      EmitFailsWithTypeError(front);
    }
  }

  /** The only exception create_with_hook raises is TypeError. */
  lemma {:induction false} EmitFailsWithTypeError(candidates: seq<seq<Arg>>)
    ensures Emit("pre-commit", candidates).Failure? ==> Emit("pre-commit", candidates).error == TypeError
    decreases |candidates|
  {
    if candidates != [] {
      EmitFailsWithTypeError(candidates[..|candidates| - 1]);
    }
  }

  // ---------------------------------------------------------------------------
  // pre-commit

  /** `status_staged in 'TMARC'`. */
  predicate IsStaged(entry: StatusEntry) {
    IsInfix(entry.staged, "TMARC")
  }

  /** The paths of the status entries that pass the staged-code test, in order. */
  function StagedPaths(status: seq<StatusEntry>): seq<string>
    decreases |status|
  {
    if status == [] then []
    else
      var last := status[|status| - 1];
      StagedPaths(status[..|status| - 1]) + (if IsStaged(last) then [last.path] else [])
  }

  /** One more entry: its path is appended when it is staged. */
  lemma StagedPathsStep(status: seq<StatusEntry>, i: nat)
    requires i < |status|
    ensures StagedPaths(status[..i + 1]) ==
            StagedPaths(status[..i]) + (if IsStaged(status[i]) then [status[i].path] else [])
  {
    assert status[..i + 1][..i] == status[..i];
  }

  /** A path is collected exactly when some entry for it has a staged code in "TMARC". */
  lemma {:induction false} StagedPathsMembers(status: seq<StatusEntry>, path: string)
    ensures path in StagedPaths(status) <==>
            exists i :: 0 <= i < |status| && status[i].path == path && IsStaged(status[i])
    decreases |status|
  {
    if status != [] {
      var front := status[..|status| - 1];
      StagedPathsMembers(front, path);
      forall i | 0 <= i < |front| ensures front[i] == status[i] { }
    }
  }

  /** One collected path per staged entry: the list is never longer than the status map. */
  lemma {:induction false} StagedPathsLength(status: seq<StatusEntry>)
    ensures |StagedPaths(status)| <= |status|
    ensures (forall i :: 0 <= i < |status| ==> IsStaged(status[i])) ==> |StagedPaths(status)| == |status|
    decreases |status|
  {
    if status != [] {
      var front := status[..|status| - 1];
      StagedPathsLength(front);
      assert forall i :: 0 <= i < |front| ==> front[i] == status[i];
    }
  }

  /** No staged entry at all exactly when no entry passes the staged-code test. */
  lemma {:induction false} StagedPathsEmpty(status: seq<StatusEntry>)
    ensures StagedPaths(status) == [] <==> forall i :: 0 <= i < |status| ==> !IsStaged(status[i])
    decreases |status|
  {
    if status != [] {
      var front := status[..|status| - 1];
      StagedPathsEmpty(front);
      assert forall i :: 0 <= i < |front| ==> front[i] == status[i];
    }
  }

  /** Scanning further can only add paths. */
  lemma {:induction false} StagedPathsGrow(status: seq<StatusEntry>, i: nat)
    requires i <= |status|
    ensures |StagedPaths(status[..i])| <= |StagedPaths(status)|
    decreases |status|
  {
    if i < |status| {
      var front := status[..|status| - 1];
      assert status[..i] == front[..i];
      StagedPathsGrow(front, i);
    } else {
      assert status[..i] == status;
    }
  }

  /** Git's one-letter staged codes: T, M, A, R and C pass. */
  lemma StagedLetters(path: string)
    ensures forall c :: c in "TMARC" ==> IsStaged(StatusEntry(path, [c], [c]))
  {
    forall c | c in "TMARC" ensures IsStaged(StatusEntry(path, [c], [c])) {
      CharInfix(c, "TMARC");
    }
  }

  /** Unmodified (' '), deleted (D), unmerged (U) and untracked ("??") entries do not
      pass; the empty code would, since "" is in every string. */
  lemma UnstagedCodes(path: string, working: string)
    ensures !IsStaged(StatusEntry(path, " ", working)) && !IsStaged(StatusEntry(path, "D", working))
    ensures !IsStaged(StatusEntry(path, "U", working)) && !IsStaged(StatusEntry(path, "??", working))
    ensures IsStaged(StatusEntry(path, "", working))
  {
    assert !IsStaged(StatusEntry(path, " ", working)) by { CharInfix(' ', "TMARC"); }
    assert !IsStaged(StatusEntry(path, "D", working)) by { CharInfix('D', "TMARC"); }
    assert !IsStaged(StatusEntry(path, "U", working)) by { CharInfix('U', "TMARC"); }
    assert !IsStaged(StatusEntry(path, "??", working)) by {
      if IsInfix("??", "TMARC") {
        InfixHead("??", "TMARC");
      }
    }
    EmptyInfix("TMARC");
  }

  /** A status map {a: A, b: M, c: ??} gives a and b, in that order. */
  lemma StagedExample(a: StatusEntry, b: StatusEntry, c: StatusEntry)
    requires a.staged == "A" && b.staged == "M" && c.staged == "??"
    ensures StagedPaths([a, b, c]) == [a.path, b.path]
  {
    var s := [a, b, c];
    assert IsStaged(a) by { CharInfix('A', "TMARC"); }
    assert IsStaged(b) by { CharInfix('M', "TMARC"); }
    assert !IsStaged(c) by {
      if IsInfix("??", "TMARC") {
        InfixHead("??", "TMARC");
      }
    }
    assert s[..2][..1] == [a] && [a][..0] == [];
    assert StagedPaths([a]) == [a.path];
    assert s[..2] == [a, b];
    assert StagedPaths([a, b]) == [a.path, b.path];
  }

  /** The argument tuple this model's packaged pre-commit passes: the path and a
      loader of its staged content, as the legacy entry point does. */
  function PreCommitTuples(paths: seq<string>): seq<seq<Arg>>
    decreases |paths|
  {
    if paths == [] then []
    else
      var p := paths[|paths| - 1];
      PreCommitTuples(paths[..|paths| - 1]) + [[Str(p), Loader(p)]]
  }

  /** The tuple the packaged entry point actually passes: the path alone. */
  function PreCommitTuplesAsWritten(paths: seq<string>): seq<seq<Arg>>
    decreases |paths|
  {
    if paths == [] then []
    else PreCommitTuplesAsWritten(paths[..|paths| - 1]) + [[Str(paths[|paths| - 1])]]
  }

  lemma {:induction false} PreCommitTuplesShape(paths: seq<string>)
    ensures |PreCommitTuples(paths)| == |paths|
    ensures forall i :: 0 <= i < |paths| ==> PreCommitTuples(paths)[i] == [Str(paths[i]), Loader(paths[i])]
    decreases |paths|
  {
    if paths != [] {
      PreCommitTuplesShape(paths[..|paths| - 1]);
    }
  }

  lemma {:induction false} PreCommitTuplesAsWrittenShape(paths: seq<string>)
    ensures |PreCommitTuplesAsWritten(paths)| == |paths|
    ensures forall i :: 0 <= i < |paths| ==> PreCommitTuplesAsWritten(paths)[i] == [Str(paths[i])]
    decreases |paths|
  {
    if paths != [] {
      PreCommitTuplesAsWrittenShape(paths[..|paths| - 1]);
    }
  }

  /** With one-argument tuples, the first path already makes pre-commit raise. */
  lemma EmitAsWritten(paths: seq<string>)
    ensures Emit("pre-commit", PreCommitTuplesAsWritten(paths)) ==
              if paths == [] then Success([]) else Failure(TypeError)
  {
    if paths != [] {
      PreCommitTuplesAsWrittenShape(paths);
      EmitPreCommitArity(PreCommitTuplesAsWritten(paths), 0);
    }
  }

  /** The packaged pre-commit branch with the two-argument tuple: one content per
      staged entry, in status order, each carrying that path and its loader. */
  method ClassifyPreCommit(status: seq<StatusEntry>) returns (r: Result<seq<Content>, PyError>)
    ensures r == Emit("pre-commit", PreCommitTuples(StagedPaths(status)))
    ensures r.Success? && |r.value| == |StagedPaths(status)|
    ensures forall i :: 0 <= i < |r.value| ==>
              r.value[i].Arguments() == [Str(StagedPaths(status)[i]), Loader(StagedPaths(status)[i])]
  {
    r := Success([]);
    var i := 0;
    while i < |status| && r.Success?
      invariant 0 <= i <= |status|
      invariant r == Emit("pre-commit", PreCommitTuples(StagedPaths(status[..i])))
      invariant r.Success?
    {
      var entry := status[i];
      assert status[..i + 1][..i] == status[..i];
      if IsInfix(entry.staged, "TMARC") {
        ghost var paths := StagedPaths(status[..i]);
        ghost var tuples := PreCommitTuples(paths);
        assert (paths + [entry.path])[..|paths|] == paths;
        assert PreCommitTuples(paths + [entry.path]) == tuples + [[Str(entry.path), Loader(entry.path)]];
        assert (tuples + [[Str(entry.path), Loader(entry.path)]])[..|tuples|] == tuples;
        assert StagedPaths(status[..i + 1]) == paths + [entry.path];
        var content := CreateWithHook("pre-commit", [Str(entry.path), Loader(entry.path)]);
        r := AppendCreated(r.value, content);
        assert r == Emit("pre-commit", tuples + [[Str(entry.path), Loader(entry.path)]]);
      } else {
        assert StagedPaths(status[..i + 1]) == StagedPaths(status[..i]);
      }
      i := i + 1;
    }
    assert status[..i] == status;
    PreCommitTuplesShape(StagedPaths(status));
    EmitPreCommit(PreCommitTuples(StagedPaths(status)));
  }

  /** The packaged pre-commit branch exactly as written: the constructor is given one
      argument where it needs two, so the first staged entry raises TypeError, which
      nothing catches; only a status map with no staged entry gets through. */
  method ClassifyPreCommitAsWritten(status: seq<StatusEntry>) returns (r: Result<seq<Content>, PyError>)
    ensures r == Emit("pre-commit", PreCommitTuplesAsWritten(StagedPaths(status)))
    ensures r.Failure? <==> exists i :: 0 <= i < |status| && IsStaged(status[i])
    ensures r.Failure? ==> r.error == TypeError
    ensures r.Success? ==> r.value == []
  {
    r := Success([]);
    var i := 0;
    while i < |status| && r.Success?
      invariant 0 <= i <= |status|
      invariant r == if StagedPaths(status[..i]) == [] then Success([]) else Failure(TypeError)
    {
      var entry := status[i];
      assert status[..i + 1][..i] == status[..i];
      if IsInfix(entry.staged, "TMARC") {
        var content := CreateWithHook("pre-commit", [Str(entry.path)]);
        r := AppendCreated(r.value, content);
      }
      i := i + 1;
    }
    StagedPathsGrow(status, i);
    if i == |status| {
      assert status[..i] == status;
    }
    EmitAsWritten(StagedPaths(status));
    StagedPathsEmpty(status);
  }

  // ---------------------------------------------------------------------------
  // post-checkout

  /** Candidates for every changed file: the path and both commit ids. */
  function PostCheckoutTuples(orig: string, dest: string, files: seq<string>): seq<seq<Arg>>
    decreases |files|
  {
    if files == [] then []
    else PostCheckoutTuples(orig, dest, files[..|files| - 1]) + [[Str(files[|files| - 1]), Str(orig), Str(dest)]]
  }

  /** `orig, dest, flag = sys.argv[1:]` must unpack exactly three values; nothing is a
      candidate unless the flag is "1" (a branch checkout). */
  function PostCheckoutCandidates(trailing: seq<string>, changedFiles: (string, string) -> seq<string>): Result<seq<seq<Arg>>, PyError> {
    if |trailing| != 3 then Failure(ValueError)
    else if trailing[2] != "1" then Success([])
    else Success(PostCheckoutTuples(trailing[0], trailing[1], changedFiles(trailing[0], trailing[1])))
  }

  method ClassifyPostCheckout(trailing: seq<string>, changedFiles: (string, string) -> seq<string>)
    returns (r: Result<seq<Content>, PyError>)
    ensures |trailing| != 3 ==> r == Failure(ValueError)
    ensures |trailing| == 3 ==> r == Success([])
    ensures r == match PostCheckoutCandidates(trailing, changedFiles)
                 case Failure(e) => Failure(e)
                 case Success(cs) => Emit("post-checkout", cs)
  {
    if |trailing| != 3 {
      return Failure(ValueError);
    }
    var origCommitId, destCommitId, branchCheckout := trailing[0], trailing[1], trailing[2] == "1";
    r := Success([]);
    if branchCheckout {
      var files := changedFiles(origCommitId, destCommitId);
      var i := 0;
      while i < |files|
        invariant 0 <= i <= |files|
        invariant r == Success([])
      {
        var content := CreateWithHook("post-checkout", [Str(files[i]), Str(origCommitId), Str(destCommitId)]);
        r := AppendCreated(r.value, content);
        i := i + 1;
      }
      EmitOtherHook("post-checkout", PostCheckoutTuples(origCommitId, destCommitId, files));
    }
  }

  // ---------------------------------------------------------------------------
  // post-merge

  /** `key.startswith('GITHEAD_') and len(key) == 48`. */
  predicate IsGitHeadKey(key: string) {
    IsPrefix("GITHEAD_", key) && |key| == 48
  }

  /** The (commit, branch) of the last GITHEAD_ variable, as the scan leaves them. */
  function GitHeadSource(environ: seq<(string, string)>): Option<(string, string)>
    decreases |environ|
  {
    if environ == [] then None
    else
      var (key, value) := environ[|environ| - 1];
      if IsGitHeadKey(key) then Some((key[8..], value)) else GitHeadSource(environ[..|environ| - 1])
  }

  /** The scan finds nothing exactly when no key matches; otherwise it reports the
      40 characters after "GITHEAD_" of the last matching key, and that key's value. */
  lemma {:induction false} GitHeadSourceIsLastMatch(environ: seq<(string, string)>)
    ensures GitHeadSource(environ).None? <==> forall i :: 0 <= i < |environ| ==> !IsGitHeadKey(environ[i].0)
    ensures GitHeadSource(environ).Some? ==>
              exists i :: 0 <= i < |environ| && IsGitHeadKey(environ[i].0)
                       && environ[i].0 == "GITHEAD_" + GitHeadSource(environ).value.0
                       && GitHeadSource(environ).value.1 == environ[i].1
                       && (forall j :: i < j < |environ| ==> !IsGitHeadKey(environ[j].0))
    ensures GitHeadSource(environ).Some? ==> |GitHeadSource(environ).value.0| == 40
    decreases |environ|
  {
    if environ != [] {
      var front := environ[..|environ| - 1];
      GitHeadSourceIsLastMatch(front);
      assert forall i :: 0 <= i < |front| ==> front[i] == environ[i];
      var key := environ[|environ| - 1].0;
      if IsGitHeadKey(key) {
        assert key == key[..8] + key[8..];
        assert key == "GITHEAD_" + key[8..];
      }
    }
  }

  /** Candidates for every file changed since the source commit: path, commit, squash flag. */
  function PostMergeTuples(commit: string, squash: bool, files: seq<string>): seq<seq<Arg>>
    decreases |files|
  {
    if files == [] then []
    else PostMergeTuples(commit, squash, files[..|files| - 1]) + [[Str(files[|files| - 1]), Str(commit), Flag(squash)]]
  }

  /** `if source_commit and source_branch:` — both must be found and non-empty. */
  function PostMergeCandidates(squash: bool, environ: seq<(string, string)>, changedSince: string -> seq<string>): seq<seq<Arg>> {
    match GitHeadSource(environ)
    case None => []
    case Some((commit, branch)) =>
      if commit != [] && branch != [] then PostMergeTuples(commit, squash, changedSince(commit)) else []
  }

  method ClassifyPostMerge(argv: seq<string>, environ: seq<(string, string)>, changedSince: string -> seq<string>)
    returns (r: Result<seq<Content>, PyError>)
    requires |argv| >= 1
    ensures r == Success([])
    ensures r == Emit("post-merge", PostMergeCandidates(argv[|argv| - 1] == "1", environ, changedSince))
  {
    var sourceCommit: Option<string> := None;
    var sourceBranch: Option<string> := None;
    var squashMerge := argv[|argv| - 1] == "1";
    var i := 0;
    while i < |environ|
      invariant 0 <= i <= |environ|
      invariant sourceCommit.Some? == sourceBranch.Some?
      invariant GitHeadSource(environ[..i]) ==
                  if sourceCommit.Some? then Some((sourceCommit.value, sourceBranch.value)) else None
    {
      var (key, value) := environ[i];
      assert environ[..i + 1][..i] == environ[..i];
      if IsPrefix("GITHEAD_", key) && |key| == 48 {
        sourceCommit := Some(key[8..]);
        sourceBranch := Some(value);
      }
      i := i + 1;
    }
    assert environ[..i] == environ;
    r := Success([]);
    if sourceCommit.Some? && sourceCommit.value != [] && sourceBranch.Some? && sourceBranch.value != [] {
      var commit := sourceCommit.value;
      var files := changedSince(commit);
      var j := 0;
      while j < |files|
        invariant 0 <= j <= |files|
        invariant r == Success([])
      {
        var content := CreateWithHook("post-merge", [Str(files[j]), Str(commit), Flag(squashMerge)]);
        r := AppendCreated(r.value, content);
        j := j + 1;
      }
    }
    EmitOtherHook("post-merge", PostMergeCandidates(squashMerge, environ, changedSince));
  }

  // ---------------------------------------------------------------------------
  // pre-push

  /** One line of pre-push stdin: `<local ref> <local sha> <remote ref> <remote sha>`. */
  datatype RefUpdate = RefUpdate(localRef: string, localCommitId: string, remoteRef: string, remoteCommitId: string)

  /** `'0' * 40`, the id Git gives a ref that does not exist. */
  const NullCommit: string := "0000000000000000000000000000000000000000"

  /** `line.strip().split(' ')` unpacked into exactly four names. */
  function ParseRefLine(line: string): (r: Result<RefUpdate, PyError>)
    ensures r.Failure? ==> r.error == ValueError
  {
    var fields := Split(Strip(line), ' ');
    if |fields| != 4 then Failure(ValueError)
    else Success(RefUpdate(fields[0], fields[1], fields[2], fields[3]))
  }

  /** The eight arguments handed to create_with_hook for one ref update. */
  function PrePushTuple(remoteName: string, remoteUrl: string, u: RefUpdate): seq<Arg> {
    [Str(remoteName), Str(remoteUrl),
     Str(u.localRef), Str(u.localCommitId), Str(u.remoteRef), Str(u.remoteCommitId),
     Flag(u.localCommitId == NullCommit),   // branch_deleted_from_local
     Flag(u.remoteCommitId == NullCommit)]  // new_branch_to_remote
  }

  function PrependAll(done: seq<seq<Arg>>, rest: Result<seq<seq<Arg>>, PyError>): Result<seq<seq<Arg>>, PyError> {
    match rest
    case Failure(e) => Failure(e)
    case Success(cs) => Success(done + cs)
  }

  /** One candidate per stdin line, or ValueError for the first line that does not
      have exactly four fields. */
  function RefUpdateTuples(remoteName: string, remoteUrl: string, lines: seq<string>): Result<seq<seq<Arg>>, PyError>
    decreases |lines|
  {
    if lines == [] then Success([])
    else
      match ParseRefLine(lines[0])
      case Failure(e) => Failure(e)
      case Success(u) => PrependAll([PrePushTuple(remoteName, remoteUrl, u)], RefUpdateTuples(remoteName, remoteUrl, lines[1..]))
  }

  /** `remote_name, remote_url = sys.argv[1:]` must unpack exactly two values. */
  function PrePushCandidates(trailing: seq<string>, stdin: string): Result<seq<seq<Arg>>, PyError> {
    if |trailing| != 2 then Failure(ValueError)
    else RefUpdateTuples(trailing[0], trailing[1], SplitLines(stdin))
  }

  /** A ref field as Git writes it: non-empty, no whitespace. */
  predicate IsRefField(s: string) {
    s != [] && forall k :: 0 <= k < |s| ==> !IsSpace(s[k])
  }

  predicate IsRefUpdate(u: RefUpdate) {
    IsRefField(u.localRef) && IsRefField(u.localCommitId) && IsRefField(u.remoteRef) && IsRefField(u.remoteCommitId)
  }

  /** The line Git writes for a ref update. */
  function RefLine(u: RefUpdate): string {
    u.localRef + " " + u.localCommitId + " " + u.remoteRef + " " + u.remoteCommitId
  }

  /** Every line break is whitespace, so a ref field holds none. */
  lemma RefFieldNoBreak(s: string)
    requires IsRefField(s)
    ensures NoLineBreak(s)
  {
    forall k | 0 <= k < |s| ensures !IsLineBreak(s[k]) {
      assert !IsSpace(s[k]);
    }
  }

  lemma RefLineNoBreak(u: RefUpdate)
    requires IsRefUpdate(u)
    ensures NoLineBreak(RefLine(u))
  {
    RefFieldNoBreak(u.localRef);
    RefFieldNoBreak(u.localCommitId);
    RefFieldNoBreak(u.remoteRef);
    RefFieldNoBreak(u.remoteCommitId);
    assert NoLineBreak(" ");
    NoLineBreakConcat(u.localRef, " ");
    NoLineBreakConcat(u.localRef + " ", u.localCommitId);
    NoLineBreakConcat(u.localRef + " " + u.localCommitId, " ");
    NoLineBreakConcat(u.localRef + " " + u.localCommitId + " ", u.remoteRef);
    NoLineBreakConcat(u.localRef + " " + u.localCommitId + " " + u.remoteRef, " ");
    NoLineBreakConcat(u.localRef + " " + u.localCommitId + " " + u.remoteRef + " ", u.remoteCommitId);
  }

  /** Parsing the line Git writes gives back the ref update it describes. */
  lemma RefLineRoundTrip(u: RefUpdate)
    requires IsRefUpdate(u)
    ensures ParseRefLine(RefLine(u)) == Success(u)
  {
    var line := RefLine(u);
    var a, b, c, d := u.localRef, u.localCommitId, u.remoteRef, u.remoteCommitId;
    var fields := [a, b, c, d];
    assert [c, d][1..] == [d];
    assert Join([c, d], ' ') == c + " " + d;
    assert [b, c, d][1..] == [c, d];
    assert Join([b, c, d], ' ') == b + " " + (c + " " + d);
    assert fields[1..] == [b, c, d];
    assert Join(fields, ' ') == a + " " + (b + " " + (c + " " + d));
    assert Join(fields, ' ') == line;
    assert line[0] == a[0];
    assert line[|line| - 1] == d[|d| - 1];
    StripUntouched(line);
    assert IsSpace(' ');
    forall i | 0 <= i < 4 ensures ' ' !in fields[i] {
      assert IsRefField(fields[i]);
    }
    SplitJoin(fields, ' ');
  }

  function RefLines(updates: seq<RefUpdate>): seq<string>
    decreases |updates|
  {
    if updates == [] then [] else [RefLine(updates[0])] + RefLines(updates[1..])
  }

  function RefTuples(remoteName: string, remoteUrl: string, updates: seq<RefUpdate>): seq<seq<Arg>>
    decreases |updates|
  {
    if updates == [] then [] else [PrePushTuple(remoteName, remoteUrl, updates[0])] + RefTuples(remoteName, remoteUrl, updates[1..])
  }

  lemma {:induction false} RefLinesShape(updates: seq<RefUpdate>)
    ensures |RefLines(updates)| == |updates|
    ensures forall i :: 0 <= i < |updates| ==> RefLines(updates)[i] == RefLine(updates[i])
    decreases |updates|
  {
    if updates != [] {
      RefLinesShape(updates[1..]);
    }
  }

  lemma {:induction false} RefTuplesShape(remoteName: string, remoteUrl: string, updates: seq<RefUpdate>)
    ensures |RefTuples(remoteName, remoteUrl, updates)| == |updates|
    ensures forall i :: 0 <= i < |updates| ==> RefTuples(remoteName, remoteUrl, updates)[i] == PrePushTuple(remoteName, remoteUrl, updates[i])
    decreases |updates|
  {
    if updates != [] {
      RefTuplesShape(remoteName, remoteUrl, updates[1..]);
    }
  }

  /** Stdin holding one line per ref update gives one candidate per update, in order. */
  lemma PrePushOnePerUpdate(remoteName: string, remoteUrl: string, updates: seq<RefUpdate>)
    requires forall i :: 0 <= i < |updates| ==> IsRefUpdate(updates[i])
    ensures PrePushCandidates([remoteName, remoteUrl], JoinLines(RefLines(updates)))
            == Success(RefTuples(remoteName, remoteUrl, updates))
  {
    var lines := RefLines(updates);
    RefLinesShape(updates);
    forall i | 0 <= i < |lines| ensures NoLineBreak(lines[i]) {
      RefLineNoBreak(updates[i]);
    }
    SplitLinesJoinLines(lines);
    RefUpdateTuplesOfLines(remoteName, remoteUrl, updates);
  }

  /** The two flags of each candidate say whether the local id (the branch is deleted
      locally) or the remote id (the branch is new on the remote) is the null commit. */
  lemma PrePushFlags(remoteName: string, remoteUrl: string, updates: seq<RefUpdate>)
    ensures |RefTuples(remoteName, remoteUrl, updates)| == |updates|
    ensures forall i :: 0 <= i < |updates| ==>
              && |RefTuples(remoteName, remoteUrl, updates)[i]| == 8
              && RefTuples(remoteName, remoteUrl, updates)[i][6] == Flag(updates[i].localCommitId == NullCommit)
              && RefTuples(remoteName, remoteUrl, updates)[i][7] == Flag(updates[i].remoteCommitId == NullCommit)
  {
    RefTuplesShape(remoteName, remoteUrl, updates);
  }

  lemma {:induction false} RefUpdateTuplesOfLines(remoteName: string, remoteUrl: string, updates: seq<RefUpdate>)
    requires forall i :: 0 <= i < |updates| ==> IsRefUpdate(updates[i])
    ensures RefUpdateTuples(remoteName, remoteUrl, RefLines(updates)) == Success(RefTuples(remoteName, remoteUrl, updates))
    decreases |updates|
  {
    if updates != [] {
      var lines := RefLines(updates);
      assert ParseRefLine(lines[0]) == Success(updates[0]) by {
        RefLineRoundTrip(updates[0]);
      }
      assert RefUpdateTuples(remoteName, remoteUrl, lines[1..]) == Success(RefTuples(remoteName, remoteUrl, updates[1..])) by {
        assert lines[1..] == RefLines(updates[1..]);
        RefUpdateTuplesOfLines(remoteName, remoteUrl, updates[1..]);
      }
      RefUpdateTuplesCons(remoteName, remoteUrl, lines, updates[0]);
      assert RefTuples(remoteName, remoteUrl, updates)
             == [PrePushTuple(remoteName, remoteUrl, updates[0])] + RefTuples(remoteName, remoteUrl, updates[1..]);
    }
  }

  /** One unfolding of RefUpdateTuples at a line that parses. */
  lemma RefUpdateTuplesCons(remoteName: string, remoteUrl: string, lines: seq<string>, u: RefUpdate)
    requires lines != [] && ParseRefLine(lines[0]) == Success(u)
    ensures RefUpdateTuples(remoteName, remoteUrl, lines)
            == PrependAll([PrePushTuple(remoteName, remoteUrl, u)], RefUpdateTuples(remoteName, remoteUrl, lines[1..]))
  {
  }

  /** One step of the scan: the line at `i` either fails to parse or adds its tuple. */
  lemma RefUpdateTuplesStep(remoteName: string, remoteUrl: string, lines: seq<string>, i: nat)
    requires i < |lines|
    ensures ParseRefLine(lines[i]).Failure? ==> RefUpdateTuples(remoteName, remoteUrl, lines[i..]) == Failure(ValueError)
    ensures ParseRefLine(lines[i]).Success? ==>
              RefUpdateTuples(remoteName, remoteUrl, lines[i..])
              == PrependAll([PrePushTuple(remoteName, remoteUrl, ParseRefLine(lines[i]).value)],
                            RefUpdateTuples(remoteName, remoteUrl, lines[i + 1..]))
  {
    assert lines[i..][0] == lines[i] && lines[i..][1..] == lines[i + 1..];
  }

  lemma PrependAllNil(rest: Result<seq<seq<Arg>>, PyError>)
    ensures PrependAll([], rest) == rest
  {
    if rest.Success? {
      assert [] + rest.value == rest.value;
    }
  }

  lemma PrependAllAssoc(done: seq<seq<Arg>>, t: seq<Arg>, rest: Result<seq<seq<Arg>>, PyError>)
    ensures PrependAll(done, PrependAll([t], rest)) == PrependAll(done + [t], rest)
  {
    if rest.Success? {
      assert done + ([t] + rest.value) == done + [t] + rest.value;
    }
  }

  method ClassifyPrePush(trailing: seq<string>, stdin: string) returns (r: Result<seq<Content>, PyError>)
    ensures r.Success? ==> r.value == []
    ensures r.Success? <==> PrePushCandidates(trailing, stdin).Success?
    ensures r == match PrePushCandidates(trailing, stdin)
                 case Failure(e) => Failure(e)
                 case Success(cs) => Emit("pre-push", cs)
  {
    if |trailing| != 2 {
      return Failure(ValueError);
    }
    var remoteName, remoteUrl := trailing[0], trailing[1];
    var lines := SplitLines(stdin);
    r := Success([]);
    ghost var done: seq<seq<Arg>> := [];
    var i := 0;
    assert lines[i..] == lines;
    PrependAllNil(RefUpdateTuples(remoteName, remoteUrl, lines));
    while i < |lines| && r.Success?
      invariant 0 <= i <= |lines|
      invariant r.Success? ==> r.value == []
      invariant r.Success? ==>
                  RefUpdateTuples(remoteName, remoteUrl, lines) == PrependAll(done, RefUpdateTuples(remoteName, remoteUrl, lines[i..]))
      invariant r.Failure? ==> r == Failure(ValueError) && RefUpdateTuples(remoteName, remoteUrl, lines).Failure?
    {
      var line := lines[i];
      RefUpdateTuplesStep(remoteName, remoteUrl, lines, i);
      var parsed := ParseRefLine(line);
      if parsed.Failure? {
        r := Failure(parsed.error);
        assert PrependAll(done, RefUpdateTuples(remoteName, remoteUrl, lines[i..])) == Failure(ValueError);
      } else {
        var u := parsed.value;
        var branchDeletedFromLocal := u.localCommitId == NullCommit;
        var newBranchToRemote := u.remoteCommitId == NullCommit;
        var args := [Str(remoteName), Str(remoteUrl), Str(u.localRef), Str(u.localCommitId),
                     Str(u.remoteRef), Str(u.remoteCommitId), Flag(branchDeletedFromLocal), Flag(newBranchToRemote)];
        var content := CreateWithHook("pre-push", args);
        r := AppendCreated(r.value, content);
        PrependAllAssoc(done, args, RefUpdateTuples(remoteName, remoteUrl, lines[i + 1..]));
        done := done + [args];
      }
      i := i + 1;
    }
    assert PrePushCandidates(trailing, stdin) == RefUpdateTuples(remoteName, remoteUrl, lines);
    RefUpdateTuplesError(remoteName, remoteUrl, lines);
    if r.Success? {
      assert lines[i..] == [];
      assert RefUpdateTuples(remoteName, remoteUrl, lines) == Success(done + []);
      EmitOtherHook("pre-push", done + []);
    }
  }

  // ---------------------------------------------------------------------------
  // All hooks

  /** The candidate tuples of each hook kind; hooks without a branch have none. */
  function Candidates(hookName: string, argv: seq<string>, environ: seq<(string, string)>, stdin: string, git: GitState): Result<seq<seq<Arg>>, PyError>
    requires |argv| >= 1
  {
    if hookName == "pre-commit" then Success(PreCommitTuples(StagedPaths(git.status)))
    else if hookName == "commit-msg" then Success([[Str(argv[|argv| - 1])]])
    else if hookName == "post-checkout" then PostCheckoutCandidates(argv[1..], git.changedFiles)
    else if hookName == "post-merge" then Success(PostMergeCandidates(argv[|argv| - 1] == "1", environ, git.changedSince))
    else if hookName == "pre-push" then PrePushCandidates(argv[1..], stdin)
    else Success([])
  }

  /** The `contents` list the packaged entry point builds, or the exception that escapes. */
  function Classification(hookName: string, argv: seq<string>, environ: seq<(string, string)>, stdin: string, git: GitState): Result<seq<Content>, PyError>
    requires |argv| >= 1
  {
    match Candidates(hookName, argv, environ, stdin, git)
    case Failure(e) => Failure(e)
    case Success(cs) => Emit(hookName, cs)
  }

  /** What classification yields for each hook: pre-commit gives one content per
      staged entry; every other hook gives none; it raises only ValueError, and only
      when post-checkout's argv does not hold three values or pre-push's argv two
      values and well-formed stdin lines. */
  lemma ClassificationShape(hookName: string, argv: seq<string>, environ: seq<(string, string)>, stdin: string, git: GitState)
    requires |argv| >= 1
    ensures var r := Classification(hookName, argv, environ, stdin, git);
            && (hookName == "pre-commit" ==>
                  r.Success? && |r.value| == |StagedPaths(git.status)|
                  && forall i :: 0 <= i < |r.value| ==>
                       r.value[i].Arguments() == [Str(StagedPaths(git.status)[i]), Loader(StagedPaths(git.status)[i])])
            && (hookName != "pre-commit" && r.Success? ==> r.value == [])
            && (r.Failure? ==> r.error == ValueError)
            && (hookName == "post-checkout" ==> (r.Failure? <==> |argv| != 4))
            && (hookName == "pre-push" ==> (r.Failure? <==> PrePushCandidates(argv[1..], stdin).Failure?))
            && (hookName != "post-checkout" && hookName != "pre-push" ==> r.Success?)
  {
    var c := Candidates(hookName, argv, environ, stdin, git);
    if hookName == "pre-commit" {
      PreCommitTuplesShape(StagedPaths(git.status));
      EmitPreCommit(PreCommitTuples(StagedPaths(git.status)));
    } else if c.Success? {
      EmitOtherHook(hookName, c.value);
    }
    if hookName == "pre-push" && |argv[1..]| == 2 {
      RefUpdateTuplesError(argv[1], argv[2], SplitLines(stdin));
    }
  }

  lemma {:induction false} RefUpdateTuplesError(remoteName: string, remoteUrl: string, lines: seq<string>)
    ensures RefUpdateTuples(remoteName, remoteUrl, lines).Failure? ==> RefUpdateTuples(remoteName, remoteUrl, lines).error == ValueError
    decreases |lines|
  {
    if lines != [] {
      RefUpdateTuplesError(remoteName, remoteUrl, lines[1..]);
    }
  }

  /** The packaged classification step: the branch for the firing hook. */
  method ClassifyContents(hookName: string, argv: seq<string>, environ: seq<(string, string)>, stdin: string, git: GitState)
    returns (r: Result<seq<Content>, PyError>)
    requires |argv| >= 1
    ensures r == Classification(hookName, argv, environ, stdin, git)
  {
    if hookName == "pre-commit" {
      r := ClassifyPreCommit(git.status);
    } else if hookName == "commit-msg" {
      var commitMessageFilePath := argv[|argv| - 1];
      var content := CreateWithHook(hookName, [Str(commitMessageFilePath)]);
      r := AppendCreated([], content);
      assert [[Str(commitMessageFilePath)]][..0] == [];
      assert r == Emit(hookName, [[Str(commitMessageFilePath)]]);
    } else if hookName == "post-checkout" {
      r := ClassifyPostCheckout(argv[1..], git.changedFiles);
      assert Candidates(hookName, argv, environ, stdin, git) == PostCheckoutCandidates(argv[1..], git.changedFiles);
    } else if hookName == "post-merge" {
      r := ClassifyPostMerge(argv, environ, git.changedSince);
      assert Candidates(hookName, argv, environ, stdin, git) == Success(PostMergeCandidates(argv[|argv| - 1] == "1", environ, git.changedSince));
    } else if hookName == "pre-push" {
      r := ClassifyPrePush(argv[1..], stdin);
      assert Candidates(hookName, argv, environ, stdin, git) == PrePushCandidates(argv[1..], stdin);
    } else {
      r := Success([]);
      assert Candidates(hookName, argv, environ, stdin, git) == Success([]);
    }
  }
}
