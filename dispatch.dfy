/** Dispatch: every collected checker is applied to the classified contents, every
    exception a checker raises is caught and folded into the exit code with
    `exit_code |= 1`, and the loop goes on.

    A checker's outcome is the parameter `raises`, which says for a callee and an
    argument tuple whether that call raises. The sequence of calls made is returned
    as a value of its own, and its specification does not mention `raises`: which
    calls are made never depends on an earlier call failing. */
module Dispatch {
  import opened Wrappers
  import opened Contents
  import opened Checkers

  /** One checker invocation: the position of the checker in `checkers`, the position
      of the content (none for a run-once checker), the callee and its arguments. */
  datatype Call = Call(checker: nat, content: Option<nat>, callee: Callable, args: seq<Arg>)

  /** How an entry point ends: `exit(code)` / `sys.exit(code)`, or an exception
      that escapes it. */
  datatype Outcome = Exit(code: nat) | Raised(error: PyError)

  /** `exit_code |= 1` on a non-negative exit code. */
  function OrOne(exitCode: nat): nat {
    if exitCode % 2 == 1 then exitCode else exitCode + 1
  }

  /** The exit code after the calls, starting from 0. */
  function ExitCodeOf(calls: seq<Call>, raises: (Callable, seq<Arg>) -> bool): nat {
    ExitCodeAfter(calls, |calls|, raises)
  }

  /** The exit code after the first `n` calls. */
  function ExitCodeAfter(calls: seq<Call>, n: nat, raises: (Callable, seq<Arg>) -> bool): nat
    requires n <= |calls|
  {
    if n == 0 then 0
    else
      var prev := ExitCodeAfter(calls, n - 1, raises);
      if raises(calls[n - 1].callee, calls[n - 1].args) then OrOne(prev) else prev
  }

  predicate RaisedSome(calls: seq<Call>, raises: (Callable, seq<Arg>) -> bool) {
    exists i :: 0 <= i < |calls| && raises(calls[i].callee, calls[i].args)
  }

  /** The exit code is 0 or 1, and it is 1 exactly when some call raised. */
  lemma ExitCodeIsOne(calls: seq<Call>, raises: (Callable, seq<Arg>) -> bool)
    ensures ExitCodeOf(calls, raises) == (if RaisedSome(calls, raises) then 1 else 0)
  {
    ExitCodeAfterIsOne(calls, |calls|, raises);
  }

  lemma {:induction false} ExitCodeAfterIsOne(calls: seq<Call>, n: nat, raises: (Callable, seq<Arg>) -> bool)
    requires n <= |calls|
    ensures ExitCodeAfter(calls, n, raises) == (if RaisedSome(calls[..n], raises) then 1 else 0)
  {
    if n > 0 {
      ExitCodeAfterIsOne(calls, n - 1, raises);
      var front := calls[..n - 1];
      assert forall i :: 0 <= i < n - 1 ==> calls[..n][i] == front[i];
      assert calls[..n][n - 1] == calls[n - 1];
    }
  }

  /** Calls made later do not change the exit code of the earlier ones. */
  lemma {:induction false} ExitCodeAfterExtend(calls: seq<Call>, more: seq<Call>, n: nat, raises: (Callable, seq<Arg>) -> bool)
    requires n <= |calls|
    ensures ExitCodeAfter(calls + more, n, raises) == ExitCodeAfter(calls, n, raises)
  {
    if n > 0 {
      ExitCodeAfterExtend(calls, more, n - 1, raises);
      assert (calls + more)[n - 1] == calls[n - 1];
    }
  }

  /** Splitting a run: the exit code of two runs in a row. */
  lemma {:induction false} ExitCodeAppend(a: seq<Call>, b: seq<Call>, raises: (Callable, seq<Arg>) -> bool)
    ensures ExitCodeOf(a + b, raises) == (if RaisedSome(a, raises) || RaisedSome(b, raises) then 1 else 0)
  {
    ExitCodeIsOne(a + b, raises);
    forall i | 0 <= i < |a| ensures (a + b)[i] == a[i] { }
    forall i | 0 <= i < |b| ensures (a + b)[|a| + i] == b[i] { }
  }

  /** `content.file_path and not checker.is_active_for_file(content.file_path)`. */
  predicate Skipped(filter: string -> bool, content: Content)
    requires content.Arguments() != []
  {
    var fp := content.Arguments()[0];
    Truthy(fp) && !filter(Text(fp))
  }

  /** What dispatch reads of a checker: its function, its file filter and its
      run-once flag, taken when the loop reaches it. */
  datatype CheckerView = CheckerView(callable: Callable, filter: string -> bool, once: bool)

  function ViewOf(c: Checker): CheckerView
    reads c
  {
    CheckerView(c.callable, c.isActiveForFile, c.once)
  }

  function Views(checkers: seq<Checker>): (views: seq<CheckerView>)
    reads checkers
    ensures ViewsOf(views, checkers)
    decreases |checkers|
  {
    if checkers == [] then [] else Views(checkers[..|checkers| - 1]) + [ViewOf(checkers[|checkers| - 1])]
  }

  /** `views` is what dispatch reads of `checkers`, position by position. */
  ghost predicate ViewsOf(views: seq<CheckerView>, checkers: seq<Checker>)
    reads checkers
  {
    |views| == |checkers| && forall k :: 0 <= k < |checkers| ==> views[k] == ViewOf(checkers[k])
  }

  /** Contents that have a path, as every content the classifiers build does. */
  predicate HavePaths(contents: seq<Content>) {
    forall i :: 0 <= i < |contents| ==> contents[i].Arguments() != []
  }

  /** `map(lambda _content: _content.arguments, contents)`. */
  function AllArguments(contents: seq<Content>): seq<seq<Arg>>
    decreases |contents|
  {
    if contents == [] then [] else AllArguments(contents[..|contents| - 1]) + [contents[|contents| - 1].Arguments()]
  }

  // ---------------------------------------------------------------------------
  // The packaged entry point: checkers outer, contents inner

  /** The calls a per-content checker at position `k` makes over the first `n` contents. */
  function ContentCalls(k: nat, v: CheckerView, hookName: string, contents: seq<Content>, n: nat): seq<Call>
    requires n <= |contents| && HavePaths(contents)
  {
    if n == 0 then []
    else ContentCalls(k, v, hookName, contents, n - 1) + ContentCall(k, v, hookName, contents[n - 1], n - 1)
  }

  /** The call the checker at position `k` makes for the content at position `i`:
      none when its filter skips the content. */
  function ContentCall(k: nat, v: CheckerView, hookName: string, content: Content, i: nat): seq<Call>
    requires content.Arguments() != []
  {
    if Skipped(v.filter, content) then []
    else [Call(k, Some(i), v.callable, [Repo, Str(hookName)] + content.Arguments())]
  }

  lemma ContentCallsSnoc(k: nat, v: CheckerView, hookName: string, contents: seq<Content>, i: nat)
    requires i < |contents| && HavePaths(contents)
    ensures ContentCalls(k, v, hookName, contents, i + 1)
            == ContentCalls(k, v, hookName, contents, i) + ContentCall(k, v, hookName, contents[i], i)
  {
  }

  /** The calls the checker at position `k` makes: a run-once checker is called once
      with every content's arguments, any other once per content it is active for. */
  function CheckerCalls(k: nat, v: CheckerView, hookName: string, contents: seq<Content>): seq<Call>
    requires HavePaths(contents)
  {
    if v.once then [Call(k, None, v.callable, [Repo, Str(hookName), Tuples(AllArguments(contents))])]
    else ContentCalls(k, v, hookName, contents, |contents|)
  }

  /** The calls of the first `n` checkers, in order. */
  function PackagedCalls(views: seq<CheckerView>, hookName: string, contents: seq<Content>, n: nat): seq<Call>
    requires n <= |views| && HavePaths(contents)
  {
    if n == 0 then []
    else PackagedCalls(views, hookName, contents, n - 1) + CheckerCalls(n - 1, views[n - 1], hookName, contents)
  }

  /** The dispatch loop of the packaged entry point. */
  method RunPackaged(checkers: seq<Checker>, hookName: string, contents: seq<Content>, raises: (Callable, seq<Arg>) -> bool)
    returns (calls: seq<Call>, exitCode: nat)
    requires HavePaths(contents)
    ensures calls == PackagedCalls(Views(checkers), hookName, contents, |checkers|)
    ensures exitCode == (if RaisedSome(calls, raises) then 1 else 0)
  {
    ghost var views := Views(checkers);
    calls := [];
    exitCode := 0;
    var k := 0;
    while k < |checkers|
      invariant 0 <= k <= |checkers|
      invariant ViewsOf(views, checkers)
      invariant calls == PackagedCalls(views, hookName, contents, k)
      invariant exitCode == ExitCodeOf(calls, raises)
    {
      calls, exitCode := ApplyChecker(k, checkers[k], views[k], hookName, contents, raises, calls, exitCode);
      k := k + 1;
    }
    ExitCodeIsOne(calls, raises);
  }

  /** One turn of the outer loop: the checker at position `k` extends the calls made
      so far by its own calls, and each exception it raises sets the exit code's bit. */
  method ApplyChecker(k: nat, checker: Checker, ghost v: CheckerView, hookName: string, contents: seq<Content>,
                      raises: (Callable, seq<Arg>) -> bool, calls0: seq<Call>, exitCode0: nat)
    returns (calls: seq<Call>, exitCode: nat)
    requires v == ViewOf(checker) && HavePaths(contents) && exitCode0 == ExitCodeOf(calls0, raises)
    ensures calls == calls0 + CheckerCalls(k, v, hookName, contents)
    ensures exitCode == ExitCodeOf(calls, raises)
  {
    calls, exitCode := calls0, exitCode0;
    if checker.once {
      var args := [Repo, Str(hookName), Tuples(AllArguments(contents))];
      var call := Call(k, None, checker.callable, args);
      ExitCodeSnoc(calls, call, raises);
      calls := calls + [call];
      if raises(checker.callable, args) {
        exitCode := OrOne(exitCode);
      }
    } else {
      var i := 0;
      while i < |contents|
        invariant 0 <= i <= |contents|
        invariant v == ViewOf(checker)
        invariant calls == calls0 + ContentCalls(k, v, hookName, contents, i)
        invariant exitCode == ExitCodeOf(calls, raises)
      {
        ghost var soFar := ContentCalls(k, v, hookName, contents, i);
        ContentCallsSnoc(k, v, hookName, contents, i);
        calls, exitCode := ApplyToContent(k, checker, v, hookName, contents[i], i, raises, calls, exitCode);
        AppendAssoc(calls0, soFar, ContentCall(k, v, hookName, contents[i], i));
        i := i + 1;
      }
    }
  }

  /** One turn of the inner loop: the checker is called with the content at position
      `i` unless its filter skips it, and an exception sets the exit code's bit. */
  method ApplyToContent(k: nat, checker: Checker, ghost v: CheckerView, hookName: string, content: Content, i: nat,
                        raises: (Callable, seq<Arg>) -> bool, calls0: seq<Call>, exitCode0: nat)
    returns (calls: seq<Call>, exitCode: nat)
    requires v == ViewOf(checker) && content.Arguments() != [] && exitCode0 == ExitCodeOf(calls0, raises)
    ensures calls == calls0 + ContentCall(k, v, hookName, content, i)
    ensures exitCode == ExitCodeOf(calls, raises)
  {
    calls, exitCode := calls0, exitCode0;
    var filePath := content.Arguments()[0];
    if !(Truthy(filePath) && !checker.isActiveForFile(Text(filePath))) {
      var args := [Repo, Str(hookName)] + content.Arguments();
      var call := Call(k, Some(i), checker.callable, args);
      ExitCodeSnoc(calls, call, raises);
      calls := calls + [call];
      if raises(checker.callable, args) {
        exitCode := OrOne(exitCode);
      }
    }
  }

  lemma AppendAssoc<T>(a: seq<T>, b: seq<T>, c: seq<T>)
    ensures a + b + c == a + (b + c)
  {
  }

  /** One more call: the exit code is OR-ed with 1 exactly when that call raises. */
  lemma ExitCodeSnoc(calls: seq<Call>, call: Call, raises: (Callable, seq<Arg>) -> bool)
    ensures ExitCodeOf(calls + [call], raises)
            == if raises(call.callee, call.args) then OrOne(ExitCodeOf(calls, raises)) else ExitCodeOf(calls, raises)
  {
    ExitCodeAfterExtend(calls, [call], |calls|, raises);
    assert (calls + [call])[|calls|] == call;
  }

  /** A per-content checker calls exactly the contents it is not skipped for, in order. */
  lemma {:induction false} ContentCallsMembers(k: nat, v: CheckerView, hookName: string, contents: seq<Content>, n: nat, call: Call)
    requires n <= |contents| && HavePaths(contents)
    ensures call in ContentCalls(k, v, hookName, contents, n) <==>
              exists i :: 0 <= i < n && !Skipped(v.filter, contents[i])
                       && call == Call(k, Some(i), v.callable, [Repo, Str(hookName)] + contents[i].Arguments())
    decreases n
  {
    if n > 0 {
      ContentCallsMembers(k, v, hookName, contents, n - 1, call);
    }
  }

  /** Every call a per-content checker makes is for one of the contents it is not
      skipped for, in increasing content order. */
  lemma {:induction false} ContentCallsOrdered(k: nat, v: CheckerView, hookName: string, contents: seq<Content>, n: nat)
    requires n <= |contents| && HavePaths(contents)
    ensures |ContentCalls(k, v, hookName, contents, n)| <= n
    ensures forall a :: 0 <= a < |ContentCalls(k, v, hookName, contents, n)| ==>
              && ContentCalls(k, v, hookName, contents, n)[a].checker == k
              && ContentCalls(k, v, hookName, contents, n)[a].content.Some?
              && ContentCalls(k, v, hookName, contents, n)[a].content.value < n
    ensures forall a, b :: 0 <= a < b < |ContentCalls(k, v, hookName, contents, n)| ==>
              ContentCalls(k, v, hookName, contents, n)[a].content.value < ContentCalls(k, v, hookName, contents, n)[b].content.value
    decreases n
  {
    if n > 0 {
      ContentCallsOrdered(k, v, hookName, contents, n - 1);
    }
  }

  /** The calls made for the checker at position `k`. */
  function CallsOf(calls: seq<Call>, k: nat): seq<Call>
    decreases |calls|
  {
    if calls == [] then []
    else CallsOf(calls[..|calls| - 1], k) + (if calls[|calls| - 1].checker == k then [calls[|calls| - 1]] else [])
  }

  lemma {:induction false} CallsOfAppend(a: seq<Call>, b: seq<Call>, k: nat)
    ensures CallsOf(a + b, k) == CallsOf(a, k) + CallsOf(b, k)
    decreases |b|
  {
    if b != [] {
      assert (a + b)[..|a + b| - 1] == a + b[..|b| - 1];
      CallsOfAppend(a, b[..|b| - 1], k);
    } else {
      assert a + b == a;
    }
  }

  lemma {:induction false} CallsOfAll(calls: seq<Call>, k: nat)
    requires forall a :: 0 <= a < |calls| ==> calls[a].checker == k
    ensures CallsOf(calls, k) == calls
    decreases |calls|
  {
    if calls != [] {
      CallsOfAll(calls[..|calls| - 1], k);
    }
  }

  lemma {:induction false} CallsOfNone(calls: seq<Call>, k: nat)
    requires forall a :: 0 <= a < |calls| ==> calls[a].checker != k
    ensures CallsOf(calls, k) == []
    decreases |calls|
  {
    if calls != [] {
      CallsOfNone(calls[..|calls| - 1], k);
    }
  }

  lemma CheckerCallsIndex(k: nat, v: CheckerView, hookName: string, contents: seq<Content>)
    requires HavePaths(contents)
    ensures forall a :: 0 <= a < |CheckerCalls(k, v, hookName, contents)| ==> CheckerCalls(k, v, hookName, contents)[a].checker == k
  {
    if !v.once {
      ContentCallsOrdered(k, v, hookName, contents, |contents|);
    }
  }

  lemma {:induction false} PackagedCallsIndex(views: seq<CheckerView>, hookName: string, contents: seq<Content>, n: nat)
    requires n <= |views| && HavePaths(contents)
    ensures forall a :: 0 <= a < |PackagedCalls(views, hookName, contents, n)| ==>
              PackagedCalls(views, hookName, contents, n)[a].checker < n
    decreases n
  {
    if n > 0 {
      PackagedCallsIndex(views, hookName, contents, n - 1);
      CheckerCallsIndex(n - 1, views[n - 1], hookName, contents);
    }
  }

  /** In the packaged run, the calls made for the checker at position `k` are
      exactly the calls that checker makes on its own, whatever the others do. */
  lemma {:induction false} PackagedCallsOf(views: seq<CheckerView>, hookName: string, contents: seq<Content>, n: nat, k: nat)
    requires k < n <= |views| && HavePaths(contents)
    ensures CallsOf(PackagedCalls(views, hookName, contents, n), k) == CheckerCalls(k, views[k], hookName, contents)
    decreases n
  {
    var front := PackagedCalls(views, hookName, contents, n - 1);
    var mine := CheckerCalls(n - 1, views[n - 1], hookName, contents);
    assert PackagedCalls(views, hookName, contents, n) == front + mine;
    CheckerCallsIndex(n - 1, views[n - 1], hookName, contents);
    if k < n - 1 {
      PackagedCallsOf(views, hookName, contents, n - 1, k);
      CallsOfOther(front, mine, k, n - 1);
    } else {
      PackagedCallsIndex(views, hookName, contents, n - 1);
      CallsOfLast(front, mine, k);
    }
  }

  /** Appending calls of another checker leaves a checker's calls alone. */
  lemma CallsOfOther(front: seq<Call>, mine: seq<Call>, k: nat, j: nat)
    requires k != j && forall a :: 0 <= a < |mine| ==> mine[a].checker == j
    ensures CallsOf(front + mine, k) == CallsOf(front, k)
  {
    CallsOfAppend(front, mine, k);
    CallsOfNone(mine, k);
  }

  /** Appending a checker's calls after those of earlier checkers only. */
  lemma CallsOfLast(front: seq<Call>, mine: seq<Call>, k: nat)
    requires forall a :: 0 <= a < |front| ==> front[a].checker < k
    requires forall a :: 0 <= a < |mine| ==> mine[a].checker == k
    ensures CallsOf(front + mine, k) == mine
  {
    CallsOfAppend(front, mine, k);
    CallsOfNone(front, k);
    CallsOfAll(mine, k);
  }

  /** A run-once checker is called exactly once, with the hook name and the
      arguments of every content, even when there are no contents. */
  lemma OnceCheckerCalledOnce(views: seq<CheckerView>, hookName: string, contents: seq<Content>, k: nat)
    requires k < |views| && HavePaths(contents) && views[k].once
    ensures CallsOf(PackagedCalls(views, hookName, contents, |views|), k)
            == [Call(k, None, views[k].callable, [Repo, Str(hookName), Tuples(AllArguments(contents))])]
  {
    PackagedCallsOf(views, hookName, contents, |views|, k);
  }

  /** A per-content checker is called with a content exactly when that content's
      path is falsy or its file filter accepts the path. */
  lemma PairInvokedUnlessSkipped(views: seq<CheckerView>, hookName: string, contents: seq<Content>, k: nat, i: nat)
    requires k < |views| && i < |contents| && HavePaths(contents) && !views[k].once
    ensures Call(k, Some(i), views[k].callable, [Repo, Str(hookName)] + contents[i].Arguments())
              in PackagedCalls(views, hookName, contents, |views|)
            <==> !Skipped(views[k].filter, contents[i])
  {
    var call := Call(k, Some(i), views[k].callable, [Repo, Str(hookName)] + contents[i].Arguments());
    var all := PackagedCalls(views, hookName, contents, |views|);
    PackagedCallsOf(views, hookName, contents, |views|, k);
    ContentCallsMembers(k, views[k], hookName, contents, |contents|, call);
    CallsOfMembers(all, k, call);
  }

  lemma {:induction false} CallsOfMembers(calls: seq<Call>, k: nat, call: Call)
    ensures call in CallsOf(calls, k) <==> call in calls && call.checker == k
    decreases |calls|
  {
    if calls != [] {
      var front := calls[..|calls| - 1];
      CallsOfMembers(front, k, call);
      assert calls == front + [calls[|calls| - 1]];
    }
  }

  /** The packaged run is checker-major: all calls of an earlier checker come before
      any call of a later one. */
  lemma {:induction false} PackagedCallsCheckerOrder(views: seq<CheckerView>, hookName: string, contents: seq<Content>, n: nat)
    requires n <= |views| && HavePaths(contents)
    ensures forall a, b :: 0 <= a < b < |PackagedCalls(views, hookName, contents, n)| ==>
              PackagedCalls(views, hookName, contents, n)[a].checker <= PackagedCalls(views, hookName, contents, n)[b].checker
    decreases n
  {
    if n > 0 {
      var front := PackagedCalls(views, hookName, contents, n - 1);
      var mine := CheckerCalls(n - 1, views[n - 1], hookName, contents);
      PackagedCallsCheckerOrder(views, hookName, contents, n - 1);
      PackagedCallsIndex(views, hookName, contents, n - 1);
      CheckerCallsIndex(n - 1, views[n - 1], hookName, contents);
      CheckerOrderConcat(front, mine, n - 1);
      assert PackagedCalls(views, hookName, contents, n) == front + mine;
    } else {
      assert PackagedCalls(views, hookName, contents, n) == [];
    }
  }

  /** Calls in checker order stay in checker order when the calls of a later checker
      follow them. */
  lemma CheckerOrderConcat(front: seq<Call>, mine: seq<Call>, j: nat)
    requires forall a, b :: 0 <= a < b < |front| ==> front[a].checker <= front[b].checker
    requires forall a :: 0 <= a < |front| ==> front[a].checker < j
    requires forall a :: 0 <= a < |mine| ==> mine[a].checker == j
    ensures forall a, b :: 0 <= a < b < |front + mine| ==> (front + mine)[a].checker <= (front + mine)[b].checker
  {
    var all := front + mine;
    forall a, b | 0 <= a < b < |all| ensures all[a].checker <= all[b].checker {
      if b >= |front| {
        assert all[b] == mine[b - |front|];
        if a >= |front| {
          assert all[a] == mine[a - |front|];
        }
      }
    }
  }

  // ---------------------------------------------------------------------------
  // The legacy entry script: contents outer, checkers inner, no hook name

  /** The calls the content at position `i` gets from the first `n` checkers. */
  function LegacyContentCalls(i: nat, content: Content, views: seq<CheckerView>, n: nat): seq<Call>
    requires n <= |views| && content.Arguments() != []
  {
    if n == 0 then []
    else
      LegacyContentCalls(i, content, views, n - 1) + LegacyCall(i, content, n - 1, views[n - 1])
  }

  /** The call the checker at position `k` makes for the content at position `i`:
      none when its filter skips the content. */
  function LegacyCall(i: nat, content: Content, k: nat, v: CheckerView): seq<Call>
    requires content.Arguments() != []
  {
    if Skipped(v.filter, content) then [] else [Call(k, Some(i), v.callable, [Repo] + content.Arguments())]
  }

  /** The calls of the first `m` contents, in order. */
  function LegacyCalls(contents: seq<Content>, views: seq<CheckerView>, m: nat): seq<Call>
    requires m <= |contents| && HavePaths(contents)
  {
    if m == 0 then []
    else LegacyCalls(contents, views, m - 1) + LegacyContentCalls(m - 1, contents[m - 1], views, |views|)
  }

  lemma LegacyCallsSnoc(contents: seq<Content>, views: seq<CheckerView>, i: nat)
    requires i < |contents| && HavePaths(contents)
    ensures LegacyCalls(contents, views, i + 1) == LegacyCalls(contents, views, i) + LegacyContentCalls(i, contents[i], views, |views|)
  {
  }

  /** The dispatch loop of the legacy script; the run-once flag plays no part. */
  method RunLegacy(contents: seq<Content>, checkers: seq<Checker>, raises: (Callable, seq<Arg>) -> bool)
    returns (calls: seq<Call>, exitCode: nat)
    requires HavePaths(contents)
    ensures calls == LegacyCalls(contents, Views(checkers), |contents|)
    ensures exitCode == (if RaisedSome(calls, raises) then 1 else 0)
  {
    ghost var views := Views(checkers);
    calls := [];
    exitCode := 0;
    var i := 0;
    while i < |contents|
      invariant 0 <= i <= |contents|
      invariant ViewsOf(views, checkers)
      invariant calls == LegacyCalls(contents, views, i)
      invariant exitCode == ExitCodeOf(calls, raises)
    {
      ghost var before := calls;
      LegacyCallsSnoc(contents, views, i);
      calls, exitCode := ApplyCheckers(i, contents[i], checkers, views, raises, calls, exitCode);
      i := i + 1;
    }
    ExitCodeIsOne(calls, raises);
  }

  /** One turn of the legacy outer loop: the content at position `i` is offered to
      every checker in turn. */
  method ApplyCheckers(i: nat, content: Content, checkers: seq<Checker>, ghost views: seq<CheckerView>,
                       raises: (Callable, seq<Arg>) -> bool, calls0: seq<Call>, exitCode0: nat)
    returns (calls: seq<Call>, exitCode: nat)
    requires content.Arguments() != [] && exitCode0 == ExitCodeOf(calls0, raises)
    requires ViewsOf(views, checkers)
    ensures calls == calls0 + LegacyContentCalls(i, content, views, |views|)
    ensures exitCode == ExitCodeOf(calls, raises)
  {
    calls, exitCode := calls0, exitCode0;
    var k := 0;
    while k < |checkers|
      invariant 0 <= k <= |checkers|
      invariant ViewsOf(views, checkers)
      invariant calls == calls0 + LegacyContentCalls(i, content, views, k)
      invariant exitCode == ExitCodeOf(calls, raises)
    {
      ghost var soFar := LegacyContentCalls(i, content, views, k);
      LegacyContentCallsSnoc(i, content, views, k);
      calls, exitCode := LegacyApplyToContent(i, content, k, checkers[k], views[k], raises, calls, exitCode);
      AppendAssoc(calls0, soFar, LegacyCall(i, content, k, views[k]));
      k := k + 1;
    }
  }

  lemma LegacyContentCallsSnoc(i: nat, content: Content, views: seq<CheckerView>, k: nat)
    requires k < |views| && content.Arguments() != []
    ensures LegacyContentCalls(i, content, views, k + 1) == LegacyContentCalls(i, content, views, k) + LegacyCall(i, content, k, views[k])
  {
  }

  /** One turn of the legacy inner loop: the checker at position `k` is called with the
      content unless its filter skips it, and an exception sets the exit code's bit. */
  method LegacyApplyToContent(i: nat, content: Content, k: nat, checker: Checker, ghost v: CheckerView,
                              raises: (Callable, seq<Arg>) -> bool, calls0: seq<Call>, exitCode0: nat)
    returns (calls: seq<Call>, exitCode: nat)
    requires v == ViewOf(checker) && content.Arguments() != [] && exitCode0 == ExitCodeOf(calls0, raises)
    ensures calls == calls0 + LegacyCall(i, content, k, v)
    ensures exitCode == ExitCodeOf(calls, raises)
  {
    calls, exitCode := calls0, exitCode0;
    var filePath := content.Arguments()[0];
    if !(Truthy(filePath) && !checker.isActiveForFile(Text(filePath))) {
      var args := [Repo] + content.Arguments();
      var call := Call(k, Some(i), checker.callable, args);
      ExitCodeSnoc(calls, call, raises);
      calls := calls + [call];
      if raises(checker.callable, args) {
        exitCode := OrOne(exitCode);
      }
    }
  }

  /** A content gets exactly the checkers whose filter does not skip it, with the
      arguments `(git_repo,) + content.arguments`. */
  lemma {:induction false} LegacyContentCallsMembers(i: nat, content: Content, views: seq<CheckerView>, n: nat, call: Call)
    requires n <= |views| && content.Arguments() != []
    ensures call in LegacyContentCalls(i, content, views, n) <==>
              exists k :: 0 <= k < n && !Skipped(views[k].filter, content)
                       && call == Call(k, Some(i), views[k].callable, [Repo] + content.Arguments())
    decreases n
  {
    if n > 0 {
      LegacyContentCallsMembers(i, content, views, n - 1, call);
    }
  }

  lemma {:induction false} LegacyContentCallsIndex(i: nat, content: Content, views: seq<CheckerView>, n: nat)
    requires n <= |views| && content.Arguments() != []
    ensures forall a :: 0 <= a < |LegacyContentCalls(i, content, views, n)| ==>
              && LegacyContentCalls(i, content, views, n)[a].content == Some(i)
              && LegacyContentCalls(i, content, views, n)[a].checker < n
    ensures forall a, b :: 0 <= a < b < |LegacyContentCalls(i, content, views, n)| ==>
              LegacyContentCalls(i, content, views, n)[a].checker < LegacyContentCalls(i, content, views, n)[b].checker
    decreases n
  {
    if n > 0 {
      LegacyContentCallsIndex(i, content, views, n - 1);
    }
  }

  lemma {:induction false} LegacyCallsIndex(contents: seq<Content>, views: seq<CheckerView>, m: nat)
    requires m <= |contents| && HavePaths(contents)
    ensures forall a :: 0 <= a < |LegacyCalls(contents, views, m)| ==>
              LegacyCalls(contents, views, m)[a].content.Some? && LegacyCalls(contents, views, m)[a].content.value < m
    decreases m
  {
    if m > 0 {
      LegacyCallsIndex(contents, views, m - 1);
      LegacyContentCallsIndex(m - 1, contents[m - 1], views, |views|);
    }
  }

  /** The legacy run is content-major: calls for an earlier content come before any
      call for a later one, and for one content the checkers go in list order. */
  lemma {:induction false} LegacyCallsOrder(contents: seq<Content>, views: seq<CheckerView>, m: nat)
    requires m <= |contents| && HavePaths(contents)
    ensures forall a, b :: 0 <= a < b < |LegacyCalls(contents, views, m)| ==>
              var x, y := LegacyCalls(contents, views, m)[a], LegacyCalls(contents, views, m)[b];
              x.content.Some? && y.content.Some? &&
              (x.content.value < y.content.value || (x.content == y.content && x.checker < y.checker))
    decreases m
  {
    if m > 0 {
      var front := LegacyCalls(contents, views, m - 1);
      var mine := LegacyContentCalls(m - 1, contents[m - 1], views, |views|);
      LegacyCallsOrder(contents, views, m - 1);
      LegacyCallsIndex(contents, views, m - 1);
      LegacyContentCallsIndex(m - 1, contents[m - 1], views, |views|);
      ContentOrderConcat(front, mine, m - 1);
      assert LegacyCalls(contents, views, m) == front + mine;
    } else {
      assert LegacyCalls(contents, views, m) == [];
    }
  }

  /** Calls in content order stay in content order when calls for a later content,
      in checker order, follow them. */
  lemma ContentOrderConcat(front: seq<Call>, mine: seq<Call>, j: nat)
    requires forall a, b :: 0 <= a < b < |front| ==>
               front[a].content.Some? && front[b].content.Some? &&
               (front[a].content.value < front[b].content.value || (front[a].content == front[b].content && front[a].checker < front[b].checker))
    requires forall a :: 0 <= a < |front| ==> front[a].content.Some? && front[a].content.value < j
    requires forall a :: 0 <= a < |mine| ==> mine[a].content == Some(j)
    requires forall a, b :: 0 <= a < b < |mine| ==> mine[a].checker < mine[b].checker
    ensures forall a, b :: 0 <= a < b < |front + mine| ==>
              var x, y := (front + mine)[a], (front + mine)[b];
              x.content.Some? && y.content.Some? &&
              (x.content.value < y.content.value || (x.content == y.content && x.checker < y.checker))
  {
    var all := front + mine;
    forall a, b | 0 <= a < b < |all|
      ensures all[a].content.Some? && all[b].content.Some? &&
              (all[a].content.value < all[b].content.value || (all[a].content == all[b].content && all[a].checker < all[b].checker))
    {
      if b >= |front| {
        assert all[b] == mine[b - |front|];
        if a >= |front| {
          assert all[a] == mine[a - |front|];
        }
      }
    }
  }

  lemma {:induction false} LegacyCallsMembers(contents: seq<Content>, views: seq<CheckerView>, m: nat, call: Call)
    requires m <= |contents| && HavePaths(contents)
    ensures call in LegacyCalls(contents, views, m) <==>
              exists i :: 0 <= i < m && call in LegacyContentCalls(i, contents[i], views, |views|)
    decreases m
  {
    if m > 0 {
      var front := LegacyCalls(contents, views, m - 1);
      var mine := LegacyContentCalls(m - 1, contents[m - 1], views, |views|);
      assert LegacyCalls(contents, views, m) == front + mine;
      assert call in front + mine <==> call in front || call in mine;
      LegacyCallsMembers(contents, views, m - 1, call);
      if call in mine {
        assert 0 <= m - 1 < m && call in LegacyContentCalls(m - 1, contents[m - 1], views, |views|);
      } else {
        forall i | 0 <= i < m && call in LegacyContentCalls(i, contents[i], views, |views|) ensures i < m - 1 { }
      }
    }
  }

  /** In the legacy run a (checker, content) pair is invoked, with no hook name,
      exactly when the content's path is falsy or the checker's filter accepts it. */
  lemma LegacyPairInvokedUnlessSkipped(contents: seq<Content>, views: seq<CheckerView>, i: nat, k: nat)
    requires i < |contents| && k < |views| && HavePaths(contents)
    ensures Call(k, Some(i), views[k].callable, [Repo] + contents[i].Arguments())
              in LegacyCalls(contents, views, |contents|)
            <==> !Skipped(views[k].filter, contents[i])
  {
    var call := Call(k, Some(i), views[k].callable, [Repo] + contents[i].Arguments());
    LegacyCallsMembers(contents, views, |contents|, call);
    LegacyContentCallsMembers(i, contents[i], views, |views|, call);
    forall j | 0 <= j < |contents| && call in LegacyContentCalls(j, contents[j], views, |views|)
      ensures j == i
    {
      LegacyContentCallsMembers(j, contents[j], views, |views|, call);
    }
  }
}
