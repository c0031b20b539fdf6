/** The content items handed to checkers: the argument tuple a checker is
    called with, the hook that produced it, and console messages about it. */
module Contents {
  import opened Wrappers
  import opened PyStr

  /** The Python values that travel in argument tuples. */
  datatype Arg =
    | Repo                          // the GitRepo handle, always the first checker argument
    | Str(s: string)
    | Flag(b: bool)
    | Loader(path: string)          // `lambda f=path: git_repo.file_content(f)`
    | Tuples(items: seq<seq<Arg>>)  // the argument tuples handed to a run-once checker

  /** Python truthiness: empty strings and False are falsy; objects are truthy. */
  predicate Truthy(a: Arg) {
    match a
    case Str(s) => s != []
    case Flag(b) => b
    case _ => true
  }

  /** What `'{}'.format(a)` prints; the renderings of objects are placeholders. */
  function Text(a: Arg): string {
    match a
    case Str(s) => s
    case Flag(b) => if b then "True" else "False"
    case Repo => "<GitRepo>"
    case Loader(_) => "<function <lambda>>"
    case Tuples(_) => "<map object>"
  }

  /** `Content` (the base class, never built by the hooks) and its only subclass,
      `PreCommitContent(file_path, content_loader)`. */
  datatype Content = BaseContent | PreCommitContent(filePath: Arg, contentLoader: Arg) {

    /** The `arguments` property: the tuple passed to checkers after the fixed ones. */
    function Arguments(): seq<Arg> {
      match this
      case BaseContent => []
      case PreCommitContent(p, l) => [p, l]
    }

    /** The `hook_name` property. */
    function HookName(): Option<string> {
      match this
      case BaseContent => None
      case PreCommitContent(_, _) => Some("pre-commit")
    }

    /** The `file_path` property, `arguments[0]`: IndexError on an empty tuple. */
    function FilePath(): (r: Result<Arg, PyError>)
      ensures r.Success? <==> Arguments() != []
      ensures r.Success? ==> r.value == Arguments()[0]
      ensures r.Failure? ==> r.error == IndexError
    {
      match this
      case BaseContent => Failure(IndexError)
      case PreCommitContent(p, _) => Success(p)
    }

    /** `discovered_message()`; `relpath` stands for `os.path.relpath`. */
    function DiscoveredMessage(relpath: string -> string): (r: Result<string, PyError>)
      ensures r.Failure? <==> Arguments() == []
      ensures r.Success? ==> (r.value == [] <==> !Truthy(Arguments()[0]))
      ensures r.Success? && r.value != [] ==> IsInfix(relpath(Text(Arguments()[0])), r.value)
    {
      match FilePath()
      case Failure(e) => Failure(e)
      case Success(fp) =>
        if Truthy(fp) then
          var path := relpath(Text(fp));
          InfixOfConcat("Found content: ", path, "");
          Success("Found content: " + path + "")
        else Success("")
    }

    /** `inactive_message(checker)`, given the checker's name. */
    function InactiveMessage(checkerName: string, relpath: string -> string): (r: Result<string, PyError>)
      ensures r.Failure? <==> Arguments() == []
      ensures r.Success? ==> (r.value == [] <==> !Truthy(Arguments()[0]))
      ensures r.Success? && r.value != [] ==>
                IsInfix(checkerName, r.value) && IsInfix(relpath(Text(Arguments()[0])), r.value)
    {
      match FilePath()
      case Failure(e) => Failure(e)
      case Success(fp) =>
        if Truthy(fp) then
          var path := relpath(Text(fp));
          var tail := "\" is inactive for \"" + path + "\"";
          var r := "\"" + checkerName + tail;
          InfixOfConcat("\"", checkerName, tail);
          InfixOfConcat("\"" + checkerName + "\" is inactive for \"", path, "\"");
          assert r == "\"" + checkerName + "\" is inactive for \"" + path + "\"";
          Success(r)
        else Success("")
    }

    /** `error_message(checker, exception)`, given the checker's name and `str(exception)`. */
    function ErrorMessage(checkerName: string, exception: string, relpath: string -> string): (r: Result<string, PyError>)
      ensures r.Failure? <==> Arguments() == []
      ensures r.Success? ==> (r.value == [] <==> !Truthy(Arguments()[0]))
      ensures r.Success? && r.value != [] ==>
                && IsInfix(HookNameText(), r.value)
                && IsInfix(checkerName, r.value)
                && IsInfix(relpath(Text(Arguments()[0])), r.value)
                && IsInfix(exception, r.value)
    {
      match FilePath()
      case Failure(e) => Failure(e)
      case Success(fp) =>
        if Truthy(fp) then
          var hook := HookNameText();
          var path := relpath(Text(fp));
          var t5 := "\n" + exception;
          var t4 := path + t5;
          var t3 := "\nfile: " + t4;
          var t2 := checkerName + t3;
          var t1 := " hook fails\nchecker: " + t2;
          var r := hook + t1;
          InfixSelf(hook); InfixExtend(hook, hook, "", t1);
          InfixSelf(checkerName); InfixExtend(checkerName, checkerName, "", t3);
          InfixExtend(checkerName, t2, " hook fails\nchecker: ", "");
          InfixExtend(checkerName, t1, hook, "");
          InfixSelf(path); InfixExtend(path, path, "", t5);
          InfixExtend(path, t4, "\nfile: ", "");
          InfixExtend(path, t3, checkerName, "");
          InfixExtend(path, t2, " hook fails\nchecker: ", "");
          InfixExtend(path, t1, hook, "");
          InfixSelf(exception); InfixExtend(exception, exception, "\n", "");
          InfixExtend(exception, t5, path, "");
          InfixExtend(exception, t4, "\nfile: ", "");
          InfixExtend(exception, t3, checkerName, "");
          InfixExtend(exception, t2, " hook fails\nchecker: ", "");
          InfixExtend(exception, t1, hook, "");
          Success(r)
        else Success("")
    }

    /** `success_message(checker)`: prints the path as given, without `relpath`. */
    function SuccessMessage(checkerName: string): (r: Result<string, PyError>)
      ensures r.Failure? <==> Arguments() == []
      ensures r.Success? ==> (r.value == [] <==> !Truthy(Arguments()[0]))
      ensures r.Success? && r.value != [] ==>
                IsInfix(checkerName, r.value) && IsInfix(Text(Arguments()[0]), r.value)
    {
      match FilePath()
      case Failure(e) => Failure(e)
      case Success(fp) =>
        if Truthy(fp) then
          var path := Text(fp);
          var a := "Invoked \"";
          var b := "\" with \"";
          var c := "\" successfully";
          var u1 := a + checkerName;
          var u2 := u1 + b;
          var u3 := u2 + path;
          var r := u3 + c;
          InfixSelf(checkerName); InfixExtend(checkerName, checkerName, a, "");
          InfixExtend(checkerName, u1, "", b);
          InfixExtend(checkerName, u2, "", path);
          InfixExtend(checkerName, u3, "", c);
          InfixOfConcat(u2, path, c);
          Success(r)
        else Success("")
    }

    /** `'{}'.format(self.hook_name)`. */
    function HookNameText(): string {
      match HookName()
      case None => "None"
      case Some(h) => h
    }
  }

  /** `Content.create_with_hook(hook_name, *args)`: only "pre-commit" selects a class,
      whose constructor takes exactly two arguments; every other hook gives None. */
  function CreateWithHook(hookName: string, args: seq<Arg>): (r: Result<Option<Content>, PyError>)
    ensures hookName != "pre-commit" ==> r == Success(None)
    ensures hookName == "pre-commit" && |args| != 2 ==> r == Failure(TypeError)
    ensures hookName == "pre-commit" && |args| == 2 ==>
              && r.Success? && r.value.Some?
              && r.value.value.Arguments() == args
              && r.value.value.HookName() == Some(hookName)
  {
    if hookName == "pre-commit" then
      if |args| == 2 then Success(Some(PreCommitContent(args[0], args[1]))) else Failure(TypeError)
    else
      Success(None)
  }

  /** A content's path is its first argument, and a built content always has one. */
  lemma CreatedContentHasPath(hookName: string, args: seq<Arg>)
    requires CreateWithHook(hookName, args).Success? && CreateWithHook(hookName, args).value.Some?
    ensures CreateWithHook(hookName, args).value.value.FilePath() == Success(args[0])
  {
  }

  /** The base class carries nothing: no arguments, no hook, and no path. */
  lemma BaseContentIsEmpty()
    ensures BaseContent.Arguments() == [] && BaseContent.HookName() == None
    ensures BaseContent.FilePath() == Failure(IndexError)
  {
  }
}
