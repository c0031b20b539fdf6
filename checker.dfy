/** Checkers and the decorators that register them.

    A `Checker` wraps a checker function together with its activation metadata:
    the hooks it runs for (none listed means every hook), a predicate on file
    paths (by default true of every path) and the run-once flag. The decorators
    of `CheckerManager` accept either a plain function, which they wrap in a new
    Checker, or a Checker, which they update in place and hand back. */
module Checkers {
  import opened Wrappers
  import opened PyStr

  /** A checker function, identified by its `__module__` and `__name__`. */
  datatype Callable = Callable(moduleName: string, funcName: string)

  /** What a decorator can be applied to, and what a checker module's attribute can hold. */
  datatype PyObject = CheckerObj(checker: Checker) | FunctionObj(f: Callable) | OtherObj

  /** The test `file_extension(ext)` installs: `os.path.splitext(path)[-1] == ext`. */
  predicate HasExtension(path: string, fileExt: string) {
    Splitext(path).1 == fileExt
  }

  /** The `.json` test accepts a JSON file in the top directory or below. */
  lemma JsonExtensionAccepted()
    ensures HasExtension("a.json", ".json") && HasExtension("config/b.c.json", ".json")
  {
    assert HasExtension("a.json", ".json") by {
      assert [] + "a" + ".json" == "a.json";
      assert "a"[0] != '.';
      SplitextOfParts([], "a", ".json");
    }
    assert "config/" + "b.c" + ".json" == "config/b.c.json";
    assert "b.c"[0] != '.';
    SplitextOfParts("config/", "b.c", ".json");
  }

  /** The `.json` test rejects another extension, and a name that is only a leading dot
      and "json" (a hidden file without extension). */
  lemma JsonExtensionRejected()
    ensures !HasExtension("b.txt", ".json") && !HasExtension(".json", ".json")
  {
    assert !HasExtension("b.txt", ".json") by {
      assert [] + "b" + ".txt" == "b.txt";
      assert "b"[0] != '.';
      SplitextOfParts([], "b", ".txt");
    }
    RFindIs(".json", '/', -1);
    RFindIs(".json", '.', 0);
  }

  /** The test `file_name(*names)` installs: `os.path.split(path)[-1] in names`. */
  predicate HasFileName(path: string, fileNames: seq<string>) {
    Basename(path) in fileNames
  }

  /** `is_active_for_hook`: an empty hook list means every hook. */
  predicate ActiveFor(activeHooks: seq<string>, hookName: string) {
    activeHooks == [] || hookName in activeHooks
  }

  class Checker {
    const callable: Callable
    var isActiveForFile: string -> bool
    var activeHooks: seq<string>
    var once: bool

    /** `Checker(callable_obj)`: active for every file and every hook, not run-once. */
    constructor (callable: Callable)
      ensures this.callable == callable
      ensures forall path :: isActiveForFile(path)
      ensures activeHooks == [] && !once
      ensures forall hookName :: IsActiveForHook(hookName)
    {
      this.callable := callable;
      isActiveForFile := _ => true;
      activeHooks := [];
      once := false;
    }

    predicate IsActiveForHook(hookName: string)
      reads this
    {
      ActiveFor(activeHooks, hookName)
    }

    /** Replaces the file predicate: `checker_obj.is_active_for_file = ...`. */
    method SetFileFilter(pred: string -> bool)
      modifies this
      ensures forall path :: isActiveForFile(path) == pred(path)
      ensures activeHooks == old(activeHooks) && once == old(once)
    {
      isActiveForFile := pred;
    }

    /** `checker_obj.active_hooks += names`. */
    method AddActiveHooks(names: seq<string>)
      modifies this
      ensures activeHooks == old(activeHooks) + names
      ensures forall path :: isActiveForFile(path) == old(isActiveForFile)(path)
      ensures once == old(once)
    {
      activeHooks := activeHooks + names;
    }

    /** `checker_obj.once = True`. */
    method MarkOnce()
      modifies this
      ensures once
      ensures forall path :: isActiveForFile(path) == old(isActiveForFile)(path)
      ensures activeHooks == old(activeHooks)
    {
      once := true;
    }
  }

  /** Adding hook names to a checker that already names some can only widen the set
      of hooks it runs for; adding them to an unrestricted checker restricts it to
      exactly the added names. */
  lemma AccumulatedHooks(activeHooks: seq<string>, names: seq<string>, hookName: string)
    ensures hookName in names ==> ActiveFor(activeHooks + names, hookName)
    ensures activeHooks != [] && ActiveFor(activeHooks, hookName) ==> ActiveFor(activeHooks + names, hookName)
    ensures activeHooks + names != [] ==>
              (ActiveFor(activeHooks + names, hookName) <==> hookName in activeHooks || hookName in names)
  {
  }

  /** The objects a decorator may update: the Checker it was given, if any. */
  function Target(obj: PyObject): set<object> {
    if obj.CheckerObj? then {obj.checker} else {}
  }

  /** The metadata the decorated object has before the decorator runs; a function
      not yet wrapped has the defaults of a fresh Checker. */
  function FilterOf(obj: PyObject): string -> bool
    reads Target(obj)
  {
    if obj.CheckerObj? then obj.checker.isActiveForFile else _ => true
  }

  function HooksOf(obj: PyObject): seq<string>
    reads Target(obj)
  {
    if obj.CheckerObj? then obj.checker.activeHooks else []
  }

  function OnceOf(obj: PyObject): bool
    reads Target(obj)
  {
    obj.CheckerObj? && obj.checker.once
  }

  /** Which Checker `_get_or_create_checker(obj)` stands for: the same object, a new
      wrapper around the function, or a ValueError for anything else. */
  twostate predicate Resolved(obj: PyObject, new r: Result<Checker, PyError>) {
    match obj
    case CheckerObj(c) => r == Success(c)
    case FunctionObj(f) => r.Success? && fresh(r.value) && r.value.callable == f
    case OtherObj => r == Failure(ValueError)
  }

  /** `CheckerManager._get_or_create_checker`, also what `checker(obj)` does. A Checker
      is returned unchanged, so applying it twice is the same as once. */
  method GetOrCreateChecker(obj: PyObject) returns (r: Result<Checker, PyError>)
    ensures Resolved(obj, r)
    ensures r.Success? ==>
              && (forall path :: r.value.isActiveForFile(path) == FilterOf(obj)(path))
              && r.value.activeHooks == HooksOf(obj)
              && r.value.once == OnceOf(obj)
  {
    match obj
    case CheckerObj(c) =>
      r := Success(c);
    case FunctionObj(f) =>
      var c := new Checker(f);
      r := Success(c);
    case OtherObj =>
      r := Failure(ValueError);
  }

  /** Shared by the four file-filter decorators: resolve, then replace the predicate. */
  method WithFileFilter(obj: PyObject, pred: string -> bool) returns (r: Result<Checker, PyError>)
    modifies Target(obj)
    ensures Resolved(obj, r)
    ensures r.Success? ==>
              && (forall path :: r.value.isActiveForFile(path) == pred(path))
              && r.value.activeHooks == old(HooksOf(obj))
              && r.value.once == old(OnceOf(obj))
  {
    r := GetOrCreateChecker(obj);
    if r.Success? {
      r.value.SetFileFilter(pred);
    }
  }

  /** `@checker.file_pattern(regex)`; `search` stands for `regex.search(path) is not None`. */
  method FilePattern(search: string -> bool, obj: PyObject) returns (r: Result<Checker, PyError>)
    modifies Target(obj)
    ensures Resolved(obj, r)
    ensures r.Success? ==>
              && (forall path :: r.value.isActiveForFile(path) == search(path))
              && r.value.activeHooks == old(HooksOf(obj))
              && r.value.once == old(OnceOf(obj))
  {
    r := WithFileFilter(obj, search);
  }

  /** `@checker.file_extension(ext)`: active exactly for paths whose `splitext` extension is `ext`. */
  method FileExtension(fileExt: string, obj: PyObject) returns (r: Result<Checker, PyError>)
    modifies Target(obj)
    ensures Resolved(obj, r)
    ensures r.Success? ==>
              && (forall path :: r.value.isActiveForFile(path) == HasExtension(path, fileExt))
              && r.value.activeHooks == old(HooksOf(obj))
              && r.value.once == old(OnceOf(obj))
  {
    r := WithFileFilter(obj, path => HasExtension(path, fileExt));
  }

  /** `@checker.file_name(*names)`: active exactly for paths whose last component is listed. */
  method FileName(fileNames: seq<string>, obj: PyObject) returns (r: Result<Checker, PyError>)
    modifies Target(obj)
    ensures Resolved(obj, r)
    ensures r.Success? ==>
              && (forall path :: r.value.isActiveForFile(path) == HasFileName(path, fileNames))
              && r.value.activeHooks == old(HooksOf(obj))
              && r.value.once == old(OnceOf(obj))
  {
    r := WithFileFilter(obj, path => HasFileName(path, fileNames));
  }

  /** `@checker.file_validate(pred)`: the user's predicate becomes the file filter. */
  method FileValidate(pred: string -> bool, obj: PyObject) returns (r: Result<Checker, PyError>)
    modifies Target(obj)
    ensures Resolved(obj, r)
    ensures r.Success? ==>
              && (forall path :: r.value.isActiveForFile(path) == pred(path))
              && r.value.activeHooks == old(HooksOf(obj))
              && r.value.once == old(OnceOf(obj))
  {
    r := WithFileFilter(obj, pred);
  }

  /** `@checker.once`: sets the run-once flag and leaves the rest alone. */
  method Once(obj: PyObject) returns (r: Result<Checker, PyError>)
    modifies Target(obj)
    ensures Resolved(obj, r)
    ensures r.Success? ==>
              && r.value.once
              && (forall path :: r.value.isActiveForFile(path) == old(FilterOf(obj))(path))
              && r.value.activeHooks == old(HooksOf(obj))
  {
    r := GetOrCreateChecker(obj);
    if r.Success? {
      r.value.MarkOnce();
    }
  }

  /** `@checker.active_hooks(*names)`: appends to the hook list, never replaces it. */
  method ActiveHooks(names: seq<string>, obj: PyObject) returns (r: Result<Checker, PyError>)
    modifies Target(obj)
    ensures Resolved(obj, r)
    ensures r.Success? ==>
              && r.value.activeHooks == old(HooksOf(obj)) + names
              && (forall path :: r.value.isActiveForFile(path) == old(FilterOf(obj))(path))
              && r.value.once == old(OnceOf(obj))
  {
    r := GetOrCreateChecker(obj);
    if r.Success? {
      r.value.AddActiveHooks(names);
    }
  }

  /** The decorator stack of the bundled JSON checker, applied bottom-up:
      `@checker @checker.active_hooks('pre-commit') @checker.file_extension('.json')`.
      The result runs for pre-commit only, and only on ".json" files. */
  method JsonContentChecker(f: Callable) returns (c: Checker)
    ensures fresh(c) && c.callable == f && !c.once
    ensures c.activeHooks == ["pre-commit"]
    ensures c.IsActiveForHook("pre-commit") && !c.IsActiveForHook("pre-push")
    ensures forall path :: c.isActiveForFile(path) == HasExtension(path, ".json")
  {
    var r1 := FileExtension(".json", FunctionObj(f));
    var r2 := ActiveHooks(["pre-commit"], CheckerObj(r1.value));
    var r3 := GetOrCreateChecker(CheckerObj(r2.value));
    c := r3.value;
  }
}
