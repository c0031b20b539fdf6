/** Checker discovery: every `.py` module of the checkers directory except
    `__init__.py` is imported, and each of its attributes that is a Checker active
    for the firing hook is collected, module by module and attribute by attribute.
    The directory listing and the module's attributes are given as values. */
module Discovery {
  import opened PyStr
  import opened Checkers

  /** One file of the checkers directory and, for a module, what `dir()` lists in it. */
  datatype CheckerUnit = CheckerUnit(fileName: string, attrs: seq<PyObject>)

  /** `checker_path.endswith('.py') and checker_path != '__init__.py'`. */
  predicate IsCheckerModule(fileName: string) {
    IsSuffix(".py", fileName) && fileName != "__init__.py"
  }

  /** Every Checker object the units mention. */
  function CheckerRefs(units: seq<CheckerUnit>): set<object> {
    set i, j | 0 <= i < |units| && 0 <= j < |units[i].attrs| && units[i].attrs[j].CheckerObj? :: units[i].attrs[j].checker
  }

  function AttrRefs(attrs: seq<PyObject>): set<object> {
    set j | 0 <= j < |attrs| && attrs[j].CheckerObj? :: attrs[j].checker
  }

  /** The checkers the units mention exist before the scan; knowing it lets a
      caller carry `Collected` across calls that change nothing. */
  lemma CheckerRefsAllocated(units: seq<CheckerUnit>)
    ensures forall o :: o in CheckerRefs(units) ==> allocated(o)
  {
  }

  /** `isinstance(o, Checker) and o.is_active_for_hook(hook_name)`. */
  predicate Collects(o: PyObject, hookName: string)
    reads Target(o)
  {
    o.CheckerObj? && o.checker.IsActiveForHook(hookName)
  }

  /** The checkers one module contributes, in attribute order. */
  function ModuleCheckers(attrs: seq<PyObject>, hookName: string): seq<Checker>
    reads AttrRefs(attrs)
    decreases |attrs|
  {
    if attrs == [] then []
    else
      var o := attrs[|attrs| - 1];
      assert AttrRefs(attrs[..|attrs| - 1]) <= AttrRefs(attrs) by {
        forall j | 0 <= j < |attrs| - 1 ensures attrs[..|attrs| - 1][j] == attrs[j] { }
      }
      assert Target(o) <= AttrRefs(attrs);
      ModuleCheckers(attrs[..|attrs| - 1], hookName) + (if Collects(o, hookName) then [o.checker] else [])
  }

  /** The `checkers` list after the scan. */
  function Collected(units: seq<CheckerUnit>, hookName: string): seq<Checker>
    reads CheckerRefs(units)
    decreases |units|
  {
    if units == [] then []
    else
      var front := units[..|units| - 1];
      var u := units[|units| - 1];
      assert CheckerRefs(front) <= CheckerRefs(units) by {
        forall i | 0 <= i < |front| ensures front[i] == units[i] { }
      }
      assert AttrRefs(u.attrs) <= CheckerRefs(units);
      Collected(front, hookName) + (if IsCheckerModule(u.fileName) then ModuleCheckers(u.attrs, hookName) else [])
  }

  /** A module contributes exactly its attributes that are Checkers active for the hook. */
  lemma {:induction false} ModuleCheckersMembers(attrs: seq<PyObject>, hookName: string, c: Checker)
    ensures c in ModuleCheckers(attrs, hookName) <==>
              exists j :: 0 <= j < |attrs| && attrs[j] == CheckerObj(c) && c.IsActiveForHook(hookName)
    decreases |attrs|
  {
    if attrs != [] {
      var front := attrs[..|attrs| - 1];
      ModuleCheckersMembers(front, hookName, c);
      assert forall j :: 0 <= j < |front| ==> front[j] == attrs[j];
    }
  }

  /** A checker is collected exactly when it is an attribute of a checker module and
      is active for the hook; in particular every collected checker is active. */
  lemma {:induction false} CollectedMembers(units: seq<CheckerUnit>, hookName: string, c: Checker)
    ensures c in Collected(units, hookName) <==>
              exists i, j :: 0 <= i < |units| && IsCheckerModule(units[i].fileName)
                          && 0 <= j < |units[i].attrs| && units[i].attrs[j] == CheckerObj(c)
                          && c.IsActiveForHook(hookName)
    decreases |units|
  {
    if units != [] {
      var front := units[..|units| - 1];
      var u := units[|units| - 1];
      CollectedMembers(front, hookName, c);
      ModuleCheckersMembers(u.attrs, hookName, c);
      assert forall i :: 0 <= i < |front| ==> front[i] == units[i];
    }
  }

  /** The scan itself: modules in listing order, attributes in `dir()` order. */
  method CollectCheckers(units: seq<CheckerUnit>, hookName: string) returns (checkers: seq<Checker>)
    ensures checkers == Collected(units, hookName)
    ensures forall k :: 0 <= k < |checkers| ==> checkers[k].IsActiveForHook(hookName)
  {
    checkers := [];
    var i := 0;
    while i < |units|
      invariant 0 <= i <= |units|
      invariant checkers == Collected(units[..i], hookName)
    {
      var u := units[i];
      assert units[..i + 1][..i] == units[..i];
      if IsSuffix(".py", u.fileName) && u.fileName != "__init__.py" {
        ghost var before := checkers;
        var j := 0;
        while j < |u.attrs|
          invariant 0 <= j <= |u.attrs|
          invariant checkers == before + ModuleCheckers(u.attrs[..j], hookName)
        {
          var o := u.attrs[j];
          assert u.attrs[..j + 1][..j] == u.attrs[..j];
          if o.CheckerObj? && o.checker.IsActiveForHook(hookName) {
            checkers := checkers + [o.checker];
          }
          j := j + 1;
        }
        assert u.attrs[..j] == u.attrs;
      }
      i := i + 1;
    }
    assert units[..i] == units;
    forall k | 0 <= k < |checkers| ensures checkers[k].IsActiveForHook(hookName) {
      CollectedMembers(units, hookName, checkers[k]);
    }
  }
}
