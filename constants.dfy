/** The fixed set of Git hook names the tool answers to. */
module Constants {

  /** The thirteen client-side hooks, in Git's documentation order. */
  const HookNames: seq<string> := [
    "applypatch-msg",
    "pre-applypatch",
    "post-applypatch",
    "pre-commit",
    "prepare-commit-msg",
    "commit-msg",
    "post-commit",
    "pre-rebase",
    "post-checkout",
    "post-merge",
    "pre-auto-gc",
    "post-rewrite",
    "pre-push"
  ]

  predicate IsHookName(name: string) {
    name in HookNames
  }

  /** Thirteen distinct names. */
  lemma HookNamesDistinct()
    ensures |HookNames| == 13
    ensures forall i, j :: 0 <= i < j < |HookNames| ==> HookNames[i] != HookNames[j]
  {
  }

  /** Every hook the classifier treats specially is a hook name. */
  lemma HookNamesMembers()
    ensures IsHookName("pre-commit") && IsHookName("commit-msg") && IsHookName("post-checkout")
    ensures IsHookName("post-merge") && IsHookName("pre-push")
  {
  }

  /** Names Git uses for server-side hooks, and the empty name, are not hook names here. */
  lemma HookNamesForeign()
    ensures !IsHookName("") && !IsHookName("pre-receive") && !IsHookName("update")
  {
  }
}
