// When the desktop patch tools act and what they then change, told in terms of the tree and the input alone
// (desktop/runtime/tool-registry.js), and what follows for texts that change between reading and applying.
module ToolGuards {
  import opened Strings
  import opened ToolRegistry
  import opened Wrappers

  /** Version control, dependencies, build results and caches. */
  predicate Ignored(part: string) {
    || part == ".git" || part == ".hg" || part == ".svn" || part == "node_modules" || part == ".next" || part == "dist"
    || part == "build" || part == "coverage" || part == ".venv" || part == "venv" || part == "__pycache__"
    || part == ".pytest_cache" || part == ".turbo" || part == ".cache"
  }

  predicate OfSystem(part: string) {
    || Lower(part) == "windows" || Lower(part) == "program files" || Lower(part) == "program files (x86)"
    || Lower(part) == "system32"
  }

  /** No part of the path is an ignored or a system directory. */
  predicate Permitted(path: Path) {
    forall i :: 0 <= i < |path| ==> !Ignored(path[i]) && !OfSystem(path[i])
  }

  predicate Holds(tree: FileTree, path: Path, text: Content) {
    path in tree && tree[path] == File(text)
  }

  predicate HoldsFile(tree: FileTree, path: Path) {
    path in tree && tree[path].File?
  }

  /** No file stands above the path. */
  predicate NoFileAbove(tree: FileTree, path: Path) {
    forall i :: 0 <= i < |path| ==> !HoldsFile(tree, path[..i])
  }

  predicate InFolder(tree: FileTree, path: Path) {
    path != [] && path[..|path| - 1] in tree && tree[path[..|path| - 1]] == Folder
  }

  /** The guard of an apply: a hash that is given is the one of the text that is replaced. */
  predicate MayApply(tree: FileTree, input: PatchInput) {
    && Permitted(input.path)
    && (|| (input.operation == "folder" && input.path !in tree && InFolder(tree, input.path))
        || (&& input.operation == "create" && input.modifiedContent.Some?
            && input.path !in tree && NoFileAbove(tree, input.path))
        || (&& input.operation == "modify" && input.modifiedContent.Some?
            && HoldsFile(tree, input.path)
            && (input.originalSha256.Some? ==> input.originalSha256.value == Sha256(tree[input.path].content))))
  }

  lemma NamesOfOperations(operation: string)
    ensures operation == "folder" ==> operation != "" && operation !in {"delete", "rename", "move", "create", "modify"}
    ensures operation == "create" ==> operation != "" && operation !in {"delete", "rename", "move", "folder", "modify"}
    ensures operation == "modify" ==> operation != "" && operation !in {"delete", "rename", "move", "folder", "create"}
  {
    assert ["folder"[0], "create"[0], "modify"[0], "delete"[0], "rename"[0]] == ['f', 'c', 'm', 'd', 'r'];
    assert |"move"| == 4;
  }

  lemma PermittedIff(path: Path)
    ensures Permitted(path) <==> Allowed(path)
  {
    hide Ignored, OfSystem;
    forall part: string ensures !Ignored(part) && !OfSystem(part) <==> part !in IGNORED_DIRS && Lower(part) !in SYSTEM_DIRS {
      IgnoredIff(part);
      OfSystemIff(part);
    }
  }

  lemma IgnoredIff(part: string)
    ensures Ignored(part) <==> part in IGNORED_DIRS
  {
    var early := {".git", ".hg", ".svn", "node_modules", ".next", "dist", "build"};
    var late := {"coverage", ".venv", "venv", "__pycache__", ".pytest_cache", ".turbo", ".cache"};
    assert IGNORED_DIRS == early + late;
  }

  lemma OfSystemIff(part: string)
    ensures OfSystem(part) <==> Lower(part) in SYSTEM_DIRS
  {
    hide Lower;
  }

  lemma NoFileAboveIff(tree: FileTree, path: Path)
    ensures NoFileAbove(tree, path) <==> AncestorsFree(tree, path)
  {
    if NoFileAbove(tree, path) {
      forall i | 0 <= i < |path| ensures path[..i] !in tree || tree[path[..i]].Folder? {
        assert !HoldsFile(tree, path[..i]);
      }
    }
  }

  /** A patch is applied if and only if its guard holds; a refused one changes nothing at all. */
  lemma {:induction false} AppliesIff(s: State, input: PatchInput)
    ensures Apply(s, input).1.Ok? <==> MayApply(s.tree, input)
    ensures Apply(s, input).1.Err? ==> Apply(s, input).0 == s
  {
    hide Permitted, Allowed, NoFileAbove, AncestorsFree, MakeParents;
    NamesOfOperations(input.operation);
    PermittedIff(input.path);
    NoFileAboveIff(s.tree, input.path);
  }

  /** An applied patch changes its own path only, and for a create the folders that were missing above it. */
  lemma {:induction false} AppliedTree(s: State, input: PatchInput, p: Path)
    requires Apply(s, input).1.Ok?
    ensures Entry(Apply(s, input).0.tree, p) ==
      if p == input.path then Some(if input.operation == "folder" then Folder else File(input.modifiedContent.value))
      else if input.operation == "create" && p !in s.tree && |p| < |input.path| && p == input.path[..|p|] then Some(Folder)
      else Entry(s.tree, p)
  {
    hide Permitted, Allowed, NoFileAbove, AncestorsFree;
    AppliesIff(s, input);
    NamesOfOperations(input.operation);
    assert p in Ancestors(input.path) <==> |p| < |input.path| && p == input.path[..|p|];
  }

  /** A conflict is reported if and only if something is in the way: what would be created is there, what would be
      modified is not, or has another hash than the one given. */
  lemma {:induction false} ConflictIff(s: State, input: PatchInput)
    ensures Apply(s, input).1 == Err("patch_conflict") <==>
      && Permitted(input.path)
      && (|| (input.operation == "folder" && input.path in s.tree)
          || (input.operation == "create" && input.modifiedContent.Some? && HoldsFile(s.tree, input.path))
          || (&& input.operation == "modify" && input.modifiedContent.Some?
              && (HoldsFile(s.tree, input.path) ==>
                    && input.originalSha256.Some?
                    && input.originalSha256.value != Sha256(s.tree[input.path].content))))
  {
    hide Permitted, Allowed, AncestorsFree, MakeParents;
    NamesOfOperations(input.operation);
    PermittedIff(input.path);
    assert ["patch_conflict"[0], "tool_validation"[0], "review_required"[0], "ENOTDIR"[0], "EEXIST"[0], "ENOENT"[0]]
      == ['p', 't', 'r', 'E', 'E', 'E'];
  }

  /** In any run, a patch that names a hash replaces no text with another one; no create or folder replaces any. */
  lemma {:induction false} HashProtects(s: State, steps: seq<Step>, input: PatchInput, path: Path, text: Content)
    requires var now := ExecAll(s, steps);
      Holds(now.tree, path, text) && !Holds(Apply(now, input).0.tree, path, text)
    ensures input.operation == "modify" && path == input.path
    ensures input.originalSha256.Some? ==> input.originalSha256.value == Sha256(text)
    ensures input.modifiedContent.Some? && Holds(Apply(ExecAll(s, steps), input).0.tree, path, input.modifiedContent.value)
  {
    hide ExecAll, Apply, Permitted, NoFileAbove;
    var now := ExecAll(s, steps);
    AppliesIff(now, input);
    AppliedTree(now, input, path);
    assert Entry(now.tree, path) == Some(File(text));
  }

  /** A text read before any run and modified under its hash: once the path is permitted and a content given, the patch is
      applied if and only if the file holds that very text again, whatever was applied, rolled back or changed since. */
  lemma {:induction false} StaleModifyIsRefused(s: State, steps: seq<Step>, input: PatchInput, text: Content)
    requires Holds(s.tree, input.path, text) && input.originalSha256 == Some(Sha256(text))
    requires input.operation == "modify" && input.modifiedContent.Some? && Permitted(input.path)
    ensures var now := ExecAll(s, steps);
      var (after, r) := Apply(now, input);
      && (r.Ok? <==> Holds(now.tree, input.path, text))
      && (r.Err? ==> r == Err("patch_conflict") && after == now)
  {
    hide ExecAll, Apply, Permitted, NoFileAbove;
    var now := ExecAll(s, steps);
    NamesOfOperations(input.operation);
    AppliesIff(now, input);
    ConflictIff(now, input);
  }

  // ----- Rollback -----

  predicate Vacant(tree: FileTree, path: Path, text: Content) {
    path !in tree || Holds(tree, path, text)
  }

  predicate EmptyOrNoFolder(tree: FileTree, path: Path) {
    path in tree && tree[path] == Folder ==> forall p <- tree :: p != [] ==> p[..|p| - 1] != path
  }

  /** The guard of a rollback: its file is gone or still has the text that was applied, its folder is empty. */
  predicate MayRollBack(tree: FileTree, input: PatchInput) {
    if input.operation == "folder" then EmptyOrNoFolder(tree, input.path)
    else
      && input.modifiedContent.Some? && Vacant(tree, input.path, input.modifiedContent.value)
      && (if input.operation == "create" then NoFileAbove(tree, input.path) else InFolder(tree, input.path))
  }

  lemma AppliedSnapshot(s: State, input: PatchInput)
    requires Apply(s, input).1.Ok?
    ensures var (s1, r) := Apply(s, input);
      && r == Ok(s.nextId) && Permitted(input.path)
      && (input.operation != "folder" ==> input.modifiedContent.Some?)
      && s.nextId in s1.snapshots && (IdsBelow(s) ==> IdsBelow(s1))
      && s1.snapshots[s.nextId] == Snapshot(input.operation, input.path,
           if input.operation == "modify" then Some(s.tree[input.path].content) else None,
           if input.operation == "folder" then None else Some(Sha256(input.modifiedContent.value)), false)
  {
    hide Permitted, Allowed, NoFileAbove, AncestorsFree, MakeParents;
    AppliesIff(s, input);
    NamesOfOperations(input.operation);
  }

  /** Whatever ran since the apply, its rollback goes through if and only if it has not been made yet and its guard holds.
      Then it takes away what was created, folders only when they are empty, and gives a modified file its text back;
      nothing else changes, and nothing at all when it is refused. */
  lemma {:induction false} RollsBackIff(s: State, input: PatchInput, between: seq<Step>, p: Path)
    requires IdsBelow(s) && Apply(s, input).1.Ok?
    ensures var applied := Apply(s, input);
      var now := ExecAll(applied.0, between);
      var (after, r) := Rollback(now, applied.1.value);
      && applied.1.value in now.snapshots
      && (r.Ok? <==> !now.snapshots[applied.1.value].used && MayRollBack(now.tree, input))
      && (r.Err? ==> after == now)
      && (r.Ok? ==>
        Entry(after.tree, p) ==
          if p != input.path || (input.operation == "folder" && HoldsFile(now.tree, p)) then Entry(now.tree, p)
          else if input.operation == "modify" then Some(s.tree[p]) else None)
  {
    hide Apply, ExecAll, Permitted, Allowed, NoFileAbove, AncestorsFree;
    var applied := Apply(s, input);
    var now := ExecAll(applied.0, between);
    AppliesIff(s, input);
    AppliedSnapshot(s, input);
    SnapshotsSurvive(applied.0, between, applied.1.value);
    NamesOfOperations(input.operation);
    PermittedIff(input.path);
    NoFileAboveIff(now.tree, input.path);
  }
}
