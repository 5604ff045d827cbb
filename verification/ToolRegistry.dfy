// The desktop patch tools: hash-checked apply and rollback with single-use snapshots
// (desktop/runtime/tool-registry.js; the path policy is desktop/runtime/repository-policy.js).
module ToolRegistry {
  import opened Strings
  import opened Wrappers

  /** A path inside the repository as its components; [] is the root. */
  type Path = seq<string>

  type Content = string

  /** SHA-256, taken as injective. */
  datatype Digest = Sha256(content: Content)

  datatype Node = File(content: Content) | Folder

  type FileTree = map<Path, Node>

  const IGNORED_DIRS := {".git", ".hg", ".svn", "node_modules", ".next", "dist", "build", "coverage", ".venv",
                         "venv", "__pycache__", ".pytest_cache", ".turbo", ".cache"}

  const SYSTEM_DIRS := {"windows", "program files", "program files (x86)", "system32"}

  predicate Allowed(path: Path) {
    forall part <- path :: part !in IGNORED_DIRS && Lower(part) !in SYSTEM_DIRS
  }

  datatype PatchInput = PatchInput(
    operation: string,
    path: Path,
    modifiedContent: Option<Content>,
    originalSha256: Option<Digest>)

  datatype Snapshot = Snapshot(
    operation: string,
    path: Path,
    originalContent: Option<Content>,
    modifiedSha256: Option<Digest>,
    used: bool)

  datatype State = State(tree: FileTree, snapshots: map<nat, Snapshot>, nextId: nat)

  // ----- The file tree -----

  function Parent(path: Path): Path
    requires path != []
  {
    path[..|path| - 1]
  }

  /** The root exists and every entry sits in a folder. */
  predicate WellFormed(tree: FileTree) {
    && [] in tree && tree[[]].Folder?
    && forall p <- tree :: p != [] ==> Parent(p) in tree && tree[Parent(p)].Folder?
  }

  function ReadFile(tree: FileTree, path: Path): Option<Content> {
    if path in tree && tree[path].File? then Some(tree[path].content) else None
  }

  predicate IsFolder(tree: FileTree, path: Path) {
    path in tree && tree[path].Folder?
  }

  /** No file stands where a folder above `path` is needed. */
  predicate AncestorsFree(tree: FileTree, path: Path) {
    forall i :: 0 <= i < |path| ==> path[..i] !in tree || tree[path[..i]].Folder?
  }

  function Ancestors(path: Path): set<Path> {
    set i | 0 <= i < |path| :: path[..i]
  }

  /** `mkdir -p` of the folder that holds `path`. */
  function MakeParents(tree: FileTree, path: Path): FileTree {
    tree + map p | p in Ancestors(path) && p !in tree :: Folder
  }

  // ----- Validation and apply -----

  function Validate(tree: FileTree, input: PatchInput): (r: Result<Snapshot, string>) {
    if input.operation == "" then Err("tool_validation")
    else if input.operation in {"delete", "rename", "move"} then Err("review_required")
    else if !Allowed(input.path) then Err("tool_validation")
    else if input.operation == "folder" then
      if input.path in tree then Err("patch_conflict")
      else Ok(Snapshot("folder", input.path, None, None, false))
    else if input.operation !in {"create", "modify"} || input.modifiedContent.None? then Err("tool_validation")
    else
      var original := ReadFile(tree, input.path);
      if input.operation == "create" && original.Some? then Err("patch_conflict")
      else if input.operation == "modify" && original.None? then Err("patch_conflict")
      else if original.Some? && input.originalSha256.Some? && Sha256(original.value) != input.originalSha256.value then
        Err("patch_conflict")
      else
        Ok(Snapshot(input.operation, input.path, original, Some(Sha256(input.modifiedContent.value)), false))
  }

  /** The tree after a validated patch, or the file-system error it runs into. */
  function Write(tree: FileTree, input: PatchInput): (r: Result<FileTree, string>)
    requires Validate(tree, input).Ok?
  {
    var path := input.path;
    if input.operation == "modify" then Ok(tree[path := File(input.modifiedContent.value)])
    else if input.operation == "create" then
      if !AncestorsFree(tree, path) then Err("ENOTDIR")
      else if path in tree then Err("EEXIST")
      else Ok(MakeParents(tree, path)[path := File(input.modifiedContent.value)])
    else if path == [] || !IsFolder(tree, Parent(path)) then Err("ENOENT")
    else Ok(tree[path := Folder])
  }

  function Apply(s: State, input: PatchInput): (r: (State, Result<nat, string>)) {
    var v := Validate(s.tree, input);
    if v.Err? then (s, Err(v.error))
    else
      var w := Write(s.tree, input);
      if w.Err? then (s, Err(w.error))
      else (State(w.value, s.snapshots[s.nextId := v.value], s.nextId + 1), Ok(s.nextId))
  }

  // ----- Rollback -----

  predicate HasChild(tree: FileTree, path: Path) {
    exists p <- tree :: p != [] && Parent(p) == path
  }

  function Restore(tree: FileTree, snap: Snapshot): (r: Result<FileTree, string>) {
    var content := ReadFile(tree, snap.path);
    var changed := content.Some? && snap.modifiedSha256.Some? && Sha256(content.value) != snap.modifiedSha256.value;
    if !Allowed(snap.path) then Err("tool_validation")
    else if snap.operation == "create" then
      if changed then Err("patch_conflict")
      else if IsFolder(tree, snap.path) then Err("ERR_FS_EISDIR")
      else if !AncestorsFree(tree, snap.path) then Err("ENOTDIR")
      else Ok(tree - {snap.path})
    else if snap.operation == "modify" then
      if changed then Err("patch_conflict")
      else if IsFolder(tree, snap.path) then Err("EISDIR")
      else if snap.path == [] || !IsFolder(tree, Parent(snap.path)) then Err("ENOENT")
      else Ok(tree[snap.path := File(if snap.originalContent.Some? then snap.originalContent.value else "")])
    else
      if IsFolder(tree, snap.path) && HasChild(tree, snap.path) then Err("rollback_blocked")
      else if IsFolder(tree, snap.path) then Ok(tree - {snap.path})
      else Ok(tree)
  }

  function Rollback(s: State, id: nat): (r: (State, Result<(), string>)) {
    if id !in s.snapshots || s.snapshots[id].used then (s, Err("tool_validation"))
    else
      var w := Restore(s.tree, s.snapshots[id]);
      if w.Err? then (s, Err(w.error))
      else (s.(tree := w.value, snapshots := s.snapshots[id := s.snapshots[id].(used := true)]), Ok(()))
  }

  // ----- The registry itself -----

  class Registry {
    var tree: FileTree
    var rollbackSnapshots: map<nat, Snapshot>
    var nextId: nat

    ghost function View(): State
      reads this
    {
      State(tree, rollbackSnapshots, nextId)
    }

    constructor (tree: FileTree)
      ensures View() == State(tree, map[], 0)
    {
      this.tree, rollbackSnapshots, nextId := tree, map[], 0;
    }

    method CreateRollbackSnapshot(validated: Snapshot, originalContent: Option<Content>) returns (id: nat)
      modifies this`rollbackSnapshots, this`nextId
      ensures id == old(nextId) && nextId == id + 1
      ensures rollbackSnapshots == old(rollbackSnapshots)[id := validated.(originalContent := originalContent)]
    {
      id := nextId;
      rollbackSnapshots := rollbackSnapshots[id := validated.(originalContent := originalContent)];
      nextId := nextId + 1;
    }

    method ApplyPatch(input: PatchInput) returns (r: Result<nat, string>)
      modifies this
      ensures (View(), r) == Apply(old(View()), input)
    {
      var validation := Validate(tree, input);
      if validation.Err? {
        return Err(validation.error);
      }
      var originalContent: Option<Content> := None;
      var path := input.path;
      if input.operation == "modify" {
        originalContent := ReadFile(tree, path);
        tree := tree[path := File(input.modifiedContent.value)];
      } else if input.operation == "create" {
        if !AncestorsFree(tree, path) {
          return Err("ENOTDIR");
        }
        if path in tree {
          return Err("EEXIST");
        }
        tree := MakeParents(tree, path);
        tree := tree[path := File(input.modifiedContent.value)];
      } else {
        if path == [] || !IsFolder(tree, Parent(path)) {
          return Err("ENOENT");
        }
        tree := tree[path := Folder];
      }
      var id := CreateRollbackSnapshot(validation.value, originalContent);
      r := Ok(id);
    }

    method RollbackPatch(id: nat) returns (r: Result<(), string>)
      modifies this
      ensures (View(), r) == Rollback(old(View()), id)
    {
      if id !in rollbackSnapshots {
        return Err("tool_validation");
      }
      var snapshot := rollbackSnapshots[id];
      if snapshot.used {
        return Err("tool_validation");
      }
      var restored := Restore(tree, snapshot);
      if restored.Err? {
        return Err(restored.error);
      }
      tree := restored.value;
      rollbackSnapshots := rollbackSnapshots[id := snapshot.(used := true)];
      r := Ok(());
    }
  }

  // ----- One rollback, whatever happened in between -----

  /** Any use of the tools, and any other change of the tree. */
  datatype Step = ApplyStep(input: PatchInput) | RollbackStep(id: nat) | OtherChange(tree: FileTree)

  function Exec(s: State, step: Step): State {
    match step
    case ApplyStep(input) => Apply(s, input).0
    case RollbackStep(id) => Rollback(s, id).0
    case OtherChange(tree) => s.(tree := tree)
  }

  function ExecAll(s: State, steps: seq<Step>): State
    decreases |steps|
  {
    if steps == [] then s else ExecAll(Exec(s, steps[0]), steps[1..])
  }

  predicate IdsBelow(s: State) {
    forall id <- s.snapshots :: id < s.nextId
  }

  /** Snapshots are only ever marked used. */
  predicate SnapshotKept(s: State, s': State, id: nat) {
    && id in s.snapshots && id in s'.snapshots
    && s'.snapshots[id].(used := s.snapshots[id].used) == s.snapshots[id]
    && (s.snapshots[id].used ==> s'.snapshots[id].used)
  }

  lemma {:induction false} SnapshotsSurvive(s: State, steps: seq<Step>, id: nat)
    requires IdsBelow(s) && id in s.snapshots
    ensures IdsBelow(ExecAll(s, steps)) && SnapshotKept(s, ExecAll(s, steps), id)
    decreases |steps|
  {
    if steps != [] {
      SnapshotsSurvive(Exec(s, steps[0]), steps[1..], id);
    }
  }

  predicate FileOperation(operation: string) {
    operation == "create" || operation == "modify"
  }

  /** What a successful create or modify leaves: the new text at its path, and a fresh snapshot. */
  lemma ApplyFacts(s: State, input: PatchInput)
    requires FileOperation(input.operation) && Apply(s, input).1.Ok?
    ensures var (s1, r) := Apply(s, input);
      var path, original := input.path, ReadFile(s.tree, input.path);
      && input.modifiedContent.Some? && r == Ok(s.nextId) && s1.nextId == s.nextId + 1 && Allowed(path)
      && s1.snapshots == s.snapshots[s.nextId :=
           Snapshot(input.operation, path, original, Some(Sha256(input.modifiedContent.value)), false)]
      && (if input.operation == "create" then
            path !in s.tree && AncestorsFree(s.tree, path)
            && s1.tree == MakeParents(s.tree, path)[path := File(input.modifiedContent.value)]
          else original.Some? && s1.tree == s.tree[path := File(input.modifiedContent.value)])
  {
    hide Allowed, AncestorsFree, MakeParents;
  }

  /** The entry at `path`, or None when nothing is there. */
  function Entry(tree: FileTree, path: Path): Option<Node> {
    if path in tree then Some(tree[path]) else None
  }

  /** A create or modify rollback fails without touching the tree, or puts its path back exactly as it was just
      before its own apply and touches nothing else, whatever ran in between. */
  lemma {:induction false} RollbackRestoresOrRefuses(s: State, input: PatchInput, between: seq<Step>)
    requires IdsBelow(s) && FileOperation(input.operation)
    requires Apply(s, input).1.Ok?
    ensures var applied := Apply(s, input);
      var now := ExecAll(applied.0, between);
      var (after, r) := Rollback(now, applied.1.value);
      && (r.Err? ==> after == now)
      && (r.Ok? ==>
        && Entry(after.tree, input.path) == Entry(s.tree, input.path)
        && forall p :: p != input.path ==> Entry(after.tree, p) == Entry(now.tree, p))
  {
    hide Apply, ExecAll, Allowed, AncestorsFree, MakeParents, IsFolder;
    var applied := Apply(s, input);
    ApplyFacts(s, input);
    SnapshotsSurvive(applied.0, between, applied.1.value);
  }

  /** A snapshot that was rolled back once never succeeds again. */
  lemma {:induction false} RollbackOnce(s: State, id: nat, between: seq<Step>)
    requires IdsBelow(s) && Rollback(s, id).1.Ok?
    ensures Rollback(ExecAll(Rollback(s, id).0, between), id).1 == Err("tool_validation")
  {
    SnapshotsSurvive(Rollback(s, id).0, between, id);
  }

  // ----- A run of applies, undone in reverse -----

  function ApplyAll(s: State, inputs: seq<PatchInput>): (r: Result<(State, seq<nat>), string>)
    decreases |inputs|
  {
    if inputs == [] then Ok((s, []))
    else
      var (s', r) := Apply(s, inputs[0]);
      if r.Err? then Err(r.error)
      else match ApplyAll(s', inputs[1..])
        case Ok((end, ids)) => Ok((end, [r.value] + ids))
        case Err(e) => Err(e)
  }

  /** Rolls the snapshots back, the last one first. */
  function RollbackAll(s: State, ids: seq<nat>): (r: Result<State, string>)
    decreases |ids|
  {
    if ids == [] then Ok(s)
    else match RollbackAll(s, ids[1..])
      case Ok(s') => (var (end, r) := Rollback(s', ids[0]); if r.Ok? then Ok(end) else Err(r.error))
      case Err(e) => Err(e)
  }

  /** The same files; folders may only have been added. */
  ghost predicate SameFiles(a: FileTree, b: FileTree) {
    && (forall p :: ReadFile(a, p) == ReadFile(b, p))
    && (forall p :: IsFolder(a, p) ==> IsFolder(b, p))
  }

  lemma {:induction false} AncestorIsFolder(tree: FileTree, path: Path, i: nat)
    requires WellFormed(tree) && path in tree && i < |path|
    ensures IsFolder(tree, path[..i])
    decreases |path|
  {
    assert Parent(path) in tree;
    if i < |path| - 1 {
      AncestorIsFolder(tree, Parent(path), i);
      assert Parent(path)[..i] == path[..i];
    }
  }

  lemma ApplyKeepsWellFormed(s: State, input: PatchInput)
    requires WellFormed(s.tree) && FileOperation(input.operation) && Apply(s, input).1.Ok?
    ensures WellFormed(Apply(s, input).0.tree)
  {
    hide Apply, Allowed;
    ApplyFacts(s, input);
    var path := input.path;
    var tree' := Apply(s, input).0.tree;
    if input.operation == "create" {
      assert path != [];
      forall p | p in tree' && p != [] ensures IsFolder(tree', Parent(p)) {
        if p == path || (p in Ancestors(path) && p !in s.tree) {
          var i :| 0 < i <= |path| && p == path[..i];
          assert Parent(p) == path[..i - 1];
          assert Parent(p) in Ancestors(path);
        }
      }
    }
  }

  /** `now` has the files that applying `input` in `s` left, and still holds the unused snapshot. */
  ghost predicate AppliedAndKept(s: State, input: PatchInput, now: State) {
    var (s1, r) := Apply(s, input);
    && FileOperation(input.operation) && r.Ok?
    && WellFormed(s.tree) && WellFormed(now.tree) && SameFiles(s1.tree, now.tree)
    && r.value in now.snapshots && now.snapshots[r.value] == s1.snapshots[r.value]
  }

  lemma UndoSucceeds(s: State, input: PatchInput, now: State)
    requires AppliedAndKept(s, input, now)
    ensures var (end, r) := Rollback(now, Apply(s, input).1.value);
      && r.Ok?
      && end.tree == if input.operation == "create" then now.tree - {input.path}
                     else now.tree[input.path := File(ReadFile(s.tree, input.path).value)]
    ensures ReadFile(now.tree, input.path).Some? && input.path != [] && IsFolder(now.tree, Parent(input.path))
  {
    hide Apply, AncestorsFree, Allowed, MakeParents;
    ApplyFacts(s, input);
    var (s1, r) := Apply(s, input);
    var path := input.path;
    assert ReadFile(s1.tree, path) == Some(input.modifiedContent.value);
    assert path in now.tree && path != [];
    forall i | 0 <= i < |path| ensures IsFolder(now.tree, path[..i]) {
      AncestorIsFolder(now.tree, path, i);
    }
    assert AncestorsFree(now.tree, path) by {
      FoldersAreFree(now.tree, path);
    }
  }

  lemma FoldersAreFree(tree: FileTree, path: Path)
    requires forall i :: 0 <= i < |path| ==> IsFolder(tree, path[..i])
    ensures AncestorsFree(tree, path)
  {
  }

  lemma UndoFiles(s: State, input: PatchInput, now: State, p: Path)
    requires AppliedAndKept(s, input, now)
    ensures var tree := Rollback(now, Apply(s, input).1.value).0.tree;
      ReadFile(s.tree, p) == ReadFile(tree, p) && (IsFolder(s.tree, p) ==> IsFolder(tree, p))
  {
    hide Apply, Rollback, AncestorsFree, Allowed, WellFormed;
    ApplyFacts(s, input);
    UndoSucceeds(s, input, now);
    var s1 := Apply(s, input).0;
    assert ReadFile(s1.tree, p) == ReadFile(now.tree, p);
    assert IsFolder(s1.tree, p) ==> IsFolder(now.tree, p);
  }

  /** Undoing the last apply from a tree with the same files gives the files before it. */
  lemma {:induction false} UndoLast(s: State, input: PatchInput, now: State)
    requires AppliedAndKept(s, input, now)
    ensures var (end, r) := Rollback(now, Apply(s, input).1.value);
      && r.Ok? && SameFiles(s.tree, end.tree) && WellFormed(end.tree)
      && forall id <- now.snapshots :: id != Apply(s, input).1.value ==>
           id in end.snapshots && end.snapshots[id] == now.snapshots[id]
  {
    UndoSucceeds(s, input, now);
    forall p {
      UndoFiles(s, input, now, p);
    }
    var end := Rollback(now, Apply(s, input).1.value).0;
    forall p | p in end.tree && p != [] ensures IsFolder(end.tree, Parent(p)) {
      assert now.tree[Parent(p)].Folder?;
    }
  }

  lemma SameFilesAsItself(tree: FileTree)
    ensures SameFiles(tree, tree)
  {
  }

  /** Any run of successful create and modify patches, repeated paths included, is undone exactly by rolling back
      in reverse: every rollback succeeds and every file is as it was. */
  lemma {:induction false} ReverseUndo(s: State, inputs: seq<PatchInput>)
    requires WellFormed(s.tree) && IdsBelow(s)
    requires forall input <- inputs :: FileOperation(input.operation)
    requires ApplyAll(s, inputs).Ok?
    ensures var (end, ids) := ApplyAll(s, inputs).value;
      var back := RollbackAll(end, ids);
      && back.Ok? && SameFiles(s.tree, back.value.tree) && WellFormed(back.value.tree)
      && forall id <- s.snapshots :: id in back.value.snapshots && back.value.snapshots[id] == s.snapshots[id]
    decreases |inputs|
  {
    hide Apply, Rollback, SameFiles, WellFormed, FileOperation;
    var (end, ids) := ApplyAll(s, inputs).value;
    if inputs == [] {
      SameFilesAsItself(s.tree);
    } else {
      ApplyFacts(s, inputs[0]);
      var (s1, r) := Apply(s, inputs[0]);
      ApplyKeepsWellFormed(s, inputs[0]);
      ReverseUndo(s1, inputs[1..]);
      assert ids[1..] == ApplyAll(s1, inputs[1..]).value.1;
      UndoLast(s, inputs[0], RollbackAll(end, ids[1..]).value);
    }
  }
}
